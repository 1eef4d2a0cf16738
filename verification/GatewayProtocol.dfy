// The gateway as a step machine: any number of workers, supervisors and
// operators interleave, and every SQL statement or immediate transaction is one
// step.  An action that its actor could not take in the current state leaves
// the state alone, so every sequence of actions is a run.
module GatewayProtocol {
  import opened Basics
  import opened QueueTable
  import opened DeliveryLedger
  import opened ReplyDelivery

  // `capped`: the retry limit is forwarded to the expiry pass (the runtime
  // always does; the queue's own default is not to).
  datatype Config = Config(lease: int, maxRetries: nat, capped: bool, backoff: seq<int>)

  function ExpiryCap(cfg: Config): Option<int> { if cfg.capped then Some(cfg.maxRetries) else None }

  predicate ValidConfig(cfg: Config) { cfg.lease > 0 && |cfg.backoff| > 0 }

  // Where a worker is in its reply.
  datatype Phase =
    | Working
    | Gated                                      // it saw every row of its claim still its own
    | Reserved(channel: string)                  // it may send
    | Confirming(channel: string, id: string)    // the send returned an id
    | Releasing(channel: string)                 // the send reported "not delivered"

  // A claim in the hands of a live thread.  `ids[0]` keys the ledger; `begun`
  // are the channels on which this claim has begun a delivery.
  datatype Worker = Worker(ids: seq<nat>, phase: Phase, begun: set<string>)

  // The read half of the periodic expiry pass.
  datatype Snapshot = NoSnapshot | Snapshot(now: Time, requeue: seq<nat>, exhausted: seq<nat>)

  // What happened to an event since it was inserted, read off its row changes.
  datatype History = History(claims: nat, retries: nat, resets: nat, finishes: nat, lastClaim: Option<Token>)

  datatype State = State(
    rows: Table,
    history: seq<History>,
    ledger: Ledger,
    clock: Time,
    issued: set<Token>,
    workers: map<Token, Worker>,
    snapshot: Snapshot,
    failReads: map<(Token, nat), nat>,
    accepted: multiset<Key>)

  datatype Action =
    | Tick(seconds: nat)
    | Arrive(message: Message)
    | ExpiryRead
    | ExpiryWrite
    | ClaimRows(token: Token, sources: seq<string>, coalesce: bool)
    | RenewClaim(token: Token)
    | Gate(token: Token)
    | Begin(token: Token, channel: string)
    | Send(token: Token, attempt: Attempt)
    | Settle(token: Token)
    | Abandon(token: Token)
    | Crash(token: Token)
    | CompleteRow(token: Token, id: nat, response: string)
    | FailRead(token: Token, id: nat)
    | FailUpdate(token: Token, id: nat, error: string)
    | ResetRunning(id: nat, expected: Option<Token>, availableIn: nat, dropResume: bool)
    | Escalate(id: nat, error: string)
    | Retry(id: nat)

  const INIT := State([], [], map[], 0, {}, map[], NoSnapshot, map[], multiset{})

  // One message that arrives, for the concrete runs.
  const HELLO := Arrive(Message("telegram", None, None, None, "hi", NoMeta, None))

  function KeyOf(w: Worker, channel: string): Key
    requires w.ids != []
  {
    (w.ids[0], channel)
  }

  predicate MayClaim(s: State, a: Action) { a.ClaimRows? && a.token !in s.issued }

  predicate At(s: State, token: Token, phase: Phase) { token in s.workers && s.workers[token].phase == phase }

  predicate MayBegin(s: State, token: Token, channel: string) {
    At(s, token, Gated) && channel !in s.workers[token].begun && s.workers[token].ids != []
  }

  predicate MaySend(s: State, token: Token) {
    token in s.workers && s.workers[token].phase.Reserved? && s.workers[token].ids != []
  }

  predicate MaySettle(s: State, token: Token) {
    token in s.workers && (s.workers[token].phase.Confirming? || s.workers[token].phase.Releasing?)
    && s.workers[token].ids != []
  }

  // ---- the effect of an action on each part of the state --------------------

  function RowsAfter(cfg: Config, s: State, a: Action): (rows: Table)
    requires ValidConfig(cfg)
    ensures |rows| == |s.rows| || (a.Arrive? && |rows| == |s.rows| + 1)
  {
    match a
    case Arrive(m) => Enqueue(s.rows, m, s.clock)
    case ExpiryWrite =>
      if s.snapshot.NoSnapshot? then s.rows
      else
        var snap := s.snapshot;
        UpdateWhere(
          UpdateWhere(s.rows, (i: nat, r: Row) => i in snap.requeue && Expired(r, snap.now), (r: Row) => RequeuedRow(r, snap.now)),
          (i: nat, r: Row) => i in snap.exhausted && Expired(r, snap.now), (r: Row) => ExhaustedRow(r, snap.now))
    case ClaimRows(token, sources, coalesce) =>
      if MayClaim(s, a) then Claim(s.rows, token, s.clock, cfg.lease, sources, ExpiryCap(cfg), coalesce) else s.rows
    case RenewClaim(token) =>
      if token in s.workers then Renew(s.rows, s.workers[token].ids, token, s.clock + cfg.lease) else s.rows
    case CompleteRow(token, id, response) => Complete(s.rows, id, token, s.clock, response)
    case FailUpdate(token, id, error) =>
      if (token, id) in s.failReads
      then FailWrite(s.rows, id, token, s.failReads[(token, id)], s.clock, error, cfg.maxRetries, cfg.backoff)
      else s.rows
    case ResetRunning(id, expected, availableIn, dropResume) => Reset(s.rows, id, expected, s.clock + availableIn, dropResume)
    case Escalate(id, error) => MarkFailed(s.rows, id, s.clock, error)
    case Retry(id) => RetryNow(s.rows, id, s.clock)
    case _ => s.rows
  }

  function HistoryStep(h: History, r: Row, r': Row, id: nat, a: Action): History {
    var claimed := r'.lockedBy.Some? && r'.lockedBy != r.lockedBy;
    History(
      h.claims + (if claimed then 1 else 0),
      h.retries + (if a == Retry(id) then 1 else 0),
      h.resets + (if a.ResetRunning? && r.status.Running? && r'.status.Queued? then 1 else 0),
      h.finishes + (if !Terminal(r) && Terminal(r') then 1 else 0),
      if claimed then r'.lockedBy else h.lastClaim)
  }

  function HistoryAfter(cfg: Config, s: State, a: Action): (h: seq<History>)
    requires ValidConfig(cfg)
    ensures |h| == |RowsAfter(cfg, s, a)|
  {
    var rows' := RowsAfter(cfg, s, a);
    seq(|rows'|, i requires 0 <= i < |rows'| =>
      if i < |s.rows| && i < |s.history| then HistoryStep(s.history[i], s.rows[i], rows'[i], i, a)
      else History(0, 0, 0, 0, None))
  }

  function LedgerAfter(s: State, a: Action): Ledger {
    match a
    case Begin(token, channel) =>
      if MayBegin(s, token, channel) then Reserve(s.ledger, KeyOf(s.workers[token], channel), token, s.clock) else s.ledger
    case Settle(token) =>
      if MaySettle(s, token) then
        var w := s.workers[token];
        match w.phase
        case Confirming(channel, id) => Confirm(s.ledger, KeyOf(w, channel), Some(id), s.clock)
        case Releasing(channel) => Release(s.ledger, KeyOf(w, channel), token)
        case _ => s.ledger
      else s.ledger
    case _ => s.ledger
  }

  function AfterSend(channel: string, report: Report): Phase {
    match report
    case Delivered(id) => Confirming(channel, id)
    case NotDelivered => Releasing(channel)
    case Unclear => Working
  }

  function WorkersAfter(cfg: Config, s: State, a: Action): map<Token, Worker>
    requires ValidConfig(cfg)
  {
    match a
    case ClaimRows(token, sources, coalesce) =>
      var ids := ClaimIds(s.rows, s.clock, sources, ExpiryCap(cfg), coalesce);
      if MayClaim(s, a) && ids != [] then s.workers[token := Worker(ids, Working, {})] else s.workers
    case Gate(token) =>
      if At(s, token, Working) && OwnedCount(s.rows, s.workers[token].ids, token) == |s.workers[token].ids|
      then s.workers[token := s.workers[token].(phase := Gated)] else s.workers
    case Begin(token, channel) =>
      if MayBegin(s, token, channel) then
        var w := s.workers[token];
        var verdict := Judge(s.ledger, KeyOf(w, channel), token);
        s.workers[token := w.(phase := if verdict.Proceed? then Reserved(channel) else Working, begun := w.begun + {channel})]
      else s.workers
    case Send(token, attempt) =>
      if MaySend(s, token) then
        var w := s.workers[token];
        s.workers[token := w.(phase := AfterSend(w.phase.channel, Reported(attempt, true)))]
      else s.workers
    case Settle(token) =>
      if MaySettle(s, token) then s.workers[token := s.workers[token].(phase := Working)] else s.workers
    case Abandon(token) =>
      if token in s.workers then s.workers[token := s.workers[token].(phase := Working)] else s.workers
    case Crash(token) => s.workers - {token}
    case _ => s.workers
  }

  function SnapshotAfter(cfg: Config, s: State, a: Action): Snapshot {
    match a
    case ExpiryRead =>
      Snapshot(s.clock,
               SelectIds(s.rows, (i: nat, r: Row) => Expired(r, s.clock) && !Exhausted(r, ExpiryCap(cfg))),
               SelectIds(s.rows, (i: nat, r: Row) => Expired(r, s.clock) && Exhausted(r, ExpiryCap(cfg))))
    case ExpiryWrite => NoSnapshot
    case _ => s.snapshot
  }

  function ReadsAfter(s: State, a: Action): map<(Token, nat), nat> {
    match a
    case FailRead(token, id) =>
      if id < |s.rows| && OwnedBy(s.rows[id], token) then s.failReads[(token, id) := s.rows[id].retryCount] else s.failReads
    case FailUpdate(token, id, _) => s.failReads - {(token, id)}
    case _ => s.failReads
  }

  function AcceptedAfter(s: State, a: Action): multiset<Key> {
    if a.Send? && MaySend(s, a.token) then
      var k := KeyOf(s.workers[a.token], s.workers[a.token].phase.channel);
      s.accepted[k := s.accepted[k] + Accepts(a.attempt, true)]
    else s.accepted
  }

  function Next(cfg: Config, s: State, a: Action): State
    requires ValidConfig(cfg)
  {
    State(
      RowsAfter(cfg, s, a),
      HistoryAfter(cfg, s, a),
      LedgerAfter(s, a),
      if a.Tick? then s.clock + a.seconds else s.clock,
      if a.ClaimRows? then s.issued + {a.token} else s.issued,
      WorkersAfter(cfg, s, a),
      SnapshotAfter(cfg, s, a),
      ReadsAfter(s, a),
      AcceptedAfter(s, a))
  }

  // The state after a run.
  function Run(cfg: Config, s: State, actions: seq<Action>): State
    requires ValidConfig(cfg)
  {
    if actions == [] then s
    else Next(cfg, Run(cfg, s, actions[..|actions| - 1]), actions[|actions| - 1])
  }

  lemma {:induction false} RunAppends(cfg: Config, s: State, before: seq<Action>, after: seq<Action>)
    requires ValidConfig(cfg)
    ensures Run(cfg, s, before + after) == Run(cfg, Run(cfg, s, before), after)
  {
    hide Next;
    if after == [] {
      assert before + after == before;
    } else {
      var n := |after| - 1;
      RunAppends(cfg, s, before, after[..n]);
      assert (before + after)[..|before + after| - 1] == before + after[..n];
    }
  }

  lemma RunStep(cfg: Config, s: State, before: seq<Action>, a: Action)
    requires ValidConfig(cfg)
    ensures Run(cfg, s, before + [a]) == Next(cfg, Run(cfg, s, before), a)
  {
    hide Next;
    assert (before + [a])[..|before|] == before;
  }

  lemma RunFour(cfg: Config, s: State, a: Action, b: Action, c: Action, d: Action)
    requires ValidConfig(cfg)
    ensures Run(cfg, s, [a, b, c, d]) == Next(cfg, Next(cfg, Next(cfg, Next(cfg, s, a), b), c), d)
  {
    hide Next;
    RunStep(cfg, s, [], a);
    RunStep(cfg, s, [a], b);
    RunStep(cfg, s, [a, b], c);
    RunStep(cfg, s, [a, b, c], d);
    assert [a, b, c, d] == [a, b, c] + [d] && [a, b, c] == [a, b] + [c] && [a, b] == [a] + [b] && [a] == [] + [a];
  }
}
