// What every run keeps in the events table: row shape, fencing by claim token,
// at most one finish per operator retry, and a bound on claims.
module QueueSafety {
  import opened Basics
  import opened QueueTable
  import opened GatewayProtocol

  ghost predicate WellShaped(r: Row) {
    && (r.status.Running? <==> r.lockedBy.Some?)
    && (r.status.Running? <==> r.lockedUntil.Some?)
    && (Terminal(r) <==> r.finishedAt.Some?)
  }

  function Max(a: int, b: int): int { if a >= b then a else b }

  // How many more claims the row can take before only an operator can free it.
  function ClaimsLeft(r: Row, m: nat): nat {
    match r.status
    case Queued => Max(1, m + 1 - r.retryCount)
    case Running => Max(0, m - r.retryCount)
    case _ => 0
  }

  // Claims granted by the limit: m + 1 at first, m + 1 more per operator retry.
  function Allowance(m: nat, retries: nat): nat {
    if retries == 0 then m + 1 else Allowance(m, retries - 1) + m + 1
  }

  lemma {:induction false} AllowanceIsLinear(m: nat, retries: nat)
    ensures Allowance(m, retries) == (m + 1) * (1 + retries)
  {
    if retries > 0 {
      AllowanceIsLinear(m, retries - 1);
    }
  }

  ghost predicate RowOk(cfg: Config, issued: set<Token>, r: Row, h: History) {
    && WellShaped(r)
    && (r.lockedBy.Some? ==> r.lockedBy.value in issued && h.lastClaim == r.lockedBy)
    && h.finishes + (if Terminal(r) then 0 else 1) <= 1 + h.retries
    && (cfg.capped && h.retries == 0 && !Terminal(r) ==> r.retryCount <= cfg.maxRetries)
    && (cfg.capped ==> h.claims + ClaimsLeft(r, cfg.maxRetries) <= Allowance(cfg.maxRetries, h.retries) + h.resets)
  }

  // While a candidate of the expiry snapshot is still the lapsed claim that was
  // read, its split by retry count is still right.
  ghost predicate SnapshotOk(cfg: Config, s: State) {
    s.snapshot.Snapshot? ==>
      && s.snapshot.now <= s.clock
      && forall i: nat :: i < |s.rows| && Expired(s.rows[i], s.snapshot.now) ==>
           && (i in s.snapshot.requeue ==> !Exhausted(s.rows[i], ExpiryCap(cfg)))
           && (i in s.snapshot.exhausted ==> Exhausted(s.rows[i], ExpiryCap(cfg)))
  }

  // A retry count read by `fail` is still the row's while the reader owns it.
  ghost predicate ReadsOk(s: State) {
    forall t: Token, i: nat :: (t, i) in s.failReads ==>
      t in s.issued && i < |s.rows| && (OwnedBy(s.rows[i], t) ==> s.failReads[(t, i)] == s.rows[i].retryCount)
  }

  ghost predicate QueueOk(cfg: Config, s: State) {
    && |s.history| == |s.rows|
    && (forall i: nat :: i < |s.rows| ==> RowOk(cfg, s.issued, s.rows[i], s.history[i]))
    && SnapshotOk(cfg, s)
    && ReadsOk(s)
  }

  // ---- what each kind of step does to one row --------------------------------

  // The row leaves its claim: it ends, or is requeued for a retry it still has.
  ghost predicate LeavesClaim(cfg: Config, r: Row, r': Row) {
    r.status.Running? && WellShaped(r') && r'.lockedBy.None?
    && (r'.status.Queued? && cfg.capped ==> r'.retryCount == r.retryCount + 1 <= cfg.maxRetries)
  }

  lemma LeavingKeepsRowOk(cfg: Config, issued: set<Token>, r: Row, r': Row, h: History, i: nat, a: Action)
    requires RowOk(cfg, issued, r, h) && LeavesClaim(cfg, r, r') && a != Retry(i)
    ensures RowOk(cfg, issued, r', HistoryStep(h, r, r', i, a))
  {
  }

  lemma ExpiryLeavesClaim(cfg: Config, r: Row, now: Time)
    requires WellShaped(r) && Expired(r, now)
    ensures LeavesClaim(cfg, r, ExpireRow(r, now, ExpiryCap(cfg)))
  {
  }

  lemma ClaimKeepsRowOk(cfg: Config, issued: set<Token>, r: Row, h: History, i: nat, a: Action, token: Token, until: Time, now: Time)
    requires RowOk(cfg, issued, r, h) && token !in issued && a.ClaimRows?
    requires ExpireRow(r, now, ExpiryCap(cfg)).status.Queued?
    ensures var r' := ClaimedRow(ExpireRow(r, now, ExpiryCap(cfg)), token, until, now);
            RowOk(cfg, issued + {token}, r', HistoryStep(h, r, r', i, a))
  {
  }

  lemma ResetKeepsRowOk(cfg: Config, issued: set<Token>, r: Row, h: History, i: nat, a: Action, availableAt: Time, drop: bool)
    requires RowOk(cfg, issued, r, h) && r.status.Running? && a.ResetRunning?
    ensures var r' := ResetRow(r, availableAt, drop); RowOk(cfg, issued, r', HistoryStep(h, r, r', i, a))
  {
  }

  lemma RenewKeepsRowOk(cfg: Config, issued: set<Token>, r: Row, h: History, i: nat, a: Action, until: Time)
    requires RowOk(cfg, issued, r, h) && r.status.Running? && a.RenewClaim?
    ensures var r' := r.(lockedUntil := Some(until)); RowOk(cfg, issued, r', HistoryStep(h, r, r', i, a))
  {
  }

  lemma RetryKeepsRowOk(cfg: Config, issued: set<Token>, r: Row, h: History, i: nat, now: Time)
    requires RowOk(cfg, issued, r, h)
    ensures var r' := RetriedRow(r, now); RowOk(cfg, issued, r', HistoryStep(h, r, r', i, Retry(i)))
  {
  }

  // The effect of an action on row i alone.
  ghost function RowAfter(cfg: Config, s: State, a: Action, i: nat): Row
    requires ValidConfig(cfg) && i < |s.rows|
  {
    var r := s.rows[i];
    match a
    case ExpiryWrite =>
      if s.snapshot.Snapshot? && (i in s.snapshot.requeue || i in s.snapshot.exhausted)
      then ExpireRow(r, s.snapshot.now, ExpiryCap(cfg)) else r
    case ClaimRows(token, sources, coalesce) =>
      if !MayClaim(s, a) then r
      else
        var live := ExpireRow(r, s.clock, ExpiryCap(cfg));
        if i in ClaimIds(s.rows, s.clock, sources, ExpiryCap(cfg), coalesce)
        then ClaimedRow(live, token, s.clock + cfg.lease, s.clock) else live
    case RenewClaim(token) =>
      if token in s.workers && i in s.workers[token].ids && OwnedBy(r, token)
      then r.(lockedUntil := Some(s.clock + cfg.lease)) else r
    case CompleteRow(token, id, response) =>
      if id == i && OwnedBy(r, token) then DoneRow(r, s.clock, response) else r
    case FailUpdate(token, id, error) =>
      if id == i && OwnedBy(r, token) && (token, id) in s.failReads
      then FailedRow(r, r.retryCount, s.clock, error, cfg.maxRetries, cfg.backoff) else r
    case ResetRunning(id, expected, availableIn, drop) =>
      if id == i && r.status.Running? && (expected.Some? ==> r.lockedBy == expected)
      then ResetRow(r, s.clock + availableIn, drop) else r
    case Escalate(id, error) => if id == i && r.status.Running? then EscalatedRow(r, s.clock, error) else r
    case Retry(id) => if id == i then RetriedRow(r, s.clock) else r
    case _ => r
  }

  // The stale halves of the expiry pass and of `fail` make no difference: their
  // updates are guarded by the claim that was read, and the counts go with it.
  lemma RowsAfterRowwise(cfg: Config, s: State, a: Action, i: nat)
    requires ValidConfig(cfg) && QueueOk(cfg, s) && i < |s.rows|
    ensures i < |RowsAfter(cfg, s, a)| && RowsAfter(cfg, s, a)[i] == RowAfter(cfg, s, a, i)
  {
    if a.ClaimRows? {
      ClaimIsRowwise(cfg, s, a, i);
    } else if a.ExpiryWrite? {
      assert RowOk(cfg, s.issued, s.rows[i], s.history[i]);
      ExpiryWriteIsRowwise(cfg, s, i);
    }
  }

  lemma ClaimIsRowwise(cfg: Config, s: State, a: Action, i: nat)
    requires ValidConfig(cfg) && i < |s.rows| && a.ClaimRows?
    ensures RowsAfter(cfg, s, a)[i] == RowAfter(cfg, s, a, i)
  {
    hide ExpireRow, ClaimedRow, BatchIds;
    var live := Expire(s.rows, s.clock, ExpiryCap(cfg));
    assert live[i] == ExpireRow(s.rows[i], s.clock, ExpiryCap(cfg));
  }

  lemma ExpiryWriteIsRowwise(cfg: Config, s: State, i: nat)
    requires ValidConfig(cfg) && i < |s.rows| && SnapshotOk(cfg, s)
    ensures RowsAfter(cfg, s, ExpiryWrite)[i] == RowAfter(cfg, s, ExpiryWrite, i)
  {
  }

  lemma ClaimedRowsWereReady(cfg: Config, s: State, a: Action, i: nat)
    requires a.ClaimRows? && i in ClaimIds(s.rows, s.clock, a.sources, ExpiryCap(cfg), a.coalesce)
    ensures i < |s.rows| && ExpireRow(s.rows[i], s.clock, ExpiryCap(cfg)).status.Queued?
  {
    var live := Expire(s.rows, s.clock, ExpiryCap(cfg));
    assert Ready(live[i], s.clock, a.sources);
  }

  lemma OkRowIsWellShaped(cfg: Config, issued: set<Token>, r: Row, h: History)
    requires RowOk(cfg, issued, r, h)
    ensures WellShaped(r)
  {
  }

  lemma SameRowKeepsRowOk(cfg: Config, issued: set<Token>, r: Row, h: History, i: nat, a: Action)
    requires RowOk(cfg, issued, r, h) && a != Retry(i)
    ensures RowOk(cfg, issued, r, HistoryStep(h, r, r, i, a))
  {
  }

  lemma MoreTokensKeepRowOk(cfg: Config, issued: set<Token>, token: Token, r: Row, h: History)
    ensures RowOk(cfg, issued, r, h) ==> RowOk(cfg, issued + {token}, r, h)
  {
  }

  lemma ClaimRowPreserved(cfg: Config, s: State, a: Action, i: nat)
    requires ValidConfig(cfg) && i < |s.rows| == |s.history| && a.ClaimRows?
    requires RowOk(cfg, s.issued, s.rows[i], s.history[i])
    ensures var r' := RowAfter(cfg, s, a, i);
            RowOk(cfg, s.issued + {a.token}, r', HistoryStep(s.history[i], s.rows[i], r', i, a))
  {
    hide RowOk, ClaimIds, HistoryStep, ClaimedRow;
    var r, h, r' := s.rows[i], s.history[i], RowAfter(cfg, s, a, i);
    if MayClaim(s, a) {
      OkRowIsWellShaped(cfg, s.issued, r, h);
      MoreTokensKeepRowOk(cfg, s.issued, a.token, r', HistoryStep(h, r, r', i, a));
      if i in ClaimIds(s.rows, s.clock, a.sources, ExpiryCap(cfg), a.coalesce) {
        ClaimedRowsWereReady(cfg, s, a, i);
        ClaimKeepsRowOk(cfg, s.issued, r, h, i, a, a.token, s.clock + cfg.lease, s.clock);
      } else if Expired(r, s.clock) {
        ExpiryLeavesClaim(cfg, r, s.clock);
        LeavingKeepsRowOk(cfg, s.issued, r, r', h, i, a);
      } else {
        SameRowKeepsRowOk(cfg, s.issued, r, h, i, a);
      }
    } else {
      SameRowKeepsRowOk(cfg, s.issued, r, h, i, a);
      MoreTokensKeepRowOk(cfg, s.issued, a.token, r', HistoryStep(h, r, r', i, a));
    }
  }

  lemma OkIsShaped(cfg: Config, issued: set<Token>, r: Row, h: History)
    requires RowOk(cfg, issued, r, h)
    ensures WellShaped(r)
  {
  }

  lemma RowPreserved(cfg: Config, s: State, a: Action, i: nat)
    requires ValidConfig(cfg) && i < |s.rows| == |s.history|
    requires RowOk(cfg, s.issued, s.rows[i], s.history[i])
    ensures var r' := RowAfter(cfg, s, a, i);
            RowOk(cfg, if a.ClaimRows? then s.issued + {a.token} else s.issued, r', HistoryStep(s.history[i], s.rows[i], r', i, a))
  {
    hide HistoryStep, RowOk;
    var r, h, r' := s.rows[i], s.history[i], RowAfter(cfg, s, a, i);
    OkIsShaped(cfg, s.issued, r, h);
    if r' == r && a != Retry(i) {
      SameRowKeepsRowOk(cfg, s.issued, r, h, i, a);
      if a.ClaimRows? {
        MoreTokensKeepRowOk(cfg, s.issued, a.token, r, HistoryStep(h, r, r, i, a));
      }
      return;
    }
    match a
    case ExpiryWrite =>
      ExpiryLeavesClaim(cfg, r, s.snapshot.now);
      LeavingKeepsRowOk(cfg, s.issued, r, r', h, i, a);
    case ClaimRows(_, _, _) => ClaimRowPreserved(cfg, s, a, i);
    case CompleteRow(_, _, _) => LeavingKeepsRowOk(cfg, s.issued, r, r', h, i, a);
    case FailUpdate(_, _, _) => LeavingKeepsRowOk(cfg, s.issued, r, r', h, i, a);
    case Escalate(_, _) => LeavingKeepsRowOk(cfg, s.issued, r, r', h, i, a);
    case ResetRunning(_, _, availableIn, drop) => ResetKeepsRowOk(cfg, s.issued, r, h, i, a, s.clock + availableIn, drop);
    case Retry(id) => if id == i { RetryKeepsRowOk(cfg, s.issued, r, h, i, s.clock); }
    case RenewClaim(_) => RenewKeepsRowOk(cfg, s.issued, r, h, i, a, s.clock + cfg.lease);
    case _ => assert false;
  }

  lemma SnapshotPreserved(cfg: Config, s: State, a: Action)
    requires ValidConfig(cfg) && QueueOk(cfg, s)
    ensures SnapshotOk(cfg, Next(cfg, s, a))
  {
    hide HistoryAfter, WorkersAfter, LedgerAfter, ReadsAfter, AcceptedAfter;
    var s' := Next(cfg, s, a);
    if s'.snapshot.Snapshot? && !a.ExpiryRead? {
      var now := s.snapshot.now;
      forall i: nat | i < |s'.rows| && Expired(s'.rows[i], now) && (i in s.snapshot.requeue || i in s.snapshot.exhausted)
        ensures i < |s.rows| ==> s'.rows[i] == s.rows[i]
        ensures i < |s.rows|
      {
        if i < |s.rows| {
          RowsAfterRowwise(cfg, s, a, i);
        }
      }
    }
  }

  lemma ReadsPreserved(cfg: Config, s: State, a: Action)
    requires ValidConfig(cfg) && QueueOk(cfg, s)
    ensures ReadsOk(Next(cfg, s, a))
  {
    hide RowsAfter, HistoryAfter, WorkersAfter, LedgerAfter, SnapshotAfter, AcceptedAfter;
    var s' := Next(cfg, s, a);
    forall t: Token, i: nat | (t, i) in s'.failReads
      ensures t in s'.issued && i < |s'.rows| && (OwnedBy(s'.rows[i], t) ==> s'.failReads[(t, i)] == s'.rows[i].retryCount)
    {
      if i < |s.rows| {
        RowsAfterRowwise(cfg, s, a, i);
        assert RowOk(cfg, s.issued, s.rows[i], s.history[i]);
      }
    }
  }

  lemma QueuePreserved(cfg: Config, s: State, a: Action)
    requires ValidConfig(cfg) && QueueOk(cfg, s)
    ensures QueueOk(cfg, Next(cfg, s, a))
  {
    var s' := Next(cfg, s, a);
    forall i: nat | i < |s'.rows| ensures RowOk(cfg, s'.issued, s'.rows[i], s'.history[i]) {
      if i < |s.rows| {
        RowsAfterRowwise(cfg, s, a, i);
        RowPreserved(cfg, s, a, i);
      }
    }
    SnapshotPreserved(cfg, s, a);
    ReadsPreserved(cfg, s, a);
  }

  lemma {:induction false} QueueOkOnEveryRun(cfg: Config, actions: seq<Action>)
    requires ValidConfig(cfg)
    ensures QueueOk(cfg, Run(cfg, INIT, actions))
  {
    if actions != [] {
      QueueOkOnEveryRun(cfg, actions[..|actions| - 1]);
      QueuePreserved(cfg, Run(cfg, INIT, actions[..|actions| - 1]), actions[|actions| - 1]);
    }
  }

  // In every run, `running` goes with a lock and a lease, and a terminal status
  // with a finish time.
  lemma TableShapeOnEveryRun(cfg: Config, actions: seq<Action>, i: nat)
    requires ValidConfig(cfg) && i < |Run(cfg, INIT, actions).rows|
    ensures WellShaped(Run(cfg, INIT, actions).rows[i])
  {
    QueueOkOnEveryRun(cfg, actions);
    var s := Run(cfg, INIT, actions);
    assert RowOk(cfg, s.issued, s.rows[i], s.history[i]);
  }

  // The unguarded `fail` keeps that shape except exactly when it requeues a row
  // that had already ended: the old finish time stays on a queued row.
  lemma UnguardedFailShape(r: Row, now: Time, error: string, maxRetries: int, backoff: seq<int>)
    requires WellShaped(r) && |backoff| > 0
    ensures WellShaped(FailedRow(r, r.retryCount, now, error, maxRetries, backoff))
            <==> !(Terminal(r) && r.retryCount + 1 <= maxRetries)
  {
  }

  // Such a call: an event done on its first attempt is failed once more.
  lemma UnguardedFailBreaksShape()
    ensures
      var done := Row("telegram", None, None, None, "hi", NoMeta, Done, 0, 0, None, None, Some(0), Some(5), 0, Some("ok"), None);
      var r' := FailedRow(done, 0, 7, "late", 3, DEFAULT_RETRY_BACKOFF_SECONDS);
      WellShaped(done) && !WellShaped(r') && r'.status.Queued? && r'.finishedAt == Some(5)
  {
  }

  // ---- fencing -----------------------------------------------------------------

  ghost predicate Fenced(s: State, token: Token, i: nat) {
    token in s.issued && i < |s.rows| && s.rows[i].lockedBy != Some(token)
  }

  lemma FencedStep(cfg: Config, s: State, a: Action, token: Token, i: nat)
    requires ValidConfig(cfg) && QueueOk(cfg, s) && Fenced(s, token, i)
    ensures Fenced(Next(cfg, s, a), token, i)
  {
    RowsAfterRowwise(cfg, s, a, i);
  }

  // Once a token is not the row's, it never is again.
  lemma {:induction false} FencedForever(cfg: Config, before: seq<Action>, after: seq<Action>, token: Token, i: nat)
    requires ValidConfig(cfg) && Fenced(Run(cfg, INIT, before), token, i)
    ensures Fenced(Run(cfg, INIT, before + after), token, i)
  {
    if after == [] {
      assert before + after == before;
    } else {
      var most, last := after[..|after| - 1], after[|after| - 1];
      assert before + after == (before + most) + [last];
      FencedForever(cfg, before, most, token, i);
      QueueOkOnEveryRun(cfg, before + most);
      RunStep(cfg, INIT, before + most, last);
      FencedStep(cfg, Run(cfg, INIT, before + most), last, token, i);
    }
  }

  // What a guarded write made with `token` does to row i: nothing.
  ghost predicate Powerless(cfg: Config, s: State, token: Token, i: nat)
    requires ValidConfig(cfg) && i < |s.rows|
  {
    && (forall response :: RowsAfter(cfg, s, CompleteRow(token, i, response)) == s.rows)
    && (forall error :: RowsAfter(cfg, s, FailUpdate(token, i, error)) == s.rows)
    && (forall d, drop :: RowsAfter(cfg, s, ResetRunning(i, Some(token), d, drop)) == s.rows)
    && RowsAfter(cfg, s, RenewClaim(token))[i] == s.rows[i]
    && (forall ids: seq<nat> :: i !in OwnedIds(s.rows, ids, token))
  }

  lemma FencedIsPowerless(cfg: Config, s: State, token: Token, i: nat)
    requires ValidConfig(cfg) && Fenced(s, token, i)
    ensures Powerless(cfg, s, token, i)
  {
    forall response ensures RowsAfter(cfg, s, CompleteRow(token, i, response)) == s.rows {
      assert Complete(s.rows, i, token, s.clock, response) == s.rows;
    }
    forall error ensures RowsAfter(cfg, s, FailUpdate(token, i, error)) == s.rows {
      if (token, i) in s.failReads {
        assert FailWrite(s.rows, i, token, s.failReads[(token, i)], s.clock, error, cfg.maxRetries, cfg.backoff) == s.rows;
      }
    }
    forall d: nat, drop: bool ensures RowsAfter(cfg, s, ResetRunning(i, Some(token), d, drop)) == s.rows {
      assert Reset(s.rows, i, Some(token), s.clock + d, drop) == s.rows;
    }
  }

  // So from then on every guarded completion, failure, reset and renewal made
  // with it leaves the row alone, and the ownership count misses the row.
  lemma FencedTokenIsPowerless(cfg: Config, before: seq<Action>, after: seq<Action>, token: Token, i: nat)
    requires ValidConfig(cfg) && Fenced(Run(cfg, INIT, before), token, i)
    ensures i < |Run(cfg, INIT, before + after).rows|
    ensures Powerless(cfg, Run(cfg, INIT, before + after), token, i)
  {
    FencedForever(cfg, before, after, token, i);
    FencedIsPowerless(cfg, Run(cfg, INIT, before + after), token, i);
  }

  lemma DoneStep(cfg: Config, s: State, a: Action, i: nat)
    requires ValidConfig(cfg) && i < |s.rows| == |s.history| && RowOk(cfg, s.issued, s.rows[i], s.history[i])
    requires !s.rows[i].status.Done? && RowAfter(cfg, s, a, i).status.Done?
    ensures a.CompleteRow? && a.id == i && s.history[i].lastClaim == Some(a.token) && s.rows[i].status.Running?
  {
  }

  // A row becomes `done` only by a completion made with the token of its latest claim.
  lemma DoneOnlyByLatestClaim(cfg: Config, actions: seq<Action>, a: Action, i: nat)
    requires ValidConfig(cfg) && i < |Run(cfg, INIT, actions).rows|
    requires var s := Run(cfg, INIT, actions);
             !s.rows[i].status.Done? && RowsAfter(cfg, s, a)[i].status.Done?
    ensures var s := Run(cfg, INIT, actions);
            |s.history| == |s.rows|
            && a.CompleteRow? && a.id == i && s.history[i].lastClaim == Some(a.token) && s.rows[i].status.Running?
  {
    QueueOkOnEveryRun(cfg, actions);
    var s := Run(cfg, INIT, actions);
    RowsAfterRowwise(cfg, s, a, i);
    DoneStep(cfg, s, a, i);
  }

  lemma FailStep(cfg: Config, s: State, a: Action, i: nat)
    requires ValidConfig(cfg) && i < |s.rows| == |s.history| && RowOk(cfg, s.issued, s.rows[i], s.history[i])
    requires a.FailUpdate? && RowAfter(cfg, s, a, i) != s.rows[i]
    ensures a.id == i && s.history[i].lastClaim == Some(a.token) && s.rows[i].status.Running?
  {
  }

  // A worker's failure changes a row only if it was made with the token of the row's
  // latest claim, while running.
  lemma FailOnlyByLatestClaim(cfg: Config, actions: seq<Action>, a: Action, i: nat)
    requires ValidConfig(cfg) && i < |Run(cfg, INIT, actions).rows| && a.FailUpdate?
    requires var s := Run(cfg, INIT, actions); RowsAfter(cfg, s, a)[i] != s.rows[i]
    ensures var s := Run(cfg, INIT, actions);
            |s.history| == |s.rows|
            && a.id == i && s.history[i].lastClaim == Some(a.token) && s.rows[i].status.Running?
  {
    QueueOkOnEveryRun(cfg, actions);
    var s := Run(cfg, INIT, actions);
    RowsAfterRowwise(cfg, s, a, i);
    FailStep(cfg, s, a, i);
  }

  ghost predicate Ended(s: State, i: nat) { i < |s.rows| && Terminal(s.rows[i]) }

  lemma EndedStep(cfg: Config, s: State, a: Action, i: nat)
    requires ValidConfig(cfg) && QueueOk(cfg, s) && Ended(s, i) && a != Retry(i)
    ensures i < |RowsAfter(cfg, s, a)| && RowsAfter(cfg, s, a)[i] == s.rows[i]
  {
    hide RowsAfter, ClaimIds, QueueOk;
    RowsAfterRowwise(cfg, s, a, i);
    if a.ClaimRows? && i in ClaimIds(s.rows, s.clock, a.sources, ExpiryCap(cfg), a.coalesce) {
      ClaimedRowsWereReady(cfg, s, a, i);
    }
  }

  ghost predicate NoRetryOf(actions: seq<Action>, i: nat) { forall k :: 0 <= k < |actions| ==> actions[k] != Retry(i) }

  // A row that has ended stays as it is, column by column, until an operator retries it.
  lemma {:induction false} EndedUntilRetried(cfg: Config, before: seq<Action>, after: seq<Action>, i: nat)
    requires ValidConfig(cfg) && Ended(Run(cfg, INIT, before), i) && NoRetryOf(after, i)
    ensures i < |Run(cfg, INIT, before + after).rows|
    ensures Run(cfg, INIT, before + after).rows[i] == Run(cfg, INIT, before).rows[i]
  {
    hide Run, HistoryAfter, LedgerAfter, WorkersAfter, SnapshotAfter, ReadsAfter, AcceptedAfter, RowsAfter, QueueOk;
    if after == [] {
      assert before + after == before;
    } else {
      var most, last := after[..|after| - 1], after[|after| - 1];
      assert before + after == (before + most) + [last];
      EndedUntilRetried(cfg, before, most, i);
      QueueOkOnEveryRun(cfg, before + most);
      RunStep(cfg, INIT, before + most, last);
      EndedStep(cfg, Run(cfg, INIT, before + most), last, i);
    }
  }

  lemma FinishStep(cfg: Config, s: State, a: Action, i: nat)
    requires ValidConfig(cfg) && QueueOk(cfg, s) && i < |s.rows| && a != Retry(i)
    ensures var s' := Next(cfg, s, a);
            && i < |s'.rows| == |s'.history|
            && (Ended(s, i) ==> Ended(s', i))
            && s'.history[i].finishes == s.history[i].finishes + if !Ended(s, i) && Ended(s', i) then 1 else 0
  {
    hide RowsAfter, LedgerAfter, WorkersAfter, SnapshotAfter, ReadsAfter, AcceptedAfter;
    if Ended(s, i) {
      EndedStep(cfg, s, a, i);
    }
  }

  // Between two operator retries a row ends at most once: it ended meanwhile exactly
  // when it had not ended before and has ended now.
  lemma {:induction false} OneFinishBetweenRetries(cfg: Config, before: seq<Action>, after: seq<Action>, i: nat)
    requires ValidConfig(cfg) && i < |Run(cfg, INIT, before).rows| && NoRetryOf(after, i)
    ensures var s, s' := Run(cfg, INIT, before), Run(cfg, INIT, before + after);
            && |s.history| == |s.rows| && i < |s'.rows| == |s'.history|
            && (Ended(s, i) ==> Ended(s', i))
            && s'.history[i].finishes == s.history[i].finishes + if !Ended(s, i) && Ended(s', i) then 1 else 0
  {
    hide Run, Next, Ended, RowOk, SnapshotOk, ReadsOk;
    if after == [] {
      assert before + after == before;
      QueueOkOnEveryRun(cfg, before);
    } else {
      var most, last := after[..|after| - 1], after[|after| - 1];
      assert before + after == (before + most) + [last];
      OneFinishBetweenRetries(cfg, before, most, i);
      QueueOkOnEveryRun(cfg, before + most);
      RunStep(cfg, INIT, before + most, last);
      FinishStep(cfg, Run(cfg, INIT, before + most), last, i);
    }
  }

  // Over a whole run, a row ends at most once more than operators requeued it.
  lemma FinishesAreBounded(cfg: Config, actions: seq<Action>, i: nat)
    requires ValidConfig(cfg) && i < |Run(cfg, INIT, actions).rows|
    ensures var s := Run(cfg, INIT, actions);
            |s.history| == |s.rows| && s.history[i].finishes <= 1 + s.history[i].retries
  {
    QueueOkOnEveryRun(cfg, actions);
    var s := Run(cfg, INIT, actions);
    assert RowOk(cfg, s.issued, s.rows[i], s.history[i]);
  }

  // ---- bounded work ----------------------------------------------------------------

  ghost predicate WithinClaimBound(cfg: Config, r: Row, h: History) {
    && h.claims <= (cfg.maxRetries + 1) * (1 + h.retries) + h.resets
    && (h.retries == 0 && !Terminal(r) ==> r.retryCount <= cfg.maxRetries)
  }

  lemma RowWithinClaimBound(cfg: Config, issued: set<Token>, r: Row, h: History)
    requires RowOk(cfg, issued, r, h) && cfg.capped
    ensures WithinClaimBound(cfg, r, h)
  {
    AllowanceIsLinear(cfg.maxRetries, h.retries);
  }

  // With the limit forwarded to the expiry pass, an event is claimed at most
  // m + 1 times, plus m + 1 per operator retry and one per silent reset.
  lemma ClaimsAreBounded(cfg: Config, actions: seq<Action>, i: nat)
    requires ValidConfig(cfg) && cfg.capped && i < |Run(cfg, INIT, actions).rows|
    ensures var s := Run(cfg, INIT, actions);
            |s.history| == |s.rows| && WithinClaimBound(cfg, s.rows[i], s.history[i])
  {
    QueueOkOnEveryRun(cfg, actions);
    var s := Run(cfg, INIT, actions);
    RowWithinClaimBound(cfg, s.issued, s.rows[i], s.history[i]);
  }

  function RowWork(r: Row, m: nat): nat { 2 * ClaimsLeft(r, m) + if r.status.Running? then 1 else 0 }

  function WorkLeft(rows: Table, m: nat): nat {
    if rows == [] then 0 else WorkLeft(rows[..|rows| - 1], m) + RowWork(rows[|rows| - 1], m)
  }

  lemma {:induction false} WorkLeftIsMonotone(rows: Table, rows': Table, m: nat)
    requires |rows| == |rows'|
    requires forall i :: 0 <= i < |rows| ==> rows'[i] == rows[i] || RowWork(rows'[i], m) < RowWork(rows[i], m)
    ensures WorkLeft(rows', m) <= WorkLeft(rows, m)
    ensures rows' != rows ==> WorkLeft(rows', m) < WorkLeft(rows, m)
  {
    hide RowWork;
    if rows != [] {
      var n := |rows| - 1;
      WorkLeftIsMonotone(rows[..n], rows'[..n], m);
      assert rows == rows[..n] + [rows[n]] && rows' == rows'[..n] + [rows'[n]];
    }
  }

  // Every step that changes the table, other than arrivals, renewals, resets and
  // operator retries, strictly lowers the work left.
  lemma WorkDecreases(cfg: Config, actions: seq<Action>, a: Action)
    requires ValidConfig(cfg) && cfg.capped
    requires !a.Arrive? && !a.RenewClaim? && !a.ResetRunning? && !a.Retry?
    ensures var s := Run(cfg, INIT, actions);
            var rows' := RowsAfter(cfg, s, a);
            rows' == s.rows || WorkLeft(rows', cfg.maxRetries) < WorkLeft(s.rows, cfg.maxRetries)
  {
    QueueOkOnEveryRun(cfg, actions);
    var s, m := Run(cfg, INIT, actions), cfg.maxRetries;
    var rows' := RowsAfter(cfg, s, a);
    assert |rows'| == |s.rows|;
    forall i | 0 <= i < |s.rows| ensures rows'[i] == s.rows[i] || RowWork(rows'[i], m) < RowWork(s.rows[i], m) {
      RowsAfterRowwise(cfg, s, a, i);
      assert RowOk(cfg, s.issued, s.rows[i], s.history[i]);
      RowWorkDecreases(cfg, s, a, i);
    }
    WorkLeftIsMonotone(s.rows, rows', m);
  }

  lemma RowWorkDecreases(cfg: Config, s: State, a: Action, i: nat)
    requires ValidConfig(cfg) && cfg.capped && i < |s.rows| == |s.history|
    requires RowOk(cfg, s.issued, s.rows[i], s.history[i])
    requires !a.Arrive? && !a.RenewClaim? && !a.ResetRunning? && !a.Retry?
    ensures var r, r', m := s.rows[i], RowAfter(cfg, s, a, i), cfg.maxRetries;
            r' == r || RowWork(r', m) < RowWork(r, m)
  {
    if a.ClaimRows? && i in ClaimIds(s.rows, s.clock, a.sources, ExpiryCap(cfg), a.coalesce) {
      ClaimedRowsWereReady(cfg, s, a, i);
    }
  }
}
