// A reply whose live send ended in an error that may have come after it arrived is never
// sent again for its ledger key, whatever the transport, crashes and operators do later.
module UnclearSends {
  import opened Basics
  import opened QueueTable
  import opened DeliveryLedger
  import opened ReplyDelivery
  import opened GatewayProtocol
  import opened DeliveryHolders

  // The row of a key stays reserved by a claim that will not go on with it.
  ghost predicate Stuck(s: State, k: Key, t: Token) {
    && SendingUnder(s.ledger, k, t)
    && (t in s.workers && s.workers[t].ids != [] && s.workers[t].ids[0] == k.0 ==>
          match s.workers[t].phase
          case Reserved(channel) => channel != k.1
          case Confirming(channel, _) => channel != k.1
          case Releasing(channel) => channel != k.1
          case _ => true)
  }

  // The claim named in the row does not send, settle or begin there any more.
  lemma StuckOwnStep(cfg: Config, s: State, a: Action, k: Key, t: Token)
    requires ValidConfig(cfg) && AllHolding(s) && Stuck(s, k, t) && t in s.workers
    requires (a.Begin? || a.Send? || a.Settle?) && a.token == t
    ensures
      var s' := Next(cfg, s, a);
      Stuck(s', k, t) && s'.ledger[k] == s.ledger[k] && s'.accepted[k] == s.accepted[k]
  {
    hide RowsAfter, HistoryAfter, SnapshotAfter, ReadsAfter, Reported, Accepts;
    assert Holding(s, t);
    assert KeyOf(s.workers[t], k.1) == (s.workers[t].ids[0], k.1);
  }

  // Another claim finds the row reserved by someone else.
  lemma StuckOtherStep(cfg: Config, s: State, a: Action, k: Key, t: Token)
    requires ValidConfig(cfg) && AllHolding(s) && Stuck(s, k, t)
    requires (a.Begin? || a.Send? || a.Settle?) && a.token != t
    ensures
      var s' := Next(cfg, s, a);
      Stuck(s', k, t) && s'.ledger[k] == s.ledger[k] && s'.accepted[k] == s.accepted[k]
  {
    hide RowsAfter, HistoryAfter, SnapshotAfter, ReadsAfter, Reported, Accepts;
    assert a.token in s.workers ==> Holding(s, a.token);
  }

  lemma StuckOutsideStep(cfg: Config, s: State, a: Action, k: Key, t: Token)
    requires ValidConfig(cfg) && AllHolding(s) && Stuck(s, k, t)
    requires !a.Begin? && !a.Send? && !a.Settle?
    ensures
      var s' := Next(cfg, s, a);
      Stuck(s', k, t) && s'.ledger[k] == s.ledger[k] && s'.accepted[k] == s.accepted[k]
  {
    hide RowsAfter, HistoryAfter, SnapshotAfter, ReadsAfter, ClaimIds, OwnedCount;
  }

  lemma StuckStep(cfg: Config, s: State, a: Action, k: Key, t: Token)
    requires ValidConfig(cfg) && AllHolding(s) && Stuck(s, k, t)
    ensures
      var s' := Next(cfg, s, a);
      Stuck(s', k, t) && s'.ledger[k] == s.ledger[k] && s'.accepted[k] == s.accepted[k]
  {
    hide Next, AllHolding, Stuck;
    if !a.Begin? && !a.Send? && !a.Settle? {
      StuckOutsideStep(cfg, s, a, k, t);
    } else if a.token != t {
      StuckOtherStep(cfg, s, a, k, t);
    } else if t in s.workers {
      StuckOwnStep(cfg, s, a, k, t);
    } else {
      StuckGone(cfg, s, a, k, t);
    }
  }

  lemma StuckGone(cfg: Config, s: State, a: Action, k: Key, t: Token)
    requires ValidConfig(cfg) && Stuck(s, k, t) && t !in s.workers
    requires (a.Begin? || a.Send? || a.Settle?) && a.token == t
    ensures
      var s' := Next(cfg, s, a);
      Stuck(s', k, t) && s'.ledger[k] == s.ledger[k] && s'.accepted[k] == s.accepted[k]
  {
    hide RowsAfter, HistoryAfter, SnapshotAfter, ReadsAfter, Reported, Accepts;
  }

  lemma {:induction false} StuckForEver(cfg: Config, before: seq<Action>, after: seq<Action>, k: Key, t: Token)
    requires ValidConfig(cfg) && Stuck(Run(cfg, INIT, before), k, t)
    ensures
      var s, s' := Run(cfg, INIT, before), Run(cfg, INIT, before + after);
      Stuck(s', k, t) && s'.ledger[k] == s.ledger[k] && s'.accepted[k] == s.accepted[k]
  {
    hide Run, Next, AllHolding;
    if after == [] {
      assert before + after == before;
    } else {
      var most, last := after[..|after| - 1], after[|after| - 1];
      assert before + after == (before + most) + [last];
      StuckForEver(cfg, before, most, k, t);
      HoldingOnEveryRun(cfg, before + most);
      RunStep(cfg, INIT, before + most, last);
      StuckStep(cfg, Run(cfg, INIT, before + most), last, k, t);
    }
  }

  // An error that can come after the request went out.
  ghost predicate LateError(e: SendError) {
    e == Timeout || e == OtherError || e.HttpStatus? || e == Url(ReasonTimeout) || e == Url(ReasonOther)
  }

  lemma UnclearSendSticks(cfg: Config, s: State, t: Token, attempt: Attempt)
    requires ValidConfig(cfg) && AllHolding(s) && MaySend(s, t)
    requires attempt.live.Raised? && LateError(attempt.live.error)
    ensures
      var k, s' := KeyOf(s.workers[t], s.workers[t].phase.channel), Next(cfg, s, Send(t, attempt));
      && Stuck(s', k, t)
      && s'.accepted[k] == s.accepted[k] + if attempt.live.liveAccepted then 1 else 0
  {
    hide RowsAfter, HistoryAfter, SnapshotAfter, ReadsAfter, ClaimIds;
    assert Holding(s, t);
  }

  // Such a send may have delivered one message, and no continuation of the run delivers
  // another under its key or changes the ledger row, even if every other send misbehaves.
  lemma UnclearSendIsNeverRepeated(cfg: Config, before: seq<Action>, t: Token, attempt: Attempt, after: seq<Action>)
    requires ValidConfig(cfg) && MaySend(Run(cfg, INIT, before), t)
    requires attempt.live.Raised? && LateError(attempt.live.error)
    ensures
      var s, s' := Run(cfg, INIT, before), Run(cfg, INIT, before + [Send(t, attempt)] + after);
      var k := KeyOf(s.workers[t], s.workers[t].phase.channel);
      && s'.accepted[k] == s.accepted[k] + (if attempt.live.liveAccepted then 1 else 0)
      && SendingUnder(s'.ledger, k, t)
  {
    hide Run, Next, AllHolding;
    var s, a := Run(cfg, INIT, before), Send(t, attempt);
    HoldingOnEveryRun(cfg, before);
    UnclearSendSticks(cfg, s, t, attempt);
    RunStep(cfg, INIT, before, a);
    StuckForEver(cfg, before + [a], after, KeyOf(s.workers[t], s.workers[t].phase.channel), t);
  }
}
