// Delays of the queue: a row that goes back to `queued` with a delay is in no claim
// before that is over.
module QueueWaits {
  import opened Basics
  import opened QueueTable
  import opened GatewayProtocol
  import opened QueueSafety
  import opened QueueIndex

  lemma {:induction false} ClockGrows(cfg: Config, s: State, actions: seq<Action>)
    requires ValidConfig(cfg)
    ensures Run(cfg, s, actions).clock >= s.clock
  {
    hide RowsAfter, HistoryAfter, LedgerAfter, WorkersAfter, SnapshotAfter, ReadsAfter, AcceptedAfter;
    if actions != [] {
      ClockGrows(cfg, s, actions[..|actions| - 1]);
    }
  }

  lemma ExpiryLeavesQueued(rows: Table, now: Time, maxRetries: Option<int>, i: nat)
    requires i < |rows| && rows[i].status.Queued?
    ensures Expire(rows, now, maxRetries)[i] == rows[i]
  {
  }

  lemma NotClaimedEarly(rows: Table, now: Time, sources: seq<string>, maxRetries: Option<int>, coalesce: bool, i: nat)
    requires i < |rows| && rows[i].status.Queued? && now < rows[i].availableAt
    ensures i !in ClaimIds(rows, now, sources, maxRetries, coalesce)
  {
    ExpiryLeavesQueued(rows, now, maxRetries, i);
  }

  lemma WaitingStep(cfg: Config, s: State, a: Action, i: nat)
    requires ValidConfig(cfg) && QueueOk(cfg, s) && i < |s.rows| && a != Retry(i)
    requires s.rows[i].status.Queued? && s.clock < s.rows[i].availableAt
    ensures i < |RowsAfter(cfg, s, a)| && RowsAfter(cfg, s, a)[i] == s.rows[i]
  {
    hide QueueOk, RowsAfter, ClaimIds;
    RowsAfterRowwise(cfg, s, a, i);
    RunningOnly(cfg, s, a, i);
  }

  lemma RunningOnly(cfg: Config, s: State, a: Action, i: nat)
    requires ValidConfig(cfg) && i < |s.rows| && a != Retry(i)
    requires s.rows[i].status.Queued? && s.clock < s.rows[i].availableAt
    ensures RowAfter(cfg, s, a, i) == s.rows[i]
  {
    hide ClaimIds;
    if a.ClaimRows? {
      NotClaimedEarly(s.rows, s.clock, a.sources, ExpiryCap(cfg), a.coalesce, i);
    }
  }

  // Nothing but an operator's retry touches a queued row before its moment, and no claim
  // made before it takes the row.
  lemma {:induction false} QueuedRowWaits(cfg: Config, before: seq<Action>, after: seq<Action>, i: nat)
    requires ValidConfig(cfg) && i < |Run(cfg, INIT, before).rows| && NoRetryOf(after, i)
    requires Run(cfg, INIT, before).rows[i].status.Queued?
    requires Run(cfg, INIT, before + after).clock < Run(cfg, INIT, before).rows[i].availableAt
    ensures
      var s, s' := Run(cfg, INIT, before), Run(cfg, INIT, before + after);
      && i < |s'.rows| && s'.rows[i] == s.rows[i]
      && forall sources, coalesce :: i !in ClaimIds(s'.rows, s'.clock, sources, ExpiryCap(cfg), coalesce)
  {
    hide Run, Next, RowsAfter, QueueOk, ClaimIds;
    var s' := Run(cfg, INIT, before + after);
    if after == [] {
      assert before + after == before;
    } else {
      var most, last := after[..|after| - 1], after[|after| - 1];
      assert before + after == (before + most) + [last];
      RunStep(cfg, INIT, before + most, last);
      var t := Run(cfg, INIT, before + most);
      StepClock(cfg, t, last);
      QueuedRowWaits(cfg, before, most, i);
      QueueOkOnEveryRun(cfg, before + most);
      WaitingStep(cfg, t, last, i);
    }
    forall sources, coalesce ensures i !in ClaimIds(s'.rows, s'.clock, sources, ExpiryCap(cfg), coalesce) {
      NotClaimedEarly(s'.rows, s'.clock, sources, ExpiryCap(cfg), coalesce, i);
    }
  }

  lemma StepClock(cfg: Config, s: State, a: Action)
    requires ValidConfig(cfg)
    ensures Next(cfg, s, a).clock >= s.clock && Next(cfg, s, a).rows == RowsAfter(cfg, s, a)
  {
  }

  // The delay before the try that follows failure number k, counted from one.
  function Delay(backoff: seq<int>, k: nat): int
    requires backoff != [] && k >= 1
  {
    if k <= |backoff| then backoff[k - 1] else backoff[|backoff| - 1]
  }

  lemma FailedRowDelay(cfg: Config, s: State, a: Action, i: nat)
    requires ValidConfig(cfg) && QueueOk(cfg, s) && i < |s.rows| && a.FailUpdate?
    ensures
      var r, r' := s.rows[i], RowsAfter(cfg, s, a)[i];
      r' != r ==>
        && r'.retryCount == r.retryCount + 1
        && (r'.status.Queued? <==> r.retryCount < cfg.maxRetries)
        && (r'.status.Queued? ==> r'.availableAt == s.clock + Delay(cfg.backoff, r.retryCount + 1))
  {
    hide QueueOk, RowsAfter;
    RowsAfterRowwise(cfg, s, a, i);
  }

  // A failed try that is to be repeated: with the default delays the next claim of the
  // row comes 10 seconds later at the earliest, then 60, and from then on 300.
  lemma FailureIsWaitedOut(cfg: Config, before: seq<Action>, a: Action, after: seq<Action>, i: nat)
    requires ValidConfig(cfg) && i < |Run(cfg, INIT, before).rows| && a.FailUpdate? && NoRetryOf(after, i)
    requires
      var s := Run(cfg, INIT, before);
      RowsAfter(cfg, s, a)[i] != s.rows[i] && RowsAfter(cfg, s, a)[i].status.Queued?
    ensures
      var s, s' := Run(cfg, INIT, before), Run(cfg, INIT, before + [a] + after);
      var wait := Delay(cfg.backoff, s.rows[i].retryCount + 1);
      && s.rows[i].retryCount < cfg.maxRetries
      && (cfg.backoff == DEFAULT_RETRY_BACKOFF_SECONDS ==>
            wait == if s.rows[i].retryCount == 0 then 10 else if s.rows[i].retryCount == 1 then 60 else 300)
      && (s'.clock < s.clock + wait ==>
            && i < |s'.rows| && s'.rows[i] == RowsAfter(cfg, s, a)[i]
            && forall sources, coalesce :: i !in ClaimIds(s'.rows, s'.clock, sources, ExpiryCap(cfg), coalesce))
  {
    hide Run, Next, RowsAfter, QueueOk, ClaimIds;
    var s := Run(cfg, INIT, before);
    QueueOkOnEveryRun(cfg, before);
    FailedRowDelay(cfg, s, a, i);
    RunStep(cfg, INIT, before, a);
    StepClock(cfg, s, a);
    if Run(cfg, INIT, before + [a] + after).clock < s.clock + Delay(cfg.backoff, s.rows[i].retryCount + 1) {
      QueuedRowWaits(cfg, before + [a], after, i);
    }
  }

  lemma ResetRowDelay(cfg: Config, s: State, a: Action, i: nat)
    requires ValidConfig(cfg) && QueueOk(cfg, s) && i < |s.rows| && a.ResetRunning?
    ensures
      var r, r' := s.rows[i], RowsAfter(cfg, s, a)[i];
      r' != r ==> r'.status.Queued? && r'.retryCount == r.retryCount && r'.availableAt == s.clock + a.availableIn
  {
    hide QueueOk, RowsAfter;
    RowsAfterRowwise(cfg, s, a, i);
  }

  // The same for a row put back because no slot was free, or by a silent recovery.
  lemma ResetIsWaitedOut(cfg: Config, before: seq<Action>, a: Action, after: seq<Action>, i: nat)
    requires ValidConfig(cfg) && i < |Run(cfg, INIT, before).rows| && a.ResetRunning? && NoRetryOf(after, i)
    requires var s := Run(cfg, INIT, before); RowsAfter(cfg, s, a)[i] != s.rows[i]
    ensures
      var s, s' := Run(cfg, INIT, before), Run(cfg, INIT, before + [a] + after);
      s'.clock < s.clock + a.availableIn ==>
        && i < |s'.rows| && s'.rows[i] == RowsAfter(cfg, s, a)[i]
        && forall sources, coalesce :: i !in ClaimIds(s'.rows, s'.clock, sources, ExpiryCap(cfg), coalesce)
  {
    hide Run, Next, RowsAfter, QueueOk, ClaimIds;
    var s := Run(cfg, INIT, before);
    QueueOkOnEveryRun(cfg, before);
    ResetRowDelay(cfg, s, a, i);
    RunStep(cfg, INIT, before, a);
    StepClock(cfg, s, a);
    if Run(cfg, INIT, before + [a] + after).clock < s.clock + a.availableIn {
      QueuedRowWaits(cfg, before + [a], after, i);
    }
  }
}
