// The counters over which the queue's bounds are stated count what happened in the run.
module HistoryCounts {
  import opened Basics
  import opened QueueTable
  import opened GatewayProtocol
  import opened QueueSafety

  datatype Kind = Claimings | Retryings | Resettings | Finishings

  // Whether a step does that to row i.
  ghost predicate Happens(cfg: Config, s: State, a: Action, i: nat, kind: Kind)
    requires ValidConfig(cfg)
  {
    i < |s.rows| && i < |RowsAfter(cfg, s, a)|
    && match kind
       case Claimings => MayClaim(s, a) && i in ClaimIds(s.rows, s.clock, a.sources, ExpiryCap(cfg), a.coalesce)
       case Retryings => a == Retry(i)
       case Resettings => a.ResetRunning? && RowsAfter(cfg, s, a)[i] != s.rows[i]
       case Finishings =>
         && !(s.rows[i].status.Done? || s.rows[i].status.Failed?)
         && (RowsAfter(cfg, s, a)[i].status.Done? || RowsAfter(cfg, s, a)[i].status.Failed?)
  }

  // How many steps of a run do.
  ghost function Times(cfg: Config, actions: seq<Action>, i: nat, kind: Kind): nat
    requires ValidConfig(cfg)
  {
    if actions == [] then 0
    else
      var before, a := actions[..|actions| - 1], actions[|actions| - 1];
      Times(cfg, before, i, kind) + if Happens(cfg, Run(cfg, INIT, before), a, i, kind) then 1 else 0
  }

  function CounterOf(h: History, kind: Kind): nat {
    match kind
    case Claimings => h.claims
    case Retryings => h.retries
    case Resettings => h.resets
    case Finishings => h.finishes
  }

  lemma StepCounts(cfg: Config, s: State, a: Action, i: nat, kind: Kind)
    requires ValidConfig(cfg) && QueueOk(cfg, s) && i < |s.rows|
    ensures
      var r' := RowAfter(cfg, s, a, i);
      CounterOf(HistoryStep(s.history[i], s.rows[i], r', i, a), kind)
      == CounterOf(s.history[i], kind) + if Happens(cfg, s, a, i, kind) then 1 else 0
  {
    hide RowsAfter, ClaimIds;
    RowsAfterRowwise(cfg, s, a, i);
    assert RowOk(cfg, s.issued, s.rows[i], s.history[i]);
  }

  lemma NothingHappened(cfg: Config, s: State, a: Action, i: nat)
    requires ValidConfig(cfg) && |s.rows| == |s.history| <= i < |RowsAfter(cfg, s, a)|
    ensures HistoryAfter(cfg, s, a)[i] == History(0, 0, 0, 0, None)
    ensures forall kind :: !Happens(cfg, s, a, i, kind)
  {
    hide RowsAfter, ClaimIds;
  }

  lemma NextHistory(cfg: Config, s: State, a: Action, i: nat)
    requires ValidConfig(cfg) && QueueOk(cfg, s) && i < |s.rows|
    ensures i < |HistoryAfter(cfg, s, a)|
    ensures HistoryAfter(cfg, s, a)[i] == HistoryStep(s.history[i], s.rows[i], RowAfter(cfg, s, a, i), i, a)
  {
    hide RowsAfter, ClaimIds, HistoryStep, RowAfter;
    RowsAfterRowwise(cfg, s, a, i);
  }

  lemma {:induction false} NotYetThere(cfg: Config, actions: seq<Action>, i: nat, kind: Kind)
    requires ValidConfig(cfg) && |Run(cfg, INIT, actions).rows| <= i
    ensures Times(cfg, actions, i, kind) == 0
  {
    hide Next, Happens, HistoryAfter, LedgerAfter, WorkersAfter, SnapshotAfter, ReadsAfter, AcceptedAfter, RowsAfter;
    if actions != [] {
      var before, a := actions[..|actions| - 1], actions[|actions| - 1];
      RowsGrow(cfg, Run(cfg, INIT, before), a);
      NotYetThere(cfg, before, i, kind);
      NothingToDo(cfg, Run(cfg, INIT, before), a, i, kind);
    }
  }

  lemma RowsGrow(cfg: Config, s: State, a: Action)
    requires ValidConfig(cfg)
    ensures |s.rows| <= |Next(cfg, s, a).rows|
  {
    hide HistoryAfter, LedgerAfter, WorkersAfter, SnapshotAfter, ReadsAfter, AcceptedAfter, RowsAfter;
  }

  lemma NothingToDo(cfg: Config, s: State, a: Action, i: nat, kind: Kind)
    requires ValidConfig(cfg) && |s.rows| <= i
    ensures !Happens(cfg, s, a, i, kind)
  {
  }

  // In every run: the claims on record are the claiming steps that took the row, and so on
  // for operator retries, silent resets and finishes.
  lemma {:induction false} CountersCount(cfg: Config, actions: seq<Action>, i: nat, kind: Kind)
    requires ValidConfig(cfg) && i < |Run(cfg, INIT, actions).rows|
    ensures i < |Run(cfg, INIT, actions).history|
    ensures CounterOf(Run(cfg, INIT, actions).history[i], kind) == Times(cfg, actions, i, kind)
  {
    hide Happens, QueueOk, LedgerAfter, WorkersAfter, SnapshotAfter, ReadsAfter, AcceptedAfter, RowsAfter, HistoryAfter, CounterOf;
    var before, a := actions[..|actions| - 1], actions[|actions| - 1];
    var s := Run(cfg, INIT, before);
    QueueOkOnEveryRun(cfg, before);
    SameLength(cfg, s);
    if i < |s.rows| {
      CountersCount(cfg, before, i, kind);
      NextHistory(cfg, s, a, i);
      StepCounts(cfg, s, a, i, kind);
    } else {
      NotYetThere(cfg, before, i, kind);
      NothingHappened(cfg, s, a, i);
      NoneCounted(kind);
    }
  }

  lemma SameLength(cfg: Config, s: State)
    requires QueueOk(cfg, s)
    ensures |s.history| == |s.rows|
  {
  }

  lemma NoneCounted(kind: Kind)
    ensures CounterOf(History(0, 0, 0, 0, None), kind) == 0
  {
  }
}
