// At most one reply leaves per (event, channel), over every run.
module ReplySafety {
  import opened Basics
  import opened QueueTable
  import opened DeliveryLedger
  import opened ReplyDelivery
  import opened GatewayProtocol
  import opened DeliveryHolders

  ghost predicate KeyOk(s: State, k: Key) {
    s.accepted[k] <= 1 && (k !in s.ledger ==> s.accepted[k] == 0)
  }

  // Before a worker sends, and when its send reported "not delivered", nothing was accepted.
  ghost predicate Unspent(s: State, t: Token)
    requires t in s.workers && s.workers[t].ids != []
  {
    match s.workers[t].phase
    case Reserved(channel) => s.accepted[KeyOf(s.workers[t], channel)] == 0
    case Releasing(channel) => s.accepted[KeyOf(s.workers[t], channel)] == 0
    case _ => true
  }

  ghost predicate LedgerOk(s: State) {
    && AllHolding(s)
    && (forall k :: KeyOk(s, k))
    && (forall t :: t in s.workers ==> Unspent(s, t))
  }

  lemma KeyPreserved(cfg: Config, s: State, a: Action, k: Key)
    requires ValidConfig(cfg) && LedgerOk(s)
    requires a.Send? ==> Faithful(a.attempt)
    ensures KeyOk(Next(cfg, s, a), k)
  {
    hide RowsAfter, HistoryAfter, SnapshotAfter, ReadsAfter;
    assert KeyOk(s, k);
    if a.Begin? || a.Send? || a.Settle? {
      assert a.token in s.workers ==> Holding(s, a.token) && Unspent(s, a.token);
    }
  }

  lemma OwnStepUnspent(cfg: Config, s: State, a: Action, t: Token)
    requires ValidConfig(cfg) && LedgerOk(s) && t in s.workers
    requires (a.Begin? || a.Send? || a.Settle?) && a.token == t
    requires a.Send? ==> Faithful(a.attempt)
    ensures t in Next(cfg, s, a).workers && Next(cfg, s, a).workers[t].ids != [] && Unspent(Next(cfg, s, a), t)
  {
    hide RowsAfter, HistoryAfter, SnapshotAfter, ReadsAfter;
    assert Holding(s, t) && Unspent(s, t);
    if a.Begin? {
      assert KeyOk(s, KeyOf(s.workers[t], a.channel));
    }
  }

  lemma OtherStepUnspent(cfg: Config, s: State, a: Action, t: Token)
    requires ValidConfig(cfg) && LedgerOk(s) && t in s.workers && t in Next(cfg, s, a).workers
    requires !((a.Begin? || a.Send? || a.Settle?) && a.token == t) && !(MayClaim(s, a) && a.token == t)
    ensures Next(cfg, s, a).workers[t].ids != [] && Unspent(Next(cfg, s, a), t)
  {
    hide RowsAfter, HistoryAfter, SnapshotAfter, ReadsAfter, LedgerAfter, Reported, Accepts;
    assert Holding(s, t) && Unspent(s, t);
    if a.Send? {
      assert a.token in s.workers ==> Holding(s, a.token);
    }
  }

  lemma NewWorkerUnspent(cfg: Config, s: State, a: Action)
    requires ValidConfig(cfg) && MayClaim(s, a) && AllHolding(s) && a.token in Next(cfg, s, a).workers
    ensures Next(cfg, s, a).workers[a.token].ids != [] && Unspent(Next(cfg, s, a), a.token)
  {
    hide RowsAfter, HistoryAfter, SnapshotAfter, ReadsAfter, LedgerAfter, ClaimIds;
    NewWorkerHolds(cfg, s, a);
  }

  lemma LedgerPreserved(cfg: Config, s: State, a: Action)
    requires ValidConfig(cfg) && LedgerOk(s)
    requires a.Send? ==> Faithful(a.attempt)
    ensures LedgerOk(Next(cfg, s, a))
  {
    hide Next, Holding, Unspent, KeyOk;
    var s' := Next(cfg, s, a);
    HoldingPreserved(cfg, s, a);
    forall k ensures KeyOk(s', k) { KeyPreserved(cfg, s, a, k); }
    forall t | t in s'.workers ensures s'.workers[t].ids != [] && Unspent(s', t) {
      NewTokens(cfg, s, a, t);
      if MayClaim(s, a) && a.token == t {
        NewWorkerUnspent(cfg, s, a);
      } else if (a.Begin? || a.Send? || a.Settle?) && a.token == t {
        OwnStepUnspent(cfg, s, a, t);
      } else {
        OtherStepUnspent(cfg, s, a, t);
      }
    }
  }

  // Runs whose every send behaves as `permitted` allows.
  ghost predicate Permits(permitted: iset<Attempt>, actions: seq<Action>) {
    forall i :: 0 <= i < |actions| && actions[i].Send? ==> actions[i].attempt in permitted
  }

  lemma {:induction false} LedgerOkOnEveryRun(cfg: Config, permitted: iset<Attempt>, actions: seq<Action>)
    requires ValidConfig(cfg) && Permits(permitted, actions)
    requires forall a :: a in permitted ==> Faithful(a)
    ensures LedgerOk(Run(cfg, INIT, actions))
  {
    if actions != [] {
      var before, last := actions[..|actions| - 1], actions[|actions| - 1];
      assert Permits(permitted, before);
      LedgerOkOnEveryRun(cfg, permitted, before);
      LedgerPreserved(cfg, Run(cfg, INIT, before), last);
    }
  }

  ghost predicate AtMostOnce(cfg: Config, permitted: iset<Attempt>)
    requires ValidConfig(cfg)
  {
    forall actions, k | Permits(permitted, actions) :: Run(cfg, INIT, actions).accepted[k] <= 1
  }

  // A concrete run that sends twice: the first claim's send is `a`, an operator
  // requeues the event, and a second claim's send is `a` again.
  function ClaimAndSend(token: Token, a: Attempt): seq<Action> {
    [ClaimRows(token, [], false), Gate(token), Begin(token, "telegram"), Send(token, a)]
  }

  function DoubleSend(a: Attempt): seq<Action> {
    [HELLO] + ClaimAndSend("w#1", a) + ([Settle("w#1"), Retry(0)] + ClaimAndSend("w#2", a))
  }

  const CELL: Key := (0, "telegram")

  // One event, held by `token`'s worker, which has begun no delivery.
  ghost predicate Holds(s: State, token: Token, phase: Phase) {
    |s.rows| == 1 && OwnedBy(s.rows[0], token)
    && token in s.workers && s.workers[token] == Worker([0], phase, {})
  }

  lemma LoneClaim(cfg: Config, s: State, token: Token)
    requires ValidConfig(cfg) && token !in s.issued
    requires |s.rows| == 1 && Ready(s.rows[0], s.clock, [])
    ensures Holds(Next(cfg, s, ClaimRows(token, [], false)), token, Working)
  {
    var live := Expire(s.rows, s.clock, ExpiryCap(cfg));
    assert live[0] == s.rows[0];
    AscendingSameMembers(BatchIds(live, s.clock, [], false), [0]);
  }

  lemma LoneGate(cfg: Config, s: State, token: Token)
    requires ValidConfig(cfg) && Holds(s, token, Working)
    ensures Holds(Next(cfg, s, Gate(token)), token, Gated)
  {
    assert OwnedIds(s.rows, [0], token) == {0};
  }

  lemma LoneSend(cfg: Config, s: State, token: Token, a: Attempt)
    requires ValidConfig(cfg) && Holds(s, token, Gated) && CELL !in s.ledger
    ensures var s' := Next(cfg, Next(cfg, s, Begin(token, "telegram")), Send(token, a));
            && s'.accepted[CELL] == s.accepted[CELL] + Accepts(a, true)
            && s'.rows == s.rows && SendingUnder(s'.ledger, CELL, token)
            && token in s'.workers && s'.workers[token].ids == [0]
            && s'.workers[token].phase == AfterSend("telegram", Reported(a, true))
  {
    var s1 := Next(cfg, s, Begin(token, "telegram"));
    assert KeyOf(s.workers[token], "telegram") == CELL;
    assert s1.workers[token].phase == Reserved("telegram") && KeyOf(s1.workers[token], "telegram") == CELL;
  }

  lemma ClaimAndSendAccepts(cfg: Config, s: State, token: Token, a: Attempt)
    requires ValidConfig(cfg) && token !in s.issued && CELL !in s.ledger
    requires |s.rows| == 1 && Ready(s.rows[0], s.clock, [])
    ensures var s' := Run(cfg, s, ClaimAndSend(token, a));
            && s'.accepted[CELL] == s.accepted[CELL] + Accepts(a, true)
            && s'.issued == s.issued + {token} && |s'.rows| == 1 && s'.clock == s.clock
            && SendingUnder(s'.ledger, CELL, token)
            && token in s'.workers && s'.workers[token].ids == [0]
            && s'.workers[token].phase == AfterSend("telegram", Reported(a, true))
  {
    LoneClaim(cfg, s, token);
    var s1 := Next(cfg, s, ClaimRows(token, [], false));
    LoneGate(cfg, s1, token);
    LoneSend(cfg, Next(cfg, s1, Gate(token)), token, a);
    RunFour(cfg, s, ClaimRows(token, [], false), Gate(token), Begin(token, "telegram"), Send(token, a));
  }

  lemma {:induction false} AcceptedOnlyGrows(cfg: Config, s: State, actions: seq<Action>, k: Key)
    requires ValidConfig(cfg)
    ensures Run(cfg, s, actions).accepted[k] >= s.accepted[k]
  {
    if actions != [] {
      AcceptedOnlyGrows(cfg, s, actions[..|actions| - 1], k);
    }
  }

  // After a send that reported "not delivered", settling and a retry leave the
  // event claimable again and the ledger row gone.
  lemma SettledAndRetried(cfg: Config, s: State, token: Token)
    requires ValidConfig(cfg) && |s.rows| == 1
    requires token in s.workers && s.workers[token].ids == [0] && s.workers[token].phase == Releasing("telegram")
    requires SendingUnder(s.ledger, CELL, token)
    ensures var s' := Next(cfg, Next(cfg, s, Settle(token)), Retry(0));
            && |s'.rows| == 1 && Ready(s'.rows[0], s'.clock, []) && CELL !in s'.ledger
            && s'.issued == s.issued && s'.accepted == s.accepted
  {
    assert KeyOf(s.workers[token], "telegram") == CELL;
  }

  lemma SecondSend(cfg: Config, s: State, a: Attempt)
    requires ValidConfig(cfg) && |s.rows| == 1 && "w#2" !in s.issued
    requires "w#1" in s.workers && s.workers["w#1"].ids == [0] && s.workers["w#1"].phase == Releasing("telegram")
    requires SendingUnder(s.ledger, CELL, "w#1")
    ensures Run(cfg, s, [Settle("w#1"), Retry(0)] + ClaimAndSend("w#2", a)).accepted[CELL]
            == s.accepted[CELL] + Accepts(a, true)
  {
    SettledAndRetried(cfg, s, "w#1");
    RunStep(cfg, s, [], Settle("w#1"));
    RunStep(cfg, s, [Settle("w#1")], Retry(0));
    var again := [Settle("w#1"), Retry(0)];
    assert again == [Settle("w#1")] + [Retry(0)] && [Settle("w#1")] == [] + [Settle("w#1")];
    ClaimAndSendAccepts(cfg, Run(cfg, s, again), "w#2", a);
    RunAppends(cfg, s, again, ClaimAndSend("w#2", a));
  }

  lemma FirstSend(cfg: Config, a: Attempt)
    requires ValidConfig(cfg)
    ensures var s := Run(cfg, INIT, [HELLO] + ClaimAndSend("w#1", a));
            && s.accepted[CELL] == Accepts(a, true) && s.issued == {"w#1"} && |s.rows| == 1
            && SendingUnder(s.ledger, CELL, "w#1")
            && "w#1" in s.workers && s.workers["w#1"].ids == [0]
            && s.workers["w#1"].phase == AfterSend("telegram", Reported(a, true))
  {
    RunStep(cfg, INIT, [], HELLO);
    assert [HELLO] == [] + [HELLO];
    ClaimAndSendAccepts(cfg, Next(cfg, INIT, HELLO), "w#1", a);
    RunAppends(cfg, INIT, [HELLO], ClaimAndSend("w#1", a));
  }

  lemma DoubleSendAcceptsTwice(cfg: Config, a: Attempt)
    requires ValidConfig(cfg) && !Faithful(a)
    ensures Run(cfg, INIT, DoubleSend(a)).accepted[CELL] >= 2
  {
    FirstSend(cfg, a);
    var s := Run(cfg, INIT, [HELLO] + ClaimAndSend("w#1", a));
    var rest := [Settle("w#1"), Retry(0)] + ClaimAndSend("w#2", a);
    RunAppends(cfg, INIT, [HELLO] + ClaimAndSend("w#1", a), rest);
    if Accepts(a, true) >= 2 {
      AcceptedOnlyGrows(cfg, s, rest, CELL);
    } else {
      assert "w#1"[2] != "w#2"[2];
      SecondSend(cfg, s, a);
    }
  }

  // At most one accepted message per ledger key, over all runs, is exactly the
  // faithfulness of every send the transport may perform.
  lemma AtMostOnceIffFaithful(cfg: Config, permitted: iset<Attempt>)
    requires ValidConfig(cfg)
    ensures AtMostOnce(cfg, permitted) <==> forall a :: a in permitted ==> Faithful(a)
  {
    if forall a :: a in permitted ==> Faithful(a) {
      forall actions, k | Permits(permitted, actions) ensures Run(cfg, INIT, actions).accepted[k] <= 1 {
        LedgerOkOnEveryRun(cfg, permitted, actions);
        assert KeyOk(Run(cfg, INIT, actions), k);
      }
    }
    forall a | a in permitted && !Faithful(a) ensures !AtMostOnce(cfg, permitted) {
      assert Permits(permitted, DoubleSend(a));
      DoubleSendAcceptsTwice(cfg, a);
    }
  }

  lemma SentRowStep(cfg: Config, s: State, a: Action, k: Key)
    requires ValidConfig(cfg) && LedgerOk(s) && k in s.ledger && s.ledger[k].progress.Sent?
    ensures var s' := Next(cfg, s, a);
            k in s'.ledger && s'.ledger[k] == s.ledger[k] && s'.accepted[k] == s.accepted[k]
  {
    if a.Settle? || a.Send? {
      assert a.token in s.workers ==> Holding(s, a.token) && Unspent(s, a.token);
    }
  }

  // A confirmed row is never cleared, resent or rewritten.
  lemma {:induction false} SentRowIsPermanent(cfg: Config, permitted: iset<Attempt>, before: seq<Action>, after: seq<Action>, k: Key)
    requires ValidConfig(cfg) && Permits(permitted, before + after)
    requires forall a :: a in permitted ==> Faithful(a)
    requires var s := Run(cfg, INIT, before); k in s.ledger && s.ledger[k].progress.Sent?
    ensures var s, s' := Run(cfg, INIT, before), Run(cfg, INIT, before + after);
            k in s'.ledger && s'.ledger[k] == s.ledger[k] && s'.accepted[k] == s.accepted[k]
  {
    hide Next, LedgerOk;
    if after == [] {
      assert before + after == before;
    } else {
      var most, last := after[..|after| - 1], after[|after| - 1];
      assert before + after == (before + most) + [last];
      assert forall i | 0 <= i < |before + most| :: (before + most)[i] == (before + after)[i];
      SentRowIsPermanent(cfg, permitted, before, most, k);
      LedgerOkOnEveryRun(cfg, permitted, before + most);
      RunStep(cfg, INIT, before + most, last);
      SentRowStep(cfg, Run(cfg, INIT, before + most), last, k);
    }
  }
}
