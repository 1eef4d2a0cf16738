// Who may have a send in flight in a run, whatever the transport does.
module DeliveryHolders {
  import opened Basics
  import opened QueueTable
  import opened DeliveryLedger
  import opened ReplyDelivery
  import opened GatewayProtocol

  // A worker past its begin holds the ledger row of its key, and began on every channel
  // whose row names it.
  ghost predicate Holding(s: State, t: Token)
    requires t in s.workers
  {
    var w := s.workers[t];
    && t in s.issued
    && w.ids != []
    && (forall channel {:trigger KeyOf(w, channel)} :: SendingUnder(s.ledger, KeyOf(w, channel), t) ==> channel in w.begun)
    && match w.phase
       case Reserved(channel) => SendingUnder(s.ledger, KeyOf(w, channel), t)
       case Releasing(channel) => SendingUnder(s.ledger, KeyOf(w, channel), t)
       case Confirming(channel, _) => SendingUnder(s.ledger, KeyOf(w, channel), t)
       case _ => true
  }

  ghost predicate Issued(s: State) { forall k :: k in s.ledger ==> s.ledger[k].lockedBy in s.issued }

  ghost predicate AllHolding(s: State) {
    Issued(s) && forall t :: t in s.workers ==> Holding(s, t)
  }

  lemma IssuedPreserved(cfg: Config, s: State, a: Action)
    requires ValidConfig(cfg) && AllHolding(s)
    ensures Issued(Next(cfg, s, a))
  {
    hide RowsAfter, HistoryAfter, SnapshotAfter, ReadsAfter, AcceptedAfter;
    if a.Begin? || a.Settle? {
      assert a.token in s.workers ==> Holding(s, a.token);
    }
  }

  // The worker takes the step itself.
  lemma OwnStepPreserved(cfg: Config, s: State, a: Action, t: Token)
    requires ValidConfig(cfg) && AllHolding(s) && t in s.workers
    requires (a.Begin? || a.Send? || a.Settle?) && a.token == t
    ensures Holding(Next(cfg, s, a), t)
  {
    hide RowsAfter, HistoryAfter, SnapshotAfter, ReadsAfter, AcceptedAfter, Reported;
    assert Holding(s, t);
    var s' := Next(cfg, s, a);
    var w, w' := s.workers[t], s'.workers[t];
    forall c | SendingUnder(s'.ledger, KeyOf(w', c), t) ensures c in w'.begun {
      assert KeyOf(w', c) == KeyOf(w, c);
      assert !(a.Begin? && c == a.channel) ==> SendingUnder(s.ledger, KeyOf(w, c), t) || c in w'.begun;
    }
  }

  lemma OtherHolds(s: State, t: Token)
    requires AllHolding(s)
    ensures t in s.workers ==> Holding(s, t)
  {
  }

  // Another worker's step, or one outside the ledger.
  lemma OtherStepPreserved(cfg: Config, s: State, a: Action, t: Token)
    requires ValidConfig(cfg) && AllHolding(s) && t in s.workers && t in Next(cfg, s, a).workers
    requires !((a.Begin? || a.Send? || a.Settle?) && a.token == t) && !(MayClaim(s, a) && a.token == t)
    ensures Holding(Next(cfg, s, a), t)
  {
    if a.Begin? || a.Settle? {
      OtherLedgerStep(cfg, s, a, t);
    } else {
      NoLedgerStep(cfg, s, a, t);
    }
  }

  lemma OtherLedgerStep(cfg: Config, s: State, a: Action, t: Token)
    requires ValidConfig(cfg) && AllHolding(s) && t in s.workers
    requires (a.Begin? || a.Settle?) && a.token != t
    ensures t in Next(cfg, s, a).workers && Holding(Next(cfg, s, a), t)
  {
    hide RowsAfter, HistoryAfter, SnapshotAfter, ReadsAfter, AcceptedAfter, Reported;
    assert Holding(s, t);
    OtherHolds(s, a.token);
    var s' := Next(cfg, s, a);
    forall c ensures KeyOf(s'.workers[t], c) == KeyOf(s.workers[t], c) {}
  }

  lemma NoLedgerStep(cfg: Config, s: State, a: Action, t: Token)
    requires ValidConfig(cfg) && AllHolding(s) && t in s.workers && t in Next(cfg, s, a).workers
    requires !a.Begin? && !a.Settle? && !(a.Send? && a.token == t) && !(MayClaim(s, a) && a.token == t)
    ensures Holding(Next(cfg, s, a), t)
  {
    hide RowsAfter, HistoryAfter, SnapshotAfter, ReadsAfter, AcceptedAfter, Reported, ClaimIds, OwnedCount;
    assert Holding(s, t);
    var s' := Next(cfg, s, a);
    forall c ensures KeyOf(s'.workers[t], c) == KeyOf(s.workers[t], c) {}
  }

  lemma NewWorkerHolds(cfg: Config, s: State, a: Action)
    requires ValidConfig(cfg) && AllHolding(s) && MayClaim(s, a) && a.token in Next(cfg, s, a).workers
    ensures Holding(Next(cfg, s, a), a.token)
  {
    hide RowsAfter, HistoryAfter, SnapshotAfter, ReadsAfter, AcceptedAfter, ClaimIds;
    var s' := Next(cfg, s, a);
    forall c ensures !SendingUnder(s'.ledger, KeyOf(s'.workers[a.token], c), a.token) {}
  }

  lemma HoldingPreserved(cfg: Config, s: State, a: Action)
    requires ValidConfig(cfg) && AllHolding(s)
    ensures AllHolding(Next(cfg, s, a))
  {
    hide Next, Holding, Issued;
    IssuedPreserved(cfg, s, a);
    var s' := Next(cfg, s, a);
    forall t | t in s'.workers ensures Holding(s', t) {
      NewTokens(cfg, s, a, t);
      if MayClaim(s, a) && a.token == t {
        NewWorkerHolds(cfg, s, a);
      } else if (a.Begin? || a.Send? || a.Settle?) && a.token == t {
        OwnStepPreserved(cfg, s, a, t);
      } else {
        OtherStepPreserved(cfg, s, a, t);
      }
    }
  }

  lemma NewTokens(cfg: Config, s: State, a: Action, t: Token)
    requires ValidConfig(cfg)
    ensures t in Next(cfg, s, a).workers ==> t in s.workers || (MayClaim(s, a) && a.token == t)
  {
    hide RowsAfter, HistoryAfter, SnapshotAfter, ReadsAfter, AcceptedAfter, LedgerAfter, ClaimIds, Reported;
  }

  lemma {:induction false} HoldingOnEveryRun(cfg: Config, actions: seq<Action>)
    requires ValidConfig(cfg)
    ensures AllHolding(Run(cfg, INIT, actions))
  {
    hide Next, AllHolding;
    if actions == [] {
      NothingHeld();
    } else {
      HoldingOnEveryRun(cfg, actions[..|actions| - 1]);
      HoldingPreserved(cfg, Run(cfg, INIT, actions[..|actions| - 1]), actions[|actions| - 1]);
    }
  }

  lemma NothingHeld()
    ensures AllHolding(INIT)
  {
  }
}
