// A worker's reply as the machine takes it, step by step, is the ledger-gated reply of one
// call, and it starts only while every row of the batch is its own.
module ReplySteps {
  import opened Basics
  import opened QueueTable
  import opened DeliveryLedger
  import opened ReplyDelivery
  import opened GatewayProtocol
  import opened QueueIndex

  // A worker passes the gate exactly while each row it claimed is running under its token.
  lemma GatePassesIff(cfg: Config, s: State, token: Token)
    requires ValidConfig(cfg) && At(s, token, Working) && Ascending(s.workers[token].ids)
    ensures At(Next(cfg, s, Gate(token)), token, Gated) <==>
              forall i :: i in s.workers[token].ids ==>
                i < |s.rows| && s.rows[i].status.Running? && s.rows[i].lockedBy == Some(token)
  {
    hide RowsAfter, HistoryAfter, LedgerAfter, SnapshotAfter, ReadsAfter, AcceptedAfter, OwnedCount;
    GateIffAllOwned(s.rows, s.workers[token].ids, token);
  }

  // What the worker finds in the ledger stops it, or lets it go on.
  lemma BeginStops(cfg: Config, s: State, token: Token, channel: string)
    requires ValidConfig(cfg) && MayBegin(s, token, channel)
    ensures
      var k, s' := KeyOf(s.workers[token], channel), Next(cfg, s, Begin(token, channel));
      if k in s.ledger && (s.ledger[k].progress.Sent? || s.ledger[k].lockedBy != token) then
        At(s', token, Working) && s'.ledger == s.ledger && !MaySend(s', token)
      else
        && MaySend(s', token) && s'.workers[token].phase == Reserved(channel) && s'.workers[token].ids == s.workers[token].ids
        && SendingUnder(s'.ledger, k, token) && s'.ledger - {k} == s.ledger - {k}
  {
    hide RowsAfter, HistoryAfter, SnapshotAfter, ReadsAfter;
  }

  // From the reservation on, without interruption: the messages and the ledger row are
  // those of the call, whatever the channels do.
  lemma SendAndSettle(cfg: Config, s: State, token: Token, a: Attempt)
    requires ValidConfig(cfg) && MaySend(s, token)
    requires SendingUnder(s.ledger, KeyOf(s.workers[token], s.workers[token].phase.channel), token)
    ensures
      var k := KeyOf(s.workers[token], s.workers[token].phase.channel);
      var s' := Next(cfg, Next(cfg, s, Send(token, a)), Settle(token));
      && s'.rows == s.rows && s'.accepted[k] == s.accepted[k] + Accepts(a, true)
      && s'.ledger - {k} == s.ledger - {k} && At(s', token, Working)
      && match Reported(a, true)
         case Delivered(id) =>
           k in s'.ledger && s'.ledger[k].progress.Sent? && s'.ledger[k].messageId == Some(id) && s'.ledger[k].sentAt == Some(s.clock)
         case NotDelivered => k !in s'.ledger
         case Unclear => s'.ledger == s.ledger
  {
    hide HistoryAfter, SnapshotAfter, ReadsAfter, Reported, Accepts;
  }

  // Out of turn nothing happens: no reservation before the gate, no send before the
  // reservation, no settling before the answer.
  lemma OutOfTurn(cfg: Config, s: State, token: Token, channel: string, a: Attempt)
    requires ValidConfig(cfg) && token in s.workers
    ensures
      var phase := s.workers[token].phase;
      && (!phase.Gated? ==> Still(s, Next(cfg, s, Begin(token, channel))))
      && (!phase.Reserved? ==> Still(s, Next(cfg, s, Send(token, a))))
      && (!phase.Confirming? && !phase.Releasing? ==> Still(s, Next(cfg, s, Settle(token))))
  {
    hide HistoryAfter, SnapshotAfter, ReadsAfter, Reported, Accepts;
  }

  ghost predicate Still(s: State, s': State) {
    s'.rows == s.rows && s'.ledger == s.ledger && s'.workers == s.workers && s'.accepted == s.accepted
  }
}
