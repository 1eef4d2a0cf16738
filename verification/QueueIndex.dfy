// The unique index, the status counts, the batch a claim takes and the
// ownership gate.
module QueueIndex {
  import opened Basics
  import opened QueueTable
  import opened GatewayProtocol
  import opened QueueSafety

  // ---- deduplication ---------------------------------------------------------

  ghost predicate SameMessage(r: Row, r': Row) {
    r.sourceMessageId.Some? && r.sourceMessageId == r'.sourceMessageId && r.source == r'.source
  }

  ghost predicate UniqueMessages(rows: Table) {
    forall i, j :: 0 <= i < j < |rows| ==> !SameMessage(rows[i], rows[j])
  }

  ghost predicate KeepsMessages(rows: Table, rows': Table) {
    |rows| <= |rows'|
    && forall i :: 0 <= i < |rows| ==> rows'[i].source == rows[i].source && rows'[i].sourceMessageId == rows[i].sourceMessageId
  }

  lemma RowKeepsMessage(cfg: Config, s: State, a: Action, i: nat)
    requires ValidConfig(cfg) && i < |s.rows|
    ensures RowAfter(cfg, s, a, i).source == s.rows[i].source
    ensures RowAfter(cfg, s, a, i).sourceMessageId == s.rows[i].sourceMessageId
  {
  }

  lemma StepKeepsMessages(cfg: Config, s: State, a: Action)
    requires ValidConfig(cfg) && QueueOk(cfg, s)
    ensures KeepsMessages(s.rows, RowsAfter(cfg, s, a))
  {
    hide RowsAfter, RowAfter, QueueOk;
    forall i: nat | i < |s.rows|
      ensures RowsAfter(cfg, s, a)[i].source == s.rows[i].source
      ensures RowsAfter(cfg, s, a)[i].sourceMessageId == s.rows[i].sourceMessageId
    {
      RowsAfterRowwise(cfg, s, a, i);
      RowKeepsMessage(cfg, s, a, i);
    }
  }

  // In every run, at most one row per (source, source message id), and no row
  // is ever lost.
  lemma {:induction false} UniqueMessagesOnEveryRun(cfg: Config, actions: seq<Action>)
    requires ValidConfig(cfg)
    ensures UniqueMessages(Run(cfg, INIT, actions).rows)
    ensures forall n :: 0 <= n <= |actions| ==> |Run(cfg, INIT, actions[..n]).rows| <= |Run(cfg, INIT, actions).rows|
  {
    hide HistoryAfter, WorkersAfter, LedgerAfter, SnapshotAfter, ReadsAfter, AcceptedAfter;
    if actions != [] {
      var before := actions[..|actions| - 1];
      UniqueMessagesOnEveryRun(cfg, before);
      QueueOkOnEveryRun(cfg, before);
      StepKeepsMessages(cfg, Run(cfg, INIT, before), actions[|actions| - 1]);
      forall n | 0 <= n <= |actions|
        ensures |Run(cfg, INIT, actions[..n]).rows| <= |Run(cfg, INIT, actions).rows|
      {
        assert actions[..n] == if n < |actions| then before[..n] else actions;
      }
    }
  }

  function EnqueueAll(rows: Table, messages: seq<Message>, now: Time): Table {
    if messages == [] then rows
    else Enqueue(EnqueueAll(rows, messages[..|messages| - 1], now), messages[|messages| - 1], now)
  }

  predicate SameKey(m: Message, m': Message) {
    m.sourceMessageId.Some? && m.sourceMessageId == m'.sourceMessageId && m.source == m'.source
  }

  // The stream without the messages that repeat an earlier key.
  function FirstOccurrences(messages: seq<Message>): seq<Message> {
    if messages == [] then []
    else
      var n := |messages| - 1;
      var before := FirstOccurrences(messages[..n]);
      if exists i :: 0 <= i < n && SameKey(messages[i], messages[n]) then before else before + [messages[n]]
  }

  lemma {:induction false} EnqueueAllKeys(messages: seq<Message>, m: Message, now: Time)
    ensures Duplicate(EnqueueAll([], messages, now), m) <==> exists i :: 0 <= i < |messages| && SameKey(messages[i], m)
  {
    if messages != [] {
      var n := |messages| - 1;
      EnqueueAllKeys(messages[..n], m, now);
      EnqueueAllKeys(messages[..n], messages[n], now);
      var rows := EnqueueAll([], messages[..n], now);
      assert forall i | 0 <= i < n :: messages[..n][i] == messages[i];
      var rows' := EnqueueAll([], messages, now);
      if Duplicate(rows, messages[n]) {
        var i :| 0 <= i < n && SameKey(messages[..n][i], messages[n]);
        assert SameKey(messages[n], m) ==> SameKey(messages[i], m);
      } else {
        assert rows' == rows + [NewRow(messages[n], now)];
        assert Duplicate(rows, m) ==> Duplicate(rows', m) by {
          assert forall i | 0 <= i < |rows| :: rows'[i] == rows[i];
        }
        assert SameKey(messages[n], m) ==> Duplicate(rows', m) by { assert rows'[|rows|] == NewRow(messages[n], now); }
      }
    }
  }

  // Enqueueing a stream with repeats equals enqueueing its first occurrences.
  lemma {:induction false} RepeatsChangeNothing(messages: seq<Message>, now: Time)
    ensures EnqueueAll([], messages, now) == EnqueueAll([], FirstOccurrences(messages), now)
  {
    if messages != [] {
      var n := |messages| - 1;
      RepeatsChangeNothing(messages[..n], now);
      EnqueueAllKeys(messages[..n], messages[n], now);
      assert forall i | 0 <= i < n :: messages[..n][i] == messages[i];
      var before := FirstOccurrences(messages[..n]);
      assert (before + [messages[n]])[..|before|] == before;
    }
  }

  // ---- counts by status ---------------------------------------------------------

  function WithStatus(rows: Table, status: Status): set<nat> {
    set i: nat | i < |rows| && rows[i].status == status
  }

  lemma StatusCountStep(rows: Table, status: Status)
    requires rows != []
    ensures var n := |rows| - 1;
            |WithStatus(rows, status)| == |WithStatus(rows[..n], status)| + if rows[n].status == status then 1 else 0
  {
    var n := |rows| - 1;
    assert WithStatus(rows, status) == WithStatus(rows[..n], status) + if rows[n].status == status then {n} else {};
  }

  // The per-status counts sum to the rows ever inserted.
  lemma {:induction false} StatusCountsPartition(rows: Table)
    ensures |WithStatus(rows, Queued)| + |WithStatus(rows, Running)| + |WithStatus(rows, Done)| + |WithStatus(rows, Failed)|
            == |rows|
  {
    if rows != [] {
      StatusCountsPartition(rows[..|rows| - 1]);
      StatusCountStep(rows, Queued);
      StatusCountStep(rows, Running);
      StatusCountStep(rows, Done);
      StatusCountStep(rows, Failed);
    }
  }

  // ---- what one claim takes -----------------------------------------------------

  // A row that a claim may take: queued, due, and of a source asked for.
  ghost predicate MayBeClaimed(r: Row, now: Time, sources: seq<string>) {
    r.status.Queued? && r.availableAt <= now && (|sources| > 0 ==> exists k :: 0 <= k < |sources| && sources[k] == r.source)
  }

  lemma ReadyIsClaimable(r: Row, now: Time, sources: seq<string>)
    ensures Ready(r, now, sources) <==> MayBeClaimed(r, now, sources)
  {
  }

  // The claimed set is the oldest row that may be claimed and, when coalescing, exactly
  // the other ones of its conversation (none when that is NULL), in id order under one
  // token; every other row only passes through the expiry pass.
  lemma ClaimIsExact(rows: Table, token: Token, now: Time, lease: int, sources: seq<string>, maxRetries: Option<int>, coalesce: bool)
    ensures var live := Expire(rows, now, maxRetries);
            var ids := ClaimIds(rows, now, sources, maxRetries, coalesce);
            var rows' := Claim(rows, token, now, lease, sources, maxRetries, coalesce);
            && Ascending(ids)
            && (ids == [] <==> forall i :: 0 <= i < |live| ==> !MayBeClaimed(live[i], now, sources))
            && (ids != [] ==>
                  && ids[0] < |live| && (forall i :: 0 <= i < ids[0] ==> !MayBeClaimed(live[i], now, sources))
                  && forall i: nat :: i in ids <==>
                       i < |live| && MayBeClaimed(live[i], now, sources)
                       && (i == ids[0] || (coalesce && live[ids[0]].conversationId.Some?
                                           && live[i].conversationId == live[ids[0]].conversationId)))
            && forall i: nat :: i < |rows| ==>
                 if i in ids then rows'[i].status.Running? && rows'[i].lockedBy == Some(token) && rows'[i].lockedUntil == Some(now + lease)
                 else rows'[i] == live[i] && (!Expired(rows[i], now) ==> rows'[i] == rows[i])
  {
    hide MayBeClaimed, Ready;
    forall r: Row ensures Ready(r, now, sources) <==> MayBeClaimed(r, now, sources) { ReadyIsClaimable(r, now, sources); }
  }

  // ---- the ownership gate ---------------------------------------------------------

  function Members(ids: seq<nat>): set<nat> { set i: nat | i in ids }

  lemma {:induction false} AscendingCardinality(ids: seq<nat>)
    requires Ascending(ids)
    ensures |Members(ids)| == |ids|
  {
    if ids != [] {
      var n := |ids| - 1;
      AscendingCardinality(ids[..n]);
      LastIsGreatest(ids);
      assert Members(ids) == Members(ids[..n]) + {ids[n]};
      assert ids[n] !in Members(ids[..n]);
    }
  }

  // The count test lets a reply through exactly when every row of the batch is
  // still running under the claim's token.
  lemma GateIffAllOwned(rows: Table, ids: seq<nat>, token: Token)
    requires Ascending(ids)
    ensures OwnedCount(rows, ids, token) == |ids| <==> forall i: nat :: i in ids ==> i < |rows| && OwnedBy(rows[i], token)
  {
    var owned := OwnedIds(rows, ids, token);
    AscendingCardinality(ids);
    assert owned <= Members(ids);
    if owned == Members(ids) {
      assert forall i: nat | i in ids :: i in owned;
    } else {
      var missing := Members(ids) - owned;
      assert Members(ids) == owned + missing;
      assert missing != {};
    }
  }
}
