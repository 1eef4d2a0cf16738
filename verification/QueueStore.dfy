// lib/gateway/queue.py as an object over its two tables.  Every method is
// proved against the statement-level functions of QueueTable and DeliveryLedger.
module QueueStore {
  import opened Basics
  import opened QueueTable
  import opened DeliveryLedger

  datatype Event = Event(id: nat, row: Row)

  datatype Error = KeyError

  // The columns that no statement but the insert writes.
  ghost predicate SameEvent(r: Row, r': Row) {
    && r'.source == r.source && r'.sourceMessageId == r.sourceMessageId && r'.userId == r.userId
    && r'.conversationId == r.conversationId && r'.content == r.content && r'.receivedAt == r.receivedAt
  }

  // The row leaves its claim, with a status; what it was asked to do stays.
  ghost predicate Released(r: Row, r': Row, status: Status) {
    SameEvent(r, r') && r'.status == status && r'.lockedBy.None? && r'.lockedUntil.None?
  }

  // What the expiry pass makes of a row: a lapsed claim is released and counts as a
  // retry, and the row ends when it has none left; every other row stays.
  ghost predicate PassedOver(r: Row, r': Row, now: Time, maxRetries: Option<int>) {
    if r.status.Running? && r.lockedUntil.Some? && r.lockedUntil.value <= now then
      && r'.retryCount == r.retryCount + 1 && r'.meta == r.meta && r'.startedAt == r.startedAt && r'.response == r.response
      && if maxRetries.Some? && r.retryCount + 1 > maxRetries.value then
           && Released(r, r', Failed) && r'.finishedAt == Some(now) && r'.availableAt == r.availableAt
           && r'.error == if r.error.Some? then r.error else Some("lease expired (max retries exceeded)")
         else
           && Released(r, r', Queued) && r'.finishedAt == r.finishedAt && r'.availableAt == now
           && r'.error == if r.error.Some? then r.error else Some("lease expired")
    else r' == r
  }

  lemma ExpiryPassesOver(rows: Table, now: Time, maxRetries: Option<int>)
    ensures forall i :: 0 <= i < |rows| ==> PassedOver(rows[i], Expire(rows, now, maxRetries)[i], now, maxRetries)
  {
  }

  // The two guarded updates of the expiry pass, over the candidates' two halves.
  lemma TwoUpdatesExpire(rows: Table, requeued: seq<nat>, exhausted: seq<nat>, now: Time, maxRetries: Option<int>)
    requires forall i: nat :: i in requeued <==> i < |rows| && Expired(rows[i], now) && !Exhausted(rows[i], maxRetries)
    requires forall i: nat :: i in exhausted <==> i < |rows| && Expired(rows[i], now) && Exhausted(rows[i], maxRetries)
    ensures
      var first := UpdateWhere(rows, (i: nat, r: Row) => i in requeued && Expired(r, now), (r: Row) => RequeuedRow(r, now));
      && (requeued == [] ==> first == rows)
      && (exhausted == [] ==> first == Expire(rows, now, maxRetries))
      && UpdateWhere(first, (i: nat, r: Row) => i in exhausted && Expired(r, now), (r: Row) => ExhaustedRow(r, now))
         == Expire(rows, now, maxRetries)
  {
  }

  class Store {
    var events: Table
    var ledger: Ledger

    constructor ()
      ensures events == [] && ledger == map[]
    {
      events, ledger := [], map[];
    }

    method Enqueue(m: Message, now: Time) returns (event: Event, inserted: bool)
      modifies `events
      ensures events == QueueTable.Enqueue(old(events), m, now)
      ensures inserted <==> m.sourceMessageId.None? || forall i :: 0 <= i < |old(events)| ==>
                old(events)[i].source != m.source || old(events)[i].sourceMessageId != m.sourceMessageId
      ensures event.id < |events| && event.row == events[event.id]
      ensures !inserted ==> events == old(events)
      ensures inserted ==> event.id == |old(events)| && events == old(events) + [event.row]
      ensures inserted ==>
                && event.row.status.Queued? && event.row.retryCount == 0 && event.row.receivedAt == now
                && event.row.availableAt == (if m.availableAt.Some? then m.availableAt.value else now)
                && event.row.userId == m.userId && event.row.conversationId == m.conversationId
                && event.row.content == m.content && event.row.meta == m.meta
                && event.row.lockedBy.None? && event.row.lockedUntil.None? && event.row.startedAt.None?
                && event.row.finishedAt.None? && event.row.response.None? && event.row.error.None?
      ensures event.row.source == m.source && event.row.sourceMessageId == m.sourceMessageId
    {
      inserted := !Duplicate(events, m);
      if inserted {
        events := events + [NewRow(m, now)];
        event := Event(|events| - 1, events[|events| - 1]);
      } else {
        var id :| 0 <= id < |events| && events[id].source == m.source && events[id].sourceMessageId == m.sourceMessageId;
        event := Event(id, events[id]);
      }
    }

    // The candidates are read first and split by the retry count they had then;
    // the two updates re-assert the lease test.
    method RequeueExpired(now: Time, maxRetries: Option<int>) returns (requeued: seq<nat>)
      modifies `events
      ensures events == Expire(old(events), now, maxRetries)
      ensures forall i :: 0 <= i < |events| ==> PassedOver(old(events)[i], events[i], now, maxRetries)
      ensures Ascending(requeued)
      ensures forall i: nat :: i in requeued <==>
                i < |old(events)| && Expired(old(events)[i], now) && events[i].status.Queued?
    {
      hide PassedOver;
      ExpiryPassesOver(events, now, maxRetries);
      var candidates := SelectIds(events, (i: nat, r: Row) => Expired(r, now));
      requeued := [];
      if |candidates| == 0 {
        assert forall i :: 0 <= i < |events| ==> !Expired(events[i], now) by {
          assert forall i: nat | i < |events| && Expired(events[i], now) :: i in candidates;
        }
        return;
      }
      var exhausted: seq<nat> := [];
      for k := 0 to |candidates|
        invariant Ascending(requeued)
        invariant forall i: nat :: i in requeued <==> i < |events| && i in candidates[..k] && !Exhausted(events[i], maxRetries)
        invariant forall i: nat :: i in exhausted <==> i < |events| && i in candidates[..k] && Exhausted(events[i], maxRetries)
      {
        assert candidates[..k + 1] == candidates[..k] + [candidates[k]];
        assert candidates[k] in candidates;
        assert forall j | 0 <= j < k :: candidates[..k][j] < candidates[k];
        forall j | 0 <= j < |requeued| ensures requeued[j] < candidates[k] {
          assert requeued[j] in requeued;
          assert requeued[j] in candidates[..k];
        }
        if Exhausted(events[candidates[k]], maxRetries) {
          exhausted := exhausted + [candidates[k]];
        } else {
          requeued := requeued + [candidates[k]];
        }
      }
      assert candidates[..|candidates|] == candidates;
      TwoUpdatesExpire(events, requeued, exhausted, now, maxRetries);
      if |requeued| > 0 {
        events := UpdateWhere(events, (i: nat, r: Row) => i in requeued && Expired(r, now), (r: Row) => RequeuedRow(r, now));
      }
      if |exhausted| > 0 {
        events := UpdateWhere(events, (i: nat, r: Row) => i in exhausted && Expired(r, now), (r: Row) => ExhaustedRow(r, now));
      }
    }

    method RenewLease(ids: seq<nat>, token: Token, now: Time, lease: int) returns (renewed: nat)
      modifies `events
      ensures renewed == OwnedCount(old(events), ids, token)
      ensures |events| == |old(events)|
      ensures forall i :: 0 <= i < |events| ==>
                events[i] == if i in ids && OwnedBy(old(events)[i], token)
                             then old(events)[i].(lockedUntil := Some(now + lease)) else old(events)[i]
    {
      if ids == [] {
        return 0;
      }
      renewed := OwnedCount(events, ids, token);
      events := Renew(events, ids, token, now + lease);
    }

    method ClaimNext(token: Token, now: Time, lease: int, sources: seq<string>, maxRetries: Option<int>)
      returns (claimed: Option<Event>)
      modifies `events
      ensures events == Claim(old(events), token, now, lease, sources, maxRetries, false)
      ensures var live, ids := Expire(old(events), now, maxRetries), ClaimIds(old(events), now, sources, maxRetries, false);
              forall i :: 0 <= i < |events| ==>
                if i in ids then
                  && live[i].status.Queued? && live[i].availableAt <= now && (sources == [] || live[i].source in sources)
                  && SameEvent(live[i], events[i]) && events[i].status.Running? && events[i].lockedBy == Some(token)
                  && events[i].lockedUntil == Some(now + lease) && events[i].error.None?
                  && events[i].startedAt == (if live[i].startedAt.Some? then live[i].startedAt else Some(now))
                  && events[i].retryCount == live[i].retryCount && events[i].meta == live[i].meta
                  && events[i].finishedAt == live[i].finishedAt && events[i].response == live[i].response
                  && events[i].availableAt == live[i].availableAt
                else events[i] == live[i]
      ensures var live, ids := Expire(old(events), now, maxRetries), ClaimIds(old(events), now, sources, maxRetries, false);
              ids == [] <==> forall i :: 0 <= i < |live| ==>
                !(live[i].status.Queued? && live[i].availableAt <= now && (sources == [] || live[i].source in sources))
      ensures var ids := ClaimIds(old(events), now, sources, maxRetries, false);
              if ids == [] then claimed.None?
              else |ids| == 1 && claimed == Some(Event(ids[0], events[ids[0]]))
    {
      ghost var before := events;
      var _ := RequeueExpired(now, maxRetries);
      var head := FirstReady(events, now, sources);
      ghost var ids := BatchIds(events, now, sources, false);
      if head.None? {
        return None;
      }
      AscendingSameMembers(ids, [head.value]);
      events := UpdateWhere(events, (i: nat, r: Row) => i == head.value, (r: Row) => ClaimedRow(r, token, now + lease, now));
      claimed := Some(Event(head.value, events[head.value]));
    }

    method ClaimBatchSameConversation(token: Token, now: Time, lease: int, sources: seq<string>, maxRetries: Option<int>)
      returns (claimed: seq<Event>)
      modifies `events
      ensures events == Claim(old(events), token, now, lease, sources, maxRetries, true)
      ensures var live, ids := Expire(old(events), now, maxRetries), ClaimIds(old(events), now, sources, maxRetries, true);
              forall i :: 0 <= i < |events| ==>
                if i in ids then
                  && live[i].status.Queued? && live[i].availableAt <= now && (sources == [] || live[i].source in sources)
                  && SameEvent(live[i], events[i]) && events[i].status.Running? && events[i].lockedBy == Some(token)
                  && events[i].lockedUntil == Some(now + lease) && events[i].error.None?
                  && events[i].startedAt == (if live[i].startedAt.Some? then live[i].startedAt else Some(now))
                  && events[i].retryCount == live[i].retryCount && events[i].meta == live[i].meta
                  && events[i].finishedAt == live[i].finishedAt && events[i].response == live[i].response
                  && events[i].availableAt == live[i].availableAt
                else events[i] == live[i]
      ensures var live, ids := Expire(old(events), now, maxRetries), ClaimIds(old(events), now, sources, maxRetries, true);
              ids == [] <==> forall i :: 0 <= i < |live| ==>
                !(live[i].status.Queued? && live[i].availableAt <= now && (sources == [] || live[i].source in sources))
      ensures var ids := ClaimIds(old(events), now, sources, maxRetries, true);
              |claimed| == |ids|
              && forall k :: 0 <= k < |ids| ==> ids[k] in ids && claimed[k] == Event(ids[k], events[ids[k]])
    {
      var _ := RequeueExpired(now, maxRetries);
      var found := FirstReady(events, now, sources);
      ghost var want := BatchIds(events, now, sources, true);
      if found.None? {
        return [];
      }
      var head := found.value;
      var conversation := events[head].conversationId;
      var ids: seq<nat>;
      if conversation.None? {
        ids := [head];
      } else {
        ids := SelectIds(events, (i: nat, r: Row) => Ready(r, now, sources) && r.conversationId == conversation);
      }
      AscendingSameMembers(ids, want);
      events := UpdateWhere(events, (i: nat, r: Row) => i in ids, (r: Row) => ClaimedRow(r, token, now + lease, now));
      var table := events;
      claimed := seq(|ids|, k requires 0 <= k < |ids| => assert ids[k] in want; Event(ids[k], table[ids[k]]));
    }

    method BeginDelivery(k: Key, token: Token, now: Time) returns (verdict: Verdict)
      modifies `ledger
      ensures verdict == Judge(old(ledger), k, token) && ledger == Reserve(old(ledger), k, token, now)
      ensures k !in old(ledger) ==> verdict == Proceed && ledger == old(ledger)[k := Delivery(Sending, None, token, now, None)]
      ensures k in old(ledger) ==>
                && ledger == old(ledger)
                && verdict == if old(ledger)[k].progress.Sent? then AlreadySent(old(ledger)[k].messageId)
                              else if old(ledger)[k].lockedBy == token then Proceed else Ambiguous
    {
      if k !in ledger {
        ledger := ledger[k := Delivery(Sending, None, token, now, None)];
        return Proceed;
      }
      if ledger[k].progress.Sent? {
        return AlreadySent(ledger[k].messageId);
      }
      if ledger[k].lockedBy == token {
        return Proceed;
      }
      return Ambiguous;
    }

    method FinishDelivery(k: Key, messageId: Option<string>, now: Time)
      modifies `ledger
      ensures ledger == Confirm(old(ledger), k, messageId, now)
      ensures ledger.Keys == old(ledger).Keys && ledger - {k} == old(ledger) - {k}
      ensures k in old(ledger) ==>
                && ledger[k].progress.Sent? && ledger[k].messageId == messageId && ledger[k].sentAt == Some(now)
                && ledger[k].lockedBy == old(ledger)[k].lockedBy && ledger[k].attemptedAt == old(ledger)[k].attemptedAt
    {
      if k in ledger {
        ledger := ledger[k := ledger[k].(progress := Sent, messageId := messageId, sentAt := Some(now))];
      }
    }

    method ClearDelivery(k: Key, token: Token) returns (removed: bool)
      modifies `ledger
      ensures ledger == Release(old(ledger), k, token)
      ensures removed <==> k in old(ledger) && old(ledger)[k].progress.Sending? && old(ledger)[k].lockedBy == token
      ensures ledger == if removed then old(ledger) - {k} else old(ledger)
    {
      removed := SendingUnder(ledger, k, token);
      if removed {
        ledger := map key | key in ledger && key != k :: ledger[key];
      }
    }

    // With `expected` the update is fenced by the claim token; without it the
    // legacy call overwrites whatever the row holds.
    method Complete(id: nat, now: Time, response: string, expected: Option<Token>) returns (r: Result<Event, Error>)
      modifies `events
      ensures r.Ok? <==> id < |old(events)| && (expected.Some? ==>
                old(events)[id].status.Running? && old(events)[id].lockedBy == expected)
      ensures events == if r.Ok? then old(events)[id := DoneRow(old(events)[id], now, response)] else old(events)
      ensures r.Ok? ==> r.value == Event(id, events[id])
      ensures r.Ok? ==>
                var row, row' := old(events)[id], events[id];
                && Released(row, row', Done) && row'.finishedAt == Some(now) && row'.response == Some(response)
                && row'.error.None? && row'.retryCount == row.retryCount && row'.availableAt == row.availableAt
                && row'.startedAt == row.startedAt && row'.meta == row.meta
    {
      if expected.Some? {
        var p := (i: nat, r: Row) => i == id && OwnedBy(r, expected.value);
        var hits := CountWhere(events, p);
        assert hits == 0 <==> forall i: nat :: i < |events| ==> !p(i, events[i]) by {
          var matching := set i: nat | i < |events| && p(i, events[i]);
          assert forall i: nat :: i < |events| && p(i, events[i]) <==> i in matching;
        }
        events := UpdateWhere(events, p, (r: Row) => DoneRow(r, now, response));
        if hits == 0 {
          return Err(KeyError);
        }
      } else {
        events := UpdateWhere(events, (i: nat, r: Row) => i == id, (r: Row) => DoneRow(r, now, response));
      }
      if id >= |events| {
        return Err(KeyError);
      }
      return Ok(Event(id, events[id]));
    }

    method Fail(id: nat, now: Time, error: string, maxRetries: int, backoff: seq<int>, expected: Option<Token>)
      returns (r: Result<Event, Error>)
      requires |backoff| > 0
      modifies `events
      ensures r.Ok? <==> id < |old(events)| && (expected.Some? ==>
                old(events)[id].status.Running? && old(events)[id].lockedBy == expected)
      ensures events == if r.Ok? then
                          var row := old(events)[id];
                          old(events)[id := FailedRow(row, row.retryCount, now, error, maxRetries, backoff)]
                        else old(events)
      ensures r.Ok? ==> r.value == Event(id, events[id])
      ensures r.Ok? ==>
                var row, row' := old(events)[id], events[id];
                var k := row.retryCount;
                && row'.retryCount == k + 1 && row'.error == Some(error)
                && row'.response == row.response && row'.startedAt == row.startedAt && row'.meta == row.meta
                && if k < maxRetries then
                     && Released(row, row', Queued) && row'.finishedAt == row.finishedAt
                     && row'.availableAt == now + if k < |backoff| then backoff[k] else backoff[|backoff| - 1]
                   else Released(row, row', Failed) && row'.finishedAt == Some(now) && row'.availableAt == row.availableAt
    {
      if id >= |events| {
        return Err(KeyError);
      }
      var row := events[id];
      if expected.Some? {
        if !row.status.Running? || row.lockedBy != expected {
          return Err(KeyError);
        }
        var p := (i: nat, r: Row) => i == id && OwnedBy(r, expected.value);
        events := UpdateWhere(events, p, (r: Row) => FailedRow(r, row.retryCount, now, error, maxRetries, backoff));
      } else {
        events := UpdateWhere(events, (i: nat, r: Row) => i == id,
                              (r: Row) => FailedRow(r, row.retryCount, now, error, maxRetries, backoff));
      }
      return Ok(Event(id, events[id]));
    }

    method RetryNow(id: nat, now: Time) returns (r: Result<Event, Error>)
      modifies `events
      ensures r.Ok? <==> id < |old(events)|
      ensures events == if r.Ok? then old(events)[id := RetriedRow(old(events)[id], now)] else old(events)
      ensures r.Ok? ==> r.value == Event(id, events[id])
      ensures r.Ok? ==>
                var row, row' := old(events)[id], events[id];
                && Released(row, row', Queued) && row'.availableAt == now && row'.finishedAt.None? && row'.error.None?
                && row'.retryCount == row.retryCount && row'.startedAt == row.startedAt
                && row'.response == row.response && row'.meta == row.meta
    {
      events := QueueTable.RetryNow(events, id, now);
      if id >= |events| {
        return Err(KeyError);
      }
      return Ok(Event(id, events[id]));
    }

    method ResetRunningToQueued(id: nat, now: Time, availableIn: int, dropResume: bool, expected: Option<Token>)
      returns (r: Result<bool, Error>)
      modifies `events
      ensures r.Err? <==> id >= |old(events)|
      ensures r.Ok? ==> (r.value <==> old(events)[id].status.Running?
                                      && (expected.Some? ==> old(events)[id].lockedBy == expected))
      ensures events == if r.Ok? && r.value
                        then old(events)[id := ResetRow(old(events)[id], now + availableIn, dropResume)]
                        else old(events)
      ensures r.Ok? && r.value ==>
                var row, row' := old(events)[id], events[id];
                && Released(row, row', Queued) && row'.availableAt == now + availableIn && row'.startedAt.None?
                && row'.retryCount == row.retryCount && row'.finishedAt == row.finishedAt
                && row'.response == row.response && row'.error == row.error
                && match row.meta
                   case NotADict(_) => row'.meta == row.meta
                   case Dict(fields) => row'.meta == if dropResume then Dict(fields - {"resume_session"}) else row.meta
                   case _ => row'.meta == if dropResume then Dict(map[]) else row.meta
    {
      if id >= |events| {
        return Err(KeyError);
      }
      if !events[id].status.Running? {
        return Ok(false);
      }
      if expected.Some? && events[id].lockedBy != expected {
        return Ok(false);
      }
      events := Reset(events, id, expected, now + availableIn, dropResume);
      return Ok(true);
    }

    method MarkEventFailed(id: nat, now: Time, error: string) returns (r: Result<bool, Error>)
      modifies `events
      ensures r.Err? <==> id >= |old(events)|
      ensures r.Ok? ==> (r.value <==> old(events)[id].status.Running?)
      ensures events == if r.Ok? && r.value then old(events)[id := EscalatedRow(old(events)[id], now, error)]
                        else old(events)
      ensures r.Ok? && r.value ==>
                var row, row' := old(events)[id], events[id];
                && Released(row, row', Failed) && row'.finishedAt == Some(now) && row'.error == Some(error)
                && row'.retryCount == row.retryCount && row'.availableAt == row.availableAt
                && row'.startedAt == row.startedAt && row'.response == row.response && row'.meta == row.meta
    {
      if id >= |events| {
        return Err(KeyError);
      }
      if !events[id].status.Running? {
        return Ok(false);
      }
      events := MarkFailed(events, id, now, error);
      return Ok(true);
    }

    // The loop after a claim's work: complete every row of the batch that this
    // claim still owns, skip the rest.
    method CompleteBatch(ids: seq<nat>, token: Token, now: Time, response: string)
      modifies `events
      ensures |events| == |old(events)|
      ensures forall i :: 0 <= i < |events| ==>
                events[i] == if i in ids && OwnedBy(old(events)[i], token)
                             then DoneRow(old(events)[i], now, response) else old(events)[i]
    {
      for k := 0 to |ids|
        invariant |events| == |old(events)|
        invariant forall i :: 0 <= i < |events| ==>
                    events[i] == if i in ids[..k] && OwnedBy(old(events)[i], token)
                                 then DoneRow(old(events)[i], now, response) else old(events)[i]
      {
        assert ids[..k + 1] == ids[..k] + [ids[k]];
        var _ := Complete(ids[k], now, response, Some(token));
      }
      assert ids[..|ids|] == ids;
    }
  }
}
