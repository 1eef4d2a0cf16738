// lib/approvals/service.py: the approval table and its calls.  A row's id is its
// place in the table; rows are never deleted.
module Approvals {
  import opened Basics

  type Time = int

  datatype Status = Pending | Approved | Rejected | Expired

  datatype Result = Succeeded(value: string) | Failed(message: string)

  datatype Row = Row(
    kind: string,
    status: Status,
    requestedAt: Time,
    expiresAt: Option<Time>,
    decidedAt: Option<Time>,
    decidedBy: Option<string>,
    channel: Option<string>,
    note: Option<string>,
    appliedAt: Option<Time>,
    result: Option<Result>,
    token: string,
    producer: string,
    sourceRef: Option<string>)

  type Table = seq<Row>

  datatype Error = ValueError | SchemaError | ChatUnresolved | NotFound | Conflict | TokenMismatch

  predicate Terminal(r: Row) { !r.status.Pending? }

  predicate PastExpiry(r: Row, now: Time) { r.expiresAt.Some? && now >= r.expiresAt.value }

  function Closed(r: Row, status: Status, who: string, channel: string, now: Time): Row {
    r.(status := status, decidedAt := Some(now), decidedBy := Some(who), channel := Some(channel))
  }

  // ---- raise_ ---------------------------------------------------------------------------------

  datatype Request = Request(
    kind: string,
    valid: bool,
    title: string,
    producer: string,
    sourceRef: Option<string>,
    expiresIn: Option<int>,
    defaultHours: int,
    chatKnown: bool,
    chatRequired: bool,
    notify: bool,
    token: string)

  predicate HasRef(sourceRef: Option<string>) { sourceRef.Some? && sourceRef.value != "" }

  predicate SameSource(r: Row, q: Request) { r.producer == q.producer && r.sourceRef == q.sourceRef }

  // A lifetime of zero counts as none.
  function Lifetime(q: Request): Option<int> {
    var span := if q.expiresIn.Some? then q.expiresIn.value else if q.defaultHours > 0 then q.defaultHours * 3600 else 0;
    if span == 0 then None else Some(span)
  }

  function NewRow(q: Request, now: Time): Row {
    var life := Lifetime(q);
    Row(q.kind, Pending, now, if life.Some? then Some(now + life.value) else None,
        None, None, None, None, None, None, q.token, q.producer, q.sourceRef)
  }

  predicate Known(rows: Table, q: Request) {
    HasRef(q.sourceRef) && exists i :: 0 <= i < |rows| && SameSource(rows[i], q)
  }

  predicate NewestOfSource(rows: Table, q: Request, id: nat) {
    id < |rows| && SameSource(rows[id], q)
    && forall i :: 0 <= i < |rows| && SameSource(rows[i], q) ==> rows[i].requestedAt <= rows[id].requestedAt
  }

  // Why a request is refused before the table is read, and before a row goes in.
  function Refusal(q: Request): Option<Error> {
    if !q.valid then Some(SchemaError) else if q.title == "" || q.producer == "" then Some(ValueError) else None
  }

  function Raised(rows: Table, q: Request, now: Time): Table {
    if Refusal(q).Some? || Known(rows, q) || (q.notify && !q.chatKnown && q.chatRequired) then rows
    else rows + [NewRow(q, now)]
  }

  // ---- decide, expire, get, list_pending ----------------------------------------------------------

  datatype Action = Approve | Reject

  function Target(action: Action): Status { if action.Approve? then Approved else Rejected }

  datatype Ruling = Ruling(action: Action, who: string, channel: string, token: Option<string>, note: Option<string>)

  // The transaction of decide: the verdict, true when the row was flipped by it.  The
  // write that marks an overdue row expired is undone by the raise that follows it.
  function Verdict(rows: Table, id: nat, d: Ruling, now: Time): Basics.Result<bool, Error> {
    if id >= |rows| then Err(NotFound)
    else if Terminal(rows[id]) then (if rows[id].status == Target(d.action) then Ok(false) else Err(Conflict))
    else if PastExpiry(rows[id], now) then Err(Conflict)
    else if d.token.Some? && d.token.value != rows[id].token then Err(TokenMismatch)
    else Ok(true)
  }

  function Flipped(r: Row, d: Ruling, now: Time): Row {
    Closed(r, Target(d.action), d.who, d.channel, now).(note := if d.note.Some? then d.note else r.note)
  }

  function Decided(rows: Table, id: nat, d: Ruling, now: Time): Table {
    if Verdict(rows, id, d, now) == Ok(true) then rows[id := Flipped(rows[id], d, now)] else rows
  }

  function MarkExpired(rows: Table, id: nat, now: Time): Table {
    if id < |rows| && !Terminal(rows[id]) then rows[id := Closed(rows[id], Expired, "cli:expire", "cli", now)] else rows
  }

  // The just-in-time pass over one row, of get, and of list_pending over the rows
  // its query returned.
  function Aged(r: Row, now: Time): Row {
    if !Terminal(r) && PastExpiry(r, now) then Closed(r, Expired, "system:expire", "system", now) else r
  }

  function Read(rows: Table, id: nat, now: Time): Table {
    if id < |rows| then rows[id := Aged(rows[id], now)] else rows
  }

  function ReadAll(rows: Table, ids: seq<nat>, now: Time): Table {
    seq(|rows|, i requires 0 <= i < |rows| => if i in ids then Aged(rows[i], now) else rows[i])
  }

  // The rows of a listing that are not overdue, in its order.
  function Timely(rows: Table, ids: seq<nat>, now: Time): seq<nat>
    requires forall k :: 0 <= k < |ids| ==> ids[k] < |rows|
  {
    if ids == [] then []
    else
      var before, id := Timely(rows, ids[..|ids| - 1], now), ids[|ids| - 1];
      if PastExpiry(rows[id], now) then before else before + [id]
  }

  // Not overdue, of those selected, and still in their order.
  lemma {:induction false} TimelyIff(rows: Table, ids: seq<nat>, now: Time, id: nat)
    requires forall k :: 0 <= k < |ids| ==> ids[k] < |rows|
    ensures id in Timely(rows, ids, now) <==>
              id in ids && (rows[id].expiresAt.Some? ==> now < rows[id].expiresAt.value)
  {
    if ids != [] {
      TimelyIff(rows, ids[..|ids| - 1], now, id);
      assert ids == ids[..|ids| - 1] + [ids[|ids| - 1]];
    }
  }

  ghost predicate AllIds(ids: seq<nat>, n: nat) { forall k :: 0 <= k < |ids| ==> ids[k] < n }

  lemma {:induction false} TimelyAdd(rows: Table, a: seq<nat>, b: seq<nat>, now: Time)
    requires AllIds(a, |rows|) && AllIds(b, |rows|) && AllIds(a + b, |rows|)
    ensures Timely(rows, a + b, now) == Timely(rows, a, now) + Timely(rows, b, now)
  {
    if b == [] {
      assert a + b == a;
    } else {
      var n := |b| - 1;
      assert (a + b)[..|a + b| - 1] == a + b[..n];
      TimelyAdd(rows, a, b[..n], now);
    }
  }

  // ---- the query of list_pending -----------------------------------------------------------------------

  datatype Filter = Filter(status: Option<Status>, kind: Option<string>)

  predicate Matches(r: Row, f: Filter) {
    (f.status.Some? ==> r.status == f.status.value) && (f.kind.Some? ==> r.kind == f.kind.value)
  }

  // The filter in words: a status and a kind that are given must be the row's.
  ghost predicate Wanted(r: Row, f: Filter) {
    match f
    case Filter(None, None) => true
    case Filter(Some(status), None) => r.status == status
    case Filter(None, Some(kind)) => r.kind == kind
    case Filter(Some(status), Some(kind)) => r.status == status && r.kind == kind
  }

  // What the query returns: matching rows, newest first, each once, and all of them or as
  // many as the limit says, then none newer left out.  A negative limit is none.
  ghost predicate Listing(rows: Table, f: Filter, limit: int, ids: seq<nat>) {
    && (forall k :: 0 <= k < |ids| ==> ids[k] < |rows| && Wanted(rows[ids[k]], f))
    && (forall j, k :: 0 <= j < k < |ids| ==> ids[j] != ids[k] && rows[ids[j]].requestedAt >= rows[ids[k]].requestedAt)
    && (limit >= 0 ==> |ids| <= limit)
    && forall i :: 0 <= i < |rows| && Wanted(rows[i], f) && i !in ids ==>
         |ids| == limit && forall k :: 0 <= k < |ids| ==> rows[ids[k]].requestedAt >= rows[i].requestedAt
  }

  // The newest matching row not listed yet.
  ghost predicate IsNext(rows: Table, f: Filter, ids: seq<nat>, id: nat) {
    && id < |rows| && Matches(rows[id], f) && id !in ids
    && forall i :: 0 <= i < |rows| && Matches(rows[i], f) && i !in ids ==> rows[i].requestedAt <= rows[id].requestedAt
  }

  // Rows listed so far: matching, newest first, each once, and none newer left out.
  ghost predicate Heads(rows: Table, f: Filter, ids: seq<nat>) {
    && (forall k :: 0 <= k < |ids| ==> ids[k] < |rows| && Matches(rows[ids[k]], f))
    && (forall j, k :: 0 <= j < k < |ids| ==> ids[j] != ids[k] && rows[ids[j]].requestedAt >= rows[ids[k]].requestedAt)
    && forall i, k :: 0 <= i < |rows| && Matches(rows[i], f) && i !in ids && 0 <= k < |ids| ==>
         rows[ids[k]].requestedAt >= rows[i].requestedAt
  }

  lemma ListedOneMore(rows: Table, f: Filter, ids: seq<nat>, id: nat)
    requires Heads(rows, f, ids) && IsNext(rows, f, ids, id)
    ensures Heads(rows, f, ids + [id])
  {
  }

  // Done when the limit is reached, or when nothing that matches is left.
  lemma HeadsAreListing(rows: Table, f: Filter, limit: int, ids: seq<nat>)
    requires Heads(rows, f, ids) && (limit >= 0 ==> |ids| <= limit)
    requires |ids| == limit || forall i :: 0 <= i < |rows| && Matches(rows[i], f) ==> i in ids
    ensures Listing(rows, f, limit, ids)
  {
    forall i | 0 <= i < |rows| ensures Matches(rows[i], f) <==> Wanted(rows[i], f) { MatchesIff(rows[i], f); }
    forall k | 0 <= k < |ids| ensures Matches(rows[ids[k]], f) ==> Wanted(rows[ids[k]], f) { MatchesIff(rows[ids[k]], f); }
    hide Matches, Wanted;
  }

  lemma MatchesIff(r: Row, f: Filter)
    ensures Matches(r, f) <==> Wanted(r, f)
  {
  }

  // The places in a table of n rows.
  ghost function Places(n: nat): (r: set<nat>)
    ensures forall i: nat :: i in r <==> i < n
  {
    if n == 0 then {} else Places(n - 1) + {n - 1}
  }

  // ---- the apply callback ----------------------------------------------------------------------------

  datatype Handler = NoHandler | Returns(value: string) | Raises(message: string)

  function Applied(rows: Table, id: nat, h: Handler, now: Time): Table {
    if id >= |rows| then rows
    else
      match h
      case NoHandler => rows
      case Returns(value) => rows[id := rows[id].(appliedAt := Some(now), result := Some(Succeeded(value)))]
      case Raises(message) => rows[id := rows[id].(result := Some(Failed(message)))]
  }

  // The columns that are written once, by the raise.
  ghost predicate SameRequest(before: Row, after: Row) {
    && after.kind == before.kind && after.requestedAt == before.requestedAt && after.expiresAt == before.expiresAt
    && after.token == before.token && after.producer == before.producer && after.sourceRef == before.sourceRef
  }

  // What a callback records: its value and the moment, or the error alone.
  ghost predicate Called(h: Handler, now: Time, before: Row, after: Row) {
    match h
    case NoHandler => after.appliedAt == before.appliedAt && after.result == before.result
    case Returns(value) => after.appliedAt == Some(now) && after.result == Some(Succeeded(value))
    case Raises(message) => after.appliedAt == before.appliedAt && after.result == Some(Failed(message))
  }

  // The decision columns of an overdue row that is closed.
  ghost predicate ClosedBy(before: Row, after: Row, who: string, channel: string, now: Time) {
    && SameRequest(before, after) && after.status.Expired? && after.decidedAt == Some(now)
    && after.decidedBy == Some(who) && after.channel == Some(channel)
    && after.note == before.note && after.appliedAt == before.appliedAt && after.result == before.result
  }

  // ---- the service as an object ------------------------------------------------------------------------

  class Service {
    var rows: Table
    var ran: seq<nat>  // the row of every handler run, in order

    constructor ()
      ensures rows == [] && ran == []
    {
      rows, ran := [], [];
    }

    method Raise(q: Request, now: Time) returns (r: Basics.Result<nat, Error>)
      modifies `rows
      ensures rows == Raised(old(rows), q, now)
      ensures !q.valid ==> r == Err(SchemaError) && rows == old(rows)
      ensures q.valid && (q.title == "" || q.producer == "") ==> r == Err(ValueError) && rows == old(rows)
      ensures r.Err? && q.valid && q.title != "" && q.producer != "" ==>
                r == Err(ChatUnresolved) && rows == old(rows) && q.notify && !q.chatKnown && q.chatRequired
      ensures r.Ok? && |rows| > |old(rows)| ==>
                && r.value == |old(rows)| == |rows| - 1 && rows[..r.value] == old(rows)
                && var row := rows[r.value];
                   && row.status.Pending? && row.kind == q.kind && row.requestedAt == now && row.token == q.token
                   && row.producer == q.producer && row.sourceRef == q.sourceRef
                   && row.decidedAt.None? && row.decidedBy.None? && row.channel.None? && row.note.None?
                   && row.appliedAt.None? && row.result.None?
                   && row.expiresAt == match q.expiresIn
                                       case Some(span) => if span == 0 then None else Some(now + span)
                                       case None => if q.defaultHours > 0 then Some(now + q.defaultHours * 3600) else None
      ensures
        var asked := q.valid && q.title != "" && q.producer != "";
        var known := q.sourceRef.Some? && q.sourceRef.value != ""
                     && exists i :: 0 <= i < |old(rows)| && old(rows)[i].producer == q.producer && old(rows)[i].sourceRef == q.sourceRef;
        && (asked && known ==>
              && r.Ok? && rows == old(rows) && r.value < |rows|
              && rows[r.value].producer == q.producer && rows[r.value].sourceRef == q.sourceRef
              && NewestOfSource(rows, q, r.value))
        && (asked && !known && !(q.notify && !q.chatKnown && q.chatRequired) ==> r == Ok(|old(rows)|) && |rows| == |old(rows)| + 1)
      ensures Refusal(q).None? && !Known(old(rows), q) ==>
                r == if |rows| == |old(rows)| then Err(ChatUnresolved) else Ok(|old(rows)|)
    {
      if !q.valid {
        return Err(SchemaError);
      }
      if q.title == "" || q.producer == "" {
        return Err(ValueError);
      }
      if HasRef(q.sourceRef) {
        var newest: Option<nat> := None;
        for i := 0 to |rows|
          invariant newest.Some? ==> newest.value < i && SameSource(rows[newest.value], q)
          invariant forall j :: 0 <= j < i && SameSource(rows[j], q) ==>
                      newest.Some? && rows[j].requestedAt <= rows[newest.value].requestedAt
        {
          if SameSource(rows[i], q) && (newest.None? || rows[newest.value].requestedAt <= rows[i].requestedAt) {
            newest := Some(i);
          }
        }
        if newest.Some? {
          return Ok(newest.value);
        }
      }
      if q.notify && !q.chatKnown && q.chatRequired {
        return Err(ChatUnresolved);
      }
      rows := rows + [NewRow(q, now)];
      r := Ok(|rows| - 1);
    }

    method Get(id: nat, now: Time) returns (r: Option<Row>)
      modifies `rows
      ensures rows == Read(old(rows), id, now)
      ensures |rows| == |old(rows)|
      ensures forall i :: 0 <= i < |rows| ==>
                var row := old(rows)[i];
                if i == id && row.status.Pending? && row.expiresAt.Some? && row.expiresAt.value <= now
                then ClosedBy(row, rows[i], "system:expire", "system", now) else rows[i] == row
      ensures r == if id < |rows| then Some(rows[id]) else None
    {
      if id >= |rows| {
        return None;
      }
      if rows[id].status.Pending? && PastExpiry(rows[id], now) {
        rows := rows[id := Closed(rows[id], Expired, "system:expire", "system", now)];
      }
      r := Some(rows[id]);
    }

    method RunCallback(id: nat, h: Handler, now: Time)
      modifies this
      ensures rows == Applied(old(rows), id, h, now)
      ensures ran == if h.NoHandler? then old(ran) else old(ran) + [id]
    {
      if h.NoHandler? {
        return;
      }
      ran := ran + [id];
      if id < |rows| {
        if h.Returns? {
          rows := rows[id := rows[id].(appliedAt := Some(now), result := Some(Succeeded(h.value)))];
        } else {
          rows := rows[id := rows[id].(result := Some(Failed(h.message)))];
        }
      }
    }

    // The row is written inside a transaction: a raise restores the table.
    method Decide(id: nat, d: Ruling, runCallback: bool, h: Handler, now: Time) returns (r: Basics.Result<Row, Error>)
      modifies this
      ensures
        var verdict := Verdict(old(rows), id, d, now);
        var flipped := Decided(old(rows), id, d, now);
        var applies := verdict == Ok(true) && d.action.Approve? && runCallback;
        && rows == (if applies then Applied(flipped, id, h, now) else flipped)
        && ran == (if applies && !h.NoHandler? then old(ran) + [id] else old(ran))
        && (if verdict.Err? then r == Err(verdict.error) else id < |rows| && r == Ok(rows[id]))
      ensures id >= |old(rows)| ==> r == Err(NotFound) && rows == old(rows)
      ensures id < |old(rows)| && !old(rows)[id].status.Pending? ==>
                && rows == old(rows) && ran == old(ran)
                && r == if old(rows)[id].status == (if d.action.Approve? then Approved else Rejected) then Ok(rows[id]) else Err(Conflict)
      ensures id < |old(rows)| && old(rows)[id].status.Pending? ==>
                var row := old(rows)[id];
                if row.expiresAt.Some? && row.expiresAt.value <= now then r == Err(Conflict) && rows == old(rows) && ran == old(ran)
                else if d.token.Some? && d.token.value != row.token then r == Err(TokenMismatch) && rows == old(rows) && ran == old(ran)
                else
                  && |rows| == |old(rows)| && r == Ok(rows[id]) && (forall i :: 0 <= i < |rows| && i != id ==> rows[i] == old(rows)[i])
                  && rows[id].status == (if d.action.Approve? then Approved else Rejected)
                  && rows[id].decidedAt == Some(now) && rows[id].decidedBy == Some(d.who) && rows[id].channel == Some(d.channel)
                  && rows[id].note == (if d.note.Some? then d.note else row.note)
                  && SameRequest(row, rows[id])
                  && if d.action.Approve? && runCallback then Called(h, now, row, rows[id]) && ran == (if h.NoHandler? then old(ran) else old(ran) + [id])
                     else rows[id].appliedAt == row.appliedAt && rows[id].result == row.result && ran == old(ran)
    {
      var before := rows;
      if id >= |rows| {
        return Err(NotFound);
      }
      var record := rows[id];
      if record.status != Pending {
        return if record.status == Target(d.action) then Ok(record) else Err(Conflict);
      }
      if PastExpiry(record, now) {
        rows := rows[id := Closed(record, Expired, "system:expire", "system", now)];
        rows := before;
        return Err(Conflict);
      }
      if d.token.Some? && d.token.value != record.token {
        return Err(TokenMismatch);
      }
      if rows[id].status.Pending? {
        rows := rows[id := Flipped(rows[id], d, now)];
      }
      if d.action.Approve? && runCallback {
        RunCallback(id, h, now);
        var again := Get(id, now);
        return Ok(again.value);
      }
      r := Ok(rows[id]);
    }

    method Expire(id: nat, now: Time) returns (r: Basics.Result<Row, Error>)
      modifies `rows
      ensures rows == MarkExpired(old(rows), id, now)
      ensures id < |old(rows)| && old(rows)[id].status.Pending? ==>
                |rows| == |old(rows)| && ClosedBy(old(rows)[id], rows[id], "cli:expire", "cli", now)
      ensures |rows| == |old(rows)| && forall i :: 0 <= i < |rows| && (i != id || !old(rows)[i].status.Pending?) ==> rows[i] == old(rows)[i]
      ensures r == if id < |rows| then Ok(rows[id]) else Err(NotFound)
    {
      if id >= |rows| {
        return Err(NotFound);
      }
      if rows[id].status.Pending? {
        rows := rows[id := Closed(rows[id], Expired, "cli:expire", "cli", now)];
      }
      r := Ok(rows[id]);
    }

    method NewestUnlisted(f: Filter, ids: seq<nat>) returns (next: Option<nat>)
      ensures next.Some? ==> IsNext(rows, f, ids, next.value)
      ensures next.None? ==> forall i :: 0 <= i < |rows| && Matches(rows[i], f) ==> i in ids
    {
      next := None;
      for i := 0 to |rows|
        invariant next.Some? ==> next.value < i && Matches(rows[next.value], f) && next.value !in ids
        invariant forall j :: 0 <= j < i && Matches(rows[j], f) && j !in ids ==>
                    next.Some? && rows[j].requestedAt <= rows[next.value].requestedAt
      {
        if Matches(rows[i], f) && i !in ids && (next.None? || rows[next.value].requestedAt < rows[i].requestedAt) {
          next := Some(i);
        }
      }
    }

    // SELECT ... ORDER BY requested_at DESC LIMIT ?; of rows as old, the first inserted.
    method Query(f: Filter, limit: int) returns (ids: seq<nat>)
      ensures Listing(rows, f, limit, ids)
    {
      hide Listing, Wanted;
      ids := [];
      ghost var unlisted := Places(|rows|);
      while limit < 0 || |ids| < limit
        invariant Heads(rows, f, ids) && (limit >= 0 ==> |ids| <= limit)
        invariant forall i: nat :: i in unlisted <==> i < |rows| && i !in ids
        decreases unlisted
      {
        var next := NewestUnlisted(f, ids);
        if next.None? {
          HeadsAreListing(rows, f, limit, ids);
          return;
        }
        ListedOneMore(rows, f, ids, next.value);
        ids := ids + [next.value];
        unlisted := unlisted - {next.value};
      }
      HeadsAreListing(rows, f, limit, ids);
    }

    // Only a listing of pending rows expires the overdue ones among them.
    method ListPending(f: Filter, limit: int, now: Time) returns (ghost selected: seq<nat>, shown: seq<nat>)
      modifies `rows
      ensures Listing(old(rows), f, limit, selected)
      ensures rows == if f.status == Some(Pending) then ReadAll(old(rows), selected, now) else old(rows)
      ensures |rows| == |old(rows)|
      ensures forall i :: 0 <= i < |rows| ==>
                var row := old(rows)[i];
                if f.status == Some(Pending) && i in selected && row.expiresAt.Some? && row.expiresAt.value <= now
                then ClosedBy(row, rows[i], "system:expire", "system", now) else rows[i] == row
      ensures shown == if f.status == Some(Pending) then Timely(old(rows), selected, now) else selected
    {
      var ids := Query(f, limit);
      selected := ids;
      if f.status != Some(Pending) {
        return selected, ids;
      }
      var before := rows;
      var overdue: seq<nat> := [];
      shown := [];
      for k := 0 to |ids|
        invariant shown == Timely(before, ids[..k], now)
        invariant forall id :: id in overdue <==> id in ids[..k] && PastExpiry(before[id], now)
      {
        assert ids[..k + 1] == ids[..k] + [ids[k]];
        assert ids[..k + 1][..k] == ids[..k];
        if PastExpiry(rows[ids[k]], now) {
          overdue := overdue + [ids[k]];
        } else {
          shown := shown + [ids[k]];
        }
      }
      assert ids[..|ids|] == ids;
      CloseOverdue(overdue, now);
    }

    method CloseOverdue(overdue: seq<nat>, now: Time)
      requires forall id :: id in overdue ==> id < |rows|
      modifies `rows
      ensures |rows| == |old(rows)|
      ensures forall i :: 0 <= i < |rows| ==>
                rows[i] == if i in overdue then Closed(old(rows)[i], Expired, "system:expire", "system", now) else old(rows)[i]
    {
      for k := 0 to |overdue|
        invariant |rows| == |old(rows)|
        invariant forall i :: 0 <= i < |rows| ==>
                    rows[i] == if i in overdue[..k] then Closed(old(rows)[i], Expired, "system:expire", "system", now) else old(rows)[i]
      {
        assert overdue[k] in overdue && overdue[..k + 1] == overdue[..k] + [overdue[k]];
        rows := rows[overdue[k] := Closed(rows[overdue[k]], Expired, "system:expire", "system", now)];
      }
      assert overdue[..|overdue|] == overdue;
    }

    method ApplyCallbackNow(id: nat, h: Handler, now: Time) returns (r: Option<Row>)
      modifies this
      ensures
        var current := Read(old(rows), id, now);
        var applies := id < |current| && current[id].status.Approved?;
        && rows == (if applies then Applied(current, id, h, now) else current)
        && ran == (if applies && !h.NoHandler? then old(ran) + [id] else old(ran))
        && r == if id < |rows| then Some(rows[id]) else None
    {
      r := Get(id, now);
      if r.None? || !r.value.status.Approved? {
        return;
      }
      RunCallback(id, h, now);
      r := Get(id, now);
    }
  }
}
