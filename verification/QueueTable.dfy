// The `events` table of the gateway queue, as a value, and what each SQL
// statement (or `BEGIN IMMEDIATE` block) does to it.
//
// An event's id is its position in the table: ids come from AUTOINCREMENT and
// no statement deletes an event.  A timestamp is a whole number of seconds;
// module Timestamps shows that comparing the stored texts agrees with this.
module QueueTable {
  import opened Basics

  type Time = int
  type Token = string

  // `<worker_id>#<12 hex digits>`, minted on every claim.
  const CLAIM_TOKEN_SEPARATOR := '#'
  const NONCE_LENGTH := 12

  function MintClaimToken(workerId: string, nonce: string): Token {
    workerId + [CLAIM_TOKEN_SEPARATOR] + nonce
  }

  predicate IsClaimToken(lockedBy: Option<Token>) {
    lockedBy.Some? && CLAIM_TOKEN_SEPARATOR in lockedBy.value
  }

  // Two mints give the same token only from the same worker with the same
  // random part, so tokens are fresh whenever the random parts are.  A plain worker
  // name, as older callers locked rows with, is no claim token.
  lemma MintedTokensAreDistinct(w: string, n: string, w': string, n': string)
    requires |n| == |n'| == NONCE_LENGTH
    ensures IsClaimToken(Some(MintClaimToken(w, n)))
    ensures !IsClaimToken(None) && ('#' !in w ==> !IsClaimToken(Some(w)))
    ensures MintClaimToken(w, n) == MintClaimToken(w', n') <==> w == w' && n == n'
  {
    var t, t' := MintClaimToken(w, n), MintClaimToken(w', n');
    assert t[|w|] == CLAIM_TOKEN_SEPARATOR;
    assert t[..|w|] == w && t[|w| + 1..] == n;
    assert t'[..|w'|] == w' && t'[|w'| + 1..] == n';
  }

  datatype Status = Queued | Running | Done | Failed

  // The JSON column `meta` after decoding.
  datatype Meta = NoMeta | Dict(fields: map<string, string>) | NotADict(text: string) | Undecodable(text: string)

  datatype Row = Row(
    source: string,
    sourceMessageId: Option<string>,
    userId: Option<string>,
    conversationId: Option<string>,
    content: string,
    meta: Meta,
    status: Status,
    receivedAt: Time,
    availableAt: Time,
    lockedBy: Option<Token>,
    lockedUntil: Option<Time>,
    startedAt: Option<Time>,
    finishedAt: Option<Time>,
    retryCount: nat,
    response: Option<string>,
    error: Option<string>)

  type Table = seq<Row>

  datatype Message = Message(
    source: string,
    sourceMessageId: Option<string>,
    userId: Option<string>,
    conversationId: Option<string>,
    content: string,
    meta: Meta,
    availableAt: Option<Time>)

  predicate Terminal(r: Row) { r.status.Done? || r.status.Failed? }

  predicate OwnedBy(r: Row, token: Token) { r.status.Running? && r.lockedBy == Some(token) }

  // ---- what one statement writes into one matching row --------------------

  function NewRow(m: Message, now: Time): Row {
    Row(m.source, m.sourceMessageId, m.userId, m.conversationId, m.content, m.meta, Queued,
        now, m.availableAt.GetOr(now), None, None, None, None, 0, None, None)
  }

  predicate LeaseOver(r: Row, now: Time) { r.lockedUntil.Some? && r.lockedUntil.value <= now }

  predicate Expired(r: Row, now: Time) { r.status.Running? && LeaseOver(r, now) }

  predicate Exhausted(r: Row, maxRetries: Option<int>) {
    maxRetries.Some? && r.retryCount + 1 > maxRetries.value
  }

  function Coalesce<T>(current: Option<T>, fallback: T): Option<T> {
    if current.Some? then current else Some(fallback)
  }

  function RequeuedRow(r: Row, now: Time): Row {
    r.(status := Queued, retryCount := r.retryCount + 1, availableAt := now,
       lockedBy := None, lockedUntil := None, error := Coalesce(r.error, "lease expired"))
  }

  function ExhaustedRow(r: Row, now: Time): Row {
    r.(status := Failed, retryCount := r.retryCount + 1, finishedAt := Some(now),
       lockedBy := None, lockedUntil := None,
       error := Coalesce(r.error, "lease expired (max retries exceeded)"))
  }

  function ExpireRow(r: Row, now: Time, maxRetries: Option<int>): Row {
    if !Expired(r, now) then r
    else if Exhausted(r, maxRetries) then ExhaustedRow(r, now)
    else RequeuedRow(r, now)
  }

  function ClaimedRow(r: Row, token: Token, until: Time, now: Time): Row {
    r.(status := Running, lockedBy := Some(token), lockedUntil := Some(until),
       startedAt := Coalesce(r.startedAt, now), error := None)
  }

  function DoneRow(r: Row, now: Time, response: string): Row {
    r.(status := Done, finishedAt := Some(now), lockedBy := None, lockedUntil := None,
       response := Some(response), error := None)
  }

  // `backoff` is the caller's tuple; indexing past its end clamps to the last entry.
  function Backoff(backoff: seq<int>, retryCount: int): int
    requires |backoff| > 0 && retryCount >= 1
  {
    backoff[if retryCount - 1 < |backoff| - 1 then retryCount - 1 else |backoff| - 1]
  }

  const DEFAULT_RETRY_BACKOFF_SECONDS: seq<int> := [10, 60, 300]

  function FailedRow(r: Row, readCount: nat, now: Time, error: string, maxRetries: int, backoff: seq<int>): Row
    requires |backoff| > 0
  {
    if readCount + 1 <= maxRetries then
      r.(status := Queued, retryCount := readCount + 1, availableAt := now + Backoff(backoff, readCount + 1),
         lockedBy := None, lockedUntil := None, error := Some(error))
    else
      r.(status := Failed, retryCount := readCount + 1, finishedAt := Some(now),
         lockedBy := None, lockedUntil := None, error := Some(error))
  }

  function RetriedRow(r: Row, now: Time): Row {
    r.(status := Queued, availableAt := now, lockedBy := None, lockedUntil := None,
       finishedAt := None, error := None)
  }

  function DropResumeSession(meta: Meta): Meta {
    match meta
    case NoMeta => Dict(map[])
    case Dict(fields) => Dict(fields - {"resume_session"})
    case NotADict(_) => meta
    case Undecodable(_) => Dict(map[])
  }

  function ResetRow(r: Row, availableAt: Time, dropResume: bool): Row {
    r.(status := Queued, availableAt := availableAt, lockedBy := None, lockedUntil := None,
       startedAt := None, meta := if dropResume then DropResumeSession(r.meta) else r.meta)
  }

  function EscalatedRow(r: Row, now: Time, error: string): Row {
    r.(status := Failed, finishedAt := Some(now), lockedBy := None, lockedUntil := None, error := Some(error))
  }

  // ---- statements over the whole table -------------------------------------

  // UPDATE events SET <f> WHERE <p>
  function UpdateWhere(rows: Table, p: (nat, Row) -> bool, f: Row -> Row): (r: Table)
    ensures |r| == |rows|
    ensures forall i :: 0 <= i < |rows| ==> r[i] == if p(i, rows[i]) then f(rows[i]) else rows[i]
  {
    seq(|rows|, i requires 0 <= i < |rows| => if p(i, rows[i]) then f(rows[i]) else rows[i])
  }

  // SELECT COUNT(*) FROM events WHERE <p>; also an UPDATE's row count.
  function CountWhere(rows: Table, p: (nat, Row) -> bool): nat {
    |set i: nat | i < |rows| && p(i, rows[i])|
  }

  // SELECT id FROM events WHERE <p> ORDER BY id
  function SelectIds(rows: Table, p: (nat, Row) -> bool): (ids: seq<nat>)
    ensures Ascending(ids)
    ensures forall i: nat :: i in ids <==> i < |rows| && p(i, rows[i])
  {
    if rows == [] then []
    else
      var n := |rows| - 1;
      var before := SelectIds(rows[..n], p);
      assert forall k | 0 <= k < |before| :: before[k] in before && before[k] < n;
      if p(n, rows[n]) then before + [n] else before
  }

  ghost predicate Ascending(ids: seq<nat>) {
    forall i, j :: 0 <= i < j < |ids| ==> ids[i] < ids[j]
  }

  lemma LastIsGreatest(a: seq<nat>)
    requires Ascending(a) && a != []
    ensures forall i: nat :: i in a <==> i == a[|a| - 1] || (i in a[..|a| - 1] && i < a[|a| - 1])
  {
    assert a == a[..|a| - 1] + [a[|a| - 1]];
  }

  lemma {:induction false} AscendingSameMembers(a: seq<nat>, b: seq<nat>)
    requires Ascending(a) && Ascending(b)
    requires forall i: nat :: i in a <==> i in b
    ensures a == b
  {
    assert a != [] ==> a[0] in b;
    assert b != [] ==> b[0] in a;
    if a != [] && b != [] {
      LastIsGreatest(a);
      LastIsGreatest(b);
      var m, n := |a| - 1, |b| - 1;
      assert a[m] in b && b[n] in a;
      assert a[m] <= b[n] <= a[m];
      forall i: nat ensures i in a[..m] <==> i in b[..n] {
        assert i in a <==> i in b;
      }
      AscendingSameMembers(a[..m], b[..n]);
      assert a == a[..m] + [a[m]] && b == b[..n] + [b[n]];
    }
  }

  predicate Ready(r: Row, now: Time, sources: seq<string>) {
    r.status.Queued? && r.availableAt <= now && (sources == [] || r.source in sources)
  }

  // The inline (or periodic) expiry pass.
  function Expire(rows: Table, now: Time, maxRetries: Option<int>): (r: Table)
    ensures |r| == |rows|
    ensures forall i :: 0 <= i < |rows| ==> r[i] == ExpireRow(rows[i], now, maxRetries)
  {
    UpdateWhere(rows, (i: nat, r: Row) => true, r => ExpireRow(r, now, maxRetries))
  }

  ghost predicate IsFirstReady(rows: Table, head: nat, now: Time, sources: seq<string>) {
    && head < |rows| && Ready(rows[head], now, sources)
    && forall i :: 0 <= i < head ==> !Ready(rows[i], now, sources)
  }

  ghost predicate NothingReady(rows: Table, now: Time, sources: seq<string>) {
    forall i :: 0 <= i < |rows| ==> !Ready(rows[i], now, sources)
  }

  // SELECT id ... WHERE ready ORDER BY id LIMIT 1
  function FirstReady(rows: Table, now: Time, sources: seq<string>): (head: Option<nat>)
    ensures head.Some? ==> IsFirstReady(rows, head.value, now, sources)
    ensures head.None? ==> NothingReady(rows, now, sources)
  {
    if rows == [] then None
    else
      var n := |rows| - 1;
      match FirstReady(rows[..n], now, sources)
      case Some(h) =>
        assert forall i | 0 <= i < h :: rows[i] == rows[..n][i];
        Some(h)
      case None =>
        assert forall i | 0 <= i < n :: rows[i] == rows[..n][i];
        if Ready(rows[n], now, sources) then Some(n) else None
  }

  predicate SameConversation(head: Row, r: Row) {
    head.conversationId.Some? && r.conversationId == head.conversationId
  }

  // Which rows one claim takes, after its expiry pass.
  predicate InBatch(rows: Table, head: nat, i: nat, now: Time, sources: seq<string>, coalesce: bool)
    requires head < |rows| && i < |rows|
  {
    i == head || (coalesce && Ready(rows[i], now, sources) && SameConversation(rows[head], rows[i]))
  }

  function BatchIds(rows: Table, now: Time, sources: seq<string>, coalesce: bool): (ids: seq<nat>)
    ensures Ascending(ids)
    ensures forall i: nat :: i in ids ==> i < |rows| && Ready(rows[i], now, sources)
    ensures FirstReady(rows, now, sources).None? ==> ids == []
    ensures FirstReady(rows, now, sources).Some? ==>
              var head := FirstReady(rows, now, sources).value;
              ids != [] && ids[0] == head
              && forall i :: 0 <= i < |rows| ==> (i in ids <==> InBatch(rows, head, i, now, sources, coalesce))
  {
    match FirstReady(rows, now, sources)
    case None => []
    case Some(head) =>
      var ids := SelectIds(rows, (i: nat, r: Row) => i < |rows| && InBatch(rows, head, i, now, sources, coalesce));
      assert head in ids;
      assert ids[0] in ids;
      ids
  }

  // One claim: expiry pass, choice of rows, one fresh token on all of them.
  function Claim(rows: Table, token: Token, now: Time, lease: int, sources: seq<string>, maxRetries: Option<int>, coalesce: bool): (r: Table)
    ensures |r| == |rows|
  {
    var live := Expire(rows, now, maxRetries);
    var ids := BatchIds(live, now, sources, coalesce);
    UpdateWhere(live, (i: nat, r: Row) => i in ids, r => ClaimedRow(r, token, now + lease, now))
  }

  function ClaimIds(rows: Table, now: Time, sources: seq<string>, maxRetries: Option<int>, coalesce: bool): seq<nat> {
    BatchIds(Expire(rows, now, maxRetries), now, sources, coalesce)
  }

  function Renew(rows: Table, ids: seq<nat>, token: Token, until: Time): (r: Table)
    ensures |r| == |rows|
  {
    UpdateWhere(rows, (i: nat, r: Row) => i in ids && OwnedBy(r, token), (r: Row) => r.(lockedUntil := Some(until)))
  }

  function OwnedIds(rows: Table, ids: seq<nat>, token: Token): set<nat> {
    set i: nat | i < |rows| && i in ids && OwnedBy(rows[i], token)
  }

  function OwnedCount(rows: Table, ids: seq<nat>, token: Token): nat {
    |OwnedIds(rows, ids, token)|
  }

  function Complete(rows: Table, id: nat, token: Token, now: Time, response: string): (r: Table)
    ensures |r| == |rows|
  {
    UpdateWhere(rows, (i: nat, r: Row) => i == id && OwnedBy(r, token), r => DoneRow(r, now, response))
  }

  function FailWrite(rows: Table, id: nat, token: Token, readCount: nat, now: Time, error: string, maxRetries: int, backoff: seq<int>): (r: Table)
    requires |backoff| > 0
    ensures |r| == |rows|
  {
    UpdateWhere(rows, (i: nat, r: Row) => i == id && OwnedBy(r, token), r => FailedRow(r, readCount, now, error, maxRetries, backoff))
  }

  function RetryNow(rows: Table, id: nat, now: Time): (r: Table)
    ensures |r| == |rows|
  {
    UpdateWhere(rows, (i: nat, r: Row) => i == id, r => RetriedRow(r, now))
  }

  function Reset(rows: Table, id: nat, expected: Option<Token>, availableAt: Time, dropResume: bool): (r: Table)
    ensures |r| == |rows|
  {
    UpdateWhere(rows, (i: nat, r: Row) => i == id && r.status.Running? && (expected.Some? ==> r.lockedBy == expected),
                r => ResetRow(r, availableAt, dropResume))
  }

  function MarkFailed(rows: Table, id: nat, now: Time, error: string): (r: Table)
    ensures |r| == |rows|
  {
    UpdateWhere(rows, (i: nat, r: Row) => i == id && r.status.Running?, r => EscalatedRow(r, now, error))
  }

  // INSERT OR IGNORE under the unique index on (source, source_message_id).
  predicate Duplicate(rows: Table, m: Message) {
    m.sourceMessageId.Some?
    && exists i :: 0 <= i < |rows| && rows[i].source == m.source && rows[i].sourceMessageId == m.sourceMessageId
  }

  function Enqueue(rows: Table, m: Message, now: Time): Table {
    if Duplicate(rows, m) then rows else rows + [NewRow(m, now)]
  }
}
