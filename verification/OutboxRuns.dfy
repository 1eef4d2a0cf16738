// Whole runs of the outbox: submissions, replays and evictions in any order, with
// any pattern of refused calls.
module OutboxRuns {
  import opened Basics
  import opened OutboxFiles

  // An event without the stamp that parking adds.
  type Matter = (string, string)

  function MatterOf(e: Event): Matter { (e.kind, e.payload) }

  // How often a matter occurs among events ...
  function Count(events: seq<Event>, m: Matter): nat {
    if events == [] then 0 else (if MatterOf(events[0]) == m then 1 else 0) + Count(events[1..], m)
  }

  // ... and in files, readable or not.
  function Held(files: Files, m: Matter): nat {
    if files == [] then 0 else Count(Records(files[0].lines), m) + Held(files[1..], m)
  }

  lemma {:induction false} CountAdd(a: seq<Event>, b: seq<Event>, m: Matter)
    ensures Count(a + b, m) == Count(a, m) + Count(b, m)
  {
    if a == [] {
      assert a + b == b;
    } else {
      assert (a + b)[1..] == a[1..] + b;
      CountAdd(a[1..], b, m);
    }
  }

  lemma {:induction false} CountOfStamped(events: seq<Event>, now: Time, m: Matter)
    ensures Count(Stamped(events, now), m) == Count(events, m)
  {
    if events != [] {
      assert Stamped(events, now)[1..] == Stamped(events[1..], now);
      CountOfStamped(events[1..], now, m);
    }
  }

  lemma {:induction false} HeldAdd(a: Files, b: Files, m: Matter)
    ensures Held(a + b, m) == Held(a, m) + Held(b, m)
  {
    if a == [] {
      assert a + b == b;
    } else {
      assert (a + b)[1..] == a[1..] + b;
      HeldAdd(a[1..], b, m);
    }
  }

  lemma HeldPush(f: File, files: Files, m: Matter)
    ensures Held([f] + files, m) == Count(Records(f.lines), m) + Held(files, m)
  {
    assert ([f] + files)[1..] == files;
  }

  // ---- each operation -------------------------------------------------------------------------------

  lemma {:induction false} AppendHolds(files: Files, day: int, now: Time, events: seq<Event>, bytes: nat, m: Matter)
    ensures Held(AppendTo(files, day, now, events, bytes), m) == Held(files, m) + Count(events, m)
  {
    if files == [] || day < files[0].day {
      RecordsOfAll(events);
      HeldPush(File(day, now, bytes, true, AsLines(events)), files, m);
    } else if files[0].day == day {
      var f, g := files[0], AppendTo(files, day, now, events, bytes)[0];
      RecordsOfLines(f.lines, events);
      CountAdd(Records(f.lines), events, m);
      HeldPush(g, files[1..], m);
    } else {
      AppendHolds(files[1..], day, now, events, bytes, m);
      HeldPush(files[0], AppendTo(files[1..], day, now, events, bytes), m);
    }
  }

  lemma ParkHolds(files: Files, chunk: seq<Event>, day: int, c: Call, m: Matter)
    ensures Held(Park(files, chunk, day, c), m) == Held(files, m) + Count(chunk, m)
  {
    CountOfStamped(chunk, c.now, m);
    var stamped := Stamped(chunk, c.now);
    AppendHolds(files, day, c.now, stamped, LinesSize(stamped, c.lineBytes), m);
  }

  lemma CountJoinedPush(chunk: seq<Event>, chunks: Chunks, m: Matter)
    ensures Count(Joined([chunk] + chunks), m) == Count(chunk, m) + Count(Joined(chunks), m)
  {
    assert ([chunk] + chunks)[1..] == chunks;
    CountAdd(chunk, Joined(chunks), m);
  }

  lemma CountSplit(events: seq<Event>, n: nat, m: Matter)
    requires n <= |events|
    ensures Count(events, m) == Count(events[..n], m) + Count(events[n..], m)
  {
    assert events == events[..n] + events[n..];
    CountAdd(events[..n], events[n..], m);
  }

  lemma {:induction false} SubmitHolds(files: Files, events: seq<Event>, day: int, c: Call, calls: nat, m: Matter)
    ensures
      var sent := Submit(files, events, day, c, calls);
      Count(Joined(sent.chunks), m) + Held(sent.files, m) == Count(events, m) + Held(files, m)
    decreases |events|
  {
    hide ChunkEnd, Park, Count, Held;
    if events != [] {
      var n := ChunkEnd(events, BATCH_MAX_EVENTS);
      var chunk, rest := events[..n], events[n..];
      CountSplit(events, n, m);
      if c.answers(calls) {
        SubmitHolds(files, rest, day, c, calls + 1, m);
        CountJoinedPush(chunk, Submit(files, rest, day, c, calls + 1).chunks, m);
      } else {
        ParkHolds(files, chunk, day, c, m);
        SubmitHolds(Park(files, chunk, day, c), rest, day, c, calls + 1, m);
      }
    } else {
      CountNone(m);
    }
  }

  lemma CountNone(m: Matter)
    ensures Count([], m) == 0 && Count(Joined([]), m) == 0 && Held([], m) == 0
  {
  }

  lemma HeldOne(f: File, m: Matter)
    ensures Held([f], m) == Count(Records(f.lines), m)
  {
    assert [f] + [] == [f];
    HeldPush(f, [], m);
  }

  lemma TailHolds(f: File, left: seq<Event>, c: Call, m: Matter)
    ensures Held([Tail(f, left, c)], m) == Count(left, m)
  {
    RecordsOfAll(left);
    HeldOne(Tail(f, left, c), m);
  }

  lemma DrainFileHolds(f: File, c: Call, calls: nat, m: Matter)
    requires c.batch >= 0
    ensures
      var r := DrainFile(f, c, calls);
      Count(Joined(r.chunks), m) + Held(r.files, m) == Held([f], m)
  {
    hide Count, Held, SendChunks;
    CountNone(m);
    HeldOne(f, m);
    var events := Content(f, c.since);
    if Selected(f, c.since) && events != [] && c.batch > 0 {
      var sent := SendChunks(events, c, calls);
      ChunksConserve(events, c, calls);
      CountAdd(Joined(sent.chunks), sent.left, m);
      TailHolds(f, sent.left, c, m);
    }
  }

  lemma {:induction false} DrainHolds(files: Files, c: Call, calls: nat, m: Matter)
    requires c.batch >= 0
    ensures
      var r := Drain(files, c, calls);
      Count(Joined(r.chunks), m) + Held(r.files, m) == Held(files, m)
  {
    hide DrainFile, Count, Held;
    CountNone(m);
    if files != [] {
      var first, rest := DrainFile(files[0], c, calls), files[1..];
      DrainFileHolds(files[0], c, calls, m);
      assert files == [files[0]] + rest;
      HeldAdd([files[0]], rest, m);
      if first.end.Finished? {
        DrainHolds(rest, c, calls + |first.chunks|, m);
        var later := Drain(rest, c, calls + |first.chunks|);
        HeldAdd(first.files, later.files, m);
        JoinedAdd(first.chunks, later.chunks);
        CountAdd(Joined(first.chunks), Joined(later.chunks), m);
      } else {
        HeldAdd(first.files, rest, m);
      }
    }
  }

  function StaleOnes(files: Files, now: Time, maxAge: int): Files {
    if files == [] then []
    else if Stale(files[0], now, maxAge) then [files[0]] + StaleOnes(files[1..], now, maxAge)
    else StaleOnes(files[1..], now, maxAge)
  }

  // The files an eviction removes.
  function Evicted(files: Files, now: Time, maxAge: int, maxBytes: int): Files {
    var recent := Recent(files, now, maxAge);
    StaleOnes(files, now, maxAge) + recent[..OverCap(recent, maxBytes)]
  }

  lemma {:induction false} RecentHolds(files: Files, now: Time, maxAge: int, m: Matter)
    ensures Held(Recent(files, now, maxAge), m) + Held(StaleOnes(files, now, maxAge), m) == Held(files, m)
  {
    if files != [] {
      RecentHolds(files[1..], now, maxAge, m);
      if Stale(files[0], now, maxAge) {
        HeldPush(files[0], StaleOnes(files[1..], now, maxAge), m);
      } else {
        HeldPush(files[0], Recent(files[1..], now, maxAge), m);
      }
    }
  }

  lemma TrimHolds(files: Files, now: Time, maxAge: int, maxBytes: int, m: Matter)
    ensures Held(Trimmed(files, now, maxAge, maxBytes), m) + Held(Evicted(files, now, maxAge, maxBytes), m) == Held(files, m)
  {
    hide Held, Recent, StaleOnes, OverCap;
    RecentHolds(files, now, maxAge, m);
    var recent := Recent(files, now, maxAge);
    var n := OverCap(recent, maxBytes);
    assert recent == recent[..n] + recent[n..];
    HeldAdd(recent[..n], recent[n..], m);
    HeldAdd(StaleOnes(files, now, maxAge), recent[..n], m);
  }

  // ---- whole runs --------------------------------------------------------------------------------------

  datatype Op =
    | Submission(events: seq<Event>, day: int, c: Call)
    | Replay(c: Call)
    | Eviction(now: Time, maxAge: int, maxBytes: int)

  // The files, and everything accepted, submitted and evicted so far.
  datatype State = State(files: Files, accepted: seq<Event>, submitted: seq<Event>, evicted: Files)

  // Each operation meets its own receiver: call number k of it succeeds when its answers say so.
  ghost function Next(s: State, op: Op): State {
    match op
    case Submission(events, day, c) =>
      var sent := Submit(s.files, events, day, c, 0);
      s.(files := sent.files, accepted := s.accepted + Joined(sent.chunks), submitted := s.submitted + events)
    case Replay(c) =>
      var r := Drain(s.files, c, 0);
      s.(files := r.files, accepted := s.accepted + Joined(r.chunks))
    case Eviction(now, maxAge, maxBytes) =>
      s.(files := Trimmed(s.files, now, maxAge, maxBytes),
         evicted := s.evicted + Evicted(s.files, now, maxAge, maxBytes))
  }

  ghost function Run(s: State, ops: seq<Op>): State
    decreases |ops|
  {
    if ops == [] then s else Run(Next(s, ops[0]), ops[1..])
  }

  ghost predicate Accounted(s: State, m: Matter, before: nat) {
    before + Count(s.submitted, m) == Count(s.accepted, m) + Held(s.files, m) + Held(s.evicted, m)
  }

  ghost predicate NoNegativeBatch(op: Op) { op.Replay? ==> op.c.batch >= 0 }

  lemma NextAccounts(s: State, op: Op, m: Matter, before: nat)
    requires Accounted(s, m, before) && NoNegativeBatch(op)
    ensures Accounted(Next(s, op), m, before)
  {
    hide Count, Held;
    match op
    case Submission(events, day, c) =>
      var sent := Submit(s.files, events, day, c, 0);
      SubmitHolds(s.files, events, day, c, 0, m);
      CountAdd(s.accepted, Joined(sent.chunks), m);
      CountAdd(s.submitted, events, m);
    case Replay(c) =>
      var r := Drain(s.files, c, 0);
      DrainHolds(s.files, c, 0, m);
      CountAdd(s.accepted, Joined(r.chunks), m);
    case Eviction(now, maxAge, maxBytes) =>
      TrimHolds(s.files, now, maxAge, maxBytes, m);
      HeldAdd(s.evicted, Evicted(s.files, now, maxAge, maxBytes), m);
  }

  // Every event ever submitted is accepted exactly once, still on disk, or evicted.
  lemma {:induction false} EveryRunAccounts(s: State, ops: seq<Op>, m: Matter, before: nat)
    requires Accounted(s, m, before)
    requires forall k :: 0 <= k < |ops| ==> NoNegativeBatch(ops[k])
    ensures Accounted(Run(s, ops), m, before)
    decreases |ops|
  {
    if ops != [] {
      NextAccounts(s, ops[0], m, before);
      EveryRunAccounts(Next(s, ops[0]), ops[1..], m, before);
    }
  }
}
