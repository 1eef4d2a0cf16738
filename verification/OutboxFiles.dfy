// The files of the reporter's disk-backed outbox: one file of JSON lines per day,
// replayed in chunks, trimmed by age and size.
module OutboxFiles {
  import opened Basics

  type Time = int

  datatype Event = Event(kind: string, payload: string, queuedAt: Option<Time>)

  datatype Line = Blank | Undecodable | Record(event: Event)

  // Files are named by day, so the name order is the order of days.
  datatype File = File(day: int, mtime: Time, size: nat, readable: bool, lines: seq<Line>)

  type Files = seq<File>

  ghost predicate Sorted(files: Files) {
    forall i, j :: 0 <= i < j < |files| ==> files[i].day < files[j].day
  }

  function Stamped(events: seq<Event>, now: Time): seq<Event> {
    seq(|events|, i requires 0 <= i < |events| => events[i].(queuedAt := Some(now)))
  }

  function AsLines(events: seq<Event>): seq<Line> {
    seq(|events|, i requires 0 <= i < |events| => Record(events[i]))
  }

  function Records(lines: seq<Line>): seq<Event> {
    if lines == [] then []
    else (if lines[0].Record? then [lines[0].event] else []) + Records(lines[1..])
  }

  lemma {:induction false} RecordsOfLines(a: seq<Line>, events: seq<Event>)
    ensures Records(a + AsLines(events)) == Records(a) + events
    decreases |a| + |events|
  {
    var lines := a + AsLines(events);
    if a != [] {
      assert lines[1..] == a[1..] + AsLines(events);
      RecordsOfLines(a[1..], events);
    } else if events != [] {
      assert lines[1..] == [] + AsLines(events[1..]);
      RecordsOfLines([], events[1..]);
      assert events == [events[0]] + events[1..];
    }
  }

  lemma RecordsOfAll(events: seq<Event>)
    ensures Records(AsLines(events)) == events
  {
    RecordsOfLines([], events);
    assert [] + AsLines(events) == AsLines(events) && Records([]) + events == events;
  }

  // ---- the files a replay takes, and what it would send -------------------------------------

  predicate Selected(f: File, since: Option<Time>) {
    f.readable && (since.None? || since.value <= f.mtime)
  }

  function Content(f: File, since: Option<Time>): seq<Event> {
    if Selected(f, since) then Records(f.lines) else []
  }

  function Buffered(files: Files, since: Option<Time>): seq<Event> {
    if files == [] then [] else Content(files[0], since) + Buffered(files[1..], since)
  }

  lemma {:induction false} BufferedAdd(a: Files, b: Files, since: Option<Time>)
    ensures Buffered(a + b, since) == Buffered(a, since) + Buffered(b, since)
  {
    if a == [] {
      assert a + b == b;
    } else {
      assert (a + b)[1..] == a[1..] + b;
      BufferedAdd(a[1..], b, since);
    }
  }

  function LeftAlone(files: Files, since: Option<Time>): Files {
    if files == [] then []
    else if Selected(files[0], since) then LeftAlone(files[1..], since)
    else [files[0]] + LeftAlone(files[1..], since)
  }

  lemma {:induction false} LeftAloneAdd(a: Files, b: Files, since: Option<Time>)
    ensures LeftAlone(a + b, since) == LeftAlone(a, since) + LeftAlone(b, since)
  {
    if a == [] {
      assert a + b == b;
    } else {
      assert (a + b)[1..] == a[1..] + b;
      LeftAloneAdd(a[1..], b, since);
    }
  }

  lemma {:induction false} LeftAloneIdempotent(files: Files, since: Option<Time>)
    ensures LeftAlone(LeftAlone(files, since), since) == LeftAlone(files, since)
  {
    if files != [] {
      LeftAloneIdempotent(files[1..], since);
      assert Selected(files[0], since) || ([files[0]] + LeftAlone(files[1..], since))[1..] == LeftAlone(files[1..], since);
    }
  }

  type Chunks = seq<seq<Event>>

  function Joined(chunks: Chunks): seq<Event> {
    if chunks == [] then [] else chunks[0] + Joined(chunks[1..])
  }

  lemma {:induction false} JoinedAdd(a: Chunks, b: Chunks)
    ensures Joined(a + b) == Joined(a) + Joined(b)
  {
    if a == [] {
      assert a + b == b;
    } else {
      assert (a + b)[1..] == a[1..] + b;
      JoinedAdd(a[1..], b);
    }
  }

  // One call of drain and what surrounds it: call number k of send succeeds
  // exactly when answers(k); a line of JSON takes lineBytes bytes.
  datatype Call = Call(batch: int, since: Option<Time>, now: Time, lineBytes: Event -> nat, answers: nat -> bool) {
    ghost predicate Possible() { since.Some? ==> since.value <= now }
  }

  datatype Sent = Sent(chunks: Chunks, left: seq<Event>)

  // Where a slice of length `batch` ends.
  function ChunkEnd(events: seq<Event>, batch: nat): (n: nat)
    requires events != [] && batch > 0
    ensures 1 <= n <= |events| && n <= batch
  {
    if batch < |events| then batch else |events|
  }

  function SendChunks(events: seq<Event>, c: Call, calls: nat): Sent
    requires c.batch > 0
    decreases |events|
  {
    if events == [] || !c.answers(calls) then Sent([], events)
    else
      var n := ChunkEnd(events, c.batch);
      var later := SendChunks(events[n..], c, calls + 1);
      Sent([events[..n]] + later.chunks, later.left)
  }

  datatype End = Finished | Stopped | Raised

  datatype Replay = Replay(files: Files, chunks: Chunks, end: End)

  function LinesSize(events: seq<Event>, lineBytes: Event -> nat): nat {
    if events == [] then 0 else lineBytes(events[0]) + LinesSize(events[1..], lineBytes)
  }

  // _rewrite_tail with something to keep.
  function Tail(f: File, events: seq<Event>, c: Call): File {
    File(f.day, c.now, LinesSize(events, c.lineBytes), true, AsLines(events))
  }

  // One round of the loop over the files.
  function DrainFile(f: File, c: Call, calls: nat): Replay {
    var events := Content(f, c.since);
    if !Selected(f, c.since) then Replay([f], [], Finished)
    else if events == [] || c.batch < 0 then Replay([], [], Finished)
    else if c.batch == 0 then Replay([f], [], Raised)
    else
      var sent := SendChunks(events, c, calls);
      if sent.left == [] then Replay([], sent.chunks, Finished)
      else Replay([Tail(f, sent.left, c)], sent.chunks, Stopped)
  }

  function Drain(files: Files, c: Call, calls: nat): Replay {
    if files == [] then Replay([], [], Finished)
    else
      var first := DrainFile(files[0], c, calls);
      if !first.end.Finished? then Replay(first.files + files[1..], first.chunks, first.end)
      else
        var later := Drain(files[1..], c, calls + |first.chunks|);
        Replay(first.files + later.files, first.chunks + later.chunks, later.end)
  }

  // ---- what a replay conserves ------------------------------------------------------------------

  predicate ChunksFit(chunks: Chunks, batch: int) {
    forall k :: 0 <= k < |chunks| ==> 1 <= |chunks[k]| <= batch
  }

  ghost predicate AllTook(c: Call, calls: nat, n: nat) {
    forall k: nat :: calls <= k < calls + n ==> c.answers(k)
  }

  lemma RegroupTwo(a: seq<Event>, b: seq<Event>, none: seq<Event>, d: seq<Event>)
    requires none == []
    ensures (a + b) + (none + d) == (a + none) + (b + d)
  {
  }

  lemma JoinedPush(chunk: seq<Event>, chunks: Chunks, left: seq<Event>)
    ensures Joined([chunk] + chunks) + left == chunk + (Joined(chunks) + left)
  {
    assert ([chunk] + chunks)[1..] == chunks;
    Regroup(chunk, Joined(chunks), left);
  }

  lemma SplitAt(events: seq<Event>, n: nat)
    requires n <= |events|
    ensures events[..n] + events[n..] == events
  {
  }

  lemma {:induction false} ChunksConserve(events: seq<Event>, c: Call, calls: nat)
    requires c.batch > 0
    ensures
      var sent := SendChunks(events, c, calls);
      Joined(sent.chunks) + sent.left == events
    decreases |events|
  {
    if events != [] && c.answers(calls) {
      var n := ChunkEnd(events, c.batch);
      var later := SendChunks(events[n..], c, calls + 1);
      ChunksConserve(events[n..], c, calls + 1);
      JoinedPush(events[..n], later.chunks, later.left);
      SplitAt(events, n);
    }
  }

  lemma {:induction false} ChunksUntilRefused(events: seq<Event>, c: Call, calls: nat)
    requires c.batch > 0
    ensures
      var sent := SendChunks(events, c, calls);
      && ChunksFit(sent.chunks, c.batch) && AllTook(c, calls, |sent.chunks|)
      && (sent.left != [] ==> !c.answers(calls + |sent.chunks|))
    decreases |events|
  {
    if events != [] && c.answers(calls) {
      var n := ChunkEnd(events, c.batch);
      ChunksUntilRefused(events[n..], c, calls + 1);
    }
  }

  // Accepted then left, in file order, is what was there: nothing lost, nothing twice.
  ghost predicate Conserves(files: Files, r: Replay, since: Option<Time>) {
    Joined(r.chunks) + Buffered(r.files, since) == Buffered(files, since)
  }

  lemma BufferedOne(f: File, since: Option<Time>)
    ensures Buffered([f], since) == Content(f, since)
  {
    assert Buffered([f], since) == Content(f, since) + Buffered([], since);
  }

  lemma TailContent(f: File, left: seq<Event>, c: Call)
    requires c.Possible()
    ensures Content(Tail(f, left, c), c.since) == left && Selected(Tail(f, left, c), c.since)
  {
    RecordsOfAll(left);
  }

  lemma DrainFileConserves(f: File, c: Call, calls: nat)
    requires c.Possible() && c.batch >= 0
    ensures
      var r := DrainFile(f, c, calls);
      Conserves([f], r, c.since) && (r.end.Finished? ==> Buffered(r.files, c.since) == [])
  {
    BufferedOne(f, c.since);
    var events := Content(f, c.since);
    if Selected(f, c.since) && events != [] && c.batch > 0 {
      ChunksConserve(events, c, calls);
      var sent := SendChunks(events, c, calls);
      TailContent(f, sent.left, c);
      BufferedOne(Tail(f, sent.left, c), c.since);
    }
  }

  lemma ConservesStep(f: File, rest: Files, first: Replay, later: Replay, since: Option<Time>)
    requires Conserves([f], first, since) && Conserves(rest, later, since) && Buffered(first.files, since) == []
    ensures Conserves([f] + rest, Replay(first.files + later.files, first.chunks + later.chunks, later.end), since)
  {
    hide Joined, Buffered;
    JoinedAdd(first.chunks, later.chunks);
    BufferedAdd(first.files, later.files, since);
    BufferedAdd([f], rest, since);
    RegroupTwo(Joined(first.chunks), Joined(later.chunks), Buffered(first.files, since), Buffered(later.files, since));
  }

  lemma ConservesLast(f: File, rest: Files, first: Replay, since: Option<Time>)
    requires Conserves([f], first, since)
    ensures Conserves([f] + rest, Replay(first.files + rest, first.chunks, first.end), since)
  {
    hide Joined, Buffered;
    BufferedAdd(first.files, rest, since);
    BufferedAdd([f], rest, since);
    Regroup(Joined(first.chunks), Buffered(first.files, since), Buffered(rest, since));
  }

  lemma {:induction false} DrainConserves(files: Files, c: Call, calls: nat)
    requires c.Possible() && c.batch >= 0
    ensures Conserves(files, Drain(files, c, calls), c.since)
  {
    hide DrainFile;
    if files != [] {
      var first, rest := DrainFile(files[0], c, calls), files[1..];
      DrainFileConserves(files[0], c, calls);
      assert files == [files[0]] + rest;
      if first.end.Finished? {
        DrainConserves(rest, c, calls + |first.chunks|);
        ConservesStep(files[0], rest, first, Drain(rest, c, calls + |first.chunks|), c.since);
      } else {
        ConservesLast(files[0], rest, first, c.since);
      }
    }
  }

  // A negative batch makes an empty range of chunks: every selected file goes unsent.
  lemma {:induction false} NegativeBatchSendsNothing(files: Files, c: Call, calls: nat)
    requires c.batch < 0
    ensures Drain(files, c, calls) == Replay(LeftAlone(files, c.since), [], Finished)
    ensures Buffered(LeftAlone(files, c.since), c.since) == []
  {
    if files != [] {
      NegativeBatchSendsNothing(files[1..], c, calls);
      var rest := LeftAlone(files[1..], c.since);
      assert !Selected(files[0], c.since) ==> ([files[0]] + rest)[1..] == rest;
    }
  }

  lemma DrainConservesIff(files: Files, c: Call, calls: nat)
    requires c.Possible()
    ensures Conserves(files, Drain(files, c, calls), c.since) <==> c.batch >= 0 || Buffered(files, c.since) == []
  {
    if c.batch >= 0 {
      DrainConserves(files, c, calls);
    } else {
      NegativeBatchSendsNothing(files, c, calls);
    }
  }

  // How far a replay gets: to the first refusal, or to the end of the selected files.
  ghost predicate GoesOnUntilRefused(files: Files, c: Call, calls: nat, r: Replay) {
    && ChunksFit(r.chunks, c.batch) && AllTook(c, calls, |r.chunks|)
    && match r.end
       case Finished => r.files == LeftAlone(files, c.since)
       case Stopped => !c.answers(calls + |r.chunks|) && LeftAlone(r.files, c.since) == LeftAlone(files, c.since)
       case Raised => false
  }

  lemma DrainFileGoesOn(f: File, c: Call, calls: nat)
    requires c.Possible() && c.batch > 0
    ensures GoesOnUntilRefused([f], c, calls, DrainFile(f, c, calls))
  {
    var events := Content(f, c.since);
    assert [f][1..] == [];
    if Selected(f, c.since) && events != [] {
      ChunksUntilRefused(events, c, calls);
      var left := SendChunks(events, c, calls).left;
      TailContent(f, left, c);
      assert [Tail(f, left, c)][1..] == [];
    }
  }

  lemma GoesOnStep(f: File, rest: Files, c: Call, calls: nat, first: Replay, later: Replay)
    requires GoesOnUntilRefused([f], c, calls, first) && first.end.Finished?
    requires GoesOnUntilRefused(rest, c, calls + |first.chunks|, later)
    ensures GoesOnUntilRefused([f] + rest, c, calls, Replay(first.files + later.files, first.chunks + later.chunks, later.end))
  {
    LeftAloneAdd([f], rest, c.since);
    LeftAloneAdd(first.files, later.files, c.since);
    LeftAloneIdempotent([f], c.since);
  }

  lemma {:induction false} DrainGoesOn(files: Files, c: Call, calls: nat)
    requires c.Possible() && c.batch > 0
    ensures GoesOnUntilRefused(files, c, calls, Drain(files, c, calls))
  {
    hide DrainFile;
    if files != [] {
      var first, rest := DrainFile(files[0], c, calls), files[1..];
      DrainFileGoesOn(files[0], c, calls);
      assert files == [files[0]] + rest;
      if first.end.Finished? {
        DrainGoesOn(rest, c, calls + |first.chunks|);
        GoesOnStep(files[0], rest, c, calls, first, Drain(rest, c, calls + |first.chunks|));
      } else {
        LeftAloneAdd([files[0]], rest, c.since);
        LeftAloneAdd(first.files, rest, c.since);
      }
    }
  }

  // ---- appending and trimming ---------------------------------------------------------------------

  // Append to the file of a day, or make it, in name order.
  function AppendTo(files: Files, day: int, now: Time, events: seq<Event>, bytes: nat): Files {
    if files == [] || day < files[0].day then [File(day, now, bytes, true, AsLines(events))] + files
    else if files[0].day == day then
      [files[0].(mtime := now, size := files[0].size + bytes, lines := files[0].lines + AsLines(events))] + files[1..]
    else [files[0]] + AppendTo(files[1..], day, now, events, bytes)
  }

  ghost predicate SortedAbove(files: Files, low: int) {
    Sorted(files) && forall i :: 0 <= i < |files| ==> low < files[i].day
  }

  lemma SortedTail(files: Files, low: int)
    requires files != [] && SortedAbove(files, low)
    ensures SortedAbove(files[1..], files[0].day)
  {
  }

  lemma SortedPush(f: File, files: Files, low: int)
    requires low < f.day && SortedAbove(files, f.day)
    ensures SortedAbove([f] + files, low)
  {
  }

  lemma {:induction false} AppendKeepsOrder(files: Files, low: int, day: int, now: Time, events: seq<Event>, bytes: nat)
    requires SortedAbove(files, low) && low < day
    ensures SortedAbove(AppendTo(files, day, now, events, bytes), low)
  {
    if files != [] {
      hide SortedAbove;
      SortedTail(files, low);
      FirstAbove(files, low);
      if files[0].day < day {
        AppendKeepsOrder(files[1..], files[0].day, day, now, events, bytes);
        SortedPush(files[0], AppendTo(files[1..], day, now, events, bytes), low);
      } else if files[0].day == day {
        SortedPush(AppendTo(files, day, now, events, bytes)[0], files[1..], low);
      } else {
        assert files == [files[0]] + files[1..];
        SortedPush(files[0], files[1..], day);
        SortedPush(AppendTo(files, day, now, events, bytes)[0], files, low);
      }
    }
  }

  lemma FirstAbove(files: Files, low: int)
    requires files != [] && SortedAbove(files, low)
    ensures low < files[0].day
  {
  }

  function TotalSize(files: Files): nat {
    if files == [] then 0 else files[0].size + TotalSize(files[1..])
  }

  function TotalLines(files: Files): nat {
    if files == [] then 0 else |files[0].lines| + TotalLines(files[1..])
  }

  lemma {:induction false} TotalsAdd(a: Files, b: Files)
    ensures TotalSize(a + b) == TotalSize(a) + TotalSize(b) && TotalLines(a + b) == TotalLines(a) + TotalLines(b)
  {
    if a == [] {
      assert a + b == b;
    } else {
      assert (a + b)[1..] == a[1..] + b;
      TotalsAdd(a[1..], b);
    }
  }

  // Taking one file out.
  lemma TotalsWithout(files: Files, at: nat)
    requires at < |files|
    ensures TotalSize(files) == TotalSize(files[..at] + files[at + 1..]) + files[at].size
    ensures TotalLines(files) == TotalLines(files[..at] + files[at + 1..]) + |files[at].lines|
  {
    assert files == files[..at] + files[at..] && files[at..][1..] == files[at + 1..];
    TotalsAdd(files[..at], files[at..]);
    TotalsAdd(files[..at], files[at + 1..]);
  }

  predicate Stale(f: File, now: Time, maxAge: int) { now - f.mtime > maxAge }

  function Recent(files: Files, now: Time, maxAge: int): Files {
    if files == [] then []
    else if Stale(files[0], now, maxAge) then Recent(files[1..], now, maxAge)
    else [files[0]] + Recent(files[1..], now, maxAge)
  }

  lemma RecentNone(now: Time, maxAge: int)
    ensures Recent([], now, maxAge) == []
  {
  }

  lemma {:induction false} RecentPush(files: Files, f: File, now: Time, maxAge: int)
    ensures Recent(files + [f], now, maxAge) == Recent(files, now, maxAge) + if Stale(f, now, maxAge) then [] else [f]
  {
    if files == [] {
      assert [] + [f] == [f] && Recent([f][1..], now, maxAge) == [];
    } else {
      assert (files + [f])[1..] == files[1..] + [f];
      RecentPush(files[1..], f, now, maxAge);
    }
  }

  // How many of the oldest files the size loop drops.
  function OverCap(files: Files, maxBytes: int): (n: nat)
    ensures n <= |files|
  {
    if files == [] || TotalSize(files) <= maxBytes then 0 else 1 + OverCap(files[1..], maxBytes)
  }

  function Trimmed(files: Files, now: Time, maxAge: int, maxBytes: int): Files {
    var recent := Recent(files, now, maxAge);
    recent[OverCap(recent, maxBytes)..]
  }

  // The size loop drops the shortest run of oldest files that meets the cap, so it
  // keeps the longest run of newest ones.
  lemma {:induction false} CapIsTight(files: Files, maxBytes: int)
    ensures TotalSize(files[OverCap(files, maxBytes)..]) <= maxBytes || OverCap(files, maxBytes) == |files|
    ensures forall j :: 0 <= j < OverCap(files, maxBytes) ==> TotalSize(files[j..]) > maxBytes
  {
    var n := OverCap(files, maxBytes);
    if n > 0 {
      CapIsTight(files[1..], maxBytes);
      assert files[n..] == files[1..][n - 1..];
      forall j | 0 <= j < n ensures TotalSize(files[j..]) > maxBytes {
        assert j > 0 ==> files[j..] == files[1..][j - 1..];
        assert files[0..] == files;
      }
    }
  }

  lemma {:induction false} LongerSuffixIsBigger(files: Files, j: nat)
    requires j <= |files|
    ensures TotalSize(files[j..]) <= TotalSize(files)
  {
    if j > 0 {
      assert files[j..] == files[1..][j - 1..];
      LongerSuffixIsBigger(files[1..], j - 1);
    } else {
      assert files[0..] == files;
    }
  }

  // The longest: exactly the suffixes within the cap are the kept one and its own suffixes.
  lemma KeptIsLongestWithinCap(files: Files, maxBytes: nat, j: nat)
    requires j <= |files|
    ensures TotalSize(files[j..]) <= maxBytes <==> OverCap(files, maxBytes) <= j
  {
    CapIsTight(files, maxBytes);
    var n := OverCap(files, maxBytes);
    if n <= j {
      assert files[j..] == files[n..][j - n..];
      LongerSuffixIsBigger(files[n..], j - n);
      assert n == |files| ==> files[n..] == [];
    }
  }

  // Chunks sent before others.
  function FirstSent(done: Chunks, later: Sent): Sent { Sent(done + later.chunks, later.left) }

  lemma NoneSent(later: Sent)
    ensures FirstSent([], later) == later
  {
    assert [] + later.chunks == later.chunks;
  }

  lemma NothingLeft(none: seq<Event>, c: Call, calls: nat, done: Chunks)
    requires none == [] && c.batch > 0
    ensures FirstSent(done, SendChunks(none, c, calls)) == Sent(done, [])
  {
    assert done + [] == done;
  }

  lemma SendRefused(rest: seq<Event>, c: Call, calls: nat, done: Chunks)
    requires c.batch > 0 && !c.answers(calls)
    ensures FirstSent(done, SendChunks(rest, c, calls)) == Sent(done, rest)
  {
    assert done + [] == done;
  }

  lemma SendTook(events: seq<Event>, at: nat, next: nat, c: Call, calls: nat, done: Chunks)
    requires at < |events| && c.batch > 0 && c.answers(calls)
    requires next == at + ChunkEnd(events[at..], c.batch)
    ensures FirstSent(done, SendChunks(events[at..], c, calls))
         == FirstSent(done + [events[at..next]], SendChunks(events[next..], c, calls + 1))
  {
    var rest, n := events[at..], next - at;
    assert rest[n..] == events[next..] && rest[..n] == events[at..next];
    var later := SendChunks(events[next..], c, calls + 1).chunks;
    assert done + ([events[at..next]] + later) == (done + [events[at..next]]) + later;
  }

  // Files kept and chunks accepted before the rest of a replay.
  function FirstDrained(kept: Files, done: Chunks, later: Replay): Replay {
    Replay(kept + later.files, done + later.chunks, later.end)
  }

  lemma NoneDrained(later: Replay)
    ensures FirstDrained([], [], later) == later
  {
    assert [] + later.chunks == later.chunks;
  }

  lemma AllDrained(c: Call, calls: nat, kept: Files, done: Chunks)
    ensures FirstDrained(kept, done, Drain([], c, calls)) == Replay(kept, done, Finished)
  {
    assert kept + [] == kept && done + [] == done;
  }

  lemma DrainStep(files: Files, at: nat, c: Call, calls: nat, kept: Files, done: Chunks)
    requires at < |files|
    ensures
      var first := DrainFile(files[at], c, calls);
      FirstDrained(kept, done, Drain(files[at..], c, calls)) ==
        if first.end.Finished? then
          FirstDrained(kept + first.files, done + first.chunks, Drain(files[at + 1..], c, calls + |first.chunks|))
        else Replay(kept + first.files + files[at + 1..], done + first.chunks, first.end)
  {
    hide DrainFile;
    var first, rest := DrainFile(files[at], c, calls), files[at..];
    assert rest[1..] == files[at + 1..];
    var later := Drain(rest[1..], c, calls + |first.chunks|);
    assert kept + (first.files + rest[1..]) == kept + first.files + files[at + 1..];
    assert kept + (first.files + later.files) == (kept + first.files) + later.files;
    assert done + (first.chunks + later.chunks) == (done + first.chunks) + later.chunks;
  }

  // ---- sending new events -----------------------------------------------------------------------------

  const BATCH_MAX_EVENTS: nat := 500

  datatype Submission = Submission(files: Files, chunks: Chunks)

  // One chunk: posted, or parked in the file of the day.  A failure does not stop the loop.
  function Park(files: Files, chunk: seq<Event>, day: int, c: Call): Files {
    var stamped := Stamped(chunk, c.now);
    AppendTo(files, day, c.now, stamped, LinesSize(stamped, c.lineBytes))
  }

  function Submit(files: Files, events: seq<Event>, day: int, c: Call, calls: nat): Submission
    decreases |events|
  {
    if events == [] then Submission(files, [])
    else
      var n := ChunkEnd(events, BATCH_MAX_EVENTS);
      if c.answers(calls) then
        var later := Submit(files, events[n..], day, c, calls + 1);
        Submission(later.files, [events[..n]] + later.chunks)
      else Submit(Park(files, events[..n], day, c), events[n..], day, c, calls + 1)
  }

  // Chunks sent before the rest of a submission.
  function FirstSubmitted(done: Chunks, later: Submission): Submission { later.(chunks := done + later.chunks) }

  lemma NoneSubmitted(later: Submission)
    ensures FirstSubmitted([], later) == later
  {
    assert [] + later.chunks == later.chunks;
  }

  lemma AllSubmitted(files: Files, none: seq<Event>, day: int, c: Call, calls: nat, done: Chunks)
    requires none == []
    ensures FirstSubmitted(done, Submit(files, none, day, c, calls)) == Submission(files, done)
  {
    assert done + [] == done;
  }

  lemma SubmitTook(files: Files, events: seq<Event>, at: nat, next: nat, day: int, c: Call, calls: nat, done: Chunks)
    requires at < |events| && c.answers(calls) && next == at + ChunkEnd(events[at..], BATCH_MAX_EVENTS)
    ensures FirstSubmitted(done, Submit(files, events[at..], day, c, calls))
         == FirstSubmitted(done + [events[at..next]], Submit(files, events[next..], day, c, calls + 1))
  {
    var rest, n := events[at..], next - at;
    assert rest[n..] == events[next..] && rest[..n] == events[at..next];
    var later := Submit(files, events[next..], day, c, calls + 1).chunks;
    assert done + ([events[at..next]] + later) == (done + [events[at..next]]) + later;
  }

  lemma SubmitParked(files: Files, events: seq<Event>, at: nat, next: nat, day: int, c: Call, calls: nat)
    requires at < |events| && !c.answers(calls) && next == at + ChunkEnd(events[at..], BATCH_MAX_EVENTS)
    ensures Submit(files, events[at..], day, c, calls)
         == Submit(Park(files, events[at..next], day, c), events[next..], day, c, calls + 1)
  {
    var rest, n := events[at..], next - at;
    assert rest[n..] == events[next..] && rest[..n] == events[at..next];
  }

  // ---- server-rejected events -------------------------------------------------------------------------

  datatype Rejection = NotAnEntry | Entry(index: Option<int>, reason: string)

  datatype Dead = Dead(event: Event, reason: string)

  predicate Names(r: Rejection, chunk: seq<Event>) {
    r.Entry? && r.index.Some? && 0 <= r.index.value < |chunk|
  }

  function DeadOf(chunk: seq<Event>, rejected: seq<Rejection>): seq<Dead> {
    if rejected == [] then []
    else if Names(rejected[0], chunk) then
      [Dead(chunk[rejected[0].index.value], rejected[0].reason)] + DeadOf(chunk, rejected[1..])
    else DeadOf(chunk, rejected[1..])
  }

  lemma NoneDead(chunk: seq<Event>)
    ensures DeadOf(chunk, []) == []
  {
  }

  lemma {:induction false} DeadOfPush(chunk: seq<Event>, rejected: seq<Rejection>, r: Rejection)
    ensures DeadOf(chunk, rejected + [r])
         == if Names(r, chunk) then DeadOf(chunk, rejected) + [Dead(chunk[r.index.value], r.reason)] else DeadOf(chunk, rejected)
  {
    if rejected == [] {
      assert [] + [r] == [r] && DeadOf(chunk, [r][1..]) == [];
    } else {
      assert (rejected + [r])[1..] == rejected[1..] + [r];
      DeadOfPush(chunk, rejected[1..], r);
    }
  }
}
