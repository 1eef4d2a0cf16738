// Which files and events each operation of the outbox touches, in the terms of its caps
// and arguments.
module OutboxLimits {
  import opened Basics
  import opened OutboxFiles

  // ---- trimming ---------------------------------------------------------------------------

  // Not past the age cap.
  predicate Fresh(f: File, now: Time, maxAge: int) { now - f.mtime <= maxAge }

  function FreshSize(files: Files, now: Time, maxAge: int): nat {
    if files == [] then 0 else (if Fresh(files[0], now, maxAge) then files[0].size else 0) + FreshSize(files[1..], now, maxAge)
  }

  lemma {:induction false} RecentIsFresh(files: Files, now: Time, maxAge: int, f: File)
    ensures f in Recent(files, now, maxAge) <==> f in files && Fresh(f, now, maxAge)
    ensures TotalSize(Recent(files, now, maxAge)) == FreshSize(files, now, maxAge)
  {
    if files != [] {
      RecentIsFresh(files[1..], now, maxAge, f);
      assert files == [files[0]] + files[1..];
      var rest := Recent(files[1..], now, maxAge);
      assert ([files[0]] + rest)[1..] == rest;
    }
  }

  lemma {:induction false} RecentKeepsOrder(files: Files, now: Time, maxAge: int)
    requires Sorted(files)
    ensures Sorted(Recent(files, now, maxAge))
  {
    if files != [] {
      var rest := Recent(files[1..], now, maxAge);
      RecentKeepsOrder(files[1..], now, maxAge);
      forall k | 0 <= k < |rest| ensures files[0].day < rest[k].day {
        RecentIsFresh(files[1..], now, maxAge, rest[k]);
        var j :| 0 <= j < |files[1..]| && files[1..][j] == rest[k];
        assert files[j + 1] == rest[k];
      }
    }
  }

  lemma {:induction false} RecentAdd(a: Files, b: Files, now: Time, maxAge: int)
    ensures Recent(a + b, now, maxAge) == Recent(a, now, maxAge) + Recent(b, now, maxAge)
  {
    if a == [] {
      assert a + b == b;
    } else {
      assert (a + b)[1..] == a[1..] + b;
      RecentAdd(a[1..], b, now, maxAge);
    }
  }

  lemma PlaceOf(files: Files, i: nat, n: nat)
    requires Sorted(files) && i < |files| && n <= |files|
    ensures files[i] in files[n..] <==> n <= i
  {
    if n <= i {
      assert files[n..][i - n] == files[i];
    }
  }

  lemma CapIff(files: Files, maxBytes: int, j: nat)
    requires j < |files|
    ensures OverCap(files, maxBytes) <= j <==> TotalSize(files[j..]) <= maxBytes
  {
    if maxBytes >= 0 {
      KeptIsLongestWithinCap(files, maxBytes, j);
    } else {
      CapIsTight(files, maxBytes);
    }
  }

  // A file outlives a trim exactly when it is not past the age cap and, together with the
  // newer files of which that is true, within the size cap.
  lemma TrimKeepsIff(files: Files, now: Time, maxAge: int, maxBytes: int, i: nat)
    requires Sorted(files) && i < |files|
    ensures files[i] in Trimmed(files, now, maxAge, maxBytes) <==>
              now - files[i].mtime <= maxAge && FreshSize(files[i..], now, maxAge) <= maxBytes
  {
    hide Recent, OverCap, TotalSize, Sorted, FreshSize;
    var recent := Recent(files, now, maxAge);
    RecentIsFresh(files, now, maxAge, files[i]);
    RecentKeepsOrder(files, now, maxAge);
    if Fresh(files[i], now, maxAge) {
      var at := |Recent(files[..i], now, maxAge)|;
      assert files == files[..i] + files[i..];
      RecentAdd(files[..i], files[i..], now, maxAge);
      FreshFirst(files[i..], now, maxAge);
      RecentIsFresh(files[i..], now, maxAge, files[i]);
      assert recent[at..] == Recent(files[i..], now, maxAge) && recent[at] == files[i];
      CapIff(recent, maxBytes, at);
      PlaceOf(recent, at, OverCap(recent, maxBytes));
    } else {
      assert forall f :: f in recent[OverCap(recent, maxBytes)..] ==> f in recent;
    }
  }

  lemma FreshFirst(files: Files, now: Time, maxAge: int)
    requires files != [] && Fresh(files[0], now, maxAge)
    ensures Recent(files, now, maxAge) != [] && Recent(files, now, maxAge)[0] == files[0]
  {
  }

  // ---- what a replay takes ----------------------------------------------------------------------

  // Left alone are the files that cannot be read, and those older than the caller asked for.
  lemma {:induction false} LeftAloneIff(files: Files, since: Option<Time>, f: File)
    ensures f in LeftAlone(files, since) <==> f in files && (!f.readable || (since.Some? && f.mtime < since.value))
  {
    if files != [] {
      LeftAloneIff(files[1..], since, f);
      assert files == [files[0]] + files[1..];
    }
  }

  // Chunks are as long as the batch allows: all but the last one of a file are full.
  lemma {:induction false} ChunksAreFull(events: seq<Event>, c: Call, calls: nat, k: nat)
    requires c.batch > 0
    requires var sent := SendChunks(events, c, calls); k < |sent.chunks| && (k < |sent.chunks| - 1 || sent.left != [])
    ensures |SendChunks(events, c, calls).chunks[k]| == c.batch
    decreases |events|
  {
    var n := ChunkEnd(events, c.batch);
    var later := SendChunks(events[n..], c, calls + 1);
    if k > 0 {
      ChunksAreFull(events[n..], c, calls + 1, k - 1);
    }
  }

  // An empty batch is an error as soon as there is an event to send; until then only files
  // without events go.
  lemma {:induction false} ZeroBatchIff(files: Files, c: Call, calls: nat)
    requires c.batch == 0
    ensures
      var r := Drain(files, c, calls);
      && r.chunks == [] && r.end == (if Buffered(files, c.since) == [] then Finished else Raised)
      && Buffered(r.files, c.since) == Buffered(files, c.since)
  {
    hide DrainFile, Buffered;
    NoneBuffered(c.since);
    if files != [] {
      var first, rest := DrainFile(files[0], c, calls), files[1..];
      assert files == [files[0]] + rest;
      ZeroBatchIff(rest, c, calls);
      ZeroBatchFile(files[0], c, calls);
      BufferedAdd([files[0]], rest, c.since);
      BufferedAdd(first.files, rest, c.since);
      BufferedAdd(first.files, Drain(rest, c, calls).files, c.since);
    }
  }

  lemma NoneBuffered(since: Option<Time>)
    ensures Buffered([], since) == []
  {
  }

  lemma ZeroBatchFile(f: File, c: Call, calls: nat)
    requires c.batch == 0
    ensures
      var r := DrainFile(f, c, calls);
      && r.chunks == [] && r.end == (if Buffered([f], c.since) == [] then Finished else Raised)
      && Buffered(r.files, c.since) == Buffered([f], c.since)
  {
    BufferedOne(f, c.since);
  }

  // ---- what a submission sends and parks --------------------------------------------------------------

  // The chunks of a submission: 500 events each, in order, and the rest in the last.
  function Slices(events: seq<Event>): Chunks
    decreases |events|
  {
    if |events| == 0 then []
    else if |events| <= 500 then [events]
    else [events[..500]] + Slices(events[500..])
  }

  // Chunk number k goes to the receiver exactly when that takes call number k.
  function Taken(chunks: Chunks, c: Call, calls: nat): Chunks {
    if chunks == [] then []
    else (if c.answers(calls) then [chunks[0]] else []) + Taken(chunks[1..], c, calls + 1)
  }

  function Refused(chunks: Chunks, c: Call, calls: nat): seq<Event> {
    if chunks == [] then []
    else (if c.answers(calls) then [] else chunks[0]) + Refused(chunks[1..], c, calls + 1)
  }

  lemma SliceStep(events: seq<Event>)
    requires events != []
    ensures var n := ChunkEnd(events, BATCH_MAX_EVENTS); Slices(events) == [events[..n]] + Slices(events[n..])
  {
    var n := ChunkEnd(events, BATCH_MAX_EVENTS);
    if n == |events| {
      assert events[..n] == events && events[n..] == [];
    }
  }

  // The lines of a day's file.
  function DayLines(files: Files, day: int): seq<Line> {
    if files == [] then [] else if files[0].day == day then files[0].lines else DayLines(files[1..], day)
  }

  lemma {:induction false} AppendedLines(files: Files, day: int, now: Time, events: seq<Event>, bytes: nat)
    requires Sorted(files)
    ensures DayLines(AppendTo(files, day, now, events, bytes), day) == DayLines(files, day) + AsLines(events)
  {
    if files != [] && day < files[0].day {
      NoSuchDay(files, day);
    } else if files != [] && files[0].day != day {
      AppendedLines(files[1..], day, now, events, bytes);
      var rest := AppendTo(files[1..], day, now, events, bytes);
      assert ([files[0]] + rest)[1..] == rest;
    }
  }

  // Appending touches the day's file alone: it is the newest written, larger by what was
  // appended, and made if it was not there.
  lemma {:induction false} AppendedFile(files: Files, day: int, now: Time, events: seq<Event>, bytes: nat, f: File)
    requires Sorted(files)
    ensures
      var files' := AppendTo(files, day, now, events, bytes);
      if f.day != day then f in files' <==> f in files
      else f in files' ==>
             && f.mtime == now
             && if exists g :: g in files && g.day == day then
                  exists g :: g in files && g.day == day && f.size == g.size + bytes && f.readable == g.readable
                              && f.lines == g.lines + AsLines(events)
                else f.size == bytes && f.readable && f.lines == AsLines(events)
  {
    if files == [] || day < files[0].day {
      assert forall g :: g in files ==> g.day != day;
    } else {
      assert files == [files[0]] + files[1..];
      if files[0].day == day {
        assert forall g :: g in files[1..] ==> g.day != day;
      } else {
        AppendedFile(files[1..], day, now, events, bytes, f);
      }
    }
  }

  lemma {:induction false} NoSuchDay(files: Files, day: int)
    requires Sorted(files) && (files != [] ==> day < files[0].day)
    ensures DayLines(files, day) == []
  {
    if files != [] {
      NoSuchDay(files[1..], day);
    }
  }

  lemma AppendSorts(files: Files, day: int, now: Time, events: seq<Event>, bytes: nat)
    requires Sorted(files)
    ensures Sorted(AppendTo(files, day, now, events, bytes))
  {
    var low := if files == [] || day < files[0].day then day - 1 else files[0].day - 1;
    AppendKeepsOrder(files, low, day, now, events, bytes);
  }

  // The accepted chunks are the slices whose calls were taken; the events of all others
  // are at the end of the day's file, in order, stamped with the moment.
  lemma {:induction false} SubmitSplits(files: Files, events: seq<Event>, day: int, c: Call, calls: nat)
    requires Sorted(files)
    ensures
      var sent := Submit(files, events, day, c, calls);
      && sent.chunks == Taken(Slices(events), c, calls)
      && DayLines(sent.files, day) == DayLines(files, day) + AsLines(Stamped(Refused(Slices(events), c, calls), c.now))
    decreases |events|
  {
    hide Slices, AppendTo, Sorted, DayLines, ChunkEnd;
    if events == [] {
      NoSlices(files, day, c, calls);
    } else {
      var n := ChunkEnd(events, BATCH_MAX_EVENTS);
      var chunk, rest := events[..n], events[n..];
      SliceStep(events);
      SliceTaken(chunk, Slices(rest), c, calls);
      if c.answers(calls) {
        SubmitSplits(files, rest, day, c, calls + 1);
      } else {
        var stamped := Stamped(chunk, c.now);
        var parked := Park(files, chunk, day, c);
        AppendSorts(files, day, c.now, stamped, LinesSize(stamped, c.lineBytes));
        AppendedLines(files, day, c.now, stamped, LinesSize(stamped, c.lineBytes));
        SubmitSplits(parked, rest, day, c, calls + 1);
        StampedLinesAdd(chunk, Refused(Slices(rest), c, calls + 1), c.now);
        Regroup(DayLines(files, day), AsLines(stamped), AsLines(Stamped(Refused(Slices(rest), c, calls + 1), c.now)));
      }
    }
  }

  // A stamp is the moment of parking; an event is otherwise what was submitted.
  lemma StampedAt(events: seq<Event>, now: Time, k: nat)
    requires k < |events|
    ensures |Stamped(events, now)| == |events|
    ensures Stamped(events, now)[k] == Event(events[k].kind, events[k].payload, Some(now))
  {
  }

  lemma NoSlices(files: Files, day: int, c: Call, calls: nat)
    ensures Slices([]) == [] && Taken([], c, calls) == [] && Refused([], c, calls) == []
    ensures DayLines(files, day) + AsLines(Stamped([], c.now)) == DayLines(files, day)
  {
  }

  lemma SliceTaken(chunk: seq<Event>, later: Chunks, c: Call, calls: nat)
    ensures Taken([chunk] + later, c, calls) == (if c.answers(calls) then [chunk] else []) + Taken(later, c, calls + 1)
    ensures Refused([chunk] + later, c, calls) == (if c.answers(calls) then [] else chunk) + Refused(later, c, calls + 1)
  {
    assert ([chunk] + later)[1..] == later;
  }

  lemma StampedLinesAdd(a: seq<Event>, b: seq<Event>, now: Time)
    ensures AsLines(Stamped(a + b, now)) == AsLines(Stamped(a, now)) + AsLines(Stamped(b, now))
  {
  }

  // ---- sizes and rejections -----------------------------------------------------------------------

  // The size of a written file is the sum over its lines.
  lemma {:induction false} LinesSizeAdds(a: seq<Event>, e: Event, lineBytes: Event -> nat)
    ensures LinesSize(a + [e], lineBytes) == LinesSize(a, lineBytes) + lineBytes(e)
    ensures LinesSize([e], lineBytes) == lineBytes(e)
  {
    assert [e][1..] == [];
    if a == [] {
      assert [] + [e] == [e];
    } else {
      assert (a + [e])[1..] == a[1..] + [e];
      LinesSizeAdds(a[1..], e, lineBytes);
    }
  }

  // What goes to the dead-letter file: the events at the indices of well-formed entries.
  lemma {:induction false} DeadIff(chunk: seq<Event>, rejected: seq<Rejection>, d: Dead)
    ensures d in DeadOf(chunk, rejected) <==>
              exists k, index :: 0 <= k < |rejected| && 0 <= index < |chunk|
                && rejected[k] == Entry(Some(index), d.reason) && chunk[index] == d.event
  {
    if rejected != [] {
      DeadIff(chunk, rejected[1..], d);
      assert rejected == [rejected[0]] + rejected[1..];
      if exists k, index :: 0 <= k < |rejected| && 0 <= index < |chunk|
           && rejected[k] == Entry(Some(index), d.reason) && chunk[index] == d.event {
        var k, index :| 0 <= k < |rejected| && 0 <= index < |chunk|
          && rejected[k] == Entry(Some(index), d.reason) && chunk[index] == d.event;
        assert k > 0 ==> rejected[1..][k - 1] == rejected[k];
      }
    }
  }
}
