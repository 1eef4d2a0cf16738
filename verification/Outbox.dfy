// lib/company/reporter.py's Outbox as an object over its files, and the receiver
// its events are sent to.
module Outbox {
  import opened Basics
  import opened OutboxFiles

  class Receiver {
    const answers: nat -> bool
    var calls: nat
    var accepted: Chunks

    constructor (answers: nat -> bool)
      ensures this.answers == answers && calls == 0 && accepted == []
    {
      this.answers, calls, accepted := answers, 0, [];
    }

    method Post(chunk: seq<Event>) returns (ok: bool)
      modifies this
      ensures ok == answers(old(calls)) && calls == old(calls) + 1
      ensures accepted == if ok then old(accepted) + [chunk] else old(accepted)
    {
      ok := answers(calls);
      calls := calls + 1;
      if ok {
        accepted := accepted + [chunk];
      }
    }
  }

  datatype Error = ValueError

  class Store {
    var files: Files
    const maxBytes: int
    const maxAge: int
    const lineBytes: Event -> nat

    constructor (maxMb: int, maxAgeHours: int, lineBytes: Event -> nat)
      ensures files == [] && maxBytes == maxMb * 1024 * 1024 && maxAge == maxAgeHours * 3600 && this.lineBytes == lineBytes
    {
      files, maxBytes, maxAge, this.lineBytes := [], maxMb * 1024 * 1024, maxAgeHours * 3600, lineBytes;
    }

    method Append(events: seq<Event>, day: int, now: Time) returns (written: nat)
      modifies `files
      ensures files == if events == [] then old(files) else AppendTo(old(files), day, now, Stamped(events, now), written)
      ensures written == LinesSize(Stamped(events, now), lineBytes)
    {
      var stamped := Stamped(events, now);
      written := 0;
      for k := 0 to |stamped|
        invariant written + LinesSize(stamped[k..], lineBytes) == LinesSize(stamped, lineBytes)
      {
        assert stamped[k..][1..] == stamped[k + 1..];
        written := written + lineBytes(stamped[k]);
      }
      if events != [] {
        files := AppendTo(files, day, now, stamped, written);
      }
    }

    // Send the chunks of one file, up to the first refusal.
    method SendFile(events: seq<Event>, receiver: Receiver, c: Call) returns (sentCount: nat, failed: bool)
      requires c.batch > 0 && c.answers == receiver.answers
      modifies receiver
      ensures
        var sent := SendChunks(events, c, old(receiver.calls));
        && sentCount <= |events| && events[sentCount..] == sent.left && (failed <==> sent.left != [])
        && receiver.accepted == old(receiver.accepted) + sent.chunks
        && receiver.calls == old(receiver.calls) + |sent.chunks| + if failed then 1 else 0
    {
      hide SendChunks, FirstSent, ChunkEnd;
      sentCount, failed := 0, false;
      ghost var before, done, rest := receiver.accepted, [], events;
      NoneSent(SendChunks(events, c, receiver.calls));
      while sentCount < |events|
        invariant sentCount <= |events| && rest == events[sentCount..]
        invariant receiver.accepted == before + done
        invariant receiver.calls == old(receiver.calls) + |done|
        invariant FirstSent(done, SendChunks(rest, c, receiver.calls)) == SendChunks(events, c, old(receiver.calls))
      {
        var next := sentCount + ChunkEnd(events[sentCount..], c.batch);
        var chunk := events[sentCount..next];
        ghost var calls := receiver.calls;
        var ok := receiver.Post(chunk);
        if !ok {
          SendRefused(rest, c, calls, done);
          return sentCount, true;
        }
        SendTook(events, sentCount, next, c, calls, done);
        assert (before + done) + [chunk] == before + (done + [chunk]);
        sentCount, done, rest := next, done + [chunk], events[next..];
      }
      NothingLeft(rest, c, receiver.calls, done);
    }

    // One round of the loop over the files, for the file at a place.
    method DrainOne(at: nat, receiver: Receiver, c: Call) returns (sentCount: nat, end: End)
      requires at < |files| && c.answers == receiver.answers
      modifies `files, receiver
      ensures
        var first := DrainFile(old(files)[at], c, old(receiver.calls));
        && files == old(files)[..at] + first.files + old(files)[at + 1..]
        && receiver.accepted == old(receiver.accepted) + first.chunks
        && (first.end.Finished? ==> receiver.calls == old(receiver.calls) + |first.chunks|)
        && sentCount == |Joined(first.chunks)| && end == first.end
    {
      var f := files[at];
      var events := Records(f.lines);
      sentCount, end := 0, Finished;
      if !Selected(f, c.since) {
        assert files == files[..at] + [f] + files[at + 1..];
        return;
      }
      if events != [] && c.batch == 0 {
        assert files == files[..at] + [f] + files[at + 1..];
        return 0, Raised;
      }
      if events != [] && c.batch > 0 {
        ChunksConserve(events, c, receiver.calls);
        var failed;
        sentCount, failed := SendFile(events, receiver, c);
        if failed {
          files := files[..at] + [Tail(f, events[sentCount..], c)] + files[at + 1..];
          return sentCount, Stopped;
        }
      }
      files := files[..at] + [] + files[at + 1..];
    }

    // Returns the number of events accepted.
    method Drain(receiver: Receiver, c: Call) returns (r: Result<nat, Error>)
      requires c.answers == receiver.answers
      modifies `files, receiver
      ensures
        var replay := OutboxFiles.Drain(old(files), c, old(receiver.calls));
        && files == replay.files && receiver.accepted == old(receiver.accepted) + replay.chunks
        && r == if replay.end.Raised? then Err(ValueError) else Ok(|Joined(replay.chunks)|)
    {
      hide OutboxFiles.Drain, DrainFile, FirstDrained;
      var paths := files;
      var replayed := 0;
      ghost var whole, kept, done := OutboxFiles.Drain(files, c, receiver.calls), [], [];
      NoneDrained(whole);
      for k := 0 to |paths|
        invariant files == kept + paths[k..]
        invariant receiver.accepted == old(receiver.accepted) + done
        invariant replayed == |Joined(done)|
        invariant whole == FirstDrained(kept, done, OutboxFiles.Drain(paths[k..], c, receiver.calls))
      {
        ghost var first := DrainFile(paths[k], c, receiver.calls);
        DrainStep(paths, k, c, receiver.calls, kept, done);
        JoinedAdd(done, first.chunks);
        assert files[|kept|] == paths[k];
        assert files[..|kept|] == kept && files[|kept| + 1..] == paths[k + 1..];
        var at := |files| - (|paths| - k);  // what is left of the snapshot is the end of the files still there
        var sentCount, end := DrainOne(at, receiver, c);
        replayed := replayed + sentCount;
        kept, done := kept + first.files, done + first.chunks;
        if end != Finished {
          return if end.Raised? then Err(ValueError) else Ok(replayed);
        }
      }
      AllDrained(c, receiver.calls, kept, done);
      return Ok(replayed);
    }

    method Unlink(at: nat)
      requires at < |files|
      modifies `files
      ensures files == old(files)[..at] + old(files)[at + 1..]
    {
      files := files[..at] + files[at + 1..];
    }

    // Drop every file past the age cap.
    method DropStale(now: Time) returns (droppedEvents: nat, droppedBytes: nat)
      modifies `files
      ensures files == Recent(old(files), now, maxAge)
      ensures droppedBytes == TotalSize(old(files)) - TotalSize(files)
      ensures droppedEvents == TotalLines(old(files)) - TotalLines(files)
    {
      hide Recent, TotalSize, TotalLines;
      var paths := files;
      droppedEvents, droppedBytes := 0, 0;
      RecentNone(now, maxAge);
      assert paths[..0] == [] && [] + paths == paths;
      for k := 0 to |paths|
        invariant files == Recent(paths[..k], now, maxAge) + paths[k..]
        invariant droppedBytes + TotalSize(files) == TotalSize(paths)
        invariant droppedEvents + TotalLines(files) == TotalLines(paths)
      {
        ghost var kept := Recent(paths[..k], now, maxAge);
        var at := |files| - (|paths| - k);
        assert paths[..k + 1] == paths[..k] + [paths[k]];
        RecentPush(paths[..k], paths[k], now, maxAge);
        if Stale(files[at], now, maxAge) {
          TotalsWithout(files, at);
          droppedEvents, droppedBytes := droppedEvents + |files[at].lines|, droppedBytes + files[at].size;
          Unlink(at);
        }
      }
      assert paths[..|paths|] == paths && Recent(paths, now, maxAge) + [] == Recent(paths, now, maxAge);
    }

    // Drop the oldest files until the rest meet the size cap.
    method DropOverCap() returns (droppedEvents: nat, droppedBytes: nat)
      modifies `files
      ensures files == old(files)[OverCap(old(files), maxBytes)..]
      ensures droppedBytes == TotalSize(old(files)) - TotalSize(files)
      ensures droppedEvents == TotalLines(old(files)) - TotalLines(files)
    {
      hide TotalLines;
      var paths, total := files, TotalSize(files);
      droppedEvents, droppedBytes := 0, 0;
      ghost var k := 0;
      while files != [] && total > maxBytes
        invariant k <= |paths| && files == paths[k..]
        invariant total == TotalSize(files)
        invariant droppedBytes + TotalSize(files) == TotalSize(paths)
        invariant droppedEvents + TotalLines(files) == TotalLines(paths)
        invariant OverCap(paths, maxBytes) == k + OverCap(files, maxBytes)
        decreases |files|
      {
        var size := files[0].size;
        droppedEvents, droppedBytes := droppedEvents + |files[0].lines|, droppedBytes + size;
        assert files[..0] + files[1..] == files[1..] == paths[k + 1..];
        TotalsWithout(files, 0);
        Unlink(0);
        total, k := total - size, k + 1;
      }
    }

    method Trim(now: Time) returns (droppedEvents: nat, droppedBytes: nat)
      modifies `files
      ensures files == Trimmed(old(files), now, maxAge, maxBytes)
      ensures droppedBytes == TotalSize(old(files)) - TotalSize(files)
      ensures droppedEvents == TotalLines(old(files)) - TotalLines(files)
    {
      var staleEvents, staleBytes := DropStale(now);
      var events, bytes := DropOverCap();
      return staleEvents + events, staleBytes + bytes;
    }
  }

  class Reporter {
    const outbox: Store
    var dlq: seq<Dead>

    constructor (outbox: Store)
      ensures this.outbox == outbox && dlq == []
    {
      this.outbox, dlq := outbox, [];
    }

    // Chunks that fail are parked and the next one is tried all the same.
    method SendOrBuffer(events: seq<Event>, day: int, receiver: Receiver, c: Call)
      requires c.answers == receiver.answers && c.lineBytes == outbox.lineBytes
      modifies outbox`files, receiver
      ensures
        var sent := Submit(old(outbox.files), events, day, c, old(receiver.calls));
        outbox.files == sent.files && receiver.accepted == old(receiver.accepted) + sent.chunks
    {
      hide Submit, FirstSubmitted, ChunkEnd, AppendTo;
      var at := 0;
      ghost var before, done, rest := receiver.accepted, [], events;
      NoneSubmitted(Submit(outbox.files, events, day, c, receiver.calls));
      while at < |events|
        invariant at <= |events| && rest == events[at..]
        invariant receiver.accepted == before + done
        invariant FirstSubmitted(done, Submit(outbox.files, rest, day, c, receiver.calls))
               == Submit(old(outbox.files), events, day, c, old(receiver.calls))
      {
        var next := at + ChunkEnd(events[at..], BATCH_MAX_EVENTS);
        var chunk := events[at..next];
        ghost var files, calls := outbox.files, receiver.calls;
        var ok := receiver.Post(chunk);
        if ok {
          SubmitTook(files, events, at, next, day, c, calls, done);
          assert (before + done) + [chunk] == before + (done + [chunk]);
          done := done + [chunk];
        } else {
          SubmitParked(files, events, at, next, day, c, calls);
          var _ := outbox.Append(chunk, day, c.now);
          assert outbox.files == Park(files, chunk, day, c);
        }
        at, rest := next, events[next..];
      }
      AllSubmitted(outbox.files, rest, day, c, receiver.calls, done);
    }

    // Rejected events go to the dead-letter file, never back into the outbox.
    method HandleRejected(chunk: seq<Event>, rejected: seq<Rejection>)
      modifies `dlq
      ensures dlq == old(dlq) + DeadOf(chunk, rejected)
    {
      hide DeadOf;
      var dead: seq<Dead> := [];
      NoneDead(chunk);
      for k := 0 to |rejected|
        invariant dead == DeadOf(chunk, rejected[..k]) && dlq == old(dlq)
      {
        assert rejected[..k + 1] == rejected[..k] + [rejected[k]];
        DeadOfPush(chunk, rejected[..k], rejected[k]);
        if Names(rejected[k], chunk) {
          dead := dead + [Dead(chunk[rejected[k].index.value], rejected[k].reason)];
        }
      }
      assert rejected[..|rejected|] == rejected;
      dlq := dlq + dead;
    }
  }
}
