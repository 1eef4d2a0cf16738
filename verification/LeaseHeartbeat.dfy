// The thread that renews a claim's lease: when do renewals on schedule keep the
// row from being requeued?  Moments are reals; stored leases are whole seconds.
module LeaseHeartbeat {
  import opened Basics
  import opened QueueTable
  import QueueStore

  // max(30, lease / 3)
  function Interval(lease: int): real {
    if lease as real / 3.0 > 30.0 then lease as real / 3.0 else 30.0
  }

  // The k-th waking after a claim at moment `start`.
  function Waking(start: real, lease: int, k: nat): real { start + k as real * Interval(lease) }

  // The stored lease end after wakings 1..|renewed|, of which those marked true
  // renewed it.  A timestamp drops the fraction of its second.
  function StoredUntil(start: real, lease: int, renewed: seq<bool>): int {
    if renewed == [] then start.Floor + lease
    else if renewed[|renewed| - 1] then Waking(start, lease, |renewed|).Floor + lease
    else StoredUntil(start, lease, renewed[..|renewed| - 1])
  }

  // No expiry test can hit, up to and including the waking after the last one given.
  ghost predicate NeverExpires(start: real, lease: int, renewed: seq<bool>) {
    forall k, t :: 0 <= k <= |renewed| && Waking(start, lease, k) <= t <= Waking(start, lease, k + 1) ==>
      t.Floor < StoredUntil(start, lease, renewed[..k])
  }

  // The length of the run of missed renewals at the end.
  function Misses(renewed: seq<bool>): nat {
    if renewed == [] || renewed[|renewed| - 1] then 0 else 1 + Misses(renewed[..|renewed| - 1])
  }

  // How many whole intervals a lease outlasts.
  function Outlasts(lease: int): nat {
    if lease <= 30 then 0 else if lease <= 60 then 1 else 2
  }

  lemma GapSurvives(from: real, lease: int, intervals: nat)
    requires intervals >= 1
    ensures (from + intervals as real * Interval(lease)).Floor < from.Floor + lease <==> intervals <= Outlasts(lease)
  {
    var i := Interval(lease);
    assert i >= 30.0 && i * 3.0 >= lease as real;
    if intervals >= 3 {
      assert intervals as real * i >= 3.0 * i;
      assert (from + intervals as real * i).Floor as real > from + lease as real - 1.0;
    }
  }

  lemma {:induction false} StoredUntilIsLastRenewal(start: real, lease: int, renewed: seq<bool>)
    ensures Misses(renewed) <= |renewed|
    ensures StoredUntil(start, lease, renewed) == Waking(start, lease, |renewed| - Misses(renewed)).Floor + lease
  {
    if renewed != [] && !renewed[|renewed| - 1] {
      StoredUntilIsLastRenewal(start, lease, renewed[..|renewed| - 1]);
    }
  }

  lemma PeriodSurvives(start: real, lease: int, renewed: seq<bool>)
    ensures Waking(start, lease, |renewed| + 1).Floor < StoredUntil(start, lease, renewed)
            <==> Misses(renewed) < Outlasts(lease)
  {
    StoredUntilIsLastRenewal(start, lease, renewed);
    var m, last := Misses(renewed), |renewed| - Misses(renewed);
    var from := Waking(start, lease, last);
    assert Waking(start, lease, |renewed| + 1) == from + (m + 1) as real * Interval(lease) by {
      assert (|renewed| + 1) as real == last as real + (m + 1) as real;
    }
    GapSurvives(from, lease, m + 1);
  }

  // The row outlives a pattern of renewals and misses exactly when no run of
  // misses is as long as the number of intervals the lease outlasts.
  lemma NeverExpiresIff(start: real, lease: int, renewed: seq<bool>)
    ensures NeverExpires(start, lease, renewed)
            <==> forall k :: 0 <= k <= |renewed| ==> Misses(renewed[..k]) < Outlasts(lease)
  {
    forall k | 0 <= k <= |renewed|
      ensures Misses(renewed[..k]) < Outlasts(lease)
              <==> forall t :: Waking(start, lease, k) <= t <= Waking(start, lease, k + 1) ==>
                     t.Floor < StoredUntil(start, lease, renewed[..k])
    {
      PeriodSurvives(start, lease, renewed[..k]);
      var end := Waking(start, lease, k + 1);
      assert end == Waking(start, lease, k) + Interval(lease);
      assert Waking(start, lease, k) <= end <= end;
    }
  }

  // On-schedule renewals keep the row exactly when the lease exceeds 30 seconds.
  lemma OnScheduleIff30(start: real, lease: int, renewed: seq<bool>)
    requires forall k :: 0 <= k < |renewed| ==> renewed[k]
    ensures NeverExpires(start, lease, renewed) <==> lease > 30
  {
    NeverExpiresIff(start, lease, renewed);
    assert forall k | 0 <= k <= |renewed| :: Misses(renewed[..k]) == 0;
    assert Misses(renewed[..0]) == 0;
  }

  // Isolated misses are survived exactly when it exceeds 60.
  lemma IsolatedMissIff60(start: real, lease: int, renewed: seq<bool>, missed: nat)
    requires missed < |renewed| && !renewed[missed]
    requires forall k :: 0 <= k < |renewed| - 1 ==> renewed[k] || renewed[k + 1]
    ensures NeverExpires(start, lease, renewed) <==> lease > 60
  {
    NeverExpiresIff(start, lease, renewed);
    forall k | 0 <= k <= |renewed| ensures Misses(renewed[..k]) <= 1 {
      if k >= 2 {
        assert renewed[..k][..k - 1] == renewed[..k - 1];
        assert renewed[..k - 1][..k - 2] == renewed[..k - 2];
        assert renewed[k - 2] || renewed[k - 1];
      } else if k == 1 {
        assert renewed[..1][..0] == [];
      }
    }
    assert renewed[..missed + 1][missed] == renewed[missed];
    assert Misses(renewed[..missed + 1]) >= 1;
  }

  // Two misses in a row always reach the expiry test.
  lemma TwoMissesAlwaysExpire(start: real, lease: int, renewed: seq<bool>, missed: nat)
    requires missed + 1 < |renewed| && !renewed[missed] && !renewed[missed + 1]
    ensures !NeverExpires(start, lease, renewed)
  {
    NeverExpiresIff(start, lease, renewed);
    assert renewed[..missed + 2][..missed + 1] == renewed[..missed + 1];
    assert Misses(renewed[..missed + 2]) >= 2;
  }

  // ---- the loop itself -----------------------------------------------------------

  datatype Wake = Wake(now: Time, connected: bool)

  function LastConnected(wakes: seq<Wake>): Option<Time> {
    if wakes == [] then None
    else if wakes[|wakes| - 1].connected then Some(wakes[|wakes| - 1].now)
    else LastConnected(wakes[..|wakes| - 1])
  }

  // A waking that cannot reach the database is skipped; one that renews no row
  // ends the thread.  Without rows or without a lease no thread is started.
  method Heartbeat(db: QueueStore.Store, ids: seq<nat>, token: Token, lease: int, wakes: seq<Wake>) returns (lost: bool)
    modifies db`events
    ensures |db.events| == |old(db.events)|
    ensures lost <==> ids != [] && lease > 0 && LastConnected(wakes).Some? && OwnedCount(old(db.events), ids, token) == 0
    ensures forall i :: 0 <= i < |db.events| ==>
              db.events[i] == if lease > 0 && i in ids && OwnedBy(old(db.events)[i], token) && LastConnected(wakes).Some?
                              then old(db.events)[i].(lockedUntil := Some(LastConnected(wakes).value + lease))
                              else old(db.events)[i]
  {
    if ids == [] || lease <= 0 {
      return false;
    }
    for k := 0 to |wakes|
      invariant |db.events| == |old(db.events)|
      invariant OwnedIds(db.events, ids, token) == OwnedIds(old(db.events), ids, token)
      invariant LastConnected(wakes[..k]).Some? ==> OwnedCount(old(db.events), ids, token) > 0
      invariant forall i :: 0 <= i < |db.events| ==>
                  db.events[i] == if i in ids && OwnedBy(old(db.events)[i], token) && LastConnected(wakes[..k]).Some?
                                  then old(db.events)[i].(lockedUntil := Some(LastConnected(wakes[..k]).value + lease))
                                  else old(db.events)[i]
    {
      assert wakes[..k + 1][..k] == wakes[..k];
      if !wakes[k].connected {
        continue;
      }
      var renewed := db.RenewLease(ids, token, wakes[k].now, lease);
      if renewed == 0 {
        LastConnectedPersists(wakes, k);
        assert OwnedIds(old(db.events), ids, token) == {};
        assert forall i: nat | i < |db.events| && i in ids :: i !in OwnedIds(old(db.events), ids, token);
        return true;
      }
    }
    assert wakes[..|wakes|] == wakes;
    lost := false;
  }

  // Wakings on schedule, of which those marked true reach the database.
  function WakesOf(start: real, lease: int, renewed: seq<bool>): seq<Wake> {
    seq(|renewed|, k requires 0 <= k < |renewed| => Wake(Waking(start, lease, k + 1).Floor, renewed[k]))
  }

  // The lease end over which the bounds are stated is the one the loop leaves in the row.
  lemma {:induction false} StoredIsWhatTheLoopWrites(start: real, lease: int, renewed: seq<bool>)
    ensures
      var last := LastConnected(WakesOf(start, lease, renewed));
      StoredUntil(start, lease, renewed) == (if last.Some? then last.value else start.Floor) + lease
  {
    if renewed != [] {
      var n := |renewed| - 1;
      assert WakesOf(start, lease, renewed)[..n] == WakesOf(start, lease, renewed[..n]);
      StoredIsWhatTheLoopWrites(start, lease, renewed[..n]);
    }
  }

  // A row held with a lease end is left alone by an expiry pass at a moment.
  predicate KeptAt(r: Row, until: Time, t: real, maxRetries: Option<int>) {
    var held := r.(status := Running, lockedUntil := Some(until));
    ExpireRow(held, t.Floor, maxRetries) == held
  }

  lemma KeptIffLeaseRuns(r: Row, until: Time, t: real, maxRetries: Option<int>)
    ensures KeptAt(r, until, t, maxRetries) <==> t.Floor < until
  {
    var held := r.(status := Running, lockedUntil := Some(until));
    assert ExpireRow(held, t.Floor, maxRetries) == held <==> ExpireRow(held, t.Floor, maxRetries).status.Running?;
  }

  // No expiry pass touches the row, whenever it comes up to the waking after the last one.
  ghost predicate NeverRequeued(start: real, lease: int, renewed: seq<bool>, r: Row, maxRetries: Option<int>) {
    forall k, t :: 0 <= k <= |renewed| && Waking(start, lease, k) <= t <= Waking(start, lease, k + 1) ==>
      KeptAt(r, StoredUntil(start, lease, renewed[..k]), t, maxRetries)
  }

  // Not to reach the expiry test is to be left alone by every expiry pass.
  lemma NeverExpiresIffNeverRequeued(start: real, lease: int, renewed: seq<bool>, r: Row, maxRetries: Option<int>)
    ensures NeverExpires(start, lease, renewed) <==> NeverRequeued(start, lease, renewed, r, maxRetries)
  {
    hide KeptAt, StoredUntil, Waking;
    forall k, t | 0 <= k <= |renewed| && Waking(start, lease, k) <= t <= Waking(start, lease, k + 1)
      ensures KeptAt(r, StoredUntil(start, lease, renewed[..k]), t, maxRetries) <==>
              t.Floor < StoredUntil(start, lease, renewed[..k])
    {
      KeptIffLeaseRuns(r, StoredUntil(start, lease, renewed[..k]), t, maxRetries);
    }
    if NeverExpires(start, lease, renewed) {
      forall k, t | 0 <= k <= |renewed| && Waking(start, lease, k) <= t <= Waking(start, lease, k + 1)
        ensures KeptAt(r, StoredUntil(start, lease, renewed[..k]), t, maxRetries)
      {
        assert t.Floor < StoredUntil(start, lease, renewed[..k]);
      }
    }
    if NeverRequeued(start, lease, renewed, r, maxRetries) {
      forall k, t | 0 <= k <= |renewed| && Waking(start, lease, k) <= t <= Waking(start, lease, k + 1)
        ensures t.Floor < StoredUntil(start, lease, renewed[..k])
      {
        assert KeptAt(r, StoredUntil(start, lease, renewed[..k]), t, maxRetries);
      }
    }
  }

  lemma {:induction false} LastConnectedPersists(wakes: seq<Wake>, k: nat)
    requires k < |wakes| && wakes[k].connected
    ensures LastConnected(wakes).Some?
  {
    var n := |wakes| - 1;
    if !wakes[n].connected {
      LastConnectedPersists(wakes[..n], k);
    }
  }
}
