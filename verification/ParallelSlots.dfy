// Parallel slots of one conversation: the dispatcher's bookkeeping and its
// mutual-exclusion argument.
module ParallelSlots {
  import opened Basics
  import opened QueueTable
  import QueueStore

  // The conversation id is "" when the event has none.
  datatype Lane = Lane(channel: string, conversation: string)

  function BusyOf(busySlots: map<Lane, set<nat>>, lane: Lane): set<nat> {
    if lane in busySlots then busySlots[lane] else {}
  }

  function Occupy(busySlots: map<Lane, set<nat>>, lane: Lane, slot: nat): map<Lane, set<nat>> {
    busySlots[lane := BusyOf(busySlots, lane) + {slot}]
  }

  function Vacate(busySlots: map<Lane, set<nat>>, lane: Lane, slot: nat): map<Lane, set<nat>> {
    if lane !in busySlots then busySlots
    else if busySlots[lane] - {slot} == {} then busySlots - {lane}
    else busySlots[lane := busySlots[lane] - {slot}]
  }

  // A slot without a session row counts as the oldest; ties go to the lower slot.
  function LastUse(updated: map<nat, nat>, slot: nat): nat { if slot in updated then updated[slot] + 1 else 0 }

  predicate NoNewer(updated: map<nat, nat>, a: nat, b: nat) {
    LastUse(updated, a) < LastUse(updated, b) || (LastUse(updated, a) == LastUse(updated, b) && a <= b)
  }

  // No other slot was updated longer ago: one without a session row before any with one,
  // then the one updated first, then the lower number.
  ghost predicate UsedNoLater(updated: map<nat, nat>, slot: nat, other: nat) {
    if slot !in updated then other in updated || slot <= other
    else other in updated && (updated[slot] < updated[other] || (updated[slot] == updated[other] && slot <= other))
  }

  ghost predicate IsFree(n: nat, busy: set<nat>, slot: nat) { slot < n && slot !in busy }

  ghost predicate IsLruFree(n: nat, busy: set<nat>, updated: map<nat, nat>, slot: nat) {
    IsFree(n, busy, slot) && forall other :: IsFree(n, busy, other) ==> UsedNoLater(updated, slot, other)
  }

  // What the dispatcher may decide.  `related` is the classifier's answer, which
  // is arbitrary; `backgrounded` says the conversation has a backgrounded session.
  ghost predicate Picks(n: nat, lane: Lane, busy: set<nat>, related: Option<int>, backgrounded: bool,
                        updated: map<nat, nat>, slot: nat, shouldQueue: bool)
  {
    var anyFree := exists free :: IsFree(n, busy, free);
    if n <= 1 || lane.conversation == "" then slot == 0 && !shouldQueue
    else if related.Some? && 0 <= related.value < n then
      if related.value !in busy then slot == related.value && !shouldQueue
      else if backgrounded && anyFree then IsLruFree(n, busy, updated, slot) && !shouldQueue
      else slot == related.value && shouldQueue
    else if anyFree then IsLruFree(n, busy, updated, slot) && !shouldQueue
    else slot == 0 && shouldQueue
  }

  // What a pick comes to: nobody is launched on a busy slot, an event waits only where its
  // own slot is busy or all are, and the classifier's free slot is taken.
  lemma PickMeans(n: nat, lane: Lane, busy: set<nat>, related: Option<int>, backgrounded: bool,
                  updated: map<nat, nat>, slot: nat, shouldQueue: bool)
    requires Picks(n, lane, busy, related, backgrounded, updated, slot, shouldQueue) && n > 1 && lane.conversation != ""
    ensures !shouldQueue ==> slot < n && slot !in busy
    ensures related.Some? && 0 <= related.value < n && related.value !in busy ==> slot == related.value && !shouldQueue
    ensures related.Some? && 0 <= related.value < n && related.value in busy ==>
              (shouldQueue <==> !backgrounded || forall s: nat :: s < n ==> s in busy)
    ensures related.None? || related.value < 0 || related.value >= n ==> (shouldQueue <==> forall s: nat :: s < n ==> s in busy)
    ensures shouldQueue ==> slot == if related.Some? && 0 <= related.value < n then related.value else 0
    ensures !shouldQueue && related != Some(slot) ==>
              forall other: nat :: other < n && other !in busy ==> UsedNoLater(updated, slot, other)
  {
    assert forall s: nat :: s < n && s !in busy ==> IsFree(n, busy, s);
  }

  // Without a conversation, or with one slot, that slot is taken whether it is busy or not.
  lemma PickUnchecked(n: nat, lane: Lane, busy: set<nat>, related: Option<int>, backgrounded: bool,
                      updated: map<nat, nat>, slot: nat, shouldQueue: bool)
    requires n <= 1 || lane.conversation == ""
    ensures Picks(n, lane, busy, related, backgrounded, updated, slot, shouldQueue) <==> slot == 0 && !shouldQueue
  {
  }

  class SlotBook {
    const maxConcurrent: nat
    var busySlots: map<Lane, set<nat>>

    constructor (n: nat)
      ensures maxConcurrent == n && busySlots == map[]
    {
      maxConcurrent := n;
      busySlots := map[];
    }

    method LruFreeSlot(free: seq<nat>, updated: map<nat, nat>) returns (slot: nat)
      requires free != []
      ensures slot in free && forall other :: other in free ==> NoNewer(updated, slot, other)
      ensures forall other :: other in free ==> UsedNoLater(updated, slot, other)
    {
      slot := free[0];
      for k := 1 to |free|
        invariant slot in free[..k] && forall other :: other in free[..k] ==> NoNewer(updated, slot, other)
      {
        assert free[..k + 1] == free[..k] + [free[k]];
        if !NoNewer(updated, slot, free[k]) {
          slot := free[k];
        }
      }
      assert free[..|free|] == free;
    }

    method PickSlot(lane: Lane, related: Option<int>, backgrounded: bool, updated: map<nat, nat>)
      returns (slot: nat, shouldQueue: bool)
      ensures Picks(maxConcurrent, lane, BusyOf(busySlots, lane), related, backgrounded, updated, slot, shouldQueue)
    {
      if maxConcurrent <= 1 || lane.conversation == "" {
        return 0, false;
      }
      var busy := BusyOf(busySlots, lane);
      var free: seq<nat> := [];
      for i := 0 to maxConcurrent
        invariant forall s: nat :: s in free <==> s < i && s !in busy
      {
        if i !in busy {
          free := free + [i];
        }
      }
      assert forall s :: s in free <==> IsFree(maxConcurrent, busy, s);
      if free != [] { assert IsFree(maxConcurrent, busy, free[0]); }
      if related.Some? && 0 <= related.value < maxConcurrent {
        if related.value in busy {
          if free != [] && backgrounded {
            slot := LruFreeSlot(free, updated);
            return slot, false;
          }
          return related.value, true;
        }
        return related.value, false;
      }
      if free != [] {
        slot := LruFreeSlot(free, updated);
        return slot, false;
      }
      return 0, true;
    }

    method Reserve(lane: Lane, slot: nat)
      modifies `busySlots
      ensures busySlots == Occupy(old(busySlots), lane, slot)
    {
      busySlots := busySlots[lane := BusyOf(busySlots, lane) + {slot}];
    }

    method Release(lane: Lane, slot: nat)
      modifies `busySlots
      ensures busySlots == Vacate(old(busySlots), lane, slot)
    {
      if lane in busySlots {
        busySlots := busySlots[lane := busySlots[lane] - {slot}];
        if busySlots[lane] == {} {
          busySlots := busySlots - {lane};
        }
      }
    }

    // One claimed event: a slot is reserved for it, or its row goes back to
    // `queued`, a second later and without spending a retry.
    method DispatchParallel(db: QueueStore.Store, event: QueueStore.Event, lane: Lane, token: Token, now: Time,
                            related: Option<int>, backgrounded: bool, updated: map<nat, nat>)
      returns (slot: nat, launched: bool)
      modifies `busySlots, db`events
      ensures Picks(maxConcurrent, lane, BusyOf(old(busySlots), lane), related, backgrounded, updated, slot, !launched)
      ensures launched ==> busySlots == Occupy(old(busySlots), lane, slot) && db.events == old(db.events)
      ensures !launched ==> busySlots == old(busySlots) && |db.events| == |old(db.events)|
      ensures !launched ==> forall i :: 0 <= i < |db.events| ==>
                var r, r' := old(db.events)[i], db.events[i];
                if i == event.id && OwnedBy(r, token)
                then r'.status.Queued? && r'.lockedBy.None? && r'.retryCount == r.retryCount && r'.availableAt == now + 1
                else r' == r
    {
      var shouldQueue;
      slot, shouldQueue := PickSlot(lane, related, backgrounded, updated);
      launched := !shouldQueue;
      if shouldQueue {
        var _ := db.ResetRunningToQueued(event.id, now, 1, false, Some(token));
        return;
      }
      Reserve(lane, slot);
    }
  }

  // ---- the dispatcher and its slot threads, interleaved --------------------------

  // The dispatcher reads the busy set under the lock, decides without it, and
  // takes the lock again to reserve.
  datatype Dispatcher = Idle | Looked(lane: Lane, seen: set<nat>) | Picked(lane: Lane, slot: nat)

  datatype Seat = Seat(lane: Lane, slot: nat)

  datatype State = State(busySlots: map<Lane, set<nat>>, live: map<nat, Seat>, dispatcher: Dispatcher)

  datatype Action =
    | Look(lane: Lane)
    | Decide(related: Option<int>, backgrounded: bool, updated: map<nat, nat>, slot: nat, shouldQueue: bool)
    | Launch(thread: nat)
    | Exit(thread: nat)

  const INIT := State(map[], map[], Idle)

  ghost function Next(n: nat, s: State, a: Action): State {
    match a
    case Look(lane) => if s.dispatcher.Idle? then s.(dispatcher := Looked(lane, BusyOf(s.busySlots, lane))) else s
    case Decide(related, backgrounded, updated, slot, shouldQueue) =>
      if s.dispatcher.Looked?
         && Picks(n, s.dispatcher.lane, s.dispatcher.seen, related, backgrounded, updated, slot, shouldQueue)
      then s.(dispatcher := if shouldQueue then Idle else Picked(s.dispatcher.lane, slot))
      else s
    case Launch(thread) =>
      if s.dispatcher.Picked? && thread !in s.live then
        var d := s.dispatcher;
        State(Occupy(s.busySlots, d.lane, d.slot), s.live[thread := Seat(d.lane, d.slot)], Idle)
      else s
    case Exit(thread) =>
      if thread in s.live then
        State(Vacate(s.busySlots, s.live[thread].lane, s.live[thread].slot), s.live - {thread}, s.dispatcher)
      else s
  }

  ghost function Run(n: nat, s: State, actions: seq<Action>): State {
    if actions == [] then s else Next(n, Run(n, s, actions[..|actions| - 1]), actions[|actions| - 1])
  }

  // The live threads of one lane, each with its slot.
  function Workers(live: map<nat, Seat>, lane: Lane): map<nat, nat> {
    map t | t in live && live[t].lane == lane :: live[t].slot
  }

  ghost predicate OwnSlots(workers: map<nat, nat>) {
    forall t, t' | t in workers && t' in workers && t != t' :: workers[t] != workers[t']
  }

  // The book equals the slots of the live workers, no two share one, at most N run.
  ghost predicate Exclusive(n: nat, s: State, lane: Lane) {
    var workers := Workers(s.live, lane);
    && BusyOf(s.busySlots, lane) == workers.Values
    && OwnSlots(workers)
    && (forall slot :: slot in workers.Values ==> slot < n)
    && |workers| <= n
  }

  ghost predicate Agrees(n: nat, busy: set<nat>, workers: map<nat, nat>) {
    && busy == workers.Values
    && OwnSlots(workers)
    && (forall slot :: slot in busy ==> slot < n)
    && |workers| == |busy|
  }

  ghost predicate LaneOk(n: nat, s: State, lane: Lane) {
    && Agrees(n, BusyOf(s.busySlots, lane), Workers(s.live, lane))
    && (s.dispatcher.Looked? && s.dispatcher.lane == lane ==> BusyOf(s.busySlots, lane) <= s.dispatcher.seen)
    && (s.dispatcher.Picked? && s.dispatcher.lane == lane ==> IsFree(n, BusyOf(s.busySlots, lane), s.dispatcher.slot))
  }

  lemma BoundedSetIsSmall(n: nat, slots: set<nat>)
    requires forall x :: x in slots ==> x < n
    ensures |slots| <= n
  {
    if n > 0 {
      BoundedSetIsSmall(n - 1, slots - {n - 1});
    } else {
      assert slots == {};
    }
  }

  lemma LaunchAgrees(n: nat, busy: set<nat>, workers: map<nat, nat>, thread: nat, slot: nat)
    requires Agrees(n, busy, workers) && thread !in workers && IsFree(n, busy, slot)
    ensures Agrees(n, busy + {slot}, workers[thread := slot])
  {
    LaunchedSlots(workers, thread, slot);
    LaunchKeepsOwn(workers, thread, slot);
  }

  lemma LaunchedSlots(workers: map<nat, nat>, thread: nat, slot: nat)
    requires thread !in workers
    ensures workers[thread := slot].Values == workers.Values + {slot}
  {
    var workers' := workers[thread := slot];
    forall x | x in workers.Values ensures x in workers'.Values {
      var t :| t in workers && workers[t] == x;
      assert workers'[t] == x;
    }
    assert workers'[thread] == slot;
  }

  lemma LaunchKeepsOwn(workers: map<nat, nat>, thread: nat, slot: nat)
    requires thread !in workers && OwnSlots(workers) && slot !in workers.Values
    ensures OwnSlots(workers[thread := slot]) && |workers[thread := slot]| == |workers| + 1
  {
    forall t | t in workers ensures workers[t] != slot {}
  }

  lemma ExitAgrees(n: nat, busy: set<nat>, workers: map<nat, nat>, thread: nat)
    requires Agrees(n, busy, workers) && thread in workers
    ensures Agrees(n, busy - {workers[thread]}, workers - {thread})
  {
    var workers' := workers - {thread};
    assert workers'.Values == busy - {workers[thread]} by {
      forall x | x in busy - {workers[thread]} ensures x in workers'.Values {
        var t :| t in workers && workers[t] == x;
        assert workers'[t] == x;
      }
    }
    assert workers[thread] in busy;
    assert |workers'| == |workers| - 1 by { assert workers'.Keys == workers.Keys - {thread}; }
  }

  lemma LaunchEffect(s: State, thread: nat, at: Lane, slot: nat, lane: Lane)
    requires thread !in s.live
    ensures Workers(s.live[thread := Seat(at, slot)], lane)
            == if at == lane then Workers(s.live, lane)[thread := slot] else Workers(s.live, lane)
    ensures BusyOf(Occupy(s.busySlots, at, slot), lane)
            == if at == lane then BusyOf(s.busySlots, lane) + {slot} else BusyOf(s.busySlots, lane)
  {
  }

  lemma ExitEffect(s: State, thread: nat, lane: Lane)
    requires thread in s.live
    ensures var seat, workers := s.live[thread], Workers(s.live, lane);
            && Workers(s.live - {thread}, lane) == (if seat.lane == lane then workers - {thread} else workers)
            && (seat.lane == lane ==> thread in workers && workers[thread] == seat.slot)
    ensures var seat, busy := s.live[thread], BusyOf(s.busySlots, lane);
            BusyOf(Vacate(s.busySlots, seat.lane, seat.slot), lane) == if seat.lane == lane then busy - {seat.slot} else busy
  {
  }

  lemma LaunchKeepsLane(n: nat, s: State, thread: nat, lane: Lane)
    requires LaneOk(n, s, lane) && thread !in s.live && s.dispatcher.Picked?
    ensures LaneOk(n, Next(n, s, Launch(thread)), lane)
  {
    var d := s.dispatcher;
    LaunchEffect(s, thread, d.lane, d.slot, lane);
    if d.lane == lane {
      LaunchAgrees(n, BusyOf(s.busySlots, lane), Workers(s.live, lane), thread, d.slot);
    }
  }

  lemma ExitKeepsLane(n: nat, s: State, thread: nat, lane: Lane)
    requires LaneOk(n, s, lane) && thread in s.live
    ensures LaneOk(n, Next(n, s, Exit(thread)), lane)
  {
    ExitEffect(s, thread, lane);
    if s.live[thread].lane == lane {
      ExitAgrees(n, BusyOf(s.busySlots, lane), Workers(s.live, lane), thread);
    }
  }

  lemma {:induction false} LaneOkOnEveryRun(n: nat, actions: seq<Action>, lane: Lane)
    requires n > 1 && lane.conversation != ""
    ensures LaneOk(n, Run(n, INIT, actions), lane)
  {
    if actions == [] {
      assert Workers(INIT.live, lane) == map[];
    } else {
      var s, a := Run(n, INIT, actions[..|actions| - 1]), actions[|actions| - 1];
      LaneOkOnEveryRun(n, actions[..|actions| - 1], lane);
      match a
      case Launch(thread) => if thread !in s.live && s.dispatcher.Picked? { LaunchKeepsLane(n, s, thread, lane); }
      case Exit(thread) => if thread in s.live { ExitKeepsLane(n, s, thread, lane); }
      case _ =>
    }
  }

  // With N > 1, a lane's slots are exclusive in every run exactly when its
  // events carry a conversation id: without one the slot is 0, unchecked.
  lemma SlotsExclusiveIffConversation(n: nat, lane: Lane)
    requires n > 1
    ensures (forall actions :: Exclusive(n, Run(n, INIT, actions), lane)) <==> lane.conversation != ""
  {
    if lane.conversation != "" {
      forall actions ensures Exclusive(n, Run(n, INIT, actions), lane) {
        LaneOkOnEveryRun(n, actions, lane);
        BoundedSetIsSmall(n, BusyOf(Run(n, INIT, actions).busySlots, lane));
      }
    } else {
      TwoWorkersOnSlotZero(n, lane);
    }
  }

  lemma RunAppends(n: nat, s: State, before: seq<Action>, a: Action)
    ensures Run(n, s, before + [a]) == Next(n, Run(n, s, before), a)
  {
    assert (before + [a])[..|before|] == before;
  }

  function LaunchUnchecked(lane: Lane, thread: nat): seq<Action> {
    [] + [Look(lane)] + [Decide(None, false, map[], 0, false)] + [Launch(thread)]
  }

  lemma UncheckedLaunch(n: nat, s: State, lane: Lane, before: seq<Action>, thread: nat)
    requires n > 1 && lane.conversation == "" && s == Run(n, INIT, before) && s.dispatcher.Idle? && thread !in s.live
    ensures var s' := Run(n, INIT, before + [Look(lane)] + [Decide(None, false, map[], 0, false)] + [Launch(thread)]);
            s'.live == s.live[thread := Seat(lane, 0)] && s'.dispatcher.Idle?
  {
    RunAppends(n, INIT, before, Look(lane));
    RunAppends(n, INIT, before + [Look(lane)], Decide(None, false, map[], 0, false));
    RunAppends(n, INIT, before + [Look(lane)] + [Decide(None, false, map[], 0, false)], Launch(thread));
  }

  lemma SharedSlotIsNotExclusive(n: nat, s: State, lane: Lane)
    requires 1 in s.live && 2 in s.live && s.live[1] == s.live[2] == Seat(lane, 0)
    ensures !Exclusive(n, s, lane)
  {
    var workers := Workers(s.live, lane);
    assert workers[1] == workers[2];
  }

  lemma TwoWorkersOnSlotZero(n: nat, lane: Lane)
    requires n > 1 && lane.conversation == ""
    ensures exists actions :: !Exclusive(n, Run(n, INIT, actions), lane)
  {
    hide Next, Exclusive;
    UncheckedLaunch(n, INIT, lane, [], 1);
    var one := LaunchUnchecked(lane, 1);
    UncheckedLaunch(n, Run(n, INIT, one), lane, one, 2);
    var two := one + [Look(lane)] + [Decide(None, false, map[], 0, false)] + [Launch(2)];
    SharedSlotIsNotExclusive(n, Run(n, INIT, two), lane);
  }
}
