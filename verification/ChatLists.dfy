// The set mutation behind the edits of a channel's chat id lists.
module ChatLists {

  function Kept(ids: seq<string>, remove: set<string>): seq<string> {
    if ids == [] then []
    else if ids[0] in remove then Kept(ids[1..], remove)
    else [ids[0]] + Kept(ids[1..], remove)
  }

  function Members(ids: seq<string>): set<string> { set i | 0 <= i < |ids| :: ids[i] }

  predicate Distinct(ids: seq<string>) { forall i, j :: 0 <= i < j < |ids| ==> ids[i] != ids[j] }

  // The old ids that stay, in their order, and then the new ones once each, in any order.
  ghost predicate Mutated(current: seq<string>, add: set<string>, remove: set<string>, out: seq<string>) {
    exists added :: out == Kept(current, remove) + added && Distinct(added) && Members(added) == add - Members(current) - remove
  }

  lemma {:induction false} KeptAdd(a: seq<string>, b: seq<string>, remove: set<string>)
    ensures Kept(a + b, remove) == Kept(a, remove) + Kept(b, remove)
  {
    if a == [] {
      assert a + b == b;
    } else {
      assert (a + b)[1..] == a[1..] + b;
      KeptAdd(a[1..], b, remove);
    }
  }

  lemma {:induction false} KeptMembers(ids: seq<string>, remove: set<string>)
    ensures Members(Kept(ids, remove)) == Members(ids) - remove
    ensures Distinct(ids) ==> Distinct(Kept(ids, remove))
  {
    if ids != [] {
      var rest := ids[1..];
      KeptMembers(rest, remove);
      assert ids == [ids[0]] + rest;
      MembersPush(ids[0], rest);
      MembersPush(ids[0], Kept(rest, remove));
      if Distinct(ids) {
        assert forall i :: 0 <= i < |rest| ==> rest[i] == ids[i + 1];
        assert ids[0] !in Members(rest);
        assert forall i :: 0 <= i < |Kept(rest, remove)| ==> Kept(rest, remove)[i] in Members(Kept(rest, remove));
      }
    }
  }

  lemma MembersPush(id: string, ids: seq<string>)
    ensures Members([id] + ids) == {id} + Members(ids)
  {
    assert forall i :: 0 <= i < |ids| ==> ids[i] == ([id] + ids)[i + 1];
    assert ([id] + ids)[0] == id;
  }

  lemma NoMembers(ids: seq<string>)
    ensures Members(ids) == {} <==> ids == []
  {
    assert ids != [] ==> ids[0] in Members(ids);
  }

  lemma MembersSnoc(ids: seq<string>, id: string)
    ensures Members(ids + [id]) == Members(ids) + {id}
    ensures Distinct(ids) && id !in Members(ids) ==> Distinct(ids + [id])
  {
    assert forall i :: 0 <= i < |ids| ==> ids[i] == (ids + [id])[i] && ids[i] in Members(ids);
    assert (ids + [id])[|ids|] == id;
  }

  lemma KeptMutates(current: seq<string>, add: set<string>, remove: set<string>, added: seq<string>)
    requires Distinct(added) && Members(added) == add - Members(current)
    ensures Mutated(current, add, remove, Kept(current + added, remove))
  {
    KeptAdd(current, added, remove);
    KeptMembers(added, remove);
  }

  // Midway through the loop: the ids added so far are those of `add` no longer left that
  // were not listed, once each, and `seen` is everything in `out`.
  ghost predicate Midway(current: seq<string>, add: set<string>, left: set<string>, seen: set<string>, out: seq<string>) {
    && left <= add && |current| <= |out| && out[..|current|] == current && Distinct(out[|current|..])
    && Members(out[|current|..]) == (add - left) - Members(current)
    && seen == Members(out)
  }

  lemma MidwayStep(current: seq<string>, add: set<string>, left: set<string>, seen: set<string>, out: seq<string>, cid: string)
    requires Midway(current, add, left, seen, out) && cid in left
    ensures if cid in seen then Midway(current, add, left - {cid}, seen, out)
            else Midway(current, add, left - {cid}, seen + {cid}, out + [cid])
  {
    hide Members, Distinct;
    var added := out[|current|..];
    assert out == current + added;
    MembersAdd(current, added);
    MembersSnoc(added, cid);
    MembersSnoc(out, cid);
    assert (out + [cid])[..|current|] == current && (out + [cid])[|current|..] == added + [cid];
  }

  method ApplySetMutation(current: seq<string>, add: set<string>, remove: set<string>) returns (out: seq<string>)
    ensures Mutated(current, add, remove, out)
  {
    hide Kept, Members, Distinct, Mutated, Midway;
    out := current;
    var seen, left := Members(current), add;
    MidwayStart(current, add);
    while left != {}
      invariant Midway(current, add, left, seen, out)
      decreases |left|
    {
      var cid :| cid in left;
      MidwayStep(current, add, left, seen, out, cid);
      left := left - {cid};
      if cid !in seen {
        out, seen := out + [cid], seen + {cid};
      }
    }
    MidwayEnd(current, add, remove, seen, out);
    out := Kept(out, remove);
  }

  lemma MidwayStart(current: seq<string>, add: set<string>)
    ensures Midway(current, add, add, Members(current), current)
  {
    assert current[|current|..] == [];
    NoMembers([]);
  }

  lemma MidwayEnd(current: seq<string>, add: set<string>, remove: set<string>, seen: set<string>, out: seq<string>)
    requires Midway(current, add, {}, seen, out)
    ensures Mutated(current, add, remove, Kept(out, remove))
  {
    var added := out[|current|..];
    assert out == current + added;
    KeptMutates(current, add, remove, added);
  }

  lemma {:induction false} NothingToRemove(ids: seq<string>, remove: set<string>)
    requires Members(ids) !! remove
    ensures Kept(ids, remove) == ids
  {
    if ids != [] {
      assert ids == [ids[0]] + ids[1..];
      MembersPush(ids[0], ids[1..]);
      NothingToRemove(ids[1..], remove);
    }
  }

  lemma MembersAdd(a: seq<string>, b: seq<string>)
    ensures Members(a + b) == Members(a) + Members(b)
  {
    assert forall i :: 0 <= i < |a| ==> a[i] == (a + b)[i];
    assert forall i :: 0 <= i < |b| ==> b[i] == (a + b)[|a| + i];
  }

  // Exactly the wanted ids are listed afterwards, and the same edit again changes
  // nothing, also when an id is both added and removed.
  lemma MutationIsIdempotent(current: seq<string>, add: set<string>, remove: set<string>, out: seq<string>, again: seq<string>)
    requires Mutated(current, add, remove, out) && Mutated(out, add, remove, again)
    ensures Members(out) == (Members(current) + add) - remove
    ensures again == out
  {
    var added :| out == Kept(current, remove) + added && Distinct(added) && Members(added) == add - Members(current) - remove;
    KeptMembers(current, remove);
    MembersAdd(Kept(current, remove), added);
    NothingToRemove(out, remove);
    var more :| again == Kept(out, remove) + more && Distinct(more) && Members(more) == add - Members(out) - remove;
    assert Members(more) == {};
    NoMembers(more);
  }

  // An edit leaves the list alone exactly when nothing is new and nothing goes.
  lemma UnchangedIff(current: seq<string>, add: set<string>, remove: set<string>, out: seq<string>)
    requires Mutated(current, add, remove, out)
    ensures out == current <==> add - remove <= Members(current) && Members(current) !! remove
  {
    var added :| out == Kept(current, remove) + added && Distinct(added) && Members(added) == add - Members(current) - remove;
    KeptMembers(current, remove);
    MembersAdd(Kept(current, remove), added);
    if add - remove <= Members(current) && Members(current) !! remove {
      NothingToRemove(current, remove);
      assert Members(added) == {};
      NoMembers(added);
    }
  }
}
