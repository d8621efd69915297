/** The pool of socket slots: a first-in first-out free list threaded through the slots, and ids that
    carry a version so that an old id does not reach the slot's next user. */
module SocketPool {
  const SLOTS: nat := 65536
  const VERSIONS: nat := 0x1_0000_0000

  function Sid(version: nat, i: nat): nat { version * 65536 + i }

  /** The slot an id leads to: its low sixteen bits, also of a negative number. */
  function Hash(id: int): (i: nat)
    ensures i < SLOTS
  {
    id % 65536
  }

  lemma HashOfSid(version: nat, i: nat)
    requires i < SLOTS
    ensures Hash(Sid(version, i)) == i
  {
  }

  /** The slots in `free` are linked in that order between the head and the tail; -1 ends the list, and
      a tail of -1 stands for the list head itself. */
  ghost predicate Linked(next: seq<int>, head: int, tail: int, free: seq<nat>) {
    && |next| == SLOTS
    && (forall k :: 0 <= k < |free| ==> free[k] < SLOTS)
    && (forall j, k :: 0 <= j < k < |free| ==> free[j] != free[k])
    && (if free == [] then head == -1 && tail == -1 else head == free[0] && tail == free[|free| - 1])
    && (forall k :: 0 <= k < |free| - 1 ==> next[free[k]] == free[k + 1])
    && (free != [] ==> next[free[|free| - 1]] == -1)
  }

  lemma Popped(next: seq<int>, head: int, tail: int, free: seq<nat>)
    requires Linked(next, head, tail, free) && free != []
    ensures Linked(next, next[head], if next[head] < 0 then -1 else tail, free[1..]) && head !in free[1..]
  {
    var rest := free[1..];
    assert forall k :: 0 <= k < |rest| ==> rest[k] == free[k + 1];
    assert rest != [] ==> next[free[0]] == free[1];
  }

  lemma Appended(next: seq<int>, head: int, tail: int, free: seq<nat>, i: nat)
    requires Linked(next, head, tail, free) && i < SLOTS && i !in free
    ensures Linked((if tail < 0 then next else next[tail := i])[i := -1], if tail < 0 then i else head, i, free + [i])
  {
    var next' := (if tail < 0 then next else next[tail := i])[i := -1];
    var free' := free + [i];
    forall k | 0 <= k < |free'| - 1 ensures next'[free'[k]] == free'[k + 1] {
      assert free[k] in free;
    }
  }

  /** One slot: free exactly if it has no id, its version counts its frees, and it has been handed out with every
      version before the present one, and with that if it is live. */
  ghost predicate SlotOk(i: nat, isFree: bool, sid: int, version: nat, frees: nat, issued: set<nat>) {
    && (isFree <==> sid == -1)
    && (sid != -1 ==> sid == Sid(version, i))
    && version == frees % VERSIONS
    && (forall v: nat :: v in issued <==> v < VERSIONS && (v < frees || (v == frees && sid != -1)))
  }

  lemma Unused(i: nat)
    ensures SlotOk(i, true, -1, 0, 0, {})
  {
  }

  lemma HandedOut(i: nat, sid: int, version: nat, frees: nat, issued: set<nat>)
    requires SlotOk(i, true, sid, version, frees, issued)
    ensures SlotOk(i, false, Sid(version, i), version, frees, issued + {version})
    ensures version in issued <==> frees >= VERSIONS
  {
  }

  lemma GivenBack(i: nat, sid: int, version: nat, frees: nat, issued: set<nat>)
    requires SlotOk(i, false, sid, version, frees, issued)
    ensures SlotOk(i, true, -1, (version + 1) % VERSIONS, frees + 1, issued)
  {
  }

  class Pool {
    var next: seq<int>
    var head: int
    var tail: int
    var version: seq<nat>
    var sid: seq<int>
    ghost var free: seq<nat>
    ghost var frees: seq<nat> // how often each slot has been freed
    ghost var issued: seq<set<nat>> // the versions each slot has been handed out with

    ghost predicate Sized()
      reads this
    {
      |version| == |sid| == |frees| == |issued| == SLOTS
    }

    /** Every slot is free or live, never both. */
    ghost predicate Valid()
      reads this
    {
      && Sized() && Linked(next, head, tail, free)
      && forall i :: 0 <= i < SLOTS ==> SlotOk(i, i in free, sid[i], version[i], frees[i], issued[i])
    }

    constructor ()
      ensures Valid() && |free| == SLOTS
    {
      next := seq(SLOTS, _ => -1);
      head, tail := -1, -1;
      version, sid := seq(SLOTS, _ => 0), seq(SLOTS, _ => -1);
      free, frees, issued := [], seq(SLOTS, _ => 0), seq(SLOTS, _ => {});
      new;
      var i := 0;
      while i < SLOTS
        invariant 0 <= i <= SLOTS && Linked(next, head, tail, free) && |free| == i
        invariant forall k :: 0 <= k < i ==> free[k] == k
        invariant Sized()
        invariant forall k :: 0 <= k < SLOTS ==> version[k] == 0 && sid[k] == -1 && frees[k] == 0 && issued[k] == {}
      {
        Link(i);
        i := i + 1;
      }
      forall k | 0 <= k < SLOTS ensures SlotOk(k, k in free, sid[k], version[k], frees[k], issued[k]) {
        assert free[k] == k && k in free;
        Unused(k);
      }
    }

    method Link(i: nat)
      requires Linked(next, head, tail, free) && i < SLOTS && i !in free
      modifies `next, `head, `tail, `free
      ensures Linked(next, head, tail, free) && free == old(free) + [i]
    {
      Appended(next, head, tail, free, i);
      if tail < 0 { head := i; } else { next := next[tail := i]; }
      next := next[i := -1];
      tail := i;
      free := free + [i];
    }

    method Unlink() returns (i: nat)
      requires Linked(next, head, tail, free) && head >= 0
      modifies `head, `tail, `free
      ensures Linked(next, head, tail, free) && old(free) == [i] + free && i < SLOTS && i !in free
    {
      Popped(next, head, tail, free);
      i := head;
      head := next[i];
      if head < 0 { tail := -1; }
      free := free[1..];
    }

    /** Hands out the slot that has been free longest. The id is one never handed out before exactly as long as
        the slot's version has not wrapped. */
    method Alloc() returns (i: int)
      requires Valid()
      modifies `head, `tail, `free, `sid, `issued
      ensures Valid() && (i < 0 <==> old(free) == [])
      ensures i < 0 ==> sid == old(sid) && free == old(free)
      ensures i >= 0 ==> i < SLOTS && old(free) == [i] + free && sid == old(sid)[i := Sid(version[i], i)]
      ensures i >= 0 ==> (version[i] in old(issued[i]) <==> frees[i] >= VERSIONS)
    {
      hide SlotOk, Sid;
      if head < 0 { return -1; }
      ghost var before := free;
      var s := Unlink();
      assert s in before;
      HandedOut(s, sid[s], version[s], frees[s], issued[s]);
      sid := sid[s := Sid(version[s], s)];
      issued := issued[s := issued[s] + {version[s]}];
      i := s;
      forall k | 0 <= k < SLOTS ensures SlotOk(k, k in free, sid[k], version[k], frees[k], issued[k]) {
        assert k in free <==> k in before && k != s;
      }
    }

    /** The slot goes to the back of the list under its next version. */
    method Free(i: nat)
      requires Valid() && i < SLOTS && sid[i] >= 0
      modifies `next, `head, `tail, `free, `sid, `version, `frees
      ensures Valid() && free == old(free) + [i] && sid == old(sid)[i := -1]
      ensures version == old(version)[i := (old(version[i]) + 1) % VERSIONS]
    {
      assert SlotOk(i, i in free, sid[i], version[i], frees[i], issued[i]);
      hide SlotOk;
      GivenBack(i, sid[i], version[i], frees[i], issued[i]);
      ghost var before := free;
      version := version[i := (version[i] + 1) % VERSIONS];
      frees := frees[i := frees[i] + 1];
      sid := sid[i := -1];
      Link(i);
      forall k | 0 <= k < SLOTS ensures SlotOk(k, k in free, sid[k], version[k], frees[k], issued[k]) {
        assert k in free <==> k in before || k == i;
      }
    }

    /** Finds the slot an id is live in. The one id that is no id, -1, finds the last slot while that is free. */
    method Get(id: int) returns (i: int)
      requires Valid()
      ensures i >= 0 ==> i < SLOTS && sid[i] == id
      ensures i >= 0 <==> (id >= 0 && exists k :: 0 <= k < SLOTS && sid[k] == id) || (id == -1 && 65535 in free)
      ensures i >= 0 && id >= 0 ==> i !in free
    {
      var s := Hash(id);
      assert SlotOk(s, s in free, sid[s], version[s], frees[s], issued[s]);
      if sid[s] != id {
        forall k | 0 <= k < SLOTS && id >= 0 ensures sid[k] != id {
          assert SlotOk(k, k in free, sid[k], version[k], frees[k], issued[k]);
          HashOfSid(version[k], k);
        }
        return -1;
      }
      return s;
    }
  }
}
