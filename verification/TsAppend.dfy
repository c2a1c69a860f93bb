/**
  Appending new slots to the end of a chain, the pattern shared by the calls that enter programs,
  EMMs and other PIDs.
 */
module TsAppend {
  import opened TsPool

  ghost predicate AllInUse<T>(pool: seq<Slot<T>>, c: seq<nat>) {
    forall i :: 0 <= i < |c| ==> c[i] < |pool| && pool[c[i]].valid
  }

  /** c is the chain of `num` slots in use that hangs from head. */
  ghost predicate ChainOf<T>(pool: seq<Slot<T>>, head: nat, num: nat, c: seq<nat>) {
    Linked(pool, head, c) && AllInUse(pool, c) && |c| == num
  }

  /** The slots of list hold the entries, in order, linked and ended by INDEX_INVALID. */
  ghost predicate Placed<T>(pool: seq<Slot<T>>, list: seq<nat>, entries: seq<Slot<T>>) {
    |entries| == |list| &&
    forall i :: 0 <= i < |list| ==> list[i] < |pool| && pool[list[i]] == entries[i].(next := Follower(list, i))
  }

  /** The pool once the old last slot leads to `first`. */
  ghost function Hooked<T>(pool: seq<Slot<T>>, last: nat, first: nat): (r: seq<Slot<T>>)
    ensures |r| == |pool|
  {
    if last < |pool| then pool[last := pool[last].(next := first)] else pool
  }

  /**
    From p0 to p1 the entries were appended to the chain c, which now hangs from head1: they sit
    in slots that were free, each slot serving once; the old last slot leads to them; every other
    slot in use is unchanged.
   */
  ghost predicate Appended<T>(p0: seq<Slot<T>>, p1: seq<Slot<T>>, c: seq<nat>, head1: nat, list: seq<nat>,
                              entries: seq<Slot<T>>)
  {
    && |p0| <= |p1| && NoDup(list) && Placed(p1, list, entries)
    && Linked(p1, head1, c + list)
    && (forall k :: k in Elements(list) && k < |p0| ==> !p0[k].valid)
    && (forall k :: 0 <= k < |p0| && k !in Elements(list) ==>
          p1[k] == if list != [] && c != [] && k == c[|c| - 1] then p0[k].(next := list[0]) else p0[k])
    && (forall k :: |p0| <= k < |p1| && k !in Elements(list) ==> !p1[k].valid)
  }

  /** After i rounds of the loop that appends: nothing yet, or the hook and the first i entries. */
  ghost predicate AppendState<T>(p0: seq<Slot<T>>, p1: seq<Slot<T>>, last: nat, list: seq<nat>, entries: seq<Slot<T>>,
                                 i: nat) {
    && i <= |list| == |entries| && |p1| == |p0|
    && (forall k :: 0 <= k < |p0| && k !in Elements(list) ==>
      p1[k] == (if i == 0 then p0 else Hooked(p0, last, list[0]))[k])
    && (forall j :: 0 <= j < i ==> list[j] < |p1| && p1[list[j]] == entries[j].(next := Follower(list, j)))
  }

  lemma AppendStart<T>(p0: seq<Slot<T>>, last: nat, list: seq<nat>, entries: seq<Slot<T>>)
    requires |list| == |entries|
    ensures AppendState(p0, p0, last, list, entries, 0)
  {
  }

  lemma AppendSize<T>(p0: seq<Slot<T>>, p1: seq<Slot<T>>, last: nat, list: seq<nat>, entries: seq<Slot<T>>, i: nat)
    requires AppendState(p0, p1, last, list, entries, i)
    ensures |p1| == |p0|
  {
  }

  lemma AppendStep<T>(p0: seq<Slot<T>>, p1: seq<Slot<T>>, last: nat, list: seq<nat>, entries: seq<Slot<T>>, i: nat,
                      p2: seq<Slot<T>>)
    requires AppendState(p0, p1, last, list, entries, i) && i < |list| && NoDup(list) && list[i] < |p0|
    requires var q := if i == 0 then Hooked(p1, last, list[0]) else p1;
             p2 == q[list[i] := entries[i].(next := Follower(list, i))]
    ensures AppendState(p0, p2, last, list, entries, i + 1)
  {
    assert list[i] in Elements(list);
    var q := if i == 0 then Hooked(p1, last, list[0]) else p1;
    forall k | 0 <= k < |p0| && k !in Elements(list) ensures p2[k] == Hooked(p0, last, list[0])[k] {
      assert p2[k] == q[k];
    }
    forall j | 0 <= j < i ensures list[j] < |p2| && p2[list[j]] == entries[j].(next := Follower(list, j)) {
      assert list[j] != list[i] && q == p1;
    }
  }

  /** The finished loop, for a chain that was well formed. */
  lemma AppendDone<T>(p0: seq<Slot<T>>, grown: seq<Slot<T>>, p1: seq<Slot<T>>, last: nat, list: seq<nat>,
                      entries: seq<Slot<T>>, head0: nat, c: seq<nat>, head1: nat)
    requires Linked(p0, head0, c) && AllInUse(p0, c) && Frame(p0, grown, {})
    requires NoDup(list) && forall k :: k in Elements(list) ==> k < |grown| && !grown[k].valid
    requires AppendState(grown, p1, last, list, entries, |list|)
    requires last == (if c == [] then INDEX_INVALID else c[|c| - 1]) && |grown| <= INDEX_INVALID
    requires head1 == if c == [] && list != [] then list[0] else head0
    ensures Appended(p0, p1, c, head1, list, entries)
  {
    assert Linked(p1, head1, c + list) by {
      forall i | 0 <= i < |c| ensures c[i] < |p0| && c[i] !in Elements(list) && p0[c[i]].next == Follower(c, i) {
      }
      forall i | 0 <= i < |c| - 1 ensures c[i] == c[|c| - 1] ==> Follower(c, i) == INDEX_INVALID {
        assert p0[c[|c| - 1]].next == Follower(c, |c| - 1);
      }
      AppendLinked(p0, p1, head0, head1, c, list, entries);
    }
  }

  lemma AppendLinked<T>(p0: seq<Slot<T>>, p1: seq<Slot<T>>, head0: nat, head1: nat, c: seq<nat>, list: seq<nat>,
                        entries: seq<Slot<T>>)
    requires Linked(p0, head0, c) && |p0| <= |p1|
    requires Placed(p1, list, entries)
    requires forall i :: 0 <= i < |c| - 1 ==> p1[c[i]].next == p0[c[i]].next
    requires |c| > 0 ==> p1[c[|c| - 1]].next == (if list == [] then INDEX_INVALID else list[0])
    requires head1 == if c == [] && list != [] then list[0] else head0
    ensures Linked(p1, head1, c + list)
  {
    var all := c + list;
    forall i | 0 <= i < |c| ensures all[i] < |p1| && p1[all[i]].next == Follower(all, i) {
      assert p0[c[i]].next == Follower(c, i);
    }
    forall i | |c| <= i < |all| ensures all[i] < |p1| && p1[all[i]].next == Follower(all, i) {
      assert p1[list[i - |c|]].next == Follower(list, i - |c|);
    }
  }
}
