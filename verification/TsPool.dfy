/**
  The transport stream pools. Streams, programs and PIDs live in three flat pools; trees are
  threaded through them with 16-bit "next" and "first child" indices, and a slot is free when
  its valid flag is not set. The program and PID pools grow when too few free slots are left.
 */
module TsPool {

  const INDEX_INVALID: nat := 0xFFFF
  const MAX_INDEX_LIST: nat := 300
  const PROGS_PER_GROWTH: nat := 100
  const PIDS_PER_GROWTH: nat := 500

  datatype Code = Success | InputParam | MemoryNotEnough | IndexOutOfRange | TsError | Other

  /** What a call of realloc does: fail, extend the block where it is, or move it. */
  datatype Realloc = Fails | InPlace | Moves

  datatype PidKind =
    | Unknown | PmtPid | PcrPid | EsPid | EmmPid | PsEcmPid | EsEcmPid | OtherPid

  datatype PidData = PidData(
    slotId: nat, channel: nat, kind: PidKind, streamType: nat,
    pid: nat, newPid: nat, casId: nat, esInfo: seq<nat>)

  /** The links and the contents of a PID slot. `parent` is the owning elementary stream of an ECM. */
  datatype PidRec = PidRec(ts: nat, prog: nat, parent: nat, ecmNum: nat, ecmHead: nat, data: PidData)

  datatype ProgData = ProgData(
    slotId: nat, channel: nat, serviceId: nat, newServiceId: nat, pmtPid: nat, newPmtPid: nat,
    pcrPid: nat, newPcrPid: nat, version: nat, progInfo: seq<nat>)

  datatype ProgRec = ProgRec(
    ts: nat, pcr: nat, esNum: nat, esHead: nat, psNum: nat, psHead: nat, data: ProgData)

  datatype StreamData = StreamData(slotId: nat, channel: nat, transportStreamId: nat)

  datatype StreamRec = StreamRec(
    progNum: nat, progHead: nat, emmNum: nat, emmHead: nat, otherNum: nat, otherHead: nat,
    data: StreamData)

  /** One pool slot. */
  datatype Slot<+T> = Slot(valid: bool, index: nat, next: nat, body: T)

  type Pid = Slot<PidRec>
  type Prog = Slot<ProgRec>
  type Stream = Slot<StreamRec>

  const ZERO_PID: Pid :=
    Slot(false, 0, 0, PidRec(0, 0, 0, 0, 0, PidData(0, 0, Unknown, 0, 0, 0, 0, [])))

  const ZERO_PROG: Prog :=
    Slot(false, 0, 0, ProgRec(0, 0, 0, 0, 0, 0, ProgData(0, 0, 0, 0, 0, 0, 0, 0, 0, [])))

  // ---------------------------------------------------------------- chains

  /** The index that follows position i of a chain: the next element, or the end mark. */
  function Follower(idx: seq<nat>, i: nat): nat {
    if i + 1 < |idx| then idx[i + 1] else INDEX_INVALID
  }

  /** idx is the whole chain hanging from head: in range, linked in order, ended by INDEX_INVALID. */
  ghost predicate Linked<T>(pool: seq<Slot<T>>, head: nat, idx: seq<nat>) {
    && (|idx| > 0 ==> head == idx[0])
    && (forall i :: 0 <= i < |idx| ==> idx[i] < |pool| && pool[idx[i]].next == Follower(idx, i))
  }

  /** The i-th index met when following `next` from head. */
  function Nth<T>(pool: seq<Slot<T>>, head: nat, i: nat): nat
    decreases i
  {
    if i == 0 then head
    else
      var p := Nth(pool, head, i - 1);
      if p < |pool| then pool[p].next else INDEX_INVALID
  }

  /** The first n indices met when following `next` from head. */
  function Path<T>(pool: seq<Slot<T>>, head: nat, n: nat): (r: seq<nat>)
    ensures |r| == n
  {
    seq(n, (i: nat) => Nth(pool, head, i))
  }

  lemma PathStep<T>(pool: seq<Slot<T>>, head: nat, n: nat, i: nat)
    requires i < n
    ensures Path(pool, head, n)[i]
         == if i == 0 then head
            else if Path(pool, head, n)[i - 1] < |pool| then pool[Path(pool, head, n)[i - 1]].next
            else INDEX_INVALID
  {
  }

  lemma {:induction false} NthOfLinked<T>(pool: seq<Slot<T>>, head: nat, idx: seq<nat>, i: nat)
    requires Linked(pool, head, idx) && i < |idx|
    ensures Nth(pool, head, i) == idx[i]
  {
    if i > 0 {
      NthOfLinked(pool, head, idx, i - 1);
      assert pool[idx[i - 1]].next == Follower(idx, i - 1);
    }
  }

  ghost predicate NoDup(s: seq<nat>) {
    forall i, j :: 0 <= i < j < |s| ==> s[i] != s[j]
  }

  // ---------------------------------------------------------------- free slots

  /** The free slots among the first n, in increasing order. */
  function Unused<T>(pool: seq<Slot<T>>, n: nat): seq<nat>
    requires n <= |pool|
    decreases n
  {
    if n == 0 then []
    else Unused(pool, n - 1) + (if pool[n - 1].valid then [] else [n - 1])
  }

  lemma {:induction false} UnusedProps<T>(pool: seq<Slot<T>>, n: nat)
    requires n <= |pool|
    ensures forall x: nat :: x in Unused(pool, n) <==> x < n && !pool[x].valid
    ensures forall i, j :: 0 <= i < j < |Unused(pool, n)| ==> Unused(pool, n)[i] < Unused(pool, n)[j]
    decreases n
  {
    if n > 0 {
      UnusedProps(pool, n - 1);
      var before := Unused(pool, n - 1);
      assert forall i :: 0 <= i < |before| ==> before[i] in before;
    }
  }

  lemma {:induction false} UnusedGrows<T>(pool: seq<Slot<T>>, m: nat, n: nat)
    requires m <= n <= |pool|
    ensures Unused(pool, m) <= Unused(pool, n)
    decreases n
  {
    if m < n {
      UnusedGrows(pool, m, n - 1);
    }
  }

  lemma {:induction false} UnusedOfPrefix<T>(pool: seq<Slot<T>>, more: seq<Slot<T>>, n: nat)
    requires n <= |pool|
    ensures Unused(pool + more, n) == Unused(pool, n)
    decreases n
  {
    if n > 0 {
      UnusedOfPrefix(pool, more, n - 1);
      assert (pool + more)[n - 1] == pool[n - 1];
    }
  }

  /** The free slots of the whole pool. */
  function Free<T>(pool: seq<Slot<T>>): seq<nat> {
    Unused(pool, |pool|)
  }

  /** Fresh slots appended by a growth are free, so the pool then has at least that many. */
  lemma {:induction false} FreeAfterGrowth<T>(pool: seq<Slot<T>>, zero: Slot<T>, n: nat)
    requires !zero.valid
    ensures |Free(pool + seq(n, _ => zero))| == |Free(pool)| + n
    ensures Free(pool) <= Free(pool + seq(n, _ => zero))
    decreases n
  {
    var more := seq(n, _ => zero);
    if n == 0 {
      assert pool + more == pool;
    } else {
      var fewer := seq(n - 1, _ => zero);
      FreeAfterGrowth(pool, zero, n - 1);
      assert pool + more == (pool + fewer) + [zero];
      UnusedOfPrefix(pool + fewer, [zero], |pool + fewer|);
    }
  }

  /** Counting free slots: a pool of the same size loses at most the slots that were taken. */
  lemma FreeAfterTaking<T>(p0: seq<Slot<T>>, p1: seq<Slot<T>>, taken: set<nat>)
    requires |p0| == |p1|
    requires forall k :: 0 <= k < |p0| && !p0[k].valid && k !in taken ==> !p1[k].valid
    ensures |Free(p0)| <= |Free(p1)| + |taken|
  {
    UnusedProps(p0, |p0|);
    UnusedProps(p1, |p1|);
    SizeOfElements(Free(p0));
    SizeOfElements(Free(p1));
    assert Elements(Free(p0)) <= Elements(Free(p1)) + taken;
    SubsetSize(Elements(Free(p0)), Elements(Free(p1)) + taken);
  }

  ghost function Elements(s: seq<nat>): set<nat> {
    set x | x in s
  }

  lemma {:induction false} SizeOfElements(s: seq<nat>)
    ensures |Elements(s)| <= |s|
    ensures NoDup(s) ==> |Elements(s)| == |s|
  {
    if s == [] {
      assert Elements(s) == {};
    } else {
      var init, last := s[..|s| - 1], s[|s| - 1];
      SizeOfElements(init);
      assert s == init + [last];
      assert Elements(s) == Elements(init) + {last};
      if NoDup(s) {
        assert NoDup(init);
        assert last !in init;
      }
    }
  }

  lemma SplitElements(s: seq<nat>, n: nat)
    requires n <= |s|
    ensures Elements(s) == Elements(s[..n]) + Elements(s[n..])
    ensures NoDup(s) ==> NoDup(s[..n]) && NoDup(s[n..]) && Elements(s[..n]) !! Elements(s[n..])
  {
    assert s == s[..n] + s[n..];
    if NoDup(s) {
      forall x | x in s[..n] ensures x !in s[n..] {
        var i :| 0 <= i < n && s[i] == x;
        forall j | n <= j < |s| ensures s[j] != x { }
      }
    }
  }

  lemma {:induction false} SubsetSize(a: set<nat>, b: set<nat>)
    requires a <= b
    ensures |a| <= |b|
    decreases a
  {
    if a != {} {
      var x :| x in a;
      SubsetSize(a - {x}, b - {x});
    }
  }

  /** list is an answer to a request for `need` free slots: the first ones, in order. */
  ghost predicate FirstFree<T>(pool: seq<Slot<T>>, need: nat, list: seq<nat>) {
    need <= |Free(pool)| && list == Free(pool)[..need]
  }

  lemma FirstFreeProps<T>(pool: seq<Slot<T>>, need: nat, list: seq<nat>)
    requires FirstFree(pool, need, list)
    ensures |list| == need && NoDup(list)
    ensures forall i :: 0 <= i < |list| ==> list[i] < |pool| && !pool[list[i]].valid
    ensures forall x :: x in Elements(list) ==> x < |pool| && !pool[x].valid
  {
    var f := Free(pool);
    UnusedProps(pool, |pool|);
    forall i | 0 <= i < |list| ensures list[i] < |pool| && !pool[list[i]].valid {
      assert f[i] in f;
    }
  }

  /** First-fit scan for free slots: stops as soon as `need` have been found. */
  method ScanUnused<T>(pool: seq<Slot<T>>, need: nat) returns (list: seq<nat>)
    requires need > 0
    ensures |list| <= need && list <= Free(pool)
    ensures |list| < need ==> list == Free(pool)
  {
    list := [];
    var i := 0;
    while i < |pool|
      invariant 0 <= i <= |pool| && |list| < need
      invariant list == Unused(pool, i)
    {
      if !pool[i].valid {
        list := list + [i];
        if |list| == need {
          UnusedGrows(pool, i + 1, |pool|);
          return;
        }
      }
      i := i + 1;
    }
  }

  // ---------------------------------------------------------------- walking a chain

  /**
    Collects the chain of `num` slots that hangs from `head`: follows `next` while it stays in
    range, refuses chains of 300 slots or more, and compares the length met with `num`.
   */
  method IndexList<T>(num: nat, head: nat, pool: seq<Slot<T>>) returns (code: Code, list: seq<nat>)
    ensures code == Success ==> |list| == num && num < MAX_INDEX_LIST
    ensures |list| <= MAX_INDEX_LIST
    ensures code == Success || (code == IndexOutOfRange && num > 0 && |list| == MAX_INDEX_LIST)
            || (code == TsError && num > 0 && |list| != num && Nth(pool, head, |list|) >= |pool|)
    ensures list == Path(pool, head, |list|) && forall i :: 0 <= i < |list| ==> list[i] < |pool|
    ensures code == Success && num > 0 ==>
              && list[0] == head
              && (forall i :: 0 <= i < num ==> list[i] < |pool| && list[i] == Nth(pool, head, i))
              && pool[list[num - 1]].next >= |pool|
    ensures forall c :: Linked(pool, head, c) && |c| == num < MAX_INDEX_LIST && |pool| <= INDEX_INVALID
                        ==> code == Success && list == c
  {
    hide Linked, Walked;
    list := [];
    if num == 0 {
      forall c | Linked(pool, head, c) && |c| == num ensures list == c { }
      return Success, list;
    }
    var at := head;
    WalkStart(pool, head, num);
    while at < |pool|
      invariant |list| < MAX_INDEX_LIST
      invariant at == Nth(pool, head, |list|)
      invariant forall i :: 0 <= i < |list| ==> list[i] < |pool| && list[i] == Nth(pool, head, i)
      invariant |list| > 0 ==> at == pool[list[|list| - 1]].next
      invariant Walked(pool, head, num, list, at)
      decreases MAX_INDEX_LIST - |list|
    {
      WalkStep(pool, head, num, list, at);
      list := list + [at];
      if MAX_INDEX_LIST <= |list| {
        WalkLength(pool, head, num, list, pool[at].next);
        return IndexOutOfRange, list;
      }
      at := pool[at].next;
    }
    WalkLength(pool, head, num, list, at);
    if |list| != num {
      return TsError, list;
    }
    return Success, list;
  }

  /** Any chain of num slots at head begins with list and goes on with `at`. */
  ghost predicate Walked<T>(pool: seq<Slot<T>>, head: nat, num: nat, list: seq<nat>, at: nat) {
    forall c :: Linked(pool, head, c) && |c| == num && |pool| <= INDEX_INVALID ==>
      |list| <= num && list == c[..|list|] && at == if |list| < num then c[|list|] else INDEX_INVALID
  }

  lemma {:induction false} WalkStart<T>(pool: seq<Slot<T>>, head: nat, num: nat)
    requires num > 0
    ensures Walked(pool, head, num, [], head)
  {
  }

  lemma {:induction false} WalkStep<T>(pool: seq<Slot<T>>, head: nat, num: nat, list: seq<nat>, at: nat)
    requires Walked(pool, head, num, list, at) && at < |pool|
    ensures Walked(pool, head, num, list + [at], pool[at].next)
  {
    forall c | Linked(pool, head, c) && |c| == num && |pool| <= INDEX_INVALID
      ensures var list1 := list + [at];
              && |list1| <= num && list1 == c[..|list1|]
              && pool[at].next == if |list1| < num then c[|list1|] else INDEX_INVALID
    {
      OneMore(pool, c, list, at);
    }
  }

  lemma {:induction false} OneMore<T>(pool: seq<Slot<T>>, c: seq<nat>, list: seq<nat>, at: nat)
    requires |list| < |c| && list == c[..|list|] && at == c[|list|] && at < |pool|
    requires pool[c[|list|]].next == Follower(c, |list|)
    ensures list + [at] == c[..|list| + 1]
    ensures pool[at].next == if |list| + 1 < |c| then c[|list| + 1] else INDEX_INVALID
  {
  }

  lemma {:induction false} WalkLength<T>(pool: seq<Slot<T>>, head: nat, num: nat, list: seq<nat>, at: nat)
    requires Walked(pool, head, num, list, at)
    ensures forall c :: Linked(pool, head, c) && |c| == num && |pool| <= INDEX_INVALID ==>
              |list| <= num && (at >= |pool| ==> list == c)
  {
  }

  /** The last slot of a chain, or INDEX_INVALID when the chain is empty. */
  method LastIndex<T>(num: nat, head: nat, pool: seq<Slot<T>>) returns (code: Code, last: nat)
    ensures code == Success && num > 0 ==> last < |pool| && last == Nth(pool, head, num - 1)
    ensures code == Success && num == 0 ==> last == INDEX_INVALID
    ensures code == Success ==> num < MAX_INDEX_LIST
    ensures forall c :: Linked(pool, head, c) && |c| == num < MAX_INDEX_LIST && |pool| <= INDEX_INVALID
                        ==> code == Success && (num > 0 ==> last == c[num - 1])
  {
    var list;
    code, list := IndexList(num, head, pool);
    last := INDEX_INVALID;
    if code == Success && |list| > 0 {
      last := list[|list| - 1];
    }
  }

  // ---------------------------------------------------------------- what a call leaves alone

  /**
    Between p0 and p1 the pool may have grown by zeroed slots, and only the touched slots changed.
   */
  ghost predicate Frame<T>(p0: seq<Slot<T>>, p1: seq<Slot<T>>, touched: set<nat>) {
    && |p0| <= |p1|
    && (forall k :: 0 <= k < |p0| && k !in touched ==> p1[k] == p0[k])
    && (forall k :: |p0| <= k < |p1| && k !in touched ==> !p1[k].valid)
  }

  /**
    A pool with `free` of its `len` slots free can be made to have `need` free ones: it grows by
    `growth` slots at a time, for which realloc must have memory and 16-bit indices room.
   */
  predicate CanGrow(len: nat, free: nat, need: nat, growth: nat, realloc: nat -> Realloc)
    requires growth > 0
    decreases need - free
  {
    free >= need
    || (realloc(len) != Fails && len + growth <= INDEX_INVALID && CanGrow(len + growth, free + growth, need, growth,
                                                                          realloc))
  }

  /** As long as realloc never fails and the indices have room, every number of slots can be had. */
  lemma {:induction false} CanAlwaysGrow(len: nat, free: nat, need: nat, growth: nat, realloc: nat -> Realloc)
    requires growth > 0 && (forall n: nat :: realloc(n) != Fails)
    requires free <= len && len + need - free + growth <= INDEX_INVALID
    ensures CanGrow(len, free, need, growth, realloc)
    decreases need - free
  {
    if free < need {
      CanAlwaysGrow(len + growth, free + growth, need, growth, realloc);
    }
  }

  lemma {:induction false} FreeAtMost<T>(pool: seq<Slot<T>>, n: nat)
    requires n <= |pool|
    ensures |Unused(pool, n)| <= n
    decreases n
  {
    if n > 0 {
      FreeAtMost(pool, n - 1);
    }
  }

  /** Memory lasts, and a pool of len slots that grows for `need` more stays within 16-bit indices. */
  ghost predicate MayGrow(len: nat, need: nat, growth: nat, realloc: nat -> Realloc) {
    len + need + growth <= INDEX_INVALID && forall n: nat :: realloc(n) != Fails
  }

  /** Whatever is free, up to 300 slots can then be had. */
  lemma {:induction false} GrantedWithMemory<T>(pool: seq<Slot<T>>, need: nat, growth: nat, realloc: nat -> Realloc)
    requires growth > 0
    ensures need <= 300 && MayGrow(|pool|, need, growth, realloc) ==> Granted(pool, need, growth, realloc)
  {
    if need <= 300 && MayGrow(|pool|, need, growth, realloc) {
      FreeAtMost(pool, |pool|);
      if |Free(pool)| < need {
        CanAlwaysGrow(|pool|, |Free(pool)|, need, growth, realloc);
      }
    }
  }

  /** How many slots a pool has, and how many of them are free. */
  datatype Room = Room(len: nat, free: nat)

  function RoomOf<T>(pool: seq<Slot<T>>): Room { Room(|pool|, |Free(pool)|) }

  /** The pool once `need` slots are free in it. */
  function Grown(r: Room, need: nat, growth: nat): Room
    requires growth > 0
    decreases need - r.free
  {
    if r.free >= need then r else Grown(Room(r.len + growth, r.free + growth), need, growth)
  }

  lemma {:induction false} GrownIsEnough(r: Room, need: nat, growth: nat)
    requires growth > 0
    ensures Grown(r, need, growth).free >= need
    ensures Grown(r, need, growth).len - r.len == Grown(r, need, growth).free - r.free >= 0
    decreases need - r.free
  {
    if r.free < need {
      GrownIsEnough(Room(r.len + growth, r.free + growth), need, growth);
    }
  }

  lemma {:induction false} FreeMembers<T>(pool: seq<Slot<T>>)
    ensures forall x: nat :: x in Elements(Free(pool)) <==> x < |pool| && !pool[x].valid
    ensures |Elements(Free(pool))| == |Free(pool)|
  {
    UnusedProps(pool, |pool|);
    SizeOfElements(Free(pool));
  }

  function Numbers(m: nat, n: nat): seq<nat>
    requires m <= n
  {
    seq(n - m, (i: nat) => m + i)
  }

  lemma {:induction false} NumbersAre(m: nat, n: nat)
    requires m <= n
    ensures forall x: nat :: x in Elements(Numbers(m, n)) <==> m <= x < n
    ensures |Elements(Numbers(m, n))| == n - m
  {
    var r := Numbers(m, n);
    SizeOfElements(r);
    forall x: nat | m <= x < n ensures x in r {
      assert r[x - m] == x;
    }
  }

  /** Counting exactly: the free slots of p0 and the new ones, less those of list. */
  lemma {:induction false} FreeExactly<T>(p0: seq<Slot<T>>, p1: seq<Slot<T>>, list: seq<nat>)
    requires |p0| <= |p1| && NoDup(list)
    requires forall k :: k in Elements(list) ==> k < |p1| && p1[k].valid && (k < |p0| ==> !p0[k].valid)
    requires forall k :: 0 <= k < |p1| && k !in Elements(list) ==> (p1[k].valid <==> k < |p0| && p0[k].valid)
    ensures |Free(p1)| + |list| == |Free(p0)| + |p1| - |p0|
  {
    hide Free, Elements, Numbers;
    FreeMembers(p0);
    FreeMembers(p1);
    SizeOfElements(list);
    NumbersAre(|p0|, |p1|);
    var a, b, l, more := Elements(Free(p0)), Elements(Free(p1)), Elements(list), Elements(Numbers(|p0|, |p1|));
    assert b + l == a + more;
    UnionOfApart(b, l);
    UnionOfApart(a, more);
  }

  lemma UnionOfApart(a: set<nat>, b: set<nat>)
    requires a !! b
    ensures |a + b| == |a| + |b|
  {
  }

  /** A request for slots is granted. */
  predicate Granted<T>(pool: seq<Slot<T>>, need: nat, growth: nat, realloc: nat -> Realloc)
    requires growth > 0
  {
    need <= MAX_INDEX_LIST && CanGrow(|pool|, |Free(pool)|, need, growth, realloc)
  }

  /** The pools of one board. */
  class TsInfo {
    var streams: seq<Stream>
    var progs: seq<Prog>
    var pids: seq<Pid>
    /** Identity of the memory block that holds the PID pool; a pointer taken into an older block is stale. */
    var pidBlock: nat
    /** The answer of realloc when the pool has the given number of slots. */
    const realloc: nat -> Realloc

    /** Pools stay small enough for 16-bit indices; index 0xFFFF is the end mark. */
    ghost predicate Valid()
      reads this
    {
      |streams| <= INDEX_INVALID && |progs| <= INDEX_INVALID && |pids| <= INDEX_INVALID
    }

    method UnusedProgs(need: nat) returns (code: Code, list: seq<nat>)
      requires Valid()
      modifies this`progs
      ensures Valid()
      ensures code == Success ==> FirstFree(progs, need, list) && need <= MAX_INDEX_LIST
      ensures code == Success <==> Granted(old(progs), need, PROGS_PER_GROWTH, realloc)
      ensures code == Success ==> RoomOf(progs) == Grown(RoomOf(old(progs)), need, PROGS_PER_GROWTH)
      // while memory lasts, up to 300 slots can be had, whatever is free
      ensures need <= 300 && MayGrow(|old(progs)|, need, 100, realloc) ==> code == Success
      ensures Frame(old(progs), progs, {})
      ensures |Free(old(progs))| >= need ==> progs == old(progs) && (need <= MAX_INDEX_LIST ==> code == Success)
      decreases INDEX_INVALID - |progs|
    {
      hide MayGrow;
      GrantedWithMemory(progs, need, PROGS_PER_GROWTH, realloc);
      list := [];
      if need > MAX_INDEX_LIST {
        return InputParam, list;
      }
      if need == 0 {
        return Success, list;
      }
      list := ScanUnused(progs, need);
      if |list| == need {
        return Success, list;
      }
      if realloc(|progs|) == Fails || |progs| + PROGS_PER_GROWTH > INDEX_INVALID {
        return MemoryNotEnough, list;
      }
      FreeAfterGrowth(progs, ZERO_PROG, PROGS_PER_GROWTH);
      progs := progs + seq(PROGS_PER_GROWTH, _ => ZERO_PROG);
      code, list := UnusedProgs(need);
    }

    method UnusedPids(need: nat) returns (code: Code, list: seq<nat>)
      requires Valid()
      modifies this`pids, this`pidBlock
      ensures Valid()
      ensures code == Success ==> FirstFree(pids, need, list) && need <= MAX_INDEX_LIST
      ensures code == Success <==> Granted(old(pids), need, PIDS_PER_GROWTH, realloc)
      ensures code == Success ==> RoomOf(pids) == Grown(RoomOf(old(pids)), need, PIDS_PER_GROWTH)
      ensures need <= 300 && MayGrow(|old(pids)|, need, 500, realloc) ==> code == Success
      ensures Frame(old(pids), pids, {})
      ensures |Free(old(pids))| >= need ==>
                && pids == old(pids) && pidBlock == old(pidBlock)
                && (need <= MAX_INDEX_LIST ==> code == Success)
      // one growth is always enough, and it invalidates pointers exactly when the block moves
      ensures code == Success && |Free(old(pids))| < need ==>
                && pids == old(pids) + seq(PIDS_PER_GROWTH, _ => ZERO_PID)
                && (pidBlock == old(pidBlock) <==> realloc(|old(pids)|) == InPlace)
                && realloc(|old(pids)|) != Fails
      decreases INDEX_INVALID - |pids|
    {
      hide MayGrow;
      GrantedWithMemory(pids, need, PIDS_PER_GROWTH, realloc);
      list := [];
      if need > MAX_INDEX_LIST {
        return InputParam, list;
      }
      if need == 0 {
        return Success, list;
      }
      list := ScanUnused(pids, need);
      if |list| == need {
        return Success, list;
      }
      if realloc(|pids|) == Fails || |pids| + PIDS_PER_GROWTH > INDEX_INVALID {
        return MemoryNotEnough, list;
      }
      FreeAfterGrowth(pids, ZERO_PID, PIDS_PER_GROWTH);
      if realloc(|pids|) == Moves {
        pidBlock := pidBlock + 1;
      }
      pids := pids + seq(PIDS_PER_GROWTH, _ => ZERO_PID);
      code, list := UnusedPids(need);
    }
  }
}
