/**
  Copy of a program: its PCR, its elementary streams with their ECMs, and its own ECMs
  (TSP_CopyInputProg). All sibling slots are reserved before any nested allocation.
 */
module TsCopyProg {
  import opened TsPool
  import opened TsTree
  import opened TsAlloc
  import opened TsCopy

  /**
    Between p0 and p1 the slots `used` were filled and the slots `rest` are merely reserved:
    still as they were, but for the valid flag.
   */
  ghost predicate Held(p0: seq<Pid>, p1: seq<Pid>, used: set<nat>, rest: seq<nat>) {
    && NoDup(rest) && Elements(rest) !! used
    && Frame(p0, p1, used + Elements(rest))
    && WereFree(p0, p1, used + Elements(rest))
    && (forall e :: e in Elements(rest) && e < |p0| ==> p1[e] == p0[e].(valid := true))
  }

  lemma ReleaseLast(p0: seq<Pid>, p1: seq<Pid>, used: set<nat>, rest: seq<nat>, p2: seq<Pid>)
    requires Held(p0, p1, used, rest) && rest != []
    requires var e := rest[|rest| - 1]; e < |p1| && p2 == p1[e := p1[e].(valid := false)]
    ensures Held(p0, p2, used, rest[..|rest| - 1])
  {
    var e, init := rest[|rest| - 1], rest[..|rest| - 1];
    assert rest == init + [e];
    assert Elements(rest) == Elements(init) + {e};
    assert e !in Elements(init);
    assert e in Elements(rest);
    if e < |p0| {
      assert p2[e] == p0[e];
    }
  }

  lemma HeldAfterPid(p0: seq<Pid>, p1: seq<Pid>, used: set<nat>, rest: seq<nat>, p2: seq<Pid>, s: PidShape)
    requires Held(p0, p1, used, rest) && rest != []
    requires NewSlots(p1, p2, s) && s.slot == rest[0] && p2[s.slot].valid
    ensures Held(p0, p2, used + Slots(s), rest[1..]) && used !! Slots(s)
    ensures forall e :: e in used ==> e < |p1| <= |p2| && p2[e] == p1[e]
  {
    var tail := rest[1..];
    assert rest == [s.slot] + tail;
    assert Elements(rest) == Elements(tail) + {s.slot};
    assert s.slot !in Elements(tail);
    HeldAfterSlots(p0, p1, used, rest, tail, p2, Slots(s));
  }

  lemma HeldAfterSlots(p0: seq<Pid>, p1: seq<Pid>, used: set<nat>, rest: seq<nat>, tail: seq<nat>, p2: seq<Pid>,
                       g: set<nat>)
    requires Held(p0, p1, used, rest) && NoDup(tail) && Elements(tail) <= Elements(rest)
    requires Frame(p1, p2, g) && Elements(rest) <= Elements(tail) + g && g !! Elements(tail)
    requires WereFree(p1, p2, g - Elements(rest)) && (forall e :: e in g ==> e < |p2| && p2[e].valid)
    ensures Held(p0, p2, used + g, tail) && used !! g
    ensures forall e :: e in used ==> e < |p1| <= |p2| && p2[e] == p1[e]
  {
    forall e | e in used ensures e !in g {
      assert p1[e].valid;
    }
    forall e | e in Elements(tail) ensures p2[e] == p1[e] { }
    forall e | e in g ensures e < |p0| ==> !p0[e].valid {
      if e < |p0| && e !in Elements(rest) {
        assert p1[e] == p0[e];
      }
    }
    forall k | |p0| <= k < |p2| && k !in used + g + Elements(tail) ensures !p2[k].valid {
      if k < |p1| {
        assert p2[k] == p1[k];
      }
    }
  }

  lemma HeldAfterChain(p0: seq<Pid>, p1: seq<Pid>, used: set<nat>, rest: seq<nat>, p2: seq<Pid>, n: nat,
                       ss: seq<PidShape>)
    requires Held(p0, p1, used, rest) && n <= |rest|
    requires |ss| == n && Siblings(p2, rest[..n], ss) && Taken(p1, p2, rest[..n], ss)
    ensures Held(p0, p2, used + SlotsOf(ss), rest[n..]) && used !! SlotsOf(ss)
    ensures forall e :: e in used ==> e < |p1| <= |p2| && p2[e] == p1[e]
  {
    var tail := rest[n..];
    SplitElements(rest, n);
    SiblingsCover(p2, rest[..n], ss);
    assert SlotsOf(ss) !! Elements(tail) by {
      forall e | e in Elements(tail) ensures e !in SlotsOf(ss) {
        assert e in Elements(rest) && p1[e].valid;
      }
    }
    HeldAfterSlots(p0, p1, used, rest, tail, p2, SlotsOf(ss));
  }

  lemma SiblingsCover(p: seq<Pid>, list: seq<nat>, ss: seq<PidShape>)
    requires |ss| == |list| && Siblings(p, list, ss)
    ensures Elements(list) <= SlotsOf(ss)
  {
    forall e | e in Elements(list) ensures e in SlotsOf(ss) {
      var j :| 0 <= j < |list| && list[j] == e;
      SlotsOfHas(ss, j);
    }
  }

  /** Free slots are lost one by one, as long as the pool does not grow. */
  lemma FreeWhileHeld(p0: seq<Pid>, p1: seq<Pid>, used: set<nat>, rest: seq<nat>, n: nat)
    requires Held(p0, p1, used, rest) && |p1| == |p0| && |used| + |rest| <= n
    ensures |Free(p0)| <= |Free(p1)| + n
  {
    SizeOfElements(rest);
    FreeAfterTaking(p0, p1, used + Elements(rest));
  }

  lemma {:induction false} SlotCount(ss: seq<PidShape>)
    ensures |SlotsOf(ss)| <= |ss| + EcmCount(ss)
  {
    if ss != [] {
      var init, last := ss[..|ss| - 1], ss[|ss| - 1];
      SlotCount(init);
      SizeOfElements(last.ecms);
      SubsetSize(SlotsOf(ss), SlotsOf(init) + ({last.slot} + Elements(last.ecms)));
    }
  }

  // ---------------------------------------------------------------- phases of a program copy

  method MarkValid(live: TsInfo, list: seq<nat>)
    requires forall i :: 0 <= i < |list| ==> list[i] < |live.pids|
    modifies live`pids
    ensures |live.pids| == |old(live.pids)|
    ensures forall k :: 0 <= k < |live.pids| ==>
              live.pids[k] == if k in Elements(list) then old(live.pids)[k].(valid := true) else old(live.pids)[k]
  {
    ghost var p0 := live.pids;
    var i := 0;
    while i < |list|
      invariant 0 <= i <= |list| && |live.pids| == |p0|
      invariant forall k :: 0 <= k < |p0| ==>
                  live.pids[k] == if k in Elements(list[..i]) then p0[k].(valid := true) else p0[k]
    {
      assert list[..i + 1] == list[..i] + [list[i]];
      assert Elements(list[..i + 1]) == Elements(list[..i]) + {list[i]};
      live.pids := live.pids[list[i] := live.pids[list[i]].(valid := true)];
      i := i + 1;
    }
    assert list[..i] == list;
  }

  lemma MarkedIsHeld(p0: seq<Pid>, grown: seq<Pid>, n: nat, list: seq<nat>, p1: seq<Pid>)
    requires Frame(p0, grown, {}) && FirstFree(grown, n, list) && |p1| == |grown|
    requires forall k :: 0 <= k < |p1| ==> p1[k] == if k in Elements(list) then grown[k].(valid := true) else grown[k]
    ensures Held(p0, p1, {}, list)
  {
    FirstFreeProps(grown, n, list);
    assert {} + Elements(list) == Elements(list);
  }

  /** The first n free slots were taken. */
  ghost predicate Requested(p0: seq<Pid>, p1: seq<Pid>, n: nat, list: seq<nat>) {
    list == Chosen(Flags(p0), n) && Flags(p1) == Filled(Flags(p0), n)
  }

  /** Asks for n slots and marks them all valid. */
  method ReservePids(live: TsInfo, n: nat) returns (code: Code, list: seq<nat>)
    requires live.Valid()
    modifies live`pids, live`pidBlock
    ensures live.Valid()
    ensures code == Success <==> Granted(old(live.pids), n, PIDS_PER_GROWTH, live.realloc)
    ensures code == Success ==>
              && |list| == n && Held(old(live.pids), live.pids, {}, list)
              && (|Free(old(live.pids))| >= n ==> |live.pids| == |old(live.pids)|)
              && Requested(old(live.pids), live.pids, n, list)
  {
    ghost var p0 := live.pids;
    code, list := live.UnusedPids(n);
    if code == Success {
      ghost var grown := live.pids;
      FirstFreeProps(grown, n, list);
      MarkValid(live, list);
      MarkedIsHeld(p0, grown, n, list, live.pids);
      FilledIs(p0, grown, n, list, live.pids);
    }
  }

  /** The slot of the PCR is filled, or the slot reserved for it is given back. */
  method CopyPcr(live: TsInfo, ghost start: seq<Pid>, ts: nat, prog: nat, list: seq<nat>, ghost rest: seq<nat>,
                 temp: TsInfo, pcr: nat)
    returns (code: Code, ghost ss: seq<PidShape>, ghost lost: bool)
    requires live != temp && live.Valid() && temp.Valid() && EcmsAreLeaves(temp.pids)
    requires list != [] && Held(start, live.pids, {}, list)
    requires |Free(start)| >= |list| ==> |live.pids| == |start|
    requires rest == if pcr == INDEX_INVALID then list[..|list| - 1] else list[1..]
    modifies live`pids, live`pidBlock
    ensures live.Valid()
    ensures ts < |live.streams| ==> (code == Success <==> PcrOk(Flags(old(live.pids)), temp.pids, pcr, live.realloc))
    ensures code == Success ==>
              && PcrPhase(start, old(live.pids), live.pids, list, rest, ss, lost, temp.pids, pcr, ts, prog)
              && PcrAllocated(old(live.pids), live.pids, list, lost, temp.pids, pcr, live.realloc)
  {
    hide PidAt, ReadPid, EcmsAreLeaves, EcmAlloc, EcmOk;
    ss, lost := [], false;
    ghost var p1 := live.pids;
    if pcr != INDEX_INVALID {
      ghost var s;
      assert list[0] in Elements(list);
      code, s, lost := CopyTopPid(live, ts, prog, list[0], temp, pcr);
      if code != Success {
        return;
      }
      HeldAfterPid(start, p1, {}, list, live.pids, s);
      ss := [s];
      SlotsSnoc([], s);
      AnyLostSnoc(live.pids, [], s);
      assert [] + [s] == [s];
    } else {
      var last := list[|list| - 1];
      assert last in Elements(list);
      live.pids := live.pids[last := live.pids[last].(valid := false)];
      assert Flags(live.pids) == Released(Flags(p1), last);
      ReleaseLast(start, p1, {}, list, live.pids);
      code := Success;
    }
  }

  ghost predicate PcrAllocated(p0: seq<Pid>, p1: seq<Pid>, list: seq<nat>, lost: bool, temp: seq<Pid>, pcr: nat,
                               realloc: nat -> Realloc)
  {
    PcrAlloc(Alloc(Flags(p0), false), list, temp, pcr, realloc) == Alloc(Flags(p1), lost)
  }

  ghost predicate PcrCopied(p1: seq<Pid>, ss: seq<PidShape>, dst: nat, ts: nat, prog: nat, temp: seq<Pid>, pcr: nat,
                            lost: bool) {
    && |ss| == 1 && ss[0].slot == dst && pcr < |temp| && Apart(ss)
    && |ss[0].ecms| == |ReadPid(temp, pcr).ecms|
    && (!lost ==> PidAt(p1, ss[0], ReadPid(temp, pcr), ts, prog, INDEX_INVALID))
    && (lost <==> AnyLost(p1, ss))
  }

  // ---------------------------------------------------------------- a program

  lemma {:induction false} SizeOfChain(ss: seq<PidShape>, temp: seq<Pid>, path: seq<nat>, trees: seq<PidTree>)
    requires |ss| <= |path| == |trees| && SameSizes(ss, temp, path)
    requires forall j :: 0 <= j < |path| ==> trees[j] == ReadPid(temp, path[j])
    ensures PidsSize(trees[..|ss|]) == |ss| + EcmCount(ss)
  {
    if ss != [] {
      var init := ss[..|ss| - 1];
      SizeOfChain(init, temp, path, trees);
      assert trees[..|ss|][..|ss| - 1] == trees[..|init|];
      assert trees[..|ss|][|ss| - 1] == ReadPid(temp, path[|ss| - 1]);
    }
  }

  /** A copied chain has the size of its source. */
  lemma SizeOfCopy(p0: seq<Pid>, p1: seq<Pid>, list: seq<nat>, ss: seq<PidShape>, stale: bool,
                   temp: seq<Pid>, head: nat, ts: nat, prog: nat)
    requires ChainCopied(p0, p1, list, ss, stale, temp, head, ts, prog)
    ensures PidsSize(ReadPids(temp, head, |list|)) == |ss| + EcmCount(ss)
    ensures |SlotsOf(ss)| <= |ss| + EcmCount(ss)
  {
    hide Taken, Growth, Siblings, PidAt, ReadPid, Apart;
    SlotCount(ss);
    var trees := ReadPids(temp, head, |list|);
    SizeOfChain(ss, temp, Path(temp, head, |list|), trees);
    assert trees[..|ss|] == trees;
  }

  /** A copied chain is in place below whoever holds its first slot. */
  lemma ChainInPlace(p0: seq<Pid>, p1: seq<Pid>, list: seq<nat>, ss: seq<PidShape>,
                     temp: seq<Pid>, head: nat, ts: nat, prog: nat, newHead: nat)
    requires ChainCopied(p0, p1, list, ss, false, temp, head, ts, prog)
    requires list != [] ==> newHead == list[0]
    ensures |ss| == |list| && PidsAt(p1, newHead, ss, ReadPids(temp, head, |list|), ts, prog, true)
  {
    hide Taken, Growth, SameSizes, PidAt, ReadPid, SlotsOf;
    assert PidSlots(ss) == list;
  }

  /** The source program: a slot in use, with counts that came from 8-bit fields of a PMT. */
  ghost predicate SourceProg(progs: seq<Prog>, src: nat) {
    src < |progs| ==> progs[src].valid && progs[src].body.esNum <= 0xFF && progs[src].body.psNum <= 0xFF
  }

  /** What a successful CopyProg has done to the PID pool, and what the program now stands for. */
  ghost predicate ProgCopied(progs1: seq<Prog>, p0: seq<Pid>, p1: seq<Pid>, s: ProgShape, stale: bool, dst: nat,
                             tprogs: seq<Prog>, temp: seq<Pid>, src: nat, ts: nat)
  {
    && s.slot == dst
    && NewlyTaken(p0, p1, UsedByProg(s)) && ApartProg(s)
    && |UsedByProg(s)| <= ProgSize(ReadProg(tprogs, temp, src))
    && (!stale ==> ProgAt(progs1, p1, s, ReadProg(tprogs, temp, src), ts, true))
    && (stale <==> LostInProg(p1, s))
    && (stale ==> |p1| > |p0| && |Free(p0)| < ProgSize(ReadProg(tprogs, temp, src)))
    && (|p1| > |p0| ==> |Free(p0)| <= ProgSize(ReadProg(tprogs, temp, src)))
    && src < |tprogs| && Outline(progs1, p1, s, temp, tprogs[src].body, ts)
  }

  ghost predicate LostInProg(p1: seq<Pid>, s: ProgShape) {
    AnyLost(p1, s.pcr) || AnyLost(p1, s.es) || AnyLost(p1, s.ps)
  }

  /**
    Lost head or not: the copied program leads to its elementary streams, these are those of the
    source but for their ECM heads, and there are as many slots of each kind as in the source.
   */
  ghost predicate Outline(progs1: seq<Prog>, p1: seq<Pid>, s: ProgShape, temp: seq<Pid>, t: ProgRec, ts: nat) {
    && s.slot < |progs1| && progs1[s.slot].body.esNum == |s.es| == t.esNum && |s.ps| == t.psNum
    && |s.pcr| == (if t.pcr == INDEX_INVALID then 0 else 1)
    && (s.pcr != [] ==> t.pcr < |temp| && |s.pcr[0].ecms| == |ReadPid(temp, t.pcr).ecms|)
    && (s.es != [] ==> progs1[s.slot].body.esHead == s.es[0].slot)
    && Roots(p1, s.es, temp, Path(temp, t.esHead, t.esNum), ts, s.slot)
  }

  /** The pool after each phase of the copy. */
  datatype Phases = Phases(start: seq<Pid>, reserved: seq<Pid>, pcr: seq<Pid>, es: seq<Pid>, ps: seq<Pid>)

  ghost predicate PcrPhase(start: seq<Pid>, reserved: seq<Pid>, done: seq<Pid>, list: seq<nat>, rest: seq<nat>,
                           pcrs: seq<PidShape>, lost: bool, temp: seq<Pid>, pcr: nat, ts: nat, dst: nat)
  {
    && |list| > 0 && Held(start, reserved, {}, list) && (|Free(start)| >= |list| ==> |reserved| == |start|)
    && |reserved| <= |done| && Held(start, done, SlotsOf(pcrs), rest)
    && (if pcr == INDEX_INVALID then pcrs == [] && rest == list[..|list| - 1] && !lost
        else rest == list[1..] && PcrCopied(done, pcrs, list[0], ts, dst, temp, pcr, lost))
    && (|done| > |reserved| ==> |Free(reserved)| < EcmCount(pcrs))
    && (lost ==> |done| > |reserved|)
  }

  /** The size of the optional PCR. */
  lemma SizeOfPcr(h: Phases, list: seq<nat>, rest: seq<nat>, pcrs: seq<PidShape>, lost: bool,
                  temp: seq<Pid>, pcr: nat, ts: nat, dst: nat)
    requires PcrPhase(h.start, h.reserved, h.pcr, list, rest, pcrs, lost, temp, pcr, ts, dst)
    ensures Apart(pcrs)
    ensures PidsSize(if pcr == INDEX_INVALID then [] else [ReadPid(temp, pcr)]) == |pcrs| + EcmCount(pcrs)
    ensures |SlotsOf(pcrs)| <= |pcrs| + EcmCount(pcrs)
  {
    hide Held, PidAt;
    SlotCount(pcrs);
    if pcr != INDEX_INVALID {
      SizeOfOne(ReadPid(temp, pcr), pcrs);
    }
  }

  lemma SizeOfOne(t: PidTree, ss: seq<PidShape>)
    requires |ss| == 1
    ensures PidsSize([t]) == 1 + (if t.PidNode? then |t.ecms| else 0)
    ensures EcmCount(ss) == |ss[0].ecms|
  {
    var ts := [t];
    assert ts[..|ts| - 1] == [] && ss[..|ss| - 1] == [];
  }

  lemma HeldAfterCopy(p0: seq<Pid>, p1: seq<Pid>, used: set<nat>, rest: seq<nat>, p2: seq<Pid>, n: nat,
                      ss: seq<PidShape>, lost: bool, temp: seq<Pid>, head: nat, ts: nat, prog: nat)
    requires Held(p0, p1, used, rest) && n <= |rest|
    requires ChainCopied(p1, p2, rest[..n], ss, lost, temp, head, ts, prog)
    ensures Held(p0, p2, used + SlotsOf(ss), rest[n..]) && used !! SlotsOf(ss) && Apart(ss)
    ensures |p1| <= |p2| && forall e :: e in used ==> e < |p1| && p2[e] == p1[e]
  {
    hide Held;
    HeldAfterChain(p0, p1, used, rest, p2, n, ss);
  }

  lemma HeldDone(p0: seq<Pid>, p1: seq<Pid>, used: set<nat>)
    requires Held(p0, p1, used, [])
    ensures NewlyTaken(p0, p1, used)
  {
    assert used + Elements([]) == used;
  }

  /** Slot bookkeeping up to the elementary streams. */
  lemma EsPhaseTaken(h: Phases, list: seq<nat>, rest: seq<nat>, pcrs: seq<PidShape>, lost: bool,
                     es: seq<PidShape>, lostEs: bool, temp: seq<Pid>, t: ProgRec, ts: nat, dst: nat)
    requires PcrPhase(h.start, h.reserved, h.pcr, list, rest, pcrs, lost, temp, t.pcr, ts, dst) && t.esNum <= |rest|
    requires ChainCopied(h.pcr, h.es, rest[..t.esNum], es, lostEs, temp, t.esHead, ts, dst)
    ensures Held(h.start, h.es, SlotsOf(pcrs) + SlotsOf(es), rest[t.esNum..])
    ensures Apart(pcrs) && Apart(es) && SlotsOf(pcrs) !! SlotsOf(es)
    ensures Keeps(h.pcr, h.es, SlotsOf(pcrs)) && |h.start| <= |h.reserved| <= |h.pcr|
  {
    hide Held, ChainCopied, PcrCopied, SlotsOf, Apart, EcmCount, PidsSize, ReadPid;
    SizeOfPcr(h, list, rest, pcrs, lost, temp, t.pcr, ts, dst);
    HeldGrows(h.start, h.reserved, {}, list);
    HeldAfterCopy(h.start, h.pcr, SlotsOf(pcrs), rest, h.es, t.esNum, es, lostEs, temp, t.esHead, ts, dst);
  }

  /** Slot bookkeeping of the last phase. */
  lemma PsPhaseTaken(start: seq<Pid>, p1: seq<Pid>, used: set<nat>, tail: seq<nat>, p2: seq<Pid>,
                     ps: seq<PidShape>, lostPs: bool, temp: seq<Pid>, head: nat, ts: nat, dst: nat)
    requires Held(start, p1, used, tail)
    requires ChainCopied(p1, p2, tail, ps, lostPs, temp, head, ts, dst)
    ensures NewlyTaken(start, p2, used + SlotsOf(ps)) && used !! SlotsOf(ps) && Apart(ps)
    ensures Keeps(p1, p2, used)
  {
    hide Held, ChainCopied, NewlyTaken;
    assert tail[..|tail|] == tail && tail[|tail|..] == [];
    HeldAfterCopy(start, p1, used, tail, p2, |tail|, ps, lostPs, temp, head, ts, dst);
    HeldDone(start, p2, used + SlotsOf(ps));
  }

  lemma HeldGrows(p0: seq<Pid>, p1: seq<Pid>, used: set<nat>, rest: seq<nat>)
    requires Held(p0, p1, used, rest)
    ensures |p0| <= |p1|
  {
  }

  /** The copied program stands for the source program when no ECM head was lost. */
  lemma ProgInPlace(h: Phases, list: seq<nat>, rest: seq<nat>, pcrs: seq<PidShape>, es: seq<PidShape>,
                    ps: seq<PidShape>, temp: seq<Pid>, t: Prog, progs: seq<Prog>, ts: nat, dst: nat)
    requires PcrPhase(h.start, h.reserved, h.pcr, list, rest, pcrs, false, temp, t.body.pcr, ts, dst)
    requires t.body.esNum + t.body.psNum == |rest| && |h.ps| <= INDEX_INVALID
    requires ChainCopied(h.pcr, h.es, rest[..t.body.esNum], es, false, temp, t.body.esHead, ts, dst)
    requires ChainCopied(h.es, h.ps, rest[t.body.esNum..], ps, false, temp, t.body.psHead, ts, dst)
    requires Keeps(h.pcr, h.ps, SlotsOf(pcrs)) && Keeps(h.es, h.ps, SlotsOf(es))
    requires dst < |progs| && t.valid
    requires progs[dst].valid && progs[dst].index == dst
    requires progs[dst].body == LinkedProg(t.body, ts, list, rest)
    ensures ProgAt(progs, h.ps, ProgShape(dst, pcrs, es, ps),
                   ProgNode(t.body.data,
                            if t.body.pcr == INDEX_INVALID then [] else [ReadPid(temp, t.body.pcr)],
                            ReadPids(temp, t.body.esHead, t.body.esNum),
                            ReadPids(temp, t.body.psHead, t.body.psNum)), ts, true)
  {
    hide ChainCopied, Held, PidAt, PidsAt, ReadPid, SlotsOf;
    var b := progs[dst].body;
    ChainInPlace(h.pcr, h.es, rest[..t.body.esNum], es, temp, t.body.esHead, ts, dst, b.esHead);
    ChainInPlace(h.es, h.ps, rest[t.body.esNum..], ps, temp, t.body.psHead, ts, dst, b.psHead);
    PidsAtStable(h.es, h.ps, b.esHead, es, ReadPids(temp, t.body.esHead, t.body.esNum), ts, dst, true);
    if t.body.pcr != INDEX_INVALID {
      PcrStable(h.pcr, h.ps, pcrs, ReadPid(temp, t.body.pcr), ts, dst, INDEX_INVALID);
    }
  }

  /** The links of the copied program. */
  function LinkedProg(t: ProgRec, ts: nat, list: seq<nat>, rest: seq<nat>): ProgRec
    requires list != [] && t.esNum + t.psNum == |rest|
  {
    t.(ts := ts,
       pcr := if t.pcr == INDEX_INVALID then INDEX_INVALID else list[0],
       esHead := if t.esNum > 0 then rest[0] else t.esHead,
       psHead := if t.psNum > 0 then rest[t.esNum] else t.psHead)
  }

  lemma HeldReserved(p0: seq<Pid>, p1: seq<Pid>, used: set<nat>, rest: seq<nat>, n: nat)
    requires Held(p0, p1, used, rest) && n <= |rest|
    ensures Reserved(p1, rest) && Reserved(p1, rest[..n]) && Reserved(p1, rest[n..]) && NoDup(rest[..n])
    ensures NoDup(rest[n..])
  {
    assert forall i :: 0 <= i < |rest| ==> rest[i] in Elements(rest);
  }

  /** A chain copied into reserved slots makes the pool grow only when its ECMs do not fit. */
  lemma ChainGrowth(p0: seq<Pid>, p1: seq<Pid>, used: set<nat>, rest: seq<nat>, n: nat, list: seq<nat>, p2: seq<Pid>,
                    ss: seq<PidShape>, lost: bool, temp: seq<Pid>, head: nat, ts: nat, prog: nat)
    requires Held(p0, p1, used, rest) && n <= |rest| && (list == rest[..n] || list == rest[n..])
    requires ChainCopied(p1, p2, list, ss, lost, temp, head, ts, prog)
    ensures |p0| <= |p1| <= |p2| && (lost ==> |p2| > |p1| && EcmCount(ss) > 0)
    ensures |p1| == |p0| && |p2| > |p1| ==> |Free(p0)| < EcmCount(ss) + |used| + |rest|
  {
    hide Taken, Siblings, SameSizes, ChainTrees, PidAt, Apart;
    HeldReserved(p0, p1, used, rest, n);
    if |p1| == |p0| {
      FreeWhileHeld(p0, p1, used, rest, |used| + |rest|);
    }
  }

  lemma PcrGrowth(h: Phases, list: seq<nat>, rest: seq<nat>, pcrs: seq<PidShape>, lost: bool,
                  temp: seq<Pid>, pcr: nat, ts: nat, dst: nat)
    requires PcrPhase(h.start, h.reserved, h.pcr, list, rest, pcrs, lost, temp, pcr, ts, dst)
    ensures |h.start| <= |h.reserved| <= |h.pcr| && (lost ==> |h.pcr| > |h.start| && EcmCount(pcrs) > 0)
    ensures |h.pcr| > |h.start| ==> |Free(h.start)| < EcmCount(pcrs) + |list|
    ensures |list| <= |pcrs| + |rest| + 1 && (pcr != INDEX_INVALID ==> |list| == |pcrs| + |rest|)
    ensures pcr == INDEX_INVALID ==> |list| == |rest| + 1 && pcrs == [] && !lost
  {
    hide PcrCopied, Apart, PidAt, ReadPid;
    PcrCount(h, list, rest, pcrs, lost, temp, pcr, ts, dst);
    HeldGrows(h.start, h.reserved, {}, list);
    if |h.reserved| == |h.start| {
      FreeWhileHeld(h.start, h.reserved, {}, list, |list|);
    }
  }

  lemma PcrCount(h: Phases, list: seq<nat>, rest: seq<nat>, pcrs: seq<PidShape>, lost: bool,
                 temp: seq<Pid>, pcr: nat, ts: nat, dst: nat)
    requires PcrPhase(h.start, h.reserved, h.pcr, list, rest, pcrs, lost, temp, pcr, ts, dst)
    ensures |pcrs| == if pcr == INDEX_INVALID then 0 else 1
  {
  }

  /** Number of nodes below a program. */
  function ChildrenSize(temp: seq<Pid>, t: ProgRec): nat {
    PidsSize(if t.pcr == INDEX_INVALID then [] else [ReadPid(temp, t.pcr)])
    + PidsSize(ReadPids(temp, t.esHead, t.esNum)) + PidsSize(ReadPids(temp, t.psHead, t.psNum))
  }

  /** The pool grows during the copy only when the whole program did not fit, and a head is lost only then. */
  lemma ProgGrowth(h: Phases, list: seq<nat>, rest: seq<nat>, pcrs: seq<PidShape>, lost: bool,
                   es: seq<PidShape>, lostEs: bool, ps: seq<PidShape>, lostPs: bool,
                   temp: seq<Pid>, t: ProgRec, ts: nat, dst: nat)
    requires PcrPhase(h.start, h.reserved, h.pcr, list, rest, pcrs, lost, temp, t.pcr, ts, dst)
    requires t.esNum + t.psNum == |rest|
    requires ChainCopied(h.pcr, h.es, rest[..t.esNum], es, lostEs, temp, t.esHead, ts, dst)
    requires ChainCopied(h.es, h.ps, rest[t.esNum..], ps, lostPs, temp, t.psHead, ts, dst)
    requires Held(h.start, h.es, SlotsOf(pcrs) + SlotsOf(es), rest[t.esNum..])
    ensures lost || lostEs || lostPs ==> |h.ps| > |h.start| && |Free(h.start)| < ChildrenSize(temp, t)
    ensures |h.ps| > |h.start| ==> |Free(h.start)| <= ChildrenSize(temp, t)
    ensures |SlotsOf(pcrs) + SlotsOf(es) + SlotsOf(ps)| <= ChildrenSize(temp, t)
  {
    hide PcrPhase, Held, ChainCopied, PcrCopied, SlotsOf, EcmCount, PidsSize, ReadPid, Apart;
    SizeOfPcr(h, list, rest, pcrs, lost, temp, t.pcr, ts, dst);
    PcrGrowth(h, list, rest, pcrs, lost, temp, t.pcr, ts, dst);
    PcrHeld(h, list, rest, pcrs, lost, temp, t.pcr, ts, dst);
    SizeOfCopy(h.pcr, h.es, rest[..t.esNum], es, lostEs, temp, t.esHead, ts, dst);
    SizeOfCopy(h.es, h.ps, rest[t.esNum..], ps, lostPs, temp, t.psHead, ts, dst);
    ChainGrowth(h.start, h.pcr, SlotsOf(pcrs), rest, t.esNum, rest[..t.esNum], h.es, es, lostEs, temp, t.esHead, ts,
                dst);
    var tail := rest[t.esNum..];
    assert tail[0..] == tail;
    ChainGrowth(h.start, h.es, SlotsOf(pcrs) + SlotsOf(es), tail, 0, tail, h.ps, ps, lostPs, temp, t.psHead, ts, dst);
    UnionSize(SlotsOf(pcrs), SlotsOf(es));
    UnionSize(SlotsOf(pcrs) + SlotsOf(es), SlotsOf(ps));
    ChainLength(h.pcr, h.es, rest[..t.esNum], es, lostEs, temp, t.esHead, ts, dst);
    ChainLength(h.es, h.ps, rest[t.esNum..], ps, lostPs, temp, t.psHead, ts, dst);
  }

  lemma ChainLength(p0: seq<Pid>, p1: seq<Pid>, list: seq<nat>, ss: seq<PidShape>, stale: bool,
                    temp: seq<Pid>, head: nat, ts: nat, prog: nat)
    requires ChainCopied(p0, p1, list, ss, stale, temp, head, ts, prog)
    ensures |ss| == |list|
  {
  }

  lemma UnionSize(a: set<nat>, b: set<nat>)
    ensures |a + b| <= |a| + |b|
  {
  }

  lemma PcrHeld(h: Phases, list: seq<nat>, rest: seq<nat>, pcrs: seq<PidShape>, lost: bool,
                temp: seq<Pid>, pcr: nat, ts: nat, dst: nat)
    requires PcrPhase(h.start, h.reserved, h.pcr, list, rest, pcrs, lost, temp, pcr, ts, dst)
    ensures Held(h.start, h.pcr, SlotsOf(pcrs), rest)
  {
  }

  /** Everything the phases have established, put together. */
  lemma ProgDone(h: Phases, list: seq<nat>, rest: seq<nat>, pcrs: seq<PidShape>, lost: bool,
                 es: seq<PidShape>, lostEs: bool, ps: seq<PidShape>, lostPs: bool,
                 temp: seq<Pid>, tprogs: seq<Prog>, src: nat, progs: seq<Prog>, ts: nat, dst: nat)
    requires src < |tprogs| && tprogs[src].valid && dst < |progs| && |h.ps| <= INDEX_INVALID
    requires PcrPhase(h.start, h.reserved, h.pcr, list, rest, pcrs, lost, temp, tprogs[src].body.pcr, ts, dst)
    requires tprogs[src].body.esNum + tprogs[src].body.psNum == |rest|
    requires ChainCopied(h.pcr, h.es, rest[..tprogs[src].body.esNum], es, lostEs, temp, tprogs[src].body.esHead, ts,
                         dst)
    requires ChainCopied(h.es, h.ps, rest[tprogs[src].body.esNum..], ps, lostPs, temp, tprogs[src].body.psHead, ts, dst)
    requires progs[dst].valid && progs[dst].index == dst
    requires list != [] && progs[dst].body == LinkedProg(tprogs[src].body, ts, list, rest)
    ensures ProgCopied(progs, h.start, h.ps, ProgShape(dst, pcrs, es, ps), lost || lostEs || lostPs, dst, tprogs, temp,
                       src, ts)
  {
    hide PcrPhase, ChainCopied, Held, NewlyTaken, PcrCopied, SlotsOf, EcmCount, PidsSize, ReadPid, Apart, PidAt,
      PidsAt, ProgAt,
      LostInProg, Outline, Roots, LinkedProg;
    var t := tprogs[src].body;
    EsPhaseTaken(h, list, rest, pcrs, lost, es, lostEs, temp, t, ts, dst);
    PsPhaseTaken(h.start, h.es, SlotsOf(pcrs) + SlotsOf(es), rest[t.esNum..], h.ps, ps, lostPs, temp, t.psHead, ts,
                 dst);
    ProgGrowth(h, list, rest, pcrs, lost, es, lostEs, ps, lostPs, temp, t, ts, dst);
    KeepsTrans(h.pcr, h.es, h.ps, SlotsOf(pcrs), SlotsOf(es));
    LostDone(h, list, rest, pcrs, lost, es, lostEs, ps, lostPs, temp, t, ts, dst, progs);
    if !lost && !lostEs && !lostPs {
      ProgInPlace(h, list, rest, pcrs, es, ps, temp, tprogs[src], progs, ts, dst);
    }
  }

  lemma LostInPcr(h: Phases, list: seq<nat>, rest: seq<nat>, pcrs: seq<PidShape>, lost: bool,
                  temp: seq<Pid>, pcr: nat, ts: nat, dst: nat)
    requires PcrPhase(h.start, h.reserved, h.pcr, list, rest, pcrs, lost, temp, pcr, ts, dst)
    requires Keeps(h.pcr, h.ps, SlotsOf(pcrs))
    ensures lost <==> AnyLost(h.ps, pcrs)
  {
    hide Held;
    AnyLostStable(h.pcr, h.ps, pcrs);
  }

  /** Heads and roots, put together. */
  lemma {:induction false} LostDone(h: Phases, list: seq<nat>, rest: seq<nat>, pcrs: seq<PidShape>, lost: bool,
                                    es: seq<PidShape>, lostEs: bool, ps: seq<PidShape>, lostPs: bool,
                                    temp: seq<Pid>, t: ProgRec, ts: nat, dst: nat, progs: seq<Prog>)
    requires PcrPhase(h.start, h.reserved, h.pcr, list, rest, pcrs, lost, temp, t.pcr, ts, dst)
    requires t.esNum + t.psNum == |rest|
    requires ChainCopied(h.pcr, h.es, rest[..t.esNum], es, lostEs, temp, t.esHead, ts, dst)
    requires ChainCopied(h.es, h.ps, rest[t.esNum..], ps, lostPs, temp, t.psHead, ts, dst)
    requires Keeps(h.pcr, h.ps, SlotsOf(pcrs)) && Keeps(h.es, h.ps, SlotsOf(es))
    requires list != [] && dst < |progs| && progs[dst].body == LinkedProg(t, ts, list, rest)
    ensures lost || lostEs || lostPs <==> LostInProg(h.ps, ProgShape(dst, pcrs, es, ps))
    ensures Outline(progs, h.ps, ProgShape(dst, pcrs, es, ps), temp, t, ts)
  {
    hide PcrPhase, ChainCopied, AnyLost, Roots, SlotsOf;
    PcrOutline(h, list, rest, pcrs, lost, temp, t.pcr, ts, dst);
    FirstSlot(h.es, h.ps, rest[t.esNum..], ps, lostPs, temp, t.psHead, ts, dst);
    LostInPcr(h, list, rest, pcrs, lost, temp, t.pcr, ts, dst);
    LostInChain(h.pcr, h.es, rest[..t.esNum], es, lostEs, temp, t.esHead, ts, dst, h.ps);
    LostInChain(h.es, h.ps, rest[t.esNum..], ps, lostPs, temp, t.psHead, ts, dst, h.ps);
    FirstSlot(h.pcr, h.es, rest[..t.esNum], es, lostEs, temp, t.esHead, ts, dst);
  }

  /** What the copy of a chain says of heads and roots, later on. */
  lemma LostInChain(p0: seq<Pid>, p1: seq<Pid>, list: seq<nat>, ss: seq<PidShape>, stale: bool,
                    temp: seq<Pid>, head: nat, ts: nat, prog: nat, p2: seq<Pid>)
    requires ChainCopied(p0, p1, list, ss, stale, temp, head, ts, prog)
    requires p2 == p1 || Keeps(p1, p2, SlotsOf(ss))
    ensures stale <==> AnyLost(p2, ss)
    ensures Roots(p2, ss, temp, Path(temp, head, |list|), ts, prog)
  {
    hide Taken, Growth, Siblings, ChainTrees, SameSizes, SlotsOf, AnyLost;
    if p2 == p1 {
      return;
    }
    AnyLostStable(p1, p2, ss);
    forall j | 0 <= j < |ss| ensures RootAt(p2, ss[j], temp[Path(temp, head, |list|)[j]], ts, prog) {
      SlotsOfHas(ss, j);
      SlotOfShape(ss[j]);
    }
  }

  lemma PcrOutline(h: Phases, list: seq<nat>, rest: seq<nat>, pcrs: seq<PidShape>, lost: bool,
                   temp: seq<Pid>, pcr: nat, ts: nat, dst: nat)
    requires PcrPhase(h.start, h.reserved, h.pcr, list, rest, pcrs, lost, temp, pcr, ts, dst)
    ensures |pcrs| == (if pcr == INDEX_INVALID then 0 else 1)
    ensures pcrs != [] ==> pcr < |temp| && |pcrs[0].ecms| == |ReadPid(temp, pcr).ecms|
  {
    hide Held, PidAt, ReadPid, AnyLost;
  }

  lemma FirstSlot(p0: seq<Pid>, p1: seq<Pid>, list: seq<nat>, ss: seq<PidShape>, stale: bool,
                  temp: seq<Pid>, head: nat, ts: nat, prog: nat)
    requires ChainCopied(p0, p1, list, ss, stale, temp, head, ts, prog)
    ensures |ss| == |list| && (ss != [] ==> ss[0].slot == list[0])
  {
  }

  lemma KeepsTrans(p0: seq<Pid>, p1: seq<Pid>, p2: seq<Pid>, a: set<nat>, b: set<nat>)
    requires Keeps(p0, p1, a) && Keeps(p1, p2, a + b)
    ensures Keeps(p0, p2, a) && Keeps(p1, p2, b)
  {
  }

  /**
    Copies everything below a program, and returns the program's record with its links set
    (the source sets each link just before the copy it leads to).
   */
  method CopyChildren(live: TsInfo, ts: nat, dst: nat, temp: TsInfo, t: ProgRec)
    returns (code: Code, linked: ProgRec, ghost c: Children)
    requires live != temp && live.Valid() && temp.Valid() && EcmsAreLeaves(temp.pids)
    requires t.esNum <= 0xFF && t.psNum <= 0xFF
    modifies live`pids, live`pidBlock
    ensures live.Valid()
    ensures ts < |live.streams| ==>
              (code == Success <==> ProgOk(Flags(old(live.pids)), temp.pids, t, live.realloc))
    ensures code == Success ==>
              && c.h.start == old(live.pids) && c.h.ps == live.pids && ChildrenCopied(c, temp.pids, t, ts, dst, linked)
              && ProgAlloc(Alloc(Flags(old(live.pids)), false), temp.pids, t, live.realloc)
                 == Alloc(Flags(live.pids), c.lost || c.lostEs || c.lostPs)
  {
    hide ProgOk, PcrOk, ChainOk, Granted;
    hide PcrAllocated, ChainAllocated, Requested, ProgAlloc, LinkedProg, Free, Flags, Path, NoEs, Apart, Keeps;
    hide PcrPhase, ChainCopied, Held, PcrCopied, EcmsAreLeaves, ChildrenCopied, Reserved, SlotsOf;
    linked := t.(ts := ts);
    ghost var start, tp := live.pids, temp.pids;
    c := Children(Phases([], [], [], [], []), [], [], [], [], [], false, false, false);
    var total := (1 + t.esNum + t.psNum) % 0x1_0000;
    var list;
    code, list := ReservePids(live, total);
    GrantedFirst(start, tp, t, live.realloc);
    if code != Success {
      return;
    }
    ghost var reserved := live.pids;

    var first := if t.pcr != INDEX_INVALID then 1 else 0;
    var rest := list[first..first + t.esNum + t.psNum];
    ghost var pcrs, lost;
    code, pcrs, lost := CopyPcr(live, start, ts, dst, list, rest, temp, t.pcr);
    PcrSecond(start, reserved, list, tp, t, live.realloc);
    if code != Success {
      return;
    }
    ghost var h := Phases(start, reserved, live.pids, live.pids, live.pids);
    PcrHeld(h, list, rest, pcrs, lost, tp, t.pcr, ts, dst);
    HeldReserved(start, live.pids, SlotsOf(pcrs), rest, t.esNum);

    ghost var es, lostEs;
    code, es, lostEs := CopyChain(live, ts, dst, rest[..t.esNum], temp, t.esHead);
    EsThird(start, reserved, h.pcr, list, lost, tp, t, live.realloc);
    if code != Success {
      return;
    }
    h := h.(es := live.pids);
    EsPhaseTaken(h, list, rest, pcrs, lost, es, lostEs, tp, t, ts, dst);
    HeldReserved(start, live.pids, SlotsOf(pcrs) + SlotsOf(es), rest[t.esNum..], 0);

    ghost var ps, lostPs;
    code, ps, lostPs := CopyChain(live, ts, dst, rest[t.esNum..], temp, t.psHead);
    c := Children(h.(ps := live.pids), list, rest, pcrs, es, ps, lost, lostEs, lostPs);
    linked := LinkedProg(t, ts, list, rest);
    if ts < |live.streams| {
      PsLast(start, reserved, h.pcr, h.es, list, rest, lost, lostEs, tp, t, live.realloc);
    }
    if code == Success {
      ChildrenDone(c, tp, t, ts, dst, linked);
      ChildrenAllocated(c, tp, t, live.realloc);
    }
  }

  // whether the program can be copied is found out phase by phase

  lemma {:induction false} GrantedFirst(start: seq<Pid>, temp: seq<Pid>, t: ProgRec, realloc: nat -> Realloc)
    ensures ProgOk(Flags(start), temp, t, realloc) ==> Granted(start, 1 + t.esNum + t.psNum, PIDS_PER_GROWTH, realloc)
  {
    hide Granted, ChainOk, EcmOk, Flags, Path, ChainAlloc, Filled, Chosen;
    GrantedOfFlags(start, 1 + t.esNum + t.psNum, PIDS_PER_GROWTH, realloc);
  }

  lemma {:induction false} PcrSecond(start: seq<Pid>, reserved: seq<Pid>, list: seq<nat>, temp: seq<Pid>, t: ProgRec,
                                     realloc: nat -> Realloc)
    requires Requested(start, reserved, 1 + t.esNum + t.psNum, list)
    ensures ProgOk(Flags(start), temp, t, realloc) ==> PcrOk(Flags(reserved), temp, t.pcr, realloc)
  {
    hide Granted, ChainOk, EcmOk, Flags, Path, ChainAlloc, Filled, Chosen;
  }

  lemma {:induction false} EsThird(start: seq<Pid>, reserved: seq<Pid>, p1: seq<Pid>, list: seq<nat>, lost: bool,
                                   temp: seq<Pid>, t: ProgRec, realloc: nat -> Realloc)
    requires Requested(start, reserved, 1 + t.esNum + t.psNum, list)
    requires PcrAllocated(reserved, p1, list, lost, temp, t.pcr, realloc)
    ensures ProgOk(Flags(start), temp, t, realloc) ==> ChainOk(Flags(p1), temp, Path(temp, t.esHead, t.esNum), realloc)
  {
    hide Granted, ChainOk, EcmOk, PcrAlloc, Flags, Path, ChainAlloc, Filled, Chosen;
  }

  lemma {:induction false} PsLast(start: seq<Pid>, reserved: seq<Pid>, p1: seq<Pid>, p2: seq<Pid>, list: seq<nat>,
                                  rest: seq<nat>,
                                  lost: bool, lostEs: bool, temp: seq<Pid>, t: ProgRec, realloc: nat -> Realloc)
    requires t.esNum + t.psNum == |rest| && Requested(start, reserved, 1 + t.esNum + t.psNum, list)
    requires PcrAllocated(reserved, p1, list, lost, temp, t.pcr, realloc)
    requires Reserved(p1, rest[..t.esNum])
    requires ChainAllocated(p1, p2, rest[..t.esNum], lostEs, temp, Path(temp, t.esHead, t.esNum), realloc)
    requires Granted(start, 1 + t.esNum + t.psNum, PIDS_PER_GROWTH, realloc)
    requires PcrOk(Flags(reserved), temp, t.pcr, realloc)
    requires ChainOk(Flags(p1), temp, Path(temp, t.esHead, t.esNum), realloc)
    ensures ProgOk(Flags(start), temp, t, realloc) <==> ChainOk(Flags(p2), temp, Path(temp, t.psHead, t.psNum), realloc)
  {
    hide Granted, ChainOk, EcmOk, PcrAlloc, ChainAlloc, Path, Flags, Reserved, Filled, Chosen;
    GrantedOfFlags(start, 1 + t.esNum + t.psNum, PIDS_PER_GROWTH, realloc);
    ChainAllocAdds(Alloc(Flags(p1), lost), temp, Path(temp, t.esHead, t.esNum), realloc);
  }

  /** The requests of the phases, one after the other. */
  lemma {:induction false} ChildrenAllocated(c: Children, temp: seq<Pid>, t: ProgRec, realloc: nat -> Realloc)
    requires Requested(c.h.start, c.h.reserved, 1 + t.esNum + t.psNum, c.list) && t.esNum + t.psNum == |c.rest|
    requires PcrAllocated(c.h.reserved, c.h.pcr, c.list, c.lost, temp, t.pcr, realloc)
    requires Reserved(c.h.pcr, c.rest[..t.esNum]) && Reserved(c.h.es, c.rest[t.esNum..])
    requires ChainAllocated(c.h.pcr, c.h.es, c.rest[..t.esNum], c.lostEs, temp, Path(temp, t.esHead, t.esNum), realloc)
    requires ChainAllocated(c.h.es, c.h.ps, c.rest[t.esNum..], c.lostPs, temp, Path(temp, t.psHead, t.psNum), realloc)
    ensures ProgAlloc(Alloc(Flags(c.h.start), false), temp, t, realloc)
         == Alloc(Flags(c.h.ps), c.lost || c.lostEs || c.lostPs)
  {
    hide PcrAlloc, ChainAlloc, Chosen, Filled, Path, Flags, Reserved;
    ChainAllocAdds(Alloc(Flags(c.h.pcr), c.lost), temp, Path(temp, t.esHead, t.esNum), realloc);
    ChainAllocAdds(Alloc(Flags(c.h.es), c.lost || c.lostEs), temp, Path(temp, t.psHead, t.psNum), realloc);
  }

  datatype Children = Children(h: Phases, list: seq<nat>, rest: seq<nat>, pcrs: seq<PidShape>, es: seq<PidShape>,
                               ps: seq<PidShape>, lost: bool, lostEs: bool, lostPs: bool)

  ghost predicate ChildrenCopied(c: Children, temp: seq<Pid>, t: ProgRec, ts: nat, dst: nat, linked: ProgRec) {
    && PcrPhase(c.h.start, c.h.reserved, c.h.pcr, c.list, c.rest, c.pcrs, c.lost, temp, t.pcr, ts, dst)
    && t.esNum + t.psNum == |c.rest| && c.list != []
    && ChainCopied(c.h.pcr, c.h.es, c.rest[..t.esNum], c.es, c.lostEs, temp, t.esHead, ts, dst)
    && ChainCopied(c.h.es, c.h.ps, c.rest[t.esNum..], c.ps, c.lostPs, temp, t.psHead, ts, dst)
    && linked == LinkedProg(t, ts, c.list, c.rest)
  }

  lemma ChildrenDone(c: Children, temp: seq<Pid>, t: ProgRec, ts: nat, dst: nat, linked: ProgRec)
    requires PcrPhase(c.h.start, c.h.reserved, c.h.pcr, c.list, c.rest, c.pcrs, c.lost, temp, t.pcr, ts, dst)
    requires t.esNum + t.psNum == |c.rest| && c.list != []
    requires ChainCopied(c.h.pcr, c.h.es, c.rest[..t.esNum], c.es, c.lostEs, temp, t.esHead, ts, dst)
    requires ChainCopied(c.h.es, c.h.ps, c.rest[t.esNum..], c.ps, c.lostPs, temp, t.psHead, ts, dst)
    requires linked == LinkedProg(t, ts, c.list, c.rest)
    ensures ChildrenCopied(c, temp, t, ts, dst, linked)
  {
  }

  method CopyProg(live: TsInfo, ts: nat, dst: nat, temp: TsInfo, src: nat)
    returns (code: Code, ghost s: ProgShape, ghost stale: bool)
    requires live != temp && live.Valid() && temp.Valid() && EcmsAreLeaves(temp.pids) && SourceProg(temp.progs, src)
    modifies live`progs, live`pids, live`pidBlock
    ensures live.Valid()
    ensures code == Success <==>
              && ts < |live.streams| && dst < |old(live.progs)| && src < |temp.progs|
              && ProgOk(Flags(old(live.pids)), temp.pids, temp.progs[src].body, live.realloc)
    ensures code == Success ==>
              && |live.progs| == |old(live.progs)| && live.progs[dst].valid
              && live.progs == old(live.progs)[dst := live.progs[dst]]
              && ProgCopied(live.progs, old(live.pids), live.pids, s, stale, dst, temp.progs, temp.pids, src, ts)
              && ProgAlloc(Alloc(Flags(old(live.pids)), false), temp.pids, temp.progs[src].body, live.realloc)
                 == Alloc(Flags(live.pids), stale)
  {
    hide ProgAlloc, ProgOk;
    hide PcrPhase, ChainCopied, ProgCopied, EcmsAreLeaves;
    s, stale := ProgShape(dst, [], [], []), false;
    if |live.streams| <= ts || |live.progs| <= dst || |temp.progs| <= src {
      return InputParam, s, stale;
    }
    ghost var start := live.pids;
    var t := temp.progs[src];
    live.progs := live.progs[dst := t.(index := dst, body := t.body.(ts := ts))];
    var linked;
    ghost var c;
    code, linked, c := CopyChildren(live, ts, dst, temp, t.body);
    if code == Success {
      live.progs := live.progs[dst := live.progs[dst].(body := linked)];
      s, stale := ProgShape(dst, c.pcrs, c.es, c.ps), c.lost || c.lostEs || c.lostPs;
      ProgDone(c.h, c.list, c.rest, c.pcrs, c.lost, c.es, c.lostEs, c.ps, c.lostPs,
               temp.pids, temp.progs, src, live.progs, ts, dst);
    }
  }
}
