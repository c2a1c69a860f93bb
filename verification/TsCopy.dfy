/**
  Deep copy of a scanned stream from a temporary pool into the live pool
  (TSP_CopyInputPID, TSP_CopyInputProg, TSP_CopyInputTS).
 */
module TsCopy {
  import opened TsPool
  import opened TsTree
  import opened TsAlloc

  /** The copied slot: same contents and links, new identity and owners. */
  function CopiedPid(src: Pid, dst: nat, ts: nat, prog: nat, parent: nat): Pid {
    Slot(true, dst, src.next, src.body.(ts := ts, prog := prog, parent := parent))
  }

  /** The source slots of the ECMs below slot k. */
  ghost function EcmPath(pids: seq<Pid>, k: nat): seq<nat>
    requires k < |pids|
  {
    Path(pids, pids[k].body.ecmHead, pids[k].body.ecmNum)
  }

  /** In the source pool no ECM chain leads to another elementary stream. */
  ghost predicate EcmsAreLeaves(pids: seq<Pid>) {
    forall k {:trigger EcmPath(pids, k)} :: 0 <= k < |pids| && pids[k].body.data.kind == EsPid ==>
      NoEs(pids, EcmPath(pids, k))
  }

  ghost predicate NoEs(pids: seq<Pid>, path: seq<nat>) {
    forall i :: 0 <= i < |path| && path[i] < |pids| ==> pids[path[i]].body.data.kind != EsPid
  }

  /** The pool after one growth. */
  ghost function Enlarged(pids: seq<Pid>): seq<Pid> {
    pids + seq(PIDS_PER_GROWTH, _ => ZERO_PID)
  }

  /**
    The ECM head of a copied elementary stream is lost: its ECMs do not fit, the growth moves the
    pool after the pointer to the copied slot was taken, and the head which that slot already
    holds is not by chance the first free slot.
   */
  ghost predicate LosesEcmHead(pids: seq<Pid>, realloc: nat -> Realloc, src: Pid) {
    && src.body.data.kind == EsPid && src.body.ecmNum > 0
    && |Free(pids)| < src.body.ecmNum
    && realloc(|pids|) == Moves
    && (|Free(Enlarged(pids))| > 0 ==> src.body.ecmHead != Free(Enlarged(pids))[0])
  }

  // ---------------------------------------------------------------- one PID

  /** What the loop over the ECMs has done to the pool after `done` rounds. */
  ghost predicate EcmsCopied(p0: seq<Pid>, p1: seq<Pid>, list: seq<nat>, done: nat, dst: nat, temp: seq<Pid>,
                             path: seq<nat>, ts: nat, prog: nat, parent: nat, stayed: bool)
  {
    && |p1| == |p0| && dst < |p0| && done <= |list| == |path|
    && p1[dst] == (if done > 0 && stayed then p0[dst].(body := p0[dst].body.(ecmHead := list[0])) else p0[dst])
    && (forall k :: 0 <= k < |p0| && k != dst && k !in Elements(list) ==> p1[k] == p0[k])
    && (forall j :: 0 <= j < done ==>
          && list[j] < |p1|
          && path[j] < |temp|
          && p1[list[j]] == CopiedPid(temp[path[j]], list[j], ts, prog, parent).(next := Follower(list, j)))
  }

  /** `at` is the source of the node copied in round i - 1. */
  ghost predicate AtRound(temp: seq<Pid>, path: seq<nat>, i: nat, at: nat) {
    0 < i <= |path| ==> at == path[i - 1] && at < |temp|
  }

  lemma EcmsSize(p0: seq<Pid>, p1: seq<Pid>, list: seq<nat>, done: nat, dst: nat, temp: seq<Pid>,
                 path: seq<nat>, ts: nat, prog: nat, parent: nat, stayed: bool)
    requires EcmsCopied(p0, p1, list, done, dst, temp, path, ts, prog, parent, stayed)
    ensures |p1| == |p0| && dst < |p0|
  {
  }

  lemma RoundStart(temp: seq<Pid>, path: seq<nat>, at: nat)
    ensures AtRound(temp, path, 0, at)
  {
  }

  lemma EcmsStart(p0: seq<Pid>, list: seq<nat>, dst: nat, temp: seq<Pid>,
                  path: seq<nat>, ts: nat, prog: nat, parent: nat, stayed: bool)
    requires dst < |p0| && |list| == |path|
    ensures EcmsCopied(p0, p0, list, 0, dst, temp, path, ts, prog, parent, stayed)
  {
  }

  lemma EcmsCopiedStep(p0: seq<Pid>, p1: seq<Pid>, list: seq<nat>, i: nat, dst: nat, temp: seq<Pid>,
                       path: seq<nat>, ts: nat, prog: nat, parent: nat, stayed: bool, p2: seq<Pid>, at: nat)
    requires NoDup(list) && dst !in Elements(list) && i < |list| && list[i] < |p0|
    requires EcmsCopied(p0, p1, list, i, dst, temp, path, ts, prog, parent, stayed)
    requires at == path[i] && at < |temp|
    requires var q := if i == 0 then HeadWritten(p1, dst, list[0], stayed) else p1;
             p2 == q[list[i] := CopiedPid(temp[at], list[i], ts, prog, parent).(next := Follower(list, i))]
    ensures EcmsCopied(p0, p2, list, i + 1, dst, temp, path, ts, prog, parent, stayed)
    ensures AtRound(temp, path, i + 1, at)
  {
    var q := if i == 0 then HeadWritten(p1, dst, list[0], stayed) else p1;
    assert list[i] in Elements(list);
    assert q[dst] == if stayed then p0[dst].(body := p0[dst].body.(ecmHead := list[0])) else p0[dst];
    forall j | 0 <= j < i + 1
      ensures list[j] < |p2| && path[j] < |temp|
      ensures p2[list[j]] == CopiedPid(temp[path[j]], list[j], ts, prog, parent).(next := Follower(list, j))
    {
      if j < i {
        assert list[j] in Elements(list) && p2[list[j]] == q[list[j]] == p1[list[j]];
      } else {
        assert j == i;
      }
    }
  }

  lemma PathLength(temp: seq<Pid>, src: nat)
    requires src < |temp|
    ensures |EcmPath(temp, src)| == temp[src].body.ecmNum
  {
  }

  /** The source of the i-th ECM, given the one before it. */
  lemma NextEcm(temp: seq<Pid>, src: nat, i: nat, last: nat)
    requires EcmsAreLeaves(temp) && src < |temp| && temp[src].body.data.kind == EsPid && i < temp[src].body.ecmNum
    requires AtRound(temp, EcmPath(temp, src), i, last)
    ensures |EcmPath(temp, src)| == temp[src].body.ecmNum && (i > 0 ==> last < |temp|)
    ensures var at := EcmPath(temp, src)[i];
            && at == (if i == 0 then temp[src].body.ecmHead else temp[last].next)
            && (at < |temp| ==> temp[at].body.data.kind != EsPid)
  {
    PathStep(temp, temp[src].body.ecmHead, temp[src].body.ecmNum, i);
    assert NoEs(temp, EcmPath(temp, src));
  }

  /** The ECM head is written through the pointer that was taken before the allocation. */
  ghost function HeadWritten(pids: seq<Pid>, dst: nat, head: nat, stayed: bool): (r: seq<Pid>)
    requires dst < |pids|
    ensures |r| == |pids|
  {
    if stayed then pids[dst := pids[dst].(body := pids[dst].body.(ecmHead := head))] else pids
  }

  method WriteHead(live: TsInfo, block: nat, dst: nat, head: nat)
    requires dst < |live.pids|
    modifies live`pids
    ensures live.pids == HeadWritten(old(live.pids), dst, head, live.pidBlock == block)
  {
    if live.pidBlock == block {
      live.pids := live.pids[dst := live.pids[dst].(body := live.pids[dst].body.(ecmHead := head))];
    }
  }

  /** CopyPid called for an ECM, which has nothing below it. */
  method CopyEcm(live: TsInfo, ts: nat, prog: nat, parent: nat, dst: nat, temp: TsInfo, src: nat) returns (code: Code)
    requires live != temp && live.Valid() && temp.Valid() && EcmsAreLeaves(temp.pids)
    requires src < |temp.pids| ==> temp.pids[src].body.data.kind != EsPid
    modifies live`pids, live`pidBlock
    ensures live.Valid()
    ensures code == Success <==> ts < |live.streams| && dst < |old(live.pids)| && src < |temp.pids|
    ensures code == Success ==>
              && live.pids == old(live.pids)[dst := CopiedPid(temp.pids[src], dst, ts, prog, parent)]
              && live.pidBlock == old(live.pidBlock)
    decreases 1
  {
    ghost var s, stale;
    code, s, stale := CopyPid(live, ts, prog, parent, dst, temp, src);
  }

  /** The loop over the ECMs of one elementary stream. */
  method CopyEcms(live: TsInfo, ts: nat, prog: nat, parent: nat, dst: nat, block: nat, list: seq<nat>,
                  temp: TsInfo, src: nat) returns (code: Code)
    requires live != temp && live.Valid() && temp.Valid() && EcmsAreLeaves(temp.pids)
    requires src < |temp.pids| && temp.pids[src].body.data.kind == EsPid && |list| == temp.pids[src].body.ecmNum
    requires dst < |live.pids| && dst !in Elements(list) && NoDup(list)
    requires forall i :: 0 <= i < |list| ==> list[i] < |live.pids|
    modifies live`pids, live`pidBlock
    ensures live.Valid()
    ensures ts < |live.streams| ==> (code == Success <==> InRange(temp.pids, EcmPath(temp.pids, src)))
    ensures code == Success ==>
              && live.pidBlock == old(live.pidBlock)
              && EcmsCopied(old(live.pids), live.pids, list, |list|, dst, temp.pids, EcmPath(temp.pids, src),
                            ts, prog, parent, live.pidBlock == block)
    decreases 2
  {
    hide EcmsCopied, HeadWritten, EcmsAreLeaves, AtRound, EcmPath;
    code := Success;
    ghost var tp := temp.pids;
    var head, n := temp.pids[src].body.ecmHead, temp.pids[src].body.ecmNum;
    ghost var p0, path := live.pids, EcmPath(tp, src);
    PathLength(tp, src);
    EcmsStart(p0, list, dst, tp, path, ts, prog, parent, live.pidBlock == block);
    var i := 0;
    var at: nat := INDEX_INVALID;
    RoundStart(tp, path, at);
    while i < n
      invariant 0 <= i <= n && code == Success
      invariant live.Valid() && live.pidBlock == old(live.pidBlock) && temp.pids == tp
      invariant AtRound(tp, path, i, at) && |path| == n && InRange(tp, path[..i])
      invariant EcmsCopied(p0, live.pids, list, i, dst, tp, path, ts, prog, parent, live.pidBlock == block)
    {
      var u := list[i];
      ghost var p1 := live.pids;
      EcmsSize(p0, p1, list, i, dst, tp, path, ts, prog, parent, live.pidBlock == block);
      NextEcm(tp, src, i, at);
      if i == 0 {
        WriteHead(live, block, dst, u);
        at := head;
      } else {
        at := temp.pids[at].next;
      }
      code := CopyEcm(live, ts, prog, parent, u, temp, at);
      if code != Success {
        return;
      }
      live.pids := live.pids[u := live.pids[u].(next := if i + 1 < n then list[i + 1] else INDEX_INVALID)];
      EcmsCopiedStep(p0, p1, list, i, dst, tp, path, ts, prog, parent, live.pidBlock == block, live.pids, at);
      assert path[..i + 1] == path[..i] + [at];
      i := i + 1;
    }
    assert path[..n] == path;
  }

  ghost predicate NewSlots(p0: seq<Pid>, p1: seq<Pid>, s: PidShape) {
    && s.slot < |p0| <= |p1| && Proper(s)
    && Frame(p0, p1, Slots(s)) && WereFree(p0, p1, Elements(s.ecms))
  }

  ghost predicate EcmChainCopied(p1: seq<Pid>, ecms: seq<nat>, temp: seq<Pid>, path: seq<nat>, ts: nat, prog: nat,
                                 parent: nat) {
    |ecms| == |path| &&
    forall j :: 0 <= j < |ecms| ==>
      && ecms[j] < |p1|
      && path[j] < |temp|
      && p1[ecms[j]] == CopiedPid(temp[path[j]], ecms[j], ts, prog, parent).(next := Follower(ecms, j))
  }

  /** What a successful copy of an elementary stream has done. */
  ghost predicate EsCopied(p0: seq<Pid>, p1: seq<Pid>, s: PidShape, stale: bool, dst: nat, temp: seq<Pid>, t: Pid,
                           ts: nat, prog: nat, parent: nat, realloc: nat -> Realloc)
  {
    && dst < |p0| && s.slot == dst && |s.ecms| == t.body.ecmNum
    && var marked := p0[dst := CopiedPid(t, dst, ts, prog, parent)];
    && (|Free(marked)| >= t.body.ecmNum <==> |p1| == |p0|)
    && (stale <==> LosesEcmHead(marked, realloc, t))
    && var base := if |p1| == |p0| then marked else Enlarged(marked);
    && |p1| == |base| && FirstFree(base, t.body.ecmNum, s.ecms)
    && (forall k :: 0 <= k < |p1| && k !in Slots(s) ==> p1[k] == base[k])
    && NewSlots(p0, p1, s)
    && EcmChainCopied(p1, s.ecms, temp, Path(temp, t.body.ecmHead, t.body.ecmNum), ts, prog, parent)
    && p1[dst] == (if stale || s.ecms == [] then marked[dst]
                   else marked[dst].(body := marked[dst].body.(ecmHead := s.ecms[0])))
  }

  lemma NewSlotsOfEs(p0: seq<Pid>, grown: seq<Pid>, p1: seq<Pid>, s: PidShape, n: nat, mark: Pid)
    requires s.slot < |p0| && mark.valid && FirstFree(grown, n, s.ecms)
    requires Frame(p0[s.slot := mark], grown, {})
    requires |p1| == |grown|
    requires forall k :: 0 <= k < |grown| && k != s.slot && k !in Elements(s.ecms) ==> p1[k] == grown[k]
    requires forall j :: 0 <= j < |s.ecms| ==> s.ecms[j] < |p1| && p1[s.ecms[j]].valid
    ensures NewSlots(p0, p1, s)
  {
    FirstFreeProps(grown, n, s.ecms);
    assert forall k :: 0 <= k < |p0| && k != s.slot ==> grown[k] == p0[k];
    forall e | e in Elements(s.ecms) ensures e < |p1| && p1[e].valid && (e < |p0| ==> !p0[e].valid) {
      var j :| 0 <= j < |s.ecms| && s.ecms[j] == e;
      assert e != s.slot;
    }
  }

  lemma CopyOfEs(p0: seq<Pid>, grown: seq<Pid>, p1: seq<Pid>, s: PidShape, stale: bool, dst: nat,
                 temp: seq<Pid>, t: Pid, ts: nat, prog: nat, parent: nat, realloc: nat -> Realloc, stayed: bool)
    requires dst < |p0| && t.body.data.kind == EsPid && s.slot == dst
    requires var marked := p0[dst := CopiedPid(t, dst, ts, prog, parent)];
             && Frame(marked, grown, {}) && FirstFree(grown, t.body.ecmNum, s.ecms)
             && (|Free(marked)| >= t.body.ecmNum ==> grown == marked && stayed)
             && (|Free(marked)| < t.body.ecmNum ==>
                   && (stayed <==> realloc(|marked|) == InPlace)
                   && realloc(|marked|) != Fails && grown == Enlarged(marked))
    requires EcmsCopied(grown, p1, s.ecms, |s.ecms|, dst, temp,
                        Path(temp, t.body.ecmHead, t.body.ecmNum), ts, prog, parent, stayed)
    requires stale <==> s.ecms != [] && !stayed && t.body.ecmHead != s.ecms[0]
    ensures EsCopied(p0, p1, s, stale, dst, temp, t, ts, prog, parent, realloc)
  {
    NewSlotsOfEs(p0, grown, p1, s, t.body.ecmNum, CopiedPid(t, dst, ts, prog, parent));
  }

  method CopyPid(live: TsInfo, ts: nat, prog: nat, parent: nat, dst: nat, temp: TsInfo, src: nat)
    returns (code: Code, ghost s: PidShape, ghost stale: bool)
    requires live != temp && live.Valid() && temp.Valid() && EcmsAreLeaves(temp.pids)
    modifies live`pids, live`pidBlock
    ensures live.Valid()
    ensures code == Success <==>
              && dst < |old(live.pids)| && src < |temp.pids| && ts < |live.streams|
              && (temp.pids[src].body.data.kind == EsPid ==>
                    && Granted(old(live.pids)[dst := CopiedPid(temp.pids[src], dst, ts, prog, parent)],
                               temp.pids[src].body.ecmNum, PIDS_PER_GROWTH, live.realloc)
                    && InRange(temp.pids, EcmPath(temp.pids, src)))
    ensures code == Success ==>
              && (temp.pids[src].body.data.kind != EsPid ==>
                    && live.pids == old(live.pids)[dst := CopiedPid(temp.pids[src], dst, ts, prog, parent)]
                    && live.pidBlock == old(live.pidBlock)
                    && s == PidShape(dst, []) && !stale)
              && (temp.pids[src].body.data.kind == EsPid ==>
                    EsCopied(old(live.pids), live.pids, s, stale, dst, temp.pids, temp.pids[src], ts, prog, parent,
                             live.realloc))
    decreases if src < |temp.pids| && temp.pids[src].body.data.kind == EsPid then 3 else 0
  {
    s, stale := PidShape(dst, []), false;
    if |live.streams| <= ts || |live.pids| <= dst || |temp.pids| <= src {
      return InputParam, s, stale;
    }
    ghost var p0 := live.pids;
    var block := live.pidBlock;
    var t := temp.pids[src];
    live.pids := live.pids[dst := CopiedPid(t, dst, ts, prog, parent)];
    if t.body.data.kind != EsPid {
      return Success, s, stale;
    }
    var list;
    code, list := live.UnusedPids(t.body.ecmNum);
    if code != Success {
      return;
    }
    FirstFreeProps(live.pids, t.body.ecmNum, list);
    assert live.pids[dst].valid;
    ghost var grown := live.pids;
    s := PidShape(dst, list);
    code := CopyEcms(live, ts, prog, parent, dst, block, list, temp, src);
    stale := list != [] && live.pidBlock != block && t.body.ecmHead != list[0];
    if code == Success {
      CopyOfEs(p0, grown, live.pids, s, stale, dst, temp.pids, t, ts, prog, parent, live.realloc,
               live.pidBlock == block);
    }
  }

  // ---------------------------------------------------------------- one PID as a tree

  /** What CopyPid promises, as a relation between the pools. */
  ghost predicate PidCopied(p0: seq<Pid>, p1: seq<Pid>, s: PidShape, stale: bool, dst: nat, temp: seq<Pid>, src: nat,
                            ts: nat, prog: nat, parent: nat, realloc: nat -> Realloc)
  {
    && dst < |p0| && src < |temp|
    && (temp[src].body.data.kind != EsPid ==>
          p1 == p0[dst := CopiedPid(temp[src], dst, ts, prog, parent)] && s == PidShape(dst, []) && !stale)
    && (temp[src].body.data.kind == EsPid ==>
          EsCopied(p0, p1, s, stale, dst, temp, temp[src], ts, prog, parent, realloc))
  }

  /**
    The slot of a copied PID: all of the source with new owners; the ECM head is that of the copy or
    still the old one.
   */
  ghost predicate RootAt(p1: seq<Pid>, s: PidShape, t: Pid, ts: nat, prog: nat) {
    && s.slot < |p1|
    && var body := CopiedPid(t, s.slot, ts, prog, INDEX_INVALID).body;
    && (p1[s.slot].body == body || (s.ecms != [] && p1[s.slot].body == body.(ecmHead := s.ecms[0])))
  }

  /** The ECM head does not lead to the ECMs. */
  ghost predicate LostAt(p1: seq<Pid>, s: PidShape) {
    s.ecms != [] && s.slot < |p1| && p1[s.slot].body.ecmHead != s.ecms[0]
  }

  ghost predicate AnyLost(p1: seq<Pid>, ss: seq<PidShape>) {
    ss != [] && (AnyLost(p1, ss[..|ss| - 1]) || LostAt(p1, ss[|ss| - 1]))
  }

  lemma AnyLostSnoc(p1: seq<Pid>, ss: seq<PidShape>, s: PidShape)
    ensures AnyLost(p1, ss + [s]) <==> AnyLost(p1, ss) || LostAt(p1, s)
  {
    assert (ss + [s])[..|ss|] == ss;
  }

  lemma {:induction false} AnyLostStable(p1: seq<Pid>, p2: seq<Pid>, ss: seq<PidShape>)
    requires |p1| <= |p2| && forall e :: e in SlotsOf(ss) ==> e < |p1| && p2[e] == p1[e]
    ensures AnyLost(p1, ss) <==> AnyLost(p2, ss)
  {
    if ss != [] {
      assert SlotsOf(ss) == SlotsOf(ss[..|ss| - 1]) + Slots(ss[|ss| - 1]);
      AnyLostStable(p1, p2, ss[..|ss| - 1]);
    }
  }

  /** Where a head was lost the tree is not in place, whatever tree it is. */
  lemma {:induction false} LostIsNotInPlace(p1: seq<Pid>, ss: seq<PidShape>, trees: seq<PidTree>, ts: nat, prog: nat,
                                            orphan: bool)
    requires |ss| == |trees|
    requires forall j :: 0 <= j < |ss| ==> PidAt(p1, ss[j], trees[j], ts, prog, EcmParent(orphan, ss[j].slot))
    ensures !AnyLost(p1, ss)
  {
    if ss != [] {
      LostIsNotInPlace(p1, ss[..|ss| - 1], trees[..|ss| - 1], ts, prog, orphan);
    }
  }

  /** The slots that the copy of one PID asks for. */
  lemma {:induction false} EsIsAlloc(p0: seq<Pid>, p1: seq<Pid>, s: PidShape, stale: bool, dst: nat, temp: seq<Pid>,
                                     src: nat, ts: nat, prog: nat, realloc: nat -> Realloc)
    requires src < |temp| && temp[src].body.data.kind == EsPid
    requires EsCopied(p0, p1, s, stale, dst, temp, temp[src], ts, prog, INDEX_INVALID, realloc) && p0[dst].valid
    ensures EcmAlloc(Alloc(Flags(p0), false), temp, src, realloc) == Alloc(Flags(p1), stale)
  {
    hide EcmChainCopied, Frame, Path;
    var n := temp[src].body.ecmNum;
    var marked := p0[dst := CopiedPid(temp[src], dst, ts, prog, INDEX_INVALID)];
    var base := if |p1| == |p0| then marked else Enlarged(marked);
    assert Flags(marked) == Flags(p0);
    FreeOfFlags(marked);
    forall k | 0 <= k < |p1| ensures p1[k].valid <==> k in s.ecms || base[k].valid {
      assert k in s.ecms ==> k in Elements(s.ecms);
      assert k in Slots(s) <==> k == dst || k in s.ecms;
    }
    FilledIs(marked, base, n, s.ecms, p1);
  }

  /** The same for a PID of any kind, as a relation. */
  ghost predicate PidAllocated(p0: seq<Pid>, p1: seq<Pid>, stale: bool, dst: nat, temp: seq<Pid>, src: nat,
                               realloc: nat -> Realloc) {
    dst < |p0| && p0[dst].valid ==> EcmAlloc(Alloc(Flags(p0), false), temp, src, realloc) == Alloc(Flags(p1), stale)
  }

  lemma {:induction false} PidIsAlloc(p0: seq<Pid>, p1: seq<Pid>, s: PidShape, stale: bool, dst: nat, temp: seq<Pid>,
                                      src: nat, ts: nat, prog: nat, realloc: nat -> Realloc)
    requires PidCopied(p0, p1, s, stale, dst, temp, src, ts, prog, INDEX_INVALID, realloc)
    ensures PidAllocated(p0, p1, stale, dst, temp, src, realloc)
  {
    hide EsCopied;
    if p0[dst].valid {
      if temp[src].body.data.kind == EsPid {
        EsIsAlloc(p0, p1, s, stale, dst, temp, src, ts, prog, realloc);
      } else {
        assert Flags(p1) == Flags(p0);
      }
    }
  }

  /** The copy of one PID, seen from the chain it belongs to. */
  ghost predicate SiblingCopied(p0: seq<Pid>, p1: seq<Pid>, s: PidShape, stale: bool, dst: nat, temp: seq<Pid>,
                                src: nat, ts: nat, prog: nat)
  {
    && src < |temp| && s.slot == dst < |p0| && NewSlots(p0, p1, s) && p1[dst].valid
    && |s.ecms| == |ReadPid(temp, src).ecms|
    && RootAt(p1, s, temp[src], ts, prog) && (stale <==> LostAt(p1, s))
    && (PidAt(p1, s, ReadPid(temp, src), ts, prog, INDEX_INVALID) <==> !stale)
    && (stale ==> |p1| > |p0|)
    && (|p1| > |p0| ==> temp[src].body.data.kind == EsPid
                        && (p0[dst].valid ==> |Free(p0)| < |s.ecms|))
    && (temp[src].body.data.kind != EsPid ==> s.ecms == [])
  }

  /**
    A copied PID is in place, with its whole ECM chain, exactly when the chain's head was not
    written through a stale pointer.
   */
  lemma CopiedPidInPlace(p0: seq<Pid>, p1: seq<Pid>, s: PidShape, stale: bool, dst: nat, temp: seq<Pid>, src: nat,
                         ts: nat, prog: nat, realloc: nat -> Realloc)
    requires PidCopied(p0, p1, s, stale, dst, temp, src, ts, prog, INDEX_INVALID, realloc)
    ensures SiblingCopied(p0, p1, s, stale, dst, temp, src, ts, prog)
  {
    if temp[src].body.data.kind == EsPid {
      EsSiblingCopied(p0, p1, s, stale, dst, temp, src, ts, prog, realloc);
    } else {
      LeafSiblingCopied(p0, dst, temp, src, ts, prog);
    }
  }

  lemma LeafSiblingCopied(p0: seq<Pid>, dst: nat, temp: seq<Pid>, src: nat, ts: nat, prog: nat)
    requires src < |temp| && dst < |p0| && temp[src].body.data.kind != EsPid
    ensures SiblingCopied(p0, p0[dst := CopiedPid(temp[src], dst, ts, prog, INDEX_INVALID)], PidShape(dst, []), false,
                          dst, temp, src, ts, prog)
  {
  }

  lemma EsSiblingCopied(p0: seq<Pid>, p1: seq<Pid>, s: PidShape, stale: bool, dst: nat, temp: seq<Pid>, src: nat,
                        ts: nat, prog: nat, realloc: nat -> Realloc)
    requires src < |temp| && temp[src].body.data.kind == EsPid
    requires EsCopied(p0, p1, s, stale, dst, temp, temp[src], ts, prog, INDEX_INVALID, realloc)
    ensures SiblingCopied(p0, p1, s, stale, dst, temp, src, ts, prog)
  {
    hide EcmChainCopied, PidAt, Frame, WereFree, Linked;
    EsInPlace(p1, s, stale, dst, temp, src, ts, prog);
    if p0[dst].valid {
      FreeAfterTaking(p0, p0[dst := CopiedPid(temp[src], dst, ts, prog, INDEX_INVALID)], {});
    }
  }

  lemma EsInPlace(p1: seq<Pid>, s: PidShape, stale: bool, dst: nat, temp: seq<Pid>, src: nat, ts: nat, prog: nat)
    requires src < |temp| && temp[src].body.data.kind == EsPid && |s.ecms| == temp[src].body.ecmNum
    requires s.slot == dst < |p1| && EcmChainCopied(p1, s.ecms, temp, EcmPath(temp, src), ts, prog, INDEX_INVALID)
    requires var copy := CopiedPid(temp[src], dst, ts, prog, INDEX_INVALID);
             p1[dst] == if stale || s.ecms == [] then copy else copy.(body := copy.body.(ecmHead := s.ecms[0]))
    requires stale ==> s.ecms != [] && temp[src].body.ecmHead != s.ecms[0]
    ensures PidAt(p1, s, ReadPid(temp, src), ts, prog, INDEX_INVALID) <==> !stale
    ensures RootAt(p1, s, temp[src], ts, prog) && (stale <==> LostAt(p1, s))
  {
    if stale {
      assert !Linked(p1, p1[dst].body.ecmHead, s.ecms);
    } else {
      EcmLeaves(p1, s.ecms, temp, EcmPath(temp, src), ts, prog);
      assert ReadPid(temp, src) == PidNode(temp[src].body.data, ReadLeaves(temp, EcmPath(temp, src)));
    }
  }

  lemma EcmLeaves(p1: seq<Pid>, ecms: seq<nat>, temp: seq<Pid>, path: seq<nat>, ts: nat, prog: nat)
    requires EcmChainCopied(p1, ecms, temp, path, ts, prog, INDEX_INVALID)
    ensures forall j :: 0 <= j < |ecms| ==> LeafAt(p1, ecms[j], ReadLeaves(temp, path)[j], ts, prog, INDEX_INVALID)
    ensures forall j :: 0 <= j < |ecms| ==> ecms[j] < |p1| && p1[ecms[j]].next == Follower(ecms, j)
  {
  }

  // ---------------------------------------------------------------- a chain of PIDs

  ghost predicate Reserved(pids: seq<Pid>, list: seq<nat>) {
    forall i :: 0 <= i < |list| ==> list[i] < |pids| && pids[list[i]].valid
  }

  /** The first |ss| slots of list hold the siblings, linked in the order of list. */
  ghost predicate Siblings(p1: seq<Pid>, list: seq<nat>, ss: seq<PidShape>) {
    && |ss| <= |list|
    && (forall j :: 0 <= j < |ss| ==> ss[j].slot == list[j] && list[j] < |p1| && p1[list[j]].next == Follower(list, j))
  }

  /** The slots used are new or come from list, and nothing else changed. */
  ghost predicate Taken(p0: seq<Pid>, p1: seq<Pid>, list: seq<nat>, ss: seq<PidShape>) {
    && |ss| <= |list|
    && (forall j :: |ss| <= j < |list| ==> list[j] !in SlotsOf(ss))
    && Apart(ss)
    && Frame(p0, p1, SlotsOf(ss))
    && (forall e :: e in SlotsOf(ss) ==> e < |p1| && p1[e].valid)
    && WereFree(p0, p1, SlotsOf(ss) - Elements(list))
  }

  /** The copies stand for the trees of the source chain. */
  ghost predicate ChainTrees(p1: seq<Pid>, ss: seq<PidShape>, temp: seq<Pid>, path: seq<nat>, ts: nat, prog: nat) {
    |ss| <= |path| && forall j :: 0 <= j < |ss| ==> PidAt(p1, ss[j], ReadPid(temp, path[j]), ts, prog, INDEX_INVALID)
  }

  ghost predicate Roots(p1: seq<Pid>, ss: seq<PidShape>, temp: seq<Pid>, path: seq<nat>, ts: nat, prog: nat) {
    |ss| <= |path| && forall j :: 0 <= j < |ss| ==> path[j] < |temp| && RootAt(p1, ss[j], temp[path[j]], ts, prog)
  }

  /** Every copy has as many ECMs as its source. */
  ghost predicate SameSizes(ss: seq<PidShape>, temp: seq<Pid>, path: seq<nat>) {
    |ss| <= |path| &&
    forall j :: 0 <= j < |ss| ==> path[j] < |temp| && |ss[j].ecms| == |ReadPid(temp, path[j]).ecms|
  }

  /** A head is lost only when the pool grew, and it grows only when the ECMs did not fit. */
  ghost predicate Growth(p0: seq<Pid>, p1: seq<Pid>, list: seq<nat>, ss: seq<PidShape>, stale: bool,
                         temp: seq<Pid>, path: seq<nat>)
  {
    && |p0| <= |p1|
    && (stale ==> |p1| > |p0|)
    && (|p1| > |p0| ==> !NoEs(temp, path))
    && (|p1| > |p0| && Reserved(p0, list) ==> |Free(p0)| < EcmCount(ss))
  }

  /** The slots in use before a sibling is copied keep their contents. */
  lemma EarlierKept(p0: seq<Pid>, p1: seq<Pid>, p2: seq<Pid>, p3: seq<Pid>, list: seq<nat>, ss: seq<PidShape>,
                    s: PidShape)
    requires |ss| < |list| && Taken(p0, p1, list, ss) && NewSlots(p1, p2, s) && s.slot == list[|ss|]
    requires p3 == p2[s.slot := p2[s.slot].(next := Follower(list, |ss|))]
    ensures forall e :: e in SlotsOf(ss) ==> e !in Slots(s) && e < |p1| <= |p3| && p3[e] == p1[e]
  {
    forall e | e in SlotsOf(ss) ensures e !in Slots(s) && p3[e] == p1[e] {
      assert p1[e].valid && e != list[|ss|];
    }
  }

  lemma SiblingsStep(p0: seq<Pid>, p1: seq<Pid>, p2: seq<Pid>, p3: seq<Pid>, list: seq<nat>, ss: seq<PidShape>,
                     s: PidShape)
    requires |ss| < |list| && Taken(p0, p1, list, ss) && NewSlots(p1, p2, s) && s.slot == list[|ss|]
    requires p3 == p2[s.slot := p2[s.slot].(next := Follower(list, |ss|))]
    requires Siblings(p1, list, ss)
    ensures Siblings(p3, list, ss + [s])
  {
    EarlierKept(p0, p1, p2, p3, list, ss, s);
    forall j | 0 <= j < |ss| ensures list[j] < |p3| && p3[list[j]].next == Follower(list, j) {
      SlotsOfHas(ss, j);
    }
  }

  lemma TakenStep(p0: seq<Pid>, p1: seq<Pid>, p2: seq<Pid>, p3: seq<Pid>, list: seq<nat>, ss: seq<PidShape>,
                  s: PidShape)
    requires NoDup(list) && |ss| < |list| && list[|ss|] < |p0|
    requires Taken(p0, p1, list, ss) && NewSlots(p1, p2, s) && s.slot == list[|ss|]
    requires p2[s.slot].valid && Elements(s.ecms) !! Elements(list)
    requires p3 == p2[s.slot := p2[s.slot].(next := Follower(list, |ss|))]
    ensures Taken(p0, p3, list, ss + [s])
  {
    SlotsSnoc(ss, s);
    EarlierKept(p0, p1, p2, p3, list, ss, s);
    assert SlotsOf(ss) !! Slots(s);
    forall j | |ss| < j < |list| ensures list[j] !in SlotsOf(ss + [s]) {
      assert list[j] in Elements(list);
    }
    FrameStep(p0, p1, p2, p3, SlotsOf(ss), Slots(s), s.slot);
    WereFreeStep(p0, p1, p2, p3, list, SlotsOf(ss), s);
  }

  lemma FrameStep(p0: seq<Pid>, p1: seq<Pid>, p2: seq<Pid>, p3: seq<Pid>, f: set<nat>, g: set<nat>, slot: nat)
    requires Frame(p0, p1, f) && Frame(p1, p2, g) && slot in g && slot < |p2|
    requires |p3| == |p2| && forall k :: 0 <= k < |p2| && k != slot ==> p3[k] == p2[k]
    ensures Frame(p0, p3, f + g)
  {
    forall k | |p0| <= k < |p3| && k !in f + g ensures !p3[k].valid {
      if k < |p1| {
        assert p2[k] == p1[k];
      }
    }
  }

  lemma WereFreeStep(p0: seq<Pid>, p1: seq<Pid>, p2: seq<Pid>, p3: seq<Pid>, list: seq<nat>, f: set<nat>, s: PidShape)
    requires Frame(p0, p1, f) && WereFree(p0, p1, f - Elements(list)) && WereFree(p1, p2, Elements(s.ecms))
    requires s.slot in Elements(list) && s.slot < |p2| && f !! Slots(s) && |p1| <= |p2|
    requires |p3| == |p2| && p3[s.slot].valid && (forall k :: 0 <= k < |p2| && k != s.slot ==> p3[k] == p2[k])
    requires forall e :: e in f ==> e < |p1| && p3[e] == p1[e]
    ensures WereFree(p0, p3, (f + Slots(s)) - Elements(list))
  {
    forall e | e in (f + Slots(s)) - Elements(list) ensures e < |p3| && p3[e].valid && (e < |p0| ==> !p0[e].valid) {
      if e !in f {
        assert e in Elements(s.ecms) && e != s.slot;
        if e < |p0| {
          assert p1[e] == p0[e];
        }
      }
    }
  }

  lemma ChainTreesStep(p0: seq<Pid>, p1: seq<Pid>, p2: seq<Pid>, p3: seq<Pid>, list: seq<nat>, ss: seq<PidShape>,
                       s: PidShape, temp: seq<Pid>, path: seq<nat>, ts: nat, prog: nat)
    requires |ss| < |list| == |path| && Taken(p0, p1, list, ss) && NewSlots(p1, p2, s) && s.slot == list[|ss|]
    requires p3 == p2[s.slot := p2[s.slot].(next := Follower(list, |ss|))]
    requires s.slot < |p1| <= |p2| && ChainTrees(p1, ss, temp, path, ts, prog)
    requires PidAt(p2, s, ReadPid(temp, path[|ss|]), ts, prog, INDEX_INVALID)
    ensures ChainTrees(p3, ss + [s], temp, path, ts, prog)
  {
    hide Taken, NewSlots, PidAt, ReadPid, Slots, SlotsOf;
    EarlierKept(p0, p1, p2, p3, list, ss, s);
    forall j | 0 <= j < |ss| ensures PidAt(p3, ss[j], ReadPid(temp, path[j]), ts, prog, INDEX_INVALID) {
      OlderPidKept(p1, p3, ss, j, ReadPid(temp, path[j]), ts, prog);
    }
    NewestPidKept(p1, p2, p3, s, ReadPid(temp, path[|ss|]), ts, prog);
  }

  /** The roots, and which heads are lost. */
  lemma {:induction false} RootsStep(p0: seq<Pid>, p1: seq<Pid>, p2: seq<Pid>, p3: seq<Pid>, list: seq<nat>,
                                     ss: seq<PidShape>,
                                     s: PidShape, lost: bool, temp: seq<Pid>, path: seq<nat>, ts: nat, prog: nat)
    requires |ss| < |list| == |path| && Taken(p0, p1, list, ss) && NewSlots(p1, p2, s) && s.slot == list[|ss|]
    requires s.slot < |p1| <= |p2| && p3 == p2[s.slot := p2[s.slot].(next := Follower(list, |ss|))]
    requires Roots(p1, ss, temp, path, ts, prog) && path[|ss|] < |temp|
    requires RootAt(p2, s, temp[path[|ss|]], ts, prog) && (lost <==> LostAt(p2, s))
    ensures Roots(p3, ss + [s], temp, path, ts, prog)
    ensures AnyLost(p3, ss + [s]) <==> AnyLost(p1, ss) || lost
  {
    hide Taken, NewSlots, Slots, SlotsOf, AnyLost;
    EarlierKept(p0, p1, p2, p3, list, ss, s);
    AnyLostStable(p1, p3, ss);
    AnyLostSnoc(p3, ss, s);
    forall j | 0 <= j < |ss| ensures RootAt(p3, ss[j], temp[path[j]], ts, prog) {
      SlotsOfHas(ss, j);
      SlotOfShape(ss[j]);
    }
  }

  lemma SlotOfShape(s: PidShape)
    ensures s.slot in Slots(s)
  {
  }

  lemma OlderPidKept(p1: seq<Pid>, p3: seq<Pid>, ss: seq<PidShape>, j: nat, t: PidTree, ts: nat, prog: nat)
    requires j < |ss| && PidAt(p1, ss[j], t, ts, prog, INDEX_INVALID)
    requires forall e :: e in SlotsOf(ss) ==> e < |p1| <= |p3| && p3[e] == p1[e]
    ensures PidAt(p3, ss[j], t, ts, prog, INDEX_INVALID)
  {
    SlotsOfHas(ss, j);
    assert ss[j].slot in Slots(ss[j]);
    assert forall k :: 0 <= k < |ss[j].ecms| ==> ss[j].ecms[k] in Slots(ss[j]);
    PidAtStable(p1, p3, ss[j], t, ts, prog, INDEX_INVALID);
  }

  lemma NewestPidKept(p1: seq<Pid>, p2: seq<Pid>, p3: seq<Pid>, s: PidShape, t: PidTree, ts: nat, prog: nat)
    requires NewSlots(p1, p2, s) && PidAt(p2, s, t, ts, prog, INDEX_INVALID)
    requires |p3| == |p2| && p3[s.slot].(next := 0) == p2[s.slot].(next := 0)
    requires forall k :: 0 <= k < |p2| && k != s.slot ==> p3[k] == p2[k]
    ensures PidAt(p3, s, t, ts, prog, INDEX_INVALID)
  {
    assert forall k :: 0 <= k < |s.ecms| ==> s.ecms[k] in Elements(s.ecms);
    PidAtStable(p2, p3, s, t, ts, prog, INDEX_INVALID);
  }

  /** A nested allocation never takes a reserved sibling. */
  lemma NestedSlotsApart(p0: seq<Pid>, p1: seq<Pid>, p2: seq<Pid>, list: seq<nat>, ss: seq<PidShape>, s: PidShape)
    requires (forall i :: 0 <= i < |list| ==> list[i] < |p0|)
    requires Reserved(p0, list) || s.ecms == []
    requires Taken(p0, p1, list, ss) && NewSlots(p1, p2, s)
    ensures Elements(s.ecms) !! Elements(list)
  {
    if s.ecms != [] {
      forall j | 0 <= j < |list| ensures list[j] !in Elements(s.ecms) {
        assert p1[list[j]].valid by {
          assert list[j] in SlotsOf(ss) || p1[list[j]] == p0[list[j]];
        }
      }
    }
  }

  lemma GrowthStep(p0: seq<Pid>, p1: seq<Pid>, p2: seq<Pid>, list: seq<nat>, ss: seq<PidShape>, stale: bool,
                   s: PidShape, lost: bool, temp: seq<Pid>, path: seq<nat>)
    requires |ss| < |list| == |path| && |p1| <= |p2|
    requires list[|ss|] !in SlotsOf(ss) && Frame(p0, p1, SlotsOf(ss))
    requires forall j :: 0 <= j < |ss| ==> ss[j].slot == list[j]
    requires Growth(p0, p1, list, ss, stale, temp, path)
    requires lost ==> |p2| > |p1|
    requires |p2| > |p1| ==> path[|ss|] < |temp| && temp[path[|ss|]].body.data.kind == EsPid && list[|ss|] < |p1|
                             && (p1[list[|ss|]].valid ==> |Free(p1)| < |s.ecms|)
    ensures Growth(p0, p2, list, ss + [s], stale || lost, temp, path)
  {
    SlotsSnoc(ss, s);
    if |p2| > |p1| && |p1| == |p0| && Reserved(p0, list) {
      assert p1[list[|ss|]] == p0[list[|ss|]];
      FreeKept(p0, p1, list, ss);
    }
  }

  /** While the pool does not grow, at most the ECM slots are missing from the free slots. */
  lemma FreeKept(p0: seq<Pid>, p1: seq<Pid>, list: seq<nat>, ss: seq<PidShape>)
    requires |ss| <= |list| && |p0| == |p1| && Reserved(p0, list)
    requires Frame(p0, p1, SlotsOf(ss))
    requires forall j :: 0 <= j < |ss| ==> ss[j].slot == list[j]
    ensures |Free(p0)| <= |Free(p1)| + EcmCount(ss)
  {
    assert forall e :: e in Elements(list) ==> e < |p0| && p0[e].valid;
    FreeAfterTaking(p0, p1, SlotsOf(ss) - Elements(list));
    EcmSlots(ss, Elements(list));
  }

  lemma SameSizesStep(ss: seq<PidShape>, s: PidShape, temp: seq<Pid>, path: seq<nat>)
    requires SameSizes(ss, temp, path) && |ss| < |path| && path[|ss|] < |temp|
    requires |s.ecms| == |ReadPid(temp, path[|ss|]).ecms|
    ensures SameSizes(ss + [s], temp, path)
  {
  }

  /** Loop invariant of CopyChain after |ss| rounds. */
  ghost predicate ChainState(p0: seq<Pid>, p1: seq<Pid>, list: seq<nat>, ss: seq<PidShape>, stale: bool,
                             temp: seq<Pid>, path: seq<nat>, ts: nat, prog: nat)
  {
    && Siblings(p1, list, ss)
    && Taken(p0, p1, list, ss)
    && (!stale ==> ChainTrees(p1, ss, temp, path, ts, prog))
    && Roots(p1, ss, temp, path, ts, prog) && (stale <==> AnyLost(p1, ss))
    && SameSizes(ss, temp, path)
    && Growth(p0, p1, list, ss, stale, temp, path)
  }

  lemma ChainStart(p0: seq<Pid>, list: seq<nat>, temp: seq<Pid>, path: seq<nat>, ts: nat, prog: nat)
    ensures ChainState(p0, p0, list, [], false, temp, path, ts, prog)
  {
  }

  lemma ChainRound(p0: seq<Pid>, p1: seq<Pid>, p2: seq<Pid>, p3: seq<Pid>, list: seq<nat>, ss: seq<PidShape>,
                   stale: bool, s: PidShape, lost: bool, temp: seq<Pid>, path: seq<nat>, ts: nat, prog: nat)
    requires NoDup(list) && |ss| < |list| == |path| && (forall i :: 0 <= i < |list| ==> list[i] < |p0|)
    requires Reserved(p0, list) || NoEs(temp, path)
    requires ChainState(p0, p1, list, ss, stale, temp, path, ts, prog)
    requires SiblingCopied(p1, p2, s, lost, list[|ss|], temp, path[|ss|], ts, prog)
    requires |p2| > list[|ss|] && p3 == p2[list[|ss|] := p2[list[|ss|]].(next := Follower(list, |ss|))]
    ensures ChainState(p0, p3, list, ss + [s], stale || lost, temp, path, ts, prog)
  {
    NestedSlotsApart(p0, p1, p2, list, ss, s);
    SiblingsStep(p0, p1, p2, p3, list, ss, s);
    TakenStep(p0, p1, p2, p3, list, ss, s);
    if !stale && !lost {
      ChainTreesStep(p0, p1, p2, p3, list, ss, s, temp, path, ts, prog);
    }
    RootsStep(p0, p1, p2, p3, list, ss, s, lost, temp, path, ts, prog);
    SameSizesStep(ss, s, temp, path);
    GrowthStep(p0, p1, p2, list, ss, stale, s, lost, temp, path);
  }

  lemma NothingAsked(flags: seq<Cell>, temp: seq<Pid>, realloc: nat -> Realloc)
    ensures ChainOk(flags, temp, [], realloc)
  {
  }

  lemma AllocStart(p0: seq<Pid>, list: seq<nat>, temp: seq<Pid>, realloc: nat -> Realloc)
    ensures ChainAllocated(p0, p0, list, false, temp, [], realloc)
  {
  }

  /** What a successful CopyChain has done. */
  ghost predicate ChainCopied(p0: seq<Pid>, p1: seq<Pid>, list: seq<nat>, ss: seq<PidShape>, stale: bool,
                              temp: seq<Pid>, head: nat, ts: nat, prog: nat)
  {
    |ss| == |list| && ChainState(p0, p1, list, ss, stale, temp, Path(temp, head, |list|), ts, prog)
  }

  /** Whether a PID was copied, as a question of flags, for a slot that is in use already or a PID without ECMs. */
  ghost predicate PidSucceeds(p0: seq<Pid>, dst: nat, temp: seq<Pid>, src: nat, realloc: nat -> Realloc,
                              success: bool) {
    dst < |p0| && (p0[dst].valid || (src < |temp| ==> temp[src].body.data.kind != EsPid)) ==>
      (success <==> EcmOk(Flags(p0), temp, src, realloc))
  }

  lemma {:induction false} PidSucceedsWhen(p0: seq<Pid>, dst: nat, temp: seq<Pid>, src: nat, realloc: nat -> Realloc,
                                           mark: Pid, success: bool)
    requires mark.valid
    requires success <==>
               && dst < |p0| && src < |temp|
               && (temp[src].body.data.kind == EsPid ==>
                     && Granted(p0[dst := mark], temp[src].body.ecmNum, PIDS_PER_GROWTH, realloc)
                     && InRange(temp, EcmPath(temp, src)))
    ensures PidSucceeds(p0, dst, temp, src, realloc, success)
  {
    hide Granted;
    if dst < |p0| && p0[dst].valid {
      assert Flags(p0[dst := mark]) == Flags(p0);
      if src < |temp| {
        GrantedOfFlags(p0[dst := mark], temp[src].body.ecmNum, PIDS_PER_GROWTH, realloc);
      }
    }
  }

  /** CopyPid called for a PID that no elementary stream owns. */
  method CopyTopPid(live: TsInfo, ts: nat, prog: nat, dst: nat, temp: TsInfo, src: nat)
    returns (code: Code, ghost s: PidShape, ghost lost: bool)
    requires live != temp && live.Valid() && temp.Valid() && EcmsAreLeaves(temp.pids)
    modifies live`pids, live`pidBlock
    ensures live.Valid()
    ensures ts < |live.streams| ==> PidSucceeds(old(live.pids), dst, temp.pids, src, live.realloc, code == Success)
    ensures code == Success ==> dst < |live.pids| && src < |temp.pids|
                                && SiblingCopied(old(live.pids), live.pids, s, lost, dst, temp.pids, src, ts, prog)
                                && PidAllocated(old(live.pids), live.pids, lost, dst, temp.pids, src, live.realloc)
  {
    hide SiblingCopied, PidAllocated, PidSucceeds, Granted, InRange;
    ghost var p0 := live.pids;
    code, s, lost := CopyPid(live, ts, prog, INDEX_INVALID, dst, temp, src);
    ghost var mark := if src < |temp.pids| then CopiedPid(temp.pids[src], dst, ts, prog, INDEX_INVALID)
      else ZERO_PID.(valid := true);
    if ts < |live.streams| {
      PidSucceedsWhen(p0, dst, temp.pids, src, live.realloc, mark, code == Success);
    }
    if code == Success {
      CopiedPidInPlace(p0, live.pids, s, lost, dst, temp.pids, src, ts, prog, live.realloc);
      PidIsAlloc(p0, live.pids, s, lost, dst, temp.pids, src, ts, prog, live.realloc);
      SiblingInPool(p0, live.pids, s, lost, dst, temp.pids, src, ts, prog);
    }
  }

  lemma SiblingInPool(p0: seq<Pid>, p1: seq<Pid>, s: PidShape, stale: bool, dst: nat, temp: seq<Pid>, src: nat,
                      ts: nat, prog: nat)
    requires SiblingCopied(p0, p1, s, stale, dst, temp, src, ts, prog)
    ensures dst < |p0| <= |p1|
  {
  }

  /** One round of CopyChain: copies the PID, then links it to its follower. */
  method CopySibling(live: TsInfo, ts: nat, prog: nat, dst: nat, follower: nat, temp: TsInfo, src: nat)
    returns (code: Code, ghost s: PidShape, ghost lost: bool, ghost copied: seq<Pid>)
    requires live != temp && live.Valid() && temp.Valid() && EcmsAreLeaves(temp.pids)
    modifies live`pids, live`pidBlock
    ensures live.Valid()
    ensures ts < |live.streams| ==> PidSucceeds(old(live.pids), dst, temp.pids, src, live.realloc, code == Success)
    ensures code == Success ==>
              && SiblingCopied(old(live.pids), copied, s, lost, dst, temp.pids, src, ts, prog)
              && dst < |copied| && src < |temp.pids| && live.pids == copied[dst := copied[dst].(next := follower)]
              && PidAllocated(old(live.pids), live.pids, lost, dst, temp.pids, src, live.realloc)
  {
    hide SiblingCopied, PidSucceeds;
    code, s, lost := CopyTopPid(live, ts, prog, dst, temp, src);
    copied := live.pids;
    if code == Success {
      live.pids := live.pids[dst := live.pids[dst].(next := follower)];
      assert Flags(live.pids) == Flags(copied);
    }
  }

  /** A reserved sibling is still marked when its turn comes. */
  lemma StillReserved(p0: seq<Pid>, p1: seq<Pid>, list: seq<nat>, ss: seq<PidShape>)
    requires Reserved(p0, list) && Taken(p0, p1, list, ss) && |ss| < |list|
    ensures list[|ss|] < |p1| && p1[list[|ss|]].valid
  {
  }

  /** What the loop over a chain has asked for after i rounds. */
  ghost predicate ChainAllocated(p0: seq<Pid>, p1: seq<Pid>, list: seq<nat>, stale: bool, temp: seq<Pid>,
                                 path: seq<nat>, realloc: nat -> Realloc)
  {
    Reserved(p0, list) ==> ChainAlloc(Alloc(Flags(p0), false), temp, path, realloc) == Alloc(Flags(p1), stale)
  }

  /** Rounds of chains in which no slot is reserved ask for nothing. */
  lemma {:induction false} OkRound(p0: seq<Pid>, p1: seq<Pid>, list: seq<nat>, ss: seq<PidShape>, stale: bool,
                                   temp: seq<Pid>, path: seq<nat>, ts: nat, prog: nat, realloc: nat -> Realloc,
                                   success: bool)
    requires |ss| < |list| == |path| && ChainState(p0, p1, list, ss, stale, temp, path, ts, prog)
    requires (forall i :: 0 <= i < |list| ==> list[i] < |p0|) && (Reserved(p0, list) || NoEs(temp, path))
    requires ChainAllocated(p0, p1, list, stale, temp, path[..|ss|], realloc)
    requires ChainOk(Flags(p0), temp, path[..|ss|], realloc)
    requires PidSucceeds(p1, list[|ss|], temp, path[|ss|], realloc, success)
    ensures ChainOk(Flags(p0), temp, path[..|ss| + 1], realloc) <==> success
  {
    hide EcmAlloc, Siblings, ChainTrees, Roots, AnyLost, SameSizes, Granted, InRange, ChainAlloc, Flags;
    assert path[..|ss| + 1][..|ss|] == path[..|ss|] && path[..|ss| + 1][|ss|] == path[|ss|];
    GrowthSize(p0, p1, list, ss, stale, temp, path);
    if Reserved(p0, list) {
      StillReserved(p0, p1, list, ss);
      ChainAllocAdds(Alloc(Flags(p0), false), temp, path[..|ss|], realloc);
    }
  }

  lemma GrowthSize(p0: seq<Pid>, p1: seq<Pid>, list: seq<nat>, ss: seq<PidShape>, stale: bool, temp: seq<Pid>,
                   path: seq<nat>)
    requires Growth(p0, p1, list, ss, stale, temp, path)
    ensures |p0| <= |p1|
  {
  }

  lemma {:induction false} AllocRound(p0: seq<Pid>, p1: seq<Pid>, p2: seq<Pid>, list: seq<nat>, ss: seq<PidShape>,
                                      stale: bool, lost: bool,
                                      temp: seq<Pid>, path: seq<nat>, ts: nat, prog: nat, realloc: nat -> Realloc)
    requires |ss| < |list| == |path| && ChainState(p0, p1, list, ss, stale, temp, path, ts, prog)
    requires ChainAllocated(p0, p1, list, stale, temp, path[..|ss|], realloc)
    requires PidAllocated(p1, p2, lost, list[|ss|], temp, path[|ss|], realloc)
    ensures ChainAllocated(p0, p2, list, stale || lost, temp, path[..|ss| + 1], realloc)
  {
    hide EcmAlloc, Taken, Siblings, ChainTrees, Roots, AnyLost, SameSizes, Growth;
    if Reserved(p0, list) {
      StillReserved(p0, p1, list, ss);
      EcmAllocAdds(Alloc(Flags(p1), stale), temp, path[|ss|], realloc);
      assert path[..|ss| + 1][..|ss|] == path[..|ss|];
    }
  }

  /**
    The loop that copies a chain of sibling PIDs into the slots of list; the source runs it for
    elementary streams, program ECMs, EMMs and other PIDs. Slots that may see a nested
    allocation must already be marked valid.
   */
  method CopyChain(live: TsInfo, ts: nat, prog: nat, list: seq<nat>, temp: TsInfo, head: nat)
    returns (code: Code, ghost ss: seq<PidShape>, ghost stale: bool)
    requires live != temp && live.Valid() && temp.Valid() && EcmsAreLeaves(temp.pids)
    requires NoDup(list) && (forall i :: 0 <= i < |list| ==> list[i] < |live.pids|)
    requires Reserved(live.pids, list) || NoEs(temp.pids, Path(temp.pids, head, |list|))
    modifies live`pids, live`pidBlock
    ensures live.Valid()
    ensures ts < |live.streams| ==>
              (code == Success <==> ChainOk(Flags(old(live.pids)), temp.pids, Path(temp.pids, head, |list|),
                                            live.realloc))
    ensures code == Success ==>
              && ChainCopied(old(live.pids), live.pids, list, ss, stale, temp.pids, head, ts, prog)
              && ChainAllocated(old(live.pids), live.pids, list, stale, temp.pids, Path(temp.pids, head, |list|),
                                live.realloc)
  {
    hide ChainState, SiblingCopied, ChainAllocated, PidAllocated, ChainOk, PidSucceeds, NoEs, Reserved;
    code, ss, stale := Success, [], false;
    ghost var tp, p0 := temp.pids, live.pids;
    ghost var path := Path(tp, head, |list|);
    ChainStart(p0, list, tp, path, ts, prog);
    AllocStart(p0, list, tp, live.realloc);
    NothingAsked(Flags(p0), tp, live.realloc);
    var i := 0;
    var at: nat := INDEX_INVALID;
    while i < |list|
      invariant 0 <= i <= |list| && code == Success && |ss| == i
      invariant live.Valid() && temp.pids == tp && AtRound(tp, path, i, at)
      invariant ChainState(p0, live.pids, list, ss, stale, tp, path, ts, prog)
      invariant ChainAllocated(p0, live.pids, list, stale, tp, path[..i], live.realloc)
      invariant ts < |live.streams| ==> ChainOk(Flags(p0), tp, path[..i], live.realloc)
    {
      PathStep(tp, head, |list|, i);
      at := if i == 0 then head else temp.pids[at].next;
      ghost var p1 := live.pids;
      ghost var s, lost, p2;
      code, s, lost, p2 :=
        CopySibling(live, ts, prog, list[i], if i + 1 < |list| then list[i + 1] else INDEX_INVALID, temp, at);
      if ts < |live.streams| {
        OkRound(p0, p1, list, ss, stale, tp, path, ts, prog, live.realloc, code == Success);
        if code != Success && ChainOk(Flags(p0), tp, path, live.realloc) {
          ChainOkPart(Flags(p0), tp, path, i + 1, live.realloc);
        }
      }
      if code != Success {
        return;
      }
      AllocRound(p0, p1, live.pids, list, ss, stale, lost, tp, path, ts, prog, live.realloc);
      ChainRound(p0, p1, p2, live.pids, list, ss, stale, s, lost, tp, path, ts, prog);
      stale := stale || lost;
      ss := ss + [s];
      i := i + 1;
    }
    assert path[..|list|] == path;
  }
}
