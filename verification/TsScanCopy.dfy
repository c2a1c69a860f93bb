/**
  A finished scan is fit to be copied, and what the copy stands for is what the tables said.
 */
module TsScanCopy {
  import opened TsPool
  import opened TsTree
  import opened TsBuild
  import opened TsPmt
  import opened TsScan
  import opened TsCopy
  import opened TsCopyProg
  import opened TsCopyStream
  import opened TsTheorems

  lemma {:induction false} RootHasLeaves(pids: seq<Pid>, s: PidShape, t: PidTree, ts: nat, prog: nat)
    requires PidAt(pids, s, t, ts, prog, s.slot) && t.data.kind == EsPid && LeafTrees(t.ecms)
    ensures s.slot < |pids| && NoEs(pids, EcmPath(pids, s.slot))
  {
    PathOfLinked(pids, pids[s.slot].body.ecmHead, s.ecms);
  }

  lemma {:induction false} LeavesHaveNoEs(pids: seq<Pid>, head: nat, ss: seq<PidShape>, trees: seq<PidTree>, ts: nat,
                                          prog: nat)
    requires PidsAt(pids, head, ss, trees, ts, prog, false) && LeafTrees(trees)
    ensures NoEs(pids, Path(pids, head, |ss|))
  {
    PathOfLinked(pids, head, PidSlots(ss));
  }

  lemma {:induction false} EsOfProgHasLeaves(progs: seq<Prog>, pids: seq<Pid>, q: ProgShape, t: ProgTree, ts: nat,
                                             k: nat)
    requires ProgAt(progs, pids, q, t, ts, false) && ProgScan(t) && k in Elements(PidSlots(q.es))
    ensures k < |pids| && NoEs(pids, EcmPath(pids, k))
  {
    hide PidAt, LeafTrees, Linked;
    var j :| 0 <= j < |q.es| && PidSlots(q.es)[j] == k;
    RootHasLeaves(pids, q.es[j], t.es[j], ts, q.slot);
  }

  lemma {:induction false} BuiltEcms(progs: seq<Prog>, pids: seq<Pid>, ss: seq<ProgShape>, trees: seq<ProgTree>,
                                     ts: nat)
    requires |ss| == |trees| && Clean(pids) && EsInTree(pids, ss)
    requires forall j :: 0 <= j < |ss| ==> ProgAt(progs, pids, ss[j], trees[j], ts, false) && ProgScan(trees[j])
    ensures EcmsAreLeaves(pids)
  {
    forall k | 0 <= k < |pids| && pids[k].body.data.kind == EsPid ensures NoEs(pids, EcmPath(pids, k)) {
      hide ProgAt, ProgScan, NoEs, EcmPath;
      var i :| 0 <= i < |ss| && k in Elements(PidSlots(ss[i].es));
      EsOfProgHasLeaves(progs, pids, ss[i], trees[i], ts, k);
    }
  }

  lemma {:induction false} BuiltSource(progs: seq<Prog>, pids: seq<Pid>, s: ProgShape, t: ProgTree, ts: nat)
    requires ProgAt(progs, pids, s, t, ts, false) && ProgScan(t)
    ensures SourceProg(progs, s.slot)
  {
    hide PidAt, Linked, LeafTrees, EsForest;
  }

  /** A pool in the state of a scan meets what the copy asks of its source, and reads back as the tree. */
  lemma {:induction false} BuiltIsScanned(temp: TsInfo, src: nat, s: StreamShape, t: StreamTree)
    requires temp.Valid() && Built(temp.streams, temp.progs, temp.pids, src, s, t)
    ensures Scanned(temp, src)
    ensures ReadStream(temp.streams, temp.progs, temp.pids, src) == t
  {
    hide PidAt, ProgAt, ProgScan, LeafTrees, EcmsAreLeaves, NoEs, SourceProg, Linked, PidsAt, Path, ApartStream, Clean,
      EsInTree;
    var b := temp.streams[src].body;
    StreamAtReads(temp.streams, temp.progs, temp.pids, src, s, t, false);
    BuiltEcms(temp.progs, temp.pids, s.progs, t.progs, src);
    PathOfLinked(temp.progs, b.progHead, ProgSlots(s.progs));
    forall j | 0 <= j < |s.progs| ensures SourceProg(temp.progs, ProgSlots(s.progs)[j]) {
      BuiltSource(temp.progs, temp.pids, s.progs[j], t.progs[j], src);
    }
    LeavesHaveNoEs(temp.pids, b.emmHead, s.emm, t.emm, src, INDEX_INVALID);
    LeavesHaveNoEs(temp.pids, b.otherHead, s.other, t.other, src, INDEX_INVALID);
  }

  // ---------------------------------------------------------------- the other streams

  lemma {:induction false} ProgUndisturbed(g0: seq<Prog>, g1: seq<Prog>, p0: seq<Pid>, p1: seq<Pid>, s: ProgShape,
                                           t: ProgTree, ts: nat, orphan: bool)
    requires ProgAt(g0, p0, s, t, ts, orphan) && InUseKept(g0, g1) && InUseKept(p0, p1)
    ensures ProgAt(g1, p1, s, t, ts, orphan) && s.slot < |g0| && g0[s.slot].valid
  {
    hide PidAt, PidsAt, SlotsOf;
    ProgInUse(g0, p0, s, t, ts, orphan);
    assert Keeps(p0, p1, UsedByProg(s));
    ProgAtStable(g0, g1, p0, p1, s, t, ts, orphan);
  }

  lemma {:induction false} ChainUndisturbed(p0: seq<Pid>, p1: seq<Pid>, head: nat, ss: seq<PidShape>,
                                            trees: seq<PidTree>, ts: nat, orphan: bool)
    requires PidsAt(p0, head, ss, trees, ts, INDEX_INVALID, orphan) && InUseKept(p0, p1)
    ensures PidsAt(p1, head, ss, trees, ts, INDEX_INVALID, orphan)
  {
    hide PidAt, SlotsOf, Linked;
    ChainInUse(p0, ss, trees, ts, INDEX_INVALID, orphan);
    PidsAtStable(p0, p1, head, ss, trees, ts, INDEX_INVALID, orphan);
  }

  /**
    Whatever is copied, and whether or not a head is lost, every other stream of the live pools
    still stands for the same tree and reads the same.
   */
  lemma {:induction false} OtherStreamsReadTheSame(streams0: seq<Stream>, streams1: seq<Stream>, g0: seq<Prog>,
                                                   g1: seq<Prog>,
                                                   p0: seq<Pid>, p1: seq<Pid>, dst: nat, copied: StreamShape,
                                                   stale: bool, tree: StreamTree,
                                                   k: nat, s: StreamShape, t: StreamTree, orphan: bool)
    requires StreamCopied(streams1, g0, g1, p0, p1, dst, copied, stale, tree)
    requires dst < |streams0| == |streams1| && streams1 == streams0[dst := streams1[dst]] && k != dst
    requires StreamAt(streams0, g0, p0, k, s, t, orphan)
    ensures StreamAt(streams1, g1, p1, k, s, t, orphan)
    ensures ReadStream(streams1, g1, p1, k) == ReadStream(streams0, g0, p0, k) == t
  {
    hide PidAt, PidsAt, ProgAt, ApartStream, NewlyTaken, ReadStream;
    NewIsTaken(p0, p1, UsedByStream(copied));
    NewIsElements(g0, g1, ProgSlots(copied.progs));
    var b := streams0[k].body;
    forall j | 0 <= j < |s.progs|
      ensures ProgAt(g1, p1, s.progs[j], t.progs[j], k, orphan) && s.progs[j].slot < |g0| && g0[s.progs[j].slot].valid
    {
      ProgUndisturbed(g0, g1, p0, p1, s.progs[j], t.progs[j], k, orphan);
    }
    ChainUndisturbed(p0, p1, b.emmHead, s.emm, t.emm, k, orphan);
    ChainUndisturbed(p0, p1, b.otherHead, s.other, t.other, k, orphan);
    StreamAtReads(streams0, g0, p0, k, s, t, orphan);
    StreamAtReads(streams1, g1, p1, k, s, t, orphan);
  }
}
