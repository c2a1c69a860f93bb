/**
  The PIDs that the table collects, seen from the tree of the stream: none of its nodes is missed,
  and nothing else is sent on.
 */
module LutTree {
  import opened TsPool
  import opened TsTree
  import opened TsPmt
  import opened TsScan
  import opened TsTheorems
  import opened Lut

  // ---------------------------------------------------------------- PIDs of a tree

  function PidIn(t: PidTree): set<nat> { if t.PidNode? then {t.data.pid} else {} }

  function PidsIn(ts: seq<PidTree>): set<nat> {
    if ts == [] then {} else PidsIn(ts[..|ts| - 1]) + PidIn(ts[|ts| - 1])
  }

  /** With the PIDs one level below. */
  function ForestPids(ts: seq<PidTree>): set<nat> {
    if ts == [] then {}
    else
      var t := ts[|ts| - 1];
      ForestPids(ts[..|ts| - 1]) + PidIn(t) + (if t.PidNode? then PidsIn(t.ecms) else {})
  }

  function ProgTreePids(t: ProgTree): set<nat> {
    if t.ProgNode? then {t.data.pcrPid} + ForestPids(t.es) + ForestPids(t.ps) else {}
  }

  /** The PIDs of the programs that are sent on. */
  function SentPids(ss: seq<ProgShape>, ts: seq<ProgTree>, sent: nat -> bool): set<nat>
    requires |ss| == |ts|
  {
    if ts == [] then {}
    else
      var n := |ts| - 1;
      SentPids(ss[..n], ts[..n], sent) + (if sent(ss[n].slot) then ProgTreePids(ts[n]) else {})
  }

  function PmtPids(ts: seq<ProgTree>): set<nat> {
    if ts == [] then {}
    else var t := ts[|ts| - 1]; PmtPids(ts[..|ts| - 1]) + (if t.ProgNode? then {t.data.pmtPid} else {})
  }

  /**
    What the channel of a stream is to send on: PAT, SDT, the PMTs, and the PIDs of the tree but for
    programs held back.
   */
  function TreePids(s: StreamShape, t: StreamTree, sent: nat -> bool): set<nat>
    requires t.StreamNode? && |s.progs| == |t.progs|
  {
    {0, 17} + PmtPids(t.progs) + SentPids(s.progs, t.progs, sent) + ForestPids(t.emm) + ForestPids(t.other)
  }

  // ---------------------------------------------------------------- the walk finds them

  lemma ElementsOf(a: seq<nat>, b: seq<nat>)
    ensures Elements(a + b) == Elements(a) + Elements(b)
  {
  }

  lemma ElementOf(x: nat)
    ensures Elements([x]) == {x} && Elements([]) == {}
  {
  }

  lemma {:induction false} LeavesFound(pids: seq<Pid>, path: seq<nat>, ts: seq<PidTree>)
    requires |path| == |ts|
    requires forall j :: 0 <= j < |ts| ==> path[j] < |pids| && ts[j] == PidNode(pids[path[j]].body.data, [])
    ensures Elements(PidsOf(pids, path)) == PidsIn(ts)
    decreases |ts|
  {
    if ts == [] {
      assert PidsOf(pids, path) == [];
    } else {
      var n := |ts| - 1;
      LeavesFound(pids, path[..n], ts[..n]);
      assert PidsOf(pids, path) == PidsOf(pids, path[..n]) + [PidOf(pids, path[n])];
      ElementsOf(PidsOf(pids, path[..n]), [PidOf(pids, path[n])]);
      ElementOf(PidOf(pids, path[n]));
    }
  }

  /** Of one node of a chain: its PID, and its ECMs as the walk follows them. */
  lemma {:induction false} NodeFound(pids: seq<Pid>, s: PidShape, t: PidTree, ts: nat, prog: nat, ecmParent: nat)
    requires PidAt(pids, s, t, ts, prog, ecmParent) && t.data.kind == EsPid
    ensures s.slot < |pids| && PidOf(pids, s.slot) == t.data.pid
    ensures Elements(PidsOf(pids, Path(pids, pids[s.slot].body.ecmHead, pids[s.slot].body.ecmNum))) == PidsIn(t.ecms)
  {
    PathOfLinked(pids, pids[s.slot].body.ecmHead, s.ecms);
    LeavesFound(pids, s.ecms, t.ecms);
  }

  lemma {:induction false} EsFound(pids: seq<Pid>, ss: seq<PidShape>, trees: seq<PidTree>, ts: nat, prog: nat,
                                   orphan: bool)
    requires |ss| == |trees| && forall j :: 0 <= j < |ss| ==> PidAt(pids, ss[j], trees[j], ts, prog,
                                                                    EcmParent(orphan, ss[j].slot))
    requires EsForest(trees)
    ensures Elements(EsPids(pids, PidSlots(ss))) == ForestPids(trees)
    decreases |ss|
  {
    hide PidAt, Path, PidsOf, LeafTrees;
    if ss == [] {
      ElementOf(0);
    } else {
      var n := |ss| - 1;
      var s, t := ss[n], trees[n];
      EsFound(pids, ss[..n], trees[..n], ts, prog, orphan);
      NodeFound(pids, s, t, ts, prog, EcmParent(orphan, s.slot));
      assert PidSlots(ss)[..n] == PidSlots(ss[..n]);
      var before := EsPids(pids, PidSlots(ss[..n]));
      var ecms := PidsOf(pids, Path(pids, pids[s.slot].body.ecmHead, pids[s.slot].body.ecmNum));
      ElementsOf(before, [t.data.pid]);
      ElementsOf(before + [t.data.pid], ecms);
      ElementOf(t.data.pid);
    }
  }

  /** A chain of leaves. */
  lemma {:induction false} ChainFound(pids: seq<Pid>, head: nat, ss: seq<PidShape>, trees: seq<PidTree>, ts: nat,
                                      prog: nat, orphan: bool)
    requires PidsAt(pids, head, ss, trees, ts, prog, orphan) && LeafTrees(trees)
    ensures Elements(PidsOf(pids, Path(pids, head, |ss|))) == ForestPids(trees)
  {
    PathOfLinked(pids, head, PidSlots(ss));
    LeavesFound(pids, PidSlots(ss), trees);
    LeavesOnly(trees);
  }

  lemma {:induction false} LeavesOnly(ts: seq<PidTree>)
    requires LeafTrees(ts)
    ensures ForestPids(ts) == PidsIn(ts)
  {
    if ts != [] {
      LeavesOnly(ts[..|ts| - 1]);
      assert PidsIn([]) == {};
    }
  }

  lemma {:induction false} ProgFound(progs: seq<Prog>, pids: seq<Pid>, s: ProgShape, t: ProgTree, ts: nat, orphan: bool)
    requires ProgAt(progs, pids, s, t, ts, orphan) && ProgScan(t)
    ensures Elements(ProgPids(progs, pids, s.slot)) == ProgTreePids(t)
  {
    hide PidAt, Path, PidsOf, EsPids, LeafTrees, EsForest, ForestPids, Linked;
    var b := progs[s.slot].body;
    PathOfLinked(pids, b.esHead, PidSlots(s.es));
    EsFound(pids, s.es, t.es, ts, s.slot, orphan);
    ChainFound(pids, b.psHead, s.ps, t.ps, ts, s.slot, orphan);
    var es, ps := EsPids(pids, Path(pids, b.esHead, b.esNum)), PidsOf(pids, Path(pids, b.psHead, b.psNum));
    ElementsOf([b.data.pcrPid], es);
    ElementsOf([b.data.pcrPid] + es, ps);
    ElementOf(b.data.pcrPid);
  }

  lemma {:induction false} ProgsFound(progs: seq<Prog>, pids: seq<Pid>, ss: seq<ProgShape>, trees: seq<ProgTree>,
                                      ts: nat, orphan: bool, sent: nat -> bool)
    requires |ss| == |trees| && forall j :: 0 <= j < |ss| ==>
              ProgAt(progs, pids, ss[j], trees[j], ts, orphan) && ProgScan(trees[j])
    ensures Elements(ProgsPids(progs, pids, ProgSlots(ss), sent)) == SentPids(ss, trees, sent)
    decreases |ss|
  {
    hide ProgAt, ProgScan, ProgPids, ProgTreePids;
    if ss == [] {
      ElementOf(0);
    } else {
      var n := |ss| - 1;
      ProgsFound(progs, pids, ss[..n], trees[..n], ts, orphan, sent);
      ProgFound(progs, pids, ss[n], trees[n], ts, orphan);
      assert ProgSlots(ss)[..n] == ProgSlots(ss[..n]);
      ElementsOf(ProgsPids(progs, pids, ProgSlots(ss[..n]), sent),
                 if sent(ss[n].slot) then ProgPids(progs, pids, ss[n].slot) else []);
      ElementOf(0);
    }
  }

  lemma {:induction false} PmtsFound(progs: seq<Prog>, pids: seq<Pid>, ss: seq<ProgShape>, trees: seq<ProgTree>,
                                     ts: nat, orphan: bool)
    requires |ss| == |trees| && forall j :: 0 <= j < |ss| ==> ProgAt(progs, pids, ss[j], trees[j], ts, orphan)
    ensures Elements(PmtPidsOf(progs, ProgSlots(ss))) == PmtPids(trees)
    decreases |ss|
  {
    hide PidAt, PidsAt;
    if ss == [] {
      ElementOf(0);
    } else {
      var n := |ss| - 1;
      PmtsFound(progs, pids, ss[..n], trees[..n], ts, orphan);
      var pmt := trees[n].data.pmtPid;
      assert PmtPidsOf(progs, ProgSlots(ss)) == PmtPidsOf(progs, ProgSlots(ss[..n])) + [pmt];
      ElementsOf(PmtPidsOf(progs, ProgSlots(ss[..n])), [pmt]);
      ElementOf(pmt);
    }
  }

  /** What is to be sent on besides the PMTs. */
  function RestPids(s: StreamShape, t: StreamTree, sent: nat -> bool): set<nat>
    requires t.StreamNode? && |s.progs| == |t.progs|
  {
    {0, 17} + SentPids(s.progs, t.progs, sent) + ForestPids(t.emm) + ForestPids(t.other)
  }

  /**
    The nested walks visit exactly the PIDs of the tree, whether it was scanned here or copied here,
    and the PMTs of the programs met first.
   */
  lemma {:induction false} WalkFindsTheRest(streams: seq<Stream>, progs: seq<Prog>, pids: seq<Pid>, k: nat,
                                            s: StreamShape,
                                            t: StreamTree, orphan: bool, sent: nat -> bool, first: seq<nat>)
    requires StreamAt(streams, progs, pids, k, s, t, orphan) && StreamScan(t)
    ensures Elements(Wanted(progs, pids, streams[k].body, first, sent))
         == RestPids(s, t, sent) + Elements(PmtPidsOf(progs, first))
  {
    hide PidAt, PidsAt, ProgAt, ProgScan, LeafTrees, Linked, ForestPids, PmtPids, SentPids, ProgsPids, PmtPidsOf,
      PidsOf, Path;
    var b := streams[k].body;
    PathOfLinked(progs, b.progHead, ProgSlots(s.progs));
    ProgsFound(progs, pids, s.progs, t.progs, k, orphan, sent);
    ChainFound(pids, b.emmHead, s.emm, t.emm, k, INDEX_INVALID, orphan);
    ChainFound(pids, b.otherHead, s.other, t.other, k, INDEX_INVALID, orphan);
    var path := Path(progs, b.progHead, b.progNum);
    var pmts, programs := PmtPidsOf(progs, first), ProgsPids(progs, pids, path, sent);
    var emms := PidsOf(pids, Path(pids, b.emmHead, b.emmNum));
    var others := PidsOf(pids, Path(pids, b.otherHead, b.otherNum));
    ElementsOf(programs, emms);
    ElementsOf(programs + emms, others);
    ElementsOf([0, 17], pmts);
    ElementsOf([0, 17] + pmts, programs + emms + others);
    assert Elements([0, 17]) == {0, 17};
  }

  /** If these are the programs of the stream itself, the walks visit exactly the PIDs of its tree. */
  lemma {:induction false} WalkFindsTheTree(streams: seq<Stream>, progs: seq<Prog>, pids: seq<Pid>, k: nat,
                                            s: StreamShape, t: StreamTree, orphan: bool, sent: nat -> bool)
    requires StreamAt(streams, progs, pids, k, s, t, orphan) && StreamScan(t)
    ensures var b := streams[k].body;
            var first := Path(progs, b.progHead, b.progNum);
            && Elements(PmtPidsOf(progs, first)) == PmtPids(t.progs)
            && Elements(Wanted(progs, pids, b, first, sent)) == TreePids(s, t, sent)
  {
    hide PidAt, PidsAt, ProgAt, ProgScan, LeafTrees, Linked, ForestPids, PmtPids, SentPids, ProgsPids, PmtPidsOf,
      PidsOf, Path, Wanted;
    var b := streams[k].body;
    PathOfLinked(progs, b.progHead, ProgSlots(s.progs));
    PmtsFound(progs, pids, s.progs, t.progs, k, orphan);
    WalkFindsTheRest(streams, progs, pids, k, s, t, orphan, sent, Path(progs, b.progHead, b.progNum));
  }
}
