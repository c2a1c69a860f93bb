/**
  The trees that the pools represent. Reading follows the counts stored in the owner and the
  `next` links, the way every consumer of the pools walks them. A shape lists the slots that
  hold the nodes of a tree.
 */
module TsTree {
  import opened TsPool

  datatype PidTree = MissingPid | PidNode(data: PidData, ecms: seq<PidTree>)

  datatype ProgTree = MissingProg
    | ProgNode(data: ProgData, pcr: seq<PidTree>, es: seq<PidTree>, ps: seq<PidTree>)

  datatype StreamTree = MissingStream
    | StreamNode(data: StreamData, progs: seq<ProgTree>, emm: seq<PidTree>, other: seq<PidTree>)

  function ReadLeaf(pids: seq<Pid>, k: nat): PidTree {
    if k < |pids| then PidNode(pids[k].body.data, []) else MissingPid
  }

  function ReadLeaves(pids: seq<Pid>, path: seq<nat>): (r: seq<PidTree>)
    ensures |r| == |path|
  {
    seq(|path|, (i: nat) requires i < |path| => ReadLeaf(pids, path[i]))
  }

  function ReadPid(pids: seq<Pid>, k: nat): PidTree {
    if k >= |pids| then MissingPid
    else
      var b := pids[k].body;
      PidNode(b.data,
              if b.data.kind == EsPid
              then ReadLeaves(pids, Path(pids, b.ecmHead, b.ecmNum))
              else [])
  }

  function ReadPids(pids: seq<Pid>, head: nat, n: nat): (r: seq<PidTree>)
    ensures |r| == n
    ensures forall i: nat :: i < n ==> r[i] == ReadPid(pids, Path(pids, head, n)[i])
  {
    var path := Path(pids, head, n);
    seq(n, (i: nat) requires i < n => ReadPid(pids, path[i]))
  }

  function ReadProg(progs: seq<Prog>, pids: seq<Pid>, k: nat): ProgTree {
    if k >= |progs| then MissingProg
    else
      var b := progs[k].body;
      ProgNode(b.data,
               if b.pcr == INDEX_INVALID then [] else [ReadPid(pids, b.pcr)],
               ReadPids(pids, b.esHead, b.esNum),
               ReadPids(pids, b.psHead, b.psNum))
  }

  function ReadProgs(progs: seq<Prog>, pids: seq<Pid>, head: nat, n: nat): (r: seq<ProgTree>)
    ensures |r| == n
    ensures forall i: nat :: i < n ==> r[i] == ReadProg(progs, pids, Path(progs, head, n)[i])
  {
    var path := Path(progs, head, n);
    seq(n, (i: nat) requires i < n => ReadProg(progs, pids, path[i]))
  }

  function ReadStream(streams: seq<Stream>, progs: seq<Prog>, pids: seq<Pid>, k: nat): StreamTree {
    if k >= |streams| then MissingStream
    else
      var b := streams[k].body;
      StreamNode(b.data,
                 ReadProgs(progs, pids, b.progHead, b.progNum),
                 ReadPids(pids, b.emmHead, b.emmNum),
                 ReadPids(pids, b.otherHead, b.otherNum))
  }

  // ---------------------------------------------------------------- shapes

  datatype PidShape = PidShape(slot: nat, ecms: seq<nat>)
  datatype ProgShape = ProgShape(slot: nat, pcr: seq<PidShape>, es: seq<PidShape>, ps: seq<PidShape>)
  datatype StreamShape = StreamShape(progs: seq<ProgShape>, emm: seq<PidShape>, other: seq<PidShape>)

  /** The slots of a PID and its ECMs, each a slot of its own. */
  function Slots(s: PidShape): set<nat> { {s.slot} + (set e | e in s.ecms) }

  ghost predicate Proper(s: PidShape) {
    NoDup(s.ecms) && s.slot !in Elements(s.ecms)
  }

  /** All slots of a chain. */
  function SlotsOf(ss: seq<PidShape>): set<nat> {
    if ss == [] then {} else SlotsOf(ss[..|ss| - 1]) + Slots(ss[|ss| - 1])
  }

  /** No slot serves twice. */
  ghost predicate Apart(ss: seq<PidShape>) {
    ss == [] || (Apart(ss[..|ss| - 1]) && Proper(ss[|ss| - 1]) && SlotsOf(ss[..|ss| - 1]) !! Slots(ss[|ss| - 1]))
  }

  /** Number of ECMs below a chain. */
  function EcmCount(ss: seq<PidShape>): nat {
    if ss == [] then 0 else EcmCount(ss[..|ss| - 1]) + |ss[|ss| - 1].ecms|
  }

  function UsedByProg(s: ProgShape): set<nat> { SlotsOf(s.pcr) + SlotsOf(s.es) + SlotsOf(s.ps) }

  ghost predicate ApartProg(s: ProgShape) {
    && Apart(s.pcr) && Apart(s.es) && Apart(s.ps)
    && SlotsOf(s.pcr) !! SlotsOf(s.es) && SlotsOf(s.pcr) + SlotsOf(s.es) !! SlotsOf(s.ps)
  }

  function UsedByProgs(ss: seq<ProgShape>): set<nat> {
    if ss == [] then {} else UsedByProgs(ss[..|ss| - 1]) + UsedByProg(ss[|ss| - 1])
  }

  ghost predicate ApartProgs(ss: seq<ProgShape>) {
    ss == [] || (ApartProgs(ss[..|ss| - 1]) && ApartProg(ss[|ss| - 1])
                 && UsedByProgs(ss[..|ss| - 1]) !! UsedByProg(ss[|ss| - 1]))
  }

  /** Every PID slot of a stream's tree. */
  function UsedByStream(s: StreamShape): set<nat> {
    UsedByProgs(s.progs) + SlotsOf(s.emm) + SlotsOf(s.other)
  }

  ghost predicate ApartStream(s: StreamShape) {
    && ApartProgs(s.progs) && Apart(s.emm) && Apart(s.other)
    && UsedByProgs(s.progs) !! SlotsOf(s.emm) && UsedByProgs(s.progs) + SlotsOf(s.emm) !! SlotsOf(s.other)
  }

  /** Numbers of nodes. */
  function PidsSize(ts: seq<PidTree>): nat {
    if ts == [] then 0
    else
      var last := ts[|ts| - 1];
      PidsSize(ts[..|ts| - 1]) + 1 + (if last.PidNode? then |last.ecms| else 0)
  }

  function ProgSize(t: ProgTree): nat {
    if t.MissingProg? then 0 else PidsSize(t.pcr) + PidsSize(t.es) + PidsSize(t.ps)
  }

  function ProgsSize(ts: seq<ProgTree>): nat {
    if ts == [] then 0 else ProgsSize(ts[..|ts| - 1]) + ProgSize(ts[|ts| - 1])
  }

  function PidSlots(ss: seq<PidShape>): (r: seq<nat>)
    ensures |r| == |ss|
  {
    seq(|ss|, i requires 0 <= i < |ss| => ss[i].slot)
  }

  function ProgSlots(ss: seq<ProgShape>): (r: seq<nat>)
    ensures |r| == |ss|
  {
    seq(|ss|, i requires 0 <= i < |ss| => ss[i].slot)
  }

  lemma SlotsSnoc(ss: seq<PidShape>, s: PidShape)
    ensures SlotsOf(ss + [s]) == SlotsOf(ss) + Slots(s)
    ensures Apart(ss + [s]) <==> Apart(ss) && Proper(s) && SlotsOf(ss) !! Slots(s)
    ensures EcmCount(ss + [s]) == EcmCount(ss) + |s.ecms|
  {
    assert (ss + [s])[..|ss|] == ss;
  }

  lemma ProgSlotsSnoc(ss: seq<ProgShape>, q: ProgShape)
    ensures UsedByProgs(ss + [q]) == UsedByProgs(ss) + UsedByProg(q)
    ensures ApartProgs(ss + [q]) <==> ApartProgs(ss) && ApartProg(q) && UsedByProgs(ss) !! UsedByProg(q)
  {
    hide UsedByProg, ApartProg;
    assert (ss + [q])[..|ss|] == ss;
  }

  lemma {:induction false} SlotsOfHas(ss: seq<PidShape>, j: nat)
    requires j < |ss|
    ensures Slots(ss[j]) <= SlotsOf(ss)
  {
    if j < |ss| - 1 {
      SlotsOfHas(ss[..|ss| - 1], j);
    }
  }

  /** The slots of a chain other than the siblings themselves are at most its ECMs. */
  lemma {:induction false} EcmSlots(ss: seq<PidShape>, siblings: set<nat>)
    requires forall j :: 0 <= j < |ss| ==> ss[j].slot in siblings
    ensures |SlotsOf(ss) - siblings| <= EcmCount(ss)
  {
    if ss != [] {
      var init, last := ss[..|ss| - 1], ss[|ss| - 1];
      EcmSlots(init, siblings);
      SizeOfElements(last.ecms);
      var a, b := SlotsOf(init) - siblings, Elements(last.ecms);
      SubsetSize(SlotsOf(ss) - siblings, a + b);
    }
  }

  // ---------------------------------------------------------------- nodes in place

  /** Slot k holds a leaf node of the tree, owned by (ts, prog, parent). */
  ghost predicate LeafAt(pids: seq<Pid>, k: nat, t: PidTree, ts: nat, prog: nat, parent: nat) {
    && k < |pids|
    && pids[k].valid && pids[k].index == k
    && pids[k].body.ts == ts && pids[k].body.prog == prog && pids[k].body.parent == parent
    && t == PidNode(pids[k].body.data, [])
  }

  /**
    The slots of s hold the tree t, every node owned by (ts, prog); the ECMs carry ecmParent as
    their owning PID and form a chain of their own, ended by INDEX_INVALID.
   */
  ghost predicate PidAt(pids: seq<Pid>, s: PidShape, t: PidTree, ts: nat, prog: nat, ecmParent: nat) {
    && s.slot < |pids|
    && var p := pids[s.slot];
    && p.valid && p.index == s.slot
    && p.body.ts == ts && p.body.prog == prog && p.body.parent == INDEX_INVALID
    && t.PidNode? && t.data == p.body.data
    && |t.ecms| == |s.ecms|
    && (p.body.data.kind != EsPid ==> s.ecms == [])
    && (p.body.data.kind == EsPid ==> p.body.ecmNum == |s.ecms| && Linked(pids, p.body.ecmHead, s.ecms))
    && (forall j :: 0 <= j < |s.ecms| ==> LeafAt(pids, s.ecms[j], t.ecms[j], ts, prog, ecmParent))
  }

  /** Owning PID of the ECMs below slot k: the slot itself, or nothing when `orphan`. */
  function EcmParent(orphan: bool, k: nat): nat { if orphan then INDEX_INVALID else k }

  /** A chain of PIDs with their subtrees. */
  ghost predicate PidsAt(pids: seq<Pid>, head: nat, ss: seq<PidShape>, ts: seq<PidTree>,
                         stream: nat, prog: nat, orphan: bool)
  {
    && |ss| == |ts|
    && Linked(pids, head, PidSlots(ss))
    && (forall j :: 0 <= j < |ss| ==>
          PidAt(pids, ss[j], ts[j], stream, prog, EcmParent(orphan, ss[j].slot)))
  }

  lemma PidAtReads(pids: seq<Pid>, s: PidShape, t: PidTree, ts: nat, prog: nat, ecmParent: nat)
    requires PidAt(pids, s, t, ts, prog, ecmParent)
    ensures ReadPid(pids, s.slot) == t
  {
    var b := pids[s.slot].body;
    if b.data.kind == EsPid {
      forall i | 0 <= i < |s.ecms| ensures ReadPid(pids, s.slot).ecms[i] == t.ecms[i] {
        NthOfLinked(pids, b.ecmHead, s.ecms, i);
      }
      assert ReadPid(pids, s.slot).ecms == t.ecms;
    } else {
      assert t.ecms == [];
    }
  }

  lemma PidsAtReads(pids: seq<Pid>, head: nat, ss: seq<PidShape>, ts: seq<PidTree>,
                    stream: nat, prog: nat, orphan: bool)
    requires PidsAt(pids, head, ss, ts, stream, prog, orphan)
    ensures ReadPids(pids, head, |ss|) == ts
  {
    forall i | 0 <= i < |ss| ensures ReadPids(pids, head, |ss|)[i] == ts[i] {
      NthOfLinked(pids, head, PidSlots(ss), i);
      PidAtReads(pids, ss[i], ts[i], stream, prog, EcmParent(orphan, ss[i].slot));
    }
  }

  ghost predicate ProgAt(progs: seq<Prog>, pids: seq<Pid>, s: ProgShape, t: ProgTree, ts: nat, orphan: bool) {
    && s.slot < |progs|
    && var p := progs[s.slot];
    && p.valid && p.index == s.slot && p.body.ts == ts
    && t.ProgNode? && t.data == p.body.data
    && |s.pcr| == |t.pcr| <= 1
    && (if s.pcr == [] then p.body.pcr == INDEX_INVALID
        else p.body.pcr == s.pcr[0].slot < INDEX_INVALID
             && PidAt(pids, s.pcr[0], t.pcr[0], ts, s.slot, EcmParent(orphan, s.pcr[0].slot)))
    && p.body.esNum == |s.es| && PidsAt(pids, p.body.esHead, s.es, t.es, ts, s.slot, orphan)
    && p.body.psNum == |s.ps| && PidsAt(pids, p.body.psHead, s.ps, t.ps, ts, s.slot, orphan)
  }

  lemma ProgAtReads(progs: seq<Prog>, pids: seq<Pid>, s: ProgShape, t: ProgTree, ts: nat, orphan: bool)
    requires ProgAt(progs, pids, s, t, ts, orphan)
    ensures ReadProg(progs, pids, s.slot) == t
  {
    var b := progs[s.slot].body;
    PidsAtReads(pids, b.esHead, s.es, t.es, ts, s.slot, orphan);
    PidsAtReads(pids, b.psHead, s.ps, t.ps, ts, s.slot, orphan);
    if s.pcr != [] {
      PidAtReads(pids, s.pcr[0], t.pcr[0], ts, s.slot, EcmParent(orphan, s.pcr[0].slot));
      assert t.pcr == [t.pcr[0]];
    } else {
      assert t.pcr == [];
    }
  }

  ghost predicate StreamAt(streams: seq<Stream>, progs: seq<Prog>, pids: seq<Pid>, k: nat,
                           s: StreamShape, t: StreamTree, orphan: bool)
  {
    && k < |streams|
    && var b := streams[k].body;
    && streams[k].valid && streams[k].index == k
    && t.StreamNode? && t.data == b.data
    && b.progNum == |s.progs| == |t.progs|
    && Linked(progs, b.progHead, ProgSlots(s.progs))
    && (forall j :: 0 <= j < |s.progs| ==> ProgAt(progs, pids, s.progs[j], t.progs[j], k, orphan))
    && b.emmNum == |s.emm| && PidsAt(pids, b.emmHead, s.emm, t.emm, k, INDEX_INVALID, orphan)
    && b.otherNum == |s.other| && PidsAt(pids, b.otherHead, s.other, t.other, k, INDEX_INVALID, orphan)
  }

  /** The slots of a shape that is in place read back as the tree. */
  lemma StreamAtReads(streams: seq<Stream>, progs: seq<Prog>, pids: seq<Pid>, k: nat,
                      s: StreamShape, t: StreamTree, orphan: bool)
    requires StreamAt(streams, progs, pids, k, s, t, orphan)
    ensures ReadStream(streams, progs, pids, k) == t
  {
    var b := streams[k].body;
    forall i | 0 <= i < |s.progs| ensures ReadProgs(progs, pids, b.progHead, b.progNum)[i] == t.progs[i] {
      NthOfLinked(progs, b.progHead, ProgSlots(s.progs), i);
      ProgAtReads(progs, pids, s.progs[i], t.progs[i], k, orphan);
    }
    PidsAtReads(pids, b.emmHead, s.emm, t.emm, k, INDEX_INVALID, orphan);
    PidsAtReads(pids, b.otherHead, s.other, t.other, k, INDEX_INVALID, orphan);
  }

  // ---------------------------------------------------------------- stability

  /** A tree stays in place while the slots of its shape do not change. */
  lemma PidAtStable(p0: seq<Pid>, p1: seq<Pid>, s: PidShape, t: PidTree, ts: nat, prog: nat, ecmParent: nat)
    requires PidAt(p0, s, t, ts, prog, ecmParent)
    requires |p0| <= |p1|
    requires p1[s.slot] == p0[s.slot]
             || (p1[s.slot].(next := 0) == p0[s.slot].(next := 0))
    requires forall j :: 0 <= j < |s.ecms| ==> s.ecms[j] < |p0| && p1[s.ecms[j]] == p0[s.ecms[j]]
    ensures PidAt(p1, s, t, ts, prog, ecmParent)
  {
  }

  /** New slots come from free slots. */
  ghost predicate WereFree(p0: seq<Pid>, p1: seq<Pid>, slots: set<nat>) {
    forall e :: e in slots ==> e < |p1| && p1[e].valid && (e < |p0| ==> !p0[e].valid)
  }

  /** Only `used` changed, and those slots were free before: no slot is shared, none is leaked. */
  ghost predicate NewlyTaken(p0: seq<Pid>, p1: seq<Pid>, used: set<nat>) {
    Frame(p0, p1, used) && WereFree(p0, p1, used)
  }

  /** `used` slots of p1 are the same in p2. */
  ghost predicate Keeps(p1: seq<Pid>, p2: seq<Pid>, used: set<nat>) {
    |p1| <= |p2| && forall e :: e in used ==> e < |p1| && p2[e] == p1[e]
  }

  lemma KeepsLess(p1: seq<Pid>, p2: seq<Pid>, a: set<nat>, b: set<nat>)
    requires Keeps(p1, p2, a) && b <= a
    ensures Keeps(p1, p2, b)
  {
  }

  /** Copies made one after the other use different slots. */
  lemma TakenTwice(p0: seq<Pid>, p1: seq<Pid>, p2: seq<Pid>, a: set<nat>, b: set<nat>)
    requires NewlyTaken(p0, p1, a) && NewlyTaken(p1, p2, b)
    ensures NewlyTaken(p0, p2, a + b) && a !! b && Keeps(p1, p2, a)
  {
    forall e | e in a ensures e !in b {
      assert p1[e].valid;
    }
    forall e | e in b ensures e < |p0| ==> !p0[e].valid {
      if e < |p0| {
        assert p1[e] == p0[e] || e in a;
      }
    }
    forall k | |p0| <= k < |p2| && k !in a + b ensures !p2[k].valid {
      if k < |p1| {
        assert p2[k] == p1[k];
      }
    }
  }

  lemma UsedByProgsHas(ss: seq<ProgShape>, j: nat)
    requires j < |ss|
    ensures UsedByProg(ss[j]) <= UsedByProgs(ss)
  {
    if j < |ss| - 1 {
      UsedByProgsHas(ss[..|ss| - 1], j);
    }
  }

  /** A chain stays in place while its slots do not change. */
  lemma PidsAtStable(p0: seq<Pid>, p1: seq<Pid>, head: nat, ss: seq<PidShape>, trees: seq<PidTree>,
                     ts: nat, prog: nat, orphan: bool)
    requires PidsAt(p0, head, ss, trees, ts, prog, orphan)
    requires |p0| <= |p1| && forall e :: e in SlotsOf(ss) ==> e < |p0| && p1[e] == p0[e]
    ensures PidsAt(p1, head, ss, trees, ts, prog, orphan)
  {
    forall j | 0 <= j < |ss|
      ensures PidSlots(ss)[j] < |p1| && p1[PidSlots(ss)[j]] == p0[PidSlots(ss)[j]]
      ensures PidAt(p1, ss[j], trees[j], ts, prog, EcmParent(orphan, ss[j].slot))
    {
      SlotsOfHas(ss, j);
      assert ss[j].slot in Slots(ss[j]);
      assert forall k :: 0 <= k < |ss[j].ecms| ==> ss[j].ecms[k] in Slots(ss[j]);
      PidAtStable(p0, p1, ss[j], trees[j], ts, prog, EcmParent(orphan, ss[j].slot));
    }
  }

  lemma PcrStable(p1: seq<Pid>, p2: seq<Pid>, pcrs: seq<PidShape>, t: PidTree, ts: nat, dst: nat, ecmParent: nat)
    requires |pcrs| == 1 && PidAt(p1, pcrs[0], t, ts, dst, ecmParent) && Keeps(p1, p2, SlotsOf(pcrs))
    ensures PidAt(p2, pcrs[0], t, ts, dst, ecmParent) && pcrs[0].slot < |p2|
  {
    SlotsOfHas(pcrs, 0);
    assert pcrs[0].slot in Slots(pcrs[0]);
    assert forall k :: 0 <= k < |pcrs[0].ecms| ==> pcrs[0].ecms[k] in Slots(pcrs[0]);
    PidAtStable(p1, p2, pcrs[0], t, ts, dst, ecmParent);
  }

  lemma ProgAtStable(g1: seq<Prog>, g2: seq<Prog>, p1: seq<Pid>, p2: seq<Pid>, s: ProgShape, t: ProgTree, ts: nat,
                     orphan: bool)
    requires ProgAt(g1, p1, s, t, ts, orphan) && Keeps(p1, p2, UsedByProg(s))
    requires s.slot < |g2| && g2[s.slot].(next := 0) == g1[s.slot].(next := 0)
    ensures ProgAt(g2, p2, s, t, ts, orphan)
  {
    hide PidAt, PidsAt, SlotsOf, Linked;
    var b := g1[s.slot].body;
    PidsAtStable(p1, p2, b.esHead, s.es, t.es, ts, s.slot, orphan);
    PidsAtStable(p1, p2, b.psHead, s.ps, t.ps, ts, s.slot, orphan);
    if s.pcr != [] {
      PcrStable(p1, p2, s.pcr, t.pcr[0], ts, s.slot, EcmParent(orphan, s.pcr[0].slot));
    }
  }
}
