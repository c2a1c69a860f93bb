/**
  One scan: the tree that PAT, PMT, CAT and other PIDs build up in a pool of its own. Every call
  keeps the pool in the state `Built`, and a pool in that state is fit to be copied.
 */
module TsScan {
  import opened TsPool
  import opened TsTree
  import opened TsAppend
  import opened TsBuild
  import opened TsPmt

  // ---------------------------------------------------------------- the state of a scan

  ghost predicate LeafTrees(ts: seq<PidTree>) {
    forall j :: 0 <= j < |ts| ==> ts[j].PidNode? && ts[j].ecms == [] && ts[j].data.kind != EsPid
  }

  ghost predicate EsForest(ts: seq<PidTree>) {
    forall j :: 0 <= j < |ts| ==> ts[j].PidNode? && ts[j].data.kind == EsPid && LeafTrees(ts[j].ecms)
  }

  ghost predicate ProgScan(t: ProgTree) {
    t.ProgNode? && LeafTrees(t.pcr) && LeafTrees(t.ps) && EsForest(t.es) && |t.es| <= 0xFF && |t.ps| <= 0xFF
  }

  /** Elementary streams stand where they should, and only they have ECMs. */
  ghost predicate StreamScan(t: StreamTree) {
    && t.StreamNode? && LeafTrees(t.emm) && LeafTrees(t.other)
    && forall i :: 0 <= i < |t.progs| ==> ProgScan(t.progs[i])
  }

  /** Every elementary stream of the pool belongs to one of the programs. */
  ghost predicate EsInTree(pids: seq<Pid>, ss: seq<ProgShape>) {
    forall k :: 0 <= k < |pids| && pids[k].valid && pids[k].body.data.kind == EsPid ==>
      exists i :: 0 <= i < |ss| && k in Elements(PidSlots(ss[i].es))
  }

  /** The pool holds the tree t of stream src, in the slots of s, and no other elementary streams. */
  ghost predicate Built(streams: seq<Stream>, progs: seq<Prog>, pids: seq<Pid>, src: nat, s: StreamShape,
                        t: StreamTree) {
    && StreamAt(streams, progs, pids, src, s, t, false)
    && ApartStream(s) && NoDup(ProgSlots(s.progs)) && StreamScan(t)
    && Clean(pids) && EsInTree(pids, s.progs)
  }

  // ---------------------------------------------------------------- slots in use

  lemma {:induction false} ProgInUse(progs: seq<Prog>, pids: seq<Pid>, s: ProgShape, t: ProgTree, ts: nat, orphan: bool)
    requires ProgAt(progs, pids, s, t, ts, orphan)
    ensures forall e :: e in UsedByProg(s) ==> e < |pids| && pids[e].valid
  {
    hide PidAt, SlotsOf, Linked;
    ChainInUse(pids, s.pcr, t.pcr, ts, s.slot, orphan);
    ChainInUse(pids, s.es, t.es, ts, s.slot, orphan);
    ChainInUse(pids, s.ps, t.ps, ts, s.slot, orphan);
  }

  lemma {:induction false} ProgsInUse(progs: seq<Prog>, pids: seq<Pid>, ss: seq<ProgShape>, trees: seq<ProgTree>,
                                      ts: nat, orphan: bool)
    requires |ss| == |trees| && forall j :: 0 <= j < |ss| ==> ProgAt(progs, pids, ss[j], trees[j], ts, orphan)
    ensures forall e :: e in UsedByProgs(ss) ==> e < |pids| && pids[e].valid
  {
    hide ProgAt, UsedByProg;
    if ss != [] {
      ProgsInUse(progs, pids, ss[..|ss| - 1], trees[..|ss| - 1], ts, orphan);
      ProgInUse(progs, pids, ss[|ss| - 1], trees[|ss| - 1], ts, orphan);
    }
  }

  lemma {:induction false} StreamInUse(streams: seq<Stream>, progs: seq<Prog>, pids: seq<Pid>, k: nat,
                                       s: StreamShape, t: StreamTree, orphan: bool)
    requires StreamAt(streams, progs, pids, k, s, t, orphan)
    ensures forall e :: e in UsedByStream(s) ==> e < |pids| && pids[e].valid
  {
    hide ProgAt, PidAt, SlotsOf, UsedByProgs, Linked;
    ProgsInUse(progs, pids, s.progs, t.progs, k, orphan);
    ChainInUse(pids, s.emm, t.emm, k, INDEX_INVALID, orphan);
    ChainInUse(pids, s.other, t.other, k, INDEX_INVALID, orphan);
  }

  lemma {:induction false} ProgChainInUse(progs: seq<Prog>, pids: seq<Pid>, ss: seq<ProgShape>, trees: seq<ProgTree>,
                                          ts: nat, orphan: bool)
    requires |ss| == |trees| && forall j :: 0 <= j < |ss| ==> ProgAt(progs, pids, ss[j], trees[j], ts, orphan)
    ensures AllInUse(progs, ProgSlots(ss))
  {
    hide PidAt, PidsAt;
  }

  // ---------------------------------------------------------------- longer chains of leaves

  lemma {:induction false} SiblingsApart(ss: seq<PidShape>)
    requires Apart(ss)
    ensures NoDup(PidSlots(ss)) && Elements(PidSlots(ss)) <= SlotsOf(ss)
  {
    if ss != [] {
      var init, last := ss[..|ss| - 1], ss[|ss| - 1];
      SiblingsApart(init);
      assert PidSlots(ss) == PidSlots(init) + [last.slot];
      forall i | 0 <= i < |init| ensures PidSlots(init)[i] != last.slot {
        assert PidSlots(init)[i] in Elements(PidSlots(init));
      }
    }
  }

  /** What appending to the chain c does to slots in use that are not on the chain: nothing. */
  lemma {:induction false} KeptByAppend(p0: seq<Pid>, p1: seq<Pid>, c: seq<nat>, head1: nat, list: seq<nat>,
                                        entries: seq<Pid>, used: set<nat>)
    requires Appended(p0, p1, c, head1, list, entries)
    requires forall e :: e in used ==> e < |p0| && p0[e].valid
    requires used !! Elements(c)
    ensures Keeps(p0, p1, used)
  {
    assert c != [] ==> c[|c| - 1] in Elements(c);
  }

  /** A leaf that is on the chain, or was just appended to it, is in place afterwards. */
  lemma {:induction false} LeafStays(p0: seq<Pid>, p1: seq<Pid>, c: seq<nat>, head1: nat, list: seq<nat>,
                                     entries: seq<Pid>, s: PidShape, t: PidTree, ts: nat)
    requires Appended(p0, p1, c, head1, list, entries)
    requires PidAt(p0, s, t, ts, INDEX_INVALID, s.slot) && t.ecms == []
    ensures PidAt(p1, s, t, ts, INDEX_INVALID, s.slot)
  {
    hide Linked, Placed;
    PidAtStable(p0, p1, s, t, ts, INDEX_INVALID, s.slot);
  }

  lemma {:induction false} LeafPlaced(p1: seq<Pid>, stream: Stream, ts: nat, kind: PidKind, list: seq<nat>,
                                      cas: seq<Ca>, j: nat)
    requires |list| == |cas| && j < |list| && kind != EsPid
    requires Placed(p1, list, StreamPids(stream, ts, kind, list, cas))
    ensures PidAt(p1, PidShape(list[j], []), CaTrees(stream.body.data.slotId, stream.body.data.channel, kind, cas)[j],
                  ts, INDEX_INVALID, list[j])
  {
    var p := StreamPids(stream, ts, kind, list, cas)[j];
    assert p1[list[j]] == p.(next := Follower(list, j));
  }

  /** A chain of leaves and the entries appended to it. */
  lemma {:induction false} ChainExtended(p0: seq<Pid>, p1: seq<Pid>, head0: nat, head1: nat, ss: seq<PidShape>,
                                         trees: seq<PidTree>,
                                         stream: Stream, ts: nat, kind: PidKind, list: seq<nat>, cas: seq<Ca>)
    requires PidsAt(p0, head0, ss, trees, ts, INDEX_INVALID, false) && LeafTrees(trees)
    requires |list| == |cas| && kind != EsPid
    requires Appended(p0, p1, PidSlots(ss), head1, list, StreamPids(stream, ts, kind, list, cas))
    ensures PidsAt(p1, head1, ss + LeafShapes(list),
                   trees + CaTrees(stream.body.data.slotId, stream.body.data.channel, kind, cas), ts, INDEX_INVALID,
                   false)
    ensures LeafTrees(trees + CaTrees(stream.body.data.slotId, stream.body.data.channel, kind, cas))
  {
    hide PidAt, Linked, Appended, Placed, StreamPids, LeafTrees, Elements, CaTrees, LeafShapes, PidSlots, NoDup;
    var more := CaTrees(stream.body.data.slotId, stream.body.data.channel, kind, cas);
    var entries := StreamPids(stream, ts, kind, list, cas);
    AppendedParts(p0, p1, PidSlots(ss), head1, list, entries);
    LeafSlots(ss, list);
    MoreLeaves(trees, stream.body.data.slotId, stream.body.data.channel, kind, cas);
    forall j | 0 <= j < |ss| ensures PidAt(p1, ss[j], trees[j], ts, INDEX_INVALID, ss[j].slot) {
      IsLeaf(trees, j);
      LeafStays(p0, p1, PidSlots(ss), head1, list, entries, ss[j], trees[j], ts);
    }
    forall j | 0 <= j < |list|
      ensures PidAt(p1, LeafShapes(list)[j], more[j], ts, INDEX_INVALID, LeafShapes(list)[j].slot)
    {
      LeafPlaced(p1, stream, ts, kind, list, cas, j);
    }
    JoinedChain(p1, head1, ss, LeafShapes(list), trees, more, ts);
  }

  lemma JoinedChain(pids: seq<Pid>, head: nat, a: seq<PidShape>, b: seq<PidShape>, ta: seq<PidTree>, tb: seq<PidTree>,
                    ts: nat)
    requires |a| == |ta| && |b| == |tb| && Linked(pids, head, PidSlots(a + b))
    requires forall j :: 0 <= j < |a| ==> PidAt(pids, a[j], ta[j], ts, INDEX_INVALID, a[j].slot)
    requires forall j :: 0 <= j < |b| ==> PidAt(pids, b[j], tb[j], ts, INDEX_INVALID, b[j].slot)
    ensures PidsAt(pids, head, a + b, ta + tb, ts, INDEX_INVALID, false)
  {
    hide PidAt, Linked, PidSlots;
  }

  lemma LeafSlots(ss: seq<PidShape>, list: seq<nat>)
    ensures PidSlots(ss + LeafShapes(list)) == PidSlots(ss) + list
    ensures forall j :: 0 <= j < |list| ==> LeafShapes(list)[j] == PidShape(list[j], [])
  {
  }

  lemma MoreLeaves(trees: seq<PidTree>, slotId: nat, channel: nat, kind: PidKind, cas: seq<Ca>)
    requires LeafTrees(trees) && kind != EsPid
    ensures LeafTrees(trees + CaTrees(slotId, channel, kind, cas))
  {
  }

  lemma IsLeaf(trees: seq<PidTree>, j: nat)
    requires LeafTrees(trees) && j < |trees|
    ensures trees[j].PidNode? && trees[j].ecms == []
  {
  }

  lemma AppendedParts(p0: seq<Pid>, p1: seq<Pid>, c: seq<nat>, head1: nat, list: seq<nat>, entries: seq<Pid>)
    requires Appended(p0, p1, c, head1, list, entries)
    ensures Linked(p1, head1, c + list) && Placed(p1, list, entries) && NoDup(list)
    ensures forall k :: k in Elements(list) && k < |p0| ==> !p0[k].valid
  {
  }

  lemma {:induction false} ApartConcat(a: seq<PidShape>, b: seq<PidShape>)
    requires Apart(a) && Apart(b) && SlotsOf(a) !! SlotsOf(b)
    ensures Apart(a + b) && SlotsOf(a + b) == SlotsOf(a) + SlotsOf(b)
    decreases |b|
  {
    hide Slots, Proper;
    if b == [] {
      assert a + b == a;
    } else {
      var init, last := b[..|b| - 1], b[|b| - 1];
      assert a + b == (a + init) + [last];
      ApartConcat(a, init);
      SlotsSnoc(a + init, last);
    }
  }

  lemma {:induction false} LeafChainApart(ss: seq<PidShape>, list: seq<nat>, others: set<nat>)
    requires Apart(ss) && NoDup(list) && Elements(list) !! SlotsOf(ss) && Elements(list) !! others
    ensures Apart(ss + LeafShapes(list)) && SlotsOf(ss + LeafShapes(list)) == SlotsOf(ss) + Elements(list)
    ensures SlotsOf(ss) !! others ==> SlotsOf(ss + LeafShapes(list)) !! others
  {
    LeafShapesDealt(list);
    ApartConcat(ss, LeafShapes(list));
  }

  /** The programs are where they were while their slots do not change. */
  lemma {:induction false} ProgsStay(progs: seq<Prog>, p0: seq<Pid>, p1: seq<Pid>, ss: seq<ProgShape>,
                                     trees: seq<ProgTree>, ts: nat)
    requires |ss| == |trees| && forall j :: 0 <= j < |ss| ==> ProgAt(progs, p0, ss[j], trees[j], ts, false)
    requires Keeps(p0, p1, UsedByProgs(ss))
    ensures forall j :: 0 <= j < |ss| ==> ProgAt(progs, p1, ss[j], trees[j], ts, false)
  {
    forall j | 0 <= j < |ss| ensures ProgAt(progs, p1, ss[j], trees[j], ts, false) {
      hide ProgAt, UsedByProg;
      UsedByProgsHas(ss, j);
      KeepsLess(p0, p1, UsedByProgs(ss), UsedByProg(ss[j]));
      ProgSlotInPool(progs, p0, ss[j], trees[j], ts);
      ProgAtStable(progs, progs, p0, p1, ss[j], trees[j], ts, false);
    }
  }

  lemma ProgSlotInPool(progs: seq<Prog>, pids: seq<Pid>, s: ProgShape, t: ProgTree, ts: nat)
    requires ProgAt(progs, pids, s, t, ts, false)
    ensures s.slot < |progs| && progs[s.slot].valid
  {
  }

  /** Appending leaves brings no elementary streams. */
  lemma {:induction false} EsInTreeKept(p0: seq<Pid>, p1: seq<Pid>, ss: seq<ProgShape>, c: seq<nat>, head1: nat,
                                        list: seq<nat>, stream: Stream, ts: nat, kind: PidKind, cas: seq<Ca>)
    requires EsInTree(p0, ss) && |list| == |cas| && kind != EsPid
    requires Appended(p0, p1, c, head1, list, StreamPids(stream, ts, kind, list, cas))
    ensures EsInTree(p1, ss)
  {
    hide Linked;
    forall k | k in Elements(list) ensures k < |p1| && p1[k].body.data.kind == kind {
      var j :| 0 <= j < |list| && list[j] == k;
      assert p1[list[j]] == StreamPids(stream, ts, kind, list, cas)[j].(next := Follower(list, j));
    }
    assert forall k :: 0 <= k < |p0| && k !in Elements(list) ==> p1[k].body == p0[k].body && p1[k].valid == p0[k].valid;
  }

  /** What it takes to append leaves to one chain of a stream: the chain is well formed, and the rest does not move. */
  lemma {:induction false} LeavesAppended(p0: seq<Pid>, p1: seq<Pid>, head: nat, num: nat, ss: seq<PidShape>,
                                          trees: seq<PidTree>,
                                          stream: Stream, ts: nat, kind: PidKind, list: seq<nat>, cas: seq<Ca>,
                                          others: set<nat>)
    requires PidsAt(p0, head, ss, trees, ts, INDEX_INVALID, false) && LeafTrees(trees) && Apart(ss) && |ss| == num
    requires |list| == |cas| && kind != EsPid
    requires ChainGrew(p0, p1, head, num, list, StreamPids(stream, ts, kind, list, cas))
    requires SlotsOf(ss) !! others && forall e :: e in others ==> e < |p0| && p0[e].valid
    ensures var ss1 := ss + LeafShapes(list);
            var trees1 := trees + CaTrees(stream.body.data.slotId, stream.body.data.channel, kind, cas);
            && PidsAt(p1, HeadAfter(num, head, list), ss1, trees1, ts, INDEX_INVALID, false)
            && LeafTrees(trees1) && Apart(ss1) && SlotsOf(ss1) !! others
    ensures Keeps(p0, p1, others)
    ensures forall qs :: EsInTree(p0, qs) ==> EsInTree(p1, qs)
  {
    hide PidAt, SlotsOf, Linked, EsInTree, Appended, LeafTrees;
    var c, head1, entries := PidSlots(ss), HeadAfter(num, head, list), StreamPids(stream, ts, kind, list, cas);
    ChainInUse(p0, ss, trees, ts, INDEX_INVALID, false);
    SiblingsApart(ss);
    SiblingsInUse(p0, ss);
    assert ChainOf(p0, head, num, c);
    AppendedParts(p0, p1, c, head1, list, entries);
    ChainExtended(p0, p1, head, head1, ss, trees, stream, ts, kind, list, cas);
    LeafChainApart(ss, list, others);
    KeptByAppend(p0, p1, c, head1, list, entries, others);
    forall qs | EsInTree(p0, qs) ensures EsInTree(p1, qs) {
      EsInTreeKept(p0, p1, qs, c, head1, list, stream, ts, kind, cas);
    }
  }

  lemma SiblingsInUse(pids: seq<Pid>, ss: seq<PidShape>)
    requires forall e :: e in SlotsOf(ss) ==> e < |pids| && pids[e].valid
    requires Elements(PidSlots(ss)) <= SlotsOf(ss)
    ensures AllInUse(pids, PidSlots(ss))
  {
    forall i | 0 <= i < |ss| ensures PidSlots(ss)[i] in SlotsOf(ss) {
      assert PidSlots(ss)[i] in Elements(PidSlots(ss));
    }
  }

  // ---------------------------------------------------------------- the calls keep the state

  /** After SetCat the EMMs of the tree are the old ones followed by those of the CAT. */
  lemma {:induction false} BuiltByCat(streams0: seq<Stream>, streams1: seq<Stream>, progs: seq<Prog>, p0: seq<Pid>,
                                      p1: seq<Pid>,
                                      src: nat, s: StreamShape, t: StreamTree, list: seq<nat>, cas: seq<Ca>)
    requires Built(streams0, progs, p0, src, s, t) && |streams1| == |streams0| && |list| == |cas|
    requires var b := streams0[src].body;
             && streams1[src] == WithEmm(streams0[src], HeadAfter(b.emmNum, b.emmHead, list), b.emmNum + |list|)
             && ChainGrew(p0, p1, b.emmHead, b.emmNum, list, StreamPids(streams0[src], src, EmmPid, list, cas))
    requires Clean(p1)
    ensures Built(streams1, progs, p1, src, s.(emm := s.emm + LeafShapes(list)),
                  t.(emm := t.emm + CaTrees(t.data.slotId, t.data.channel, EmmPid, cas)))
  {
    hide PidAt, SlotsOf, Linked, EsInTree, Apart, LeafTrees, ProgAt, UsedByProgs, ApartProgs, ChainGrew, Clean;
    var b := streams0[src].body;
    StreamInUse(streams0, progs, p0, src, s, t, false);
    var others := UsedByProgs(s.progs) + SlotsOf(s.other);
    assert forall e :: e in others ==> e in UsedByStream(s);
    LeavesAppended(p0, p1, b.emmHead, b.emmNum, s.emm, t.emm, streams0[src], src, EmmPid, list, cas,
                   others);
    ProgsStay(progs, p0, p1, s.progs, t.progs, src);
    PidsAtStable(p0, p1, b.otherHead, s.other, t.other, src, INDEX_INVALID, false);
  }

  /** After SetOther the other PIDs of the tree are the old ones followed by the new one. */
  lemma {:induction false} BuiltByOther(streams0: seq<Stream>, streams1: seq<Stream>, progs: seq<Prog>, p0: seq<Pid>,
                                        p1: seq<Pid>, src: nat, s: StreamShape, t: StreamTree, list: seq<nat>, pid: nat)
    requires Built(streams0, progs, p0, src, s, t) && |streams1| == |streams0| && |list| == 1
    requires var b := streams0[src].body;
             && streams1[src] == WithOther(streams0[src], HeadAfter(b.otherNum, b.otherHead, list), b.otherNum + 1)
             && ChainGrew(p0, p1, b.otherHead, b.otherNum, list,
                          StreamPids(streams0[src], src, OtherPid, list, [Ca(0, pid)]))
    requires Clean(p1)
    ensures Built(streams1, progs, p1, src, s.(other := s.other + LeafShapes(list)),
                  t.(other := t.other + CaTrees(t.data.slotId, t.data.channel, OtherPid, [Ca(0, pid)])))
  {
    hide PidAt, SlotsOf, Linked, EsInTree, Apart, LeafTrees, ProgAt, UsedByProgs, ApartProgs, ChainGrew, Clean;
    var b := streams0[src].body;
    StreamInUse(streams0, progs, p0, src, s, t, false);
    var others := UsedByProgs(s.progs) + SlotsOf(s.emm);
    assert forall e :: e in others ==> e in UsedByStream(s);
    LeavesAppended(p0, p1, b.otherHead, b.otherNum, s.other, t.other, streams0[src], src, OtherPid, list, [Ca(0, pid)],
                   others);
    ProgsStay(progs, p0, p1, s.progs, t.progs, src);
    PidsAtStable(p0, p1, b.emmHead, s.emm, t.emm, src, INDEX_INVALID, false);
  }

  // ---------------------------------------------------------------- programs of the PAT

  function PatTree(d: StreamData, e: PatEntry): ProgTree {
    ProgNode(ProgData(d.slotId, d.channel, e.serviceId, e.serviceId, e.pmtPid, e.pmtPid, 0, 0, 0, []), [], [], [])
  }

  function PatTrees(d: StreamData, programs: seq<PatEntry>): (r: seq<ProgTree>)
    ensures |r| == |programs|
  {
    seq(|programs|, i requires 0 <= i < |programs| => PatTree(d, programs[i]))
  }

  function EmptyProgs(list: seq<nat>): (r: seq<ProgShape>)
    ensures |r| == |list|
  {
    seq(|list|, i requires 0 <= i < |list| => ProgShape(list[i], [], [], []))
  }

  lemma NoSlotsUsed(q: ProgShape)
    requires q.pcr == [] && q.es == [] && q.ps == []
    ensures UsedByProg(q) == {} && ApartProg(q)
  {
  }

  lemma {:induction false} EmptyProgsApart(ss: seq<ProgShape>, list: seq<nat>)
    requires ApartProgs(ss)
    ensures ApartProgs(ss + EmptyProgs(list)) && UsedByProgs(ss + EmptyProgs(list)) == UsedByProgs(ss)
    decreases |list|
  {
    hide UsedByProg, ApartProg, ApartProgs, UsedByProgs;
    if list == [] {
      assert ss + EmptyProgs(list) == ss;
    } else {
      var init, q := list[..|list| - 1], ProgShape(list[|list| - 1], [], [], []);
      EmptyProgsApart(ss, init);
      assert ss + EmptyProgs(list) == (ss + EmptyProgs(init)) + [q];
      ProgSlotsSnoc(ss + EmptyProgs(init), q);
      NoSlotsUsed(q);
    }
  }

  lemma {:induction false} ProgStays(g0: seq<Prog>, g1: seq<Prog>, c: seq<nat>, head1: nat, list: seq<nat>,
                                     entries: seq<Prog>, pids: seq<Pid>, s: ProgShape, t: ProgTree, ts: nat)
    requires Appended(g0, g1, c, head1, list, entries) && ProgAt(g0, pids, s, t, ts, false)
    ensures ProgAt(g1, pids, s, t, ts, false)
  {
    hide PidAt, PidsAt, Linked, Placed;
    ProgSlotInPool(g0, pids, s, t, ts);
  }

  lemma {:induction false} ProgPlaced(g1: seq<Prog>, pids: seq<Pid>, stream: Stream, ts: nat, list: seq<nat>,
                                      programs: seq<PatEntry>, j: nat)
    requires |list| == |programs| && j < |list| && Placed(g1, list, PatProgs(stream, ts, list, programs))
    ensures ProgAt(g1, pids, ProgShape(list[j], [], [], []), PatTree(stream.body.data, programs[j]), ts, false)
    ensures g1[list[j]].body.pcr == INDEX_INVALID
  {
    var p := PatProgs(stream, ts, list, programs)[j];
    assert g1[list[j]] == p.(next := Follower(list, j));
  }

  lemma ProgAppendedParts(g0: seq<Prog>, g1: seq<Prog>, c: seq<nat>, head1: nat, list: seq<nat>, entries: seq<Prog>)
    requires Appended(g0, g1, c, head1, list, entries)
    ensures Linked(g1, head1, c + list) && Placed(g1, list, entries) && NoDup(list)
    ensures AllInUse(g0, c) && NoDup(c) ==> NoDup(c + list)
  {
    if AllInUse(g0, c) && NoDup(c) {
      forall i, j | 0 <= i < |c| && 0 <= j < |list| ensures c[i] != list[j] {
        assert list[j] in Elements(list);
      }
    }
  }

  /** After SetPat the programs of the tree are the old ones followed by empty ones for the PAT. */
  lemma {:induction false} BuiltByPat(streams0: seq<Stream>, streams1: seq<Stream>, g0: seq<Prog>, g1: seq<Prog>,
                                      pids: seq<Pid>, src: nat, s: StreamShape, t: StreamTree, list: seq<nat>, pat: Pat)
    requires Built(streams0, g0, pids, src, s, t) && |streams1| == |streams0| && |list| == |pat.programs|
    requires var b := streams0[src].body;
             && streams1[src] == WithProgs(InStream(streams0[src], pat), HeadAfter(b.progNum, b.progHead, list),
                                           b.progNum + |list|)
             && ChainGrew(g0, g1, b.progHead, b.progNum, list, PatProgs(streams0[src], src, list, pat.programs))
    ensures Built(streams1, g1, pids, src, s.(progs := s.progs + EmptyProgs(list)),
                  t.(data := t.data.(transportStreamId := pat.transportStreamId),
                     progs := t.progs + PatTrees(t.data, pat.programs)))
  {
    hide PidsAt, SlotsOf, Linked, EsInTree, Apart, LeafTrees, ProgAt, UsedByProgs, ApartProgs, Clean, ProgScan,
      Appended,
         PatProgs, PatTrees, EmptyProgs, Elements;
    var b := streams0[src].body;
    var c, head1 := ProgSlots(s.progs), HeadAfter(b.progNum, b.progHead, list);
    var entries := PatProgs(streams0[src], src, list, pat.programs);
    ProgChainInUse(g0, pids, s.progs, t.progs, src, false);
    assert ChainOf(g0, b.progHead, b.progNum, c);
    ProgAppendedParts(g0, g1, c, head1, list, entries);
    EmptyProgsApart(s.progs, list);
    var all, trees := s.progs + EmptyProgs(list), t.progs + PatTrees(t.data, pat.programs);
    EmptyProgSlots(s.progs, list);
    PatInPlace(g0, g1, c, head1, list, streams0[src], pids, s.progs, t.progs, src, pat.programs);
    MoreProgs(pids, s.progs, EmptyProgs(list));
  }

  lemma EmptyProgSlots(ss: seq<ProgShape>, list: seq<nat>)
    ensures ProgSlots(ss + EmptyProgs(list)) == ProgSlots(ss) + list
  {
  }

  lemma {:induction false} PatInPlace(g0: seq<Prog>, g1: seq<Prog>, c: seq<nat>, head1: nat, list: seq<nat>,
                                      stream: Stream,
                                      pids: seq<Pid>, ss: seq<ProgShape>, ts: seq<ProgTree>, src: nat,
                                      programs: seq<PatEntry>)
    requires |list| == |programs| && |ss| == |ts|
    requires Appended(g0, g1, c, head1, list, PatProgs(stream, src, list, programs))
    requires forall j :: 0 <= j < |ss| ==> ProgAt(g0, pids, ss[j], ts[j], src, false) && ProgScan(ts[j])
    ensures var all, trees := ss + EmptyProgs(list), ts + PatTrees(stream.body.data, programs);
            forall j :: 0 <= j < |all| ==> ProgAt(g1, pids, all[j], trees[j], src, false) && ProgScan(trees[j])
  {
    hide ProgAt, ProgScan, Appended, PatTree, PatProgs, Linked, Placed, Elements;
    var entries := PatProgs(stream, src, list, programs);
    ProgAppendedParts(g0, g1, c, head1, list, entries);
    forall j | 0 <= j < |ss| ensures ProgAt(g1, pids, ss[j], ts[j], src, false) {
      ProgStays(g0, g1, c, head1, list, entries, pids, ss[j], ts[j], src);
    }
    forall j | 0 <= j < |list|
      ensures ProgAt(g1, pids, EmptyProgs(list)[j], PatTrees(stream.body.data, programs)[j], src, false)
    {
      ProgPlaced(g1, pids, stream, src, list, programs, j);
    }
    forall j | 0 <= j < |list| ensures ProgScan(PatTrees(stream.body.data, programs)[j]) {
      EmptyProgScan(stream.body.data, programs[j]);
    }
    TwoParts(g1, pids, ss, EmptyProgs(list), ts, PatTrees(stream.body.data, programs), src);
  }

  lemma TwoParts(progs: seq<Prog>, pids: seq<Pid>, a: seq<ProgShape>, b: seq<ProgShape>, ta: seq<ProgTree>,
                 tb: seq<ProgTree>, src: nat)
    requires |a| == |ta| && |b| == |tb|
    requires forall j :: 0 <= j < |a| ==> ProgAt(progs, pids, a[j], ta[j], src, false) && ProgScan(ta[j])
    requires forall j :: 0 <= j < |b| ==> ProgAt(progs, pids, b[j], tb[j], src, false) && ProgScan(tb[j])
    ensures var all, trees := a + b, ta + tb;
            forall j :: 0 <= j < |all| ==> ProgAt(progs, pids, all[j], trees[j], src, false) && ProgScan(trees[j])
  {
    hide ProgAt, ProgScan;
  }

  lemma EmptyProgScan(d: StreamData, e: PatEntry)
    ensures ProgScan(PatTree(d, e))
  {
  }

  lemma {:induction false} MoreProgs(pids: seq<Pid>, a: seq<ProgShape>, b: seq<ProgShape>)
    requires EsInTree(pids, a)
    ensures EsInTree(pids, a + b)
  {
    forall k | 0 <= k < |pids| && pids[k].valid && pids[k].body.data.kind == EsPid
      ensures exists i :: 0 <= i < |a + b| && k in Elements(PidSlots((a + b)[i].es))
    {
      var i :| 0 <= i < |a| && k in Elements(PidSlots(a[i].es));
      assert (a + b)[i] == a[i];
    }
  }

  // ---------------------------------------------------------------- the PIDs of a PMT

  /** Giving slots of their own to one program that had none. */
  lemma {:induction false} ApartProgsUpdate(ss: seq<ProgShape>, i: nat, q: ProgShape)
    requires i < |ss| && ApartProgs(ss) && UsedByProg(ss[i]) == {} && ApartProg(q) && UsedByProg(q) !! UsedByProgs(ss)
    ensures ApartProgs(ss[i := q]) && UsedByProgs(ss[i := q]) == UsedByProgs(ss) + UsedByProg(q)
    decreases |ss|
  {
    hide ApartProg, UsedByProg;
    var n := |ss| - 1;
    if i == n {
      assert ss[i := q][..n] == ss[..n];
    } else {
      assert ss[i := q][..n] == ss[..n][i := q];
      ApartProgsUpdate(ss[..n], i, q);
    }
  }

  lemma {:induction false} LeavesAreNoEs(pids: seq<Pid>, ss: seq<PidShape>, trees: seq<PidTree>, ts: nat, prog: nat)
    requires |ss| == |trees| && LeafTrees(trees)
    requires forall j :: 0 <= j < |ss| ==> PidAt(pids, ss[j], trees[j], ts, prog, ss[j].slot)
    ensures forall k :: k in SlotsOf(ss) ==> k < |pids| && pids[k].body.data.kind != EsPid
  {
    if ss != [] {
      LeavesAreNoEs(pids, ss[..|ss| - 1], trees[..|ss| - 1], ts, prog);
    }
  }

  lemma {:induction false} OnlyRootsAreEs(pids: seq<Pid>, ss: seq<PidShape>, trees: seq<PidTree>, ts: nat, prog: nat)
    requires |ss| == |trees| && EsForest(trees)
    requires forall j :: 0 <= j < |ss| ==> PidAt(pids, ss[j], trees[j], ts, prog, ss[j].slot)
    ensures forall k :: k in SlotsOf(ss) ==>
              k < |pids| && (pids[k].body.data.kind == EsPid ==> k in Elements(PidSlots(ss)))
  {
    hide PidAt;
    if ss != [] {
      var init, s, t := ss[..|ss| - 1], ss[|ss| - 1], trees[|ss| - 1];
      OnlyRootsAreEs(pids, init, trees[..|ss| - 1], ts, prog);
      OnlyRootIsEs(pids, s, t, ts, prog);
      assert PidSlots(ss) == PidSlots(init) + [s.slot];
    }
  }

  lemma {:induction false} OnlyRootIsEs(pids: seq<Pid>, s: PidShape, t: PidTree, ts: nat, prog: nat)
    requires PidAt(pids, s, t, ts, prog, s.slot) && LeafTrees(t.ecms)
    ensures forall k :: k in Slots(s) ==> k < |pids| && (pids[k].body.data.kind == EsPid ==> k == s.slot)
  {
  }

  lemma {:induction false} EsOfProg(progs: seq<Prog>, pids: seq<Pid>, q: ProgShape, t: ProgTree, ts: nat)
    requires ProgAt(progs, pids, q, t, ts, false) && ProgScan(t)
    ensures forall k :: k in UsedByProg(q) ==>
              k < |pids| && (pids[k].body.data.kind == EsPid ==> k in Elements(PidSlots(q.es)))
  {
    hide PidAt, SlotsOf, Linked, LeafTrees, EsForest, Elements;
    LeavesAreNoEs(pids, q.pcr, t.pcr, ts, q.slot);
    LeavesAreNoEs(pids, q.ps, t.ps, ts, q.slot);
    OnlyRootsAreEs(pids, q.es, t.es, ts, q.slot);
  }

  lemma {:induction false} EsInTreeAfterPmt(p0: seq<Pid>, p1: seq<Pid>, ss: seq<ProgShape>, i: nat, q: ProgShape,
                                            used: set<nat>)
    requires EsInTree(p0, ss) && i < |ss| && ss[i].es == []
    requires NewlyTaken(p0, p1, used)
    requires forall k :: k in used ==> k < |p1| && (p1[k].body.data.kind == EsPid ==> k in Elements(PidSlots(q.es)))
    ensures EsInTree(p1, ss[i := q])
  {
    hide Elements, PidSlots;
    var rs := ss[i := q];
    forall k | 0 <= k < |p1| && p1[k].valid && p1[k].body.data.kind == EsPid
      ensures exists j :: 0 <= j < |rs| && k in Elements(PidSlots(rs[j].es))
    {
      if k in used {
        assert rs[i] == q;
      } else {
        assert k < |p0| && p1[k] == p0[k];
        var j :| 0 <= j < |ss| && k in Elements(PidSlots(ss[j].es));
        NothingIn(k);
        assert j != i && rs[j] == ss[j];
      }
    }
  }

  lemma NothingIn(k: nat)
    ensures k !in Elements(PidSlots([]))
  {
  }

  lemma {:induction false} PmtTreeIsScan(d: ProgData, pmt: Pmt)
    requires WithinLimits(pmt)
    ensures ProgScan(PmtTree(d, pmt))
  {
  }

  /** After SetPmt the program, empty so far, is the one that the PMT describes. */
  lemma {:induction false} BuiltByPmt(streams: seq<Stream>, g0: seq<Prog>, g1: seq<Prog>, p0: seq<Pid>, p1: seq<Pid>,
                                      src: nat, s: StreamShape, t: StreamTree, i: nat, list: seq<nat>, pmt: Pmt)
    requires Built(streams, g0, p0, src, s, t) && i < |s.progs| && WithinLimits(pmt)
    requires t.progs[i].pcr == [] && t.progs[i].es == [] && t.progs[i].ps == []
    requires PmtEntered(g0, g1, p0, p1, s.progs[i].slot, list, pmt) && Clean(p1)
    ensures Built(streams, g1, p1, src, s.(progs := s.progs[i := PmtShape(s.progs[i].slot, list, pmt)]),
                  t.(progs := t.progs[i := PmtTree(t.progs[i].data, pmt)]))
  {
    hide PidAt, PidsAt, SlotsOf, Linked, EsInTree, Apart, LeafTrees, ProgAt, UsedByProgs, ApartProgs, ApartProg,
      UsedByProg, Clean, ProgScan,
         PmtShape, PmtTree, NewlyTaken, PmtSlots, Elements;
    var b := streams[src].body;
    IsProg(t.progs[i]);
    var prog, q, tree := s.progs[i].slot, PmtShape(s.progs[i].slot, list, pmt), PmtTree(t.progs[i].data, pmt);
    var used := UsedByStream(s);
    StreamInUse(streams, g0, p0, src, s, t, false);
    PmtParts(g0, g1, p0, p1, prog, list, pmt, t.progs[i], src, s.progs[i]);
    PmtTreeIsScan(t.progs[i].data, pmt);
    TakenApart(p0, p1, UsedByProg(q), used);
    ApartProgsUpdate(s.progs, i, q);
    KeepsLess(p0, p1, used, UsedByProgs(s.progs));
    OtherProgsStay(g0, g1, p0, p1, s.progs, t.progs, i, q, tree, src);
    PidsAtStable(p0, p1, b.emmHead, s.emm, t.emm, src, INDEX_INVALID, false);
    PidsAtStable(p0, p1, b.otherHead, s.other, t.other, src, INDEX_INVALID, false);
    assert ProgSlots(s.progs[i := q]) == ProgSlots(s.progs);
    EsOfProg(g1, p1, q, tree, src);
    EsInTreeAfterPmt(p0, p1, s.progs, i, q, UsedByProg(q));
    LinksKept(g0, g1, b.progHead, ProgSlots(s.progs), prog);
  }

  lemma {:induction false} LinksKept(g0: seq<Prog>, g1: seq<Prog>, head: nat, c: seq<nat>, k: nat)
    requires Linked(g0, head, c) && k < |g0| == |g1| && g1 == g0[k := g1[k]] && g1[k].next == g0[k].next
    ensures Linked(g1, head, c)
  {
  }

  lemma IsProg(t: ProgTree)
    requires ProgScan(t)
    ensures t.ProgNode?
  {
  }

  lemma {:induction false} TakenApart(p0: seq<Pid>, p1: seq<Pid>, taken: set<nat>, used: set<nat>)
    requires NewlyTaken(p0, p1, taken) && forall e :: e in used ==> e < |p0| && p0[e].valid
    ensures Keeps(p0, p1, used) && taken !! used
  {
  }

  /** The facts about a program entered from its PMT, when it was empty before. */
  lemma {:induction false} PmtParts(g0: seq<Prog>, g1: seq<Prog>, p0: seq<Pid>, p1: seq<Pid>, prog: nat, list: seq<nat>,
                                    pmt: Pmt, t: ProgTree, ts: nat, s: ProgShape)
    requires PmtEntered(g0, g1, p0, p1, prog, list, pmt) && ProgAt(g0, p0, s, t, ts, false) && s.slot == prog
    requires t.pcr == [] && t.es == [] && t.ps == []
    ensures var q := PmtShape(prog, list, pmt);
            && |list| == PmtSlots(pmt) && q.slot == prog
            && ProgAt(g1, p1, q, PmtTree(t.data, pmt), ts, false)
            && ApartProg(q) && NewlyTaken(p0, p1, UsedByProg(q))
            && prog < |g0| == |g1| && g1 == g0[prog := g1[prog]] && g1[prog].next == g0[prog].next
    ensures s.es == [] && UsedByProg(s) == {}
  {
    hide PidAt, ApartProg, NewlyTaken, Elements, PmtTree, Linked;
    NoSlotsUsed(s);
    assert g0[prog].body.data == t.data;
  }

  lemma {:induction false} OtherProgsStay(g0: seq<Prog>, g1: seq<Prog>, p0: seq<Pid>, p1: seq<Pid>, ss: seq<ProgShape>,
                                          trees: seq<ProgTree>, i: nat, q: ProgShape, tree: ProgTree, ts: nat)
    requires |ss| == |trees| && i < |ss| && NoDup(ProgSlots(ss)) && q.slot == ss[i].slot
    requires forall j :: 0 <= j < |ss| ==> ProgAt(g0, p0, ss[j], trees[j], ts, false) && ProgScan(trees[j])
    requires q.slot < |g0| == |g1| && g1 == g0[q.slot := g1[q.slot]] && Keeps(p0, p1, UsedByProgs(ss))
    requires ProgAt(g1, p1, q, tree, ts, false) && ProgScan(tree)
    ensures var rs, us := ss[i := q], trees[i := tree];
            forall j :: 0 <= j < |rs| ==> ProgAt(g1, p1, rs[j], us[j], ts, false) && ProgScan(us[j])
  {
    hide ProgAt, UsedByProg, ProgScan;
    var rs, us := ss[i := q], trees[i := tree];
    forall j | 0 <= j < |rs| ensures ProgAt(g1, p1, rs[j], us[j], ts, false) {
      if j != i {
        UsedByProgsHas(ss, j);
        KeepsLess(p0, p1, UsedByProgs(ss), UsedByProg(ss[j]));
        ProgSlotInPool(g0, p0, ss[j], trees[j], ts);
        assert ProgSlots(ss)[j] != ProgSlots(ss)[i];
        ProgAtStable(g0, g1, p0, p1, ss[j], trees[j], ts, false);
      }
    }
  }

  // ---------------------------------------------------------------- from an empty pool to a source for the copy

  const EMPTY_SHAPE: StreamShape := StreamShape([], [], [])

  function EmptyTree(d: StreamData): StreamTree {
    StreamNode(d, [], [], [])
  }

  /** A stream without programs or PIDs, in a pool without elementary streams, is the start of a scan. */
  lemma {:induction false} BuiltAtStart(streams: seq<Stream>, progs: seq<Prog>, pids: seq<Pid>, src: nat)
    requires src < |streams| && streams[src].valid && streams[src].index == src
    requires var b := streams[src].body; b.progNum == 0 && b.emmNum == 0 && b.otherNum == 0
    requires forall k :: 0 <= k < |pids| ==> pids[k].body.data.kind != EsPid
    ensures Built(streams, progs, pids, src, EMPTY_SHAPE, EmptyTree(streams[src].body.data))
  {
  }
}
