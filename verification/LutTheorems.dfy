/**
  What the table of a channel sends on, compared with the tree of the channel's stream.
 */
module LutTheorems {
  import opened TsPool
  import opened TsTree
  import opened TsScan
  import opened TsTheorems
  import opened Lut
  import opened LutTree
  import opened LutTable

  /** The stream of a channel is in place in slot k, and the table was set from it. */
  ghost predicate TableSet(cells: map<nat, nat>, lut: nat, streams: seq<Stream>, progs: seq<Prog>, pids: seq<Pid>,
                           k: nat, s: StreamShape, t: StreamTree, orphan: bool, sent: nat -> bool)
  {
    && |streams| >= MAX_CHANNELS && (forall i :: 0 <= i < |streams| ==> streams[i].index < |streams|)
    && IsStream(streams, lut, k) && StreamAt(streams, progs, pids, k, s, t, orphan) && StreamScan(t)
    && Ends(progs, streams[k].body.progNum, streams[k].body.progHead)
    && Sends(cells, lut, Wanted(progs, pids, streams[k].body, FirstMet(streams, progs, lut), sent))
  }

  /** The hardware sends on exactly the given PIDs of the channel. */
  ghost predicate SendsSet(cells: map<nat, nat>, lut: nat, wanted: set<nat>) {
    forall p: nat :: p < 8192 ==> (SentOn(cells, lut, Entry(StreamId(lut), p)) <==> p in wanted)
  }

  /** They fit into one table, and into 13 bits. */
  ghost predicate Fits(wanted: set<nat>) { |wanted| <= MAX_ENTRIES && forall p :: p in wanted ==> p < 8192 }

  /** The PMTs that are sent on. */
  ghost function MetPmts(streams: seq<Stream>, progs: seq<Prog>, lut: nat): set<nat>
    requires |streams| >= MAX_CHANNELS && streams[FirstSlot(streams, lut, 0)].index < |streams|
  {
    Elements(PmtPidsOf(progs, FirstMet(streams, progs, lut)))
  }

  /**
    The table sends on what belongs to the tree, PMTs aside, and the PMTs of the stream that the
    first slot of the channel names. These are the PIDs of the tree exactly if every PMT met is a PID
    of the tree, and every PMT of the tree is met or sent on anyway.
   */
  lemma {:induction false} TableSendsWhatIsMet(cells: map<nat, nat>, lut: nat, streams: seq<Stream>, progs: seq<Prog>,
                                               pids: seq<Pid>,
                                               k: nat, s: StreamShape, t: StreamTree, orphan: bool, sent: nat -> bool)
    requires TableSet(cells, lut, streams, progs, pids, k, s, t, orphan, sent) && StreamId(lut) < 1024
    requires Fits(RestPids(s, t, sent) + MetPmts(streams, progs, lut)) && Fits(TreePids(s, t, sent))
    ensures SendsSet(cells, lut, RestPids(s, t, sent) + MetPmts(streams, progs, lut))
    ensures SendsSet(cells, lut, TreePids(s, t, sent)) <==>
              && MetPmts(streams, progs, lut) <= TreePids(s, t, sent)
              && PmtPids(t.progs) <= RestPids(s, t, sent) + MetPmts(streams, progs, lut)
  {
    hide ProgAt, PidsAt, Linked, StreamScan, Wanted, FirstMet, SentOn, SentPids, ForestPids, PmtPids, Ends;
    var first := FirstMet(streams, progs, lut);
    WalkFindsTheRest(streams, progs, pids, k, s, t, orphan, sent, first);
    var wanted := Wanted(progs, pids, streams[k].body, first, sent);
    MembersAreSent(cells, lut, wanted);
    SameSent(cells, lut, Elements(wanted), TreePids(s, t, sent));
  }

  lemma MembersAreSent(cells: map<nat, nat>, lut: nat, wanted: seq<nat>)
    requires Sends(cells, lut, wanted) && StreamId(lut) < 1024 && Fits(Elements(wanted))
    ensures SendsSet(cells, lut, Elements(wanted))
  {
    hide SentOn;
    assert forall p :: p in wanted ==> p in Elements(wanted);
  }

  lemma SameSent(cells: map<nat, nat>, lut: nat, a: set<nat>, b: set<nat>)
    requires SendsSet(cells, lut, a) && Fits(a) && Fits(b)
    ensures SendsSet(cells, lut, b) <==> a <= b && b <= a
  {
    hide SentOn;
  }

  /**
    For a stream in place whose slot is the first of its channel, with at most 2048 PIDs: a PID is
    sent on exactly if it belongs to the tree of the stream.
   */
  lemma {:induction false} TableSendsTheTree(cells: map<nat, nat>, lut: nat, streams: seq<Stream>, progs: seq<Prog>,
                                             pids: seq<Pid>,
                                             k: nat, s: StreamShape, t: StreamTree, orphan: bool, sent: nat -> bool)
    requires TableSet(cells, lut, streams, progs, pids, k, s, t, orphan, sent) && StreamId(lut) < 1024
    requires Fits(TreePids(s, t, sent)) && streams[FirstSlot(streams, lut, 0)].index == k
    ensures SendsSet(cells, lut, TreePids(s, t, sent))
  {
    hide ProgAt, PidsAt, Linked, StreamScan, Wanted, SentOn, SentPids, ForestPids, PmtPids, Ends, MetOf, Path;
    var b := streams[k].body;
    MetWhenItEnds(progs, b.progNum, b.progHead);
    WalkFindsTheTree(streams, progs, pids, k, s, t, orphan, sent);
    MembersAreSent(cells, lut, Wanted(progs, pids, b, FirstMet(streams, progs, lut), sent));
  }

  /** A stream slot as deletion leaves it. */
  ghost predicate Cleared(s: Stream) { !s.valid && s.index == 0 && s.body.data.channel == 0 && s.body.progNum == 0 }

  /**
    If the first slot was cleared and the stream of channel 0 is in a later one, no PMT of it is sent
    on, unless another part of the tree has the same PID.
   */
  lemma {:induction false} ClearedSlotHidesPmts(cells: map<nat, nat>, streams: seq<Stream>, progs: seq<Prog>,
                                                pids: seq<Pid>,
                                                k: nat, s: StreamShape, t: StreamTree, orphan: bool, sent: nat -> bool)
    requires TableSet(cells, 0, streams, progs, pids, k, s, t, orphan, sent)
    requires Cleared(streams[0]) && Fits(TreePids(s, t, sent))
    ensures k > 0 && SendsSet(cells, 0, RestPids(s, t, sent))
    ensures SendsSet(cells, 0, TreePids(s, t, sent)) <==> PmtPids(t.progs) <= RestPids(s, t, sent)
  {
    hide ProgAt, PidsAt, Linked, StreamScan, Wanted, SentOn, SentPids, ForestPids, PmtPids, Ends, Met;
    assert FirstMet(streams, progs, 0) == [];
    assert MetPmts(streams, progs, 0) == {};
    FewerFit(RestPids(s, t, sent), TreePids(s, t, sent));
    assert RestPids(s, t, sent) + {} == RestPids(s, t, sent);
    TableSendsWhatIsMet(cells, 0, streams, progs, pids, k, s, t, orphan, sent);
  }

  lemma FewerFit(a: set<nat>, b: set<nat>)
    requires a <= b && Fits(b)
    ensures Fits(a)
  {
    SubsetSize(a, b);
  }

  // ---------------------------------------------------------------- from a stream in place to the table

  /** Every chain of the stream that is walked has fewer than 300 slots. */
  ghost predicate ShortChains(s: StreamShape, t: StreamTree, sent: nat -> bool)
    requires t.StreamNode? && |s.progs| == |t.progs|
  {
    && |t.progs| < 300 && |t.emm| < 300 && |t.other| < 300
    && forall i :: 0 <= i < |t.progs| && t.progs[i].ProgNode? && sent(s.progs[i].slot) ==> ShortProg(t.progs[i])
  }

  ghost predicate ShortProg(t: ProgTree)
    requires t.ProgNode?
  {
    && |t.es| < 300 && |t.ps| < 300
    && forall j :: 0 <= j < |t.es| && t.es[j].PidNode? ==> |t.es[j].ecms| < 300
  }

  lemma {:induction false} LinkedEnds<T>(pool: seq<Slot<T>>, head: nat, c: seq<nat>)
    requires Linked(pool, head, c) && |c| < 300 && |pool| <= INDEX_INVALID
    ensures Ends(pool, |c|, head)
  {
    hide Nth;
    forall i: nat | i < |c| ensures Nth(pool, head, i) < |pool| {
      NthOfLinked(pool, head, c, i);
    }
    if c != [] {
      NthOfLinked(pool, head, c, |c| - 1);
      NthAfter(pool, head, |c|);
    }
  }

  lemma NthAfter<T>(pool: seq<Slot<T>>, head: nat, n: nat)
    requires n > 0 && Nth(pool, head, n - 1) < |pool|
    ensures Nth(pool, head, n) == pool[Nth(pool, head, n - 1)].next
  {
  }

  lemma {:induction false} EcmsOfProgEnd(pids: seq<Pid>, head: nat, ss: seq<PidShape>, trees: seq<PidTree>, ts: nat,
                                         prog: nat, orphan: bool)
    requires PidsAt(pids, head, ss, trees, ts, prog, orphan) && EsForest(trees) && |pids| <= INDEX_INVALID
    requires forall j :: 0 <= j < |trees| ==> |trees[j].ecms| < 300
    ensures EcmsEnd(pids, Path(pids, head, |ss|))
  {
    hide Ends, LeafTrees, Nth;
    PathOfLinked(pids, head, PidSlots(ss));
    forall j | 0 <= j < |ss| && PidSlots(ss)[j] < |pids|
      ensures Ends(pids, pids[PidSlots(ss)[j]].body.ecmNum, pids[PidSlots(ss)[j]].body.ecmHead)
    {
      EcmsOfEsEnd(pids, ss[j], trees[j], ts, prog, EcmParent(orphan, ss[j].slot));
    }
  }

  lemma {:induction false} EcmsOfEsEnd(pids: seq<Pid>, s: PidShape, t: PidTree, ts: nat, prog: nat, parent: nat)
    requires PidAt(pids, s, t, ts, prog, parent) && t.data.kind == EsPid && |t.ecms| < 300 && |pids| <= INDEX_INVALID
    ensures s.slot < |pids| && Ends(pids, pids[s.slot].body.ecmNum, pids[s.slot].body.ecmHead)
  {
    hide Ends, LeafAt;
    LinkedEnds(pids, pids[s.slot].body.ecmHead, s.ecms);
  }

  lemma {:induction false} ProgInPlaceEnds(progs: seq<Prog>, pids: seq<Pid>, s: ProgShape, t: ProgTree, ts: nat,
                                           orphan: bool)
    requires ProgAt(progs, pids, s, t, ts, orphan) && ProgScan(t) && ShortProg(t) && |pids| <= INDEX_INVALID
    ensures ProgEnds(progs, pids, s.slot)
  {
    hide PidAt, Linked, Ends, LeafTrees, EcmsEnd, Path;
    var b := progs[s.slot].body;
    LinkedEnds(pids, b.esHead, PidSlots(s.es));
    LinkedEnds(pids, b.psHead, PidSlots(s.ps));
    EcmsOfProgEnd(pids, b.esHead, s.es, t.es, ts, s.slot, orphan);
  }

  /** For a stream in place whose chains are short, every walk ends. */
  lemma {:induction false} InPlaceEnds(streams: seq<Stream>, progs: seq<Prog>, pids: seq<Pid>, k: nat, s: StreamShape,
                                       t: StreamTree, orphan: bool, sent: nat -> bool)
    requires StreamAt(streams, progs, pids, k, s, t, orphan) && StreamScan(t) && ShortChains(s, t, sent)
    requires |progs| <= INDEX_INVALID && |pids| <= INDEX_INVALID
    ensures StreamEnds(progs, pids, streams[k].body, sent)
  {
    hide PidAt, ProgAt, Linked, Ends, LeafTrees, ProgEnds, ProgScan, ShortProg, Nth;
    var b := streams[k].body;
    LinkedEnds(progs, b.progHead, ProgSlots(s.progs));
    LinkedEnds(pids, b.emmHead, PidSlots(s.emm));
    LinkedEnds(pids, b.otherHead, PidSlots(s.other));
    PathOfLinked(progs, b.progHead, ProgSlots(s.progs));
    forall i | 0 <= i < |s.progs| && sent(s.progs[i].slot) ensures ProgEnds(progs, pids, s.progs[i].slot) {
      ProgIsNode(progs, pids, s.progs[i], t.progs[i], k, orphan);
      ProgInPlaceEnds(progs, pids, s.progs[i], t.progs[i], k, orphan);
    }
  }

  lemma ProgIsNode(progs: seq<Prog>, pids: seq<Pid>, s: ProgShape, t: ProgTree, ts: nat, orphan: bool)
    requires ProgAt(progs, pids, s, t, ts, orphan)
    ensures t.ProgNode?
  {
  }

  /**
    One round of LUT_SetInputLUT for a channel whose stream is in place, with chains of fewer than 300
    slots, and not passed on as a whole: it succeeds. The table then sends on what belongs to the tree,
    and the PMTs met; if the first slot of the channel is that of the stream, these are exactly the
    PIDs of the tree.
   */
  method SetTableOfStream(hw: Hardware, lut: nat, streams: seq<Stream>, progs: seq<Prog>, pids: seq<Pid>,
                          sent: nat -> bool, ghost k: nat, ghost s: StreamShape, ghost t: StreamTree,
                          ghost orphan: bool)
    returns (code: Code)
    requires |streams| >= MAX_CHANNELS && forall i :: 0 <= i < |streams| ==> streams[i].index < |streams|
    requires |progs| <= INDEX_INVALID && |pids| <= INDEX_INVALID && StreamId(lut) < 1024
    requires IsStream(streams, lut, k) && StreamAt(streams, progs, pids, k, s, t, orphan) && StreamScan(t)
    requires ShortChains(s, t, sent)
    modifies hw
    ensures code == Success && OthersKept(old(hw.cells), hw.cells, lut)
    ensures Fits(RestPids(s, t, sent) + MetPmts(streams, progs, lut)) ==>
              SendsSet(hw.cells, lut, RestPids(s, t, sent) + MetPmts(streams, progs, lut))
    ensures Fits(TreePids(s, t, sent)) && streams[FirstSlot(streams, lut, 0)].index == k ==>
              SendsSet(hw.cells, lut, TreePids(s, t, sent))
  {
    hide ProgAt, PidsAt, Linked, StreamScan, Wanted, FirstMet, SendsSet, SentPids, ForestPids, PmtPids, StreamEnds,
      Ends, Sends, OthersKept, ShortChains, Holds, FirstSlot, Fits;
    InPlaceEnds(streams, progs, pids, k, s, t, orphan, sent);
    ghost var k1;
    code, k1 := SetTable(hw, lut, streams, progs, pids, false, sent);
    assert k1 == k;
    assert TableSet(hw.cells, lut, streams, progs, pids, k, s, t, orphan, sent);
    if Fits(RestPids(s, t, sent) + MetPmts(streams, progs, lut)) {
      TableSendsRest(hw.cells, lut, streams, progs, pids, k, s, t, orphan, sent);
    }
    if Fits(TreePids(s, t, sent)) && streams[FirstSlot(streams, lut, 0)].index == k {
      TableSendsTheTree(hw.cells, lut, streams, progs, pids, k, s, t, orphan, sent);
    }
  }

  lemma {:induction false} TableSendsRest(cells: map<nat, nat>, lut: nat, streams: seq<Stream>, progs: seq<Prog>,
                                          pids: seq<Pid>, k: nat, s: StreamShape, t: StreamTree, orphan: bool,
                                          sent: nat -> bool)
    requires TableSet(cells, lut, streams, progs, pids, k, s, t, orphan, sent) && StreamId(lut) < 1024
    requires Fits(RestPids(s, t, sent) + MetPmts(streams, progs, lut))
    ensures SendsSet(cells, lut, RestPids(s, t, sent) + MetPmts(streams, progs, lut))
  {
    hide ProgAt, PidsAt, Linked, StreamScan, Wanted, FirstMet, SentOn, SentPids, ForestPids, PmtPids, Ends;
    var first := FirstMet(streams, progs, lut);
    WalkFindsTheRest(streams, progs, pids, k, s, t, orphan, sent, first);
    MembersAreSent(cells, lut, Wanted(progs, pids, streams[k].body, first, sent));
  }
}
