/**
  What the copy of a stream guarantees, stated without shapes: the new slots are exactly the ones
  that a walk from the new stream reaches, and nothing that was in use changes.
 */
module TsTheorems {
  import opened TsPool
  import opened TsTree
  import opened TsAlloc
  import opened TsCopy
  import opened TsCopyProg
  import opened TsCopyStream

  // ---------------------------------------------------------------- reachable slots

  function ReachPid(pids: seq<Pid>, k: nat): set<nat> {
    {k} + (if k < |pids| && pids[k].body.data.kind == EsPid
           then (set e | e in Path(pids, pids[k].body.ecmHead, pids[k].body.ecmNum)) else {})
  }

  function ReachPids(pids: seq<Pid>, path: seq<nat>): set<nat> {
    if path == [] then {} else ReachPids(pids, path[..|path| - 1]) + ReachPid(pids, path[|path| - 1])
  }

  function ReachProg(progs: seq<Prog>, pids: seq<Pid>, k: nat): set<nat> {
    if k >= |progs| then {}
    else
      var b := progs[k].body;
      (if b.pcr == INDEX_INVALID then {} else ReachPid(pids, b.pcr))
      + ReachPids(pids, Path(pids, b.esHead, b.esNum))
      + ReachPids(pids, Path(pids, b.psHead, b.psNum))
  }

  function ReachProgs(progs: seq<Prog>, pids: seq<Pid>, path: seq<nat>): set<nat> {
    if path == [] then {}
    else ReachProgs(progs, pids, path[..|path| - 1]) + ReachProg(progs, pids, path[|path| - 1])
  }

  /** Every PID slot met when walking a stream by its counts and links. */
  function ReachStream(streams: seq<Stream>, progs: seq<Prog>, pids: seq<Pid>, k: nat): set<nat> {
    if k >= |streams| then {}
    else
      var b := streams[k].body;
      ReachProgs(progs, pids, Path(progs, b.progHead, b.progNum))
      + ReachPids(pids, Path(pids, b.emmHead, b.emmNum))
      + ReachPids(pids, Path(pids, b.otherHead, b.otherNum))
  }

  lemma PathOfLinked<T>(pool: seq<Slot<T>>, head: nat, idx: seq<nat>)
    requires Linked(pool, head, idx)
    ensures Path(pool, head, |idx|) == idx
  {
    forall i | 0 <= i < |idx| ensures Path(pool, head, |idx|)[i] == idx[i] {
      NthOfLinked(pool, head, idx, i);
    }
  }

  lemma PidReach(pids: seq<Pid>, s: PidShape, t: PidTree, ts: nat, prog: nat, ecmParent: nat)
    requires PidAt(pids, s, t, ts, prog, ecmParent)
    ensures ReachPid(pids, s.slot) == Slots(s)
  {
    if pids[s.slot].body.data.kind == EsPid {
      PathOfLinked(pids, pids[s.slot].body.ecmHead, s.ecms);
    }
  }

  lemma {:induction false} PidsReach(pids: seq<Pid>, ss: seq<PidShape>, trees: seq<PidTree>, ts: nat, prog: nat,
                                     orphan: bool)
    requires |ss| == |trees|
    requires forall j :: 0 <= j < |ss| ==> PidAt(pids, ss[j], trees[j], ts, prog, EcmParent(orphan, ss[j].slot))
    ensures ReachPids(pids, PidSlots(ss)) == SlotsOf(ss)
  {
    if ss != [] {
      var init, last := ss[..|ss| - 1], ss[|ss| - 1];
      assert PidSlots(ss)[..|ss| - 1] == PidSlots(init);
      PidsReach(pids, init, trees[..|ss| - 1], ts, prog, orphan);
      PidReach(pids, last, trees[|ss| - 1], ts, prog, EcmParent(orphan, last.slot));
    }
  }

  lemma PcrReach(pids: seq<Pid>, pcr: nat, ss: seq<PidShape>, trees: seq<PidTree>, ts: nat, prog: nat, orphan: bool)
    requires |ss| == |trees| == 1 && pcr == ss[0].slot
    requires PidAt(pids, ss[0], trees[0], ts, prog, EcmParent(orphan, ss[0].slot))
    ensures ReachPid(pids, pcr) == SlotsOf(ss)
  {
    hide PidAt, Linked;
    PidReach(pids, ss[0], trees[0], ts, prog, EcmParent(orphan, ss[0].slot));
    SlotsSnoc([], ss[0]);
    assert ss == [] + [ss[0]];
  }

  lemma ChainReach(pids: seq<Pid>, head: nat, ss: seq<PidShape>, trees: seq<PidTree>, ts: nat, prog: nat, orphan: bool)
    requires PidsAt(pids, head, ss, trees, ts, prog, orphan)
    ensures ReachPids(pids, Path(pids, head, |ss|)) == SlotsOf(ss)
  {
    PathOfLinked(pids, head, PidSlots(ss));
    PidsReach(pids, ss, trees, ts, prog, orphan);
  }

  lemma ProgReach(progs: seq<Prog>, pids: seq<Pid>, s: ProgShape, t: ProgTree, ts: nat, orphan: bool)
    requires ProgAt(progs, pids, s, t, ts, orphan)
    ensures ReachProg(progs, pids, s.slot) == UsedByProg(s)
  {
    hide PidAt, PidsAt, Linked, ReachPids, ReachPid, Path;
    var b := progs[s.slot].body;
    ChainReach(pids, b.esHead, s.es, t.es, ts, s.slot, orphan);
    ChainReach(pids, b.psHead, s.ps, t.ps, ts, s.slot, orphan);
    if s.pcr != [] {
      PcrReach(pids, b.pcr, s.pcr, t.pcr, ts, s.slot, orphan);
    }
  }

  lemma {:induction false} ProgsReach(progs: seq<Prog>, pids: seq<Pid>, ss: seq<ProgShape>, trees: seq<ProgTree>,
                                      ts: nat, orphan: bool)
    requires |ss| == |trees|
    requires forall j :: 0 <= j < |ss| ==> ProgAt(progs, pids, ss[j], trees[j], ts, orphan)
    ensures ReachProgs(progs, pids, ProgSlots(ss)) == UsedByProgs(ss)
  {
    hide ProgAt;
    if ss != [] {
      var init, last := ss[..|ss| - 1], ss[|ss| - 1];
      assert ProgSlots(ss)[..|ss| - 1] == ProgSlots(init);
      ProgsReach(progs, pids, init, trees[..|ss| - 1], ts, orphan);
      ProgReach(progs, pids, last, trees[|ss| - 1], ts, orphan);
    }
  }

  /** The slots of the shape are the slots reached by walking. */
  lemma StreamReach(streams: seq<Stream>, progs: seq<Prog>, pids: seq<Pid>, k: nat, s: StreamShape, t: StreamTree,
                    orphan: bool)
    requires StreamAt(streams, progs, pids, k, s, t, orphan)
    ensures ReachStream(streams, progs, pids, k) == UsedByStream(s)
  {
    hide PidAt, PidsAt, Linked, ProgAt, ReachPids, ReachProgs, Path;
    var b := streams[k].body;
    PathOfLinked(progs, b.progHead, ProgSlots(s.progs));
    ProgsReach(progs, pids, s.progs, t.progs, k, orphan);
    ChainReach(pids, b.emmHead, s.emm, t.emm, k, INDEX_INVALID, orphan);
    ChainReach(pids, b.otherHead, s.other, t.other, k, INDEX_INVALID, orphan);
  }

  // ---------------------------------------------------------------- no leak, no alias, frame

  /** Slots in use after the call that were not in use before. */
  function NewlyValid<T>(p0: seq<Slot<T>>, p1: seq<Slot<T>>): set<nat> {
    set k: nat | k < |p1| && p1[k].valid && (k >= |p0| || !p0[k].valid)
  }

  /** Every slot that was in use is as it was. */
  ghost predicate InUseKept<T>(p0: seq<Slot<T>>, p1: seq<Slot<T>>) {
    |p0| <= |p1| && forall k :: 0 <= k < |p0| && p0[k].valid ==> p1[k] == p0[k]
  }

  /**
    After a successful copy that lost no head: the slots newly in use are exactly those reached
    from the new stream (no leak), every slot serves once (no aliasing), and whatever was in use
    is untouched; the program slots newly in use are the stream's program chain.
   */
  lemma CopyNeitherLeaksNorAliases(streams: seq<Stream>, g0: seq<Prog>, g1: seq<Prog>, p0: seq<Pid>, p1: seq<Pid>,
                                   dst: nat, s: StreamShape, tree: StreamTree)
    requires StreamCopied(streams, g0, g1, p0, p1, dst, s, false, tree)
    ensures NewlyValid(p0, p1) == ReachStream(streams, g1, p1, dst)
    ensures InUseKept(p0, p1) && InUseKept(g0, g1) && ApartStream(s)
    ensures NewlyValid(g0, g1) == Elements(Path(g1, streams[dst].body.progHead, streams[dst].body.progNum))
  {
    StreamReach(streams, g1, p1, dst, s, tree, true);
    PathOfLinked(g1, streams[dst].body.progHead, ProgSlots(s.progs));
    NewIsTaken(p0, p1, UsedByStream(s));
    NewIsElements(g0, g1, ProgSlots(s.progs));
  }

  lemma NewIsTaken(p0: seq<Pid>, p1: seq<Pid>, used: set<nat>)
    requires NewlyTaken(p0, p1, used)
    ensures NewlyValid(p0, p1) == used && InUseKept(p0, p1)
  {
  }

  lemma NewIsElements(g0: seq<Prog>, g1: seq<Prog>, list: seq<nat>)
    requires Frame(g0, g1, Elements(list))
    requires forall k :: k in Elements(list) ==> k < |g1| && g1[k].valid && (k < |g0| ==> !g0[k].valid)
    ensures NewlyValid(g0, g1) == Elements(list) && InUseKept(g0, g1)
  {
  }

  /** With as many free slots as the programs have nodes, no head is lost. */
  lemma RoomIsEnough(streams: seq<Stream>, g0: seq<Prog>, g1: seq<Prog>, p0: seq<Pid>, p1: seq<Pid>, dst: nat,
                     s: StreamShape, stale: bool, tree: StreamTree)
    requires StreamCopied(streams, g0, g1, p0, p1, dst, s, stale, tree)
    requires tree.StreamNode? && |Free(p0)| >= ProgsSize(tree.progs)
    ensures ReadStream(streams, g1, p1, dst) == tree
  {
  }

  // ---------------------------------------------------------------- where the code does less

  /**
    A copied ECM does not name its elementary stream: the copy passes on the owner of the
    elementary stream itself. So the copy has the owner links of the original, with each ECM
    pointing at its new parent, exactly when there are no ECMs.
   */
  lemma CopiedEcmsAreOrphans(pids: seq<Pid>, s: PidShape, t: PidTree, ts: nat, prog: nat)
    requires PidAt(pids, s, t, ts, prog, INDEX_INVALID) && |pids| <= INDEX_INVALID
    ensures PidAt(pids, s, t, ts, prog, s.slot) <==> s.ecms == []
  {
    if s.ecms != [] {
      assert LeafAt(pids, s.ecms[0], t.ecms[0], ts, prog, INDEX_INVALID);
    }
  }

  const LOST_ES: PidData := PidData(1, 0, EsPid, 2, 0x100, 0x100, 0, [])
  const LOST_ECM: PidData := PidData(1, 0, EsEcmPid, 0, 0x200, 0x200, 0x1234, [])

  /**
    A source as a scan leaves it: a program with its PCR in slot 0, an elementary stream in 1 and its
    only ECM in 2.
   */
  function LostHeadSource(): seq<Pid> {
    [Slot(true, 0, INDEX_INVALID,
          PidRec(0, 0, INDEX_INVALID, 0, INDEX_INVALID, PidData(1, 0, PcrPid, 0, 0x101, 0x101, 0, []))),
     Slot(true, 1, INDEX_INVALID, PidRec(0, 0, INDEX_INVALID, 1, 2, LOST_ES)),
     Slot(true, 2, INDEX_INVALID, PidRec(0, 0, 1, 0, INDEX_INVALID, LOST_ECM))]
  }

  function LostHeadProg(): ProgRec {
    ProgRec(0, 0, 1, 1, 0, INDEX_INVALID, ProgData(1, 0, 1, 1, 0x20, 0x20, 0x101, 0x101, 0, []))
  }

  function LostHeadProgs(): seq<Prog> { [Slot(true, 0, INDEX_INVALID, LostHeadProg())] }

  function LostHeadStream(): StreamRec { StreamRec(1, 0, 0, INDEX_INVALID, 0, INDEX_INVALID, StreamData(1, 0, 0)) }

  /** A live pool with two free slots, the third in use by someone else. */
  function LostHeadPool(busy: Pid): seq<Pid> { [ZERO_PID, ZERO_PID, busy] }

  const ALWAYS_MOVES: nat -> Realloc := (n: nat) => Moves

  function Cells3(a: bool, b: bool, c: bool): seq<Cell> { [Bare(a), Bare(b), Bare(c)] }

  /** The request for the two siblings takes both free slots. */
  lemma SiblingsRequest()
    ensures var f := Cells3(false, false, true);
            && Free(f) == [0, 1] && Chosen(f, 2) == [0, 1] && Filled(f, 2) == Cells3(true, true, true)
  {
    var f := Cells3(false, false, true);
    assert Unused(f, 0) == [] && Unused(f, 1) == [0] && Unused(f, 2) == [0, 1] && Unused(f, 3) == [0, 1];
    assert [0, 1][..2] == [0, 1];
  }

  /** The request for the ECM does not fit, and gets slot 3. */
  lemma EcmRequest()
    ensures var f := Cells3(true, true, true); Free(f) == [] && Chosen(f, 1) == [3]
  {
    var f := Cells3(true, true, true);
    assert Unused(f, 0) == [] && Unused(f, 1) == [] && Unused(f, 2) == [] && Unused(f, 3) == [];
    var g := Roomy(f, 1);
    assert Unused(g, 0) == [] && Unused(g, 1) == [] && Unused(g, 2) == [] && Unused(g, 3) == [] && Unused(g, 4) == [3];
    UnusedGrows(g, 4, |g|);
  }

  /** The elementary stream of the example: granted, and its head lost. */
  lemma EsRequest()
    ensures var f, temp := Cells3(true, true, true), LostHeadSource();
            && ChainOk(f, temp, [1], ALWAYS_MOVES)
            && ChainAlloc(Alloc(f, false), temp, [1], ALWAYS_MOVES).lost
  {
    var f, temp := Cells3(true, true, true), LostHeadSource();
    EcmRequest();
    assert [1][..0] == [] && Path(temp, 2, 1) == [2];
    assert CanGrow(503, 500, 1, PIDS_PER_GROWTH, ALWAYS_MOVES);
  }

  /** The program of the example can be copied, and a head is lost. */
  lemma ProgRequest(busy: Pid)
    requires busy.valid
    ensures var flags := Flags(LostHeadPool(busy));
            && ProgOk(flags, LostHeadSource(), LostHeadProg(), ALWAYS_MOVES)
            && ProgAlloc(Alloc(flags, false), LostHeadSource(), LostHeadProg(), ALWAYS_MOVES).lost
  {
    hide ChainOk, ChainAlloc, Chosen, Filled, Free;
    var temp, t := LostHeadSource(), LostHeadProg();
    assert Flags(LostHeadPool(busy)) == Cells3(false, false, true);
    SiblingsRequest();
    EsRequest();
    assert Path(temp, 1, 1) == [1] && Path(temp, INDEX_INVALID, 0) == [];
    EmptyChain(temp);
  }

  lemma EmptyChain(temp: seq<Pid>)
    ensures forall a: Alloc :: ChainAlloc(a, temp, [], ALWAYS_MOVES) == a
    ensures forall f: seq<Cell> :: ChainOk(f, temp, [], ALWAYS_MOVES)
  {
  }

  lemma LostHeadGranted(busy: Pid)
    requires busy.valid
    ensures StreamOk([ZERO_PROG], LostHeadPool(busy), LostHeadProgs(), LostHeadSource(), LostHeadStream(), ALWAYS_MOVES)
  {
    hide ProgAlloc, ProgOk, Flags, ProgsAlloc, Released;
    ProgRequest(busy);
    var progs, temp, flags := LostHeadProgs(), LostHeadSource(), Flags(LostHeadPool(busy));
    assert Path(progs, 0, 1) == [0] && Path(temp, INDEX_INVALID, 0) == [];
    OneProgOk(flags, progs, temp);
    OneProgFree();
  }

  lemma OneProgFree()
    ensures Free([ZERO_PROG]) == [0]
  {
    assert Unused([ZERO_PROG], 0) == [];
  }

  lemma OneProgOk(flags: seq<Cell>, progs: seq<Prog>, temp: seq<Pid>)
    requires |progs| == 1 && ProgOk(flags, temp, progs[0].body, ALWAYS_MOVES)
    ensures ProgsOk(flags, progs, temp, [0], ALWAYS_MOVES)
    ensures ProgsAlloc(Alloc(flags, false), progs, temp, [0], ALWAYS_MOVES)
         == ProgAlloc(Alloc(flags, false), temp, progs[0].body, ALWAYS_MOVES)
  {
    hide ProgAlloc, ProgOk;
    assert [0][..0] == [];
    assert ProgsAlloc(Alloc(flags, false), progs, temp, [], ALWAYS_MOVES) == Alloc(flags, false);
  }

  /**
    A concrete input that loses a head: a stream with one program, which has a PCR and an elementary
    stream with one ECM, copied into a pool with two free slots, when realloc moves the pool. The copy
    succeeds.
   */
  lemma LostHeadExample(busy: Pid)
    requires busy.valid
    ensures StreamOk([ZERO_PROG], LostHeadPool(busy), LostHeadProgs(), LostHeadSource(), LostHeadStream(), ALWAYS_MOVES)
    ensures LosesHead(LostHeadPool(busy), LostHeadProgs(), LostHeadSource(), LostHeadStream(), ALWAYS_MOVES)
  {
    hide ProgAlloc, ProgOk, Flags, StreamOk, ProgsAlloc;
    LostHeadGranted(busy);
    ProgRequest(busy);
    assert Path(LostHeadProgs(), 0, 1) == [0];
    OneProgOk(Flags(LostHeadPool(busy)), LostHeadProgs(), LostHeadSource());
  }

  /** In the example only the elementary stream can have lost its head. */
  lemma LostIsTheEs(p1: seq<Pid>, s: ProgShape, progs1: seq<Prog>, ts: nat)
    requires Outline(progs1, p1, s, LostHeadSource(), LostHeadProg(), ts) && LostInProg(p1, s)
    ensures |s.es| == 1 && RootAt(p1, s.es[0], LostHeadSource()[1], ts, s.slot) && LostAt(p1, s.es[0])
  {
    hide RootAt, LostAt;
    assert Path(LostHeadSource(), 1, 1) == [1];
    assert s.es == [s.es[0]] && s.es[..0] == [];
    assert !AnyLost(p1, s.pcr) by {
      assert s.pcr == [s.pcr[0]] && s.pcr[..0] == [];
      assert !LostAt(p1, s.pcr[0]) by {
        NothingToLose(p1, s.pcr[0]);
      }
    }
  }

  lemma NothingToLose(p1: seq<Pid>, s: PidShape)
    requires s.ecms == []
    ensures !LostAt(p1, s)
  {
  }

  lemma BusyIsKept(busy: Pid, p1: seq<Pid>, used: set<nat>)
    requires busy.valid && NewlyTaken(LostHeadPool(busy), p1, used)
    ensures |p1| > 2 && p1[2] == busy
  {
    assert LostHeadPool(busy)[2] == busy;
  }

  lemma LostEsReads(busy: Pid, p1: seq<Pid>, s: PidShape, ts: nat, prog: nat)
    requires |p1| > 2 && p1[2] == busy && RootAt(p1, s, LostHeadSource()[1], ts, prog) && LostAt(p1, s)
    ensures ReadPid(p1, s.slot) == PidNode(LOST_ES, [PidNode(busy.body.data, [])])
  {
    assert Path(p1, 2, 1) == [2];
    assert ReadLeaves(p1, [2]) == [PidNode(busy.body.data, [])];
  }

  /**
    What is then read: the elementary stream is there, but in place of its ECM stands whatever the
    third slot held before.
   */
  lemma LostHeadReads(busy: Pid, progs1: seq<Prog>, p1: seq<Pid>, s: ProgShape, stale: bool, dst: nat, ts: nat)
    requires busy.valid
    requires ProgCopied(progs1, LostHeadPool(busy), p1, s, stale, dst, LostHeadProgs(), LostHeadSource(), 0, ts)
    requires ProgAlloc(Alloc(Flags(LostHeadPool(busy)), false), LostHeadSource(), LostHeadProg(), ALWAYS_MOVES)
          == Alloc(Flags(p1), stale)
    ensures var source := ReadProg(LostHeadProgs(), LostHeadSource(), 0);
            source.ProgNode? && source.es == [PidNode(LOST_ES, [PidNode(LOST_ECM, [])])]
    ensures var copy := ReadProg(progs1, p1, dst);
            copy.ProgNode? && copy.es == [PidNode(LOST_ES, [PidNode(busy.body.data, [])])]
  {
    hide ProgAlloc, ProgOk, LostInProg, Outline, NewlyTaken, ApartProg, UsedByProg, ProgAt, ReadPid;
    ProgRequest(busy);
    LostIsTheEs(p1, s, progs1, ts);
    BusyIsKept(busy, p1, UsedByProg(s));
    LostEsReads(busy, p1, s.es[0], ts, s.slot);
    OnlyEsRead(progs1, p1, s, ts);
    SourceReads();
  }

  lemma OnlyEsRead(progs1: seq<Prog>, p1: seq<Pid>, s: ProgShape, ts: nat)
    requires Outline(progs1, p1, s, LostHeadSource(), LostHeadProg(), ts) && |s.es| == 1
    ensures var t := ReadProg(progs1, p1, s.slot);
            t.ProgNode? && t.es == [ReadPid(p1, s.es[0].slot)]
  {
    hide Roots, ReadPid;
    assert Path(p1, s.es[0].slot, 1) == [s.es[0].slot];
  }

  lemma SourceReads()
    ensures var source := ReadProg(LostHeadProgs(), LostHeadSource(), 0);
            source.ProgNode? && source.es == [PidNode(LOST_ES, [PidNode(LOST_ECM, [])])]
  {
    var temp := LostHeadSource();
    assert Path(temp, 1, 1) == [1] && Path(temp, 2, 1) == [2];
    assert ReadLeaves(temp, [2]) == [PidNode(LOST_ECM, [])];
  }
}
