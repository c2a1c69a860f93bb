/**
  Entering the PIDs of a program from its PMT (TSP_SetInputPMTInfo). One list of free slots is
  asked for and dealt out in the order of the table: the PCR, each elementary stream followed by
  its ECMs, then the ECMs of the program.
 */
module TsPmt {
  import opened TsPool
  import opened TsTree
  import opened TsAppend
  import opened TsBuild

  // ---------------------------------------------------------------- the tree of a PMT

  function LeafData(slotId: nat, channel: nat, kind: PidKind, ca: Ca): PidData {
    PidData(slotId, channel, kind, 0, ca.pid, ca.pid, ca.casId, [])
  }

  function CaTrees(slotId: nat, channel: nat, kind: PidKind, cas: seq<Ca>): (r: seq<PidTree>)
    ensures |r| == |cas|
  {
    seq(|cas|, i requires 0 <= i < |cas| => PidNode(LeafData(slotId, channel, kind, cas[i]), []))
  }

  function EsTree(slotId: nat, channel: nat, e: PmtEs): PidTree {
    PidNode(PidData(slotId, channel, EsPid, e.streamType, e.pid, e.pid, 0, e.info),
            CaTrees(slotId, channel, EsEcmPid, e.cas))
  }

  function EsTrees(slotId: nat, channel: nat, es: seq<PmtEs>): (r: seq<PidTree>)
    ensures |r| == |es|
  {
    seq(|es|, i requires 0 <= i < |es| => EsTree(slotId, channel, es[i]))
  }

  function HasPcr(pmt: Pmt): bool { pmt.pcrPid < NULL_PID }

  function PmtData(d: ProgData, pmt: Pmt): ProgData {
    var pcr := if HasPcr(pmt) then pmt.pcrPid else NULL_PID;
    d.(version := pmt.version, pcrPid := pcr, newPcrPid := pcr, progInfo := pmt.info)
  }

  /** The PCR as an entry of its own. */
  function PcrEntries(pmt: Pmt): (r: seq<Ca>)
    ensures |r| == if HasPcr(pmt) then 1 else 0
  {
    if HasPcr(pmt) then [Ca(0, pmt.pcrPid)] else []
  }

  /** The program that a PMT describes, for an entry that already carries the data d. */
  function PmtTree(d: ProgData, pmt: Pmt): ProgTree {
    ProgNode(PmtData(d, pmt),
             CaTrees(d.slotId, d.channel, PcrPid, PcrEntries(pmt)),
             EsTrees(d.slotId, d.channel, pmt.es),
             CaTrees(d.slotId, d.channel, PsEcmPid, pmt.cas))
  }

  /**
    What a reader of the program then finds, field by field: a PCR exactly if the PMT names a PID
    other than the null PID for it, and every stream and every ECM with its own numbers.
   */
  ghost predicate Describes(t: ProgTree, slotId: nat, channel: nat, pmt: Pmt) {
    && t.ProgNode? && t.data.version == pmt.version && t.data.progInfo == pmt.info
    && t.data.pcrPid == t.data.newPcrPid == (if pmt.pcrPid < 0x1FFF then pmt.pcrPid else 0x1FFF)
    && (if pmt.pcrPid < 0x1FFF
        then t.pcr == [PidNode(PidData(slotId, channel, PcrPid, 0, pmt.pcrPid, pmt.pcrPid, 0, []), [])]
        else t.pcr == [])
    && |t.es| == |pmt.es|
    && (forall j :: 0 <= j < |t.es| ==> StreamDescribed(t.es[j], slotId, channel, pmt.es[j]))
    && EntriesDescribed(t.ps, slotId, channel, PsEcmPid, pmt.cas)
  }

  ghost predicate StreamDescribed(t: PidTree, slotId: nat, channel: nat, e: PmtEs) {
    && t.PidNode? && t.data == PidData(slotId, channel, EsPid, e.streamType, e.pid, e.pid, 0, e.info)
    && EntriesDescribed(t.ecms, slotId, channel, EsEcmPid, e.cas)
  }

  /** One node for each conditional access entry, in order. */
  ghost predicate EntriesDescribed(ts: seq<PidTree>, slotId: nat, channel: nat, kind: PidKind, cas: seq<Ca>) {
    && |ts| == |cas|
    && forall j :: 0 <= j < |ts| ==>
         ts[j] == PidNode(PidData(slotId, channel, kind, 0, cas[j].pid, cas[j].pid, cas[j].casId, []), [])
  }

  lemma EntriesAre(slotId: nat, channel: nat, kind: PidKind, cas: seq<Ca>)
    ensures EntriesDescribed(CaTrees(slotId, channel, kind, cas), slotId, channel, kind, cas)
  {
  }

  lemma {:induction false} PmtTreeDescribes(d: ProgData, pmt: Pmt)
    ensures Describes(PmtTree(d, pmt), d.slotId, d.channel, pmt)
  {
    hide CaTrees, EntriesDescribed;
    EntriesAre(d.slotId, d.channel, PsEcmPid, pmt.cas);
    EntriesAre(d.slotId, d.channel, PcrPid, PcrEntries(pmt));
    OneEntry(d.slotId, d.channel, PcrPid, PcrEntries(pmt));
    forall j | 0 <= j < |pmt.es|
      ensures StreamDescribed(EsTrees(d.slotId, d.channel, pmt.es)[j], d.slotId, d.channel, pmt.es[j])
    {
      EntriesAre(d.slotId, d.channel, EsEcmPid, pmt.es[j].cas);
    }
  }

  lemma OneEntry(slotId: nat, channel: nat, kind: PidKind, cas: seq<Ca>)
    ensures cas == [] ==> CaTrees(slotId, channel, kind, cas) == []
    ensures |cas| == 1 ==>
              CaTrees(slotId, channel, kind, cas)
                == [PidNode(PidData(slotId, channel, kind, 0, cas[0].pid, cas[0].pid, cas[0].casId, []), [])]
  {
  }

  /** Slots needed for elementary streams and their ECMs. */
  function EsSlots(es: seq<PmtEs>): nat {
    if es == [] then 0 else EsSlots(es[..|es| - 1]) + 1 + |es[|es| - 1].cas|
  }

  function PmtSlots(pmt: Pmt): nat {
    (if HasPcr(pmt) then 1 else 0) + |pmt.es| + |pmt.cas| + EcmsIn(pmt.es)
  }

  function EcmsIn(es: seq<PmtEs>): nat {
    if es == [] then 0 else EcmsIn(es[..|es| - 1]) + |es[|es| - 1].cas|
  }

  lemma {:induction false} EsSlotsSplit(es: seq<PmtEs>)
    ensures EsSlots(es) == |es| + EcmsIn(es)
  {
    if es != [] {
      EsSlotsSplit(es[..|es| - 1]);
    }
  }

  // ---------------------------------------------------------------- dealing out the slots

  lemma {:induction false} EsSlotsGrow(es: seq<PmtEs>, m: nat, n: nat)
    requires m <= n <= |es|
    ensures EsSlots(es[..m]) <= EsSlots(es[..n])
    decreases n
  {
    if m < n {
      assert es[..n][..n - 1] == es[..n - 1];
      EsSlotsGrow(es, m, n - 1);
    }
  }

  /** The slots for elementary stream j, out of the list dealt to all of them. */
  function EsShape(list: seq<nat>, es: seq<PmtEs>, j: nat): PidShape
    requires j < |es|
  {
    var at, n := EsSlots(es[..j]), |es[j].cas|;
    if at + 1 + n <= |list| then PidShape(list[at], list[at + 1..at + 1 + n]) else PidShape(0, [])
  }

  function EsShapes(list: seq<nat>, es: seq<PmtEs>, n: nat): (r: seq<PidShape>)
    requires n <= |es|
    ensures |r| == n
  {
    seq(n, j requires 0 <= j < n => EsShape(list, es, j))
  }

  /** Dealing uses up a prefix of the list, each slot once. */
  lemma {:induction false} EsShapesDealt(list: seq<nat>, es: seq<PmtEs>, n: nat)
    requires n <= |es| && EsSlots(es) <= |list| && NoDup(list)
    ensures EsSlots(es[..n]) <= |list|
    ensures Apart(EsShapes(list, es, n)) && SlotsOf(EsShapes(list, es, n)) == Elements(list[..EsSlots(es[..n])])
    decreases n
  {
    hide Slots, Proper, NoDup, Elements, SlotsOf, Apart, EsShape, EsSlots;
    if n == 0 {
      NoShapes(list, es);
    } else {
      ShapeAt(list, es, n - 1);
      EsShapesDealt(list, es, n - 1);
      var ss, s := EsShapes(list, es, n - 1), EsShape(list, es, n - 1);
      assert EsShapes(list, es, n) == ss + [s];
      DealtOne(list, EsSlots(es[..n - 1]), |es[n - 1].cas|);
      SlotsSnoc(ss, s);
    }
  }

  lemma NoShapes(list: seq<nat>, es: seq<PmtEs>)
    ensures EsShapes(list, es, 0) == [] && Apart([]) && SlotsOf([]) == {} && EsSlots(es[..0]) == 0
    ensures Elements(list[..0]) == {}
  {
  }

  /** Where elementary stream i finds its slots. */
  lemma {:induction false} ShapeAt(list: seq<nat>, es: seq<PmtEs>, i: nat)
    requires i < |es| && EsSlots(es) <= |list|
    ensures EsSlots(es[..i + 1]) == EsSlots(es[..i]) + 1 + |es[i].cas| <= |list|
    ensures var at := EsSlots(es[..i]); EsShape(list, es, i) == PidShape(list[at], list[at + 1..at + 1 + |es[i].cas|])
  {
    assert es[..i + 1][..i] == es[..i] && es[..|es|] == es;
    EsSlotsGrow(es, i + 1, |es|);
  }

  lemma DealtOne(list: seq<nat>, at: nat, n: nat)
    requires at + 1 + n <= |list| && NoDup(list)
    ensures var s := PidShape(list[at], list[at + 1..at + 1 + n]);
            && Proper(s) && Slots(s) !! Elements(list[..at])
            && Elements(list[..at]) + Slots(s) == Elements(list[..at + 1 + n])
  {
    var s := PidShape(list[at], list[at + 1..at + 1 + n]);
    assert list[..at + 1 + n] == list[..at] + [list[at]] + s.ecms;
    forall x | x in s.ecms ensures x != list[at] && x !in list[..at] {
      var i :| 0 <= i < n && s.ecms[i] == x;
      assert list[at + 1 + i] == x;
    }
  }

  // ---------------------------------------------------------------- a chain of ECMs

  /** Where an ECM belongs: to a program, or to an elementary stream. */
  datatype Owner = Owner(ts: nat, prog: nat, parent: nat, slotId: nat, channel: nat)

  function CaPid(o: Owner, kind: PidKind, slot: nat, ca: Ca): Pid {
    WithPid(NewPid(slot, o.ts, o.prog, o.parent, o.slotId, o.channel, kind), ca.pid, ca.casId)
  }

  function CaPids(o: Owner, kind: PidKind, slots: seq<nat>, cas: seq<Ca>): (r: seq<Pid>)
    requires |slots| == |cas|
    ensures |r| == |slots|
  {
    seq(|slots|, i requires 0 <= i < |slots| => CaPid(o, kind, slots[i], cas[i]))
  }

  function OwnerOf(progs: seq<Prog>, pids: seq<Pid>, kind: PidKind, owner: nat): Owner
    requires if kind == EsEcmPid then owner < |pids| else owner < |progs|
  {
    if kind == EsEcmPid
    then var b := pids[owner].body; Owner(b.ts, b.prog, pids[owner].index, b.data.slotId, b.data.channel)
    else var b := progs[owner].body; Owner(b.ts, owner, INDEX_INVALID, b.data.slotId, b.data.channel)
  }

  /** The loop that enters ECMs into the given slots, linked in table order. */
  method EnterEcms(info: TsInfo, kind: PidKind, owner: nat, slots: seq<nat>, cas: seq<Ca>)
    requires info.Valid() && |slots| == |cas| && (kind == EsEcmPid || kind == PsEcmPid)
    requires if kind == EsEcmPid then owner < |info.pids| && owner !in Elements(slots) else owner < |info.progs|
    requires NoDup(slots) && forall k :: k in Elements(slots) ==> k < |info.pids|
    modifies info`pids
    ensures info.Valid()
    ensures AppendState(old(info.pids), info.pids, INDEX_INVALID, slots,
                        CaPids(OwnerOf(info.progs, old(info.pids), kind, owner), kind, slots, cas), |slots|)
  {
    hide AppendState;
    ghost var p0 := info.pids;
    ghost var o := OwnerOf(info.progs, p0, kind, owner);
    ghost var entries := CaPids(o, kind, slots, cas);
    AppendStart(p0, INDEX_INVALID, slots, entries);
    var j := 0;
    while j < |slots|
      invariant 0 <= j <= |slots| && info.Valid()
      invariant AppendState(p0, info.pids, INDEX_INVALID, slots, entries, j)
    {
      AppendSize(p0, info.pids, INDEX_INVALID, slots, entries, j);
      OwnerKept(p0, info.pids, slots, entries, j, if kind == EsEcmPid then owner else INDEX_INVALID);
      ghost var before := info.pids;
      var slot := slots[j];
      assert slot in Elements(slots);
      var ecm := WithPid(InitPid(info.streams, info.progs, info.pids, kind, owner, slot), cas[j].pid, cas[j].casId);
      info.pids := info.pids[slot := ecm.(next := if j + 1 == |slots| then INDEX_INVALID else slots[j + 1])];
      assert Hooked(before, INDEX_INVALID, slots[0]) == before;
      AppendStep(p0, before, INDEX_INVALID, slots, entries, j, info.pids);
      j := j + 1;
    }
    AppendSize(p0, info.pids, INDEX_INVALID, slots, entries, |slots|);
  }

  lemma OwnerKept(p0: seq<Pid>, p1: seq<Pid>, list: seq<nat>, entries: seq<Pid>, i: nat, owner: nat)
    requires AppendState(p0, p1, INDEX_INVALID, list, entries, i) && |p0| <= INDEX_INVALID
    ensures owner < |p0| && owner !in Elements(list) ==> p1[owner] == p0[owner]
  {
  }

  // ---------------------------------------------------------------- elementary streams

  /** One elementary stream and its ECMs were entered into their slots. */
  ghost predicate EsEntered(p0: seq<Pid>, p1: seq<Pid>, s: PidShape, t: PidTree, ts: nat, prog: nat, next: nat) {
    && |p1| == |p0| && (forall k :: 0 <= k < |p0| && k !in Slots(s) ==> p1[k] == p0[k])
    && PidAt(p1, s, t, ts, prog, s.slot) && p1[s.slot].next == next
  }

  lemma EcmsInPlace(p0: seq<Pid>, p1: seq<Pid>, slots: seq<nat>, o: Owner, kind: PidKind, cas: seq<Ca>)
    requires |slots| == |cas| && |p0| <= INDEX_INVALID
    requires AppendState(p0, p1, INDEX_INVALID, slots, CaPids(o, kind, slots, cas), |slots|)
    ensures |p1| == |p0| && forall k :: 0 <= k < |p0| && k !in Elements(slots) ==> p1[k] == p0[k]
    ensures slots != [] ==> Linked(p1, slots[0], slots)
    ensures forall j :: 0 <= j < |slots| ==>
              LeafAt(p1, slots[j], CaTrees(o.slotId, o.channel, kind, cas)[j], o.ts, o.prog, o.parent)
  {
  }

  /** One round of the loop over the elementary streams. */
  method EnterEs(info: TsInfo, prog: nat, slot: nat, ecms: seq<nat>, e: PmtEs, next: nat)
    requires info.Valid() && prog < |info.progs| && |ecms| == |e.cas|
    requires Proper(PidShape(slot, ecms)) && forall k :: k in Slots(PidShape(slot, ecms)) ==> k < |info.pids|
    modifies info`pids
    ensures info.Valid()
    ensures var b := info.progs[prog].body;
            EsEntered(old(info.pids), info.pids, PidShape(slot, ecms), EsTree(b.data.slotId, b.data.channel, e), b.ts,
                      prog, next)
  {
    hide AppendState;
    ghost var s := PidShape(slot, ecms);
    assert slot in Slots(s) && forall k :: k in Elements(ecms) ==> k in Slots(s);
    ghost var b := info.progs[prog].body;
    ghost var o := Owner(b.ts, prog, slot, b.data.slotId, b.data.channel);
    var es := InitPid(info.streams, info.progs, info.pids, EsPid, prog, slot);
    es := es.(body := es.body.(ecmNum := |e.cas|,
                               data := es.body.data.(streamType := e.streamType, pid := e.pid, newPid := e.pid,
                                                     esInfo := e.info)));
    if |e.cas| > 0 {
      es := es.(body := es.body.(ecmHead := ecms[0]));
    }
    info.pids := info.pids[slot := es];
    ghost var p1 := info.pids;
    EnterEcms(info, EsEcmPid, slot, ecms, e.cas);
    EcmsInPlace(p1, info.pids, ecms, o, EsEcmPid, e.cas);
    ghost var p2 := info.pids;
    info.pids := info.pids[slot := info.pids[slot].(next := next)];
    EsDone(p2, info.pids, s, EsTree(b.data.slotId, b.data.channel, e), b.ts, prog);
  }

  lemma EsDone(p2: seq<Pid>, p3: seq<Pid>, s: PidShape, t: PidTree, ts: nat, prog: nat)
    requires |p3| == |p2| && s.slot < |p2| && Proper(s) && t.PidNode? && |t.ecms| == |s.ecms|
    requires p3 == p2[s.slot := p2[s.slot].(next := p3[s.slot].next)]
    requires var p := p2[s.slot];
             && p.valid && p.index == s.slot && p.body.ts == ts && p.body.prog == prog && p.body.parent == INDEX_INVALID
             && p.body.data == t.data && p.body.data.kind == EsPid && p.body.ecmNum == |s.ecms|
             && (s.ecms != [] ==> p.body.ecmHead == s.ecms[0] && Linked(p2, s.ecms[0], s.ecms))
    requires forall j :: 0 <= j < |s.ecms| ==> LeafAt(p2, s.ecms[j], t.ecms[j], ts, prog, s.slot)
    ensures PidAt(p3, s, t, ts, prog, s.slot)
  {
    forall j | 0 <= j < |s.ecms| ensures s.ecms[j] < |p2| && p3[s.ecms[j]] == p2[s.ecms[j]] {
      assert s.ecms[j] in Elements(s.ecms);
      assert LeafAt(p2, s.ecms[j], t.ecms[j], ts, prog, s.slot);
    }
  }

  /** The first i elementary streams are in place, in table order; nothing else changed. */
  ghost predicate EsState(p0: seq<Pid>, p1: seq<Pid>, list: seq<nat>, d: ProgData, es: seq<PmtEs>, i: nat, ts: nat,
                          prog: nat)
    requires EsSlots(es) <= |list|
  {
    && i <= |es| && EsSlots(es[..i]) <= |list| && |p1| == |p0|
    && (forall k :: 0 <= k < |p0| && k !in Elements(list[..EsSlots(es[..i])]) ==> p1[k] == p0[k])
    && (forall j :: 0 <= j < i ==>
          && var s := EsShape(list, es, j);
          && PidAt(p1, s, EsTree(d.slotId, d.channel, es[j]), ts, prog, s.slot)
          && p1[s.slot].next == Follower(PidSlots(EsShapes(list, es, |es|)), j))
  }

  lemma EsStart(p0: seq<Pid>, list: seq<nat>, d: ProgData, es: seq<PmtEs>, ts: nat, prog: nat)
    requires EsSlots(es) <= |list|
    ensures EsState(p0, p0, list, d, es, 0, ts, prog)
  {
  }

  lemma EsSize(p0: seq<Pid>, p1: seq<Pid>, list: seq<nat>, d: ProgData, es: seq<PmtEs>, i: nat, ts: nat, prog: nat)
    requires EsSlots(es) <= |list| && EsState(p0, p1, list, d, es, i, ts, prog)
    ensures |p1| == |p0|
  {
  }

  /** The shapes dealt before elementary stream i use other slots than it does. */
  lemma {:induction false} EarlierApart(list: seq<nat>, es: seq<PmtEs>, i: nat)
    requires i < |es| && EsSlots(es) <= |list| && NoDup(list)
    ensures EsSlots(es[..i]) <= EsSlots(es[..i + 1]) <= |list|
    ensures Elements(list[..EsSlots(es[..i + 1])]) == Elements(list[..EsSlots(es[..i])]) + Slots(EsShape(list, es, i))
    ensures forall j :: 0 <= j < i ==> Slots(EsShape(list, es, j)) !! Slots(EsShape(list, es, i))
    ensures Proper(EsShape(list, es, i)) && Slots(EsShape(list, es, i)) <= Elements(list)
  {
    hide Slots, NoDup, Proper, Elements, EsShape, EsSlots;
    ShapeAt(list, es, i);
    EsShapesDealt(list, es, i);
    DealtOne(list, EsSlots(es[..i]), |es[i].cas|);
    SplitElements(list, EsSlots(es[..i + 1]));
    var before := EsShapes(list, es, i);
    forall j | 0 <= j < i ensures Slots(EsShape(list, es, j)) !! Slots(EsShape(list, es, i)) {
      SlotsOfHas(before, j);
      assert before[j] == EsShape(list, es, j);
    }
  }

  lemma {:induction false} EsStep(p0: seq<Pid>, p1: seq<Pid>, list: seq<nat>, d: ProgData, es: seq<PmtEs>, i: nat,
                                  ts: nat, prog: nat, p2: seq<Pid>)
    requires i < |es| && EsSlots(es) <= |list| && NoDup(list)
    requires EsState(p0, p1, list, d, es, i, ts, prog)
    requires EsEntered(p1, p2, EsShape(list, es, i), EsTree(d.slotId, d.channel, es[i]), ts, prog,
                       Follower(PidSlots(EsShapes(list, es, |es|)), i))
    ensures EsState(p0, p2, list, d, es, i + 1, ts, prog)
  {
    hide PidAt, Slots, NoDup, Elements, EsShape, EsShapes, EsSlots, EsTree, PidSlots, Follower;
    EarlierApart(list, es, i);
    forall j | 0 <= j < i
      ensures var s := EsShape(list, es, j);
              && PidAt(p2, s, EsTree(d.slotId, d.channel, es[j]), ts, prog, s.slot)
              && s.slot < |p2| && p2[s.slot].next == Follower(PidSlots(EsShapes(list, es, |es|)), j)
    {
      OneKept(p1, p2, EsShape(list, es, j), EsTree(d.slotId, d.channel, es[j]), ts, prog, EsShape(list, es, i));
    }
  }

  lemma OneKept(p1: seq<Pid>, p2: seq<Pid>, s: PidShape, t: PidTree, ts: nat, prog: nat, other: PidShape)
    requires PidAt(p1, s, t, ts, prog, s.slot) && |p1| == |p2|
    requires forall k :: 0 <= k < |p1| && k !in Slots(other) ==> p2[k] == p1[k]
    requires Slots(s) !! Slots(other)
    ensures PidAt(p2, s, t, ts, prog, s.slot) && s.slot < |p1| && p2[s.slot] == p1[s.slot]
  {
    assert s.slot in Slots(s);
    forall j | 0 <= j < |s.ecms| ensures s.ecms[j] < |p1| && p2[s.ecms[j]] == p1[s.ecms[j]] {
      assert s.ecms[j] in Slots(s);
      assert LeafAt(p1, s.ecms[j], t.ecms[j], ts, prog, s.slot);
    }
    PidAtStable(p1, p2, s, t, ts, prog, s.slot);
  }

  /** The loop over the elementary streams; returns how many slots of the list it used. */
  method EnterAllEs(info: TsInfo, prog: nat, list: seq<nat>, es: seq<PmtEs>) returns (used: nat)
    requires info.Valid() && prog < |info.progs|
    requires EsSlots(es) <= |list| && NoDup(list) && forall k :: k in Elements(list) ==> k < |info.pids|
    modifies info`progs, info`pids
    ensures info.Valid() && used == EsSlots(es)
    ensures info.progs == old(info.progs)[prog := WithEs(old(info.progs)[prog], es, list)]
    ensures var b := old(info.progs)[prog].body;
            EsState(old(info.pids), info.pids, list, b.data, es, |es|, b.ts, prog)
  {
    hide EsState, EsEntered, Slots, Elements, NoDup, Proper, EsSlots;
    ghost var b, p0 := info.progs[prog].body, info.pids;
    EsStart(p0, list, b.data, es, b.ts, prog);
    used := 0;
    NoSlots(es);
    var i := 0;
    while i < |es|
      invariant 0 <= i <= |es| && info.Valid() && used == EsSlots(es[..i]) && |info.pids| == |p0|
      invariant info.progs == old(info.progs)[prog := if i > 0 then WithEs(old(info.progs)[prog], es, list)
        else old(info.progs)[prog]]
      invariant EsState(p0, info.pids, list, b.data, es, i, b.ts, prog)
    {
      Cursor(list, es, i);
      EarlierApart(list, es, i);
      ghost var p1 := info.pids;
      var slot := list[used];
      if i == 0 {
        info.progs := info.progs[prog := WithEs(info.progs[prog], es, list)];
      }
      var n := |es[i].cas|;
      var ecms := list[used + 1..used + 1 + n];
      used := used + 1 + n;
      EnterEs(info, prog, slot, ecms, es[i], if i + 1 == |es| then INDEX_INVALID else list[used]);
      EsStep(p0, p1, list, b.data, es, i, b.ts, prog, info.pids);
      i := i + 1;
      EsSize(p0, info.pids, list, b.data, es, i, b.ts, prog);
    }
  }

  function WithEs(p: Prog, es: seq<PmtEs>, list: seq<nat>): Prog
    requires EsSlots(es) <= |list|
  {
    p.(body := p.body.(esHead := if es == [] then p.body.esHead else list[0]))
  }

  lemma NoSlots(es: seq<PmtEs>)
    ensures EsSlots(es[..0]) == 0 && es[..|es|] == es
  {
  }

  /** Which slot elementary stream i leads to. */
  lemma {:induction false} Cursor(list: seq<nat>, es: seq<PmtEs>, i: nat)
    requires i < |es| && EsSlots(es) <= |list|
    ensures EsSlots(es[..i + 1]) == EsSlots(es[..i]) + 1 + |es[i].cas| <= |list|
    ensures i == 0 ==> EsSlots(es[..i]) == 0
    ensures i + 1 < |es| ==> EsSlots(es[..i + 1]) < |list|
    ensures var used := EsSlots(es[..i]); EsShape(list, es, i) == PidShape(list[used],
                                                                           list[used + 1..used + 1 + |es[i].cas|])
    ensures Follower(PidSlots(EsShapes(list, es, |es|)), i)
            == if i + 1 == |es| then INDEX_INVALID else list[EsSlots(es[..i + 1])]
  {
    hide EsSlots, EsShape;
    NoSlots(es);
    ShapeAt(list, es, i);
    if i + 1 < |es| {
      ShapeAt(list, es, i + 1);
    }
  }

  // ---------------------------------------------------------------- the whole program

  function LeafShapes(slots: seq<nat>): (r: seq<PidShape>)
    ensures |r| == |slots|
  {
    seq(|slots|, i requires 0 <= i < |slots| => PidShape(slots[i], []))
  }

  lemma {:induction false} LeafShapesDealt(slots: seq<nat>)
    requires NoDup(slots)
    ensures Apart(LeafShapes(slots)) && SlotsOf(LeafShapes(slots)) == Elements(slots)
  {
    hide SlotsOf, Apart, NoDup, Elements, Slots, Proper;
    if slots == [] {
      NoLeafShapes();
    } else {
      var init, last := slots[..|slots| - 1], slots[|slots| - 1];
      assert slots == init + [last];
      OneLeaf(init, last);
      LeafShapesDealt(init);
      assert LeafShapes(slots) == LeafShapes(init) + [PidShape(last, [])];
      SlotsSnoc(LeafShapes(init), PidShape(last, []));
    }
  }

  lemma NoLeafShapes()
    ensures LeafShapes([]) == [] && Apart([]) && SlotsOf([]) == {} == Elements([])
  {
  }

  lemma {:induction false} OneLeaf(init: seq<nat>, last: nat)
    requires NoDup(init + [last])
    ensures NoDup(init) && Proper(PidShape(last, [])) && Elements(init) !! Slots(PidShape(last, []))
    ensures Elements(init + [last]) == Elements(init) + Slots(PidShape(last, []))
  {
    SplitElements(init + [last], |init|);
    assert (init + [last])[..|init|] == init && (init + [last])[|init|..] == [last];
  }

  lemma {:induction false} LeafChainAt(p0: seq<Pid>, p1: seq<Pid>, head: nat, slots: seq<nat>, o: Owner, kind: PidKind,
                                       cas: seq<Ca>)
    requires |slots| == |cas| && |p0| <= INDEX_INVALID && kind != EsPid && o.parent == INDEX_INVALID
    requires AppendState(p0, p1, INDEX_INVALID, slots, CaPids(o, kind, slots, cas), |slots|)
    requires slots != [] ==> head == slots[0]
    ensures PidsAt(p1, head, LeafShapes(slots), CaTrees(o.slotId, o.channel, kind, cas), o.ts, o.prog, false)
  {
    hide AppendState;
    EcmsInPlace(p0, p1, slots, o, kind, cas);
    LeafKinds(p0, p1, slots, o, kind, cas);
    assert PidSlots(LeafShapes(slots)) == slots;
  }

  lemma {:induction false} LeafKinds(p0: seq<Pid>, p1: seq<Pid>, slots: seq<nat>, o: Owner, kind: PidKind, cas: seq<Ca>)
    requires |slots| == |cas|
    requires AppendState(p0, p1, INDEX_INVALID, slots, CaPids(o, kind, slots, cas), |slots|)
    ensures forall j :: 0 <= j < |slots| ==> slots[j] < |p1| && p1[slots[j]].body.data.kind == kind
  {
  }

  /** Every slot of a chain in place is in use. */
  lemma {:induction false} ChainInUse(pids: seq<Pid>, ss: seq<PidShape>, trees: seq<PidTree>, ts: nat, prog: nat,
                                      orphan: bool)
    requires |ss| == |trees|
    requires forall j :: 0 <= j < |ss| ==> PidAt(pids, ss[j], trees[j], ts, prog, EcmParent(orphan, ss[j].slot))
    ensures forall e :: e in SlotsOf(ss) ==> e < |pids| && pids[e].valid
  {
    hide PidAt;
    if ss != [] {
      ChainInUse(pids, ss[..|ss| - 1], trees[..|ss| - 1], ts, prog, orphan);
      var s := ss[|ss| - 1];
      PidInUse(pids, s, trees[|ss| - 1], ts, prog, EcmParent(orphan, s.slot));
    }
  }

  lemma PidInUse(pids: seq<Pid>, s: PidShape, t: PidTree, ts: nat, prog: nat, ecmParent: nat)
    requires PidAt(pids, s, t, ts, prog, ecmParent)
    ensures forall e :: e in Slots(s) ==> e < |pids| && pids[e].valid
  {
  }

  lemma {:induction false} EsChainAt(p0: seq<Pid>, p1: seq<Pid>, head: nat, list: seq<nat>, d: ProgData, es: seq<PmtEs>,
                                     ts: nat, prog: nat)
    requires EsSlots(es) <= |list| && EsState(p0, p1, list, d, es, |es|, ts, prog)
    requires es != [] ==> head == list[0]
    ensures PidsAt(p1, head, EsShapes(list, es, |es|), EsTrees(d.slotId, d.channel, es), ts, prog, false)
  {
    hide PidAt, EsSlots, EsShape, EsTree, Elements;
    var ss := EsShapes(list, es, |es|);
    if es != [] {
      Cursor(list, es, 0);
    }
    forall j | 0 <= j < |es| ensures ss[j].slot < |p1| {
      SlotInPool(p1, ss[j], EsTree(d.slotId, d.channel, es[j]), ts, prog, ss[j].slot);
    }
  }

  lemma SlotInPool(pids: seq<Pid>, s: PidShape, t: PidTree, ts: nat, prog: nat, ecmParent: nat)
    requires PidAt(pids, s, t, ts, prog, ecmParent)
    ensures s.slot < |pids|
  {
  }

  /** The slots of a program, dealt from one list. */
  function PmtShape(prog: nat, list: seq<nat>, pmt: Pmt): ProgShape
    requires |list| == PmtSlots(pmt)
  {
    var k := if HasPcr(pmt) then 1 else 0;
    var rest := list[k..];
    ProgShape(prog, LeafShapes(list[..k]), EsShapes(rest, pmt.es, |pmt.es|),
              if EsSlots(pmt.es) <= |rest| then LeafShapes(rest[EsSlots(pmt.es)..]) else [])
  }

  lemma {:induction false} PmtShapeDealt(prog: nat, list: seq<nat>, pmt: Pmt)
    requires |list| == PmtSlots(pmt) && NoDup(list)
    ensures var k := if HasPcr(pmt) then 1 else 0;
            var n := EsSlots(pmt.es);
            && k + n + |pmt.cas| == |list|
            && var s := PmtShape(prog, list, pmt);
            && s.ps == LeafShapes(list[k..][n..])
            && SlotsOf(s.pcr) == Elements(list[..k]) && SlotsOf(s.es) == Elements(list[k..][..n])
            && SlotsOf(s.ps) == Elements(list[k..][n..])
            && ApartProg(s) && UsedByProg(s) == Elements(list)
  {
    hide NoDup, Elements, EsShape, EsSlots, EcmsIn, SlotsOf, Apart, LeafShapes, EsShapes;
    EsSlotsSplit(pmt.es);
    var k := if HasPcr(pmt) then 1 else 0;
    var n := EsSlots(pmt.es);
    SplitElements(list, k);
    SplitElements(list[k..], n);
    assert pmt.es[..|pmt.es|] == pmt.es;
    LeafShapesDealt(list[..k]);
    EsShapesDealt(list[k..], pmt.es, |pmt.es|);
    LeafShapesDealt(list[k..][n..]);
  }

  /** The owner of the PIDs of a program. */
  function ProgOwner(progs: seq<Prog>, prog: nat): Owner
    requires prog < |progs|
  {
    var b := progs[prog].body;
    Owner(b.ts, prog, INDEX_INVALID, b.data.slotId, b.data.channel)
  }

  /** The pool phases of SetPmt: grown, with the PCR, with the elementary streams, with the ECMs of the program. */
  ghost predicate PmtPhases(g: seq<Pid>, p1: seq<Pid>, p2: seq<Pid>, p3: seq<Pid>, list: seq<nat>, pmt: Pmt, o: Owner,
                            d: ProgData) {
    && |list| == PmtSlots(pmt) && d.slotId == o.slotId && d.channel == o.channel && o.parent == INDEX_INVALID
    && var k, n := if HasPcr(pmt) then 1 else 0, EsSlots(pmt.es);
    && k + n + |pmt.cas| == |list|
    && AppendState(g, p1, INDEX_INVALID, list[..k], CaPids(o, PcrPid, list[..k], PcrEntries(pmt)), k)
    && EsState(p1, p2, list[k..], d, pmt.es, |pmt.es|, o.ts, o.prog)
    && AppendState(p2, p3, INDEX_INVALID, list[k..][n..], CaPids(o, PsEcmPid, list[k..][n..], pmt.cas), |pmt.cas|)
  }

  /** The three parts are in place once all are entered, and only the listed slots changed. */
  lemma {:induction false} PhasesDone(g: seq<Pid>, p1: seq<Pid>, p2: seq<Pid>, p3: seq<Pid>, list: seq<nat>, pmt: Pmt,
                                      o: Owner, d: ProgData, es: nat, ps: nat)
    requires PmtPhases(g, p1, p2, p3, list, pmt, o, d) && NoDup(list) && |g| <= INDEX_INVALID
    requires pmt.es != [] ==> es == list[if HasPcr(pmt) then 1 else 0]
    requires pmt.cas != [] ==> ps == list[|list| - |pmt.cas|]
    ensures var s, t := PmtShape(o.prog, list, pmt), PmtTree(d, pmt);
            && PidsAt(p3, if HasPcr(pmt) then list[0] else INDEX_INVALID, s.pcr, t.pcr, o.ts, o.prog, false)
            && PidsAt(p3, es, s.es, t.es, o.ts, o.prog, false)
            && PidsAt(p3, ps, s.ps, t.ps, o.ts, o.prog, false)
    ensures |p3| == |g| && forall k :: 0 <= k < |g| && k !in Elements(list) ==> p3[k] == g[k]
    ensures forall e :: e in Elements(list) ==> e < |p3| && p3[e].valid
  {
    hide NoDup, Elements, EsShape, EsSlots, EcmsIn, SlotsOf, Apart, LeafShapes, EsShapes, AppendState, EsState, PidsAt,
      CaPids, CaTrees, EsTrees;
    var k, n := if HasPcr(pmt) then 1 else 0, EsSlots(pmt.es);
    PmtShapeDealt(o.prog, list, pmt);
    var s, t := PmtShape(o.prog, list, pmt), PmtTree(d, pmt);
    var pcr := if HasPcr(pmt) then list[0] else INDEX_INVALID;
    AppendOnly(g, p1, list[..k], CaPids(o, PcrPid, list[..k], PcrEntries(pmt)));
    EsOnly(p1, p2, list[k..], d, pmt.es, o.ts, o.prog);
    assert pmt.cas != [] ==> list[k..][n..][0] == list[k + n];
    LeafChainAt(g, p1, pcr, list[..k], o, PcrPid, PcrEntries(pmt));
    EsChainAt(p1, p2, es, list[k..], d, pmt.es, o.ts, o.prog);
    LeafChainAt(p2, p3, ps, list[k..][n..], o, PsEcmPid, pmt.cas);
    AppendOnly(p2, p3, list[k..][n..], CaPids(o, PsEcmPid, list[k..][n..], pmt.cas));
    PartInUse(p1, p3, pcr, s.pcr, t.pcr, o);
    PartInUse(p2, p3, es, s.es, t.es, o);
    PartInUse(p3, p3, ps, s.ps, t.ps, o);
  }

  lemma AppendOnly(p0: seq<Pid>, p1: seq<Pid>, list: seq<nat>, entries: seq<Pid>)
    requires |p0| <= INDEX_INVALID && AppendState(p0, p1, INDEX_INVALID, list, entries, |list|)
    ensures |p1| == |p0| && forall k :: 0 <= k < |p0| && k !in Elements(list) ==> p1[k] == p0[k]
  {
  }

  lemma EsOnly(p0: seq<Pid>, p1: seq<Pid>, list: seq<nat>, d: ProgData, es: seq<PmtEs>, ts: nat, prog: nat)
    requires EsSlots(es) <= |list| && EsState(p0, p1, list, d, es, |es|, ts, prog)
    ensures |p1| == |p0| && forall k :: 0 <= k < |p0| && k !in Elements(list[..EsSlots(es)]) ==> p1[k] == p0[k]
  {
    hide EsSlots, PidAt, EsShape, Elements;
    assert es[..|es|] == es;
  }

  /** A part entered earlier stays in place while its slots are left alone. */
  lemma {:induction false} PartInUse(p: seq<Pid>, p3: seq<Pid>, head: nat, ss: seq<PidShape>, trees: seq<PidTree>,
                                     o: Owner)
    requires PidsAt(p, head, ss, trees, o.ts, o.prog, false)
    requires |p| == |p3| && forall e: nat :: e in SlotsOf(ss) && e < |p| ==> p3[e] == p[e]
    ensures PidsAt(p3, head, ss, trees, o.ts, o.prog, false)
    ensures forall e :: e in SlotsOf(ss) ==> e < |p3| && p3[e].valid
  {
    hide PidAt, SlotsOf;
    ChainInUse(p, ss, trees, o.ts, o.prog, false);
    PidsAtStable(p, p3, head, ss, trees, o.ts, o.prog, false);
  }

  /** Adds up the slots that a PMT needs. */
  method CountSlots(pmt: Pmt) returns (total: nat)
    ensures total == PmtSlots(pmt)
  {
    total := if pmt.pcrPid < NULL_PID then 1 else 0;
    total := total + |pmt.es| + |pmt.cas|;
    var i := 0;
    while i < |pmt.es|
      invariant 0 <= i <= |pmt.es|
      invariant total == (if HasPcr(pmt) then 1 else 0) + |pmt.es| + |pmt.cas| + EcmsIn(pmt.es[..i])
    {
      assert pmt.es[..i + 1][..i] == pmt.es[..i];
      total := total + |pmt.es[i].cas|;
      i := i + 1;
    }
    assert pmt.es[..|pmt.es|] == pmt.es;
  }

  function WithPcr(p: Prog, index: nat, pid: nat): Prog {
    p.(body := p.body.(pcr := index, data := p.body.data.(pcrPid := pid, newPcrPid := pid)))
  }

  function WithVersion(p: Prog, version: nat): Prog {
    p.(body := p.body.(data := p.body.data.(version := version)))
  }

  /** Enters the PCR, if the PMT names one; returns how many slots of the list it used. */
  method EnterPcr(info: TsInfo, prog: nat, list: seq<nat>, pmt: Pmt) returns (used: nat)
    requires info.Valid() && prog < |info.progs|
    requires |list| == PmtSlots(pmt) && forall k :: k in Elements(list) ==> k < |info.pids|
    modifies info`progs, info`pids
    ensures info.Valid() && |info.pids| == |old(info.pids)| && used == if HasPcr(pmt) then 1 else 0
    ensures info.progs == old(info.progs)[prog := WithPcr(old(info.progs)[prog],
              if HasPcr(pmt) then list[0] else INDEX_INVALID, if HasPcr(pmt) then pmt.pcrPid else NULL_PID)]
    ensures AppendState(old(info.pids), info.pids, INDEX_INVALID, list[..used],
                        CaPids(ProgOwner(old(info.progs), prog), PcrPid, list[..used], PcrEntries(pmt)), used)
  {
    used := 0;
    if pmt.pcrPid < NULL_PID {
      var slot := list[used];
      used := used + 1;
      assert list[..1] == [slot] && slot in Elements(list);
      info.pids := info.pids[slot := WithPid(InitPid(info.streams, info.progs, info.pids, PcrPid, prog, slot),
                                             pmt.pcrPid, 0)];
      info.progs := info.progs[prog := WithPcr(info.progs[prog], slot, pmt.pcrPid)];
    } else {
      info.progs := info.progs[prog := WithPcr(info.progs[prog], INDEX_INVALID, NULL_PID)];
    }
  }

  /**
    What a successful SetPmt has done. Exactly the listed slots were taken, each once, all of them
    free before; read from the program, they are the PMT: its PCR, its elementary streams in table
    order, each with its ECMs in table order, and its own ECMs.
   */
  ghost predicate PmtEntered(g0: seq<Prog>, g1: seq<Prog>, p0: seq<Pid>, p1: seq<Pid>, prog: nat, list: seq<nat>,
                             pmt: Pmt) {
    && |list| == PmtSlots(pmt) && NoDup(list)
    && prog < |g0| == |g1| && g1 == g0[prog := g1[prog]]
    && g1[prog].(body := g0[prog].body) == g0[prog]
    && var s, b := PmtShape(prog, list, pmt), g0[prog].body;
    && UsedByProg(s) == Elements(list) && ApartProg(s) && NewlyTaken(p0, p1, Elements(list))
    && g1[prog].body.ts == b.ts && PcrEntered(g1[prog], p1, list, pmt)
    && (g0[prog].valid && g0[prog].index == prog ==> ProgAt(g1, p1, s, PmtTree(b.data, pmt), b.ts, false))
  }

  /**
    The PCR in the pools: the program leads to it exactly if the PMT names a PID for it, and of the
    slots taken exactly that one is of its kind.
   */
  ghost predicate PcrEntered(p: Prog, pids: seq<Pid>, list: seq<nat>, pmt: Pmt) {
    && |list| == (if pmt.pcrPid < 0x1FFF then 1 else 0) + |pmt.es| + |pmt.cas| + EcmsIn(pmt.es)
    && p.body.data.pcrPid == p.body.data.newPcrPid == (if pmt.pcrPid < 0x1FFF then pmt.pcrPid else 0x1FFF)
    && (pmt.pcrPid >= 0x1FFF <==> p.body.pcr == INDEX_INVALID)
    && (pmt.pcrPid < 0x1FFF ==>
          p.body.pcr in Elements(list) && p.body.pcr < |pids| && pids[p.body.pcr].body.data.pid == pmt.pcrPid)
    && forall k :: k in Elements(list) ==> k < |pids| && (pids[k].body.data.kind == PcrPid <==> k == p.body.pcr)
  }

  ghost predicate NoPcr(ts: seq<PidTree>) {
    forall j :: 0 <= j < |ts| ==>
      ts[j].PidNode? && ts[j].data.kind != PcrPid
      && forall i :: 0 <= i < |ts[j].ecms| ==> ts[j].ecms[i].PidNode? && ts[j].ecms[i].data.kind != PcrPid
  }

  lemma {:induction false} KindsInside(pids: seq<Pid>, ss: seq<PidShape>, trees: seq<PidTree>, ts: nat, prog: nat)
    requires |ss| == |trees| && NoPcr(trees)
    requires forall j :: 0 <= j < |ss| ==> PidAt(pids, ss[j], trees[j], ts, prog, EcmParent(false, ss[j].slot))
    ensures forall e :: e in SlotsOf(ss) ==> e < |pids| && pids[e].body.data.kind != PcrPid
  {
    if ss != [] {
      KindsInside(pids, ss[..|ss| - 1], trees[..|trees| - 1], ts, prog);
      KindsOfOne(pids, ss[|ss| - 1], trees[|ss| - 1], ts, prog);
    }
  }

  lemma {:induction false} KindsOfOne(pids: seq<Pid>, s: PidShape, t: PidTree, ts: nat, prog: nat)
    requires PidAt(pids, s, t, ts, prog, s.slot) && t.data.kind != PcrPid
    requires forall i :: 0 <= i < |t.ecms| ==> t.ecms[i].PidNode? && t.ecms[i].data.kind != PcrPid
    ensures forall e :: e in Slots(s) ==> e < |pids| && pids[e].body.data.kind != PcrPid
  {
    forall e | e in s.ecms ensures e < |pids| && pids[e].body.data.kind != PcrPid {
      var i :| 0 <= i < |s.ecms| && s.ecms[i] == e;
      assert LeafAt(pids, s.ecms[i], t.ecms[i], ts, prog, s.slot);
    }
  }

  lemma {:induction false} TreesHaveNoPcr(d: ProgData, pmt: Pmt)
    ensures NoPcr(EsTrees(d.slotId, d.channel, pmt.es)) && NoPcr(CaTrees(d.slotId, d.channel, PsEcmPid, pmt.cas))
  {
  }

  lemma {:induction false} PcrIsEntered(p0: Prog, p: Prog, p3: seq<Pid>, prog: nat, list: seq<nat>, pmt: Pmt,
                                        d: ProgData)
    requires PmtRecorded(p0, p, list, pmt) && NoDup(list) && |p3| <= INDEX_INVALID
    requires var s, t := PmtShape(prog, list, pmt), PmtTree(d, pmt);
             && UsedByProg(s) == Elements(list) && ApartProg(s)
             && PidsAt(p3, if HasPcr(pmt) then list[0] else INDEX_INVALID, s.pcr, t.pcr, p.body.ts, prog, false)
             && PidsAt(p3, p.body.esHead, s.es, t.es, p.body.ts, prog, false)
             && PidsAt(p3, p.body.psHead, s.ps, t.ps, p.body.ts, prog, false)
    ensures PcrEntered(p, p3, list, pmt)
  {
    hide PidAt, Linked, SlotsOf, Apart, EsShapes, NoPcr, EsTrees;
    var s, t := PmtShape(prog, list, pmt), PmtTree(d, pmt);
    TreesHaveNoPcr(d, pmt);
    KindsInside(p3, s.es, t.es, p.body.ts, prog);
    KindsInside(p3, s.ps, t.ps, p.body.ts, prog);
    PcrSlots(list, pmt, s.pcr);
    if HasPcr(pmt) {
      PcrSlotIs(p3, s.pcr[0], t.pcr[0], p.body.ts, prog);
    }
  }

  lemma PcrSlots(list: seq<nat>, pmt: Pmt, ss: seq<PidShape>)
    requires |list| == PmtSlots(pmt) && ss == LeafShapes(list[..if HasPcr(pmt) then 1 else 0])
    ensures if HasPcr(pmt) then |ss| == 1 && ss[0].slot == list[0] && SlotsOf(ss) == {list[0]}
            else ss == [] && SlotsOf(ss) == {}
  {
    if HasPcr(pmt) {
      assert ss == [PidShape(list[0], [])] && ss[..0] == [];
      assert SlotsOf(ss) == SlotsOf([]) + Slots(ss[0]);
    }
  }

  lemma PcrSlotIs(pids: seq<Pid>, s: PidShape, t: PidTree, ts: nat, prog: nat)
    requires PidAt(pids, s, t, ts, prog, s.slot)
    ensures s.slot < |pids| && pids[s.slot].body.data == t.data
  {
  }

  /** The record of the program after SetPmt. */
  ghost predicate PmtRecorded(p0: Prog, p1: Prog, list: seq<nat>, pmt: Pmt) {
    && |list| == PmtSlots(pmt)
    && p1.(body := p0.body) == p0 && p1.body.ts == p0.body.ts
    && p1.body.data == PmtData(p0.body.data, pmt)
    && p1.body.pcr == (if HasPcr(pmt) then list[0] else INDEX_INVALID)
    && p1.body.esNum == |pmt.es| && (pmt.es != [] ==> p1.body.esHead == list[if HasPcr(pmt) then 1 else 0])
    && p1.body.psNum == |pmt.cas| && (pmt.cas != [] ==> p1.body.psHead == list[|list| - |pmt.cas|])
  }

  lemma {:induction false} PmtDone(g0: seq<Prog>, g1: seq<Prog>, p0: seq<Pid>, g: seq<Pid>, p1: seq<Pid>, p2: seq<Pid>,
                                   p3: seq<Pid>, prog: nat, list: seq<nat>, pmt: Pmt, d: ProgData)
    requires prog < |g0| == |g1| && g1 == g0[prog := g1[prog]] && PmtRecorded(g0[prog], g1[prog], list, pmt)
    requires Frame(p0, g, {}) && |g| <= INDEX_INVALID && FirstFree(g, PmtSlots(pmt), list)
    requires PmtPhases(g, p1, p2, p3, list, pmt, ProgOwner(g0, prog), d)
    requires d.slotId == g0[prog].body.data.slotId && d.channel == g0[prog].body.data.channel
    ensures PmtEntered(g0, g1, p0, p3, prog, list, pmt)
    ensures Clean(g) ==> Clean(p3)
  {
    hide PidsAt, PmtPhases, ProgAt, ApartProg, UsedByProg, PmtShape, PmtSlots, NewlyTaken, CaTrees, EsTrees, Clean,
      PcrEntered;
    FirstFreeProps(g, PmtSlots(pmt), list);
    PmtShapeDealt(prog, list, pmt);
    PhasesDone(g, p1, p2, p3, list, pmt, ProgOwner(g0, prog), d, g1[prog].body.esHead, g1[prog].body.psHead);
    PmtTaken(p0, g, p3, list);
    PcrIsEntered(g0[prog], g1[prog], p3, prog, list, pmt, d);
    if g0[prog].valid && g0[prog].index == prog {
      var s, t, b := PmtShape(prog, list, pmt), PmtTree(d, pmt), g1[prog].body;
      assert PidsAt(p3, b.esHead, s.es, t.es, b.ts, prog, false);
      PmtInPlace(g0, g1, p3, prog, list, pmt, d);
    }
  }

  lemma {:induction false} PmtTaken(p0: seq<Pid>, g: seq<Pid>, p3: seq<Pid>, list: seq<nat>)
    requires Frame(p0, g, {}) && |p3| == |g| && forall k :: 0 <= k < |g| && k !in Elements(list) ==> p3[k] == g[k]
    requires forall e :: e in Elements(list) ==> e < |g| && !g[e].valid && p3[e].valid
    ensures NewlyTaken(p0, p3, Elements(list)) && (Clean(g) ==> Clean(p3))
  {
  }

  lemma {:induction false} PmtInPlace(g0: seq<Prog>, g1: seq<Prog>, p3: seq<Pid>, prog: nat, list: seq<nat>, pmt: Pmt,
                                      d: ProgData)
    requires prog < |g0| == |g1| && PmtRecorded(g0[prog], g1[prog], list, pmt) && g0[prog].valid
    requires g0[prog].index == prog
    requires d.slotId == g0[prog].body.data.slotId && d.channel == g0[prog].body.data.channel
    requires var s, t, b := PmtShape(prog, list, pmt), PmtTree(d, pmt), g1[prog].body;
             && PidsAt(p3, if HasPcr(pmt) then list[0] else INDEX_INVALID, s.pcr, t.pcr, b.ts, prog, false)
             && PidsAt(p3, b.esHead, s.es, t.es, b.ts, prog, false)
             && PidsAt(p3, b.psHead, s.ps, t.ps, b.ts, prog, false)
             && |p3| <= INDEX_INVALID
    ensures ProgAt(g1, p3, PmtShape(prog, list, pmt), PmtTree(g0[prog].body.data, pmt), g0[prog].body.ts, false)
  {
    hide PidAt, Linked, EsTrees, EsTree, CaTrees, EsShape, EsSlots;
    EsSlotsSplit(pmt.es);
    var s, t := PmtShape(prog, list, pmt), PmtTree(d, pmt);
    if HasPcr(pmt) {
      SlotInPool(p3, s.pcr[0], t.pcr[0], g1[prog].body.ts, prog, s.pcr[0].slot);
      assert s.pcr[0].slot == list[0];
    }
  }

  function WithPs(p: Prog, num: nat, head: nat): Prog {
    p.(body := p.body.(psNum := num, psHead := head))
  }

  /** Enters the ECMs of the program itself. */
  method EnterPs(info: TsInfo, prog: nat, slots: seq<nat>, cas: seq<Ca>)
    requires info.Valid() && prog < |info.progs| && |slots| == |cas|
    requires NoDup(slots) && forall k :: k in Elements(slots) ==> k < |info.pids|
    modifies info`progs, info`pids
    ensures info.Valid()
    ensures var p := old(info.progs)[prog];
            info.progs == old(info.progs)[prog := WithPs(p, |cas|, if cas != [] then slots[0] else p.body.psHead)]
    ensures AppendState(old(info.pids), info.pids, INDEX_INVALID, slots,
                        CaPids(ProgOwner(old(info.progs), prog), PsEcmPid, slots, cas), |slots|)
  {
    hide AppendState;
    var p := info.progs[prog];
    info.progs := info.progs[prog := WithPs(p, |cas|, if cas != [] then slots[0] else p.body.psHead)];
    EnterEcms(info, PsEcmPid, prog, slots, cas);
  }

  /** Enters the elementary streams and their number. */
  method EnterStreams(info: TsInfo, prog: nat, list: seq<nat>, es: seq<PmtEs>) returns (used: nat)
    requires info.Valid() && prog < |info.progs| && EsSlots(es) <= |list|
    requires NoDup(list) && forall k :: k in Elements(list) ==> k < |info.pids|
    modifies info`progs, info`pids
    ensures info.Valid() && |info.pids| == |old(info.pids)| && used == EsSlots(es)
    ensures var p := old(info.progs)[prog];
            info.progs == old(info.progs)[prog := WithEs(p.(body := p.body.(esNum := |es|)), es, list)]
    ensures var b := old(info.progs)[prog].body;
            EsState(old(info.pids), info.pids, list, b.data, es, |es|, b.ts, prog)
  {
    hide EsState, EsSlots;
    ghost var b, p1 := info.progs[prog].body, info.pids;
    info.progs := info.progs[prog := info.progs[prog].(body := info.progs[prog].body.(esNum := |es|))];
    used := EnterAllEs(info, prog, list, es);
    EsSize(p1, info.pids, list, b.data, es, |es|, b.ts, prog);
  }

  lemma {:induction false} Parts(list: seq<nat>, k: nat, n: nat, m: nat)
    requires k + n + m == |list| && NoDup(list)
    ensures Elements(list[k..]) <= Elements(list) && NoDup(list[k..])
    ensures Elements(list[k..][n..]) <= Elements(list) && NoDup(list[k..][n..]) && list[k..][n..] == list[k + n..]
    ensures |list[k + n..]| == m
  {
    SplitElements(list, k);
    SplitElements(list[k..], n);
  }

  /** The part of SetPmt that follows the allocation; p1 and p2 are the pools between its steps. */
  method EnterPids(info: TsInfo, prog: nat, list: seq<nat>, pmt: Pmt)
    returns (ghost p1: seq<Pid>, ghost p2: seq<Pid>, ghost d: ProgData)
    requires info.Valid() && prog < |info.progs| && |list| == PmtSlots(pmt) && NoDup(list)
    requires forall k :: k in Elements(list) ==> k < |info.pids|
    modifies info`progs, info`pids
    ensures info.Valid() && |info.progs| == |old(info.progs)| && |info.pids| == |old(info.pids)|
    ensures info.progs == old(info.progs)[prog := info.progs[prog]]
    ensures old(info.progs)[prog].body.data.version == pmt.version ==>
              PmtRecorded(old(info.progs)[prog], info.progs[prog], list, pmt)
    ensures PmtPhases(old(info.pids), p1, p2, info.pids, list, pmt, ProgOwner(old(info.progs), prog), d)
    ensures d.slotId == old(info.progs)[prog].body.data.slotId && d.channel == old(info.progs)[prog].body.data.channel
  {
    hide AppendState, EsState, EsSlots, EcmsIn, NoDup, CaPids, PcrEntries, Elements;
    EsSlotsSplit(pmt.es);
    var used := EnterPcr(info, prog, list, pmt);
    p1 := info.pids;
    ghost var k := used;
    Parts(list, used, EsSlots(pmt.es), |pmt.cas|);
    d := info.progs[prog].body.data;
    var n := EnterStreams(info, prog, list[used..], pmt.es);
    p2 := info.pids;
    used := used + n;
    ghost var o := ProgOwner(info.progs, prog);
    EnterPs(info, prog, list[used..], pmt.cas);
    AppendSize(p2, info.pids, INDEX_INVALID, list[used..], CaPids(o, PsEcmPid, list[used..], pmt.cas),
               |list[used..]|);
    info.progs := info.progs[prog := info.progs[prog].(body := info.progs[prog].body.(
                    data := info.progs[prog].body.data.(progInfo := pmt.info)))];
  }

  /** TSP_SetInputPMTInfo. */
  method SetPmt(info: TsInfo, prog: nat, pmt: Pmt) returns (code: Code, list: seq<nat>)
    requires info.Valid()
    modifies info`progs, info`pids, info`pidBlock
    ensures info.Valid()
    ensures code == Success ==>
              PmtEntered(old(info.progs), info.progs, old(info.pids), info.pids, prog, list, pmt)
    ensures code == Success ==>
              && prog < |old(info.progs)| == |info.progs| && PcrEntered(info.progs[prog], info.pids, list, pmt)
              && NoDup(list) && NewlyTaken(old(info.pids), info.pids, Elements(list))
    ensures code == Success && old(info.progs)[prog].valid && old(info.progs)[prog].index == prog ==>
              var d := old(info.progs)[prog].body.data;
              Describes(ReadProg(info.progs, info.pids, prog), d.slotId, d.channel, pmt)
    ensures code != Success ==>
              && Frame(old(info.pids), info.pids, {})
              && (info.progs == old(info.progs)
                  || (prog < |old(info.progs)|
                       && info.progs == old(info.progs)[prog := WithVersion(old(info.progs)[prog], pmt.version)]))
    ensures (prog < |old(info.progs)| && WithinLimits(pmt) && PmtSlots(pmt) <= MAX_INDEX_LIST
             && PmtSlots(pmt) <= |Free(old(info.pids))|) ==> code == Success
    ensures code == Success <==>
              && prog < |old(info.progs)| && WithinLimits(pmt)
              && Granted(old(info.pids), PmtSlots(pmt), PIDS_PER_GROWTH, info.realloc)
    ensures code == Success ==> |info.pids| == Grown(RoomOf(old(info.pids)), PmtSlots(pmt), PIDS_PER_GROWTH).len
    ensures code == Success && Clean(old(info.pids)) ==> Clean(info.pids)
    ensures code == Success ==> WithinLimits(pmt) && PmtSlots(pmt) <= MAX_INDEX_LIST
  {
    list := [];
    if |info.progs| <= prog {
      return InputParam, list;
    }
    if MAX_ES_NUM_IN_PMT < |pmt.es| || MAX_CASYS_NUM_IN_PMT < |pmt.cas| || MAX_PROGRAM_INFO_LEN < |pmt.info| {
      return InputParam, list;
    }
    hide PmtEntered, NoDup, Clean, PmtRecorded, ProgOwner, WithVersion, FirstFree, PmtSlots, Granted, Grown, PcrEntered,
      NewlyTaken, Describes, ReadProg, MayGrow;
    ghost var g0 := info.progs;
    VersionKept(g0[prog], pmt.version);
    info.progs := info.progs[prog := WithVersion(info.progs[prog], pmt.version)];
    var total := CountSlots(pmt);
    code, list := EnterPmt(info, prog, pmt, total);
    if code == Success {
      Unversioned(g0, info.progs, prog, old(info.pids), info.pids, list, pmt);
      EnteredReads(g0, info.progs, old(info.pids), info.pids, prog, list, pmt);
    }
  }

  lemma {:induction false} EnteredReads(g0: seq<Prog>, g1: seq<Prog>, p0: seq<Pid>, p1: seq<Pid>, prog: nat,
                                        list: seq<nat>, pmt: Pmt)
    requires PmtEntered(g0, g1, p0, p1, prog, list, pmt)
    ensures prog < |g0| == |g1| && PcrEntered(g1[prog], p1, list, pmt)
    ensures NoDup(list) && NewlyTaken(p0, p1, Elements(list))
    ensures g0[prog].valid && g0[prog].index == prog ==>
              var d := g0[prog].body.data; Describes(ReadProg(g1, p1, prog), d.slotId, d.channel, pmt)
  {
    hide ProgAt, NewlyTaken, ApartProg, UsedByProg, NoDup, PmtSlots, Elements, PcrEntered, Describes, PmtTree, ReadProg;
    if g0[prog].valid && g0[prog].index == prog {
      var d := g0[prog].body.data;
      PmtTreeDescribes(d, pmt);
      ProgAtReads(g1, p1, PmtShape(prog, list, pmt), PmtTree(d, pmt), g0[prog].body.ts, false);
    }
  }

  /** The part of SetPmt that follows the checks. */
  method EnterPmt(info: TsInfo, prog: nat, pmt: Pmt, total: nat) returns (code: Code, list: seq<nat>)
    requires info.Valid() && prog < |info.progs| && total == PmtSlots(pmt)
    requires info.progs[prog].body.data.version == pmt.version
    modifies info`progs, info`pids, info`pidBlock
    ensures info.Valid()
    ensures code == Success ==>
              PmtEntered(old(info.progs), info.progs, old(info.pids), info.pids, prog, list, pmt)
    ensures code != Success ==> Frame(old(info.pids), info.pids, {}) && info.progs == old(info.progs)
    ensures total <= MAX_INDEX_LIST && total <= |Free(old(info.pids))| ==> code == Success
    ensures code == Success <==> Granted(old(info.pids), total, PIDS_PER_GROWTH, info.realloc)
    ensures code == Success ==> |info.pids| == Grown(RoomOf(old(info.pids)), total, PIDS_PER_GROWTH).len
    ensures code == Success && Clean(old(info.pids)) ==> Clean(info.pids)
    ensures code == Success ==> total <= MAX_INDEX_LIST
  {
    hide PmtEntered, NoDup, Clean, PmtRecorded, PmtPhases, ProgOwner, FirstFree, PmtSlots, Granted, Grown;
    ghost var g0, p0 := info.progs, info.pids;
    code, list := info.UnusedPids(total);
    if code != Success {
      return;
    }
    ghost var g := info.pids;
    FirstFreeProps(g, total, list);
    ghost var p1, p2, d := EnterPids(info, prog, list, pmt);
    PmtDone(g0, info.progs, p0, g, p1, p2, info.pids, prog, list, pmt, d);
    CleanAfterGrowth(p0);
  }

  lemma VersionKept(p: Prog, version: nat)
    ensures WithVersion(p, version).body.data.version == version
  {
  }

  /** The version that SetPmt records early is the one it would record anyway. */
  lemma {:induction false} Unversioned(g0: seq<Prog>, g1: seq<Prog>, prog: nat, p0: seq<Pid>, p1: seq<Pid>,
                                       list: seq<nat>, pmt: Pmt)
    requires prog < |g0| && PmtEntered(g0[prog := WithVersion(g0[prog], pmt.version)], g1, p0, p1, prog, list, pmt)
    ensures PmtEntered(g0, g1, p0, p1, prog, list, pmt)
  {
    hide ProgAt, NewlyTaken, ApartProg, UsedByProg, NoDup, PmtSlots, PmtShape, Elements, PcrEntered;
  }

  lemma CleanAfterGrowth(p0: seq<Pid>)
    ensures Clean(p0) ==> Clean(p0 + seq(PIDS_PER_GROWTH, _ => ZERO_PID))
  {
  }

  predicate WithinLimits(pmt: Pmt) {
    |pmt.es| <= MAX_ES_NUM_IN_PMT && |pmt.cas| <= MAX_CASYS_NUM_IN_PMT && |pmt.info| <= MAX_PROGRAM_INFO_LEN
  }
}
