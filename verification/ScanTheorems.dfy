/**
  What a scan leaves, told from the tables and from the tree itself: every node with its numbers, and
  of the PIDs seen each one either in the tree or accounted for.
 */
module ScanTheorems {
  import opened TsPool
  import opened TsTree
  import opened TsBuild
  import opened TsPmt
  import opened TsScan
  import opened ScanNeeds
  import opened ParseSi
  import PidMap

  // ---------------------------------------------------------------- node by node

  /** Program i of the PAT, filled from its PMT if that PMT was seen. */
  ghost predicate ProgramDescribed(t: ProgTree, d: StreamData, e: PatEntry, seen: bool, pmt: Pmt) {
    && t.ProgNode? && t.data.slotId == d.slotId && t.data.channel == d.channel
    && t.data.serviceId == t.data.newServiceId == e.serviceId && t.data.pmtPid == t.data.newPmtPid == e.pmtPid
    && (if seen then Describes(t, d.slotId, d.channel, pmt) else t.pcr == [] && t.es == [] && t.ps == [])
  }

  /** One leaf for each PID, in order. */
  ghost predicate OthersDescribed(ts: seq<PidTree>, slotId: nat, channel: nat, pids: seq<nat>) {
    && |ts| == |pids|
    && forall j :: 0 <= j < |ts| ==>
         ts[j] == PidNode(PidData(slotId, channel, OtherPid, 0, pids[j], pids[j], 0, []), [])
  }

  /** The tree of a scan with a PAT has the programs of the PAT, each from its own PMT, and the EMMs of the CAT. */
  lemma {:induction false} TreeIsDescribed(d: StreamData, list: seq<nat>, tables: Tables)
    requires list != [] && list[0] == 0
    ensures var t := TreeFound(d, list, tables);
            && t.StreamNode? && t.data == d.(transportStreamId := tables.pat.transportStreamId)
            && |t.progs| == |tables.pat.programs|
            && (forall i :: 0 <= i < |t.progs| ==>
                  ProgramDescribed(t.progs[i], d, tables.pat.programs[i], tables.pat.programs[i].pmtPid in list,
                                   tables.pmt(i)))
            && EntriesDescribed(t.emm, d.slotId, d.channel, EmmPid, if 1 in list then tables.cat else [])
  {
    hide Leftover, TableSet, PmtSet, Describes, PmtTree, OtherTrees, CaTrees, EntriesDescribed;
    EntriesAre(d.slotId, d.channel, EmmPid, tables.cat);
    EntriesAre(d.slotId, d.channel, EmmPid, []);
    OneEntry(d.slotId, d.channel, EmmPid, []);
    var t := TreeFound(d, list, tables);
    forall i | 0 <= i < |t.progs|
      ensures ProgramDescribed(t.progs[i], d, tables.pat.programs[i], tables.pat.programs[i].pmtPid in list,
                               tables.pmt(i))
    {
      var e := PatTree(d, tables.pat.programs[i]).data;
      PmtTreeDescribes(e, tables.pmt(i));
      PmtKeepsEntry(e, tables.pmt(i));
    }
  }

  /** Filling a program from its PMT keeps what came from the PAT. */
  lemma PmtKeepsEntry(d: ProgData, pmt: Pmt)
    ensures var t := PmtTree(d, pmt);
            && t.ProgNode? && t.data.slotId == d.slotId && t.data.channel == d.channel
            && t.data.serviceId == d.serviceId && t.data.newServiceId == d.newServiceId
            && t.data.pmtPid == d.pmtPid && t.data.newPmtPid == d.newPmtPid
  {
  }

  // ---------------------------------------------------------------- the PIDs of nodes

  /** Some node of the chain, or one below it, has the PID. */
  ghost predicate IsNode(ts: seq<PidTree>, p: nat) {
    exists j :: 0 <= j < |ts| && NodeHas(ts[j], p)
  }

  ghost predicate NodeHas(t: PidTree, p: nat) {
    t.PidNode?
    && (t.data.pid == p || exists k :: 0 <= k < |t.ecms| && t.ecms[k].PidNode? && t.ecms[k].data.pid == p)
  }

  ghost predicate ProgHas(t: ProgTree, p: nat) {
    t.ProgNode? && (IsNode(t.pcr, p) || IsNode(t.es, p) || IsNode(t.ps, p))
  }

  lemma {:induction false} EntriesHave(ts: seq<PidTree>, slotId: nat, channel: nat, kind: PidKind, cas: seq<Ca>, p: nat)
    requires EntriesDescribed(ts, slotId, channel, kind, cas)
    ensures IsNode(ts, p) <==> p in CaPidSet(cas)
    ensures (exists k :: 0 <= k < |ts| && ts[k].PidNode? && ts[k].data.pid == p) <==> p in CaPidSet(cas)
  {
    if p in CaPidSet(cas) {
      var c :| c in cas && c.pid == p;
      var j :| 0 <= j < |cas| && cas[j] == c;
      assert ts[j].data.pid == p && NodeHas(ts[j], p);
    }
    if IsNode(ts, p) {
      var j :| 0 <= j < |ts| && NodeHas(ts[j], p);
      assert cas[j] in cas && cas[j].pid == p;
    }
    if k :| 0 <= k < |ts| && ts[k].PidNode? && ts[k].data.pid == p {
      assert cas[k] in cas && cas[k].pid == p;
    }
  }

  lemma {:induction false} EsPidsAreNamed(es: seq<PmtEs>, p: nat)
    ensures p in EsPidSet(es) <==> exists j :: 0 <= j < |es| && (es[j].pid == p || p in CaPidSet(es[j].cas))
  {
    hide CaPidSet;
    if es != [] {
      var init, last := es[..|es| - 1], es[|es| - 1];
      EsPidsAreNamed(init, p);
      if j :| 0 <= j < |es| && (es[j].pid == p || p in CaPidSet(es[j].cas)) {
        assert j < |init| ==> init[j] == es[j];
      }
      if j :| 0 <= j < |init| && (init[j].pid == p || p in CaPidSet(init[j].cas)) {
        assert es[j] == init[j];
      }
      if last.pid == p || p in CaPidSet(last.cas) {
        assert es[|es| - 1] == last;
      }
    }
  }

  lemma {:induction false} StreamsHave(ts: seq<PidTree>, slotId: nat, channel: nat, es: seq<PmtEs>, p: nat)
    requires |ts| == |es| && forall j :: 0 <= j < |ts| ==> StreamDescribed(ts[j], slotId, channel, es[j])
    ensures IsNode(ts, p) <==> p in EsPidSet(es)
  {
    hide CaPidSet, EntriesDescribed, EsPidSet;
    EsPidsAreNamed(es, p);
    forall j | 0 <= j < |ts| ensures NodeHas(ts[j], p) <==> es[j].pid == p || p in CaPidSet(es[j].cas) {
      EntriesHave(ts[j].ecms, slotId, channel, EsEcmPid, es[j].cas, p);
    }
  }

  /** The PIDs that a PMT accounts for are those of the nodes of its program, except for the null PID. */
  lemma {:induction false} ProgramHas(t: ProgTree, slotId: nat, channel: nat, pmt: Pmt, p: nat)
    requires Describes(t, slotId, channel, pmt) && p < 0x1FFF
    ensures ProgHas(t, p) <==> p in PmtPidSet(pmt)
  {
    hide StreamDescribed, EntriesDescribed, EsPidSet, CaPidSet;
    StreamsHave(t.es, slotId, channel, pmt.es, p);
    EntriesHave(t.ps, slotId, channel, PsEcmPid, pmt.cas, p);
    if pmt.pcrPid < 0x1FFF {
      assert NodeHas(t.pcr[0], pmt.pcrPid);
      OnlyPcr(t.pcr, p, pmt.pcrPid);
    }
  }

  lemma OnlyPcr(ts: seq<PidTree>, p: nat, pcr: nat)
    requires |ts| == 1 && ts[0].PidNode? && ts[0].data.pid == pcr && ts[0].ecms == []
    ensures IsNode(ts, p) <==> p == pcr
  {
    assert NodeHas(ts[0], pcr);
  }

  lemma {:induction false} PmtSetHasOnly(programs: seq<PatEntry>, list: seq<nat>, pmt: nat -> Pmt, n: nat, p: nat)
    requires n <= |programs|
    ensures p in PmtSet(programs, list, pmt, n) <==>
              exists i: nat :: i < n && programs[i].pmtPid in list
                               && (p in PmtPidSet(pmt(i)) || p == programs[i].pmtPid)
    decreases n
  {
    hide PmtPidSet;
    if n > 0 {
      PmtSetHasOnly(programs, list, pmt, n - 1, p);
    }
  }

  // ---------------------------------------------------------------- every PID seen is in one place

  /** The PID has a place other than among the other PIDs: a fixed one, as a PMT, or as a node of the tree. */
  ghost predicate HasPlace(t: StreamTree, tables: Tables, p: nat)
    requires t.StreamNode?
  {
    || p == 0 || p == 1 || p == 0x10 || p == 0x11
    || (exists i :: 0 <= i < |tables.pat.programs| && tables.pat.programs[i].pmtPid == p)
    || (exists i :: 0 <= i < |t.progs| && ProgHas(t.progs[i], p))
    || IsNode(t.emm, p)
  }

  /** What the tables account for, once a list with that PID was looked at, are the PIDs that have a place. */
  lemma {:induction false} AccountedHasPlace(d: StreamData, list: seq<nat>, tables: Tables, p: nat)
    requires list != [] && list[0] == 0 && p in list && p < 0x1FFF
    ensures var t := TreeFound(d, list, tables);
            t.StreamNode?
            && (p in TableSet(list, tables.cat) + PmtSet(tables.pat.programs, list, tables.pmt, |tables.pat.programs|)
                <==> HasPlace(t, tables, p))
  {
    hide Leftover, TableSet, PmtSet, PmtPidSet, Describes, EntriesDescribed, TreeFound, CaPidSet, IsNode, ProgHas;
    var t, programs := TreeFound(d, list, tables), tables.pat.programs;
    TreeIsDescribed(d, list, tables);
    PmtSetHasOnly(programs, list, tables.pmt, |programs|, p);
    EntriesHave(t.emm, d.slotId, d.channel, EmmPid, if 1 in list then tables.cat else [], p);
    TableSetHas(list, tables.cat, p);
    forall i | 0 <= i < |programs|
      ensures ProgHas(t.progs[i], p) <==> programs[i].pmtPid in list && p in PmtPidSet(tables.pmt(i))
    {
      assert ProgramDescribed(t.progs[i], d, programs[i], programs[i].pmtPid in list, tables.pmt(i));
      if programs[i].pmtPid in list {
        ProgramHas(t.progs[i], d.slotId, d.channel, tables.pmt(i), p);
      } else {
        EmptyHasNone(t.progs[i], p);
      }
    }
  }

  lemma EmptyHasNone(t: ProgTree, p: nat)
    requires t.ProgNode? && t.pcr == [] && t.es == [] && t.ps == []
    ensures !ProgHas(t, p)
  {
  }

  lemma TableSetHas(list: seq<nat>, cat: seq<Ca>, p: nat)
    requires p in list
    ensures p in TableSet(list, cat) <==>
              p == 0 || p == 1 || p == 0x10 || p == 0x11 || p in CaPidSet(if 1 in list then cat else [])
  {
  }

  /** Some leaf of the chain has the PID. */
  ghost predicate IsOther(ts: seq<PidTree>, p: nat) {
    exists k :: 0 <= k < |ts| && ts[k].PidNode? && ts[k].data.pid == p
  }

  lemma {:induction false} OthersAre(d: StreamData, pids: seq<nat>)
    ensures OthersDescribed(OtherTrees(d, pids), d.slotId, d.channel, pids)
    ensures forall p: nat :: IsOther(OtherTrees(d, pids), p) <==> p in pids
  {
    forall p: nat | p in pids ensures IsOther(OtherTrees(d, pids), p) {
      var j :| 0 <= j < |pids| && pids[j] == p;
      assert OtherTrees(d, pids)[j].data.pid == p;
    }
  }

  /** The other PIDs of a tree are exactly those seen that have no place elsewhere in it. */
  ghost predicate OnlyTheRest(t: StreamTree, words: seq<bv32>, tables: Tables)
    requires |words| == PidMap.WORDS
  {
    && t.StreamNode?
    && (forall p: nat :: IsOther(t.other, p) <==> p < 0x1FFF && PidMap.Seen(words, p) && !HasPlace(t, tables, p))
    && (forall i, j :: 0 <= i < j < |t.other| ==>
          t.other[i].PidNode? && t.other[j].PidNode? && t.other[i].data.pid < t.other[j].data.pid)
  }

  /**
    A scan that finds a PAT enters as other PIDs exactly those that were seen below the null PID and
    have no place elsewhere in what it has found; in increasing order, each once.
   */
  lemma {:induction false} OthersHaveNoPlace(d: StreamData, words: seq<bv32>, tables: Tables)
    requires |words| == PidMap.WORDS && PidMap.Seen(words, 0)
    ensures OnlyTheRest(ScanFound(d, words, tables), words, tables)
  {
    hide PidMap.Seen, PidMap.ListRead, Leftover, TableSet, PmtSet, HasPlace, OtherTrees, IsOther;
    var list := WithoutNull(PidMap.ListRead(words));
    PatIsFirst(words);
    var programs := tables.pat.programs;
    var parsed := TableSet(list, tables.cat) + PmtSet(programs, list, tables.pmt, |programs|);
    PatAccounted(list, tables.cat);
    LeftoverIsThePartition(words, parsed);
    var left := Leftover(list, parsed, |list|);
    var t := ScanFound(d, words, tables);
    assert t.other == OtherTrees(d, left);
    OthersAre(d, left);
    forall p: nat
      ensures IsOther(t.other, p) <==> p < 0x1FFF && PidMap.Seen(words, p) && !HasPlace(t, tables, p)
    {
      if p < 0x1FFF && PidMap.Seen(words, p) {
        SeenIsListed(words, p);
        AccountedHasPlace(d, list, tables, p);
      }
    }
  }

  lemma PatAccounted(list: seq<nat>, cat: seq<Ca>)
    requires 0 in list
    ensures 0 in TableSet(list, cat)
  {
  }

  lemma {:induction false} SeenIsListed(words: seq<bv32>, p: nat)
    requires |words| == PidMap.WORDS && p < 0x1FFF && PidMap.Seen(words, p)
    ensures p in WithoutNull(PidMap.ListRead(words))
  {
    hide PidMap.Seen, PidMap.ListRead;
    PidMap.ListIsExact(words);
    NullIsLast(words);
    WithoutNullOf(PidMap.ListRead(words));
  }

  lemma {:induction false} PatIsFirst(words: seq<bv32>)
    requires |words| == PidMap.WORDS && PidMap.Seen(words, 0)
    ensures var list := WithoutNull(PidMap.ListRead(words));
            list != [] && list[0] == 0 && 0 in list && PidMap.ListRead(words) != []
  {
    hide PidMap.Seen, PidMap.ListRead;
    PidMap.ListIsExact(words);
    NullIsLast(words);
    WithoutNullOf(PidMap.ListRead(words));
    SeenIsListed(words, 0);
    var list := WithoutNull(PidMap.ListRead(words));
    var i :| 0 <= i < |list| && list[i] == 0;
    assert list[0] <= list[i];
  }

  // ---------------------------------------------------------------- without a PAT

  lemma {:induction false} NothingMasked(list: seq<nat>, n: nat)
    requires n <= |list| && forall p :: p in list ==> p < 0x2000
    ensures Leftover(list, {}, n) == list[..n]
    decreases n
  {
    if n > 0 {
      NothingMasked(list, n - 1);
      assert list[n - 1] in list && list[..n] == list[..n - 1] + [list[n - 1]];
    }
  }

  /** Without a PAT the list is exactly what was seen below the null PID. */
  lemma {:induction false} ListWithoutPat(words: seq<bv32>)
    requires |words| == PidMap.WORDS && !PidMap.Seen(words, 0)
    ensures var list := WithoutNull(PidMap.ListRead(words));
            && (forall p: nat :: p in list <==> p < 0x1FFF && PidMap.Seen(words, p))
            && (forall i, j :: 0 <= i < j < |list| ==> list[i] < list[j])
  {
    hide PidMap.Seen, PidMap.SeenBelow;
    PidMap.ListIsExact(words);
    PidMap.SeenBelowProps(words, PidMap.PIDS);
    NullIsLast(words);
    WithoutNullOf(PidMap.ListRead(words));
    var list := WithoutNull(PidMap.ListRead(words));
    forall p: nat | p in list ensures p < 0x1FFF && PidMap.Seen(words, p) {
      assert p in PidMap.SeenBelow(words, PidMap.PIDS);
      assert p != PidMap.NULL_PID;
    }
  }

  /** A scan that finds no PAT enters the first 200 PIDs seen, and nothing else. */
  lemma {:induction false} WithoutPat(d: StreamData, words: seq<bv32>, tables: Tables)
    requires |words| == PidMap.WORDS && !PidMap.Seen(words, 0)
    ensures var t, list := ScanFound(d, words, tables), WithoutNull(PidMap.ListRead(words));
            && t.StreamNode? && t.data == d && t.progs == [] && t.emm == []
            && OthersDescribed(t.other, d.slotId, d.channel, if |list| <= 200 then list else list[..200])
  {
    hide PidMap.Seen, PidMap.ListRead, Leftover, OtherTrees, OthersDescribed;
    ListWithoutPat(words);
    var list := WithoutNull(PidMap.ListRead(words));
    var kept := if |list| <= 200 then list else list[..200];
    assert forall p :: p in kept ==> p in list;
    NothingMasked(kept, |kept|);
    assert kept[..|kept|] == kept;
    OthersAre(d, kept);
    NoOthers(d);
    assert list != [] ==> list[0] in list;
  }

  lemma NoOthers(d: StreamData)
    ensures OtherTrees(d, []) == [] && OthersDescribed([], d.slotId, d.channel, [])
  {
  }
}
