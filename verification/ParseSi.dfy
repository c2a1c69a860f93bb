/**
  The scan of a channel: which of the PIDs seen on it carry tables, which are named by tables, and
  which are left over (TSP_ParseSI, TSP_ScanTS).
 */
module ParseSi {
  import opened TsPool
  import opened TsTree
  import opened TsAppend
  import opened TsBuild
  import opened TsPmt
  import opened TsScan
  import opened ScanNeeds
  import PidMap

  const MAX_OTHERPID_NUM: nat := 200

  // ---------------------------------------------------------------- PIDs named by tables

  function CaPidSet(cas: seq<Ca>): set<nat> { set c | c in cas :: c.pid }

  function EsPidSet(es: seq<PmtEs>): set<nat> {
    if es == [] then {}
    else EsPidSet(es[..|es| - 1]) + {es[|es| - 1].pid} + CaPidSet(es[|es| - 1].cas)
  }

  /** The PIDs that a PMT names. */
  function PmtPidSet(pmt: Pmt): set<nat> { {pmt.pcrPid} + EsPidSet(pmt.es) + CaPidSet(pmt.cas) }

  /** The PIDs accounted for by PAT, CAT, NIT and SDT once the PIDs of `seen` have been looked at. */
  function TableSet(seen: seq<nat>, cat: seq<Ca>): set<nat> {
    (if PAT_PID in seen then {PAT_PID} else {})
    + (if CAT_PID in seen then {CAT_PID} + CaPidSet(cat) else {})
    + (if NIT_PID in seen then {NIT_PID} else {})
    + (if SDT_PID in seen then {SDT_PID} else {})
  }

  /** The PIDs accounted for by the PMTs of the first n programs, among those whose PMT was seen. */
  function PmtSet(programs: seq<PatEntry>, list: seq<nat>, pmt: nat -> Pmt, n: nat): set<nat>
    requires n <= |programs|
  {
    if n == 0 then {}
    else PmtSet(programs, list, pmt, n - 1)
         + (if programs[n - 1].pmtPid in list then PmtPidSet(pmt(n - 1)) + {programs[n - 1].pmtPid} else {})
  }

  function Masked(p: nat): nat { p % 0x2000 }

  /** The PIDs of the first n entries that are not accounted for. */
  function Leftover(list: seq<nat>, parsed: set<nat>, n: nat): seq<nat>
    requires n <= |list|
  {
    if n == 0 then []
    else Leftover(list, parsed, n - 1) + (if Masked(list[n - 1]) in parsed then [] else [Masked(list[n - 1])])
  }

  /** The list without the null PID at its end. */
  function WithoutNull(list: seq<nat>): seq<nat> {
    if list != [] && list[|list| - 1] == PidMap.NULL_PID then list[..|list| - 1] else list
  }

  // ---------------------------------------------------------------- what a scan should find

  function OtherTrees(d: StreamData, pids: seq<nat>): (r: seq<PidTree>)
    ensures |r| == |pids|
  {
    seq(|pids|, i requires 0 <= i < |pids| => PidNode(LeafData(d.slotId, d.channel, OtherPid, Ca(0, pids[i])), []))
  }

  /** The programs of the PAT, the first n of them filled from their PMT if that was seen. */
  function ProgsFound(d: StreamData, programs: seq<PatEntry>, list: seq<nat>, pmt: nat -> Pmt,
                      n: nat): (r: seq<ProgTree>)
    ensures |r| == |programs|
  {
    seq(|programs|, i requires 0 <= i < |programs| =>
      if i < n && programs[i].pmtPid in list then PmtTree(PatTree(d, programs[i]).data, pmt(i))
        else PatTree(d, programs[i]))
  }

  /** The tree that the tables describe, for a list of PIDs without the null PID. */
  function TreeFound(d: StreamData, list: seq<nat>, tables: Tables): StreamTree {
    if list == [] || list[0] != PAT_PID
    then
      var kept := if |list| > MAX_OTHERPID_NUM then list[..MAX_OTHERPID_NUM] else list;
      StreamNode(d, [], [], OtherTrees(d, Leftover(kept, {}, |kept|)))
    else
      var programs := tables.pat.programs;
      var parsed := TableSet(list, tables.cat) + PmtSet(programs, list, tables.pmt, |programs|);
      StreamNode(d.(transportStreamId := tables.pat.transportStreamId),
                 ProgsFound(d, programs, list, tables.pmt, |programs|),
                 if CAT_PID in list then CaTrees(d.slotId, d.channel, EmmPid, tables.cat) else [],
                 OtherTrees(d, Leftover(list, parsed, |list|)))
  }

  // ---------------------------------------------------------------- the leftover PIDs

  lemma {:induction false} LeftoverOf(list: seq<nat>, parsed: set<nat>, n: nat)
    requires n <= |list| && PAT_PID in parsed
    requires forall i, j :: 0 <= i < j < |list| ==> list[i] < list[j]
    requires forall p :: p in list ==> p <= PidMap.PIDS
    ensures forall p :: p in Leftover(list, parsed, n) <==> p in list[..n] && p != PidMap.PIDS && p !in parsed
    ensures forall i, j :: 0 <= i < j < |Leftover(list, parsed, n)| ==>
              Leftover(list, parsed, n)[i] < Leftover(list, parsed, n)[j]
    decreases n
  {
    hide Masked;
    if n > 0 {
      LeftoverOf(list, parsed, n - 1);
      var before, last := Leftover(list, parsed, n - 1), list[n - 1];
      assert list[..n] == list[..n - 1] + [last];
      assert last in list;
      MaskedOf(last);
      forall i | 0 <= i < |before| ensures before[i] < last {
        assert before[i] in before;
      }
    }
  }

  lemma MaskedOf(p: nat)
    requires p <= PidMap.PIDS
    ensures Masked(p) == if p == PidMap.PIDS then PAT_PID else p
  {
  }

  /**
    For every map of the scanner, a full one included: the PIDs left over are exactly those seen,
    other than the null PID, that no table accounts for; in increasing order, each once.
   */
  lemma {:induction false} LeftoverIsThePartition(words: seq<bv32>, parsed: set<nat>)
    requires |words| == PidMap.WORDS && PAT_PID in parsed
    ensures var list := WithoutNull(PidMap.ListRead(words));
            var left := Leftover(list, parsed, |list|);
            && (forall p: nat :: p in left <==> p < PidMap.NULL_PID && PidMap.Seen(words, p) && p !in parsed)
            && (forall i, j :: 0 <= i < j < |left| ==> left[i] < left[j])
  {
    hide PidMap.Seen, PidMap.SeenBelow, Leftover, PidMap.AllSeen;
    PidMap.ListIsExact(words);
    PidMap.SeenBelowProps(words, PidMap.PIDS);
    PidMap.SeenBelowProps(words, PidMap.COUNT);
    var all := PidMap.ListRead(words);
    var list := WithoutNull(all);
    NullIsLast(words);
    WithoutNullOf(all);
    LeftoverOf(list, parsed, |list|);
    assert list[..|list|] == list;
  }

  lemma {:induction false} NullIsLast(words: seq<bv32>)
    requires |words| == PidMap.WORDS
    ensures var list := PidMap.ListRead(words);
            PidMap.NULL_PID in list ==> list[|list| - 1] == PidMap.NULL_PID
  {
    hide PidMap.Seen, PidMap.SeenBelow, PidMap.AllSeen;
    PidMap.ListIsExact(words);
    PidMap.SeenBelowProps(words, PidMap.PIDS);
    PidMap.SeenBelowProps(words, PidMap.COUNT);
    var list := PidMap.ListRead(words);
    if PidMap.NULL_PID in list {
      var last := list[|list| - 1];
      assert last in list;
      assert last != PidMap.PIDS;
    }
  }

  lemma {:induction false} WithoutNullOf(list: seq<nat>)
    requires forall i, j :: 0 <= i < j < |list| ==> list[i] < list[j]
    requires PidMap.NULL_PID in list ==> list[|list| - 1] == PidMap.NULL_PID
    requires forall p :: p in list ==> p <= PidMap.PIDS
    ensures forall p :: p in WithoutNull(list) ==> p in list
    ensures forall p :: p in list && p < PidMap.NULL_PID ==> p in WithoutNull(list)
    ensures PidMap.NULL_PID !in WithoutNull(list)
    ensures forall i, j :: 0 <= i < j < |WithoutNull(list)| ==> WithoutNull(list)[i] < WithoutNull(list)[j]
  {
    var r := WithoutNull(list);
    forall p | p in list && p < PidMap.NULL_PID ensures p in r {
      var i :| 0 <= i < |list| && list[i] == p;
      assert i < |r| ==> r[i] == p;
    }
  }

  // ---------------------------------------------------------------- the loop over leftover PIDs

  function WithOthers(t: StreamTree, pids: seq<nat>): (r: StreamTree)
    requires t.StreamNode?
    ensures r.StreamNode? && r.data == t.data
  {
    t.(other := t.other + OtherTrees(t.data, pids))
  }

  lemma OneMoreOther(t: StreamTree, pids: seq<nat>, pid: nat)
    requires t.StreamNode?
    ensures var u := WithOthers(t, pids);
            u.(other := u.other + CaTrees(u.data.slotId, u.data.channel, OtherPid, [Ca(0, pid)]))
              == WithOthers(t, pids + [pid])
  {
    var u := WithOthers(t, pids);
    assert u.other + CaTrees(u.data.slotId, u.data.channel, OtherPid, [Ca(0, pid)])
      == WithOthers(t, pids + [pid]).other;
  }

  lemma BuiltNode(streams: seq<Stream>, progs: seq<Prog>, pids: seq<Pid>, src: nat, s: StreamShape, t: StreamTree)
    requires Built(streams, progs, pids, src, s, t)
    ensures t.StreamNode? && src < |streams| && Clean(pids)
    ensures streams[src].body.data == t.data && streams[src].body.progNum == |t.progs| == |s.progs|
  {
  }

  /** The chains of a built stream, and how long they are. */
  lemma {:induction false} BuiltChains(streams: seq<Stream>, progs: seq<Prog>, pids: seq<Pid>, src: nat, s: StreamShape,
                                       t: StreamTree)
    requires Built(streams, progs, pids, src, s, t)
    ensures t.StreamNode? && src < |streams|
    ensures var b := streams[src].body;
            && b.progNum == |t.progs| && ChainOf(progs, b.progHead, b.progNum, ProgSlots(s.progs))
            && b.emmNum == |t.emm| && ChainOf(pids, b.emmHead, b.emmNum, PidSlots(s.emm))
            && b.otherNum == |t.other| && ChainOf(pids, b.otherHead, b.otherNum, PidSlots(s.other))
  {
    hide PidAt, ProgAt, ProgScan, LeafTrees, Linked, Apart, ApartProgs, EsInTree, Clean;
    ProgChainInUse(progs, pids, s.progs, t.progs, src, false);
    SlotsInUse(pids, s.emm, t.emm, src, INDEX_INVALID);
    SlotsInUse(pids, s.other, t.other, src, INDEX_INVALID);
  }

  lemma {:induction false} SlotsInUse(pids: seq<Pid>, ss: seq<PidShape>, trees: seq<PidTree>, ts: nat, prog: nat)
    requires |ss| == |trees|
    requires forall j :: 0 <= j < |ss| ==> PidAt(pids, ss[j], trees[j], ts, prog, EcmParent(false, ss[j].slot))
    ensures AllInUse(pids, PidSlots(ss))
  {
    hide Linked;
  }

  /** Enters every PID of the list that is not among the parsed ones as an other PID. */
  method AddOthers(info: TsInfo, src: nat, list: seq<nat>, parsed: seq<nat>, ghost s0: StreamShape, ghost t: StreamTree)
    returns (code: Code, ghost s: StreamShape)
    requires info.Valid() && Built(info.streams, info.progs, info.pids, src, s0, t)
    modifies info`streams, info`pids, info`pidBlock
    ensures info.Valid() && |info.streams| == |old(info.streams)| && t.StreamNode?
    ensures code == Success ==>
              Built(info.streams, info.progs, info.pids, src, s,
                    WithOthers(t, Leftover(list, Elements(parsed), |list|)))
    ensures t.StreamNode? ==>
              (code == Success <==>
                 OthersOk(RoomOf(old(info.pids)), |t.other|, |Leftover(list, Elements(parsed), |list|)|, info.realloc))
  {
    hide Built, Elements, Leftover, WithOthers, RoomOf, OthersOk, OtherRoom, PidsLess, Served;
    code, s := Success, s0;
    ghost var r0 := RoomOf(info.pids);
    BuiltNode(info.streams, info.progs, info.pids, src, s, t);
    NoOthersAsked(r0, |t.other|, info.realloc);
    NoOthersYet(list, Elements(parsed), t);
    var i := 0;
    while i < |list|
      invariant 0 <= i <= |list| && code == Success && info.Valid() && |info.streams| == |old(info.streams)|
      invariant Built(info.streams, info.progs, info.pids, src, s, WithOthers(t, Leftover(list, Elements(parsed), i)))
      invariant OthersOk(r0, |t.other|, |Leftover(list, Elements(parsed), i)|, info.realloc)
      invariant RoomOf(info.pids) == OtherRoom(r0, |Leftover(list, Elements(parsed), i)|)
    {
      var pid := Masked(list[i]);
      var known := PidMap.IsPidExist(pid, parsed);
      assert known <==> pid in Elements(parsed) by {
        InElements(pid, parsed);
      }
      LeftoverStep(list, Elements(parsed), i);
      if !known {
        ghost var before := Leftover(list, Elements(parsed), i);
        code, s := AddOther(info, src, pid, s, WithOthers(t, before));
        OneMoreAsked(r0, t, before, info.realloc);
        if code != Success {
          LeftoverGrows(list, Elements(parsed), i + 1, |list|);
          if OthersOk(r0, |t.other|, |Leftover(list, Elements(parsed), |list|)|, info.realloc) {
            OthersOkPart(r0, |t.other|, |before| + 1, |Leftover(list, Elements(parsed), |list|)|, info.realloc);
          }
          return;
        }
        OneMoreOther(t, before, pid);
      }
      i := i + 1;
    }
  }

  lemma NoOthersAsked(r: Room, start: nat, realloc: nat -> Realloc)
    ensures OthersOk(r, start, 0, realloc) && OtherRoom(r, 0) == r
  {
  }

  lemma OneMoreAsked(r: Room, t: StreamTree, before: seq<nat>, realloc: nat -> Realloc)
    requires t.StreamNode? && OthersOk(r, |t.other|, |before|, realloc)
    ensures |WithOthers(t, before).other| == |t.other| + |before|
    ensures OthersOk(r, |t.other|, |before| + 1, realloc) <==>
              |t.other| + |before| < MAX_INDEX_LIST && Served(OtherRoom(r, |before|), 1, PIDS_PER_GROWTH, realloc)
    ensures OtherRoom(r, |before| + 1) == PidsLess(OtherRoom(r, |before|), 1)
  {
  }

  lemma {:induction false} LeftoverGrows(list: seq<nat>, parsed: set<nat>, m: nat, n: nat)
    requires m <= n <= |list|
    ensures |Leftover(list, parsed, m)| <= |Leftover(list, parsed, n)|
    decreases n
  {
    if m < n {
      LeftoverGrows(list, parsed, m, n - 1);
    }
  }

  lemma NoOthersYet(list: seq<nat>, parsed: set<nat>, t: StreamTree)
    requires t.StreamNode?
    ensures Leftover(list, parsed, 0) == [] && WithOthers(t, []) == t
  {
    assert t.other + [] == t.other;
  }

  lemma LeftoverStep(list: seq<nat>, parsed: set<nat>, i: nat)
    requires i < |list|
    ensures var pid := Masked(list[i]);
            Leftover(list, parsed, i + 1) == if pid in parsed then Leftover(list, parsed, i)
              else Leftover(list, parsed, i) + [pid]
  {
  }

  lemma InElements(x: nat, list: seq<nat>)
    ensures x in Elements(list) <==> x in list
  {
  }

  method AddOther(info: TsInfo, src: nat, pid: nat, ghost s0: StreamShape, ghost t: StreamTree)
    returns (code: Code, ghost s: StreamShape)
    requires info.Valid() && Built(info.streams, info.progs, info.pids, src, s0, t) && t.StreamNode?
    modifies info`streams, info`pids, info`pidBlock
    ensures info.Valid() && |info.streams| == |old(info.streams)|
    ensures code == Success ==>
              Built(info.streams, info.progs, info.pids, src, s,
                    t.(other := t.other + CaTrees(t.data.slotId, t.data.channel, OtherPid, [Ca(0, pid)])))
    ensures code == Success <==>
              Served(RoomOf(old(info.pids)), 1, PIDS_PER_GROWTH, info.realloc) && |t.other| < MAX_INDEX_LIST
    ensures code == Success ==> RoomOf(info.pids) == PidsLess(RoomOf(old(info.pids)), 1)
  {
    hide Built, ChainGrew, Clean, ChainOf, Granted, Served, RoomOf, Grown, PidsLess;
    ghost var streams, p0 := info.streams, info.pids;
    BuiltNode(streams, info.progs, p0, src, s0, t);
    BuiltChains(streams, info.progs, p0, src, s0, t);
    GrantedIsServed(p0, 1, PIDS_PER_GROWTH, info.realloc);
    s := s0;
    var list;
    code, list := SetOther(info, src, pid);
    if code == Success {
      BuiltByOther(streams, info.streams, info.progs, p0, info.pids, src, s0, t, list, pid);
      var b := streams[src].body;
      LeafRoom(p0, info.pids, b.otherHead, b.otherNum, PidSlots(s0.other), list,
               StreamPids(streams[src], src, OtherPid, list, [Ca(0, pid)]));
      s := s0.(other := s0.other + LeafShapes(list));
    }
  }

  lemma {:induction false} LeafRoom(p0: seq<Pid>, p1: seq<Pid>, head: nat, num: nat, c: seq<nat>, list: seq<nat>,
                                    entries: seq<Pid>)
    requires ChainGrew(p0, p1, head, num, list, entries) && ChainOf(p0, head, num, c)
    requires |p1| == Grown(RoomOf(p0), |list|, PIDS_PER_GROWTH).len
    requires forall i :: 0 <= i < |entries| ==> entries[i].valid
    ensures RoomOf(p1) == PidsLess(RoomOf(p0), |list|)
  {
    hide RoomOf, Grown, Appended, Less;
    assert AllInUse(p0, c);
    RoomAfterAppend(p0, p1, c, HeadAfter(num, head, list), list, entries, PIDS_PER_GROWTH);
  }

  // ---------------------------------------------------------------- the loop over the tables

  /** The tree after the first n PIDs of the list have been looked at. */
  function AfterTables(d: StreamData, list: seq<nat>, tables: Tables, n: nat): (r: StreamTree)
    requires n <= |list|
    ensures r.StreamNode?
  {
    if n == 0 then EmptyTree(d)
    else
      StreamNode(d.(transportStreamId := tables.pat.transportStreamId), PatTrees(d, tables.pat.programs),
                 if CAT_PID in list[..n] then CaTrees(d.slotId, d.channel, EmmPid, tables.cat) else [], [])
  }

  /** The PIDs recorded so far are those that the tables account for. */
  ghost predicate Recorded(parsed: seq<nat>, list: seq<nat>, cat: seq<Ca>, n: nat)
    requires n <= |list|
  {
    Elements(parsed) == TableSet(list[..n], cat)
  }

  ghost predicate Sorted(list: seq<nat>) {
    forall i, j :: 0 <= i < j < |list| ==> list[i] < list[j]
  }

  /** A list as the scanner makes it, with the PAT in front. */
  ghost predicate StartsWithPat(list: seq<nat>) {
    Sorted(list) && (forall p :: p in list ==> p <= PidMap.PIDS) && list != [] && list[0] == PAT_PID
  }

  /** PAT and CAT are each met once, the PAT first. */
  lemma {:induction false} EachTableOnce(parsed: seq<nat>, list: seq<nat>, cat: seq<Ca>, n: nat)
    requires n < |list| && StartsWithPat(list) && Recorded(parsed, list, cat, n)
    ensures Masked(list[n]) == PAT_PID && Masked(list[n]) !in parsed <==> n == 0
    ensures Masked(list[n]) == CAT_PID && Masked(list[n]) !in parsed <==> list[n] == CAT_PID
    ensures CAT_PID in list[..n + 1] <==> CAT_PID in list[..n] || list[n] == CAT_PID
    ensures list[n] == CAT_PID ==> CAT_PID !in list[..n]
  {
    assert list[..n + 1] == list[..n] + [list[n]];
    assert list[n] in list;
    if n > 0 {
      assert list[..n][0] == PAT_PID && list[0] < list[n];
    }
    forall i | 0 <= i < n ensures list[..n][i] < list[n] { }
    InElements(Masked(list[n]), parsed);
  }

  lemma {:induction false} RecordedStep(parsed: seq<nat>, list: seq<nat>, cat: seq<Ca>, n: nat, more: seq<nat>)
    requires n < |list| && StartsWithPat(list) && Recorded(parsed, list, cat, n)
    requires var p := Masked(list[n]);
             Elements(more) == if p in parsed then {} else if p == CAT_PID then {p} + CaPidSet(cat)
                               else if p == PAT_PID || p == NIT_PID || p == SDT_PID then {p} else {}
    ensures Recorded(parsed + more, list, cat, n + 1)
  {
    EachTableOnce(parsed, list, cat, n);
    var p, last := Masked(list[n]), list[n];
    assert last in list;
    MaskedOf(last);
    InElements(p, parsed);
    TableSetStep(list, cat, n);
    TablePatSeen(list, cat, n);
    assert Elements(parsed + more) == Elements(parsed) + Elements(more);
  }

  /** What one more PID adds to the records and to the conditions. */
  lemma {:induction false} TablesNext(progs: Room, pids: Room, list: seq<nat>, tables: Tables, n: nat, parsed: seq<nat>,
                                      realloc: nat -> Realloc)
    requires n < |list| && StartsWithPat(list) && Recorded(parsed, list, tables.cat, n)
    ensures var p, known := Masked(list[n]), Masked(list[n]) in parsed;
            var seen, more := list[..n], list[..n + 1];
            && (TablesOk(progs, pids, more, tables, realloc) <==>
                  && TablesOk(progs, pids, seen, tables, realloc)
                  && (!known && p == PAT_PID ==>
                        && tables.patCode == Success
                        && Served(progs, |tables.pat.programs|, PROGS_PER_GROWTH, realloc))
                  && (!known && p == CAT_PID ==>
                        && tables.catCode == Success
                        && (tables.cat == [] || Served(pids, |tables.cat|, PIDS_PER_GROWTH, realloc)))
                  && (!known && p == SDT_PID ==> tables.sdtCode == Success))
            && CatRoom(pids, more, tables)
               == (if !known && p == CAT_PID && tables.cat != [] then PidsLess(pids, |tables.cat|)
                   else CatRoom(pids, seen, tables))
            && (!known && p == CAT_PID ==> CatRoom(pids, seen, tables) == pids)
            && TableRecords(more, tables.cat)
               == TableRecords(seen, tables.cat)
                  + (if known then 0 else if p == CAT_PID then 1 + |tables.cat|
                     else if p == PAT_PID || p == NIT_PID || p == SDT_PID then 1 else 0)
  {
    hide Served, PidsLess;
    EachTableOnce(parsed, list, tables.cat, n);
    var last := list[n];
    assert list[..n + 1] == list[..n] + [last];
    assert last in list;
    MaskedOf(last);
    InElements(Masked(last), parsed);
    TablePatSeen(list, tables.cat, n);
    forall i | 0 <= i < n ensures list[..n][i] < last { }
    if last == NIT_PID || last == SDT_PID {
      CatNames(list[..n], tables.cat, last);
    }
  }

  lemma {:induction false} TablesPart(progs: Room, pids: Room, list: seq<nat>, tables: Tables, m: nat,
                                      realloc: nat -> Realloc)
    requires m <= |list| && StartsWithPat(list) && TablesOk(progs, pids, list, tables, realloc)
    ensures TablesOk(progs, pids, list[..m], tables, realloc)
  {
    hide Served;
    forall p | p in list[..m] ensures p in list { }
    if SDT_PID in list[..m] && CAT_PID in list {
      var i :| 0 <= i < m && list[i] == SDT_PID;
      var j :| 0 <= j < |list| && list[j] == CAT_PID;
      assert j < m && list[..m][j] == CAT_PID;
    }
  }

  lemma {:induction false} FewTableRecords(progs: Room, pids: Room, list: seq<nat>, tables: Tables,
                                           realloc: nat -> Realloc)
    requires TablesOk(progs, pids, list, tables, realloc)
    ensures TableRecords(list, tables.cat) <= MAX_INDEX_LIST + 4
  {
    hide CanGrow;
  }

  lemma NoTablesYet(progs: Room, pids: Room, list: seq<nat>, tables: Tables, realloc: nat -> Realloc)
    ensures TablesOk(progs, pids, list[..0], tables, realloc) && CatRoom(pids, list[..0], tables) == pids
    ensures TableRecords(list[..0], tables.cat) == 0
  {
  }

  lemma CatNames(seen: seq<nat>, cat: seq<Ca>, p: nat)
    requires p !in seen && (p == NIT_PID || p == SDT_PID)
    ensures p in TableSet(seen, cat) <==> CAT_PID in seen && exists c :: c in cat && c.pid == p
  {
  }

  lemma TablePatSeen(list: seq<nat>, cat: seq<Ca>, n: nat)
    requires n <= |list| && StartsWithPat(list)
    ensures n > 0 ==> PAT_PID in TableSet(list[..n], cat)
  {
    if n > 0 {
      assert list[..n][0] == PAT_PID;
    }
  }

  lemma TableSetStep(list: seq<nat>, cat: seq<Ca>, n: nat)
    requires n < |list|
    ensures TableSet(list[..n + 1], cat)
            == TableSet(list[..n], cat) + (if list[n] == CAT_PID then {CAT_PID} + CaPidSet(cat) else {})
               + (if list[n] == PAT_PID || list[n] == NIT_PID || list[n] == SDT_PID then {list[n]} else {})
  {
    assert list[..n + 1] == list[..n] + [list[n]];
  }

  method AddPat(info: TsInfo, src: nat, pat: Pat, ghost s0: StreamShape, ghost t: StreamTree)
    returns (code: Code, ghost s: StreamShape)
    requires info.Valid() && Built(info.streams, info.progs, info.pids, src, s0, t) && t.StreamNode?
    modifies info`streams, info`progs
    ensures info.Valid() && |info.streams| == |old(info.streams)|
    ensures code == Success ==>
              Built(info.streams, info.progs, info.pids, src, s,
                    t.(data := t.data.(transportStreamId := pat.transportStreamId),
                       progs := t.progs + PatTrees(t.data, pat.programs)))
    ensures code == Success <==>
              && Served(RoomOf(old(info.progs)), |pat.programs|, PROGS_PER_GROWTH, info.realloc)
              && |t.progs| < MAX_INDEX_LIST
  {
    hide Built, ChainGrew, Clean, PatProgs, ChainOf, Granted, Served, RoomOf, Grown;
    ghost var streams, g0 := info.streams, info.progs;
    BuiltNode(streams, g0, info.pids, src, s0, t);
    BuiltChains(streams, g0, info.pids, src, s0, t);
    GrantedIsServed(g0, |pat.programs|, PROGS_PER_GROWTH, info.realloc);
    s := s0;
    var list;
    code, list := SetPat(info, src, pat);
    if code == Success {
      BuiltByPat(streams, info.streams, g0, info.progs, info.pids, src, s0, t, list, pat);
      s := s0.(progs := s0.progs + EmptyProgs(list));
    }
  }

  method AddCat(info: TsInfo, src: nat, cas: seq<Ca>, ghost s0: StreamShape, ghost t: StreamTree)
    returns (code: Code, ghost s: StreamShape)
    requires info.Valid() && Built(info.streams, info.progs, info.pids, src, s0, t) && t.StreamNode?
    modifies info`streams, info`pids, info`pidBlock
    ensures info.Valid() && |info.streams| == |old(info.streams)|
    ensures code == Success ==>
              Built(info.streams, info.progs, info.pids, src, s,
                    t.(emm := t.emm + CaTrees(t.data.slotId, t.data.channel, EmmPid, cas)))
    ensures code == Success <==>
              cas == [] || (Served(RoomOf(old(info.pids)), |cas|, PIDS_PER_GROWTH, info.realloc)
                            && |t.emm| < MAX_INDEX_LIST)
    ensures code == Success ==>
              RoomOf(info.pids) == if cas == [] then RoomOf(old(info.pids)) else PidsLess(RoomOf(old(info.pids)), |cas|)
  {
    hide Built, ChainGrew, Clean, StreamPids, ChainOf, Granted, Served, RoomOf, Grown, PidsLess;
    ghost var streams, p0 := info.streams, info.pids;
    BuiltNode(streams, info.progs, p0, src, s0, t);
    BuiltChains(streams, info.progs, p0, src, s0, t);
    GrantedIsServed(p0, |cas|, PIDS_PER_GROWTH, info.realloc);
    s := s0;
    var list;
    code, list := SetCat(info, src, cas);
    if code == Success && |cas| > 0 {
      BuiltByCat(streams, info.streams, info.progs, p0, info.pids, src, s0, t, list, cas);
      var b := streams[src].body;
      EntriesInUse(streams[src], src, EmmPid, list, cas);
      LeafRoom(p0, info.pids, b.emmHead, b.emmNum, PidSlots(s0.emm), list,
               StreamPids(streams[src], src, EmmPid, list, cas));
      s := s0.(emm := s0.emm + LeafShapes(list));
    }
    if |cas| == 0 {
      assert t.emm + CaTrees(t.data.slotId, t.data.channel, EmmPid, []) == t.emm;
      assert code == Success ==> info.streams == streams;
    }
  }

  lemma EntriesInUse(stream: Stream, ts: nat, kind: PidKind, list: seq<nat>, cas: seq<Ca>)
    requires |list| == |cas|
    ensures forall i :: 0 <= i < |list| ==> StreamPids(stream, ts, kind, list, cas)[i].valid
  {
  }

  function CaPidsOf(cat: seq<Ca>): (r: seq<nat>)
    ensures |r| == |cat|
  {
    seq(|cat|, i requires 0 <= i < |cat| => cat[i].pid)
  }

  lemma CaPidsAre(cat: seq<Ca>)
    ensures Elements(CaPidsOf(cat)) == CaPidSet(cat)
    ensures forall p :: Elements([p] + CaPidsOf(cat)) == {p} + CaPidSet(cat)
  {
    var r := CaPidsOf(cat);
    forall c | c in cat ensures c.pid in r {
      var i :| 0 <= i < |cat| && cat[i] == c;
      assert r[i] == c.pid;
    }
  }

  lemma TablesStep(d: StreamData, list: seq<nat>, tables: Tables, n: nat)
    requires n < |list| && StartsWithPat(list)
    ensures var t, u := AfterTables(d, list, tables, n), AfterTables(d, list, tables, n + 1);
            && t.data.slotId == d.slotId && t.data.channel == d.channel
            && (n == 0 ==> t.progs == []) && (list[n] == CAT_PID ==> t.emm == [])
            && (n == 0 ==> u == t.(data := t.data.(transportStreamId := tables.pat.transportStreamId),
                                   progs := t.progs + PatTrees(t.data, tables.pat.programs)))
            && (n > 0 ==> u == if list[n] == CAT_PID
                               then t.(emm := t.emm + CaTrees(t.data.slotId, t.data.channel, EmmPid, tables.cat))
                                 else t)
  {
    assert list[..n + 1] == list[..n] + [list[n]];
    if n == 0 {
      assert list[..1] == [PAT_PID];
      assert [] + PatTrees(d, tables.pat.programs) == PatTrees(d, tables.pat.programs);
    } else if list[n] == CAT_PID {
      assert CAT_PID !in list[..n] by {
        forall i | 0 <= i < n ensures list[..n][i] < list[n] { }
      }
    }
  }

  /** Looks at the PIDs that have a fixed meaning, in order; returns the PIDs they account for. */
  method ReadTables(info: TsInfo, src: nat, list: seq<nat>, tables: Tables, ghost s0: StreamShape, ghost d: StreamData)
    returns (code: Code, parsed: seq<nat>, ghost s: StreamShape)
    requires info.Valid() && Built(info.streams, info.progs, info.pids, src, s0, EmptyTree(d))
    requires StartsWithPat(list)
    modifies info`streams, info`progs, info`pids, info`pidBlock
    ensures info.Valid() && |info.streams| == |old(info.streams)|
    ensures code == Success ==>
              && Recorded(parsed, list, tables.cat, |list|) && |parsed| == TableRecords(list, tables.cat)
              && Built(info.streams, info.progs, info.pids, src, s, AfterTables(d, list, tables, |list|))
    ensures code == Success <==> TablesOk(RoomOf(old(info.progs)), RoomOf(old(info.pids)), list, tables, info.realloc)
    ensures code == Success ==> RoomOf(info.pids) == CatRoom(RoomOf(old(info.pids)), list, tables)
  {
    hide Built, StartsWithPat, Recorded, AfterTables, TablesOk, CatRoom, TableRecords, Served, RoomOf, PidsLess;
    code, parsed, s := Success, [], s0;
    TablesStart(d, list, tables);
    ghost var g0, r0 := RoomOf(info.progs), RoomOf(info.pids);
    NoTablesYet(g0, r0, list, tables, info.realloc);
    var i := 0;
    while i < |list|
      invariant 0 <= i <= |list| && code == Success && info.Valid() && |info.streams| == |old(info.streams)|
      invariant Recorded(parsed, list, tables.cat, i) && |parsed| == TableRecords(list[..i], tables.cat)
      invariant Built(info.streams, info.progs, info.pids, src, s, AfterTables(d, list, tables, i))
      invariant TablesOk(g0, r0, list[..i], tables, info.realloc)
      invariant RoomOf(info.pids) == CatRoom(r0, list[..i], tables) && (i == 0 ==> RoomOf(info.progs) == g0)
    {
      TablesStep(d, list, tables, i);
      EachTableOnce(parsed, list, tables.cat, i);
      TablesNext(g0, r0, list, tables, i, parsed, info.realloc);
      if TablesOk(g0, r0, list, tables, info.realloc) {
        TablesPart(g0, r0, list, tables, i + 1, info.realloc);
      }
      ghost var t := AfterTables(d, list, tables, i);
      var pid := Masked(list[i]);
      var more: seq<nat> := [];
      var known := PidMap.IsPidExist(pid, parsed);
      if !known {
        if pid == PAT_PID {
          if tables.patCode != Success {
            return tables.patCode, parsed, s;
          }
          code, s := AddPat(info, src, tables.pat, s, t);
          if code != Success {
            return;
          }
          more := [PAT_PID];
        } else if pid == CAT_PID {
          if tables.catCode != Success {
            return tables.catCode, parsed, s;
          }
          code, s := AddCat(info, src, tables.cat, s, t);
          if code != Success {
            return;
          }
          more := [CAT_PID] + CaPidsOf(tables.cat);
          CaPidsAre(tables.cat);
        } else if pid == SDT_PID {
          if tables.sdtCode != Success {
            return tables.sdtCode, parsed, s;
          }
          more := [SDT_PID];
        } else if pid == NIT_PID {
          more := [NIT_PID];
        }
      }
      RecordedStep(parsed, list, tables.cat, i, more);
      parsed := parsed + more;
      i := i + 1;
    }
    assert list[..i] == list;
  }

  lemma TablesStart(d: StreamData, list: seq<nat>, tables: Tables)
    ensures Recorded([], list, tables.cat, 0) && AfterTables(d, list, tables, 0) == EmptyTree(d)
  {
  }

  // ---------------------------------------------------------------- the loop over the PMTs

  /** The tree once the first n programs have been looked up. */
  function AfterPmts(d: StreamData, list: seq<nat>, tables: Tables, n: nat): (r: StreamTree)
    ensures r.StreamNode?
  {
    var t := AfterTables(d, list, tables, |list|);
    StreamNode(t.data, ProgsFound(d, tables.pat.programs, list, tables.pmt, n), t.emm, t.other)
  }

  /** The PIDs of a PMT in the order in which the scan records them. */
  function EsPidsOf(es: seq<PmtEs>): seq<nat> {
    if es == [] then []
    else EsPidsOf(es[..|es| - 1]) + [es[|es| - 1].pid] + CaPidsOf(es[|es| - 1].cas)
  }

  function PmtPidsOf(pmt: Pmt): seq<nat> {
    [pmt.pcrPid] + EsPidsOf(pmt.es) + CaPidsOf(pmt.cas)
  }

  lemma {:induction false} EsPidsAre(es: seq<PmtEs>)
    ensures Elements(EsPidsOf(es)) == EsPidSet(es)
  {
    if es != [] {
      var last := es[|es| - 1];
      EsPidsAre(es[..|es| - 1]);
      CaPidsAre(last.cas);
      ElementsJoin(EsPidsOf(es[..|es| - 1]), [last.pid]);
      ElementsJoin(EsPidsOf(es[..|es| - 1]) + [last.pid], CaPidsOf(last.cas));
    }
  }

  lemma ElementsJoin(a: seq<nat>, b: seq<nat>)
    ensures Elements(a + b) == Elements(a) + Elements(b)
  {
  }

  lemma PmtPidsAre(pmt: Pmt, pmtPid: nat)
    ensures Elements(PmtPidsOf(pmt) + [pmtPid]) == PmtPidSet(pmt) + {pmtPid}
  {
    hide Elements, EsPidsOf, EsPidSet, CaPidsOf, CaPidSet;
    EsPidsAre(pmt.es);
    CaPidsAre(pmt.cas);
    ElementsJoin([pmt.pcrPid], EsPidsOf(pmt.es));
    ElementsJoin([pmt.pcrPid] + EsPidsOf(pmt.es), CaPidsOf(pmt.cas));
    ElementsJoin(PmtPidsOf(pmt), [pmtPid]);
    OneElement(pmt.pcrPid);
    OneElement(pmtPid);
  }

  lemma OneElement(p: nat)
    ensures Elements([p]) == {p}
  {
  }

  /** Where the walk along the programs of a built stream stands, and what it finds there. */
  lemma {:induction false} ProgramMet(streams: seq<Stream>, progs: seq<Prog>, pids: seq<Pid>, src: nat, s: StreamShape,
                                      t: StreamTree, i: nat)
    requires Built(streams, progs, pids, src, s, t) && i < |t.progs|
    ensures i < |s.progs| && src < |streams| && s.progs[i].slot < |progs|
    ensures t.progs[i].ProgNode? && progs[s.progs[i].slot].body.data == t.progs[i].data
    ensures i == 0 ==> s.progs[0].slot == streams[src].body.progHead
    ensures i + 1 < |t.progs| ==> progs[s.progs[i].slot].next == s.progs[i + 1].slot
  {
    hide PidAt, PidsAt, ProgScan;
    assert ProgAt(progs, pids, s.progs[i], t.progs[i], src, false);
    var c := ProgSlots(s.progs);
    assert progs[c[i]].next == Follower(c, i);
  }

  lemma PmtsStep(d: StreamData, list: seq<nat>, tables: Tables, n: nat)
    requires n < |tables.pat.programs|
    ensures var t, u, e := AfterPmts(d, list, tables, n), AfterPmts(d, list, tables, n + 1), tables.pat.programs[n];
            && |t.progs| == |tables.pat.programs| && t.progs[n] == PatTree(d, e)
            && u == if e.pmtPid in list then t.(progs := t.progs[n := PmtTree(t.progs[n].data, tables.pmt(n))]) else t
  {
    var t, u := AfterPmts(d, list, tables, n), AfterPmts(d, list, tables, n + 1);
    assert u.progs == if tables.pat.programs[n].pmtPid in list
                      then t.progs[n := PmtTree(t.progs[n].data, tables.pmt(n))] else t.progs;
  }

  method AddPmt(info: TsInfo, src: nat, i: nat, prog: nat, pmt: Pmt, ghost s0: StreamShape, ghost t: StreamTree)
    returns (code: Code, ghost s: StreamShape)
    requires info.Valid() && Built(info.streams, info.progs, info.pids, src, s0, t) && t.StreamNode?
    requires i < |t.progs| && i < |s0.progs| && prog == s0.progs[i].slot
    requires t.progs[i].ProgNode? && t.progs[i].pcr == [] && t.progs[i].es == [] && t.progs[i].ps == []
    modifies info`progs, info`pids, info`pidBlock
    ensures info.Valid()
    ensures code == Success ==>
              && |s.progs| == |s0.progs| && s.progs[i].slot == prog
              && Built(info.streams, info.progs, info.pids, src, s,
                       t.(progs := t.progs[i := PmtTree(t.progs[i].data, pmt)]))
    ensures code == Success <==>
              WithinLimits(pmt) && Served(RoomOf(old(info.pids)), PmtSlots(pmt), PIDS_PER_GROWTH, info.realloc)
    ensures code == Success ==> RoomOf(info.pids) == PidsLess(RoomOf(old(info.pids)), PmtSlots(pmt))
  {
    hide Built, PmtEntered, Clean, PmtTree, Granted, Served, RoomOf, Grown, PidsLess, PmtSlots;
    ghost var g0, p0 := info.progs, info.pids;
    GrantedIsServed(p0, PmtSlots(pmt), PIDS_PER_GROWTH, info.realloc);
    ProgInRange(info.streams, g0, p0, src, s0, t, i);
    BuiltNode(info.streams, g0, p0, src, s0, t);
    s := s0;
    var list;
    code, list := SetPmt(info, prog, pmt);
    if code == Success {
      PmtListed(g0, info.progs, p0, info.pids, prog, list, pmt);
      PmtRoomAfter(g0, info.progs, p0, info.pids, prog, list, pmt);
      BuiltByPmt(info.streams, g0, info.progs, p0, info.pids, src, s0, t, i, list, pmt);
      s := s0.(progs := s0.progs[i := PmtShape(prog, list, pmt)]);
    }
  }

  lemma PmtListed(g0: seq<Prog>, g1: seq<Prog>, p0: seq<Pid>, p1: seq<Pid>, prog: nat, list: seq<nat>, pmt: Pmt)
    requires PmtEntered(g0, g1, p0, p1, prog, list, pmt)
    ensures |list| == PmtSlots(pmt)
  {
  }

  lemma PmtRoomAfter(g0: seq<Prog>, g1: seq<Prog>, p0: seq<Pid>, p1: seq<Pid>, prog: nat, list: seq<nat>, pmt: Pmt)
    requires PmtEntered(g0, g1, p0, p1, prog, list, pmt)
    requires |p1| == Grown(RoomOf(p0), PmtSlots(pmt), PIDS_PER_GROWTH).len
    ensures RoomOf(p1) == PidsLess(RoomOf(p0), PmtSlots(pmt))
  {
    hide RoomOf, Grown, PmtSlots, PmtShape, UsedByProg, ApartProg, ProgAt, PmtTree, Less, Elements, NoDup;
    RoomAfter(p0, p1, list, PIDS_PER_GROWTH);
  }

  lemma ProgInRange(streams: seq<Stream>, progs: seq<Prog>, pids: seq<Pid>, src: nat, s: StreamShape, t: StreamTree,
                    i: nat)
    requires Built(streams, progs, pids, src, s, t) && i < |s.progs|
    ensures s.progs[i].slot < |progs|
  {
    hide PidAt, PidsAt, ProgScan;
  }

  /**
    Records more PIDs. The program does not look whether the list is full: the records behind its
    8191 cells are written over its count, and what follows from that is not modelled.
   */
  function Noted(parsed: seq<nat>, more: seq<nat>): seq<nat> {
    var all := parsed + more;
    if |all| <= RECORDS_MAX then all else all[..RECORDS_MAX]
  }

  lemma {:induction false} EsPidsCount(es: seq<PmtEs>)
    ensures |EsPidsOf(es)| == |es| + EcmsIn(es)
  {
    if es != [] {
      EsPidsCount(es[..|es| - 1]);
    }
  }

  /** The PIDs recorded for program i, and how many they are. */
  ghost predicate PmtNoted(more: seq<nat>, list: seq<nat>, tables: Tables, i: nat)
    requires i < |tables.pat.programs|
  {
    if tables.pat.programs[i].pmtPid in list
    then
      var pmt := tables.pmt(i);
      && Elements(more) == PmtPidSet(pmt) + {tables.pat.programs[i].pmtPid}
      && |more| == 2 + |pmt.es| + EcmsIn(pmt.es) + |pmt.cas|
    else more == []
  }

  /** One round: looks up the PMT of program i, which is in slot `at`, if its PID was seen. */
  method LookUpPmt(info: TsInfo, src: nat, i: nat, at: nat, list: seq<nat>, tables: Tables, parsed0: seq<nat>,
                   ghost s0: StreamShape, ghost d: StreamData)
    returns (code: Code, parsed: seq<nat>, ghost s: StreamShape, ghost more: seq<nat>)
    requires info.Valid() && i < |tables.pat.programs| && i < |s0.progs| && at == s0.progs[i].slot
    requires Built(info.streams, info.progs, info.pids, src, s0, AfterPmts(d, list, tables, i))
    requires |parsed0| <= RECORDS_MAX
    modifies info`progs, info`pids, info`pidBlock
    ensures info.Valid()
    ensures code == Success ==>
              && |s.progs| == |s0.progs| && s.progs[i].slot == at
              && parsed == Noted(parsed0, more) && PmtNoted(more, list, tables, i)
              && Built(info.streams, info.progs, info.pids, src, s, AfterPmts(d, list, tables, i + 1))
    ensures code == Success <==>
              (PmtSeen(list, tables, i) ==> PmtOk(RoomOf(old(info.pids)), tables, i, info.realloc))
    ensures code == Success ==>
              RoomOf(info.pids) == if PmtSeen(list, tables, i)
                                   then PidsLess(RoomOf(old(info.pids)), PmtSlots(tables.pmt(i)))
                                   else RoomOf(old(info.pids))
  {
    hide Built, AfterPmts, Elements, PmtTree, PmtPidSet, Served, RoomOf, PidsLess, PmtSlots, WithinLimits;
    code, parsed, s, more := Success, parsed0, s0, [];
    ghost var t := AfterPmts(d, list, tables, i);
    PmtsStep(d, list, tables, i);
    ProgramMet(info.streams, info.progs, info.pids, src, s, t, i);
    var pmtPid := info.progs[at].body.data.pmtPid;
    var seen := PidMap.IsPidExist(pmtPid, list);
    if seen {
      if tables.pmtCode(i) != Success {
        return tables.pmtCode(i), parsed, s, more;
      }
      var pmt := tables.pmt(i);
      code, s := AddPmt(info, src, i, at, pmt, s, t);
      if code != Success {
        return;
      }
      PmtPidsAre(pmt, pmtPid);
      EsPidsCount(pmt.es);
      more := PmtPidsOf(pmt) + [pmtPid];
      parsed := Noted(parsed, PmtPidsOf(pmt) + [pmtPid]);
    }
    assert parsed0 + [] == parsed0;
  }

  /**
    Looks up the PMT of every program whose PMT PID was seen, and records the PIDs it names; `inside`
    says that the list has room for all records.
   */
  method ReadPmts(info: TsInfo, src: nat, list: seq<nat>, tables: Tables, parsed0: seq<nat>, ghost s0: StreamShape,
                  ghost d: StreamData)
    returns (code: Code, parsed: seq<nat>, ghost inside: bool, ghost s: StreamShape)
    requires info.Valid() && list != [] && |parsed0| <= RECORDS_MAX
    requires Built(info.streams, info.progs, info.pids, src, s0, AfterTables(d, list, tables, |list|))
    modifies info`progs, info`pids, info`pidBlock
    ensures info.Valid()
    ensures code == Success ==>
              && (inside <==> |parsed0| + PmtRecords(list, tables, |tables.pat.programs|) <= RECORDS_MAX)
              && (inside ==> Elements(parsed) == Elements(parsed0) + PmtSet(tables.pat.programs, list, tables.pmt,
                                                                            |tables.pat.programs|))
              && Built(info.streams, info.progs, info.pids, src, s, AfterPmts(d, list, tables, |tables.pat.programs|))
    ensures code == Success <==>
              PmtsOk(RoomOf(old(info.pids)), list, tables, |tables.pat.programs|, info.realloc)
    ensures code == Success ==>
              RoomOf(info.pids) == PmtRoom(RoomOf(old(info.pids)), list, tables, |tables.pat.programs|)
  {
    hide Built, AfterPmts, AfterTables, Elements, PmtSet, PmtTree, PmtPidSet, RoomOf, PidsLess, PmtSlots, PmtOk,
      PmtsOk, PmtRoom, PmtRecords, Noted, PmtNoted, PmtSeen;
    code, parsed, s, inside := Success, parsed0, s0, true;
    PmtsStart(d, list, tables);
    ghost var programs := tables.pat.programs;
    ghost var r0 := RoomOf(info.pids);
    BuiltNode(info.streams, info.progs, info.pids, src, s, AfterPmts(d, list, tables, 0));
    var num := info.streams[src].body.progNum;
    var at := info.streams[src].body.progHead;
    assert num == |programs|;
    NoPmts(r0, list, tables, info.realloc);
    var i := 0;
    while i < num
      invariant 0 <= i <= num == |programs| && code == Success && info.Valid()
      invariant info.streams == old(info.streams) && |s.progs| == num
      invariant NotedSoFar(parsed0, parsed, inside, list, tables, i)
      invariant PmtsOk(r0, list, tables, i, info.realloc) && RoomOf(info.pids) == PmtRoom(r0, list, tables, i)
      invariant Built(info.streams, info.progs, info.pids, src, s, AfterPmts(d, list, tables, i))
      invariant 0 < i ==> at == s.progs[i - 1].slot && at < |info.progs|
      invariant 0 < i < num ==> info.progs[at].next == s.progs[i].slot
      invariant i == 0 ==> at == info.streams[src].body.progHead
    {
      ghost var t := AfterPmts(d, list, tables, i);
      PmtsStep(d, list, tables, i);
      ProgramMet(info.streams, info.progs, info.pids, src, s, t, i);
      if i != 0 {
        at := info.progs[at].next;
      }
      ghost var before, more := parsed, [];
      NotedIsShort(parsed0, parsed, inside, list, tables, i);
      code, parsed, s, more := LookUpPmt(info, src, i, at, list, tables, parsed, s, d);
      PmtsNext(r0, list, tables, i, info.realloc);
      if code != Success {
        if PmtsOk(r0, list, tables, num, info.realloc) {
          PmtsOkPart(r0, list, tables, i + 1, num, info.realloc);
        }
        return;
      }
      inside := NotedNext(parsed0, before, inside, list, tables, i, more);
      PmtsCount(d, list, tables, i + 1);
      ProgramMet(info.streams, info.progs, info.pids, src, s, AfterPmts(d, list, tables, i + 1), i);
      i := i + 1;
    }
  }

  /** What the list holds after the first i programs, as long as it has room. */
  ghost predicate NotedSoFar(parsed0: seq<nat>, parsed: seq<nat>, inside: bool, list: seq<nat>, tables: Tables,
                             i: nat) {
    && i <= |tables.pat.programs| && |parsed| <= RECORDS_MAX
    && (inside <==> |parsed0| + PmtRecords(list, tables, i) <= RECORDS_MAX)
    && (inside ==>
          && |parsed| == |parsed0| + PmtRecords(list, tables, i)
          && Elements(parsed) == Elements(parsed0) + PmtSet(tables.pat.programs, list, tables.pmt, i))
  }

  lemma NotedIsShort(parsed0: seq<nat>, parsed: seq<nat>, inside: bool, list: seq<nat>, tables: Tables, i: nat)
    requires NotedSoFar(parsed0, parsed, inside, list, tables, i)
    ensures |parsed| <= RECORDS_MAX
  {
  }

  lemma {:induction false} NotedNext(parsed0: seq<nat>, parsed: seq<nat>, inside: bool, list: seq<nat>, tables: Tables,
                                     i: nat, more: seq<nat>) returns (next: bool)
    requires NotedSoFar(parsed0, parsed, inside, list, tables, i) && i < |tables.pat.programs|
    requires PmtNoted(more, list, tables, i)
    ensures NotedSoFar(parsed0, Noted(parsed, more), next, list, tables, i + 1)
  {
    hide Elements, PmtSet, PmtPidSet;
    PmtSetStep(tables.pat.programs, list, tables.pmt, i);
    ElementsJoin(parsed, more);
    assert Elements([]) == {} by {
      NoElements();
    }
    next := inside && |parsed| + |more| <= RECORDS_MAX;
  }

  lemma NoElements()
    ensures Elements([]) == {}
  {
  }

  lemma PmtsNext(r: Room, list: seq<nat>, tables: Tables, i: nat, realloc: nat -> Realloc)
    ensures PmtsOk(r, list, tables, i + 1, realloc) <==>
              && PmtsOk(r, list, tables, i, realloc)
              && (PmtSeen(list, tables, i) ==> PmtOk(PmtRoom(r, list, tables, i), tables, i, realloc))
    ensures PmtRoom(r, list, tables, i + 1)
         == if PmtSeen(list, tables, i) then PidsLess(PmtRoom(r, list, tables, i), PmtSlots(tables.pmt(i)))
            else PmtRoom(r, list, tables, i)
  {
  }

  lemma PmtsCount(d: StreamData, list: seq<nat>, tables: Tables, n: nat)
    ensures |AfterPmts(d, list, tables, n).progs| == |tables.pat.programs| && AfterPmts(d, list, tables, n).other == []
  {
  }

  lemma PmtsStart(d: StreamData, list: seq<nat>, tables: Tables)
    requires list != []
    ensures AfterTables(d, list, tables, |list|) == AfterPmts(d, list, tables, 0)
    ensures |AfterPmts(d, list, tables, 0).progs| == |tables.pat.programs|
  {
    assert ProgsFound(d, tables.pat.programs, list, tables.pmt, 0) == PatTrees(d, tables.pat.programs);
  }

  lemma NoPmts(r: Room, list: seq<nat>, tables: Tables, realloc: nat -> Realloc)
    ensures PmtsOk(r, list, tables, 0, realloc) && PmtRoom(r, list, tables, 0) == r
    ensures forall parsed :: |parsed| <= RECORDS_MAX ==> NotedSoFar(parsed, parsed, true, list, tables, 0)
  {
  }

  lemma PmtSetStep(programs: seq<PatEntry>, list: seq<nat>, pmt: nat -> Pmt, i: nat)
    requires i < |programs|
    ensures PmtSet(programs, list, pmt, i + 1)
            == PmtSet(programs, list, pmt, i)
               + (if programs[i].pmtPid in list then PmtPidSet(pmt(i)) + {programs[i].pmtPid} else {})
  {
  }

  // ---------------------------------------------------------------- the scan

  /** What a successful scan leaves in the stream, for the map the scanner showed. */
  function ScanFound(d: StreamData, words: seq<bv32>, tables: Tables): StreamTree
    requires |words| == PidMap.WORDS
  {
    if PidMap.ListRead(words) == [] then EmptyTree(d) else TreeFound(d, WithoutNull(PidMap.ListRead(words)), tables)
  }

  /** The PIDs left over for the tree. */
  function LeftOf(list: seq<nat>, tables: Tables): seq<nat> {
    if list == [] || list[0] != PAT_PID
    then
      var kept := if |list| > MAX_OTHERPID_NUM then list[..MAX_OTHERPID_NUM] else list;
      Leftover(kept, {}, |kept|)
    else
      var programs := tables.pat.programs;
      Leftover(list, TableSet(list, tables.cat) + PmtSet(programs, list, tables.pmt, |programs|), |list|)
  }

  /** Everything the scan of the list fetches is there, and everything it requests is granted. */
  predicate ListOk(progs: Room, pids: Room, list: seq<nat>, tables: Tables, realloc: nat -> Realloc) {
    if list == [] || list[0] != PAT_PID then OthersOk(pids, 0, |LeftOf(list, tables)|, realloc)
    else ScanServed(progs, pids, list, tables, |LeftOf(list, tables)|, realloc)
  }

  /** When the scan succeeds, for pools with the given room. */
  predicate ScanOk(progs: Room, pids: Room, words: seq<bv32>, tables: Tables, realloc: nat -> Realloc)
    requires |words| == PidMap.WORDS
  {
    PidMap.ListRead(words) == [] || ListOk(progs, pids, WithoutNull(PidMap.ListRead(words)), tables, realloc)
  }

  /** The list of recorded PIDs has room for all that the scan records. */
  predicate RecordsFit(words: seq<bv32>, tables: Tables)
    requires |words| == PidMap.WORDS
  {
    Records(WithoutNull(PidMap.ListRead(words)), tables) <= RECORDS_MAX
  }

  /** The scan of a stream that has PIDs, given the list of them. */
  method ParseList(info: TsInfo, src: nat, list: seq<nat>, tables: Tables, ghost s0: StreamShape, ghost d: StreamData)
    returns (code: Code, ghost inside: bool, ghost s: StreamShape, ghost t: StreamTree)
    requires info.Valid() && Built(info.streams, info.progs, info.pids, src, s0, EmptyTree(d))
    requires list != [] && list[0] == PAT_PID ==> StartsWithPat(list)
    modifies info`streams, info`progs, info`pids, info`pidBlock
    ensures info.Valid() && |info.streams| == |old(info.streams)|
    ensures code == Success ==>
              && Built(info.streams, info.progs, info.pids, src, s, t)
              && (inside <==> Records(list, tables) <= RECORDS_MAX) && (inside ==> t == TreeFound(d, list, tables))
    ensures Records(list, tables) <= RECORDS_MAX ==>
              (code == Success <==>
                 ListOk(RoomOf(old(info.progs)), RoomOf(old(info.pids)), list, tables, info.realloc))
  {
    hide Built, StartsWithPat, AfterTables, AfterPmts, Elements, TreeFound, Leftover, TableSet, PmtSet;
    hide RoomOf, TablesOk, PmtsOk, OthersOk, CatRoom, PmtRoom, TableRecords, PmtRecords;
    s, inside, t := s0, true, EmptyTree(d);
    if list == [] || list[0] != PAT_PID {
      var kept := if |list| > MAX_OTHERPID_NUM then list[..MAX_OTHERPID_NUM] else list;
      NoTables(d, list, tables);
      code, s := AddOthers(info, src, kept, [], s, EmptyTree(d));
      t := TreeFound(d, list, tables);
      return;
    }
    ghost var g0, r0 := RoomOf(info.progs), RoomOf(info.pids);
    var parsed;
    code, parsed, s := ReadTables(info, src, list, tables, s, d);
    if code != Success {
      return;
    }
    FewTableRecords(g0, r0, list, tables, info.realloc);
    t := AfterTables(d, list, tables, |list|);
    BuiltNode(info.streams, info.progs, info.pids, src, s, t);
    ChainOfTables(info.streams, info.progs, info.pids, src, s, d, list, tables);
    var chain;
    code, chain := IndexList(info.streams[src].body.progNum, info.streams[src].body.progHead, info.progs);
    if code != Success {
      return;
    }
    ghost var n := |tables.pat.programs|;
    code, parsed, inside, s := ReadPmts(info, src, list, tables, parsed, s, d);
    if code != Success {
      return;
    }
    PmtsCount(d, list, tables, n);
    code, s := AddOthers(info, src, list, parsed, s, AfterPmts(d, list, tables, n));
    t := WithOthers(AfterPmts(d, list, tables, n), Leftover(list, Elements(parsed), |list|));
    if inside {
      AllTables(d, list, tables, parsed);
    }
  }

  /** The chain that the PAT has left is walked as long as it is short. */
  lemma {:induction false} ChainOfTables(streams: seq<Stream>, progs: seq<Prog>, pids: seq<Pid>, src: nat,
                                         s: StreamShape, d: StreamData, list: seq<nat>, tables: Tables)
    requires list != [] && Built(streams, progs, pids, src, s, AfterTables(d, list, tables, |list|))
    ensures src < |streams| && streams[src].body.progNum == |tables.pat.programs|
    ensures exists c :: Linked(progs, streams[src].body.progHead, c) && |c| == |tables.pat.programs|
  {
    hide Built, Linked;
    BuiltChains(streams, progs, pids, src, s, AfterTables(d, list, tables, |list|));
    assert Linked(progs, streams[src].body.progHead, ProgSlots(s.progs));
  }

  lemma NoTables(d: StreamData, list: seq<nat>, tables: Tables)
    requires list == [] || list[0] != PAT_PID
    ensures var kept := if |list| > MAX_OTHERPID_NUM then list[..MAX_OTHERPID_NUM] else list;
            && TreeFound(d, list, tables) == WithOthers(EmptyTree(d), Leftover(kept, Elements([]), |kept|))
            && LeftOf(list, tables) == Leftover(kept, Elements([]), |kept|)
  {
    assert Elements([]) == {};
    var kept := if |list| > MAX_OTHERPID_NUM then list[..MAX_OTHERPID_NUM] else list;
    var more := OtherTrees(d, Leftover(kept, {}, |kept|));
    assert [] + more == more;
  }

  lemma AllTables(d: StreamData, list: seq<nat>, tables: Tables, parsed: seq<nat>)
    requires list != [] && list[0] == PAT_PID
    requires Elements(parsed) == TableSet(list[..|list|], tables.cat)
                                 + PmtSet(tables.pat.programs, list, tables.pmt, |tables.pat.programs|)
    ensures TreeFound(d, list, tables)
            == WithOthers(AfterPmts(d, list, tables, |tables.pat.programs|), Leftover(list, Elements(parsed), |list|))
    ensures LeftOf(list, tables) == Leftover(list, Elements(parsed), |list|)
  {
    hide Leftover, PmtSet, TableSet, Elements;
    assert list[..|list|] == list;
    var more := OtherTrees(d, Leftover(list, Elements(parsed), |list|));
    assert [] + more == more;
  }

  /**
    TSP_ParseSI for a channel that has a scanner. Unless it records more PIDs than the list for them
    holds, it succeeds exactly if all it fetches is there and all it requests is granted, and the
    stream then holds exactly what the tables and the map of the scanner say.
   */
  method Parse(info: TsInfo, src: nat, words: seq<bv32>, tables: Tables, ghost s0: StreamShape)
    returns (code: Code, ghost inside: bool, ghost s: StreamShape, ghost t: StreamTree)
    requires info.Valid() && |words| == PidMap.WORDS
    requires src < |info.streams| ==>
               Built(info.streams, info.progs, info.pids, src, s0, EmptyTree(info.streams[src].body.data))
    modifies info`streams, info`progs, info`pids, info`pidBlock
    ensures info.Valid() && |info.streams| == |old(info.streams)|
    ensures code == Success ==>
              && src < |info.streams| && Built(info.streams, info.progs, info.pids, src, s, t)
              && (inside <==> RecordsFit(words, tables))
              && (inside ==> t == ScanFound(old(info.streams)[src].body.data, words, tables))
    ensures RecordsFit(words, tables) ==>
              (code == Success <==>
                 && src < |old(info.streams)|
                 && ScanOk(RoomOf(old(info.progs)), RoomOf(old(info.pids)), words, tables, info.realloc))
  {
    hide Built, StartsWithPat, TreeFound, PidMap.ListRead, ListOk, RoomOf, Records;
    s, inside, t := s0, true, MissingStream;
    if |info.streams| <= src {
      return InputParam, inside, s, t;
    }
    t := EmptyTree(info.streams[src].body.data);
    var cells := new nat[PidMap.PIDS];
    PidMap.GetAllPids(words, cells);
    var n := cells[PidMap.COUNT];
    if n == 0 {
      NoRecords(tables);
      return Success, inside, s, t;
    }
    var list := cells[..n];
    if cells[n - 1] == PidMap.NULL_PID {
      list := cells[..n - 1];
    }
    assert list == WithoutNull(PidMap.ListRead(words));
    ScannerOrder(words);
    code, inside, s, t := ParseList(info, src, list, tables, s, info.streams[src].body.data);
  }

  lemma NoRecords(tables: Tables)
    ensures Records([], tables) == 0
  {
  }

  lemma ScannerOrder(words: seq<bv32>)
    requires |words| == PidMap.WORDS
    ensures var list := WithoutNull(PidMap.ListRead(words));
            list != [] && list[0] == PAT_PID ==> StartsWithPat(list)
  {
    hide PidMap.Seen, PidMap.SeenBelow, PidMap.AllSeen;
    PidMap.ListIsExact(words);
    NullIsLast(words);
    WithoutNullOf(PidMap.ListRead(words));
  }
}
