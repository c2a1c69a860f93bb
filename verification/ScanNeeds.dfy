/**
  What a scan asks for: which tables it fetches, how many slots it requests and in which order, and
  how many PIDs it records on the way.
 */
module ScanNeeds {
  import opened TsPool
  import opened TsAppend
  import opened TsBuild
  import opened TsPmt
  import PidMap

  const PAT_PID: nat := 0
  const CAT_PID: nat := 1
  const NIT_PID: nat := 0x10
  const SDT_PID: nat := 0x11

  /**
    What fetching and parsing each table yields: a code and, on success, the table. The PMT is
    asked for once per program, and the answers need not agree with each other.
   */
  datatype Tables = Tables(
    patCode: Code, pat: Pat, catCode: Code, cat: seq<Ca>, sdtCode: Code, pmtCode: nat -> Code, pmt: nat -> Pmt)

  /** The PMT of program i is asked for if its PID was seen. */
  predicate PmtSeen(list: seq<nat>, tables: Tables, i: nat) {
    i < |tables.pat.programs| && tables.pat.programs[i].pmtPid in list
  }

  // ---------------------------------------------------------------- PIDs recorded

  /** The list of recorded PIDs has that many cells; behind them lies its count. */
  const RECORDS_MAX: nat := PidMap.COUNT

  /** A PID is seen and looked at, not being recorded already as an EMM of the CAT. */
  predicate LookedAt(seen: seq<nat>, cat: seq<Ca>, p: nat) {
    p in seen && !(CAT_PID in seen && exists c :: c in cat && c.pid == p)
  }

  function TableRecords(seen: seq<nat>, cat: seq<Ca>): nat {
    (if PAT_PID in seen then 1 else 0) + (if CAT_PID in seen then 1 + |cat| else 0)
    + (if LookedAt(seen, cat, NIT_PID) then 1 else 0) + (if LookedAt(seen, cat, SDT_PID) then 1 else 0)
  }

  /** PCR, elementary streams, ECMs, and the PID of the PMT itself, whether they are recorded already or not. */
  function PmtRecords(list: seq<nat>, tables: Tables, n: nat): nat {
    if n == 0 then 0
    else
      var pmt := tables.pmt(n - 1);
      PmtRecords(list, tables, n - 1)
      + (if PmtSeen(list, tables, n - 1) then 2 + |pmt.es| + EcmsIn(pmt.es) + |pmt.cas| else 0)
  }

  /** How many PIDs a scan records, for a list of PIDs without the null PID. */
  function Records(list: seq<nat>, tables: Tables): nat {
    if list == [] || list[0] != PAT_PID then 0
    else TableRecords(list, tables.cat) + PmtRecords(list, tables, |tables.pat.programs|)
  }

  // ---------------------------------------------------------------- slots requested

  /** A request for n slots is granted. */
  predicate Served(r: Room, n: nat, growth: nat, realloc: nat -> Realloc)
    requires growth > 0
  {
    n <= MAX_INDEX_LIST && CanGrow(r.len, r.free, n, growth, realloc)
  }

  /** The pool once n slots were requested and taken. */
  function Less(r: Room, n: nat, growth: nat): Room
    requires growth > 0
  {
    var g := Grown(r, n, growth);
    Room(g.len, if g.free >= n then g.free - n else 0)
  }

  function PidsLess(r: Room, n: nat): Room { Less(r, n, PIDS_PER_GROWTH) }

  /** The PID pool once the first n programs have been looked up. */
  function PmtRoom(r: Room, list: seq<nat>, tables: Tables, n: nat): Room {
    if n == 0 then r
    else
      var r1 := PmtRoom(r, list, tables, n - 1);
      if PmtSeen(list, tables, n - 1) then PidsLess(r1, PmtSlots(tables.pmt(n - 1))) else r1
  }

  /** Every PMT asked for was fetched, keeps the limits, and finds room. */
  predicate PmtsOk(r: Room, list: seq<nat>, tables: Tables, n: nat, realloc: nat -> Realloc) {
    n == 0
    || (PmtsOk(r, list, tables, n - 1, realloc)
        && (PmtSeen(list, tables, n - 1) ==> PmtOk(PmtRoom(r, list, tables, n - 1), tables, n - 1, realloc)))
  }

  predicate PmtOk(r: Room, tables: Tables, i: nat, realloc: nat -> Realloc) {
    && tables.pmtCode(i) == Success && WithinLimits(tables.pmt(i))
    && Served(r, PmtSlots(tables.pmt(i)), PIDS_PER_GROWTH, realloc)
  }

  /** The PID pool after m single requests. */
  function OtherRoom(r: Room, m: nat): Room { if m == 0 then r else PidsLess(OtherRoom(r, m - 1), 1) }

  /** m PIDs can be appended one by one to a chain of `start`; the last one that is walked has 299 slots. */
  predicate OthersOk(r: Room, start: nat, m: nat, realloc: nat -> Realloc) {
    m == 0
    || (OthersOk(r, start, m - 1, realloc) && start + m - 1 < MAX_INDEX_LIST
        && Served(OtherRoom(r, m - 1), 1, PIDS_PER_GROWTH, realloc))
  }

  /** The EMMs of the CAT, if there are any. */
  function CatRoom(r: Room, list: seq<nat>, tables: Tables): Room {
    if CAT_PID in list && tables.cat != [] then PidsLess(r, |tables.cat|) else r
  }

  /** PAT, CAT and SDT can be fetched, and there is room for programs and EMMs. */
  predicate TablesOk(progs: Room, pids: Room, list: seq<nat>, tables: Tables, realloc: nat -> Realloc) {
    && (PAT_PID in list ==>
          tables.patCode == Success && Served(progs, |tables.pat.programs|, PROGS_PER_GROWTH, realloc))
    && (CAT_PID in list ==>
          tables.catCode == Success && (tables.cat == [] || Served(pids, |tables.cat|, PIDS_PER_GROWTH, realloc)))
    && (LookedAt(list, tables.cat, SDT_PID) ==> tables.sdtCode == Success)
  }

  /** A scan succeeds that finds the given list, with a PAT, and leaves `others` PIDs over. */
  predicate ScanServed(progs: Room, pids: Room, list: seq<nat>, tables: Tables, others: nat, realloc: nat -> Realloc) {
    var n, r := |tables.pat.programs|, CatRoom(pids, list, tables);
    && TablesOk(progs, pids, list, tables, realloc) && n < MAX_INDEX_LIST
    && PmtsOk(r, list, tables, n, realloc)
    && OthersOk(PmtRoom(r, list, tables, n), 0, others, realloc)
  }

  lemma {:induction false} PmtsOkPart(r: Room, list: seq<nat>, tables: Tables, m: nat, n: nat, realloc: nat -> Realloc)
    requires m <= n && PmtsOk(r, list, tables, n, realloc)
    ensures PmtsOk(r, list, tables, m, realloc)
    decreases n
  {
    if m < n {
      PmtsOkPart(r, list, tables, m, n - 1, realloc);
    }
  }

  lemma {:induction false} OthersOkPart(r: Room, start: nat, m: nat, n: nat, realloc: nat -> Realloc)
    requires m <= n && OthersOk(r, start, n, realloc)
    ensures OthersOk(r, start, m, realloc)
    decreases n
  {
    if m < n {
      OthersOkPart(r, start, m, n - 1, realloc);
    }
  }

  // ---------------------------------------------------------------- rooms of real pools

  lemma GrantedIsServed<T>(pool: seq<Slot<T>>, n: nat, growth: nat, realloc: nat -> Realloc)
    requires growth > 0
    ensures Granted(pool, n, growth, realloc) <==> Served(RoomOf(pool), n, growth, realloc)
  {
  }

  /** Taking the slots of list from a pool that has grown for them. */
  lemma {:induction false} RoomAfter<T>(p0: seq<Slot<T>>, p1: seq<Slot<T>>, list: seq<nat>, growth: nat)
    requires growth > 0 && |p1| == Grown(RoomOf(p0), |list|, growth).len
    requires |p0| <= |p1| && NoDup(list)
    requires forall k :: k in Elements(list) ==> k < |p1| && p1[k].valid && (k < |p0| ==> !p0[k].valid)
    requires forall k :: 0 <= k < |p1| && k !in Elements(list) ==> (p1[k].valid <==> k < |p0| && p0[k].valid)
    ensures RoomOf(p1) == Less(RoomOf(p0), |list|, growth)
  {
    hide Free, Elements, NoDup;
    FreeExactly(p0, p1, list);
    GrownIsEnough(RoomOf(p0), |list|, growth);
  }

  /** The same for slots appended to a chain. */
  lemma {:induction false} RoomAfterAppend<T>(p0: seq<Slot<T>>, p1: seq<Slot<T>>, c: seq<nat>, head1: nat,
                                              list: seq<nat>, entries: seq<Slot<T>>, growth: nat)
    requires growth > 0 && |p1| == Grown(RoomOf(p0), |list|, growth).len
    requires Appended(p0, p1, c, head1, list, entries) && AllInUse(p0, c)
    requires forall i :: 0 <= i < |entries| ==> entries[i].valid
    ensures RoomOf(p1) == Less(RoomOf(p0), |list|, growth)
  {
    hide RoomOf, Grown, Linked, Less;
    forall k | k in Elements(list) ensures k < |p1| && p1[k].valid {
      var i :| 0 <= i < |list| && list[i] == k;
      assert p1[list[i]] == entries[i].(next := Follower(list, i));
    }
    RoomAfter(p0, p1, list, growth);
  }

  // ---------------------------------------------------------------- enough memory

  /** How many slots are in use. */
  function UsedIn(r: Room): int { r.len - r.free }

  /** A request takes n slots, and is granted while memory lasts and the indices have room. */
  lemma {:induction false} ServedWithMemory(r: Room, n: nat, growth: nat, realloc: nat -> Realloc)
    requires growth > 0 && r.free <= r.len && n <= 300 && (forall k: nat :: realloc(k) != Fails)
    requires UsedIn(r) + n + growth <= INDEX_INVALID
    ensures Served(r, n, growth, realloc)
    ensures UsedIn(Less(r, n, growth)) == UsedIn(r) + n && Less(r, n, growth).free <= Less(r, n, growth).len
  {
    if r.free < n {
      CanAlwaysGrow(r.len, r.free, n, growth, realloc);
    }
    GrownIsEnough(r, n, growth);
  }

  /** How many slots the PMTs of the first n programs ask for. */
  function PmtsNeed(list: seq<nat>, tables: Tables, n: nat): nat {
    if n == 0 then 0
    else PmtsNeed(list, tables, n - 1) + (if PmtSeen(list, tables, n - 1) then PmtSlots(tables.pmt(n - 1)) else 0)
  }

  /** Every PMT asked for can be fetched, names at most 200 streams, 20 systems and 350 bytes, and 300 PIDs in all. */
  ghost predicate PmtsSound(list: seq<nat>, tables: Tables, n: nat) {
    forall i: nat :: i < n && PmtSeen(list, tables, i) ==>
      var pmt := tables.pmt(i);
      && tables.pmtCode(i) == Success && |pmt.es| <= 200 && |pmt.cas| <= 20 && |pmt.info| <= 350
      && (if pmt.pcrPid < 0x1FFF then 1 else 0) + |pmt.es| + |pmt.cas| + EcmsIn(pmt.es) <= 300
  }

  lemma {:induction false} PmtsWithMemory(r: Room, list: seq<nat>, tables: Tables, n: nat, realloc: nat -> Realloc)
    requires r.free <= r.len && PmtsSound(list, tables, n) && (forall k: nat :: realloc(k) != Fails)
    requires UsedIn(r) + PmtsNeed(list, tables, n) + 500 <= INDEX_INVALID
    ensures PmtsOk(r, list, tables, n, realloc)
    ensures var r1 := PmtRoom(r, list, tables, n);
            UsedIn(r1) == UsedIn(r) + PmtsNeed(list, tables, n) && r1.free <= r1.len
  {
    hide Served, Less, EcmsIn;
    if n > 0 {
      PmtsWithMemory(r, list, tables, n - 1, realloc);
      if PmtSeen(list, tables, n - 1) {
        ServedWithMemory(PmtRoom(r, list, tables, n - 1), PmtSlots(tables.pmt(n - 1)), PIDS_PER_GROWTH, realloc);
      }
    }
  }

  lemma {:induction false} OthersWithMemory(r: Room, m: nat, realloc: nat -> Realloc)
    requires r.free <= r.len && m <= 300 && (forall k: nat :: realloc(k) != Fails)
    requires UsedIn(r) + m + 500 <= INDEX_INVALID
    ensures OthersOk(r, 0, m, realloc)
    ensures var r1 := OtherRoom(r, m); UsedIn(r1) == UsedIn(r) + m && r1.free <= r1.len
  {
    hide Served, Less;
    if m > 0 {
      OthersWithMemory(r, m - 1, realloc);
      ServedWithMemory(OtherRoom(r, m - 1), 1, PIDS_PER_GROWTH, realloc);
    }
  }

  /**
    While memory lasts, a scan with a PAT succeeds if the tables can be fetched, keep their limits, and
    leave at most 300 PIDs over.
   */
  lemma {:induction false} ScanSucceeds(progs: Room, pids: Room, list: seq<nat>, tables: Tables, others: nat,
                                        realloc: nat -> Realloc)
    requires progs.free <= progs.len && pids.free <= pids.len && (forall k: nat :: realloc(k) != Fails)
    requires tables.patCode == Success && tables.catCode == Success && tables.sdtCode == Success
    requires |tables.pat.programs| < 300 && |tables.cat| <= 300 && others <= 300
    requires PmtsSound(list, tables, |tables.pat.programs|)
    requires UsedIn(progs) + |tables.pat.programs| + 100 <= INDEX_INVALID
    requires UsedIn(pids) + |tables.cat| + PmtsNeed(list, tables, |tables.pat.programs|) + others + 500 <= INDEX_INVALID
    ensures ScanServed(progs, pids, list, tables, others, realloc)
  {
    hide Served, Less, PmtsOk, OthersOk, PmtRoom, PmtsNeed, PmtsSound;
    ServedWithMemory(progs, |tables.pat.programs|, PROGS_PER_GROWTH, realloc);
    ServedWithMemory(pids, |tables.cat|, PIDS_PER_GROWTH, realloc);
    var r, n := CatRoom(pids, list, tables), |tables.pat.programs|;
    PmtsWithMemory(r, list, tables, n, realloc);
    OthersWithMemory(PmtRoom(r, list, tables, n), others, realloc);
  }
}
