/**
  A channel whose scan records more PIDs than the list for them holds.
 */
module ScanLimits {
  import opened TsPool
  import opened TsTree
  import opened TsBuild
  import opened TsPmt
  import opened TsScan
  import opened ScanNeeds
  import opened ParseSi

  const PROGRAMS: nat := 42
  const STREAMS: nat := 195

  /** 42 programs with PMTs of their own, which all name the same 195 elementary streams. */
  function SharedEs(): (r: seq<PmtEs>)
    ensures |r| == STREAMS && forall j: nat :: j < STREAMS ==> r[j] == PmtEs(2, 0x100 + j, [], [])
  {
    seq(STREAMS, (j: nat) => PmtEs(2, 0x100 + j, [], []))
  }

  function SharedPmt(): Pmt { Pmt(0x100, 0, SharedEs(), [], []) }

  function SharedPrograms(): (r: seq<PatEntry>)
    ensures |r| == PROGRAMS && forall i: nat :: i < PROGRAMS ==> r[i] == PatEntry(i + 1, 0x20 + i)
  {
    seq(PROGRAMS, (i: nat) => PatEntry(i + 1, 0x20 + i))
  }

  function SharedTables(): Tables {
    Tables(Success, Pat(1, SharedPrograms()), Success, [], Success, i => Success, i => SharedPmt())
  }

  /** The PIDs of that channel: the PAT, the PMTs, the elementary streams. */
  function SharedPid(k: nat): nat {
    if k == 0 then 0 else if k <= PROGRAMS then 0x1F + k else 0x100 + (k - PROGRAMS - 1)
  }

  function SharedList(): (r: seq<nat>)
    ensures |r| == 1 + PROGRAMS + STREAMS && forall k: nat :: k < |r| ==> r[k] == SharedPid(k)
  {
    seq(1 + PROGRAMS + STREAMS, (k: nat) => SharedPid(k))
  }

  lemma {:induction false} NoEcms(es: seq<PmtEs>)
    requires forall j :: 0 <= j < |es| ==> es[j].cas == []
    ensures EcmsIn(es) == 0
  {
    if es != [] {
      NoEcms(es[..|es| - 1]);
    }
  }

  lemma {:induction false} AllSeen(i: nat)
    requires i < PROGRAMS
    ensures PmtSeen(SharedList(), SharedTables(), i)
  {
    assert SharedList()[i + 1] == 0x20 + i;
  }

  /** Every program is recorded with its PCR, its streams and its PMT, although they are recorded already. */
  lemma {:induction false} RecordsAdd(list: seq<nat>, tables: Tables, n: nat)
    requires n <= PROGRAMS && list == SharedList() && tables == SharedTables()
    ensures PmtRecords(list, tables, n) == n * (2 + STREAMS)
  {
    if n > 0 {
      RecordsAdd(list, tables, n - 1);
      AllSeen(n - 1);
      NoEcms(SharedEs());
    }
  }

  // ---------------------------------------------------------------- the scan succeeds all the same

  ghost predicate NeverFails(realloc: nat -> Realloc) { forall n: nat :: realloc(n) != Fails }

  lemma {:induction false} OneGrowth(r: Room, n: nat, realloc: nat -> Realloc)
    requires NeverFails(realloc) && n <= MAX_INDEX_LIST && r.len + PIDS_PER_GROWTH <= INDEX_INVALID
    ensures Served(r, n, PIDS_PER_GROWTH, realloc) && PidsLess(r, n).len <= r.len + PIDS_PER_GROWTH
  {
    var r1 := Room(r.len + PIDS_PER_GROWTH, r.free + PIDS_PER_GROWTH);
    assert CanGrow(r1.len, r1.free, n, PIDS_PER_GROWTH, realloc);
    assert Grown(r1, n, PIDS_PER_GROWTH) == r1;
  }

  lemma {:induction false} PmtsServed(r: Room, list: seq<nat>, tables: Tables, n: nat, realloc: nat -> Realloc)
    requires n <= PROGRAMS && tables == SharedTables() && NeverFails(realloc) && r.len <= PIDS_PER_GROWTH
    ensures PmtsOk(r, list, tables, n, realloc)
    ensures PmtRoom(r, list, tables, n).len <= PIDS_PER_GROWTH * (n + 1)
  {
    hide Served, PidsLess, NeverFails;
    if n > 0 {
      PmtsServed(r, list, tables, n - 1, realloc);
      NoEcms(SharedEs());
      OneGrowth(PmtRoom(r, list, tables, n - 1), PmtSlots(SharedPmt()), realloc);
    }
  }

  lemma {:induction false} EsPidsHave(es: seq<PmtEs>, j: nat)
    requires j < |es|
    ensures es[j].pid in EsPidSet(es)
  {
    if j < |es| - 1 {
      EsPidsHave(es[..|es| - 1], j);
    }
  }

  lemma {:induction false} PmtSetHas(programs: seq<PatEntry>, list: seq<nat>, pmt: nat -> Pmt, n: nat, i: nat)
    requires i < n <= |programs| && programs[i].pmtPid in list
    ensures PmtPidSet(pmt(i)) + {programs[i].pmtPid} <= PmtSet(programs, list, pmt, n)
    decreases n
  {
    hide PmtPidSet;
    if i < n - 1 {
      PmtSetHas(programs, list, pmt, n - 1, i);
    }
  }

  lemma {:induction false} NoneLeft(list: seq<nat>, parsed: set<nat>, n: nat)
    requires n <= |list| && forall k :: 0 <= k < n ==> Masked(list[k]) in parsed
    ensures Leftover(list, parsed, n) == []
    decreases n
  {
    if n > 0 {
      NoneLeft(list, parsed, n - 1);
    }
  }

  lemma {:induction false} SharedIsNamed(k: nat)
    requires k < |SharedList()|
    ensures var list, programs := SharedList(), SharedPrograms();
            Masked(list[k]) in TableSet(list, []) + PmtSet(programs, list, SharedTables().pmt, |programs|)
  {
    hide PmtSet, EsPidSet;
    var list, programs := SharedList(), SharedPrograms();
    if k == 0 {
      assert list[0] == PAT_PID;
    } else if k <= PROGRAMS {
      AllSeen(k - 1);
      PmtSetHas(programs, list, SharedTables().pmt, |programs|, k - 1);
    } else {
      AllSeen(0);
      PmtSetHas(programs, list, SharedTables().pmt, |programs|, 0);
      EsPidsHave(SharedEs(), k - PROGRAMS - 1);
    }
  }

  /**
    The scan of that channel succeeds, in pools that start with 100 and 500 slots, with every chain
    within its limit and no PID left over; and it records 8275 PIDs, 84 more than the list of 8191 has cells.
   */
  lemma {:induction false} TooManyRecords(realloc: nat -> Realloc)
    requires NeverFails(realloc)
    ensures StartsWithPat(SharedList()) && LeftOf(SharedList(), SharedTables()) == []
    ensures ListOk(Room(100, 100), Room(500, 500), SharedList(), SharedTables(), realloc)
    ensures Records(SharedList(), SharedTables()) == 8275 > RECORDS_MAX
  {
    hide PmtsOk, PmtRoom, PmtRecords, PmtSet, Leftover, NeverFails;
    var list, tables := SharedList(), SharedTables();
    RecordsAdd(list, tables, PROGRAMS);
    PmtsServed(Room(500, 500), list, tables, PROGRAMS, realloc);
    forall k | 0 <= k < |list|
      ensures Masked(list[k]) in TableSet(list, []) + PmtSet(SharedPrograms(), list, tables.pmt, PROGRAMS)
    {
      SharedIsNamed(k);
    }
    NoneLeft(list, TableSet(list, []) + PmtSet(SharedPrograms(), list, tables.pmt, PROGRAMS), |list|);
    SharedListIs();
  }

  lemma SharedListIs()
    ensures var list := SharedList();
            && StartsWithPat(list) && PAT_PID in list && CAT_PID !in list && NIT_PID !in list && SDT_PID !in list
  {
    assert SharedList()[0] == PAT_PID;
  }
}
