/**
  Which slots the copy of a stream asks for, one request after the other, and when an ECM head is
  lost on the way. Only the valid flags of the live pool and the links of the source matter here.
 */
module TsAlloc {
  import opened TsPool

  /** A pool of which only the valid flags are left. */
  type Cell = Slot<()>

  function Bare(valid: bool): Cell { Slot(valid, 0, 0, ()) }

  function Flags<T>(pool: seq<Slot<T>>): (r: seq<Cell>)
    ensures |r| == |pool| && forall i :: 0 <= i < |pool| ==> r[i] == Bare(pool[i].valid)
  {
    seq(|pool|, (i: nat) requires i < |pool| => Bare(pool[i].valid))
  }

  /** The flags after some requests, and whether a head was lost. */
  datatype Alloc = Alloc(flags: seq<Cell>, lost: bool)

  /** A request of n slots makes the pool grow when fewer are free. */
  function Roomy(flags: seq<Cell>, n: nat): (r: seq<Cell>)
    ensures |flags| <= |r|
  {
    if |Free(flags)| < n then flags + seq(PIDS_PER_GROWTH, _ => Bare(false)) else flags
  }

  /** The slots given for a request of n: the first free ones. */
  function Chosen(flags: seq<Cell>, n: nat): seq<nat> {
    var free := Free(Roomy(flags, n));
    if n <= |free| then free[..n] else free
  }

  function Filled(flags: seq<Cell>, n: nat): (r: seq<Cell>)
    ensures |r| == |Roomy(flags, n)|
  {
    var g, list := Roomy(flags, n), Chosen(flags, n);
    seq(|g|, (i: nat) requires i < |g| => if i in list then Bare(true) else g[i])
  }

  function Released(flags: seq<Cell>, k: nat): seq<Cell> { if k < |flags| then flags[k := Bare(false)] else flags }

  /**
    The request for the ECMs of the PID in slot k of the source. The head is lost if the ECMs do not
    fit, the growth moves the pool, and the head in the source is not by chance the first slot chosen.
   */
  function EcmAlloc(a: Alloc, temp: seq<Pid>, k: nat, realloc: nat -> Realloc): Alloc {
    if k >= |temp| || temp[k].body.data.kind != EsPid then a
    else
      var n, list := temp[k].body.ecmNum, Chosen(a.flags, temp[k].body.ecmNum);
      var lost :=
        |Free(a.flags)| < n && realloc(|a.flags|) == Moves && (list != [] ==> temp[k].body.ecmHead != list[0]);
      Alloc(Filled(a.flags, n), a.lost || lost)
  }

  /** The requests of a chain of PIDs. */
  function ChainAlloc(a: Alloc, temp: seq<Pid>, path: seq<nat>, realloc: nat -> Realloc): Alloc {
    if path == [] then a
    else EcmAlloc(ChainAlloc(a, temp, path[..|path| - 1], realloc), temp, path[|path| - 1], realloc)
  }

  /** The PCR of a program, in the first slot of list; without one the last slot of list is given back. */
  function PcrAlloc(a: Alloc, list: seq<nat>, temp: seq<Pid>, pcr: nat, realloc: nat -> Realloc): Alloc {
    if pcr != INDEX_INVALID then EcmAlloc(a, temp, pcr, realloc)
    else if list != [] then a.(flags := Released(a.flags, list[|list| - 1]))
    else a
  }

  /** The requests of a program: its PCR and all its siblings at once, then the ECMs of each of them. */
  function ProgAlloc(a: Alloc, temp: seq<Pid>, t: ProgRec, realloc: nat -> Realloc): Alloc {
    var n := 1 + t.esNum + t.psNum;
    var a1 := PcrAlloc(a.(flags := Filled(a.flags, n)), Chosen(a.flags, n), temp, t.pcr, realloc);
    ChainAlloc(ChainAlloc(a1, temp, Path(temp, t.esHead, t.esNum), realloc),
               temp, Path(temp, t.psHead, t.psNum), realloc)
  }

  /** The requests of the programs in the slots of path. */
  function ProgsAlloc(a: Alloc, progs: seq<Prog>, temp: seq<Pid>, path: seq<nat>, realloc: nat -> Realloc): Alloc {
    if path == [] then a
    else
      var k := path[|path| - 1];
      var a1 := ProgsAlloc(a, progs, temp, path[..|path| - 1], realloc);
      if k < |progs| then ProgAlloc(a1, temp, progs[k].body, realloc) else a1
  }

  /** Copying a stream into a pool loses an ECM head. */
  predicate LosesHead(pids: seq<Pid>, progs: seq<Prog>, temp: seq<Pid>, t: StreamRec, realloc: nat -> Realloc) {
    ProgsAlloc(Alloc(Flags(pids), false), progs, temp, Path(progs, t.progHead, t.progNum), realloc).lost
  }

  // ---------------------------------------------------------------- when the requests are granted

  /** A path of the source stays inside its pool. */
  predicate InRange<T>(pool: seq<Slot<T>>, path: seq<nat>) { forall i :: 0 <= i < |path| ==> path[i] < |pool| }

  /** The PID in slot k of the source can be copied: its ECMs are there, and there is room for them. */
  predicate EcmOk(flags: seq<Cell>, temp: seq<Pid>, k: nat, realloc: nat -> Realloc) {
    && k < |temp|
    && (temp[k].body.data.kind == EsPid ==>
          && Granted(flags, temp[k].body.ecmNum, PIDS_PER_GROWTH, realloc)
          && InRange(temp, Path(temp, temp[k].body.ecmHead, temp[k].body.ecmNum)))
  }

  predicate ChainOk(flags: seq<Cell>, temp: seq<Pid>, path: seq<nat>, realloc: nat -> Realloc) {
    path == []
    || (var init, k := path[..|path| - 1], path[|path| - 1];
        && ChainOk(flags, temp, init, realloc)
        && EcmOk(ChainAlloc(Alloc(flags, false), temp, init, realloc).flags, temp, k, realloc))
  }

  predicate PcrOk(flags: seq<Cell>, temp: seq<Pid>, pcr: nat, realloc: nat -> Realloc) {
    pcr != INDEX_INVALID ==> EcmOk(flags, temp, pcr, realloc)
  }

  predicate ProgOk(flags: seq<Cell>, temp: seq<Pid>, t: ProgRec, realloc: nat -> Realloc) {
    var n := 1 + t.esNum + t.psNum;
    var a0 := Alloc(Filled(flags, n), false);
    var a1 := PcrAlloc(a0, Chosen(flags, n), temp, t.pcr, realloc);
    var a2 := ChainAlloc(a1, temp, Path(temp, t.esHead, t.esNum), realloc);
    && Granted(flags, n, PIDS_PER_GROWTH, realloc)
    && PcrOk(a0.flags, temp, t.pcr, realloc)
    && ChainOk(a1.flags, temp, Path(temp, t.esHead, t.esNum), realloc)
    && ChainOk(a2.flags, temp, Path(temp, t.psHead, t.psNum), realloc)
  }

  predicate ProgsOk(flags: seq<Cell>, progs: seq<Prog>, temp: seq<Pid>, path: seq<nat>, realloc: nat -> Realloc) {
    path == []
    || (var init, k := path[..|path| - 1], path[|path| - 1];
        && ProgsOk(flags, progs, temp, init, realloc)
        && k < |progs|
        && ProgOk(ProgsAlloc(Alloc(flags, false), progs, temp, init, realloc).flags, temp, progs[k].body, realloc))
  }

  /** EMMs and other PIDs are asked for in one request. */
  predicate TailsOk(flags: seq<Cell>, temp: seq<Pid>, t: StreamRec, realloc: nat -> Realloc) {
    && Granted(flags, t.emmNum + t.otherNum, PIDS_PER_GROWTH, realloc)
    && InRange(temp, Path(temp, t.emmHead, t.emmNum)) && InRange(temp, Path(temp, t.otherHead, t.otherNum))
  }

  /** A stream can be copied into the given pools. */
  predicate StreamOk(live: seq<Prog>, pids: seq<Pid>, progs: seq<Prog>, temp: seq<Pid>, t: StreamRec,
                     realloc: nat -> Realloc) {
    var path := Path(progs, t.progHead, t.progNum);
    && Granted(live, t.progNum, PROGS_PER_GROWTH, realloc)
    && ProgsOk(Flags(pids), progs, temp, path, realloc)
    && TailsOk(ProgsAlloc(Alloc(Flags(pids), false), progs, temp, path, realloc).flags, temp, t, realloc)
  }

  lemma GrantedOfFlags<T>(pool: seq<Slot<T>>, n: nat, growth: nat, realloc: nat -> Realloc)
    requires growth > 0
    ensures Granted(Flags(pool), n, growth, realloc) <==> Granted(pool, n, growth, realloc)
  {
    FreeOfFlags(pool);
  }

  lemma {:induction false} ChainOkPart(flags: seq<Cell>, temp: seq<Pid>, path: seq<nat>, n: nat,
                                       realloc: nat -> Realloc)
    requires n <= |path| && ChainOk(flags, temp, path, realloc)
    ensures ChainOk(flags, temp, path[..n], realloc)
    decreases |path|
  {
    hide EcmOk, ChainAlloc;
    if n == |path| {
      assert path[..n] == path;
    } else {
      ChainOkPart(flags, temp, path[..|path| - 1], n, realloc);
      assert path[..|path| - 1][..n] == path[..n];
    }
  }

  lemma {:induction false} ProgsOkPart(flags: seq<Cell>, progs: seq<Prog>, temp: seq<Pid>, path: seq<nat>, n: nat,
                                       realloc: nat -> Realloc)
    requires n <= |path| && ProgsOk(flags, progs, temp, path, realloc)
    ensures ProgsOk(flags, progs, temp, path[..n], realloc)
    decreases |path|
  {
    hide ProgOk, ProgsAlloc;
    if n == |path| {
      assert path[..n] == path;
    } else {
      ProgsOkPart(flags, progs, temp, path[..|path| - 1], n, realloc);
      assert path[..|path| - 1][..n] == path[..n];
    }
  }

  // ---------------------------------------------------------------- flags and pools

  lemma {:induction false} UnusedOfFlags<T>(pool: seq<Slot<T>>, n: nat)
    requires n <= |pool|
    ensures Unused(Flags(pool), n) == Unused(pool, n)
    decreases n
  {
    if n > 0 {
      UnusedOfFlags(pool, n - 1);
    }
  }

  lemma FreeOfFlags<T>(pool: seq<Slot<T>>)
    ensures Free(Flags(pool)) == Free(pool)
  {
    UnusedOfFlags(pool, |pool|);
  }

  /** What a request does to a real pool: it grows if it must, and the first free slots are taken. */
  lemma {:induction false} RequestIsChosen(pool: seq<Pid>, grown: seq<Pid>, n: nat, list: seq<nat>)
    requires FirstFree(grown, n, list)
    requires grown == if |Free(pool)| < n then pool + seq(PIDS_PER_GROWTH, _ => ZERO_PID) else pool
    ensures Flags(grown) == Roomy(Flags(pool), n) && list == Chosen(Flags(pool), n)
  {
    FreeOfFlags(pool);
    FreeOfFlags(grown);
    assert Flags(grown) == Roomy(Flags(pool), n);
  }

  lemma {:induction false} FilledIs(pool: seq<Pid>, grown: seq<Pid>, n: nat, list: seq<nat>, p1: seq<Pid>)
    requires FirstFree(grown, n, list)
    requires grown == if |Free(pool)| < n then pool + seq(PIDS_PER_GROWTH, _ => ZERO_PID) else pool
    requires |p1| == |grown|
    requires forall k :: 0 <= k < |p1| ==> (p1[k].valid <==> k in list || grown[k].valid)
    ensures Flags(p1) == Filled(Flags(pool), n) && list == Chosen(Flags(pool), n)
  {
    RequestIsChosen(pool, grown, n, list);
    assert forall k: nat :: k < |p1| ==> Filled(Flags(pool), n)[k] == Bare(p1[k].valid);
  }

  // ---------------------------------------------------------------- one loss is enough

  lemma EcmAllocAdds(a: Alloc, temp: seq<Pid>, k: nat, realloc: nat -> Realloc)
    ensures var b := EcmAlloc(a.(lost := false), temp, k, realloc);
            EcmAlloc(a, temp, k, realloc) == b.(lost := a.lost || b.lost)
  {
  }

  lemma {:induction false} ChainAllocAdds(a: Alloc, temp: seq<Pid>, path: seq<nat>, realloc: nat -> Realloc)
    ensures var b := ChainAlloc(a.(lost := false), temp, path, realloc);
            ChainAlloc(a, temp, path, realloc) == b.(lost := a.lost || b.lost)
  {
    hide EcmAlloc;
    if path != [] {
      var init, k := path[..|path| - 1], path[|path| - 1];
      ChainAllocAdds(a, temp, init, realloc);
      EcmAllocAdds(ChainAlloc(a, temp, init, realloc), temp, k, realloc);
      EcmAllocAdds(ChainAlloc(a.(lost := false), temp, init, realloc), temp, k, realloc);
    }
  }

  lemma {:induction false} ProgAllocAdds(a: Alloc, temp: seq<Pid>, t: ProgRec, realloc: nat -> Realloc)
    ensures var b := ProgAlloc(a.(lost := false), temp, t, realloc);
            ProgAlloc(a, temp, t, realloc) == b.(lost := a.lost || b.lost)
  {
    hide EcmAlloc, ChainAlloc, Chosen, Filled, Released, Path;
    var n := 1 + t.esNum + t.psNum;
    var a0 := a.(flags := Filled(a.flags, n));
    EcmAllocAdds(a0, temp, t.pcr, realloc);
    var a1 := PcrAlloc(a0, Chosen(a.flags, n), temp, t.pcr, realloc);
    var b1 := PcrAlloc(a0.(lost := false), Chosen(a.flags, n), temp, t.pcr, realloc);
    assert a1 == b1.(lost := a.lost || b1.lost);
    var es := Path(temp, t.esHead, t.esNum);
    ChainAllocAdds(a1, temp, es, realloc);
    ChainAllocAdds(b1, temp, es, realloc);
    ChainAllocAdds(ChainAlloc(a1, temp, es, realloc), temp, Path(temp, t.psHead, t.psNum), realloc);
    ChainAllocAdds(ChainAlloc(b1, temp, es, realloc), temp, Path(temp, t.psHead, t.psNum), realloc);
  }

  // ---------------------------------------------------------------- room enough for all requests

  /** How many slots are asked for, the slot that is given back included. */
  function EcmNeed(temp: seq<Pid>, k: nat): nat {
    if k < |temp| && temp[k].body.data.kind == EsPid then temp[k].body.ecmNum else 0
  }

  function ChainNeed(temp: seq<Pid>, path: seq<nat>): nat {
    if path == [] then 0 else ChainNeed(temp, path[..|path| - 1]) + EcmNeed(temp, path[|path| - 1])
  }

  function PcrNeed(temp: seq<Pid>, pcr: nat): nat { if pcr == INDEX_INVALID then 0 else EcmNeed(temp, pcr) }

  function ProgNeed(temp: seq<Pid>, t: ProgRec): nat {
    1 + t.esNum + t.psNum + PcrNeed(temp, t.pcr)
    + ChainNeed(temp, Path(temp, t.esHead, t.esNum)) + ChainNeed(temp, Path(temp, t.psHead, t.psNum))
  }

  function ProgsNeed(progs: seq<Prog>, temp: seq<Pid>, path: seq<nat>): nat {
    if path == [] then 0
    else
      var k := path[|path| - 1];
      ProgsNeed(progs, temp, path[..|path| - 1]) + (if k < |progs| then ProgNeed(temp, progs[k].body) else 0)
  }

  /** The links stay inside the source, and no request exceeds the 300 slots that a list can hold. */
  predicate PidSound(temp: seq<Pid>, k: nat) {
    && k < |temp|
    && (temp[k].body.data.kind == EsPid ==>
          && temp[k].body.ecmNum <= MAX_INDEX_LIST
          && InRange(temp, Path(temp, temp[k].body.ecmHead, temp[k].body.ecmNum)))
  }

  predicate ChainSound(temp: seq<Pid>, path: seq<nat>) { forall i :: 0 <= i < |path| ==> PidSound(temp, path[i]) }

  predicate ProgSound(temp: seq<Pid>, t: ProgRec) {
    && 1 + t.esNum + t.psNum <= MAX_INDEX_LIST && (t.pcr != INDEX_INVALID ==> PidSound(temp, t.pcr))
    && ChainSound(temp, Path(temp, t.esHead, t.esNum)) && ChainSound(temp, Path(temp, t.psHead, t.psNum))
  }

  predicate ProgsSound(progs: seq<Prog>, temp: seq<Pid>, path: seq<nat>) {
    forall i :: 0 <= i < |path| ==> path[i] < |progs| && ProgSound(temp, progs[path[i]].body)
  }

  /** With room for a request the pool stays as large as it is, and loses just the slots asked for. */
  lemma {:induction false} FilledInPlace(flags: seq<Cell>, n: nat)
    requires |Free(flags)| >= n
    ensures |Filled(flags, n)| == |flags| && |Free(flags)| <= |Free(Filled(flags, n))| + n
  {
    SizeOfElements(Chosen(flags, n));
    FreeAfterTaking(flags, Filled(flags, n), Elements(Chosen(flags, n)));
  }

  lemma {:induction false} EcmRoom(a: Alloc, temp: seq<Pid>, k: nat, realloc: nat -> Realloc)
    requires PidSound(temp, k) && |Free(a.flags)| >= EcmNeed(temp, k)
    ensures EcmOk(a.flags, temp, k, realloc)
    ensures var b := EcmAlloc(a, temp, k, realloc);
            b.lost == a.lost && |Free(a.flags)| <= |Free(b.flags)| + EcmNeed(temp, k)
  {
    FilledInPlace(a.flags, EcmNeed(temp, k));
  }

  lemma {:induction false} ChainRoom(a: Alloc, temp: seq<Pid>, path: seq<nat>, realloc: nat -> Realloc)
    requires ChainSound(temp, path) && |Free(a.flags)| >= ChainNeed(temp, path)
    ensures ChainOk(a.flags, temp, path, realloc)
    ensures var b := ChainAlloc(a, temp, path, realloc);
            b.lost == a.lost && |Free(a.flags)| <= |Free(b.flags)| + ChainNeed(temp, path)
  {
    hide EcmOk, EcmAlloc, EcmNeed, PidSound, Free;
    if path != [] {
      var init, k := path[..|path| - 1], path[|path| - 1];
      ChainRoom(a, temp, init, realloc);
      ChainAllocAdds(a, temp, init, realloc);
      EcmRoom(ChainAlloc(a, temp, init, realloc), temp, k, realloc);
    }
  }

  lemma {:induction false} ReleasedRoom(flags: seq<Cell>, k: nat)
    ensures |Free(flags)| <= |Free(Released(flags, k))|
  {
    FreeAfterTaking(flags, Released(flags, k), {});
  }

  lemma {:induction false} ProgRoom(a: Alloc, temp: seq<Pid>, t: ProgRec, realloc: nat -> Realloc)
    requires ProgSound(temp, t) && |Free(a.flags)| >= ProgNeed(temp, t)
    ensures ProgOk(a.flags, temp, t, realloc)
    ensures var b := ProgAlloc(a, temp, t, realloc);
            b.lost == a.lost && |Free(a.flags)| <= |Free(b.flags)| + ProgNeed(temp, t)
  {
    hide EcmOk, EcmAlloc, EcmNeed, PidSound, Free, ChainOk, ChainAlloc, ChainNeed, Filled, Chosen, Released, Path,
      ChainSound;
    var n, list := 1 + t.esNum + t.psNum, Chosen(a.flags, 1 + t.esNum + t.psNum);
    FilledInPlace(a.flags, n);
    var a0 := Alloc(Filled(a.flags, n), false);
    if t.pcr != INDEX_INVALID {
      EcmRoom(a0, temp, t.pcr, realloc);
    } else if list != [] {
      ReleasedRoom(a0.flags, list[|list| - 1]);
    }
    var a1 := PcrAlloc(a0, list, temp, t.pcr, realloc);
    ChainRoom(a1, temp, Path(temp, t.esHead, t.esNum), realloc);
    var a2 := ChainAlloc(a1, temp, Path(temp, t.esHead, t.esNum), realloc);
    ChainRoom(a2, temp, Path(temp, t.psHead, t.psNum), realloc);
    ProgAllocAdds(a, temp, t, realloc);
  }

  lemma {:induction false} ProgsRoom(a: Alloc, progs: seq<Prog>, temp: seq<Pid>, path: seq<nat>,
                                     realloc: nat -> Realloc)
    requires ProgsSound(progs, temp, path) && |Free(a.flags)| >= ProgsNeed(progs, temp, path) && !a.lost
    ensures ProgsOk(a.flags, progs, temp, path, realloc)
    ensures var b := ProgsAlloc(a, progs, temp, path, realloc);
            !b.lost && |Free(a.flags)| <= |Free(b.flags)| + ProgsNeed(progs, temp, path)
  {
    hide ProgOk, ProgAlloc, ProgNeed, ProgSound, Free;
    if path != [] {
      var init, k := path[..|path| - 1], path[|path| - 1];
      ProgsRoom(a, progs, temp, init, realloc);
      ProgRoom(ProgsAlloc(a, progs, temp, init, realloc), temp, progs[k].body, realloc);
    }
  }

  /** With room for everything asked for, a sound stream can be copied, and no head is lost. */
  lemma {:induction false} RoomSucceeds(live: seq<Prog>, pids: seq<Pid>, progs: seq<Prog>, temp: seq<Pid>, t: StreamRec,
                                        realloc: nat -> Realloc)
    requires var path := Path(progs, t.progHead, t.progNum);
             && ProgsSound(progs, temp, path)
             && t.progNum <= MAX_INDEX_LIST && |Free(live)| >= t.progNum
             && t.emmNum + t.otherNum <= MAX_INDEX_LIST
             && |Free(pids)| >= ProgsNeed(progs, temp, path) + t.emmNum + t.otherNum
    requires InRange(temp, Path(temp, t.emmHead, t.emmNum)) && InRange(temp, Path(temp, t.otherHead, t.otherNum))
    ensures StreamOk(live, pids, progs, temp, t, realloc) && !LosesHead(pids, progs, temp, t, realloc)
  {
    hide ProgsOk, ProgsAlloc, ProgsNeed, ProgsSound, Free, InRange;
    FreeOfFlags(pids);
    ProgsRoom(Alloc(Flags(pids), false), progs, temp, Path(progs, t.progHead, t.progNum), realloc);
  }

  /** A copy never succeeds beyond these limits; EMMs and other PIDs count together. */
  lemma {:induction false} CopyLimits(live: seq<Prog>, pids: seq<Pid>, progs: seq<Prog>, temp: seq<Pid>, t: StreamRec,
                                      realloc: nat -> Realloc)
    requires StreamOk(live, pids, progs, temp, t, realloc)
    ensures t.progNum <= MAX_INDEX_LIST && t.emmNum + t.otherNum <= MAX_INDEX_LIST
    ensures ProgsSound(progs, temp, Path(progs, t.progHead, t.progNum))
  {
    hide ProgsAlloc;
    OkIsSound(Flags(pids), progs, temp, Path(progs, t.progHead, t.progNum), realloc);
  }

  lemma {:induction false} OkIsSound(flags: seq<Cell>, progs: seq<Prog>, temp: seq<Pid>, path: seq<nat>,
                                     realloc: nat -> Realloc)
    requires ProgsOk(flags, progs, temp, path, realloc)
    ensures ProgsSound(progs, temp, path)
  {
    hide ProgOk, ProgSound, ProgsAlloc;
    if path != [] {
      var init, k := path[..|path| - 1], path[|path| - 1];
      OkIsSound(flags, progs, temp, init, realloc);
      ProgOkIsSound(ProgsAlloc(Alloc(flags, false), progs, temp, init, realloc).flags, temp, progs[k].body, realloc);
    }
  }

  lemma {:induction false} ProgOkIsSound(flags: seq<Cell>, temp: seq<Pid>, t: ProgRec, realloc: nat -> Realloc)
    requires ProgOk(flags, temp, t, realloc)
    ensures ProgSound(temp, t)
  {
    hide ChainOk, ChainSound, ChainAlloc, PcrAlloc, Filled, Chosen, Path, CanGrow;
    var a1 := PcrAlloc(Alloc(Filled(flags, 1 + t.esNum + t.psNum), false), Chosen(flags, 1 + t.esNum + t.psNum), temp,
                       t.pcr, realloc);
    ChainOkIsSound(a1.flags, temp, Path(temp, t.esHead, t.esNum), realloc);
    ChainOkIsSound(ChainAlloc(a1, temp, Path(temp, t.esHead, t.esNum), realloc).flags, temp,
                   Path(temp, t.psHead, t.psNum), realloc);
  }

  lemma {:induction false} ChainOkIsSound(flags: seq<Cell>, temp: seq<Pid>, path: seq<nat>, realloc: nat -> Realloc)
    requires ChainOk(flags, temp, path, realloc)
    ensures ChainSound(temp, path)
  {
    hide ChainAlloc, CanGrow;
    if path != [] {
      ChainOkIsSound(flags, temp, path[..|path| - 1], realloc);
    }
  }

  // ---------------------------------------------------------------- enough memory

  function UsedCells(flags: seq<Cell>): int { |flags| - |Free(flags)| }

  lemma GrantedCells(flags: seq<Cell>, n: nat, realloc: nat -> Realloc)
    requires n <= 300 && (forall k: nat :: realloc(k) != Fails) && UsedCells(flags) + n + 500 <= INDEX_INVALID
    ensures Granted(flags, n, PIDS_PER_GROWTH, realloc)
  {
    FreeAtMost(flags, |flags|);
    if |Free(flags)| < n {
      CanAlwaysGrow(|flags|, |Free(flags)|, n, PIDS_PER_GROWTH, realloc);
    }
  }

  lemma {:induction false} RoomyHas(flags: seq<Cell>, n: nat)
    requires n <= 300
    ensures |Free(Roomy(flags, n))| >= n && UsedCells(Roomy(flags, n)) == UsedCells(flags)
  {
    if |Free(flags)| < n {
      FreeAfterGrowth(flags, Bare(false), PIDS_PER_GROWTH);
    }
  }

  /** A request takes n more slots. */
  lemma {:induction false} FilledUses(flags: seq<Cell>, n: nat)
    requires n <= 300
    ensures UsedCells(Filled(flags, n)) == UsedCells(flags) + n && |Chosen(flags, n)| == n
    ensures forall k :: k in Chosen(flags, n) ==> k < |Filled(flags, n)| && Filled(flags, n)[k].valid
  {
    hide Free, Roomy;
    RoomyHas(flags, n);
    var g, list := Roomy(flags, n), Chosen(flags, n);
    FirstFreeProps(g, n, list);
    forall k | k in list ensures k < |g| && !g[k].valid {
      assert k in Elements(list);
    }
    FreeExactly(g, Filled(flags, n), list);
  }

  lemma {:induction false} EcmWithMemory(a: Alloc, temp: seq<Pid>, k: nat, realloc: nat -> Realloc)
    requires PidSound(temp, k) && (forall i: nat :: realloc(i) != Fails)
    requires UsedCells(a.flags) + EcmNeed(temp, k) + 500 <= INDEX_INVALID
    ensures EcmOk(a.flags, temp, k, realloc)
    ensures UsedCells(EcmAlloc(a, temp, k, realloc).flags) == UsedCells(a.flags) + EcmNeed(temp, k)
  {
    hide Granted, Filled, Free;
    if temp[k].body.data.kind == EsPid {
      GrantedCells(a.flags, EcmNeed(temp, k), realloc);
      FilledUses(a.flags, EcmNeed(temp, k));
    }
  }

  lemma {:induction false} ChainWithMemory(a: Alloc, temp: seq<Pid>, path: seq<nat>, realloc: nat -> Realloc)
    requires ChainSound(temp, path) && (forall i: nat :: realloc(i) != Fails)
    requires UsedCells(a.flags) + ChainNeed(temp, path) + 500 <= INDEX_INVALID
    ensures ChainOk(a.flags, temp, path, realloc)
    ensures UsedCells(ChainAlloc(a, temp, path, realloc).flags) == UsedCells(a.flags) + ChainNeed(temp, path)
  {
    hide EcmOk, EcmAlloc, EcmNeed, PidSound, UsedCells;
    if path != [] {
      var init, k := path[..|path| - 1], path[|path| - 1];
      ChainWithMemory(a, temp, init, realloc);
      ChainAllocAdds(a, temp, init, realloc);
      EcmWithMemory(ChainAlloc(a, temp, init, realloc), temp, k, realloc);
    }
  }

  lemma ReleasedUses(flags: seq<Cell>, k: nat)
    ensures UsedCells(Released(flags, k)) <= UsedCells(flags)
  {
    ReleasedRoom(flags, k);
  }

  lemma {:induction false} ProgWithMemory(a: Alloc, temp: seq<Pid>, t: ProgRec, realloc: nat -> Realloc)
    requires ProgSound(temp, t) && (forall i: nat :: realloc(i) != Fails)
    requires UsedCells(a.flags) + ProgNeed(temp, t) + 500 <= INDEX_INVALID
    ensures ProgOk(a.flags, temp, t, realloc)
    ensures UsedCells(ProgAlloc(a, temp, t, realloc).flags) <= UsedCells(a.flags) + ProgNeed(temp, t)
  {
    hide EcmOk, EcmAlloc, EcmNeed, PidSound, UsedCells, ChainOk, ChainAlloc, ChainNeed, Filled, Chosen, Released, Path,
      ChainSound, Granted;
    var n, list := 1 + t.esNum + t.psNum, Chosen(a.flags, 1 + t.esNum + t.psNum);
    GrantedCells(a.flags, n, realloc);
    FilledUses(a.flags, n);
    var a0 := Alloc(Filled(a.flags, n), false);
    if t.pcr != INDEX_INVALID {
      EcmWithMemory(a0, temp, t.pcr, realloc);
    } else if list != [] {
      ReleasedUses(a0.flags, list[|list| - 1]);
    }
    var a1 := PcrAlloc(a0, list, temp, t.pcr, realloc);
    ChainWithMemory(a1, temp, Path(temp, t.esHead, t.esNum), realloc);
    var a2 := ChainAlloc(a1, temp, Path(temp, t.esHead, t.esNum), realloc);
    ChainWithMemory(a2, temp, Path(temp, t.psHead, t.psNum), realloc);
    ProgAllocAdds(a, temp, t, realloc);
  }

  lemma {:induction false} ProgsWithMemory(a: Alloc, progs: seq<Prog>, temp: seq<Pid>, path: seq<nat>,
                                           realloc: nat -> Realloc)
    requires ProgsSound(progs, temp, path) && (forall i: nat :: realloc(i) != Fails) && !a.lost
    requires UsedCells(a.flags) + ProgsNeed(progs, temp, path) + 500 <= INDEX_INVALID
    ensures ProgsOk(a.flags, progs, temp, path, realloc)
    ensures UsedCells(ProgsAlloc(a, progs, temp, path, realloc).flags)
            <= UsedCells(a.flags) + ProgsNeed(progs, temp, path)
  {
    hide ProgOk, ProgAlloc, ProgNeed, ProgSound, UsedCells;
    if path != [] {
      var init, k := path[..|path| - 1], path[|path| - 1];
      ProgsWithMemory(a, progs, temp, init, realloc);
      ProgWithMemory(ProgsAlloc(a, progs, temp, init, realloc), temp, progs[k].body, realloc);
    }
  }

  /** While memory lasts, a sound stream within the limits can be copied into any pools, however full. */
  lemma {:induction false} CopyWithMemory(live: seq<Prog>, pids: seq<Pid>, progs: seq<Prog>, temp: seq<Pid>,
                                          t: StreamRec, realloc: nat -> Realloc)
    requires forall i: nat :: realloc(i) != Fails
    requires var path := Path(progs, t.progHead, t.progNum);
             && ProgsSound(progs, temp, path) && t.progNum <= 300 && t.emmNum + t.otherNum <= 300
             && |live| + t.progNum + 100 <= INDEX_INVALID
             && |pids| + ProgsNeed(progs, temp, path) + t.emmNum + t.otherNum + 500 <= INDEX_INVALID
    requires InRange(temp, Path(temp, t.emmHead, t.emmNum)) && InRange(temp, Path(temp, t.otherHead, t.otherNum))
    ensures StreamOk(live, pids, progs, temp, t, realloc)
  {
    hide ProgsOk, ProgsAlloc, ProgsNeed, ProgsSound, InRange, Granted;
    var path := Path(progs, t.progHead, t.progNum);
    GrantedWithMemory(live, t.progNum, PROGS_PER_GROWTH, realloc);
    ProgsWithMemory(Alloc(Flags(pids), false), progs, temp, path, realloc);
    var used := ProgsAlloc(Alloc(Flags(pids), false), progs, temp, path, realloc).flags;
    GrantedCells(used, t.emmNum + t.otherNum, realloc);
  }
}
