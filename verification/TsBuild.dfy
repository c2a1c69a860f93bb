/**
  Filling the pools from parsed tables: programs from the PAT, EMMs from the CAT, other PIDs one
  by one, and the PIDs of a program from its PMT (TSP_SetInputPATInfo, TSP_SetInputCATInfo,
  TSP_SetInputOtherPIDInfo, TSP_SetInputPMTInfo).
 */
module TsBuild {
  import opened TsPool
  import opened TsTree
  import opened TsAppend

  datatype PatEntry = PatEntry(serviceId: nat, pmtPid: nat)
  datatype Pat = Pat(transportStreamId: nat, programs: seq<PatEntry>)

  /** A conditional access entry: a system and the PID of its ECMs or EMMs. */
  datatype Ca = Ca(casId: nat, pid: nat)

  datatype PmtEs = PmtEs(streamType: nat, pid: nat, cas: seq<Ca>, info: seq<nat>)
  datatype Pmt = Pmt(pcrPid: nat, version: nat, es: seq<PmtEs>, cas: seq<Ca>, info: seq<nat>)

  const MAX_ES_NUM_IN_PMT: nat := 200
  const MAX_CASYS_NUM_IN_PMT: nat := 20
  const MAX_PROGRAM_INFO_LEN: nat := 350
  const NULL_PID: nat := 0x1FFF

  // ---------------------------------------------------------------- fresh slots

  function NewPid(slot: nat, ts: nat, prog: nat, parent: nat, slotId: nat, channel: nat, kind: PidKind): Pid {
    Slot(true, slot, INDEX_INVALID,
         PidRec(ts, prog, parent, 0, INDEX_INVALID, PidData(slotId, channel, kind, 0, 0, 0, 0, [])))
  }

  /**
    TSP_InitInputPID: a PID takes its board slot and channel from its owner, which is a program, a
    stream or an elementary stream, depending on its kind.
   */
  function InitPid(streams: seq<Stream>, progs: seq<Prog>, pids: seq<Pid>, kind: PidKind, owner: nat, slot: nat): Pid {
    match kind
    case PcrPid | EsPid | PsEcmPid =>
      if owner >= |progs| then ZERO_PID
      else
        var b := progs[owner].body;
        NewPid(slot, b.ts, owner, INDEX_INVALID, b.data.slotId, b.data.channel, kind)
    case EmmPid | OtherPid =>
      if owner >= |streams| then ZERO_PID
      else
        var b := streams[owner].body;
        NewPid(slot, owner, INDEX_INVALID, INDEX_INVALID, b.data.slotId, b.data.channel, kind)
    case EsEcmPid =>
      if owner >= |pids| then ZERO_PID
      else
        var b := pids[owner].body;
        NewPid(slot, b.ts, b.prog, pids[owner].index, b.data.slotId, b.data.channel, kind)
    case _ => ZERO_PID
  }

  function InitProg(stream: Stream, ts: nat, slot: nat): Prog {
    Slot(true, slot, INDEX_INVALID,
         ProgRec(ts, INDEX_INVALID, 0, INDEX_INVALID, 0, INDEX_INVALID,
                 ProgData(stream.body.data.slotId, stream.body.data.channel, 0, 0, 0, 0, 0, 0, 0, [])))
  }

  function WithPid(p: Pid, pid: nat, casId: nat): Pid {
    p.(body := p.body.(data := p.body.data.(pid := pid, newPid := pid, casId := casId)))
  }

  /** No free slot looks like an elementary stream. */
  ghost predicate Clean(pids: seq<Pid>) {
    forall k :: 0 <= k < |pids| && !pids[k].valid ==> pids[k].body.data.kind != EsPid
  }

  lemma CleanAfterAppend(p0: seq<Pid>, grown: seq<Pid>, p1: seq<Pid>, last: nat, list: seq<nat>, entries: seq<Pid>)
    requires Clean(p0) && (grown == p0 || grown == p0 + seq(PIDS_PER_GROWTH, _ => ZERO_PID))
    requires AppendState(grown, p1, last, list, entries, |list|) && forall i :: 0 <= i < |entries| ==> entries[i].valid
    ensures Clean(p1)
  {
    assert Clean(grown);
    forall k | k in Elements(list) ensures k < |p1| && p1[k].valid {
      var j :| 0 <= j < |list| && list[j] == k;
      assert p1[list[j]] == entries[j].(next := Follower(list, j));
    }
    assert forall k :: 0 <= k < |p1| && k !in Elements(list) ==>
      p1[k].body == grown[k].body && p1[k].valid == grown[k].valid;
  }

  // ---------------------------------------------------------------- programs from the PAT

  function PatProg(stream: Stream, ts: nat, slot: nat, e: PatEntry): Prog {
    var p := InitProg(stream, ts, slot);
    p.(body := p.body.(data := p.body.data.(serviceId := e.serviceId, newServiceId := e.serviceId,
                                            pmtPid := e.pmtPid, newPmtPid := e.pmtPid)))
  }

  function PatProgs(stream: Stream, ts: nat, list: seq<nat>, programs: seq<PatEntry>): (r: seq<Prog>)
    requires |list| == |programs|
    ensures |r| == |list|
  {
    seq(|list|, i requires 0 <= i < |list| => PatProg(stream, ts, list[i], programs[i]))
  }

  /** The head of a chain of num slots once list has been appended. */
  function HeadAfter(num: nat, head: nat, list: seq<nat>): nat {
    if num == 0 && list != [] then list[0] else head
  }

  /** What a chain of num slots at head in p0 has become, provided it was well formed. */
  ghost predicate ChainGrew<T>(p0: seq<Slot<T>>, p1: seq<Slot<T>>, head: nat, num: nat, list: seq<nat>,
                               entries: seq<Slot<T>>) {
    forall c :: ChainOf(p0, head, num, c) ==> Appended(p0, p1, c, HeadAfter(num, head, list), list, entries)
  }

  /** Some well-formed chain hangs from head. */
  ghost predicate HasChain<T>(p0: seq<Slot<T>>, head: nat, num: nat) { exists c :: ChainOf(p0, head, num, c) }

  /** Some well-formed chain of fewer than 300 slots hangs from head. */
  ghost predicate ShortChain<T>(p0: seq<Slot<T>>, head: nat, num: nat) {
    num < MAX_INDEX_LIST && exists c :: ChainOf(p0, head, num, c)
  }

  /** The last slot of a chain, after the pool may have grown. */
  method LastOf<T>(pool: seq<Slot<T>>, num: nat, head: nat, ghost p0: seq<Slot<T>>) returns (code: Code, last: nat)
    requires |pool| <= INDEX_INVALID && |p0| <= |pool| && forall k :: 0 <= k < |p0| && p0[k].valid ==> pool[k] == p0[k]
    ensures code == Success ==> if num == 0 then last == INDEX_INVALID else last < |pool|
    ensures forall c :: ChainOf(p0, head, num, c) && num < MAX_INDEX_LIST ==>
              code == Success && (num > 0 ==> last == c[num - 1])
    ensures code == Success ==> num < MAX_INDEX_LIST
  {
    code, last := LastIndex(num, head, pool);
    forall c | ChainOf(p0, head, num, c) ensures Linked(pool, head, c) {
    }
  }

  lemma GrewWhenDone<T>(p0: seq<Slot<T>>, grown: seq<Slot<T>>, p1: seq<Slot<T>>, last: nat, list: seq<nat>,
                        entries: seq<Slot<T>>, head: nat, num: nat)
    requires Frame(p0, grown, {}) && |grown| <= INDEX_INVALID
    requires NoDup(list) && forall k :: k in Elements(list) ==> k < |grown| && !grown[k].valid
    requires AppendState(grown, p1, last, list, entries, |list|)
    requires num == 0 ==> last == INDEX_INVALID
    requires forall c :: ChainOf(p0, head, num, c) ==> num > 0 ==> last == c[num - 1]
    ensures ChainGrew(p0, p1, head, num, list, entries)
  {
    hide Appended, AppendState;
    forall c | ChainOf(p0, head, num, c) ensures Appended(p0, p1, c, HeadAfter(num, head, list), list, entries) {
      AppendDone(p0, grown, p1, last, list, entries, head, c, HeadAfter(num, head, list));
    }
  }

  function WithProgs(s: Stream, head: nat, num: nat): Stream {
    s.(body := s.body.(progHead := head, progNum := num))
  }

  function InStream(s: Stream, pat: Pat): Stream {
    s.(body := s.body.(data := s.body.data.(transportStreamId := pat.transportStreamId)))
  }

  /** The loop over the programs of the PAT: `last` ends the chain so far, or is INDEX_INVALID. */
  method EnterPrograms(info: TsInfo, ts: nat, last: nat, list: seq<nat>, programs: seq<PatEntry>)
    requires info.Valid() && ts < |info.streams| && |list| == |programs|
    requires NoDup(list) && forall k :: k in Elements(list) ==> k < |info.progs|
    requires last == INDEX_INVALID || last < |info.progs|
    modifies info`streams, info`progs
    ensures info.Valid()
    ensures info.streams == old(info.streams)[ts :=
              Headed(old(info.streams)[ts],
                     if last == INDEX_INVALID && list != [] then list[0] else old(info.streams)[ts].body.progHead)]
    ensures AppendState(old(info.progs), info.progs, last, list, PatProgs(old(info.streams)[ts], ts, list, programs),
                        |list|)
  {
    hide AppendState;
    ghost var stream, g1 := info.streams[ts], info.progs;
    ghost var entries := PatProgs(stream, ts, list, programs);
    AppendStart(g1, last, list, entries);
    var i := 0;
    while i < |list|
      invariant 0 <= i <= |list| && info.Valid()
      invariant info.streams == old(info.streams)[ts :=
                  Headed(stream, if last == INDEX_INVALID && i > 0 then list[0] else stream.body.progHead)]
      invariant AppendState(g1, info.progs, last, list, entries, i)
    {
      AppendSize(g1, info.progs, last, list, entries, i);
      ghost var before := info.progs;
      var slot := list[i];
      assert slot in Elements(list);
      if i == 0 {
        if last == INDEX_INVALID {
          info.streams := info.streams[ts := Headed(info.streams[ts], slot)];
        } else {
          info.progs := info.progs[last := info.progs[last].(next := slot)];
        }
      }
      info.progs := info.progs[slot := PatProg(info.streams[ts], ts, slot, programs[i]).(
                                 next := if i + 1 == |list| then INDEX_INVALID else list[i + 1])];
      AppendStep(g1, before, last, list, entries, i, info.progs);
      i := i + 1;
    }
    AppendSize(g1, info.progs, last, list, entries, |list|);
  }

  function Headed(s: Stream, head: nat): Stream {
    s.(body := s.body.(progHead := head))
  }

  /** TSP_SetInputPATInfo: appends the programs of the PAT to the programs of the stream. */
  method SetPat(info: TsInfo, ts: nat, pat: Pat) returns (code: Code, list: seq<nat>)
    requires info.Valid()
    modifies info`streams, info`progs
    ensures info.Valid()
    ensures code != Success ==> info.streams == old(info.streams) && Frame(old(info.progs), info.progs, {})
    ensures code == Success ==>
              && ts < |old(info.streams)|
              && var s := old(info.streams)[ts];
              && |list| == |pat.programs|
              && info.streams == old(info.streams)[ts :=
                   WithProgs(InStream(s, pat), HeadAfter(s.body.progNum, s.body.progHead, list),
                             s.body.progNum + |list|)]
              && ChainGrew(old(info.progs), info.progs, s.body.progHead, s.body.progNum, list,
                           PatProgs(s, ts, list, pat.programs))
    ensures code == Success ==>
              |info.progs| == Grown(RoomOf(old(info.progs)), |pat.programs|, PROGS_PER_GROWTH).len
    ensures ts < |old(info.streams)|
            && HasChain(old(info.progs), old(info.streams)[ts].body.progHead, old(info.streams)[ts].body.progNum)
            ==> (code == Success <==>
                   && Granted(old(info.progs), |pat.programs|, PROGS_PER_GROWTH, info.realloc)
                   && old(info.streams)[ts].body.progNum < MAX_INDEX_LIST)
    ensures ts < |old(info.streams)| && |pat.programs| <= MAX_INDEX_LIST && |pat.programs| <= |Free(old(info.progs))|
            && ShortChain(old(info.progs), old(info.streams)[ts].body.progHead, old(info.streams)[ts].body.progNum)
            ==> code == Success
  {
    hide AppendState, Appended, ChainOf, ChainGrew, Granted, Grown;
    list := [];
    if |info.streams| <= ts {
      return InputParam, list;
    }
    ghost var g0 := info.progs;
    var n := |pat.programs|;
    var stream := info.streams[ts];
    code, list := info.UnusedProgs(n);
    if code != Success {
      return;
    }
    FirstFreeProps(info.progs, n, list);
    var last;
    code, last := LastOf(info.progs, stream.body.progNum, stream.body.progHead, g0);
    if code == Success {
      EnterPat(info, ts, pat, last, list, g0);
    }
  }

  /** The part of SetPat that follows the checks. */
  method EnterPat(info: TsInfo, ts: nat, pat: Pat, last: nat, list: seq<nat>, ghost g0: seq<Prog>)
    requires info.Valid() && ts < |info.streams| && |list| == |pat.programs| && Frame(g0, info.progs, {})
    requires NoDup(list) && forall k :: k in Elements(list) ==> k < |info.progs| && !info.progs[k].valid
    requires var b := info.streams[ts].body;
             && (if b.progNum == 0 then last == INDEX_INVALID else last < |info.progs|)
             && (forall c :: ChainOf(g0, b.progHead, b.progNum, c) ==> b.progNum > 0 ==> last == c[b.progNum - 1])
    modifies info`streams, info`progs
    ensures info.Valid() && |info.progs| == |old(info.progs)|
    ensures var s := old(info.streams)[ts];
            && info.streams == old(info.streams)[ts :=
                 WithProgs(InStream(s, pat), HeadAfter(s.body.progNum, s.body.progHead, list), s.body.progNum + |list|)]
            && ChainGrew(g0, info.progs, s.body.progHead, s.body.progNum, list, PatProgs(s, ts, list, pat.programs))
  {
    hide AppendState, Appended, ChainOf, ChainGrew;
    ghost var g1 := info.progs;
    var stream := info.streams[ts];
    info.streams := info.streams[ts := InStream(stream, pat)];
    EnterPrograms(info, ts, last, list, pat.programs);
    var entered := info.streams[ts];
    info.streams := info.streams[ts := WithProgs(entered, entered.body.progHead, stream.body.progNum + |list|)];
    SameEntries(stream, pat, ts, list);
    AppendSize(g1, info.progs, last, list, PatProgs(stream, ts, list, pat.programs), |list|);
    GrewWhenDone(g0, g1, info.progs, last, list, PatProgs(stream, ts, list, pat.programs), stream.body.progHead,
                 stream.body.progNum);
  }

  lemma SameEntries(stream: Stream, pat: Pat, ts: nat, list: seq<nat>)
    requires |list| == |pat.programs|
    ensures PatProgs(InStream(stream, pat), ts, list, pat.programs) == PatProgs(stream, ts, list, pat.programs)
  {
  }

  // ---------------------------------------------------------------- PIDs owned by a stream

  function StreamPid(stream: Stream, ts: nat, slot: nat, kind: PidKind, pid: nat, casId: nat): Pid {
    WithPid(NewPid(slot, ts, INDEX_INVALID, INDEX_INVALID, stream.body.data.slotId, stream.body.data.channel, kind),
            pid, casId)
  }

  function StreamPids(stream: Stream, ts: nat, kind: PidKind, list: seq<nat>, cas: seq<Ca>): (r: seq<Pid>)
    requires |list| == |cas|
    ensures |r| == |list|
  {
    seq(|list|, i requires 0 <= i < |list| => StreamPid(stream, ts, list[i], kind, cas[i].pid, cas[i].casId))
  }

  function WithEmm(s: Stream, head: nat, num: nat): Stream {
    s.(body := s.body.(emmHead := head, emmNum := num))
  }

  function WithOther(s: Stream, head: nat, num: nat): Stream {
    s.(body := s.body.(otherHead := head, otherNum := num))
  }

  /** The loop over the entries of the CAT: `last` ends the chain so far, or is INDEX_INVALID. */
  method EnterEmms(info: TsInfo, ts: nat, last: nat, list: seq<nat>, cas: seq<Ca>)
    requires info.Valid() && ts < |info.streams| && |list| == |cas|
    requires NoDup(list) && forall k :: k in Elements(list) ==> k < |info.pids|
    requires last == INDEX_INVALID || last < |info.pids|
    modifies info`streams, info`pids
    ensures info.Valid()
    ensures var s := old(info.streams)[ts];
            info.streams == old(info.streams)[ts :=
              WithEmm(s, if last == INDEX_INVALID && list != [] then list[0] else s.body.emmHead, s.body.emmNum)]
    ensures AppendState(old(info.pids), info.pids, last, list, StreamPids(old(info.streams)[ts], ts, EmmPid, list, cas),
                        |list|)
  {
    hide AppendState;
    ghost var stream, p1 := info.streams[ts], info.pids;
    ghost var entries := StreamPids(stream, ts, EmmPid, list, cas);
    AppendStart(p1, last, list, entries);
    var i := 0;
    while i < |list|
      invariant 0 <= i <= |list| && info.Valid()
      invariant info.streams == old(info.streams)[ts :=
                  WithEmm(stream, if last == INDEX_INVALID && i > 0 then list[0] else stream.body.emmHead,
                          stream.body.emmNum)]
      invariant AppendState(p1, info.pids, last, list, entries, i)
    {
      AppendSize(p1, info.pids, last, list, entries, i);
      ghost var before := info.pids;
      var slot := list[i];
      assert slot in Elements(list);
      if i == 0 {
        if last == INDEX_INVALID {
          info.streams := info.streams[ts := WithEmm(info.streams[ts], slot, info.streams[ts].body.emmNum)];
        } else {
          info.pids := info.pids[last := info.pids[last].(next := slot)];
        }
      }
      var emm := WithPid(InitPid(info.streams, info.progs, info.pids, EmmPid, ts, slot), cas[i].pid, cas[i].casId);
      info.pids := info.pids[slot := emm.(next := if i + 1 == |list| then INDEX_INVALID else list[i + 1])];
      AppendStep(p1, before, last, list, entries, i, info.pids);
      i := i + 1;
    }
    AppendSize(p1, info.pids, last, list, entries, |list|);
  }

  /** TSP_SetInputCATInfo: appends the EMM PIDs of the CAT to those of the stream. */
  method SetCat(info: TsInfo, ts: nat, cas: seq<Ca>) returns (code: Code, list: seq<nat>)
    requires info.Valid()
    modifies info`streams, info`pids, info`pidBlock
    ensures info.Valid()
    ensures code != Success ==> info.streams == old(info.streams) && Frame(old(info.pids), info.pids, {})
    ensures code == Success ==>
              && ts < |old(info.streams)|
              && var s := old(info.streams)[ts];
              && |list| == |cas|
              && info.streams == old(info.streams)[ts :=
                   WithEmm(s, HeadAfter(s.body.emmNum, s.body.emmHead, list), s.body.emmNum + |list|)]
              && (cas == [] ==> info.pids == old(info.pids))
              && (cas != [] ==> ChainGrew(old(info.pids), info.pids, s.body.emmHead, s.body.emmNum, list,
                                           StreamPids(s, ts, EmmPid, list, cas)))
    ensures code == Success && Clean(old(info.pids)) ==> Clean(info.pids)
    ensures code == Success && cas != [] ==>
              |info.pids| == Grown(RoomOf(old(info.pids)), |cas|, PIDS_PER_GROWTH).len
    ensures ts < |old(info.streams)|
            && HasChain(old(info.pids), old(info.streams)[ts].body.emmHead, old(info.streams)[ts].body.emmNum)
            ==> (code == Success <==>
                   cas == [] || (Granted(old(info.pids), |cas|, PIDS_PER_GROWTH, info.realloc)
                                 && old(info.streams)[ts].body.emmNum < MAX_INDEX_LIST))
    ensures ts < |old(info.streams)| && |cas| <= MAX_INDEX_LIST && |cas| <= |Free(old(info.pids))|
            && ShortChain(old(info.pids), old(info.streams)[ts].body.emmHead, old(info.streams)[ts].body.emmNum)
            ==> code == Success
  {
    hide AppendState, Appended, ChainOf, ChainGrew, Clean, Granted, Grown;
    list := [];
    if |info.streams| <= ts {
      return InputParam, list;
    }
    var n := |cas|;
    var stream := info.streams[ts];
    if n == 0 {
      return Success, list;
    }
    ghost var p0 := info.pids;
    code, list := info.UnusedPids(n);
    if code != Success {
      return;
    }
    ghost var p1 := info.pids;
    FirstFreeProps(p1, n, list);
    var last;
    code, last := LastOf(info.pids, stream.body.emmNum, stream.body.emmHead, p0);
    if code != Success {
      return;
    }
    EnterEmms(info, ts, last, list, cas);
    info.streams := info.streams[ts := WithEmm(info.streams[ts], info.streams[ts].body.emmHead,
                                               stream.body.emmNum + n)];
    AppendSize(p1, info.pids, last, list, StreamPids(stream, ts, EmmPid, list, cas), |list|);
    GrewWhenDone(p0, p1, info.pids, last, list, StreamPids(stream, ts, EmmPid, list, cas), stream.body.emmHead,
                 stream.body.emmNum);
    if Clean(p0) {
      CleanAfterAppend(p0, p1, info.pids, last, list, StreamPids(stream, ts, EmmPid, list, cas));
    }
  }

  /** Finds a slot for another PID of the stream and fills it; `grown` is the pool before that. */
  method TakeOther(info: TsInfo, ts: nat, pid: nat) returns (code: Code, list: seq<nat>, ghost grown: seq<Pid>)
    requires info.Valid() && ts < |info.streams|
    modifies info`pids, info`pidBlock
    ensures info.Valid() && Frame(old(info.pids), grown, {}) && |grown| <= INDEX_INVALID
    ensures code != Success ==> info.pids == grown && list == []
    ensures code == Success ==>
              && |list| == 1 && Elements(list) == {list[0]} && list[0] < |grown| && !grown[list[0]].valid
              && info.pids == grown[list[0] := StreamPid(info.streams[ts], ts, list[0], OtherPid, pid, 0)]
    ensures |Free(old(info.pids))| >= 1 ==> code == Success
    ensures code == Success <==> Granted(old(info.pids), 1, PIDS_PER_GROWTH, info.realloc)
    ensures code == Success ==> |info.pids| == Grown(RoomOf(old(info.pids)), 1, PIDS_PER_GROWTH).len
    ensures code == Success && Clean(old(info.pids)) ==> Clean(info.pids)
  {
    hide InitPid, StreamPid, Granted, Grown;
    code, list := info.UnusedPids(1);
    grown := info.pids;
    if code != Success {
      list := [];
      return;
    }
    FirstFreeProps(grown, 1, list);
    var slot := list[0];
    assert list == [slot] && Elements([slot]) == {slot};
    OtherSlot(info.streams, info.progs, info.pids, ts, slot, pid);
    info.pids := info.pids[slot := WithPid(InitPid(info.streams, info.progs, info.pids, OtherPid, ts, slot), pid, 0)];
  }

  /**
    TSP_SetInputOtherPIDInfo: appends one PID to the other PIDs of the stream. The slot is filled
    before the chain is walked, so a chain that cannot be walked leaves the slot taken.
   */
  method SetOther(info: TsInfo, ts: nat, pid: nat) returns (code: Code, list: seq<nat>)
    requires info.Valid()
    modifies info`streams, info`pids, info`pidBlock
    ensures info.Valid()
    ensures code != Success ==> info.streams == old(info.streams) && Frame(old(info.pids), info.pids, Elements(list))
    ensures forall k :: k in Elements(list) && k < |old(info.pids)| ==> !old(info.pids)[k].valid
    ensures code == Success ==>
              && ts < |old(info.streams)|
              && var s := old(info.streams)[ts];
              && |list| == 1
              && info.streams == old(info.streams)[ts :=
                   WithOther(s, HeadAfter(s.body.otherNum, s.body.otherHead, list), s.body.otherNum + 1)]
              && ChainGrew(old(info.pids), info.pids, s.body.otherHead, s.body.otherNum, list,
                           StreamPids(s, ts, OtherPid, list, [Ca(0, pid)]))
    ensures code == Success && Clean(old(info.pids)) ==> Clean(info.pids)
    ensures code == Success ==> |info.pids| == Grown(RoomOf(old(info.pids)), 1, PIDS_PER_GROWTH).len
    ensures ts < |old(info.streams)|
            && HasChain(old(info.pids), old(info.streams)[ts].body.otherHead, old(info.streams)[ts].body.otherNum)
            ==> (code == Success <==>
                   && Granted(old(info.pids), 1, PIDS_PER_GROWTH, info.realloc)
                   && old(info.streams)[ts].body.otherNum < MAX_INDEX_LIST)
    ensures ts < |old(info.streams)| && 1 <= |Free(old(info.pids))|
            && ShortChain(old(info.pids), old(info.streams)[ts].body.otherHead, old(info.streams)[ts].body.otherNum)
            ==> code == Success
  {
    hide AppendState, Appended, ChainOf, ChainGrew, InitPid, StreamPid, Granted, Grown;
    list := [];
    if |info.streams| <= ts {
      return InputParam, list;
    }
    var stream := info.streams[ts];
    ghost var p0, p1 := info.pids, info.pids;
    code, list, p1 := TakeOther(info, ts, pid);
    if code != Success {
      return;
    }
    var slot := list[0];
    var last;
    code, last := LastOf(info.pids, stream.body.otherNum, stream.body.otherHead, p0);
    if code != Success {
      return;
    }
    if last == INDEX_INVALID {
      info.streams := info.streams[ts := WithOther(stream, slot, 1)];
    } else {
      info.pids := info.pids[last := info.pids[last].(next := slot)];
      info.streams := info.streams[ts := WithOther(stream, stream.body.otherHead, stream.body.otherNum + 1)];
    }
    OtherSlot(old(info.streams), info.progs, info.pids, ts, slot, pid);
    OtherDone(p0, p1, info.pids, last, list, StreamPids(stream, ts, OtherPid, list, [Ca(0, pid)]),
              stream.body.otherHead, stream.body.otherNum);
  }

  lemma OtherSlot(streams: seq<Stream>, progs: seq<Prog>, pids: seq<Pid>, ts: nat, slot: nat, pid: nat)
    requires ts < |streams|
    ensures WithPid(InitPid(streams, progs, pids, OtherPid, ts, slot), pid, 0)
      == StreamPid(streams[ts], ts, slot, OtherPid, pid, 0)
    ensures var p := StreamPid(streams[ts], ts, slot, OtherPid, pid, 0); p.next == INDEX_INVALID && p.valid
  {
  }

  /** Filling the slot before the hook is the same as after, since the last slot is another one. */
  lemma OtherDone(p0: seq<Pid>, p1: seq<Pid>, p2: seq<Pid>, last: nat, list: seq<nat>, entries: seq<Pid>, head: nat,
                  num: nat)
    requires Frame(p0, p1, {}) && |p1| <= INDEX_INVALID
    requires |list| == |entries| == 1 && list[0] < |p1| && !p1[list[0]].valid && entries[0].next == INDEX_INVALID
    requires num == 0 ==> last == INDEX_INVALID
    requires num > 0 ==> last < |p1|
    requires forall c :: ChainOf(p0, head, num, c) ==> num > 0 ==> last == c[num - 1]
    requires p2 == Hooked(p1[list[0] := entries[0]], last, list[0])
    ensures ChainGrew(p0, p2, head, num, list, entries)
  {
    hide Appended, AppendState;
    forall c | ChainOf(p0, head, num, c) ensures Appended(p0, p2, c, HeadAfter(num, head, list), list, entries) {
      HookedLater(p1, p2, last, list, entries);
      AppendDone(p0, p1, p2, last, list, entries, head, c, HeadAfter(num, head, list));
    }
  }

  lemma HookedLater(p1: seq<Pid>, p2: seq<Pid>, last: nat, list: seq<nat>, entries: seq<Pid>)
    requires |list| == |entries| == 1 && list[0] < |p1| && entries[0].next == INDEX_INVALID && last != list[0]
    requires p2 == Hooked(p1[list[0] := entries[0]], last, list[0])
    ensures AppendState(p1, p2, last, list, entries, 1)
    ensures Elements(list) == {list[0]}
  {
  }
}
