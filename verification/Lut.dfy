/**
  The look-up table that tells the hardware which PIDs of a channel to send on: collecting the PIDs
  of the channel's stream, each once (LUT_GetInputLUTEntry), sorting them (TSP_SortInputLUTEntry),
  and writing them as packed words (LUT_WriteInputLUTEntry, LUT_ClearInputLUT).
 */
module Lut {
  import opened TsPool

  const MAX_ENTRIES: nat := 2048
  const MAX_CHANNELS: nat := 4

  datatype Entry = Entry(stream: nat, pid: nat)

  // ---------------------------------------------------------------- collecting without duplicates

  function Added(list: seq<Entry>, e: Entry): (r: seq<Entry>)
    ensures |list| <= MAX_ENTRIES ==> |r| <= MAX_ENTRIES
  {
    if e in list || |list| >= MAX_ENTRIES then list else list + [e]
  }

  /** The list once the PIDs have been offered, one after the other. */
  function Collect(list: seq<Entry>, stream: nat, pids: seq<nat>): (r: seq<Entry>)
    ensures |list| <= MAX_ENTRIES ==> |r| <= MAX_ENTRIES
  {
    if pids == [] then list else Added(Collect(list, stream, pids[..|pids| - 1]), Entry(stream, pids[|pids| - 1]))
  }

  lemma {:induction false} CollectJoins(list: seq<Entry>, stream: nat, a: seq<nat>, b: seq<nat>)
    ensures Collect(Collect(list, stream, a), stream, b) == Collect(list, stream, a + b)
    decreases |b|
  {
    if b == [] {
      assert a + b == a;
    } else {
      CollectJoins(list, stream, a, b[..|b| - 1]);
      assert (a + b)[..|a + b| - 1] == a + b[..|b| - 1];
    }
  }

  ghost predicate Distinct(list: seq<Entry>) { forall i, j :: 0 <= i < j < |list| ==> list[i] != list[j] }

  ghost function PidsIn(list: seq<Entry>): set<nat> { set e | e in list :: e.pid }

  /**
    The entries are pairwise distinct, of one stream and at most 2048. They are as many as there are
    different PIDs, up to that limit, so every PID has its entry exactly when the limit is not exceeded.
   */
  lemma {:induction false} CollectIsASet(stream: nat, pids: seq<nat>)
    ensures var r := Collect([], stream, pids);
            && Distinct(r) && |r| <= MAX_ENTRIES
            && (forall e :: e in r ==> e.stream == stream && e.pid in pids)
            && |r| == (if |Elements(pids)| <= MAX_ENTRIES then |Elements(pids)| else MAX_ENTRIES)
            && ((forall p :: p in pids ==> Entry(stream, p) in r) <==> |Elements(pids)| <= MAX_ENTRIES)
  {
    CollectSize(stream, pids);
    var r := Collect([], stream, pids);
    if forall p :: p in pids ==> Entry(stream, p) in r {
      assert PidsIn(r) == Elements(pids);
    }
    if |Elements(pids)| <= MAX_ENTRIES {
      AllThere(PidsIn(r), Elements(pids));
      forall p | p in pids ensures Entry(stream, p) in r {
        assert p in PidsIn(r);
      }
    }
  }

  lemma {:induction false} AllThere(a: set<nat>, b: set<nat>)
    requires a <= b && |a| == |b|
    ensures a == b
  {
    if x :| x in b && x !in a {
      SubsetSize(a, b - {x});
    }
  }

  lemma {:induction false} CollectSize(stream: nat, pids: seq<nat>)
    ensures var r := Collect([], stream, pids);
            && Distinct(r) && (forall e :: e in r ==> e.stream == stream && e.pid in pids)
            && PidsIn(r) <= Elements(pids) && |PidsIn(r)| == |r|
            && |r| == (if |Elements(pids)| <= MAX_ENTRIES then |Elements(pids)| else MAX_ENTRIES)
  {
    if pids == [] {
      assert Elements(pids) == {} && PidsIn([]) == {};
    } else {
      var init, last := pids[..|pids| - 1], pids[|pids| - 1];
      CollectSize(stream, init);
      assert pids == init + [last];
      assert Elements(pids) == Elements(init) + {last};
      CollectOne(Collect([], stream, init), stream, Elements(init), last);
      assert forall p :: p in init ==> p in pids;
    }
  }

  lemma {:induction false} CollectOne(r: seq<Entry>, stream: nat, all: set<nat>, last: nat)
    requires Distinct(r) && (forall e :: e in r ==> e.stream == stream) && PidsIn(r) <= all && |PidsIn(r)| == |r|
    requires |r| == if |all| <= MAX_ENTRIES then |all| else MAX_ENTRIES
    ensures var r1 := Added(r, Entry(stream, last));
            && Distinct(r1) && (forall e :: e in r1 ==> e in r || e == Entry(stream, last))
            && PidsIn(r1) <= all + {last} && |PidsIn(r1)| == |r1|
            && |r1| == (if |all + {last}| <= MAX_ENTRIES then |all + {last}| else MAX_ENTRIES)
  {
    var e := Entry(stream, last);
    assert last in PidsIn(r) <==> e in r;
    if e !in r && |r| < MAX_ENTRIES {
      assert PidsIn(r + [e]) == PidsIn(r) + {last};
      AllThere(PidsIn(r), all);
    }
    if last in all {
      assert all + {last} == all;
      if e !in r && |r| < MAX_ENTRIES {
        assert false;
      }
    }
  }

  // ---------------------------------------------------------------- the PIDs of a stream

  function PidOf(pids: seq<Pid>, k: nat): nat { if k < |pids| then pids[k].body.data.pid else 0 }

  function PidsOf(pids: seq<Pid>, path: seq<nat>): (r: seq<nat>)
    ensures |r| == |path|
  {
    seq(|path|, i requires 0 <= i < |path| => PidOf(pids, path[i]))
  }

  function PmtPidsOf(progs: seq<Prog>, path: seq<nat>): (r: seq<nat>)
    ensures |r| == |path|
  {
    seq(|path|, i requires 0 <= i < |path| => if path[i] < |progs| then progs[path[i]].body.data.pmtPid else 0)
  }

  /** The elementary streams of a chain, each followed by its ECMs. */
  function EsPids(pids: seq<Pid>, path: seq<nat>): seq<nat> {
    if path == [] then []
    else
      var k := path[|path| - 1];
      EsPids(pids, path[..|path| - 1]) + [PidOf(pids, k)]
      + (if k < |pids| then PidsOf(pids, Path(pids, pids[k].body.ecmHead, pids[k].body.ecmNum)) else [])
  }

  /** The PIDs of a program: PCR, elementary streams with their ECMs, its own ECMs. */
  function ProgPids(progs: seq<Prog>, pids: seq<Pid>, k: nat): seq<nat> {
    if k >= |progs| then []
    else
      var b := progs[k].body;
      [b.data.pcrPid] + EsPids(pids, Path(pids, b.esHead, b.esNum)) + PidsOf(pids, Path(pids, b.psHead, b.psNum))
  }

  /** The PIDs of the programs of a chain that are sent on. */
  function ProgsPids(progs: seq<Prog>, pids: seq<Pid>, path: seq<nat>, sent: nat -> bool): seq<nat> {
    if path == [] then []
    else
      ProgsPids(progs, pids, path[..|path| - 1], sent)
      + (if sent(path[|path| - 1]) then ProgPids(progs, pids, path[|path| - 1]) else [])
  }

  /**
    Every PID of a stream that its channel is to send on, in the order of the walk; `first` are the
    programs met first.
   */
  function Wanted(progs: seq<Prog>, pids: seq<Pid>, b: StreamRec, first: seq<nat>, sent: nat -> bool): seq<nat> {
    [0, 17] + PmtPidsOf(progs, first) + StreamPids(progs, pids, b, sent)
  }

  function StreamPids(progs: seq<Prog>, pids: seq<Pid>, b: StreamRec, sent: nat -> bool): seq<nat> {
    ProgsPids(progs, pids, Path(progs, b.progHead, b.progNum), sent)
    + PidsOf(pids, Path(pids, b.emmHead, b.emmNum))
    + PidsOf(pids, Path(pids, b.otherHead, b.otherNum))
  }

  /** The chain at head has num slots, and then leaves the pool. */
  ghost predicate Ends<T>(pool: seq<Slot<T>>, num: nat, head: nat) {
    && num < MAX_INDEX_LIST
    && (num > 0 ==> (forall i: nat :: i < num ==> Nth(pool, head, i) < |pool|) && Nth(pool, head, num) >= |pool|)
  }

  /** The slots met on a walk from head, as long as it stays in the pool, and at most limit of them. */
  function Met<T>(pool: seq<Slot<T>>, head: nat, limit: nat): (r: seq<nat>)
    ensures |r| <= limit
  {
    if limit == 0 then []
    else
      var before, at := Met(pool, head, limit - 1), Nth(pool, head, limit - 1);
      if |before| == limit - 1 && at < |pool| then before + [at] else before
  }

  lemma {:induction false} MetIsPath<T>(pool: seq<Slot<T>>, head: nat, n: nat, limit: nat)
    requires n <= limit && (forall i: nat :: i < n ==> Nth(pool, head, i) < |pool|)
    requires n == limit || Nth(pool, head, n) >= |pool|
    ensures Met(pool, head, limit) == Path(pool, head, n)
    decreases limit
  {
    hide Nth;
    if limit > 0 {
      if n == limit {
        MetIsPath(pool, head, n - 1, limit - 1);
        assert Path(pool, head, n) == Path(pool, head, n - 1) + [Nth(pool, head, n - 1)];
      } else {
        MetIsPath(pool, head, n, limit - 1);
      }
    }
  }

  /** The programs a walk meets that takes them as far as it gets. */
  function MetOf<T>(pool: seq<Slot<T>>, num: nat, head: nat): seq<nat> {
    if num == 0 then [] else Met(pool, head, MAX_INDEX_LIST)
  }

  /** A chain that ends where it should is met as a whole. */
  lemma {:induction false} MetWhenItEnds<T>(pool: seq<Slot<T>>, num: nat, head: nat)
    requires Ends(pool, num, head)
    ensures MetOf(pool, num, head) == Path(pool, head, num)
  {
    hide Nth, Met;
    if num > 0 {
      MetIsPath(pool, head, num, MAX_INDEX_LIST);
    }
  }

  /** What IndexList hands over, whether it reports an error or not. */
  lemma {:induction false} ListIsMet<T>(pool: seq<Slot<T>>, num: nat, head: nat, list: seq<nat>)
    requires list == Path(pool, head, |list|) && forall i :: 0 <= i < |list| ==> list[i] < |pool|
    requires num == 0 ==> list == []
    requires num > 0 ==> |list| <= MAX_INDEX_LIST && (|list| == MAX_INDEX_LIST || Nth(pool, head, |list|) >= |pool|)
    ensures list == MetOf(pool, num, head)
  {
    hide Nth, Met;
    if num > 0 {
      forall i: nat | i < |list| ensures Nth(pool, head, i) < |pool| {
        assert list[i] == Nth(pool, head, i);
      }
      MetIsPath(pool, head, |list|, MAX_INDEX_LIST);
    }
  }

  /** The slots of a chain; succeeds exactly if the chain ends after them, and is shorter than 300. */
  method Chain<T>(num: nat, head: nat, pool: seq<Slot<T>>) returns (code: Code, list: seq<nat>)
    ensures code == Success <==> Ends(pool, num, head)
    ensures code == Success ==> list == Path(pool, head, num)
    ensures forall i :: 0 <= i < |list| ==> list[i] < |pool|
  {
    code, list := IndexList(num, head, pool);
    assert forall i :: 0 <= i < |list| ==> list[i] == Nth(pool, head, i);
  }

  // which chains must end for the walks over a stream to succeed

  ghost predicate EcmsEnd(pids: seq<Pid>, path: seq<nat>) {
    forall j :: 0 <= j < |path| && path[j] < |pids| ==>
      Ends(pids, pids[path[j]].body.ecmNum, pids[path[j]].body.ecmHead)
  }

  ghost predicate ProgEnds(progs: seq<Prog>, pids: seq<Pid>, k: nat) {
    k < |progs| ==>
      var b := progs[k].body;
      && Ends(pids, b.esNum, b.esHead) && EcmsEnd(pids, Path(pids, b.esHead, b.esNum))
      && Ends(pids, b.psNum, b.psHead)
  }

  ghost predicate ProgsEnd(progs: seq<Prog>, pids: seq<Pid>, path: seq<nat>, sent: nat -> bool) {
    forall i :: 0 <= i < |path| && sent(path[i]) ==> ProgEnds(progs, pids, path[i])
  }

  /** The programs, for each one sent on its streams, their ECMs and its own ECMs, then EMMs and other PIDs. */
  ghost predicate StreamEnds(progs: seq<Prog>, pids: seq<Pid>, b: StreamRec, sent: nat -> bool) {
    && Ends(progs, b.progNum, b.progHead) && ProgsEnd(progs, pids, Path(progs, b.progHead, b.progNum), sent)
    && Ends(pids, b.emmNum, b.emmHead) && Ends(pids, b.otherNum, b.otherHead)
  }

  // ---------------------------------------------------------------- filling the entry list

  /** The entry list: a buffer of 2048 entries and how many are in use. */
  class EntryList {
    const entries: array<Entry>
    var num: nat

    ghost predicate Valid()
      reads this, entries
    {
      entries.Length == MAX_ENTRIES && num <= MAX_ENTRIES
    }

    ghost function Contents(): seq<Entry>
      reads this, entries
      requires Valid()
    {
      entries[..num]
    }

    constructor ()
      ensures Valid() && fresh(entries) && Contents() == []
    {
      entries := new Entry[MAX_ENTRIES](_ => Entry(0, 0));
      num := 0;
    }

    /** Adds an entry unless it is there already or the list is full. */
    method Add(e: Entry)
      requires Valid()
      modifies this, entries
      ensures Valid() && Contents() == Added(old(Contents()), e)
    {
      var found := false;
      var i := 0;
      while i < num && !found
        invariant 0 <= i <= num
        invariant found <==> e in entries[..i]
      {
        found := entries[i] == e;
        i := i + 1;
      }
      assert found ==> e in entries[..num];
      if !found && num < MAX_ENTRIES {
        assert i == num;
        entries[num] := e;
        num := num + 1;
        assert entries[..num] == entries[..num - 1] + [e];
      }
    }

    method AddPids(stream: nat, pids: seq<nat>)
      requires Valid()
      modifies this, entries
      ensures Valid() && Contents() == Collect(old(Contents()), stream, pids)
    {
      var i := 0;
      while i < |pids|
        invariant 0 <= i <= |pids| && Valid()
        invariant Contents() == Collect(old(Contents()), stream, pids[..i])
      {
        Add(Entry(stream, pids[i]));
        assert pids[..i + 1][..i] == pids[..i];
        i := i + 1;
      }
      assert pids[..|pids|] == pids;
    }

    /** The elementary streams of a chain with their ECMs. */
    method AddEs(stream: nat, pids: seq<Pid>, list: seq<nat>) returns (code: Code)
      requires Valid() && forall i :: 0 <= i < |list| ==> list[i] < |pids|
      modifies this, entries
      ensures Valid()
      ensures code == Success ==> Contents() == Collect(old(Contents()), stream, EsPids(pids, list))
      ensures code == Success <==> EcmsEnd(pids, list)
    {
      hide Collect, Ends, Path;
      code := Success;
      ghost var start := Contents();
      NothingCollected(start, stream);
      var j := 0;
      while j < |list|
        invariant 0 <= j <= |list| && Valid() && code == Success
        invariant Contents() == Collect(start, stream, EsPids(pids, list[..j]))
        invariant forall i :: 0 <= i < j ==> Ends(pids, pids[list[i]].body.ecmNum, pids[list[i]].body.ecmHead)
      {
        var k := list[j];
        var ecms;
        ghost var before := EsPids(pids, list[..j]);
        AddPids(stream, [PidOf(pids, k)]);
        code, ecms := Chain(pids[k].body.ecmNum, pids[k].body.ecmHead, pids);
        if code != Success {
          return;
        }
        AddPids(stream, PidsOf(pids, ecms));
        CollectJoins(start, stream, before, [PidOf(pids, k)]);
        CollectJoins(start, stream, before + [PidOf(pids, k)], PidsOf(pids, ecms));
        assert list[..j + 1][..j] == list[..j];
        j := j + 1;
      }
      assert list[..|list|] == list;
    }

    /** The PIDs of one program. */
    method AddProg(stream: nat, progs: seq<Prog>, pids: seq<Pid>, k: nat) returns (code: Code)
      requires Valid() && k < |progs|
      modifies this, entries
      ensures Valid()
      ensures code == Success ==> Contents() == Collect(old(Contents()), stream, ProgPids(progs, pids, k))
      ensures code == Success <==> ProgEnds(progs, pids, k)
    {
      hide Collect, EsPids, Ends, EcmsEnd, Path;
      ghost var start := Contents();
      var b := progs[k].body;
      AddPids(stream, [b.data.pcrPid]);
      var es, ps;
      code, es := Chain(b.esNum, b.esHead, pids);
      if code != Success {
        return;
      }
      code := AddEs(stream, pids, es);
      if code != Success {
        return;
      }
      code, ps := Chain(b.psNum, b.psHead, pids);
      if code != Success {
        return;
      }
      AddPids(stream, PidsOf(pids, ps));
      CollectJoins(start, stream, [b.data.pcrPid], EsPids(pids, es));
      CollectJoins(start, stream, [b.data.pcrPid] + EsPids(pids, es), PidsOf(pids, ps));
    }

    method AddProgs(stream: nat, progs: seq<Prog>, pids: seq<Pid>, list: seq<nat>, sent: nat -> bool)
      returns (code: Code)
      requires Valid() && forall i :: 0 <= i < |list| ==> list[i] < |progs|
      modifies this, entries
      ensures Valid()
      ensures code == Success ==> Contents() == Collect(old(Contents()), stream, ProgsPids(progs, pids, list, sent))
      ensures code == Success <==> ProgsEnd(progs, pids, list, sent)
    {
      hide Collect, ProgPids, ProgEnds;
      code := Success;
      ghost var start := Contents();
      NothingCollected(start, stream);
      var i := 0;
      while i < |list|
        invariant 0 <= i <= |list| && Valid() && code == Success
        invariant Contents() == Collect(start, stream, ProgsPids(progs, pids, list[..i], sent))
        invariant forall j :: 0 <= j < i && sent(list[j]) ==> ProgEnds(progs, pids, list[j])
      {
        ghost var before := ProgsPids(progs, pids, list[..i], sent);
        assert list[..i + 1][..i] == list[..i];
        assert before + [] == before;
        if sent(list[i]) {
          code := AddProg(stream, progs, pids, list[i]);
          if code != Success {
            return;
          }
          CollectJoins(start, stream, before, ProgPids(progs, pids, list[i]));
        }
        i := i + 1;
      }
      assert list[..|list|] == list;
    }

    /** The PIDs of a chain that belongs to the stream itself. */
    method AddChain(stream: nat, pids: seq<Pid>, num: nat, head: nat) returns (code: Code)
      requires Valid()
      modifies this, entries
      ensures Valid()
      ensures code == Success ==> Contents() == Collect(old(Contents()), stream, PidsOf(pids, Path(pids, head, num)))
      ensures code == Success <==> Ends(pids, num, head)
    {
      hide Collect, Ends;
      var list;
      code, list := Chain(num, head, pids);
      if code == Success {
        AddPids(stream, PidsOf(pids, list));
      }
    }

    /** PAT, SDT, and the PMTs of the programs of a chain, as far as the chain can be walked. */
    method AddTables(stream: nat, progs: seq<Prog>, num: nat, head: nat)
      requires Valid() && Contents() == []
      modifies this, entries
      ensures Valid() && Contents() == Collect([], stream, [0, 17] + PmtPidsOf(progs, MetOf(progs, num, head)))
    {
      hide Collect, Path, Met;
      AddPids(stream, [0]);
      AddPids(stream, [17]);
      CollectJoins([], stream, [0], [17]);
      assert [0] + [17] == [0, 17];
      var code, met := IndexList(num, head, progs);
      ListIsMet(progs, num, head, met);
      AddPids(stream, PmtPidsOf(progs, met));
      CollectJoins([], stream, [0, 17], PmtPidsOf(progs, met));
    }

    /** The programs, EMMs and other PIDs of a stream. */
    method AddStream(stream: nat, progs: seq<Prog>, pids: seq<Pid>, b: StreamRec, sent: nat -> bool)
      returns (code: Code)
      requires Valid()
      modifies this, entries
      ensures Valid()
      ensures code == Success ==> Contents() == Collect(old(Contents()), stream, StreamPids(progs, pids, b, sent))
      ensures code == Success <==> StreamEnds(progs, pids, b, sent)
    {
      hide Collect, ProgsPids, Path, Ends, ProgsEnd;
      ghost var start := Contents();
      var chain;
      code, chain := Chain(b.progNum, b.progHead, progs);
      if code != Success {
        return;
      }
      code := AddProgs(stream, progs, pids, chain, sent);
      if code != Success {
        return;
      }
      ghost var programs := ProgsPids(progs, pids, chain, sent);
      code := AddChain(stream, pids, b.emmNum, b.emmHead);
      if code != Success {
        return;
      }
      ghost var emms := PidsOf(pids, Path(pids, b.emmHead, b.emmNum));
      CollectJoins(start, stream, programs, emms);
      code := AddChain(stream, pids, b.otherNum, b.otherHead);
      CollectJoins(start, stream, programs + emms, PidsOf(pids, Path(pids, b.otherHead, b.otherNum)));
    }
  }

  lemma NothingCollected(list: seq<Entry>, stream: nat)
    ensures Collect(list, stream, []) == list
  {
  }

  function StreamId(channel: nat): nat { 0xFC + channel }

  /** The stream whose programs are met first: the first slot of the channel, in use or not, or slot 0. */
  function FirstSlot(streams: seq<Stream>, channel: nat, i: nat): (r: nat)
    requires |streams| >= MAX_CHANNELS && i <= MAX_CHANNELS
    ensures r < MAX_CHANNELS
    decreases MAX_CHANNELS - i
  {
    if i == MAX_CHANNELS then 0
    else if streams[i].body.data.channel == channel then i
    else FirstSlot(streams, channel, i + 1)
  }

  ghost predicate IsStream(streams: seq<Stream>, channel: nat, k: nat) {
    && k < |streams| && streams[k].valid && streams[k].body.data.channel == channel
    && forall j :: 0 <= j < k ==> !(streams[j].valid && streams[j].body.data.channel == channel)
  }

  /** The programs whose PMTs are sent on: those of the stream that the first slot of the channel names. */
  function FirstMet(streams: seq<Stream>, progs: seq<Prog>, channel: nat): seq<nat>
    requires |streams| >= MAX_CHANNELS && streams[FirstSlot(streams, channel, 0)].index < |streams|
  {
    var b := streams[streams[FirstSlot(streams, channel, 0)].index].body;
    MetOf(progs, b.progNum, b.progHead)
  }

  /**
    The first slot of the channel is that of its stream exactly if no earlier one has the channel
    number, in use or not.
   */
  lemma {:induction false} FirstSlotIsTheStream(streams: seq<Stream>, channel: nat, k: nat)
    requires |streams| >= MAX_CHANNELS && IsStream(streams, channel, k)
    ensures FirstSlot(streams, channel, 0) == k <==>
              k < MAX_CHANNELS && forall j :: 0 <= j < k ==> streams[j].body.data.channel != channel
  {
    FirstSlotFrom(streams, channel, 0);
  }

  lemma {:induction false} FirstSlotFrom(streams: seq<Stream>, channel: nat, i: nat)
    requires |streams| >= MAX_CHANNELS && i <= MAX_CHANNELS
    ensures var r := FirstSlot(streams, channel, i);
            if exists j :: i <= j < MAX_CHANNELS && streams[j].body.data.channel == channel
            then i <= r && streams[r].body.data.channel == channel
                 && forall j :: i <= j < r ==> streams[j].body.data.channel != channel
            else r == 0
    decreases MAX_CHANNELS - i
  {
    if i < MAX_CHANNELS && streams[i].body.data.channel != channel {
      FirstSlotFrom(streams, channel, i + 1);
    }
  }

  /**
    LUT_GetInputLUTEntry. On success for a stream that is not passed on as a whole, the list holds
    the wanted PIDs, collected in the order of the walk, and their number is reported. For a stream
    passed on as a whole nothing is reported: the number stays what the caller had there.
   */
  method GetEntries(list: EntryList, streams: seq<Stream>, progs: seq<Prog>, pids: seq<Pid>, channel: nat,
                    bypassed: bool, sent: nat -> bool, reported: nat)
    returns (code: Code, n: nat, ghost k: nat)
    requires list.Valid() && list.Contents() == []
    requires |streams| >= MAX_CHANNELS && forall i :: 0 <= i < |streams| ==> streams[i].index < |streams|
    modifies list, list.entries
    ensures list.Valid()
    ensures code == Success <==>
              exists j: nat ::
                IsStream(streams, channel, j) && (bypassed || StreamEnds(progs, pids, streams[j].body, sent))
    ensures code == Success ==> IsStream(streams, channel, k)
    ensures code == Success && bypassed ==> n == reported
    ensures code == Success && !bypassed ==>
              && var b := streams[k].body;
              && list.Contents() == Collect([], StreamId(channel),
                                            Wanted(progs, pids, b, FirstMet(streams, progs, channel), sent))
              && n == |list.Contents()| && Ends(progs, b.progNum, b.progHead)
  {
    hide Collect, StreamPids, Ends, MetOf, FirstSlot, ProgsEnd;
    n, k := reported, 0;
    var stream := StreamId(channel);
    var slot := streams[FirstSlot(streams, channel, 0)].index;
    list.AddTables(stream, progs, streams[slot].body.progNum, streams[slot].body.progHead);
    var at := 0;
    while at < |streams| && !(streams[at].valid && streams[at].body.data.channel == channel)
      invariant 0 <= at <= |streams|
      invariant forall j :: 0 <= j < at ==> !(streams[j].valid && streams[j].body.data.channel == channel)
    {
      at := at + 1;
    }
    if at == |streams| {
      return Other, n, k;
    }
    k := at;
    assert IsStream(streams, channel, k) && forall j: nat :: IsStream(streams, channel, j) ==> j == k;
    if bypassed {
      return Success, n, k;
    }
    var b := streams[at].body;
    code := list.AddStream(stream, progs, pids, b, sent);
    if code != Success {
      return;
    }
    CollectJoins([], stream, [0, 17] + PmtPidsOf(progs, FirstMet(streams, progs, channel)),
                 StreamPids(progs, pids, b, sent));
    n := list.num;
  }
}
