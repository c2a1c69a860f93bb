/**
  Scanning a channel from start to end (TSP_ScanTS): an empty temporary pool is filled from the
  tables, and a channel not known yet is copied into the live pools.
 */
module ScanTs {
  import opened TsPool
  import opened TsTree
  import opened TsAlloc
  import opened TsBuild
  import opened TsScan
  import opened TsScanCopy
  import opened TsCopyProg
  import opened TsCopyStream
  import opened TsTheorems
  import opened ScanNeeds
  import opened ParseSi
  import opened ScanTheorems
  import PidMap

  const ZERO_STREAM: Stream := Slot(false, 0, 0, StreamRec(0, 0, 0, 0, 0, 0, StreamData(0, 0, 0)))

  function NewStream(slot: nat, slotId: nat, channel: nat): Stream {
    Slot(true, slot, 0, StreamRec(0, INDEX_INVALID, 0, INDEX_INVALID, 0, INDEX_INVALID, StreamData(slotId, channel, 0)))
  }

  ghost predicate Known(streams: seq<Stream>, channel: nat) {
    exists i :: 0 <= i < |streams| && streams[i].valid && streams[i].body.data.channel == channel
  }

  /** The stream of a channel, or the number of slots when there is none. */
  method FindStream(streams: seq<Stream>, channel: nat) returns (i: nat)
    ensures i <= |streams| && (i < |streams| <==> Known(streams, channel))
    ensures i < |streams| ==> streams[i].valid && streams[i].body.data.channel == channel
  {
    i := 0;
    while i < |streams|
      invariant 0 <= i <= |streams|
      invariant forall j :: 0 <= j < i ==> !(streams[j].valid && streams[j].body.data.channel == channel)
    {
      if streams[i].valid && streams[i].body.data.channel == channel {
        return;
      }
      i := i + 1;
    }
  }

  function AllFree(n: nat): Room { Room(n, n) }

  lemma {:induction false} AllAreFree<T>(n: nat, zero: Slot<T>)
    requires !zero.valid
    ensures |Free(seq(n, _ => zero))| == n
  {
    var none: seq<Slot<T>> := [];
    assert none + seq(n, _ => zero) == seq(n, _ => zero);
    FreeAfterGrowth(none, zero, n);
  }

  /** Clears the temporary pools, takes a stream slot there and initialises it. */
  method Prepare(temp: TsInfo, slotId: nat, channel: nat) returns (code: Code, src: nat)
    requires temp.Valid()
    modifies temp`streams, temp`progs, temp`pids
    ensures temp.Valid()
    ensures code == Success <==> |old(temp.streams)| > 0
    ensures RoomOf(temp.progs) == AllFree(|old(temp.progs)|) && RoomOf(temp.pids) == AllFree(|old(temp.pids)|)
    ensures code == Success ==>
              && src < |temp.streams|
              && temp.streams[src].body.data == StreamData(slotId, channel, 0)
              && Built(temp.streams, temp.progs, temp.pids, src, EMPTY_SHAPE, EmptyTree(StreamData(slotId, channel, 0)))
  {
    hide Built, Free;
    AllAreFree(|temp.streams|, ZERO_STREAM);
    AllAreFree(|temp.progs|, ZERO_PROG);
    AllAreFree(|temp.pids|, ZERO_PID);
    temp.streams := seq(|temp.streams|, _ => ZERO_STREAM);
    temp.progs := seq(|temp.progs|, _ => ZERO_PROG);
    temp.pids := seq(|temp.pids|, _ => ZERO_PID);
    src := 0;
    var list := ScanUnused(temp.streams, 1);
    if |list| < 1 {
      return Other, src;
    }
    FirstFreeProps(temp.streams, 1, list);
    src := list[0];
    temp.streams := temp.streams[src := NewStream(src, slotId, channel)];
    BuiltAtStart(temp.streams, temp.progs, temp.pids, src);
    code := Success;
  }

  ghost predicate NoFreeStream(streams: seq<Stream>) { forall i :: 0 <= i < |streams| ==> streams[i].valid }

  /**
    TSP_ScanTS. Unless more PIDs are recorded than the list for them holds (`inside`): the tables are
    read exactly if all that is fetched is there and the temporary pools have room; a new channel then
    gets a stream exactly if a stream slot is free and the copy is granted all it asks for, in a slot
    that was free, and it stands for exactly what the tables and the scanner said, unless an ECM head
    was lost. A known channel changes nothing.
   */
  method Scan(live: TsInfo, temp: TsInfo, slotId: nat, channel: nat, words: seq<bv32>, tables: Tables)
    returns (code: Code, dst: nat, ghost s: StreamShape, ghost stale: bool, ghost src: nat, ghost scanned: bool,
             ghost inside: bool)
    requires live != temp && live.Valid() && temp.Valid() && |words| == PidMap.WORDS
    modifies temp, live`streams, live`progs, live`pids, live`pidBlock
    ensures live.Valid()
    ensures Known(old(live.streams), channel) ==>
              live.streams == old(live.streams) && live.progs == old(live.progs) && live.pids == old(live.pids)
    ensures code == Success ==> scanned
    ensures RecordsFit(words, tables) ==>
              (scanned <==>
                 && |old(temp.streams)| > 0
                 && ScanOk(AllFree(|old(temp.progs)|), AllFree(|old(temp.pids)|), words, tables, temp.realloc))
    ensures scanned ==> src < |temp.streams| && (inside <==> RecordsFit(words, tables))
    ensures scanned && inside ==>
              ReadStream(temp.streams, temp.progs, temp.pids, src)
                == ScanFound(StreamData(slotId, channel, 0), words, tables)
    ensures scanned && inside && PidMap.Seen(words, 0) ==>
              OnlyTheRest(ReadStream(temp.streams, temp.progs, temp.pids, src), words, tables)
    ensures scanned && inside && Known(old(live.streams), channel) ==> code == Success
    ensures scanned && inside && !Known(old(live.streams), channel) ==>
              (code == Success <==>
                 && !NoFreeStream(old(live.streams))
                 && StreamOk(old(live.progs), old(live.pids), temp.progs, temp.pids, temp.streams[src].body,
                             live.realloc))
    ensures code == Success && inside && !Known(old(live.streams), channel) ==>
              && dst < |old(live.streams)| == |live.streams| && !old(live.streams)[dst].valid
              && live.streams == old(live.streams)[dst := live.streams[dst]]
              && StreamCopied(live.streams, old(live.progs), live.progs, old(live.pids), live.pids, dst, s, stale,
                              ScanFound(StreamData(slotId, channel, 0), words, tables))
              && (stale <==> LosesHead(old(live.pids), temp.progs, temp.pids, temp.streams[src].body, live.realloc))
  {
    hide PidMap.Seen, OnlyTheRest;
    hide Built, ScanFound, StreamCopied, Scanned, Known, StreamOk, LosesHead, ReadStream, ScanOk, RecordsFit, RoomOf;
    dst, s, stale, scanned, inside := 0, EMPTY_SHAPE, false, false, true;
    var at;
    code, at := Prepare(temp, slotId, channel);
    src := at;
    if code != Success {
      return;
    }
    ghost var found, t;
    code, inside, found, t := Parse(temp, at, words, tables, EMPTY_SHAPE);
    if code != Success {
      return;
    }
    scanned := true;
    if inside && PidMap.Seen(words, 0) {
      OthersHaveNoPlace(StreamData(slotId, channel, 0), words, tables);
    }
    BuiltIsScanned(temp, src, found, t);
    BuiltInRange(temp, src, found, t);
    var known := FindStream(live.streams, channel);
    if known < |live.streams| {
      return;
    }
    var list := ScanUnused(live.streams, 1);
    UnusedProps(live.streams, |live.streams|);
    if |list| < 1 {
      code := Other;
      return;
    }
    FirstFreeProps(live.streams, 1, list);
    dst := list[0];
    code, s, stale := CopyStream(live, dst, temp, at);
  }

  lemma BuiltInRange(temp: TsInfo, src: nat, s: StreamShape, t: StreamTree)
    requires Built(temp.streams, temp.progs, temp.pids, src, s, t)
    ensures src < |temp.streams|
  {
    hide ProgAt, PidsAt, Linked;
  }
}
