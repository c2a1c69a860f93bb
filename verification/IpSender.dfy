/**
  Sending data to another board (IPComm_SendData): fragments of at most 1400 bytes, each sent until
  it is acknowledged, with a budget of retries that all fragments share. The network is any
  sequence of outcomes, one for each attempt.
 */
module IpSender {
  import opened Bytes
  import opened IpFrame

  const MAX_RETRY: nat := 3

  /** One attempt: the connection fails, or a reply comes back (an empty one when receiving fails). */
  datatype Attempt = OpenFails | ConnectFails | Reply(bytes: seq<byte>)

  datatype Code = Success | OpenFailed | ConnectFailed | TimeOut

  /** One attempt in which a reply was read: the fragment sent, and the command then found in the reply structure. */
  datatype Try = Try(index: nat, request: seq<byte>, reply: seq<byte>, cmd: u16)

  function Fragments(n: nat): nat { n / DATA_MAX + (if n % DATA_MAX == 0 then 0 else 1) }

  lemma FragmentBounds(n: nat, i: nat)
    ensures i < Fragments(n) <==> i * DATA_MAX < n
    ensures Fragments(n) * DATA_MAX >= n
  {
    var q, r := n / DATA_MAX, n % DATA_MAX;
    assert n == q * DATA_MAX + r && 0 <= r < DATA_MAX;
    if i <= q {
      assert i * DATA_MAX <= q * DATA_MAX;
    } else {
      assert i * DATA_MAX >= (q + 1) * DATA_MAX;
    }
  }

  function Min(a: nat, b: nat): nat { if a < b then a else b }

  /** Fragment i of the data. */
  function Fragment(data: seq<byte>, i: nat): (r: seq<byte>)
    requires i * DATA_MAX <= |data|
    ensures |r| <= DATA_MAX
  {
    data[i * DATA_MAX..Min(|data|, (i + 1) * DATA_MAX)]
  }

  /** The frame for one fragment; the command is cut to 16 bits. */
  function RequestFrame(slot: byte, cmd: u32, i: u32, sum: u32, fragment: seq<byte>, crc: Crc): (r: Frame)
    requires |fragment| <= DATA_MAX
    ensures r.data == fragment
  {
    Sealed(Frame(slot, 0, cmd % 0x10000, i, sum, fragment, 0), crc)
  }

  /** The command in the reply structure after a reply was parsed into it: a short reply leaves it as it was. */
  function CmdAfter(cmd: u16, reply: seq<byte>, crc: Crc): u16
    requires |reply| < 0x8000_0000
  {
    match Parse(reply, crc)
    case TooShort => cmd
    case BadLength => NONE_CMD
    case BadCrc => NONE_CMD
    case TooLong(c) => c
    case Ok(f) => f.cmd
  }

  function Acked(log: seq<Try>): nat {
    if log == [] then 0 else Acked(log[..|log| - 1]) + (if log[|log| - 1].cmd == SUCCESS_CMD then 1 else 0)
  }

  /** The command left in the reply structure. */
  function LastCmd(cmd0: u16, log: seq<Try>): u16 { if log == [] then cmd0 else log[|log| - 1].cmd }

  /** What is fixed during a transfer. */
  datatype Job = Job(slot: byte, cmd: u32, data: seq<byte>, crc: Crc)

  predicate ValidJob(job: Job) { |job.data| < 0x1_0000_0000 }

  /**
    Attempt k sent the fragment that comes after all acknowledged ones, and read the reply in the light
    of the one before.
   */
  ghost predicate TryOk(job: Job, cmd0: u16, attempts: nat -> Attempt, log: seq<Try>, k: nat)
    requires k < |log|
  {
    && var t := log[k];
    && t.index == Acked(log[..k]) && t.index < Fragments(|job.data|) < 0x1_0000_0000
    && t.index * DATA_MAX <= |job.data|
    && t.request == Load(RequestFrame(job.slot, job.cmd, t.index, Fragments(|job.data|), Fragment(job.data, t.index),
                                      job.crc))
    && |t.reply| < 0x8000_0000
    && attempts(k) == Reply(t.reply) && t.cmd == CmdAfter(LastCmd(cmd0, log[..k]), t.reply, job.crc)
  }

  ghost predicate LogOk(job: Job, cmd0: u16, attempts: nat -> Attempt, log: seq<Try>) {
    forall k :: 0 <= k < |log| ==> TryOk(job, cmd0, attempts, log, k)
  }

  lemma {:induction false} AckedSnoc(log: seq<Try>, t: Try)
    ensures Acked(log + [t]) == Acked(log) + (if t.cmd == SUCCESS_CMD then 1 else 0)
  {
    assert (log + [t])[..|log|] == log;
  }

  lemma {:induction false} AckedAtMost(log: seq<Try>)
    ensures Acked(log) <= |log|
  {
    if log != [] {
      AckedAtMost(log[..|log| - 1]);
    }
  }

  lemma {:induction false} LogSnoc(job: Job, cmd0: u16, attempts: nat -> Attempt, log: seq<Try>, t: Try)
    requires LogOk(job, cmd0, attempts, log)
    requires var more := log + [t]; TryOk(job, cmd0, attempts, more, |log|)
    ensures LogOk(job, cmd0, attempts, log + [t])
  {
    var more := log + [t];
    forall k | 0 <= k < |more| ensures TryOk(job, cmd0, attempts, more, k) {
      if k < |log| {
        assert more[..k] == log[..k] && more[k] == log[k];
        assert TryOk(job, cmd0, attempts, log, k);
      }
    }
  }

  lemma SmallCount(n: nat)
    requires n < 0x1_0000_0000
    ensures Fragments(n) < 0x1_0000_0000
  {
  }

  lemma NoTries(job: Job, cmd0: u16, attempts: nat -> Attempt)
    ensures LogOk(job, cmd0, attempts, [])
  {
  }

  /** The bytes for one fragment. */
  function Request(job: Job, index: nat): seq<byte>
    requires ValidJob(job) && index < Fragments(|job.data|) < 0x1_0000_0000 && index * DATA_MAX <= |job.data|
  {
    Load(RequestFrame(job.slot, job.cmd, index, Fragments(|job.data|), Fragment(job.data, index), job.crc))
  }

  /** What goes over the wire for fragment i: slot, command, number and count, and bytes 1400 i and up of the data. */
  lemma {:induction false} RequestIsLaidOut(job: Job, i: nat)
    requires ValidJob(job) && i < Fragments(|job.data|) < 0x1_0000_0000 && i * 1400 <= |job.data|
    ensures var part := job.data[1400 * i..if 1400 * i + 1400 <= |job.data| then 1400 * i + 1400 else |job.data|];
            var b := Request(job, i);
            && |part| <= 1400 && |b| >= 20 + |part|
            && LaidOut(b, Frame(job.slot, 0, job.cmd % 0x10000, i, Fragments(|job.data|), part, 0),
                       job.crc(b[..16 + |part|]))
  {
    hide LaidOut, Load, Header;
    var f := Frame(job.slot, 0, job.cmd % 0x10000, i, Fragments(|job.data|), Fragment(job.data, i), 0);
    SealedCoversAll(f, job.crc);
  }

  /** The inner loop: one fragment, until it is acknowledged or the retries are used up. */
  method SendFragment(job: Job, cmd0: u16, attempts: nat -> Attempt, index: nat, sum: nat, pos: nat, sendLen: nat,
                      cmdIn: u16, cntIn: nat, ghost logIn: seq<Try>)
    returns (code: Code, cmd: u16, cnt: nat, ghost log: seq<Try>)
    requires ValidJob(job) && index < sum == Fragments(|job.data|) < 0x1_0000_0000
    requires forall k: nat :: attempts(k).Reply? ==> |attempts(k).bytes| < 0x8000_0000
    requires pos == index * DATA_MAX < |job.data| && sendLen == Min(DATA_MAX, |job.data| - pos)
    requires LogOk(job, cmd0, attempts, logIn) && Acked(logIn) == index && cmdIn == LastCmd(cmd0, logIn)
    requires cntIn < MAX_RETRY && |logIn| == index + cntIn
    ensures LogOk(job, cmd0, attempts, log) && cmd == LastCmd(cmd0, log) && cnt <= MAX_RETRY
    ensures code == OpenFailed ==> attempts(|log|).OpenFails? && Acked(log) == index && |log| == index + cnt
    ensures code == ConnectFailed ==> attempts(|log|).ConnectFails? && Acked(log) == index && |log| == index + cnt
    ensures code == Success ==>
              if cmd == SUCCESS_CMD then Acked(log) == index + 1 && |log| == index + 1 + cnt
              else Acked(log) == index && cnt == MAX_RETRY && |log| == index + 1 + cnt
    ensures code != TimeOut
  {
    hide TryOk, LogOk, Acked, Load, RequestFrame, Parse, CmdAfter;
    code, cmd, cnt, log := Success, cmdIn, cntIn, logIn;
    while true
      invariant cntIn <= cnt <= MAX_RETRY && code == Success
      invariant LogOk(job, cmd0, attempts, log) && cmd == LastCmd(cmd0, log)
      invariant Acked(log) == index && |log| == index + cnt
      decreases MAX_RETRY - cnt
    {
      var attempt := attempts(index + cnt);
      if attempt.OpenFails? {
        return OpenFailed, cmd, cnt, log;
      }
      if attempt.ConnectFails? {
        return ConnectFailed, cmd, cnt, log;
      }
      assert job.data[pos..pos + sendLen] == Fragment(job.data, index);
      var request := Load(RequestFrame(job.slot, job.cmd, index, sum, job.data[pos..pos + sendLen], job.crc));
      cmd := CmdAfter(cmd, attempt.bytes, job.crc);
      ghost var t := Try(index, request, attempt.bytes, cmd);
      OneTry(job, cmd0, attempts, log, t);
      AckedSnoc(log, t);
      log := log + [t];
      if cmd == SUCCESS_CMD || cnt >= MAX_RETRY {
        break;
      }
      cnt := cnt + 1;
    }
  }

  lemma OneTry(job: Job, cmd0: u16, attempts: nat -> Attempt, log: seq<Try>, t: Try)
    requires ValidJob(job) && LogOk(job, cmd0, attempts, log)
    requires t.index == Acked(log) && t.index < Fragments(|job.data|) < 0x1_0000_0000
    requires t.index * DATA_MAX <= |job.data|
    requires t.request == Request(job, t.index)
    requires attempts(|log|) == Reply(t.reply) && |t.reply| < 0x8000_0000
    requires t.cmd == CmdAfter(LastCmd(cmd0, log), t.reply, job.crc)
    ensures LogOk(job, cmd0, attempts, log + [t])
  {
    assert (log + [t])[..|log|] == log;
    LogSnoc(job, cmd0, attempts, log, t);
  }

  /**
    IPComm_SendData. On success every fragment was acknowledged, in order, so the acknowledged
    fragments are the whole data, and at most two attempts of the whole transfer failed. No
    transfer makes more than three attempts more than there are fragments.
   */
  method SendData(job: Job, cmd0: u16, attempts: nat -> Attempt) returns (code: Code, had: nat, ghost log: seq<Try>)
    requires ValidJob(job)
    requires forall k: nat :: attempts(k).Reply? ==> |attempts(k).bytes| < 0x8000_0000
    ensures LogOk(job, cmd0, attempts, log)
    ensures |log| <= Fragments(|job.data|) + MAX_RETRY
    ensures had == Min(|job.data|, Acked(log) * DATA_MAX)
    ensures code == Success ==> Acked(log) == Fragments(|job.data|) && had == |job.data| && |log| <= Acked(log) + 2
    ensures code == OpenFailed ==> attempts(|log|).OpenFails?
    ensures code == ConnectFailed ==> attempts(|log|).ConnectFails?
    ensures code == TimeOut ==> |log| - Acked(log) >= 3
  {
    hide TryOk, LogOk;
    var len := |job.data|;
    SmallCount(len);
    var sum := len / DATA_MAX + (if len % DATA_MAX == 0 then 0 else 1);
    var pos: nat, cnt: nat, cmd: u16 := 0, 0, cmd0;
    had, log := 0, [];
    NoTries(job, cmd0, attempts);
    code := Success;
    var index := 0;
    while index < sum
      invariant 0 <= index <= sum == Fragments(len) && LogOk(job, cmd0, attempts, log)
      invariant Acked(log) == index && had == pos == Min(len, index * DATA_MAX)
      invariant cmd == LastCmd(cmd0, log) && |log| == index + cnt && cnt < MAX_RETRY && code == Success
    {
      FragmentBounds(len, index);
      var should := len - had;
      var sendLen := if should > DATA_MAX then DATA_MAX else should;
      code, cmd, cnt, log := SendFragment(job, cmd0, attempts, index, sum, pos, sendLen, cmd, cnt, log);
      if code == OpenFailed || code == ConnectFailed {
        return;
      }
      if cmd == SUCCESS_CMD {
        had := had + sendLen;
        pos := pos + sendLen;
      }
      if cnt >= MAX_RETRY {
        return TimeOut, had, log;
      }
      index := index + 1;
    }
    FragmentBounds(len, sum);
    return Success, had, log;
  }

  // ---------------------------------------------------------------- what was acknowledged

  function Joined(data: seq<byte>, n: nat): seq<byte>
    requires n <= Fragments(|data|)
  {
    data[..Min(|data|, n * DATA_MAX)]
  }

  lemma JoinedStep(data: seq<byte>, i: nat)
    requires i < Fragments(|data|)
    ensures i * DATA_MAX < |data|
    ensures Joined(data, i + 1) == Joined(data, i) + Fragment(data, i)
    ensures |Joined(data, i)| == i * DATA_MAX
  {
    FragmentBounds(|data|, i);
  }

  lemma AllJoined(data: seq<byte>)
    ensures Joined(data, Fragments(|data|)) == data && Joined(data, 0) == []
  {
    FragmentBounds(|data|, Fragments(|data|));
  }

  /** The data of the acknowledged attempts, one after the other. */
  function AckedData(data: seq<byte>, log: seq<Try>): seq<byte> {
    if log == [] then []
    else
      var t := log[|log| - 1];
      AckedData(data, log[..|log| - 1])
      + (if t.cmd == SUCCESS_CMD && t.index * DATA_MAX <= |data| then Fragment(data, t.index) else [])
  }

  /** The acknowledged fragments make up the beginning of the data; once all are acknowledged, the whole. */
  lemma {:induction false} AckedDataIsPrefix(job: Job, cmd0: u16, attempts: nat -> Attempt, log: seq<Try>)
    requires LogOk(job, cmd0, attempts, log)
    ensures Acked(log) <= Fragments(|job.data|) && AckedData(job.data, log) == Joined(job.data, Acked(log))
    ensures Acked(log) == Fragments(|job.data|) ==> AckedData(job.data, log) == job.data
  {
    hide TryOk, Fragment, Joined;
    AllJoined(job.data);
    if log != [] {
      var n := |log| - 1;
      FewerTries(job, cmd0, attempts, log);
      AckedDataIsPrefix(job, cmd0, attempts, log[..n]);
      TryIndex(job, cmd0, attempts, log, n);
      JoinedStep(job.data, Acked(log[..n]));
    }
  }

  lemma {:induction false} FewerTries(job: Job, cmd0: u16, attempts: nat -> Attempt, log: seq<Try>)
    requires LogOk(job, cmd0, attempts, log) && log != []
    ensures LogOk(job, cmd0, attempts, log[..|log| - 1])
  {
    hide CmdAfter, RequestFrame, Load;
    var less := log[..|log| - 1];
    forall k | 0 <= k < |less| ensures TryOk(job, cmd0, attempts, less, k) {
      assert less[..k] == log[..k] && less[k] == log[k];
      assert TryOk(job, cmd0, attempts, log, k);
    }
  }

  lemma TryIndex(job: Job, cmd0: u16, attempts: nat -> Attempt, log: seq<Try>, k: nat)
    requires LogOk(job, cmd0, attempts, log) && k < |log|
    ensures log[k].index == Acked(log[..k]) < Fragments(|job.data|)
  {
    assert TryOk(job, cmd0, attempts, log, k);
  }
}
