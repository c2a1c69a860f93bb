/**
  A whole transfer: a sender, a network that may damage or cut short what it carries, and a receiver.
 */
module IpTransfer {
  import opened Bytes
  import opened IpFrame
  import opened IpSender
  import opened IpReceiver

  /**
    The sender's job and its attempts so far, what arrived of each request, and the receiver: the
    structure it starts with, its slot, and its memory.
   */
  datatype Transfer = Transfer(
    job: Job, cmd0: u16, attempts: nat -> Attempt, log: seq<Try>,
    delivered: seq<seq<byte>>, last: Frame, slot: byte, malloc: nat -> bool)

  /** The reply of the receiver to a request. */
  function ReplyFrame(slot: byte, cmd: u16, crc: Crc): Frame { Sealed(Frame(slot, 0, cmd, 0, 1, [], 0), crc) }

  /** Something arrived as it was sent, or so that its length or its CRC tells. */
  ghost predicate Arrives(sent: seq<byte>, got: seq<byte>, crc: Crc) {
    && |got| < 0x8000_0000
    && (got == sent || Parse(got, crc).TooShort? || Parse(got, crc).BadLength? || Parse(got, crc).BadCrc?)
  }

  /** A frame that the receiver answers with an error, and otherwise ignores. */
  ghost predicate Harmless(f: Frame) { f.cmd != SEND_UPGRADE && f.cmd != SEND_DATA && !Acknowledged(f.cmd) }

  /** An upgrade over such a network. */
  ghost predicate Valid(t: Transfer) {
    && ValidJob(t.job) && t.job.cmd % 0x10000 == SEND_UPGRADE && t.malloc(0)
    && LogOk(t.job, t.cmd0, t.attempts, t.log) && |t.log| <= Fragments(|t.job.data|) + MAX_RETRY
    && |t.delivered| == |t.log|
    && (forall k :: 0 <= k < |t.log| ==> Arrives(t.log[k].request, t.delivered[k], t.job.crc))
  }

  /** The first request is not cut short, or the receiver's structure starts harmless. */
  ghost predicate SafeStart(t: Transfer)
    requires Valid(t)
  {
    t.log != [] && |t.delivered[0]| < MIN_LEN ==> Harmless(t.last)
  }

  lemma Sizes(t: Transfer)
    requires Valid(t)
    ensures |t.job.data| < M32 && Fragments(|t.job.data|) + 10 < M32 && |t.delivered| == |t.log|
    ensures |t.job.data| > 0 ==> Fragments(|t.job.data|) > 0
    ensures |t.job.data| == 0 ==> Fragments(|t.job.data|) == 0
  {
    FragmentBounds(|t.job.data|, 0);
  }

  /** The receiver after the first k requests. */
  ghost function After(t: Transfer, k: nat): State
    requires Valid(t) && k <= |t.log|
    decreases k, 0
  {
    if k == 0 then Fresh(t.last) else Served(t, k - 1).0
  }

  /** What the receiver makes of request k, and the command it replies. */
  ghost function Served(t: Transfer, k: nat): (State, u16)
    requires Valid(t) && k < |t.log|
    decreases k, 1
  {
    Serve(After(t, k), t.delivered[k], t.job.crc, t.malloc)
  }

  /** Request k arrived as it was sent. */
  ghost predicate Intact(t: Transfer, k: nat)
    requires Valid(t) && k < |t.log|
  {
    t.delivered[k] == t.log[k].request
  }

  /** The reply to request k as it was sent. */
  ghost function ReplyTo(t: Transfer, k: nat): seq<byte>
    requires Valid(t) && k < |t.log|
  {
    Load(ReplyFrame(t.slot, Served(t, k).1, t.job.crc))
  }

  ghost predicate RepliesArrive(t: Transfer)
    requires Valid(t)
  {
    forall k :: 0 <= k < |t.log| ==> Arrives(ReplyTo(t, k), t.log[k].reply, t.job.crc)
  }

  /** The receiver says success, and the sender finds it, exactly if the request arrived as it was sent. */
  ghost predicate Honest(t: Transfer, k: nat)
    requires Valid(t) && k < |t.log|
  {
    (Served(t, k).1 == SUCCESS_CMD <==> Intact(t, k)) && (t.log[k].cmd == SUCCESS_CMD <==> Intact(t, k))
  }

  ghost predicate HonestUpTo(t: Transfer, n: nat)
    requires Valid(t) && n <= |t.log|
  {
    forall k :: 0 <= k < n ==> Honest(t, k)
  }

  /** The size of the whole block does not wrap. */
  predicate NoWrap(n: nat) { DATA_MAX * Fragments(n) < M32 }

  /** The file that an undisturbed transfer hands on. */
  function FileOf(data: seq<byte>): File
    requires |data| < M32 && Fragments(|data|) < M32
  {
    File(Image(Whole(data), Block(Fragments(|data|))), |data|)
  }

  // ---------------------------------------------------------------- what the receiver can be in

  /** The receiver has exactly the first n fragments. */
  ghost predicate InStep(st: State, data: seq<byte>, n: nat)
    requires Fragments(|data|) < M32 && |data| < M32
  {
    var sum := Fragments(|data|);
    && n <= sum && st.should == n
    && (n == 0 ==> st.mallocs == 0 && st.image == NoImage)
    && (0 < n < sum ==> st.image == Image(Whole(Joined(data, n)), Block(sum)) && st.recLen == |Joined(data, n)|)
    && (n < sum || |data| == 0 ==> st.files == [])
    && (n == sum && |data| > 0 ==> st.files == [FileOf(data)])
    && (n > 0 && !NoWrap(|data|) ==> !st.inside)
  }

  /** The transfer cannot lead to the file any more. */
  ghost predicate Spoiled(st: State) {
    && st.should > 0 && st.image == NoImage
    && (|st.files| >= 2 || forall j :: 0 <= j < |st.files| ==> st.files[j].image == NoImage)
  }

  /** The frame that fragment i is sent as. */
  function FrameOf(job: Job, i: nat): (f: Frame)
    requires ValidJob(job) && i < Fragments(|job.data|) < M32 && i * DATA_MAX <= |job.data|
  {
    RequestFrame(job.slot, job.cmd, i, Fragments(|job.data|), Fragment(job.data, i), job.crc)
  }

  /** A short request would be taken for the last fragment received, or for nothing. */
  ghost predicate LastIsOld(st: State, job: Job)
    requires ValidJob(job) && Fragments(|job.data|) < M32
  {
    || Harmless(st.last)
    || (0 < st.should <= Fragments(|job.data|) && (st.should - 1) * DATA_MAX <= |job.data|
        && st.last == FrameOf(job, st.should - 1))
  }

  // ---------------------------------------------------------------- one request

  lemma FrameFields(job: Job, i: nat)
    requires ValidJob(job) && i < Fragments(|job.data|) < M32 && i * DATA_MAX <= |job.data|
    ensures var f := FrameOf(job, i);
            && f.cur == i && f.sum == Fragments(|job.data|) && f.data == Fragment(job.data, i)
            && f.cmd == job.cmd % 0x10000
  {
  }

  lemma JoinedSize(data: seq<byte>, n: nat)
    requires n <= Fragments(|data|)
    ensures |Joined(data, n)| <= |data|
  {
  }

  /** A block whose size wraps is too small for its first fragment. */
  lemma WrappedIsSmall(data: seq<byte>)
    requires |data| < M32 && Fragments(|data|) < M32 && !NoWrap(|data|)
    ensures !Fits(0, |Fragment(data, 0)|, Block(Fragments(|data|))) && Fragments(|data|) > 1
  {
    var q, r := |data| / DATA_MAX, |data| % DATA_MAX;
    assert |data| == q * DATA_MAX + r && 0 <= r < DATA_MAX;
    assert DATA_MAX * Fragments(|data|) < M32 + DATA_MAX;
  }

  /** The fragment that is expected brings the receiver one step further. */
  lemma {:induction false} FragmentArrives(st: State, f: Frame, data: seq<byte>, i: nat, malloc: nat -> bool)
    requires |data| < M32 && i < Fragments(|data|) < M32 && i * DATA_MAX <= |data| && malloc(0)
    requires InStep(st, data, i)
    requires f.cur == i && f.sum == Fragments(|data|) && f.data == Fragment(data, i)
    ensures InStep(Upgrade(st, f, malloc), data, i + 1)
  {
    hide Written, Whole, Fragment, Joined, Block, Fits, NoWrap;
    JoinedStep(data, i);
    AllJoined(data);
    WrittenInFront(f.data);
    WrittenBehind(Joined(data, i), f.data);
    JoinedSize(data, i + 1);
    assert i == 0 ==> Joined(data, 0) + f.data == f.data;
    if i == 0 && !NoWrap(|data|) {
      WrappedIsSmall(data);
    }
  }

  /** Any other fragment spoils it. */
  lemma {:induction false} WrongFragment(st: State, f: Frame, data: seq<byte>, n: nat, malloc: nat -> bool)
    requires 0 < |data| < M32 && Fragments(|data|) + 1 < M32 && InStep(st, data, n)
    requires f.cur != n && (n < Fragments(|data|) || f.cur == LastIndex(f.sum))
    ensures Spoiled(Upgrade(st, f, malloc))
  {
    hide Written, Whole, Joined, Block, Fits, NoWrap, Fragments;
  }

  /** Whatever comes in, what is spoiled stays so. */
  lemma {:induction false} SpoiledStays(st: State, f: Frame, malloc: nat -> bool)
    requires Spoiled(st) && st.should + 1 < M32
    ensures Spoiled(Respond(st, f, malloc).0) && Respond(st, f, malloc).0.should <= st.should + 1
  {
    hide Written, Whole, Block, Fits;
  }

  /** What the receiver makes of the bytes that arrive for fragment i. */
  lemma {:induction false} RequestIsRead(job: Job, i: nat, got: seq<byte>, last: Frame)
    requires ValidJob(job) && i < Fragments(|job.data|) < M32 && i * DATA_MAX <= |job.data|
    requires Arrives(Request(job, i), got, job.crc)
    ensures !Parse(got, job.crc).TooLong?
    ensures AfterParse(last, got, job.crc)
         == if got == Request(job, i) then FrameOf(job, i) else if |got| < MIN_LEN then last else BLANK
  {
    hide Header, Load, Parse;
    var frame := Frame(job.slot, 0, job.cmd % 0x10000, i, Fragments(|job.data|), Fragment(job.data, i), 0);
    ParseOfLoad(frame, job.crc);
    LoadIsLong(FrameOf(job, i));
    ShortIsShort(got, job.crc);
    if got == Request(job, i) {
      assert Parse(got, job.crc) == Ok(Sealed(frame, job.crc).(res := 0));
    }
  }

  lemma LoadIsLong(f: Frame)
    requires |f.data| <= DATA_MAX
    ensures |Load(f)| >= MIN_LEN
  {
  }

  lemma ShortIsShort(got: seq<byte>, crc: Crc)
    requires |got| < 0x8000_0000
    ensures Parse(got, crc).TooShort? <==> |got| < MIN_LEN
  {
  }

  /** The command the sender finds after whatever arrives of a reply. */
  lemma {:induction false} ReplyIsRead(slot: byte, cmd: u16, cmd0: u16, got: seq<byte>, crc: Crc)
    requires Arrives(Load(ReplyFrame(slot, cmd, crc)), got, crc)
    ensures CmdAfter(cmd0, got, crc)
         == if got == Load(ReplyFrame(slot, cmd, crc)) then cmd else if |got| < MIN_LEN then cmd0 else NONE_CMD
  {
    hide Header, Load, Parse;
    ParseOfLoad(Frame(slot, 0, cmd, 0, 1, [], 0), crc);
    LoadIsLong(ReplyFrame(slot, cmd, crc));
    ShortIsShort(got, crc);
  }

  // ---------------------------------------------------------------- one attempt, seen from both ends

  /** Fragment i arrives intact at a receiver in step with n fragments. */
  lemma {:induction false} ArrivesIntact(job: Job, i: nat, n: nat, st: State, malloc: nat -> bool)
    requires ValidJob(job) && job.cmd % 0x10000 == SEND_UPGRADE && malloc(0)
    requires 0 < |job.data| && i < Fragments(|job.data|) && Fragments(|job.data|) + 1 < M32
    requires i * DATA_MAX <= |job.data|
    requires InStep(st, job.data, n) && (n < Fragments(|job.data|) || n == i + 1)
    ensures var f := FrameOf(job, i);
            var st1 := Upgrade(st.(last := f), f, malloc);
            && (n == i ==> InStep(st1, job.data, n + 1) && LastIsOld(st1, job))
            && (n != i ==> Spoiled(st1))
            && st1.should == n + 1
  {
    hide InStep, Upgrade, FrameOf, Fragment, Spoiled;
    var f := FrameOf(job, i);
    var st0 := st.(last := f);
    LastDoesNotMatter(st, f, job.data, n);
    CountIs(st, job.data, n);
    CountsOn(st0, f, malloc);
    FrameFields(job, i);
    if n == i {
      FragmentArrives(st0, f, job.data, i, malloc);
    } else {
      WrongFragment(st0, f, job.data, n, malloc);
    }
  }

  /** What the network makes of fragment i at such a receiver: received, mistaken for the one before, or ignored. */
  lemma {:induction false} OneExchange(job: Job, i: nat, n: nat, st: State, got: seq<byte>, malloc: nat -> bool)
    requires ValidJob(job) && job.cmd % 0x10000 == SEND_UPGRADE && malloc(0)
    requires 0 < |job.data| && i < Fragments(|job.data|) && Fragments(|job.data|) + 1 < M32
    requires i * DATA_MAX <= |job.data|
    requires InStep(st, job.data, n) && (n < Fragments(|job.data|) || n == i + 1)
    requires Arrives(Request(job, i), got, job.crc) && (|got| < MIN_LEN ==> LastIsOld(st, job))
    ensures var (st1, r) := Serve(st, got, job.crc, malloc);
            && (got == Request(job, i) ==> r == SUCCESS_CMD)
            && (got == Request(job, i) && n == i ==> InStep(st1, job.data, n + 1) && LastIsOld(st1, job))
            && (got == Request(job, i) && n != i ==> Spoiled(st1))
            && (got != Request(job, i) && r == SUCCESS_CMD ==> Spoiled(st1) && |got| < MIN_LEN)
            && (got != Request(job, i) && r != SUCCESS_CMD ==> InStep(st1, job.data, n) && Harmless(st1.last))
            && st1.should <= st.should + 1
  {
    hide InStep, Upgrade, Load, AfterParse, FrameOf, Parse, Fragment, Spoiled;
    RequestIsRead(job, i, got, st.last);
    var f := AfterParse(st.last, got, job.crc);
    CountIs(st, job.data, n);
    if got == Request(job, i) {
      FrameFields(job, i);
      ArrivesIntact(job, i, n, st, malloc);
    } else if Harmless(f) {
      LastDoesNotMatter(st, f, job.data, n);
    } else {
      FrameFields(job, n - 1);
      ArrivesIntact(job, n - 1, n, st, malloc);
    }
  }

  lemma CountsOn(st: State, f: Frame, malloc: nat -> bool)
    ensures Upgrade(st, f, malloc).should == Wrap(st.should + 1) && Upgrade(st, f, malloc).last == st.last
  {
  }

  lemma CountIs(st: State, data: seq<byte>, n: nat)
    requires |data| < M32 && Fragments(|data|) < M32 && InStep(st, data, n)
    ensures st.should == n <= Fragments(|data|)
  {
  }

  lemma LastDoesNotMatter(st: State, f: Frame, data: seq<byte>, n: nat)
    requires Fragments(|data|) < M32 && |data| < M32
    ensures InStep(st, data, n) <==> InStep(st.(last := f), data, n)
  {
  }

  // ---------------------------------------------------------------- a whole run

  /**
    A receiver after some attempts, when the sender has `acked` acknowledgements and `left` in its
    reply structure. As long as every exchange was honest the receiver has what was acknowledged.
    Otherwise it is spoiled, or behind the sender, or one ahead of it with no success left over.
   */
  ghost predicate Course(st: State, job: Job, acked: nat, left: u16, honest: bool)
    requires ValidJob(job) && Fragments(|job.data|) < M32
  {
    && acked <= Fragments(|job.data|)
    && (honest ==> InStep(st, job.data, acked))
    && (!honest ==>
          || Spoiled(st)
          || (InStep(st, job.data, st.should)
              && (st.should < acked || (st.should == acked + 1 && left != SUCCESS_CMD))))
  }

  lemma NotSpoiled(st: State, data: seq<byte>, n: nat)
    requires |data| < M32 && n < Fragments(|data|) < M32 && InStep(st, data, n)
    ensures !Spoiled(st)
  {
  }

  lemma CountBound(n: nat)
    requires n < M32
    ensures Fragments(n) + 10 < M32
  {
  }

  /** A spoiled receiver, whatever arrives. */
  lemma {:induction false} SpoiledExchange(st: State, got: seq<byte>, crc: Crc, malloc: nat -> bool)
    requires Spoiled(st) && st.should + 1 < M32 && |got| < 0x8000_0000
    ensures Spoiled(Serve(st, got, crc, malloc).0) && Serve(st, got, crc, malloc).0.should <= st.should + 1
  {
    hide AfterParse, Parse, Respond;
    var f := AfterParse(st.last, got, crc);
    SpoiledStays(st.(last := f, inside := st.inside && !Parse(got, crc).TooLong?), f, malloc);
  }

  /** One attempt: the sender finds `cmd`, which is no success if the receiver sent none and none was left over. */
  lemma {:induction false} CourseStep(job: Job, st: State, acked: nat, left: u16, honest: bool, got: seq<byte>,
                                      malloc: nat -> bool, cmd: u16)
    requires ValidJob(job) && job.cmd % 0x10000 == SEND_UPGRADE && malloc(0)
    requires 0 < |job.data| && acked < Fragments(|job.data|) && Fragments(|job.data|) + 1 < M32
    requires acked * DATA_MAX <= |job.data| && st.should + 1 < M32
    requires Course(st, job, acked, left, honest) && Arrives(Request(job, acked), got, job.crc)
    requires |got| < MIN_LEN ==> Spoiled(st) || LastIsOld(st, job)
    requires Serve(st, got, job.crc, malloc).1 != SUCCESS_CMD && left != SUCCESS_CMD ==> cmd != SUCCESS_CMD
    ensures var (st1, r) := Serve(st, got, job.crc, malloc);
            var intact := got == Request(job, acked);
            && Course(st1, job, acked + (if cmd == SUCCESS_CMD then 1 else 0), cmd,
                      honest && (r == SUCCESS_CMD <==> intact) && (cmd == SUCCESS_CMD <==> intact))
            && (Spoiled(st1) || LastIsOld(st1, job)) && st1.should <= st.should + 1
  {
    hide InStep, Spoiled, Serve, Load, Fragments, Harmless, RequestFrame, FrameOf, Fragment, Parse;
    if Spoiled(st) {
      SpoiledExchange(st, got, job.crc, malloc);
      if honest {
        NotSpoiled(st, job.data, acked);
      }
    } else {
      var n := if honest then acked else st.should;
      OneExchange(job, acked, n, st, got, malloc);
      CountIs(st, job.data, n);
      var st1 := Serve(st, got, job.crc, malloc).0;
      if InStep(st1, job.data, n) {
        CountIs(st1, job.data, n);
      }
      if InStep(st1, job.data, n + 1) {
        CountIs(st1, job.data, n + 1);
      }
    }
  }

  /** The state of both ends after k attempts. */
  ghost predicate CourseAt(t: Transfer, k: nat)
    requires Valid(t) && Fragments(|t.job.data|) < M32 && k <= |t.log|
  {
    var st := After(t, k);
    && Course(st, t.job, Acked(t.log[..k]), LastCmd(t.cmd0, t.log[..k]), HonestUpTo(t, k))
    && st.should <= k && (k > 0 || Harmless(t.last) ==> Spoiled(st) || LastIsOld(st, t.job))
  }

  lemma {:induction false} CourseBegins(t: Transfer)
    requires Valid(t) && Fragments(|t.job.data|) < M32
    ensures CourseAt(t, 0)
  {
    hide LogOk, Arrives, Spoiled;
    assert t.log[..0] == [];
    FragmentBounds(|t.job.data|, 0);
  }

  lemma HonestSnoc(t: Transfer, k: nat)
    requires Valid(t) && k < |t.log|
    ensures HonestUpTo(t, k + 1) <==> HonestUpTo(t, k) && Honest(t, k)
  {
  }

  /** Attempt k, as the sender sees it. */
  lemma {:induction false} SenderSees(t: Transfer, k: nat)
    requires Valid(t) && k < |t.log| && Fragments(|t.job.data|) < M32
    ensures var i := Acked(t.log[..k]);
            && i < Fragments(|t.job.data|) && i * DATA_MAX <= |t.job.data| && t.log[k].request == Request(t.job, i)
            && 0 < |t.job.data|
    ensures Acked(t.log[..k + 1]) == Acked(t.log[..k]) + (if t.log[k].cmd == SUCCESS_CMD then 1 else 0)
    ensures LastCmd(t.cmd0, t.log[..k + 1]) == t.log[k].cmd
    ensures |t.log[k].reply| < 0x8000_0000 && |t.delivered[k]| < 0x8000_0000
    ensures t.log[k].cmd == CmdAfter(LastCmd(t.cmd0, t.log[..k]), t.log[k].reply, t.job.crc)
  {
    hide Load, CmdAfter, Acked, Parse, Fragment, RequestFrame;
    assert TryOk(t.job, t.cmd0, t.attempts, t.log, k);
    assert t.log[..k + 1] == t.log[..k] + [t.log[k]];
    AckedSnoc(t.log[..k], t.log[k]);
    FragmentBounds(|t.job.data|, 0);
  }

  lemma {:induction false} CourseGoesOn(t: Transfer, k: nat)
    requires Valid(t) && SafeStart(t) && RepliesArrive(t) && k < |t.log| && Fragments(|t.job.data|) + 10 < M32
    requires CourseAt(t, k)
    ensures CourseAt(t, k + 1)
  {
    hide Course, Spoiled, LastIsOld, HonestUpTo, Serve, LogOk, Arrives, Load, CmdAfter, Acked, Fragments, Harmless;
    SenderSees(t, k);
    HonestSnoc(t, k);
    var left := LastCmd(t.cmd0, t.log[..k]);
    ReplyIsRead(t.slot, Served(t, k).1, left, t.log[k].reply, t.job.crc);
    CourseStep(t.job, After(t, k), Acked(t.log[..k]), left, HonestUpTo(t, k), t.delivered[k], t.malloc, t.log[k].cmd);
  }

  lemma {:induction false} CourseThroughout(t: Transfer, k: nat)
    requires Valid(t) && SafeStart(t) && RepliesArrive(t) && k <= |t.log| && Fragments(|t.job.data|) + 10 < M32
    ensures CourseAt(t, k)
  {
    hide CourseAt, Valid, RepliesArrive, Fragments;
    if k == 0 {
      CourseBegins(t);
    } else {
      CourseThroughout(t, k - 1);
      CourseGoesOn(t, k - 1);
    }
  }

  lemma {:induction false} EndOfCourse(st: State, job: Job, left: u16, honest: bool)
    requires ValidJob(job) && 0 < |job.data| && 0 < Fragments(|job.data|) < M32
    requires Course(st, job, Fragments(|job.data|), left, honest)
    ensures st.files == [FileOf(job.data)] <==> honest
    ensures honest && st.inside ==> NoWrap(|job.data|)
  {
    hide Fragments, Whole, Joined, NoWrap;
    if st.files == [FileOf(job.data)] {
      assert st.files[0].image.Image?;
    }
  }

  // ---------------------------------------------------------------- staying inside the block

  /** Copying the next fragment stays inside the block. */
  ghost predicate HasRoom(st: State, sum: nat) {
    && st.inside
    && (st.image.Image? ==> st.should < sum && st.recLen <= DATA_MAX * st.should && st.image.size == DATA_MAX * sum)
  }

  /** A frame of this transfer, or one that does nothing. */
  ghost predicate IsOurs(f: Frame, sum: nat) {
    Harmless(f) || (f.cmd == SEND_UPGRADE && f.sum == sum && |f.data| <= DATA_MAX)
  }

  lemma {:induction false} RoomStays(st: State, f: Frame, sum: nat, malloc: nat -> bool)
    requires HasRoom(st, sum) && IsOurs(f, sum) && 0 < sum && DATA_MAX * sum < M32
    ensures HasRoom(Respond(st, f, malloc).0, sum)
  {
    hide Written;
    assert DATA_MAX <= DATA_MAX * sum;
    assert st.should < sum ==> DATA_MAX * (st.should + 1) <= DATA_MAX * sum;
  }

  lemma {:induction false} RoomThroughout(t: Transfer, k: nat)
    requires Valid(t) && SafeStart(t) && k <= |t.log| && NoWrap(|t.job.data|)
    ensures HasRoom(After(t, k), Fragments(|t.job.data|))
    ensures k > 0 || Harmless(t.last) ==> IsOurs(After(t, k).last, Fragments(|t.job.data|))
  {
    hide LogOk, Arrives, Parse, AfterParse, HasRoom, Acked, Fragment, FrameOf, Respond, Load, Fragments;
    if k == 0 {
      assert HasRoom(Fresh(t.last), Fragments(|t.job.data|)) by {
        RoomAtFirst(t.last, Fragments(|t.job.data|));
      }
    } else {
      RoomThroughout(t, k - 1);
      SenderSees(t, k - 1);
      var i, got, st := Acked(t.log[..k - 1]), t.delivered[k - 1], After(t, k - 1);
      RequestIsRead(t.job, i, got, st.last);
      FrameFields(t.job, i);
      var f := AfterParse(st.last, got, t.job.crc);
      RoomWithoutLast(st, f, Fragments(|t.job.data|));
      RoomStays(st.(last := f), f, Fragments(|t.job.data|), t.malloc);
      LastStays(st.(last := f), f, t.malloc);
    }
  }

  lemma RoomAtFirst(last: Frame, sum: nat)
    ensures HasRoom(Fresh(last), sum)
  {
  }

  lemma RoomWithoutLast(st: State, f: Frame, sum: nat)
    requires HasRoom(st, sum)
    ensures HasRoom(st.(last := f), sum) && st.inside
  {
  }

  lemma LastStays(st: State, f: Frame, malloc: nat -> bool)
    ensures Respond(st, f, malloc).0.last == st.last
  {
  }

  // ---------------------------------------------------------------- end to end

  /**
    End to end, for any number of fragments, with requests and replies that arrive as sent, damaged
    or cut short. When the sender has found an acknowledgement for every fragment, the receiver has
    handed on the data, and nothing else, without leaving its memory, exactly if every exchange was
    honest and the size of the whole does not wrap.
   */
  lemma {:induction false} SuccessIsTheFile(t: Transfer)
    requires Valid(t) && SafeStart(t) && RepliesArrive(t) && 0 < |t.job.data|
    requires Acked(t.log) == Fragments(|t.job.data|)
    ensures Fragments(|t.job.data|) < M32
    ensures var st := After(t, |t.log|);
            && (st.inside && st.files == [FileOf(t.job.data)] <==>
                  HonestUpTo(t, |t.log|) && NoWrap(|t.job.data|))
            && (NoWrap(|t.job.data|) ==> st.inside)
  {
    hide RepliesArrive, Honest, Acked, LastCmd, After, LogOk, Arrives, Spoiled, LastIsOld, Course, NoWrap;
    CountBound(|t.job.data|);
    CourseThroughout(t, |t.log|);
    assert t.log[..|t.log|] == t.log;
    FragmentBounds(|t.job.data|, 0);
    EndOfCourse(After(t, |t.log|), t.job, LastCmd(t.cmd0, t.log), HonestUpTo(t, |t.log|));
    if NoWrap(|t.job.data|) {
      RoomThroughout(t, |t.log|);
    }
  }

  /** No request was cut short. */
  ghost predicate NoShortRequest(t: Transfer)
    requires Valid(t)
  {
    forall k :: 0 <= k < |t.log| ==> |t.delivered[k]| >= MIN_LEN
  }

  ghost predicate RepliesIntact(t: Transfer)
    requires Valid(t)
  {
    forall k :: 0 <= k < |t.log| ==> t.log[k].reply == ReplyTo(t, k)
  }

  /** Which exchanges are honest, given what the network did to request and reply. */
  lemma {:induction false} WhatIsHonest(t: Transfer, k: nat)
    requires Valid(t) && RepliesArrive(t) && k < |t.log| && Fragments(|t.job.data|) < M32
    ensures Intact(t, k) ==> Served(t, k).1 == SUCCESS_CMD && |t.delivered[k]| >= MIN_LEN
    ensures |ReplyTo(t, k)| >= MIN_LEN
    ensures Served(t, k).1 == SUCCESS_CMD && !Intact(t, k) ==> |t.delivered[k]| < MIN_LEN
    ensures t.log[k].cmd == if t.log[k].reply == ReplyTo(t, k) then Served(t, k).1
                            else if |t.log[k].reply| < MIN_LEN then LastCmd(t.cmd0, t.log[..k])
                            else NONE_CMD
  {
    hide LogOk, Arrives, Parse, AfterParse, Acked, Fragment, FrameOf, Upgrade, Load, Fragments, CmdAfter;
    SenderSees(t, k);
    var i := Acked(t.log[..k]);
    RequestIsRead(t.job, i, t.delivered[k], After(t, k).last);
    FrameFields(t.job, i);
    LoadIsLong(FrameOf(t.job, i));
    LoadIsLong(ReplyFrame(t.slot, Served(t, k).1, t.job.crc));
    ReplyIsRead(t.slot, Served(t, k).1, LastCmd(t.cmd0, t.log[..k]), t.log[k].reply, t.job.crc);
  }

  /**
    With intact replies: success means the file exactly if no request that arrived short was
    acknowledged. The receiver takes such a request for the frame before it.
   */
  lemma {:induction false} ShortRequests(t: Transfer)
    requires Valid(t) && SafeStart(t) && RepliesIntact(t) && 0 < |t.job.data|
    requires Acked(t.log) == Fragments(|t.job.data|)
    ensures Fragments(|t.job.data|) < M32
    ensures var st := After(t, |t.log|);
            st.inside && st.files == [FileOf(t.job.data)] <==>
              && NoWrap(|t.job.data|)
              && forall k :: 0 <= k < |t.log| && |t.delivered[k]| < MIN_LEN ==> t.log[k].cmd != SUCCESS_CMD
  {
    hide Valid, NoWrap, After, Served, ReplyTo, Acked, Intact;
    Sizes(t);
    IntactRepliesArrive(t);
    SuccessIsTheFile(t);
    forall k | 0 <= k < |t.log|
      ensures Honest(t, k) <==> (|t.delivered[k]| < MIN_LEN ==> t.log[k].cmd != SUCCESS_CMD)
    {
      WhatIsHonest(t, k);
    }
  }

  lemma {:induction false} IntactRepliesArrive(t: Transfer)
    requires Valid(t) && RepliesIntact(t) && Fragments(|t.job.data|) < M32
    ensures RepliesArrive(t)
  {
    hide Valid, ReplyTo, Acked;
    Sizes(t);
    forall k | 0 <= k < |t.log| ensures Arrives(ReplyTo(t, k), t.log[k].reply, t.job.crc) {
      SenderSees(t, k);
    }
  }

  /**
    With requests that are not cut short: success means the file exactly if at every reply that did
    not arrive as sent the sender was left with a success just when the request had arrived. A reply
    cut short leaves the command of the reply before it, a damaged one none.
   */
  lemma {:induction false} ShortReplies(t: Transfer)
    requires Valid(t) && RepliesArrive(t) && NoShortRequest(t) && 0 < |t.job.data|
    requires Acked(t.log) == Fragments(|t.job.data|)
    ensures Fragments(|t.job.data|) < M32
    ensures var st := After(t, |t.log|);
            st.inside && st.files == [FileOf(t.job.data)] <==>
              && NoWrap(|t.job.data|)
              && forall k :: 0 <= k < |t.log| && t.log[k].reply != ReplyTo(t, k) ==>
                   (|t.log[k].reply| < MIN_LEN && LastCmd(t.cmd0, t.log[..k]) == SUCCESS_CMD <==> Intact(t, k))
  {
    hide Valid, RepliesArrive, NoWrap, After, Served, ReplyTo, Acked, Intact, LastCmd;
    Sizes(t);
    SuccessIsTheFile(t);
    forall k | 0 <= k < |t.log|
      ensures Honest(t, k) <==>
                (t.log[k].reply != ReplyTo(t, k) ==>
                   (|t.log[k].reply| < MIN_LEN && LastCmd(t.cmd0, t.log[..k]) == SUCCESS_CMD <==> Intact(t, k)))
    {
      WhatIsHonest(t, k);
    }
  }

  /**
    If nothing is cut short and replies arrive intact: all fragments acknowledged if and only if the
    receiver handed on the data, and no file otherwise, whatever its structure held at the start. It
    leaves its memory exactly when the size of the whole wraps and a fragment was acknowledged.
   */
  lemma {:induction false} TransferIsExact(t: Transfer)
    requires Valid(t) && RepliesIntact(t) && NoShortRequest(t)
    ensures Fragments(|t.job.data|) < M32
    ensures var st, all := After(t, |t.log|), Acked(t.log) == Fragments(|t.job.data|) && |t.job.data| > 0;
            && (all <==> |t.job.data| > 0 && st.files == [FileOf(t.job.data)])
            && (!all ==> st.files == [])
            && (st.inside <==> NoWrap(|t.job.data|) || Acked(t.log) == 0)
  {
    hide Valid, RepliesIntact, NoWrap, After, Served, ReplyTo, Acked, Intact, LastCmd, Course, NoShortRequest,
      Fragments;
    Sizes(t);
    IntactRepliesArrive(t);
    NoShortIsSafe(t);
    CourseThroughout(t, |t.log|);
    assert t.log[..|t.log|] == t.log;
    forall k | 0 <= k < |t.log| ensures Honest(t, k) {
      UndisturbedIsHonest(t, k);
    }
    HonestEnd(After(t, |t.log|), t.job, Acked(t.log), LastCmd(t.cmd0, t.log));
    if NoWrap(|t.job.data|) {
      RoomThroughout(t, |t.log|);
      RoomIsInside(After(t, |t.log|), Fragments(|t.job.data|));
    } else if Acked(t.log) == 0 {
      QuietIsInside(t, |t.log|);
    }
  }

  lemma NoShortIsSafe(t: Transfer)
    requires Valid(t) && NoShortRequest(t)
    ensures SafeStart(t)
  {
  }

  lemma RoomIsInside(st: State, sum: nat)
    requires HasRoom(st, sum)
    ensures st.inside
  {
  }

  lemma {:induction false} UndisturbedIsHonest(t: Transfer, k: nat)
    requires Valid(t) && RepliesIntact(t) && RepliesArrive(t) && NoShortRequest(t) && k < |t.log|
    ensures Honest(t, k)
  {
    hide Valid, ReplyTo, Acked, Intact, LastCmd, Served;
    Sizes(t);
    WhatIsHonest(t, k);
  }

  lemma {:induction false} HonestEnd(st: State, job: Job, acked: nat, left: u16)
    requires ValidJob(job) && Fragments(|job.data|) < M32 && (|job.data| == 0 <==> Fragments(|job.data|) == 0)
    requires Course(st, job, acked, left, true)
    ensures acked == Fragments(|job.data|) && |job.data| > 0 <==> |job.data| > 0 && st.files == [FileOf(job.data)]
    ensures acked != Fragments(|job.data|) || |job.data| == 0 ==> st.files == []
    ensures st.inside ==> NoWrap(|job.data|) || acked == 0
  {
    hide Fragments, Whole, Joined, NoWrap;
  }

  /** As long as nothing was acknowledged, nothing was copied. */
  lemma {:induction false} QuietIsInside(t: Transfer, k: nat)
    requires Valid(t) && RepliesIntact(t) && RepliesArrive(t) && NoShortRequest(t) && k <= |t.log|
    requires Acked(t.log[..k]) == 0
    ensures After(t, k).inside
  {
    hide LogOk, Arrives, Parse, AfterParse, Acked, Fragment, FrameOf, Upgrade, Load, Fragments, ReplyTo, RepliesArrive;
    if k > 0 {
      Sizes(t);
      SenderSees(t, k - 1);
      QuietIsInside(t, k - 1);
      UndisturbedIsHonest(t, k - 1);
      RequestIsRead(t.job, Acked(t.log[..k - 1]), t.delivered[k - 1], After(t, k - 1).last);
    }
  }

  // ---------------------------------------------------------------- what the receiver starts with

  /** The first n requests arrived cut short. */
  ghost predicate ShortUpTo(t: Transfer, n: nat)
    requires Valid(t) && n <= |t.log|
  {
    forall k :: 0 <= k < n ==> |t.delivered[k]| < MIN_LEN
  }

  /**
    As long as nothing but short requests arrives, the receiver handles the frame its structure
    started with, once for each of them, and says success unless that frame is harmless.
   */
  lemma {:induction false} ShortAtFirst(t: Transfer, n: nat)
    requires Valid(t) && n <= |t.log| && ShortUpTo(t, n)
    ensures After(t, n) == Run(Fresh(t.last), seq(n, _ => t.last), t.malloc) && After(t, n).last == t.last
    ensures forall k :: 0 <= k < n ==> Served(t, k).1 == if Harmless(t.last) then DATA_ERROR else SUCCESS_CMD
  {
    hide Upgrade, LogOk, Fragments;
    if n > 0 {
      ShortAtFirst(t, n - 1);
      var frames := seq(n, _ => t.last);
      assert frames[..n - 1] == seq(n - 1, _ => t.last);
      ShortIsShort(t.delivered[n - 1], t.job.crc);
      CountsOn(After(t, n - 1), t.last, t.malloc);
    }
  }

  /** If that frame is a fragment other than the first, the transfer is spoiled, whatever follows. */
  lemma {:induction false} StaleFragmentSpoils(t: Transfer, n: nat)
    requires Valid(t) && 0 < n <= |t.log| && ShortUpTo(t, 1) && t.last.cmd == SEND_UPGRADE && t.last.cur != 0
    ensures Spoiled(After(t, n)) && After(t, n).should <= n
    ensures |t.job.data| < M32 && Fragments(|t.job.data|) < M32 && After(t, n).files != [FileOf(t.job.data)]
  {
    hide LogOk, Fragments, Parse, FileOf, Spoiled;
    Sizes(t);
    if n == 1 {
      ShortIsShort(t.delivered[0], t.job.crc);
      FirstIsWrong(t.last, t.malloc);
      assert After(t, 0) == Fresh(t.last);
      assert After(t, 1) == Upgrade(Fresh(t.last), t.last, t.malloc);
    } else {
      StaleFragmentSpoils(t, n - 1);
      SpoiledExchange(After(t, n - 1), t.delivered[n - 1], t.job.crc, t.malloc);
    }
    SpoiledHasNoFile(After(t, n), t.job.data);
  }

  lemma FirstIsWrong(f: Frame, malloc: nat -> bool)
    requires f.cmd == SEND_UPGRADE && f.cur != 0
    ensures Spoiled(Upgrade(Fresh(f), f, malloc)) && Upgrade(Fresh(f), f, malloc).should == 1
  {
  }

  lemma SpoiledHasNoFile(st: State, data: seq<byte>)
    requires Spoiled(st) && |data| < M32 && Fragments(|data|) < M32
    ensures st.files != [FileOf(data)]
  {
    assert [FileOf(data)][0].image.Image?;
  }

  // ---------------------------------------------------------------- examples of what goes wrong

  /**
    A request that arrives with fewer than 20 bytes makes the receiver handle the request before it
    again. With two fragments, the first intact and the second cut short, both are acknowledged,
    and no file is ever handed on.
   */
  lemma {:induction false} ShortRequestIsAcknowledged(job: Job, last: Frame, slot: byte, got: seq<byte>,
                                                      malloc: nat -> bool)
    requires ValidJob(job) && job.cmd % 0x10000 == SEND_UPGRADE && Fragments(|job.data|) == 2 && |got| < MIN_LEN
    ensures DATA_MAX <= |job.data| && |Request(job, 0)| < 0x8000_0000
    ensures var (st1, r1) := Serve(Fresh(last), Request(job, 0), job.crc, malloc);
            var (st2, r2) := Serve(st1, got, job.crc, malloc);
            r1 == SUCCESS_CMD && r2 == SUCCESS_CMD && st2.files == [] && st2.image == NoImage
  {
    hide Header, Load, Written;
    FragmentBounds(|job.data|, 1);
    var frame := Frame(job.slot, 0, job.cmd % 0x10000, 0, 2, Fragment(job.data, 0), 0);
    ParseOfLoad(frame, job.crc);
    assert Request(job, 0) == Load(Sealed(frame, job.crc));
    FrameFields(job, 0);
  }

  /**
    A reply of fewer than 20 bytes leaves the command of the reply before it in place. With two
    fragments, the first acknowledged, the second damaged and answered by a short reply, the sender
    finds an acknowledgement both times, and no file is ever handed on.
   */
  lemma {:induction false} ShortReplyIsAcknowledgement(job: Job, last: Frame, slot: byte, cmd0: u16, got: seq<byte>,
                                                       reply: seq<byte>, malloc: nat -> bool)
    requires ValidJob(job) && job.cmd % 0x10000 == SEND_UPGRADE && Fragments(|job.data|) == 2 && DATA_MAX <= |job.data|
    requires |reply| < MIN_LEN && |got| < 0x8000_0000 && (Parse(got, job.crc).BadLength? || Parse(got, job.crc).BadCrc?)
    ensures |Request(job, 0)| < 0x8000_0000
    ensures var (st1, r1) := Serve(Fresh(last), Request(job, 0), job.crc, malloc);
            var (st2, r2) := Serve(st1, got, job.crc, malloc);
            var reply1 := Load(ReplyFrame(slot, r1, job.crc));
            && |reply1| < 0x8000_0000
            && var cmd1 := CmdAfter(cmd0, reply1, job.crc);
            && cmd1 == SUCCESS_CMD && CmdAfter(cmd1, reply, job.crc) == SUCCESS_CMD
            && r2 == DATA_ERROR && st2.files == []
  {
    hide Header, Load, Written, RequestFrame;
    var frame := Frame(job.slot, 0, job.cmd % 0x10000, 0, 2, Fragment(job.data, 0), 0);
    ParseOfLoad(frame, job.crc);
    assert Request(job, 0) == Load(Sealed(frame, job.crc)) by {
      FirstRequest(job);
    }
    FrameFields(job, 0);
    ParseOfLoad(Frame(slot, 0, SUCCESS_CMD, 0, 1, [], 0), job.crc);
  }

  lemma FirstRequest(job: Job)
    requires ValidJob(job) && Fragments(|job.data|) == 2
    ensures Request(job, 0) == Load(Sealed(Frame(job.slot, 0, job.cmd % 0x10000, 0, 2, Fragment(job.data, 0), 0),
                                           job.crc))
  {
  }
}
