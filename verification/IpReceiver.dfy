/**
  Receiving from another board (IPComm_Server_Service, IPComm_Response), and putting an upgrade
  image together from its fragments. The counters are 32 bits wide.
 */
module IpReceiver {
  import opened Bytes
  import opened IpFrame

  const M32: nat := 0x1_0000_0000

  /** The bytes written so far in a block of memory. */
  type Cells = map<nat, byte>

  /** The block of memory that p_u8Data points to: the bytes written so far, and how many were asked for. */
  datatype Image = NoImage | Image(cells: Cells, size: u32)

  /** A call of upgrade_RecieveFile. */
  datatype File = File(image: Image, len: u32)

  /**
    The receiver: the structure that the last frame was parsed into, the globals u32RecLen, p_u8Data
    and u32shouldRecPackIndex, how often memory was asked for, the files handed on, and whether every
    copy so far stayed inside the memory it was meant for. Once one did not, the rest of the state
    means nothing any more.
   */
  datatype State = State(last: Frame, recLen: u32, image: Image, should: u32, mallocs: nat, files: seq<File>,
                         inside: bool)

  const BLANK: Frame := Frame(0, 0, NONE_CMD, 0, 0, [], 0)

  /** The size of u8recData. */
  const REC_SIZE: nat := 2800

  function Fresh(last: Frame): State { State(last, 0, NoImage, 0, 0, [], true) }

  function Wrap(n: nat): u32 { n % M32 }

  /** The size asked for when fragment 0 of `sum` comes in, computed in 32 bits. */
  function Block(sum: u32): u32 { Wrap(DATA_MAX * sum) }

  /** Copying n bytes to position `at` stays inside a block. */
  predicate Fits(at: nat, n: nat, size: nat) { n == 0 || at + n <= size }

  function Written(cells: Cells, at: nat, bytes: seq<byte>): Cells {
    if bytes == [] then cells
    else var n := |bytes| - 1; Written(cells, at, bytes[..n])[at + n := bytes[n]]
  }

  function Whole(bytes: seq<byte>): Cells { map i: nat | i < |bytes| :: bytes[i] }

  function LastIndex(sum: u32): u32 { if sum == 0 then 0xFFFF_FFFF else sum - 1 }

  // ---------------------------------------------------------------- one frame

  /** What fragment 0 does before anything is copied: a new block; malloc says which requests for memory succeed. */
  function Started(st: State, f: Frame, malloc: nat -> bool): State {
    if f.cur != 0 then st
    else
      st.(recLen := 0, image := if malloc(st.mallocs) then Image(map[], Block(f.sum)) else NoImage,
          mallocs := st.mallocs + 1)
  }

  /** The effect of an upgrade fragment. */
  function Upgrade(st: State, f: Frame, malloc: nat -> bool): State {
    var st1 := Started(st, f, malloc);
    var image :=
      if st1.image.Image? then Image(Written(st1.image.cells, st1.recLen, f.data), st1.image.size) else NoImage;
    var image2 := if f.cur != st.should then NoImage else image;
    var st2 := st1.(
      recLen := Wrap(st1.recLen + |f.data|),
      should := Wrap(st.should + 1),
      inside := st.inside && (st1.image.Image? ==> Fits(st1.recLen, |f.data|, st1.image.size)));
    if f.cur == LastIndex(f.sum)
    then st2.(image := NoImage, files := st.files + [File(image2, st2.recLen)])
    else st2.(image := image2)
  }

  /** The effect of other data: its buffer has 2800 bytes, and the position in it is that of the upgrade. */
  function Other(st: State, f: Frame): State {
    st.(recLen := Wrap(st.recLen + |f.data|), inside := st.inside && Fits(st.recLen, |f.data|, REC_SIZE))
  }

  /** Commands that are acknowledged and do not touch the state above. */
  predicate Acknowledged(cmd: u16) { cmd == 0x101 || cmd == 0x10A || cmd == 0x201 || cmd == 0x202 }

  /** IPComm_Response: the effect of a parsed frame, and the command replied. */
  function Respond(st: State, f: Frame, malloc: nat -> bool): (State, u16) {
    if f.cmd == SEND_UPGRADE then (Upgrade(st, f, malloc), SUCCESS_CMD)
    else if f.cmd == SEND_DATA then (Other(st, f), SUCCESS_CMD)
    else if Acknowledged(f.cmd) then (st, SUCCESS_CMD)
    else (st, DATA_ERROR)
  }

  /**
    The structure after a request was parsed into it: a short request leaves it as it was. Data that
    is too long for the structure is copied all the same, and overwrites what lies behind it.
   */
  function AfterParse(last: Frame, b: seq<byte>, crc: Crc): Frame
    requires |b| < 0x8000_0000
  {
    match Parse(b, crc)
    case TooShort => last
    case BadLength => BLANK
    case BadCrc => BLANK
    case TooLong(cmd) => BLANK
    case Ok(f) => f
  }

  /** One round of the server: parse, ignoring the result, and respond. */
  function Serve(st: State, b: seq<byte>, crc: Crc, malloc: nat -> bool): (State, u16)
    requires |b| < 0x8000_0000
  {
    var f := AfterParse(st.last, b, crc);
    Respond(st.(last := f, inside := st.inside && !Parse(b, crc).TooLong?), f, malloc)
  }

  // ---------------------------------------------------------------- the server and its globals

  class Server {
    var last: Frame
    var recLen: u32
    var image: Image
    var should: u32
    var mallocs: nat
    var files: seq<File>
    ghost var inside: bool
    const malloc: nat -> bool
    const crc: Crc

    ghost function Abs(): State
      reads this
    {
      State(last, recLen, image, should, mallocs, files, inside)
    }

    constructor (last: Frame, malloc: nat -> bool, crc: Crc)
      ensures Abs() == Fresh(last) && this.malloc == malloc && this.crc == crc
    {
      this.last := last;
      recLen, image, should, mallocs, files, inside := 0, NoImage, 0, 0, [], true;
      this.malloc, this.crc := malloc, crc;
    }

    /** The IPCOMM_SEND_UPGRADE branch, step by step. */
    method DoUpgrade(f: Frame)
      modifies this
      ensures Abs() == Upgrade(old(Abs()), f, malloc)
    {
      hide Written, Wrap, Fits, Block;
      if f.cur == 0 {
        recLen := 0;
        image := if malloc(mallocs) then Image(map[], Block(f.sum)) else NoImage;
        mallocs := mallocs + 1;
      }
      assert Abs() == Started(old(Abs()), f, malloc);
      if image != NoImage {
        inside := inside && Fits(recLen, |f.data|, image.size);
        image := Image(Written(image.cells, recLen, f.data), image.size);
      }
      recLen := Wrap(recLen + |f.data|);
      if f.cur != should {
        image := NoImage;
      }
      should := Wrap(should + 1);
      if f.cur == LastIndex(f.sum) {
        files := files + [File(image, recLen)];
        image := NoImage;
      }
    }

    /** Handles one request; returns the command of the reply. */
    method Handle(b: seq<byte>) returns (reply: u16)
      requires |b| < 0x8000_0000
      modifies this
      ensures (Abs(), reply) == Serve(old(Abs()), b, crc, malloc)
      // success for resources, output clearing, data, upgrade, board state and addresses; an error otherwise
      ensures reply == if last.cmd in [0x101, 0x10A, 0x102, 0xF01, 0x201, 0x202] then 1 else 2
    {
      inside := inside && !Parse(b, crc).TooLong?;
      last := AfterParse(last, b, crc);
      if last.cmd == SEND_UPGRADE {
        DoUpgrade(last);
        reply := SUCCESS_CMD;
      } else if last.cmd == SEND_DATA {
        inside := inside && Fits(recLen, |last.data|, REC_SIZE);
        recLen := Wrap(recLen + |last.data|);
        reply := SUCCESS_CMD;
      } else if Acknowledged(last.cmd) {
        reply := SUCCESS_CMD;
      } else {
        reply := DATA_ERROR;
      }
    }
  }

  // ---------------------------------------------------------------- runs

  /** The state after a run of frames, of whatever commands. */
  function Run(st: State, frames: seq<Frame>, malloc: nat -> bool): State {
    if frames == [] then st
    else Respond(Run(st, frames[..|frames| - 1], malloc), frames[|frames| - 1], malloc).0
  }

  function Data(frames: seq<Frame>): seq<byte> {
    if frames == [] then [] else Data(frames[..|frames| - 1]) + frames[|frames| - 1].data
  }

  /** The upgrade fragments of a run. */
  function Upgrades(frames: seq<Frame>): (r: seq<Frame>)
    ensures forall k :: 0 <= k < |r| ==> r[k].cmd == SEND_UPGRADE
  {
    if frames == [] then []
    else
      var f := frames[|frames| - 1];
      Upgrades(frames[..|frames| - 1]) + (if f.cmd == SEND_UPGRADE then [f] else [])
  }

  /** How many bytes of other data came after the first upgrade fragment. */
  function Between(frames: seq<Frame>): nat {
    if frames == [] then 0
    else
      var init, f := frames[..|frames| - 1], frames[|frames| - 1];
      Between(init) + (if f.cmd == SEND_DATA && Upgrades(init) != [] then |f.data| else 0)
  }

  /** How often memory was asked for. */
  function Starts(frames: seq<Frame>): nat {
    if frames == [] then 0 else Starts(frames[..|frames| - 1]) + (if frames[|frames| - 1].cur == 0 then 1 else 0)
  }

  /** The fragments come once each, in order, from 0 on, and none is the last one of its file. */
  ghost predicate InOrder(frames: seq<Frame>) {
    forall i :: 0 <= i < |frames| ==> frames[i].cur == i && LastIndex(frames[i].sum) != i
  }

  /** There is an image exactly after fragments that all came in order, if the first got its memory. */
  ghost predicate HasImage(ups: seq<Frame>, malloc: nat -> bool) { ups != [] && malloc(0) && InOrder(ups) }

  /** A file that holds the given bytes and nothing else. */
  ghost predicate IsFile(file: File, bytes: seq<byte>) {
    file.image.Image? && file.image.cells == Whole(bytes) && file.len == |bytes|
  }

  lemma {:induction false} DataSnoc(frames: seq<Frame>, f: Frame)
    ensures Data(frames + [f]) == Data(frames) + f.data
    ensures Starts(frames + [f]) == Starts(frames) + (if f.cur == 0 then 1 else 0)
  {
    assert (frames + [f])[..|frames|] == frames;
  }

  lemma {:induction false} RunSnoc(st: State, frames: seq<Frame>, f: Frame, malloc: nat -> bool)
    ensures Run(st, frames + [f], malloc) == Respond(Run(st, frames, malloc), f, malloc).0
    ensures Upgrades(frames + [f]) == Upgrades(frames) + (if f.cmd == SEND_UPGRADE then [f] else [])
    ensures Between(frames + [f])
         == Between(frames) + (if f.cmd == SEND_DATA && Upgrades(frames) != [] then |f.data| else 0)
  {
    assert (frames + [f])[..|frames|] == frames;
  }

  lemma {:induction false} WrittenBehind(bytes: seq<byte>, more: seq<byte>)
    ensures Written(Whole(bytes), |bytes|, more) == Whole(bytes + more)
    decreases |more|
  {
    if more == [] {
      assert bytes + more == bytes;
    } else {
      var n := |more| - 1;
      WrittenBehind(bytes, more[..n]);
      assert bytes + more == (bytes + more[..n]) + [more[n]];
      OneMoreByte(bytes + more[..n], more[n]);
    }
  }

  lemma OneMoreByte(bytes: seq<byte>, b: byte)
    ensures Whole(bytes + [b]) == Whole(bytes)[|bytes| := b]
  {
  }

  lemma WrittenInFront(bytes: seq<byte>)
    ensures Written(map[], 0, bytes) == Whole(bytes)
  {
    assert Whole([]) == map[];
    assert [] + bytes == bytes;
    WrittenBehind([], bytes);
  }

  lemma OrderSnoc(frames: seq<Frame>, f: Frame)
    ensures InOrder(frames + [f]) <==> InOrder(frames) && f.cur == |frames| && LastIndex(f.sum) != |frames|
  {
    var more := frames + [f];
    if InOrder(more) {
      forall i | 0 <= i < |frames| ensures frames[i].cur == i && LastIndex(frames[i].sum) != i {
        assert more[i] == frames[i];
      }
      assert more[|frames|] == f;
    }
  }

  /** What the state says about the fragments received, with `gap` bytes of other data between them. */
  ghost predicate Kept(st: State, ups: seq<Frame>, gap: nat, malloc: nat -> bool) {
    && st.should == |ups| && st.mallocs == Starts(ups) && (ups == [] ==> gap == 0)
    && (st.image.Image? <==> HasImage(ups, malloc))
    && (st.image.Image? ==> st.image.size == Block(ups[0].sum))
    && (st.inside && st.image.Image? ==>
          st.recLen == |Data(ups)| + gap && (gap == 0 ==> st.image.cells == Whole(Data(ups))))
  }

  /** An upgrade fragment, before it is asked whether it is the last. */
  lemma {:induction false} FragmentIsCopied(st: State, f: Frame, ups: seq<Frame>, gap: nat, malloc: nat -> bool)
    requires Kept(st, ups, gap, malloc) && |ups| + 1 < M32
    ensures var st1, st2 := Started(st, f, malloc), Upgrade(st, f, malloc);
            && st2.should == |ups| + 1 && st2.mallocs == Starts(ups + [f])
            && (st1.image.Image? && f.cur == |ups| <==> f.cur == |ups| && malloc(0) && InOrder(ups))
            && (st1.image.Image? && f.cur == |ups| ==> st1.image.size == Block((ups + [f])[0].sum))
            && (st2.inside && st1.image.Image? && f.cur == |ups| ==>
                  && st2.recLen == |Data(ups + [f])| + gap
                  && (gap == 0 ==> Written(st1.image.cells, st1.recLen, f.data) == Whole(Data(ups + [f]))))
  {
    hide Written, Whole, Data, InOrder;
    DataSnoc(ups, f);
    if ups == [] {
      NothingReceived();
      WrittenInFront(f.data);
      assert [] + f.data == f.data;
    } else {
      WrittenBehind(Data(ups), f.data);
    }
  }

  lemma NothingReceived()
    ensures InOrder([]) && Data([]) == [] && Starts([]) == 0
  {
  }

  lemma {:induction false} KeptStep(st: State, f: Frame, ups: seq<Frame>, gap: nat, malloc: nat -> bool)
    requires Kept(st, ups, gap, malloc) && |ups| + 1 < M32
    ensures Kept(Upgrade(st, f, malloc), ups + [f], gap, malloc)
  {
    hide Written, Whole, Data, InOrder, Starts;
    FragmentIsCopied(st, f, ups, gap, malloc);
    OrderSnoc(ups, f);
  }

  /** Other data leaves everything as it is, except for the position. */
  lemma KeptByOther(st: State, f: Frame, ups: seq<Frame>, gap: nat, malloc: nat -> bool)
    requires Kept(st, ups, gap, malloc)
    ensures Kept(Other(st, f), ups, if ups == [] then 0 else gap + |f.data|, malloc)
  {
    hide Written, Whole, Data, InOrder, Starts;
  }

  /**
    Receiver safety, for every run of frames since the start, whatever their commands and numbers:
    there is an image exactly when all fragments so far came once each in order from 0 on, none of
    them the last, and the first request for memory succeeded. The position is then the length of
    their data and of the other data between them, and without any such data the image is theirs.
    The number expected next is the number of fragments.
   */
  lemma {:induction false} ImageIsTheFragments(last: Frame, frames: seq<Frame>, malloc: nat -> bool)
    requires |Upgrades(frames)| < M32
    ensures Kept(Run(Fresh(last), frames, malloc), Upgrades(frames), Between(frames), malloc)
  {
    hide Upgrade, Other, Kept;
    if frames == [] {
      NothingYet(last, malloc);
    } else {
      var init, f := frames[..|frames| - 1], frames[|frames| - 1];
      ImageIsTheFragments(last, init, malloc);
      var st := Run(Fresh(last), init, malloc);
      assert Upgrades(init) + [] == Upgrades(init);
      if f.cmd == SEND_UPGRADE {
        KeptStep(st, f, Upgrades(init), Between(init), malloc);
      } else if f.cmd == SEND_DATA {
        KeptByOther(st, f, Upgrades(init), Between(init), malloc);
        NoGapAtFirst(init);
      }
    }
  }

  lemma NothingYet(last: Frame, malloc: nat -> bool)
    ensures Kept(Fresh(last), [], 0, malloc)
  {
  }

  lemma {:induction false} NoGapAtFirst(frames: seq<Frame>)
    ensures Upgrades(frames) == [] ==> Between(frames) == 0
  {
    if frames != [] {
      NoGapAtFirst(frames[..|frames| - 1]);
    }
  }

  /**
    The file handed on, for every run of frames and every last fragment f behind it: as long as all
    copies stay inside their memory it is the data of the fragments exactly if they all came once
    each in order, no other data came in between, and there was memory. The length counter that
    upgrade and other data share makes the other data count.
   */
  lemma {:induction false} FilesAreComplete(last: Frame, frames: seq<Frame>, f: Frame, malloc: nat -> bool)
    requires |Upgrades(frames)| + 1 < M32 && f.cmd == SEND_UPGRADE
    ensures var st, st1 := Run(Fresh(last), frames, malloc), Run(Fresh(last), frames + [f], malloc);
            var ups := Upgrades(frames);
            && (f.cur != LastIndex(f.sum) ==> st1.files == st.files)
            && (f.cur == LastIndex(f.sum) ==>
                  && |st1.files| == |st.files| + 1 && st1.files[..|st.files|] == st.files
                  && var file := st1.files[|st.files|];
                  && (file.image.Image? <==> InOrder(ups) && f.cur == |ups| && f.sum == |ups| + 1 && malloc(0))
                  && (st1.inside ==>
                        (IsFile(file, Data(ups + [f])) <==>
                           && InOrder(ups) && f.cur == |ups| && f.sum == |ups| + 1 && malloc(0)
                           && Between(frames) == 0)))
  {
    hide Upgrade, Kept, Written, Whole, Data, InOrder;
    ImageIsTheFragments(last, frames, malloc);
    RunSnoc(Fresh(last), frames, f, malloc);
    StepOfFile(Run(Fresh(last), frames, malloc), f, Upgrades(frames), Between(frames), malloc);
  }

  lemma {:induction false} StepOfFile(st: State, f: Frame, ups: seq<Frame>, gap: nat, malloc: nat -> bool)
    requires Kept(st, ups, gap, malloc) && |ups| + 1 < M32
    ensures var st1 := Upgrade(st, f, malloc);
            && (f.cur != LastIndex(f.sum) ==> st1.files == st.files)
            && (f.cur == LastIndex(f.sum) ==>
                  && |st1.files| == |st.files| + 1 && st1.files[..|st.files|] == st.files
                  && var file := st1.files[|st.files|];
                  && (file.image.Image? <==> InOrder(ups) && f.cur == |ups| && f.sum == |ups| + 1 && malloc(0))
                  && (st1.inside && file.image.Image? ==>
                        && file.len == |Data(ups + [f])| + gap
                        && (gap == 0 ==> file.image.cells == Whole(Data(ups + [f])))))
  {
    hide Written, Whole, Data, InOrder, Starts, Kept;
    FragmentIsCopied(st, f, ups, gap, malloc);
    assert st.should == |ups| by {
      KeptCount(st, ups, gap, malloc);
    }
  }

  lemma KeptCount(st: State, ups: seq<Frame>, gap: nat, malloc: nat -> bool)
    requires Kept(st, ups, gap, malloc)
    ensures st.should == |ups|
  {
  }

  /** The number expected next is never set back, so once a fragment was received no other session gets an image. */
  lemma {:induction false} OnlyOneSession(last: Frame, frames: seq<Frame>, j: nat, malloc: nat -> bool)
    requires |Upgrades(frames)| < M32
    requires 0 < j < |Upgrades(frames)| && Upgrades(frames)[j].cur == 0
    ensures Run(Fresh(last), frames, malloc).image == NoImage
  {
    ImageIsTheFragments(last, frames, malloc);
  }

  lemma RunNothing(st: State, malloc: nat -> bool)
    ensures Upgrades([]) == [] && Between([]) == 0 && Data([]) == [] && Run(st, [], malloc) == st
  {
  }

  lemma {:induction false} FragmentThenData(st: State, f0: Frame, f1: Frame, d: Frame, malloc: nat -> bool)
    requires f0.cmd == SEND_UPGRADE && d.cmd == SEND_DATA
    ensures Upgrades([f0, d]) == [f0] && Between([f0, d]) == |d.data|
    ensures Data([f0] + [f1]) == f0.data + f1.data
  {
    hide Run, Data, Upgrades, Between, Respond, Upgrade;
    assert [] + [f0] == [f0] && [f0] + [d] == [f0, d];
    RunNothing(st, malloc);
    RunSnoc(st, [], f0, malloc);
    RunSnoc(st, [f0], d, malloc);
    DataSnoc([], f0);
    DataSnoc([f0], f1);
  }

  /** Two fragments with n bytes of other data between them give the file of the two exactly when n is zero. */
  lemma {:induction false} DataInBetween(last: Frame, f0: Frame, d: Frame, f1: Frame, malloc: nat -> bool)
    requires f0.cmd == SEND_UPGRADE && f1.cmd == SEND_UPGRADE && d.cmd == SEND_DATA && malloc(0)
    requires f0.cur == 0 && f0.sum == 2 && f1.cur == 1 && f1.sum == 2
    ensures var st := Run(Fresh(last), [f0, d, f1], malloc);
            && |st.files| == 1
            && (st.inside ==> (IsFile(st.files[0], f0.data + f1.data) <==> |d.data| == 0))
  {
    hide Upgrade, IsFile, Run, Data, Upgrades, Between;
    FragmentThenData(Fresh(last), f0, f1, d, malloc);
    assert [f0, d] + [f1] == [f0, d, f1] && [f0] + [d] == [f0, d] && [] + [f0] == [f0];
    RunNothing(Fresh(last), malloc);
    RunSnoc(Fresh(last), [f0], d, malloc);
    FilesAreComplete(last, [], f0, malloc);
    FilesAreComplete(last, [f0, d], f1, malloc);
  }

  // ---------------------------------------------------------------- staying inside the block

  /**
    Fragment k of a run of upgrade fragments is copied inside the block: the data so far fits, if all
    fragments before it came in order and the first got its memory, and a new block is as large as its
    own first fragment.
   */
  ghost predicate WriteFits(frames: seq<Frame>, k: nat, malloc: nat -> bool)
    requires k < |frames|
  {
    if frames[k].cur == 0 then malloc(Starts(frames[..k])) ==> Fits(0, |frames[k].data|, Block(frames[k].sum))
    else HasImage(frames[..k], malloc) ==> Fits(|Data(frames[..k])|, |frames[k].data|, Block(frames[0].sum))
  }

  ghost predicate AllFit(frames: seq<Frame>, malloc: nat -> bool) {
    forall k :: 0 <= k < |frames| ==> WriteFits(frames, k, malloc)
  }

  ghost predicate OnlyUpgrades(frames: seq<Frame>) { forall k :: 0 <= k < |frames| ==> frames[k].cmd == SEND_UPGRADE }

  lemma {:induction false} AllAreUpgrades(frames: seq<Frame>)
    requires OnlyUpgrades(frames)
    ensures Upgrades(frames) == frames && Between(frames) == 0
  {
    if frames != [] {
      var init, f := frames[..|frames| - 1], frames[|frames| - 1];
      AllAreUpgrades(init);
      assert init + [f] == frames;
    }
  }

  lemma {:induction false} FitSnoc(frames: seq<Frame>, malloc: nat -> bool)
    requires frames != []
    ensures AllFit(frames, malloc) <==>
              AllFit(frames[..|frames| - 1], malloc) && WriteFits(frames, |frames| - 1, malloc)
  {
    hide Data, Starts, HasImage;
    var n := |frames| - 1;
    forall k | 0 <= k < n ensures WriteFits(frames, k, malloc) <==> WriteFits(frames[..n], k, malloc) {
      assert frames[..n][..k] == frames[..k];
    }
  }

  /** For every run of upgrade fragments: no copy leaves its block exactly when the sizes asked for are large enough. */
  lemma {:induction false} InsideExactly(last: Frame, frames: seq<Frame>, malloc: nat -> bool)
    requires OnlyUpgrades(frames) && |frames| < M32
    ensures Run(Fresh(last), frames, malloc).inside <==> AllFit(frames, malloc)
  {
    hide Upgrade, WriteFits, AllFit, Kept;
    if frames == [] {
      assert AllFit(frames, malloc) by {
        NothingToFit(malloc);
      }
    } else {
      var init, f := frames[..|frames| - 1], frames[|frames| - 1];
      assert init + [f] == frames;
      InsideExactly(last, init, malloc);
      AllAreUpgrades(init);
      ImageIsTheFragments(last, init, malloc);
      FitSnoc(frames, malloc);
      StepFits(Run(Fresh(last), init, malloc), f, init, malloc);
    }
  }

  lemma NothingToFit(malloc: nat -> bool)
    ensures AllFit([], malloc)
  {
  }

  lemma {:induction false} StepFits(st: State, f: Frame, init: seq<Frame>, malloc: nat -> bool)
    requires Kept(st, init, 0, malloc)
    ensures Upgrade(st, f, malloc).inside <==> st.inside && WriteFits(init + [f], |init|, malloc)
  {
    hide Written, Whole, Data, InOrder, Starts;
    assert (init + [f])[..|init|] == init;
  }

  /** The same for the next frame of any run that has an image: other data behind it has 2800 bytes in all. */
  lemma {:induction false} NextStaysInside(last: Frame, frames: seq<Frame>, f: Frame, malloc: nat -> bool)
    requires HasImage(Upgrades(frames), malloc) && |Upgrades(frames)| < M32
    requires f.cur != 0 || f.cmd == SEND_DATA
    ensures var st, st1 := Run(Fresh(last), frames, malloc), Run(Fresh(last), frames + [f], malloc);
            var at := |Data(Upgrades(frames))| + Between(frames);
            && (f.cmd == SEND_UPGRADE ==>
                  (st1.inside <==> st.inside && Fits(at, |f.data|, Block(Upgrades(frames)[0].sum))))
            && (f.cmd == SEND_DATA ==> (st1.inside <==> st.inside && Fits(at, |f.data|, REC_SIZE)))
  {
    hide Written, Whole, Data, InOrder, Starts, Run, Upgrades, Between;
    ImageIsTheFragments(last, frames, malloc);
    RunSnoc(Fresh(last), frames, f, malloc);
  }

  /** If all fragments name the same sum, and that many full fragments do not wrap, every copy stays inside. */
  lemma {:induction false} OneSumIsInside(last: Frame, frames: seq<Frame>, sum: nat, malloc: nat -> bool)
    requires OnlyUpgrades(frames) && |frames| < M32 && 0 < sum && DATA_MAX * sum < M32
    requires forall k :: 0 <= k < |frames| ==> frames[k].sum == sum && |frames[k].data| <= DATA_MAX
    ensures Run(Fresh(last), frames, malloc).inside
  {
    hide WriteFits, Run;
    InsideExactly(last, frames, malloc);
    forall k | 0 <= k < |frames| ensures WriteFits(frames, k, malloc) {
      OneSumFits(frames, k, sum, malloc);
    }
  }

  lemma {:induction false} OneSumFits(frames: seq<Frame>, k: nat, sum: nat, malloc: nat -> bool)
    requires k < |frames| < M32 && 0 < sum && DATA_MAX * sum < M32
    requires forall j :: 0 <= j < |frames| ==> frames[j].sum == sum && |frames[j].data| <= DATA_MAX
    ensures WriteFits(frames, k, malloc)
  {
    hide Data, Starts;
    assert DATA_MAX <= DATA_MAX * sum;
    if frames[k].cur != 0 && HasImage(frames[..k], malloc) {
      OrderEndsBefore(frames[..k], sum);
      DataSize(frames[..k]);
      assert DATA_MAX * (k + 1) <= DATA_MAX * sum;
    }
  }

  lemma OrderEndsBefore(frames: seq<Frame>, sum: nat)
    requires InOrder(frames) && 0 < sum < M32 && forall j :: 0 <= j < |frames| ==> frames[j].sum == sum
    ensures |frames| < sum
  {
    assert sum <= |frames| ==> LastIndex(frames[sum - 1].sum) == sum - 1;
  }

  lemma {:induction false} DataSize(frames: seq<Frame>)
    requires forall j :: 0 <= j < |frames| ==> |frames[j].data| <= DATA_MAX
    ensures |Data(frames)| <= DATA_MAX * |frames|
  {
    if frames != [] {
      DataSize(frames[..|frames| - 1]);
    }
  }

  /**
    A later fragment that names a larger sum does not get a larger block: two fragments of a sum of
    two, then a third.
   */
  lemma {:induction false} LargerSumOverruns(last: Frame, f0: Frame, f1: Frame, f2: Frame, malloc: nat -> bool)
    requires OnlyUpgrades([f0, f1, f2]) && malloc(0) && f0.cur == 0 && f1.cur == 1 && f2.cur == 2
    requires f0.sum == 2 && 2 < f1.sum && |f0.data| == |f1.data| == DATA_MAX && f2.data != []
    ensures !Run(Fresh(last), [f0, f1, f2], malloc).inside
  {
    InsideExactly(last, [f0, f1, f2], malloc);
    var frames := [f0, f1, f2];
    assert frames[..2] == [f0] + [f1] && frames[..1] == [] + [f0];
    DataSnoc([f0], f1);
    DataSnoc([], f0);
    assert [] + [f0] == [f0];
    assert !WriteFits(frames, 2, malloc);
  }

  // ---------------------------------------------------------------- runs of any length

  /**
    The last k fragments are those of one session: they came in order from 0 on, the first of them
    when the 32-bit counter was at zero, and the image is their data, inside the block.
   */
  ghost predicate Session(frames: seq<Frame>, k: nat, st: State) {
    && 0 < k <= |frames| && (|frames| - k) % M32 == 0
    && var part := frames[|frames| - k..];
    && Numbered(part)
    && st.image == Image(Whole(Data(part)), Block(part[0].sum))
    && st.recLen == |Data(part)| <= st.image.size
  }

  ghost predicate Numbered(frames: seq<Frame>) {
    forall i :: 0 <= i < |frames| ==> frames[i].cur == Wrap(i)
  }

  /** The same without any bound on the run: whenever there is an image, it is that of one session in order. */
  lemma {:induction false} ImageHasSession(last: Frame, frames: seq<Frame>, malloc: nat -> bool)
    requires OnlyUpgrades(frames)
    ensures var st := Run(Fresh(last), frames, malloc);
            && st.should == Wrap(|frames|)
            && (st.inside && st.image.Image? ==> exists k: nat :: Session(frames, k, st))
  {
    hide Session, Upgrade;
    if frames != [] {
      var init, f := frames[..|frames| - 1], frames[|frames| - 1];
      ImageHasSession(last, init, malloc);
      assert init + [f] == frames;
      var st0 := Run(Fresh(last), init, malloc);
      SessionStep(init, f, st0, malloc);
    }
  }

  lemma {:induction false} SessionStep(init: seq<Frame>, f: Frame, st0: State, malloc: nat -> bool)
    requires st0.should == Wrap(|init|) && (st0.inside && st0.image.Image? ==> exists k: nat :: Session(init, k, st0))
    ensures var st := Upgrade(st0, f, malloc);
            && st.should == Wrap(|init| + 1)
            && (st.inside && st.image.Image? ==> exists k: nat :: Session(init + [f], k, st))
  {
    hide Session, Written, Whole;
    var st, frames := Upgrade(st0, f, malloc), init + [f];
    if st.inside && st.image.Image? {
      assert f.cur == Wrap(|init|);
      if f.cur == 0 {
        SessionStarts(init, f, st);
      } else {
        var k: nat :| Session(init, k, st0);
        SessionGoesOn(init, f, k, st0, st);
      }
    }
  }

  lemma {:induction false} SessionStarts(init: seq<Frame>, f: Frame, st: State)
    requires f.cur == 0 == Wrap(|init|)
    requires st.image == Image(Written(map[], 0, f.data), Block(f.sum)) && st.recLen == Wrap(|f.data|)
    requires Fits(0, |f.data|, Block(f.sum))
    ensures Session(init + [f], 1, st)
  {
    hide Written, Whole;
    WrittenInFront(f.data);
    assert (init + [f])[|init|..] == [f];
    DataSnoc([], f);
    assert [] + [f] == [f] && Data([]) + f.data == f.data;
  }

  lemma {:induction false} SessionGoesOn(init: seq<Frame>, f: Frame, k: nat, st0: State, st: State)
    requires Session(init, k, st0) && f.cur == Wrap(|init|)
    requires st.image == Image(Written(st0.image.cells, st0.recLen, f.data), st0.image.size)
    requires st.recLen == Wrap(st0.recLen + |f.data|) && Fits(st0.recLen, |f.data|, st0.image.size)
    ensures Session(init + [f], k + 1, st)
  {
    hide Written, Whole, Data, Numbered, Wrap, Fits, Block;
    var part, frames := init[|init| - k..], init + [f];
    LastPart(init, f, k);
    assert (part + [f])[0] == part[0];
    DataSnoc(part, f);
    WrittenBehind(Data(part), f.data);
    SameRemainder(|init|, k);
    NumberedSnoc(part, f);
    StillFits(st0.recLen, |f.data|, st0.image.size);
  }

  lemma LastPart(init: seq<Frame>, f: Frame, k: nat)
    requires k <= |init|
    ensures var frames := init + [f];
            && |frames| - (k + 1) == |init| - k
            && frames[|frames| - (k + 1)..] == init[|init| - k..] + [f]
  {
  }

  lemma StillFits(at: nat, n: nat, size: u32)
    requires Fits(at, n, size) && at <= size
    ensures Wrap(at + n) == at + n <= size
  {
  }

  lemma NumberedSnoc(part: seq<Frame>, f: Frame)
    requires Numbered(part) && f.cur == Wrap(|part|)
    ensures Numbered(part + [f])
  {
  }

  lemma SameRemainder(n: nat, k: nat)
    requires k <= n && (n - k) % M32 == 0
    ensures Wrap(n) == Wrap(k)
  {
    var q := (n - k) / M32;
    assert n == q * M32 + k;
  }
}
