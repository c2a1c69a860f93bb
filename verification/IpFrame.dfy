/**
  Frames between boards (IPComm_LoadData, IPComm_ParseData): a header of 16 bytes, the data,
  padding to a multiple of four, and a CRC over header and data. Numbers are little-endian. The
  CRC is any function of the bytes.
 */
module IpFrame {
  import opened Bytes

  const DATA_MAX: nat := 1400
  const MIN_LEN: nat := 20

  const NONE_CMD: u16 := 0
  const SUCCESS_CMD: u16 := 1
  const DATA_ERROR: u16 := 2
  const SEND_DATA: u16 := 0x102
  const SEND_UPGRADE: u16 := 0xF01

  type Crc = seq<byte> -> u32

  datatype Frame = Frame(slot: byte, res: byte, cmd: u16, cur: u32, sum: u32, data: seq<byte>, crc: u32)

  /** What parsing says. A length field beyond the data area of the structure is TooLong. */
  datatype Parsed = TooShort | BadLength | BadCrc | TooLong(cmd: u16) | Ok(frame: Frame)

  function Pad(n: nat): (r: nat)
    ensures r < 4 && (n + r) % 4 == 0
  {
    if n % 4 == 0 then 0 else 4 - n % 4
  }

  function Zeros(n: nat): (r: seq<byte>)
    ensures |r| == n
  {
    seq(n, _ => 0)
  }

  /** The 16 bytes in front of the data. */
  function Header(f: Frame): (r: seq<byte>)
    requires |f.data| <= DATA_MAX
    ensures |r| == 16
  {
    [f.slot, f.res] + Le16(f.cmd) + Le32(f.cur) + Le32(f.sum) + Le32(|f.data|)
  }

  /** The frame as it goes over the wire. */
  function Load(f: Frame): (r: seq<byte>)
    requires |f.data| <= DATA_MAX
    ensures |r| == MIN_LEN + |f.data| + Pad(|f.data|)
  {
    Header(f) + f.data + Zeros(Pad(|f.data|)) + Le32(f.crc)
  }

  /** The frame with the CRC that belongs to it. */
  function Sealed(f: Frame, crc: Crc): Frame
    requires |f.data| <= DATA_MAX
  {
    f.(crc := crc(Header(f) + f.data))
  }

  /** Receives `b`, which is shorter than 2^31 bytes; the length check is done in 32 bits. */
  function Parse(b: seq<byte>, crc: Crc): Parsed
    requires |b| < 0x8000_0000
  {
    if |b| < MIN_LEN then TooShort
    else
      var len: nat := Num32(b, 12);
      if |b| != (len + MIN_LEN + Pad(len)) % 0x1_0000_0000 then BadLength
      else if Num32(b, |b| - 4) != crc(b[..Covered(len)]) then BadCrc
      else if len > DATA_MAX then TooLong(Num16(b, 2))
      else Ok(Frame(b[0], 0, Num16(b, 2), Num32(b, 4), Num32(b, 8), b[16..16 + len], Num32(b, |b| - 4)))
  }

  /** How many bytes the CRC covers, in 32 bits. */
  function Covered(len: nat): nat { (16 + len) % 0x1_0000_0000 }

  // ---------------------------------------------------------------- where the fields are

  lemma {:induction false} FieldsOfHeader(f: Frame)
    requires |f.data| <= DATA_MAX
    ensures var h := Header(f);
            && h[0] == f.slot && h[1] == f.res && Num16(h, 2) == f.cmd
            && Num32(h, 4) == f.cur && Num32(h, 8) == f.sum && Num32(h, 12) == |f.data|
  {
    var h := Header(f);
    assert h[2..4] == Le16(f.cmd) && h[4..8] == Le32(f.cur) && h[8..12] == Le32(f.sum) && h[12..16] == Le32(|f.data|);
    NumInside16(h, 2);
    NumInside32(h, 4);
    NumInside32(h, 8);
    NumInside32(h, 12);
    Le16Reads(f.cmd);
    Le32Reads(f.cur);
    Le32Reads(f.sum);
    Le32Reads(|f.data|);
  }

  lemma NumInside16(s: seq<byte>, i: nat)
    requires i + 2 <= |s|
    ensures Num16(s, i) == Num16(s[i..i + 2], 0)
  {
  }

  lemma NumInside32(s: seq<byte>, i: nat)
    requires i + 4 <= |s|
    ensures Num32(s, i) == Num32(s[i..i + 4], 0)
  {
  }

  lemma {:induction false} PartsOfLoad(f: Frame)
    requires |f.data| <= DATA_MAX
    ensures var b, n := Load(f), |f.data|;
            && b[..16] == Header(f) && b[16..16 + n] == f.data && b[..16 + n] == Header(f) + f.data
            && b[|b| - 4..] == Le32(f.crc)
  {
  }

  lemma {:induction false} NumInHead(a: seq<byte>, b: seq<byte>)
    requires |a| == 16 <= |b| && b[..16] == a
    ensures b[0] == a[0] && b[1] == a[1] && Num16(b, 2) == Num16(a, 2)
    ensures Num32(b, 4) == Num32(a, 4) && Num32(b, 8) == Num32(a, 8) && Num32(b, 12) == Num32(a, 12)
  {
    assert forall i :: 0 <= i < 16 ==> b[i] == b[..16][i];
  }

  // ---------------------------------------------------------------- round trips

  /**
    Parsing a loaded frame gives back slot, command, fragment numbers and data, for every length up
    to the maximum and every padding residue.
   */
  lemma {:induction false} ParseOfLoad(f: Frame, crc: Crc)
    requires |f.data| <= DATA_MAX
    ensures |Load(Sealed(f, crc))| < 0x8000_0000
    ensures Parse(Load(Sealed(f, crc)), crc) == Ok(Sealed(f, crc).(res := 0))
  {
    hide Header, Load, Num16, Num32, Le32, Le16, Pad;
    var g := Sealed(f, crc);
    assert Header(g) == Header(f) by {
      SameHeader(f, g);
    }
    var b, n := Load(g), |f.data|;
    PartsOfLoad(g);
    FieldsOfHeader(g);
    NumInHead(Header(g), b);
    NumInside32(b, |b| - 4);
    assert b[|b| - 4..|b| - 4 + 4] == b[|b| - 4..];
    Le32Reads(g.crc);
    SmallLength(n);
  }

  lemma SameHeader(f: Frame, g: Frame)
    requires |f.data| <= DATA_MAX && g == f.(crc := g.crc)
    ensures Header(g) == Header(f)
  {
  }

  lemma SmallLength(n: nat)
    requires n <= DATA_MAX
    ensures (n + MIN_LEN + Pad(n)) % 0x1_0000_0000 == n + MIN_LEN + Pad(n) && Covered(n) == 16 + n
  {
  }

  /**
    Loading what was parsed from an accepted byte string gives that string back, except for byte 1
    and the padding, which are zero.
   */
  lemma {:induction false} LoadOfParse(b: seq<byte>, crc: Crc)
    requires |b| < 0x8000_0000 && Parse(b, crc).Ok?
    ensures var f := Parse(b, crc).frame;
            && |f.data| <= DATA_MAX && |Load(f)| == |b|
            && f == Sealed(f.(res := b[1]), crc).(res := 0)
            && forall i :: 0 <= i < |b| ==>
                 Load(f)[i] == if i == 1 || 16 + |f.data| <= i < |b| - 4 then 0 else b[i]
  {
    hide Header, Load, Num16, Num32, Le32, Le16, Pad, Zeros;
    var f := Parse(b, crc).frame;
    var n: nat := Num32(b, 12);
    SmallLength(n);
    HeaderOfBytes(b, f);
    assert b[..16] + b[16..16 + n] == b[..16 + n];
    assert Header(f.(res := b[1])) + f.data == b[..16 + n];
    var l := Load(f);
    PartsOfLoad(f);
    PaddingOfLoad(f);
    ReadsBack32(b, |b| - 4);
    assert b[|b| - 4..|b| - 4 + 4] == b[|b| - 4..];
    forall i | 0 <= i < |b| ensures l[i] == if i == 1 || 16 + n <= i < |b| - 4 then 0 else b[i] {
      if i < 16 {
        assert l[i] == l[..16][i] && b[i] == b[..16][i];
      } else if i < 16 + n {
        assert l[i] == l[16..16 + n][i - 16] && b[i] == b[16..16 + n][i - 16];
      } else if i >= |b| - 4 {
        assert l[i] == l[|b| - 4..][i - (|b| - 4)] && b[i] == b[|b| - 4..][i - (|b| - 4)];
      }
    }
  }

  lemma {:induction false} PaddingOfLoad(f: Frame)
    requires |f.data| <= DATA_MAX
    ensures forall i :: 16 + |f.data| <= i < |Load(f)| - 4 ==> Load(f)[i] == 0
  {
  }

  /** The header of a frame that was read from b, with and without byte 1. */
  lemma {:induction false} HeaderOfBytes(b: seq<byte>, f: Frame)
    requires |b| >= MIN_LEN && |f.data| <= DATA_MAX
    requires f.slot == b[0] && f.cmd == Num16(b, 2) && f.cur == Num32(b, 4) && f.sum == Num32(b, 8)
    requires |f.data| == Num32(b, 12)
    requires f.res == 0
    ensures Header(f.(res := b[1])) == b[..16]
    ensures Header(f) == b[..16][1 := 0]
  {
    ReadsBack16(b, 2);
    ReadsBack32(b, 4);
    ReadsBack32(b, 8);
    ReadsBack32(b, 12);
    var h := Header(f.(res := b[1]));
    assert h == [b[0], b[1]] + b[2..4] + b[4..8] + b[8..12] + b[12..16];
    assert h == b[..16];
    assert Header(f) == h[1 := 0];
  }

  // ---------------------------------------------------------------- the bytes themselves

  /** The four bytes at i, the lowest first, make up n. */
  ghost predicate Is32(b: seq<byte>, i: nat, n: nat)
    requires i + 4 <= |b|
  {
    Num(b, i) + 0x100 * Num(b, i + 1) + 0x1_0000 * Num(b, i + 2) + 0x100_0000 * Num(b, i + 3) == n
  }

  /** Where each field lies in a frame, lowest bytes first; the last four bytes are the given checksum. */
  ghost predicate LaidOut(b: seq<byte>, f: Frame, sum: u32)
    requires |b| >= 20 + |f.data|
  {
    && b[0] == f.slot && b[1] == f.res && Num(b, 2) + 0x100 * Num(b, 3) == f.cmd
    && Is32(b, 4, f.cur) && Is32(b, 8, f.sum) && Is32(b, 12, |f.data|)
    && b[16..16 + |f.data|] == f.data
    && |b| == 20 + |f.data| + (4 - |f.data| % 4) % 4
    && (forall i :: 16 + |f.data| <= i < |b| - 4 ==> b[i] == 0)
    && Is32(b, |b| - 4, sum)
  }

  lemma LittleEndian(n: u32)
    ensures Is32(Le32(n), 0, n)
  {
    Le32Reads(n);
  }

  lemma {:induction false} LoadIsLaidOut(f: Frame)
    requires |f.data| <= DATA_MAX
    ensures |Load(f)| >= 20 + |f.data| && LaidOut(Load(f), f, f.crc)
  {
    hide Le32, Header, Is32;
    PaddingOfLoad(f);
    PartsOfLoad(f);
    LoadedHeader(f);
    LastFour(Load(f), f.crc);
  }

  lemma {:induction false} LoadedHeader(f: Frame)
    requires |f.data| <= DATA_MAX
    ensures var b := Load(f);
            && b[0] == f.slot && b[1] == f.res
            && Num(b, 2) + 0x100 * Num(b, 3) == f.cmd
            && Is32(b, 4, f.cur) && Is32(b, 8, f.sum) && Is32(b, 12, |f.data|)
  {
    hide Le32;
    LittleEndian(f.cur);
    LittleEndian(f.sum);
    LittleEndian(|f.data|);
    FieldsOfHeader(f);
    PartsOfLoad(f);
    NumInHead(Header(f), Load(f));
  }

  lemma LastFour(b: seq<byte>, n: u32)
    requires |b| >= 4 && b[|b| - 4..] == Le32(n)
    ensures Is32(b, |b| - 4, n)
  {
    hide Le32;
    LittleEndian(n);
    var e := b[|b| - 4..];
    assert e[0] == b[|b| - 4] && e[1] == b[|b| - 3] && e[2] == b[|b| - 2] && e[3] == b[|b| - 1];
  }

  /** The checksum that is sent covers all 16 + n bytes of header and data. */
  lemma {:induction false} SealedCoversAll(f: Frame, crc: Crc)
    requires |f.data| <= DATA_MAX
    ensures var b := Load(Sealed(f, crc)); |b| >= 20 + |f.data| && LaidOut(b, f, crc(b[..16 + |f.data|]))
  {
    hide Header, Load;
    var g := Sealed(f, crc);
    SameHeader(f, g);
    LoadIsLaidOut(g);
    PartsOfLoad(g);
  }

  /** Every accepted string is a frame of that layout, and ends in the checksum of all that comes before the padding. */
  lemma {:induction false} AcceptedIsIntact(b: seq<byte>, crc: Crc)
    requires |b| < 0x8000_0000 && Parse(b, crc).Ok?
    ensures var f := Parse(b, crc).frame;
            && |f.data| <= 1400 && |b| == 20 + |f.data| + (4 - |f.data| % 4) % 4
            && f.slot == b[0] && f.cmd == Num(b, 2) + 0x100 * Num(b, 3)
            && Is32(b, 4, f.cur) && Is32(b, 8, f.sum) && Is32(b, 12, |f.data|) && f.data == b[16..16 + |f.data|]
            && Is32(b, |b| - 4, crc(b[..16 + |f.data|]))
  {
    var n: nat := Num32(b, 12);
    SmallLength(n);
  }

  // ---------------------------------------------------------------- loading into a buffer

  /** IPComm_LoadData: writes the frame to the front of a buffer, returns its length. */
  method LoadData(f: Frame, buffer: array<byte>) returns (n: nat)
    requires |f.data| <= DATA_MAX && buffer.Length >= DATA_MAX + MIN_LEN
    modifies buffer
    ensures n <= buffer.Length && buffer[..n] == Load(f)
    ensures n >= 20 + |f.data| && LaidOut(buffer[..n], f, f.crc)
    ensures buffer[n..] == old(buffer[n..])
  {
    hide Header, LaidOut;
    var rest := |f.data| % 4;
    if rest != 0 {
      rest := 4 - rest;
    }
    var total := |f.data| + rest + MIN_LEN;
    var front := Header(f) + f.data;
    ghost var b0 := buffer[..];
    CopyInto(buffer, 0, Zeros(total));
    ghost var b1 := buffer[..];
    CopyInto(buffer, 0, front);
    ghost var b2 := buffer[..];
    CopyInto(buffer, total - 4, Le32(f.crc));
    LoadDone(b0, b1, b2, buffer[..], front, rest, total, Le32(f.crc));
    LoadIsLaidOut(f);
    n := total;
  }

  /** b1 is b0 with bytes copied to position `at`. */
  ghost predicate Copied(b0: seq<byte>, b1: seq<byte>, at: nat, bytes: seq<byte>) {
    && at + |bytes| <= |b0| == |b1|
    && b1[..at + |bytes|] == b0[..at] + bytes && b1[at + |bytes|..] == b0[at + |bytes|..]
  }

  lemma {:induction false} LoadDone(b0: seq<byte>, b1: seq<byte>, b2: seq<byte>, b3: seq<byte>, front: seq<byte>,
                                    rest: nat, total: nat, crc: seq<byte>)
    requires Copied(b0, b1, 0, Zeros(total)) && Copied(b1, b2, 0, front)
    requires |crc| == 4 && total == |front| + rest + 4 && Copied(b2, b3, total - 4, crc)
    ensures b3[..total] == front + Zeros(rest) + crc && b3[total..] == b0[total..]
  {
    hide Zeros;
    assert b1[..total] == Zeros(total);
    AfterCopy(b1, b2, 0, front, total, b1[total..]);
    assert b2[..|front|] == front;
    assert b1[|front|..total] == b1[..total][|front|..total];
    Zeroed(b2, front, total);
    AfterCopy(b2, b3, total - 4, crc, total, b2[total..]);
    assert b2[..total - 4] == b2[..total][..total - 4];
    FrontOfZeroed(front, rest);
  }

  lemma FrontOfZeroed(front: seq<byte>, rest: nat)
    ensures (front + Zeros(rest + 4))[..|front| + rest] == front + Zeros(rest)
  {
  }

  /** A copy in front of position `total` leaves what lies behind it. */
  lemma AfterCopy(b0: seq<byte>, b1: seq<byte>, at: nat, bytes: seq<byte>, total: nat, behind: seq<byte>)
    requires at + |bytes| <= total <= |b0| == |b1| && b0[total..] == behind
    requires b1[..at + |bytes|] == b0[..at] + bytes && b1[at + |bytes|..] == b0[at + |bytes|..]
    ensures b1[total..] == behind && b1[at + |bytes|..total] == b0[at + |bytes|..total]
  {
    var m := at + |bytes|;
    assert b1[total..] == b1[m..][total - m..] == b0[m..][total - m..];
    assert b1[m..total] == b1[m..][..total - m];
    assert b0[m..total] == b0[m..][..total - m];
  }

  lemma Zeroed(b: seq<byte>, front: seq<byte>, total: nat)
    requires |front| <= total <= |b| && b[..|front|] == front
    requires b[|front|..total] == Zeros(total)[|front|..total]
    ensures b[..total] == front + Zeros(total - |front|)
  {
    assert b[..total] == b[..|front|] + b[|front|..total];
  }
}
