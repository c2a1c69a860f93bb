/**
  Collecting one PSI section from the packets of a PID (TSP_FilterPSI), after sections 2.4.3.3 and
  2.4.4.2 of ISO/IEC 13818-1. The hardware is any sequence of answers, each "no packet" or a
  packet; the CRC is any function of the bytes.
 */
module PsiFilter {

  import opened Bytes

  const PACKET: nat := 188
  /** Bytes that lie behind the packet in memory; the header checks may read into them. */
  const BEHIND: nat := 7
  const TRIES: nat := 3000
  const MAX_ERRORS: nat := 500
  const MAX_SI_SECTION_LEN: nat := 1024

  datatype Code = Success | InputParam | TsError | CrcError | Timeout

  /** A packet as it lies in memory: its 188 bytes and whatever follows them. */
  type Memory = m: seq<byte> | |m| == PACKET + BEHIND witness seq(PACKET + BEHIND, _ => 0)

  datatype Answer = NoPacket | Packet(m: Memory)

  /** What is asked for. */
  datatype Want = Want(pid: nat, tid: byte, sectionNo: byte, serviceId: nat)

  // ---------------------------------------------------------------- one packet

  function At(m: Memory, i: nat): (r: nat)
    requires i < PACKET + BEHIND
    ensures r < 256 && r == m[i]
  {
    Num(m, i)
  }

  /** The packet carries nothing usable (and whether that counts as an error), or payload from `at` on. */
  datatype View = Ignored(errors: nat) | Payload(start: bool, at: nat, cc: nat)

  function PidOf(m: Memory): nat { (At(m, 1) % 32) * 256 + At(m, 2) }

  function Look(m: Memory, pid: nat, first: bool): (v: View)
    ensures v.Ignored? ==> v.errors <= 1
    // a slice is never empty and never longer than the space behind the packet header
    ensures v.Payload? ==> 1 <= PACKET - v.at <= 184 && v.cc < 16 && (first ==> v.start)
  {
    if PidOf(m) != pid % 0x2000 then Ignored(1)
    else if At(m, 1) >= 128 then Ignored(1)
    else
      var start := (At(m, 1) / 64) % 2 == 1;
      if first && !start then Ignored(0)
      else
        var control := (At(m, 3) / 16) % 4;
        if control != 1 && control != 3 then Ignored(0)
        else if control == 3 && At(m, 4) > 182 then Ignored(1)
        else
          var at := if control == 3 then 5 + At(m, 4) else 4;
          if !start then Payload(false, at, At(m, 3) % 16)
          else if at + 1 + At(m, at) >= PACKET then Ignored(1)
          else Payload(true, at + 1 + At(m, at), At(m, 3) % 16)
  }

  // ---------------------------------------------------------------- a packet by its bytes

  // sections 2.4.3.3 and 2.4.3.5 of ISO/IEC 13818-1

  ghost predicate OfPid(m: Memory, pid: nat) { Num(m, 1) % 0x20 * 0x100 + Num(m, 2) == pid % 0x2000 }

  ghost predicate ErrorSet(m: Memory) { Num(m, 1) / 0x80 == 1 }

  ghost predicate StartSet(m: Memory) { Num(m, 1) / 0x40 % 2 == 1 }

  ghost predicate PayloadAnnounced(m: Memory) { Num(m, 3) / 0x10 % 2 == 1 }

  ghost predicate FieldAnnounced(m: Memory) { Num(m, 3) / 0x20 % 2 == 1 }

  ghost function Counter(m: Memory): nat { Num(m, 3) % 0x10 }

  /** Where the adaptation field ends. */
  ghost function FieldEnd(m: Memory): nat { if FieldAnnounced(m) then 4 + 1 + Num(m, 4) else 4 }

  /** Where the payload begins: behind the adaptation field, and behind what the pointer skips. */
  ghost function PayloadAt(m: Memory): nat {
    if StartSet(m) && FieldEnd(m) < PACKET then FieldEnd(m) + 1 + Num(m, FieldEnd(m)) else FieldEnd(m)
  }

  /** A packet of the PID, received without error, with payload that begins inside it. */
  ghost predicate Readable(m: Memory, pid: nat) {
    OfPid(m, pid) && !ErrorSet(m) && PayloadAnnounced(m) && FieldEnd(m) < PACKET && PayloadAt(m) < PACKET
  }

  /**
    The filter looks at a packet exactly if it is readable, and starts a section when it waits for
    one; position, start and counter are those of the bytes. A packet that is not looked at counts as
    an error if it is of another PID, if it has the error bit, or if a field runs out of it.
   */
  lemma {:induction false} LookIsByBytes(m: Memory, pid: nat, first: bool)
    ensures var v := Look(m, pid, first);
            && (v.Payload? <==> Readable(m, pid) && (first ==> StartSet(m)))
            && (v.Payload? ==> v == Payload(StartSet(m), PayloadAt(m), Counter(m)))
            && (v.Ignored? ==>
                  v.errors == if !OfPid(m, pid) || ErrorSet(m) then 1
                              else if (first && !StartSet(m)) || !PayloadAnnounced(m) then 0 else 1)
  {
    var c := Num(m, 3) / 0x10;
    assert c % 4 == 1 || c % 4 == 3 <==> c % 2 == 1;
    assert c / 2 == Num(m, 3) / 0x20;
    assert c % 4 == 3 <==> c % 2 == 1 && c / 2 % 2 == 1;
  }

  function SectionLen(m: Memory, at: nat): nat
    requires at < PACKET
  {
    (At(m, at + 1) % 16) * 256 + At(m, at + 2)
  }

  /** The section that begins at `at` is not the wanted one. */
  predicate HeaderError(w: Want, m: Memory, at: nat)
    requires at < PACKET
  {
    || At(m, at) != w.tid || At(m, at + 6) != w.sectionNo
    || SectionLen(m, at) > 1021
    || (w.pid > 0x14 && w.serviceId != At(m, at + 3) * 256 + At(m, at + 4))
  }

  // ---------------------------------------------------------------- the state machine

  /** Waiting for a first packet, or collecting a section of len + 3 bytes. */
  datatype State = State(first: bool, cc: nat, len: nat, data: seq<byte>, errors: nat)

  const INIT: State := State(true, 0, 0, [], 0)

  datatype Outcome = More(st: State) | Done(code: Code, data: seq<byte>)

  /** The bytes collected once a slice is added, cut at the end of the section. */
  function Take(data: seq<byte>, len: nat, slice: seq<byte>): (r: seq<byte>)
    requires |data| <= len + 3
    ensures |data| <= |r| <= len + 3
  {
    if |data| + |slice| > len + 3 then data + slice[..len + 3 - |data|] else data + slice
  }

  ghost predicate Sane(st: State) {
    && (st.first ==> st.data == [])
    && (!st.first ==> st.len <= 1021 && |st.data| < st.len + 3)
    && st.errors <= MAX_ERRORS + 1
  }

  /** Appends the slice of a packet that was accepted, and checks whether the section is complete. */
  function Collect(crc: seq<byte> -> nat, st: State, slice: seq<byte>): Outcome
    requires |st.data| <= st.len + 3
  {
    var data := Take(st.data, st.len, slice);
    if |data| == st.len + 3 then Done(if crc(data) == 0 then Success else CrcError, data)
    else More(st.(data := data))
  }

  function Step(w: Want, crc: seq<byte> -> nat, st: State, m: Memory): (r: Outcome)
    requires Sane(st) && st.errors <= MAX_ERRORS
    ensures r.More? ==> Sane(r.st) && st.errors <= r.st.errors <= st.errors + 1
  {
    match Look(m, w.pid, st.first)
    case Ignored(errors) => More(st.(errors := st.errors + errors))
    case Payload(_, at, cc) =>
      if st.first then
        if HeaderError(w, m, at) then More(st.(errors := st.errors + 1))
        else Collect(crc, State(false, cc, SectionLen(m, at), [], st.errors), m[at..PACKET])
      else if (st.cc + 1) % 16 != cc then More(State(true, st.cc, st.len, [], st.errors + 1))
      else Collect(crc, st.(cc := cc), m[at..PACKET])
  }

  /** What the filter answers after i tries, in state st. */
  function Run(w: Want, crc: seq<byte> -> nat, answers: nat -> Answer, i: nat, st: State): (Code, seq<byte>)
    requires i <= TRIES && Sane(st)
    decreases TRIES - i
  {
    if i == TRIES then (Timeout, st.data)
    else match answers(i)
      case NoPacket => Run(w, crc, answers, i + 1, st)
      case Packet(m) =>
        if st.errors > MAX_ERRORS then (TsError, st.data)
        else
          match Step(w, crc, st, m)
          case Done(code, data) => (code, data)
          case More(st1) => Run(w, crc, answers, i + 1, st1)
  }

  // ---------------------------------------------------------------- the filter

  lemma RunNone(w: Want, crc: seq<byte> -> nat, answers: nat -> Answer, i: nat, st: State)
    requires i < TRIES && Sane(st) && answers(i) == NoPacket
    ensures Run(w, crc, answers, i, st) == Run(w, crc, answers, i + 1, st)
  {
  }

  lemma RunPacket(w: Want, crc: seq<byte> -> nat, answers: nat -> Answer, i: nat, st: State, m: Memory)
    requires i < TRIES && Sane(st) && answers(i) == Packet(m)
    ensures st.errors > 500 ==> Run(w, crc, answers, i, st) == (TsError, st.data)
    ensures st.errors <= 500 ==>
              var r := Step(w, crc, st, m);
              Run(w, crc, answers, i, st)
                == match r case Done(code, data) => (code, data) case More(st1) => Run(w, crc, answers, i + 1, st1)
  {
  }

  /** Adds a slice to the section, as far as it belongs there. */
  method Append(buffer: array<byte>, copied: nat, sectionLen: nat, slice: seq<byte>) returns (n: nat)
    requires copied <= sectionLen + 3 <= buffer.Length
    modifies buffer
    ensures n <= sectionLen + 3 && buffer[..n] == Take(old(buffer[..copied]), sectionLen, slice)
  {
    var need := if copied + |slice| > sectionLen + 3 then sectionLen + 3 - copied else |slice|;
    assert slice[..|slice|] == slice;
    CopyInto(buffer, copied, slice[..need]);
    n := copied + need;
  }

  /** The checks of the packet header, the adaptation field and the pointer field. */
  method LookAt(m: Memory, pid: nat, first: bool) returns (v: View)
    ensures v == Look(m, pid, first)
    ensures v.Payload? <==> Readable(m, pid) && (first ==> StartSet(m))
    ensures v.Payload? ==> v == Payload(StartSet(m), PayloadAt(m), Counter(m))
    ensures !OfPid(m, pid) || ErrorSet(m) ==> v == Ignored(1)
  {
    hide StartSet, PayloadAt, Counter, OfPid, ErrorSet, FieldEnd, PayloadAnnounced;
    LookIsByBytes(m, pid, first);
    if At(m, 1) % 32 != (pid / 256) % 32 || At(m, 2) != pid % 256 {
      PidBytes(m, pid);
      return Ignored(1);
    }
    PidBytes(m, pid);
    if At(m, 1) >= 128 {
      return Ignored(1);
    }
    var start := (At(m, 1) / 64) % 2 == 1;
    if first && !start {
      return Ignored(0);
    }
    var control := (At(m, 3) / 16) % 4;
    if control != 1 && control != 3 {
      return Ignored(0);
    }
    var at := 4;
    if control == 3 {
      if At(m, 4) > 182 {
        return Ignored(1);
      }
      at := at + 1 + At(m, 4);
    }
    if start {
      at := at + 1 + At(m, at);
      if at >= PACKET {
        return Ignored(1);
      }
    }
    v := Payload(start, at, At(m, 3) % 16);
  }

  lemma PidBytes(m: Memory, pid: nat)
    ensures At(m, 1) % 32 == (pid / 256) % 32 && At(m, 2) == pid % 256 <==> PidOf(m) == pid % 0x2000
  {
    Split(At(m, 1) % 32, At(m, 2), pid);
  }

  lemma Split(hi: nat, lo: nat, pid: nat)
    requires hi < 32 && lo < 256
    ensures hi == (pid / 256) % 32 && lo == pid % 256 <==> hi * 256 + lo == pid % 0x2000
  {
    var x := pid / 256;
    assert pid == (x / 32) * 0x2000 + (x % 32 * 256 + pid % 256);
    Remainder(pid, x / 32, x % 32 * 256 + pid % 256);
  }

  lemma Remainder(n: nat, q: nat, r: nat)
    requires n == q * 0x2000 + r && r < 0x2000
    ensures n % 0x2000 == r
  {
  }

  /** The checks of the section header; false when the packet does not begin the wanted section. */
  method CheckHeader(w: Want, m: Memory, at: nat) returns (ok: bool, sectionLen: nat)
    requires at < PACKET
    ensures ok <==> !HeaderError(w, m, at)
    ensures sectionLen == SectionLen(m, at)
  {
    sectionLen := (At(m, at + 1) * 256 + At(m, at + 2)) % 0x1000;
    LowBits(At(m, at + 1), At(m, at + 2));
    if At(m, at) != w.tid || At(m, at + 6) != w.sectionNo {
      return false, sectionLen;
    }
    if sectionLen > 1021 {
      return false, sectionLen;
    }
    if w.pid > 0x14 && w.serviceId != At(m, at + 3) * 256 + At(m, at + 4) {
      return false, sectionLen;
    }
    ok := true;
  }

  lemma LowBits(hi: nat, lo: nat)
    requires hi < 256 && lo < 256
    ensures (hi * 256 + lo) % 0x1000 == (hi % 16) * 256 + lo
  {
  }

  /** TSP_FilterPSI, for a buffer of the size that all callers use. */
  method FilterPsi(w: Want, crc: seq<byte> -> nat, answers: nat -> Answer, buffer: array<byte>, bufLen: nat)
    returns (code: Code, ghost len: nat)
    requires buffer.Length == MAX_SI_SECTION_LEN
    modifies buffer
    ensures bufLen > MAX_SI_SECTION_LEN ==> code == InputParam && buffer[..] == old(buffer[..])
    ensures bufLen <= MAX_SI_SECTION_LEN ==>
              && len <= MAX_SI_SECTION_LEN
              && (code, buffer[..len]) == Run(w, crc, answers, 0, INIT)
  {
    hide Look, Run, HeaderError, SectionLen, Readable, StartSet, PayloadAt, Counter, OfPid, ErrorSet;
    len := 0;
    if bufLen > MAX_SI_SECTION_LEN {
      return InputParam, len;
    }
    var timeOut := TRIES;
    var errors: nat, first, cc: nat, sectionLen: nat, copied: nat := 0, true, 0, 0, 0;
    assert buffer[..0] == [];
    while timeOut > 0
      invariant 0 <= timeOut <= TRIES && copied <= MAX_SI_SECTION_LEN
      invariant Sane(State(first, cc, sectionLen, buffer[..copied], errors))
      invariant Run(w, crc, answers, 0, INIT)
                == Run(w, crc, answers, TRIES - timeOut, State(first, cc, sectionLen, buffer[..copied], errors))
    {
      ghost var st := State(first, cc, sectionLen, buffer[..copied], errors);
      len := copied;
      var answer := answers(TRIES - timeOut);
      timeOut := timeOut - 1;
      if answer.NoPacket? {
        RunNone(w, crc, answers, TRIES - timeOut - 1, st);
        continue;
      }
      var m := answer.m;
      RunPacket(w, crc, answers, TRIES - timeOut - 1, st, m);
      if errors > MAX_ERRORS {
        return TsError, len;
      }
      var v := LookAt(m, w.pid, first);
      if v.Ignored? {
        errors := errors + v.errors;
        continue;
      }
      var at := v.at;
      if first {
        var ok, n := CheckHeader(w, m, at);
        if !ok {
          errors := errors + 1;
          continue;
        }
        sectionLen := n;
        first := false;
        cc := v.cc;
      } else {
        if (cc + 1) % 16 != v.cc {
          errors := errors + 1;
          first := true;
          copied := 0;
          assert buffer[..0] == [];
          continue;
        }
        cc := (cc + 1) % 16;
      }
      copied := Append(buffer, copied, sectionLen, m[at..PACKET]);
      len := copied;
      if sectionLen + 3 == copied {
        if crc(buffer[..sectionLen + 3]) == 0 {
          return Success, len;
        } else {
          return CrcError, len;
        }
      }
    }
    RunEnds(w, crc, answers, State(first, cc, sectionLen, buffer[..copied], errors));
    return Timeout, copied;
  }

  lemma RunEnds(w: Want, crc: seq<byte> -> nat, answers: nat -> Answer, st: State)
    requires Sane(st)
    ensures Run(w, crc, answers, TRIES, st) == (Timeout, st.data)
  {
  }
}
