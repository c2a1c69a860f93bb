/**
  What the section filter guarantees: it only returns sections that were sent, and it returns
  every section that is sent properly.
 */
module PsiTheorems {
  import opened Bytes
  import opened PsiFilter

  // ---------------------------------------------------------------- soundness

  /** The payload of an answer, once a first packet has been seen. */
  ghost function Slice(w: Want, a: Answer): seq<byte> {
    if HasPayload(w, a) then a.m[PayloadAt(a.m)..PACKET] else []
  }

  /** The continuity counter. */
  ghost function CcOf(w: Want, a: Answer): nat { if HasPayload(w, a) then Counter(a.m) else 0 }

  /** The payload of the answers with the given numbers, one after the other. */
  ghost function Gather(w: Want, answers: nat -> Answer, run: seq<nat>): seq<byte> {
    if run == [] then [] else Gather(w, answers, run[..|run| - 1]) + Slice(w, answers(run[|run| - 1]))
  }

  function Cut(s: seq<byte>, n: nat): seq<byte> { if |s| > n then s[..n] else s }

  /** The answer is a packet of the PID, without error, with payload. */
  ghost predicate HasPayload(w: Want, a: Answer) { a.Packet? && Readable(a.m, w.pid) }

  /** The answer begins the wanted section, of len + 3 bytes. */
  ghost predicate Begins(w: Want, a: Answer, len: nat) {
    && HasPayload(w, a)
    && StartSet(a.m) && !HeaderError(w, a.m, PayloadAt(a.m)) && len == SectionLen(a.m, PayloadAt(a.m))
  }

  ghost predicate Increasing(run: seq<nat>, hi: nat) {
    && (forall i, j :: 0 <= i < j < |run| ==> run[i] < run[j])
    && (forall j :: 0 <= j < |run| ==> run[j] < hi)
  }

  /** Every packet has payload, and the continuity counter rises by one, modulo 16, from each to the next. */
  ghost predicate CountsUp(w: Want, answers: nat -> Answer, run: seq<nat>) {
    forall j :: 0 <= j < |run| ==>
      && HasPayload(w, answers(run[j]))
      && (j > 0 ==> CcOf(w, answers(run[j])) == (CcOf(w, answers(run[j - 1])) + 1) % 16)
  }

  lemma {:induction false} CountsOn(w: Want, answers: nat -> Answer, run: seq<nat>, i: nat)
    requires CountsUp(w, answers, run) && HasPayload(w, answers(i))
    requires run != [] ==> CcOf(w, answers(i)) == (CcOf(w, answers(run[|run| - 1])) + 1) % 16
    ensures CountsUp(w, answers, run + [i])
  {
    hide HasPayload, CcOf;
    var more := run + [i];
    forall j | 0 <= j < |more|
      ensures HasPayload(w, answers(more[j]))
      ensures j > 0 ==> CcOf(w, answers(more[j])) == (CcOf(w, answers(more[j - 1])) + 1) % 16
    {
      assert j > 0 ==> more[j - 1] == run[j - 1];
      assert j < |run| ==> more[j] == run[j];
    }
  }

  /**
    The packets with the numbers in `run`, all among the first hi answers: the first one begins the
    section, the continuity counter rises by one from each to the next, and every answer between
    them, or after the last one, carries no payload of the PID.
   */
  ghost predicate Consecutive(w: Want, answers: nat -> Answer, hi: nat, run: seq<nat>, len: nat) {
    && run != [] && Increasing(run, hi)
    && Begins(w, answers(run[0]), len)
    && CountsUp(w, answers, run)
    && (forall k :: run[0] <= k < hi && k !in run ==> !HasPayload(w, answers(k)))
  }

  /** The state of the filter after i answers: nothing, or the payload of a run of packets. */
  ghost predicate Explained(w: Want, answers: nat -> Answer, i: nat, st: State, run: seq<nat>) {
    && Sane(st)
    && (!st.first ==>
          && Consecutive(w, answers, i, run, st.len)
          && st.data == Gather(w, answers, run)
          && st.cc == CcOf(w, answers(run[|run| - 1])))
  }

  lemma {:induction false} StillConsecutive(w: Want, answers: nat -> Answer, i: nat, run: seq<nat>, len: nat)
    requires Consecutive(w, answers, i, run, len) && !HasPayload(w, answers(i))
    ensures Consecutive(w, answers, i + 1, run, len)
  {
    hide HasPayload, Begins, CcOf;
    assert forall k :: run[0] <= k < i + 1 && k !in run ==> !HasPayload(w, answers(k));
  }

  lemma {:induction false} OneMorePacket(w: Want, answers: nat -> Answer, i: nat, run: seq<nat>, len: nat)
    requires Consecutive(w, answers, i, run, len) && HasPayload(w, answers(i))
    requires CcOf(w, answers(i)) == (CcOf(w, answers(run[|run| - 1])) + 1) % 16
    ensures Consecutive(w, answers, i + 1, run + [i], len)
    ensures Gather(w, answers, run + [i]) == Gather(w, answers, run) + Slice(w, answers(i))
  {
    hide HasPayload, Begins, CcOf, Slice, Increasing, CountsUp;
    var more := run + [i];
    assert more[..|more| - 1] == run && more[0] == run[0];
    CountsOn(w, answers, run, i);
    forall k | run[0] <= k < i + 1 && k !in more ensures !HasPayload(w, answers(k)) {
      assert k != i && k !in run;
    }
    LaterStill(run, i);
  }

  lemma LaterStill(run: seq<nat>, i: nat)
    requires Increasing(run, i)
    ensures Increasing(run + [i], i + 1)
  {
  }

  lemma {:induction false} FirstPacket(w: Want, answers: nat -> Answer, i: nat, len: nat)
    requires Begins(w, answers(i), len)
    ensures Consecutive(w, answers, i + 1, [i], len) && Gather(w, answers, [i]) == Slice(w, answers(i))
  {
    hide HeaderError, SectionLen, Readable, PayloadAt, Counter;
    assert [i][..0] == [];
    assert Gather(w, answers, [i]) == [] + Slice(w, answers(i));
  }

  /** What the filter returns when it succeeds. */
  ghost predicate Sent(w: Want, crc: seq<byte> -> nat, answers: nat -> Answer, data: seq<byte>, run: seq<nat>, hi: nat,
                       len: nat) {
    && hi <= 3000 && len <= 1021
    && Consecutive(w, answers, hi, run, len)
    && |data| == len + 3 <= MAX_SI_SECTION_LEN && data == Cut(Gather(w, answers, run), len + 3)
    && crc(data) == 0
  }

  lemma {:induction false} SoundFrom(w: Want, crc: seq<byte> -> nat, answers: nat -> Answer, i: nat, st: State,
                                     run: seq<nat>)
    requires i <= TRIES && Explained(w, answers, i, st, run)
    ensures var (code, data) := Run(w, crc, answers, i, st);
            code == Success ==> exists r, hi, len :: Sent(w, crc, answers, data, r, hi, len)
    decreases TRIES - i
  {
    hide Look, HeaderError, SectionLen, Consecutive, Gather, Sent, Run, Increasing, Readable, PayloadAt, Counter;
    if i == TRIES {
      RunEnds(w, crc, answers, st);
    } else {
      match answers(i)
      case NoPacket =>
        RunNone(w, crc, answers, i, st);
        if !st.first {
          StillConsecutive(w, answers, i, run, st.len);
        }
        SoundFrom(w, crc, answers, i + 1, st, run);
      case Packet(m) =>
        RunPacket(w, crc, answers, i, st, m);
        if st.errors <= MAX_ERRORS {
          var run1, hi := SoundStep(w, crc, answers, i, st, run, m);
          var r := Step(w, crc, st, m);
          if r.More? {
            SoundFrom(w, crc, answers, i + 1, r.st, run1);
          }
        }
    }
  }

  /** One packet keeps the state explained, by the run returned; a success is explained by it too. */
  lemma {:induction false} SoundStep(w: Want, crc: seq<byte> -> nat, answers: nat -> Answer, i: nat, st: State,
                                     run: seq<nat>, m: Memory)
    returns (run1: seq<nat>, hi: nat)
    requires i < TRIES && Explained(w, answers, i, st, run) && answers(i) == Packet(m) && st.errors <= MAX_ERRORS
    ensures hi == i + 1
    ensures match Step(w, crc, st, m)
            case More(st1) => Explained(w, answers, hi, st1, run1)
            case Done(code, data) => code == Success ==> exists len :: Sent(w, crc, answers, data, run1, hi, len)
  {
    hide Look, HeaderError, SectionLen, Consecutive, Gather, Readable, StartSet, PayloadAt, Counter;
    LookIsByBytes(m, w.pid, st.first);
    run1, hi := run, i + 1;
    var v := Look(m, w.pid, st.first);
    if v.Ignored? {
      if !st.first {
        StillConsecutive(w, answers, i, run, st.len);
      }
    } else if st.first {
      if !HeaderError(w, m, v.at) {
        run1 := [i];
        var len := SectionLen(m, v.at);
        FirstPacket(w, answers, i, len);
        HeaderBounds(w, m, v.at);
        TakeIsCut([], len, m[v.at..PACKET]);
        Complete(w, crc, answers, i, State(false, v.cc, len, [], st.errors), run1, m[v.at..PACKET]);
      }
    } else if (st.cc + 1) % 16 == v.cc {
      run1 := run + [i];
      OneMorePacket(w, answers, i, run, st.len);
      Complete(w, crc, answers, i, st.(cc := v.cc), run1, m[v.at..PACKET]);
    }
  }

  lemma HeaderBounds(w: Want, m: Memory, at: nat)
    requires at < PACKET && !HeaderError(w, m, at)
    ensures SectionLen(m, at) <= 1021
  {
  }

  lemma TakeIsCut(data: seq<byte>, len: nat, slice: seq<byte>)
    requires |data| <= len + 3
    ensures Take(data, len, slice) == Cut(data + slice, len + 3)
  {
  }

  lemma {:induction false} Complete(w: Want, crc: seq<byte> -> nat, answers: nat -> Answer, i: nat, st: State,
                                    run: seq<nat>, slice: seq<byte>)
    requires i < TRIES && !st.first && st.len <= 1021 && |st.data| < st.len + 3
    requires Consecutive(w, answers, i + 1, run, st.len) && Gather(w, answers, run) == st.data + slice
    ensures var r := Collect(crc, st, slice);
            && (r.More? ==> r.st.data == Gather(w, answers, run))
            && (r.Done? && r.code == Success ==> Sent(w, crc, answers, r.data, run, i + 1, st.len))
  {
    hide Consecutive, Gather;
    TakeIsCut(st.data, st.len, slice);
  }

  /**
    Soundness: a successful filter returns the payload of consecutive packets of the PID, from one
    that begins the wanted section on, cut at the length that the section header tells, and its CRC
    is zero. At most 3000 answers were used.
   */
  lemma {:induction false} Soundness(w: Want, crc: seq<byte> -> nat, answers: nat -> Answer)
    ensures var (code, data) := Run(w, crc, answers, 0, INIT);
            code == Success ==> exists run, hi, len :: Sent(w, crc, answers, data, run, hi, len)
  {
    SoundFrom(w, crc, answers, 0, INIT, []);
  }

  // ---------------------------------------------------------------- packets as they are made

  /** How a packet is laid out around its payload: an adaptation field, and bytes before a section start. */
  datatype Layout = Layout(hasField: bool, field: seq<byte>, skipped: seq<byte>)

  function Head(pid: nat, start: bool, cc: nat, l: Layout): (r: seq<byte>)
    requires pid < 0x2000 && cc < 16
    ensures |r| == 4
  {
    [0x47, (if start then 0x40 else 0) + pid / 256, pid % 256, (if l.hasField then 0x30 else 0x10) + cc]
  }

  function Field(l: Layout): (r: seq<byte>)
    requires |l.field| <= 182
    ensures |r| == if l.hasField then 1 + |l.field| else 0
    ensures l.hasField ==> r[0] == |l.field|
  {
    if l.hasField then [|l.field|] + l.field else []
  }

  function Pointer(start: bool, l: Layout): (r: seq<byte>)
    requires |l.skipped| < PACKET
    ensures |r| == if start then 1 + |l.skipped| else 0
    ensures start ==> r[0] == |l.skipped|
  {
    if start then [|l.skipped|] + l.skipped else []
  }

  /** A transport packet that carries `slice`, section 2.4.3.2 of ISO/IEC 13818-1. */
  function Made(pid: nat, start: bool, cc: nat, l: Layout, slice: seq<byte>): seq<byte>
    requires pid < 0x2000 && cc < 16 && |l.field| <= 182 && |l.skipped| < PACKET
  {
    Head(pid, start, cc, l) + Field(l) + Pointer(start, l) + slice
  }

  /** The answer is a packet made for the slice, whatever lies behind it in memory. */
  ghost predicate Carries(a: Answer, pid: nat, start: bool, cc: nat, l: Layout, slice: seq<byte>) {
    && a.Packet? && pid < 0x2000 && cc < 16 && |l.field| <= 182 && |l.skipped| < PACKET && slice != []
    && a.m[..PACKET] == Made(pid, start, cc, l, slice)
  }

  /** The filter finds the slice where it was put. */
  lemma {:induction false} LookFindsSlice(a: Answer, pid: nat, start: bool, cc: nat, l: Layout, slice: seq<byte>,
                                          first: bool)
    requires Carries(a, pid, start, cc, l, slice) && (first ==> start)
    ensures |slice| <= 184 && Look(a.m, pid, first) == Payload(start, PACKET - |slice|, cc)
    ensures a.m[PACKET - |slice|..PACKET] == slice
  {
    hide Look, Field, Pointer, Head;
    MemoryParts(a.m, Head(pid, start, cc, l), Field(l), Pointer(start, l), slice);
    HeadIs(pid, start, cc, l);
    LookAtBytes(a.m, pid, start, cc, l, first);
  }

  lemma {:induction false} MemoryParts(m: Memory, head: seq<byte>, field: seq<byte>, pointer: seq<byte>,
                                       slice: seq<byte>)
    requires m[..PACKET] == head + field + pointer + slice && |head| == 4
    ensures |head| + |field| + |pointer| + |slice| == PACKET
    ensures forall i :: 0 <= i < 4 ==> m[i] == head[i]
    ensures field != [] ==> m[4] == field[0]
    ensures pointer != [] ==> m[4 + |field|] == pointer[0]
    ensures m[PACKET - |slice|..PACKET] == slice
  {
    var p := m[..PACKET];
    Assoc(head, field, pointer, slice);
    HeadBytes(m, head, field + (pointer + slice));
    Middle(m, head, field, pointer + slice);
    Middle(m, head + field, pointer, slice);
    Tail(m, head + field + pointer, slice);
  }

  lemma {:induction false} Assoc(a: seq<byte>, b: seq<byte>, c: seq<byte>, d: seq<byte>)
    ensures a + b + c + d == a + (b + (c + d))
    ensures a + b + c + d == (a + b) + (c + d)
  {
  }

  lemma HeadIs(pid: nat, start: bool, cc: nat, l: Layout)
    requires pid < 0x2000 && cc < 16
    ensures var r := Head(pid, start, cc, l);
            && r[1] == (if start then 0x40 else 0) + pid / 256 && r[2] == pid % 256
            && r[3] == (if l.hasField then 0x30 else 0x10) + cc
  {
  }

  /** The same, from the bytes that the filter inspects. */
  lemma {:induction false} LookAtBytes(m: Memory, pid: nat, start: bool, cc: nat, l: Layout, first: bool)
    requires pid < 0x2000 && cc < 16 && |l.field| <= 182 && (first ==> start)
    requires m[1] == (if start then 0x40 else 0) + pid / 256 && m[2] == pid % 256
    requires m[3] == (if l.hasField then 0x30 else 0x10) + cc
    requires l.hasField ==> m[4] == |l.field|
    requires var at := if l.hasField then 5 + |l.field| else 4;
             start ==> m[at] == |l.skipped| && at + 1 + |l.skipped| < PACKET
    ensures var at := if l.hasField then 5 + |l.field| else 4;
            Look(m, pid, first) == Payload(start, if start then at + 1 + |l.skipped| else at, cc)
  {
    PidOfMade(pid);
    assert At(m, 1) % 32 == pid / 256 && (At(m, 1) / 64) % 2 == 1 <==> start;
  }

  lemma {:induction false} HeadBytes(m: Memory, head: seq<byte>, rest: seq<byte>)
    requires m[..PACKET] == head + rest && |head| == 4
    ensures forall i :: 0 <= i < 4 ==> m[i] == head[i]
  {
    forall i | 0 <= i < 4 ensures m[i] == head[i] {
      assert m[..PACKET][i] == (head + rest)[i];
    }
  }

  lemma {:induction false} Middle(m: Memory, before: seq<byte>, part: seq<byte>, rest: seq<byte>)
    requires m[..PACKET] == before + (part + rest)
    ensures part != [] ==> |before| < PACKET && m[|before|] == part[0]
  {
    if part != [] {
      assert m[..PACKET][|before|] == (part + rest)[0];
    }
  }

  lemma {:induction false} Tail(m: Memory, before: seq<byte>, slice: seq<byte>)
    requires m[..PACKET] == before + slice
    ensures m[|before|..PACKET] == slice
  {
    assert m[|before|..PACKET] == m[..PACKET][|before|..];
  }

  lemma PidOfMade(pid: nat)
    requires pid < 0x2000
    ensures pid / 256 < 32 && (pid / 256) * 256 + pid % 256 == pid
  {
  }

  // ---------------------------------------------------------------- completeness

  /** The header of a section: what was asked for, and a length field that tells the truth. */
  ghost predicate Wanted(w: Want, sec: seq<byte>) {
    && 7 <= |sec| <= MAX_SI_SECTION_LEN
    && Num(sec, 0) == w.tid && Num(sec, 6) == w.sectionNo
    && (Num(sec, 1) % 16) * 256 + Num(sec, 2) == |sec| - 3
    && (w.pid > 0x14 ==> w.serviceId == Num(sec, 3) * 256 + Num(sec, 4))
  }

  /** The filter looks at the packet: it is readable, and begins a section if it waits for one. */
  ghost predicate LookedAt(w: Want, m: Memory, first: bool) { Readable(m, w.pid) && (first ==> StartSet(m)) }

  /** The answer does not disturb the filter while it waits for a first packet, or between packets. */
  ghost predicate Harmless(w: Want, a: Answer, first: bool) {
    a.NoPacket? || !LookedAt(w, a.m, first) || (first && HeaderError(w, a.m, PayloadAt(a.m)))
  }

  /** How many errors a harmless answer counts for. */
  ghost function Noise(w: Want, a: Answer, first: bool): (n: nat)
    ensures n <= 1
  {
    if a.NoPacket? then 0
    else if !OfPid(a.m, w.pid) || ErrorSet(a.m) then 1
    else if (first && !StartSet(a.m)) || !PayloadAnnounced(a.m) then 0
    else 1
  }

  /** A packet of another PID, or one that was received with an error, is harmless and counts as one error. */
  lemma OthersCountAsErrors(w: Want, a: Answer, first: bool)
    requires a.Packet? && (!OfPid(a.m, w.pid) || ErrorSet(a.m))
    ensures Harmless(w, a, first) && Noise(w, a, first) == 1
  {
  }

  /** A harmless packet only adds to the errors. */
  lemma {:induction false} HarmlessStep(w: Want, crc: seq<byte> -> nat, st: State, m: Memory)
    requires Sane(st) && st.errors <= MAX_ERRORS && Harmless(w, Packet(m), st.first)
    ensures Step(w, crc, st, m) == More(st.(errors := st.errors + Noise(w, Packet(m), st.first)))
  {
    hide Look, HeaderError, OfPid, ErrorSet, StartSet, PayloadAt, Counter, FieldEnd;
    LookIsByBytes(m, w.pid, st.first);
  }

  ghost function NoiseIn(w: Want, answers: nat -> Answer, lo: nat, hi: nat, first: bool): nat
    decreases hi - lo
  {
    if lo >= hi then 0 else Noise(w, answers(lo), first) + NoiseIn(w, answers, lo + 1, hi, first)
  }

  /** Harmless answers only cost tries and errors. */
  lemma {:induction false} SkipNoise(w: Want, crc: seq<byte> -> nat, answers: nat -> Answer, i: nat, j: nat, st: State)
    requires i <= j <= TRIES && Sane(st)
    requires forall k :: i <= k < j ==> Harmless(w, answers(k), st.first)
    requires st.errors + NoiseIn(w, answers, i, j, st.first) <= MAX_ERRORS
    ensures Sane(st.(errors := st.errors + NoiseIn(w, answers, i, j, st.first)))
    ensures Run(w, crc, answers, i, st) == Run(w, crc, answers, j,
                                               st.(errors := st.errors + NoiseIn(w, answers, i, j, st.first)))
    decreases j - i
  {
    hide Harmless, OfPid, ErrorSet, StartSet, PayloadAnnounced, Run, Step;
    if i < j {
      var st1 := st.(errors := st.errors + Noise(w, answers(i), st.first));
      match answers(i) {
        case NoPacket => RunNone(w, crc, answers, i, st);
        case Packet(m) =>
          RunPacket(w, crc, answers, i, st, m);
          assert Harmless(w, answers(i), st.first);
          HarmlessStep(w, crc, st, m);
      }
      SkipNoise(w, crc, answers, i + 1, j, st1);
    }
  }

  /**
    The packets with the numbers in `run`, none before answer `from`, carry the slices, the first one
    alone with a section start, with counters from c upwards; all other answers from there up to the
    last packet are harmless.
   */
  ghost predicate Delivered(w: Want, answers: nat -> Answer, from: nat, run: seq<nat>, slices: seq<seq<byte>>,
                            layouts: seq<Layout>, c: nat) {
    && 0 < |run| == |slices| == |layouts| && Increasing(run, 3000) && from <= run[0]
    && (forall j :: 0 <= j < |run| ==> Carries(answers(run[j]), w.pid, j == 0, (c + j) % 16, layouts[j], slices[j]))
    && (forall k :: from <= k < run[0] ==> Harmless(w, answers(k), true))
    && (forall j, k :: 0 < j < |run| && run[j - 1] < k < run[j] ==> Harmless(w, answers(k), false))
  }

  /** Errors counted from answer `from` on, before packet j. */
  ghost function ErrorsBefore(w: Want, answers: nat -> Answer, from: nat, run: seq<nat>, j: nat): nat
    requires j < |run|
  {
    if j == 0 then NoiseIn(w, answers, from, run[0], true)
    else ErrorsBefore(w, answers, from, run, j - 1) + NoiseIn(w, answers, run[j - 1] + 1, run[j], false)
  }

  function Flat(slices: seq<seq<byte>>): seq<byte> {
    if slices == [] then [] else Flat(slices[..|slices| - 1]) + slices[|slices| - 1]
  }

  /** The filter when packet j is next, while the section is not complete; st0 is its state at answer `from`. */
  ghost function StateBefore(w: Want, answers: nat -> Answer, from: nat, st0: State, run: seq<nat>,
                             slices: seq<seq<byte>>, c: nat, len: nat, j: nat): State
    requires j < |run| == |slices|
  {
    var errors := st0.errors + ErrorsBefore(w, answers, from, run, j);
    if j == 0 then st0.(errors := errors) else State(false, (c + j - 1) % 16, len, Flat(slices[..j]), errors)
  }

  /** The first packet is taken for what it is. */
  lemma {:induction false} FirstAccepted(w: Want, a: Answer, c: nat, l: Layout, slice: seq<byte>, sec: seq<byte>)
    requires Carries(a, w.pid, true, c, l, slice) && Wanted(w, sec) && |slice| >= 7
    requires forall i :: 0 <= i < 7 ==> slice[i] == sec[i]
    ensures var at := PACKET - |slice|;
            at < PACKET && !HeaderError(w, a.m, at) && SectionLen(a.m, at) == |sec| - 3
  {
    LookFindsSlice(a, w.pid, true, c, l, slice, true);
    var at := PACKET - |slice|;
    assert forall i :: 0 <= i < 7 ==> a.m[at..PACKET][i] == sec[i];
    assert forall i :: 0 <= i < 7 ==> a.m[at + i] == sec[i];
  }

  lemma {:induction false} FlatStep(slices: seq<seq<byte>>, j: nat)
    requires j < |slices|
    ensures Flat(slices[..j + 1]) == Flat(slices[..j]) + slices[j]
    ensures Flat(slices[..0]) == []
  {
    assert slices[..j + 1][..j] == slices[..j];
  }

  lemma {:induction false} FlatGrows(slices: seq<seq<byte>>, i: nat, j: nat)
    requires i <= j <= |slices|
    ensures Flat(slices[..i]) <= Flat(slices[..j])
    decreases j
  {
    if i < j {
      FlatGrows(slices, i, j - 1);
      FlatStep(slices, j - 1);
    }
  }

  /** Taking packet j in the state that the packets before it have led to. */
  lemma {:induction false} TakePacket(w: Want, crc: seq<byte> -> nat, st: State, a: Answer, cc: nat, l: Layout,
                                      slice: seq<byte>, len: nat)
    requires Sane(st) && st.errors <= MAX_ERRORS && len <= 1021
    requires Carries(a, w.pid, st.first, cc, l, slice)
    requires st.first ==> !HeaderError(w, a.m, PACKET - |slice|) && SectionLen(a.m, PACKET - |slice|) == len
    requires !st.first ==> st.len == len && (st.cc + 1) % 16 == cc
    ensures Step(w, crc, st, a.m) == Collect(crc, State(false, cc, len, st.data, st.errors), slice)
  {
    hide Look, HeaderError, SectionLen;
    LookFindsSlice(a, w.pid, st.first, cc, l, slice, st.first);
  }

  lemma {:induction false} FewErrorsBefore(w: Want, answers: nat -> Answer, from: nat, run: seq<nat>, i: nat, j: nat)
    requires i <= j < |run|
    ensures ErrorsBefore(w, answers, from, run, i) <= ErrorsBefore(w, answers, from, run, j)
    decreases j
  {
    if i < j {
      FewErrorsBefore(w, answers, from, run, i, j - 1);
    }
  }

  /** The section is sent whole: the slices run past its end, but only in the last packet. */
  ghost predicate SentWhole(w: Want, sec: seq<byte>, slices: seq<seq<byte>>) {
    && Wanted(w, sec) && slices != [] && |slices[0]| >= 7
    && sec <= Flat(slices) && |Flat(slices[..|slices| - 1])| < |sec|
  }

  lemma {:induction false} SentPart(w: Want, sec: seq<byte>, slices: seq<seq<byte>>, j: nat)
    requires SentWhole(w, sec, slices) && j < |slices|
    ensures |Flat(slices[..j])| < |sec|
    ensures Take(Flat(slices[..j]), |sec| - 3, slices[j]) == if j + 1 < |slices| then Flat(slices[..j + 1]) else sec
    ensures j + 1 < |slices| ==> |Flat(slices[..j + 1])| < |sec|
  {
    hide Flat;
    var n := |slices|;
    assert slices[..n] == slices;
    FlatGrows(slices, j, n - 1);
    FlatStep(slices, j);
    FlatGrows(slices, j + 1, n);
    if j + 1 < n {
      FlatGrows(slices, j + 1, n - 1);
    } else {
      var all := Flat(slices[..j]) + slices[j];
      assert all[..|sec|] == sec;
      assert Take(Flat(slices[..j]), |sec| - 3, slices[j]) == all[..|sec|];
    }
  }

  lemma {:induction false} FirstBytes(w: Want, sec: seq<byte>, slices: seq<seq<byte>>)
    requires SentWhole(w, sec, slices)
    ensures forall i :: 0 <= i < 7 ==> slices[0][i] == sec[i]
  {
    hide Flat;
    assert slices[..|slices|] == slices;
    FlatStep(slices, 0);
    FlatGrows(slices, 1, |slices|);
    assert Flat(slices[..1]) == slices[0];
    forall i | 0 <= i < 7 ensures slices[0][i] == sec[i] {
      assert Flat(slices)[i] == slices[0][i];
    }
  }

  /** The step at packet j: the slice is collected. */
  lemma {:induction false} PacketStep(w: Want, crc: seq<byte> -> nat, answers: nat -> Answer, from: nat, st0: State,
                                      run: seq<nat>, slices: seq<seq<byte>>, layouts: seq<Layout>, c: nat,
                                      sec: seq<byte>, j: nat)
    requires Delivered(w, answers, from, run, slices, layouts, c) && SentWhole(w, sec, slices) && j < |run|
    requires Sane(st0) && st0.first && st0.errors + ErrorsBefore(w, answers, from, run, j) <= MAX_ERRORS
    ensures var st := StateBefore(w, answers, from, st0, run, slices, c, |sec| - 3, j);
            && Sane(st) && answers(run[j]).Packet?
            && Step(w, crc, st, answers(run[j]).m)
               == Collect(crc, State(false, (c + j) % 16, |sec| - 3, Flat(slices[..j]), st.errors), slices[j])
  {
    hide Delivered, Flat, Carries, ErrorsBefore, HeaderError, Harmless, Look, SectionLen, SentWhole, Wanted, Step,
      Collect;
    DeliveredPart(w, answers, from, run, slices, layouts, c, j);
    SentBounds(w, sec, slices);
    var st := StateBefore(w, answers, from, st0, run, slices, c, |sec| - 3, j);
    SentPart(w, sec, slices, j);
    FlatStep(slices, 0);
    CarriesPacket(answers(run[j]), w.pid, j == 0, (c + j) % 16, layouts[j], slices[j]);
    if j == 0 {
      FirstBytes(w, sec, slices);
      FirstAccepted(w, answers(run[0]), (c + j) % 16, layouts[0], slices[0], sec);
    } else {
      NextCounter(c + j - 1);
    }
    TakePacket(w, crc, st, answers(run[j]), (c + j) % 16, layouts[j], slices[j], |sec| - 3);
  }

  lemma NextCounter(n: nat)
    ensures (n % 16 + 1) % 16 == (n + 1) % 16
  {
  }

  lemma DeliveredPart(w: Want, answers: nat -> Answer, from: nat, run: seq<nat>, slices: seq<seq<byte>>,
                      layouts: seq<Layout>, c: nat, j: nat)
    requires Delivered(w, answers, from, run, slices, layouts, c)
    ensures 0 < |run| == |slices| == |layouts|
    ensures j < |run| ==> Carries(answers(run[j]), w.pid, j == 0, (c + j) % 16, layouts[j], slices[j]) && run[j] < TRIES
  {
  }

  lemma SentBounds(w: Want, sec: seq<byte>, slices: seq<seq<byte>>)
    requires SentWhole(w, sec, slices)
    ensures Wanted(w, sec) && 7 <= |sec| <= MAX_SI_SECTION_LEN && slices != [] && |slices[0]| >= 7
  {
  }

  lemma CarriesPacket(a: Answer, pid: nat, start: bool, cc: nat, l: Layout, slice: seq<byte>)
    requires Carries(a, pid, start, cc, l, slice)
    ensures a.Packet? && slice != []
  {
  }

  lemma {:induction false} ReachPacket(w: Want, crc: seq<byte> -> nat, answers: nat -> Answer, from: nat, st0: State,
                                       run: seq<nat>, slices: seq<seq<byte>>, layouts: seq<Layout>, c: nat,
                                       sec: seq<byte>, j: nat)
    requires Delivered(w, answers, from, run, slices, layouts, c) && SentWhole(w, sec, slices) && j < |run|
    requires Sane(st0) && st0.first && st0.errors + ErrorsBefore(w, answers, from, run, j) <= MAX_ERRORS
    ensures var st := StateBefore(w, answers, from, st0, run, slices, c, |sec| - 3, j);
            from <= TRIES && Sane(st) && Run(w, crc, answers, from, st0) == Run(w, crc, answers, run[j], st)
    decreases j
  {
    hide Flat, Carries, HeaderError, Harmless, Look, SectionLen, SentWhole, Run, NoiseIn, Step;
    PacketStep(w, crc, answers, from, st0, run, slices, layouts, c, sec, j);
    if j == 0 {
      SkipNoise(w, crc, answers, from, run[0], st0);
    } else {
      var i := j - 1;
      FewErrorsBefore(w, answers, from, run, i, j);
      ReachPacket(w, crc, answers, from, st0, run, slices, layouts, c, sec, i);
      PacketStep(w, crc, answers, from, st0, run, slices, layouts, c, sec, i);
      SentPart(w, sec, slices, i);
      var st := StateBefore(w, answers, from, st0, run, slices, c, |sec| - 3, i);
      RunPacket(w, crc, answers, run[i], st, answers(run[i]).m);
      var st1 := State(false, (c + i) % 16, |sec| - 3, Flat(slices[..j]), st.errors);
      assert Step(w, crc, st, answers(run[i]).m) == More(st1);
      SkipNoise(w, crc, answers, run[i] + 1, run[j], st1);
    }
  }

  /** The same for a filter that waits for a first packet from answer `from` on, with some errors counted. */
  lemma {:induction false} CompletenessFrom(w: Want, crc: seq<byte> -> nat, answers: nat -> Answer, from: nat,
                                            st0: State, run: seq<nat>, slices: seq<seq<byte>>, layouts: seq<Layout>,
                                            c: nat, sec: seq<byte>)
    requires Delivered(w, answers, from, run, slices, layouts, c) && SentWhole(w, sec, slices) && crc(sec) == 0
    requires Sane(st0) && st0.first
    requires st0.errors + ErrorsBefore(w, answers, from, run, |run| - 1) <= 500
    ensures from <= TRIES && Run(w, crc, answers, from, st0) == (Success, sec)
  {
    hide Flat, Carries, HeaderError, Harmless, Look, SectionLen, SentWhole, Run, ErrorsBefore, Step;
    var j := |run| - 1;
    ReachPacket(w, crc, answers, from, st0, run, slices, layouts, c, sec, j);
    PacketStep(w, crc, answers, from, st0, run, slices, layouts, c, sec, j);
    SentPart(w, sec, slices, j);
    SentBounds(w, sec, slices);
    RunPacket(w, crc, answers, run[j], StateBefore(w, answers, from, st0, run, slices, c, |sec| - 3, j),
              answers(run[j]).m);
  }

  /**
    Completeness: a section with a zero CRC, cut into slices of any sizes behind any adaptation
    fields, the first slice holding the header, delivered with consecutive counters among answers
    that are otherwise harmless, is returned byte for byte, if the last packet comes within the
    3000 tries and at most 500 errors were counted before it.
   */
  lemma {:induction false} Completeness(w: Want, crc: seq<byte> -> nat, answers: nat -> Answer, run: seq<nat>,
                                        slices: seq<seq<byte>>, layouts: seq<Layout>, c: nat, sec: seq<byte>)
    requires Delivered(w, answers, 0, run, slices, layouts, c) && SentWhole(w, sec, slices) && crc(sec) == 0
    requires ErrorsBefore(w, answers, 0, run, |run| - 1) <= 500
    ensures Run(w, crc, answers, 0, INIT) == (Success, sec)
  {
    hide Delivered, SentWhole, ErrorsBefore, Run;
    DeliveredPart(w, answers, 0, run, slices, layouts, c, 0);
    CompletenessFrom(w, crc, answers, 0, INIT, run, slices, layouts, c, sec);
  }

  /** A readable packet whose counter does not follow throws away what was collected, and counts as an error. */
  lemma {:induction false} GapRestarts(w: Want, crc: seq<byte> -> nat, answers: nat -> Answer, i: nat, st: State)
    requires i < TRIES && Sane(st) && !st.first && st.errors <= MAX_ERRORS
    requires HasPayload(w, answers(i)) && Counter(answers(i).m) != (st.cc + 1) % 16
    ensures Sane(State(true, st.cc, st.len, [], st.errors + 1))
    ensures Run(w, crc, answers, i, st) == Run(w, crc, answers, i + 1, State(true, st.cc, st.len, [], st.errors + 1))
  {
    hide Look, Readable, Counter, PayloadAt, StartSet, Run;
    LookIsByBytes(answers(i).m, w.pid, false);
    RunPacket(w, crc, answers, i, st, answers(i).m);
  }

  /**
    Completeness after a gap: whatever the filter had collected, a section that is delivered properly
    behind a packet out of sequence is returned byte for byte.
   */
  lemma {:induction false} SectionAfterGap(w: Want, crc: seq<byte> -> nat, answers: nat -> Answer, i: nat, st: State,
                                           run: seq<nat>, slices: seq<seq<byte>>, layouts: seq<Layout>, c: nat,
                                           sec: seq<byte>)
    requires i < TRIES && Sane(st) && !st.first
    requires HasPayload(w, answers(i)) && Counter(answers(i).m) != (st.cc + 1) % 16
    requires Delivered(w, answers, i + 1, run, slices, layouts, c) && SentWhole(w, sec, slices) && crc(sec) == 0
    requires st.errors + 1 + ErrorsBefore(w, answers, i + 1, run, |run| - 1) <= 500
    ensures Run(w, crc, answers, i, st) == (Success, sec)
  {
    hide HasPayload, Counter, Run, Delivered, SentWhole, ErrorsBefore;
    DeliveredPart(w, answers, i + 1, run, slices, layouts, c, 0);
    GapRestarts(w, crc, answers, i, st);
    CompletenessFrom(w, crc, answers, i + 1, State(true, st.cc, st.len, [], st.errors + 1),
                     run, slices, layouts, c, sec);
  }

  // ---------------------------------------------------------------- the header in the first packet

  /**
    The header checks read seven bytes from the start of the section on, whether or not the first
    packet holds them. So the start of a wanted section is accepted whatever lies behind the packet
    exactly when the first slice has at least seven bytes.
   */
  lemma {:induction false} HeaderMustFit(w: Want, sec: seq<byte>, pid: nat, cc: nat, l: Layout, slice: seq<byte>)
    requires Wanted(w, sec) && pid == w.pid < 0x2000 && cc < 16 && |l.field| <= 182 && |l.skipped| < PACKET
    requires slice != [] && |Made(pid, true, cc, l, slice)| == PACKET
    requires forall i :: 0 <= i < |slice| && i < |sec| ==> slice[i] == sec[i]
    ensures (forall m: Memory :: m[..PACKET] == Made(pid, true, cc, l, slice) ==> !HeaderError(w, m, PACKET - |slice|))
            <==> |slice| >= 7
  {
    var p, at := Made(pid, true, cc, l, slice), PACKET - |slice|;
    if |slice| >= 7 {
      forall m: Memory | m[..PACKET] == p ensures !HeaderError(w, m, at) {
        assert Carries(Packet(m), w.pid, true, cc, l, slice);
        FirstAccepted(w, Packet(m), cc, l, slice, sec);
      }
    } else {
      var other: byte := if w.sectionNo == 0 then 1 else 0;
      var m: Memory := p + seq(BEHIND, _ => other);
      assert m[..PACKET] == p;
      assert m[at + 6] == other;
      assert HeaderError(w, m, at);
    }
  }

  lemma {:induction false} GatherStarts(w: Want, answers: nat -> Answer, run: seq<nat>)
    requires run != []
    ensures Slice(w, answers(run[0])) <= Gather(w, answers, run)
  {
    hide Slice;
    if |run| > 1 {
      GatherStarts(w, answers, run[..|run| - 1]);
    } else {
      assert run[..0] == [];
    }
  }

  /** If the first packet held the header, the section returned is the one asked for, by its own bytes. */
  lemma {:induction false} SentIsWanted(w: Want, crc: seq<byte> -> nat, answers: nat -> Answer, data: seq<byte>,
                                        run: seq<nat>, hi: nat, len: nat)
    requires Sent(w, crc, answers, data, run, hi, len)
    requires |Slice(w, answers(run[0]))| >= 7 && |data| >= 7
    ensures Wanted(w, data)
  {
    hide CountsUp, Increasing, Gather, PayloadAt;
    GatherStarts(w, answers, run);
    var a := answers(run[0]);
    var at := PayloadAt(a.m);
    var slice := Slice(w, a);
    forall i | 0 <= i < 7 ensures data[i] == a.m[at + i] {
      assert data[i] == slice[i];
    }
  }

  // ---------------------------------------------------------------- short sections

  const PLAIN: Layout := Layout(false, [], [])

  function Stuffed(sec: seq<byte>): seq<byte>
    requires |sec| <= 183
  {
    sec + seq(183 - |sec|, _ => 0xFF)
  }

  /** So a section of up to 183 bytes is returned at the first try when one packet carries it, stuffing behind it. */
  lemma {:induction false} OnePacketIsEnough(w: Want, crc: seq<byte> -> nat, answers: nat -> Answer, c: nat,
                                             sec: seq<byte>)
    requires Wanted(w, sec) && |sec| <= 183 && crc(sec) == 0 && w.pid < 0x2000 && c < 16
    requires answers(0).Packet? && answers(0).m[..PACKET] == Made(w.pid, true, c, PLAIN, Stuffed(sec))
    ensures Run(w, crc, answers, 0, INIT) == (Success, sec)
  {
    hide Look, HeaderError, Wanted, Run, Made;
    var slice := Stuffed(sec);
    WantedSize(w, sec);
    assert Carries(answers(0), w.pid, true, c, PLAIN, slice);
    var slices: seq<seq<byte>> := [slice];
    assert slices[..0] == [];
    assert Flat(slices) == [] + slice;
    assert SentWhole(w, sec, slices);
    assert (c + 0) % 16 == c;
    assert Delivered(w, answers, 0, [0], slices, [PLAIN], c);
    Completeness(w, crc, answers, [0], slices, [PLAIN], c, sec);
  }

  lemma WantedSize(w: Want, sec: seq<byte>)
    requires Wanted(w, sec)
    ensures 7 <= |sec| <= MAX_SI_SECTION_LEN
  {
  }
}
