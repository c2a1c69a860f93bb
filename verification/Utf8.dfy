/**
  UTF-8, after section 3 of RFC 3629: one code point (ucs4ToUtf8, utf8ToUnicodeChar) and strings
  (unicode32ToUtf8, utf8ToUnicode). Numbers have the widths they have in the program.
 */
module Utf8 {
  import Memory = Bytes

  // ---------------------------------------------------------------- one code point

  /** Bytes that a code point takes. */
  function Size(uc: bv32): nat { if uc < 0x80 then 1 else if uc < 0x800 then 2 else if uc < 0x10000 then 3 else 4 }

  function Byte(x: bv32): bv8 { (x & 0xFF) as bv8 }

  /** A continuation byte: the low six bits. */
  function Tail(x: bv32): bv8 { Byte(0x80 | (x & 0x3F)) }

  function Tail6(x: bv32): bv8 { Tail(x >> 6) }

  function Tail12(x: bv32): bv8 { Tail(x >> 12) }

  function Lead2(x: bv32): bv8 { Byte(0xC0 | (x >> 6)) }

  function Lead3(x: bv32): bv8 { Byte(0xE0 | (x >> 12)) }

  function Lead4(x: bv32): bv8 { Byte(0xF0 | (x >> 18)) }

  /** The encoding of the standard. */
  function Encoded(uc: bv32): (r: seq<bv8>)
    ensures |r| == Size(uc)
  {
    if uc < 0x80 then [Byte(uc)]
    else if uc < 0x800 then [Lead2(uc), Tail(uc)]
    else if uc < 0x10000 then [Lead3(uc), Tail6(uc), Tail(uc)]
    else [Lead4(uc), Tail12(uc), Tail6(uc), Tail(uc)]
  }

  /** How far a first byte says the character goes. */
  function Span(first: bv8): nat {
    if first >= 0xFC then 6 else if first >= 0xF8 then 5 else if first >= 0xF0 then 4
    else if first >= 0xE0 then 3 else if first >= 0xC0 then 2 else 1
  }

  function Six(b: bv8): bv32 { (b as bv32) & 0x3F }

  function Value1(a: bv8): bv32 { a as bv32 }

  function Value2(a: bv8, b: bv8): bv32 { (((a as bv32) & 0x1F) << 6) | Six(b) }

  function Value3(a: bv8, b: bv8, c: bv8): bv32 { (((a as bv32) & 0x0F) << 12) | (Six(b) << 6) | Six(c) }

  function Value4(a: bv8, b: bv8, c: bv8, d: bv8): bv32 {
    (((a as bv32) & 0x07) << 18) | (Six(b) << 12) | (Six(c) << 6) | Six(d)
  }

  function Value5(a: bv8, b: bv8, c: bv8, d: bv8, e: bv8): bv32 {
    (((a as bv32) & 0x03) << 24) | (Six(b) << 18) | (Six(c) << 12) | (Six(d) << 6) | Six(e)
  }

  function Value6(a: bv8, b: bv8, c: bv8, d: bv8, e: bv8, f: bv8): bv32 {
    (((a as bv32) & 0x01) << 30) | (Six(b) << 24) | (Six(c) << 18) | (Six(d) << 12) | (Six(e) << 6) | Six(f)
  }

  /** utf8ToUnicodeChar: the value read at a position of memory; Span gives the number of bytes. */
  function ValueAt(m: nat -> bv8, at: nat): bv32 {
    var n := Span(m(at));
    if n == 1 then Value1(m(at))
    else if n == 2 then Value2(m(at), m(at + 1))
    else if n == 3 then Value3(m(at), m(at + 1), m(at + 2))
    else if n == 4 then Value4(m(at), m(at + 1), m(at + 2), m(at + 3))
    else if n == 5 then Value5(m(at), m(at + 1), m(at + 2), m(at + 3), m(at + 4))
    else Value6(m(at), m(at + 1), m(at + 2), m(at + 3), m(at + 4), m(at + 5))
  }

  /** The encoding lies in memory at a position. */
  ghost predicate LiesAt(m: nat -> bv8, at: nat, bytes: seq<bv8>) {
    forall i: nat :: i < |bytes| ==> m(at + i) == bytes[i]
  }

  lemma {:induction false} One(uc: bv32)
    requires uc < 0x80
    ensures Span(Byte(uc)) == 1 && Value1(Byte(uc)) == uc && (Byte(uc) != 0 <==> uc != 0)
  {
  }

  lemma {:induction false} Two(uc: bv32)
    requires 0x80 <= uc < 0x800
    ensures Span(Lead2(uc)) == 2 && Value2(Lead2(uc), Tail(uc)) == uc && Lead2(uc) != 0
  {
  }

  lemma {:induction false} Three(uc: bv32)
    requires 0x800 <= uc < 0x10000
    ensures Span(Lead3(uc)) == 3 && Value3(Lead3(uc), Tail6(uc), Tail(uc)) == uc && Lead3(uc) != 0
  {
  }

  lemma {:induction false} Four(uc: bv32)
    requires 0x10000 <= uc < 0x110000
    ensures Span(Lead4(uc)) == 4 && Value4(Lead4(uc), Tail12(uc), Tail6(uc), Tail(uc)) == uc && Lead4(uc) != 0
  {
  }

  /** Decoding what was encoded gives the code point and the number of bytes, for every code point. */
  lemma {:induction false} DecodeOfEncoded(m: nat -> bv8, at: nat, uc: bv32)
    requires uc < 0x110000 && LiesAt(m, at, Encoded(uc))
    ensures Span(m(at)) == Size(uc) && ValueAt(m, at) == uc
    ensures m(at) != 0 <==> uc != 0
  {
    hide Byte, Tail, Tail6, Tail12, Lead2, Lead3, Lead4, Span, Value1, Value2, Value3, Value4, Value5, Value6;
    var e := Encoded(uc);
    assert m(at + 0) == e[0];
    if uc < 0x80 {
      One(uc);
    } else if uc < 0x800 {
      Two(uc);
      assert m(at + 1) == e[1];
    } else if uc < 0x10000 {
      Three(uc);
      assert m(at + 1) == e[1] && m(at + 2) == e[2];
    } else {
      Four(uc);
      assert m(at + 1) == e[1] && m(at + 2) == e[2] && m(at + 3) == e[3];
    }
  }

  /** ucs4ToUtf8: the bytes are written last to first, the marker bits travelling down with the shifts. */
  method UcsToUtf8(s: array<bv8>, code: bv32, n: int) returns (count: int)
    requires s.Length >= 4
    modifies s
    ensures code >= 0x110000 ==> count == -1
    ensures code < 0x110000 ==> count == if n < Size(code) then -2 else Size(code)
    ensures count < 0 ==> s[..] == old(s[..])
    ensures count >= 0 ==> s[..count] == Encoded(code) && s[count..] == old(s[count..])
    // the bytes themselves: a first byte that tells the length, and continuation bytes behind it
    ensures count == 1 ==> s[0] < 0x80
    ensures count == 2 ==> 0xC2 <= s[0] <= 0xDF
    ensures count == 3 ==> 0xE0 <= s[0] <= 0xEF
    ensures count == 4 ==> 0xF0 <= s[0] <= 0xF4
    ensures forall i :: 1 <= i < count ==> s[i] & 0xC0 == 0x80
  {
    if code < 0x80 {
      count := 1;
    } else if code < 0x800 {
      count := 2;
    } else if code < 0x10000 {
      count := 3;
    } else if code < 0x110000 {
      count := 4;
    } else {
      return -1;
    }
    if n < count {
      return -2;
    }
    hide Byte, Tail, Tail6, Tail12, Lead2, Lead3, Lead4, Down;
    var uc := code;
    if count >= 4 {
      s[3] := Tail(uc);
      uc := Down(uc, 0x10000);
    }
    if count >= 3 {
      s[2] := Tail(uc);
      uc := Down(uc, 0x800);
    }
    if count >= 2 {
      s[1] := Tail(uc);
      uc := Down(uc, 0xC0);
    }
    s[0] := Byte(uc);
    Markers(code);
    StandardBytes(code);
    assert forall i :: 0 <= i < count ==> s[i] == s[..count][i];
  }

  /** What the standard asks of the bytes, apart from the value they carry. */
  lemma {:induction false} StandardBytes(code: bv32)
    requires code < 0x110000
    ensures var e := Encoded(code);
            && (|e| == 1 ==> e[0] < 0x80) && (|e| == 2 ==> 0xC2 <= e[0] <= 0xDF)
            && (|e| == 3 ==> 0xE0 <= e[0] <= 0xEF) && (|e| == 4 ==> 0xF0 <= e[0] <= 0xF4)
            && (forall i :: 1 <= i < |e| ==> e[i] & 0xC0 == 0x80)
  {
    hide Byte, Tail, Tail6, Tail12, Lead2, Lead3, Lead4;
    if code < 0x80 {
      FirstOf1(code);
    } else if code < 0x800 {
      FirstOf2(code);
      TailMarked(code);
    } else if code < 0x10000 {
      FirstOf3(code);
      TailMarked(code);
      TailMarked(code >> 6);
      Tail6Is(code);
    } else {
      FirstOf4(code);
      TailMarked(code);
      TailMarked(code >> 6);
      TailMarked(code >> 12);
      Tail6Is(code);
    }
  }

  lemma Tail6Is(x: bv32)
    ensures Tail6(x) == Tail(x >> 6) && Tail12(x) == Tail(x >> 12)
  {
  }

  lemma TailMarked(x: bv32)
    ensures Tail(x) & 0xC0 == 0x80
  {
  }

  lemma FirstOf1(x: bv32)
    requires x < 0x80
    ensures Byte(x) < 0x80
  {
  }

  lemma FirstOf2(x: bv32)
    requires 0x80 <= x < 0x800
    ensures 0xC2 <= Lead2(x) <= 0xDF
  {
  }

  lemma FirstOf3(x: bv32)
    requires 0x800 <= x < 0x10000
    ensures 0xE0 <= Lead3(x) <= 0xEF
  {
  }

  lemma FirstOf4(x: bv32)
    requires 0x10000 <= x < 0x110000
    ensures 0xF0 <= Lead4(x) <= 0xF4
  {
  }

  /** The next six bits come down, and a marker is put above them. */
  function Down(x: bv32, marker: bv32): bv32 { (x >> 6) | marker }

  /** Where the marker bits end up. */
  lemma {:induction false} Markers(uc: bv32)
    requires uc < 0x110000
    ensures 0x80 <= uc < 0x800 ==> Byte(Down(uc, 0xC0)) == Lead2(uc)
    ensures 0x800 <= uc < 0x10000 ==>
              Tail(Down(uc, 0x800)) == Tail6(uc) && Byte(Down(Down(uc, 0x800), 0xC0)) == Lead3(uc)
    ensures 0x10000 <= uc ==>
              && Tail(Down(uc, 0x10000)) == Tail6(uc) && Tail(Down(Down(uc, 0x10000), 0x800)) == Tail12(uc)
              && Byte(Down(Down(Down(uc, 0x10000), 0x800), 0xC0)) == Lead4(uc)
  {
    hide Byte, Tail, Tail6, Tail12, Lead2, Lead3, Lead4, Down;
    if 0x80 <= uc < 0x800 {
      Markers2(uc);
    }
    if 0x800 <= uc < 0x10000 {
      Markers3(uc);
    }
    if 0x10000 <= uc {
      Markers4(uc);
    }
  }

  lemma {:induction false} Markers2(uc: bv32)
    requires uc < 0x800
    ensures Byte(Down(uc, 0xC0)) == Lead2(uc)
  {
  }

  lemma {:induction false} Markers3(uc: bv32)
    requires uc < 0x10000
    ensures Tail(Down(uc, 0x800)) == Tail6(uc) && Byte(Down(Down(uc, 0x800), 0xC0)) == Lead3(uc)
  {
  }

  lemma {:induction false} Markers4(uc: bv32)
    requires uc < 0x110000
    ensures Tail(Down(uc, 0x10000)) == Tail6(uc) && Tail(Down(Down(uc, 0x10000), 0x800)) == Tail12(uc)
    ensures Byte(Down(Down(Down(uc, 0x10000), 0x800), 0xC0)) == Lead4(uc)
  {
  }

  // ---------------------------------------------------------------- strings of code points

  /** The code units of a text: the low 16 bits of each number. */
  function Unit(text: nat -> bv32, i: nat): bv32 { text(i) & 0xFFFF }

  /** The encodings of the first k units, one after the other. */
  function Packed(text: nat -> bv32, k: nat): seq<bv8> {
    if k == 0 then [] else Packed(text, k - 1) + Encoded(Unit(text, k - 1))
  }

  lemma SmallUnit(text: nat -> bv32, i: nat)
    ensures Unit(text, i) < 0x10000 && 1 <= Size(Unit(text, i)) <= 3
  {
  }

  lemma {:induction false} PackedGrows(text: nat -> bv32, i: nat, k: nat)
    requires i <= k
    ensures Packed(text, i) <= Packed(text, k)
    decreases k
  {
    if i < k {
      PackedGrows(text, i, k - 1);
    }
  }

  /** A limit of -1 is none. */
  predicate Within(slen: int, k: nat) { slen == -1 || k <= slen }

  /** The first k units are not zero, and all that is within `slen` units and shorter than `size` bytes. */
  ghost predicate Fits(text: nat -> bv32, slen: int, size: nat, k: nat) {
    && (k == 0 || (Within(slen, k) && |Packed(text, k)| < size))
    && forall i: nat :: i < k ==> Unit(text, i) != 0
  }

  /** The unit behind the first k is to be written, but takes more bytes than `slen`. */
  predicate TooWide(text: nat -> bv32, slen: int, k: nat) {
    Within(slen, k + 1) && Unit(text, k) != 0 && Size(Unit(text, k)) > slen
  }

  /** Some character that would be written takes more bytes than `slen`. */
  ghost predicate Faults(text: nat -> bv32, slen: int, size: nat) {
    exists j: nat :: Fits(text, slen, size, j) && TooWide(text, slen, j)
  }

  /** The first k units have been written, and each had room. */
  ghost predicate WrittenSoFar(text: nat -> bv32, slen: int, size: nat, k: nat) {
    Fits(text, slen, size, k) && (k > 0 ==> k <= slen) && forall j: nat :: j < k ==> !TooWide(text, slen, j)
  }

  /** One more unit. */
  lemma {:induction false} UnitWritten(text: nat -> bv32, slen: int, size: nat, k: nat)
    requires WrittenSoFar(text, slen, size, k) && Unit(text, k) != 0 && k + 1 <= slen
    requires Size(Unit(text, k)) <= slen && |Packed(text, k)| + Size(Unit(text, k)) < size
    ensures WrittenSoFar(text, slen, size, k + 1) && |Packed(text, k + 1)| == |Packed(text, k)| + Size(Unit(text, k))
  {
    hide Unit, Size;
  }

  /** The end: no longer prefix fits, so no later character is looked at. */
  lemma {:induction false} NoMoreFits(text: nat -> bv32, slen: int, size: nat, k: nat)
    requires WrittenSoFar(text, slen, size, k)
    requires Unit(text, k) == 0 || !Within(slen, k + 1)
             || (Size(Unit(text, k)) <= slen && |Packed(text, k)| + Size(Unit(text, k)) >= size)
    ensures !Fits(text, slen, size, k + 1) && !Faults(text, slen, size)
  {
    hide Unit, Size;
    assert Packed(text, k + 1) == Packed(text, k) + Encoded(Unit(text, k));
    forall j: nat | j > k ensures !Fits(text, slen, size, j) {
      PackedGrows(text, k + 1, j);
    }
  }

  lemma FaultHere(text: nat -> bv32, slen: int, size: nat, k: nat)
    requires WrittenSoFar(text, slen, size, k) && Within(slen, k + 1)
    requires Unit(text, k) != 0 && Size(Unit(text, k)) > slen
    ensures Faults(text, slen, size) && -1 <= slen < 3
  {
    SmallUnit(text, k);
    hide Packed, Unit, Size;
    assert TooWide(text, slen, k);
  }

  lemma NothingWritten(text: nat -> bv32, slen: int, size: nat)
    ensures WrittenSoFar(text, slen, size, 0) && Packed(text, 0) == []
  {
  }

  /**
    unicode32ToUtf8 into a buffer of `size` bytes filled with zeros: writes the longest prefix of
    the text that fits, cut between characters, and leaves a zero behind it. The number of units is
    also given to ucs4ToUtf8, as the room for one character. When a character takes more, its error
    code becomes the length of a copy: a fault, after which nothing is promised. A limit of at least
    three excludes that.
   */
  method TextToUtf8(text: nat -> bv32, slen: int, buffer: array<bv8>, size: nat)
    returns (n: nat, fault: bool, ghost k: nat)
    requires 1 <= buffer.Length && size <= buffer.Length
    requires forall i :: 0 <= i < buffer.Length ==> buffer[i] == 0
    modifies buffer
    ensures fault <==> Faults(text, slen, size)
    ensures slen >= 3 || slen < -1 ==> !fault
    ensures !fault ==>
              && Fits(text, slen, size, k) && !Fits(text, slen, size, k + 1)
              && n == |Packed(text, k)| <= buffer.Length && buffer[..n] == Packed(text, k)
              && (forall i :: n <= i < buffer.Length ==> buffer[i] == 0)
              && (forall i :: 0 <= i < n ==> buffer[i] != 0)
  {
    hide Encoded, Unit, Packed, Size, WrittenSoFar, Faults;
    buffer[0] := 0;
    n, k, fault := 0, 0, false;
    NothingWritten(text, slen, size);
    var count, at := 0, 0;
    var unit := new bv8[8];
    while true
      invariant k == at == count && n == |Packed(text, k)| && WrittenSoFar(text, slen, size, k)
      invariant (k > 0 ==> k <= slen && n < size) && n <= buffer.Length && buffer[..n] == Packed(text, k)
      invariant forall i :: n <= i < buffer.Length ==> buffer[i] == 0
      invariant unit.Length == 8 && fresh(unit) && !fault
      decreases if slen < 0 then 0 else slen - count
    {
      var w := Unit(text, at);
      at := at + 1;
      if w == 0 {
        NoMoreFits(text, slen, size, k);
        break;
      }
      if slen != -1 {
        count := count + 1;
        if count > slen {
          NoMoreFits(text, slen, size, k);
          break;
        }
      }
      SmallUnit(text, k);
      var len := UcsToUtf8(unit, w, slen);
      if n + len >= size {
        NoMoreFits(text, slen, size, k);
        break;
      }
      if len < 0 {
        FaultHere(text, slen, size, k);
        return n, true, k;
      }
      UnitWritten(text, slen, size, k);
      ghost var before := buffer[..];
      Memory.CopyInto(buffer, n, unit[..len]);
      assert forall i :: n + len <= i < buffer.Length ==>
        buffer[i] == buffer[n + len..][i - (n + len)] == before[n + len..][i - (n + len)];
      PackedNext(text, k);
      n := n + len;
      k := k + 1;
    }
    WrittenFits(text, slen, size, k);
    NoZeroInside(text, k);
    assert forall i :: 0 <= i < n ==> buffer[i] == buffer[..n][i];
  }

  lemma {:induction false} NoZeroInside(text: nat -> bv32, k: nat)
    requires forall i: nat :: i < k ==> Unit(text, i) != 0
    ensures forall i :: 0 <= i < |Packed(text, k)| ==> Packed(text, k)[i] != 0
  {
    hide Unit, Encoded;
    if k > 0 {
      NoZeroInside(text, k - 1);
      SmallUnit(text, k - 1);
      NoZeroInOne(Unit(text, k - 1));
    }
  }

  lemma {:induction false} NoZeroInOne(uc: bv32)
    requires uc != 0 && uc < 0x110000
    ensures forall i :: 0 <= i < |Encoded(uc)| ==> Encoded(uc)[i] != 0
  {
    hide Byte, Tail, Tail6, Tail12, Lead2, Lead3, Lead4;
    StandardBytes(uc);
    if uc < 0x80 {
      One(uc);
    }
    forall i | 1 <= i < |Encoded(uc)| ensures Encoded(uc)[i] != 0 {
      MarkedIsNotZero(Encoded(uc)[i]);
    }
  }

  lemma MarkedIsNotZero(b: bv8)
    requires b & 0xC0 == 0x80
    ensures b != 0
  {
  }

  lemma PackedNext(text: nat -> bv32, k: nat)
    ensures Packed(text, k + 1) == Packed(text, k) + Encoded(Unit(text, k))
  {
  }

  lemma WrittenFits(text: nat -> bv32, slen: int, size: nat, k: nat)
    requires WrittenSoFar(text, slen, size, k)
    ensures Fits(text, slen, size, k)
  {
  }

  // ---------------------------------------------------------------- back to code units

  /** Where character i of the text in memory begins. */
  function Offset(m: nat -> bv8, i: nat): nat {
    if i == 0 then 0 else Offset(m, i - 1) + Span(m(Offset(m, i - 1)))
  }

  function UnitAt(m: nat -> bv8, i: nat): bv16 { (ValueAt(m, Offset(m, i)) & 0xFFFF) as bv16 }

  /** The text in memory has at least n characters. */
  ghost predicate HasChars(m: nat -> bv8, n: nat) { forall i: nat :: i < n ==> m(Offset(m, i)) != 0 }

  /**
    utf8ToUnicode: counts a character before it looks for room, so with room for `size` units it
    stores at most size - 1, and returns `size` when there were more; with no room at all, or a
    negative one, it returns 1 if there is any character.
   */
  method Utf8ToText(m: nat -> bv8, units: array<bv16>, size: int) returns (count: nat, ghost stored: nat)
    requires size <= units.Length
    modifies units
    ensures HasChars(m, count)
    ensures if count < size || m(0) == 0 then m(Offset(m, count)) == 0 && stored == count
            else count == (if size <= 0 then 1 else size) && stored == count - 1
    ensures stored < size || stored == 0
    ensures forall i :: 0 <= i < stored ==> units[i] == UnitAt(m, i)
    ensures stored > 0 ==> units[stored] == 0
  {
    hide ValueAt, Span;
    count, stored := 0, 0;
    var at := 0;
    while m(at) != 0
      invariant at == Offset(m, count) && stored == count && HasChars(m, count)
      invariant count < size || count == 0
      invariant forall i :: 0 <= i < stored ==> units[i] == UnitAt(m, i)
      invariant stored > 0 ==> units[stored] == 0
      decreases size - count
    {
      count := count + 1;
      if count >= size {
        return;
      }
      units[count - 1] := (ValueAt(m, at) & 0xFFFF) as bv16;
      units[count] := 0;
      at := at + Span(m(at));
      stored := stored + 1;
    }
  }

  // ---------------------------------------------------------------- round trip

  lemma {:induction false} CharOfText(m: nat -> bv8, text: nat -> bv32, k: nat, j: nat)
    requires LiesAt(m, 0, Packed(text, k)) && j < k
    requires Unit(text, j) != 0 && Offset(m, j) == |Packed(text, j)|
    ensures Offset(m, j + 1) == |Packed(text, j + 1)|
    ensures m(Offset(m, j)) != 0 && UnitAt(m, j) as bv32 == Unit(text, j)
  {
    hide Encoded, ValueAt, Span;
    PackedGrows(text, j + 1, k);
    var u := Unit(text, j);
    forall i: nat | i < |Encoded(u)| ensures m(Offset(m, j) + i) == Encoded(u)[i] {
      assert Packed(text, k)[|Packed(text, j)| + i] == Packed(text, j + 1)[|Packed(text, j)| + i];
      assert m(0 + (|Packed(text, j)| + i)) == Packed(text, k)[|Packed(text, j)| + i];
    }
    UnitIs16(text, j);
    DecodeOfEncoded(m, Offset(m, j), u);
    Low16(u);
  }

  lemma UnitIs16(text: nat -> bv32, i: nat)
    ensures Unit(text, i) < 0x10000
  {
  }

  lemma Low16(u: bv32)
    requires u < 0x10000
    ensures ((u & 0xFFFF) as bv16) as bv32 == u
  {
  }

  lemma {:induction false} CharsOfText(m: nat -> bv8, text: nat -> bv32, k: nat, j: nat)
    requires LiesAt(m, 0, Packed(text, k)) && j <= k && forall i: nat :: i < k ==> Unit(text, i) != 0
    ensures Offset(m, j) == |Packed(text, j)| && HasChars(m, j)
    ensures forall i: nat :: i < j ==> UnitAt(m, i) as bv32 == Unit(text, i)
    decreases j
  {
    hide UnitAt, Unit, LiesAt, Span, Encoded;
    if j > 0 {
      CharsOfText(m, text, k, j - 1);
      CharOfText(m, text, k, j - 1);
    }
  }

  /**
    A text converted to UTF-8 and back is its longest prefix that fits, cut only between
    characters. With room for `room` units, at most room - 1 of them are stored, and the number
    returned is that of the prefix, or `room` when the prefix does not fit.
   */
  method RoundTrip(text: nat -> bv32, slen: int, buffer: array<bv8>, size: nat, units: array<bv16>, room: int)
    returns (n: nat, fault: bool, count: nat, ghost k: nat, ghost stored: nat)
    requires 1 <= buffer.Length && size <= buffer.Length && room <= units.Length
    requires forall i :: 0 <= i < buffer.Length ==> buffer[i] == 0
    modifies buffer, units
    ensures fault <==> Faults(text, slen, size)
    ensures !fault ==>
              && Fits(text, slen, size, k) && !Fits(text, slen, size, k + 1) && n == |Packed(text, k)|
              && (if k < room || k == 0 then count == k && stored == k
                  else count == (if room <= 0 then 1 else room) && stored == count - 1)
              && LowUnits(text, units[..], stored)
  {
    hide LowUnits;
    hide UnitAt, Unit, Packed, Span, TooWide;
    count, stored := 0, 0;
    n, fault, k := TextToUtf8(text, slen, buffer, size);
    if fault {
      return;
    }
    var s := buffer[..];
    var m := (i: nat) => if i < |s| then s[i] else 0;
    LiesInBuffer(s, m, n, Packed(text, k));
    CharsOfText(m, text, k, k);
    assert m(Offset(m, k)) == 0;
    count, stored := Utf8ToText(m, units, room);
    FewerChars(m, k, count);
    assert forall i :: 0 <= i < stored ==> units[i] as bv32 == Unit(text, i);
    SameUnits(text, units[..], stored);
  }

  lemma {:induction false} SameUnits(text: nat -> bv32, units: seq<bv16>, n: nat)
    requires n <= |units| && forall i :: 0 <= i < n ==> units[i] as bv32 == Unit(text, i)
    ensures LowUnits(text, units, n)
  {
    hide Unit;
    forall i | 0 <= i < n ensures units[i] == (text(i) & 0xFFFF) as bv16 {
      SameUnit(text, i, units[i]);
    }
  }

  /** The units are the low 16 bits of the numbers. */
  ghost predicate LowUnits(text: nat -> bv32, units: seq<bv16>, n: nat) {
    n <= |units| && forall i :: 0 <= i < n ==> units[i] == (text(i) & 0xFFFF) as bv16
  }

  lemma SameUnit(text: nat -> bv32, i: nat, u: bv16)
    ensures u as bv32 == Unit(text, i) <==> u == (text(i) & 0xFFFF) as bv16
  {
  }

  lemma LiesInBuffer(s: seq<bv8>, m: nat -> bv8, n: nat, bytes: seq<bv8>)
    requires n <= |s| && s[..n] == bytes && (forall i: nat :: m(i) == if i < |s| then s[i] else 0)
    requires forall i :: n <= i < |s| ==> s[i] == 0
    ensures LiesAt(m, 0, bytes) && m(n) == 0
  {
    forall i: nat | i < |bytes| ensures m(0 + i) == bytes[i] {
      assert s[..n][i] == s[i];
    }
  }

  lemma FewerChars(m: nat -> bv8, k: nat, n: nat)
    requires m(Offset(m, k)) == 0
    ensures HasChars(m, n) ==> n <= k
  {
  }
}
