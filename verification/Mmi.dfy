/**
  Menus and lists of a conditional access module (the menu and list branches of MMI_Data), after
  section 8.6.5 of EN 50221. The objects in the data are walked twice: once to size a message, once
  to fill it. Memory is read as it lies, also behind the data when a length field says so.
 */
module Mmi {
  import opened Bytes

  const TEXT_LAST: nat := 0x9F8803

  datatype Kind = Menu | List

  function KindByte(kind: Kind): byte { if kind == Menu then 2 else 3 }

  // ---------------------------------------------------------------- the objects in the data

  type Memory = nat -> byte

  function At(m: Memory, i: nat): (r: nat)
    ensures r < 256
  {
    m(i)
  }

  /** CI_DecodeLengthField: how many bytes the length field takes, and the length. */
  function FieldSize(m: Memory, at: nat): (r: nat)
    ensures 1 <= r <= 128
  {
    if At(m, at) < 128 then 1 else At(m, at) % 128 + 1
  }

  function FieldValue(m: Memory, at: nat): (r: nat)
    ensures r < 0x10000
  {
    if At(m, at) < 128 then At(m, at)
    else if At(m, at) == 0x81 then At(m, at + 1)
    else At(m, at + 1) * 256 + At(m, at + 2)
  }

  /** An object: its tag, the size of its length field, and where its contents are. */
  datatype Item = Item(tag: nat, field: nat, start: nat, len: nat)

  function ItemAt(m: Memory, at: nat): Item {
    var field := FieldSize(m, at + 3);
    Item(At(m, at) * 0x10000 + At(m, at + 1) * 0x100 + At(m, at + 2), field, at + 3 + field, FieldValue(m, at + 3))
  }

  /**
    A length field as section 7 of EN 50221 lays it out: below 128 the length itself, otherwise the
    number of length bytes that follow, the highest first.
   */
  ghost predicate LengthLies(m: Memory, at: nat, len: nat, field: nat) {
    || (field == 1 && len < 128 && m(at) == len)
    || (field == 2 && len < 256 && m(at) == 0x81 && m(at + 1) == len)
    || (field == 3 && len < 0x1_0000 && m(at) == 0x82 && m(at + 1) == len / 256 && m(at + 2) == len % 256)
  }

  /** An object laid out that way is read as it is. */
  lemma ItemOfObject(m: Memory, at: nat, tag: nat, len: nat, field: nat)
    requires tag < 0x100_0000 && LengthLies(m, at + 3, len, field)
    requires m(at) == tag / 0x1_0000 && m(at + 1) == tag / 0x100 % 256 && m(at + 2) == tag % 256
    ensures ItemAt(m, at) == Item(tag, field, at + 3 + field, len)
  {
    assert tag == tag / 0x1_0000 * 0x1_0000 + tag / 0x100 % 256 * 0x100 + tag % 256;
  }

  /** The objects from `at` on, as far as they begin before `end`. */
  function Items(m: Memory, at: nat, end: nat): seq<Item>
    decreases end - at
  {
    if at >= end then [] else var x := ItemAt(m, at); [x] + Items(m, x.start + x.len, end)
  }

  function Contents(m: Memory, x: Item): (r: seq<byte>)
    ensures |r| == x.len
  {
    seq(x.len, i requires 0 <= i < x.len => m(x.start + i))
  }

  // ---------------------------------------------------------------- texts

  predicate Control(b: byte) { b == 0x86 || b == 0x87 || b == 0x8E || b == 0x93 || b == 0x96 || b == 0x97 }

  /** The bytes that are not control codes. */
  function Printable(s: seq<byte>): (r: seq<byte>)
    ensures |r| <= |s|
  {
    if s == [] then [] else Printable(s[..|s| - 1]) + (if Control(s[|s| - 1]) then [] else [s[|s| - 1]])
  }

  /** The texts among the objects, without control codes. */
  function Texts(m: Memory, items: seq<Item>): seq<seq<byte>> {
    if items == [] then []
    else (if items[0].tag == TEXT_LAST then [Printable(Contents(m, items[0]))] else []) + Texts(m, items[1..])
  }

  /** The texts one after the other, each with a zero behind it. */
  function Body(texts: seq<seq<byte>>): seq<byte> {
    if texts == [] then [] else texts[0] + [0] + Body(texts[1..])
  }

  /** The space that the first pass adds up. */
  function Reserved(kind: Kind, items: seq<Item>): nat {
    if items == [] then 0
    else (if items[0].tag == TEXT_LAST then items[0].len + (if kind == Menu then items[0].field else 1) else 0)
         + Reserved(kind, items[1..])
  }

  /** The texts fit into the space reserved for them. */
  lemma {:induction false} BodyFits(kind: Kind, m: Memory, at: nat, end: nat)
    ensures |Body(Texts(m, Items(m, at, end)))| <= Reserved(kind, Items(m, at, end))
    decreases end - at
  {
    hide Texts, Body, Reserved, Printable, Contents, ItemAt;
    if at >= end {
      NoItems(kind, m);
    } else {
      var x := ItemAt(m, at);
      var rest := Items(m, x.start + x.len, end);
      FieldIsThere(m, at);
      BodyFits(kind, m, x.start + x.len, end);
      TextsStep(m, x, rest);
    }
  }

  lemma NoItems(kind: Kind, m: Memory)
    ensures Texts(m, []) == [] && Body([]) == [] && Reserved(kind, []) == 0
  {
  }

  lemma FieldIsThere(m: Memory, at: nat)
    ensures var x := ItemAt(m, at); x.field >= 1 && x.start + x.len > at
  {
  }

  lemma {:induction false} TextsStep(m: Memory, x: Item, rest: seq<Item>)
    ensures Texts(m, [x] + rest) == (if x.tag == TEXT_LAST then [Printable(Contents(m, x))] else []) + Texts(m, rest)
    ensures Body(Texts(m, [x] + rest))
         == (if x.tag == TEXT_LAST then Printable(Contents(m, x)) + [0] else []) + Body(Texts(m, rest))
    ensures forall kind :: Reserved(kind, [x] + rest)
              == (if x.tag == TEXT_LAST then x.len + (if kind == Menu then x.field else 1)
                  else 0) + Reserved(kind, rest)
  {
    assert ([x] + rest)[1..] == rest;
    if x.tag == TEXT_LAST {
      var t := Printable(Contents(m, x));
      assert ([t] + Texts(m, rest))[1..] == Texts(m, rest);
    } else {
      assert [] + Texts(m, rest) == Texts(m, rest);
    }
  }

  // ---------------------------------------------------------------- the message

  /** Where the objects begin: behind the tag, the length field, and the number of choices. */
  function FirstItem(m: Memory): nat { 3 + FieldSize(m, 3) + 1 }

  function Header(kind: Kind, m: Memory, slot: byte, session: u16, count: nat): (r: seq<byte>)
    ensures |r| == 6
  {
    [KindByte(kind), slot, session / 256, session % 256, count % 256, (At(m, FirstItem(m) - 1) + 3) % 256]
  }

  function Filling(n: nat): (r: seq<byte>)
    ensures |r| == n
  {
    seq(n, _ => 0xFF)
  }

  /** The message for the data: header, texts, a final zero, and what is left of the space reserved. */
  function Message(kind: Kind, m: Memory, end: nat, slot: byte, session: u16): seq<byte> {
    var items := Items(m, FirstItem(m), end);
    var texts := Texts(m, items);
    var used, space := |Body(texts)|, Reserved(kind, items);
    Header(kind, m, slot, session, |texts|) + Body(texts) + [0] + Filling(if used <= space then space - used else 0)
  }

  /** The first pass: how much space the texts need. */
  method MeasureItems(kind: Kind, m: Memory, end: nat) returns (n: nat)
    ensures n == Reserved(kind, Items(m, FirstItem(m), end))
  {
    hide Texts, Body, Reserved, Printable, Contents, ItemAt;
    n := 0;
    var at := FirstItem(m);
    NoItems(kind, m);
    while at < end
      invariant n + Reserved(kind, Items(m, at, end)) == Reserved(kind, Items(m, FirstItem(m), end))
      decreases end - at
    {
      var x := ItemAt(m, at);
      FieldIsThere(m, at);
      TextsStep(m, x, Items(m, x.start + x.len, end));
      if x.tag == TEXT_LAST {
        n := n + x.len + (if kind == Menu then x.field else 1);
      }
      at := x.start + x.len;
    }
  }

  /** Copies one text without its control codes, and a zero behind it. */
  method FillText(m: Memory, x: Item, msg: array<byte>, pos: nat) returns (next: nat)
    requires pos + x.len + 1 <= msg.Length
    modifies msg
    ensures next == pos + |Printable(Contents(m, x))| + 1 <= msg.Length
    ensures msg[..next] == old(msg[..pos]) + Printable(Contents(m, x)) + [0]
    ensures forall i :: next <= i < msg.Length ==> msg[i] == old(msg[i])
  {
    var text := Contents(m, x);
    next := pos;
    var k := 0;
    while k < x.len
      invariant 0 <= k <= x.len && next == pos + |Printable(text[..k])| <= pos + k
      invariant msg[..next] == old(msg[..pos]) + Printable(text[..k])
      invariant forall i :: next <= i < msg.Length ==> msg[i] == old(msg[i])
    {
      assert text[..k + 1][..k] == text[..k];
      if !Control(m(x.start + k)) {
        msg[next] := m(x.start + k);
        assert msg[..next + 1] == msg[..next] + [msg[next]];
        next := next + 1;
      }
      k := k + 1;
    }
    assert text[..x.len] == text;
    msg[next] := 0;
    assert msg[..next + 1] == msg[..next] + [0];
    next := next + 1;
  }

  /** The second pass: fills in the texts behind the header. */
  method FillItems(kind: Kind, m: Memory, end: nat, msg: array<byte>) returns (pos: nat, count: nat)
    requires msg.Length == Reserved(kind, Items(m, FirstItem(m), end)) + 7
    requires forall i :: 6 <= i < msg.Length ==> msg[i] == 0xFF
    modifies msg
    ensures var texts := Texts(m, Items(m, FirstItem(m), end));
            && count == |texts| && pos == 6 + |Body(texts)| < msg.Length
            && msg[..pos] == old(msg[..6]) + Body(texts)
    ensures forall i :: pos <= i < msg.Length ==> msg[i] == 0xFF
  {
    hide Texts, Body, Reserved, Printable, Contents, ItemAt;
    ghost var items := Items(m, FirstItem(m), end);
    ghost var head, all := msg[..6], Body(Texts(m, items));
    ghost var done: seq<byte> := [];
    pos, count := 6, 0;
    var at := FirstItem(m);
    NoItems(kind, m);
    assert [] + all == all && msg[..6] == head + [];
    while at < end
      invariant 6 <= pos && pos + Reserved(kind, Items(m, at, end)) <= msg.Length - 1
      invariant count + |Texts(m, Items(m, at, end))| == |Texts(m, items)|
      invariant pos == 6 + |done| && done + Body(Texts(m, Items(m, at, end))) == all
      invariant msg[..pos] == head + done
      invariant forall i :: pos <= i < msg.Length ==> msg[i] == 0xFF
      decreases end - at
    {
      var x := ItemAt(m, at);
      FieldIsThere(m, at);
      TextsStep(m, x, Items(m, x.start + x.len, end));
      if x.tag == TEXT_LAST {
        pos := FillText(m, x, msg, pos);
        Regroup(head, done, Printable(Contents(m, x)), Body(Texts(m, Items(m, x.start + x.len, end))));
        done := done + (Printable(Contents(m, x)) + [0]);
        count := count + 1;
      }
      at := x.start + x.len;
    }
    NoItems(kind, m);
    assert done + [] == done;
  }

  lemma Regroup(head: seq<byte>, done: seq<byte>, text: seq<byte>, rest: seq<byte>)
    ensures head + done + text + [0] == head + (done + (text + [0]))
    ensures done + ((text + [0]) + rest) == (done + (text + [0])) + rest
  {
  }

  /**
    Both passes. The fill position never leaves the buffer, and the result is the message that the
    objects stand for.
   */
  method Convert(kind: Kind, m: Memory, end: nat, slot: byte, session: u16) returns (msg: array<byte>)
    ensures fresh(msg) && msg[..] == Message(kind, m, end, slot, session)
    // kind, slot, session with the high byte first, number of texts, and number of choices with three more
    ensures msg.Length >= 7 && msg[0] == (if kind == Menu then 2 else 3) && msg[1] == slot
    ensures msg[2] == session / 256 && msg[3] == session % 256
    ensures msg[4] == |Texts(m, Items(m, FirstItem(m), end))| % 256
    ensures msg[5] == (m(if m(3) < 128 then 4 else 4 + m(3) % 128) + 3) % 256
  {
    hide Texts, Body, Reserved, Items, Header, Filling;
    var n := MeasureItems(kind, m, end);
    msg := new byte[n + 7](_ => 0xFF);
    var head := Header(kind, m, slot, session, 0);
    CopyInto(msg, 0, head);
    assert forall i :: 6 <= i < msg.Length ==> msg[i] == msg[6..][i - 6];
    assert msg[..6] == head;
    var pos, count := FillItems(kind, m, end, msg);
    ghost var filled := msg[..pos];
    HeaderCount(kind, m, slot, session, count);
    msg[4] := count % 256;
    msg[pos] := 0;
    assert msg[..pos] == filled[4 := count % 256];
    MessageDone(kind, m, end, slot, session, msg[..], count, pos);
    HeaderBytes(kind, m, slot, session, count);
    assert msg[..pos] == Header(kind, m, slot, session, count) + Body(Texts(m, Items(m, FirstItem(m), end)));
    assert forall i :: 0 <= i < 6 ==> msg[i] == msg[..pos][i] == Header(kind, m, slot, session, count)[i];
  }

  lemma HeaderBytes(kind: Kind, m: Memory, slot: byte, session: u16, count: nat)
    ensures var h := Header(kind, m, slot, session, count);
            && h[0] == (if kind == Menu then 2 else 3) && h[1] == slot
            && h[2] == session / 256 && h[3] == session % 256
            && h[4] == count % 256 && h[5] == (m(if m(3) < 128 then 4 else 4 + m(3) % 128) + 3) % 256
  {
  }

  lemma HeaderCount(kind: Kind, m: Memory, slot: byte, session: u16, count: nat)
    ensures Header(kind, m, slot, session, count) == Header(kind, m, slot, session, 0)[4 := count % 256]
    ensures forall rest ::
              (Header(kind, m, slot, session, 0) + rest)[4 := count % 256]
              == Header(kind, m, slot, session, count) + rest
  {
  }

  lemma {:induction false} MessageDone(kind: Kind, m: Memory, end: nat, slot: byte, session: u16, msg: seq<byte>,
                                       count: nat, pos: nat)
    requires var items := Items(m, FirstItem(m), end);
             var texts := Texts(m, items);
             && count == |texts| && pos == 6 + |Body(texts)| < |msg| == Reserved(kind, items) + 7
             && msg[..pos] == Header(kind, m, slot, session, count) + Body(texts)
             && msg[pos] == 0
             && (forall i :: pos + 1 <= i < |msg| ==> msg[i] == 0xFF)
    ensures msg == Message(kind, m, end, slot, session)
  {
    hide Texts, Body, Reserved, Header, Items;
    var items := Items(m, FirstItem(m), end);
    var rest := Filling(Reserved(kind, items) - |Body(Texts(m, items))|);
    assert msg[pos + 1..] == rest;
    assert msg == msg[..pos] + [0] + msg[pos + 1..];
  }

  // ---------------------------------------------------------------- reading the message back

  /** The first n strings that end in a zero. */
  function Strings(s: seq<byte>, n: nat): seq<seq<byte>> {
    if n == 0 then [] else var k := Length(s); [s[..k]] + (if k < |s| then Strings(s[k + 1..], n - 1) else [])
  }

  /** The number of bytes before the first zero. */
  function Length(s: seq<byte>): (k: nat)
    ensures k <= |s|
  {
    if s == [] || s[0] == 0 then 0 else 1 + Length(s[1..])
  }

  lemma {:induction false} LengthOf(t: seq<byte>, rest: seq<byte>)
    requires 0 !in t
    ensures Length(t + [0] + rest) == |t|
  {
    if t == [] {
      assert ([] + [0] + rest)[0] == 0;
    } else {
      LengthOf(t[1..], rest);
      assert (t + [0] + rest)[1..] == t[1..] + [0] + rest;
      assert (t + [0] + rest)[0] == t[0];
    }
  }

  /** Whoever reads the message as strings gets the texts, provided that none contains a zero. */
  lemma {:induction false} StringsOfBody(texts: seq<seq<byte>>, rest: seq<byte>)
    requires forall i :: 0 <= i < |texts| ==> 0 !in texts[i]
    ensures Strings(Body(texts) + rest, |texts|) == texts
  {
    if texts != [] {
      var t, more := texts[0], Body(texts[1..]) + rest;
      StringsOfBody(texts[1..], rest);
      assert Body(texts) + rest == t + [0] + more;
      LengthOf(t, more);
      assert (t + [0] + more)[..|t|] == t && (t + [0] + more)[|t| + 1..] == more;
      assert texts == [t] + texts[1..];
    }
  }

  /** Removing control codes is a filter: it keeps the other bytes, in order. */
  lemma {:induction false} PrintableJoins(a: seq<byte>, b: seq<byte>)
    ensures Printable(a + b) == Printable(a) + Printable(b)
    decreases |b|
  {
    if b == [] {
      assert a + b == a;
    } else {
      PrintableJoins(a, b[..|b| - 1]);
      assert (a + b)[..|a + b| - 1] == a + b[..|b| - 1];
    }
  }

  lemma {:induction false} PrintableFilters(s: seq<byte>)
    ensures forall x :: x in Printable(s) <==> x in s && !Control(x)
    ensures Printable(s) == s <==> forall x :: x in s ==> !Control(x)
  {
    if s != [] {
      var init, last := s[..|s| - 1], s[|s| - 1];
      PrintableFilters(init);
      assert s == init + [last];
    }
  }

  const CODES: seq<byte> := [0x86, 0x87, 0x8E, 0x93, 0x96, 0x97]

  lemma ControlCodes(x: byte)
    ensures Control(x) <==> x in CODES
  {
  }

  /** Exactly the six codes disappear. */
  lemma {:induction false} PrintableKeeps(s: seq<byte>)
    ensures forall x :: x in Printable(s) <==> x in s && x !in CODES
    ensures Printable(s) == s <==> forall x :: x in s ==> x !in CODES
  {
    hide Control, Printable;
    PrintableFilters(s);
    forall x: byte ensures Control(x) <==> x in CODES {
      ControlCodes(x);
    }
  }
}
