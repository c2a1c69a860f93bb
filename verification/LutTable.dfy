/**
  Sorting the entries and writing them to the hardware as packed words, one table of 2048 cells for
  each channel.
 */
module LutTable {
  import opened TsPool
  import opened Lut

  // ---------------------------------------------------------------- packed words

  function Key(e: Entry): nat { (e.stream % 1024) * 8192 + e.pid % 8192 }

  /** Bit 23 marks the cell as used. */
  function Word(e: Entry): nat { 0x80_0000 + Key(e) }

  predicate InRange(e: Entry) { e.stream < 1024 && e.pid < 8192 }

  predicate Before(a: Entry, b: Entry) { a.stream < b.stream || (a.stream == b.stream && a.pid < b.pid) }

  lemma WordParts(e: Entry)
    requires InRange(e)
    ensures Word(e) == (0x400 + e.stream) * 0x2000 + e.pid
    ensures Word(e) / 0x2000 == 0x400 + e.stream && Word(e) % 0x2000 == e.pid
  {
  }

  /** Packing is injective and keeps the order of stream and PID, and no packed word is zero. */
  lemma {:induction false} PackingKeepsOrder(a: Entry, b: Entry)
    requires InRange(a) && InRange(b)
    ensures Word(a) < Word(b) <==> Before(a, b)
    ensures Word(a) == Word(b) <==> a == b
    ensures 0 < Word(a) < 0x100_0000
  {
    hide Word;
    WordParts(a);
    WordParts(b);
  }

  // ---------------------------------------------------------------- sorting

  ghost predicate Sorted(s: seq<Entry>) { forall i, j :: 0 <= i < j < |s| ==> Key(s[i]) <= Key(s[j]) }

  ghost predicate Bounded(s: seq<Entry>, t: seq<Entry>) { forall x, y :: x in s && y in t ==> Key(x) <= Key(y) }

  lemma {:induction false} SwapIsPermutation(s: seq<Entry>, j: nat)
    requires j + 1 < |s|
    ensures multiset(s[j := s[j + 1]][j + 1 := s[j]]) == multiset(s)
  {
    var t := s[j := s[j + 1]][j + 1 := s[j]];
    var front, back := s[..j], s[j + 2..];
    assert s == front + ([s[j], s[j + 1]] + back);
    assert t == front + ([s[j + 1], s[j]] + back);
    SwappedPair(s[j], s[j + 1]);
    Joined(front, [s[j], s[j + 1]], back);
    Joined(front, [s[j + 1], s[j]], back);
  }

  lemma SwappedPair(a: Entry, b: Entry)
    ensures multiset([a, b]) == multiset([b, a])
  {
  }

  lemma Joined(a: seq<Entry>, b: seq<Entry>, c: seq<Entry>)
    ensures multiset(a + (b + c)) == multiset(a) + (multiset(b) + multiset(c))
  {
  }

  lemma SameMembers(s: seq<Entry>, t: seq<Entry>)
    requires multiset(s) == multiset(t)
    ensures forall x :: x in s <==> x in t
  {
    forall x ensures x in s <==> x in t {
      assert x in s <==> x in multiset(s);
      assert x in t <==> x in multiset(t);
    }
  }

  /** t is s with its first n entries rearranged so that the largest of them is last. */
  ghost predicate Passed(s: seq<Entry>, t: seq<Entry>, n: nat) {
    && 0 < n <= |s| == |t|
    && multiset(t[..n]) == multiset(s[..n]) && t[n..] == s[n..]
    && forall k :: 0 <= k < n ==> Key(t[k]) <= Key(t[n - 1])
  }

  ghost predicate Rearranged(s: seq<Entry>, t: seq<Entry>, n: nat) {
    n <= |s| == |t| && multiset(t[..n]) == multiset(s[..n]) && t[n..] == s[n..]
  }

  /** During a pass: entry j is the largest so far. */
  ghost predicate Passing(s: seq<Entry>, t: seq<Entry>, n: nat, j: nat) {
    Rearranged(s, t, n) && j < n && forall k :: 0 <= k <= j ==> Key(t[k]) <= Key(t[j])
  }

  function Swapped(t: seq<Entry>, j: nat): (r: seq<Entry>)
    requires j + 1 < |t|
    ensures |r| == |t|
  {
    t[j := t[j + 1]][j + 1 := t[j]]
  }

  lemma {:induction false} PassStep(s: seq<Entry>, t: seq<Entry>, n: nat, j: nat)
    requires Passing(s, t, n, j) && j + 1 < n
    ensures Passing(s, if Key(t[j]) > Key(t[j + 1]) then Swapped(t, j) else t, n, j + 1)
  {
    hide Key;
    SwapIsPermutation(t[..n], j);
    assert Swapped(t, j)[..n] == t[..n][j := t[j + 1]][j + 1 := t[j]];
    assert Swapped(t, j)[n..] == t[n..];
  }

  lemma PassStart(s: seq<Entry>, n: nat)
    requires 0 < n <= |s|
    ensures Passing(s, s, n, 0)
  {
  }

  lemma PassSize(s: seq<Entry>, t: seq<Entry>, n: nat, j: nat)
    requires Passing(s, t, n, j)
    ensures n <= |t| && (j == n - 1 ==> Passed(s, t, n))
  {
  }

  /** One pass over the first n entries. */
  method Pass(a: array<Entry>, n: nat)
    requires 0 < n <= a.Length
    modifies a
    ensures Passed(old(a[..]), a[..], n)
  {
    hide Key, Passing, Passed;
    ghost var start := a[..];
    PassStart(start, n);
    var j := 0;
    while j < n - 1
      invariant 0 <= j <= n - 1 && Passing(start, a[..], n, j)
    {
      ghost var before := a[..];
      PassStep(start, before, n, j);
      if Key(a[j]) > Key(a[j + 1]) {
        a[j], a[j + 1] := a[j + 1], a[j];
        assert a[..] == Swapped(before, j);
      }
      j := j + 1;
    }
    PassSize(start, a[..], n, j);
  }

  /** Entries m to n - 1 are sorted, and no smaller than the ones before them. */
  ghost predicate SortedFrom(s: seq<Entry>, m: nat, n: nat) {
    m <= n <= |s| && Sorted(s[m..n]) && Bounded(s[..m], s[m..n])
  }

  lemma {:induction false} PassDone(s: seq<Entry>, t: seq<Entry>, m: nat, n: nat)
    requires Passed(s, t, m) && SortedFrom(s, m, n)
    ensures SortedFrom(t, m - 1, n)
  {
    hide Key;
    SameMembers(t[..m], s[..m]);
    assert t[m..n] == t[m..][..n - m] && s[m..n] == s[m..][..n - m];
    var last := t[m - 1];
    assert t[m - 1..n] == [last] + t[m..n];
    assert t[..m] == t[..m - 1] + [last];
    assert last in t[..m];
    forall x, y | x in t[..m - 1] && y in t[m - 1..n] ensures Key(x) <= Key(y) {
      assert x in t[..m];
      if y in t[m..n] {
        assert x in s[..m] && y in s[m..n];
      }
    }
  }

  lemma {:induction false} PassKeeps(o: seq<Entry>, s: seq<Entry>, t: seq<Entry>, m: nat, n: nat)
    requires Passed(s, t, m) && m <= n && Rearranged(o, s, n)
    ensures Rearranged(o, t, n)
  {
    hide Key;
    Parted(s, m, n);
    Parted(t, m, n);
  }

  lemma Parted(s: seq<Entry>, m: nat, n: nat)
    requires m <= n <= |s|
    ensures s[m..n] == s[m..][..n - m] && s[n..] == s[m..][n - m..] && s[..n] == s[..m] + s[m..n]
  {
  }

  /** TSP_SortInputLUTEntry: sorts the first n entries by their packed words. */
  method Sort(a: array<Entry>, n: nat)
    requires n <= a.Length
    modifies a
    ensures Sorted(a[..n]) && Rearranged(old(a[..]), a[..], n)
  {
    hide Sorted, SortedFrom, Rearranged, Passed;
    ghost var start := a[..];
    NothingSorted(start, n);
    var i := 0;
    while i < n
      invariant 0 <= i <= n
      invariant SortedFrom(a[..], n - i, n) && Rearranged(start, a[..], n)
    {
      ghost var before := a[..];
      Pass(a, n - i);
      PassDone(before, a[..], n - i, n);
      PassKeeps(start, before, a[..], n - i, n);
      i := i + 1;
    }
    AllSorted(a[..], n);
    assert a[..][..n] == a[..n];
  }

  lemma NothingSorted(s: seq<Entry>, n: nat)
    requires n <= |s|
    ensures SortedFrom(s, n, n) && Rearranged(s, s, n)
  {
  }

  lemma AllSorted(s: seq<Entry>, n: nat)
    requires SortedFrom(s, 0, n)
    ensures n <= |s| && Sorted(s[..n])
  {
    assert s[0..n] == s[..n];
  }

  // ---------------------------------------------------------------- the table in the hardware

  function Address(lut: nat, i: nat): nat { lut * 4096 + i }

  /** Each table has 4096 addresses of its own, and each field of a word its own bits. */
  lemma {:induction false} WhereBitsGo(lut: nat, i: nat, e: Entry)
    requires i < 0x1000 && InRange(e)
    ensures Address(lut, i) / 0x1000 == lut && Address(lut, i) % 0x1000 == i
    ensures Word(e) / 0x80_0000 == 1 && Word(e) / 0x2000 % 0x400 == e.stream && Word(e) % 0x2000 == e.pid
  {
    WordParts(e);
  }

  /** The memory of the hardware behind its address and data registers. */
  class Hardware {
    var cells: map<nat, nat>

    /** LUT_WriteInputLUTEntry: the words of the list, then zeros up to the end of the table. */
    method Write(lut: nat, list: seq<Entry>)
      requires |list| <= MAX_ENTRIES
      modifies this
      ensures Holds(cells, lut, list) && OthersKept(old(cells), cells, lut)
    {
      hide Key;
      var i := 0;
      while i < |list|
        invariant 0 <= i <= |list| && OthersKept(old(cells), cells, lut)
        invariant forall j :: 0 <= j < i ==> Address(lut, j) in cells && cells[Address(lut, j)] == Word(list[j])
      {
        cells := cells[Address(lut, i) := Word(list[i])];
        i := i + 1;
      }
      while i < MAX_ENTRIES
        invariant |list| <= i <= MAX_ENTRIES && OthersKept(old(cells), cells, lut)
        invariant forall j :: 0 <= j < |list| ==> Address(lut, j) in cells && cells[Address(lut, j)] == Word(list[j])
        invariant forall j :: |list| <= j < i ==> Address(lut, j) in cells && cells[Address(lut, j)] == 0
      {
        cells := cells[Address(lut, i) := 0];
        i := i + 1;
      }
    }

    /** LUT_ClearInputLUT. */
    method Clear(lut: nat)
      modifies this
      ensures Holds(cells, lut, []) && OthersKept(old(cells), cells, lut)
    {
      var i := 0;
      while i < MAX_ENTRIES
        invariant 0 <= i <= MAX_ENTRIES && OthersKept(old(cells), cells, lut)
        invariant forall j :: 0 <= j < i ==> Address(lut, j) in cells && cells[Address(lut, j)] == 0
      {
        cells := cells[Address(lut, i) := 0];
        i := i + 1;
      }
    }
  }

  /** The table holds the words of the list in order, and zeros behind them. */
  ghost predicate Holds(cells: map<nat, nat>, lut: nat, list: seq<Entry>) {
    forall i :: 0 <= i < MAX_ENTRIES ==>
      Address(lut, i) in cells && cells[Address(lut, i)] == if i < |list| then Word(list[i]) else 0
  }

  /** Cells outside the table, those of other tables among them, are as they were. */
  ghost predicate OthersKept(c0: map<nat, nat>, c1: map<nat, nat>, lut: nat) {
    forall a :: !(Address(lut, 0) <= a < Address(lut, MAX_ENTRIES)) ==>
      (a in c1 <==> a in c0) && (a in c0 ==> c1[a] == c0[a])
  }

  /** The hardware finds the word of a stream and a PID in the table. */
  ghost predicate SentOn(cells: map<nat, nat>, lut: nat, e: Entry) {
    exists i :: 0 <= i < MAX_ENTRIES && Address(lut, i) in cells && cells[Address(lut, i)] == Word(e)
  }

  /** What that word is for a channel: the marker, the stream number 252 and up, and the PID. */
  lemma {:induction false} SentOnMeans(cells: map<nat, nat>, lut: nat, p: nat)
    requires lut < 4 && p < 0x2000
    ensures SentOn(cells, lut, Entry(StreamId(lut), p)) <==>
              exists a :: a in cells && a / 0x1000 == lut && a % 0x1000 < 2048
                          && cells[a] == 0x80_0000 + (252 + lut) * 0x2000 + p
  {
    hide Address;
    var e := Entry(StreamId(lut), p);
    assert Word(e) == 0x80_0000 + (252 + lut) * 0x2000 + p;
    if SentOn(cells, lut, e) {
      var i :| 0 <= i < MAX_ENTRIES && Address(lut, i) in cells && cells[Address(lut, i)] == Word(e);
      WhereBitsGo(lut, i, e);
    }
    if a :| a in cells && a / 0x1000 == lut && a % 0x1000 < 2048 && cells[a] == 0x80_0000 + (252 + lut) * 0x2000 + p {
      AddressOf(a);
      assert Address(lut, a % 0x1000) in cells;
    }
  }

  lemma AddressOf(a: nat)
    ensures Address(a / 0x1000, a % 0x1000) == a
  {
  }

  /** A word is in the table exactly when its entry is in the list. */
  lemma {:induction false} TableIsTheList(cells: map<nat, nat>, lut: nat, list: seq<Entry>, e: Entry)
    requires |list| <= MAX_ENTRIES && Holds(cells, lut, list)
    requires InRange(e) && forall x :: x in list ==> InRange(x)
    ensures SentOn(cells, lut, e) <==> e in list
  {
    hide Word, Address;
    if SentOn(cells, lut, e) {
      var i :| 0 <= i < MAX_ENTRIES && Address(lut, i) in cells && cells[Address(lut, i)] == Word(e);
      if i < |list| {
        assert list[i] in list;
        PackingKeepsOrder(list[i], e);
      } else {
        PackingKeepsOrder(e, e);
      }
    }
    if e in list {
      var i :| 0 <= i < |list| && list[i] == e;
      assert Address(lut, i) in cells && cells[Address(lut, i)] == Word(e);
    }
  }

  /** Distinct entries in range come out in strictly increasing order of stream and PID. */
  lemma {:induction false} SortedIsStrict(s: seq<Entry>)
    requires Sorted(s) && Distinct(s) && forall x :: x in s ==> InRange(x)
    ensures forall i, j :: 0 <= i < j < |s| ==> Before(s[i], s[j])
  {
    forall i, j | 0 <= i < j < |s| ensures Before(s[i], s[j]) {
      PackingKeepsOrder(s[i], s[j]);
    }
  }

  /**
    One round of LUT_SetInputLUT. Unless the stream is passed on as a whole, the table then sends
    on exactly the wanted PIDs of the channel, if there are at most 2048 different ones.
   */
  method SetTable(hw: Hardware, lut: nat, streams: seq<Stream>, progs: seq<Prog>, pids: seq<Pid>, bypassed: bool,
                  sent: nat -> bool)
    returns (code: Code, ghost k: nat)
    requires |streams| >= MAX_CHANNELS && forall i :: 0 <= i < |streams| ==> streams[i].index < |streams|
    modifies hw
    ensures OthersKept(old(hw.cells), hw.cells, lut)
    ensures code != Success || bypassed ==> Holds(hw.cells, lut, [])
    ensures code == Success <==>
              exists j: nat ::
                IsStream(streams, lut, j) && (bypassed || StreamEnds(progs, pids, streams[j].body, sent))
    ensures code == Success ==> IsStream(streams, lut, k)
    ensures code == Success && !bypassed ==>
              && Ends(progs, streams[k].body.progNum, streams[k].body.progHead)
              && Sends(hw.cells, lut, Wanted(progs, pids, streams[k].body, FirstMet(streams, progs, lut), sent))
  {
    hide Key, Wanted, Collect, Sorted, FirstMet, Ends, StreamEnds;
    hw.Clear(lut);
    var list := new EntryList();
    var n;
    code, n, k := GetEntries(list, streams, progs, pids, lut, bypassed, sent, 0);
    if code != Success {
      return;
    }
    ghost var collected := list.Contents();
    Sort(list.entries, n);
    ghost var c0 := hw.cells;
    hw.Write(lut, list.entries[..n]);
    if !bypassed {
      ghost var wanted := Wanted(progs, pids, streams[k].body, FirstMet(streams, progs, lut), sent);
      if |Elements(wanted)| <= MAX_ENTRIES && StreamId(lut) < 1024 && (forall p :: p in wanted ==> p < 8192) {
        forall p: nat | p < 8192 ensures SentOn(hw.cells, lut, Entry(StreamId(lut), p)) <==> p in wanted {
          WantedIsSent(hw.cells, lut, StreamId(lut), wanted, collected, list.entries[..n], p);
        }
      }
    }
  }

  /** The table sends on exactly the given PIDs, if they fit into it. */
  ghost predicate Sends(cells: map<nat, nat>, lut: nat, wanted: seq<nat>) {
    StreamId(lut) < 1024 && |Elements(wanted)| <= MAX_ENTRIES && (forall p :: p in wanted ==> p < 8192) ==>
      forall p: nat :: p < 8192 ==> (SentOn(cells, lut, Entry(StreamId(lut), p)) <==> p in wanted)
  }

  lemma {:induction false} WantedIsSent(cells: map<nat, nat>, lut: nat, stream: nat, wanted: seq<nat>,
                                        collected: seq<Entry>, list: seq<Entry>, p: nat)
    requires collected == Collect([], stream, wanted) && multiset(list) == multiset(collected) && |list| <= MAX_ENTRIES
    requires Holds(cells, lut, list) && |Elements(wanted)| <= MAX_ENTRIES && stream < 1024 && p < 8192
    requires forall q :: q in wanted ==> q < 8192
    ensures SentOn(cells, lut, Entry(stream, p)) <==> p in wanted
  {
    hide Collect, Holds, SentOn;
    CollectIsASet(stream, wanted);
    SameMembers(list, collected);
    TableIsTheList(cells, lut, list, Entry(stream, p));
  }
}
