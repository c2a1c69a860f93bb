/**
  The list of PIDs seen on a channel, read from the 8192-bit map of the scanner
  (TSP_GetAllPIDInChannel), and the search in such a list (TSP_IsPIDExist).

  The list is a buffer of 8191 PIDs followed by their number, so the cell after the last PID
  entry is the number itself.
 */
module PidMap {

  const WORDS: nat := 256
  const PIDS: nat := 8192
  /** Cell of the buffer that holds the number of PIDs. */
  const COUNT: nat := 8191
  const NULL_PID: nat := 0x1FFF

  predicate Bit(w: bv32, j: nat)
    requires j < 32
  {
    w & (1 << j) != 0
  }

  predicate Seen(words: seq<bv32>, p: nat)
    requires |words| == WORDS && p < PIDS
  {
    Bit(words[p / 32], p % 32)
  }

  /** The seen PIDs below n, in increasing order. */
  function SeenBelow(words: seq<bv32>, n: nat): seq<nat>
    requires |words| == WORDS && n <= PIDS
  {
    if n == 0 then [] else SeenBelow(words, n - 1) + (if Seen(words, n - 1) then [n - 1] else [])
  }

  predicate AllSeen(words: seq<bv32>)
    requires |words| == WORDS
  {
    forall p: nat :: p < PIDS ==> Seen(words, p)
  }

  /** What a reader of the buffer finds: the seen PIDs, except that the number overwrites entry 8191. */
  function ListRead(words: seq<bv32>): seq<nat>
    requires |words| == WORDS
  {
    if AllSeen(words) then SeenBelow(words, COUNT) + [PIDS] else SeenBelow(words, PIDS)
  }

  lemma {:induction false} SeenBelowProps(words: seq<bv32>, n: nat)
    requires |words| == WORDS && n <= PIDS
    ensures |SeenBelow(words, n)| <= n
    ensures forall i, j :: 0 <= i < j < |SeenBelow(words, n)| ==> SeenBelow(words, n)[i] < SeenBelow(words, n)[j]
    ensures forall p: nat :: p in SeenBelow(words, n) <==> p < n && Seen(words, p)
    decreases n
  {
    hide Seen;
    if n > 0 {
      SeenBelowProps(words, n - 1);
      var before := SeenBelow(words, n - 1);
      forall i | 0 <= i < |before| ensures before[i] < n - 1 {
        assert before[i] in before;
      }
    }
  }

  /** As many PIDs as bits only when every bit is set. */
  lemma {:induction false} FullOnlyIfAllSeen(words: seq<bv32>, n: nat)
    requires |words| == WORDS && n <= PIDS
    ensures |SeenBelow(words, n)| == n <==> forall p: nat :: p < n ==> Seen(words, p)
    decreases n
  {
    hide Seen;
    if n > 0 {
      FullOnlyIfAllSeen(words, n - 1);
      SeenBelowProps(words, n - 1);
    }
  }

  /**
    The buffer is read back as the strictly increasing list of all set bits exactly when some bit
    is clear. With every bit set, the last entry reads 8192.
   */
  lemma {:induction false} ListIsExact(words: seq<bv32>)
    requires |words| == WORDS
    ensures ListRead(words) == SeenBelow(words, PIDS) <==> exists p: nat :: p < PIDS && !Seen(words, p)
    ensures forall i, j :: 0 <= i < j < |ListRead(words)| ==> ListRead(words)[i] < ListRead(words)[j]
    ensures forall p: nat :: p < COUNT ==> (p in ListRead(words) <==> Seen(words, p))
    ensures forall p :: p in ListRead(words) ==> p <= PIDS
  {
    hide Seen, SeenBelow;
    SeenBelowProps(words, PIDS);
    SeenBelowProps(words, COUNT);
    var r := ListRead(words);
    if AllSeen(words) {
      assert r[|r| - 1] == PIDS && PIDS in r;
      assert PIDS !in SeenBelow(words, PIDS);
      var before := SeenBelow(words, COUNT);
      forall i | 0 <= i < |before| ensures before[i] < COUNT {
        assert before[i] in before;
      }
    }
  }

  /** Bits 32 i .. 32 i + j - 1 of the map come from word i. */
  lemma {:induction false} EmptyWord(words: seq<bv32>, i: nat, j: nat)
    requires |words| == WORDS && i < WORDS && j <= 32 && words[i] == 0
    ensures SeenBelow(words, i * 32 + j) == SeenBelow(words, i * 32)
    decreases j
  {
    if j > 0 {
      EmptyWord(words, i, j - 1);
      assert (i * 32 + j - 1) / 32 == i;
      ZeroHasNoBits((i * 32 + j - 1) % 32);
    }
  }

  lemma {:induction false} SkipWord(words: seq<bv32>, info: seq<nat>, i: nat)
    requires |words| == WORDS && i < WORDS && words[i] == 0 && Filled(words, info, i * 32)
    ensures Filled(words, info, i * 32 + 32)
  {
    EmptyWord(words, i, 32);
  }

  lemma ZeroHasNoBits(j: nat)
    requires j < 32
    ensures !Bit(0, j)
  {
  }

  /** Reads the map word by word, skipping empty words, and appends each set bit to the buffer. */
  method GetAllPids(words: seq<bv32>, info: array<nat>)
    requires |words| == WORDS && info.Length == PIDS
    modifies info
    ensures info[COUNT] <= PIDS && info[..info[COUNT]] == ListRead(words)
  {
    hide Filled, SeenBelow, Seen, Bit, ListRead;
    info[COUNT] := 0;
    NoneYet(words, info[..]);
    var i := 0;
    while i < WORDS
      invariant 0 <= i <= WORDS
      invariant Filled(words, info[..], i * 32)
    {
      if words[i] == 0 {
        SkipWord(words, info[..], i);
      } else {
        var j := 0;
        while j < 32
          invariant 0 <= j <= 32
          invariant Filled(words, info[..], i * 32 + j)
        {
          StoreBit(words, i, j, info);
          j := j + 1;
        }
      }
      i := i + 1;
    }
    ReadBack(words, info[..]);
  }

  /** One round of the inner loop. */
  method StoreBit(words: seq<bv32>, i: nat, j: nat, info: array<nat>)
    requires |words| == WORDS && i < WORDS && j < 32 && info.Length == PIDS
    requires Filled(words, info[..], i * 32 + j)
    modifies info
    ensures Filled(words, info[..], i * 32 + j + 1)
  {
    hide Filled, SeenBelow;
    ghost var p, before := i * 32 + j, info[..];
    assert p / 32 == i && p % 32 == j;
    Room(words, before, p);
    if words[i] & (1 << j) != 0 {
      info[info[COUNT]] := i * 32 + j;
      info[COUNT] := info[COUNT] + 1;
    }
    StoreOne(words, before, info[..], p);
  }

  lemma NoneYet(words: seq<bv32>, info: seq<nat>)
    requires |words| == WORDS && |info| == PIDS && info[COUNT] == 0
    ensures Filled(words, info, 0)
  {
  }

  /** The buffer after the first n bits. */
  ghost predicate Filled(words: seq<bv32>, info: seq<nat>, n: nat)
    requires |words| == WORDS && n <= PIDS
  {
    && |info| == PIDS
    && var list := SeenBelow(words, n);
    && info[COUNT] == |list|
    && forall k :: 0 <= k < |list| && k < COUNT ==> info[k] == list[k]
  }

  lemma Room(words: seq<bv32>, info: seq<nat>, p: nat)
    requires |words| == WORDS && p < PIDS && Filled(words, info, p)
    ensures |info| == PIDS && info[COUNT] <= p
  {
    SeenBelowProps(words, p);
  }

  lemma {:induction false} StoreOne(words: seq<bv32>, before: seq<nat>, after: seq<nat>, p: nat)
    requires |words| == WORDS && p < PIDS && Filled(words, before, p) && before[COUNT] <= p
    requires after == if !Seen(words, p) then before
                      else var stored := before[before[COUNT] := p]; stored[COUNT := stored[COUNT] + 1]
    ensures Filled(words, after, p + 1)
  {
    hide Seen;
    SeenBelowProps(words, p);
  }

  lemma {:induction false} ReadBack(words: seq<bv32>, info: seq<nat>)
    requires |words| == WORDS && Filled(words, info, PIDS)
    ensures info[COUNT] <= PIDS && info[..info[COUNT]] == ListRead(words)
  {
    hide Seen;
    SeenBelowProps(words, PIDS);
    FullOnlyIfAllSeen(words, PIDS);
    if AllSeen(words) {
      FullOnlyIfAllSeen(words, COUNT);
      assert info[COUNT] == PIDS;
      assert SeenBelow(words, PIDS) == SeenBelow(words, COUNT) + [COUNT];
    }
  }

  /** Linear search. */
  method IsPidExist(pid: nat, list: seq<nat>) returns (found: bool)
    ensures found <==> pid in list
  {
    var i := 0;
    while i < |list|
      invariant 0 <= i <= |list| && pid !in list[..i]
    {
      if list[i] == pid {
        return true;
      }
      i := i + 1;
    }
    return false;
  }
}
