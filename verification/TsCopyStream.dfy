/**
  Copy of a whole scanned stream into the live pools (TSP_CopyInputTS).
 */
module TsCopyStream {
  import opened TsPool
  import opened TsTree
  import opened TsAlloc
  import opened TsCopy
  import opened TsCopyProg

  // ---------------------------------------------------------------- the programs

  /** The program slots of list hold the programs copied so far, linked in order; no other slot changed. */
  ghost predicate ProgSiblings(g0: seq<Prog>, g1: seq<Prog>, list: seq<nat>, ss: seq<ProgShape>) {
    && |ss| <= |list| && |g1| == |g0|
    && (forall j :: 0 <= j < |ss| ==> ss[j].slot == list[j] && list[j] < |g1|
                                      && g1[list[j]].valid && g1[list[j]].next == Follower(list, j))
    && (forall k :: 0 <= k < |g0| && k !in Elements(list) ==> g1[k] == g0[k])
  }

  ghost predicate ProgTrees(g1: seq<Prog>, p1: seq<Pid>, ss: seq<ProgShape>, trees: seq<ProgTree>, ts: nat) {
    |ss| <= |trees| && forall j :: 0 <= j < |ss| ==> ProgAt(g1, p1, ss[j], trees[j], ts, true)
  }

  /** Some ECM head below the programs does not lead to its ECMs. */
  ghost predicate AnyProgLost(p1: seq<Pid>, ss: seq<ProgShape>) {
    ss != [] && (AnyProgLost(p1, ss[..|ss| - 1]) || LostInProg(p1, ss[|ss| - 1]))
  }

  lemma {:induction false} AnyProgLostStable(p1: seq<Pid>, p2: seq<Pid>, ss: seq<ProgShape>)
    requires Keeps(p1, p2, UsedByProgs(ss))
    ensures AnyProgLost(p1, ss) <==> AnyProgLost(p2, ss)
  {
    hide AnyLost, SlotsOf;
    if ss != [] {
      var s := ss[|ss| - 1];
      AnyProgLostStable(p1, p2, ss[..|ss| - 1]);
      AnyLostStable(p1, p2, s.pcr);
      AnyLostStable(p1, p2, s.es);
      AnyLostStable(p1, p2, s.ps);
    }
  }

  lemma AnyProgLostSnoc(p1: seq<Pid>, ss: seq<ProgShape>, s: ProgShape)
    ensures AnyProgLost(p1, ss + [s]) <==> AnyProgLost(p1, ss) || LostInProg(p1, s)
  {
    hide LostInProg;
    assert (ss + [s])[..|ss|] == ss;
  }

  /** Programs with such a head are not in place. */
  lemma {:induction false} LostIsNoProgram(progs: seq<Prog>, pids: seq<Pid>, ss: seq<ProgShape>, trees: seq<ProgTree>,
                                           ts: nat)
    requires |ss| == |trees| && forall j :: 0 <= j < |ss| ==> ProgAt(progs, pids, ss[j], trees[j], ts, true)
    ensures !AnyProgLost(pids, ss)
  {
    hide PidAt, Linked, AnyLost;
    if ss != [] {
      var s, t := ss[|ss| - 1], trees[|ss| - 1];
      LostIsNoProgram(progs, pids, ss[..|ss| - 1], trees[..|ss| - 1], ts);
      LostIsNotInPlace(pids, s.pcr, t.pcr, ts, s.slot, true);
      LostIsNotInPlace(pids, s.es, t.es, ts, s.slot, true);
      LostIsNotInPlace(pids, s.ps, t.ps, ts, s.slot, true);
    }
  }

  /** Loop invariant of the program loop. */
  ghost predicate ProgsState(g0: seq<Prog>, g1: seq<Prog>, p0: seq<Pid>, p1: seq<Pid>, list: seq<nat>,
                             ss: seq<ProgShape>, stale: bool, trees: seq<ProgTree>, ts: nat)
  {
    && |trees| == |list| && ProgSiblings(g0, g1, list, ss)
    && NewlyTaken(p0, p1, UsedByProgs(ss)) && ApartProgs(ss)
    && (!stale ==> ProgTrees(g1, p1, ss, trees, ts))
    && (stale <==> AnyProgLost(p1, ss))
    && (stale ==> |p1| > |p0| && |Free(p0)| < ProgsSize(trees[..|ss|]))
    && |UsedByProgs(ss)| <= ProgsSize(trees[..|ss|])
    && (|p1| > |p0| ==> |Free(p0)| <= ProgsSize(trees[..|ss|]))
  }

  lemma ProgsStart(g0: seq<Prog>, p0: seq<Pid>, list: seq<nat>, trees: seq<ProgTree>, ts: nat)
    requires |trees| == |list|
    ensures ProgsState(g0, g0, p0, p0, list, [], false, trees, ts)
  {
  }

  lemma ProgSiblingsStep(g0: seq<Prog>, g1: seq<Prog>, g2: seq<Prog>, list: seq<nat>, ss: seq<ProgShape>, s: ProgShape,
                         q: Prog)
    requires NoDup(list) && |ss| < |list| && list[|ss|] < |g0| && ProgSiblings(g0, g1, list, ss)
    requires s.slot == list[|ss|] && q.valid && g2 == g1[s.slot := q.(next := Follower(list, |ss|))]
    ensures ProgSiblings(g0, g2, list, ss + [s])
    ensures forall j :: 0 <= j < |ss| ==> ss[j].slot < |g1| && g2[ss[j].slot] == g1[ss[j].slot]
    ensures |g2| == |g1| == |g0|
  {
    assert s.slot in Elements(list);
    forall j | 0 <= j < |ss| ensures list[j] != s.slot { }
  }

  lemma ProgTreesStep(g1: seq<Prog>, g2: seq<Prog>, p1: seq<Pid>, p2: seq<Pid>, ss: seq<ProgShape>,
                      s: ProgShape, q: seq<Prog>, trees: seq<ProgTree>, ts: nat)
    requires |ss| < |trees| && |g2| == |g1| == |q|
    requires forall j :: 0 <= j < |ss| ==> ss[j].slot < |g1| && g2[ss[j].slot] == g1[ss[j].slot]
    requires s.slot < |q| && g2[s.slot].(next := 0) == q[s.slot].(next := 0)
    requires ProgTrees(g1, p1, ss, trees, ts) && ProgAt(q, p2, s, trees[|ss|], ts, true)
    requires Keeps(p1, p2, UsedByProgs(ss))
    ensures ProgTrees(g2, p2, ss + [s], trees, ts)
  {
    hide ProgTrees, ProgAt, UsedByProg, UsedByProgs, Keeps;
    ProgAtRelinked(q, g2, p2, s, trees[|ss|], ts);
    OlderProgsKept(g1, g2, p1, p2, ss, trees, ts);
    ProgTreesSnoc(g2, p2, ss, s, trees, ts);
  }

  lemma OlderProgsKept(g1: seq<Prog>, g2: seq<Prog>, p1: seq<Pid>, p2: seq<Pid>, ss: seq<ProgShape>,
                       trees: seq<ProgTree>, ts: nat)
    requires ProgTrees(g1, p1, ss, trees, ts) && Keeps(p1, p2, UsedByProgs(ss)) && |g1| == |g2|
    requires forall j :: 0 <= j < |ss| ==> ss[j].slot < |g1| && g2[ss[j].slot] == g1[ss[j].slot]
    ensures ProgTrees(g2, p2, ss, trees, ts)
  {
    hide ProgAt, UsedByProg, UsedByProgs, Keeps;
    forall j | 0 <= j < |ss| ensures ProgAt(g2, p2, ss[j], trees[j], ts, true) {
      OlderProgKept(g1, g2, p1, p2, ss, trees, ts, j);
    }
  }

  lemma ProgTreesSnoc(g2: seq<Prog>, p2: seq<Pid>, ss: seq<ProgShape>, s: ProgShape, trees: seq<ProgTree>, ts: nat)
    requires ProgTrees(g2, p2, ss, trees, ts) && |ss| < |trees| && ProgAt(g2, p2, s, trees[|ss|], ts, true)
    ensures ProgTrees(g2, p2, ss + [s], trees, ts)
  {
    hide ProgAt;
  }

  lemma OlderProgKept(g1: seq<Prog>, g2: seq<Prog>, p1: seq<Pid>, p2: seq<Pid>, ss: seq<ProgShape>,
                      trees: seq<ProgTree>, ts: nat, j: nat)
    requires ProgTrees(g1, p1, ss, trees, ts) && Keeps(p1, p2, UsedByProgs(ss)) && j < |ss|
    requires ss[j].slot < |g1| == |g2| && g2[ss[j].slot] == g1[ss[j].slot]
    ensures ProgAt(g2, p2, ss[j], trees[j], ts, true)
  {
    hide ProgAt, UsedByProg;
    UsedByProgsHas(ss, j);
    KeepsLess(p1, p2, UsedByProgs(ss), UsedByProg(ss[j]));
    ProgAtStable(g1, g2, p1, p2, ss[j], trees[j], ts, true);
  }

  lemma ProgAtRelinked(g1: seq<Prog>, g2: seq<Prog>, p: seq<Pid>, s: ProgShape, t: ProgTree, ts: nat)
    requires ProgAt(g1, p, s, t, ts, true)
    requires s.slot < |g2| && g2[s.slot].(next := 0) == g1[s.slot].(next := 0)
    ensures ProgAt(g2, p, s, t, ts, true)
  {
    hide PidAt, PidsAt;
  }

  lemma ProgsRound(g0: seq<Prog>, g1: seq<Prog>, q: seq<Prog>, g2: seq<Prog>, p0: seq<Pid>, p1: seq<Pid>, p2: seq<Pid>,
                   list: seq<nat>, ss: seq<ProgShape>, stale: bool, s: ProgShape, lost: bool,
                   tprogs: seq<Prog>, temp: seq<Pid>, src: nat, trees: seq<ProgTree>, ts: nat)
    requires NoDup(list) && |ss| < |list| && list[|ss|] < |g0| == |g1|
    requires ProgsState(g0, g1, p0, p1, list, ss, stale, trees, ts)
    requires trees[|ss|] == ReadProg(tprogs, temp, src)
    requires |q| == |g1| && q[list[|ss|]].valid
    requires ProgCopied(q, p1, p2, s, lost, list[|ss|], tprogs, temp, src, ts)
    requires g2 == g1[list[|ss|] := q[list[|ss|]].(next := Follower(list, |ss|))]
    ensures ProgsState(g0, g2, p0, p2, list, ss + [s], stale || lost, trees, ts)
  {
    hide ProgAt, NewlyTaken, ReadProg, UsedByProg, UsedByProgs, ApartProg, ApartProgs, ProgSize, ProgsSize,
      ProgSiblings, ProgTrees, Keeps, AnyProgLost, LostInProg, Outline;
    ProgsSnoc(ss, s, trees);
    TakenTwice(p0, p1, p2, UsedByProgs(ss), UsedByProg(s));
    TakenGrows(p0, p1, UsedByProgs(ss));
    TakenGrows(p1, p2, UsedByProg(s));
    ProgSiblingsStep(g0, g1, g2, list, ss, s, q[list[|ss|]]);
    AnyProgLostStable(p1, p2, ss);
    AnyProgLostSnoc(p2, ss, s);
    if !stale && !lost {
      ProgTreesStep(g1, g2, p1, p2, ss, s, q, trees, ts);
    }
    if |p1| == |p0| {
      FreeAfterTaken(p0, p1, UsedByProgs(ss));
    }
  }

  lemma ProgsSnoc(ss: seq<ProgShape>, s: ProgShape, trees: seq<ProgTree>)
    requires |ss| < |trees|
    ensures UsedByProgs(ss + [s]) == UsedByProgs(ss) + UsedByProg(s)
    ensures |UsedByProgs(ss + [s])| <= |UsedByProgs(ss)| + |UsedByProg(s)|
    ensures ApartProgs(ss + [s]) <==> ApartProgs(ss) && ApartProg(s) && UsedByProgs(ss) !! UsedByProg(s)
    ensures ProgsSize(trees[..|ss + [s]|]) == ProgsSize(trees[..|ss|]) + ProgSize(trees[|ss|])
  {
    assert (ss + [s])[..|ss|] == ss;
    assert trees[..|ss| + 1][..|ss|] == trees[..|ss|];
  }

  lemma TakenGrows(p0: seq<Pid>, p1: seq<Pid>, used: set<nat>)
    requires NewlyTaken(p0, p1, used)
    ensures |p0| <= |p1|
  {
  }

  lemma FreeAfterTaken(p0: seq<Pid>, p1: seq<Pid>, used: set<nat>)
    requires NewlyTaken(p0, p1, used) && |p1| == |p0|
    ensures |Free(p0)| <= |Free(p1)| + |used|
  {
    FreeAfterTaking(p0, p1, used);
  }

  // ---------------------------------------------------------------- EMMs and other PIDs

  lemma {:induction false} SlotsWithoutEcms(ss: seq<PidShape>, siblings: set<nat>)
    requires forall j :: 0 <= j < |ss| ==> ss[j].slot in siblings && ss[j].ecms == []
    ensures SlotsOf(ss) <= siblings
  {
    if ss != [] {
      SlotsWithoutEcms(ss[..|ss| - 1], siblings);
    }
  }

  ghost predicate AllFree(p: seq<Pid>, list: seq<nat>) {
    forall i :: 0 <= i < |list| ==> list[i] < |p| && !p[list[i]].valid
  }

  lemma NoEsNoEcms(temp: seq<Pid>, path: seq<nat>, ss: seq<PidShape>)
    requires NoEs(temp, path) && SameSizes(ss, temp, path)
    ensures forall j :: 0 <= j < |ss| ==> ss[j].ecms == []
  {
    forall j | 0 <= j < |ss| ensures ss[j].ecms == [] {
      assert ReadPid(temp, path[j]).ecms == [];
    }
  }

  /** A chain without elementary streams, copied into free slots. */
  lemma FreeChainTaken(p0: seq<Pid>, p1: seq<Pid>, list: seq<nat>, ss: seq<PidShape>, lost: bool,
                       temp: seq<Pid>, head: nat, ts: nat, prog: nat)
    requires ChainCopied(p0, p1, list, ss, lost, temp, head, ts, prog)
    requires AllFree(p0, list) && NoEs(temp, Path(temp, head, |list|))
    ensures NewlyTaken(p0, p1, SlotsOf(ss)) && Apart(ss) && !lost && |p1| == |p0| && |ss| == |list|
    ensures SlotsOf(ss) <= Elements(list)
  {
    hide ChainTrees, PidAt, ReadPid, Growth;
    ChainDoesNotGrow(p0, p1, list, ss, lost, temp, Path(temp, head, |list|));
    NoEsNoEcms(temp, Path(temp, head, |list|), ss);
    forall j | 0 <= j < |ss| ensures ss[j].slot in Elements(list) {
      assert list[j] in list;
    }
    SlotsWithoutEcms(ss, Elements(list));
    assert forall e :: e in Elements(list) ==> e < |p0| && !p0[e].valid;
  }

  lemma ChainDoesNotGrow(p0: seq<Pid>, p1: seq<Pid>, list: seq<nat>, ss: seq<PidShape>, stale: bool,
                         temp: seq<Pid>, path: seq<nat>)
    requires Growth(p0, p1, list, ss, stale, temp, path) && NoEs(temp, path)
    ensures |p1| == |p0| && !stale
  {
  }

  lemma StillFree(p0: seq<Pid>, p1: seq<Pid>, list: seq<nat>, n: nat, used: set<nat>)
    requires NoDup(list) && n <= |list| && AllFree(p0, list) && Frame(p0, p1, used) && used <= Elements(list[..n])
    ensures AllFree(p1, list[n..])
  {
    SplitElements(list, n);
    forall i | 0 <= i < |list[n..]| ensures p1[list[n..][i]] == p0[list[n..][i]] {
      assert list[n..][i] in Elements(list[n..]);
    }
  }

  /** What the loops over EMMs and other PIDs have done. */
  ghost predicate TailsCopied(p0: seq<Pid>, p1: seq<Pid>, emm: seq<PidShape>, other: seq<PidShape>,
                              temp: seq<Pid>, t: StreamRec, linked: StreamRec, ts: nat)
  {
    && NewlyTaken(p0, p1, SlotsOf(emm) + SlotsOf(other)) && Apart(emm) && Apart(other) && SlotsOf(emm) !! SlotsOf(other)
    && |emm| == t.emmNum && |other| == t.otherNum
    && linked == t.(emmHead := linked.emmHead, otherHead := linked.otherHead)
    && PidsAt(p1, linked.emmHead, emm, ReadPids(temp, t.emmHead, t.emmNum), ts, INDEX_INVALID, true)
    && PidsAt(p1, linked.otherHead, other, ReadPids(temp, t.otherHead, t.otherNum), ts, INDEX_INVALID, true)
  }

  lemma TailsDone(p0: seq<Pid>, g: seq<Pid>, p1: seq<Pid>, p2: seq<Pid>, list: seq<nat>, n: nat,
                  emm: seq<PidShape>, lostEmm: bool, other: seq<PidShape>, lostOther: bool,
                  temp: seq<Pid>, t: StreamRec, linked: StreamRec, ts: nat)
    requires Frame(p0, g, {}) && NoDup(list) && AllFree(g, list)
    requires n == t.emmNum && |list| == t.emmNum + t.otherNum
    requires NoEs(temp, Path(temp, t.emmHead, t.emmNum)) && NoEs(temp, Path(temp, t.otherHead, t.otherNum))
    requires ChainCopied(g, p1, list[..n], emm, lostEmm, temp, t.emmHead, ts, INDEX_INVALID)
    requires ChainCopied(p1, p2, list[n..], other, lostOther, temp, t.otherHead, ts, INDEX_INVALID)
    requires linked == t.(emmHead := if n > 0 then list[0] else t.emmHead,
                          otherHead := if n < |list| then list[n] else t.otherHead)
    ensures TailsCopied(p0, p2, emm, other, temp, t, linked, ts)
  {
    hide ChainCopied, NoEs, NewlyTaken, PidsAt, Apart, SlotsOf, AllFree, ReadPids, Path;
    AllFreePart(g, list, n);
    FreeChainTaken(g, p1, list[..n], emm, lostEmm, temp, t.emmHead, ts, INDEX_INVALID);
    TakenFrame(g, p1, SlotsOf(emm));
    StillFree(g, p1, list, n, SlotsOf(emm));
    FreeChainTaken(p1, p2, list[n..], other, lostOther, temp, t.otherHead, ts, INDEX_INVALID);
    TakenTwice(g, p1, p2, SlotsOf(emm), SlotsOf(other));
    TakenAfterGrowth(p0, g, p2, SlotsOf(emm) + SlotsOf(other));
    ChainInPlace(g, p1, list[..n], emm, temp, t.emmHead, ts, INDEX_INVALID, linked.emmHead);
    PidsAtStable(p1, p2, linked.emmHead, emm, ReadPids(temp, t.emmHead, t.emmNum), ts, INDEX_INVALID, true);
    ChainInPlace(p1, p2, list[n..], other, temp, t.otherHead, ts, INDEX_INVALID, linked.otherHead);
  }

  lemma AllFreePart(p: seq<Pid>, list: seq<nat>, n: nat)
    requires AllFree(p, list) && n <= |list|
    ensures AllFree(p, list[..n]) && AllFree(p, list[n..])
  {
  }

  lemma TakenFrame(p0: seq<Pid>, p1: seq<Pid>, used: set<nat>)
    requires NewlyTaken(p0, p1, used)
    ensures Frame(p0, p1, used)
  {
  }

  lemma TakenAfterGrowth(p0: seq<Pid>, g: seq<Pid>, p1: seq<Pid>, used: set<nat>)
    requires Frame(p0, g, {}) && NewlyTaken(g, p1, used)
    ensures NewlyTaken(p0, p1, used)
  {
  }

  /** A chain without elementary streams can be copied if it is there. */
  lemma {:induction false} NoEsOk(flags: seq<Cell>, temp: seq<Pid>, path: seq<nat>, realloc: nat -> Realloc)
    requires NoEs(temp, path)
    ensures ChainOk(flags, temp, path, realloc) <==> InRange(temp, path)
  {
    hide Granted, ChainAlloc;
    if path != [] {
      var init, k := path[..|path| - 1], path[|path| - 1];
      NoEsOk(flags, temp, init, realloc);
      assert InRange(temp, path) <==> InRange(temp, init) && k < |temp| by {
        assert path == init + [k];
      }
    }
  }

  /** Allocates and copies the EMMs and the other PIDs of a stream. */
  method CopyTails(live: TsInfo, ts: nat, temp: TsInfo, t: StreamRec)
    returns (code: Code, linked: StreamRec, ghost emm: seq<PidShape>, ghost other: seq<PidShape>)
    requires live != temp && live.Valid() && temp.Valid() && EcmsAreLeaves(temp.pids)
    requires NoEs(temp.pids, Path(temp.pids, t.emmHead, t.emmNum))
    requires NoEs(temp.pids, Path(temp.pids, t.otherHead, t.otherNum))
    modifies live`pids, live`pidBlock
    ensures live.Valid()
    ensures ts < |live.streams| ==>
              (code == Success <==> TailsOk(Flags(old(live.pids)), temp.pids, t, live.realloc))
    ensures code == Success ==> TailsCopied(old(live.pids), live.pids, emm, other, temp.pids, t, linked, ts)
  {
    hide ChainCopied, ChainAllocated, EcmsAreLeaves, NoEs, TailsCopied, ChainOk, InRange, Granted, Flags, Path, Free,
      NewlyTaken, Apart, SlotsOf;
    linked, emm, other := t, [], [];
    ghost var p0, tp := live.pids, temp.pids;
    var list;
    code, list := live.UnusedPids(t.emmNum + t.otherNum);
    GrantedOfFlags(p0, t.emmNum + t.otherNum, PIDS_PER_GROWTH, live.realloc);
    if code != Success {
      return;
    }
    ghost var g := live.pids;
    FirstFreeProps(g, t.emmNum + t.otherNum, list);
    var n := t.emmNum;
    ghost var lostEmm, lostOther;
    NoEsOk(Flags(g), tp, Path(tp, t.emmHead, t.emmNum), live.realloc);
    code, emm, lostEmm := CopyChain(live, ts, INDEX_INVALID, list[..n], temp, t.emmHead);
    if code != Success {
      return;
    }
    ghost var p1 := live.pids;
    FreeChainTaken(g, p1, list[..n], emm, lostEmm, tp, t.emmHead, ts, INDEX_INVALID);
    NoEsOk(Flags(p1), tp, Path(tp, t.otherHead, t.otherNum), live.realloc);
    code, other, lostOther := CopyChain(live, ts, INDEX_INVALID, list[n..], temp, t.otherHead);
    if code != Success {
      return;
    }
    linked := t.(emmHead := if n > 0 then list[0] else t.emmHead,
                 otherHead := if n < |list| then list[n] else t.otherHead);
    TailsDone(p0, g, p1, live.pids, list, n, emm, lostEmm, other, lostOther, tp, t, linked, ts);
  }

  // ---------------------------------------------------------------- the stream

  /**
    What a finished scan leaves in the temporary pool: the programs of the stream are in use and
    their counts came from a PMT, ECM chains hold no elementary streams, and neither do the
    chains of EMMs and of other PIDs.
   */
  ghost predicate Scanned(temp: TsInfo, src: nat)
    reads temp
  {
    && temp.Valid() && EcmsAreLeaves(temp.pids)
    && (src < |temp.streams| ==>
          var t := temp.streams[src].body;
          && SourceProgs(temp.progs, Path(temp.progs, t.progHead, t.progNum))
          && NoEs(temp.pids, Path(temp.pids, t.emmHead, t.emmNum))
          && NoEs(temp.pids, Path(temp.pids, t.otherHead, t.otherNum)))
  }

  ghost predicate SourceProgs(progs: seq<Prog>, path: seq<nat>) {
    forall i :: 0 <= i < |path| ==> SourceProg(progs, path[i])
  }

  lemma NoProgsAsked(flags: seq<Cell>, progs: seq<Prog>, temp: seq<Pid>, realloc: nat -> Realloc)
    ensures ProgsOk(flags, progs, temp, [], realloc)
  {
  }

  lemma NextProgOk(flags: seq<Cell>, p1: seq<Pid>, progs: seq<Prog>, temp: seq<Pid>, path: seq<nat>, stale: bool,
                   realloc: nat -> Realloc)
    requires path != [] && ProgsOk(flags, progs, temp, path[..|path| - 1], realloc)
    requires ProgsAlloc(Alloc(flags, false), progs, temp, path[..|path| - 1], realloc) == Alloc(Flags(p1), stale)
    ensures var k := path[|path| - 1];
            ProgsOk(flags, progs, temp, path, realloc) <==>
              k < |progs| && ProgOk(Flags(p1), temp, progs[k].body, realloc)
  {
    hide ProgOk, ProgAlloc, Flags;
  }

  /** The loop over the programs of the stream. */
  method CopyPrograms(live: TsInfo, ts: nat, list: seq<nat>, temp: TsInfo, head: nat)
    returns (code: Code, ghost ss: seq<ProgShape>, ghost stale: bool)
    requires live != temp && live.Valid() && temp.Valid() && EcmsAreLeaves(temp.pids)
    requires SourceProgs(temp.progs, Path(temp.progs, head, |list|))
    requires NoDup(list) && forall i :: 0 <= i < |list| ==> list[i] < |live.progs|
    modifies live`progs, live`pids, live`pidBlock
    ensures live.Valid()
    ensures ts < |live.streams| ==>
              (code == Success <==>
                 ProgsOk(Flags(old(live.pids)), temp.progs, temp.pids, Path(temp.progs, head, |list|), live.realloc))
    ensures code == Success ==>
              && |ss| == |list|
              && ProgsState(old(live.progs), live.progs, old(live.pids), live.pids, list, ss, stale,
                            ReadProgs(temp.progs, temp.pids, head, |list|), ts)
              && ProgsAlloc(Alloc(Flags(old(live.pids)), false), temp.progs, temp.pids, Path(temp.progs, head, |list|),
                            live.realloc)
                 == Alloc(Flags(live.pids), stale)
  {
    hide ProgsState, ProgCopied, EcmsAreLeaves, ReadProg, ProgAlloc, Flags, ProgOk, ProgsOk;
    code, ss, stale := Success, [], false;
    ghost var tprogs, tp, g0, p0 := temp.progs, temp.pids, live.progs, live.pids;
    ghost var path, trees := Path(tprogs, head, |list|), ReadProgs(tprogs, tp, head, |list|);
    ProgsStart(g0, p0, list, trees, ts);
    NoProgsAsked(Flags(p0), tprogs, tp, live.realloc);
    var i := 0;
    var at: nat := INDEX_INVALID;
    while i < |list|
      invariant 0 <= i <= |list| && code == Success && |ss| == i
      invariant live.Valid() && temp.pids == tp && temp.progs == tprogs && |live.progs| == |g0|
      invariant 0 < i ==> at == path[i - 1] && at < |tprogs|
      invariant ProgsState(g0, live.progs, p0, live.pids, list, ss, stale, trees, ts)
      invariant ProgsOk(Flags(p0), tprogs, tp, path[..i], live.realloc)
      invariant ProgsAlloc(Alloc(Flags(p0), false), tprogs, tp, path[..i], live.realloc)
        == Alloc(Flags(live.pids), stale)
    {
      PathStep(tprogs, head, |list|, i);
      at := if i == 0 then head else temp.progs[at].next;
      assert at == path[i];
      ghost var g1, p1 := live.progs, live.pids;
      ghost var s, lost;
      code, s, lost := CopyProg(live, ts, list[i], temp, at);
      assert path[..i + 1][..i] == path[..i];
      NextProgOk(Flags(p0), p1, tprogs, tp, path[..i + 1], stale, live.realloc);
      if code != Success {
        if ts < |live.streams| && ProgsOk(Flags(p0), tprogs, tp, path, live.realloc) {
          ProgsOkPart(Flags(p0), tprogs, tp, path, i + 1, live.realloc);
        }
        return;
      }
      ghost var q := live.progs;
      live.progs := live.progs[list[i] :=
        live.progs[list[i]].(next := if i + 1 < |list| then list[i + 1] else INDEX_INVALID)];
      assert live.progs == g1[list[i] := q[list[i]].(next := Follower(list, i))];
      ProgsRound(g0, g1, q, live.progs, p0, p1, live.pids, list, ss, stale, s, lost, tprogs, tp, at, trees, ts);
      ProgAllocAdds(Alloc(Flags(p1), stale), tp, tprogs[at].body, live.realloc);
      stale := stale || lost;
      ss := ss + [s];
      i := i + 1;
    }
    assert path[..i] == path;
  }

  /** What a successful CopyStream has done. */
  ghost predicate StreamCopied(streams: seq<Stream>, g0: seq<Prog>, g1: seq<Prog>, p0: seq<Pid>, p1: seq<Pid>, dst: nat,
                               s: StreamShape, stale: bool, tree: StreamTree)
  {
    // the tree, node by node, and as anyone reads it
    && (StreamAt(streams, g1, p1, dst, s, tree, true) <==> !stale)
    && (!stale ==> ReadStream(streams, g1, p1, dst) == tree)
    // no slot is shared, none is leaked, nothing else changed
    && NewlyTaken(p0, p1, UsedByStream(s)) && ApartStream(s)
    && NoDup(ProgSlots(s.progs)) && Frame(g0, g1, Elements(ProgSlots(s.progs)))
    && (forall k :: k in Elements(ProgSlots(s.progs)) ==> k < |g1| && g1[k].valid && (k < |g0| ==> !g0[k].valid))
    // an ECM head is lost only when the programs did not fit into the free slots
    && (stale ==> tree.StreamNode? && |Free(p0)| < ProgsSize(tree.progs))
  }

  lemma StreamDone(streams: seq<Stream>, ga: seq<Prog>, g0: seq<Prog>, g1: seq<Prog>, p0: seq<Pid>, p1: seq<Pid>,
                   p2: seq<Pid>,
                   list: seq<nat>, ps: seq<ProgShape>, stale: bool, emm: seq<PidShape>, other: seq<PidShape>,
                   dst: nat, tstreams: seq<Stream>, tprogs: seq<Prog>, temp: seq<Pid>, src: nat, linked: StreamRec)
    requires src < |tstreams| && dst < |streams| && streams[dst].valid && streams[dst].index == dst
    requires Frame(ga, g0, {}) && FirstFree(g0, tstreams[src].body.progNum, list) && |ps| == |list|
    requires ProgsState(g0, g1, p0, p1, list, ps, stale,
                        ReadProgs(tprogs, temp, tstreams[src].body.progHead, tstreams[src].body.progNum), dst)
    requires TailsCopied(p1, p2, emm, other, temp, tstreams[src].body, linked, dst)
    requires streams[dst].body == linked.(progHead := if list != [] then list[0] else linked.progHead)
    ensures StreamCopied(streams, ga, g1, p0, p2, dst, StreamShape(ps, emm, other), stale,
                         ReadStream(tstreams, tprogs, temp, src))
  {
    var s := StreamShape(ps, emm, other);
    var tree := ReadStream(tstreams, tprogs, temp, src);
    hide ProgAt, PidsAt, NewlyTaken, Apart, ApartProgs, SlotsOf, UsedByProgs, ReadProgs, ReadPids, ReadProg, ProgsSize,
      AnyProgLost, Keeps, UsedByProg, Free;
    assert tree.progs[..|ps|] == tree.progs;
    assert ProgSlots(ps) == list;
    FirstFreeProps(g0, tstreams[src].body.progNum, list);
    TakenTwice(p0, p1, p2, UsedByProgs(ps), SlotsOf(emm) + SlotsOf(other));
    assert UsedByProgs(ps) + (SlotsOf(emm) + SlotsOf(other)) == UsedByStream(s);
    ProgFrame(ga, g0, g1, list, ps);
    LostStays(g0, g1, p0, p1, list, ps, stale, tree.progs, dst, p2);
    if stale {
      if StreamAt(streams, g1, p2, dst, s, tree, true) {
        LostIsNoProgram(g1, p2, ps, tree.progs, dst);
      }
    } else {
      ProgsLater(g1, p1, ps, tree.progs, dst, p2);
      StreamAtReads(streams, g1, p2, dst, s, tree, true);
    }
  }

  lemma LostStays(g0: seq<Prog>, g1: seq<Prog>, p0: seq<Pid>, p1: seq<Pid>, list: seq<nat>, ps: seq<ProgShape>,
                  stale: bool, trees: seq<ProgTree>, ts: nat, p2: seq<Pid>)
    requires ProgsState(g0, g1, p0, p1, list, ps, stale, trees, ts) && Keeps(p1, p2, UsedByProgs(ps))
    ensures stale <==> AnyProgLost(p2, ps)
  {
    hide ProgTrees, ProgSiblings, AnyProgLost, UsedByProgs;
    AnyProgLostStable(p1, p2, ps);
  }

  lemma ProgsLater(g1: seq<Prog>, p1: seq<Pid>, ps: seq<ProgShape>, trees: seq<ProgTree>, ts: nat, p2: seq<Pid>)
    requires ProgTrees(g1, p1, ps, trees, ts) && Keeps(p1, p2, UsedByProgs(ps))
    ensures ProgTrees(g1, p2, ps, trees, ts)
  {
    hide ProgAt, UsedByProg, UsedByProgs, Keeps;
    forall j | 0 <= j < |ps| ensures ProgAt(g1, p2, ps[j], trees[j], ts, true) {
      UsedByProgsHas(ps, j);
      KeepsLess(p1, p2, UsedByProgs(ps), UsedByProg(ps[j]));
      ProgSlotKept(g1, p1, ps, trees, ts, j);
      ProgAtStable(g1, g1, p1, p2, ps[j], trees[j], ts, true);
    }
  }

  lemma ProgSlotKept(g1: seq<Prog>, p1: seq<Pid>, ps: seq<ProgShape>, trees: seq<ProgTree>, ts: nat, j: nat)
    requires ProgTrees(g1, p1, ps, trees, ts) && j < |ps|
    ensures ProgAt(g1, p1, ps[j], trees[j], ts, true) && ps[j].slot < |g1|
  {
  }

  lemma ProgFrame(ga: seq<Prog>, g0: seq<Prog>, g1: seq<Prog>, list: seq<nat>, ps: seq<ProgShape>)
    requires Frame(ga, g0, {}) && ProgSiblings(g0, g1, list, ps) && |ps| == |list|
    requires forall x :: x in Elements(list) ==> x < |g0| && !g0[x].valid
    ensures Frame(ga, g1, Elements(list))
    ensures forall k :: k in Elements(list) ==> k < |g1| && g1[k].valid && (k < |ga| ==> !ga[k].valid)
  {
    forall k | k in Elements(list) ensures k < |g1| && g1[k].valid {
      var j :| 0 <= j < |list| && list[j] == k;
    }
  }

  method CopyStream(live: TsInfo, dst: nat, temp: TsInfo, src: nat)
    returns (code: Code, ghost s: StreamShape, ghost stale: bool)
    requires live != temp && live.Valid() && Scanned(temp, src)
    modifies live`streams, live`progs, live`pids, live`pidBlock
    ensures live.Valid()
    ensures code == Success <==>
              && dst < |old(live.streams)| && src < |temp.streams|
              && StreamOk(old(live.progs), old(live.pids), temp.progs, temp.pids, temp.streams[src].body, live.realloc)
    ensures code == Success ==>
              && dst < |old(live.streams)| && src < |temp.streams| && |live.streams| == |old(live.streams)|
              && live.streams == old(live.streams)[dst := live.streams[dst]]
              && StreamCopied(live.streams, old(live.progs), live.progs, old(live.pids), live.pids, dst, s, stale,
                              ReadStream(temp.streams, temp.progs, temp.pids, src))
              && (stale <==> LosesHead(old(live.pids), temp.progs, temp.pids, temp.streams[src].body, live.realloc))
  {
    hide ProgsAlloc, Flags, Granted, ProgsOk, TailsOk;
    hide ProgsState, TailsCopied, StreamCopied, EcmsAreLeaves, NoEs, SourceProgs, ReadProgs, ReadPids, ReadStream;
    s, stale := StreamShape([], [], []), false;
    if |live.streams| <= dst || |temp.streams| <= src {
      return InputParam, s, stale;
    }
    ghost var ga, p0 := live.progs, live.pids;
    ghost var tstreams, tprogs, tp := temp.streams, temp.progs, temp.pids;
    var t := temp.streams[src].body;
    live.streams := live.streams[dst := temp.streams[src].(valid := true, index := dst)];

    var list;
    code, list := live.UnusedProgs(t.progNum);
    if code != Success {
      return;
    }
    ghost var g0 := live.progs;
    FirstFreeProps(g0, t.progNum, list);
    ghost var ps;
    code, ps, stale := CopyPrograms(live, dst, list, temp, t.progHead);
    if code != Success {
      return;
    }
    ghost var p1, g1 := live.pids, live.progs;
    var linked;
    ghost var emm, other;
    code, linked, emm, other := CopyTails(live, dst, temp, t);
    if code != Success {
      return;
    }
    live.streams := live.streams[dst := live.streams[dst].(
      body := linked.(progHead := if list != [] then list[0] else linked.progHead))];
    s := StreamShape(ps, emm, other);
    StreamDone(live.streams, ga, g0, g1, p0, p1, live.pids, list, ps, stale, emm, other, dst, tstreams, tprogs, tp, src,
               linked);
  }
}
