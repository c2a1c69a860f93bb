/**
  The number of the last section of a table, read from any packet that begins a section of it
  (TSP_GetPSILastSectionNum).
 */
module PsiLastSection {
  import opened Bytes
  import opened PsiFilter

  datatype Search = Hit(k: nat, num: nat) | Overflow | Nothing

  /** The answer begins a section of the table. */
  ghost predicate BeginsTable(pid: nat, tid: byte, a: Answer) {
    a.Packet? && Readable(a.m, pid) && StartSet(a.m) && a.m[PayloadAt(a.m)] == tid
  }

  /** A packet of another PID, with the error bit, or out of which a field runs, counts as an error. */
  ghost function CountOf(pid: nat, a: Answer): (n: nat)
    ensures n <= 1
  {
    if a.NoPacket? then 0
    else if !OfPid(a.m, pid) || ErrorSet(a.m) then 1
    else if !StartSet(a.m) || !PayloadAnnounced(a.m) || Readable(a.m, pid) then 0
    else 1
  }

  /** Errors counted by the answers before i. */
  ghost function CountUpTo(pid: nat, answers: nat -> Answer, i: nat): nat {
    if i == 0 then 0 else CountUpTo(pid, answers, i - 1) + CountOf(pid, answers(i - 1))
  }

  /**
    The search meets the table at answer k: the first answer that begins a section of it, met
    before any packet arrives with more than 500 errors counted.
   */
  ghost predicate MetAt(pid: nat, tid: byte, answers: nat -> Answer, k: nat) {
    && k < TRIES && BeginsTable(pid, tid, answers(k)) && CountUpTo(pid, answers, k) <= MAX_ERRORS
    && forall i: nat :: i < k ==> !BeginsTable(pid, tid, answers(i))
  }

  lemma {:induction false} CountGrows(pid: nat, answers: nat -> Answer, i: nat, j: nat)
    requires i <= j
    ensures CountUpTo(pid, answers, i) <= CountUpTo(pid, answers, j)
    decreases j
  {
    if i < j {
      CountGrows(pid, answers, i, j - 1);
    }
  }

  lemma NotMet(pid: nat, tid: byte, answers: nat -> Answer, i: nat)
    requires CountUpTo(pid, answers, i) > MAX_ERRORS
    requires forall j: nat :: j < i ==> !BeginsTable(pid, tid, answers(j))
    ensures forall k: nat :: !MetAt(pid, tid, answers, k)
  {
    hide BeginsTable;
    forall k: nat ensures !MetAt(pid, tid, answers, k) {
      if k >= i {
        CountGrows(pid, answers, i, k);
      }
    }
  }

  /**
    Writes the last section number of the table exactly when the table is met, but reports it only
    when it is met before the last of the 3000 tries: a table met on the very last try is written
    and reported as a timeout.
   */
  method GetLastSectionNum(pid: nat, tid: byte, answers: nat -> Answer, before: nat) returns (code: Code, num: nat)
    ensures code == Success <==> exists k: nat :: MetAt(pid, tid, answers, k) && k + 1 < TRIES
    ensures forall k: nat :: MetAt(pid, tid, answers, k) ==>
              && num == answers(k).m[PayloadAt(answers(k).m) + 7]
              && code == if k + 1 < TRIES then Success else Timeout
    ensures (forall k: nat :: !MetAt(pid, tid, answers, k)) ==> num == before && (code == Timeout || code == TsError)
  {
    hide Look, MetAt, CountUpTo, BeginsTable;
    num := before;
    var timeOut := TRIES;
    var errors: nat := 0;
    ghost var met := false;
    assert CountUpTo(pid, answers, 0) == 0 by {
      NoneCounted(pid, answers);
    }
    while timeOut > 0
      invariant 0 <= timeOut <= TRIES && !met && num == before
      invariant errors == CountUpTo(pid, answers, TRIES - timeOut)
      invariant forall j: nat :: j < TRIES - timeOut ==> !BeginsTable(pid, tid, answers(j))
      decreases timeOut
    {
      ghost var i := TRIES - timeOut;
      var answer := answers(TRIES - timeOut);
      timeOut := timeOut - 1;
      CountStep(pid, answers, i);
      OnlyOne(pid, tid, answers, i);
      if answer.NoPacket? {
        continue;
      }
      if errors > MAX_ERRORS {
        NotMet(pid, tid, answers, i);
        return TsError, num;
      }
      LookIsByBytes(answer.m, pid, true);
      var v := LookAt(answer.m, pid, true);
      if v.Ignored? {
        errors := errors + v.errors;
        continue;
      }
      if answer.m[v.at] != tid {
        continue;
      }
      num := answer.m[v.at + 7];
      assert MetAt(pid, tid, answers, i);
      met := true;
      break;
    }
    if !met {
      TriedAll(pid, tid, answers);
    }
    if timeOut == 0 {
      return Timeout, num;
    }
    return Success, num;
  }

  lemma NoneCounted(pid: nat, answers: nat -> Answer)
    ensures CountUpTo(pid, answers, 0) == 0
  {
  }

  lemma CountStep(pid: nat, answers: nat -> Answer, i: nat)
    ensures CountUpTo(pid, answers, i + 1) == CountUpTo(pid, answers, i) + CountOf(pid, answers(i))
  {
  }

  /** What answer i means, when none before it begins the table. */
  lemma OnlyOne(pid: nat, tid: byte, answers: nat -> Answer, i: nat)
    requires i < TRIES && forall j: nat :: j < i ==> !BeginsTable(pid, tid, answers(j))
    ensures BeginsTable(pid, tid, answers(i)) <==>
              && answers(i).Packet? && Readable(answers(i).m, pid) && StartSet(answers(i).m)
              && answers(i).m[PayloadAt(answers(i).m)] == tid
    ensures BeginsTable(pid, tid, answers(i)) && CountUpTo(pid, answers, i) <= MAX_ERRORS ==>
              MetAt(pid, tid, answers, i) && forall k: nat :: MetAt(pid, tid, answers, k) ==> k == i
  {
    hide CountUpTo, OfPid, StartSet, ErrorSet;
  }

  lemma TriedAll(pid: nat, tid: byte, answers: nat -> Answer)
    requires forall j: nat :: j < TRIES ==> !BeginsTable(pid, tid, answers(j))
    ensures forall k: nat :: !MetAt(pid, tid, answers, k)
  {
    hide BeginsTable, CountUpTo;
  }
}
