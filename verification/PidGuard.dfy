/** The single-instance guard: contenders that find a PID file already there and take it over
    under the advisory lock, in every interleaving of their system calls. Besides the contenders
    there may be any other rebootnow processes, such as the one that created the file. */
module PidGuard {
  import opened CStrings

  /** The next thing a contender does, or how it ended. */
  datatype Pc =
    | CreateExclusive           // open with O_EXCL, which fails on the existing file
    | OpenExisting
    | SetLock                   // non-blocking F_SETLK
    | ReadLine
    | CheckOwner(line: string)  // /proc/<pid>/cmdline of the pid that was read
    | Truncate
    | WritePid
    | Close                     // releases the lock
    | Granted
    | Refused
    | Gone                      // a refused contender has exited

  datatype State = State(contents: string, lock: Option<nat>, pcs: seq<Pc>)

  predicate HoldsLock(pc: Pc) { pc.ReadLine? || pc.CheckOwner? || pc.Truncate? || pc.WritePid? || pc.Close? }

  predicate Finished(pc: Pc) { pc.Granted? || pc.Refused? || pc.Gone? }

  /** What fgets puts in the 32-byte buffer: up to the first newline, at most 31 characters. */
  function FirstLine(contents: string): string
  {
    var upTo := match Until(contents, '\n') case Some(k) => k + 1 case None => |contents|;
    contents[..if upTo > 31 then 31 else upTo]
  }

  /** The pid's command line names rebootnow: it is one of the others, or a contender that has not exited. */
  ghost predicate Live(pids: seq<nat>, others: set<int>, s: State, pid: int)
  {
    pid in others || exists i :: 0 <= i < |pids| && i < |s.pcs| && pids[i] == pid && !s.pcs[i].Gone?
  }

  function Start(stale: string, n: nat): State { State(stale, None, seq(n, _ => CreateExclusive)) }

  /** One system call of contender i. */
  ghost function Step(pids: seq<nat>, others: set<int>, s: State, i: nat): (s': State)
    requires |s.pcs| == |pids| && i < |pids|
    ensures |s'.pcs| == |s.pcs|
  {
    match s.pcs[i]
    case CreateExclusive => s.(pcs := s.pcs[i := OpenExisting])
    case OpenExisting => s.(pcs := s.pcs[i := SetLock])
    case SetLock =>
      if s.lock.Some? then s.(pcs := s.pcs[i := Refused])
      else s.(lock := Some(i), pcs := s.pcs[i := ReadLine])
    case ReadLine => s.(pcs := s.pcs[i := CheckOwner(FirstLine(s.contents))])
    case CheckOwner(line) =>
      if line != "" && Live(pids, others, s, Atoi(line)) then s.(lock := None, pcs := s.pcs[i := Refused])
      else s.(pcs := s.pcs[i := Truncate])
    case Truncate => s.(contents := "", pcs := s.pcs[i := WritePid])
    case WritePid => s.(contents := Decimal(pids[i]), pcs := s.pcs[i := Close])
    case Close => s.(lock := None, pcs := s.pcs[i := Granted])
    case Granted => s
    case Refused => s.(pcs := s.pcs[i := Gone])
    case Gone => s
  }

  /** An interleaving: which contender makes the next call. */
  ghost predicate IsSchedule(schedule: seq<nat>, n: nat) { forall k :: 0 <= k < |schedule| ==> schedule[k] < n }

  ghost function Run(pids: seq<nat>, others: set<int>, stale: string, schedule: seq<nat>): (s: State)
    requires IsSchedule(schedule, |pids|)
    ensures |s.pcs| == |pids|
  {
    if schedule == [] then Start(stale, |pids|)
    else
      var last := |schedule| - 1;
      assert IsSchedule(schedule[..last], |pids|) by { forall k | 0 <= k < last ensures schedule[..last][k] < |pids| { assert schedule[..last][k] == schedule[k]; } }
      assert schedule[last] < |pids|;
      Step(pids, others, Run(pids, others, stale, schedule[..last]), schedule[last])
  }

  /** Distinct process ids of type pid_t. */
  ghost predicate Distinct(pids: seq<nat>)
  {
    && (forall i, j :: 0 <= i < j < |pids| ==> pids[i] != pids[j])
    && (forall i :: 0 <= i < |pids| ==> pids[i] < 0x8000_0000)
  }

  /** The file names this pid. */
  predicate Names(stale: string, pid: int) { FirstLine(stale) != "" && Atoi(FirstLine(stale)) == pid }

  /** The file names a running rebootnow outside the contenders, as while another instance holds the guard. */
  predicate NamesOther(stale: string, others: set<int>) { FirstLine(stale) != "" && Atoi(FirstLine(stale)) in others }

  /** The file names no running rebootnow, contender or not. */
  ghost predicate NamesNoLive(stale: string, pids: seq<nat>, others: set<int>)
  {
    !NamesOther(stale, others) && forall i :: 0 <= i < |pids| ==> !Names(stale, pids[i])
  }

  // ----- a written pid reads back

  function Pow10(k: nat): nat { if k == 0 then 1 else 10 * Pow10(k - 1) }

  lemma {:induction false} DecimalLength(n: nat, k: nat)
    requires k > 0 && n < Pow10(k)
    ensures |Decimal(n)| <= k
  {
    if n >= 10 {
      DecimalLength(n / 10, k - 1);
    }
  }

  lemma NoNewlineInDigits(s: string)
    requires forall i :: 0 <= i < |s| ==> IsDigit(s[i])
    ensures Until(s, '\n').None?
  {
    if s != "" { NoNewlineInDigits(s[1..]); }
  }

  lemma PidReadsBack(pid: nat)
    requires pid < 0x8000_0000
    ensures FirstLine(Decimal(pid)) == Decimal(pid) && Atoi(FirstLine(Decimal(pid))) == pid
  {
    hide Decimal;
    ShortPid(pid);
    NoNewlineInDigits(Decimal(pid));
    DecimalRoundTrip(pid);
  }

  /** A file that holds a pid names it, with or without a newline and whatever comes on later lines. */
  lemma FileNamesPid(pid: nat, more: string)
    requires pid < 0x8000_0000 && (more != "" ==> more[0] == '\n')
    ensures Names(Decimal(pid) + more, pid)
  {
    PidReadsBack(pid);
    hide Decimal, Atoi;
    var file := Decimal(pid) + more;
    if more == "" {
      assert file == Decimal(pid);
    } else {
      NewlineBehind(Decimal(pid), more);
      ShortPid(pid);
      assert file[..|Decimal(pid)| + 1] == Decimal(pid) + "\n";
      AtoiReads("", pid, "\n");
      assert "" + (Decimal(pid) + "\n") == Decimal(pid) + "\n";
    }
  }

  lemma ShortPid(pid: nat)
    requires pid < 0x8000_0000
    ensures 0 < |Decimal(pid)| <= 10
  {
    hide Decimal;
    assert Pow10(10) == 10_000_000_000 by {
      assert Pow10(2) == 100;
      assert Pow10(4) == 10_000;
      assert Pow10(6) == 1_000_000;
      assert Pow10(8) == 100_000_000;
    }
    DecimalLength(pid, 10);
  }

  lemma NewlineBehind(digits: string, more: string)
    requires (forall i :: 0 <= i < |digits| ==> IsDigit(digits[i])) && more != "" && more[0] == '\n'
    ensures Until(digits + more, '\n') == Some(|digits|)
  {
    if digits == "" { assert digits + more == more; }
    else {
      assert (digits + more)[1..] == digits[1..] + more;
      NewlineBehind(digits[1..], more);
    }
  }

  // ----- the invariant of the takeover

  /** Has written its pid to the file. */
  predicate Wrote(pc: Pc) { pc.Close? || pc.Granted? }

  /** The contenders between taking and releasing the lock are the one that holds it. */
  ghost predicate Locked(s: State)
  {
    && (s.lock.Some? ==> s.lock.value < |s.pcs|)
    && (forall i :: 0 <= i < |s.pcs| ==> (HoldsLock(s.pcs[i]) <==> s.lock == Some(i)))
  }

  /** The state with `winner` as the contender that has written, if any; whatever the file said. */
  ghost predicate Inv(pids: seq<nat>, s: State, winner: Option<nat>)
  {
    && |s.pcs| == |pids| && Locked(s)
    && (winner.Some? ==> winner.value < |pids|)
    && (forall i :: 0 <= i < |pids| ==> (Wrote(s.pcs[i]) <==> winner == Some(i)))
    && (forall i :: 0 <= i < |pids| && s.pcs[i].CheckOwner? ==> s.pcs[i].line == FirstLine(s.contents))
    && (forall i :: 0 <= i < |pids| && (s.pcs[i].Truncate? || s.pcs[i].WritePid?) ==> winner.None?)
    && (winner.Some? ==> s.contents == Decimal(pids[winner.value]))
  }

  /** What holds besides when the file named no running rebootnow: it stays as it was until somebody takes
      it over, and nobody is refused for nothing. */
  ghost predicate Undisputed(stale: string, s: State, winner: Option<nat>)
  {
    && (s.lock.Some? ==> s.lock.value < |s.pcs|)
    && (winner.None? ==> s.contents == stale || (s.lock.Some? && s.pcs[s.lock.value].WritePid?))
    && (forall i :: 0 <= i < |s.pcs| && (s.pcs[i].Refused? || s.pcs[i].Gone?) ==> winner.Some? || s.lock.Some?)
  }

  ghost function NextWinner(s: State, winner: Option<nat>, i: nat): Option<nat>
    requires i < |s.pcs|
  {
    if s.pcs[i].WritePid? then Some(i) else winner
  }

  /** Once somebody has taken over, the owner check refuses. */
  lemma WinnerIsSeen(pids: seq<nat>, others: set<int>, s: State, winner: Option<nat>, i: nat)
    requires Distinct(pids) && Inv(pids, s, winner) && i < |pids| && s.pcs[i].CheckOwner? && winner.Some?
    ensures s.pcs[i].line != "" && Live(pids, others, s, Atoi(s.pcs[i].line))
  {
    hide FirstLine, Decimal, Atoi;
    var w := winner.value;
    assert Wrote(s.pcs[w]);
    PidReadsBack(pids[w]);
    assert pids[w] == Atoi(s.pcs[i].line) && !s.pcs[w].Gone?;
  }

  /** Under the lock, the owner check refuses exactly when somebody has already taken over. */
  lemma CheckDecides(pids: seq<nat>, others: set<int>, stale: string, s: State, winner: Option<nat>, i: nat)
    requires Distinct(pids) && NamesNoLive(stale, pids, others) && Inv(pids, s, winner) && Undisputed(stale, s, winner)
    requires i < |pids| && s.pcs[i].CheckOwner?
    ensures s.pcs[i].line != "" && Live(pids, others, s, Atoi(s.pcs[i].line)) <==> winner.Some?
  {
    hide FirstLine, Decimal, Atoi;
    assert s.lock == Some(i);
    if winner.Some? {
      WinnerIsSeen(pids, others, s, winner, i);
    } else {
      assert s.contents == stale;
      forall k | 0 <= k < |pids| ensures !Names(stale, pids[k]) { }
    }
  }

  lemma StepKeepsLocked(pids: seq<nat>, others: set<int>, s: State, i: nat)
    requires |s.pcs| == |pids| && i < |pids| && Locked(s)
    ensures Locked(Step(pids, others, s, i))
  {
    hide FirstLine, Decimal, Atoi, Live;
  }

  /** Who holds the lock is the only one that does. */
  lemma SoleHolder(s: State, i: nat)
    requires Locked(s) && i < |s.pcs| && HoldsLock(s.pcs[i])
    ensures forall j :: 0 <= j < |s.pcs| && j != i ==> !HoldsLock(s.pcs[j])
  {
  }

  lemma StepKeepsInv(pids: seq<nat>, others: set<int>, s: State, winner: Option<nat>, i: nat)
    requires Distinct(pids) && Inv(pids, s, winner) && i < |pids|
    ensures Inv(pids, Step(pids, others, s, i), NextWinner(s, winner, i))
  {
    StepKeepsLocked(pids, others, s, i);
    if HoldsLock(s.pcs[i]) { SoleHolder(s, i); }
    hide FirstLine, Decimal, Atoi, Live, Locked, Distinct;
    if s.pcs[i].CheckOwner? && winner.Some? { WinnerIsSeen(pids, others, s, winner, i); }
  }

  lemma StepStaysUndisputed(pids: seq<nat>, others: set<int>, stale: string, s: State, winner: Option<nat>, i: nat)
    requires Distinct(pids) && NamesNoLive(stale, pids, others) && i < |pids|
    requires Inv(pids, s, winner) && Undisputed(stale, s, winner)
    ensures Undisputed(stale, Step(pids, others, s, i), NextWinner(s, winner, i))
  {
    hide FirstLine, Decimal, Atoi, Live, Names;
    if s.pcs[i].CheckOwner? { CheckDecides(pids, others, stale, s, winner, i); }
  }

  lemma {:induction false} RunKeepsInv(pids: seq<nat>, others: set<int>, stale: string, schedule: seq<nat>) returns (winner: Option<nat>)
    requires Distinct(pids) && IsSchedule(schedule, |pids|)
    ensures Inv(pids, Run(pids, others, stale, schedule), winner)
    ensures NamesNoLive(stale, pids, others) ==> Undisputed(stale, Run(pids, others, stale, schedule), winner)
  {
    hide NamesNoLive, Distinct;
    if schedule == [] {
      winner := None;
    } else {
      var last := |schedule| - 1;
      assert IsSchedule(schedule[..last], |pids|);
      var before := RunKeepsInv(pids, others, stale, schedule[..last]);
      var s := Run(pids, others, stale, schedule[..last]);
      hide Inv, Undisputed, Step;
      assert |s.pcs| == |pids|;
      StepKeepsInv(pids, others, s, before, schedule[last]);
      winner := NextWinner(s, before, schedule[last]);
      if NamesNoLive(stale, pids, others) { StepStaysUndisputed(pids, others, stale, s, before, schedule[last]); }
    }
  }

  // ----- the guarantees

  /** While the file names a running rebootnow outside the contenders, nobody gets past the owner check. */
  ghost predicate KeptOut(stale: string, s: State)
  {
    && s.contents == stale
    && forall i :: 0 <= i < |s.pcs| ==>
         && !s.pcs[i].Truncate? && !s.pcs[i].WritePid? && !Wrote(s.pcs[i])
         && (s.pcs[i].CheckOwner? ==> s.pcs[i].line == FirstLine(stale))
  }

  /** The instance that holds the guard keeps every newcomer out: in no interleaving is the file
      changed or anybody granted. */
  lemma {:induction false} HolderKeepsOut(pids: seq<nat>, others: set<int>, stale: string, schedule: seq<nat>)
    requires NamesOther(stale, others) && IsSchedule(schedule, |pids|)
    ensures KeptOut(stale, Run(pids, others, stale, schedule))
  {
    hide FirstLine, Atoi, Decimal;
    if schedule != [] {
      var last := |schedule| - 1;
      assert IsSchedule(schedule[..last], |pids|);
      HolderKeepsOut(pids, others, stale, schedule[..last]);
    }
  }

  /** In no interleaving do two contenders get the guard, whatever the file said before, and one
      gets it only if the file named no running instance outside. */
  lemma AtMostOneGuard(pids: seq<nat>, others: set<int>, stale: string, schedule: seq<nat>, i: nat, j: nat)
    requires Distinct(pids) && IsSchedule(schedule, |pids|) && i < |pids| && j < |pids|
    requires Run(pids, others, stale, schedule).pcs[i].Granted? && Run(pids, others, stale, schedule).pcs[j].Granted?
    ensures i == j
    ensures Run(pids, others, stale, schedule).contents == Decimal(pids[i])
    ensures !NamesOther(stale, others)
  {
    hide Decimal, Run, Distinct, NamesOther;
    if NamesOther(stale, others) { HolderKeepsOut(pids, others, stale, schedule); }
    var winner := RunKeepsInv(pids, others, stale, schedule);
    assert Wrote(Run(pids, others, stale, schedule).pcs[i]) && Wrote(Run(pids, others, stale, schedule).pcs[j]);
  }

  /** Contender w has the guard, nobody else has, and the file names it. */
  ghost predicate SoleGuard(pids: seq<nat>, s: State, w: nat)
  {
    && |s.pcs| == |pids| && w < |pids| && s.contents == Decimal(pids[w])
    && forall i :: 0 <= i < |pids| ==> (s.pcs[i].Granted? <==> i == w)
  }

  ghost predicate OneGuard(pids: seq<nat>, s: State) { exists w: nat :: SoleGuard(pids, s, w) }

  /** When all have finished, one of them has the guard and the file names it. */
  lemma SomeoneGetsGuard(pids: seq<nat>, others: set<int>, stale: string, schedule: seq<nat>) returns (w: nat)
    requires Distinct(pids) && NamesNoLive(stale, pids, others) && IsSchedule(schedule, |pids|) && pids != []
    requires forall i :: 0 <= i < |pids| ==> Finished(Run(pids, others, stale, schedule).pcs[i])
    ensures SoleGuard(pids, Run(pids, others, stale, schedule), w)
  {
    hide Decimal, Run, Distinct, NamesNoLive;
    var s := Run(pids, others, stale, schedule);
    var winner := RunKeepsInv(pids, others, stale, schedule);
    assert forall i :: 0 <= i < |pids| ==> !HoldsLock(s.pcs[i]);
    assert s.lock.None?;
    assert Finished(s.pcs[0]);
    assert winner.Some?;
    w := winner.value;
    assert Wrote(s.pcs[w]);
  }

  // ----- every contender finishes after eight calls of its own

  function Rank(pc: Pc): nat
  {
    match pc
    case CreateExclusive => 8
    case OpenExisting => 7
    case SetLock => 6
    case ReadLine => 5
    case CheckOwner(_) => 4
    case Truncate => 3
    case WritePid => 2
    case Close => 1
    case _ => 0
  }

  function Turns(schedule: seq<nat>, i: nat): nat
  {
    if schedule == [] then 0
    else Turns(schedule[..|schedule| - 1], i) + if schedule[|schedule| - 1] == i then 1 else 0
  }

  lemma {:induction false} TurnsLowerRank(pids: seq<nat>, others: set<int>, stale: string, schedule: seq<nat>, i: nat)
    requires IsSchedule(schedule, |pids|) && i < |pids|
    ensures Rank(Run(pids, others, stale, schedule).pcs[i]) == 0 || Rank(Run(pids, others, stale, schedule).pcs[i]) + Turns(schedule, i) <= 8
  {
    if schedule != [] {
      var last := |schedule| - 1;
      assert IsSchedule(schedule[..last], |pids|);
      TurnsLowerRank(pids, others, stale, schedule[..last], i);
      hide Live, FirstLine, Atoi, Decimal;
    }
  }

  /** Every contender gets its eight calls. */
  ghost predicate IsFair(schedule: seq<nat>, n: nat)
  {
    IsSchedule(schedule, n) && forall i :: 0 <= i < n ==> Turns(schedule, i) >= 8
  }

  /** With a file that names no running rebootnow, every fair interleaving ends with exactly one guard,
      and the file names its holder. */
  lemma TakeoverCompletes(pids: seq<nat>, others: set<int>, stale: string, schedule: seq<nat>) returns (w: nat)
    requires Distinct(pids) && NamesNoLive(stale, pids, others) && IsFair(schedule, |pids|) && pids != []
    ensures SoleGuard(pids, Run(pids, others, stale, schedule), w)
  {
    hide Run, Turns;
    forall i | 0 <= i < |pids| ensures Finished(Run(pids, others, stale, schedule).pcs[i]) {
      TurnsLowerRank(pids, others, stale, schedule, i);
    }
    w := SomeoneGetsGuard(pids, others, stale, schedule);
  }

  /** With a file that names a running rebootnow outside, every fair interleaving ends with all refused. */
  lemma HolderRefusesAll(pids: seq<nat>, others: set<int>, stale: string, schedule: seq<nat>)
    requires NamesOther(stale, others) && IsFair(schedule, |pids|)
    ensures var s := Run(pids, others, stale, schedule);
            s.contents == stale && forall i :: 0 <= i < |pids| ==> s.pcs[i].Refused? || s.pcs[i].Gone?
  {
    hide Run, Turns, NamesOther;
    HolderKeepsOut(pids, others, stale, schedule);
    forall i | 0 <= i < |pids| ensures Finished(Run(pids, others, stale, schedule).pcs[i]) {
      TurnsLowerRank(pids, others, stale, schedule, i);
    }
  }

  // ----- a file that names a contender

  /** Eight calls in a row. */
  function Block(i: nat): seq<nat> { [i, i, i, i, i, i, i, i] }

  lemma RunStep(pids: seq<nat>, others: set<int>, stale: string, schedule: seq<nat>, i: nat)
    requires IsSchedule(schedule, |pids|) && i < |pids|
    ensures IsSchedule(schedule + [i], |pids|)
    ensures Run(pids, others, stale, schedule + [i]) == Step(pids, others, Run(pids, others, stale, schedule), i)
  {
    hide Step;
    assert (schedule + [i])[..|schedule|] == schedule;
  }

  lemma {:induction false} TurnsAppend(schedule: seq<nat>, more: seq<nat>, j: nat)
    ensures Turns(schedule + more, j) == Turns(schedule, j) + Turns(more, j)
  {
    if more == [] {
      assert schedule + more == schedule;
    } else {
      var rest := more[..|more| - 1];
      assert (schedule + more)[..|schedule + more| - 1] == schedule + rest;
      TurnsAppend(schedule, rest, j);
    }
  }

  lemma TurnsOfBlock(i: nat, j: nat)
    ensures Turns(Block(i), j) == if j == i then 8 else 0
  {
    assert Turns([i], j) == if j == i then 1 else 0;
    TurnsAppend([i], [i], j);
    assert [i] + [i] == [i, i];
    TurnsAppend([i, i], [i, i], j);
    assert [i, i] + [i, i] == [i, i, i, i];
    TurnsAppend([i, i, i, i], [i, i, i, i], j);
    assert [i, i, i, i] + [i, i, i, i] == Block(i);
  }

  /** A contender that runs alone while the named one has not exited ends refused and exits. */
  lemma BlockRefused(pids: seq<nat>, others: set<int>, stale: string, schedule: seq<nat>, i: nat, named: nat)
    requires IsSchedule(schedule, |pids|) && i < |pids| && named < |pids| && Names(stale, pids[named])
    requires var s := Run(pids, others, stale, schedule);
             s.contents == stale && s.lock.None? && s.pcs[i].CreateExclusive? && !s.pcs[named].Gone?
    ensures IsSchedule(schedule + Block(i), |pids|)
    ensures var s := Run(pids, others, stale, schedule); Run(pids, others, stale, schedule + Block(i)) == s.(pcs := s.pcs[i := Gone])
  {
    hide Run, IsSchedule, FirstLine, Atoi;
    var s, line := Run(pids, others, stale, schedule), FirstLine(stale);
    RunStep(pids, others, stale, schedule, i);
    var t1 := schedule + [i];
    RunStep(pids, others, stale, t1, i);
    var t2 := t1 + [i];
    RunStep(pids, others, stale, t2, i);
    var t3 := t2 + [i];
    RunStep(pids, others, stale, t3, i);
    var t4 := t3 + [i];
    var s4 := Run(pids, others, stale, t4);
    assert s4 == s.(lock := Some(i), pcs := s.pcs[i := CheckOwner(line)]);
    assert Live(pids, others, s4, pids[named]);
    RunStep(pids, others, stale, t4, i);
    var t5 := t4 + [i];
    assert Run(pids, others, stale, t5) == s.(pcs := s.pcs[i := Refused]);
    RunStep(pids, others, stale, t5, i);
    var t6 := t5 + [i];
    RunStep(pids, others, stale, t6, i);
    var t7 := t6 + [i];
    RunStep(pids, others, stale, t7, i);
    assert t7 + [i] == schedule + Block(i);
  }

  /** The first k contenders one after the other, the named one left out. */
  function WithoutNamed(k: nat, named: nat): seq<nat>
  {
    if k == 0 then []
    else if k - 1 == named then WithoutNamed(k - 1, named)
    else WithoutNamed(k - 1, named) + Block(k - 1)
  }

  lemma {:induction false} BlockByBlock(k: nat, named: nat, n: nat, j: nat)
    requires k <= n
    ensures IsSchedule(WithoutNamed(k, named), n)
    ensures Turns(WithoutNamed(k, named), j) == if j < k && j != named then 8 else 0
  {
    hide Turns, IsSchedule, Block;
    if k == 0 {
      NoTurns(n, j);
    } else {
      BlockByBlock(k - 1, named, n, j);
      if k - 1 != named {
        BlockAppended(WithoutNamed(k - 1, named), k - 1, n);
        TurnsAppend(WithoutNamed(k - 1, named), Block(k - 1), j);
        TurnsOfBlock(k - 1, j);
      }
    }
  }

  lemma NoTurns(n: nat, j: nat)
    ensures IsSchedule([], n) && Turns([], j) == 0
  {
  }

  lemma BlockAppended(schedule: seq<nat>, i: nat, n: nat)
    requires IsSchedule(schedule, n) && i < n
    ensures IsSchedule(schedule + Block(i), n)
  {
  }

  /** There is a fair interleaving for any number of contenders. */
  lemma FairExists(n: nat) returns (schedule: seq<nat>)
    ensures IsFair(schedule, n)
  {
    hide Turns;
    schedule := WithoutNamed(n, n);
    BlockByBlock(n, n, n, 0);
    forall i | 0 <= i < n ensures Turns(schedule, i) >= 8 { BlockByBlock(n, n, n, i); }
  }

  function OthersGone(n: nat, stale: string, k: nat, named: nat): State
  {
    State(stale, None, seq(n, i => if i < k && i != named then Gone else CreateExclusive))
  }

  lemma OneMoreGone(n: nat, stale: string, k: nat, named: nat)
    requires 0 < k <= n && named < n
    ensures var s := OthersGone(n, stale, k - 1, named);
            && |s.pcs| == n && s.contents == stale && s.lock.None? && s.pcs[k - 1].CreateExclusive? && !s.pcs[named].Gone?
            && OthersGone(n, stale, k, named) == if k - 1 == named then s else s.(pcs := s.pcs[k - 1 := Gone])
  {
    var s, s' := OthersGone(n, stale, k - 1, named), OthersGone(n, stale, k, named);
    assert s'.pcs == if k - 1 == named then s.pcs else s.pcs[k - 1 := Gone];
  }

  lemma NobodyRan(pids: seq<nat>, others: set<int>, stale: string, named: nat)
    ensures IsSchedule([], |pids|) && Run(pids, others, stale, []) == OthersGone(|pids|, stale, 0, named)
  {
    assert Start(stale, |pids|).pcs == OthersGone(|pids|, stale, 0, named).pcs;
  }

  lemma {:induction false} OthersRefused(pids: seq<nat>, others: set<int>, stale: string, k: nat, named: nat)
    requires k <= |pids| && named < |pids| && Names(stale, pids[named])
    ensures var schedule := WithoutNamed(k, named);
            && IsSchedule(schedule, |pids|)
            && Run(pids, others, stale, schedule) == OthersGone(|pids|, stale, k, named)
  {
    hide Run, IsSchedule, Names, OthersGone, Block;
    if k == 0 {
      NobodyRan(pids, others, stale, named);
    } else {
      OthersRefused(pids, others, stale, k - 1, named);
      OneMoreGone(|pids|, stale, k, named);
      if k - 1 != named { BlockRefused(pids, others, stale, WithoutNamed(k - 1, named), k - 1, named); }
    }
  }

  /** The others are refused while the named contender has not yet exited, and then it refuses itself. */
  lemma NobodyGetsGuard(pids: seq<nat>, others: set<int>, stale: string, named: nat) returns (schedule: seq<nat>)
    requires named < |pids| && Names(stale, pids[named])
    ensures IsFair(schedule, |pids|) && forall i :: 0 <= i < |pids| ==> Run(pids, others, stale, schedule).pcs[i].Gone?
  {
    hide Run, Turns, IsSchedule, Names;
    var before := WithoutNamed(|pids|, named);
    OthersRefused(pids, others, stale, |pids|, named);
    BlockRefused(pids, others, stale, before, named, named);
    schedule := before + Block(named);
    forall i | 0 <= i < |pids| ensures Turns(schedule, i) >= 8 {
      BlockByBlock(|pids|, named, |pids|, i);
      TurnsOfBlock(named, i);
      TurnsAppend(before, Block(named), i);
    }
  }

  /** Every fair interleaving ends with exactly one guard if and only if the file names no running
      rebootnow: an instance that holds the guard keeps all contenders out, and a recycled pid can
      leave everybody out, its own process included. */
  lemma ExactlyOneGuard(pids: seq<nat>, others: set<int>, stale: string)
    requires Distinct(pids) && pids != []
    ensures NamesNoLive(stale, pids, others) <==>
            forall schedule :: IsFair(schedule, |pids|) ==> OneGuard(pids, Run(pids, others, stale, schedule))
  {
    hide Run, IsSchedule, Turns, Distinct, Names, NamesOther, Decimal;
    if NamesNoLive(stale, pids, others) {
      forall schedule | IsFair(schedule, |pids|) ensures OneGuard(pids, Run(pids, others, stale, schedule)) {
        var w := TakeoverCompletes(pids, others, stale, schedule);
      }
    } else {
      var schedule;
      if NamesOther(stale, others) {
        schedule := FairExists(|pids|);
        HolderKeepsOut(pids, others, stale, schedule);
      } else {
        var named :| 0 <= named < |pids| && Names(stale, pids[named]);
        schedule := NobodyGetsGuard(pids, others, stale, named);
      }
      var s := Run(pids, others, stale, schedule);
      forall w: nat ensures !SoleGuard(pids, s, w) {
        if w < |pids| { assert !s.pcs[w].Granted?; }
      }
    }
  }
}
