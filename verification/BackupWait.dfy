/** The wait for the log-backup sentinel: check, watch, check again, then read events until the
    sentinel is among them, interleaved in every way with whoever creates files in the directory. */
module BackupWait {

  const SENTINEL: string := ".backup_logs_done"
  const NAME_MAX: nat := 255
  const EVENT_HEADER: nat := 16
  const READ_BUFFER: nat := EVENT_HEADER + NAME_MAX + 1

  /** The bytes one event takes in the read buffer: the header and the name with its NUL, padded. */
  function EventSize(name: string): nat
  {
    if name == "" then EVENT_HEADER
    else EVENT_HEADER + (|name| + 1 + EVENT_HEADER - 1) / EVENT_HEADER * EVENT_HEADER
  }

  function Bytes(events: seq<string>): nat
  {
    if events == [] then 0 else Bytes(events[..|events| - 1]) + EventSize(events[|events| - 1])
  }

  /** How many queued events one read returns: as many whole ones as fit. */
  function Batch(queue: seq<string>, room: nat): (n: nat)
    ensures n <= |queue|
  {
    if queue == [] || EventSize(queue[0]) > room then 0
    else 1 + Batch(queue[1..], room - EventSize(queue[0]))
  }

  /** A name the file system can hold leaves room for at least one event in every read. */
  lemma ReadReturnsSomething(queue: seq<string>)
    requires queue != [] && |queue[0]| <= NAME_MAX
    ensures Batch(queue, READ_BUFFER) > 0
  {
  }

  /** The scan of one buffer, by byte offset. */
  method ScanBuffer(events: seq<string>) returns (found: bool)
    ensures found <==> SENTINEL in events
  {
    found := false;
    var len := Bytes(events);
    var offset, k := 0, 0;
    assert events[..|events|] == events;
    while offset < len
      invariant k <= |events| && offset == Bytes(events[..k])
      invariant SENTINEL !in events[..k]
      decreases |events| - k
    {
      assert k < |events|;
      var name := events[k];
      if name != "" && name == SENTINEL {
        found := true;
        break;
      }
      assert events[..k + 1][..k] == events[..k];
      offset := offset + EventSize(name);
      k := k + 1;
    }
    if !found && k < |events| {
      BytesGrow(events, k);
    }
  }

  lemma {:induction false} BytesGrow(events: seq<string>, k: nat)
    requires k < |events|
    ensures Bytes(events[..k]) < Bytes(events)
  {
    var last := |events| - 1;
    if k < last {
      BytesGrow(events[..last], k);
      assert events[..last][..k] == events[..k];
    }
  }

  // ----- the protocol

  datatype Outcome = Seen | Detected | TimedOut | GaveUp

  datatype Pc = FirstCheck | AddWatch | Recheck | LoopHead | Read | Done(outcome: Outcome)

  /** The sentinel's existence, the kernel's event queue and the waiter. */
  datatype State = State(created: bool, watched: bool, queue: seq<string>, pc: Pc)

  const START: State := State(false, false, [], FirstCheck)

  /** How a call of the waiter turns out: as hoped, in an error, interrupted or idle, past the deadline. */
  datatype Result = Success | Error | Idle | Deadline

  /** Somebody creates or moves in a file, or the waiter makes its next call. */
  datatype Action = Create(name: string) | Wait(result: Result)

  function AfterCreate(s: State, name: string): State
  {
    s.(created := s.created || name == SENTINEL, queue := if s.watched then s.queue + [name] else s.queue)
  }

  function AfterRead(s: State): State
  {
    var n := Batch(s.queue, READ_BUFFER);
    s.(queue := s.queue[n..], pc := if SENTINEL in s.queue[..n] then Done(Detected) else LoopHead)
  }

  function AfterWait(s: State, r: Result): State
  {
    match s.pc
    case FirstCheck => s.(pc := if s.created then Done(Seen) else AddWatch)
    case AddWatch => if r.Error? then s.(pc := Done(GaveUp)) else s.(watched := true, pc := Recheck)
    case Recheck =>
      if s.created then s.(pc := Done(Seen))
      else if r.Error? then s.(pc := Done(GaveUp))
      else s.(pc := LoopHead)
    case LoopHead =>
      // deadline, then select: readable only with an event in the queue
      if r.Deadline? then s.(pc := Done(TimedOut))
      else if r.Error? then s.(pc := Done(GaveUp))
      else if r.Idle? || s.queue == [] then s
      else s.(pc := Read)
    case Read => if r.Error? then s.(pc := LoopHead) else AfterRead(s)
    case Done(_) => s
  }

  function AfterAction(s: State, a: Action): State
  {
    match a
    case Create(name) => AfterCreate(s, name)
    case Wait(r) => AfterWait(s, r)
  }

  function AfterActions(s: State, actions: seq<Action>): State
  {
    if actions == [] then s
    else AfterAction(AfterActions(s, actions[..|actions| - 1]), actions[|actions| - 1])
  }

  ghost predicate NamesFit(actions: seq<Action>)
  {
    forall i :: 0 <= i < |actions| && actions[i].Create? ==> |actions[i].name| <= NAME_MAX
  }

  predicate Waiting(s: State) { s.pc.LoopHead? || s.pc.Read? }

  ghost predicate Inv(s: State)
  {
    && (s.pc.FirstCheck? || s.pc.AddWatch? ==> !s.watched)
    && (!s.watched ==> s.queue == [])
    && (s.pc.Recheck? || Waiting(s) ==> s.watched)
    && (Waiting(s) && s.created ==> SENTINEL in s.queue)
    && (SENTINEL in s.queue ==> s.created)
    && (s.pc == Done(Seen) || s.pc == Done(Detected) ==> s.created)
    && (s.pc.Read? ==> s.queue != [])
    && (forall i :: 0 <= i < |s.queue| ==> |s.queue[i]| <= NAME_MAX)
  }

  lemma StepKeepsInv(s: State, a: Action)
    requires Inv(s) && (a.Create? ==> |a.name| <= NAME_MAX)
    ensures Inv(AfterAction(s, a))
  {
    hide Batch;
    if a.Wait? && s.pc.Read? { ReadKeepsInv(s); }
  }

  lemma ReadKeepsInv(s: State)
    requires Inv(s) && s.pc.Read?
    ensures Inv(AfterRead(s))
  {
    hide Batch;
    var n := Batch(s.queue, READ_BUFFER);
    assert s.queue == s.queue[..n] + s.queue[n..];
  }

  lemma {:induction false} RunKeepsInv(actions: seq<Action>)
    requires NamesFit(actions)
    ensures Inv(AfterActions(START, actions))
  {
    if actions != [] {
      RunKeepsInv(actions[..|actions| - 1]);
      StepKeepsInv(AfterActions(START, actions[..|actions| - 1]), actions[|actions| - 1]);
    }
  }

  /** No lost wake-up: at the head of the loop a sentinel that exists still has its event in the
      queue, so select has something to report; and what is reported was really created. */
  lemma NoLostWakeUp(actions: seq<Action>)
    requires NamesFit(actions)
    ensures var s := AfterActions(START, actions);
            && (Waiting(s) && s.created ==> SENTINEL in s.queue)
            && (s.pc == Done(Detected) || s.pc == Done(Seen) ==> s.created)
  {
    RunKeepsInv(actions);
  }

  // ----- how soon the sentinel is detected

  /** The number of events in front of the first sentinel event. */
  function Ahead(queue: seq<string>): (n: nat)
    ensures SENTINEL in queue ==> n < |queue| && queue[n] == SENTINEL && SENTINEL !in queue[..n]
  {
    if queue == [] || queue[0] == SENTINEL then 0 else 1 + Ahead(queue[1..])
  }

  lemma {:induction false} AheadAfterMore(queue: seq<string>, name: string)
    requires SENTINEL in queue
    ensures Ahead(queue + [name]) == Ahead(queue)
  {
    if queue[0] != SENTINEL {
      assert (queue + [name])[1..] == queue[1..] + [name];
      AheadAfterMore(queue[1..], name);
    }
  }

  lemma {:induction false} AheadAfterDrop(queue: seq<string>, n: nat)
    requires SENTINEL in queue && n <= Ahead(queue)
    ensures SENTINEL in queue[n..] && Ahead(queue[n..]) == Ahead(queue) - n
  {
    if n > 0 {
      AheadAfterDrop(queue[1..], n - 1);
      assert queue[1..][n - 1..] == queue[n..];
    } else {
      assert queue[0..] == queue;
    }
  }

  /** Nobody gives up: no deadline and no error. */
  ghost predicate Patient(actions: seq<Action>)
  {
    forall i :: 0 <= i < |actions| && actions[i].Wait? ==> !actions[i].result.Deadline? && !actions[i].result.Error?
  }

  /** How many calls of the waiter turn out as hoped. */
  function Successes(actions: seq<Action>): nat
  {
    if actions == [] then 0
    else Successes(actions[..|actions| - 1]) + if actions[|actions| - 1] == Wait(Success) then 1 else 0
  }

  predicate Found(s: State) { s.pc == Done(Seen) || s.pc == Done(Detected) }

  /** How many successful calls the waiter needs once the sentinel exists. */
  function Needed(s: State): nat
  {
    match s.pc
    case FirstCheck => 1
    case AddWatch => 2
    case Recheck => 1
    case LoopHead => 2 * Ahead(s.queue) + 2
    case Read => 2 * Ahead(s.queue) + 1
    case Done(_) => 0
  }

  /** The sentinel exists, and the waiter has neither timed out nor given up. */
  ghost predicate OnItsWay(s: State)
  {
    Inv(s) && s.created && s.pc != Done(TimedOut) && s.pc != Done(GaveUp)
  }

  lemma StepApproaches(s: State, a: Action)
    requires OnItsWay(s) && (a.Create? ==> |a.name| <= NAME_MAX)
    requires a.Wait? ==> !a.result.Deadline? && !a.result.Error?
    ensures OnItsWay(AfterAction(s, a))
    ensures Needed(s) > 0 ==> Needed(AfterAction(s, a)) + (if a == Wait(Success) then 1 else 0) <= Needed(s)
    ensures Needed(s) == 0 ==> Needed(AfterAction(s, a)) == 0
  {
    hide Batch, Ahead;
    StepKeepsInv(s, a);
    if a.Create? {
      if Waiting(s) { AheadAfterMore(s.queue, a.name); }
    } else if s.pc.Read? {
      ReadReturnsSomething(s.queue);
      var n := Batch(s.queue, READ_BUFFER);
      if n <= Ahead(s.queue) { AheadAfterDrop(s.queue, n); } else { assert s.queue[..n][Ahead(s.queue)] == SENTINEL; }
    }
  }

  lemma {:induction false} RunApproaches(s: State, actions: seq<Action>)
    requires OnItsWay(s) && NamesFit(actions) && Patient(actions)
    ensures OnItsWay(AfterActions(s, actions))
    ensures Needed(AfterActions(s, actions)) == 0 || Needed(AfterActions(s, actions)) + Successes(actions) <= Needed(s)
  {
    if actions != [] {
      var before, a := actions[..|actions| - 1], actions[|actions| - 1];
      RunApproaches(s, before);
      hide Inv, AfterAction;
      StepApproaches(AfterActions(s, before), a);
    }
  }

  lemma NothingNeeded(s: State)
    requires OnItsWay(s) && Needed(s) == 0
    ensures Found(s)
  {
    match s.pc
    case Done(outcome) => assert outcome == Seen || outcome == Detected || outcome == TimedOut || outcome == GaveUp;
    case _ =>
  }

  /** A waiter that does not give up finds an existing sentinel after as many successful calls as it
      needs: two, a select and a read, for every event queued before the sentinel's, and two more. */
  lemma DetectedInTime(s: State, actions: seq<Action>)
    requires Inv(s) && Waiting(s) && s.created && NamesFit(actions) && Patient(actions)
    requires Successes(actions) >= 2 * (Ahead(s.queue) + 1)
    ensures AfterActions(s, actions).pc == Done(Detected)
  {
    RunApproaches(s, actions);
    StaysWaiting(s, actions);
    NothingNeeded(AfterActions(s, actions));
  }

  /** Who waits can no longer see the sentinel by a check. */
  lemma {:induction false} StaysWaiting(s: State, actions: seq<Action>)
    requires Waiting(s)
    ensures Waiting(AfterActions(s, actions)) || (AfterActions(s, actions).pc.Done? && AfterActions(s, actions).pc != Done(Seen))
  {
    if actions != [] { StaysWaiting(s, actions[..|actions| - 1]); }
  }

  function Creations(actions: seq<Action>): nat
  {
    if actions == [] then 0
    else Creations(actions[..|actions| - 1]) + if actions[|actions| - 1].Create? then 1 else 0
  }

  lemma {:induction false} QueueIsShort(actions: seq<Action>)
    ensures |AfterActions(START, actions).queue| <= Creations(actions)
  {
    if actions != [] { QueueIsShort(actions[..|actions| - 1]); }
  }

  lemma {:induction false} PatientNeverFails(actions: seq<Action>)
    requires Patient(actions)
    ensures var s := AfterActions(START, actions); s.pc != Done(TimedOut) && s.pc != Done(GaveUp)
  {
    if actions != [] {
      PatientNeverFails(actions[..|actions| - 1]);
      assert actions[|actions| - 1].Wait? ==> !actions[|actions| - 1].result.Error?;
    }
  }

  /** From the start: a waiter that does not give up finds the sentinel, by a check or by its event,
      after the sentinel's creation and two successful calls for every file created up to then. */
  lemma FoundAfterCreation(before: seq<Action>, after: seq<Action>)
    requires NamesFit(before) && Patient(before) && NamesFit(after) && Patient(after)
    requires Successes(after) >= 2 * (Creations(before) + 1)
    ensures Found(AfterActions(AfterActions(START, before + [Create(SENTINEL)]), after))
  {
    var start := before + [Create(SENTINEL)];
    assert start[..|before|] == before;
    assert |SENTINEL| <= NAME_MAX;
    RunKeepsInv(start);
    PatientNeverFails(start);
    QueueIsShort(start);
    var s := AfterActions(START, start);
    assert Creations(start) == Creations(before) + 1;
    hide AfterActions, Creations;
    RunApproaches(s, after);
    NothingNeeded(AfterActions(s, after));
  }

  /** Nobody waits for ever: once the deadline has passed, two more calls end the wait, and so does an
      error of the watch, the clock or select; only an error of read is no reason to stop. */
  lemma WaitEnds(s: State)
    ensures Waiting(s) ==> AfterWait(AfterWait(s, Deadline), Deadline).pc.Done?
    ensures s.pc.AddWatch? || s.pc.Recheck? || s.pc.LoopHead? ==> AfterWait(s, Error).pc.Done?
    ensures s.pc.Read? ==> Waiting(AfterWait(s, Error)) && AfterWait(s, Error).queue == s.queue
  {
  }

  /** A waiter that stops without the sentinel has met its deadline or an error. */
  lemma {:induction false} StopsForAReason(actions: seq<Action>)
    ensures var s := AfterActions(START, actions);
            && (s.pc == Done(TimedOut) ==> Wait(Deadline) in actions)
            && (s.pc == Done(GaveUp) ==> Wait(Error) in actions)
  {
    if actions != [] {
      var before := actions[..|actions| - 1];
      StopsForAReason(before);
      assert forall a :: a in before ==> a in actions;
      assert actions[|actions| - 1] in actions;
    }
  }
}
