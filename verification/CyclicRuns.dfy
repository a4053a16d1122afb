/** What the cyclic-reboot state machine keeps over whole histories of a device. */
module CyclicRuns {
  import opened CStrings
  import opened RecordText
  import opened RecordReading
  import opened PreviousRecord
  import opened Requests
  import opened CronTime
  import opened CyclicReboot

  // ----- agreement of the state

  /** The flag files, the counter, the published parameter and the scheduled entry tell one story. */
  ghost predicate Agrees(s: State)
  {
    && 0 <= Count(s) <= THRESHOLD
    && (s.rebootStop <==> s.stopRfc)
    && (s.rebootStop <==> s.cron.Some?)
    && (s.rebootStop ==> Count(s) == THRESHOLD && s.rebootNow)
    && (!s.rebootNow ==> Count(s) == 0 && s.info.None?)
  }

  ghost predicate Reachable(s: State)
  {
    exists events: seq<Event> :: s == AfterRun(FRESH, events)
  }

  lemma StepKeepsAgreement(s: State, e: Event)
    requires Agrees(s)
    ensures Agrees(AfterEvent(s, e))
  {
    hide ReadPrevious, Categorise, Text, EntryFor;
  }

  lemma {:induction false} RunKeepsAgreement(s: State, events: seq<Event>)
    requires Agrees(s)
    ensures Agrees(AfterRun(s, events))
  {
    if events != [] {
      RunKeepsAgreement(s, events[..|events| - 1]);
      StepKeepsAgreement(AfterRun(s, events[..|events| - 1]), events[|events| - 1]);
    }
  }

  /** State agreement in every reachable state, detection switched on and off at will. */
  lemma ReachableAgrees(s: State)
    requires Reachable(s)
    ensures Agrees(s)
  {
    var events: seq<Event> :| s == AfterRun(FRESH, events);
    RunKeepsAgreement(FRESH, events);
  }

  // ----- the switch

  /** With detection switched off the device never changes what it counts, stops, publishes or
      schedules, and every request reboots, whatever was on file before. */
  lemma {:induction false} SwitchedOffChangesNothing(s: State, events: seq<Event>)
    requires forall i :: 0 <= i < |events| && events[i].Ask? ==> events[i].q.detection == Some(false)
    ensures var s' := AfterRun(s, events);
            s'.counter == s.counter && s'.rebootStop == s.rebootStop && s'.stopRfc == s.stopRfc && s'.cron == s.cron
    ensures forall i :: 0 <= i < |events| && events[i].Ask? ==> Proceeds(Judge(AfterRun(s, events[..i]), events[i].q))
  {
    if events != [] {
      var before := events[..|events| - 1];
      SwitchedOffChangesNothing(s, before);
      SwitchedOffStep(AfterRun(s, before), events[|before|]);
      hide AfterEvent, Judge;
      forall i | 0 <= i < |events| && events[i].Ask? ensures Proceeds(Judge(AfterRun(s, events[..i]), events[i].q)) {
        if i < |before| { assert before[..i] == events[..i] && before[i] == events[i]; }
      }
    }
  }

  lemma SwitchedOffStep(s: State, e: Event)
    requires e.Ask? ==> e.q.detection == Some(false)
    ensures var s' := AfterEvent(s, e);
            s'.counter == s.counter && s'.rebootStop == s.rebootStop && s'.stopRfc == s.stopRfc && s'.cron == s.cron
    ensures e.Ask? ==> Proceeds(Judge(s, e.q))
  {
    hide Text, Repeats;
  }

  // ----- the handover

  /** A request's record waits through any number of failed renames and is handed over by the first
      boot that can rename it; from then on a boot records what it derives. */
  lemma {:induction false} HandoverWaits(s: State, q: Request, failed: seq<Event>, any: Record, derived: Record)
    requires forall i :: 0 <= i < |failed| ==> failed[i].RenameFails?
    ensures var file := Some(Text(RecordOf(q))); var waiting := AfterRun(AfterRequest(s, q), failed);
            && waiting.info == file
            && AfterBoot(waiting, any).previous == file && AfterBoot(waiting, any).info.None?
            && AfterBoot(AfterBoot(waiting, any), derived).previous == Some(Text(derived))
  {
    hide Text, Judge;
    if failed != [] { HandoverWaits(s, q, failed[..|failed| - 1], any, derived); }
  }

  // ----- the bound on a storm of equal requests

  /** A request of the storm: the cause, in the window, with detection on. */
  ghost predicate InStorm(q: Request, c: Cause)
  {
    CauseOf(q) == c && IsTimestamp(q.timestamp) && DetectionOn(q) && InWindow(q)
  }

  /** Requests of one cause, each followed by a boot or not. */
  type Storm = seq<(Request, Option<Record>)>

  ghost predicate IsStorm(storm: Storm, c: Cause)
  {
    forall i :: 0 <= i < |storm| ==> InStorm(storm[i].0, c)
  }

  ghost function AfterOne(s: State, item: (Request, Option<Record>)): State
  {
    var s' := AfterRequest(s, item.0);
    if item.1.Some? then AfterBoot(s', item.1.value) else s'
  }

  ghost function AfterStorm(s: State, storm: Storm): State
    decreases |storm|
  {
    if storm == [] then s else AfterStorm(AfterOne(s, storm[0]), storm[1..])
  }

  ghost predicate Passes(s: State, storm: Storm, k: nat)
    requires k < |storm|
  {
    Proceeds(Judge(AfterStorm(s, storm[..k]), storm[k].0))
  }

  ghost function Passed(s: State, storm: Storm): nat
    decreases |storm|
  {
    if storm == [] then 0
    else (if Proceeds(Judge(s, storm[0].0)) then 1 else 0) + Passed(AfterOne(s, storm[0]), storm[1..])
  }

  /** How many more requests of this cause the state lets through. */
  ghost function Budget(s: State, c: Cause): int
  {
    if !s.rebootNow || !Repeats(s.previous, c) then THRESHOLD + 1
    else if s.rebootStop then 0
    else THRESHOLD - Count(s)
  }

  lemma StormStep(s: State, item: (Request, Option<Record>), c: Cause)
    requires Agrees(s) && Fits(c) && InStorm(item.0, c)
    ensures Agrees(AfterOne(s, item))
    ensures Proceeds(Judge(s, item.0)) <==> Budget(s, c) > 0
    ensures Budget(AfterOne(s, item), c) == if Budget(s, c) > 0 then Budget(s, c) - 1 else 0
    ensures 0 <= Budget(s, c) <= 6
  {
    hide ReadPrevious, Categorise, Text, EntryFor;
    PrintThenRead(RecordOf(item.0));
    StepKeepsAgreement(s, Ask(item.0));
    var s' := AfterRequest(s, item.0);
    assert Repeats(s'.previous, c);
    if item.1.Some? { StepKeepsAgreement(s', Boots(item.1.value)); }
  }

  lemma {:induction false} StormDecides(s: State, storm: Storm, c: Cause, k: nat)
    requires Agrees(s) && Fits(c) && IsStorm(storm, c) && k < |storm|
    ensures Passes(s, storm, k) <==> k < Budget(s, c)
    decreases k
  {
    hide ReadPrevious, Categorise, AfterOne, Judge, Budget;
    StormStep(s, storm[0], c);
    if k == 0 {
      assert storm[..0] == [];
    } else {
      var s', rest := AfterOne(s, storm[0]), storm[1..];
      StormDecides(s', rest, c, k - 1);
      assert storm[..k][0] == storm[0] && storm[..k][1..] == rest[..k - 1] && rest[k - 1] == storm[k];
    }
  }

  lemma {:induction false} StormCount(s: State, storm: Storm, c: Cause)
    requires Agrees(s) && Fits(c) && IsStorm(storm, c)
    ensures 0 <= Budget(s, c) <= 6
    ensures Passed(s, storm) == if |storm| < Budget(s, c) then |storm| else Budget(s, c)
    decreases |storm|
  {
    hide ReadPrevious, Categorise, AfterOne, Judge;
    if storm != [] {
      StormStep(s, storm[0], c);
      StormCount(AfterOne(s, storm[0]), storm[1..], c);
    }
  }

  /** The loop bound: from every reachable state any number of requests with one cause that fits
      lets the first few through, at most six, and defers every later one; exactly six when the
      record on file is another. */
  lemma LoopBound(s: State, storm: Storm, c: Cause)
    requires Reachable(s) && Fits(c) && IsStorm(storm, c)
    ensures forall k :: 0 <= k < |storm| ==> (Passes(s, storm, k) <==> k < Budget(s, c))
    ensures Passed(s, storm) == if |storm| < Budget(s, c) then |storm| else Budget(s, c)
    ensures 0 <= Budget(s, c) <= 6
    ensures !Repeats(s.previous, c) ==> Budget(s, c) == 6
  {
    ReachableAgrees(s);
    forall k | 0 <= k < |storm| ensures Passes(s, storm, k) <==> k < Budget(s, c) {
      StormDecides(s, storm, c, k);
    }
    StormCount(s, storm, c);
  }

  /** The bound needs a cause that fits: one that does not is never deferred, however often it comes. */
  lemma UnfitCauseNeverDeferred(s: State, q: Request)
    requires !Fits(CauseOf(q))
    ensures Proceeds(Judge(s, q)) && Judge(s, q) != Counted
  {
    hide Categorise;
  }

  // ----- the scheduled exit

  ghost predicate IsScheduledRequest(q: Request)
  {
    q.source == CRON_SOURCE && q.customReason == "Unknown" && q.otherReason == CRON_OTHER
  }

  /** Out of the loop: nothing is counted, stopped, published or scheduled. */
  ghost predicate AllClear(s: State)
  {
    !s.rebootStop && !s.stopRfc && s.cron.None? && Count(s) == 0
  }

  /** In a stop state with detection on, the scheduled request goes through and clears everything
      unless it comes in the window and the record on file is that very request. */
  lemma ScheduledExit(s: State, q: Request)
    requires Reachable(s) && s.rebootStop && DetectionOn(q) && IsScheduledRequest(q)
    ensures CauseOf(q).reason == "OPS_TRIGGERED"
    ensures Proceeds(Judge(s, q)) <==> !(InWindow(q) && Repeats(s.previous, CauseOf(q)))
    ensures Proceeds(Judge(s, q)) ==> AllClear(AfterRequest(s, q))
  {
    ReachableAgrees(s);
    ScheduledRequestIsOps();
    hide ReadPrevious, Categorise, Text, EntryFor;
  }

  /** The uptime at which an entry written at second `sec` of minute `now` fires. */
  function UptimeWhenDue(q: Request, sec: int, t: int): int
  {
    q.uptime + 60 * t - (60 * (60 * q.hour + q.minute) + sec)
  }

  /** From a pause of ten minutes on the first firing lies outside the window, and after any pause
      every firing from the second day on, so that the scheduled request goes through whatever is on
      file: the device always leaves stop mode. */
  lemma PauseOutlastsWindow(s: State, halted: Request, sec: int, t: int, q: Request, later: State)
    requires Reachable(s) && Judge(s, halted) == Halted
    requires 0 <= sec < 60 && 60 * halted.hour + halted.minute < t
    requires Due(AfterRequest(s, halted).cron.value, t)
    requires q.uptime == UptimeWhenDue(halted, sec, t)
    requires StopMinutes(halted.duration) >= 10 || 60 * halted.hour + halted.minute + DAY < t
    requires later.rebootNow && DetectionOn(q)
    ensures Judge(later, q) == Unrelated && AllClear(AfterRequest(later, q))
  {
    hide ReadPrevious, Categorise, Text, EntryFor;
    var now, d := 60 * halted.hour + halted.minute, StopMinutes(halted.duration);
    assert AfterRequest(s, halted).cron == Some(EntryFor(now, d));
    FirstFiring(now, d, t);
  }

  lemma ScheduledCauseFits(q: Request)
    requires IsScheduledRequest(q)
    ensures Fits(CauseOf(q))
  {
    ScheduledRequestIsOps();
    hide Categorise, Plain;
    PlainTexts();
    CronOtherPlain();
  }

  lemma PlainTexts()
    ensures Plain("Unknown") && Plain(CRON_SOURCE) && Plain("OPS_TRIGGERED")
  {
  }

  lemma CronOtherPlain()
    ensures Plain(CRON_OTHER)
  {
    assert Plain("Rebooting device") && Plain(" after expiry of");
    assert Plain(" Cyclic reboot") && Plain(" pause window");
  }

  function Repeated(q: Request, n: nat): seq<Event> { seq(n, _ => Ask(q)) }

  /** Six equal requests on a fresh device climb to the threshold without stopping it. */
  lemma {:induction false} ClimbToThreshold(q: Request, n: nat)
    requires 1 <= n <= 6 && Fits(CauseOf(q)) && InStorm(q, CauseOf(q))
    ensures var s := AfterRun(FRESH, Repeated(q, n));
            s.rebootNow && !s.rebootStop && Count(s) == n - 1 && Repeats(s.previous, CauseOf(q))
  {
    hide ReadPrevious, Categorise, Text, EntryFor, Fits;
    PrintThenRead(RecordOf(q));
    assert Repeated(q, n)[..n - 1] == Repeated(q, n - 1);
    if n == 1 {
      assert Repeated(q, 0) == [];
    } else {
      ClimbToThreshold(q, n - 1);
    }
  }

  /** The seventh such request halts the device, so stop states are reached. */
  lemma SeventhRequestHalts(q: Request)
    requires Fits(CauseOf(q)) && InStorm(q, CauseOf(q))
    ensures Reachable(AfterRun(FRESH, Repeated(q, 6))) && Judge(AfterRun(FRESH, Repeated(q, 6)), q) == Halted
  {
    hide ReadPrevious, Categorise, Text, EntryFor, Fits;
    ClimbToThreshold(q, 6);
  }

  /** Nine minutes are not enough: a scheduled request that loops by itself is halted, and its own
      first firing still falls in the window and is held. */
  lemma ShortPauseCanHold(q: Request, due: Request)
    requires IsScheduledRequest(q) && IsTimestamp(q.timestamp) && DetectionOn(q) && q.uptime == 0
    requires StopMinutes(q.duration) <= 9
    requires due == q.(uptime := UptimeWhenDue(q, 0, 60 * q.hour + q.minute + StopMinutes(q.duration) + 1))
    ensures var s := AfterRun(FRESH, Repeated(q, 6)); var t := 60 * q.hour + q.minute + StopMinutes(q.duration) + 1;
            && Reachable(s) && Judge(s, q) == Halted
            && AfterRequest(s, q).cron.Some? && Due(AfterRequest(s, q).cron.value, t)
            && Judge(AfterRequest(s, q), due) == Held
  {
    hide ReadPrevious, Categorise, Text, EntryFor, Fits, AfterRun, IsScheduledRequest;
    ScheduledCauseFits(q);
    SeventhRequestHalts(q);
    PrintThenRead(RecordOf(q));
    FirstFiring(60 * q.hour + q.minute, StopMinutes(q.duration), 0);
    assert CauseOf(due) == CauseOf(q);
  }

  // ----- which files can be taken for a request's

  /** The file reads like a request: its reason is the category of its own source and custom reason. */
  predicate Countable(file: string)
  {
    var c := ReadPrevious(file);
    c.Some? && c.value.reason == CategoryText(Categorise(c.value.source, c.value.customReason))
  }

  /** A request with the cause that stands in a countable file. */
  function RequestIn(file: string): (q: Request)
    requires Countable(file)
  {
    var c := ReadPrevious(file).value;
    Request(c.source, c.customReason, c.otherReason, "", 0, None, None, 0, 0)
  }

  /** The test decides whether any request at all can find its own cause in the file. */
  lemma CountableExactly(file: string)
    ensures Countable(file) <==> exists q: Request :: Repeats(Some(file), CauseOf(q))
    ensures Countable(file) ==> Repeats(Some(file), CauseOf(RequestIn(file)))
  {
    hide ReadPrevious, Categorise;
    if Countable(file) { assert Repeats(Some(file), CauseOf(RequestIn(file))); }
  }

  /** From every reachable state, a boot that derives a record breaks the loop for every request with
      detection on, which is neither counted nor deferred and clears everything, exactly when the
      record is not countable. */
  lemma DerivedRecordBreaksLoop(s: State, derived: Record)
    requires Reachable(s) && s.rebootNow && s.info.None?
    ensures !Countable(Text(derived)) <==>
            forall q :: DetectionOn(q) ==> Judge(AfterBoot(s, derived), q) == Unrelated && AllClear(AfterRequest(AfterBoot(s, derived), q))
  {
    CountableExactly(Text(derived));
    hide ReadPrevious, Categorise, Text, EntryFor, Countable;
    if Countable(Text(derived)) {
      var q := RequestIn(Text(derived));
      assert DetectionOn(q) && Judge(AfterBoot(s, derived), q) != Unrelated;
    }
  }

  /** What a failed rename leaves on file is no request's. */
  lemma BareStampNotCountable(ts: string)
    requires IsTimestamp(ts)
    ensures !Countable(Text(Record(ts, NO_CAUSE)))
  {
    hide ReadPrevious, Categorise, Text;
    PrintThenReadPlain(Record(ts, NO_CAUSE));
  }

  // ----- what the counter says about the past

  /** The request finds its own cause on file, in the window, on a device that has seen a request. */
  ghost predicate Recurs(s: State, q: Request)
  {
    s.rebootNow && InWindow(q) && Repeats(s.previous, CauseOf(q))
  }

  /** How many of the latest requests recurred, one after the other. */
  ghost function Recurrences(events: seq<Event>): nat
  {
    if events == [] then 0
    else
      var before, e := events[..|events| - 1], events[|events| - 1];
      if !e.Ask? then Recurrences(before)
      else if Recurs(AfterRun(FRESH, before), e.q) then Recurrences(before) + 1
      else 0
  }

  ghost predicate DetectionAlwaysOn(events: seq<Event>)
  {
    forall i :: 0 <= i < |events| && events[i].Ask? ==> DetectionOn(events[i].q)
  }

  lemma RequestCounts(s: State, q: Request, n: nat)
    requires Agrees(s) && DetectionOn(q)
    requires Count(s) == (if n < THRESHOLD then n else THRESHOLD) && (s.rebootStop <==> n > THRESHOLD)
    ensures var s', m := AfterRequest(s, q), if Recurs(s, q) then n + 1 else 0;
            Count(s') == (if m < THRESHOLD then m else THRESHOLD) && (s'.rebootStop <==> m > THRESHOLD)
  {
    hide ReadPrevious, Categorise, Text, EntryFor, Repeats;
  }

  /** With detection on, the counter is the number of recurrences up to five, and the device is
      stopped exactly from the sixth on: for every run, whatever the texts and derived records. */
  lemma {:induction false} CounterIsExact(events: seq<Event>)
    requires DetectionAlwaysOn(events)
    ensures var s, n := AfterRun(FRESH, events), Recurrences(events);
            Count(s) == (if n < THRESHOLD then n else THRESHOLD) && (s.rebootStop <==> n > THRESHOLD)
  {
    if events != [] {
      var before := events[..|events| - 1];
      CounterIsExact(before);
      RunKeepsAgreement(FRESH, before);
      hide AfterRequest, Text, Recurs, Agrees;
      var e := events[|events| - 1];
      if e.Ask? { RequestCounts(AfterRun(FRESH, before), e.q, Recurrences(before)); }
    }
  }

  /** The requests of a run, oldest first. */
  ghost function Asked(events: seq<Event>): seq<Request>
  {
    if events == [] then []
    else
      var rest, e := Asked(events[..|events| - 1]), events[|events| - 1];
      if e.Ask? then rest + [e.q] else rest
  }

  /** The last k + 1 requests have one cause, and the last k of them came in the window. */
  ghost predicate Streak(asked: seq<Request>, k: int)
  {
    && 0 <= k < |asked|
    && (forall i :: |asked| - k - 1 <= i < |asked| ==> CauseOf(asked[i]) == CauseOf(asked[|asked| - 1]))
    && (forall i :: |asked| - k <= i < |asked| ==> InWindow(asked[i]))
  }

  /** The record this request files reads as the request itself, or as none. */
  predicate Unmistakable(q: Request)
  {
    Countable(Text(RecordOf(q))) ==> ReadPrevious(Text(RecordOf(q))) == Some(CauseOf(q))
  }

  /** An event after which the file on record is the last request's or no request's. */
  predicate Regular(e: Event)
  {
    match e
    case Ask(q) => DetectionOn(q) && Unmistakable(q)
    case Boots(derived) => !Countable(Text(derived))
    case RenameFails(ts) => !Countable(Text(Record(ts, NO_CAUSE)))
  }

  predicate RegularRun(events: seq<Event>) { forall i :: 0 <= i < |events| ==> Regular(events[i]) }

  ghost predicate NoRequests(previous: Option<string>) { previous.Some? ==> !Countable(previous.value) }

  /** What ties the state to the requests so far. */
  ghost predicate Remembers(s: State, asked: seq<Request>)
  {
    if asked == [] then !s.rebootNow && Count(s) == 0 && !s.rebootStop && s.info.None?
    else
      var file := Some(Text(RecordOf(asked[|asked| - 1])));
      && s.rebootNow && Unmistakable(asked[|asked| - 1])
      && (s.info.Some? ==> s.info == file)
      && (s.previous == file || NoRequests(s.previous))
      && Streak(asked, Count(s)) && Count(s) <= THRESHOLD
      && (s.rebootStop ==> Count(s) == THRESHOLD)
  }

  lemma StreakShrinks(asked: seq<Request>, k: int, j: int)
    requires Streak(asked, k) && 0 <= j <= k
    ensures Streak(asked, j)
  {
  }

  lemma StreakGrows(asked: seq<Request>, k: int, q: Request)
    requires Streak(asked, k) && InWindow(q) && CauseOf(q) == CauseOf(asked[|asked| - 1])
    ensures Streak(asked + [q], k + 1)
  {
    hide Categorise;
    var all := asked + [q];
    forall i | |all| - k - 2 <= i < |all| ensures CauseOf(all[i]) == CauseOf(q) {
      if i < |asked| { assert all[i] == asked[i]; }
    }
  }

  /** The record on file is the last request's, if it is any request's. */
  lemma RepeatsTheLast(s: State, asked: seq<Request>, q: Request)
    requires Remembers(s, asked) && asked != [] && Repeats(s.previous, CauseOf(q))
    ensures CauseOf(q) == CauseOf(asked[|asked| - 1])
  {
    hide ReadPrevious, Categorise, Text, Streak;
    CountableExactly(s.previous.value);
  }

  lemma AskRemembers(s: State, asked: seq<Request>, q: Request)
    requires Remembers(s, asked) && DetectionOn(q) && Unmistakable(q)
    ensures Remembers(AfterRequest(s, q), asked + [q])
  {
    hide ReadPrevious, Categorise, Text, EntryFor, Streak, Repeats, Unmistakable;
    var all := asked + [q];
    assert all[|all| - 1] == q;
    assert Streak(all, 0) by { StreakOfOne(all); }
    StreakBounds(asked, Count(s));
    if asked != [] && InWindow(q) && Repeats(s.previous, CauseOf(q)) {
      RepeatsTheLast(s, asked, q);
      StreakGrows(asked, Count(s), q);
      StreakShrinks(all, Count(s) + 1, Count(s));
    }
  }

  lemma StreakOfOne(asked: seq<Request>)
    requires asked != []
    ensures Streak(asked, 0)
  {
    hide CauseOf, InWindow;
  }

  lemma StreakBounds(asked: seq<Request>, k: int)
    requires asked != [] ==> Streak(asked, k)
    ensures asked != [] ==> 0 <= k < |asked|
  {
  }

  lemma {:induction false} RunRemembers(events: seq<Event>)
    requires RegularRun(events)
    ensures Remembers(AfterRun(FRESH, events), Asked(events))
  {
    if events != [] {
      var before, e := events[..|events| - 1], events[|events| - 1];
      assert Regular(e);
      RunRemembers(before);
      var s := AfterRun(FRESH, before);
      hide Countable, Unmistakable, Text, Streak, AfterRequest, AfterBoot, AfterFailedRename, Remembers;
      match e {
        case Ask(q) => AskRemembers(s, Asked(before), q);
        case Boots(derived) => BootRemembers(s, Asked(before), derived);
        case RenameFails(ts) => FailedRenameRemembers(s, Asked(before), ts);
      }
    }
  }

  lemma BootRemembers(s: State, asked: seq<Request>, derived: Record)
    requires Remembers(s, asked) && !Countable(Text(derived))
    ensures Remembers(AfterBoot(s, derived), asked)
  {
    hide Countable, Unmistakable, Text, Streak;
  }

  lemma FailedRenameRemembers(s: State, asked: seq<Request>, ts: string)
    requires Remembers(s, asked) && !Countable(Text(Record(ts, NO_CAUSE)))
    ensures Remembers(AfterFailedRename(s, ts), asked)
  {
    hide Countable, Unmistakable, Text, Streak;
  }

  /** History soundness: in every regular run the counter is a lower bound on the length of the
      current streak of equal requests in the window. */
  lemma CounterIsEarned(events: seq<Event>)
    requires RegularRun(events) && Asked(events) != []
    ensures Streak(Asked(events), Count(AfterRun(FRESH, events)))
  {
    RunRemembers(events);
  }

  /** A deferred request is at least the seventh of its kind in a row, six of them in the window. */
  lemma DeferralIsEarned(events: seq<Event>, q: Request)
    requires RegularRun(events) && !Proceeds(Judge(AfterRun(FRESH, events), q))
    ensures Streak(Asked(events) + [q], 6)
  {
    hide ReadPrevious, Categorise, Text, Streak, Repeats, AfterRun, Asked, Unmistakable;
    var s, asked := AfterRun(FRESH, events), Asked(events);
    RunRemembers(events);
    StreakBounds(asked, Count(s));
    RepeatsTheLast(s, asked, q);
    StreakGrows(asked, Count(s), q);
    StreakShrinks(asked + [q], Count(s) + 1, 6);
  }

  // ----- without these conditions the counter counts what was never requested

  /** The counter has been earned by equal requests. */
  ghost predicate Earned(events: seq<Event>)
  {
    Asked(events) != [] ==> Streak(Asked(events), Count(AfterRun(FRESH, events)))
  }

  /** One request so far, nothing counted yet. */
  ghost predicate OneAsked(events: seq<Event>, first: Request)
  {
    var s := AfterRun(FRESH, events);
    s.rebootNow && Count(s) == 0 && !s.rebootStop && Asked(events) == [first]
  }

  lemma RunStep(events: seq<Event>, e: Event)
    ensures AfterRun(FRESH, events + [e]) == AfterEvent(AfterRun(FRESH, events), e)
    ensures Asked(events + [e]) == if e.Ask? then Asked(events) + [e.q] else Asked(events)
  {
    assert (events + [e])[..|events|] == events;
  }

  lemma FirstRequest(first: Request)
    ensures OneAsked([Ask(first)], first)
    ensures AfterRun(FRESH, [Ask(first)]).previous == AfterRun(FRESH, [Ask(first)]).info == Some(Text(RecordOf(first)))
  {
    hide Text, Repeats, Categorise, EntryFor;
    RunStep([], Ask(first));
    assert [] + [Ask(first)] == [Ask(first)];
  }

  /** A request that finds its own cause on file is counted, although the one before it had another. */
  lemma CountedAlone(events: seq<Event>, first: Request, second: Request)
    requires OneAsked(events, first) && DetectionOn(second) && InWindow(second)
    requires Repeats(AfterRun(FRESH, events).previous, CauseOf(second)) && CauseOf(first) != CauseOf(second)
    ensures var all := events + [Ask(second)];
            Asked(all) == [first, second] && Count(AfterRun(FRESH, all)) == 1 && !Earned(all)
  {
    hide ReadPrevious, Categorise, Text, EntryFor, CauseOf, Repeats, AfterRun, Asked;
    RunStep(events, Ask(second));
    assert [first] + [second] == [first, second];
    assert [first, second][0] == first && [first, second][1] == second;
  }

  /** A request whose record reads as another request lets that one be counted at once. */
  lemma MistakenRequestIsCounted(first: Request, second: Request)
    requires ReadPrevious(Text(RecordOf(first))) == Some(CauseOf(second)) && CauseOf(first) != CauseOf(second)
    requires DetectionOn(second) && InWindow(second)
    ensures var events := [Ask(first), Ask(second)];
            Asked(events) == [first, second] && Count(AfterRun(FRESH, events)) == 1 && !Earned(events)
  {
    hide ReadPrevious, Categorise, Text, AfterRun, Asked, CauseOf, Earned, OneAsked;
    FirstRequest(first);
    CountedAlone([Ask(first)], first, second);
    assert [Ask(first)] + [Ask(second)] == [Ask(first), Ask(second)];
  }

  /** For one, a text longer than its buffer is taken for its first 255 characters. */
  lemma LongTextIsCounted(first: Request, second: Request)
    requires IsTimestamp(first.timestamp) && Plain(first.otherReason) && 256 <= |first.otherReason| < 3000
    requires second.source == first.source && second.customReason == first.customReason
    requires second.otherReason == first.otherReason[..255]
    requires Fits(CauseOf(second)) && DetectionOn(second) && InWindow(second)
    ensures var events := [Ask(first), Ask(second)];
            Asked(events) == [first, second] && Count(AfterRun(FRESH, events)) == 1 && !Earned(events)
  {
    hide ReadPrevious, Categorise, Text, AfterRun, Asked, Earned, Plain;
    PrintThenReadPlain(RecordOf(first));
    MistakenRequestIsCounted(first, second);
  }

  /** For another, a text with a quote is taken for what stands before the quote. */
  lemma QuotedTextIsCounted(first: Request, second: Request, rest: string)
    requires IsTimestamp(first.timestamp) && first.otherReason == second.otherReason + [QUOTE] + rest
    requires second.source == first.source && second.customReason == first.customReason
    requires Fits(CauseOf(second)) && DetectionOn(second) && InWindow(second)
    ensures var events := [Ask(first), Ask(second)];
            Asked(events) == [first, second] && Count(AfterRun(FRESH, events)) == 1 && !Earned(events)
  {
    hide ReadPrevious, Categorise, Text, AfterRun, Asked, Earned, Plain;
    LastFieldCutAtQuote(RecordOf(first), second.otherReason, rest);
    assert |first.otherReason| != |second.otherReason|;
    MistakenRequestIsCounted(first, second);
  }

  /** A boot that derives a countable record, after one that handed the last request over. */
  lemma DerivedCauseIsCounted(first: Request, second: Request, any: Record, derived: Record)
    requires Repeats(Some(Text(derived)), CauseOf(second)) && CauseOf(first) != CauseOf(second)
    requires DetectionOn(second) && InWindow(second)
    ensures var events := [Ask(first), Boots(any), Boots(derived), Ask(second)];
            Asked(events) == [first, second] && Count(AfterRun(FRESH, events)) == 1 && !Earned(events)
  {
    hide ReadPrevious, Categorise, Text, AfterRun, Asked, CauseOf, Earned, Repeats;
    FirstRequest(first);
    RunStep([Ask(first)], Boots(any));
    assert [Ask(first)] + [Boots(any)] == [Ask(first), Boots(any)];
    RunStep([Ask(first), Boots(any)], Boots(derived));
    assert [Ask(first), Boots(any)] + [Boots(derived)] == [Ask(first), Boots(any), Boots(derived)];
    var events := [Ask(first), Boots(any), Boots(derived)];
    CountedAlone(events, first, second);
    assert events + [Ask(second)] == [Ask(first), Boots(any), Boots(derived), Ask(second)];
  }

  lemma BareStampIsCounted(first: Request, second: Request, ts: string)
    requires Repeats(Some(Text(Record(ts, NO_CAUSE))), CauseOf(second)) && CauseOf(first) != CauseOf(second)
    requires DetectionOn(second) && InWindow(second)
    ensures var events := [Ask(first), RenameFails(ts), Ask(second)]; !Earned(events)
  {
    hide ReadPrevious, Categorise, Text, AfterRun, Asked, CauseOf, Earned, Repeats;
    FirstRequest(first);
    RunStep([Ask(first)], RenameFails(ts));
    assert [Ask(first)] + [RenameFails(ts)] == [Ask(first), RenameFails(ts)];
    CountedAlone([Ask(first), RenameFails(ts)], first, second);
    assert [Ask(first), RenameFails(ts)] + [Ask(second)] == [Ask(first), RenameFails(ts), Ask(second)];
  }

  // ----- history soundness exactly

  /** An ordinary request: its fields fit and detection is on. */
  predicate IsOrdinary(q: Request) { DetectionOn(q) && Fits(CauseOf(q)) && IsTimestamp(q.timestamp) }

  /** What may happen to a device whose detection is on: all ordinary requests, and any other
      requests, boots and failed renames one likes. */
  ghost predicate IsRepertoire(r: iset<Event>)
  {
    && (forall q :: Ask(q) in r ==> DetectionOn(q))
    && (forall q :: IsOrdinary(q) ==> Ask(q) in r)
  }

  ghost predicate RunOf(events: seq<Event>, r: iset<Event>)
  {
    forall i :: 0 <= i < |events| ==> events[i] in r
  }

  /** Two ordinary requests, the second with the cause on file, the first with another. */
  lemma TwoOrdinary(file: string) returns (first: Request, second: Request)
    requires Countable(file)
    ensures IsOrdinary(first) && IsOrdinary(second) && InWindow(second)
    ensures ReadPrevious(file) == Some(CauseOf(second)) && CauseOf(first) != CauseOf(second)
  {
    CountableExactly(file);
    hide Categorise, CategoryText, ReadPrevious;
    second := RequestIn(file);
    first := second.(otherReason := if second.otherReason == "a" then "b" else "a");
  }

  lemma IrregularIsCounted(e: Event, r: iset<Event>) returns (events: seq<Event>)
    requires IsRepertoire(r) && e in r && !Regular(e)
    ensures RunOf(events, r) && !Earned(events)
  {
    hide ReadPrevious, Categorise, Text, AfterRun, Asked, CauseOf, Earned, Countable, Fits, IsTimestamp;
    match e {
      case Ask(q) =>
        var _, second := TwoOrdinary(Text(RecordOf(q)));
        MistakenRequestIsCounted(q, second);
        events := [Ask(q), Ask(second)];
      case Boots(derived) =>
        var first, second := TwoOrdinary(Text(derived));
        DerivedCauseIsCounted(first, second, derived, derived);
        events := [Ask(first), Boots(derived), Boots(derived), Ask(second)];
      case RenameFails(ts) =>
        var first, second := TwoOrdinary(Text(Record(ts, NO_CAUSE)));
        BareStampIsCounted(first, second, ts);
        events := [Ask(first), RenameFails(ts), Ask(second)];
    }
  }

  /** History soundness exactly: over all runs of a repertoire the counter is earned if and only if
      every event is regular, that is, every request's record reads as that request or as none, and
      no record a boot leaves reads like a request. */
  lemma EarnedExactly(r: iset<Event>)
    requires IsRepertoire(r)
    ensures (forall e :: e in r ==> Regular(e)) <==> (forall events :: RunOf(events, r) ==> Earned(events))
  {
    hide Regular, Earned, IsRepertoire;
    if forall e :: e in r ==> Regular(e) {
      forall events | RunOf(events, r) ensures Earned(events) { EarnedWhenRegular(events); }
    } else {
      var e :| e in r && !Regular(e);
      var events := IrregularIsCounted(e, r);
    }
  }

  lemma EarnedWhenRegular(events: seq<Event>)
    requires RegularRun(events)
    ensures Earned(events)
  {
    hide AfterRun, Asked, Streak, Regular;
    if Asked(events) != [] { CounterIsEarned(events); }
  }

  /** A request without quotes whose source and custom reason fit can be mistaken exactly when its
      text is too long for its buffer and the record still fits the reader's. */
  lemma PlainUnmistakable(q: Request)
    requires PlainRecord(RecordOf(q)) && |q.source| < 128 && |q.customReason| < 128
    ensures Unmistakable(q) <==> |q.otherReason| < 256 || ValueSize(RecordOf(q)) >= 4017
  {
    hide ReadPrevious, Categorise, Text, Plain;
    PrintThenReadPlain(RecordOf(q));
  }

  /** Ordinary requests and failed renames are regular, so only the others need a look. */
  lemma OrdinaryIsRegular(q: Request, ts: string)
    requires IsOrdinary(q) && IsTimestamp(ts)
    ensures Regular(Ask(q)) && Regular(RenameFails(ts))
  {
    hide ReadPrevious, Categorise, Text, Countable, Fits;
    PrintThenRead(RecordOf(q));
    BareStampNotCountable(ts);
  }
}
