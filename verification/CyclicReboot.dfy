/** The cyclic-reboot state machine: what rebootnow keeps in files between requests, the decision
    of handle_cyclic_reboot, the part of main around it, and the boot that prepares the next one. */
module CyclicReboot {
  import opened CStrings
  import opened RecordText
  import opened PreviousRecord
  import opened Requests
  import opened CronTime

  const THRESHOLD: int := 5
  const WINDOW_SECS: int := 600

  /** One invocation of rebootnow, with what it reads from the platform. A parameter that could
      not be read is None; an uptime that could not be read is negative. */
  datatype Request = Request(
    source: string, customReason: string, otherReason: string, timestamp: string,
    uptime: int, detection: Option<bool>, duration: Option<int>, hour: Hour, minute: Minute)

  function CauseOf(q: Request): Cause
  {
    Cause(q.source, CategoryText(Categorise(q.source, q.customReason)), q.customReason, q.otherReason)
  }

  predicate DetectionOn(q: Request) { q.detection.None? || q.detection.value }

  predicate InWindow(q: Request) { 0 <= q.uptime <= WINDOW_SECS }

  /** The persistent state: flag files, counter file, the two record files, the published stop
      parameter and the scheduled entry. */
  datatype State = State(
    rebootNow: bool, rebootStop: bool, counter: Option<int>,
    previous: Option<string>, info: Option<string>, stopRfc: bool, cron: Option<Entry>)

  const FRESH: State := State(false, false, None, None, None, false, None)

  function Count(s: State): int { if s.counter.Some? then s.counter.value else 0 }

  /** The pause a request asks for: its parameter between one minute and a day, else half an hour. */
  function PauseOf(q: Request): int
  {
    match q.duration
    case None => 30
    case Some(d) => if d <= 0 || d >= 1440 then 30 else d
  }

  /** The file on record describes exactly this cause. */
  ghost predicate Repeats(previous: Option<string>, c: Cause)
  {
    previous.Some? && ReadPrevious(previous.value) == Some(c)
  }

  /** What a request amounts to. */
  datatype Verdict = Unchecked | Unrelated | Counted | Halted | Held

  predicate Proceeds(v: Verdict) { v != Halted && v != Held }

  ghost function Judge(s: State, q: Request): Verdict
  {
    if !s.rebootNow || !DetectionOn(q) then Unchecked
    else if !InWindow(q) || !Repeats(s.previous, CauseOf(q)) then Unrelated
    else if s.rebootStop then Held
    else if Count(s) >= THRESHOLD then Halted
    else Counted
  }

  function ScheduledFor(q: Request): Entry { EntryFor(60 * q.hour + q.minute, StopMinutes(q.duration)) }

  /** The state a verdict leaves behind. */
  function AfterVerdict(s: State, v: Verdict, q: Request): State
  {
    match v
    case Unchecked => s
    case Unrelated => s.(rebootNow := false, rebootStop := false, counter := Some(0), stopRfc := false, cron := None)
    case Counted => s.(rebootNow := false, counter := Some(Count(s) + 1))
    case Halted => s.(rebootNow := true, rebootStop := true, stopRfc := true, cron := Some(ScheduledFor(q)))
    case Held => s.(rebootNow := true)
  }

  /** One boot: the fetcher hands reboot.info over or, without one, records what it derived. */
  function AfterBoot(s: State, derived: Record): State
  {
    if s.info.Some? then s.(previous := s.info, info := None)
    else s.(previous := Some(Text(derived)))
  }

  const NO_CAUSE: Cause := Cause("", "", "", "")

  /** One boot whose rename fails for another reason than a missing file: a bare timestamp is recorded. */
  function AfterFailedRename(s: State, timestamp: string): State
  {
    s.(previous := Some(Text(Record(timestamp, NO_CAUSE))))
  }

  /** The record a request prints. */
  function RecordOf(q: Request): Record { Record(q.timestamp, CauseOf(q)) }

  /** One request: its record is filed twice, around the decision, and the flag marks the reboot. */
  ghost function AfterRequest(s: State, q: Request): State
  {
    var file := Some(Text(RecordOf(q)));
    var s' := AfterVerdict(s.(info := file), Judge(s, q), q);
    s'.(previous := file, rebootNow := true)
  }

  datatype Event = Ask(q: Request) | Boots(derived: Record) | RenameFails(timestamp: string)

  ghost function AfterEvent(s: State, e: Event): State
  {
    match e
    case Ask(q) => AfterRequest(s, q)
    case Boots(derived) => AfterBoot(s, derived)
    case RenameFails(ts) => AfterFailedRename(s, ts)
  }

  ghost function AfterRun(s: State, events: seq<Event>): State
  {
    if events == [] then s
    else AfterEvent(AfterRun(s, events[..|events| - 1]), events[|events| - 1])
  }

  class Device {
    var rebootNow: bool
    var rebootStop: bool
    var counter: Option<int>
    var previous: Option<string>
    var info: Option<string>
    var stopRfc: bool
    var cron: Option<Entry>

    ghost function View(): State
      reads this
    {
      State(rebootNow, rebootStop, counter, previous, info, stopRfc, cron)
    }

    constructor ()
      ensures View() == FRESH
    {
      rebootNow, rebootStop, counter, previous := false, false, None, None;
      info, stopRfc, cron := None, false, None;
    }

    /** The strcmp tests of the request against the record on file. */
    method SameAsPrevious(source: string, reason: string, custom: string, other: string)
      returns (readable: bool, same: bool)
      ensures readable <==> previous.Some? && ReadPrevious(previous.value).Some?
      ensures same <==> Repeats(previous, Cause(source, reason, custom, other))
    {
      var src, rsn, cus := new char[128], new char[128], new char[128];
      var oth, ts := new char[256], new char[64];
      var rc := ReadPreviousRebootInfo(previous, src, rsn, cus, oth, ts);
      readable, same := rc == 0, false;
      if readable {
        ghost var c := ReadPrevious(previous.value).value;
        ReadsAll(previous.value);
        CStrOf(src[..], c.source);
        CStrOf(rsn[..], c.reason);
        CStrOf(cus[..], c.customReason);
        CStrOf(oth[..], c.otherReason);
        same := source == CStr(src[..]) && reason == CStr(rsn[..]) && custom == CStr(cus[..]) && other == CStr(oth[..]);
      }
    }

    /** handle_cyclic_reboot: true to reboot now, false to defer. With detection off or without the
        flag nothing changes; a request out of the window, at an unknown uptime, or with another cause
        than the file clears everything; a repetition is held in stop mode, stops the device from the
        sixth on, and is counted before. */
    method HandleCyclicReboot(q: Request, reason: string) returns (proceed: bool)
      requires reason == CauseOf(q).reason
      modifies this
      ensures View() == AfterVerdict(old(View()), Judge(old(View()), q), q)
      ensures proceed <==> Proceeds(Judge(old(View()), q))
      ensures q.detection == Some(false) || !old(rebootNow) ==> proceed && View() == old(View())
      ensures q.detection != Some(false) && old(rebootNow) ==>
                var repeated := 0 <= q.uptime <= 600 && old(previous).Some?
                                && ReadPrevious(old(previous).value) == Some(Cause(q.source, reason, q.customReason, q.otherReason));
                var count := if old(counter).Some? then old(counter).value else 0;
                && (!repeated ==> proceed && View() == old(View()).(rebootNow := false, rebootStop := false, counter := Some(0),
                                                                    stopRfc := false, cron := None))
                && (repeated && old(rebootStop) ==> !proceed && View() == old(View()))
                && (repeated && !old(rebootStop) && count < 5 ==>
                      proceed && View() == old(View()).(rebootNow := false, counter := Some(count + 1)))
                && (repeated && !old(rebootStop) && count >= 5 ==>
                      !proceed && cron.Some? && View() == old(View()).(rebootStop := true, stopRfc := true, cron := cron)
                      && 60 * cron.value.hour + cron.value.minute == (60 * q.hour + q.minute + 1 + PauseOf(q)) % 1440
                      && 0 <= cron.value.hour < 24 && 0 <= cron.value.minute < 60)
    {
      hide ReadPrevious, Categorise;
      var detectionEnabled := true;
      if q.detection.Some? { detectionEnabled := q.detection.value; }
      var stopDuration := StopMinutes(q.duration);
      var reset := false;
      if rebootNow && detectionEnabled {
        rebootNow := false;
        var readable, same := SameAsPrevious(q.source, reason, q.customReason, q.otherReason);
        if readable {
          if q.uptime >= 0 && q.uptime <= WINDOW_SECS {
            if same {
              if rebootStop {
                rebootNow := true;
                return false;
              } else {
                var count := if counter.Some? then counter.value else 0;
                if count >= THRESHOLD {
                  rebootStop := true;
                  stopRfc := true;
                  cron := None;
                  var entry := ComputeCronTime(q.hour, q.minute, stopDuration);
                  cron := Some(entry);
                  rebootNow := true;
                  return false;
                } else {
                  counter := Some(count + 1);
                }
              }
            } else {
              reset := true;
            }
          } else {
            reset := true;
          }
        } else {
          reset := true;
        }
        if reset {
          stopRfc := false;
          counter := Some(0);
          rebootStop := false;
          cron := None;
        }
      }
      return true;
    }

    /** main from the categorisation to the rebootNow flag: true when the device goes down. */
    method RequestReboot(q: Request) returns (rebooting: bool)
      modifies this
      ensures q.detection == Some(false) ==>
                rebooting && counter == old(counter) && rebootStop == old(rebootStop) && stopRfc == old(stopRfc) && cron == old(cron)
      ensures previous == Some(Text(RecordOf(q))) && info == previous && rebootNow
      ensures View() == AfterRequest(old(View()), q)
      ensures rebooting <==> Proceeds(Judge(old(View()), q))
    {
      hide ReadPrevious, Categorise, EntryFor;
      var reason := CategoriseRequest(q.source, q.customReason);
      var r := Record(q.timestamp, Cause(q.source, reason, q.customReason, q.otherReason));
      var file := WriteRecord(r);
      info := Some(file);
      rebooting := HandleCyclicReboot(q, reason);
      file := WriteRecord(r);
      previous := Some(file);
      if !rebooting { return; }
      rebootNow := true;
    }

    /** The fetcher's main: rename reboot.info over the previous record, or write a derived one. */
    method Boot(derived: Record)
      modifies this
      ensures View() == AfterBoot(old(View()), derived)
    {
      if info.Some? {
        previous := info;
        info := None;
      } else {
        var file := WriteRecord(derived);
        previous := Some(file);
      }
    }

    method BootWithFailedRename(timestamp: string)
      modifies this
      ensures View() == AfterFailedRename(old(View()), timestamp)
    {
      var file := WriteRecord(Record(timestamp, NO_CAUSE));
      previous := Some(file);
    }

    /** Any history of a device, step by step. */
    method Run(events: seq<Event>)
      modifies this
      ensures View() == AfterRun(old(View()), events)
    {
      for i := 0 to |events|
        invariant View() == AfterRun(old(View()), events[..i])
      {
        assert events[..i + 1][..i] == events[..i];
        match events[i] {
          case Ask(q) => var _ := RequestReboot(q);
          case Boots(derived) => Boot(derived);
          case RenameFails(ts) => BootWithFailedRename(ts);
        }
      }
      assert events[..|events|] == events;
    }
  }
}
