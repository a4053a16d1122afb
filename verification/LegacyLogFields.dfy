/** Which line of a log gives which field: parse_legacy_log on logs of any content. */
module LegacyLogFields {
  import opened CStrings
  import opened LegacyLog
  import L = LineScan
  import T = LegacyLogRoundTrip

  /** The markers in the order of the tests: first those of the fetcher, then those of rebootnow. */
  const MARKERS: seq<string> := [
    "PreviousRebootInitiatedBy:", "PreviousRebootTime:", "PreviousCustomReason:", "PreviousOtherReason:",
    "RebootInitiatedBy:", "RebootTime:", "CustomReason:", "OtherReason:"
  ]

  /** The line belongs to marker k: it contains that one and none of those tested before. */
  ghost predicate Belongs(line: string, k: int)
    requires 0 <= k < 8
  {
    Occurs(line, MARKERS[k]) && forall j :: 0 <= j < k ==> !Occurs(line, MARKERS[j])
  }

  /** A line of the fetcher. */
  ghost predicate IsFetchers(line: string) { exists k :: 0 <= k < 4 && Occurs(line, MARKERS[k]) }

  /** A reason line that is kept: no marker, the word for the reason, and not that of HAL_SYS_Reboot itself. */
  ghost predicate IsReason(line: string)
  {
    T.MarkerFree(line) && Occurs(line, "RebootReason:") && !Occurs(line, "HAL_SYS_Reboot")
  }

  /** The last line that belongs to marker k. */
  ghost function LastOf(lines: seq<string>, k: int): (r: Option<string>)
    requires 0 <= k < 8
    ensures r.Some? ==> exists i :: 0 <= i < |lines| && lines[i] == r.value && Belongs(lines[i], k)
                                    && forall j :: i < j < |lines| ==> !Belongs(lines[j], k)
    ensures r.None? ==> forall i :: 0 <= i < |lines| ==> !Belongs(lines[i], k)
    decreases |lines|
  {
    if lines == [] then None
    else
      var later := LastOf(lines[1..], k);
      if later.Some? then
        assert forall i :: 0 <= i < |lines| - 1 ==> lines[1..][i] == lines[i + 1];
        later
      else if Belongs(lines[0], k) then Some(lines[0])
      else None
  }

  ghost function LastReason(lines: seq<string>): (r: Option<string>)
    ensures r.Some? ==> exists i :: 0 <= i < |lines| && lines[i] == r.value && IsReason(lines[i])
                                    && forall j :: i < j < |lines| ==> !IsReason(lines[j])
    ensures r.None? ==> forall i :: 0 <= i < |lines| ==> !IsReason(lines[i])
    decreases |lines|
  {
    if lines == [] then None
    else
      var later := LastReason(lines[1..]);
      if later.Some? then
        assert forall i :: 0 <= i < |lines| - 1 ==> lines[1..][i] == lines[i + 1];
        later
      else if IsReason(lines[0]) then Some(lines[0])
      else None
  }

  /** The value in the last line that belongs to marker k, or the given one when there is none. */
  ghost function Field(lines: seq<string>, k: int, size: nat, otherwise: string): string
    requires 0 <= k < 8 && size > 0
  {
    var line := LastOf(lines, k);
    if line.Some? then ValueIn(line.value, MARKERS[k], size) else otherwise
  }

  /** The first line gives the field unless a later one does. */
  lemma FieldStep(lines: seq<string>, k: int, size: nat, otherwise: string)
    requires lines != [] && 0 <= k < 8 && size > 0
    ensures Belongs(lines[0], k) ==> Contains(lines[0], MARKERS[k])
    ensures Field(lines, k, size, otherwise)
         == Field(lines[1..], k, size, if Belongs(lines[0], k) then ValueIn(lines[0], MARKERS[k], size) else otherwise)
  {
    hide ValueIn;
  }

  ghost function Fetchers(lines: seq<string>): nat
    decreases |lines|
  {
    if lines == [] then 0 else (if IsFetchers(lines[0]) then 1 else 0) + Fetchers(lines[1..])
  }

  // ----- the tests of one line

  lemma SlotsBelong(line: string)
    ensures SlotOf(line) == PrevSource <==> Belongs(line, 0)
    ensures SlotOf(line) == PrevTime <==> Belongs(line, 1)
    ensures SlotOf(line) == PrevCustom <==> Belongs(line, 2)
    ensures SlotOf(line) == PrevOther <==> Belongs(line, 3)
    ensures SlotOf(line) == RawSource <==> Belongs(line, 4)
    ensures SlotOf(line) == RawTime <==> Belongs(line, 5)
    ensures SlotOf(line) == RawCustom <==> Belongs(line, 6)
    ensures SlotOf(line) == RawOther <==> Belongs(line, 7)
  {
    hide Occurs, Find;
    MarkersAre();
  }

  lemma MarkersAre()
    ensures MARKERS == [PREV_SOURCE, PREV_TIME, PREV_CUSTOM, PREV_OTHER, RAW_SOURCE, RAW_TIME, RAW_CUSTOM, RAW_OTHER]
  {
  }

  lemma FetchersSlots(line: string)
    ensures IsFetchers(line) <==> IsPrevious(SlotOf(line))
    ensures T.MarkerFree(line) <==> SlotOf(line).RawReason? || SlotOf(line).Nothing?
    ensures IsReason(line) <==> SlotOf(line).RawReason?
  {
    hide Occurs, Find;
    MarkersAre();
    if T.MarkerFree(line) { T.NoPreviousMarker(line); }
    if IsFetchers(line) {
      var k :| 0 <= k < 4 && Occurs(line, MARKERS[k]);
    }
    if IsPrevious(SlotOf(line)) {
      assert Occurs(line, MARKERS[0]) || Occurs(line, MARKERS[1]) || Occurs(line, MARKERS[2]) || Occurs(line, MARKERS[3]);
    }
  }

  // ----- when the parse fails

  lemma {:induction false} Counting(p: Parse, lines: seq<string>)
    requires p.found < 4
    ensures var q := AfterLines(p, lines);
            && q.found >= p.found && q.raw >= p.raw
            && (q.found + q.raw == p.found + p.raw <==> forall i :: 0 <= i < |lines| ==> T.MarkerFree(lines[i]))
    decreases |lines|
  {
    hide T.MarkerFree, SlotOf, ValueIn;
    if lines != [] {
      FetchersSlots(lines[0]);
      var rest := lines[1..];
      assert (forall i :: 0 <= i < |lines| ==> T.MarkerFree(lines[i])) <==>
             T.MarkerFree(lines[0]) && forall i :: 0 <= i < |rest| ==> T.MarkerFree(rest[i]) by {
        assert forall i :: 0 < i < |lines| ==> lines[i] == rest[i - 1];
      }
      if AfterLine(p, lines[0]).found < 4 { Counting(AfterLine(p, lines[0]), rest); }
    }
  }

  /** The parse fails exactly when no line has any marker: one field is enough for success. */
  lemma FailsExactly(info: Info, lines: seq<string>)
    ensures Parsed(info, lines).None? <==> forall i :: 0 <= i < |lines| ==> T.MarkerFree(lines[i])
  {
    hide T.MarkerFree, Resolve, AfterLines;
    Counting(Parse(0, 0, info, NO_INFO, ""), lines);
  }

  // ----- the fetcher's lines

  lemma {:induction false} NoneLeft(lines: seq<string>)
    requires Fetchers(lines) == 0
    ensures forall k :: 0 <= k < 4 ==> LastOf(lines, k).None?
    decreases |lines|
  {
    hide SlotOf;
    if lines != [] {
      SlotsBelong(lines[0]);
      FetchersSlots(lines[0]);
      NoneLeft(lines[1..]);
    }
  }

  lemma {:induction false} FetchersFields(p: Parse, lines: seq<string>)
    requires p.found < 4 && p.found + Fetchers(lines) <= 4
    ensures var q := AfterLines(p, lines);
            && q.found == p.found + Fetchers(lines)
            && q.info == Info(Field(lines, 0, 128, p.info.source), Field(lines, 1, 64, p.info.timestamp),
                              Field(lines, 2, 128, p.info.customReason), Field(lines, 3, 128, p.info.otherReason))
    decreases |lines|
  {
    if lines != [] {
      FieldStep(lines, 0, 128, p.info.source);
      FieldStep(lines, 1, 64, p.info.timestamp);
      FieldStep(lines, 2, 128, p.info.customReason);
      FieldStep(lines, 3, 128, p.info.otherReason);
      SlotsBelong(lines[0]);
      FetchersSlots(lines[0]);
      MarkersAre();
      hide Belongs, ValueIn, SlotOf, IsFetchers, Field;
      var p' := AfterLine(p, lines[0]);
      if p'.found >= 4 { NothingLeft(p'.info, lines[1..]); } else { FetchersFields(p', lines[1..]); }
    }
  }

  lemma NothingLeft(i: Info, lines: seq<string>)
    requires Fetchers(lines) == 0
    ensures i == Info(Field(lines, 0, 128, i.source), Field(lines, 1, 64, i.timestamp),
                      Field(lines, 2, 128, i.customReason), Field(lines, 3, 128, i.otherReason))
  {
    hide ValueIn, Fetchers;
    NoneLeft(lines);
  }

  /** With one to four lines of the fetcher each field is the value in the last line with its marker,
      and a field without such a line keeps the caller's value; all other lines count for nothing. */
  lemma FetchersLogParses(info: Info, lines: seq<string>)
    requires 1 <= Fetchers(lines) <= 4
    ensures Parsed(info, lines) == Some(Info(Field(lines, 0, 128, info.source), Field(lines, 1, 64, info.timestamp),
                                             Field(lines, 2, 128, info.customReason), Field(lines, 3, 128, info.otherReason)))
  {
    hide Field, Resolve, AfterLines;
    FetchersFields(Parse(0, 0, info, NO_INFO, ""), lines);
  }

  lemma {:induction false} StopsAtFour(p: Parse, a: seq<string>, b: seq<string>)
    requires p.found < 4 && p.found + Fetchers(a) >= 4
    ensures AfterLines(p, a + b) == AfterLines(p, a)
    decreases |a|
  {
    hide SlotOf, ValueIn, IsFetchers;
    assert a != [];
    FetchersSlots(a[0]);
    assert (a + b)[0] == a[0] && (a + b)[1..] == a[1..] + b;
    if AfterLine(p, a[0]).found < 4 { StopsAtFour(AfterLine(p, a[0]), a[1..], b); }
  }

  /** After the fourth line of the fetcher nothing is read any more. */
  lemma FourSuffice(info: Info, a: seq<string>, b: seq<string>)
    requires Fetchers(a) >= 4
    ensures Parsed(info, a + b) == Parsed(info, a)
  {
    hide AfterLines, Resolve;
    StopsAtFour(Parse(0, 0, info, NO_INFO, ""), a, b);
  }

  // ----- rebootnow's lines

  ghost function ReasonAfter(lines: seq<string>, otherwise: string): string
  {
    var line := LastReason(lines);
    if line.Some? then Clip(line.value, LINE_BUFFER_SIZE) else otherwise
  }

  const LINE_BUFFER_SIZE: nat := 512

  /** One line of a log without lines of the fetcher, against what is left of the log. */
  lemma RawStep(p: Parse, lines: seq<string>)
    requires lines != [] && !IsFetchers(lines[0])
    ensures var p', rest := AfterLine(p, lines[0]), lines[1..];
            && p'.found == p.found
            && Field(lines, 4, 128, p.rawInfo.source) == Field(rest, 4, 128, p'.rawInfo.source)
            && Field(lines, 5, 64, p.rawInfo.timestamp) == Field(rest, 5, 64, p'.rawInfo.timestamp)
            && Field(lines, 6, 128, p.rawInfo.customReason) == Field(rest, 6, 128, p'.rawInfo.customReason)
            && Field(lines, 7, 128, p.rawInfo.otherReason) == Field(rest, 7, 128, p'.rawInfo.otherReason)
            && ReasonAfter(lines, p.rawReason) == ReasonAfter(rest, p'.rawReason)
  {
    FieldStep(lines, 4, 128, p.rawInfo.source);
    FieldStep(lines, 5, 64, p.rawInfo.timestamp);
    FieldStep(lines, 6, 128, p.rawInfo.customReason);
    FieldStep(lines, 7, 128, p.rawInfo.otherReason);
    SlotsBelong(lines[0]);
    FetchersSlots(lines[0]);
    ReasonStep(lines, p.rawReason);
    MarkersAre();
    hide Belongs, ValueIn, SlotOf, IsFetchers, IsReason, Clip, Field, ReasonAfter;
  }

  lemma ReasonStep(lines: seq<string>, otherwise: string)
    requires lines != []
    ensures ReasonAfter(lines, otherwise) == ReasonAfter(lines[1..], if IsReason(lines[0]) then Clip(lines[0], LINE_BUFFER_SIZE) else otherwise)
  {
    hide IsReason, Clip;
  }

  lemma {:induction false} RawFields(p: Parse, lines: seq<string>)
    requires p.found == 0 && Fetchers(lines) == 0
    ensures var q := AfterLines(p, lines);
            && q.found == 0 && q.rawReason == ReasonAfter(lines, p.rawReason)
            && q.rawInfo == Info(Field(lines, 4, 128, p.rawInfo.source), Field(lines, 5, 64, p.rawInfo.timestamp),
                                 Field(lines, 6, 128, p.rawInfo.customReason), Field(lines, 7, 128, p.rawInfo.otherReason))
    decreases |lines|
  {
    if lines == [] {
      assert forall k :: 0 <= k < 8 ==> LastOf(lines, k).None?;
    } else {
      RawStep(p, lines);
      hide AfterLine, Field, ReasonAfter, IsFetchers;
      RawFields(AfterLine(p, lines[0]), lines[1..]);
    }
  }

  lemma ParsedRaw(info: Info, lines: seq<string>)
    requires var q := AfterLines(Parse(0, 0, info, NO_INFO, ""), lines); q.found == 0 && q.raw > 0
    ensures var q := AfterLines(Parse(0, 0, info, NO_INFO, ""), lines);
            Parsed(info, lines) == Some(if q.rawInfo.source == HAL && q.rawReason != "" then Resolve(q.rawReason, q.rawInfo) else q.rawInfo)
  {
    hide AfterLines, Resolve;
  }

  /** The fields rebootnow's lines give. */
  ghost function RawInfoOf(lines: seq<string>): Info
  {
    Info(Field(lines, 4, 128, ""), Field(lines, 5, 64, ""), Field(lines, 6, 128, ""), Field(lines, 7, 128, ""))
  }

  /** Without lines of the fetcher each field is the value in the last line with its marker and empty
      without one, however few there are; and if the initiator is HAL_SYS_Reboot, the last reason line
      kept, if any, gives the real one. */
  lemma RawLogParses(info: Info, lines: seq<string>)
    requires Fetchers(lines) == 0 && exists i :: 0 <= i < |lines| && !T.MarkerFree(lines[i])
    ensures Parsed(info, lines) == Some(if RawInfoOf(lines).source == HAL && LastReason(lines).Some?
                                        then Resolve(ReasonAfter(lines, ""), RawInfoOf(lines)) else RawInfoOf(lines))
  {
    hide Field, Resolve, AfterLines, T.MarkerFree, IsReason, IsFetchers, LastReason, ReasonAfter, Fetchers, Parsed, HAL;
    ReasonKept(lines);
    SomethingRaw(info, lines);
    ParsedRaw(info, lines);
    RawFields(Parse(0, 0, info, NO_INFO, ""), lines);
  }

  lemma ReasonKept(lines: seq<string>)
    ensures LastReason(lines).Some? <==> ReasonAfter(lines, "") != ""
  {
    if LastReason(lines).Some? { ReasonIsNotEmpty(LastReason(lines).value); }
    hide LastReason, IsReason, Clip;
  }

  lemma HalName()
    ensures HAL == "HAL_SYS_Reboot"
  {
  }

  lemma SomethingRaw(info: Info, lines: seq<string>)
    requires Fetchers(lines) == 0 && exists i :: 0 <= i < |lines| && !T.MarkerFree(lines[i])
    ensures var q := AfterLines(Parse(0, 0, info, NO_INFO, ""), lines); q.found == 0 && q.raw > 0
  {
    hide AfterLines, T.MarkerFree, Fetchers, LastReason, LastOf, Field;
    Counting(Parse(0, 0, info, NO_INFO, ""), lines);
    RawFields(Parse(0, 0, info, NO_INFO, ""), lines);
  }

  lemma ReasonIsNotEmpty(line: string)
    requires IsReason(line)
    ensures Clip(line, 512) != ""
  {
    hide T.MarkerFree;
    assert "RebootReason:" != "";
    L.NotInEmpty("RebootReason:");
  }

  // ----- the value behind a marker

  predicate IsGap(c: char) { c == ' ' || c == '\t' }

  predicate IsWhite(c: char) { c == ' ' || c == '\t' || c == '\r' || c == '\n' }

  /** The value is what stands between the white space in front and behind, a carriage return included. */
  lemma {:induction false} FieldIsCore(front: string, core: string, behind: string, size: nat)
    requires forall i :: 0 <= i < |front| ==> IsGap(front[i])
    requires forall i :: 0 <= i < |behind| ==> IsWhite(behind[i])
    requires core != "" && !IsGap(core[0]) && !IsWhite(core[|core| - 1]) && |core| + |behind| < size
    ensures FieldOf(front + (core + behind), size) == core
  {
    hide SkipBlanks, TrimEnd, IsGap, IsWhite;
    SkipFront(front, core + behind);
    TrimBehind(core, behind);
  }

  /** A value too long for its buffer is cut there. */
  lemma FieldIsCut(front: string, core: string, size: nat)
    requires forall i :: 0 <= i < |front| ==> IsGap(front[i])
    requires 1 < size <= |core| && !IsGap(core[0]) && !IsWhite(core[size - 2])
    ensures FieldOf(front + core, size) == core[..size - 1]
  {
    hide SkipBlanks, TrimEnd, IsGap, IsWhite;
    SkipFront(front, core);
    var cut := core[..size - 1];
    TrimBehind(cut, "");
    assert cut + "" == cut;
    assert Clip(core, size) == cut;
  }

  lemma SkipFront(front: string, rest: string)
    requires forall i :: 0 <= i < |front| ==> IsGap(front[i])
    requires rest != "" && !IsGap(rest[0])
    ensures SkipBlanks(front + rest) == rest
  {
    if front == "" { assert front + rest == rest; }
    else {
      assert (front + rest)[1..] == front[1..] + rest;
      SkipFront(front[1..], rest);
    }
  }

  lemma TrimBehind(core: string, behind: string)
    requires core != "" && !IsWhite(core[|core| - 1])
    requires forall i :: 0 <= i < |behind| ==> IsWhite(behind[i])
    ensures TrimEnd(core + behind) == core
  {
    if behind == "" { assert core + behind == core; }
    else {
      var all, rest := core + behind, behind[..|behind| - 1];
      assert all[..|all| - 1] == core + rest;
      TrimBehind(core, rest);
    }
  }

  /** Behind HAL_SYS_Reboot, a reason line without a trigger changes nothing, and one without a space
      behind the initiator gives the initiator alone. */
  lemma HalWithoutWords(front: string, initiator: string, behind: string, raw: Info)
    requires !Occurs(front, "Triggered from ")
    requires initiator != "" && ' ' !in initiator && !IsWhite(initiator[|initiator| - 1])
    requires behind == "" || behind == "\n" || behind == "\r\n"
    requires |initiator| + |behind| < 128 && Find(front + "Triggered from " + (initiator + behind), "Triggered from ") == Some(|front|)
    ensures Resolve(front, raw) == raw
    ensures Resolve(front + "Triggered from " + (initiator + behind), raw) == raw.(source := initiator)
  {
    WhiteTail(behind);
    NoTrigger(front, raw);
    var rest := initiator + behind;
    TrimBehind(initiator, behind);
    OnlyInitiator(front + TRIGGER + rest, front, rest, raw);
  }

  lemma WhiteTail(behind: string)
    requires behind == "" || behind == "\n" || behind == "\r\n"
    ensures ' ' !in behind && forall i :: 0 <= i < |behind| ==> IsWhite(behind[i])
  {
  }

  lemma NoTrigger(line: string, raw: Info)
    requires !Occurs(line, TRIGGER)
    ensures Resolve(line, raw) == raw
  {
    hide Find, Until, TRIGGER;
    assert Find(line, TRIGGER).None?;
  }

  lemma OnlyInitiator(line: string, front: string, rest: string, raw: Info)
    requires line == front + TRIGGER + rest && Find(line, TRIGGER) == Some(|front|) && ' ' !in rest && |rest| < 128
    ensures Resolve(line, raw) == raw.(source := TrimEnd(rest))
  {
    hide Find, TrimEnd, TRIGGER;
    assert line[|front| + |TRIGGER|..] == rest;
  }
}
