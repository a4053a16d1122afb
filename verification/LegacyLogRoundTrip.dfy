/** What parse_legacy_log recovers from the logs rebootnow and the fetcher print. */
module LegacyLogRoundTrip {
  import opened CStrings
  import opened LineScan
  import opened BoundedAppend
  import opened LegacyLog

  // ----- the printers

  const LOG_BUFFER: nat := 1024

  /** The five lines rebootnow appends to the log, each through its 1024-byte buffer. */
  function RawLines(i: Info, isCrash: bool): seq<string>
  {
    [Clip(Concat(ReasonTexts(i.source, isCrash, i.otherReason)), LOG_BUFFER)] + FieldLines(i)
  }

  function FieldLines(i: Info): seq<string>
  {
    [Clip(RAW_SOURCE + " " + i.source + "\n", LOG_BUFFER),
     Clip(RAW_TIME + " " + i.timestamp + "\n", LOG_BUFFER),
     Clip(RAW_CUSTOM + " " + i.customReason + "\n", LOG_BUFFER),
     Clip(RAW_OTHER + " " + i.otherReason + "\n", LOG_BUFFER)]
  }

  /** write_rebootinfo_log after write_rebootinfo_log, on an emptied file; what is printed parses back. */
  method PrintRebootLog(i: Info, isCrash: bool) returns (file: string)
    ensures file == Concat(RawLines(i, isCrash))
    ensures CleanInfo(i) ==> forall info :: Parsed(info, LinesOf(file)) == Some(i)
  {
    hide Clip, CleanInfo, Parsed, LinesOf;
    ghost var ls := RawLines(i, isCrash);
    var buffer := new char[LOG_BUFFER];
    var n := FormatReasonLine(buffer, i.source, isCrash, i.otherReason);
    file := buffer[..n];
    file := file + Clip(RAW_SOURCE + " " + i.source + "\n", LOG_BUFFER);
    file := file + Clip(RAW_TIME + " " + i.timestamp + "\n", LOG_BUFFER);
    file := file + Clip(RAW_CUSTOM + " " + i.customReason + "\n", LOG_BUFFER);
    file := file + Clip(RAW_OTHER + " " + i.otherReason + "\n", LOG_BUFFER);
    FiveLines(ls);
    if CleanInfo(i) { forall info ensures Parsed(info, LinesOf(file)) == Some(i) { RawRoundTrip(info, i, isCrash); } }
  }

  lemma FiveLines(ls: seq<string>)
    requires |ls| == 5
    ensures Concat(ls) == ls[0] + ls[1] + ls[2] + ls[3] + ls[4]
  {
    assert ls[1..][1..] == ls[2..] && ls[2..][1..] == ls[3..] && ls[3..][1..] == ls[4..] && ls[4..][1..] == [];
    assert Concat(ls[4..]) == ls[4];
    assert Concat(ls[3..]) == ls[3] + ls[4];
    assert Concat(ls[2..]) == ls[2] + (ls[3] + ls[4]);
    assert Concat(ls[1..]) == ls[1] + (ls[2] + (ls[3] + ls[4]));
  }

  const PREV_REASON: string := "PreviousRebootReason:"

  /** One line of the fetcher: its own time stamp, the key and the value. */
  function PreviousLine(stamp: string, key: string, value: string): string
  {
    stamp + " " + key + " " + value + "\n"
  }

  /** The five lines of update_previous_reboot_log_fields. */
  function PreviousLines(stamps: seq<string>, reason: string, i: Info): seq<string>
    requires |stamps| == 5
  {
    [PreviousLine(stamps[0], PREV_REASON, reason),
     PreviousLine(stamps[1], PREV_SOURCE, i.source),
     PreviousLine(stamps[2], PREV_TIME, i.timestamp),
     PreviousLine(stamps[3], PREV_CUSTOM, i.customReason),
     PreviousLine(stamps[4], PREV_OTHER, i.otherReason)]
  }

  /** write_previous_line: the stamp of the moment, the key with its colon, the value. */
  method WritePreviousLine(file: string, stamp: string, key: string, value: string) returns (file': string)
    ensures file' == file + PreviousLine(stamp, key + ":", value)
  {
    file' := file + stamp + " ";
    file' := file' + key + ": ";
    file' := file' + value + "\n";
    assert stamp + " " + (key + ":") + " " + value + "\n" == stamp + " " + (key + ": ") + (value + "\n");
  }

  /** update_previous_reboot_log_fields from the fopen on; what is printed parses back. */
  method PrintPreviousLog(stamps: seq<string>, reason: string, i: Info) returns (file: string)
    requires |stamps| == 5
    ensures file == Concat(PreviousLines(stamps, reason, i))
    ensures CleanStamps(stamps) && CleanInfo(i) && MarkerFree(reason) && OneLine(reason) ==>
              forall info :: Parsed(info, LinesOf(file)) == Some(i)
  {
    hide PreviousLine, CleanStamps, CleanInfo, MarkerFree, OneLine, Parsed, LinesOf;
    KeysWithColon();
    file := WritePreviousLine("", stamps[0], "PreviousRebootReason", reason);
    file := WritePreviousLine(file, stamps[1], "PreviousRebootInitiatedBy", i.source);
    file := WritePreviousLine(file, stamps[2], "PreviousRebootTime", i.timestamp);
    file := WritePreviousLine(file, stamps[3], "PreviousCustomReason", i.customReason);
    file := WritePreviousLine(file, stamps[4], "PreviousOtherReason", i.otherReason);
    FiveLines(PreviousLines(stamps, reason, i));
    assert file == Concat(PreviousLines(stamps, reason, i));
    if CleanStamps(stamps) && CleanInfo(i) && MarkerFree(reason) && OneLine(reason) {
      forall info ensures Parsed(info, LinesOf(file)) == Some(i) { PreviousRoundTrip(info, stamps, reason, i); }
    }
  }

  lemma KeysWithColon()
    ensures "PreviousRebootReason" + ":" == PREV_REASON && "PreviousRebootInitiatedBy" + ":" == PREV_SOURCE
    ensures "PreviousRebootTime" + ":" == PREV_TIME && "PreviousCustomReason" + ":" == PREV_CUSTOM
    ensures "PreviousOtherReason" + ":" == PREV_OTHER
  {
  }

  // ----- fields that survive

  /** None of the markers occurs in the text. */
  ghost predicate MarkerFree(s: string)
  {
    !Occurs(s, RAW_SOURCE) && !Occurs(s, RAW_TIME) && !Occurs(s, RAW_CUSTOM) && !Occurs(s, RAW_OTHER)
  }

  ghost predicate OneLine(s: string) { '\n' !in s && NUL !in s }

  /** A field that fits its buffer, trimmed, on one line, without markers. */
  ghost predicate Clean(s: string, size: nat)
  {
    && |s| < size && OneLine(s) && MarkerFree(s)
    && (s != "" ==> !IsBlank(s[0]) && !IsTrailing(s[|s| - 1]))
  }

  ghost predicate CleanInfo(i: Info)
  {
    Clean(i.source, REASON_LENGTH) && Clean(i.timestamp, TIMESTAMP_LENGTH)
    && Clean(i.customReason, REASON_LENGTH) && Clean(i.otherReason, REASON_LENGTH)
  }

  /** A field that fits, on one line, without markers and leading blanks, but perhaps with trailing ones. */
  ghost predicate Loose(s: string, size: nat)
  {
    |s| < size && OneLine(s) && MarkerFree(s) && (s != "" ==> !IsBlank(s[0]))
  }

  ghost predicate LooseInfo(i: Info)
  {
    Loose(i.source, REASON_LENGTH) && Loose(i.timestamp, TIMESTAMP_LENGTH)
    && Loose(i.customReason, REASON_LENGTH) && Loose(i.otherReason, REASON_LENGTH)
  }

  function Trimmed(i: Info): Info
  {
    Info(TrimEnd(i.source), TrimEnd(i.timestamp), TrimEnd(i.customReason), TrimEnd(i.otherReason))
  }

  lemma CleanIsTrimmed(i: Info)
    requires CleanInfo(i)
    ensures LooseInfo(i) && Trimmed(i) == i
  {
    hide MarkerFree;
  }

  lemma TrimNewline(s: string)
    ensures TrimEnd(s + "\n") == TrimEnd(s)
    ensures (s != "" ==> !IsTrailing(s[|s| - 1])) ==> TrimEnd(s) == s
  {
    assert (s + "\n")[..|s|] == s;
  }

  lemma SkipOne(s: string)
    requires s != "" ==> !IsBlank(s[0])
    ensures SkipBlanks([' '] + s) == s
  {
    assert ([' '] + s)[1..] == s;
  }

  lemma ClipNewline(s: string, size: nat)
    requires |s| < size
    ensures Clip(s + "\n", size) == s || Clip(s + "\n", size) == s + "\n"
  {
    if |s| + 1 >= size { assert (s + "\n")[..size - 1] == s; }
  }

  lemma FieldReadsBack(s: string, size: nat)
    requires |s| < size && (s != "" ==> !IsBlank(s[0]))
    ensures FieldOf(" " + s + "\n", size) == TrimEnd(s)
  {
    hide FieldOf, SkipBlanks, TrimEnd, Clip, IsBlank, IsTrailing;
    var line := s + "\n";
    SkipPrinted(s);
    ClipNewline(s, size);
    TrimNewline(s);
    FieldSteps(" " + s + "\n", line, size);
  }

  lemma SkipPrinted(s: string)
    requires s != "" ==> !IsBlank(s[0])
    ensures SkipBlanks(" " + s + "\n") == s + "\n"
  {
    assert " " + s + "\n" == [' '] + (s + "\n");
    SkipOne(s + "\n");
  }

  lemma FieldSteps(tail: string, skipped: string, size: nat)
    requires size > 0 && SkipBlanks(tail) == skipped
    ensures FieldOf(tail, size) == TrimEnd(Clip(skipped, size))
  {
  }

  // ----- lines in, lines out

  ghost predicate IsLine(line: string)
  {
    line != "" && line[|line| - 1] == '\n' && OneLine(line[..|line| - 1]) && |line| < LINE_BUFFER
  }

  lemma FirstNewline(text: string, k: nat)
    requires k < |text| && text[k] == '\n' && '\n' !in text[..k]
    ensures Until(text, '\n') == Some(k)
  {
    if k > 0 {
      assert text[..k][0] == text[0];
      assert text[1..][..k - 1] == text[..k][1..];
      FirstNewline(text[1..], k - 1);
    }
  }

  lemma LineComesOff(line: string, rest: string)
    requires IsLine(line)
    ensures LinesOf(line + rest) == [line] + LinesOf(rest)
  {
    var text, k := line + rest, |line| - 1;
    assert text[..k] == line[..k];
    FirstNewline(text, k);
    PiecesStep(text, LINE_BUFFER);
    assert text[..k + 1] == line && text[k + 1..] == rest;
    assert Pieces(text, LINE_BUFFER) == [line] + Pieces(rest, LINE_BUFFER);
    assert ([line] + Pieces(rest, LINE_BUFFER))[1..] == Pieces(rest, LINE_BUFFER);
    assert NUL !in line by { assert line == line[..k] + ['\n']; }
  }

  lemma {:induction false} LinesComeBack(lines: seq<string>)
    requires forall i :: 0 <= i < |lines| ==> IsLine(lines[i])
    ensures LinesOf(Concat(lines)) == lines
  {
    if lines == [] {
      NoPieces(LINE_BUFFER);
    } else {
      LineComesOff(lines[0], Concat(lines[1..]));
      LinesComeBack(lines[1..]);
    }
  }

  // ----- which markers a printed line has

  /** A marker, or any other text without a space or newline. */
  ghost predicate IsWord(k: string) { ' ' !in k && '\n' !in k && k != "" }

  lemma WordInJoined(a: string, c: char, b: string, k: string)
    requires IsWord(k) && (c == ' ' || c == '\n')
    ensures Occurs(a + [c] + b, k) <==> Occurs(a, k) || Occurs(b, k)
  {
    SplitAt(a, c, b, k);
  }

  lemma WordInLine(head: string, v: string, k: string)
    requires IsWord(k)
    ensures Occurs(head + " " + v + "\n", k) <==> Occurs(head, k) || Occurs(v, k)
  {
    hide Occurs;
    WordInJoined(head + " " + v, '\n', "", k);
    assert head + " " + v + ['\n'] + "" == head + " " + v + "\n";
    WordInJoined(head, ' ', v, k);
    assert head + [' '] + v == head + " " + v;
    NotInEmpty(k);
  }

  lemma WordInPreviousLine(stamp: string, key: string, v: string, k: string)
    requires IsWord(k)
    ensures Occurs(PreviousLine(stamp, key, v), k) <==> Occurs(stamp, k) || Occurs(key, k) || Occurs(v, k)
  {
    hide Occurs;
    WordInLine(stamp + " " + key, v, k);
    WordInJoined(stamp, ' ', key, k);
    assert stamp + [' '] + key == stamp + " " + key;
  }

  lemma PreviousMarkersExtend()
    ensures PREV_SOURCE == "Previous" + RAW_SOURCE && PREV_TIME == "Previous" + RAW_TIME
    ensures PREV_CUSTOM == "Previous" + RAW_CUSTOM && PREV_OTHER == "Previous" + RAW_OTHER
  {
  }

  lemma RawMarkersAreWords()
    ensures IsWord(RAW_SOURCE) && IsWord(RAW_TIME) && IsWord(RAW_CUSTOM) && IsWord(RAW_OTHER)
  {
  }

  lemma MarkersAreWords()
    ensures IsWord(PREV_SOURCE) && IsWord(PREV_TIME) && IsWord(PREV_CUSTOM) && IsWord(PREV_OTHER)
    ensures IsWord(RAW_SOURCE) && IsWord(RAW_TIME) && IsWord(RAW_CUSTOM) && IsWord(RAW_OTHER)
  {
    hide IsWord;
    RawMarkersAreWords();
    PreviousMarkersExtend();
    WordExtends(RAW_SOURCE);
    WordExtends(RAW_TIME);
    WordExtends(RAW_CUSTOM);
    WordExtends(RAW_OTHER);
  }

  lemma WordExtends(k: string)
    requires IsWord(k)
    ensures IsWord("Previous" + k)
  {
  }

  lemma EndsWith(front: string, k: string)
    ensures Occurs(front + k, k)
  {
    assert (front + k)[|front|..] == k;
    assert OccursAt(front + k, k, |front|);
  }

  /** Each Previous marker contains its raw marker, so marker-free text has none of them. */
  lemma NoPreviousMarker(s: string)
    requires MarkerFree(s)
    ensures !Occurs(s, PREV_SOURCE) && !Occurs(s, PREV_TIME) && !Occurs(s, PREV_CUSTOM) && !Occurs(s, PREV_OTHER)
  {
    hide Occurs;
    PreviousMarkersExtend();
    EndsWith("Previous", RAW_SOURCE);
    EndsWith("Previous", RAW_TIME);
    EndsWith("Previous", RAW_CUSTOM);
    EndsWith("Previous", RAW_OTHER);
    if Occurs(s, PREV_SOURCE) { OccursTransitive(s, PREV_SOURCE, RAW_SOURCE); }
    if Occurs(s, PREV_TIME) { OccursTransitive(s, PREV_TIME, RAW_TIME); }
    if Occurs(s, PREV_CUSTOM) { OccursTransitive(s, PREV_CUSTOM, RAW_CUSTOM); }
    if Occurs(s, PREV_OTHER) { OccursTransitive(s, PREV_OTHER, RAW_OTHER); }
  }

  /** No marker is part of one that is tested after it. */
  lemma EarlierMarkersDiffer()
    ensures !Occurs(RAW_SOURCE, PREV_SOURCE) && !Occurs(RAW_SOURCE, PREV_TIME) && !Occurs(RAW_SOURCE, PREV_CUSTOM) && !Occurs(RAW_SOURCE, PREV_OTHER)
    ensures !Occurs(RAW_TIME, PREV_SOURCE) && !Occurs(RAW_TIME, PREV_TIME) && !Occurs(RAW_TIME, PREV_CUSTOM) && !Occurs(RAW_TIME, PREV_OTHER)
    ensures !Occurs(RAW_CUSTOM, PREV_SOURCE) && !Occurs(RAW_CUSTOM, PREV_TIME) && !Occurs(RAW_CUSTOM, PREV_CUSTOM) && !Occurs(RAW_CUSTOM, PREV_OTHER)
    ensures !Occurs(RAW_OTHER, PREV_SOURCE) && !Occurs(RAW_OTHER, PREV_TIME) && !Occurs(RAW_OTHER, PREV_CUSTOM) && !Occurs(RAW_OTHER, PREV_OTHER)
    ensures !Occurs(RAW_TIME, RAW_SOURCE) && !Occurs(RAW_CUSTOM, RAW_SOURCE) && !Occurs(RAW_OTHER, RAW_SOURCE)
    ensures !Occurs(RAW_CUSTOM, RAW_TIME) && !Occurs(RAW_OTHER, RAW_TIME) && !Occurs(RAW_OTHER, RAW_CUSTOM)
    ensures !Occurs(PREV_TIME, PREV_SOURCE) && !Occurs(PREV_CUSTOM, PREV_SOURCE) && !Occurs(PREV_OTHER, PREV_SOURCE)
    ensures !Occurs(PREV_CUSTOM, PREV_TIME) && !Occurs(PREV_OTHER, PREV_TIME) && !Occurs(PREV_OTHER, PREV_CUSTOM)
  {
    hide Occurs;
    Lengths();
    Longer(RAW_SOURCE, PREV_SOURCE); Longer(RAW_SOURCE, PREV_TIME); Longer(RAW_SOURCE, PREV_CUSTOM); Longer(RAW_SOURCE, PREV_OTHER);
    Longer(RAW_TIME, PREV_SOURCE); Longer(RAW_TIME, PREV_TIME); Longer(RAW_TIME, PREV_CUSTOM); Longer(RAW_TIME, PREV_OTHER);
    Longer(RAW_CUSTOM, PREV_SOURCE); Longer(RAW_CUSTOM, PREV_TIME); Longer(RAW_CUSTOM, PREV_CUSTOM); Longer(RAW_CUSTOM, PREV_OTHER);
    Longer(RAW_OTHER, PREV_SOURCE); Longer(RAW_OTHER, PREV_TIME); Longer(RAW_OTHER, PREV_CUSTOM); Longer(RAW_OTHER, PREV_OTHER);
    Longer(RAW_TIME, RAW_SOURCE); Longer(RAW_CUSTOM, RAW_SOURCE); Longer(RAW_OTHER, RAW_SOURCE); Longer(RAW_OTHER, RAW_CUSTOM);
    Longer(PREV_TIME, PREV_SOURCE); Longer(PREV_CUSTOM, PREV_SOURCE); Longer(PREV_OTHER, PREV_SOURCE); Longer(PREV_OTHER, PREV_CUSTOM);
    TimeMarkersDiffer();
  }

  lemma Lengths()
    ensures |PREV_SOURCE| == 26 && |PREV_TIME| == 19 && |PREV_CUSTOM| == 21 && |PREV_OTHER| == 20
    ensures |RAW_SOURCE| == 18 && |RAW_TIME| == 11 && |RAW_CUSTOM| == 13 && |RAW_OTHER| == 12
  {
  }

  lemma Longer(text: string, k: string)
    requires |k| > |text|
    ensures !Occurs(text, k)
  {
  }

  lemma TimeMarkersDiffer()
    ensures !Occurs(RAW_CUSTOM, RAW_TIME) && !Occurs(RAW_OTHER, RAW_TIME)
    ensures !Occurs(PREV_CUSTOM, PREV_TIME) && !Occurs(PREV_OTHER, PREV_TIME)
  {
    hide Occurs;
    OnlyTimeHasT();
    Lacks(RAW_CUSTOM, RAW_TIME, 'T');
    Lacks(RAW_OTHER, RAW_TIME, 'T');
    Lacks(PREV_CUSTOM, PREV_TIME, 'T');
    Lacks(PREV_OTHER, PREV_TIME, 'T');
  }

  lemma OnlyTimeHasT()
    ensures 'T' in RAW_TIME && 'T' !in RAW_CUSTOM && 'T' !in RAW_OTHER
    ensures 'T' in PREV_TIME && 'T' !in PREV_CUSTOM && 'T' !in PREV_OTHER
  {
    assert RAW_TIME[6] == 'T';
    PreviousMarkersExtend();
    assert 'T' !in "Previous";
  }

  lemma Lacks(text: string, k: string, c: char)
    requires c in k && c !in text
    ensures !Occurs(text, k)
  {
    var i :| 0 <= i < |k| && k[i] == c;
    MissingChar(text, k, i);
  }

  // ----- the slot and the value of a printed line

  /** A raw line goes to its own slot and yields its value. */
  lemma RawLineParses(p: Parse, i: Info)
    requires CleanInfo(i)
    ensures AfterLine(p, RAW_SOURCE + " " + i.source + "\n") == p.(raw := p.raw + 1, rawInfo := p.rawInfo.(source := i.source))
    ensures AfterLine(p, RAW_TIME + " " + i.timestamp + "\n") == p.(raw := p.raw + 1, rawInfo := p.rawInfo.(timestamp := i.timestamp))
    ensures AfterLine(p, RAW_CUSTOM + " " + i.customReason + "\n") == p.(raw := p.raw + 1, rawInfo := p.rawInfo.(customReason := i.customReason))
    ensures AfterLine(p, RAW_OTHER + " " + i.otherReason + "\n") == p.(raw := p.raw + 1, rawInfo := p.rawInfo.(otherReason := i.otherReason))
  {
    hide SlotOf, ValueIn, Occurs, Clean;
    RawSlot(RawSource, i.source, REASON_LENGTH);
    RawSlot(RawTime, i.timestamp, TIMESTAMP_LENGTH);
    RawSlot(RawCustom, i.customReason, REASON_LENGTH);
    RawSlot(RawOther, i.otherReason, REASON_LENGTH);
  }

  lemma RawValueIn(m: string, v: string, size: nat)
    requires Clean(v, size)
    ensures var line := m + " " + v + "\n"; Contains(line, m) && ValueIn(line, m, size) == v
  {
    hide FieldOf, MarkerFree;
    var line := m + " " + v + "\n";
    assert m <= line && OccursAt(line, m, 0);
    assert line[0 + |m|..] == " " + v + "\n";
    FieldReadsBack(v, size);
    TrimNewline(v);
  }

  lemma RawSlot(slot: Slot, v: string, size: nat)
    requires Clean(v, size) && (slot.RawSource? || slot.RawTime? || slot.RawCustom? || slot.RawOther?)
    ensures var line := MarkerOf(slot) + " " + v + "\n";
            && SlotOf(line) == slot && Contains(line, MarkerOf(slot)) && ValueIn(line, MarkerOf(slot), size) == v
  {
    hide Occurs, FieldOf, OccursAt, Find, ValueIn;
    var m := MarkerOf(slot);
    RawValueIn(m, v, size);
    NoPreviousMarker(v);
    MarkersAreWords();
    EarlierMarkersDiffer();
    WordInLine(m, v, PREV_SOURCE);
    WordInLine(m, v, PREV_TIME);
    WordInLine(m, v, PREV_CUSTOM);
    WordInLine(m, v, PREV_OTHER);
    WordInLine(m, v, RAW_SOURCE);
    WordInLine(m, v, RAW_TIME);
    WordInLine(m, v, RAW_CUSTOM);
  }

  // ----- the reason line

  lemma MarkerFreeJoin(a: string, c: char, b: string)
    requires (c == ' ' || c == '\n') && MarkerFree(a) && MarkerFree(b)
    ensures MarkerFree(a + [c] + b)
  {
    hide Occurs;
    MarkersAreWords();
    WordInJoined(a, c, b, RAW_SOURCE);
    WordInJoined(a, c, b, RAW_TIME);
    WordInJoined(a, c, b, RAW_CUSTOM);
    WordInJoined(a, c, b, RAW_OTHER);
  }

  /** Every marker ends in a colon. */
  lemma ColonFreeIsMarkerFree(s: string)
    requires ':' !in s
    ensures MarkerFree(s)
  {
    assert RAW_SOURCE[17] == ':' && RAW_TIME[10] == ':' && RAW_CUSTOM[12] == ':' && RAW_OTHER[11] == ':';
    hide Occurs;
    Lacks(s, RAW_SOURCE, ':');
    Lacks(s, RAW_TIME, ':');
    Lacks(s, RAW_CUSTOM, ':');
    Lacks(s, RAW_OTHER, ':');
  }

  lemma ReasonMarkerIsMarkerFree()
    ensures MarkerFree(RAW_REASON)
  {
    hide Occurs;
    MarkerLetters();
    assert 'T' !in RAW_REASON && 'C' !in RAW_REASON && 'O' !in RAW_REASON;
    Longer(RAW_REASON, RAW_SOURCE);
    Lacks(RAW_REASON, RAW_TIME, 'T');
    Lacks(RAW_REASON, RAW_CUSTOM, 'C');
    Lacks(RAW_REASON, RAW_OTHER, 'O');
  }

  const FRONT: string := RAW_REASON + " " + "Triggered from"

  lemma FrontIsMarkerFree()
    ensures MarkerFree(FRONT)
  {
    hide MarkerFree;
    ReasonMarkerIsMarkerFree();
    ColonFreeIsMarkerFree("Triggered from");
    MarkerFreeJoin(RAW_REASON, ' ', "Triggered from");
  }

  function Process(isCrash: bool): string { if isCrash then "process failure or crash..!" else "process" }

  /** The reason line word by word. */
  function ReasonLine(source: string, isCrash: bool, other: string): string
  {
    FRONT + [' '] + source + [' '] + Process(isCrash) + (if other == "Unknown" then "" else [' '] + other) + ['\n'] + ""
  }

  lemma ThreeTexts(a: string, b: string, c: string)
    ensures Concat([a, b, c]) == a + b + c
  {
    var texts := [a, b, c];
    assert texts[1..] == [b, c] && [b, c][1..] == [c] && [c][1..] == [];
    assert Concat([c]) == c;
    assert Concat([b, c]) == b + c;
  }

  lemma Regroup(a: string, b: string, s: string, p: string, e: string, front: string, process: string, mid: string)
    requires a + b == front + [' '] && p == [' '] + process && e == mid + ['\n']
    ensures a + (b + s + p) + e == front + [' '] + s + [' '] + process + mid + ['\n'] + ""
  {
    assert a + (b + s + p) + e == (a + b) + s + p + e;
  }

  lemma FrontText()
    ensures "RebootReason: " + "Triggered from " == FRONT + [' ']
  {
    assert "RebootReason: " == RAW_REASON + " ";
    assert "Triggered from " == "Triggered from" + " ";
  }

  lemma ReasonLineIs(source: string, isCrash: bool, other: string)
    ensures Concat(ReasonTexts(source, isCrash, other)) == ReasonLine(source, isCrash, other)
  {
    hide Concat, Process;
    var p := if isCrash then " process failure or crash..!" else " process";
    var e := if other == "Unknown" then "\n" else " " + other + "\n";
    var mid := if other == "Unknown" then "" else [' '] + other;
    FrontText();
    ProcessText(isCrash);
    ThreeTexts("RebootReason: ", "Triggered from " + source + p, e);
    Regroup("RebootReason: ", "Triggered from ", source, p, e, FRONT, Process(isCrash), mid);
  }

  lemma ProcessText(isCrash: bool)
    ensures (if isCrash then " process failure or crash..!" else " process") == [' '] + Process(isCrash)
  {
  }

  lemma ProcessIsMarkerFree(isCrash: bool)
    ensures MarkerFree(Process(isCrash)) && MarkerFree("")
  {
    hide MarkerFree;
    ColonFreeIsMarkerFree(Process(isCrash));
    ColonFreeIsMarkerFree("");
  }

  lemma ReasonLineIsMarkerFree(source: string, isCrash: bool, other: string)
    requires MarkerFree(source) && MarkerFree(other)
    ensures MarkerFree(ReasonLine(source, isCrash, other))
  {
    hide MarkerFree, Process;
    FrontIsMarkerFree();
    assert MarkerFree(Process(isCrash)) && MarkerFree("") by { ProcessIsMarkerFree(isCrash); }
    var a := FRONT + [' '] + source;
    MarkerFreeJoin(FRONT, ' ', source);
    var b := a + [' '] + Process(isCrash);
    MarkerFreeJoin(a, ' ', Process(isCrash));
    var c := if other == "Unknown" then b + "" else b + [' '] + other;
    assert b + "" == b;
    MarkerFreeJoin(b, ' ', other);
    MarkerFreeJoin(c, '\n', "");
    assert ReasonLine(source, isCrash, other) == c + ['\n'] + "";
  }

  lemma ReasonLineShape(source: string, isCrash: bool, other: string)
    requires Clean(source, REASON_LENGTH) && Clean(other, REASON_LENGTH)
    ensures IsLine(ReasonLine(source, isCrash, other))
  {
    hide MarkerFree, Occurs, OneLine, Process;
    var mid := if other == "Unknown" then "" else [' '] + other;
    LiteralsAreOneLine(isCrash);
    var a, b := FRONT + [' '], source + [' '];
    OneLineJoin(FRONT, [' ']);
    OneLineJoin(source, [' ']);
    OneLineJoin(a, b);
    OneLineJoin(a + b, Process(isCrash));
    OneLineJoin([' '], other);
    OneLineJoin(a + b + Process(isCrash), mid);
    var body := a + b + Process(isCrash) + mid;
    assert ReasonLine(source, isCrash, other) == body + ['\n'];
    assert (body + ['\n'])[..|body|] == body;
  }

  lemma ReasonLineNamesSource(source: string, isCrash: bool, other: string)
    ensures Occurs(ReasonLine(source, isCrash, other), source)
  {
    hide Occurs, Process;
    WholeOccurs(source);
    var mid := if other == "Unknown" then "" else [' '] + other;
    var before, after := FRONT + [' '], [' '] + Process(isCrash) + mid + ['\n'];
    OccursInside(before, source, after, source);
    assert before + source + after == ReasonLine(source, isCrash, other);
  }

  lemma OneLineJoin(a: string, b: string)
    requires OneLine(a) && OneLine(b)
    ensures OneLine(a + b)
  {
  }

  lemma WholeOccurs(s: string)
    ensures Occurs(s, s)
  {
    assert s[0..] == s;
    assert OccursAt(s, s, 0);
  }

  lemma LiteralsAreOneLine(isCrash: bool)
    ensures OneLine(FRONT) && OneLine(Process(isCrash)) && |FRONT| == 28 && |Process(isCrash)| <= 27
    ensures OneLine([' ']) && OneLine("")
  {
    assert OneLine(RAW_REASON) && OneLine("Triggered from");
  }

  /** The reason line touches none of the fields, and is kept only for another source than HAL_SYS_Reboot. */
  lemma ReasonLineParses(p: Parse, i: Info, isCrash: bool)
    requires CleanInfo(i)
    ensures var line := ReasonLine(i.source, isCrash, i.otherReason);
            AfterLine(p, line) == p || (AfterLine(p, line) == p.(rawReason := line) && i.source != HAL)
  {
    var line := ReasonLine(i.source, isCrash, i.otherReason);
    ReasonLineIsMarkerFree(i.source, isCrash, i.otherReason);
    ReasonLineShape(i.source, isCrash, i.otherReason);
    ReasonLineNamesSource(i.source, isCrash, i.otherReason);
    hide Occurs, ReasonLine, Find, Clean;
    NoPreviousMarker(line);
  }

  // ----- the round trips

  lemma LinesStep(p: Parse, line: string, rest: seq<string>)
    requires AfterLine(p, line).found < 4
    ensures AfterLines(p, [line] + rest) == AfterLines(AfterLine(p, line), rest)
  {
    assert ([line] + rest)[1..] == rest;
  }

  lemma FieldLinesUnclipped(i: Info)
    requires CleanInfo(i)
    ensures FieldLines(i) == [RAW_SOURCE + " " + i.source + "\n", RAW_TIME + " " + i.timestamp + "\n",
                              RAW_CUSTOM + " " + i.customReason + "\n", RAW_OTHER + " " + i.otherReason + "\n"]
    ensures forall k :: 0 <= k < 4 ==> IsLine(FieldLines(i)[k])
  {
    hide MarkerFree;
    Lengths();
    RawHeadsAreOneLine();
    LineOf(RAW_SOURCE, i.source, REASON_LENGTH);
    LineOf(RAW_TIME, i.timestamp, TIMESTAMP_LENGTH);
    LineOf(RAW_CUSTOM, i.customReason, REASON_LENGTH);
    LineOf(RAW_OTHER, i.otherReason, REASON_LENGTH);
  }

  lemma RawHeadsAreOneLine()
    ensures OneLine(RAW_SOURCE) && OneLine(RAW_TIME) && OneLine(RAW_CUSTOM) && OneLine(RAW_OTHER)
  {
  }

  lemma LineOf(head: string, v: string, size: nat)
    requires OneLine(head) && |head| < 100 && Clean(v, size) && size <= REASON_LENGTH
    ensures IsLine(head + " " + v + "\n")
  {
    hide MarkerFree;
    var line := head + " " + v + "\n";
    assert line[..|line| - 1] == head + " " + v;
  }

  lemma FieldLinesParse(p: Parse, i: Info)
    requires CleanInfo(i) && p.found == 0
    ensures AfterLines(p, FieldLines(i)) == p.(raw := p.raw + 4, rawInfo := i)
  {
    hide AfterLine, CleanInfo, FieldLines;
    FieldLinesUnclipped(i);
    var l1, l2 := RAW_SOURCE + " " + i.source + "\n", RAW_TIME + " " + i.timestamp + "\n";
    var l3, l4 := RAW_CUSTOM + " " + i.customReason + "\n", RAW_OTHER + " " + i.otherReason + "\n";
    assert FieldLines(i) == [l1] + ([l2] + ([l3] + ([l4] + [])));
    RawLineParses(p, i);
    var p1 := AfterLine(p, l1);
    LinesStep(p, l1, [l2] + ([l3] + ([l4] + [])));
    RawLineParses(p1, i);
    var p2 := AfterLine(p1, l2);
    LinesStep(p1, l2, [l3] + ([l4] + []));
    RawLineParses(p2, i);
    var p3 := AfterLine(p2, l3);
    LinesStep(p2, l3, [l4] + []);
    RawLineParses(p3, i);
    LinesStep(p3, l4, []);
  }

  /** A reason line in front of the four field lines. */
  lemma LinesComeBackBehind(line: string, i: Info)
    requires CleanInfo(i) && IsLine(line)
    ensures LinesOf(Concat([line] + FieldLines(i))) == [line] + FieldLines(i)
  {
    hide CleanInfo, IsLine, FieldLines, Concat, LinesOf;
    FieldLinesUnclipped(i);
    var lines := [line] + FieldLines(i);
    forall k | 0 <= k < |lines| ensures IsLine(lines[k]) { if k > 0 { assert lines[k] == FieldLines(i)[k - 1]; } }
    LinesComeBack(lines);
  }

  /** parse_legacy_log recovers every field from the log rebootnow printed. */
  lemma RawRoundTrip(info: Info, i: Info, isCrash: bool)
    requires CleanInfo(i)
    ensures Parsed(info, LinesOf(Concat(RawLines(i, isCrash)))) == Some(i)
  {
    hide AfterLines, AfterLine, CleanInfo, FieldLines, Resolve, Concat, LinesOf, ReasonLine, IsLine;
    var line := ReasonLine(i.source, isCrash, i.otherReason);
    assert IsLine(line) && Clip(Concat(ReasonTexts(i.source, isCrash, i.otherReason)), LOG_BUFFER) == line by { ReasonLineUnclipped(i, isCrash); }
    LinesComeBackBehind(line, i);
    var p := Parse(0, 0, info, NO_INFO, "");
    ReasonLineParses(p, i, isCrash);
    LinesStep(p, line, FieldLines(i));
    FieldLinesParse(AfterLine(p, line), i);
  }

  lemma ReasonLineUnclipped(i: Info, isCrash: bool)
    requires CleanInfo(i)
    ensures var line := ReasonLine(i.source, isCrash, i.otherReason);
            IsLine(line) && Clip(Concat(ReasonTexts(i.source, isCrash, i.otherReason)), LOG_BUFFER) == line
  {
    hide Clean, ReasonLine, Concat;
    ReasonLineIs(i.source, isCrash, i.otherReason);
    ReasonLineShape(i.source, isCrash, i.otherReason);
  }

  // ----- the fetcher's own log

  lemma InsideStamp(stamp: string, tail: string, m: string, i: nat)
    requires OccursAt(stamp + tail, m, i) && i + |m| <= |stamp|
    ensures Occurs(stamp, m)
  {
    forall k | 0 <= k < |m| ensures stamp[i..][k] == m[k] { OccurrenceHasChar(stamp + tail, m, i, k); }
    assert OccursAt(stamp, m, i);
  }

  /** A marker-free time stamp in front does not hide the marker that follows it. */
  lemma FindAfterStamp(stamp: string, m: string, rest: string)
    requires IsWord(m) && !Occurs(stamp, m)
    ensures Find(stamp + " " + m + rest, m) == Some(|stamp| + 1)
  {
    hide Find;
    var text := stamp + " " + m + rest;
    assert text[|stamp| + 1..] == m + rest;
    assert OccursAt(text, m, |stamp| + 1);
    var i := Find(text, m).value;
    if i <= |stamp| {
      if i + |m| <= |stamp| {
        assert text == stamp + (" " + m + rest);
        InsideStamp(stamp, " " + m + rest, m, i);
      } else {
        OccurrenceHasChar(text, m, i, |stamp| - i);
      }
    }
  }

  lemma PreviousValueIn(stamp: string, m: string, v: string, size: nat)
    requires IsWord(m) && !Occurs(stamp, m) && Loose(v, size)
    ensures var line := PreviousLine(stamp, m, v); Contains(line, m) && ValueIn(line, m, size) == TrimEnd(v)
  {
    hide FieldOf, MarkerFree, Find;
    var line := PreviousLine(stamp, m, v);
    assert line == stamp + " " + m + (" " + v + "\n");
    FindAfterStamp(stamp, m, " " + v + "\n");
    assert line[|stamp| + 1 + |m|..] == " " + v + "\n";
    FieldReadsBack(v, size);
  }

  lemma PreviousSlot(slot: Slot, stamp: string, v: string, size: nat)
    requires IsPrevious(slot) && MarkerFree(stamp) && Loose(v, size)
    ensures var line := PreviousLine(stamp, MarkerOf(slot), v);
            && SlotOf(line) == slot && Contains(line, MarkerOf(slot)) && ValueIn(line, MarkerOf(slot), size) == TrimEnd(v)
  {
    hide Occurs, FieldOf, OccursAt, Find, PreviousLine, ValueIn;
    var m := MarkerOf(slot);
    NoPreviousMarker(stamp);
    MarkersAreWords();
    PreviousValueIn(stamp, m, v, size);
    NoPreviousMarker(v);
    EarlierMarkersDiffer();
    WordInPreviousLine(stamp, m, v, PREV_SOURCE);
    WordInPreviousLine(stamp, m, v, PREV_TIME);
    WordInPreviousLine(stamp, m, v, PREV_CUSTOM);
  }

  lemma PreviousLineParses(p: Parse, stamp: string, i: Info)
    requires LooseInfo(i) && MarkerFree(stamp)
    ensures AfterLine(p, PreviousLine(stamp, PREV_SOURCE, i.source)) == p.(found := p.found + 1, info := p.info.(source := TrimEnd(i.source)))
    ensures AfterLine(p, PreviousLine(stamp, PREV_TIME, i.timestamp)) == p.(found := p.found + 1, info := p.info.(timestamp := TrimEnd(i.timestamp)))
    ensures AfterLine(p, PreviousLine(stamp, PREV_CUSTOM, i.customReason)) == p.(found := p.found + 1, info := p.info.(customReason := TrimEnd(i.customReason)))
    ensures AfterLine(p, PreviousLine(stamp, PREV_OTHER, i.otherReason)) == p.(found := p.found + 1, info := p.info.(otherReason := TrimEnd(i.otherReason)))
  {
    hide SlotOf, ValueIn, Occurs, Loose, PreviousLine, TrimEnd;
    PreviousSlot(PrevSource, stamp, i.source, REASON_LENGTH);
    PreviousSlot(PrevTime, stamp, i.timestamp, TIMESTAMP_LENGTH);
    PreviousSlot(PrevCustom, stamp, i.customReason, REASON_LENGTH);
    PreviousSlot(PrevOther, stamp, i.otherReason, REASON_LENGTH);
  }

  /** The first line of the fetcher's log, without its newline. */
  function ReasonPart(stamp: string, reason: string): string { stamp + " " + PREV_REASON + " " + reason }

  lemma ReasonPartIsMarkerFree(stamp: string, reason: string)
    requires MarkerFree(stamp) && MarkerFree(reason)
    ensures MarkerFree(ReasonPart(stamp, reason))
  {
    hide MarkerFree;
    assert MarkerFree(PREV_REASON) by { PreviousReasonMarker(); }
    MarkerFreeJoin(stamp, ' ', PREV_REASON);
    MarkerFreeJoin(stamp + [' '] + PREV_REASON, ' ', reason);
    assert stamp + [' '] + PREV_REASON + [' '] + reason == ReasonPart(stamp, reason);
  }

  lemma MarkerFreeParts(a: string, k: nat)
    requires MarkerFree(a) && k <= |a|
    ensures MarkerFree(a[..k]) && MarkerFree(a[k..])
  {
    hide Occurs;
    forall m | Occurs(a[..k], m) || Occurs(a[k..], m) ensures Occurs(a, m) {
      if Occurs(a[..k], m) { PrefixOccurs(a, a[..k], m); }
      if Occurs(a[k..], m) { OccursInside(a[..k], a[k..], "", m); assert a[..k] + a[k..] + "" == a; }
    }
  }

  lemma PieceOfLongLine(a: string, rest: string)
    requires OneLine(a) && |a| + 1 >= LINE_BUFFER
    ensures LinesOf(a + "\n" + rest) == [a[..LINE_BUFFER - 1]] + LinesOf(a[LINE_BUFFER - 1..] + "\n" + rest)
  {
    hide Until, Pieces, CStr;
    var text, n := a + "\n" + rest, LINE_BUFFER - 1;
    assert text[..|a|] == a;
    FirstNewline(text, |a|);
    assert PieceLength(text, LINE_BUFFER) == n;
    PiecesStep(text, LINE_BUFFER);
    assert text[..n] == a[..n] && text[n..] == a[n..] + "\n" + rest;
    MapStep(a[..n], Pieces(text[n..], LINE_BUFFER));
  }

  lemma MapStep(piece: string, pieces: seq<string>)
    requires NUL !in piece
    ensures Map([piece] + pieces) == [piece] + Map(pieces)
  {
    hide CStr;
    assert ([piece] + pieces)[1..] == pieces;
  }

  /** A marker-free line of any length, cut into pieces if need be, changes nothing but the kept reason line. */
  lemma {:induction false} MarkerFreeTextParses(p: Parse, a: string, rest: string) returns (r: string)
    requires OneLine(a) && MarkerFree(a) && p.found < 4
    ensures AfterLines(p, LinesOf(a + "\n" + rest)) == AfterLines(p.(rawReason := r), LinesOf(rest))
    decreases |a|
  {
    hide AfterLine, MarkerFree, LinesOf, AfterLines;
    if |a| + 1 < LINE_BUFFER {
      var line := a + "\n";
      assert line[..|a|] == a;
      LineComesOff(line, rest);
      assert MarkerFree("") by { ProcessIsMarkerFree(false); }
      MarkerFreeJoin(a, '\n', "");
      assert a + ['\n'] + "" == line;
      MarkerFreeLineParses(p, line);
      LinesStep(p, line, LinesOf(rest));
      r := AfterLine(p, line).rawReason;
    } else {
      var n := LINE_BUFFER - 1;
      PieceOfLongLine(a, rest);
      MarkerFreeParts(a, n);
      MarkerFreeLineParses(p, a[..n]);
      LinesStep(p, a[..n], LinesOf(a[n..] + "\n" + rest));
      r := MarkerFreeTextParses(AfterLine(p, a[..n]), a[n..], rest);
    }
  }

  lemma PreviousReasonLetters()
    ensures 'T' !in PREV_REASON && 'C' !in PREV_REASON && 'O' !in PREV_REASON && 'I' !in PREV_REASON
  {
  }

  lemma MarkerLetters()
    ensures 'I' in RAW_SOURCE && 'T' in RAW_TIME && 'C' in RAW_CUSTOM && 'O' in RAW_OTHER
  {
    assert RAW_SOURCE[6] == 'I' && RAW_TIME[6] == 'T' && RAW_CUSTOM[0] == 'C' && RAW_OTHER[0] == 'O';
  }

  lemma PreviousReasonMarker()
    ensures MarkerFree(PREV_REASON)
  {
    hide Occurs;
    PreviousReasonLetters();
    MarkerLetters();
    Lacks(PREV_REASON, RAW_SOURCE, 'I');
    Lacks(PREV_REASON, RAW_TIME, 'T');
    Lacks(PREV_REASON, RAW_CUSTOM, 'C');
    Lacks(PREV_REASON, RAW_OTHER, 'O');
  }

  /** A marker-free line changes nothing but the kept reason line. */
  lemma MarkerFreeLineParses(p: Parse, line: string)
    requires MarkerFree(line)
    ensures AfterLine(p, line) == p.(rawReason := AfterLine(p, line).rawReason)
  {
    hide Occurs, Find;
    NoPreviousMarker(line);
  }

  ghost predicate CleanStamps(stamps: seq<string>)
  {
    forall k :: 0 <= k < |stamps| ==> |stamps[k]| < 64 && OneLine(stamps[k]) && MarkerFree(stamps[k])
  }

  lemma PreviousLinesAreLines(stamps: seq<string>, reason: string, i: Info)
    requires |stamps| == 5 && CleanStamps(stamps) && LooseInfo(i)
    ensures forall k :: 1 <= k < 5 ==> IsLine(PreviousLines(stamps, reason, i)[k])
  {
    hide MarkerFree;
    Lengths();
    PreviousHeadsAreOneLine();
    PreviousLineIsLine(stamps[1], PREV_SOURCE, i.source);
    PreviousLineIsLine(stamps[2], PREV_TIME, i.timestamp);
    PreviousLineIsLine(stamps[3], PREV_CUSTOM, i.customReason);
    PreviousLineIsLine(stamps[4], PREV_OTHER, i.otherReason);
  }

  lemma PreviousHeadsAreOneLine()
    ensures OneLine(PREV_SOURCE) && OneLine(PREV_TIME) && OneLine(PREV_CUSTOM) && OneLine(PREV_OTHER)
    ensures OneLine(PREV_REASON)
  {
    PreviousMarkersExtend();
    RawHeadsAreOneLine();
    assert OneLine("Previous");
  }

  lemma PreviousLineIsLine(stamp: string, key: string, v: string)
    requires OneLine(stamp) && |stamp| < 64 && OneLine(key) && |key| <= 26 && OneLine(v) && |v| < REASON_LENGTH
    ensures IsLine(PreviousLine(stamp, key, v))
  {
    var line := PreviousLine(stamp, key, v);
    assert line[..|line| - 1] == stamp + " " + key + " " + v;
  }

  lemma PreviousLinesParse(p: Parse, stamps: seq<string>, reason: string, i: Info)
    requires |stamps| == 5 && CleanStamps(stamps) && LooseInfo(i) && p.found == 0
    ensures var q := AfterLines(p, PreviousLines(stamps, reason, i)[1..]); q.found == 4 && q.info == Trimmed(i)
  {
    hide AfterLine, LooseInfo, PreviousLine, MarkerFree, TrimEnd;
    var l1 := PreviousLine(stamps[1], PREV_SOURCE, i.source);
    var l2, l3 := PreviousLine(stamps[2], PREV_TIME, i.timestamp), PreviousLine(stamps[3], PREV_CUSTOM, i.customReason);
    var l4 := PreviousLine(stamps[4], PREV_OTHER, i.otherReason);
    assert PreviousLines(stamps, reason, i)[1..] == [l1] + ([l2] + ([l3] + [l4]));
    PreviousLineParses(p, stamps[1], i);
    var p1 := AfterLine(p, l1);
    LinesStep(p, l1, [l2] + ([l3] + [l4]));
    PreviousLineParses(p1, stamps[2], i);
    var p2 := AfterLine(p1, l2);
    LinesStep(p1, l2, [l3] + [l4]);
    PreviousLineParses(p2, stamps[3], i);
    var p3 := AfterLine(p2, l3);
    LinesStep(p2, l3, [l4]);
    PreviousLineParses(p3, stamps[4], i);
    assert AfterLines(p3, [l4]) == AfterLine(p3, l4);
  }

  /** parse_legacy_log recovers every field, without trailing white space, from the Previous log the
      fetcher printed, behind a reason line of any length. */
  lemma PreviousLogTrims(info: Info, stamps: seq<string>, reason: string, i: Info)
    requires |stamps| == 5 && CleanStamps(stamps) && LooseInfo(i)
    requires MarkerFree(reason) && OneLine(reason)
    ensures Parsed(info, LinesOf(Concat(PreviousLines(stamps, reason, i)))) == Some(Trimmed(i))
  {
    hide AfterLines, LooseInfo, MarkerFree, TrimEnd, Resolve, PreviousLine, LinesOf, IsLine;
    var lines := PreviousLines(stamps, reason, i);
    var a, rest := ReasonPart(stamps[0], reason), Concat(lines[1..]);
    assert Concat(lines) == a + "\n" + rest by { FirstPreviousLine(stamps[0], reason); }
    ReasonPartIsMarkerFree(stamps[0], reason);
    PreviousHeadsAreOneLine();
    assert OneLine(a);
    PreviousLinesAreLines(stamps, reason, i);
    LinesComeBack(lines[1..]);
    var p := Parse(0, 0, info, NO_INFO, "");
    var r := MarkerFreeTextParses(p, a, rest);
    PreviousLinesParse(p.(rawReason := r), stamps, reason, i);
  }

  /** In particular clean fields come back exactly. */
  lemma PreviousRoundTrip(info: Info, stamps: seq<string>, reason: string, i: Info)
    requires |stamps| == 5 && CleanStamps(stamps) && CleanInfo(i)
    requires MarkerFree(reason) && OneLine(reason)
    ensures Parsed(info, LinesOf(Concat(PreviousLines(stamps, reason, i)))) == Some(i)
  {
    CleanIsTrimmed(i);
    hide CleanStamps, LooseInfo, CleanInfo, MarkerFree, Parsed, LinesOf, PreviousLines, Trimmed;
    PreviousLogTrims(info, stamps, reason, i);
  }

  lemma FirstPreviousLine(stamp: string, reason: string)
    ensures PreviousLine(stamp, PREV_REASON, reason) == ReasonPart(stamp, reason) + "\n"
  {
  }

  // ----- Previous lines win

  /** Only the lines with a Previous marker. */
  function PreviousOnly(lines: seq<string>): seq<string>
  {
    if lines == [] then []
    else (if IsPrevious(SlotOf(lines[0])) then [lines[0]] else []) + PreviousOnly(lines[1..])
  }

  lemma {:induction false} PreviousPart(p: Parse, q: Parse, lines: seq<string>)
    requires p.found == q.found < 4 && p.info == q.info
    ensures AfterLines(p, lines).found == AfterLines(q, PreviousOnly(lines)).found
    ensures AfterLines(p, lines).info == AfterLines(q, PreviousOnly(lines)).info
    decreases |lines|
  {
    hide SlotOf, ValueIn;
    if lines != [] {
      var rest := PreviousOnly(lines[1..]);
      if IsPrevious(SlotOf(lines[0])) {
        assert PreviousOnly(lines) == [lines[0]] + rest && PreviousOnly(lines)[1..] == rest;
        if AfterLine(p, lines[0]).found < 4 {
          PreviousPart(AfterLine(p, lines[0]), AfterLine(q, lines[0]), lines[1..]);
        }
      } else {
        assert PreviousOnly(lines) == rest;
        PreviousPart(AfterLine(p, lines[0]), q, lines[1..]);
      }
    }
  }

  /** One Previous line is enough to make every other line irrelevant. */
  lemma PreviousLinesWin(info: Info, lines: seq<string>)
    requires PreviousOnly(lines) != []
    ensures Parsed(info, lines) == Parsed(info, PreviousOnly(lines)) && Parsed(info, lines).Some?
  {
    hide SlotOf, ValueIn, Resolve;
    var start := Parse(0, 0, info, NO_INFO, "");
    PreviousPart(start, start, lines);
    PreviousIsFound(start, PreviousOnly(lines));
    OnlyPrevious(lines);
  }

  lemma {:induction false} OnlyPrevious(lines: seq<string>)
    ensures forall i :: 0 <= i < |PreviousOnly(lines)| ==> IsPrevious(SlotOf(PreviousOnly(lines)[i]))
  {
    hide SlotOf;
    if lines != [] { OnlyPrevious(lines[1..]); }
  }

  lemma {:induction false} PreviousIsFound(p: Parse, lines: seq<string>)
    ensures AfterLines(p, lines).found >= p.found
    ensures lines != [] && IsPrevious(SlotOf(lines[0])) ==> AfterLines(p, lines).found > p.found
    decreases |lines|
  {
    hide SlotOf, ValueIn;
    if lines != [] { PreviousIsFound(AfterLine(p, lines[0]), lines[1..]); }
  }

  // ----- HAL_SYS_Reboot

  ghost predicate AllSpaces(s: string) { forall i :: 0 <= i < |s| ==> s[i] == ' ' }

  ghost predicate AllBlanks(s: string) { forall i :: 0 <= i < |s| ==> IsBlank(s[i]) }

  /** The line behind its first trigger: the initiator, a space and more spaces, the reason words,
      blanks, and possibly a note from a parenthesis on. */
  datatype Parts = Parts(front: string, initiator: string, spaces: string, words: string, blanks: string, note: string)

  function Tail(h: Parts): string { h.spaces + (h.words + h.blanks + h.note) }

  ghost predicate IsHalLine(line: string, h: Parts)
  {
    && line == h.front + TRIGGER + (h.initiator + [' '] + Tail(h)) && Find(line, TRIGGER) == Some(|h.front|)
    && ' ' !in h.initiator && AllSpaces(h.spaces) && AllBlanks(h.blanks) && '(' !in h.words
    && (h.words != "" ==> !IsBlank(h.words[|h.words| - 1]))
    && (h.words + h.blanks != "" ==> (h.words + h.blanks)[0] != ' ')
    && (h.note != "" ==> h.note[0] == '(')
  }

  lemma UntilAt(s: string, c: char, rest: string)
    requires c !in s
    ensures Until(s + [c] + rest, c) == Some(|s|)
  {
    var text := s + [c] + rest;
    if s != "" {
      assert text[0] == s[0];
      assert text[1..] == s[1..] + [c] + rest;
      UntilAt(s[1..], c, rest);
    }
  }

  lemma SkipSpacesAll(spaces: string, rest: string)
    requires AllSpaces(spaces) && (rest != "" ==> rest[0] != ' ')
    ensures SkipSpaces(spaces + rest) == rest
  {
    if spaces == "" { assert spaces + rest == rest; }
    else {
      assert (spaces + rest)[1..] == spaces[1..] + rest;
      SkipSpacesAll(spaces[1..], rest);
    }
  }

  lemma TrimBlanksAll(words: string, blanks: string)
    requires AllBlanks(blanks) && (words != "" ==> !IsBlank(words[|words| - 1]))
    ensures TrimBlanks(words + blanks) == words
  {
    if blanks == "" { assert words + blanks == words; }
    else {
      var all, b := words + blanks, blanks[..|blanks| - 1];
      assert all[..|all| - 1] == words + b;
      TrimBlanksAll(words, b);
    }
  }

  lemma BeforeParenIs(s: string, note: string)
    requires '(' !in s && (note != "" ==> note[0] == '(')
    ensures BeforeParen(s + note) == s
  {
    hide Until;
    if note == "" { assert s + note == s; }
    else {
      assert s + note == s + ['('] + note[1..];
      UntilAt(s, '(', note[1..]);
    }
  }

  lemma TailWords(h: Parts, line: string)
    requires IsHalLine(line, h)
    ensures TrimBlanks(BeforeParen(SkipSpaces(Tail(h)))) == h.words
  {
    hide Find, SkipSpaces, BeforeParen, TrimBlanks;
    var core := h.words + h.blanks;
    assert (core + h.note) != "" ==> (core + h.note)[0] != ' ';
    SkipSpacesAll(h.spaces, core + h.note);
    assert '(' !in core;
    BeforeParenIs(core, h.note);
    TrimBlanksAll(h.words, h.blanks);
  }

  lemma ResolveAt(line: string, front: string, initiator: string, tail: string, raw: Info)
    requires line == front + TRIGGER + (initiator + [' '] + tail) && Find(line, TRIGGER) == Some(|front|) && ' ' !in initiator
    ensures Resolve(line, raw) == raw.(source := Clip(initiator, REASON_LENGTH),
                                       otherReason := Clip(TrimBlanks(BeforeParen(SkipSpaces(tail))), REASON_LENGTH))
  {
    hide Find, Until, SkipSpaces, BeforeParen, TrimBlanks, Clip, TRIGGER;
    var trigger := initiator + [' '] + tail;
    assert line[|front| + |TRIGGER|..] == trigger;
    UntilAt(initiator, ' ', tail);
    assert trigger[..|initiator|] == initiator && trigger[|initiator| + 1..] == tail;
  }

  /** The initiator and the trimmed reason words come out of every such line, clipped to the buffers. */
  lemma HalResolves(line: string, h: Parts, raw: Info)
    requires IsHalLine(line, h)
    ensures Resolve(line, raw) == raw.(source := Clip(h.initiator, REASON_LENGTH), otherReason := Clip(h.words, REASON_LENGTH))
  {
    TailWords(h, line);
    hide Resolve, Find, SkipSpaces, BeforeParen, TrimBlanks, Clip, Tail, AllBlanks, AllSpaces, TRIGGER;
    ResolveAt(line, h.front, h.initiator, Tail(h), raw);
  }

  lemma SplitTail(tail: string) returns (spaces: string, words: string, blanks: string, note: string)
    ensures tail == spaces + (words + blanks + note)
    ensures AllSpaces(spaces) && AllBlanks(blanks) && '(' !in words
    ensures words != "" ==> !IsBlank(words[|words| - 1])
    ensures words + blanks != "" ==> (words + blanks)[0] != ' '
    ensures note != "" ==> note[0] == '('
  {
    hide IsBlank, AllSpaces, AllBlanks;
    var rest, core;
    spaces, rest := SpacesOff(tail);
    core, note := NoteOff(rest);
    words, blanks := BlanksOff(core);
  }

  lemma SpacesOff(tail: string) returns (spaces: string, rest: string)
    ensures tail == spaces + rest && AllSpaces(spaces) && (rest != "" ==> rest[0] != ' ')
  {
    hide SkipSpaces;
    rest := SkipSpaces(tail);
    spaces := tail[..|tail| - |rest|];
  }

  lemma NoteOff(rest: string) returns (core: string, note: string)
    ensures rest == core + note && '(' !in core && (note != "" ==> note[0] == '(')
  {
    hide BeforeParen;
    core := BeforeParen(rest);
    note := rest[|core|..];
  }

  lemma BlanksOff(core: string) returns (words: string, blanks: string)
    ensures core == words + blanks && AllBlanks(blanks) && (words != "" ==> !IsBlank(words[|words| - 1]))
  {
    hide TrimBlanks;
    words := TrimBlanks(core);
    blanks := core[|words|..];
  }

  /** Every line with a trigger and a space somewhere behind it is such a line. */
  lemma EveryHalLine(line: string) returns (h: Parts)
    requires Find(line, TRIGGER).Some? && ' ' in line[Find(line, TRIGGER).value + |TRIGGER|..]
    ensures IsHalLine(line, h)
  {
    hide Find, Until, TRIGGER, AllSpaces, AllBlanks;
    var at := Find(line, TRIGGER).value;
    var trigger := line[at + |TRIGGER|..];
    var k := Until(trigger, ' ').value;
    var spaces, words, blanks, note := SplitTail(trigger[k + 1..]);
    h := Parts(line[..at], trigger[..k], spaces, words, blanks, note);
    assert trigger == h.initiator + [' '] + Tail(h);
    assert line[at..][..|TRIGGER|] == TRIGGER;
    assert line == h.front + TRIGGER + trigger;
  }

  lemma LastOf(a: string, b: string)
    requires b != ""
    ensures (a + b)[|a + b| - 1] == b[|b| - 1]
  {
  }

  /** A newline at the end stands in the words when nothing but blanks can come behind them. */
  lemma NewlineInWords(before: string, words: string, blanks: string)
    requires AllBlanks(blanks) && before != "" && before[|before| - 1] == ' '
    requires (before + words + blanks)[|before + words + blanks| - 1] == '\n'
    ensures blanks == "" && words != "" && words[|words| - 1] == '\n'
  {
    if blanks != "" {
      LastOf(before + words, blanks);
      assert false;
    }
    assert before + words + blanks == before + words;
    if words == "" { assert false; }
    LastOf(before, words);
  }

  lemma HalSplits(line: string, h: Parts) returns (before: string)
    requires IsHalLine(line, h)
    ensures line == before + h.words + h.blanks + h.note && before != "" && before[|before| - 1] == ' '
  {
    hide Find, TRIGGER, AllBlanks;
    before := h.front + TRIGGER + h.initiator + ([' '] + h.spaces);
    assert line == before + h.words + h.blanks + h.note;
    LastOf(h.front + TRIGGER + h.initiator, [' '] + h.spaces);
  }

  /** The newline at the end of a line stays in the reason exactly when no parenthesis follows the
      words and the words are not clipped. */
  lemma HalNewlineExactly(line: string, h: Parts, raw: Info)
    requires IsLine(line) && IsHalLine(line, h)
    ensures '\n' in Resolve(line, raw).otherReason <==> h.note == "" && |h.words| < REASON_LENGTH
  {
    HalResolves(line, h, raw);
    var before := HalSplits(line, h);
    assert AllBlanks(h.blanks);
    hide Resolve, IsHalLine;
    NewlineStays(line, before, h.words, h.blanks, h.note);
  }

  lemma NewlineStays(line: string, before: string, words: string, blanks: string, note: string)
    requires IsLine(line) && line == before + words + blanks + note && AllBlanks(blanks)
    requires before != "" && before[|before| - 1] == ' '
    ensures '\n' in Clip(words, REASON_LENGTH) <==> note == "" && |words| < REASON_LENGTH
  {
    var n := |line| - 1;
    assert forall i :: 0 <= i < n ==> line[i] != '\n' by {
      forall i | 0 <= i < n ensures line[i] != '\n' { assert line[i] == line[..n][i]; }
    }
    assert forall i :: 0 <= i < |words| ==> words[i] == line[|before| + i];
    if note == "" {
      assert line == before + words + blanks;
      NewlineInWords(before, words, blanks);
    }
  }

  /** The parse of a log whose initiator is HAL_SYS_Reboot: the real initiator and the reason words of
      the kept reason line take the place of the recorded ones. */
  lemma HalLogParses(info: Info, line: string, h: Parts, i: Info)
    requires CleanInfo(i) && i.source == HAL && IsLine(line) && IsHalLine(line, h)
    requires MarkerFree(line) && Occurs(line, RAW_REASON) && !Occurs(line, HAL)
    ensures Parsed(info, LinesOf(Concat([line] + FieldLines(i))))
         == Some(i.(source := Clip(h.initiator, REASON_LENGTH), otherReason := Clip(h.words, REASON_LENGTH)))
  {
    var p := Parse(0, 0, info, NO_INFO, "");
    assert AfterLine(p, line) == p.(rawReason := line) by { KeptReasonLine(p, line); }
    assert line != "";
    hide AfterLines, AfterLine, CleanInfo, FieldLines, Resolve, Concat, LinesOf, IsLine, IsHalLine, Clip;
    LinesComeBackBehind(line, i);
    LinesStep(p, line, FieldLines(i));
    FieldLinesParse(p.(rawReason := line), i);
    HalResolves(line, h, i);
  }

  lemma KeptReasonLine(p: Parse, line: string)
    requires IsLine(line) && MarkerFree(line) && Occurs(line, RAW_REASON) && !Occurs(line, HAL)
    ensures AfterLine(p, line) == p.(rawReason := line)
  {
    hide Occurs, Find;
    NoPreviousMarker(line);
  }
}
