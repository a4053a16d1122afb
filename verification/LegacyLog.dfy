/** parse_legacy_log: the text reboot log read line by line. */
module LegacyLog {
  import opened CStrings
  import opened RecordText
  import opened RebootInfos
  import opened LineScan
  import opened BoundedAppend

  const REASON_LENGTH: nat := 128
  const TIMESTAMP_LENGTH: nat := 64

  /** The four fields the log carries. */
  datatype Info = Info(source: string, timestamp: string, customReason: string, otherReason: string)

  // ----- the value behind a marker

  predicate IsBlank(c: char) { c == ' ' || c == '\t' }

  predicate IsTrailing(c: char) { c == ' ' || c == '\t' || c == '\n' || c == '\r' }

  function SkipBlanks(s: string): (r: string)
    ensures r != "" ==> !IsBlank(r[0])
    ensures |r| <= |s| && r == s[|s| - |r|..] && forall i :: 0 <= i < |s| - |r| ==> IsBlank(s[i])
  {
    if s != "" && IsBlank(s[0]) then SkipBlanks(s[1..]) else s
  }

  function TrimEnd(s: string): (r: string)
    ensures r <= s && (r != "" ==> !IsTrailing(r[|r| - 1]))
    ensures forall i :: |r| <= i < |s| ==> IsTrailing(s[i])
  {
    if s != "" && IsTrailing(s[|s| - 1]) then TrimEnd(s[..|s| - 1]) else s
  }

  /** The field getVal leaves in a buffer of `size` bytes from the text behind its marker. */
  function FieldOf(tail: string, size: nat): (r: string)
    requires size > 0
    ensures |r| < size
  {
    TrimEnd(Clip(SkipBlanks(tail), size))
  }

  /** strncpy into a buffer, terminated. */
  method CopyInto(output: array<char>, s: string)
    requires |s| < output.Length
    modifies output
    ensures Holds(output, s)
  {
    for k := 0 to |s|
      invariant output[..k] == s[..k]
    {
      output[k] := s[k];
    }
    output[|s|] := NUL;
  }

  /** The loop that cuts trailing white space off in place. */
  method TrimInPlace(output: array<char>, ghost s: string, len: nat)
    requires Holds(output, s) && len == |s|
    modifies output
    ensures Holds(output, TrimEnd(s))
  {
    var end := len - 1;
    assert s[..end + 1] == s;
    while end >= 0 && IsTrailing(output[end])
      invariant -1 <= end < len
      invariant output[..end + 1] == s[..end + 1] && output[end + 1] == NUL
      invariant TrimEnd(s[..end + 1]) == TrimEnd(s)
      decreases end
    {
      assert output[end] == output[..end + 1][end] == s[..end + 1][end];
      assert s[..end + 1][..end] == s[..end];
      output[end] := NUL;
      assert output[..end] == s[..end];
      end := end - 1;
    }
    if end >= 0 { assert output[end] == output[..end + 1][end] == s[..end + 1][end]; }
    assert TrimEnd(s) == s[..end + 1];
  }

  /** The loop that moves past leading blanks. */
  method SkipLoop(line: string, from: nat) returns (value: nat)
    requires from <= |line|
    ensures value <= |line| && SkipBlanks(line[from..]) == line[value..]
  {
    hide SkipBlanks;
    value := from;
    while value < |line| && (line[value] == ' ' || line[value] == '\t')
      invariant from <= value <= |line|
      invariant SkipBlanks(line[value..]) == SkipBlanks(line[from..])
    {
      SkipStep(line, value);
      value := value + 1;
    }
    SkipStep(line, value);
  }

  lemma SkipStep(line: string, k: nat)
    requires k <= |line|
    ensures SkipBlanks(line[k..]) == if k < |line| && IsBlank(line[k]) then SkipBlanks(line[k + 1..]) else line[k..]
  {
    if k < |line| { assert line[k..][0] == line[k] && line[k..][1..] == line[k + 1..]; }
  }

  /** getVal: skip blanks, copy, then trim. */
  method GetVal(line: string, prefix: string, output: array<char>)
    requires prefix <= line && output.Length > 0
    modifies output
    ensures Holds(output, FieldOf(line[|prefix|..], output.Length))
  {
    hide SkipBlanks, TrimEnd, Clip;
    var value := SkipLoop(line, |prefix|);
    var copied := Clip(line[value..], output.Length);
    CopyInto(output, copied);
    TrimInPlace(output, copied, |copied|);
  }

  // ----- which line is which

  const PREV_SOURCE: string := "PreviousRebootInitiatedBy:"
  const PREV_TIME: string := "PreviousRebootTime:"
  const PREV_CUSTOM: string := "PreviousCustomReason:"
  const PREV_OTHER: string := "PreviousOtherReason:"
  const RAW_SOURCE: string := "RebootInitiatedBy:"
  const RAW_TIME: string := "RebootTime:"
  const RAW_CUSTOM: string := "CustomReason:"
  const RAW_OTHER: string := "OtherReason:"
  const RAW_REASON: string := "RebootReason:"
  const HAL: string := "HAL_SYS_Reboot"

  datatype Slot = PrevSource | PrevTime | PrevCustom | PrevOther
                | RawSource | RawTime | RawCustom | RawOther | RawReason | Nothing

  /** The first marker, in the order of the tests, that the line contains. */
  function SlotOf(line: string): Slot
  {
    if Contains(line, PREV_SOURCE) then PrevSource
    else if Contains(line, PREV_TIME) then PrevTime
    else if Contains(line, PREV_CUSTOM) then PrevCustom
    else if Contains(line, PREV_OTHER) then PrevOther
    else if Contains(line, RAW_SOURCE) then RawSource
    else if Contains(line, RAW_TIME) then RawTime
    else if Contains(line, RAW_CUSTOM) then RawCustom
    else if Contains(line, RAW_OTHER) then RawOther
    else if Contains(line, RAW_REASON) && !Contains(line, HAL) then RawReason
    else Nothing
  }

  function MarkerOf(slot: Slot): string
    requires !slot.RawReason? && !slot.Nothing?
  {
    match slot
    case PrevSource => PREV_SOURCE
    case PrevTime => PREV_TIME
    case PrevCustom => PREV_CUSTOM
    case PrevOther => PREV_OTHER
    case RawSource => RAW_SOURCE
    case RawTime => RAW_TIME
    case RawCustom => RAW_CUSTOM
    case RawOther => RAW_OTHER
  }

  predicate IsPrevious(slot: Slot) { slot.PrevSource? || slot.PrevTime? || slot.PrevCustom? || slot.PrevOther? }

  /** The value behind the first occurrence of the marker. */
  function ValueIn(line: string, marker: string, size: nat): string
    requires Contains(line, marker) && size > 0
  {
    FieldOf(line[Find(line, marker).value + |marker|..], size)
  }

  /** What the loop has collected. */
  datatype Parse = Parse(found: nat, raw: nat, info: Info, rawInfo: Info, rawReason: string)

  const NO_INFO: Info := Info("", "", "", "")

  function AfterLine(p: Parse, line: string): Parse
  {
    match SlotOf(line)
    case PrevSource => p.(found := p.found + 1, info := p.info.(source := ValueIn(line, PREV_SOURCE, REASON_LENGTH)))
    case PrevTime => p.(found := p.found + 1, info := p.info.(timestamp := ValueIn(line, PREV_TIME, TIMESTAMP_LENGTH)))
    case PrevCustom => p.(found := p.found + 1, info := p.info.(customReason := ValueIn(line, PREV_CUSTOM, REASON_LENGTH)))
    case PrevOther => p.(found := p.found + 1, info := p.info.(otherReason := ValueIn(line, PREV_OTHER, REASON_LENGTH)))
    case RawSource => p.(raw := p.raw + 1, rawInfo := p.rawInfo.(source := ValueIn(line, RAW_SOURCE, REASON_LENGTH)))
    case RawTime => p.(raw := p.raw + 1, rawInfo := p.rawInfo.(timestamp := ValueIn(line, RAW_TIME, TIMESTAMP_LENGTH)))
    case RawCustom => p.(raw := p.raw + 1, rawInfo := p.rawInfo.(customReason := ValueIn(line, RAW_CUSTOM, REASON_LENGTH)))
    case RawOther => p.(raw := p.raw + 1, rawInfo := p.rawInfo.(otherReason := ValueIn(line, RAW_OTHER, REASON_LENGTH)))
    case RawReason => p.(rawReason := Clip(line, LINE_BUFFER))
    case Nothing => p
  }

  /** The loop: it stops at the end of the lines or after four Previous fields. */
  function AfterLines(p: Parse, lines: seq<string>): Parse
    decreases |lines|
  {
    if lines == [] then p
    else
      var p' := AfterLine(p, lines[0]);
      if p'.found >= 4 then p' else AfterLines(p', lines[1..])
  }

  const TRIGGER: string := "Triggered from "

  /** resolve_hal_sys_reboot: the initiator and the reason behind the trigger. */
  function Resolve(reasonLine: string, raw: Info): Info
  {
    match Find(reasonLine, TRIGGER)
    case None => raw
    case Some(at) =>
      var trigger := reasonLine[at + |TRIGGER|..];
      match Until(trigger, ' ')
      case None => raw.(source := TrimEnd(Clip(trigger, REASON_LENGTH)))
      case Some(k) =>
        raw.(source := Clip(trigger[..k], REASON_LENGTH), otherReason := Clip(TrimBlanks(BeforeParen(SkipSpaces(trigger[k + 1..]))), REASON_LENGTH))
  }

  function BeforeParen(s: string): (r: string)
    ensures r <= s && '(' !in r && (|r| < |s| ==> s[|r|] == '(')
  {
    match Until(s, '(') case Some(e) => s[..e] case None => s
  }

  function SkipSpaces(s: string): (r: string)
    ensures |r| <= |s| && r == s[|s| - |r|..] && (r != "" ==> r[0] != ' ')
    ensures forall i :: 0 <= i < |s| - |r| ==> s[i] == ' '
  {
    if s != "" && s[0] == ' ' then SkipSpaces(s[1..]) else s
  }

  function TrimBlanks(s: string): (r: string)
    ensures r <= s && (r != "" ==> !IsBlank(r[|r| - 1]))
    ensures forall i :: |r| <= i < |s| ==> IsBlank(s[i])
  {
    if s != "" && IsBlank(s[|s| - 1]) then TrimBlanks(s[..|s| - 1]) else s
  }

  /** resolve_hal_sys_reboot, with its loops over the text behind the initiator. */
  method ResolveHalSysReboot(reasonLine: string, raw: Info) returns (r: Info)
    requires NUL !in reasonLine
    ensures r == Resolve(reasonLine, raw)
  {
    hide Find, Until, SkipSpaces, TrimBlanks, TrimEnd, BeforeParen, Clip;
    var at := Find(reasonLine, TRIGGER);
    if at.None? { return raw; }
    var trigger := reasonLine[at.value + |TRIGGER|..];
    var space := Until(trigger, ' ');
    if space.None? {
      var source := TrimmedCopy(trigger);
      return raw.(source := source);
    }
    var initiator := Clip(trigger[..space.value], REASON_LENGTH);
    var words := ReasonWords(trigger[space.value + 1..]);
    r := raw.(source := initiator, otherReason := words);
  }

  method ReasonWords(tail: string) returns (words: string)
    ensures words == Clip(TrimBlanks(BeforeParen(SkipSpaces(tail))), REASON_LENGTH)
  {
    hide Until, SkipSpaces, TrimBlanks;
    var rest := SkipSpacesLoop(tail);
    var paren := Until(rest, '(');
    assert rest[..|rest|] == rest;
    var restLen := TrimBlanksLoop(rest, if paren.Some? then paren.value else |rest|);
    words := rest[..if restLen >= REASON_LENGTH then REASON_LENGTH - 1 else restLen];
  }

  /** strncpy into a buffer and the loop that trims it in place. */
  method TrimmedCopy(s: string) returns (r: string)
    requires NUL !in s
    ensures r == TrimEnd(Clip(s, REASON_LENGTH))
  {
    hide TrimEnd, Clip;
    var buffer := new char[REASON_LENGTH];
    var copied := Clip(s, REASON_LENGTH);
    CopyInto(buffer, copied);
    TrimInPlace(buffer, copied, |copied|);
    CStrOf(buffer[..], TrimEnd(copied));
    r := CStr(buffer[..]);
  }

  method SkipSpacesLoop(s: string) returns (r: string)
    ensures r == SkipSpaces(s)
  {
    var k := 0;
    while k < |s| && s[k] == ' '
      invariant 0 <= k <= |s| && SkipSpaces(s[k..]) == SkipSpaces(s)
    {
      assert s[k..][1..] == s[k + 1..];
      k := k + 1;
    }
    r := s[k..];
  }

  method TrimBlanksLoop(s: string, end: nat) returns (n: nat)
    requires end <= |s|
    ensures n <= end && s[..n] == TrimBlanks(s[..end])
  {
    n := end;
    while n > 0 && (s[n - 1] == ' ' || s[n - 1] == '\t')
      invariant n <= end && TrimBlanks(s[..n]) == TrimBlanks(s[..end])
    {
      assert s[..n][..n - 1] == s[..n - 1];
      n := n - 1;
    }
  }

  /** What parse_legacy_log leaves in the caller's structure, if it succeeds. */
  function Parsed(info: Info, lines: seq<string>): Option<Info>
  {
    var p := AfterLines(Parse(0, 0, info, NO_INFO, ""), lines);
    if p.found > 0 then Some(p.info)
    else if p.raw > 0 then
      Some(if p.rawInfo.source == HAL && p.rawReason != "" then Resolve(p.rawReason, p.rawInfo) else p.rawInfo)
    else None
  }

  /** The lines of a file as the loop sees them. */
  function LinesOf(file: string): seq<string> { Map(Pieces(file, LINE_BUFFER)) }

  function Map(ps: seq<string>): (ls: seq<string>)
    ensures |ls| == |ps| && forall i :: 0 <= i < |ps| ==> ls[i] == CStr(ps[i])
  {
    if ps == [] then [] else [CStr(ps[0])] + Map(ps[1..])
  }

  const SUCCESS: int := 0
  const ERROR_FILE_NOT_FOUND: int := -3
  const FAILURE: int := -5

  /** The fields of the caller's structure that the log carries. */
  ghost function Carried(info: RebootInfo): Info
    reads info
  {
    Info(info.source, info.timestamp, info.customReason, info.otherReason)
  }

  /** The value of a marker's line, through getVal and its buffer. */
  method ReadField(line: string, marker: string, size: nat) returns (value: string)
    requires Contains(line, marker) && size > 0 && NUL !in line
    ensures value == ValueIn(line, marker, size)
  {
    var at := Find(line, marker).value;
    var output := new char[size];
    GetVal(line[at..], marker, output);
    assert line[at..][|marker|..] == line[at + |marker|..];
    FieldHasNoNul(line[at + |marker|..], size);
    CStrOf(output[..], ValueIn(line, marker, size));
    value := CStr(output[..]);
  }

  lemma FieldHasNoNul(tail: string, size: nat)
    requires size > 0 && NUL !in tail
    ensures NUL !in FieldOf(tail, size)
  {
    var skipped := SkipBlanks(tail);
    assert forall c :: c in skipped ==> c in tail;
    var clipped := Clip(skipped, size);
    assert forall c :: c in clipped ==> c in skipped;
  }

  /** parse_legacy_log. */
  method ParseLegacyLog(file: Option<string>, info: RebootInfo) returns (rc: int)
    modifies info
    ensures file.None? ==> rc == ERROR_FILE_NOT_FOUND && Carried(info) == old(Carried(info))
    ensures file.Some? ==> rc == (if Parsed(old(Carried(info)), LinesOf(file.value)).Some? then SUCCESS else FAILURE)
    ensures file.Some? && rc == SUCCESS ==> Carried(info) == Parsed(old(Carried(info)), LinesOf(file.value)).value
    ensures rc == FAILURE ==> Carried(info) == old(Carried(info))
    ensures info.reason == old(info.reason)
  {
    if file.None? { return ERROR_FILE_NOT_FOUND; }
    hide Contains, PieceLength, Pieces, ValueIn, SlotOf, AfterLine, Resolve;
    var found, raw := 0, 0;
    var rawInfo, rawReason := NO_INFO, "";
    var rest := file.value;
    ghost var lines := LinesOf(rest);
    ghost var k := 0;
    ghost var start := Parse(0, 0, old(Carried(info)), NO_INFO, "");
    NoPieces(LINE_BUFFER);
    while rest != "" && found < 4
      invariant 0 <= k <= |lines| && lines[k..] == LinesOf(rest)
      invariant found < 4 ==> AfterLines(start, lines) == AfterLines(Parse(found, raw, Carried(info), rawInfo, rawReason), lines[k..])
      invariant found >= 4 ==> AfterLines(start, lines) == Parse(found, raw, Carried(info), rawInfo, rawReason)
      invariant found == 0 ==> Carried(info) == old(Carried(info))
      invariant info.reason == old(info.reason) && NUL !in rawReason
      decreases |rest|
    {
      PiecesStep(rest, LINE_BUFFER);
      var n := PieceLength(rest, LINE_BUFFER);
      var line := CStr(rest[..n]);
      ghost var p := Parse(found, raw, Carried(info), rawInfo, rawReason);
      assert lines[k..][0] == line && lines[k..][1..] == LinesOf(rest[n..]);
      found, raw, rawInfo, rawReason := TakeLine(line, info, found, raw, rawInfo, rawReason);
      rest := rest[n..];
      assert lines[k + 1..] == lines[k..][1..];
      k := k + 1;
    }
    assert rest == "" ==> lines[k..] == [];
    if found == 0 && raw > 0 {
      if rawInfo.source == HAL && rawReason != "" { rawInfo := ResolveHalSysReboot(rawReason, rawInfo); }
      info.source, info.timestamp := rawInfo.source, rawInfo.timestamp;
      info.customReason, info.otherReason := rawInfo.customReason, rawInfo.otherReason;
      found := raw;
    }
    if found == 0 { return FAILURE; }
    return SUCCESS;
  }

  /** The body of the loop. */
  method TakeLine(line: string, info: RebootInfo, found: nat, raw: nat, rawInfo: Info, rawReason: string)
    returns (found': nat, raw': nat, rawInfo': Info, rawReason': string)
    requires NUL !in line && NUL !in rawReason
    modifies info
    ensures NUL !in rawReason'
    ensures Parse(found', raw', Carried(info), rawInfo', rawReason')
         == AfterLine(Parse(found, raw, old(Carried(info)), rawInfo, rawReason), line)
    ensures found' == found ==> Carried(info) == old(Carried(info))
    ensures found' >= found && info.reason == old(info.reason)
  {
    hide Contains, ValueIn;
    found', raw', rawInfo', rawReason' := found, raw, rawInfo, rawReason;
    if Contains(line, PREV_SOURCE) {
      var v := ReadField(line, PREV_SOURCE, REASON_LENGTH);
      info.source, found' := v, found + 1;
    } else if Contains(line, PREV_TIME) {
      var v := ReadField(line, PREV_TIME, TIMESTAMP_LENGTH);
      info.timestamp, found' := v, found + 1;
    } else if Contains(line, PREV_CUSTOM) {
      var v := ReadField(line, PREV_CUSTOM, REASON_LENGTH);
      info.customReason, found' := v, found + 1;
    } else if Contains(line, PREV_OTHER) {
      var v := ReadField(line, PREV_OTHER, REASON_LENGTH);
      info.otherReason, found' := v, found + 1;
    } else if Contains(line, RAW_SOURCE) {
      var v := ReadField(line, RAW_SOURCE, REASON_LENGTH);
      rawInfo', raw' := rawInfo.(source := v), raw + 1;
    } else if Contains(line, RAW_TIME) {
      var v := ReadField(line, RAW_TIME, TIMESTAMP_LENGTH);
      rawInfo', raw' := rawInfo.(timestamp := v), raw + 1;
    } else if Contains(line, RAW_CUSTOM) {
      var v := ReadField(line, RAW_CUSTOM, REASON_LENGTH);
      rawInfo', raw' := rawInfo.(customReason := v), raw + 1;
    } else if Contains(line, RAW_OTHER) {
      var v := ReadField(line, RAW_OTHER, REASON_LENGTH);
      rawInfo', raw' := rawInfo.(otherReason := v), raw + 1;
    } else if Contains(line, RAW_REASON) && !Contains(line, HAL) {
      rawReason' := Clip(line, LINE_BUFFER);
    }
  }
}
