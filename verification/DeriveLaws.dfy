/** The derived record from the contents of the files, case by case, without a detour through the
    structures the fetcher passes along. */
module DeriveLaws {
  import opened CStrings
  import opened RecordText
  import L = LineScan
  import P = PreviousRecord
  import H = HardwareReason
  import D = DerivePath

  /** Some line of the file, as the buffer delivers it, contains the text. */
  ghost predicate Shows(file: Option<string>, text: string)
  {
    file.Some? && L.FoundInPieces(L.Pieces(file.value, 512), text)
  }

  ghost predicate ShowsPanic(file: Option<string>)
  {
    exists i :: 0 <= i < |L.PANIC_SIGNATURES| && Shows(file, L.PANIC_SIGNATURES[i])
  }

  predicate IsClient(ctx: D.Context) { "mediaclient" <= ctx.deviceType }

  const TEN_TIMES: string := "Box has rebooted 10 times"
  const CRASH: string := "**** CRASH ****"

  /** The logs show no firmware failure. */
  ghost predicate NoFailure(ctx: D.Context, s: D.Sources)
  {
    if IsClient(ctx) then !Shows(s.uimgrLog, TEN_TIMES) else !Shows(s.ocapriLog, TEN_TIMES) && !Shows(s.ecmLog, CRASH)
  }

  /** The kernel has panicked: on BRCM the kernel log has the oops marker and a signature, on other
      television sets the log kept over the reboot has a signature. */
  ghost predicate Panicked(ctx: D.Context, s: D.Sources)
  {
    if ctx.soc == "BRCM" then Shows(s.kernelLog, "PREVIOUS_KERNEL_OOPS_DUMP") && ShowsPanic(s.kernelLog)
    else ctx.rdkProfile == "TV" && ShowsPanic(s.pstore)
  }

  lemma PanicsAlike(file: Option<string>)
    ensures D.FilePanics(file) <==> ShowsPanic(file)
  {
    hide Contains, CStr, L.Pieces;
    if file.Some? {
      var ps := L.Pieces(file.value, 512);
      L.QuietMeansNone(ps);
    }
  }

  lemma DetectionAlike(ctx: D.Context, s: D.Sources)
    ensures D.PanicDetected(ctx, s) <==> Panicked(ctx, s)
    ensures D.FailureFound(ctx, s).detected <==> !NoFailure(ctx, s)
  {
    PanicsAlike(s.kernelLog);
    PanicsAlike(s.pstore);
    hide L.FoundInPieces, L.Pieces, Clip, D.FilePanics, ShowsPanic;
  }

  // ----- firmware failure

  lemma DetailsAreShort()
    ensures Clip("UiMgr" + D.MAX_REBOOT_DETAILS, 128) == "UiMgr: Reboot due to STB" + " reached maximum (10) reboots"
    ensures Clip("OcapRI" + D.MAX_REBOOT_DETAILS, 128) == "OcapRI: Reboot due to STB" + " reached maximum (10) reboots"
  {
    assert |D.MAX_REBOOT_DETAILS| == 19 + 29;
    assert "UiMgr" + ": Reboot due to STB" == "UiMgr: Reboot due to STB";
    assert "OcapRI" + ": Reboot due to STB" == "OcapRI: Reboot due to STB";
    Associates("UiMgr", ": Reboot due to STB", " reached maximum (10) reboots");
    Associates("OcapRI", ": Reboot due to STB", " reached maximum (10) reboots");
  }

  lemma Associates(a: string, b: string, c: string)
    ensures a + (b + c) == a + b + c
  {
  }

  /** Ten reboots in a row in the log of the application, or a crash of the modem's: a firmware
      failure comes before everything else, with the initiator of the last finding and the text of
      the first. */
  lemma FailureRecord(ctx: D.Context, s: D.Sources)
    ensures IsClient(ctx) && Shows(s.uimgrLog, TEN_TIMES) ==>
              D.Derived(ctx, s) == Cause("UiMgr", "FIRMWARE_FAILURE", "", "UiMgr: Reboot due to STB" + " reached maximum (10) reboots")
    ensures !IsClient(ctx) && Shows(s.ocapriLog, TEN_TIMES) ==>
              D.Derived(ctx, s) == Cause(if Shows(s.ecmLog, CRASH) then "EcmLogger" else "OcapRI", "FIRMWARE_FAILURE", "",
                                         "OcapRI: Reboot due to STB" + " reached maximum (10) reboots")
    ensures !IsClient(ctx) && !Shows(s.ocapriLog, TEN_TIMES) && Shows(s.ecmLog, CRASH) ==>
              D.Derived(ctx, s) == Cause("EcmLogger", "FIRMWARE_FAILURE", "", "EcmLogger: ECM crash detected")
  {
    DetailsAreShort();
    hide L.FoundInPieces, L.Pieces, Clip, D.HardwareText, D.PanicDetected;
  }

  // ----- kernel panic

  lemma PanicRecord(ctx: D.Context, s: D.Sources)
    requires NoFailure(ctx, s) && Panicked(ctx, s)
    ensures D.Derived(ctx, s) == Cause("Kernel", "KERNEL_PANIC", "Hardware Register - " + "KERNEL_PANIC", "Reboot due to Kernel Panic captured by Oops Dump")
  {
    DetectionAlike(ctx, s);
    hide D.FailureFound, D.PanicDetected, D.HardwareText, NoFailure, Panicked;
  }

  // ----- the hardware register

  function Cut(s: string): string { if |s| <= 127 then s else s[..127] }

  /** What a blank register, a missing one, or a platform without one comes to. */
  const POWER_LOSS: Cause := Cause("Hard Power Reset", "HARD_POWER", "Hardware Register - " + "NULL", "No information found")

  /** Without a register to read the record is that of a hard power loss. */
  lemma NoRegisterRecord(ctx: D.Context, s: D.Sources)
    requires NoFailure(ctx, s) && !Panicked(ctx, s)
    requires ctx.soc != "BRCM" || s.register.None? || s.register.value == "" || s.register.value[0] == NUL
    ensures D.Derived(ctx, s) == POWER_LOSS
  {
    DetectionAlike(ctx, s);
    if ctx.soc == "BRCM" && s.register.Some? { BlankLoads(s.register.value); }
    hide D.FailureFound, D.PanicDetected, NoFailure, Panicked, P.Loaded, D.Before, D.Upper, Clip, H.MapHardware;
  }

  lemma BlankLoads(file: string)
    requires file == "" || file[0] == NUL
    ensures P.Loaded(file, 512) == ""
  {
  }

  /** The first line of the register file, in so far as it matters. */
  ghost predicate IsFirstLine(file: string, line: string)
  {
    && line <= file && '\n' !in line && NUL !in line
    && (|line| >= 127 || |line| == |file| || file[|line|] == '\n' || file[|line|] == NUL)
  }

  /** The line in capital letters, cut to its buffer. */
  ghost predicate IsCapital(raw: string, line: string)
  {
    && |raw| == (if |line| < 127 then |line| else 127)
    && forall i :: 0 <= i < |raw| ==> raw[i] == if 'a' <= line[i] <= 'z' then line[i] - ' ' else line[i]
  }

  /** The token in front of the first comma. */
  ghost predicate IsToken(token: string, raw: string)
  {
    token <= raw && ',' !in token && (token == raw || raw[|token|] == ',')
  }

  lemma BeforeIs(s: string, a: char, b: char, word: string)
    requires word <= s && a !in word && b !in word && (word == s || s[|word|] == a || s[|word|] == b)
    ensures D.Before(s, a, b) == word
  {
    var r := D.Before(s, a, b);
    hide D.Before;
    assert r == s[..|r|] && word == s[..|word|];
  }

  /** The text of the first line, as it arrives in the buffer, may be longer than the line given. */
  lemma LineLoads(file: string, line: string)
    requires IsFirstLine(file, line) && line != ""
    ensures P.Loaded(file, 512) != "" && Clip(D.Before(P.Loaded(file, 512), '\n', '\n'), 128) == Cut(line)
  {
    var text := if |file| <= 511 then file else file[..511];
    var shown := if |line| <= 511 then line else line[..511];
    assert shown <= text && NUL !in shown && '\n' !in shown;
    PrefixLoads(text, shown);
    var buf := CStr(text);
    assert P.Loaded(file, 512) == buf;
    hide P.Loaded, CStr, D.Before;
    var first := D.Before(buf, '\n', '\n');
    ReachesLine(first, buf, shown);
    if |line| < 127 {
      EndsThere(first, buf, text, line);
    } else {
      CutAlike(first, shown);
      CutAlike(line, shown);
    }
  }

  /** A line that ends in the file ends in the buffer too. */
  lemma EndsThere(first: string, buf: string, text: string, line: string)
    requires line <= first <= buf <= text && '\n' !in first && NUL !in buf
    requires |line| == |text| || text[|line|] == '\n' || text[|line|] == NUL
    ensures first == line
  {
    assert first == buf[..|first|] && line == first[..|line|];
  }

  lemma CutAlike(first: string, part: string)
    requires part <= first && |part| >= 127
    ensures Clip(first, 128) == part[..127] && Cut(first) == part[..127]
  {
    assert first[..127] == part[..127];
  }

  lemma PrefixLoads(text: string, part: string)
    requires part <= text && NUL !in part
    ensures part <= CStr(text)
  {
    if part != "" { PrefixLoads(text[1..], part[1..]); }
  }

  lemma ReachesLine(first: string, buf: string, part: string)
    requires first <= buf && part <= buf && '\n' !in part && (|first| < |buf| ==> buf[|first|] == '\n')
    ensures part <= first
  {
    assert first == buf[..|first|] && part == buf[..|part|];
  }

  lemma UpperIsCapital(line: string, raw: string)
    requires IsCapital(raw, line)
    ensures D.Upper(Cut(line)) == raw && D.Upper(raw) == raw
  {
    var u := D.Upper(Cut(line));
    hide D.Upper;
  }

  /** On BRCM source, reason and text are those of the register's first token, and the custom reason is
      the whole first line in capital letters; a line without a token counts as a software reboot. */
  lemma RegisterRecord(ctx: D.Context, s: D.Sources, line: string, raw: string, token: string)
    requires NoFailure(ctx, s) && !Panicked(ctx, s) && ctx.soc == "BRCM" && s.register.Some?
    requires line != "" && IsFirstLine(s.register.value, line) && IsCapital(raw, line) && IsToken(token, raw)
    ensures token != "" ==>
              var m := H.MapHardware(token);
              D.Derived(ctx, s) == Cause(m.source, m.reason, Cut("Hardware Register - " + raw), m.otherReason)
    ensures token == "" ==>
              D.Derived(ctx, s) == Cause("SoftwareReboot", "SOFTWARE_MASTER_RESET", "SOFTWARE_MASTER_RESET", "Reboot due to user triggered reboot command")
  {
    DetectionAlike(ctx, s);
    LineLoads(s.register.value, line);
    UpperIsCapital(line, raw);
    NoNewline(line, raw);
    BeforeIs(raw, ',', '\n', token);
    PrefixedIs(raw);
    assert Clip(token, 128) == token;
    assert D.HardwareText(ctx, s.register) == D.Register(raw, token) by {
      hide D.Before, D.Upper, P.Loaded, Clip;
    }
    hide D.FailureFound, D.PanicDetected, NoFailure, Panicked, D.HardwareText, D.Upper, Clip, H.MapHardware, D.Prefixed;
  }

  lemma NoNewline(line: string, raw: string)
    requires IsCapital(raw, line) && '\n' !in line
    ensures '\n' !in raw
  {
    forall i | 0 <= i < |raw| ensures raw[i] != '\n' { assert line[i] in line; }
  }

  lemma PrefixedIs(text: string)
    ensures D.Prefixed(text) == Cut("Hardware Register - " + text)
  {
    assert |"Hardware Register - "| == 20;
  }

  /** A register file that starts with an empty line counts as a software reboot. */
  lemma EmptyLineRecord(ctx: D.Context, s: D.Sources)
    requires NoFailure(ctx, s) && !Panicked(ctx, s) && ctx.soc == "BRCM"
    requires s.register.Some? && s.register.value != "" && s.register.value[0] == '\n'
    ensures D.Derived(ctx, s) == Cause("SoftwareReboot", "SOFTWARE_MASTER_RESET", "SOFTWARE_MASTER_RESET", "Reboot due to user triggered reboot command")
  {
    DetectionAlike(ctx, s);
    NewlineLoads(s.register.value);
    hide D.FailureFound, D.PanicDetected, NoFailure, Panicked, P.Loaded, H.MapHardware;
  }

  lemma NewlineLoads(file: string)
    requires file != "" && file[0] == '\n'
    ensures var buf := P.Loaded(file, 512); buf != "" && D.Before(buf, '\n', '\n') == ""
  {
  }

  /** With these every register file is accounted for: one that is neither missing, blank nor led by an
      empty line has such a first line, its capitals and its token. */
  lemma EveryRegister(file: string) returns (line: string, raw: string, token: string)
    requires file != "" && file[0] != NUL && file[0] != '\n'
    ensures line != "" && IsFirstLine(file, line) && IsCapital(raw, line) && IsToken(token, raw)
  {
    line := D.Before(file, '\n', NUL);
    raw := D.Upper(Cut(line));
    token := D.Before(raw, ',', ',');
  }
}
