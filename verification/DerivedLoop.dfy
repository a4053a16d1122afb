/** Where the derive path meets the loop detection. */
module DerivedLoop {
  import opened CStrings
  import opened RecordText
  import opened PreviousRecord
  import opened Requests
  import opened CyclicReboot
  import opened CyclicRuns
  import RR = RecordReading
  import H = HardwareReason
  import D = DerivePath

  // ----- records that read like no request

  predicate IsCategoryText(reason: string)
  {
    reason == "APP_TRIGGERED" || reason == "OPS_TRIGGERED" || reason == "MAINTENANCE_REBOOT" || reason == "FIRMWARE_FAILURE"
  }

  /** Source and reason can be read back, whatever the other fields contain. */
  ghost predicate Recoverable(r: Record)
  {
    && IsTimestamp(r.timestamp) && Plain(r.cause.source) && |r.cause.source| < 128
    && NUL !in r.cause.reason && |r.cause.reason| < 128
  }

  lemma ReadsItsSourceAndReason(r: Record)
    requires Recoverable(r) && ReadPrevious(Text(r)).Some?
    ensures var c := ReadPrevious(Text(r)).value; c.source == r.cause.source && c.reason == BeforeQuote(r.cause.reason)
  {
    hide Extract, Text, Loaded, ReadPrevious, BeforeQuote, Plain;
    assert Plain(r.timestamp) && |r.timestamp| < 64;
    SourceAndReasonRecovered(r);
    ReadsAll(Text(r));
  }

  lemma ForeignReasonNotCountable(r: Record)
    requires Recoverable(r) && !IsCategoryText(BeforeQuote(r.cause.reason))
    ensures !Countable(Text(r))
  {
    hide ReadPrevious, Text, Categorise, BeforeQuote, Recoverable;
    if ReadPrevious(Text(r)).Some? { ReadsItsSourceAndReason(r); }
  }

  /** A record whose source is on no list counts exactly when its reason, up to a quote, is the failure category. */
  lemma UnlistedCountsExactly(r: Record)
    requires Recoverable(r) && NUL !in r.cause.customReason && NUL !in r.cause.otherReason
    requires |r.cause.customReason| < 128 && |r.cause.otherReason| < 128 && IsTelling(r.cause.source)
    ensures Countable(Text(r)) <==> BeforeQuote(r.cause.reason) == "FIRMWARE_FAILURE"
  {
    assert NUL !in r.timestamp && NUL !in r.cause.source && RR.ValueSize(r) < 4000;
    AlwaysReadable(r);
    ReadsItsSourceAndReason(r);
    hide ReadPrevious, Text, Categorise, BeforeQuote, IsTelling;
    TellingIsUnlisted(r.cause.source, ReadPrevious(Text(r)).value.customReason);
  }

  lemma PlainHasNoQuote(s: string)
    requires Plain(s)
    ensures BeforeQuote(s) == s
  {
  }

  // ----- the fields of derived records

  lemma ConstantsArePlain()
    ensures Plain("Kernel") && Plain("Unknown") && Plain("Hard Power Reset") && Plain("HARD_POWER") && Plain("KERNEL_PANIC")
    ensures Plain("SoftwareReboot") && Plain("SOFTWARE_MASTER_RESET") && Plain("FIRMWARE_FAILURE")
  {
    hide Plain;
    TidyIsPlain("Kernel"); TidyIsPlain("Unknown"); TidyIsPlain("Hard Power Reset"); TidyIsPlain("HARD_POWER");
    TidyIsPlain("KERNEL_PANIC"); TidyIsPlain("SoftwareReboot"); TidyIsPlain("SOFTWARE_MASTER_RESET"); TidyIsPlain("FIRMWARE_FAILURE");
  }

  predicate Tidy(s: string) { forall i :: 0 <= i < |s| ==> s[i] != QUOTE && s[i] != NUL }

  lemma TidyIsPlain(s: string)
    requires Tidy(s)
    ensures Plain(s)
  {
  }

  lemma InitiatorsArePlain()
    ensures Plain("OcapRI") && Plain("UiMgr") && Plain("EcmLogger")
  {
  }

  lemma SourcesTidy1()
    ensures Tidy("SoftwareReboot") && Tidy("WatchDog") && Tidy("Kernel") && Tidy("PowerOn") && Tidy("Main Chip")
    ensures Tidy("Tap-In System") && Tidy("FrontPanel Button") && Tidy("Standby Wakeup") && Tidy("SmartCard Insert")
    ensures Tidy("OverTemperature")
  {
  }

  lemma SourcesTidy2()
    ensures Tidy("OverVoltage") && Tidy("LowVoltage") && Tidy("PCIE Boot") && Tidy("SecurityReboot")
    ensures Tidy("CPU EJTAG") && Tidy("SCPU EJTAG") && Tidy("GEN WatchDog") && Tidy("Aux Chip Edge")
    ensures Tidy("Aux Chip Level") && Tidy("MPM")
  {
  }

  lemma ReasonsTidy1()
    ensures Tidy("SOFTWARE_MASTER_RESET") && Tidy("WATCHDOG_TIMER_RESET") && Tidy("KERNEL_PANIC")
    ensures Tidy("POWER_ON_RESET") && Tidy("MAIN_CHIP_INPUT_RESET") && Tidy("MAIN_CHIP_RESET_INPUT")
    ensures Tidy("TAP_IN_SYSTEM_RESET")
  {
  }

  lemma ReasonsTidy2()
    ensures Tidy("FRONT_PANEL_RESET") && Tidy("S3_WAKEUP_RESET") && Tidy("SMARTCARD_INSERT_RESET")
    ensures Tidy("OVERTEMP_RESET") && Tidy("OVERVOLTAGE_RESET") && Tidy("UNDERVOLTAGE_RESET")
    ensures Tidy("PCIE_HOT_BOOT_RESET")
  {
  }

  lemma ReasonsTidy3()
    ensures Tidy("SECURITY_MASTER_RESET") && Tidy("CPU_EJTAG_RESET") && Tidy("SCPU_EJTAG_RESET")
    ensures Tidy("GEN_WATCHDOG_RESET") && Tidy("AUX_CHIP_EDGE_RESET") && Tidy("AUX_CHIP_LEVEL_RESET")
    ensures Tidy("MPM_RESET")
  {
  }

  lemma MappingIsTidy(k: nat)
    requires k < 21
    ensures Tidy(H.MAPPINGS[k].source) && Tidy(H.MAPPINGS[k].reason)
  {
    hide Tidy;
    SourcesTidy1(); SourcesTidy2();
    ReasonsTidy1(); ReasonsTidy2(); ReasonsTidy3();
  }

  lemma MappingIsForeign(k: nat)
    requires k < 21
    ensures var m := H.MAPPINGS[k]; Plain(m.source) && Plain(m.reason) && !IsCategoryText(m.reason)
  {
    hide Plain;
    MappingIsTidy(k);
    TidyIsPlain(H.MAPPINGS[k].source);
    TidyIsPlain(H.MAPPINGS[k].reason);
    var r := H.MAPPINGS[k].reason;
    assert |r| != 13 && (|r| == 16 ==> r[0] != 'F') && (|r| == 18 ==> r[0] != 'M');
    assert |"APP_TRIGGERED"| == |"OPS_TRIGGERED"| == 13 && |"MAINTENANCE_REBOOT"| == 18 && |"FIRMWARE_FAILURE"| == 16;
  }

  lemma PrefixHasNoNul()
    ensures NUL !in D.PREFIX
  {
  }

  lemma UpperHasNoNul(s: string)
    requires NUL !in s
    ensures NUL !in D.Upper(s)
  {
    var r := D.Upper(s);
    forall i | 0 <= i < |r| ensures r[i] != NUL { assert r[i] == D.ToUpper(s[i]); }
  }

  lemma RegisterHasNoNul(ctx: D.Context, register: Option<string>)
    ensures var hw := D.HardwareText(ctx, register); NUL !in hw.raw && NUL !in hw.mapped && NUL !in D.Upper(hw.raw) && |hw.mapped| < 128
  {
    if ctx.soc == "BRCM" && register.Some? {
      hide D.Upper, D.Before, Clip;
      var buf := Loaded(register.value, 512);
      var line := D.Before(buf, '\n', '\n');
      var cut := Clip(line, 128);
      assert NUL !in cut;
      UpperHasNoNul(cut);
      UpperHasNoNul(D.Upper(cut));
      var first := D.Before(D.Upper(cut), ',', '\n');
      assert NUL !in first;
      assert NUL !in Clip(first, 128);
    }
    assert NUL !in "UNKNOWN";
  }

  lemma PrefixedHasNoNul(text: string)
    requires NUL !in text
    ensures NUL !in D.Prefixed(text) && |D.Prefixed(text)| < 128
  {
    PrefixHasNoNul();
    assert |D.PREFIX| == 20;
    var cut := Clip(text, H.REASON_LENGTH - |D.PREFIX|);
    assert NUL !in cut;
    hide Clip;
  }

  // ----- which derived records are countable

  /** No branch recognises the register text, and up to its first quote it is the failure category. */
  predicate NamesFailure(hw: string)
  {
    H.MapHardware(hw) == H.Unrecognised(hw) && BeforeQuote(hw) == "FIRMWARE_FAILURE"
  }

  lemma RecognisedIsForeign(hw: string)
    requires H.MapHardware(hw) != H.Unrecognised(hw)
    ensures var m := H.MapHardware(hw); Plain(m.source) && Plain(m.reason) && |m.source| < 128 && |m.reason| < 128 && !IsCategoryText(m.reason)
  {
    hide H.HasAny, H.MapFrom, Plain, IsCategoryText, H.Unrecognised;
    var k := H.FirstHitExists(hw, 0);
    H.FirstHitDecides(hw, k, 0);
    H.MappingsFit(k);
    MappingIsForeign(k);
  }

  /** The cause derived from a register text: countable exactly when the text names the failure. */
  lemma RegisterCountsExactly(ctx: D.Context, register: Option<string>, ts: string)
    requires IsTimestamp(ts) && D.HardwareText(ctx, register).mapped != ""
    ensures var hw := D.HardwareText(ctx, register);
            Countable(Text(Record(ts, D.HardwareCause(ctx, hw)))) <==> NamesFailure(hw.mapped)
  {
    hide H.MapHardware, D.HardwareText, D.Upper, D.Prefixed, Countable, Text, BeforeQuote, Plain, IsTelling;
    var hw := D.HardwareText(ctx, register);
    var c := D.HardwareCause(ctx, hw);
    RegisterHasNoNul(ctx, register);
    ConstantsArePlain();
    if c == D.HARD_POWER {
      PlainHasNoQuote("HARD_POWER");
      ForeignReasonNotCountable(Record(ts, c)) by { assert NUL !in "HARD_POWER" by { NoNulInPlain("HARD_POWER"); } }
      HardPowerNamesNothing(ctx, hw);
    } else if H.MapHardware(hw.mapped) == H.Unrecognised(hw.mapped) {
      UnknownCustom(ctx, hw);
      FetcherSourcesTell();
      UnlistedCountsExactly(Record(ts, c));
    } else {
      RecognisedIsForeign(hw.mapped);
      var m := H.MapHardware(hw.mapped);
      PlainHasNoQuote(m.reason);
      NoNulInPlain(m.reason);
      ForeignReasonNotCountable(Record(ts, c));
    }
  }

  lemma NoNulInPlain(s: string)
    requires Plain(s)
    ensures NUL !in s
  {
  }

  lemma HardPowerNamesNothing(ctx: D.Context, hw: D.Register)
    requires D.HardwareCause(ctx, hw) == D.HARD_POWER
    ensures !NamesFailure(hw.mapped)
  {
    hide H.MapHardware;
    if hw.mapped == "UNKNOWN" {
      assert Plain("UNKNOWN");
      PlainHasNoQuote("UNKNOWN");
    } else {
      assert D.HARD_POWER.source[0] == 'H' && "Unknown"[0] == 'U';
    }
  }

  lemma UnknownCustom(ctx: D.Context, hw: D.Register)
    requires H.MapHardware(hw.mapped) == H.Unrecognised(hw.mapped) && D.HardwareCause(ctx, hw) != D.HARD_POWER
    requires |hw.mapped| < 128 && NUL !in hw.mapped && NUL !in D.Upper(hw.raw)
    ensures var c := D.HardwareCause(ctx, hw);
            && c.source == "Unknown" && c.reason == hw.mapped && c.otherReason == hw.mapped
            && NUL !in c.customReason && |c.customReason| < 128
  {
    hide H.MapHardware, D.Upper, D.Prefixed;
    PrefixedHasNoNul(hw.mapped);
    PrefixedHasNoNul(D.Upper(hw.raw));
  }

  lemma FailureTextsArePlain()
    ensures Plain("OcapRI" + D.MAX_REBOOT_DETAILS) && Plain("UiMgr" + D.MAX_REBOOT_DETAILS) && Plain("EcmLogger: ECM crash detected")
    ensures |"OcapRI" + D.MAX_REBOOT_DETAILS| < 128 && |"UiMgr" + D.MAX_REBOOT_DETAILS| < 128
  {
    assert Plain(": Reboot due to STB") && Plain(" reached maximum (10) reboots");
    assert |D.MAX_REBOOT_DETAILS| == 19 + 29;
  }

  /** A firmware failure found in the logs files exactly what a request of its initiator would. */
  lemma FailureReadsBack(ctx: D.Context, s: D.Sources, ts: string)
    requires IsTimestamp(ts) && D.FailureFound(ctx, s).detected
    ensures var c := D.Derived(ctx, s);
            && ReadPrevious(Text(Record(ts, c))) == Some(c) && Countable(Text(Record(ts, c)))
            && IsTelling(c.source) && c.reason == "FIRMWARE_FAILURE" && c.customReason == ""
  {
    hide D.FileHas, D.HardwareText, D.PanicDetected, Plain, IsTelling, ReadPrevious, Text, Categorise;
    FailureTextsArePlain();
    InitiatorsArePlain();
    ConstantsArePlain();
    assert Plain("") by { EmptyIsPlain(); }
    FetcherSourcesTell();
    var c := D.Derived(ctx, s);
    PrintThenRead(Record(ts, c));
    TellingIsUnlisted(c.source, "");
  }

  lemma EmptyIsPlain()
    ensures Plain("")
  {
  }

  /** The register and log contents that yield a countable record. */
  ghost predicate CountableSources(ctx: D.Context, s: D.Sources)
  {
    || D.FailureFound(ctx, s).detected
    || (!D.PanicDetected(ctx, s) && NamesFailure(D.HardwareText(ctx, s.register).mapped))
  }

  /** A derived record can be taken for a request's exactly when the logs show a firmware failure or,
      without a kernel panic, the unrecognised register text is the failure category up to a quote. */
  lemma DerivedCountsExactly(ctx: D.Context, s: D.Sources, ts: string)
    requires IsTimestamp(ts)
    ensures Countable(Text(Record(ts, D.Derived(ctx, s)))) <==> CountableSources(ctx, s)
  {
    hide D.PanicDetected, D.FailureFound, D.HardwareText, D.HardwareCause, Countable, Text, NamesFailure, Plain, BeforeQuote;
    ConstantsArePlain();
    var hw := D.HardwareText(ctx, s.register);
    if D.FailureFound(ctx, s).detected {
      FailureReadsBack(ctx, s, ts);
    } else if D.PanicDetected(ctx, s) {
      ConstantIsForeign(ts, D.KERNEL_CAUSE);
    } else if hw.mapped != "" {
      RegisterCountsExactly(ctx, s.register, ts);
    } else {
      ConstantIsForeign(ts, D.SOFTWARE_FALLBACK);
      EmptyNamesNothing();
    }
  }

  lemma ConstantIsForeign(ts: string, c: Cause)
    requires IsTimestamp(ts) && (c == D.KERNEL_CAUSE || c == D.SOFTWARE_FALLBACK)
    ensures !Countable(Text(Record(ts, c)))
  {
    ConstantsArePlain();
    hide Countable, Text, BeforeQuote, Plain;
    NoNulInPlain(c.reason);
    PlainHasNoQuote(c.reason);
    ForeignReasonNotCountable(Record(ts, c));
  }

  lemma EmptyNamesNothing()
    ensures !NamesFailure("")
  {
    hide H.MapHardware;
    assert BeforeQuote("") == "";
  }

  lemma FailureLetters(i: nat)
    requires i < 16
    ensures var c := "FIRMWARE_FAILURE"[i]; c != NUL && c != '\n' && c != ',' && c != QUOTE && !('a' <= c <= 'z')
  {
  }

  /** Both halves are met: a register that holds the name of the failure category is such a content. */
  lemma FailureRegisterCounts(ctx: D.Context, s: D.Sources)
    requires ctx.soc == "BRCM" && s.register == Some("FIRMWARE_FAILURE") && !D.PanicDetected(ctx, s)
    ensures CountableSources(ctx, s)
  {
    hide D.PanicDetected, D.FailureFound, H.MapHardware, D.Before, D.Upper, Loaded;
    var text := "FIRMWARE_FAILURE";
    forall i: nat | i < 16 ensures text[i] != NUL && text[i] != '\n' && text[i] != ',' && text[i] != QUOTE && !('a' <= text[i] <= 'z') {
      FailureLetters(i);
    }
    assert Loaded(text, 512) == text by { WholeLoaded(text); }
    assert D.Before(text, '\n', '\n') == text && D.Before(text, ',', '\n') == text;
    assert D.Upper(text) == text;
    PlainHasNoQuote(text);
    H.FailureTextUnrecognised();
  }

  lemma WholeLoaded(text: string)
    requires |text| < 511 && NUL !in text
    ensures Loaded(text, 512) == text
  {
  }

  // ----- what that does to the loop

  /** From every reachable state, a boot on the derive path breaks the loop for every request with
      detection on exactly when its register and logs yield no countable record. */
  lemma DeriveBreaksLoopExactly(state: State, ctx: D.Context, s: D.Sources, ts: string)
    requires Reachable(state) && state.rebootNow && state.info.None? && IsTimestamp(ts)
    ensures !CountableSources(ctx, s) <==>
            forall q :: DetectionOn(q) ==>
              var booted := AfterBoot(state, Record(ts, D.Derived(ctx, s)));
              Judge(booted, q) == Unrelated && AllClear(AfterRequest(booted, q))
  {
    hide D.Derived, Judge, AfterRequest, AfterBoot, Reachable, Countable, CountableSources;
    DerivedCountsExactly(ctx, s, ts);
    DerivedRecordBreaksLoop(state, Record(ts, D.Derived(ctx, s)));
  }

  lemma HardReasonNotCountable(ctx: D.Context, s: D.Sources)
    requires D.Derived(ctx, s).reason == "HARD_POWER" || D.Derived(ctx, s).reason == "KERNEL_PANIC"
    ensures !CountableSources(ctx, s)
  {
    hide D.PanicDetected, D.FailureFound, D.HardwareText, H.MapHardware, D.Prefixed, Plain, BeforeQuote;
    ConstantsArePlain();
    PlainHasNoQuote("HARD_POWER");
    PlainHasNoQuote("KERNEL_PANIC");
    var hw := D.HardwareText(ctx, s.register);
    RegisterHasNoNul(ctx, s.register);
    EmptyNamesNothing();
    if NamesFailure(hw.mapped) && hw.mapped == "UNKNOWN" {
      UnknownNamesNothing();
    }
  }

  lemma UnknownNamesNothing()
    ensures !NamesFailure("UNKNOWN")
  {
    hide H.MapHardware;
    assert Plain("UNKNOWN");
    PlainHasNoQuote("UNKNOWN");
  }

  /** In particular HARD_POWER and KERNEL_PANIC break it: the next request with detection on is
      neither counted nor deferred and clears everything. */
  lemma HardResetBreaksLoop(state: State, ctx: D.Context, s: D.Sources, ts: string, q: Request)
    requires Reachable(state) && state.rebootNow && state.info.None? && IsTimestamp(ts) && DetectionOn(q)
    requires D.Derived(ctx, s).reason == "HARD_POWER" || D.Derived(ctx, s).reason == "KERNEL_PANIC"
    ensures var booted := AfterBoot(state, Record(ts, D.Derived(ctx, s)));
            Judge(booted, q) == Unrelated && AllClear(AfterRequest(booted, q))
  {
    hide D.Derived, Judge, AfterRequest, AfterBoot, Reachable, CountableSources;
    HardReasonNotCountable(ctx, s);
    DeriveBreaksLoopExactly(state, ctx, s, ts);
  }

  /** A countable derived record lets the counter count a request that repeats no other: the one
      whose cause stands in the record, after any request with another cause. */
  lemma DerivedFailureIsCounted(ctx: D.Context, s: D.Sources, first: Request, any: Record, ts: string)
    requires CountableSources(ctx, s) && IsTimestamp(ts)
    ensures var file := Text(Record(ts, D.Derived(ctx, s)));
            && Countable(file) && (D.FailureFound(ctx, s).detected ==> CauseOf(RequestIn(file)) == D.Derived(ctx, s))
            && (CauseOf(first) != CauseOf(RequestIn(file)) ==>
                  var events := [Ask(first), Boots(any), Boots(Record(ts, D.Derived(ctx, s))), Ask(RequestIn(file))];
                  Asked(events) == [first, RequestIn(file)] && Count(AfterRun(FRESH, events)) == 1 && !Earned(events))
  {
    hide D.Derived, AfterRun, Asked, Earned, Text, ReadPrevious, Categorise, CountableSources;
    DerivedCountsExactly(ctx, s, ts);
    var derived := Record(ts, D.Derived(ctx, s));
    var second := RequestIn(Text(derived));
    CountableExactly(Text(derived));
    if D.FailureFound(ctx, s).detected { FailureReadsBack(ctx, s, ts); }
    if CauseOf(first) != CauseOf(second) { DerivedCauseIsCounted(first, second, any, derived); }
  }
}
