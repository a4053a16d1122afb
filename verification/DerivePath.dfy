/** The boot that finds no reboot.info: the record derived from the logs and the hardware register. */
module DerivePath {
  import opened CStrings
  import opened RecordText
  import opened RebootInfos
  import opened LineScan
  import opened HardwareReason
  import P = PreviousRecord

  /** What parse_device_properties knows about the device. */
  datatype Context = Context(soc: string, rdkProfile: string, deviceType: string)

  /** The files the derive path reads; None when a file cannot be opened. */
  datatype Sources = Sources(kernelLog: Option<string>, pstore: Option<string>, uimgrLog: Option<string>,
                             ocapriLog: Option<string>, ecmLog: Option<string>, register: Option<string>)

  const OOPS_MARKER: string := "PREVIOUS_KERNEL_OOPS_DUMP"
  const MAX_REBOOT_STRING: string := "Box has rebooted 10 times"
  const MAX_REBOOT_DETAILS: string := ": Reboot due to STB" + " reached maximum (10) reboots"
  const ECM_CRASH_STRING: string := "**** CRASH ****"

  // ----- kernel panic

  ghost predicate FileHas(file: Option<string>, needle: string)
  {
    file.Some? && FoundInPieces(Pieces(file.value, LINE_BUFFER), needle)
  }

  ghost predicate FilePanics(file: Option<string>)
  {
    file.Some? && exists k :: 0 <= k < |Pieces(file.value, LINE_BUFFER)| && !Quiet(Pieces(file.value, LINE_BUFFER)[k])
  }

  /** detect_kernel_panic's outcome. */
  ghost predicate PanicDetected(ctx: Context, s: Sources)
  {
    if ctx.soc == "BRCM" then FileHas(s.kernelLog, OOPS_MARKER) && FilePanics(s.kernelLog)
    else ctx.rdkProfile == "TV" && FilePanics(s.pstore)
  }

  /** The log the platform's panics are looked for in. */
  function PanicLog(ctx: Context, s: Sources): Option<string> { if ctx.soc == "BRCM" then s.kernelLog else s.pstore }

  /** detect_kernel_panic, with the type and the details it leaves in PanicInfo. */
  method DetectKernelPanic(ctx: Context, s: Sources) returns (panic: Option<Panic>)
    ensures panic.Some? <==> PanicDetected(ctx, s)
    ensures panic.Some? ==> PanicLog(ctx, s).Some? && Reports(Pieces(PanicLog(ctx, s).value, LINE_BUFFER), panic.value)
  {
    hide FoundInPieces, Pieces, Quiet, Reports;
    panic := None;
    if ctx.soc == "BRCM" {
      var marker := SearchStringInFile(s.kernelLog, OOPS_MARKER);
      if marker { panic := FindPanic(s.kernelLog); }
    } else if ctx.rdkProfile == "TV" {
      panic := FindPanic(s.pstore);
    }
  }

  method FindPanic(file: Option<string>) returns (panic: Option<Panic>)
    ensures panic.Some? <==> FilePanics(file)
    ensures panic.Some? ==> file.Some? && Reports(Pieces(file.value, LINE_BUFFER), panic.value)
  {
    panic := SearchPanicInFile(file);
    if file.Some? && panic.Some? {
      hide Pieces, Contains, CStr;
      ghost var ps := Pieces(file.value, LINE_BUFFER);
      ghost var k, i :| FirstPanic(ps, k, i);
      assert !Quiet(ps[k]);
    }
  }

  // ----- firmware failure

  /** FirmwareFailure, without the flags that only say which scan succeeded. */
  datatype Failure = Failure(detected: bool, details: string, initiator: string)

  predicate IsMediaClient(ctx: Context) { "mediaclient" <= ctx.deviceType }

  ghost function FailureFound(ctx: Context, s: Sources): Failure
  {
    var client := IsMediaClient(ctx);
    var name := if client then "UiMgr" else "OcapRI";
    var maxed := FileHas(if client then s.uimgrLog else s.ocapriLog, MAX_REBOOT_STRING);
    var ecm := !client && FileHas(s.ecmLog, ECM_CRASH_STRING);
    Failure(maxed || ecm,
            if maxed then Clip(name + MAX_REBOOT_DETAILS, REASON_LENGTH)
            else if ecm then "EcmLogger: ECM crash detected" else "",
            if ecm then "EcmLogger" else if maxed then name else "")
  }

  /** check_firmware_failure: the second finding overwrites the initiator but not the details. */
  method CheckFirmwareFailure(ctx: Context, s: Sources) returns (f: Failure)
    ensures f == FailureFound(ctx, s)
  {
    hide FoundInPieces, Pieces, Clip;
    f := Failure(false, "", "");
    var client := IsMediaClient(ctx);
    var log := if client then s.uimgrLog else s.ocapriLog;
    var name := if client then "UiMgr" else "OcapRI";
    var maxed := SearchStringInFile(log, MAX_REBOOT_STRING);
    if maxed {
      f := Failure(true, Clip(name + MAX_REBOOT_DETAILS, REASON_LENGTH), name);
    }
    if !client {
      var ecm := SearchStringInFile(s.ecmLog, ECM_CRASH_STRING);
      if ecm {
        f := Failure(true, if maxed then f.details else "EcmLogger: ECM crash detected", "EcmLogger");
      }
    }
  }

  // ----- the hardware register

  function ToUpper(c: char): char { if 'a' <= c <= 'z' then c - 'a' + 'A' else c }

  function Upper(s: string): (r: string)
    ensures |r| == |s| && forall i :: 0 <= i < |s| ==> r[i] == ToUpper(s[i])
  {
    if s == "" then "" else [ToUpper(s[0])] + Upper(s[1..])
  }

  /** strcspn: the beginning of the text without any of two characters. */
  function Before(s: string, a: char, b: char): (r: string)
    ensures r <= s && a !in r && b !in r
    ensures |r| < |s| ==> s[|r|] == a || s[|r|] == b
  {
    if s == "" || s[0] == a || s[0] == b then "" else [s[0]] + Before(s[1..], a, b)
  }

  datatype Register = Register(raw: string, mapped: string)

  /** What get_hardware_reason makes of the register file. */
  function HardwareText(ctx: Context, register: Option<string>): Register
  {
    if ctx.soc != "BRCM" || register.None? then Register("", "UNKNOWN")
    else
      var buf := P.Loaded(register.value, LINE_BUFFER);
      if buf == "" then Register("", "UNKNOWN")
      else
        var raw := Upper(Clip(Before(buf, '\n', '\n'), REASON_LENGTH));
        Register(raw, Clip(Before(raw, ',', '\n'), REASON_LENGTH))
  }

  /** The upper-casing loop over the raw buffer. */
  method UpperCase(text: string) returns (r: string)
    ensures r == Upper(text)
  {
    var buffer := new char[|text|];
    forall k | 0 <= k < |text| { buffer[k] := text[k]; }
    for p := 0 to |text|
      invariant forall k :: 0 <= k < p ==> buffer[k] == ToUpper(text[k])
      invariant forall k :: p <= k < |text| ==> buffer[k] == text[k]
    {
      buffer[p] := ToUpper(buffer[p]);
    }
    r := buffer[..];
  }

  /** read_brcm_previous_reboot_reason and get_hardware_reason. */
  method GetHardwareReason(ctx: Context, register: Option<string>) returns (hw: Register)
    ensures hw == HardwareText(ctx, register)
  {
    hide Clip, Before, Upper;
    hw := Register("", "");
    if ctx.soc == "BRCM" {
      if register.None? {
        hw := Register("", "UNKNOWN");
      } else {
        var buf := P.Loaded(register.value, LINE_BUFFER);
        if buf != "" {
          var raw := UpperCase(Clip(Before(buf, '\n', '\n'), REASON_LENGTH));
          return Register(raw, Clip(Before(raw, ',', '\n'), REASON_LENGTH));
        }
      }
    }
    if hw.mapped == "" { hw := hw.(mapped := "UNKNOWN"); }
  }

  // ----- classification

  const PREFIX: string := "Hardware Register - "
  const HARD_POWER: Cause := Cause("Hard Power Reset", "HARD_POWER", PREFIX + "NULL", "No information found")

  /** The custom reason of a hardware text. */
  function Prefixed(text: string): string { PREFIX + Clip(text, REASON_LENGTH - |PREFIX|) }

  predicate IsBroadcom(ctx: Context) { ctx.soc == "BRCM" || ctx.soc == "BROADCOM" }

  /** The cause classify_reboot_reason derives from a non-empty hardware text. */
  function HardwareCause(ctx: Context, hw: Register): Cause
  {
    var m := MapHardware(hw.mapped);
    var custom :=
      if IsBroadcom(ctx) then Prefixed(if hw.raw != "" then Upper(hw.raw) else hw.mapped)
      else Prefixed(if m.reason != "" then m.reason else hw.mapped);
    if hw.mapped == "UNKNOWN" && !(IsBroadcom(ctx) && hw.raw != "") then HARD_POWER
    else Cause(m.source, m.reason, custom, m.otherReason)
  }

  /** The inner UNKNOWN fallback of classify_reboot_reason. */
  const UNDETERMINED: Cause := Cause("Unknown", "UNKNOWN", "UNKNOWN", "Reboot reason could not be determined")

  const SOFTWARE_FALLBACK: Cause :=
    Cause("SoftwareReboot", "SOFTWARE_MASTER_RESET", "SOFTWARE_MASTER_RESET", "Reboot due to user triggered reboot command")

  const KERNEL_CAUSE: Cause :=
    Cause("Kernel", "KERNEL_PANIC", PREFIX + "KERNEL_PANIC", PANIC_TEXT)

  /** The reason filed for a custom reason that is already there. */
  function CustomCategory(custom: string): string
  {
    if custom == "MAINTENANCE_REBOOT" then "MAINTENANCE_REBOOT"
    else if custom in APP_TRIGGERED_REASONS then "APP_TRIGGERED"
    else if custom in OPS_TRIGGERED_REASONS then "OPS_TRIGGERED"
    else if custom in MAINTENANCE_TRIGGERED_REASONS then "MAINTENANCE_REBOOT"
    else "FIRMWARE_FAILURE"
  }

  /** What classify_reboot_reason makes of the cause in the structure. */
  function Classified(c: Cause, ctx: Context, hw: Register, panic: bool, fw: Failure): Cause
  {
    if fw.detected then
      Cause(if fw.initiator != "" then fw.initiator else "FirmwareFailure", "FIRMWARE_FAILURE", "",
            if fw.details != "" then fw.details else c.otherReason)
    else if c.customReason != "" then
      var reason := CustomCategory(c.customReason);
      c.(reason := reason, source := if reason == "FIRMWARE_FAILURE" && c.source == "" then "Unknown" else c.source)
    else if panic then KERNEL_CAUSE
    else if hw.mapped != "" then HardwareCause(ctx, hw)
    else if c.source == "" then SOFTWARE_FALLBACK
    else c
  }

  /** classify_reboot_reason: a firmware failure first, then a custom reason that is there already,
      then a panic, then the register, and a software reboot when nothing is known. */
  method ClassifyRebootReason(info: RebootInfo, ctx: Context, hw: Register, panic: bool, fw: Failure)
    modifies info
    ensures fw.detected ==> info.reason == "FIRMWARE_FAILURE" && info.customReason == ""
                            && info.source == (if fw.initiator == "" then "FirmwareFailure" else fw.initiator)
                            && info.otherReason == (if fw.details == "" then old(info.otherReason) else fw.details)
    ensures !fw.detected && old(info.customReason) != "" ==>
              && info.customReason == old(info.customReason) && info.otherReason == old(info.otherReason)
              && (info.source == old(info.source) || (old(info.source) == "" && info.source == "Unknown" && info.reason == "FIRMWARE_FAILURE"))
              && (info.source == "" ==> info.reason != "FIRMWARE_FAILURE")
              && (old(info.customReason) == "MAINTENANCE_REBOOT" ==> info.reason == "MAINTENANCE_REBOOT")
              && (old(info.customReason) != "MAINTENANCE_REBOOT" ==>
                    info.reason == if old(info.customReason) in APP_TRIGGERED_REASONS then "APP_TRIGGERED"
                                   else if old(info.customReason) in OPS_TRIGGERED_REASONS then "OPS_TRIGGERED"
                                   else if old(info.customReason) in MAINTENANCE_TRIGGERED_REASONS then "MAINTENANCE_REBOOT"
                                   else "FIRMWARE_FAILURE")
    ensures !fw.detected && old(info.customReason) == "" && panic ==> info.source == "Kernel" && info.reason == "KERNEL_PANIC"
    ensures !fw.detected && old(info.customReason) == "" && !panic && hw.mapped != "" ==>
              var hard := hw.mapped == "UNKNOWN" && (hw.raw == "" || (ctx.soc != "BRCM" && ctx.soc != "BROADCOM"));
              && (hard ==> info.source == "Hard Power Reset" && info.reason == "HARD_POWER")
              && (!hard ==> Mapping(info.source, info.reason, info.otherReason) == MapHardware(hw.mapped)
                            && info.customReason == Prefixed(if ctx.soc != "BRCM" && ctx.soc != "BROADCOM" then info.reason
                                                             else if hw.raw != "" then Upper(hw.raw) else hw.mapped))
    ensures !fw.detected && old(info.customReason) == "" && !panic && hw.mapped == "" ==>
              if old(info.source) == "" then info.source == "SoftwareReboot" && info.reason == "SOFTWARE_MASTER_RESET"
              else info.View() == old(info.View())
    ensures info.View() == old(info.View()).(cause := Classified(old(info.View()).cause, ctx, hw, panic, fw))
  {
    if hw.mapped != "" { MappingFits(hw.mapped); }
    hide MapHardware, Clip, Upper, Prefixed;
    if fw.detected {
      info.source := if fw.initiator != "" then fw.initiator else "FirmwareFailure";
      info.reason := "FIRMWARE_FAILURE";
      if fw.details != "" { info.otherReason := fw.details; }
      info.customReason := "";
      return;
    }
    if info.customReason != "" {
      if info.customReason == "MAINTENANCE_REBOOT" {
        info.reason := "MAINTENANCE_REBOOT";
        return;
      }
      var app := InList(APP_TRIGGERED_REASONS, info.customReason);
      if app { info.reason := "APP_TRIGGERED"; return; }
      var ops := InList(OPS_TRIGGERED_REASONS, info.customReason);
      if ops { info.reason := "OPS_TRIGGERED"; return; }
      var maintenance := InList(MAINTENANCE_TRIGGERED_REASONS, info.customReason);
      if maintenance { info.reason := "MAINTENANCE_REBOOT"; return; }
      info.reason := "FIRMWARE_FAILURE";
      if info.source == "" { info.source := "Unknown"; }
      return;
    }
    if panic {
      info.source, info.reason := KERNEL_CAUSE.source, KERNEL_CAUSE.reason;
      info.customReason, info.otherReason := KERNEL_CAUSE.customReason, KERNEL_CAUSE.otherReason;
      return;
    }
    if hw.mapped != "" {
      MapHardwareReason(hw.mapped, info);
      if IsBroadcom(ctx) {
        if hw.raw != "" {
          var upper := UpperCase(hw.raw);
          info.customReason := Prefixed(upper);
        } else if hw.mapped == "UNKNOWN" {
          RecordHardPower(info);
        } else {
          info.customReason := Prefixed(hw.mapped);
        }
      } else {
        if hw.mapped == "UNKNOWN" {
          RecordHardPower(info);
        } else {
          info.customReason := Prefixed(if info.reason != "" then info.reason else hw.mapped);
        }
      }
      return;
    }
    if info.source == "" {
      info.source, info.reason := UNDETERMINED.source, UNDETERMINED.reason;
      info.customReason, info.otherReason := UNDETERMINED.customReason, UNDETERMINED.otherReason;
      if !panic && !fw.detected {
        info.source, info.reason := SOFTWARE_FALLBACK.source, SOFTWARE_FALLBACK.reason;
        info.customReason, info.otherReason := SOFTWARE_FALLBACK.customReason, SOFTWARE_FALLBACK.otherReason;
      } else {
        assert false;
      }
    }
  }

  method RecordHardPower(info: RebootInfo)
    modifies info
    ensures info.View().cause == HARD_POWER && info.timestamp == old(info.timestamp)
  {
    info.customReason, info.source := HARD_POWER.customReason, HARD_POWER.source;
    info.reason, info.otherReason := HARD_POWER.reason, HARD_POWER.otherReason;
  }

  const APP_TRIGGERED_REASONS: seq<string> := [
    "Servicemanager", "systemservice_legacy", "WarehouseReset", "WarehouseService",
    "HrvInitWHReset", "HrvColdInitReset", "HtmlDiagnostics", "InstallTDK", "StartTDK",
    "TR69Agent", "SystemServices", "Bsu_GUI", "SNMP", "CVT_CDL", "Nxserver",
    "DRM_Netflix_Initialize", "hrvinit", "PaceMFRLibrary"
  ]

  const OPS_TRIGGERED_REASONS: seq<string> := [
    "ScheduledReboot", "RebootSTB.sh", "FactoryReset", "UpgradeReboot_restore", "XFS",
    "wait_for_pci0_ready", "websocketproxyinit", "NSC_IR_EventReboot",
    "host_interface_dma_bus_wait", "usbhotplug", "Receiver_MDVRSet",
    "Receiver_VidiPath_Enabled", "Receiver_Toggle_Optimus", "S04init_ticket",
    "Network-Service", "monitorMfrMgr.sh", "vlAPI_Caller_Upgrade", "ImageUpgrade_rmf_osal",
    "ImageUpgrade_mfr_api", "ImageUpgrade_userInitiatedFWDnld.sh", "ClearSICache",
    "tr69hostIfReset", "hostIf_utils", "hostifDeviceInfo", "HAL_SYS_Reboot",
    "UpgradeReboot_deviceInitiatedFWDnld.sh", "UpgradeReboot_rdkvfwupgrader",
    "UpgradeReboot_ipdnl.sh", "PowerMgr_Powerreset", "PowerMgr_coldFactoryReset",
    "DeepSleepMgr", "PowerMgr_CustomerReset", "PowerMgr_PersonalityReset",
    "Power_Thermmgr", "PowerMgr_Plat", "HAL_CDL_notify_mgr_event",
    "vldsg_estb_poll_ecm_operational_state", "SASWatchDog", "BP3_Provisioning",
    "eMMC_FW_UPGRADE", "BOOTLOADER_UPGRADE", "cdl_service", "docsis_mode_check.sh",
    "Receiver", "CANARY_Update", "BRCM_Image_Validate", "tch_nvram.sh",
    "boot_FSR", "BCMCommandHandler"
  ]

  const MAINTENANCE_TRIGGERED_REASONS: seq<string> := ["AutoReboot.sh", "PwrMgr"]

  /** is_app_triggered and its siblings. */
  method InList(list: seq<string>, reason: string) returns (found: bool)
    ensures found <==> reason in list
  {
    for i := 0 to |list|
      invariant forall j :: 0 <= j < i ==> list[j] != reason
    {
      if reason == list[i] { return true; }
    }
    return false;
  }

  // ----- the derive path as a whole

  /** The cause derived from the sources, starting from an empty structure. */
  ghost function Derived(ctx: Context, s: Sources): Cause
  {
    Classified(Cause("", "", "", ""), ctx, HardwareText(ctx, s.register), PanicDetected(ctx, s), FailureFound(ctx, s))
  }

  /** The derive branch of the fetcher's main. */
  method DeriveRecord(ctx: Context, s: Sources, timestamp: string) returns (r: Record)
    ensures r == Record(timestamp, Derived(ctx, s))
  {
    hide PanicDetected, FailureFound, HardwareText, Classified;
    var info := new RebootInfo(timestamp);
    var panic := DetectKernelPanic(ctx, s);
    var fw := CheckFirmwareFailure(ctx, s);
    var hw := GetHardwareReason(ctx, s.register);
    ClassifyRebootReason(info, ctx, hw, panic.Some?, fw);
    r := Record(info.timestamp, Cause(info.source, info.reason, info.customReason, info.otherReason));
  }

  lemma FailureFits(ctx: Context, s: Sources)
    ensures var f := FailureFound(ctx, s);
            |f.details| < REASON_LENGTH && |f.initiator| < REASON_LENGTH && (f.detected ==> f.details != "" && f.initiator != "")
  {
    hide FileHas;
  }

  lemma HardwareCauseFits(ctx: Context, hw: Register)
    requires hw.mapped != "" && |hw.mapped| < REASON_LENGTH
    ensures Complete(HardwareCause(ctx, hw)) && HardwareCause(ctx, hw).customReason != "" && HardwareCause(ctx, hw) != UNDETERMINED
  {
    MappingFits(hw.mapped);
    hide MapHardware, Upper;
    assert |PREFIX| == 20 && UNDETERMINED.customReason[0] == 'U' && PREFIX[0] == 'H';
    assert HARD_POWER.customReason[0] == 'H';
  }

  /** Source, reason and text present, everything within the buffers. */
  ghost predicate Complete(c: Cause)
  {
    && 0 < |c.source| < REASON_LENGTH && 0 < |c.reason| < REASON_LENGTH
    && |c.customReason| < REASON_LENGTH && 0 < |c.otherReason| < REASON_LENGTH
  }

  /** The derive path is total: whatever the register, the logs and the device, the record is
      complete, its custom reason is empty exactly for a firmware failure, and the inner UNKNOWN
      fallback is never what comes out. */
  lemma DeriveIsTotal(ctx: Context, s: Sources)
    ensures Complete(Derived(ctx, s))
    ensures Derived(ctx, s).customReason == "" <==> FailureFound(ctx, s).detected
    ensures FailureFound(ctx, s).detected <==> Derived(ctx, s).reason == "FIRMWARE_FAILURE" && Derived(ctx, s).customReason == ""
    ensures Derived(ctx, s) != UNDETERMINED
  {
    FailureFits(ctx, s);
    var hw := HardwareText(ctx, s.register);
    if hw.mapped != "" { HardwareCauseFits(ctx, hw); }
    hide PanicDetected, FailureFound, HardwareText, HardwareCause;
    assert UNDETERMINED.reason == "UNKNOWN";
  }
}
