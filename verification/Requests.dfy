/** A reboot request as rebootnow receives it, and the category main files it under. */
module Requests {
  import opened CStrings
  import opened RecordText

  // The lists of main, in short parts.

  const APP_REASONS_1: seq<string> := [
    "Servicemanager", "systemservice_legacy", "WarehouseReset", "WarehouseService", "HrvInitWHReset",
    "HrvColdInitReset", "HtmlDiagnostics", "InstallTDK", "StartTDK"
  ]
  const APP_REASONS_2: seq<string> := [
    "TR69Agent", "SystemServices", "Bsu_GUI", "SNMP", "CVT_CDL", "Nxserver", "DRM_Netflix_Initialize",
    "hrvinit", "PaceMFRLibrary"
  ]
  const OPS_REASONS_1: seq<string> := [
    "ScheduledReboot", "RebootSTB.sh", "FactoryReset", "UpgradeReboot_firmwareDwnld.sh",
    "UpgradeReboot_restore", "XFS", "wait_for_pci0_ready"
  ]
  const OPS_REASONS_2: seq<string> := [
    "websocketproxyinit", "NSC_IR_EventReboot", "host_interface_dma_bus_wait", "usbhotplug",
    "Receiver_MDVRSet", "Receiver_VidiPath_Enabled", "Receiver_Toggle_Optimus"
  ]
  const OPS_REASONS_3: seq<string> := [
    "S04init_ticket", "Network-Service", "monitor.sh", "ecmIpMonitor.sh", "monitorMfrMgr.sh",
    "vlAPI_Caller_Upgrade", "ImageUpgrade_rmf_osal"
  ]
  const OPS_REASONS_4: seq<string> := [
    "ImageUpgrade_mfr_api", "ImageUpgrade_updateNewImage.sh", "ImageUpgrade_userInitiatedFWDnld.sh",
    "ClearSICache", "tr69hostIfReset", "hostIf_utils", "hostifDeviceInfo"
  ]
  const OPS_REASONS_5: seq<string> := [
    "HAL_SYS_Reboot", "UpgradeReboot_deviceInitiatedFWDnld.sh", "UpgradeReboot_rdkvfwupgrader",
    "UpgradeReboot_ipdnl.sh", "PowerMgr_Powerreset", "PowerMgr_coldFactoryReset", "DeepSleepMgr"
  ]
  const OPS_REASONS_6: seq<string> := [
    "PowerMgr_CustomerReset", "PowerMgr_PersonalityReset", "Power_Thermmgr", "PowerMgr_Plat",
    "HAL_CDL_notify_mgr_event", "vldsg_estb_poll_ecm_operational_state", "BcmIndicateEcmReset"
  ]
  const OPS_REASONS_7: seq<string> := [
    "SASWatchDog", "BP3_Provisioning", "eMMC_FW_UPGRADE", "BOOTLOADER_UPGRADE", "cdl_service",
    "BCMCommandHandler", "BRCM_Image_Validate"
  ]
  const OPS_REASONS_8: seq<string> := [
    "docsis_mode_check.sh", "tch_nvram.sh", "Receiver", "CANARY_Update", "boot_FSR", "CyclicReboot"
  ]

  const APP_TRIGGERED_REASONS: seq<string> := APP_REASONS_1 + APP_REASONS_2
  const OPS_TRIGGERED_REASONS: seq<string> :=
    OPS_REASONS_1 + OPS_REASONS_2 + OPS_REASONS_3 + OPS_REASONS_4 + OPS_REASONS_5 + OPS_REASONS_6 + OPS_REASONS_7 + OPS_REASONS_8
  const MAINTENANCE_TRIGGERED_REASONS: seq<string> := ["AutoReboot.sh", "PwrMgr"]

  /** Some entry of the list has the needle as a part. */
  predicate Listed(list: seq<string>, needle: string)
  {
    exists i :: 0 <= i < |list| && Contains(list[i], needle)
  }

  /** check_string_value. */
  method CheckStringValue(list: seq<string>, needle: string) returns (found: bool)
    ensures found <==> Listed(list, needle)
  {
    for i := 0 to |list|
      invariant forall j :: 0 <= j < i ==> !Contains(list[j], needle)
    {
      if Contains(list[i], needle) { return true; }
    }
    return false;
  }

  datatype Category = APP_TRIGGERED | OPS_TRIGGERED | MAINTENANCE_REBOOT | FIRMWARE_FAILURE

  function CategoryText(c: Category): string
  {
    match c
    case APP_TRIGGERED => "APP_TRIGGERED"
    case OPS_TRIGGERED => "OPS_TRIGGERED"
    case MAINTENANCE_REBOOT => "MAINTENANCE_REBOOT"
    case FIRMWARE_FAILURE => "FIRMWARE_FAILURE"
  }

  /** The category main assigns to a source and custom reason. */
  function Categorise(source: string, customReason: string): Category
  {
    if Listed(APP_TRIGGERED_REASONS, source) then
      if customReason == "MAINTENANCE_REBOOT" then MAINTENANCE_REBOOT else APP_TRIGGERED
    else if Listed(OPS_TRIGGERED_REASONS, source) then OPS_TRIGGERED
    else if Listed(MAINTENANCE_TRIGGERED_REASONS, source) then MAINTENANCE_REBOOT
    else FIRMWARE_FAILURE
  }

  /** Some entry of the list contains the source. */
  ghost predicate NamedBy(list: seq<string>, source: string) { exists e :: e in list && Occurs(e, source) }

  lemma ListedIsNamed(list: seq<string>, source: string)
    ensures Listed(list, source) <==> NamedBy(list, source)
  {
    hide Contains, Occurs;
    if Listed(list, source) {
      var i :| 0 <= i < |list| && Contains(list[i], source);
      assert list[i] in list;
    }
  }

  method CategoriseRequest(source: string, customReason: string) returns (reason: string)
    ensures reason == CategoryText(Categorise(source, customReason))
    ensures NamedBy(APP_TRIGGERED_REASONS, source) ==>
              reason == if customReason == "MAINTENANCE_REBOOT" then "MAINTENANCE_REBOOT" else "APP_TRIGGERED"
    ensures !NamedBy(APP_TRIGGERED_REASONS, source) && NamedBy(OPS_TRIGGERED_REASONS, source) ==> reason == "OPS_TRIGGERED"
    ensures !NamedBy(APP_TRIGGERED_REASONS, source) && !NamedBy(OPS_TRIGGERED_REASONS, source) ==>
              reason == if NamedBy(MAINTENANCE_TRIGGERED_REASONS, source) then "MAINTENANCE_REBOOT" else "FIRMWARE_FAILURE"
  {
    hide Listed, NamedBy;
    ListedIsNamed(APP_TRIGGERED_REASONS, source);
    ListedIsNamed(OPS_TRIGGERED_REASONS, source);
    ListedIsNamed(MAINTENANCE_TRIGGERED_REASONS, source);
    reason := "FIRMWARE_FAILURE";
    var app := CheckStringValue(APP_TRIGGERED_REASONS, source);
    if app {
      reason := "APP_TRIGGERED";
      if customReason == "MAINTENANCE_REBOOT" { reason := "MAINTENANCE_REBOOT"; }
    } else {
      var ops := CheckStringValue(OPS_TRIGGERED_REASONS, source);
      if ops {
        reason := "OPS_TRIGGERED";
      } else {
        var maintenance := CheckStringValue(MAINTENANCE_TRIGGERED_REASONS, source);
        if maintenance { reason := "MAINTENANCE_REBOOT"; }
      }
    }
  }

  const CRON_SOURCE: string := "CyclicReboot"
  const CRON_OTHER: string := "Rebooting device" + " after expiry of" + " Cyclic reboot" + " pause window"

  // ----- sources that are on no list

  predicate NoOUE(e: string) { forall i :: 0 <= i < |e| ==> e[i] != 'O' && e[i] != 'U' && e[i] != 'E' }

  predicate NoOMLk(e: string) { forall i :: 0 <= i < |e| ==> e[i] != 'O' && e[i] != 'M' && e[i] != 'L' && e[i] != 'k' }

  predicate NoCin(e: string) { forall i :: 0 <= i < |e| ==> e[i] != 'c' && e[i] != 'i' && e[i] != 'n' }

  predicate NoIUE(e: string) { forall i :: 0 <= i < |e| ==> e[i] != 'I' && e[i] != 'U' && e[i] != 'E' }

  /** One of the four groups of letters is missing. */
  predicate Unlike(e: string) { NoOUE(e) || NoOMLk(e) || NoCin(e) || NoIUE(e) }

  /** A source with a letter of each group, such as those of the fetcher's own records. */
  predicate IsTelling(s: string) { !NoOUE(s) && !NoOMLk(s) && !NoCin(s) && !NoIUE(s) }

  lemma UnlikePart(e: string, source: string)
    requires Occurs(e, source) && Unlike(e)
    ensures Unlike(source)
  {
    var at: nat :| OccursAt(e, source, at);
    assert forall k :: 0 <= k < |source| ==> source[k] == e[at + k] by {
      forall k | 0 <= k < |source| ensures source[k] == e[at + k] { OccurrenceHasChar(e, source, at, k); }
    }
  }

  /** No list of such entries names such a source. */
  lemma NotListed(list: seq<string>, source: string)
    requires IsTelling(source) && forall j :: 0 <= j < |list| ==> Unlike(list[j])
    ensures !Listed(list, source)
  {
    hide Contains;
    forall j | 0 <= j < |list| ensures !Contains(list[j], source) {
      if Contains(list[j], source) { UnlikePart(list[j], source); }
    }
  }

  lemma AppUnlike1()
    ensures NoOUE(APP_REASONS_1[0]) && NoOUE(APP_REASONS_1[1]) && NoOUE(APP_REASONS_1[2])
    ensures NoOUE(APP_REASONS_1[3]) && NoOUE(APP_REASONS_1[4]) && NoOUE(APP_REASONS_1[5])
    ensures NoOUE(APP_REASONS_1[6]) && NoOUE(APP_REASONS_1[7]) && NoOUE(APP_REASONS_1[8])
  {
  }

  lemma AppUnlike2()
    ensures NoOUE(APP_REASONS_2[0]) && NoOUE(APP_REASONS_2[1]) && NoOMLk(APP_REASONS_2[2])
    ensures NoOUE(APP_REASONS_2[3]) && NoOUE(APP_REASONS_2[4]) && NoOUE(APP_REASONS_2[5])
    ensures NoOUE(APP_REASONS_2[6]) && NoOUE(APP_REASONS_2[7]) && NoOUE(APP_REASONS_2[8])
  {
  }

  lemma OpsUnlike1()
    ensures NoOUE(OPS_REASONS_1[0]) && NoOUE(OPS_REASONS_1[1]) && NoOUE(OPS_REASONS_1[2])
    ensures NoOMLk(OPS_REASONS_1[3]) && NoOMLk(OPS_REASONS_1[4]) && NoOUE(OPS_REASONS_1[5])
    ensures NoOUE(OPS_REASONS_1[6])
  {
  }

  lemma OpsUnlike2()
    ensures NoOUE(OPS_REASONS_2[0]) && NoOMLk(OPS_REASONS_2[1]) && NoOUE(OPS_REASONS_2[2])
    ensures NoOUE(OPS_REASONS_2[3]) && NoOUE(OPS_REASONS_2[4]) && NoOMLk(OPS_REASONS_2[5])
    ensures NoIUE(OPS_REASONS_2[6])
  {
  }

  lemma OpsUnlike3()
    ensures NoOUE(OPS_REASONS_3[0]) && NoOUE(OPS_REASONS_3[1]) && NoOUE(OPS_REASONS_3[2])
    ensures NoOUE(OPS_REASONS_3[3]) && NoOUE(OPS_REASONS_3[4]) && NoOMLk(OPS_REASONS_3[5])
    ensures NoOMLk(OPS_REASONS_3[6])
  {
  }

  lemma OpsUnlike4()
    ensures NoOMLk(OPS_REASONS_4[0]) && NoOMLk(OPS_REASONS_4[1]) && NoOMLk(OPS_REASONS_4[2])
    ensures NoOUE(OPS_REASONS_4[3]) && NoOUE(OPS_REASONS_4[4]) && NoOUE(OPS_REASONS_4[5])
    ensures NoOUE(OPS_REASONS_4[6])
  {
  }

  lemma OpsUnlike5()
    ensures NoOUE(OPS_REASONS_5[0]) && NoOMLk(OPS_REASONS_5[1]) && NoCin(OPS_REASONS_5[2])
    ensures NoOMLk(OPS_REASONS_5[3]) && NoOUE(OPS_REASONS_5[4]) && NoOUE(OPS_REASONS_5[5])
    ensures NoOUE(OPS_REASONS_5[6])
  {
  }

  lemma OpsUnlike6()
    ensures NoOUE(OPS_REASONS_6[0]) && NoOUE(OPS_REASONS_6[1]) && NoOUE(OPS_REASONS_6[2])
    ensures NoOUE(OPS_REASONS_6[3]) && NoOUE(OPS_REASONS_6[4]) && NoOUE(OPS_REASONS_6[5])
    ensures NoOMLk(OPS_REASONS_6[6])
  {
  }

  lemma OpsUnlike7()
    ensures NoOUE(OPS_REASONS_7[0]) && NoOUE(OPS_REASONS_7[1]) && NoCin(OPS_REASONS_7[2])
    ensures NoCin(OPS_REASONS_7[3]) && NoOUE(OPS_REASONS_7[4]) && NoOUE(OPS_REASONS_7[5])
    ensures NoOUE(OPS_REASONS_7[6])
  {
  }

  lemma OpsUnlike8()
    ensures NoOUE(OPS_REASONS_8[0]) && NoOUE(OPS_REASONS_8[1]) && NoOUE(OPS_REASONS_8[2])
    ensures NoOMLk(OPS_REASONS_8[3]) && NoOUE(OPS_REASONS_8[4]) && NoOUE(OPS_REASONS_8[5])
  {
  }

  lemma MaintenanceUnlike()
    ensures NoOUE(MAINTENANCE_TRIGGERED_REASONS[0]) && NoOUE(MAINTENANCE_TRIGGERED_REASONS[1])
  {
  }

  lemma AppEntriesUnlike()
    ensures forall j :: 0 <= j < |APP_TRIGGERED_REASONS| ==> Unlike(APP_TRIGGERED_REASONS[j])
  {
    hide NoOUE, NoOMLk, NoCin, NoIUE;
    AppUnlike1(); AppUnlike2();
  }

  lemma OpsEntriesUnlike()
    ensures forall j :: 0 <= j < |OPS_TRIGGERED_REASONS| ==> Unlike(OPS_TRIGGERED_REASONS[j])
  {
    hide NoOUE, NoOMLk, NoCin, NoIUE;
    OpsUnlike1(); OpsUnlike2(); OpsUnlike3(); OpsUnlike4(); OpsUnlike5(); OpsUnlike6(); OpsUnlike7(); OpsUnlike8();
  }

  /** A telling source is on no list: whatever the custom reason, it is filed as a firmware failure. */
  lemma TellingIsUnlisted(source: string, customReason: string)
    requires IsTelling(source)
    ensures Categorise(source, customReason) == FIRMWARE_FAILURE
  {
    hide Listed, NoOUE, NoOMLk, NoCin, NoIUE;
    AppEntriesUnlike();
    NotListed(APP_TRIGGERED_REASONS, source);
    OpsEntriesUnlike();
    NotListed(OPS_TRIGGERED_REASONS, source);
    MaintenanceUnlike();
    NotListed(MAINTENANCE_TRIGGERED_REASONS, source);
  }

  /** The sources the fetcher itself gives to a firmware failure or to an unrecognised register. */
  lemma FetcherSourcesTell()
    ensures IsTelling("OcapRI") && IsTelling("UiMgr") && IsTelling("EcmLogger") && IsTelling("Unknown")
  {
    assert "OcapRI"[0] == 'O' && "OcapRI"[1] == 'c' && "OcapRI"[5] == 'I';
    assert "UiMgr"[0] == 'U' && "UiMgr"[1] == 'i' && "UiMgr"[2] == 'M';
    assert "EcmLogger"[0] == 'E' && "EcmLogger"[1] == 'c' && "EcmLogger"[3] == 'L';
    assert "Unknown"[0] == 'U' && "Unknown"[1] == 'n' && "Unknown"[2] == 'k';
  }

  // ----- the scheduled source

  lemma AppLacksLetters1()
    ensures 'b' !in APP_REASONS_1[0] && 'b' !in APP_REASONS_1[1] && 'b' !in APP_REASONS_1[2]
    ensures 'b' !in APP_REASONS_1[3] && 'b' !in APP_REASONS_1[4] && 'b' !in APP_REASONS_1[5]
    ensures 'b' !in APP_REASONS_1[6] && 'b' !in APP_REASONS_1[7] && 'b' !in APP_REASONS_1[8]
  {
  }

  lemma AppLacksLetters2()
    ensures 'b' !in APP_REASONS_2[0] && 'b' !in APP_REASONS_2[1] && 'b' !in APP_REASONS_2[2]
    ensures 'b' !in APP_REASONS_2[3] && 'b' !in APP_REASONS_2[4] && 'b' !in APP_REASONS_2[5]
    ensures 'b' !in APP_REASONS_2[6] && 'b' !in APP_REASONS_2[7] && 'C' !in APP_REASONS_2[8]
  {
  }

  lemma ScheduledSourceNotApp()
    ensures !Listed(APP_TRIGGERED_REASONS, CRON_SOURCE)
  {
    hide Contains;
    AppLacksLetters1(); AppLacksLetters2();
    assert CRON_SOURCE[0] == 'C' && CRON_SOURCE[8] == 'b';
    forall j | 0 <= j < |APP_TRIGGERED_REASONS| ensures !Contains(APP_TRIGGERED_REASONS[j], CRON_SOURCE) {
      MissingChar(APP_TRIGGERED_REASONS[j], CRON_SOURCE, if 'b' !in APP_TRIGGERED_REASONS[j] then 8 else 0);
    }
  }

  /** The request the cron entry makes is categorised OPS_TRIGGERED. */
  lemma ScheduledRequestIsOps()
    ensures Categorise(CRON_SOURCE, "Unknown") == OPS_TRIGGERED
  {
    ScheduledSourceNotApp();
    hide Contains;
    assert OPS_REASONS_8[5] == CRON_SOURCE && |OPS_TRIGGERED_REASONS| == 55;
    assert OPS_TRIGGERED_REASONS[54] == CRON_SOURCE;
    assert OccursAt(CRON_SOURCE, CRON_SOURCE, 0);
    assert Contains(OPS_TRIGGERED_REASONS[54], CRON_SOURCE);
  }
}
