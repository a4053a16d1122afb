/** map_hardware_reason: the ordered substring tests on the text of the hardware register. */
module HardwareReason {
  import opened CStrings
  import opened RebootInfos

  const REASON_LENGTH: nat := 128

  /** The three fields a recognised text is mapped to. */
  datatype Mapping = Mapping(source: string, reason: string, otherReason: string)

  const PANIC_TEXT: string := "Reboot due to Kernel Panic captured by Oops Dump"

  /** The texts each branch looks for, in the order of the branches. */
  const TESTS: seq<seq<string>> := [
    ["SOFTWARE_MASTER_RESET", "SOFTWARE_RESET", "SOFTWARE_REBOOT", "SW_RESET", "SOFTWARE"],
    ["WATCHDOG"],
    ["KERNEL_PANIC", "KERNEL_PANIC_RESET"],
    ["POWER_ON", "HARDWARE"],
    ["MAIN_CHIP_INPUT_RESET"],
    ["MAIN_CHIP_RESET_INPUT"],
    ["TAP_IN_SYSTEM_RESET"],
    ["FRONT_PANEL_4SEC_RESET", "FRONT_PANEL_RESET"],
    ["S3_WAKEUP_RESET"],
    ["SMARTCARD_INSERT_RESET"],
    ["OVERTEMP", "OVERHEAT"],
    ["OVERVOLTAGE"],
    ["UNDERVOLTAGE", "UNDERVOLTAGE_0_RESET", "UNDERVOLTAGE_1_RESET"],
    ["PCIE_0_HOT_BOOT_RESET", "PCIE_1_HOT_BOOT_RESET", "PCIE_HOT_BOOT_RESET"],
    ["SECURITY_MASTER_RESET"],
    ["CPU_EJTAG_RESET"],
    ["SCPU_EJTAG_RESET"],
    ["GEN_WATCHDOG_1_RESET", "GEN_WATCHDOG_RESET"],
    ["AUX_CHIP_EDGE_RESET_0", "AUX_CHIP_EDGE_RESET_1", "AUX_CHIP_EDGE_RESET"],
    ["AUX_CHIP_LEVEL_RESET_0", "AUX_CHIP_LEVEL_RESET_1", "AUX_CHIP_LEVEL_RESET"],
    ["MPM_RESET"]
  ]

  /** What each branch files. */
  const MAPPINGS: seq<Mapping> := [
    Mapping("SoftwareReboot", "SOFTWARE_MASTER_RESET", "Reboot due to user triggered reboot command"),
    Mapping("WatchDog", "WATCHDOG_TIMER_RESET", "Reboot due to watch dog timer reset"),
    Mapping("Kernel", "KERNEL_PANIC", PANIC_TEXT),
    Mapping("PowerOn", "POWER_ON_RESET", "Reboot due to unplug of power cable from the STB"),
    Mapping("Main Chip", "MAIN_CHIP_INPUT_RESET", "Reboot due to chip's main reset input has been asserted"),
    Mapping("Main Chip", "MAIN_CHIP_RESET_INPUT", "Reboot due to chip's main reset input has been asserted"),
    Mapping("Tap-In System", "TAP_IN_SYSTEM_RESET", "Reboot due to the chip's TAP in-system reset has been asserted"),
    Mapping("FrontPanel Button", "FRONT_PANEL_RESET", "Reboot due to the front panel 4 second reset has been asserted"),
    Mapping("Standby Wakeup", "S3_WAKEUP_RESET", "Reboot due to the chip woke up from deep standby"),
    Mapping("SmartCard Insert", "SMARTCARD_INSERT_RESET", "Reboot due to the smartcard insert reset has occurred"),
    Mapping("OverTemperature", "OVERTEMP_RESET", "Reboot due to chip temperature is above threshold (125*C)"),
    Mapping("OverVoltage", "OVERVOLTAGE_RESET", "Reboot due to chip voltage is above threshold"),
    Mapping("LowVoltage", "UNDERVOLTAGE_RESET", "Reboot due to chip voltage is below threshold"),
    Mapping("PCIE Boot", "PCIE_HOT_BOOT_RESET", "Reboot due to PCIe hot boot reset has occurred"),
    Mapping("SecurityReboot", "SECURITY_MASTER_RESET", "Reboot due to security master reset has occurred"),
    Mapping("CPU EJTAG", "CPU_EJTAG_RESET", "Reboot due to CPU EJTAG reset has occurred"),
    Mapping("SCPU EJTAG", "SCPU_EJTAG_RESET", "Reboot due to SCPU EJTAG reset has occurred"),
    Mapping("GEN WatchDog", "GEN_WATCHDOG_RESET", "Reboot due to gen_watchdog_1 timeout reset has occurred"),
    Mapping("Aux Chip Edge", "AUX_CHIP_EDGE_RESET", "Reboot due to the auxiliary edge-triggered chip reset has occurred"),
    Mapping("Aux Chip Level", "AUX_CHIP_LEVEL_RESET", "Reboot due to the auxiliary level-triggered chip reset has occurred"),
    Mapping("MPM", "MPM_RESET", "Reboot due to the MPM reset has occurred")
  ]

  /** One of the texts occurs. */
  predicate HasAny(hw: string, tests: seq<string>)
  {
    exists i :: 0 <= i < |tests| && Contains(hw, tests[i])
  }

  /** The mapping of a text no branch recognises: the text itself, cut to the buffers. */
  function Unrecognised(hw: string): Mapping
  {
    Mapping("Unknown", Clip(hw, REASON_LENGTH), Clip(hw, REASON_LENGTH))
  }

  /** The first branch from the k-th on that the text hits decides. */
  function MapFrom(hw: string, k: nat): Mapping
    requires k <= 21
    decreases 21 - k
  {
    if k == 21 then Unrecognised(hw)
    else if HasAny(hw, TESTS[k]) then MAPPINGS[k]
    else MapFrom(hw, k + 1)
  }

  function MapHardware(hw: string): Mapping { MapFrom(hw, 0) }

  lemma BranchDecides(hw: string, k: nat)
    requires k < 21
    ensures MapFrom(hw, k) == if HasAny(hw, TESTS[k]) then MAPPINGS[k] else MapFrom(hw, k + 1)
  {
    hide HasAny;
  }

  lemma NoBranchLeft(hw: string)
    ensures MapFrom(hw, 21) == Unrecognised(hw)
  {
  }

  /** map_hardware_reason, which overwrites three fields of the structure. */
  method MapHardwareReason(hw: string, info: RebootInfo)
    modifies info
    ensures Mapping(info.source, info.reason, info.otherReason) == MapHardware(hw)
    ensures info.timestamp == old(info.timestamp) && info.customReason == old(info.customReason)
  {
    hide HasAny, MapFrom, Clip;
    BranchDecides(hw, 0); BranchDecides(hw, 1); BranchDecides(hw, 2); BranchDecides(hw, 3);
    BranchDecides(hw, 4);
    if HasAny(hw, ["SOFTWARE_MASTER_RESET", "SOFTWARE_RESET", "SOFTWARE_REBOOT", "SW_RESET", "SOFTWARE"]) {
      info.source := "SoftwareReboot";
      info.reason := "SOFTWARE_MASTER_RESET";
      info.otherReason := "Reboot due to user triggered reboot command";
    } else if HasAny(hw, ["WATCHDOG"]) {
      info.source := "WatchDog";
      info.reason := "WATCHDOG_TIMER_RESET";
      info.otherReason := "Reboot due to watch dog timer reset";
    } else if HasAny(hw, ["KERNEL_PANIC", "KERNEL_PANIC_RESET"]) {
      info.source := "Kernel";
      info.reason := "KERNEL_PANIC";
      info.otherReason := PANIC_TEXT;
    } else if HasAny(hw, ["POWER_ON", "HARDWARE"]) {
      info.source := "PowerOn";
      info.reason := "POWER_ON_RESET";
      info.otherReason := "Reboot due to unplug of power cable from the STB";
    } else if HasAny(hw, ["MAIN_CHIP_INPUT_RESET"]) {
      info.source := "Main Chip";
      info.reason := "MAIN_CHIP_INPUT_RESET";
      info.otherReason := "Reboot due to chip's main reset input has been asserted";
    } else {
      MapInputReason(hw, info);
    }
  }

  /** The next of its branches. */
  method MapInputReason(hw: string, info: RebootInfo)
    modifies info
    ensures Mapping(info.source, info.reason, info.otherReason) == MapFrom(hw, 5)
    ensures info.timestamp == old(info.timestamp) && info.customReason == old(info.customReason)
  {
    hide HasAny, MapFrom, Clip;
    BranchDecides(hw, 5); BranchDecides(hw, 6); BranchDecides(hw, 7); BranchDecides(hw, 8);
    BranchDecides(hw, 9);
    if HasAny(hw, ["MAIN_CHIP_RESET_INPUT"]) {
      info.source := "Main Chip";
      info.reason := "MAIN_CHIP_RESET_INPUT";
      info.otherReason := "Reboot due to chip's main reset input has been asserted";
    } else if HasAny(hw, ["TAP_IN_SYSTEM_RESET"]) {
      info.source := "Tap-In System";
      info.reason := "TAP_IN_SYSTEM_RESET";
      info.otherReason := "Reboot due to the chip's TAP in-system reset has been asserted";
    } else if HasAny(hw, ["FRONT_PANEL_4SEC_RESET", "FRONT_PANEL_RESET"]) {
      info.source := "FrontPanel Button";
      info.reason := "FRONT_PANEL_RESET";
      info.otherReason := "Reboot due to the front panel 4 second reset has been asserted";
    } else if HasAny(hw, ["S3_WAKEUP_RESET"]) {
      info.source := "Standby Wakeup";
      info.reason := "S3_WAKEUP_RESET";
      info.otherReason := "Reboot due to the chip woke up from deep standby";
    } else if HasAny(hw, ["SMARTCARD_INSERT_RESET"]) {
      info.source := "SmartCard Insert";
      info.reason := "SMARTCARD_INSERT_RESET";
      info.otherReason := "Reboot due to the smartcard insert reset has occurred";
    } else {
      MapVoltageReason(hw, info);
    }
  }

  /** The next after those. */
  method MapVoltageReason(hw: string, info: RebootInfo)
    modifies info
    ensures Mapping(info.source, info.reason, info.otherReason) == MapFrom(hw, 10)
    ensures info.timestamp == old(info.timestamp) && info.customReason == old(info.customReason)
  {
    hide HasAny, MapFrom, Clip;
    BranchDecides(hw, 10); BranchDecides(hw, 11); BranchDecides(hw, 12); BranchDecides(hw, 13);
    BranchDecides(hw, 14);
    if HasAny(hw, ["OVERTEMP", "OVERHEAT"]) {
      info.source := "OverTemperature";
      info.reason := "OVERTEMP_RESET";
      info.otherReason := "Reboot due to chip temperature is above threshold (125*C)";
    } else if HasAny(hw, ["OVERVOLTAGE"]) {
      info.source := "OverVoltage";
      info.reason := "OVERVOLTAGE_RESET";
      info.otherReason := "Reboot due to chip voltage is above threshold";
    } else if HasAny(hw, ["UNDERVOLTAGE", "UNDERVOLTAGE_0_RESET", "UNDERVOLTAGE_1_RESET"]) {
      info.source := "LowVoltage";
      info.reason := "UNDERVOLTAGE_RESET";
      info.otherReason := "Reboot due to chip voltage is below threshold";
    } else if HasAny(hw, ["PCIE_0_HOT_BOOT_RESET", "PCIE_1_HOT_BOOT_RESET", "PCIE_HOT_BOOT_RESET"]) {
      info.source := "PCIE Boot";
      info.reason := "PCIE_HOT_BOOT_RESET";
      info.otherReason := "Reboot due to PCIe hot boot reset has occurred";
    } else if HasAny(hw, ["SECURITY_MASTER_RESET"]) {
      info.source := "SecurityReboot";
      info.reason := "SECURITY_MASTER_RESET";
      info.otherReason := "Reboot due to security master reset has occurred";
    } else {
      MapChipReason(hw, info);
    }
  }

  /** The last of its branches. */
  method MapChipReason(hw: string, info: RebootInfo)
    modifies info
    ensures Mapping(info.source, info.reason, info.otherReason) == MapFrom(hw, 15)
    ensures info.timestamp == old(info.timestamp) && info.customReason == old(info.customReason)
  {
    hide HasAny, MapFrom, Clip;
    BranchDecides(hw, 15); BranchDecides(hw, 16); BranchDecides(hw, 17); BranchDecides(hw, 18);
    BranchDecides(hw, 19); BranchDecides(hw, 20);
    NoBranchLeft(hw);
    if HasAny(hw, ["CPU_EJTAG_RESET"]) {
      info.source := "CPU EJTAG";
      info.reason := "CPU_EJTAG_RESET";
      info.otherReason := "Reboot due to CPU EJTAG reset has occurred";
    } else if HasAny(hw, ["SCPU_EJTAG_RESET"]) {
      info.source := "SCPU EJTAG";
      info.reason := "SCPU_EJTAG_RESET";
      info.otherReason := "Reboot due to SCPU EJTAG reset has occurred";
    } else if HasAny(hw, ["GEN_WATCHDOG_1_RESET", "GEN_WATCHDOG_RESET"]) {
      info.source := "GEN WatchDog";
      info.reason := "GEN_WATCHDOG_RESET";
      info.otherReason := "Reboot due to gen_watchdog_1 timeout reset has occurred";
    } else if HasAny(hw, ["AUX_CHIP_EDGE_RESET_0", "AUX_CHIP_EDGE_RESET_1", "AUX_CHIP_EDGE_RESET"]) {
      info.source := "Aux Chip Edge";
      info.reason := "AUX_CHIP_EDGE_RESET";
      info.otherReason := "Reboot due to the auxiliary edge-triggered chip reset has occurred";
    } else if HasAny(hw, ["AUX_CHIP_LEVEL_RESET_0", "AUX_CHIP_LEVEL_RESET_1", "AUX_CHIP_LEVEL_RESET"]) {
      info.source := "Aux Chip Level";
      info.reason := "AUX_CHIP_LEVEL_RESET";
      info.otherReason := "Reboot due to the auxiliary level-triggered chip reset has occurred";
    } else if HasAny(hw, ["MPM_RESET"]) {
      info.source := "MPM";
      info.reason := "MPM_RESET";
      info.otherReason := "Reboot due to the MPM reset has occurred";
    } else {
      info.source := "Unknown";
      info.reason := Clip(hw, REASON_LENGTH);
      info.otherReason := Clip(hw, REASON_LENGTH);
    }
  }

  // ----- which branch decides

  /** Branch k is the first that the text hits; 21 when it hits none. */
  ghost predicate IsFirstHit(hw: string, k: nat)
  {
    k <= 21 && (forall j :: 0 <= j < k ==> !HasAny(hw, TESTS[j])) && (k < 21 ==> HasAny(hw, TESTS[k]))
  }

  /** A text is mapped by the first branch it hits, if any. */
  lemma {:induction false} FirstHitDecides(hw: string, k: nat, from: nat)
    requires from <= k && IsFirstHit(hw, k)
    ensures MapFrom(hw, from) == if k < 21 then MAPPINGS[k] else Unrecognised(hw)
    decreases k - from
  {
    hide HasAny;
    if from < k { FirstHitDecides(hw, k, from + 1); }
  }

  lemma {:induction false} FirstHitExists(hw: string, from: nat) returns (k: nat)
    requires from <= 21 && forall j :: 0 <= j < from ==> !HasAny(hw, TESTS[j])
    ensures IsFirstHit(hw, k)
    decreases 21 - from
  {
    hide HasAny;
    k := from;
    if from < 21 && !HasAny(hw, TESTS[from]) { k := FirstHitExists(hw, from + 1); }
  }

  /** A beginning of the text hits no branch that the text misses. */
  lemma PrefixMisses(part: string, text: string, tests: seq<string>)
    requires part <= text && !HasAny(text, tests)
    ensures !HasAny(part, tests)
  {
    forall i | 0 <= i < |tests| ensures !Contains(part, tests[i]) {
      if Contains(part, tests[i]) { PrefixOccurs(text, part, tests[i]); }
    }
  }

  // ----- every recognised reason is mapped to itself

  predicate Lacks(r: string, c: char) { forall i :: 0 <= i < |r| ==> r[i] != c }

  predicate LacksAll(r: string, letters: string) { forall k :: 0 <= k < |letters| ==> Lacks(r, letters[k]) }

  /** Every text has the letter. */
  predicate Marked(tests: seq<string>, c: char) { forall i :: 0 <= i < |tests| ==> c in tests[i] }

  lemma LackingMisses(r: string, tests: seq<string>, c: char)
    requires Marked(tests, c) && Lacks(r, c)
    ensures !HasAny(r, tests)
  {
    hide Contains;
    forall i | 0 <= i < |tests| ensures !Contains(r, tests[i]) {
      var k :| 0 <= k < |tests[i]| && tests[i][k] == c;
      MissingChar(r, tests[i], k);
    }
  }

  /** Two letters that all texts of a branch have, branch by branch. */
  const FIRST_MARKS: string := "WWKWHHYF3DVVVBYJJWDX"
  const SECOND_MARKS: string := "WHNWMMNF3MOONBYJJWDX"

  lemma MarksHold1()
    ensures Marked(TESTS[0], 'W') && Marked(TESTS[1], 'W') && Marked(TESTS[1], 'H') && Marked(TESTS[2], 'K')
    ensures Marked(TESTS[2], 'N') && Marked(TESTS[3], 'W')
  {
    assert "SOFTWARE_MASTER_RESET"[4] == 'W' && "SOFTWARE_RESET"[4] == 'W' && "SOFTWARE_REBOOT"[4] == 'W';
    assert "SW_RESET"[1] == 'W' && "SOFTWARE"[4] == 'W' && "WATCHDOG"[0] == 'W' && "WATCHDOG"[4] == 'H';
    assert "KERNEL_PANIC"[0] == 'K' && "KERNEL_PANIC_RESET"[0] == 'K' && "KERNEL_PANIC"[3] == 'N';
    assert "KERNEL_PANIC_RESET"[3] == 'N' && "POWER_ON"[2] == 'W' && "HARDWARE"[4] == 'W';
  }

  lemma MarksHold2()
    ensures Marked(TESTS[4], 'H') && Marked(TESTS[4], 'M') && Marked(TESTS[5], 'H') && Marked(TESTS[5], 'M')
    ensures Marked(TESTS[6], 'Y') && Marked(TESTS[6], 'N')
  {
    assert "MAIN_CHIP_INPUT_RESET"[6] == 'H' && "MAIN_CHIP_INPUT_RESET"[0] == 'M';
    assert "MAIN_CHIP_RESET_INPUT"[6] == 'H' && "MAIN_CHIP_RESET_INPUT"[0] == 'M';
    assert "TAP_IN_SYSTEM_RESET"[8] == 'Y' && "TAP_IN_SYSTEM_RESET"[5] == 'N';
  }

  lemma MarksHold3()
    ensures Marked(TESTS[7], 'F') && Marked(TESTS[8], '3') && Marked(TESTS[9], 'D') && Marked(TESTS[9], 'M')
  {
    assert "FRONT_PANEL_4SEC_RESET"[0] == 'F' && "FRONT_PANEL_RESET"[0] == 'F' && "S3_WAKEUP_RESET"[1] == '3';
    assert "SMARTCARD_INSERT_RESET"[8] == 'D' && "SMARTCARD_INSERT_RESET"[1] == 'M';
  }

  lemma MarksHold4()
    ensures Marked(TESTS[10], 'V') && Marked(TESTS[10], 'O') && Marked(TESTS[11], 'V') && Marked(TESTS[11], 'O')
    ensures Marked(TESTS[12], 'V') && Marked(TESTS[12], 'N') && Marked(TESTS[13], 'B')
  {
    assert "OVERTEMP"[1] == 'V' && "OVERHEAT"[1] == 'V' && "OVERTEMP"[0] == 'O' && "OVERHEAT"[0] == 'O';
    assert "OVERVOLTAGE"[1] == 'V' && "OVERVOLTAGE"[0] == 'O' && "UNDERVOLTAGE"[5] == 'V';
    assert "UNDERVOLTAGE_0_RESET"[5] == 'V' && "UNDERVOLTAGE_1_RESET"[5] == 'V' && "UNDERVOLTAGE"[1] == 'N';
    assert "UNDERVOLTAGE_0_RESET"[1] == 'N' && "UNDERVOLTAGE_1_RESET"[1] == 'N';
    assert "PCIE_0_HOT_BOOT_RESET"[11] == 'B' && "PCIE_1_HOT_BOOT_RESET"[11] == 'B';
    assert "PCIE_HOT_BOOT_RESET"[9] == 'B';
  }

  lemma MarksHold5()
    ensures Marked(TESTS[14], 'Y') && Marked(TESTS[15], 'J') && Marked(TESTS[16], 'J') && Marked(TESTS[17], 'W')
    ensures Marked(TESTS[18], 'D') && Marked(TESTS[19], 'X')
  {
    assert "SECURITY_MASTER_RESET"[7] == 'Y' && "CPU_EJTAG_RESET"[5] == 'J' && "SCPU_EJTAG_RESET"[6] == 'J';
    assert "GEN_WATCHDOG_1_RESET"[4] == 'W' && "GEN_WATCHDOG_RESET"[4] == 'W';
    assert "AUX_CHIP_EDGE_RESET_0"[10] == 'D' && "AUX_CHIP_EDGE_RESET_1"[10] == 'D';
    assert "AUX_CHIP_EDGE_RESET"[10] == 'D' && "AUX_CHIP_LEVEL_RESET_0"[2] == 'X';
    assert "AUX_CHIP_LEVEL_RESET_1"[2] == 'X' && "AUX_CHIP_LEVEL_RESET"[2] == 'X';
  }

  lemma MarksHold(j: nat)
    requires j < 20
    ensures Marked(TESTS[j], FIRST_MARKS[j]) && Marked(TESTS[j], SECOND_MARKS[j])
  {
    hide Marked;
    MarksHold1(); MarksHold2(); MarksHold3(); MarksHold4(); MarksHold5();
  }

  /** The letters have a mark of every branch before the k-th, apart from those named. */
  predicate Covers(letters: string, k: nat, but: set<int>)
    requires k <= 20
  {
    forall j :: 0 <= j < k && j !in but ==> FIRST_MARKS[j] in letters || SECOND_MARKS[j] in letters
  }

  /** Letters that the reason lacks set it apart from the branches before the k-th. */
  predicate Apart(r: string, letters: string, k: nat, but: set<int>)
    requires k <= 20
  {
    LacksAll(r, letters) && Covers(letters, k, but)
  }

  lemma ApartMisses(r: string, letters: string, k: nat, but: set<int>)
    requires k <= 20 && Apart(r, letters, k, but)
    ensures forall j :: 0 <= j < k && j !in but ==> !HasAny(r, TESTS[j])
  {
    hide HasAny, Lacks, Marked;
    forall j | 0 <= j < k && j !in but ensures !HasAny(r, TESTS[j]) {
      MarksHold(j);
      if FIRST_MARKS[j] in letters { LackingMisses(r, TESTS[j], FIRST_MARKS[j]); }
      else { LackingMisses(r, TESTS[j], SECOND_MARKS[j]); }
    }
  }

  lemma ReasonsApart1()
    ensures Apart("WATCHDOG_TIMER_RESET", "", 1, {0})
    ensures Apart("KERNEL_PANIC", "W", 2, {})
    ensures Apart("POWER_ON_RESET", "HK", 3, {0})
    ensures Apart("MAIN_CHIP_INPUT_RESET", "WK", 4, {})
    ensures Apart("MAIN_CHIP_RESET_INPUT", "WK", 5, {4})
  {
  }

  lemma ReasonsApart2()
    ensures Apart("TAP_IN_SYSTEM_RESET", "WKH", 6, {})
    ensures Apart("FRONT_PANEL_RESET", "WKHY", 7, {})
    ensures Apart("S3_WAKEUP_RESET", "HNYF", 8, {0, 3})
  {
  }

  lemma ReasonsApart3()
    ensures Apart("SMARTCARD_INSERT_RESET", "WKHYF3", 9, {})
    ensures Apart("OVERTEMP_RESET", "WKHYF3D", 10, {})
  {
  }

  lemma ReasonsApart4()
    ensures Apart("OVERVOLTAGE_RESET", "WKHYF3D", 11, {10})
  {
  }

  lemma ReasonsApart5()
    ensures Apart("UNDERVOLTAGE_RESET", "WKHYF3M", 12, {10, 11})
  {
  }

  lemma ReasonsApart6()
    ensures Apart("PCIE_HOT_BOOT_RESET", "WKMYF3DV", 13, {})
    ensures Apart("SECURITY_MASTER_RESET", "WKHNF3DVB", 14, {})
  {
  }

  lemma ReasonsApart7()
    ensures Apart("CPU_EJTAG_RESET", "WKHYF3DVB", 15, {})
    ensures Apart("AUX_CHIP_EDGE_RESET", "WKMYF3VBJ", 18, {})
  {
  }

  lemma ReasonsApart8()
    ensures Apart("AUX_CHIP_LEVEL_RESET", "WKMYF3DONBJ", 19, {})
    ensures Apart("MPM_RESET", "WKHYF3DVBJX", 20, {})
  {
  }

  // ----- the pairs that no letter of the whole branch separates

  lemma LackingMissesEach(r: string, tests: seq<string>, letters: string)
    requires |letters| == |tests| && LacksAll(r, letters)
    requires forall i :: 0 <= i < |tests| ==> letters[i] in tests[i]
    ensures !HasAny(r, tests)
  {
    hide Contains;
    forall i | 0 <= i < |tests| ensures !Contains(r, tests[i]) {
      var k :| 0 <= k < |tests[i]| && tests[i][k] == letters[i];
      assert Lacks(r, letters[i]);
      MissingChar(r, tests[i], k);
    }
  }

  /** Two letters in a row that the text nowhere has. */
  lemma NoPair(text: string, pattern: string)
    requires |pattern| >= 2
    requires forall i :: 0 <= i < |text| - 1 && text[i] == pattern[0] ==> text[i + 1] != pattern[1]
    ensures !Contains(text, pattern)
  {
    forall i: nat ensures !OccursAt(text, pattern, i) {
      if OccursAt(text, pattern, i) { OccurrenceHasChar(text, pattern, i, 0); OccurrenceHasChar(text, pattern, i, 1); }
    }
  }

  const LONG_SOFTWARE_TESTS: seq<string> := ["SOFTWARE_MASTER_RESET", "SOFTWARE_RESET", "SOFTWARE_REBOOT", "SOFTWARE"]

  lemma NotSoftware(r: string)
    requires LacksAll(r, "FFFF")
    requires forall i :: 0 <= i < |r| - 1 && r[i] == 'S' ==> r[i + 1] != 'W'
    ensures !HasAny(r, TESTS[0])
  {
    hide Contains, LacksAll;
    assert LONG_SOFTWARE_TESTS[0][2] == LONG_SOFTWARE_TESTS[1][2] == LONG_SOFTWARE_TESTS[2][2] == LONG_SOFTWARE_TESTS[3][2] == 'F';
    LackingMissesEach(r, LONG_SOFTWARE_TESTS, "FFFF");
    NoPair(r, "SW_RESET");
    SoftwareTests(r);
  }

  lemma SoftwareTests(r: string)
    ensures HasAny(r, TESTS[0]) ==> HasAny(r, LONG_SOFTWARE_TESTS) || Contains(r, "SW_RESET")
  {
    hide Contains;
    if HasAny(r, TESTS[0]) {
      var i :| 0 <= i < 5 && Contains(r, TESTS[0][i]);
      if i != 3 { assert TESTS[0][i] == LONG_SOFTWARE_TESTS[if i == 4 then 3 else i]; }
    }
  }

  lemma WatchdogPowerWakeup()
    ensures !HasAny("WATCHDOG_TIMER_RESET", TESTS[0]) && !HasAny("POWER_ON_RESET", TESTS[0]) && !HasAny("S3_WAKEUP_RESET", TESTS[0])
  {
    hide HasAny, TESTS;
    NotSoftware("WATCHDOG_TIMER_RESET");
    NotSoftware("POWER_ON_RESET");
    NotSoftware("S3_WAKEUP_RESET");
  }

  lemma WakeupAndVoltages()
    ensures !HasAny("S3_WAKEUP_RESET", TESTS[3])
    ensures !HasAny("OVERVOLTAGE_RESET", TESTS[10]) && !HasAny("UNDERVOLTAGE_RESET", TESTS[10])
  {
    hide HasAny;
    assert "POWER_ON"[1] == 'O' && "HARDWARE"[0] == 'H' && "OVERTEMP"[6] == 'M' && "OVERHEAT"[4] == 'H';
    LackingMissesEach("S3_WAKEUP_RESET", TESTS[3], "OH");
    LackingMissesEach("OVERVOLTAGE_RESET", TESTS[10], "MH");
    LackingMissesEach("UNDERVOLTAGE_RESET", TESTS[10], "MH");
  }

  lemma SingleTest(hw: string, test: string)
    requires !Contains(hw, test)
    ensures !HasAny(hw, [test])
  {
    hide Contains;
  }

  lemma SameLength(text: string, pattern: string)
    requires |text| == |pattern| && text != pattern
    ensures !Contains(text, pattern)
  {
    forall i: nat ensures !OccursAt(text, pattern, i) {
      if OccursAt(text, pattern, i) { FitsWhole(text, pattern, i); }
    }
  }

  lemma FitsWhole(text: string, pattern: string, i: nat)
    requires |text| == |pattern| && OccursAt(text, pattern, i)
    ensures text == pattern
  {
    assert text[0..] == text;
  }

  lemma VoltagesAndChips()
    ensures !HasAny("UNDERVOLTAGE_RESET", ["OVERVOLTAGE"]) && !HasAny("MAIN_CHIP_RESET_INPUT", ["MAIN_CHIP_INPUT_RESET"])
  {
    hide HasAny, Contains;
    NoPair("UNDERVOLTAGE_RESET", "OVERVOLTAGE");
    SingleTest("UNDERVOLTAGE_RESET", "OVERVOLTAGE");
    assert "MAIN_CHIP_RESET_INPUT"[10] == 'R' && "MAIN_CHIP_INPUT_RESET"[10] == 'I';
    SameLength("MAIN_CHIP_RESET_INPUT", "MAIN_CHIP_INPUT_RESET");
    SingleTest("MAIN_CHIP_RESET_INPUT", "MAIN_CHIP_INPUT_RESET");
  }

  // ----- the mapping as a whole

  /** The branches behind a more general one that the k-th reason might have been feared to hit. */
  function Feared(k: nat): set<int>
  {
    match k
    case 1 => {0}
    case 3 => {0}
    case 5 => {4}
    case 8 => {0, 3}
    case 11 => {10}
    case 12 => {10, 11}
    case _ => {}
  }

  /** Letters that the k-th reason lacks. */
  const LETTERS: seq<string> := ["", "", "W", "HK", "WK", "WK", "WKH", "WKHY", "HNYF", "WKHYF3", "WKHYF3D", "WKHYF3D", "WKHYF3M", "WKMYF3DV", "WKHNF3DVB", "WKHYF3DVB", "", "", "WKMYF3VBJ", "WKMYF3DONBJ", "WKHYF3DVBJX"]

  lemma ReasonsAreApart(k: nat)
    requires 0 < k < 21 && k != 16 && k != 17
    ensures Apart(MAPPINGS[k].reason, LETTERS[k], k, Feared(k))
  {
    hide Apart;
    ReasonsApart1(); ReasonsApart2(); ReasonsApart3(); ReasonsApart4(); ReasonsApart5(); ReasonsApart6();
    ReasonsApart7(); ReasonsApart8();
  }

  /** The text of the k-th branch that its own reason starts with. */
  const OWN: seq<nat> := [0, 0, 0, 0, 0, 0, 0, 1, 0, 0, 0, 0, 0, 2, 0, 0, 0, 1, 2, 2, 0]

  lemma LongerReasons()
    ensures "WATCHDOG" <= "WATCHDOG_TIMER_RESET" && "POWER_ON" <= "POWER_ON_RESET" && "OVERTEMP" <= "OVERTEMP_RESET"
    ensures "OVERVOLTAGE" <= "OVERVOLTAGE_RESET" && "UNDERVOLTAGE" <= "UNDERVOLTAGE_RESET"
  {
  }

  lemma OwnTest(k: nat)
    requires k < 21
    ensures OWN[k] < |TESTS[k]| && TESTS[k][OWN[k]] <= MAPPINGS[k].reason
  {
    LongerReasons();
    assert k != 1 && k != 3 && k != 10 && k != 11 && k != 12 ==> OWN[k] < |TESTS[k]| && TESTS[k][OWN[k]] == MAPPINGS[k].reason;
  }

  lemma PrefixHits(r: string, tests: seq<string>, i: nat)
    requires i < |tests| && tests[i] <= r
    ensures HasAny(r, tests)
  {
    assert r[0..] == r;
    assert OccursAt(r, tests[i], 0);
    assert Contains(r, tests[i]);
  }

  /** The reason of every live branch is mapped by that branch again. */
  lemma ReasonIsFixed(k: nat)
    requires k < 21 && k != 16 && k != 17
    ensures MapHardware(MAPPINGS[k].reason) == MAPPINGS[k]
  {
    hide HasAny, Apart, MapFrom;
    var r := MAPPINGS[k].reason;
    OwnTest(k);
    PrefixHits(r, TESTS[k], OWN[k]);
    if k > 0 {
      ReasonsAreApart(k);
      ApartMisses(r, LETTERS[k], k, Feared(k));
    }
    WatchdogPowerWakeup(); WakeupAndVoltages(); VoltagesAndChips();
    FirstHitDecides(r, k, 0);
  }

  lemma WithinAnother(hw: string, inner: string, outer: string)
    requires Contains(hw, outer) && Occurs(outer, inner)
    ensures Contains(hw, inner)
  {
    OccursTransitive(hw, outer, inner);
  }

  lemma ShadowedTexts()
    ensures Occurs("SCPU_EJTAG_RESET", "CPU_EJTAG_RESET")
    ensures Occurs("GEN_WATCHDOG_1_RESET", "WATCHDOG") && Occurs("GEN_WATCHDOG_RESET", "WATCHDOG")
  {
    assert "SCPU_EJTAG_RESET"[1..] == "CPU_EJTAG_RESET";
    assert OccursAt("SCPU_EJTAG_RESET", "CPU_EJTAG_RESET", 1);
    assert "GEN_WATCHDOG_1_RESET"[4..] == "WATCHDOG" + "_1_RESET";
    assert "GEN_WATCHDOG_RESET"[4..] == "WATCHDOG" + "_RESET";
    assert OccursAt("GEN_WATCHDOG_1_RESET", "WATCHDOG", 4) && OccursAt("GEN_WATCHDOG_RESET", "WATCHDOG", 4);
  }

  /** A text that hits branch 16 has already hit branch 15, and one that hits branch 17 branch 1. */
  lemma Shadowed(hw: string)
    ensures HasAny(hw, TESTS[16]) ==> HasAny(hw, TESTS[15])
    ensures HasAny(hw, TESTS[17]) ==> HasAny(hw, TESTS[1])
  {
    ShadowedTexts();
    hide Contains, Occurs;
    if HasAny(hw, TESTS[16]) {
      WithinAnother(hw, "CPU_EJTAG_RESET", "SCPU_EJTAG_RESET");
      assert Contains(hw, TESTS[15][0]);
    }
    if HasAny(hw, TESTS[17]) {
      if Contains(hw, "GEN_WATCHDOG_1_RESET") { WithinAnother(hw, "WATCHDOG", "GEN_WATCHDOG_1_RESET"); }
      else { WithinAnother(hw, "WATCHDOG", "GEN_WATCHDOG_RESET"); }
      assert Contains(hw, TESTS[1][0]);
    }
  }

  lemma SourcesDiffer(k: nat)
    requires k < 21 && k != 16 && k != 17
    ensures MAPPINGS[k].source != "SCPU EJTAG" && MAPPINGS[k].source != "GEN WatchDog"
  {
  }

  /** The two branches behind a more general one are dead: no text reaches them. */
  lemma DeadBranches(hw: string)
    ensures MapHardware(hw).source != "SCPU EJTAG" && MapHardware(hw).source != "GEN WatchDog"
    ensures !IsFirstHit(hw, 16) && !IsFirstHit(hw, 17)
  {
    hide HasAny, MapFrom;
    Shadowed(hw);
    var k := FirstHitExists(hw, 0);
    FirstHitDecides(hw, k, 0);
    if k < 21 { SourcesDiffer(k); } else { assert "Unknown"[0] == 'U'; }
  }

  /** The mapping is idempotent on all texts: mapping the mapped reason changes nothing more. */
  lemma MappingIsIdempotent(hw: string)
    ensures MapHardware(MapHardware(hw).reason) == MapHardware(hw)
  {
    hide HasAny, MapFrom, Clip;
    var k := FirstHitExists(hw, 0);
    FirstHitDecides(hw, k, 0);
    if k < 21 {
      DeadBranches(hw);
      ReasonIsFixed(k);
    } else {
      var cut := Clip(hw, REASON_LENGTH);
      forall j | 0 <= j < 21 ensures !HasAny(cut, TESTS[j]) { PrefixMisses(cut, hw, TESTS[j]); }
      FirstHitDecides(cut, 21, 0);
      ClipTwice(hw);
    }
  }

  lemma ClipTwice(hw: string)
    ensures Clip(Clip(hw, REASON_LENGTH), REASON_LENGTH) == Clip(hw, REASON_LENGTH)
  {
  }

  lemma MappingsFit(k: nat)
    requires k < 21
    ensures var m := MAPPINGS[k]; 0 < |m.source| < REASON_LENGTH && 0 < |m.reason| < REASON_LENGTH && 0 < |m.otherReason| < REASON_LENGTH
  {
  }

  /** Every mapped field fits its buffer, and only an empty text leaves one empty. */
  lemma MappingFits(hw: string)
    ensures var m := MapHardware(hw);
            && 0 < |m.source| < REASON_LENGTH && |m.reason| < REASON_LENGTH && |m.otherReason| < REASON_LENGTH
            && (hw != "" ==> m.reason != "" && m.otherReason != "")
  {
    hide HasAny, MapFrom;
    var k := FirstHitExists(hw, 0);
    FirstHitDecides(hw, k, 0);
    if k < 21 { MappingsFit(k); }
  }

  // ----- a text that is the name of a request category

  lemma FailureTextApart()
    ensures Apart("FIRMWARE_FAILURE", "HKY3DVBJX", 20, {0, 3, 7, 17})
  {
  }

  lemma FailureTextMisses()
    ensures var r := "FIRMWARE_FAILURE"; !HasAny(r, TESTS[0]) && !HasAny(r, TESTS[3]) && !HasAny(r, TESTS[7])
  {
    hide HasAny, LacksAll;
    var r := "FIRMWARE_FAILURE";
    FailureTextLacks();
    assert TESTS[0][0][0] == TESTS[0][1][0] == TESTS[0][2][0] == TESTS[0][3][0] == TESTS[0][4][0] == 'S';
    LackingMissesEach(r, TESTS[0], "SSSSS");
    assert TESTS[3][0][1] == 'O' && TESTS[3][1][0] == 'H';
    LackingMissesEach(r, TESTS[3], "OH");
    assert TESTS[7][0][3] == TESTS[7][1][3] == 'N';
    LackingMissesEach(r, TESTS[7], "NN");
  }

  lemma FailureTextMissesLate()
    ensures !HasAny("FIRMWARE_FAILURE", TESTS[17]) && !HasAny("FIRMWARE_FAILURE", TESTS[20])
  {
    hide HasAny, LacksAll;
    FailureTextLacks();
    assert TESTS[17][0][0] == TESTS[17][1][0] == 'G';
    LackingMissesEach("FIRMWARE_FAILURE", TESTS[17], "GG");
    assert TESTS[20][0][1] == 'P';
    LackingMissesEach("FIRMWARE_FAILURE", TESTS[20], "P");
  }

  lemma FailureTextLacks()
    ensures var r := "FIRMWARE_FAILURE";
            LacksAll(r, "SSSSS") && LacksAll(r, "OH") && LacksAll(r, "NN") && LacksAll(r, "GG") && LacksAll(r, "P")
  {
  }

  /** No branch recognises the name of the failure category, so it is filed as it stands. */
  lemma FailureTextUnrecognised()
    ensures MapHardware("FIRMWARE_FAILURE") == Unrecognised("FIRMWARE_FAILURE")
  {
    hide HasAny, Apart, MapFrom;
    FailureTextApart();
    ApartMisses("FIRMWARE_FAILURE", "HKY3DVBJX", 20, {0, 3, 7, 17});
    FailureTextMisses();
    FailureTextMissesLate();
    FirstHitDecides("FIRMWARE_FAILURE", 21, 0);
  }

  /** What is filed for each register text that names its own reason. */
  lemma KnownReasons1()
    ensures MapHardware("SOFTWARE_MASTER_RESET") == Mapping("SoftwareReboot", "SOFTWARE_MASTER_RESET",
                                "Reboot due to user triggered reboot command")
    ensures MapHardware("WATCHDOG_TIMER_RESET") == Mapping("WatchDog", "WATCHDOG_TIMER_RESET",
                                "Reboot due to watch dog timer reset")
    ensures MapHardware("KERNEL_PANIC") == Mapping("Kernel", "KERNEL_PANIC",
                                "Reboot due to Kernel Panic captured by Oops Dump")
    ensures MapHardware("POWER_ON_RESET") == Mapping("PowerOn", "POWER_ON_RESET",
                                "Reboot due to unplug of power cable from the STB")
    ensures MapHardware("MAIN_CHIP_INPUT_RESET") == Mapping("Main Chip", "MAIN_CHIP_INPUT_RESET",
                                "Reboot due to chip's main reset input has been asserted")
    ensures MapHardware("MAIN_CHIP_RESET_INPUT") == Mapping("Main Chip", "MAIN_CHIP_RESET_INPUT",
                                "Reboot due to chip's main reset input has been asserted")
    ensures MapHardware("TAP_IN_SYSTEM_RESET") == Mapping("Tap-In System", "TAP_IN_SYSTEM_RESET",
                                "Reboot due to the chip's TAP in-system reset has been asserted")
  {
    hide MapHardware;
    ReasonIsFixed(0); ReasonIsFixed(1); ReasonIsFixed(2); ReasonIsFixed(3);
    ReasonIsFixed(4); ReasonIsFixed(5); ReasonIsFixed(6);
  }

  lemma KnownReasons2()
    ensures MapHardware("FRONT_PANEL_RESET") == Mapping("FrontPanel Button", "FRONT_PANEL_RESET",
                                "Reboot due to the front panel 4 second reset has been asserted")
    ensures MapHardware("S3_WAKEUP_RESET") == Mapping("Standby Wakeup", "S3_WAKEUP_RESET",
                                "Reboot due to the chip woke up from deep standby")
    ensures MapHardware("SMARTCARD_INSERT_RESET") == Mapping("SmartCard Insert", "SMARTCARD_INSERT_RESET",
                                "Reboot due to the smartcard insert reset has occurred")
    ensures MapHardware("OVERTEMP_RESET") == Mapping("OverTemperature", "OVERTEMP_RESET",
                                "Reboot due to chip temperature is above threshold (125*C)")
    ensures MapHardware("OVERVOLTAGE_RESET") == Mapping("OverVoltage", "OVERVOLTAGE_RESET",
                                "Reboot due to chip voltage is above threshold")
    ensures MapHardware("UNDERVOLTAGE_RESET") == Mapping("LowVoltage", "UNDERVOLTAGE_RESET",
                                "Reboot due to chip voltage is below threshold")
  {
    hide MapHardware;
    ReasonIsFixed(7); ReasonIsFixed(8); ReasonIsFixed(9); ReasonIsFixed(10);
    ReasonIsFixed(11); ReasonIsFixed(12);
  }

  lemma KnownReasons3()
    ensures MapHardware("PCIE_HOT_BOOT_RESET") == Mapping("PCIE Boot", "PCIE_HOT_BOOT_RESET",
                                "Reboot due to PCIe hot boot reset has occurred")
    ensures MapHardware("SECURITY_MASTER_RESET") == Mapping("SecurityReboot", "SECURITY_MASTER_RESET",
                                "Reboot due to security master reset has occurred")
    ensures MapHardware("CPU_EJTAG_RESET") == Mapping("CPU EJTAG", "CPU_EJTAG_RESET",
                                "Reboot due to CPU EJTAG reset has occurred")
    ensures MapHardware("AUX_CHIP_EDGE_RESET") == Mapping("Aux Chip Edge", "AUX_CHIP_EDGE_RESET",
                                "Reboot due to the auxiliary edge-triggered chip reset has occurred")
    ensures MapHardware("AUX_CHIP_LEVEL_RESET") == Mapping("Aux Chip Level", "AUX_CHIP_LEVEL_RESET",
                                "Reboot due to the auxiliary level-triggered chip reset has occurred")
    ensures MapHardware("MPM_RESET") == Mapping("MPM", "MPM_RESET",
                                "Reboot due to the MPM reset has occurred")
  {
    hide MapHardware;
    ReasonIsFixed(13); ReasonIsFixed(14); ReasonIsFixed(15); ReasonIsFixed(18);
    ReasonIsFixed(19); ReasonIsFixed(20);
  }

  // ----- which texts are recognised at all

  /** The texts that no other text of the tests is part of. */
  const ESSENTIAL: seq<string> := [
    "SOFTWARE", "SW_RESET", "WATCHDOG", "KERNEL_PANIC", "POWER_ON", "HARDWARE", "MAIN_CHIP_INPUT_RESET",
    "MAIN_CHIP_RESET_INPUT", "TAP_IN_SYSTEM_RESET", "FRONT_PANEL_4SEC_RESET", "FRONT_PANEL_RESET",
    "S3_WAKEUP_RESET", "SMARTCARD_INSERT_RESET", "OVERTEMP", "OVERHEAT", "OVERVOLTAGE", "UNDERVOLTAGE",
    "PCIE_0_HOT_BOOT_RESET", "PCIE_1_HOT_BOOT_RESET", "PCIE_HOT_BOOT_RESET", "SECURITY_MASTER_RESET",
    "CPU_EJTAG_RESET", "AUX_CHIP_EDGE_RESET", "AUX_CHIP_LEVEL_RESET", "MPM_RESET"
  ]

  /** For each text of each branch the essential text it starts with; the two shadowed branches have none. */
  const STARTS: seq<seq<nat>> := [
    [0, 0, 0, 1, 0], [2], [3, 3], [4, 5], [6], [7], [8], [9, 10], [11], [12], [13, 14], [15],
    [16, 16, 16], [17, 18, 19], [20], [21], [], [], [22, 22, 22], [23, 23, 23], [24]
  ]

  lemma LongerTexts()
    ensures "SOFTWARE" <= "SOFTWARE_MASTER_RESET" && "SOFTWARE" <= "SOFTWARE_RESET"
    ensures "SOFTWARE" <= "SOFTWARE_REBOOT" && "KERNEL_PANIC" <= "KERNEL_PANIC_RESET"
    ensures "UNDERVOLTAGE" <= "UNDERVOLTAGE_0_RESET" && "UNDERVOLTAGE" <= "UNDERVOLTAGE_1_RESET"
    ensures "AUX_CHIP_EDGE_RESET" <= "AUX_CHIP_EDGE_RESET_0" && "AUX_CHIP_EDGE_RESET" <= "AUX_CHIP_EDGE_RESET_1"
    ensures "AUX_CHIP_LEVEL_RESET" <= "AUX_CHIP_LEVEL_RESET_0" && "AUX_CHIP_LEVEL_RESET" <= "AUX_CHIP_LEVEL_RESET_1"
  {
  }

  predicate Starts(k: nat)
    requires k < 21
  {
    |STARTS[k]| == |TESTS[k]|
    && forall i :: 0 <= i < |TESTS[k]| ==> STARTS[k][i] < |ESSENTIAL| && ESSENTIAL[STARTS[k][i]] <= TESTS[k][i]
  }

  lemma Start1()
    ensures Starts(0)
  {
    LongerTexts();
  }

  lemma Start2()
    ensures Starts(1) && Starts(2) && Starts(3)
  {
    LongerTexts();
  }

  lemma Start3()
    ensures Starts(4) && Starts(5)
  {
    LongerTexts();
  }

  lemma Start4()
    ensures Starts(6) && Starts(7)
  {
    LongerTexts();
  }

  lemma Start5()
    ensures Starts(8) && Starts(9)
  {
    LongerTexts();
  }

  lemma Start6()
    ensures Starts(10) && Starts(11)
  {
    LongerTexts();
  }

  lemma Start7()
    ensures Starts(12) && Starts(13)
  {
    LongerTexts();
  }

  lemma Start8()
    ensures Starts(14) && Starts(15) && Starts(18)
  {
    LongerTexts();
  }

  lemma Start9()
    ensures Starts(19) && Starts(20)
  {
    LongerTexts();
  }

  lemma StartsEssential(k: nat)
    requires k < 21 && k != 16 && k != 17
    ensures Starts(k)
  {
    hide Starts;
    Start1(); Start2(); Start3(); Start4(); Start5(); Start6(); Start7(); Start8(); Start9();
  }

  lemma BranchHasEssential(hw: string, k: nat)
    requires k < 21 && k != 16 && k != 17 && HasAny(hw, TESTS[k])
    ensures HasAny(hw, ESSENTIAL)
  {
    StartsEssential(k);
    hide Contains, TESTS, ESSENTIAL, STARTS;
    var i :| 0 <= i < |TESTS[k]| && Contains(hw, TESTS[k][i]);
    StartContained(hw, TESTS[k][i], ESSENTIAL[STARTS[k][i]]);
    assert Contains(hw, ESSENTIAL[STARTS[k][i]]);
  }

  lemma StartContained(hw: string, text: string, start: string)
    requires Contains(hw, text) && start <= text
    ensures Contains(hw, start)
  {
    assert text[0..] == text;
    assert OccursAt(text, start, 0);
    WithinAnother(hw, start, text);
  }

  /** Where each essential text is tested: the branch and the place in it. */
  const TESTED: seq<(nat, nat)> := [
    (0, 4), (0, 3), (1, 0), (2, 0), (3, 0), (3, 1), (4, 0), (5, 0), (6, 0), (7, 0), (7, 1), (8, 0),
    (9, 0), (10, 0), (10, 1), (11, 0), (12, 0), (13, 0), (13, 1), (13, 2), (14, 0), (15, 0), (18, 2),
    (19, 2), (20, 0)
  ]

  lemma EssentialIsTested(j: nat)
    requires j < |ESSENTIAL|
    ensures TESTED[j].0 < 21 && TESTED[j].1 < |TESTS[TESTED[j].0]| && TESTS[TESTED[j].0][TESTED[j].1] == ESSENTIAL[j]
  {
  }

  lemma SourceIsKnown(k: nat)
    requires k < 21
    ensures MAPPINGS[k].source != "Unknown"
  {
  }

  /** A text is recognised if and only if it contains one of the essential texts. */
  lemma RecognisedExactly(hw: string)
    ensures MapHardware(hw).source != "Unknown" <==> HasAny(hw, ESSENTIAL)
    ensures MapHardware(hw).source == "Unknown" ==> MapHardware(hw) == Unrecognised(hw)
  {
    var k := FirstHitExists(hw, 0);
    DeadBranches(hw);
    if k < 21 { SourceIsKnown(k); BranchHasEssential(hw, k); }
    if HasAny(hw, ESSENTIAL) { EssentialHits(hw); }
    hide HasAny, TESTS, ESSENTIAL, MapFrom;
    FirstHitDecides(hw, k, 0);
  }

  lemma EssentialHits(hw: string)
    requires HasAny(hw, ESSENTIAL)
    ensures exists k :: 0 <= k < 21 && HasAny(hw, TESTS[k])
  {
    var j :| 0 <= j < |ESSENTIAL| && Contains(hw, ESSENTIAL[j]);
    EssentialIsTested(j);
    hide Contains;
    assert HasAny(hw, TESTS[TESTED[j].0]);
  }
}
