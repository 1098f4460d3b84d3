/** The pure decisions of the LR1121 firmware update: may this image be flashed, and may the bootloader be rewritten. */
module Lr1121Decisions {
  import opened Words

  const DEVICE_TYPE: Byte := 0x03
  const BOOTLOADER_TYPE: Byte := 0xDF
  const BOOTLOADER_2100: U16 := 0x2100
  const BOOTLOADER_2101: U16 := 0x2101

  datatype Requirement = Requirement(targetFw: U16, bootloader: U16)

  const KNOWN_BOOTLOADER_REQUIREMENTS := [
    Requirement(0x0101, BOOTLOADER_2100),
    Requirement(0x0102, BOOTLOADER_2100),
    Requirement(0x0103, BOOTLOADER_2100),
    Requirement(0x0104, BOOTLOADER_2101)]

  datatype BootloaderSupport = SUPPORTED | UNSUPPORTED | UNKNOWN_TARGET

  datatype UpgradePath = NOT_APPLICABLE | AVAILABLE | BLOCKED_UNKNOWN_TARGET | BLOCKED_BOOTLOADER_NEWER

  datatype FlashDecision =
    | PROCEED | ALREADY_INSTALLED | NEEDS_CONFIRMATION | REJECT_WRONG_CHIP | REJECT_BOOTLOADER_TOO_OLD

  datatype SanityResult = SANE | WRONG_TYPE | VERSION_MISMATCH | WRONG_CHIP_FAMILY

  predicate IsLr1121(bootloader: U16) { bootloader == BOOTLOADER_2100 || bootloader == BOOTLOADER_2101 }

  /** Searches the table, first match first; 0 for a target that is not in it. */
  function RequiredIn(table: seq<Requirement>, targetFw: U16): U16 {
    if table == [] then 0
    else if table[0].targetFw == targetFw then table[0].bootloader else RequiredIn(table[1..], targetFw)
  }

  function RequiredBootloader(targetFw: U16): U16 { RequiredIn(KNOWN_BOOTLOADER_REQUIREMENTS, targetFw) }

  function SupportsIn(table: seq<Requirement>, targetFw: U16, bootloader: U16): BootloaderSupport {
    if table == [] then UNKNOWN_TARGET
    else if table[0].targetFw == targetFw then (if table[0].bootloader == bootloader then SUPPORTED else UNSUPPORTED)
    else SupportsIn(table[1..], targetFw, bootloader)
  }

  function SupportsTarget(targetFw: U16, bootloader: U16): BootloaderSupport {
    SupportsIn(KNOWN_BOOTLOADER_REQUIREMENTS, targetFw, bootloader)
  }

  function BootloaderUpgradePath(blockPresent: bool, known: bool, bootloader: U16, loaderFw: U16,
                                 targetFw: U16): UpgradePath {
    if !blockPresent || !known || !IsLr1121(bootloader) || loaderFw != bootloader then NOT_APPLICABLE
    else
      var required := RequiredBootloader(targetFw);
      if required == 0 then BLOCKED_UNKNOWN_TARGET
      else if required == bootloader then NOT_APPLICABLE
      else if required > bootloader then AVAILABLE
      else BLOCKED_BOOTLOADER_NEWER
  }

  function Decide(deviceType: Byte, chipType: Byte, bootloader: U16, installedFw: U16, targetFw: U16,
                  confirmed: bool): FlashDecision {
    var ask := if confirmed then PROCEED else NEEDS_CONFIRMATION;
    if bootloader == 0 then ask
    else if chipType != BOOTLOADER_TYPE || !IsLr1121(bootloader) then REJECT_WRONG_CHIP
    else if deviceType == 0 then ask
    else if deviceType != DEVICE_TYPE then REJECT_WRONG_CHIP
    else
      var support := SupportsTarget(targetFw, bootloader);
      if support == UNSUPPORTED then REJECT_BOOTLOADER_TOO_OLD
      else if support == UNKNOWN_TARGET then ask
      else if installedFw == 0 then ask
      else if targetFw == installedFw then (if confirmed then PROCEED else ALREADY_INSTALLED)
      else if targetFw > installedFw then PROCEED
      else ask
  }

  function CheckSanity(known: bool, knownVersion: U16, chipType: Byte, version: U16): SanityResult {
    if chipType != BOOTLOADER_TYPE then WRONG_TYPE
    else if known then (if version != knownVersion then VERSION_MISMATCH else SANE)
    else if !IsLr1121(version) then WRONG_CHIP_FAMILY
    else SANE
  }

  predicate Rejects(d: FlashDecision) { d == REJECT_WRONG_CHIP || d == REJECT_BOOTLOADER_TOO_OLD }

  lemma Table(targetFw: U16, bootloader: U16)
    ensures RequiredBootloader(targetFw) ==
      if targetFw == 0x0104 then 0x2101 else if 0x0101 <= targetFw <= 0x0103 then 0x2100 else 0
    ensures SupportsTarget(targetFw, bootloader) ==
      if RequiredBootloader(targetFw) == 0 then UNKNOWN_TARGET
      else if RequiredBootloader(targetFw) == bootloader then SUPPORTED else UNSUPPORTED
  {
    var r1, r2 := Requirement(0x0101, BOOTLOADER_2100), Requirement(0x0102, BOOTLOADER_2100);
    var r3, r4 := Requirement(0x0103, BOOTLOADER_2100), Requirement(0x0104, BOOTLOADER_2101);
    assert KNOWN_BOOTLOADER_REQUIREMENTS == [r1] + ([r2] + ([r3] + ([r4] + [])));
    FirstRow(r4, [], targetFw, bootloader);
    FirstRow(r3, [r4] + [], targetFw, bootloader);
    FirstRow(r2, [r3] + ([r4] + []), targetFw, bootloader);
    FirstRow(r1, [r2] + ([r3] + ([r4] + [])), targetFw, bootloader);
  }

  lemma FirstRow(r: Requirement, rest: seq<Requirement>, targetFw: U16, bootloader: U16)
    ensures RequiredIn([r] + rest, targetFw) ==
      if r.targetFw == targetFw then r.bootloader else RequiredIn(rest, targetFw)
    ensures SupportsIn([r] + rest, targetFw, bootloader) ==
      if r.targetFw == targetFw then (if r.bootloader == bootloader then SUPPORTED else UNSUPPORTED)
      else SupportsIn(rest, targetFw, bootloader)
  {
    assert ([r] + rest)[1..] == rest;
  }

  /** Every verdict, and exactly when it is given. */
  lemma DecisionTable(deviceType: Byte, chipType: Byte, bootloader: U16, installedFw: U16, targetFw: U16,
                      confirmed: bool)
    ensures var d := Decide(deviceType, chipType, bootloader, installedFw, targetFw, confirmed);
            var lr1121 := chipType == 0xDF && (bootloader == 0x2100 || bootloader == 0x2101);
            var needed := if targetFw == 0x0104 then 0x2101 else if 0x0101 <= targetFw <= 0x0103 then 0x2100 else 0;
            && (d == REJECT_WRONG_CHIP <==> bootloader != 0 && (!lr1121 || (deviceType != 0 && deviceType != 3)))
            && (d == REJECT_BOOTLOADER_TOO_OLD <==> lr1121 && deviceType == 3 && needed != 0 && needed != bootloader)
            && (d == ALREADY_INSTALLED <==>
                  lr1121 && deviceType == 3 && needed == bootloader && installedFw == targetFw && !confirmed)
            && (d == NEEDS_CONFIRMATION ==> !confirmed)
            && (d == PROCEED && !confirmed <==>
                  lr1121 && deviceType == 3 && needed == bootloader && 0 < installedFw < targetFw && !confirmed)
  {
    Table(targetFw, bootloader);
  }

  /** The irreversible rewrite is on offer in exactly one situation, and blocked in these two. */
  lemma RewriteAvailableIff(blockPresent: bool, known: bool, bootloader: U16, loaderFw: U16, targetFw: U16)
    ensures BootloaderUpgradePath(blockPresent, known, bootloader, loaderFw, targetFw) == AVAILABLE
      <==> blockPresent && known && bootloader == 0x2100 && loaderFw == 0x2100 && targetFw == 0x0104
    ensures BootloaderUpgradePath(blockPresent, known, bootloader, loaderFw, targetFw) == BLOCKED_BOOTLOADER_NEWER
      <==> blockPresent && known && bootloader == 0x2101 && loaderFw == 0x2101 && 0x0101 <= targetFw <= 0x0103
    ensures BootloaderUpgradePath(blockPresent, known, bootloader, loaderFw, targetFw) == BLOCKED_UNKNOWN_TARGET
      <==> blockPresent && known && (bootloader == 0x2100 || bootloader == 0x2101) && loaderFw == bootloader
           && (targetFw < 0x0101 || 0x0104 < targetFw)
  {
    Table(targetFw, bootloader);
  }

  /** Flashing at one press takes the chip identified positively twice over, a known pairing and a newer image. */
  lemma ProceedsUnaskedIff(deviceType: Byte, chipType: Byte, bootloader: U16, installedFw: U16, targetFw: U16)
    ensures Decide(deviceType, chipType, bootloader, installedFw, targetFw, false) == PROCEED
      <==> deviceType == DEVICE_TYPE && chipType == BOOTLOADER_TYPE && IsLr1121(bootloader)
           && RequiredBootloader(targetFw) == bootloader && 0 < installedFw < targetFw
  {
    Table(targetFw, bootloader);
  }

  /** A second press answers every question and overrides no rejection, so acting on the cached verdict is the same as
      deciding again with the confirmation. */
  lemma SecondPressDecidesAgain(deviceType: Byte, chipType: Byte, bootloader: U16, installedFw: U16,
                                targetFw: U16, armed: bool)
    ensures var cached := Decide(deviceType, chipType, bootloader, installedFw, targetFw, false);
            var again := Decide(deviceType, chipType, bootloader, installedFw, targetFw, armed);
            && (Rejects(cached) ==> again == cached)
            && (again == PROCEED <==> !Rejects(cached) && (cached == PROCEED || armed))
  {
    Table(targetFw, bootloader);
  }

  /** The last check before an erase has seen an LR1121, on every path a verdict lets through, unless the read at boot
      succeeded and returned version 0; and in that case never. */
  lemma ErasesOnlyLr1121Iff(deviceType: Byte, chipType: Byte, bootloader: U16, known: bool, installedFw: U16,
                            targetFw: U16, seenType: Byte, seenVersion: U16)
    requires !known ==> chipType == 0 && bootloader == 0
    requires !Rejects(Decide(deviceType, chipType, bootloader, installedFw, targetFw, false))
    requires CheckSanity(known, bootloader, seenType, seenVersion) == SANE
    ensures seenType == BOOTLOADER_TYPE && (IsLr1121(seenVersion) <==> !(known && bootloader == 0))
  {
    Table(targetFw, bootloader);
  }

  /** Such a chip gets through: version 0 at boot is taken for "unknown" by the verdict but for a reading to compare
      with by the sanity check, so the same answer at flash time passes. */
  lemma VersionZeroReachesErase()
    ensures Decide(0, BOOTLOADER_TYPE, 0, 0, 0x0104, true) == PROCEED
    ensures CheckSanity(true, 0, BOOTLOADER_TYPE, 0) == SANE && !IsLr1121(0)
  {
  }
}
