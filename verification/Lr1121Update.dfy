/** The LR1121 flash button: boot-time bootloader read, two-press confirmation, the ordinary flash and the three-stage
    bootloader rewrite, against a chip that may answer anything. */
module Lr1121Update {
  import opened Wrappers
  import opened Lr1121Decisions
  import opened Words

  const CONFIRM_WINDOW := 60000
  const LOADER_2100: U16 := 0x2100
  const LOADER_DEVICE_TYPE: Byte := 0xDE

  /** What a version read returns: the `type` byte and the version. */
  datatype Version = Version(kind: Byte, number: U16)

  datatype Report = Report(signature: bool, version: bool, useCase: bool,
                           versionMajor: bool, versionMinor: bool, antiRollback: bool)

  datatype Image = LOADER | TRANSCEIVER

  /** Everything one power cycle does to the chip, with the presses and the switch that led to it. None is a read that
      timed out; SafeReboot restarts the hub. */
  datatype Event =
    | EnterBootloader(read: Option<Version>)
    | ReadBootloader(read: Option<Version>)
    | ReadNormal(read: Option<Version>)
    | EraseFlash(ok: bool)
    | WriteImage(image: Image, ok: bool)
    | ReadHash(ok: bool)
    | RebootChip(ok: bool)
    | UpdateBootloader(ok: bool)
    | ReadStatus(ok: bool)
    | VerifyBootloader(report: Option<Report>)
    | UpdaterReboot(ok: bool)
    | InitRadio(ok: bool)
    | Cached(verdict: FlashDecision)
    | Switched(allowed: bool)
    | Pressed(at: nat)
    | AskedToConfirm(at: nat)
    | SafeReboot

  datatype Config = Config(blockPresent: bool, loaderFw: U16, targetFw: U16, late: nat)

  predicate AllChecksPassed(r: Report) {
    r.signature && r.version && r.useCase && r.versionMajor && r.versionMinor && r.antiRollback
  }

  // --- Reading a trace ---

  /** What a trace adds up to: the read at boot, the switch, the cached verdict, the last request to confirm, whether
      the bootloader was entered after boot, how often it was rewritten, whether the loader was written, and whether
      the hub has restarted. */
  datatype Facts = Facts(boot: Option<Version>, allowed: bool, verdict: Option<FlashDecision>, asked: Option<nat>,
                         entered: bool, updates: nat, loaderWritten: bool, restarted: bool)

  function Fold(t: seq<Event>): Facts {
    if t == [] then Facts(None, false, None, None, false, 0, false, false)
    else
      var f := Fold(t[..|t| - 1]);
      match t[|t| - 1]
      case EnterBootloader(read) => if f.verdict.None? then f.(boot := read) else f.(entered := true)
      case Cached(v) => f.(verdict := Some(v))
      case Switched(allowed) => f.(allowed := allowed)
      case AskedToConfirm(at) => f.(asked := Some(at))
      case UpdateBootloader(_) => f.(updates := f.updates + 1)
      case WriteImage(image, ok) => if image == LOADER && ok then f.(loaderWritten := true) else f
      case SafeReboot => f.(restarted := true)
      case _ => f
  }

  // --- What may be done to the chip ---

  /** The one situation in which the bootloader may be rewritten. */
  ghost predicate RewritePermitted(cfg: Config, f: Facts) {
    && cfg.blockPresent && cfg.loaderFw == LOADER_2100 && RequiredBootloader(cfg.targetFw) == BOOTLOADER_2101
    && f.allowed && f.boot == Some(Version(BOOTLOADER_TYPE, BOOTLOADER_2100))
  }

  /** A press at `at` may flash: the verdict is PROCEED, or an open question was asked within the window, or the
      bootloader is too old and its rewrite is permitted. */
  ghost predicate FlashPermitted(cfg: Config, f: Facts, at: nat) {
    match f.verdict
    case Some(PROCEED) => true
    case Some(NEEDS_CONFIRMATION) => f.asked.Some? && f.asked.value <= at <= f.asked.value + CONFIRM_WINDOW + cfg.late
    case Some(ALREADY_INSTALLED) => f.asked.Some? && f.asked.value <= at <= f.asked.value + CONFIRM_WINDOW + cfg.late
    case Some(REJECT_BOOTLOADER_TOO_OLD) => RewritePermitted(cfg, f)
    case _ => false
  }

  /** The rewrite just succeeded: sent, all six checks passed, and the chip stays in a bootloader reporting 0x2101. */
  ghost predicate RewriteProven(t: seq<Event>) {
    && |t| >= 5
    && t[|t| - 5] == UpdateBootloader(true) && t[|t| - 4].ReadStatus?
    && t[|t| - 3].VerifyBootloader? && t[|t| - 3].report.Some? && AllChecksPassed(t[|t| - 3].report.value)
    && t[|t| - 2] == UpdaterReboot(true)
    && t[|t| - 1] == ReadBootloader(Some(Version(BOOTLOADER_TYPE, BOOTLOADER_2101)))
  }

  /** A bootloader version read in the bootloader entered after `before` identifies the chip well enough to erase it:
      the new bootloader after a proven rewrite, else what was read at boot, else an LR1121. A boot reading of version
      0 is compared, not identified. */
  ghost predicate Identified(before: seq<Event>, number: U16) {
    if RewriteProven(before) then number == BOOTLOADER_2101
    else match Fold(before).boot
      case Some(b) => number == b.number && (number == 0 || IsLr1121(number))
      case None => IsLr1121(number)
  }

  /** Nothing but the switch was touched: the hub has not been set up yet. */
  ghost predicate OnlySwitched(t: seq<Event>) { forall e :: e in t ==> e.Switched? }

  /** The bootloader is entered once at boot, once by a press that may flash, and again after a proven rewrite. */
  ghost predicate MayEnter(cfg: Config, before: seq<Event>) {
    var n, f := |before|, Fold(before);
    || OnlySwitched(before)
    || (f.entered && RewriteProven(before))
    || (!f.entered && f.updates == 0 && n > 0 && before[n - 1].Pressed? && FlashPermitted(cfg, f, before[n - 1].at))
  }

  /** The new bootloader has just been entered after a proven rewrite. */
  ghost predicate InNewBootloader(before: seq<Event>) {
    var n := |before|;
    && n > 0 && before[n - 1] == EnterBootloader(Some(Version(BOOTLOADER_TYPE, BOOTLOADER_2101)))
    && RewriteProven(before[..n - 1])
  }

  /** An erase comes right after entering the bootloader by a press and reading its type and a good enough version
      there; once the bootloader was rewritten, only in the new one. */
  ghost predicate MayErase(before: seq<Event>) {
    var n := |before|;
    && Fold(before).entered && n > 0 && before[n - 1].EnterBootloader? && before[n - 1].read.Some?
    && before[n - 1].read.value.kind == BOOTLOADER_TYPE && Identified(before[..n - 1], before[n - 1].read.value.number)
    && (Fold(before).updates > 0 ==> InNewBootloader(before))
  }

  /** The transceiver image goes onto a bootloader that was found too old only once its rewrite is proven. */
  ghost predicate MayTakeTransceiver(before: seq<Event>) {
    Fold(before).verdict == Some(REJECT_BOOTLOADER_TOO_OLD) || Fold(before).updates > 0 ==> InNewBootloader(before)
  }

  /** The irreversible write comes right after the chip said it runs the loader, once, and only when it is permitted. */
  ghost predicate MayRewrite(cfg: Config, before: seq<Event>) {
    && RewritePermitted(cfg, Fold(before)) && Fold(before).updates == 0 && Fold(before).loaderWritten
    && before != [] && before[|before| - 1] == ReadNormal(Some(Version(LOADER_DEVICE_TYPE, LOADER_2100)))
  }

  /** The rules for one more event, read against everything before it. */
  ghost predicate Legal(cfg: Config, before: seq<Event>, e: Event) {
    var n := |before|;
    && !Fold(before).restarted
    && match e
       case EnterBootloader(_) => MayEnter(cfg, before)
       case EraseFlash(_) => MayErase(before)
       case WriteImage(image, _) =>
         && n > 0 && before[n - 1] == EraseFlash(true) && (image == LOADER ==> RewritePermitted(cfg, Fold(before)))
         && (image == TRANSCEIVER ==> MayTakeTransceiver(before[..n - 1]))
       case Cached(_) => Fold(before).verdict.None?
       case UpdateBootloader(_) => MayRewrite(cfg, before)
       case _ => true
  }

  ghost predicate Sound(cfg: Config, t: seq<Event>) {
    t == [] || (Sound(cfg, t[..|t| - 1]) && Legal(cfg, t[..|t| - 1], t[|t| - 1]))
  }

  lemma Extend(cfg: Config, t: seq<Event>, e: Event)
    requires Sound(cfg, t) && Legal(cfg, t, e)
    ensures Sound(cfg, t + [e])
  {
    assert (t + [e])[..|t|] == t;
  }

  lemma {:induction false} SoundAt(cfg: Config, t: seq<Event>, i: nat)
    requires Sound(cfg, t) && i < |t|
    ensures Legal(cfg, t[..i], t[i])
    decreases |t|
  {
    if i < |t| - 1 {
      SoundAt(cfg, t[..|t| - 1], i);
      assert t[..|t| - 1][..i] == t[..i];
    }
  }

  lemma FoldStep(t: seq<Event>, e: Event)
    ensures var f, g := Fold(t), Fold(t + [e]);
            match e
            case EnterBootloader(read) => g == if f.verdict.None? then f.(boot := read) else f.(entered := true)
            case Cached(v) => g == f.(verdict := Some(v))
            case Switched(allowed) => g == f.(allowed := allowed)
            case AskedToConfirm(at) => g == f.(asked := Some(at))
            case UpdateBootloader(_) => g == f.(updates := f.updates + 1)
            case WriteImage(image, ok) => g == if image == LOADER && ok then f.(loaderWritten := true) else f
            case SafeReboot => g == f.(restarted := true)
            case _ => g == f
  {
    assert (t + [e])[..|t|] == t;
  }

  lemma SoundPrefix(cfg: Config, t: seq<Event>, i: nat)
    requires Sound(cfg, t) && i <= |t|
    ensures Sound(cfg, t[..i])
    decreases |t|
  {
    if i == |t| {
      assert t[..i] == t;
    } else {
      SoundPrefix(cfg, t[..|t| - 1], i);
      assert t[..|t| - 1][..i] == t[..i];
    }
  }

  /** A proven rewrite was counted. */
  lemma RewriteCounts(t: seq<Event>)
    requires RewriteProven(t)
    ensures Fold(t).updates > 0
  {
    UpdatesCount(t, |t| - 5, |t|);
    assert t[..|t|] == t;
  }

  // --- The chip ---

  /** The chip behind its command set; `trace` records the power cycle. */
  class Chip {
    const cfg: Config
    ghost var trace: seq<Event>

    constructor (cfg: Config)
      ensures this.cfg == cfg && trace == []
    {
      this.cfg, trace := cfg, [];
    }

    ghost predicate Good()
      reads this
    {
      Sound(cfg, trace) && !Fold(trace).restarted
    }

    ghost method Log(e: Event)
      requires Good() && Legal(cfg, trace, e)
      modifies this
      ensures trace == old(trace) + [e] && Sound(cfg, trace)
      ensures e != SafeReboot ==> Good()
    {
      Extend(cfg, trace, e);
      FoldStep(trace, e);
      trace := trace + [e];
    }

    method Enter() returns (read: Option<Version>)
      requires Good() && MayEnter(cfg, trace)
      modifies this
      ensures Good() && trace == old(trace) + [EnterBootloader(read)]
    {
      read := *;
      Log(EnterBootloader(read));
    }

    method ReadBootloaderVersion() returns (read: Option<Version>)
      requires Good()
      modifies this
      ensures Good() && trace == old(trace) + [ReadBootloader(read)]
    {
      read := *;
      Log(ReadBootloader(read));
    }

    method ReadNormalVersion() returns (read: Option<Version>)
      requires Good()
      modifies this
      ensures Good() && trace == old(trace) + [ReadNormal(read)]
    {
      read := *;
      Log(ReadNormal(read));
    }

    method Reboot() returns (ok: bool)
      requires Good()
      modifies this
      ensures Good() && trace == old(trace) + [RebootChip(ok)]
    {
      ok := *;
      Log(RebootChip(ok));
    }

    /** Erases and, if that was acknowledged, writes one image. */
    method EraseAndWrite(image: Image) returns (ok: bool, ghost seg: seq<Event>)
      requires Good() && MayErase(trace)
      requires image == LOADER ==> RewritePermitted(cfg, Fold(trace))
      requires image == TRANSCEIVER ==> MayTakeTransceiver(trace)
      modifies this
      ensures Good() && trace == old(trace) + seg
      ensures (seg == [EraseFlash(false)] && !ok) || seg == [EraseFlash(true), WriteImage(image, ok)]
      ensures Fold(trace) == if ok && image == LOADER then Fold(old(trace)).(loaderWritten := true)
        else Fold(old(trace))
    {
      var erased: bool := *;
      Log(EraseFlash(erased));
      FoldStep(old(trace), EraseFlash(erased));
      seg := [EraseFlash(erased)];
      if !erased { return false, seg; }
      ok := *;
      assert trace[..|trace| - 1] == old(trace);
      Log(WriteImage(image, ok));
      FoldStep(old(trace) + [EraseFlash(true)], WriteImage(image, ok));
      seg := [EraseFlash(true), WriteImage(image, ok)];
      assert old(trace) + [EraseFlash(true)] + [WriteImage(image, ok)] == old(trace) + seg;
    }

    method UpdateBootloaderRegion() returns (ok: bool)
      requires Good() && MayRewrite(cfg, trace)
      modifies this
      ensures Good() && trace == old(trace) + [UpdateBootloader(ok)]
    {
      ok := *;
      Log(UpdateBootloader(ok));
    }

    method ReadUpdaterStatus() returns (ok: bool)
      requires Good()
      modifies this
      ensures Good() && trace == old(trace) + [ReadStatus(ok)]
    {
      ok := *;
      Log(ReadStatus(ok));
    }

    method Verify() returns (report: Option<Report>)
      requires Good()
      modifies this
      ensures Good() && trace == old(trace) + [VerifyBootloader(report)]
    {
      report := *;
      Log(VerifyBootloader(report));
    }

    method RebootUpdater() returns (ok: bool)
      requires Good()
      modifies this
      ensures Good() && trace == old(trace) + [UpdaterReboot(ok)]
    {
      ok := *;
      Log(UpdaterReboot(ok));
    }

    method Hash() returns (ok: bool)
      requires Good()
      modifies this
      ensures Good() && trace == old(trace) + [ReadHash(ok)]
    {
      ok := *;
      Log(ReadHash(ok));
    }

    method SafeRestart()
      requires Good()
      modifies this
      ensures Sound(cfg, trace) && trace == old(trace) + [SafeReboot]
    {
      Log(SafeReboot);
    }
  }

  /** An answer to entering the bootloader that lets a flow go on. */
  ghost predicate Sane(known: bool, version: U16, read: Option<Version>) {
    && read.Some? && read.value.kind == 0xDF
    && if known then read.value.number == version else read.value.number == 0x2100 || read.value.number == 0x2101
  }

  /** How both flows end: the flash erased and, that acknowledged, the transceiver image written; if that worked, its
      hash read, the chip rebooted and, that acknowledged, the new version read back; and the hub restarted. */
  ghost predicate FlashEnd(seg: seq<Event>) {
    || seg == [EraseFlash(false), SafeReboot]
    || seg == [EraseFlash(true), WriteImage(TRANSCEIVER, false), SafeReboot]
    || (&& |seg| >= 5 && seg[0] == EraseFlash(true) && seg[1] == WriteImage(TRANSCEIVER, true)
        && seg[2].ReadHash? && seg[3].RebootChip?
        && if seg[3].ok then |seg| == 6 && seg[4].ReadNormal? && seg[5] == SafeReboot else seg[4..] == [SafeReboot])
  }

  /** The `k`th operation of a rewrite, once the bootloader was entered. */
  ghost predicate Operation(k: nat, e: Event) {
    match k
    case 1 => e.EraseFlash?
    case 2 => e.WriteImage? && e.image == LOADER
    case 3 => e.RebootChip?
    case 4 => e.ReadNormal?
    case 5 => e.UpdateBootloader?
    case 6 => e.ReadStatus?
    case 7 => e.VerifyBootloader?
    case 8 => e.UpdaterReboot?
    case 9 => e.ReadBootloader?
    case 10 => e.EnterBootloader?
    case _ => false
  }

  /** And the answers to it that let the rewrite go on. */
  ghost predicate GoesOn(k: nat, e: Event)
    requires Operation(k, e)
  {
    match k
    case 1 => e.ok
    case 2 => e.ok
    case 3 => e.ok
    case 4 => e.read == Some(Version(0xDE, 0x2100))
    case 5 => e.ok
    case 6 => true
    case 7 => e.report == Some(Report(true, true, true, true, true, true))
    case 8 => e.ok
    case 9 => e.read == Some(Version(0xDF, 0x2101))
    case _ => e.read == Some(Version(0xDF, 0x2101))
  }

  /** A rewrite from its `k`th operation on: all of them in turn and then the transceiver image, or a restart at once
      after the first answer that must stop it. */
  ghost predicate Stages(k: nat, seg: seq<Event>)
    requires k <= 11
    decreases 11 - k
  {
    if k == 11 then FlashEnd(seg)
    else && seg != [] && Operation(k, seg[0])
         && if GoesOn(k, seg[0]) then Stages(k + 1, seg[1..]) else seg[1..] == [SafeReboot]
  }

  /** What a press that gets as far as the chip does after `t`, under the cached verdict: exactly the ordinary flash or
      the rewrite, or nothing but the way out of a bootloader whose answer is not sane. */
  ghost predicate Acted(verdict: FlashDecision, known: bool, version: U16, t: seq<Event>, t': seq<Event>) {
    && t <= t' && |t| < |t'| && t'[|t|].EnterBootloader?
    && var rest := t'[|t| + 1..];
    if Sane(known, version, t'[|t|].read)
    then if verdict == REJECT_BOOTLOADER_TOO_OLD then Stages(1, rest) else FlashEnd(rest)
    else if t'[|t|].read.Some? then |rest| == 2 && rest[0].RebootChip? && rest[1] == SafeReboot
    else rest == [SafeReboot]
  }

  lemma InOrder(a: seq<Event>, b: seq<Event>, c: seq<Event>)
    ensures a + b + c == a + (b + c)
  {
  }

  /** Operations from the `k`th on that were answered well. */
  ghost predicate Went(k: nat, seg: seq<Event>) {
    && k + |seg| <= 11
    && forall i :: 0 <= i < |seg| ==> Operation(k + i, seg[i]) && GoesOn(k + i, seg[i])
  }

  lemma {:induction false} WentOn(k: nat, seg: seq<Event>, rest: seq<Event>)
    requires Went(k, seg) && Stages(k + |seg|, rest)
    ensures Stages(k, seg + rest)
    decreases |seg|
  {
    if seg == [] {
      assert seg + rest == rest;
    } else {
      assert (seg + rest)[1..] == seg[1..] + rest;
      WentOn(k + 1, seg[1..], rest);
    }
  }

  lemma WentFurther(k: nat, a: seq<Event>, b: seq<Event>)
    requires Went(k, a) && Went(k + |a|, b)
    ensures Went(k, a + b)
  {
    forall i | 0 <= i < |a + b| ensures Operation(k + i, (a + b)[i]) && GoesOn(k + i, (a + b)[i]) {
      if i >= |a| { assert (a + b)[i] == b[i - |a|] && k + i == k + |a| + (i - |a|); }
    }
  }

  /** An answer that must stop the rewrite, and the restart. */
  lemma Stopped(k: nat, seg: seq<Event>, e: Event)
    requires Went(k, seg) && k + |seg| < 11 && Operation(k + |seg|, e) && !GoesOn(k + |seg|, e)
    ensures Stages(k, seg + [e, SafeReboot])
  {
    assert [e, SafeReboot][1..] == [SafeReboot];
    WentOn(k, seg, [e, SafeReboot]);
  }

  function Rewritten(f: Facts): Facts { f.(updates := f.updates + 1) }

  class Hub {
    const chip: Chip
    const cfg: Config
    var updaterPresent: bool
    var known: bool
    var chipType: Byte
    var version: U16
    var verdictKnown: bool
    var verdict: FlashDecision
    var installedFw: U16
    var deviceType: Byte
    var armed: bool
    var confirmDue: nat
    var allowed: bool
    var now: nat

    /** A hub that has not restarted: the chip's trace agrees with what the hub remembers of it. */
    ghost predicate Ready()
      reads this, chip
    {
      && cfg == chip.cfg && chip.Good()
      && var f := Fold(chip.trace);
      && (updaterPresent ==> f.boot == if known then Some(Version(chipType, version)) else None)
      && (!known ==> chipType == 0 && version == 0)
      && f.allowed == allowed && f.updates == 0 && !f.entered
      && f.verdict == (if verdictKnown then Some(verdict) else None)
      && (armed ==>
            && f.asked.Some? && f.asked.value <= now <= f.asked.value + CONFIRM_WINDOW + cfg.late
            && confirmDue == f.asked.value + CONFIRM_WINDOW)
    }

    /** The cached verdict is the decision on what was read. Later steps of a power cycle change neither. */
    ghost predicate Judged()
      reads this`verdict, this`deviceType, this`chipType, this`version, this`installedFw
    {
      verdict == Decide(deviceType, chipType, version, installedFw, cfg.targetFw, false)
    }

    ghost predicate Restarted()
      reads chip
    {
      Sound(chip.cfg, chip.trace) && chip.trace != [] && chip.trace[|chip.trace| - 1] == SafeReboot
    }

    constructor (chip: Chip)
      requires chip.trace == []
      ensures this.chip == chip && Ready() && !verdictKnown && !known && !armed && !allowed
      ensures installedFw == 0 && deviceType == 0 && now == 0
    {
      this.chip, cfg := chip, chip.cfg;
      updaterPresent, known, chipType, version := *, false, 0, 0;
      verdictKnown, verdict, installedFw, deviceType := false, NEEDS_CONFIRMATION, 0, 0;
      armed, confirmDue, allowed, now := false, 0, false, 0;
    }

    /** What the boot-time excursion did: one bootloader read, and if it was answered, the way out again. */
    ghost predicate Excursion(boot: seq<Event>)
      reads this`updaterPresent, this`known, this`chipType, this`version
    {
      if !updaterPresent then boot == []
      else if known then
        |boot| == 2 && boot[0] == EnterBootloader(Some(Version(chipType, version))) && boot[1].RebootChip?
      else boot == [EnterBootloader(None)]
    }

    /** setup(): the bootloader is read once and left before the radio is configured, then the verdict is cached. */
    method Setup() returns (initialized: bool, ghost boot: seq<Event>, ghost read: Option<Version>)
      requires Ready() && OnlySwitched(chip.trace) && !verdictKnown && !known && !armed
      modifies this`known, this`chipType, this`version, this`verdictKnown, this`verdict,
               this`installedFw, this`deviceType, chip
      ensures Ready() && Judged() && verdictKnown
      ensures Excursion(boot) && chip.trace == old(chip.trace) + boot + [InitRadio(initialized)]
        + (if initialized && updaterPresent then [ReadNormal(read)] else []) + [Cached(verdict)]
      ensures var v := if initialized && updaterPresent && read.Some? then read.value else Version(0, 0);
              deviceType == v.kind && installedFw == v.number
    {
      boot := [];
      if updaterPresent {
        boot := ReadBootloaderAtBoot();
      }
      initialized := InitializeRadio();
      read := CacheVerdict(initialized);
    }

    /** The boot-time excursion into the bootloader and back. */
    method ReadBootloaderAtBoot() returns (ghost boot: seq<Event>)
      requires Ready() && updaterPresent && OnlySwitched(chip.trace) && !known && !verdictKnown && !armed
      modifies this`known, this`chipType, this`version, chip
      ensures Ready() && Excursion(boot) && chip.trace == old(chip.trace) + boot
    {
      var read := chip.Enter();
      FoldStep(old(chip.trace), EnterBootloader(read));
      boot := [EnterBootloader(read)];
      if read.Some? {
        chipType, version, known := read.value.kind, read.value.number, true;
        ghost var t := chip.trace;
        var ok := chip.Reboot();
        FoldStep(t, RebootChip(ok));
        boot := [EnterBootloader(read), RebootChip(ok)];
        assert old(chip.trace) + [EnterBootloader(read)] + [RebootChip(ok)] == old(chip.trace) + boot;
      }
    }

    /** radio_->init(), which may fail. */
    method InitializeRadio() returns (ok: bool)
      requires Ready()
      modifies chip
      ensures Ready() && chip.trace == old(chip.trace) + [InitRadio(ok)]
    {
      ok := *;
      ghost var t := chip.trace;
      chip.Log(InitRadio(ok));
      FoldStep(t, InitRadio(ok));
    }

    /** The normal-mode version, unknown if there is nothing to read it with or the read times out, decides the verdict
        together with what was read at boot. */
    method CacheVerdict(radioPresent: bool) returns (ghost read: Option<Version>)
      requires Ready() && !verdictKnown && !armed
      modifies this`verdictKnown, this`verdict, this`installedFw, this`deviceType, chip
      ensures Ready() && Judged() && verdictKnown
      ensures chip.trace == old(chip.trace)
        + (if radioPresent && updaterPresent then [ReadNormal(read)] else []) + [Cached(verdict)]
      ensures var v := if radioPresent && updaterPresent && read.Some? then read.value else Version(0, 0);
              deviceType == v.kind && installedFw == v.number
    {
      read := None;
      deviceType, installedFw := 0, 0;
      if radioPresent && updaterPresent { read := ReadInstalled(); }
      DecideVerdict();
    }

    /** Decides on what was read, once. */
    method DecideVerdict()
      requires Ready() && !verdictKnown && !armed
      modifies this`verdictKnown, this`verdict, chip
      ensures Ready() && Judged() && verdictKnown && chip.trace == old(chip.trace) + [Cached(verdict)]
    {
      verdict := Decide(deviceType, chipType, version, installedFw, cfg.targetFw, false);
      verdictKnown := true;
      ghost var t := chip.trace;
      chip.Log(Cached(verdict));
      FoldStep(t, Cached(verdict));
    }

    /** The normal-mode version read; a read that times out leaves both fields unknown. */
    method ReadInstalled() returns (ghost answer: Option<Version>)
      requires Ready() && !verdictKnown && deviceType == 0 && installedFw == 0
      modifies this`installedFw, this`deviceType, chip
      ensures Ready() && chip.trace == old(chip.trace) + [ReadNormal(answer)]
      ensures var v := if answer.Some? then answer.value else Version(0, 0);
              deviceType == v.kind && installedFw == v.number
    {
      ghost var t := chip.trace;
      var read := chip.ReadNormalVersion();
      FoldStep(t, ReadNormal(read));
      answer := read;
      if read.Some? { deviceType, installedFw := read.value.kind, read.value.number; }
    }

    /** The arming switch: a permission, nothing more. */
    method SetRewriteAllowed(on: bool)
      requires Ready()
      modifies this`allowed, chip
      ensures Ready() && allowed == on && chip.trace == old(chip.trace) + [Switched(on)]
    {
      allowed := on;
      ghost var t := chip.trace;
      chip.Log(Switched(on));
      FoldStep(t, Switched(on));
    }

    /** Time passes; the scheduler lets the confirmation timeout stay pending at most `late` ms past its due time. */
    method Wait(ms: nat)
      requires Ready() && (armed ==> now + ms <= confirmDue + cfg.late)
      modifies this`now
      ensures Ready() && now == old(now) + ms
    {
      now := now + ms;
    }

    /** The confirmation timeout fires. */
    method ConfirmExpires()
      requires Ready()
      modifies this`armed
      ensures Ready() && !armed
    {
      armed := false;
    }

    /** The ordinary flash. Whatever the chip answers, it ends in a restart; and it erases and writes exactly if the
        bootloader answered and passed the sanity check. */
    method RunFlashSequence(ghost at: nat)
      requires Ready() && Judged() && updaterPresent && verdictKnown && !Rejects(verdict)
      requires chip.trace != [] && chip.trace[|chip.trace| - 1] == Pressed(at)
      requires FlashPermitted(cfg, Fold(chip.trace), at)
      modifies this`known, this`chipType, this`version, chip
      ensures Restarted() && Acted(PROCEED, old(known), old(version), old(chip.trace), chip.trace)
      ensures var read := chip.trace[|old(chip.trace)|].read;
              if !old(known) && Sane(false, 0, read)
              then known && chipType == read.value.kind && version == read.value.number
              else known == old(known) && chipType == old(chipType) && version == old(version)
    {
      ghost var t := chip.trace;
      var read := chip.Enter();
      assert chip.trace[..|t|] == t;
      if read.None? || CheckSanity(known, version, read.value.kind, read.value.number) != SANE {
        LeaveBootloader(t, read);
        return;
      }
      SaneIsIdentified(t, read.value);
      if !known { chipType, version, known := read.value.kind, read.value.number, true; }
      ghost var end := FlashTransceiver();
      InTurn(t, EnterBootloader(read), end);
    }

    lemma InTurn(t: seq<Event>, e: Event, end: seq<Event>)
      ensures var t' := t + [e] + end; t <= t' && |t| < |t'| && t'[|t|] == e && t'[|t| + 1..] == end
    {
    }

    /** The way out of a bootloader whose answer is not sane: a chip that did answer is told to reboot. */
    method LeaveBootloader(ghost t: seq<Event>, read: Option<Version>)
      requires chip.Good() && chip.trace == t + [EnterBootloader(read)] && !Sane(known, version, read)
      modifies chip
      ensures Restarted() && forall v :: Acted(v, known, version, t, chip.trace)
      ensures |t| < |chip.trace| && chip.trace[|t|] == EnterBootloader(read)
    {
      ghost var rest := [SafeReboot];
      if read.Some? {
        var rebooted := chip.Reboot();
        rest := [RebootChip(rebooted), SafeReboot];
      }
      chip.SafeRestart();
      assert chip.trace == t + [EnterBootloader(read)] + rest;
      InTurn(t, EnterBootloader(read), rest);
    }

    /** Erase, write, look at the result, restart. */
    method FlashTransceiver() returns (ghost seg: seq<Event>)
      requires chip.Good() && MayErase(chip.trace) && MayTakeTransceiver(chip.trace)
      modifies chip
      ensures Restarted() && chip.trace == old(chip.trace) + seg && FlashEnd(seg)
    {
      ghost var t := chip.trace;
      var ok;
      ok, seg := chip.EraseAndWrite(TRANSCEIVER);
      ghost var looks := [];
      if ok { looks := FinishFlash(); }
      chip.SafeRestart();
      InOrder(t, seg, looks);
      InOrder(t, seg + looks, [SafeReboot]);
      seg := seg + looks + [SafeReboot];
    }

    lemma SaneIsIdentified(t: seq<Event>, read: Version)
      requires t != [] && t[|t| - 1].Pressed?
      requires Fold(t).boot == if known then Some(Version(chipType, version)) else None
      requires !known ==> chipType == 0 && version == 0
      requires !Rejects(Decide(deviceType, chipType, version, installedFw, cfg.targetFw, false))
               || Decide(deviceType, chipType, version, installedFw, cfg.targetFw, false) == REJECT_BOOTLOADER_TOO_OLD
      requires CheckSanity(known, version, read.kind, read.number) == SANE
      ensures read.kind == BOOTLOADER_TYPE && Identified(t, read.number)
    {
      Table(cfg.targetFw, version);
    }

    /** The fingerprint, the reboot into the new image and the version read-back: none of them decides anything. */
    method FinishFlash() returns (ghost seg: seq<Event>)
      requires chip.Good()
      modifies chip
      ensures chip.Good() && chip.trace == old(chip.trace) + seg
      ensures |seg| >= 2 && seg[0].ReadHash? && seg[1].RebootChip?
      ensures if seg[1].ok then |seg| == 3 && seg[2].ReadNormal? else |seg| == 2
    {
      var hashed := chip.Hash();
      var ok := chip.Reboot();
      seg := [ReadHash(hashed), RebootChip(ok)];
      if ok {
        var read := chip.ReadNormalVersion();
        seg := [ReadHash(hashed), RebootChip(ok), ReadNormal(read)];
      }
    }

    /** Stage 1: writes the loader and makes sure it is what runs now. */
    method WriteLoader(ghost at: nat) returns (ok: bool, ghost read: Option<Version>, ghost seg: seq<Event>)
      requires Ready() && Judged() && updaterPresent && verdictKnown && verdict == REJECT_BOOTLOADER_TOO_OLD
      requires chip.trace != [] && chip.trace[|chip.trace| - 1] == Pressed(at)
      requires RewritePermitted(cfg, Fold(chip.trace))
      modifies chip
      ensures !ok ==> Restarted() && Acted(REJECT_BOOTLOADER_TOO_OLD, known, version, old(chip.trace), chip.trace)
      ensures ok ==>
        && chip.trace == old(chip.trace) + [EnterBootloader(read)] + seg
        && Sane(known, version, read) && Went(1, seg) && |seg| == 4
        && chip.Good() && Fold(chip.trace) == Fold(old(chip.trace)).(entered := true, loaderWritten := true)
    {
      ghost var t := chip.trace;
      var answer := chip.Enter();
      read, seg := answer, [];
      FoldStep(t, EnterBootloader(read));
      assert chip.trace[..|t|] == t;
      ok := answer.Some? && CheckSanity(known, version, answer.value.kind, answer.value.number) == SANE;
      if !ok {
        LeaveBootloader(t, answer);
        return;
      }
      SaneIsIdentified(t, answer.value);
      ok, seg := LoadLoader();
      InTurn(t, EnterBootloader(read), seg);
    }

    /** Erases, writes the loader and starts it. */
    method LoadLoader() returns (ok: bool, ghost seg: seq<Event>)
      requires chip.Good() && MayErase(chip.trace) && RewritePermitted(chip.cfg, Fold(chip.trace))
      modifies chip
      ensures chip.trace == old(chip.trace) + seg
      ensures !ok ==> Restarted() && Stages(1, seg)
      ensures ok ==>
        && Went(1, seg) && |seg| == 4
        && chip.Good() && Fold(chip.trace) == Fold(old(chip.trace)).(loaderWritten := true)
    {
      ghost var t := chip.trace;
      ok, seg := chip.EraseAndWrite(LOADER);
      ghost var rest := [SafeReboot];
      if ok {
        ok, rest := StartLoader();
        Loaded(seg, rest);
      } else {
        chip.SafeRestart();
        NotLoaded(seg);
      }
      InOrder(t, seg, rest);
      seg := seg + rest;
    }

    lemma NotLoaded(seg: seq<Event>)
      requires seg == [EraseFlash(false)] || seg == [EraseFlash(true), WriteImage(LOADER, false)]
      ensures Stages(1, seg + [SafeReboot])
    {
      var n := |seg| - 1;
      Stopped(1, seg[..n], seg[n]);
      assert seg[..n] + [seg[n], SafeReboot] == seg + [SafeReboot];
    }

    lemma Loaded(seg: seq<Event>, rest: seq<Event>)
      requires seg == [EraseFlash(true), WriteImage(LOADER, true)]
      ensures Went(3, rest) ==> Went(1, seg + rest)
      ensures Stages(3, rest) ==> Stages(1, seg + rest)
    {
      if Went(3, rest) { WentFurther(1, seg, rest); }
      if Stages(3, rest) { WentOn(1, seg, rest); }
    }

    /** The last checkpoint before the irreversible write: the chip must positively say it runs the loader. */
    method StartLoader() returns (ok: bool, ghost seg: seq<Event>)
      requires chip.Good()
      modifies chip
      ensures chip.trace == old(chip.trace) + seg
      ensures !ok ==> Restarted() && Stages(3, seg)
      ensures ok ==> Went(3, seg) && |seg| == 2 && chip.Good() && Fold(chip.trace) == Fold(old(chip.trace))
    {
      ghost var t := chip.trace;
      ok := chip.Reboot();
      seg := [RebootChip(ok)];
      FoldStep(t, RebootChip(ok));
      if !ok {
        chip.SafeRestart();
        Stopped(3, [], RebootChip(false));
        seg := [RebootChip(false), SafeReboot];
        return;
      }
      var running := chip.ReadNormalVersion();
      FoldStep(t + seg, ReadNormal(running));
      seg := [RebootChip(true), ReadNormal(running)];
      ok := running.Some? && running.value.kind == LOADER_DEVICE_TYPE && running.value.number == LOADER_2100;
      if !ok {
        chip.SafeRestart();
        Stopped(3, [RebootChip(true)], ReadNormal(running));
        seg := [RebootChip(true)] + [ReadNormal(running), SafeReboot];
      }
    }

    /** Stage 2: the one irreversible write, its verification, and the proof that the new bootloader is in charge. */
    method RewriteBootloader() returns (ok: bool, ghost seg: seq<Event>)
      requires chip.Good() && MayRewrite(chip.cfg, chip.trace)
      modifies this`chipType, this`version, chip
      ensures chip.trace == old(chip.trace) + seg
      ensures !ok ==> Restarted() && Stages(5, seg)
      ensures ok ==>
        && Went(5, seg) && |seg| == 5 && chipType == 0xDF && version == 0x2101
        && chip.Good() && RewriteProven(chip.trace) && Fold(chip.trace) == Rewritten(Fold(old(chip.trace)))
    {
      ghost var t := chip.trace;
      ok, seg := UpdateAndVerify();
      if !ok { return; }
      ghost var done, rest := seg, [];
      ok, rest := ShowNewBootloader();
      InOrder(t, done, rest);
      seg := done + rest;
      if ok {
        WentFurther(5, done, rest);
        ProvenRewrite(t, done);
      } else {
        WentOn(5, done, rest);
      }
    }

    /** The updater restarts, and the chip has to stay in its new bootloader. */
    method ShowNewBootloader() returns (ok: bool, ghost seg: seq<Event>)
      requires chip.Good()
      modifies this`chipType, this`version, chip
      ensures chip.trace == old(chip.trace) + seg
      ensures !ok ==> Restarted() && Stages(8, seg)
      ensures ok ==> chip.Good() && seg == [UpdaterReboot(true), ReadBootloader(Some(Version(0xDF, 0x2101)))]
      ensures ok ==> chipType == 0xDF && version == 0x2101
    {
      ok := chip.RebootUpdater();
      if !ok {
        chip.SafeRestart();
        Stopped(8, [], UpdaterReboot(false));
        seg := [UpdaterReboot(false), SafeReboot];
        return;
      }
      var read := chip.ReadBootloaderVersion();
      seg := [UpdaterReboot(true), ReadBootloader(read)];
      ok := read == Some(Version(BOOTLOADER_TYPE, BOOTLOADER_2101));
      if !ok {
        chip.SafeRestart();
        Stopped(8, [UpdaterReboot(true)], ReadBootloader(read));
        seg := [UpdaterReboot(true)] + [ReadBootloader(read), SafeReboot];
        return;
      }
      chipType, version := read.value.kind, read.value.number;
    }

    lemma ProvenRewrite(t: seq<Event>, seg: seq<Event>)
      requires |seg| == 3 && seg[0] == UpdateBootloader(true) && seg[1].ReadStatus?
      requires seg[2].VerifyBootloader? && seg[2].report.Some? && AllChecksPassed(seg[2].report.value)
      ensures var read := ReadBootloader(Some(Version(BOOTLOADER_TYPE, BOOTLOADER_2101)));
              var t' := t + (seg + [UpdaterReboot(true), read]);
              RewriteProven(t') && Fold(t') == Fold(t + seg)
    {
      var read := ReadBootloader(Some(Version(BOOTLOADER_TYPE, BOOTLOADER_2101)));
      FoldStep(t + seg, UpdaterReboot(true));
      FoldStep(t + seg + [UpdaterReboot(true)], read);
      assert t + seg + [UpdaterReboot(true)] + [read] == t + (seg + [UpdaterReboot(true), read]);
    }

    /** The write and the gate behind it: all six bits of the chip's own report. */
    method UpdateAndVerify() returns (ok: bool, ghost seg: seq<Event>)
      requires chip.Good() && MayRewrite(chip.cfg, chip.trace)
      modifies chip
      ensures chip.trace == old(chip.trace) + seg
      ensures !ok ==> Restarted() && Stages(5, seg)
      ensures ok ==>
        && Went(5, seg) && |seg| == 3 && seg[0] == UpdateBootloader(true) && seg[1].ReadStatus?
        && seg[2].VerifyBootloader? && seg[2].report.Some? && AllChecksPassed(seg[2].report.value)
        && chip.Good() && Fold(chip.trace) == Rewritten(Fold(old(chip.trace)))
    {
      ghost var t := chip.trace;
      ok := chip.UpdateBootloaderRegion();
      if !ok {
        chip.SafeRestart();
        Stopped(5, [], UpdateBootloader(false));
        seg := [UpdateBootloader(false), SafeReboot];
        return;
      }
      var status := chip.ReadUpdaterStatus();
      var report := chip.Verify();
      seg := [UpdateBootloader(true), ReadStatus(status), VerifyBootloader(report)];
      RewriteFold(t, status, report);
      ok := report.Some? && AllChecksPassed(report.value);
      if !ok {
        chip.SafeRestart();
        Stopped(5, [UpdateBootloader(true), ReadStatus(status)], VerifyBootloader(report));
        seg := [UpdateBootloader(true), ReadStatus(status)] + [VerifyBootloader(report), SafeReboot];
      }
    }

    lemma RewriteFold(t: seq<Event>, status: bool, report: Option<Report>)
      ensures var t' := t + [UpdateBootloader(true)] + [ReadStatus(status)] + [VerifyBootloader(report)];
              && t' == t + [UpdateBootloader(true), ReadStatus(status), VerifyBootloader(report)]
              && Fold(t') == Rewritten(Fold(t))
    {
      FoldStep(t, UpdateBootloader(true));
      FoldStep(t + [UpdateBootloader(true)], ReadStatus(status));
      FoldStep(t + [UpdateBootloader(true)] + [ReadStatus(status)], VerifyBootloader(report));
    }

    /** Stage 3: re-enters the bootloader explicitly and writes the transceiver image. */
    method WriteTransceiver() returns (ghost seg: seq<Event>)
      requires chip.Good() && RewriteProven(chip.trace) && Fold(chip.trace).entered
      modifies this`chipType, this`version, chip
      ensures Restarted() && chip.trace == old(chip.trace) + seg && Stages(10, seg)
      ensures seg[0] == EnterBootloader(Some(Version(0xDF, 0x2101))) ==> chipType == 0xDF && version == 0x2101
    {
      ghost var t := chip.trace;
      RewriteCounts(t);
      var read := chip.Enter();
      FoldStep(t, EnterBootloader(read));
      assert chip.trace[..|t|] == t;
      if read != Some(Version(BOOTLOADER_TYPE, BOOTLOADER_2101)) {
        chip.SafeRestart();
        Stopped(10, [], EnterBootloader(read));
        seg := [EnterBootloader(read), SafeReboot];
        return;
      }
      chipType, version := read.value.kind, read.value.number;
      ghost var end := FlashTransceiver();
      Reentered(EnterBootloader(read), end);
      InOrder(t, [EnterBootloader(read)], end);
      seg := [EnterBootloader(read)] + end;
    }

    lemma Reentered(e: Event, end: seq<Event>)
      requires e == EnterBootloader(Some(Version(0xDF, 0x2101))) && FlashEnd(end)
      ensures Stages(10, [e] + end)
    {
      WentOn(10, [e], end);
    }

    /** The three-stage rewrite. It ends in a restart whatever the chip answers: after all its operations in turn, or at
        once after the first answer that must stop it. */
    method RunBootloaderUpgradeSequence(ghost at: nat)
      requires Ready() && Judged() && updaterPresent && verdictKnown && verdict == REJECT_BOOTLOADER_TOO_OLD
      requires chip.trace != [] && chip.trace[|chip.trace| - 1] == Pressed(at)
      requires RewritePermitted(cfg, Fold(chip.trace))
      modifies this, chip
      ensures Restarted()
      ensures Acted(REJECT_BOOTLOADER_TOO_OLD, old(known), old(version), old(chip.trace), chip.trace)
    {
      ghost var t := chip.trace;
      var ok;
      ghost var read, loaded;
      ok, read, loaded := WriteLoader(at);
      if !ok { return; }
      LastOf(t + [EnterBootloader(read)], loaded);
      ghost var rest := FinishRewrite();
      WentThrough(t, read, loaded, rest, old(known), old(version));
    }

    lemma WentThrough(t: seq<Event>, read: Option<Version>, loaded: seq<Event>, rest: seq<Event>, known: bool,
                      version: U16)
      requires Sane(known, version, read) && Went(1, loaded) && |loaded| == 4 && Stages(5, rest)
      ensures Acted(REJECT_BOOTLOADER_TOO_OLD, known, version, t, t + [EnterBootloader(read)] + loaded + rest)
    {
      WentOn(1, loaded, rest);
      assert t + [EnterBootloader(read)] + loaded + rest == t + [EnterBootloader(read)] + (loaded + rest);
      InTurn(t, EnterBootloader(read), loaded + rest);
    }

    /** The loader has just said that it runs. */
    lemma LastOf(t: seq<Event>, seg: seq<Event>)
      requires Went(1, seg) && |seg| == 4
      ensures (t + seg)[|t + seg| - 1] == ReadNormal(Some(Version(LOADER_DEVICE_TYPE, LOADER_2100)))
    {
      assert Operation(1 + 3, seg[3]) && GoesOn(1 + 3, seg[3]);
    }

    /** Stages 2 and 3. */
    method FinishRewrite() returns (ghost seg: seq<Event>)
      requires chip.Good() && MayRewrite(chip.cfg, chip.trace) && Fold(chip.trace).entered
      modifies this`chipType, this`version, chip
      ensures Restarted() && chip.trace == old(chip.trace) + seg && Stages(5, seg)
    {
      ghost var t := chip.trace;
      var ok;
      ok, seg := RewriteBootloader();
      if ok {
        ghost var done, rest := seg, [];
        rest := WriteTransceiver();
        WentOn(5, done, rest);
        InOrder(t, done, rest);
        seg := done + rest;
      }
    }

    ghost predicate PressFlashes(busy: bool)
      reads this
    {
      && !busy && updaterPresent && verdictKnown
      && match verdict
         case PROCEED => true
         case NEEDS_CONFIRMATION => armed
         case ALREADY_INSTALLED => armed
         case REJECT_BOOTLOADER_TOO_OLD =>
           allowed && BootloaderUpgradePath(cfg.blockPresent, known, version, cfg.loaderFw, cfg.targetFw) == AVAILABLE
         case REJECT_WRONG_CHIP => false
    }

    /** A press under a bootloader that is too old: the one path that rewrite permission opens. */
    method RewriteIfPermitted(ghost at: nat)
      requires Ready() && Judged() && updaterPresent && verdictKnown && verdict == REJECT_BOOTLOADER_TOO_OLD
      requires chip.trace != [] && chip.trace[|chip.trace| - 1] == Pressed(at)
      modifies this, chip
      ensures if old(allowed && BootloaderUpgradePath(cfg.blockPresent, known, version, cfg.loaderFw, cfg.targetFw)
                    == AVAILABLE)
        then Restarted() && Acted(REJECT_BOOTLOADER_TOO_OLD, old(known), old(version), old(chip.trace), chip.trace)
        else unchanged(this) && unchanged(chip)
    {
      if !cfg.blockPresent { return; }
      RewriteAvailableIff(true, known, version, cfg.loaderFw, cfg.targetFw);
      Table(cfg.targetFw, version);
      if BootloaderUpgradePath(true, known, version, cfg.loaderFw, cfg.targetFw) == AVAILABLE {
        if !allowed { return; }
        RunBootloaderUpgradeSequence(at);
      }
    }

    /** What was read, decided and permitted stays what it was. */
    twostate predicate Remembers()
      reads this
    {
      && updaterPresent == old(updaterPresent) && known == old(known) && chipType == old(chipType)
      && version == old(version) && verdictKnown == old(verdictKnown) && verdict == old(verdict)
      && installedFw == old(installedFw) && deviceType == old(deviceType) && allowed == old(allowed) && now == old(now)
    }

    /** The button. Either the bootloader was entered and the hub has restarted; or, the first time the verdict wants
        to be confirmed, exactly the question was asked and the window armed; or nothing at all happened. */
    method TriggerFirmwareUpdate(busy: bool)
      requires Ready() && (verdictKnown ==> Judged())
      modifies this, chip
      ensures Sound(chip.cfg, chip.trace) && old(chip.trace) + [Pressed(old(now))] <= chip.trace
      ensures
        || (Ready() && (verdictKnown ==> Judged()) && Remembers())
        || (Restarted()
            && Acted(old(verdict), old(known), old(version), old(chip.trace) + [Pressed(old(now))], chip.trace))
      ensures Restarted() <==> (
        && !busy && old(updaterPresent && verdictKnown)
        && (|| old(verdict) == PROCEED
            || (old(verdict) == NEEDS_CONFIRMATION && old(armed)) || (old(verdict) == ALREADY_INSTALLED && old(armed))
            || (old(verdict) == REJECT_BOOTLOADER_TOO_OLD && old(allowed) && cfg.blockPresent && old(known)
                && old(version) == 0x2100 && cfg.loaderFw == 0x2100 && cfg.targetFw == 0x0104)))
      ensures Restarted() && old(verdict) != REJECT_BOOTLOADER_TOO_OLD ==> !armed
      ensures !Restarted() ==>
        if !busy && old(updaterPresent && verdictKnown && !armed)
           && (old(verdict) == NEEDS_CONFIRMATION || old(verdict) == ALREADY_INSTALLED)
        then chip.trace == old(chip.trace) + [Pressed(now), AskedToConfirm(now)] && armed && confirmDue == now + 60000
        else chip.trace == old(chip.trace) + [Pressed(now)] && armed == old(armed) && confirmDue == old(confirmDue)
    {
      ghost var t := chip.trace;
      chip.Log(Pressed(now));
      FoldStep(t, Pressed(now));
      RewriteAvailableIff(cfg.blockPresent, known, version, cfg.loaderFw, cfg.targetFw);
      assert t + [Pressed(now)] + [AskedToConfirm(now)] == t + [Pressed(now), AskedToConfirm(now)];
      if busy || !updaterPresent || !verdictKnown || verdict == REJECT_WRONG_CHIP { return; }
      Answer();
    }

    /** What the verdict makes of a press. */
    method Answer()
      requires Ready() && Judged() && updaterPresent && verdictKnown && verdict != REJECT_WRONG_CHIP
      requires chip.trace != [] && chip.trace[|chip.trace| - 1] == Pressed(now)
      modifies this, chip
      ensures Sound(chip.cfg, chip.trace) && old(chip.trace) <= chip.trace
      ensures
        || (Ready() && Judged() && Remembers())
        || (Restarted() && Acted(old(verdict), old(known), old(version), old(chip.trace), chip.trace))
      ensures Restarted() <==> old(PressFlashes(false))
      ensures Restarted() && old(verdict) != REJECT_BOOTLOADER_TOO_OLD ==> !armed
      ensures !Restarted() ==>
        if old(verdict == NEEDS_CONFIRMATION || verdict == ALREADY_INSTALLED)
        then chip.trace == old(chip.trace) + [AskedToConfirm(now)] && armed && confirmDue == now + CONFIRM_WINDOW
        else chip.trace == old(chip.trace) && armed == old(armed) && confirmDue == old(confirmDue)
    {
      if verdict == REJECT_BOOTLOADER_TOO_OLD {
        RewriteIfPermitted(now);
        return;
      }
      if verdict != PROCEED && !armed {
        ArmConfirmation();
        return;
      }
      armed := false;
      RunFlashSequence(now);
    }

    /** Two presses: a question, and within the window the answer to it, which flashes. */
    method PressTwice(ms: nat)
      requires Ready() && Judged() && updaterPresent && verdictKnown && !armed && ms <= 60000
      requires verdict == NEEDS_CONFIRMATION || verdict == ALREADY_INSTALLED
      modifies this, chip
      ensures Restarted() && Acted(old(verdict), old(known), old(version), old(chip.trace) +
        [Pressed(old(now)), AskedToConfirm(old(now))] + [Pressed(old(now) + ms)], chip.trace)
    {
      AskAndWait(ms);
      TriggerFirmwareUpdate(false);
    }

    /** The first press and some of the time it gives. */
    method AskAndWait(ms: nat)
      requires Ready() && Judged() && updaterPresent && verdictKnown && !armed && ms <= 60000
      requires verdict == NEEDS_CONFIRMATION || verdict == ALREADY_INSTALLED
      modifies this, chip
      ensures Ready() && Judged() && armed && now == old(now) + ms && confirmDue == old(now) + 60000
      ensures updaterPresent && verdictKnown && verdict == old(verdict)
      ensures known == old(known) && version == old(version)
      ensures chip.trace == old(chip.trace) + [Pressed(old(now)), AskedToConfirm(old(now))]
    {
      TriggerFirmwareUpdate(false);
      Wait(ms);
    }

    /** Once the window has expired the second press asks again. */
    method PressTooLate()
      requires Ready() && Judged() && updaterPresent && verdictKnown && !armed
      requires verdict == NEEDS_CONFIRMATION || verdict == ALREADY_INSTALLED
      modifies this, chip
      ensures Ready() && armed && confirmDue == old(now) + 120000
      ensures chip.trace == old(chip.trace) + [Pressed(old(now)), AskedToConfirm(old(now))] +
        [Pressed(old(now) + 60000), AskedToConfirm(old(now) + 60000)]
    {
      AskAndWait(60000);
      ConfirmExpires();
      TriggerFirmwareUpdate(false);
    }

    method ArmConfirmation()
      requires Ready()
      modifies this`armed, this`confirmDue, chip
      ensures Ready() && armed && confirmDue == now + CONFIRM_WINDOW
      ensures chip.trace == old(chip.trace) + [AskedToConfirm(now)]
    {
      armed, confirmDue := true, now + CONFIRM_WINDOW;
      ghost var t := chip.trace;
      chip.Log(AskedToConfirm(now));
      FoldStep(t, AskedToConfirm(now));
    }
  }

  // --- What soundness says ---

  /** The `k`th event is the bootloader entry of setup. */
  ghost predicate BootEntry(t: seq<Event>, k: nat) { k < |t| && t[k].EnterBootloader? && OnlySwitched(t[..k]) }

  /** The switch was turned on last. */
  ghost predicate SwitchedOn(t: seq<Event>, i: nat)
    requires i <= |t|
  {
    exists k :: 0 <= k < i && t[k] == Switched(true) && forall j :: k < j < i ==> !t[j].Switched?
  }

  /** The switch was on, the build has the feature, bootloader and loader are 0x2100, and the target is the one image
      that needs 0x2101. */
  ghost predicate Permitted(cfg: Config, t: seq<Event>, i: nat)
    requires i <= |t|
  {
    && cfg.blockPresent && cfg.loaderFw == 0x2100 && cfg.targetFw == 0x0104 && SwitchedOn(t, i)
    && exists k :: 0 <= k < i && BootEntry(t, k) && t[k].read == Some(Version(0xDF, 0x2100))
  }

  lemma {:induction false} AllowedShows(t: seq<Event>)
    ensures Fold(t).allowed <==> SwitchedOn(t, |t|)
  {
    if t != [] {
      var n := |t| - 1;
      AllowedShows(t[..n]);
      if !t[n].Switched? {
        if Fold(t).allowed {
          var k :| 0 <= k < n && t[..n][k] == Switched(true) && forall j :: k < j < n ==> !t[..n][j].Switched?;
          assert t[k] == Switched(true) && forall j :: k < j < |t| ==> !t[j].Switched? by {
            forall j | k < j < |t| ensures !t[j].Switched? { if j < n { assert t[..n][j] == t[j]; } }
          }
        }
        if SwitchedOn(t, |t|) {
          var k :| 0 <= k < |t| && t[k] == Switched(true) && forall j :: k < j < |t| ==> !t[j].Switched?;
          assert t[..n][k] == t[k] && forall j :: k < j < n ==> t[..n][j] == t[j];
        }
      }
    }
  }

  lemma PermittedShows(cfg: Config, t: seq<Event>, i: nat)
    requires Sound(cfg, t) && i <= |t| && RewritePermitted(cfg, Fold(t[..i]))
    ensures Permitted(cfg, t, i)
  {
    SoundPrefix(cfg, t, i);
    AllowedShows(t[..i]);
    var k :| 0 <= k < i && t[..i][k] == Switched(true) && forall j :: k < j < i ==> !t[..i][j].Switched?;
    assert t[k] == Switched(true);
    assert forall j :: k < j < i ==> t[..i][j] == t[j];
    var b := BootWasEntered(cfg, t[..i]);
    assert t[..i][..b] == t[..b] && BootEntry(t, b);
    RewriteAvailableIff(true, true, 0x2100, 0x2100, cfg.targetFw);
  }

  /** A verdict is cached once. */
  lemma {:induction false} VerdictShows(cfg: Config, t: seq<Event>, v: FlashDecision)
    requires Sound(cfg, t)
    ensures Fold(t).verdict == Some(v) <==> exists k :: 0 <= k < |t| && t[k] == Cached(v)
    ensures Fold(t).verdict.None? ==> forall k :: 0 <= k < |t| ==> !t[k].Cached?
    decreases |t|
  {
    if t != [] {
      var n := |t| - 1;
      VerdictShows(cfg, t[..n], v);
      assert forall k :: 0 <= k < n ==> t[..n][k] == t[k];
      if Fold(t).verdict == Some(v) && !t[n].Cached? {
        var k :| 0 <= k < n && t[..n][k] == Cached(v);
        assert t[k] == Cached(v);
      }
      if exists k :: 0 <= k < |t| && t[k] == Cached(v) {
        var k :| 0 <= k < |t| && t[k] == Cached(v);
        if k < n { assert t[..n][k] == Cached(v); }
      }
    }
  }

  /** In one power cycle the bootloader is rewritten at most once, and only with the switch on, a build that has the
      feature, a bootloader read at boot as 0x2100, a loader of 0x2100, a target that needs 0x2101, the loader written,
      and the chip having just answered type 0xDE and firmware 0x2100. */
  lemma IrreversibleWriteIsSafe(cfg: Config, t: seq<Event>, i: nat)
    requires Sound(cfg, t) && i < |t| && t[i].UpdateBootloader?
    ensures Permitted(cfg, t, i)
    ensures i > 0 && t[i - 1] == ReadNormal(Some(Version(0xDE, 0x2100)))
    ensures exists k :: 0 <= k < i && t[k] == WriteImage(LOADER, true)
    ensures forall j :: 0 <= j < |t| && t[j].UpdateBootloader? ==> j == i
  {
    SoundAt(cfg, t, i);
    SoundPrefix(cfg, t, i);
    PermittedShows(cfg, t, i);
    LoaderWasWritten(t[..i]);
    forall j | 0 <= j < |t| && t[j].UpdateBootloader? ensures j == i {
      SoundAt(cfg, t, j);
      if i < j { UpdatesCount(t, i, j); }
      if j < i { UpdatesCount(t, j, i); }
    }
  }

  lemma {:induction false} EnteredAfterVerdict(t: seq<Event>)
    ensures Fold(t).entered ==> Fold(t).verdict.Some?
  {
    if t != [] { EnteredAfterVerdict(t[..|t| - 1]); }
  }

  /** What counts as read at boot was read by the entry of setup. */
  lemma {:induction false} BootWasEntered(cfg: Config, t: seq<Event>) returns (k: nat)
    requires Sound(cfg, t) && Fold(t).boot.Some?
    ensures BootEntry(t, k) && t[k].read == Fold(t).boot
    decreases |t|
  {
    var n := |t| - 1;
    if t[n].EnterBootloader? && Fold(t[..n]).verdict.None? {
      k := n;
      EnteredAfterVerdict(t[..n]);
    } else {
      k := BootWasEntered(cfg, t[..n]);
      assert t[..n][..k] == t[..k];
    }
  }

  lemma {:induction false} LoaderWasWritten(t: seq<Event>)
    ensures Fold(t).loaderWritten ==> exists k :: 0 <= k < |t| && t[k] == WriteImage(LOADER, true)
  {
    if t != [] {
      var n := |t| - 1;
      LoaderWasWritten(t[..n]);
      if Fold(t[..n]).loaderWritten {
        var k :| 0 <= k < n && t[..n][k] == WriteImage(LOADER, true);
        assert t[k] == WriteImage(LOADER, true);
      }
    }
  }

  /** Once the bootloader was rewritten the count of every longer trace shows it. */
  lemma {:induction false} UpdatesCount(t: seq<Event>, i: nat, j: nat)
    requires i < j <= |t| && t[i].UpdateBootloader?
    ensures Fold(t[..j]).updates > 0
    decreases j
  {
    var u := t[..j];
    assert u[..j - 1] == t[..j - 1];
    if j - 1 > i { UpdatesCount(t, i, j - 1); }
  }

  /** Every erase of a power cycle whose boot-time read did not return version 0 hits a chip whose bootloader, entered
      immediately before, reported production type 0xDF and a version only an LR1121 has. */
  lemma ErasesOnlyAnLr1121(cfg: Config, t: seq<Event>, i: nat)
    requires Sound(cfg, t) && i < |t| && t[i].EraseFlash?
    requires forall k: nat :: BootEntry(t, k) && t[k].read.Some? ==> t[k].read.value.number != 0
    ensures i > 0 && t[i - 1].EnterBootloader? && t[i - 1].read.Some?
    ensures t[i - 1].read.value.kind == 0xDF
    ensures t[i - 1].read.value.number == 0x2100 || t[i - 1].read.value.number == 0x2101
  {
    SoundAt(cfg, t, i);
    SoundPrefix(cfg, t, i - 1);
    assert t[..i][..i - 1] == t[..i - 1] && t[..i][i - 1] == t[i - 1];
    if Fold(t[..i - 1]).boot.Some? {
      var k := BootWasEntered(cfg, t[..i - 1]);
      assert t[..i - 1][..k] == t[..k] && BootEntry(t, k);
    }
  }

  /** The five events before `i` prove the rewrite. */
  ghost predicate ProofShown(t: seq<Event>, i: nat) {
    && 5 <= i <= |t|
    && t[i - 5] == UpdateBootloader(true) && t[i - 4].ReadStatus?
    && t[i - 3].VerifyBootloader? && t[i - 3].report.Some?
    && t[i - 3].report.value == Report(true, true, true, true, true, true)
    && t[i - 2] == UpdaterReboot(true) && t[i - 1] == ReadBootloader(Some(Version(0xDF, 0x2101)))
  }

  /** In every power cycle: once the rewrite was sent, every erase directly follows an entry that read type 0xDF and
      0x2101, and that entry directly follows the whole proof of the rewrite: sent and acknowledged, all six
      verification bits, the updater restarted, and a first read of 0x2101. */
  lemma EraseAfterRewrite(cfg: Config, t: seq<Event>, j: nat, i: nat)
    requires Sound(cfg, t) && j < i < |t| && t[j].UpdateBootloader? && t[i].EraseFlash?
    ensures t[i - 1] == EnterBootloader(Some(Version(0xDF, 0x2101))) && ProofShown(t, i - 1)
  {
    SoundAt(cfg, t, i);
    UpdatesCount(t, j, i);
    assert t[..i][..i - 1] == t[..i - 1] && t[..i][i - 1] == t[i - 1];
  }

  /** And the transceiver image goes onto a bootloader that was found too old, or for which a rewrite was sent, only
      after such an erase. */
  lemma TransceiverAfterRewrite(cfg: Config, t: seq<Event>, i: nat)
    requires Sound(cfg, t) && i < |t| && t[i].WriteImage? && t[i].image == TRANSCEIVER
    requires exists j :: 0 <= j < i && (t[j] == Cached(REJECT_BOOTLOADER_TOO_OLD) || t[j].UpdateBootloader?)
    ensures i >= 2 && t[i - 1] == EraseFlash(true) && ProofShown(t, i - 2)
    ensures t[i - 2] == EnterBootloader(Some(Version(0xDF, 0x2101)))
  {
    SoundAt(cfg, t, i);
    NeedsNew(cfg, t, i);
    LastBefore(t, i);
    FoldStep(t[..i - 1], t[i - 1]);
    LastBefore(t, i - 1);
  }

  lemma LastBefore(t: seq<Event>, i: nat)
    requires 0 < i <= |t|
    ensures t[..i] == t[..i - 1] + [t[i - 1]] && t[..i][..i - 1] == t[..i - 1] && t[..i][i - 1] == t[i - 1]
  {
  }

  lemma NeedsNew(cfg: Config, t: seq<Event>, i: nat)
    requires Sound(cfg, t) && i <= |t|
    requires exists j :: 0 <= j < i && (t[j] == Cached(REJECT_BOOTLOADER_TOO_OLD) || t[j].UpdateBootloader?)
    ensures Fold(t[..i]).verdict == Some(REJECT_BOOTLOADER_TOO_OLD) || Fold(t[..i]).updates > 0
  {
    var j :| 0 <= j < i && (t[j] == Cached(REJECT_BOOTLOADER_TOO_OLD) || t[j].UpdateBootloader?);
    if t[j].UpdateBootloader? {
      UpdatesCount(t, j, i);
    } else {
      SoundPrefix(cfg, t, i);
      VerdictShows(cfg, t[..i], REJECT_BOOTLOADER_TOO_OLD);
      assert t[..i][j] == t[j];
    }
  }

  const ZERO := EnterBootloader(Some(Version(BOOTLOADER_TYPE, 0)))

  function BootWithZero(cfg: Config): seq<Event> {
    [ZERO] + [RebootChip(true)] + [InitRadio(true)] + [ReadNormal(None)]
    + [Cached(Decide(0, BOOTLOADER_TYPE, 0, 0, cfg.targetFw, false))]
  }

  /** A press that asks and one that confirms. */
  function TwoPresses(t: seq<Event>): seq<Event> { t + [Pressed(1000)] + [AskedToConfirm(1000)] + [Pressed(2000)] }

  /** One more event that needs no permission. */
  lemma Unremarkable(cfg: Config, t: seq<Event>, e: Event)
    requires Sound(cfg, t) && !Fold(t).restarted
    requires e.RebootChip? || e.InitRadio? || e.ReadNormal? || e.Pressed?
    ensures Sound(cfg, t + [e]) && Fold(t + [e]) == Fold(t)
  {
    Extend(cfg, t, e);
    FoldStep(t, e);
  }

  lemma BootedWithZero(cfg: Config)
    ensures var t, f := BootWithZero(cfg), Fold(BootWithZero(cfg));
            && Sound(cfg, t) && !f.restarted && f.boot == Some(Version(BOOTLOADER_TYPE, 0))
            && f.verdict == Some(NEEDS_CONFIRMATION) && !f.entered && f.updates == 0
  {
    var t0: seq<Event> := [];
    Extend(cfg, t0, ZERO);
    FoldStep(t0, ZERO);
    assert t0 + [ZERO] == [ZERO];
    Unremarkable(cfg, [ZERO], RebootChip(true));
    Unremarkable(cfg, [ZERO] + [RebootChip(true)], InitRadio(true));
    Unremarkable(cfg, [ZERO] + [RebootChip(true)] + [InitRadio(true)], ReadNormal(None));
    var t := [ZERO] + [RebootChip(true)] + [InitRadio(true)] + [ReadNormal(None)];
    var verdict := Cached(Decide(0, BOOTLOADER_TYPE, 0, 0, cfg.targetFw, false));
    Extend(cfg, t, verdict);
    FoldStep(t, verdict);
  }

  lemma PressedTwice(cfg: Config, t: seq<Event>)
    requires Sound(cfg, t) && !Fold(t).restarted && Fold(t).verdict == Some(NEEDS_CONFIRMATION)
    requires !Fold(t).entered && Fold(t).updates == 0
    ensures var t' := TwoPresses(t);
            && Sound(cfg, t') && Fold(t') == Fold(t).(asked := Some(1000)) && MayEnter(cfg, t')
  {
    var t1 := t + [Pressed(1000)];
    Unremarkable(cfg, t, Pressed(1000));
    Extend(cfg, t1, AskedToConfirm(1000));
    FoldStep(t1, AskedToConfirm(1000));
    Unremarkable(cfg, t1 + [AskedToConfirm(1000)], Pressed(2000));
  }

  /** The exception is real. Whatever image is configured, here is a whole power cycle, lawful under every rule above:
      the chip answers version 0 at boot, the verdict is to ask, two presses a second apart confirm, the bootloader
      answers version 0 again, and the chip is erased. */
  lemma VersionZeroIsErased(cfg: Config)
    ensures Sound(cfg, TwoPresses(BootWithZero(cfg)) + [ZERO] + [EraseFlash(true)])
    ensures CheckSanity(true, 0, BOOTLOADER_TYPE, 0) == SANE && !IsLr1121(0)
  {
    BootedWithZero(cfg);
    PressedTwice(cfg, BootWithZero(cfg));
    EnteredAtZero(cfg, TwoPresses(BootWithZero(cfg)));
  }

  lemma EnteredAtZero(cfg: Config, t: seq<Event>)
    requires Sound(cfg, t) && !Fold(t).restarted && MayEnter(cfg, t) && !RewriteProven(t)
    requires Fold(t).verdict.Some? && Fold(t).updates == 0 && t != []
    requires Fold(t).boot == Some(Version(BOOTLOADER_TYPE, 0))
    ensures Sound(cfg, t + [ZERO] + [EraseFlash(true)])
  {
    Extend(cfg, t, ZERO);
    FoldStep(t, ZERO);
    assert (t + [ZERO])[..|t|] == t;
    Extend(cfg, t + [ZERO], EraseFlash(true));
  }

  /** Before a press-driven entry only setup entered the bootloader. */
  lemma {:induction false} EntriesAtBoot(cfg: Config, t: seq<Event>)
    requires Sound(cfg, t) && !Fold(t).entered
    ensures forall j :: 0 <= j < |t| && t[j].EnterBootloader? ==> BootEntry(t, j)
    decreases |t|
  {
    if t != [] {
      var n := |t| - 1;
      EntriesAtBoot(cfg, t[..n]);
      EnteredAfterVerdict(t[..n]);
      forall j | 0 <= j < |t| && t[j].EnterBootloader? ensures BootEntry(t, j) {
        if j < n { assert t[..n][..j] == t[..j] && BootEntry(t[..n], j); }
      }
    }
  }

  /** After boot the bootloader is entered only by a press under a PROCEED verdict, by a press that answers a question
      asked at most 60 s (plus scheduler lateness) earlier, by a press that may rewrite the bootloader, or again once
      the rewrite is proven; and by one press only. */
  lemma EnteredOnPurpose(cfg: Config, t: seq<Event>, i: nat)
    requires Sound(cfg, t) && i < |t| && t[i].EnterBootloader? && !BootEntry(t, i)
    ensures ProofShown(t, i) || (i > 0 && t[i - 1].Pressed?)
    ensures ProofShown(t, i) || (exists k :: 0 <= k < i && t[k] == Cached(PROCEED)) || Permitted(cfg, t, i)
         || exists k :: 0 <= k < i - 1 && t[k].AskedToConfirm? && t[k].at <= t[i - 1].at <= t[k].at + 60000 + cfg.late
    ensures ProofShown(t, i) || forall k :: 0 <= k < i ==> t[k] != Cached(REJECT_WRONG_CHIP)
    ensures ProofShown(t, i) || forall j :: 0 <= j < i && t[j].EnterBootloader? ==> BootEntry(t, j)
  {
    SoundAt(cfg, t, i);
    SoundPrefix(cfg, t, i);
    var before := t[..i];
    if !RewriteProven(before) {
      assert before[i - 1] == t[i - 1];
      PressAsked(cfg, t, i);
      EntriesAtBoot(cfg, before);
      VerdictShows(cfg, before, REJECT_WRONG_CHIP);
      forall j | 0 <= j < i && t[j].EnterBootloader? ensures BootEntry(t, j) {
        assert before[..j] == t[..j] && BootEntry(before, j);
      }
    }
  }

  lemma PressAsked(cfg: Config, t: seq<Event>, i: nat)
    requires Sound(cfg, t) && 0 < i < |t| && t[i - 1].Pressed? && FlashPermitted(cfg, Fold(t[..i]), t[i - 1].at)
    ensures (exists k :: 0 <= k < i && t[k] == Cached(PROCEED)) || Permitted(cfg, t, i)
         || exists k :: 0 <= k < i - 1 && t[k].AskedToConfirm? && t[k].at <= t[i - 1].at <= t[k].at + 60000 + cfg.late
  {
    var before := t[..i];
    SoundPrefix(cfg, t, i);
    VerdictShows(cfg, before, PROCEED);
    if Fold(before).verdict == Some(PROCEED) {
      var k :| 0 <= k < i && before[k] == Cached(PROCEED);
      assert t[k] == Cached(PROCEED);
    }
    if RewritePermitted(cfg, Fold(before)) { PermittedShows(cfg, t, i); }
    WasAsked(before);
    if Fold(before).asked.Some? {
      var k :| 0 <= k < i && before[k] == AskedToConfirm(Fold(before).asked.value);
      assert t[k] == before[k];
    }
  }

  lemma {:induction false} WasAsked(t: seq<Event>)
    ensures Fold(t).asked.Some? ==> exists k :: 0 <= k < |t| && t[k] == AskedToConfirm(Fold(t).asked.value)
  {
    if t != [] {
      var n := |t| - 1;
      WasAsked(t[..n]);
      if t[n].AskedToConfirm? {
        assert t[n] == AskedToConfirm(Fold(t).asked.value);
      } else if Fold(t[..n]).asked.Some? {
        var k :| 0 <= k < n && t[..n][k] == AskedToConfirm(Fold(t[..n]).asked.value);
        assert t[k] == AskedToConfirm(Fold(t).asked.value);
      }
    }
  }
}
