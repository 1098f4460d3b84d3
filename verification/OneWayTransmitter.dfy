/** The one-way transmitter: bursts, and the enrollment gestures built from them, over a radio and frame builders
    that may fail at any point. */
module OneWayTransmitter {
  import opened Wrappers
  import opened Words
  import opened SequenceCounter
  import opened OneWaySequenceStore
  import opened OneWayCommands

  /** One boot of a counter. */
  ghost predicate Booted(c: Cell, initial: U16, c': Cell) { CellRun(c, [Boot(initial)]) == (c', []) }

  class Transmitter {
    const store: Store
    const identities: seq<Identity>
    const builds: Builder
    var log: seq<TxEvent>

    ghost predicate Valid()
      reads this, store, store.flash
    {
      store.Valid() && forall i :: 0 <= i < |identities| ==> store.Registered(identities[i].nodeId)
    }

    /** No identity before the `i`th has its address. */
    ghost predicate FirstWithAddress(i: nat)
      requires i < |identities|
    {
      forall j :: 0 <= j < i ==> identities[j].nodeId != identities[i].nodeId
    }

    /** Setup boots one counter per configured address, from the first identity that has it. */
    constructor (store: Store, identities: seq<Identity>, initialSequence: seq<U16>, builds: Builder)
      requires store.Valid() && |initialSequence| == |identities|
      modifies store`counters
      ensures Valid() && this.store == store && this.identities == identities && this.builds == builds && log == []
      ensures forall i :: 0 <= i < |identities| && FirstWithAddress(i) ==>
        Booted(old(store.CellOf(identities[i].nodeId)), initialSequence[i], store.CellOf(identities[i].nodeId))
    {
      this.store, this.identities, this.builds, log := store, identities, builds, [];
      new;
      Register(initialSequence);
    }

    /** Registers the configured addresses in order. */
    method Register(initialSequence: seq<U16>)
      requires store.Valid() && |initialSequence| == |identities|
      modifies store`counters
      ensures Valid()
      ensures forall i :: 0 <= i < |identities| && FirstWithAddress(i) ==>
        Booted(old(store.CellOf(identities[i].nodeId)), initialSequence[i], store.CellOf(identities[i].nodeId))
    {
      for i := 0 to |identities|
        modifies store`counters
        invariant store.Valid()
        invariant forall j :: 0 <= j < i ==> store.Registered(identities[j].nodeId)
        invariant forall j :: i <= j < |identities| && FirstWithAddress(j) ==>
          store.CellOf(identities[j].nodeId) == old(store.CellOf(identities[j].nodeId))
        invariant forall j :: 0 <= j < i && FirstWithAddress(j) ==>
          Booted(old(store.CellOf(identities[j].nodeId)), initialSequence[j], store.CellOf(identities[j].nodeId))
      {
        label before:
        store.AddIdentity(identities[i].nodeId, initialSequence[i]);
        assert Booted(old@before(store.CellOf(identities[i].nodeId)), initialSequence[i],
                      store.CellOf(identities[i].nodeId));
      }
    }

    /** Transmits every copy of one frame, whatever happens to the earlier ones. */
    method SendBurst(frame: Frame) returns (any: bool, ghost copies: seq<TxEvent>)
      modifies this`log
      ensures log == old(log) + copies && |copies| == BURST_REPEATS
      ensures forall i :: 0 <= i < |copies| ==> copies[i].OnAir? && copies[i].frame == frame
      ensures any <==> SomeCopySent(copies)
    {
      var sent := 0;
      copies := [];
      for repeat := 0 to BURST_REPEATS
        invariant |copies| == repeat && log == old(log) + copies
        invariant forall i :: 0 <= i < |copies| ==> copies[i].OnAir? && copies[i].frame == frame
        invariant sent > 0 <==> SomeCopySent(copies)
        invariant 0 <= sent
      {
        var ok: bool := *;
        log := log + [OnAir(frame, ok)];
        StepsConcat(copies, [OnAir(frame, ok)], Clear);
        assert [OnAir(frame, ok)][0].sent == ok;
        copies := copies + [OnAir(frame, ok)];
        if ok { sent := sent + 1; }
      }
      any := sent > 0;
    }

    /** One number for one logical command, reserved before anything is built or sent. It fails only when a block was
        needed and flash refused it. */
    method Reserve(who: Identity) returns (ok: bool, sequence: U16, ghost steps: seq<Event>)
      requires Valid() && who in identities
      modifies store`counters, store.flash
      ensures Valid()
      ensures Reserved(old(store.CellOf(who.nodeId)), steps, store.CellOf(who.nodeId),
                       if ok then Some(sequence) else None)
      ensures !ok ==> old(store.Exhausted(who.nodeId))
      ensures Others(who.nodeId, old(store.Cells()), store.Cells())
      ensures store.flash.refusals == old(store.flash.refusals) + if ok then 0 else 1
    {
      ok, sequence, steps := store.Next(who.nodeId);
    }

    /** What one attempted step of `who` leaves behind, seen from the state before it. */
    twostate predicate Did(who: Identity, d: Deed, frames: seq<Frame>)
      reads this, store, store.flash
    {
      && log == old(log) + d.segment && Segment(d.segment, who, frames)
      && Performs(d) && d.before == old(store.CellOf(who.nodeId)) && d.after == store.CellOf(who.nodeId)
      && Others(who.nodeId, old(store.Cells()), store.Cells())
      && store.flash.refusals == old(store.flash.refusals) + Refused(d)
    }

    /** The burst of a single-frame command under its reserved number, if the frame can be built, and its report. */
    method SendReserved(who: Identity, kind: Kind, number: Option<U16>, intent: string)
        returns (ok: bool, ghost copies: seq<TxEvent>)
      modifies this`log
      ensures Bursts(copies, SendFrames(who, kind, number, builds)) && (ok <==> SomeCopySent(copies))
      ensures log == old(log) + copies + [ReportOf(who, number, SendIntent(who, kind, number, builds, intent), ok)]
    {
      ok, copies := false, [];
      if number.Some? && builds(Frame(who.nodeId, kind, number.value)) {
        ok, copies := SendBurst(Frame(who.nodeId, kind, number.value));
      }
      log := log + [ReportOf(who, number, SendIntent(who, kind, number, builds, intent), ok)];
    }

    /** One logical command: one sequence, one burst if the frame can be built, one report. */
    method Send(who: Identity, kind: Kind, intent: string) returns (ok: bool, ghost d: Deed)
      requires Valid() && who in identities
      modifies this`log, store`counters, store.flash
      ensures Valid() && Did(who, d, SendFrames(who, kind, Number(d.segment), builds)) && ok == Reported(d.segment)
      ensures CommandLogged(d.segment, who, kind, builds)
    {
      ok, d := ReserveAndSend(who, kind, intent);
      SendLogged(d.segment, who, kind, builds);
    }

    method ReserveAndSend(who: Identity, kind: Kind, intent: string) returns (ok: bool, ghost d: Deed)
      requires Valid() && who in identities
      modifies this`log, store`counters, store.flash
      ensures Valid() && Did(who, d, SendFrames(who, kind, Number(d.segment), builds)) && ok == Reported(d.segment)
    {
      ghost var steps;
      var reserved, sequence;
      reserved, sequence, steps := Reserve(who);
      ghost var after := store.CellOf(who.nodeId);
      var number := if reserved then Some(sequence) else None;
      ghost var copies;
      ok, copies := SendReserved(who, kind, number, intent);
      d := Concluded(who, number, SendIntent(who, kind, number, builds, intent), ok,
                     old(store.CellOf(who.nodeId)), steps,
                     after, copies, SendFrames(who, kind, number, builds), old(log));
    }

    /** One burst per class that builds, all under `sequence`. */
    method SweepClasses(who: Identity, classes: seq<DeviceType>, sequence: U16)
        returns (any: bool, ghost copies: seq<TxEvent>)
      modifies this`log
      ensures log == old(log) + copies && Bursts(copies, SweepFrames(who, classes, Some(sequence), builds))
      ensures any <==> SomeCopySent(copies)
    {
      any, copies := false, [];
      for c := 0 to |classes|
        invariant log == old(log) + copies && Bursts(copies, SweepFrames(who, classes[..c], Some(sequence), builds))
        invariant any <==> SomeCopySent(copies)
      {
        ghost var frames := SweepFrames(who, classes[..c], Some(sequence), builds);
        assert classes[..c + 1][..c] == classes[..c];
        var frame := Frame(who.nodeId, Add(classes[c]), sequence);
        if classes[c] != UNKNOWN && builds(frame) {
          var sent, burst := SendBurst(frame);
          BurstsAppend(copies, frames, burst, frame);
          copies := copies + burst;
          any := any || sent;
        } else {
          assert frames + [] == frames;
        }
      }
      assert classes[..|classes|] == classes;
    }

    /** The sweep under its reserved number, if there is one, and its report. */
    method SweepReserved(who: Identity, classes: seq<DeviceType>, number: Option<U16>)
        returns (any: bool, ghost copies: seq<TxEvent>)
      modifies this`log
      ensures Bursts(copies, SweepFrames(who, classes, number, builds)) && (any <==> SomeCopySent(copies))
      ensures log == old(log) + copies + [ReportOf(who, number, if number.Some? then "ENROLL" else "", any)]
    {
      any, copies := false, [];
      if number.Some? { any, copies := SweepClasses(who, classes, number.value); }
      else { NoNumberNoFrames(who, classes, builds); }
      log := log + [ReportOf(who, number, if number.Some? then "ENROLL" else "", any)];
    }

    /** The VELUX class sweep: every configured class gets its own burst, all under one sequence. */
    method SendEnrollSweep(who: Identity, classes: seq<DeviceType>) returns (any: bool, ghost d: Deed)
      requires Valid() && who in identities
      modifies this`log, store`counters, store.flash
      ensures Valid() && any == Reported(d.segment)
      ensures Did(who, d, SweepFrames(who, classes, Number(d.segment), builds))
    {
      ghost var steps;
      var reserved, sequence;
      reserved, sequence, steps := Reserve(who);
      ghost var after := store.CellOf(who.nodeId);
      var number := if reserved then Some(sequence) else None;
      ghost var copies;
      any, copies := SweepReserved(who, classes, number);
      SweepUnderNumber(who, classes, number, builds);
      d := Concluded(who, number, if number.Some? then "ENROLL" else "", any, old(store.CellOf(who.nodeId)), steps,
                     after, copies, SweepFrames(who, classes, number, builds), old(log));
    }

    /** The follow-up of a VELUX enrollment: STOP, then DOWN, whatever becomes of STOP. */
    method StopAndLower(who: Identity) returns (ghost stop: Deed, ghost down: Deed)
      requires Valid() && who in identities
      modifies this`log, store`counters, store.flash
      ensures Valid() && log == old(log) + stop.segment + down.segment
      ensures Segment(stop.segment, who, GestureFrames(VELUX_KLI, who, 2, Number(stop.segment), builds))
      ensures Segment(down.segment, who, GestureFrames(VELUX_KLI, who, 3, Number(down.segment), builds))
      ensures Performs(stop) && Performs(down) && stop.after == down.before
      ensures stop.before == old(store.CellOf(who.nodeId)) && down.after == store.CellOf(who.nodeId)
      ensures Others(who.nodeId, old(store.Cells()), store.Cells())
      ensures store.flash.refusals == old(store.flash.refusals) + Refused(stop) + Refused(down)
    {
      ghost var c0 := store.Cells();
      var stopped, lowered;
      stopped, stop := Send(who, ExecuteStop, "ENROLL STOP");
      ghost var c1 := store.Cells();
      lowered, down := Send(who, ExecuteDown, "ENROLL DOWN");
      OthersChain(who.nodeId, c0, c1, store.Cells());
    }

    /** 0x39, then the sweep. */
    method ClearAndSweep(who: Identity) returns (enrolled: bool, ghost clear: Deed, ghost sweep: Deed)
      requires Valid() && who in identities
      modifies this`log, store`counters, store.flash
      ensures Valid() && log == old(log) + clear.segment + sweep.segment && enrolled == Reported(sweep.segment)
      ensures Segment(clear.segment, who, GestureFrames(VELUX_KLI, who, 0, Number(clear.segment), builds))
      ensures Segment(sweep.segment, who, GestureFrames(VELUX_KLI, who, 1, Number(sweep.segment), builds))
      ensures Performs(clear) && Performs(sweep) && clear.after == sweep.before
      ensures clear.before == old(store.CellOf(who.nodeId)) && sweep.after == store.CellOf(who.nodeId)
      ensures Others(who.nodeId, old(store.Cells()), store.Cells())
      ensures store.flash.refusals == old(store.flash.refusals) + Refused(clear) + Refused(sweep)
    {
      ghost var c0 := store.Cells();
      var cleared;
      cleared, clear := Send(who, Remove(UNKNOWN), "UNENROLL");
      ghost var c1 := store.Cells();
      enrolled, sweep := SendEnrollSweep(who, ClassList(EffectiveClasses(who)));
      OthersChain(who.nodeId, c0, c1, store.Cells());
    }

    /** 0x39, then the sweep, then STOP and DOWN only if the sweep put something on air. Every attempted step leaves
        one segment, the sequences rise from step to step, and success means exactly that some 0x30 copy was sent. */
    method SendVeluxEnrollment(who: Identity)
        returns (ok: bool, ghost segments: seq<seq<TxEvent>>, ghost deeds: seq<Deed>)
      requires Valid() && who in identities
      modifies this`log, store`counters, store.flash
      ensures Valid() && log == old(log) + Flatten(segments)
      ensures Finished(VELUX_KLI, who, builds, segments, deeds, old(store.CellOf(who.nodeId)), store.CellOf(who.nodeId))
      ensures ok == Reported(segments[1]) && |segments| == (if ok then 4 else 2)
      ensures Others(who.nodeId, old(store.Cells()), store.Cells())
      ensures store.flash.refusals == old(store.flash.refusals) + Refusals(segments)
    {
      ghost var c0 := store.Cells();
      ghost var a, b;
      ok, a, b := ClearAndSweep(who);
      if !ok {
        segments, deeds := FinishedTwo(VELUX_KLI, who, builds, old(log), a, b);
        return;
      }
      ghost var c1 := store.Cells();
      ghost var c, d;
      c, d := StopAndLower(who);
      OthersChain(who.nodeId, c0, c1, store.Cells());
      segments, deeds := FinishedFour(VELUX_KLI, who, builds, old(log), a, b, c, d);
    }

    /** 0x39 to the identity's own class, then 0x30 whether or not that went out. */
    method RemoveAndAdd(who: Identity) returns (enrolled: bool, ghost remove: Deed, ghost add: Deed)
      requires Valid() && who in identities
      modifies this`log, store`counters, store.flash
      ensures Valid() && log == old(log) + remove.segment + add.segment && enrolled == Reported(add.segment)
      ensures Segment(remove.segment, who, GestureFrames(SOMFY, who, 0, Number(remove.segment), builds))
      ensures Segment(add.segment, who, GestureFrames(SOMFY, who, 1, Number(add.segment), builds))
      ensures Performs(remove) && Performs(add) && remove.after == add.before
      ensures remove.before == old(store.CellOf(who.nodeId)) && add.after == store.CellOf(who.nodeId)
      ensures Others(who.nodeId, old(store.Cells()), store.Cells())
      ensures store.flash.refusals == old(store.flash.refusals) + Refused(remove) + Refused(add)
    {
      ghost var c0 := store.Cells();
      var removed;
      removed, remove := Send(who, Remove(who.deviceType), "UNENROLL");
      ghost var c1 := store.Cells();
      enrolled, add := Send(who, Add(who.deviceType), "ENROLL");
      OthersChain(who.nodeId, c0, c1, store.Cells());
    }

    /** The SOMFY gesture: only the 0x30 decides. */
    method SendSomfyEnrollment(who: Identity)
        returns (ok: bool, ghost segments: seq<seq<TxEvent>>, ghost deeds: seq<Deed>)
      requires Valid() && who in identities
      modifies this`log, store`counters, store.flash
      ensures Valid() && log == old(log) + Flatten(segments)
      ensures Finished(SOMFY, who, builds, segments, deeds, old(store.CellOf(who.nodeId)), store.CellOf(who.nodeId))
      ensures ok == Reported(segments[1]) && |segments| == 2
      ensures Others(who.nodeId, old(store.Cells()), store.Cells())
      ensures store.flash.refusals == old(store.flash.refusals) + Refusals(segments)
    {
      ghost var a, b;
      ok, a, b := RemoveAndAdd(who);
      segments, deeds := FinishedTwo(SOMFY, who, builds, old(log), a, b);
    }

    /** The gesture of an identity's manufacturer. */
    method PerformGesture(who: Identity) returns (ok: bool, ghost segments: seq<seq<TxEvent>>, ghost deeds: seq<Deed>)
      requires Valid() && who in identities
      modifies this`log, store`counters, store.flash
      ensures Valid() && log == old(log) + Flatten(segments) && |segments| > 1 && ok == Reported(segments[1])
      ensures who.manufacturer == 1 ==> VeluxLogged(segments, who, builds) && ok == AddSent(segments[1])
      ensures who.manufacturer != 1 ==> SomfyLogged(segments, who, builds) && ok == AddSent(segments[1])
      ensures Finished(EnrollGesture(who.manufacturer), who, builds, segments, deeds,
                       old(store.CellOf(who.nodeId)), store.CellOf(who.nodeId))
      ensures Others(who.nodeId, old(store.Cells()), store.Cells())
      ensures store.flash.refusals == old(store.flash.refusals) + Refusals(segments)
    {
      if EnrollGesture(who.manufacturer) == VELUX_KLI {
        ok, segments, deeds := SendVeluxEnrollment(who);
        VeluxIsLogged(segments, who, builds);
      } else {
        ok, segments, deeds := SendSomfyEnrollment(who);
        SomfyIsLogged(segments, who, builds);
      }
    }

    /** The registry lookup by handle. */
    method GetIdentity(id: string) returns (r: Option<Identity>)
      ensures r == FirstNamed(identities, id)
      ensures r.Some? ==> r.value in identities
    {
      for i := 0 to |identities|
        invariant FirstNamed(identities, id) == FirstNamed(identities[i..], id)
      {
        assert identities[i..][1..] == identities[i + 1..];
        if identities[i].id == id { return Some(identities[i]); }
      }
      r := None;
    }

    /** An unknown handle is reported once and touches neither counters nor radio; a known one performs the gesture of
        its manufacturer. */
    method SendEnrollment(id: string)
        returns (ok: bool, ghost segments: seq<seq<TxEvent>>, ghost deeds: seq<Deed>, ghost who: Option<Identity>)
      requires Valid()
      modifies this`log, store`counters, store.flash
      ensures Valid() && log == old(log) + Flatten(segments)
      ensures who == FirstNamed(identities, id)
      ensures who.None? ==>
        !ok && segments == [[Report(id, "", 0, false, false)]] && unchanged(store) && unchanged(store.flash)
      ensures who.Some? ==>
        && Finished(EnrollGesture(who.value.manufacturer), who.value, builds, segments, deeds,
                    old(store.CellOf(who.value.nodeId)), store.CellOf(who.value.nodeId))
        && Others(who.value.nodeId, old(store.Cells()), store.Cells())
        && store.flash.refusals == old(store.flash.refusals) + Refusals(segments)
      ensures who.Some? && who.value.manufacturer == 1 ==>
        VeluxLogged(segments, who.value, builds) && ok == AddSent(segments[1])
      ensures who.Some? && who.value.manufacturer != 1 ==>
        SomfyLogged(segments, who.value, builds) && ok == AddSent(segments[1])
      ensures ok <==> SentStep(Flatten(segments), Enroll)
    {
      var found := GetIdentity(id);
      who, deeds := found, [];
      if found.None? {
        log := log + [Report(id, "", 0, false, false)];
        ok, segments := false, [[Report(id, "", 0, false, false)]];
        FlattenOne(segments[0]);
        return;
      }
      ok, segments, deeds := PerformGesture(found.value);
    }
  }
}
