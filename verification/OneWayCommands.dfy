/** One-way commands: what the steps of a command or enrollment put on air and report, and what they do to the counter
    behind them. */
module OneWayCommands {
  import opened Wrappers
  import opened Words
  import opened PreferenceKey
  import opened SequenceCounter
  import opened OneWaySequenceStore

  const BURST_REPEATS := 4
  const MANUFACTURER_VELUX := 1

  datatype DeviceType = UNKNOWN | RollerShutter | Awning | DualShutter | OtherType(code: nat)

  datatype Identity = Identity(id: string, nodeId: Address, manufacturer: nat, deviceType: DeviceType,
                               enrollmentClasses: (DeviceType, DeviceType, DeviceType))

  /** What a frame asks for. `Remove` is 0x39, `Add` is 0x30; the other two are EXECUTE frames. */
  datatype Kind = Remove(target: DeviceType) | Add(target: DeviceType)
    | ExecuteStop | ExecuteDown | Execute(command: nat)

  datatype Frame = Frame(src: Address, kind: Kind, sequence: U16)

  datatype TxEvent =
    | OnAir(frame: Frame, sent: bool)
    | Report(id: string, intent: string, sequence: U16, reserved: bool, transmitted: bool)

  datatype Gesture = SOMFY | VELUX_KLI

  const VELUX_CLASSES := (RollerShutter, Awning, DualShutter)
  const NO_CLASSES := (UNKNOWN, UNKNOWN, UNKNOWN)

  function EnrollGesture(manufacturer: nat): Gesture { if manufacturer == MANUFACTURER_VELUX then VELUX_KLI else SOMFY }

  function ProfileClasses(manufacturer: nat): (DeviceType, DeviceType, DeviceType) {
    if manufacturer == MANUFACTURER_VELUX then VELUX_CLASSES else NO_CLASSES
  }

  function EffectiveClasses(i: Identity): (r: (DeviceType, DeviceType, DeviceType))
    ensures i.manufacturer == MANUFACTURER_VELUX ==> r.0 != UNKNOWN || r.1 != UNKNOWN || r.2 != UNKNOWN
    ensures i.enrollmentClasses != NO_CLASSES ==> r == i.enrollmentClasses
  {
    if i.enrollmentClasses != NO_CLASSES then i.enrollmentClasses else ProfileClasses(i.manufacturer)
  }

  /** The identity behind a handle, first match first. */
  function FirstNamed(identities: seq<Identity>, id: string): (r: Option<Identity>)
    ensures r.Some? ==> r.value in identities && r.value.id == id
    ensures r.None? ==> forall i :: 0 <= i < |identities| ==> identities[i].id != id
  {
    if identities == [] then None
    else if identities[0].id == id then Some(identities[0])
    else FirstNamed(identities[1..], id)
  }

  /** The steps of an enrollment, in gesture order. */
  datatype GestureStep = Clear | Enroll | Stop | Down | Command

  function StepOf(k: Kind): GestureStep {
    match k
    case Remove(_) => Clear
    case Add(_) => Enroll
    case ExecuteStop => Stop
    case ExecuteDown => Down
    case Execute(_) => Command
  }

  ghost predicate SomeCopySent(log: seq<TxEvent>) { exists i :: 0 <= i < |log| && log[i].OnAir? && log[i].sent }

  ghost predicate SentStep(log: seq<TxEvent>, step: GestureStep) {
    exists i :: 0 <= i < |log| && log[i].OnAir? && log[i].sent && StepOf(log[i].frame.kind) == step
  }

  ghost predicate AttemptedStep(log: seq<TxEvent>, step: GestureStep) {
    exists i :: 0 <= i < |log| && log[i].OnAir? && StepOf(log[i].frame.kind) == step
  }

  /** Whole bursts of these frames, one after the other. */
  ghost predicate Bursts(copies: seq<TxEvent>, frames: seq<Frame>) {
    && |copies| == BURST_REPEATS * |frames|
    && forall i :: 0 <= i < |copies| ==> copies[i].OnAir? && copies[i].frame == frames[i / BURST_REPEATS]
  }

  /** Everything one attempted step leaves behind: a burst of each of its frames and then exactly one report, whose flag
      says whether some copy went out. Nothing is sent without a reserved number. */
  ghost predicate Segment(log: seq<TxEvent>, who: Identity, frames: seq<Frame>) {
    && log != []
    && var report, copies := log[|log| - 1], log[..|log| - 1];
    && report.Report? && report.id == who.id
    && Bursts(copies, frames)
    && (frames != [] ==> report.reserved)
    && (report.transmitted <==> SomeCopySent(copies))
  }

  /** The sequence a segment's report says was reserved for it. */
  function Number(log: seq<TxEvent>): Option<U16> {
    if log != [] && log[|log| - 1].Report? && log[|log| - 1].reserved then Some(log[|log| - 1].sequence) else None
  }

  /** The segment's report says it was transmitted. */
  predicate Reported(log: seq<TxEvent>) { log != [] && log[|log| - 1].Report? && log[|log| - 1].transmitted }

  /** The counter went from `n` to `n'` for this segment: one number if one was reserved, none otherwise. */
  predicate Took(n: U16, log: seq<TxEvent>, n': U16) {
    match Number(log)
    case Some(q) => q == n && n' == (n + 1) % RING
    case None => n' == n
  }

  /** Which frames can be built. */
  type Builder = Frame -> bool

  /** The frame of a single-frame command under its reserved number, if it can be built. */
  function SendFrames(who: Identity, kind: Kind, number: Option<U16>, builds: Builder): seq<Frame> {
    if number.Some? && builds(Frame(who.nodeId, kind, number.value)) then [Frame(who.nodeId, kind, number.value)]
    else []
  }

  /** The intent a report names: none when nothing could be built. */
  function SendIntent(who: Identity, kind: Kind, number: Option<U16>, builds: Builder, intent: string): string {
    if SendFrames(who, kind, number, builds) != [] then intent else ""
  }

  /** The frames of a class sweep: one per configured class that can be built, all under one number. */
  function SweepFrames(who: Identity, classes: seq<DeviceType>, number: Option<U16>, builds: Builder): seq<Frame> {
    if classes == [] then []
    else
      var c := classes[|classes| - 1];
      SweepFrames(who, classes[..|classes| - 1], number, builds)
      + if c != UNKNOWN then SendFrames(who, Add(c), number, builds) else []
  }

  function ClassList(cs: (DeviceType, DeviceType, DeviceType)): seq<DeviceType> { [cs.0, cs.1, cs.2] }

  const ENROLLMENT := [Clear, Enroll, Stop, Down]

  /** What step `s` of an enrollment puts on air. */
  function GestureFrames(g: Gesture, who: Identity, s: nat, number: Option<U16>, builds: Builder): seq<Frame>
    requires s < 4
  {
    if s == 0 then SendFrames(who, Remove(if g == VELUX_KLI then UNKNOWN else who.deviceType), number, builds)
    else if s == 1 then
      if g == VELUX_KLI then SweepFrames(who, ClassList(EffectiveClasses(who)), number, builds)
      else SendFrames(who, Add(who.deviceType), number, builds)
    else SendFrames(who, if s == 2 then ExecuteStop else ExecuteDown, number, builds)
  }

  /** The segments of a gesture that got as far as they reach, in gesture order. */
  ghost predicate Gestured(segments: seq<seq<TxEvent>>, g: Gesture, who: Identity, builds: Builder) {
    && |segments| <= 4
    && forall s :: 0 <= s < |segments| ==>
         Segment(segments[s], who, GestureFrames(g, who, s, Number(segments[s]), builds))
  }

  /** `b` was reserved after `a`, at most `span` numbers later. */
  predicate After(a: U16, b: U16, span: nat) { 0 < (b - a) % RING <= span }

  /** Sequences reserved by different steps rise strictly with the steps. */
  ghost predicate Rising(segments: seq<seq<TxEvent>>) {
    forall s, t :: 0 <= s < t < |segments| && Number(segments[s]).Some? && Number(segments[t]).Some?
      ==> After(Number(segments[s]).value, Number(segments[t]).value, t - s)
  }

  lemma {:induction false} SweepKind(who: Identity, classes: seq<DeviceType>, number: Option<U16>, builds: Builder)
    ensures forall f :: f in SweepFrames(who, classes, number, builds) ==>
              f.src == who.nodeId && f.kind.Add? && f.kind.target in classes
              && f.kind.target != UNKNOWN && number == Some(f.sequence)
  {
    if classes != [] { SweepKind(who, classes[..|classes| - 1], number, builds); }
  }

  /** Every frame of a step is a frame of that step, from this identity, under the step's number; and a VELUX sweep
      enrolls configured classes only. */
  lemma GestureKinds(g: Gesture, who: Identity, s: nat, number: Option<U16>, builds: Builder)
    requires s < 4
    ensures forall f :: f in GestureFrames(g, who, s, number, builds) ==>
              StepOf(f.kind) == ENROLLMENT[s] && f.src == who.nodeId && number == Some(f.sequence)
  {
    SweepKind(who, ClassList(EffectiveClasses(who)), number, builds);
  }

  lemma SegmentSteps(log: seq<TxEvent>, who: Identity, frames: seq<Frame>, step: GestureStep, other: GestureStep)
    requires Segment(log, who, frames) && forall f :: f in frames ==> StepOf(f.kind) == step
    ensures SentStep(log, other) ==> other == step
    ensures AttemptedStep(log, other) ==> other == step
    ensures SentStep(log, step) <==> Reported(log)
  {
    var copies := log[..|log| - 1];
    forall i | 0 <= i < |copies| ensures log[i] == copies[i] && StepOf(copies[i].frame.kind) == step {
      assert copies[i].frame in frames;
    }
    if SomeCopySent(copies) {
      var i :| 0 <= i < |copies| && copies[i].OnAir? && copies[i].sent;
      assert log[i].sent && StepOf(log[i].frame.kind) == step;
    }
    if SentStep(log, other) {
      var i :| 0 <= i < |log| && log[i].OnAir? && log[i].sent && StepOf(log[i].frame.kind) == other;
      assert log[i] == copies[i];
    }
    if AttemptedStep(log, other) {
      var i :| 0 <= i < |log| && log[i].OnAir? && StepOf(log[i].frame.kind) == other;
      assert log[i] == copies[i];
    }
  }

  lemma BurstsAppend(a: seq<TxEvent>, frames: seq<Frame>, b: seq<TxEvent>, frame: Frame)
    requires Bursts(a, frames) && |b| == BURST_REPEATS
    requires forall i :: 0 <= i < |b| ==> b[i].OnAir? && b[i].frame == frame
    ensures Bursts(a + b, frames + [frame])
    ensures SomeCopySent(a + b) <==> SomeCopySent(a) || SomeCopySent(b)
  {
    StepsConcat(a, b, Enroll);
    forall i | 0 <= i < |a + b| ensures (a + b)[i].OnAir? && (a + b)[i].frame == (frames + [frame])[i / BURST_REPEATS] {
      if i >= |a| { assert i / BURST_REPEATS == |frames|; }
    }
  }

  lemma StepsConcat(a: seq<TxEvent>, b: seq<TxEvent>, step: GestureStep)
    ensures SentStep(a + b, step) <==> SentStep(a, step) || SentStep(b, step)
    ensures AttemptedStep(a + b, step) <==> AttemptedStep(a, step) || AttemptedStep(b, step)
    ensures SomeCopySent(a + b) <==> SomeCopySent(a) || SomeCopySent(b)
  {
    var c := a + b;
    assert forall i :: 0 <= i < |a| ==> a[i] == c[i];
    assert forall i :: 0 <= i < |b| ==> b[i] == c[|a| + i];
  }

  function Flatten(segments: seq<seq<TxEvent>>): seq<TxEvent> {
    if segments == [] then [] else segments[0] + Flatten(segments[1..])
  }

  lemma FlattenOne(a: seq<TxEvent>)
    ensures Flatten([a]) == a
  {
    assert [a][1..] == [];
  }

  lemma FlattenTwo(a: seq<TxEvent>, b: seq<TxEvent>)
    ensures Flatten([a, b]) == a + b
  {
    FlattenOne(b);
    assert [a, b][1..] == [b];
  }

  lemma FlattenFour(a: seq<TxEvent>, b: seq<TxEvent>, c: seq<TxEvent>, d: seq<TxEvent>)
    ensures Flatten([a, b, c, d]) == a + b + c + d
  {
    FlattenTwo(c, d);
    assert [a, b, c, d][1..] == [b, c, d] && [b, c, d][1..] == [c, d];
    assert Flatten([b, c, d]) == b + (c + d);
  }

  /** A step shows in a gesture's log exactly where its own segment put it. */
  lemma FlattenedSteps(segments: seq<seq<TxEvent>>, g: Gesture, who: Identity, builds: Builder)
    requires Gestured(segments, g, who, builds) && |segments| in {2, 4}
    ensures SentStep(Flatten(segments), Enroll) <==> Reported(segments[1])
    ensures AttemptedStep(Flatten(segments), Stop) || AttemptedStep(Flatten(segments), Down) ==> |segments| == 4
  {
    StepsInPlace(segments, g, who, builds);
    FlattenSteps(segments, Enroll);
    NoLateStep(segments, Stop);
    NoLateStep(segments, Down);
  }

  lemma NoLateStep(segments: seq<seq<TxEvent>>, step: GestureStep)
    requires |segments| in {2, 4} && (step == Stop || step == Down)
    requires forall s, other :: 0 <= s < |segments| && AttemptedStep(segments[s], other) ==> other == ENROLLMENT[s]
    ensures AttemptedStep(Flatten(segments), step) ==> |segments| == 4
  {
    FlattenSteps(segments, step);
  }

  lemma StepsInPlace(segments: seq<seq<TxEvent>>, g: Gesture, who: Identity, builds: Builder)
    requires Gestured(segments, g, who, builds)
    ensures forall s, other :: 0 <= s < |segments| && SentStep(segments[s], other) ==> other == ENROLLMENT[s]
    ensures forall s, other :: 0 <= s < |segments| && AttemptedStep(segments[s], other) ==> other == ENROLLMENT[s]
    ensures |segments| > 1 ==> (SentStep(segments[1], Enroll) <==> Reported(segments[1]))
  {
    forall s, other | 0 <= s < |segments|
      ensures SentStep(segments[s], other) ==> other == ENROLLMENT[s]
      ensures AttemptedStep(segments[s], other) ==> other == ENROLLMENT[s]
    {
      StepInPlace(segments[s], s, g, who, builds, other);
    }
    if |segments| > 1 { StepInPlace(segments[1], 1, g, who, builds, Enroll); }
  }

  lemma StepInPlace(log: seq<TxEvent>, s: nat, g: Gesture, who: Identity, builds: Builder, other: GestureStep)
    requires s < 4 && Segment(log, who, GestureFrames(g, who, s, Number(log), builds))
    ensures SentStep(log, other) ==> other == ENROLLMENT[s]
    ensures AttemptedStep(log, other) ==> other == ENROLLMENT[s]
    ensures SentStep(log, ENROLLMENT[s]) <==> Reported(log)
  {
    GestureKinds(g, who, s, Number(log), builds);
    SegmentSteps(log, who, GestureFrames(g, who, s, Number(log), builds), ENROLLMENT[s], other);
  }

  lemma {:induction false} FlattenSteps(segments: seq<seq<TxEvent>>, step: GestureStep)
    ensures SentStep(Flatten(segments), step) <==> exists s :: 0 <= s < |segments| && SentStep(segments[s], step)
    ensures AttemptedStep(Flatten(segments), step) <==>
      exists s :: 0 <= s < |segments| && AttemptedStep(segments[s], step)
  {
    if segments != [] {
      FlattenSteps(segments[1..], step);
      StepsConcat(segments[0], Flatten(segments[1..]), step);
      assert forall s :: 0 < s < |segments| ==> segments[s] == segments[1..][s - 1];
      assert forall s :: 0 <= s < |segments| - 1 ==> segments[1..][s] == segments[s + 1];
    }
  }

  lemma {:induction false} NoNumberNoFrames(who: Identity, classes: seq<DeviceType>, builds: Builder)
    ensures SweepFrames(who, classes, None, builds) == []
  {
    if classes != [] { NoNumberNoFrames(who, classes[..|classes| - 1], builds); }
  }

  // --- A command and its counter ---

  /** One performed command: the counter events it amounted to, what it left in the log, and the counter before and
      after. */
  datatype Deed = Deed(before: Cell, steps: seq<Event>, segment: seq<TxEvent>, after: Cell)

  /** The copies of a log on air, as copies of the command numbered `command`. */
  function Copies(log: seq<TxEvent>, command: nat): seq<Copy> {
    if log == [] then []
    else
      var e := log[|log| - 1];
      Copies(log[..|log| - 1], command) + if e.OnAir? then [Copy(command, e.frame.sequence)] else []
  }

  function Handed(segment: seq<TxEvent>): seq<U16> {
    if Number(segment).Some? then [Number(segment).value] else []
  }

  /** A hub with that counter once the command is performed: at most one number handed out, and exactly the logged
      copies on air, all for this command. */
  function Performed(h: Hub, d: Deed): Hub {
    Hub(d.after, if Number(d.segment).Some? then Number(d.segment) else h.current,
        h.handed + Handed(d.segment), h.air + Copies(d.segment, |h.handed|))
  }

  predicate PowerStays(es: seq<Event>) { forall e :: e in es ==> !e.Boot? && !e.Crash? }

  /** How many copies some events put on air. */
  function Transmissions(es: seq<Event>): nat {
    if es == [] then 0 else Transmissions(es[..|es| - 1]) + if es[|es| - 1].Transmit? then 1 else 0
  }

  /** The command is a run of the counter machine that does to any hub with its counter just what the log says. A number
      is refused only when a new block was needed. */
  ghost predicate Performs(d: Deed) {
    && d.before.ram.On? && d.after.ram.On? && Took(d.before.ram.next, d.segment, d.after.ram.next)
    && (Number(d.segment).None? ==> d.before.ram.next == d.before.ram.reserved)
    && PowerStays(d.steps) && Transmissions(d.steps) == |Copies(d.segment, 0)|
    && forall h: Hub :: h.cell == d.before ==> Run(h, d.steps) == Performed(h, d)
  }

  function Transmits(n: nat): seq<Event> { seq(n, i => Transmit) }

  lemma {:induction false} TransmitsRun(h: Hub, n: nat, copies: seq<TxEvent>, q: U16)
    requires h.current == Some(q) && h.handed != [] && |copies| == n
    requires forall i :: 0 <= i < n ==> copies[i].OnAir? && copies[i].frame.sequence == q
    ensures Run(h, Transmits(n)) == h.(air := h.air + Copies(copies, |h.handed| - 1))
    decreases n
  {
    if n > 0 {
      TransmitsRun(h, n - 1, copies[..n - 1], q);
      RunConcat(h, Transmits(n - 1), [Transmit]);
      assert Transmits(n) == Transmits(n - 1) + [Transmit];
      var g := Run(h, Transmits(n - 1));
      assert Run(g, [Transmit]) == Run(Step(g, Transmit), []);
    }
  }

  lemma {:induction false} TransmissionsConcat(a: seq<Event>, b: seq<Event>)
    ensures Transmissions(a + b) == Transmissions(a) + Transmissions(b)
    decreases |b|
  {
    if b == [] {
      assert a + b == a;
    } else {
      var n := |b| - 1;
      assert (a + b)[..|a + b| - 1] == a + b[..n];
      TransmissionsConcat(a, b[..n]);
    }
  }

  lemma {:induction false} QuietTransmissions(steps: seq<Event>)
    requires forall e :: e in steps ==> !e.Transmit?
    ensures Transmissions(steps) == 0
    decreases |steps|
  {
    if steps != [] { QuietTransmissions(steps[..|steps| - 1]); }
  }

  lemma {:induction false} TransmitsCounted(n: nat)
    ensures Transmissions(Transmits(n)) == n
    decreases n
  {
    if n > 0 {
      assert Transmits(n)[..n - 1] == Transmits(n - 1);
      TransmitsCounted(n - 1);
    }
  }

  lemma {:induction false} CopiesCounted(copies: seq<TxEvent>, command: nat)
    requires forall i :: 0 <= i < |copies| ==> copies[i].OnAir?
    ensures |Copies(copies, command)| == |copies|
    decreases |copies|
  {
    if copies != [] { CopiesCounted(copies[..|copies| - 1], command); }
  }

  lemma DeedCounted(steps: seq<Event>, copies: seq<TxEvent>, report: TxEvent)
    requires report.Report? && forall e :: e in steps ==> !e.Transmit?
    requires forall i :: 0 <= i < |copies| ==> copies[i].OnAir?
    ensures Transmissions(steps + Transmits(|copies|)) == |Copies(copies + [report], 0)|
  {
    TransmissionsConcat(steps, Transmits(|copies|));
    QuietTransmissions(steps);
    TransmitsCounted(|copies|);
    assert (copies + [report])[..|copies|] == copies;
    CopiesCounted(copies, 0);
  }

  /** What events without power loss or transmission do to any hub with that counter. */
  lemma {:induction false} QuietRun(h: Hub, es: seq<Event>)
    requires PowerStays(es) && forall e :: e in es ==> !e.Transmit?
    ensures var outs := CellRun(h.cell, es).1;
            Run(h, es) == Hub(CellRun(h.cell, es).0, if outs == [] then h.current else Some(outs[|outs| - 1]),
                              h.handed + outs, h.air)
    decreases |es|
  {
    if es != [] { QuietRun(Step(h, es[0]), es[1..]); }
  }

  lemma {:induction false} CopiesConcat(a: seq<TxEvent>, b: seq<TxEvent>, command: nat)
    ensures Copies(a + b, command) == Copies(a, command) + Copies(b, command)
  {
    if b == [] {
      assert a + b == a;
    } else {
      var n := |b| - 1;
      assert (a + b)[..|a + b| - 1] == a + b[..n];
      CopiesConcat(a, b[..n], command);
    }
  }

  /** The counter steps of a reservation, successful or not. */
  ghost predicate Reserved(before: Cell, steps: seq<Event>, after: Cell, number: Option<U16>) {
    && before.ram.On? && after.ram.On? && PowerStays(steps) && (forall e :: e in steps ==> !e.Transmit?)
    && CellRun(before, steps) == (after, if number.Some? then [number.value] else [])
    && match number
       case Some(q) => q == before.ram.next && after.ram.next == (q + 1) % RING
       case None => after.ram.next == before.ram.next && before.ram.next == before.ram.reserved
  }

  lemma DeedRun(h: Hub, d: Deed, steps: seq<Event>, copies: seq<TxEvent>, report: TxEvent)
    requires h.cell == d.before && PowerStays(steps) && forall e :: e in steps ==> !e.Transmit?
    requires report.Report? && d.segment == copies + [report] && d.steps == steps + Transmits(|copies|)
    requires CellRun(d.before, steps) == (d.after, Handed([report])) && (copies != [] ==> report.reserved)
    requires forall i :: 0 <= i < |copies| ==> copies[i].OnAir? && copies[i].frame.sequence == report.sequence
    ensures Run(h, d.steps) == Performed(h, d)
  {
    QuietRun(h, steps);
    RunConcat(h, steps, Transmits(|copies|));
    var g := Run(h, steps);
    assert (copies + [report])[..|copies|] == copies;
    if copies == [] {
      assert Transmits(|copies|) == [] && Run(g, []) == g;
      assert Copies(d.segment, |h.handed|) == [] && h.air + [] == h.air;
    } else {
      TransmitsRun(g, |copies|, copies, report.sequence);
    }
  }

  lemma SegmentEnd(copies: seq<TxEvent>, report: TxEvent)
    requires report.Report?
    ensures var log := copies + [report];
            && log != [] && log[|log| - 1] == report && log[..|log| - 1] == copies
            && Number(log) == (if report.reserved then Some(report.sequence) else None)
            && Reported(log) == report.transmitted
  {
  }

  lemma DeedStays(steps: seq<Event>, n: nat)
    requires PowerStays(steps)
    ensures PowerStays(steps + Transmits(n))
  {
  }

  /** Those steps and then one transmission per copy are a performed command. */
  lemma DeedDone(before: Cell, steps: seq<Event>, after: Cell, copies: seq<TxEvent>, report: TxEvent) returns (d: Deed)
    requires report.Report? && Reserved(before, steps, after, if report.reserved then Some(report.sequence) else None)
    requires copies != [] ==> report.reserved
    requires forall i :: 0 <= i < |copies| ==> copies[i].OnAir? && copies[i].frame.sequence == report.sequence
    ensures d.segment == copies + [report] && d.before == before && d.after == after && Performs(d)
  {
    d := Deed(before, steps + Transmits(|copies|), copies + [report], after);
    DeedCounted(steps, copies, report);
    DeedStays(steps, |copies|);
    SegmentEnd(copies, report);
    forall h: Hub | h.cell == before ensures Run(h, d.steps) == Performed(h, d) {
      DeedRun(h, d, steps, copies, report);
    }
  }

  /** The report of an attempted step. */
  function ReportOf(who: Identity, number: Option<U16>, intent: string, transmitted: bool): TxEvent {
    Report(who.id, intent, if number.Some? then number.value else 0, number.Some?, transmitted)
  }

  /** All frames of a command carry its number. */
  ghost predicate UnderNumber(frames: seq<Frame>, number: Option<U16>) {
    forall i :: 0 <= i < |frames| ==> number == Some(frames[i].sequence)
  }

  lemma SweepUnderNumber(who: Identity, classes: seq<DeviceType>, number: Option<U16>, builds: Builder)
    ensures UnderNumber(SweepFrames(who, classes, number, builds), number)
  {
    SweepKind(who, classes, number, builds);
  }

  lemma BurstsUnderNumber(copies: seq<TxEvent>, frames: seq<Frame>, number: Option<U16>)
    requires Bursts(copies, frames) && UnderNumber(frames, number)
    ensures forall i :: 0 <= i < |copies| ==> copies[i].OnAir? && number == Some(copies[i].frame.sequence)
  {
    forall i | 0 <= i < |copies| ensures copies[i].OnAir? && number == Some(copies[i].frame.sequence) {
      assert copies[i].frame == frames[i / BURST_REPEATS];
    }
  }

  /** A reservation, the bursts of its frames and one report make a performed command and its segment. */
  lemma Concluded(who: Identity, number: Option<U16>, intent: string, transmitted: bool,
                  before: Cell, steps: seq<Event>, after: Cell, copies: seq<TxEvent>, frames: seq<Frame>,
                  log: seq<TxEvent>)
      returns (d: Deed)
    requires Reserved(before, steps, after, number)
    requires Bursts(copies, frames) && (transmitted <==> SomeCopySent(copies)) && UnderNumber(frames, number)
    ensures log + copies + [ReportOf(who, number, intent, transmitted)] == log + d.segment
    ensures Segment(d.segment, who, frames) && Number(d.segment) == number && Reported(d.segment) == transmitted
    ensures Performs(d) && d.before == before && d.after == after
  {
    var report := ReportOf(who, number, intent, transmitted);
    BurstsUnderNumber(copies, frames, number);
    assert copies != [] ==> copies[0].OnAir?;
    d := DeedDone(before, steps, after, copies, report);
    SegmentEnd(copies, report);
    assert log + copies + [report] == log + (copies + [report]);
  }

  // --- One number per command ---

  /** Commands of one address in turn; in between, other addresses may have settled its staged value. */
  ghost predicate InTurn(deeds: seq<Deed>) {
    && (forall k :: 0 <= k < |deeds| ==> Performs(deeds[k]))
    && forall k :: 0 < k < |deeds| ==> Disturbed(deeds[k - 1].after, deeds[k].before)
  }

  /** A gesture as deeds: its segments in turn, from one counter to another. */
  ghost predicate Trail(deeds: seq<Deed>, segments: seq<seq<TxEvent>>, before: Cell, after: Cell) {
    && InTurn(deeds) && |deeds| == |segments| > 0
    && (forall k :: 0 <= k < |deeds| ==> deeds[k].segment == segments[k])
    && deeds[0].before == before && deeds[|deeds| - 1].after == after
  }

  lemma TrailTwo(a: Deed, b: Deed)
    requires Performs(a) && Performs(b) && a.after == b.before
    ensures Trail([a, b], [a.segment, b.segment], a.before, b.after)
  {
    assert Disturbed(a.after, b.before);
  }

  lemma TrailFour(a: Deed, b: Deed, c: Deed, d: Deed)
    requires Performs(a) && Performs(b) && Performs(c) && Performs(d)
    requires a.after == b.before && b.after == c.before && c.after == d.before
    ensures Trail([a, b, c, d], [a.segment, b.segment, c.segment, d.segment], a.before, d.after)
  {
    assert Disturbed(a.after, b.before) && Disturbed(b.after, c.before) && Disturbed(c.after, d.before);
  }

  /** 1 if flash refused the command a number. */
  function Refused(d: Deed): nat { if Number(d.segment).Some? then 0 else 1 }

  /** How many commands flash refused a number. */
  function Refusals(segments: seq<seq<TxEvent>>): nat {
    if segments == [] then 0
    else Refusals(segments[..|segments| - 1]) + if Number(segments[|segments| - 1]).Some? then 0 else 1
  }

  lemma RefusalsTwo(a: seq<TxEvent>, b: seq<TxEvent>)
    ensures Refusals([a, b]) == (if Number(a).Some? then 0 else 1) + if Number(b).Some? then 0 else 1
  {
    assert [a, b][..1] == [a] && [a][..0] == [];
    assert Refusals([a]) == Refusals([]) + if Number(a).Some? then 0 else 1;
  }

  lemma RefusalsFour(a: seq<TxEvent>, b: seq<TxEvent>, c: seq<TxEvent>, d: seq<TxEvent>)
    ensures Refusals([a, b, c, d]) ==
      Refusals([a, b]) + (if Number(c).Some? then 0 else 1) + if Number(d).Some? then 0 else 1
  {
    assert [a, b, c, d][..3] == [a, b, c] && [a, b, c][..2] == [a, b];
  }

  /** How many of the deeds from `s` up to `t` took a number. */
  function Taken(deeds: seq<Deed>, s: nat, t: nat): (n: nat)
    requires s <= t <= |deeds|
    ensures n <= t - s
    decreases t - s
  {
    if s == t then 0 else Taken(deeds, s, t - 1) + if Number(deeds[t - 1].segment).Some? then 1 else 0
  }

  lemma {:induction false} NumberAt(deeds: seq<Deed>, s: nat, t: nat)
    requires InTurn(deeds) && s <= t < |deeds|
    ensures deeds[t].before.ram.next == (deeds[s].before.ram.next + Taken(deeds, s, t)) % RING
    ensures s < t && Number(deeds[s].segment).Some? ==> Taken(deeds, s, t) >= 1
    decreases t - s
  {
    if s < t {
      NumberAt(deeds, s, t - 1);
      assert Performs(deeds[t - 1]) && Performs(deeds[t]) && Disturbed(deeds[t - 1].after, deeds[t].before);
      AddMod(deeds[s].before.ram.next + Taken(deeds, s, t - 1), 1);
    } else {
      assert Performs(deeds[s]);
    }
  }

  lemma RingGap(n: U16, d: nat)
    requires 0 < d < RING
    ensures ((n + d) % RING - n) % RING == d
  {
    assert (n + d) % RING - n == d + RING * -((n + d) / RING);
  }

  /** Over any number of commands of one address, fewer than a whole ring apart, whatever fails and whatever other
      addresses do in between: a later command's number lies strictly after an earlier one's, by at most the commands in
      between. */
  lemma LaterIsAfter(deeds: seq<Deed>, s: nat, t: nat)
    requires InTurn(deeds) && s < t < |deeds| && t - s < RING
    requires Number(deeds[s].segment).Some? && Number(deeds[t].segment).Some?
    ensures After(Number(deeds[s].segment).value, Number(deeds[t].segment).value, t - s)
  {
    NumberAt(deeds, s, t);
    assert Performs(deeds[s]) && Performs(deeds[t]);
    RingGap(deeds[s].before.ram.next, Taken(deeds, s, t));
  }

  /** So no two commands of up to 65536 in turn share a number. */
  lemma NumbersRise(deeds: seq<Deed>, segments: seq<seq<TxEvent>>)
    requires InTurn(deeds) && |deeds| == |segments| <= RING
    requires forall k :: 0 <= k < |deeds| ==> deeds[k].segment == segments[k]
    ensures Rising(segments)
    ensures forall s, t :: 0 <= s < t < |segments| && Number(segments[s]).Some? ==>
              Number(segments[s]) != Number(segments[t])
  {
    forall s, t | 0 <= s < t < |segments| && Number(segments[s]).Some? && Number(segments[t]).Some?
      ensures After(Number(segments[s]).value, Number(segments[t]).value, t - s)
    {
      LaterIsAfter(deeds, s, t);
    }
  }

  /** What a finished gesture amounts to, whichever steps it got to. */
  ghost predicate Finished(g: Gesture, who: Identity, builds: Builder, segments: seq<seq<TxEvent>>, deeds: seq<Deed>,
                           before: Cell, after: Cell) {
    && |segments| in {2, 4} && Gestured(segments, g, who, builds) && Rising(segments)
    && Trail(deeds, segments, before, after)
    && (SentStep(Flatten(segments), Enroll) <==> Reported(segments[1]))
    && (AttemptedStep(Flatten(segments), Stop) || AttemptedStep(Flatten(segments), Down) ==> |segments| == 4)
  }

  lemma FinishedTwo(g: Gesture, who: Identity, builds: Builder, log: seq<TxEvent>, a: Deed, b: Deed)
      returns (segments: seq<seq<TxEvent>>, deeds: seq<Deed>)
    requires Performs(a) && Performs(b) && a.after == b.before
    requires Segment(a.segment, who, GestureFrames(g, who, 0, Number(a.segment), builds))
    requires Segment(b.segment, who, GestureFrames(g, who, 1, Number(b.segment), builds))
    ensures Finished(g, who, builds, segments, deeds, a.before, b.after)
    ensures |segments| == 2 && segments[1] == b.segment
    ensures log + a.segment + b.segment == log + Flatten(segments)
    ensures Refusals(segments) == Refused(a) + Refused(b)
  {
    segments, deeds := [a.segment, b.segment], [a, b];
    RefusalsTwo(a.segment, b.segment);
    FlattenTwo(a.segment, b.segment);
    TrailTwo(a, b);
    NumbersRise(deeds, segments);
    FlattenedSteps(segments, g, who, builds);
    assert log + a.segment + b.segment == log + (a.segment + b.segment);
  }

  lemma FinishedFour(g: Gesture, who: Identity, builds: Builder, log: seq<TxEvent>, a: Deed, b: Deed, c: Deed, d: Deed)
      returns (segments: seq<seq<TxEvent>>, deeds: seq<Deed>)
    requires Performs(a) && Performs(b) && Performs(c) && Performs(d)
    requires a.after == b.before && b.after == c.before && c.after == d.before
    requires Segment(a.segment, who, GestureFrames(g, who, 0, Number(a.segment), builds))
    requires Segment(b.segment, who, GestureFrames(g, who, 1, Number(b.segment), builds))
    requires Segment(c.segment, who, GestureFrames(g, who, 2, Number(c.segment), builds))
    requires Segment(d.segment, who, GestureFrames(g, who, 3, Number(d.segment), builds))
    ensures Finished(g, who, builds, segments, deeds, a.before, d.after)
    ensures |segments| == 4 && segments[1] == b.segment
    ensures log + a.segment + b.segment + c.segment + d.segment == log + Flatten(segments)
    ensures Refusals(segments) == Refused(a) + Refused(b) + Refused(c) + Refused(d)
  {
    segments, deeds := [a.segment, b.segment, c.segment, d.segment], [a, b, c, d];
    RefusalsTwo(a.segment, b.segment);
    RefusalsFour(a.segment, b.segment, c.segment, d.segment);
    FlattenFour(a.segment, b.segment, c.segment, d.segment);
    TrailFour(a, b, c, d);
    NumbersRise(deeds, segments);
    FlattenedSteps(segments, g, who, builds);
    FourInARow(log, a.segment, b.segment, c.segment, d.segment);
  }

  lemma FourInARow<T>(log: seq<T>, a: seq<T>, b: seq<T>, c: seq<T>, d: seq<T>)
    ensures log + a + b + c + d == log + (a + b + c + d)
  {
  }

  // --- An enrollment in the log ---

  /** What a single-frame command leaves in the log: four copies of its frame under the reported number, if a number was
      reserved and the frame can be built, and then its report. */
  ghost predicate CommandLogged(log: seq<TxEvent>, who: Identity, kind: Kind, builds: Builder) {
    && log != []
    && var report := log[|log| - 1];
    && report.Report? && report.id == who.id
    && (if report.reserved && builds(Frame(who.nodeId, kind, report.sequence)) then |log| == 5 else |log| == 1)
    && (forall i :: 0 <= i < |log| - 1 ==>
          log[i].OnAir? && log[i].frame.src == who.nodeId && log[i].frame.kind == kind
          && log[i].frame.sequence == report.sequence)
    && (report.transmitted <==> exists i :: 0 <= i < |log| - 1 && log[i].OnAir? && log[i].sent)
  }

  /** Those of three classes that a sweep has a frame for, in order. */
  function Swept(who: Identity, a: DeviceType, b: DeviceType, c: DeviceType, report: TxEvent, builds: Builder)
      : seq<DeviceType>
    requires report.Report?
  {
    (if a != UNKNOWN && report.reserved && builds(Frame(who.nodeId, Add(a), report.sequence)) then [a] else [])
    + (if b != UNKNOWN && report.reserved && builds(Frame(who.nodeId, Add(b), report.sequence)) then [b] else [])
    + (if c != UNKNOWN && report.reserved && builds(Frame(who.nodeId, Add(c), report.sequence)) then [c] else [])
  }

  /** What a sweep over three classes leaves in the log: four copies of one 0x30 after the other, then its report. */
  ghost predicate SweepLogged(log: seq<TxEvent>, who: Identity, a: DeviceType, b: DeviceType, c: DeviceType,
                              builds: Builder) {
    && log != []
    && var report := log[|log| - 1];
    && report.Report? && report.id == who.id
    && var swept := Swept(who, a, b, c, report, builds);
    && |log| == 4 * |swept| + 1
    && (forall i :: 0 <= i < |log| - 1 ==>
          log[i].OnAir? && log[i].frame.src == who.nodeId && log[i].frame.kind == Add(swept[i / 4])
          && log[i].frame.sequence == report.sequence)
    && (report.transmitted <==> exists i :: 0 <= i < |log| - 1 && log[i].OnAir? && log[i].sent)
  }

  /** Some copy of a 0x30 went out. */
  ghost predicate AddSent(log: seq<TxEvent>) {
    exists i :: 0 <= i < |log| && log[i].OnAir? && log[i].sent && log[i].frame.kind.Add?
  }

  /** The VELUX gesture: 0x39 to no class, one 0x30 per configured class, and STOP and DOWN if a 0x30 went out. */
  ghost predicate VeluxLogged(segments: seq<seq<TxEvent>>, who: Identity, builds: Builder) {
    && |segments| >= 2
    && CommandLogged(segments[0], who, Remove(UNKNOWN), builds)
    && (if who.enrollmentClasses != (UNKNOWN, UNKNOWN, UNKNOWN)
        then SweepLogged(segments[1], who, who.enrollmentClasses.0, who.enrollmentClasses.1, who.enrollmentClasses.2,
                         builds)
        else SweepLogged(segments[1], who, RollerShutter, Awning, DualShutter, builds))
    && |segments| == (if AddSent(segments[1]) then 4 else 2)
    && (|segments| == 4 ==>
          CommandLogged(segments[2], who, ExecuteStop, builds) && CommandLogged(segments[3], who, ExecuteDown, builds))
  }

  /** The SOMFY gesture: 0x39 and 0x30 to the identity's own class, and nothing else. */
  ghost predicate SomfyLogged(segments: seq<seq<TxEvent>>, who: Identity, builds: Builder) {
    && |segments| == 2
    && CommandLogged(segments[0], who, Remove(who.deviceType), builds)
    && CommandLogged(segments[1], who, Add(who.deviceType), builds)
  }

  lemma SendLogged(log: seq<TxEvent>, who: Identity, kind: Kind, builds: Builder)
    requires Segment(log, who, SendFrames(who, kind, Number(log), builds))
    ensures CommandLogged(log, who, kind, builds)
  {
    InPlace(log);
  }

  /** Copies of a segment are where the segment has them. */
  lemma InPlace(log: seq<TxEvent>)
    requires log != []
    ensures forall i :: 0 <= i < |log| - 1 ==> log[..|log| - 1][i] == log[i]
    ensures SomeCopySent(log[..|log| - 1]) <==> exists i :: 0 <= i < |log| - 1 && log[i].OnAir? && log[i].sent
  {
    var copies := log[..|log| - 1];
    assert forall i :: 0 <= i < |log| - 1 ==> copies[i] == log[i];
  }

  lemma ThreeSwept(who: Identity, a: DeviceType, b: DeviceType, c: DeviceType, report: TxEvent, builds: Builder)
    requires report.Report?
    ensures var frames := SweepFrames(who, [a, b, c], Number([report]), builds);
            var swept := Swept(who, a, b, c, report, builds);
            && |frames| == |swept|
            && forall i :: 0 <= i < |swept| ==> frames[i] == Frame(who.nodeId, Add(swept[i]), report.sequence)
  {
    assert [a, b, c][..2] == [a, b] && [a, b][..1] == [a] && [a][..0] == [];
    var number := Number([report]);
    assert SweepFrames(who, [a], number, builds) ==
      SweepFrames(who, [], number, builds) + if a != UNKNOWN then SendFrames(who, Add(a), number, builds) else [];
    assert SweepFrames(who, [a, b], number, builds) ==
      SweepFrames(who, [a], number, builds) + if b != UNKNOWN then SendFrames(who, Add(b), number, builds) else [];
  }

  lemma SweepIsLogged(log: seq<TxEvent>, who: Identity, a: DeviceType, b: DeviceType, c: DeviceType, builds: Builder)
    requires Segment(log, who, SweepFrames(who, [a, b, c], Number(log), builds))
    ensures SweepLogged(log, who, a, b, c, builds)
    ensures AddSent(log) <==> Reported(log)
  {
    var report := log[|log| - 1];
    assert Number(log) == Number([report]);
    ThreeSwept(who, a, b, c, report, builds);
    InPlace(log);
  }

  /** A finished gesture of a VELUX identity, followed up if and only if its sweep was reported, in the log. */
  lemma VeluxIsLogged(segments: seq<seq<TxEvent>>, who: Identity, builds: Builder)
    requires Gestured(segments, EnrollGesture(1), who, builds) && who.manufacturer == 1
    requires |segments| >= 2 && |segments| == if Reported(segments[1]) then 4 else 2
    ensures VeluxLogged(segments, who, builds)
  {
    var cs := EffectiveClasses(who);
    SendLogged(segments[0], who, Remove(UNKNOWN), builds);
    SweepIsLogged(segments[1], who, cs.0, cs.1, cs.2, builds);
    if |segments| == 4 {
      SendLogged(segments[2], who, ExecuteStop, builds);
      SendLogged(segments[3], who, ExecuteDown, builds);
    }
  }

  lemma SomfyIsLogged(segments: seq<seq<TxEvent>>, who: Identity, builds: Builder)
    requires Gestured(segments, EnrollGesture(who.manufacturer), who, builds) && who.manufacturer != 1
    requires |segments| == 2
    ensures SomfyLogged(segments, who, builds)
  {
    SendLogged(segments[0], who, Remove(who.deviceType), builds);
    SendLogged(segments[1], who, Add(who.deviceType), builds);
  }
}
