/** Channel rotation and the one listen loop every blocking wait is built on. */
module Listening {
  import opened RadioLink
  import opened Words

  // --- Channel rotation ---

  function Rotate(f: Word): Word {
    if f == FREQ_CH1 then FREQ_CH2 else if f == FREQ_CH3 then FREQ_CH1 else FREQ_CH3
  }

  function Hop(f: Word, skip: Word): Word {
    var next := Rotate(f); if next == skip then Rotate(next) else next
  }

  predicate IsChannel(f: Word) { f == FREQ_CH1 || f == FREQ_CH2 || f == FREQ_CH3 }

  /** From any frequency one hop lands on a channel that is not the skipped one, the next in turn if nothing is
      skipped; without a skip three hops visit all three channels, and with a channel skipped two hops visit both
      others. */
  lemma HopCovers(f: Word, skip: Word)
    ensures var a := Hop(f, skip);
            var b := Hop(a, skip);
            var c := Hop(b, skip);
            && IsChannel(a) && a != skip
            && (!IsChannel(skip) ==>
                  a == if f == 868250000 then 868950000 else if f == 869850000 then 868250000 else 869850000)
            && (!IsChannel(skip) ==> a != b && b != c && c != a)
            && (IsChannel(skip) ==> a != b && c == a && b != skip)
  {
  }

  // --- Listening ---

  datatype Policy = HOLD_REQUEST_CHANNEL | ROTATE_ALL_CHANNELS | ROTATE_SKIPPING_REQUEST

  datatype Disposition = ACCEPT | IGNORE | ABORT

  datatype ListenOutcome = ACCEPTED | ABORTED | TIMED_OUT

  const LINGER_LIMIT := 0x10_0000

  datatype ListenSpec = ListenSpec(window: Word, policy: Policy, requestFreq: Word := 0, dwell: Word := 0,
                                   hopAfterIgnored: bool := true, linger: bool := false, lingerDwell: Word := 0)

  /** A dwell of 0 asks the driver. */
  function Resolved(s: ListenSpec, driverDwell: U16): ListenSpec {
    if s.dwell == 0 then s.(dwell := driverDwell) else s
  }

  predicate Rotating(s: ListenSpec) { s.policy != HOLD_REQUEST_CHANNEL }

  function Skip(s: ListenSpec): Word { if s.policy == ROTATE_SKIPPING_REQUEST then s.requestFreq else 0 }

  /** The channel tuned after these events, starting on `f0`. */
  function FreqAt(f0: Word, seg: seq<RadioEvent>): Word {
    if seg == [] then f0
    else if seg[|seg| - 1].Retuned? then seg[|seg| - 1].freq else FreqAt(f0, seg[..|seg| - 1])
  }

  /** What the radio delivered, in order. */
  function Deliveries(seg: seq<RadioEvent>): seq<Reception> {
    if seg == [] then []
    else
      var e := seg[|seg| - 1];
      Deliveries(seg[..|seg| - 1]) + if e.Waited? && e.heard != Nothing then [e.heard] else []
  }

  /** The dwell just ended has been served: a frame the handler ignored counts only if the listen hops after those. */
  predicate DwellServed(before: seq<RadioEvent>, s: ListenSpec) {
    && Rotating(s) && before != [] && before[|before| - 1].Waited?
    && (before[|before| - 1].heard == Nothing || s.hopAfterIgnored)
  }

  predicate Looked(e: RadioEvent, incoming: bool) { e.Sensed? && e.incoming == incoming }

  /** The next wait extends a dwell that brought nothing and ended in a sign of an incoming frame. */
  predicate Lingering(before: seq<RadioEvent>) {
    var n := |before|;
    n > 1 && Looked(before[n - 1], true) && before[n - 2].Waited? && before[n - 2].heard == Nothing
  }

  /** The last wait was such an extension. */
  predicate Lingered(before: seq<RadioEvent>) { before != [] && Lingering(before[..|before| - 1]) }

  /** How long to wait now: the rest of the window while holding, a dwell of it while rotating, and an extension never
      past the window unless the window is over already. */
  function Slice(before: seq<RadioEvent>, s: ListenSpec): int {
    var left := s.window - Lasted(before);
    if Lingering(before) then (if 0 <= left < s.lingerDwell then left else s.lingerDwell)
    else if Rotating(s) && s.dwell < left then s.dwell
    else left
  }

  /** No hop is owed: the request channel has been left, the last look was not quiet, and the last dwell was not served
      or has had its extension. */
  predicate NoHopOwed(before: seq<RadioEvent>, s: ListenSpec) {
    && (before == [] ==> s.policy != ROTATE_SKIPPING_REQUEST)
    && (before != [] ==> !Looked(before[|before| - 1], false))
    && (DwellServed(before, s) ==> Lingered(before))
  }

  predicate InTime(before: seq<RadioEvent>, s: ListenSpec) { Lasted(before) < s.window }

  /** A hop is due: off the request channel first, then after each quiet look, or after each served dwell of a listen
      that does not look. */
  predicate MayHop(before: seq<RadioEvent>, s: ListenSpec) {
    && Rotating(s)
    && if before == [] then s.policy == ROTATE_SKIPPING_REQUEST
       else if s.linger then Looked(before[|before| - 1], false)
       else DwellServed(before, s) && !Lingered(before) && InTime(before, s)
  }

  /** What a listen does after the events `before`: waits its slice where it is tuned, never on a skipped request
      channel; and once per served dwell, if there is time left, it hops along the rotation, when lingering only after
      a look that saw neither preamble nor sync. Only the hop that leaves the request channel comes first. */
  ghost predicate Proper(before: seq<RadioEvent>, e: RadioEvent, s: ListenSpec, f0: Word) {
    match e
    case Waited(f, ms, _, _) =>
      && NoHopOwed(before, s) && (Lingering(before) || InTime(before, s))
      && f == FreqAt(f0, before) && ms == Slice(before, s)
      && (s.policy == HOLD_REQUEST_CHANNEL ==> f == f0)
      && (s.policy == ROTATE_SKIPPING_REQUEST ==> f != s.requestFreq)
    case Retuned(f, _) =>
      f == Hop(FreqAt(f0, before), Skip(s)) && MayHop(before, s)
    case Sensed(_, _) => s.linger && DwellServed(before, s) && !Lingered(before) && InTime(before, s)
    case Sent(_, _, _, _, _) => false
  }

  ghost predicate Disciplined(seg: seq<RadioEvent>, s: ListenSpec, f0: Word) {
    forall i :: 0 <= i < |seg| ==> Proper(seg[..i], seg[i], s, f0)
  }

  lemma Extend(seg: seq<RadioEvent>, e: RadioEvent, s: ListenSpec, f0: Word)
    requires Disciplined(seg, s, f0) && Proper(seg, e, s, f0)
    ensures Disciplined(seg + [e], s, f0)
    ensures FreqAt(f0, seg + [e]) == if e.Retuned? then e.freq else FreqAt(f0, seg)
    ensures Deliveries(seg + [e]) == Deliveries(seg) + if e.Waited? && e.heard != Nothing then [e.heard] else []
    ensures Lasted(seg + [e]) == Lasted(seg) + if e.Sent? then 0 else e.took
  {
    LastedGrows(seg, e);
    var all := seg + [e];
    assert all[..|seg|] == seg;
    forall i | 0 <= i < |all| ensures Proper(all[..i], all[i], s, f0) { assert i < |seg| ==> all[..i] == seg[..i]; }
  }

  /** Read off a disciplined listen: holding never retunes; skipping never waits on the request channel; and no hop
      after the first event of a lingering listen follows anything but a look that saw neither preamble nor sync. */
  lemma NeverCutsOff(seg: seq<RadioEvent>, s: ListenSpec, f0: Word)
    requires Disciplined(seg, s, f0)
    ensures s.policy == HOLD_REQUEST_CHANNEL ==> forall e :: e in seg ==> e.Waited? && e.freq == f0
    ensures s.policy == ROTATE_SKIPPING_REQUEST ==> forall e :: e in seg && e.Waited? ==> e.freq != s.requestFreq
    ensures s.linger ==> forall i :: 0 < i < |seg| && seg[i].Retuned? ==> Looked(seg[i - 1], false)
  {
    forall i | 0 <= i < |seg|
      ensures Proper(seg[..i], seg[i], s, f0) && (i > 0 ==> seg[..i][i - 1] == seg[i - 1])
    {
    }
  }

  /** The `i`th event waits as long as the spec asks: all the time left on the request channel, else one dwell of it,
      the driver's if the spec gives none, and a linger dwell when a frame was seen coming in after nothing was
      heard. */
  predicate WaitedRight(seg: seq<RadioEvent>, i: nat, spec: ListenSpec, driverDwell: U16)
    requires i < |seg| && seg[i].Waited?
  {
    var left := spec.window - Lasted(seg[..i]);
    var dwell := if spec.dwell == 0 then driverDwell else spec.dwell;
    if i > 1 && seg[i - 1].Sensed? && seg[i - 1].incoming && seg[i - 2].Waited? && seg[i - 2].heard == Nothing
    then seg[i].ms == if 0 <= left < spec.lingerDwell then left else spec.lingerDwell
    else 0 < left && seg[i].ms == if spec.policy == HOLD_REQUEST_CHANNEL || left <= dwell then left else dwell
  }

  ghost predicate AllWaitedRight(seg: seq<RadioEvent>, spec: ListenSpec, driverDwell: U16) {
    forall i :: 0 <= i < |seg| && seg[i].Waited? ==> WaitedRight(seg, i, spec, driverDwell)
  }

  lemma WaitsItsSlices(seg: seq<RadioEvent>, spec: ListenSpec, driverDwell: U16, f0: Word)
    requires Disciplined(seg, Resolved(spec, driverDwell), f0)
    ensures AllWaitedRight(seg, spec, driverDwell)
  {
    forall i | 0 <= i < |seg| && seg[i].Waited? ensures WaitedRight(seg, i, spec, driverDwell) {
      WaitsItsSlice(seg, i, spec, driverDwell, f0);
    }
  }

  lemma WaitsItsSlice(seg: seq<RadioEvent>, i: nat, spec: ListenSpec, driverDwell: U16, f0: Word)
    requires Disciplined(seg, Resolved(spec, driverDwell), f0) && i < |seg| && seg[i].Waited?
    ensures WaitedRight(seg, i, spec, driverDwell)
  {
    assert Proper(seg[..i], seg[i], Resolved(spec, driverDwell), f0);
    if i > 0 { assert seg[..i][i - 1] == seg[i - 1]; }
    if i > 1 { assert seg[..i][i - 2] == seg[i - 2]; }
  }

  /** What comes after each event of a disciplined listen that goes on: after a hop or a sign of a frame a wait, after
      a quiet look a hop; and a wait that brought nothing on a rotating listen, or a packet if the listen hops after
      those, ends a dwell, with a look if the listen lingers and else with a hop, unless it was an extension itself. */
  lemma DwellsEnd(seg: seq<RadioEvent>, s: ListenSpec, f0: Word, i: nat)
    requires Disciplined(seg, s, f0) && 0 < i < |seg|
    ensures seg[i - 1].Retuned? ==> seg[i].Waited?
    ensures seg[i - 1].Sensed? ==> if seg[i - 1].incoming then seg[i].Waited? else seg[i].Retuned?
    ensures seg[i - 1].Waited? && s.policy != HOLD_REQUEST_CHANNEL
            && (seg[i - 1].heard == Nothing || s.hopAfterIgnored) ==>
      if i > 2 && seg[i - 2].Sensed? && seg[i - 2].incoming && seg[i - 3].Waited? && seg[i - 3].heard == Nothing
      then seg[i].Waited? else if s.linger then seg[i].Sensed? else seg[i].Retuned?
    ensures seg[i - 1].Waited?
            && (s.policy == HOLD_REQUEST_CHANNEL || (seg[i - 1].heard != Nothing && !s.hopAfterIgnored)) ==>
      seg[i].Waited?
  {
    assert Proper(seg[..i], seg[i], s, f0);
    assert seg[..i][i - 1] == seg[i - 1] && seg[..i][..i - 1] == seg[..i - 1];
    if i > 1 { assert seg[..i][i - 2] == seg[i - 2] && seg[..i - 1][i - 2] == seg[i - 2]; }
    if i > 2 { assert seg[..i - 1][i - 3] == seg[i - 3]; }
  }

  /** The handler ignored everything before the last packet, and the outcome is its verdict on that one. */
  ghost predicate FirstDecides(handed: seq<Reception>, judge: Reception -> Disposition, outcome: ListenOutcome) {
    && (forall i :: 0 <= i < |handed| - 1 ==> judge(handed[i]) == IGNORE)
    && (outcome == ACCEPTED ==> handed != [] && judge(handed[|handed| - 1]) == ACCEPT)
    && (outcome == ABORTED ==> handed != [] && judge(handed[|handed| - 1]) == ABORT)
    && (outcome == TIMED_OUT && handed != [] ==> judge(handed[|handed| - 1]) == IGNORE)
  }

  /** The last thing the radio did was to deliver the last packet handed over. */
  ghost predicate EndsHearing(seg: seq<RadioEvent>, handed: seq<Reception>) {
    && seg != [] && seg[|seg| - 1].Waited? && seg[|seg| - 1].heard != Nothing
    && handed != [] && handed[|handed| - 1] == seg[|seg| - 1].heard
  }

  /** How long after its window a listen may still be busy. */
  function Overshoot(s: ListenSpec, t: Limits): nat {
    t.late + if Rotating(s) then s.lingerDwell + 2 * t.spi else 0
  }

  method HopFrequency(radio: Radio, skip: Word)
    modifies radio
    ensures old(radio.now) <= radio.now <= old(radio.now) + radio.limits.spi
    ensures radio.freq == Hop(old(radio.freq), skip)
    ensures radio.trace == old(radio.trace) + [Retuned(radio.freq, radio.now - old(radio.now))]
  {
    var next := Rotate(radio.freq);
    while next == skip
      invariant next == Rotate(radio.freq) || (next == Hop(radio.freq, skip) && next != skip)
      decreases next == skip
    {
      next := Rotate(next);
    }
    radio.ChangeFrequency(next);
  }

  /** Preamble or sync incoming; asks the radio only when the listen lingers. */
  method Incoming(radio: Radio, s: ListenSpec) returns (incoming: bool)
    modifies radio`now, radio`trace
    ensures old(radio.now) <= radio.now <= old(radio.now) + radio.limits.spi
    ensures radio.trace == old(radio.trace) + if s.linger then [Sensed(incoming, radio.now - old(radio.now))] else []
    ensures !s.linger ==> !incoming && radio.now == old(radio.now)
  {
    incoming := false;
    if s.linger { incoming := radio.Sense(); }
  }

  /** What the loop keeps between two looks at the clock; `t0`, `f0` and `start` are the trace, the channel and the time
      it began with. All time since then went into waits, hops and looks. */
  ghost predicate Listened(radio: Radio, seg: seq<RadioEvent>, handed: seq<Reception>, s: ListenSpec,
                           t0: seq<RadioEvent>, f0: Word, start: nat)
    reads radio
  {
    && radio.now == start + Lasted(seg)
    && radio.trace == t0 + seg && Disciplined(seg, s, f0)
    && radio.freq == FreqAt(f0, seg) && handed == Deliveries(seg)
    && (s.policy == HOLD_REQUEST_CHANNEL ==> radio.freq == f0)
  }

  ghost predicate OffRequestChannel(f: Word, s: ListenSpec) {
    s.policy == ROTATE_SKIPPING_REQUEST ==> f != s.requestFreq
  }

  /** A hop that is due. */
  lemma Hopped(seg: seq<RadioEvent>, e: RadioEvent, s: ListenSpec, f0: Word) returns (seg': seq<RadioEvent>)
    requires Disciplined(seg, s, f0) && MayHop(seg, s) && e.Retuned? && e.freq == Hop(FreqAt(f0, seg), Skip(s))
    ensures seg' == seg + [e] && Disciplined(seg', s, f0) && FreqAt(f0, seg') == e.freq
    ensures Deliveries(seg') == Deliveries(seg) && Lasted(seg') == Lasted(seg) + e.took && OffRequestChannel(e.freq, s)
    ensures s.policy != HOLD_REQUEST_CHANNEL
  {
    Extend(seg, e, s, f0);
    seg' := seg + [e];
    HopCovers(FreqAt(f0, seg), Skip(s));
  }

  method ListenHop(radio: Radio, s: ListenSpec, handed: seq<Reception>, ghost seg: seq<RadioEvent>,
                   ghost t0: seq<RadioEvent>, ghost f0: Word, ghost start: nat)
      returns (ghost seg': seq<RadioEvent>)
    requires MayHop(seg, s) && Listened(radio, seg, handed, s, t0, f0, start)
    modifies radio
    ensures old(radio.now) <= radio.now <= old(radio.now) + radio.limits.spi
    ensures Listened(radio, seg', handed, s, t0, f0, start) && OffRequestChannel(radio.freq, s)
    ensures seg' == seg + [Retuned(radio.freq, radio.now - old(radio.now))]
  {
    HopFrequency(radio, Skip(s));
    ghost var e := Retuned(radio.freq, radio.now - old(radio.now));
    seg' := Hopped(seg, e, s, f0);
    assert t0 + seg + [e] == t0 + seg';
  }

  /** Hops unless a frame is coming in; says whether it did. */
  method HopIfQuiet(radio: Radio, s: ListenSpec, handed: seq<Reception>, ghost seg: seq<RadioEvent>,
                    ghost t0: seq<RadioEvent>, ghost f0: Word, ghost start: nat)
      returns (quiet: bool, ghost seg': seq<RadioEvent>)
    requires DwellServed(seg, s) && !Lingered(seg) && InTime(seg, s)
    requires Listened(radio, seg, handed, s, t0, f0, start) && OffRequestChannel(radio.freq, s)
    modifies radio
    ensures old(radio.now) <= radio.now <= old(radio.now) + radio.limits.spi + if quiet then radio.limits.spi else 0
    ensures Listened(radio, seg', handed, s, t0, f0, start) && OffRequestChannel(radio.freq, s)
    ensures seg' != [] && if quiet then seg'[|seg'| - 1].Retuned? else
      Looked(seg'[|seg'| - 1], true) && seg'[..|seg'| - 1] == seg
  {
    var incoming := Incoming(radio, s);
    quiet, seg' := !incoming, seg;
    if s.linger {
      ghost var e := Sensed(incoming, radio.now - old(radio.now));
      Extend(seg, e, s, f0);
      seg' := seg + [e];
      assert t0 + seg + [e] == t0 + seg';
    }
    if quiet {
      seg' := ListenHop(radio, s, handed, seg', t0, f0, start);
    }
  }

  /** One wait: whatever is delivered is handed over at once. */
  method Hear(radio: Radio, ms: Word, s: ListenSpec, handed: seq<Reception>, ghost seg: seq<RadioEvent>,
              ghost t0: seq<RadioEvent>, ghost f0: Word, ghost start: nat)
      returns (heard: Reception, handed': seq<Reception>, ghost seg': seq<RadioEvent>)
    requires Listened(radio, seg, handed, s, t0, f0, start) && OffRequestChannel(radio.freq, s)
    requires NoHopOwed(seg, s) && (Lingering(seg) || InTime(seg, s)) && ms == Slice(seg, s)
    modifies radio
    ensures old(radio.now) + 1 <= radio.now <= old(radio.now) + ms + radio.limits.late
    ensures Listened(radio, seg', handed', s, t0, f0, start) && OffRequestChannel(radio.freq, s)
    ensures handed' == handed + if heard == Nothing then [] else [heard]
    ensures seg' == seg + [Waited(radio.freq, ms, heard, radio.now - old(radio.now))]
  {
    heard := radio.Wait(ms);
    handed' := if heard == Nothing then handed else handed + [heard];
    ghost var e := Waited(radio.freq, ms, heard, radio.now - old(radio.now));
    Extend(seg, e, s, f0);
    seg' := seg + [e];
    assert t0 + seg + [e] == t0 + seg';
  }

  /** The signed time left before the deadline of a listen that began at `start`. */
  method TimeRemaining(radio: Radio, deadline: Word, ghost start: nat, ghost window: Word) returns (left: int)
    requires deadline == Plus(start % WORD, window) && window < HALF && start <= radio.now <= start + window + HALF
    ensures left == start + window - radio.now
  {
    left := Signed(Minus(deadline, radio.Millis()));
    TimeLeft(start, window, radio.now);
  }

  ghost predicate AllIgnored(handed: seq<Reception>, judge: Reception -> Disposition) {
    forall i :: 0 <= i < |handed| ==> judge(handed[i]) == IGNORE
  }

  /** The handler's last verdict: it ignored everything, or everything but the packet that ends the listen. */
  ghost predicate Concluded(seg: seq<RadioEvent>, handed: seq<Reception>,
                            judge: Reception -> Disposition, v: Disposition) {
    if v == IGNORE then AllIgnored(handed, judge)
    else EndsHearing(seg, handed) && AllIgnored(handed[..|handed| - 1], judge) && judge(handed[|handed| - 1]) == v
  }

  /** One wait and the handler's verdict on what it brought. */
  method HearAndJudge(radio: Radio, ms: Word, s: ListenSpec, judge: Reception -> Disposition, handed: seq<Reception>,
                      ghost seg: seq<RadioEvent>, ghost t0: seq<RadioEvent>, ghost f0: Word, ghost start: nat)
      returns (heard: Reception, verdict: Disposition, handed': seq<Reception>, ghost seg': seq<RadioEvent>)
    requires Listened(radio, seg, handed, s, t0, f0, start) && OffRequestChannel(radio.freq, s)
    requires AllIgnored(handed, judge)
    requires NoHopOwed(seg, s) && (Lingering(seg) || InTime(seg, s)) && ms == Slice(seg, s)
    modifies radio
    ensures old(radio.now) + 1 <= radio.now <= old(radio.now) + ms + radio.limits.late
    ensures Listened(radio, seg', handed', s, t0, f0, start) && OffRequestChannel(radio.freq, s)
    ensures seg' == seg + [Waited(radio.freq, ms, heard, radio.now - old(radio.now))]
    ensures Concluded(seg', handed', judge, verdict)
    ensures heard == Nothing ==> verdict == IGNORE
  {
    heard, handed', seg' := Hear(radio, ms, s, handed, seg, t0, f0, start);
    verdict := if heard == Nothing then IGNORE else judge(heard);
    assert heard != Nothing ==> handed'[..|handed'| - 1] == handed;
  }

  /** The extension of a dwell that ended in preamble or sync: it hears what is coming in before any hop. */
  method Linger(radio: Radio, s: ListenSpec, judge: Reception -> Disposition, deadline: Word, handed: seq<Reception>,
                ghost seg: seq<RadioEvent>, ghost t0: seq<RadioEvent>, ghost f0: Word, ghost start: nat)
      returns (verdict: Disposition, handed': seq<Reception>, ghost seg': seq<RadioEvent>)
    requires Listened(radio, seg, handed, s, t0, f0, start) && OffRequestChannel(radio.freq, s)
    requires AllIgnored(handed, judge)
    requires Rotating(s) && s.lingerDwell < LINGER_LIMIT && s.window < HALF && deadline == Plus(start % WORD, s.window)
    requires start <= radio.now < start + s.window + radio.limits.spi && Lingering(seg) && NoHopOwed(seg, s)
    modifies radio
    ensures old(radio.now) < radio.now <= start + s.window + Overshoot(s, radio.limits)
    ensures Listened(radio, seg', handed', s, t0, f0, start) && OffRequestChannel(radio.freq, s)
    ensures NoHopOwed(seg', s) && !Lingering(seg')
    ensures Concluded(seg', handed', judge, verdict)
  {
    var remaining := Minus(deadline, radio.Millis());
    TimeLeft(start, s.window, radio.now);
    var heard;
    heard, verdict, handed', seg' :=
      HearAndJudge(radio, if remaining < s.lingerDwell then remaining else s.lingerDwell,
                   s, judge, handed, seg, t0, f0, start);
  }

  /** What follows a dwell with time left: a hop, a linger or neither. */
  method AfterDwell(radio: Radio, s: ListenSpec, judge: Reception -> Disposition, deadline: Word, heard: Reception,
                    handed: seq<Reception>, ghost seg: seq<RadioEvent>,
                    ghost t0: seq<RadioEvent>, ghost f0: Word, ghost start: nat)
      returns (verdict: Disposition, handed': seq<Reception>, ghost seg': seq<RadioEvent>)
    requires Listened(radio, seg, handed, s, t0, f0, start) && OffRequestChannel(radio.freq, s)
    requires AllIgnored(handed, judge)
    requires s.lingerDwell < LINGER_LIMIT && s.window < HALF && deadline == Plus(start % WORD, s.window)
    requires start <= radio.now < start + s.window && seg != [] && seg[|seg| - 1].Waited?
    requires seg[|seg| - 1].heard == heard && !Lingered(seg)
    modifies radio
    ensures old(radio.now) <= radio.now <= start + s.window + Overshoot(s, radio.limits)
    ensures Listened(radio, seg', handed', s, t0, f0, start) && OffRequestChannel(radio.freq, s)
    ensures Concluded(seg', handed', judge, verdict) && NoHopOwed(seg', s) && !Lingering(seg')
  {
    verdict, handed', seg' := IGNORE, handed, seg;
    if !Rotating(s) || (heard != Nothing && !s.hopAfterIgnored) { return; }
    var quiet;
    quiet, seg' := HopIfQuiet(radio, s, handed', seg', t0, f0, start);
    if quiet || heard != Nothing { return; }
    verdict, handed', seg' := Linger(radio, s, judge, deadline, handed', seg', t0, f0, start);
  }

  /** A wait of one slice, where no extension is pending. */
  method Dwell(radio: Radio, s: ListenSpec, judge: Reception -> Disposition, deadline: Word, handed: seq<Reception>,
               ghost seg: seq<RadioEvent>, ghost t0: seq<RadioEvent>, ghost f0: Word, ghost start: nat)
      returns (heard: Reception, verdict: Disposition, handed': seq<Reception>, ghost seg': seq<RadioEvent>)
    requires Listened(radio, seg, handed, s, t0, f0, start) && OffRequestChannel(radio.freq, s)
    requires AllIgnored(handed, judge) && s.window < HALF && deadline == Plus(start % WORD, s.window)
    requires start <= radio.now < start + s.window && NoHopOwed(seg, s) && !Lingering(seg)
    modifies radio
    ensures old(radio.now) < radio.now <= start + s.window + radio.limits.late
    ensures Listened(radio, seg', handed', s, t0, f0, start) && OffRequestChannel(radio.freq, s)
    ensures seg' != [] && seg'[|seg'| - 1].Waited? && seg'[|seg'| - 1].heard == heard
    ensures !Lingering(seg') && !Lingered(seg') && Concluded(seg', handed', judge, verdict)
  {
    var remaining := TimeRemaining(radio, deadline, start, s.window);
    heard, verdict, handed', seg' :=
      HearAndJudge(radio, if Rotating(s) && s.dwell < remaining then s.dwell else remaining,
                   s, judge, handed, seg, t0, f0, start);
    assert seg'[..|seg|] == seg;
  }

  /** One pass of the loop body. */
  method Round(radio: Radio, s: ListenSpec, judge: Reception -> Disposition, deadline: Word, handed: seq<Reception>,
               ghost seg: seq<RadioEvent>, ghost t0: seq<RadioEvent>, ghost f0: Word, ghost start: nat)
      returns (verdict: Disposition, handed': seq<Reception>, ghost seg': seq<RadioEvent>)
    requires Listened(radio, seg, handed, s, t0, f0, start) && OffRequestChannel(radio.freq, s)
    requires AllIgnored(handed, judge)
    requires s.lingerDwell < LINGER_LIMIT && s.window < HALF && deadline == Plus(start % WORD, s.window)
    requires start <= radio.now < start + s.window && NoHopOwed(seg, s) && !Lingering(seg)
    modifies radio
    ensures old(radio.now) < radio.now <= start + s.window + Overshoot(s, radio.limits)
    ensures Listened(radio, seg', handed', s, t0, f0, start) && OffRequestChannel(radio.freq, s)
    ensures verdict == IGNORE && radio.now < start + s.window ==> NoHopOwed(seg', s) && !Lingering(seg')
    ensures Concluded(seg', handed', judge, verdict)
  {
    var heard;
    heard, verdict, handed', seg' := Dwell(radio, s, judge, deadline, handed, seg, t0, f0, start);
    if verdict != IGNORE { return; }
    var left := TimeRemaining(radio, deadline, start, s.window);
    if left <= 0 { return; }
    verdict, handed', seg' := AfterDwell(radio, s, judge, deadline, heard, handed', seg', t0, f0, start);
  }

  lemma Alone(seg: seq<RadioEvent>)
    requires |seg| == 1 && seg[0].Retuned?
    ensures forall s :: NoHopOwed(seg, s)
    ensures !Lingering(seg)
  {
  }

  /** Leaves the request channel if that is to be skipped. */
  method Begin(radio: Radio, s: ListenSpec) returns (ghost seg: seq<RadioEvent>)
    modifies radio
    ensures Listened(radio, seg, [], s, old(radio.trace), old(radio.freq), old(radio.now))
    ensures OffRequestChannel(radio.freq, s) && NoHopOwed(seg, s) && !Lingering(seg)
    ensures old(radio.now) <= radio.now <= old(radio.now) + if Rotating(s) then radio.limits.spi else 0
  {
    seg := [];
    ghost var t0, f0, start := radio.trace, radio.freq, radio.now;
    assert t0 + seg == t0;
    assert Listened(radio, seg, [], s, t0, f0, start);
    if s.policy == ROTATE_SKIPPING_REQUEST {
      seg := ListenHop(radio, s, [], seg, t0, f0, start);
      Alone(seg);
    }
  }

  /** The loop: rounds until a verdict or the deadline. */
  method Rounds(radio: Radio, s: ListenSpec, judge: Reception -> Disposition, deadline: Word, before: seq<Reception>,
                ghost seg0: seq<RadioEvent>, ghost t0: seq<RadioEvent>, ghost f0: Word, ghost start: nat)
      returns (verdict: Disposition, handed: seq<Reception>, ghost seg: seq<RadioEvent>)
    requires Listened(radio, seg0, before, s, t0, f0, start)
    requires OffRequestChannel(radio.freq, s) && before == [] && NoHopOwed(seg0, s) && !Lingering(seg0)
    requires s.lingerDwell < LINGER_LIMIT && s.window < HALF && deadline == Plus(start % WORD, s.window)
    requires start <= radio.now <= start + s.window + Overshoot(s, radio.limits)
    modifies radio
    ensures old(radio.now) <= radio.now <= start + s.window + Overshoot(s, radio.limits)
    ensures Listened(radio, seg, handed, s, t0, f0, start) && Concluded(seg, handed, judge, verdict)
    ensures verdict == IGNORE ==> radio.now >= start + s.window
  {
    verdict, handed, seg := IGNORE, before, seg0;
    var left := TimeRemaining(radio, deadline, start, s.window);
    while left > 0 && verdict == IGNORE
      invariant Listened(radio, seg, handed, s, t0, f0, start) && OffRequestChannel(radio.freq, s)
      invariant Concluded(seg, handed, judge, verdict)
      invariant old(radio.now) <= radio.now <= start + s.window + Overshoot(s, radio.limits)
      invariant left == start + s.window - radio.now
      invariant left > 0 && verdict == IGNORE ==> NoHopOwed(seg, s) && !Lingering(seg)
    {
      verdict, handed, seg := Round(radio, s, judge, deadline, handed, seg, t0, f0, start);
      left := TimeRemaining(radio, deadline, start, s.window);
    }
  }

  /** The listen loop. Whatever the radio does: every delivered packet is handed over exactly once and in order, the
      first verdict other than IGNORE ends the listen, it spends all its time waiting, hopping and looking, it times out
      only when that covers its window (also across the wrap of the clock), and it is over soon after. */
  method Listen(radio: Radio, spec: ListenSpec, driverDwell: U16, judge: Reception -> Disposition)
      returns (outcome: ListenOutcome, handed: seq<Reception>, ghost seg: seq<RadioEvent>)
    requires spec.lingerDwell < LINGER_LIMIT && spec.window < HALF
    modifies radio
    ensures radio.trace == old(radio.trace) + seg
    ensures Disciplined(seg, Resolved(spec, driverDwell), old(radio.freq))
    ensures spec.policy == HOLD_REQUEST_CHANNEL ==> radio.freq == old(radio.freq)
    ensures AllWaitedRight(seg, spec, driverDwell)
    ensures handed == Deliveries(seg) && FirstDecides(handed, judge, outcome)
    ensures outcome != TIMED_OUT ==> EndsHearing(seg, handed)
    ensures radio.now == old(radio.now) + Lasted(seg)
    ensures outcome == TIMED_OUT ==> Lasted(seg) >= spec.window
    ensures old(radio.now) <= radio.now <= old(radio.now) + spec.window + Overshoot(spec, radio.limits)
  {
    var s := Resolved(spec, driverDwell);
    ghost var t0, f0, start := radio.trace, radio.freq, radio.now;
    var deadline := Plus(radio.Millis(), s.window);
    seg := Begin(radio, s);
    var verdict;
    verdict, handed, seg := Rounds(radio, s, judge, deadline, [], seg, t0, f0, start);
    outcome := if verdict == ACCEPT then ACCEPTED else if verdict == ABORT then ABORTED else TIMED_OUT;
    ConcludedDecides(seg, handed, judge, verdict, outcome);
    WaitsItsSlices(seg, spec, driverDwell, f0);
  }

  lemma ConcludedDecides(seg: seq<RadioEvent>, handed: seq<Reception>,
                         judge: Reception -> Disposition, v: Disposition, outcome: ListenOutcome)
    requires Concluded(seg, handed, judge, v)
    requires outcome == if v == ACCEPT then ACCEPTED else if v == ABORT then ABORTED else TIMED_OUT
    ensures FirstDecides(handed, judge, outcome) && (outcome != TIMED_OUT ==> EndsHearing(seg, handed))
  {
    if v != IGNORE {
      var init := handed[..|handed| - 1];
      assert forall i :: 0 <= i < |handed| - 1 ==> handed[i] == init[i];
    }
  }
}
