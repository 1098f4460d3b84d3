/** The 1W rolling counter of one controller identity as a machine over crashes, partial flash
    writes and reboots, and the replay safety that rests on it. */
module SequenceCounter {
  import opened Wrappers
  import opened Words

  const RING := 65536
  const STRIDE := 8
  const WINDOW := 1000

  datatype Ram = Off | On(next: U16, reserved: U16)

  /** What one identity owns: its RAM counter, the value a reboot would load, and a saved value not yet committed. */
  datatype Cell = Cell(ram: Ram, durable: Option<U16>, staged: Option<U16>)

  /** The smallest steps at which power can be lost. `Stage` is a save() whose sync() has not succeeded;
      `Commit` is a staged value reaching flash by any sync, even one that then reports failure; `Drop` is a
      staged value being lost; `Reserve` is a persist() that reported success; `HandOut` is the rest of next();
      `Transmit` puts one more copy of the current command on air. */
  datatype Event =
    | Boot(initial: U16)
    | Crash
    | Stage
    | Commit
    | Drop
    | Reserve
    | HandOut
    | Transmit

  function Max(a: nat, b: nat): nat { if a > b then a else b }

  function CellStep(c: Cell, e: Event): (r: (Cell, Option<U16>)) {
    match e
    case Boot(initial) =>
      if c.ram.On? then (c, None) else
      var first := if c.durable.Some? then Max(c.durable.value, initial) else initial;
      (c.(ram := On(first, first)), None)
    case Crash => (c.(ram := Off, staged := None), None)
    case Stage =>
      if c.ram.On? && c.ram.next == c.ram.reserved
      then (c.(staged := Some((c.ram.next + STRIDE) % RING)), None) else (c, None)
    case Commit => (if c.staged.Some? then c.(durable := c.staged) else c, None)
    case Drop => (c.(staged := None), None)
    case Reserve =>
      if c.ram.On? && c.ram.next == c.ram.reserved then
        var end := (c.ram.next + STRIDE) % RING;
        (Cell(c.ram.(reserved := end), Some(end), None), None)
      else (c, None)
    case HandOut =>
      if c.ram.On? && c.ram.next != c.ram.reserved
      then (c.(ram := c.ram.(next := (c.ram.next + 1) % RING)), Some(c.ram.next)) else (c, None)
    case Transmit => (c, None)
  }

  /** A copy on air: which logical command it belongs to and the sequence it carries. */
  datatype Copy = Copy(command: nat, sequence: U16)

  /** One hub with the history of everything it handed out and put on air. `current` is the sequence the command
      in progress holds in RAM. */
  datatype Hub = Hub(cell: Cell, current: Option<U16>, handed: seq<U16>, air: seq<Copy>)

  function Step(h: Hub, e: Event): (r: Hub) {
    var (cell, out) := CellStep(h.cell, e);
    if out.Some? then Hub(cell, out, h.handed + [out.value], h.air)
    else if e.Crash? then Hub(cell, None, h.handed, h.air)
    else if e.Transmit? && h.current.Some? && |h.handed| > 0
    then Hub(cell, h.current, h.handed, h.air + [Copy(|h.handed| - 1, h.current.value)])
    else h.(cell := cell)
  }

  function Run(h: Hub, es: seq<Event>): (r: Hub)
    decreases |es|
  {
    if es == [] then h else Run(Step(h, es[0]), es[1..])
  }

  /** The same run on the counter alone: the cell it leaves and the numbers it handed out. */
  function CellRun(c: Cell, es: seq<Event>): (r: (Cell, seq<U16>))
    decreases |es|
  {
    if es == [] then (c, []) else
    var (c', out) := CellStep(c, es[0]);
    var (last, outs) := CellRun(c', es[1..]);
    (last, if out.Some? then [out.value] + outs else outs)
  }

  lemma {:induction false} RunIsCellRun(h: Hub, es: seq<Event>)
    ensures Run(h, es).cell == CellRun(h.cell, es).0
    ensures Run(h, es).handed == h.handed + CellRun(h.cell, es).1
    decreases |es|
  {
    if es != [] {
      RunIsCellRun(Step(h, es[0]), es[1..]);
    }
  }

  lemma {:induction false} RunConcat(h: Hub, a: seq<Event>, b: seq<Event>)
    ensures Run(h, a + b) == Run(Run(h, a), b)
    decreases |a|
  {
    if a == [] {
      assert a + b == b;
    } else {
      assert (a + b)[1..] == a[1..] + b;
      RunConcat(Step(h, a[0]), a[1..], b);
    }
  }

  lemma {:induction false} AirGrows(h: Hub, es: seq<Event>)
    ensures h.air <= Run(h, es).air && h.handed <= Run(h, es).handed
    decreases |es|
  {
    if es != [] { AirGrows(Step(h, es[0]), es[1..]); }
  }

  /** A powered-down hub with `durable` in flash and no history. */
  function PoweredDown(durable: Option<U16>): Hub { Hub(Cell(Off, durable, None), None, [], []) }

  // --- The unbounded index behind the 16-bit ring ---

  datatype IndexRam = IndexOff | IndexOn(next: nat, reserved: nat)
  datatype Index = Index(ram: IndexRam, durable: Option<nat>, staged: Option<nat>, issued: seq<nat>)

  /** How far past the persisted value a boot jumps: numeric, never backwards, never into the next lap. */
  function BootJump(persisted: nat, initial: U16): nat {
    if initial > persisted % RING then initial - persisted % RING else 0
  }

  function IndexStep(i: Index, e: Event): (r: Index) {
    match e
    case Boot(initial) =>
      if i.ram.IndexOn? then i else
      var first := if i.durable.Some? then i.durable.value + BootJump(i.durable.value, initial) else initial;
      i.(ram := IndexOn(first, first))
    case Crash => i.(ram := IndexOff, staged := None)
    case Stage =>
      if i.ram.IndexOn? && i.ram.next == i.ram.reserved then i.(staged := Some(i.ram.next + STRIDE)) else i
    case Commit => if i.staged.Some? then i.(durable := i.staged) else i
    case Drop => i.(staged := None)
    case Reserve =>
      if i.ram.IndexOn? && i.ram.next == i.ram.reserved then
        var end := i.ram.next + STRIDE;
        i.(ram := i.ram.(reserved := end), durable := Some(end), staged := None)
      else i
    case HandOut =>
      if i.ram.IndexOn? && i.ram.next != i.ram.reserved
      then i.(ram := i.ram.(next := i.ram.next + 1), issued := i.issued + [i.ram.next]) else i
    case Transmit => i
  }

  function IndexRun(i: Index, es: seq<Event>): (r: Index)
    decreases |es|
  {
    if es == [] then i else IndexRun(IndexStep(i, es[0]), es[1..])
  }

  function IndexStart(durable: Option<U16>): Index {
    Index(IndexOff, if durable.Some? then Some(durable.value) else None, None, [])
  }

  /** The indices handed out by a run, one per entry of `handed`. */
  function Indices(durable: Option<U16>, es: seq<Event>): seq<nat> {
    IndexRun(IndexStart(durable), es).issued
  }

  // --- Invariants ---

  ghost predicate Increasing(s: seq<nat>) { forall i, j :: 0 <= i < j < |s| ==> s[i] < s[j] }

  /** Every index below this one may already be spent. */
  function Floor(i: Index): nat { if i.issued == [] then 0 else i.issued[|i.issued| - 1] + 1 }

  /** A block is in flash before anything inside it is spent, and flash is at most one block ahead of RAM. */
  ghost predicate Safe(i: Index) {
    && Increasing(i.issued)
    && (i.durable.None? ==> i.issued == [])
    && (i.durable.Some? ==> Floor(i) <= i.durable.value)
    && (i.ram.IndexOff? ==> i.staged.None?)
    && (i.ram.IndexOn? ==>
          var n, r := i.ram.next, i.ram.reserved;
          && Floor(i) <= n <= r <= n + STRIDE
          && (n < r ==> i.durable == Some(r) && i.staged.None?)
          && (i.staged.Some? ==> i.staged.value == n + STRIDE)
          && (i.durable.Some? ==> i.durable.value <= n + STRIDE))
  }

  ghost predicate SameMod(o: Option<U16>, i: Option<nat>) {
    (o.Some? <==> i.Some?) && (o.Some? ==> o.value == i.value % RING)
  }

  /** The 16-bit hub is the index machine seen modulo 65536. */
  ghost predicate Tracks(h: Hub, i: Index) {
    && (h.cell.ram.On? <==> i.ram.IndexOn?)
    && (h.cell.ram.On? ==> h.cell.ram.next == i.ram.next % RING && h.cell.ram.reserved == i.ram.reserved % RING)
    && SameMod(h.cell.durable, i.durable)
    && SameMod(h.cell.staged, i.staged)
    && |h.handed| == |i.issued|
    && (forall k :: 0 <= k < |h.handed| ==> h.handed[k] == i.issued[k] % RING)
    && (h.current.Some? ==> |h.handed| > 0 && h.current.value == h.handed[|h.handed| - 1])
    && (forall k :: 0 <= k < |h.air| ==>
          h.air[k].command < |h.handed| && h.air[k].sequence == h.handed[h.air[k].command])
  }

  lemma StepKeepsSafe(i: Index, e: Event)
    requires Safe(i)
    ensures Safe(IndexStep(i, e)) && i.issued <= IndexStep(i, e).issued
  {
  }

  lemma AddMod(x: nat, k: nat)
    requires k < RING
    ensures (x % RING + k) % RING == (x + k) % RING
  {
    var q, m := x / RING, x % RING;
    assert x + k == (m + k) + q * RING;
  }

  /** Two indices less than a lap apart are equal exactly when their residues are. */
  lemma CloseMod(a: nat, b: nat)
    requires a <= b < a + RING
    ensures a % RING == b % RING <==> a == b
  {
    assert a == a / RING * RING + a % RING && b == b / RING * RING + b % RING;
  }

  lemma BootMod(d: nat, initial: U16)
    ensures (d + BootJump(d, initial)) % RING == Max(d % RING, initial)
  {
    if initial > d % RING {
      assert d + BootJump(d, initial) == initial + d / RING * RING;
    }
  }

  lemma StepTracksRam(h: Hub, i: Index, e: Event)
    requires Safe(i) && Tracks(h, i)
    ensures var c, j := CellStep(h.cell, e).0, IndexStep(i, e);
            && (c.ram.On? <==> j.ram.IndexOn?)
            && (c.ram.On? ==> c.ram.next == j.ram.next % RING && c.ram.reserved == j.ram.reserved % RING)
            && SameMod(c.durable, j.durable) && SameMod(c.staged, j.staged)
    ensures var out := CellStep(h.cell, e).1;
            IndexStep(i, e).issued == if out.Some? then i.issued + [i.ram.next] else i.issued
    ensures CellStep(h.cell, e).1.Some? ==> i.ram.IndexOn? && CellStep(h.cell, e).1.value == i.ram.next % RING
  {
    if i.ram.IndexOn? {
      CloseMod(i.ram.next, i.ram.reserved);
      AddMod(i.ram.next, STRIDE);
      AddMod(i.ram.next, 1);
    } else if e.Boot? && i.durable.Some? {
      BootMod(i.durable.value, e.initial);
    }
  }

  lemma StepKeeps(h: Hub, i: Index, e: Event)
    requires Safe(i) && Tracks(h, i)
    ensures Safe(IndexStep(i, e)) && Tracks(Step(h, e), IndexStep(i, e))
    ensures i.issued <= IndexStep(i, e).issued
  {
    StepKeepsSafe(i, e);
    StepTracksRam(h, i, e);
  }

  lemma {:induction false} RunKeeps(h: Hub, i: Index, es: seq<Event>)
    requires Safe(i) && Tracks(h, i)
    ensures Safe(IndexRun(i, es)) && Tracks(Run(h, es), IndexRun(i, es))
    ensures i.issued <= IndexRun(i, es).issued
    decreases |es|
  {
    if es != [] {
      StepKeeps(h, i, es[0]);
      RunKeeps(Step(h, es[0]), IndexStep(i, es[0]), es[1..]);
    }
  }

  // --- Replay safety ---

  /** Over every run, whatever fails and whenever power is lost, the numbers handed out are the residues of a
      strictly increasing index, and every copy on air carries the number of its own command. */
  lemma ReplaySafety(durable: Option<U16>, es: seq<Event>)
    ensures var h, gs := Run(PoweredDown(durable), es), Indices(durable, es);
            && |gs| == |h.handed|
            && Increasing(gs)
            && (forall k :: 0 <= k < |gs| ==> h.handed[k] == gs[k] % RING)
            && (forall k :: 0 <= k < |h.air| ==>
                  h.air[k].command < |gs| && h.air[k].sequence == gs[h.air[k].command] % RING)
  {
    RunKeeps(PoweredDown(durable), IndexStart(durable), es);
  }

  /** The run never persists a reservation that wraps. A hub can check this before each save. */
  ghost predicate NeverWraps(h: Hub, es: seq<Event>)
    decreases |es|
  {
    es != [] ==>
      && ((es[0].Stage? || es[0].Reserve?) && h.cell.ram.On? && h.cell.ram.next == h.cell.ram.reserved
          ==> h.cell.ram.next + STRIDE < RING)
      && NeverWraps(Step(h, es[0]), es[1..])
  }

  ghost predicate FirstLap(i: Index) {
    && (i.durable.Some? ==> i.durable.value < RING)
    && (i.staged.Some? ==> i.staged.value < RING)
    && (i.ram.IndexOn? ==> i.ram.next <= i.ram.reserved < RING)
    && (forall k :: 0 <= k < |i.issued| ==> i.issued[k] < RING)
  }

  lemma StepFirstLap(h: Hub, i: Index, e: Event)
    requires Safe(i) && Tracks(h, i) && FirstLap(i)
    requires (e.Stage? || e.Reserve?) && h.cell.ram.On? && h.cell.ram.next == h.cell.ram.reserved
             ==> h.cell.ram.next + STRIDE < RING
    ensures FirstLap(IndexStep(i, e))
  {
    if i.ram.IndexOn? {
      SmallMod(i.ram.next);
      SmallMod(i.ram.reserved);
    }
    if i.durable.Some? { SmallMod(i.durable.value); }
  }

  lemma SmallMod(g: nat)
    requires g < RING
    ensures g % RING == g
  {
  }

  lemma {:induction false} FirstLapKept(h: Hub, i: Index, es: seq<Event>)
    requires Safe(i) && Tracks(h, i) && FirstLap(i) && NeverWraps(h, es)
    ensures FirstLap(IndexRun(i, es))
    decreases |es|
  {
    if es != [] {
      StepKeeps(h, i, es[0]);
      StepFirstLap(h, i, es[0]);
      FirstLapKept(Step(h, es[0]), IndexStep(i, es[0]), es[1..]);
    }
  }

  /** No two commands on air share a sequence. */
  ghost predicate OneCommandPerSequence(air: seq<Copy>) {
    forall a, b :: 0 <= a < |air| && 0 <= b < |air| && air[a].sequence == air[b].sequence
      ==> air[a].command == air[b].command
  }

  /** Before the counter wraps, two copies on air with the same sequence are copies of one command, for any
      `initial_sequence` at any boot. */
  lemma SameSequenceSameCommand(durable: Option<U16>, es: seq<Event>)
    requires NeverWraps(PoweredDown(durable), es)
    ensures OneCommandPerSequence(Run(PoweredDown(durable), es).air)
  {
    var h, gs := Run(PoweredDown(durable), es), Indices(durable, es);
    ReplaySafety(durable, es);
    FirstLapKept(PoweredDown(durable), IndexStart(durable), es);
    forall a, b | 0 <= a < |h.air| && 0 <= b < |h.air| && h.air[a].sequence == h.air[b].sequence
      ensures h.air[a].command == h.air[b].command
    {
      assert gs[h.air[a].command] == gs[h.air[b].command];
    }
  }

  /** A power-up and one command with one copy. */
  function FirstCommand(initial: U16): seq<Event> { [Boot(initial), Reserve, HandOut, Transmit] }

  /** The condition is needed: with `initial_sequence` 65530 one power loss after the first command makes the hub
      send 65530 again, because the persisted reservation wrapped to 2 and the boot compares numerically. */
  lemma WrapWithInitialSequenceReplays()
    ensures var first := Run(PoweredDown(None), FirstCommand(65530));
            Run(Step(first, Crash), FirstCommand(65530)).air == [Copy(0, 65530), Copy(1, 65530)]
  {
    OneCommand(PoweredDown(None), 65530);
    OneCommand(Step(Run(PoweredDown(None), FirstCommand(65530)), Crash), 65530);
  }

  /** A power-up that finds `initial` not behind flash starts there. */
  lemma OneCommand(h: Hub, initial: U16)
    requires h.cell.ram.Off? && (h.cell.durable.Some? ==> h.cell.durable.value <= initial)
    ensures var end := (initial + STRIDE) % RING;
            Run(h, FirstCommand(initial)) ==
              Hub(Cell(On((initial + 1) % RING, end), Some(end), None), Some(initial),
                  h.handed + [initial], h.air + [Copy(|h.handed|, initial)])
  {
    FourSteps(h, Boot(initial), Reserve, HandOut, Transmit);
    CloseMod(initial, initial + STRIDE);
    var end := (initial + STRIDE) % RING;
    assert Step(Step(h, Boot(initial)), Reserve) == h.(cell := Cell(On(initial, end), Some(end), None));
  }

  lemma FourSteps(h: Hub, a: Event, b: Event, c: Event, d: Event)
    ensures Run(h, [a, b, c, d]) == Step(Step(Step(Step(h, a), b), c), d)
  {
    assert [a, b, c, d][1..] == [b, c, d] && [b, c, d][1..] == [c, d] && [c, d][1..] == [d];
    var h1 := Step(h, a);
    var h2 := Step(h1, b);
    var h3 := Step(h2, c);
    assert Run(h, [a, b, c, d]) == Run(h1, [b, c, d]);
    assert Run(h1, [b, c, d]) == Run(h2, [c, d]);
    assert Run(h2, [c, d]) == Run(h3, [d]);
    assert Run(h3, [d]) == Run(Step(h3, d), []);
  }

  // --- Bounded forward skip ---

  /** A power-up that actually loads the counter. */
  predicate IsRestart(h: Hub, e: Event) { e.Boot? && h.cell.ram.Off? }

  function Restarts(h: Hub, es: seq<Event>): nat
    decreases |es|
  {
    if es == [] then 0
    else (if IsRestart(h, es[0]) then 1 else 0) + Restarts(Step(h, es[0]), es[1..])
  }

  predicate BootNotAhead(h: Hub, e: Event) {
    IsRestart(h, e) && h.cell.durable.Some? ==> e.initial <= h.cell.durable.value
  }

  /** No power-up finds an `initial_sequence` above the value in flash. */
  ghost predicate NotAhead(h: Hub, es: seq<Event>)
    decreases |es|
  {
    es != [] ==> BootNotAhead(h, es[0]) && NotAhead(Step(h, es[0]), es[1..])
  }

  /** One block past the next index in RAM, or the index in flash when powered down. */
  function Reach(i: Index): nat
    requires i.durable.Some?
  {
    if i.ram.IndexOn? then i.ram.next + STRIDE else i.durable.value
  }

  lemma StepReach(h: Hub, i: Index, e: Event)
    requires Safe(i) && Tracks(h, i) && i.durable.Some? && BootNotAhead(h, e)
    ensures IndexStep(i, e).durable.Some?
    ensures Reach(IndexStep(i, e))
         <= Reach(i) + (|IndexStep(i, e).issued| - |i.issued|) + (if IsRestart(h, e) then STRIDE else 0)
  {
  }

  lemma {:induction false} SkipBound(h: Hub, i: Index, es: seq<Event>)
    requires Safe(i) && Tracks(h, i) && i.durable.Some? && NotAhead(h, es)
    ensures var j := IndexRun(i, es);
            && i.issued <= j.issued
            && forall k :: |i.issued| <= k < |j.issued| ==>
                 j.issued[k] + STRIDE <= Reach(i) + (k - |i.issued|) + STRIDE * Restarts(h, es)
    decreases |es|
  {
    if es != [] {
      StepKeeps(h, i, es[0]);
      StepReach(h, i, es[0]);
      var i' := IndexStep(i, es[0]);
      SkipBound(Step(h, es[0]), i', es[1..]);
      RunKeeps(Step(h, es[0]), i', es[1..]);
    }
  }

  lemma HandOutIndex(i: Index)
    requires Safe(i) && i.ram.IndexOn? && i.ram.next != i.ram.reserved
    ensures var j := IndexStep(i, HandOut);
            j.issued != [] && j.durable.Some? && j.ram.IndexOn? && j.ram.next == Floor(j)
  {
  }

  /** What the two machines agree on once a hand-out followed `pre`. */
  lemma AfterHandOut(durable: Option<U16>, pre: seq<Event>) returns (i: Index)
    requires CellStep(Run(PoweredDown(durable), pre).cell, HandOut).1.Some?
    ensures var h := Step(Run(PoweredDown(durable), pre), HandOut);
            && Safe(i) && Tracks(h, i) && i.durable.Some? && i.issued != []
            && i.ram.IndexOn? && i.ram.next == Floor(i)
            && h.handed[|h.handed| - 1] == i.issued[|i.issued| - 1] % RING
  {
    var h0, i0 := Run(PoweredDown(durable), pre), IndexRun(IndexStart(durable), pre);
    RunKeeps(PoweredDown(durable), IndexStart(durable), pre);
    StepKeeps(h0, i0, HandOut);
    StepTracksRam(h0, i0, HandOut);
    HandOutIndex(i0);
    i := IndexStep(i0, HandOut);
    assert Tracks(Step(h0, HandOut), i);
  }

  lemma ResiduePrefix(h: Hub, i: Index, h': Hub, i': Index)
    requires Tracks(h, i) && Tracks(h', i') && i.issued <= i'.issued
    ensures h.handed <= h'.handed
  {
    forall k | 0 <= k < |h.handed| ensures h.handed[k] == h'.handed[k] { assert i.issued[k] == i'.issued[k]; }
  }

  lemma SameResidueFar(g: nat, g': nat)
    requires g < g' && g % RING == g' % RING
    ensures g' >= g + RING
  {
    if g' < g + RING { CloseMod(g, g'); }
  }

  /** A number just handed out is handed out again only after a whole ring of commands, less one block per
      reboot in between, when no boot finds `initial_sequence` ahead of flash (`InitialSequence.NeverAheadIff`). */
  lemma NoEarlyReuse(durable: Option<U16>, pre: seq<Event>, post: seq<Event>)
    requires var h := Run(PoweredDown(durable), pre);
             CellStep(h.cell, HandOut).1.Some? && NotAhead(Step(h, HandOut), post)
    ensures var h := Step(Run(PoweredDown(durable), pre), HandOut);
            var later := Run(h, post).handed;
            var n := |h.handed|;
            && 1 <= n && h.handed <= later
            && forall k :: n <= k < |later| && later[k] == h.handed[n - 1]
                 ==> k - n + 1 + STRIDE * Restarts(h, post) >= RING
  {
    var h := Step(Run(PoweredDown(durable), pre), HandOut);
    var i := AfterHandOut(durable, pre);
    NoEarlyReuseFrom(h, i, post);
  }

  lemma NoEarlyReuseFrom(h: Hub, i: Index, post: seq<Event>)
    requires Safe(i) && Tracks(h, i) && i.durable.Some? && i.issued != [] && NotAhead(h, post)
    requires i.ram.IndexOn? && i.ram.next == Floor(i)
    ensures var later, n := Run(h, post).handed, |h.handed|;
            && h.handed <= later
            && forall k :: n <= k < |later| && later[k] == h.handed[n - 1]
                 ==> k - n + 1 + STRIDE * Restarts(h, post) >= RING
  {
    RunKeeps(h, i, post);
    SkipBound(h, i, post);
    var gs, later, n := IndexRun(i, post).issued, Run(h, post).handed, |h.handed|;
    ResiduePrefix(h, i, Run(h, post), IndexRun(i, post));
    forall k | n <= k < |later| && later[k] == h.handed[n - 1]
      ensures k - n + 1 + STRIDE * Restarts(h, post) >= RING
    {
      assert gs[n - 1] == i.issued[n - 1] && later[k] == gs[k] % RING;
      SameResidueFar(gs[n - 1], gs[k]);
    }
  }

  // --- What a receiving device sees ---

  /** A device accepts a number ahead of the last one it accepted by at most its window, on the ring. */
  predicate Accepts(high: U16, s: U16) { 0 < (s - high) % RING <= WINDOW }

  /** Every command from the `k`th on that the device hears is accepted. */
  ghost predicate AllAccepted(handed: seq<U16>, heard: nat -> bool, k: nat, high: U16)
    requires k <= |handed|
    decreases |handed| - k
  {
    k < |handed| ==>
      if heard(k) then Accepts(high, handed[k]) && AllAccepted(handed, heard, k + 1, handed[k])
      else AllAccepted(handed, heard, k + 1, high)
  }

  /** What the gap since the last command the device heard becomes over one event. */
  function Gap(h: Hub, e: Event, heard: nat -> bool, used: nat): nat {
    if CellStep(h.cell, e).1.Some? then (if heard(|h.handed|) then 0 else used + 1)
    else if IsRestart(h, e) then used + STRIDE else used
  }

  /** Since the last command the device heard, a block per reboot plus one per command it missed stays inside its
      window whenever it hears one. */
  ghost predicate Patience(h: Hub, es: seq<Event>, heard: nat -> bool, used: nat)
    decreases |es|
  {
    es != [] ==>
      && (CellStep(h.cell, es[0]).1.Some? && heard(|h.handed|) ==> used + 1 <= WINDOW)
      && Patience(Step(h, es[0]), es[1..], heard, Gap(h, es[0], heard, used))
  }

  lemma AcceptedAhead(high: nat, g: nat)
    requires high < g <= high + WINDOW
    ensures Accepts(high % RING, g % RING)
  {
    var d := g - high;
    assert g % RING - high % RING == d + (high / RING - g / RING) * RING;
  }

  /** The `high`-water index of the device, and how far beyond it the hub can be. */
  ghost predicate InReach(i: Index, high: nat, used: nat) {
    i.durable.Some? && high < Floor(i) && Reach(i) <= high + used + STRIDE + 1
  }

  lemma StepInReach(h: Hub, i: Index, e: Event, heard: nat -> bool, high: nat, used: nat)
    requires Safe(i) && Tracks(h, i) && InReach(i, high, used) && BootNotAhead(h, e)
    ensures var out := CellStep(h.cell, e).1;
            && (out.Some? ==> i.ram.IndexOn? && out.value == i.ram.next % RING && high < i.ram.next <= high + used + 1)
            && InReach(IndexStep(i, e), if out.Some? && heard(|h.handed|) then i.ram.next else high,
                       Gap(h, e, heard, used))
  {
    StepTracksRam(h, i, e);
    StepReach(h, i, e);
  }

  lemma NthHanded(h: Hub, i: Index, e: Event, es: seq<Event>)
    requires Safe(i) && Tracks(h, i) && CellStep(h.cell, e).1.Some?
    ensures var handed := Run(Step(h, e), es).handed;
            |h.handed| < |handed| && handed[|h.handed|] == CellStep(h.cell, e).1.value
  {
    StepKeeps(h, i, e);
    RunKeeps(Step(h, e), IndexStep(i, e), es);
    ResiduePrefix(Step(h, e), IndexStep(i, e), Run(Step(h, e), es), IndexRun(IndexStep(i, e), es));
    assert Step(h, e).handed[|h.handed|] == CellStep(h.cell, e).1.value;
  }

  lemma {:induction false} HeardIsAccepted(h: Hub, i: Index, es: seq<Event>, heard: nat -> bool, high: nat, used: nat)
    requires Safe(i) && Tracks(h, i) && InReach(i, high, used)
    requires NotAhead(h, es) && Patience(h, es, heard, used)
    ensures var handed := Run(h, es).handed;
            |h.handed| <= |handed| && AllAccepted(handed, heard, |h.handed|, high % RING)
    decreases |es|
  {
    if es != [] {
      var e, used' := es[0], Gap(h, es[0], heard, used);
      StepKeeps(h, i, e);
      StepInReach(h, i, e, heard, high, used);
      if CellStep(h.cell, e).1.Some? && heard(|h.handed|) {
        NthHanded(h, i, e, es[1..]);
        AcceptedAhead(high, i.ram.next);
        HeardIsAccepted(Step(h, e), IndexStep(i, e), es[1..], heard, i.ram.next, used');
      } else {
        HeardIsAccepted(Step(h, e), IndexStep(i, e), es[1..], heard, high, used');
      }
    }
  }

  /** A device that heard one command accepts every later command it hears, for ever and across the wrap, as long as
      8 per reboot plus 1 per missed command stays within its window of 1000 between commands it hears. */
  lemma DeviceNeverDesyncs(durable: Option<U16>, pre: seq<Event>, post: seq<Event>, heard: nat -> bool)
    requires var h := Run(PoweredDown(durable), pre);
             && CellStep(h.cell, HandOut).1.Some?
             && NotAhead(Step(h, HandOut), post) && Patience(Step(h, HandOut), post, heard, 0)
    ensures var h := Step(Run(PoweredDown(durable), pre), HandOut);
            && 1 <= |h.handed| <= |Run(h, post).handed|
            && AllAccepted(Run(h, post).handed, heard, |h.handed|, h.handed[|h.handed| - 1])
  {
    var h := Step(Run(PoweredDown(durable), pre), HandOut);
    var i := AfterHandOut(durable, pre);
    HeardIsAccepted(h, i, post, heard, i.issued[|i.issued| - 1], 0);
  }

  /** When the persisted value is itself still acceptable, the first command after a reboot is accepted exactly when
      the configured jump fits in what is left of the window, or carries the counter all the way round past it. */
  lemma BootAcceptedIff(high: U16, persisted: U16, initial: U16)
    requires Accepts(high, persisted)
    ensures var boot := CellStep(Cell(Off, Some(persisted), None), Boot(initial)).0;
            var reserved := CellStep(boot, Reserve).0;
            var ahead := (persisted - high) % RING + (if initial > persisted then initial - persisted else 0);
            && CellStep(reserved, HandOut).1.Some?
            && (Accepts(high, CellStep(reserved, HandOut).1.value) <==> ahead <= WINDOW || ahead > RING)
  {
    var next := Max(persisted, initial);
    CloseMod(next, next + STRIDE);
    RingDistance(high, persisted, next - persisted);
  }

  /** The ring distance from `high` to a number `jump` past one at a distance inside the window. */
  lemma RingDistance(high: U16, persisted: U16, jump: nat)
    requires Accepts(high, persisted) && jump < RING
    ensures var d := (persisted - high) % RING + jump;
            (persisted + jump - high) % RING == if d < RING then d else d - RING
  {
    var gap := (persisted - high) % RING;
    assert persisted - high == gap + (persisted - high) / RING * RING;
    var d := if gap + jump < RING then gap + jump else gap + jump - RING;
    var k := (persisted - high) / RING + if gap + jump < RING then 0 else 1;
    assert persisted + jump - high == d + k * RING;
  }

  // --- Flash wear ---

  function Reservations(h: Hub, es: seq<Event>): nat
    decreases |es|
  {
    if es == [] then 0
    else (if es[0].Reserve? && h.cell.ram.On? && h.cell.ram.next == h.cell.ram.reserved then 1 else 0)
         + Reservations(Step(h, es[0]), es[1..])
  }

  /** Numbers still reserved in RAM; a powered-down hub may have forfeited a whole block. */
  function Unspent(i: Index): int {
    if i.ram.IndexOn? then i.ram.reserved - i.ram.next else STRIDE
  }

  lemma {:induction false} BlocksPaidFor(h: Hub, i: Index, es: seq<Event>)
    requires Safe(i) && Tracks(h, i)
    ensures var j := IndexRun(i, es);
            STRIDE * Reservations(h, es)
              <= |j.issued| - |i.issued| + Unspent(j) - Unspent(i) + STRIDE * Restarts(h, es)
    decreases |es|
  {
    if es != [] {
      StepKeeps(h, i, es[0]);
      if i.ram.IndexOn? { CloseMod(i.ram.next, i.ram.reserved); }
      BlocksPaidFor(Step(h, es[0]), IndexStep(i, es[0]), es[1..]);
    }
  }

  /** Successful flash commits number at most one per 8 commands handed out plus one per reboot. */
  lemma FlashWear(durable: Option<U16>, es: seq<Event>)
    ensures var h := PoweredDown(durable);
            STRIDE * Reservations(h, es) <= |Run(h, es).handed| + STRIDE * Restarts(h, es)
  {
    var h, i := PoweredDown(durable), IndexStart(durable);
    RunKeeps(h, i, es);
    BlocksPaidFor(h, i, es);
  }
}
