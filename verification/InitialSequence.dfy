/** What one configured `initial_sequence` does over every run: exactly the values below one block are safe. */
module InitialSequence {
  import opened Wrappers
  import opened Words
  import opened SequenceCounter

  /** Every power-up of the run finds the same `initial_sequence`. */
  ghost predicate Configured(es: seq<Event>, initial: U16) {
    forall e :: e in es && e.Boot? ==> e.initial == initial
  }

  // --- The grid of reservations ---

  predicate OnGridValue(o: Option<U16>, base: nat) { o.Some? ==> o.value % STRIDE == base }

  /** Everything persisted or reserved stays a whole number of blocks away from `base`. */
  predicate OnGrid(c: Cell, base: nat) {
    && OnGridValue(c.durable, base) && OnGridValue(c.staged, base)
    && (c.ram.On? ==> c.ram.reserved % STRIDE == base)
  }

  /** Where the grid of a counter starts: at what flash holds, or at `initial` in an empty flash. */
  function Base(durable: Option<U16>, initial: U16): nat {
    if durable.Some? then durable.value % STRIDE else initial % STRIDE
  }

  lemma NextBlock(x: U16)
    ensures (x + STRIDE) % RING % STRIDE == x % STRIDE
  {
    assert x + STRIDE < RING || (x + STRIDE) % RING == x + STRIDE - RING;
  }

  lemma StepOnGrid(h: Hub, e: Event, base: nat, initial: U16)
    requires OnGrid(h.cell, base) && initial <= base < STRIDE && Configured([e], initial)
    requires h.cell.durable.None? ==> initial == base
    ensures OnGrid(Step(h, e).cell, base) && BootNotAhead(h, e)
    ensures h.cell.durable.Some? ==> Step(h, e).cell.durable.Some?
  {
    assert e in [e];
    if h.cell.ram.On? { NextBlock(h.cell.ram.next); }
  }

  lemma {:induction false} GridKeepsAhead(h: Hub, es: seq<Event>, base: nat, initial: U16)
    requires OnGrid(h.cell, base) && initial <= base < STRIDE && Configured(es, initial)
    requires h.cell.durable.None? ==> initial == base
    ensures NotAhead(h, es)
    decreases |es|
  {
    if es != [] {
      StepOnGrid(h, es[0], base, initial);
      GridKeepsAhead(Step(h, es[0]), es[1..], base, initial);
    }
  }

  /** Power-ups that die right after their reservation: flash moves up block by block and wraps to the base of its grid,
      below `initial`. */
  lemma {:induction false} SomeBootIsAhead(h: Hub, initial: U16) returns (es: seq<Event>)
    requires h.cell.ram.Off? && h.cell.durable.Some? && initial > h.cell.durable.value % STRIDE
    ensures Configured(es, initial) && !NotAhead(h, es)
    decreases if h.cell.durable.value < initial then 0 else RING - h.cell.durable.value
  {
    var d := h.cell.durable.value;
    if d < initial {
      es := [Boot(initial)];
    } else {
      NextBlock(d);
      OneBlockUp(h, initial);
      var cycle := [Boot(initial), Reserve, Crash];
      var later := SomeBootIsAhead(Run(h, cycle), initial);
      es := cycle + later;
      NotAheadConcat(h, cycle, later);
    }
  }

  lemma OneBlockUp(h: Hub, initial: U16)
    requires h.cell.ram.Off? && (h.cell.durable.Some? ==> initial <= h.cell.durable.value)
    ensures var d := if h.cell.durable.Some? then h.cell.durable.value else initial;
            Run(h, [Boot(initial), Reserve, Crash]).cell == Cell(Off, Some((d + STRIDE) % RING), None)
  {
    var h1 := Step(h, Boot(initial));
    var h2 := Step(h1, Reserve);
    assert [Boot(initial), Reserve, Crash][1..] == [Reserve, Crash] && [Reserve, Crash][1..] == [Crash];
    assert Run(h, [Boot(initial), Reserve, Crash]) == Run(h1, [Reserve, Crash]);
    assert Run(h1, [Reserve, Crash]) == Run(h2, [Crash]);
    assert Run(h2, [Crash]) == Run(Step(h2, Crash), []);
  }

  lemma {:induction false} NotAheadConcat(h: Hub, a: seq<Event>, b: seq<Event>)
    ensures NotAhead(h, a + b) <==> NotAhead(h, a) && NotAhead(Run(h, a), b)
    decreases |a|
  {
    if a == [] {
      assert a + b == b;
    } else {
      assert (a + b)[1..] == a[1..] + b;
      NotAheadConcat(Step(h, a[0]), a[1..], b);
    }
  }

  /** Exactly which settings keep flash from ever falling behind: over every run with one constant `initial_sequence`,
      no power-up finds it ahead of flash if and only if it is at most the base of the grid of what flash held at
      first; in an empty flash, if and only if it is below one block. */
  lemma NeverAheadIff(durable: Option<U16>, initial: U16)
    ensures (forall es :: Configured(es, initial) ==> NotAhead(PoweredDown(durable), es))
      <==> initial <= Base(durable, initial)
    ensures durable.None? ==> (initial <= Base(durable, initial) <==> initial < STRIDE)
  {
    var h := PoweredDown(durable);
    if initial <= Base(durable, initial) {
      forall es | Configured(es, initial) ensures NotAhead(h, es) {
        GridKeepsAhead(h, es, Base(durable, initial), initial);
      }
    } else if durable.Some? {
      var es := SomeBootIsAhead(h, initial);
    } else {
      OneBlockUp(h, initial);
      NextBlock(initial);
      var first := [Boot(initial), Reserve, Crash];
      var later := SomeBootIsAhead(Run(h, first), initial);
      NotAheadConcat(h, first, later);
      assert Configured(first + later, initial);
    }
  }

  // --- Below one block: no replay short of a whole ring ---

  /** The run hands out fewer numbers than a whole ring, counting a block for every power-up after the first. */
  ghost predicate ShortOfARing(es: seq<Event>) {
    |Run(PoweredDown(None), es).handed| + STRIDE * Restarts(PoweredDown(None), es) <= RING + STRIDE
  }

  /** One block past the next index in RAM, or where the next power-up resumes. */
  function Lead(i: Index, initial: U16): nat {
    if i.ram.IndexOn? then i.ram.next + STRIDE else if i.durable.Some? then i.durable.value else initial
  }

  /** A counter that started from an empty flash at `initial`. */
  ghost predicate Started(i: Index, initial: U16) {
    && (i.durable.Some? ==> i.durable.value >= initial)
    && (i.staged.Some? ==> i.staged.value >= initial)
    && (i.ram.IndexOn? ==> i.ram.next >= initial && (i.durable.None? ==> i.ram.next == initial))
    && (forall k :: 0 <= k < |i.issued| ==> i.issued[k] >= initial)
  }

  lemma StepLead(h: Hub, i: Index, e: Event, initial: U16)
    requires Safe(i) && Tracks(h, i) && Started(i, initial) && BootNotAhead(h, e) && Configured([e], initial)
    ensures Started(IndexStep(i, e), initial)
    ensures Lead(IndexStep(i, e), initial)
         <= Lead(i, initial) + (|IndexStep(i, e).issued| - |i.issued|) + (if IsRestart(h, e) then STRIDE else 0)
    ensures |i.issued| <= |IndexStep(i, e).issued| <= |i.issued| + 1
    ensures |IndexStep(i, e).issued| > |i.issued| ==> IndexStep(i, e).issued[|i.issued|] + STRIDE <= Lead(i, initial)
  {
    assert e in [e];
  }

  /** From the `from`th on, every index stays below a lead that grows by one per command. */
  ghost predicate Led(issued: seq<nat>, from: nat, lead: nat) {
    forall k :: from <= k < |issued| ==> issued[k] + STRIDE <= lead + (k - from)
  }

  lemma LedEarlier(i: Index, j: Index, issued: seq<nat>, lead: nat, lead': nat)
    requires i.issued <= j.issued <= issued && |j.issued| <= |i.issued| + 1
    requires |j.issued| > |i.issued| ==> j.issued[|i.issued|] + STRIDE <= lead
    requires lead' <= lead + (|j.issued| - |i.issued|) && Led(issued, |j.issued|, lead')
    ensures Led(issued, |i.issued|, lead)
  {
    forall k | |i.issued| <= k < |issued| ensures issued[k] + STRIDE <= lead + (k - |i.issued|) {
      if k < |j.issued| { assert issued[k] == j.issued[k]; }
    }
  }

  lemma {:induction false} LeadBound(h: Hub, i: Index, es: seq<Event>, initial: U16)
    requires Safe(i) && Tracks(h, i) && Started(i, initial) && NotAhead(h, es) && Configured(es, initial)
    ensures var j := IndexRun(i, es);
            && Started(j, initial) && i.issued <= j.issued
            && Led(j.issued, |i.issued|, Lead(i, initial) + STRIDE * Restarts(h, es))
    decreases |es|
  {
    if es != [] {
      assert forall e :: e in [es[0]] ==> e in es;
      StepKeeps(h, i, es[0]);
      StepLead(h, i, es[0], initial);
      var i' := IndexStep(i, es[0]);
      LeadBound(Step(h, es[0]), i', es[1..], initial);
      LedEarlier(i, i', IndexRun(i, es).issued, Lead(i, initial) + STRIDE * Restarts(h, es),
                 Lead(i', initial) + STRIDE * Restarts(Step(h, es[0]), es[1..]));
    }
  }

  lemma NoReplayBelowABlock(es: seq<Event>, initial: U16)
    requires initial < STRIDE && Configured(es, initial) && ShortOfARing(es)
    ensures OneCommandPerSequence(Run(PoweredDown(None), es).air)
  {
    var h, gs := Run(PoweredDown(None), es), Indices(None, es);
    GridKeepsAhead(PoweredDown(None), es, initial, initial);
    ReplaySafety(None, es);
    LeadBound(PoweredDown(None), IndexStart(None), es, initial);
    forall a, b | 0 <= a < |h.air| && 0 <= b < |h.air| && h.air[a].sequence == h.air[b].sequence
      ensures h.air[a].command == h.air[b].command
    {
      var m, n := h.air[a].command, h.air[b].command;
      if gs[m] <= gs[n] { CloseMod(gs[m], gs[n]); } else { CloseMod(gs[n], gs[m]); }
    }
  }

  // --- A block or more: one power loss replays ---

  /** `m` commands of one copy each. */
  function Sends(m: nat): seq<Event> { if m == 0 then [] else [HandOut, Transmit] + Sends(m - 1) }

  /** `n` whole blocks. */
  function Blocks(n: nat): seq<Event> { if n == 0 then [] else ([Reserve] + Sends(STRIDE)) + Blocks(n - 1) }

  lemma {:induction false} IndexRunConcat(i: Index, a: seq<Event>, b: seq<Event>)
    ensures IndexRun(i, a + b) == IndexRun(IndexRun(i, a), b)
    decreases |a|
  {
    if a == [] {
      assert a + b == b;
    } else {
      assert (a + b)[1..] == a[1..] + b;
      IndexRunConcat(IndexStep(i, a[0]), a[1..], b);
    }
  }

  lemma IndexRunOne(i: Index, e: Event)
    ensures IndexRun(i, [e]) == IndexStep(i, e)
  {
    assert IndexRun(i, [e]) == IndexRun(IndexStep(i, e), []);
  }

  lemma {:induction false} SendsIndex(i: Index, m: nat)
    requires i.ram.IndexOn? && i.ram.next + m <= i.ram.reserved
    ensures var j := IndexRun(i, Sends(m));
            j.ram == IndexOn(i.ram.next + m, i.ram.reserved) && j.durable == i.durable && |j.issued| == |i.issued| + m
    decreases m
  {
    if m > 0 {
      var i1 := IndexStep(i, HandOut);
      assert Sends(m)[0] == HandOut && Sends(m)[1..] == [Transmit] + Sends(m - 1);
      assert ([Transmit] + Sends(m - 1))[1..] == Sends(m - 1);
      assert IndexRun(i, Sends(m)) == IndexRun(i1, [Transmit] + Sends(m - 1)) == IndexRun(i1, Sends(m - 1));
      SendsIndex(i1, m - 1);
    }
  }

  lemma BlockIndex(i: Index)
    requires i.ram.IndexOn? && i.ram.next == i.ram.reserved
    ensures var j, end := IndexRun(i, [Reserve] + Sends(STRIDE)), i.ram.next + STRIDE;
            j.ram == IndexOn(end, end) && |j.issued| == |i.issued| + STRIDE && j.durable == Some(end)
  {
    IndexRunConcat(i, [Reserve], Sends(STRIDE));
    IndexRunOne(i, Reserve);
    SendsIndex(IndexStep(i, Reserve), STRIDE);
  }

  lemma {:induction false} BlocksIndex(i: Index, n: nat)
    requires i.ram.IndexOn? && i.ram.next == i.ram.reserved
    ensures var j, end := IndexRun(i, Blocks(n)), i.ram.next + STRIDE * n;
            && j.ram == IndexOn(end, end) && |j.issued| == |i.issued| + STRIDE * n
            && j.durable == if n == 0 then i.durable else Some(end)
    decreases n
  {
    if n > 0 {
      BlockIndex(i);
      IndexRunConcat(i, [Reserve] + Sends(STRIDE), Blocks(n - 1));
      BlocksIndex(IndexRun(i, [Reserve] + Sends(STRIDE)), n - 1);
    }
  }

  /** How many blocks from `initial` on wrap the ring. */
  function BlocksToWrap(initial: U16): (k: nat)
    ensures k >= 1 && initial + STRIDE * k == RING + initial % STRIDE
  {
    RING / STRIDE - initial / STRIDE
  }

  /** The rest of one block, whole blocks, and one more reservation. */
  function Stretch(m: nat, n: nat): seq<Event> { Sends(m) + Blocks(n) + [Reserve] }

  /** What follows the first command up to a reservation that wraps. */
  function UpToWrap(initial: U16): seq<Event> {
    var k := BlocksToWrap(initial);
    if k == 1 then [] else Stretch(STRIDE - 1, k - 2)
  }

  lemma IndexFirst(initial: U16)
    ensures IndexRun(IndexStart(None), FirstCommand(initial))
         == Index(IndexOn(initial + 1, initial + STRIDE), Some(initial + STRIDE), None, [initial])
  {
    var i0 := IndexStart(None);
    var i1 := IndexStep(i0, Boot(initial));
    var i2 := IndexStep(i1, Reserve);
    IndexRunConcat(i0, [Boot(initial)], [Reserve, HandOut, Transmit]);
    IndexRunOne(i0, Boot(initial));
    IndexRunConcat(i1, [Reserve], [HandOut, Transmit]);
    IndexRunOne(i1, Reserve);
    IndexRunConcat(i2, [HandOut], [Transmit]);
    IndexRunOne(i2, HandOut);
    IndexRunOne(IndexStep(i2, HandOut), Transmit);
    assert [Boot(initial)] + [Reserve, HandOut, Transmit] == FirstCommand(initial);
    assert [Reserve] + [HandOut, Transmit] == [Reserve, HandOut, Transmit]
        && [HandOut] + [Transmit] == [HandOut, Transmit];
  }

  /** The rest of a block, `n` more and the next reservation. */
  lemma IndexStretch(i: Index, n: nat)
    requires i.ram.IndexOn? && i.ram.reserved == i.ram.next + (STRIDE - 1)
    ensures var j := IndexRun(i, Stretch(STRIDE - 1, n));
            && j.durable == Some(i.ram.reserved + STRIDE * n + STRIDE)
            && |j.issued| == |i.issued| + (STRIDE - 1) + STRIDE * n
  {
    SendsIndex(i, STRIDE - 1);
    var i1 := IndexRun(i, Sends(STRIDE - 1));
    BlocksIndex(i1, n);
    var i2 := IndexRun(i1, Blocks(n));
    IndexRunConcat(i, Sends(STRIDE - 1), Blocks(n));
    IndexRunConcat(i, Sends(STRIDE - 1) + Blocks(n), [Reserve]);
    IndexRunOne(i2, Reserve);
  }

  /** The reservation reaches the wrap after fewer commands than the ring has numbers above `initial`. */
  lemma IndexUpToWrap(i: Index, initial: U16)
    requires i.ram == IndexOn(initial + 1, initial + STRIDE) && i.durable == Some(initial + STRIDE) && |i.issued| == 1
    ensures var j := IndexRun(i, UpToWrap(initial));
            && j.durable == Some(RING + initial % STRIDE)
            && |j.issued| <= 1 + STRIDE * (BlocksToWrap(initial) - 1)
            && |j.issued| + initial <= RING + STRIDE
  {
    if BlocksToWrap(initial) > 1 { IndexStretch(i, BlocksToWrap(initial) - 2); }
  }

  lemma {:induction false} RestartsConcat(h: Hub, a: seq<Event>, b: seq<Event>)
    ensures Restarts(h, a + b) == Restarts(h, a) + Restarts(Run(h, a), b)
    decreases |a|
  {
    if a == [] {
      assert a + b == b;
    } else {
      assert (a + b)[1..] == a[1..] + b;
      RestartsConcat(Step(h, a[0]), a[1..], b);
    }
  }

  predicate NoBoot(es: seq<Event>) { es == [] || (!es[0].Boot? && NoBoot(es[1..])) }

  lemma {:induction false} NoBootConcat(a: seq<Event>, b: seq<Event>)
    requires NoBoot(a) && NoBoot(b)
    ensures NoBoot(a + b)
  {
    if a == [] {
      assert a + b == b;
    } else {
      assert (a + b)[1..] == a[1..] + b;
      NoBootConcat(a[1..], b);
    }
  }

  lemma {:induction false} BootsCount(h: Hub, es: seq<Event>, initial: U16)
    requires NoBoot(es)
    ensures Restarts(h, es) == 0 && Configured(es, initial)
    decreases |es|
  {
    if es != [] { BootsCount(Step(h, es[0]), es[1..], initial); }
  }

  lemma NoBootOne(e: Event)
    requires !e.Boot?
    ensures NoBoot([e])
  {
    assert [e][1..] == [];
  }

  lemma {:induction false} NoBootInSends(m: nat)
    ensures NoBoot(Sends(m))
  {
    if m > 0 {
      NoBootOne(HandOut);
      NoBootOne(Transmit);
      assert [HandOut] + [Transmit] == [HandOut, Transmit];
      NoBootConcat([HandOut], [Transmit]);
      NoBootInSends(m - 1);
      NoBootConcat([HandOut, Transmit], Sends(m - 1));
    }
  }

  lemma {:induction false} NoBootInBlocks(n: nat)
    ensures NoBoot(Blocks(n))
  {
    if n > 0 {
      NoBootOne(Reserve);
      NoBootInSends(STRIDE);
      NoBootConcat([Reserve], Sends(STRIDE));
      NoBootInBlocks(n - 1);
      NoBootConcat([Reserve] + Sends(STRIDE), Blocks(n - 1));
    }
  }

  lemma NoBootInStretch(m: nat, n: nat)
    ensures NoBoot(Stretch(m, n))
  {
    NoBootInSends(m);
    NoBootInBlocks(n);
    NoBootConcat(Sends(m), Blocks(n));
    NoBootOne(Reserve);
    NoBootConcat(Sends(m) + Blocks(n), [Reserve]);
  }

  lemma NoBootUpToWrap(initial: U16)
    ensures NoBoot(UpToWrap(initial) + [Crash])
  {
    if BlocksToWrap(initial) > 1 { NoBootInStretch(STRIDE - 1, BlocksToWrap(initial) - 2); }
    NoBootOne(Crash);
    NoBootConcat(UpToWrap(initial), [Crash]);
  }

  /** One command, whole blocks until the reservation wraps, one power loss, and the first command again. */
  function ReplayingRun(initial: U16): seq<Event> {
    FirstCommand(initial) + ((UpToWrap(initial) + [Crash]) + FirstCommand(initial))
  }

  lemma FirstRestarts(h: Hub, initial: U16)
    requires h.cell.ram.Off?
    ensures Restarts(h, FirstCommand(initial)) == 1
  {
    var rest := [Reserve, HandOut, Transmit];
    assert FirstCommand(initial)[1..] == rest && rest[1..] == [HandOut, Transmit] && rest[2..] == [Transmit];
    assert [HandOut, Transmit][1..] == [Transmit] && [Transmit][1..] == [];
    BootsCount(Step(h, Boot(initial)), rest, initial);
  }

  /** The hub once a reservation has wrapped to `low`. */
  lemma AtTheWrap(h: Hub, i: Index, es: seq<Event>, low: nat)
    requires Safe(i) && Tracks(h, i) && h.air != [] && |i.issued| == 1 && low < STRIDE
    requires IndexRun(i, es).durable == Some(RING + low)
    ensures var g := Run(h, es);
            && g.cell.durable == Some(low) && |g.handed| == |IndexRun(i, es).issued| >= 1
            && g.air != [] && g.air[0] == h.air[0]
  {
    RunKeeps(h, i, es);
    AirGrows(h, es);
    assert (RING + low) % RING == low;
  }

  lemma AfterTheFirst(initial: U16) returns (h: Hub, i: Index)
    ensures h == Run(PoweredDown(None), FirstCommand(initial)) && Safe(i) && Tracks(h, i)
    ensures i == Index(IndexOn(initial + 1, initial + STRIDE), Some(initial + STRIDE), None, [initial])
    ensures h.air == [Copy(0, initial)]
  {
    h, i := Run(PoweredDown(None), FirstCommand(initial)), IndexRun(IndexStart(None), FirstCommand(initial));
    RunKeeps(PoweredDown(None), IndexStart(None), FirstCommand(initial));
    IndexFirst(initial);
    OneCommand(PoweredDown(None), initial);
  }

  lemma RunOne(h: Hub, e: Event)
    ensures Run(h, [e]) == Step(h, e)
  {
    assert Run(h, [e]) == Run(Step(h, e), []);
  }

  /** The hub just before it starts again: a power loss after the wrapping reservation. */
  lemma BeforeTheReplay(initial: U16) returns (h: Hub)
    ensures h == Run(Run(PoweredDown(None), FirstCommand(initial)), UpToWrap(initial) + [Crash])
    ensures h.cell.ram.Off? && h.cell.durable == Some(initial % STRIDE)
    ensures 1 <= |h.handed| <= 1 + STRIDE * (BlocksToWrap(initial) - 1)
    ensures h.air != [] && h.air[0] == Copy(0, initial)
  {
    var h1, i1 := AfterTheFirst(initial);
    IndexUpToWrap(i1, initial);
    AtTheWrap(h1, i1, UpToWrap(initial), initial % STRIDE);
    var h2 := Run(h1, UpToWrap(initial));
    RunConcat(h1, UpToWrap(initial), [Crash]);
    RunOne(h2, Crash);
    h := Step(h2, Crash);
  }

  lemma ReplayingRunRestarts(initial: U16)
    ensures Restarts(PoweredDown(None), ReplayingRun(initial)) == 2
  {
    var h0 := PoweredDown(None);
    var first, quiet := FirstCommand(initial), UpToWrap(initial) + [Crash];
    var h1 := Run(h0, first);
    NoBootUpToWrap(initial);
    BootsCount(h1, quiet, initial);
    var h2 := BeforeTheReplay(initial);
    RestartsConcat(h0, first, quiet + first);
    RestartsConcat(h1, quiet, first);
    FirstRestarts(h0, initial);
    FirstRestarts(h2, initial);
  }

  lemma ReplayingRunConfigured(initial: U16)
    ensures Configured(ReplayingRun(initial), initial)
  {
    NoBootUpToWrap(initial);
    BootsCount(PoweredDown(None), UpToWrap(initial) + [Crash], initial);
  }

  lemma ReplayingRunEnds(initial: U16, h: Hub)
    requires initial >= STRIDE && h.cell.ram.Off? && h.cell.durable == Some(initial % STRIDE)
    requires h == Run(Run(PoweredDown(None), FirstCommand(initial)), UpToWrap(initial) + [Crash])
    ensures var g := Run(PoweredDown(None), ReplayingRun(initial));
            |g.handed| == |h.handed| + 1 && g.air == h.air + [Copy(|h.handed|, initial)]
  {
    var first, quiet := FirstCommand(initial), UpToWrap(initial) + [Crash];
    RunConcat(PoweredDown(None), first, quiet + first);
    RunConcat(Run(PoweredDown(None), first), quiet, first);
    OneCommand(h, initial);
  }

  lemma ReplaysFromABlockOn(initial: U16)
    requires initial >= STRIDE
    ensures var es := ReplayingRun(initial);
            && Configured(es, initial) && ShortOfARing(es)
            && !OneCommandPerSequence(Run(PoweredDown(None), es).air)
  {
    var h := BeforeTheReplay(initial);
    ReplayingRunConfigured(initial);
    ReplayingRunEnds(initial, h);
    ReplayingRunRestarts(initial);
    var air := Run(PoweredDown(None), ReplayingRun(initial)).air;
    assert air[0] == Copy(0, initial) && air[|air| - 1] == Copy(|h.handed|, initial);
  }

  /** The exact condition on the setting. Starting from an empty flash with one constant `initial_sequence`, no run that
      stays short of a whole ring ever has two commands with one sequence on air if and only if it is below a block. */
  lemma NoReplayIff(initial: U16)
    ensures (forall es :: Configured(es, initial) && ShortOfARing(es)
               ==> OneCommandPerSequence(Run(PoweredDown(None), es).air))
      <==> initial < STRIDE
  {
    if initial < STRIDE {
      forall es | Configured(es, initial) && ShortOfARing(es)
        ensures OneCommandPerSequence(Run(PoweredDown(None), es).air)
      {
        NoReplayBelowABlock(es, initial);
      }
    } else {
      ReplaysFromABlockOn(initial);
      var es := ReplayingRun(initial);
      assert Configured(es, initial) && ShortOfARing(es);
    }
  }
}
