/** What one address's transmitter logs over several power cycles, whenever power is lost. */
module OneWayHistory {
  import opened Wrappers
  import opened Words
  import opened SequenceCounter
  import opened InitialSequence
  import opened OneWaySequenceStore
  import opened OneWayCommands

  /** What may happen to a counter. `Others` is what commands of other addresses do to it. `Cut` is a command during
      which power is lost after the first `kept` of its steps. */
  datatype Cause = PowerUp(initial: U16) | PowerLoss | Call(deed: Deed) | Others | Cut(deed: Deed, kept: nat)

  /** One act: its counter events, and what the log shows of it. */
  datatype Act = Act(cause: Cause, events: seq<Event>, log: seq<TxEvent>)

  ghost predicate AllOnAir(log: seq<TxEvent>) { forall i :: 0 <= i < |log| ==> log[i].OnAir? }

  /** The log of a command up to a power loss: one copy per transmission so far. */
  ghost predicate Seen(d: Deed, kept: nat, log: seq<TxEvent>) {
    kept <= |d.steps| && log <= d.segment && AllOnAir(log) && |log| == Transmissions(d.steps[..kept])
  }

  /** A counter in this state may live through the act. */
  ghost predicate Possible(c: Cell, a: Act) {
    match a.cause
    case PowerUp(initial) => c.ram.Off? && a.events == [Boot(initial)] && a.log == []
    case PowerLoss => a.events == [Crash] && a.log == []
    case Call(d) => Performs(d) && d.before == c && a.events == d.steps && a.log == d.segment
    case Others => (forall e :: e in a.events ==> e.Commit? || e.Drop?) && a.log == []
    case Cut(d, kept) => Performs(d) && d.before == c && Seen(d, kept, a.log) && a.events == d.steps[..kept] + [Crash]
  }

  function EventsUpTo(acts: seq<Act>, m: nat): seq<Event>
    requires m <= |acts|
  {
    if m == 0 then [] else EventsUpTo(acts, m - 1) + acts[m - 1].events
  }

  function EventsOf(acts: seq<Act>): seq<Event> { EventsUpTo(acts, |acts|) }

  /** The hub when the `m`th act begins. */
  function HubAt(h: Hub, acts: seq<Act>, m: nat): Hub
    requires m <= |acts|
  {
    if m == 0 then h else Run(HubAt(h, acts, m - 1), acts[m - 1].events)
  }

  ghost predicate Lives(h: Hub, acts: seq<Act>, m: nat)
    requires m < |acts|
  {
    Possible(HubAt(h, acts, m).cell, acts[m])
  }

  /** The acts follow one another, each from the counter the last one left. */
  ghost predicate History(h: Hub, acts: seq<Act>) { forall m :: 0 <= m < |acts| ==> Lives(h, acts, m) }

  lemma {:induction false} HubAtIsRun(h: Hub, acts: seq<Act>, m: nat)
    requires m <= |acts|
    ensures HubAt(h, acts, m) == Run(h, EventsUpTo(acts, m))
    decreases m
  {
    if m > 0 {
      HubAtIsRun(h, acts, m - 1);
      RunConcat(h, EventsUpTo(acts, m - 1), acts[m - 1].events);
    }
  }

  /** The `a`th log entry of the act is a copy on air. */
  predicate Sent(act: Act, a: nat) { a < |act.log| && act.log[a].OnAir? }

  /** The sequence that copy carries. */
  function Carried(act: Act, a: nat): U16
    requires Sent(act, a)
  {
    act.log[a].frame.sequence
  }

  /** No frame that one act put on air carries a sequence that another act put on air. */
  ghost predicate SequencesApart(acts: seq<Act>) {
    forall m: nat, n: nat, a: nat, b: nat :: m < n < |acts| && Sent(acts[m], a) && Sent(acts[n], b)
      ==> Carried(acts[m], a) != Carried(acts[n], b)
  }

  // --- The log is the air ---

  lemma {:induction false} AirAtMost(h: Hub, es: seq<Event>)
    ensures |Run(h, es).air| <= |h.air| + Transmissions(es)
    decreases |es|
  {
    if es != [] {
      var n := |es| - 1;
      AirAtMost(h, es[..n]);
      assert es == es[..n] + [es[n]];
      RunConcat(h, es[..n], [es[n]]);
      RunOne(Run(h, es[..n]), es[n]);
    }
  }

  lemma {:induction false} CopiesPrefix(log: seq<TxEvent>, n: nat, command: nat)
    requires n <= |log|
    ensures Copies(log[..n], command) <= Copies(log, command)
    decreases |log| - n
  {
    if n == |log| {
      assert log[..n] == log;
    } else {
      CopiesPrefix(log, n + 1, command);
      assert log[..n + 1][..n] == log[..n];
    }
  }

  lemma {:induction false} CopiesLength(log: seq<TxEvent>, c: nat, d: nat)
    ensures |Copies(log, c)| == |Copies(log, d)|
  {
    if log != [] { CopiesLength(log[..|log| - 1], c, d); }
  }

  lemma CutRun(h: Hub, d: Deed, kept: nat, seen: seq<TxEvent>)
    requires Performs(d) && d.before == h.cell && Seen(d, kept, seen)
    ensures Run(h, d.steps[..kept]).air == h.air + Copies(seen, |h.handed|)
  {
    var done, rest, n := d.steps[..kept], d.steps[kept..], |h.handed|;
    var g := Run(h, done);
    assert d.steps == done + rest;
    RunConcat(h, done, rest);
    TransmissionsConcat(done, rest);
    AirGrows(h, done);
    AirGrows(g, rest);
    AirAtMost(h, done);
    AirAtMost(g, rest);
    CopiesLength(d.segment, 0, n);
    CopiesCounted(seen, n);
    CopiesPrefix(d.segment, |seen|, n);
    assert d.segment[..|seen|] == seen;
    assert Run(h, d.steps) == Performed(h, d);
    SamePrefix(h.air, Copies(d.segment, n), g.air, Copies(seen, n));
  }

  lemma SamePrefix<T>(a: seq<T>, all: seq<T>, b: seq<T>, some: seq<T>)
    requires a <= b <= a + all && some <= all && |b| == |a| + |some|
    ensures b == a + some
  {
    assert forall k :: 0 <= k < |b| ==> b[k] == (a + all)[k];
  }

  /** An act adds to the air what it logs, as copies of the next command. */
  lemma ActRun(h: Hub, a: Act)
    requires Possible(h.cell, a)
    ensures Run(h, a.events).air == h.air + Copies(a.log, |h.handed|)
  {
    match a.cause
    case PowerUp(initial) => RunOne(h, Boot(initial));
    case PowerLoss => RunOne(h, Crash);
    case Call(d) => assert Run(h, d.steps) == Performed(h, d);
    case Others => SettlingRun(h, a.events);
    case Cut(d, kept) =>
      CutRun(h, d, kept, a.log);
      RunConcat(h, d.steps[..kept], [Crash]);
      RunOne(Run(h, d.steps[..kept]), Crash);
  }

  lemma {:induction false} SettlingRun(h: Hub, es: seq<Event>)
    requires forall e :: e in es ==> e.Commit? || e.Drop?
    ensures Run(h, es).air == h.air
    decreases |es|
  {
    if es != [] { SettlingRun(Step(h, es[0]), es[1..]); }
  }

  /** The number the act's command has in the hub's history. */
  function CommandOf(h: Hub, acts: seq<Act>, m: nat): nat
    requires m <= |acts|
  {
    |HubAt(h, acts, m).handed|
  }

  /** Every copy on air belongs to a command that was handed out. */
  ghost predicate AirKnown(h: Hub) { forall k :: 0 <= k < |h.air| ==> h.air[k].command < |h.handed| }

  lemma {:induction false} RunKnown(h: Hub, es: seq<Event>)
    requires AirKnown(h)
    ensures AirKnown(Run(h, es)) && |h.handed| <= |Run(h, es).handed|
    decreases |es|
  {
    if es != [] { RunKnown(Step(h, es[0]), es[1..]); }
  }

  lemma {:induction false} CopiesAt(log: seq<TxEvent>, a: nat, command: nat) returns (k: nat)
    requires a < |log| && log[a].OnAir?
    ensures k < |Copies(log, command)| && Copies(log, command)[k] == Copy(command, log[a].frame.sequence)
    decreases |log|
  {
    var n := |log| - 1;
    if a == n { k := |Copies(log[..n], command)|; } else { k := CopiesAt(log[..n], a, command); }
  }

  lemma {:induction false} CopyFrom(log: seq<TxEvent>, k: nat, command: nat) returns (a: nat)
    requires k < |Copies(log, command)|
    ensures a < |log| && log[a].OnAir? && Copies(log, command)[k] == Copy(command, log[a].frame.sequence)
    decreases |log|
  {
    var n := |log| - 1;
    if k < |Copies(log[..n], command)| { a := CopyFrom(log[..n], k, command); } else { a := n; }
  }

  lemma {:induction false} HistoryGrows(h: Hub, acts: seq<Act>, m: nat, n: nat)
    requires m <= n <= |acts|
    ensures HubAt(h, acts, m).air <= HubAt(h, acts, n).air && CommandOf(h, acts, m) <= CommandOf(h, acts, n)
    decreases n - m
  {
    if m < n {
      HistoryGrows(h, acts, m, n - 1);
      AirGrows(HubAt(h, acts, n - 1), acts[n - 1].events);
    }
  }

  lemma {:induction false} HistoryKnown(h: Hub, acts: seq<Act>, m: nat)
    requires m <= |acts| && AirKnown(h)
    ensures AirKnown(HubAt(h, acts, m))
    decreases m
  {
    if m > 0 {
      HistoryKnown(h, acts, m - 1);
      RunKnown(HubAt(h, acts, m - 1), acts[m - 1].events);
    }
  }

  lemma ActAt(h: Hub, acts: seq<Act>, m: nat)
    requires History(h, acts) && m < |acts|
    ensures HubAt(h, acts, m + 1).air == HubAt(h, acts, m).air + Copies(acts[m].log, CommandOf(h, acts, m))
  {
    assert Lives(h, acts, m);
    ActRun(HubAt(h, acts, m), acts[m]);
  }

  /** A logged copy is on air, for its own act's command. */
  lemma LoggedIsOnAir(h: Hub, acts: seq<Act>, m: nat, a: nat) returns (k: nat)
    requires History(h, acts) && m < |acts| && Sent(acts[m], a)
    ensures var air := HubAt(h, acts, |acts|).air;
            k < |air| && air[k] == Copy(CommandOf(h, acts, m), Carried(acts[m], a))
  {
    var g := HubAt(h, acts, m);
    ActAt(h, acts, m);
    HistoryGrows(h, acts, m + 1, |acts|);
    k := CopiesAt(acts[m].log, a, |g.handed|);
    k := |g.air| + k;
    assert HubAt(h, acts, m + 1).air[k] == Copy(CommandOf(h, acts, m), Carried(acts[m], a));
  }

  /** A copy put on air during the acts was logged by one of them. */
  lemma {:induction false} OnAirIsLogged(h: Hub, acts: seq<Act>, n: nat, k: nat) returns (m: nat, a: nat)
    requires History(h, acts) && n <= |acts| && |h.air| <= k < |HubAt(h, acts, n).air|
    ensures m < n && Sent(acts[m], a)
    ensures HubAt(h, acts, n).air[k] == Copy(CommandOf(h, acts, m), Carried(acts[m], a))
    decreases n
  {
    var g := HubAt(h, acts, n - 1);
    ActAt(h, acts, n - 1);
    if k < |g.air| {
      m, a := OnAirIsLogged(h, acts, n - 1, k);
    } else {
      m := n - 1;
      a := CopyFrom(acts[m].log, k - |g.air|, |g.handed|);
    }
  }

  lemma ActCounts(h: Hub, act: Act, a: nat)
    requires Possible(h.cell, act) && AirKnown(h) && Sent(act, a)
    ensures |h.handed| < |Run(h, act.events).handed|
  {
    var g := Run(h, act.events);
    RunKnown(h, act.events);
    ActRun(h, act);
    var k := CopiesAt(act.log, a, |h.handed|);
    assert g.air[|h.air| + k].command == |h.handed|;
  }

  lemma ActCountsAt(h: Hub, acts: seq<Act>, m: nat, a: nat)
    requires History(h, acts) && AirKnown(h) && m < |acts| && Sent(acts[m], a)
    ensures CommandOf(h, acts, m) < CommandOf(h, acts, m + 1)
  {
    assert Lives(h, acts, m);
    HistoryKnown(h, acts, m);
    ActCounts(HubAt(h, acts, m), acts[m], a);
  }

  /** An act that put something on air took a command number of its own. */
  lemma CommandsRise(h: Hub, acts: seq<Act>, m: nat, n: nat, a: nat)
    requires History(h, acts) && AirKnown(h) && m < n <= |acts| && Sent(acts[m], a)
    ensures CommandOf(h, acts, m) < CommandOf(h, acts, n)
  {
    ActCountsAt(h, acts, m, a);
    HistoryGrows(h, acts, m + 1, n);
  }

  /** What the log of a history shows is exactly what its counter's run put on air: the acts keep their sequences apart
      if and only if no two commands share one on air. */
  lemma ApartIff(durable: Option<U16>, acts: seq<Act>)
    requires History(PoweredDown(durable), acts)
    ensures SequencesApart(acts) <==> OneCommandPerSequence(Run(PoweredDown(durable), EventsOf(acts)).air)
  {
    if SequencesApart(acts) { OneIfApart(durable, acts); }
    if OneCommandPerSequence(Run(PoweredDown(durable), EventsOf(acts)).air) { ApartIfOne(durable, acts); }
  }

  lemma OneIfApart(durable: Option<U16>, acts: seq<Act>)
    requires History(PoweredDown(durable), acts) && SequencesApart(acts)
    ensures OneCommandPerSequence(Run(PoweredDown(durable), EventsOf(acts)).air)
  {
    var h := PoweredDown(durable);
    HubAtIsRun(h, acts, |acts|);
    var air := HubAt(h, acts, |acts|).air;
    forall j, k | 0 <= j < |air| && 0 <= k < |air| && air[j].sequence == air[k].sequence
      ensures air[j].command == air[k].command
    {
      var m, a := OnAirIsLogged(h, acts, |acts|, j);
      var n, b := OnAirIsLogged(h, acts, |acts|, k);
      assert m == n;
    }
  }

  lemma ApartIfOne(durable: Option<U16>, acts: seq<Act>)
    requires History(PoweredDown(durable), acts)
    requires OneCommandPerSequence(Run(PoweredDown(durable), EventsOf(acts)).air)
    ensures SequencesApart(acts)
  {
    var h := PoweredDown(durable);
    HubAtIsRun(h, acts, |acts|);
    forall m: nat, n: nat, a: nat, b: nat | m < n < |acts| && Sent(acts[m], a) && Sent(acts[n], b)
      ensures Carried(acts[m], a) != Carried(acts[n], b)
    {
      var j := LoggedIsOnAir(h, acts, m, a);
      var k := LoggedIsOnAir(h, acts, n, b);
      CommandsRise(h, acts, m, n, a);
    }
  }

  // --- One command per sequence, in what the transmitter logs ---

  /** Over any number of power cycles, whatever fails and wherever a command is cut off: two frames the transmitter put
      on air with one sequence belong to one command, as long as no reservation wraps. */
  lemma LoggedSequencesApart(durable: Option<U16>, acts: seq<Act>)
    requires History(PoweredDown(durable), acts) && NeverWraps(PoweredDown(durable), EventsOf(acts))
    ensures SequencesApart(acts)
  {
    SameSequenceSameCommand(durable, EventsOf(acts));
    ApartIff(durable, acts);
  }

  /** And past the wrap, short of a whole ring, from an empty flash under one setting below a block. */
  lemma LoggedSequencesApartPastTheWrap(acts: seq<Act>, initial: U16)
    requires History(PoweredDown(None), acts) && initial < STRIDE
    requires Configured(EventsOf(acts), initial) && ShortOfARing(EventsOf(acts))
    ensures SequencesApart(acts)
  {
    NoReplayBelowABlock(EventsOf(acts), initial);
    ApartIff(None, acts);
  }

  /** A performed command after some settling of its counter. */
  lemma SettledCall(h: Hub, d: Deed) returns (settle: Act, call: Act)
    requires Performs(d) && Disturbed(h.cell, d.before)
    ensures settle.cause == Others && call.cause == Call(d)
    ensures Possible(h.cell, settle) && Possible(Run(h, settle.events).cell, call)
    ensures Run(Run(h, settle.events), call.events).cell == d.after
  {
    var es := DisturbanceIsARun(h.cell, d.before);
    settle, call := Act(Others, es, []), Act(Call(d), d.steps, d.segment);
    RunIsCellRun(h, es);
    assert Run(Run(h, es), d.steps) == Performed(Run(h, es), d);
  }

  lemma {:induction false} HubAtPrefix(h: Hub, acts: seq<Act>, more: seq<Act>, m: nat)
    requires m <= |acts|
    ensures HubAt(h, acts + more, m) == HubAt(h, acts, m)
    decreases m
  {
    if m > 0 { HubAtPrefix(h, acts, more, m - 1); }
  }

  /** A history goes on with any act its counter may live through. */
  lemma OneMoreAct(h: Hub, acts: seq<Act>, a: Act)
    requires History(h, acts) && Possible(HubAt(h, acts, |acts|).cell, a)
    ensures History(h, acts + [a])
    ensures HubAt(h, acts + [a], |acts| + 1) == Run(HubAt(h, acts, |acts|), a.events)
  {
    forall m | 0 <= m < |acts + [a]| ensures Lives(h, acts + [a], m) {
      assert m < |acts| ==> Lives(h, acts, m);
      HubAtPrefix(h, acts, [a], m);
    }
    HubAtPrefix(h, acts, [a], |acts|);
  }

  /** The calls of these acts, in order. */
  function Calls(acts: seq<Act>): seq<Deed> {
    if acts == [] then []
    else Calls(acts[..|acts| - 1]) + if acts[|acts| - 1].cause.Call? then [acts[|acts| - 1].cause.deed] else []
  }

  lemma CallsAppend(acts: seq<Act>, a: Act)
    ensures Calls(acts + [a]) == Calls(acts) + if a.cause.Call? then [a.cause.deed] else []
  {
    assert (acts + [a])[..|acts|] == acts;
  }

  /** A history goes on with a command after some settling. */
  lemma OneMoreCall(h: Hub, acts: seq<Act>, d: Deed) returns (more: seq<Act>)
    requires History(h, acts) && Performs(d) && Disturbed(HubAt(h, acts, |acts|).cell, d.before)
    ensures History(h, more) && HubAt(h, more, |more|).cell == d.after && Calls(more) == Calls(acts) + [d]
  {
    var settle, call := SettledCall(HubAt(h, acts, |acts|), d);
    OneMoreAct(h, acts, settle);
    OneMoreAct(h, acts + [settle], call);
    CallsAppend(acts, settle);
    CallsAppend(acts + [settle], call);
    more := acts + [settle] + [call];
  }

  /** Commands performed in turn are a history of their counter, with the settling in between that other addresses
      cause. */
  lemma {:induction false} InTurnIsAHistory(h: Hub, deeds: seq<Deed>, n: nat) returns (acts: seq<Act>)
    requires InTurn(deeds) && n <= |deeds| && (deeds != [] ==> Disturbed(h.cell, deeds[0].before))
    ensures History(h, acts) && Calls(acts) == deeds[..n]
    ensures HubAt(h, acts, |acts|).cell == if n == 0 then h.cell else deeds[n - 1].after
    decreases n
  {
    acts := [];
    if n > 0 {
      acts := InTurnIsAHistory(h, deeds, n - 1);
      InTurnAt(deeds, n - 1);
      acts := OneMoreCall(h, acts, deeds[n - 1]);
      assert deeds[..n] == deeds[..n - 1] + [deeds[n - 1]];
    }
  }

  lemma InTurnAt(deeds: seq<Deed>, k: nat)
    requires InTurn(deeds) && k < |deeds|
    ensures Performs(deeds[k]) && (k > 0 ==> Disturbed(deeds[k - 1].after, deeds[k].before))
  {
  }
}
