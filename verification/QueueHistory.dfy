/** What whole histories of the queue preserve: its shape, the order of 1W operations, and what each device is
    finally told. */
module QueueHistory {
  import opened OperationQueue
  import opened Words

  datatype Event = Ask(r: Request) | Take

  /** The queue with everything asked of it and everything dispatched from it so far. */
  datatype History = History(queue: seq<Operation>, asked: seq<Operation>, taken: seq<Operation>)

  function Step(h: History, e: Event): (r: History) {
    match e
    case Ask(r) => History(Enqueue(h.queue, r), h.asked + [OpOf(r)], h.taken)
    case Take => if h.queue == [] then h else History(h.queue[1..], h.asked, h.taken + [h.queue[0]])
  }

  function Run(h: History, es: seq<Event>): (r: History)
    decreases |es|
  {
    if es == [] then h else Run(Step(h, es[0]), es[1..])
  }

  const EMPTY := History([], [], [])

  // --- Shape ---

  /** Every reachable queue is [DISCOVER] ++ controls ++ polls, without duplicate polls or a separable pair. */
  lemma {:induction false} ReachableBanded(h: History, es: seq<Event>)
    requires Banded(h.queue)
    ensures Banded(Run(h, es).queue)
    decreases |es|
  {
    if es != [] {
      match es[0] {
        case Ask(r) => EnqueueKeepsBands(h.queue, r);
        case Take => assert forall i :: 0 <= i < |h.queue| - 1 ==> h.queue[1..][i] == h.queue[i + 1];
      }
      ReachableBanded(Step(h, es[0]), es[1..]);
    }
  }

  // --- 1W operations are never merged, dropped or reordered ---

  function IfOneWay(op: Operation): seq<Operation> { if IsOneWay(op.opType) then [op] else [] }

  function OneWay(q: seq<Operation>): seq<Operation> {
    if q == [] then [] else IfOneWay(q[0]) + OneWay(q[1..])
  }

  lemma {:induction false} OneWayConcat(a: seq<Operation>, b: seq<Operation>)
    ensures OneWay(a + b) == OneWay(a) + OneWay(b)
  {
    if a == [] {
      assert a + b == b;
    } else {
      OneWayConcat(a[1..], b);
      assert (a + b)[1..] == a[1..] + b;
      Associates(IfOneWay(a[0]), OneWay(a[1..]), OneWay(b));
    }
  }

  lemma {:induction false} OneWayDropStatus(q: seq<Operation>, d: string)
    ensures OneWay(DropStatus(q, d)) == OneWay(q)
  {
    if q != [] {
      OneWayDropStatus(q[1..], d);
      OneWayConcat(if IsStatusOf(q[0], d) then [] else [q[0]], DropStatus(q[1..], d));
    }
  }

  lemma {:induction false} OneWayDropPolls(q: seq<Operation>)
    ensures OneWay(DropPolls(q)) == OneWay(q)
  {
    if q != [] {
      OneWayDropPolls(q[1..]);
      OneWayConcat(if IsBackground(q[0].opType) then [] else [q[0]], DropPolls(q[1..]));
    }
  }

  lemma {:induction false} OnlyPolls(q: seq<Operation>)
    requires Banded(q) && q != [] && IsBackground(q[0].opType)
    ensures OneWay(q) == [] && forall i :: 0 <= i < |q| ==> IsBackground(q[i].opType)
  {
    forall i | 0 <= i < |q| ensures IsBackground(q[i].opType) { if i > 0 { assert Ordered(q[0], q[i]); } }
    if |q| > 1 {
      BandedTail(q);
      OnlyPolls(q[1..]);
    }
  }

  lemma BandedTail(q: seq<Operation>)
    requires Banded(q) && q != []
    ensures Banded(q[1..])
  {
    assert forall i :: 0 <= i < |q| - 1 ==> q[1..][i] == q[i + 1];
  }

  lemma OneWayCons(op: Operation, q: seq<Operation>)
    ensures OneWay([op] + q) == IfOneWay(op) + OneWay(q)
  {
    assert ([op] + q)[1..] == q;
  }

  lemma OneWayOne(op: Operation)
    ensures OneWay([op]) == IfOneWay(op)
  {
    assert [op][1..] == [];
  }

  lemma {:induction false} OneWayInsert(q: seq<Operation>, op: Operation)
    requires Banded(q)
    ensures OneWay(Insert(q, op)) == OneWay(q) + OneWay([op])
  {
    InsertCons(q, op);
    if q == [] {
    } else if IsBackground(q[0].opType) {
      OnlyPolls(q);
      OneWayCons(op, q);
      OneWayOne(op);
    } else {
      BandedTail(q);
      OneWayInsert(q[1..], op);
      OneWayCons(q[0], Insert(q[1..], op));
      Associates(IfOneWay(q[0]), OneWay(q[1..]), OneWay([op]));
    }
  }

  lemma {:induction false} OneWayUpdate(q: seq<Operation>, i: nat, op: Operation)
    requires i < |q| && !IsOneWay(q[i].opType) && !IsOneWay(op.opType)
    ensures OneWay(q[i := op]) == OneWay(q)
  {
    if i == 0 {
      assert q[0 := op][1..] == q[1..];
    } else {
      OneWayUpdate(q[1..], i - 1, op);
      assert q[i := op][1..] == q[1..][i - 1 := op];
    }
  }

  lemma OneWayPush(q: seq<Operation>, op: Operation)
    requires Banded(q)
    ensures OneWay(PushControl(q, op)) == OneWay(q) + OneWay([op])
  {
    OneWayDropStatus(q, op.deviceId);
    DropStatusBanded(q, op.deviceId);
    OneWayInsert(if IsOneWay(op.opType) then q else DropStatus(q, op.deviceId), op);
  }

  lemma OneWayEnqueue(q: seq<Operation>, r: Request)
    requires Banded(q)
    ensures OneWay(Enqueue(q, r)) == OneWay(q) + OneWay([OpOf(r)])
  {
    if Coalesces(q, r) {
      OneWayOne(OpOf(r));
      OneWayUpdate(q, MergeIndex(q, r), Merge(q[MergeIndex(q, r)], r));
    } else if r.Discover? {
      OneWayDiscover(q);
    } else if r.Status? || r.Name? {
      OneWayOne(OpOf(r));
      if Enqueue(q, r) != q { OneWayConcat(q, [OpOf(r)]); }
    } else {
      EnqueueIsPush(q, r);
      OneWayPush(q, OpOf(r));
    }
  }

  lemma OneWayDiscover(q: seq<Operation>)
    ensures OneWay(Enqueue(q, Discover)) == OneWay(q) + OneWay([OpOf(Discover)])
  {
    OneWayOne(OpOf(Discover));
    OneWayDropPolls(q);
    OneWayCons(OpOf(Discover), DropPolls(q));
    assert [] + OneWay(q) == OneWay(q) == OneWay(q) + [];
  }

  /** The invariant of OneWayHistory. */
  ghost predicate OneWayConserved(h: History) { OneWay(h.taken) + OneWay(h.queue) == OneWay(h.asked) }

  lemma TakeConserves(taken: seq<Operation>, q: seq<Operation>)
    requires q != []
    ensures OneWay(taken + [q[0]]) + OneWay(q[1..]) == OneWay(taken) + OneWay(q)
  {
    OneWayConcat(taken, [q[0]]);
    OneWayConcat([q[0]], q[1..]);
    assert [q[0]] + q[1..] == q;
    Associates(OneWay(taken), OneWay([q[0]]), OneWay(q[1..]));
  }

  lemma StepConserves(h: History, e: Event)
    requires Banded(h.queue) && OneWayConserved(h)
    ensures Banded(Step(h, e).queue) && OneWayConserved(Step(h, e))
  {
    match e
    case Ask(r) =>
      EnqueueKeepsBands(h.queue, r);
      OneWayEnqueue(h.queue, r);
      OneWayConcat(h.asked, [OpOf(r)]);
      Associates(OneWay(h.taken), OneWay(h.queue), OneWay([OpOf(r)]));
    case Take =>
      if h.queue != [] {
        BandedTail(h.queue);
        TakeConserves(h.taken, h.queue);
      }
  }

  /** 1W operations dispatched, then those pending, are exactly those asked for, in order, over every history. */
  lemma {:induction false} OneWayHistory(h: History, es: seq<Event>)
    requires Banded(h.queue) && OneWayConserved(h)
    ensures OneWayConserved(Run(h, es))
    decreases |es|
  {
    if es != [] {
      StepConserves(h, es[0]);
      OneWayHistory(Step(h, es[0]), es[1..]);
    }
  }

  // --- What a device is finally told ---

  /** The last thing commanded of an actuator: nothing, a value, or a named motion (STOP included). */
  datatype Goal = Untold | Value(value: Byte) | Named(command: CoverCommand)

  datatype Aim = Aim(main: Goal, tilt: Goal)

  predicate SetsMain(op: Operation, d: string) {
    op.deviceId == d &&
    (op.opType == SET_POSITION || op.opType == SET_POSITION_AND_TILT || op.opType == DEVICE_COMMAND ||
     op.opType == SET_LIGHT_STATE || op.opType == SET_LOCK_STATE || op.opType == SET_SWITCH_STATE)
  }

  predicate SetsTilt(op: Operation, d: string) {
    op.deviceId == d && (op.opType == SET_TILT || op.opType == SET_POSITION_AND_TILT || op.opType == DEVICE_COMMAND)
  }

  function MainGoal(op: Operation): Goal {
    if op.opType == DEVICE_COMMAND then Named(op.command) else Value(op.position)
  }

  /** A standalone tilt carries its value in `position`. */
  function TiltGoal(op: Operation): Goal {
    if op.opType == DEVICE_COMMAND then Named(op.command)
    else if op.opType == SET_TILT then Value(op.position) else Value(op.tilt)
  }

  /** Dispatching one operation, as device `d` sees it. */
  function Tell(a: Aim, op: Operation, d: string): Aim {
    Aim(if SetsMain(op, d) then MainGoal(op) else a.main, if SetsTilt(op, d) then TiltGoal(op) else a.tilt)
  }

  function Drain(a: Aim, q: seq<Operation>, d: string): Aim
    decreases |q|
  {
    if q == [] then a else Drain(Tell(a, q[0], d), q[1..], d)
  }

  lemma {:induction false} DrainConcat(a: Aim, p: seq<Operation>, q: seq<Operation>, d: string)
    ensures Drain(a, p + q, d) == Drain(Drain(a, p, d), q, d)
    decreases |p|
  {
    if p == [] {
      assert p + q == q;
    } else {
      assert (p + q)[1..] == p[1..] + q;
      DrainConcat(Tell(a, p[0], d), p[1..], q, d);
    }
  }

  lemma {:induction false} DrainSilent(a: Aim, q: seq<Operation>, d: string)
    requires forall i :: 0 <= i < |q| ==> !SetsMain(q[i], d) && !SetsTilt(q[i], d)
    ensures Drain(a, q, d) == a
    decreases |q|
  {
    if q != [] { DrainSilent(a, q[1..], d); }
  }

  lemma {:induction false} DrainDropStatus(a: Aim, q: seq<Operation>, x: string, d: string)
    ensures Drain(a, DropStatus(q, x), d) == Drain(a, q, d)
    decreases |q|
  {
    if q != [] {
      DrainConcat(a, if IsStatusOf(q[0], x) then [] else [q[0]], DropStatus(q[1..], x), d);
      assert Drain(a, [q[0]], d) == Drain(Tell(a, q[0], d), [], d);
      DrainDropStatus(Tell(a, q[0], d), q[1..], x, d);
    }
  }

  lemma {:induction false} DrainDropPolls(a: Aim, q: seq<Operation>, d: string)
    ensures Drain(a, DropPolls(q), d) == Drain(a, q, d)
    decreases |q|
  {
    if q != [] {
      DrainConcat(a, if IsBackground(q[0].opType) then [] else [q[0]], DropPolls(q[1..]), d);
      assert Drain(a, [q[0]], d) == Drain(Tell(a, q[0], d), [], d);
      DrainDropPolls(Tell(a, q[0], d), q[1..], d);
    }
  }

  lemma DrainOne(a: Aim, op: Operation, d: string)
    ensures Drain(a, [op], d) == Tell(a, op, d)
  {
    assert Drain(a, [op], d) == Drain(Tell(a, op, d), [], d);
  }

  lemma {:induction false} DrainInsert(a: Aim, q: seq<Operation>, op: Operation, d: string)
    requires Banded(q)
    ensures Drain(a, Insert(q, op), d) == Tell(Drain(a, q, d), op, d)
    decreases |q|
  {
    InsertCons(q, op);
    if q == [] {
      DrainOne(a, op, d);
    } else if IsBackground(q[0].opType) {
      OnlyPolls(q);
      DrainSilent(a, q, d);
      DrainSilent(Tell(a, op, d), q, d);
      assert ([op] + q)[1..] == q;
    } else {
      BandedTail(q);
      assert Insert(q, op)[1..] == Insert(q[1..], op);
      DrainInsert(Tell(a, q[0], d), q[1..], op, d);
    }
  }

  /** The last goal the queue holds for one side of a device, read from the back. */
  function LastMain(q: seq<Operation>, d: string): Goal {
    if q == [] then Untold else if SetsMain(q[|q| - 1], d) then MainGoal(q[|q| - 1]) else LastMain(q[..|q| - 1], d)
  }

  function LastTilt(q: seq<Operation>, d: string): Goal {
    if q == [] then Untold else if SetsTilt(q[|q| - 1], d) then TiltGoal(q[|q| - 1]) else LastTilt(q[..|q| - 1], d)
  }

  lemma {:induction false} DrainIsLast(a: Aim, q: seq<Operation>, d: string)
    ensures Drain(a, q, d) == Aim(if LastMain(q, d) == Untold then a.main else LastMain(q, d),
                                  if LastTilt(q, d) == Untold then a.tilt else LastTilt(q, d))
    decreases |q|
  {
    if q != [] {
      var n := |q| - 1;
      assert q == q[..n] + [q[n]];
      DrainConcat(a, q[..n], [q[n]], d);
      DrainOne(Drain(a, q[..n], d), q[n], d);
      DrainIsLast(a, q[..n], d);
    }
  }

  /** A request merges harmlessly when nothing behind the entry it merges into commands the same side of the
      device differently. A request that is not merged is always harmless. */
  predicate Harmless(q: seq<Operation>, r: Request) {
    Coalesces(q, r) ==>
      var behind := q[MergeIndex(q, r) + 1..];
      match r
      case Position(d, p) => LastMain(behind, d) == Untold || LastMain(behind, d) == Value(p)
      case Tilt(d, t) => LastTilt(behind, d) == Untold || LastTilt(behind, d) == Value(t)
      case _ => true
  }

  /** Coalescing leaves every device told what plain append would have told it, whatever it was told before, if and
      only if it was harmless. */
  lemma CoalescingMeaning(q: seq<Operation>, r: Request)
    requires Banded(q)
    ensures Harmless(q, r) <==> forall a, d :: Drain(a, Enqueue(q, r), d) == Drain(a, q + [OpOf(r)], d)
  {
    if Harmless(q, r) {
      forall a, d ensures Drain(a, Enqueue(q, r), d) == Drain(a, q + [OpOf(r)], d) { HarmlessMeaning(a, q, r, d); }
    } else {
      HarmfulMeaning(q, r);
    }
  }

  function OverruledBy(a: Aim, main: Goal, tilt: Goal): Aim {
    Aim(if main == Untold then a.main else main, if tilt == Untold then a.tilt else tilt)
  }

  function Overruled(a: Aim, behind: seq<Operation>, d: string): Aim {
    OverruledBy(a, LastMain(behind, d), LastTilt(behind, d))
  }

  lemma {:induction false} DrainUpdate(a: Aim, q: seq<Operation>, i: nat, op: Operation, d: string)
    requires i < |q|
    ensures Drain(a, q[i := op], d) == Overruled(Tell(Drain(a, q[..i], d), op, d), q[i + 1..], d)
    decreases i
  {
    if i == 0 {
      assert q[0 := op][1..] == q[1..] && q[..0] == [];
      DrainIsLast(Tell(a, op, d), q[1..], d);
    } else {
      assert q[i := op][1..] == q[1..][i - 1 := op] && q[1..][i..] == q[i + 1..] && q[1..][..i - 1] == q[..i][1..];
      DrainUpdate(Tell(a, q[0], d), q[1..], i - 1, op, d);
    }
  }

  /** What draining a merged queue comes to: the merged entry is told where it stands and the rest may overrule it. */
  lemma MergedDrain(a: Aim, q: seq<Operation>, r: Request, d: string)
    requires Coalesces(q, r)
    ensures var i := MergeIndex(q, r);
            && Drain(a, Enqueue(q, r), d) == Overruled(Tell(Drain(a, q[..i], d), Merge(q[i], r), d), q[i + 1..], d)
            && Drain(a, q, d) == Overruled(Tell(Drain(a, q[..i], d), q[i], d), q[i + 1..], d)
  {
    var i := MergeIndex(q, r);
    DrainUpdate(a, q, i, Merge(q[i], r), d);
    DrainUpdate(a, q, i, q[i], d);
    assert q[i := q[i]] == q;
  }

  lemma DrainAppend(a: Aim, q: seq<Operation>, op: Operation, d: string)
    ensures Drain(a, q + [op], d) == Tell(Drain(a, q, d), op, d)
  {
    DrainConcat(a, q, [op], d);
    DrainOne(Drain(a, q, d), op, d);
  }

  lemma HarmfulMeaning(q: seq<Operation>, r: Request)
    requires !Harmless(q, r)
    ensures Drain(Aim(Untold, Untold), Enqueue(q, r), r.id) != Drain(Aim(Untold, Untold), q + [OpOf(r)], r.id)
  {
    MergedDrain(Aim(Untold, Untold), q, r, r.id);
    DrainAppend(Aim(Untold, Untold), q, OpOf(r), r.id);
  }

  lemma MergedMeaning(a: Aim, q: seq<Operation>, r: Request, d: string)
    requires Coalesces(q, r) && Harmless(q, r)
    ensures Drain(a, Enqueue(q, r), d) == Tell(Drain(a, q, d), OpOf(r), d)
  {
    MergedDrain(a, q, r, d);
    var i := MergeIndex(q, r);
    var behind := q[i + 1..];
    MergeTells(Drain(a, q[..i], d), q[i], r, LastMain(behind, d), LastTilt(behind, d), d);
  }

  /** Telling the merged entry early or the request late comes to the same unless what lies behind says otherwise. */
  lemma MergeTells(a: Aim, op: Operation, r: Request, main: Goal, tilt: Goal, d: string)
    requires (r.Position? && op.opType == SET_TILT) || (r.Tilt? && op.opType == SET_POSITION)
    requires op.deviceId == r.id
    requires r.Position? && d == r.id ==> main == Untold || main == Value(r.position)
    requires r.Tilt? && d == r.id ==> tilt == Untold || tilt == Value(r.tilt)
    ensures OverruledBy(Tell(a, Merge(op, r), d), main, tilt)
      == Tell(OverruledBy(Tell(a, op, d), main, tilt), OpOf(r), d)
  {
  }

  lemma PushedMeaning(a: Aim, q: seq<Operation>, op: Operation, d: string)
    requires Banded(q)
    ensures Drain(a, PushControl(q, op), d) == Tell(Drain(a, q, d), op, d)
  {
    DropStatusBanded(q, op.deviceId);
    DrainDropStatus(a, q, op.deviceId, d);
    DrainInsert(a, if IsOneWay(op.opType) then q else DropStatus(q, op.deviceId), op, d);
  }

  lemma HarmlessMeaning(a: Aim, q: seq<Operation>, r: Request, d: string)
    requires Banded(q) && Harmless(q, r)
    ensures Drain(a, Enqueue(q, r), d) == Drain(a, q + [OpOf(r)], d)
  {
    DrainAppend(a, q, OpOf(r), d);
    if Coalesces(q, r) {
      MergedMeaning(a, q, r, d);
    } else if r.Discover? {
      DrainDropPolls(a, q, d);
      assert ([OpOf(r)] + DropPolls(q))[1..] == DropPolls(q);
      assert Tell(a, OpOf(r), d) == a;
    } else if r.Status? || r.Name? {
    } else {
      EnqueueIsPush(q, r);
      PushedMeaning(a, q, OpOf(r), d);
    }
  }

  /** The condition is needed: a tilt of 20 merged in front of a later combined command is overruled by it. */
  lemma CoalescingCanLoseATilt()
    ensures var q := [OpOf(Position("A1", 10)), OpOf(PositionAndTilt("A1", 30, 40))];
            && Coalesces(q, Tilt("A1", 20)) && !Harmless(q, Tilt("A1", 20))
            && Drain(Aim(Untold, Untold), Enqueue(q, Tilt("A1", 20)), "A1") == Aim(Value(30), Value(40))
            && Drain(Aim(Untold, Untold), q + [OpOf(Tilt("A1", 20))], "A1") == Aim(Value(30), Value(20))
  {
    var first, second := OpOf(Position("A1", 10)), OpOf(PositionAndTilt("A1", 30, 40));
    var q, a := [first, second], Aim(Untold, Untold);
    assert MergeIndex(q, Tilt("A1", 20)) == 0 && q[1..] == [second] && q[..0] == [];
    LastOfOne(second, "A1");
    MergedDrain(a, q, Tilt("A1", 20), "A1");
    DrainAppend(a, q, OpOf(Tilt("A1", 20)), "A1");
  }

  lemma LastOfOne(op: Operation, d: string)
    ensures LastMain([op], d) == if SetsMain(op, d) then MainGoal(op) else Untold
    ensures LastTilt([op], d) == if SetsTilt(op, d) then TiltGoal(op) else Untold
  {
    assert [op][..0] == [];
  }

  /** Every merge of a history is harmless when it happens. */
  ghost predicate AllHarmless(h: History, es: seq<Event>)
    decreases |es|
  {
    es != [] ==> (es[0].Ask? ==> Harmless(h.queue, es[0].r)) && AllHarmless(Step(h, es[0]), es[1..])
  }

  /** Over whole histories, interleaving dispatch as it likes, what a device was told so far and will be told by the
      pending queue is what the plain first-in-first-out list of requests would tell it. */
  lemma {:induction false} HistoryMeaning(h: History, es: seq<Event>, a: Aim, d: string)
    requires Banded(h.queue) && AllHarmless(h, es)
    requires Drain(a, h.taken + h.queue, d) == Drain(a, h.asked, d)
    ensures var g := Run(h, es); Drain(a, g.taken + g.queue, d) == Drain(a, g.asked, d)
    decreases |es|
  {
    if es != [] {
      ReachableBanded(h, [es[0]]);
      assert Run(h, [es[0]]) == Run(Step(h, es[0]), []);
      match es[0] {
        case Ask(r) =>
          var told := Drain(a, h.taken, d);
          DrainConcat(a, h.taken, Enqueue(h.queue, r), d);
          HarmlessMeaning(told, h.queue, r, d);
          DrainConcat(told, h.queue, [OpOf(r)], d);
          DrainConcat(a, h.taken, h.queue, d);
          DrainConcat(a, h.asked, [OpOf(r)], d);
        case Take =>
          if h.queue != [] {
            assert [h.queue[0]] + h.queue[1..] == h.queue;
            Associates(h.taken, [h.queue[0]], h.queue[1..]);
          }
      }
      HistoryMeaning(Step(h, es[0]), es[1..], a, d);
    }
  }

  // --- Stale polls ---

  lemma {:induction false} InsertMembers(q: seq<Operation>, op: Operation)
    ensures forall x :: x in Insert(q, op) <==> x in q || x == op
  {
    var k := FirstBackground(q);
    assert q == q[..k] + q[k..];
  }

  lemma PushDropsPoll(q: seq<Operation>, op: Operation)
    requires !IsOneWay(op.opType) && !IsBackground(op.opType)
    ensures forall x :: x in PushControl(q, op) ==> !IsStatusOf(x, op.deviceId)
  {
    DropStatusBanded(q, op.deviceId);
    InsertMembers(DropStatus(q, op.deviceId), op);
  }

  /** A control request for a device leaves its pending status poll in the queue exactly when the request was merged;
      only a pushed request drops the poll. */
  lemma StalePollSurvivesIffMerged(q: seq<Operation>, r: Request)
    requires r.Position? || r.Tilt?
    requires exists op :: op in q && IsStatusOf(op, r.id)
    ensures (exists op :: op in Enqueue(q, r) && IsStatusOf(op, r.id)) <==> Coalesces(q, r)
  {
    if Coalesces(q, r) {
      var op :| op in q && IsStatusOf(op, r.id);
      var i :| 0 <= i < |q| && q[i] == op;
      assert Enqueue(q, r)[i] == op;
    } else {
      EnqueueIsPush(q, r);
      PushDropsPoll(q, OpOf(r));
    }
  }
}
