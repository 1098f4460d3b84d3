/** The pending-operation queue: coalescing, deduplication, stale-poll dropping and two-band ordering. */
module OperationQueue {
  import opened Wrappers
  import opened Words

  const ON_POSITION: Byte := 0
  const OFF_POSITION: Byte := 100

  datatype CoverCommand = STOP | FAVORITE | VENT | FORCE_OPEN

  datatype OpType =
    | SET_POSITION | SET_TILT | SET_POSITION_AND_TILT | DEVICE_COMMAND
    | SET_LIGHT_STATE | SET_LOCK_STATE | SET_SWITCH_STATE
    | ONEWAY_COMMAND | ONEWAY_POSITION | ONEWAY_ENROLL | ONEWAY_UNENROLL
    | REQUEST_STATUS | REQUEST_NAME | DISCOVER_AND_PAIR

  datatype Operation = Operation(opType: OpType, deviceId: string, position: Byte := 0, tilt: Byte := 0,
                                 command: CoverCommand := STOP)

  predicate IsBackground(t: OpType) { t == REQUEST_STATUS || t == REQUEST_NAME }

  predicate IsOneWay(t: OpType) {
    t == ONEWAY_COMMAND || t == ONEWAY_POSITION || t == ONEWAY_ENROLL || t == ONEWAY_UNENROLL
  }

  /** What a caller can ask of the queue. */
  datatype Request =
    | Position(id: string, position: Byte)
    | Tilt(id: string, tilt: Byte)
    | PositionAndTilt(id: string, position: Byte, tilt: Byte)
    | Command(id: string, command: CoverCommand)
    | LightPosition(id: string, position: Byte)
    | Lock(id: string, on: bool)
    | Switch(id: string, on: bool)
    | OneWayCommand(id: string, command: CoverCommand)
    | OneWayPosition(id: string, position: Byte)
    | OneWayEnroll(id: string)
    | OneWayUnenroll(id: string)
    | Status(id: string)
    | Name(id: string)
    | Discover

  /** The operation a request stands for when nothing is merged. */
  function OpOf(r: Request): Operation {
    match r
    case Position(d, p) => Operation(SET_POSITION, d, p)
    case Tilt(d, t) => Operation(SET_TILT, d, t)
    case PositionAndTilt(d, p, t) => Operation(SET_POSITION_AND_TILT, d, p, t)
    case Command(d, c) => Operation(DEVICE_COMMAND, d, 0, 0, c)
    case LightPosition(d, p) => Operation(SET_LIGHT_STATE, d, p)
    case Lock(d, on) => Operation(SET_LOCK_STATE, d, if on then OFF_POSITION else ON_POSITION)
    case Switch(d, on) => Operation(SET_SWITCH_STATE, d, if on then ON_POSITION else OFF_POSITION)
    case OneWayCommand(c, cmd) => Operation(ONEWAY_COMMAND, c, 0, 0, cmd)
    case OneWayPosition(c, p) => Operation(ONEWAY_POSITION, c, p)
    case OneWayEnroll(c) => Operation(ONEWAY_ENROLL, c)
    case OneWayUnenroll(c) => Operation(ONEWAY_UNENROLL, c)
    case Status(d) => Operation(REQUEST_STATUS, d)
    case Name(d) => Operation(REQUEST_NAME, d)
    case Discover => Operation(DISCOVER_AND_PAIR, "")
  }

  // --- The queue as a value ---

  predicate IsNameOf(op: Operation, d: string) { op.opType == REQUEST_NAME && op.deviceId == d }

  predicate IsStatusOf(op: Operation, d: string) { op.opType == REQUEST_STATUS && op.deviceId == d }

  function DropStatus(q: seq<Operation>, d: string): seq<Operation> {
    if q == [] then [] else (if IsStatusOf(q[0], d) then [] else [q[0]]) + DropStatus(q[1..], d)
  }

  function DropPolls(q: seq<Operation>): seq<Operation> {
    if q == [] then [] else (if IsBackground(q[0].opType) then [] else [q[0]]) + DropPolls(q[1..])
  }

  lemma Associates(x: seq<Operation>, p: seq<Operation>, q: seq<Operation>)
    ensures (x + p) + q == x + (p + q)
  {
  }

  lemma DropStatusFrom(q: seq<Operation>, i: nat, d: string)
    requires i < |q|
    ensures DropStatus(q[i..], d) == (if IsStatusOf(q[i], d) then [] else [q[i]]) + DropStatus(q[i + 1..], d)
  {
    assert q[i..][1..] == q[i + 1..];
  }

  lemma DropPollsFrom(q: seq<Operation>, i: nat)
    requires i < |q|
    ensures DropPolls(q[i..]) == (if IsBackground(q[i].opType) then [] else [q[i]]) + DropPolls(q[i + 1..])
  {
    assert q[i..][1..] == q[i + 1..];
  }

  function FirstBackground(q: seq<Operation>): (i: nat)
    ensures i <= |q|
    ensures forall j :: 0 <= j < i ==> !IsBackground(q[j].opType)
    ensures i < |q| ==> IsBackground(q[i].opType)
  {
    if q == [] || IsBackground(q[0].opType) then 0 else 1 + FirstBackground(q[1..])
  }

  function FirstOf(q: seq<Operation>, t: OpType, d: string): (i: nat)
    ensures i <= |q|
    ensures forall j :: 0 <= j < i ==> !(q[j].opType == t && q[j].deviceId == d)
    ensures i < |q| ==> q[i].opType == t && q[i].deviceId == d
  {
    if q == [] || (q[0].opType == t && q[0].deviceId == d) then 0 else 1 + FirstOf(q[1..], t, d)
  }

  function Insert(q: seq<Operation>, op: Operation): seq<Operation> {
    var i := FirstBackground(q); q[..i] + [op] + q[i..]
  }

  function PushControl(q: seq<Operation>, op: Operation): seq<Operation> {
    Insert(if IsOneWay(op.opType) then q else DropStatus(q, op.deviceId), op)
  }

  /** Where a request would be merged into a pending entry; the length of the queue when it would not. */
  function MergeIndex(q: seq<Operation>, r: Request): (i: nat)
    ensures i <= |q|
  {
    match r
    case Position(d, _) => FirstOf(q, SET_TILT, d)
    case Tilt(d, _) => FirstOf(q, SET_POSITION, d)
    case _ => |q|
  }

  /** The merged entry: a standalone tilt keeps its value in `position`. */
  function Merge(op: Operation, r: Request): Operation {
    if r.Position? then op.(opType := SET_POSITION_AND_TILT, position := r.position, tilt := op.position)
    else if r.Tilt? then op.(opType := SET_POSITION_AND_TILT, tilt := r.tilt)
    else op
  }

  predicate Coalesces(q: seq<Operation>, r: Request) { MergeIndex(q, r) < |q| }

  function Enqueue(q: seq<Operation>, r: Request): seq<Operation> {
    if Coalesces(q, r) then q[MergeIndex(q, r) := Merge(q[MergeIndex(q, r)], r)]
    else match r
    case Status(d) => if FirstOf(q, REQUEST_STATUS, d) < |q| then q else q + [OpOf(r)]
    case Name(d) => if FirstOf(q, REQUEST_NAME, d) < |q| then q else q + [OpOf(r)]
    case Discover => if HasDiscover(q) then q else [OpOf(r)] + DropPolls(q)
    case _ => PushControl(q, OpOf(r))
  }

  predicate HasDiscover(q: seq<Operation>) { exists i :: 0 <= i < |q| && q[i].opType == DISCOVER_AND_PAIR }

  // --- What the functions above mean ---

  /** `r` is what stands at the places `at` of `q`, in order. */
  ghost predicate Picked(q: seq<Operation>, r: seq<Operation>, at: seq<nat>) {
    && |at| == |r|
    && (forall k :: 0 <= k < |at| ==> at[k] < |q| && r[k] == q[at[k]])
    && (forall j, k :: 0 <= j < k < |at| ==> at[j] < at[k])
  }

  /** `r` is `q` without its status polls of `d`. */
  ghost predicate WithoutStatus(q: seq<Operation>, r: seq<Operation>, at: seq<nat>, d: string) {
    && Picked(q, r, at)
    && forall i: nat :: i < |q| ==> (i in at <==> !(q[i].opType == REQUEST_STATUS && q[i].deviceId == d))
  }

  /** `r` is `q` without its polls. */
  ghost predicate WithoutPolls(q: seq<Operation>, r: seq<Operation>, at: seq<nat>) {
    && Picked(q, r, at)
    && forall i: nat :: i < |q| ==> (i in at <==> q[i].opType != REQUEST_STATUS && q[i].opType != REQUEST_NAME)
  }

  /** The same places one further on, after the first place if that is kept. */
  lemma Shifted(q: seq<Operation>, r: seq<Operation>, rest: seq<nat>, first: bool) returns (at: seq<nat>)
    requires q != [] && Picked(q[1..], r, rest)
    ensures Picked(q, (if first then [q[0]] else []) + r, at)
    ensures 0 in at <==> first
    ensures forall i: nat :: i + 1 in at <==> i in rest
  {
    var later: seq<nat> := seq(|rest|, k requires 0 <= k < |rest| => rest[k] + 1);
    forall i: nat | i in rest ensures i + 1 in later {
      var k :| 0 <= k < |rest| && rest[k] == i;
      assert later[k] == i + 1;
    }
    at := (if first then [0] else []) + later;
    var kept := (if first then [q[0]] else []) + r;
    forall k | 0 <= k < |at| ensures at[k] < |q| && kept[k] == q[at[k]] {
      var n := if first then k - 1 else k;
      if n >= 0 { assert at[k] == rest[n] + 1 && kept[k] == r[n] && q[1..][rest[n]] == q[rest[n] + 1]; }
    }
  }

  lemma {:induction false} DropStatusIs(q: seq<Operation>, d: string) returns (at: seq<nat>)
    ensures WithoutStatus(q, DropStatus(q, d), at, d)
  {
    at := [];
    if q != [] {
      var rest := DropStatusIs(q[1..], d);
      at := Shifted(q, DropStatus(q[1..], d), rest, !(q[0].opType == REQUEST_STATUS && q[0].deviceId == d));
      forall i: nat | i < |q| ensures i in at <==> !(q[i].opType == REQUEST_STATUS && q[i].deviceId == d) {
        if i > 0 { assert q[i] == q[1..][i - 1] && (i - 1 + 1 in at <==> i - 1 in rest); }
      }
    }
  }

  lemma {:induction false} DropPollsIs(q: seq<Operation>) returns (at: seq<nat>)
    ensures WithoutPolls(q, DropPolls(q), at)
  {
    at := [];
    if q != [] {
      var rest := DropPollsIs(q[1..]);
      at := Shifted(q, DropPolls(q[1..]), rest, q[0].opType != REQUEST_STATUS && q[0].opType != REQUEST_NAME);
      forall i: nat | i < |q| ensures i in at <==> q[i].opType != REQUEST_STATUS && q[i].opType != REQUEST_NAME {
        if i > 0 { assert q[i] == q[1..][i - 1] && (i - 1 + 1 in at <==> i - 1 in rest); }
      }
    }
  }

  /** `op` was put before the first poll of `rest`, which is `q` itself for a 1W operation, and else `q` without the
      status polls of its device. */
  ghost predicate Pushed(q: seq<Operation>, q': seq<Operation>, op: Operation,
                         rest: seq<Operation>, at: seq<nat>, i: nat) {
    && i <= |rest| && q' == rest[..i] + [op] + rest[i..]
    && (forall j :: 0 <= j < i ==> rest[j].opType != REQUEST_STATUS && rest[j].opType != REQUEST_NAME)
    && (i < |rest| ==> rest[i].opType == REQUEST_STATUS || rest[i].opType == REQUEST_NAME)
    && if || op.opType == ONEWAY_COMMAND || op.opType == ONEWAY_POSITION
          || op.opType == ONEWAY_ENROLL || op.opType == ONEWAY_UNENROLL
       then rest == q
       else WithoutStatus(q, rest, at, op.deviceId)
  }

  ghost predicate PushedIn(q: seq<Operation>, q': seq<Operation>, op: Operation) {
    exists rest, at, i :: Pushed(q, q', op, rest, at, i)
  }

  lemma PushIs(q: seq<Operation>, op: Operation)
    ensures PushedIn(q, PushControl(q, op), op)
  {
    var at := DropStatusIs(q, op.deviceId);
    var rest := if IsOneWay(op.opType) then q else DropStatus(q, op.deviceId);
    assert Pushed(q, PushControl(q, op), op, rest, at, FirstBackground(rest));
  }

  /** The first pending entry of this kind for this device. */
  ghost predicate FirstPending(q: seq<Operation>, i: nat, t: OpType, d: string) {
    && i < |q| && q[i].opType == t && q[i].deviceId == d
    && forall j :: 0 <= j < i ==> !(q[j].opType == t && q[j].deviceId == d)
  }

  ghost predicate Pending(q: seq<Operation>, t: OpType, d: string) {
    exists i :: 0 <= i < |q| && q[i].opType == t && q[i].deviceId == d
  }

  /** What every request makes of the queue. A position meets a pending tilt, and a tilt a pending position, in one
      combined operation at the place of the older one; a poll goes to the end unless the device has one; a pairing
      request goes to the front of what is no poll unless one is pending; everything else is pushed. */
  ghost predicate Asked(q: seq<Operation>, q': seq<Operation>, r: Request) {
    match r
    case Position(d, p) =>
      if Pending(q, SET_TILT, d)
      then exists i: nat :: FirstPending(q, i, SET_TILT, d)
                       && q' == q[i := Operation(SET_POSITION_AND_TILT, d, p, q[i].position, q[i].command)]
      else PushedIn(q, q', Operation(SET_POSITION, d, p, 0, STOP))
    case Tilt(d, t) =>
      if Pending(q, SET_POSITION, d)
      then exists i: nat :: FirstPending(q, i, SET_POSITION, d)
                       && q' == q[i := Operation(SET_POSITION_AND_TILT, d, q[i].position, t, q[i].command)]
      else PushedIn(q, q', Operation(SET_TILT, d, t, 0, STOP))
    case PositionAndTilt(d, p, t) => PushedIn(q, q', Operation(SET_POSITION_AND_TILT, d, p, t, STOP))
    case Command(d, c) => PushedIn(q, q', Operation(DEVICE_COMMAND, d, 0, 0, c))
    case LightPosition(d, p) => PushedIn(q, q', Operation(SET_LIGHT_STATE, d, p, 0, STOP))
    case Lock(d, on) => PushedIn(q, q', Operation(SET_LOCK_STATE, d, if on then 100 else 0, 0, STOP))
    case Switch(d, on) => PushedIn(q, q', Operation(SET_SWITCH_STATE, d, if on then 0 else 100, 0, STOP))
    case OneWayCommand(c, cmd) => PushedIn(q, q', Operation(ONEWAY_COMMAND, c, 0, 0, cmd))
    case OneWayPosition(c, p) => PushedIn(q, q', Operation(ONEWAY_POSITION, c, p, 0, STOP))
    case OneWayEnroll(c) => PushedIn(q, q', Operation(ONEWAY_ENROLL, c, 0, 0, STOP))
    case OneWayUnenroll(c) => PushedIn(q, q', Operation(ONEWAY_UNENROLL, c, 0, 0, STOP))
    case Status(d) => q' == if Pending(q, REQUEST_STATUS, d) then q else q + [Operation(REQUEST_STATUS, d, 0, 0, STOP)]
    case Name(d) => q' == if Pending(q, REQUEST_NAME, d) then q else q + [Operation(REQUEST_NAME, d, 0, 0, STOP)]
    case Discover =>
      if exists i :: 0 <= i < |q| && q[i].opType == DISCOVER_AND_PAIR then q' == q
      else && q' != [] && q'[0] == Operation(DISCOVER_AND_PAIR, "", 0, 0, STOP)
           && exists at :: WithoutPolls(q, q'[1..], at)
  }

  lemma PendingIs(q: seq<Operation>, t: OpType, d: string)
    ensures Pending(q, t, d) <==> FirstOf(q, t, d) < |q|
    ensures FirstOf(q, t, d) < |q| ==> FirstPending(q, FirstOf(q, t, d), t, d)
  {
  }

  lemma EnqueueMeans(q: seq<Operation>, r: Request)
    ensures Asked(q, Enqueue(q, r), r)
  {
    if !Coalesces(q, r) { PushIs(q, OpOf(r)); }
    match r
    case Position(d, _) => PendingIs(q, SET_TILT, d);
    case Tilt(d, _) => PendingIs(q, SET_POSITION, d);
    case Status(d) => PendingIs(q, REQUEST_STATUS, d);
    case Name(d) => PendingIs(q, REQUEST_NAME, d);
    case Discover =>
      var at := DropPollsIs(q);
      assert ([OpOf(r)] + DropPolls(q))[1..] == DropPolls(q);
    case _ =>
  }

  // --- The class ---

  class Queue {
    var queue: seq<Operation>

    constructor ()
      ensures queue == []
    {
      queue := [];
    }

    /** Removes stale status polls of the addressed device, then inserts before the first background entry. */
    method PushOperation(op: Operation)
      modifies this
      ensures queue == PushControl(old(queue), op) && PushedIn(old(queue), queue, op)
    {
      if !IsOneWay(op.opType) {
        EraseStatus(op.deviceId);
      }
      var i := FirstPoll();
      queue := queue[..i] + [op] + queue[i..];
      PushIs(old(queue), op);
    }

    method FirstPoll() returns (i: nat)
      ensures i == FirstBackground(queue)
    {
      i := 0;
      while i < |queue| && !IsBackground(queue[i].opType)
        invariant i <= |queue| && FirstBackground(queue) == i + FirstBackground(queue[i..])
      {
        assert queue[i..][1..] == queue[i + 1..];
        i := i + 1;
      }
    }

    method EraseStatus(d: string)
      modifies this
      ensures queue == DropStatus(old(queue), d)
    {
      var q, kept: seq<Operation> := queue, [];
      for i := 0 to |q|
        invariant DropStatus(q, d) == kept + DropStatus(q[i..], d)
      {
        DropStatusFrom(q, i, d);
        Associates(kept, if IsStatusOf(q[i], d) then [] else [q[i]], DropStatus(q[i + 1..], d));
        if IsStatusOf(q[i], d) { assert kept + [] == kept; } else { kept := kept + [q[i]]; }
      }
      queue := kept;
    }

    method ErasePolls()
      modifies this
      ensures queue == DropPolls(old(queue))
    {
      var q, kept: seq<Operation> := queue, [];
      for i := 0 to |q|
        invariant DropPolls(q) == kept + DropPolls(q[i..])
      {
        DropPollsFrom(q, i);
        Associates(kept, if IsBackground(q[i].opType) then [] else [q[i]], DropPolls(q[i + 1..]));
        if IsBackground(q[i].opType) { assert kept + [] == kept; } else { kept := kept + [q[i]]; }
      }
      queue := kept;
    }

    method FindOf(t: OpType, d: string) returns (i: nat)
      ensures i == FirstOf(queue, t, d)
    {
      i := 0;
      while i < |queue| && !(queue[i].opType == t && queue[i].deviceId == d)
        invariant i <= |queue|
        invariant FirstOf(queue, t, d) == i + FirstOf(queue[i..], t, d)
      {
        assert queue[i..][1..] == queue[i + 1..];
        i := i + 1;
      }
    }

    method EnqueueSetPosition(d: string, position: Byte) returns (coalesced: bool)
      modifies this
      ensures queue == Enqueue(old(queue), Position(d, position)) && Asked(old(queue), queue, Position(d, position))
      ensures coalesced == Coalesces(old(queue), Position(d, position))
    {
      EnqueueMeans(queue, Position(d, position));
      var i := FindOf(SET_TILT, d);
      if i < |queue| {
        var pendingTilt := queue[i].position;
        queue := queue[i := queue[i].(opType := SET_POSITION_AND_TILT, position := position, tilt := pendingTilt)];
        return true;
      }
      PushOperation(Operation(SET_POSITION, d, position));
      return false;
    }

    method EnqueueSetTilt(d: string, tilt: Byte) returns (coalesced: bool)
      modifies this
      ensures queue == Enqueue(old(queue), Tilt(d, tilt)) && Asked(old(queue), queue, Tilt(d, tilt))
      ensures coalesced == Coalesces(old(queue), Tilt(d, tilt))
    {
      EnqueueMeans(queue, Tilt(d, tilt));
      var i := FindOf(SET_POSITION, d);
      if i < |queue| {
        queue := queue[i := queue[i].(opType := SET_POSITION_AND_TILT, tilt := tilt)];
        return true;
      }
      PushOperation(Operation(SET_TILT, d, tilt));
      return false;
    }

    /** Every control request that is pushed as it stands. */
    method EnqueueControl(r: Request)
      requires !r.Position? && !r.Tilt? && !r.Status? && !r.Name? && !r.Discover?
      modifies this
      ensures queue == Enqueue(old(queue), r) && Asked(old(queue), queue, r)
    {
      EnqueueMeans(queue, r);
      PushOperation(OpOf(r));
    }

    method EnqueueRequestStatus(d: string) returns (pushed: bool)
      modifies this
      ensures queue == Enqueue(old(queue), Status(d)) && Asked(old(queue), queue, Status(d))
      ensures pushed <==> forall i :: 0 <= i < |old(queue)| ==> !IsStatusOf(old(queue)[i], d)
    {
      EnqueueMeans(queue, Status(d));
      var i := FindOf(REQUEST_STATUS, d);
      if i < |queue| { return false; }
      queue := queue + [Operation(REQUEST_STATUS, d)];
      return true;
    }

    method EnqueueRequestName(d: string) returns (pushed: bool)
      modifies this
      ensures queue == Enqueue(old(queue), Name(d)) && Asked(old(queue), queue, Name(d))
      ensures pushed <==> forall i :: 0 <= i < |old(queue)| ==> !IsNameOf(old(queue)[i], d)
    {
      EnqueueMeans(queue, Name(d));
      var i := FindOf(REQUEST_NAME, d);
      if i < |queue| { return false; }
      queue := queue + [Operation(REQUEST_NAME, d)];
      return true;
    }

    method EnqueueDiscoverAndPair() returns (pushed: bool)
      modifies this
      ensures queue == Enqueue(old(queue), Discover) && Asked(old(queue), queue, Discover)
      ensures pushed == !HasDiscover(old(queue))
    {
      EnqueueMeans(queue, Discover);
      for i := 0 to |queue|
        invariant queue == old(queue)
        invariant forall j :: 0 <= j < i ==> queue[j].opType != DISCOVER_AND_PAIR
      {
        if queue[i].opType == DISCOVER_AND_PAIR { return false; }
      }
      ErasePolls();
      queue := [Operation(DISCOVER_AND_PAIR, "")] + queue;
      return true;
    }

    method Pop() returns (op: Option<Operation>)
      modifies this
      ensures op == if old(queue) == [] then None else Some(old(queue)[0])
      ensures queue == if old(queue) == [] then [] else old(queue)[1..]
    {
      if queue == [] { return None; }
      op := Some(queue[0]);
      queue := queue[1..];
    }
  }

  // --- Shape of every reachable queue ---

  ghost predicate Clash(a: Operation, b: Operation) {
    a.opType == SET_POSITION && b.opType == SET_TILT && a.deviceId == b.deviceId
  }

  /** `a` may stand before `b`. */
  ghost predicate Ordered(a: Operation, b: Operation) {
    && b.opType != DISCOVER_AND_PAIR
    && (IsBackground(a.opType) ==> IsBackground(b.opType))
    && (IsBackground(a.opType) && a.opType == b.opType ==> a.deviceId != b.deviceId)
    && !Clash(a, b) && !Clash(b, a)
  }

  /** At most one DISCOVER, in front; then controls; then polls, each at most once per device; and never a pending
      position beside a pending tilt of one device. */
  ghost predicate Banded(q: seq<Operation>) { forall i, j :: 0 <= i < j < |q| ==> Ordered(q[i], q[j]) }

  ghost predicate Precedes(a: Operation, q: seq<Operation>) { forall op :: op in q ==> Ordered(a, op) }

  lemma BandedCons(a: Operation, q: seq<Operation>)
    ensures Banded([a] + q) <==> Precedes(a, q) && Banded(q)
  {
    var s := [a] + q;
    assert forall i :: 0 <= i < |q| ==> q[i] == s[i + 1];
    if Banded(s) {
      forall op | op in q ensures Ordered(a, op) {
        var i :| 0 <= i < |q| && q[i] == op;
        assert Ordered(s[0], s[i + 1]);
      }
    }
  }

  lemma {:induction false} DropStatusBanded(q: seq<Operation>, d: string)
    ensures forall op :: op in DropStatus(q, d) <==> op in q && !IsStatusOf(op, d)
    ensures Banded(q) ==> Banded(DropStatus(q, d))
  {
    if q != [] {
      DropStatusBanded(q[1..], d);
      assert q == [q[0]] + q[1..];
      BandedCons(q[0], q[1..]);
      BandedCons(q[0], DropStatus(q[1..], d));
    }
  }

  lemma {:induction false} DropPollsBanded(q: seq<Operation>)
    ensures forall op :: op in DropPolls(q) <==> op in q && !IsBackground(op.opType)
    ensures Banded(q) ==> Banded(DropPolls(q))
  {
    if q != [] {
      DropPollsBanded(q[1..]);
      assert q == [q[0]] + q[1..];
      BandedCons(q[0], q[1..]);
      BandedCons(q[0], DropPolls(q[1..]));
    }
  }

  lemma InsertCons(q: seq<Operation>, op: Operation)
    ensures q == [] || IsBackground(q[0].opType) ==> Insert(q, op) == [op] + q
    ensures q != [] && !IsBackground(q[0].opType) ==> Insert(q, op) == [q[0]] + Insert(q[1..], op)
  {
  }

  lemma {:induction false} InsertBanded(q: seq<Operation>, op: Operation)
    requires Banded(q) && !IsBackground(op.opType) && op.opType != DISCOVER_AND_PAIR
    requires forall x :: x in q ==> !Clash(op, x) && !Clash(x, op)
    ensures Banded(Insert(q, op))
    ensures forall x :: x in Insert(q, op) <==> x in q || x == op
  {
    InsertCons(q, op);
    if q != [] {
      assert q == [q[0]] + q[1..];
      BandedCons(q[0], q[1..]);
      if IsBackground(q[0].opType) {
        BandedCons(op, q);
      } else {
        InsertBanded(q[1..], op);
        BandedCons(q[0], Insert(q[1..], op));
      }
    }
  }

  /** Merging changes one entry into a kind that clashes with nothing. */
  lemma MergeBanded(q: seq<Operation>, r: Request)
    requires Banded(q) && Coalesces(q, r)
    ensures Banded(Enqueue(q, r))
  {
  }

  lemma AppendPollBanded(q: seq<Operation>, poll: Operation)
    requires Banded(q) && IsBackground(poll.opType) && FirstOf(q, poll.opType, poll.deviceId) == |q|
    ensures Banded(q + [poll])
  {
  }

  lemma PushControlBanded(q: seq<Operation>, op: Operation)
    requires Banded(q) && !IsBackground(op.opType) && op.opType != DISCOVER_AND_PAIR
    requires op.opType == SET_POSITION ==> FirstOf(q, SET_TILT, op.deviceId) == |q|
    requires op.opType == SET_TILT ==> FirstOf(q, SET_POSITION, op.deviceId) == |q|
    ensures Banded(PushControl(q, op))
  {
    forall x | x in q ensures !Clash(op, x) && !Clash(x, op) {
      var i :| 0 <= i < |q| && q[i] == x;
    }
    DropStatusBanded(q, op.deviceId);
    InsertBanded(if IsOneWay(op.opType) then q else DropStatus(q, op.deviceId), op);
  }

  lemma DiscoverBanded(q: seq<Operation>)
    requires Banded(q) && !HasDiscover(q)
    ensures Banded([OpOf(Discover)] + DropPolls(q))
  {
    DropPollsBanded(q);
    DiscoverPrecedes(DropPolls(q));
    BandedCons(OpOf(Discover), DropPolls(q));
  }

  lemma DiscoverPrecedes(q: seq<Operation>)
    requires forall op :: op in q ==> op.opType != DISCOVER_AND_PAIR
    ensures Precedes(OpOf(Discover), q)
  {
  }

  /** Every request keeps the shape. */
  lemma EnqueueKeepsBands(q: seq<Operation>, r: Request)
    requires Banded(q)
    ensures Banded(Enqueue(q, r))
  {
    if Coalesces(q, r) {
      MergeBanded(q, r);
    } else if r.Discover? {
      if !HasDiscover(q) { DiscoverBanded(q); }
    } else if r.Status? || r.Name? {
      var poll := OpOf(r);
      if FirstOf(q, poll.opType, poll.deviceId) == |q| { AppendPollBanded(q, poll); }
    } else {
      EnqueueIsPush(q, r);
      PushControlBanded(q, OpOf(r));
    }
  }

  lemma EnqueueIsPush(q: seq<Operation>, r: Request)
    requires !Coalesces(q, r) && !r.Discover? && !r.Status? && !r.Name?
    ensures Enqueue(q, r) == PushControl(q, OpOf(r))
    ensures !IsBackground(OpOf(r).opType) && OpOf(r).opType != DISCOVER_AND_PAIR
    ensures OpOf(r).opType == SET_POSITION ==> FirstOf(q, SET_TILT, OpOf(r).deviceId) == |q|
    ensures OpOf(r).opType == SET_TILT ==> FirstOf(q, SET_POSITION, OpOf(r).deviceId) == |q|
  {
  }
}
