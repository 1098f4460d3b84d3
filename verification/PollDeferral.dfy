/** When the main loop may dispatch the head of the queue: the 1W burst tracker, the deferral gate, and what the gate
    can never hold back. */
module PollDeferral {
  import opened OperationQueue
  import opened QueueHistory
  import opened Words

  const QUIET_PERIOD := 700
  const DEFER_CAP := 5000

  // --- Burst tracking ---

  predicate StartedFresh(last: Word, now: Word) { last == 0 || Minus(now, last) >= QUIET_PERIOD }

  /** Reading 0 stands for "never". */
  datatype Burst = Burst(first: Word, last: Word)

  function Recorded(b: Burst, now: Word): Burst { Burst(if StartedFresh(b.last, now) then now else b.first, now) }

  class Activity {
    var first: Word
    var last: Word

    constructor ()
      ensures first == 0 && last == 0
    {
      first, last := 0, 0;
    }

    method Record(now: Word)
      modifies this
      ensures Burst(first, last) == Recorded(Burst(old(first), old(last)), now)
    {
      if StartedFresh(last, now) {
        first := now;
      }
      last := now;
    }

    /** Feeds a whole stream of frame times to the tracker. */
    method RecordAll(ts: seq<nat>)
      modifies this
      ensures Burst(first, last) == Track(Burst(old(first), old(last)), ts)
    {
      for i := 0 to |ts|
        invariant Burst(first, last) == Track(Burst(old(first), old(last)), ts[..i])
      {
        assert ts[..i + 1][..i] == ts[..i];
        Record(Clock(ts[i]));
      }
      assert ts[..|ts|] == ts;
    }
  }

  function Track(b: Burst, ts: seq<nat>): Burst {
    if ts == [] then b else Recorded(Track(b, ts[..|ts| - 1]), Clock(ts[|ts| - 1]))
  }

  /** Frame times as they arrive. */
  ghost predicate Arrivals(ts: seq<nat>) { forall i, j :: 0 <= i <= j < |ts| ==> ts[i] <= ts[j] }

  /** The last burst begins at `k`: shorter gaps since, and a full quiet period or nothing before. */
  ghost predicate IsLastBurst(ts: seq<nat>, k: nat) {
    && k < |ts|
    && (forall i :: k < i < |ts| ==> ts[i] - ts[i - 1] < QUIET_PERIOD)
    && (k > 0 ==> ts[k] - ts[k - 1] >= QUIET_PERIOD)
  }

  /** The silence before frame `k` does not look short on the clock, as a few milliseconds past whole clock periods
      would. */
  predicate ClearGap(ts: seq<nat>, k: nat)
    requires k < |ts|
  {
    k > 0 ==> (ts[k] - ts[k - 1]) % WORD >= QUIET_PERIOD
  }

  /** There always is exactly one last burst. */
  lemma {:induction false} LastBurst(ts: seq<nat>) returns (k: nat)
    requires ts != []
    ensures IsLastBurst(ts, k) && forall j :: IsLastBurst(ts, j) ==> j == k
    decreases |ts|
  {
    var n := |ts| - 1;
    k := n;
    if n > 0 && ts[n] - ts[n - 1] < QUIET_PERIOD {
      k := LastBurst(ts[..n]);
      assert forall i :: 0 <= i < n ==> ts[..n][i] == ts[i];
    }
  }

  /** Where the tracker takes the burst from `k` to `n` to have begun: right after its last frame that reads 0. */
  function Since(ts: seq<nat>, k: nat, n: nat): (m: nat)
    requires k <= n < |ts|
    ensures k <= m <= n
    ensures m == k || Clock(ts[m - 1]) == 0
    ensures forall i :: m <= i < n ==> Clock(ts[i]) != 0
    decreases n - k
  {
    if n == k then k else if Clock(ts[n - 1]) == 0 then n else Since(ts, k, n - 1)
  }

  lemma FreshIff(a: nat, b: nat)
    requires a <= b
    ensures StartedFresh(Clock(a), Clock(b)) <==> Clock(a) == 0 || (b - a) % WORD >= QUIET_PERIOD
    ensures b - a < QUIET_PERIOD ==> (StartedFresh(Clock(a), Clock(b)) <==> Clock(a) == 0)
  {
    var q := a / WORD - b / WORD;
    assert Clock(b) - Clock(a) == (b - a) + q * WORD;
    Residue(b - a, q);
  }

  lemma TrackStep(b: Burst, ts: seq<nat>, n: nat)
    requires n < |ts|
    ensures Track(b, ts[..n + 1]) == Recorded(Track(b, ts[..n]), Clock(ts[n]))
  {
    assert ts[..n + 1][..n] == ts[..n];
  }

  lemma BurstBegins(ts: seq<nat>, k: nat)
    requires Arrivals(ts) && k < |ts| && ClearGap(ts, k)
    ensures Track(Burst(0, 0), ts[..k + 1]) == Burst(Clock(ts[k]), Clock(ts[k]))
  {
    TrackStep(Burst(0, 0), ts, k);
    if k > 0 {
      TrackStep(Burst(0, 0), ts, k - 1);
      FreshIff(ts[k - 1], ts[k]);
    }
  }

  lemma BurstGoesOn(b: Burst, last: nat, now: nat)
    requires b.last == Clock(last) && last <= now < last + QUIET_PERIOD
    ensures Recorded(b, Clock(now)) == Burst(if Clock(last) == 0 then Clock(now) else b.first, Clock(now))
  {
    FreshIff(last, now);
  }

  lemma {:induction false} TrackSince(ts: seq<nat>, k: nat, n: nat)
    requires Arrivals(ts) && IsLastBurst(ts, k) && ClearGap(ts, k) && k <= n < |ts|
    ensures Track(Burst(0, 0), ts[..n + 1]) == Burst(Clock(ts[Since(ts, k, n)]), Clock(ts[n]))
    decreases n - k
  {
    if n == k {
      BurstBegins(ts, k);
    } else {
      TrackSince(ts, k, n - 1);
      TrackStep(Burst(0, 0), ts, n);
      BurstGoesOn(Track(Burst(0, 0), ts[..n]), ts[n - 1], ts[n]);
    }
  }

  /** No frame of the burst from `k` reads 0 while a later one of the burst is still to come. */
  ghost predicate NoZeroInside(ts: seq<nat>, k: nat) {
    forall i :: k <= i < |ts| - 1 ==> Clock(ts[i]) != 0 || ts[i + 1] == ts[k]
  }

  /** What two timestamps keep of a whole history of frames: the latest frame and the start of the last burst, if and
      only if no frame inside that burst reads 0. Zero readings before it do no harm. */
  lemma TrackIsLastBurst(ts: seq<nat>, k: nat)
    requires Arrivals(ts) && IsLastBurst(ts, k) && ClearGap(ts, k) && ts[|ts| - 1] - ts[k] < WORD
    ensures var n := |ts| - 1;
            && Track(Burst(0, 0), ts) == Burst(Clock(ts[Since(ts, k, n)]), Clock(ts[n]))
            && (Track(Burst(0, 0), ts) == Burst(Clock(ts[k]), Clock(ts[n])) <==> NoZeroInside(ts, k))
  {
    var n := |ts| - 1;
    assert ts[..n + 1] == ts;
    TrackSince(ts, k, n);
    Elapsed(ts[k], ts[Since(ts, k, n)]);
    SinceIff(ts, k);
  }

  lemma SinceIff(ts: seq<nat>, k: nat)
    requires Arrivals(ts) && k < |ts|
    ensures ts[Since(ts, k, |ts| - 1)] == ts[k] <==> NoZeroInside(ts, k)
  {
    var n := |ts| - 1;
    var m := Since(ts, k, n);
    if ts[m] == ts[k] {
      forall i | k <= i < n ensures Clock(ts[i]) != 0 || ts[i + 1] == ts[k] {
        if i < m { assert ts[k] <= ts[i + 1] <= ts[m]; }
      }
    }
    if NoZeroInside(ts, k) && m > k { assert ts[m - 1 + 1] == ts[k]; }
  }

  // --- The gate ---

  function DeferFor1W(nextIsBackground: bool, first: Word, last: Word, now: Word): bool {
    if !nextIsBackground || last == 0 then false
    else if Minus(now, first) >= DEFER_CAP then false
    else Minus(now, last) < QUIET_PERIOD
  }

  /** A frame that arrives while millis() reads 0 is taken for "never": nothing is held on its account and the next
      frame starts a new burst. */
  lemma FrameAtZeroForgotten(b: Burst, t: nat, now: Word)
    requires Clock(t) == 0
    ensures var b' := Recorded(b, Clock(t)); !DeferFor1W(true, b'.first, b'.last, now) && Recorded(b', now).first == now
  {
  }

  /** What the gate sees of the rest of the hub. */
  datatype Surroundings = Surroundings(awaitingKeyExtraction: bool, burst: Burst, now: Word)

  predicate DeferBackgroundPoll(q: seq<Operation>, s: Surroundings) {
    var background := q != [] && IsBackground(q[0].opType);
    (background && s.awaitingKeyExtraction) || DeferFor1W(background, s.burst.first, s.burst.last, s.now)
  }

  /** With frames at `ts`, for a clock period after the last burst began: the head of the queue is held exactly if it
      is a poll and either a key extraction waits for a reply, or the last frame is within the quiet period and did not
      read 0, and the burst, from its last zero reading on, is younger than the cap. Without zero readings that is the
      whole burst. */
  lemma HeldExactlyDuringBurst(q: seq<Operation>, waiting: bool, ts: seq<nat>, k: nat, now: nat)
    requires Arrivals(ts) && IsLastBurst(ts, k) && ClearGap(ts, k)
    requires ts[|ts| - 1] <= now < ts[k] + WORD
    ensures var n := |ts| - 1;
            var held := DeferBackgroundPoll(q, Surroundings(waiting, Track(Burst(0, 0), ts), Clock(now)));
            var poll := q != [] && (q[0].opType == REQUEST_STATUS || q[0].opType == REQUEST_NAME);
            && (held <==>
                  && poll
                  && (|| waiting
                      || (Clock(ts[n]) != 0 && now - ts[Since(ts, k, n)] < 5000 && now - ts[n] < 700)))
            && (NoZeroInside(ts, k) && Clock(ts[n]) != 0 ==>
                  (held <==> poll && (waiting || (now - ts[k] < 5000 && now - ts[n] < 700))))
  {
    var n := |ts| - 1;
    var m := Since(ts, k, n);
    TrackIsLastBurst(ts, k);
    assert ts[k] <= ts[m] <= ts[n];
    Elapsed(ts[m], now);
    Elapsed(ts[k], now);
    Elapsed(ts[n], now);
  }

  /** One pass of the loop over an idle radio: dispatch the head unless the gate defers it. */
  function Pass(h: History, s: Surroundings): History { if DeferBackgroundPoll(h.queue, s) then h else Step(h, Take) }

  /** A pass takes the head off the queue exactly if it is not held, a poll included. */
  lemma PassTakesTheHead(h: History, s: Surroundings)
    ensures var g := Pass(h, s);
            if h.queue == [] || DeferBackgroundPoll(h.queue, s) then g == h
            else g == h.(queue := h.queue[1..], taken := h.taken + [h.queue[0]])
  {
  }

  ghost predicate CommandPending(q: seq<Operation>) { exists i :: 0 <= i < |q| && !IsBackground(q[i].opType) }

  /** In every reachable hub, if anything but polls is pending then the gate is open, whatever 1W remotes or a key
      extraction are doing, and what gets dispatched is not a poll. */
  lemma CommandsNeverDeferred(es: seq<Event>, s: Surroundings)
    requires CommandPending(Run(EMPTY, es).queue)
    ensures var h := Run(EMPTY, es);
            && !DeferBackgroundPoll(h.queue, s)
            && Pass(h, s).taken == h.taken + [h.queue[0]] && !IsBackground(h.queue[0].opType)
  {
    ReachableBanded(EMPTY, es);
    var q := Run(EMPTY, es).queue;
    var i :| 0 <= i < |q| && !IsBackground(q[i].opType);
    if i > 0 { assert Ordered(q[0], q[i]); }
  }

  // --- A command waits only for what was ahead of it ---

  datatype LoopEvent = Asked(r: Request) | Passed(s: Surroundings)

  function LoopStep(h: History, e: LoopEvent): History {
    match e
    case Asked(r) => Step(h, Ask(r))
    case Passed(s) => Pass(h, s)
  }

  function LoopRun(h: History, es: seq<LoopEvent>): History
    decreases |es|
  {
    if es == [] then h else LoopRun(LoopStep(h, es[0]), es[1..])
  }

  function Passes(es: seq<LoopEvent>): nat {
    if es == [] then 0 else (if es[0].Passed? then 1 else 0) + Passes(es[1..])
  }

  /** The same command, or the combined one it was merged into. */
  predicate StandsFor(op': Operation, op: Operation) {
    op' == op ||
    (op'.opType == SET_POSITION_AND_TILT && op'.deviceId == op.deviceId
     && (op.opType == SET_POSITION || op.opType == SET_TILT))
  }

  lemma {:induction false} DropStatusKeepsFront(q: seq<Operation>, d: string, k: nat)
    requires k < |q| && forall i :: 0 <= i <= k ==> !IsBackground(q[i].opType)
    ensures k < |DropStatus(q, d)| && forall i :: 0 <= i <= k ==> DropStatus(q, d)[i] == q[i]
  {
    if k > 0 {
      DropStatusKeepsFront(q[1..], d, k - 1);
      assert forall i :: 0 < i <= k ==> DropStatus(q, d)[i] == DropStatus(q[1..], d)[i - 1];
    }
  }

  lemma ControlsInFront(q: seq<Operation>, k: nat)
    requires Banded(q) && k < |q| && !IsBackground(q[k].opType)
    ensures forall i :: 0 <= i <= k ==> !IsBackground(q[i].opType)
  {
    forall i | 0 <= i < k ensures !IsBackground(q[i].opType) { assert Ordered(q[i], q[k]); }
  }

  lemma InsertKeepsFront(q: seq<Operation>, op: Operation, k: nat)
    requires k < |q| && forall i :: 0 <= i <= k ==> !IsBackground(q[i].opType)
    ensures k < |Insert(q, op)| && Insert(q, op)[k] == q[k]
  {
  }

  lemma MergeKeepsPlace(q: seq<Operation>, r: Request, k: nat)
    requires Coalesces(q, r) && k < |q| && !IsBackground(q[k].opType)
    ensures k < |Enqueue(q, r)| && StandsFor(Enqueue(q, r)[k], q[k]) && !IsBackground(Enqueue(q, r)[k].opType)
  {
    assert MergeIndex(q, r) == k || Enqueue(q, r)[k] == q[k];
  }

  lemma AskKeepsPlace(q: seq<Operation>, r: Request, k: nat)
    requires Banded(q) && !r.Discover? && k < |q| && !IsBackground(q[k].opType)
    ensures k < |Enqueue(q, r)| && StandsFor(Enqueue(q, r)[k], q[k]) && !IsBackground(Enqueue(q, r)[k].opType)
  {
    if Coalesces(q, r) {
      MergeKeepsPlace(q, r, k);
    } else if !r.Status? && !r.Name? {
      EnqueueIsPush(q, r);
      ControlsInFront(q, k);
      DropStatusKeepsFront(q, OpOf(r).deviceId, k);
      InsertKeepsFront(if IsOneWay(OpOf(r).opType) then q else DropStatus(q, OpOf(r).deviceId), OpOf(r), k);
    }
  }

  /** An open pass over a queue with a command at `k` dispatches the head and moves the command up. */
  lemma PassMovesUp(h: History, s: Surroundings, k: nat)
    requires Banded(h.queue) && k < |h.queue| && !IsBackground(h.queue[k].opType)
    ensures var g := Pass(h, s);
            && Banded(g.queue) && g.queue == h.queue[1..] && g.taken == h.taken + [h.queue[0]]
            && (k > 0 ==> g.queue[k - 1] == h.queue[k])
  {
    ControlsInFront(h.queue, k);
    BandedTail(h.queue);
  }

  /** The `k`th operation dispatched after `before` stands for `op`. */
  ghost predicate ServedAt(before: seq<Operation>, taken: seq<Operation>, k: nat, op: Operation) {
    before <= taken && |before| + k < |taken| && StandsFor(taken[|before| + k], op)
  }

  lemma ServedLater(before: seq<Operation>, head: Operation, taken: seq<Operation>, k: nat, op: Operation)
    requires before + [head] <= taken
    requires if k == 0 then op == head else ServedAt(before + [head], taken, k - 1, op)
    ensures ServedAt(before, taken, k, op)
  {
    assert taken[|before|] == (before + [head])[|before|];
    assert before <= before + [head];
  }

  predicate NoPairing(es: seq<LoopEvent>) {
    es == [] || (!(es[0].Asked? && es[0].r.Discover?) && NoPairing(es[1..]))
  }

  /** A command with `k` operations ahead of it is the `k`th dispatched from now, after at most `k + 1` passes, however
      many further requests other than pairing arrive and whatever is on air. */
  lemma {:induction false} CommandServedInTurn(h: History, k: nat, es: seq<LoopEvent>)
    requires Banded(h.queue) && k < |h.queue| && !IsBackground(h.queue[k].opType)
    requires Passes(es) > k && NoPairing(es)
    ensures ServedAt(h.taken, LoopRun(h, es).taken, k, h.queue[k])
    decreases |es|
  {
    var e, rest, g := es[0], es[1..], LoopStep(h, es[0]);
    if e.Asked? {
      EnqueueKeepsBands(h.queue, e.r);
      AskKeepsPlace(h.queue, e.r, k);
      CommandServedInTurn(g, k, rest);
      ServedStandsFor(h.taken, LoopRun(h, es).taken, k, g.queue[k], h.queue[k]);
    } else {
      PassMovesUp(h, e.s, k);
      TakenGrows(g, rest);
      if k > 0 { CommandServedInTurn(g, k - 1, rest); }
      ServedLater(h.taken, h.queue[0], LoopRun(h, es).taken, k, h.queue[k]);
    }
  }

  lemma ServedStandsFor(before: seq<Operation>, taken: seq<Operation>, k: nat, b: Operation, a: Operation)
    requires ServedAt(before, taken, k, b) && StandsFor(b, a)
    ensures ServedAt(before, taken, k, a)
  {
  }

  lemma {:induction false} TakenGrows(h: History, es: seq<LoopEvent>)
    ensures h.taken <= LoopRun(h, es).taken
    decreases |es|
  {
    if es != [] { TakenGrows(LoopStep(h, es[0]), es[1..]); }
  }
}
