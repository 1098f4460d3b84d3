/** The paired-device roll-call: three broadcasts, one fixed array of distinct responders. */
module RollCall {
  import opened Wrappers
  import opened RadioLink
  import opened Listening
  import opened ExchangeEngine
  import opened Words

  const SCAN_MAX_REPLIES := 24
  const CMD_DISCOVER_SPE_REQ: Byte := 0x2A
  const CMD_DISCOVER_SPE_RESP: Byte := 0x2B
  const BROADCAST_DISCOVER: NodeId := 0x00003B
  const SCAN_CHANNELS: seq<Word> := [FREQ_CH2, FREQ_CH1, FREQ_CH3]

  /** What is kept of a reply; `payload` stands for the fields decoded from the frame's data. */
  datatype Responder = Responder(src: NodeId, payload: seq<Byte>, rssi: int)

  datatype AddResult = ADDED | DUPLICATE | FULL

  function Decode(r: BroadcastReply): Responder { Responder(r.frame.src, r.frame.data, r.rssi) }

  predicate Listed(rs: seq<Responder>, src: NodeId) { exists k :: 0 <= k < |rs| && rs[k].src == src }

  predicate HeardFrom(replies: seq<BroadcastReply>, src: NodeId) {
    exists i :: 0 <= i < |replies| && replies[i].frame.src == src
  }

  /** The replies whose source had not replied before, in order of arrival. */
  function FirstReplies(replies: seq<BroadcastReply>): seq<Responder> {
    if replies == [] then []
    else
      var before, r := replies[..|replies| - 1], replies[|replies| - 1];
      FirstReplies(before) + if HeardFrom(before, r.frame.src) then [] else [Decode(r)]
  }

  function Capped(rs: seq<Responder>): seq<Responder> {
    if |rs| <= SCAN_MAX_REPLIES then rs else rs[..SCAN_MAX_REPLIES]
  }

  lemma FirstRepliesAppend(replies: seq<BroadcastReply>, r: BroadcastReply)
    ensures FirstReplies(replies + [r]) ==
      FirstReplies(replies) + if HeardFrom(replies, r.frame.src) then [] else [Decode(r)]
  {
    assert (replies + [r])[..|replies|] == replies;
  }

  /** A source has an entry exactly when it has replied, and never two. */
  lemma {:induction false} OneEntryPerSource(replies: seq<BroadcastReply>, src: NodeId)
    ensures Listed(FirstReplies(replies), src) <==> HeardFrom(replies, src)
    ensures var first := FirstReplies(replies);
            forall j, k :: 0 <= j < k < |first| && first[j].src == src ==> first[k].src != src
  {
    if replies != [] {
      var n := |replies| - 1;
      var before, r := replies[..n], replies[n];
      OneEntryPerSource(before, src);
      assert HeardFrom(replies, src) <==> HeardFrom(before, src) || r.frame.src == src by {
        assert forall i :: 0 <= i < n ==> replies[i] == before[i];
      }
      ListedAppend(FirstReplies(before), Decode(r), src);
      assert FirstReplies(before) + [] == FirstReplies(before);
    }
  }

  lemma ListedAppend(rs: seq<Responder>, r: Responder, src: NodeId)
    ensures Listed(rs + [r], src) <==> Listed(rs, src) || r.src == src
  {
    var all := rs + [r];
    assert forall k :: 0 <= k < |rs| ==> all[k] == rs[k];
    assert all[|rs|] == r;
  }

  /** Appends a responder unless it is recorded already; the duplicate check comes before the capacity check. */
  method AddScanResponder(responders: array<Responder>, count: nat, reply: BroadcastReply)
      returns (result: AddResult, count': nat)
    requires count <= responders.Length
    modifies responders
    ensures count' <= responders.Length
    ensures result == DUPLICATE <==> Listed(old(responders[..count]), reply.frame.src)
    ensures result == FULL <==> !Listed(old(responders[..count]), reply.frame.src) && count == responders.Length
    ensures responders[..count'] == old(responders[..count]) + if result == ADDED then [Decode(reply)] else []
  {
    for i := 0 to count
      invariant unchanged(responders)
      invariant forall k :: 0 <= k < i ==> responders[k].src != reply.frame.src
    {
      if responders[i].src == reply.frame.src {
        assert responders[..count][i].src == reply.frame.src;
        return DUPLICATE, count;
      }
    }
    if count >= responders.Length { return FULL, count; }
    responders[count] := Decode(reply);
    return ADDED, count + 1;
  }

  /** The entries are those of the replies at the places `at`, in order: each source's first one. */
  ghost predicate Firsts(replies: seq<BroadcastReply>, entries: seq<Responder>, at: seq<nat>) {
    && |at| == |entries|
    && (forall k :: 0 <= k < |at| ==>
          && at[k] < |replies| && entries[k].src == replies[at[k]].frame.src
          && entries[k].payload == replies[at[k]].frame.data && entries[k].rssi == replies[at[k]].rssi)
    && (forall j, k :: 0 <= j < k < |at| ==> at[j] < at[k])
    && forall i: nat :: i < |replies| ==> (i in at <==> IsFirst(replies, i))
  }

  ghost predicate IsFirst(replies: seq<BroadcastReply>, i: nat)
    requires i < |replies|
  {
    forall j :: 0 <= j < i ==> replies[j].frame.src != replies[i].frame.src
  }

  lemma FirstsGrow(replies: seq<BroadcastReply>, entries: seq<Responder>, at: seq<nat>, r: BroadcastReply)
    requires Firsts(replies, entries, at)
    ensures HeardFrom(replies, r.frame.src) ==> Firsts(replies + [r], entries, at)
    ensures !HeardFrom(replies, r.frame.src) ==> Firsts(replies + [r], entries + [Decode(r)], at + [|replies|])
  {
    var all := replies + [r];
    assert |replies| !in at;
    forall i: nat | i < |replies| ensures IsFirst(all, i) <==> IsFirst(replies, i) {
      assert forall j :: 0 <= j <= i ==> all[j] == replies[j];
    }
    assert IsFirst(all, |replies|) <==> !HeardFrom(replies, r.frame.src) by {
      assert forall j :: 0 <= j < |replies| ==> all[j] == replies[j];
    }
  }

  lemma {:induction false} FirstRepliesMean(replies: seq<BroadcastReply>) returns (at: seq<nat>)
    ensures Firsts(replies, FirstReplies(replies), at)
  {
    at := [];
    if replies != [] {
      var before, r := replies[..|replies| - 1], replies[|replies| - 1];
      at := FirstRepliesMean(before);
      FirstsGrow(before, FirstReplies(before), at, r);
      assert before + [r] == replies;
      if HeardFrom(before, r.frame.src) {
        assert FirstReplies(before) + [] == FirstReplies(before);
      } else {
        at := at + [|before|];
      }
    }
  }

  /** What the report lists: the first 24 such entries, truncated if and only if there are more. */
  ghost predicate Reported(report: seq<Responder>, truncated: bool, replies: seq<BroadcastReply>) {
    exists entries, at ::
      && Firsts(replies, entries, at)
      && |report| == (if |entries| < 24 then |entries| else 24) && report <= entries
      && (truncated <==> |entries| > 24)
  }

  lemma RecordedMeans(recorded: seq<Responder>, truncated: bool, replies: seq<BroadcastReply>)
    requires Recorded(recorded, truncated, replies)
    ensures Reported(recorded, truncated, replies)
  {
    var at := FirstRepliesMean(replies);
    assert Firsts(replies, FirstReplies(replies), at);
  }

  /** What the array and the flag hold after `replies`. */
  ghost predicate Recorded(recorded: seq<Responder>, truncated: bool, replies: seq<BroadcastReply>) {
    var first := FirstReplies(replies);
    recorded == Capped(first) && (truncated <==> |first| > SCAN_MAX_REPLIES)
  }

  lemma RecordedAppend(recorded: seq<Responder>, truncated: bool, replies: seq<BroadcastReply>, r: BroadcastReply)
    requires Recorded(recorded, truncated, replies)
    ensures Listed(recorded, r.frame.src) ==> Recorded(recorded, truncated, replies + [r])
    ensures !Listed(recorded, r.frame.src) && |recorded| < SCAN_MAX_REPLIES ==>
              Recorded(recorded + [Decode(r)], truncated, replies + [r])
    ensures !Listed(recorded, r.frame.src) && |recorded| == SCAN_MAX_REPLIES ==> Recorded(recorded, true, replies + [r])
  {
    FirstRepliesAppend(replies, r);
    OneEntryPerSource(replies, r.frame.src);
    var first := FirstReplies(replies);
    if Listed(recorded, r.frame.src) {
      var k :| 0 <= k < |recorded| && recorded[k].src == r.frame.src;
      assert first[k] == recorded[k];
    }
  }

  /** Feeds one attempt's replies, heard after `seen`, into the array. */
  method RecordAll(responders: array<Responder>, count: nat, truncated: bool, replies: seq<BroadcastReply>,
                   ghost seen: seq<BroadcastReply>)
      returns (count': nat, truncated': bool)
    requires responders.Length == SCAN_MAX_REPLIES && count <= responders.Length
    requires Recorded(responders[..count], truncated, seen)
    modifies responders
    ensures count' <= responders.Length && Recorded(responders[..count'], truncated', seen + replies)
  {
    count', truncated' := count, truncated;
    assert seen + replies[..0] == seen;
    for i := 0 to |replies|
      invariant count' <= responders.Length && Recorded(responders[..count'], truncated', seen + replies[..i])
    {
      RecordedAppend(responders[..count'], truncated', seen + replies[..i], replies[i]);
      assert seen + replies[..i] + [replies[i]] == seen + replies[..i + 1];
      var result;
      result, count' := AddScanResponder(responders, count', replies[i]);
      if result == FULL { truncated' := true; }
    }
    assert replies[..|replies|] == replies;
  }

  /** One attempt: its request, whether that went out, and the listen that followed. */
  datatype Try = Try(request: Frame, sent: bool, listen: seq<RadioEvent>)

  /** The random nonce and its HMAC for each attempt's request; None when the request cannot be built. */
  type Payloads = nat -> Option<seq<Byte>>

  function RequestOf(me: NodeId, nonceAndHmac: seq<Byte>): Frame {
    Frame(CMD_DISCOVER_SPE_REQ, me, BROADCAST_DISCOVER, true, false, nonceAndHmac)
  }

  /** What the radio saw of the `k`th attempt. */
  ghost function TryTrace(engine: Engine, k: nat, t: Try): seq<RadioEvent>
    requires k < |SCAN_CHANNELS|
  {
    (if engine.serializes(t.request)
     then [Sent(Ask, t.request, [FREQ_CH2, FREQ_CH1, FREQ_CH3][k],
                if !t.request.start then engine.tuning.responsePreamble
                else if t.request.lowPower then 1024 else engine.tuning.normalStartPreamble, t.sent)]
     else [])
    + t.listen
  }

  ghost function ScanTrace(engine: Engine, tries: seq<Try>): seq<RadioEvent>
    requires |tries| <= |SCAN_CHANNELS|
  {
    if tries == [] then []
    else ScanTrace(engine, tries[..|tries| - 1]) + TryTrace(engine, |tries| - 1, tries[|tries| - 1])
  }

  /** A roll-call request of its own on its channel and, if and only if that went out, a disciplined listen off that
      channel. */
  ghost predicate Tried(engine: Engine, wait: U16, payloads: Payloads, k: nat, t: Try)
    requires k < |SCAN_CHANNELS|
  {
    && payloads(k).Some?
    && t.request == RadioLink.Frame(0x2A, engine.nodeId, 0x00003B, true, false, payloads(k).value)
    && if t.sent
       then && engine.serializes(t.request)
            && engine.CollectsReplies(t.listen, wait, SCAN_CHANNELS[k]) && Lasted(t.listen) >= wait
       else t.listen == []
  }

  ghost predicate AllTried(engine: Engine, wait: U16, payloads: Payloads, tries: seq<Try>) {
    && |tries| <= |SCAN_CHANNELS|
    && forall k :: 0 <= k < |tries| ==> Tried(engine, wait, payloads, k, tries[k])
  }

  /** How many attempts went out. */
  function SentTries(tries: seq<Try>): nat {
    if tries == [] then 0 else SentTries(tries[..|tries| - 1]) + if tries[|tries| - 1].sent then 1 else 0
  }

  /** The replies heard over several attempts, in order. */
  function AllMatching(tries: seq<Try>, me: NodeId): seq<Frame> {
    if tries == [] then []
    else
      AllMatching(tries[..|tries| - 1], me)
      + Matching(Deliveries(tries[|tries| - 1].listen), 0x2B, me)
  }

  lemma TriesAppend(engine: Engine, tries: seq<Try>, t: Try, me: NodeId)
    requires |tries| < |SCAN_CHANNELS|
    ensures ScanTrace(engine, tries + [t]) == ScanTrace(engine, tries) + TryTrace(engine, |tries|, t)
    ensures SentTries(tries + [t]) == SentTries(tries) + if t.sent then 1 else 0
    ensures AllMatching(tries + [t], me) ==
      AllMatching(tries, me) + Matching(Deliveries(t.listen), CMD_DISCOVER_SPE_RESP, me)
  {
    assert (tries + [t])[..|tries|] == tries;
  }

  lemma WaitsAdd(wait: nat, n: nat, sent: bool, begin: nat, now: nat, now': nat)
    requires now >= begin + wait * n && now' >= now + if sent then wait else 0
    ensures now' >= begin + wait * (n + if sent then 1 else 0)
  {
    assert wait * (n + 1) == wait * n + wait;
  }

  lemma {:induction false} FramesConcat(a: seq<BroadcastReply>, b: seq<BroadcastReply>)
    ensures Frames(a + b) == Frames(a) + Frames(b)
  {
    if b == [] {
      assert a + b == a && Frames(a) + [] == Frames(a);
    } else {
      var n := |b| - 1;
      FramesConcat(a, b[..n]);
      assert a + b == (a + b[..n]) + [b[n]];
      FramesAppend(a + b[..n], b[n]);
      assert Frames(a) + Frames(b) == Frames(a) + Frames(b[..n]) + [b[n].frame];
    }
  }

  /** The attempts so far, between the trace and the time the scan began with and those it has come to. */
  ghost predicate Scanned(engine: Engine, wait: U16, payloads: Payloads, tries: seq<Try>, replies: seq<BroadcastReply>,
                          t0: seq<RadioEvent>, begin: nat, trace: seq<RadioEvent>, now: nat) {
    AllTried(engine, wait, payloads, tries) && Traced(engine, wait, tries, replies, t0, begin, trace, now)
  }

  ghost predicate Traced(engine: Engine, wait: U16, tries: seq<Try>, replies: seq<BroadcastReply>,
                         t0: seq<RadioEvent>, begin: nat, trace: seq<RadioEvent>, now: nat) {
    && |tries| <= |SCAN_CHANNELS|
    && trace == t0 + ScanTrace(engine, tries)
    && now >= begin + wait * SentTries(tries)
    && Frames(replies) == AllMatching(tries, engine.nodeId)
  }

  lemma TriedMore(engine: Engine, wait: U16, payloads: Payloads, tries: seq<Try>, t: Try)
    requires |tries| < |SCAN_CHANNELS| && AllTried(engine, wait, payloads, tries)
    requires Tried(engine, wait, payloads, |tries|, t)
    ensures AllTried(engine, wait, payloads, tries + [t])
  {
    forall k | 0 <= k < |tries + [t]| ensures Tried(engine, wait, payloads, k, (tries + [t])[k]) {
      if k < |tries| { assert Tried(engine, wait, payloads, k, tries[k]); }
    }
  }

  lemma TracedMore(engine: Engine, wait: U16, tries: seq<Try>, replies: seq<BroadcastReply>,
                   t0: seq<RadioEvent>, begin: nat, trace: seq<RadioEvent>, now: nat,
                   t: Try, batch: seq<BroadcastReply>, trace': seq<RadioEvent>, now': nat)
    requires |tries| < |SCAN_CHANNELS| && Traced(engine, wait, tries, replies, t0, begin, trace, now)
    requires trace' == trace + TryTrace(engine, |tries|, t) && now' >= now + if t.sent then wait else 0
    requires Frames(batch) == Matching(Deliveries(t.listen), CMD_DISCOVER_SPE_RESP, engine.nodeId)
    ensures Traced(engine, wait, tries + [t], replies + batch, t0, begin, trace', now')
  {
    Associates(t0, ScanTrace(engine, tries), TryTrace(engine, |tries|, t));
    TriesAppend(engine, tries, t, engine.nodeId);
    FramesConcat(replies, batch);
    WaitsAdd(wait, SentTries(tries), t.sent, begin, now, now');
  }

  /** One attempt on its channel. */
  method CallTheRoll(engine: Engine, request: Frame, attempt: nat, wait: U16, ghost payloads: Payloads)
      returns (batch: seq<BroadcastReply>, ghost t: Try)
    requires attempt < |SCAN_CHANNELS| && payloads(attempt).Some?
    requires request == RequestOf(engine.nodeId, payloads(attempt).value)
    modifies engine.radio
    ensures Tried(engine, wait, payloads, attempt, t)
    ensures engine.radio.trace == old(engine.radio.trace) + TryTrace(engine, attempt, t)
    ensures engine.radio.now >= old(engine.radio.now) + if t.sent then wait else 0
    ensures Frames(batch) == Matching(Deliveries(t.listen), CMD_DISCOVER_SPE_RESP, engine.nodeId)
  {
    var heard;
    ghost var sent, listen;
    heard, batch, sent, listen :=
      engine.CollectBroadcastResponses(request, SCAN_CHANNELS[attempt], CMD_DISCOVER_SPE_RESP, wait);
    t := Try(request, sent, listen);
    Associates(old(engine.radio.trace),
               engine.Transmission(Ask, request, SCAN_CHANNELS[attempt], engine.RequestPreamble(request), sent),
               listen);
  }

  /** The scan: the radio sees exactly three roll-call broadcasts, one fresh request per channel whatever the earlier
      ones brought, each followed if it went out by a listen of the full window off its channel. The report lists
      exactly the first 24 distinct sources these listens delivered, in order of arrival, with the data of each one's
      first reply, and says it is truncated exactly when there was a 25th. It fails exactly when some request cannot be
      built, and then stops there. */
  method ScanPairedDevices(engine: Engine, initialized: bool, discoveryWait: U16, payloads: Payloads)
      returns (report: Option<seq<Responder>>, truncated: bool,
               ghost replies: seq<BroadcastReply>, ghost tries: seq<Try>)
    modifies engine.radio
    ensures AllTried(engine, discoveryWait, payloads, tries)
    ensures engine.radio.trace == old(engine.radio.trace) + ScanTrace(engine, tries)
    ensures engine.radio.now >= old(engine.radio.now) + discoveryWait * SentTries(tries)
    ensures Frames(replies) == AllMatching(tries, engine.nodeId)
    ensures report.Some? ==> Reported(report.value, truncated, replies) && |tries| == 3
    ensures report.None? && initialized ==> |tries| < 3 && payloads(|tries|).None?
    ensures !initialized ==> report.None? && tries == []
  {
    var responders := new Responder[SCAN_MAX_REPLIES](i => Responder(0, [], 0));
    var count: nat := 0;
    ghost var t0, begin := engine.radio.trace, engine.radio.now;
    truncated, replies, tries := false, [], [];
    if !initialized { return None, truncated, replies, tries; }
    for attempt := 0 to |SCAN_CHANNELS|
      modifies engine.radio, responders
      invariant count <= responders.Length && Recorded(responders[..count], truncated, replies)
      invariant |tries| == attempt
      invariant Scanned(engine, discoveryWait, payloads, tries, replies, t0, begin,
                        engine.radio.trace, engine.radio.now)
    {
      var nonceAndHmac := payloads(attempt);
      if nonceAndHmac.None? { return None, truncated, replies, tries; }
      var request := RequestOf(engine.nodeId, nonceAndHmac.value);
      ghost var trace, now := engine.radio.trace, engine.radio.now;
      var batch;
      ghost var t;
      batch, t := CallTheRoll(engine, request, attempt, discoveryWait, payloads);
      TriedMore(engine, discoveryWait, payloads, tries, t);
      TracedMore(engine, discoveryWait, tries, replies, t0, begin, trace, now,
                 t, batch, engine.radio.trace, engine.radio.now);
      count, truncated := RecordAll(responders, count, truncated, batch, replies);
      replies, tries := replies + batch, tries + [t];
    }
    report := Some(responders[..count]);
    RecordedMeans(responders[..count], truncated, replies);
  }
}
