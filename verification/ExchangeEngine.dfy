/** The authenticated request/response exchange: listen-before-talk, the retry loop, and what its outcome means. */
module ExchangeEngine {
  import opened Wrappers
  import opened RadioLink
  import opened Listening
  import opened Words

  const CMD_EXECUTE: Byte := 0x00
  const CMD_CHALLENGE_REQ: Byte := 0x3C
  const CMD_CHALLENGE_RESP: Byte := 0x3D

  const LBT_RETRY_DELAY_MS := 5
  const EXCHANGE_RETRY_DELAY_MS := 250
  const EXCHANGE_RETRY_COUNT := 3
  const LONG_PREAMBLE: U16 := 1024
  const PREAMBLE_LINGER_DWELL_MS: Word := 15

  datatype Tuning = Tuning(lbtMaxRetries: Byte, normalStartPreamble: U16, responsePreamble: U16, hopDwell: U16,
                           startResponseWait: U16, responseWait: U16, totalBudget: U16)

  datatype Outcome = SUCCESS_WITH_RESPONSE(response: Frame) | SUCCESS_UNCONFIRMED | FAILED

  // --- Classifiers ---

  predicate MatchesExchangeEndpoints(request: Frame, candidate: Frame) {
    candidate.src == request.dst && candidate.dst == request.src
  }

  datatype FirstResponse = IGNORE_UNRELATED | REQUIRE_AUTH | COMPLETE_DIRECT

  function ClassifyFirst(request: Frame, candidate: Frame): FirstResponse {
    if !MatchesExchangeEndpoints(request, candidate) then IGNORE_UNRELATED
    else if candidate.cmd == CMD_CHALLENGE_REQ then REQUIRE_AUTH
    else COMPLETE_DIRECT
  }

  predicate RetryAfterUnconfirmedIsSafe(cmd: Byte) { cmd != CMD_EXECUTE }

  // --- What an exchange did, read off its trace ---

  predicate IsAsk(e: RadioEvent) { e.Sent? && e.purpose == Ask }

  /** A 0x3D that went out. */
  predicate IsProof(e: RadioEvent) { e.Sent? && e.purpose == Prove && e.ok }

  /** A challenge from the peer of this exchange. */
  predicate IsChallenge(request: Frame, e: RadioEvent) {
    && e.Waited? && e.heard.Received? && MatchesExchangeEndpoints(request, e.heard.frame)
    && e.heard.frame.cmd == CMD_CHALLENGE_REQ
  }

  function Asks(seg: seq<RadioEvent>): nat {
    if seg == [] then 0 else Asks(seg[..|seg| - 1]) + if IsAsk(seg[|seg| - 1]) then 1 else 0
  }

  ghost predicate Proved(seg: seq<RadioEvent>) { exists i :: 0 <= i < |seg| && IsProof(seg[i]) }

  /** What was transmitted last. */
  function LastSent(seg: seq<RadioEvent>): Option<Purpose> {
    if seg == [] then None
    else if seg[|seg| - 1].Sent? then Some(seg[|seg| - 1].purpose) else LastSent(seg[..|seg| - 1])
  }

  /** A reply that closes the exchange: a frame with mirrored endpoints, and not a challenge unless one was answered
      since the request. */
  predicate Accepts(request: Frame, before: seq<RadioEvent>, e: RadioEvent) {
    && e.Waited? && e.heard.Received? && MatchesExchangeEndpoints(request, e.heard.frame)
    && (e.heard.frame.cmd != CMD_CHALLENGE_REQ || LastSent(before) == Some(Prove))
  }

  ghost predicate Answered(request: Frame, seg: seq<RadioEvent>) {
    exists i :: 0 <= i < |seg| && Accepts(request, seg[..i], seg[i])
  }

  /** The `i`th event brought a reply: a frame from the peer of the request to its sender, and no 0x3C unless a 0x3D was
      the last thing sent. */
  ghost predicate Replied(request: Frame, run: seq<RadioEvent>, i: nat)
    requires i < |run|
  {
    && run[i].Waited? && run[i].heard.Received?
    && run[i].heard.frame.src == request.dst && run[i].heard.frame.dst == request.src
    && (run[i].heard.frame.cmd == 0x3C ==>
          exists j :: 0 <= j < i && run[j].Sent? && run[j].purpose == Prove && forall k :: j < k < i ==> !run[k].Sent?)
  }

  /** A response if and only if there was a reply, and that reply; unconfirmed if and only if there was none and some
      0x3D went out. */
  ghost predicate ToldRight(request: Frame, run: seq<RadioEvent>, outcome: Outcome) {
    && (outcome.SUCCESS_WITH_RESPONSE? <==> exists i :: 0 <= i < |run| && Replied(request, run, i))
    && (outcome.SUCCESS_UNCONFIRMED? <==>
          && !outcome.SUCCESS_WITH_RESPONSE?
          && exists i :: 0 <= i < |run| && run[i].Sent? && run[i].purpose == Prove && run[i].ok)
    && (outcome.SUCCESS_WITH_RESPONSE? ==>
          && outcome.response.src == request.dst && outcome.response.dst == request.src
          && run != [] && run[|run| - 1].Waited? && run[|run| - 1].heard == Received(outcome.response))
  }

  lemma OutcomeTold(request: Frame, freq: Word, respond: Responder, run: seq<RadioEvent>, outcome: Outcome)
    requires LawfulRun(request, freq, respond, run)
    requires outcome.SUCCESS_WITH_RESPONSE? <==> Answered(request, run)
    requires outcome.SUCCESS_UNCONFIRMED? <==> !Answered(request, run) && Proved(run)
    requires outcome.SUCCESS_WITH_RESPONSE? ==>
      run != [] && run[|run| - 1].Waited? && run[|run| - 1].heard == Received(outcome.response)
    ensures ToldRight(request, run, outcome)
  {
    AnsweredIs(request, run);
    NeverMovesTwice(request, freq, respond, run);
    if Proved(run) {
      var i :| 0 <= i < |run| && IsProof(run[i]);
      assert run[i].Sent? && run[i].purpose == Prove && run[i].ok;
    }
  }

  lemma {:induction false} LastSentIs(run: seq<RadioEvent>, purpose: Purpose)
    ensures LastSent(run) == Some(purpose) <==>
      exists j :: 0 <= j < |run| && run[j].Sent? && run[j].purpose == purpose
                  && forall k :: j < k < |run| ==> !run[k].Sent?
    decreases |run|
  {
    if run != [] {
      var n := |run| - 1;
      if !run[n].Sent? {
        var init := run[..n];
        LastSentIs(init, purpose);
        if LastSent(run) == Some(purpose) {
          var j :| 0 <= j < n && init[j].Sent? && init[j].purpose == purpose
                   && forall k :: j < k < n ==> !init[k].Sent?;
          assert run[j] == init[j];
          assert forall k :: j < k < |run| ==> !run[k].Sent? by {
            forall k | j < k < |run| ensures !run[k].Sent? { if k < n { assert init[k] == run[k]; } }
          }
        }
      }
    }
  }

  lemma AnsweredIs(request: Frame, run: seq<RadioEvent>)
    ensures Answered(request, run) <==> exists i :: 0 <= i < |run| && Replied(request, run, i)
  {
    forall i | 0 <= i < |run| ensures Accepts(request, run[..i], run[i]) <==> Replied(request, run, i) {
      LastSentIs(run[..i], Prove);
      assert forall k :: 0 <= k < i ==> run[..i][k] == run[k];
    }
  }

  /** How the engine answers a challenge; None when the 0x3D cannot be built. */
  type Responder = (Frame, seq<Byte>) -> Option<seq<Byte>>

  /** What the exchange may do next after `before`: nothing once answered; ask again only if no 0x3D went out for a
      CMD_EXECUTE; answer only the challenge just heard, for this request; and wait only on the request's channel. */
  ghost predicate Lawful(request: Frame, freq: Word, respond: Responder, before: seq<RadioEvent>, e: RadioEvent) {
    && !Answered(request, before)
    && match e
       case Sent(Ask, f, fr, _, _) => f == request && fr == freq && (request.cmd == CMD_EXECUTE ==> !Proved(before))
       case Sent(Prove, f, fr, _, _) =>
         && fr == freq && LastSent(before) == Some(Ask)
         && before != [] && before[|before| - 1].Waited? && before[|before| - 1].heard.Received?
         && var c := before[|before| - 1].heard.frame;
         && MatchesExchangeEndpoints(request, c) && c.cmd == CMD_CHALLENGE_REQ
         && f.cmd == CMD_CHALLENGE_RESP && f.dst == request.dst && respond(request, c.data) == Some(f.data)
       case Waited(f, _, _, _) => f == freq && LastSent(before).Some?
       case _ => false
  }

  ghost predicate LawfulRun(request: Frame, freq: Word, respond: Responder, seg: seq<RadioEvent>) {
    forall i :: 0 <= i < |seg| ==> Lawful(request, freq, respond, seg[..i], seg[i])
  }

  lemma AnsweredGrows(request: Frame, seg: seq<RadioEvent>, e: RadioEvent)
    ensures Answered(request, seg + [e]) <==> Answered(request, seg) || Accepts(request, seg, e)
  {
    var all := seg + [e];
    assert all[..|seg|] == seg && all[|seg|] == e;
    assert forall i :: 0 <= i < |seg| ==> all[..i] == seg[..i] && all[i] == seg[i];
    if Answered(request, all) {
      var i :| 0 <= i < |all| && Accepts(request, all[..i], all[i]);
      if i < |seg| { assert all[..i] == seg[..i] && all[i] == seg[i]; }
    }
    if Answered(request, seg) {
      var i :| 0 <= i < |seg| && Accepts(request, seg[..i], seg[i]);
      assert Accepts(request, all[..i], all[i]);
    }
    if Accepts(request, seg, e) { assert Accepts(request, all[..|seg|], all[|seg|]); }
  }

  lemma ProvedGrows(seg: seq<RadioEvent>, e: RadioEvent)
    ensures Proved(seg + [e]) <==> Proved(seg) || IsProof(e)
  {
    var all := seg + [e];
    assert all[|seg|] == e;
    if Proved(seg) {
      var i :| 0 <= i < |seg| && IsProof(seg[i]);
      assert IsProof(all[i]);
    }
  }

  lemma Grow(request: Frame, freq: Word, respond: Responder, seg: seq<RadioEvent>, e: RadioEvent)
    requires LawfulRun(request, freq, respond, seg) && Lawful(request, freq, respond, seg, e)
    ensures LawfulRun(request, freq, respond, seg + [e])
    ensures Asks(seg + [e]) == Asks(seg) + if IsAsk(e) then 1 else 0
    ensures LastSent(seg + [e]) == if e.Sent? then Some(e.purpose) else LastSent(seg)
    ensures Proved(seg + [e]) <==> Proved(seg) || IsProof(e)
    ensures Answered(request, seg + [e]) <==> Accepts(request, seg, e)
  {
    AnsweredGrows(request, seg, e);
    ProvedGrows(seg, e);
    var all := seg + [e];
    assert all[..|seg|] == seg && all[|seg|] == e;
    forall i | 0 <= i < |all| ensures Lawful(request, freq, respond, all[..i], all[i]) {
      if i < |seg| { assert all[..i] == seg[..i] && all[i] == seg[i]; }
    }
  }

  predicate Mirrored(request: Frame, r: Reception) { r.Received? && MatchesExchangeEndpoints(request, r.frame) }

  lemma SplitLast(run: seq<RadioEvent>, seg: seq<RadioEvent>)
    requires seg != []
    ensures run + seg == (run + seg[..|seg| - 1]) + [seg[|seg| - 1]]
  {
  }

  /** Waits that bring nothing for this exchange. */
  ghost predicate Silent(request: Frame, freq: Word, seg: seq<RadioEvent>) {
    forall e :: e in seg ==> e.Waited? && e.freq == freq && !Mirrored(request, e.heard)
  }

  lemma {:induction false} SilentWaits(request: Frame, freq: Word, respond: Responder,
                                       run: seq<RadioEvent>, seg: seq<RadioEvent>)
    requires LawfulRun(request, freq, respond, run) && !Answered(request, run) && LastSent(run).Some?
    requires Silent(request, freq, seg)
    ensures LawfulRun(request, freq, respond, run + seg) && !Answered(request, run + seg)
    ensures Asks(run + seg) == Asks(run) && LastSent(run + seg) == LastSent(run) && (Proved(run + seg) <==> Proved(run))
    decreases |seg|
  {
    if seg == [] {
      assert run + seg == run;
    } else {
      var init, e := seg[..|seg| - 1], seg[|seg| - 1];
      assert e in seg && forall x :: x in init ==> x in seg;
      SilentWaits(request, freq, respond, run, init);
      Grow(request, freq, respond, run + init, e);
      SplitLast(run, seg);
    }
  }

  lemma Associates<T>(a: seq<T>, b: seq<T>, c: seq<T>)
    ensures a + b + c == a + (b + c)
  {
  }

  /** Nothing heard in these waits came from the peer of the request to its sender. */
  ghost predicate NoneFromPeer(request: Frame, seg: seq<RadioEvent>) {
    forall e :: e in seg ==>
      && e.Waited?
      && !(e.heard.Received? && e.heard.frame.src == request.dst && e.heard.frame.dst == request.src)
  }

  lemma {:induction false} LastedConcat(a: seq<RadioEvent>, b: seq<RadioEvent>)
    ensures Lasted(a + b) == Lasted(a) + Lasted(b)
    decreases |b|
  {
    if b == [] {
      assert a + b == a;
    } else {
      LastedConcat(a, b[..|b| - 1]);
      SplitLast(a, b);
      LastedGrows(a + b[..|b| - 1], b[|b| - 1]);
    }
  }

  lemma {:induction false} DeliveriesIgnored(request: Frame, freq: Word, seg: seq<RadioEvent>)
    requires forall e :: e in seg ==> e.Waited? && e.freq == freq
    requires forall r :: r in Deliveries(seg) ==> !Mirrored(request, r)
    ensures Silent(request, freq, seg)
  {
    if seg != [] {
      var init, e := seg[..|seg| - 1], seg[|seg| - 1];
      assert seg == init + [e];
      assert e.heard != Nothing ==> e.heard in Deliveries(seg);
      assert forall r :: r in Deliveries(init) ==> r in Deliveries(seg);
      DeliveriesIgnored(request, freq, init);
    }
  }

  /** The looks before a transmission: busy ones only, up to a free one or the allowed number. */
  ghost predicate ListenedBeforeTalking(looks: seq<bool>, most: nat) {
    && |looks| <= most
    && (forall i :: 0 <= i < |looks| - 1 ==> !looks[i])
    && (|looks| == most || (looks != [] && looks[|looks| - 1]))
  }

  // --- Broadcast roll-call ---

  datatype BroadcastReply = BroadcastReply(frame: Frame, rssi: int)

  function RollCallSpec(window: Word, freq: Word): ListenSpec {
    ListenSpec(window, ROTATE_SKIPPING_REQUEST, freq, 0, false, true, PREAMBLE_LINGER_DWELL_MS)
  }

  function Frames(replies: seq<BroadcastReply>): seq<Frame> {
    if replies == [] then [] else Frames(replies[..|replies| - 1]) + [replies[|replies| - 1].frame]
  }

  lemma FramesAppend(replies: seq<BroadcastReply>, r: BroadcastReply)
    ensures Frames(replies + [r]) == Frames(replies) + [r.frame]
  {
    assert (replies + [r])[..|replies|] == replies;
  }

  /** The deliveries that are replies to this controller. */
  function Matching(heard: seq<Reception>, cmd: Byte, me: NodeId): seq<Frame> {
    if heard == [] then []
    else
      var r := heard[|heard| - 1];
      Matching(heard[..|heard| - 1], cmd, me)
      + if r.Received? && r.frame.cmd == cmd && r.frame.dst == me then [r.frame] else []
  }

  /** The replies are what was heard at the places `at`, in order: all frames with this command for this controller. */
  ghost predicate Replies(heard: seq<Reception>, frames: seq<Frame>, at: seq<nat>, cmd: Byte, me: NodeId) {
    && |at| == |frames|
    && (forall k :: 0 <= k < |at| ==> at[k] < |heard| && heard[at[k]] == Received(frames[k]))
    && (forall j, k :: 0 <= j < k < |at| ==> at[j] < at[k])
    && forall i: nat :: i < |heard| ==>
         (i in at <==> heard[i].Received? && heard[i].frame.cmd == cmd && heard[i].frame.dst == me)
  }

  lemma RepliesGrow(heard: seq<Reception>, frames: seq<Frame>, at: seq<nat>, r: Reception, cmd: Byte, me: NodeId)
    requires Replies(heard, frames, at, cmd, me)
    ensures if r.Received? && r.frame.cmd == cmd && r.frame.dst == me
            then Replies(heard + [r], frames + [r.frame], at + [|heard|], cmd, me)
            else Replies(heard + [r], frames, at, cmd, me)
  {
    var all := heard + [r];
    assert |heard| !in at && all[|heard|] == r;
    assert forall i: nat :: i < |heard| ==> all[i] == heard[i];
  }

  lemma {:induction false} MatchingMeans(heard: seq<Reception>, cmd: Byte, me: NodeId) returns (at: seq<nat>)
    ensures Replies(heard, Matching(heard, cmd, me), at, cmd, me)
  {
    at := [];
    if heard != [] {
      var before, r := heard[..|heard| - 1], heard[|heard| - 1];
      at := MatchingMeans(before, cmd, me);
      RepliesGrow(before, Matching(before, cmd, me), at, r, cmd, me);
      assert before + [r] == heard;
      if r.Received? && r.frame.cmd == cmd && r.frame.dst == me {
        at := at + [|before|];
      } else {
        assert Matching(before, cmd, me) + [] == Matching(before, cmd, me);
      }
    }
  }

  // --- The engine ---

  lemma SilentUntilLast(request: Frame, freq: Word, seg: seq<RadioEvent>, handed: seq<Reception>,
                        judge: Reception -> Disposition)
    requires forall e :: e in seg ==> e.Waited? && e.freq == freq
    requires forall r :: judge(r) == IGNORE ==> !Mirrored(request, r)
    requires handed == Deliveries(seg) && EndsHearing(seg, handed) && FirstDecides(handed, judge, ACCEPTED)
    ensures Silent(request, freq, seg[..|seg| - 1])
  {
    var init := seg[..|seg| - 1];
    assert forall x :: x in init ==> x in seg;
    assert forall i :: 0 <= i < |Deliveries(init)| ==> Deliveries(init)[i] == handed[i];
    DeliveriesIgnored(request, freq, init);
  }

  datatype TryResult = NO_ANSWER | ACCEPTED_WITHOUT_REPLY | ANSWERED(reply: Frame)

  /** What the result of a try says about the exchange so far. */
  ghost predicate Tells(request: Frame, result: TryResult, run: seq<RadioEvent>, run': seq<RadioEvent>) {
    && (Answered(request, run') <==> result.ANSWERED?)
    && match result
       case ANSWERED(reply) => run' != [] && run'[|run'| - 1].Waited? && run'[|run'| - 1].heard == Received(reply)
       case ACCEPTED_WITHOUT_REPLY => Proved(run')
       case NO_ANSWER => Proved(run') <==> Proved(run)
  }

  class Engine {
    const radio: Radio
    const nodeId: NodeId
    const tuning: Tuning
    const respond: Responder
    const serializes: Frame -> bool

    constructor (radio: Radio, nodeId: NodeId, tuning: Tuning, respond: Responder, serializes: Frame -> bool)
      ensures this.radio == radio && this.nodeId == nodeId && this.tuning == tuning
      ensures this.respond == respond && this.serializes == serializes
    {
      this.radio, this.nodeId, this.tuning, this.respond, this.serializes := radio, nodeId, tuning, respond, serializes;
    }

    /** The longest listen-before-talk defers a transmission, plus the transmission. */
    function TxCost(): nat { tuning.lbtMaxRetries * (LBT_RETRY_DELAY_MS + radio.limits.spi) + radio.limits.air }

    function RequestWait(request: Frame): U16 {
      if request.start then tuning.startResponseWait else tuning.responseWait
    }

    function TryCost(request: Frame): nat {
      2 * TxCost() + RequestWait(request) + tuning.responseWait + 2 * radio.limits.late
    }

    function RequestPreamble(request: Frame): U16 {
      if !request.start then tuning.responsePreamble
      else if request.lowPower then LONG_PREAMBLE else tuning.normalStartPreamble
    }

    /** The listening time an event settles or owes: a request that went out owes its window until a challenge comes,
        and the 0x3D that answers one owes the window of the final response. */
    function Due(request: Frame, e: RadioEvent): int {
      if IsAsk(e) && e.ok then RequestWait(request)
      else if IsProof(e) then tuning.responseWait
      else if IsChallenge(request, e) then 0 - RequestWait(request)
      else 0
    }

    function Owed(request: Frame, run: seq<RadioEvent>): int {
      if run == [] then 0 else Owed(request, run[..|run| - 1]) + Due(request, run[|run| - 1])
    }

    lemma OwedGrows(request: Frame, run: seq<RadioEvent>, e: RadioEvent)
      ensures Owed(request, run + [e]) == Owed(request, run) + Due(request, e)
    {
      assert (run + [e])[..|run|] == run;
    }

    lemma {:induction false} SilenceOwesNothing(request: Frame, freq: Word, run: seq<RadioEvent>, seg: seq<RadioEvent>)
      requires Silent(request, freq, seg)
      ensures Owed(request, run + seg) == Owed(request, run)
      decreases |seg|
    {
      if seg == [] {
        assert run + seg == run;
      } else {
        var init, e := seg[..|seg| - 1], seg[|seg| - 1];
        assert e in seg && forall x :: x in init ==> x in seg;
        SilenceOwesNothing(request, freq, run, init);
        OwedGrows(request, run + init, e);
        SplitLast(run, seg);
      }
    }

    /** The 0x3D for a challenge, if it can be built. */
    function ChallengeResponse(request: Frame, challenge: Frame): Option<Frame> {
      match respond(request, challenge.data)
      case Some(hmac) => Some(Frame(CMD_CHALLENGE_RESP, nodeId, request.dst, false, false, hmac))
      case None => None
    }

    /** The 0x3D that has to come next: a challenge answered the request and the 0x3D can be built and sent. */
    function Owing(request: Frame, run: seq<RadioEvent>): Option<Frame> {
      if run == [] then None
      else
        var n := |run| - 1;
        if !IsChallenge(request, run[n]) || LastSent(run[..n]) != Some(Ask) then None
        else match ChallengeResponse(request, run[n].heard.frame)
          case Some(answer) => if serializes(answer) then Some(answer) else None
          case None => None
    }

    predicate Proves(e: RadioEvent, answer: Frame, freq: Word) {
      e.Sent? && e.purpose == Prove && e.frame == answer && e.freq == freq && e.preamble == tuning.responsePreamble
    }

    /** Every challenge to the request that could be answered was, by the very next event. */
    ghost predicate Prompt(request: Frame, freq: Word, run: seq<RadioEvent>) {
      forall i :: 0 < i < |run| && Owing(request, run[..i]).Some? ==>
        Proves(run[i], Owing(request, run[..i]).value, freq)
    }

    /** The 0x3C at place `i` answers the request itself: the last thing sent before it was the request. */
    ghost predicate Challenged(request: Frame, run: seq<RadioEvent>, i: nat)
      requires i < |run|
    {
      && run[i].Waited? && run[i].heard.Received? && run[i].heard.frame.cmd == 0x3C
      && run[i].heard.frame.src == request.dst && run[i].heard.frame.dst == request.src
      && exists j :: 0 <= j < i && run[j].Sent? && run[j].purpose == Ask && forall k :: j < k < i ==> !run[k].Sent?
    }

    /** Every such challenge is followed at once by its 0x3D, if that can be built and sent. */
    ghost predicate ProvesAtOnce(request: Frame, freq: Word, run: seq<RadioEvent>) {
      forall i :: 0 <= i < |run| && Challenged(request, run, i) ==>
        match respond(request, run[i].heard.frame.data)
        case None => true
        case Some(hmac) =>
          var answer := Frame(0x3D, nodeId, request.dst, false, false, hmac);
          serializes(answer) ==>
            && i + 1 < |run| && run[i + 1].Sent? && run[i + 1].purpose == Prove && run[i + 1].frame == answer
            && run[i + 1].freq == freq && run[i + 1].preamble == tuning.responsePreamble
    }

    lemma OwingAt(request: Frame, run: seq<RadioEvent>, i: nat)
      requires i < |run| && Challenged(request, run, i)
      ensures Owing(request, run[..i + 1]) ==
        match respond(request, run[i].heard.frame.data)
        case None => None
        case Some(hmac) =>
          var answer := Frame(0x3D, nodeId, request.dst, false, false, hmac);
          if serializes(answer) then Some(answer) else None
    {
      assert run[..i + 1][..i] == run[..i] && run[..i + 1][i] == run[i];
      LastSentIs(run[..i], Ask);
      assert forall k :: 0 <= k < i ==> run[..i][k] == run[k];
    }

    lemma PromptMeans(request: Frame, freq: Word, run: seq<RadioEvent>)
      requires Prompt(request, freq, run) && Owing(request, run).None?
      ensures ProvesAtOnce(request, freq, run)
    {
      forall i | 0 <= i < |run| && Challenged(request, run, i)
        ensures Owing(request, run[..i + 1]) ==
          match respond(request, run[i].heard.frame.data)
          case None => None
          case Some(hmac) =>
            var answer := Frame(0x3D, nodeId, request.dst, false, false, hmac);
            if serializes(answer) then Some(answer) else None
        ensures i + 1 == |run| ==> run[..i + 1] == run
      {
        OwingAt(request, run, i);
      }
    }

    /** No request goes out before the windows owed so far were waited out. */
    ghost predicate Patient(request: Frame, run: seq<RadioEvent>) {
      forall i :: 0 <= i < |run| && IsAsk(run[i]) ==> Lasted(run[..i]) >= Owed(request, run[..i])
    }

    lemma PatientGrows(request: Frame, run: seq<RadioEvent>, e: RadioEvent)
      requires Patient(request, run) && (IsAsk(e) ==> Lasted(run) >= Owed(request, run))
      ensures Patient(request, run + [e])
    {
      var all := run + [e];
      assert all[..|run|] == run;
      forall i | 0 <= i < |all| && IsAsk(all[i]) ensures Lasted(all[..i]) >= Owed(request, all[..i]) {
        if i < |run| { assert all[..i] == run[..i] && all[i] == run[i]; }
      }
    }

    lemma PromptGrows(request: Frame, freq: Word, run: seq<RadioEvent>, e: RadioEvent)
      requires Prompt(request, freq, run)
      requires Owing(request, run).Some? ==> Proves(e, Owing(request, run).value, freq)
      ensures Prompt(request, freq, run + [e])
      ensures !IsChallenge(request, e) || LastSent(run) != Some(Ask) ==> Owing(request, run + [e]).None?
    {
      var all := run + [e];
      assert all[..|run|] == run;
      forall i | 0 < i < |all| && Owing(request, all[..i]).Some?
        ensures Proves(all[i], Owing(request, all[..i]).value, freq)
      {
        if i < |run| { assert all[..i] == run[..i] && all[i] == run[i]; }
      }
    }

    lemma {:induction false} SilencePrompts(request: Frame, freq: Word, run: seq<RadioEvent>, seg: seq<RadioEvent>)
      requires Silent(request, freq, seg) && Owing(request, run).None?
      requires Prompt(request, freq, run) && Patient(request, run)
      ensures Prompt(request, freq, run + seg) && Patient(request, run + seg) && Owing(request, run + seg).None?
      decreases |seg|
    {
      if seg == [] {
        assert run + seg == run;
      } else {
        var init, e := seg[..|seg| - 1], seg[|seg| - 1];
        assert e in seg && forall x :: x in init ==> x in seg;
        SilencePrompts(request, freq, run, init);
        PromptGrows(request, freq, run + init, e);
        PatientGrows(request, run + init, e);
        SplitLast(run, seg);
      }
    }

    /** The window that follows a transmission. */
    function Window(request: Frame, purpose: Purpose): U16 {
      if purpose == Ask then RequestWait(request) else tuning.responseWait
    }

    /** No window is about to open: whatever went out last has been waited for. */
    predicate Rested(request: Frame, run: seq<RadioEvent>) {
      var n := |run|;
      n > 0 && run[n - 1].Sent? && run[n - 1].ok ==> Window(request, run[n - 1].purpose) == 0
    }

    /** What an exchange may put on the wire after `before`, field by field. A request is the request itself, with the
        long preamble for a sleeping peer. A 0x3D directly follows the 0x3C it answers, which came from the peer to
        this exchange, and goes from this controller to that peer. Every transmission that went out is followed by a
        wait of its whole window, on its channel. */
    ghost predicate Wired(request: Frame, freq: Word, before: seq<RadioEvent>, e: RadioEvent) {
      var n := |before|;
      && (n > 0 && before[n - 1].Sent? && before[n - 1].ok && !e.Waited? ==>
            0 == if before[n - 1].purpose == Ask && request.start then tuning.startResponseWait
                 else tuning.responseWait)
      && match e
         case Sent(Ask, f, fr, preamble, _) =>
           && f == request && fr == freq
           && preamble == if !request.start then tuning.responsePreamble
                          else if request.lowPower then 1024 else tuning.normalStartPreamble
         case Sent(Prove, f, fr, preamble, _) =>
           && n > 0 && before[n - 1].Waited? && before[n - 1].heard.Received?
           && var c := before[n - 1].heard.frame;
           && c.src == request.dst && c.dst == request.src && c.cmd == 0x3C
           && fr == freq && preamble == tuning.responsePreamble && !f.start && !f.lowPower
           && f.cmd == 0x3D && f.src == nodeId && f.dst == request.dst && respond(request, c.data) == Some(f.data)
         case Waited(fr, ms, _, _) =>
           && fr == freq && n > 0
           && (before[n - 1].Sent? ==>
                 && before[n - 1].ok
                 && ms == if before[n - 1].purpose == Ask && request.start then tuning.startResponseWait
                          else tuning.responseWait)
         case _ => false
    }

    ghost predicate OnTheWire(request: Frame, freq: Word, run: seq<RadioEvent>) {
      forall i :: 0 <= i < |run| ==> Wired(request, freq, run[..i], run[i])
    }

    lemma WireGrows(request: Frame, freq: Word, run: seq<RadioEvent>, e: RadioEvent)
      requires OnTheWire(request, freq, run) && Wired(request, freq, run, e)
      ensures OnTheWire(request, freq, run + [e])
    {
      var all := run + [e];
      assert all[..|run|] == run;
      forall i | 0 <= i < |all| ensures Wired(request, freq, all[..i], all[i]) {
        if i < |run| { assert all[..i] == run[..i] && all[i] == run[i]; }
      }
    }

    lemma WaitsWired(request: Frame, freq: Word, run: seq<RadioEvent>, seg: seq<RadioEvent>)
      requires OnTheWire(request, freq, run) && run != [] && run[|run| - 1].Sent? && run[|run| - 1].ok
      requires forall e :: e in seg ==> e.Waited? && e.freq == freq
      requires seg != [] ==> seg[0].ms == Window(request, run[|run| - 1].purpose)
      ensures OnTheWire(request, freq, run + seg)
    {
      var all, m := run + seg, |run|;
      forall i | 0 <= i < |all| ensures Wired(request, freq, all[..i], all[i]) {
        if i < m {
          assert all[..i] == run[..i] && all[i] == run[i];
        } else {
          assert all[i] == seg[i - m] && all[i] in seg;
          assert all[..i][i - 1] == if i == m then run[m - 1] else seg[i - m - 1];
          if i > m { assert seg[i - m - 1] in seg; }
        }
      }
    }

    ghost predicate Running(request: Frame, freq: Word, t0: seq<RadioEvent>, run: seq<RadioEvent>)
      reads radio
    {
      && radio.trace == t0 + run && LawfulRun(request, freq, respond, run)
      && Prompt(request, freq, run) && Patient(request, run) && OnTheWire(request, freq, run)
    }

    /** What handing a frame to the radio leaves in the trace. */
    function Transmission(purpose: Purpose, frame: Frame, freq: Word, preamble: U16, ok: bool): seq<RadioEvent> {
      if serializes(frame) then [Sent(purpose, frame, freq, preamble, ok)] else []
    }

    /** A frame that serializes is sent once: at the first look that finds the channel free, or after the last of a
        bounded number of looks that found it busy. */
    method TransmitFrame(frame: Frame, freq: Word, preamble: U16, ghost purpose: Purpose)
        returns (ok: bool, ghost seg: seq<RadioEvent>, ghost looks: seq<bool>)
      modifies radio
      ensures old(radio.now) <= radio.now <= old(radio.now) + TxCost()
      ensures radio.trace == old(radio.trace) + seg && radio.looks == old(radio.looks) + looks
      ensures seg == Transmission(purpose, frame, freq, preamble, ok)
      ensures if serializes(frame) then ListenedBeforeTalking(looks, tuning.lbtMaxRetries) else !ok && looks == []
      ensures radio.now >= old(radio.now) + 5 * if looks != [] && looks[|looks| - 1] then |looks| - 1 else |looks|
      ensures ok ==> radio.freq == freq
    {
      if !serializes(frame) { return false, [], []; }
      var step := LBT_RETRY_DELAY_MS + radio.limits.spi;
      var lbt := 0;
      var free := false;
      looks := [];
      while lbt < tuning.lbtMaxRetries && !free
        invariant 0 <= lbt <= tuning.lbtMaxRetries && radio.trace == old(radio.trace)
        invariant old(radio.now) <= radio.now <= old(radio.now) + lbt * step
        invariant radio.looks == old(radio.looks) + looks && |looks| == lbt
        invariant forall i :: 0 <= i < lbt ==> looks[i] == (i == lbt - 1 && free)
        invariant free ==> lbt > 0
        invariant radio.now >= old(radio.now) + 5 * if free then lbt - 1 else lbt
      {
        free := radio.ChannelFree();
        looks := looks + [free];
        if !free { radio.Delay(LBT_RETRY_DELAY_MS); }
        assert (lbt + 1) * step == lbt * step + step;
        lbt := lbt + 1;
      }
      AtMost(lbt, tuning.lbtMaxRetries, step);
      ok := radio.Send(frame, freq, preamble, purpose);
      seg := [Sent(purpose, frame, freq, preamble, ok)];
    }

    lemma OneMore(request: Frame, freq: Word, t0: seq<RadioEvent>, run: seq<RadioEvent>, e: RadioEvent)
      requires LawfulRun(request, freq, respond, run) && Lawful(request, freq, respond, run, e) && e.Sent?
      requires Prompt(request, freq, run) && Patient(request, run)
      requires IsAsk(e) ==> Lasted(run) >= Owed(request, run)
      requires Owing(request, run).Some? ==> Proves(e, Owing(request, run).value, freq)
      requires OnTheWire(request, freq, run) && Wired(request, freq, run, e)
      ensures var run' := run + [e];
              && LawfulRun(request, freq, respond, run') && Prompt(request, freq, run') && Patient(request, run')
              && OnTheWire(request, freq, run')
              && !Answered(request, run') && Owing(request, run').None?
              && Lasted(run') == Lasted(run) && Owed(request, run') == Owed(request, run) + Due(request, e)
              && Asks(run') == Asks(run) + (if IsAsk(e) then 1 else 0) && LastSent(run') == Some(e.purpose)
              && (Proved(run') <==> Proved(run) || IsProof(e)) && t0 + run + [e] == t0 + run'
    {
      Grow(request, freq, respond, run, e);
      OwedGrows(request, run, e);
      PromptGrows(request, freq, run, e);
      PatientGrows(request, run, e);
      LastedGrows(run, e);
      WireGrows(request, freq, run, e);
    }

    /** A transmission the exchange may make now. */
    method Transmit(request: Frame, freq: Word, frame: Frame, preamble: U16, ghost purpose: Purpose,
                    ghost t0: seq<RadioEvent>, ghost run: seq<RadioEvent>)
        returns (ok: bool, ghost run': seq<RadioEvent>)
      requires Running(request, freq, t0, run) && !Answered(request, run)
      requires forall sent :: Lawful(request, freq, respond, run, Sent(purpose, frame, freq, preamble, sent))
      requires forall sent :: Wired(request, freq, run, Sent(purpose, frame, freq, preamble, sent))
      requires Rested(request, run)
      requires purpose == Ask ==> Lasted(run) >= Owed(request, run)
      requires Owing(request, run).Some? ==>
        purpose == Prove && frame == Owing(request, run).value && preamble == tuning.responsePreamble
      modifies radio
      ensures old(radio.now) <= radio.now <= old(radio.now) + TxCost()
      ensures Running(request, freq, t0, run') && !Answered(request, run') && Owing(request, run').None?
      ensures Lasted(run') == Lasted(run)
      ensures run' == run + Transmission(purpose, frame, freq, preamble, ok)
      ensures Asks(run') == Asks(run) + if serializes(frame) && purpose == Ask then 1 else 0
      ensures if ok then run' != [] && run'[|run'| - 1] == Sent(purpose, frame, freq, preamble, true)
        else Rested(request, run')
      ensures ok ==> radio.freq == freq && LastSent(run') == Some(purpose)
      ensures Proved(run') <==> Proved(run) || (ok && purpose == Prove)
      ensures Owed(request, run') == Owed(request, run) +
        if !ok then 0 else if purpose == Ask then RequestWait(request) else tuning.responseWait
    {
      ghost var seg, looks;
      ok, seg, looks := TransmitFrame(frame, freq, preamble, purpose);
      run' := run;
      if serializes(frame) {
        ghost var e := Sent(purpose, frame, freq, preamble, ok);
        OneMore(request, freq, t0, run, e);
        run' := run + [e];
      } else {
        assert run + [] == run && t0 + run + [] == t0 + run;
      }
    }

    /** What waiting for a reply made of the exchange: `seg` was heard, in which the first frame from the peer to this
        exchange, if there was one, came last and is the reply. */
    ghost predicate Awaited(request: Frame, freq: Word, run: seq<RadioEvent>, seg: seq<RadioEvent>,
                            reply: Option<Frame>) {
      var run' := run + seg;
      && LawfulRun(request, freq, respond, run') && Prompt(request, freq, run') && Patient(request, run')
      && Asks(run') == Asks(run) && LastSent(run') == LastSent(run) && (Proved(run') <==> Proved(run))
      && match reply
         case None =>
           && NoneFromPeer(request, seg) && !Answered(request, run') && Owing(request, run').None?
           && Owed(request, run') == Owed(request, run)
         case Some(r) =>
           && seg != [] && NoneFromPeer(request, seg[..|seg| - 1])
           && seg[|seg| - 1].Waited? && seg[|seg| - 1].heard == Received(r)
           && r.src == request.dst && r.dst == request.src
           && (Answered(request, run') <==> r.cmd != CMD_CHALLENGE_REQ || LastSent(run) == Some(Prove))
           && (r.cmd != CMD_CHALLENGE_REQ || LastSent(run) != Some(Ask) ==> Owing(request, run').None?)
           && Owed(request, run') == Owed(request, run) -
                if r.cmd == CMD_CHALLENGE_REQ then RequestWait(request) else 0
    }

    /** Holds the request channel until a frame with mirrored endpoints arrives or the window closes. */
    method AwaitReply(request: Frame, freq: Word, window: U16, ghost t0: seq<RadioEvent>, ghost run: seq<RadioEvent>)
        returns (reply: Option<Frame>, ghost run': seq<RadioEvent>, ghost seg: seq<RadioEvent>)
      requires Running(request, freq, t0, run) && radio.freq == freq
      requires !Answered(request, run) && Owing(request, run).None?
      requires run != [] && run[|run| - 1].Sent? && run[|run| - 1].ok
      requires window == Window(request, run[|run| - 1].purpose)
      modifies radio
      ensures run' == run + seg && Awaited(request, freq, run, seg, reply)
      ensures Running(request, freq, t0, run') && radio.freq == freq && Rested(request, run')
      ensures Lasted(run') == Lasted(run) + Lasted(seg) && radio.now == old(radio.now) + Lasted(seg)
      ensures radio.now <= old(radio.now) + window + radio.limits.late && (reply.None? ==> Lasted(seg) >= window)
    {
      var outcome, handed;
      outcome, handed, seg := HoldFor(request, freq, window);
      run' := run + seg;
      Associates(t0, run, seg);
      LastedConcat(run, seg);
      WaitsWired(request, freq, run, seg);
      reply := if outcome == ACCEPTED then Some(handed[|handed| - 1].frame) else None;
      Decided(request, freq, run, seg, handed, outcome);
    }

    lemma Decided(request: Frame, freq: Word, run: seq<RadioEvent>, seg: seq<RadioEvent>, handed: seq<Reception>,
                  outcome: ListenOutcome)
      requires LawfulRun(request, freq, respond, run) && !Answered(request, run) && LastSent(run).Some?
      requires Prompt(request, freq, run) && Patient(request, run) && Owing(request, run).None?
      requires forall e :: e in seg ==> e.Waited? && e.freq == freq
      requires handed == Deliveries(seg) && FirstDecides(handed, Judge(request), outcome)
      requires outcome == TIMED_OUT || (outcome == ACCEPTED && EndsHearing(seg, handed))
      ensures outcome == ACCEPTED ==> handed[|handed| - 1].Received?
      ensures Awaited(request, freq, run, seg,
                      if outcome == ACCEPTED then Some(handed[|handed| - 1].frame) else None)
    {
      if outcome == TIMED_OUT {
        NoneDecides(request, freq, run, seg, handed, Judge(request));
      } else {
        LastDecides(request, freq, run, seg, handed, Judge(request));
      }
    }

    function Judge(request: Frame): Reception -> Disposition {
      (r: Reception) => if Mirrored(request, r) then ACCEPT else IGNORE
    }

    /** One listen that holds the channel for a reply. */
    method HoldFor(request: Frame, freq: Word, window: U16)
        returns (outcome: ListenOutcome, handed: seq<Reception>, ghost seg: seq<RadioEvent>)
      requires radio.freq == freq
      modifies radio
      ensures radio.trace == old(radio.trace) + seg && radio.freq == freq && radio.now == old(radio.now) + Lasted(seg)
      ensures radio.now <= old(radio.now) + window + radio.limits.late
      ensures (forall e :: e in seg ==> e.Waited? && e.freq == freq) && (seg != [] ==> seg[0].ms == window)
      ensures handed == Deliveries(seg) && FirstDecides(handed, Judge(request), outcome)
      ensures outcome == ACCEPTED || outcome == TIMED_OUT
      ensures if outcome == ACCEPTED then EndsHearing(seg, handed) else Lasted(seg) >= window
    {
      outcome, handed, seg := Listen(radio, ListenSpec(window, HOLD_REQUEST_CHANNEL), tuning.hopDwell, Judge(request));
      NeverCutsOff(seg, Resolved(ListenSpec(window, HOLD_REQUEST_CHANNEL), tuning.hopDwell), freq);
      FirstWait(seg, window, tuning.hopDwell);
    }

    lemma FirstWait(seg: seq<RadioEvent>, window: U16, driverDwell: U16)
      requires forall e :: e in seg ==> e.Waited?
      requires AllWaitedRight(seg, ListenSpec(window, HOLD_REQUEST_CHANNEL), driverDwell)
      ensures seg != [] ==> seg[0].ms == window
    {
      if seg != [] {
        assert seg[0] in seg && WaitedRight(seg, 0, ListenSpec(window, HOLD_REQUEST_CHANNEL), driverDwell);
        assert seg[..0] == [];
      }
    }

    lemma NoneDecides(request: Frame, freq: Word, run: seq<RadioEvent>, seg: seq<RadioEvent>, handed: seq<Reception>,
                      judge: Reception -> Disposition)
      requires LawfulRun(request, freq, respond, run) && !Answered(request, run) && LastSent(run).Some?
      requires Prompt(request, freq, run) && Patient(request, run) && Owing(request, run).None?
      requires forall e :: e in seg ==> e.Waited? && e.freq == freq
      requires forall r :: judge(r) == IGNORE ==> !Mirrored(request, r)
      requires handed == Deliveries(seg) && FirstDecides(handed, judge, TIMED_OUT)
      ensures var run' := run + seg;
              && LawfulRun(request, freq, respond, run') && !Answered(request, run')
              && Asks(run') == Asks(run) && LastSent(run') == LastSent(run) && (Proved(run') <==> Proved(run))
              && Owed(request, run') == Owed(request, run)
              && Prompt(request, freq, run') && Patient(request, run') && Owing(request, run').None?
              && NoneFromPeer(request, seg)
    {
      DeliveriesIgnored(request, freq, seg);
      SilencePrompts(request, freq, run, seg);
      SilentWaits(request, freq, respond, run, seg);
      SilenceOwesNothing(request, freq, run, seg);
    }

    lemma LastDecides(request: Frame, freq: Word, run: seq<RadioEvent>, seg: seq<RadioEvent>, handed: seq<Reception>,
                      judge: Reception -> Disposition)
      requires LawfulRun(request, freq, respond, run) && !Answered(request, run) && LastSent(run).Some?
      requires Prompt(request, freq, run) && Patient(request, run) && Owing(request, run).None?
      requires forall e :: e in seg ==> e.Waited? && e.freq == freq
      requires forall r :: judge(r) == IGNORE ==> !Mirrored(request, r)
      requires handed == Deliveries(seg) && EndsHearing(seg, handed) && FirstDecides(handed, judge, ACCEPTED)
      ensures var run' := run + seg;
              && LawfulRun(request, freq, respond, run')
              && Asks(run') == Asks(run) && LastSent(run') == LastSent(run) && (Proved(run') <==> Proved(run))
              && (Answered(request, run') <==> Accepts(request, run, seg[|seg| - 1]))
              && Owed(request, run') == Owed(request, run) + Due(request, seg[|seg| - 1])
              && Prompt(request, freq, run') && Patient(request, run')
              && NoneFromPeer(request, seg[..|seg| - 1])
              && (!IsChallenge(request, seg[|seg| - 1]) || LastSent(run) != Some(Ask) ==> Owing(request, run').None?)
    {
      var init, e := seg[..|seg| - 1], seg[|seg| - 1];
      assert e in seg;
      SilentUntilLast(request, freq, seg, handed, judge);
      SilentWaits(request, freq, respond, run, init);
      SilenceOwesNothing(request, freq, run, init);
      SilencePrompts(request, freq, run, init);
      OneMoreWait(request, freq, run + init, e);
      SplitLast(run, seg);
    }

    lemma OneMoreWait(request: Frame, freq: Word, run: seq<RadioEvent>, e: RadioEvent)
      requires LawfulRun(request, freq, respond, run) && Lawful(request, freq, respond, run, e) && e.Waited?
      requires Prompt(request, freq, run) && Patient(request, run) && Owing(request, run).None?
      ensures var run' := run + [e];
              && LawfulRun(request, freq, respond, run') && Prompt(request, freq, run') && Patient(request, run')
              && Asks(run') == Asks(run) && LastSent(run') == LastSent(run) && (Proved(run') <==> Proved(run))
              && (Answered(request, run') <==> Accepts(request, run, e))
              && Owed(request, run') == Owed(request, run) + Due(request, e)
              && (!IsChallenge(request, e) || LastSent(run) != Some(Ask) ==> Owing(request, run').None?)
    {
      Grow(request, freq, respond, run, e);
      OwedGrows(request, run, e);
      PromptGrows(request, freq, run, e);
      PatientGrows(request, run, e);
    }

    /** Answers the challenge just heard. */
    method HandleAuthentication(request: Frame, freq: Word, challenge: Frame,
                                ghost t0: seq<RadioEvent>, ghost run: seq<RadioEvent>)
        returns (ok: bool, ghost run': seq<RadioEvent>)
      requires Running(request, freq, t0, run) && !Answered(request, run) && LastSent(run) == Some(Ask)
      requires run != [] && run[|run| - 1].Waited? && run[|run| - 1].heard == Received(challenge)
      requires MatchesExchangeEndpoints(request, challenge) && challenge.cmd == CMD_CHALLENGE_REQ
      modifies radio
      ensures Running(request, freq, t0, run') && !Answered(request, run') && Asks(run') == Asks(run)
      ensures Owing(request, run').None? && Lasted(run') == Lasted(run)
      ensures if ok
        then run' != [] && run'[|run'| - 1].Sent? && run'[|run'| - 1].ok && run'[|run'| - 1].purpose == Prove
        else Rested(request, run')
      ensures run' == match ChallengeResponse(request, challenge)
                      case Some(answer) => run + Transmission(Prove, answer, freq, tuning.responsePreamble, ok)
                      case None => run
      ensures old(radio.now) <= radio.now <= old(radio.now) + TxCost()
      ensures ok ==> radio.freq == freq && LastSent(run') == Some(Prove) && Proved(run')
      ensures !ok ==> (Proved(run') <==> Proved(run))
      ensures Owed(request, run') == Owed(request, run) + if ok then tuning.responseWait else 0
    {
      run' := run;
      var answer := ChallengeResponse(request, challenge);
      if answer.None? { return false, run; }
      ok, run' := Transmit(request, freq, answer.value, tuning.responsePreamble, Prove, t0, run);
    }

    /** The authenticated half of a try: the answer to the challenge and a final response. */
    method Authenticate(request: Frame, freq: Word, challenge: Frame,
                        ghost t0: seq<RadioEvent>, ghost run: seq<RadioEvent>)
        returns (result: TryResult, ghost run': seq<RadioEvent>)
      requires Running(request, freq, t0, run) && !Answered(request, run) && LastSent(run) == Some(Ask)
      requires run != [] && run[|run| - 1].Waited? && run[|run| - 1].heard == Received(challenge)
      requires MatchesExchangeEndpoints(request, challenge) && challenge.cmd == CMD_CHALLENGE_REQ
      modifies radio
      ensures Running(request, freq, t0, run') && Asks(run') == Asks(run) && Tells(request, result, run, run')
      ensures Owing(request, run').None? && Rested(request, run')
      ensures old(radio.now) <= radio.now <= old(radio.now) + TxCost() + tuning.responseWait + radio.limits.late
      ensures radio.now >= old(radio.now) + Lasted(run') - Lasted(run)
      ensures !result.ANSWERED? ==> Lasted(run') - Lasted(run) >= Owed(request, run') - Owed(request, run)
    {
      var ok;
      ok, run' := HandleAuthentication(request, freq, challenge, t0, run);
      if !ok { return NO_ANSWER, run'; }
      var reply;
      ghost var seg;
      reply, run', seg := AwaitReply(request, freq, tuning.responseWait, t0, run');
      result := if reply.None? then ACCEPTED_WITHOUT_REPLY else ANSWERED(reply.value);
    }

    /** The first half of a try: the request, if it goes out, and a first response. */
    method AskOnce(request: Frame, freq: Word, ghost t0: seq<RadioEvent>, ghost run: seq<RadioEvent>)
        returns (reply: Option<Frame>, ghost run': seq<RadioEvent>)
      requires Running(request, freq, t0, run) && !Answered(request, run) && Owing(request, run).None?
      requires (request.cmd == CMD_EXECUTE ==> !Proved(run)) && Lasted(run) >= Owed(request, run)
      requires Rested(request, run)
      modifies radio
      ensures Running(request, freq, t0, run') && Rested(request, run') && (Proved(run') <==> Proved(run))
      ensures Asks(run') == Asks(run) + if serializes(request) then 1 else 0
      ensures old(radio.now) <= radio.now <= old(radio.now) + TxCost() + RequestWait(request) + radio.limits.late
      ensures radio.now >= old(radio.now) + Lasted(run') - Lasted(run)
      ensures reply.None? || reply.value.cmd == CMD_CHALLENGE_REQ ==>
        !Answered(request, run') && Lasted(run') - Lasted(run) >= Owed(request, run') - Owed(request, run)
      ensures match reply
              case None => Owing(request, run').None?
              case Some(r) =>
                && r.src == request.dst && r.dst == request.src && LastSent(run') == Some(Ask)
                && run' != [] && run'[|run'| - 1].Waited? && run'[|run'| - 1].heard == Received(r)
                && (r.cmd != CMD_CHALLENGE_REQ ==> Answered(request, run') && Owing(request, run').None?)
    {
      var ok;
      ok, run' := Transmit(request, freq, request, RequestPreamble(request), Ask, t0, run);
      if !ok { return None, run'; }
      ghost var seg;
      reply, run', seg := AwaitReply(request, freq, RequestWait(request), t0, run');
    }

    /** One try: the request, a first response, and if that is a challenge the answer and a final response. */
    method Attempt(request: Frame, freq: Word, ghost t0: seq<RadioEvent>, ghost run: seq<RadioEvent>)
        returns (result: TryResult, ghost run': seq<RadioEvent>)
      requires Running(request, freq, t0, run) && !Answered(request, run) && Owing(request, run).None?
      requires (request.cmd == CMD_EXECUTE ==> !Proved(run)) && Lasted(run) >= Owed(request, run)
      requires Rested(request, run)
      modifies radio
      ensures Running(request, freq, t0, run') && Tells(request, result, run, run') && Owing(request, run').None?
      ensures Asks(run') == Asks(run) + (if serializes(request) then 1 else 0) && Rested(request, run')
      ensures old(radio.now) <= radio.now <= old(radio.now) + TryCost(request)
      ensures radio.now >= old(radio.now) + Lasted(run') - Lasted(run)
      ensures !result.ANSWERED? ==> Lasted(run') - Lasted(run) >= Owed(request, run') - Owed(request, run)
    {
      var reply;
      reply, run' := AskOnce(request, freq, t0, run);
      if reply.None? { return NO_ANSWER, run'; }
      if ClassifyFirst(request, reply.value) == COMPLETE_DIRECT { return ANSWERED(reply.value), run'; }
      result, run' := Authenticate(request, freq, reply.value, t0, run');
    }

    lemma CostFits(request: Frame)
      ensures tuning.totalBudget + EXCHANGE_RETRY_DELAY_MS + TryCost(request) < WORD
    {
      AtMost(tuning.lbtMaxRetries, 255, LBT_RETRY_DELAY_MS + radio.limits.spi);
    }

    lemma Ends(request: Frame, freq: Word, run: seq<RadioEvent>, outcome: Outcome)
      requires LawfulRun(request, freq, respond, run)
      requires outcome.SUCCESS_WITH_RESPONSE? <==> Answered(request, run)
      requires outcome.SUCCESS_UNCONFIRMED? <==> !Answered(request, run) && Proved(run)
      requires outcome.SUCCESS_WITH_RESPONSE? ==>
        run != [] && run[|run| - 1].Waited? && run[|run| - 1].heard == Received(outcome.response)
      requires Prompt(request, freq, run) && Owing(request, run).None?
      ensures ToldRight(request, run, outcome) && ProvesAtOnce(request, freq, run)
    {
      PromptMeans(request, freq, run);
      OutcomeTold(request, freq, respond, run, outcome);
    }

    /** The pause before another try, unless the budget is spent. */
    method PauseUnlessSpent(request: Frame, beginMs: Word, ghost begin: nat) returns (spent: bool)
      requires beginMs == Clock(begin)
      requires begin <= radio.now <= begin + tuning.totalBudget + EXCHANGE_RETRY_DELAY_MS + TryCost(request)
      modifies radio`now
      ensures spent <==> old(radio.now) >= begin + tuning.totalBudget
      ensures radio.now == old(radio.now) + if spent then 0 else 250
    {
      CostFits(request);
      Elapsed(begin, radio.now);
      spent := Minus(radio.Millis(), beginMs) >= tuning.totalBudget;
      if !spent { radio.Delay(EXCHANGE_RETRY_DELAY_MS); }
    }

    /** The whole exchange, against any radio and any peer. It answers exactly what happened: a response when a frame
        closed the exchange, and that frame; unconfirmed when none did but a 0x3D went out; failed when neither. Nothing
        is transmitted or heard after the closing frame, a CMD_EXECUTE is never sent again after its 0x3D, every
        challenge that can be answered is answered at once, at least one and at most clamp(maxTries, 1, 3) requests are
        sent, it gives up only once all of them were or the budget is spent, it waits on the channel at least the
        windows of all requests that went out unchallenged and of all 0x3D, each before it asks again, and it ends
        within the budget, one retry delay and one try. */
    method SendAndReceive(request: Frame, freq: Word, maxTries: Byte)
        returns (outcome: Outcome, ghost run: seq<RadioEvent>)
      modifies radio
      ensures radio.trace == old(radio.trace) + run && LawfulRun(request, freq, respond, run)
      ensures OnTheWire(request, freq, run)
      ensures ToldRight(request, run, outcome)
      ensures Asks(run) <= (if maxTries == 0 then 1 else if maxTries > 3 then 3 else maxTries)
      ensures serializes(request) ==> Asks(run) >= 1
      ensures Prompt(request, freq, run) && Owing(request, run).None? && Patient(request, run)
      ensures ProvesAtOnce(request, freq, run)
      ensures outcome == FAILED || (outcome == SUCCESS_UNCONFIRMED && request.cmd != CMD_EXECUTE) ==>
        || !serializes(request) || Asks(run) == (if maxTries == 0 then 1 else if maxTries > 3 then 3 else maxTries)
        || radio.now >= old(radio.now) + tuning.totalBudget
      ensures radio.now <= old(radio.now) + tuning.totalBudget + EXCHANGE_RETRY_DELAY_MS + TryCost(request)
      ensures radio.now >= old(radio.now) + Lasted(run) + if Asks(run) > 0 then 250 * (Asks(run) - 1) else 0
      ensures !outcome.SUCCESS_WITH_RESPONSE? ==> Lasted(run) >= Owed(request, run)
    {
      ghost var t0, begin := radio.trace, radio.now;
      var allowed := Clamp(maxTries);
      var beginMs := radio.Millis();
      var acceptedWithoutReply := false;
      run := [];
      for tries := 0 to allowed
        invariant Running(request, freq, t0, run) && !Answered(request, run) && Owing(request, run).None?
        invariant Asks(run) == (if serializes(request) then tries else 0) && Rested(request, run)
        invariant acceptedWithoutReply <==> Proved(run)
        invariant request.cmd == CMD_EXECUTE ==> !Proved(run)
        invariant begin <= radio.now <= begin + tuning.totalBudget + EXCHANGE_RETRY_DELAY_MS + TryCost(request)
        invariant tries == 0 ==> radio.now == begin
        invariant Lasted(run) >= Owed(request, run)
        invariant radio.now >= begin + Lasted(run) + if tries > 0 then 250 * (tries - 1) else 0
      {
        if tries > 0 {
          var spent := PauseUnlessSpent(request, beginMs, begin);
          if spent { break; }
        }
        var result;
        result, run := Attempt(request, freq, t0, run);
        match result {
          case NO_ANSWER =>
          case ANSWERED(reply) =>
            Ends(request, freq, run, SUCCESS_WITH_RESPONSE(reply));
            return SUCCESS_WITH_RESPONSE(reply), run;
          case ACCEPTED_WITHOUT_REPLY =>
            acceptedWithoutReply := true;
            if !RetryAfterUnconfirmedIsSafe(request.cmd) {
              Ends(request, freq, run, SUCCESS_UNCONFIRMED);
              return SUCCESS_UNCONFIRMED, run;
            }
        }
      }
      outcome := if acceptedWithoutReply then SUCCESS_UNCONFIRMED else FAILED;
      Ends(request, freq, run, outcome);
    }

    /** A listen for replies to a broadcast: off its channel, with the driver's dwell and 15 ms for what is coming in,
        and without a hop after a packet that was not for it. */
    ghost predicate CollectsReplies(seg: seq<RadioEvent>, window: Word, freq: Word) {
      && AllWaitedRight(seg, ListenSpec(window, ROTATE_SKIPPING_REQUEST, freq, 0, false, true, 15), tuning.hopDwell)
      && Disciplined(seg, ListenSpec(window, ROTATE_SKIPPING_REQUEST, freq, tuning.hopDwell, false, true, 15), freq)
    }

    /** Transmits a broadcast once, leaves its channel and collects every matching reply until the window closes:
        exactly the replies delivered, in order, repeats included. The count saturates. */
    method CollectBroadcastResponses(request: Frame, freq: Word, expectedCmd: Byte, window: Word)
        returns (count: Byte, replies: seq<BroadcastReply>, ghost sent: bool, ghost seg: seq<RadioEvent>)
      requires window < HALF
      modifies radio
      ensures radio.trace == old(radio.trace) + Transmission(Ask, request, freq, RequestPreamble(request), sent) + seg
      ensures sent ==> serializes(request)
      ensures if sent
        then CollectsReplies(seg, window, freq) && Lasted(seg) >= window
        else seg == []
      ensures old(radio.now) + Lasted(seg) <= radio.now
           <= old(radio.now) + TxCost() + window + Overshoot(RollCallSpec(window, freq), radio.limits)
      ensures forall e :: e in seg && e.Waited? ==> e.freq != freq
      ensures Frames(replies) == Matching(Deliveries(seg), expectedCmd, nodeId)
      ensures count == if |replies| < 255 then |replies| else 255
    {
      count, replies, sent, seg := 0, [], false, [];
      var ok;
      ghost var tx, looks;
      ok, tx, looks := TransmitFrame(request, freq, RequestPreamble(request), Ask);
      if !ok { return; }
      sent := true;
      var outcome, handed;
      outcome, handed, seg := Listen(radio, RollCallSpec(window, freq), tuning.hopDwell, (r: Reception) => IGNORE);
      NeverCutsOff(seg, Resolved(RollCallSpec(window, freq), tuning.hopDwell), freq);
      count, replies := KeepMatching(handed, expectedCmd);
    }

    /** The replies among the packets delivered. */
    method KeepMatching(handed: seq<Reception>, expectedCmd: Byte) returns (count: Byte, replies: seq<BroadcastReply>)
      ensures Frames(replies) == Matching(handed, expectedCmd, nodeId)
      ensures count == if |replies| < 255 then |replies| else 255
    {
      count, replies := 0, [];
      for i := 0 to |handed|
        invariant Frames(replies) == Matching(handed[..i], expectedCmd, nodeId)
        invariant count == if |replies| < 255 then |replies| else 255
      {
        assert handed[..i + 1][..i] == handed[..i];
        if handed[i].Received? && handed[i].frame.cmd == expectedCmd && handed[i].frame.dst == nodeId {
          var rssi: int := *;
          var reply := BroadcastReply(handed[i].frame, rssi);
          FramesAppend(replies, reply);
          replies := replies + [reply];
          if count < 255 { count := count + 1; }
        }
      }
      assert handed[..|handed|] == handed;
    }
  }

  lemma AtMost(n: nat, m: nat, step: nat)
    requires n <= m
    ensures n * step <= m * step
  {
    assert (m - n) * step >= 0;
  }

  function Clamp(maxTries: Byte): nat {
    if maxTries < 1 then 1 else if maxTries > EXCHANGE_RETRY_COUNT then EXCHANGE_RETRY_COUNT else maxTries
  }

  function ChallengeTo(request: Frame, nonce: seq<Byte>): Frame {
    Frame(CMD_CHALLENGE_REQ, request.dst, request.src, false, false, nonce)
  }

  lemma Asked(request: Frame, freq: Word, respond: Responder) returns (run: seq<RadioEvent>)
    ensures LawfulRun(request, freq, respond, run) && !Answered(request, run)
    ensures Asks(run) == 1 && LastSent(run) == Some(Ask)
  {
    run := [];
    Grow(request, freq, respond, run, Sent(Ask, request, freq, 0, true));
    run := run + [Sent(Ask, request, freq, 0, true)];
  }

  lemma AskedAndChallenged(request: Frame, freq: Word, respond: Responder, nonce: seq<Byte>, ms: Word, took: nat)
      returns (run: seq<RadioEvent>)
    ensures LawfulRun(request, freq, respond, run) && !Answered(request, run)
    ensures Asks(run) == 1 && LastSent(run) == Some(Ask)
    ensures run != [] && run[|run| - 1] == Waited(freq, ms, Received(ChallengeTo(request, nonce)), took)
  {
    var asked := Asked(request, freq, respond);
    var challenged := Waited(freq, ms, Received(ChallengeTo(request, nonce)), took);
    Grow(request, freq, respond, asked, challenged);
    run := asked + [challenged];
  }

  /** A challenge does close an exchange once one was answered: the second of two in a row is taken for the response. */
  lemma SecondChallengeCloses(request: Frame, freq: Word, respond: Responder, first: seq<Byte>,
                              second: seq<Byte>, ms: Word, took: nat)
      returns (run: seq<RadioEvent>)
    requires respond(request, first).Some?
    ensures LawfulRun(request, freq, respond, run) && Answered(request, run) && Asks(run) == 1
    ensures run != [] && run[|run| - 1] == Waited(freq, ms, Received(ChallengeTo(request, second)), took)
  {
    var asked := AskedAndChallenged(request, freq, respond, first, ms, took);
    var answer := Frame(CMD_CHALLENGE_RESP, request.src, request.dst, false, false, respond(request, first).value);
    var proof := Sent(Prove, answer, freq, 0, true);
    var again := Waited(freq, ms, Received(ChallengeTo(request, second)), took);
    Grow(request, freq, respond, asked, proof);
    Grow(request, freq, respond, asked + [proof], again);
    run := asked + [proof] + [again];
  }

  /** A lawful exchange never repeats a request with a side effect once its 0x3D is out, and a challenge closes one only
      after a challenge was answered. */
  lemma NeverMovesTwice(request: Frame, freq: Word, respond: Responder, run: seq<RadioEvent>)
    requires LawfulRun(request, freq, respond, run)
    ensures request.cmd == 0x00 ==>
      forall i, j :: 0 <= i < j < |run| && run[i].Sent? && run[i].purpose == Prove && run[i].ok ==>
        !(run[j].Sent? && run[j].purpose == Ask)
    ensures forall i :: 0 <= i < |run| - 1 ==> !Accepts(request, run[..i], run[i]) && !Replied(request, run, i)
  {
    forall i, j | 0 <= i < j < |run|
      ensures request.cmd == CMD_EXECUTE && IsProof(run[i]) ==> !IsAsk(run[j])
    {
      assert Lawful(request, freq, respond, run[..j], run[j]);
      assert run[..j][i] == run[i];
    }
    forall i | 0 <= i < |run| - 1 ensures !Accepts(request, run[..i], run[i]) {
      var j := i + 1;
      assert Lawful(request, freq, respond, run[..j], run[j]);
      assert run[..j][i] == run[i] && run[..j][..i] == run[..i];
    }
    forall i | 0 <= i < |run| - 1 ensures !Replied(request, run, i) {
      LastSentIs(run[..i], Prove);
      assert forall k :: 0 <= k < i ==> run[..i][k] == run[k];
    }
  }
}
