/** The device-role key-extraction responder: the guards, the hub wiring around them, and two named timers that
    replace themselves on reschedule and are never cancelled. */
module KeyExtraction {
  import opened Wrappers
  import opened Words

  const AUTO_OFF := 600000
  const MID_ATTEMPT_HOLD := 5000
  const POST_EXTRACT_GRACE := 60000
  const AES_KEY_SIZE := 16
  const HMAC_SIZE := 6

  type Bytes = seq<Byte>

  type Key = s: Bytes | |s| == AES_KEY_SIZE witness seq(AES_KEY_SIZE, _ => 0)
  type Challenge = s: Bytes | |s| == HMAC_SIZE witness seq(HMAC_SIZE, _ => 0)

  const NO_KEY: Key := [0, 0, 0, 0, 0, 0, 0, 0, 0, 0, 0, 0, 0, 0, 0, 0]
  const NO_CHALLENGE: Challenge := [0, 0, 0, 0, 0, 0]

  /** The AES block that covers a key in transfer, computed from the challenge under the public transfer key; None when
      the computation fails. */
  type Crypto = Challenge -> Option<Key>

  function XorKeys(a: Key, b: Key): Key {
    seq(AES_KEY_SIZE, i requires 0 <= i < AES_KEY_SIZE => ByteXor(a[i], b[i]))
  }

  /** What both sides do to a key: the hub to wrap it, the responder to recover it. */
  function CryptKey(crypto: Crypto, challenge: Challenge, input: Key): Option<Key> {
    match crypto(challenge)
    case Some(pad) => Some(XorKeys(input, pad))
    case None => None
  }

  /** Doing it twice gives the key back. */
  lemma CryptTwice(crypto: Crypto, challenge: Challenge, key: Key)
    ensures var wrapped := CryptKey(crypto, challenge, key);
            wrapped.Some? ==> CryptKey(crypto, challenge, wrapped.value) == Some(key)
  {
    var wrapped := CryptKey(crypto, challenge, key);
    if wrapped.Some? {
      var pad := crypto(challenge).value;
      var twice := XorKeys(wrapped.value, pad);
      forall i | 0 <= i < AES_KEY_SIZE ensures twice[i] == key[i] { XorTwice(key[i], pad[i]); }
      assert twice == key;
    }
  }

  datatype Stage =
    | DISARMED | ARMED_IDLE | SENT_DISCOVER_RESP | SENT_CONFIRM_ACK | SENT_CHALLENGE | EXTRACTED | SENT_ADDRESS_RESP

  datatype Context = Context(stage: Stage, throwawayId: NodeId, challenge: Challenge,
                             hubNodeId: NodeId, recoveredKey: Key)

  const BLANK := Context(DISARMED, 0, NO_CHALLENGE, 0, NO_KEY)

  datatype Command = DISCOVER_REQ | DISCOVER_CONFIRM | KEY_INIT | KEY_TRANSFER | ADDRESS_REQ | CHALLENGE_REQ | OTHER

  datatype Frame = Frame(cmd: Command, src: NodeId, dst: NodeId, data: Bytes)

  datatype Reply =
    | DiscoverResp(own: NodeId, to: NodeId)
    | ConfirmAck(own: NodeId, to: NodeId)
    | ChallengeReq(own: NodeId, to: NodeId, challenge: Challenge)
    | KeyConfirm(own: NodeId, to: NodeId)
    | AddressResp(own: NodeId, to: NodeId)
    | ChallengeResp(own: NodeId, to: NodeId, over: Bytes, key: Key)

  predicate Completed(s: Stage) { s == EXTRACTED || s == SENT_ADDRESS_RESP }

  // --- Pure guards ---

  function OnDiscoverRequest(ctx: Context, src: NodeId): (Context, bool) {
    if ctx.stage == ARMED_IDLE || ctx.stage == SENT_DISCOVER_RESP then (ctx.(stage := SENT_DISCOVER_RESP), true)
    else if Completed(ctx.stage) && src == ctx.hubNodeId then (ctx.(stage := SENT_DISCOVER_RESP), true)
    else (ctx, false)
  }

  function OnDiscoverConfirm(ctx: Context): (Context, bool) {
    if ctx.stage != SENT_DISCOVER_RESP && ctx.stage != SENT_CONFIRM_ACK then (ctx, false)
    else (ctx.(stage := SENT_CONFIRM_ACK), true)
  }

  function OnKeyInit(ctx: Context, challenge: Challenge, src: NodeId): (Context, bool) {
    if ctx.stage == SENT_DISCOVER_RESP || ctx.stage == SENT_CONFIRM_ACK
    then (ctx.(challenge := challenge, hubNodeId := src, stage := SENT_CHALLENGE), true)
    else (ctx, ctx.stage == SENT_CHALLENGE)
  }

  function OnKeyTransfer(ctx: Context, payload: Key, crypto: Crypto): (Context, bool) {
    if ctx.stage != SENT_CHALLENGE then (ctx, false)
    else match CryptKey(crypto, ctx.challenge, payload)
      case None => (ctx, false)
      case Some(key) => (ctx.(recoveredKey := key, stage := EXTRACTED), true)
  }

  function OnAddressReq(ctx: Context): (Context, bool) {
    if !Completed(ctx.stage) then (ctx, false) else (ctx.(stage := SENT_ADDRESS_RESP), true)
  }

  predicate OnAddressChallenge(ctx: Context) { ctx.stage == SENT_ADDRESS_RESP }

  // --- The hub around them ---

  /** A pending callback: when it is due and, for the record, during which arm cycle it was set. */
  datatype Timer = Timer(due: nat, cycle: nat)

  /** When the deadline of the radio hold was last set, for how long, and during which arm cycle. */
  datatype Hold = Hold(at: nat, window: nat, cycle: nat)

  /** `cycle` counts calls that arm, `armedAt` is the time of the latest one, `armReplies` the number of replies by
      then, `extracted` says whether a key was recovered since, and `held` records what `hold` was set from; the source
      keeps none of these. */
  datatype Hub = Hub(ctx: Context, hold: Word, autoOff: Option<Timer>, grace: Option<Timer>, now: nat, cycle: nat,
                     armedAt: nat, armReplies: nat, extracted: bool, held: Hold, replies: seq<Reply>)

  function Disarm(h: Hub): Hub { if h.ctx.stage == DISARMED then h else h.(ctx := BLANK) }

  function Arm(h: Hub, id: NodeId): Hub {
    h.(ctx := BLANK.(throwawayId := id, stage := ARMED_IDLE), autoOff := Some(Timer(h.now + AUTO_OFF, h.cycle + 1)),
       cycle := h.cycle + 1, armedAt := h.now, armReplies := |h.replies|, extracted := false)
  }

  function HoldFor(h: Hub, window: nat): Hub {
    h.(hold := Clock(h.now + window), held := Hold(h.now, window, h.cycle))
  }

  function ArmGrace(h: Hub): Hub {
    HoldFor(h.(grace := Some(Timer(h.now + POST_EXTRACT_GRACE, h.cycle))), POST_EXTRACT_GRACE)
  }

  function Send(h: Hub, r: Reply): Hub { h.(replies := h.replies + [r]) }

  /** A pre-extraction reply: a builder failure leaves the hold as it was. */
  function Answer(h: Hub, builds: bool, r: Reply): Hub { if builds then HoldFor(Send(h, r), MID_ATTEMPT_HOLD) else h }

  /** One received frame. `random` is the challenge drawn for a key-init, `builds` whether replies can be built. */
  function Handle(h: Hub, f: Frame, random: Challenge, builds: bool, crypto: Crypto): Hub {
    if h.ctx.stage == DISARMED then h
    else if f.cmd == DISCOVER_REQ then
      var (ctx, reply) := OnDiscoverRequest(h.ctx, f.src);
      if reply then Answer(h.(ctx := ctx), builds, DiscoverResp(h.ctx.throwawayId, f.src)) else h
    else if f.dst != h.ctx.throwawayId then h
    else match f.cmd
      case DISCOVER_CONFIRM =>
        var (ctx, reply) := OnDiscoverConfirm(h.ctx);
        if reply then Answer(h.(ctx := ctx), builds, ConfirmAck(h.ctx.throwawayId, f.src)) else h
      case KEY_INIT =>
        var (ctx, reply) := OnKeyInit(h.ctx, random, f.src);
        if reply then Answer(h.(ctx := ctx), builds, ChallengeReq(h.ctx.throwawayId, f.src, ctx.challenge)) else h
      case KEY_TRANSFER =>
        if |f.data| < AES_KEY_SIZE then h else
        var (ctx, recovered) := OnKeyTransfer(h.ctx, f.data[..AES_KEY_SIZE], crypto);
        if !recovered then h else
        var h' := h.(ctx := ctx, extracted := true);
        ArmGrace(if builds then Send(h', KeyConfirm(h.ctx.throwawayId, f.src)) else h')
      case ADDRESS_REQ =>
        if f.src != h.ctx.hubNodeId then h else
        var (ctx, reply) := OnAddressReq(h.ctx);
        if !reply then h
        else if !builds then h.(ctx := ctx)
        else ArmGrace(Send(h.(ctx := ctx), AddressResp(h.ctx.throwawayId, f.src)))
      case CHALLENGE_REQ =>
        if f.src != h.ctx.hubNodeId || |f.data| < HMAC_SIZE || !OnAddressChallenge(h.ctx) || !builds then h
        else ArmGrace(Send(h, ChallengeResp(h.ctx.throwawayId, f.src, f.data[..HMAC_SIZE], h.ctx.recoveredKey)))
      case _ => h
  }

  /** The 10-minute callback. */
  function AutoOffCallback(h: Hub): Hub { Disarm(h) }

  /** The grace callback: only a completed attempt may be disarmed from here. */
  function GraceCallback(h: Hub): Hub { if Completed(h.ctx.stage) then Disarm(h) else h }

  /** Whether loop() holds CH2 and background polls for the responder: a plain comparison of millis() readings. */
  predicate AwaitingReply(h: Hub) {
    h.ctx.stage != DISARMED && h.ctx.stage != ARMED_IDLE && Clock(h.now) < h.hold
  }

  // --- The class ---

  class Responder {
    const crypto: Crypto
    var ctx: Context
    var hold: Word
    var autoOffDue: Option<nat>
    var graceDue: Option<nat>
    var now: nat
    var replies: seq<Reply>
    ghost var autoOffCycle: nat
    ghost var graceCycle: nat
    ghost var cycle: nat
    ghost var armedAt: nat
    ghost var armReplies: nat
    ghost var extracted: bool
    ghost var held: Hold

    ghost function View(): Hub
      reads this
    {
      Hub(ctx, hold, if autoOffDue.Some? then Some(Timer(autoOffDue.value, autoOffCycle)) else None,
          if graceDue.Some? then Some(Timer(graceDue.value, graceCycle)) else None, now, cycle,
          armedAt, armReplies, extracted, held, replies)
    }

    constructor (crypto: Crypto)
      ensures View() == BOOTED && this.crypto == crypto
    {
      this.crypto := crypto;
      ctx, hold, autoOffDue, graceDue, now, replies := BLANK, 0, None, None, 0, [];
      autoOffCycle, graceCycle, cycle, armedAt, armReplies, extracted, held := 0, 0, 0, 0, 0, false, Hold(0, 0, 0);
    }

    /** The switch. Arming schedules the auto-off under its name, replacing one still pending; disarming cancels
        nothing. */
    method SetArmed(armed: bool, id: NodeId)
      modifies this
      ensures View() == if armed then Arm(old(View()), id) else Disarm(old(View()))
      ensures if armed then ctx == Context(ARMED_IDLE, id, NO_CHALLENGE, 0, NO_KEY) else ctx.stage == DISARMED
      ensures autoOffDue == (if armed then Some(now + 600000) else old(autoOffDue)) && graceDue == old(graceDue)
      ensures hold == old(hold) && replies == old(replies) && now == old(now)
    {
      if !armed {
        if ctx.stage == DISARMED { return; }
        ctx := BLANK;
        return;
      }
      ctx := BLANK;
      ctx := ctx.(throwawayId := id);
      ctx := ctx.(stage := ARMED_IDLE);
      cycle, armedAt, armReplies, extracted := cycle + 1, now, |replies|, false;
      autoOffDue, autoOffCycle := Some(now + AUTO_OFF), cycle;
    }

    method Broadcast(r: Reply)
      modifies this`replies
      ensures replies == old(replies) + [r]
    {
      replies := replies + [r];
    }

    method ArmPostExtractionGrace()
      modifies this`graceDue, this`graceCycle, this`hold, this`held
      ensures View() == ArmGrace(old(View()))
    {
      graceDue, graceCycle := Some(now + POST_EXTRACT_GRACE), cycle;
      hold, held := Clock(now + POST_EXTRACT_GRACE), Hold(now, POST_EXTRACT_GRACE, cycle);
    }

    method HandleDiscover(f: Frame, builds: bool)
      requires ctx.stage != DISARMED && f.cmd == DISCOVER_REQ
      modifies this`ctx, this`hold, this`held, this`replies
      ensures View() == Handle(old(View()), f, NO_CHALLENGE, builds, crypto)
    {
      var (next, reply) := OnDiscoverRequest(ctx, f.src);
      ctx := next;
      if !reply || !builds { return; }
      Broadcast(DiscoverResp(ctx.throwawayId, f.src));
      hold, held := Clock(now + MID_ATTEMPT_HOLD), Hold(now, MID_ATTEMPT_HOLD, cycle);
    }

    method HandleDiscoverConfirm(f: Frame, builds: bool)
      requires ctx.stage != DISARMED && f.cmd == DISCOVER_CONFIRM && f.dst == ctx.throwawayId
      modifies this`ctx, this`hold, this`held, this`replies
      ensures View() == Handle(old(View()), f, NO_CHALLENGE, builds, crypto)
    {
      var (next, reply) := OnDiscoverConfirm(ctx);
      ctx := next;
      if !reply || !builds { return; }
      Broadcast(ConfirmAck(ctx.throwawayId, f.src));
      hold, held := Clock(now + MID_ATTEMPT_HOLD), Hold(now, MID_ATTEMPT_HOLD, cycle);
    }

    method HandleKeyInit(f: Frame, random: Challenge, builds: bool)
      requires ctx.stage != DISARMED && f.cmd == KEY_INIT && f.dst == ctx.throwawayId
      modifies this`ctx, this`hold, this`held, this`replies
      ensures View() == Handle(old(View()), f, random, builds, crypto)
    {
      var (next, reply) := OnKeyInit(ctx, random, f.src);
      assert Handle(View(), f, random, builds, crypto) ==
        if reply then Answer(View().(ctx := next), builds, ChallengeReq(ctx.throwawayId, f.src, next.challenge))
        else View();
      ctx := next;
      if !reply || !builds { return; }
      Broadcast(ChallengeReq(ctx.throwawayId, f.src, ctx.challenge));
      hold, held := Clock(now + MID_ATTEMPT_HOLD), Hold(now, MID_ATTEMPT_HOLD, cycle);
    }

    method HandleKeyTransfer(f: Frame, builds: bool)
      requires ctx.stage != DISARMED && f.cmd == KEY_TRANSFER && f.dst == ctx.throwawayId
      modifies this
      ensures View() == Handle(old(View()), f, NO_CHALLENGE, builds, crypto)
    {
      if |f.data| < AES_KEY_SIZE { return; }
      var (next, recovered) := OnKeyTransfer(ctx, f.data[..AES_KEY_SIZE], crypto);
      ctx := next;
      if !recovered { return; }
      extracted := true;
      if builds {
        Broadcast(KeyConfirm(ctx.throwawayId, f.src));
      }
      ArmPostExtractionGrace();
    }

    method HandleAddressReq(f: Frame, builds: bool)
      requires ctx.stage != DISARMED && f.cmd == ADDRESS_REQ && f.dst == ctx.throwawayId
      modifies this
      ensures View() == Handle(old(View()), f, NO_CHALLENGE, builds, crypto)
    {
      if f.src != ctx.hubNodeId { return; }
      var (next, reply) := OnAddressReq(ctx);
      ctx := next;
      if !reply || !builds { return; }
      Broadcast(AddressResp(ctx.throwawayId, f.src));
      ArmPostExtractionGrace();
    }

    method HandleAddressChallenge(f: Frame, builds: bool)
      requires ctx.stage != DISARMED && f.cmd == CHALLENGE_REQ && f.dst == ctx.throwawayId
      modifies this
      ensures View() == Handle(old(View()), f, NO_CHALLENGE, builds, crypto)
    {
      if f.src != ctx.hubNodeId { return; }
      if |f.data| < HMAC_SIZE { return; }
      if !OnAddressChallenge(ctx) { return; }
      if !builds { return; }
      Broadcast(ChallengeResp(ctx.throwawayId, f.src, f.data[..HMAC_SIZE], ctx.recoveredKey));
      ArmPostExtractionGrace();
    }

    /** Consumes a frame meant for the responder; anything else is left to the rest of the hub. */
    method TryHandleFrame(f: Frame, random: Challenge, builds: bool) returns (consumed: bool)
      modifies this
      ensures View() == Handle(old(View()), f, random, builds, crypto)
      ensures Moves(old(ctx), f, random, crypto, ctx)
      ensures forall r :: replies == old(replies) + [r] <==> Answers(old(View()), f, random, builds, crypto, r)
      ensures replies == old(replies) || exists r :: replies == old(replies) + [r]
      ensures autoOffDue == old(autoOffDue) && now == old(now)
      ensures graceDue == if Finishes(old(View()), View()) then Some(now + 60000) else old(graceDue)
      ensures hold == if Finishes(old(View()), View()) then Clock(now + 60000)
                      else if replies != old(replies) then Clock(now + 5000) else old(hold)
      ensures consumed <==> old(ctx.stage) != DISARMED
                            && (f.cmd == DISCOVER_REQ || (f.dst == old(ctx.throwawayId) && f.cmd != OTHER))
    {
      ghost var h := View();
      consumed := Dispatch(f, random, builds);
      AnsweredOnce(h, f, random, builds, crypto);
      TimersAfter(h, f, random, builds, crypto);
      MovesRight(h, f, random, builds, crypto);
    }

    method Dispatch(f: Frame, random: Challenge, builds: bool) returns (consumed: bool)
      modifies this
      ensures View() == Handle(old(View()), f, random, builds, crypto)
      ensures consumed <==> old(ctx.stage) != DISARMED
                            && (f.cmd == DISCOVER_REQ || (f.dst == old(ctx.throwawayId) && f.cmd != OTHER))
    {
      if ctx.stage == DISARMED { return false; }
      if f.cmd == DISCOVER_REQ {
        HandleDiscover(f, builds);
        return true;
      }
      if f.dst != ctx.throwawayId { return false; }
      consumed := true;
      match f.cmd {
        case DISCOVER_CONFIRM => HandleDiscoverConfirm(f, builds);
        case KEY_INIT => HandleKeyInit(f, random, builds);
        case KEY_TRANSFER => HandleKeyTransfer(f, builds);
        case ADDRESS_REQ => HandleAddressReq(f, builds);
        case CHALLENGE_REQ => HandleAddressChallenge(f, builds);
        case _ => consumed := false;
      }
    }

    /** The scheduler runs the auto-off callback. */
    method AutoOffFires()
      requires autoOffDue.Some?
      modifies this
      ensures View() == AutoOffCallback(old(View()).(autoOff := None))
    {
      autoOffDue := None;
      if ctx.stage == DISARMED { return; }
      SetArmed(false, 0);
    }

    /** The scheduler runs the grace callback. */
    method GraceFires()
      requires graceDue.Some?
      modifies this
      ensures View() == GraceCallback(old(View()).(grace := None))
    {
      graceDue := None;
      if ctx.stage != EXTRACTED && ctx.stage != SENT_ADDRESS_RESP { return; }
      SetArmed(false, 0);
    }
  }

  const BOOTED := Hub(BLANK, 0, None, None, 0, 0, 0, 0, false, Hold(0, 0, 0), [])

  // --- Runs ---

  datatype Event =
    | Switch(armed: bool, id: NodeId)
    | Receive(frame: Frame, random: Challenge, builds: bool)
    | FireAutoOff
    | FireGrace
    | Wait(ms: nat)

  predicate DueBy(t: Option<Timer>, time: nat) { t.Some? && t.value.due <= time }

  /** A timer fires once due; the scheduler lets no pending timer stay more than `late` ms past its due time. */
  function Step(h: Hub, e: Event, crypto: Crypto, late: nat): Hub {
    match e
    case Switch(armed, id) => if armed then Arm(h, id) else Disarm(h)
    case Receive(f, random, builds) => Handle(h, f, random, builds, crypto)
    case FireAutoOff => if DueBy(h.autoOff, h.now) then AutoOffCallback(h.(autoOff := None)) else h
    case FireGrace => if DueBy(h.grace, h.now) then GraceCallback(h.(grace := None)) else h
    case Wait(ms) =>
      if (h.autoOff.Some? && h.now + ms > h.autoOff.value.due + late)
         || (h.grace.Some? && h.now + ms > h.grace.value.due + late)
      then h else h.(now := h.now + ms)
  }

  function Run(h: Hub, es: seq<Event>, crypto: Crypto, late: nat): Hub
    decreases |es|
  {
    if es == [] then h else Run(Step(h, es[0], crypto, late), es[1..], crypto, late)
  }

  // --- Timers and arm cycles ---

  ghost predicate Sound(h: Hub, late: nat) {
    && (h.ctx.stage != DISARMED ==> h.autoOff == Some(Timer(h.armedAt + AUTO_OFF, h.cycle)))
    && (h.autoOff.Some? ==> h.now <= h.autoOff.value.due + late)
    && (Completed(h.ctx.stage) ==> h.grace.Some? && h.grace.value.cycle == h.cycle && h.extracted)
    && (h.grace.Some? && h.grace.value.cycle == h.cycle ==> h.extracted)
    && (h.grace.Some? ==> h.grace.value.cycle <= h.cycle && h.now <= h.grace.value.due + late)
    && h.armedAt <= h.now
  }

  lemma HandleSound(h: Hub, f: Frame, random: Challenge, builds: bool, crypto: Crypto, late: nat)
    requires Sound(h, late) && h.ctx.stage != DISARMED
    ensures Sound(Handle(h, f, random, builds, crypto), late)
  {
    var g := Handle(h, f, random, builds, crypto);
    assert g.autoOff == h.autoOff && g.cycle == h.cycle && g.armedAt == h.armedAt && g.now == h.now;
    assert g.grace == h.grace || g.grace == Some(Timer(h.now + POST_EXTRACT_GRACE, h.cycle));
  }

  lemma StepSound(h: Hub, e: Event, crypto: Crypto, late: nat)
    requires Sound(h, late)
    ensures Sound(Step(h, e, crypto, late), late)
  {
    if e.Receive? && h.ctx.stage != DISARMED { HandleSound(h, e.frame, e.random, e.builds, crypto, late); }
  }

  lemma {:induction false} RunSound(h: Hub, es: seq<Event>, crypto: Crypto, late: nat)
    requires Sound(h, late)
    ensures Sound(Run(h, es, crypto, late), late)
    decreases |es|
  {
    if es != [] {
      StepSound(h, es[0], crypto, late);
      RunSound(Step(h, es[0], crypto, late), es[1..], crypto, late);
    }
  }

  /** Whatever was armed, disarmed, re-armed and received before, a grace callback that disarms ends an attempt that
      recovered a key in this very arm cycle and set this very timer; a completed attempt always has such a timer. */
  lemma NoStaleGraceKills(es: seq<Event>, crypto: Crypto, late: nat)
    ensures var h := Run(BOOTED, es, crypto, late);
            && (Completed(h.ctx.stage) ==> h.grace.Some? && h.grace.value.cycle == h.cycle)
            && ((DueBy(h.grace, h.now) && Step(h, FireGrace, crypto, late).ctx != h.ctx) ==>
                  h.grace.value.cycle == h.cycle && h.extracted && Completed(h.ctx.stage))
  {
    RunSound(BOOTED, es, crypto, late);
  }

  /** No arm cycle, and no hold on CH2 or on background polls, outlives ten minutes from the latest arm call. */
  lemma ArmedAtMostTenMinutes(es: seq<Event>, crypto: Crypto, late: nat)
    ensures var h := Run(BOOTED, es, crypto, late);
            && (h.ctx.stage != DISARMED ==> h.now <= h.armedAt + 600000 + late)
            && (AwaitingReply(h) ==> h.now <= h.armedAt + 600000 + late)
            && (h.ctx.stage == DISARMED || h.ctx.stage == ARMED_IDLE ==> !AwaitingReply(h))
  {
    RunSound(BOOTED, es, crypto, late);
  }

  // --- Foreign hubs after completion ---

  predicate Foreign(e: Event, hub: NodeId) { e.Receive? && e.frame.src != hub }

  /** The events with every frame of another hub deleted. */
  function WithoutForeign(es: seq<Event>, hub: NodeId): seq<Event> {
    if es == [] then []
    else if Foreign(es[0], hub) then WithoutForeign(es[1..], hub)
    else [es[0]] + WithoutForeign(es[1..], hub)
  }

  /** The attempt stays completed up to the last event. */
  ghost predicate StaysCompleted(h: Hub, es: seq<Event>, crypto: Crypto, late: nat)
    decreases |es|
  {
    && Completed(h.ctx.stage)
    && (es != [] ==> |es| == 1 || StaysCompleted(Step(h, es[0], crypto, late), es[1..], crypto, late))
  }

  lemma ForeignFrameIsInert(h: Hub, e: Event, crypto: Crypto, late: nat)
    requires Completed(h.ctx.stage) && Foreign(e, h.ctx.hubNodeId)
    ensures Step(h, e, crypto, late) == h
  {
  }

  lemma CompletedKeepsHub(h: Hub, e: Event, crypto: Crypto, late: nat)
    requires Completed(h.ctx.stage) && Completed(Step(h, e, crypto, late).ctx.stage)
    ensures Step(h, e, crypto, late).ctx.hubNodeId == h.ctx.hubNodeId
  {
    if e.Receive? { CompletedHandle(h, e.frame, e.random, e.builds, crypto); }
  }

  lemma CompletedHandle(h: Hub, f: Frame, random: Challenge, builds: bool, crypto: Crypto)
    requires Completed(h.ctx.stage)
    ensures Handle(h, f, random, builds, crypto).ctx.hubNodeId == h.ctx.hubNodeId
  {
  }

  /** While an attempt is completed, frames of other hubs change nothing: not the stage, the timers, the hold or one
      reply of the round with the real hub. */
  lemma {:induction false} ForeignHubsDoNotInterfere(h: Hub, es: seq<Event>, crypto: Crypto, late: nat)
    requires StaysCompleted(h, es, crypto, late)
    ensures Run(h, es, crypto, late) == Run(h, WithoutForeign(es, h.ctx.hubNodeId), crypto, late)
    decreases |es|
  {
    if es != [] {
      var hub, rest := h.ctx.hubNodeId, WithoutForeign(es[1..], h.ctx.hubNodeId);
      if Foreign(es[0], hub) {
        ForeignFrameIsInert(h, es[0], crypto, late);
        if |es| > 1 { ForeignHubsDoNotInterfere(h, es[1..], crypto, late); }
      } else {
        assert ([es[0]] + rest)[1..] == rest;
        if |es| > 1 {
          CompletedKeepsHub(h, es[0], crypto, late);
          ForeignHubsDoNotInterfere(Step(h, es[0], crypto, late), es[1..], crypto, late);
        }
      }
    }
  }

  // --- Key recovery ---

  ghost predicate StaysChallenged(h: Hub, es: seq<Event>, crypto: Crypto, late: nat)
    decreases |es|
  {
    h.ctx.stage == SENT_CHALLENGE && (es != [] ==> StaysChallenged(Step(h, es[0], crypto, late), es[1..], crypto, late))
  }

  ghost predicate OneChallenge(h: Hub, from: nat) {
    forall i :: from <= i < |h.replies| && h.replies[i].ChallengeReq? ==> h.replies[i].challenge == h.ctx.challenge
  }

  /** What a frame can do to an attempt waiting for its 0x32. */
  lemma ChallengedHandle(h: Hub, f: Frame, random: Challenge, builds: bool, crypto: Crypto)
    requires h.ctx.stage == SENT_CHALLENGE
    ensures var g := Handle(h, f, random, builds, crypto);
            || g == h || g == Answer(h, builds, ChallengeReq(h.ctx.throwawayId, f.src, h.ctx.challenge))
            || g.ctx.stage == EXTRACTED
  {
  }

  lemma StepSameChallenge(h: Hub, e: Event, from: nat, crypto: Crypto, late: nat)
    requires h.ctx.stage == SENT_CHALLENGE && from <= |h.replies| && OneChallenge(h, from)
    requires Step(h, e, crypto, late).ctx.stage == SENT_CHALLENGE
    ensures var g := Step(h, e, crypto, late);
            && g.ctx.challenge == h.ctx.challenge && g.ctx.throwawayId == h.ctx.throwawayId
            && |h.replies| <= |g.replies| && OneChallenge(g, from)
  {
    if e.Receive? { ChallengedHandle(h, e.frame, e.random, e.builds, crypto); }
  }

  /** Every 0x3C of one stay carries the challenge the key will be unwrapped with. */
  lemma {:induction false} SameChallenge(h: Hub, es: seq<Event>, from: nat, crypto: Crypto, late: nat)
    requires StaysChallenged(h, es, crypto, late) && from <= |h.replies| && OneChallenge(h, from)
    ensures var g := Run(h, es, crypto, late);
            && g.ctx.stage == SENT_CHALLENGE && g.ctx.challenge == h.ctx.challenge
            && g.ctx.throwawayId == h.ctx.throwawayId
            && |h.replies| <= |g.replies| && OneChallenge(g, from)
    decreases |es|
  {
    if es != [] {
      StepSameChallenge(h, es[0], from, crypto, late);
      SameChallenge(Step(h, es[0], crypto, late), es[1..], from, crypto, late);
    }
  }

  lemma EntersByKeyInit(h: Hub, f: Frame, random: Challenge, builds: bool, crypto: Crypto)
    requires h.ctx.stage != SENT_CHALLENGE && Handle(h, f, random, builds, crypto).ctx.stage == SENT_CHALLENGE
    ensures Handle(h, f, random, builds, crypto) ==
      Answer(h.(ctx := OnKeyInit(h.ctx, random, f.src).0), builds, ChallengeReq(h.ctx.throwawayId, f.src, random))
    ensures Handle(h, f, random, builds, crypto).ctx.challenge == random
  {
  }

  lemma EntersWithItsChallenge(h: Hub, enter: Event, crypto: Crypto, late: nat)
    requires h.ctx.stage != SENT_CHALLENGE && Step(h, enter, crypto, late).ctx.stage == SENT_CHALLENGE
    ensures |h.replies| <= |Step(h, enter, crypto, late).replies|
    ensures OneChallenge(Step(h, enter, crypto, late), |h.replies|)
  {
    if enter.Receive? { EntersByKeyInit(h, enter.frame, enter.random, enter.builds, crypto); }
  }

  lemma TransferRecovers(g: Hub, f: Frame, key: Key, builds: bool, crypto: Crypto, late: nat)
    requires g.ctx.stage == SENT_CHALLENGE
    requires f.cmd == KEY_TRANSFER && f.dst == g.ctx.throwawayId && AES_KEY_SIZE <= |f.data|
    requires CryptKey(crypto, g.ctx.challenge, key) == Some(f.data[..AES_KEY_SIZE])
    ensures var done := Step(g, Receive(f, NO_CHALLENGE, builds), crypto, late);
            done.ctx.stage == EXTRACTED && done.ctx.recoveredKey == key
  {
    CryptTwice(crypto, g.ctx.challenge, key);
  }

  /** Whichever of the challenges sent since the stay began the hub wraps its key with, after any pattern of retried
      0x31 and lost replies, its 0x32 yields exactly that key. */
  lemma KeyRecovered(h: Hub, enter: Event, es: seq<Event>, i: nat, f: Frame, key: Key,
                     builds: bool, crypto: Crypto, late: nat)
    requires h.ctx.stage != SENT_CHALLENGE && StaysChallenged(Step(h, enter, crypto, late), es, crypto, late)
    requires var g := Run(Step(h, enter, crypto, late), es, crypto, late);
             && |h.replies| <= i < |g.replies| && g.replies[i].ChallengeReq?
             && f.cmd == KEY_TRANSFER && f.dst == g.ctx.throwawayId && AES_KEY_SIZE <= |f.data|
             && CryptKey(crypto, g.replies[i].challenge, key) == Some(f.data[..AES_KEY_SIZE])
    ensures var g := Run(Step(h, enter, crypto, late), es, crypto, late);
            var done := Step(g, Receive(f, NO_CHALLENGE, builds), crypto, late);
            done.ctx.stage == EXTRACTED && done.ctx.recoveredKey == key
  {
    EntersWithItsChallenge(h, enter, crypto, late);
    SameChallenge(Step(h, enter, crypto, late), es, |h.replies|, crypto, late);
    TransferRecovers(Run(Step(h, enter, crypto, late), es, crypto, late), f, key, builds, crypto, late);
  }

  // --- What the replies carry ---

  /** `r` is the reply to this frame: to its sender, from the throwaway address, and in the right stage. */
  predicate Answers(h: Hub, f: Frame, random: Challenge, builds: bool, crypto: Crypto, r: Reply) {
    && builds && r.to == f.src && r.own == h.ctx.throwawayId && (f.cmd == DISCOVER_REQ || f.dst == h.ctx.throwawayId)
    && match r
       case DiscoverResp(_, _) =>
         && f.cmd == DISCOVER_REQ
         && (|| h.ctx.stage == ARMED_IDLE || h.ctx.stage == SENT_DISCOVER_RESP
             || (f.src == h.ctx.hubNodeId && (h.ctx.stage == EXTRACTED || h.ctx.stage == SENT_ADDRESS_RESP)))
       case ConfirmAck(_, _) =>
         f.cmd == DISCOVER_CONFIRM && (h.ctx.stage == SENT_DISCOVER_RESP || h.ctx.stage == SENT_CONFIRM_ACK)
       case ChallengeReq(_, _, challenge) =>
         && f.cmd == KEY_INIT
         && (|| (challenge == random && (h.ctx.stage == SENT_DISCOVER_RESP || h.ctx.stage == SENT_CONFIRM_ACK))
             || (challenge == h.ctx.challenge && h.ctx.stage == SENT_CHALLENGE))
       case KeyConfirm(_, _) =>
         f.cmd == KEY_TRANSFER && h.ctx.stage == SENT_CHALLENGE && |f.data| >= 16 && crypto(h.ctx.challenge).Some?
       case AddressResp(_, _) =>
         && f.cmd == ADDRESS_REQ && f.src == h.ctx.hubNodeId
         && (h.ctx.stage == EXTRACTED || h.ctx.stage == SENT_ADDRESS_RESP)
       case ChallengeResp(_, _, over, key) =>
         && f.cmd == CHALLENGE_REQ && f.src == h.ctx.hubNodeId && h.ctx.stage == SENT_ADDRESS_RESP
         && |f.data| >= 6 && over == f.data[..6] && key == h.ctx.recoveredKey
  }

  lemma AppendOne<T>(s: seq<T>, a: T, b: T)
    ensures s + [a] == s + [b] ==> a == b
    ensures s + [a] != s
  {
    assert (s + [a])[|s|] == a && (s + [b])[|s|] == b;
  }

  lemma AnswersOnce(h: Hub, f: Frame, random: Challenge, builds: bool, crypto: Crypto, q: Reply, r: Reply)
    requires Answers(h, f, random, builds, crypto, q) && Answers(h, f, random, builds, crypto, r)
    ensures q == r
  {
  }

  lemma OneReply(h: Hub, f: Frame, random: Challenge, builds: bool, crypto: Crypto, r: Reply)
    requires Answers(h, f, random, builds, crypto, r)
    ensures Handle(h, f, random, builds, crypto).replies == h.replies + [r]
  {
    match r
    case DiscoverResp(_, _) =>
    case ConfirmAck(_, _) =>
    case ChallengeReq(_, _, _) =>
    case KeyConfirm(_, _) =>
    case AddressResp(_, _) =>
    case ChallengeResp(_, _, _, _) =>
  }

  lemma NoReply(h: Hub, f: Frame, random: Challenge, builds: bool, crypto: Crypto)
    requires forall r :: !Answers(h, f, random, builds, crypto, r)
    ensures Handle(h, f, random, builds, crypto).replies == h.replies
  {
    var own := h.ctx.throwawayId;
    match f.cmd
    case DISCOVER_REQ => assert !Answers(h, f, random, builds, crypto, DiscoverResp(own, f.src));
    case DISCOVER_CONFIRM => assert !Answers(h, f, random, builds, crypto, ConfirmAck(own, f.src));
    case KEY_INIT =>
      assert !Answers(h, f, random, builds, crypto, ChallengeReq(own, f.src, random));
      assert !Answers(h, f, random, builds, crypto, ChallengeReq(own, f.src, h.ctx.challenge));
    case KEY_TRANSFER => assert !Answers(h, f, random, builds, crypto, KeyConfirm(own, f.src));
    case ADDRESS_REQ => assert !Answers(h, f, random, builds, crypto, AddressResp(own, f.src));
    case CHALLENGE_REQ =>
      if |f.data| >= 6 {
        assert !Answers(h, f, random, builds, crypto, ChallengeResp(own, f.src, f.data[..6], h.ctx.recoveredKey));
      }
    case _ =>
  }

  /** A frame is answered by at most one reply, and exactly by the one that is due. */
  lemma RepliesIff(h: Hub, f: Frame, random: Challenge, builds: bool, crypto: Crypto, r: Reply)
    ensures var g := Handle(h, f, random, builds, crypto);
            && (g.replies == h.replies + [r] <==> Answers(h, f, random, builds, crypto, r))
            && (g.replies == h.replies || exists q :: g.replies == h.replies + [q])
  {
    if exists q :: Answers(h, f, random, builds, crypto, q) {
      var q :| Answers(h, f, random, builds, crypto, q);
      OneReply(h, f, random, builds, crypto, q);
      AppendOne(h.replies, q, r);
      if Answers(h, f, random, builds, crypto, r) { AnswersOnce(h, f, random, builds, crypto, q, r); }
    } else {
      NoReply(h, f, random, builds, crypto);
      AppendOne(h.replies, r, r);
    }
  }

  lemma AnsweredOnce(h: Hub, f: Frame, random: Challenge, builds: bool, crypto: Crypto)
    ensures var g := Handle(h, f, random, builds, crypto);
            && (forall r :: g.replies == h.replies + [r] <==> Answers(h, f, random, builds, crypto, r))
            && (g.replies == h.replies || exists r :: g.replies == h.replies + [r])
  {
    forall r
      ensures Handle(h, f, random, builds, crypto).replies == h.replies + [r] <==>
              Answers(h, f, random, builds, crypto, r)
    {
      RepliesIff(h, f, random, builds, crypto, r);
    }
    RepliesIff(h, f, random, builds, crypto, KeyConfirm(0, 0));
  }

  /** `key` is what the bytes of the 0x32 say once the block of the challenge is taken off them. */
  ghost predicate Uncovered(key: Key, data: Bytes, pad: Key)
    requires |data| >= 16
  {
    forall i :: 0 <= i < 16 ==> key[i] == ByteXor(data[i], pad[i])
  }

  /** `c` is what a frame makes of the attempt: one step on in the stage where it is due, and nothing otherwise. */
  ghost predicate Moves(was: Context, f: Frame, random: Challenge, crypto: Crypto, c: Context) {
    var pairing := was.stage == SENT_DISCOVER_RESP || was.stage == SENT_CONFIRM_ACK;
    var completed := was.stage == EXTRACTED || was.stage == SENT_ADDRESS_RESP;
    if f.cmd == DISCOVER_REQ then
      if || was.stage == ARMED_IDLE || was.stage == SENT_DISCOVER_RESP || (completed && f.src == was.hubNodeId)
      then c == was.(stage := SENT_DISCOVER_RESP) else c == was
    else if f.dst != was.throwawayId then c == was
    else if f.cmd == DISCOVER_CONFIRM && pairing then c == was.(stage := SENT_CONFIRM_ACK)
    else if f.cmd == KEY_INIT && pairing then
      c == was.(stage := SENT_CHALLENGE, challenge := random, hubNodeId := f.src)
    else if f.cmd == KEY_TRANSFER && was.stage == SENT_CHALLENGE && |f.data| >= 16 && crypto(was.challenge).Some? then
      && c == was.(stage := EXTRACTED, recoveredKey := c.recoveredKey)
      && Uncovered(c.recoveredKey, f.data, crypto(was.challenge).value)
    else if f.cmd == ADDRESS_REQ && completed && f.src == was.hubNodeId then c == was.(stage := SENT_ADDRESS_RESP)
    else c == was
  }

  lemma MovesRight(h: Hub, f: Frame, random: Challenge, builds: bool, crypto: Crypto)
    ensures Moves(h.ctx, f, random, crypto, Handle(h, f, random, builds, crypto).ctx)
  {
    match f.cmd
    case DISCOVER_REQ =>
    case KEY_INIT =>
    case KEY_TRANSFER =>
    case _ =>
  }

  /** A frame recovered the key, or brought a reply that follows one. */
  predicate Finishes(h: Hub, g: Hub) {
    || (h.ctx.stage == SENT_CHALLENGE && g.ctx.stage == EXTRACTED)
    || (|g.replies| > |h.replies| && (g.replies[|h.replies|].AddressResp? || g.replies[|h.replies|].ChallengeResp?))
  }

  /** A minute from then on for what follows a recovered key, five seconds for any other reply. */
  ghost predicate TimersSet(h: Hub, g: Hub) {
    && g.autoOff == h.autoOff && g.now == h.now && g.cycle == h.cycle
    && g.grace == (if Finishes(h, g) then Some(Timer(h.now + 60000, h.cycle)) else h.grace)
    && g.hold == if Finishes(h, g) then Clock(h.now + 60000)
                 else if g.replies != h.replies then Clock(h.now + 5000) else h.hold
  }

  lemma AnswerTimers(h: Hub, ctx: Context, builds: bool, r: Reply)
    requires ctx.stage != EXTRACTED && !r.AddressResp? && !r.ChallengeResp?
    ensures TimersSet(h, Answer(h.(ctx := ctx), builds, r))
  {
    AppendOne(h.replies, r, r);
  }

  lemma GraceTimers(h: Hub, ctx: Context, r: Reply)
    ensures r.AddressResp? || r.ChallengeResp? ==> TimersSet(h, ArmGrace(Send(h.(ctx := ctx), r)))
    ensures h.ctx.stage == SENT_CHALLENGE && ctx.stage == EXTRACTED ==>
      && TimersSet(h, ArmGrace(h.(ctx := ctx, extracted := true)))
      && TimersSet(h, ArmGrace(Send(h.(ctx := ctx, extracted := true), r)))
  {
    AppendOne(h.replies, r, r);
  }

  lemma TimersAfter(h: Hub, f: Frame, random: Challenge, builds: bool, crypto: Crypto)
    ensures TimersSet(h, Handle(h, f, random, builds, crypto))
  {
    var own := h.ctx.throwawayId;
    match f.cmd
    case DISCOVER_REQ =>
      if OnDiscoverRequest(h.ctx, f.src).1 {
        AnswerTimers(h, OnDiscoverRequest(h.ctx, f.src).0, builds, DiscoverResp(own, f.src));
      }
    case DISCOVER_CONFIRM =>
      if OnDiscoverConfirm(h.ctx).1 { AnswerTimers(h, OnDiscoverConfirm(h.ctx).0, builds, ConfirmAck(own, f.src)); }
    case KEY_INIT =>
      var (ctx, reply) := OnKeyInit(h.ctx, random, f.src);
      if reply { AnswerTimers(h, ctx, builds, ChallengeReq(own, f.src, ctx.challenge)); }
    case KEY_TRANSFER =>
      if |f.data| >= AES_KEY_SIZE {
        GraceTimers(h, OnKeyTransfer(h.ctx, f.data[..AES_KEY_SIZE], crypto).0, KeyConfirm(own, f.src));
      }
    case ADDRESS_REQ => GraceTimers(h, OnAddressReq(h.ctx).0, AddressResp(own, f.src));
    case CHALLENGE_REQ =>
      if |f.data| >= HMAC_SIZE {
        GraceTimers(h, h.ctx, ChallengeResp(own, f.src, f.data[..HMAC_SIZE], h.ctx.recoveredKey));
      }
    case _ =>
  }

  /** The hub after the first `n` events since boot. */
  function After(es: seq<Event>, n: nat, crypto: Crypto, late: nat): Hub
    requires n <= |es|
  {
    Run(BOOTED, es[..n], crypto, late)
  }

  lemma AfterNext(es: seq<Event>, n: nat, crypto: Crypto, late: nat)
    requires n < |es|
    ensures After(es, n + 1, crypto, late) == Step(After(es, n, crypto, late), es[n], crypto, late)
  {
    RunLast(BOOTED, es, n, crypto, late);
  }

  /** With event `j` a 0x31 to the responder started the key exchange, and it went on up to event `k`. */
  ghost predicate Exchanging(es: seq<Event>, j: nat, k: nat, crypto: Crypto, late: nat) {
    && j < k <= |es| && es[j].Receive? && es[j].frame.cmd == KEY_INIT
    && es[j].frame.dst == After(es, k, crypto, late).ctx.throwawayId
    && es[j].frame.src == After(es, k, crypto, late).ctx.hubNodeId
    && es[j].random == After(es, k, crypto, late).ctx.challenge
    && After(es, j, crypto, late).ctx.stage != SENT_CHALLENGE
    && forall m: nat :: j < m <= k ==> After(es, m, crypto, late).ctx.stage == SENT_CHALLENGE
  }

  /** What a step into the exchange, or within it, does to its context. */
  lemma StepExchange(h: Hub, e: Event, crypto: Crypto, late: nat)
    requires Step(h, e, crypto, late).ctx.stage == SENT_CHALLENGE
    ensures var c := Step(h, e, crypto, late).ctx;
            if h.ctx.stage == SENT_CHALLENGE then c == h.ctx
            else && e.Receive? && e.frame.cmd == KEY_INIT && e.frame.dst == c.throwawayId
                 && e.frame.src == c.hubNodeId && e.random == c.challenge
  {
    if e.Receive? { HandleExchange(h, e.frame, e.random, e.builds, crypto); }
  }

  lemma HandleExchange(h: Hub, f: Frame, random: Challenge, builds: bool, crypto: Crypto)
    requires Handle(h, f, random, builds, crypto).ctx.stage == SENT_CHALLENGE
    ensures var c := Handle(h, f, random, builds, crypto).ctx;
            if h.ctx.stage == SENT_CHALLENGE then c == h.ctx
            else f.cmd == KEY_INIT && f.dst == c.throwawayId && f.src == c.hubNodeId && random == c.challenge
  {
  }

  lemma {:induction false} ExchangeBegan(es: seq<Event>, k: nat, crypto: Crypto, late: nat) returns (j: nat)
    requires k <= |es| && After(es, k, crypto, late).ctx.stage == SENT_CHALLENGE
    ensures Exchanging(es, j, k, crypto, late)
    decreases k
  {
    assert es[..0] == [];
    AfterNext(es, k - 1, crypto, late);
    StepExchange(After(es, k - 1, crypto, late), es[k - 1], crypto, late);
    if After(es, k - 1, crypto, late).ctx.stage == SENT_CHALLENGE {
      j := ExchangeBegan(es, k - 1, crypto, late);
    } else {
      j := k - 1;
    }
  }

  /** With event `k` a 0x32 to the responder ended the exchange begun with event `j`, and it has been over since. */
  ghost predicate Exchanged(es: seq<Event>, j: nat, k: nat, n: nat, crypto: Crypto, late: nat) {
    && k < n <= |es| && Exchanging(es, j, k, crypto, late)
    && es[k].Receive? && es[k].frame.cmd == KEY_TRANSFER && es[k].frame.dst == es[j].frame.dst
    && |es[k].frame.data| >= 16 && crypto(es[j].random).Some?
    && forall m: nat :: k < m <= n ==>
         After(es, m, crypto, late).ctx.stage == EXTRACTED || After(es, m, crypto, late).ctx.stage == SENT_ADDRESS_RESP
  }

  lemma StepCompleted(h: Hub, e: Event, crypto: Crypto, late: nat)
    requires Completed(Step(h, e, crypto, late).ctx.stage)
    ensures var c := Step(h, e, crypto, late).ctx;
            && c.throwawayId == h.ctx.throwawayId && c.hubNodeId == h.ctx.hubNodeId
            && if Completed(h.ctx.stage) then c.recoveredKey == h.ctx.recoveredKey
               else && h.ctx.stage == SENT_CHALLENGE && c.stage == EXTRACTED
                    && e.Receive? && e.frame.cmd == KEY_TRANSFER && e.frame.dst == c.throwawayId
                    && |e.frame.data| >= 16 && crypto(h.ctx.challenge).Some?
                    && Uncovered(c.recoveredKey, e.frame.data, crypto(h.ctx.challenge).value)
  {
    if e.Receive? { HandleCompleted(h, e.frame, e.random, e.builds, crypto); }
  }

  lemma HandleCompleted(h: Hub, f: Frame, random: Challenge, builds: bool, crypto: Crypto)
    requires Completed(Handle(h, f, random, builds, crypto).ctx.stage)
    ensures var c := Handle(h, f, random, builds, crypto).ctx;
            && c.throwawayId == h.ctx.throwawayId && c.hubNodeId == h.ctx.hubNodeId
            && if Completed(h.ctx.stage) then c.recoveredKey == h.ctx.recoveredKey
               else && h.ctx.stage == SENT_CHALLENGE && c.stage == EXTRACTED && f.cmd == KEY_TRANSFER
                    && f.dst == c.throwawayId && |f.data| >= 16 && crypto(h.ctx.challenge).Some?
                    && Uncovered(c.recoveredKey, f.data, crypto(h.ctx.challenge).value)
  {
  }

  /** Where the key of a completed attempt comes from: over every run since boot. */
  lemma {:induction false} KeyOrigin(es: seq<Event>, n: nat, crypto: Crypto, late: nat) returns (j: nat, k: nat)
    requires n <= |es| && Completed(After(es, n, crypto, late).ctx.stage)
    ensures Exchanged(es, j, k, n, crypto, late)
    ensures var c := After(es, n, crypto, late).ctx;
            && c.throwawayId == es[j].frame.dst && c.hubNodeId == es[j].frame.src
            && Uncovered(c.recoveredKey, es[k].frame.data, crypto(es[j].random).value)
    decreases n
  {
    assert es[..0] == [];
    AfterNext(es, n - 1, crypto, late);
    StepCompleted(After(es, n - 1, crypto, late), es[n - 1], crypto, late);
    if Completed(After(es, n - 1, crypto, late).ctx.stage) {
      j, k := KeyOrigin(es, n - 1, crypto, late);
    } else {
      k := n - 1;
      j := ExchangeBegan(es, k, crypto, late);
    }
  }

  /** The last address request before `n`. */
  lemma {:induction false} AddressAsked(es: seq<Event>, n: nat, crypto: Crypto, late: nat) returns (a: nat)
    requires n <= |es| && After(es, n, crypto, late).ctx.stage == SENT_ADDRESS_RESP
    ensures a < n && es[a].Receive? && es[a].frame.cmd == ADDRESS_REQ
    ensures es[a].frame.src == After(es, n, crypto, late).ctx.hubNodeId
    ensures Completed(After(es, a, crypto, late).ctx.stage)
    ensures forall m: nat :: a < m <= n ==> After(es, m, crypto, late).ctx.stage == SENT_ADDRESS_RESP
    decreases n
  {
    assert es[..0] == [];
    var h, e := After(es, n - 1, crypto, late), es[n - 1];
    AfterNext(es, n - 1, crypto, late);
    StepCompleted(h, e, crypto, late);
    if h.ctx.stage == SENT_ADDRESS_RESP {
      a := AddressAsked(es, n - 1, crypto, late);
    } else {
      if e.Receive? { HandleAsked(h, e.frame, e.random, e.builds, crypto); }
      a := n - 1;
    }
  }

  lemma HandleAsked(h: Hub, f: Frame, random: Challenge, builds: bool, crypto: Crypto)
    requires h.ctx.stage != SENT_ADDRESS_RESP
    requires Handle(h, f, random, builds, crypto).ctx.stage == SENT_ADDRESS_RESP
    ensures h.ctx.stage == EXTRACTED && f.cmd == ADDRESS_REQ && f.src == h.ctx.hubNodeId
  {
  }

  /** Over every run since boot, a 0x3D answers the 0x3C just received, over its first six bytes, to the hub that began
      the key exchange and asked for the address since, under exactly the key that hub wrapped with the challenge the
      responder drew for it. */
  lemma AddressAnswered(es: seq<Event>, n: nat, r: Reply, crypto: Crypto, late: nat) returns (j: nat, k: nat, a: nat)
    requires n < |es| && r.ChallengeResp?
    requires After(es, n + 1, crypto, late).replies == After(es, n, crypto, late).replies + [r]
    ensures Exchanged(es, j, k, n, crypto, late) && k < a < n
    ensures es[a].Receive? && es[a].frame.cmd == ADDRESS_REQ && es[a].frame.src == es[j].frame.src
    ensures es[n].Receive? && es[n].frame.cmd == CHALLENGE_REQ && es[n].frame.src == es[j].frame.src
    ensures |es[n].frame.data| >= 6 && r.over == es[n].frame.data[..6]
    ensures r.to == es[j].frame.src && r.own == es[j].frame.dst == es[n].frame.dst
    ensures Uncovered(r.key, es[k].frame.data, crypto(es[j].random).value)
    ensures forall key: Key :: CryptKey(crypto, es[j].random, key) == Some(es[k].frame.data[..16]) ==> r.key == key
  {
    var h := After(es, n, crypto, late);
    AfterNext(es, n, crypto, late);
    AppendOne(h.replies, r, r);
    RepliesIff(h, es[n].frame, es[n].random, es[n].builds, crypto, r);
    j, k := KeyOrigin(es, n, crypto, late);
    a := AddressAsked(es, n, crypto, late);
    forall key: Key | CryptKey(crypto, es[j].random, key) == Some(es[k].frame.data[..16]) ensures r.key == key {
      CryptTwice(crypto, es[j].random, key);
      assert r.key == XorKeys(es[k].frame.data[..16], crypto(es[j].random).value);
    }
  }

  // --- The hold and the 32-bit clock ---

  /** Progress with the hub: a reply went out or a key was recovered. */
  predicate Progress(h: Hub, g: Hub) {
    |g.replies| > |h.replies| || (g.ctx.stage == EXTRACTED && h.ctx.stage != EXTRACTED)
  }

  /** The hold that progress sets: a minute once a key was recovered, five seconds before. */
  function Renewed(h: Hub, g: Hub): Hold {
    Hold(h.now, if g.ctx.stage == EXTRACTED || g.ctx.stage == SENT_ADDRESS_RESP then 60000 else 5000, h.cycle)
  }

  /** Progress, and nothing else, sets the hold. */
  ghost predicate HoldFollows(h: Hub, g: Hub) {
    && g.held == (if Progress(h, g) then Renewed(h, g) else h.held)
    && g.hold == if Progress(h, g) then Clock(g.held.at + g.held.window) else h.hold
  }

  /** What a frame leaves alone. */
  ghost predicate SameCycle(h: Hub, g: Hub) {
    && g.now == h.now && g.cycle == h.cycle && g.armedAt == h.armedAt && g.armReplies == h.armReplies
    && |h.replies| <= |g.replies| && (g.extracted ==> h.extracted || Progress(h, g))
  }

  lemma HandleSameCycle(h: Hub, f: Frame, random: Challenge, builds: bool, crypto: Crypto)
    ensures SameCycle(h, Handle(h, f, random, builds, crypto))
  {
  }

  lemma AnswerFollows(h: Hub, ctx: Context, builds: bool, r: Reply)
    ensures !Completed(ctx.stage) ==> HoldFollows(h, Answer(h.(ctx := ctx), builds, r))
  {
  }

  lemma GraceFollows(h: Hub, ctx: Context, r: Reply)
    ensures Completed(ctx.stage) ==> HoldFollows(h, ArmGrace(Send(h.(ctx := ctx), r)))
    ensures ctx.stage == EXTRACTED && h.ctx.stage != EXTRACTED ==>
      HoldFollows(h, ArmGrace(h.(ctx := ctx, extracted := true)))
      && HoldFollows(h, ArmGrace(Send(h.(ctx := ctx, extracted := true), r)))
  {
  }

  lemma HandleFollows(h: Hub, f: Frame, random: Challenge, builds: bool, crypto: Crypto)
    ensures HoldFollows(h, Handle(h, f, random, builds, crypto))
  {
    match f.cmd
    case DISCOVER_REQ =>
      AnswerFollows(h, OnDiscoverRequest(h.ctx, f.src).0, builds, DiscoverResp(h.ctx.throwawayId, f.src));
    case DISCOVER_CONFIRM => AnswerFollows(h, OnDiscoverConfirm(h.ctx).0, builds, ConfirmAck(h.ctx.throwawayId, f.src));
    case KEY_INIT =>
      var ctx := OnKeyInit(h.ctx, random, f.src).0;
      AnswerFollows(h, ctx, builds, ChallengeReq(h.ctx.throwawayId, f.src, ctx.challenge));
    case KEY_TRANSFER =>
      if |f.data| >= AES_KEY_SIZE {
        GraceFollows(h, OnKeyTransfer(h.ctx, f.data[..AES_KEY_SIZE], crypto).0, KeyConfirm(h.ctx.throwawayId, f.src));
      }
    case ADDRESS_REQ => GraceFollows(h, OnAddressReq(h.ctx).0, AddressResp(h.ctx.throwawayId, f.src));
    case CHALLENGE_REQ =>
      if |f.data| >= HMAC_SIZE {
        GraceFollows(h, h.ctx, ChallengeResp(h.ctx.throwawayId, f.src, f.data[..HMAC_SIZE], h.ctx.recoveredKey));
      }
    case _ =>
  }

  lemma StepFollows(h: Hub, e: Event, crypto: Crypto, late: nat)
    ensures HoldFollows(h, Step(h, e, crypto, late))
  {
    if e.Receive? { HandleFollows(h, e.frame, e.random, e.builds, crypto); }
  }

  /** The index of the last of the first `n` events that made progress. */
  function LastProgress(es: seq<Event>, n: nat, crypto: Crypto, late: nat): (i: Option<nat>)
    requires n <= |es|
    ensures i.Some? ==> i.value < n
  {
    if n == 0 then None
    else if Progress(Run(BOOTED, es[..n - 1], crypto, late), Run(BOOTED, es[..n], crypto, late)) then Some(n - 1)
    else LastProgress(es, n - 1, crypto, late)
  }

  lemma {:induction false} RunLast(h: Hub, es: seq<Event>, n: nat, crypto: Crypto, late: nat)
    requires n < |es|
    ensures Run(h, es[..n + 1], crypto, late) == Step(Run(h, es[..n], crypto, late), es[n], crypto, late)
    decreases n
  {
    if n == 0 {
      assert es[..1][1..] == [] && es[..0] == [];
    } else {
      assert es[..n + 1][1..] == es[1..][..n] && es[..n][1..] == es[1..][..n - 1];
      RunLast(Step(h, es[0], crypto, late), es[1..], n - 1, crypto, late);
    }
  }

  lemma PrefixFollows(es: seq<Event>, n: nat, crypto: Crypto, late: nat)
    requires 0 < n <= |es|
    ensures HoldFollows(Run(BOOTED, es[..n - 1], crypto, late), Run(BOOTED, es[..n], crypto, late))
  {
    RunLast(BOOTED, es, n - 1, crypto, late);
    StepFollows(Run(BOOTED, es[..n - 1], crypto, late), es[n - 1], crypto, late);
  }

  /** Over every run the hold ends 5 s after the last reply, or 60 s after the last progress once a key was recovered;
      with no progress ever it is over from the start. */
  lemma {:induction false} HeldSinceLastProgress(es: seq<Event>, n: nat, crypto: Crypto, late: nat)
    requires n <= |es|
    ensures var h, last := Run(BOOTED, es[..n], crypto, late), LastProgress(es, n, crypto, late);
            && h.hold == Clock(h.held.at + h.held.window)
            && match last
               case None => h.held == Hold(0, 0, 0)
               case Some(i) =>
                 h.held == Renewed(Run(BOOTED, es[..i], crypto, late), Run(BOOTED, es[..i + 1], crypto, late))
    decreases n
  {
    if n == 0 {
      assert es[..0] == [];
    } else {
      HeldSinceLastProgress(es, n - 1, crypto, late);
      PrefixFollows(es, n, crypto, late);
    }
  }

  /** A hold of the current arm cycle was set since the hub was armed; and it is of the current cycle as soon as that
      cycle made any progress. */
  ghost predicate HoldSound(h: Hub) {
    && h.hold == Clock(h.held.at + h.held.window) && h.held.window <= POST_EXTRACT_GRACE
    && h.held.cycle <= h.cycle && h.held.at <= h.now
    && (h.held.cycle == h.cycle ==> h.armedAt <= h.held.at)
    && h.armReplies <= |h.replies|
    && (|h.replies| > h.armReplies || h.extracted ==> h.held.cycle == h.cycle)
  }

  lemma ProgressHoldSound(h: Hub, g: Hub)
    requires HoldSound(h) && h.armedAt <= h.now && HoldFollows(h, g) && SameCycle(h, g)
    ensures HoldSound(g)
  {
  }

  lemma StepHoldSound(h: Hub, e: Event, crypto: Crypto, late: nat)
    requires HoldSound(h) && h.armedAt <= h.now
    ensures HoldSound(Step(h, e, crypto, late))
  {
    if e.Receive? {
      HandleFollows(h, e.frame, e.random, e.builds, crypto);
      HandleSameCycle(h, e.frame, e.random, e.builds, crypto);
      ProgressHoldSound(h, Step(h, e, crypto, late));
    }
  }

  lemma {:induction false} RunHoldSound(h: Hub, es: seq<Event>, crypto: Crypto, late: nat)
    requires Sound(h, late) && HoldSound(h)
    ensures HoldSound(Run(h, es, crypto, late))
    decreases |es|
  {
    if es != [] {
      StepSound(h, es[0], crypto, late);
      StepHoldSound(h, es[0], crypto, late);
      RunHoldSound(Step(h, es[0], crypto, late), es[1..], crypto, late);
    }
  }

  /** A completed attempt has its grace timer set from its last progress. */
  ghost predicate GraceSound(h: Hub) {
    Completed(h.ctx.stage) ==> h.grace == Some(Timer(h.held.at + 60000, h.cycle))
  }

  lemma HandleGraceSound(h: Hub, f: Frame, random: Challenge, builds: bool, crypto: Crypto)
    requires GraceSound(h)
    ensures GraceSound(Handle(h, f, random, builds, crypto))
  {
  }

  lemma {:induction false} RunGraceSound(h: Hub, es: seq<Event>, crypto: Crypto, late: nat)
    requires Sound(h, late) && GraceSound(h)
    ensures GraceSound(Run(h, es, crypto, late))
    decreases |es|
  {
    if es != [] {
      var e := es[0];
      StepSound(h, e, crypto, late);
      if e.Receive? { HandleGraceSound(h, e.frame, e.random, e.builds, crypto); }
      RunGraceSound(Step(h, e, crypto, late), es[1..], crypto, late);
    }
  }

  /** In every reachable hub the auto-off timer disarms ten minutes after the latest arm call and not before, and the
      grace timer a completed attempt sixty seconds after its last progress and not before. */
  lemma DisarmsOnTime(es: seq<Event>, crypto: Crypto, late: nat)
    ensures var h := Run(BOOTED, es, crypto, late);
            && (h.ctx.stage != DISARMED ==>
                  (Step(h, FireAutoOff, crypto, late).ctx.stage == DISARMED <==> h.now >= h.armedAt + 600000))
            && (Completed(h.ctx.stage) ==>
                  (Step(h, FireGrace, crypto, late).ctx.stage == DISARMED <==> h.now >= h.held.at + 60000))
  {
    RunSound(BOOTED, es, crypto, late);
    RunGraceSound(BOOTED, es, crypto, late);
  }

  predicate Active(s: Stage) { s != DISARMED && s != ARMED_IDLE }

  /** A plain comparison of readings with a deadline at most a quarter of a clock period away on either side. */
  lemma ReadingRightIff(now: nat, end: nat)
    requires end <= now + WORD / 4 && now <= end + WORD / 4
    ensures (Clock(now) < Clock(end) <==> now < end) <==> now / WORD == end / WORD
  {
    assert now == now / WORD * WORD + Clock(now) && end == end / WORD * WORD + Clock(end);
    if now / WORD < end / WORD {
      assert end / WORD == now / WORD + 1;
    } else if now / WORD > end / WORD {
      assert now / WORD == end / WORD + 1;
    }
  }

  /** In every reachable hub with an attempt in progress that made progress since it was armed: the loop holds the radio
      exactly until the end of the hold, if and only if the clock does not wrap between now and that end. The ten-minute
      limit of an arm cycle leaves no other way to go wrong. */
  lemma HoldReadRightIff(es: seq<Event>, crypto: Crypto, late: nat)
    requires late < WORD / 8
    requires var h := Run(BOOTED, es, crypto, late); Active(h.ctx.stage) && (|h.replies| > h.armReplies || h.extracted)
    ensures var h := Run(BOOTED, es, crypto, late);
            var end := h.held.at + h.held.window;
            && h.held.cycle == h.cycle && h.armedAt <= h.held.at
            && ((AwaitingReply(h) <==> h.now < end) <==> h.now / WORD == end / WORD)
  {
    var h := Run(BOOTED, es, crypto, late);
    RunSound(BOOTED, es, crypto, late);
    RunHoldSound(BOOTED, es, crypto, late);
    ReadingRightIff(h.now, h.held.at + h.held.window);
  }

  lemma RunFirst(h: Hub, e: Event, es: seq<Event>, crypto: Crypto, late: nat)
    ensures Run(h, [e] + es, crypto, late) == Run(Step(h, e, crypto, late), es, crypto, late)
  {
    assert ([e] + es)[1..] == es;
  }

  /** Armed, and then asked by a hub in pairing mode; `builds` whether the reply can be built. */
  function ArmedAndAsked(id: NodeId, hub: NodeId, builds: bool): seq<Event> {
    [Switch(true, id)] + ([Receive(Frame(DISCOVER_REQ, hub, 0, []), NO_CHALLENGE, builds)] + [])
  }

  lemma AfterArmedAndAsked(h: Hub, id: NodeId, hub: NodeId, builds: bool, crypto: Crypto, late: nat)
    ensures var armed := Arm(h, id);
            Run(h, ArmedAndAsked(id, hub, builds), crypto, late)
              == Answer(armed.(ctx := armed.ctx.(stage := SENT_DISCOVER_RESP)), builds, DiscoverResp(id, hub))
  {
    var asked := Receive(Frame(DISCOVER_REQ, hub, 0, []), NO_CHALLENGE, builds);
    RunFirst(h, Switch(true, id), [asked] + [], crypto, late);
    RunFirst(Arm(h, id), asked, [], crypto, late);
  }

  /** The failing case happens: armed and asked within the last five seconds before the clock wraps, the responder has
      replied and yet the loop does not hold the radio for it. */
  lemma HoldLostAtTheWrap(id: NodeId, hub: NodeId, crypto: Crypto, late: nat) returns (es: seq<Event>)
    ensures var h := Run(BOOTED, es, crypto, late);
            && h.replies == [DiscoverResp(id, hub)] && h.armReplies == 0 && h.ctx.stage == SENT_DISCOVER_RESP
            && h.now < h.held.at + h.held.window && !AwaitingReply(h)
  {
    es := [Wait(WORD - 1000)] + ArmedAndAsked(id, hub, true);
    var h1 := Step(BOOTED, Wait(WORD - 1000), crypto, late);
    RunFirst(BOOTED, Wait(WORD - 1000), ArmedAndAsked(id, hub, true), crypto, late);
    AfterArmedAndAsked(h1, id, hub, true, crypto, late);
    assert Clock(WORD - 1000 + MID_ATTEMPT_HOLD) == MID_ATTEMPT_HOLD - 1000;
  }

  function From(cmd: Command, hub: NodeId, id: NodeId, data: Bytes, random: Challenge): Event {
    Receive(Frame(cmd, hub, id, data), random, true)
  }

  /** The frames of a hub that pairs the responder, from its 0x28 to the 0x3C that verifies the address. */
  function Pairing(id: NodeId, hub: NodeId, drawn: Challenge, wrapped: Key, over: Challenge): seq<Event> {
    [From(DISCOVER_REQ, hub, 0, [], NO_CHALLENGE), From(DISCOVER_CONFIRM, hub, id, [], NO_CHALLENGE),
     From(KEY_INIT, hub, id, [], drawn), From(KEY_TRANSFER, hub, id, wrapped, NO_CHALLENGE),
     From(ADDRESS_REQ, hub, id, [], NO_CHALLENGE), From(CHALLENGE_REQ, hub, id, over, NO_CHALLENGE)]
  }

  lemma RunTail(h: Hub, es: seq<Event>, i: nat, crypto: Crypto, late: nat)
    requires i < |es|
    ensures Run(h, es[i..], crypto, late) == Run(Step(h, es[i], crypto, late), es[i + 1..], crypto, late)
  {
    assert es[i..][1..] == es[i + 1..];
  }

  /** The first three frames take a responder just armed to its challenge. */
  lemma PairingBegins(h: Hub, es: seq<Event>, id: NodeId, hub: NodeId, drawn: Challenge, wrapped: Key, over: Challenge,
                      crypto: Crypto, late: nat) returns (g: Hub)
    requires h.ctx == BLANK.(throwawayId := id, stage := ARMED_IDLE)
    requires es == Pairing(id, hub, drawn, wrapped, over)
    ensures Run(h, es, crypto, late) == Run(g, es[3..], crypto, late)
    ensures g.ctx == Context(SENT_CHALLENGE, id, drawn, hub, NO_KEY)
    ensures g.replies == h.replies + [DiscoverResp(id, hub), ConfirmAck(id, hub), ChallengeReq(id, hub, drawn)]
  {
    var h1 := Step(h, es[0], crypto, late);
    var h2 := Step(h1, es[1], crypto, late);
    g := Step(h2, es[2], crypto, late);
    assert es[0..] == es;
    RunTail(h, es, 0, crypto, late);
    RunTail(h1, es, 1, crypto, late);
    RunTail(h2, es, 2, crypto, late);
  }

  lemma PairingEnds(h: Hub, es: seq<Event>, id: NodeId, hub: NodeId, drawn: Challenge, wrapped: Key, over: Challenge,
                    key: Key, crypto: Crypto, late: nat)
    requires h.ctx == Context(SENT_CHALLENGE, id, drawn, hub, NO_KEY)
    requires es == Pairing(id, hub, drawn, wrapped, over) && CryptKey(crypto, drawn, wrapped) == Some(key)
    ensures var g := Run(h, es[3..], crypto, late);
            && g.ctx == Context(SENT_ADDRESS_RESP, id, drawn, hub, key)
            && g.replies == h.replies + [KeyConfirm(id, hub), AddressResp(id, hub), ChallengeResp(id, hub, over, key)]
  {
    assert wrapped[..AES_KEY_SIZE] == wrapped && over[..HMAC_SIZE] == over;
    var h1 := Step(h, es[3], crypto, late);
    var h2 := Step(h1, es[4], crypto, late);
    RunTail(h, es, 3, crypto, late);
    RunTail(h1, es, 4, crypto, late);
    RunTail(h2, es, 5, crypto, late);
  }

  /** For every key and both challenges a whole pairing runs through: armed, asked, given a challenge, sent the key
      under its block and asked for the address, the responder sends these six replies, the last under that very
      key. */
  lemma ExtractionHappens(id: NodeId, hub: NodeId, drawn: Challenge, key: Key, over: Challenge,
                          crypto: Crypto, late: nat)
      returns (es: seq<Event>)
    requires crypto(drawn).Some?
    ensures |es| == 7 && es[4].Receive? && |es[4].frame.data| == 16
    ensures forall i :: 0 <= i < 16 ==> es[4].frame.data[i] == ByteXor(key[i], crypto(drawn).value[i])
    ensures var h := Run(BOOTED, es, crypto, late);
            && h.ctx.recoveredKey == key && h.ctx.hubNodeId == hub
            && h.replies == [DiscoverResp(id, hub), ConfirmAck(id, hub), ChallengeReq(id, hub, drawn),
                             KeyConfirm(id, hub), AddressResp(id, hub), ChallengeResp(id, hub, over, key)]
  {
    var wrapped := CryptKey(crypto, drawn, key).value;
    var pairing := Pairing(id, hub, drawn, wrapped, over);
    es := [Switch(true, id)] + pairing;
    RunFirst(BOOTED, Switch(true, id), pairing, crypto, late);
    CryptTwice(crypto, drawn, key);
    var g := PairingBegins(Arm(BOOTED, id), pairing, id, hub, drawn, wrapped, over, crypto, late);
    PairingEnds(g, pairing, id, hub, drawn, wrapped, over, key, crypto, late);
  }

  // --- Holds left over from an earlier arm cycle ---

  /** A run of one arm cycle in which nothing was sent or recovered. */
  ghost predicate Quiet(g: Hub, es: seq<Event>, crypto: Crypto, late: nat) {
    var h := Run(g, es, crypto, late);
    h.cycle == g.cycle && |h.replies| == |g.replies| && !h.extracted
  }

  /** Cycles and replies only ever grow, and a key once recovered stays so for the cycle. */
  ghost predicate Grown(h: Hub, g: Hub) {
    && h.cycle <= g.cycle && |h.replies| <= |g.replies|
    && (h.cycle == g.cycle ==> g.armedAt == h.armedAt && (h.extracted ==> g.extracted))
  }

  lemma HandleGrown(h: Hub, f: Frame, random: Challenge, builds: bool, crypto: Crypto)
    ensures var g := Handle(h, f, random, builds, crypto);
            Grown(h, g) && (Progress(h, g) ==> |h.replies| < |g.replies| || g.extracted)
  {
  }

  lemma StepGrown(h: Hub, e: Event, crypto: Crypto, late: nat)
    ensures var g := Step(h, e, crypto, late);
            Grown(h, g) && (Progress(h, g) ==> |h.replies| < |g.replies| || g.extracted)
  {
    if e.Receive? { HandleGrown(h, e.frame, e.random, e.builds, crypto); }
  }

  lemma {:induction false} RunGrown(h: Hub, es: seq<Event>, crypto: Crypto, late: nat)
    ensures Grown(h, Run(h, es, crypto, late))
    decreases |es|
  {
    if es != [] {
      StepGrown(h, es[0], crypto, late);
      RunGrown(Step(h, es[0], crypto, late), es[1..], crypto, late);
    }
  }

  lemma {:induction false} QuietKeepsHold(h: Hub, es: seq<Event>, crypto: Crypto, late: nat)
    requires Quiet(h, es, crypto, late)
    ensures Run(h, es, crypto, late).hold == h.hold && Run(h, es, crypto, late).armedAt == h.armedAt
    decreases |es|
  {
    if es != [] {
      var g := Step(h, es[0], crypto, late);
      StepGrown(h, es[0], crypto, late);
      StepFollows(h, es[0], crypto, late);
      RunGrown(g, es[1..], crypto, late);
      QuietKeepsHold(g, es[1..], crypto, late);
    }
  }

  /** The deadline a hub finds when it is armed shows as past during the whole cycle to come. */
  predicate StaysPast(h: Hub, late: nat) {
    h.hold <= Clock(h.now) && (h.hold == 0 || h.now / WORD == (h.now + AUTO_OFF + late) / WORD)
  }

  lemma NeverHeld(h: Hub, id: NodeId, es: seq<Event>, crypto: Crypto, late: nat)
    requires Sound(h, late) && StaysPast(h, late) && Quiet(Arm(h, id), es, crypto, late)
    ensures !AwaitingReply(Run(Arm(h, id), es, crypto, late))
  {
    var g := Run(Arm(h, id), es, crypto, late);
    QuietKeepsHold(Arm(h, id), es, crypto, late);
    RunSound(Arm(h, id), es, crypto, late);
    if g.ctx.stage != DISARMED && h.hold > 0 { SameLap(h.now, g.now, h.now + AUTO_OFF + late); }
  }

  /** On one lap of the clock readings are in order. */
  lemma SameLap(a: nat, b: nat, c: nat)
    requires a <= b <= c && a / WORD == c / WORD
    ensures Clock(a) <= Clock(b)
  {
    assert a == a / WORD * WORD + Clock(a) && b == b / WORD * WORD + Clock(b);
    assert a / WORD <= b / WORD <= c / WORD;
  }

  /** Armed, asked with nothing to reply, and `d` ms gone by. */
  lemma AskedAndWaited(h: Hub, id: NodeId, hub: NodeId, d: nat, crypto: Crypto, late: nat) returns (es: seq<Event>)
    requires Sound(h, late) && d <= AUTO_OFF + late
    ensures var g := Run(Arm(h, id), es, crypto, late);
            && Quiet(Arm(h, id), es, crypto, late)
            && g.ctx.stage == SENT_DISCOVER_RESP && g.hold == h.hold && g.now == h.now + d
  {
    var asked := Receive(Frame(DISCOVER_REQ, hub, 0, []), NO_CHALLENGE, false);
    var g0 := Arm(h, id);
    var g := Step(g0, asked, crypto, late);
    var wait: seq<Event>;
    if g.grace.None? || h.now + d <= g.grace.value.due + late {
      wait := [Wait(d)] + [];
      RunFirst(g, Wait(d), [], crypto, late);
    } else {
      var first := if g.grace.value.due > h.now then g.grace.value.due - h.now else 0;
      var g1 := Step(g, Wait(first), crypto, late);
      var g2 := Step(g1, FireGrace, crypto, late);
      wait := [Wait(first)] + ([FireGrace] + ([Wait(d - first)] + []));
      RunFirst(g, Wait(first), [FireGrace] + ([Wait(d - first)] + []), crypto, late);
      RunFirst(g1, FireGrace, [Wait(d - first)] + [], crypto, late);
      RunFirst(g2, Wait(d - first), [], crypto, late);
    }
    es := [asked] + wait;
    RunFirst(g0, asked, wait, crypto, late);
  }

  /** A run that is held by the deadline it found. */
  lemma HeldByAStaleDeadline(h: Hub, id: NodeId, hub: NodeId, crypto: Crypto, late: nat) returns (es: seq<Event>)
    requires Sound(h, late) && !StaysPast(h, late)
    ensures Quiet(Arm(h, id), es, crypto, late) && AwaitingReply(Run(Arm(h, id), es, crypto, late))
  {
    if h.hold > Clock(h.now) {
      es := AskedAndWaited(h, id, hub, 0, crypto, late);
    } else {
      var wrap := (h.now / WORD + 1) * WORD;
      NextLap(h.now, h.now + AUTO_OFF + late);
      es := AskedAndWaited(h, id, hub, wrap - h.now, crypto, late);
    }
  }

  lemma NextLap(a: nat, b: nat)
    requires a <= b && a / WORD != b / WORD
    ensures var wrap := (a / WORD + 1) * WORD; a < wrap <= b && Clock(wrap) == 0
  {
    Residue(0, a / WORD + 1);
    assert a == a / WORD * WORD + Clock(a) && b == b / WORD * WORD + Clock(b);
    assert a / WORD < b / WORD;
  }

  /** Arming does not clear the deadline of an earlier cycle. In every reachable hub, what it finds decides: no run of
      the new cycle in which nothing could be sent or recovered ever holds the radio, if and only if the deadline found
      is not ahead of the clock and either was never set or the clock does not wrap within the cycle. */
  lemma NeverHeldIff(pre: seq<Event>, id: NodeId, crypto: Crypto, late: nat)
    ensures var h := Run(BOOTED, pre, crypto, late);
            (forall es :: Quiet(Arm(h, id), es, crypto, late) ==> !AwaitingReply(Run(Arm(h, id), es, crypto, late)))
              <==> StaysPast(h, late)
  {
    var h := Run(BOOTED, pre, crypto, late);
    RunSound(BOOTED, pre, crypto, late);
    if StaysPast(h, late) {
      forall es | Quiet(Arm(h, id), es, crypto, late) ensures !AwaitingReply(Run(Arm(h, id), es, crypto, late)) {
        NeverHeld(h, id, es, crypto, late);
      }
    } else {
      var es := HeldByAStaleDeadline(h, id, 0, crypto, late);
    }
  }

  /** No wrap is needed: asked once with a reply and, re-armed at the same instant, once without. */
  lemma StaleHoldAtOnce(id: NodeId, hub: NodeId, crypto: Crypto, late: nat) returns (es: seq<Event>)
    ensures var h := Run(BOOTED, es, crypto, late);
            && h.now == 0 && h.ctx.stage == SENT_DISCOVER_RESP && |h.replies| == h.armReplies && !h.extracted
            && h.held.cycle < h.cycle && AwaitingReply(h)
  {
    es := ArmedAndAsked(id, hub, true) + ArmedAndAsked(id, hub, false);
    RunThen(BOOTED, ArmedAndAsked(id, hub, true), ArmedAndAsked(id, hub, false), crypto, late);
    AfterArmedAndAsked(BOOTED, id, hub, true, crypto, late);
    AfterArmedAndAsked(Run(BOOTED, ArmedAndAsked(id, hub, true), crypto, late), id, hub, false, crypto, late);
  }

  /** After a wrap even a deadline that was over long ago holds the radio again. */
  lemma StaleHoldAfterTheWrap(id: NodeId, hub: NodeId, crypto: Crypto, late: nat) returns (es: seq<Event>)
    ensures var h := Run(BOOTED, es, crypto, late);
            && h.ctx.stage == SENT_DISCOVER_RESP && |h.replies| == h.armReplies && !h.extracted
            && h.held.at + h.held.window < h.now && AwaitingReply(h)
  {
    es := ([Wait(WORD - 10000)] + ArmedAndAsked(id, hub, true)) + AskedAgain(id, hub);
    var h1 := Step(BOOTED, Wait(WORD - 10000), crypto, late);
    RunThen(BOOTED, [Wait(WORD - 10000)] + ArmedAndAsked(id, hub, true), AskedAgain(id, hub), crypto, late);
    RunFirst(BOOTED, Wait(WORD - 10000), ArmedAndAsked(id, hub, true), crypto, late);
    AfterArmedAndAsked(h1, id, hub, true, crypto, late);
    AfterAskedAgain(Run(h1, ArmedAndAsked(id, hub, true), crypto, late), id, hub, crypto, late);
  }

  /** Disarmed, armed again eleven seconds later and asked, with nothing to reply. */
  function AskedAgain(id: NodeId, hub: NodeId): seq<Event> {
    [Switch(false, id)] + ([Wait(11000)] + ArmedAndAsked(id, hub, false))
  }

  lemma AfterAskedAgain(h: Hub, id: NodeId, hub: NodeId, crypto: Crypto, late: nat)
    requires h.now == WORD - 10000 && h.hold == WORD - 5000 && h.held.at + h.held.window == WORD - 5000
    requires h.grace.None? && (h.autoOff.Some? ==> h.autoOff.value.due >= WORD + 1000)
    ensures var g := Run(h, AskedAgain(id, hub), crypto, late);
            && g.ctx.stage == SENT_DISCOVER_RESP && |g.replies| == g.armReplies && !g.extracted
            && g.held.at + g.held.window < g.now && AwaitingReply(g)
  {
    var h1 := Disarm(h);
    var h2 := Step(h1, Wait(11000), crypto, late);
    RunFirst(h, Switch(false, id), [Wait(11000)] + ArmedAndAsked(id, hub, false), crypto, late);
    RunFirst(h1, Wait(11000), ArmedAndAsked(id, hub, false), crypto, late);
    AfterArmedAndAsked(h2, id, hub, false, crypto, late);
  }

  lemma {:induction false} RunThen(h: Hub, a: seq<Event>, b: seq<Event>, crypto: Crypto, late: nat)
    ensures Run(h, a + b, crypto, late) == Run(Run(h, a, crypto, late), b, crypto, late)
    decreases |a|
  {
    if a == [] {
      assert a + b == b;
    } else {
      assert (a + b)[1..] == a[1..] + b;
      RunThen(Step(h, a[0], crypto, late), a[1..], b, crypto, late);
    }
  }
}
