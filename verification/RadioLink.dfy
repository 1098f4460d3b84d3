/** The radio and the clock as an adversary: it decides what is heard, what fails and how long calls take, within the
    limits a driver promises. Time is unbounded; the program only ever reads it modulo 2^32. */
module RadioLink {
  import opened Words

  const HALF := 0x8000_0000

  const FREQ_CH1 := 868250000
  const FREQ_CH2 := 868950000
  const FREQ_CH3 := 869850000

  datatype Frame = Frame(cmd: Byte, src: NodeId, dst: NodeId, start: bool, lowPower: bool, data: seq<Byte>)

  /** What one blocking wait brought: nothing, a packet that does not parse, or a frame. */
  datatype Reception = Nothing | Unparsable | Received(frame: Frame)

  /** Why a frame is sent: a request, or the 0x3D that answers a challenge. */
  datatype Purpose = Ask | Prove

  /** `took` is how long a call was busy. */
  datatype RadioEvent =
    | Sent(purpose: Purpose, frame: Frame, freq: Word, preamble: U16, ok: bool)
    | Retuned(freq: Word, took: nat)
    | Sensed(incoming: bool, took: nat)
    | Waited(freq: Word, ms: Word, heard: Reception, took: nat)

  /** How long the events of a listen took together: its waits, its hops and its looks for a preamble. */
  function Lasted(seg: seq<RadioEvent>): nat {
    if seg == [] then 0
    else Lasted(seg[..|seg| - 1]) + if seg[|seg| - 1].Sent? then 0 else seg[|seg| - 1].took
  }

  lemma LastedGrows(seg: seq<RadioEvent>, e: RadioEvent)
    ensures Lasted(seg + [e]) == Lasted(seg) + if e.Sent? then 0 else e.took
  {
    assert (seg + [e])[..|seg|] == seg;
  }

  /** How far a wait may overshoot its timeout, how long one transmission and one short register access may take. */
  datatype Timing = Timing(late: nat, air: nat, spi: nat)

  type Limits = t: Timing | 1 <= t.late < 0x10_0000 && t.air < 0x10_0000 && t.spi < 0x10_0000 witness Timing(1, 0, 0)

  class Radio {
    const limits: Limits
    var now: nat
    var freq: Word
    ghost var trace: seq<RadioEvent>
    ghost var looks: seq<bool>

    /** millis() */
    function Millis(): Word
      reads this
    {
      now % WORD
    }

    method Spend(least: nat, most: nat)
      requires least <= most
      modifies this`now
      ensures old(now) + least <= now <= old(now) + most
    {
      var ms: nat :| least <= ms <= most;
      now := now + ms;
    }

    method Wait(ms: Word) returns (heard: Reception)
      modifies this`now, this`freq, this`trace
      ensures old(now) + 1 <= now <= old(now) + ms + limits.late
      ensures freq == old(freq) && trace == old(trace) + [Waited(freq, ms, heard, now - old(now))]
    {
      heard := *;
      Spend(1, ms + limits.late);
      trace := trace + [Waited(freq, ms, heard, now - old(now))];
    }

    method Send(frame: Frame, f: Word, preamble: U16, ghost purpose: Purpose) returns (ok: bool)
      modifies this`now, this`freq, this`trace
      ensures old(now) <= now <= old(now) + limits.air
      ensures freq == f || (!ok && freq == old(freq))
      ensures trace == old(trace) + [Sent(purpose, frame, f, preamble, ok)]
    {
      ok := *;
      var retuned: bool := *;
      if ok || retuned { freq := f; }
      Spend(0, limits.air);
      trace := trace + [Sent(purpose, frame, f, preamble, ok)];
    }

    method ChangeFrequency(f: Word)
      modifies this`now, this`freq, this`trace
      ensures old(now) <= now <= old(now) + limits.spi
      ensures freq == f && trace == old(trace) + [Retuned(f, now - old(now))]
    {
      freq := f;
      Spend(0, limits.spi);
      trace := trace + [Retuned(f, now - old(now))];
    }

    /** Preamble or sync word seen. */
    method Sense() returns (incoming: bool)
      modifies this`now, this`trace
      ensures old(now) <= now <= old(now) + limits.spi
      ensures trace == old(trace) + [Sensed(incoming, now - old(now))]
    {
      incoming := *;
      Spend(0, limits.spi);
      trace := trace + [Sensed(incoming, now - old(now))];
    }

    /** One carrier sense: whether it found the channel free. */
    method ChannelFree() returns (free: bool)
      modifies this`now, this`looks
      ensures old(now) <= now <= old(now) + limits.spi && looks == old(looks) + [free]
    {
      free := *;
      Spend(0, limits.spi);
      looks := looks + [free];
    }

    method Delay(ms: nat)
      modifies this`now
      ensures now == old(now) + ms
    {
      now := now + ms;
    }
  }

  /** A uint32 read as int32. */
  function Signed(w: Word): int { if w < HALF then w else w - WORD }

  function Plus(a: Word, b: Word): Word { (a + b) % WORD }

  /** Reading a deadline as a signed difference is exact across the wrap of the clock, as long as the window and the
      overshoot both stay below 2^31. */
  lemma TimeLeft(start: nat, window: Word, now: nat)
    requires window < HALF && start <= now <= start + window + HALF
    ensures Signed(Minus(Plus(start % WORD, window), now % WORD)) == start + window - now
  {
    var d := start + window - now;
    var q := now / WORD - start / WORD;
    var carry := (start % WORD + window) / WORD;
    assert Plus(start % WORD, window) - now % WORD == d + (q - carry) * WORD;
    Residue(d, q - carry);
  }

  /** A longer window never opens: the very first reading is already taken for past the deadline. */
  lemma WindowOpensIff(start: nat, window: Word)
    ensures Signed(Minus(Plus(start % WORD, window), start % WORD)) > 0 <==> 0 < window < HALF
  {
    var carry := (start % WORD + window) / WORD;
    Residue(window, -carry);
    assert Plus(start % WORD, window) - start % WORD == window + -carry * WORD;
  }
}
