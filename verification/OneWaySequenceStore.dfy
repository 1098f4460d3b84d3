/** The store of rolling counters: one entry per controller address, backed by preference storage that may fail
    to stage, fail to commit, or commit and still report failure. */
module OneWaySequenceStore {
  import opened Wrappers
  import opened PreferenceKey
  import opened SequenceCounter
  import opened Words

  function Get(m: map<Word, U16>, k: Word): Option<U16> { if k in m then Some(m[k]) else None }

  /** What a sync, whatever it reports, may do to the durable and the staged value of one key. */
  ghost predicate Settled(durable: Option<U16>, staged: Option<U16>, durable': Option<U16>, staged': Option<U16>) {
    && (durable' == durable || (staged.Some? && durable' == staged))
    && (staged' == staged || staged' == None)
  }

  /** Preference storage. `durable` survives a reboot, `staged` does not. */
  class Flash {
    var durable: map<Word, U16>
    var staged: map<Word, U16>
    ghost var refusals: nat

    method Save(key: Word, value: U16) returns (ok: bool)
      modifies this`durable, this`staged
      ensures durable == old(durable)
      ensures staged == old(staged)[key := value] || (!ok && staged == old(staged))
    {
      ok := *;
      var stages: bool := *;
      if ok || stages { staged := staged[key := value]; }
    }

    /** Commits what is staged. A failed sync may have committed, kept or lost any staged entry. */
    method Sync() returns (ok: bool)
      modifies this`durable, this`staged
      ensures ok ==> durable == old(durable) + old(staged) && staged == map[]
      ensures forall k: Word ::
        Get(durable, k) == Get(old(durable), k) || (k in old(staged) && Get(durable, k) == Get(old(staged), k))
      ensures forall k: Word :: Get(staged, k) == Get(old(staged), k) || Get(staged, k) == None
    {
      ok := *;
      if ok {
        durable, staged := durable + staged, map[];
      } else {
        var written: set<Word> := *;
        var kept: set<Word> := *;
        durable := durable + (map k | k in staged && k in written :: staged[k]);
        staged := map k | k in staged && k in kept :: staged[k];
      }
    }

    /** save() then sync(), counting refusals. `saved` tells whether the value was ever staged, which a failed save may
        hide. */
    method Persist(key: Word, value: U16) returns (ok: bool, ghost saved: bool)
      modifies this
      ensures ok ==> saved && Get(durable, key) == Some(value) && Get(staged, key) == None
      ensures refusals == old(refusals) + if ok then 0 else 1
      ensures var s := if saved then Some(value) else Get(old(staged), key);
              Settled(Get(old(durable), key), s, Get(durable, key), Get(staged, key))
      ensures forall k: Word :: k != key ==>
        Settled(Get(old(durable), k), Get(old(staged), k), Get(durable, k), Get(staged, k))
    {
      var before := staged;
      ok := Save(key, value);
      saved := staged == before[key := value];
      if ok { ok := Sync(); }
      if !ok { refusals := refusals + 1; }
    }
  }

  datatype Counter = Counter(nodeId: Address, next: U16, reserved: U16)

  ghost predicate Distinct(cs: seq<Counter>) {
    forall i, j :: 0 <= i < j < |cs| ==> cs[i].nodeId != cs[j].nodeId
  }

  /** The entry for an address, first match first. */
  function Lookup(cs: seq<Counter>, id: Address): (r: Option<Counter>)
    ensures r.Some? ==> r.value in cs && r.value.nodeId == id
    ensures r.None? ==> forall i :: 0 <= i < |cs| ==> cs[i].nodeId != id
  {
    if cs == [] then None else if cs[0].nodeId == id then Some(cs[0]) else Lookup(cs[1..], id)
  }

  lemma {:induction false} LookupAt(cs: seq<Counter>, id: Address, i: nat)
    requires i < |cs| && cs[i].nodeId == id && forall j :: 0 <= j < i ==> cs[j].nodeId != id
    ensures Lookup(cs, id) == Some(cs[i])
    decreases i
  {
    if i > 0 { LookupAt(cs[1..], id, i - 1); }
  }

  lemma {:induction false} LookupUpdate(cs: seq<Counter>, i: nat, c: Counter, id: Address)
    requires i < |cs| && c.nodeId == cs[i].nodeId && Distinct(cs)
    ensures Lookup(cs[i := c], id) == if id == c.nodeId then Some(c) else Lookup(cs, id)
  {
    if i > 0 {
      LookupUpdate(cs[1..], i - 1, c, id);
      assert cs[i := c][1..] == cs[1..][i - 1 := c];
    }
  }

  lemma {:induction false} LookupAppend(cs: seq<Counter>, c: Counter, id: Address)
    ensures Lookup(cs + [c], id) ==
      if Lookup(cs, id).Some? then Lookup(cs, id) else if id == c.nodeId then Some(c) else None
  {
    if cs != [] {
      LookupAppend(cs[1..], c, id);
      assert (cs + [c])[1..] == cs[1..] + [c];
    }
  }

  /** What another identity's flash traffic may do to a counter: nothing in RAM, and at most commit or lose its
      staged value. */
  ghost predicate Disturbed(c: Cell, c': Cell) {
    c'.ram == c.ram && Settled(c.durable, c.staged, c'.durable, c'.staged)
  }

  /** Between two views of all counters, every one but `id`'s was at most disturbed. */
  ghost predicate Others(id: Address, c: imap<Address, Cell>, c': imap<Address, Cell>) {
    forall a :: a != id ==> a in c && a in c' && Disturbed(c[a], c'[a])
  }

  lemma OthersChain(id: Address, a: imap<Address, Cell>, b: imap<Address, Cell>, c: imap<Address, Cell>)
    requires Others(id, a, b) && Others(id, b, c)
    ensures Others(id, a, c)
  {
    forall x | x != id ensures x in a && x in c && Disturbed(a[x], c[x]) {
      assert Disturbed(a[x], b[x]) && Disturbed(b[x], c[x]);
    }
  }

  /** Such a disturbance is two steps of the counter machine, so runs of the whole store are runs of each counter. */
  lemma DisturbanceIsARun(c: Cell, c': Cell) returns (es: seq<Event>)
    requires Disturbed(c, c')
    ensures CellRun(c, es) == (c', []) && forall e :: e in es ==> e.Commit? || e.Drop?
  {
    OneStep(c, Commit);
    OneStep(c, Drop);
    if c'.durable == c.durable {
      es := if c'.staged == c.staged then [] else [Drop];
    } else {
      es := if c'.staged == c.staged then [Commit] else [Commit, Drop];
      OneStep(CellStep(c, Commit).0, Drop);
      assert [Commit, Drop][1..] == [Drop];
    }
  }

  class Store {
    const flash: Flash
    var counters: seq<Counter>

    ghost predicate Valid()
      reads this
    {
      Distinct(counters)
    }

    /** An address that is not registered is a powered-down counter. */
    function CellOf(id: Address): Cell
      reads this, flash
    {
      var c := Lookup(counters, id);
      Cell(if c.Some? then On(c.value.next, c.value.reserved) else Off,
           Get(flash.durable, Key(id)), Get(flash.staged, Key(id)))
    }

    /** Every counter at once. */
    ghost function Cells(): imap<Address, Cell>
      reads this, flash
    {
      imap a: Address :: CellOf(a)
    }

    predicate Registered(id: Address)
      reads this
    {
      Lookup(counters, id).Some?
    }

    /** The number the next command of a registered address will carry. */
    function NextOf(id: Address): U16
      requires Registered(id)
      reads this
    {
      Lookup(counters, id).value.next
    }

    /** The last reserved number of a registered address has been handed out. */
    predicate Exhausted(id: Address)
      requires Registered(id)
      reads this
    {
      Lookup(counters, id).value.next == Lookup(counters, id).value.reserved
    }

    constructor (flash: Flash)
      ensures Valid() && this.flash == flash && counters == []
    {
      this.flash := flash;
      counters := [];
    }

    method Find(id: Address) returns (i: nat)
      ensures i <= |counters|
      ensures forall j :: 0 <= j < i ==> counters[j].nodeId != id
      ensures i < |counters| ==> counters[i].nodeId == id && Lookup(counters, id) == Some(counters[i])
      ensures i == |counters| <==> !Registered(id)
    {
      i := 0;
      while i < |counters|
        invariant i <= |counters|
        invariant forall j :: 0 <= j < i ==> counters[j].nodeId != id
      {
        if counters[i].nodeId == id {
          LookupAt(counters, id, i);
          return;
        }
        i := i + 1;
      }
    }

    /** Registers an address once and resumes from the higher of flash and `initial`; every other address, and an
        address already registered, is untouched. */
    method AddIdentity(id: Address, initial: U16)
      requires Valid()
      modifies this`counters
      ensures Valid() && forall a :: Registered(a) <==> a == id || old(Registered(a))
      ensures CellRun(old(CellOf(id)), [Boot(initial)]) == (CellOf(id), [])
      ensures forall a :: a != id ==> CellOf(a) == old(CellOf(a))
    {
      var i := Find(id);
      OneStep(CellOf(id), Boot(initial));
      if i < |counters| { return; }
      var persisted := Get(flash.durable, Key(id));
      var next := if persisted.Some? then (if persisted.value > initial then persisted.value else initial) else initial;
      Append(Counter(id, next, next));
    }

    method Append(c: Counter)
      requires Valid() && !Registered(c.nodeId)
      modifies this`counters
      ensures Valid() && Lookup(counters, c.nodeId) == Some(c)
      ensures forall a :: a != c.nodeId ==> Lookup(counters, a) == old(Lookup(counters, a))
    {
      forall a ensures Lookup(counters + [c], a) ==
                       if Lookup(counters, a).Some? then Lookup(counters, a)
                       else if a == c.nodeId then Some(c) else None {
        LookupAppend(counters, c, a);
      }
      counters := counters + [c];
    }

    /** save() then sync() under the key of a registered address, seen by every counter of the store. */
    method Persist(id: Address, value: U16) returns (ok: bool, ghost saved: bool)
      requires Valid() && Registered(id)
      modifies flash
      ensures Valid()
      ensures var c, c' := old(CellOf(id)), CellOf(id);
              if ok then c' == Cell(c.ram, Some(value), None)
              else Disturbed(if saved then c.(staged := Some(value)) else c, c')
      ensures forall a :: a != id ==> Disturbed(old(CellOf(a)), CellOf(a))
      ensures flash.refusals == old(flash.refusals) + if ok then 0 else 1
    {
      forall a: Address | a != id ensures Key(a) != Key(id) { if Key(a) == Key(id) { KeyInjective(a, id); } }
      ok, saved := flash.Persist(Key(id), value);
    }

    /** Reserves the next block of the counter at `i` in flash, then in RAM. A reservation that was not confirmed
        leaves the RAM counter alone, whatever reached flash. */
    method ReserveBlock(i: nat) returns (ok: bool, ghost steps: seq<Event>)
      requires Valid() && i < |counters| && Lookup(counters, counters[i].nodeId) == Some(counters[i])
      requires counters[i].next == counters[i].reserved
      modifies this`counters, flash
      ensures Valid() && i < |counters| && counters[i].nodeId == old(counters[i].nodeId)
      ensures forall a :: Registered(a) <==> old(Registered(a))
      ensures CellRun(old(CellOf(counters[i].nodeId)), steps) == (CellOf(counters[i].nodeId), [])
      ensures Lookup(counters, counters[i].nodeId) == Some(counters[i]) && counters[i].next == old(counters[i].next)
      ensures ok ==> steps == [Reserve] && counters[i].reserved == (counters[i].next + STRIDE) % RING
      ensures !ok ==> counters == old(counters)
      ensures forall e :: e in steps ==> !e.Boot? && !e.Crash? && !e.Transmit?
      ensures forall a :: a != counters[i].nodeId ==> Disturbed(old(CellOf(a)), CellOf(a))
      ensures flash.refusals == old(flash.refusals) + if ok then 0 else 1
    {
      var id := counters[i].nodeId;
      ghost var before := CellOf(id);
      var end := (counters[i].next + STRIDE) % RING;
      ghost var saved: bool;
      ok, saved := Persist(id, end);
      if ok {
        SetCounter(i, counters[i].(reserved := end));
        OneStep(before, Reserve);
        steps := [Reserve];
      } else {
        steps := DisturbanceIsARun(if saved then CellStep(before, Stage).0 else before, CellOf(id));
        if saved { steps := Prefixed(before, Stage, steps, CellOf(id), []); }
      }
    }

    /** Hands out the next number of the counter at `i`, which has one reserved. */
    method HandOutAt(i: nat) returns (out: U16)
      requires Valid() && i < |counters| && Lookup(counters, counters[i].nodeId) == Some(counters[i])
      requires counters[i].next != counters[i].reserved
      modifies this`counters
      ensures Valid() && forall a :: Registered(a) <==> old(Registered(a))
      ensures i < |counters| && counters[i].nodeId == old(counters[i].nodeId)
      ensures CellRun(old(CellOf(counters[i].nodeId)), [HandOut]) == (CellOf(counters[i].nodeId), [out])
      ensures Lookup(counters, counters[i].nodeId) == Some(counters[i])
      ensures out == old(counters[i].next) && counters[i].next == (out + 1) % RING
      ensures forall a :: a != counters[i].nodeId ==> CellOf(a) == old(CellOf(a))
    {
      ghost var before := CellOf(counters[i].nodeId);
      out := counters[i].next;
      SetCounter(i, counters[i].(next := (counters[i].next + 1) % RING));
      OneStep(before, HandOut);
    }

    /** Hands out the next number of an address, reserving a block in flash first when the last one is used up.
        `steps` are the counter events this call amounts to. It fails only for an unknown address or when a block was
        needed and flash refused it; then nothing is handed out. */
    method Next(id: Address) returns (ok: bool, out: U16, ghost steps: seq<Event>)
      requires Valid()
      modifies this`counters, flash
      ensures Valid() && forall a :: Registered(a) <==> old(Registered(a))
      ensures !Registered(id) ==> !ok && unchanged(this) && unchanged(flash)
      ensures Registered(id) ==> CellRun(old(CellOf(id)), steps) == (CellOf(id), if ok then [out] else [])
      ensures forall e :: e in steps ==> !e.Boot? && !e.Crash? && !e.Transmit?
      ensures ok ==> Registered(id) && out == old(NextOf(id)) && NextOf(id) == (out + 1) % RING
      ensures !ok && Registered(id) ==>
        NextOf(id) == old(NextOf(id)) && old(Exhausted(id)) && flash.refusals == old(flash.refusals) + 1
      ensures ok ==> flash.refusals == old(flash.refusals)
      ensures ok && !old(Exhausted(id)) ==>
        unchanged(flash) && Lookup(counters, id).value.reserved == old(Lookup(counters, id).value.reserved)
      ensures ok && old(Exhausted(id)) ==>
        CellOf(id) == Cell(On((out + 1) % 65536, (out + 8) % 65536), Some((out + 8) % 65536), None)
      ensures forall a :: a != id ==> Disturbed(old(CellOf(a)), CellOf(a))
    {
      ok, out, steps := false, 0, [];
      var i := Find(id);
      if i == |counters| { return; }
      ghost var before := CellOf(id);
      if counters[i].next == counters[i].reserved {
        var reserved, how := ReserveBlock(i);
        steps := how;
        if !reserved { return; }
        CloseMod(counters[i].next, counters[i].next + STRIDE);
      }
      out := HandOutAt(i);
      ok := true;
      if steps == [] {
        steps := [HandOut];
      } else {
        steps := Prefixed(before, Reserve, [HandOut], CellOf(id), [out]);
      }
    }

    method SetCounter(i: nat, c: Counter)
      requires Valid() && i < |counters| && c.nodeId == counters[i].nodeId
      modifies this`counters
      ensures Valid() && counters == old(counters)[i := c]
      ensures forall a :: Lookup(counters, a) == if a == c.nodeId then Some(c) else old(Lookup(counters, a))
      ensures forall a :: a != c.nodeId ==> CellOf(a) == old(CellOf(a))
    {
      forall a ensures Lookup(counters[i := c], a) == if a == c.nodeId then Some(c) else Lookup(counters, a) {
        LookupUpdate(counters, i, c, a);
      }
      ghost var before: seq<Counter> := counters;
      assert forall j :: 0 <= j < |counters| ==> before[i := c][j].nodeId == before[j].nodeId;
      counters := counters[i := c];
    }

    /** Forces a counter to `value`, backwards too. On failure the RAM counter stands, whatever reached flash. */
    method Seed(id: Address, value: U16) returns (ok: bool)
      requires Valid()
      modifies this`counters, flash
      ensures Valid() && forall a :: Registered(a) <==> old(Registered(a))
      ensures ok ==> Registered(id) && CellOf(id) == Cell(On(value, value), Some(value), None)
      ensures flash.refusals == old(flash.refusals) + if Registered(id) && !ok then 1 else 0
      ensures !ok ==> counters == old(counters)
      ensures !Registered(id) ==> !ok && unchanged(flash)
      ensures forall a :: a != id ==> Disturbed(old(CellOf(a)), CellOf(a))
    {
      var i := Find(id);
      if i == |counters| { return false; }
      var persisted, saved := Persist(id, value);
      if !persisted { return false; }
      SetCounter(i, counters[i].(next := value, reserved := value));
      return true;
    }

    method Peek(id: Address) returns (r: Option<U16>)
      ensures r == if Registered(id) then Some(NextOf(id)) else None
    {
      var i := Find(id);
      r := if i < |counters| then Some(counters[i].next) else None;
    }
  }

  lemma OneStep(c: Cell, e: Event)
    ensures CellRun(c, [e]) == (CellStep(c, e).0, if CellStep(c, e).1.Some? then [CellStep(c, e).1.value] else [])
  {
    assert [e][1..] == [];
    assert forall v: U16 :: [v] + [] == [v];
  }

  /** What booting a counter makes of it: nothing if it is running, else the higher of flash and the setting, with
      nothing reserved and flash as it is. */
  lemma BootResumes(c: Cell, initial: U16, c': Cell)
    requires CellRun(c, [Boot(initial)]) == (c', [])
    ensures if c.ram.On? then c' == c
            else var first := if c.durable.Some? && c.durable.value > initial then c.durable.value else initial;
                 c' == Cell(On(first, first), c.durable, c.staged)
  {
    OneStep(c, Boot(initial));
  }

  lemma Prefixed(c: Cell, e: Event, es: seq<Event>, c': Cell, outs: seq<U16>) returns (all: seq<Event>)
    requires CellStep(c, e).1.None? && CellRun(CellStep(c, e).0, es) == (c', outs)
    ensures all == [e] + es && CellRun(c, all) == (c', outs)
  {
    all := [e] + es;
    assert all[1..] == es;
  }
}
