/** Allocation of fee addresses: an in-memory counter, a persisted counter, and the
    records that hold what was allocated, under failures, crashes and key changes. */
module AddressAllocator {
  import opened Tickets
  import opened FeeXPubs

  // ---------- The generator ----------

  /** Deriving one child key. A rare index is an invalid child and is skipped; any other
      failure, such as an index in the hardened half, is final. */
  datatype Child = Key(pubKey: string) | InvalidChild | DeriveFailed

  /** The index that worked, if any, where the counter stopped, and how far it moved. */
  datatype Derivation = Derivation(index: Option<UInt32>, counter: UInt32, attempts: nat)

  /** The third invalid child in a row is an error. */
  const MAX_INVALID_CHILDREN := 2

  function Derive(child: UInt32 -> Child, last: UInt32, invalid: nat): Derivation
    decreases MAX_INVALID_CHILDREN + 1 - invalid
  {
    var next := AddU32(last, 1);
    match child(next)
    case Key(_) => Derivation(Some(next), next, invalid + 1)
    case DeriveFailed => Derivation(None, next, invalid + 1)
    case InvalidChild =>
      if invalid + 1 > MAX_INVALID_CHILDREN then Derivation(None, next, invalid + 1) else Derive(child, next, invalid + 1)
  }

  class AddressGenerator {
    const child: UInt32 -> Child
    const toAddress: string -> Option<string>
    const feeXPubID: UInt32
    var lastUsedIndex: UInt32

    constructor (xpub: FeeXPub, child: UInt32 -> Child, toAddress: string -> Option<string>)
      ensures feeXPubID == xpub.id && lastUsedIndex == xpub.lastUsedIdx
      ensures this.child == child && this.toAddress == toAddress
    {
      this.child, this.toAddress := child, toAddress;
      feeXPubID, lastUsedIndex := xpub.id, xpub.lastUsedIdx;
    }

    /** The skip loop ends at a child that has an address. */
    predicate YieldsAddress(last: UInt32) {
      var d := Derive(child, last, 0);
      d.index.Some? && child(d.counter).Key? && toAddress(child(d.counter).pubKey).Some?
    }

    /** The counter moves whether or not an address comes out. */
    method NextAddress() returns (r: Option<(string, UInt32)>)
      modifies this
      ensures lastUsedIndex == Derive(child, old(lastUsedIndex), 0).counter
      ensures r.Some? ==> Derive(child, old(lastUsedIndex), 0).index == Some(r.value.1) && child(r.value.1).Key?
                          && toAddress(child(r.value.1).pubKey) == Some(r.value.0)
      ensures r.Some? <==> YieldsAddress(old(lastUsedIndex))
    {
      var invalidChildren := 0;
      while true
        invariant invalidChildren <= MAX_INVALID_CHILDREN
        invariant Derive(child, lastUsedIndex, invalidChildren) == Derive(child, old(lastUsedIndex), 0)
        decreases MAX_INVALID_CHILDREN - invalidChildren
      {
        lastUsedIndex := AddU32(lastUsedIndex, 1);
        match child(lastUsedIndex) {
          case InvalidChild =>
            invalidChildren := invalidChildren + 1;
            if invalidChildren > MAX_INVALID_CHILDREN {
              return None;
            }
          case DeriveFailed =>
            return None;
          case Key(pubKey) =>
            var addr := toAddress(pubKey);
            if addr.None? {
              return None;
            }
            return Some((addr.value, lastUsedIndex));
        }
      }
    }
  }

  /** The active key's record has the index the skip loop ends at from the given counter. */
  ghost predicate IndexStored(was: Table, child: UInt32 -> Child, counter: UInt32, now: Table) {
    exists x :: IsActive(was, x) && now == AfterSetIndex(was, x, Derive(child, counter, 0).counter)
  }

  /** The caller holds a mutex throughout: take an index, write it, hand it out. When the
      write fails nothing is handed out. */
  method GetNewFeeAddress(addrGen: AddressGenerator, db: XPubBucket, readOk: bool, writeOk: bool)
    returns (r: Option<(string, UInt32)>)
    modifies addrGen, db
    ensures addrGen.lastUsedIndex == Derive(addrGen.child, old(addrGen.lastUsedIndex), 0).counter
    ensures r.Some? ==>
              && Derive(addrGen.child, old(addrGen.lastUsedIndex), 0).index == Some(r.value.1)
              && addrGen.child(r.value.1).Key? && addrGen.toAddress(addrGen.child(r.value.1).pubKey) == Some(r.value.0)
              && IndexStored(old(db.xpubs), addrGen.child, old(addrGen.lastUsedIndex), db.xpubs)
    ensures r.None? ==> db.xpubs == old(db.xpubs)
    ensures r.Some? <==> addrGen.YieldsAddress(old(addrGen.lastUsedIndex)) && readOk && writeOk
  {
    r := addrGen.NextAddress();
    if r.None? {
      return None;
    }
    var stored := db.SetLastAddressIndex(r.value.1, readOk, writeOk);
    if !stored {
      return None;
    }
  }

  /** The counter moves one to three places, only past invalid children; the index that
      comes out is where it stops, and is above the old counter exactly when the counter
      did not wrap. */
  lemma DeriveSkipsInvalid(child: UInt32 -> Child, last: UInt32)
    ensures var d := Derive(child, last, 0);
      && 1 <= d.attempts <= 3 && d.counter == AddU32(last, d.attempts)
      && (d.attempts > 1 ==> child(AddU32(last, 1)) == InvalidChild)
      && (d.attempts > 2 ==> child(AddU32(last, 2)) == InvalidChild)
      && (d.index.Some? <==> child(d.counter).Key?)
      && (d.index.Some? ==> d.index.value == d.counter)
      && (d.counter > last <==> last + d.attempts < 0x1_0000_0000)
  {
    var one, two, three := AddU32(last, 1), AddU32(last, 2), AddU32(last, 3);
    assert AddU32(one, 1) == two && AddU32(two, 1) == three;
    if child(one).InvalidChild? {
      assert Derive(child, last, 0) == Derive(child, one, 1);
      if child(two).InvalidChild? {
        assert Derive(child, one, 1) == Derive(child, two, 2);
      }
    }
  }

  /** The index that comes out is that of the first valid child among the next three, if
      all before it are invalid; three invalid children, or any other failure before a
      valid one, give none. */
  lemma DeriveSays(child: UInt32 -> Child, last: UInt32)
    ensures var one, two, three := (last + 1) % 0x1_0000_0000, (last + 2) % 0x1_0000_0000, (last + 3) % 0x1_0000_0000;
      Derive(child, last, 0).index ==
        if child(one).Key? then Some(one)
        else if child(one).InvalidChild? && child(two).Key? then Some(two)
        else if child(one).InvalidChild? && child(two).InvalidChild? && child(three).Key? then Some(three)
        else None
  {
    var one, two, three := AddU32(last, 1), AddU32(last, 2), AddU32(last, 3);
    assert AddU32(one, 1) == two && AddU32(two, 1) == three;
    if child(one).InvalidChild? {
      assert Derive(child, last, 0) == Derive(child, one, 1);
      if child(two).InvalidChild? {
        assert Derive(child, one, 1) == Derive(child, two, 2);
      }
    }
  }

  /** A request gets an address exactly if there is such an index and its key has one. */
  lemma YieldsSays(addrGen: AddressGenerator, last: UInt32)
    ensures addrGen.YieldsAddress(last) <==>
            match Derive(addrGen.child, last, 0).index
            case None => false
            case Some(idx) => addrGen.child(idx).Key? && addrGen.toAddress(addrGen.child(idx).pubKey).Some?
  {
    DeriveSkipsInvalid(addrGen.child, last);
  }

  /** At the end of the counter the next index is zero: an index that is not above the
      last one, and was never in range. */
  lemma WrappedIndexIsStale(child: UInt32 -> Child)
    requires child(0).Key?
    ensures Derive(child, 0xFFFF_FFFF, 0).index == Some(0)
  {
  }

  // ---------- The protocol ----------

  /** One copy of a ticket as far as its fee address goes: who holds which address. */
  datatype Slot = Slot(hash: string, xpub: UInt32, idx: UInt32)

  /** The generator of a running daemon. deriving is set inside the mutex, between the
      derivation and the write of the new index. */
  datatype Generator = Generator(xpub: UInt32, counter: UInt32, deriving: Option<Slot>)

  /** granted: addresses handed out to handlers that have not stored their ticket yet.
      copies: tickets read by handlers or the updater and not yet written back. */
  datatype State = State(
    table: Table,
    gen: Option<Generator>,
    granted: set<Slot>,
    copies: set<Slot>,
    store: map<string, Slot>)

  datatype Step =
    | Start
    | Stop
    | Derived(hash: string, child: UInt32 -> Child, addressOk: bool)
    | Persisted(ok: bool)
    | Insert(slot: Slot, ok: bool)
    | Read(hash: string)
    | WriteBack(copy: Slot, ok: bool)
    | Delete(hash: string)
    | Retire(key: string, now: Int64)

  ghost predicate Next(s: State, step: Step, s': State) {
    match step
    // The generator starts from the persisted index of the active key.
    case Start =>
      && s.gen.None?
      && exists x :: IsActive(s.table, x) && s' == s.(gen := Some(Generator(x.id, x.lastUsedIdx, None)))
    // A stop or a crash, at any point, loses everything in memory.
    case Stop =>
      s' == s.(gen := None, granted := {}, copies := {})
    // The mutex is taken. Without an address the counter has moved and the mutex is free.
    case Derived(hash, child, addressOk) =>
      && s.gen.Some? && s.gen.value.deriving.None?
      && var g := s.gen.value; var d := Derive(child, g.counter, 0);
         s' == s.(gen := Some(Generator(g.xpub, d.counter,
                  if d.index.Some? && addressOk then Some(Slot(hash, g.xpub, d.counter)) else None)))
    // The index is written, or the write fails and the index is never used.
    case Persisted(ok) =>
      && s.gen.Some? && s.gen.value.deriving.Some?
      && var slot, free := s.gen.value.deriving.value, Some(s.gen.value.(deriving := None));
         if ok then
           exists x :: IsActive(s.table, x)
             && s' == s.(table := AfterSetIndex(s.table, x, slot.idx), gen := free, granted := s.granted + {slot})
         else
           s' == s.(gen := free)
    // Only a duplicate hash is rejected, never a duplicate address.
    case Insert(slot, ok) =>
      && slot in s.granted
      && s' == s.(granted := s.granted - {slot},
                  store := if ok && slot.hash !in s.store then s.store[slot.hash := slot] else s.store)
    case Read(hash) =>
      hash in s.store && s' == s.(copies := s.copies + {s.store[hash]})
    // A whole ticket is written back; its address fields are those that were read.
    case WriteBack(copy, ok) =>
      && copy in s.copies
      && s' == s.(store := if ok && copy.hash in s.store then s.store[copy.hash := copy] else s.store)
    case Delete(hash) =>
      s' == s.(store := s.store - {hash})
    // The command needs the daemon stopped: the database file is locked.
    case Retire(key, now) =>
      && s.gen.None? && now != 0 && |s.table| < 0x1_0000_0000
      && (forall id | id in s.table :: s.table[id].key != key)
      && exists x :: IsActive(s.table, x) && s' == s.(table := AfterRetire(s.table, x, key, now))
  }

  /** The counter has room for this step. */
  ghost predicate NoWrap(s: State, step: Step) {
    step.Derived? && s.gen.Some? ==>
      s.gen.value.counter + Derive(step.child, s.gen.value.counter, 0).attempts < 0x1_0000_0000
  }

  /** Every copy of a ticket there is, stored or in memory. */
  ghost function AllSlots(s: State): set<Slot> {
    s.granted + s.copies + s.store.Values
  }

  ghost predicate Issued(t: Table, slot: Slot) {
    slot.xpub in t && 1 <= slot.idx <= t[slot.xpub].lastUsedIdx
  }

  /** Every slot was issued by its key, and one address belongs to one ticket. */
  ghost predicate Owned(t: Table, slots: set<Slot>) {
    && (forall slot | slot in slots :: Issued(t, slot))
    && (forall a, b | a in slots && b in slots && a.xpub == b.xpub && a.idx == b.idx :: a.hash == b.hash)
  }

  ghost predicate Inv(s: State) {
    && WellFormed(s.table) && |s.table| - 1 in s.table
    && Owned(s.table, AllSlots(s))
    && (forall h | h in s.store :: s.store[h].hash == h)
    && (s.gen.Some? ==>
          var g := s.gen.value; var x := s.table[|s.table| - 1];
          && g.xpub == x.id && x.lastUsedIdx <= g.counter
          && (g.deriving.Some? ==> g.deriving.value.xpub == x.id && x.lastUsedIdx < g.deriving.value.idx <= g.counter))
  }

  /** A new database. */
  ghost predicate Init(s: State) {
    && WellFormed(s.table) && |s.table| == 1 && 0 in s.table && s.table[0].lastUsedIdx == 0
    && s.gen.None? && s.granted == {} && s.copies == {} && s.store == map[]
  }

  // ---------- What every run keeps ----------

  lemma InitInv(s: State)
    requires Init(s)
    ensures Inv(s)
  {
  }

  /** Taking an index from the generator: it is above every index issued for the key. */
  lemma DerivedInv(s: State, hash: string, child: UInt32 -> Child, addressOk: bool, s': State)
    requires Inv(s) && Next(s, Derived(hash, child, addressOk), s') && NoWrap(s, Derived(hash, child, addressOk))
    ensures Inv(s')
  {
    DeriveSkipsInvalid(child, s.gen.value.counter);
    assert AllSlots(s') == AllSlots(s);
  }

  /** A slot above the persisted index of its key is a new address. */
  lemma GrantKeepsOwned(t: Table, t': Table, slots: set<Slot>, slot: Slot)
    requires Owned(t, slots) && t'.Keys == t.Keys
    requires slot.xpub in t && t[slot.xpub].lastUsedIdx < slot.idx && t'[slot.xpub].lastUsedIdx == slot.idx
    requires forall id | id in t && id != slot.xpub :: t'[id] == t[id]
    ensures Owned(t', slots + {slot})
  {
    forall a | a in slots
      ensures Issued(t', a) && (a.xpub == slot.xpub ==> a.idx < slot.idx)
    {
      assert Issued(t, a);
    }
  }

  /** Writing the index before handing the address out is what keeps it unused. */
  lemma PersistedInv(s: State, ok: bool, s': State)
    requires Inv(s) && Next(s, Persisted(ok), s')
    ensures Inv(s')
  {
    if ok {
      var slot := s.gen.value.deriving.value;
      var x :| IsActive(s.table, x) && s'.table == AfterSetIndex(s.table, x, slot.idx);
      ActiveIsUnretired(s.table, x);
      SetIndexKeepsWellFormed(s.table, x, slot.idx);
      assert |s'.table.Keys| == |s.table.Keys|;
      assert AllSlots(s') == AllSlots(s) + {slot};
      GrantKeepsOwned(s.table, s'.table, AllSlots(s), slot);
    } else {
      assert AllSlots(s') == AllSlots(s);
    }
  }

  lemma RetireInv(s: State, key: string, now: Int64, s': State)
    requires Inv(s) && Next(s, Retire(key, now), s')
    ensures Inv(s')
  {
    var x :| IsActive(s.table, x) && s'.table == AfterRetire(s.table, x, key, now);
    RetireKeepsWellFormed(s.table, x, key, now);
    RetireKeepsRecords(s.table, x, key, now);
    TableFits(s'.table);
    assert AllSlots(s') == AllSlots(s);
    forall slot | slot in AllSlots(s)
      ensures Issued(s'.table, slot)
    {
      assert s'.table[slot.xpub].(retired := 0) == s.table[slot.xpub].(retired := 0);
    }
  }

  /** The generator starts where the active key's index stands. */
  lemma StartInv(s: State, s': State)
    requires Inv(s) && Next(s, Start, s')
    ensures Inv(s')
  {
    var x :| IsActive(s.table, x) && s' == s.(gen := Some(Generator(x.id, x.lastUsedIdx, None)));
    ActiveIsUnretired(s.table, x);
    hide WellFormed, IsActive, Owned;
    assert AllSlots(s') == AllSlots(s);
  }

  lemma FewerOwned(t: Table, slots: set<Slot>, more: set<Slot>)
    requires slots <= more && Owned(t, more)
    ensures Owned(t, slots)
  {
  }

  /** The remaining steps move copies about and create none. */
  lemma MoveInv(s: State, step: Step, s': State)
    requires Inv(s) && Next(s, step, s')
    requires step.Stop? || step.Insert? || step.Read? || step.WriteBack? || step.Delete?
    ensures Inv(s')
  {
    hide WellFormed, Owned;
    assert s'.table == s.table;
    assert AllSlots(s') <= AllSlots(s);
    FewerOwned(s.table, AllSlots(s'), AllSlots(s));
  }

  lemma StepInv(s: State, step: Step, s': State)
    requires Inv(s) && Next(s, step, s') && NoWrap(s, step)
    ensures Inv(s')
  {
    match step
    case Derived(hash, child, addressOk) => DerivedInv(s, hash, child, addressOk, s');
    case Persisted(ok) => PersistedInv(s, ok, s');
    case Retire(key, now) => RetireInv(s, key, now, s');
    case Start => StartInv(s, s');
    case _ => MoveInv(s, step, s');
  }

  ghost predicate Run(states: seq<State>, steps: seq<Step>) {
    && |states| == |steps| + 1 && Init(states[0])
    && forall i | 0 <= i < |steps| :: Next(states[i], steps[i], states[i+1]) && NoWrap(states[i], steps[i])
  }

  /** Over every run, with concurrent handlers, failed writes, crashes, restarts and key
      changes, tickets with different hashes never hold the same address, and every
      index held was issued by its key. */
  lemma {:induction false} AddressesNeverShared(states: seq<State>, steps: seq<Step>, n: nat)
    requires Run(states, steps) && n <= |steps|
    ensures Inv(states[n])
    ensures forall h, k | h in states[n].store && k in states[n].store && h != k ::
              states[n].store[h].xpub != states[n].store[k].xpub || states[n].store[h].idx != states[n].store[k].idx
    ensures forall h | h in states[n].store :: Issued(states[n].table, states[n].store[h])
  {
    if n == 0 {
      InitInv(states[0]);
    } else {
      AddressesNeverShared(states, steps, n - 1);
      StepInv(states[n-1], steps[n-1], states[n]);
    }
    forall h | h in states[n].store
      ensures states[n].store[h] in AllSlots(states[n])
    {
    }
  }

  /** With a derivation that never gives two (key, index) pairs the same address, the
      addresses themselves differ. */
  lemma AddressTextsDiffer(s: State, derive: (string, UInt32) -> string, h: string, k: string)
    requires Inv(s) && h in s.store && k in s.store && h != k
    requires forall a, i, b, j :: derive(a, i) == derive(b, j) ==> a == b && i == j
    ensures Issued(s.table, s.store[h]) && Issued(s.table, s.store[k])
    ensures derive(s.table[s.store[h].xpub].key, s.store[h].idx) != derive(s.table[s.store[k].xpub].key, s.store[k].idx)
  {
    assert s.store[h] in AllSlots(s) && s.store[k] in AllSlots(s);
  }

  // ---------- The steps are what the code does ----------

  /** A generator between two requests, over the table as stored. */
  ghost predicate Idle(s: State, xpub: UInt32, counter: UInt32, table: Table) {
    s.gen == Some(Generator(xpub, counter, None)) && s.table == table
  }

  /** A request that gets an address takes the steps Derived and Persisted, and is left
      with a grant for exactly the slot its ticket is stored with. */
  lemma AllocationIsSteps(s: State, hash: string, xpub: UInt32, child: UInt32 -> Child, counter: UInt32, idx: UInt32, table': Table)
    returns (s1: State, s2: State)
    requires Idle(s, xpub, counter, s.table) && Derive(child, counter, 0).index == Some(idx)
    requires IndexStored(s.table, child, counter, table')
    ensures Next(s, Derived(hash, child, true), s1) && Next(s1, Persisted(true), s2)
    ensures Idle(s2, xpub, Derive(child, counter, 0).counter, table')
    ensures s2 == s.(gen := s2.gen, table := table', granted := s.granted + {Slot(hash, xpub, idx)})
  {
    DeriveSkipsInvalid(child, counter);
    s1 := s.(gen := Some(Generator(xpub, idx, Some(Slot(hash, xpub, idx)))));
    s2 := s.(gen := Some(Generator(xpub, idx, None)), table := table', granted := s.granted + {Slot(hash, xpub, idx)});
  }

  /** A request that gets none takes the step Derived, and Persisted if only the write
      failed; the table and the grants stay as they were. */
  lemma FailedAllocationIsSteps(s: State, hash: string, xpub: UInt32, child: UInt32 -> Child, counter: UInt32, addressOk: bool)
    returns (s1: State, s2: State)
    requires Idle(s, xpub, counter, s.table)
    ensures Next(s, Derived(hash, child, addressOk), s1)
    ensures if Derive(child, counter, 0).index.Some? && addressOk then Next(s1, Persisted(false), s2) else s2 == s1
    ensures Idle(s2, xpub, Derive(child, counter, 0).counter, s.table) && s2 == s.(gen := s2.gen)
  {
    DeriveSkipsInvalid(child, counter);
    var d := Derive(child, counter, 0);
    s1 := s.(gen := Some(Generator(xpub, d.counter,
            if d.index.Some? && addressOk then Some(Slot(hash, xpub, d.counter)) else None)));
    s2 := s.(gen := Some(Generator(xpub, d.counter, None)));
  }

  /** Storing the ticket is the step Insert. */
  lemma InsertionIsStep(s: State, hash: string, xpub: UInt32, idx: UInt32, ok: bool) returns (s': State)
    requires Slot(hash, xpub, idx) in s.granted
    ensures Next(s, Insert(Slot(hash, xpub, idx), ok), s')
    ensures s'.store == if ok && hash !in s.store then s.store[hash := Slot(hash, xpub, idx)] else s.store
    ensures s'.table == s.table && s'.gen == s.gen && s'.copies == s.copies && s'.granted == s.granted - {Slot(hash, xpub, idx)}
  {
    var slot := Slot(hash, xpub, idx);
    s' := s.(granted := s.granted - {slot}, store := if ok && hash !in s.store then s.store[hash := slot] else s.store);
  }
}
