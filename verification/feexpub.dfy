/** The table of extended public keys that fee addresses are derived from. */
module FeeXPubs {
  import opened Tickets

  /** retired is zero for the key in use. */
  datatype FeeXPub = FeeXPub(id: UInt32, key: string, lastUsedIdx: UInt32, retired: Int64)

  type Table = map<UInt32, FeeXPub>

  const ZERO_XPUB := FeeXPub(0, "", 0, 0)

  /** IDs run from zero without a gap, each record sits under its own ID, keys never
      repeat, and the highest ID is the one key not retired. */
  ghost predicate WellFormed(t: Table) {
    t != map[] && Contiguous(t, |t|)
  }

  ghost predicate Contiguous(t: Table, n: nat) {
    && (forall id: UInt32 :: id in t <==> id < n)
    && (forall id | id in t :: t[id].id == id)
    && (forall id | id in t :: t[id].retired == 0 <==> id == n - 1)
    && (forall i, j | i in t && j in t && i != j :: t[i].key != t[j].key)
  }

  /** x is the record with the highest ID, or the zero record of an empty table. */
  ghost predicate IsActive(t: Table, x: FeeXPub) {
    if t == map[] then x == ZERO_XPUB
    else exists id :: id in t && x == t[id] && forall k | k in t :: k <= id
  }

  /** The table after the active key x is retired in favour of a new key. */
  function AfterRetire(t: Table, x: FeeXPub, key: string, now: Int64): Table {
    var next := AddU32(x.id, 1);
    t[x.id := x.(retired := now)][next := FeeXPub(next, key, 0, 0)]
  }

  function AfterSetIndex(t: Table, x: FeeXPub, idx: UInt32): Table {
    t[x.id := x.(lastUsedIdx := idx)]
  }

  class XPubBucket {
    var xpubs: Table

    /** A new database holds one key with ID zero. */
    constructor (key: string)
      ensures WellFormed(xpubs) && xpubs == map[0 := FeeXPub(0, key, 0, 0)]
    {
      var t: Table := map[0 := FeeXPub(0, key, 0, 0)];
      assert |t| == 1 && 0 in t;
      xpubs := t;
    }

    /** The key with the highest ID, in whatever order the table is visited. */
    method ActiveXPub(readOk: bool) returns (r: Option<FeeXPub>)
      ensures r.Some? <==> readOk
      ensures r.Some? ==> IsActive(xpubs, r.value)
    {
      if !readOk {
        return None;
      }
      var highest: UInt32 := 0;
      var todo := xpubs.Keys;
      while todo != {}
        invariant todo <= xpubs.Keys
        invariant forall k | k in xpubs && k !in todo :: k <= highest
        invariant highest == 0 || highest in xpubs
        decreases todo
      {
        var id :| id in todo;
        todo := todo - {id};
        if id > highest {
          highest := id;
        }
      }
      if highest in xpubs {
        return Some(xpubs[highest]);
      }
      return Some(ZERO_XPUB);
    }

    /** Rejects a key that was ever used before. Both records are written in one transaction. */
    method RetireXPub(key: string, now: Int64, readOk: bool, writeOk: bool) returns (retired: bool)
      modifies this
      ensures retired <==> readOk && writeOk && forall id | id in old(xpubs) :: old(xpubs)[id].key != key
      ensures !retired ==> xpubs == old(xpubs)
      ensures retired ==> exists x :: IsActive(old(xpubs), x) && xpubs == AfterRetire(old(xpubs), x, key, now)
    {
      if !readOk {
        return false;
      }
      var todo := xpubs.Keys;
      while todo != {}
        invariant todo <= xpubs.Keys
        invariant forall k | k in xpubs && k !in todo :: xpubs[k].key != key
        decreases todo
      {
        var id :| id in todo;
        todo := todo - {id};
        if xpubs[id].key == key {
          return false;
        }
      }
      var current := ActiveXPub(readOk);
      if !writeOk {
        return false;
      }
      var next := AddU32(current.value.id, 1);
      assert IsActive(old(xpubs), current.value);
      xpubs := xpubs[current.value.id := current.value.(retired := now)];
      xpubs := xpubs[next := FeeXPub(next, key, 0, 0)];
      return true;
    }

    method SetLastAddressIndex(idx: UInt32, readOk: bool, writeOk: bool) returns (stored: bool)
      modifies this
      ensures stored <==> readOk && writeOk
      ensures !stored ==> xpubs == old(xpubs)
      ensures stored ==> exists x :: IsActive(old(xpubs), x) && xpubs == AfterSetIndex(old(xpubs), x, idx)
    {
      var current := ActiveXPub(readOk);
      if current.None? || !writeOk {
        return false;
      }
      assert IsActive(old(xpubs), current.value);
      xpubs := xpubs[current.value.id := current.value.(lastUsedIdx := idx)];
      return true;
    }
  }

  /** A table cannot hold more records than there are IDs. */
  lemma TableFits(t: Table)
    requires WellFormed(t)
    ensures 0 < |t| <= 0x1_0000_0000 && |t| - 1 in t
  {
    var n := if |t| <= 0x1_0000_0000 then |t| else 0x1_0000_0000;
    assert t.Keys == Range(0, n);
  }

  /** In a well-formed table the active key is the last one, and the only one not retired. */
  lemma ActiveIsUnretired(t: Table, x: FeeXPub)
    requires WellFormed(t)
    ensures |t| - 1 in t
    ensures IsActive(t, x) <==> x == t[|t| - 1]
    ensures IsActive(t, x) <==> x in t.Values && x.retired == 0
  {
    TableFits(t);
    var top: UInt32 := |t| - 1;
    assert forall k | k in t :: k <= top;
  }

  /** Retiring appends a fresh record and marks the one before it. */
  lemma RetireExtends(t: Table, x: FeeXPub, key: string, now: Int64)
    requires WellFormed(t) && IsActive(t, x) && |t| < 0x1_0000_0000 && now != 0
    requires forall id | id in t :: t[id].key != key
    ensures WellFormed(AfterRetire(t, x, key, now)) && |AfterRetire(t, x, key, now)| == |t| + 1
  {
    ActiveIsUnretired(t, x);
    var n: UInt32 := |t|;
    var marked := t[x.id := x.(retired := now)];
    var added := FeeXPub(n, key, 0, 0);
    assert marked.Keys == t.Keys;
    assert AfterRetire(t, x, key, now) == marked[n := added];
    Append(marked, n, added);
  }

  lemma Append(t: Table, n: UInt32, added: FeeXPub)
    requires forall id: UInt32 :: id in t <==> id < n
    requires forall id | id in t :: t[id].id == id && t[id].retired != 0 && t[id].key != added.key
    requires forall i, j | i in t && j in t && i != j :: t[i].key != t[j].key
    requires added.id == n && added.retired == 0
    ensures Contiguous(t[n := added], n + 1)
  {
  }

  /** With the ID counter at its end the new key takes the ID of the first one; with the
      clock at zero the old key still looks unretired. */
  lemma RetireBreaks(t: Table, x: FeeXPub, key: string, now: Int64)
    requires WellFormed(t) && IsActive(t, x) && (|t| == 0x1_0000_0000 || now == 0)
    ensures !WellFormed(AfterRetire(t, x, key, now))
  {
    ActiveIsUnretired(t, x);
    var t' := AfterRetire(t, x, key, now);
    var next := AddU32(x.id, 1);
    assert next in t' && t'[next].retired == 0;
    if |t| == 0x1_0000_0000 {
      assert next == 0 && 0 in t && t'.Keys == t.Keys;
      assert |t'| == |t'.Keys|;
    } else {
      assert x.id in t' && t'[x.id].retired == 0;
    }
  }

  /** Retiring with an unused key keeps the table well formed exactly when the clock is
      not at zero and the ID counter does not wrap. */
  lemma RetireKeepsWellFormed(t: Table, x: FeeXPub, key: string, now: Int64)
    requires WellFormed(t) && IsActive(t, x)
    requires forall id | id in t :: t[id].key != key
    ensures WellFormed(AfterRetire(t, x, key, now)) <==> now != 0 && |t| < 0x1_0000_0000
  {
    TableFits(t);
    hide WellFormed, IsActive, AfterRetire;
    if now != 0 && |t| < 0x1_0000_0000 {
      RetireExtends(t, x, key, now);
    } else {
      RetireBreaks(t, x, key, now);
    }
  }

  /** Retiring changes no old key and no old index. */
  lemma RetireKeepsRecords(t: Table, x: FeeXPub, key: string, now: Int64)
    requires WellFormed(t) && IsActive(t, x) && |t| < 0x1_0000_0000
    ensures |t| !in t && AfterRetire(t, x, key, now).Keys == t.Keys + {|t|}
    ensures forall id | id in t :: AfterRetire(t, x, key, now)[id].(retired := 0) == t[id].(retired := 0)
    ensures AfterRetire(t, x, key, now)[|t|] == FeeXPub(|t|, key, 0, 0)
    ensures x.id in t && AfterRetire(t, x, key, now)[x.id].retired == now
  {
    var n: UInt32 := |t|;
    assert n !in t && x.id == n - 1 && x.id in t && t[x.id] == x by { ActiveIsUnretired(t, x); }
    hide WellFormed, IsActive;
    var marked := t[x.id := x.(retired := now)];
    assert AddU32(x.id, 1) == n;
    assert AfterRetire(t, x, key, now) == marked[n := FeeXPub(n, key, 0, 0)];
  }

  /** Updating the index of the active key touches nothing else. */
  lemma SetIndexKeepsWellFormed(t: Table, x: FeeXPub, idx: UInt32)
    requires WellFormed(t) && IsActive(t, x)
    ensures WellFormed(AfterSetIndex(t, x, idx)) && AfterSetIndex(t, x, idx).Keys == t.Keys
    ensures forall id | id in t && id != x.id :: AfterSetIndex(t, x, idx)[id] == t[id]
    ensures AfterSetIndex(t, x, idx)[x.id] == x.(lastUsedIdx := idx)
  {
    ActiveIsUnretired(t, x);
    assert AfterSetIndex(t, x, idx).Keys == t.Keys;
    assert |AfterSetIndex(t, x, idx)| == |AfterSetIndex(t, x, idx).Keys| == |t.Keys|;
  }

}
