/** The upgrades that bring a database file from any earlier version to the latest. */
module Upgrades {
  import opened Tickets
  import opened Encoding
  import opened Storage
  import FeeXPubs

  const INITIAL_VERSION: UInt32 := 1
  const REMOVE_OLD_FEE_TX_VERSION: UInt32 := 2
  const TICKET_BUCKET_VERSION: UInt32 := 3
  const ALT_SIGN_ADDR_VERSION: UInt32 := 4
  const XPUB_BUCKET_VERSION: UInt32 := 5
  const LATEST_VERSION: UInt32 := XPUB_BUCKET_VERSION

  datatype V1Ticket = V1Ticket(
    hash: string,
    purchaseHeight: Int64,
    commitmentAddress: string,
    feeAddressIndex: UInt32,
    feeAddress: string,
    feeAmount: Int64,
    feeExpiration: Int64,
    confirmed: bool,
    votingWIF: string,
    voteChoices: StringMap,
    feeTxHex: string,
    feeTxHash: string,
    feeTxStatus: FeeStatus,
    outcome: Outcome)
  {
    /** The ticket with what versions 1 and 2 do not know left empty. */
    function ToTicket(): Ticket {
      Ticket(hash, purchaseHeight, commitmentAddress, 0, feeAddressIndex, feeAddress, feeAmount, feeExpiration,
             confirmed, votingWIF, voteChoices, NilMap, NilMap, feeTxHex, feeTxHash, feeTxStatus, outcome)
    }
  }

  /** The library that writes and reads the text form of a version 1 ticket, and the one
      for string maps. */
  datatype Codec = Codec(marshal: V1Ticket -> Bytes, unmarshal: Bytes -> Option<V1Ticket>, json: Json) {
    ghost predicate RoundTrips() {
      && json.RoundTrips()
      && (forall t: V1Ticket :: Canonical(t.ToTicket()) ==> unmarshal(marshal(t)) == Some(t))
      && (forall b: Bytes :: unmarshal(b).Some? ==> Canonical(unmarshal(b).value.ToTicket()))
    }
  }

  /** What the ticket bucket holds under one key: a text, or a bucket of its own. */
  datatype Entry = Row(text: Bytes) | Nested(values: Values)

  type Entries = map<string, Entry>

  /** The parts of the database file that upgrades touch. */
  datatype File = File(
    version: UInt32,
    tickets: Entries,
    feeXPub: Option<Bytes>,
    lastAddressIndex: Option<Bytes>,
    xpubs: Option<FeeXPubs.Table>,
    altSignAddrs: bool)

  // ---------- What each upgrade makes of a file ----------

  /** Every entry converted, or None if one of them cannot be. */
  function ConvertAll(m: Entries, f: Entry -> Option<Entry>): Option<Entries> {
    if forall k | k in m :: f(m[k]).Some? then Some(map k | k in m :: f(m[k]).value) else None
  }

  function WithoutOldFeeTx(codec: Codec, e: Entry): Option<Entry> {
    if e.Nested? then None
    else
      match codec.unmarshal(e.text)
      case None => None
      case Some(t) => Some(if t.feeTxStatus == FeeConfirmed then Row(codec.marshal(t.(feeTxHex := ""))) else e)
  }

  ghost function TicketValues(json: Json, t: Ticket): (v: Values)
    ensures HoldsTicket(json, v, t)
  {
    map f: Field | true :: Stored(json, t, f)
  }

  ghost function AsBucket(codec: Codec, e: Entry): Option<Entry> {
    if e.Nested? then None
    else
      match codec.unmarshal(e.text)
      case None => None
      case Some(t) => Some(Nested(TicketValues(codec.json, t.ToTicket())))
  }

  function WithXPubZero(e: Entry): Entry {
    if e.Row? then e else Nested(e.values[FeeAddressXPubIDK := UInt32ToBytes(0)])
  }

  /** A stored index is four bytes; reading a shorter one panics. */
  predicate IndexReadable(f: File) {
    f.lastAddressIndex.Some? ==> |f.lastAddressIndex.value| >= 4
  }

  /** The index of a key that was never used is absent. */
  function LastIndex(f: File): UInt32
    requires IndexReadable(f)
  {
    if f.lastAddressIndex.Some? then BytesToUInt32(f.lastAddressIndex.value) else 0
  }

  function InsertXPub(t: Option<FeeXPubs.Table>, x: FeeXPubs.FeeXPub): FeeXPubs.Table {
    (if t.Some? then t.value else map[])[x.id := x]
  }

  /** The file after the upgrade from its version to the next; None is an error. */
  ghost function Upgraded(codec: Codec, f: File): (r: Option<File>)
    requires 1 <= f.version < LATEST_VERSION && IndexReadable(f)
    ensures r.Some? ==> r.value.version == f.version + 1 && IndexReadable(r.value)
  {
    var next: UInt32 := f.version + 1;
    match f.version
    case 1 =>
      var t := ConvertAll(f.tickets, e => WithoutOldFeeTx(codec, e));
      if t.None? then None else Some(f.(tickets := t.value, version := next))
    case 2 =>
      var t := ConvertAll(f.tickets, e => AsBucket(codec, e));
      if t.None? then None else Some(f.(tickets := t.value, version := next))
    case 3 =>
      if f.altSignAddrs then None else Some(f.(altSignAddrs := true, version := next))
    case _ =>
      if f.feeXPub.None? then None
      else
        Some(File(next, map k | k in f.tickets :: WithXPubZero(f.tickets[k]), None, None,
                  Some(InsertXPub(f.xpubs, FeeXPubs.FeeXPub(0, f.feeXPub.value, LastIndex(f), 0))), f.altSignAddrs))
  }

  // ---------- The upgrades ----------

  /** Entries that are done are converted, the others are as they were. */
  ghost predicate Partly(was: Entries, now: Entries, todo: set<string>, f: Entry -> Option<Entry>) {
    && now.Keys == was.Keys && todo <= was.Keys
    && forall k | k in was :: if k in todo then now[k] == was[k] else f(was[k]) == Some(now[k])
  }

  lemma AllConverted(was: Entries, now: Entries, f: Entry -> Option<Entry>)
    requires Partly(was, now, {}, f)
    ensures ConvertAll(was, f) == Some(now)
  {
    assert now == map k | k in was :: f(was[k]).value;
  }

  /** A database file. An upgrade is one transaction: it works on a copy that replaces the
      file only if everything went well. */
  class Database {
    var file: File

    method RemoveOldFeeTx(codec: Codec, ok: bool) returns (done: bool)
      requires file.version == 1 && IndexReadable(file)
      modifies this
      ensures done <==> ok && Upgraded(codec, old(file)).Some?
      ensures file == if done then Upgraded(codec, old(file)).value else old(file)
    {
      var tx := file.tickets;
      var todo := tx.Keys;
      ghost var f := (e: Entry) => WithoutOldFeeTx(codec, e);
      while todo != {}
        invariant Partly(file.tickets, tx, todo, f)
        decreases todo
      {
        var k :| k in todo;
        var ticket := if tx[k].Row? then codec.unmarshal(tx[k].text) else None;
        if ticket.None? {
          assert f(file.tickets[k]).None?;
          return false;
        }
        if ticket.value.feeTxStatus == FeeConfirmed {
          tx := tx[k := Row(codec.marshal(ticket.value.(feeTxHex := "")))];
        }
        todo := todo - {k};
      }
      AllConverted(file.tickets, tx, f);
      if !ok {
        return false;
      }
      file := file.(tickets := tx, version := REMOVE_OLD_FEE_TX_VERSION);
      return true;
    }

    method TicketsToBuckets(codec: Codec, ok: bool) returns (done: bool)
      requires file.version == 2 && IndexReadable(file)
      modifies this
      ensures done <==> ok && Upgraded(codec, old(file)).Some?
      ensures file == if done then Upgraded(codec, old(file)).value else old(file)
    {
      var tx := file.tickets;
      var todo := tx.Keys;
      ghost var f := (e: Entry) => AsBucket(codec, e);
      while todo != {}
        invariant file == old(file) && Partly(file.tickets, tx, todo, f)
        decreases todo
      {
        var k :| k in todo;
        var ticket := if tx[k].Row? then codec.unmarshal(tx[k].text) else None;
        if ticket.None? {
          assert f(file.tickets[k]).None?;
          return false;
        }
        var bucket := new Bucket();
        bucket.PutTicket(codec.json, ticket.value.ToTicket());
        ValuesAreOwn(codec.json, bucket.values, ticket.value.ToTicket());
        tx := tx[k := Nested(bucket.values)];
        todo := todo - {k};
      }
      AllConverted(file.tickets, tx, f);
      if !ok {
        return false;
      }
      file := file.(tickets := tx, version := TICKET_BUCKET_VERSION);
      return true;
    }

    method AddAltSignAddrs(ghost codec: Codec, ok: bool) returns (done: bool)
      requires file.version == 3 && IndexReadable(file)
      modifies this
      ensures done <==> ok && Upgraded(codec, old(file)).Some?
      ensures file == if done then Upgraded(codec, old(file)).value else old(file)
    {
      if !ok || file.altSignAddrs {
        return false;
      }
      file := file.(altSignAddrs := true, version := ALT_SIGN_ADDR_VERSION);
      return true;
    }

    method MoveXPub(ghost codec: Codec, ok: bool) returns (done: bool)
      requires file.version == 4 && IndexReadable(file)
      modifies this
      ensures done <==> ok && Upgraded(codec, old(file)).Some?
      ensures file == if done then Upgraded(codec, old(file)).value else old(file)
    {
      if file.feeXPub.None? {
        return false;
      }
      var xpubs := InsertXPub(file.xpubs, FeeXPubs.FeeXPub(0, file.feeXPub.value, LastIndex(file), 0));
      var tx := file.tickets;
      var todo := set k | k in tx && tx[k].Nested?;
      while todo != {}
        invariant tx.Keys == file.tickets.Keys && todo <= tx.Keys
        invariant forall k | k in tx :: if k in todo then tx[k] == file.tickets[k] && tx[k].Nested? else tx[k] == WithXPubZero(file.tickets[k])
        decreases todo
      {
        var k :| k in todo;
        tx := tx[k := Nested(tx[k].values[FeeAddressXPubIDK := UInt32ToBytes(0)])];
        todo := todo - {k};
      }
      assert tx == map k | k in file.tickets :: WithXPubZero(file.tickets[k]);
      if !ok {
        return false;
      }
      file := File(XPUB_BUCKET_VERSION, tx, None, None, Some(xpubs), file.altSignAddrs);
      return true;
    }

    /** The upgrade from the file's version to the next. */
    method UpgradeOnce(codec: Codec, ok: bool) returns (done: bool)
      requires 1 <= file.version < LATEST_VERSION && IndexReadable(file)
      modifies this
      ensures done <==> ok && Upgraded(codec, old(file)).Some?
      ensures file == if done then Upgraded(codec, old(file)).value else old(file)
    {
      match file.version {
        case 1 => done := RemoveOldFeeTx(codec, ok);
        case 2 => done := TicketsToBuckets(codec, ok);
        case 3 => done := AddAltSignAddrs(codec, ok);
        case _ => done := MoveXPub(codec, ok);
      }
    }

    /** Runs the upgrades that are due, in order, and stops at the first that fails. ok says
        which of them get their writes through. Wherever it stops, running it again has the
        same target; a file of a later version is refused and left alone. */
    method Upgrade(codec: Codec, ok: nat -> bool) returns (done: bool)
      requires 1 <= file.version && IndexReadable(file)
      modifies this
      ensures old(file).version > LATEST_VERSION ==> !done && file == old(file)
      ensures old(file).version <= LATEST_VERSION ==>
                && IndexReadable(file) && old(file).version <= file.version <= LATEST_VERSION
                && Target(codec, file) == Target(codec, old(file))
                && (done ==> Target(codec, old(file)) == Some(file))
                && (!done ==> file.version < LATEST_VERSION && (!ok(file.version) || Target(codec, old(file)).None?))
    {
      if file.version == LATEST_VERSION {
        return true;
      }
      if file.version > LATEST_VERSION {
        return false;
      }
      for version := file.version to LATEST_VERSION
        invariant file.version == version && IndexReadable(file)
        invariant Target(codec, file) == Target(codec, old(file))
      {
        var upgraded := UpgradeOnce(codec, ok(version));
        if !upgraded {
          return false;
        }
      }
      return true;
    }
  }

  /** The file once every upgrade that is due has been made. */
  ghost function Target(codec: Codec, f: File): Option<File>
    requires 1 <= f.version <= LATEST_VERSION && IndexReadable(f)
    decreases LATEST_VERSION - f.version
  {
    if f.version == LATEST_VERSION then Some(f)
    else
      match Upgraded(codec, f)
      case None => None
      case Some(g) => Target(codec, g)
  }

  /** A bucket holding all of a ticket's fields holds nothing else. */
  lemma ValuesAreOwn(json: Json, v: Values, t: Ticket)
    requires HoldsTicket(json, v, t)
    ensures v == TicketValues(json, t)
  {
    hide Stored;
  }

  // ---------- What a file means ----------

  /** The ticket an entry stands for. Before version 5 there was one key, so its ID is zero
      whatever the entry says. */
  ghost function TicketOf(codec: Codec, version: UInt32, e: Entry): Option<Ticket> {
    match e
    case Row(text) =>
      var t := codec.unmarshal(text);
      if t.None? then None else Some(t.value.ToTicket().Normalized())
    case Nested(v) =>
      var v' := if version < XPUB_BUCKET_VERSION then v[FeeAddressXPubIDK := UInt32ToBytes(0)] else v;
      if Readable(v') then Decode(codec.json, v') else None
  }

  /** A file that some version of the daemon can have left behind. */
  ghost predicate WellFormed(codec: Codec, f: File) {
    && 1 <= f.version <= LATEST_VERSION
    && (forall k | k in f.tickets :: (f.tickets[k].Row? <==> f.version < TICKET_BUCKET_VERSION)
                                     && TicketOf(codec, f.version, f.tickets[k]).Some?)
    && (f.altSignAddrs <==> f.version >= ALT_SIGN_ADDR_VERSION)
    && KeyWellFormed(f)
  }

  ghost predicate KeyWellFormed(f: File) {
    if f.version < XPUB_BUCKET_VERSION then f.feeXPub.Some? && f.xpubs.None? && IndexReadable(f)
    else f.feeXPub.None? && f.lastAddressIndex.None? && f.xpubs.Some? && FeeXPubs.WellFormed(f.xpubs.value)
  }

  /** What is meant to become of a ticket: version 2 drops the text of a confirmed fee
      transaction, nothing else changes. */
  function Expected(version: UInt32, t: Ticket): Ticket {
    if version < REMOVE_OLD_FEE_TX_VERSION && t.feeTxStatus == FeeConfirmed then t.(feeTxHex := "") else t
  }

  /** g holds the tickets of f, as they are meant to become. */
  ghost predicate SameTickets(codec: Codec, f: File, g: File) {
    && g.tickets.Keys == f.tickets.Keys
    && forall k | k in f.tickets && TicketOf(codec, f.version, f.tickets[k]).Some? ::
         TicketOf(codec, g.version, g.tickets[k])
         == Some(Expected(f.version, TicketOf(codec, f.version, f.tickets[k]).value))
  }

  lemma OldFeeTxDropped(codec: Codec, e: Entry)
    requires codec.RoundTrips() && e.Row? && TicketOf(codec, 1, e).Some?
    ensures WithoutOldFeeTx(codec, e).Some? && WithoutOldFeeTx(codec, e).value.Row?
    ensures TicketOf(codec, 2, WithoutOldFeeTx(codec, e).value) == Some(Expected(1, TicketOf(codec, 1, e).value))
  {
    var t := codec.unmarshal(e.text).value;
    var u := t.(feeTxHex := "");
    assert Canonical(u.ToTicket());
    assert u.ToTicket() == t.ToTicket().(feeTxHex := "");
  }

  lemma BucketSaysSame(codec: Codec, e: Entry)
    requires codec.RoundTrips() && e.Row? && TicketOf(codec, 2, e).Some?
    ensures AsBucket(codec, e).Some? && AsBucket(codec, e).value.Nested?
    ensures TicketOf(codec, 3, AsBucket(codec, e).value) == TicketOf(codec, 2, e)
  {
    var t := codec.unmarshal(e.text).value.ToTicket();
    var v := TicketValues(codec.json, t);
    CodecRoundTrip(codec.json, v, t);
    assert v[FeeAddressXPubIDK] == Stored(codec.json, t, FeeAddressXPubIDK) == UInt32ToBytes(0);
    assert v[FeeAddressXPubIDK := UInt32ToBytes(0)] == v;
  }

  /** Converting every entry keeps the tickets when converting each one does. */
  lemma ConvertKeeps(codec: Codec, f: File, g: File, c: Entry -> Option<Entry>)
    requires forall k | k in f.tickets ::
               && c(f.tickets[k]).Some? && TicketOf(codec, f.version, f.tickets[k]).Some?
               && TicketOf(codec, g.version, c(f.tickets[k]).value)
               == Some(Expected(f.version, TicketOf(codec, f.version, f.tickets[k]).value))
    requires ConvertAll(f.tickets, c) == Some(g.tickets)
    ensures SameTickets(codec, f, g)
    ensures forall k | k in g.tickets :: c(f.tickets[k]) == Some(g.tickets[k]) && TicketOf(codec, g.version, g.tickets[k]).Some?
  {
    hide TicketOf, Expected;
  }

  lemma Upgrade1Keeps(codec: Codec, f: File)
    requires codec.RoundTrips() && WellFormed(codec, f) && f.version == 1
    ensures Upgraded(codec, f).Some? && SameTickets(codec, f, Upgraded(codec, f).value)
    ensures WellFormed(codec, Upgraded(codec, f).value)
  {
    var c := (e: Entry) => WithoutOldFeeTx(codec, e);
    forall k | k in f.tickets ensures c(f.tickets[k]).Some? && c(f.tickets[k]).value.Row? && TicketOf(codec, 1, f.tickets[k]).Some?
      && TicketOf(codec, 2, c(f.tickets[k]).value) == Some(Expected(1, TicketOf(codec, 1, f.tickets[k]).value)) {
      OldFeeTxDropped(codec, f.tickets[k]);
    }
    hide TicketOf, Expected, WithoutOldFeeTx;
    ConvertKeeps(codec, f, Upgraded(codec, f).value, c);
  }

  lemma Upgrade2Keeps(codec: Codec, f: File)
    requires codec.RoundTrips() && WellFormed(codec, f) && f.version == 2
    ensures Upgraded(codec, f).Some? && SameTickets(codec, f, Upgraded(codec, f).value)
    ensures WellFormed(codec, Upgraded(codec, f).value)
  {
    var c := (e: Entry) => AsBucket(codec, e);
    forall k | k in f.tickets ensures c(f.tickets[k]).Some? && c(f.tickets[k]).value.Nested? && TicketOf(codec, 2, f.tickets[k]).Some?
      && TicketOf(codec, 3, c(f.tickets[k]).value) == Some(Expected(2, TicketOf(codec, 2, f.tickets[k]).value)) {
      BucketSaysSame(codec, f.tickets[k]);
    }
    hide TicketOf, Expected, AsBucket;
    ConvertKeeps(codec, f, Upgraded(codec, f).value, c);
  }

  lemma Upgrade3Keeps(codec: Codec, f: File)
    requires WellFormed(codec, f) && f.version == 3
    ensures Upgraded(codec, f).Some? && SameTickets(codec, f, Upgraded(codec, f).value)
    ensures WellFormed(codec, Upgraded(codec, f).value)
  {
    hide Readable, Decode;
  }

  lemma XPubZeroSaysSame(codec: Codec, e: Entry)
    ensures e.Nested? ==> TicketOf(codec, 5, WithXPubZero(e)) == TicketOf(codec, 4, e)
    ensures WithXPubZero(e).Row? <==> e.Row?
  {
    hide Readable, Decode;
  }

  lemma FirstKey(x: FeeXPubs.FeeXPub)
    requires x.id == 0 && x.retired == 0
    ensures InsertXPub(None, x) == map[0 := x] && FeeXPubs.WellFormed(InsertXPub(None, x))
  {
    assert |InsertXPub(None, x)| == 1;
  }

  /** The entries of a file at version 5, given those at version 4. */
  lemma XPubZeroKeeps(codec: Codec, f: File, g: File)
    requires f.version == 4 && g.version == 5
    requires g.tickets == map k | k in f.tickets :: WithXPubZero(f.tickets[k])
    requires forall k | k in f.tickets :: f.tickets[k].Nested? && TicketOf(codec, 4, f.tickets[k]).Some?
    ensures SameTickets(codec, f, g)
    ensures forall k | k in g.tickets :: g.tickets[k].Nested? && TicketOf(codec, 5, g.tickets[k]).Some?
  {
    hide TicketOf, WithXPubZero, ConvertAll, SameTickets;
    var c := (e: Entry) => Some(WithXPubZero(e));
    forall k | k in f.tickets ensures c(f.tickets[k]).value.Nested? && TicketOf(codec, 4, f.tickets[k]).Some?
      && TicketOf(codec, 5, c(f.tickets[k]).value) == Some(Expected(4, TicketOf(codec, 4, f.tickets[k]).value)) {
      XPubZeroSaysSame(codec, f.tickets[k]);
    }
    hide Expected;
    AllConverted(f.tickets, g.tickets, c);
    ConvertKeeps(codec, f, g, c);
  }

  lemma Upgrade4Keeps(codec: Codec, f: File)
    requires WellFormed(codec, f) && f.version == 4
    ensures Upgraded(codec, f).Some? && SameTickets(codec, f, Upgraded(codec, f).value)
    ensures WellFormed(codec, Upgraded(codec, f).value)
  {
    hide TicketOf, InsertXPub, FeeXPubs.WellFormed, LastIndex, WithXPubZero, SameTickets;
    FirstKey(FeeXPubs.FeeXPub(0, f.feeXPub.value, LastIndex(f), 0));
    XPubZeroKeeps(codec, f, Upgraded(codec, f).value);
  }

  /** One upgrade of a well-formed file goes through, keeps it well formed and keeps what
      its tickets mean. */
  lemma UpgradeKeeps(codec: Codec, f: File)
    requires codec.RoundTrips() && WellFormed(codec, f) && f.version < LATEST_VERSION
    ensures Upgraded(codec, f).Some? && SameTickets(codec, f, Upgraded(codec, f).value)
    ensures WellFormed(codec, Upgraded(codec, f).value)
    ensures f.version < 4 ==> Upgraded(codec, f).value.feeXPub == f.feeXPub
                              && Upgraded(codec, f).value.lastAddressIndex == f.lastAddressIndex
    ensures f.version == 4 ==> KeyMoved(f, Upgraded(codec, f).value)
  {
    hide TicketOf, SameTickets, ConvertAll;
    if f.version == 1 {
      Upgrade1Keeps(codec, f);
    } else if f.version == 2 {
      Upgrade2Keeps(codec, f);
    } else if f.version == 3 {
      Upgrade3Keeps(codec, f);
    } else {
      Upgrade4Keeps(codec, f);
    }
  }

  /** The key and index a file had become the record with ID zero. */
  ghost predicate KeyMoved(f: File, g: File)
    requires IndexReadable(f)
  {
    if f.version == LATEST_VERSION then g.xpubs == f.xpubs
    else f.feeXPub.Some? && g.xpubs == Some(map[0 := FeeXPubs.FeeXPub(0, f.feeXPub.value, LastIndex(f), 0)])
  }

  lemma SameTicketsCompose(codec: Codec, f: File, g: File, h: File)
    requires SameTickets(codec, f, g) && SameTickets(codec, g, h) && g.version == f.version + 1
    ensures SameTickets(codec, f, h)
  {
    hide TicketOf;
    forall k | k in f.tickets && TicketOf(codec, f.version, f.tickets[k]).Some?
      ensures TicketOf(codec, h.version, h.tickets[k])
              == Some(Expected(f.version, TicketOf(codec, f.version, f.tickets[k]).value))
    {
      assert TicketOf(codec, g.version, g.tickets[k]).Some?;
    }
  }

  lemma SameTicketsSelf(codec: Codec, f: File)
    requires f.version == LATEST_VERSION
    ensures SameTickets(codec, f, f)
  {
    hide TicketOf;
  }

  /** From any well-formed file the upgrades reach the latest version with every ticket as
      it is meant to become, in buckets, and the old key and index in the key table. */
  lemma {:induction false} UpgradePreservesMeaning(codec: Codec, f: File)
    requires codec.RoundTrips() && WellFormed(codec, f)
    ensures Target(codec, f).Some?
    ensures var g := Target(codec, f).value;
      && g.version == LATEST_VERSION && WellFormed(codec, g)
      && SameTickets(codec, f, g) && KeyMoved(f, g)
    decreases LATEST_VERSION - f.version
  {
    hide TicketOf, SameTickets, Upgraded;
    if f.version < LATEST_VERSION {
      UpgradeKeeps(codec, f);
      var next := Upgraded(codec, f).value;
      UpgradePreservesMeaning(codec, next);
      SameTicketsCompose(codec, f, next, Target(codec, next).value);
    } else {
      SameTicketsSelf(codec, f);
    }
  }

  // ---------- The result spelled out ----------

  /** The old key and the old index, as its bytes were written, become record 0 of the key
      table; a key that was never used starts at zero. */
  lemma KeyAndIndexMove(codec: Codec, f: File, n: UInt32)
    requires codec.RoundTrips() && WellFormed(codec, f) && f.version < 5
    ensures Target(codec, f).Some? && f.feeXPub.Some?
    ensures var g, key := Target(codec, f).value, f.feeXPub.value;
      && g.version == 5 && g.altSignAddrs && g.feeXPub == None && g.lastAddressIndex == None
      && (f.lastAddressIndex == Some(UInt32ToBytes(n)) ==> g.xpubs == Some(map[0 := FeeXPubs.FeeXPub(0, key, n, 0)]))
      && (f.lastAddressIndex == None ==> g.xpubs == Some(map[0 := FeeXPubs.FeeXPub(0, key, 0, 0)]))
  {
    UpgradePreservesMeaning(codec, f);
    UInt32RoundTrip(n);
    hide Target, SameTickets, TicketOf, UInt32ToBytes, BytesToUInt32, FeeXPubs.WellFormed;
  }

  /** A row of version 1 or 2 becomes a bucket that decodes to the row's ticket field by
      field, with xpub ID 0 and no policies; version 1 rows with a confirmed fee lose the
      text of the fee transaction. */
  lemma RowMoves(codec: Codec, f: File, k: string, t: V1Ticket)
    requires codec.RoundTrips() && WellFormed(codec, f) && f.version <= 2
    requires k in f.tickets && f.tickets[k].Row? && codec.unmarshal(f.tickets[k].text) == Some(t)
    ensures Target(codec, f).Some? && k in Target(codec, f).value.tickets
    ensures var e := Target(codec, f).value.tickets[k];
      e.Nested? && Readable(e.values) && match Decode(codec.json, e.values)
        case None => false
        case Some(u) =>
          && u.hash == t.hash && u.purchaseHeight == t.purchaseHeight && u.commitmentAddress == t.commitmentAddress
          && u.feeAddressXPubID == 0 && u.feeAddressIndex == t.feeAddressIndex && u.feeAddress == t.feeAddress
          && u.feeAmount == t.feeAmount && u.feeExpiration == t.feeExpiration && u.confirmed == t.confirmed
          && u.votingWIF == t.votingWIF && u.voteChoices.Entries() == t.voteChoices.Entries()
          && u.tSpendPolicy.Entries() == map[] && u.treasuryPolicy.Entries() == map[]
          && u.feeTxHex == (if f.version == 1 && t.feeTxStatus == FeeConfirmed then "" else t.feeTxHex)
          && u.feeTxHash == t.feeTxHash && u.feeTxStatus == t.feeTxStatus && u.outcome == t.outcome
  {
    UpgradePreservesMeaning(codec, f);
    var u := MovedTicket(codec, f, Target(codec, f).value, k);
    FieldsMove(f.version, t, u);
    hide *;
  }

  lemma MovedTicket(codec: Codec, f: File, g: File, k: string) returns (u: Ticket)
    requires f.version <= 2 && k in f.tickets && f.tickets[k].Row? && codec.unmarshal(f.tickets[k].text).Some?
    requires SameTickets(codec, f, g) && g.version == 5 && WellFormed(codec, g)
    ensures k in g.tickets && g.tickets[k].Nested? && Readable(g.tickets[k].values)
    ensures Decode(codec.json, g.tickets[k].values) == Some(u)
    ensures u == Expected(f.version, codec.unmarshal(f.tickets[k].text).value.ToTicket().Normalized())
  {
    assert TicketOf(codec, f.version, f.tickets[k]).Some?;
    u := TicketOf(codec, 5, g.tickets[k]).value;
    hide Decode, Readable, FeeXPubs.WellFormed;
  }

  lemma FieldsMove(version: UInt32, t: V1Ticket, u: Ticket)
    requires 1 <= version <= 2 && u == Expected(version, t.ToTicket().Normalized())
    ensures u.hash == t.hash && u.purchaseHeight == t.purchaseHeight && u.commitmentAddress == t.commitmentAddress
    ensures u.feeAddressXPubID == 0 && u.feeAddressIndex == t.feeAddressIndex && u.feeAddress == t.feeAddress
    ensures u.feeAmount == t.feeAmount && u.feeExpiration == t.feeExpiration && u.confirmed == t.confirmed
    ensures u.votingWIF == t.votingWIF && u.voteChoices.Entries() == t.voteChoices.Entries()
    ensures u.tSpendPolicy.Entries() == map[] && u.treasuryPolicy.Entries() == map[]
    ensures u.feeTxHex == (if version == 1 && t.feeTxStatus == FeeConfirmed then "" else t.feeTxHex)
    ensures u.feeTxHash == t.feeTxHash && u.feeTxStatus == t.feeTxStatus && u.outcome == t.outcome
  {
  }

  /** A bucket of version 3 or 4 keeps every value but the xpub ID, which becomes zero; one
      of version 5 keeps them all. */
  lemma BucketMoves(codec: Codec, f: File, k: string)
    requires codec.RoundTrips() && WellFormed(codec, f) && f.version >= 3
    requires k in f.tickets && f.tickets[k].Nested?
    ensures Target(codec, f).Some? && k in Target(codec, f).value.tickets
    ensures Target(codec, f).value.tickets[k]
         == if f.version == 5 then f.tickets[k] else Nested(f.tickets[k].values[FeeAddressXPubIDK := UInt32ToBytes(0)])
  {
    if f.version == 3 {
      UpgradeKeeps(codec, f);
      BucketStays3(codec, f);
      var g := Upgraded(codec, f).value;
      hide *;
      UpgradeKeeps(codec, g);
      BucketMoves4(codec, g, k);
    } else if f.version == 4 {
      UpgradeKeeps(codec, f);
      BucketMoves4(codec, f, k);
      hide *;
    }
  }

  lemma BucketStays3(codec: Codec, f: File)
    requires f.version == 3 && IndexReadable(f) && Upgraded(codec, f).Some?
    ensures var g := Upgraded(codec, f).value;
      g.version == 4 && g.tickets == f.tickets && IndexReadable(g) && Target(codec, f) == Target(codec, g)
  {
  }

  lemma BucketMoves4(codec: Codec, f: File, k: string)
    requires f.version == 4 && IndexReadable(f) && Upgraded(codec, f).Some?
    requires k in f.tickets && f.tickets[k].Nested?
    ensures Target(codec, f) == Upgraded(codec, f) && k in Upgraded(codec, f).value.tickets
    ensures Upgraded(codec, f).value.tickets[k] == Nested(f.tickets[k].values[FeeAddressXPubIDK := UInt32ToBytes(0)])
  {
    hide UInt32ToBytes;
  }

  /** Nothing is added: the keys of the ticket bucket are those it had. */
  lemma NoTicketsAppear(codec: Codec, f: File)
    requires codec.RoundTrips() && WellFormed(codec, f)
    ensures Target(codec, f).Some? && Target(codec, f).value.tickets.Keys == f.tickets.Keys
  {
    UpgradePreservesMeaning(codec, f);
  }
}
