/** The check at start that turns the deprecated outcome revoked into missed or expired. */
module DatabaseIntegrity {
  import opened Tickets
  import opened SpentScan
  import opened TicketStore
  import opened Outcomes

  /** What the check finds for a ticket recorded as revoked. A vote is left for the
      operator to look at. */
  ghost function TrueOutcome(net: Network, p: Parsers, chain: seq<Block>, t: Ticket, from: nat): Option<Outcome> {
    if t.outcome == Revoked && FoundOutcome(net, p, chain, t, from) != Some(Voted) then FoundOutcome(net, p, chain, t, from) else None
  }

  /** The store after a check in which exactly the writes of the given tickets succeeded. */
  ghost function Repaired(net: Network, p: Parsers, chain: seq<Block>, m: Store, from: nat, written: set<string>): Store {
    map h | h in m ::
      if h in written && TrueOutcome(net, p, chain, m[h], from).Some?
      then m[h].(outcome := TrueOutcome(net, p, chain, m[h], from).value)
      else m[h]
  }

  /** Written are exactly those tickets something was found for whose write succeeds, if
      any others then without effect. */
  ghost predicate AllRepaired(net: Network, p: Parsers, chain: seq<Block>, m: Store, from: nat, writeOk: string -> bool, written: set<string>) {
    && (forall h | h in written :: writeOk(h))
    && (forall h | h in m && TrueOutcome(net, p, chain, m[h], from).Some? && writeOk(h) :: h in written)
  }

  /** Every entry names a ticket stored as revoked and what the scan found for it. */
  ghost predicate Found(net: Network, p: Parsers, chain: seq<Block>, m: Store, from: nat, spent: seq<SpentTicket>) {
    forall e | e in spent ::
      && e.dbTicket.hash in m && m[e.dbTicket.hash] == e.dbTicket && e.dbTicket.outcome == Revoked
      && FoundOutcome(net, p, chain, e.dbTicket, from) == Some(e.Classify())
  }

  datatype Repair = NothingRevoked | RepairFailed | RepairedFrom(start: int)

  /** Nothing is written unless the whole scan succeeds; then each ticket found gets its
      outcome if its write succeeds, and no other record changes. */
  method CheckRevoked(net: Network, p: Parsers, node: Node, db: TicketBucket, readOk: bool, writeOk: string -> bool)
    returns (r: Repair, ghost written: set<string>)
    requires Keyed(db.tickets) && NoFalseNegatives(node, p, db.tickets.Values)
    modifies db
    ensures r.NothingRevoked? ==> forall h | h in db.tickets :: db.tickets[h].outcome != Revoked
    ensures !r.RepairedFrom? ==> db.tickets == old(db.tickets)
    ensures r.RepairFailed? && readOk ==>
              exists start :: StartsAtMaturity(net, db.tickets, start)
                && !(AllAnswered(node, start) && start < |node.chain| && RevokedParse(p, db.tickets))
    ensures r.RepairedFrom? ==>
              && 0 <= r.start < |node.chain| && StartsAtMaturity(net, old(db.tickets), r.start)
              && db.tickets == Repaired(net, p, node.chain, old(db.tickets), r.start, written)
              && AllRepaired(net, p, node.chain, old(db.tickets), r.start, writeOk, written)
  {
    written := {};
    if !readOk {
      return RepairFailed, written;
    }
    var revoked := db.FilterTickets((t: Ticket) => t.outcome == Revoked);
    if revoked == [] {
      return NothingRevoked, written;
    }
    var earliest := EarliestPurchaseHeight(revoked);
    var startHeight := earliest + net.ticketMaturity;
    SafeRepair(net, p, node, db.tickets, revoked, startHeight);
    hide *;
    var scanned;
    scanned, written := ScanAndWrite(net, p, node, db, revoked, startHeight, writeOk);
    r := if scanned then RepairedFrom(startHeight) else RepairFailed;
  }

  ghost predicate RevokedParse(p: Parsers, m: Store) {
    forall h | h in m && m[h].outcome == Revoked :: p.paymentScript(m[h].commitmentAddress).Some? && p.parseHash(m[h].hash).Some?
  }

  /** The scan and its writes. */
  method ScanAndWrite(net: Network, p: Parsers, node: Node, db: TicketBucket, revoked: seq<Ticket>, start: int, writeOk: string -> bool)
    returns (scanned: bool, ghost written: set<string>)
    requires Keyed(db.tickets) && Lists(db.tickets, (t: Ticket) => t.outcome == Revoked, revoked)
    requires NoFalseNegatives(node, p, Elements(revoked))
    modifies db
    ensures !scanned ==> db.tickets == old(db.tickets)
    ensures scanned ==> 0 <= start < |node.chain|
    ensures scanned ==> db.tickets == Repaired(net, p, node.chain, old(db.tickets), start, written)
    ensures scanned ==> AllRepaired(net, p, node.chain, old(db.tickets), start, writeOk, written)
    ensures AllAnswered(node, start) && start < |node.chain| && Parseable(p, revoked) ==> scanned
  {
    hide *;
    written := {};
    var found := FindSpentTickets(net, p, node, revoked, start);
    if found.Err? {
      return false, written;
    }
    var (spent, _) := found.value;
    scanned := true;
    ghost var m := db.tickets;
    ScanFinds(net, p, node.chain, m, revoked, start, spent);
    written := WriteOutcomes(net, p, node.chain, db, start, spent, writeOk);
    CoveredIsRepaired(net, p, node.chain, m, revoked, start, spent, writeOk, written);
  }

  /** The loop over what the scan found; a ticket found to have voted is skipped. */
  method WriteOutcomes(net: Network, p: Parsers, ghost chain: seq<Block>, db: TicketBucket, ghost start: nat,
                       spent: seq<SpentTicket>, writeOk: string -> bool)
    returns (ghost written: set<string>)
    requires Keyed(db.tickets) && Found(net, p, chain, db.tickets, start, spent)
    modifies db
    ensures db.tickets == Repaired(net, p, chain, old(db.tickets), start, written)
    ensures Covers(spent, |spent|, writeOk, written)
  {
    written := {};
    ghost var m := db.tickets;
    RepairNothing(net, p, chain, m, start);
    CoversNone(spent, writeOk);
    hide *;
    for k := 0 to |spent|
      invariant db.tickets == Repaired(net, p, chain, m, start, written)
      invariant Covers(spent, k, writeOk, written)
    {
      FoundAt(net, p, chain, m, start, spent, k);
      CoversMore(spent, k, writeOk, written);
      if spent[k].Voted() {
        continue;
      }
      var ok := writeOk(spent[k].dbTicket.hash);
      RepairOne(net, p, chain, m, start, written, spent[k], ok);
      var outcome := if spent[k].Missed() then Missed else Expired;
      var _ := db.UpdateTicket(spent[k].dbTicket.(outcome := outcome), ok);
      written := if ok then written + {spent[k].dbTicket.hash} else written;
    }
  }

  lemma CoversNone(spent: seq<SpentTicket>, writeOk: string -> bool)
    ensures Covers(spent, 0, writeOk, {})
  {
  }

  /** The scan starts no later than the maturity of any revoked ticket. */
  ghost predicate StartsAtMaturity(net: Network, m: Store, start: int) {
    forall h | h in m && m[h].outcome == Revoked && m[h].purchaseHeight != 0 :: start <= m[h].purchaseHeight + net.ticketMaturity
  }

  lemma SafeRepair(net: Network, p: Parsers, node: Node, m: Store, revoked: seq<Ticket>, start: int)
    requires Lists(m, (t: Ticket) => t.outcome == Revoked, revoked) && NoFalseNegatives(node, p, m.Values)
    requires forall t | t in revoked && t.purchaseHeight != 0 :: start <= t.purchaseHeight + net.ticketMaturity
    ensures StartsAtMaturity(net, m, start) && NoFalseNegatives(node, p, Elements(revoked))
    ensures RevokedParse(p, m) ==> Parseable(p, revoked)
  {
    assert Elements(revoked) <= m.Values;
  }

  lemma ScanFinds(net: Network, p: Parsers, chain: seq<Block>, m: Store, revoked: seq<Ticket>, from: nat, spent: seq<SpentTicket>)
    requires Lists(m, (t: Ticket) => t.outcome == Revoked, revoked)
    requires multiset(spent) == multiset(NaiveScan(net, p, chain, revoked, from, |chain| - 1))
    ensures Found(net, p, chain, m, from, spent)
  {
    NaiveScanReports(net, p, chain, revoked, from, |chain| - 1);
    forall e | e in spent
      ensures e in NaiveScan(net, p, chain, revoked, from, |chain| - 1)
    {
      assert e in multiset(spent);
    }
  }

  lemma FoundAt(net: Network, p: Parsers, chain: seq<Block>, m: Store, from: nat, spent: seq<SpentTicket>, k: nat)
    requires Found(net, p, chain, m, from, spent) && k < |spent|
    ensures Found(net, p, chain, m, from, [spent[k]])
  {
  }

  lemma RepairNothing(net: Network, p: Parsers, chain: seq<Block>, m: Store, from: nat)
    ensures Repaired(net, p, chain, m, from, {}) == m
  {
  }

  /** Writing one outcome found moves its ticket into the written set. */
  lemma RepairOne(net: Network, p: Parsers, chain: seq<Block>, m: Store, from: nat, written: set<string>, e: SpentTicket, ok: bool)
    requires Keyed(m) && Found(net, p, chain, m, from, [e])
    ensures e.Voted() <==> TrueOutcome(net, p, chain, e.dbTicket, from).None?
    ensures !e.Voted() ==>
              Put(Repaired(net, p, chain, m, from, written), e.dbTicket.(outcome := if e.Missed() then Missed else Expired), ok)
              == Repaired(net, p, chain, m, from, if ok then written + {e.dbTicket.hash} else written)
  {
    assert e in [e];
    var h, t := e.dbTicket.hash, e.dbTicket.(outcome := if e.Missed() then Missed else Expired);
    assert t.Normalized() == t;
    if !e.Voted() && ok {
      assert TrueOutcome(net, p, chain, m[h], from) == Some(t.outcome);
      hide TrueOutcome, FoundOutcome;
      assert Repaired(net, p, chain, m, from, written + {h}) == Repaired(net, p, chain, m, from, written)[h := t];
    }
  }

  /** Written are only tickets whose write succeeds, and of those every one among the first
      k entries that is no vote. */
  ghost predicate Covers(spent: seq<SpentTicket>, k: nat, writeOk: string -> bool, written: set<string>) {
    && (forall h | h in written :: writeOk(h))
    && forall i | 0 <= i < k && i < |spent| && !spent[i].Voted() && writeOk(spent[i].dbTicket.hash) :: spent[i].dbTicket.hash in written
  }

  lemma CoversMore(spent: seq<SpentTicket>, k: nat, writeOk: string -> bool, written: set<string>)
    requires k < |spent| && Covers(spent, k, writeOk, written)
    ensures Covers(spent, k + 1, writeOk,
                   if spent[k].Voted() || !writeOk(spent[k].dbTicket.hash) then written else written + {spent[k].dbTicket.hash})
  {
  }

  lemma CoveredIsRepaired(net: Network, p: Parsers, chain: seq<Block>, m: Store, revoked: seq<Ticket>, from: nat,
                          spent: seq<SpentTicket>, writeOk: string -> bool, written: set<string>)
    requires Lists(m, (t: Ticket) => t.outcome == Revoked, revoked) && Covers(spent, |spent|, writeOk, written)
    requires Keyed(m) && multiset(spent) == multiset(NaiveScan(net, p, chain, revoked, from, |chain| - 1))
    ensures AllRepaired(net, p, chain, m, from, writeOk, written)
  {
    var naive := NaiveScan(net, p, chain, revoked, from, |chain| - 1);
    NaiveScanReports(net, p, chain, revoked, from, |chain| - 1);
    forall h | h in m && TrueOutcome(net, p, chain, m[h], from).Some? && writeOk(h)
      ensures h in written
    {
      var e := Entry(net, p, chain, m[h], from, |chain| - 1).value;
      assert e in naive && e in multiset(naive) && e in spent;
    }
  }

  /** What the check writes, spelled out: a ticket stored as revoked whose first spender in
      the range is no vote becomes expired or missed by its height; one whose first
      spender is a vote, one without a spender and one stored as anything else stay. */
  lemma RepairWrites(net: Network, p: Parsers, chain: seq<Block>, m: Store, from: nat, writeOk: string -> bool,
                     written: set<string>, h: string, hash: string)
    requires from < |chain| && h in m && m[h].hash == h && p.parseHash(h) == Some(hash)
    ensures var now := Repaired(net, p, chain, m, from, written)[h];
      && (forall k, j | FirstSpender(chain, hash, from, |chain| - 1, k, j) ::
            if m[h].outcome == Revoked && h in written && !chain[k][j].isSSGen
            then now == m[h].(outcome := now.outcome) && Recorded(net, m[h], chain[k][j], k, now.outcome)
            else now == m[h])
      && (HasNoSpender(chain, hash, from, |chain| - 1) ==> now == m[h])
    ensures forall k, j | FirstSpender(chain, hash, from, |chain| - 1, k, j) ::
              AllRepaired(net, p, chain, m, from, writeOk, written) && m[h].outcome == Revoked && !chain[k][j].isSSGen ==>
                (h in written <==> writeOk(h))
  {
    forall k, j | FirstSpender(chain, hash, from, |chain| - 1, k, j)
      ensures Entry(net, p, chain, m[h], from, |chain| - 1)
           == Some(SpentTicket(m[h], m[h].purchaseHeight + net.ticketMaturity + net.ticketExpiry, k, chain[k][j]))
    {
      EntrySays(net, p, chain, m[h], hash, from, |chain| - 1, k, j);
    }
    if HasNoSpender(chain, hash, from, |chain| - 1) {
      NoEntry(net, p, chain, m[h], hash, from, |chain| - 1);
    }
    hide Entry, FirstSpender, HasNoSpender;
  }
}
