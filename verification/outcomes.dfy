/** Setting ticket outcomes: single scans strung together through lastScannedBlock,
    over whole runs of blocks, passes, restarts and writes by others. */
module Outcomes {
  import opened Tickets
  import opened SpentScan
  import opened TicketStore

  // ---------- One pass ----------

  /** The outcome a scan of [from, best] would give the ticket. */
  ghost function FoundOutcome(net: Network, p: Parsers, chain: seq<Block>, t: Ticket, from: nat): Option<Outcome> {
    match Entry(net, p, chain, t, from, |chain| - 1)
    case None => None
    case Some(e) => Some(e.Classify())
  }

  /** A scan of [from, best] has an outcome to record for the ticket. */
  ghost predicate Due(net: Network, p: Parsers, chain: seq<Block>, t: Ticket, from: nat) {
    t.IsVotable() && FoundOutcome(net, p, chain, t, from).Some?
  }

  /** The store after a pass in which exactly the writes of the given tickets succeeded. */
  ghost function AfterPass(net: Network, p: Parsers, chain: seq<Block>, m: Store, from: nat, written: set<string>): (r: Store)
    ensures r.Keys == m.Keys
  {
    map h | h in m ::
      if h in written && Due(net, p, chain, m[h], from)
      then m[h].(outcome := FoundOutcome(net, p, chain, m[h], from).value)
      else m[h]
  }

  /** Whether the store answers, and after how many outcomes shutdown is requested, if it is. */
  datatype PassFaults = PassFaults(readOk: bool, writeOk: string -> bool, shutdownAfter: Option<nat>) {
    /** The i-th outcome is written before any shutdown. */
    predicate Reaches(i: nat) {
      shutdownAfter.Some? ==> i < shutdownAfter.value
    }

    ghost predicate NoFault() {
      shutdownAfter == None && forall h :: writeOk(h)
    }
  }

  class Vspd {
    const net: Network
    const p: Parsers
    const db: TicketBucket
    var lastScannedBlock: int

    constructor (net: Network, p: Parsers, db: TicketBucket)
      ensures this.net == net && this.p == p && this.db == db && lastScannedBlock == 0
    {
      this.net, this.p, this.db, this.lastScannedBlock := net, p, db, 0;
    }

    /** The height a pass over the votable tickets starts from. */
    method StartHeight(votable: seq<Ticket>) returns (start: int)
      ensures lastScannedBlock != 0 ==> start == lastScannedBlock
      ensures lastScannedBlock == 0 ==>
                && (forall t | t in votable && t.purchaseHeight != 0 :: start <= t.purchaseHeight + net.ticketMaturity)
                && if forall t | t in votable :: t.purchaseHeight == 0 then start == net.ticketMaturity
                   else exists t :: t in votable && t.purchaseHeight != 0 && start == t.purchaseHeight + net.ticketMaturity
    {
      if lastScannedBlock == 0 {
        // The earliest height at which a votable ticket matured: catches tickets
        // spent while the daemon was offline.
        var earliest := EarliestPurchaseHeight(votable);
        start := earliest + net.ticketMaturity;
      } else {
        start := lastScannedBlock;
      }
    }

    /** Writes the reported outcomes one by one, until shutdown is requested. */
    method RecordOutcomes(ghost chain: seq<Block>, spent: seq<SpentTicket>, ghost start: nat, faults: PassFaults)
      returns (ghost written: set<string>)
      requires Keyed(db.tickets)
      requires Reports(net, p, chain, db.tickets, start, spent)
      modifies db
      ensures db.tickets == AfterPass(net, p, chain, old(db.tickets), start, written)
      ensures forall h | h in written :: faults.writeOk(h)
      ensures forall i | 0 <= i < |spent| && faults.Reaches(i) && faults.writeOk(spent[i].dbTicket.hash) :: spent[i].dbTicket.hash in written
    {
      hide AfterPass, Keyed;
      written := {};
      WriteNothing(net, p, chain, db.tickets, start);
      for k := 0 to |spent|
        invariant db.tickets == AfterPass(net, p, chain, old(db.tickets), start, written)
        invariant faults.shutdownAfter.Some? ==> k <= faults.shutdownAfter.value
        invariant forall h | h in written :: faults.writeOk(h)
        invariant forall i | 0 <= i < k && faults.writeOk(spent[i].dbTicket.hash) :: spent[i].dbTicket.hash in written
      {
        if faults.shutdownAfter == Some(k) {
          return;
        }
        assert spent[k] in spent;
        var dbTicket := spent[k].dbTicket.(outcome := spent[k].Classify());
        ghost var ok := faults.writeOk(dbTicket.hash);
        WriteOutcome(net, p, chain, old(db.tickets), start, written, spent[k], ok);
        var _ := db.UpdateTicket(dbTicket, faults.writeOk(dbTicket.hash));
        written := if ok then written + {dbTicket.hash} else written;
      }
    }

    /** The scan and its writes. lastScannedBlock moves before any outcome is written. */
    method ScanAndRecord(node: Node, faults: PassFaults, votable: seq<Ticket>, start: int)
      returns (scanned: bool, ghost written: set<string>)
      requires Keyed(db.tickets) && Lists(db.tickets, (t: Ticket) => t.IsVotable(), votable)
      requires NoFalseNegatives(node, p, Elements(votable))
      modifies this, db
      ensures !scanned ==> db.tickets == old(db.tickets) && lastScannedBlock == old(lastScannedBlock)
      ensures scanned ==> 0 <= start < |node.chain| && lastScannedBlock == |node.chain| - 1
      ensures scanned ==> db.tickets == AfterPass(net, p, node.chain, old(db.tickets), start, written)
      ensures scanned ==> Written(net, p, node.chain, old(db.tickets), start, faults, written)
      ensures AllAnswered(node, start) && start < |node.chain| && Parseable(p, votable) ==> scanned
    {
      hide *;
      written := {};
      var r := FindSpentTickets(net, p, node, votable, start);
      if r.Err? {
        return false, written;
      }
      var (spent, endHeight) := r.value;
      lastScannedBlock := endHeight;
      scanned := true;
      SpentIsDue(net, p, node.chain, db.tickets, votable, start, spent);
      written := RecordOutcomes(node.chain, spent, start, faults);
      DueIsWritten(net, p, node.chain, old(db.tickets), votable, start, spent, faults, written);
    }

    /** One pass. Either it does nothing, or it moves lastScannedBlock to the best block
        and records the outcomes found from its start height up, all but those whose
        write failed or came after shutdown. */
    method SetOutcomes(node: Node, faults: PassFaults)
      returns (scanned: bool, start: int, ghost written: set<string>)
      requires Keyed(db.tickets) && NoFalseNegatives(node, p, db.tickets.Values)
      modifies this, db
      ensures !scanned ==> db.tickets == old(db.tickets) && lastScannedBlock == old(lastScannedBlock)
      ensures scanned ==> 0 <= start < |node.chain| && lastScannedBlock == |node.chain| - 1
      ensures scanned ==> exists h :: h in old(db.tickets) && old(db.tickets)[h].IsVotable()
      ensures scanned ==> StartsFrom(net, old(db.tickets), old(lastScannedBlock), start)
      ensures scanned ==> db.tickets == AfterPass(net, p, node.chain, old(db.tickets), start, written)
      ensures scanned ==> Written(net, p, node.chain, old(db.tickets), start, faults, written)
      ensures scanned && faults.NoFault() ==> Complete(net, p, node.chain, old(db.tickets), start, written)
      ensures !scanned && faults.readOk && (exists h :: h in db.tickets && db.tickets[h].IsVotable()) ==>
                && StartsFrom(net, db.tickets, lastScannedBlock, start)
                && !(AllAnswered(node, start) && start < |node.chain| && AllParse(p, db.tickets))
    {
      written := {};
      start := 0;
      if !faults.readOk {
        return false, start, written;
      }
      var votable := db.FilterTickets((t: Ticket) => t.IsVotable());
      if votable == [] {
        return false, start, written;
      }
      assert votable[0].hash in db.tickets && votable[0].IsVotable();
      start := StartHeight(votable);
      SafeStart(net, node, p, db.tickets, votable, lastScannedBlock, start);
      ParseableVotable(p, db.tickets, votable);
      hide Due, AfterPass, Keyed, Lists, NoFalseNegatives, Parseable, AllParse;
      scanned, written := ScanAndRecord(node, faults, votable, start);
    }
  }

  ghost predicate AllParse(p: Parsers, m: Store) {
    forall h | h in m && m[h].IsVotable() :: p.paymentScript(m[h].commitmentAddress).Some? && p.parseHash(m[h].hash).Some?
  }

  lemma ParseableVotable(p: Parsers, m: Store, votable: seq<Ticket>)
    requires Lists(m, (t: Ticket) => t.IsVotable(), votable)
    ensures AllParse(p, m) ==> Parseable(p, votable)
  {
  }

  /** Where a pass may start: at the last scanned block, or, with none scanned since the
      daemon started, no later than the maturity of any votable ticket. */
  ghost predicate StartsFrom(net: Network, m: Store, last: int, start: int) {
    if last != 0 then start == last
    else forall h | h in m && m[h].IsVotable() && m[h].purchaseHeight != 0 :: start <= m[h].purchaseHeight + net.ticketMaturity
  }

  lemma SafeStart(net: Network, node: Node, p: Parsers, m: Store, votable: seq<Ticket>, last: int, start: int)
    requires Lists(m, (t: Ticket) => t.IsVotable(), votable) && NoFalseNegatives(node, p, m.Values)
    requires last != 0 ==> start == last
    requires last == 0 ==>
               forall t | t in votable && t.purchaseHeight != 0 :: start <= t.purchaseHeight + net.ticketMaturity
    ensures StartsFrom(net, m, last, start) && NoFalseNegatives(node, p, Elements(votable))
  {
    assert Elements(votable) <= m.Values;
  }

  /** Every outcome that was due has been written. */
  ghost predicate Complete(net: Network, p: Parsers, chain: seq<Block>, m: Store, from: nat, written: set<string>) {
    forall h | h in m && Due(net, p, chain, m[h], from) :: h in written
  }

  /** Only outcomes whose write succeeds are written, and all of those that are due unless
      shutdown is requested. */
  ghost predicate Written(net: Network, p: Parsers, chain: seq<Block>, m: Store, from: nat, faults: PassFaults, written: set<string>) {
    && (forall h | h in written :: faults.writeOk(h))
    && (faults.shutdownAfter.None? ==> forall h | h in m && Due(net, p, chain, m[h], from) && faults.writeOk(h) :: h in written)
  }

  lemma WriteNothing(net: Network, p: Parsers, chain: seq<Block>, m: Store, from: nat)
    ensures AfterPass(net, p, chain, m, from, {}) == m
  {
  }

  /** Writing one reported outcome moves its ticket into the written set. */
  lemma WriteOutcome(net: Network, p: Parsers, chain: seq<Block>, m: Store, from: nat, written: set<string>, e: SpentTicket, ok: bool)
    requires Keyed(m) && e.dbTicket.hash in m && m[e.dbTicket.hash] == e.dbTicket && Due(net, p, chain, e.dbTicket, from)
    requires FoundOutcome(net, p, chain, e.dbTicket, from) == Some(e.Classify())
    ensures Put(AfterPass(net, p, chain, m, from, written), e.dbTicket.(outcome := e.Classify()), ok)
         == AfterPass(net, p, chain, m, from, if ok then written + {e.dbTicket.hash} else written)
  {
    var h, t := e.dbTicket.hash, e.dbTicket.(outcome := e.Classify());
    var before := AfterPass(net, p, chain, m, from, written);
    var after := AfterPass(net, p, chain, m, from, written + {h});
    assert t.Normalized() == t;
    assert after == before[h := t] by {
      forall x | x in m ensures after[x] == before[h := t][x] {
      }
    }
  }

  /** Every entry names a stored ticket and the outcome due for it. */
  ghost predicate Reports(net: Network, p: Parsers, chain: seq<Block>, m: Store, from: nat, spent: seq<SpentTicket>) {
    forall e | e in spent ::
      && e.dbTicket.hash in m && m[e.dbTicket.hash] == e.dbTicket
      && Due(net, p, chain, e.dbTicket, from)
      && FoundOutcome(net, p, chain, e.dbTicket, from) == Some(e.Classify())
  }

  /** What a scan of the votable tickets reports is due. */
  lemma SpentIsDue(net: Network, p: Parsers, chain: seq<Block>, m: Store, votable: seq<Ticket>, from: nat, spent: seq<SpentTicket>)
    requires Keyed(m) && Lists(m, (t: Ticket) => t.IsVotable(), votable)
    requires multiset(spent) == multiset(NaiveScan(net, p, chain, votable, from, |chain| - 1))
    ensures Reports(net, p, chain, m, from, spent)
  {
    NaiveScanReports(net, p, chain, votable, from, |chain| - 1);
    forall e | e in spent
      ensures e in NaiveScan(net, p, chain, votable, from, |chain| - 1)
    {
      assert e in multiset(spent);
    }
  }

  /** Everything due is reported. */
  lemma DueIsSpent(net: Network, p: Parsers, chain: seq<Block>, m: Store, votable: seq<Ticket>, from: nat,
                   spent: seq<SpentTicket>, h: string)
    requires Keyed(m) && Lists(m, (t: Ticket) => t.IsVotable(), votable)
    requires multiset(spent) == multiset(NaiveScan(net, p, chain, votable, from, |chain| - 1))
    requires h in m && Due(net, p, chain, m[h], from)
    ensures exists i :: 0 <= i < |spent| && spent[i].dbTicket.hash == h
  {
    var naive := NaiveScan(net, p, chain, votable, from, |chain| - 1);
    NaiveScanReports(net, p, chain, votable, from, |chain| - 1);
    var e := Entry(net, p, chain, m[h], from, |chain| - 1).value;
    assert e in naive && e in multiset(naive) && e in spent;
  }

  lemma DueIsWritten(net: Network, p: Parsers, chain: seq<Block>, m: Store, votable: seq<Ticket>, from: nat,
                     spent: seq<SpentTicket>, faults: PassFaults, written: set<string>)
    requires Keyed(m) && Lists(m, (t: Ticket) => t.IsVotable(), votable)
    requires multiset(spent) == multiset(NaiveScan(net, p, chain, votable, from, |chain| - 1))
    requires forall h | h in written :: faults.writeOk(h)
    requires forall i | 0 <= i < |spent| && faults.Reaches(i) && faults.writeOk(spent[i].dbTicket.hash) :: spent[i].dbTicket.hash in written
    ensures Written(net, p, chain, m, from, faults, written)
  {
    forall h | h in m && Due(net, p, chain, m[h], from) && faults.writeOk(h) && faults.shutdownAfter.None? ensures h in written {
      DueIsSpent(net, p, chain, m, votable, from, spent, h);
    }
  }

  // ---------- What a pass writes, spelled out ----------

  /** What becomes of a ticket spent by the transaction at height k: a vote is recorded as
      voted; a revocation as expired if it came at the expiry height or one block later,
      and as missed otherwise. */
  predicate Recorded(net: Network, t: Ticket, tx: Tx, k: int, o: Outcome) {
    var expiryHeight := t.purchaseHeight + net.ticketMaturity + net.ticketExpiry;
    && (o == Voted <==> tx.isSSGen)
    && (o == Expired <==> !tx.isSSGen && (k == expiryHeight || k == expiryHeight + 1))
    && (o == Missed <==> !tx.isSSGen && k != expiryHeight && k != expiryHeight + 1)
  }

  /** A votable ticket whose write succeeds gets the outcome its first spender in the range
      says; without a spender, or a successful write, or if it is not votable, nothing of
      it changes. */
  lemma PassWrites(net: Network, p: Parsers, chain: seq<Block>, m: Store, from: nat, written: set<string>, h: string, hash: string)
    requires from < |chain| && h in m && m[h].hash == h && p.parseHash(h) == Some(hash)
    ensures var votable := m[h].feeTxStatus == FeeConfirmed && m[h].outcome == Votable;
            var now := AfterPass(net, p, chain, m, from, written)[h];
      && (forall k, j | FirstSpender(chain, hash, from, |chain| - 1, k, j) ::
            if votable && h in written then now == m[h].(outcome := now.outcome) && Recorded(net, m[h], chain[k][j], k, now.outcome)
            else now == m[h])
      && (HasNoSpender(chain, hash, from, |chain| - 1) ==> now == m[h])
  {
    forall k, j | FirstSpender(chain, hash, from, |chain| - 1, k, j)
      ensures Entry(net, p, chain, m[h], from, |chain| - 1)
           == Some(SpentTicket(m[h], m[h].purchaseHeight + net.ticketMaturity + net.ticketExpiry, k, chain[k][j]))
    {
      EntrySays(net, p, chain, m[h], hash, from, |chain| - 1, k, j);
    }
    if HasNoSpender(chain, hash, from, |chain| - 1) {
      NoEntry(net, p, chain, m[h], hash, from, |chain| - 1);
    }
    hide Entry, FirstSpender, HasNoSpender;
  }

  /** A complete pass has written every votable ticket with a spender in the range. */
  lemma CompleteSays(net: Network, p: Parsers, chain: seq<Block>, m: Store, from: nat, written: set<string>, h: string, hash: string, k: int, j: int)
    requires Complete(net, p, chain, m, from, written)
    requires h in m && m[h].hash == h && p.parseHash(h) == Some(hash) && FirstSpender(chain, hash, from, |chain| - 1, k, j)
    requires m[h].feeTxStatus == FeeConfirmed && m[h].outcome == Votable
    ensures h in written
  {
    EntrySays(net, p, chain, m[h], hash, from, |chain| - 1, k, j);
  }
}
