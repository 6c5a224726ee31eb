/** The updater's passes over the store other than the recording of outcomes. Each lists
    the tickets that match a query and writes them back one by one. */
module Updater {
  import opened Tickets
  import opened TicketStore
  import opened Lifecycle

  const REQUIRED_CONFS := 6

  /** The node's answer about a transaction. */
  datatype TxReport = TxFound(confirmations: Int64, blockHeight: Int64) | NoTxInfo | TxFailed

  // ---------- Passes in general ----------

  /** The store after the tickets in done have been dealt with; None is a deletion. */
  ghost function AfterEach(m: Store, done: set<string>, f: Ticket -> Option<Ticket>): Store {
    map h | h in m && (h in done ==> f(m[h]).Some?) :: if h in done then f(m[h]).value else m[h]
  }

  /** The store after a whole pass: every matching ticket is dealt with, no other changes. */
  ghost function AfterPass(m: Store, filter: Ticket -> bool, f: Ticket -> Option<Ticket>): Store {
    AfterEach(m, (set h | h in m && filter(m[h])), f)
  }

  ghost function Hashes(list: seq<Ticket>): set<string> {
    set t | t in list :: t.hash
  }

  lemma BeginPass(m: Store, f: Ticket -> Option<Ticket>, list: seq<Ticket>)
    ensures AfterEach(m, Hashes(list[..0]), f) == m
  {
    assert Hashes(list[..0]) == {};
  }

  /** The ticket at k is untouched so far, and dealing with it is one more update or deletion. */
  lemma StepPass(m: Store, filter: Ticket -> bool, f: Ticket -> Option<Ticket>, list: seq<Ticket>, k: nat)
    requires Keyed(m) && Lists(m, filter, list) && k < |list|
    ensures var t := list[k]; var was := AfterEach(m, Hashes(list[..k]), f);
      && t.hash in was && was[t.hash] == t
      && AfterEach(m, Hashes(list[..k+1]), f) == With(was, t.hash, f(t))
  {
    var t := list[k];
    assert list[..k+1] == list[..k] + [t];
    assert Hashes(list[..k+1]) == Hashes(list[..k]) + {t.hash};
    assert t.hash !in Hashes(list[..k]);
    assert t in list && m[t.hash] == t;
  }

  lemma EndPass(m: Store, filter: Ticket -> bool, f: Ticket -> Option<Ticket>, list: seq<Ticket>)
    requires Keyed(m) && Lists(m, filter, list)
    ensures AfterEach(m, Hashes(list[..|list|]), f) == AfterPass(m, filter, f)
  {
    assert list[..|list|] == list;
    assert Hashes(list) == set h | h in m && filter(m[h]);
  }

  // ---------- The passes ----------

  datatype UnconfirmedFaults = UnconfirmedFaults(writeOk: string -> bool, deleteOk: string -> bool)

  /** What the first pass makes of one unconfirmed ticket. */
  ghost function Confirmed(cfg: Config, report: string -> TxReport, f: UnconfirmedFaults, t: Ticket): Option<Ticket> {
    match report(t.hash)
    case NoTxInfo => if f.deleteOk(t.hash) then None else Some(t)
    case TxFailed => Some(t)
    case TxFound(confirmations, height) =>
      if confirmations >= REQUIRED_CONFS && f.writeOk(t.hash) then Some(Apply(cfg, Confirm(height), t)) else Some(t)
  }

  /** Confirms tickets with six confirmations and deletes those the node knows nothing about. */
  method UpdateUnconfirmed(ghost cfg: Config, db: TicketBucket, report: string -> TxReport, faults: UnconfirmedFaults)
    requires Keyed(db.tickets)
    modifies db
    ensures db.tickets == AfterPass(old(db.tickets), (t: Ticket) => !t.confirmed, (t: Ticket) => Confirmed(cfg, report, faults, t))
  {
    var unconfirmed := db.FilterTickets((t: Ticket) => !t.confirmed);
    ghost var m, filter, f := db.tickets, (t: Ticket) => !t.confirmed, (t: Ticket) => Confirmed(cfg, report, faults, t);
    BeginPass(m, f, unconfirmed);
    hide AfterEach, Lists, Hashes;
    for k := 0 to |unconfirmed|
      invariant db.tickets == AfterEach(m, Hashes(unconfirmed[..k]), f)
    {
      StepPass(m, filter, f, unconfirmed, k);
      AllocatedMaps(m, filter, unconfirmed, k);
      ConfirmOrDelete(cfg, db, unconfirmed[k], report, faults);
    }
    EndPass(m, filter, f, unconfirmed);
  }

  /** m with the ticket under the hash replaced or deleted. */
  ghost function With(m: Store, hash: string, r: Option<Ticket>): Store {
    match r
    case None => m - {hash}
    case Some(t) => m[hash := t]
  }

  /** The body of the first pass. */
  method ConfirmOrDelete(ghost cfg: Config, db: TicketBucket, ticket: Ticket, report: string -> TxReport, faults: UnconfirmedFaults)
    requires ticket.Normalized() == ticket && ticket.hash in db.tickets && db.tickets[ticket.hash] == ticket
    modifies db
    ensures db.tickets == With(old(db.tickets), ticket.hash, Confirmed(cfg, report, faults, ticket))
  {
    match report(ticket.hash) {
      case NoTxInfo =>
        var _ := db.DeleteTicket(ticket, faults.deleteOk(ticket.hash));
      case TxFailed =>
      case TxFound(confirmations, blockHeight) =>
        if confirmations >= REQUIRED_CONFS {
          var _ := db.UpdateTicket(ticket.(purchaseHeight := blockHeight, confirmed := true), faults.writeOk(ticket.hash));
        }
    }
  }

  lemma AllocatedMaps(m: Store, filter: Ticket -> bool, list: seq<Ticket>, k: nat)
    requires Keyed(m) && Lists(m, filter, list) && k < |list|
    ensures filter(list[k]) && list[k].Normalized() == list[k]
  {
    assert list[k] in list;
  }

  /** What the second pass makes of one ticket whose fee is waiting to be broadcast. */
  ghost function Broadcast(cfg: Config, sendOk: string -> bool, writeOk: string -> bool, t: Ticket): Option<Ticket> {
    if writeOk(t.hash) then Some(Apply(cfg, FeeSent(sendOk(t.feeTxHex)), t)) else Some(t)
  }

  method BroadcastFees(ghost cfg: Config, db: TicketBucket, sendOk: string -> bool, writeOk: string -> bool)
    requires Keyed(db.tickets)
    modifies db
    ensures db.tickets == AfterPass(old(db.tickets), (t: Ticket) => t.confirmed && t.feeTxStatus == FeeReceived,
                                    (t: Ticket) => Broadcast(cfg, sendOk, writeOk, t))
  {
    var pending := db.FilterTickets((t: Ticket) => t.confirmed && t.feeTxStatus == FeeReceived);
    ghost var m, filter, f := db.tickets, (t: Ticket) => t.confirmed && t.feeTxStatus == FeeReceived,
                              (t: Ticket) => Broadcast(cfg, sendOk, writeOk, t);
    BeginPass(m, f, pending);
    hide AfterEach, Lists, Hashes;
    for k := 0 to |pending|
      invariant db.tickets == AfterEach(m, Hashes(pending[..k]), f)
    {
      StepPass(m, filter, f, pending, k);
      AllocatedMaps(m, filter, pending, k);
      var ticket := pending[k];
      if !sendOk(ticket.feeTxHex) {
        ticket := ticket.(feeTxStatus := FeeError);
      } else {
        ticket := ticket.(feeTxStatus := FeeBroadcast);
      }
      var _ := db.UpdateTicket(ticket, writeOk(ticket.hash));
    }
    EndPass(m, filter, f, pending);
  }

  /** How the connected wallets answer. A wallet without the agenda rejects it, and the
      agenda is then taken out of the ticket. */
  datatype Wallets = Wallets(count: nat, addOk: (nat, string) -> bool, noAgenda: (nat, string) -> bool)

  /** dropOk says whether a write that deletes an agenda some wallet rejects succeeds. */
  datatype FeeFaults = FeeFaults(writeOk: string -> bool, ticketOk: string -> bool, dropOk: (nat, string, string) -> bool) {
    ghost predicate DropsOk() {
      forall i, h, a :: dropOk(i, h, a)
    }
  }

  /** The ticket without some of its consensus choices. */
  function Without(t: Ticket, agendas: set<string>): Ticket {
    t.(voteChoices := StringMap(t.voteChoices.Entries() - agendas))
  }

  /** The agendas of the ticket that some wallet it was added to rejects. */
  ghost function Rejected(w: Wallets, n: nat, hash: string, choices: map<string, string>): set<string> {
    set a | a in choices && exists i :: 0 <= i < n && w.addOk(i, hash) && w.noAgenda(i, a)
  }

  /** What is deleted from the stored ticket: only rejected agendas, and all of them if
      every such write succeeds. */
  ghost predicate Drops(w: Wallets, n: nat, f: FeeFaults, t: Ticket, dropped: set<string>) {
    var rejected := Rejected(w, n, t.hash, t.voteChoices.Entries());
    dropped <= rejected && (f.DropsOk() ==> dropped == rejected)
  }

  /** What the third pass makes of one ticket whose fee is broadcast. */
  ghost function FeeChecked(cfg: Config, report: string -> TxReport, f: FeeFaults, dropped: set<string>, t: Ticket): Option<Ticket> {
    if !f.writeOk(t.hash) then Some(t)
    else match report(t.feeTxHash)
      case TxFound(confirmations, _) =>
        if confirmations < REQUIRED_CONFS then Some(t)
        else Some(Without(Apply(cfg, ConfirmFee, t), if f.ticketOk(t.hash) then dropped else {}))
      case _ => Some(Apply(cfg, LoseFee, t))
  }

  /** Sets the choices of one ticket on one wallet, dropping from ticket and store each
      agenda the wallet rejects. Dropping the agenda at hand does not disturb the loop. */
  method SetChoicesOnWallet(db: TicketBucket, ticket: Ticket, w: Wallets, i: nat, faults: FeeFaults,
                            ghost base: Ticket, ghost gone: set<string>, ghost before: set<string>)
    returns (t: Ticket, ghost dropped: set<string>)
    requires ticket == Without(base, gone) && Normal(base)
    requires ticket.hash in db.tickets && db.tickets[ticket.hash] == Without(base, before)
    requires before <= gone && (faults.DropsOk() ==> before == gone)
    modifies db
    ensures t == Without(base, gone + DroppedBy(w, i, base.voteChoices.Entries()))
    ensures db.tickets == old(db.tickets)[ticket.hash := Without(base, dropped)]
    ensures dropped <= gone + DroppedBy(w, i, base.voteChoices.Entries())
    ensures faults.DropsOk() ==> dropped == gone + DroppedBy(w, i, base.voteChoices.Entries())
  {
    t, dropped := ticket, before;
    var todo := ticket.voteChoices.Entries().Keys;
    ghost var all := base.voteChoices.Entries();
    ghost var out := gone;
    ghost var rejects := DroppedBy(w, i, all);
    hide FeeFaults.DropsOk;
    assert rejects - todo <= gone;
    while todo != {}
      invariant todo <= all.Keys && out == gone + (rejects - todo) && t == Without(base, out)
      invariant todo !! out
      invariant db.tickets == old(db.tickets)[ticket.hash := Without(base, dropped)]
      invariant dropped <= out && (faults.DropsOk() ==> dropped == out)
      decreases todo
    {
      var agenda :| agenda in todo;
      todo := todo - {agenda};
      if w.noAgenda(i, agenda) {
        DropOne(base, out, agenda);
        t := Without(t, {agenda});
        out := out + {agenda};
        var ok := faults.dropOk(i, ticket.hash, agenda);
        DropIsOk(faults, i, ticket.hash, agenda);
        var _ := db.UpdateTicket(t, ok);
        dropped := if ok then out else dropped;
      }
    }
    assert rejects - todo == rejects;
  }

  ghost predicate Normal(t: Ticket) {
    t.Normalized() == t
  }

  lemma DropOne(base: Ticket, out: set<string>, a: string)
    ensures Without(Without(base, out), {a}) == Without(base, out + {a})
    ensures Normal(base) ==> Normal(Without(base, out + {a}))
  {
    assert (base.voteChoices.Entries() - out) - {a} == base.voteChoices.Entries() - (out + {a});
  }

  lemma DropIsOk(f: FeeFaults, i: nat, h: string, a: string)
    ensures f.DropsOk() ==> f.dropOk(i, h, a)
  {
  }

  ghost function DroppedBy(w: Wallets, i: nat, choices: map<string, string>): set<string> {
    set a | a in choices && w.noAgenda(i, a)
  }

  /** Adds one ticket to every wallet. */
  method AddToEveryWallet(db: TicketBucket, ticket: Ticket, w: Wallets, faults: FeeFaults) returns (ghost dropped: set<string>)
    requires Normal(ticket) && ticket.hash in db.tickets && db.tickets[ticket.hash] == ticket
    modifies db
    ensures Drops(w, w.count, faults, ticket, dropped)
    ensures db.tickets == old(db.tickets)[ticket.hash := Without(ticket, dropped)]
  {
    var t := ticket;
    dropped := {};
    ghost var choices := ticket.voteChoices.Entries();
    NoneRejected(w, ticket);
    hide Rejected, DroppedBy, FeeFaults.DropsOk;
    for i := 0 to w.count
      invariant t == Without(ticket, Rejected(w, i, ticket.hash, choices))
      invariant Drops(w, i, faults, ticket, dropped)
      invariant db.tickets == old(db.tickets)[ticket.hash := Without(ticket, dropped)]
    {
      MoreRejected(w, i, ticket.hash, choices);
      if w.addOk(i, ticket.hash) {
        t, dropped := SetChoicesOnWallet(db, t, w, i, faults, ticket, Rejected(w, i, ticket.hash, choices), dropped);
      }
    }
  }

  lemma NoneRejected(w: Wallets, t: Ticket)
    requires Normal(t)
    ensures Rejected(w, 0, t.hash, t.voteChoices.Entries()) == {} && Without(t, {}) == t
  {
    assert t.voteChoices.Entries() - {} == t.voteChoices.Entries();
  }

  lemma MoreRejected(w: Wallets, i: nat, hash: string, choices: map<string, string>)
    ensures w.addOk(i, hash) ==> Rejected(w, i + 1, hash, choices) == Rejected(w, i, hash, choices) + DroppedBy(w, i, choices)
    ensures !w.addOk(i, hash) ==> Rejected(w, i + 1, hash, choices) == Rejected(w, i, hash, choices)
  {
  }

  /** The agendas deleted from each stored ticket in the course of a pass. */
  type DropMap = map<string, set<string>>

  ghost function DropsOf(drops: DropMap, hash: string): set<string> {
    if hash in drops then drops[hash] else {}
  }

  /** Marks faulty and confirmed fees, and adds tickets with a confirmed fee to the wallets. */
  method AddToWallets(ghost cfg: Config, db: TicketBucket, report: string -> TxReport, w: Wallets, faults: FeeFaults)
    returns (ghost drops: DropMap)
    requires Keyed(db.tickets)
    modifies db
    ensures w.count == 0 ==> db.tickets == old(db.tickets)
    ensures w.count > 0 ==>
              && db.tickets == AfterPass(old(db.tickets), (t: Ticket) => t.feeTxStatus == FeeBroadcast,
                                         (t: Ticket) => FeeChecked(cfg, report, faults, DropsOf(drops, t.hash), t))
              && DropsMade(old(db.tickets), w, faults, drops)
  {
    drops := map[];
    var unconfirmedFees := db.FilterTickets((t: Ticket) => t.feeTxStatus == FeeBroadcast);
    if w.count == 0 {
      return;
    }
    ghost var m := db.tickets;
    PassStarts(cfg, m, report, faults, unconfirmedFees);
    for k := 0 to |unconfirmedFees|
      invariant Checked(cfg, m, report, faults, drops, Hashes(unconfirmedFees[..k]), db.tickets)
      invariant DropsFor(m, w, faults, drops, Hashes(unconfirmedFees[..k]))
    {
      PassReaches(cfg, m, report, faults, drops, unconfirmedFees, k, db.tickets);
      hide *;
      ghost var before := db.tickets;
      ghost var dropped := CheckFee(cfg, db, unconfirmedFees[k], report, w, faults);
      PassGoesOn(cfg, m, report, w, faults, drops, unconfirmedFees, k, dropped, before, db.tickets);
      drops := drops[unconfirmedFees[k].hash := dropped];
    }
    PassEnds(cfg, m, report, w, faults, drops, unconfirmedFees, db.tickets);
  }

  ghost predicate Checked(cfg: Config, m: Store, report: string -> TxReport, faults: FeeFaults, drops: DropMap, done: set<string>, now: Store) {
    now == AfterEach(m, done, (t: Ticket) => FeeChecked(cfg, report, faults, DropsOf(drops, t.hash), t))
  }

  ghost predicate DropsFor(m: Store, w: Wallets, faults: FeeFaults, drops: DropMap, done: set<string>) {
    forall h | h in done && h in m :: Drops(w, w.count, faults, m[h], DropsOf(drops, h))
  }

  /** Every listed ticket lost only what it may. */
  ghost predicate DropsMade(m: Store, w: Wallets, faults: FeeFaults, drops: DropMap) {
    forall h | h in m && m[h].feeTxStatus == FeeBroadcast :: Drops(w, w.count, faults, m[h], DropsOf(drops, h))
  }

  lemma PassStarts(cfg: Config, m: Store, report: string -> TxReport, faults: FeeFaults, list: seq<Ticket>)
    ensures Checked(cfg, m, report, faults, map[], Hashes(list[..0]), m) && Hashes(list[..0]) == {}
  {
  }

  lemma PassReaches(cfg: Config, m: Store, report: string -> TxReport, faults: FeeFaults, drops: DropMap,
                    list: seq<Ticket>, k: nat, now: Store)
    requires Keyed(m) && Lists(m, (t: Ticket) => t.feeTxStatus == FeeBroadcast, list) && k < |list|
    requires Checked(cfg, m, report, faults, drops, Hashes(list[..k]), now)
    ensures Normal(list[k]) && list[k].hash in now && now[list[k].hash] == list[k]
  {
    var filter, f := (t: Ticket) => t.feeTxStatus == FeeBroadcast, (t: Ticket) => FeeChecked(cfg, report, faults, DropsOf(drops, t.hash), t);
    StepPass(m, filter, f, list, k);
    AllocatedMaps(m, filter, list, k);
  }

  lemma PassGoesOn(cfg: Config, m: Store, report: string -> TxReport, w: Wallets, faults: FeeFaults, drops: DropMap,
                   list: seq<Ticket>, k: nat, dropped: set<string>, before: Store, now: Store)
    requires Keyed(m) && Lists(m, (t: Ticket) => t.feeTxStatus == FeeBroadcast, list) && k < |list|
    requires Checked(cfg, m, report, faults, drops, Hashes(list[..k]), before)
    requires DropsFor(m, w, faults, drops, Hashes(list[..k])) && Drops(w, w.count, faults, list[k], dropped)
    requires FeeChecked(cfg, report, faults, dropped, list[k]).Some?
    requires now == before[list[k].hash := FeeChecked(cfg, report, faults, dropped, list[k]).value]
    ensures var drops' := drops[list[k].hash := dropped];
      && Checked(cfg, m, report, faults, drops', Hashes(list[..k+1]), now)
      && DropsFor(m, w, faults, drops', Hashes(list[..k+1]))
  {
    var t, drops' := list[k], drops[list[k].hash := dropped];
    var filter, f, f' := (t: Ticket) => t.feeTxStatus == FeeBroadcast,
      (t: Ticket) => FeeChecked(cfg, report, faults, DropsOf(drops, t.hash), t),
      (t: Ticket) => FeeChecked(cfg, report, faults, DropsOf(drops', t.hash), t);
    StepPass(m, filter, f', list, k);
    assert t.hash !in Hashes(list[..k]) && m[t.hash] == t && Hashes(list[..k+1]) == Hashes(list[..k]) + {t.hash} by {
      HashesGrow(m, filter, list, k);
    }
    hide Hashes, Lists, Drops, FeeChecked;
    OtherDrops(cfg, m, report, faults, drops, Hashes(list[..k]), t.hash, dropped);
    hide AfterEach;
  }

  /** Recording what a ticket loses says nothing about the others. */
  lemma OtherDrops(cfg: Config, m: Store, report: string -> TxReport, faults: FeeFaults, drops: DropMap, done: set<string>,
                   hash: string, dropped: set<string>)
    requires hash !in done && forall h | h in m :: m[h].hash == h
    ensures var drops' := drops[hash := dropped];
      AfterEach(m, done, (t: Ticket) => FeeChecked(cfg, report, faults, DropsOf(drops', t.hash), t))
      == AfterEach(m, done, (t: Ticket) => FeeChecked(cfg, report, faults, DropsOf(drops, t.hash), t))
  {
    hide FeeChecked;
  }

  lemma HashesGrow(m: Store, filter: Ticket -> bool, list: seq<Ticket>, k: nat)
    requires Lists(m, filter, list) && k < |list|
    ensures list[k].hash !in Hashes(list[..k]) && list[k].hash in m && m[list[k].hash] == list[k]
    ensures Hashes(list[..k+1]) == Hashes(list[..k]) + {list[k].hash}
  {
    assert list[..k+1] == list[..k] + [list[k]] && list[k] in list;
  }

  lemma PassEnds(cfg: Config, m: Store, report: string -> TxReport, w: Wallets, faults: FeeFaults, drops: DropMap,
                 list: seq<Ticket>, now: Store)
    requires Keyed(m) && Lists(m, (t: Ticket) => t.feeTxStatus == FeeBroadcast, list)
    requires Checked(cfg, m, report, faults, drops, Hashes(list[..|list|]), now)
    requires DropsFor(m, w, faults, drops, Hashes(list[..|list|]))
    ensures now == AfterPass(m, (t: Ticket) => t.feeTxStatus == FeeBroadcast,
                             (t: Ticket) => FeeChecked(cfg, report, faults, DropsOf(drops, t.hash), t))
    ensures DropsMade(m, w, faults, drops)
  {
    var filter, f := (t: Ticket) => t.feeTxStatus == FeeBroadcast, (t: Ticket) => FeeChecked(cfg, report, faults, DropsOf(drops, t.hash), t);
    EndPass(m, filter, f, list);
    assert list[..|list|] == list;
    hide Drops;
    assert forall h | h in m && filter(m[h]) :: m[h] in list && m[h].hash == h;
  }

  /** The body of the third pass. */
  method CheckFee(ghost cfg: Config, db: TicketBucket, listed: Ticket, report: string -> TxReport, w: Wallets, faults: FeeFaults)
    returns (ghost dropped: set<string>)
    requires Normal(listed) && listed.hash in db.tickets && db.tickets[listed.hash] == listed
    modifies db
    ensures Drops(w, w.count, faults, listed, dropped)
    ensures FeeChecked(cfg, report, faults, dropped, listed).Some?
    ensures db.tickets == old(db.tickets)[listed.hash := FeeChecked(cfg, report, faults, dropped, listed).value]
  {
    var ticket := listed;
    dropped := Rejected(w, w.count, listed.hash, listed.voteChoices.Entries());
    assert ticket.voteChoices.Entries() - {} == ticket.voteChoices.Entries();
    hide Rejected, FeeFaults.DropsOk;
    match report(ticket.feeTxHash) {
      case TxFound(confirmations, _) =>
        if confirmations >= REQUIRED_CONFS {
          ticket := ticket.(feeTxHex := "", feeTxStatus := FeeConfirmed);
          var updated := db.UpdateTicket(ticket, faults.writeOk(ticket.hash));
          // The ticket itself is fetched again before it is added to the wallets.
          if updated && faults.ticketOk(ticket.hash) {
            dropped := AddToEveryWallet(db, ticket, w, faults);
          }
        }
      case _ =>
        ticket := ticket.(feeTxStatus := FeeError);
        var _ := db.UpdateTicket(ticket, faults.writeOk(ticket.hash));
    }
  }

  /** The repair of purchase heights at start. */
  ghost function HeightSet(cfg: Config, report: string -> TxReport, writeOk: string -> bool, t: Ticket): Option<Ticket> {
    match report(t.hash)
    case TxFound(_, height) => if writeOk(t.hash) then Some(Apply(cfg, SetHeight(height), t)) else Some(t)
    case _ => Some(t)
  }

  method CheckPurchaseHeights(ghost cfg: Config, db: TicketBucket, report: string -> TxReport, writeOk: string -> bool)
    requires Keyed(db.tickets)
    modifies db
    ensures db.tickets == AfterPass(old(db.tickets), (t: Ticket) => t.confirmed && t.purchaseHeight == 0,
                                    (t: Ticket) => HeightSet(cfg, report, writeOk, t))
  {
    var missing := db.FilterTickets((t: Ticket) => t.confirmed && t.purchaseHeight == 0);
    ghost var m, filter, f := db.tickets, (t: Ticket) => t.confirmed && t.purchaseHeight == 0,
                              (t: Ticket) => HeightSet(cfg, report, writeOk, t);
    BeginPass(m, f, missing);
    hide AfterEach, Lists, Hashes;
    for k := 0 to |missing|
      invariant db.tickets == AfterEach(m, Hashes(missing[..k]), f)
    {
      StepPass(m, filter, f, missing, k);
      AllocatedMaps(m, filter, missing, k);
      FixHeight(cfg, db, missing[k], report, writeOk);
    }
    EndPass(m, filter, f, missing);
  }

  method FixHeight(ghost cfg: Config, db: TicketBucket, ticket: Ticket, report: string -> TxReport, writeOk: string -> bool)
    requires ticket.Normalized() == ticket && ticket.hash in db.tickets && db.tickets[ticket.hash] == ticket
    modifies db
    ensures db.tickets == With(old(db.tickets), ticket.hash, HeightSet(cfg, report, writeOk, ticket))
  {
    match report(ticket.hash) {
      case TxFound(_, blockHeight) =>
        var _ := db.UpdateTicket(ticket.(purchaseHeight := blockHeight), writeOk(ticket.hash));
      case _ =>
    }
  }

  // ---------- The passes keep every record in order ----------

  /** f turns a record in order into a record in order of the same ticket. */
  ghost predicate KeepsRecords(cfg: Config, filter: Ticket -> bool, f: Ticket -> Option<Ticket>) {
    forall t | RecordOK(cfg, t) && t.MapsAllocated() && filter(t) && f(t).Some? ::
      RecordOK(cfg, f(t).value) && f(t).value.MapsAllocated() && f(t).value.hash == t.hash
  }

  lemma PassKeepsStore(cfg: Config, m: Store, filter: Ticket -> bool, f: Ticket -> Option<Ticket>)
    requires StoreOK(cfg, m) && KeepsRecords(cfg, filter, f)
    ensures StoreOK(cfg, AfterPass(m, filter, f))
  {
    hide RecordOK;
    forall h | h in AfterPass(m, filter, f)
      ensures RecordOK(cfg, AfterPass(m, filter, f)[h])
    {
      assert RecordOK(cfg, m[h]) && m[h].MapsAllocated();
    }
  }

  /** A transaction with six confirmations is in a block above the first. */
  ghost predicate ReportsHeights(report: string -> TxReport) {
    forall h: string :: report(h).TxFound? && report(h).confirmations >= REQUIRED_CONFS ==> report(h).blockHeight > 0
  }

  /** Dropping choices keeps the others valid. */
  lemma DroppingKeepsRecord(cfg: Config, t: Ticket, drop: set<string>)
    requires RecordOK(cfg, t)
    ensures RecordOK(cfg, Without(t, drop))
  {
    if t.FeeTxKnown() {
      var tx :| cfg.txHash(tx) == t.feeTxHash && Pays(cfg, tx, t);
      assert Pays(cfg, tx, Without(t, drop));
    }
  }

  lemma UnconfirmedKeepsRecords(cfg: Config, report: string -> TxReport, f: UnconfirmedFaults)
    requires cfg.Sound() && ReportsHeights(report)
    ensures KeepsRecords(cfg, (t: Ticket) => !t.confirmed, (t: Ticket) => Confirmed(cfg, report, f, t))
  {
    hide RecordOK;
    forall t | RecordOK(cfg, t) && t.MapsAllocated() && !t.confirmed && Confirmed(cfg, report, f, t).Some?
      ensures RecordOK(cfg, Confirmed(cfg, report, f, t).value)
    {
      if Confirmed(cfg, report, f, t).value != t {
        ActionKeepsRecordOK(cfg, UnconfirmedTicket, Confirm(report(t.hash).blockHeight), t);
      }
    }
  }

  lemma BroadcastKeepsRecords(cfg: Config, sendOk: string -> bool, writeOk: string -> bool)
    requires cfg.Sound()
    ensures KeepsRecords(cfg, (t: Ticket) => t.confirmed && t.feeTxStatus == FeeReceived,
                         (t: Ticket) => Broadcast(cfg, sendOk, writeOk, t))
  {
    hide RecordOK;
    forall t | RecordOK(cfg, t) && t.MapsAllocated() && t.confirmed && t.feeTxStatus == FeeReceived
      ensures RecordOK(cfg, Broadcast(cfg, sendOk, writeOk, t).value)
    {
      ActionKeepsRecordOK(cfg, PendingFee, FeeSent(sendOk(t.feeTxHex)), t);
    }
  }

  lemma FeeCheckedKeepsRecords(cfg: Config, report: string -> TxReport, f: FeeFaults, drops: DropMap)
    requires cfg.Sound()
    ensures KeepsRecords(cfg, (t: Ticket) => t.feeTxStatus == FeeBroadcast,
                         (t: Ticket) => FeeChecked(cfg, report, f, DropsOf(drops, t.hash), t))
  {
    hide RecordOK, FeeChecked, DropsOf;
    forall t | RecordOK(cfg, t) && t.MapsAllocated() && t.feeTxStatus == FeeBroadcast
      ensures var u := FeeChecked(cfg, report, f, DropsOf(drops, t.hash), t);
        u.Some? && RecordOK(cfg, u.value) && u.value.MapsAllocated() && u.value.hash == t.hash
    {
      FeeCheckedOK(cfg, report, f, DropsOf(drops, t.hash), t);
    }
  }

  /** Every pass of the updater, whatever the node and the wallets answer and whichever
      writes fail, leaves every stored record in order; the height repair changes nothing. */
  lemma UpdaterKeepsStore(cfg: Config, m: Store, report: string -> TxReport, sendOk: string -> bool,
                          uf: UnconfirmedFaults, ff: FeeFaults, drops: DropMap)
    requires cfg.Sound() && StoreOK(cfg, m) && ReportsHeights(report)
    ensures StoreOK(cfg, AfterPass(m, (t: Ticket) => !t.confirmed, (t: Ticket) => Confirmed(cfg, report, uf, t)))
    ensures StoreOK(cfg, AfterPass(m, (t: Ticket) => t.confirmed && t.feeTxStatus == FeeReceived,
                                   (t: Ticket) => Broadcast(cfg, sendOk, uf.writeOk, t)))
    ensures StoreOK(cfg, AfterPass(m, (t: Ticket) => t.feeTxStatus == FeeBroadcast,
                                   (t: Ticket) => FeeChecked(cfg, report, ff, DropsOf(drops, t.hash), t)))
    ensures AfterPass(m, (t: Ticket) => t.confirmed && t.purchaseHeight == 0,
                      (t: Ticket) => HeightSet(cfg, report, uf.writeOk, t)) == m
  {
    hide *;
    UnconfirmedKeepsRecords(cfg, report, uf);
    PassKeepsStore(cfg, m, (t: Ticket) => !t.confirmed, (t: Ticket) => Confirmed(cfg, report, uf, t));
    BroadcastKeepsRecords(cfg, sendOk, uf.writeOk);
    PassKeepsStore(cfg, m, (t: Ticket) => t.confirmed && t.feeTxStatus == FeeReceived,
                   (t: Ticket) => Broadcast(cfg, sendOk, uf.writeOk, t));
    FeeCheckedKeepsRecords(cfg, report, ff, drops);
    PassKeepsStore(cfg, m, (t: Ticket) => t.feeTxStatus == FeeBroadcast, (t: Ticket) => FeeChecked(cfg, report, ff, DropsOf(drops, t.hash), t));
    NoHeightMissing(cfg, m, (t: Ticket) => HeightSet(cfg, report, uf.writeOk, t));
  }

  lemma FeeCheckedOK(cfg: Config, report: string -> TxReport, f: FeeFaults, dropped: set<string>, t: Ticket)
    requires cfg.Sound() && RecordOK(cfg, t) && t.MapsAllocated() && t.feeTxStatus == FeeBroadcast
    ensures FeeChecked(cfg, report, f, dropped, t).Some? && RecordOK(cfg, FeeChecked(cfg, report, f, dropped, t).value)
    ensures FeeChecked(cfg, report, f, dropped, t).value.MapsAllocated() && FeeChecked(cfg, report, f, dropped, t).value.hash == t.hash
  {
    ActionKeepsRecordOK(cfg, UnconfirmedFee, ConfirmFee, t);
    ActionKeepsRecordOK(cfg, UnconfirmedFee, LoseFee, t);
    DroppingKeepsRecord(cfg, Apply(cfg, ConfirmFee, t), dropped);
    DroppingKeepsRecord(cfg, Apply(cfg, ConfirmFee, t), {});
    hide RecordOK;
  }

  lemma NoHeightMissing(cfg: Config, m: Store, f: Ticket -> Option<Ticket>)
    requires StoreOK(cfg, m)
    ensures AfterPass(m, (t: Ticket) => t.confirmed && t.purchaseHeight == 0, f) == m
  {
  }

  // ---------- The passes spelled out, ticket by ticket ----------

  /** A confirmed ticket stays as it is. Of an unconfirmed one, six confirmations set the
      height and the mark, no information deletes it, anything else leaves it. */
  lemma UnconfirmedSays(cfg: Config, m: Store, report: string -> TxReport, f: UnconfirmedFaults, h: string)
    requires h in m && m[h].hash == h
    ensures var t, m' := m[h], AfterPass(m, (t: Ticket) => !t.confirmed, (t: Ticket) => Confirmed(cfg, report, f, t));
      if t.confirmed then h in m' && m'[h] == t
      else match report(h)
        case NoTxInfo => if f.deleteOk(h) then h !in m' else h in m' && m'[h] == t
        case TxFailed => h in m' && m'[h] == t
        case TxFound(confirmations, height) =>
          h in m' && m'[h] == if confirmations >= 6 && f.writeOk(h) then t.(purchaseHeight := height, confirmed := true) else t
  {
  }

  /** A confirmed ticket with a received fee becomes broadcast if the node takes the
      transaction and faulty if not; any other ticket stays as it is. */
  lemma BroadcastSays(cfg: Config, m: Store, sendOk: string -> bool, writeOk: string -> bool, h: string)
    requires h in m && m[h].hash == h
    ensures var t, m' := m[h], AfterPass(m, (t: Ticket) => t.confirmed && t.feeTxStatus == FeeReceived,
                                         (t: Ticket) => Broadcast(cfg, sendOk, writeOk, t));
      h in m' && m'[h] ==
        if t.confirmed && t.feeTxStatus == FeeReceived && writeOk(h)
        then t.(feeTxStatus := if sendOk(t.feeTxHex) then FeeBroadcast else FeeError) else t
  {
  }

  /** A broadcast fee becomes confirmed, without its text and without the agendas dropped,
      at six confirmations, and faulty if the node cannot report it; with fewer
      confirmations, or another status, the ticket stays as it is. */
  lemma FeeCheckedSays(cfg: Config, m: Store, report: string -> TxReport, f: FeeFaults, drops: DropMap, h: string)
    requires h in m && m[h].hash == h && m[h].MapsAllocated()
    ensures var t, m' := m[h], AfterPass(m, (t: Ticket) => t.feeTxStatus == FeeBroadcast,
                                         (t: Ticket) => FeeChecked(cfg, report, f, DropsOf(drops, t.hash), t));
      h in m' &&
        if t.feeTxStatus != FeeBroadcast || !f.writeOk(h) then m'[h] == t
        else match report(t.feeTxHash)
          case TxFound(confirmations, _) =>
            if confirmations < 6 then m'[h] == t
            else
              && m'[h] == t.(feeTxHex := "", feeTxStatus := FeeConfirmed, voteChoices := m'[h].voteChoices)
              && m'[h].voteChoices.Entries()
                 == if f.ticketOk(h) && h in drops then t.voteChoices.Entries() - drops[h] else t.voteChoices.Entries()
          case _ => m'[h] == t.(feeTxStatus := FeeError)
  {
    assert m[h].voteChoices.Entries() - {} == m[h].voteChoices.Entries();
  }

  /** An agenda is dropped only if some wallet the ticket was added to does not know it,
      and then always, if the writes succeed. */
  lemma DropsSay(w: Wallets, f: FeeFaults, t: Ticket, dropped: set<string>, agenda: string)
    requires Drops(w, w.count, f, t, dropped)
    ensures agenda in dropped ==> agenda in t.voteChoices.Entries()
    ensures agenda in dropped ==> exists i :: 0 <= i < w.count && w.addOk(i, t.hash) && w.noAgenda(i, agenda)
    ensures (forall i, h, a :: f.dropOk(i, h, a)) ==>
              (agenda in dropped <==>
               agenda in t.voteChoices.Entries() && exists i :: 0 <= i < w.count && w.addOk(i, t.hash) && w.noAgenda(i, agenda))
  {
  }

  /** Only a confirmed ticket without a height is given the one the node reports. */
  lemma HeightSays(cfg: Config, m: Store, report: string -> TxReport, writeOk: string -> bool, h: string)
    requires h in m && m[h].hash == h
    ensures var t, m' := m[h], AfterPass(m, (t: Ticket) => t.confirmed && t.purchaseHeight == 0,
                                         (t: Ticket) => HeightSet(cfg, report, writeOk, t));
      h in m' && m'[h] ==
        if t.confirmed && t.purchaseHeight == 0 && report(h).TxFound? && writeOk(h)
        then t.(purchaseHeight := report(h).blockHeight) else t
  {
  }

  /** No pass adds a ticket. */
  lemma PassAddsNone(m: Store, filter: Ticket -> bool, f: Ticket -> Option<Ticket>)
    ensures AfterPass(m, filter, f).Keys <= m.Keys
  {
  }
}
