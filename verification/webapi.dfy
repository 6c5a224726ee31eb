/** The web handlers that change tickets. Each gets the ticket the authentication
    middleware read for it, and writes the whole ticket back. */
module WebAPI {
  import opened Tickets
  import opened Helpers
  import opened TicketStore
  import opened Lifecycle
  import VoteChanges
  import FeeXPubs
  import AddressAllocator
  import Atomic

  const REQUIRED_CONFS := 6

  datatype Response =
    | Success
    | InternalError
    | BadRequest
    | BadSignature
    | InvalidTicket
    | UnknownTicket
    | FeeAlreadyReceived
    | TicketCannotVote
    | FeeExpired
    | InvalidPrivKey
    | InvalidFeeTx
    | FeeTooSmall
    | CannotBroadcastFee
    | FeeNotReceived
    | InvalidTimestamp
    | InvalidVoteChoices

  /** What the node says about the ticket transaction. */
  datatype RawTicket = RawTicket(confirmations: Int64, blockHeight: Int64, votingRights: Option<Script>)

  /** The node's answers, if there is a connection: the ticket itself, and whether it is
      live. None is an error. */
  datatype NodeView = NodeView(
    connected: bool, rawTicket: Option<RawTicket>, live: Option<bool>, ticketMaturity: UInt32, ticketExpiry: UInt32)
  {
    predicate SaysVotable(canVote: bool) {
      connected && rawTicket.Some?
      && CanTicketVote(rawTicket.value.confirmations, ticketMaturity, ticketExpiry, live) == Some(canVote)
    }
  }

  // ---------- vspAuth ----------

  /** What a request is known by before any handler sees it. commitment is what the chain
      says about an unknown ticket, signed the check of the body's signature. */
  datatype AuthRequest = AuthRequest(
    hash: Option<string>, commitment: Result<string, Response>, signature: string, signed: string -> bool)

  /** What is handed to the handlers: the whole ticket as it was read, if it is known. */
  datatype Auth = Auth(hash: string, ticket: Option<Ticket>, commitmentAddress: string)

  // ---------- payFee ----------

  /** A decoded voting key and the voting rights script of its address. */
  datatype VotingKey = VotingKey(wif: string, rights: Option<Script>)

  /** binds holds if the body has every required field. */
  datatype PayFeeRequest = PayFeeRequest(
    binds: bool, votingKey: Option<VotingKey>, feeTx: string,
    voteChoices: StringMap, tSpendPolicy: StringMap, treasuryPolicy: StringMap,
    record: VoteChanges.VoteChangeRecord)

  /** Whether the two writes succeed, the broadcast is taken and the request is recorded. */
  datatype PayFeeFaults = PayFeeFaults(receiveOk: bool, sendOk: bool, sentOk: bool, saveOk: bool)

  /** What the record takes from the request. */
  function PaymentOf(r: PayFeeRequest): FeePayment {
    FeePayment(if r.votingKey.Some? then r.votingKey.value.wif else "", r.feeTx, r.voteChoices, r.tSpendPolicy, r.treasuryPolicy)
  }

  /** Every condition a fee payment has to meet. */
  ghost predicate PayFeeAccepts(cfg: Config, known: bool, t: Ticket, now: Int64, node: NodeView, r: PayFeeRequest) {
    && known && r.binds && Enabled(cfg, WebHandler, ReceiveFee(now, PaymentOf(r)), t)
    && node.SaysVotable(true)
    && r.votingKey.Some? && r.votingKey.value.rights.Some?
    && node.rawTicket.value.votingRights == r.votingKey.value.rights
  }

  /** The condition under which a fee payment is refused with an error other than an
      internal one. */
  ghost predicate PayFeeRefuses(cfg: Config, known: bool, t: Ticket, now: Int64, node: NodeView, r: PayFeeRequest, e: Response) {
    var open := node.connected && known && r.binds && !t.FeeTxKnown();
    var timely := open && node.SaysVotable(true) && now <= t.feeExpiration;
    match e
    case UnknownTicket => node.connected && !known
    case BadRequest => node.connected && known && !r.binds
    case FeeAlreadyReceived => node.connected && known && r.binds && t.FeeTxKnown()
    case TicketCannotVote => open && node.SaysVotable(false)
    case FeeExpired => open && node.SaysVotable(true) && now > t.feeExpiration
    case InvalidFeeTx => timely && r.votingKey.Some? && NoFeePaid(cfg, t, r.feeTx)
    case FeeTooSmall => timely && r.votingKey.Some? && FeeTooLow(cfg, t, r.feeTx)
    case InvalidPrivKey => timely && (r.votingKey.None? || (FeeAccepted(cfg, t, PaymentOf(r)) && WrongKey(node, r.votingKey.value)))
    case _ => false
  }

  /** The key has no voting rights script, or not the one of the ticket. */
  predicate WrongKey(node: NodeView, key: VotingKey)
    requires node.rawTicket.Some?
  {
    var actual := node.rawTicket.value.votingRights;
    key.rights.None? || (actual.Some? && actual != key.rights)
  }

  /** The store after a fee is received and, for a confirmed ticket, broadcast or found
      faulty in a second write. */
  ghost function StoredFee(cfg: Config, m: Store, received: Ticket, f: PayFeeFaults): Store {
    var m' := Put(m, received, f.receiveOk);
    if f.receiveOk && received.hash in m && received.confirmed then Put(m', Apply(cfg, FeeSent(f.sendOk), received), f.sentOk)
    else m'
  }

  /** The store after an accepted payment. */
  ghost function PayFeeStores(cfg: Config, m: Store, t: Ticket, now: Int64, r: PayFeeRequest, f: PayFeeFaults): Store {
    StoredFee(cfg, m, Apply(cfg, ReceiveFee(now, PaymentOf(r)), t), f)
  }

  /** What the first output with the wanted version and script pays; zero if no output has
      them. */
  method FindFeePaid(outputs: seq<TxOut>, want: Script) returns (feePaid: Int64)
    ensures (exists i :: FirstPayment(outputs, want, i) && feePaid == outputs[i].value)
            || (feePaid == 0 && forall i | 0 <= i < |outputs| :: outputs[i].version != want.version || outputs[i].script != want.script)
  {
    feePaid := 0;
    for i := 0 to |outputs|
      invariant feePaid == 0 && forall k | 0 <= k < i :: !PaysTo(outputs[k], want)
    {
      if outputs[i].version == want.version && outputs[i].script == want.script {
        assert FirstPayment(outputs, want, i);
        return outputs[i].value;
      }
    }
    assert forall i | 0 <= i < |outputs| :: !PaysTo(outputs[i], want);
  }

  /** A sane transaction pays something to the fee address, but less than the fee. */
  ghost predicate FeeTooLow(cfg: Config, t: Ticket, feeTxHex: string) {
    && cfg.decodeTx(feeTxHex).Some? && cfg.checkTxSanity(cfg.decodeTx(feeTxHex).value)
    && cfg.paymentScript(t.feeAddress).Some?
    && var outputs := cfg.decodeTx(feeTxHex).value.outputs;
       exists i :: FirstPayment(outputs, cfg.paymentScript(t.feeAddress).value, i) && 0 != outputs[i].value < t.feeAmount
  }

  /** The transaction does not decode, is not sane, or has no output to the fee address or
      a first one of no value. */
  ghost predicate NoFeePaid(cfg: Config, t: Ticket, feeTxHex: string) {
    var tx := cfg.decodeTx(feeTxHex);
    var want := cfg.paymentScript(t.feeAddress);
    tx.None? || !cfg.checkTxSanity(tx.value)
    || (want.Some? && forall i | FirstPayment(tx.value.outputs, want.value, i) :: tx.value.outputs[i].value == 0)
  }

  /** A transaction with no output of the fee address's version and script is refused as
      invalid, whatever it pays to others. */
  lemma PayingOthersIsNoFee(cfg: Config, t: Ticket, feeTxHex: string)
    requires cfg.decodeTx(feeTxHex).Some? && cfg.paymentScript(t.feeAddress).Some?
    requires var want := cfg.paymentScript(t.feeAddress).value;
      forall out | out in cfg.decodeTx(feeTxHex).value.outputs :: out.version != want.version || out.script != want.script
    ensures NoFeePaid(cfg, t, feeTxHex) && !Pays(cfg, cfg.decodeTx(feeTxHex).value, t)
  {
    PaysSays(cfg, cfg.decodeTx(feeTxHex).value, t);
  }

  lemma FirstPaymentUnique(outputs: seq<TxOut>, want: Script, i: int, j: int)
    requires FirstPayment(outputs, want, i) && FirstPayment(outputs, want, j)
    ensures i == j
  {
  }

  /** The checks on the fee transaction, in order. */
  method CheckFeeTx(cfg: Config, t: Ticket, feeTxHex: string) returns (r: Result<FeeTx, Response>)
    ensures r.Ok? <==> cfg.decodeTx(feeTxHex).Some? && cfg.checkTxSanity(cfg.decodeTx(feeTxHex).value)
                       && Pays(cfg, cfg.decodeTx(feeTxHex).value, t)
    ensures r.Ok? ==> cfg.decodeTx(feeTxHex) == Some(r.value)
    ensures r.Err? ==> r.error in {InvalidFeeTx, InternalError, FeeTooSmall}
    ensures r == Err(FeeTooSmall) <==> FeeTooLow(cfg, t, feeTxHex)
    ensures r == Err(InvalidFeeTx) <==> NoFeePaid(cfg, t, feeTxHex)
  {
    var feeTx := cfg.decodeTx(feeTxHex);
    if feeTx.None? || !cfg.checkTxSanity(feeTx.value) {
      return Err(InvalidFeeTx);
    }
    var want := cfg.paymentScript(t.feeAddress);
    if want.None? {
      return Err(InternalError);
    }
    var feePaid := FindFeePaid(feeTx.value.outputs, want.value);
    forall i, j | FirstPayment(feeTx.value.outputs, want.value, i) && FirstPayment(feeTx.value.outputs, want.value, j)
      ensures i == j
    {
      FirstPaymentUnique(feeTx.value.outputs, want.value, i, j);
    }
    if feePaid == 0 {
      return Err(InvalidFeeTx);
    }
    if feePaid < t.feeAmount {
      return Err(FeeTooSmall);
    }
    return Ok(feeTx.value);
  }

  class Server {
    const cfg: Config
    const db: TicketBucket

    constructor (cfg: Config, db: TicketBucket)
      ensures this.cfg == cfg && this.db == db
    {
      this.cfg, this.db := cfg, db;
    }

    /** The record with the payment taken. Invalid preferences leave the old ones in place. */
    method TakePayment(ticket: Ticket, now: Int64, request: PayFeeRequest, feeTx: FeeTx) returns (t: Ticket)
      requires request.votingKey.Some? && cfg.decodeTx(request.feeTx) == Some(feeTx)
      ensures t == Apply(cfg, ReceiveFee(now, PaymentOf(request)), ticket)
    {
      var validVoteChoices := ValidConsensusVoteChoices(cfg.deployments, request.voteChoices);
      var validTreasury := ValidTreasuryPolicy(cfg.decoders, request.treasuryPolicy);
      var validTSpend := ValidTSpendPolicy(cfg.decoders, request.tSpendPolicy);
      t := ticket.(votingWIF := request.votingKey.value.wif, feeTxHex := request.feeTx, feeTxHash := cfg.txHash(feeTx),
                   feeTxStatus := FeeReceived);
      if validVoteChoices {
        t := t.(voteChoices := request.voteChoices);
      }
      if validTSpend {
        t := t.(tSpendPolicy := request.tSpendPolicy);
      }
      if validTreasury {
        t := t.(treasuryPolicy := request.treasuryPolicy);
      }
    }

    /** Stores a received fee, then broadcasts it if the ticket is confirmed. */
    method StoreFee(received: Ticket, faults: PayFeeFaults) returns (response: Response)
      modifies db
      ensures db.tickets == StoredFee(cfg, old(db.tickets), received, faults)
      ensures response == Success <==> faults.receiveOk && received.hash in old(db.tickets)
                                       && (received.confirmed ==> faults.sendOk && faults.sentOk)
      ensures response == CannotBroadcastFee <==> faults.receiveOk && received.hash in old(db.tickets)
                                                  && received.confirmed && !faults.sendOk
      ensures response in {Success, InternalError, CannotBroadcastFee}
    {
      var t := received;
      var updated := db.UpdateTicket(t, faults.receiveOk);
      if !updated {
        return InternalError;
      }
      if t.confirmed {
        if !faults.sendOk {
          t := t.(feeTxStatus := FeeError);
          updated := db.UpdateTicket(t, faults.sentOk);
          return CannotBroadcastFee;
        }
        t := t.(feeTxStatus := FeeBroadcast);
        updated := db.UpdateTicket(t, faults.sentOk);
        if !updated {
          return InternalError;
        }
      }
      return Success;
    }

    /** Everything that is checked before a fee is taken, in order. */
    method CheckPayment(ticket: Ticket, known: bool, now: Int64, node: NodeView, request: PayFeeRequest)
      returns (r: Result<FeeTx, Response>)
      ensures r.Ok? <==> PayFeeAccepts(cfg, known, ticket, now, node, request)
      ensures r.Ok? ==> request.votingKey.Some? && cfg.decodeTx(request.feeTx) == Some(r.value)
      ensures r.Err? ==> r.error == InternalError || PayFeeRefuses(cfg, known, ticket, now, node, request, r.error)
      ensures forall e: Response | PayFeeRefuses(cfg, known, ticket, now, node, request, e) :: r == Err(e)
    {
      if !node.connected {
        return Err(InternalError);
      }
      if !known {
        return Err(UnknownTicket);
      }
      if !request.binds {
        return Err(BadRequest);
      }
      if ticket.FeeTxKnown() {
        return Err(FeeAlreadyReceived);
      }
      if node.rawTicket.None? {
        return Err(InternalError);
      }
      var canVote := CanTicketVote(node.rawTicket.value.confirmations, node.ticketMaturity, node.ticketExpiry, node.live);
      if canVote.None? {
        return Err(InternalError);
      }
      if !canVote.value {
        return Err(TicketCannotVote);
      }
      if now > ticket.feeExpiration {
        return Err(FeeExpired);
      }
      if request.votingKey.None? {
        return Err(InvalidPrivKey);
      }
      r := CheckFeeTx(cfg, ticket, request.feeTx);
      if r.Err? {
        return;
      }
      var key := request.votingKey.value;
      if key.rights.None? {
        return Err(InvalidPrivKey);
      }
      if node.rawTicket.value.votingRights.None? {
        return Err(InternalError);
      }
      if node.rawTicket.value.votingRights != key.rights {
        return Err(InvalidPrivKey);
      }
    }

    /** The fee is taken only if every check passes; invalid preferences are dropped, not
        refused. A successful request is recorded in the log without a timestamp check. */
    method PayFee(ticket: Ticket, known: bool, now: Int64, node: NodeView, changes: VoteChanges.VoteChangeBucket,
                  request: PayFeeRequest, faults: PayFeeFaults)
      returns (response: Response)
      requires changes.Valid()
      modifies db, changes
      ensures changes.Valid()
      ensures db.tickets == if PayFeeAccepts(cfg, known, ticket, now, node, request)
                            then PayFeeStores(cfg, old(db.tickets), ticket, now, request, faults) else old(db.tickets)
      ensures response == Success <==>
              && PayFeeAccepts(cfg, known, ticket, now, node, request)
              && faults.receiveOk && ticket.hash in old(db.tickets)
              && (ticket.confirmed ==> faults.sendOk && faults.sentOk)
      ensures forall e: Response | PayFeeRefuses(cfg, known, ticket, now, node, request, e) :: response == e
      ensures response in {Success, InternalError, CannotBroadcastFee}
              || PayFeeRefuses(cfg, known, ticket, now, node, request, response)
      ensures response == CannotBroadcastFee <==>
              PayFeeAccepts(cfg, known, ticket, now, node, request) && faults.receiveOk && ticket.hash in old(db.tickets)
              && ticket.confirmed && !faults.sendOk
      ensures response == Success && faults.saveOk ==>
                VoteChanges.Saved(VoteChanges.Decoded(old(changes.records)), changes.maxVoteChangeRecords, request.record,
                                  VoteChanges.Decoded(changes.records))
      ensures response != Success || !faults.saveOk ==> changes.records == old(changes.records)
    {
      var checked := CheckPayment(ticket, known, now, node, request);
      if checked.Err? {
        return checked.error;
      }
      // The request is valid: update the database, then broadcast for a confirmed ticket.
      var t := TakePayment(ticket, now, request, checked.value);
      assert t.hash == ticket.hash && t.confirmed == ticket.confirmed;
      hide VoteChanges.Saved, VoteChanges.SerialKeys, Apply, StoredFee, PayFeeAccepts, PayFeeRefuses;
      response := StoreFee(t, faults);
      if response == Success {
        var _ := changes.SaveVoteChange(request.record, faults.saveOk);
      }
    }

    // ---------- setVoteChoices ----------

    /** Writes the request's entries over the ticket's own, one by one. Assigning into a nil
        map would panic, so the map must have come from the store. */
    method OverlayEntries(was: StringMap, changes: StringMap) returns (r: StringMap)
      requires was.StringMap?
      ensures r == Overlay(was, changes)
    {
      r := was;
      var todo := changes.Entries().Keys;
      while todo != {}
        invariant todo <= changes.Entries().Keys && r.StringMap?
        invariant r.entries == was.entries + (changes.Entries() - todo)
        decreases todo
      {
        var key :| key in todo;
        todo := todo - {key};
        r := StringMap(r.entries[key := changes.Entries()[key]]);
      }
      assert changes.Entries() - todo == changes.Entries();
    }

    method CheckPreferences(request: SetVoteChoicesRequest) returns (valid: bool)
      ensures valid <==> PreferencesValid(cfg, request.voteChoices, request.tSpendPolicy, request.treasuryPolicy)
    {
      valid := ValidConsensusVoteChoices(cfg.deployments, request.voteChoices);
      if !valid {
        return;
      }
      valid := ValidTreasuryPolicy(cfg.decoders, request.treasuryPolicy);
      if !valid {
        return;
      }
      valid := ValidTSpendPolicy(cfg.decoders, request.tSpendPolicy);
    }

    method OverlayPreferences(ticket: Ticket, request: SetVoteChoicesRequest) returns (t: Ticket)
      requires ticket.MapsAllocated()
      ensures t == Apply(cfg, request.Action(), ticket) && t.hash == ticket.hash
    {
      var voteChoices := OverlayEntries(ticket.voteChoices, request.voteChoices);
      var tSpendPolicy := OverlayEntries(ticket.tSpendPolicy, request.tSpendPolicy);
      var treasuryPolicy := OverlayEntries(ticket.treasuryPolicy, request.treasuryPolicy);
      t := ticket.(voteChoices := voteChoices, tSpendPolicy := tSpendPolicy, treasuryPolicy := treasuryPolicy);
    }

    /** Everything that is checked before a change is stored, in order. None is no error. */
    method CheckChange(ticket: Ticket, known: bool, wallets: nat, changes: VoteChanges.VoteChangeBucket,
                       request: SetVoteChoicesRequest, timestampOf: string -> Option<Int64>, faults: SetVoteChoicesFaults)
      returns (r: Option<Response>)
      requires changes.Valid()
      ensures var log := VoteChanges.Decoded(changes.records);
        && (r.None? <==> SetVoteChoicesAccepts(cfg, known, wallets, ticket, request, timestampOf, log, faults))
        && (forall e: Response | SetVoteChoicesRefuses(cfg, known, wallets, ticket, request, timestampOf, log, faults, e) :: r == Some(e))
        && (r in {None, Some(InternalError)}
            || SetVoteChoicesRefuses(cfg, known, wallets, ticket, request, timestampOf, log, faults, r.value)
            || (r == Some(InvalidTimestamp) && HasNewer(request, timestampOf, log)))
    {
      RefusalTable(cfg, known, wallets, ticket, request, timestampOf, VoteChanges.Decoded(changes.records), faults);
      hide SetVoteChoicesRefuses, SetVoteChoicesAccepts, HasNewer, VoteChanges.AboveAll, PreferencesValid, SetVoteChoicesRequest.Timestamp;
      r := CheckEligible(ticket, known, wallets);
      if r.None? {
        r := CheckBody(changes, request, timestampOf, faults);
      }
    }

    /** The checks on the ticket itself. */
    method CheckEligible(ticket: Ticket, known: bool, wallets: nat) returns (r: Option<Response>)
      ensures r == Some(InternalError) <==> wallets == 0
      ensures r == Some(UnknownTicket) <==> wallets > 0 && !known
      ensures r == Some(FeeNotReceived) <==> wallets > 0 && known && ticket.feeTxStatus == NoFee
      ensures r == Some(TicketCannotVote) <==> wallets > 0 && known && ticket.feeTxStatus != NoFee && ticket.outcome != Votable
      ensures r == None <==> wallets > 0 && known && ticket.feeTxStatus != NoFee && ticket.outcome == Votable
    {
      if wallets == 0 {
        return Some(InternalError);
      }
      if !known {
        return Some(UnknownTicket);
      }
      if ticket.feeTxStatus == NoFee {
        return Some(FeeNotReceived);
      }
      if ticket.outcome != Votable {
        return Some(TicketCannotVote);
      }
      return None;
    }

    /** The checks on the body of a request for a ticket that is eligible. */
    method CheckBody(changes: VoteChanges.VoteChangeBucket, request: SetVoteChoicesRequest,
                     timestampOf: string -> Option<Int64>, faults: SetVoteChoicesFaults)
      returns (r: Option<Response>)
      requires changes.Valid()
      ensures var log, timestamp := VoteChanges.Decoded(changes.records), request.Timestamp(timestampOf);
        var newest := timestamp.Some? && faults.readOk && VoteChanges.AboveAll(log, timestampOf, timestamp.value);
        var valid := PreferencesValid(cfg, request.voteChoices, request.tSpendPolicy, request.treasuryPolicy);
        && (r == None <==> newest && valid)
        && (r == Some(BadRequest) <==> timestamp.None?)
        && (r == Some(InvalidVoteChoices) <==> newest && !valid)
        && (r == Some(InvalidTimestamp) ==> faults.readOk && HasNewer(request, timestampOf, log))
        && ((faults.readOk && HasNewer(request, timestampOf, log) && forall k | k in log :: timestampOf(log[k].request).Some?)
            ==> r == Some(InvalidTimestamp))
        && r in {None, Some(BadRequest), Some(InvalidVoteChoices), Some(InvalidTimestamp), Some(InternalError)}
    {
      hide PreferencesValid;
      var timestamp := request.Timestamp(timestampOf);
      if timestamp.None? {
        return Some(BadRequest);
      }
      if !faults.readOk {
        return Some(InternalError);
      }
      var previous := changes.GetVoteChanges();
      var newer := VoteChanges.CheckTimestamp(previous, timestampOf, timestamp.value);
      if newer.None? {
        return Some(InternalError);
      }
      if !newer.value {
        return Some(InvalidTimestamp);
      }
      var valid := CheckPreferences(request);
      r := if valid then None else Some(InvalidVoteChoices);
    }

    /** A change is taken only if the timestamp in its body is above every stored one. The
        body is recorded after the ticket is stored; a failure to record it is not an
        error, and leaves the log as if the change had not been made. */
    method SetVoteChoices(ticket: Ticket, known: bool, wallets: nat, changes: VoteChanges.VoteChangeBucket,
                          request: SetVoteChoicesRequest, timestampOf: string -> Option<Int64>, faults: SetVoteChoicesFaults)
      returns (response: Response)
      requires known ==> ticket.MapsAllocated()
      requires changes.Valid()
      modifies db, changes
      ensures changes.Valid()
      ensures var log := VoteChanges.Decoded(old(changes.records));
        && (response == Success <==>
              && SetVoteChoicesAccepts(cfg, known, wallets, ticket, request, timestampOf, log, faults)
              && faults.writeOk && ticket.hash in old(db.tickets))
        && (response == Success && faults.saveOk ==>
              VoteChanges.Saved(log, changes.maxVoteChangeRecords, request.record, VoteChanges.Decoded(changes.records)))
        && (forall e: Response | SetVoteChoicesRefuses(cfg, known, wallets, ticket, request, timestampOf, log, faults, e) :: response == e)
        && (response in {Success, InternalError}
            || SetVoteChoicesRefuses(cfg, known, wallets, ticket, request, timestampOf, log, faults, response)
            || (response == InvalidTimestamp && HasNewer(request, timestampOf, log)))
      ensures response == Success ==> db.tickets == Put(old(db.tickets), Apply(cfg, request.Action(), ticket), true)
      ensures response == Success ==> ChangeStored(old(db.tickets), db.tickets, ticket, request)
      ensures response != Success ==> db.tickets == old(db.tickets)
      ensures response != Success || !faults.saveOk ==> changes.records == old(changes.records)
    {
      var refused := CheckChange(ticket, known, wallets, changes, request, timestampOf, faults);
      if refused.Some? {
        return refused.value;
      }
      assert known;
      ChangeIsStored(cfg, db.tickets, ticket, request);
      hide VoteChanges.Saved, VoteChanges.SerialKeys, Apply, SetVoteChoicesAccepts, SetVoteChoicesRefuses, HasNewer, ChangeStored;
      var t := OverlayPreferences(ticket, request);
      var updated := db.UpdateTicket(t, faults.writeOk);
      if !updated {
        return InternalError;
      }
      var _ := changes.SaveVoteChange(request.record, faults.saveOk);
      return Success;
    }

    // ---------- feeAddress ----------

    /** A known ticket gets a new fee once the old one has expired; an unknown ticket gets
        a fresh address and is stored. */
    method FeeAddress(ticket: Ticket, known: bool, request: FeeAddressRequest, now: Int64, node: NodeView,
                      addrGen: AddressAllocator.AddressGenerator, xpubs: FeeXPubs.XPubBucket, faults: FeeAddressFaults)
      returns (response: Response, ghost added: Option<Ticket>)
      requires node.rawTicket.Some? && node.rawTicket.value.confirmations >= REQUIRED_CONFS ==>
                 node.rawTicket.value.blockHeight > 0
      modifies db, addrGen, xpubs
      ensures response == BadRequest <==> node.connected && !request.binds
      ensures response == FeeAlreadyReceived <==> node.connected && request.binds && known && ticket.FeeTxKnown()
      ensures response == TicketCannotVote <==> FeeAddressOpen(ticket, known, request, node) && node.SaysVotable(false)
      ensures response == Success <==>
              && FeeAddressOpen(ticket, known, request, node) && node.SaysVotable(true)
              && if known then now <= ticket.feeExpiration || (faults.currentFee.Some? && faults.writeOk && ticket.hash in old(db.tickets))
                 else Allocates(ticket, known, request, node, addrGen.YieldsAddress(old(addrGen.lastUsedIndex)), faults)
                      && faults.writeOk && request.hash !in old(db.tickets)
      ensures response in {Success, InternalError, BadRequest, FeeAlreadyReceived, TicketCannotVote}
      ensures known && response == Success ==>
                db.tickets == if now > ticket.feeExpiration
                              then Put(old(db.tickets), Apply(cfg, Renewal(now, request, faults), ticket), true) else old(db.tickets)
      ensures known && response == Success && now > ticket.feeExpiration ==>
                RenewalStored(old(db.tickets), db.tickets, ticket, request, faults)
      ensures known && response == Success && now <= ticket.feeExpiration ==> db.tickets == old(db.tickets)
      ensures added.Some? <==> !known && response == Success
      ensures added.Some? ==>
              && IsNewTicketFor(added.value, request, node, faults) && request.hash !in old(db.tickets)
              && added.value.feeAddressXPubID == addrGen.feeXPubID
              && AddressAllocator.Derive(addrGen.child, old(addrGen.lastUsedIndex), 0).index == Some(added.value.feeAddressIndex)
              && addrGen.child(added.value.feeAddressIndex).Key?
              && addrGen.toAddress(addrGen.child(added.value.feeAddressIndex).pubKey) == Some(added.value.feeAddress)
              && db.tickets == old(db.tickets)[request.hash := added.value.Normalized()]
      ensures response != Success ==> db.tickets == old(db.tickets)
      ensures if Allocates(ticket, known, request, node, addrGen.YieldsAddress(old(addrGen.lastUsedIndex)), faults)
              then AddressAllocator.IndexStored(old(xpubs.xpubs), addrGen.child, old(addrGen.lastUsedIndex), xpubs.xpubs)
              else xpubs.xpubs == old(xpubs.xpubs)
    {
      added := None;
      if !node.connected {
        return InternalError, added;
      }
      if !request.binds {
        return BadRequest, added;
      }
      if known && ticket.FeeTxKnown() {
        return FeeAlreadyReceived, added;
      }
      if node.rawTicket.None? {
        return InternalError, added;
      }
      var rawTicket := node.rawTicket.value;
      var canVote := CanTicketVote(rawTicket.confirmations, node.ticketMaturity, node.ticketExpiry, node.live);
      if canVote.None? {
        return InternalError, added;
      }
      if !canVote.value {
        return TicketCannotVote, added;
      }
      if known {
        if now > ticket.feeExpiration {
          if faults.currentFee.None? {
            return InternalError, added;
          }
          var t := ticket.(feeExpiration := request.expiration, feeAmount := faults.currentFee.value);
          var updated := db.UpdateTicket(t, faults.writeOk);
          if !updated {
            return InternalError, added;
          }
        }
        return Success, added;
      }
      if faults.currentFee.None? {
        return InternalError, added;
      }
      response, added := InsertWithAddress(request, node, addrGen, xpubs, faults);
    }

    /** A ticket not seen before: an address is allocated, then the ticket is stored. */
    method InsertWithAddress(request: FeeAddressRequest, node: NodeView, addrGen: AddressAllocator.AddressGenerator,
                             xpubs: FeeXPubs.XPubBucket, faults: FeeAddressFaults)
      returns (response: Response, ghost added: Option<Ticket>)
      requires node.rawTicket.Some? && faults.currentFee.Some?
      requires node.rawTicket.value.confirmations >= REQUIRED_CONFS ==> node.rawTicket.value.blockHeight > 0
      modifies db, addrGen, xpubs
      ensures response == Success <==>
              addrGen.YieldsAddress(old(addrGen.lastUsedIndex)) && faults.xpubReadOk && faults.xpubWriteOk
              && faults.writeOk && request.hash !in old(db.tickets)
      ensures response in {Success, InternalError} && (added.Some? <==> response == Success)
      ensures added.Some? ==>
              && IsNewTicketFor(added.value, request, node, faults)
              && added.value.feeAddressXPubID == addrGen.feeXPubID
              && AddressAllocator.Derive(addrGen.child, old(addrGen.lastUsedIndex), 0).index == Some(added.value.feeAddressIndex)
              && addrGen.child(added.value.feeAddressIndex).Key?
              && addrGen.toAddress(addrGen.child(added.value.feeAddressIndex).pubKey) == Some(added.value.feeAddress)
              && db.tickets == old(db.tickets)[request.hash := added.value.Normalized()]
      ensures response != Success ==> db.tickets == old(db.tickets)
      ensures if addrGen.YieldsAddress(old(addrGen.lastUsedIndex)) && faults.xpubReadOk && faults.xpubWriteOk
              then AddressAllocator.IndexStored(old(xpubs.xpubs), addrGen.child, old(addrGen.lastUsedIndex), xpubs.xpubs)
              else xpubs.xpubs == old(xpubs.xpubs)
    {
      added := None;
      var rawTicket := node.rawTicket.value;
      var address := AddressAllocator.GetNewFeeAddress(addrGen, xpubs, faults.xpubReadOk, faults.xpubWriteOk);
      if address.None? {
        return InternalError, added;
      }
      // The purchase height may change through reorganisations until six confirmations.
      var confirmed := rawTicket.confirmations >= REQUIRED_CONFS;
      var purchaseHeight: Int64 := if confirmed then rawTicket.blockHeight else 0;
      var t := Ticket(request.hash, purchaseHeight, request.commitmentAddress, addrGen.feeXPubID, address.value.1,
                      address.value.0, faults.currentFee.value, request.expiration, confirmed, "", NilMap, NilMap, NilMap,
                      "", "", NoFee, Votable);
      var inserted := db.InsertNewTicket(t, faults.writeOk);
      if !inserted {
        return InternalError, added;
      }
      return Success, Some(t);
    }

    // ---------- vspAuth ----------

    /** The read half of every handler. A request passes exactly if its hash is valid, the
        store answers, an unknown ticket can be looked up, and the body is signed with the
        commitment address that the store, or else the chain, has for the ticket. A known
        ticket is handed on as stored, under its own hash and without nil maps. */
    method VspAuth(request: AuthRequest, readOk: bool) returns (r: Result<Auth, Response>)
      requires Keyed(db.tickets)
      requires request.commitment.Err? ==> request.commitment.error in {InternalError, InvalidTicket}
      ensures r.Ok? <==>
              && request.hash.Some? && readOk && request.signature != ""
              && (request.hash.value in db.tickets || request.commitment.Ok?)
              && request.signed(if request.hash.value in db.tickets then db.tickets[request.hash.value].commitmentAddress
                                else request.commitment.value)
      ensures r.Ok? ==>
              && (r.value.ticket.Some? <==> r.value.hash in db.tickets) && request.hash == Some(r.value.hash)
              && request.signed(r.value.commitmentAddress)
      ensures r.Ok? && r.value.ticket.Some? ==>
              && db.tickets[r.value.hash] == r.value.ticket.value && r.value.ticket.value.hash == r.value.hash
              && r.value.ticket.value.MapsAllocated()
              && r.value.commitmentAddress == r.value.ticket.value.commitmentAddress
      ensures r.Err? ==> r.error in {BadRequest, InternalError, InvalidTicket, BadSignature}
      ensures r == Err(BadRequest) ==> request.hash.None? || request.signature == ""
    {
      if request.hash.None? {
        return Err(BadRequest);
      }
      if !readOk {
        return Err(InternalError);
      }
      var hash := request.hash.value;
      var found := db.GetTicketByHash(hash);
      var commitmentAddress;
      if found.Some? {
        commitmentAddress := found.value.commitmentAddress;
      } else {
        if request.commitment.Err? {
          return Err(request.commitment.error);
        }
        commitmentAddress := request.commitment.value;
      }
      if request.signature == "" {
        return Err(BadRequest);
      }
      if !request.signed(commitmentAddress) {
        return Err(BadSignature);
      }
      return Ok(Auth(hash, found, commitmentAddress));
    }
  }

  /** The request's own copy of its entries, and its body as the log records it. The
      timestamp is read off the same body that is recorded. */
  datatype SetVoteChoicesRequest = SetVoteChoicesRequest(
    binds: bool, voteChoices: StringMap, tSpendPolicy: StringMap, treasuryPolicy: StringMap,
    record: VoteChanges.VoteChangeRecord)
  {
    function Action(): Action {
      ChangeChoices(voteChoices, tSpendPolicy, treasuryPolicy)
    }

    /** None is a body that lacks a required field, such as the timestamp. */
    function Timestamp(timestampOf: string -> Option<Int64>): Option<Int64> {
      if binds then timestampOf(record.request) else None
    }
  }

  lemma RefusalTable(cfg: Config, known: bool, wallets: nat, t: Ticket, r: SetVoteChoicesRequest,
                     timestampOf: string -> Option<Int64>, log: VoteChanges.Log, faults: SetVoteChoicesFaults)
    ensures var timestamp := r.Timestamp(timestampOf);
      var eligible := wallets > 0 && known && t.feeTxStatus != NoFee && t.outcome == Votable;
      var newest := timestamp.Some? && faults.readOk && VoteChanges.AboveAll(log, timestampOf, timestamp.value);
      var valid := PreferencesValid(cfg, r.voteChoices, r.tSpendPolicy, r.treasuryPolicy);
      && (SetVoteChoicesAccepts(cfg, known, wallets, t, r, timestampOf, log, faults) <==> eligible && newest && valid)
      && forall e :: SetVoteChoicesRefuses(cfg, known, wallets, t, r, timestampOf, log, faults, e) <==>
           || (e == UnknownTicket && wallets > 0 && !known)
           || (e == FeeNotReceived && wallets > 0 && known && t.feeTxStatus == NoFee)
           || (e == TicketCannotVote && wallets > 0 && known && t.feeTxStatus != NoFee && t.outcome != Votable)
           || (e == BadRequest && eligible && timestamp.None?)
           || (e == InvalidTimestamp && eligible && faults.readOk && HasNewer(r, timestampOf, log)
               && forall k | k in log :: timestampOf(log[k].request).Some?)
           || (e == InvalidVoteChoices && eligible && newest && !valid)
  {
    hide VoteChanges.AboveAll, PreferencesValid;
  }

  datatype SetVoteChoicesFaults = SetVoteChoicesFaults(readOk: bool, writeOk: bool, saveOk: bool)

  /** Every condition a vote change has to meet. */
  ghost predicate SetVoteChoicesAccepts(cfg: Config, known: bool, wallets: nat, t: Ticket, r: SetVoteChoicesRequest,
                                        timestampOf: string -> Option<Int64>, log: VoteChanges.Log, faults: SetVoteChoicesFaults) {
    && known && wallets > 0 && Enabled(cfg, WebHandler, r.Action(), t)
    && r.Timestamp(timestampOf).Some? && faults.readOk
    && VoteChanges.AboveAll(log, timestampOf, r.Timestamp(timestampOf).value)
  }

  /** What an accepted change leaves stored, key by key: in each of the three maps the
      request's keys have the request's values and the others theirs; no other field of
      the ticket and no other ticket changes. */
  ghost predicate ChangeStored(was: Store, now: Store, t: Ticket, r: SetVoteChoicesRequest) {
    && now.Keys == was.Keys && t.hash in was && (forall h | h in was && h != t.hash :: now[h] == was[h])
    && var u := now[t.hash];
    && Overlaid(t.voteChoices.Entries(), r.voteChoices.Entries(), u.voteChoices.Entries())
    && Overlaid(t.tSpendPolicy.Entries(), r.tSpendPolicy.Entries(), u.tSpendPolicy.Entries())
    && Overlaid(t.treasuryPolicy.Entries(), r.treasuryPolicy.Entries(), u.treasuryPolicy.Entries())
    && u == t.(voteChoices := u.voteChoices, tSpendPolicy := u.tSpendPolicy, treasuryPolicy := u.treasuryPolicy)
  }

  lemma ChangeIsStored(cfg: Config, m: Store, t: Ticket, r: SetVoteChoicesRequest)
    ensures t.hash in m ==> ChangeStored(m, Put(m, Apply(cfg, r.Action(), t), true), t, r)
  {
    ChangeSays(cfg, r.voteChoices, r.tSpendPolicy, r.treasuryPolicy, t);
    hide Overlaid;
  }

  /** A stored record parses and is as new as the request. */
  ghost predicate HasNewer(r: SetVoteChoicesRequest, timestampOf: string -> Option<Int64>, log: VoteChanges.Log) {
    r.Timestamp(timestampOf).Some?
    && exists k :: k in log && timestampOf(log[k].request).Some? && r.Timestamp(timestampOf).value <= timestampOf(log[k].request).value
  }

  /** The condition under which a vote change is refused with an error other than an
      internal one. If some stored record does not parse, whether that or a newer record
      is met first decides between two errors. */
  ghost predicate SetVoteChoicesRefuses(cfg: Config, known: bool, wallets: nat, t: Ticket, r: SetVoteChoicesRequest,
                                        timestampOf: string -> Option<Int64>, log: VoteChanges.Log,
                                        faults: SetVoteChoicesFaults, e: Response) {
    var eligible := wallets > 0 && known && t.feeTxStatus != NoFee && t.outcome == Votable;
    var timestamp := r.Timestamp(timestampOf);
    match e
    case UnknownTicket => wallets > 0 && !known
    case FeeNotReceived => wallets > 0 && known && t.feeTxStatus == NoFee
    case TicketCannotVote => wallets > 0 && known && t.feeTxStatus != NoFee && t.outcome != Votable
    case BadRequest => eligible && timestamp.None?
    case InvalidTimestamp =>
      eligible && timestamp.Some? && faults.readOk && HasNewer(r, timestampOf, log)
      && forall k | k in log :: timestampOf(log[k].request).Some?
    case InvalidVoteChoices =>
      eligible && timestamp.Some? && faults.readOk && VoteChanges.AboveAll(log, timestampOf, timestamp.value)
      && !PreferencesValid(cfg, r.voteChoices, r.tSpendPolicy, r.treasuryPolicy)
    case _ => false
  }

  /** expiration is the time of the request plus the validity of a fee. */
  datatype FeeAddressRequest = FeeAddressRequest(binds: bool, hash: string, commitmentAddress: string, expiration: Int64)

  datatype FeeAddressFaults = FeeAddressFaults(currentFee: Option<Int64>, xpubReadOk: bool, xpubWriteOk: bool, writeOk: bool)

  /** The request is one for a fee address, and the fee is not known already. */
  predicate FeeAddressOpen(t: Ticket, known: bool, r: FeeAddressRequest, node: NodeView) {
    node.connected && r.binds && !(known && t.FeeTxKnown())
  }

  /** The handler gets as far as storing the index of a new address. */
  predicate Allocates(t: Ticket, known: bool, r: FeeAddressRequest, node: NodeView, hasAddress: bool, f: FeeAddressFaults) {
    !known && FeeAddressOpen(t, known, r, node) && node.SaysVotable(true) && f.currentFee.Some?
    && hasAddress && f.xpubReadOk && f.xpubWriteOk
  }

  /** What a renewal leaves stored: the current fee as the amount and the request's time as
      the expiration; every other field, and every other ticket, is as before. */
  ghost predicate RenewalStored(was: Store, now: Store, t: Ticket, r: FeeAddressRequest, f: FeeAddressFaults) {
    && now.Keys == was.Keys && t.hash in was && (forall h | h in was && h != t.hash :: now[h] == was[h])
    && var u := now[t.hash];
    && f.currentFee == Some(u.feeAmount) && u.feeExpiration == r.expiration
    && u == t.Normalized().(feeAmount := u.feeAmount, feeExpiration := u.feeExpiration)
  }

  /** The record a new ticket starts with, apart from its address. */
  ghost predicate IsNewTicketFor(t: Ticket, r: FeeAddressRequest, node: NodeView, f: FeeAddressFaults) {
    && NewTicket(t) && t.hash == r.hash && t.commitmentAddress == r.commitmentAddress
    && f.currentFee == Some(t.feeAmount) && t.feeExpiration == r.expiration
    && node.rawTicket.Some? && (t.confirmed <==> node.rawTicket.value.confirmations >= 6)
    && (t.confirmed ==> t.purchaseHeight == node.rawTicket.value.blockHeight)
  }

  function Renewal(now: Int64, r: FeeAddressRequest, f: FeeAddressFaults): Action {
    RenewFee(now, r.expiration, if f.currentFee.Some? then f.currentFee.value else 0)
  }

  // ---------- A fee payment spelled out ----------

  /** A payment is accepted exactly if the ticket is known with no fee received, broadcast
      or confirmed, its fee has not expired, it can still vote, the voting key is that of
      the ticket, and the first output of a sane fee transaction to the fee address has a
      value and at least the fee. */
  lemma AcceptedPaymentSays(cfg: Config, known: bool, t: Ticket, now: Int64, node: NodeView, r: PayFeeRequest)
    ensures PayFeeAccepts(cfg, known, t, now, node, r) <==>
      && known && r.binds && t.feeTxStatus != FeeReceived && t.feeTxStatus != FeeBroadcast && t.feeTxStatus != FeeConfirmed
      && now <= t.feeExpiration
      && node.connected && node.rawTicket.Some?
      && node.rawTicket.value.confirmations <= AddU32(node.ticketMaturity, node.ticketExpiry) + 1
      && (node.rawTicket.value.confirmations <= node.ticketMaturity || node.live == Some(true))
      && r.votingKey.Some? && r.votingKey.value.rights.Some? && node.rawTicket.value.votingRights == r.votingKey.value.rights
      && match (cfg.decodeTx(r.feeTx), cfg.paymentScript(t.feeAddress))
         case (Some(tx), Some(want)) =>
           cfg.checkTxSanity(tx)
           && exists i :: 0 <= i < |tx.outputs|
                && tx.outputs[i].version == want.version && tx.outputs[i].script == want.script
                && tx.outputs[i].value != 0 && tx.outputs[i].value >= t.feeAmount
                && forall k | 0 <= k < i :: tx.outputs[k].version != want.version || tx.outputs[k].script != want.script
         case _ => false
  {
    if cfg.decodeTx(r.feeTx).Some? {
      PaysSays(cfg, cfg.decodeTx(r.feeTx).value, t);
    }
    hide Pays;
  }

  /** Which error a fee gets that is offered in time for a known ticket that can vote: one
      that does not decode or is not sane, has no output with the version and script of the
      fee address, or a first one of no value, is invalid; one whose first such output is
      below the fee is too small. */
  lemma FeeRefusalSays(cfg: Config, t: Ticket, now: Int64, node: NodeView, r: PayFeeRequest)
    requires node.connected && r.binds && node.SaysVotable(true) && r.votingKey.Some? && now <= t.feeExpiration
    requires t.feeTxStatus == NoFee || t.feeTxStatus == FeeError
    ensures PayFeeRefuses(cfg, true, t, now, node, r, InvalidFeeTx) <==>
            match (cfg.decodeTx(r.feeTx), cfg.paymentScript(t.feeAddress))
            case (None, _) => true
            case (Some(tx), None) => !cfg.checkTxSanity(tx)
            case (Some(tx), Some(want)) =>
              !cfg.checkTxSanity(tx)
              || forall i | 0 <= i < |tx.outputs| && tx.outputs[i].version == want.version && tx.outputs[i].script == want.script
                   && (forall k | 0 <= k < i :: tx.outputs[k].version != want.version || tx.outputs[k].script != want.script) ::
                   tx.outputs[i].value == 0
    ensures PayFeeRefuses(cfg, true, t, now, node, r, FeeTooSmall) <==>
            match (cfg.decodeTx(r.feeTx), cfg.paymentScript(t.feeAddress))
            case (Some(tx), Some(want)) =>
              cfg.checkTxSanity(tx)
              && exists i :: 0 <= i < |tx.outputs| && tx.outputs[i].version == want.version && tx.outputs[i].script == want.script
                   && (forall k | 0 <= k < i :: tx.outputs[k].version != want.version || tx.outputs[k].script != want.script)
                   && 0 != tx.outputs[i].value < t.feeAmount
            case _ => false
  {
    if cfg.decodeTx(r.feeTx).Some? && cfg.paymentScript(t.feeAddress).Some? {
      FirstPaymentSays(cfg.decodeTx(r.feeTx).value.outputs, cfg.paymentScript(t.feeAddress).value);
    }
    hide FirstPayment, NodeView.SaysVotable;
  }

  lemma FirstPaymentSays(outputs: seq<TxOut>, want: Script)
    ensures forall i :: FirstPayment(outputs, want, i) <==>
              && 0 <= i < |outputs| && outputs[i].version == want.version && outputs[i].script == want.script
              && forall k | 0 <= k < i :: outputs[k].version != want.version || outputs[k].script != want.script
    ensures forall i, j | FirstPayment(outputs, want, i) && FirstPayment(outputs, want, j) :: i == j
  {
    forall i | 0 <= i < |outputs|
      ensures PaysTo(outputs[i], want) <==> outputs[i].version == want.version && outputs[i].script == want.script
    {
    }
    forall i, j | FirstPayment(outputs, want, i) && FirstPayment(outputs, want, j) ensures i == j {
      FirstPaymentUnique(outputs, want, i, j);
    }
    assert forall i, k | FirstPayment(outputs, want, i) && 0 <= k < i :: !PaysTo(outputs[k], want);
    hide PaysTo;
  }

  /** A change is accepted exactly if a wallet is connected, the ticket is known with a fee
      transaction and no outcome, every preference is valid, and the timestamp of the body
      is above that of every record in the log. */
  lemma AcceptedChangeSays(cfg: Config, known: bool, wallets: nat, t: Ticket, r: SetVoteChoicesRequest,
                           timestampOf: string -> Option<Int64>, log: VoteChanges.Log, faults: SetVoteChoicesFaults)
    ensures SetVoteChoicesAccepts(cfg, known, wallets, t, r, timestampOf, log, faults) <==>
      && known && wallets > 0 && t.feeTxStatus != NoFee && t.outcome == Votable && r.binds && faults.readOk
      && ChoicesValid(cfg.deployments, r.voteChoices.Entries())
      && TSpendPolicyValid(cfg.decoders, r.tSpendPolicy.Entries())
      && TreasuryPolicyValid(cfg.decoders, r.treasuryPolicy.Entries())
      && match timestampOf(r.record.request)
         case None => false
         case Some(timestamp) =>
           forall k | k in log :: timestampOf(log[k].request).Some? && timestampOf(log[k].request).value < timestamp
  {
    hide ChoicesValid, TSpendPolicyValid, TreasuryPolicyValid;
  }

  /** What an accepted payment leaves stored: the key, text and hash of the fee, each map of
      preferences from the request if it is valid and else as it was, and the status. A
      confirmed ticket's fee is broadcast, or faulty if the node refuses it, or received
      if that second write fails. Nothing else in the store changes. */
  lemma PaymentSays(cfg: Config, m: Store, t: Ticket, now: Int64, r: PayFeeRequest, f: PayFeeFaults)
    requires t.hash in m && r.votingKey.Some? && cfg.decodeTx(r.feeTx).Some?
    ensures !f.receiveOk ==> PayFeeStores(cfg, m, t, now, r, f) == m
    ensures var m' := PayFeeStores(cfg, m, t, now, r, f); m'.Keys == m.Keys && forall h | h in m && h != t.hash :: m'[h] == m[h]
    ensures f.receiveOk ==>
      var u := PayFeeStores(cfg, m, t, now, r, f)[t.hash];
      && u.votingWIF == r.votingKey.value.wif && u.feeTxHex == r.feeTx && u.feeTxHash == cfg.txHash(cfg.decodeTx(r.feeTx).value)
      && u.feeTxStatus == (if !t.confirmed || !f.sentOk then FeeReceived else if f.sendOk then FeeBroadcast else FeeError)
      && u.voteChoices.Entries() == (if ChoicesValid(cfg.deployments, r.voteChoices.Entries()) then r.voteChoices else t.voteChoices).Entries()
      && u.tSpendPolicy.Entries() == (if TSpendPolicyValid(cfg.decoders, r.tSpendPolicy.Entries()) then r.tSpendPolicy else t.tSpendPolicy).Entries()
      && u.treasuryPolicy.Entries() == (if TreasuryPolicyValid(cfg.decoders, r.treasuryPolicy.Entries()) then r.treasuryPolicy else t.treasuryPolicy).Entries()
      && u.hash == t.hash && u.purchaseHeight == t.purchaseHeight && u.commitmentAddress == t.commitmentAddress
      && u.feeAddressXPubID == t.feeAddressXPubID && u.feeAddressIndex == t.feeAddressIndex && u.feeAddress == t.feeAddress
      && u.feeAmount == t.feeAmount && u.feeExpiration == t.feeExpiration && u.confirmed == t.confirmed && u.outcome == t.outcome
  {
    hide ChoicesValid, TSpendPolicyValid, TreasuryPolicyValid;
  }

  // ---------- The handlers as protocol steps ----------

  /** A fee payment on the record it read is one step of the atomic protocol, or none. */
  lemma PayFeeServes(cfg: Config, m: Store, known: bool, t: Ticket, now: Int64, node: NodeView, r: PayFeeRequest, f: PayFeeFaults)
    requires t.hash in m && m[t.hash] == t && PayFeeAccepts(cfg, known, t, now, node, r)
    ensures var m' := PayFeeStores(cfg, m, t, now, r, f);
      m' == m || exists actions :: Atomic.Next(cfg, m, Atomic.Serve(t.hash, WebHandler, actions), m')
  {
    var receive, sent := ReceiveFee(now, PaymentOf(r)), FeeSent(f.sendOk);
    var received := Apply(cfg, receive, t);
    if f.receiveOk {
      if t.confirmed && f.sentOk {
        Atomic.ChainOfTwo(cfg, WebHandler, receive, sent, t);
        hide Enabled, FeeAccepted, Atomic.Chain, Atomic.ApplyAll;
        assert Atomic.Next(cfg, m, Atomic.Serve(t.hash, WebHandler, [receive, sent]), PayFeeStores(cfg, m, t, now, r, f));
      } else {
        Atomic.ChainOfOne(cfg, WebHandler, receive, t);
        hide Enabled, FeeAccepted, Atomic.Chain, Atomic.ApplyAll;
        assert Atomic.Next(cfg, m, Atomic.Serve(t.hash, WebHandler, [receive]), PayFeeStores(cfg, m, t, now, r, f));
      }
    }
  }

  /** So is an accepted vote change, the renewal of a fee and the insertion of a new ticket. */
  lemma SetVoteChoicesServes(cfg: Config, m: Store, known: bool, wallets: nat, t: Ticket, r: SetVoteChoicesRequest,
                             timestampOf: string -> Option<Int64>, log: VoteChanges.Log, faults: SetVoteChoicesFaults)
    requires t.hash in m && m[t.hash] == t
    requires SetVoteChoicesAccepts(cfg, known, wallets, t, r, timestampOf, log, faults)
    ensures Atomic.Next(cfg, m, Atomic.Serve(t.hash, WebHandler, [r.Action()]), Put(m, Apply(cfg, r.Action(), t), true))
  {
    Atomic.ChainOfOne(cfg, WebHandler, r.Action(), t);
    hide Enabled, PreferencesValid, Atomic.Chain, Atomic.ApplyAll;
  }

  lemma FeeAddressServes(cfg: Config, m: Store, t: Ticket, now: Int64, r: FeeAddressRequest, f: FeeAddressFaults, added: Ticket)
    requires t.hash in m && m[t.hash] == t && !t.FeeTxKnown() && now > t.feeExpiration
    requires NewTicket(added) && added.hash !in m
    ensures var renewal := Renewal(now, r, f);
      Atomic.Next(cfg, m, Atomic.Serve(t.hash, WebHandler, [renewal]), Put(m, Apply(cfg, renewal, t), true))
    ensures Atomic.Next(cfg, m, Atomic.Insert(added), m[added.hash := added.Normalized()])
  {
    Atomic.ChainOfOne(cfg, WebHandler, Renewal(now, r, f), t);
    hide Enabled, Atomic.Chain, Atomic.ApplyAll;
  }

  /** What FeeAddress does for a ticket it adds is three steps of the allocation protocol. */
  lemma FeeAddressAllocates(s: AddressAllocator.State, child: UInt32 -> AddressAllocator.Child, counter: UInt32,
                            added: Ticket, xpubs: FeeXPubs.Table)
    returns (s1: AddressAllocator.State, s2: AddressAllocator.State, s3: AddressAllocator.State)
    requires AddressAllocator.Idle(s, added.feeAddressXPubID, counter, s.table) && added.hash !in s.store
    requires AddressAllocator.Derive(child, counter, 0).index == Some(added.feeAddressIndex)
    requires AddressAllocator.IndexStored(s.table, child, counter, xpubs)
    ensures var slot := AddressAllocator.Slot(added.hash, added.feeAddressXPubID, added.feeAddressIndex);
      && AddressAllocator.Next(s, AddressAllocator.Derived(added.hash, child, true), s1)
      && AddressAllocator.Next(s1, AddressAllocator.Persisted(true), s2)
      && AddressAllocator.Next(s2, AddressAllocator.Insert(slot, true), s3)
      && AddressAllocator.Idle(s3, added.feeAddressXPubID, AddressAllocator.Derive(child, counter, 0).counter, xpubs)
      && s3.store == s.store[added.hash := slot]
  {
    s1, s2 := AddressAllocator.AllocationIsSteps(s, added.hash, added.feeAddressXPubID, child, counter, added.feeAddressIndex, xpubs);
    s3 := AddressAllocator.InsertionIsStep(s2, added.hash, added.feeAddressXPubID, added.feeAddressIndex, true);
    hide AddressAllocator.Next, AddressAllocator.Derive;
  }
}
