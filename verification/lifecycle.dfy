/** The life of a ticket record as a protocol. Every actor reads a whole record, keeps
    a copy, and later writes the whole copy back. An action is one such write. */
module Lifecycle {
  import opened Tickets
  import opened Helpers
  import opened TicketStore

  datatype TxOut = TxOut(version: nat, script: string, value: Int64)

  datatype FeeTx = FeeTx(outputs: seq<TxOut>)

  /** The payment script of an address, with its version. */
  datatype Script = Script(version: nat, script: string)

  /** What the daemon takes from its libraries and configuration. None is a failure. */
  datatype Config = Config(
    deployments: seq<Agenda>,
    decoders: Decoders,
    decodeTx: string -> Option<FeeTx>,
    checkTxSanity: FeeTx -> bool,
    txHash: FeeTx -> string,
    paymentScript: string -> Option<Script>)
  {
    /** No transaction has an empty text, and no two have the same hash. */
    ghost predicate Sound() {
      decodeTx("") == None && forall x, y :: txHash(x) == txHash(y) ==> x == y
    }
  }

  // ---------- The fee payment ----------

  /** The output at i is the first that pays to the script. */
  ghost predicate FirstPayment(outputs: seq<TxOut>, want: Script, i: int) {
    && 0 <= i < |outputs| && PaysTo(outputs[i], want)
    && forall k | 0 <= k < i :: !PaysTo(outputs[k], want)
  }

  predicate PaysTo(out: TxOut, want: Script) {
    out.version == want.version && out.script == want.script
  }

  /** The record names a fee transaction that pays its fee to its address. */
  ghost predicate NamesSufficientFee(cfg: Config, t: Ticket) {
    exists tx :: cfg.txHash(tx) == t.feeTxHash && Pays(cfg, tx, t)
  }

  ghost predicate Pays(cfg: Config, tx: FeeTx, t: Ticket) {
    && cfg.paymentScript(t.feeAddress).Some?
    && exists i :: FirstPayment(tx.outputs, cfg.paymentScript(t.feeAddress).value, i)
                   && tx.outputs[i].value != 0 && t.feeAmount <= tx.outputs[i].value
  }

  /** What paying the fee comes to: the first output with the version and script of the
      fee address has a value, and at least the fee. */
  lemma PaysSays(cfg: Config, tx: FeeTx, t: Ticket)
    ensures Pays(cfg, tx, t) <==>
            match cfg.paymentScript(t.feeAddress)
            case None => false
            case Some(want) =>
              exists i :: 0 <= i < |tx.outputs|
                && tx.outputs[i].version == want.version && tx.outputs[i].script == want.script
                && tx.outputs[i].value != 0 && tx.outputs[i].value >= t.feeAmount
                && forall k | 0 <= k < i :: tx.outputs[k].version != want.version || tx.outputs[k].script != want.script
  {
    if cfg.paymentScript(t.feeAddress).Some? {
      var want := cfg.paymentScript(t.feeAddress).value;
      forall i | 0 <= i < |tx.outputs|
        ensures FirstPayment(tx.outputs, want, i) <==>
                && tx.outputs[i].version == want.version && tx.outputs[i].script == want.script
                && forall k | 0 <= k < i :: tx.outputs[k].version != want.version || tx.outputs[k].script != want.script
      {
        assert forall k | 0 <= k < i ::
            !PaysTo(tx.outputs[k], want) <==> tx.outputs[k].version != want.version || tx.outputs[k].script != want.script;
      }
    }
  }

  // ---------- Actions ----------

  /** The parts of a fee payment request that end up in the record. */
  datatype FeePayment = FeePayment(
    votingWIF: string, feeTx: string, voteChoices: StringMap, tSpendPolicy: StringMap, treasuryPolicy: StringMap)

  datatype Action =
    | RenewFee(now: Int64, expiration: Int64, amount: Int64)
    | ReceiveFee(now: Int64, payment: FeePayment)
    | FeeSent(ok: bool)
    | ChangeChoices(voteChoices: StringMap, tSpendPolicy: StringMap, treasuryPolicy: StringMap)
    | Confirm(height: Int64)
    | LoseFee
    | ConfirmFee
    | DropAgenda(agenda: string)
    | SetOutcome(outcome: Outcome)
    | SetHeight(height: Int64)

  /** Who holds a copy, which decides what it may write. The last two never read: they
      go on with a copy they have already written. */
  datatype Role =
    | WebHandler
    | UnconfirmedTicket
    | PendingFee
    | UnconfirmedFee
    | VotableTicket
    | MissingHeight
    | RevokedTicket
    | FeeJustReceived
    | FeeJustConfirmed

  /** What a copy held in a role is known to satisfy: the query that listed it, or the
      write that came before. */
  predicate Holds(role: Role, t: Ticket) {
    match role
    case WebHandler => true
    case UnconfirmedTicket => !t.confirmed
    case PendingFee => t.confirmed && t.feeTxStatus == FeeReceived
    case UnconfirmedFee => t.feeTxStatus == FeeBroadcast
    case VotableTicket => t.IsVotable()
    case MissingHeight => t.confirmed && t.purchaseHeight == 0
    case RevokedTicket => t.outcome == Revoked
    case FeeJustReceived => t.confirmed && t.feeTxStatus == FeeReceived
    case FeeJustConfirmed => t.feeTxStatus == FeeConfirmed
  }

  predicate Reads(role: Role, t: Ticket) {
    role != FeeJustReceived && role != FeeJustConfirmed && Holds(role, t)
  }

  /** The conditions under which the code performs the write. */
  ghost predicate Enabled(cfg: Config, role: Role, a: Action, t: Ticket) {
    match a
    case RenewFee(now, _, _) =>
      role == WebHandler && !t.FeeTxKnown() && now > t.feeExpiration
    case ReceiveFee(now, payment) =>
      role == WebHandler && !t.FeeTxKnown() && now <= t.feeExpiration && FeeAccepted(cfg, t, payment)
    case FeeSent(_) =>
      role == FeeJustReceived || role == PendingFee
    case ChangeChoices(choices, tspend, treasury) =>
      role == WebHandler && t.feeTxStatus != NoFee && t.outcome == Votable && PreferencesValid(cfg, choices, tspend, treasury)
    case Confirm(height) =>
      role == UnconfirmedTicket && height > 0
    case LoseFee =>
      role == UnconfirmedFee
    case ConfirmFee =>
      role == UnconfirmedFee
    case DropAgenda(_) =>
      role == VotableTicket || role == FeeJustConfirmed
    case SetOutcome(o) =>
      if role == VotableTicket then o in {Voted, Missed, Expired} else role == RevokedTicket && o in {Missed, Expired}
    case SetHeight(_) =>
      role == MissingHeight
  }

  ghost predicate FeeAccepted(cfg: Config, t: Ticket, payment: FeePayment) {
    var tx := cfg.decodeTx(payment.feeTx);
    tx.Some? && cfg.checkTxSanity(tx.value) && Pays(cfg, tx.value, t)
  }

  ghost predicate PreferencesValid(cfg: Config, choices: StringMap, tspend: StringMap, treasury: StringMap) {
    && ChoicesValid(cfg.deployments, choices.Entries())
    && TSpendPolicyValid(cfg.decoders, tspend.Entries())
    && TreasuryPolicyValid(cfg.decoders, treasury.Entries())
  }

  /** The copy after the write. A fee payment is taken even if its preferences are not. */
  ghost function Apply(cfg: Config, a: Action, t: Ticket): Ticket {
    match a
    case RenewFee(_, expiration, amount) =>
      t.(feeExpiration := expiration, feeAmount := amount)
    case ReceiveFee(_, payment) =>
      t.(votingWIF := payment.votingWIF,
         feeTxHex := payment.feeTx,
         feeTxHash := HashOf(cfg, payment.feeTx),
         feeTxStatus := FeeReceived,
         voteChoices := if ChoicesValid(cfg.deployments, payment.voteChoices.Entries()) then payment.voteChoices else t.voteChoices,
         tSpendPolicy := if TSpendPolicyValid(cfg.decoders, payment.tSpendPolicy.Entries()) then payment.tSpendPolicy else t.tSpendPolicy,
         treasuryPolicy := if TreasuryPolicyValid(cfg.decoders, payment.treasuryPolicy.Entries()) then payment.treasuryPolicy else t.treasuryPolicy)
    case FeeSent(ok) =>
      t.(feeTxStatus := if ok then FeeBroadcast else FeeError)
    case ChangeChoices(choices, tspend, treasury) =>
      t.(voteChoices := Overlay(t.voteChoices, choices),
         tSpendPolicy := Overlay(t.tSpendPolicy, tspend),
         treasuryPolicy := Overlay(t.treasuryPolicy, treasury))
    case Confirm(height) =>
      t.(purchaseHeight := height, confirmed := true)
    case LoseFee =>
      t.(feeTxStatus := FeeError)
    case ConfirmFee =>
      t.(feeTxHex := "", feeTxStatus := FeeConfirmed)
    case DropAgenda(agenda) =>
      t.(voteChoices := StringMap(t.voteChoices.Entries() - {agenda}))
    case SetOutcome(o) =>
      t.(outcome := o)
    case SetHeight(height) =>
      t.(purchaseHeight := height)
  }

  /** An accepted vote change, map by map and key by key: the request's keys take the
      request's values, other keys keep theirs, and no other field moves. */
  lemma ChangeSays(cfg: Config, choices: StringMap, tspend: StringMap, treasury: StringMap, t: Ticket)
    ensures var t' := Apply(cfg, ChangeChoices(choices, tspend, treasury), t);
      && Overlaid(t.voteChoices.Entries(), choices.Entries(), t'.voteChoices.Entries())
      && Overlaid(t.tSpendPolicy.Entries(), tspend.Entries(), t'.tSpendPolicy.Entries())
      && Overlaid(t.treasuryPolicy.Entries(), treasury.Entries(), t'.treasuryPolicy.Entries())
      && t' == t.(voteChoices := t'.voteChoices, tSpendPolicy := t'.tSpendPolicy, treasuryPolicy := t'.treasuryPolicy)
  {
  }

  ghost predicate Overlaid(was: map<string, string>, changes: map<string, string>, now: map<string, string>) {
    && (forall k | k in changes :: k in now && now[k] == changes[k])
    && (forall k | k !in changes :: (k in now <==> k in was) && (k in was ==> now[k] == was[k]))
  }

  function HashOf(cfg: Config, feeTx: string): string {
    match cfg.decodeTx(feeTx)
    case None => ""
    case Some(tx) => cfg.txHash(tx)
  }

  function Overlay(was: StringMap, changes: StringMap): StringMap {
    StringMap(was.Entries() + changes.Entries())
  }

  /** The role the actor goes on in with its written copy, if it writes again. Dropping an
      agenda goes on whether or not the store took the write. */
  function NextRole(role: Role, a: Action, t': Ticket, stored: bool): Option<Role> {
    if a.DropAgenda? then Some(role)
    else if stored && a.ReceiveFee? && t'.confirmed then Some(FeeJustReceived)
    else if stored && a.ConfirmFee? then Some(FeeJustConfirmed)
    else None
  }

  // ---------- What every record satisfies ----------

  ghost predicate RecordOK(cfg: Config, t: Ticket) {
    && StatusOK(t)
    && (t.FeeTxKnown() ==> NamesSufficientFee(cfg, t))
    && PreferencesValid(cfg, t.voteChoices, t.tSpendPolicy, t.treasuryPolicy)
  }

  predicate StatusOK(t: Ticket) {
    && (t.feeTxStatus in {FeeBroadcast, FeeConfirmed, FeeError} ==> t.confirmed)
    && (t.confirmed <==> t.purchaseHeight != 0)
    && (t.feeTxStatus == FeeConfirmed ==> t.feeTxHex == "")
    && (t.feeTxStatus in {FeeReceived, FeeBroadcast, FeeError} ==> t.feeTxHex != "")
    && (t.feeTxStatus == NoFee ==> t.feeTxHash == "" && t.votingWIF == "" && t.feeTxHex == "")
    && (t.outcome != Votable ==> t.feeTxStatus == FeeConfirmed)
    && !t.feeTxStatus.UnknownFee? && !t.outcome.UnknownOutcome?
  }

  /** A ticket the daemon has just given a fee address. */
  ghost predicate NewTicket(t: Ticket) {
    && t.feeTxStatus == NoFee && t.outcome == Votable
    && t.feeTxHash == "" && t.votingWIF == "" && t.feeTxHex == ""
    && t.voteChoices == NilMap && t.tSpendPolicy == NilMap && t.treasuryPolicy == NilMap
    && (if t.confirmed then t.purchaseHeight > 0 else t.purchaseHeight == 0)
  }

  lemma NewTicketOK(cfg: Config, t: Ticket)
    requires NewTicket(t)
    ensures RecordOK(cfg, t)
  {
  }

  lemma NormalizedOK(cfg: Config, t: Ticket)
    requires RecordOK(cfg, t)
    ensures RecordOK(cfg, t.Normalized())
  {
    if t.FeeTxKnown() {
      var tx :| cfg.txHash(tx) == t.feeTxHash && Pays(cfg, tx, t);
      assert Pays(cfg, tx, t.Normalized());
    }
  }

  /** No action touches the hash or the fee address, and one that keeps the fee
      transaction keeps its sufficiency. */
  lemma ActionKeepsIdentity(cfg: Config, role: Role, a: Action, t: Ticket)
    requires Enabled(cfg, role, a, t)
    ensures var t' := Apply(cfg, a, t);
      && t'.hash == t.hash && t'.feeAddress == t.feeAddress && t'.commitmentAddress == t.commitmentAddress
      && t'.feeAddressXPubID == t.feeAddressXPubID && t'.feeAddressIndex == t.feeAddressIndex
      && (t'.feeAmount != t.feeAmount ==> !t.FeeTxKnown() && !t'.FeeTxKnown())
  {
  }

  lemma ActionKeepsStatusOK(cfg: Config, role: Role, a: Action, t: Ticket)
    requires cfg.Sound() && StatusOK(t) && Holds(role, t) && Enabled(cfg, role, a, t)
    ensures StatusOK(Apply(cfg, a, t))
  {
  }

  lemma ActionKeepsFee(cfg: Config, role: Role, a: Action, t: Ticket)
    requires RecordOK(cfg, t) && Holds(role, t) && Enabled(cfg, role, a, t) && Apply(cfg, a, t).FeeTxKnown()
    ensures NamesSufficientFee(cfg, Apply(cfg, a, t))
  {
    var t' := Apply(cfg, a, t);
    if a.ReceiveFee? {
      var tx := cfg.decodeTx(a.payment.feeTx).value;
      assert Pays(cfg, tx, t) && Pays(cfg, tx, t');
    } else {
      var tx :| cfg.txHash(tx) == t.feeTxHash && Pays(cfg, tx, t);
      assert Pays(cfg, tx, t');
    }
  }

  lemma ActionKeepsPreferences(cfg: Config, role: Role, a: Action, t: Ticket)
    requires RecordOK(cfg, t) && Enabled(cfg, role, a, t)
    ensures var t' := Apply(cfg, a, t); PreferencesValid(cfg, t'.voteChoices, t'.tSpendPolicy, t'.treasuryPolicy)
  {
  }

  /** Every write turns a record that satisfies the invariant into one that does. */
  lemma ActionKeepsRecordOK(cfg: Config, role: Role, a: Action, t: Ticket)
    requires cfg.Sound() && RecordOK(cfg, t) && Holds(role, t) && Enabled(cfg, role, a, t)
    ensures RecordOK(cfg, Apply(cfg, a, t))
  {
    ActionKeepsStatusOK(cfg, role, a, t);
    ActionKeepsPreferences(cfg, role, a, t);
    if Apply(cfg, a, t).FeeTxKnown() {
      ActionKeepsFee(cfg, role, a, t);
    }
  }

  lemma NextRoleHolds(cfg: Config, role: Role, a: Action, t: Ticket, stored: bool)
    requires Holds(role, t) && Enabled(cfg, role, a, t)
    ensures var t' := Apply(cfg, a, t);
      NextRole(role, a, t', stored).Some? ==> Holds(NextRole(role, a, t', stored).value, t')
  {
  }

  /** The record's own fee is met by the transaction it names, whichever that is. */
  lemma NamedFeeSuffices(cfg: Config, t: Ticket, tx: FeeTx)
    requires cfg.Sound() && RecordOK(cfg, t) && t.FeeTxKnown() && cfg.txHash(tx) == t.feeTxHash
    ensures Pays(cfg, tx, t)
  {
  }

  /** Every ticket sits under its hash, has allocated maps and satisfies the invariant. */
  ghost predicate StoreOK(cfg: Config, m: Store) {
    Keyed(m) && forall h | h in m :: RecordOK(cfg, m[h])
  }

  lemma StoredOK(cfg: Config, m: Store, t: Ticket)
    requires StoreOK(cfg, m) && RecordOK(cfg, t)
    ensures StoreOK(cfg, m[t.hash := t.Normalized()])
  {
    NormalizedOK(cfg, t);
  }
}
