/** The ticket bucket at the byte level: how a record is written and read, and the
    queries and statistics that look at raw bytes. */
module Storage {
  import opened Tickets
  import opened Encoding
  import opened Lifecycle

  /** The keys of a ticket's bucket. */
  datatype Field =
    | HashK | PurchaseHeightK | CommitmentAddressK | FeeAddressXPubIDK | FeeAddressIndexK | FeeAddressK
    | FeeAmountK | FeeExpirationK | ConfirmedK | VotingWIFK | VoteChoicesK | TSpendPolicyK | TreasuryPolicyK
    | FeeTxHexK | FeeTxHashK | FeeTxStatusK | OutcomeK

  type Values = map<Field, Bytes>

  // ---------- Status texts ----------

  function FeeStatusText(s: FeeStatus): Bytes {
    match s
    case NoFee => "none"
    case FeeReceived => "received"
    case FeeBroadcast => "broadcast"
    case FeeConfirmed => "confirmed"
    case FeeError => "error"
    case UnknownFee(raw) => raw
  }

  function ParseFeeStatus(b: Bytes): FeeStatus {
    if b == "none" then NoFee
    else if b == "received" then FeeReceived
    else if b == "broadcast" then FeeBroadcast
    else if b == "confirmed" then FeeConfirmed
    else if b == "error" then FeeError
    else UnknownFee(b)
  }

  function OutcomeText(o: Outcome): Bytes {
    match o
    case Votable => ""
    case Expired => "expired"
    case Missed => "missed"
    case Voted => "voted"
    case Revoked => "revoked"
    case UnknownOutcome(raw) => raw
  }

  function ParseOutcome(b: Bytes): Outcome {
    if b == "" then Votable
    else if b == "expired" then Expired
    else if b == "missed" then Missed
    else if b == "voted" then Voted
    else if b == "revoked" then Revoked
    else UnknownOutcome(b)
  }

  /** An unknown text is not one of the constants under another name. */
  predicate Canonical(t: Ticket) {
    && (t.feeTxStatus.UnknownFee? ==> t.feeTxStatus.raw !in {"none", "received", "broadcast", "confirmed", "error"})
    && (t.outcome.UnknownOutcome? ==> t.outcome.raw !in {"", "expired", "missed", "voted", "revoked"})
  }

  lemma FeeStatusRoundTrip(s: FeeStatus)
    requires s.UnknownFee? ==> s.raw !in {"none", "received", "broadcast", "confirmed", "error"}
    ensures ParseFeeStatus(FeeStatusText(s)) == s
  {
    assert "broadcast"[0] != "confirmed"[0];
  }

  lemma OutcomeRoundTrip(o: Outcome)
    requires o.UnknownOutcome? ==> o.raw !in {"", "expired", "missed", "voted", "revoked"}
    ensures ParseOutcome(OutcomeText(o)) == o
  {
    assert "expired"[0] != "revoked"[0];
  }

  /** Comparing the stored text with a constant is comparing the parsed value. */
  lemma StatusTextsCompare(b: Bytes)
    ensures b == "none" <==> ParseFeeStatus(b) == NoFee
    ensures b == "error" <==> ParseFeeStatus(b) == FeeError
    ensures b == "received" <==> ParseFeeStatus(b) == FeeReceived
    ensures b == "broadcast" <==> ParseFeeStatus(b) == FeeBroadcast
    ensures b == "confirmed" <==> ParseFeeStatus(b) == FeeConfirmed
    ensures b == "" <==> ParseOutcome(b) == Votable
    ensures b == "voted" <==> ParseOutcome(b) == Voted
    ensures b == "missed" <==> ParseOutcome(b) == Missed
    ensures b == "expired" <==> ParseOutcome(b) == Expired
    ensures b == "revoked" <==> ParseOutcome(b) == Revoked
  {
    assert "broadcast"[0] != "confirmed"[0] && "expired"[0] != "revoked"[0];
  }

  // ---------- The codec ----------

  /** What a ticket's field is stored as. */
  function Stored(json: Json, t: Ticket, f: Field): Bytes {
    match f
    case HashK => t.hash
    case PurchaseHeightK => Int64ToBytes(t.purchaseHeight)
    case CommitmentAddressK => t.commitmentAddress
    case FeeAddressXPubIDK => UInt32ToBytes(t.feeAddressXPubID)
    case FeeAddressIndexK => UInt32ToBytes(t.feeAddressIndex)
    case FeeAddressK => t.feeAddress
    case FeeAmountK => Int64ToBytes(t.feeAmount)
    case FeeExpirationK => Int64ToBytes(t.feeExpiration)
    case ConfirmedK => BoolToBytes(t.confirmed)
    case VotingWIFK => t.votingWIF
    case VoteChoicesK => json.marshal(t.voteChoices)
    case TSpendPolicyK => json.marshal(t.tSpendPolicy)
    case TreasuryPolicyK => json.marshal(t.treasuryPolicy)
    case FeeTxHexK => t.feeTxHex
    case FeeTxHashK => t.feeTxHash
    case FeeTxStatusK => FeeStatusText(t.feeTxStatus)
    case OutcomeK => OutcomeText(t.outcome)
  }

  /** The bucket holds the ticket: every field is there with its value. */
  ghost predicate HoldsTicket(json: Json, v: Values, t: Ticket) {
    forall f: Field :: f in v && v[f] == Stored(json, t, f)
  }

  /** The place of a field in the order the fields are put in. */
  function Place(f: Field): (n: nat)
    ensures n < 17
  {
    match f
    case HashK => 0
    case CommitmentAddressK => 1
    case FeeAddressK => 2
    case VotingWIFK => 3
    case FeeTxHexK => 4
    case FeeTxHashK => 5
    case FeeTxStatusK => 6
    case OutcomeK => 7
    case PurchaseHeightK => 8
    case FeeAddressIndexK => 9
    case FeeAddressXPubIDK => 10
    case FeeAmountK => 11
    case FeeExpirationK => 12
    case ConfirmedK => 13
    case TSpendPolicyK => 14
    case TreasuryPolicyK => 15
    case VoteChoicesK => 16
  }

  function FieldAt(n: nat): Field {
    match n
    case 0 => HashK
    case 1 => CommitmentAddressK
    case 2 => FeeAddressK
    case 3 => VotingWIFK
    case 4 => FeeTxHexK
    case 5 => FeeTxHashK
    case 6 => FeeTxStatusK
    case 7 => OutcomeK
    case 8 => PurchaseHeightK
    case 9 => FeeAddressIndexK
    case 10 => FeeAddressXPubIDK
    case 11 => FeeAmountK
    case 12 => FeeExpirationK
    case 13 => ConfirmedK
    case 14 => TSpendPolicyK
    case 15 => TreasuryPolicyK
    case _ => VoteChoicesK
  }

  lemma PlaceIsOwn(f: Field)
    ensures FieldAt(Place(f)) == f
  {
  }

  /** The first n fields are there with their values. */
  ghost predicate HoldsFirst(json: Json, v: Values, t: Ticket, n: nat) {
    forall f | Place(f) < n :: f in v && v[f] == Stored(json, t, f)
  }

  class Bucket {
    var values: Values

    constructor ()
      ensures values == map[]
    {
      values := map[];
    }

    method Put(f: Field, value: Bytes, ghost json: Json, ghost t: Ticket)
      requires value == Stored(json, t, f) && HoldsFirst(json, values, t, Place(f))
      modifies this
      ensures HoldsFirst(json, values, t, Place(f) + 1)
    {
      values := values[f := value];
      forall g | Place(g) < Place(f) + 1 ensures g in values && values[g] == Stored(json, t, g) {
        PlaceIsOwn(g);
        PlaceIsOwn(f);
        hide Place, FieldAt, Stored;
      }
    }

    /** Puts the fields one after another; nothing of what the bucket held before is left. */
    method PutTicket(json: Json, t: Ticket)
      modifies this
      ensures HoldsTicket(json, values, t)
    {
      hide HoldsFirst, FeeStatusText, OutcomeText, Int64ToBytes, UInt32ToBytes, BoolToBytes;
      NoneFirst(json, values, t);
      Put(HashK, t.hash, json, t);
      Put(CommitmentAddressK, t.commitmentAddress, json, t);
      Put(FeeAddressK, t.feeAddress, json, t);
      Put(VotingWIFK, t.votingWIF, json, t);
      Put(FeeTxHexK, t.feeTxHex, json, t);
      Put(FeeTxHashK, t.feeTxHash, json, t);
      Put(FeeTxStatusK, FeeStatusText(t.feeTxStatus), json, t);
      Put(OutcomeK, OutcomeText(t.outcome), json, t);
      Put(PurchaseHeightK, Int64ToBytes(t.purchaseHeight), json, t);
      Put(FeeAddressIndexK, UInt32ToBytes(t.feeAddressIndex), json, t);
      Put(FeeAddressXPubIDK, UInt32ToBytes(t.feeAddressXPubID), json, t);
      Put(FeeAmountK, Int64ToBytes(t.feeAmount), json, t);
      Put(FeeExpirationK, Int64ToBytes(t.feeExpiration), json, t);
      Put(ConfirmedK, BoolToBytes(t.confirmed), json, t);
      Put(TSpendPolicyK, json.marshal(t.tSpendPolicy), json, t);
      Put(TreasuryPolicyK, json.marshal(t.treasuryPolicy), json, t);
      Put(VoteChoicesK, json.marshal(t.voteChoices), json, t);
      AllFirst(json, values, t);
    }
  }

  lemma NoneFirst(json: Json, v: Values, t: Ticket)
    ensures HoldsFirst(json, v, t, 0)
  {
  }

  lemma AllFirst(json: Json, v: Values, t: Ticket)
    requires HoldsFirst(json, v, t, 17)
    ensures HoldsTicket(json, v, t)
  {
  }

  function Get(v: Values, f: Field): Option<Bytes> {
    if f in v then Some(v[f]) else None
  }

  /** A value that is absent reads as the empty text. */
  function Text(v: Values, f: Field): Bytes {
    if f in v then v[f] else ""
  }

  /** The values of fixed width are there; reading a ticket without them panics. */
  predicate Readable(v: Values) {
    && |Text(v, PurchaseHeightK)| >= 8 && |Text(v, FeeAmountK)| >= 8 && |Text(v, FeeExpirationK)| >= 8
    && |Text(v, FeeAddressXPubIDK)| >= 4 && |Text(v, FeeAddressIndexK)| >= 4
    && |Text(v, ConfirmedK)| >= 1
  }

  /** The ticket without its maps. */
  function Plain(v: Values): Ticket
    requires Readable(v)
  {
    Ticket(Text(v, HashK), BytesToInt64(Text(v, PurchaseHeightK)), Text(v, CommitmentAddressK),
           BytesToUInt32(Text(v, FeeAddressXPubIDK)), BytesToUInt32(Text(v, FeeAddressIndexK)), Text(v, FeeAddressK),
           BytesToInt64(Text(v, FeeAmountK)), BytesToInt64(Text(v, FeeExpirationK)), BytesToBool(Text(v, ConfirmedK)),
           Text(v, VotingWIFK), NilMap, NilMap, NilMap, Text(v, FeeTxHexK), Text(v, FeeTxHashK),
           ParseFeeStatus(Text(v, FeeTxStatusK)), ParseOutcome(Text(v, OutcomeK)))
  }

  /** Reading a ticket; None is a map whose text does not parse. */
  function Decode(json: Json, v: Values): (r: Option<Ticket>)
    requires Readable(v)
    ensures r.Some? ==> r.value.MapsAllocated()
  {
    var choices := json.BytesToStringMap(Get(v, VoteChoicesK));
    var tspend := json.BytesToStringMap(Get(v, TSpendPolicyK));
    var treasury := json.BytesToStringMap(Get(v, TreasuryPolicyK));
    if choices.None? || tspend.None? || treasury.None? then None
    else Some(Plain(v).(voteChoices := choices.value, tSpendPolicy := tspend.value, treasuryPolicy := treasury.value))
  }

  lemma NumbersRoundTrip(json: Json, v: Values, t: Ticket)
    requires HoldsTicket(json, v, t)
    ensures Readable(v)
    ensures BytesToInt64(Text(v, PurchaseHeightK)) == t.purchaseHeight
    ensures BytesToInt64(Text(v, FeeAmountK)) == t.feeAmount && BytesToInt64(Text(v, FeeExpirationK)) == t.feeExpiration
    ensures BytesToUInt32(Text(v, FeeAddressXPubIDK)) == t.feeAddressXPubID
    ensures BytesToUInt32(Text(v, FeeAddressIndexK)) == t.feeAddressIndex
    ensures BytesToBool(Text(v, ConfirmedK)) == t.confirmed
  {
    hide Int64ToBytes, BytesToInt64, UInt32ToBytes, BytesToUInt32;
    Int64RoundTrip(t.purchaseHeight);
    Int64RoundTrip(t.feeAmount);
    Int64RoundTrip(t.feeExpiration);
    UInt32RoundTrip(t.feeAddressIndex);
    UInt32RoundTrip(t.feeAddressXPubID);
  }

  lemma TextsRoundTrip(json: Json, v: Values, t: Ticket)
    requires Canonical(t) && HoldsTicket(json, v, t)
    ensures Text(v, HashK) == t.hash && Text(v, CommitmentAddressK) == t.commitmentAddress
    ensures Text(v, FeeAddressK) == t.feeAddress && Text(v, VotingWIFK) == t.votingWIF
    ensures Text(v, FeeTxHexK) == t.feeTxHex && Text(v, FeeTxHashK) == t.feeTxHash
    ensures ParseFeeStatus(Text(v, FeeTxStatusK)) == t.feeTxStatus && ParseOutcome(Text(v, OutcomeK)) == t.outcome
  {
    hide ParseFeeStatus, FeeStatusText, ParseOutcome, OutcomeText;
    FeeStatusRoundTrip(t.feeTxStatus);
    OutcomeRoundTrip(t.outcome);
  }

  /** The fields other than the maps read back as they were. */
  lemma PlainRoundTrip(json: Json, v: Values, t: Ticket)
    requires Canonical(t) && HoldsTicket(json, v, t)
    ensures Readable(v)
    ensures Plain(v) == t.(voteChoices := NilMap, tSpendPolicy := NilMap, treasuryPolicy := NilMap)
  {
    NumbersRoundTrip(json, v, t);
    TextsRoundTrip(json, v, t);
    hide Canonical, HoldsTicket, Readable, Text, ParseFeeStatus, ParseOutcome, BytesToInt64, BytesToUInt32, BytesToBool;
  }

  /** Which value is under which key, so that files of other releases read the same. */
  lemma TextsLayout(json: Json, v: Values, t: Ticket)
    requires HoldsTicket(json, v, t)
    ensures Text(v, HashK) == t.hash && Text(v, CommitmentAddressK) == t.commitmentAddress
    ensures Text(v, FeeAddressK) == t.feeAddress && Text(v, VotingWIFK) == t.votingWIF
    ensures Text(v, FeeTxHexK) == t.feeTxHex && Text(v, FeeTxHashK) == t.feeTxHash
  {
    hide FeeStatusText, OutcomeText, Int64ToBytes, UInt32ToBytes, BoolToBytes;
  }

  lemma PoliciesLayout(json: Json, v: Values, t: Ticket)
    requires HoldsTicket(json, v, t)
    ensures Get(v, VoteChoicesK) == Some(json.marshal(t.voteChoices))
    ensures Get(v, TSpendPolicyK) == Some(json.marshal(t.tSpendPolicy))
    ensures Get(v, TreasuryPolicyK) == Some(json.marshal(t.treasuryPolicy))
  {
  }

  lemma NumbersLayout(json: Json, v: Values, t: Ticket)
    requires HoldsTicket(json, v, t)
    ensures Text(v, PurchaseHeightK) == Int64ToBytes(t.purchaseHeight) && Text(v, FeeAmountK) == Int64ToBytes(t.feeAmount)
    ensures Text(v, FeeExpirationK) == Int64ToBytes(t.feeExpiration)
    ensures Text(v, FeeAddressIndexK) == UInt32ToBytes(t.feeAddressIndex)
    ensures Text(v, FeeAddressXPubIDK) == UInt32ToBytes(t.feeAddressXPubID)
    ensures Text(v, ConfirmedK) == [(if t.confirmed then 1 else 0) as char]
  {
    hide FeeStatusText, OutcomeText, Int64ToBytes, UInt32ToBytes;
  }

  /** A ticket written before policies were stored reads with empty ones. */
  lemma MissingPoliciesAreEmpty(json: Json, v: Values)
    requires Readable(v) && TSpendPolicyK !in v && TreasuryPolicyK !in v
    requires VoteChoicesK in v && json.unmarshal(v[VoteChoicesK]).Some?
    ensures Decode(json, v).Some?
    ensures Decode(json, v).value.tSpendPolicy == StringMap(map[]) && Decode(json, v).value.treasuryPolicy == StringMap(map[])
    ensures Decode(json, v).value.voteChoices.Entries() == json.unmarshal(v[VoteChoicesK]).value.Entries()
  {
    hide Plain, Readable;
  }

  /** Reading after writing gives the ticket back with nil maps as empty ones. */
  lemma CodecRoundTrip(json: Json, v: Values, t: Ticket)
    requires json.RoundTrips() && Canonical(t) && HoldsTicket(json, v, t)
    ensures Readable(v) && Decode(json, v) == Some(t.Normalized())
  {
    PlainRoundTrip(json, v, t);
    PoliciesLayout(json, v, t);
    hide Plain, Readable, HoldsTicket, Canonical, Get;
  }

  // ---------- Queries ----------

  datatype Query =
    | UnconfirmedTickets | PendingFees | UnconfirmedFees | VotableTickets
    | VotedTickets | RevokedTickets | MissingPurchaseHeight | MissedTickets

  /** The query as it is asked of the raw values. */
  predicate RawMatches(q: Query, v: Values)
    requires Readable(v)
  {
    match q
    case UnconfirmedTickets => !BytesToBool(Text(v, ConfirmedK))
    case PendingFees => BytesToBool(Text(v, ConfirmedK)) && Text(v, FeeTxStatusK) == "received"
    case UnconfirmedFees => Text(v, FeeTxStatusK) == "broadcast"
    case VotableTickets => Text(v, FeeTxStatusK) == "confirmed" && Text(v, OutcomeK) == ""
    case VotedTickets => Text(v, FeeTxStatusK) == "confirmed" && Text(v, OutcomeK) == "voted"
    case RevokedTickets => Text(v, OutcomeK) == "revoked"
    case MissingPurchaseHeight => BytesToBool(Text(v, ConfirmedK)) && BytesToInt64(Text(v, PurchaseHeightK)) == 0
    case MissedTickets => Text(v, OutcomeK) == "missed"
  }

  /** The query as it is meant. */
  predicate Matches(q: Query, t: Ticket) {
    match q
    case UnconfirmedTickets => !t.confirmed
    case PendingFees => t.confirmed && t.feeTxStatus == FeeReceived
    case UnconfirmedFees => t.feeTxStatus == FeeBroadcast
    case VotableTickets => t.IsVotable()
    case VotedTickets => t.feeTxStatus == FeeConfirmed && t.outcome == Voted
    case RevokedTickets => t.outcome == Revoked
    case MissingPurchaseHeight => t.confirmed && t.purchaseHeight == 0
    case MissedTickets => t.outcome == Missed
  }

  lemma FilterPushdown(q: Query, v: Values)
    requires Readable(v)
    ensures RawMatches(q, v) <==> Matches(q, Plain(v))
  {
    hide ParseFeeStatus, ParseOutcome, BytesToInt64, BytesToUInt32;
    StatusTextsCompare(Text(v, FeeTxStatusK));
    StatusTextsCompare(Text(v, OutcomeK));
  }

  /** The queries are what the updater's passes and the check at start are written for: each
      lists exactly the tickets those roles work on. */
  lemma QueriesAreRoles(t: Ticket)
    ensures Matches(UnconfirmedTickets, t) <==> !t.confirmed
    ensures Matches(PendingFees, t) <==> t.confirmed && t.feeTxStatus == FeeReceived
    ensures Matches(UnconfirmedFees, t) <==> t.feeTxStatus == FeeBroadcast
    ensures Matches(VotableTickets, t) <==> t.feeTxStatus == FeeConfirmed && t.outcome == Votable
    ensures Matches(VotedTickets, t) <==> t.feeTxStatus == FeeConfirmed && t.outcome == Voted
    ensures Matches(RevokedTickets, t) <==> t.outcome == Revoked
    ensures Matches(MissingPurchaseHeight, t) <==> t.confirmed && t.purchaseHeight == 0
    ensures Matches(MissedTickets, t) <==> t.outcome == Missed
    ensures Reads(UnconfirmedTicket, t) <==> Matches(UnconfirmedTickets, t)
    ensures Reads(PendingFee, t) <==> Matches(PendingFees, t)
    ensures Reads(UnconfirmedFee, t) <==> Matches(UnconfirmedFees, t)
    ensures Reads(VotableTicket, t) <==> Matches(VotableTickets, t)
    ensures Reads(RevokedTicket, t) <==> Matches(RevokedTickets, t)
    ensures Reads(MissingHeight, t) <==> Matches(MissingPurchaseHeight, t)
  {
  }

  ghost predicate AllReadable(buckets: seq<Values>) {
    forall v | v in buckets :: Readable(v)
  }

  ghost function DecodeAll(json: Json, buckets: seq<Values>): (r: Option<seq<Ticket>>)
    requires AllReadable(buckets)
    ensures r.Some? ==> |r.value| == |buckets|
  {
    if buckets == [] then Some([])
    else
      var n := |buckets| - 1;
      var t := Decode(json, buckets[n]);
      var rest := DecodeAll(json, buckets[..n]);
      if t.None? || rest.None? then None else Some(rest.value + [t.value])
  }

  /** The tickets of a list that match, in order. */
  ghost function Select(q: Query, list: seq<Ticket>): seq<Ticket> {
    if list == [] then []
    else
      var n := |list| - 1;
      Select(q, list[..n]) + if Matches(q, list[n]) then [list[n]] else []
  }

  /** A query filters raw values and decodes only what matches; when every bucket decodes
      it gives what filtering the decoded tickets gives. */
  method FilterTickets(json: Json, q: Query, buckets: seq<Values>) returns (r: Option<seq<Ticket>>)
    requires AllReadable(buckets)
    ensures DecodeAll(json, buckets).Some? ==> r == Some(Select(q, DecodeAll(json, buckets).value))
    ensures r.None? <==> exists v :: v in buckets && RawMatches(q, v) && Decode(json, v).None?
  {
    var tickets: seq<Ticket> := [];
    assert Select(q, []) == [];
    hide Matches, Plain, Select, Text;
    for k := 0 to |buckets|
      invariant DecodeAll(json, buckets[..k]).Some? ==> tickets == Select(q, DecodeAll(json, buckets[..k]).value)
      invariant forall v | v in buckets[..k] && RawMatches(q, v) :: Decode(json, v).Some?
    {
      var v := buckets[k];
      assert buckets[..k+1] == buckets[..k] + [v] && buckets[..k+1][..k] == buckets[..k];
      assert v in buckets;
      FilterPushdown(q, v);
      AppendSelect(json, q, buckets, k);
      if RawMatches(q, v) {
        var ticket := Decode(json, v);
        if ticket.None? {
          EachDecodes(json, buckets, k);
          return None;
        }
        tickets := tickets + [ticket.value];
      }
    }
    assert buckets[..|buckets|] == buckets;
    return Some(tickets);
  }

  lemma {:induction false} EachDecodes(json: Json, buckets: seq<Values>, k: nat)
    requires AllReadable(buckets) && k < |buckets|
    ensures DecodeAll(json, buckets).Some? ==> Decode(json, buckets[k]).Some?
  {
    hide Decode, Readable;
    var n := |buckets| - 1;
    if k < n {
      assert buckets[..n][k] == buckets[k];
      EachDecodes(json, buckets[..n], k);
    }
  }

  /** One bucket more adds its ticket to the selection if it matches. */
  lemma AppendSelect(json: Json, q: Query, buckets: seq<Values>, k: nat)
    requires AllReadable(buckets) && k < |buckets|
    ensures DecodeAll(json, buckets[..k+1]).Some? ==>
              && DecodeAll(json, buckets[..k]).Some? && Decode(json, buckets[k]).Some?
              && Select(q, DecodeAll(json, buckets[..k+1]).value)
              == Select(q, DecodeAll(json, buckets[..k]).value)
                 + if Matches(q, Plain(buckets[k])) then [Decode(json, buckets[k]).value] else []
  {
    assert buckets[..k+1][..k] == buckets[..k] && buckets[..k+1][k] == buckets[k];
    if DecodeAll(json, buckets[..k+1]).Some? {
      var before, t := DecodeAll(json, buckets[..k]).value, Decode(json, buckets[k]).value;
      assert Matches(q, t) <==> Matches(q, Plain(buckets[k]));
      hide Plain, Decode, Matches, Readable;
      assert (before + [t])[..k] == before;
    }
  }

  /** Buckets written by PutTicket decode to the tickets written, so a query on them
      returns exactly the stored tickets that match. */
  lemma {:induction false} StoredTicketsDecode(json: Json, buckets: seq<Values>, list: seq<Ticket>)
    requires json.RoundTrips() && |buckets| == |list|
    requires forall i | 0 <= i < |list| :: Canonical(list[i]) && HoldsTicket(json, buckets[i], list[i])
    ensures AllReadable(buckets)
    ensures DecodeAll(json, buckets).Some?
    ensures forall i | 0 <= i < |list| :: DecodeAll(json, buckets).value[i] == list[i].Normalized()
  {
    hide Canonical, HoldsTicket, Readable, Decode;
    if list != [] {
      var n := |list| - 1;
      StoredTicketsDecode(json, buckets[..n], list[..n]);
      CodecRoundTrip(json, buckets[n], list[n]);
      assert buckets == buckets[..n] + [buckets[n]];
    }
  }

  // ---------- Statistics ----------

  const BLOCKS_IN_24_HOURS := 24 * 60 / 5
  const BLOCKS_IN_28_DAYS := 28 * BLOCKS_IN_24_HOURS

  datatype TicketStats = TicketStats(
    voting: nat, voted: nat, expired: nat, missed: nat,
    revenueLifetime: Int64, revenue28Days: Int64, revenue24Hours: Int64)

  function Max(a: int, b: int): int {
    if a > b then a else b
  }

  /** Purchased within the last so many blocks. A zero height is a purchase too recent to
      have one. */
  predicate Recent(t: Ticket, blockHeight: int, blocks: int) {
    t.purchaseHeight >= Max(blockHeight - blocks, 1) || t.purchaseHeight == 0
  }

  ghost function Count(list: seq<Ticket>, p: Ticket -> bool): nat {
    if list == [] then 0
    else Count(list[..|list| - 1], p) + if p(list[|list| - 1]) then 1 else 0
  }

  /** The fees of the tickets that match, as an unbounded sum. */
  ghost function Fees(list: seq<Ticket>, p: Ticket -> bool): int {
    if list == [] then 0
    else Fees(list[..|list| - 1], p) + if p(list[|list| - 1]) then list[|list| - 1].feeAmount else 0
  }

  ghost function PlainAll(buckets: seq<Values>): (r: seq<Ticket>)
    requires AllReadable(buckets)
    ensures |r| == |buckets|
  {
    seq(|buckets|, i requires 0 <= i < |buckets| => Plain(buckets[i]))
  }

  predicate FeePaidUp(t: Ticket) {
    t.feeTxStatus == FeeConfirmed
  }

  /** What the statistics are meant to be: counts by outcome over tickets with a confirmed
      fee, and their fees, each in the int64 it is accumulated in. */
  ghost function StatsOf(list: seq<Ticket>, blockHeight: int): TicketStats {
    TicketStats(
      Count(list, t => FeePaidUp(t) && t.outcome !in {Voted, Expired, Missed, Revoked}),
      Count(list, t => FeePaidUp(t) && t.outcome == Voted),
      Count(list, t => FeePaidUp(t) && t.outcome in {Expired, Revoked}),
      Count(list, t => FeePaidUp(t) && t.outcome == Missed),
      WrapInt64(Fees(list, t => FeePaidUp(t))),
      WrapInt64(Fees(list, t => FeePaidUp(t) && Recent(t, blockHeight, BLOCKS_IN_28_DAYS))),
      WrapInt64(Fees(list, t => FeePaidUp(t) && Recent(t, blockHeight, BLOCKS_IN_24_HOURS))))
  }

  /** One ticket more, as the loop accounts for it. */
  function AddTicket(s: TicketStats, t: Ticket, blockHeight: int): TicketStats {
    if t.feeTxStatus != FeeConfirmed then s
    else
      var s' := s.(
        revenueLifetime := WrapInt64(s.revenueLifetime + t.feeAmount),
        revenue28Days := if Recent(t, blockHeight, BLOCKS_IN_28_DAYS) then WrapInt64(s.revenue28Days + t.feeAmount) else s.revenue28Days,
        revenue24Hours := if Recent(t, blockHeight, BLOCKS_IN_24_HOURS) then WrapInt64(s.revenue24Hours + t.feeAmount) else s.revenue24Hours);
      match t.outcome
      case Voted => s'.(voted := s'.voted + 1)
      case Expired => s'.(expired := s'.expired + 1)
      case Missed => s'.(missed := s'.missed + 1)
      case Revoked => s'.(expired := s'.expired + 1)
      case _ => s'.(voting := s'.voting + 1)
  }

  lemma SumsAppend(list: seq<Ticket>, t: Ticket)
    ensures forall p: Ticket -> bool :: Count(list + [t], p) == Count(list, p) + if p(t) then 1 else 0
    ensures forall p: Ticket -> bool ::
              WrapInt64(Fees(list + [t], p)) == if p(t) then WrapInt64(WrapInt64(Fees(list, p)) + t.feeAmount) else WrapInt64(Fees(list, p))
  {
    assert (list + [t])[..|list|] == list;
  }

  lemma StatsAppend(list: seq<Ticket>, t: Ticket, blockHeight: int)
    ensures StatsOf(list + [t], blockHeight) == AddTicket(StatsOf(list, blockHeight), t, blockHeight)
  {
    SumsAppend(list, t);
    hide Recent, WrapInt64, Count, Fees;
  }

  /** One pass over the raw values. */
  method ComputeStats(buckets: seq<Values>, blockHeight: Int64) returns (stats: TicketStats)
    requires AllReadable(buckets) && blockHeight >= 0
    ensures stats == StatsOf(PlainAll(buckets), blockHeight)
  {
    var height28DaysAgo := Max(blockHeight - BLOCKS_IN_28_DAYS, 1);
    var height24HoursAgo := Max(blockHeight - BLOCKS_IN_24_HOURS, 1);
    stats := TicketStats(0, 0, 0, 0, 0, 0, 0);
    for k := 0 to |buckets|
      invariant stats == StatsOf(PlainAll(buckets[..k]), blockHeight)
    {
      var v := buckets[k];
      assert v in buckets;
      assert PlainAll(buckets[..k+1]) == PlainAll(buckets[..k]) + [Plain(v)];
      StatsAppend(PlainAll(buckets[..k]), Plain(v), blockHeight);
      stats := AddBucket(stats, v, height28DaysAgo, height24HoursAgo, blockHeight);
    }
    assert buckets[..|buckets|] == buckets;
  }

  /** The statistics are those of the decoded tickets. */
  lemma {:induction false} StatsOfDecoded(json: Json, buckets: seq<Values>, blockHeight: int)
    requires AllReadable(buckets) && DecodeAll(json, buckets).Some?
    ensures StatsOf(PlainAll(buckets), blockHeight) == StatsOf(DecodeAll(json, buckets).value, blockHeight)
  {
    hide StatsOf, Plain, Decode, AddTicket;
    if buckets != [] {
      var n := |buckets| - 1;
      var last := buckets[n];
      assert last in buckets;
      StatsOfDecoded(json, buckets[..n], blockHeight);
      var plain, decoded := PlainAll(buckets[..n]), DecodeAll(json, buckets[..n]).value;
      assert PlainAll(buckets) == plain + [Plain(last)];
      assert DecodeAll(json, buckets).value == decoded + [Decode(json, last).value];
      StatsAppend(plain, Plain(last), blockHeight);
      StatsAppend(decoded, Decode(json, last).value, blockHeight);
      SameAccount(json, StatsOf(plain, blockHeight), last, blockHeight);
      hide *;
    }
  }

  lemma SameAccount(json: Json, s: TicketStats, v: Values, blockHeight: int)
    requires Readable(v) && Decode(json, v).Some?
    ensures AddTicket(s, Plain(v), blockHeight) == AddTicket(s, Decode(json, v).value, blockHeight)
  {
    hide Plain;
  }

  /** The body of the loop, on raw values. */
  method AddBucket(before: TicketStats, v: Values, height28DaysAgo: int, height24HoursAgo: int, ghost blockHeight: Int64)
    returns (stats: TicketStats)
    requires Readable(v) && height28DaysAgo == Max(blockHeight - BLOCKS_IN_28_DAYS, 1)
    requires height24HoursAgo == Max(blockHeight - BLOCKS_IN_24_HOURS, 1)
    ensures stats == AddTicket(before, Plain(v), blockHeight)
  {
    StatusTextsCompare(Text(v, FeeTxStatusK));
    StatusTextsCompare(Text(v, OutcomeK));
    hide ParseFeeStatus, ParseOutcome, BytesToInt64, BytesToUInt32;
    stats := before;
    if Text(v, FeeTxStatusK) == "confirmed" {
      var feeAmount := BytesToInt64(Text(v, FeeAmountK));
      var purchaseHeight := BytesToInt64(Text(v, PurchaseHeightK));
      stats := stats.(revenueLifetime := WrapInt64(stats.revenueLifetime + feeAmount));
      if purchaseHeight >= height28DaysAgo || purchaseHeight == 0 {
        stats := stats.(revenue28Days := WrapInt64(stats.revenue28Days + feeAmount));
      }
      if purchaseHeight >= height24HoursAgo || purchaseHeight == 0 {
        stats := stats.(revenue24Hours := WrapInt64(stats.revenue24Hours + feeAmount));
      }
      var outcome := Text(v, OutcomeK);
      if outcome == "voted" {
        stats := stats.(voted := stats.voted + 1);
      } else if outcome == "expired" || outcome == "revoked" {
        stats := stats.(expired := stats.expired + 1);
      } else if outcome == "missed" {
        stats := stats.(missed := stats.missed + 1);
      } else {
        stats := stats.(voting := stats.voting + 1);
      }
    }
  }

  /** What one more ticket adds to the revenues: its fee, if confirmed, to the lifetime; to
      28 days, 8064 blocks, and to 24 hours, 288 blocks, if it was purchased within them
      or has no height yet. */
  lemma RevenueSays(list: seq<Ticket>, t: Ticket, blockHeight: int)
    ensures var s, s', paid := StatsOf(list, blockHeight), StatsOf(list + [t], blockHeight), t.feeTxStatus == FeeConfirmed;
      && s'.revenueLifetime == WrapInt64(s.revenueLifetime + if paid then t.feeAmount else 0)
      && s'.revenue28Days == WrapInt64(s.revenue28Days +
           if paid && (t.purchaseHeight == 0 || (t.purchaseHeight >= 1 && t.purchaseHeight >= blockHeight - 8064)) then t.feeAmount else 0)
      && s'.revenue24Hours == WrapInt64(s.revenue24Hours +
           if paid && (t.purchaseHeight == 0 || (t.purchaseHeight >= 1 && t.purchaseHeight >= blockHeight - 288)) then t.feeAmount else 0)
    ensures StatsOf([], blockHeight) == TicketStats(0, 0, 0, 0, 0, 0, 0)
  {
    StatsAppend(list, t, blockHeight);
    hide StatsOf;
    EmptyStats(blockHeight);
  }

  lemma EmptyStats(blockHeight: int)
    ensures StatsOf([], blockHeight) == TicketStats(0, 0, 0, 0, 0, 0, 0)
  {
  }

  lemma {:induction false} SelectCounts(q: Query, list: seq<Ticket>)
    ensures |Select(q, list)| == Count(list, t => Matches(q, t))
  {
    if list != [] {
      SelectCounts(q, list[..|list| - 1]);
    }
  }

  /** Predicates that agree on the list count the same. */
  lemma {:induction false} CountAgrees(list: seq<Ticket>, p: Ticket -> bool, q: Ticket -> bool)
    requires forall t | t in list :: p(t) == q(t)
    ensures Count(list, p) == Count(list, q)
  {
    if list != [] {
      CountAgrees(list[..|list| - 1], p, q);
    }
  }

  lemma {:induction false} CountsAddUp(list: seq<Ticket>, blockHeight: int)
    ensures var s := StatsOf(list, blockHeight);
      s.voting + s.voted + s.expired + s.missed == Count(list, t => FeePaidUp(t))
  {
    if list != [] {
      var n := |list| - 1;
      CountsAddUp(list[..n], blockHeight);
      assert list == list[..n] + [list[n]];
    }
  }

  /** In every store whose records are in order the statistics agree with the queries, and
      the four counts cover the tickets with a confirmed fee. */
  lemma StatsAgreeWithQueries(list: seq<Ticket>, blockHeight: int)
    requires forall t | t in list :: StatusOK(t)
    ensures var s := StatsOf(list, blockHeight);
      && s.voting == |Select(VotableTickets, list)|
      && s.voted == |Select(VotedTickets, list)|
      && s.missed == |Select(MissedTickets, list)|
      && s.voting + s.voted + s.expired + s.missed == Count(list, t => FeePaidUp(t))
  {
    CountsAddUp(list, blockHeight);
    SelectCounts(VotableTickets, list);
    SelectCounts(VotedTickets, list);
    SelectCounts(MissedTickets, list);
    CountAgrees(list, t => FeePaidUp(t) && t.outcome !in {Voted, Expired, Missed, Revoked}, t => Matches(VotableTickets, t));
    CountAgrees(list, t => FeePaidUp(t) && t.outcome == Voted, t => Matches(VotedTickets, t));
    CountAgrees(list, t => FeePaidUp(t) && t.outcome == Missed, t => Matches(MissedTickets, t));
  }

  /** Over non-negative fees a narrower choice of tickets sums to less. */
  lemma {:induction false} FeesGrow(list: seq<Ticket>, p: Ticket -> bool, q: Ticket -> bool)
    requires forall t | t in list :: t.feeAmount >= 0 && (p(t) ==> q(t))
    ensures 0 <= Fees(list, p) <= Fees(list, q)
  {
    if list != [] {
      FeesGrow(list[..|list| - 1], p, q);
    }
  }

  /** What the transaction named by a record pays to its fee address. */
  ghost function PaidBy(cfg: Config, t: Ticket): int
    requires NamesSufficientFee(cfg, t)
  {
    var tx :| cfg.txHash(tx) == t.feeTxHash && Pays(cfg, tx, t);
    var i :| FirstPayment(tx.outputs, cfg.paymentScript(t.feeAddress).value, i)
      && tx.outputs[i].value != 0 && t.feeAmount <= tx.outputs[i].value;
    tx.outputs[i].value
  }

  ghost function TotalPaid(cfg: Config, list: seq<Ticket>): int
    requires forall t | t in list :: RecordOK(cfg, t)
  {
    if list == [] then 0
    else
      var n := |list| - 1;
      assert RecordOK(cfg, list[n]) by { assert list[n] in list; }
      TotalPaid(cfg, list[..n]) + if FeePaidUp(list[n]) then PaidBy(cfg, list[n]) else 0
  }

  lemma {:induction false} FeesWerePaid(cfg: Config, list: seq<Ticket>)
    requires forall t | t in list :: RecordOK(cfg, t)
    ensures Fees(list, t => FeePaidUp(t)) <= TotalPaid(cfg, list)
  {
    if list != [] {
      FeesWerePaid(cfg, list[..|list| - 1]);
    }
  }

  /** As long as the fees of the store fit in an int64, the revenues are the true sums,
      the narrower window never exceeds the wider one, and all of it was paid on the chain. */
  lemma RevenuesAreOrdered(cfg: Config, list: seq<Ticket>, blockHeight: int)
    requires forall t | t in list :: RecordOK(cfg, t) && t.feeAmount >= 0
    requires Fees(list, t => FeePaidUp(t)) < 0x8000_0000_0000_0000
    ensures var s := StatsOf(list, blockHeight);
      && 0 <= s.revenue24Hours <= s.revenue28Days <= s.revenueLifetime
      && s.revenueLifetime == Fees(list, t => FeePaidUp(t)) <= TotalPaid(cfg, list)
  {
    hide RecordOK, Fees, Count, TotalPaid;
    FeesGrow(list, t => FeePaidUp(t) && Recent(t, blockHeight, BLOCKS_IN_24_HOURS),
             t => FeePaidUp(t) && Recent(t, blockHeight, BLOCKS_IN_28_DAYS));
    FeesGrow(list, t => FeePaidUp(t) && Recent(t, blockHeight, BLOCKS_IN_28_DAYS), t => FeePaidUp(t));
    FeesWerePaid(cfg, list);
  }
}
