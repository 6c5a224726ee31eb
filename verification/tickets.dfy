/** The ticket record shared by the background updater, the web handlers and the
    store, and the constants it is made of. */
module Tickets {

  datatype Option<+T> = None | Some(value: T)

  datatype Result<+T, +E> = Ok(value: T) | Err(error: E)

  type Int64 = x: int | -0x8000_0000_0000_0000 <= x < 0x8000_0000_0000_0000

  type UInt32 = x: int | 0 <= x < 0x1_0000_0000

  /** Addition on a uint32, wrapping as the source language does. */
  function AddU32(a: UInt32, b: UInt32): UInt32 {
    if a + b < 0x1_0000_0000 then a + b else a + b - 0x1_0000_0000
  }

  /** The uint32 values from lo to hi - 1. */
  ghost function Range(lo: nat, hi: nat): (s: set<UInt32>)
    requires lo <= hi <= 0x1_0000_0000
    ensures |s| == hi - lo && forall id: UInt32 :: id in s <==> lo <= id < hi
    decreases hi
  {
    if lo == hi then {} else Range(lo, hi - 1) + {(hi - 1) as UInt32}
  }

  /** The int64 that holds an integer after wrap-around. */
  function WrapInt64(x: int): Int64 {
    (x + 0x8000_0000_0000_0000) % 0x1_0000_0000_0000_0000 - 0x8000_0000_0000_0000
  }

  /** A string-to-string map that may be nil. Reading a nil map is reading an
      empty one; assigning into a nil map panics. */
  datatype StringMap = NilMap | StringMap(entries: map<string, string>) {
    function Entries(): map<string, string> {
      match this
      case NilMap => map[]
      case StringMap(m) => m
    }

    /** A map read back from the store is never nil. */
    function Normalized(): StringMap {
      StringMap(Entries())
    }
  }

  /** UnknownFee stands for any stored text that is none of the constants. */
  datatype FeeStatus = NoFee | FeeReceived | FeeBroadcast | FeeConfirmed | FeeError | UnknownFee(raw: string)

  /** Votable is the empty outcome. Revoked is deprecated but may still be stored. */
  datatype Outcome = Votable | Expired | Missed | Voted | Revoked | UnknownOutcome(raw: string)

  datatype Ticket = Ticket(
    hash: string,
    purchaseHeight: Int64,
    commitmentAddress: string,
    feeAddressXPubID: UInt32,
    feeAddressIndex: UInt32,
    feeAddress: string,
    feeAmount: Int64,
    feeExpiration: Int64,
    confirmed: bool,
    votingWIF: string,
    voteChoices: StringMap,
    tSpendPolicy: StringMap,
    treasuryPolicy: StringMap,
    feeTxHex: string,
    feeTxHash: string,
    feeTxStatus: FeeStatus,
    outcome: Outcome)
  {
    /** What reading the ticket back from the store gives. */
    function Normalized(): Ticket {
      this.(voteChoices := voteChoices.Normalized(),
            tSpendPolicy := tSpendPolicy.Normalized(),
            treasuryPolicy := treasuryPolicy.Normalized())
    }

    predicate IsVotable() {
      feeTxStatus == FeeConfirmed && outcome == Votable
    }

    /** The fee transaction is already known, so no other is accepted. */
    predicate FeeTxKnown() {
      feeTxStatus == FeeReceived || feeTxStatus == FeeBroadcast || feeTxStatus == FeeConfirmed
    }

    predicate MapsAllocated() {
      voteChoices.StringMap? && tSpendPolicy.StringMap? && treasuryPolicy.StringMap?
    }
  }

  /** Reading back changes a nil map to an empty one and nothing else. */
  lemma NormalizedSays(t: Ticket)
    ensures var u := t.Normalized();
      && u.MapsAllocated() && u.voteChoices.Entries() == t.voteChoices.Entries()
      && u.tSpendPolicy.Entries() == t.tSpendPolicy.Entries() && u.treasuryPolicy.Entries() == t.treasuryPolicy.Entries()
      && u.(voteChoices := t.voteChoices, tSpendPolicy := t.tSpendPolicy, treasuryPolicy := t.treasuryPolicy) == t
      && (t.MapsAllocated() ==> u == t)
    ensures NilMap.Entries() == map[] && forall m :: StringMap(m).Entries() == m
  {
  }

  /** The lowest non-zero purchase height in the list, or zero if there is none. */
  method EarliestPurchaseHeight(list: seq<Ticket>) returns (oldest: Int64)
    ensures oldest == 0 <==> forall t | t in list :: t.purchaseHeight == 0
    ensures forall t | t in list && t.purchaseHeight != 0 :: oldest <= t.purchaseHeight
    ensures oldest != 0 ==> exists t :: t in list && t.purchaseHeight == oldest
  {
    oldest := 0;
    for i := 0 to |list|
      invariant oldest == 0 <==> forall t | t in list[..i] :: t.purchaseHeight == 0
      invariant forall t | t in list[..i] && t.purchaseHeight != 0 :: oldest <= t.purchaseHeight
      invariant oldest != 0 ==> exists t :: t in list[..i] && t.purchaseHeight == oldest
    {
      var ticket := list[i];
      assert list[..i+1] == list[..i] + [ticket];
      // Skip unconfirmed tickets.
      if ticket.purchaseHeight == 0 {
        continue;
      }
      if oldest == 0 || oldest > ticket.purchaseHeight {
        oldest := ticket.purchaseHeight;
      }
      assert ticket in list[..i+1];
    }
    assert list[..|list|] == list;
  }
}
