/** Validation of voting preferences and of a ticket's ability to vote. */
module Helpers {
  import opened Tickets

  /** An agenda of the current vote version, with the choices it offers. */
  datatype Agenda = Agenda(id: string, choices: seq<string>)

  /** The first agenda with the given ID, the only one whose choices are looked at. */
  ghost function FindAgenda(deployments: seq<Agenda>, id: string): (r: Option<Agenda>)
    ensures r.Some? ==> r.value in deployments && r.value.id == id
    ensures r.None? ==> forall a | a in deployments :: a.id != id
  {
    if deployments == [] then None
    else if deployments[0].id == id then Some(deployments[0])
    else FindAgenda(deployments[1..], id)
  }

  ghost predicate ChoiceValid(deployments: seq<Agenda>, agenda: string, choice: string) {
    FindAgenda(deployments, agenda).Some? && choice in FindAgenda(deployments, agenda).value.choices
  }

  ghost predicate ChoicesValid(deployments: seq<Agenda>, choices: map<string, string>) {
    forall agenda | agenda in choices :: ChoiceValid(deployments, agenda, choices[agenda])
  }

  method ValidConsensusVoteChoices(deployments: seq<Agenda>, voteChoices: StringMap) returns (valid: bool)
    ensures valid <==> ChoicesValid(deployments, voteChoices.Entries())
    ensures valid <==> forall agenda | agenda in voteChoices.Entries() ::
              exists i :: 0 <= i < |deployments| && deployments[i].id == agenda
                          && voteChoices.Entries()[agenda] in deployments[i].choices
                          && forall k | 0 <= k < i :: deployments[k].id != agenda
  {
    ChoicesSay(deployments, voteChoices.Entries());
    var choices := voteChoices.Entries();
    var todo := choices.Keys;
    while todo != {}
      invariant todo <= choices.Keys
      invariant forall a | a in choices && a !in todo :: ChoiceValid(deployments, a, choices[a])
      decreases todo
    {
      var agenda :| agenda in todo;
      todo := todo - {agenda};
      var found := false;
      for i := 0 to |deployments|
        invariant !found && FindAgenda(deployments, agenda) == FindAgenda(deployments[i..], agenda)
      {
        if deployments[i].id == agenda {
          if choices[agenda] !in deployments[i].choices {
            return false;
          }
          found := true;
          break;
        }
      }
      if !found {
        return false;
      }
    }
    return true;
  }

  /** Every choice is offered by the first agenda in the list with its ID. */
  lemma {:induction false} FindAgendaSays(deployments: seq<Agenda>, id: string, i: int)
    requires 0 <= i < |deployments| && deployments[i].id == id && forall k | 0 <= k < i :: deployments[k].id != id
    ensures FindAgenda(deployments, id) == Some(deployments[i])
  {
    if i > 0 {
      FindAgendaSays(deployments[1..], id, i - 1);
    }
  }

  lemma ChoicesSay(deployments: seq<Agenda>, choices: map<string, string>)
    ensures ChoicesValid(deployments, choices) <==>
            forall agenda | agenda in choices ::
              exists i :: 0 <= i < |deployments| && deployments[i].id == agenda && choices[agenda] in deployments[i].choices
                          && forall k | 0 <= k < i :: deployments[k].id != agenda
  {
    forall agenda | agenda in choices
      ensures ChoiceValid(deployments, agenda, choices[agenda]) <==>
              exists i :: 0 <= i < |deployments| && deployments[i].id == agenda && choices[agenda] in deployments[i].choices
                          && forall k | 0 <= k < i :: deployments[k].id != agenda
    {
      if exists i :: 0 <= i < |deployments| && deployments[i].id == agenda {
        var i := FirstWithID(deployments, agenda);
        FindAgendaSays(deployments, agenda, i);
      }
    }
  }

  lemma {:induction false} FirstWithID(deployments: seq<Agenda>, id: string) returns (i: int)
    requires exists k :: 0 <= k < |deployments| && deployments[k].id == id
    ensures 0 <= i < |deployments| && deployments[i].id == id && forall k | 0 <= k < i :: deployments[k].id != id
  {
    if deployments[0].id == id {
      i := 0;
    } else {
      var k :| 0 <= k < |deployments| && deployments[k].id == id;
      assert deployments[1..][k-1].id == id;
      var rest := FirstWithID(deployments[1..], id);
      i := rest + 1;
    }
  }

  predicate ValidPolicyOption(policy: string) {
    policy in {"yes", "no", "abstain", "invalid", ""}
  }

  /** Hex decoding and hash parsing; None is an error. */
  datatype Decoders = Decoders(hexLength: string -> Option<nat>, hashOk: string -> bool)

  const PUB_KEY_BYTES_LEN_COMPRESSED := 33
  const MAX_HASH_STRING_SIZE := 64

  ghost predicate TreasuryPolicyValid(d: Decoders, policy: map<string, string>) {
    forall key | key in policy :: d.hexLength(key) == Some(PUB_KEY_BYTES_LEN_COMPRESSED) && ValidPolicyOption(policy[key])
  }

  ghost predicate TSpendPolicyValid(d: Decoders, policy: map<string, string>) {
    forall hash | hash in policy :: |hash| == MAX_HASH_STRING_SIZE && d.hashOk(hash) && ValidPolicyOption(policy[hash])
  }

  method ValidTreasuryPolicy(d: Decoders, policy: StringMap) returns (valid: bool)
    ensures valid <==> TreasuryPolicyValid(d, policy.Entries())
    ensures valid <==> forall key | key in policy.Entries() ::
              d.hexLength(key) == Some(33) && policy.Entries()[key] in {"yes", "no", "abstain", "invalid", ""}
  {
    var entries := policy.Entries();
    var todo := entries.Keys;
    while todo != {}
      invariant todo <= entries.Keys
      invariant TreasuryPolicyValid(d, entries - todo)
      decreases todo
    {
      var key :| key in todo;
      todo := todo - {key};
      var pikey := d.hexLength(key);
      if pikey.None? || pikey.value != PUB_KEY_BYTES_LEN_COMPRESSED || !ValidPolicyOption(entries[key]) {
        return false;
      }
    }
    assert entries - todo == entries;
    return true;
  }

  method ValidTSpendPolicy(d: Decoders, policy: StringMap) returns (valid: bool)
    ensures valid <==> TSpendPolicyValid(d, policy.Entries())
    ensures valid <==> forall hash | hash in policy.Entries() ::
              |hash| == 64 && d.hashOk(hash) && policy.Entries()[hash] in {"yes", "no", "abstain", "invalid", ""}
  {
    var entries := policy.Entries();
    var todo := entries.Keys;
    while todo != {}
      invariant todo <= entries.Keys
      invariant TSpendPolicyValid(d, entries - todo)
      decreases todo
    {
      var hash :| hash in todo;
      todo := todo - {hash};
      if |hash| != MAX_HASH_STRING_SIZE || !d.hashOk(hash) || !ValidPolicyOption(entries[hash]) {
        return false;
      }
    }
    assert entries - todo == entries;
    return true;
  }

  /** Whether a ticket is in the mempool, immature or live. live is the node's answer, None an error. */
  function CanTicketVote(confirmations: Int64, ticketMaturity: UInt32, ticketExpiry: UInt32, live: Option<bool>): (r: Option<bool>)
    ensures r == Some(true) <==> confirmations <= AddU32(ticketMaturity, ticketExpiry) + 1
                                 && (confirmations <= ticketMaturity || live == Some(true))
    ensures r == None <==> ticketMaturity < confirmations <= AddU32(ticketMaturity, ticketExpiry) + 1 && live == None
  {
    if confirmations > AddU32(ticketMaturity, ticketExpiry) + 1 then Some(false)
    else if confirmations <= ticketMaturity then Some(true)
    else live
  }

  /** A ticket's answer moves one way as it ages, as long as maturity plus expiry fits in a
      uint32: once too old it stays too old, and while immature it was always able to vote. */
  lemma TooOldStaysTooOld(older: Int64, younger: Int64, ticketMaturity: UInt32, ticketExpiry: UInt32, live: Option<bool>, liveThen: Option<bool>)
    requires ticketMaturity + ticketExpiry < 0x1_0000_0000 && younger <= older
    ensures younger > ticketMaturity + ticketExpiry + 1 ==> CanTicketVote(older, ticketMaturity, ticketExpiry, live) == Some(false)
    ensures older <= ticketMaturity ==> CanTicketVote(younger, ticketMaturity, ticketExpiry, liveThen) == Some(true)
  {
  }
}
