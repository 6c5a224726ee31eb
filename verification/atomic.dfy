/** The store when reading a record and writing it back is one step. Here the lifecycle
    only moves forward. Interleaved says which of its own runs are as good as these. */
module Atomic {
  import opened Tickets
  import opened Helpers
  import opened TicketStore
  import opened Lifecycle

  /** Serve is one actor from its read to its last write. */
  datatype Step =
    | Insert(ticket: Ticket)
    | Serve(hash: string, role: Role, actions: seq<Action>)
    | Delete(hash: string)

  ghost function ApplyAll(cfg: Config, actions: seq<Action>, t: Ticket): Ticket {
    if actions == [] then t else ApplyAll(cfg, actions[1..], Apply(cfg, actions[0], t))
  }

  /** Each action is enabled in its turn, in the role the one before leads to. */
  ghost predicate Chain(cfg: Config, role: Role, actions: seq<Action>, t: Ticket)
    decreases |actions|
  {
    actions == [] ||
    var a := actions[0];
    var t' := Apply(cfg, a, t);
    && Enabled(cfg, role, a, t)
    && (|actions| == 1 ||
        (NextRole(role, a, t', true).Some? && Chain(cfg, NextRole(role, a, t', true).value, actions[1..], t')))
  }

  lemma ChainOfOne(cfg: Config, role: Role, a: Action, t: Ticket)
    requires Enabled(cfg, role, a, t)
    ensures Chain(cfg, role, [a], t) && ApplyAll(cfg, [a], t) == Apply(cfg, a, t)
  {
    assert [a][1..] == [];
  }

  lemma ChainOfTwo(cfg: Config, role: Role, a: Action, b: Action, t: Ticket)
    requires Enabled(cfg, role, a, t) && NextRole(role, a, Apply(cfg, a, t), true).Some?
    requires Enabled(cfg, NextRole(role, a, Apply(cfg, a, t), true).value, b, Apply(cfg, a, t))
    ensures Chain(cfg, role, [a, b], t) && ApplyAll(cfg, [a, b], t) == Apply(cfg, b, Apply(cfg, a, t))
  {
    assert [a, b][1..] == [b];
    ChainOfOne(cfg, NextRole(role, a, Apply(cfg, a, t), true).value, b, Apply(cfg, a, t));
  }

  ghost predicate Next(cfg: Config, m: Store, step: Step, m': Store) {
    match step
    case Insert(t) =>
      NewTicket(t) && t.hash !in m && m' == m[t.hash := t.Normalized()]
    case Serve(h, role, actions) =>
      && h in m && Reads(role, m[h]) && Chain(cfg, role, actions, m[h])
      && m' == m[h := ApplyAll(cfg, actions, m[h]).Normalized()]
    case Delete(h) =>
      h in m && Reads(UnconfirmedTicket, m[h]) && m' == m - {h}
  }

  // ---------- Moving forward ----------

  /** One write moves the fee status along one of these edges or leaves it. */
  predicate StatusEdge(was: FeeStatus, now: FeeStatus) {
    || was == now
    || (was == NoFee && now == FeeReceived)
    || (was == FeeReceived && now in {FeeBroadcast, FeeError})
    || (was == FeeBroadcast && now in {FeeConfirmed, FeeError})
    || (was == FeeError && now == FeeReceived)
  }

  lemma ActionFollowsEdges(cfg: Config, role: Role, a: Action, t: Ticket)
    requires RecordOK(cfg, t) && Holds(role, t) && Enabled(cfg, role, a, t)
    ensures StatusEdge(t.feeTxStatus, Apply(cfg, a, t).feeTxStatus)
  {
  }

  /** now is a later form of the same ticket. */
  predicate Forward(was: Ticket, now: Ticket) {
    && now.hash == was.hash && now.feeAddress == was.feeAddress && now.commitmentAddress == was.commitmentAddress
    && now.feeAddressXPubID == was.feeAddressXPubID && now.feeAddressIndex == was.feeAddressIndex
    && (was.confirmed ==> now.confirmed && now.purchaseHeight == was.purchaseHeight)
    && (was.feeTxStatus != NoFee ==> now.feeTxStatus != NoFee)
    && (was.feeTxStatus == FeeConfirmed ==>
          && now.feeTxStatus == FeeConfirmed && now.feeTxHash == was.feeTxHash && now.votingWIF == was.votingWIF
          && now.feeAmount == was.feeAmount && now.feeExpiration == was.feeExpiration)
    && (was.outcome in {Voted, Missed, Expired} ==> now.outcome == was.outcome)
    && (was.outcome == Revoked ==> now.outcome in {Revoked, Missed, Expired})
  }

  lemma ForwardOrder(a: Ticket, b: Ticket, c: Ticket)
    ensures Forward(a, a)
    ensures Forward(a, b) && Forward(b, c) ==> Forward(a, c)
  {
  }

  lemma ForwardIgnoresPreferences(a: Ticket, b: Ticket)
    ensures Forward(a.Normalized(), b) <==> Forward(a, b)
  {
  }

  lemma AllForward(m: Store)
    ensures forall k | k in m :: Forward(m[k], m[k])
  {
  }

  lemma PutMovesForward(m: Store, t: Ticket)
    requires t.hash in m && Forward(m[t.hash], t)
    ensures forall k | k in m :: Forward(m[k], m[t.hash := t.Normalized()][k])
  {
  }

  lemma ForwardConfirmed(a: Ticket, b: Ticket)
    requires Forward(a, b) && a.confirmed
    ensures b.confirmed
  {
  }

  lemma ActionMovesForward(cfg: Config, role: Role, a: Action, t: Ticket)
    requires RecordOK(cfg, t) && Holds(role, t) && Enabled(cfg, role, a, t)
    ensures Forward(t, Apply(cfg, a, t))
  {
    hide RecordOK;
    assert StatusOK(t) by { RecordStatus(cfg, t); }
  }

  lemma RecordStatus(cfg: Config, t: Ticket)
    requires RecordOK(cfg, t)
    ensures StatusOK(t)
  {
  }

  /** A whole chain keeps the record invariant and moves forward. */
  lemma {:induction false} ChainMovesForward(cfg: Config, role: Role, actions: seq<Action>, t: Ticket)
    requires cfg.Sound() && RecordOK(cfg, t) && Holds(role, t) && Chain(cfg, role, actions, t)
    ensures RecordOK(cfg, ApplyAll(cfg, actions, t)) && Forward(t, ApplyAll(cfg, actions, t))
    decreases |actions|
  {
    if actions != [] {
      var a := actions[0];
      var t' := Apply(cfg, a, t);
      ActionKeepsRecordOK(cfg, role, a, t);
      ActionMovesForward(cfg, role, a, t);
      if |actions| == 1 {
        assert ApplyAll(cfg, actions, t) == t';
      } else {
        NextRoleHolds(cfg, role, a, t, true);
        ChainMovesForward(cfg, NextRole(role, a, t', true).value, actions[1..], t');
      }
    }
  }

  /** A step keeps every confirmed ticket stored and moves it forward. */
  lemma StepMovesForward(cfg: Config, m: Store, step: Step, m': Store)
    requires cfg.Sound() && StoreOK(cfg, m) && Next(cfg, m, step, m')
    ensures StoreOK(cfg, m')
    ensures forall h | h in m && m[h].confirmed :: h in m' && Forward(m[h], m'[h])
  {
    AllForward(m);
    hide Forward;
    match step
    case Insert(t) =>
      NewTicketOK(cfg, t);
      StoredOK(cfg, m, t);
    case Serve(h, role, actions) =>
      var t' := ApplyAll(cfg, actions, m[h]);
      ChainMovesForward(cfg, role, actions, m[h]);
      StoredOK(cfg, m, t');
      PutMovesForward(m, t');
      hide RecordOK, StoreOK, Chain, ApplyAll, Reads;
    case Delete(h) =>
  }

  ghost predicate Run(cfg: Config, stores: seq<Store>, steps: seq<Step>) {
    && |stores| == |steps| + 1 && stores[0] == map[]
    && forall i | 0 <= i < |steps| :: Next(cfg, stores[i], steps[i], stores[i+1])
  }

  lemma {:induction false} RunInv(cfg: Config, stores: seq<Store>, steps: seq<Step>, n: nat)
    requires cfg.Sound() && Run(cfg, stores, steps) && n <= |steps|
    ensures StoreOK(cfg, stores[n])
  {
    if n > 0 {
      RunInv(cfg, stores, steps, n - 1);
      StepMovesForward(cfg, stores[n-1], steps[n-1], stores[n]);
    }
  }

  /** Over a whole run a confirmed ticket only moves forward: a confirmed fee stays
      confirmed with the same transaction, an outcome is written once. */
  lemma {:induction false} LifecycleMovesForward(cfg: Config, stores: seq<Store>, steps: seq<Step>, i: nat, j: nat, h: string)
    requires cfg.Sound() && Run(cfg, stores, steps) && i <= j <= |steps|
    requires h in stores[i] && stores[i][h].confirmed
    ensures h in stores[j] && Forward(stores[i][h], stores[j][h])
    decreases j - i
  {
    hide StoreOK, Next, Forward;
    if i == j {
      ForwardOrder(stores[i][h], stores[i][h], stores[i][h]);
    } else {
      RunInv(cfg, stores, steps, i);
      StepMovesForward(cfg, stores[i], steps[i], stores[i+1]);
      assert stores[i+1][h].confirmed by { ForwardConfirmed(stores[i][h], stores[i+1][h]); }
      LifecycleMovesForward(cfg, stores, steps, i + 1, j, h);
      ForwardOrder(stores[i][h], stores[i+1][h], stores[j][h]);
    }
  }

  /** A ticket whose fee was ever broadcast, confirmed or found faulty is never deleted. */
  lemma BroadcastNeverDeleted(cfg: Config, stores: seq<Store>, steps: seq<Step>, i: nat, j: nat, h: string)
    requires cfg.Sound() && Run(cfg, stores, steps) && i <= j <= |steps|
    requires h in stores[i] && stores[i][h].feeTxStatus in {FeeBroadcast, FeeConfirmed, FeeError}
    ensures h in stores[j] && stores[j][h].feeTxStatus != NoFee
    ensures stores[i][h].feeTxStatus == FeeConfirmed ==> stores[j][h].feeTxStatus == FeeConfirmed
    ensures stores[i][h].outcome in {Voted, Missed, Expired} ==> stores[j][h].outcome == stores[i][h].outcome
  {
    RunInv(cfg, stores, steps, i);
    LifecycleMovesForward(cfg, stores, steps, i, j, h);
  }

  // ---------- Stored preferences ----------

  /** The three maps of preferences. */
  datatype Kind = Consensus | TSpend | Treasury

  function MapOf(kind: Kind, consensus: StringMap, tspend: StringMap, treasury: StringMap): StringMap {
    match kind
    case Consensus => consensus
    case TSpend => tspend
    case Treasury => treasury
  }

  function Stored(kind: Kind, t: Ticket): StringMap {
    MapOf(kind, t.voteChoices, t.tSpendPolicy, t.treasuryPolicy)
  }

  ghost predicate Valid(cfg: Config, kind: Kind, m: StringMap) {
    match kind
    case Consensus => ChoicesValid(cfg.deployments, m.Entries())
    case TSpend => TSpendPolicyValid(cfg.decoders, m.Entries())
    case Treasury => TreasuryPolicyValid(cfg.decoders, m.Entries())
  }

  /** What the store should say under a key, found by looking back from the last action
      for the one that settles it: a payment whose map is valid settles every key, a
      change those it names, and the removal of an agenda that agenda. */
  ghost function LastSay(cfg: Config, kind: Kind, actions: seq<Action>, key: string): Option<string> {
    if actions == [] then None
    else
      var before, a := actions[..|actions| - 1], actions[|actions| - 1];
      match a
      case ReceiveFee(_, payment) =>
        var m := MapOf(kind, payment.voteChoices, payment.tSpendPolicy, payment.treasuryPolicy);
        if Valid(cfg, kind, m) then Said(m, key) else LastSay(cfg, kind, before, key)
      case ChangeChoices(choices, tspend, treasury) =>
        var m := MapOf(kind, choices, tspend, treasury);
        if key in m.Entries() then Said(m, key) else LastSay(cfg, kind, before, key)
      case DropAgenda(agenda) =>
        if kind == Consensus && agenda == key then None else LastSay(cfg, kind, before, key)
      case _ => LastSay(cfg, kind, before, key)
  }

  function Said(choices: StringMap, key: string): Option<string> {
    if key in choices.Entries() then Some(choices.Entries()[key]) else None
  }

  ghost predicate Agrees(cfg: Config, kind: Kind, m: StringMap, actions: seq<Action>) {
    forall key: string :: Said(m, key) == LastSay(cfg, kind, actions, key)
  }

  /** The actions on the ticket stored under the hash, since it was inserted. */
  ghost function History(steps: seq<Step>, h: string): seq<Action> {
    if steps == [] then []
    else
      var before := History(steps[..|steps| - 1], h);
      match steps[|steps| - 1]
      case Insert(t) => if t.hash == h then [] else before
      case Serve(k, _, actions) => if k == h then before + actions else before
      case Delete(k) => if k == h then [] else before
  }

  lemma ActionAgrees(cfg: Config, kind: Kind, history: seq<Action>, a: Action, t: Ticket)
    requires Agrees(cfg, kind, Stored(kind, t), history)
    ensures Agrees(cfg, kind, Stored(kind, Apply(cfg, a, t)), history + [a])
  {
    assert (history + [a])[..|history|] == history && (history + [a])[|history|] == a;
    hide ChoicesValid, TSpendPolicyValid, TreasuryPolicyValid;
    forall key: string
      ensures Said(Stored(kind, Apply(cfg, a, t)), key) == LastSay(cfg, kind, history + [a], key)
    {
      assert Said(Stored(kind, t), key) == LastSay(cfg, kind, history, key);
      assert kind.Consensus? || kind.TSpend? || kind.Treasury?;
    }
  }

  lemma {:induction false} ChainAgrees(cfg: Config, kind: Kind, history: seq<Action>, actions: seq<Action>, t: Ticket)
    requires Agrees(cfg, kind, Stored(kind, t), history)
    ensures Agrees(cfg, kind, Stored(kind, ApplyAll(cfg, actions, t)), history + actions)
    decreases |actions|
  {
    if actions == [] {
      assert history + actions == history;
    } else {
      ActionAgrees(cfg, kind, history, actions[0], t);
      ChainAgrees(cfg, kind, history + [actions[0]], actions[1..], Apply(cfg, actions[0], t));
      assert history + [actions[0]] + actions[1..] == history + actions;
    }
  }

  lemma NormalizedAgrees(cfg: Config, kind: Kind, t: Ticket, actions: seq<Action>)
    ensures Agrees(cfg, kind, Stored(kind, t.Normalized()), actions) <==> Agrees(cfg, kind, Stored(kind, t), actions)
  {
    assert forall key :: Said(Stored(kind, t.Normalized()), key) == Said(Stored(kind, t), key);
  }

  lemma NewAgrees(cfg: Config, kind: Kind, t: Ticket)
    requires NewTicket(t)
    ensures Agrees(cfg, kind, Stored(kind, t), [])
  {
  }

  /** In every reachable store each of a ticket's three maps of preferences is, key by key,
      what the last fee payment with a valid map, a later change or a later removal says. */
  lemma {:induction false} PreferencesAreLastSaid(cfg: Config, kind: Kind, stores: seq<Store>, steps: seq<Step>, n: nat, h: string)
    requires Run(cfg, stores, steps) && n <= |steps| && h in stores[n]
    ensures Agrees(cfg, kind, Stored(kind, stores[n][h]), History(steps[..n], h))
  {
    var step := steps[n-1];
    var before := steps[..n-1];
    assert steps[..n][..n-1] == before && steps[..n][n-1] == step;
    assert Next(cfg, stores[n-1], step, stores[n]);
    hide Agrees, Stored;
    if h in stores[n-1] {
      PreferencesAreLastSaid(cfg, kind, stores, steps, n - 1, h);
    }
    match step
    case Insert(t) =>
      if t.hash == h {
        NewAgrees(cfg, kind, t);
        NormalizedAgrees(cfg, kind, t, []);
      }
    case Serve(k, _, actions) =>
      if k == h {
        ChainAgrees(cfg, kind, History(before, h), actions, stores[n-1][h]);
        NormalizedAgrees(cfg, kind, ApplyAll(cfg, actions, stores[n-1][h]), History(before, h) + actions);
      }
    case Delete(_) =>
  }
}
