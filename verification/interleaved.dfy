/** The store under every interleaving of handlers and updater: reads and writes of
    whole records are separate steps, and the copies in flight are part of the state. */
module Interleaved {
  import opened Tickets
  import opened TicketStore
  import opened Lifecycle
  import Atomic

  /** An actor between its read and its last write. */
  datatype Job = Job(role: Role, copy: Ticket)

  datatype State = State(store: Store, jobs: map<nat, Job>)

  datatype Step =
    | Insert(ticket: Ticket, ok: bool)
    | Read(id: nat, role: Role, hash: string)
    | Write(id: nat, action: Action, ok: bool)
    | Delete(id: nat, ok: bool)
    | Finish(id: nat)
    | Crash

  ghost predicate Next(cfg: Config, s: State, step: Step, s': State) {
    match step
    // A handler that found its ticket unknown stores it; only a duplicate hash is rejected.
    case Insert(t, ok) =>
      && NewTicket(t)
      && s' == s.(store := if ok && t.hash !in s.store then s.store[t.hash := t.Normalized()] else s.store)
    case Read(id, role, hash) =>
      && id !in s.jobs && hash in s.store && Reads(role, s.store[hash])
      && s' == s.(jobs := s.jobs[id := Job(role, s.store[hash])])
    // The whole copy is written over whatever is stored by now.
    case Write(id, a, ok) =>
      && id in s.jobs && Enabled(cfg, s.jobs[id].role, a, s.jobs[id].copy)
      && var t' := Apply(cfg, a, s.jobs[id].copy);
         var next := NextRole(s.jobs[id].role, a, t', ok && t'.hash in s.store);
         s' == State(Put(s.store, t', ok), if next.Some? then s.jobs[id := Job(next.value, t')] else s.jobs - {id})
    // The updater drops a ticket whose purchase the node knows nothing about.
    case Delete(id, ok) =>
      && id in s.jobs && s.jobs[id].role == UnconfirmedTicket
      && s' == State(if ok then s.store - {s.jobs[id].copy.hash} else s.store, s.jobs - {id})
    case Finish(id) =>
      s' == s.(jobs := s.jobs - {id})
    case Crash =>
      s' == s.(jobs := map[])
  }

  ghost predicate JobOK(cfg: Config, job: Job) {
    RecordOK(cfg, job.copy) && Holds(job.role, job.copy)
  }

  ghost predicate Inv(cfg: Config, s: State) {
    StoreOK(cfg, s.store) && forall id | id in s.jobs :: JobOK(cfg, s.jobs[id])
  }

  lemma WriteInv(cfg: Config, s: State, id: nat, a: Action, ok: bool, s': State)
    requires cfg.Sound() && Inv(cfg, s) && Next(cfg, s, Write(id, a, ok), s')
    ensures Inv(cfg, s')
  {
    var job := s.jobs[id];
    assert JobOK(cfg, job);
    var t' := Apply(cfg, a, job.copy);
    ActionKeepsRecordOK(cfg, job.role, a, job.copy);
    NextRoleHolds(cfg, job.role, a, job.copy, ok && t'.hash in s.store);
    StoredOK(cfg, s.store, t');
    hide StoreOK, RecordOK, Holds, Enabled, Apply, NextRole;
  }

  lemma StepInv(cfg: Config, s: State, step: Step, s': State)
    requires cfg.Sound() && Inv(cfg, s) && Next(cfg, s, step, s')
    ensures Inv(cfg, s')
  {
    match step
    case Insert(t, ok) =>
      NewTicketOK(cfg, t);
      StoredOK(cfg, s.store, t);
    case Write(id, a, ok) =>
      WriteInv(cfg, s, id, a, ok, s');
    case Read(_, _, _) =>
    case Delete(_, _) =>
    case Finish(_) =>
    case Crash =>
  }

  /** A run from an empty store. */
  ghost predicate Run(cfg: Config, states: seq<State>, steps: seq<Step>) {
    && |states| == |steps| + 1 && states[0] == State(map[], map[])
    && forall i | 0 <= i < |steps| :: Next(cfg, states[i], steps[i], states[i+1])
  }

  /** Under every interleaving, lost updates included, every stored and every in-flight
      record satisfies the invariant. */
  lemma {:induction false} EveryRecordOK(cfg: Config, states: seq<State>, steps: seq<Step>, n: nat)
    requires cfg.Sound() && Run(cfg, states, steps) && n <= |steps|
    ensures Inv(cfg, states[n])
  {
    if n > 0 {
      EveryRecordOK(cfg, states, steps, n - 1);
      StepInv(cfg, states[n-1], steps[n-1], states[n]);
    }
  }

  /** So in every reachable state no ticket lacks a purchase height, and the repair of
      purchase heights has nothing to do. */
  lemma NoMissingHeights(cfg: Config, states: seq<State>, steps: seq<Step>, n: nat, h: string)
    requires cfg.Sound() && Run(cfg, states, steps) && n <= |steps| && h in states[n].store
    ensures !Reads(MissingHeight, states[n].store[h])
    ensures states[n].store[h].FeeTxKnown() ==> NamesSufficientFee(cfg, states[n].store[h])
  {
    EveryRecordOK(cfg, states, steps, n);
  }

  /** Spelled out: in every reachable state, and in every copy in flight, a received,
      broadcast or confirmed fee is a transaction with the record's hash whose first
      output with the version and script of the record's own fee address has a value, and
      at least the record's own fee. */
  lemma EveryFeeSuffices(cfg: Config, states: seq<State>, steps: seq<Step>, n: nat, t: Ticket)
    requires cfg.Sound() && Run(cfg, states, steps) && n <= |steps|
    requires t in states[n].store.Values || exists id :: id in states[n].jobs && states[n].jobs[id].copy == t
    requires t.feeTxStatus in {FeeReceived, FeeBroadcast, FeeConfirmed}
    ensures exists tx, want, i ::
              && cfg.txHash(tx) == t.feeTxHash && cfg.paymentScript(t.feeAddress) == Some(want)
              && 0 <= i < |tx.outputs| && tx.outputs[i].version == want.version && tx.outputs[i].script == want.script
              && tx.outputs[i].value != 0 && tx.outputs[i].value >= t.feeAmount
              && forall k | 0 <= k < i :: tx.outputs[k].version != want.version || tx.outputs[k].script != want.script
  {
    EveryRecordOK(cfg, states, steps, n);
    assert RecordOK(cfg, t);
    var tx :| cfg.txHash(tx) == t.feeTxHash && Pays(cfg, tx, t);
    PaysSays(cfg, tx, t);
  }

  // ---------- What fresh writes keep ----------

  /** The records differ at most in their voting preferences. */
  predicate SameButPreferences(a: Ticket, b: Ticket) {
    a == b.(voteChoices := a.voteChoices, tSpendPolicy := a.tSpendPolicy, treasuryPolicy := a.treasuryPolicy)
  }

  /** When a copy is written back or its ticket deleted, nobody has changed anything but
      the preferences since it was read, or the ticket is gone. */
  ghost predicate Fresh(s: State, step: Step) {
    (step.Write? || step.Delete?) && step.id in s.jobs ==>
      var copy := s.jobs[step.id].copy;
      copy.hash in s.store ==> SameButPreferences(s.store[copy.hash], copy)
  }

  /** A fresh write moves the stored ticket forward, whatever happened to its preferences. */
  lemma FreshWriteMovesForward(cfg: Config, role: Role, a: Action, stored: Ticket, copy: Ticket)
    requires SameButPreferences(stored, copy)
    requires RecordOK(cfg, copy) && Holds(role, copy) && Enabled(cfg, role, a, copy)
    ensures Atomic.Forward(stored, Apply(cfg, a, copy).Normalized())
  {
    Atomic.ActionMovesForward(cfg, role, a, copy);
    hide RecordOK, Holds, Enabled, Apply;
  }

  /** With fresh writes no step, of any number of actors at work on the same ticket, moves
      a confirmed ticket back or deletes it. */
  lemma FreshStepMovesForward(cfg: Config, s: State, step: Step, s': State, h: string)
    requires cfg.Sound() && Inv(cfg, s) && Next(cfg, s, step, s') && Fresh(s, step)
    requires h in s.store && s.store[h].confirmed
    ensures h in s'.store && Atomic.Forward(s.store[h], s'.store[h])
  {
    Atomic.ForwardOrder(s.store[h], s.store[h], s.store[h]);
    match step
    case Write(id, a, ok) =>
      var job := s.jobs[id];
      assert JobOK(cfg, job);
      ActionKeepsIdentity(cfg, job.role, a, job.copy);
      if ok && job.copy.hash == h {
        FreshWriteMovesForward(cfg, job.role, a, s.store[h], job.copy);
      }
      hide RecordOK, Enabled, Apply, Holds, Atomic.Forward, NextRole;
    case Delete(id, ok) =>
      assert JobOK(cfg, s.jobs[id]);
    case _ =>
  }

  /** Over whole interleaved runs from an empty store in which every write is fresh, the
      life of a confirmed ticket only moves forward, as in the atomic model. */
  lemma {:induction false} FreshRunMovesForward(cfg: Config, states: seq<State>, steps: seq<Step>, i: nat, j: nat, h: string)
    requires cfg.Sound() && Run(cfg, states, steps) && i <= j <= |steps|
    requires forall k | i <= k < j :: Fresh(states[k], steps[k])
    requires h in states[i].store && states[i].store[h].confirmed
    ensures h in states[j].store && Atomic.Forward(states[i].store[h], states[j].store[h])
    decreases j
  {
    if i == j {
      Atomic.ForwardOrder(states[i].store[h], states[i].store[h], states[i].store[h]);
    } else {
      FreshRunMovesForward(cfg, states, steps, i, j - 1, h);
      Atomic.ForwardConfirmed(states[i].store[h], states[j-1].store[h]);
      EveryRecordOK(cfg, states, steps, j - 1);
      FreshStepMovesForward(cfg, states[j-1], steps[j-1], states[j], h);
      Atomic.ForwardOrder(states[i].store[h], states[j-1].store[h], states[j].store[h]);
      hide Atomic.Forward, Next, Fresh, Inv;
    }
  }

  /** The writes of one actor, all successful, with no step of another between them. */
  ghost predicate Alone(cfg: Config, id: nat, states: seq<State>, actions: seq<Action>) {
    && |states| == |actions| + 1
    && forall k | 0 <= k < |actions| :: Next(cfg, states[k], Write(id, actions[k], true), states[k+1])
  }

  /** An actor whose read and writes are not interrupted does in the store what one step
      of the atomic model does. */
  lemma {:induction false} AloneIsChain(cfg: Config, id: nat, states: seq<State>, actions: seq<Action>, job: Job)
    requires Alone(cfg, id, states, actions) && actions != []
    requires id in states[0].jobs && states[0].jobs[id] == job && job.copy.hash in states[0].store
    ensures Atomic.Chain(cfg, job.role, actions, job.copy)
    ensures states[|actions|].store
         == states[0].store[job.copy.hash := Atomic.ApplyAll(cfg, actions, job.copy).Normalized()]
    decreases |actions|
  {
    var a, s, s1 := actions[0], states[0], states[1];
    var t' := Apply(cfg, a, job.copy);
    assert Next(cfg, s, Write(id, a, true), s1);
    ActionKeepsIdentity(cfg, job.role, a, job.copy);
    if |actions| == 1 {
      Atomic.ChainOfOne(cfg, job.role, a, job.copy);
      assert actions == [a];
    } else {
      assert Next(cfg, states[1], Write(id, actions[1], true), states[2]);
      AloneIsChain(cfg, id, states[1..], actions[1..], Job(NextRole(job.role, a, t', true).value, t'));
      hide Enabled, Apply, NextRole;
    }
  }

  lemma UninterruptedIsAtomic(cfg: Config, id: nat, role: Role, h: string, before: State, states: seq<State>, actions: seq<Action>)
    requires Alone(cfg, id, states, actions) && actions != []
    requires StoreOK(cfg, before.store) && Next(cfg, before, Read(id, role, h), states[0])
    ensures Atomic.Next(cfg, before.store, Atomic.Serve(h, role, actions), states[|actions|].store)
  {
    AloneIsChain(cfg, id, states, actions, Job(role, before.store[h]));
    hide Alone, Atomic.Chain, Atomic.ApplyAll, Reads;
  }

  // ---------- What interleaving can undo ----------

  /** A vote change with nothing in it, written back over another actor's write. */
  ghost function EmptyChange(): Action {
    ChangeChoices(StringMap(map[]), StringMap(map[]), StringMap(map[]))
  }

  lemma OverlayNothing(m: StringMap)
    requires m.StringMap?
    ensures Overlay(m, StringMap(map[])) == m == m.Normalized()
  {
    assert m.entries + map[] == m.entries;
  }

  lemma EmptyChangeRestores(cfg: Config, t: Ticket)
    requires t.MapsAllocated()
    ensures Apply(cfg, EmptyChange(), t) == t == t.Normalized()
    ensures Reads(WebHandler, t)
  {
    OverlayNothing(t.voteChoices);
    OverlayNothing(t.tSpendPolicy);
    OverlayNothing(t.treasuryPolicy);
    hide Overlay, StringMap.Normalized;
  }

  lemma ReadStep(cfg: Config, s: State, id: nat, role: Role, h: string) returns (s': State)
    requires id !in s.jobs && h in s.store && Reads(role, s.store[h])
    ensures Next(cfg, s, Read(id, role, h), s') && s'.store == s.store
    ensures s'.jobs == s.jobs[id := Job(role, s.store[h])]
  {
    s' := s.(jobs := s.jobs[id := Job(role, s.store[h])]);
  }

  lemma WriteStep(cfg: Config, s: State, id: nat, a: Action) returns (s': State)
    requires id in s.jobs && Enabled(cfg, s.jobs[id].role, a, s.jobs[id].copy)
    ensures Next(cfg, s, Write(id, a, true), s')
    ensures s'.store == Put(s.store, Apply(cfg, a, s.jobs[id].copy), true)
    ensures forall k | k in s.jobs && k != id :: k in s'.jobs && s'.jobs[k] == s.jobs[k]
  {
    var t' := Apply(cfg, a, s.jobs[id].copy);
    var next := NextRole(s.jobs[id].role, a, t', t'.hash in s.store);
    s' := State(Put(s.store, t', true), if next.Some? then s.jobs[id := Job(next.value, t')] else s.jobs - {id});
  }

  /** A stale write-back undoes any write made since the read: a handler reads a ticket,
      another actor writes it, and the handler's write restores what it read. */
  lemma StaleWriteBack(cfg: Config, s: State, h: string, role: Role, a: Action)
    returns (s1: State, s2: State, s3: State, s4: State)
    requires Inv(cfg, s) && s.jobs == map[] && h in s.store
    requires Reads(role, s.store[h]) && Enabled(cfg, role, a, s.store[h])
    requires Enabled(cfg, WebHandler, EmptyChange(), s.store[h])
    ensures Next(cfg, s, Read(0, WebHandler, h), s1) && Next(cfg, s1, Read(1, role, h), s2)
    ensures Next(cfg, s2, Write(1, a, true), s3) && Next(cfg, s3, Write(0, EmptyChange(), true), s4)
    ensures h in s3.store && s3.store[h] == Apply(cfg, a, s.store[h]).Normalized()
    ensures h in s4.store && s4.store[h] == s.store[h]
    ensures Atomic.Forward(s3.store[h], s4.store[h]) <==> Atomic.Forward(Apply(cfg, a, s.store[h]), s.store[h])
  {
    var t := s.store[h];
    ActionKeepsIdentity(cfg, role, a, t);
    Atomic.ForwardIgnoresPreferences(Apply(cfg, a, t), t);
    assert t.MapsAllocated() && t.hash == h;
    EmptyChangeRestores(cfg, t);
    hide Next, Atomic.Forward, Apply, Enabled, RecordOK, Inv, Reads;
    s1 := ReadStep(cfg, s, 0, WebHandler, h);
    s2 := ReadStep(cfg, s1, 1, role, h);
    s3 := WriteStep(cfg, s2, 1, a);
    s4 := WriteStep(cfg, s3, 0, EmptyChange());
  }

  /** So status does not only move forward here: for any ticket whose fee is broadcast,
      a vote change read before the fee is confirmed takes the confirmation back. */
  lemma ConfirmationCanBeUndone(cfg: Config, s: State, h: string) returns (s1: State, s2: State, s3: State, s4: State)
    requires Inv(cfg, s) && s.jobs == map[] && h in s.store
    requires s.store[h].feeTxStatus == FeeBroadcast
    ensures Next(cfg, s, Read(0, WebHandler, h), s1) && Next(cfg, s1, Read(1, UnconfirmedFee, h), s2)
    ensures Next(cfg, s2, Write(1, ConfirmFee, true), s3) && Next(cfg, s3, Write(0, EmptyChange(), true), s4)
    ensures h in s3.store && s3.store[h].feeTxStatus == FeeConfirmed
    ensures h in s4.store && s4.store[h].feeTxStatus == FeeBroadcast
  {
    s1, s2, s3, s4 := StaleWriteBack(cfg, s, h, UnconfirmedFee, ConfirmFee);
  }

  /** And a recorded outcome can be taken back, after which the ticket counts as votable
      although it has been spent. */
  lemma OutcomeCanBeLost(cfg: Config, s: State, h: string, o: Outcome) returns (s1: State, s2: State, s3: State, s4: State)
    requires Inv(cfg, s) && s.jobs == map[] && h in s.store && s.store[h].IsVotable() && o in {Voted, Missed, Expired}
    ensures Next(cfg, s, Read(0, WebHandler, h), s1) && Next(cfg, s1, Read(1, VotableTicket, h), s2)
    ensures Next(cfg, s2, Write(1, SetOutcome(o), true), s3) && Next(cfg, s3, Write(0, EmptyChange(), true), s4)
    ensures h in s3.store && s3.store[h].outcome == o
    ensures h in s4.store && s4.store[h].IsVotable()
  {
    s1, s2, s3, s4 := StaleWriteBack(cfg, s, h, VotableTicket, SetOutcome(o));
  }
}
