/** Whole runs of the daemon as far as outcomes are concerned: blocks are mined,
    passes scan, the daemon restarts, and other writers change the store. */
module OutcomeRuns {
  import opened Tickets
  import opened SpentScan
  import opened TicketStore
  import opened Outcomes
  import Lifecycle
  import Atomic

  /** last is zero until the first scan after a start. */
  datatype State = State(chain: seq<Block>, tickets: Store, last: int)

  datatype Step =
    | Mine(block: Block)
    | Pass(start: nat, written: set<string>)
    | Restart
    | Others(after: Store)

  /** No block below the given height spends the ticket. */
  ghost predicate UnspentBelow(p: Parsers, chain: seq<Block>, hash: string, height: int) {
    p.parseHash(hash).Some? && forall k | 0 <= k < height && k < |chain| :: FirstTx(chain[k], p.parseHash(hash).value) == None
  }

  /** The chain does not let a ticket be spent before it matures. */
  ghost predicate Mature(net: Network, p: Parsers, s: State) {
    forall h | h in s.tickets && s.tickets[h].purchaseHeight != 0 ::
      UnspentBelow(p, s.chain, h, s.tickets[h].purchaseHeight + net.ticketMaturity)
  }

  /** What the other writers may do to one ticket while they are atomic. A ticket they
      store or confirm the fee of has a hash that parses and, with a confirmed fee, a
      purchase height. */
  ghost predicate OthersMay(p: Parsers, s: State, t: Ticket) {
    if t.hash !in s.tickets then
      t.outcome == Votable && t.feeTxStatus != FeeConfirmed
    else
      var was := s.tickets[t.hash];
      && t.outcome == was.outcome
      && (was.feeTxStatus == FeeConfirmed ==> t.feeTxStatus == FeeConfirmed && t.purchaseHeight == was.purchaseHeight)
      && (Confirms(s, t) ==> t.outcome == Votable && t.purchaseHeight != 0 && p.parseHash(t.hash).Some?)
  }

  /** The write that confirms the fee of a stored ticket. */
  ghost predicate Confirms(s: State, t: Ticket) {
    t.hash in s.tickets && t.feeTxStatus == FeeConfirmed && s.tickets[t.hash].feeTxStatus != FeeConfirmed
  }

  ghost predicate Next(net: Network, p: Parsers, s: State, step: Step, s': State) {
    match step
    case Mine(block) =>
      s' == s.(chain := s.chain + [block]) && Mature(net, p, s')
    case Pass(start, written) =>
      && (exists h :: h in s.tickets && s.tickets[h].IsVotable())
      && start < |s.chain| && StartsFrom(net, s.tickets, s.last, start)
      && s' == s.(tickets := AfterPass(net, p, s.chain, s.tickets, start, written), last := |s.chain| - 1)
    case Restart =>
      s' == s.(last := 0)
    case Others(after) =>
      && s' == s.(tickets := after) && Keyed(after) && Mature(net, p, s')
      && (forall h | h in after :: OthersMay(p, s, after[h]))
      && (forall h | h in s.tickets && s.tickets[h].feeTxStatus == FeeConfirmed :: h in after)
  }

  /** What can be said of every state, whatever has failed: tickets are under their own
      hashes, and a votable one has a purchase height and a hash that parses. */
  ghost predicate Sane(p: Parsers, s: State) {
    && 0 <= s.last <= |s.chain| && Keyed(s.tickets)
    && forall h | h in s.tickets && s.tickets[h].IsVotable() :: s.tickets[h].purchaseHeight != 0 && p.parseHash(h).Some?
  }

  /** No votable ticket has a spender below the last scanned block. */
  ghost predicate NoneMissed(p: Parsers, s: State) {
    Sane(p, s) && forall h | h in s.tickets && s.tickets[h].IsVotable() :: UnspentBelow(p, s.chain, h, s.last)
  }

  /** The writes a pass cannot make up for later: those of tickets spent below the best block. */
  ghost predicate Owed(p: Parsers, s: State, step: Step) {
    step.Pass? ==>
      forall h | h in s.tickets && s.tickets[h].IsVotable() && !UnspentBelow(p, s.chain, h, |s.chain| - 1) :: h in step.written
  }

  /** No fee becomes confirmed on a ticket already spent below the last scanned block. */
  ghost predicate InTime(p: Parsers, s: State, step: Step) {
    step.Others? ==>
      forall h | h in step.after && Confirms(s, step.after[h]) :: UnspentBelow(p, s.chain, h, s.last)
  }

  /** No votable ticket has a spender anywhere on the chain. */
  ghost predicate NoneSpent(p: Parsers, s: State) {
    forall h | h in s.tickets && s.tickets[h].IsVotable() :: UnspentBelow(p, s.chain, h, |s.chain|)
  }

  /** A votable ticket is due exactly when the chain spends it, wherever the pass started. */
  lemma DueWhenSpent(net: Network, p: Parsers, s: State, start: nat, h: string)
    requires NoneMissed(p, s) && Mature(net, p, s) && start < |s.chain| && StartsFrom(net, s.tickets, s.last, start)
    requires h in s.tickets && s.tickets[h].IsVotable()
    ensures UnspentBelow(p, s.chain, h, start)
    ensures Due(net, p, s.chain, s.tickets[h], start) <==> !UnspentBelow(p, s.chain, h, |s.chain|)
  {
    var hash := p.parseHash(h).value;
    var r := FirstSpend(s.chain, hash, start, |s.chain| - 1);
    if r.Some? {
      assert FirstTx(s.chain[r.value.height], hash) != None;
    } else {
      assert NoSpender(s.chain, hash, start, |s.chain| - 1);
    }
  }

  /** What a pass does to one ticket: it stays votable unless it was due and its write succeeded. */
  lemma PassSettlesTicket(net: Network, p: Parsers, s: State, step: Step, s': State, h: string)
    requires NoneMissed(p, s) && Mature(net, p, s) && step.Pass? && Next(net, p, s, step, s') && h in s.tickets
    ensures s'.tickets[h].IsVotable() <==>
            s.tickets[h].IsVotable() && !(Due(net, p, s.chain, s.tickets[h], step.start) && h in step.written)
    ensures s.tickets[h].IsVotable() ==>
              (Due(net, p, s.chain, s.tickets[h], step.start) <==> !UnspentBelow(p, s.chain, h, |s.chain|))
  {
    if s.tickets[h].IsVotable() {
      DueWhenSpent(net, p, s, step.start, h);
    }
    if Due(net, p, s.chain, s.tickets[h], step.start) {
      assert Entry(net, p, s.chain, s.tickets[h], step.start, |s.chain| - 1).value.Classify() != Votable;
    }
  }

  /** After a pass no votable ticket is spent on the chain if and only if every write
      the pass owed succeeded. With last zero, as after a restart, nothing has to be
      known about earlier passes. */
  lemma PassSettlesChain(net: Network, p: Parsers, s: State, step: Step, s': State)
    requires NoneMissed(p, s) && Mature(net, p, s) && step.Pass? && Next(net, p, s, step, s')
    ensures NoneSpent(p, s') <==> Complete(net, p, s.chain, s.tickets, step.start, step.written)
  {
    forall h | h in s.tickets
      ensures s'.tickets[h].IsVotable() <==>
              s.tickets[h].IsVotable() && !(Due(net, p, s.chain, s.tickets[h], step.start) && h in step.written)
      ensures s.tickets[h].IsVotable() ==>
                (Due(net, p, s.chain, s.tickets[h], step.start) <==> !UnspentBelow(p, s.chain, h, |s.chain|))
    {
      PassSettlesTicket(net, p, s, step, s', h);
    }
    assert s'.tickets.Keys == s.tickets.Keys && s'.chain == s.chain;
    assert forall h | h in s.tickets && Due(net, p, s.chain, s.tickets[h], step.start) :: s.tickets[h].IsVotable();
    hide UnspentBelow, Due, AfterPass, Mature, NoneMissed;
  }

  /** Every step keeps the state sane, and only a restart moves the last scanned block down. */
  lemma StepStaysSane(net: Network, p: Parsers, s: State, step: Step, s': State)
    requires Sane(p, s) && Next(net, p, s, step, s')
    ensures Sane(p, s')
    ensures !step.Restart? ==> s.last <= s'.last
    ensures step.Pass? && s.last != 0 ==> step.start == s.last
  {
  }

  /** After a pass no votable ticket has a spender below the best block, where the next
      pass starts, if and only if the writes of those that had one succeeded. */
  lemma PassMissesNone(net: Network, p: Parsers, s: State, step: Step, s': State)
    requires NoneMissed(p, s) && Mature(net, p, s) && step.Pass? && Next(net, p, s, step, s')
    ensures NoneMissed(p, s') <==> Owed(p, s, step)
  {
    StepStaysSane(net, p, s, step, s');
    forall h | h in s.tickets
      ensures s'.tickets[h].IsVotable() <==>
              s.tickets[h].IsVotable() && !(Due(net, p, s.chain, s.tickets[h], step.start) && h in step.written)
      ensures s.tickets[h].IsVotable() ==>
                (Due(net, p, s.chain, s.tickets[h], step.start) <==> !UnspentBelow(p, s.chain, h, |s.chain|))
      ensures UnspentBelow(p, s.chain, h, |s.chain|) ==> UnspentBelow(p, s.chain, h, |s.chain| - 1)
    {
      PassSettlesTicket(net, p, s, step, s', h);
    }
    assert s'.tickets.Keys == s.tickets.Keys && s'.chain == s.chain;
    hide UnspentBelow, Due, AfterPass, Mature, Sane;
  }

  /** Other writers leave a ticket spent below the last scanned block votable if and only
      if they confirm the fee of one. */
  lemma OthersMissNone(net: Network, p: Parsers, s: State, step: Step, s': State)
    requires NoneMissed(p, s) && step.Others? && Next(net, p, s, step, s')
    ensures NoneMissed(p, s') <==> InTime(p, s, step)
  {
    StepStaysSane(net, p, s, step, s');
    hide UnspentBelow, Mature, Sane;
    if NoneMissed(p, s') {
      forall h | h in step.after && Confirms(s, step.after[h]) ensures UnspentBelow(p, s.chain, h, s.last) {
        assert s'.tickets[h].IsVotable();
      }
    }
  }

  /** Each step keeps the invariant exactly when a pass gets the writes it owes through
      and other writers confirm fees in time. */
  lemma StepMissesNone(net: Network, p: Parsers, s: State, step: Step, s': State)
    requires NoneMissed(p, s) && Mature(net, p, s) && Next(net, p, s, step, s')
    ensures NoneMissed(p, s') <==> Owed(p, s, step) && InTime(p, s, step)
    ensures Mature(net, p, s')
  {
    match step
    case Pass(_, _) => PassMissesNone(net, p, s, step, s');
    case Others(_) => OthersMissNone(net, p, s, step, s');
    case Mine(block) => MiningMissesNone(net, p, s, block, s');
    case Restart =>
  }

  lemma MiningMissesNone(net: Network, p: Parsers, s: State, block: Block, s': State)
    requires NoneMissed(p, s) && Next(net, p, s, Mine(block), s')
    ensures NoneMissed(p, s') && Mature(net, p, s')
  {
    forall h | h in s.tickets && s.tickets[h].IsVotable() ensures UnspentBelow(p, s'.chain, h, s.last) {
      assert UnspentBelow(p, s.chain, h, s.last);
    }
    hide UnspentBelow;
  }

  /** A run: n steps between n + 1 states, with any faults and any restarts. */
  ghost predicate Run(net: Network, p: Parsers, states: seq<State>, steps: seq<Step>) {
    && |states| == |steps| + 1
    && Sane(p, states[0]) && Mature(net, p, states[0])
    && forall i | 0 <= i < |steps| :: Next(net, p, states[i], steps[i], states[i+1])
  }

  lemma RunStep(net: Network, p: Parsers, states: seq<State>, steps: seq<Step>, k: nat)
    requires Run(net, p, states, steps) && k < |steps|
    ensures |states| == |steps| + 1
    ensures Next(net, p, states[k], steps[k], states[k+1])
    ensures Sane(p, states[k]) && Mature(net, p, states[k])
  {
    RunStaysSane(net, p, states, steps, k);
  }

  lemma {:induction false} RunStaysSane(net: Network, p: Parsers, states: seq<State>, steps: seq<Step>, n: nat)
    requires Run(net, p, states, steps) && n <= |steps|
    ensures Sane(p, states[n]) && Mature(net, p, states[n])
  {
    if n > 0 {
      RunStaysSane(net, p, states, steps, n - 1);
      StepStaysSane(net, p, states[n-1], steps[n-1], states[n]);
    }
  }

  /** Over a whole run, whatever restarts and atomic writes come between the passes, no
      outcome is lost: below the last scanned block no votable ticket is ever spent, and
      right after a pass none is spent on the chain at all exactly when the pass got
      every write through. A write that fails for a ticket spent in the best block does
      no harm. */
  lemma {:induction false} NoOutcomeLost(net: Network, p: Parsers, states: seq<State>, steps: seq<Step>, n: nat)
    requires Run(net, p, states, steps) && NoneMissed(p, states[0]) && n <= |steps|
    requires forall i | 0 <= i < n :: Owed(p, states[i], steps[i]) && InTime(p, states[i], steps[i])
    ensures NoneMissed(p, states[n]) && Mature(net, p, states[n])
    ensures n > 0 && steps[n-1].Pass? ==>
              (NoneSpent(p, states[n]) <==>
               Complete(net, p, states[n].chain, states[n-1].tickets, steps[n-1].start, steps[n-1].written))
    ensures n > 0 && !steps[n-1].Restart? ==> states[n-1].last <= states[n].last
  {
    if n > 0 {
      NoOutcomeLost(net, p, states, steps, n - 1);
      StepStaysSane(net, p, states[n-1], steps[n-1], states[n]);
      StepMissesNone(net, p, states[n-1], steps[n-1], states[n]);
      if steps[n-1].Pass? {
        PassSettlesChain(net, p, states[n-1], steps[n-1], states[n]);
      }
      hide NoneMissed, Mature, Sane, Owed, InTime, NoneSpent, Complete;
    }
  }

  // ---------- What an unsuccessful write costs ----------

  /** A ticket is spent by at most one block of the chain. */
  ghost predicate SpentOnce(chain: seq<Block>) {
    forall hash, i, j | 0 <= i < |chain| && 0 <= j < |chain| && FirstTx(chain[i], hash) != None && FirstTx(chain[j], hash) != None ::
      i == j
  }

  lemma {:induction false} NoSpendFound(chain: seq<Block>, hash: string, lo: nat, from: nat, upto: int)
    requires upto < |chain| && NoSpender(chain, hash, lo, upto) && lo <= from
    ensures FirstSpend(chain, hash, from, upto).None?
    decreases upto + 1 - from
  {
    if from <= upto {
      NoSpendFound(chain, hash, lo, from + 1, upto);
    }
  }

  /** A pass finds a spent ticket exactly when it was not spent below where the pass starts. */
  lemma DueOrTooLate(net: Network, p: Parsers, s: State, start: nat, h: string)
    requires Sane(p, s) && SpentOnce(s.chain) && start < |s.chain|
    requires h in s.tickets && s.tickets[h].IsVotable() && !UnspentBelow(p, s.chain, h, |s.chain|)
    ensures Due(net, p, s.chain, s.tickets[h], start) <==> UnspentBelow(p, s.chain, h, start)
  {
    var hash := p.parseHash(h).value;
    var k :| 0 <= k < |s.chain| && FirstTx(s.chain[k], hash) != None;
    if k >= start {
      FirstSpendUnique(s.chain, hash, start, |s.chain| - 1, Spend(k, FirstTx(s.chain[k], hash).value));
    } else {
      assert NoSpender(s.chain, hash, start, |s.chain| - 1);
      NoSpendFound(s.chain, hash, start, start, |s.chain| - 1);
    }
  }

  /** The ticket counts as votable although it was spent below the last scanned block. */
  ghost predicate Lost(p: Parsers, s: State, h: string) {
    h in s.tickets && s.tickets[h].IsVotable() && p.parseHash(h).Some? && !UnspentBelow(p, s.chain, h, s.last)
  }

  /** A write that fails loses its ticket exactly when the ticket was spent below the best
      block; one spent in the best block is found again by the next pass. */
  lemma FailedWriteLoses(net: Network, p: Parsers, s: State, step: Step, s': State, h: string)
    requires NoneMissed(p, s) && Mature(net, p, s) && step.Pass? && Next(net, p, s, step, s')
    requires h in s.tickets && Due(net, p, s.chain, s.tickets[h], step.start) && h !in step.written
    ensures s'.tickets[h] == s.tickets[h]
    ensures Lost(p, s', h) <==> !UnspentBelow(p, s.chain, h, |s.chain| - 1)
  {
  }

  lemma LostStep(net: Network, p: Parsers, s: State, step: Step, s': State, h: string)
    requires Sane(p, s) && SpentOnce(s.chain) && Lost(p, s, h)
    requires Next(net, p, s, step, s') && !step.Restart?
    ensures Lost(p, s', h)
  {
    match step
    case Pass(start, written) =>
      assert start == s.last;
      DueOrTooLate(net, p, s, start, h);
    case Mine(block) =>
      var k :| 0 <= k < s.last && k < |s.chain| && FirstTx(s.chain[k], p.parseHash(h).value) != None;
      assert FirstTx(s'.chain[k], p.parseHash(h).value) != None;
    case Others(after) =>
      assert OthersMay(p, s, after[h]);
    case Restart =>
  }

  /** A lost outcome stays lost through every pass, block and write by others until the
      daemon restarts. */
  lemma {:induction false} LostUntilRestart(net: Network, p: Parsers, states: seq<State>, steps: seq<Step>, i: nat, j: nat, h: string)
    requires Run(net, p, states, steps) && i <= j <= |steps| && Lost(p, states[i], h)
    requires forall k | i <= k < j :: SpentOnce(states[k].chain) && !steps[k].Restart?
    ensures Lost(p, states[j], h)
    decreases j
  {
    hide *;
    if i < j {
      RunStep(net, p, states, steps, j - 1);
      LostUntilRestart(net, p, states, steps, i, j - 1, h);
      LostStep(net, p, states[j-1], steps[j-1], states[j], h);
    }
  }

  /** A restart loses nothing for good: from any state of any run it starts the
      invariant afresh, and the first pass after it finds every votable ticket that is
      spent. */
  lemma RestartRecovers(net: Network, p: Parsers, s: State, s': State, start: nat, h: string)
    requires Sane(p, s) && Mature(net, p, s) && Next(net, p, s, Restart, s')
    requires start < |s'.chain| && StartsFrom(net, s'.tickets, s'.last, start)
    requires h in s'.tickets && s'.tickets[h].IsVotable()
    ensures NoneMissed(p, s')
    ensures Due(net, p, s'.chain, s'.tickets[h], start) <==> !UnspentBelow(p, s'.chain, h, |s'.chain|)
  {
    DueWhenSpent(net, p, s', start, h);
  }

  // ---------- Recorded outcomes are true ----------

  /** Every recorded outcome is the one a naive scan of the whole chain gives. */
  ghost predicate OutcomesTrue(net: Network, p: Parsers, s: State) {
    |s.chain| > 0 && forall h | h in s.tickets && s.tickets[h].outcome != Votable :: OutcomeTrue(net, p, s.chain, s.tickets[h])
  }

  ghost predicate OutcomeTrue(net: Network, p: Parsers, chain: seq<Block>, t: Ticket)
    requires |chain| > 0
  {
    t.feeTxStatus == FeeConfirmed && FoundOutcome(net, p, chain, t, 0) == Some(t.outcome)
  }

  /** On a chain that spends a ticket once, a scan that finds it gives what scanning from
      the first block gives. */
  lemma FoundFromZero(net: Network, p: Parsers, chain: seq<Block>, t: Ticket, start: nat)
    requires SpentOnce(chain) && start < |chain| && FoundOutcome(net, p, chain, t, start).Some?
    ensures FoundOutcome(net, p, chain, t, 0) == FoundOutcome(net, p, chain, t, start)
  {
    var hash := p.parseHash(t.hash).value;
    var s := FirstSpend(chain, hash, start, |chain| - 1).value;
    assert FirstTx(chain[s.height], hash) != None;
    assert NoSpender(chain, hash, 0, s.height - 1);
    FirstSpendUnique(chain, hash, 0, |chain| - 1, s);
  }

  /** A spender stays the first spender when blocks are added. */
  lemma FoundStaysFound(net: Network, p: Parsers, chain: seq<Block>, block: Block, t: Ticket)
    requires |chain| > 0 && FoundOutcome(net, p, chain, t, 0).Some?
    ensures FoundOutcome(net, p, chain + [block], t, 0) == FoundOutcome(net, p, chain, t, 0)
  {
    var hash := p.parseHash(t.hash).value;
    var s := FirstSpend(chain, hash, 0, |chain| - 1).value;
    assert FirstTx((chain + [block])[s.height], hash) == Some(s.tx);
    assert NoSpender(chain + [block], hash, 0, s.height - 1);
    FirstSpendUnique(chain + [block], hash, 0, |chain|, s);
  }

  /** The outcome a pass writes is true. */
  lemma WrittenIsTrue(net: Network, p: Parsers, chain: seq<Block>, m: Store, start: nat, written: set<string>, h: string)
    requires SpentOnce(chain) && start < |chain| && h in m && h in written && Due(net, p, chain, m[h], start)
    ensures OutcomeTrue(net, p, chain, AfterPass(net, p, chain, m, start, written)[h])
  {
    FoundFromZero(net, p, chain, m[h], start);
    OutcomeFieldIrrelevant(net, p, chain, m[h], AfterPass(net, p, chain, m, start, written)[h].outcome);
  }

  /** Every step keeps recorded outcomes true, from any state: earlier writes may have
      failed, this pass's writes may fail, the daemon may restart. */
  lemma StepKeepsOutcomesTrue(net: Network, p: Parsers, s: State, step: Step, s': State)
    requires SpentOnce(s'.chain) && Keyed(s.tickets) && OutcomesTrue(net, p, s) && Next(net, p, s, step, s')
    ensures OutcomesTrue(net, p, s')
  {
    forall h | h in s'.tickets && s'.tickets[h].outcome != Votable
      ensures OutcomeTrue(net, p, s'.chain, s'.tickets[h])
    {
      match step
      case Mine(block) =>
        FoundStaysFound(net, p, s.chain, block, s.tickets[h]);
      case Pass(start, written) =>
        if h in written && Due(net, p, s.chain, s.tickets[h], start) {
          WrittenIsTrue(net, p, s.chain, s.tickets, start, written, h);
        }
      case Restart =>
      case Others(after) =>
        assert OthersMay(p, s, after[h]) && OutcomeTrue(net, p, s.chain, s.tickets[h]);
        SamePurchaseSameOutcome(net, p, s.chain, s.tickets[h], after[h]);
    }
  }

  /** Over every run from a store whose outcomes are true, such as an empty one, with any
      failed writes and any restarts, every recorded outcome is the true one. */
  lemma {:induction false} OutcomesStayTrue(net: Network, p: Parsers, states: seq<State>, steps: seq<Step>, n: nat)
    requires Run(net, p, states, steps) && OutcomesTrue(net, p, states[0]) && n <= |steps|
    requires forall i | 0 <= i <= n :: SpentOnce(states[i].chain)
    ensures OutcomesTrue(net, p, states[n])
  {
    hide *;
    if n > 0 {
      OutcomesStayTrue(net, p, states, steps, n - 1);
      RunStep(net, p, states, steps, n - 1);
      StepKeepsOutcomesTrue(net, p, states[n-1], steps[n-1], states[n]);
    }
  }

  /** Spelled out: a recorded outcome belongs to a ticket with a confirmed fee, and is what
      the first transaction on the chain that spends the ticket says. */
  lemma TrueOutcomeSays(net: Network, p: Parsers, s: State, h: string) returns (hash: string, k: int, j: int)
    requires Keyed(s.tickets) && OutcomesTrue(net, p, s) && h in s.tickets && s.tickets[h].outcome != Votable
    ensures s.tickets[h].feeTxStatus == FeeConfirmed && p.parseHash(h) == Some(hash)
    ensures FirstSpender(s.chain, hash, 0, |s.chain| - 1, k, j)
    ensures Recorded(net, s.tickets[h], s.chain[k][j], k, s.tickets[h].outcome)
  {
    var t := s.tickets[h];
    assert OutcomeTrue(net, p, s.chain, t);
    hash := p.parseHash(h).value;
    k, j := EntryHasSpender(net, p, s.chain, t, 0, |s.chain| - 1);
    EntrySays(net, p, s.chain, t, hash, 0, |s.chain| - 1, k, j);
  }

  lemma SamePurchaseSameOutcome(net: Network, p: Parsers, chain: seq<Block>, t: Ticket, t': Ticket)
    requires t.hash == t'.hash && t.purchaseHeight == t'.purchaseHeight && |chain| > 0
    ensures FoundOutcome(net, p, chain, t, 0) == FoundOutcome(net, p, chain, t', 0)
  {
  }

  lemma OutcomeFieldIrrelevant(net: Network, p: Parsers, chain: seq<Block>, t: Ticket, o: Outcome)
    requires |chain| > 0
    ensures FoundOutcome(net, p, chain, t, 0) == FoundOutcome(net, p, chain, t.(outcome := o), 0)
  {
  }

  // ---------- The steps are what the code does ----------

  /** A pass that scans, with any faults, is a step of these runs. */
  lemma PassIsStep(net: Network, p: Parsers, chain: seq<Block>, m: Store, last: int, start: nat, written: set<string>, m': Store)
    requires start < |chain| && StartsFrom(net, m, last, start)
    requires exists h :: h in m && m[h].IsVotable()
    requires m' == AfterPass(net, p, chain, m, start, written)
    ensures Next(net, p, State(chain, m, last), Pass(start, written), State(chain, m', |chain| - 1))
    ensures Complete(net, p, chain, m, start, written) && NoneMissed(p, State(chain, m, last)) && Mature(net, p, State(chain, m, last)) ==>
              Owed(p, State(chain, m, last), Pass(start, written))
  {
  }

  /** Atomic handlers and updater steps other than the recording of outcomes stay within
      what these runs allow. */
  lemma ServingIsAllowed(cfg: Lifecycle.Config, p: Parsers, s: State, h: string, role: Lifecycle.Role, actions: seq<Lifecycle.Action>)
    requires cfg.Sound() && Lifecycle.StoreOK(cfg, s.tickets) && h in s.tickets && Lifecycle.Reads(role, s.tickets[h])
    requires Atomic.Chain(cfg, role, actions, s.tickets[h]) && forall a | a in actions :: !a.SetOutcome?
    requires Lifecycle.ConfirmFee in actions ==> p.parseHash(h).Some?
    ensures OthersMay(p, s, Atomic.ApplyAll(cfg, actions, s.tickets[h]).Normalized())
  {
    Atomic.ChainMovesForward(cfg, role, actions, s.tickets[h]);
    ServingKeepsOutcome(cfg, actions, s.tickets[h]);
  }

  lemma {:induction false} ServingKeepsOutcome(cfg: Lifecycle.Config, actions: seq<Lifecycle.Action>, t: Ticket)
    requires forall a | a in actions :: !a.SetOutcome?
    ensures Atomic.ApplyAll(cfg, actions, t).outcome == t.outcome
    ensures Atomic.ApplyAll(cfg, actions, t).feeTxStatus == FeeConfirmed && t.feeTxStatus != FeeConfirmed ==>
              Lifecycle.ConfirmFee in actions
    decreases |actions|
  {
    if actions != [] {
      assert forall a | a in actions[1..] :: a in actions;
      ServingKeepsOutcome(cfg, actions[1..], Lifecycle.Apply(cfg, actions[0], t));
    }
  }
}
