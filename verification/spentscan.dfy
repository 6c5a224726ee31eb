/** Finding the vote and revoke transactions of a list of tickets by scanning the
    main chain block by block behind a filter. */
module SpentScan {
  import opened Tickets

  datatype OutPoint = OutPoint(hash: string, index: nat)

  /** A stake transaction. isSSGen holds for a vote and not for a revocation. */
  datatype Tx = Tx(inputs: seq<OutPoint>, isSSGen: bool)

  /** The stake transactions of one block. */
  type Block = seq<Tx>

  datatype Network = Network(ticketMaturity: nat, ticketExpiry: nat)

  /** Every answer of the node during one scan, and whether shutdown was requested.
      The block at height h is chain[h]. */
  datatype Node = Node(
    chain: seq<Block>,
    blockCountOk: bool,
    headerAndFilterOk: int -> bool,
    blockOk: int -> bool,
    cancelled: int -> bool,
    matchAny: (int, seq<string>) -> bool)

  /** Address and hash parsing; None is a parse error. */
  datatype Parsers = Parsers(paymentScript: string -> Option<string>, parseHash: string -> Option<string>)

  datatype ScanError = BlockCountFailed | StartAfterBest | BadAddress | BadHash | Canceled | NodeFailed

  datatype TicketTuple = TicketTuple(dbTicket: Ticket, hash: string)

  datatype SpentTicket = SpentTicket(dbTicket: Ticket, expiryHeight: int, heightSpent: int, spendingTx: Tx) {
    predicate Voted() {
      spendingTx.isSSGen
    }

    /** A revocation counts as an expiry exactly at the expiry height and one block later. */
    predicate Missed()
      ensures Missed() <==> heightSpent !in {expiryHeight, expiryHeight + 1}
    {
      if heightSpent < expiryHeight then true
      else if heightSpent == expiryHeight then false
      else if heightSpent == expiryHeight + 1 then false
      else true
    }

    function Classify(): Outcome {
      if Voted() then Outcome.Voted else if Missed() then Outcome.Missed else Outcome.Expired
    }
  }

  // ---------- What a spender is ----------

  ghost predicate Spends(tx: Tx, hash: string) {
    OutPoint(hash, 0) in tx.inputs
  }

  method TxSpendsTicket(tx: Tx, hash: string) returns (spends: bool)
    ensures spends <==> Spends(tx, hash)
  {
    for i := 0 to |tx.inputs|
      invariant OutPoint(hash, 0) !in tx.inputs[..i]
    {
      var prevOut := tx.inputs[i];
      if prevOut.index == 0 && prevOut.hash == hash {
        return true;
      }
    }
    return false;
  }

  /** The first stake transaction of a block that spends the ticket. */
  ghost function FirstTx(block: Block, hash: string): (r: Option<Tx>)
    ensures r.Some? ==> r.value in block && Spends(r.value, hash)
    ensures r.None? ==> forall tx | tx in block :: !Spends(tx, hash)
  {
    if block == [] then None
    else if Spends(block[0], hash) then Some(block[0])
    else FirstTx(block[1..], hash)
  }

  datatype Spend = Spend(height: int, tx: Tx)

  /** No block in [from, upto] spends the ticket. */
  ghost predicate NoSpender(chain: seq<Block>, hash: string, from: nat, upto: int)
    requires upto < |chain|
  {
    forall h | from <= h <= upto :: FirstTx(chain[h], hash) == None
  }

  /** The spender in the lowest block of [from, upto], read off the chain with no filter. */
  ghost function FirstSpend(chain: seq<Block>, hash: string, from: nat, upto: int): (r: Option<Spend>)
    requires upto < |chain|
    ensures r.Some? ==> from <= r.value.height <= upto && FirstTx(chain[r.value.height], hash) == Some(r.value.tx)
    ensures r.Some? ==> NoSpender(chain, hash, from, r.value.height - 1)
    ensures r.None? ==> NoSpender(chain, hash, from, upto)
    decreases upto + 1 - from
  {
    if from > upto then None
    else match FirstTx(chain[from], hash)
      case Some(tx) => Some(Spend(from, tx))
      case None => FirstSpend(chain, hash, from + 1, upto)
  }

  /** The two defining facts of FirstSpend leave one result. */
  lemma FirstSpendUnique(chain: seq<Block>, hash: string, from: nat, upto: int, s: Spend)
    requires upto < |chain| && from <= s.height <= upto
    requires FirstTx(chain[s.height], hash) == Some(s.tx)
    requires NoSpender(chain, hash, from, s.height - 1)
    ensures FirstSpend(chain, hash, from, upto) == Some(s)
  {
    var r := FirstSpend(chain, hash, from, upto);
    assert FirstTx(chain[s.height], hash) != None;
    assert r.Some?;
    assert FirstTx(chain[r.value.height], hash) != None;
  }

  /** What a naive scan of every block in [from, upto] reports for one ticket. */
  ghost function Entry(net: Network, p: Parsers, chain: seq<Block>, t: Ticket, from: nat, upto: int): (r: Option<SpentTicket>)
    requires upto < |chain|
  {
    match p.parseHash(t.hash)
    case None => None
    case Some(hash) =>
      match FirstSpend(chain, hash, from, upto)
      case None => None
      case Some(s) =>
        Some(SpentTicket(t, t.purchaseHeight + net.ticketMaturity + net.ticketExpiry, s.height, s.tx))
  }

  /** The naive scan: ticket by ticket, in list order. */
  ghost function NaiveScan(net: Network, p: Parsers, chain: seq<Block>, list: seq<Ticket>, from: nat, upto: int): seq<SpentTicket>
    requires upto < |chain|
  {
    if list == [] then []
    else
      var rest := NaiveScan(net, p, chain, list[1..], from, upto);
      match Entry(net, p, chain, list[0], from, upto)
      case None => rest
      case Some(e) => [e] + rest
  }

  lemma {:induction false} NaiveScanConcat(net: Network, p: Parsers, chain: seq<Block>, a: seq<Ticket>, b: seq<Ticket>, from: nat, upto: int)
    requires upto < |chain|
    ensures NaiveScan(net, p, chain, a + b, from, upto)
         == NaiveScan(net, p, chain, a, from, upto) + NaiveScan(net, p, chain, b, from, upto)
  {
    if a == [] {
      assert a + b == b;
    } else {
      assert (a + b)[1..] == a[1..] + b;
      NaiveScanConcat(net, p, chain, a[1..], b, from, upto);
    }
  }

  /** The first element of a list occurs in every permutation of it; taking it out of
      both leaves permutations. */
  lemma TakeOutFirst<T>(a: seq<T>, b: seq<T>) returns (i: nat)
    requires a != [] && multiset(a) == multiset(b)
    ensures i < |b| && b[i] == a[0] && b == b[..i] + ([b[i]] + b[i+1..])
    ensures multiset(a[1..]) == multiset(b[..i] + b[i+1..])
  {
    assert a[0] in multiset(a);
    assert a[0] in b;
    i :| i < |b| && b[i] == a[0];
    assert a == [a[0]] + a[1..];
    assert b == b[..i] + ([b[i]] + b[i+1..]);
    assert multiset(b) == multiset(b[..i] + b[i+1..]) + multiset{a[0]};
    assert multiset(a[1..]) == multiset(a) - multiset{a[0]};
  }

  /** Reordering the list reorders the report and changes nothing else. */
  lemma {:induction false} NaiveScanPermutes(net: Network, p: Parsers, chain: seq<Block>, a: seq<Ticket>, b: seq<Ticket>, from: nat, upto: int)
    requires upto < |chain| && multiset(a) == multiset(b)
    ensures multiset(NaiveScan(net, p, chain, a, from, upto)) == multiset(NaiveScan(net, p, chain, b, from, upto))
    decreases |a|
  {
    if a == [] {
      assert |multiset(b)| == 0;
      assert b == [];
    } else {
      var i := TakeOutFirst(a, b);
      var left, right := b[..i], b[i+1..];
      NaiveScanPermutes(net, p, chain, a[1..], left + right, from, upto);
      NaiveScanConcat(net, p, chain, left, right, from, upto);
      NaiveScanConcat(net, p, chain, left, [b[i]] + right, from, upto);
      assert ([b[i]] + right)[1..] == right;
    }
  }

  /** The naive scan reports exactly the entries of the tickets in the list. */
  lemma {:induction false} NaiveScanReports(net: Network, p: Parsers, chain: seq<Block>, list: seq<Ticket>, from: nat, upto: int)
    requires upto < |chain|
    ensures forall e :: e in NaiveScan(net, p, chain, list, from, upto)
                   <==> e.dbTicket in list && Entry(net, p, chain, e.dbTicket, from, upto) == Some(e)
  {
    if list != [] {
      NaiveScanReports(net, p, chain, list[1..], from, upto);
      assert forall t :: t in list <==> t == list[0] || t in list[1..];
    }
  }

  // ---------- The naive scan spelled out ----------

  /** The stake transaction at j of the block at k has output 0 of the ticket among its
      inputs; no earlier one in the block does, nor any in a lower block of the range. */
  ghost predicate FirstSpender(chain: seq<Block>, hash: string, from: nat, upto: int, k: int, j: int) {
    && from <= k <= upto < |chain| && 0 <= j < |chain[k]|
    && OutPoint(hash, 0) in chain[k][j].inputs
    && (forall i | 0 <= i < j :: OutPoint(hash, 0) !in chain[k][i].inputs)
    && (forall h, i | from <= h < k && 0 <= i < |chain[h]| :: OutPoint(hash, 0) !in chain[h][i].inputs)
  }

  ghost predicate HasNoSpender(chain: seq<Block>, hash: string, from: nat, upto: int)
    requires upto < |chain|
  {
    forall h, i | from <= h <= upto && 0 <= i < |chain[h]| :: OutPoint(hash, 0) !in chain[h][i].inputs
  }

  lemma {:induction false} FirstTxSays(block: Block, hash: string, j: int)
    requires 0 <= j < |block| && OutPoint(hash, 0) in block[j].inputs
    requires forall i | 0 <= i < j :: OutPoint(hash, 0) !in block[i].inputs
    ensures FirstTx(block, hash) == Some(block[j])
  {
    if j > 0 {
      FirstTxSays(block[1..], hash, j - 1);
    }
  }

  lemma {:induction false} FirstTxNone(block: Block, hash: string)
    requires forall i | 0 <= i < |block| :: OutPoint(hash, 0) !in block[i].inputs
    ensures FirstTx(block, hash) == None
  {
    if block != [] {
      FirstTxNone(block[1..], hash);
    }
  }

  /** For a ticket with a spender in the range the naive scan reports exactly the first
      height and the first transaction there, and the expiry height. */
  lemma EntrySays(net: Network, p: Parsers, chain: seq<Block>, t: Ticket, hash: string, from: nat, upto: int, k: int, j: int)
    requires p.parseHash(t.hash) == Some(hash) && FirstSpender(chain, hash, from, upto, k, j)
    ensures Entry(net, p, chain, t, from, upto)
         == Some(SpentTicket(t, t.purchaseHeight + net.ticketMaturity + net.ticketExpiry, k, chain[k][j]))
  {
    FirstTxSays(chain[k], hash, j);
    forall h | from <= h < k ensures FirstTx(chain[h], hash) == None {
      FirstTxNone(chain[h], hash);
    }
    FirstSpendUnique(chain, hash, from, upto, Spend(k, chain[k][j]));
  }

  /** Whatever the naive scan reports has a first spender. */
  lemma EntryHasSpender(net: Network, p: Parsers, chain: seq<Block>, t: Ticket, from: nat, upto: int) returns (k: int, j: int)
    requires upto < |chain| && Entry(net, p, chain, t, from, upto).Some?
    ensures FirstSpender(chain, p.parseHash(t.hash).value, from, upto, k, j)
  {
    var hash := p.parseHash(t.hash).value;
    k := FirstSpend(chain, hash, from, upto).value.height;
    j := FirstTxIndex(chain[k], hash);
    forall h, i | from <= h < k && 0 <= i < |chain[h]| ensures OutPoint(hash, 0) !in chain[h][i].inputs {
      assert FirstTx(chain[h], hash) == None;
      assert !Spends(chain[h][i], hash);
    }
  }

  lemma {:induction false} FirstTxIndex(block: Block, hash: string) returns (j: int)
    requires FirstTx(block, hash).Some?
    ensures 0 <= j < |block| && OutPoint(hash, 0) in block[j].inputs
    ensures forall i | 0 <= i < j :: OutPoint(hash, 0) !in block[i].inputs
  {
    if Spends(block[0], hash) {
      j := 0;
    } else {
      var rest := FirstTxIndex(block[1..], hash);
      j := rest + 1;
    }
  }

  /** For a ticket with none it reports nothing. */
  lemma {:induction false} NoEntry(net: Network, p: Parsers, chain: seq<Block>, t: Ticket, hash: string, from: nat, upto: int)
    requires upto < |chain| && p.parseHash(t.hash) == Some(hash) && HasNoSpender(chain, hash, from, upto)
    ensures Entry(net, p, chain, t, from, upto) == None
    decreases upto + 1 - from
  {
    if from <= upto {
      FirstTxNone(chain[from], hash);
      NoEntry(net, p, chain, t, hash, from + 1, upto);
    }
  }

  /** Every list element that is spent is reported, and each of them once. */
  lemma {:induction false} NaiveScanCounts(net: Network, p: Parsers, chain: seq<Block>, list: seq<Ticket>, from: nat, upto: int, t: Ticket)
    requires upto < |chain|
    ensures multiset(SpentDbTickets(NaiveScan(net, p, chain, list, from, upto)))[t]
         == if Entry(net, p, chain, t, from, upto).Some? then multiset(list)[t] else 0
  {
    if list != [] {
      var rest := NaiveScan(net, p, chain, list[1..], from, upto);
      NaiveScanCounts(net, p, chain, list[1..], from, upto, t);
      assert list == [list[0]] + list[1..];
      var e := Entry(net, p, chain, list[0], from, upto);
      if e.Some? {
        assert SpentDbTickets([e.value] + rest) == [list[0]] + SpentDbTickets(rest);
      }
      hide Entry, SpentDbTickets;
    }
  }

  // ---------- The in-place removal ----------

  /** s with its last element moved to position i. */
  ghost function SwapRemove<T>(s: seq<T>, i: nat): (r: seq<T>)
    requires i < |s|
    ensures |r| == |s| - 1
    ensures forall k | 0 <= k < |r| :: r[k] == if k == i then s[|s| - 1] else s[k]
  {
    s[i := s[|s| - 1]][..|s| - 1]
  }

  /** Swap-remove takes out exactly one occurrence of the element at i. */
  lemma SwapRemoveConserves<T>(s: seq<T>, i: nat)
    requires i < |s|
    ensures multiset(s) == multiset(SwapRemove(s, i)) + multiset{s[i]}
  {
    var last := |s| - 1;
    assert s == s[..last] + [s[last]];
    if i == last {
      assert SwapRemove(s, i) == s[..last];
    } else {
      assert s[..last] == s[..i] + [s[i]] + s[i+1..last];
      assert SwapRemove(s, i) == s[..i] + [s[last]] + s[i+1..last];
    }
  }

  /** The slice is the first n elements of s; the shortened slice is the first m. */
  method NonOrderPreservingRemove<T>(s: array<T>, n: nat, i: nat) returns (m: nat)
    requires i < n <= s.Length
    modifies s
    ensures m == n - 1
    ensures s[..m] == SwapRemove(old(s[..n]), i)
  {
    s[i] := s[n - 1];
    m := n - 1;
  }

  // ---------- The scan ----------

  /** Each script is the script of the ticket at the same position. */
  ghost predicate Paired(p: Parsers, tickets: seq<TicketTuple>, scripts: seq<string>) {
    && |tickets| == |scripts|
    && forall i | 0 <= i < |tickets| ::
         && p.parseHash(tickets[i].dbTicket.hash) == Some(tickets[i].hash)
         && p.paymentScript(tickets[i].dbTicket.commitmentAddress) == Some(scripts[i])
  }

  ghost function DbTickets(s: seq<TicketTuple>): (r: seq<Ticket>)
    ensures |r| == |s|
  {
    seq(|s|, i requires 0 <= i < |s| => s[i].dbTicket)
  }

  ghost function SpentDbTickets(s: seq<SpentTicket>): (r: seq<Ticket>)
    ensures |r| == |s|
  {
    seq(|s|, i requires 0 <= i < |s| => s[i].dbTicket)
  }

  /** Conservation: the tickets reported and the tickets left are together the input. */
  ghost predicate Conserved(all: seq<Ticket>, spent: seq<SpentTicket>, rest: seq<TicketTuple>) {
    multiset(all) == multiset(SpentDbTickets(spent)) + multiset(DbTickets(rest))
  }

  /** Every reported entry is what the naive scan of [from, upto] reports. */
  ghost predicate Reported(net: Network, p: Parsers, chain: seq<Block>, spent: seq<SpentTicket>, from: nat, upto: int)
    requires upto < |chain|
  {
    forall k | 0 <= k < |spent| :: Entry(net, p, chain, spent[k].dbTicket, from, upto) == Some(spent[k])
  }

  /** No ticket at positions lo to hi - 1 of the list has a spender in [from, upto]. */
  ghost predicate Unspent(chain: seq<Block>, rest: seq<TicketTuple>, lo: nat, hi: nat, from: nat, upto: int)
    requires upto < |chain| && hi <= |rest|
  {
    forall k | lo <= k < hi :: FirstSpend(chain, rest[k].hash, from, upto) == None
  }

  /** The filter never misses a block that spends a ticket whose script it is asked for. */
  ghost predicate NoFalseNegatives(node: Node, p: Parsers, known: set<Ticket>) {
    forall t, h, scripts ::
      t in known && 0 <= h < |node.chain| && p.parseHash(t.hash).Some? && p.paymentScript(t.commitmentAddress).Some?
      && p.paymentScript(t.commitmentAddress).value in scripts && FirstTx(node.chain[h], p.parseHash(t.hash).value).Some?
      ==> node.matchAny(h, scripts)
  }

  ghost function Elements<T>(s: seq<T>): set<T> {
    set x | x in s
  }

  /** The state between blocks: everything up to a height is settled. */
  ghost predicate Scanned(net: Network, p: Parsers, chain: seq<Block>, all: seq<Ticket>, spent: seq<SpentTicket>,
                          rest: seq<TicketTuple>, scripts: seq<string>, from: nat, upto: int) {
    && from <= upto + 1 <= |chain|
    && Paired(p, rest, scripts)
    && Conserved(all, spent, rest)
    && Reported(net, p, chain, spent, from, upto)
    && Unspent(chain, rest, 0, |rest|, from, upto)
  }

  /** The state within the block at height h: positions below i are settled up to h,
      the others up to h - 1. */
  ghost predicate Scanning(net: Network, p: Parsers, chain: seq<Block>, all: seq<Ticket>, spent: seq<SpentTicket>,
                           rest: seq<TicketTuple>, scripts: seq<string>, i: nat, from: nat, h: nat) {
    && from <= h < |chain| && i <= |rest|
    && Paired(p, rest, scripts)
    && Conserved(all, spent, rest)
    && Reported(net, p, chain, spent, from, h)
    && Unspent(chain, rest, 0, i, from, h)
    && Unspent(chain, rest, i, |rest|, from, h - 1)
  }

  /** Scanning one block more keeps every spender already found. */
  lemma ExtendSpend(chain: seq<Block>, hash: string, from: nat, upto: int)
    requires from <= upto + 1 < |chain|
    ensures FirstSpend(chain, hash, from, upto + 1)
         == match FirstSpend(chain, hash, from, upto)
            case Some(s) => Some(s)
            case None =>
              match FirstTx(chain[upto + 1], hash)
              case None => None
              case Some(tx) => Some(Spend(upto + 1, tx))
  {
    var r := FirstSpend(chain, hash, from, upto);
    if r.Some? {
      FirstSpendUnique(chain, hash, from, upto + 1, r.value);
    } else if FirstTx(chain[upto + 1], hash).Some? {
      FirstSpendUnique(chain, hash, from, upto + 1, Spend(upto + 1, FirstTx(chain[upto + 1], hash).value));
    }
  }

  /** A true report stays true when the range grows upwards. */
  lemma ExtendReport(net: Network, p: Parsers, chain: seq<Block>, spent: seq<SpentTicket>, from: nat, upto: int, end: int)
    requires upto <= end < |chain| && Reported(net, p, chain, spent, from, upto)
    ensures Reported(net, p, chain, spent, from, end)
  {
    forall k | 0 <= k < |spent|
      ensures Entry(net, p, chain, spent[k].dbTicket, from, end) == Some(spent[k])
    {
      var hash := p.parseHash(spent[k].dbTicket.hash).value;
      FirstSpendUnique(chain, hash, from, end, FirstSpend(chain, hash, from, upto).value);
    }
  }

  lemma BeginBlock(net: Network, p: Parsers, chain: seq<Block>, all: seq<Ticket>, spent: seq<SpentTicket>,
                   rest: seq<TicketTuple>, scripts: seq<string>, from: nat, h: nat)
    requires from <= h < |chain| && Scanned(net, p, chain, all, spent, rest, scripts, from, h - 1)
    ensures Scanning(net, p, chain, all, spent, rest, scripts, 0, from, h)
  {
    ExtendReport(net, p, chain, spent, from, h - 1, h);
  }

  /** The ticket at i has no spender in the block. */
  lemma KeepTicket(net: Network, p: Parsers, chain: seq<Block>, all: seq<Ticket>, spent: seq<SpentTicket>,
                   rest: seq<TicketTuple>, scripts: seq<string>, i: nat, from: nat, h: nat)
    requires Scanning(net, p, chain, all, spent, rest, scripts, i, from, h)
    requires i < |rest| && FirstTx(chain[h], rest[i].hash) == None
    ensures Scanning(net, p, chain, all, spent, rest, scripts, i + 1, from, h)
  {
    ExtendSpend(chain, rest[i].hash, from, h - 1);
  }

  /** The ticket at i is spent in the block: it is reported and swap-removed from both
      lists, which brings an unchecked ticket to the same index. */
  lemma ReportTicket(net: Network, p: Parsers, chain: seq<Block>, all: seq<Ticket>, spent: seq<SpentTicket>,
                     rest: seq<TicketTuple>, scripts: seq<string>, i: nat, from: nat, h: nat, e: SpentTicket)
    requires Scanning(net, p, chain, all, spent, rest, scripts, i, from, h)
    requires i < |rest| && FirstTx(chain[h], rest[i].hash) == Some(e.spendingTx)
    requires e.dbTicket == rest[i].dbTicket && e.heightSpent == h
    requires e.expiryHeight == e.dbTicket.purchaseHeight + net.ticketMaturity + net.ticketExpiry
    ensures Scanning(net, p, chain, all, spent + [e], SwapRemove(rest, i), SwapRemove(scripts, i), i, from, h)
  {
    ExtendSpend(chain, rest[i].hash, from, h - 1);
    assert Entry(net, p, chain, e.dbTicket, from, h) == Some(e);
    RemoveConserves(all, spent, rest, i, e);
    RemoveKeepsPairs(p, rest, scripts, i);
    RemoveKeepsUnspent(chain, rest, i, from, h);
    hide Conserved, Paired, Unspent, SwapRemove, FirstTx, FirstSpend, Entry;
  }

  /** The reported ticket moves from the list to the report. */
  lemma RemoveConserves(all: seq<Ticket>, spent: seq<SpentTicket>, rest: seq<TicketTuple>, i: nat, e: SpentTicket)
    requires Conserved(all, spent, rest) && i < |rest| && e.dbTicket == rest[i].dbTicket
    ensures Conserved(all, spent + [e], SwapRemove(rest, i))
  {
    assert DbTickets(SwapRemove(rest, i)) == SwapRemove(DbTickets(rest), i);
    SwapRemoveConserves(DbTickets(rest), i);
    hide SwapRemove;
    assert SpentDbTickets(spent + [e]) == SpentDbTickets(spent) + [e.dbTicket];
  }

  /** The two lists stay parallel. */
  lemma RemoveKeepsPairs(p: Parsers, rest: seq<TicketTuple>, scripts: seq<string>, i: nat)
    requires Paired(p, rest, scripts) && i < |rest|
    ensures Paired(p, SwapRemove(rest, i), SwapRemove(scripts, i))
  {
  }

  lemma RemoveKeepsUnspent(chain: seq<Block>, rest: seq<TicketTuple>, i: nat, from: nat, h: nat)
    requires h < |chain| && i < |rest|
    requires Unspent(chain, rest, 0, i, from, h) && Unspent(chain, rest, i, |rest|, from, h - 1)
    ensures Unspent(chain, SwapRemove(rest, i), 0, i, from, h)
    ensures Unspent(chain, SwapRemove(rest, i), i, |rest| - 1, from, h - 1)
  {
    hide FirstSpend;
  }

  /** A block the filter skips spends none of the tickets left. */
  lemma SkipBlock(net: Network, p: Parsers, node: Node, all: seq<Ticket>, spent: seq<SpentTicket>,
                  rest: seq<TicketTuple>, scripts: seq<string>, from: nat, h: nat)
    requires from <= h < |node.chain| && NoFalseNegatives(node, p, Elements(all)) && !node.matchAny(h, scripts)
    requires Scanned(net, p, node.chain, all, spent, rest, scripts, from, h - 1)
    ensures Scanned(net, p, node.chain, all, spent, rest, scripts, from, h)
  {
    ExtendReport(net, p, node.chain, spent, from, h - 1, h);
    forall k | 0 <= k < |rest|
      ensures FirstSpend(node.chain, rest[k].hash, from, h) == None
    {
      assert DbTickets(rest)[k] in multiset(all);
      assert rest[k].dbTicket in Elements(all) && scripts[k] in scripts;
      ExtendSpend(node.chain, rest[k].hash, from, h - 1);
    }
  }

  lemma {:induction false} NaiveScanOfSpent(net: Network, p: Parsers, chain: seq<Block>, spent: seq<SpentTicket>, from: nat, upto: int)
    requires upto < |chain| && Reported(net, p, chain, spent, from, upto)
    ensures NaiveScan(net, p, chain, SpentDbTickets(spent), from, upto) == spent
  {
    if spent != [] {
      assert Reported(net, p, chain, spent[1..], from, upto);
      NaiveScanOfSpent(net, p, chain, spent[1..], from, upto);
      assert SpentDbTickets(spent)[1..] == SpentDbTickets(spent[1..]);
    }
  }

  lemma {:induction false} NaiveScanOfUnspent(net: Network, p: Parsers, chain: seq<Block>, rest: seq<TicketTuple>, scripts: seq<string>, from: nat, upto: int)
    requires upto < |chain| && Unspent(chain, rest, 0, |rest|, from, upto) && Paired(p, rest, scripts)
    ensures NaiveScan(net, p, chain, DbTickets(rest), from, upto) == []
  {
    if rest != [] {
      NaiveScanOfUnspent(net, p, chain, rest[1..], scripts[1..], from, upto);
      assert DbTickets(rest)[1..] == DbTickets(rest[1..]);
    }
  }

  /** A settled scan that stopped at the end, or early with no ticket left, has
      reported exactly what the naive scan reports. */
  lemma ScanIsNaive(net: Network, p: Parsers, chain: seq<Block>, all: seq<Ticket>, spent: seq<SpentTicket>,
                    rest: seq<TicketTuple>, scripts: seq<string>, from: nat, upto: int, end: int)
    requires Scanned(net, p, chain, all, spent, rest, scripts, from, upto)
    requires upto <= end < |chain| && (upto == end || rest == [])
    ensures multiset(spent) == multiset(NaiveScan(net, p, chain, all, from, end))
  {
    var found, left := SpentDbTickets(spent), DbTickets(rest);
    assert multiset(all) == multiset(found + left);
    ExtendReport(net, p, chain, spent, from, upto, end);
    NaiveScanPermutes(net, p, chain, all, found + left, from, end);
    NaiveScanConcat(net, p, chain, found, left, from, end);
    NaiveScanOfSpent(net, p, chain, spent, from, end);
    NaiveScanOfUnspent(net, p, chain, rest, scripts, from, end);
    assert spent + [] == spent;
  }

  /** The innermost loop: the first transaction of the block that spends the ticket. */
  method FindSpender(block: Block, hash: string) returns (r: Option<Tx>)
    ensures r == FirstTx(block, hash)
  {
    for j := 0 to |block|
      invariant FirstTx(block, hash) == FirstTx(block[j..], hash)
    {
      var spends := TxSpendsTicket(block[j], hash);
      if spends {
        return Some(block[j]);
      }
    }
    return None;
  }

  /** Both lists lose the same index, so they stay paired. */
  method RemoveBoth(tickets: array<TicketTuple>, scripts: array<string>, n: nat, i: nat) returns (m: nat)
    requires i < n <= tickets.Length && n <= scripts.Length
    modifies tickets, scripts
    ensures m == n - 1
    ensures tickets[..m] == SwapRemove(old(tickets[..n]), i) && scripts[..m] == SwapRemove(old(scripts[..n]), i)
  {
    var _ := NonOrderPreservingRemove(tickets, n, i);
    m := NonOrderPreservingRemove(scripts, n, i);
  }

  /** The middle loop: every ticket left against the block at height h. Removing a
      ticket puts another at its index, so the index is stepped back and repeated. */
  method ScanBlock(net: Network, p: Parsers, chain: seq<Block>, tickets: array<TicketTuple>, scripts: array<string>,
                   n: nat, spent: seq<SpentTicket>, h: nat, ghost all: seq<Ticket>, ghost from: nat)
    returns (n': nat, spent': seq<SpentTicket>)
    requires n <= tickets.Length && n <= scripts.Length && from <= h < |chain|
    requires Scanned(net, p, chain, all, spent, tickets[..n], scripts[..n], from, h - 1)
    modifies tickets, scripts
    ensures n' <= n
    ensures Scanned(net, p, chain, all, spent', tickets[..n'], scripts[..n'], from, h)
  {
    n', spent' := n, spent;
    BeginBlock(net, p, chain, all, spent, tickets[..n], scripts[..n], from, h);
    var i := 0;
    while i < n'
      invariant 0 <= i <= n' <= n
      invariant Scanning(net, p, chain, all, spent', tickets[..n'], scripts[..n'], i, from, h)
      decreases n' - i
    {
      ghost var ts, ss := tickets[..n'], scripts[..n'];
      var ticket := tickets[i];
      var spender := FindSpender(chain[h], ticket.hash);
      if spender.Some? {
        var e := SpentTicket(ticket.dbTicket, ticket.dbTicket.purchaseHeight + net.ticketMaturity + net.ticketExpiry,
                             h, spender.value);
        ReportTicket(net, p, chain, all, spent', ts, ss, i, from, h, e);
        spent' := spent' + [e];
        n' := RemoveBoth(tickets, scripts, n', i);
        i := i - 1;
      } else {
        KeepTicket(net, p, chain, all, spent', ts, ss, i, from, h);
      }
      i := i + 1;
    }
  }

  /** The commitment script and parsed hash of each ticket, in list order. */
  method ParseTickets(p: Parsers, toCheck: seq<Ticket>)
    returns (r: Result<(seq<TicketTuple>, seq<string>), ScanError>)
    ensures r.Ok? ==> Paired(p, r.value.0, r.value.1) && DbTickets(r.value.0) == toCheck
    ensures r.Ok? <==> Parseable(p, toCheck)
  {
    var tickets: seq<TicketTuple>, scripts: seq<string> := [], [];
    for k := 0 to |toCheck|
      invariant |tickets| == k && Paired(p, tickets, scripts) && Parseable(p, toCheck[..k])
      invariant DbTickets(tickets) == toCheck[..k]
    {
      var ticket := toCheck[k];
      assert ticket in toCheck;
      var script := p.paymentScript(ticket.commitmentAddress);
      if script.None? {
        return Err(BadAddress);
      }
      var hash := p.parseHash(ticket.hash);
      if hash.None? {
        return Err(BadHash);
      }
      tickets := tickets + [TicketTuple(ticket, hash.value)];
      scripts := scripts + [script.value];
      assert toCheck[..k+1] == toCheck[..k] + [ticket];
    }
    assert toCheck[..|toCheck|] == toCheck;
    return Ok((tickets, scripts));
  }

  ghost predicate Parseable(p: Parsers, list: seq<Ticket>) {
    forall t | t in list :: p.paymentScript(t.commitmentAddress).Some? && p.parseHash(t.hash).Some?
  }

  /** The node answers every request of a scan from the given height. */
  ghost predicate AllAnswered(node: Node, from: int) {
    && node.blockCountOk && 0 <= from
    && forall h | from <= h < |node.chain| :: node.headerAndFilterOk(h) && node.blockOk(h) && !node.cancelled(h)
  }

  method ToSlice<T>(s: seq<T>) returns (a: array<T>)
    ensures fresh(a) && a[..] == s
  {
    a := new T[|s|](i requires 0 <= i < |s| => s[i]);
  }

  lemma BeginScan(net: Network, p: Parsers, chain: seq<Block>, all: seq<Ticket>,
                  rest: seq<TicketTuple>, scripts: seq<string>, from: nat)
    requires Paired(p, rest, scripts) && DbTickets(rest) == all && from <= |chain|
    ensures Scanned(net, p, chain, all, [], rest, scripts, from, from - 1)
  {
    assert SpentDbTickets([]) == [];
  }

  /** The body of the outer loop: the block is read only if the filter matches, and
      the scan is done once that leaves no ticket. */
  method ScanHeight(net: Network, p: Parsers, node: Node, tickets: array<TicketTuple>, scripts: array<string>,
                    n: nat, spent: seq<SpentTicket>, h: nat, ghost all: seq<Ticket>, ghost from: nat)
    returns (err: Option<ScanError>, n': nat, spent': seq<SpentTicket>, done: bool)
    requires n <= tickets.Length && n <= scripts.Length && from <= h < |node.chain|
    requires NoFalseNegatives(node, p, Elements(all))
    requires Scanned(net, p, node.chain, all, spent, tickets[..n], scripts[..n], from, h - 1)
    modifies tickets, scripts
    ensures n' <= n && (done ==> n' == 0)
    ensures err.None? ==> Scanned(net, p, node.chain, all, spent', tickets[..n'], scripts[..n'], from, h)
    ensures AllAnswered(node, from) ==> err.None?
  {
    n', spent', done := n, spent, false;
    if node.cancelled(h) {
      return Some(Canceled), n, spent, false;
    }
    if !node.headerAndFilterOk(h) {
      return Some(NodeFailed), n, spent, false;
    }
    if !node.matchAny(h, scripts[..n]) {
      SkipBlock(net, p, node, all, spent, tickets[..n], scripts[..n], from, h);
      return None, n, spent, false;
    }
    if !node.blockOk(h) {
      return Some(NodeFailed), n, spent, false;
    }
    err := None;
    n', spent' := ScanBlock(net, p, node.chain, tickets, scripts, n, spent, h, all, from);
    done := n' == 0;
  }

  /** The outer loop, which stops early once no ticket is left. */
  method ScanBlocks(net: Network, p: Parsers, node: Node, tickets: array<TicketTuple>, scripts: array<string>,
                    startHeight: nat, ghost toCheck: seq<Ticket>)
    returns (r: Result<seq<SpentTicket>, ScanError>)
    requires NoFalseNegatives(node, p, Elements(toCheck)) && startHeight < |node.chain| && tickets.Length == scripts.Length
    requires Scanned(net, p, node.chain, toCheck, [], tickets[..], scripts[..], startHeight, startHeight - 1)
    modifies tickets, scripts
    ensures r.Ok? ==> multiset(r.value) == multiset(NaiveScan(net, p, node.chain, toCheck, startHeight, |node.chain| - 1))
    ensures AllAnswered(node, startHeight) ==> r.Ok?
  {
    hide *;
    var n: nat := tickets.Length;
    assert tickets[..n] == tickets[..] && scripts[..n] == scripts[..];
    var spent: seq<SpentTicket> := [];
    var endHeight := |node.chain| - 1;
    var iHeight := startHeight;
    ghost var settled := startHeight - 1;
    while iHeight <= endHeight
      invariant startHeight <= iHeight <= endHeight + 1 && settled == iHeight - 1
      invariant n <= tickets.Length && n <= scripts.Length
      invariant Scanned(net, p, node.chain, toCheck, spent, tickets[..n], scripts[..n], startHeight, settled)
    {
      var err, done;
      err, n, spent, done := ScanHeight(net, p, node, tickets, scripts, n, spent, iHeight, toCheck, startHeight);
      if err.Some? {
        return Err(err.value);
      }
      settled := iHeight;
      iHeight := iHeight + 1;
      if done {
        // Found spenders for all tickets, stop searching.
        assert tickets[..n] == [];
        ScanIsNaive(net, p, node.chain, toCheck, spent, [], scripts[..n], startHeight, settled, endHeight);
        return Ok(spent);
      }
    }
    ScanIsNaive(net, p, node.chain, toCheck, spent, tickets[..n], scripts[..n], startHeight, settled, endHeight);
    return Ok(spent);
  }

  /** A scan of [startHeight, best]: one entry for each list element that is spent
      there, naming its first spender, and the height scanned up to. */
  method FindSpentTickets(net: Network, p: Parsers, node: Node, toCheck: seq<Ticket>, startHeight: int)
    returns (r: Result<(seq<SpentTicket>, int), ScanError>)
    requires NoFalseNegatives(node, p, Elements(toCheck))
    ensures r.Ok? ==> r.value.1 == |node.chain| - 1 && 0 <= startHeight <= r.value.1
    ensures r.Ok? ==> multiset(r.value.0) == multiset(NaiveScan(net, p, node.chain, toCheck, startHeight, r.value.1))
    ensures node.blockCountOk && startHeight > |node.chain| - 1 ==> r == Err(StartAfterBest)
    ensures AllAnswered(node, startHeight) && startHeight < |node.chain| && Parseable(p, toCheck) ==> r.Ok?
  {
    hide Scanned, NaiveScan, NoFalseNegatives;
    if !node.blockCountOk {
      return Err(BlockCountFailed);
    }
    var endHeight := |node.chain| - 1;
    if startHeight > endHeight {
      return Err(StartAfterBest);
    }
    var parsed := ParseTickets(p, toCheck);
    if parsed.Err? {
      return Err(parsed.error);
    }
    if startHeight < 0 {
      // There is no block at a negative height.
      return Err(if node.cancelled(startHeight) then Canceled else NodeFailed);
    }
    // Scripts are kept in an array of their own to be passed to the filter.
    var tickets := ToSlice(parsed.value.0);
    var scripts := ToSlice(parsed.value.1);
    BeginScan(net, p, node.chain, toCheck, tickets[..], scripts[..], startHeight);
    var spent := ScanBlocks(net, p, node, tickets, scripts, startHeight, toCheck);
    if spent.Err? {
      return Err(spent.error);
    }
    return Ok((spent.value, endHeight));
  }
}
