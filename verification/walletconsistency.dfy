/** The periodic check that every voting wallet holds every votable ticket with the
    consensus choices the store has for it. */
module WalletConsistency {
  import opened Tickets
  import opened TicketStore

  datatype Choice = Choice(agenda: string, choice: string)

  /** A ticket in a wallet: the height of the block it is in and the choices set on it. */
  datatype Held = Held(height: Int64, choices: set<Choice>)

  /** A voting wallet: its tickets by hash, the agendas it knows, and the heights it has
      been told to rescan from. */
  datatype Wallet = Wallet(tickets: map<string, Held>, agendas: set<string>, rescans: seq<Int64>) {
    function TicketInfo(startHeight: Int64): map<string, Held> {
      map h | h in tickets && tickets[h].height >= startHeight :: tickets[h]
    }

    /** A ticket the wallet holds already is left as it is. */
    function AddTicket(hash: string, height: Int64): Wallet {
      if hash in tickets then this else this.(tickets := tickets[hash := Held(height, {})])
    }

    function SetVoteChoice(hash: string, c: Choice): Wallet
      requires hash in tickets
    {
      var held := tickets[hash];
      this.(tickets := tickets[hash := Held(held.height, (set x | x in held.choices && x.agenda != c.agenda) + {c})])
    }

    /** A wallet has choices only for agendas it knows, one for each. */
    ghost predicate Valid() {
      forall h | h in tickets ::
        && (forall x | x in tickets[h].choices :: x.agenda in agendas)
        && (forall x, y | x in tickets[h].choices && y in tickets[h].choices && x.agenda == y.agenda :: x == y)
    }
  }

  /** How the calls of one check turn out: the node's answer for a ticket, and for the
      wallet at each position whether the call succeeds. An agenda the wallet does not
      know is an error of its own and does not count here. */
  datatype Env = Env(
    height: string -> Option<Int64>,
    firstInfoOk: nat -> bool,
    secondInfoOk: nat -> bool,
    addOk: (nat, string) -> bool,
    rescanOk: nat -> bool,
    setOk: (nat, string, string) -> bool,
    writeOk: (nat, string, string) -> bool)
  {
    ghost predicate WritesOk() {
      forall i, h, a :: writeOk(i, h, a)
    }

    ghost predicate NoErrors() {
      && WritesOk()
      && (forall i :: firstInfoOk(i) && secondInfoOk(i) && rescanOk(i))
      && (forall i, h :: addOk(i, h))
      && (forall i, h, a :: setOk(i, h, a))
      && (forall h :: height(h).Some?)
    }
  }

  /** The voting wallets connected to, as the calls of the check change them. */
  class Voters {
    var wallets: seq<Wallet>
  }

  // ---------- The first step: missing tickets ----------

  ghost function Votable(m: Store): set<string> {
    set h | h in m && m[h].IsVotable()
  }

  /** The votable tickets, among those in some set, that are added to the wallet. */
  ghost function Added(env: Env, i: nat, w: Wallet, oldest: Int64, hashes: set<string>): set<string> {
    if !env.firstInfoOk(i) then {}
    else set h | h in hashes && h !in w.TicketInfo(oldest) && env.height(h).Some? && env.addOk(i, h)
  }

  ghost function WithTickets(env: Env, w: Wallet, added: set<string>): map<string, Held>
    requires forall h | h in added :: env.height(h).Some?
  {
    w.tickets + map h | h in added && h !in w.tickets :: Held(env.height(h).value, {})
  }

  /** m is the height of an added ticket, and the lowest such height unless one of them is
      zero, which the code takes for a height not set yet. */
  ghost predicate Lowest(env: Env, added: set<string>, m: Int64) {
    && (exists h :: h in added && env.height(h) == Some(m))
    && ((forall h | h in added :: env.height(h) != Some(0)) ==>
          forall h | h in added && env.height(h).Some? :: m <= env.height(h).value)
  }

  /** One rescan, from the lowest height, if anything was added. */
  ghost predicate Rescanned(env: Env, i: nat, added: set<string>, was: seq<Int64>, now: seq<Int64>) {
    if added == {} || !env.rescanOk(i) then now == was
    else |now| == |was| + 1 && now[..|was|] == was && Lowest(env, added, now[|was|])
  }

  ghost predicate Filled(env: Env, i: nat, was: Wallet, now: Wallet, oldest: Int64, hashes: set<string>) {
    var added := Added(env, i, was, oldest, hashes);
    && now.agendas == was.agendas
    && now.tickets == WithTickets(env, was, added)
    && Rescanned(env, i, added, was.rescans, now.rescans)
  }

  ghost function Hashes(list: seq<Ticket>): set<string> {
    set t | t in list :: t.hash
  }

  /** The state of the loop over the votable tickets, after those with the given hashes. */
  ghost predicate Adding(env: Env, i: nat, w: Wallet, oldest: Int64, hashes: set<string>, w': Wallet, any: bool, minHeight: Int64) {
    var added := Added(env, i, w, oldest, hashes);
    && (forall h | h in added :: env.height(h).Some?)
    && (any <==> added != {})
    && w' == w.(tickets := WithTickets(env, w, added))
    && (if any then Lowest(env, added, minHeight) else minHeight == 0)
  }

  method AddMissingTickets(env: Env, i: nat, w: Wallet, votable: seq<Ticket>, oldest: Int64) returns (w': Wallet)
    ensures Filled(env, i, w, w', oldest, Hashes(votable))
  {
    w' := w;
    if !env.firstInfoOk(i) {
      return;
    }
    var walletTickets := w.TicketInfo(oldest);
    var added, minHeight: Int64 := false, 0;
    AddingStart(env, i, w, oldest, votable);
    assert votable[..|votable|] == votable;
    for k := 0 to |votable|
      invariant Adding(env, i, w, oldest, Hashes(votable[..k]), w', added, minHeight)
    {
      HashesGrow(votable, k);
      hide *;
      w', added, minHeight := AddIfMissing(env, i, w, walletTickets, votable[k].hash, w', added, minHeight,
                                           oldest, Hashes(votable[..k]));
    }
    if added && env.rescanOk(i) {
      w' := w'.(rescans := w'.rescans + [minHeight]);
    }
  }

  /** The body of the loop: the ticket is skipped, or added with its height taken into the
      minimum. */
  method AddIfMissing(env: Env, i: nat, w: Wallet, walletTickets: map<string, Held>, hash: string,
                      before: Wallet, wasAdded: bool, wasMin: Int64, ghost oldest: Int64, ghost hashes: set<string>)
    returns (w': Wallet, added: bool, minHeight: Int64)
    requires env.firstInfoOk(i) && walletTickets == w.TicketInfo(oldest)
    requires Adding(env, i, w, oldest, hashes, before, wasAdded, wasMin)
    ensures Adding(env, i, w, oldest, hashes + {hash}, w', added, minHeight)
  {
    w', added, minHeight := before, wasAdded, wasMin;
    ghost var known := Added(env, i, w, oldest, hashes);
    AddedGrows(env, i, w, oldest, hashes, hash);
    if hash in walletTickets || env.height(hash).None? || !env.addOk(i, hash) {
      assert known + {} == known;
      return;
    }
    var height := env.height(hash).value;
    LowestGrows(env, known, minHeight, hash);
    WithOne(env, w, known, hash);
    assert hash in Added(env, i, w, oldest, hashes + {hash});
    hide Added, Lowest, WithTickets;
    w' := w'.AddTicket(hash, height);
    added := true;
    if minHeight == 0 || minHeight > height {
      minHeight := height;
    }
  }

  lemma AddingStart(env: Env, i: nat, w: Wallet, oldest: Int64, votable: seq<Ticket>)
    ensures Adding(env, i, w, oldest, Hashes(votable[..0]), w, false, 0)
  {
    assert Hashes(votable[..0]) == {};
    assert WithTickets(env, w, {}) == w.tickets;
  }

  lemma HashesGrow(list: seq<Ticket>, k: nat)
    requires k < |list|
    ensures Hashes(list[..k+1]) == Hashes(list[..k]) + {list[k].hash}
  {
    assert list[..k+1] == list[..k] + [list[k]];
  }

  lemma WithOne(env: Env, w: Wallet, added: set<string>, hash: string)
    requires env.height(hash).Some? && forall h | h in added :: env.height(h).Some?
    ensures w.(tickets := WithTickets(env, w, added + {hash}))
         == w.(tickets := WithTickets(env, w, added)).AddTicket(hash, env.height(hash).value)
  {
  }

  lemma AddedGrows(env: Env, i: nat, w: Wallet, oldest: Int64, hashes: set<string>, hash: string)
    requires env.firstInfoOk(i)
    ensures Added(env, i, w, oldest, hashes + {hash})
         == Added(env, i, w, oldest, hashes)
            + if hash !in w.TicketInfo(oldest) && env.height(hash).Some? && env.addOk(i, hash) then {hash} else {}
  {
  }

  /** The loop's minimum stays the lowest when another ticket is added. */
  lemma LowestGrows(env: Env, added: set<string>, m: Int64, hash: string)
    requires env.height(hash).Some? && if added == {} then m == 0 else Lowest(env, added, m)
    ensures Lowest(env, added + {hash}, if m == 0 || m > env.height(hash).value then env.height(hash).value else m)
  {
    assert hash in added + {hash};
  }

  // ---------- The second step: choices ----------

  /** The choices left in each votable ticket, by hash. */
  type Left = map<string, map<string, string>>

  /** The agendas the store and the wallet disagree on and the wallet can be told of. */
  ghost function Accepted(env: Env, i: nat, w: Wallet, held: Held, hash: string, choices: map<string, string>): set<string> {
    set a | a in choices && Choice(a, choices[a]) !in held.choices && env.setOk(i, hash, a) && a in w.agendas
  }

  /** Those the wallet rejects because it does not know them. */
  ghost function Dropped(env: Env, i: nat, w: Wallet, held: Held, hash: string, choices: map<string, string>): set<string> {
    set a | a in choices && Choice(a, choices[a]) !in held.choices && env.setOk(i, hash, a) && a !in w.agendas
  }

  ghost function Overwrite(was: set<Choice>, agendas: set<string>, choices: map<string, string>): set<Choice>
    requires agendas <= choices.Keys
  {
    (set x | x in was && x.agenda !in agendas) + set a | a in agendas :: Choice(a, choices[a])
  }

  /** Whether the second step looks at a ticket on a wallet. */
  ghost predicate Seen(env: Env, i: nat, w: Wallet, oldest: Int64, hash: string) {
    env.secondInfoOk(i) && hash in w.TicketInfo(oldest)
  }

  ghost function HeldAfter(env: Env, i: nat, w: Wallet, hash: string, choices: map<string, string>): Held
    requires hash in w.tickets
  {
    var held := w.tickets[hash];
    Held(held.height, Overwrite(held.choices, Accepted(env, i, w, held, hash, choices), choices))
  }

  /** The wallet after the tickets in done, given the choices left when it is reached. */
  ghost function WalletAfter(env: Env, i: nat, w: Wallet, oldest: Int64, left: Left, done: set<string>): Wallet {
    w.(tickets := map h | h in w.tickets ::
      if h in done && h in left && Seen(env, i, w, oldest, h) then HeldAfter(env, i, w, h, left[h]) else w.tickets[h])
  }

  ghost function ChoicesAfter(env: Env, i: nat, w: Wallet, oldest: Int64, hash: string, choices: map<string, string>): map<string, string> {
    if Seen(env, i, w, oldest, hash) then choices - Dropped(env, i, w, w.tickets[hash], hash, choices) else choices
  }

  ghost function LeftAfter(env: Env, i: nat, w: Wallet, oldest: Int64, left: Left, done: set<string>): Left {
    map h | h in left :: if h in done then ChoicesAfter(env, i, w, oldest, h, left[h]) else left[h]
  }

  ghost predicate Sub(a: map<string, string>, b: map<string, string>) {
    forall k | k in a :: k in b && a[k] == b[k]
  }

  /** The store has at least the choices left in memory, and exactly those if every write
      succeeds; nothing else in it has changed. */
  ghost predicate StoreLags(env: Env, was: Store, left: Left, now: Store) {
    && now.Keys == was.Keys && left.Keys <= was.Keys
    && (forall h | h in was && h !in left :: now[h] == was[h])
    && (forall h | h in left :: Lags(env, was[h], left[h], now[h]))
  }

  ghost predicate Lags(env: Env, was: Ticket, left: map<string, string>, now: Ticket) {
    && now == Shown(was, now.voteChoices.Entries())
    && Sub(left, now.voteChoices.Entries()) && Sub(now.voteChoices.Entries(), was.voteChoices.Entries())
    && (env.WritesOk() ==> now.voteChoices.Entries() == left)
  }

  function Shown(t: Ticket, choices: map<string, string>): Ticket {
    t.(voteChoices := StringMap(choices))
  }

  /** The state of the loop over a ticket's agendas: gone are dropped, told are set. */
  ghost predicate Setting(env: Env, w: Wallet, hash: string, was: Store, left: Left, gone: set<string>, told: set<string>,
                          w': Wallet, t: Ticket, now: Store)
    requires hash in w.tickets && hash in was && hash in left
  {
    var held, choices := w.tickets[hash], left[hash];
    && told <= choices.Keys && hash in now
    && t == Shown(was[hash], choices - gone)
    && StoreLags(env, was, left[hash := choices - gone], now)
    && w' == w.(tickets := w.tickets[hash := Held(held.height, Overwrite(held.choices, told, choices))])
  }

  /** One ticket on one wallet. Deleting the agenda at hand does not disturb the loop. */
  method SetChoices(env: Env, i: nat, w: Wallet, walletTicket: Held, db: TicketBucket, ticket: Ticket, ghost was: Store, ghost left: Left)
    returns (w': Wallet, t: Ticket)
    requires Keyed(was) && ticket.hash in was && ticket.hash in left
    requires ticket.hash in w.tickets && walletTicket == w.tickets[ticket.hash]
    requires ticket == Shown(was[ticket.hash], left[ticket.hash]) && StoreLags(env, was, left, db.tickets)
    modifies db
    ensures var dropped := Dropped(env, i, w, w.tickets[ticket.hash], ticket.hash, left[ticket.hash]);
      && t == Shown(was[ticket.hash], left[ticket.hash] - dropped)
      && StoreLags(env, was, left[ticket.hash := left[ticket.hash] - dropped], db.tickets)
    ensures w' == w.(tickets := w.tickets[ticket.hash := HeldAfter(env, i, w, ticket.hash, left[ticket.hash])])
    ensures t.hash == ticket.hash
  {
    var hash := ticket.hash;
    w', t := w, ticket;
    var todo := ticket.voteChoices.Entries().Keys;
    ghost var dropped := Dropped(env, i, w, w.tickets[hash], hash, left[hash]);
    ghost var accepted := Accepted(env, i, w, w.tickets[hash], hash, left[hash]);
    assert dropped - todo == {} && accepted - todo == {};
    SettingStart(env, w, was, left, t, db.tickets);
    while todo != {}
      invariant todo <= left[hash].Keys
      invariant Setting(env, w, hash, was, left, dropped - todo, accepted - todo, w', t, db.tickets)
      decreases todo
    {
      hide Setting, Dropped, Accepted, StoreLags;
      var agenda :| agenda in todo;
      MinusOne(dropped, todo, agenda);
      MinusOne(accepted, todo, agenda);
      w', t := SetChoice(env, i, w, walletTicket, w', db, t, agenda, was, left, dropped - todo, accepted - todo);
      todo := todo - {agenda};
    }
    assert dropped - {} == dropped && accepted - {} == accepted;
  }

  /** The body of the loop: the wallet is told of a choice it does not have; an agenda it
      does not know is deleted from the ticket and the store. */
  method SetChoice(env: Env, i: nat, ghost w: Wallet, walletTicket: Held, before: Wallet, db: TicketBucket, ticket: Ticket,
                   agenda: string, ghost was: Store, ghost left: Left, ghost gone: set<string>, ghost told: set<string>)
    returns (w': Wallet, t: Ticket)
    requires Keyed(was) && ticket.hash in was && ticket.hash in left && ticket.hash in w.tickets
    requires ticket.hash in before.tickets && before.agendas == w.agendas && walletTicket == w.tickets[ticket.hash]
    requires Setting(env, w, ticket.hash, was, left, gone, told, before, ticket, db.tickets)
    requires agenda in left[ticket.hash] && agenda !in gone && agenda !in told
    modifies db
    ensures t.hash == ticket.hash
    ensures var held, choices := w.tickets[ticket.hash], left[ticket.hash];
      Setting(env, w, ticket.hash, was, left,
              gone + if agenda in Dropped(env, i, w, held, ticket.hash, choices) then {agenda} else {},
              told + if agenda in Accepted(env, i, w, held, ticket.hash, choices) then {agenda} else {},
              w', t, db.tickets)
  {
    var hash := ticket.hash;
    var choice := Choice(agenda, ticket.voteChoices.Entries()[agenda]);
    w', t := before, ticket;
    assert gone + {} == gone && told + {} == told;
    if choice in walletTicket.choices || !env.setOk(i, hash, agenda) {
      return;
    }
    if agenda in before.agendas {
      w' := before.SetVoteChoice(hash, choice);
      OverwriteOne(w.tickets[hash].choices, told, left[hash], agenda);
    } else {
      DropOne(left[hash], gone, agenda);
      WriteLags(env, was, left, hash, left[hash], gone, gone + {agenda}, db.tickets, env.writeOk(i, hash, agenda));
      hide StoreLags;
      t := Shown(ticket, ticket.voteChoices.Entries() - {agenda});
      var _ := db.UpdateTicket(t, env.writeOk(i, hash, agenda));
    }
  }

  lemma SettingStart(env: Env, w: Wallet, was: Store, left: Left, t: Ticket, now: Store)
    requires t.hash in was && t.hash in left && t.hash in w.tickets
    requires t == Shown(was[t.hash], left[t.hash]) && StoreLags(env, was, left, now)
    ensures Setting(env, w, t.hash, was, left, {}, {}, w, t, now)
  {
    var choices, held := left[t.hash], w.tickets[t.hash];
    assert choices - {} == choices && left[t.hash := choices] == left;
    assert Overwrite(held.choices, {}, choices) == held.choices;
    assert w.tickets[t.hash := held] == w.tickets;
  }

  lemma MinusOne(s: set<string>, todo: set<string>, a: string)
    requires a in todo
    ensures s - (todo - {a}) == (s - todo) + if a in s then {a} else {}
  {
  }

  lemma DropOne(choices: map<string, string>, gone: set<string>, a: string)
    ensures (choices - gone) - {a} == choices - (gone + {a})
  {
  }

  lemma OverwriteOne(was: set<Choice>, told: set<string>, choices: map<string, string>, a: string)
    requires told <= choices.Keys && a in choices
    ensures (set x | x in Overwrite(was, told, choices) && x.agenda != a) + {Choice(a, choices[a])}
         == Overwrite(was, told + {a}, choices)
  {
  }

  /** A write, done or failed, leaves the store no further behind. */
  lemma WriteLags(env: Env, was: Store, left: Left, hash: string, choices: map<string, string>,
                  gone: set<string>, more: set<string>, now: Store, ok: bool)
    requires Keyed(was) && hash in left && hash in was && gone <= more && (env.WritesOk() ==> ok)
    requires StoreLags(env, was, left[hash := choices - gone], now)
    ensures StoreLags(env, was, left[hash := choices - more], Put(now, Shown(was[hash], choices - more), ok))
  {
    hide Env.WritesOk;
    var t := Shown(was[hash], choices - more);
    var left' := left[hash := choices - gone];
    assert t.Normalized() == t && t.hash == hash && Lags(env, was[hash], choices - gone, now[hash]);
    LagsMore(env, was[hash], choices, gone, more, now[hash], ok);
    PutLags(env, was, left', hash, choices - more, now, if ok then t else now[hash]);
    hide StoreLags, Lags;
    assert left'[hash := choices - more] == left[hash := choices - more];
    assert now[hash := now[hash]] == now;
  }

  lemma LagsMore(env: Env, was: Ticket, choices: map<string, string>, gone: set<string>, more: set<string>, now: Ticket, ok: bool)
    requires gone <= more && (env.WritesOk() ==> ok) && Lags(env, was, choices - gone, now)
    ensures Lags(env, was, choices - more, if ok then Shown(was, choices - more) else now)
  {
    hide Env.WritesOk;
  }

  lemma PutLags(env: Env, was: Store, left: Left, hash: string, choices: map<string, string>, now: Store, t: Ticket)
    requires StoreLags(env, was, left, now) && hash in left && Lags(env, was[hash], choices, t)
    ensures StoreLags(env, was, left[hash := choices], now[hash := t])
  {
    hide Lags;
  }

  /** The list in memory shows the choices left, each ticket once. */
  ghost predicate Shows(was: Store, left: Left, list: seq<Ticket>) {
    && Hashes(list) == left.Keys && left.Keys <= was.Keys
    && ShowsEach(was, left, list) && Distinct(list)
  }

  ghost predicate ShowsEach(was: Store, left: Left, list: seq<Ticket>) {
    forall k | 0 <= k < |list| ::
      && list[k].hash in left && list[k].hash in was
      && list[k] == Shown(was[list[k].hash], left[list[k].hash])
  }

  ghost predicate Distinct(list: seq<Ticket>) {
    forall j, k | 0 <= j < k < |list| :: list[j].hash != list[k].hash
  }

  /** The state of the loop over the list, after the tickets in done. */
  ghost predicate Reached(env: Env, i: nat, w: Wallet, oldest: Int64, was: Store, left: Left, done: set<string>,
                          w': Wallet, list: seq<Ticket>, now: Store) {
    var left' := LeftAfter(env, i, w, oldest, left, done);
    w' == WalletAfter(env, i, w, oldest, left, done) && Shows(was, left', list) && StoreLags(env, was, left', now)
  }

  /** Every ticket of the list on one wallet. */
  method SetAllChoices(env: Env, i: nat, w: Wallet, db: TicketBucket, votable: seq<Ticket>, oldest: Int64, ghost was: Store, ghost left: Left)
    returns (w': Wallet, list: seq<Ticket>)
    requires Keyed(was) && Shows(was, left, votable) && StoreLags(env, was, left, db.tickets)
    modifies db
    ensures Reached(env, i, w, oldest, was, left, left.Keys, w', list, db.tickets)
  {
    w', list := w, votable;
    NoneAfter(env, i, w, oldest, left);
    if !env.secondInfoOk(i) {
      return;
    }
    var walletTickets := w.TicketInfo(oldest);
    assert Hashes(votable[..0]) == {} && votable[..|votable|] == votable;
    for k := 0 to |votable|
      invariant |list| == |votable| && forall j | 0 <= j < |list| :: list[j].hash == votable[j].hash
      invariant Reached(env, i, w, oldest, was, left, Hashes(votable[..k]), w', list, db.tickets)
    {
      HashesGrow(votable, k);
      NotDone(was, left, votable, k);
      hide Reached, Hashes, Shows;
      w', list := SetTicket(env, i, w, walletTickets, w', db, list, k, oldest, was, left, Hashes(votable[..k]));
    }
  }

  /** The body of the loop. A ticket missing from the wallet is left alone. */
  method SetTicket(env: Env, i: nat, ghost w: Wallet, walletTickets: map<string, Held>, before: Wallet, db: TicketBucket,
                   votable: seq<Ticket>, k: nat, ghost oldest: Int64, ghost was: Store, ghost left: Left, ghost done: set<string>)
    returns (w': Wallet, list: seq<Ticket>)
    requires k < |votable| && env.secondInfoOk(i) && Keyed(was) && walletTickets == w.TicketInfo(oldest)
    requires votable[k].hash in left && votable[k].hash in was && votable[k].hash !in done
    requires Reached(env, i, w, oldest, was, left, done, before, votable, db.tickets)
    modifies db
    ensures |list| == |votable| && forall j | 0 <= j < |list| :: list[j].hash == votable[j].hash
    ensures Reached(env, i, w, oldest, was, left, done + {votable[k].hash}, w', list, db.tickets)
  {
    w', list := before, votable;
    var hash := votable[k].hash;
    ghost var left' := LeftAfter(env, i, w, oldest, left, done);
    OneMore(env, i, w, oldest, left, done, hash);
    assert votable[k] == Shown(was[hash], left'[hash]);
    if hash in walletTickets {
      hide LeftAfter, WalletAfter, StoreLags, Hashes, HeldAfter, Dropped, Shows, Shown;
      var t;
      w', t := SetChoices(env, i, before, walletTickets[hash], db, votable[k], was, left');
      StillShows(was, left', votable, k, t, left[hash] - Dropped(env, i, before, walletTickets[hash], hash, left[hash]));
      list := votable[k := t];
    }
  }

  lemma NoneAfter(env: Env, i: nat, w: Wallet, oldest: Int64, left: Left)
    ensures WalletAfter(env, i, w, oldest, left, {}) == w && LeftAfter(env, i, w, oldest, left, {}) == left
    ensures !env.secondInfoOk(i) ==>
              WalletAfter(env, i, w, oldest, left, left.Keys) == w && LeftAfter(env, i, w, oldest, left, left.Keys) == left
  {
  }

  lemma NotDone(was: Store, left: Left, votable: seq<Ticket>, k: nat)
    requires Shows(was, left, votable) && k < |votable|
    ensures votable[k].hash !in Hashes(votable[..k]) && votable[k].hash in left && votable[k].hash in was
  {
  }

  /** What one more ticket changes on the wallet and in memory. */
  lemma OneMore(env: Env, i: nat, w: Wallet, oldest: Int64, left: Left, done: set<string>, hash: string)
    requires env.secondInfoOk(i) && hash in left && hash !in done
    ensures var w', left' := WalletAfter(env, i, w, oldest, left, done), LeftAfter(env, i, w, oldest, left, done);
      && hash in left' && left'[hash] == left[hash] && w'.agendas == w.agendas
      && (hash !in w.TicketInfo(oldest) ==>
            && WalletAfter(env, i, w, oldest, left, done + {hash}) == w'
            && LeftAfter(env, i, w, oldest, left, done + {hash}) == left')
      && (hash in w.TicketInfo(oldest) ==>
            && hash in w'.tickets && w'.tickets[hash] == w.tickets[hash]
            && WalletAfter(env, i, w, oldest, left, done + {hash})
               == w'.(tickets := w'.tickets[hash := HeldAfter(env, i, w', hash, left[hash])])
            && LeftAfter(env, i, w, oldest, left, done + {hash})
               == left'[hash := left[hash] - Dropped(env, i, w', w.tickets[hash], hash, left[hash])])
  {
  }

  lemma StillShows(was: Store, left: Left, list: seq<Ticket>, k: nat, t: Ticket, choices: map<string, string>)
    requires Shows(was, left, list) && k < |list| && t.hash == list[k].hash && t.hash in was
    requires t == Shown(was[t.hash], choices)
    ensures Shows(was, left[t.hash := choices], list[k := t])
    ensures forall j | 0 <= j < |list| :: list[k := t][j].hash == list[j].hash
  {
    SameHashes(list, k, t);
    OtherHashes(list, k, t);
    ShowsOther(was, left, list, k, t, choices);
    hide Hashes, Shown, ShowsEach, Distinct;
  }

  lemma ShowsOther(was: Store, left: Left, list: seq<Ticket>, k: nat, t: Ticket, choices: map<string, string>)
    requires ShowsEach(was, left, list) && k < |list| && t.hash == list[k].hash && t.hash in was
    requires forall j | 0 <= j < |list| && j != k :: list[j].hash != t.hash
    requires t == Shown(was[t.hash], choices)
    ensures ShowsEach(was, left[t.hash := choices], list[k := t])
  {
    hide Shown;
  }

  lemma OtherHashes(list: seq<Ticket>, k: nat, t: Ticket)
    requires k < |list| && Distinct(list) && t.hash == list[k].hash
    ensures Distinct(list[k := t])
    ensures forall j | 0 <= j < |list| && j != k :: list[j].hash != t.hash
  {
  }

  lemma SameHashes(list: seq<Ticket>, k: nat, t: Ticket)
    requires k < |list| && t.hash == list[k].hash
    ensures Hashes(list[k := t]) == Hashes(list)
  {
    forall j | 0 <= j < |list| ensures list[j].hash == list[k := t][j].hash {
    }
    assert forall u | u in list :: exists j :: 0 <= j < |list| && list[j] == u;
  }

  // ---------- The whole check ----------

  /** The choices left in memory when the second step reaches the wallet at i. */
  ghost function LeftAt(env: Env, mid: seq<Wallet>, oldest: Int64, m: Store, i: nat): Left
    requires i <= |mid|
  {
    if i == 0 then map h | h in Votable(m) :: m[h].voteChoices.Entries()
    else LeftAfter(env, i - 1, mid[i-1], oldest, LeftAt(env, mid, oldest, m, i - 1), Votable(m))
  }

  /** The lowest purchase height of a votable ticket, or zero. */
  ghost predicate IsOldest(m: Store, oldest: Int64) {
    && (oldest != 0 ==> exists h :: h in Votable(m) && m[h].purchaseHeight == oldest)
    && forall h | h in Votable(m) && m[h].purchaseHeight != 0 :: oldest <= m[h].purchaseHeight
  }

  /** Store and wallets after the check, by way of the wallets after its first step. */
  ghost predicate CheckedVia(env: Env, m: Store, ws: seq<Wallet>, oldest: Int64, mid: seq<Wallet>, m': Store, ws': seq<Wallet>) {
    && |mid| == |ws| && |ws'| == |ws| && IsOldest(m, oldest)
    && (forall i | 0 <= i < |ws| :: Filled(env, i, ws[i], mid[i], oldest, Votable(m)))
    && (forall i | 0 <= i < |ws| ::
          ws'[i] == WalletAfter(env, i, mid[i], oldest, LeftAt(env, mid, oldest, m, i), Votable(m)))
    && StoreLags(env, m, LeftAt(env, mid, oldest, m, |mid|), m')
  }

  ghost predicate Checked(env: Env, m: Store, ws: seq<Wallet>, m': Store, ws': seq<Wallet>) {
    if ws == [] || Votable(m) == {} then m' == m && ws' == ws
    else exists oldest, mid :: CheckedVia(env, m, ws, oldest, mid, m', ws')
  }

  method CheckWalletConsistency(env: Env, voters: Voters, db: TicketBucket)
    requires Keyed(db.tickets)
    modifies voters, db
    ensures Checked(env, old(db.tickets), old(voters.wallets), db.tickets, voters.wallets)
  {
    if voters.wallets == [] {
      return;
    }
    ghost var m, ws := db.tickets, voters.wallets;
    var votable := db.FilterTickets((t: Ticket) => t.IsVotable());
    ListedVotable(m, votable);
    if |votable| == 0 {
      return;
    }
    var oldestHeight := EarliestPurchaseHeight(votable);
    OldestListed(m, votable, oldestHeight);
    hide *;
    FillWallets(env, voters, votable, oldestHeight);
    ghost var mid := voters.wallets;
    var list := SetChoicesOnWallets(env, voters, db, votable, oldestHeight);
    CheckDone(env, m, ws, oldestHeight, mid, list, db.tickets, voters.wallets);
  }

  lemma CheckDone(env: Env, m: Store, ws: seq<Wallet>, oldest: Int64, mid: seq<Wallet>, list: seq<Ticket>, m': Store, ws': seq<Wallet>)
    requires ws != [] && Votable(m) != {} && IsOldest(m, oldest) && |mid| == |ws|
    requires forall i | 0 <= i < |ws| :: Filled(env, i, ws[i], mid[i], oldest, Votable(m))
    requires SetBelow(env, m, mid, oldest, |mid|, ws') && AtWallet(env, m, mid, oldest, |mid|, list, m')
    ensures Checked(env, m, ws, m', ws')
  {
    hide Filled, WalletAfter, LeftAt, StoreLags, IsOldest, Shows, Votable;
    assert CheckedVia(env, m, ws, oldest, mid, m', ws');
  }

  lemma ListedVotable(m: Store, votable: seq<Ticket>)
    requires Keyed(m) && Lists(m, (t: Ticket) => t.IsVotable(), votable)
    ensures Hashes(votable) == Votable(m) && (votable == [] <==> Votable(m) == {})
    ensures forall h | h in Votable(m) :: m[h] in votable
    ensures forall k | 0 <= k < |votable| :: votable[k].hash in m && votable[k] == m[votable[k].hash]
    ensures forall j, k | 0 <= j < k < |votable| :: votable[j].hash != votable[k].hash
  {
    assert forall k | 0 <= k < |votable| :: votable[k] in votable;
    assert votable != [] ==> votable[0].hash in Votable(m);
  }

  lemma OldestListed(m: Store, votable: seq<Ticket>, oldest: Int64)
    requires Hashes(votable) == Votable(m)
    requires forall h | h in Votable(m) :: m[h] in votable
    requires forall t | t in votable && t.purchaseHeight != 0 :: oldest <= t.purchaseHeight
    requires oldest != 0 ==> exists t :: t in votable && t.purchaseHeight == oldest
    requires forall t | t in votable :: t.hash in m && m[t.hash] == t
    ensures IsOldest(m, oldest)
  {
  }

  /** The first step. */
  method FillWallets(env: Env, voters: Voters, votable: seq<Ticket>, oldest: Int64)
    modifies voters
    ensures |voters.wallets| == |old(voters.wallets)|
    ensures forall i | 0 <= i < |voters.wallets| :: Filled(env, i, old(voters.wallets)[i], voters.wallets[i], oldest, Hashes(votable))
  {
    hide Filled, Hashes;
    for i := 0 to |voters.wallets|
      invariant |voters.wallets| == |old(voters.wallets)|
      invariant forall j | 0 <= j < i :: Filled(env, j, old(voters.wallets)[j], voters.wallets[j], oldest, Hashes(votable))
      invariant forall j | i <= j < |voters.wallets| :: voters.wallets[j] == old(voters.wallets)[j]
    {
      var w := AddMissingTickets(env, i, voters.wallets[i], votable, oldest);
      voters.wallets := voters.wallets[i := w];
    }
  }

  /** The second step. An agenda deleted from the list while one wallet is checked is gone
      for the wallets after it. */
  method SetChoicesOnWallets(env: Env, voters: Voters, db: TicketBucket, votable: seq<Ticket>, oldest: Int64)
    returns (list: seq<Ticket>)
    requires Keyed(db.tickets) && Lists(db.tickets, (t: Ticket) => t.IsVotable(), votable)
    modifies voters, db
    ensures |voters.wallets| == |old(voters.wallets)|
    ensures SetBelow(env, old(db.tickets), old(voters.wallets), oldest, |voters.wallets|, voters.wallets)
    ensures AtWallet(env, old(db.tickets), old(voters.wallets), oldest, |old(voters.wallets)|, list, db.tickets)
  {
    ghost var m, mid := db.tickets, voters.wallets;
    list := votable;
    ShowsAll(env, m, mid, oldest, votable);
    SetNone(env, m, mid, oldest);
    hide *;
    for i := 0 to |voters.wallets|
      invariant |voters.wallets| == |mid|
      invariant SetBelow(env, m, mid, oldest, i, voters.wallets)
      invariant AtWallet(env, m, mid, oldest, i, list, db.tickets)
    {
      SetOneMore(env, m, mid, oldest, i, voters.wallets);
      var w;
      w, list := CheckChoices(env, i, voters.wallets[i], db, list, oldest, m, mid);
      voters.wallets := voters.wallets[i := w];
    }
  }

  /** The wallets below i are checked, the others as they were. */
  ghost predicate SetBelow(env: Env, m: Store, mid: seq<Wallet>, oldest: Int64, i: nat, ws: seq<Wallet>) {
    && |ws| == |mid|
    && (forall j | 0 <= j < i && j < |mid| ::
          ws[j] == WalletAfter(env, j, mid[j], oldest, LeftAt(env, mid, oldest, m, j), Votable(m)))
    && (forall j | i <= j < |mid| :: ws[j] == mid[j])
  }

  lemma SetNone(env: Env, m: Store, mid: seq<Wallet>, oldest: Int64)
    ensures SetBelow(env, m, mid, oldest, 0, mid)
  {
  }

  lemma SetOneMore(env: Env, m: Store, mid: seq<Wallet>, oldest: Int64, i: nat, ws: seq<Wallet>)
    requires i < |mid| && SetBelow(env, m, mid, oldest, i, ws)
    ensures ws[i] == mid[i]
    ensures SetBelow(env, m, mid, oldest, i + 1,
                     ws[i := WalletAfter(env, i, mid[i], oldest, LeftAt(env, mid, oldest, m, i), Votable(m))])
  {
    hide WalletAfter, LeftAt, Votable;
  }

  /** The state when the second step reaches the wallet at i. */
  ghost predicate AtWallet(env: Env, m: Store, mid: seq<Wallet>, oldest: Int64, i: nat, list: seq<Ticket>, now: Store)
    requires i <= |mid|
  {
    var left := LeftAt(env, mid, oldest, m, i);
    left.Keys == Votable(m) && Shows(m, left, list) && StoreLags(env, m, left, now)
  }

  /** The body of the second step's loop. */
  method CheckChoices(env: Env, i: nat, w: Wallet, db: TicketBucket, votable: seq<Ticket>, oldest: Int64, ghost m: Store, ghost mid: seq<Wallet>)
    returns (w': Wallet, list: seq<Ticket>)
    requires Keyed(m) && i < |mid| && w == mid[i] && AtWallet(env, m, mid, oldest, i, votable, db.tickets)
    modifies db
    ensures w' == WalletAfter(env, i, mid[i], oldest, LeftAt(env, mid, oldest, m, i), Votable(m))
    ensures AtWallet(env, m, mid, oldest, i + 1, list, db.tickets)
  {
    hide Shows, StoreLags, WalletAfter, Votable, LeftAfter, Wallet.TicketInfo;
    w', list := SetAllChoices(env, i, w, db, votable, oldest, m, LeftAt(env, mid, oldest, m, i));
    LeftKeys(env, mid, oldest, m, i + 1);
  }

  lemma {:induction false} LeftKeys(env: Env, mid: seq<Wallet>, oldest: Int64, m: Store, n: nat)
    requires n <= |mid|
    ensures LeftAt(env, mid, oldest, m, n).Keys == Votable(m)
  {
    if n > 0 {
      LeftKeys(env, mid, oldest, m, n - 1);
    }
  }

  lemma ShowsAll(env: Env, m: Store, mid: seq<Wallet>, oldest: Int64, votable: seq<Ticket>)
    requires Keyed(m) && Lists(m, (t: Ticket) => t.IsVotable(), votable)
    ensures AtWallet(env, m, mid, oldest, 0, votable, m)
  {
    ListedVotable(m, votable);
  }

  // ---------- What the check achieves ----------

  /** Every wallet holds every votable ticket and has every choice of the store. */
  ghost predicate Settled(m: Store, ws: seq<Wallet>) {
    forall i, h | 0 <= i < |ws| && h in Votable(m) :: Agrees(ws[i], h, m[h])
  }

  ghost predicate Agrees(w: Wallet, h: string, t: Ticket) {
    && h in w.tickets && w.tickets[h].height == t.purchaseHeight
    && forall a | a in t.voteChoices.Entries() :: Choice(a, t.voteChoices.Entries()[a]) in w.tickets[h].choices
  }

  /** Spelled out: each wallet holds each ticket with a confirmed fee and no outcome, at its
      purchase height, with every consensus choice the store has for it. */
  lemma SettledSays(m: Store, ws: seq<Wallet>)
    ensures Settled(m, ws) <==>
            forall i, h | 0 <= i < |ws| && h in m && m[h].feeTxStatus == FeeConfirmed && m[h].outcome == Outcome.Votable ::
              && h in ws[i].tickets && ws[i].tickets[h].height == m[h].purchaseHeight
              && forall a | a in m[h].voteChoices.Entries() ::
                   Choice(a, m[h].voteChoices.Entries()[a]) in ws[i].tickets[h].choices
  {
    if forall i, h | 0 <= i < |ws| && h in m && m[h].feeTxStatus == FeeConfirmed && m[h].outcome == Outcome.Votable ::
         && h in ws[i].tickets && ws[i].tickets[h].height == m[h].purchaseHeight
         && forall a | a in m[h].voteChoices.Entries() ::
              Choice(a, m[h].voteChoices.Entries()[a]) in ws[i].tickets[h].choices
    {
      assert Settled(m, ws);
    }
    if Settled(m, ws) {
      forall i, h | 0 <= i < |ws| && h in m && m[h].feeTxStatus == FeeConfirmed && m[h].outcome == Outcome.Votable
        ensures Agrees(ws[i], h, m[h])
      {
      }
    }
  }

  /** The heights the store, the node and the wallets have for a votable ticket are one. */
  ghost predicate HeightsAgree(env: Env, m: Store, ws: seq<Wallet>) {
    forall h | h in Votable(m) ::
      && m[h].purchaseHeight != 0
      && (env.height(h).Some? ==> env.height(h).value == m[h].purchaseHeight)
      && forall i | 0 <= i < |ws| && h in ws[i].tickets :: ws[i].tickets[h].height == m[h].purchaseHeight
  }

  /** The agendas of a ticket that some wallet does not know. */
  ghost function Unknown(ws: seq<Wallet>, n: nat, t: Ticket): set<string>
    requires n <= |ws|
  {
    set a | a in t.voteChoices.Entries() && exists i :: 0 <= i < n && a !in ws[i].agendas
  }

  lemma NothingAdded(env: Env, i: nat, w: Wallet, w': Wallet, oldest: Int64, hashes: set<string>)
    requires Filled(env, i, w, w', oldest, hashes) && forall h | h in hashes :: h in w.TicketInfo(oldest)
    ensures w' == w
  {
    assert Added(env, i, w, oldest, hashes) == {};
    assert WithTickets(env, w, {}) == w.tickets;
  }

  lemma FilledAlready(env: Env, m: Store, ws: seq<Wallet>, oldest: Int64, mid: seq<Wallet>, m': Store, ws': seq<Wallet>)
    requires Settled(m, ws) && HeightsAgree(env, m, ws) && CheckedVia(env, m, ws, oldest, mid, m', ws')
    ensures mid == ws
  {
    forall i | 0 <= i < |ws| ensures mid[i] == ws[i] {
      forall h | h in Votable(m) ensures h in ws[i].TicketInfo(oldest) {
        assert Agrees(ws[i], h, m[h]);
      }
      hide Filled, HeightsAgree, Agrees, IsOldest, Votable;
      NothingAdded(env, i, ws[i], mid[i], oldest, Votable(m));
    }
  }

  /** On a wallet that agrees there is nothing to set and nothing to drop. */
  lemma NothingSet(env: Env, i: nat, w: Wallet, oldest: Int64, m: Store, left: Left)
    requires left == map h | h in Votable(m) :: m[h].voteChoices.Entries()
    requires forall h | h in Votable(m) :: Agrees(w, h, m[h])
    ensures WalletAfter(env, i, w, oldest, left, Votable(m)) == w
    ensures LeftAfter(env, i, w, oldest, left, Votable(m)) == left
  {
    forall h | h in Votable(m)
      ensures h in w.tickets && HeldAfter(env, i, w, h, left[h]) == w.tickets[h]
      ensures ChoicesAfter(env, i, w, oldest, h, left[h]) == left[h]
    {
      assert Agrees(w, h, m[h]);
      var held := w.tickets[h];
      assert Accepted(env, i, w, held, h, left[h]) == {} && Dropped(env, i, w, held, h, left[h]) == {};
      assert Overwrite(held.choices, {}, left[h]) == held.choices;
      assert left[h] - {} == left[h];
    }
    hide HeldAfter, ChoicesAfter, Agrees, Votable;
  }

  lemma {:induction false} LeftStays(env: Env, m: Store, ws: seq<Wallet>, oldest: Int64, n: nat)
    requires n <= |ws| && Settled(m, ws)
    ensures LeftAt(env, ws, oldest, m, n) == LeftAt(env, ws, oldest, m, 0)
  {
    if n > 0 {
      LeftStays(env, m, ws, oldest, n - 1);
      NothingSet(env, n - 1, ws[n-1], oldest, m, LeftAt(env, ws, oldest, m, 0));
    }
  }

  lemma NothingWritten(env: Env, m: Store, m': Store)
    requires Keyed(m) && StoreLags(env, m, map h | h in Votable(m) :: m[h].voteChoices.Entries(), m')
    ensures m' == m
  {
    forall h | h in Votable(m) ensures m'[h] == m[h] {
      assert Lags(env, m[h], m[h].voteChoices.Entries(), m'[h]);
      assert m'[h].voteChoices.Entries() == m[h].voteChoices.Entries();
    }
    hide Votable, Lags;
  }

  /** A check of a settled store, whatever fails in it, changes nothing. */
  lemma SettledIsFixed(env: Env, m: Store, ws: seq<Wallet>, m': Store, ws': seq<Wallet>)
    requires Keyed(m) && Settled(m, ws) && HeightsAgree(env, m, ws) && Checked(env, m, ws, m', ws')
    ensures m' == m && ws' == ws
  {
    if ws != [] && Votable(m) != {} {
      var oldest, mid :| CheckedVia(env, m, ws, oldest, mid, m', ws');
      FilledAlready(env, m, ws, oldest, mid, m', ws');
      forall i | 0 <= i < |ws| ensures ws'[i] == ws[i] {
        LeftStays(env, m, ws, oldest, i);
        NothingSet(env, i, ws[i], oldest, m, LeftAt(env, ws, oldest, m, 0));
        hide WalletAfter, LeftAfter, Votable, StoreLags, Filled, HeightsAgree, IsOldest, Agrees;
      }
      LeftStays(env, m, ws, oldest, |ws|);
      NothingWritten(env, m, m');
    }
  }

  // A check without errors.

  /** After the first step every wallet holds every votable ticket. */
  lemma FilledComplete(env: Env, i: nat, w: Wallet, w': Wallet, m: Store, oldest: Int64)
    requires env.NoErrors() && w.Valid() && HeightsAgree(env, m, [w]) && IsOldest(m, oldest)
    requires Filled(env, i, w, w', oldest, Votable(m))
    ensures w'.Valid() && w'.agendas == w.agendas
    ensures forall h | h in Votable(m) :: h in w'.TicketInfo(oldest) && w'.tickets[h].height == m[h].purchaseHeight
    ensures Added(env, i, w, oldest, Votable(m)) == set h | h in Votable(m) && h !in w.tickets
  {
    hide Rescanned;
    assert [w][0] == w;
  }

  /** What the second step makes of one ticket on one wallet: the wallet has every choice
      whose agenda it knows, and the others are dropped. */
  lemma ChoicesSet(env: Env, i: nat, w: Wallet, h: string, choices: map<string, string>)
    requires env.NoErrors() && w.Valid() && h in w.tickets
    ensures forall a | a in choices && a in w.agendas :: Choice(a, choices[a]) in HeldAfter(env, i, w, h, choices).choices
  {
  }

  lemma ChoicesKept(env: Env, i: nat, w: Wallet, oldest: Int64, h: string, choices: map<string, string>)
    requires env.NoErrors() && w.Valid() && h in w.TicketInfo(oldest)
    ensures ChoicesAfter(env, i, w, oldest, h, choices) == KnownTo(w, choices)
  {
  }

  ghost function KnownTo(w: Wallet, choices: map<string, string>): map<string, string> {
    map a | a in choices && a in w.agendas :: choices[a]
  }

  /** The choices left when the second step reaches the wallet at n are those of agendas
      every wallet before it knows. */
  lemma {:induction false} LeftIsKnown(env: Env, m: Store, ws: seq<Wallet>, mid: seq<Wallet>, oldest: Int64, n: nat)
    requires env.NoErrors() && n <= |mid| == |ws|
    requires forall i | 0 <= i < |ws| :: mid[i].Valid() && mid[i].agendas == ws[i].agendas
    requires forall i, h | 0 <= i < |ws| && h in Votable(m) :: h in mid[i].TicketInfo(oldest)
    ensures KnownLeft(m, ws, n, LeftAt(env, mid, oldest, m, n))
  {
    if n == 0 {
      assert forall h | h in Votable(m) :: m[h].voteChoices.Entries() - Unknown(ws, 0, m[h]) == m[h].voteChoices.Entries();
    } else {
      LeftIsKnown(env, m, ws, mid, oldest, n - 1);
      hide KnownLeft, LeftAfter;
      KnownStep(env, m, ws, n, mid[n-1], oldest, LeftAt(env, mid, oldest, m, n - 1));
    }
  }

  /** Left in each votable ticket are the choices whose agendas the first n wallets know. */
  ghost predicate KnownLeft(m: Store, ws: seq<Wallet>, n: nat, left: Left)
    requires n <= |ws|
  {
    && left.Keys == Votable(m)
    && forall h | h in Votable(m) :: left[h] == m[h].voteChoices.Entries() - Unknown(ws, n, m[h])
  }

  lemma KnownStep(env: Env, m: Store, ws: seq<Wallet>, n: nat, w: Wallet, oldest: Int64, left: Left)
    requires env.NoErrors() && 0 < n <= |ws| && w.Valid() && w.agendas == ws[n-1].agendas
    requires KnownLeft(m, ws, n - 1, left)
    requires forall h | h in Votable(m) :: h in w.TicketInfo(oldest)
    ensures KnownLeft(m, ws, n, LeftAfter(env, n - 1, w, oldest, left, Votable(m)))
  {
    assert Votable(m) <= m.Keys;
    hide Votable, ChoicesAfter, KnownTo, Unknown, Env.NoErrors, Wallet.Valid, Wallet.TicketInfo;
    forall h | h in Votable(m)
      ensures ChoicesAfter(env, n - 1, w, oldest, h, left[h]) == m[h].voteChoices.Entries() - Unknown(ws, n, m[h])
    {
      ChoicesKept(env, n - 1, w, oldest, h, left[h]);
      KnownToMore(ws, n, w, m[h]);
    }
  }

  lemma KnownToMore(ws: seq<Wallet>, n: nat, w: Wallet, t: Ticket)
    requires 0 < n <= |ws| && w.agendas == ws[n-1].agendas
    ensures KnownTo(w, t.voteChoices.Entries() - Unknown(ws, n - 1, t)) == t.voteChoices.Entries() - Unknown(ws, n, t)
  {
    UnknownGrows(ws, n, t);
    hide Unknown;
  }

  lemma UnknownGrows(ws: seq<Wallet>, n: nat, t: Ticket)
    requires 0 < n <= |ws|
    ensures Unknown(ws, n, t) == Unknown(ws, n - 1, t) + set a | a in t.voteChoices.Entries() && a !in ws[n-1].agendas
  {
  }

  lemma ShownLeft(env: Env, m: Store, left: Left, m': Store)
    requires env.NoErrors() && StoreLags(env, m, left, m') && left.Keys == Votable(m)
    ensures m'.Keys == m.Keys && Votable(m') == Votable(m)
    ensures forall h | h in m :: m'[h] == if h in Votable(m) then Shown(m[h], left[h]) else m[h]
  {
    forall h | h in Votable(m) ensures m'[h] == Shown(m[h], left[h]) {
      assert Lags(env, m[h], left[h], m'[h]);
    }
  }

  /** Setting choices leaves a wallet with one choice for each agenda, all of them known to
      it, and touches no choice for another agenda and no other ticket. */
  lemma SettingStaysValid(env: Env, i: nat, w: Wallet, oldest: Int64, left: Left, done: set<string>)
    requires w.Valid()
    ensures var w' := WalletAfter(env, i, w, oldest, left, done);
      && w'.Valid() && w'.agendas == w.agendas && w'.rescans == w.rescans && w'.tickets.Keys == w.tickets.Keys
      && (forall h | h in w.tickets && (h !in done || h !in left) :: w'.tickets[h] == w.tickets[h])
      && (forall h: string, x: Choice | h in w.tickets && h in left && x.agenda !in left[h] ::
            x in w'.tickets[h].choices <==> x in w.tickets[h].choices)
  {
    forall h | h in w.tickets && h in left
      ensures var held := HeldAfter(env, i, w, h, left[h]);
        && (forall x | x in held.choices :: x.agenda in w.agendas)
        && (forall x, y | x in held.choices && y in held.choices && x.agenda == y.agenda :: x == y)
        && (forall x: Choice | x.agenda !in left[h] :: x in held.choices <==> x in w.tickets[h].choices)
    {
    }
    hide HeldAfter, Seen;
  }

  /** After any check every wallet still has one choice for each agenda, knows the agendas
      it knew, holds what it held, and has its old choices for tickets that are not
      votable and for agendas the store says nothing about. */
  lemma OtherChoicesStay(env: Env, m: Store, ws: seq<Wallet>, m': Store, ws': seq<Wallet>, i: nat)
    requires Checked(env, m, ws, m', ws') && i < |ws| && ws[i].Valid()
    ensures |ws'| == |ws| && ws'[i].Valid() && ws'[i].agendas == ws[i].agendas && ws[i].tickets.Keys <= ws'[i].tickets.Keys
    ensures forall h | h in ws[i].tickets && !(h in m && m[h].feeTxStatus == FeeConfirmed && m[h].outcome == Outcome.Votable) ::
              ws'[i].tickets[h] == ws[i].tickets[h]
    ensures forall h: string, x: Choice | h in ws[i].tickets && h in m && x.agenda !in m[h].voteChoices.Entries() ::
              x in ws'[i].tickets[h].choices <==> x in ws[i].tickets[h].choices
  {
    if ws != [] && Votable(m) != {} {
      var oldest: Int64, mid: seq<Wallet> :| CheckedVia(env, m, ws, oldest, mid, m', ws');
      var left := LeftAt(env, mid, oldest, m, i);
      LeftFewer(env, m, mid, oldest, i);
      FillingStaysValid(env, i, ws[i], mid[i], oldest, Votable(m));
      SettingStaysValid(env, i, mid[i], oldest, left, Votable(m));
      hide WalletAfter, LeftAt, Filled, StoreLags, IsOldest, Wallet.Valid;
      assert ws'[i] == WalletAfter(env, i, mid[i], oldest, left, Votable(m));
    }
  }

  lemma FillingStaysValid(env: Env, i: nat, w: Wallet, w': Wallet, oldest: Int64, hashes: set<string>)
    requires w.Valid() && Filled(env, i, w, w', oldest, hashes)
    ensures w'.Valid() && w'.agendas == w.agendas && w.tickets.Keys <= w'.tickets.Keys
    ensures forall h | h in w.tickets :: w'.tickets[h] == w.tickets[h]
  {
    hide Rescanned;
  }

  lemma {:induction false} LeftFewer(env: Env, m: Store, mid: seq<Wallet>, oldest: Int64, n: nat)
    requires n <= |mid|
    ensures LeftAt(env, mid, oldest, m, n).Keys == Votable(m)
    ensures forall h, a: string | h in Votable(m) && a in LeftAt(env, mid, oldest, m, n)[h] :: a in m[h].voteChoices.Entries()
  {
    if n > 0 {
      LeftFewer(env, m, mid, oldest, n - 1);
    }
  }

  lemma HeightsAgreeWith(env: Env, m: Store, ws: seq<Wallet>, i: nat)
    requires HeightsAgree(env, m, ws) && i < |ws|
    ensures HeightsAgree(env, m, [ws[i]])
  {
  }

  /** The wallets after the first step of a check without errors. */
  lemma AllFilled(env: Env, m: Store, ws: seq<Wallet>, oldest: Int64, mid: seq<Wallet>, m': Store, ws': seq<Wallet>)
    requires env.NoErrors() && HeightsAgree(env, m, ws) && CheckedVia(env, m, ws, oldest, mid, m', ws')
    requires forall w: Wallet | w in ws :: w.Valid()
    ensures forall i | 0 <= i < |ws| :: mid[i].Valid() && mid[i].agendas == ws[i].agendas
    ensures forall i, h | 0 <= i < |ws| && h in Votable(m) ::
              h in mid[i].TicketInfo(oldest) && mid[i].tickets[h].height == m[h].purchaseHeight
  {
    forall i | 0 <= i < |ws|
      ensures mid[i].Valid() && mid[i].agendas == ws[i].agendas
      ensures forall h | h in Votable(m) :: h in mid[i].TicketInfo(oldest) && mid[i].tickets[h].height == m[h].purchaseHeight
    {
      HeightsAgreeWith(env, m, ws, i);
      hide HeightsAgree, Filled, Wallet.Valid, IsOldest, Votable, StoreLags, WalletAfter;
      FilledComplete(env, i, ws[i], mid[i], m, oldest);
    }
  }

  /** After a check without errors every wallet holds every votable ticket and has every
      choice left in the store; the agendas deleted are exactly those some wallet does not
      know; nothing else in the store changes. */
  lemma CheckSettles(env: Env, m: Store, ws: seq<Wallet>, m': Store, ws': seq<Wallet>)
    requires Keyed(m) && env.NoErrors() && HeightsAgree(env, m, ws) && Checked(env, m, ws, m', ws')
    requires forall w: Wallet | w in ws :: w.Valid()
    ensures Settled(m', ws')
    ensures m'.Keys == m.Keys
    ensures forall h | h in m :: m'[h] ==
              if h in Votable(m) && ws != [] then Shown(m[h], m[h].voteChoices.Entries() - Unknown(ws, |ws|, m[h])) else m[h]
  {
    if ws != [] && Votable(m) != {} {
      var oldest, mid :| CheckedVia(env, m, ws, oldest, mid, m', ws');
      AllFilled(env, m, ws, oldest, mid, m', ws');
      LeftIsKnown(env, m, ws, mid, oldest, |ws|);
      ShownLeft(env, m, LeftAt(env, mid, oldest, m, |ws|), m');
      forall i, h | 0 <= i < |ws| && h in Votable(m') ensures Agrees(ws'[i], h, m'[h]) {
        LeftIsKnown(env, m, ws, mid, oldest, i);
        WalletSettles(env, m, ws, mid[i], oldest, LeftAt(env, mid, oldest, m, i), i, h);
        hide WalletAfter, LeftAt, Votable, StoreLags, Filled, HeightsAgree, IsOldest, Unknown, Agrees, Wallet.Valid;
      }
    }
  }

  /** After a check without errors a second check, whatever fails in it, changes neither
      store nor wallets. */
  lemma SecondCheckIdle(env: Env, again: Env, m: Store, ws: seq<Wallet>, m': Store, ws': seq<Wallet>, m'': Store, ws'': seq<Wallet>)
    requires Keyed(m) && env.NoErrors() && HeightsAgree(env, m, ws) && HeightsAgree(again, m, ws)
    requires forall w: Wallet | w in ws :: w.Valid()
    requires Checked(env, m, ws, m', ws') && Checked(again, m', ws', m'', ws'')
    ensures m'' == m' && ws'' == ws'
  {
    CheckSettles(env, m, ws, m', ws');
    hide Checked, Env.NoErrors, Wallet.Valid;
    assert Keyed(m');
    forall h | h in Votable(m')
      ensures h in Votable(m) && m'[h].purchaseHeight == m[h].purchaseHeight
      ensures forall i | 0 <= i < |ws'| :: h in ws'[i].tickets && ws'[i].tickets[h].height == m'[h].purchaseHeight
    {
      assert forall i | 0 <= i < |ws'| :: Agrees(ws'[i], h, m'[h]);
    }
    hide Votable, Agrees, Unknown, Shown;
    assert HeightsAgree(again, m', ws');
    SettledIsFixed(again, m', ws', m'', ws'');
  }

  lemma WalletSettles(env: Env, m: Store, ws: seq<Wallet>, w: Wallet, oldest: Int64, left: Left, i: nat, h: string)
    requires env.NoErrors() && i < |ws| && h in Votable(m)
    requires w.Valid() && w.agendas == ws[i].agendas
    requires h in w.TicketInfo(oldest) && w.tickets[h].height == m[h].purchaseHeight
    requires KnownLeft(m, ws, i, left)
    ensures Agrees(WalletAfter(env, i, w, oldest, left, Votable(m)), h,
                   Shown(m[h], m[h].voteChoices.Entries() - Unknown(ws, |ws|, m[h])))
  {
    var t, held := m[h], HeldAfter(env, i, w, h, left[h]);
    ChoicesSet(env, i, w, h, left[h]);
    assert Seen(env, i, w, oldest, h) && h in w.tickets && held.height == t.purchaseHeight;
    hide Env.NoErrors, Wallet.Valid, HeldAfter, Wallet.TicketInfo, Votable;
    forall a | a in t.voteChoices.Entries() - Unknown(ws, |ws|, t)
      ensures a in left[h] && left[h][a] == t.voteChoices.Entries()[a] && a in w.agendas
    {
      assert a !in Unknown(ws, i, t);
    }
  }

  /** One rescan, from the lowest purchase height of the tickets that were missing. */
  ghost predicate RescannedFrom(m: Store, missing: set<string>, was: seq<Int64>, now: seq<Int64>) {
    if missing == {} then now == was
    else
      && |now| == |was| + 1 && now[..|was|] == was
      && (exists h :: h in missing && h in m && m[h].purchaseHeight == now[|was|])
      && forall h | h in missing && h in m :: now[|was|] <= m[h].purchaseHeight
  }

  ghost function Missing(m: Store, w: Wallet): set<string> {
    set h | h in Votable(m) && h !in w.tickets
  }

  lemma FilledRescans(env: Env, i: nat, w: Wallet, w': Wallet, m: Store, oldest: Int64)
    requires env.NoErrors() && w.Valid() && HeightsAgree(env, m, [w]) && IsOldest(m, oldest)
    requires Filled(env, i, w, w', oldest, Votable(m))
    ensures RescannedFrom(m, Missing(m, w), w.rescans, w'.rescans)
  {
    FilledComplete(env, i, w, w', m, oldest);
    var missing := Missing(m, w);
    assert Added(env, i, w, oldest, Votable(m)) == missing;
    forall h | h in missing ensures env.height(h) == Some(m[h].purchaseHeight) && m[h].purchaseHeight != 0 {
      assert env.height(h).Some?;
    }
    hide HeightsAgree, IsOldest, Wallet.Valid, Votable, Added, WithTickets, Env.NoErrors, Missing;
    assert env.rescanOk(i) by { AllRescans(env, i); }
  }

  lemma AllRescans(env: Env, i: nat)
    requires env.NoErrors()
    ensures env.rescanOk(i)
  {
  }

  /** In a check without errors each wallet is told to rescan exactly if a votable ticket
      was missing from it, and from the lowest purchase height of those missing. */
  lemma RescansFromLowest(env: Env, m: Store, ws: seq<Wallet>, m': Store, ws': seq<Wallet>)
    requires env.NoErrors() && HeightsAgree(env, m, ws) && Checked(env, m, ws, m', ws')
    requires forall w: Wallet | w in ws :: w.Valid()
    ensures |ws'| == |ws|
    ensures forall i | 0 <= i < |ws| :: RescannedFrom(m, Missing(m, ws[i]), ws[i].rescans, ws'[i].rescans)
  {
    if ws != [] && Votable(m) != {} {
      var oldest: Int64, mid: seq<Wallet> :| CheckedVia(env, m, ws, oldest, mid, m', ws');
      forall i | 0 <= i < |ws| ensures RescannedFrom(m, Missing(m, ws[i]), ws[i].rescans, ws'[i].rescans) {
        hide Filled, Wallet.Valid, IsOldest, Votable, StoreLags, LeftAt, RescannedFrom, Missing, Env.NoErrors;
        assert ws'[i].rescans == mid[i].rescans;
        hide WalletAfter;
        HeightsAgreeWith(env, m, ws, i);
        hide HeightsAgree;
        FilledRescans(env, i, ws[i], mid[i], m, oldest);
      }
    }
  }

  // A check with errors.

  lemma {:induction false} LeftKeepsKnown(env: Env, m: Store, ws: seq<Wallet>, mid: seq<Wallet>, oldest: Int64, n: nat)
    requires n <= |mid| == |ws| && forall i | 0 <= i < |ws| :: mid[i].agendas == ws[i].agendas
    ensures LeftAt(env, mid, oldest, m, n).Keys == Votable(m)
    ensures forall h: string, a: string | h in Votable(m) && a in m[h].voteChoices.Entries() && a !in Unknown(ws, n, m[h]) ::
              a in LeftAt(env, mid, oldest, m, n)[h]
  {
    if n > 0 {
      LeftKeepsKnown(env, m, ws, mid, oldest, n - 1);
      forall h: string, a: string | h in Votable(m) && a in m[h].voteChoices.Entries() && a !in Unknown(ws, n, m[h])
        ensures a in LeftAt(env, mid, oldest, m, n)[h]
      {
        UnknownGrows(ws, n, m[h]);
        hide Unknown, Votable;
        assert a in mid[n-1].agendas;
        assert a in ChoicesAfter(env, n - 1, mid[n-1], oldest, h, LeftAt(env, mid, oldest, m, n - 1)[h]);
      }
    }
  }

  /** Whatever fails, the store loses no choice but for agendas some wallet does not know,
      and keeps everything else. */
  lemma OnlyUnknownDropped(env: Env, m: Store, ws: seq<Wallet>, m': Store, ws': seq<Wallet>, h: string)
    requires Keyed(m) && Checked(env, m, ws, m', ws') && h in m
    ensures h in m' && m'[h] == Shown(m[h], m'[h].voteChoices.Entries())
    ensures Sub(m[h].voteChoices.Entries() - Unknown(ws, |ws|, m[h]), m'[h].voteChoices.Entries())
    ensures Sub(m'[h].voteChoices.Entries(), m[h].voteChoices.Entries())
    ensures !m[h].IsVotable() ==> m'[h] == m[h]
  {
    if ws != [] && Votable(m) != {} {
      var oldest: Int64, mid: seq<Wallet> :| CheckedVia(env, m, ws, oldest, mid, m', ws');
      LeftKeepsKnown(env, m, ws, mid, oldest, |ws|);
      hide WalletAfter, LeftAt, Unknown;
      var left := LeftAt(env, mid, oldest, m, |mid|);
      assert h in left ==> Lags(env, m[h], left[h], m'[h]);
    }
  }
}
