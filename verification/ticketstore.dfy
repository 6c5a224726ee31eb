/** The ticket bucket as its users see it: decoded tickets under their hashes. The
    byte level is in Storage. Each call is one transaction that may fail. */
module TicketStore {
  import opened Tickets

  type Store = map<string, Ticket>

  /** Every ticket is stored under its own hash and has been read back without nil maps. */
  ghost predicate Keyed(m: Store) {
    forall h | h in m :: m[h].hash == h && m[h].MapsAllocated()
  }

  /** The store after UpdateTicket: an unknown hash is an error and changes nothing. */
  function Put(m: Store, t: Ticket, ok: bool): Store {
    if ok && t.hash in m then m[t.hash := t.Normalized()] else m
  }

  class TicketBucket {
    var tickets: Store

    constructor ()
      ensures tickets == map[]
    {
      tickets := map[];
    }

    /** Only a duplicate hash is rejected. */
    method InsertNewTicket(t: Ticket, ok: bool) returns (inserted: bool)
      modifies this
      ensures inserted <==> ok && t.hash !in old(tickets)
      ensures tickets == if inserted then old(tickets)[t.hash := t.Normalized()] else old(tickets)
    {
      if !ok || t.hash in tickets {
        return false;
      }
      tickets := tickets[t.hash := t.Normalized()];
      return true;
    }

    method UpdateTicket(t: Ticket, ok: bool) returns (updated: bool)
      modifies this
      ensures updated <==> ok && t.hash in old(tickets)
      ensures tickets == Put(old(tickets), t, ok)
    {
      if !ok || t.hash !in tickets {
        return false;
      }
      tickets := tickets[t.hash := t.Normalized()];
      return true;
    }

    method DeleteTicket(t: Ticket, ok: bool) returns (deleted: bool)
      modifies this
      ensures deleted <==> ok && t.hash in old(tickets)
      ensures tickets == if deleted then old(tickets) - {t.hash} else old(tickets)
    {
      if !ok || t.hash !in tickets {
        return false;
      }
      tickets := tickets - {t.hash};
      return true;
    }

    method GetTicketByHash(hash: string) returns (r: Option<Ticket>)
      ensures r == if hash in tickets then Some(tickets[hash]) else None
    {
      r := if hash in tickets then Some(tickets[hash]) else None;
    }

    /** The tickets that match, each once, in whatever order the bucket is visited. */
    method FilterTickets(filter: Ticket -> bool) returns (list: seq<Ticket>)
      requires Keyed(tickets)
      ensures Lists(tickets, filter, list)
    {
      list := [];
      var todo := tickets.Keys;
      while todo != {}
        invariant todo <= tickets.Keys
        invariant forall h | h in todo :: tickets[h] !in list
        invariant Lists(map h | h in tickets && h !in todo :: tickets[h], filter, list)
        decreases todo
      {
        var h :| h in todo;
        todo := todo - {h};
        if filter(tickets[h]) {
          list := list + [tickets[h]];
        }
      }
      assert tickets == map h | h in tickets && h !in todo :: tickets[h];
    }
  }

  /** The list holds exactly the stored tickets that match, none of them twice. */
  ghost predicate Lists(m: Store, filter: Ticket -> bool, list: seq<Ticket>) {
    && (forall t | t in list :: t.hash in m && m[t.hash] == t && filter(t))
    && (forall h | h in m && filter(m[h]) :: m[h] in list)
    && (forall i, j | 0 <= i < j < |list| :: list[i].hash != list[j].hash)
  }
}
