/** acquireMapped: reference-counted semaphores, one per key, that come into
    being with the first ticket and delete themselves with the last. */
module Counters {
  /** One acquisition: its key, the semaphore object it incremented, and the
      identity of its once-only release closure. */
  datatype Ticket = Ticket(id: nat, key: string, sem: nat)

  ghost function LiveIn(open: set<Ticket>, key: string): set<Ticket> {
    set t | t in open && t.key == key
  }

  /** Counts, entries and open tickets agree; `idle` may have an entry and no ticket. */
  ghost predicate Agree(max: int, entries: map<string, nat>, counts: map<nat, int>, open: set<Ticket>, issued: nat,
                        idle: set<string>) {
    && (forall s :: s in counts ==> s < issued)
    && (forall t :: t in open ==> t.id < issued && t.key in entries && entries[t.key] == t.sem)
    && (forall k :: k in entries ==> entries[k] in counts && counts[entries[k]] == |LiveIn(open, k)|)
    && (forall k :: k in entries && k !in idle ==> 1 <= counts[entries[k]] <= max)
    && (forall j, k :: j in entries && k in entries && entries[j] == entries[k] ==> j == k)
  }

  lemma AddTicket(max: int, entries: map<string, nat>, counts: map<nat, int>, open: set<Ticket>, issued: nat,
                  key: string)
    requires Agree(max, entries, counts, open, issued, {key}) && key in entries && 0 <= counts[entries[key]] < max
    ensures var s := entries[key];
            Agree(max, entries, counts[s := counts[s] + 1], open + {Ticket(issued, key, s)}, issued + 1, {})
  {
    var t := Ticket(issued, key, entries[key]);
    assert LiveIn(open + {t}, key) == LiveIn(open, key) + {t};
    assert forall k | k != key :: LiveIn(open + {t}, k) == LiveIn(open, k);
  }

  lemma DropTicket(max: int, entries: map<string, nat>, counts: map<nat, int>, open: set<Ticket>, issued: nat,
                   t: Ticket)
    requires Agree(max, entries, counts, open, issued, {}) && t in open
    ensures Agree(max, entries, counts[t.sem := counts[t.sem] - 1], open - {t}, issued, {t.key})
    ensures 1 <= counts[t.sem] <= max
  {
    assert t in LiveIn(open, t.key);
    assert LiveIn(open - {t}, t.key) == LiveIn(open, t.key) - {t};
    assert forall k | k != t.key :: LiveIn(open - {t}, k) == LiveIn(open, k);
  }

  lemma DropEntry(max: int, entries: map<string, nat>, counts: map<nat, int>, open: set<Ticket>, issued: nat,
                  key: string)
    requires Agree(max, entries, counts, open, issued, {key}) && key in entries && counts[entries[key]] == 0
    ensures Agree(max, entries - {key}, counts, open, issued, {})
  {
    forall t | t in open ensures t.key != key {
      assert LiveIn(open, key) == {};
      assert t !in LiveIn(open, key);
    }
  }

  class CounterMap {
    const max: int
    var entries: map<string, nat>  // key to semaphore object
    var counts: map<nat, int>      // semaphore object to count, removed objects included
    var open: set<Ticket>          // tickets whose release has not run
    var issued: nat             // identities handed out so far

    constructor (max: int)
      ensures Valid() && this.max == max && open == {}
    {
      this.max, entries, counts, open, issued := max, map[], map[], {}, 0;
    }

    /** The unreleased tickets of a key. */
    ghost function Live(key: string): set<Ticket>
      reads this
    {
      LiveIn(open, key)
    }

    /** Each count is the number of live tickets, between one and the maximum,
        and an entry exists exactly while a ticket is live. */
    ghost predicate Valid()
      reads this
    {
      Agree(max, entries, counts, open, issued, {})
    }

    lemma EntryIffLive(key: string)
      requires Valid()
      ensures key in entries <==> Live(key) != {}
    {
      if key in entries { assert |Live(key)| >= 1; }
      if t :| t in Live(key) { assert t in open; }
    }

    /** A ticket is given exactly while fewer than `max` are live for the key. */
    method Acquire(key: string) returns (ok: bool, ticket: Ticket)
      requires Valid()
      modifies this
      ensures Valid()
      ensures ok <==> |old(Live(key))| < max
      ensures ok ==> ticket !in old(open) && ticket.key == key
      ensures open == if ok then old(open) + {ticket} else old(open)
    {
      EntryIffLive(key);
      ticket := Ticket(issued, key, 0);
      if key !in entries {
        if max <= 0 {
          return false, ticket;
        }
        entries, counts, issued := entries[key := issued], counts[issued := 0], issued + 1;
      }
      var s := entries[key];
      if counts[s] >= max {
        return false, ticket;
      }
      AddTicket(max, entries, counts, open, issued, key);
      ticket := Ticket(issued, key, s);
      counts, open, issued := counts[s := counts[s] + 1], open + {ticket}, issued + 1;
      return true, ticket;
    }

    /** The release closure: a second call changes nothing. */
    method Release(ticket: Ticket)
      requires Valid()
      modifies this
      ensures Valid()
      ensures open == old(open) - {ticket}
      ensures ticket !in old(open) ==> unchanged(this)
    {
      if ticket !in open {
        return;
      }
      var s, key := ticket.sem, ticket.key;
      DropTicket(max, entries, counts, open, issued, ticket);
      open, counts := open - {ticket}, counts[s := counts[s] - 1];
      if counts[s] == 0 && key in entries && entries[key] == s {
        DropEntry(max, entries, counts, open, issued, key);
        entries := entries - {key};
      }
    }

    /** Usage: exactly the keys in use, with their numbers of live tickets. */
    method Usage() returns (usage: map<string, int>)
      requires Valid()
      ensures forall k :: k in usage <==> Live(k) != {}
      ensures forall k :: k in usage ==> usage[k] == |Live(k)|
    {
      usage := map[];
      var rest := entries.Keys;
      while rest != {}
        invariant rest <= entries.Keys && usage.Keys == entries.Keys - rest
        invariant forall k :: k in usage ==> usage[k] == |Live(k)|
      {
        var k :| k in rest;
        rest := rest - {k};
        usage := usage[k := counts[entries[k]]];
      }
      forall k ensures k in usage <==> Live(k) != {} {
        EntryIffLive(k);
      }
    }
  }
}
