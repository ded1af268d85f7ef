/** The process-wide gate that bounds concurrent encodes, its replacement while encodes run,
    and the release functions handed to the encoders. */
module EncoderGate {

  /** The buffered channel: tokens is how many it holds. */
  class Gate {
    const limit: nat
    var tokens: nat

    /** A limit below one becomes one. */
    constructor (limit: int)
      ensures this.limit == (if limit < 1 then 1 else limit) && tokens == 0
    {
      this.limit := if limit < 1 then 1 else limit;
      tokens := 0;
    }
  }

  /** The function that gives a slot back; it remembers its gate and whether it has run. */
  class Ticket {
    const gate: Gate
    var once: bool

    constructor (gate: Gate)
      ensures this.gate == gate && !once
    {
      this.gate := gate;
      once := false;
    }
  }

  class Encoders {
    var current: Gate
    ghost var gates: seq<Gate>      // every gate installed so far, in order
    ghost var tickets: set<Ticket>  // every ticket handed out so far

    /** The tickets of a gate that have not been given back. */
    ghost function Held(g: Gate): set<Ticket>
      reads this, tickets
    {
      set t | t in tickets && t.gate == g && !t.once
    }

    ghost predicate Valid()
      reads this, gates, tickets
    {
      && gates != [] && current == gates[|gates| - 1]
      && (forall i, j :: 0 <= i < j < |gates| ==> gates[i] != gates[j])
      && (forall t :: t in tickets ==> t.gate in gates)
      && (forall g :: g in gates ==> g.tokens == |Held(g)| <= g.limit)
    }

    constructor (limit: int)
      ensures Valid() && fresh(current) && gates == [current] && tickets == {}
      ensures current.limit == if limit < 1 then 1 else limit
    {
      var g := new Gate(limit);
      current := g;
      gates := [g];
      tickets := {};
    }

    /** A ticket handed out is held on its own gate and changes what no other gate holds. */
    twostate lemma HandedOut(new ticket: Ticket, g: Gate)
      requires tickets == old(tickets) + {ticket} && fresh(ticket) && !ticket.once
      requires forall t :: t in old(tickets) ==> t.once == old(t.once)
      ensures ticket !in old(Held(g))
      ensures Held(g) == if g == ticket.gate then old(Held(g)) + {ticket} else old(Held(g))
    {
    }

    /** A gate that takes one more token for the ticket it hands out stays in balance. */
    twostate lemma HandingOutKeepsValid(new ticket: Ticket)
      requires old(Valid()) && gates == old(gates) && current == old(current)
      requires tickets == old(tickets) + {ticket} && fresh(ticket) && !ticket.once && ticket.gate in gates
      requires forall t :: t in old(tickets) ==> t.once == old(t.once)
      requires forall g :: g in gates ==> g.tokens == old(g.tokens) + if g == ticket.gate then 1 else 0
      requires ticket.gate.tokens <= ticket.gate.limit
      ensures Valid()
    {
      hide Held;
      forall g | g in gates
        ensures g.tokens == |Held(g)| <= g.limit
      {
        HandedOut(ticket, g);
        assert old(g.tokens == |Held(g)| <= g.limit);
      }
    }

    /** One outcome of waiting on a gate that was current when the caller looked, however many
        gates replaced it since: a token when there is room, giving up when the context is
        done, either one when both hold. While neither holds the caller waits. */
    method Acquire(gate: Gate, done: bool, preferToken: bool) returns (ticket: Ticket?)
      requires Valid() && gate in gates && (gate.tokens < gate.limit || done)
      modifies this`tickets, gate
      ensures Valid()
      ensures ticket == null ==> done && tickets == old(tickets) && gate.tokens == old(gate.tokens)
      ensures ticket != null ==>
        && fresh(ticket) && ticket.gate == gate && !ticket.once
        && tickets == old(tickets) + {ticket} && gate.tokens == old(gate.tokens) + 1
      ensures old(gate.tokens) == gate.limit ==> ticket == null
      ensures !done ==> ticket != null
    {
      hide Held;
      if gate.tokens < gate.limit && (preferToken || !done) {
        ticket := new Ticket(gate);
        gate.tokens := gate.tokens + 1;
        tickets := tickets + {ticket};
        HandingOutKeepsValid(ticket);
      } else {
        ticket := null;
      }
    }

    /** Giving a slot back. The receive finds a token, so it never waits; a second call does
        nothing; and only the gate the slot came from changes. */
    method Release(ticket: Ticket)
      requires Valid() && ticket in tickets
      modifies ticket, ticket.gate
      ensures Valid() && ticket.once
      ensures ticket.gate.tokens == if old(ticket.once) then old(ticket.gate.tokens) else old(ticket.gate.tokens) - 1
    {
      if ticket.once {
        return;
      }
      assert ticket in Held(ticket.gate);
      ticket.once := true;
      ticket.gate.tokens := ticket.gate.tokens - 1;
      assert Held(ticket.gate) == old(Held(ticket.gate)) - {ticket};
      assert forall g :: g in gates && g != ticket.gate ==> Held(g) == old(Held(g));
    }

    /** A new gate for the encodes to come; those running keep the one they have. */
    method SetConcurrency(limit: int)
      requires Valid()
      modifies this
      ensures Valid() && fresh(current) && tickets == old(tickets)
      ensures gates == old(gates) + [current] && current.tokens == 0
      ensures current.limit == if limit < 1 then 1 else limit
    {
      var g := new Gate(limit);
      gates := gates + [g];
      current := g;
      assert forall h :: h in old(gates) ==> Held(h) == old(Held(h));
      assert Held(g) == {};
    }
  }

  // ----- how many encodes run at once

  ghost function Running(es: Encoders): set<Ticket>
    reads es, es.tickets
  {
    set t | t in es.tickets && !t.once
  }

  ghost function HeldOnAny(es: Encoders, gs: seq<Gate>): set<Ticket>
    reads es, es.tickets
  {
    set t | t in es.tickets && t.gate in gs && !t.once
  }

  /** The limits of the gates that still have holders, added up. */
  ghost function LimitsInUse(es: Encoders, gs: seq<Gate>): nat
    reads es, es.tickets
  {
    if gs == [] then 0
    else LimitsInUse(es, gs[1..]) + if es.Held(gs[0]) != {} then gs[0].limit else 0
  }

  lemma GateWithinLimit(es: Encoders, g: Gate)
    requires es.Valid() && g in es.gates
    ensures |es.Held(g)| <= g.limit
  {
    hide Encoders.Held;
  }

  lemma {:induction false} RunningOn(es: Encoders, gs: seq<Gate>)
    requires es.Valid() && forall g :: g in gs ==> g in es.gates
    requires forall i, j :: 0 <= i < j < |gs| ==> gs[i] != gs[j]
    ensures |HeldOnAny(es, gs)| <= LimitsInUse(es, gs)
    decreases |gs|
  {
    hide Encoders.Valid;
    if gs == [] {
      assert HeldOnAny(es, gs) == {};
    } else {
      RunningOn(es, gs[1..]);
      assert gs[0] !in gs[1..];
      var first, others := es.Held(gs[0]), HeldOnAny(es, gs[1..]);
      assert HeldOnAny(es, gs) == first + others && first !! others;
      assert |HeldOnAny(es, gs)| == |first| + |others|;
      GateWithinLimit(es, gs[0]);
    }
  }

  /** However often the limit was replaced, at most as many encodes run as the gates that
      still have holders allow together. */
  lemma RunningBounded(es: Encoders)
    requires es.Valid()
    ensures |Running(es)| <= LimitsInUse(es, es.gates)
  {
    RunningOn(es, es.gates);
    assert Running(es) == HeldOnAny(es, es.gates);
  }

  /** Without a replacement the limit itself is the bound. */
  lemma RunningWithinLimit(es: Encoders)
    requires es.Valid() && |es.gates| == 1
    ensures |Running(es)| <= es.current.limit
  {
    RunningBounded(es);
    assert es.gates[1..] == [];
    assert LimitsInUse(es, es.gates[1..]) == 0;
  }
}
