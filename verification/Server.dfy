/** `server.cpp`: one house per client address, headers sent synchronously and everything else
    asynchronously, idle houses evicted at time-outs. */
module Servers {
  import opened Options
  import opened Packets
  import opened PacketHouses
  import opened HouseRuns
  import opened ParentRows
  import PacketMap2025

  // ----- what the handlers receive -----

  datatype Statement =
    | IpRow(ip: nat, inserted: nat, updated: nat)   // the IpList row of a new client
    | Rows(ip: nat, sql: Emission)

  datatype Call = Query(s: Statement) | QueryAsync(s: Statement)

  function CallOf(s: Statement, sync: bool): Call {
    if sync then Call.Query(s) else Call.QueryAsync(s)
  }

  /** The part of DBHandler the server sees. Query returns once the statement was executed. */
  class Database {
    var calls: seq<Call>

    constructor ()
      ensures calls == []
    {
      calls := [];
    }

    method Query(s: Statement)
      modifies this
      ensures calls == old(calls) + [Call.Query(s)]
    {
      calls := calls + [Call.Query(s)];
    }

    method QueryAsync(s: Statement)
      modifies this
      ensures calls == old(calls) + [Call.QueryAsync(s)]
    {
      calls := calls + [Call.QueryAsync(s)];
    }
  }

  // ----- the specification, on values -----

  datatype Body =
    | Format2022(p: Packet)
    | Format2025(p25: PacketMap2025.Packet)
    | OtherFormat

  /** A datagram with the clock readings its processing may take, in order, or a time-out with the
      reading each house is tested with. */
  datatype Event =
    | Datagram(ip: nat, body: Body, create: nat, inserted: nat, updated: nat, at: nat, now: nat, later: nat)
    | Timeout(clock: nat -> nat)

  datatype Reply = Reply(client: Client, calls: seq<Call>)

  function Created(create: nat): (c: Client)
    ensures WellFormed(c.house)
  {
    Client(New(create), PacketMap2025.EMPTY)
  }

  function HouseInput(e: Event): Input
    requires e.Datagram? && !e.body.Format2025?
  {
    if e.body.Format2022? then Input.Datagram(e.body.p, e.at, e.now, e.later) else Foreign(e.now, e.later)
  }

  /** One datagram for one client. */
  function Receive(c: Option<Client>, e: Event): (r: Reply)
    requires e.Datagram? && (c.Some? ==> WellFormed(c.value.house))
    ensures WellFormed(r.client.house)
  {
    var base := if c.Some? then c.value else Created(e.create);
    var first := if c.Some? then [] else [Call.Query(IpRow(e.ip, e.inserted, e.updated))];
    if e.body.Format2025? then
      Reply(base.(cache := PacketMap2025.Updated(base.cache, e.body.p25)), first)
    else
      var o := Turn(base.house, HouseInput(e));
      Reply(base.(house := o.house),
            first + if o.isNew then [Call.Query(Rows(e.ip, o.sql))]
                    else if HasText(o.sql) then [Call.QueryAsync(Rows(e.ip, o.sql))] else [])
  }

  /** The first datagram is the IpList row, then what it would be for the client just created. */
  lemma ReceiveInTwo(c: Option<Client>, e: Event, log: seq<Call>)
    requires e.Datagram? && (c.Some? ==> WellFormed(c.value.house))
    ensures var there := Some(if c.Some? then c.value else Created(e.create));
            var first := if c.Some? then [] else [Call.Query(IpRow(e.ip, e.inserted, e.updated))];
            && Receive(c, e).client == Receive(there, e).client
            && log + Receive(c, e).calls == (log + first) + Receive(there, e).calls
  {
    hide Turn, PacketMap2025.Updated;
    var there := Some(if c.Some? then c.value else Created(e.create));
    var first := if c.Some? then [] else [Call.Query(IpRow(e.ip, e.inserted, e.updated))];
    assert Receive(c, e).calls == first + Receive(there, e).calls;
  }

  type Clients = map<nat, Client>

  predicate AllWellFormed(m: Clients) {
    forall ip :: ip in m ==> WellFormed(m[ip].house)
  }

  function Lookup(m: Clients, ip: nat): Option<Client> {
    if ip in m then Some(m[ip]) else None
  }

  datatype World = World(clients: Clients, calls: seq<Call>)

  function Step(w: World, e: Event): (w': World)
    requires AllWellFormed(w.clients)
    ensures AllWellFormed(w'.clients)
  {
    match e
    case Datagram(ip, _, _, _, _, _, _, _) =>
      var r := Receive(Lookup(w.clients, ip), e);
      World(w.clients[ip := r.client], w.calls + r.calls)
    case Timeout(clock) =>
      World(map ip | ip in w.clients && !Idle(w.clients[ip].house, clock(ip)) :: w.clients[ip], w.calls)
  }

  function Run(es: seq<Event>): (w: World)
    ensures AllWellFormed(w.clients)
  {
    if es == [] then World(map[], []) else Step(Run(es[..|es| - 1]), es[|es| - 1])
  }

  /** `erase(key)`. */
  function Without<V>(m: map<nat, V>, k: nat): (r: map<nat, V>)
    ensures forall a :: a in r <==> a in m && a != k
    ensures forall a :: a in r ==> r[a] == m[a]
  {
    m - {k}
  }

  // ----- the class -----

  class Server {
    var mysql: Database?
    var sqlite: Database?
    var houses: map<nat, PacketHouse>

    ghost var Repr: set<object>     // the objects of all houses

    /** No two clients share any part of their state, and the handlers are apart from both. */
    ghost predicate Valid()
      reads this, Repr
    {
      && this !in Repr && mysql !in Repr && sqlite !in Repr
      && (forall ip :: ip in houses ==>
            && houses[ip] in Repr && houses[ip].packet in Repr && houses[ip].packetMap2025 in Repr
            && houses[ip].Valid())
      && (forall a, b :: a in houses && b in houses && a != b ==>
            houses[a] != houses[b] && houses[a].packet != houses[b].packet
            && houses[a].packetMap2025 != houses[b].packetMap2025)
      && (mysql != null ==> mysql != sqlite)
    }

    ghost function ClientAt(ip: nat): Client
      requires Valid() && ip in houses
      reads this, Repr
    {
      houses[ip].State()
    }

    ghost function ClientOf(ip: nat): Option<Client>
      requires Valid()
      reads this, Repr
    {
      if ip in houses then Some(ClientAt(ip)) else None
    }

    constructor (my: Database?, lite: Database?)
      requires my != null ==> my != lite
      ensures Valid() && houses == map[] && mysql == my && sqlite == lite
    {
      mysql, sqlite, houses, Repr := my, lite, map[], {};
    }

    /** Hands one statement to every handler present. */
    method Send(s: Statement, sync: bool)
      requires mysql != null ==> mysql != sqlite
      modifies mysql, sqlite
      ensures mysql != null ==> mysql.calls == old(mysql.calls) + [CallOf(s, sync)]
      ensures sqlite != null ==> sqlite.calls == old(sqlite.calls) + [CallOf(s, sync)]
    {
      if mysql != null {
        if sync { mysql.Query(s); } else { mysql.QueryAsync(s); }
      }
      if sqlite != null {
        if sync { sqlite.Query(s); } else { sqlite.QueryAsync(s); }
      }
    }

    ghost predicate Received(calls: seq<Call>, my: seq<Call>, lite: seq<Call>)
      reads this, mysql, sqlite
    {
      && (mysql != null ==> mysql.calls == my + calls)
      && (sqlite != null ==> sqlite.calls == lite + calls)
    }

    /** A new house for an address without one. */
    method AddHouse(ip: nat, create: nat)
      requires Valid() && ip !in houses
      modifies this`houses, this`Repr
      ensures Valid() && fresh(Repr - old(Repr))
      ensures houses.Keys == old(houses.Keys) + {ip}
      ensures forall a :: a in old(houses) ==> ClientAt(a) == old(ClientAt(a))
      ensures ClientAt(ip) == Created(create)
    {
      hide New, PacketHouse.State;
      var house := new PacketHouse(create);
      houses := houses[ip := house];
      Repr := Repr + {house, house.packet, house.packetMap2025};
    }

    /** The house's part of one datagram, and the statement to send. */
    static method Feed(house: PacketHouse, e: Event) returns (isNew: bool, sql: Emission)
      requires house.Valid() && e.Datagram?
      modifies house, house.packet, house.packetMap2025
      ensures house.Valid()
      ensures var r := Receive(old(Some(house.State())), e);
              && house.State() == r.client
              && r.calls == if isNew then [Call.Query(Rows(e.ip, sql))]
                            else if HasText(sql) then [Call.QueryAsync(Rows(e.ip, sql))] else []
    {
      hide Stored, Handled, PacketMap2025.Updated;
      isNew, sql := false, Silent;
      if e.body.Format2025? {
        house.Update2025(e.body.p25);
      } else {
        if e.body.Format2022? {
          house.Store(e.body.p, e.at);
        }
        isNew, sql := house.Handle(e.now, e.later);
      }
    }

    /** The same for the house of the address, which leaves the others alone. */
    method FeedClient(e: Event) returns (isNew: bool, sql: Emission)
      requires Valid() && e.Datagram? && e.ip in houses
      modifies houses[e.ip], houses[e.ip].packet, houses[e.ip].packetMap2025
      ensures Valid()
      ensures forall a :: a in houses && a != e.ip ==> ClientAt(a) == old(ClientAt(a))
      ensures var r := Receive(old(Some(ClientAt(e.ip))), e);
              && ClientAt(e.ip) == r.client
              && r.calls == if isNew then [Call.Query(Rows(e.ip, sql))]
                            else if HasText(sql) then [Call.QueryAsync(Rows(e.ip, sql))] else []
    {
      hide Receive, PacketHouse.State, HasText;
      isNew, sql := Feed(houses[e.ip], e);
    }

    /** Headers go out synchronously, other text asynchronously, no text not at all. */
    method Forward(ip: nat, isNew: bool, sql: Emission)
      requires Valid()
      modifies mysql, sqlite
      ensures Valid() && forall a :: a in houses ==> ClientAt(a) == old(ClientAt(a))
      ensures Received(if isNew then [Call.Query(Rows(ip, sql))]
                       else if HasText(sql) then [Call.QueryAsync(Rows(ip, sql))] else [],
                       old(LogOf(mysql)), old(LogOf(sqlite)))
    {
      hide PacketHouse.State;
      if isNew {
        Send(Rows(ip, sql), true);
      } else if HasText(sql) {
        Send(Rows(ip, sql), false);
      }
    }

    /** What follows once the house is known to exist. */
    method Dispatch(e: Event)
      requires Valid() && e.Datagram? && e.ip in houses
      modifies houses[e.ip], houses[e.ip].packet, houses[e.ip].packetMap2025, mysql, sqlite
      ensures Valid()
      ensures forall a :: a in houses && a != e.ip ==> ClientAt(a) == old(ClientAt(a))
      ensures ClientAt(e.ip) == Receive(old(Some(ClientAt(e.ip))), e).client
      ensures Received(Receive(old(Some(ClientAt(e.ip))), e).calls, old(LogOf(mysql)), old(LogOf(sqlite)))
    {
      hide Receive, PacketHouse.State;
      var isNew, sql := FeedClient(e);
      Forward(e.ip, isNew, sql);
    }

    /** A new client: its house, then its IpList row, written before anything else. */
    method Welcome(ip: nat, create: nat, inserted: nat, updated: nat)
      requires Valid() && ip !in houses
      modifies this`houses, this`Repr, mysql, sqlite
      ensures Valid() && fresh(Repr - old(Repr))
      ensures houses.Keys == old(houses.Keys) + {ip}
      ensures forall a :: a in old(houses) ==> ClientAt(a) == old(ClientAt(a))
      ensures ClientAt(ip) == Created(create)
      ensures Received([Call.Query(IpRow(ip, inserted, updated))], old(LogOf(mysql)), old(LogOf(sqlite)))
    {
      hide PacketHouse.State;
      AddHouse(ip, create);
      Send(IpRow(ip, inserted, updated), true);
    }

    method UnPacketAndSendToDB(e: Event)
      requires Valid() && e.Datagram?
      modifies this`houses, this`Repr, Repr, mysql, sqlite
      ensures Valid() && fresh(Repr - old(Repr))
      ensures houses.Keys == old(houses.Keys) + {e.ip}
      ensures forall a :: a in old(houses) && a != e.ip ==> ClientAt(a) == old(ClientAt(a))
      ensures ClientAt(e.ip) == Receive(old(ClientOf(e.ip)), e).client
      ensures Received(Receive(old(ClientOf(e.ip)), e).calls, old(LogOf(mysql)), old(LogOf(sqlite)))
    {
      hide Receive, PacketHouse.State;
      ghost var before := ClientOf(e.ip);
      ghost var my, lite := LogOf(mysql), LogOf(sqlite);
      if e.ip !in houses {
        Welcome(e.ip, e.create, e.inserted, e.updated);
      }
      ReceiveInTwo(before, e, my);
      ReceiveInTwo(before, e, lite);
      Dispatch(e);
    }

    /** The erasing loop over the map. */
    static method EraseIdle(all: map<nat, PacketHouse>, clock: nat -> nat) returns (left: map<nat, PacketHouse>)
      ensures forall a :: a in left <==> a in all && !all[a].TestIfIdle(clock(a))
      ensures forall a :: a in left ==> left[a] == all[a]
    {
      left := all;
      var rest := all.Keys;
      while rest != {}
        invariant rest <= all.Keys
        invariant forall a :: a in left <==> a in all && (a in rest || !all[a].TestIfIdle(clock(a)))
        invariant forall a :: a in left ==> left[a] == all[a]
        decreases rest
      {
        var ip :| ip in rest;
        rest := rest - {ip};
        if all[ip].TestIfIdle(clock(ip)) {
          left := Without(left, ip);
        }
      }
    }

    /** Erases exactly the houses idle at their own reading and touches no other. */
    method ClearIdlePacketHouse(clock: nat -> nat)
      requires Valid()
      modifies this`houses
      ensures Valid()
      ensures forall a :: a in houses <==> a in old(houses) && !Idle(old(ClientAt(a)).house, clock(a))
      ensures forall a :: a in houses ==> ClientAt(a) == old(ClientAt(a))
    {
      houses := EraseIdle(houses, clock);
    }
  }

  ghost function LogOf(d: Database?): seq<Call>
    reads d
  {
    if d == null then [] else d.calls
  }
}
