/** Whole runs of the server: clients do not disturb one another, a sweep removes exactly the idle
    ones, and every row written asynchronously finds its parent rows already there. */
module ServerRuns {
  import opened Options
  import opened Packets
  import opened PacketHouses
  import opened HouseRuns
  import opened ParentRows
  import opened Servers
  import PacketMap2025

  /** One life of a house, as a log: when it was created, what it was given since. */
  datatype Life = Life(create: nat, ins: seq<Input>, log2025: seq<PacketMap2025.Packet>)

  /** When the last 2022 packet of the log was stored; 0 if there was none. */
  function LastStore(ins: seq<Input>): nat {
    if ins == [] then 0
    else if ins[|ins| - 1].Datagram? then ins[|ins| - 1].at
    else LastStore(ins[..|ins| - 1])
  }

  /** The events that concern the address: its datagrams and the time-outs. */
  function Own(es: seq<Event>, ip: nat): seq<Event> {
    if es == [] then []
    else
      var e := es[|es| - 1];
      Own(es[..|es| - 1], ip) + if e.Timeout? || e.ip == ip then [e] else []
  }

  /** The current life of the single client whose events these are, if it has a house. */
  function LifeOf(own: seq<Event>, ip: nat): Option<Life> {
    if own == [] then None
    else
      var was, e := LifeOf(own[..|own| - 1], ip), own[|own| - 1];
      if e.Timeout? then
        if was.Some? && e.clock(ip) > LastStore(was.value.ins) + IDLE_THRESHOLD then None else was
      else
        var l := if was.Some? then was.value else Life(e.create, [], []);
        Some(if e.body.Format2025? then l.(log2025 := l.log2025 + [e.body.p25])
             else l.(ins := l.ins + [HouseInput(e)]))
  }

  /** The client a life leads to: the single-house machine and the single cache run on its log. */
  function Lived(l: Life): (c: Client)
    ensures WellFormed(c.house)
  {
    Client(After(l.create, l.ins), PacketMap2025.Run(l.log2025))
  }

  function LivedOption(l: Option<Life>): Option<Client> {
    if l.Some? then Some(Lived(l.value)) else None
  }

  lemma TurnReceiveTime(h: House, i: Input)
    requires WellFormed(h)
    ensures Turn(h, i).house.lastReceive == if i.Datagram? then i.at else h.lastReceive
  {
    hide Routed;
  }

  lemma {:induction false} LastStoreIsLastReceive(t0: nat, ins: seq<Input>)
    ensures After(t0, ins).lastReceive == LastStore(ins)
  {
    if ins != [] {
      hide Turn;
      LastStoreIsLastReceive(t0, ins[..|ins| - 1]);
      LastStep(t0, ins);
      TurnReceiveTime(After(t0, ins[..|ins| - 1]), ins[|ins| - 1]);
    }
  }

  /** One datagram continues a life. */
  lemma ReceiveLives(l: Option<Life>, e: Event)
    requires e.Datagram?
    ensures var base := if l.Some? then l.value else Life(e.create, [], []);
            var next := if e.body.Format2025? then base.(log2025 := base.log2025 + [e.body.p25])
                        else base.(ins := base.ins + [HouseInput(e)]);
            Receive(LivedOption(l), e).client == Lived(next)
  {
    hide Turn, PacketMap2025.Updated;
    var base := if l.Some? then l.value else Life(e.create, [], []);
    if e.body.Format2025? {
      var log := base.log2025 + [e.body.p25];
      assert log[..|log| - 1] == base.log2025;
      assert PacketMap2025.Run(log) == PacketMap2025.Updated(PacketMap2025.Run(base.log2025), e.body.p25);
    } else {
      var ins := base.ins + [HouseInput(e)];
      assert ins[..|ins| - 1] == base.ins;
      LastStep(base.create, ins);
    }
  }

  /** Client isolation: whatever the other clients send, the client of each address is the one the
      single-client machines make of its own datagrams since its house was created. */
  lemma {:induction false} ClientsAreIsolated(es: seq<Event>, ip: nat)
    ensures Lookup(Run(es).clients, ip) == LivedOption(LifeOf(Own(es, ip), ip))
  {
    if es != [] {
      hide Turn, Receive;
      var front, e := es[..|es| - 1], es[|es| - 1];
      ClientsAreIsolated(front, ip);
      var own := Own(front, ip);
      if e.Timeout? {
        assert (own + [e])[..|own|] == own;
        if LifeOf(own, ip).Some? {
          LastStoreIsLastReceive(LifeOf(own, ip).value.create, LifeOf(own, ip).value.ins);
        }
      } else if e.ip == ip {
        assert (own + [e])[..|own|] == own;
        ReceiveLives(LifeOf(own, ip), e);
      } else {
        assert own + [] == own;
      }
    }
  }

  // ----- on the events alone -----

  /** When the last 2022 datagram was stored; 0 if there was none. */
  function LastAt(ds: seq<Event>): nat {
    if ds == [] then 0
    else
      var e := ds[|ds| - 1];
      if e.Datagram? && e.body.Format2022? then e.at else LastAt(ds[..|ds| - 1])
  }

  /** The datagrams of the address since its house was created, if it has one. */
  function Kept(es: seq<Event>, ip: nat): (ds: Option<seq<Event>>)
    ensures ds.Some? ==> ds.value != [] && forall k :: 0 <= k < |ds.value| ==> ds.value[k].Datagram?
  {
    if es == [] then None
    else
      var was, e := Kept(es[..|es| - 1], ip), es[|es| - 1];
      match e
      case Timeout(clock) => if was.Some? && clock(ip) > LastAt(was.value) + 300 then None else was
      case Datagram(from, _, _, _, _, _, _, _) =>
        if from == ip then Some((if was.Some? then was.value else []) + [e]) else was
  }

  /** The last 2022 packet of the type among the datagrams; the zero packet if there was none. */
  function LastSent(ds: seq<Event>, id: PacketId): Packet {
    if ds == [] then ZERO
    else
      var e := ds[|ds| - 1];
      if e.Datagram? && e.body.Format2022? && e.body.p.id == id then e.body.p else LastSent(ds[..|ds| - 1], id)
  }

  /** What the datagrams are to the house, and to the 2025 cache. */
  function InputOf(e: Event): seq<Input> {
    match e
    case Timeout(_) => []
    case Datagram(_, body, _, _, _, at, now, later) =>
      match body
      case Format2022(p) => [Input.Datagram(p, at, now, later)]
      case Format2025(_) => []
      case OtherFormat => [Foreign(now, later)]
  }

  function Inputs(ds: seq<Event>): seq<Input> {
    if ds == [] then [] else Inputs(ds[..|ds| - 1]) + InputOf(ds[|ds| - 1])
  }

  function Log2025(ds: seq<Event>): seq<PacketMap2025.Packet> {
    if ds == [] then []
    else
      var e := ds[|ds| - 1];
      Log2025(ds[..|ds| - 1]) + if e.Datagram? && e.body.Format2025? then [e.body.p25] else []
  }

  function LifeOfKept(ds: Option<seq<Event>>): Option<Life>
    requires ds.Some? ==> ds.value != [] && ds.value[0].Datagram?
  {
    if ds.Some? then Some(Life(ds.value[0].create, Inputs(ds.value), Log2025(ds.value))) else None
  }

  lemma LogAppend(ins: seq<Input>, i: Input, id: PacketId)
    ensures LastStore(ins + [i]) == if i.Datagram? then i.at else LastStore(ins)
    ensures LastPacket(ins + [i], id) == if Stores(i, id) then i.p else LastPacket(ins, id)
  {
    assert (ins + [i])[..|ins|] == ins;
    LastIndexStep(ins + [i], id);
    hide LastPacket;
  }

  lemma {:induction false} InputsTell(ds: seq<Event>, id: PacketId)
    ensures LastStore(Inputs(ds)) == LastAt(ds)
    ensures LastPacket(Inputs(ds), id) == LastSent(ds, id)
  {
    hide LastStore, LastPacket;
    if ds == [] {
      NothingSent(id);
    } else {
      var front, e := ds[..|ds| - 1], ds[|ds| - 1];
      InputsTell(front, id);
      if InputOf(e) == [] {
        assert Inputs(front) + [] == Inputs(front);
      } else {
        assert InputOf(e) == [InputOf(e)[0]];
        LogAppend(Inputs(front), InputOf(e)[0], id);
      }
    }
  }

  lemma NothingSent(id: PacketId)
    ensures LastStore([]) == 0 && LastPacket([], id) == ZERO
  {
  }

  lemma KeptContinues(ds: seq<Event>, e: Event)
    requires e.Datagram? && forall k :: 0 <= k < |ds| ==> ds[k].Datagram?
    ensures var l := if ds == [] then Life(e.create, [], []) else LifeOfKept(Some(ds)).value;
            LifeOfKept(Some(ds + [e])).value == if e.body.Format2025? then l.(log2025 := l.log2025 + [e.body.p25])
                                                else l.(ins := l.ins + [HouseInput(e)])
  {
    assert (ds + [e])[..|ds|] == ds;
    assert Inputs(ds) + [] == Inputs(ds) && Log2025(ds) + [] == Log2025(ds);
  }

  /** The life of an address is that of the datagrams kept of it. */
  lemma {:induction false} LifeIsKept(es: seq<Event>, ip: nat)
    ensures LifeOf(Own(es, ip), ip) == LifeOfKept(Kept(es, ip))
  {
    if es != [] {
      var front, e := es[..|es| - 1], es[|es| - 1];
      LifeIsKept(front, ip);
      var own, was := Own(front, ip), Kept(front, ip);
      if e.Timeout? {
        assert (own + [e])[..|own|] == own;
        if was.Some? { InputsTell(was.value, 0); }
      } else if e.ip == ip {
        assert (own + [e])[..|own|] == own;
        KeptContinues(if was.Some? then was.value else [], e);
      } else {
        assert own + [] == own;
      }
    }
  }

  /** Over every run, on its events alone: an address has a house exactly when it has kept datagrams;
      slot t of the house holds the last 2022 packet of type t among them, the time of the last
      receipt is that of the last of them, and the 2025 cache is that of the 2025 packets among them. */
  lemma HouseOnEvents(es: seq<Event>, ip: nat)
    ensures ip in Run(es).clients <==> Kept(es, ip).Some?
    ensures ip in Run(es).clients ==>
              var c, ds := Run(es).clients[ip], Kept(es, ip).value;
              && (forall t: PacketId :: c.house.slots[t] == LastSent(ds, t))
              && c.house.uid == LastSent(ds, SESSION_DATA).uid
              && c.house.lastReceive == LastAt(ds)
              && c.cache == PacketMap2025.Run(Log2025(ds))
  {
    hide Turn;
    ClientsAreIsolated(es, ip);
    LifeIsKept(es, ip);
    if Kept(es, ip).Some? {
      var ds := Kept(es, ip).value;
      var l := LifeOfKept(Some(ds)).value;
      LogInvariant(l.create, l.ins);
      LastStoreIsLastReceive(l.create, l.ins);
      forall t: PacketId ensures LastPacket(l.ins, t) == LastSent(ds, t) && LastStore(l.ins) == LastAt(ds) {
        InputsTell(ds, t);
      }
      hide Run, Kept, After, Own, LifeOf, LastPacket, LastSent, Inputs;
      assert After(l.create, l.ins).slots[SESSION_DATA] == LastPacket(l.ins, SESSION_DATA);
    }
  }

  /** A sweep removes a client exactly when its last 2022 datagram was stored more than 300 seconds
      before the reading taken for it (0 standing for "never"); in particular 2025 datagrams do not
      keep a house alive. */
  lemma SweepIsExact(es: seq<Event>, clock: nat -> nat, ip: nat)
    ensures var before, after, ds := Run(es).clients, Run(es + [Timeout(clock)]).clients, Kept(es, ip);
            && (ip in before <==> ds.Some?)
            && (ip in after <==> ds.Some? && clock(ip) <= LastAt(ds.value) + 300)
            && (ip in after ==> after[ip] == before[ip])
  {
    var longer := es + [Timeout(clock)];
    assert longer[..|longer| - 1] == es;
    HouseOnEvents(es, ip);
    hide Kept, LastAt, Own, LifeOf;
  }

  /** SessionData of an address that differs from the last one kept of it, in any of the four parts of
      its key, makes the header go out, synchronously and as the last statement. */
  lemma NewSessionOnEvents(es: seq<Event>, e: Event)
    requires e.Datagram? && e.body.Format2022? && e.body.p.id == SESSION_DATA
    ensures var ds, p := Kept(es, e.ip), e.body.p;
            var q := if ds.Some? then LastSent(ds.value, SESSION_DATA) else ZERO;
            var row := if ds.Some? then [] else [Call.Query(IpRow(e.ip, e.inserted, e.updated))];
            (p.uid != q.uid || p.sessionType != q.sessionType || p.trackId != q.trackId || p.linkId != q.linkId) <==>
              Run(es + [e]).calls == Run(es).calls + row + [Call.Query(Rows(e.ip, Header(p, e.now, e.now)))]
  {
    hide Turn, Receive, Run, Kept, Own, LifeOf, LastOut, After, LastSent, HasText, LastPacket;
    assert (es + [e])[..|es|] == es;
    RunStep(es + [e]);
    ClientsAreIsolated(es, e.ip);
    LifeIsKept(es, e.ip);
    var ds := Kept(es, e.ip);
    var life := LifeOf(Own(es, e.ip), e.ip);
    ReceiveSends(life, e);
    var l := if life.Some? then life.value else Life(e.create, [], []);
    if ds.Some? { InputsTell(ds.value, SESSION_DATA); } else { NothingSent(SESSION_DATA); }
    SessionIsHeader(l, e.body.p, e.at, e.now, e.later);
    HeaderIsLast(Run(es).calls, if ds.Some? then [] else [Call.Query(IpRow(e.ip, e.inserted, e.updated))],
                 Sent(e.ip, LastOut(l.create, l.ins + [HouseInput(e)]).sql),
                 Rows(e.ip, Header(e.body.p, e.now, e.now)));
  }

  /** SessionData brings out its header exactly when it differs from the last one of the life. */
  lemma SessionIsHeader(l: Life, p: Packet, at: nat, now: nat, later: nat)
    requires p.id == SESSION_DATA
    ensures var q := LastPacket(l.ins, SESSION_DATA);
            var e := LastOut(l.create, l.ins + [Input.Datagram(p, at, now, later)]).sql;
            && (e.Header? <==>
                  p.uid != q.uid || p.sessionType != q.sessionType || p.trackId != q.trackId || p.linkId != q.linkId)
            && (e.Header? ==> e == Header(p, now, now))
  {
    var ins := l.ins + [Input.Datagram(p, at, now, later)];
    assert ins[..|ins| - 1] == l.ins;
    LogAppend(l.ins, ins[|l.ins|], SESSION_DATA);
    hide LastOut, LastPacket, LastIndex;
    SessionEdgesAreExact(l.create, ins);
    EmissionsCarryTheLog(l.create, ins);
  }

  lemma HeaderIsLast(calls: seq<Call>, row: seq<Call>, sent: seq<Call>, s: Statement)
    ensures calls + (row + sent) == calls + row + [Call.Query(s)] <==> sent == [Call.Query(s)]
  {
    assert calls + (row + sent) == (calls + row) + sent;
    if calls + (row + sent) == calls + row + [Call.Query(s)] {
      assert ((calls + row) + sent)[|calls + row|..] == sent;
      assert ((calls + row) + [Call.Query(s)])[|calls + row|..] == [Call.Query(s)];
    }
  }

  // ----- statements -----

  ghost predicate IpRowIn(calls: seq<Call>, ip: nat) {
    exists k :: 0 <= k < |calls| && calls[k].Query? && calls[k].s.IpRow? && calls[k].s.ip == ip
  }

  predicate IsHeader(c: Call, ip: nat) {
    c.Query? && c.s.Rows? && c.s.ip == ip && c.s.sql.Header?
  }

  /** The begin of the last header executed for the address. */
  function LatestBegin(calls: seq<Call>, ip: nat): Option<nat> {
    if calls == [] then None
    else
      var last := calls[|calls| - 1];
      if IsHeader(last, ip) then Some(last.s.sql.begin) else LatestBegin(calls[..|calls| - 1], ip)
  }

  lemma {:induction false} LatestBeginIsLatest(calls: seq<Call>, ip: nat)
    ensures LatestBegin(calls, ip).Some? ==>
              exists k :: && 0 <= k < |calls| && IsHeader(calls[k], ip)
                          && calls[k].s.sql.begin == LatestBegin(calls, ip).value
                          && forall m :: k < m < |calls| ==> !IsHeader(calls[m], ip)
  {
    if calls != [] {
      var front := calls[..|calls| - 1];
      if IsHeader(calls[|calls| - 1], ip) {
        assert calls[|calls| - 1].s.sql.begin == LatestBegin(calls, ip).value;
      } else if LatestBegin(calls, ip).Some? {
        LatestBeginIsLatest(front, ip);
        var k :| && 0 <= k < |front| && IsHeader(front[k], ip) && front[k].s.sql.begin == LatestBegin(front, ip).value
                 && forall m :: k < m < |front| ==> !IsHeader(front[m], ip);
        assert calls[k] == front[k];
      }
    }
  }

  lemma {:induction false} OthersHeaders(calls: seq<Call>, more: seq<Call>, ip: nat)
    requires forall k :: 0 <= k < |more| ==> !IsHeader(more[k], ip)
    ensures LatestBegin(calls + more, ip) == LatestBegin(calls, ip)
  {
    if more == [] {
      assert calls + more == calls;
    } else {
      assert (calls + more)[..|calls + more| - 1] == calls + more[..|more| - 1];
      OthersHeaders(calls, more[..|more| - 1], ip);
    }
  }

  /** What the foreign keys of the statement ask of the statements before it. */
  ghost predicate Parented(before: seq<Call>, c: Call) {
    c.s.Rows? ==>
      && (c.s.sql.Header? ==> c.Query? && IpRowIn(before, c.s.ip))
      && (IsChild(c.s.sql) ==> c.QueryAsync? && LatestBegin(before, c.s.ip) == Some(c.s.sql.begin))
  }

  ghost predicate AllParented(calls: seq<Call>) {
    forall k :: 0 <= k < |calls| ==> Parented(calls[..k], calls[k])
  }

  /** The client has its IpList row, and once it knows a session the latest header is its own. */
  ghost predicate Rooted(calls: seq<Call>, ip: nat, c: Client)
  {
    IpRowIn(calls, ip) && (SESSION_DATA in c.house.recv ==> LatestBegin(calls, ip) == Some(c.house.begin))
  }

  lemma Later(calls: seq<Call>, more: seq<Call>)
    ensures forall ip :: IpRowIn(calls, ip) ==> IpRowIn(calls + more, ip)
  {
    var longer := calls + more;
    assert forall k :: 0 <= k < |calls| ==> longer[k] == calls[k];
    forall ip | IpRowIn(calls, ip) ensures IpRowIn(longer, ip) {
      var k :| 0 <= k < |calls| && calls[k].Query? && calls[k].s.IpRow? && calls[k].s.ip == ip;
      assert longer[k] == calls[k];
    }
  }

  lemma ParentedAppend(calls: seq<Call>, c: Call)
    requires AllParented(calls) && Parented(calls, c)
    ensures AllParented(calls + [c])
  {
    var longer := calls + [c];
    forall k | 0 <= k < |longer| ensures Parented(longer[..k], longer[k]) {
      assert longer[..k] == calls[..k];
      assert calls[..|calls|] == calls;
    }
  }

  /** The event is not the first SessionData of a house's life with the zero key. */
  ghost predicate KeyedFirst(life: Option<Life>, e: Event) {
    e.Datagram? && e.body.Format2022? && e.body.p.IsSession() && (life.Some? ==> NoSession(life.value.ins)) ==>
      e.body.p.Key() != ZERO.Key()
  }

  /** In every life of every house the first SessionData, if any, has a key that is not all zero. */
  ghost predicate FirstSessionsKeyed(es: seq<Event>) {
    forall k :: 0 <= k < |es| && es[k].Datagram? ==> KeyedFirst(LifeOf(Own(es[..k], es[k].ip), es[k].ip), es[k])
  }

  /** What one turn of a house that lived `l` does to its roots. */
  lemma TurnRoots(l: Life, i: Input)
    requires IsSessionInput(i) && NoSession(l.ins) ==> i.p.Key() != ZERO.Key()
    ensures var h, o := After(l.create, l.ins), Turn(After(l.create, l.ins), i);
            && (o.isNew ==> o.sql.Header? && o.sql.begin == o.house.begin)
            && (!o.isNew ==> !o.sql.Header? && o.house.begin == h.begin
                             && (SESSION_DATA in o.house.recv ==> SESSION_DATA in h.recv)
                             && (IsChild(o.sql) ==> SESSION_DATA in h.recv && o.sql.begin == h.begin))
  {
    hide Turn;
    var h := After(l.create, l.ins);
    LogInvariant(l.create, l.ins);
    TurnStores(h, i);
    TurnSettles(h, i);
    TurnBegin(h, i);
    NoSessionSlot(l.ins);
  }

  /** The IpList row roots a client that was just created. */
  lemma WelcomeRoots(calls: seq<Call>, e: Event)
    requires e.Datagram? && AllParented(calls)
    ensures var base := calls + [Call.Query(IpRow(e.ip, e.inserted, e.updated))];
            AllParented(base) && Rooted(base, e.ip, Created(e.create))
  {
    var row := Call.Query(IpRow(e.ip, e.inserted, e.updated));
    ParentedAppend(calls, row);
    hide AllParented;
    assert (calls + [row])[|calls|] == row;
    assert IpRowIn(calls + [row], e.ip);
  }

  /** One more statement of a rooted client, a header or not. */
  lemma StatementRoots(base: seq<Call>, ip: nat, h: House, o: Outcome, c: Call)
    requires WellFormed(h) && WellFormed(o.house) && AllParented(base) && IpRowIn(base, ip)
    requires SESSION_DATA in h.recv ==> LatestBegin(base, ip) == Some(h.begin)
    requires o.isNew ==> o.sql.Header? && o.sql.begin == o.house.begin && c == Call.Query(Rows(ip, o.sql))
    requires !o.isNew ==> !o.sql.Header? && o.house.begin == h.begin && c == Call.QueryAsync(Rows(ip, o.sql))
    requires !o.isNew && SESSION_DATA in o.house.recv ==> SESSION_DATA in h.recv
    requires !o.isNew && IsChild(o.sql) ==> SESSION_DATA in h.recv && o.sql.begin == h.begin
    ensures AllParented(base + [c]) && IpRowIn(base + [c], ip)
    ensures SESSION_DATA in o.house.recv ==> LatestBegin(base + [c], ip) == Some(o.house.begin)
  {
    ParentedAppend(base, c);
    Later(base, [c]);
    hide AllParented, IpRowIn;
    assert (base + [c])[|base|] == c && (base + [c])[..|base|] == base;
    if !o.isNew { OthersHeaders(base, [c], ip); }
  }

  /** One datagram for a client that is there. */
  lemma ThereRoots(base: seq<Call>, l: Life, e: Event)
    requires e.Datagram? && KeyedFirst(Some(l), e) && AllParented(base) && Rooted(base, e.ip, Lived(l))
    ensures var r := Receive(Some(Lived(l)), e);
            AllParented(base + r.calls) && Rooted(base + r.calls, e.ip, r.client)
  {
    hide Turn, PacketMap2025.Updated, AllParented, IpRowIn, LatestBegin, HasText;
    var r := Receive(Some(Lived(l)), e);
    if r.calls == [] {
      assert base + r.calls == base;
    }
    if !e.body.Format2025? {
      var h, i := After(l.create, l.ins), HouseInput(e);
      var o := Turn(h, i);
      TurnRoots(l, i);
      if r.calls != [] {
        StatementRoots(base, e.ip, h, o, r.calls[0]);
        assert r.calls == [r.calls[0]];
      }
    }
  }

  /** One datagram for one client keeps every statement parented and the client rooted. */
  lemma ReceiveRoots(calls: seq<Call>, life: Option<Life>, e: Event)
    requires e.Datagram? && KeyedFirst(life, e) && AllParented(calls)
    requires life.Some? ==> Rooted(calls, e.ip, Lived(life.value))
    ensures var r := Receive(LivedOption(life), e);
            AllParented(calls + r.calls) && Rooted(calls + r.calls, e.ip, r.client)
  {
    hide Turn, Receive, AllParented, Rooted, PacketMap2025.Updated;
    ReceiveInTwo(LivedOption(life), e, calls);
    if life.Some? {
      ThereRoots(calls, life.value, e);
    } else {
      WelcomeRoots(calls, e);
      NewLives(e.create);
      var base := calls + [Call.Query(IpRow(e.ip, e.inserted, e.updated))];
      ThereRoots(base, Life(e.create, [], []), e);
    }
    assert calls + [] == calls;
  }

  lemma NewLives(create: nat)
    ensures Lived(Life(create, [], [])) == Created(create)
  {
  }

  lemma {:induction false} RunIsRooted(es: seq<Event>)
    requires FirstSessionsKeyed(es)
    ensures AllParented(Run(es).calls)
    ensures forall ip :: ip in Run(es).clients ==> Rooted(Run(es).calls, ip, Run(es).clients[ip])
  {
    if es != [] {
      hide Turn, Receive;
      var front, e := es[..|es| - 1], es[|es| - 1];
      assert forall k :: 0 <= k < |front| ==> front[..k] == es[..k];
      RunIsRooted(front);
      if e.Datagram? {
        var life := LifeOf(Own(front, e.ip), e.ip);
        ClientsAreIsolated(front, e.ip);
        ReceiveRoots(Run(front).calls, life, e);
        ReceiveSends(life, e);
        var more := Receive(LivedOption(life), e).calls;
        Later(Run(front).calls, more);
        forall ip | ip != e.ip { OthersHeaders(Run(front).calls, more, ip); }
      }
    }
  }

  /** Over every run of the server: a header goes out synchronously after the client's IpList row,
      and a row that refers to a session goes out asynchronously after a header of its client was
      executed, the latest of which has the row's begin, provided no house's first SessionData has the zero key. */
  lemma ParentRowsComeFirst(es: seq<Event>, k: nat)
    requires FirstSessionsKeyed(es) && k < |Run(es).calls| && Run(es).calls[k].s.Rows?
    ensures var calls := Run(es).calls;
            var s := calls[k].s;
            && (s.sql.Header? ==> calls[k].Query? && IpRowIn(calls[..k], s.ip))
            && (IsChild(s.sql) ==> calls[k].QueryAsync? && LatestBegin(calls[..k], s.ip) == Some(s.sql.begin))
  {
    hide Turn, Receive;
    RunIsRooted(es);
  }

  // ----- who gets which statement -----

  function For(calls: seq<Call>, ip: nat): seq<Call> {
    if calls == [] then []
    else For(calls[..|calls| - 1], ip) + if calls[|calls| - 1].s.ip == ip then [calls[|calls| - 1]] else []
  }

  /** How a row is sent: headers synchronously, the rest asynchronously, nothing without text. */
  function Sent(ip: nat, e: Emission): seq<Call> {
    if e.Header? then [Call.Query(Rows(ip, e))]
    else if HasText(e) then [Call.QueryAsync(Rows(ip, e))]
    else []
  }

  /** The statements of a single client: an IpList row at the beginning of each life, and what the
      single house emits at each step. */
  function OwnCalls(own: seq<Event>, ip: nat): seq<Call> {
    if own == [] then []
    else
      var front, e := own[..|own| - 1], own[|own| - 1];
      if e.Timeout? then OwnCalls(front, ip)
      else
        var row := if LifeOf(front, ip).Some? then [] else [Call.Query(IpRow(e.ip, e.inserted, e.updated))];
        var life := LifeOf(own, ip).value;
        OwnCalls(front, ip) + row + if e.body.Format2025? then [] else Sent(e.ip, LastOut(life.create, life.ins).sql)
  }

  lemma ReceiveSends(l: Option<Life>, e: Event)
    requires e.Datagram?
    ensures var base := if l.Some? then l.value else Life(e.create, [], []);
            Receive(LivedOption(l), e).calls
              == (if l.Some? then [] else [Call.Query(IpRow(e.ip, e.inserted, e.updated))])
               + (if e.body.Format2025? then [] else Sent(e.ip, LastOut(base.create, base.ins + [HouseInput(e)]).sql))
    ensures forall k :: 0 <= k < |Receive(LivedOption(l), e).calls| ==> Receive(LivedOption(l), e).calls[k].s.ip == e.ip
  {
    hide Turn, PacketMap2025.Updated;
    var base := if l.Some? then l.value else Life(e.create, [], []);
    if !e.body.Format2025? {
      var ins := base.ins + [HouseInput(e)];
      assert ins[..|ins| - 1] == base.ins;
      LastStep(base.create, ins);
      SessionEdgesAreExact(base.create, ins);
    }
  }

  lemma ForOne(calls: seq<Call>, c: Call, ip: nat)
    ensures For(calls + [c], ip) == For(calls, ip) + if c.s.ip == ip then [c] else []
  {
    assert (calls + [c])[..|calls|] == calls;
  }

  lemma Associate(a: seq<Call>, b: seq<Call>, c: seq<Call>)
    ensures a + (b + c) == (a + b) + c
  {
  }

  lemma {:induction false} ForAppend(calls: seq<Call>, more: seq<Call>, ip: nat, from: nat)
    requires forall k :: 0 <= k < |more| ==> more[k].s.ip == from
    ensures For(calls + more, ip) == if ip == from then For(calls, ip) + more else For(calls, ip)
  {
    if more == [] {
      assert calls + more == calls && For(calls, ip) + more == For(calls, ip);
    } else {
      var rest, last := more[..|more| - 1], more[|more| - 1];
      var own := For(calls, ip);
      assert last.s.ip == from && more == rest + [last];
      ForAppend(calls, rest, ip, from);
      ForOne(calls + rest, last, ip);
      Associate(calls, rest, [last]);
      Associate(own, rest, [last]);
      hide For;
      assert own + [] == own;
    }
  }

  /** One more datagram of a single client. */
  lemma OwnCallsStep(own: seq<Event>, e: Event)
    requires e.Datagram?
    ensures OwnCalls(own + [e], e.ip) == OwnCalls(own, e.ip) + Receive(LivedOption(LifeOf(own, e.ip)), e).calls
  {
    ReceiveSends(LifeOf(own, e.ip), e);
    LifeContinues(own, e);
    hide Receive, Sent, LifeOf, LastOut;
    var longer := own + [e];
    assert longer[..|longer| - 1] == own && longer[|longer| - 1] == e;
    var l := if LifeOf(own, e.ip).Some? then LifeOf(own, e.ip).value else Life(e.create, [], []);
    var row := if LifeOf(own, e.ip).Some? then [] else [Call.Query(IpRow(e.ip, e.inserted, e.updated))];
    Associate(OwnCalls(own, e.ip), row,
              if e.body.Format2025? then [] else Sent(e.ip, LastOut(l.create, l.ins + [HouseInput(e)]).sql));
  }

  lemma LifeContinues(own: seq<Event>, e: Event)
    requires e.Datagram?
    ensures var l := if LifeOf(own, e.ip).Some? then LifeOf(own, e.ip).value else Life(e.create, [], []);
            LifeOf(own + [e], e.ip) == Some(if e.body.Format2025? then l.(log2025 := l.log2025 + [e.body.p25])
                                            else l.(ins := l.ins + [HouseInput(e)]))
  {
    assert (own + [e])[..|own|] == own;
  }

  lemma {:induction false} StatementsStep(calls: seq<Call>, own: seq<Event>, e: Event, ip: nat)
    requires e.Datagram? && (e.ip == ip ==> For(calls, ip) == OwnCalls(own, e.ip))
    ensures For(calls + Receive(LivedOption(LifeOf(own, e.ip)), e).calls, ip)
         == if e.ip == ip then OwnCalls(own + [e], e.ip) else For(calls, ip)
  {
    hide Receive;
    ReceiveSends(LifeOf(own, e.ip), e);
    ForAppend(calls, Receive(LivedOption(LifeOf(own, e.ip)), e).calls, ip, e.ip);
    OwnCallsStep(own, e);
  }

  /** The statements of an address, in order, are those its own datagrams call for: none is lost,
      repeated or sent the other way because of another client. */
  lemma {:induction false} StatementsAreIsolated(es: seq<Event>, ip: nat)
    ensures For(Run(es).calls, ip) == OwnCalls(Own(es, ip), ip)
  {
    if es != [] {
      var front, e := es[..|es| - 1], es[|es| - 1];
      RunStep(es);
      OwnStep(es, ip);
      hide Run, Own, LifeOf, For, OwnCalls, Receive;
      StatementsAreIsolated(front, ip);
      if e.Timeout? {
        OwnTimeout(Own(front, ip), e, ip);
      } else {
        ClientsAreIsolated(front, e.ip);
        StatementsStep(Run(front).calls, Own(front, e.ip), e, ip);
      }
    }
  }

  lemma RunStep(es: seq<Event>)
    requires es != []
    ensures var front, e := es[..|es| - 1], es[|es| - 1];
            && (e.Timeout? ==> Run(es).calls == Run(front).calls)
            && (e.Datagram? ==> Run(es).calls == Run(front).calls + Receive(Lookup(Run(front).clients, e.ip), e).calls)
  {
    hide Receive;
  }

  lemma OwnStep(es: seq<Event>, ip: nat)
    requires es != []
    ensures var front, e := es[..|es| - 1], es[|es| - 1];
            Own(es, ip) == if e.Timeout? || e.ip == ip then Own(front, ip) + [e] else Own(front, ip)
  {
    assert Own(es[..|es| - 1], ip) + [] == Own(es[..|es| - 1], ip);
  }

  lemma OwnTimeout(own: seq<Event>, e: Event, ip: nat)
    requires e.Timeout?
    ensures OwnCalls(own + [e], ip) == OwnCalls(own, ip)
  {
    assert (own + [e])[..|own|] == own;
  }

  // ----- row keys -----

  /** The last reading of the datagrams. */
  function End(es: seq<Event>): nat {
    if es == [] then 0
    else if es[|es| - 1].Datagram? then es[|es| - 1].later
    else End(es[..|es| - 1])
  }

  predicate InOrder(e: Event, t: nat)
    requires e.Datagram?
  {
    t <= e.create <= e.inserted <= e.updated <= e.at <= e.now <= e.later
  }

  /** The readings taken for datagrams never go backwards; those of the sweeps do not matter. */
  ghost predicate Paced(es: seq<Event>) {
    forall k :: 0 <= k < |es| && es[k].Datagram? ==> InOrder(es[k], End(es[..k]))
  }

  /** A per-second row of the address. */
  predicate IsTick(c: Call, ip: nat) {
    c.s.Rows? && c.s.ip == ip && c.s.sql.Tick?
  }

  function LastStamp(c: Option<Client>, e: Event): nat
    requires e.Datagram?
  {
    if c.Some? then c.value.house.last else e.create
  }

  lemma ReceiveTicks(c: Option<Client>, e: Event, t: nat)
    requires e.Datagram? && InOrder(e, t)
    requires c.Some? ==> WellFormed(c.value.house) && c.value.house.begin <= c.value.house.last <= t
    ensures var r := Receive(c, e);
            && LastStamp(c, e) <= r.client.house.last && r.client.house.begin <= r.client.house.last <= e.later
            && (forall k, ip :: 0 <= k < |r.calls| && IsTick(r.calls[k], ip) ==>
                  && ip == e.ip && r.calls[k].s.sql.begin < r.calls[k].s.sql.current
                  && LastStamp(c, e) < r.calls[k].s.sql.current == r.client.house.last)
            && (forall a, b, ip :: 0 <= a < b < |r.calls| && IsTick(r.calls[a], ip) ==> !IsTick(r.calls[b], ip))
  {
    hide Turn, PacketMap2025.Updated, HasText;
    if !e.body.Format2025? {
      TurnStamps(if c.Some? then c.value.house else New(e.create), HouseInput(e), if c.Some? then t else e.create);
    }
  }

  /** The per-second rows of the address come with increasing stamps, each above its begin, none
      above t. */
  ghost predicate TicksUpTo(calls: seq<Call>, ip: nat, t: nat) {
    && (forall k :: 0 <= k < |calls| && IsTick(calls[k], ip) ==>
          calls[k].s.sql.begin < calls[k].s.sql.current <= t)
    && (forall a, b :: 0 <= a < b < |calls| && IsTick(calls[a], ip) && IsTick(calls[b], ip) ==>
          calls[a].s.sql.current < calls[b].s.sql.current)
  }

  lemma TicksAppend(calls: seq<Call>, more: seq<Call>, ip: nat, t: nat, t': nat)
    requires TicksUpTo(calls, ip, t) && t <= t'
    requires forall k :: 0 <= k < |more| && IsTick(more[k], ip) ==>
               more[k].s.sql.begin < more[k].s.sql.current && t < more[k].s.sql.current <= t'
    requires forall a, b :: 0 <= a < b < |more| && IsTick(more[a], ip) ==> !IsTick(more[b], ip)
    ensures TicksUpTo(calls + more, ip, t')
  {
    var longer := calls + more;
    assert forall k :: 0 <= k < |calls| ==> longer[k] == calls[k];
    assert forall k :: |calls| <= k < |longer| ==> longer[k] == more[k - |calls|];
  }

  lemma {:induction false} StampsStayBelow(es: seq<Event>, ip: nat)
    requires Paced(es)
    ensures TicksUpTo(Run(es).calls, ip, End(es))
    ensures ip in Run(es).clients ==>
              var h := Run(es).clients[ip].house;
              h.begin <= h.last <= End(es) && TicksUpTo(Run(es).calls, ip, h.last)
  {
    if es != [] {
      hide Receive, Turn;
      var front, e := es[..|es| - 1], es[|es| - 1];
      assert forall k :: 0 <= k < |front| ==> front[..k] == es[..k];
      assert Paced(front) && (e.Datagram? ==> InOrder(e, End(front)));
      hide Paced, TicksUpTo;
      StampsStayBelow(front, ip);
      if e.Datagram? {
        StampsStayBelow(front, e.ip);
        var c := Lookup(Run(front).clients, e.ip);
        ReceiveTicks(c, e, End(front));
        StampsStep(Run(front).calls, ip, c, e, End(front));
        if ip in Run(front).clients && ip != e.ip {
          TicksOfOthers(Run(front).calls, Receive(c, e).calls, ip, Run(front).clients[ip].house.last);
        }
      }
    }
  }

  lemma TicksOfOthers(calls: seq<Call>, more: seq<Call>, ip: nat, t: nat)
    requires TicksUpTo(calls, ip, t) && forall k :: 0 <= k < |more| ==> !IsTick(more[k], ip)
    ensures TicksUpTo(calls + more, ip, t)
  {
    TicksAppend(calls, more, ip, t, t);
  }

  lemma StampsStep(calls: seq<Call>, ip: nat, c: Option<Client>, e: Event, t: nat)
    requires e.Datagram? && InOrder(e, t) && TicksUpTo(calls, ip, t)
    requires c.Some? ==> WellFormed(c.value.house) && c.value.house.begin <= c.value.house.last <= t
    requires c.Some? && ip == e.ip ==> TicksUpTo(calls, ip, c.value.house.last)
    ensures var r := Receive(c, e);
            && TicksUpTo(calls + r.calls, ip, e.later)
            && (ip == e.ip ==> TicksUpTo(calls + r.calls, ip, r.client.house.last))
  {
    hide Receive;
    ReceiveTicks(c, e, t);
    var r := Receive(c, e);
    if ip == e.ip {
      TicksAppend(calls, r.calls, ip, LastStamp(c, e), r.client.house.last);
      TicksAppend(calls + r.calls, [], ip, r.client.house.last, e.later);
      assert calls + r.calls + [] == calls + r.calls;
    } else {
      TicksAppend(calls, r.calls, ip, t, e.later);
    }
  }

  /** Row keys never repeat, across sessions, eviction and re-creation of a house: the stamps of the
      per-second rows of an address strictly increase over the whole run of the server, and each
      exceeds its begin, so no two of them share (begin, current). */
  lemma RowKeysNeverRepeatAnywhere(es: seq<Event>, ip: nat, a: nat, b: nat)
    requires Paced(es) && a < b < |Run(es).calls| && IsTick(Run(es).calls[a], ip) && IsTick(Run(es).calls[b], ip)
    ensures Run(es).calls[a].s.sql.current < Run(es).calls[b].s.sql.current
    ensures Run(es).calls[b].s.sql.begin < Run(es).calls[b].s.sql.current
  {
    StampsStayBelow(es, ip);
  }
}
