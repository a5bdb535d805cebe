/** The packets of the 2022 format, as far as `PacketHouse` looks into them. */
module Packets {
  // enum PacketID
  const CAR_MOTION := 0
  const SESSION_DATA := 1
  const LAP_DATA := 2
  const EVENT_DATA := 3
  const PARTICIPANTS := 4
  const CAR_SETUP := 5
  const CAR_TELEMETRY := 6
  const CAR_STATUS := 7
  const FINAL_CLASSIFICATION := 8
  const LOBBY_INFO := 9
  const CAR_DAMAGE := 10
  const SESSION_HISTORY := 11
  const COUNT := 12

  type PacketId = n: nat | n < COUNT

  datatype SessionKey = SessionKey(uid: nat, sessionType: nat, trackId: int, linkId: nat)

  const TIME_TRIAL := 13       // SessionType

  /** The packet union: a field means something only for the packet types that carry it. `pbCar` and
      `rivalCar` belong to LapData, `rows` counts the players of LobbyInfo and the classified cars of
      FinalClassification, and `body` stands for all the fields no control decision reads. */
  datatype Packet = Packet(id: PacketId, uid: nat, sessionType: nat, trackId: int, linkId: nat,
                           code: string, carIdx: nat, pbCar: nat, rivalCar: nat, rows: nat, body: int)
  {
    function Key(): SessionKey {
      SessionKey(uid, sessionType, trackId, linkId)
    }

    predicate IsSession() { id == SESSION_DATA }

    predicate IsButton() { id == EVENT_DATA && code == "BUTN" }

    predicate IsRealEvent() { id == EVENT_DATA && code != "BUTN" }

    predicate IsTT() { sessionType == TIME_TRIAL }
  }

  /** Zeroed memory. */
  const ZERO := Packet(0, 0, 0, 0, 0, "", 0, 0, 0, 0, 0)
}

/** The per-client protocol machine of `packet_house.cpp`. Every `std::time(0)` is a parameter. */
module PacketHouses {
  import opened Options
  import opened Packets
  import PacketMap2025

  /** A call the house makes on its car_info_ member. */
  datatype CarCall =
    | Init
    | FillSession(p: Packet)
    | FillLapData(p: Packet)
    | FillHistory(p: Packet)
    | FillOther(p: Packet)          // FillCarStatus, FillCarTelemetry, FillCarDamage, FillCarMotion
    | SetFlashBack
    | ToSql

  /** The packets one per-second batch writes. */
  datatype Batch = Batch(session: Packet, participants: Packet, motion: Packet, lap: Packet,
                         telemetry: Packet, status: Packet, damage: Packet)

  /** The cars a row may be about: in time trial only the player, the personal best and the rival. */
  datatype Roster = AllCars | Trial(pbCar: nat, rivalCar: nat)
  {
    predicate Has(car: nat) {
      AllCars? || car == 0 || car == pbCar || car == rivalCar
    }
  }

  /** What one Handle call writes into `sql`. */
  datatype Emission =
    | Silent
    | Lobby(p: Packet, current: nat)
    | Header(p: Packet, begin: nat, current: nat)
    | Final(p: Packet, session: Packet, begin: nat, current: nat)
    | Tick(begin: nat, current: nat, roster: Roster, histories: map<nat, Packet>, events: seq<Packet>,
           batch: Option<Batch>)

  /** The event codes PacketEventData::ToSQL knows. */
  const EVENT_CODES: seq<string> :=
    ["PENA", "SSTA", "SEND", "FTLP", "RTMT", "DRSE", "DRSD", "TMPT", "CHQF", "RCWN", "SPTP", "STLG", "LGOT",
     "DTSV", "SGSV", "FLBK"]

  /** Whether `sql.length() > 0` after Handle. */
  predicate HasText(e: Emission) {
    match e
    case Silent => false
    case Lobby(p, _) => p.rows > 0
    case Header(_, _, _) => true
    case Final(p, _, _, _) => p.rows > 0
    case Tick(_, _, roster, histories, events, batch) =>
      || (exists car :: car in histories && roster.Has(car))
      || (exists k :: 0 <= k < |events| && events[k].code in EVENT_CODES)
      || batch.Some?
  }

  datatype House = House(
    recv: set<PacketId>,
    cur: set<PacketId>,
    slots: seq<Packet>,
    events: seq<Packet>,
    histories: map<nat, Packet>,
    cars: seq<CarCall>,
    lastReceive: nat,
    begin: nat,
    last: nat,
    uid: nat,
    lastSession: Packet)

  // ----- the specification, on values -----

  predicate WellFormed(h: House) {
    |h.slots| == COUNT
  }

  function New(now: nat): (h: House)
    ensures WellFormed(h)
  {
    House({}, {}, seq(COUNT, _ => ZERO), [], map[], [Init], 0, now, now, 0, ZERO)
  }

  predicate Recv(h: House, id: PacketId)
    requires WellFormed(h)
  {
    id in h.recv && h.slots[id].uid == h.uid
  }

  predicate CurRecv(h: House, id: PacketId)
    requires WellFormed(h)
  {
    id in h.cur && h.slots[id].uid == h.uid
  }

  predicate Enough(h: House)
    requires WellFormed(h)
  {
    && Recv(h, PARTICIPANTS) && Recv(h, SESSION_DATA)
    && CurRecv(h, CAR_MOTION) && CurRecv(h, LAP_DATA) && CurRecv(h, CAR_SETUP)
    && CurRecv(h, CAR_TELEMETRY) && CurRecv(h, CAR_STATUS) && CurRecv(h, CAR_DAMAGE)
  }

  predicate NewSession(h: House)
    requires WellFormed(h)
  {
    SESSION_DATA in h.cur && h.slots[SESSION_DATA].Key() != h.lastSession.Key()
  }

  /** The effect of a stored packet on the derived state, by packet type. */
  function Routed(h: House, p: Packet): (r: House)
    requires WellFormed(h)
    ensures r == h.(events := r.events, histories := r.histories, cars := r.cars)
  {
    if p.id == LAP_DATA then
      if Recv(h, SESSION_DATA) then h.(cars := h.cars + [FillLapData(p)]) else h
    else if p.id == EVENT_DATA then
      h.(events := h.events + [p], cars := if p.code == "FLBK" then h.cars + [SetFlashBack] else h.cars)
    else if p.id == SESSION_HISTORY then
      h.(histories := h.histories[p.carIdx := p], cars := h.cars + [FillHistory(p)])
    else if p.id == SESSION_DATA then h.(cars := h.cars + [FillSession(p)])
    else if p.id in {CAR_STATUS, CAR_TELEMETRY, CAR_DAMAGE, CAR_MOTION} then h.(cars := h.cars + [FillOther(p)])
    else h
  }

  function Stored(h: House, p: Packet, now: nat): (r: House)
    requires WellFormed(h)
    ensures WellFormed(r)
  {
    var h1 := h.(lastReceive := now,
                 lastSession := if p.IsSession() then h.slots[SESSION_DATA] else h.lastSession,
                 slots := h.slots[p.id := p]);
    if p.IsButton() then h1
    else Routed(h1, p).(recv := h.recv + {p.id}, cur := h.cur + {p.id})
  }

  datatype Outcome = Outcome(house: House, isNew: bool, sql: Emission)

  function Handled(h: House, now: nat, later: nat): (o: Outcome)
    requires WellFormed(h)
    ensures WellFormed(o.house)
  {
    if h.cur == {} then Outcome(h, false, Silent)
    else if LOBBY_INFO in h.cur then
      Outcome(h.(cur := h.cur - {LOBBY_INFO}), false, Lobby(h.slots[LOBBY_INFO], now))
    else if NewSession(h) then
      var s := h.slots[SESSION_DATA];
      Outcome(h.(events := [], histories := map[], cars := h.cars + [Init, FillSession(s)],
                 begin := now, last := now, uid := s.uid, cur := h.cur - {SESSION_DATA}),
              true, Header(s, now, now))
    else if !(Recv(h, PARTICIPANTS) && Recv(h, SESSION_DATA)) then Outcome(h, false, Silent)
    else if CurRecv(h, FINAL_CLASSIFICATION) then
      Outcome(h.(cur := h.cur - {FINAL_CLASSIFICATION}), false,
              Final(h.slots[FINAL_CLASSIFICATION], h.slots[SESSION_DATA], h.begin, h.last))
    else
      var h1 := h.(cur := h.cur - {FINAL_CLASSIFICATION});
      if now > h.last then Ticked(h1, later) else Outcome(h1, false, Silent)
  }

  function Ticked(h: House, stamp: nat): (o: Outcome)
    requires WellFormed(h)
    ensures o.house == h.(last := stamp, cur := o.house.cur, events := o.house.events, cars := o.house.cars)
    ensures o.sql.Tick? && !o.isNew
  {
    var flush := CurRecv(h, EVENT_DATA);
    var h1 := h.(last := stamp, cur := h.cur - {SESSION_HISTORY} - {EVENT_DATA},
                 events := if flush then [] else h.events);
    var batch := if Enough(h1) then Some(BatchOf(h1)) else None;
    Outcome(if batch.Some? then h1.(cur := {}, cars := h1.cars + [ToSql]) else h1, false,
            Tick(h.begin, stamp, RosterOf(h), if CurRecv(h, SESSION_HISTORY) then h.histories else map[],
                 if flush then h.events else [], batch))
  }

  function RosterOf(h: House): Roster
    requires WellFormed(h)
  {
    if h.slots[SESSION_DATA].IsTT() then Trial(h.slots[LAP_DATA].pbCar, h.slots[LAP_DATA].rivalCar) else AllCars
  }

  function BatchOf(h: House): Batch
    requires WellFormed(h)
  {
    Batch(h.slots[SESSION_DATA], h.slots[PARTICIPANTS], h.slots[CAR_MOTION], h.slots[LAP_DATA],
          h.slots[CAR_TELEMETRY], h.slots[CAR_STATUS], h.slots[CAR_DAMAGE])
  }

  /** Idle at `now`: nothing stored for more than 300 seconds. */
  const IDLE_THRESHOLD := 300

  predicate Idle(h: House, now: nat) {
    now > h.lastReceive + IDLE_THRESHOLD
  }

  datatype Client = Client(house: House, cache: PacketMap2025.Cache)

  // ----- the class -----

  class PacketHouse {
    var recvBit: set<PacketId>
    var curRecvBit: set<PacketId>
    const packet: array<Packet>
    var eventVec: seq<Packet>
    var allSessionHistory: map<nat, Packet>
    var carCalls: seq<CarCall>
    var lastReceiveTime: nat
    var beginUnixTime: nat
    var lastUnixTime: nat
    var sessionUid: nat
    var lastSession: Packet
    const packetMap2025: PacketMap2025.PacketMap

    predicate Valid()
      reads this, packetMap2025
    {
      packet.Length == COUNT && |packetMap2025.events| <= PacketMap2025.EVENT_WINDOW
    }

    ghost function View(): (h: House)
      reads this, packet
      ensures packet.Length == COUNT ==> WellFormed(h)
    {
      House(recvBit, curRecvBit, packet[..], eventVec, allSessionHistory, carCalls,
            lastReceiveTime, beginUnixTime, lastUnixTime, sessionUid, lastSession)
    }

    /** The whole state of the client, the 2025 cache included. */
    ghost function State(): (c: Client)
      reads this, packet, packetMap2025
      ensures packet.Length == COUNT ==> WellFormed(c.house)
    {
      Client(View(), packetMap2025.View())
    }

    constructor (now: nat)
      ensures Valid() && fresh(packet) && fresh(packetMap2025)
      ensures View() == New(now) && State() == Client(New(now), PacketMap2025.EMPTY)
    {
      packetMap2025 := new PacketMap2025.PacketMap();
      packet := new Packet[COUNT](_ => ZERO);
      recvBit, curRecvBit, eventVec, allSessionHistory, carCalls := {}, {}, [], map[], [];
      lastReceiveTime, sessionUid, lastSession := 0, 0, ZERO;
      new;
      Reset(true, now);
      assert packet[..] == seq(COUNT, _ => ZERO);
    }

    method Reset(includeBit: bool, now: nat)
      requires Valid()
      modifies this
      ensures View() == old(View()).(
                recv := if includeBit then {} else old(recvBit), cur := if includeBit then {} else old(curRecvBit),
                events := [], histories := map[], cars := old(carCalls) + [Init],
                uid := 0, begin := now, last := now)
    {
      if includeBit {
        recvBit := {};
        curRecvBit := {};
      }
      eventVec := [];
      allSessionHistory := map[];
      carCalls := carCalls + [Init];
      sessionUid := 0;
      beginUnixTime := now;
      lastUnixTime := beginUnixTime;
    }

    predicate TestCurRecvPacketExist(id: PacketId, allowSessionDifferent: bool)
      requires Valid()
      reads this, packet, packetMap2025
    {
      id in curRecvBit && (allowSessionDifferent || packet[id].uid == sessionUid)
    }

    predicate TestRecvPacketExist(id: PacketId, allowSessionDifferent: bool)
      requires Valid()
      reads this, packet, packetMap2025
    {
      id in recvBit && (allowSessionDifferent || packet[id].uid == sessionUid)
    }

    method TestCurRecvPacketExistAndClear(id: PacketId, allowSessionDifferent: bool) returns (isExist: bool)
      requires Valid()
      modifies this`curRecvBit
      ensures isExist == old(TestCurRecvPacketExist(id, allowSessionDifferent))
      ensures curRecvBit == old(curRecvBit) - {id}
    {
      isExist := TestCurRecvPacketExist(id, allowSessionDifferent);
      curRecvBit := curRecvBit - {id};
    }

    predicate CheckPacketIsEnough()
      requires Valid()
      reads this, packet, packetMap2025
    {
      TestRecvPacketExist(PARTICIPANTS, false) && TestRecvPacketExist(SESSION_DATA, false) &&
      TestCurRecvPacketExist(CAR_MOTION, false) && TestCurRecvPacketExist(LAP_DATA, false) &&
      TestCurRecvPacketExist(CAR_SETUP, false) && TestCurRecvPacketExist(CAR_TELEMETRY, false) &&
      TestCurRecvPacketExist(CAR_STATUS, false) && TestCurRecvPacketExist(CAR_DAMAGE, false)
    }

    predicate IsNewSession()
      requires Valid()
      reads this, packet, packetMap2025
    {
      TestCurRecvPacketExist(SESSION_DATA, true) &&
      (packet[SESSION_DATA].uid != lastSession.uid ||
       packet[SESSION_DATA].sessionType != lastSession.sessionType ||
       packet[SESSION_DATA].trackId != lastSession.trackId ||
       packet[SESSION_DATA].linkId != lastSession.linkId)
    }

    predicate TestIfIdle(now: nat)
      reads this
    {
      now > lastReceiveTime + IDLE_THRESHOLD
    }

    method Update2025(p: PacketMap2025.Packet)
      requires Valid()
      modifies packetMap2025
      ensures Valid()
      ensures packetMap2025.View() == PacketMap2025.Updated(old(packetMap2025.View()), p)
    {
      packetMap2025.Update(p);
    }

    method Store(p: Packet, now: nat)
      requires Valid()
      modifies this, packet
      ensures View() == Stored(old(View()), p, now)
    {
      lastReceiveTime := now;
      if p.id == SESSION_DATA {
        lastSession := packet[SESSION_DATA];
      }
      packet[p.id] := p;
      if p.id == LAP_DATA {
        if TestRecvPacketExist(SESSION_DATA, false) {
          carCalls := carCalls + [FillLapData(p)];
        }
      } else if p.id == EVENT_DATA {
        if p.code == "BUTN" {
          return;
        }
        eventVec := eventVec + [p];
        if p.code == "FLBK" {
          carCalls := carCalls + [SetFlashBack];
        }
      } else if p.id == SESSION_HISTORY {
        allSessionHistory := allSessionHistory[p.carIdx := p];
        carCalls := carCalls + [FillHistory(p)];
      } else if p.id == SESSION_DATA {
        carCalls := carCalls + [FillSession(p)];
      } else if p.id == CAR_STATUS || p.id == CAR_TELEMETRY || p.id == CAR_DAMAGE || p.id == CAR_MOTION {
        carCalls := carCalls + [FillOther(p)];
      }
      recvBit := recvBit + {p.id};
      curRecvBit := curRecvBit + {p.id};
    }

    method Handle(now: nat, later: nat) returns (isNew: bool, sql: Emission)
      requires Valid()
      modifies this
      ensures Outcome(View(), isNew, sql) == Handled(old(View()), now, later)
    {
      if curRecvBit == {} {
        return false, Silent;
      }
      var lobby := TestCurRecvPacketExistAndClear(LOBBY_INFO, true);
      if lobby {
        return false, Lobby(packet[LOBBY_INFO], now);
      }
      assert View() == old(View());
      if IsNewSession() {
        Reset(false, now);
        var session := packet[SESSION_DATA];
        sessionUid := session.uid;
        carCalls := carCalls + [FillSession(session)];
        curRecvBit := curRecvBit - {SESSION_DATA};
        return true, Header(session, beginUnixTime, lastUnixTime);
      }
      if !(TestRecvPacketExist(PARTICIPANTS, false) && TestRecvPacketExist(SESSION_DATA, false)) {
        return false, Silent;
      }
      var final := TestCurRecvPacketExistAndClear(FINAL_CLASSIFICATION, false);
      if final {
        return false, Final(packet[FINAL_CLASSIFICATION], packet[SESSION_DATA], beginUnixTime, lastUnixTime);
      }
      sql := Silent;
      if now > lastUnixTime {
        sql := RecordSecond(later);
      }
      return false, sql;
    }

    /** The rate-limited part of Handle, entered at most once a second. */
    method RecordSecond(stamp: nat) returns (sql: Emission)
      requires Valid()
      modifies this
      ensures Outcome(View(), false, sql) == Ticked(old(View()), stamp)
    {
      lastUnixTime := stamp;
      var histories, events := map[], [];
      var history := TestCurRecvPacketExistAndClear(SESSION_HISTORY, false);
      if history {
        histories := allSessionHistory;
      }
      var event := TestCurRecvPacketExistAndClear(EVENT_DATA, false);
      if event {
        events := eventVec;
        eventVec := [];
      }
      ghost var before := View();
      assert before == old(View()).(
                         last := stamp, cur := old(curRecvBit) - {SESSION_HISTORY} - {EVENT_DATA},
                         events := if event then [] else old(eventVec));
      var batch := RecordBatch();
      assert View() == before.(cur := curRecvBit, cars := carCalls);
      var roster := AllCars;
      if packet[SESSION_DATA].IsTT() {
        roster := Trial(packet[LAP_DATA].pbCar, packet[LAP_DATA].rivalCar);
      }
      sql := Tick(beginUnixTime, lastUnixTime, roster, histories, events, batch);
    }

    method RecordBatch() returns (batch: Option<Batch>)
      requires Valid()
      modifies this`carCalls, this`curRecvBit
      ensures batch == if Enough(old(View())) then Some(BatchOf(old(View()))) else None
      ensures curRecvBit == if batch.Some? then {} else old(curRecvBit)
      ensures carCalls == if batch.Some? then old(carCalls) + [ToSql] else old(carCalls)
    {
      batch := None;
      if CheckPacketIsEnough() {
        batch := Some(Batch(packet[SESSION_DATA], packet[PARTICIPANTS], packet[CAR_MOTION], packet[LAP_DATA],
                            packet[CAR_TELEMETRY], packet[CAR_STATUS], packet[CAR_DAMAGE]));
        carCalls := carCalls + [ToSql];
        curRecvBit := {};
      }
    }
  }
}
