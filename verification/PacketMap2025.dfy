/** `f1_2025::PacketMap`: the incremental cache of 2025-format packets, and its agreement with a
    recomputation from the whole packet log. */
module PacketMap2025 {
  // ePacketId values of the 2025 format.
  const MOTION := 0
  const SESSION := 1
  const LAP_DATA := 2
  const EVENT := 3
  const PARTICIPANTS := 4
  const CAR_SETUPS := 5
  const CAR_TELEMETRY := 6
  const CAR_STATUS := 7
  const FINAL_CLASSIFICATION := 8
  const LOBBY_INFO := 9
  const CAR_DAMAGE := 10
  const SESSION_HISTORY := 11
  const TYRE_SETS := 12
  const MOTION_EX := 13
  const TIME_TRIAL := 14
  const LAP_POSITIONS := 15

  const EVENT_WINDOW := 100

  datatype Key = Key(uid: nat, sessionType: nat, trackId: int)

  /** A packet of the union. `key` is read only when `id` is SESSION, `carIdx` only for the two
      per-car types; `body` stands for everything else. */
  datatype Packet = Packet(id: nat, key: Key, carIdx: nat, body: int)

  /** The all-zero memory Unset leaves behind. */
  const ZERO := Packet(0, Key(0, 0, 0), 0, 0)

  datatype Cache = Cache(
    motion: Packet, session: Packet, lapData: Packet, events: seq<Packet>, participants: Packet,
    carSetup: Packet, carTelemetry: Packet, carStatus: Packet, finalClassification: Packet,
    lobbyInfo: Packet, carDamage: Packet, sessionHistory: map<nat, Packet>, tyreSets: map<nat, Packet>,
    motionEx: Packet, timeTrial: Packet, lapPositions: Packet)

  const EMPTY := Cache(ZERO, ZERO, ZERO, [], ZERO, ZERO, ZERO, ZERO, ZERO, ZERO, ZERO, map[], map[],
                       ZERO, ZERO, ZERO)

  // ----- the log -----

  function LastSessionKey(log: seq<Packet>): Key {
    if log == [] then ZERO.key
    else if log[|log| - 1].id == SESSION then log[|log| - 1].key
    else LastSessionKey(log[..|log| - 1])
  }

  /** Packet i announces a session other than the one before it. */
  predicate Changes(log: seq<Packet>, i: nat)
    requires i < |log|
  {
    log[i].id == SESSION && log[i].key != LastSessionKey(log[..i])
  }

  /** Where the current session starts: the latest change, or 0. */
  function SessionStart(log: seq<Packet>): (k: nat)
    ensures k <= |log| && (log != [] ==> k < |log|)
  {
    if log == [] then 0
    else if Changes(log, |log| - 1) then |log| - 1
    else SessionStart(log[..|log| - 1])
  }

  lemma {:induction false} SessionStartIsLatestChange(log: seq<Packet>)
    ensures SessionStart(log) > 0 ==> Changes(log, SessionStart(log))
    ensures forall i :: SessionStart(log) < i < |log| ==> !Changes(log, i)
  {
    if log != [] && !Changes(log, |log| - 1) {
      var front := log[..|log| - 1];
      SessionStartIsLatestChange(front);
      forall i | 0 <= i < |front| ensures Changes(front, i) == Changes(log, i) {
        assert front[..i] == log[..i];
      }
    }
  }

  /** The last packet of `part` that satisfies the id (and car) asked for, or `absent`. */
  function LastOf(part: seq<Packet>, id: nat, absent: Packet): Packet {
    if part == [] then absent
    else if part[|part| - 1].id == id then part[|part| - 1]
    else LastOf(part[..|part| - 1], id, absent)
  }

  /** Position i holds the last packet of the part with the id; -1 when there is none. */
  lemma {:induction false} LastOfIsLast(part: seq<Packet>, id: nat, absent: Packet, i: int)
    requires -1 <= i < |part| && (i >= 0 ==> part[i].id == id)
    requires forall j :: i < j < |part| ==> part[j].id != id
    ensures LastOf(part, id, absent) == if i < 0 then absent else part[i]
  {
    if part != [] && i < |part| - 1 {
      LastOfIsLast(part[..|part| - 1], id, absent, i);
    }
  }

  predicate Concerns(p: Packet, id: nat, car: nat) {
    p.id == id && p.carIdx == car
  }

  /** Position i holds the last packet with the id of the car; -1 when there is none. */
  lemma {:induction false} LastPerCarIsLast(part: seq<Packet>, id: nat, car: nat, i: int)
    requires -1 <= i < |part| && (i >= 0 ==> Concerns(part[i], id, car))
    requires forall j :: i < j < |part| ==> !Concerns(part[j], id, car)
    ensures car in LastPerCar(part, id) <==> i >= 0
    ensures i >= 0 ==> LastPerCar(part, id)[car] == part[i]
  {
    if part != [] && i < |part| - 1 {
      LastPerCarIsLast(part[..|part| - 1], id, car, i);
    }
  }

  function LastPerCar(part: seq<Packet>, id: nat): map<nat, Packet> {
    if part == [] then map[]
    else
      var p := part[|part| - 1];
      var m := LastPerCar(part[..|part| - 1], id);
      if p.id == id then m[p.carIdx := p] else m
  }

  function Only(part: seq<Packet>, id: nat): seq<Packet> {
    if part == [] then []
    else Only(part[..|part| - 1], id) + if part[|part| - 1].id == id then [part[|part| - 1]] else []
  }

  function LastN(s: seq<Packet>, n: nat): seq<Packet> {
    if |s| <= n then s else s[|s| - n..]
  }

  /** What the packets of one session leave in the cache. */
  function Summary(part: seq<Packet>): Cache {
    Cache(LastOf(part, MOTION, ZERO), LastOf(part, SESSION, ZERO), LastOf(part, LAP_DATA, ZERO),
          LastN(Only(part, EVENT), EVENT_WINDOW), LastOf(part, PARTICIPANTS, ZERO),
          LastOf(part, CAR_SETUPS, ZERO), LastOf(part, CAR_TELEMETRY, ZERO), LastOf(part, CAR_STATUS, ZERO),
          LastOf(part, FINAL_CLASSIFICATION, ZERO), LastOf(part, LOBBY_INFO, ZERO),
          LastOf(part, CAR_DAMAGE, ZERO), LastPerCar(part, SESSION_HISTORY), LastPerCar(part, TYRE_SETS),
          LastOf(part, MOTION_EX, ZERO), LastOf(part, TIME_TRIAL, ZERO), LastOf(part, LAP_POSITIONS, ZERO))
  }

  // ----- one update -----

  /** The cache with one more packet of the same session. */
  function Stored(c: Cache, p: Packet): Cache {
    match p.id
    case 0 => c.(motion := p)
    case 1 => c.(session := p)
    case 2 => c.(lapData := p)
    case 3 => c.(events := LastN(c.events + [p], EVENT_WINDOW))
    case 4 => c.(participants := p)
    case 5 => c.(carSetup := p)
    case 6 => c.(carTelemetry := p)
    case 7 => c.(carStatus := p)
    case 8 => c.(finalClassification := p)
    case 9 => c.(lobbyInfo := p)
    case 10 => c.(carDamage := p)
    case 11 => c.(sessionHistory := c.sessionHistory[p.carIdx := p])
    case 12 => c.(tyreSets := c.tyreSets[p.carIdx := p])
    case 13 => c.(motionEx := p)
    case 14 => c.(timeTrial := p)
    case 15 => c.(lapPositions := p)
    case _ => c
  }

  function Updated(c: Cache, p: Packet): Cache {
    if p.id == SESSION && c.session.key != p.key then Stored(EMPTY, p) else Stored(c, p)
  }

  function Run(log: seq<Packet>): Cache {
    if log == [] then EMPTY else Updated(Run(log[..|log| - 1]), log[|log| - 1])
  }

  class PacketMap {
    var motion: Packet
    var session: Packet
    var lapData: Packet
    var events: seq<Packet>
    var participants: Packet
    var carSetup: Packet
    var carTelemetry: Packet
    var carStatus: Packet
    var finalClassification: Packet
    var lobbyInfo: Packet
    var carDamage: Packet
    var sessionHistory: map<nat, Packet>
    var tyreSets: map<nat, Packet>
    var motionEx: Packet
    var timeTrial: Packet
    var lapPositions: Packet

    function View(): Cache
      reads this
    {
      Cache(motion, session, lapData, events, participants, carSetup, carTelemetry, carStatus,
            finalClassification, lobbyInfo, carDamage, sessionHistory, tyreSets, motionEx, timeTrial,
            lapPositions)
    }

    constructor ()
      ensures View() == EMPTY
    {
      motion, session, lapData, events, participants, carSetup := ZERO, ZERO, ZERO, [], ZERO, ZERO;
      carTelemetry, carStatus, finalClassification, lobbyInfo := ZERO, ZERO, ZERO, ZERO;
      carDamage, sessionHistory, tyreSets := ZERO, map[], map[];
      motionEx, timeTrial, lapPositions := ZERO, ZERO, ZERO;
    }

    method Unset()
      modifies this
      ensures View() == EMPTY
    {
      UnsetFirst();
      carStatus := ZERO;
      finalClassification := ZERO;
      lobbyInfo := ZERO;
      carDamage := ZERO;
      sessionHistory := map[];
      tyreSets := map[];
      motionEx := ZERO;
      timeTrial := ZERO;
      lapPositions := ZERO;
    }

    /** The first seven members of Unset. */
    method UnsetFirst()
      modifies this`motion, this`session, this`lapData, this`events, this`participants, this`carSetup, this`carTelemetry
      ensures motion == session == lapData == participants == carSetup == carTelemetry == ZERO && events == []
    {
      motion := ZERO;
      session := ZERO;
      lapData := ZERO;
      events := [];
      participants := ZERO;
      carSetup := ZERO;
      carTelemetry := ZERO;
    }

    /** The session case of Update. */
    method UpdateSession(packet: Packet)
      requires |events| <= EVENT_WINDOW && packet.id == SESSION
      modifies this
      ensures |events| <= EVENT_WINDOW
      ensures View() == Updated(old(View()), packet)
    {
      if session.key != packet.key {
        Unset();
      }
      session := packet;
    }

    /** The event case of Update. */
    method UpdateEvents(packet: Packet)
      requires |events| <= EVENT_WINDOW && packet.id == EVENT
      modifies this`events
      ensures |events| <= EVENT_WINDOW
      ensures View() == Updated(old(View()), packet)
    {
      events := events + [packet];
      if |events| > EVENT_WINDOW {
        events := events[1..];
      }
    }

    /** The cases of Update that describe the cars on track. */
    method UpdateCars(packet: Packet)
      requires 4 <= packet.id <= 10
      modifies this`participants, this`carSetup, this`carTelemetry, this`carStatus, this`finalClassification,
               this`lobbyInfo, this`carDamage
      ensures View() == Updated(old(View()), packet)
    {
      match packet.id {
        case 4 => participants := packet;
        case 5 => carSetup := packet;
        case 6 => carTelemetry := packet;
        case 7 => carStatus := packet;
        case 8 => finalClassification := packet;
        case 9 => lobbyInfo := packet;
        case _ => carDamage := packet;
      }
    }

    /** The cases of Update from session history on. */
    method UpdateOthers(packet: Packet)
      requires packet.id >= 11
      modifies this`sessionHistory, this`tyreSets, this`motionEx, this`timeTrial, this`lapPositions
      ensures View() == Updated(old(View()), packet)
    {
      match packet.id {
        case 11 => sessionHistory := sessionHistory[packet.carIdx := packet];
        case 12 => tyreSets := tyreSets[packet.carIdx := packet];
        case 13 => motionEx := packet;
        case 14 => timeTrial := packet;
        case 15 => lapPositions := packet;
        case _ =>
      }
    }

    method Update(packet: Packet)
      requires |events| <= EVENT_WINDOW
      modifies this
      ensures |events| <= EVENT_WINDOW
      ensures View() == Updated(old(View()), packet)
    {
      match packet.id {
        case 0 => motion := packet;
        case 1 => UpdateSession(packet);
        case 2 => lapData := packet;
        case 3 => UpdateEvents(packet);
        case _ => if packet.id <= 10 { UpdateCars(packet); } else { UpdateOthers(packet); }
      }
    }
  }

  // ----- the cache is the log -----

  /** The cached session packet carries the key of the latest session packet of the log. */
  lemma {:induction false} CachedKey(log: seq<Packet>)
    ensures Run(log).session.key == LastSessionKey(log)
  {
    if log != [] { CachedKey(log[..|log| - 1]); }
  }

  lemma SlidingWindow(s: seq<Packet>, p: Packet)
    ensures LastN(LastN(s, EVENT_WINDOW) + [p], EVENT_WINDOW) == LastN(s + [p], EVENT_WINDOW)
  {
  }

  lemma PartsStep(part: seq<Packet>, p: Packet)
    ensures forall id :: LastOf(part + [p], id, ZERO) == if p.id == id then p else LastOf(part, id, ZERO)
    ensures forall id :: Only(part + [p], id) == if p.id == id then Only(part, id) + [p] else Only(part, id)
    ensures forall id :: LastPerCar(part + [p], id) ==
                           if p.id == id then LastPerCar(part, id)[p.carIdx := p] else LastPerCar(part, id)
  {
    assert (part + [p])[..|part|] == part;
  }

  lemma SummaryStep(part: seq<Packet>, p: Packet)
    ensures Summary(part + [p]) == Stored(Summary(part), p)
  {
    PartsStep(part, p);
    SlidingWindow(Only(part, EVENT), p);
    hide LastOf, LastPerCar, Only;
  }

  /** After any run of Update every slot holds the last packet of its type since the latest change
      of session, the per-car maps hold the last packet per car, and the events are exactly the
      last hundred (or fewer) since that change. */
  lemma {:induction false} CacheEqualsLog(log: seq<Packet>)
    ensures Run(log) == Summary(log[SessionStart(log)..])
  {
    if log != [] {
      var front, p := log[..|log| - 1], log[|log| - 1];
      CacheEqualsLog(front);
      CachedKey(front);
      if Changes(log, |log| - 1) {
        assert log[SessionStart(log)..] == [] + [p];
        SummaryStep([], p);
      } else {
        assert log[SessionStart(log)..] == front[SessionStart(front)..] + [p];
        SummaryStep(front[SessionStart(front)..], p);
      }
    }
  }

  // ----- the event window -----

  /** The positions of the events of a log, in order. */
  function EventPositions(part: seq<Packet>): (at: seq<nat>)
    ensures forall k :: 0 <= k < |at| ==> at[k] < |part| && part[at[k]].id == EVENT
    ensures forall k :: 0 < k < |at| ==> at[k - 1] < at[k]
    ensures forall i :: 0 <= i < |part| && part[i].id == EVENT ==> i in at
  {
    if part == [] then []
    else
      var n := |part| - 1;
      var front := EventPositions(part[..n]);
      assert forall i :: 0 <= i < n ==> part[..n][i] == part[i];
      if part[n].id == EVENT then front + [n] else front
  }

  lemma {:induction false} EventsAtPositions(part: seq<Packet>)
    ensures var at := EventPositions(part);
            && |Only(part, EVENT)| == |at|
            && forall k :: 0 <= k < |at| ==> Only(part, EVENT)[k] == part[at[k]]
  {
    if part != [] {
      var n := |part| - 1;
      EventsAtPositions(part[..n]);
      assert forall i :: 0 <= i < n ==> part[..n][i] == part[i];
    }
  }

  lemma WindowIs(s: seq<Packet>)
    ensures |LastN(s, EVENT_WINDOW)| == (if |s| < 100 then |s| else 100)
    ensures forall k :: 0 <= k < |LastN(s, EVENT_WINDOW)| ==>
              LastN(s, EVENT_WINDOW)[k] == s[|s| - |LastN(s, EVENT_WINDOW)| + k]
  {
  }

  /** After any run, with n events since the latest session change, the cache holds min(100, n) of them,
      the newest ones in order: entry k is event number n - |events| + k. */
  lemma EventWindowExactly(log: seq<Packet>)
    ensures var part := log[SessionStart(log)..];
            var at, events := EventPositions(part), Run(log).events;
            && |events| == (if |at| < 100 then |at| else 100)
            && forall k :: 0 <= k < |events| ==> events[k] == part[at[|at| - |events| + k]]
  {
    CacheEqualsLog(log);
    hide LastN, Only, EventPositions, Run, SessionStart;
    WindowOfPart(log[SessionStart(log)..]);
  }

  lemma WindowOfPart(part: seq<Packet>)
    ensures var at, events := EventPositions(part), LastN(Only(part, EVENT), EVENT_WINDOW);
            && |events| == (if |at| < 100 then |at| else 100)
            && forall k :: 0 <= k < |events| ==> events[k] == part[at[|at| - |events| + k]]
  {
    hide LastN, Only, EventPositions;
    var all, at := Only(part, EVENT), EventPositions(part);
    EventsAtPositions(part);
    WindowIs(all);
    var events := LastN(all, EVENT_WINDOW);
    forall k | 0 <= k < |events| ensures events[k] == part[at[|at| - |events| + k]] {
      assert events[k] == all[|all| - |events| + k];
    }
  }

  /** In particular an event just given is the last of the window. */
  lemma NewestEventIsLast(log: seq<Packet>, p: Packet)
    requires p.id == 3
    ensures var events := Run(log + [p]).events; events != [] && events[|events| - 1] == p
  {
    var longer := log + [p];
    var part := longer[SessionStart(longer)..];
    EventWindowExactly(longer);
    var at := EventPositions(part);
    assert part[|part| - 1] == p;
    LastPosition(part);
    hide Run, EventPositions, SessionStart;
  }

  lemma LastPosition(part: seq<Packet>)
    requires part != [] && part[|part| - 1].id == EVENT
    ensures EventPositions(part) != [] && EventPositions(part)[|EventPositions(part)| - 1] == |part| - 1
  {
  }
}
