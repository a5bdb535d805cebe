/** Whole runs of one house: every packet is stored and then handled, as the server does. All
    theorems speak of the last step of an arbitrary run, hence of every step of every run. */
module HouseRuns {
  import opened Packets
  import opened PacketHouses

  /** One datagram: a 2022 packet is stored at time `at` and handled; a datagram of a format that
      is neither 2022 nor 2025 is only handled. `now` and `later` are Handle's clock readings. */
  datatype Input =
    | Datagram(p: Packet, at: nat, now: nat, later: nat)
    | Foreign(now: nat, later: nat)

  function Turn(h: House, i: Input): (o: Outcome)
    requires WellFormed(h)
    ensures WellFormed(o.house)
  {
    match i
    case Datagram(p, at, now, later) => Handled(Stored(h, p, at), now, later)
    case Foreign(now, later) => Handled(h, now, later)
  }

  /** The house created at t0, after the inputs. */
  function After(t0: nat, ins: seq<Input>): (h: House)
    ensures WellFormed(h)
  {
    if ins == [] then New(t0) else LastOut(t0, ins).house
  }

  /** The outcome of the last step. */
  function LastOut(t0: nat, ins: seq<Input>): (o: Outcome)
    requires ins != []
    ensures WellFormed(o.house)
    decreases |ins|, 0
  {
    var n := |ins| - 1;
    Turn(if n == 0 then New(t0) else LastOut(t0, ins[..n]).house, ins[n])
  }

  /** The outcome of step k. */
  function OutAt(t0: nat, ins: seq<Input>, k: nat): Outcome
    requires k < |ins|
  {
    LastOut(t0, ins[..k + 1])
  }

  lemma LastStep(t0: nat, ins: seq<Input>)
    requires ins != []
    ensures LastOut(t0, ins) == Turn(After(t0, ins[..|ins| - 1]), ins[|ins| - 1])
    ensures After(t0, ins) == LastOut(t0, ins).house
  {
  }

  lemma OutOfPrefix(t0: nat, ins: seq<Input>, n: nat, k: nat)
    requires k < n <= |ins|
    ensures OutAt(t0, ins[..n], k) == OutAt(t0, ins, k)
  {
    assert ins[..n][..k + 1] == ins[..k + 1];
  }

  // ----- the log -----

  predicate Stores(i: Input, id: PacketId) {
    i.Datagram? && i.p.id == id
  }

  /** Position of the last packet of the type, or -1. */
  function LastIndex(ins: seq<Input>, id: PacketId): (k: int)
    ensures -1 <= k < |ins|
    ensures k >= 0 ==> Stores(ins[k], id)
    ensures forall j :: k < j < |ins| ==> !Stores(ins[j], id)
  {
    if ins == [] then -1
    else if Stores(ins[|ins| - 1], id) then |ins| - 1
    else
      var k := LastIndex(ins[..|ins| - 1], id);
      assert forall j :: 0 <= j < |ins| - 1 ==> ins[..|ins| - 1][j] == ins[j];
      k
  }

  function LastPacket(ins: seq<Input>, id: PacketId): Packet {
    var k := LastIndex(ins, id);
    if k < 0 then ZERO else ins[k].p
  }

  /** The stored packet of each type is the last one of the log, and a type counts as received
      once the log holds a packet of it (EventData aside, where button events do not count). */
  ghost predicate SlotsMatch(h: House, ins: seq<Input>)
    requires WellFormed(h)
  {
    && (forall id: PacketId :: h.slots[id] == LastPacket(ins, id))
    && (forall id: PacketId :: id != EVENT_DATA ==> (id in h.recv <==> LastIndex(ins, id) >= 0))
    && h.cur <= h.recv
  }

  /** What holds of a house between two datagrams. */
  ghost predicate Settled(h: House)
    requires WellFormed(h)
  {
    && LOBBY_INFO !in h.cur
    && (SESSION_DATA in h.cur ==> h.lastSession.Key() == h.slots[SESSION_DATA].Key())
    && h.uid == h.slots[SESSION_DATA].uid
  }

  lemma LastIndexStep(ins: seq<Input>, id: PacketId)
    requires ins != []
    ensures LastIndex(ins, id) == if Stores(ins[|ins| - 1], id) then |ins| - 1 else LastIndex(ins[..|ins| - 1], id)
    ensures LastPacket(ins, id) == if Stores(ins[|ins| - 1], id) then ins[|ins| - 1].p
                                   else LastPacket(ins[..|ins| - 1], id)
  {
  }

  /** A turn's effect on slots and bits. */
  lemma TurnStores(h: House, i: Input)
    requires WellFormed(h) && h.cur <= h.recv
    ensures var h' := Turn(h, i).house;
            && h'.slots == (if i.Datagram? then h.slots[i.p.id := i.p] else h.slots)
            && h'.recv == (if i.Datagram? && !i.p.IsButton() then h.recv + {i.p.id} else h.recv)
            && h'.cur <= h'.recv
  {
    hide Routed;
  }

  lemma TurnSettles(h: House, i: Input)
    requires WellFormed(h) && Settled(h)
    ensures Settled(Turn(h, i).house)
    ensures Turn(h, i).isNew <==> IsSessionInput(i) && i.p.Key() != h.slots[SESSION_DATA].Key()
    ensures Turn(h, i).isNew <==> Turn(h, i).sql.Header?
  {
    hide Routed;
  }

  lemma {:induction false} LogInvariant(t0: nat, ins: seq<Input>)
    ensures SlotsMatch(After(t0, ins), ins) && Settled(After(t0, ins))
  {
    if ins != [] {
      hide Turn;
      LogInvariant(t0, ins[..|ins| - 1]);
      LastStep(t0, ins);
      TurnStores(After(t0, ins[..|ins| - 1]), ins[|ins| - 1]);
      TurnSettles(After(t0, ins[..|ins| - 1]), ins[|ins| - 1]);
      forall id: PacketId { LastIndexStep(ins, id); }
    }
  }

  // ----- session edges -----

  predicate IsSessionInput(i: Input) {
    Stores(i, SESSION_DATA)
  }

  /** Handle reports a new session exactly when the packet just stored is SessionData whose key
      differs from the previous SessionData's (the zero key at the start). */
  lemma SessionEdgesAreExact(t0: nat, ins: seq<Input>)
    requires ins != []
    ensures LastOut(t0, ins).isNew <==>
              && IsSessionInput(ins[|ins| - 1])
              && ins[|ins| - 1].p.Key() != LastPacket(ins[..|ins| - 1], SESSION_DATA).Key()
    ensures IsSessionInput(ins[|ins| - 1]) ==>
              var p, q := ins[|ins| - 1].p, LastPacket(ins[..|ins| - 1], SESSION_DATA);
              LastOut(t0, ins).isNew <==>
                p.uid != q.uid || p.sessionType != q.sessionType || p.trackId != q.trackId || p.linkId != q.linkId
    ensures LastOut(t0, ins).isNew <==> LastOut(t0, ins).sql.Header?
  {
    hide Turn;
    LogInvariant(t0, ins[..|ins| - 1]);
    LastStep(t0, ins);
    TurnSettles(After(t0, ins[..|ins| - 1]), ins[|ins| - 1]);
  }

  /** The test of the SessionData slot against session_uid_ never fails once SessionData came, so
      FillLapData is not guarded by the session the lap packet itself belongs to. */
  lemma SessionTestIsRedundant(t0: nat, ins: seq<Input>)
    ensures Recv(After(t0, ins), SESSION_DATA) <==> exists k :: 0 <= k < |ins| && IsSessionInput(ins[k])
  {
    hide Turn;
    LogInvariant(t0, ins);
    var k := LastIndex(ins, SESSION_DATA);
    assert k >= 0 ==> IsSessionInput(ins[k]);
  }

  // ----- batches -----

  /** The six types a batch needs anew each time. */
  predicate Fresh(id: PacketId) {
    id in {CAR_MOTION, LAP_DATA, CAR_SETUP, CAR_TELEMETRY, CAR_STATUS, CAR_DAMAGE}
  }

  predicate HasBatch(e: Emission) {
    e.Tick? && e.batch.Some?
  }

  /** Position of the last step that emitted a batch, or -1. */
  function LastBatch(t0: nat, ins: seq<Input>): (k: int)
    ensures -1 <= k < |ins|
  {
    if ins == [] then -1
    else if HasBatch(LastOut(t0, ins).sql) then |ins| - 1
    else LastBatch(t0, ins[..|ins| - 1])
  }

  lemma TickedBits(h: House, stamp: nat, id: PacketId)
    requires WellFormed(h) && Fresh(id)
    ensures id in Ticked(h, stamp).house.cur <==> id in h.cur && !HasBatch(Ticked(h, stamp).sql)
  {
  }

  lemma TurnFreshness(h: House, i: Input, id: PacketId)
    requires WellFormed(h) && Fresh(id)
    ensures id in Turn(h, i).house.cur <==> (id in h.cur || Stores(i, id)) && !HasBatch(Turn(h, i).sql)
  {
    hide Routed, Ticked;
    var s := if i.Datagram? then Stored(h, i.p, i.at) else h;
    TickedBits(s.(cur := s.cur - {FINAL_CLASSIFICATION}), i.later, id);
  }

  lemma TurnBatch(h: House, i: Input)
    requires WellFormed(h) && HasBatch(Turn(h, i).sql)
    ensures var h' := Turn(h, i).house;
            && Turn(h, i).sql.batch.value == BatchOf(h')
            && h'.slots[PARTICIPANTS].uid == h'.slots[SESSION_DATA].uid == h.uid
            && PARTICIPANTS in h'.recv && SESSION_DATA in h'.recv
            && forall id: PacketId :: Fresh(id) ==> h'.slots[id].uid == h.uid && (id in h.cur || Stores(i, id))
  {
    hide Routed;
  }

  /** The current bit of each of the six types says exactly "stored since the last batch". */
  lemma {:induction false} FreshBitsAreExact(t0: nat, ins: seq<Input>, id: PacketId)
    requires Fresh(id)
    ensures id in After(t0, ins).cur <==> LastIndex(ins, id) > LastBatch(t0, ins)
  {
    if ins != [] {
      hide Turn;
      FreshBitsAreExact(t0, ins[..|ins| - 1], id);
      LastStep(t0, ins);
      TurnFreshness(After(t0, ins[..|ins| - 1]), ins[|ins| - 1], id);
      LastIndexStep(ins, id);
    }
  }

  /** A batch is coherent and fresh: all eight packet types tested carry the session's uid, the six
      were stored after the previous batch, and the batch writes the latest packet of each type. */
  lemma BatchCoherentAndFresh(t0: nat, ins: seq<Input>)
    requires ins != [] && HasBatch(LastOut(t0, ins).sql)
    ensures var b := LastOut(t0, ins).sql.batch.value;
            var uid := LastPacket(ins, SESSION_DATA).uid;
            && (forall id: PacketId :: Fresh(id) || id == PARTICIPANTS ==> LastPacket(ins, id).uid == uid)
            && (forall id: PacketId :: Fresh(id) ==> LastIndex(ins, id) > LastBatch(t0, ins[..|ins| - 1]))
            && LastIndex(ins, SESSION_DATA) >= 0 && LastIndex(ins, PARTICIPANTS) >= 0
            && b == Batch(LastPacket(ins, SESSION_DATA), LastPacket(ins, PARTICIPANTS), LastPacket(ins, CAR_MOTION),
                          LastPacket(ins, LAP_DATA), LastPacket(ins, CAR_TELEMETRY), LastPacket(ins, CAR_STATUS),
                          LastPacket(ins, CAR_DAMAGE))
  {
    hide Turn;
    var front := ins[..|ins| - 1];
    LogInvariant(t0, ins);
    LastStep(t0, ins);
    TurnBatch(After(t0, front), ins[|ins| - 1]);
    forall id: PacketId | Fresh(id) ensures LastIndex(ins, id) > LastBatch(t0, front) {
      FreshBitsAreExact(t0, front, id);
      LastIndexStep(ins, id);
    }
  }

  // ----- what the other emissions carry -----

  lemma TurnEmits(h: House, i: Input)
    requires WellFormed(h) && Settled(h) && h.cur <= h.recv
    ensures var e, h' := Turn(h, i).sql, Turn(h, i).house;
            && (e.Lobby? <==> Stores(i, LOBBY_INFO))
            && (e.Lobby? ==> e == Lobby(i.p, i.now))
            && (e.Header? ==> Stores(i, SESSION_DATA) && e == Header(i.p, i.now, i.now) && h'.begin == h'.last == i.now)
            && (e.Final? ==> e == Final(h'.slots[FINAL_CLASSIFICATION], h'.slots[SESSION_DATA], h'.begin, h'.last)
                             && h'.slots[FINAL_CLASSIFICATION].uid == h'.slots[PARTICIPANTS].uid == h'.uid
                             && FINAL_CLASSIFICATION in h'.recv && FINAL_CLASSIFICATION !in h'.cur)
  {
    hide Routed;
  }

  /** A lobby row goes out exactly when the packet just stored is LobbyInfo, before anything else; a
      header and a final row carry the latest packets of the log and the stamps of the session. */
  lemma EmissionsCarryTheLog(t0: nat, ins: seq<Input>)
    requires ins != []
    ensures var e, i := LastOut(t0, ins).sql, ins[|ins| - 1];
            && (e.Lobby? <==> Stores(i, LOBBY_INFO))
            && (e.Lobby? ==> e == Lobby(i.p, i.now))
            && (e.Header? ==> e == Header(LastPacket(ins, SESSION_DATA), i.now, i.now))
            && (e.Final? ==>
                  && e == Final(LastPacket(ins, FINAL_CLASSIFICATION), LastPacket(ins, SESSION_DATA),
                                After(t0, ins).begin, After(t0, ins).last)
                  && LastIndex(ins, FINAL_CLASSIFICATION) >= 0
                  && LastPacket(ins, FINAL_CLASSIFICATION).uid == LastPacket(ins, PARTICIPANTS).uid
                                                               == LastPacket(ins, SESSION_DATA).uid)
  {
    hide Turn;
    LogInvariant(t0, ins[..|ins| - 1]);
    LogInvariant(t0, ins);
    LastStep(t0, ins);
    TurnEmits(After(t0, ins[..|ins| - 1]), ins[|ins| - 1]);
    LastIndexStep(ins, SESSION_DATA);
  }

  // ----- the clock -----

  function StartTime(i: Input): nat {
    if i.Datagram? then i.at else i.now
  }

  function EndTime(t0: nat, ins: seq<Input>): nat {
    if ins == [] then t0 else ins[|ins| - 1].later
  }

  /** The readings of the run never go backwards. */
  ghost predicate Clocked(t0: nat, ins: seq<Input>) {
    forall k :: 0 <= k < |ins| ==>
      EndTime(t0, ins[..k]) <= StartTime(ins[k]) <= ins[k].now <= ins[k].later
  }

  lemma ClockedPrefix(t0: nat, ins: seq<Input>, n: nat)
    requires Clocked(t0, ins) && n <= |ins|
    ensures Clocked(t0, ins[..n])
  {
    forall k | 0 <= k < n
      ensures EndTime(t0, ins[..n][..k]) <= StartTime(ins[..n][k]) <= ins[..n][k].now <= ins[..n][k].later
    {
      assert ins[..n][..k] == ins[..k];
    }
  }

  lemma TurnStamps(h: House, i: Input, t: nat)
    requires WellFormed(h) && h.begin <= h.last <= t <= StartTime(i) <= i.now <= i.later
    ensures var o := Turn(h, i);
            && h.begin <= o.house.begin <= o.house.last <= i.later
            && h.last <= o.house.last
            && (o.sql.Tick? ==> h.last < o.sql.current == o.house.last && o.sql.begin < o.sql.current)
  {
    hide Routed;
  }

  lemma {:induction false} StampBounds(t0: nat, ins: seq<Input>)
    requires Clocked(t0, ins)
    ensures t0 <= After(t0, ins).begin <= After(t0, ins).last <= EndTime(t0, ins)
  {
    if ins != [] {
      hide Turn;
      var front := ins[..|ins| - 1];
      ClockedPrefix(t0, ins, |ins| - 1);
      StampBounds(t0, front);
      LastStep(t0, ins);
      TurnStamps(After(t0, front), ins[|ins| - 1], EndTime(t0, front));
    }
  }

  /** One step never moves last_unix_time_ back, and a tick stamps the new value. */
  lemma StampStep(t0: nat, ins: seq<Input>)
    requires Clocked(t0, ins) && ins != []
    ensures After(t0, ins[..|ins| - 1]).last <= After(t0, ins).last
    ensures var e := LastOut(t0, ins).sql;
            e.Tick? ==> After(t0, ins[..|ins| - 1]).last < e.current == After(t0, ins).last && e.begin < e.current
  {
    hide Turn;
    var front := ins[..|ins| - 1];
    ClockedPrefix(t0, ins, |ins| - 1);
    StampBounds(t0, front);
    LastStep(t0, ins);
    TurnStamps(After(t0, front), ins[|ins| - 1], EndTime(t0, front));
  }

  lemma {:induction false} StampsGrow(t0: nat, ins: seq<Input>, j: nat)
    requires Clocked(t0, ins) && j <= |ins|
    ensures After(t0, ins[..j]).last <= After(t0, ins).last
  {
    if j == |ins| {
      assert ins[..j] == ins;
    } else {
      hide Turn;
      ClockedPrefix(t0, ins, |ins| - 1);
      assert ins[..|ins| - 1][..j] == ins[..j];
      StampsGrow(t0, ins[..|ins| - 1], j);
      StampStep(t0, ins);
    }
  }

  lemma StampsIncrease(t0: nat, ins: seq<Input>, j: nat, k: nat)
    requires Clocked(t0, ins) && j < k < |ins|
    requires OutAt(t0, ins, j).sql.Tick? && OutAt(t0, ins, k).sql.Tick?
    ensures t0 <= OutAt(t0, ins, j).sql.current < OutAt(t0, ins, k).sql.current <= EndTime(t0, ins)
    ensures OutAt(t0, ins, k).sql.begin < OutAt(t0, ins, k).sql.current
  {
    hide Turn, Clocked, EndTime, After, LastOut;
    var a, b := ins[..j + 1], ins[..k + 1];
    ClockedPrefix(t0, ins, j + 1);
    ClockedPrefix(t0, ins, k + 1);
    StampStep(t0, a);
    StampStep(t0, b);
    assert b[..|b| - 1][..j + 1] == a;
    ClockedPrefix(t0, b, |b| - 1);
    StampsGrow(t0, b[..|b| - 1], j + 1);
    StampBounds(t0, a);
    StampsGrow(t0, ins, k + 1);
    StampBounds(t0, ins);
  }

  /** The stamps of rate-limited emissions strictly increase over the whole run, session changes
      included, and each exceeds its begin: (begin, current) and (begin, current, event index)
      never repeat. */
  lemma RowKeysNeverRepeat(t0: nat, ins: seq<Input>, j: nat, k: nat)
    requires Clocked(t0, ins) && j < k < |ins|
    requires OutAt(t0, ins, j).sql.Tick? && OutAt(t0, ins, k).sql.Tick?
    ensures OutAt(t0, ins, j).sql.current < OutAt(t0, ins, k).sql.current
    ensures OutAt(t0, ins, k).sql.begin < OutAt(t0, ins, k).sql.current
    ensures EndTime(t0, ins) - t0 < 0x1_0000_0000 ==>     // the columns are filled from uint32_t
              OutAt(t0, ins, j).sql.current % 0x1_0000_0000 != OutAt(t0, ins, k).sql.current % 0x1_0000_0000
  {
    hide *;
    StampsIncrease(t0, ins, j, k);
    var x, y := OutAt(t0, ins, j).sql.current, OutAt(t0, ins, k).sql.current;
    if y - x < 0x1_0000_0000 { Residues(x, y); }
  }

  lemma Residues(x: nat, y: nat)
    requires x < y < x + 0x1_0000_0000
    ensures x % 0x1_0000_0000 != y % 0x1_0000_0000
  {
  }

  lemma {:induction false} ReadingsGrow(t0: nat, ins: seq<Input>, j: nat, k: nat)
    requires Clocked(t0, ins) && j < k < |ins|
    ensures ins[j].now <= ins[k].now
  {
    assert EndTime(t0, ins[..k]) == ins[..k][k - 1].later;
    if j < k - 1 { ReadingsGrow(t0, ins, j, k - 1); }
  }

  /** Packet k is SessionData with another key than the SessionData before it. */
  predicate ChangesKey(ins: seq<Input>, k: nat)
    requires k < |ins|
  {
    IsSessionInput(ins[k]) && ins[k].p.Key() != LastPacket(ins[..k], SESSION_DATA).Key()
  }

  ghost predicate BothChange(ins: seq<Input>, j: nat, k: nat) {
    j < k < |ins| && ChangesKey(ins, j) && ChangesKey(ins, k)
  }

  lemma HeaderExactly(t0: nat, ins: seq<Input>, k: nat)
    requires k < |ins|
    ensures OutAt(t0, ins, k).sql.Header? <==> ChangesKey(ins, k)
    ensures ChangesKey(ins, k) ==> OutAt(t0, ins, k).sql.begin == ins[k].now
  {
    hide Turn, LastOut;
    assert ins[..k + 1][..k] == ins[..k];
    SessionEdgesAreExact(t0, ins[..k + 1]);
    EmissionsCarryTheLog(t0, ins[..k + 1]);
  }

  /** The begins of headers, which are the keys of their rows, never decrease, and they strictly
      increase over a run exactly when no two SessionData packets that change the key were handled
      in the same second. */
  lemma HeaderKeysUniqueExactly(t0: nat, ins: seq<Input>)
    requires Clocked(t0, ins)
    ensures forall k: nat :: k < |ins| ==> (OutAt(t0, ins, k).sql.Header? <==> ChangesKey(ins, k))
    ensures forall j: nat, k: nat :: BothChange(ins, j, k) ==>
              OutAt(t0, ins, j).sql.begin <= OutAt(t0, ins, k).sql.begin
    ensures (forall j: nat, k: nat :: BothChange(ins, j, k) ==>
               OutAt(t0, ins, j).sql.begin < OutAt(t0, ins, k).sql.begin)
       <==> (forall j: nat, k: nat :: BothChange(ins, j, k) ==> ins[j].now != ins[k].now)
  {
    hide Turn, LastOut, Clocked, LastPacket;
    forall k: nat | k < |ins| { HeaderExactly(t0, ins, k); }
    forall j: nat, k: nat | BothChange(ins, j, k)
      ensures OutAt(t0, ins, j).sql.begin == ins[j].now <= ins[k].now == OutAt(t0, ins, k).sql.begin
    {
      HeaderExactly(t0, ins, j);
      HeaderExactly(t0, ins, k);
      ReadingsGrow(t0, ins, j, k);
    }
  }

  /** Two sessions in one second: two headers with the same begin. */
  lemma HeadersMayCollide()
    ensures exists ins: seq<Input> :: && Clocked(0, ins) && BothChange(ins, 0, 1)
                                      && OutAt(0, ins, 0).sql.Header? && OutAt(0, ins, 1).sql.Header?
                                      && OutAt(0, ins, 0).sql.begin == OutAt(0, ins, 1).sql.begin
  {
    hide Turn, LastOut;
    var a := Datagram(ZERO.(id := SESSION_DATA, uid := 5), 1, 1, 1);
    var b := Datagram(ZERO.(id := SESSION_DATA, uid := 6), 1, 1, 1);
    var ins := [a, b];
    assert ins[..1] == [a] && ins[..0] == [] && [a][..0] == [];
    assert LastIndex([], SESSION_DATA) == -1;
    LastIndexStep([a], SESSION_DATA);
    assert BothChange(ins, 0, 1);
    assert Clocked(0, ins);
    HeaderExactly(0, ins, 0);
    HeaderExactly(0, ins, 1);
  }

  // ----- events -----

  /** How many inputs were consumed when the current session began: up to and including the last
      new-session step. */
  function SessionStart(t0: nat, ins: seq<Input>): (r: nat)
    ensures r <= |ins|
  {
    if ins == [] then 0
    else if LastOut(t0, ins).isNew then |ins|
    else SessionStart(t0, ins[..|ins| - 1])
  }

  lemma {:induction false} SessionStartIsLatest(t0: nat, ins: seq<Input>)
    ensures SessionStart(t0, ins) > 0 ==> OutAt(t0, ins, SessionStart(t0, ins) - 1).isNew
    ensures forall k :: SessionStart(t0, ins) <= k < |ins| ==> !OutAt(t0, ins, k).isNew
  {
    hide Turn;
    if ins != [] {
      var front := ins[..|ins| - 1];
      assert ins[..|ins| - 1 + 1] == ins;
      SessionStartIsLatest(t0, front);
      forall k | 0 <= k < |front| { OutOfPrefix(t0, ins, |front|, k); }
    }
  }

  function NewEvent(i: Input): seq<Packet> {
    if i.Datagram? && i.p.id == EVENT_DATA && i.p.code != "BUTN" then [i.p] else []
  }

  /** The non-button events of a log, in order. */
  function RealEvents(part: seq<Input>): seq<Packet> {
    if part == [] then []
    else RealEvents(part[..|part| - 1]) + NewEvent(part[|part| - 1])
  }

  function EventsOf(e: Emission): seq<Packet> {
    if e.Tick? then e.events else []
  }

  /** Everything flushed by the steps from r on, in order. */
  function Flushed(t0: nat, ins: seq<Input>, r: nat): seq<Packet> {
    if |ins| <= r then [] else Flushed(t0, ins[..|ins| - 1], r) + EventsOf(LastOut(t0, ins).sql)
  }

  lemma Regroup(flushed: seq<Packet>, now: seq<Packet>, left: seq<Packet>, was: seq<Packet>, added: seq<Packet>)
    requires now + left == was + added
    ensures (flushed + now) + left == (flushed + was) + added
  {
    assert (flushed + now) + left == flushed + (now + left);
  }

  /** Within a session no event is lost, duplicated or reordered, whatever happened to the event
      bit: what was flushed, then what waits, is what was stored. */
  lemma {:induction false} EventsConserved(t0: nat, ins: seq<Input>)
    ensures var r := SessionStart(t0, ins);
            Flushed(t0, ins, r) + After(t0, ins).events == RealEvents(ins[r..])
  {
    hide Turn;
    if ins != [] {
      var front, i := ins[..|ins| - 1], ins[|ins| - 1];
      LastStep(t0, ins);
      TurnEvents(After(t0, front), i);
      if !LastOut(t0, ins).isNew {
        EventsConserved(t0, front);
        var r := SessionStart(t0, front);
        assert ins[r..][..|ins[r..]| - 1] == front[r..];
        Regroup(Flushed(t0, front, r), EventsOf(LastOut(t0, ins).sql), After(t0, ins).events,
                After(t0, front).events, NewEvent(i));
      }
    }
  }

  lemma TickedEvents(h: House, stamp: nat)
    requires WellFormed(h)
    ensures EventsOf(Ticked(h, stamp).sql) + Ticked(h, stamp).house.events == h.events
  {
  }

  lemma TurnEvents(h: House, i: Input)
    requires WellFormed(h)
    ensures var o := Turn(h, i);
            if o.isNew then o.house.events == []
            else EventsOf(o.sql) + o.house.events == h.events + NewEvent(i)
  {
    hide Ticked;
    var s := if i.Datagram? then Stored(h, i.p, i.at) else h;
    TickedEvents(s.(cur := s.cur - {FINAL_CLASSIFICATION}), i.later);
  }

  // ----- session histories -----

  /** The last history packet of each car in a log. */
  function LatestHistories(part: seq<Input>): map<nat, Packet> {
    if part == [] then map[]
    else
      var m, i := LatestHistories(part[..|part| - 1]), part[|part| - 1];
      if Stores(i, SESSION_HISTORY) then m[i.p.carIdx := i.p] else m
  }

  predicate HistoryWaits(h: House, i: Input) {
    SESSION_HISTORY in h.cur || Stores(i, SESSION_HISTORY)
  }

  lemma StoredHistories(h: House, p: Packet, at: nat)
    requires WellFormed(h)
    ensures var s := Stored(h, p, at);
            && s.histories == (if p.id == SESSION_HISTORY then h.histories[p.carIdx := p] else h.histories)
            && (SESSION_HISTORY in s.cur <==> SESSION_HISTORY in h.cur || p.id == SESSION_HISTORY)
  {
  }

  lemma TickedHistories(h: House, stamp: nat)
    requires WellFormed(h)
    ensures var o := Ticked(h, stamp);
            && o.house.histories == h.histories && SESSION_HISTORY !in o.house.cur
            && o.sql.histories == if CurRecv(h, SESSION_HISTORY) then h.histories else map[]
  {
  }

  lemma TurnHistories(h: House, i: Input)
    requires WellFormed(h)
    ensures var o := Turn(h, i);
            && o.house.histories == (if o.isNew then map[]
                                     else if Stores(i, SESSION_HISTORY) then h.histories[i.p.carIdx := i.p]
                                     else h.histories)
            && (o.sql.Tick? ==>
                  o.sql.histories == if HistoryWaits(h, i) && o.house.slots[SESSION_HISTORY].uid == o.house.uid
                                     then o.house.histories else map[])
            && (SESSION_HISTORY in o.house.cur <==> HistoryWaits(h, i) && !o.sql.Tick?)
  {
    var s := if i.Datagram? then Stored(h, i.p, i.at) else h;
    if i.Datagram? { StoredHistories(h, i.p, i.at); }
    hide Stored, Ticked;
    TickedHistories(s.(cur := s.cur - {FINAL_CLASSIFICATION}), i.later);
  }

  /** Position of the last per-second step, or -1. */
  function LastTick(t0: nat, ins: seq<Input>): (k: int)
    ensures -1 <= k < |ins|
  {
    if ins == [] then -1
    else if LastOut(t0, ins).sql.Tick? then |ins| - 1
    else LastTick(t0, ins[..|ins| - 1])
  }

  /** The history bit says exactly "a history packet came since the last per-second step". */
  lemma {:induction false} HistoryBitIsExact(t0: nat, ins: seq<Input>)
    ensures SESSION_HISTORY in After(t0, ins).cur <==> LastIndex(ins, SESSION_HISTORY) > LastTick(t0, ins)
  {
    hide Turn;
    if ins != [] {
      var front := ins[..|ins| - 1];
      HistoryBitIsExact(t0, front);
      LastStep(t0, ins);
      TurnHistories(After(t0, front), ins[|ins| - 1]);
      LastIndexStep(ins, SESSION_HISTORY);
    }
  }

  /** The house holds for each car the last history packet since the session began, whatever was
      flushed before. */
  lemma {:induction false} HistoriesAreLatest(t0: nat, ins: seq<Input>)
    ensures After(t0, ins).histories == LatestHistories(ins[SessionStart(t0, ins)..])
  {
    hide Turn;
    if ins != [] {
      var front, i := ins[..|ins| - 1], ins[|ins| - 1];
      LastStep(t0, ins);
      TurnHistories(After(t0, front), i);
      if !LastOut(t0, ins).isNew {
        HistoriesAreLatest(t0, front);
        assert SessionStart(t0, ins) == SessionStart(t0, front);
        hide LastOut, After, SessionStart;
        var part := ins[SessionStart(t0, front)..];
        assert part[..|part| - 1] == front[SessionStart(t0, front)..] && part[|part| - 1] == i;
      }
    }
  }

  /** A per-second step writes all of them exactly when a history packet came since the last such
      step and the latest one carries the session's uid; otherwise it writes none. */
  lemma HistoriesGoOutExactly(t0: nat, ins: seq<Input>)
    requires ins != [] && LastOut(t0, ins).sql.Tick?
    ensures LastOut(t0, ins).sql.histories ==
              if && LastIndex(ins, SESSION_HISTORY) > LastTick(t0, ins[..|ins| - 1])
                 && LastPacket(ins, SESSION_HISTORY).uid == LastPacket(ins, SESSION_DATA).uid
              then LatestHistories(ins[SessionStart(t0, ins)..]) else map[]
  {
    hide Turn;
    var front := ins[..|ins| - 1];
    LastStep(t0, ins);
    TurnHistories(After(t0, front), ins[|ins| - 1]);
    HistoryBitIsExact(t0, front);
    LastIndexStep(ins, SESSION_HISTORY);
    LogInvariant(t0, ins);
    HistoriesAreLatest(t0, ins);
  }

  // ----- when events and final classifications go out -----

  /** Position of the last event that is not a button event, or -1. */
  function LastRealEvent(ins: seq<Input>): (k: int)
    ensures -1 <= k < |ins|
  {
    if ins == [] then -1
    else if NewEvent(ins[|ins| - 1]) != [] then |ins| - 1
    else LastRealEvent(ins[..|ins| - 1])
  }

  predicate EventWaits(h: House, i: Input) {
    EVENT_DATA in h.cur || NewEvent(i) != []
  }

  lemma StoredEvents(h: House, p: Packet, at: nat)
    requires WellFormed(h)
    ensures var s := Stored(h, p, at);
            && s.events == (if p.IsRealEvent() then h.events + [p] else h.events)
            && (EVENT_DATA in s.cur <==> EVENT_DATA in h.cur || p.IsRealEvent())
  {
  }

  lemma TickedFlush(h: House, stamp: nat)
    requires WellFormed(h)
    ensures var o := Ticked(h, stamp);
            EVENT_DATA !in o.house.cur && o.sql.events == if CurRecv(h, EVENT_DATA) then h.events else []
  {
  }

  lemma TurnFlushes(h: House, i: Input)
    requires WellFormed(h)
    ensures var o := Turn(h, i);
            && (o.sql.Tick? ==>
                  o.sql.events == if EventWaits(h, i) && o.house.slots[EVENT_DATA].uid == o.house.uid
                                  then h.events + NewEvent(i) else [])
            && (EVENT_DATA in o.house.cur <==> EventWaits(h, i) && !o.sql.Tick?)
  {
    var s := if i.Datagram? then Stored(h, i.p, i.at) else h;
    if i.Datagram? { StoredEvents(h, i.p, i.at); }
    assert h.events + [] == h.events;
    hide Stored, Ticked;
    TickedFlush(s.(cur := s.cur - {FINAL_CLASSIFICATION}), i.later);
  }

  /** The event bit says exactly "a real event came since the last per-second step". */
  lemma {:induction false} EventBitIsExact(t0: nat, ins: seq<Input>)
    ensures EVENT_DATA in After(t0, ins).cur <==> LastRealEvent(ins) > LastTick(t0, ins)
  {
    hide Turn;
    if ins != [] {
      var front := ins[..|ins| - 1];
      EventBitIsExact(t0, front);
      LastStep(t0, ins);
      TurnFlushes(After(t0, front), ins[|ins| - 1]);
    }
  }

  /** A per-second step writes every event that waits exactly when a real event came since the last
      such step and the latest event packet, a button event too, carries the session's uid;
      otherwise it writes none, and they go on waiting. */
  lemma EventsGoOutExactly(t0: nat, ins: seq<Input>)
    requires ins != [] && LastOut(t0, ins).sql.Tick?
    ensures LastOut(t0, ins).sql.events ==
              if && LastRealEvent(ins) > LastTick(t0, ins[..|ins| - 1])
                 && LastPacket(ins, EVENT_DATA).uid == LastPacket(ins, SESSION_DATA).uid
              then After(t0, ins[..|ins| - 1]).events + NewEvent(ins[|ins| - 1]) else []
  {
    hide Turn;
    var front := ins[..|ins| - 1];
    LastStep(t0, ins);
    TurnFlushes(After(t0, front), ins[|ins| - 1]);
    EventBitIsExact(t0, front);
    LogInvariant(t0, ins);
  }

  /** Whether Handle gets as far as the final classification at the last step: no lobby packet, no new
      session, and participants of the session at hand. */
  predicate GetsToFinal(ins: seq<Input>)
    requires ins != []
  {
    var n := |ins| - 1;
    && !Stores(ins[n], LOBBY_INFO) && !ChangesKey(ins, n)
    && LastIndex(ins, PARTICIPANTS) >= 0 && LastIndex(ins, SESSION_DATA) >= 0
    && LastPacket(ins, PARTICIPANTS).uid == LastPacket(ins, SESSION_DATA).uid
  }

  /** Position of the last step that got so far, or -1. */
  function LastToFinal(ins: seq<Input>): (k: int)
    ensures -1 <= k < |ins|
  {
    if ins == [] then -1
    else if GetsToFinal(ins) then |ins| - 1
    else LastToFinal(ins[..|ins| - 1])
  }

  predicate FinalWaits(h: House, i: Input) {
    FINAL_CLASSIFICATION in h.cur || Stores(i, FINAL_CLASSIFICATION)
  }

  lemma TickedKeepsFinal(h: House, stamp: nat)
    requires WellFormed(h) && FINAL_CLASSIFICATION !in h.cur
    ensures FINAL_CLASSIFICATION !in Ticked(h, stamp).house.cur
    ensures Ticked(h, stamp).house.slots == h.slots && Ticked(h, stamp).house.uid == h.uid
  {
  }

  lemma TurnFinals(h: House, i: Input)
    requires WellFormed(h) && Settled(h) && h.cur <= h.recv
    ensures var o, h' := Turn(h, i), Turn(h, i).house;
            var far := !Stores(i, LOBBY_INFO) && !o.isNew && Recv(h', PARTICIPANTS) && Recv(h', SESSION_DATA);
            && (o.sql.Final? <==>
                  far && FinalWaits(h, i) && h'.slots[FINAL_CLASSIFICATION].uid == h'.uid)
            && (FINAL_CLASSIFICATION in h'.cur <==> FinalWaits(h, i) && !far)
  {
    hide Routed;
    var s := if i.Datagram? then Stored(h, i.p, i.at) else h;
    hide Ticked;
    TickedKeepsFinal(s.(cur := s.cur - {FINAL_CLASSIFICATION}), i.later);
    TurnStores(h, i);
  }

  lemma FarExactly(t0: nat, ins: seq<Input>)
    requires ins != []
    ensures var h, o := After(t0, ins), LastOut(t0, ins);
            GetsToFinal(ins) <==>
              !Stores(ins[|ins| - 1], LOBBY_INFO) && !o.isNew && Recv(h, PARTICIPANTS) && Recv(h, SESSION_DATA)
  {
    hide Turn;
    LogInvariant(t0, ins);
    SessionEdgesAreExact(t0, ins);
    hide LastOut, After;
  }

  /** The final bit says exactly "a classification came since Handle last got so far". */
  lemma {:induction false} FinalBitIsExact(t0: nat, ins: seq<Input>)
    ensures FINAL_CLASSIFICATION in After(t0, ins).cur <==> LastIndex(ins, FINAL_CLASSIFICATION) > LastToFinal(ins)
  {
    hide Turn, GetsToFinal;
    if ins != [] {
      var front := ins[..|ins| - 1];
      FinalBitIsExact(t0, front);
      LastStep(t0, ins);
      LogInvariant(t0, front);
      TurnFinals(After(t0, front), ins[|ins| - 1]);
      FarExactly(t0, ins);
      LastIndexStep(ins, FINAL_CLASSIFICATION);
    }
  }

  /** A final row goes out at a step exactly when Handle gets so far, a classification came since it
      last did, and the latest one carries the session's uid; one that does not is given up. */
  lemma FinalGoesOutExactly(t0: nat, ins: seq<Input>)
    requires ins != []
    ensures LastOut(t0, ins).sql.Final? <==>
              && GetsToFinal(ins)
              && LastIndex(ins, FINAL_CLASSIFICATION) > LastToFinal(ins[..|ins| - 1])
              && LastPacket(ins, FINAL_CLASSIFICATION).uid == LastPacket(ins, SESSION_DATA).uid
  {
    hide Turn, GetsToFinal;
    var front := ins[..|ins| - 1];
    LastStep(t0, ins);
    LogInvariant(t0, front);
    LogInvariant(t0, ins);
    TurnFinals(After(t0, front), ins[|ins| - 1]);
    FinalBitIsExact(t0, front);
    FarExactly(t0, ins);
    LastIndexStep(ins, FINAL_CLASSIFICATION);
  }

  // ----- when per-second rows and batches go out -----

  /** The stamp rows are limited by: that of the last header or per-second row, or the creation. */
  function StampBefore(t0: nat, ins: seq<Input>): nat {
    if ins == [] then t0
    else
      var e, i := LastOut(t0, ins).sql, ins[|ins| - 1];
      if e.Header? then i.now else if e.Tick? then i.later else StampBefore(t0, ins[..|ins| - 1])
  }

  lemma TurnStamp(h: House, i: Input)
    requires WellFormed(h)
    ensures var o := Turn(h, i);
            o.house.last == if o.sql.Header? then i.now else if o.sql.Tick? then i.later else h.last
  {
    hide Routed;
  }

  lemma {:induction false} StampIsExact(t0: nat, ins: seq<Input>)
    ensures After(t0, ins).last == StampBefore(t0, ins)
  {
    hide Turn;
    if ins != [] {
      StampIsExact(t0, ins[..|ins| - 1]);
      LastStep(t0, ins);
      TurnStamp(After(t0, ins[..|ins| - 1]), ins[|ins| - 1]);
    }
  }

  /** A packet that sets a bit: any but a button event. */
  predicate Counts(i: Input) {
    i.Datagram? && !(i.p.id == EVENT_DATA && i.p.code == "BUTN")
  }

  lemma TurnTicks(h: House, i: Input)
    requires WellFormed(h) && Settled(h) && h.cur <= h.recv
    ensures var o, h' := Turn(h, i), Turn(h, i).house;
            var far := !Stores(i, LOBBY_INFO) && !o.isNew && Recv(h', PARTICIPANTS) && Recv(h', SESSION_DATA);
            o.sql.Tick? <==> far && !o.sql.Final? && i.now > h.last && (Counts(i) || h.cur != {})
  {
    hide Routed;
    var s := if i.Datagram? then Stored(h, i.p, i.at) else h;
    assert i.Datagram? && Counts(i) ==> i.p.id in s.cur;
    assert !Counts(i) ==> s.cur == h.cur;
    hide Ticked;
    TickedKeepsFinal(s.(cur := s.cur - {FINAL_CLASSIFICATION}), i.later);
    TurnStores(h, i);
  }

  /** A per-second row goes out at a step exactly when Handle gets as far as the final classification,
      writes none, and the clock has passed the last stamp; the clock is the only other guard. (A
      datagram that sets no bit is handled only if some bit is set from before.) */
  lemma TickGoesOutExactly(t0: nat, ins: seq<Input>)
    requires ins != []
    ensures var front, i := ins[..|ins| - 1], ins[|ins| - 1];
            LastOut(t0, ins).sql.Tick? <==>
              && GetsToFinal(ins) && !LastOut(t0, ins).sql.Final? && i.now > StampBefore(t0, front)
              && (Counts(i) || After(t0, front).cur != {})
  {
    hide Turn, GetsToFinal;
    var front := ins[..|ins| - 1];
    LastStep(t0, ins);
    LogInvariant(t0, front);
    TurnTicks(After(t0, front), ins[|ins| - 1]);
    FarExactly(t0, ins);
    StampIsExact(t0, front);
  }

  lemma TickedBatch(h: House, stamp: nat)
    requires WellFormed(h)
    ensures HasBatch(Ticked(h, stamp).sql) <==> Enough(h)
  {
  }

  lemma TurnBatches(h: House, i: Input)
    requires WellFormed(h) && Turn(h, i).sql.Tick?
    ensures var h' := Turn(h, i).house;
            HasBatch(Turn(h, i).sql) <==>
              forall id: PacketId :: id in {CAR_MOTION, LAP_DATA, CAR_SETUP, CAR_TELEMETRY, CAR_STATUS, CAR_DAMAGE} ==>
                h'.slots[id].uid == h'.uid && (id in h.cur || Stores(i, id))
  {
    hide Routed;
    var s := if i.Datagram? then Stored(h, i.p, i.at) else h;
    var f := s.(cur := s.cur - {FINAL_CLASSIFICATION});
    assert forall id: PacketId :: id in f.cur <==> id != FINAL_CLASSIFICATION && (id in h.cur || Sets(i, id));
    TickedBatch(f, i.later);
    TickedSlots(f, i.later);
    hide Ticked, Stored;
  }

  predicate Sets(i: Input, id: PacketId) {
    Counts(i) && i.p.id == id
  }

  lemma TickedSlots(h: House, stamp: nat)
    requires WellFormed(h)
    ensures Ticked(h, stamp).house.slots == h.slots && Ticked(h, stamp).house.uid == h.uid
  {
  }

  /** A per-second row carries a batch exactly when the latest packets of all eight types carry the
      session's uid and six of them came after the last batch. */
  lemma BatchGoesOutExactly(t0: nat, ins: seq<Input>)
    requires ins != [] && LastOut(t0, ins).sql.Tick?
    ensures LastPacket(ins, PARTICIPANTS).uid == LastPacket(ins, SESSION_DATA).uid
    ensures LastOut(t0, ins).sql.batch.Some? <==>
              forall id: PacketId :: id in {CAR_MOTION, LAP_DATA, CAR_SETUP, CAR_TELEMETRY, CAR_STATUS, CAR_DAMAGE} ==>
                && LastPacket(ins, id).uid == LastPacket(ins, SESSION_DATA).uid
                && LastIndex(ins, id) > LastBatch(t0, ins[..|ins| - 1])
  {
    hide Turn;
    var front := ins[..|ins| - 1];
    LogInvariant(t0, front);
    LogInvariant(t0, ins);
    LastStep(t0, ins);
    TickGoesOutExactly(t0, ins);
    TurnBatches(After(t0, front), ins[|ins| - 1]);
    forall id: PacketId | id in {CAR_MOTION, LAP_DATA, CAR_SETUP, CAR_TELEMETRY, CAR_STATUS, CAR_DAMAGE}
      ensures (id in After(t0, front).cur || Stores(ins[|ins| - 1], id)) <==> LastIndex(ins, id) > LastBatch(t0, front)
    {
      FreshBitsAreExact(t0, front, id);
      LastIndexStep(ins, id);
    }
    hide After, LastOut, LastBatch, LastIndex;
  }

  lemma TurnRoster(h: House, i: Input)
    requires WellFormed(h) && Turn(h, i).sql.Tick?
    ensures var e, h' := Turn(h, i).sql, Turn(h, i).house;
            e.roster == if h'.slots[SESSION_DATA].sessionType == 13
                        then Trial(h'.slots[LAP_DATA].pbCar, h'.slots[LAP_DATA].rivalCar) else AllCars
  {
    hide Routed;
  }

  /** Whether a row has text at all, on its content. In time trial (13) only the player, the personal
      best and the rival of the latest lap packet are written. */
  lemma TextExactly(t0: nat, ins: seq<Input>)
    requires ins != []
    ensures var e := LastOut(t0, ins).sql;
            && (e.Header? ==> HasText(e))
            && (e.Lobby? ==> (HasText(e) <==> e.p.rows > 0))
            && (e.Final? ==> (HasText(e) <==> e.p.rows > 0))
            && (e.Tick? && e.batch.Some? ==> HasText(e))
            && (e.Tick? && e.batch.None? ==>
                  (HasText(e) <==>
                    || (exists k :: && 0 <= k < |e.events|
                                    && e.events[k].code in
                                         {"PENA", "SSTA", "SEND", "FTLP", "RTMT", "DRSE", "DRSD", "TMPT",
                                          "CHQF", "RCWN", "SPTP", "STLG", "LGOT", "DTSV", "SGSV", "FLBK"})
                    || (exists car :: car in e.histories && Written(ins, car))))
            && (e.Silent? ==> !HasText(e))
  {
    hide Turn;
    LastStep(t0, ins);
    LogInvariant(t0, ins);
    if LastOut(t0, ins).sql.Tick? {
      TurnRoster(After(t0, ins[..|ins| - 1]), ins[|ins| - 1]);
    }
    KnownCodes();
    hide After, LastOut, LastPacket;
  }

  predicate Written(ins: seq<Input>, car: nat) {
    || LastPacket(ins, SESSION_DATA).sessionType != 13
    || car == 0 || car == LastPacket(ins, LAP_DATA).pbCar || car == LastPacket(ins, LAP_DATA).rivalCar
  }

  lemma KnownCodes()
    ensures forall code: string :: code in EVENT_CODES <==>
              code in {"PENA", "SSTA", "SEND", "FTLP", "RTMT", "DRSE", "DRSD", "TMPT",
                       "CHQF", "RCWN", "SPTP", "STLG", "LGOT", "DTSV", "SGSV", "FLBK"}
  {
    assert EVENT_CODES == ["PENA", "SSTA", "SEND", "FTLP", "RTMT", "DRSE", "DRSD", "TMPT"]
                        + ["CHQF", "RCWN", "SPTP", "STLG", "LGOT", "DTSV", "SGSV", "FLBK"];
  }
}
