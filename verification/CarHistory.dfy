/** From the calls on the car state to the histories of its cars, and from the packets of a house to
    those calls. */
module CarHistory {
  import opened Cars
  import opened Options
  import opened Scenes
  import opened SceneRuns
  import opened AllCarInfos
  import opened CarRuns
  import Packets
  import PacketHouses
  import HouseRuns
  import ParentRows

  /** The car state before and after each call, from a new one on. */
  ghost predicate Trace(states: seq<Garage>, deeds: seq<Deed>) {
    && |states| == |deeds| + 1
    && states[0] == NewGarage()
    && (forall k :: 0 <= k < |states| ==> states[k].Ok())
    && forall k :: 0 <= k < |deeds| ==> Performed(states[k], deeds[k], states[k + 1])
  }

  /** What a call does to car i. The gaps it measures are those found afterwards. */
  function OpsOf(g: Garage, d: Deed, g': Garage, i: nat): seq<CarOp>
    requires Performed(g, d, g') && i < MAX_CAR_NUM
  {
    match d
    case Init => [Inherit(g.cars[i].history)]
    case SetSession(_) => []
    case FlashBack => []
    case FillLap(p) => if Considered(g.session, p, i) then [LapOp(g.session, p, i, g.flash)] else []
    case FillEach(ops) => [ops[i]]
    case FillPast(c, h) => if i == c then [Past(h)] else []
    case ToSql(drivers) =>
      (if RankOf(g.ranks[..g.rankNum], g.rankNum, i) >= 0 then [Measure(g'.cars[i].gaps)] else [])
      + (if i < drivers then [CarOp.Drain] else [])
  }

  /** What happened to car i up to step n since it was last initialised. */
  function OpsUpTo(states: seq<Garage>, deeds: seq<Deed>, n: nat, i: nat): seq<CarOp>
    requires Trace(states, deeds) && n <= |deeds| && i < MAX_CAR_NUM
  {
    if n == 0 then []
    else
      var own := OpsOf(states[n - 1], deeds[n - 1], states[n], i);
      if deeds[n - 1].Init? then own else OpsUpTo(states, deeds, n - 1, i) + own
  }

  lemma CarAfterOne(ops: seq<CarOp>, op: CarOp)
    requires AllOpsOk(ops) && OpOk(op)
    ensures AllOpsOk(ops + [op]) && CarAfter(ops + [op]) == Applied(CarAfter(ops), op)
  {
    hide Applied;
    assert (ops + [op])[..|ops|] == ops;
  }

  /** A call continues the history of the car. */
  lemma DeedContinues(g: Garage, d: Deed, g': Garage, i: nat, ops: seq<CarOp>)
    requires Performed(g, d, g') && i < MAX_CAR_NUM && !d.Init?
    requires AllOpsOk(ops) && g.cars[i] == CarAfter(ops)
    ensures AllOpsOk(ops + OpsOf(g, d, g', i)) && g'.cars[i] == CarAfter(ops + OpsOf(g, d, g', i))
  {
    hide Applied, CarAfter;
    var own := OpsOf(g, d, g', i);
    assert ops + [] == ops;
    match d {
      case FillLap(p) =>
        LapContinues(g, p, g', i);
        if own != [] { CarAfterOne(ops, own[0]); }
      case ToSql(drivers) => ReportContinues(g, drivers, g', i, ops);
      case FillEach(each) => CarAfterOne(ops, each[i]);
      case FillPast(c, h) => if i == c { CarAfterOne(ops, Past(h)); }
      case _ =>
    }
  }

  lemma LapContinues(g: Garage, p: LapPacket, g': Garage, i: nat)
    requires Performed(g, FillLap(p), g') && i < MAX_CAR_NUM
    ensures Considered(g.session, p, i) ==> OpOk(LapOp(g.session, p, i, g.flash))
    ensures g'.cars[i] == if Considered(g.session, p, i) then Applied(g.cars[i], LapOp(g.session, p, i, g.flash))
                          else g.cars[i]
  {
    hide Applied, RanksUpTo, CountOf;
    assert PacketLeaves(g.session, p, i, g.flash, g.cars[i], g'.cars[i]);
  }

  lemma ReportContinues(g: Garage, drivers: nat, g': Garage, i: nat, ops: seq<CarOp>)
    requires Performed(g, Deed.ToSql(drivers), g') && i < MAX_CAR_NUM
    requires AllOpsOk(ops) && g.cars[i] == CarAfter(ops)
    ensures var own := OpsOf(g, Deed.ToSql(drivers), g', i);
            AllOpsOk(ops + own) && g'.cars[i] == CarAfter(ops + own)
  {
    hide CarAfter, Measurable, Gauge;
    var r := RankOf(g.ranks[..g.rankNum], g.rankNum, i);
    assert Reported(g, drivers, i, g'.cars[i]);
    var measured := if r >= 0 then [Measure(g'.cars[i].gaps)] else [];
    var drained := if i < drivers then [CarOp.Drain] else [];
    if r >= 0 { CarAfterOne(ops, measured[0]); } else { assert ops + measured == ops; }
    if i < drivers { CarAfterOne(ops + measured, drained[0]); }
    else { assert (ops + measured) + drained == ops + measured; }
    assert ops + (measured + drained) == (ops + measured) + drained;
  }

  /** After any calls, every car is what its own history since its last init makes of a new car: all
      that is proved of `CarAfter` holds of the cars of the class. */
  lemma {:induction false} CarsAreHistories(states: seq<Garage>, deeds: seq<Deed>, n: nat, i: nat)
    requires Trace(states, deeds) && n <= |deeds| && i < MAX_CAR_NUM
    ensures AllOpsOk(OpsUpTo(states, deeds, n, i))
    ensures states[n].cars[i] == CarAfter(OpsUpTo(states, deeds, n, i))
  {
    hide Performed;
    if n > 0 {
      var g, d, g' := states[n - 1], deeds[n - 1], states[n];
      assert Performed(g, d, g');
      CarsAreHistories(states, deeds, n - 1, i);
      if d.Init? {
        InitRestarts(g, g', i, OpsUpTo(states, deeds, n - 1, i));
      } else {
        DeedContinues(g, d, g', i, OpsUpTo(states, deeds, n - 1, i));
      }
    }
  }

  lemma {:induction false} HistoryStaysOk(ops: seq<CarOp>)
    requires AllOpsOk(ops)
    ensures CarAfter(ops).history.Ok()
  {
    if ops != [] { HistoryStaysOk(ops[..|ops| - 1]); }
  }

  lemma InitRestarts(g: Garage, g': Garage, i: nat, ops: seq<CarOp>)
    requires Performed(g, Init, g') && i < MAX_CAR_NUM && AllOpsOk(ops) && g.cars[i] == CarAfter(ops)
    ensures AllOpsOk(OpsOf(g, Init, g', i)) && g'.cars[i] == CarAfter(OpsOf(g, Init, g', i))
  {
    HistoryStaysOk(ops);
    CarAfterOne([], Inherit(g.cars[i].history));
    assert [] + [Inherit(g.cars[i].history)] == [Inherit(g.cars[i].history)];
  }

  // ----- what the theorems say of the class -----

  /** The lap reports of a car since its last init. */
  function ReportsUpTo(states: seq<Garage>, deeds: seq<Deed>, n: nat, i: nat): seq<Report>
    requires Trace(states, deeds) && n <= |deeds| && i < MAX_CAR_NUM
  {
    Reports(OpsUpTo(states, deeds, n, i))
  }

  /** The split tables of the class hold the first crossings of the car's reports. */
  lemma SplitsOfTheClass(states: seq<Garage>, deeds: seq<Deed>, n: nat, i: nat, l: nat, s: nat)
    requires Trace(states, deeds) && n <= |deeds| && i < MAX_CAR_NUM && l < LAPS && s < NUMSLICE - 1
    ensures AllOk(ReportsUpTo(states, deeds, n, i)) && LapsOk(states[n].cars[i].laps)
    ensures states[n].cars[i].laps[l].slice[s] == Split(ReportsUpTo(states, deeds, n, i), l, s)
  {
    hide CarAfter, Trace;
    CarsAreHistories(states, deeds, n, i);
    TablesOfHistory(OpsUpTo(states, deeds, n, i));
    SplitsAreFirstCrossings(ReportsUpTo(states, deeds, n, i), l, s);
  }

  // ----- the first rank -----

  /** The packet gives the first rank a car, the one ToSQL of a race starts from. */
  predicate SetsFirst(session: Session, p: LapPacket) {
    |p.entries| == MAX_CAR_NUM && Claimant(session, p, MAX_CAR_NUM, 0) >= 0
  }

  lemma SetsFirstMeans(session: Session, p: LapPacket)
    requires |p.entries| == MAX_CAR_NUM
    ensures SetsFirst(session, p) <==> exists i :: && 0 <= i < MAX_CAR_NUM && Considered(session, p, i)
                                                   && p.entries[i].position == 1
  {
    hide Considered;
    var c := Claimant(session, p, MAX_CAR_NUM, 0);
    assert c >= 0 ==> Considered(session, p, c);
  }

  ghost predicate FirstSetBy(states: seq<Garage>, deeds: seq<Deed>, n: nat)
    requires Trace(states, deeds) && n <= |deeds|
  {
    exists m :: 0 <= m < n && deeds[m].FillLap? && SetsFirst(states[m].session, deeds[m].p)
  }

  lemma DeedSetsFirst(g: Garage, d: Deed, g': Garage)
    requires Performed(g, d, g')
    ensures g'.ranks[0] >= 0 <==> g.ranks[0] >= 0 || (d.FillLap? && SetsFirst(g.session, d.p))
  {
    hide CarsUpTo, CountOf, Claimant, Reported, Applied, Emptied;
  }

  /** The first entry of the rank list is set exactly when some lap packet before, in whatever session,
      had a processed car at position 1; nothing ever unsets it. */
  lemma {:induction false} FirstRankSetExactly(states: seq<Garage>, deeds: seq<Deed>, n: nat)
    requires Trace(states, deeds) && n <= |deeds|
    ensures states[n].ranks[0] >= 0 <==> FirstSetBy(states, deeds, n)
  {
    hide Performed, SetsFirst;
    if n > 0 {
      FirstRankSetExactly(states, deeds, n - 1);
      assert Performed(states[n - 1], deeds[n - 1], states[n]);
      DeedSetsFirst(states[n - 1], deeds[n - 1], states[n]);
    }
  }

  // ----- measuring a race -----

  /** Neither a lap packet nor an init between steps m and n. */
  ghost predicate NoLapBetween(deeds: seq<Deed>, m: nat, n: nat)
    requires m <= n <= |deeds|
  {
    forall k :: m <= k < n ==> !deeds[k].FillLap? && !deeds[k].Init?
  }

  /** What a lap packet leaves for the race gaps: its reports, and the rank list it set. */
  ghost predicate LapInForce(session: Session, p: LapPacket, g: Garage) {
    && g.Ok() && PacketOk(session, p) && LapsReported(session, p, g.cars)
    && g.rankNum == CountOf(session, p, MAX_CAR_NUM)
    && exists stale :: RanksUpTo(session, p, stale, MAX_CAR_NUM, g.ranks)
  }

  lemma LapComesIntoForce(g: Garage, p: LapPacket, g': Garage)
    requires Performed(g, FillLap(p), g')
    ensures LapInForce(g.session, p, g')
  {
    hide CountOf, CarsUpTo, RanksUpTo, PacketOk, CarOk, AllReady, LapsReported;
    LapReports(g.session, p, g.flash, g.cars, g'.cars);
  }

  predicate SameLap(a: Car, b: Car) {
    a.entry == b.entry && a.sliceIndex == b.sliceIndex
  }

  /** What a deed other than a lap packet or an init leaves as it is. */
  lemma DeedKeepsLap(g: Garage, d: Deed, g': Garage)
    requires Performed(g, d, g') && !d.FillLap? && !d.Init?
    ensures g'.ranks == g.ranks && g'.rankNum == g.rankNum
    ensures forall i :: 0 <= i < MAX_CAR_NUM ==> SameLap(g.cars[i], g'.cars[i])
  {
    hide Measurable, Gauge, Filled, CarOk;
    if d.ToSql? {
      forall i | 0 <= i < MAX_CAR_NUM ensures SameLap(g.cars[i], g'.cars[i]) {
        assert Reported(g, d.drivers, i, g'.cars[i]);
      }
    }
  }

  lemma LapStaysInForce(session: Session, p: LapPacket, g: Garage, d: Deed, g': Garage)
    requires Performed(g, d, g') && !d.FillLap? && !d.Init? && LapInForce(session, p, g)
    ensures LapInForce(session, p, g')
  {
    PerformedOk(g, d, g');
    DeedKeepsLap(g, d, g');
    hide Performed, CountOf, RanksUpTo, PacketOk, CarOk, Considered, SliceOf;
  }

  lemma PerformedOk(g: Garage, d: Deed, g': Garage)
    requires Performed(g, d, g')
    ensures g.Ok() && g'.Ok() && DeedOk(g, d)
  {
  }

  lemma ForceMeasures(session: Session, p: LapPacket, g: Garage)
    requires LapInForce(session, p, g) && ProperPositions(session, p)
    ensures Measurable(true, g.cars, g.ranks[..g.rankNum]) <==> AllReady(session, p, g.cars)
    ensures g.rankNum > 0 ==> g.ranks[0] >= 0
  {
    hide CountOf, PacketOk, LapsReported, AllReady, RanksOk, ProperPositions, RanksUpTo, CarOk;
    var stale :| RanksUpTo(session, p, stale, MAX_CAR_NUM, g.ranks);
    RanksOkExactly(session, p, g.cars, stale, g.ranks);
    AllInRange(session, p, stale, g.ranks);
  }

  /** From a lap packet with proper positions up to any later ToSQL before the next lap packet or init,
      whatever other packets come between, a race can be measured exactly when every car of the lap
      packet is ready, best laps that became known since included; and the first rank is set if any
      car was processed. */
  lemma RaceMeasuredExactly(states: seq<Garage>, deeds: seq<Deed>, m: nat, n: nat)
    requires Trace(states, deeds) && m < n <= |deeds| && deeds[m].FillLap? && NoLapBetween(deeds, m + 1, n)
    ensures LapInForce(states[m].session, deeds[m].p, states[n])
    ensures ProperPositions(states[m].session, deeds[m].p) ==>
              && (Measurable(true, states[n].cars, states[n].ranks[..states[n].rankNum]) <==>
                    AllReady(states[m].session, deeds[m].p, states[n].cars))
              && (states[n].rankNum > 0 ==> states[n].ranks[0] >= 0)
  {
    hide Performed, AllReady, ProperPositions, LapInForce, Measurable;
    LapForceLasts(states, deeds, m, n);
    InForceIsOk(states[m].session, deeds[m].p, states[n]);
    if ProperPositions(states[m].session, deeds[m].p) {
      ForceMeasures(states[m].session, deeds[m].p, states[n]);
    }
  }

  lemma InForceIsOk(session: Session, p: LapPacket, g: Garage)
    requires LapInForce(session, p, g)
    ensures g.Ok() && PacketOk(session, p) && |p.entries| == MAX_CAR_NUM
  {
  }

  lemma {:induction false} LapForceLasts(states: seq<Garage>, deeds: seq<Deed>, m: nat, n: nat)
    requires Trace(states, deeds) && m < n <= |deeds| && deeds[m].FillLap? && NoLapBetween(deeds, m + 1, n)
    ensures LapInForce(states[m].session, deeds[m].p, states[n])
  {
    hide Performed, LapInForce;
    if n == m + 1 {
      assert Performed(states[m], deeds[m], states[n]);
      LapComesIntoForce(states[m], deeds[m].p, states[n]);
    } else {
      LapForceLasts(states, deeds, m, n - 1);
      assert Performed(states[n - 1], deeds[n - 1], states[n]);
      LapStaysInForce(states[m].session, deeds[m].p, states[n - 1], deeds[n - 1], states[n]);
    }
  }

  lemma CountAfterLap(g: Garage, p: LapPacket, g': Garage)
    requires Performed(g, FillLap(p), g')
    ensures |p.entries| == MAX_CAR_NUM && g'.rankNum == CountOf(g.session, p, MAX_CAR_NUM)
  {
    hide CountOf;
  }

  // ----- runs that end in a ToSQL that cannot read its ranks -----

  /** The state FillLapData leaves. */
  function AfterLap(g: Garage, p: LapPacket): Garage
    requires g.Ok() && LapOk(g.session, p)
  {
    Garage(seq(MAX_CAR_NUM, i requires 0 <= i < MAX_CAR_NUM => AfterPacket(g.session, p, i, g.flash, g.cars[i])),
           g.session, CountOf(g.session, p, MAX_CAR_NUM),
           seq(MAX_CAR_NUM, r requires 0 <= r < MAX_CAR_NUM =>
             var c := Claimant(g.session, p, MAX_CAR_NUM, r); if c >= 0 then c else g.ranks[r]),
           g.flash && CountOf(g.session, p, MAX_CAR_NUM) == 0)
  }

  /** PacketOk, spelt out as AfterPacket asks for it. */
  predicate LapOk(session: Session, p: LapPacket) {
    && |p.entries| == MAX_CAR_NUM
    && forall i :: 0 <= i < MAX_CAR_NUM && Considered(session, p, i) ==>
         p.entries[i].position <= MAX_CAR_NUM && ReportOf(session, p, i, false).Ok()
  }

  /** Every admissible lap packet can be performed. */
  lemma LapPerformed(g: Garage, p: LapPacket)
    requires g.Ok() && PacketOk(g.session, p)
    ensures LapOk(g.session, p) && Performed(g, FillLap(p), AfterLap(g, p))
  {
    hide Applied, Considered, CountOf, Claimant;
    var g' := AfterLap(g, p);
    forall k | 0 <= k < MAX_CAR_NUM ensures PacketLeaves(g.session, p, k, g.flash, g.cars[k], g'.cars[k]) {
    }
    assert CarsUpTo(g.session, p, g.flash, g.cars, MAX_CAR_NUM, g'.cars);
    assert RanksUpTo(g.session, p, g.ranks, MAX_CAR_NUM, g'.ranks);
  }

  lemma NewGarageOk()
    ensures NewGarage().Ok()
  {
  }

  /** A race session, and a lap packet in it. */
  function RaceAndLap(p: LapPacket): seq<Deed> {
    [SetSession(Session(RACE_1, 5000, 50, 0)), FillLap(p)]
  }

  lemma RaceAndLapTrace(p: LapPacket) returns (states: seq<Garage>)
    requires PacketOk(Session(RACE_1, 5000, 50, 0), p)
    ensures Trace(states, RaceAndLap(p)) && states[1].session == Session(RACE_1, 5000, 50, 0)
    ensures states[1] == NewGarage().(session := Session(RACE_1, 5000, 50, 0))
  {
    var g := NewGarage();
    NewGarageOk();
    var g1 := g.(session := Session(RACE_1, 5000, 50, 0));
    LapPerformed(g1, p);
    states := [g, g1, AfterLap(g1, p)];
    assert Performed(g, SetSession(Session(RACE_1, 5000, 50, 0)), g1);
    hide Performed, AfterLap;
  }

  /** One car at position 2: a lap packet was handed over, one car is ranked, and the first rank that
      ToSQL of a race starts from is not set. */
  lemma LoneCarHasNoLeader()
    ensures exists states: seq<Garage> :: && Trace(states, RaceAndLap(LoneCar()))
                                       && states[2].rankNum == 1 && states[2].ranks[0] == -1
  {
    var s, p := Session(RACE_1, 5000, 50, 0), LoneCar();
    LoneCarIsNotRanked();
    LoneCarClaims();
    hide CountOf, LoneCar, PacketOk;
    var states := RaceAndLapTrace(p);
    FirstRankSetExactly(states, RaceAndLap(p), 2);
    assert Performed(states[1], FillLap(p), states[2]);
    hide Trace;
    CountAfterLap(states[1], p, states[2]);
    PerformedOk(states[1], FillLap(p), states[2]);
  }

  lemma LoneCarClaims()
    ensures !SetsFirst(Session(RACE_1, 5000, 50, 0), LoneCar())
  {
    var s, p := Session(RACE_1, 5000, 50, 0), LoneCar();
    assert forall i :: 0 <= i < MAX_CAR_NUM ==> p.entries[i].position != 1;
    hide LoneCar, Claimant;
  }

  /** Two cars, the second on lap 0 before its first slice: the positions are proper, and the race
      cannot be measured within the split tables. */
  lemma LapZeroIsOutOfTable()
    ensures exists states: seq<Garage> :: && Trace(states, RaceAndLap(LapZero()))
                                       && ProperPositions(states[1].session, LapZero())
                                       && !RanksOk(states[2].cars, states[2].ranks[..states[2].rankNum])
  {
    var p := LapZero();
    LapZeroIsNotReady(NewGarage().cars);
    hide LapZero, PacketOk, AllReady, ProperPositions, CountOf, LapInForce, RanksOk;
    var states := RaceAndLapTrace(p);
    assert NoLapBetween(RaceAndLap(p), 1 + 1, 2);
    RaceMeasuredExactly(states, RaceAndLap(p), 1, 2);
    LapZeroIsNotReady(states[2].cars);
  }

  // ----- the camera -----

  /** The scenes and the camera before and after each call. */
  ghost predicate CameraTrace(states: seq<Garage>, deeds: seq<Deed>, shots: seq<Shot>, scenes: seq<Scenery>)
    requires Trace(states, deeds)
  {
    && |shots| == |deeds| && |scenes| == |states| && scenes[0] == NewScenery()
    && forall k :: 0 <= k < |deeds| ==>
         && Performed(states[k], deeds[k], states[k + 1])
         && Filmed(states[k], deeds[k], shots[k], scenes[k], scenes[k + 1])
  }

  /** The readings never go backwards. */
  ghost predicate ShotsPaced(shots: seq<Shot>) {
    && (forall k :: 0 <= k < |shots| ==> shots[k].now <= shots[k].later)
    && (forall k :: 0 < k < |shots| ==> shots[k - 1].later <= shots[k].now)
  }

  /** What a ToSQL tells the camera. */
  function CueOf(g: Garage, shot: Shot, s': Scenery): Cue
    requires g.rankNum <= |g.ranks|
  {
    Cue(g.session.IsRace(), s'.lists, Whose(g.ranks[..g.rankNum]), shot.now, shot.later)
  }

  /** The cues since the last init. */
  function CuesUpTo(states: seq<Garage>, deeds: seq<Deed>, shots: seq<Shot>, scenes: seq<Scenery>, n: nat): seq<Cue>
    requires Trace(states, deeds) && |shots| == |deeds| && |scenes| == |states| && n <= |deeds|
  {
    if n == 0 || deeds[n - 1].Init? then []
    else
      CuesUpTo(states, deeds, shots, scenes, n - 1)
      + if deeds[n - 1].ToSql? then [CueOf(states[n - 1], shots[n - 1], scenes[n])] else []
  }

  lemma {:induction false} FocusOfPrefix(cues: seq<Cue>, c: Cue, k: nat)
    requires CuesOk(cues) && CuesOk(cues + [c]) && k <= |cues|
    ensures FocusAt(cues + [c], k) == FocusAt(cues, k)
  {
    hide Cued;
    if k > 0 { FocusOfPrefix(cues, c, k - 1); }
  }

  lemma FilmedCue(g: Garage, d: Deed, shot: Shot, s: Scenery, s': Scenery)
    requires g.Ok() && DeedOk(g, d) && d.ToSql? && Filmed(g, d, shot, s, s')
    ensures CueOf(g, shot, s').Ok() && s'.focus == Cued(s.focus, CueOf(g, shot, s'))
  {
    hide MeasuredAll, RaceLists, LapLists, Measurable, RaceFocus, LapFocus;
  }

  lemma CuesOkAppend(cues: seq<Cue>, c: Cue)
    requires CuesOk(cues) && c.Ok() && c.now <= c.later && (cues != [] ==> cues[|cues| - 1].later <= c.now)
    ensures CuesOk(cues + [c])
  {
  }

  lemma CueAppends(cues: seq<Cue>, c: Cue)
    requires CuesOk(cues) && c.Ok() && c.now <= c.later && (cues != [] ==> cues[|cues| - 1].later <= c.now)
    ensures CuesOk(cues + [c]) && FocusAt(cues + [c], |cues| + 1) == Cued(FocusAt(cues, |cues|), c)
  {
    hide Cued, FocusAt;
    CuesOkAppend(cues, c);
    hide CuesOk;
    FocusOfPrefix(cues, c, |cues|);
    FocusStep(cues + [c], |cues|);
  }

  /** Between two inits the camera of the class is a run of cues: everything proved of `FocusAt` holds
      of it. */
  lemma {:induction false} CameraIsARun(states: seq<Garage>, deeds: seq<Deed>, shots: seq<Shot>,
                                        scenes: seq<Scenery>, n: nat)
    requires Trace(states, deeds) && CameraTrace(states, deeds, shots, scenes) && ShotsPaced(shots) && n <= |deeds|
    ensures var cues := CuesUpTo(states, deeds, shots, scenes, n);
            && CuesOk(cues) && scenes[n].focus == FocusAt(cues, |cues|)
            && (cues != [] ==> n > 0 && cues[|cues| - 1].later <= shots[n - 1].later)
  {
    hide Filmed, Performed, CuesOk, Cued, DeedOk;
    NoCues();
    if n > 0 && !deeds[n - 1].Init? {
      CameraIsARun(states, deeds, shots, scenes, n - 1);
      var g, d, shot, s, s' := states[n - 1], deeds[n - 1], shots[n - 1], scenes[n - 1], scenes[n];
      assert Performed(g, d, states[n]);
      PerformedOk(g, d, states[n]);
      assert Filmed(g, d, shot, s, s');
      var cues := CuesUpTo(states, deeds, shots, scenes, n - 1);
      if d.ToSql? {
        FilmedCue(g, d, shot, s, s');
        CueAppends(cues, CueOf(g, shot, s'));
      } else {
        FilmedElse(g, d, shot, s, s');
        assert cues + [] == cues;
      }
    } else if n > 0 {
      assert Performed(states[n - 1], deeds[n - 1], states[n]);
      PerformedOk(states[n - 1], deeds[n - 1], states[n]);
      assert Filmed(states[n - 1], deeds[n - 1], shots[n - 1], scenes[n - 1], scenes[n]);
      FilmedElse(states[n - 1], deeds[n - 1], shots[n - 1], scenes[n - 1], scenes[n]);
    }
  }

  lemma NoCues()
    ensures CuesOk([]) && FocusAt([], 0) == NO_FOCUS
  {
  }

  lemma FilmedElse(g: Garage, d: Deed, shot: Shot, s: Scenery, s': Scenery)
    requires g.Ok() && DeedOk(g, d) && !d.ToSql? && Filmed(g, d, shot, s, s')
    ensures s' == if d.Init? then NewScenery() else s
  {
  }

  /** At a ToSQL of a race: when a switch is allowed and some ranked car is active, the camera of the
      class goes to the active head of the highest-priority list of the measured cars; otherwise it
      stays. */
  lemma RaceCameraOfTheClass(g: Garage, drivers: nat, shot: Shot, s: Scenery, s': Scenery)
    requires g.Ok() && DeedOk(g, Deed.ToSql(drivers)) && g.session.IsRace()
    requires Filmed(g, Deed.ToSql(drivers), shot, s, s')
    ensures var ranks := g.ranks[..g.rankNum];
            var ranked := Standing(MeasuredAll(true, g.cars, ranks), ranks);
            && Full(s'.lists)
            && if (s.focus.cur.None? || shot.now >= s.focus.end)
                  && exists i :: 0 <= i < |ranked| && ranked[i].entry.resultStatus == 2 then
                 GoesToHead(s'.focus, s'.lists, ranked, Whose(ranks), TopScene(s'.lists), shot.later)
               else s'.focus == s.focus
  {
    var ranks := g.ranks[..g.rankNum];
    var measured := MeasuredAll(true, g.cars, ranks);
    assert |measured| == MAX_CAR_NUM;
    hide MeasuredAll, RaceLists, LapLists, Measurable, RaceFocus, LapFocus, GoesToHead;
    var leader := measured[g.ranks[0]];
    CameraGoesToTheHead(s.focus, s'.lists, Standing(measured, ranks), Whose(ranks),
                        Phase(leader.entry.lapNum, g.session.totalLaps), g.session.safetyCarStatus == FORMATION_LAP,
                        leader.sliceIndex, shot.first, shot.second, shot.now, shot.later);
  }

  // ----- from the packets of a house -----

  /** How the calls of a house read: what a packet holds, as a deed. */
  ghost predicate Reading(read: PacketHouses.CarCall -> Deed, session: Packets.Packet -> Session,
                          lap: Packets.Packet -> LapPacket) {
    && read(PacketHouses.CarCall.Init) == Init
    && (forall p :: read(PacketHouses.FillSession(p)) == SetSession(session(p)))
    && (forall p :: read(PacketHouses.FillLapData(p)) == FillLap(lap(p)))
    && (forall p :: read(PacketHouses.FillHistory(p)).FillPast?)
    && (forall p :: read(PacketHouses.FillOther(p)).FillEach?)
    && read(PacketHouses.SetFlashBack) == FlashBack
    && read(PacketHouses.ToSql).ToSql?
  }

  function ReadAll(calls: seq<PacketHouses.CarCall>, read: PacketHouses.CarCall -> Deed): (deeds: seq<Deed>)
    ensures |deeds| == |calls|
  {
    seq(|calls|, k requires 0 <= k < |calls| => read(calls[k]))
  }

  lemma ReadKinds(read: PacketHouses.CarCall -> Deed, session: Packets.Packet -> Session,
                  lap: Packets.Packet -> LapPacket, c: PacketHouses.CarCall)
    requires Reading(read, session, lap)
    ensures read(c).SetSession? <==> c.FillSession?
    ensures read(c).FillLap? <==> c.FillLapData?
    ensures c.FillSession? ==> read(c).s == session(c.p)
    ensures c.FillLapData? ==> read(c).p == lap(c.p)
  {
  }

  lemma {:induction false} SessionOfTrace(calls: seq<PacketHouses.CarCall>, read: PacketHouses.CarCall -> Deed,
                                          session: Packets.Packet -> Session, lap: Packets.Packet -> LapPacket,
                                          states: seq<Garage>, n: nat)
    requires Reading(read, session, lap) && Trace(states, ReadAll(calls, read)) && n <= |calls|
    ensures ParentRows.KnownSession(calls[..n]).Some? ==>
              states[n].session == session(ParentRows.KnownSession(calls[..n]).value)
  {
    hide Reading, Performed;
    if n > 0 {
      SessionOfTrace(calls, read, session, lap, states, n - 1);
      assert calls[..n][..n - 1] == calls[..n - 1];
      assert Performed(states[n - 1], ReadAll(calls, read)[n - 1], states[n]);
      SessionOfDeed(states[n - 1], read(calls[n - 1]), states[n]);
      ReadKinds(read, session, lap, calls[n - 1]);
    }
  }

  lemma SessionOfDeed(g: Garage, d: Deed, g': Garage)
    requires Performed(g, d, g')
    ensures g'.session == if d.SetSession? then d.s else g.session
  {
  }

  /** Over every run of a house: its cars are the histories of the calls it made, its camera is a run of
      their cues, and every lap packet was read with the session of the SessionData known to the house
      at that moment. */
  lemma HouseCarsAreHistories(t0: nat, ins: seq<HouseRuns.Input>, read: PacketHouses.CarCall -> Deed,
                              session: Packets.Packet -> Session, lap: Packets.Packet -> LapPacket,
                              states: seq<Garage>, shots: seq<Shot>, scenes: seq<Scenery>, i: nat, m: nat)
    requires Reading(read, session, lap) && Trace(states, ReadAll(HouseRuns.After(t0, ins).cars, read))
    requires CameraTrace(states, ReadAll(HouseRuns.After(t0, ins).cars, read), shots, scenes) && ShotsPaced(shots)
    requires i < MAX_CAR_NUM && m < |HouseRuns.After(t0, ins).cars|
    ensures var calls := HouseRuns.After(t0, ins).cars;
            && AllOpsOk(OpsUpTo(states, ReadAll(calls, read), |calls|, i))
            && states[|calls|].cars[i] == CarAfter(OpsUpTo(states, ReadAll(calls, read), |calls|, i))
            && (calls[m].FillLapData? ==>
                  && ParentRows.KnownSession(calls[..m]).Some?
                  && states[m].session == session(ParentRows.KnownSession(calls[..m]).value))
            && var cues := CuesUpTo(states, ReadAll(calls, read), shots, scenes, |calls|);
               CuesOk(cues) && scenes[|calls|].focus == FocusAt(cues, |cues|)
  {
    hide HouseRuns.After, HouseRuns.LastOut, Trace, Reading, CameraTrace, CuesOk, FocusAt;
    var calls := HouseRuns.After(t0, ins).cars;
    CarsAreHistories(states, ReadAll(calls, read), |calls|, i);
    CameraIsARun(states, ReadAll(calls, read), shots, scenes, |calls|);
    ParentRows.LapDataKnowsItsSession(t0, ins);
    SessionOfTrace(calls, read, session, lap, states, m);
  }

  /** The lap packet gives the first rank a car, in the session it is read with. */
  function GivesLeader(session: Packets.Packet -> Session, lap: Packets.Packet -> LapPacket): ParentRows.LapProperty {
    (s, p) => SetsFirst(session(s), lap(p))
  }

  /** Both ways of saying that some lap packet set the first rank. */
  lemma LeaderOfTrace(calls: seq<PacketHouses.CarCall>, read: PacketHouses.CarCall -> Deed,
                      session: Packets.Packet -> Session, lap: Packets.Packet -> LapPacket, states: seq<Garage>)
    requires Reading(read, session, lap) && Trace(states, ReadAll(calls, read)) && ParentRows.LapsKnowSession(calls)
    ensures FirstSetBy(states, ReadAll(calls, read), |calls|)
       <==> ParentRows.EverFilled(calls, GivesLeader(session, lap))
  {
    assert |states| == |calls| + 1;
    hide Reading, Trace, SetsFirst;
    forall m | 0 <= m < |calls|
      ensures (ReadAll(calls, read)[m].FillLap? && SetsFirst(states[m].session, ReadAll(calls, read)[m].p))
         <==> && calls[m].FillLapData? && ParentRows.KnownSession(calls[..m]).Some?
              && GivesLeader(session, lap)(ParentRows.KnownSession(calls[..m]).value, calls[m].p)
    {
      ReadKinds(read, session, lap, calls[m]);
      SessionOfTrace(calls, read, session, lap, states, m);
    }
  }

  /** Whenever a batch calls ToSQL, the first rank is set exactly when some lap packet, stored after
      some SessionData, had a processed car at position 1 in the session known at that moment: a lap
      packet by itself is not enough. */
  lemma BatchHasLeaderExactly(t0: nat, ins: seq<HouseRuns.Input>, read: PacketHouses.CarCall -> Deed,
                              session: Packets.Packet -> Session, lap: Packets.Packet -> LapPacket, states: seq<Garage>)
    requires ins != [] && HouseRuns.HasBatch(HouseRuns.LastOut(t0, ins).sql) && Reading(read, session, lap)
    requires HouseRuns.After(t0, ins).cars != []
    requires var calls := HouseRuns.After(t0, ins).cars; Trace(states, ReadAll(calls[..|calls| - 1], read))
    ensures var calls := HouseRuns.After(t0, ins).cars;
            && calls[|calls| - 1] == PacketHouses.ToSql
            && (states[|calls| - 1].ranks[0] >= 0 <==> ParentRows.LapEverStored(ins, GivesLeader(session, lap)))
  {
    hide HouseRuns.After, HouseRuns.LastOut, Trace, Reading, FirstSetBy;
    hide ParentRows.LapEverStored, ParentRows.EverFilled;
    var calls := HouseRuns.After(t0, ins).cars;
    var front := calls[..|calls| - 1];
    ParentRows.BatchAfterLapExactly(t0, ins, GivesLeader(session, lap));
    ParentRows.LapDataKnowsItsSession(t0, ins);
    assert forall m :: 0 <= m <= |front| ==> front[..m] == calls[..m];
    FirstRankSetExactly(states, ReadAll(front, read), |front|);
    LeaderOfTrace(front, read, session, lap, states);
  }

  // ----- a batch without a leader -----

  /** A reading in which every session is a race and every lap packet has its one car at position 2. */
  function LoneSession(p: Packets.Packet): Session {
    Session(RACE_1, 5000, 50, 0)
  }

  function LoneLap(p: Packets.Packet): LapPacket {
    LoneCar()
  }

  function ReadLone(c: PacketHouses.CarCall): Deed {
    match c
    case Init => Deed.Init
    case FillSession(p) => SetSession(LoneSession(p))
    case FillLapData(p) => FillLap(LoneLap(p))
    case FillHistory(_) => FillPast(0, NoHistory())
    case FillOther(_) => FillEach(seq(MAX_CAR_NUM, _ => Telemetry(0)))
    case SetFlashBack => FlashBack
    case ToSql => Deed.ToSql(0)
  }

  /** Each call of the reading but ToSQL can be performed. */
  lemma LonePerforms(g: Garage, c: PacketHouses.CarCall) returns (g': Garage)
    requires g.Ok() && c != PacketHouses.ToSql
    requires c.FillLapData? ==> g.session == Session(RACE_1, 5000, 50, 0)
    ensures Performed(g, ReadLone(c), g')
    ensures g'.session == if c.FillSession? then Session(RACE_1, 5000, 50, 0) else g.session
  {
    hide Filled;
    match c {
      case Init =>
        g' := g.(cars := seq(MAX_CAR_NUM, i requires 0 <= i < MAX_CAR_NUM => Emptied(g.cars[i])),
                 rankNum := 0, flash := false);
      case FillSession(p) => g' := g.(session := LoneSession(p));
      case FillLapData(p) =>
        LoneCarIsNotRanked();
        LapPerformed(g, LoneCar());
        g' := AfterLap(g, LoneCar());
      case FillHistory(_) => g' := g.(cars := g.cars[0 := Applied(g.cars[0], Past(NoHistory()))]);
      case FillOther(_) =>
        g' := g.(cars := seq(MAX_CAR_NUM, i requires 0 <= i < MAX_CAR_NUM => Applied(g.cars[i], Telemetry(0))));
      case SetFlashBack => g' := g.(flash := true);
    }
  }

  lemma {:induction false} LoneTrace(calls: seq<PacketHouses.CarCall>) returns (states: seq<Garage>)
    requires PacketHouses.ToSql !in calls && ParentRows.LapsKnowSession(calls)
    ensures Trace(states, ReadAll(calls, ReadLone))
    ensures ParentRows.KnownSession(calls).Some? ==> states[|calls|].session == Session(RACE_1, 5000, 50, 0)
  {
    hide Performed, ReadLone;
    if calls == [] {
      NewGarageOk();
      states := [NewGarage()];
    } else {
      var n := |calls| - 1;
      assert calls == calls[..n] + [calls[n]];
      assert forall m :: 0 <= m <= n ==> calls[..n][..m] == calls[..m];
      var front := LoneTrace(calls[..n]);
      assert forall k :: 0 <= k < n ==> ReadAll(calls[..n], ReadLone)[k] == ReadAll(calls, ReadLone)[k];
      var last := LonePerforms(front[n], calls[n]);
      PerformedOk(front[n], ReadLone(calls[n]), last);
      states := front + [last];
      assert forall k :: 0 <= k < n ==> Performed(states[k], ReadAll(calls, ReadLone)[k], states[k + 1]);
    }
  }

  lemma LoneReading()
    ensures Reading(ReadLone, LoneSession, LoneLap)
  {
  }

  ghost predicate LeaderlessBatch(ins: seq<HouseRuns.Input>, states: seq<Garage>) {
    var calls := HouseRuns.After(0, ins).cars;
    && ins != [] && HouseRuns.Clocked(0, ins) && HouseRuns.HasBatch(HouseRuns.LastOut(0, ins).sql)
    && ParentRows.EverFilled(calls, ParentRows.AnyLap()) && calls != []
    && Trace(states, ReadAll(calls[..|calls| - 1], ReadLone)) && states[|calls| - 1].ranks[0] == -1
  }

  /** A concrete run: a race session, then a lap packet whose one car is at position 2, then what a
      batch needs. The batch is written, a lap packet was handed over, and the first rank is not set. */
  lemma BatchWithoutLeader()
    ensures exists ins: seq<HouseRuns.Input>, states: seq<Garage> :: LeaderlessBatch(ins, states)
  {
    hide HouseRuns.After, HouseRuns.LastOut, HouseRuns.Clocked, HouseRuns.HasBatch, Trace, ReadLone, ReadAll, Reading;
    hide ParentRows.EverFilled, ParentRows.LapEverStored, ParentRows.Eight, ParentRows.LapsKnowSession, GivesLeader;
    var ins := ParentRows.Eight(true);
    var calls := HouseRuns.After(0, ins).cars;
    ParentRows.EightHasBatch(true);
    ParentRows.SessionFirstHasLap();
    ParentRows.EverFilledExactly(0, ins, ParentRows.AnyLap());
    LoneLeaderNever(ins);
    LoneLapsKnown(0, ins);
    var states := LoneTrace(calls[..|calls| - 1]);
    LoneReading();
    BatchHasLeaderExactly(0, ins, ReadLone, LoneSession, LoneLap, states);
    TraceIsOk(states, ReadAll(calls[..|calls| - 1], ReadLone), |calls| - 1);
    assert states[|calls| - 1].ranks[0] == -1;
    assert ParentRows.EverFilled(calls, ParentRows.AnyLap());
    assert LeaderlessBatch(ins, states);
  }

  lemma TraceIsOk(states: seq<Garage>, deeds: seq<Deed>, n: nat)
    requires Trace(states, deeds) && n <= |deeds|
    ensures |states| == |deeds| + 1 && |states[n].ranks| == MAX_CAR_NUM && states[n].ranks[0] >= -1
  {
    hide Performed;
  }

  lemma LoneLapsKnown(t0: nat, ins: seq<HouseRuns.Input>)
    ensures var calls := HouseRuns.After(t0, ins).cars; calls != [] ==> ParentRows.LapsKnowSession(calls[..|calls| - 1])
  {
    hide HouseRuns.After;
    var calls := HouseRuns.After(t0, ins).cars;
    ParentRows.LapDataKnowsItsSession(t0, ins);
    if calls != [] {
      assert forall m :: 0 <= m < |calls| ==> calls[..|calls| - 1][..m] == calls[..m];
    }
  }

  lemma LoneLeaderNever(ins: seq<HouseRuns.Input>)
    ensures !ParentRows.LapEverStored(ins, GivesLeader(LoneSession, LoneLap))
  {
    hide LoneCar, SetsFirst, HouseRuns.LastPacket, ParentRows.NoSession;
    LoneCarClaims();
    assert forall s, p :: !GivesLeader(LoneSession, LoneLap)(s, p);
    hide GivesLeader;
  }
}
