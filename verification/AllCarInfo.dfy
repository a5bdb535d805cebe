/** `AllCarInfo`: the car array, the rank list, the loops that fill and measure them, and what ToSQL
    does with them. */
module AllCarInfos {
  import opened Options
  import opened Cars
  import opened Scenes

  datatype LapPacket = LapPacket(entries: seq<Entry>, sessionTime: real, pbCar: nat, rivalCar: nat)

  /** The cars FillLapData looks at: in time trial only the player, the personal best and the rival. */
  predicate Listed(session: Session, p: LapPacket, i: nat) {
    !session.IsTT() || i == 0 || i == p.pbCar || i == p.rivalCar
  }

  /** The cars FillLapData processes. */
  predicate Considered(session: Session, p: LapPacket, i: nat)
    requires |p.entries| == MAX_CAR_NUM
  {
    i < MAX_CAR_NUM && Listed(session, p, i) && p.entries[i].position != 0
  }

  function ReportOf(session: Session, p: LapPacket, i: nat, flash: bool): Report
    requires |p.entries| == MAX_CAR_NUM && i < MAX_CAR_NUM
  {
    Report(p.entries[i], p.sessionTime, session.trackLength, session.IsRace(),
           session.safetyCarStatus == FORMATION_LAP, flash)
  }

  /** What the source takes for granted of a lap packet: array bounds, and a track. */
  ghost predicate PacketOk(session: Session, p: LapPacket) {
    && |p.entries| == MAX_CAR_NUM
    && forall i :: 0 <= i < MAX_CAR_NUM && Considered(session, p, i) ==>
         p.entries[i].position <= MAX_CAR_NUM && ReportOf(session, p, i, false).Ok()
  }

  /** How many of the first n cars are processed. */
  function CountOf(session: Session, p: LapPacket, n: nat): (c: nat)
    requires |p.entries| == MAX_CAR_NUM && n <= MAX_CAR_NUM
    ensures c <= n
    ensures c == 0 <==> forall i :: 0 <= i < n ==> !Considered(session, p, i)
  {
    if n == 0 then 0 else CountOf(session, p, n - 1) + if Considered(session, p, n - 1) then 1 else 0
  }

  /** The last of the first n cars that claims position r + 1, or -1. */
  function Claimant(session: Session, p: LapPacket, n: nat, r: nat): (c: int)
    requires |p.entries| == MAX_CAR_NUM && n <= MAX_CAR_NUM
    ensures -1 <= c < n
    ensures c >= 0 ==> Considered(session, p, c) && p.entries[c].position == r + 1
    ensures forall i :: c < i < n && Considered(session, p, i) ==> p.entries[i].position != r + 1
  {
    if n == 0 then -1
    else if Considered(session, p, n - 1) && p.entries[n - 1].position == r + 1 then n - 1
    else Claimant(session, p, n - 1, r)
  }

  /** The operation FillLapData amounts to for car i, if it is processed. */
  function LapOp(session: Session, p: LapPacket, i: nat, flash: bool): CarOp
    requires |p.entries| == MAX_CAR_NUM && i < MAX_CAR_NUM
  {
    Fill(i, ReportOf(session, p, i, flash && CountOf(session, p, i) == 0))
  }

  // ----- gaps -----

  /** Lap and slice at which a car of the race is compared with the cars before it. */
  function CompareAt(car: Car): (int, int) {
    if car.entry.lapNum == 1 then (1, if car.sliceIndex > NUMSLICE / 20 then car.sliceIndex else NUMSLICE / 20)
    else if car.sliceIndex < 0 then (car.entry.lapNum - 1, NUMSLICE - 1)
    else (car.entry.lapNum, car.sliceIndex)
  }

  /** The compared lap is in the table: only lap 0 before the first slice is not. */
  predicate Comparable(car: Car) {
    car.entry.lapNum > 0 || car.sliceIndex >= 0
  }

  function SplitTime(car: Car, lap: int, slice: int): real
    requires LapsOk(car.laps) && 0 <= lap < LAPS && 0 <= slice < NUMSLICE
  {
    car.laps[lap].slice[slice].sessionTime
  }

  function Max0(r: real): real {
    if r > 0.0 then r else 0.0
  }

  function Seconds(ms: int): real {
    ms as real * 0.001
  }

  /** `diffBetween2Car` */
  function RawGap(car: Car, other: Car, lap: int, slice: int): real
    requires LapsOk(car.laps) && LapsOk(other.laps) && 0 <= lap < LAPS && 0 <= slice < NUMSLICE
  {
    SplitTime(car, lap, slice) - SplitTime(other, lap, slice)
  }

  /** `diffBetween2CarJIT` */
  function JitGap(car: Car, lap: nat, other: Car, otherLap: nat, slice: int): real
    requires LapsOk(car.laps) && LapsOk(other.laps) && lap < LAPS && otherLap < LAPS && 0 <= slice < NUMSLICE
  {
    if other.laps[otherLap].slice[NUMSLICE - 1].lapTime != 0 then
      Seconds(car.laps[lap].slice[slice].lapTime - other.laps[otherLap].slice[slice].lapTime)
    else
      var own, best := car.history.At(car.history.numLaps - 1), other.history.At(other.history.bestLapNum - 1);
      if own.sector2 != 0 then Seconds((own.sector1 + own.sector2) - (best.sector1 + best.sector2))
      else if own.sector1 != 0 then Seconds(own.sector1 - best.sector1)
      else 0.0
  }

  /** If a car is measured against its own best lap, that lap is in the table. */
  predicate OwnInTable(car: Car) {
    car.entry.lapNum > 1 && car.sliceIndex >= 0 ==> car.bestLapNum < LAPS
  }

  /** If a car is measured against the best lap of another, that lap is in the table. */
  predicate RunsInTable(car: Car, other: Car) {
    car.sliceIndex >= 0 ==> other.bestLapNum < LAPS
  }

  /** What both kinds of session measure of a car against its own laps. */
  function OwnGaps(car: Car): Gaps
    requires CarOk(car) && OwnInTable(car)
  {
    if car.entry.lapNum > 1 && car.sliceIndex >= 0 then
      NO_GAPS.(bestLapJit := JitGap(car, car.entry.lapNum, car, car.bestLapNum, car.sliceIndex),
               lastLapJit := JitGap(car, car.entry.lapNum, car, car.entry.lapNum - 1, car.sliceIndex))
    else NO_GAPS
  }

  /** The gaps of the car of rank r in a race. */
  function GapsOf(cars: seq<Car>, ranks: seq<int>, r: nat): Gaps
    requires RanksOk(cars, ranks) && r < |ranks|
  {
    var car := cars[ranks[r]];
    if r == 0 then OwnGaps(car)
    else
      var (lap, slice) := CompareAt(car);
      var leader := Max0(RawGap(car, cars[ranks[0]], lap, slice));
      var front := Max0(RawGap(car, cars[ranks[r - 1]], lap, slice));
      OwnGaps(car).(leader := leader, front := front, leaderJit := leader, frontJit := front)
  }

  /** A race can measure the car within its tables; the first one is compared with nobody. */
  predicate Gaugeable(car: Car, first: bool) {
    OwnInTable(car) && (first || Comparable(car))
  }

  predicate RanksOk(cars: seq<Car>, ranks: seq<int>) {
    && (forall r :: 0 <= r < |ranks| ==> 0 <= ranks[r] < |cars|)
    && (forall r :: 0 <= r < |ranks| ==> Gaugeable(cars[ranks[r]], r == 0))
    && (forall i :: 0 <= i < |cars| ==> CarOk(cars[i]))
  }

  /** The gap in best lap times, 0 as long as one of the two has none. */
  function BestGap(car: Car, other: Car): real {
    if car.bestLapTime > 0 && other.bestLapTime > 0 then Seconds(car.bestLapTime - other.bestLapTime) else 0.0
  }

  /** The running gap of a car to the best lap of another, 0 as long as that has none. */
  function RunningGap(car: Car, other: Car): real
    requires CarOk(car) && CarOk(other) && RunsInTable(car, other)
  {
    if other.bestLapNum > 0 && car.sliceIndex >= 0 then
      JitGap(car, car.entry.lapNum, other, other.bestLapNum, car.sliceIndex)
    else 0.0
  }

  /** The gaps of the car of rank r outside a race. */
  function LapGapsOf(cars: seq<Car>, ranks: seq<int>, r: nat): Gaps
    requires LapRanksOk(cars, ranks) && r < |ranks| && ranks[r] >= 0
  {
    LedByFirst(cars, ranks, r);
    var car, leader := cars[ranks[r]], cars[ranks[0]];
    var g := OwnGaps(car).(leaderJit := RunningGap(car, leader));
    if r == 0 then g
    else
      var front := cars[ranks[r - 1]];
      g.(leader := BestGap(car, leader), front := BestGap(car, front), frontJit := RunningGap(car, front))
  }

  /** Outside a race an entry may be null (-1 here) as long as nobody behind it is listed; and the best
      laps a car is measured against are in the table. */
  predicate LapRanksOk(cars: seq<Car>, ranks: seq<int>) {
    && (forall r :: 0 <= r < |ranks| ==> -1 <= ranks[r] < |cars|)
    && (forall r :: 0 < r < |ranks| && ranks[r] >= 0 ==>
          ranks[r - 1] >= 0 && RunsInTable(cars[ranks[r]], cars[ranks[r - 1]]))
    && (forall r :: 0 <= r < |ranks| && ranks[r] >= 0 ==>
          OwnInTable(cars[ranks[r]]) && (ranks[0] >= 0 ==> RunsInTable(cars[ranks[r]], cars[ranks[0]])))
    && (forall i :: 0 <= i < |cars| ==> CarOk(cars[i]))
  }

  lemma {:induction false} LedByFirst(cars: seq<Car>, ranks: seq<int>, r: nat)
    requires LapRanksOk(cars, ranks) && r < |ranks| && ranks[r] >= 0
    ensures ranks[0] >= 0
  {
    if r > 0 { LedByFirst(cars, ranks, r - 1); }
  }

  predicate Measurable(race: bool, cars: seq<Car>, ranks: seq<int>) {
    if race then RanksOk(cars, ranks) else LapRanksOk(cars, ranks)
  }

  function Gauge(race: bool, cars: seq<Car>, ranks: seq<int>, r: nat): Gaps
    requires Measurable(race, cars, ranks) && r < |ranks| && ranks[r] >= 0
  {
    if race then GapsOf(cars, ranks, r) else LapGapsOf(cars, ranks, r)
  }

  /** The last rank below n at which car i is listed, or -1. */
  function RankOf(ranks: seq<int>, n: nat, i: int): (r: int)
    requires n <= |ranks|
    ensures -1 <= r < n
    ensures r >= 0 ==> ranks[r] == i
    ensures forall k :: r < k < n ==> ranks[k] != i
  {
    if n == 0 then -1 else if ranks[n - 1] == i then n - 1 else RankOf(ranks, n - 1, i)
  }

  class AllCarInfo {
    const cars: array<Car>
    var session: Session
    var rankNum: nat
    const rankList: array<int>          // indices into cars; -1 where the pointer was never set
    var isFlashBack: bool
    const director: Director

    ghost predicate Valid()
      reads this, cars, rankList, director, director.focus
    {
      && cars.Length == MAX_CAR_NUM && rankList.Length == MAX_CAR_NUM
      && rankNum <= MAX_CAR_NUM
      && (forall i :: 0 <= i < cars.Length ==> CarOk(cars[i]))
      && (forall r :: 0 <= r < rankList.Length ==> -1 <= rankList[r] < MAX_CAR_NUM)
      && director.Valid()
      && (director.focus.cur.Some? ==> director.focus.cur.value < MAX_CAR_NUM)
    }

    /** The scenes and the camera, and everything else. */
    ghost function Stage(): Scenery
      reads director, director.focus
    {
      Scenery(director.scenes, director.focus.View())
    }

    ghost function View(): Garage
      reads this, cars, rankList
    {
      Garage(cars[..], session, rankNum, rankList[..], isFlashBack)
    }

    constructor ()
      ensures Valid() && fresh(cars) && fresh(rankList) && fresh(director) && fresh(director.focus)
      ensures View() == NewGarage() && Stage() == NewScenery()
    {
      cars := new Car[MAX_CAR_NUM](_ => NoCar());
      rankList := new int[MAX_CAR_NUM](_ => -1);
      session, rankNum, isFlashBack := Session(0, 0, 0, 0), 0, false;
      director := new Director();
      new;
      assert cars[..] == seq(MAX_CAR_NUM, _ => NoCar());
      assert rankList[..] == seq(MAX_CAR_NUM, _ => -1);
    }

    /** `init`: everything but the session, the rank list itself and the cars' histories. */
    method Reset()
      requires Valid()
      modifies this`rankNum, this`isFlashBack, cars, director, director.focus
      ensures Valid() && Stage() == NewScenery() && Performed(old(View()), Init, View())
    {
      rankNum := 0;
      director.Init();
      for i := 0 to MAX_CAR_NUM
        invariant rankNum == 0 && director.Valid() && director.scenes == NoLists() && director.focus.View() == NO_FOCUS
        invariant forall k :: 0 <= k < i ==> cars[k] == old(Emptied(cars[k]))
        invariant forall k :: i <= k < MAX_CAR_NUM ==> cars[k] == old(cars[k])
      {
        cars[i] := Emptied(cars[i]);
      }
      isFlashBack := false;
    }

    method FillSession(s: Session)
      requires Valid()
      modifies this`session
      ensures Valid() && Performed(old(View()), SetSession(s), View())
    {
      session := s;
    }

    method SetFlashBack()
      requires Valid()
      modifies this`isFlashBack
      ensures Valid() && Performed(old(View()), FlashBack, View())
    {
      isFlashBack := true;
    }

    /** The loop body of FillLapData. */
    method FillCar(p: LapPacket, i: nat)
      requires Valid() && PacketOk(session, p) && i < MAX_CAR_NUM && rankNum <= i
      modifies this`rankNum, this`isFlashBack, cars, rankList
      ensures Valid() && rankNum <= i + 1 && PassedOver(p, i, old(View()), View())
    {
      hide Filled;
      if session.IsTT() && !(i == 0 || i == p.pbCar || i == p.rivalCar) {
        return;
      }
      if p.entries[i].position == 0 {
        return;
      }
      var r := ReportOf(session, p, i, isFlashBack);
      assert ReportOf(session, p, i, false).Ok();
      cars[i] := Filled(cars[i], i, r);
      isFlashBack := false;
      rankList[p.entries[i].position - 1] := i;
      rankNum := rankNum + 1;
    }

    method FillLapData(p: LapPacket)
      requires Valid() && PacketOk(session, p)
      modifies this`rankNum, this`isFlashBack, cars, rankList
      ensures Valid()
      ensures Performed(old(View()), FillLap(p), View())
    {
      ghost var g := View();
      rankNum := 0;
      UpToStart(g, p);
      hide AllCarInfo.View, FilledUpTo, PassedOver, Performed, PacketOk;
      for i := 0 to MAX_CAR_NUM
        invariant Valid() && View().Ok() && rankNum <= i && View().session == session == g.session
        invariant FilledUpTo(g, p, i, View())
      {
        ghost var before := View();
        FillCar(p, i);
        UpToStep(g, p, i, before, View());
      }
      FillPerformed(g, p, View());
    }

    method FillCarMotion(p: seq<(real, real, real)>)
      requires Valid() && |p| == MAX_CAR_NUM
      modifies cars
      ensures Valid() && Performed(old(View()), FillEach(Motions(p)), View())
    {
      for i := 0 to MAX_CAR_NUM
        invariant forall k :: 0 <= k < i ==> cars[k] == Applied(old(cars[k]), Motions(p)[k])
        invariant forall k :: i <= k < MAX_CAR_NUM ==> cars[k] == old(cars[k])
      {
        cars[i] := cars[i].(snap := cars[i].snap.(x := p[i].0, y := p[i].1, z := p[i].2));
      }
    }

    /** Distance to the DRS zone, marshal's flag and ERS mode of each car. */
    method FillCarStatus(p: seq<(nat, int, nat)>)
      requires Valid() && |p| == MAX_CAR_NUM
      modifies cars
      ensures Valid() && Performed(old(View()), FillEach(Statuses(p)), View())
    {
      for i := 0 to MAX_CAR_NUM
        invariant forall k :: 0 <= k < i ==> cars[k] == Applied(old(cars[k]), Statuses(p)[k])
        invariant forall k :: i <= k < MAX_CAR_NUM ==> cars[k] == old(cars[k])
      {
        cars[i] := cars[i].(drsActivationDistance := p[i].0, vehicleFiaFlags := p[i].1,
                            snap := cars[i].snap.(ersDeployMode := p[i].2));
      }
    }

    method FillCarTelemetry(p: seq<nat>)
      requires Valid() && |p| == MAX_CAR_NUM
      modifies cars
      ensures Valid() && Performed(old(View()), FillEach(Telemetries(p)), View())
    {
      for i := 0 to MAX_CAR_NUM
        invariant forall k :: 0 <= k < i ==> cars[k] == Applied(old(cars[k]), Telemetries(p)[k])
        invariant forall k :: i <= k < MAX_CAR_NUM ==> cars[k] == old(cars[k])
      {
        cars[i] := cars[i].(drs := p[i], snap := cars[i].snap.(drs := p[i]));
      }
    }

    /** Left and right front wing of each car; the worse one counts. */
    method FillCarDamage(p: seq<(nat, nat)>)
      requires Valid() && |p| == MAX_CAR_NUM
      modifies cars
      ensures Valid() && Performed(old(View()), FillEach(Damages(p)), View())
    {
      for i := 0 to MAX_CAR_NUM
        invariant forall k :: 0 <= k < i ==> cars[k] == Applied(old(cars[k]), Damages(p)[k])
        invariant forall k :: i <= k < MAX_CAR_NUM ==> cars[k] == old(cars[k])
      {
        cars[i] := cars[i].(frontWingDamage := if p[i].0 > p[i].1 then p[i].0 else p[i].1);
      }
    }

    method FillLapHistory(c: nat, h: History)
      requires Valid() && c < MAX_CAR_NUM && h.Ok()
      modifies cars
      ensures Valid() && Performed(old(View()), FillPast(c, h), View())
    {
      var car := cars[c].(history := h, bestLapNum := h.bestLapNum);
      if h.bestLapNum != 0 {
        car := car.(bestLapTime := h.At(h.bestLapNum - 1).lapTime);
      }
      cars[c] := car;
    }

    /** The gaps of one car against its own laps, as both loops compute them. */
    method MeasureOwn(car: Car) returns (gaps: Gaps)
      requires CarOk(car) && OwnInTable(car)
      ensures gaps == OwnGaps(car)
    {
      gaps := NO_GAPS;
      if car.entry.lapNum > 1 && car.sliceIndex >= 0 {
        gaps := gaps.(bestLapJit := JitGap(car, car.entry.lapNum, car, car.bestLapNum, car.sliceIndex));
        gaps := gaps.(lastLapJit := JitGap(car, car.entry.lapNum, car, car.entry.lapNum - 1, car.sliceIndex));
      }
    }

    /** The gaps of the car of rank r of a race, read from the array as it stands. */
    method MeasureRank(r: nat) returns (gaps: Gaps)
      requires Valid() && r < rankNum && RanksOk(cars[..], rankList[..rankNum])
      ensures gaps == GapsOf(cars[..], rankList[..rankNum], r)
    {
      hide JitGap;
      ghost var ranks := rankList[..rankNum];
      assert ranks[r] == rankList[r];
      var car := cars[rankList[r]];
      assert Gaugeable(cars[..][ranks[r]], r == 0);
      gaps := MeasureOwn(car);
      if r > 0 {
        assert ranks[0] == rankList[0] && ranks[r - 1] == rankList[r - 1];
        assert Gaugeable(cars[..][ranks[r]], false);
        var leaderCar, frontCar := cars[rankList[0]], cars[rankList[r - 1]];
        var lap, slice := car.entry.lapNum, car.sliceIndex;
        if car.entry.lapNum == 1 {
          slice := if NUMSLICE / 20 < slice then slice else NUMSLICE / 20;
        } else if slice < 0 {
          lap := car.entry.lapNum - 1;
          slice := NUMSLICE - 1;
        }
        var leader := Max0(RawGap(car, leaderCar, lap, slice));
        var front := Max0(RawGap(car, frontCar, lap, slice));
        gaps := gaps.(leader := leader, front := front, leaderJit := leader, frontJit := front);
      }
    }

    /** The gaps of the car of rank r outside a race. */
    method MeasureLapRank(r: nat) returns (gaps: Gaps)
      requires Valid() && r < rankNum && LapRanksOk(cars[..], rankList[..rankNum]) && rankList[r] >= 0
      ensures gaps == LapGapsOf(cars[..], rankList[..rankNum], r)
    {
      hide JitGap;
      ghost var ranks := rankList[..rankNum];
      assert ranks[r] == rankList[r] && ranks[0] == rankList[0];
      LedByFirst(cars[..], ranks, r);
      var p, leaderCar := cars[rankList[r]], cars[rankList[0]];
      gaps := MeasureOwn(p);
      if r > 0 {
        assert ranks[r - 1] == rankList[r - 1];
        var frontCar := cars[rankList[r - 1]];
        if p.bestLapTime > 0 && leaderCar.bestLapTime > 0 {
          gaps := gaps.(leader := Seconds(p.bestLapTime - leaderCar.bestLapTime));
        }
        if p.bestLapTime > 0 && frontCar.bestLapTime > 0 {
          gaps := gaps.(front := Seconds(p.bestLapTime - frontCar.bestLapTime));
        }
        if frontCar.bestLapNum > 0 && p.sliceIndex >= 0 {
          gaps := gaps.(frontJit := JitGap(p, p.entry.lapNum, frontCar, frontCar.bestLapNum, p.sliceIndex));
        }
      }
      if leaderCar.bestLapNum > 0 && p.sliceIndex >= 0 {
        gaps := gaps.(leaderJit := JitGap(p, p.entry.lapNum, leaderCar, leaderCar.bestLapNum, p.sliceIndex));
      }
    }

    method RecalculateRaceDiff()
      requires Valid() && Measurable(true, cars[..], rankList[..rankNum])
      modifies cars
      ensures Valid() && MeasuredUpTo(true, old(cars[..]), rankList[..rankNum], rankNum, cars[..])
    {
      hide Gauge, MeasuredUpTo, Measurable;
      ghost var was, ranks := cars[..], rankList[..rankNum];
      MeasuredStart(true, was, ranks);
      for r := 0 to rankNum
        invariant Valid()
        invariant MeasuredUpTo(true, was, ranks, r, cars[..])
      {
        ghost var before := cars[..];
        assert ranks[r] == rankList[r];
        MeasuredStep(true, was, ranks, r, before);
        MeasurableRace(before, ranks, r);
        var gaps := MeasureRank(r);
        var c := rankList[r];
        cars[c] := cars[c].(gaps := gaps);
        assert cars[..] == before[c := before[c].(gaps := gaps)];
      }
    }

    method RecalculateLapDiff()
      requires Valid() && Measurable(false, cars[..], rankList[..rankNum])
      modifies cars
      ensures Valid() && MeasuredUpTo(false, old(cars[..]), rankList[..rankNum], rankNum, cars[..])
    {
      hide Gauge, MeasuredUpTo, Measurable;
      ghost var was, ranks := cars[..], rankList[..rankNum];
      MeasuredStart(false, was, ranks);
      for r := 0 to rankNum
        invariant Valid()
        invariant MeasuredUpTo(false, was, ranks, r, cars[..])
      {
        ghost var before := cars[..];
        assert ranks[r] == rankList[r];
        MeasuredStep(false, was, ranks, r, before);
        if rankList[r] >= 0 {
          MeasurableLap(before, ranks, r);
          var gaps := MeasureLapRank(r);
          var c := rankList[r];
          cars[c] := cars[c].(gaps := gaps);
          assert cars[..] == before[c := before[c].(gaps := gaps)];
        }
      }
    }

    /** The ranked cars as the scene members see them. */
    method Line() returns (ranked: seq<Car>, whose: seq<nat>)
      requires Valid()
      ensures whose == Whose(rankList[..rankNum]) && ranked == Standing(cars[..], rankList[..rankNum])
    {
      ranked, whose := [], [];
      for r := 0 to rankNum
        invariant whose == Whose(rankList[..r]) && |ranked| == |whose|
        invariant forall k :: 0 <= k < |whose| ==> whose[k] < MAX_CAR_NUM && ranked[k] == cars[whose[k]]
      {
        assert rankList[..r + 1][..r] == rankList[..r] && rankList[..rankNum][r] == rankList[r];
        if rankList[r] >= 0 {
          ranked, whose := ranked + [cars[rankList[r]]], whose + [rankList[r]];
        }
      }
    }

    /** PickForRace or PickForLap, by the kind of session. */
    method PickScenes(first: nat, second: nat, now: nat, later: nat)
      requires Valid() && (session.IsRace() ==> rankList[0] >= 0)
      modifies director, director.focus
      ensures Valid() && Shown(session, cars[..], rankList[..], rankNum, first, second, director.scenes)
      ensures director.focus.View() == Directed(session, old(director.focus.View()), director.scenes,
                                                Whose(rankList[..rankNum]), now, later)
    {
      hide RaceLists, LapLists, RaceFocus, LapFocus, ListsInRange;
      hide Measurable;
      ghost var was := director.focus.View();
      var ranked, whose := Line();
      if session.IsRace() {
        director.PickForRace(ranked, whose, cars[rankList[0]], session, first, second, now, later);
      } else {
        director.PickForLap(ranked, whose, now, later);
      }
      DirectedInArray(session, was, director.scenes, whose, now, later, MAX_CAR_NUM);
    }

    /** The snapshots of the first cars, written out and cleared. */
    method Drain(drivers: nat) returns (details: seq<seq<Snapshot>>)
      requires Valid() && drivers <= MAX_CAR_NUM
      modifies cars
      ensures Valid() && |details| == drivers
      ensures forall i :: 0 <= i < drivers ==> details[i] == old(cars[i].buffer)
      ensures forall i :: 0 <= i < MAX_CAR_NUM ==>
                cars[i] == if i < drivers then Applied(old(cars[i]), CarOp.Drain) else old(cars[i])
    {
      details := [];
      for i := 0 to drivers
        invariant |details| == i && forall k :: 0 <= k < i ==> details[k] == old(cars[k].buffer)
        invariant forall k :: 0 <= k < i ==> cars[k] == Applied(old(cars[k]), CarOp.Drain)
        invariant forall k :: i <= k < MAX_CAR_NUM ==> cars[k] == old(cars[k])
      {
        details := details + [cars[i].buffer];
        cars[i] := cars[i].(buffer := []);
      }
    }

    /** The CarDiff rows: one for each of the first cars, in time trial only for the three listed. */
    method WriteDiffs(drivers: nat, tt: bool, pbCar: nat, rivalCar: nat) returns (rows: seq<DiffRow>)
      requires Valid() && drivers <= MAX_CAR_NUM
      ensures rows == DiffRows(cars[..], drivers, tt, pbCar, rivalCar)
    {
      rows := [];
      for i := 0 to drivers
        invariant rows == DiffRows(cars[..], i, tt, pbCar, rivalCar)
      {
        if !(tt && !(i == 0 || i == pbCar || i == rivalCar)) {
          rows := rows + [DiffRow(i + 1, cars[i].entry.position, cars[i].gaps)];
        }
      }
    }

    /** The CarFocus row, if the camera is on a car. */
    method WriteFocus() returns (row: Option<FocusRow>)
      requires Valid()
      ensures row == FocusRowOf(cars[..], director.focus.View())
      ensures row == match director.focus.cur
                     case None => None
                     case Some(c) => Some(FocusRow(cars[c].carIndex + 1, cars[c].entry.position, director.focus.scene))
    {
      row := None;
      if director.focus.cur.Some? {
        var car := cars[director.focus.cur.value];
        row := Some(FocusRow(car.carIndex + 1, car.entry.position, director.focus.scene));
      }
    }

    /** `ToSQL`: measure, pick the scenes and the camera by the measured cars, write the rows, drain. */
    method ToSql(drivers: nat, tt: bool, pbCar: nat, rivalCar: nat, shot: Shot) returns (out: Output)
      requires Valid() && drivers <= MAX_CAR_NUM && (session.IsRace() ==> rankList[0] >= 0)
      requires Measurable(session.IsRace(), cars[..], rankList[..rankNum])
      modifies cars, director, director.focus
      ensures Valid() && Performed(old(View()), Deed.ToSql(drivers), View())
      ensures Filmed(old(View()), Deed.ToSql(drivers), shot, old(Stage()), Stage())
      ensures var measured := MeasuredAll(session.IsRace(), old(cars[..]), rankList[..rankNum]);
              && out.diffs == DiffRows(measured, drivers, tt, pbCar, rivalCar)
              && out.focus == FocusRowOf(measured, director.focus.View())
      ensures |out.details| == drivers && forall i :: 0 <= i < drivers ==> out.details[i] == old(cars[i].buffer)
    {
      hide Measurable, MeasuredAll, Shown, Directed, Performed, CarOk, DiffRows, FocusRowOf;
      ghost var g := View();
      MeasureCars();
      ghost var measured := cars[..];
      PickScenes(shot.first, shot.second, shot.now, shot.later);
      var diffs := WriteDiffs(drivers, tt, pbCar, rivalCar);
      var focus := WriteFocus();
      var details := Drain(drivers);
      assert View() == g.(cars := cars[..]);
      ReportPerformed(g, drivers, measured, cars[..]);
      out := Output(diffs, focus, details);
    }

    /** reCalcuteRaceDiff or reCalcuteLapDiff, by the kind of session. */
    method MeasureCars()
      requires Valid() && Measurable(session.IsRace(), cars[..], rankList[..rankNum])
      modifies cars
      ensures Valid() && cars[..] == MeasuredAll(session.IsRace(), old(cars[..]), rankList[..rankNum])
    {
      hide Measurable, MeasuredAll, Measured, MeasuredUpTo;
      ghost var was := cars[..];
      if session.IsRace() {
        RecalculateRaceDiff();
      } else {
        RecalculateLapDiff();
      }
      MeasuredWhole(session.IsRace(), was, rankList[..rankNum], cars[..]);
    }
  }

  // ----- the ranked cars -----

  /** The entries of the rank list that are not null. */
  function Whose(ranks: seq<int>): (whose: seq<nat>)
    ensures forall k :: 0 <= k < |whose| ==> whose[k] in ranks
    ensures (forall r :: 0 <= r < |ranks| ==> ranks[r] >= 0) ==> whose == ranks
  {
    if ranks == [] then []
    else
      var last := ranks[|ranks| - 1];
      assert ranks == ranks[..|ranks| - 1] + [last];
      Whose(ranks[..|ranks| - 1]) + if last >= 0 then [last] else []
  }

  predicate InArray(ranks: seq<int>, n: nat) {
    forall k :: 0 <= k < |ranks| ==> ranks[k] < n
  }

  /** The cars in rank order. */
  function Standing(cars: seq<Car>, ranks: seq<int>): (ranked: seq<Car>)
    requires InArray(ranks, |cars|)
    ensures |ranked| == |Whose(ranks)|
  {
    seq(|Whose(ranks)|, k requires 0 <= k < |Whose(ranks)| => cars[Whose(ranks)[k]])
  }

  /** The lists ToSQL leaves, given the measured cars. The leader is the first entry of the rank list
      even when it is stale. */
  ghost predicate Shown(session: Session, cars: seq<Car>, ranks: seq<int>, num: nat, first: nat, second: nat,
                        lists: Lists)
    requires num <= |ranks| && InArray(ranks, |cars|)
  {
    var ranked := Standing(cars, ranks[..num]);
    && Full(lists) && ListsInRange(lists, |ranked|)
    && if session.IsRace() then
         && ranks != [] && ranks[0] >= 0
         && RaceLists(lists, ranked, Phase(cars[ranks[0]].entry.lapNum, session.totalLaps),
                      session.safetyCarStatus == FORMATION_LAP, cars[ranks[0]].sliceIndex, first, second)
       else LapLists(lists, ranked)
  }

  /** Where the camera goes. */
  function Directed(session: Session, f: Focus, lists: Lists, whose: seq<nat>, now: nat, later: nat): Focus
    requires Full(lists) && ListsInRange(lists, |whose|)
  {
    if session.IsRace() then RaceFocus(f, lists, whose, now, later) else LapFocus(f, lists, whose, now, later)
  }

  /** All cars, measured. */
  function MeasuredAll(race: bool, was: seq<Car>, ranks: seq<int>): seq<Car>
    requires Measurable(race, was, ranks)
  {
    seq(|was|, i requires 0 <= i < |was| => Measured(race, was, ranks, |ranks|, i))
  }

  // ----- the rows -----

  datatype DiffRow = DiffRow(number: nat, position: nat, gaps: Gaps)

  datatype FocusRow = FocusRow(number: int, position: nat, scene: Scene)

  datatype Output = Output(diffs: seq<DiffRow>, focus: Option<FocusRow>, details: seq<seq<Snapshot>>)

  predicate Printed(i: nat, tt: bool, pbCar: nat, rivalCar: nat) {
    !tt || i == 0 || i == pbCar || i == rivalCar
  }

  function DiffRowOf(car: Car, number: nat): DiffRow {
    DiffRow(number, car.entry.position, car.gaps)
  }

  function DiffRows(cars: seq<Car>, n: nat, tt: bool, pbCar: nat, rivalCar: nat): seq<DiffRow>
    requires n <= |cars|
  {
    if n == 0 then []
    else
      DiffRows(cars, n - 1, tt, pbCar, rivalCar)
      + if Printed(n - 1, tt, pbCar, rivalCar) then [DiffRowOf(cars[n - 1], n)] else []
  }

  function FocusRowOf(cars: seq<Car>, f: Focus): Option<FocusRow> {
    if f.cur.Some? && f.cur.value < |cars| then
      Some(FocusRow(cars[f.cur.value].carIndex + 1, cars[f.cur.value].entry.position, f.scene))
    else None
  }

  /** The row is that of one of the first n cars, and printed. */
  predicate IsRowOf(row: DiffRow, cars: seq<Car>, n: nat, tt: bool, pbCar: nat, rivalCar: nat)
    requires n <= |cars|
  {
    && 0 < row.number <= n
    && row.position == cars[row.number - 1].entry.position && row.gaps == cars[row.number - 1].gaps
    && (tt ==> row.number == 1 || row.number - 1 == pbCar || row.number - 1 == rivalCar)
  }

  predicate InNumberOrder(rows: seq<DiffRow>) {
    forall a, b :: 0 <= a < b < |rows| ==> rows[a].number < rows[b].number
  }

  /** A car has a row exactly when it is among the first and printed, the rows come in the order of the
      cars, and each carries its car's position and gaps. */
  lemma {:induction false} DiffRowsExactly(cars: seq<Car>, n: nat, tt: bool, pbCar: nat, rivalCar: nat)
    requires n <= |cars|
    ensures forall row :: row in DiffRows(cars, n, tt, pbCar, rivalCar) <==> IsRowOf(row, cars, n, tt, pbCar, rivalCar)
    ensures InNumberOrder(DiffRows(cars, n, tt, pbCar, rivalCar))
  {
    hide DiffRowOf;
    if n > 0 {
      DiffRowsExactly(cars, n - 1, tt, pbCar, rivalCar);
      var rows := DiffRows(cars, n - 1, tt, pbCar, rivalCar);
      RowNumber(cars[n - 1], n);
      assert InNumberOrder(rows);
      forall a | 0 <= a < |rows| ensures rows[a].number < n { assert rows[a] in rows; }
      forall row | IsRowOf(row, cars, n, tt, pbCar, rivalCar)
        ensures row in DiffRows(cars, n, tt, pbCar, rivalCar)
      {
        if row.number < n { assert IsRowOf(row, cars, n - 1, tt, pbCar, rivalCar); }
      }
    }
  }

  lemma RowNumber(car: Car, n: nat)
    ensures forall row :: row == DiffRowOf(car, n) <==>
              row.number == n && row.position == car.entry.position && row.gaps == car.gaps
  {
  }

  // ----- the scenes on values -----

  /** The lists and the camera of the director. */
  datatype Scenery = Scenery(lists: Lists, focus: Focus)

  function NewScenery(): Scenery {
    Scenery(NoLists(), NO_FOCUS)
  }

  /** What a call of ToSQL draws and reads from the clock. */
  datatype Shot = Shot(first: nat, second: nat, now: nat, later: nat)

  /** What a deed does to scenes and camera. */
  ghost predicate Filmed(g: Garage, d: Deed, shot: Shot, s: Scenery, s': Scenery)
    requires g.Ok() && DeedOk(g, d)
  {
    match d
    case Init => s' == NewScenery()
    case ToSql(_) =>
      && Shown(g.session, MeasuredAll(g.session.IsRace(), g.cars, g.ranks[..g.rankNum]), g.ranks, g.rankNum,
               shot.first, shot.second, s'.lists)
      && s'.focus == Directed(g.session, s.focus, s'.lists, Whose(g.ranks[..g.rankNum]), shot.now, shot.later)
    case _ => s' == s
  }

  /** The camera stays on cars of the array. */
  lemma DirectedInArray(session: Session, f: Focus, lists: Lists, whose: seq<nat>, now: nat, later: nat, n: nat)
    requires Full(lists) && ListsInRange(lists, |whose|) && forall k :: 0 <= k < |whose| ==> whose[k] < n
    requires f.cur.Some? ==> f.cur.value < n
    ensures var f' := Directed(session, f, lists, whose, now, later); f'.cur.Some? ==> f'.cur.value < n
  {
  }

  // ----- calls on values -----

  datatype Garage = Garage(cars: seq<Car>, session: Session, rankNum: nat, ranks: seq<int>, flash: bool)
  {
    predicate Ok() {
      && |cars| == |ranks| == MAX_CAR_NUM && rankNum <= MAX_CAR_NUM
      && (forall i :: 0 <= i < MAX_CAR_NUM ==> CarOk(cars[i]))
      && (forall r :: 0 <= r < MAX_CAR_NUM ==> -1 <= ranks[r] < MAX_CAR_NUM)
    }
  }

  function NewGarage(): Garage {
    Garage(seq(MAX_CAR_NUM, _ => NoCar()), Session(0, 0, 0, 0), 0, seq(MAX_CAR_NUM, _ => -1), false)
  }

  /** A call on the car state. `FillEach` has one operation for each car, `FillPast` a history for one. */
  datatype Deed =
    | Init
    | SetSession(s: Session)
    | FlashBack
    | FillLap(p: LapPacket)
    | FillEach(ops: seq<CarOp>)
    | FillPast(c: nat, h: History)
    | ToSql(drivers: nat)              // measures the ranked cars, drains the first cars

  function Motions(p: seq<(real, real, real)>): seq<CarOp> {
    seq(|p|, i requires 0 <= i < |p| => Position(p[i].0, p[i].1, p[i].2))
  }

  function Statuses(p: seq<(nat, int, nat)>): seq<CarOp> {
    seq(|p|, i requires 0 <= i < |p| => Status(p[i].0, p[i].1, p[i].2))
  }

  function Telemetries(p: seq<nat>): seq<CarOp> {
    seq(|p|, i requires 0 <= i < |p| => Telemetry(p[i]))
  }

  function Damages(p: seq<(nat, nat)>): seq<CarOp> {
    seq(|p|, i requires 0 <= i < |p| => Damage(if p[i].0 > p[i].1 then p[i].0 else p[i].1))
  }

  /** What the caller of a deed takes for granted. */
  ghost predicate DeedOk(g: Garage, d: Deed)
    requires g.Ok()
  {
    match d
    case FillLap(p) => PacketOk(g.session, p)
    case FillEach(ops) => |ops| == MAX_CAR_NUM && forall i :: 0 <= i < MAX_CAR_NUM ==> OpOk(ops[i]) && !ops[i].Fill?
    case FillPast(c, h) => c < MAX_CAR_NUM && h.Ok()
    case ToSql(drivers) =>
      drivers <= MAX_CAR_NUM && Measurable(g.session.IsRace(), g.cars, g.ranks[..g.rankNum])
    case _ => true
  }

  /** Car i after ToSQL: measured if ranked, drained if among the first. */
  ghost predicate Reported(g: Garage, drivers: nat, i: nat, car: Car)
    requires g.Ok() && DeedOk(g, ToSql(drivers)) && i < MAX_CAR_NUM
  {
    var m := Measured(g.session.IsRace(), g.cars, g.ranks[..g.rankNum], g.rankNum, i);
    car == if i < drivers then Applied(m, Drain) else m
  }

  /** The deed takes the car state from g to g'. */
  ghost predicate Performed(g: Garage, d: Deed, g': Garage) {
    && g.Ok() && DeedOk(g, d) && g'.Ok()
    && match d
       case Init =>
         && g' == g.(cars := g'.cars, rankNum := 0, flash := false)
         && forall i :: 0 <= i < MAX_CAR_NUM ==> g'.cars[i] == Emptied(g.cars[i])
       case SetSession(s) => g' == g.(session := s)
       case FlashBack => g' == g.(flash := true)
       case FillLap(p) =>
         && g'.session == g.session && g'.rankNum == CountOf(g.session, p, MAX_CAR_NUM)
         && g'.flash == (g.flash && g'.rankNum == 0)
         && CarsUpTo(g.session, p, g.flash, g.cars, MAX_CAR_NUM, g'.cars)
         && RanksUpTo(g.session, p, g.ranks, MAX_CAR_NUM, g'.ranks)
       case FillEach(ops) =>
         && g' == g.(cars := g'.cars)
         && forall i :: 0 <= i < MAX_CAR_NUM ==> g'.cars[i] == Applied(g.cars[i], ops[i])
       case FillPast(c, h) => g' == g.(cars := g.cars[c := Applied(g.cars[c], Past(h))])
       case ToSql(drivers) =>
         && g' == g.(cars := g'.cars)
         && forall i :: 0 <= i < MAX_CAR_NUM ==> Reported(g, drivers, i, g'.cars[i])
  }

  /** Car i after a lap packet. */
  function AfterPacket(session: Session, p: LapPacket, i: nat, flash: bool, was: Car): Car
    requires |p.entries| == MAX_CAR_NUM && i < MAX_CAR_NUM && LapsOk(was.laps)
    requires Considered(session, p, i) ==> OpOk(LapOp(session, p, i, flash))
  {
    if Considered(session, p, i) then Applied(was, LapOp(session, p, i, flash)) else was
  }

  ghost predicate AllCarsOk(cars: seq<Car>) {
    |cars| == MAX_CAR_NUM && forall k :: 0 <= k < MAX_CAR_NUM ==> CarOk(cars[k])
  }

  /** What FillLapData has made of the cars once the first i were looked at. */
  ghost predicate CarsUpTo(session: Session, p: LapPacket, flash: bool, was: seq<Car>, i: nat, cars: seq<Car>)
    requires PacketOk(session, p) && AllCarsOk(was) && i <= MAX_CAR_NUM
  {
    && |cars| == MAX_CAR_NUM
    && (forall k :: 0 <= k < i ==> PacketLeaves(session, p, k, flash, was[k], cars[k]))
    && (forall k :: i <= k < MAX_CAR_NUM ==> cars[k] == was[k])
  }

  ghost predicate PacketLeaves(session: Session, p: LapPacket, k: nat, flash: bool, was: Car, car: Car)
    requires PacketOk(session, p) && k < MAX_CAR_NUM && LapsOk(was.laps)
  {
    && (Considered(session, p, k) ==> OpOk(LapOp(session, p, k, flash)))
    && car == AfterPacket(session, p, k, flash, was)
  }

  /** What it has made of the rank list. */
  ghost predicate RanksUpTo(session: Session, p: LapPacket, ranks: seq<int>, i: nat, list: seq<int>)
    requires PacketOk(session, p) && i <= MAX_CAR_NUM
  {
    && |list| == |ranks| == MAX_CAR_NUM
    && forall r :: 0 <= r < MAX_CAR_NUM ==>
         list[r] == if Claimant(session, p, i, r) >= 0 then Claimant(session, p, i, r) else ranks[r]
  }

  /** What one pass of the loop does to the cars, the rank list, the count and the flag. */
  ghost predicate PassedOver(p: LapPacket, i: nat, g: Garage, g': Garage)
    requires g.Ok() && PacketOk(g.session, p) && i < MAX_CAR_NUM
  {
    && g'.Ok()
    && if Considered(g.session, p, i) then
         var op := Fill(i, ReportOf(g.session, p, i, g.flash));
         && OpOk(op)
         && g' == Garage(g.cars[i := Applied(g.cars[i], op)], g.session, g.rankNum + 1,
                         g.ranks[p.entries[i].position - 1 := i], false)
       else g' == g
  }

  /** What FillLapData has made of everything once the first i cars were looked at. */
  ghost predicate FilledUpTo(g: Garage, p: LapPacket, i: nat, g': Garage)
    requires g.Ok() && PacketOk(g.session, p) && i <= MAX_CAR_NUM
  {
    && g'.session == g.session && g'.rankNum == CountOf(g.session, p, i) && g'.flash == (g.flash && g'.rankNum == 0)
    && CarsUpTo(g.session, p, g.flash, g.cars, i, g'.cars) && RanksUpTo(g.session, p, g.ranks, i, g'.ranks)
  }

  lemma UpToStart(g: Garage, p: LapPacket)
    requires g.Ok() && PacketOk(g.session, p)
    ensures FilledUpTo(g, p, 0, g.(rankNum := 0))
  {
    hide Applied;
  }

  lemma UpToStep(g: Garage, p: LapPacket, i: nat, g1: Garage, g2: Garage)
    requires g.Ok() && PacketOk(g.session, p) && i < MAX_CAR_NUM
    requires g1.Ok() && FilledUpTo(g, p, i, g1) && g1.session == g.session && PassedOver(p, i, g1, g2)
    ensures FilledUpTo(g, p, i + 1, g2) && g2.session == g.session && g2.Ok()
  {
    hide Applied, CarsUpTo, RanksUpTo;
    CarsStep(g.session, p, g.flash, g.cars, i, g1.cars, g1.flash, g2.cars);
    RanksStep(g.session, p, g.ranks, i, g1.ranks, g2.ranks);
  }

  lemma CarsStep(session: Session, p: LapPacket, flash: bool, was: seq<Car>, i: nat,
                 cars: seq<Car>, flag: bool, cars': seq<Car>)
    requires PacketOk(session, p) && AllCarsOk(was) && AllCarsOk(cars) && i < MAX_CAR_NUM
    requires CarsUpTo(session, p, flash, was, i, cars) && flag == (flash && CountOf(session, p, i) == 0)
    requires Considered(session, p, i) ==> ReportOf(session, p, i, flag).Ok()
    requires cars' == if Considered(session, p, i)
                      then cars[i := Applied(cars[i], Fill(i, ReportOf(session, p, i, flag)))] else cars
    ensures CarsUpTo(session, p, flash, was, i + 1, cars')
  {
    hide Applied;
    assert PacketLeaves(session, p, i, flash, was[i], cars'[i]);
    assert forall k :: 0 <= k < MAX_CAR_NUM && k != i ==> cars'[k] == cars[k];
  }

  lemma RanksStep(session: Session, p: LapPacket, ranks: seq<int>, i: nat, list: seq<int>, list': seq<int>)
    requires PacketOk(session, p) && i < MAX_CAR_NUM && RanksUpTo(session, p, ranks, i, list)
    requires list' == if Considered(session, p, i) then list[p.entries[i].position - 1 := i] else list
    ensures RanksUpTo(session, p, ranks, i + 1, list')
  {
  }

  /** Car i once the first n ranks were measured. */
  function Measured(race: bool, was: seq<Car>, ranks: seq<int>, n: nat, i: nat): Car
    requires Measurable(race, was, ranks) && n <= |ranks| && i < |was|
  {
    var r := RankOf(ranks, n, i);
    if r >= 0 then Applied(was[i], Measure(Gauge(race, was, ranks, r))) else was[i]
  }

  /** What measuring the first n ranks has made of the cars. */
  ghost predicate MeasuredUpTo(race: bool, was: seq<Car>, ranks: seq<int>, n: nat, cars: seq<Car>)
    requires Measurable(race, was, ranks) && n <= |ranks|
  {
    |cars| == |was| && forall i :: 0 <= i < |was| ==> cars[i] == Measured(race, was, ranks, n, i)
  }

  lemma MeasuredWhole(race: bool, was: seq<Car>, ranks: seq<int>, cars: seq<Car>)
    requires Measurable(race, was, ranks) && MeasuredUpTo(race, was, ranks, |ranks|, cars)
    ensures cars == MeasuredAll(race, was, ranks) && Measurable(race, cars, ranks)
    ensures forall i :: 0 <= i < |was| ==> cars[i].buffer == was[i].buffer
  {
    hide Gauge;
    assert forall i :: 0 <= i < |was| ==> SameButGaps(was[i], cars[i]);
    SameMeasurable(race, was, cars, ranks);
  }

  lemma FillPerformed(g: Garage, p: LapPacket, g': Garage)
    requires g.Ok() && PacketOk(g.session, p) && g'.Ok() && g'.session == g.session
    requires FilledUpTo(g, p, MAX_CAR_NUM, g')
    ensures Performed(g, FillLap(p), g')
  {
    hide CarsUpTo, RanksUpTo, PacketOk, CountOf;
  }

  lemma ReportPerformed(g: Garage, drivers: nat, measured: seq<Car>, cars: seq<Car>)
    requires g.Ok() && DeedOk(g, Deed.ToSql(drivers)) && |cars| == MAX_CAR_NUM
    requires measured == MeasuredAll(g.session.IsRace(), g.cars, g.ranks[..g.rankNum])
    requires forall i :: 0 <= i < MAX_CAR_NUM ==>
               CarOk(cars[i]) && cars[i] == if i < drivers then Applied(measured[i], CarOp.Drain) else measured[i]
    ensures Performed(g, Deed.ToSql(drivers), g.(cars := cars))
    ensures forall i :: 0 <= i < MAX_CAR_NUM ==> measured[i].buffer == g.cars[i].buffer
  {
    hide Measurable, Gauge;
    var race, ranks := g.session.IsRace(), g.ranks[..g.rankNum];
    forall i | 0 <= i < MAX_CAR_NUM
      ensures measured[i] == Measured(race, g.cars, ranks, g.rankNum, i) && measured[i].buffer == g.cars[i].buffer
    {
    }
  }

  lemma MeasuredStart(race: bool, was: seq<Car>, ranks: seq<int>)
    requires Measurable(race, was, ranks)
    ensures MeasuredUpTo(race, was, ranks, 0, was)
  {
  }

  lemma MeasuredStep(race: bool, was: seq<Car>, ranks: seq<int>, r: nat, cars: seq<Car>)
    requires Measurable(race, was, ranks) && r < |ranks| && MeasuredUpTo(race, was, ranks, r, cars)
    ensures |cars| == |was| && Measurable(race, cars, ranks) && -1 <= ranks[r] < |cars|
    ensures ranks[r] < 0 ==> MeasuredUpTo(race, was, ranks, r + 1, cars)
    ensures ranks[r] >= 0 ==>
              MeasuredUpTo(race, was, ranks, r + 1,
                           cars[ranks[r] := cars[ranks[r]].(gaps := Gauge(race, cars, ranks, r))])
  {
    hide Gauge;
    assert forall i :: 0 <= i < |was| ==> cars[i] == was[i].(gaps := cars[i].gaps);
    OnlyGapsDiffer(race, was, cars, ranks, r);
  }

  lemma MeasurableRace(cars: seq<Car>, ranks: seq<int>, r: nat)
    requires Measurable(true, cars, ranks) && r < |ranks|
    ensures RanksOk(cars, ranks) && 0 <= ranks[r] < |cars| && Gauge(true, cars, ranks, r) == GapsOf(cars, ranks, r)
    ensures CarOk(cars[ranks[r]])
  {
  }

  lemma MeasurableLap(cars: seq<Car>, ranks: seq<int>, r: nat)
    requires Measurable(false, cars, ranks) && r < |ranks| && ranks[r] >= 0
    ensures LapRanksOk(cars, ranks) && ranks[r] < |cars| && Gauge(false, cars, ranks, r) == LapGapsOf(cars, ranks, r)
    ensures CarOk(cars[ranks[r]])
  {
  }

  /** Two cars that differ in nothing but their gaps. */
  predicate SameButGaps(a: Car, b: Car) {
    b == a.(gaps := b.gaps)
  }

  lemma SameGaps(a: Car, b: Car, c: Car, d: Car)
    requires SameButGaps(a, b) && SameButGaps(c, d) && CarOk(a) && CarOk(c)
    ensures CarOk(b) && CarOk(d) && CompareAt(b) == CompareAt(a) && BestGap(b, d) == BestGap(a, c)
    ensures OwnInTable(b) <==> OwnInTable(a)
    ensures RunsInTable(b, d) <==> RunsInTable(a, c)
    ensures OwnInTable(a) ==> OwnGaps(b) == OwnGaps(a)
    ensures RunsInTable(a, c) ==> RunningGap(b, d) == RunningGap(a, c)
    ensures forall lap: nat, slice: nat :: lap < LAPS && slice < NUMSLICE ==>
              RawGap(b, d, lap, slice) == RawGap(a, c, lap, slice)
  {
  }

  lemma SameMeasurable(race: bool, was: seq<Car>, cars: seq<Car>, ranks: seq<int>)
    requires Measurable(race, was, ranks) && |cars| == |was|
    requires forall i :: 0 <= i < |was| ==> SameButGaps(was[i], cars[i])
    ensures Measurable(race, cars, ranks)
  {
    hide CarOk, OwnInTable, RunsInTable, Comparable;
    forall i, j | 0 <= i < |was| && 0 <= j < |was|
      ensures CarOk(cars[i]) && (OwnInTable(cars[i]) <==> OwnInTable(was[i]))
      ensures Comparable(cars[i]) <==> Comparable(was[i])
      ensures RunsInTable(cars[i], cars[j]) <==> RunsInTable(was[i], was[j])
    {
      SameGaps(was[i], cars[i], was[j], cars[j]);
      SameLap(was[i], cars[i]);
    }
  }

  lemma SameLap(a: Car, b: Car)
    requires SameButGaps(a, b)
    ensures Comparable(b) <==> Comparable(a)
  {
  }

  /** Measuring reads no gaps, so the order of measuring does not matter. */
  lemma OnlyGapsDiffer(race: bool, was: seq<Car>, cars: seq<Car>, ranks: seq<int>, r: nat)
    requires Measurable(race, was, ranks) && |cars| == |was| && r < |ranks|
    requires forall i :: 0 <= i < |was| ==> SameButGaps(was[i], cars[i])
    ensures Measurable(race, cars, ranks)
    ensures ranks[r] >= 0 ==> Gauge(race, cars, ranks, r) == Gauge(race, was, ranks, r)
  {
    SameMeasurable(race, was, cars, ranks);
    hide OwnGaps, RunningGap, BestGap, RawGap, OwnInTable, RunsInTable, Comparable, CarOk, SameButGaps, CompareAt;
    if ranks[r] >= 0 {
      if !race { LedByFirst(was, ranks, r); }
      var c, l := ranks[r], ranks[0];
      SameGaps(was[c], cars[c], was[l], cars[l]);
      if race { assert Gaugeable(was[c], r == 0); }
      if r > 0 { SameGaps(was[c], cars[c], was[ranks[r - 1]], cars[ranks[r - 1]]); }
      if race && r > 0 { CompareInside(was[c]); }
    }
  }

  lemma CompareInside(car: Car)
    requires CarOk(car) && Comparable(car)
    ensures var (lap, slice) := CompareAt(car); 0 <= lap < LAPS && 0 <= slice < NUMSLICE
  {
  }
}
