/** The per-car state of `AllCarInfo` and what one packet does to it. */
module Cars {
  const NUMSLICE := 200
  const MAX_CAR_NUM := 22
  const LAP_PREC := 5
  const LAPS := 100

  // enum values
  const FLYING_LAP := 1        // DriversStatus
  const HOTLAP := 2            // ErsDeployMode
  const FORMATION_LAP := 3     // SafetyCarStatus
  const RACE_1 := 10           // SessionType R, R2, R3
  const RACE_3 := 12
  const TIME_TRIAL := 13

  datatype Session = Session(sessionType: nat, trackLength: nat, totalLaps: nat, safetyCarStatus: nat)
  {
    predicate IsRace() { RACE_1 <= sessionType <= RACE_3 }

    predicate IsTT() { sessionType == TIME_TRIAL }
  }

  datatype Slice = Slice(lapTime: nat, sessionTime: real)

  const NO_SLICE := Slice(0, 0.0)

  datatype Lap = Lap(lapNum: nat, carPosition: nat, totalTime: nat, slice: seq<Slice>)

  /** SingleLapDetail::init */
  function NoLap(): Lap {
    Lap(0, 0, 0, seq(NUMSLICE, _ => NO_SLICE))
  }

  datatype Snapshot = Snapshot(lapNum: nat, lapTime: nat, lapDistance: int, ersDeployMode: nat, drs: nat,
                               x: real, y: real, z: real)

  datatype Gaps = Gaps(leader: real, front: real, leaderJit: real, frontJit: real, lastLapJit: real, bestLapJit: real)

  const NO_GAPS := Gaps(0.0, 0.0, 0.0, 0.0, 0.0, 0.0)

  /** One lap of the session history, and the history of a car. `outside` is what a read outside the
      table of laps yields. */
  datatype PastLap = PastLap(sector1: nat, sector2: nat, lapTime: nat)

  const HISTORY_LAPS := 100

  datatype History = History(numLaps: nat, bestLapNum: nat, laps: seq<PastLap>, outside: PastLap)
  {
    function At(k: int): PastLap {
      if 0 <= k < |laps| then laps[k] else outside
    }

    predicate Ok() {
      |laps| == HISTORY_LAPS
    }
  }

  function NoHistory(): History {
    History(0, 0, seq(HISTORY_LAPS, _ => PastLap(0, 0, 0)), PastLap(0, 0, 0))
  }

  /** One car of the packet's LapData array. */
  datatype Entry = Entry(position: nat, lapNum: nat, lapTime: nat, lastLapTime: nat, distance: real, invalid: nat,
                         pitStatus: nat, resultStatus: nat, driverStatus: nat, pitTimerActive: nat, pitLaneTime: nat)

  const NO_ENTRY := Entry(0, 0, 0, 0, 0.0, 0, 0, 0, 0, 0, 0)

  /** `entry` is what the last lap packet said of the car; the source copies its fields one by one. */
  datatype Car = Car(
    carIndex: int, entry: Entry, sliceIndex: int,
    drsActivationDistance: nat, vehicleFiaFlags: int, drs: nat, frontWingDamage: nat,
    bestLapNum: nat, bestLapTime: nat, history: History,
    laps: seq<Lap>, gaps: Gaps, snap: Snapshot, buffer: seq<Snapshot>)

  /** A car as constructed. */
  function NoCar(): Car {
    Car(-1, NO_ENTRY, -1, 0, 0, 0, 0, 0, 0, NoHistory(), seq(LAPS, _ => NoLap()), NO_GAPS,
        Snapshot(0, 0, 0, 0, 0, 0.0, 0.0, 0.0), [])
  }

  /** carInfo::init, which leaves the session history as it is. */
  function Emptied(car: Car): Car {
    NoCar().(history := car.history)
  }

  predicate LapsOk(laps: seq<Lap>) {
    |laps| == LAPS && forall l :: 0 <= l < LAPS ==> |laps[l].slice| == NUMSLICE
  }

  /** What every car keeps: its lap and slice are within its tables. */
  predicate CarOk(car: Car) {
    LapsOk(car.laps) && car.entry.lapNum < LAPS && car.sliceIndex < NUMSLICE
  }

  // ----- arithmetic -----

  /** Conversion of a floating value to int: towards zero. */
  function Trunc(r: real): int {
    if r >= 0.0 then r.Floor else -((-r).Floor)
  }

  /** The lap distance on the LAP_PREC grid, negative distances wrapped by the track length. */
  function Quantised(distance: real, trackLength: nat): int {
    Trunc((if distance >= 0.0 then distance else distance + trackLength as real) / LAP_PREC as real) * LAP_PREC
  }

  function SliceOf(distance: real, trackLength: nat): int
    requires trackLength > 0
  {
    Trunc(distance / trackLength as real * NUMSLICE as real) - 1
  }

  // ----- one lap report of one car -----

  /** What FillLapData hands to one car; `flash` is the flashback flag as that car finds it. */
  datatype Report = Report(entry: Entry, sessionTime: real, trackLength: nat, race: bool, formation: bool, flash: bool)
  {
    function Cell(): int
      requires trackLength > 0
    {
      SliceOf(entry.distance, trackLength)
    }

    function Quantum(): int {
      Quantised(entry.distance, trackLength)
    }

    /** The array bounds the source relies on. */
    predicate Ok() {
      entry.lapNum < LAPS && trackLength > 0 && Cell() < NUMSLICE
    }

    /** Whether the report clears its lap's split table. */
    predicate Clears()
      requires trackLength > 0
    {
      entry.driverStatus == FLYING_LAP && Cell() < 0
    }
  }

  predicate Known(s: Snapshot) {
    s.x != 0.0 && s.y != 0.0 && s.z != 0.0
  }

  /** Whether a new quantum is pushed, and not only remembered. `status` is the driver status the
      car had before this report. */
  predicate Pushes(status: nat, s: Snapshot, r: Report) {
    if r.race then !r.formation
    else s.lapTime > 0 && r.entry.distance > 0.0 && (status == FLYING_LAP || s.ersDeployMode == HOTLAP)
  }

  function Snapped(car: Car, r: Report): Car {
    var s := car.snap.(lapNum := r.entry.lapNum, lapTime := r.entry.lapTime);
    var q := r.Quantum();
    if q != s.lapDistance && !r.flash && Known(s) then
      var s' := s.(lapDistance := q);
      car.(snap := s', buffer := if Pushes(car.entry.driverStatus, s', r) then car.buffer + [s'] else car.buffer)
    else car.(snap := s)
  }

  /** The split tables after a report; `was` is the lap the car was on before. */
  function Recorded(laps: seq<Lap>, was: nat, r: Report): (laps': seq<Lap>)
    requires LapsOk(laps) && r.Ok()
    ensures LapsOk(laps')
  {
    var l, s := r.entry.lapNum, r.Cell();
    var laps1 := laps[l := if r.Clears() then NoLap()
                           else laps[l].(lapNum := l, carPosition := r.entry.position, totalTime := r.entry.lapTime)];
    var laps2 := if was != l && l > 1 then
                   laps1[l - 1 := laps1[l - 1].(totalTime := r.entry.lastLapTime,
                     slice := laps1[l - 1].slice[NUMSLICE - 1 := Slice(r.entry.lastLapTime, r.sessionTime)])]
                 else laps1;
    if s >= 0 && laps2[l].slice[s].lapTime == 0 then
      laps2[l := laps2[l].(slice := laps2[l].slice[s := Slice(r.entry.lapTime, r.sessionTime)])]
    else laps2
  }

  function Filled(car: Car, i: nat, r: Report): (car': Car)
    requires LapsOk(car.laps) && r.Ok()
    ensures LapsOk(car'.laps) && (CarOk(car) ==> CarOk(car'))
  {
    Snapped(car, r).(carIndex := i, entry := r.entry, sliceIndex := r.Cell(),
                     laps := Recorded(car.laps, car.entry.lapNum, r))
  }

  // ----- anything that happens to a car -----

  datatype CarOp =
    | Fill(i: nat, r: Report)
    | Position(x: real, y: real, z: real)
    | Status(drsActivationDistance: nat, vehicleFiaFlags: int, ersDeployMode: nat)
    | Telemetry(drs: nat)
    | Damage(frontWing: nat)
    | Past(h: History)
    | Inherit(h: History)        // what init left of the car's past
    | Measure(gaps: Gaps)
    | Drain                      // ToSQL writes the buffer out and clears it

  predicate OpOk(op: CarOp) {
    && (op.Fill? ==> op.r.Ok())
    && (op.Past? || op.Inherit? ==> op.h.Ok())
  }

  function Applied(car: Car, op: CarOp): (car': Car)
    requires LapsOk(car.laps) && OpOk(op)
    ensures LapsOk(car'.laps) && (CarOk(car) ==> CarOk(car'))
  {
    match op
    case Fill(i, r) => Filled(car, i, r)
    case Position(x, y, z) => car.(snap := car.snap.(x := x, y := y, z := z))
    case Status(d, f, e) =>
      car.(drsActivationDistance := d, vehicleFiaFlags := f, snap := car.snap.(ersDeployMode := e))
    case Telemetry(d) => car.(drs := d, snap := car.snap.(drs := d))
    case Damage(w) => car.(frontWingDamage := w)
    case Past(h) =>
      car.(history := h, bestLapNum := h.bestLapNum,
           bestLapTime := if h.bestLapNum != 0 then h.At(h.bestLapNum - 1).lapTime else car.bestLapTime)
    case Inherit(h) => car.(history := h)
    case Measure(g) => car.(gaps := g)
    case Drain => car.(buffer := [])
  }
}
