/** Slices, splits, gaps and snapshots in terms of what the packets say: distances, laps and times. */
module Distances {
  import opened Options
  import opened Cars
  import opened AllCarInfos
  import opened CarRuns

  // ----- slices and quanta -----

  lemma Scaled(a: real, b: real, t: real)
    requires t > 0.0
    ensures a <= b <==> a * t <= b * t
    ensures a < b <==> a * t < b * t
  {
  }

  lemma SliceTimesTrack(distance: real, t: real)
    requires t > 0.0
    ensures (distance / t * 200.0) * t == 200.0 * distance
  {
    var q := distance / t;
    assert q * t == distance;
    assert (q * 200.0) * t == 200.0 * (q * t);
  }

  /** A lap is cut into 200 slices of equal length: slice s begins at the fraction (s + 1) / 200 of the
      track and ends at (s + 2) / 200, and what lies before the first cut is slice -1. Distances below
      0 count downwards from -1 in the same steps. */
  lemma SliceExactly(distance: real, trackLength: nat, s: int)
    requires trackLength > 0
    ensures distance >= 0.0 ==>
              (SliceOf(distance, trackLength) == s <==>
                (s + 1) as real * trackLength as real <= 200.0 * distance < (s + 2) as real * trackLength as real)
    ensures distance < 0.0 ==>
              (SliceOf(distance, trackLength) == s <==>
                s <= -1
                && (-s - 1) as real * trackLength as real <= -200.0 * distance < (-s) as real * trackLength as real)
  {
    var t := trackLength as real;
    var x := distance / t * 200.0;
    SliceTimesTrack(distance, t);
    SignOf(distance, t);
    if distance >= 0.0 {
      FloorScaled(x, t, 200.0 * distance, s + 1);
    } else {
      assert -x * t == -200.0 * distance;
      FloorScaled(-x, t, -200.0 * distance, -s - 1);
    }
  }

  lemma Between(lo: real, x: real, hi: real, t: real, y: real, loT: real, hiT: real)
    requires t > 0.0 && x * t == y && lo * t == loT && hi * t == hiT
    ensures lo <= x < hi <==> loT <= y < hiT
  {
    Scaled(lo, x, t);
    Scaled(x, hi, t);
  }

  lemma FloorScaled(x: real, t: real, y: real, k: int)
    requires t > 0.0 && x * t == y
    ensures x.Floor == k <==> k as real * t <= y < (k + 1) as real * t
  {
    var lo, hi := k as real, (k + 1) as real;
    Between(lo, x, hi, t, y, lo * t, hi * t);
    FloorIs(x, k);
  }

  lemma FloorIs(x: real, k: int)
    ensures x.Floor == k <==> k as real <= x < (k + 1) as real
  {
  }

  lemma SignOf(distance: real, t: real)
    requires t > 0.0
    ensures distance >= 0.0 <==> distance / t * 200.0 >= 0.0
  {
    var q := distance / t;
    assert q * t == distance;
    if q < 0.0 { Scaled(q, 0.0, t); } else { Scaled(0.0, q, t); }
  }

  /** The remembered distance is the multiple of 5 at or before the lap distance; a negative distance
      is first moved up by the length of the track, and if it stays negative the multiple is the one
      at or after it. */
  lemma QuantumExactly(distance: real, trackLength: nat)
    ensures var q := Quantised(distance, trackLength);
            var d := if distance >= 0.0 then distance else distance + trackLength as real;
            && q % 5 == 0
            && (d >= 0.0 ==> q as real <= d < (q + 5) as real)
            && (d < 0.0 ==> (q - 5) as real < d <= q as real)
  {
    var d := if distance >= 0.0 then distance else distance + trackLength as real;
    var x := d / 5.0;
    assert x * 5.0 == d;
  }

  // ----- the first crossing of a slice -----

  /** The report shows the car in slice s of lap l. */
  predicate Shows(r: Report, l: nat, s: nat) {
    && r.entry.lapNum == l
    && (s + 1) as real * r.trackLength as real <= 200.0 * r.entry.distance < (s + 2) as real * r.trackLength as real
  }

  /** The report starts lap l anew: a flying lap (1) before the first cut. */
  predicate Restarts(r: Report, l: nat) {
    r.entry.lapNum == l && r.entry.driverStatus == 1 && 200.0 * r.entry.distance < r.trackLength as real
  }

  lemma ReportShows(r: Report, l: nat, s: nat)
    requires r.Ok()
    ensures Shows(r, l, s) <==> Hits(r, l, s)
    ensures Restarts(r, l) <==> Clears(r, l)
  {
    CellAt(r.entry.distance, r.trackLength, s);
    CellBelow(r.entry.distance, r.trackLength);
    hide SliceOf;
  }

  lemma CellAt(d: real, t: nat, s: nat)
    requires t > 0
    ensures SliceOf(d, t) == s <==> (s + 1) as real * t as real <= 200.0 * d < (s + 2) as real * t as real
  {
    SliceExactly(d, t, s);
    hide SliceOf;
    if d < 0.0 { PositiveProduct((s + 1) as real, t as real); }
  }

  lemma PositiveProduct(a: real, b: real)
    requires a > 0.0 && b > 0.0
    ensures a * b > 0.0
  {
  }

  lemma CellBelow(d: real, t: nat)
    requires t > 0
    ensures SliceOf(d, t) < 0 <==> 200.0 * d < t as real
  {
    var x := d / t as real * 200.0;
    SliceTimesTrack(d, t as real);
    SignOf(d, t as real);
    FloorScaled(x, t as real, 200.0 * d, 0);
    Scaled(x, 1.0, t as real);
  }

  /** Report m is the first with a lap time to show slice s of lap l since the lap was last started
      anew, by report k0 - 1 (k0 = 0 if it never was). */
  ghost predicate FirstToShow(reps: seq<Report>, l: nat, s: nat, k0: nat, m: nat) {
    && k0 <= m < |reps|
    && (k0 > 0 ==> Restarts(reps[k0 - 1], l)) && (forall j :: k0 <= j < |reps| ==> !Restarts(reps[j], l))
    && Shows(reps[m], l, s) && reps[m].entry.lapTime != 0
    && (forall j :: k0 <= j < m && Shows(reps[j], l, s) ==> reps[j].entry.lapTime == 0)
  }

  lemma FirstIs(reps: seq<Report>, l: nat, s: nat, k0: nat, m: nat)
    requires AllOk(reps) && FirstToShow(reps, l, s, k0, m)
    ensures Cleared(reps, l) == k0 && FirstCrossing(reps, k0, l, s) == Some(m)
  {
    forall j | 0 <= j < |reps|
      ensures (Shows(reps[j], l, s) <==> Hits(reps[j], l, s)) && (Restarts(reps[j], l) <==> Clears(reps[j], l))
    {
      ReportShows(reps[j], l, s);
    }
    hide Shows, Restarts, Hits, Clears;
  }

  /** The split on record for a slice below the last is that of the first report to show the car there. */
  lemma SplitIsFirstShown(reps: seq<Report>, l: nat, s: nat, k0: nat, m: nat)
    requires AllOk(reps) && l < LAPS && s < NUMSLICE - 1 && FirstToShow(reps, l, s, k0, m)
    ensures Tables(reps)[l].slice[s] == Slice(reps[m].entry.lapTime, reps[m].sessionTime)
  {
    FirstIs(reps, l, s, k0, m);
    SplitsAreFirstCrossings(reps, l, s);
    hide Tables, FirstToShow;
  }

  // ----- the last slice -----

  /** Report m is the first of the lap after l: it completes lap l. */
  predicate CompletesLap(reps: seq<Report>, m: nat, l: nat)
    requires m < |reps|
  {
    l >= 1 && reps[m].entry.lapNum == l + 1 && (m == 0 || reps[m - 1].entry.lapNum != l + 1)
  }

  lemma LastCell(laps: seq<Lap>, was: nat, r: Report, l: nat)
    requires LapsOk(laps) && r.Ok() && l < LAPS
    ensures var c, c' := laps[l].slice[199], Recorded(laps, was, r)[l].slice[199];
            && (l >= 1 && r.entry.lapNum == l + 1 && was != l + 1 ==> c' == Slice(r.entry.lastLapTime, r.sessionTime))
            && (!(l >= 1 && r.entry.lapNum == l + 1 && was != l + 1) && !Clears(r, l) && c.lapTime != 0 ==> c' == c)
  {
  }

  /** Once lap l was completed, its last slice holds the lap time the game reports for it, until the
      lap is completed again or started anew. */
  lemma {:induction false} LastSliceIsLapTime(reps: seq<Report>, l: nat, m: nat)
    requires AllOk(reps) && l < LAPS && m < |reps| && CompletesLap(reps, m, l) && reps[m].entry.lastLapTime != 0
    requires forall j :: m < j < |reps| ==> !CompletesLap(reps, j, l) && !Restarts(reps[j], l)
    ensures Tables(reps)[l].slice[199] == Slice(reps[m].entry.lastLapTime, reps[m].sessionTime)
  {
    hide CompletesLap, Recorded, Restarts, Clears, Tables, LapBefore;
    var n := |reps| - 1;
    var front, r := reps[..n], reps[n];
    TablesUnfold(reps);
    LastCell(Tables(front), LapBefore(front), r, l);
    ReportShows(r, l, 0);
    CompletesIs(reps, l);
    if m < n {
      CompletesPrefix(reps, m, l);
      forall j | m < j < n ensures !CompletesLap(front, j, l) && !Restarts(front[j], l) {
        CompletesPrefix(reps, j, l);
        assert front[j] == reps[j] && !CompletesLap(reps, j, l);
      }
      LastSliceIsLapTime(front, l, m);
    }
  }

  lemma CompletesPrefix(reps: seq<Report>, j: nat, l: nat)
    requires j < |reps| - 1
    ensures CompletesLap(reps[..|reps| - 1], j, l) <==> CompletesLap(reps, j, l)
  {
  }

  lemma TablesUnfold(reps: seq<Report>)
    requires AllOk(reps) && reps != []
    ensures AllOk(reps[..|reps| - 1])
    ensures Tables(reps) == Recorded(Tables(reps[..|reps| - 1]), LapBefore(reps[..|reps| - 1]), reps[|reps| - 1])
  {
    hide Recorded;
  }

  lemma CompletesIs(reps: seq<Report>, l: nat)
    requires reps != []
    ensures var n := |reps| - 1;
            CompletesLap(reps, n, l) <==> l >= 1 && reps[n].entry.lapNum == l + 1 && LapBefore(reps[..n]) != l + 1
  {
  }

  // ----- race gaps -----

  function Clamped(x: real): real {
    if x > 0.0 then x else 0.0
  }

  /** Behind the first, the gaps of a race are the clamped differences of session times: past lap 1 at
      the slice the car is in, or, before its first slice, at the last slice of the lap before; on lap
      1 at its slice, but never before slice 10. */
  lemma GapsAtReportedSlice(cars: seq<Car>, ranks: seq<int>, r: nat)
    requires RanksOk(cars, ranks) && 0 < r < |ranks|
    ensures var car, lead, ahead := cars[ranks[r]], cars[ranks[0]], cars[ranks[r - 1]];
            var g, l, s := GapsOf(cars, ranks, r), car.entry.lapNum, car.sliceIndex;
            && LapsOk(car.laps) && LapsOk(lead.laps) && LapsOk(ahead.laps) && l < 100 && s < 200
            && g.leaderJit == g.leader && g.frontJit == g.front
            && (l != 1 && s >= 0 ==>
                  && g.leader == Clamped(car.laps[l].slice[s].sessionTime - lead.laps[l].slice[s].sessionTime)
                  && g.front == Clamped(car.laps[l].slice[s].sessionTime - ahead.laps[l].slice[s].sessionTime))
            && (l > 1 && s < 0 ==>
                  var own := car.laps[l - 1].slice[199].sessionTime;
                  && g.leader == Clamped(own - lead.laps[l - 1].slice[199].sessionTime)
                  && g.front == Clamped(own - ahead.laps[l - 1].slice[199].sessionTime))
            && (l == 1 && s >= 10 ==>
                  && g.leader == Clamped(car.laps[1].slice[s].sessionTime - lead.laps[1].slice[s].sessionTime)
                  && g.front == Clamped(car.laps[1].slice[s].sessionTime - ahead.laps[1].slice[s].sessionTime))
            && (l == 1 && s < 10 ==>
                  && g.leader == Clamped(car.laps[1].slice[10].sessionTime - lead.laps[1].slice[10].sessionTime)
                  && g.front == Clamped(car.laps[1].slice[10].sessionTime - ahead.laps[1].slice[10].sessionTime))
  {
    hide OwnGaps, OwnInTable;
    assert Gaugeable(cars[ranks[r]], false);
  }

  /** The car's entry and slice are those of its last lap report. */
  lemma {:induction false} LastReportShown(ops: seq<CarOp>)
    requires AllOpsOk(ops) && Reports(ops) != []
    ensures AllOk(Reports(ops))
    ensures var last := Reports(ops)[|Reports(ops)| - 1];
            CarAfter(ops).entry == last.entry && CarAfter(ops).sliceIndex == last.Cell()
  {
    TablesOfHistory(ops);
    var front, op := ops[..|ops| - 1], ops[|ops| - 1];
    hide Recorded, Snapped;
    if !op.Fill? {
      assert Reports(front) + [] == Reports(front);
      LastReportShown(front);
    }
  }

  /** Gaps of a race over any histories of the two cars: when the last report of the car shows it in
      slice s of lap l past the first lap, the gap to the car at `rank` (the first, or the one in front)
      is the time between the reports that first showed the two cars there, if positive. */
  lemma GapIsTimeSinceShown(cars: seq<Car>, ranks: seq<int>, r: nat, rank: nat, own: seq<CarOp>, other: seq<CarOp>,
                            l: nat, s: nat, k: nat, m: nat, k': nat, m': nat)
    requires RanksOk(cars, ranks) && 0 < r < |ranks| && (rank == 0 || rank == r - 1)
    requires AllOpsOk(own) && AllOpsOk(other) && Reports(own) != []
    requires cars[ranks[r]] == CarAfter(own) && cars[ranks[rank]] == CarAfter(other)
    requires 1 < l < LAPS && s < NUMSLICE - 1 && Shows(Reports(own)[|Reports(own)| - 1], l, s)
    requires FirstToShow(Reports(own), l, s, k, m) && FirstToShow(Reports(other), l, s, k', m')
    ensures var g := GapsOf(cars, ranks, r);
            (if rank == 0 then g.leader else g.front)
              == Clamped(Reports(own)[m].sessionTime - Reports(other)[m'].sessionTime)
  {
    hide CarAfter, Reports, FirstToShow, RanksOk, GapsOf;
    TablesOfHistory(own);
    TablesOfHistory(other);
    LastReportShown(own);
    ReportShows(Reports(own)[|Reports(own)| - 1], l, s);
    hide Shows;
    SplitIsFirstShown(Reports(own), l, s, k, m);
    SplitIsFirstShown(Reports(other), l, s, k', m');
    GapsAtReportedSlice(cars, ranks, r);
  }

  // ----- what a lap packet hands to a car -----

  /** The report of a car is its entry with the packet's time and the session's flags: race types 10 to
      12, safety car status 3 for a formation lap. */
  lemma ReportOnFields(session: Session, p: LapPacket, i: nat, flash: bool)
    requires |p.entries| == 22 && i < 22
    ensures var r := ReportOf(session, p, i, flash);
            && r.entry == p.entries[i] && r.sessionTime == p.sessionTime && r.trackLength == session.trackLength
            && (r.race <==> session.sessionType in {10, 11, 12})
            && (r.formation <==> session.safetyCarStatus == 3) && r.flash == flash
  {
  }

  /** A lap packet is processed for the cars with a position; in time trial (13) only for the player, the
      personal best and the rival. */
  lemma ConsideredOnFields(session: Session, p: LapPacket, i: nat)
    requires |p.entries| == 22
    ensures Considered(session, p, i) <==>
              && i < 22 && p.entries[i].position != 0
              && (session.sessionType == 13 ==> i == 0 || i == p.pbCar || i == p.rivalCar)
  {
  }

  /** Only the first car processed finds the flashback flag. */
  lemma FlashReachesFirst(session: Session, p: LapPacket, i: nat, flash: bool)
    requires |p.entries| == 22 && i < 22
    ensures LapOp(session, p, i, flash)
         == Fill(i, ReportOf(session, p, i, flash && forall j :: 0 <= j < i ==> !Considered(session, p, j)))
  {
    hide Considered;
  }

  /** What a report leaves in the lap table and the car besides the splits: lap number, position and
      running time of its lap, all cleared when it starts the lap anew; the lap time of a lap it
      completes; no other lap. */
  lemma ReportOnLaps(car: Car, i: nat, r: Report, l: nat)
    requires LapsOk(car.laps) && r.Ok() && l < LAPS
    ensures var c, now, was := Filled(car, i, r), r.entry.lapNum, car.entry.lapNum;
            && c.carIndex == i && c.entry == r.entry && c.sliceIndex == r.Cell()
            && (l == now && !Restarts(r, l) ==>
                  && c.laps[l].lapNum == l && c.laps[l].carPosition == r.entry.position
                  && c.laps[l].totalTime == r.entry.lapTime)
            && (l == now && Restarts(r, l) ==>
                  c.laps[l].lapNum == 0 && c.laps[l].carPosition == 0 && c.laps[l].totalTime == 0)
            && (now > 1 && was != now && l == now - 1 ==>
                  c.laps[l] == car.laps[l].(totalTime := r.entry.lastLapTime, slice := c.laps[l].slice))
            && (l != now && !(now > 1 && was != now && l == now - 1) ==> c.laps[l] == car.laps[l])
  {
    ReportShows(r, l, 0);
    hide Restarts, SliceOf, Snapped;
  }

  // ----- snapshots -----

  /** A report makes a snapshot when its quantum is new, no flashback is on and the world position is
      known. In a race it is pushed unless on a formation lap; elsewhere on a running lap at a positive
      distance, if the car was on a flying lap (1) before or has the hotlap deployment (2). */
  lemma SnapshotExactly(car: Car, i: nat, r: Report)
    requires LapsOk(car.laps) && r.Ok()
    ensures var car', q := Filled(car, i, r), Quantised(r.entry.distance, r.trackLength);
            var s := Snapshot(r.entry.lapNum, r.entry.lapTime, q, car.snap.ersDeployMode, car.snap.drs,
                              car.snap.x, car.snap.y, car.snap.z);
            var changes := q != car.snap.lapDistance && !r.flash
                           && car.snap.x != 0.0 && car.snap.y != 0.0 && car.snap.z != 0.0;
            var pushes := if r.race then !r.formation
                          else r.entry.lapTime > 0 && r.entry.distance > 0.0
                               && (car.entry.driverStatus == 1 || car.snap.ersDeployMode == 2);
            && car'.buffer == (if changes && pushes then car.buffer + [s] else car.buffer)
            && car'.snap == (if changes then s else s.(lapDistance := car.snap.lapDistance))
  {
    hide Recorded, Quantised;
  }

  // ----- gaps against laps -----

  /** Against a completed lap: the difference of the lap times at the slice, in seconds. */
  predicate LapDifference(gap: real, car: Car, other: Car, lap: nat)
    requires CarOk(car) && CarOk(other) && car.sliceIndex >= 0 && lap < LAPS
  {
    other.laps[lap].slice[199].lapTime != 0 ==>
      gap == (car.laps[car.entry.lapNum].slice[car.sliceIndex].lapTime
              - other.laps[lap].slice[car.sliceIndex].lapTime) as real * 0.001
  }

  /** Against a lap that was never completed: by the sectors of the car's latest lap and the other's
      best one, two sectors if there are, else one, else 0. */
  predicate SectorDifference(gap: real, car: Car, other: Car, lap: nat)
    requires CarOk(other) && lap < LAPS
  {
    var h, b := car.history, other.history;
    other.laps[lap].slice[199].lapTime == 0
    && 1 <= h.numLaps <= |h.laps| && 1 <= b.bestLapNum <= |b.laps| ==>
      var own, best := h.laps[h.numLaps - 1], b.laps[b.bestLapNum - 1];
      gap == (if own.sector2 != 0 then own.sector1 + own.sector2 - best.sector1 - best.sector2
              else if own.sector1 != 0 then own.sector1 - best.sector1 else 0) as real * 0.001
  }

  lemma JitGapIs(car: Car, other: Car, lap: nat)
    requires CarOk(car) && CarOk(other) && car.sliceIndex >= 0 && lap < LAPS
    ensures var gap := JitGap(car, car.entry.lapNum, other, lap, car.sliceIndex);
            LapDifference(gap, car, other, lap) && SectorDifference(gap, car, other, lap)
  {
  }

  /** In a race and outside, bestLapJit and lastLapJit measure the car against its own best lap and the
      lap before, from lap 2 and slice 0 on; before, they are 0. */
  lemma OwnGapsOnLaps(race: bool, cars: seq<Car>, ranks: seq<int>, r: nat)
    requires Measurable(race, cars, ranks) && r < |ranks| && ranks[r] >= 0
    ensures var car, g := cars[ranks[r]], Gauge(race, cars, ranks, r);
            if car.entry.lapNum > 1 && car.sliceIndex >= 0 then
              && CarOk(car) && car.bestLapNum < LAPS
              && LapDifference(g.bestLapJit, car, car, car.bestLapNum)
              && SectorDifference(g.bestLapJit, car, car, car.bestLapNum)
              && LapDifference(g.lastLapJit, car, car, car.entry.lapNum - 1)
              && SectorDifference(g.lastLapJit, car, car, car.entry.lapNum - 1)
            else g.bestLapJit == 0.0 && g.lastLapJit == 0.0
  {
    var car := cars[ranks[r]];
    GaugeHasOwn(race, cars, ranks, r);
    if car.entry.lapNum > 1 && car.sliceIndex >= 0 {
      JitGapIs(car, car, car.bestLapNum);
      JitGapIs(car, car, car.entry.lapNum - 1);
    }
    hide JitGap, LapDifference, SectorDifference, Gauge, Measurable;
  }

  lemma GaugeHasOwn(race: bool, cars: seq<Car>, ranks: seq<int>, r: nat)
    requires Measurable(race, cars, ranks) && r < |ranks| && ranks[r] >= 0
    ensures var car, g := cars[ranks[r]], Gauge(race, cars, ranks, r);
            && CarOk(car) && OwnInTable(car)
            && g.bestLapJit == OwnGaps(car).bestLapJit && g.lastLapJit == OwnGaps(car).lastLapJit
  {
    hide OwnGaps;
    if race { assert Gaugeable(cars[ranks[r]], r == 0); }
  }

  /** Outside a race, behind the first: leader and front are the differences of best lap times, in
      seconds, 0 while one is missing; the running gaps measure against the best laps of the two. */
  lemma LapGapsOnLaps(cars: seq<Car>, ranks: seq<int>, r: nat)
    requires LapRanksOk(cars, ranks) && 0 < r < |ranks| && ranks[r] >= 0
    ensures ranks[0] >= 0 && ranks[r - 1] >= 0
    ensures var car, lead, ahead := cars[ranks[r]], cars[ranks[0]], cars[ranks[r - 1]];
            var g := LapGapsOf(cars, ranks, r);
            && CarOk(car) && CarOk(lead) && CarOk(ahead)
            && g.leader == (if car.bestLapTime > 0 && lead.bestLapTime > 0
                            then (car.bestLapTime - lead.bestLapTime) as real * 0.001 else 0.0)
            && g.front == (if car.bestLapTime > 0 && ahead.bestLapTime > 0
                           then (car.bestLapTime - ahead.bestLapTime) as real * 0.001 else 0.0)
            && (if lead.bestLapNum > 0 && car.sliceIndex >= 0 then
                  lead.bestLapNum < LAPS && LapDifference(g.leaderJit, car, lead, lead.bestLapNum)
                  && SectorDifference(g.leaderJit, car, lead, lead.bestLapNum)
                else g.leaderJit == 0.0)
            && (if ahead.bestLapNum > 0 && car.sliceIndex >= 0 then
                  ahead.bestLapNum < LAPS && LapDifference(g.frontJit, car, ahead, ahead.bestLapNum)
                  && SectorDifference(g.frontJit, car, ahead, ahead.bestLapNum)
                else g.frontJit == 0.0)
  {
    LedByFirst(cars, ranks, r);
    var car, lead, ahead := cars[ranks[r]], cars[ranks[0]], cars[ranks[r - 1]];
    assert CarOk(car) && CarOk(lead) && CarOk(ahead) && RunsInTable(car, lead) && RunsInTable(car, ahead);
    if lead.bestLapNum > 0 && car.sliceIndex >= 0 { JitGapIs(car, lead, lead.bestLapNum); }
    if ahead.bestLapNum > 0 && car.sliceIndex >= 0 { JitGapIs(car, ahead, ahead.bestLapNum); }
    hide JitGap, LapDifference, SectorDifference, OwnGaps, CarOk;
  }

  // ----- the other packets -----

  /** What motion, status, telemetry, damage and history packets leave in a car. */
  lemma PacketsOnFields(car: Car, i: nat, motion: seq<(real, real, real)>, status: seq<(nat, int, nat)>,
                        telemetry: seq<nat>, damage: seq<(nat, nat)>, h: History)
    requires LapsOk(car.laps) && h.Ok()
    requires i < |motion| && i < |status| && i < |telemetry| && i < |damage|
    ensures Applied(car, Motions(motion)[i])
         == car.(snap := car.snap.(x := motion[i].0, y := motion[i].1, z := motion[i].2))
    ensures Applied(car, Statuses(status)[i])
         == car.(drsActivationDistance := status[i].0, vehicleFiaFlags := status[i].1,
                 snap := car.snap.(ersDeployMode := status[i].2))
    ensures Applied(car, Telemetries(telemetry)[i])
         == car.(drs := telemetry[i], snap := car.snap.(drs := telemetry[i]))
    ensures var worst := Applied(car, Damages(damage)[i]).frontWingDamage;
            && damage[i].0 <= worst && damage[i].1 <= worst && (worst == damage[i].0 || worst == damage[i].1)
            && Applied(car, Damages(damage)[i]) == car.(frontWingDamage := worst)
    ensures var c := Applied(car, Past(h));
            && c == car.(history := h, bestLapNum := h.bestLapNum, bestLapTime := c.bestLapTime)
            && (h.bestLapNum == 0 ==> c.bestLapTime == car.bestLapTime)
            && (1 <= h.bestLapNum <= 100 ==> c.bestLapTime == h.laps[h.bestLapNum - 1].lapTime)
  {
  }

  // ----- who is ranked -----

  /** The cars ToSQL looks at are the entries of the rank list before the null ones. */
  lemma {:induction false} WhoseIsPrefix(ranks: seq<int>, n: nat)
    requires n <= |ranks|
    requires (forall r :: 0 <= r < n ==> ranks[r] >= 0) && (forall r :: n <= r < |ranks| ==> ranks[r] < 0)
    ensures Whose(ranks) == ranks[..n]
  {
    if n < |ranks| {
      WhoseIsPrefix(ranks[..|ranks| - 1], n);
      assert ranks[..|ranks| - 1][..n] == ranks[..n];
    } else {
      assert ranks[..n] == ranks;
    }
  }
}
