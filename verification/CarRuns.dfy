/** What the car state amounts to over any history of packets: the rank list inverts the
    positions, the split tables hold first crossings, the snapshots are a compression of the
    quantised distances, and the race gaps are differences of crossing times. */
module CarRuns {
  import opened Options
  import opened Cars
  import opened AllCarInfos

  // ----- the rank list -----

  function ConsideredCars(session: Session, p: LapPacket, n: nat): (s: set<nat>)
    requires |p.entries| == MAX_CAR_NUM && n <= MAX_CAR_NUM
  {
    set i: nat | i < n && Considered(session, p, i)
  }

  lemma {:induction false} CountIsSize(session: Session, p: LapPacket, n: nat)
    requires |p.entries| == MAX_CAR_NUM && n <= MAX_CAR_NUM
    ensures |ConsideredCars(session, p, n)| == CountOf(session, p, n)
  {
    hide Considered;
    if n > 0 {
      CountIsSize(session, p, n - 1);
      var less := ConsideredCars(session, p, n - 1);
      assert ConsideredCars(session, p, n) == if Considered(session, p, n - 1) then less + {n - 1} else less;
    }
  }

  /** The positions of the processed cars are distinct and none exceeds their number. */
  ghost predicate ProperPositions(session: Session, p: LapPacket)
    requires |p.entries| == MAX_CAR_NUM
  {
    && (forall i, j :: 0 <= i < j < MAX_CAR_NUM && Considered(session, p, i) && Considered(session, p, j) ==>
          p.entries[i].position != p.entries[j].position)
    && (forall i :: 0 <= i < MAX_CAR_NUM && Considered(session, p, i) ==>
          p.entries[i].position <= CountOf(session, p, MAX_CAR_NUM))
  }

  /** The rank list is the inverse of the positions: every rank below rank_num_ was overwritten by
      the car of that position, and every processed car stands at its own position. */
  ghost predicate RankListInverts(session: Session, p: LapPacket)
    requires |p.entries| == MAX_CAR_NUM
  {
    var num := CountOf(session, p, MAX_CAR_NUM);
    && (forall r :: 0 <= r < num ==> Claimant(session, p, MAX_CAR_NUM, r) >= 0)
    && (forall i :: 0 <= i < MAX_CAR_NUM && Considered(session, p, i) ==>
          p.entries[i].position <= num && Claimant(session, p, MAX_CAR_NUM, p.entries[i].position - 1) == i)
  }

  function Positions(p: LapPacket, cars: set<nat>): set<nat>
    requires |p.entries| == MAX_CAR_NUM && forall i :: i in cars ==> i < MAX_CAR_NUM
  {
    set i | i in cars :: p.entries[i].position
  }

  lemma {:induction false} DistinctPositions(p: LapPacket, cars: set<nat>)
    requires |p.entries| == MAX_CAR_NUM && forall i :: i in cars ==> i < MAX_CAR_NUM
    requires forall i, j :: i in cars && j in cars && i != j ==> p.entries[i].position != p.entries[j].position
    ensures |Positions(p, cars)| == |cars|
    decreases cars
  {
    if cars != {} {
      var i :| i in cars;
      var rest := cars - {i};
      DistinctPositions(p, rest);
      assert Positions(p, cars) == Positions(p, rest) + {p.entries[i].position};
    }
  }

  function UpTo(n: nat): (s: set<nat>)
    ensures forall k: nat :: k in s <==> 1 <= k <= n
    ensures |s| == n
  {
    if n == 0 then {} else UpTo(n - 1) + {n}
  }

  lemma {:induction false} FullSubset(a: set<nat>, b: set<nat>)
    requires a <= b && |a| == |b|
    ensures a == b
  {
    if a != b {
      var x :| x in b && x !in a;
      assert a <= b - {x};
      SubsetSize(a, b - {x});
    }
  }

  lemma {:induction false} SubsetSize(a: set<nat>, b: set<nat>)
    requires a <= b
    ensures |a| <= |b|
    decreases a
  {
    if a != {} {
      var x :| x in a;
      SubsetSize(a - {x}, b - {x});
    }
  }

  /** Pigeonhole: proper positions fill 1..rank_num_. */
  lemma EveryRankClaimed(session: Session, p: LapPacket, r: nat)
    requires |p.entries| == MAX_CAR_NUM && ProperPositions(session, p) && r < CountOf(session, p, MAX_CAR_NUM)
    ensures Claimant(session, p, MAX_CAR_NUM, r) >= 0
  {
    var num := CountOf(session, p, MAX_CAR_NUM);
    var cars := ConsideredCars(session, p, MAX_CAR_NUM);
    CountIsSize(session, p, MAX_CAR_NUM);
    DistinctPositions(p, cars);
    FullSubset(Positions(p, cars), UpTo(num));
    assert r + 1 in UpTo(num);
    assert exists i :: i in cars && p.entries[i].position == r + 1;
  }

  lemma OneClaimantEach(session: Session, p: LapPacket, i: nat)
    requires |p.entries| == MAX_CAR_NUM && ProperPositions(session, p) && Considered(session, p, i)
    ensures Claimant(session, p, MAX_CAR_NUM, p.entries[i].position - 1) == i
  {
    hide CountOf;
  }

  lemma InverseIsProper(session: Session, p: LapPacket)
    requires |p.entries| == MAX_CAR_NUM && RankListInverts(session, p)
    ensures ProperPositions(session, p)
  {
    forall i, j | 0 <= i < j < MAX_CAR_NUM && Considered(session, p, i) && Considered(session, p, j)
      ensures p.entries[i].position != p.entries[j].position
    {
      assert Claimant(session, p, MAX_CAR_NUM, p.entries[i].position - 1) == i;
      assert Claimant(session, p, MAX_CAR_NUM, p.entries[j].position - 1) == j;
    }
  }

  /** After FillLapData the rank list inverts the positions, stale entries included, exactly when
      the positions of the processed cars are distinct and at most their number. */
  lemma RankListIsInverse(session: Session, p: LapPacket)
    requires |p.entries| == MAX_CAR_NUM
    ensures RankListInverts(session, p) <==> ProperPositions(session, p)
  {
    if ProperPositions(session, p) {
      forall r: nat | r < CountOf(session, p, MAX_CAR_NUM) { EveryRankClaimed(session, p, r); }
      forall i: nat | Considered(session, p, i) { OneClaimantEach(session, p, i); }
      assert RankListInverts(session, p);
    } else if RankListInverts(session, p) {
      InverseIsProper(session, p);
    }
  }

  /** With proper positions every rank below rank_num_ holds, after FillLapData, the car whose last
      reported position it is, whatever the rank list held before. */
  lemma RanksAreInOrder(session: Session, p: LapPacket, flash: bool, was: seq<Car>, cars: seq<Car>,
                        stale: seq<int>, list: seq<int>)
    requires PacketOk(session, p) && AllCarsOk(was) && ProperPositions(session, p)
    requires CarsUpTo(session, p, flash, was, MAX_CAR_NUM, cars)
    requires RanksUpTo(session, p, stale, MAX_CAR_NUM, list)
    ensures forall r :: 0 <= r < CountOf(session, p, MAX_CAR_NUM) ==>
              0 <= list[r] < MAX_CAR_NUM && cars[list[r]].entry.position == r + 1
  {
    hide Applied;
    forall r: nat | r < CountOf(session, p, MAX_CAR_NUM)
      ensures 0 <= list[r] < MAX_CAR_NUM && cars[list[r]].entry.position == r + 1
    {
      EveryRankClaimed(session, p, r);
      var c := Claimant(session, p, MAX_CAR_NUM, r);
      assert PacketLeaves(session, p, c, flash, was[c], cars[c]);
      OpKeepsTables(was[c], LapOp(session, p, c, flash));
    }
  }

  /** A packet with one car, at position 2: its rank is claimed by nobody. */
  function LoneCar(): LapPacket {
    LapPacket(seq(MAX_CAR_NUM, i => if i == 0 then NO_ENTRY.(position := 2) else NO_ENTRY), 0.0, 0, 0)
  }

  lemma LoneCarIsNotRanked()
    ensures var session, p := Session(RACE_1, 5000, 50, 0), LoneCar();
            PacketOk(session, p) && CountOf(session, p, MAX_CAR_NUM) == 1 && !RankListInverts(session, p)
  {
    var session, p := Session(RACE_1, 5000, 50, 0), LoneCar();
    assert Considered(session, p, 0) && forall i :: 0 < i < MAX_CAR_NUM ==> !Considered(session, p, i);
    CountOfFirst(session, p, MAX_CAR_NUM);
    hide CountOf, Claimant;
  }

  lemma {:induction false} CountOfFirst(session: Session, p: LapPacket, n: nat)
    requires |p.entries| == MAX_CAR_NUM && 0 < n <= MAX_CAR_NUM
    requires Considered(session, p, 0) && forall i :: 0 < i < n ==> !Considered(session, p, i)
    ensures CountOf(session, p, n) == 1
  {
    if n > 1 { CountOfFirst(session, p, n - 1); }
  }

  /** The report of car i keeps the race gaps within the tables: behind the first it is on a lap from 1
      on, or past the first slice of lap 0, as lap 0 has no lap before it to compare on; and a best
      lap it is measured against is in the table. */
  predicate Ready(session: Session, p: LapPacket, i: nat, bestLapNum: nat)
    requires PacketOk(session, p) && Considered(session, p, i)
  {
    var started := SliceOf(p.entries[i].distance, session.trackLength) >= 0;
    && (p.entries[i].position == 1 || p.entries[i].lapNum > 0 || started)
    && (p.entries[i].lapNum > 1 && started ==> bestLapNum < LAPS)
  }

  ghost predicate AllReady(session: Session, p: LapPacket, was: seq<Car>)
    requires PacketOk(session, p) && |was| == MAX_CAR_NUM
  {
    forall i :: 0 <= i < MAX_CAR_NUM && Considered(session, p, i) ==> Ready(session, p, i, was[i].bestLapNum)
  }

  /** Two cars, the second on lap 0 before its first slice. */
  function LapZero(): LapPacket {
    var two := [NO_ENTRY.(position := 1), NO_ENTRY.(position := 2)];
    LapPacket(seq(MAX_CAR_NUM, i requires 0 <= i < MAX_CAR_NUM => if i < 2 then two[i] else NO_ENTRY), 0.0, 0, 0)
  }

  lemma LapZeroIsNotReady(was: seq<Car>)
    requires |was| == MAX_CAR_NUM
    ensures var session, p := Session(RACE_1, 5000, 50, 0), LapZero();
            PacketOk(session, p) && ProperPositions(session, p) && !AllReady(session, p, was)
  {
    var session, p := Session(RACE_1, 5000, 50, 0), LapZero();
    hide CountOf, PacketOk, Ready, LapZero, Considered, ProperPositions;
    LapZeroCars(session, p);
    TwoAreProper(session, p);
    LapZeroOk(session, p, was[1].bestLapNum);
  }

  lemma TwoAreProper(session: Session, p: LapPacket)
    requires |p.entries| == MAX_CAR_NUM && p.entries[0].position == 1 && p.entries[1].position == 2
    requires forall i :: 0 <= i < MAX_CAR_NUM ==> (Considered(session, p, i) <==> i < 2)
    ensures ProperPositions(session, p)
  {
    CountOfTwo(session, p, MAX_CAR_NUM);
    hide CountOf, Considered;
  }

  lemma LapZeroCars(session: Session, p: LapPacket)
    requires session == Session(RACE_1, 5000, 50, 0) && p == LapZero()
    ensures |p.entries| == MAX_CAR_NUM && p.entries[0].position == 1 && p.entries[1].position == 2
    ensures forall i :: 0 <= i < MAX_CAR_NUM ==> (Considered(session, p, i) <==> i < 2)
  {
  }

  lemma LapZeroOk(session: Session, p: LapPacket, bestLapNum: nat)
    requires session == Session(RACE_1, 5000, 50, 0) && p == LapZero()
    ensures PacketOk(session, p) && Considered(session, p, 1) && !Ready(session, p, 1, bestLapNum)
  {
    LapZeroCars(session, p);
    assert SliceOf(0.0, 5000) == -1;
    assert forall i :: 0 <= i < 2 ==> p.entries[i].distance == 0.0 && p.entries[i].lapNum == 0;
    hide Considered, LapZero, SliceOf;
  }

  lemma {:induction false} CountOfTwo(session: Session, p: LapPacket, n: nat)
    requires |p.entries| == MAX_CAR_NUM && 2 <= n <= MAX_CAR_NUM
    requires forall i :: 0 <= i < MAX_CAR_NUM ==> (Considered(session, p, i) <==> i < 2)
    ensures CountOf(session, p, n) == 2
  {
    if n > 2 { CountOfTwo(session, p, n - 1); }
  }

  /** What the cars hold of their last lap packet. */
  ghost predicate LapsReported(session: Session, p: LapPacket, cars: seq<Car>)
    requires PacketOk(session, p) && |cars| == MAX_CAR_NUM
  {
    forall i :: 0 <= i < MAX_CAR_NUM && Considered(session, p, i) ==>
      && cars[i].entry == p.entries[i]
      && cars[i].sliceIndex == SliceOf(p.entries[i].distance, session.trackLength)
  }

  lemma LapReports(session: Session, p: LapPacket, flash: bool, was: seq<Car>, cars: seq<Car>)
    requires PacketOk(session, p) && AllCarsOk(was) && CarsUpTo(session, p, flash, was, MAX_CAR_NUM, cars)
    ensures LapsReported(session, p, cars)
    ensures AllReady(session, p, cars) <==> AllReady(session, p, was)
  {
    forall i | 0 <= i < MAX_CAR_NUM && Considered(session, p, i)
      ensures cars[i].entry == p.entries[i] && cars[i].sliceIndex == SliceOf(p.entries[i].distance, session.trackLength)
      ensures cars[i].bestLapNum == was[i].bestLapNum
    {
      OneReports(session, p, flash, was, cars, i);
    }
    hide Considered, PacketOk, Ready, CarsUpTo, SliceOf;
  }

  lemma OneReports(session: Session, p: LapPacket, flash: bool, was: seq<Car>, cars: seq<Car>, i: nat)
    requires PacketOk(session, p) && AllCarsOk(was) && CarsUpTo(session, p, flash, was, MAX_CAR_NUM, cars)
    requires Considered(session, p, i)
    ensures cars[i].entry == p.entries[i] && cars[i].bestLapNum == was[i].bestLapNum
    ensures cars[i].sliceIndex == SliceOf(p.entries[i].distance, session.trackLength)
  {
    hide Recorded, Snapped;
    assert PacketLeaves(session, p, i, flash, was[i], cars[i]);
    SnapKeepsBest(was[i], ReportOf(session, p, i, flash && CountOf(session, p, i) == 0));
    hide SliceOf, CountOf;
  }

  lemma SnapKeepsBest(car: Car, r: Report)
    ensures Snapped(car, r).bestLapNum == car.bestLapNum
  {
  }

  lemma ReportedCar(session: Session, p: LapPacket, cars: seq<Car>, i: nat)
    requires PacketOk(session, p) && |cars| == MAX_CAR_NUM && LapsReported(session, p, cars)
    requires Considered(session, p, i)
    ensures Gaugeable(cars[i], p.entries[i].position == 1) <==> Ready(session, p, i, cars[i].bestLapNum)
  {
    hide SliceOf;
  }

  lemma RankOfCar(session: Session, p: LapPacket, stale: seq<int>, list: seq<int>, i: nat)
    requires PacketOk(session, p) && RankListInverts(session, p) && Considered(session, p, i)
    requires RanksUpTo(session, p, stale, MAX_CAR_NUM, list)
    ensures 0 < p.entries[i].position <= CountOf(session, p, MAX_CAR_NUM) && list[p.entries[i].position - 1] == i
  {
    hide CountOf;
  }

  lemma CarOfRank(session: Session, p: LapPacket, stale: seq<int>, list: seq<int>, r: nat)
    requires PacketOk(session, p) && RankListInverts(session, p) && r < CountOf(session, p, MAX_CAR_NUM)
    requires RanksUpTo(session, p, stale, MAX_CAR_NUM, list)
    ensures 0 <= list[r] < MAX_CAR_NUM && Considered(session, p, list[r]) && p.entries[list[r]].position == r + 1
  {
    hide CountOf;
    assert Claimant(session, p, MAX_CAR_NUM, r) >= 0;
  }

  ghost predicate AllGaugeable(cars: seq<Car>, list: seq<int>, num: nat)
    requires num <= |list| && forall r :: 0 <= r < num ==> 0 <= list[r] < |cars|
  {
    forall r :: 0 <= r < num ==> Gaugeable(cars[list[r]], r == 0)
  }

  lemma GaugeableExactly(session: Session, p: LapPacket, cars: seq<Car>, stale: seq<int>, list: seq<int>)
    requires PacketOk(session, p) && RankListInverts(session, p) && |cars| == |list| == MAX_CAR_NUM
    requires LapsReported(session, p, cars) && RanksUpTo(session, p, stale, MAX_CAR_NUM, list)
    requires forall r :: 0 <= r < CountOf(session, p, MAX_CAR_NUM) ==> 0 <= list[r] < |cars|
    ensures AllGaugeable(cars, list, CountOf(session, p, MAX_CAR_NUM)) <==> AllReady(session, p, cars)
  {
    assert |p.entries| == MAX_CAR_NUM;
    var num := CountOf(session, p, MAX_CAR_NUM);
    hide CountOf, Claimant, RankListInverts, Ready, Considered, Gaugeable, LapsReported, RanksUpTo, PacketOk;
    if AllGaugeable(cars, list, num) {
      forall i: nat | i < MAX_CAR_NUM && Considered(session, p, i)
        ensures Ready(session, p, i, cars[i].bestLapNum)
      {
        RankOfCar(session, p, stale, list, i);
        var r := p.entries[i].position - 1;
        assert Gaugeable(cars[list[r]], r == 0);
        ReportedCar(session, p, cars, i);
      }
    }
    if AllReady(session, p, cars) {
      forall r: nat | r < num ensures Gaugeable(cars[list[r]], r == 0) {
        CarOfRank(session, p, stale, list, r);
        ReportedCar(session, p, cars, list[r]);
      }
    }
  }

  /** With proper positions, a race can be measured on the ranks a lap packet set and the reports it
      left, exactly when every car is ready. */
  lemma RanksOkExactly(session: Session, p: LapPacket, cars: seq<Car>, stale: seq<int>, list: seq<int>)
    requires PacketOk(session, p) && AllCarsOk(cars) && ProperPositions(session, p) && LapsReported(session, p, cars)
    requires RanksUpTo(session, p, stale, MAX_CAR_NUM, list)
    ensures RanksOk(cars, list[..CountOf(session, p, MAX_CAR_NUM)]) <==> AllReady(session, p, cars)
  {
    hide CountOf, LapsReported, RanksUpTo, AllReady, PacketOk, ProperPositions, RankListInverts, RanksOk, AllCarsOk;
    AllInRange(session, p, stale, list);
    AllAreCars(cars);
    RankListIsInverse(session, p);
    GaugeableExactly(session, p, cars, stale, list);
    RanksOkMeans(cars, list, CountOf(session, p, MAX_CAR_NUM));
  }

  lemma AllAreCars(cars: seq<Car>)
    requires AllCarsOk(cars)
    ensures |cars| == MAX_CAR_NUM
  {
  }

  lemma AllInRange(session: Session, p: LapPacket, stale: seq<int>, list: seq<int>)
    requires PacketOk(session, p) && ProperPositions(session, p)
    requires RanksUpTo(session, p, stale, MAX_CAR_NUM, list)
    ensures |p.entries| == |list| == MAX_CAR_NUM
    ensures forall r :: 0 <= r < CountOf(session, p, MAX_CAR_NUM) ==> 0 <= list[r] < MAX_CAR_NUM
  {
    assert |p.entries| == |list| == MAX_CAR_NUM;
    RankListIsInverse(session, p);
    hide CountOf, RanksUpTo, PacketOk, ProperPositions, RankListInverts, Considered;
    forall r: nat | r < CountOf(session, p, MAX_CAR_NUM) ensures 0 <= list[r] < MAX_CAR_NUM {
      CarOfRank(session, p, stale, list, r);
    }
  }

  lemma RanksOkMeans(cars: seq<Car>, list: seq<int>, num: nat)
    requires AllCarsOk(cars) && num <= |list| && forall r :: 0 <= r < num ==> 0 <= list[r] < MAX_CAR_NUM
    ensures RanksOk(cars, list[..num]) <==> AllGaugeable(cars, list, num)
  {
    hide Gaugeable, CarOk;
    var ranks := list[..num];
    assert forall r :: 0 <= r < num ==> ranks[r] == list[r];
    if RanksOk(cars, ranks) {
      forall r | 0 <= r < num ensures Gaugeable(cars[list[r]], r == 0) { assert Gaugeable(cars[ranks[r]], r == 0); }
    }
  }

  // ----- split tables -----

  ghost predicate AllOk(reps: seq<Report>) {
    forall k :: 0 <= k < |reps| ==> reps[k].Ok()
  }

  function LapBefore(reps: seq<Report>): nat {
    if reps == [] then 0 else reps[|reps| - 1].entry.lapNum
  }

  /** The split tables a history of lap reports leaves behind. */
  function Tables(reps: seq<Report>): (laps: seq<Lap>)
    requires AllOk(reps)
    ensures LapsOk(laps)
  {
    if reps == [] then NoCar().laps
    else
      var front := reps[..|reps| - 1];
      Recorded(Tables(front), LapBefore(front), reps[|reps| - 1])
  }

  predicate Hits(r: Report, l: nat, s: nat)
    requires r.Ok()
  {
    r.entry.lapNum == l && r.Cell() == s
  }

  predicate Clears(r: Report, l: nat)
    requires r.Ok()
  {
    r.entry.lapNum == l && r.Clears()
  }

  /** How many reports were seen up to and including the last one that cleared lap l. */
  function Cleared(reps: seq<Report>, l: nat): (k: nat)
    requires AllOk(reps)
    ensures k <= |reps|
    ensures k > 0 ==> Clears(reps[k - 1], l)
    ensures forall j :: k <= j < |reps| ==> !Clears(reps[j], l)
  {
    if reps == [] then 0
    else if Clears(reps[|reps| - 1], l) then |reps|
    else Cleared(reps[..|reps| - 1], l)
  }

  /** The first report from k0 on that shows slice s of lap l with a lap time. */
  function FirstCrossing(reps: seq<Report>, k0: nat, l: nat, s: nat): (m: Option<nat>)
    requires AllOk(reps)
    ensures m.Some? ==> k0 <= m.value < |reps| && Hits(reps[m.value], l, s) && reps[m.value].entry.lapTime != 0
    ensures m.Some? ==> forall j :: k0 <= j < m.value && Hits(reps[j], l, s) ==> reps[j].entry.lapTime == 0
    ensures m.None? ==> forall j :: k0 <= j < |reps| && Hits(reps[j], l, s) ==> reps[j].entry.lapTime == 0
  {
    if |reps| <= k0 then None
    else
      var m := FirstCrossing(reps[..|reps| - 1], k0, l, s);
      var last := reps[|reps| - 1];
      if m.Some? then m
      else if Hits(last, l, s) && last.entry.lapTime != 0 then Some(|reps| - 1)
      else None
  }

  /** The last report from k0 on that shows slice s of lap l. */
  function LastSight(reps: seq<Report>, k0: nat, l: nat, s: nat): (m: Option<nat>)
    requires AllOk(reps)
    ensures m.Some? ==> k0 <= m.value < |reps| && Hits(reps[m.value], l, s)
    ensures m.None? ==> forall j :: k0 <= j < |reps| ==> !Hits(reps[j], l, s)
  {
    if |reps| <= k0 then None
    else if Hits(reps[|reps| - 1], l, s) then Some(|reps| - 1)
    else LastSight(reps[..|reps| - 1], k0, l, s)
  }

  /** The split that should be on record for a slice below the last one. */
  function Split(reps: seq<Report>, l: nat, s: nat): Slice
    requires AllOk(reps)
  {
    var first := FirstCrossing(reps, Cleared(reps, l), l, s);
    var last := LastSight(reps, Cleared(reps, l), l, s);
    if first.Some? then Slice(reps[first.value].entry.lapTime, reps[first.value].sessionTime)
    else if last.Some? then Slice(0, reps[last.value].sessionTime)
    else NO_SLICE
  }

  /** One report's effect on one cell below the last slice. */
  lemma RecordedCell(laps: seq<Lap>, was: nat, r: Report, l: nat, s: nat)
    requires LapsOk(laps) && r.Ok() && l < LAPS && s < NUMSLICE - 1
    ensures var c, c' := laps[l].slice[s], Recorded(laps, was, r)[l].slice[s];
            c' == if Clears(r, l) then NO_SLICE
                  else if Hits(r, l, s) && c.lapTime == 0 then Slice(r.entry.lapTime, r.sessionTime)
                  else c
  {
  }

  /** For every lap and every slice below the last, the split on record is that of the first report
      with a lap time that showed the slice since the lap was last cleared; without one, it is
      (0, session time of the last report that showed the slice). */
  lemma {:induction false} SplitsAreFirstCrossings(reps: seq<Report>, l: nat, s: nat)
    requires AllOk(reps) && l < LAPS && s < NUMSLICE - 1
    ensures Tables(reps)[l].slice[s] == Split(reps, l, s)
  {
    if reps != [] {
      var front, r := reps[..|reps| - 1], reps[|reps| - 1];
      SplitsAreFirstCrossings(front, l, s);
      RecordedCell(Tables(front), LapBefore(front), r, l, s);
    }
  }

  // ----- splits are monotone -----

  /** A lap change seen by report m: it completes lap l. */
  predicate Completes(reps: seq<Report>, m: nat, l: nat)
    requires m < |reps|
  {
    reps[m].entry.lapNum == l + 1 && l >= 1 && LapBefore(reps[..m]) != l + 1
  }

  /** Report m wrote the cell: it showed the slice, or it completed the lap and the slice is the last. */
  ghost predicate Wrote(reps: seq<Report>, m: nat, l: nat, s: nat, c: Slice)
    requires AllOk(reps) && m < |reps|
  {
    || (Hits(reps[m], l, s) && c == Slice(reps[m].entry.lapTime, reps[m].sessionTime))
    || (s == NUMSLICE - 1 && Completes(reps, m, l) && c == Slice(reps[m].entry.lastLapTime, reps[m].sessionTime))
  }

  lemma RecordedOrigin(laps: seq<Lap>, was: nat, r: Report, l: nat, s: nat)
    requires LapsOk(laps) && r.Ok() && l < LAPS && s < NUMSLICE
    ensures var c, c' := laps[l].slice[s], Recorded(laps, was, r)[l].slice[s];
            || c' == c || c' == NO_SLICE
            || (Hits(r, l, s) && c' == Slice(r.entry.lapTime, r.sessionTime))
            || (s == NUMSLICE - 1 && r.entry.lapNum == l + 1 && l >= 1 && was != l + 1
                && c' == Slice(r.entry.lastLapTime, r.sessionTime))
  {
  }

  lemma WroteLater(reps: seq<Report>, n: nat, m: nat, l: nat, s: nat, c: Slice)
    requires AllOk(reps) && m < n <= |reps| && Wrote(reps[..n], m, l, s, c)
    ensures Wrote(reps, m, l, s, c)
  {
    assert reps[..n][..m] == reps[..m];
  }

  /** Every split on record, the last slice included, was written by some report. */
  lemma {:induction false} SplitOrigin(reps: seq<Report>, l: nat, s: nat)
    requires AllOk(reps) && l < LAPS && s < NUMSLICE
    ensures var c := Tables(reps)[l].slice[s];
            c == NO_SLICE || exists m :: 0 <= m < |reps| && Wrote(reps, m, l, s, c)
  {
    if reps != [] {
      var n := |reps| - 1;
      var front, r := reps[..n], reps[n];
      var c, c' := Tables(front)[l].slice[s], Tables(reps)[l].slice[s];
      SplitOrigin(front, l, s);
      RecordedOrigin(Tables(front), LapBefore(front), r, l, s);
      hide Recorded;
      if c' == c && c != NO_SLICE {
        var m :| 0 <= m < n && Wrote(front, m, l, s, c);
        WroteLater(reps, n, m, l, s, c);
      } else if c' != NO_SLICE {
        assert Wrote(reps, n, l, s, c');
      }
    }
  }

  /** Nothing goes backwards: (lap, slice), lap time within a lap, session time; and a completed
      lap's time is at least every running lap time reported in it. */
  ghost predicate Forward(reps: seq<Report>)
    requires AllOk(reps)
  {
    forall i, j :: 0 <= i < j < |reps| ==>
      && reps[i].sessionTime <= reps[j].sessionTime
      && reps[i].entry.lapNum <= reps[j].entry.lapNum
      && (reps[i].entry.lapNum == reps[j].entry.lapNum ==>
            reps[i].Cell() <= reps[j].Cell() && reps[i].entry.lapTime <= reps[j].entry.lapTime)
      && (Completes(reps, j, reps[i].entry.lapNum) ==> reps[i].entry.lapTime <= reps[j].entry.lastLapTime)
  }

  /** In a history that never goes backwards the splits of a lap are monotone in the slice, the
      last slice, filled at the lap change, included. */
  lemma SplitsAreMonotone(reps: seq<Report>, l: nat, s: nat, s': nat)
    requires AllOk(reps) && Forward(reps) && l < LAPS && s < s' < NUMSLICE
    requires Tables(reps)[l].slice[s].lapTime != 0 && Tables(reps)[l].slice[s'].lapTime != 0
    ensures Tables(reps)[l].slice[s].lapTime <= Tables(reps)[l].slice[s'].lapTime
    ensures Tables(reps)[l].slice[s].sessionTime <= Tables(reps)[l].slice[s'].sessionTime
  {
    var c, c' := Tables(reps)[l].slice[s], Tables(reps)[l].slice[s'];
    SplitOrigin(reps, l, s);
    SplitOrigin(reps, l, s');
    hide Tables, Wrote, Forward;
    var m :| 0 <= m < |reps| && Wrote(reps, m, l, s, c);
    var m' :| 0 <= m' < |reps| && Wrote(reps, m', l, s', c');
    WritersInOrder(reps, l, s, s', m, m', c, c');
  }

  lemma WritersInOrder(reps: seq<Report>, l: nat, s: nat, s': nat, m: nat, m': nat, c: Slice, c': Slice)
    requires AllOk(reps) && Forward(reps) && s < s' < NUMSLICE && m < |reps| && m' < |reps|
    requires Wrote(reps, m, l, s, c) && Wrote(reps, m', l, s', c')
    ensures m < m' && c.lapTime <= c'.lapTime && c.sessionTime <= c'.sessionTime
  {
    hide Tables;
    var r, r' := reps[m], reps[m'];
    assert Hits(r, l, s);
    assert m' < m ==> r'.entry.lapNum <= r.entry.lapNum;
    assert m != m';
  }

  // ----- histories of one car -----

  ghost predicate AllOpsOk(ops: seq<CarOp>) {
    forall k :: 0 <= k < |ops| ==> OpOk(ops[k])
  }

  /** The car after the operations, starting from a cleared one. */
  function CarAfter(ops: seq<CarOp>): (car: Car)
    requires AllOpsOk(ops)
    ensures LapsOk(car.laps)
  {
    if ops == [] then NoCar() else Applied(CarAfter(ops[..|ops| - 1]), ops[|ops| - 1])
  }

  function Reports(ops: seq<CarOp>): seq<Report> {
    if ops == [] then []
    else Reports(ops[..|ops| - 1]) + if ops[|ops| - 1].Fill? then [ops[|ops| - 1].r] else []
  }

  lemma OpKeepsTables(car: Car, op: CarOp)
    requires LapsOk(car.laps) && OpOk(op)
    ensures op.Fill? ==> Applied(car, op).laps == Recorded(car.laps, car.entry.lapNum, op.r)
                         && Applied(car, op).entry == op.r.entry
    ensures !op.Fill? ==> Applied(car, op).laps == car.laps && Applied(car, op).entry == car.entry
  {
    hide Recorded;
  }

  lemma TablesStep(reps: seq<Report>, r: Report)
    requires AllOk(reps) && r.Ok()
    ensures AllOk(reps + [r])
    ensures Tables(reps + [r]) == Recorded(Tables(reps), LapBefore(reps), r)
  {
    hide Recorded;
    assert (reps + [r])[..|reps|] == reps;
  }

  /** The split tables depend on the lap reports alone, whatever else happens to the car. */
  lemma {:induction false} TablesOfHistory(ops: seq<CarOp>)
    requires AllOpsOk(ops)
    ensures AllOk(Reports(ops))
    ensures CarAfter(ops).laps == Tables(Reports(ops)) && CarAfter(ops).entry.lapNum == LapBefore(Reports(ops))
  {
    if ops != [] {
      hide Applied, Recorded;
      var front, op := ops[..|ops| - 1], ops[|ops| - 1];
      TablesOfHistory(front);
      OpKeepsTables(CarAfter(front), op);
      if op.Fill? {
        TablesStep(Reports(front), op.r);
        assert Reports(ops) == Reports(front) + [op.r];
      } else {
        assert Reports(ops) == Reports(front);
      }
    }
  }

  // ----- snapshots -----

  /** Everything the car ever pushed: what was drained, then what waits. */
  function Pushed(ops: seq<CarOp>): seq<Snapshot>
    requires AllOpsOk(ops)
  {
    Drained(ops) + CarAfter(ops).buffer
  }

  function Drained(ops: seq<CarOp>): seq<Snapshot>
    requires AllOpsOk(ops)
  {
    if ops == [] then []
    else
      var front := ops[..|ops| - 1];
      if ops[|ops| - 1].Drain? then Drained(front) + CarAfter(front).buffer else Drained(front)
  }

  function Distances(s: seq<Snapshot>): seq<int> {
    seq(|s|, k requires 0 <= k < |s| => s[k].lapDistance)
  }

  /** Whether the last position report put the car anywhere but on an axis. */
  function Located(ops: seq<CarOp>): bool {
    if ops == [] then false
    else match ops[|ops| - 1]
      case Position(x, y, z) => x != 0.0 && y != 0.0 && z != 0.0
      case _ => Located(ops[..|ops| - 1])
  }

  /** A quantised distance the car may react to, and whether a change is also to be pushed. */
  datatype Quantum = Quantum(q: int, push: bool)

  /** The quantised distances of the reports that came with a known position and no flashback. */
  function Eligible(ops: seq<CarOp>): seq<Quantum> {
    if ops == [] then []
    else
      var front, op := ops[..|ops| - 1], ops[|ops| - 1];
      Eligible(front)
      + if op.Fill? && !op.r.flash && Located(front) then [Quantum(op.r.Quantum(), !op.r.formation)] else []
  }

  function LastQuantum(qs: seq<Quantum>): int {
    if qs == [] then 0 else qs[|qs| - 1].q
  }

  /** Adjacent repeats removed, starting from 0; of the rest, those that are to be pushed. */
  function Compressed(qs: seq<Quantum>): seq<int> {
    if qs == [] then []
    else
      var front, last := qs[..|qs| - 1], qs[|qs| - 1];
      Compressed(front) + if last.q != LastQuantum(front) && last.push then [last.q] else []
  }

  ghost predicate RaceHistory(ops: seq<CarOp>) {
    forall k :: 0 <= k < |ops| && ops[k].Fill? ==> ops[k].r.race
  }

  ghost predicate SnapInStep(ops: seq<CarOp>)
    requires AllOpsOk(ops)
  {
    var car := CarAfter(ops);
    && (Known(car.snap) <==> Located(ops))
    && car.snap.lapDistance == LastQuantum(Eligible(ops))
    && Distances(Pushed(ops)) == Compressed(Eligible(ops))
  }

  lemma DistancesAppend(s: seq<Snapshot>, t: Snapshot)
    ensures Distances(s + [t]) == Distances(s) + [t.lapDistance]
  {
  }

  /** What a race report does to the snapshot state. */
  lemma SnappedInRace(car: Car, i: nat, r: Report)
    requires LapsOk(car.laps) && r.Ok() && r.race
    ensures var car' := Filled(car, i, r);
            var eligible := !r.flash && Known(car.snap);
            var changed := eligible && r.Quantum() != car.snap.lapDistance;
            && (Known(car'.snap) <==> Known(car.snap))
            && car'.snap.lapDistance == (if eligible then r.Quantum() else car.snap.lapDistance)
            && car'.buffer == (if changed && !r.formation then car.buffer + [car'.snap] else car.buffer)
  {
    hide Recorded;
  }

  /** What the other operations do to it. */
  lemma OtherOpsSnap(car: Car, op: CarOp)
    requires LapsOk(car.laps) && OpOk(op) && !op.Fill?
    ensures var car' := Applied(car, op);
            && car'.snap.lapDistance == car.snap.lapDistance
            && car'.buffer == (if op.Drain? then [] else car.buffer)
            && (Known(car'.snap) <==>
                  if op.Position? then op.x != 0.0 && op.y != 0.0 && op.z != 0.0 else Known(car.snap))
  {
  }

  lemma FillSnaps(ops: seq<CarOp>)
    requires AllOpsOk(ops) && ops != [] && ops[|ops| - 1].Fill? && ops[|ops| - 1].r.race
    requires SnapInStep(ops[..|ops| - 1])
    ensures SnapInStep(ops)
  {
    hide Filled;
    var front, op := ops[..|ops| - 1], ops[|ops| - 1];
    var car, qs, r := CarAfter(front), Eligible(front), op.r;
    assert CarAfter(ops) == Filled(car, op.i, r);
    SnappedInRace(car, op.i, r);
    if !r.flash && Known(car.snap) {
      var q := Quantum(r.Quantum(), !r.formation);
      assert Eligible(ops) == qs + [q] && (qs + [q])[..|qs|] == qs;
      if r.Quantum() != car.snap.lapDistance && !r.formation {
        DistancesAppend(Pushed(front), CarAfter(ops).snap);
        assert Pushed(ops) == Pushed(front) + [CarAfter(ops).snap];
      } else {
        assert Pushed(ops) == Pushed(front);
      }
    } else {
      assert Eligible(ops) == qs && Pushed(ops) == Pushed(front);
    }
  }

  lemma OthersSnap(ops: seq<CarOp>)
    requires AllOpsOk(ops) && ops != [] && !ops[|ops| - 1].Fill?
    requires SnapInStep(ops[..|ops| - 1])
    ensures SnapInStep(ops)
  {
    hide Applied;
    var front := ops[..|ops| - 1];
    OtherOpsSnap(CarAfter(front), ops[|ops| - 1]);
    assert Pushed(ops) == Pushed(front);
    assert Eligible(ops) == Eligible(front);
  }

  /** In a race the snapshots a car pushes, drained or waiting, are its quantised distances,
      restricted to reports with a known position and no flashback, with adjacent repeats removed
      starting from 0; a formation lap only moves the starting point. */
  lemma {:induction false} SnapshotsAreCompressed(ops: seq<CarOp>)
    requires AllOpsOk(ops) && RaceHistory(ops)
    ensures Distances(Pushed(ops)) == Compressed(Eligible(ops))
    ensures SnapInStep(ops)
  {
    if ops != [] {
      hide Applied;
      SnapshotsAreCompressed(ops[..|ops| - 1]);
      if ops[|ops| - 1].Fill? { FillSnaps(ops); } else { OthersSnap(ops); }
    }
  }

  /** Outside a formation lap the pushed distances never repeat and never start at 0. */
  lemma {:induction false} CompressionIsStutterFree(qs: seq<Quantum>)
    requires forall k :: 0 <= k < |qs| ==> qs[k].push
    ensures var c := Compressed(qs);
            && (c != [] ==> c[0] != 0)
            && (forall k :: 0 < k < |c| ==> c[k - 1] != c[k])
            && LastQuantum(qs) == if c == [] then 0 else c[|c| - 1]
  {
    if qs != [] {
      CompressionIsStutterFree(qs[..|qs| - 1]);
    }
  }

  lemma QuantumOnGrid(d: real, trackLength: nat)
    ensures Quantised(d, trackLength) % LAP_PREC == 0
  {
  }

  /** The remembered distance is always a multiple of LAP_PREC, in every kind of session. */
  lemma {:induction false} LapDistanceOnGrid(ops: seq<CarOp>)
    requires AllOpsOk(ops)
    ensures CarAfter(ops).snap.lapDistance % LAP_PREC == 0
  {
    if ops != [] {
      hide Recorded, Quantised;
      LapDistanceOnGrid(ops[..|ops| - 1]);
      if ops[|ops| - 1].Fill? {
        QuantumOnGrid(ops[|ops| - 1].r.entry.distance, ops[|ops| - 1].r.trackLength);
      }
    }
  }

  // ----- gaps -----

  /** Time between neighbouring ranks r - 1 and r at a split. */
  function Step(cars: seq<Car>, ranks: seq<int>, r: nat, lap: int, slice: int): real
    requires RanksOk(cars, ranks) && 0 < r < |ranks| && 0 <= lap < LAPS && 0 <= slice < NUMSLICE
  {
    RawGap(cars[ranks[r]], cars[ranks[r - 1]], lap, slice)
  }

  function SumOfSteps(cars: seq<Car>, ranks: seq<int>, r: nat, lap: int, slice: int): real
    requires RanksOk(cars, ranks) && r < |ranks| && 0 <= lap < LAPS && 0 <= slice < NUMSLICE
  {
    if r == 0 then 0.0 else SumOfSteps(cars, ranks, r - 1, lap, slice) + Step(cars, ranks, r, lap, slice)
  }

  /** The unclamped gap to the leader is the sum of the gaps between neighbouring ranks. */
  lemma {:induction false} LeaderGapTelescopes(cars: seq<Car>, ranks: seq<int>, r: nat, lap: int, slice: int)
    requires RanksOk(cars, ranks) && r < |ranks| && 0 <= lap < LAPS && 0 <= slice < NUMSLICE
    ensures RawGap(cars[ranks[r]], cars[ranks[0]], lap, slice) == SumOfSteps(cars, ranks, r, lap, slice)
  {
    if r > 0 { LeaderGapTelescopes(cars, ranks, r - 1, lap, slice); }
  }

  lemma {:induction false} StepsNotNegative(cars: seq<Car>, ranks: seq<int>, r: nat, lap: int, slice: int)
    requires RanksOk(cars, ranks) && r < |ranks| && 0 <= lap < LAPS && 0 <= slice < NUMSLICE
    requires forall k :: 0 < k <= r ==> Step(cars, ranks, k, lap, slice) >= 0.0
    ensures SumOfSteps(cars, ranks, r, lap, slice) >= 0.0
  {
    if r > 0 { StepsNotNegative(cars, ranks, r - 1, lap, slice); }
  }

  /** When the cars up to rank r crossed the compared split in rank order, the clamp does nothing:
      the gap to the leader is the sum of the neighbouring gaps, the gap to the front is the last
      of them, and leader >= front >= 0. */
  lemma GapsAreCrossingDifferences(cars: seq<Car>, ranks: seq<int>, r: nat)
    requires RanksOk(cars, ranks) && 0 < r < |ranks|
    requires var (lap, slice) := CompareAt(cars[ranks[r]]);
             forall k :: 0 < k <= r ==> Step(cars, ranks, k, lap, slice) >= 0.0
    ensures var (lap, slice) := CompareAt(cars[ranks[r]]);
            var g := GapsOf(cars, ranks, r);
            && g.leader == SumOfSteps(cars, ranks, r, lap, slice)
            && g.front == Step(cars, ranks, r, lap, slice)
            && g.leader >= g.front >= 0.0
            && g.leaderJit == g.leader && g.frontJit == g.front
  {
    hide GapsOf, OwnGaps, CompareAt, RawGap, RanksOk;
    CompareInTable(cars, ranks, r);
    var (lap, slice) := CompareAt(cars[ranks[r]]);
    LeaderGapTelescopes(cars, ranks, r, lap, slice);
    StepsNotNegative(cars, ranks, r - 1, lap, slice);
    ClampIdle(cars, ranks, r, lap, slice);
  }

  lemma CompareInTable(cars: seq<Car>, ranks: seq<int>, r: nat)
    requires RanksOk(cars, ranks) && 0 < r < |ranks|
    ensures 0 <= ranks[r] < |cars|
    ensures var (lap, slice) := CompareAt(cars[ranks[r]]); 0 <= lap < LAPS && 0 <= slice < NUMSLICE
  {
    assert Gaugeable(cars[ranks[r]], false) && CarOk(cars[ranks[r]]);
  }

  lemma ClampIdle(cars: seq<Car>, ranks: seq<int>, r: nat, lap: int, slice: int)
    requires RanksOk(cars, ranks) && 0 < r < |ranks| && (lap, slice) == CompareAt(cars[ranks[r]])
    requires 0 <= lap < LAPS && 0 <= slice < NUMSLICE
    requires RawGap(cars[ranks[r]], cars[ranks[0]], lap, slice) >= 0.0 && Step(cars, ranks, r, lap, slice) >= 0.0
    ensures var g := GapsOf(cars, ranks, r);
            && g.leader == g.leaderJit == RawGap(cars[ranks[r]], cars[ranks[0]], lap, slice)
            && g.front == g.frontJit == Step(cars, ranks, r, lap, slice)
  {
    hide OwnGaps, CompareAt, RawGap;
  }

  /** On lap 1 a car that never showed the split NUMSLICE / 20 has both gaps 0, whatever the cars
      before it did, as long as session times are not negative. */
  lemma NoGapBeforeFirstSplit(cars: seq<Car>, ranks: seq<int>, r: nat, ops: seq<CarOp>)
    requires RanksOk(cars, ranks) && 0 < r < |ranks| && AllOpsOk(ops)
    requires cars[ranks[r]].entry.lapNum == 1 && cars[ranks[r]].sliceIndex <= NUMSLICE / 20
    requires cars[ranks[r]].laps == CarAfter(ops).laps
    requires forall k :: 0 <= k < |ops| && ops[k].Fill? ==> !Hits(ops[k].r, 1, NUMSLICE / 20)
    requires forall k :: 0 <= k < r ==> SplitTime(cars[ranks[k]], 1, NUMSLICE / 20) >= 0.0
    ensures GapsOf(cars, ranks, r) == NO_GAPS
  {
    hide CarAfter, Hits, AllOpsOk, JitGap, OwnGaps;
    CellMissed(ops, 1, NUMSLICE / 20);
    NoOwnGapsOnLapOne(cars[ranks[r]]);
    assert SplitTime(cars[ranks[r]], 1, NUMSLICE / 20) == 0.0;
  }

  lemma NoOwnGapsOnLapOne(car: Car)
    requires CarOk(car) && car.entry.lapNum == 1
    ensures OwnGaps(car) == NO_GAPS
  {
  }

  lemma CellMissed(ops: seq<CarOp>, l: nat, s: nat)
    requires AllOpsOk(ops) && l < LAPS && s < NUMSLICE - 1
    requires forall k :: 0 <= k < |ops| && ops[k].Fill? ==> !Hits(ops[k].r, l, s)
    ensures CarAfter(ops).laps[l].slice[s] == NO_SLICE
  {
    TablesOfHistory(ops);
    ReportsMiss(ops, l, s);
    SplitsAreFirstCrossings(Reports(ops), l, s);
    hide Tables, CarAfter, Reports;
  }

  lemma CellCrossed(ops: seq<CarOp>, l: nat, s: nat)
    requires AllOpsOk(ops) && AllOk(Reports(ops)) && l < LAPS && s < NUMSLICE - 1
    requires FirstCrossing(Reports(ops), Cleared(Reports(ops), l), l, s).Some?
    ensures var first := Reports(ops)[FirstCrossing(Reports(ops), Cleared(Reports(ops), l), l, s).value];
            CarAfter(ops).laps[l].slice[s] == Slice(first.entry.lapTime, first.sessionTime)
  {
    TablesOfHistory(ops);
    SplitsAreFirstCrossings(Reports(ops), l, s);
    hide Tables, CarAfter, Reports, FirstCrossing, Cleared;
  }

  lemma {:induction false} ReportsMiss(ops: seq<CarOp>, l: nat, s: nat)
    requires AllOpsOk(ops) && AllOk(Reports(ops))
    requires forall k :: 0 <= k < |ops| && ops[k].Fill? ==> !Hits(ops[k].r, l, s)
    ensures forall k :: 0 <= k < |Reports(ops)| ==> !Hits(Reports(ops)[k], l, s)
  {
    if ops != [] {
      var front := ops[..|ops| - 1];
      assert forall k :: 0 <= k < |Reports(front)| ==> Reports(front)[k] == Reports(ops)[k];
      ReportsMiss(front, l, s);
    }
  }

  /** The gap of two cars at a split below the last is the difference of the session times of the
      two reports that first crossed it. */
  lemma GapIsTimeBetweenCrossings(own: seq<CarOp>, other: seq<CarOp>, l: nat, s: nat)
    requires AllOpsOk(own) && AllOpsOk(other) && l < LAPS && s < NUMSLICE - 1
    requires AllOk(Reports(own)) && AllOk(Reports(other))
    requires FirstCrossing(Reports(own), Cleared(Reports(own), l), l, s).Some?
    requires FirstCrossing(Reports(other), Cleared(Reports(other), l), l, s).Some?
    ensures RawGap(CarAfter(own), CarAfter(other), l, s)
         == Reports(own)[FirstCrossing(Reports(own), Cleared(Reports(own), l), l, s).value].sessionTime
          - Reports(other)[FirstCrossing(Reports(other), Cleared(Reports(other), l), l, s).value].sessionTime
  {
    hide CarAfter, Reports, FirstCrossing, Cleared;
    CellCrossed(own, l, s);
    CellCrossed(other, l, s);
  }

  /** Measured against a completed lap, the running gap is the difference of the lap times of the two
      reports that first crossed the slice, in seconds. */
  lemma JitGapIsLapTimeDifference(own: seq<CarOp>, l: nat, other: seq<CarOp>, k: nat, s: nat)
    requires AllOpsOk(own) && AllOpsOk(other) && l < LAPS && k < LAPS && s < NUMSLICE - 1
    requires AllOk(Reports(own)) && AllOk(Reports(other))
    requires CarAfter(other).laps[k].slice[NUMSLICE - 1].lapTime != 0
    requires FirstCrossing(Reports(own), Cleared(Reports(own), l), l, s).Some?
    requires FirstCrossing(Reports(other), Cleared(Reports(other), k), k, s).Some?
    ensures JitGap(CarAfter(own), l, CarAfter(other), k, s)
         == Seconds(Reports(own)[FirstCrossing(Reports(own), Cleared(Reports(own), l), l, s).value].entry.lapTime
                  - Reports(other)[FirstCrossing(Reports(other), Cleared(Reports(other), k), k, s).value].entry.lapTime)
  {
    hide CarAfter, Reports, FirstCrossing, Cleared;
    CellCrossed(own, l, s);
    CellCrossed(other, k, s);
  }

  // ----- gaps outside a race -----

  function SumOfFrontGaps(cars: seq<Car>, ranks: seq<int>, r: nat): real
    requires LapRanksOk(cars, ranks) && r < |ranks| && forall k :: 0 <= k <= r ==> ranks[k] >= 0
  {
    if r == 0 then 0.0 else SumOfFrontGaps(cars, ranks, r - 1) + LapGapsOf(cars, ranks, r).front
  }

  /** Outside a race, once the first cars all have a best lap, the gap to the leader is the sum of the
      gaps to the car in front. */
  lemma {:induction false} BestGapsTelescope(cars: seq<Car>, ranks: seq<int>, r: nat)
    requires LapRanksOk(cars, ranks) && r < |ranks| && forall k :: 0 <= k <= r ==> ranks[k] >= 0
    requires forall k :: 0 <= k <= r ==> cars[ranks[k]].bestLapTime > 0
    ensures LapGapsOf(cars, ranks, r).leader == SumOfFrontGaps(cars, ranks, r)
  {
    hide JitGap;
    if r > 0 { BestGapsTelescope(cars, ranks, r - 1); }
  }
}
