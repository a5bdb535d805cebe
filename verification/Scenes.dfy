/** The scene lists of `AllCarInfo` and the timed camera of `FocusCar`. */
module Scenes {
  import opened Options
  import opened Cars

  // enum Scenes
  const IN_GARAGE := 0
  const FLY_LAP := 1
  const NOT_FLY_LAP := 2
  const OUT_LAP := 3
  const IN_LAP := 4
  const ON_TRACK := 5
  const FORMATION_LAP_SCENE := 6
  const STANDING_START := 7
  const BATTLE_IN_02 := 8
  const BATTLE_IN_05 := 9
  const BATTLE_IN_1 := 10
  const BATTLE_IN_2 := 11
  const BATTLE_IN_3 := 12
  const YELLOW_FLAG := 13
  const GREEN_FLAG := 14
  const BLUE_FLAG := 15
  const RED_FLAG := 16
  const DRS_APPROVING := 17
  const DRS_ACTIVING := 18
  const BOX := 19
  const BOX_IS_IN := 20
  const BOX_IS_OUT := 21
  const RANDOM := 22
  const LAST_LAP := 23
  const CHEQUERED_FLAG := 24
  const ACTIVE := 25
  const LAST := 26

  type Scene = s: nat | s <= LAST

  /** One list per scene; LAST has none. */
  type Lists = seq<seq<nat>>

  predicate Full(lists: Lists) {
    |lists| == LAST
  }

  function NoLists(): (lists: Lists)
    ensures Full(lists)
    ensures forall s :: 0 <= s < LAST ==> lists[s] == []
  {
    seq(LAST, _ => [])
  }

  // ----- what puts a car on a list in a race -----

  const ACTIVE_STATUS := 2       // ResultStatus
  const GREEN := 1               // VehicleFiaFlags
  const BLUE := 2
  const YELLOW := 3
  const RED := 4

  /** What the loop of PickForRace knows besides the cars: the leader's lap and the race distance. */
  datatype Phase = Phase(leaderLap: nat, totalLaps: nat)
  {
    predicate Final() { leaderLap >= totalLaps }
  }

  predicate IsActive(c: Car) {
    c.entry.resultStatus == ACTIVE_STATUS
  }

  /** Position of the first active car among the first n ranks; 0 without one. */
  function LeadPosition(ranked: seq<Car>, n: nat): nat
    requires n <= |ranked|
  {
    if n == 0 then 0
    else if exists k :: 0 <= k < n - 1 && IsActive(ranked[k]) then LeadPosition(ranked, n - 1)
    else if IsActive(ranked[n - 1]) then ranked[n - 1].entry.position
    else 0
  }

  /** Whether PickForRace puts the car of rank i on list s. */
  predicate Qualifies(ranked: seq<Car>, i: nat, ph: Phase, s: Scene)
    requires i < |ranked|
  {
    var c := ranked[i];
    var battling := i > 0 && c.entry.pitStatus == 0;
    var inPit := c.entry.pitStatus != 0 && c.entry.pitLaneTime != 0;
    IsActive(c) &&
    match s
    case ACTIVE => true
    case BATTLE_IN_02 => battling && c.gaps.front <= 0.2
    case BATTLE_IN_05 => battling && 0.2 < c.gaps.front <= 0.5
    case BATTLE_IN_1 => battling && 0.5 < c.gaps.front <= 1.0
    case BATTLE_IN_2 => battling && 1.0 < c.gaps.front <= 2.0
    case BATTLE_IN_3 => battling && 2.0 < c.gaps.front <= 3.0
    case YELLOW_FLAG => c.vehicleFiaFlags == YELLOW
    case GREEN_FLAG => c.vehicleFiaFlags == GREEN
    case BLUE_FLAG => c.vehicleFiaFlags == BLUE
    case RED_FLAG => c.vehicleFiaFlags == RED
    case DRS_APPROVING => c.drsActivationDistance != 0
    case DRS_ACTIVING => c.drs != 0
    case BOX => inPit
    case BOX_IS_IN => inPit && c.entry.pitLaneTime < 3 * 1000
    case BOX_IS_OUT => inPit && c.entry.pitLaneTime > 22 * 1000
    case LAST_LAP => ph.Final()
    case CHEQUERED_FLAG =>
      ph.Final() && c.entry.position == LeadPosition(ranked, i + 1) && c.sliceIndex > NUMSLICE - NUMSLICE / 3
    case _ => false
  }

  /** The ranks on list s among the first n, in rank order. */
  function Picks(ranked: seq<Car>, n: nat, ph: Phase, s: Scene): seq<nat>
    requires n <= |ranked|
  {
    if n == 0 then []
    else Picks(ranked, n - 1, ph, s) + if Qualifies(ranked, n - 1, ph, s) then [n - 1] else []
  }

  /** The list is exactly the qualifying ranks, each once, in rank order. */
  lemma {:induction false} PicksExactly(ranked: seq<Car>, n: nat, ph: Phase, s: Scene)
    requires n <= |ranked|
    ensures var p := Picks(ranked, n, ph, s);
            && (forall i: nat :: i in p <==> i < n && Qualifies(ranked, i, ph, s))
            && (forall a, b :: 0 <= a < b < |p| ==> p[a] < p[b])
  {
    hide Qualifies;
    if n > 0 {
      PicksExactly(ranked, n - 1, ph, s);
      var p := Picks(ranked, n - 1, ph, s);
      assert forall a :: 0 <= a < |p| ==> p[a] in p;
    }
  }

  // ----- sorting -----

  /** The comparators handed to std::sort. */
  datatype Order = ByFrontGap | ByDrsDistance | ByPitTimeDescending | ByLapDistanceDescending

  function Key(o: Order, c: Car): real {
    match o
    case ByFrontGap => c.gaps.front
    case ByDrsDistance => c.drsActivationDistance as real
    case ByPitTimeDescending => -(c.entry.pitLaneTime as real)
    case ByLapDistanceDescending => -c.entry.distance
  }

  ghost predicate Ordered(ranked: seq<Car>, list: seq<nat>, o: Order) {
    && (forall k :: 0 <= k < |list| ==> list[k] < |ranked|)
    && (forall a, b :: 0 <= a < b < |list| ==> Key(o, ranked[list[a]]) <= Key(o, ranked[list[b]]))
  }

  ghost predicate SortOf(ranked: seq<Car>, list: seq<nat>, was: seq<nat>, o: Order) {
    Ordered(ranked, list, o) && multiset(list) == multiset(was)
  }

  method Insert(ranked: seq<Car>, list: seq<nat>, x: nat, o: Order) returns (longer: seq<nat>)
    requires Ordered(ranked, list, o) && x < |ranked|
    ensures Ordered(ranked, longer, o) && multiset(longer) == multiset(list + [x])
  {
    var k := |list|;
    while k > 0 && Key(o, ranked[x]) < Key(o, ranked[list[k - 1]])
      invariant 0 <= k <= |list|
      invariant forall b :: k <= b < |list| ==> Key(o, ranked[x]) < Key(o, ranked[list[b]])
    {
      k := k - 1;
    }
    longer := list[..k] + [x] + list[k..];
    assert k > 0 ==> Key(o, ranked[list[k - 1]]) <= Key(o, ranked[x]);
    InsertedSame(list, x, k);
    InsertedOrdered(ranked, list, x, k, o);
  }

  lemma InsertedSame(list: seq<nat>, x: nat, k: nat)
    requires k <= |list|
    ensures multiset(list[..k] + [x] + list[k..]) == multiset(list + [x])
  {
    assert list == list[..k] + list[k..];
  }

  lemma InsertedOrdered(ranked: seq<Car>, list: seq<nat>, x: nat, k: nat, o: Order)
    requires Ordered(ranked, list, o) && x < |ranked| && k <= |list|
    requires k > 0 ==> Key(o, ranked[list[k - 1]]) <= Key(o, ranked[x])
    requires forall b :: k <= b < |list| ==> Key(o, ranked[x]) < Key(o, ranked[list[b]])
    ensures Ordered(ranked, list[..k] + [x] + list[k..], o)
  {
    var longer := list[..k] + [x] + list[k..];
    forall a, b | 0 <= a < b < |longer| ensures Key(o, ranked[longer[a]]) <= Key(o, ranked[longer[b]]) {
      assert a < k ==> longer[a] == list[a] && (k > 0 ==> Key(o, ranked[list[a]]) <= Key(o, ranked[list[k - 1]]));
      assert b > k ==> longer[b] == list[b - 1];
    }
  }

  /** Any sort with std::sort's contract; callers rely on the contract alone. */
  method Sort(ranked: seq<Car>, was: seq<nat>, o: Order) returns (list: seq<nat>)
    requires InRange(was, |ranked|)
    ensures SortOf(ranked, list, was, o)
  {
    list := [];
    for i := 0 to |was|
      invariant SortOf(ranked, list, was[..i], o)
    {
      assert was[..i + 1] == was[..i] + [was[i]];
      list := Insert(ranked, list, was[i], o);
    }
    assert was[..|was|] == was;
  }

  // ----- the camera -----

  datatype Focus = Focus(cur: Option<nat>, scene: Scene, end: nat)

  const NO_FOCUS := Focus(None, LAST, 0)

  predicate CanSwitch(f: Focus, now: nat) {
    f.cur.None? || now >= f.end
  }

  function Switched(f: Focus, car: Option<nat>, scene: Scene, extra: nat, now: nat): Focus {
    Focus(if car.Some? then car else f.cur, scene, now + extra)
  }

  /** The priority table of the race: 17 entries, and the zero-initialised eighteenth. */
  function RacePriority(): (table: seq<(Scene, nat)>)
    ensures |table| == 18 && forall j :: 0 <= j < 18 ==> table[j].0 != LAST
    ensures table[16] == (RANDOM, 5) && table[17] == (IN_GARAGE, 0)
  {
    [(FORMATION_LAP_SCENE, 8), (STANDING_START, 6), (CHEQUERED_FLAG, 2), (BOX_IS_OUT, 8), (BOX_IS_IN, 3),
     (BATTLE_IN_02, 8), (RED_FLAG, 6), (YELLOW_FLAG, 6), (GREEN_FLAG, 3), (BLUE_FLAG, 6), (DRS_ACTIVING, 4),
     (DRS_APPROVING, 4), (BATTLE_IN_1, 5), (BATTLE_IN_2, 4), (BOX, 5), (LAST_LAP, 4), (RANDOM, 5), (IN_GARAGE, 0)]
  }

  function LapPriority(): (table: seq<(Scene, nat)>)
    ensures |table| == 5 && forall j :: 0 <= j < 5 ==> table[j].0 != LAST
  {
    [(FLY_LAP, 1), (OUT_LAP, 1), (NOT_FLY_LAP, 1), (IN_LAP, 1), (IN_GARAGE, 1)]
  }

  /** The first entry whose list is not empty, or the length of the table. */
  function FirstShown(lists: Lists, table: seq<(Scene, nat)>): (k: nat)
    requires Full(lists) && forall j :: 0 <= j < |table| ==> table[j].0 != LAST
    ensures k <= |table|
    ensures k < |table| ==> lists[table[k].0] != []
    ensures forall j :: 0 <= j < k ==> lists[table[j].0] == []
  {
    if table == [] then 0
    else if lists[table[0].0] != [] then 0
    else
      var k := FirstShown(lists, table[1..]);
      assert forall j :: 0 < j < |table| ==> table[j] == table[1..][j - 1];
      k + 1
  }

  /** The race scene that is shown, as an index of the table. */
  function TopScene(lists: Lists): (k: nat)
    requires Full(lists)
    ensures k <= |RacePriority()|
    ensures k < |RacePriority()| ==> lists[RacePriority()[k].0] != []
    ensures forall j :: 0 <= j < k ==> lists[RacePriority()[j].0] == []
  {
    FirstShown(lists, RacePriority())
  }

  /** `cars` gives the car of each rank: lists hold ranks, the camera holds cars. */
  function RaceFocus(f: Focus, lists: Lists, cars: seq<nat>, now: nat, later: nat): Focus
    requires Full(lists) && ListsInRange(lists, |cars|)
  {
    var k := TopScene(lists);
    if !CanSwitch(f, now) || k == |RacePriority()| then f
    else Switched(f, Some(cars[lists[RacePriority()[k].0][0]]), RacePriority()[k].0, RacePriority()[k].1, later)
  }

  function LapFocus(f: Focus, lists: Lists, cars: seq<nat>, now: nat, later: nat): Focus
    requires Full(lists) && ListsInRange(lists, |cars|)
  {
    var k := FirstShown(lists, LapPriority());
    if !CanSwitch(f, now) || k == |LapPriority()| then f
    else
      var head := cars[lists[LapPriority()[k].0][0]];
      if f.cur.Some? && f.scene == FLY_LAP && f.cur != Some(head) then Switched(f, None, NOT_FLY_LAP, 2, later)
      else Switched(f, Some(head), LapPriority()[k].0, 1, later)
  }

  predicate ListsInRange(lists: Lists, n: nat) {
    forall s :: 0 <= s < |lists| ==> InRange(lists[s], n)
  }

  predicate InRange(list: seq<nat>, n: nat) {
    forall k :: 0 <= k < |list| ==> list[k] < n
  }

  class FocusCar {
    var cur: Option<nat>
    var scene: Scene
    var endUnixTime: nat

    function View(): Focus
      reads this
    {
      Focus(cur, scene, endUnixTime)
    }

    constructor ()
      ensures View() == NO_FOCUS
    {
      cur, scene, endUnixTime := None, LAST, 0;
    }

    method Init()
      modifies this
      ensures View() == NO_FOCUS
    {
      cur, scene, endUnixTime := None, LAST, 0;
    }

    method SwitchCar(car: Option<nat>, s: Scene, extra: nat, now: nat)
      modifies this
      ensures View() == Switched(old(View()), car, s, extra, now)
    {
      scene := s;
      if car.Some? {
        cur := car;
      }
      endUnixTime := now + extra;
    }

    predicate MaySwitch(now: nat)
      reads this
    {
      cur.None? || now >= endUnixTime
    }

    predicate IsFlyLapSwitching(car: nat)
      reads this
    {
      cur.Some? && scene == FLY_LAP && cur != Some(car)
    }
  }

  /** What a race's lists are once PickForRace has sorted them. */
  ghost predicate RaceLists(lists: Lists, ranked: seq<Car>, ph: Phase, formation: bool, leaderSlice: int,
                            first: nat, second: nat)
  {
    var n := |ranked|;
    && Full(lists) && ListsInRange(lists, n)
    && (forall s: Scene :: s != LAST && !Derived(s) ==> lists[s] == Picks(ranked, n, ph, s))
    && SortOf(ranked, lists[DRS_ACTIVING], Picks(ranked, n, ph, DRS_ACTIVING), ByFrontGap)
    && SortOf(ranked, lists[DRS_APPROVING], Picks(ranked, n, ph, DRS_APPROVING), ByDrsDistance)
    && SortOf(ranked, lists[BOX], Picks(ranked, n, ph, BOX), ByPitTimeDescending)
    && SortOf(ranked, lists[BOX_IS_IN], Picks(ranked, n, ph, BOX_IS_IN), ByPitTimeDescending)
    && SortOf(ranked, lists[BOX_IS_OUT], Picks(ranked, n, ph, BOX_IS_OUT), ByPitTimeDescending)
    && Draws(lists, ph, formation, leaderSlice, first, second)
  }

  /** The lists filled by drawing from the active cars. */
  predicate Draws(lists: Lists, ph: Phase, formation: bool, leaderSlice: int, first: nat, second: nat)
    requires Full(lists)
  {
    var active := lists[ACTIVE];
    && lists[FORMATION_LAP_SCENE] == (if ph.leaderLap == 1 && formation then Drawn(active, first) else [])
    && lists[STANDING_START] == (if ph.leaderLap == 1 && !formation && leaderSlice < NUMSLICE / 3
                                 then Drawn(active, first) else [])
    && lists[RANDOM] == Drawn(active, second)
  }

  predicate Derived(s: Scene) {
    || s == FORMATION_LAP_SCENE || s == STANDING_START || s == RANDOM
    || s == DRS_ACTIVING || s == DRS_APPROVING || s == BOX || s == BOX_IS_IN || s == BOX_IS_OUT
  }

  /** `Random`: the drawn number modulo the size of the list, nothing from an empty list. */
  function Drawn(list: seq<nat>, draw: nat): seq<nat> {
    if list == [] then [] else [list[draw % |list|]]
  }

  /** The scene members of AllCarInfo. They read the cars, given here in rank order. */
  class Director {
    var scenes: Lists
    const focus: FocusCar

    ghost predicate Valid()
      reads this
    {
      Full(scenes)
    }

    constructor ()
      ensures Valid() && fresh(focus) && focus.View() == NO_FOCUS && scenes == NoLists()
    {
      scenes := NoLists();
      focus := new FocusCar();
    }

    /** What AllCarInfo::init clears of the scenes and the camera. */
    method Init()
      requires Valid()
      modifies this, focus
      ensures Valid() && scenes == NoLists() && focus.View() == NO_FOCUS
    {
      focus.Init();
      scenes := NoLists();
    }

    method ScenesPush(s: Scene, rank: nat)
      requires Valid() && s != LAST
      modifies this
      ensures Valid() && scenes == old(scenes)[s := old(scenes)[s] + [rank]]
    {
      scenes := scenes[s := scenes[s] + [rank]];
    }

    method PushBattle(c: Car, i: nat)
      requires Valid()
      modifies this
      ensures Valid() && scenes == PushOpt(old(scenes), BattleScene(c, i), i)
    {
      if i > 0 && c.entry.pitStatus == 0 {
        if c.gaps.front <= 0.2 {
          ScenesPush(BATTLE_IN_02, i);
        } else if c.gaps.front <= 0.5 {
          ScenesPush(BATTLE_IN_05, i);
        } else if c.gaps.front <= 1.0 {
          ScenesPush(BATTLE_IN_1, i);
        } else if c.gaps.front <= 2.0 {
          ScenesPush(BATTLE_IN_2, i);
        } else if c.gaps.front <= 3.0 {
          ScenesPush(BATTLE_IN_3, i);
        }
      }
    }

    method PushFlag(c: Car, i: nat)
      requires Valid()
      modifies this
      ensures Valid() && scenes == PushOpt(old(scenes), FlagScene(c), i)
    {
      if c.vehicleFiaFlags == YELLOW {
        ScenesPush(YELLOW_FLAG, i);
      } else if c.vehicleFiaFlags == GREEN {
        ScenesPush(GREEN_FLAG, i);
      } else if c.vehicleFiaFlags == BLUE {
        ScenesPush(BLUE_FLAG, i);
      } else if c.vehicleFiaFlags == RED {
        ScenesPush(RED_FLAG, i);
      }
    }

    method PushPit(c: Car, i: nat)
      requires Valid()
      modifies this
      ensures Valid() && scenes == PushOpt(PushIf(old(scenes), BOX, InPit(c), i), PitScene(c), i)
    {
      if c.entry.pitStatus != 0 && c.entry.pitLaneTime != 0 {
        ScenesPush(BOX, i);
        if c.entry.pitLaneTime < 3 * 1000 {
          ScenesPush(BOX_IS_IN, i);
        } else if c.entry.pitLaneTime > 22 * 1000 {
          ScenesPush(BOX_IS_OUT, i);
        }
      }
    }

    /** The loop body of PickForRace. */
    method ClassifyRank(ranked: seq<Car>, i: nat, ph: Phase)
      requires Valid() && i < |ranked| && ListsInRange(scenes, |ranked|)
      modifies this
      ensures Valid() && scenes == Classified(old(scenes), ranked, i, ph)
    {
      var c := ranked[i];
      if c.entry.resultStatus != ACTIVE_STATUS {
        return;
      }
      ScenesPush(ACTIVE, i);
      assert scenes == PushIf(old(scenes), ACTIVE, true, i);
      hide PushIf, PushOpt, BattleScene, FlagScene, PitScene, Chequered;
      ghost var was := scenes;
      assert scenes[ACTIVE][0] < |ranked|;
      PushBattle(c, i);
      PushFlag(c, i);
      PushDrs(c, i);
      PushPit(c, i);
      assert scenes[ACTIVE][0] == was[ACTIVE][0];
      PushFinal(ranked, i, ph);
    }

    method PushDrs(c: Car, i: nat)
      requires Valid()
      modifies this
      ensures Valid()
      ensures scenes == PushIf(PushIf(old(scenes), DRS_APPROVING, c.drsActivationDistance != 0, i),
                               DRS_ACTIVING, c.drs != 0, i)
    {
      if c.drsActivationDistance != 0 {
        ScenesPush(DRS_APPROVING, i);
      }
      if c.drs != 0 {
        ScenesPush(DRS_ACTIVING, i);
      }
    }

    method PushFinal(ranked: seq<Car>, i: nat, ph: Phase)
      requires Valid() && i < |ranked| && scenes[ACTIVE] != [] && scenes[ACTIVE][0] < |ranked|
      modifies this
      ensures Valid()
      ensures scenes == PushIf(PushIf(old(scenes), LAST_LAP, ph.Final(), i), CHEQUERED_FLAG,
                               Chequered(ranked, i, old(scenes[ACTIVE][0]), ph), i)
    {
      var c := ranked[i];
      if ph.leaderLap >= ph.totalLaps {
        ScenesPush(LAST_LAP, i);
        if c.entry.position == ranked[scenes[ACTIVE][0]].entry.position && c.sliceIndex > NUMSLICE - NUMSLICE / 3 {
          ScenesPush(CHEQUERED_FLAG, i);
        }
      }
    }

    method ScenesSort(ranked: seq<Car>, s: Scene, o: Order)
      requires Valid() && s != LAST && ListsInRange(scenes, |ranked|)
      modifies this
      ensures Valid() && ListsInRange(scenes, |ranked|) && scenes == old(scenes)[s := scenes[s]]
      ensures SortOf(ranked, scenes[s], old(scenes[s]), o)
    {
      var list := Sort(ranked, scenes[s], o);
      scenes := scenes[s := list];
    }

    method PushDrawn(s: Scene, draw: nat)
      requires Valid() && s != LAST
      modifies this
      ensures Valid() && scenes == old(scenes)[s := old(scenes[s]) + Drawn(old(scenes[ACTIVE]), draw)]
    {
      if scenes[ACTIVE] != [] {
        ScenesPush(s, scenes[ACTIVE][draw % |scenes[ACTIVE]|]);
      } else {
        assert scenes[s] + [] == scenes[s];
      }
    }

    /** The loop of PickForRace over the ranks. */
    method ClassifyRanks(ranked: seq<Car>, ph: Phase)
      requires Valid()
      modifies this
      ensures Valid() && forall s: Scene :: s != LAST ==> scenes[s] == Picks(ranked, |ranked|, ph, s)
    {
      scenes := NoLists();
      for i := 0 to |ranked|
        invariant Valid() && AllPicks(scenes, ranked, i, ph)
      {
        PicksInRange(scenes, ranked, i, ph);
        ClassifiedAdds(scenes, ranked, i, ph);
        ClassifyRank(ranked, i, ph);
      }
    }

    /** The random picks that follow the loop. */
    method PushDrawns(ph: Phase, formation: bool, leaderSlice: int, first: nat, second: nat)
      requires Valid() && scenes[FORMATION_LAP_SCENE] == scenes[STANDING_START] == scenes[RANDOM] == []
      modifies this
      ensures Valid()
      ensures forall s: Scene :: s != LAST && s != FORMATION_LAP_SCENE && s != STANDING_START && s != RANDOM ==>
                scenes[s] == old(scenes[s])
      ensures Draws(scenes, ph, formation, leaderSlice, first, second)
    {
      if ph.leaderLap == 1 {
        if formation {
          PushDrawn(FORMATION_LAP_SCENE, first);
        } else if leaderSlice < NUMSLICE / 3 {
          PushDrawn(STANDING_START, first);
        }
      }
      PushDrawn(RANDOM, second);
    }

    /** The five sorts at the end of PickForRace. */
    method SortLists(ranked: seq<Car>)
      requires Valid() && ListsInRange(scenes, |ranked|)
      modifies this
      ensures Valid() && ListsInRange(scenes, |ranked|)
      ensures scenes == old(scenes)[DRS_ACTIVING := scenes[DRS_ACTIVING]][DRS_APPROVING := scenes[DRS_APPROVING]]
                                   [BOX := scenes[BOX]][BOX_IS_IN := scenes[BOX_IS_IN]]
                                   [BOX_IS_OUT := scenes[BOX_IS_OUT]]
      ensures SortOf(ranked, scenes[DRS_ACTIVING], old(scenes[DRS_ACTIVING]), ByFrontGap)
      ensures SortOf(ranked, scenes[DRS_APPROVING], old(scenes[DRS_APPROVING]), ByDrsDistance)
      ensures SortOf(ranked, scenes[BOX], old(scenes[BOX]), ByPitTimeDescending)
      ensures SortOf(ranked, scenes[BOX_IS_IN], old(scenes[BOX_IS_IN]), ByPitTimeDescending)
      ensures SortOf(ranked, scenes[BOX_IS_OUT], old(scenes[BOX_IS_OUT]), ByPitTimeDescending)
    {
      hide SortOf, ListsInRange;
      ScenesSort(ranked, DRS_ACTIVING, ByFrontGap);
      ScenesSort(ranked, DRS_APPROVING, ByDrsDistance);
      ScenesSort(ranked, BOX, ByPitTimeDescending);
      ScenesSort(ranked, BOX_IS_IN, ByPitTimeDescending);
      ScenesSort(ranked, BOX_IS_OUT, ByPitTimeDescending);
    }

    method FinishRace(ranked: seq<Car>, ph: Phase, formation: bool, leaderSlice: int, first: nat, second: nat)
      requires Valid() && AllPicks(scenes, ranked, |ranked|, ph)
      modifies this
      ensures Valid() && RaceLists(scenes, ranked, ph, formation, leaderSlice, first, second)
    {
      hide SortOf, Picks, ListsInRange;
      OnlyClassified(ranked, |ranked|, ph);
      PushDrawns(ph, formation, leaderSlice, first, second);
      DrawnInRange(scenes, ranked, ph, formation, leaderSlice, first, second);
      SortLists(ranked);
    }

    /** `leader` is what rankList_[0] points to; `cars` gives the car of each rank. */
    method PickForRace(ranked: seq<Car>, cars: seq<nat>, leader: Car, session: Session, first: nat, second: nat,
                       now: nat, later: nat)
      requires Valid() && |cars| == |ranked|
      modifies this, focus
      ensures Valid()
      ensures RaceLists(scenes, ranked, Phase(leader.entry.lapNum, session.totalLaps),
                        session.safetyCarStatus == FORMATION_LAP, leader.sliceIndex, first, second)
      ensures ListsInRange(scenes, |cars|)
      ensures focus.View() == RaceFocus(old(focus.View()), scenes, cars, now, later)
    {
      hide RaceFocus, ListsInRange, Picks, SortOf, Draws;
      var ph := Phase(leader.entry.lapNum, session.totalLaps);
      ClassifyRanks(ranked, ph);
      FinishRace(ranked, ph, session.safetyCarStatus == FORMATION_LAP, leader.sliceIndex, first, second);
      RecalculateRaceFocus(cars, now, later);
    }

    /** `PickForLap`: practice, qualifying and time trial. */
    method PickForLap(ranked: seq<Car>, cars: seq<nat>, now: nat, later: nat)
      requires Valid() && |cars| == |ranked|
      modifies this, focus
      ensures Valid()
      ensures LapLists(scenes, ranked) && ListsInRange(scenes, |cars|)
      ensures focus.View() == LapFocus(old(focus.View()), scenes, cars, now, later)
    {
      hide LapPicks, LapLists, ListsInRange, LapFocus;
      ClassifyLap(ranked);
      SortLapLists(ranked);
      RecalculateLapFocus(cars, now, later);
    }

    /** The five sorts at the end of PickForLap. */
    method SortLapLists(ranked: seq<Car>)
      requires Valid() && ListsInRange(scenes, |ranked|)
      requires forall s: Scene :: s != LAST ==> scenes[s] == LapPicks(ranked, |ranked|, s)
      modifies this
      ensures Valid() && LapLists(scenes, ranked) && ListsInRange(scenes, |ranked|)
    {
      hide LapPicks, SortOf, ListsInRange;
      ScenesSort(ranked, IN_GARAGE, ByLapDistanceDescending);
      ScenesSort(ranked, FLY_LAP, ByLapDistanceDescending);
      ScenesSort(ranked, IN_LAP, ByLapDistanceDescending);
      ScenesSort(ranked, OUT_LAP, ByLapDistanceDescending);
      ScenesSort(ranked, ON_TRACK, ByLapDistanceDescending);
    }

    /** The loop of PickForLap over the ranks. */
    method ClassifyLap(ranked: seq<Car>)
      requires Valid()
      modifies this
      ensures Valid() && ListsInRange(scenes, |ranked|)
      ensures forall s: Scene :: s != LAST ==> scenes[s] == LapPicks(ranked, |ranked|, s)
    {
      scenes := NoLists();
      for i := 0 to |ranked|
        invariant Valid() && forall s: Scene :: s != LAST ==> scenes[s] == LapPicks(ranked, i, s)
      {
        var c := ranked[i];
        var status := c.entry.driverStatus;
        if status == STATUS_IN_GARAGE {
          ScenesPush(IN_GARAGE, i);
        } else if status == FLYING_LAP {
          if c.entry.invalid == 0 && c.gaps.leaderJit < 2.5 && c.gaps.bestLapJit < 0.3 && c.frontWingDamage < 10 {
            ScenesPush(FLY_LAP, i);
          } else {
            ScenesPush(NOT_FLY_LAP, i);
          }
        } else if status == STATUS_IN_LAP {
          ScenesPush(IN_LAP, i);
        } else if status == STATUS_OUT_LAP {
          ScenesPush(OUT_LAP, i);
        } else if status == STATUS_ON_TRACK {
          ScenesPush(ON_TRACK, i);
        }
      }
      forall s: Scene | s != LAST ensures InRange(scenes[s], |ranked|) { LapPicksExactly(ranked, |ranked|, s); }
    }

    method RecalculateLapFocus(cars: seq<nat>, now: nat, later: nat)
      requires Valid() && ListsInRange(scenes, |cars|)
      modifies focus
      ensures focus.View() == LapFocus(old(focus.View()), scenes, cars, now, later)
    {
      if !focus.MaySwitch(now) {
        return;
      }
      hide LapPriority;
      FirstShownFrom(scenes, LapPriority(), 0);
      for k := 0 to |LapPriority()|
        invariant focus.View() == old(focus.View())
        invariant forall j :: 0 <= j < k ==> scenes[LapPriority()[j].0] == []
      {
        var s := LapPriority()[k].0;
        if scenes[s] != [] {
          FirstShownIs(scenes, LapPriority(), k);
          if focus.IsFlyLapSwitching(cars[scenes[s][0]]) {
            focus.SwitchCar(None, NOT_FLY_LAP, 2, later);
          } else {
            focus.SwitchCar(Some(cars[scenes[s][0]]), s, 1, later);
          }
          return;
        }
      }
    }

    method RecalculateRaceFocus(cars: seq<nat>, now: nat, later: nat)
      requires Valid() && ListsInRange(scenes, |cars|)
      modifies focus
      ensures focus.View() == RaceFocus(old(focus.View()), scenes, cars, now, later)
    {
      if !focus.MaySwitch(now) {
        return;
      }
      hide RacePriority;
      FirstShownFrom(scenes, RacePriority(), 0);
      for k := 0 to |RacePriority()|
        invariant focus.View() == old(focus.View())
        invariant forall j :: 0 <= j < k ==> scenes[RacePriority()[j].0] == []
      {
        var s := RacePriority()[k].0;
        if scenes[s] != [] {
          FirstShownIs(scenes, RacePriority(), k);
          focus.SwitchCar(Some(cars[scenes[s][0]]), s, RacePriority()[k].1, later);
          return;
        }
      }
    }
  }

  // ----- lap mode on values -----

  /** DriversStatus */
  const STATUS_IN_GARAGE := 0
  const STATUS_IN_LAP := 2
  const STATUS_OUT_LAP := 3
  const STATUS_ON_TRACK := 4

  /** The one list a car goes on outside a race; LAST for none. */
  function LapScene(c: Car): Scene {
    var st := c.entry.driverStatus;
    if st == STATUS_IN_GARAGE then IN_GARAGE
    else if st == FLYING_LAP then
      if c.entry.invalid == 0 && c.gaps.leaderJit < 2.5 && c.gaps.bestLapJit < 0.3 && c.frontWingDamage < 10
      then FLY_LAP else NOT_FLY_LAP
    else if st == STATUS_IN_LAP then IN_LAP
    else if st == STATUS_OUT_LAP then OUT_LAP
    else if st == STATUS_ON_TRACK then ON_TRACK
    else LAST
  }

  function LapPicks(ranked: seq<Car>, n: nat, s: Scene): seq<nat>
    requires n <= |ranked|
  {
    if n == 0 then []
    else if LapScene(ranked[n - 1]) == s then LapPicks(ranked, n - 1, s) + [n - 1]
    else LapPicks(ranked, n - 1, s)
  }

  lemma {:induction false} LapPicksExactly(ranked: seq<Car>, n: nat, s: Scene)
    requires n <= |ranked|
    ensures forall i: nat :: i in LapPicks(ranked, n, s) <==> i < n && LapScene(ranked[i]) == s
    ensures InRange(LapPicks(ranked, n, s), n)
  {
    if n > 0 { LapPicksExactly(ranked, n - 1, s); }
  }

  /** The lists PickForLap leaves: not_fly_lap in rank order, the other five by lap distance,
      furthest first. */
  ghost predicate LapLists(lists: Lists, ranked: seq<Car>) {
    var n := |ranked|;
    && Full(lists)
    && (forall s: Scene :: s != LAST && s > ON_TRACK ==> lists[s] == LapPicks(ranked, n, s))
    && lists[NOT_FLY_LAP] == LapPicks(ranked, n, NOT_FLY_LAP)
    && SortOf(ranked, lists[IN_GARAGE], LapPicks(ranked, n, IN_GARAGE), ByLapDistanceDescending)
    && SortOf(ranked, lists[FLY_LAP], LapPicks(ranked, n, FLY_LAP), ByLapDistanceDescending)
    && SortOf(ranked, lists[IN_LAP], LapPicks(ranked, n, IN_LAP), ByLapDistanceDescending)
    && SortOf(ranked, lists[OUT_LAP], LapPicks(ranked, n, OUT_LAP), ByLapDistanceDescending)
    && SortOf(ranked, lists[ON_TRACK], LapPicks(ranked, n, ON_TRACK), ByLapDistanceDescending)
  }

  // ----- the loop body on values -----

  function PushIf(lists: Lists, s: Scene, b: bool, i: nat): (r: Lists)
    requires Full(lists) && s != LAST
    ensures Full(r)
    ensures s != ACTIVE ==> r[ACTIVE] == lists[ACTIVE]
  {
    if b then lists[s := lists[s] + [i]] else lists
  }

  function PushOpt(lists: Lists, s: Option<Scene>, i: nat): (r: Lists)
    requires Full(lists) && (s.Some? ==> s.value != LAST)
    ensures Full(r)
    ensures s != Some(ACTIVE) ==> r[ACTIVE] == lists[ACTIVE]
  {
    if s.Some? then PushIf(lists, s.value, true, i) else lists
  }

  function BattleScene(c: Car, i: nat): (s: Option<Scene>)
    ensures s.Some? ==> s.value != LAST && s.value != ACTIVE
  {
    if i == 0 || c.entry.pitStatus != 0 then None
    else if c.gaps.front <= 0.2 then Some(BATTLE_IN_02)
    else if c.gaps.front <= 0.5 then Some(BATTLE_IN_05)
    else if c.gaps.front <= 1.0 then Some(BATTLE_IN_1)
    else if c.gaps.front <= 2.0 then Some(BATTLE_IN_2)
    else if c.gaps.front <= 3.0 then Some(BATTLE_IN_3)
    else None
  }

  function FlagScene(c: Car): (s: Option<Scene>)
    ensures s.Some? ==> s.value != LAST && s.value != ACTIVE
  {
    if c.vehicleFiaFlags == YELLOW then Some(YELLOW_FLAG)
    else if c.vehicleFiaFlags == GREEN then Some(GREEN_FLAG)
    else if c.vehicleFiaFlags == BLUE then Some(BLUE_FLAG)
    else if c.vehicleFiaFlags == RED then Some(RED_FLAG)
    else None
  }

  predicate InPit(c: Car) {
    c.entry.pitStatus != 0 && c.entry.pitLaneTime != 0
  }

  function PitScene(c: Car): (s: Option<Scene>)
    ensures s.Some? ==> s.value != LAST && s.value != ACTIVE
  {
    if !InPit(c) then None
    else if c.entry.pitLaneTime < 3 * 1000 then Some(BOX_IS_IN)
    else if c.entry.pitLaneTime > 22 * 1000 then Some(BOX_IS_OUT)
    else None
  }

  function Classified(lists: Lists, ranked: seq<Car>, i: nat, ph: Phase): (r: Lists)
    requires Full(lists) && i < |ranked| && ListsInRange(lists, |ranked|)
    ensures Full(r)
  {
    var c := ranked[i];
    if !IsActive(c) then lists
    else
      var l1 := PushIf(lists, ACTIVE, true, i);
      var l2 := PushOpt(PushOpt(l1, BattleScene(c, i), i), FlagScene(c), i);
      var l3 := PushIf(PushIf(l2, DRS_APPROVING, c.drsActivationDistance != 0, i), DRS_ACTIVING, c.drs != 0, i);
      var l4 := PushOpt(PushIf(l3, BOX, InPit(c), i), PitScene(c), i);
      PushIf(PushIf(l4, LAST_LAP, ph.Final(), i), CHEQUERED_FLAG, Chequered(ranked, i, l1[ACTIVE][0], ph), i)
  }

  /** Rank i is about to finish in the position of the first active rank. */
  predicate Chequered(ranked: seq<Car>, i: nat, lead: nat, ph: Phase)
    requires i < |ranked| && lead < |ranked|
  {
    && ph.Final() && ranked[i].entry.position == ranked[lead].entry.position
    && ranked[i].sliceIndex > NUMSLICE - NUMSLICE / 3
  }

  // ----- the loop agrees with the lists -----

  ghost predicate AllPicks(lists: Lists, ranked: seq<Car>, n: nat, ph: Phase)
    requires Full(lists) && n <= |ranked|
  {
    forall s: Scene :: s != LAST ==> lists[s] == Picks(ranked, n, ph, s)
  }

  lemma PicksInRange(lists: Lists, ranked: seq<Car>, n: nat, ph: Phase)
    requires Full(lists) && n <= |ranked| && AllPicks(lists, ranked, n, ph)
    ensures ListsInRange(lists, |ranked|)
  {
    forall s: Scene | s != LAST ensures InRange(lists[s], |ranked|) {
      PicksExactly(ranked, n, ph, s);
      assert forall k :: 0 <= k < |lists[s]| ==> lists[s][k] in Picks(ranked, n, ph, s);
    }
  }

  lemma {:induction false} LeadIsFirstActive(ranked: seq<Car>, n: nat, ph: Phase)
    requires n <= |ranked|
    ensures var p := Picks(ranked, n, ph, ACTIVE);
            && (p == [] <==> forall k :: 0 <= k < n ==> !IsActive(ranked[k]))
            && (p != [] ==> p[0] < n && LeadPosition(ranked, n) == ranked[p[0]].entry.position)
  {
    if n > 0 {
      LeadIsFirstActive(ranked, n - 1, ph);
    }
  }

  /** Which push of the loop body fills the list of a scene; 0 for none. */
  function PushOf(s: Scene): nat {
    match s
    case ACTIVE => 1
    case BATTLE_IN_02 => 2
    case BATTLE_IN_05 => 2
    case BATTLE_IN_1 => 2
    case BATTLE_IN_2 => 2
    case BATTLE_IN_3 => 2
    case YELLOW_FLAG => 3
    case GREEN_FLAG => 3
    case BLUE_FLAG => 3
    case RED_FLAG => 3
    case DRS_APPROVING => 4
    case DRS_ACTIVING => 5
    case BOX => 6
    case BOX_IS_IN => 7
    case BOX_IS_OUT => 7
    case LAST_LAP => 8
    case CHEQUERED_FLAG => 9
    case _ => 0
  }

  /** What the push that fills the list of s asks of an active car. */
  predicate PushAsks(ranked: seq<Car>, i: nat, ph: Phase, s: Scene)
    requires i < |ranked|
  {
    var c := ranked[i];
    match PushOf(s)
    case 1 => true
    case 2 => BattleScene(c, i) == Some(s)
    case 3 => FlagScene(c) == Some(s)
    case 4 => c.drsActivationDistance != 0
    case 5 => c.drs != 0
    case 6 => InPit(c)
    case 7 => PitScene(c) == Some(s)
    case 8 => ph.Final()
    case 9 => ph.Final() && c.entry.position == LeadPosition(ranked, i + 1) && c.sliceIndex > NUMSLICE - NUMSLICE / 3
    case _ => false
  }

  lemma QualifiesByPush(ranked: seq<Car>, i: nat, ph: Phase, s: Scene)
    requires i < |ranked|
    ensures Qualifies(ranked, i, ph, s) <==> IsActive(ranked[i]) && PushAsks(ranked, i, ph, s)
  {
  }

  /** The pushes through an option name no scene of another push. */
  lemma OptionScenes(c: Car, i: nat, s: Scene)
    ensures BattleScene(c, i) == Some(s) ==> PushOf(s) == 2
    ensures FlagScene(c) == Some(s) ==> PushOf(s) == 3
    ensures PitScene(c) == Some(s) ==> PushOf(s) == 7
  {
  }

  lemma PushOfOne(s: Scene)
    ensures PushOf(s) == 1 <==> s == ACTIVE
    ensures PushOf(s) == 4 <==> s == DRS_APPROVING
    ensures PushOf(s) == 5 <==> s == DRS_ACTIVING
    ensures PushOf(s) == 6 <==> s == BOX
    ensures PushOf(s) == 8 <==> s == LAST_LAP
    ensures PushOf(s) == 9 <==> s == CHEQUERED_FLAG
  {
  }

  lemma PushIfAt(lists: Lists, t: Scene, b: bool, i: nat, s: Scene)
    requires Full(lists) && t != LAST && s != LAST
    ensures PushIf(lists, t, b, i)[s] == if b && t == s then lists[s] + [i] else lists[s]
  {
  }

  lemma PushOptAt(lists: Lists, t: Option<Scene>, i: nat, s: Scene)
    requires Full(lists) && (t.Some? ==> t.value != LAST) && s != LAST
    ensures PushOpt(lists, t, i)[s] == if t == Some(s) then lists[s] + [i] else lists[s]
  {
  }

  /** The loop body on one list. */
  lemma ClassifiedAt(lists: Lists, ranked: seq<Car>, i: nat, ph: Phase, s: Scene)
    requires Full(lists) && i < |ranked| && ListsInRange(lists, |ranked|) && s != LAST && IsActive(ranked[i])
    requires ranked[(lists[ACTIVE] + [i])[0]].entry.position == LeadPosition(ranked, i + 1)
    ensures Classified(lists, ranked, i, ph)[s] == if PushAsks(ranked, i, ph, s) then lists[s] + [i] else lists[s]
  {
    var c := ranked[i];
    var l1 := PushIf(lists, ACTIVE, true, i);
    var l2 := PushOpt(l1, BattleScene(c, i), i);
    var l3 := PushOpt(l2, FlagScene(c), i);
    var l4 := PushIf(l3, DRS_APPROVING, c.drsActivationDistance != 0, i);
    var l5 := PushIf(l4, DRS_ACTIVING, c.drs != 0, i);
    var l6 := PushIf(l5, BOX, InPit(c), i);
    var l7 := PushOpt(l6, PitScene(c), i);
    var l8 := PushIf(l7, LAST_LAP, ph.Final(), i);
    PushIfAt(lists, ACTIVE, true, i, ACTIVE);
    var last := Chequered(ranked, i, l1[ACTIVE][0], ph);
    var l9 := PushIf(l8, CHEQUERED_FLAG, last, i);
    assert Classified(lists, ranked, i, ph) == l9;
    OptionScenes(c, i, s);
    PushOfOne(s);
    hide Classified, PushOf, BattleScene, FlagScene, PitScene, LeadPosition, PushIf, PushOpt, InPit;
    PushIfAt(lists, ACTIVE, true, i, s);
    PushOptAt(l1, BattleScene(c, i), i, s);
    PushOptAt(l2, FlagScene(c), i, s);
    PushIfAt(l3, DRS_APPROVING, c.drsActivationDistance != 0, i, s);
    PushIfAt(l4, DRS_ACTIVING, c.drs != 0, i, s);
    PushIfAt(l5, BOX, InPit(c), i, s);
    PushOptAt(l6, PitScene(c), i, s);
    PushIfAt(l7, LAST_LAP, ph.Final(), i, s);
    PushIfAt(l8, CHEQUERED_FLAG, last, i, s);
  }

  lemma ClassifiedAdds(lists: Lists, ranked: seq<Car>, i: nat, ph: Phase)
    requires Full(lists) && i < |ranked| && ListsInRange(lists, |ranked|) && AllPicks(lists, ranked, i, ph)
    ensures AllPicks(Classified(lists, ranked, i, ph), ranked, i + 1, ph)
  {
    LeadIsFirstActive(ranked, i + 1, ph);
    assert IsActive(ranked[i]) ==> Picks(ranked, i + 1, ph, ACTIVE) == lists[ACTIVE] + [i];
    forall s: Scene | s != LAST
      ensures Classified(lists, ranked, i, ph)[s] == Picks(ranked, i + 1, ph, s)
    {
      QualifiesByPush(ranked, i, ph, s);
      hide Qualifies, PushAsks;
      if IsActive(ranked[i]) { ClassifiedAt(lists, ranked, i, ph, s); }
      hide Classified;
      assert lists[s] + [] == lists[s];
    }
  }

  lemma {:induction false} OnlyClassified(ranked: seq<Car>, n: nat, ph: Phase)
    requires n <= |ranked|
    ensures forall s: Scene :: s == FORMATION_LAP_SCENE || s == STANDING_START || s == RANDOM || s == IN_GARAGE ==>
              Picks(ranked, n, ph, s) == []
  {
    if n > 0 { OnlyClassified(ranked, n - 1, ph); }
  }

  lemma PickInRange(ranked: seq<Car>, n: nat, ph: Phase, s: Scene)
    requires n <= |ranked|
    ensures InRange(Picks(ranked, n, ph, s), n)
  {
    PicksExactly(ranked, n, ph, s);
    var p := Picks(ranked, n, ph, s);
    assert forall k :: 0 <= k < |p| ==> p[k] in p;
  }

  lemma DrawnInRange(lists: Lists, ranked: seq<Car>, ph: Phase, formation: bool, leaderSlice: int,
                     first: nat, second: nat)
    requires Full(lists) && Draws(lists, ph, formation, leaderSlice, first, second)
    requires forall s: Scene :: s != LAST && s != FORMATION_LAP_SCENE && s != STANDING_START && s != RANDOM ==>
               lists[s] == Picks(ranked, |ranked|, ph, s)
    ensures ListsInRange(lists, |ranked|)
  {
    hide Picks;
    PickInRange(ranked, |ranked|, ph, ACTIVE);
    assert InRange(Drawn(lists[ACTIVE], first), |ranked|) && InRange(Drawn(lists[ACTIVE], second), |ranked|);
    forall s: Scene | s != LAST ensures InRange(lists[s], |ranked|) {
      if s != FORMATION_LAP_SCENE && s != STANDING_START && s != RANDOM {
        PickInRange(ranked, |ranked|, ph, s);
      }
    }
  }

  lemma {:induction false} FirstShownIs(lists: Lists, table: seq<(Scene, nat)>, k: nat)
    requires Full(lists) && (forall j :: 0 <= j < |table| ==> table[j].0 != LAST) && k < |table|
    requires lists[table[k].0] != [] && forall j :: 0 <= j < k ==> lists[table[j].0] == []
    ensures FirstShown(lists, table) == k
  {
  }

  lemma FirstShownFrom(lists: Lists, table: seq<(Scene, nat)>, n: nat)
    requires Full(lists) && forall j :: 0 <= j < |table| ==> table[j].0 != LAST
    ensures (forall j :: 0 <= j < |table| ==> lists[table[j].0] == []) <==> FirstShown(lists, table) == |table|
  {
  }
}
