/** What the race lists mean, which car the camera goes to, and what every run of the camera keeps. */
module SceneRuns {
  import opened Options
  import opened Cars
  import opened Scenes

  // ----- the lists of a race -----

  lemma SortKeepsMembers(ranked: seq<Car>, list: seq<nat>, was: seq<nat>, o: Order)
    requires SortOf(ranked, list, was, o)
    ensures forall i: nat :: i in list <==> i in was
    ensures |list| == |was|
  {
    assert forall i: nat :: i in list <==> i in multiset(list);
    assert forall i: nat :: i in was <==> i in multiset(was);
    assert |multiset(list)| == |multiset(was)|;
  }

  /** On every list but the three drawn ones stand exactly the qualifying ranks. */
  lemma ListedExactly(lists: Lists, ranked: seq<Car>, ph: Phase, formation: bool, leaderSlice: int,
                      first: nat, second: nat, s: Scene)
    requires RaceLists(lists, ranked, ph, formation, leaderSlice, first, second)
    requires s != LAST && s != FORMATION_LAP_SCENE && s != STANDING_START && s != RANDOM
    ensures forall i: nat :: i in lists[s] <==> i < |ranked| && Qualifies(ranked, i, ph, s)
  {
    hide Qualifies;
    PicksExactly(ranked, |ranked|, ph, s);
    if Derived(s) {
      if s == DRS_ACTIVING { SortKeepsMembers(ranked, lists[s], Picks(ranked, |ranked|, ph, s), ByFrontGap); }
      else if s == DRS_APPROVING { SortKeepsMembers(ranked, lists[s], Picks(ranked, |ranked|, ph, s), ByDrsDistance); }
      else { SortKeepsMembers(ranked, lists[s], Picks(ranked, |ranked|, ph, s), ByPitTimeDescending); }
    }
  }

  lemma QualifiedCars(ranked: seq<Car>, i: nat, ph: Phase, s: Scene)
    requires i < |ranked|
    ensures Qualifies(ranked, i, ph, s) ==> IsActive(ranked[i])
    ensures Qualifies(ranked, i, ph, ACTIVE) <==> IsActive(ranked[i])
    ensures Qualifies(ranked, i, ph, CHEQUERED_FLAG) ==> ranked[i].entry.position == LeadPosition(ranked, i + 1)
  {
  }

  /** The active list is exactly the active ranks, in rank order. */
  lemma ActiveExactly(lists: Lists, ranked: seq<Car>, ph: Phase, formation: bool, leaderSlice: int,
                      first: nat, second: nat)
    requires RaceLists(lists, ranked, ph, formation, leaderSlice, first, second)
    ensures forall i: nat :: i in lists[ACTIVE] <==> i < |ranked| && IsActive(ranked[i])
    ensures forall a, b :: 0 <= a < b < |lists[ACTIVE]| ==> lists[ACTIVE][a] < lists[ACTIVE][b]
  {
    assert lists[ACTIVE] == Picks(ranked, |ranked|, ph, ACTIVE);
    PicksExactly(ranked, |ranked|, ph, ACTIVE);
    hide RaceLists, Qualifies;
    forall i: nat | i < |ranked| { QualifiedCars(ranked, i, ph, ACTIVE); }
  }

  /** Whoever is on any list, the drawn ones included, is active. */
  lemma ListedIsActive(lists: Lists, ranked: seq<Car>, ph: Phase, formation: bool, leaderSlice: int,
                       first: nat, second: nat, s: Scene, i: nat)
    requires RaceLists(lists, ranked, ph, formation, leaderSlice, first, second)
    requires s != LAST && i in lists[s]
    ensures i < |ranked| && IsActive(ranked[i])
  {
    hide Qualifies;
    var t := if s == FORMATION_LAP_SCENE || s == STANDING_START || s == RANDOM then ACTIVE else s;
    assert i in lists[t];
    hide RaceLists;
    ListedExactly(lists, ranked, ph, formation, leaderSlice, first, second, t);
    QualifiedCars(ranked, i, ph, t);
  }

  /** The threshold of a battle list. */
  function Within(s: Scene): real {
    if s == BATTLE_IN_02 then 0.2 else if s == BATTLE_IN_05 then 0.5 else if s == BATTLE_IN_1 then 1.0
    else if s == BATTLE_IN_2 then 2.0 else 3.0
  }

  predicate IsBattle(s: Scene) {
    BATTLE_IN_02 <= s <= BATTLE_IN_3
  }

  /** A rank is on at most one battle list, the one with the tightest threshold its gap meets: no
      battle list with a smaller threshold would hold it. */
  lemma BattlesAreTightest(lists: Lists, ranked: seq<Car>, ph: Phase, formation: bool, leaderSlice: int,
                           first: nat, second: nat, s: Scene, i: nat)
    requires RaceLists(lists, ranked, ph, formation, leaderSlice, first, second) && IsBattle(s)
    ensures i in lists[s] <==>
              && i < |ranked| && IsActive(ranked[i]) && i > 0 && ranked[i].entry.pitStatus == 0
              && ranked[i].gaps.front <= Within(s)
              && forall t: Scene :: IsBattle(t) && Within(t) < Within(s) ==> ranked[i].gaps.front > Within(t)
    ensures forall t: Scene :: IsBattle(t) && t != s && i in lists[s] ==> i !in lists[t]
  {
    ListedExactly(lists, ranked, ph, formation, leaderSlice, first, second, s);
    forall t: Scene | IsBattle(t) && t != s && i in lists[s] ensures i !in lists[t] {
      ListedExactly(lists, ranked, ph, formation, leaderSlice, first, second, t);
    }
    assert IsBattle(BATTLE_IN_02) && IsBattle(BATTLE_IN_05) && IsBattle(BATTLE_IN_1) && IsBattle(BATTLE_IN_2);
  }

  /** With distinct positions the chequered flag list holds at most the first active car. */
  lemma ChequeredIsTheFirst(lists: Lists, ranked: seq<Car>, ph: Phase, formation: bool, leaderSlice: int,
                            first: nat, second: nat, i: nat)
    requires RaceLists(lists, ranked, ph, formation, leaderSlice, first, second)
    requires forall a, b :: 0 <= a < b < |ranked| && IsActive(ranked[a]) && IsActive(ranked[b]) ==>
               ranked[a].entry.position != ranked[b].entry.position
    requires i in lists[CHEQUERED_FLAG]
    ensures lists[ACTIVE] != [] && i == lists[ACTIVE][0]
    ensures lists[CHEQUERED_FLAG] == [i]
  {
    FlaggedIsFirst(lists, ranked, ph, formation, leaderSlice, first, second, i);
    var list := lists[CHEQUERED_FLAG];
    PicksExactly(ranked, |ranked|, ph, CHEQUERED_FLAG);
    assert Increasing(list);
    hide RaceLists, Qualifies;
    forall k | 0 <= k < |list| ensures list[k] == i {
      assert list[k] in list;
      FlaggedIsFirst(lists, ranked, ph, formation, leaderSlice, first, second, list[k]);
    }
    IncreasingGrows(list, |list| - 1);
  }

  ghost predicate Increasing(list: seq<nat>) {
    forall a, b :: 0 <= a < b < |list| ==> list[a] < list[b]
  }

  lemma {:induction false} IncreasingGrows(list: seq<nat>, k: nat)
    requires Increasing(list) && k < |list|
    ensures list[k] >= list[0] + k
  {
    if k > 0 { IncreasingGrows(list, k - 1); }
  }

  lemma FlaggedIsFirst(lists: Lists, ranked: seq<Car>, ph: Phase, formation: bool, leaderSlice: int,
                       first: nat, second: nat, i: nat)
    requires RaceLists(lists, ranked, ph, formation, leaderSlice, first, second)
    requires forall a, b :: 0 <= a < b < |ranked| && IsActive(ranked[a]) && IsActive(ranked[b]) ==>
               ranked[a].entry.position != ranked[b].entry.position
    requires i in lists[CHEQUERED_FLAG]
    ensures lists[ACTIVE] != [] && i == lists[ACTIVE][0]
  {
    assert lists[ACTIVE] == Picks(ranked, |ranked|, ph, ACTIVE);
    ListedExactly(lists, ranked, ph, formation, leaderSlice, first, second, CHEQUERED_FLAG);
    hide RaceLists, Qualifies;
    QualifiedCars(ranked, i, ph, CHEQUERED_FLAG);
    LeaderByPosition(ranked, i, ph);
    PicksGrow(ranked, i + 1, |ranked|, ph);
  }

  /** With distinct positions, an active rank in the lead position is the first active one. */
  lemma LeaderByPosition(ranked: seq<Car>, i: nat, ph: Phase)
    requires i < |ranked| && IsActive(ranked[i]) && ranked[i].entry.position == LeadPosition(ranked, i + 1)
    requires forall a, b :: 0 <= a < b < |ranked| && IsActive(ranked[a]) && IsActive(ranked[b]) ==>
               ranked[a].entry.position != ranked[b].entry.position
    ensures Picks(ranked, i + 1, ph, ACTIVE) != [] && Picks(ranked, i + 1, ph, ACTIVE)[0] == i
  {
    hide Qualifies;
    LeadIsFirstActive(ranked, i + 1, ph);
    var lead := Picks(ranked, i + 1, ph, ACTIVE)[0];
    HeadOfPicks(ranked, i + 1, ph);
    QualifiedCars(ranked, lead, ph, ACTIVE);
  }

  lemma HeadOfPicks(ranked: seq<Car>, n: nat, ph: Phase)
    requires n <= |ranked| && Picks(ranked, n, ph, ACTIVE) != []
    ensures var k := Picks(ranked, n, ph, ACTIVE)[0]; k < n && Qualifies(ranked, k, ph, ACTIVE)
  {
    hide Qualifies;
    PicksExactly(ranked, n, ph, ACTIVE);
    assert Picks(ranked, n, ph, ACTIVE)[0] in Picks(ranked, n, ph, ACTIVE);
  }

  lemma {:induction false} PicksGrow(ranked: seq<Car>, m: nat, n: nat, ph: Phase)
    requires m <= n <= |ranked|
    ensures Picks(ranked, m, ph, ACTIVE) <= Picks(ranked, n, ph, ACTIVE)
    decreases n
  {
    if m < n { PicksGrow(ranked, m, n - 1, ph); }
  }

  // ----- the choice of the camera -----

  /** No list that is shown holds anyone when nobody is active. */
  lemma ShownHeadIsActive(lists: Lists, ranked: seq<Car>, ph: Phase, formation: bool, leaderSlice: int,
                          first: nat, second: nat, s: Scene)
    requires RaceLists(lists, ranked, ph, formation, leaderSlice, first, second) && s != LAST && lists[s] != []
    ensures lists[s][0] < |ranked| && IsActive(ranked[lists[s][0]])
  {
    var i := lists[s][0];
    hide RaceLists, Qualifies;
    ListedIsActive(lists, ranked, ph, formation, leaderSlice, first, second, s, i);
  }

  lemma NobodyInGarage(lists: Lists, ranked: seq<Car>, ph: Phase, formation: bool, leaderSlice: int,
                       first: nat, second: nat)
    requires RaceLists(lists, ranked, ph, formation, leaderSlice, first, second)
    ensures lists[IN_GARAGE] == []
  {
    assert lists[IN_GARAGE] == Picks(ranked, |ranked|, ph, IN_GARAGE);
    hide RaceLists, Picks;
    OnlyClassified(ranked, |ranked|, ph);
  }

  lemma RandomWithActive(lists: Lists, ranked: seq<Car>, ph: Phase, formation: bool, leaderSlice: int,
                         first: nat, second: nat)
    requires RaceLists(lists, ranked, ph, formation, leaderSlice, first, second)
    ensures lists[RANDOM] != [] <==> exists i :: 0 <= i < |ranked| && IsActive(ranked[i])
  {
    assert lists[RANDOM] == Drawn(lists[ACTIVE], second);
    ActiveExactly(lists, ranked, ph, formation, leaderSlice, first, second);
    hide RaceLists, IsActive;
    if i :| 0 <= i < |ranked| && IsActive(ranked[i]) {
      assert i in lists[ACTIVE];
    }
    if lists[ACTIVE] != [] { assert lists[ACTIVE][0] in lists[ACTIVE]; }
  }

  /** Some scene of the table has a car exactly when some ranked car is active, and the
      zero-initialised eighteenth entry is never the one. */
  lemma SceneExistsExactly(lists: Lists, ranked: seq<Car>, ph: Phase, formation: bool, leaderSlice: int,
                           first: nat, second: nat)
    requires RaceLists(lists, ranked, ph, formation, leaderSlice, first, second)
    ensures TopScene(lists) < 17 <==> exists i :: 0 <= i < |ranked| && IsActive(ranked[i])
    ensures TopScene(lists) != 17
  {
    hide RacePriority;
    var k := TopScene(lists);
    NobodyInGarage(lists, ranked, ph, formation, leaderSlice, first, second);
    RandomWithActive(lists, ranked, ph, formation, leaderSlice, first, second);
    if k < |RacePriority()| {
      ShownHeadIsActive(lists, ranked, ph, formation, leaderSlice, first, second, RacePriority()[k].0);
    }
    hide RaceLists, TopScene;
    assert RacePriority()[17].0 == IN_GARAGE && RacePriority()[16].0 == RANDOM;
  }

  /** The camera f' is on the head of the list of table entry k, the first that is not empty, an
      active car, for that entry's seconds. */
  ghost predicate GoesToHead(f': Focus, lists: Lists, ranked: seq<Car>, cars: seq<nat>, k: nat, later: nat) {
    && k < 17 && Full(lists) && ListsInRange(lists, |cars|) && |cars| == |ranked|
    && (forall j :: 0 <= j < k ==> lists[RacePriority()[j].0] == [])
    && lists[RacePriority()[k].0] != []
    && HeadIs(f', lists[RacePriority()[k].0][0], ranked, cars, RacePriority()[k].0, later + RacePriority()[k].1)
  }

  predicate HeadIs(f': Focus, rank: nat, ranked: seq<Car>, cars: seq<nat>, s: Scene, end: nat) {
    rank < |ranked| && rank < |cars| && IsActive(ranked[rank]) && f' == Focus(Some(cars[rank]), s, end)
  }

  /** When a switch is allowed and some car is active, the camera goes to the head of the
      highest-priority list that has a car, an active one, for that entry's seconds; otherwise
      nothing changes. */
  lemma CameraGoesToTheHead(f: Focus, lists: Lists, ranked: seq<Car>, cars: seq<nat>, ph: Phase, formation: bool,
                            leaderSlice: int, first: nat, second: nat, now: nat, later: nat)
    requires |cars| == |ranked| && Full(lists) && ListsInRange(lists, |cars|)
    requires RaceLists(lists, ranked, ph, formation, leaderSlice, first, second)
    ensures var f' := RaceFocus(f, lists, cars, now, later);
            if (f.cur.None? || now >= f.end) && exists i :: 0 <= i < |ranked| && ranked[i].entry.resultStatus == 2 then
              GoesToHead(f', lists, ranked, cars, TopScene(lists), later)
            else f' == f
  {
    hide RaceLists, RacePriority;
    SceneExistsExactly(lists, ranked, ph, formation, leaderSlice, first, second);
    var k := TopScene(lists);
    if k < 17 {
      ShownHeadIsActive(lists, ranked, ph, formation, leaderSlice, first, second, RacePriority()[k].0);
    }
  }

  // ----- the lists and the table on the cars' fields -----

  /** Who is on which list of a race, on the fields of the cars: result status 2 is active, vehicle flags
      1 to 4 are green, blue, yellow and red, pit lane times are in milliseconds, and the final phase
      begins when the leader reaches the last lap. */
  lemma ListedOnFields(lists: Lists, ranked: seq<Car>, ph: Phase, formation: bool, leaderSlice: int,
                       first: nat, second: nat, i: nat)
    requires RaceLists(lists, ranked, ph, formation, leaderSlice, first, second)
    requires i < |ranked|
    ensures var c := ranked[i];
            var active := c.entry.resultStatus == 2;
            var racing := active && i > 0 && c.entry.pitStatus == 0;
            var pitting := active && c.entry.pitStatus != 0 && c.entry.pitLaneTime != 0;
            var final := ph.leaderLap >= ph.totalLaps;
            && (i in lists[ACTIVE] <==> active)
            && (i in lists[BATTLE_IN_02] <==> racing && c.gaps.front <= 0.2)
            && (i in lists[BATTLE_IN_05] <==> racing && 0.2 < c.gaps.front <= 0.5)
            && (i in lists[BATTLE_IN_1] <==> racing && 0.5 < c.gaps.front <= 1.0)
            && (i in lists[BATTLE_IN_2] <==> racing && 1.0 < c.gaps.front <= 2.0)
            && (i in lists[BATTLE_IN_3] <==> racing && 2.0 < c.gaps.front <= 3.0)
            && (i in lists[GREEN_FLAG] <==> active && c.vehicleFiaFlags == 1)
            && (i in lists[BLUE_FLAG] <==> active && c.vehicleFiaFlags == 2)
            && (i in lists[YELLOW_FLAG] <==> active && c.vehicleFiaFlags == 3)
            && (i in lists[RED_FLAG] <==> active && c.vehicleFiaFlags == 4)
            && (i in lists[DRS_APPROVING] <==> active && c.drsActivationDistance != 0)
            && (i in lists[DRS_ACTIVING] <==> active && c.drs != 0)
            && (i in lists[BOX] <==> pitting)
            && (i in lists[BOX_IS_IN] <==> pitting && c.entry.pitLaneTime < 3000)
            && (i in lists[BOX_IS_OUT] <==> pitting && c.entry.pitLaneTime > 22000)
            && (i in lists[LAST_LAP] <==> active && final)
            && (i in lists[CHEQUERED_FLAG] ==> active && final && c.sliceIndex > 134)
  {
    forall s: Scene | s != LAST && s != FORMATION_LAP_SCENE && s != STANDING_START && s != RANDOM
      ensures i in lists[s] <==> Qualifies(ranked, i, ph, s)
    {
      ListedExactly(lists, ranked, ph, formation, leaderSlice, first, second, s);
    }
    hide RaceLists;
    QualifiesOnFields(ranked, i, ph);
    hide Qualifies;
  }

  lemma QualifiesOnFields(ranked: seq<Car>, i: nat, ph: Phase)
    requires i < |ranked|
    ensures var c := ranked[i];
            var active := c.entry.resultStatus == 2;
            var racing := active && i > 0 && c.entry.pitStatus == 0;
            var pitting := active && c.entry.pitStatus != 0 && c.entry.pitLaneTime != 0;
            var final := ph.leaderLap >= ph.totalLaps;
            && (Qualifies(ranked, i, ph, ACTIVE) <==> active)
            && (Qualifies(ranked, i, ph, BATTLE_IN_02) <==> racing && c.gaps.front <= 0.2)
            && (Qualifies(ranked, i, ph, BATTLE_IN_05) <==> racing && 0.2 < c.gaps.front <= 0.5)
            && (Qualifies(ranked, i, ph, BATTLE_IN_1) <==> racing && 0.5 < c.gaps.front <= 1.0)
            && (Qualifies(ranked, i, ph, BATTLE_IN_2) <==> racing && 1.0 < c.gaps.front <= 2.0)
            && (Qualifies(ranked, i, ph, BATTLE_IN_3) <==> racing && 2.0 < c.gaps.front <= 3.0)
            && (Qualifies(ranked, i, ph, GREEN_FLAG) <==> active && c.vehicleFiaFlags == 1)
            && (Qualifies(ranked, i, ph, BLUE_FLAG) <==> active && c.vehicleFiaFlags == 2)
            && (Qualifies(ranked, i, ph, YELLOW_FLAG) <==> active && c.vehicleFiaFlags == 3)
            && (Qualifies(ranked, i, ph, RED_FLAG) <==> active && c.vehicleFiaFlags == 4)
            && (Qualifies(ranked, i, ph, DRS_APPROVING) <==> active && c.drsActivationDistance != 0)
            && (Qualifies(ranked, i, ph, DRS_ACTIVING) <==> active && c.drs != 0)
            && (Qualifies(ranked, i, ph, BOX) <==> pitting)
            && (Qualifies(ranked, i, ph, BOX_IS_IN) <==> pitting && c.entry.pitLaneTime < 3000)
            && (Qualifies(ranked, i, ph, BOX_IS_OUT) <==> pitting && c.entry.pitLaneTime > 22000)
            && (Qualifies(ranked, i, ph, LAST_LAP) <==> active && final)
            && (Qualifies(ranked, i, ph, CHEQUERED_FLAG) ==> active && final && c.sliceIndex > 134)
  {
  }

  /** The chequered flag: on the last lap, late in it, in the position of the first active rank. */
  lemma ChequeredOnFields(lists: Lists, ranked: seq<Car>, ph: Phase, formation: bool, leaderSlice: int,
                          first: nat, second: nat, i: nat)
    requires RaceLists(lists, ranked, ph, formation, leaderSlice, first, second)
    requires i < |ranked| && ranked[i].entry.resultStatus == 2
    ensures lists[ACTIVE] != [] && lists[ACTIVE][0] <= i
    ensures i in lists[CHEQUERED_FLAG] <==>
              && ph.leaderLap >= ph.totalLaps && ranked[i].sliceIndex > 134
              && ranked[i].entry.position == ranked[lists[ACTIVE][0]].entry.position
  {
    assert lists[ACTIVE] == Picks(ranked, |ranked|, ph, ACTIVE);
    ListedExactly(lists, ranked, ph, formation, leaderSlice, first, second, CHEQUERED_FLAG);
    hide RaceLists;
    FlagQualifies(ranked, i, ph);
    LeadIsFirstActive(ranked, i + 1, ph);
    hide Qualifies;
    PicksExactly(ranked, i + 1, ph, ACTIVE);
    QualifiedCars(ranked, i, ph, ACTIVE);
    assert i in Picks(ranked, i + 1, ph, ACTIVE);
    PicksGrow(ranked, i + 1, |ranked|, ph);
  }

  lemma FlagQualifies(ranked: seq<Car>, i: nat, ph: Phase)
    requires i < |ranked| && ranked[i].entry.resultStatus == 2
    ensures Qualifies(ranked, i, ph, CHEQUERED_FLAG) <==>
              && ph.leaderLap >= ph.totalLaps && ranked[i].sliceIndex > 134
              && ranked[i].entry.position == LeadPosition(ranked, i + 1)
  {
  }

  /** The three drawn lists: the formation list on a formation lap of lap 1, the start list on the first
      third of lap 1 otherwise, the random list always; each the active rank the draw falls on. */
  lemma DrawnOnFields(lists: Lists, ranked: seq<Car>, ph: Phase, formation: bool, leaderSlice: int,
                      first: nat, second: nat)
    requires RaceLists(lists, ranked, ph, formation, leaderSlice, first, second)
    ensures var active := lists[ACTIVE];
            var one := if active == [] then [] else [active[first % |active|]];
            var other := if active == [] then [] else [active[second % |active|]];
            && lists[FORMATION_LAP_SCENE] == (if ph.leaderLap == 1 && formation then one else [])
            && lists[STANDING_START] == (if ph.leaderLap == 1 && !formation && leaderSlice < 66 then one else [])
            && lists[RANDOM] == other
  {
  }

  /** The heads of the sorted lists of a race: in the pits nobody on the list has been longer in the pit
      lane, with DRS open nobody is closer to the car in front, before the zone nobody is closer to it. */
  lemma HeadsOfRace(lists: Lists, ranked: seq<Car>, ph: Phase, formation: bool, leaderSlice: int,
                    first: nat, second: nat, s: Scene, i: nat)
    requires RaceLists(lists, ranked, ph, formation, leaderSlice, first, second)
    requires s in {BOX, BOX_IS_IN, BOX_IS_OUT, DRS_ACTIVING, DRS_APPROVING} && i in lists[s]
    ensures lists[s][0] < |ranked| && i < |ranked|
    ensures s in {BOX, BOX_IS_IN, BOX_IS_OUT} ==> ranked[i].entry.pitLaneTime <= ranked[lists[s][0]].entry.pitLaneTime
    ensures s == DRS_ACTIVING ==> ranked[lists[s][0]].gaps.front <= ranked[i].gaps.front
    ensures s == DRS_APPROVING ==> ranked[lists[s][0]].drsActivationDistance <= ranked[i].drsActivationDistance
  {
    var o := if s == DRS_ACTIVING then ByFrontGap else if s == DRS_APPROVING then ByDrsDistance
             else ByPitTimeDescending;
    assert Ordered(ranked, lists[s], o);
    hide RaceLists;
    HeadIsLeast(ranked, lists[s], o, i);
  }

  lemma HeadIsLeast(ranked: seq<Car>, list: seq<nat>, o: Order, i: nat)
    requires Ordered(ranked, list, o) && i in list
    ensures list[0] < |ranked| && i < |ranked| && Key(o, ranked[list[0]]) <= Key(o, ranked[i])
  {
    hide Key;
    var k :| 0 <= k < |list| && list[k] == i;
    if k > 0 { assert Key(o, ranked[list[0]]) <= Key(o, ranked[list[k]]); }
  }

  /** The race scene to show and its seconds, by priority. */
  function RaceShown(lists: Lists): Option<(Scene, nat)>
    requires Full(lists)
  {
    if lists[FORMATION_LAP_SCENE] != [] then Some((FORMATION_LAP_SCENE, 8))
    else if lists[STANDING_START] != [] then Some((STANDING_START, 6))
    else if lists[CHEQUERED_FLAG] != [] then Some((CHEQUERED_FLAG, 2))
    else if lists[BOX_IS_OUT] != [] then Some((BOX_IS_OUT, 8))
    else if lists[BOX_IS_IN] != [] then Some((BOX_IS_IN, 3))
    else if lists[BATTLE_IN_02] != [] then Some((BATTLE_IN_02, 8))
    else if lists[RED_FLAG] != [] then Some((RED_FLAG, 6))
    else if lists[YELLOW_FLAG] != [] then Some((YELLOW_FLAG, 6))
    else if lists[GREEN_FLAG] != [] then Some((GREEN_FLAG, 3))
    else if lists[BLUE_FLAG] != [] then Some((BLUE_FLAG, 6))
    else if lists[DRS_ACTIVING] != [] then Some((DRS_ACTIVING, 4))
    else if lists[DRS_APPROVING] != [] then Some((DRS_APPROVING, 4))
    else if lists[BATTLE_IN_1] != [] then Some((BATTLE_IN_1, 5))
    else if lists[BATTLE_IN_2] != [] then Some((BATTLE_IN_2, 4))
    else if lists[BOX] != [] then Some((BOX, 5))
    else if lists[LAST_LAP] != [] then Some((LAST_LAP, 4))
    else if lists[RANDOM] != [] then Some((RANDOM, 5))
    else None
  }

  /** The entry TopScene finds in the table is the scene of highest priority, with its seconds. */
  lemma TopSceneByPriority(lists: Lists)
    requires Full(lists) && lists[IN_GARAGE] == []
    ensures RaceShown(lists) == if TopScene(lists) < 17 then Some(RacePriority()[TopScene(lists)]) else None
  {
    var k := TopScene(lists);
    hide TopScene;
    TableEntries();
    hide RacePriority;
  }

  lemma TableEntries()
    ensures var t := RacePriority();
            && t[0] == (FORMATION_LAP_SCENE, 8) && t[1] == (STANDING_START, 6) && t[2] == (CHEQUERED_FLAG, 2)
            && t[3] == (BOX_IS_OUT, 8) && t[4] == (BOX_IS_IN, 3) && t[5] == (BATTLE_IN_02, 8)
            && t[6] == (RED_FLAG, 6) && t[7] == (YELLOW_FLAG, 6) && t[8] == (GREEN_FLAG, 3) && t[9] == (BLUE_FLAG, 6)
            && t[10] == (DRS_ACTIVING, 4) && t[11] == (DRS_APPROVING, 4) && t[12] == (BATTLE_IN_1, 5)
            && t[13] == (BATTLE_IN_2, 4) && t[14] == (BOX, 5) && t[15] == (LAST_LAP, 4) && t[16] == (RANDOM, 5)
            && t[17] == (IN_GARAGE, 0)
  {
  }

  /** A race on the cars' fields alone: when the camera may switch and some ranked car has active status,
      it goes to the head of the list of highest priority for that list's seconds; otherwise it stays. */
  lemma RaceCameraByPriority(f: Focus, lists: Lists, ranked: seq<Car>, cars: seq<nat>, ph: Phase, formation: bool,
                             leaderSlice: int, first: nat, second: nat, now: nat, later: nat)
    requires |cars| == |ranked| && Full(lists) && ListsInRange(lists, |cars|)
    requires RaceLists(lists, ranked, ph, formation, leaderSlice, first, second)
    ensures RaceShown(lists).Some? <==> exists i :: 0 <= i < |ranked| && ranked[i].entry.resultStatus == 2
    ensures var f', shown := RaceFocus(f, lists, cars, now, later), RaceShown(lists);
            if (f.cur.None? || now >= f.end) && shown.Some? then
              && shown.value.0 != LAST && lists[shown.value.0] != []
              && lists[shown.value.0][0] < |cars|
              && f' == Focus(Some(cars[lists[shown.value.0][0]]), shown.value.0, later + shown.value.1)
            else f' == f
  {
    NobodyInGarage(lists, ranked, ph, formation, leaderSlice, first, second);
    SceneExistsExactly(lists, ranked, ph, formation, leaderSlice, first, second);
    CameraGoesToTheHead(f, lists, ranked, cars, ph, formation, leaderSlice, first, second, now, later);
    hide RaceLists, RaceFocus, RacePriority, TopScene;
    TopSceneByPriority(lists);
    hide RaceShown;
  }

  // ----- lap mode -----

  predicate IsSorted(s: Scene) {
    s == IN_GARAGE || s == FLY_LAP || s == IN_LAP || s == OUT_LAP || s == ON_TRACK
  }

  /** A rank is on the list of its status and on no other, and of the sorted lists the head is the
      car furthest into its lap. */
  lemma LapListedExactly(lists: Lists, ranked: seq<Car>, s: Scene)
    requires LapLists(lists, ranked) && s != LAST
    ensures forall i: nat :: i in lists[s] <==> i < |ranked| && LapScene(ranked[i]) == s
    ensures IsSorted(s) && lists[s] != [] ==>
              forall i: nat :: i in lists[s] ==> ranked[i].entry.distance <= ranked[lists[s][0]].entry.distance
  {
    LapPicksExactly(ranked, |ranked|, s);
    if IsSorted(s) {
      assert SortOf(ranked, lists[s], LapPicks(ranked, |ranked|, s), ByLapDistanceDescending);
      hide LapLists, LapPicks, LapScene;
      SortKeepsMembers(ranked, lists[s], LapPicks(ranked, |ranked|, s), ByLapDistanceDescending);
      if lists[s] != [] {
        forall i: nat | i in lists[s]
          ensures ranked[i].entry.distance <= ranked[lists[s][0]].entry.distance
        {
          var k :| 0 <= k < |lists[s]| && lists[s][k] == i;
          assert k == 0 || Key(ByLapDistanceDescending, ranked[lists[s][0]]) <= Key(ByLapDistanceDescending, ranked[i]);
        }
      }
    } else {
      assert lists[s] == LapPicks(ranked, |ranked|, s);
    }
  }

  /** In lap mode, when a switch is allowed, the scene is the first of the table that any ranked car
      is in, and the camera goes to the head of its list for a second, unless it would leave a
      flying lap; with no car in any scene of the table, nothing changes. */
  lemma LapCameraGoesToTheHead(f: Focus, lists: Lists, ranked: seq<Car>, cars: seq<nat>, now: nat, later: nat)
    requires |cars| == |ranked| && Full(lists) && ListsInRange(lists, |cars|)
    requires LapLists(lists, ranked) && (f.cur.None? || now >= f.end)
    ensures var k, f' := FirstShown(lists, LapPriority()), LapFocus(f, lists, cars, now, later);
            && (forall i, j :: 0 <= i < |ranked| && 0 <= j < k ==> LapScene(ranked[i]) != LapPriority()[j].0)
            && (k == 5 ==> f' == f)
            && (k < 5 ==>
                  var s := LapPriority()[k].0;
                  lists[s] != [] && LapScene(ranked[lists[s][0]]) == s
                  && f' == if f.cur.Some? && f.scene == FLY_LAP && f.cur.value != cars[lists[s][0]]
                           then Focus(f.cur, NOT_FLY_LAP, later + 2)
                           else Focus(Some(cars[lists[s][0]]), s, later + 1))
  {
    hide LapLists, LapScene, LapPriority;
    var k := FirstShown(lists, LapPriority());
    forall i: nat, j: nat | i < |ranked| && j < k ensures LapScene(ranked[i]) != LapPriority()[j].0 {
      LapListedExactly(lists, ranked, LapPriority()[j].0);
    }
    if k < 5 {
      var s := LapPriority()[k].0;
      LapListedExactly(lists, ranked, s);
      assert lists[s][0] in lists[s];
    }
  }

  /** Who is on which list outside a race, on the fields of the cars: driver status 0 to 4 is garage,
      flying lap, in lap, out lap and track. A flying lap is shown as one only while it is valid, less
      than 2.5 s behind the leader and 0.3 s behind the own best, and the front wing is good. */
  lemma LapListedOnFields(lists: Lists, ranked: seq<Car>, i: nat)
    requires LapLists(lists, ranked) && i < |ranked|
    ensures var c := ranked[i];
            var flying := c.entry.driverStatus == 1;
            var good := c.entry.invalid == 0 && c.gaps.leaderJit < 2.5 && c.gaps.bestLapJit < 0.3
                        && c.frontWingDamage < 10;
            && (i in lists[FLY_LAP] <==> flying && good)
            && (i in lists[NOT_FLY_LAP] <==> flying && !good)
            && (i in lists[IN_GARAGE] <==> c.entry.driverStatus == 0)
            && (i in lists[IN_LAP] <==> c.entry.driverStatus == 2)
            && (i in lists[OUT_LAP] <==> c.entry.driverStatus == 3)
            && (i in lists[ON_TRACK] <==> c.entry.driverStatus == 4)
  {
    forall s: Scene | s != LAST ensures i in lists[s] <==> LapScene(ranked[i]) == s {
      LapListedExactly(lists, ranked, s);
    }
    hide LapLists;
  }

  /** The lap scene to show, by priority. */
  function LapShown(lists: Lists): Option<Scene>
    requires Full(lists)
  {
    if lists[FLY_LAP] != [] then Some(FLY_LAP)
    else if lists[OUT_LAP] != [] then Some(OUT_LAP)
    else if lists[NOT_FLY_LAP] != [] then Some(NOT_FLY_LAP)
    else if lists[IN_LAP] != [] then Some(IN_LAP)
    else if lists[IN_GARAGE] != [] then Some(IN_GARAGE)
    else None
  }

  lemma FirstLapSceneByPriority(lists: Lists)
    requires Full(lists)
    ensures var k := FirstShown(lists, LapPriority());
            LapShown(lists) == if k < 5 then Some(LapPriority()[k].0) else None
  {
    var k := FirstShown(lists, LapPriority());
    LapEntries();
    hide FirstShown, LapPriority;
  }

  lemma LapEntries()
    ensures var t := LapPriority();
            t[0].0 == FLY_LAP && t[1].0 == OUT_LAP && t[2].0 == NOT_FLY_LAP && t[3].0 == IN_LAP && t[4].0 == IN_GARAGE
  {
  }

  /** Lap mode by priority: the camera goes to the head of the first list for a second, unless that
      leaves a flying lap, whose car is kept as not_fly_lap for two. */
  lemma LapCameraByPriority(f: Focus, lists: Lists, ranked: seq<Car>, cars: seq<nat>, now: nat, later: nat)
    requires |cars| == |ranked| && Full(lists) && ListsInRange(lists, |cars|) && LapLists(lists, ranked)
    ensures var f', shown := LapFocus(f, lists, cars, now, later), LapShown(lists);
            if (f.cur.None? || now >= f.end) && shown.Some? then
              && shown.value != LAST && lists[shown.value] != [] && lists[shown.value][0] < |cars|
              && var head := cars[lists[shown.value][0]];
                 f' == if f.cur.Some? && f.scene == FLY_LAP && f.cur.value != head
                       then Focus(f.cur, NOT_FLY_LAP, later + 2) else Focus(Some(head), shown.value, later + 1)
            else f' == f
  {
    FirstLapSceneByPriority(lists);
    if f.cur.None? || now >= f.end { LapCameraGoesToTheHead(f, lists, ranked, cars, now, later); }
    else { assert LapFocus(f, lists, cars, now, later) == f; }
    hide LapLists, LapFocus, FirstShown, LapPriority, LapShown, LapScene;
  }

  // ----- runs of the camera -----

  /** One call of reCalcuteRaceFocus or reCalcuteLapFocus: whatever lists the classifier left, and
      the readings of CanSwitch and SwitchCar. */
  datatype Cue = Cue(race: bool, lists: Lists, cars: seq<nat>, now: nat, later: nat)
  {
    predicate Ok() {
      Full(lists) && ListsInRange(lists, |cars|)
    }
  }

  function Cued(f: Focus, c: Cue): Focus
    requires c.Ok()
  {
    if c.race then RaceFocus(f, c.lists, c.cars, c.now, c.later) else LapFocus(f, c.lists, c.cars, c.now, c.later)
  }

  ghost predicate CuesOk(cues: seq<Cue>) {
    && (forall k :: 0 <= k < |cues| ==> cues[k].Ok() && cues[k].now <= cues[k].later)
    && (forall k :: 0 < k < |cues| ==> cues[k - 1].later <= cues[k].now)
  }

  /** The camera after the first k cues since it was initialised. */
  function FocusAt(cues: seq<Cue>, k: nat): Focus
    requires CuesOk(cues) && k <= |cues|
  {
    if k == 0 then NO_FOCUS else Cued(FocusAt(cues, k - 1), cues[k - 1])
  }

  lemma FocusStep(cues: seq<Cue>, k: nat)
    requires CuesOk(cues) && k < |cues|
    ensures cues[k].Ok() && FocusAt(cues, k + 1) == Cued(FocusAt(cues, k), cues[k])
  {
  }

  lemma CuedHolds(f: Focus, c: Cue)
    requires c.Ok()
    ensures f.cur.Some? ==> Cued(f, c).cur.Some?
    ensures f.cur.Some? && c.now < f.end ==> Cued(f, c) == f
  {
  }

  /** Once the camera is on a car it stays on some car. */
  lemma {:induction false} FocusStaysSet(cues: seq<Cue>, j: nat, k: nat)
    requires CuesOk(cues) && j <= k <= |cues| && FocusAt(cues, j).cur.Some?
    ensures FocusAt(cues, k).cur.Some?
    decreases k
  {
    if j < k {
      hide Cued;
      FocusStaysSet(cues, j, k - 1);
      CuedHolds(FocusAt(cues, k - 1), cues[k - 1]);
    }
  }

  lemma {:induction false} NowGrows(cues: seq<Cue>, j: nat, k: nat)
    requires CuesOk(cues) && j <= k < |cues|
    ensures cues[j].now <= cues[k].now
  {
    if j < k { NowGrows(cues, j, k - 1); }
  }

  /** After a switch neither the car nor the scene changes before its time has run out. */
  lemma {:induction false} SwitchHolds(cues: seq<Cue>, j: nat, k: nat)
    requires CuesOk(cues) && j <= k < |cues| && FocusAt(cues, j).cur.Some?
    requires cues[k].now < FocusAt(cues, j).end
    ensures FocusAt(cues, k + 1) == FocusAt(cues, j)
    decreases k
  {
    hide Cued;
    if j < k {
      NowGrows(cues, k - 1, k);
      SwitchHolds(cues, j, k - 1);
    }
    CuedHolds(FocusAt(cues, k), cues[k]);
  }

  /** The car a cue would show, if any list of the lap table holds one. */
  function HeadCar(c: Cue): Option<nat>
    requires c.Ok()
  {
    var k := FirstShown(c.lists, LapPriority());
    if k < |LapPriority()| then Some(c.cars[c.lists[LapPriority()[k].0][0]]) else None
  }

  predicate OnFlyLap(f: Focus, car: nat) {
    f.cur == Some(car) && f.scene == FLY_LAP
  }

  /** The camera f shows `car`, just taken off its flying lap by the cue: for two seconds as
      not_fly_lap when the cue's head was another car, for one in its new scene otherwise. */
  ghost predicate TakenOff(f: Focus, car: nat, c: Cue)
    requires c.Ok()
  {
    && f.cur == Some(car) && f.scene != FLY_LAP
    && f.end == c.later + (if HeadCar(c) != Some(car) then 2 else 1)
    && (HeadCar(c) != Some(car) ==> f.scene == NOT_FLY_LAP)
  }

  /** What one cue of lap mode does to a camera on a flying lap. */
  lemma LapCueFromFlyLap(f: Focus, c: Cue, car: nat)
    requires c.Ok() && !c.race && OnFlyLap(f, car)
    ensures OnFlyLap(Cued(f, c), car) || TakenOff(Cued(f, c), car, c)
  {
  }

  ghost predicate LapMode(cues: seq<Cue>, j: nat, k: nat)
    requires j <= k <= |cues|
  {
    forall m :: j <= m < k ==> !cues[m].race
  }

  /** Leaving a flying lap: step q took `car` off it, step r showed another car, and between them it
      was `car` all the time, under other scenes, at least as long as TakenOff says. */
  ghost predicate Handover(cues: seq<Cue>, car: nat, q: nat, r: nat)
    requires CuesOk(cues)
  {
    && q < r < |cues|
    && OnFlyLap(FocusAt(cues, q), car) && TakenOff(FocusAt(cues, q + 1), car, cues[q])
    && (forall m :: q < m <= r ==> FocusAt(cues, m).cur == Some(car) && FocusAt(cues, m).scene != FLY_LAP)
    && FocusAt(cues, r + 1).cur.Some? && FocusAt(cues, r + 1).cur != Some(car)
    && (forall m :: q < m < |cues| && cues[m].now < FocusAt(cues, q + 1).end ==>
          FocusAt(cues, m + 1) == FocusAt(cues, q + 1))
    && FocusAt(cues, q + 1).end <= cues[r].now
  }

  lemma TakenOffHolds(cues: seq<Cue>, q: nat)
    requires CuesOk(cues) && q < |cues| && FocusAt(cues, q + 1).cur.Some?
    ensures forall m :: q < m < |cues| && cues[m].now < FocusAt(cues, q + 1).end ==>
              FocusAt(cues, m + 1) == FocusAt(cues, q + 1)
  {
    hide FocusAt, CuesOk;
    forall m | q < m < |cues| && cues[m].now < FocusAt(cues, q + 1).end
      ensures FocusAt(cues, m + 1) == FocusAt(cues, q + 1)
    {
      SwitchHolds(cues, q + 1, m);
    }
  }

  /** In lap mode the camera never goes from a car on a flying lap straight to another car. Between
      the two, the first car is shown under another scene: as not_fly_lap and for two seconds
      exactly when the cue that took it off its flying lap would have shown another car, and
      otherwise for one second under the scene its own list gave it. */
  lemma FlyLapHandover(cues: seq<Cue>, car: nat, j: nat, k: nat)
    requires CuesOk(cues) && j <= k <= |cues| && LapMode(cues, j, k)
    requires OnFlyLap(FocusAt(cues, j), car) && FocusAt(cues, k).cur != Some(car)
    ensures exists q: nat, r: nat :: j <= q < r < k && Handover(cues, car, q, r)
  {
    hide Cued, TakenOff, FirstShown, FocusAt, CuesOk;
    var r := FirstLeft(cues, car, j, k);
    var q := LastFlyLap(cues, car, j, r);
    FocusStep(cues, q);
    FocusStep(cues, r);
    LapCueFromFlyLap(FocusAt(cues, q), cues[q], car);
    if q == r { TakenOffShows(FocusAt(cues, r + 1), car, cues[r]); }
    TakenOffHolds(cues, q);
    FocusStaysSet(cues, j, r + 1);
    HoldsUntil(cues, q, r);
    assert Handover(cues, car, q, r);
  }

  lemma TakenOffShows(f: Focus, car: nat, c: Cue)
    requires c.Ok() && TakenOff(f, car, c)
    ensures f.cur == Some(car)
  {
  }

  /** Whatever changes the camera after step q comes no sooner than its end. */
  lemma HoldsUntil(cues: seq<Cue>, q: nat, r: nat)
    requires CuesOk(cues) && q < r < |cues|
    requires forall m :: q < m < |cues| && cues[m].now < FocusAt(cues, q + 1).end ==>
               FocusAt(cues, m + 1) == FocusAt(cues, q + 1)
    requires FocusAt(cues, r + 1).cur != FocusAt(cues, q + 1).cur
    ensures FocusAt(cues, q + 1).end <= cues[r].now
  {
    hide FocusAt;
  }

  /** The first step from j on that shows another car. */
  lemma FirstLeft(cues: seq<Cue>, car: nat, j: nat, k: nat) returns (r: nat)
    requires CuesOk(cues) && j <= k <= |cues|
    requires FocusAt(cues, j).cur == Some(car) && FocusAt(cues, k).cur != Some(car)
    ensures j <= r < k && FocusAt(cues, r + 1).cur != Some(car)
    ensures forall m :: j <= m <= r ==> FocusAt(cues, m).cur == Some(car)
  {
    hide FocusAt;
    r := j;
    while FocusAt(cues, r + 1).cur == Some(car)
      invariant j <= r < k
      invariant forall m :: j <= m <= r ==> FocusAt(cues, m).cur == Some(car)
      decreases k - r
    {
      r := r + 1;
    }
  }

  /** The last of the steps j..r at which the camera is on the car's flying lap. */
  lemma LastFlyLap(cues: seq<Cue>, car: nat, j: nat, r: nat) returns (q: nat)
    requires CuesOk(cues) && j <= r <= |cues| && OnFlyLap(FocusAt(cues, j), car)
    requires forall m :: j <= m <= r ==> FocusAt(cues, m).cur == Some(car)
    ensures j <= q <= r && OnFlyLap(FocusAt(cues, q), car)
    ensures forall m :: q < m <= r ==> FocusAt(cues, m).scene != FLY_LAP
  {
    hide FocusAt;
    q := r;
    while !OnFlyLap(FocusAt(cues, q), car)
      invariant j <= q <= r
      invariant forall m :: q < m <= r ==> FocusAt(cues, m).scene != FLY_LAP
      decreases q
    {
      q := q - 1;
    }
  }

  // ----- handovers after one second -----

  /** Cars 7 and 8 stand at ranks 0 and 1; rank i is alone on list s. */
  function Showing(s: Scene, i: nat, now: nat): Cue
    requires s != LAST
  {
    Cue(false, NoLists()[s := [i]], [7, 8], now, now)
  }

  lemma ShowingIs(f: Focus, s: Scene, i: nat, now: nat)
    requires Sign(s)
    requires i < 2 && CanSwitch(f, now)
    ensures var c := Showing(s, i, now);
            && c.Ok() && HeadCar(c) == Some([7, 8][i])
            && Cued(f, c) == if f.cur.Some? && f.scene == FLY_LAP && f.cur != Some([7, 8][i])
                             then Focus(f.cur, NOT_FLY_LAP, now + 2)
                             else Focus(Some([7, 8][i]), s, now + 1)
  {
    var c := Showing(s, i, now);
    var table := LapPriority();
    var k := if s == FLY_LAP then 0 else if s == OUT_LAP then 1 else if s == NOT_FLY_LAP then 2 else 3;
    assert c.lists[s] == [i];
    assert ListsInRange(c.lists, 2);
    FirstShownIs(c.lists, table, k);
  }

  /** Three cues a second apart, the last for car 8. */
  function ThreeCues(a: Scene, b: Scene, c: Scene): (cues: seq<Cue>)
    requires a != LAST && b != LAST && c != LAST
    ensures |cues| == 3
  {
    [Showing(a, 0, 0), Showing(b, 0, 1), Showing(c, 1, 2)]
  }

  predicate Sign(s: Scene) {
    s == FLY_LAP || s == OUT_LAP || s == NOT_FLY_LAP || s == IN_LAP
  }

  lemma ThreeCuesRun(b: Scene, c: Scene)
    requires Sign(b) && Sign(c) && b != FLY_LAP
    ensures var cues := ThreeCues(FLY_LAP, b, c);
            && CuesOk(cues) && LapMode(cues, 0, 3)
            && FocusAt(cues, 1) == Focus(Some(7), FLY_LAP, 1)
            && FocusAt(cues, 2) == Focus(Some(7), b, 2)
            && FocusAt(cues, 3) == Focus(Some(8), c, 3)
  {
    var cues := ThreeCues(FLY_LAP, b, c);
    ThreeCuesOk(b, c);
    assert cues[0] == Showing(FLY_LAP, 0, 0) && cues[1] == Showing(b, 0, 1) && cues[2] == Showing(c, 1, 2);
    assert FocusAt(cues, 0) == NO_FOCUS;
    hide FocusAt, CuesOk, LapMode, ThreeCues, Showing, Cued, HeadCar;
    FocusStep(cues, 0);
    ShowingIs(NO_FOCUS, FLY_LAP, 0, 0);
    FocusStep(cues, 1);
    ShowingIs(Focus(Some(7), FLY_LAP, 1), b, 0, 1);
    FocusStep(cues, 2);
    ShowingIs(Focus(Some(7), b, 2), c, 1, 2);
  }

  lemma ThreeCuesOk(b: Scene, c: Scene)
    requires Sign(b) && Sign(c)
    ensures CuesOk(ThreeCues(FLY_LAP, b, c)) && LapMode(ThreeCues(FLY_LAP, b, c), 0, 3)
  {
    hide Cued, HeadCar, FirstShown, Showing;
    ShowingIs(NO_FOCUS, FLY_LAP, 0, 0);
    ShowingIs(NO_FOCUS, b, 0, 1);
    ShowingIs(NO_FOCUS, c, 1, 2);
    ShowingTimes(FLY_LAP, 0, 0);
    ShowingTimes(b, 0, 1);
    ShowingTimes(c, 1, 2);
  }

  lemma ShowingTimes(s: Scene, i: nat, now: nat)
    requires s != LAST
    ensures Showing(s, i, now).now == Showing(s, i, now).later == now && !Showing(s, i, now).race
  {
  }

  /** A car whose own list takes it off its flying lap is left after one second, with not_fly_lap
      shown in between or not. */
  lemma OneSecondHandovers()
    ensures exists cues :: CuesOk(cues) && LapMode(cues, 0, |cues|) && |cues| == 3
                        && FocusAt(cues, 1) == Focus(Some(7), FLY_LAP, 1)
                        && FocusAt(cues, 2) == Focus(Some(7), NOT_FLY_LAP, 2)
                        && FocusAt(cues, 3) == Focus(Some(8), OUT_LAP, 3)
    ensures exists cues :: CuesOk(cues) && LapMode(cues, 0, |cues|) && |cues| == 3
                        && FocusAt(cues, 1) == Focus(Some(7), FLY_LAP, 1)
                        && FocusAt(cues, 2) == Focus(Some(7), IN_LAP, 2)
                        && FocusAt(cues, 3) == Focus(Some(8), FLY_LAP, 3)
  {
    hide FocusAt, CuesOk;
    ThreeCuesRun(NOT_FLY_LAP, OUT_LAP);
    ThreeCuesRun(IN_LAP, FLY_LAP);
  }
}
