/** Rows that refer to a session must come after the session's own row, and lap data must reach
    the car state only once the session is known. */
module ParentRows {
  import opened Options
  import opened Packets
  import opened PacketHouses
  import opened HouseRuns

  /** Emissions with rows that carry a foreign key to the SessionList row of their begin. */
  predicate IsChild(e: Emission) {
    (e.Final? || e.Tick?) && HasText(e)
  }

  /** The latest header among the first n steps is step j's. */
  ghost predicate LatestHeader(t0: nat, ins: seq<Input>, n: nat, j: nat)
    requires n <= |ins|
  {
    && j < n && OutAt(t0, ins, j).sql.Header?
    && forall m :: j < m < n ==> !OutAt(t0, ins, m).sql.Header?
  }

  /** Some header came among the first n steps, and the latest one has this begin. */
  ghost predicate HeaderBefore(t0: nat, ins: seq<Input>, n: nat, begin: nat)
    requires n <= |ins|
  {
    exists j :: LatestHeader(t0, ins, n, j) && OutAt(t0, ins, j).sql.begin == begin
  }

  /** Every child row of the run comes after a header, and carries the begin of the latest one. */
  ghost predicate ParentSafe(t0: nat, ins: seq<Input>) {
    forall k :: 0 <= k < |ins| && IsChild(OutAt(t0, ins, k).sql) ==>
      HeaderBefore(t0, ins, k, OutAt(t0, ins, k).sql.begin)
  }

  ghost predicate NoSession(ins: seq<Input>) {
    forall k :: 0 <= k < |ins| ==> !IsSessionInput(ins[k])
  }

  /** The first SessionData of the log, if any, has a key that is not all zero. */
  ghost predicate FirstSessionKeyed(ins: seq<Input>) {
    forall k :: 0 <= k < |ins| && IsSessionInput(ins[k]) && NoSession(ins[..k]) ==>
      ins[k].p.Key() != ZERO.Key()
  }

  lemma TurnBegin(h: House, i: Input)
    requires WellFormed(h)
    ensures var o := Turn(h, i);
            && (o.isNew ==> o.sql.Header? && o.sql.begin == o.house.begin)
            && (!o.isNew ==> o.house.begin == h.begin)
            && (IsChild(o.sql) ==> !o.isNew && o.sql.begin == h.begin && SESSION_DATA in o.house.recv)
  {
    hide Routed;
  }

  lemma NoSessionSlot(ins: seq<Input>)
    ensures NoSession(ins) <==> LastIndex(ins, SESSION_DATA) < 0
  {
    var k := LastIndex(ins, SESSION_DATA);
    assert k >= 0 ==> IsSessionInput(ins[k]);
  }

  /** A header stays the latest over a step that is none. */
  lemma HeaderCarries(t0: nat, ins: seq<Input>, begin: nat)
    requires ins != [] && !OutAt(t0, ins, |ins| - 1).sql.Header?
    requires HeaderBefore(t0, ins[..|ins| - 1], |ins| - 1, begin)
    ensures HeaderBefore(t0, ins, |ins|, begin)
  {
    hide OutAt;
    var n := |ins| - 1;
    var j :| LatestHeader(t0, ins[..n], n, j) && OutAt(t0, ins[..n], j).sql.begin == begin;
    forall m: nat | m < n ensures OutAt(t0, ins[..n], m) == OutAt(t0, ins, m) { OutOfPrefix(t0, ins, n, m); }
    assert LatestHeader(t0, ins, n + 1, j);
  }

  /** Without a new session, a known session was known before: its header is there already. */
  lemma KnownBefore(t0: nat, ins: seq<Input>)
    requires ins != [] && FirstSessionKeyed(ins) && SESSION_DATA in After(t0, ins).recv && !LastOut(t0, ins).isNew
    ensures SESSION_DATA in After(t0, ins[..|ins| - 1]).recv && FirstSessionKeyed(ins[..|ins| - 1])
  {
    hide Turn;
    var front := ins[..|ins| - 1];
    assert forall k :: 0 <= k < |front| ==> front[..k] == ins[..k];
    LogInvariant(t0, front);
    LogInvariant(t0, ins);
    SessionEdgesAreExact(t0, ins);
    NoSessionSlot(front);
    hide LastOut, After;
  }

  lemma {:induction false} HeaderExists(t0: nat, ins: seq<Input>)
    requires FirstSessionKeyed(ins)
    ensures SESSION_DATA in After(t0, ins).recv ==> HeaderBefore(t0, ins, |ins|, After(t0, ins).begin)
  {
    hide Turn;
    if ins != [] && SESSION_DATA in After(t0, ins).recv {
      var n := |ins| - 1;
      LastStep(t0, ins);
      TurnBegin(After(t0, ins[..n]), ins[n]);
      SessionEdgesAreExact(t0, ins);
      if LastOut(t0, ins).isNew {
        assert ins[..n + 1] == ins;
        assert LatestHeader(t0, ins, n + 1, n);
      } else {
        KnownBefore(t0, ins);
        assert ins[..n + 1] == ins;
        hide FirstSessionKeyed, HeaderBefore, LastOut, After;
        HeaderExists(t0, ins[..n]);
        HeaderCarries(t0, ins, After(t0, ins[..n]).begin);
      }
    }
  }

  lemma KeyedPrefix(ins: seq<Input>, n: nat)
    requires FirstSessionKeyed(ins) && n <= |ins|
    ensures FirstSessionKeyed(ins[..n])
  {
    forall j | 0 <= j <= n ensures ins[..n][..j] == ins[..j] { }
  }

  lemma HeaderOfPrefix(t0: nat, ins: seq<Input>, n: nat, begin: nat)
    requires 0 < n <= |ins| && HeaderBefore(t0, ins[..n], n, begin) && !OutAt(t0, ins, n - 1).sql.Header?
    ensures HeaderBefore(t0, ins, n - 1, begin)
  {
    hide OutAt;
    var j :| LatestHeader(t0, ins[..n], n, j) && OutAt(t0, ins[..n], j).sql.begin == begin;
    forall m: nat | m < n ensures OutAt(t0, ins[..n], m) == OutAt(t0, ins, m) { OutOfPrefix(t0, ins, n, m); }
    assert LatestHeader(t0, ins, n - 1, j);
  }

  lemma KeyedStepIsSafe(t0: nat, ins: seq<Input>, k: nat)
    requires FirstSessionKeyed(ins) && k < |ins| && IsChild(OutAt(t0, ins, k).sql)
    ensures HeaderBefore(t0, ins, k, OutAt(t0, ins, k).sql.begin)
  {
    hide Turn;
    var part := ins[..k + 1];
    assert part[..k] == ins[..k];
    LastStep(t0, part);
    TurnBegin(After(t0, ins[..k]), ins[k]);
    KeyedPrefix(ins, k + 1);
    hide FirstSessionKeyed, HeaderBefore;
    HeaderExists(t0, part);
    HeaderOfPrefix(t0, ins, k + 1, After(t0, part).begin);
  }

  /** If the first SessionData has a key that is not all zero, every child row comes strictly after
      a header, and carries the begin of the latest one. */
  lemma KeyedRunsAreSafe(t0: nat, ins: seq<Input>)
    requires FirstSessionKeyed(ins)
    ensures ParentSafe(t0, ins)
  {
    forall k | 0 <= k < |ins| && IsChild(OutAt(t0, ins, k).sql)
      ensures HeaderBefore(t0, ins, k, OutAt(t0, ins, k).sql.begin)
    {
      KeyedStepIsSafe(t0, ins, k);
    }
  }

  /** After a first SessionData with the zero key, a final classification goes out without header. */
  lemma ZeroKeyOrphans(t0: nat, pre: seq<Input>, s: Input) returns (rest: seq<Input>)
    requires NoSession(pre) && IsSessionInput(s) && s.p.Key() == ZERO.Key()
    ensures !ParentSafe(t0, pre + [s] + rest)
  {
    hide Turn;
    var t := s.later;
    var a := Datagram(ZERO.(id := PARTICIPANTS), t, t, t);
    var b := Datagram(ZERO.(id := FINAL_CLASSIFICATION, rows := 1), t, t, t);
    rest := [a, b];
    var ins := pre + [s] + rest;
    var n := |pre|;
    forall k | 0 <= k < n + 3 ensures !OutAt(t0, ins, k).sql.Header? {
      var part := ins[..k + 1];
      SessionEdgesAreExact(t0, part);
      assert part[..k] == ins[..k];
      if k == n {
        assert ins[..k] == pre;
        NoSessionSlot(pre);
      } else if k < n {
        assert ins[k] == pre[k];
      }
    }
    var front := ins[..n + 2];
    assert ins[..n + 3] == ins && ins[..n + 3][..n + 2] == front;
    LogInvariant(t0, front);
    LastStep(t0, ins);
    assert front[n + 1] == a && front[n] == s;
    LastIndexStep(front, PARTICIPANTS);
    LastIndexStep(front, SESSION_DATA);
    LastIndexStep(front[..n + 1], SESSION_DATA);
    FinalGoesOut(After(t0, front), b);
    assert IsChild(OutAt(t0, ins, n + 2).sql);
  }

  lemma FinalGoesOut(h: House, i: Input)
    requires WellFormed(h) && Settled(h) && Stores(i, FINAL_CLASSIFICATION)
    requires Recv(h, PARTICIPANTS) && Recv(h, SESSION_DATA) && i.p.uid == h.uid
    ensures Turn(h, i).sql.Final? && Turn(h, i).sql.p == i.p
  {
  }

  /** No run that continues a log whose first SessionData is `s` ever emits a child row before
      its header, exactly when the key of `s` is not all zero. */
  lemma ParentBeforeChildren(t0: nat, pre: seq<Input>, s: Input)
    requires NoSession(pre) && IsSessionInput(s)
    ensures (forall rest: seq<Input> :: ParentSafe(t0, pre + [s] + rest)) <==> s.p.Key() != ZERO.Key()
  {
    hide Turn;
    if s.p.Key() == ZERO.Key() {
      var rest := ZeroKeyOrphans(t0, pre, s);
    } else {
      forall rest: seq<Input> ensures ParentSafe(t0, pre + [s] + rest) {
        var ins := pre + [s] + rest;
        assert forall k :: 0 <= k < |pre| ==> ins[k] == pre[k];
        assert forall k :: |pre| < k <= |ins| ==> ins[..k][|pre|] == s;
        assert FirstSessionKeyed(ins);
        KeyedRunsAreSafe(t0, ins);
      }
    }
  }

  // ----- what reaches the car state -----

  /** The argument of the last FillSession among the calls. */
  function KnownSession(calls: seq<CarCall>): Option<Packet> {
    if calls == [] then None
    else if calls[|calls| - 1].FillSession? then Some(calls[|calls| - 1].p)
    else KnownSession(calls[..|calls| - 1])
  }

  /** Whether FillLapData was called since the last Init. */
  predicate Ranked(calls: seq<CarCall>) {
    if calls == [] || calls[|calls| - 1].Init? then false
    else calls[|calls| - 1].FillLapData? || Ranked(calls[..|calls| - 1])
  }

  /** Every FillLapData comes after a FillSession, so the track length it divides by is known. */
  ghost predicate LapsKnowSession(calls: seq<CarCall>) {
    forall m :: 0 <= m < |calls| && calls[m].FillLapData? ==> KnownSession(calls[..m]).Some?
  }

  ghost predicate CarsInStep(h: House)
    requires WellFormed(h)
  {
    && LapsKnowSession(h.cars)
    && (SESSION_DATA in h.recv ==> KnownSession(h.cars) == Some(h.slots[SESSION_DATA]))
  }

  lemma CallsAppend(calls: seq<CarCall>, c: CarCall)
    ensures KnownSession(calls + [c]) == if c.FillSession? then Some(c.p) else KnownSession(calls)
    ensures Ranked(calls + [c]) <==> !c.Init? && (c.FillLapData? || Ranked(calls))
    ensures LapsKnowSession(calls) && (c.FillLapData? ==> KnownSession(calls).Some?) ==> LapsKnowSession(calls + [c])
  {
    assert (calls + [c])[..|calls|] == calls;
    assert forall m :: 0 <= m <= |calls| ==> (calls + [c])[..m] == calls[..m];
  }

  /** The calls one turn makes, in order. */
  function StoreCalls(h: House, i: Input): seq<CarCall>
    requires WellFormed(h)
  {
    if !i.Datagram? then []
    else if i.p.id == LAP_DATA then
      if SESSION_DATA in h.recv && h.slots[SESSION_DATA].uid == h.uid then [FillLapData(i.p)] else []
    else if i.p.id == EVENT_DATA then if i.p.code == "FLBK" then [SetFlashBack] else []
    else if i.p.id == SESSION_HISTORY then [FillHistory(i.p)]
    else if i.p.id == SESSION_DATA then [FillSession(i.p)]
    else if i.p.id in {CAR_STATUS, CAR_TELEMETRY, CAR_DAMAGE, CAR_MOTION} then [FillOther(i.p)]
    else []
  }

  lemma TurnCalls(h: House, i: Input)
    requires WellFormed(h)
    ensures var o := Turn(h, i);
            o.house.cars ==
              if o.isNew then h.cars + StoreCalls(h, i) + [Init, FillSession(o.house.slots[SESSION_DATA])]
              else if HasBatch(o.sql) then h.cars + StoreCalls(h, i) + [ToSql]
              else h.cars + StoreCalls(h, i)
  {
    if i.Datagram? { assert Stored(h, i.p, i.at).cars == h.cars + StoreCalls(h, i); }
    assert h.cars + [] == h.cars;
  }

  /** What a turn does to the calls, as the three possible continuations. */
  lemma CallsContinue(calls: seq<CarCall>, own: seq<CarCall>)
    requires |own| <= 1
    ensures own == [] ==> calls + own == calls
    ensures own != [] ==>
              && KnownSession(calls + own) == (if own[0].FillSession? then Some(own[0].p) else KnownSession(calls))
              && (Ranked(calls + own) <==> !own[0].Init? && (own[0].FillLapData? || Ranked(calls)))
              && (LapsKnowSession(calls) && (own[0].FillLapData? ==> KnownSession(calls).Some?) ==>
                    LapsKnowSession(calls + own))
  {
    if own != [] {
      assert own == [own[0]];
      CallsAppend(calls, own[0]);
    }
  }

  lemma CallsRestart(calls: seq<CarCall>, s: Packet)
    requires LapsKnowSession(calls)
    ensures var next := calls + [Init, FillSession(s)];
            LapsKnowSession(next) && KnownSession(next) == Some(s) && !Ranked(next)
  {
    CallsAppend(calls, Init);
    CallsAppend(calls + [Init], FillSession(s));
    assert calls + [Init] + [FillSession(s)] == calls + [Init, FillSession(s)];
  }

  /** What a turn does to the calls, by the three things it can append. */
  lemma TurnAppends(h: House, i: Input)
    requires WellFormed(h) && Settled(h)
    ensures var o, own := Turn(h, i), StoreCalls(h, i);
            && o.house.cars == h.cars + own + (if o.isNew then [Init, FillSession(o.house.slots[SESSION_DATA])]
                                               else if HasBatch(o.sql) then [ToSql] else [])
            && |own| <= 1
            && (own != [] ==> !own[0].Init? && (own[0].FillLapData? <==> Stores(i, LAP_DATA) && SESSION_DATA in h.recv))
            && (own == [] ==> !(Stores(i, LAP_DATA) && SESSION_DATA in h.recv))
            && (own != [] && own[0].FillLapData? ==> own[0].p == i.p)
            && (own != [] && own[0].FillSession? <==> IsSessionInput(i))
            && (own != [] && own[0].FillSession? ==> own[0].p == i.p)
  {
    TurnCalls(h, i);
    hide Turn;
    var o, own := Turn(h, i), StoreCalls(h, i);
    assert (h.cars + own) + [] == h.cars + own;
  }

  lemma TurnRanks(h: House, i: Input)
    requires WellFormed(h) && Settled(h)
    ensures Ranked(Turn(h, i).house.cars) <==>
              !Turn(h, i).isNew && (Ranked(h.cars) || (Stores(i, LAP_DATA) && SESSION_DATA in h.recv))
  {
    hide Turn, StoreCalls, LapsKnowSession, KnownSession;
    TurnAppends(h, i);
    var own := StoreCalls(h, i);
    CallsContinue(h.cars, own);
    RankedAfter(h.cars + own, Turn(h, i).house.slots[SESSION_DATA]);
    hide Ranked, Settled;
    assert h.cars + own + [] == h.cars + own;
  }

  lemma RankedAfter(calls: seq<CarCall>, s: Packet)
    ensures !Ranked(calls + [Init, FillSession(s)]) && (Ranked(calls + [ToSql]) <==> Ranked(calls))
  {
    CallsAppend(calls, ToSql);
    CallsAppend(calls, Init);
    CallsAppend(calls + [Init], FillSession(s));
    assert calls + [Init] + [FillSession(s)] == calls + [Init, FillSession(s)];
  }

  lemma TurnCarState(h: House, i: Input)
    requires WellFormed(h) && h.cur <= h.recv && Settled(h) && CarsInStep(h)
    ensures CarsInStep(Turn(h, i).house)
  {
    hide Turn, StoreCalls, Ranked, LapsKnowSession, KnownSession;
    TurnAppends(h, i);
    TurnStores(h, i);
    TurnSettles(h, i);
    var own, s := StoreCalls(h, i), Turn(h, i).house.slots[SESSION_DATA];
    CallsContinue(h.cars, own);
    hide Settled;
    if Turn(h, i).isNew {
      CallsRestart(h.cars + own, s);
    } else if HasBatch(Turn(h, i).sql) {
      CallsAppend(h.cars + own, ToSql);
    } else {
      assert h.cars + own + [] == h.cars + own;
    }
  }

  lemma {:induction false} CarStateInvariant(t0: nat, ins: seq<Input>)
    ensures CarsInStep(After(t0, ins))
  {
    hide Turn;
    if ins != [] {
      var front := ins[..|ins| - 1];
      CarStateInvariant(t0, front);
      LogInvariant(t0, front);
      LastStep(t0, ins);
      TurnCarState(After(t0, front), ins[|ins| - 1]);
    } else {
      assert [Init][..0] == [];
    }
  }

  /** In every run, lap data reaches the car state only after a session did, and the session the
      car state knows is the stored one. */
  lemma LapDataKnowsItsSession(t0: nat, ins: seq<Input>)
    ensures var h := After(t0, ins);
            && (forall m :: 0 <= m < |h.cars| && h.cars[m].FillLapData? ==> KnownSession(h.cars[..m]).Some?)
            && (LastIndex(ins, SESSION_DATA) >= 0 ==> KnownSession(h.cars) == Some(LastPacket(ins, SESSION_DATA)))
  {
    hide Turn;
    CarStateInvariant(t0, ins);
    LogInvariant(t0, ins);
  }

  /** Some lap packet was stored since the session began, at a time a session was already known. */
  ghost predicate LapStoredInSession(t0: nat, ins: seq<Input>) {
    exists k :: SessionStart(t0, ins) <= k < |ins| && Stores(ins[k], LAP_DATA) && !NoSession(ins[..k])
  }

  lemma LapStoredStep(t0: nat, ins: seq<Input>)
    requires ins != []
    ensures var n := |ins| - 1;
            LapStoredInSession(t0, ins) <==>
              !LastOut(t0, ins).isNew
              && (LapStoredInSession(t0, ins[..n]) || (Stores(ins[n], LAP_DATA) && !NoSession(ins[..n])))
  {
    hide LastOut, NoSession;
    var n := |ins| - 1;
    var front := ins[..n];
    assert forall k :: 0 <= k < n ==> front[..k] == ins[..k] && front[k] == ins[k];
    if !LastOut(t0, ins).isNew {
      var r := SessionStart(t0, front);
      assert r == SessionStart(t0, ins);
      if LapStoredInSession(t0, front) {
        var k :| r <= k < n && Stores(front[k], LAP_DATA) && !NoSession(front[..k]);
        assert Stores(ins[k], LAP_DATA) && !NoSession(ins[..k]);
      }
    }
  }

  /** The rank list was filled since the car state was last cleared exactly when a lap packet was
      stored in the session; a batch by itself does not ensure it. */
  lemma {:induction false} RanksFilledExactly(t0: nat, ins: seq<Input>)
    ensures Ranked(After(t0, ins).cars) <==> LapStoredInSession(t0, ins)
  {
    hide Turn;
    if ins == [] {
      assert [Init][|[Init]| - 1].Init?;
    } else {
      var front := ins[..|ins| - 1];
      RanksFilledExactly(t0, front);
      LogInvariant(t0, front);
      LastStep(t0, ins);
      TurnRanks(After(t0, front), ins[|ins| - 1]);
      NoSessionSlot(front);
      LapStoredStep(t0, ins);
      hide LapStoredInSession, Ranked, Settled, NoSession;
    }
  }

  /** A property of a lap packet in the session it is read with. */
  type LapProperty = (Packet, Packet) -> bool

  function AnyLap(): LapProperty {
    (s, p) => true
  }

  /** Some lap packet with the property, in the session known by then, was handed to the car state. */
  ghost predicate EverFilled(calls: seq<CarCall>, wanted: LapProperty) {
    exists m :: && 0 <= m < |calls| && calls[m].FillLapData? && KnownSession(calls[..m]).Some?
                && wanted(KnownSession(calls[..m]).value, calls[m].p)
  }

  /** Some lap packet with the property, in the session stored by then, was stored. */
  ghost predicate LapEverStored(ins: seq<Input>, wanted: LapProperty) {
    exists k :: && 0 <= k < |ins| && Stores(ins[k], LAP_DATA) && !NoSession(ins[..k])
                && wanted(LastPacket(ins[..k], SESSION_DATA), ins[k].p)
  }

  lemma EverFilledAppend(calls: seq<CarCall>, c: CarCall, wanted: LapProperty)
    ensures EverFilled(calls + [c], wanted) <==>
              || EverFilled(calls, wanted)
              || (c.FillLapData? && KnownSession(calls).Some? && wanted(KnownSession(calls).value, c.p))
  {
    hide KnownSession;
    var longer := calls + [c];
    assert longer[..|calls|] == calls && longer[|calls|] == c;
    assert forall m :: 0 <= m < |calls| ==> longer[..m] == calls[..m] && longer[m] == calls[m];
  }

  /** Calls other than FillLapData change nothing. */
  lemma EverFilledAfter(calls: seq<CarCall>, s: Packet, wanted: LapProperty)
    ensures EverFilled(calls + [ToSql], wanted) <==> EverFilled(calls, wanted)
    ensures EverFilled(calls + [Init, FillSession(s)], wanted) <==> EverFilled(calls, wanted)
  {
    EverFilledAppend(calls, ToSql, wanted);
    EverFilledAppend(calls, Init, wanted);
    EverFilledAppend(calls + [Init], FillSession(s), wanted);
    assert calls + [Init] + [FillSession(s)] == calls + [Init, FillSession(s)];
  }

  lemma TurnEverFills(h: House, i: Input, wanted: LapProperty)
    requires WellFormed(h) && Settled(h) && CarsInStep(h)
    ensures EverFilled(Turn(h, i).house.cars, wanted) <==>
              || EverFilled(h.cars, wanted)
              || (Stores(i, LAP_DATA) && SESSION_DATA in h.recv && wanted(h.slots[SESSION_DATA], i.p))
  {
    hide Turn, StoreCalls, EverFilled, KnownSession, LapsKnowSession;
    TurnAppends(h, i);
    var own := StoreCalls(h, i);
    EverFilledAfter(h.cars + own, Turn(h, i).house.slots[SESSION_DATA], wanted);
    if own == [] {
      assert h.cars + own == h.cars;
    } else {
      assert own == [own[0]];
      EverFilledAppend(h.cars, own[0], wanted);
    }
    hide Settled;
    assert h.cars + own + [] == h.cars + own;
  }

  lemma LapEverStoredStep(ins: seq<Input>, wanted: LapProperty)
    requires ins != []
    ensures var n := |ins| - 1;
            LapEverStored(ins, wanted) <==>
              || LapEverStored(ins[..n], wanted)
              || (Stores(ins[n], LAP_DATA) && !NoSession(ins[..n])
                  && wanted(LastPacket(ins[..n], SESSION_DATA), ins[n].p))
  {
    hide NoSession, LastPacket;
    var front := ins[..|ins| - 1];
    assert forall k :: 0 <= k < |front| ==> front[..k] == ins[..k] && front[k] == ins[k];
  }

  /** The calls and the log agree on every property of lap packets. */
  lemma {:induction false} EverFilledExactly(t0: nat, ins: seq<Input>, wanted: LapProperty)
    ensures EverFilled(After(t0, ins).cars, wanted) <==> LapEverStored(ins, wanted)
  {
    hide Turn;
    if ins != [] {
      var front := ins[..|ins| - 1];
      EverFilledExactly(t0, front, wanted);
      CarStateInvariant(t0, front);
      LogInvariant(t0, front);
      LastStep(t0, ins);
      TurnEverFills(After(t0, front), ins[|ins| - 1], wanted);
      NoSessionSlot(front);
      LapEverStoredStep(ins, wanted);
      hide EverFilled, LapEverStored, Settled, CarsInStep, NoSession;
    }
  }

  /** Whenever a batch asks the car state for its rows, a lap packet with the property was handed to it
      before exactly when one came after some SessionData. */
  lemma BatchAfterLapExactly(t0: nat, ins: seq<Input>, wanted: LapProperty)
    requires ins != [] && HasBatch(LastOut(t0, ins).sql)
    ensures var calls := After(t0, ins).cars;
            && calls != [] && calls[|calls| - 1] == ToSql
            && (EverFilled(calls[..|calls| - 1], wanted) <==> LapEverStored(ins, wanted))
  {
    hide Turn, EverFilled, LapEverStored;
    BatchEndsInToSql(t0, ins);
    EverFilledExactly(t0, ins, wanted);
    var calls := After(t0, ins).cars;
    EverFilledAfter(calls[..|calls| - 1], ZERO, wanted);
    assert calls == calls[..|calls| - 1] + [ToSql];
  }

  lemma BatchEndsInToSql(t0: nat, ins: seq<Input>)
    requires ins != [] && HasBatch(LastOut(t0, ins).sql)
    ensures var calls := After(t0, ins).cars;
            && calls != [] && calls[|calls| - 1] == ToSql
            && calls[..|calls| - 1] == After(t0, ins[..|ins| - 1]).cars
                                     + StoreCalls(After(t0, ins[..|ins| - 1]), ins[|ins| - 1])
  {
    hide Turn, StoreCalls;
    var front := ins[..|ins| - 1];
    LastStep(t0, ins);
    LogInvariant(t0, front);
    TurnAppends(After(t0, front), ins[|ins| - 1]);
    TurnSettles(After(t0, front), ins[|ins| - 1]);
  }

  lemma BatchGoesOut(h: House, i: Input)
    requires WellFormed(h) && Settled(h) && Stores(i, CAR_DAMAGE) && i.p.uid == h.uid && h.last < i.now
    requires FINAL_CLASSIFICATION !in h.cur && Recv(h, PARTICIPANTS) && Recv(h, SESSION_DATA)
    requires forall id: PacketId :: Fresh(id) && id != CAR_DAMAGE ==> CurRecv(h, id)
    ensures HasBatch(Turn(h, i).sql)
  {
    hide Routed;
    var s := Stored(h, i.p, i.at);
    assert CurRecv(h, CAR_MOTION) && CurRecv(h, LAP_DATA) && CurRecv(h, CAR_SETUP);
    assert CurRecv(h, CAR_TELEMETRY) && CurRecv(h, CAR_STATUS);
    assert s.cur == h.cur + {CAR_DAMAGE} && s.slots == h.slots[CAR_DAMAGE := i.p];
  }

  /** A first batch needs all six fresh types, so none goes out before a CarDamage packet came. */
  lemma {:induction false} NoDamageNoBatch(t0: nat, ins: seq<Input>)
    requires forall k :: 0 <= k < |ins| ==> !Stores(ins[k], CAR_DAMAGE)
    ensures LastBatch(t0, ins) == -1
  {
    hide Turn;
    if ins != [] {
      NoDamageNoBatch(t0, ins[..|ins| - 1]);
      if HasBatch(LastOut(t0, ins).sql) {
        BatchCoherentAndFresh(t0, ins);
      }
    }
  }

  lemma {:induction false} NoBatchNoToSql(t0: nat, ins: seq<Input>)
    requires LastBatch(t0, ins) == -1
    ensures ToSql !in After(t0, ins).cars
  {
    hide Turn, StoreCalls;
    if ins != [] {
      var front := ins[..|ins| - 1];
      NoBatchNoToSql(t0, front);
      LogInvariant(t0, front);
      LastStep(t0, ins);
      TurnAppends(After(t0, front), ins[|ins| - 1]);
      NoToSqlStored(After(t0, front), ins[|ins| - 1]);
    }
  }

  lemma NoToSqlStored(h: House, i: Input)
    requires WellFormed(h)
    ensures ToSql !in StoreCalls(h, i)
  {
  }

  /** One packet of each type a batch needs but CarDamage, the session packet or the lap packet first. */
  function Seven(sessionFirst: bool): seq<Input> {
    var others: seq<PacketId> := [PARTICIPANTS, CAR_MOTION, CAR_SETUP, CAR_TELEMETRY, CAR_STATUS];
    var ids: seq<PacketId> := (if sessionFirst then [SESSION_DATA, LAP_DATA] else [LAP_DATA, SESSION_DATA]) + others;
    seq(7, k requires 0 <= k < 7 => Datagram(ZERO.(id := ids[k], uid := 5), 1, 1, 1))
  }

  lemma SevenHold(f: bool, id: PacketId)
    requires (id != CAR_DAMAGE && Fresh(id)) || id == SESSION_DATA || id == PARTICIPANTS
    ensures LastIndex(Seven(f), id) >= 0 && LastPacket(Seven(f), id).uid == 5
  {
    var k := if id == LAP_DATA then (if f then 1 else 0) else if id == SESSION_DATA then (if f then 0 else 1)
             else if id == PARTICIPANTS then 2 else if id == CAR_MOTION then 3 else if id == CAR_SETUP then 4
             else if id == CAR_TELEMETRY then 5 else 6;
    assert Stores(Seven(f)[k], id);
  }

  lemma SevenIsFresh(f: bool, id: PacketId)
    requires Fresh(id) && id != CAR_DAMAGE
    ensures CurRecv(After(0, Seven(f)), id)
  {
    hide Turn;
    var front := Seven(f);
    assert forall k :: 0 <= k < |front| ==> !Stores(front[k], CAR_DAMAGE);
    LogInvariant(0, front);
    NoDamageNoBatch(0, front);
    SevenHold(f, SESSION_DATA);
    SevenHold(f, id);
    FreshBitsAreExact(0, front, id);
    hide Seven, After, LastIndex, LastBatch;
  }

  lemma SevenReceived(f: bool)
    ensures var h := After(0, Seven(f));
            && Settled(h) && h.uid == 5 && Recv(h, PARTICIPANTS) && Recv(h, SESSION_DATA)
            && FINAL_CLASSIFICATION !in h.cur
  {
    hide Turn;
    LogInvariant(0, Seven(f));
    assert forall k :: 0 <= k < 7 ==> !Stores(Seven(f)[k], FINAL_CLASSIFICATION);
    SevenHold(f, PARTICIPANTS);
    SevenHold(f, SESSION_DATA);
    hide Seven, After;
  }

  lemma SevenReady(f: bool)
    ensures var h := After(0, Seven(f));
            && Settled(h) && h.last <= 1 && h.uid == 5
            && FINAL_CLASSIFICATION !in h.cur && Recv(h, PARTICIPANTS) && Recv(h, SESSION_DATA)
            && forall id: PacketId :: Fresh(id) && id != CAR_DAMAGE ==> CurRecv(h, id)
  {
    StampBounds(0, Seven(f));
    assert EndTime(0, Seven(f)) == 1;
    hide Seven, After, Settled, Recv, CurRecv;
    SevenReceived(f);
    forall id: PacketId | Fresh(id) && id != CAR_DAMAGE { SevenIsFresh(f, id); }
  }

  function Eight(sessionFirst: bool): (ins: seq<Input>)
    ensures |ins| == 8 && ins[..7] == Seven(sessionFirst)
    ensures ins[7] == Datagram(ZERO.(id := CAR_DAMAGE, uid := 5), 2, 2, 2)
  {
    Seven(sessionFirst) + [Datagram(ZERO.(id := CAR_DAMAGE, uid := 5), 2, 2, 2)]
  }

  lemma EightHasBatch(f: bool)
    ensures Clocked(0, Eight(f)) && HasBatch(LastOut(0, Eight(f)).sql)
  {
    hide Turn;
    assert forall k :: 0 <= k < 7 ==> Eight(f)[k] == Seven(f)[k];
    SevenReady(f);
    hide Seven, Eight, Fresh;
    BatchGoesOut(After(0, Seven(f)), Eight(f)[7]);
    LastStep(0, Eight(f));
  }

  lemma LapFirstHasNoRanks()
    ensures !Ranked(After(0, Eight(false)).cars) && !LapEverStored(Eight(false), AnyLap())
  {
    hide Turn;
    var ins := Eight(false);
    forall k | 2 <= k < 8 ensures !Stores(ins[k], LAP_DATA) {
      assert k < 7 ==> ins[k] == Seven(false)[k];
    }
    assert ins[0] == Seven(false)[0] && ins[1] == Seven(false)[1];
    assert IsSessionInput(ins[1]) && !IsSessionInput(ins[0]) && ins[1].p.Key() != ZERO.Key();
    hide Eight, Seven, Ranked;
    assert ins[..2][..1] == ins[..1];
    NoSessionSlot(ins[..1]);
    SessionEdgesAreExact(0, ins[..2]);
    assert OutAt(0, ins, 1).isNew;
    SessionStartIsLatest(0, ins);
    RanksFilledExactly(0, ins);
    assert !Stores(ins[1], LAP_DATA);
  }

  /** A concrete run in which the batch is written although no lap packet ever reached the car
      state: the one lap packet came before the session packet. */
  lemma BatchBeforeRanks()
    ensures exists ins: seq<Input> :: && ins != [] && Clocked(0, ins) && HasBatch(LastOut(0, ins).sql)
                                      && !Ranked(After(0, ins).cars) && !EverFilled(After(0, ins).cars, AnyLap())
  {
    hide *;
    EightHasBatch(false);
    LapFirstHasNoRanks();
    EverFilledExactly(0, Eight(false), AnyLap());
    assert Eight(false) != [];
  }

  /** With the session packet first, the lap packet does reach the car state, and ToSQL is called once. */
  lemma SessionFirstHasLap()
    ensures LapEverStored(Eight(true), AnyLap())
    ensures var calls := After(0, Eight(true)).cars; calls != [] && ToSql !in calls[..|calls| - 1]
  {
    hide Seven, Eight, LastOut, After, LapEverStored;
    SessionFirstStores();
    EightHasBatch(true);
    BatchEndsInToSql(0, Eight(true));
    SevenHasNoToSql();
    NoToSqlStored(After(0, Seven(true)), Eight(true)[7]);
  }

  lemma SessionFirstStores()
    ensures LapEverStored(Eight(true), AnyLap())
  {
    var ins := Eight(true);
    assert ins[0] == Seven(true)[0] && ins[1] == Seven(true)[1];
    assert IsSessionInput(ins[..1][0]) && Stores(ins[1], LAP_DATA);
    hide Seven, Eight, LastPacket;
  }

  lemma SevenHasNoToSql()
    ensures ToSql !in After(0, Seven(true)).cars
  {
    assert forall k :: 0 <= k < 7 ==> !Stores(Seven(true)[k], CAR_DAMAGE);
    hide Seven, After, LastOut, LastBatch;
    NoDamageNoBatch(0, Seven(true));
    NoBatchNoToSql(0, Seven(true));
  }
}
