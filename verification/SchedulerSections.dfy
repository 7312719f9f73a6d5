/** The sections of a thread, worked off without interruption, do what the event does in one step. */
module SchedulerSections {
  import opened Wrappers
  import opened SchedulerSpec
  import opened SchedulerInvariants
  import opened SchedulerThreads

  function Acts<I, C>(limits: Limits, th: Thread<I, C>, sh: Shared<I, C>, spare: C, n: nat): (Thread<I, C>, Shared<I, C>)
    decreases n
  {
    if n == 0 then (th, sh)
    else
      var (th1, sh1) := Act(limits, th, sh, spare);
      Acts(limits, th1, sh1, spare, n - 1)
  }

  lemma {:induction false} ActsOn<I, C>(limits: Limits, th: Thread<I, C>, sh: Shared<I, C>, spare: C, n: nat, more: nat)
    ensures var (th1, sh1) := Acts(limits, th, sh, spare, n);
            Acts(limits, th, sh, spare, n + more) == Acts(limits, th1, sh1, spare, more)
    decreases n
  {
    hide Act;
    if n > 0 {
      var (th1, sh1) := Act(limits, th, sh, spare);
      ActsOn(limits, th1, sh1, spare, n - 1, more);
    }
  }

  lemma ActsOne<I, C>(limits: Limits, th: Thread<I, C>, sh: Shared<I, C>, spare: C)
    ensures Acts(limits, th, sh, spare, 1) == Act(limits, th, sh, spare)
  {
    hide Act;
    var (th1, sh1) := Act(limits, th, sh, spare);
    assert Acts(limits, th1, sh1, spare, 0) == (th1, sh1);
  }

  ghost function Those<I>(place: map<I, Place>, p: Place): set<I> {
    set i | i in place && place[i] == p
  }

  /** The pool, queue, map and history of the one-step machine are those of the thread. */
  ghost predicate Matches<I, C>(s: Sched<I, C>, limits: Limits, th: Thread<I, C>, sh: Shared<I, C>) {
    && s.limits == limits && s.issued == sh.next && s.mapped == sh.mapped
    && s.conns == th.conns && s.connections == th.connections && s.available == th.available && s.queue == th.queue && s.ids == th.ids
    && s.history.accepted == th.accepted && s.history.started == th.started
    && s.history.submitted == th.place.Keys
    && s.history.finished == Those(th.place, Finished) && s.history.failed == Those(th.place, Failed) && s.history.dropped == Those(th.place, Discarded)
  }

  /** What one event leaves open is left open still. */
  predicate SameRest<I, C>(a: Thread<I, C>, b: Thread<I, C>) {
    a.popping == b.popping && a.closing == b.closing
  }

  lemma PlaceMoves<I>(place: map<I, Place>, i: I, p: Place)
    requires i in place && place[i] != Finished && place[i] != Failed && place[i] != Discarded
    ensures place[i := p].Keys == place.Keys
    ensures Those(place[i := p], Finished) == Those(place, Finished) + (if p == Finished then {i} else {})
    ensures Those(place[i := p], Failed) == Those(place, Failed) + (if p == Failed then {i} else {})
    ensures Those(place[i := p], Discarded) == Those(place, Discarded) + (if p == Discarded then {i} else {})
  {
  }

  /** What the sections of one event rely on. */
  ghost predicate Sound<I, C>(limits: Limits, th: Thread<I, C>, sh: Shared<I, C>, spare: C) {
    Local(limits, th, sh) && spare !in th.conns && sh.next < ID_SPACE
  }

  lemma HandHasPlace<I, C>(limits: Limits, th: Thread<I, C>, sh: Shared<I, C>)
    requires Local(limits, th, sh)
    ensures Hand(th.task).Some? ==> Hand(th.task).value in th.place && th.place[Hand(th.task).value] == InHand
    ensures forall id :: id in sh.mapped ==> sh.mapped[id].0 in th.place && th.place[sh.mapped[id].0] == At(id)
    ensures forall i :: i in th.queue ==> i in th.place && th.place[i] == Queued
  {
    hide Lists, Free, Ids, Roles, Partition;
  }

  lemma ActClosing<I, C>(limits: Limits, th: Thread<I, C>, sh: Shared<I, C>, spare: C, c: C)
    requires th.task == Closing(c)
    ensures var id := Fld(th, c).requestId;
            Act(limits, th, sh, spare) ==
            (th.(place := if id in sh.mapped then th.place[sh.mapped[id].0 := Failed] else th.place, task := Dropping(c)), sh.(mapped := sh.mapped - {id}))
  {
  }

  lemma ActDrops<I, C>(limits: Limits, th: Thread<I, C>, sh: Shared<I, C>, spare: C, c: C)
    requires th.task == Dropping(c)
    ensures Act(limits, th, sh, spare) ==
            (Then(th.(connections := Without(th.connections, c), available := Without(th.available, c), conns := th.conns - {c})), sh)
  {
    hide Then;
  }

  lemma ActErasing<I, C>(limits: Limits, th: Thread<I, C>, sh: Shared<I, C>, spare: C, id: nat)
    requires th.task == Erasing(id)
    ensures Act(limits, th, sh, spare) ==
            if id in sh.mapped then
              (th.(place := th.place[sh.mapped[id].0 := Finished], task := Releasing(sh.mapped[id].1), popping := true), sh.(mapped := sh.mapped - {id}))
            else (Then(th), sh)
  {
    hide Then;
  }

  // ---- Connecting -----------------------------------------------------------------------------------------

  /** From the choice of a connection to the entry in the map. */
  lemma InitiateAlone<I, C>(limits: Limits, s: Sched<I, C>, th: Thread<I, C>, sh: Shared<I, C>, spare: C) returns (w: Thread<I, C>)
    requires Matches(s, limits, th, sh) && th.task.Numbering? && Local(limits, th, sh) && sh.next < ID_SPACE
    ensures SameRest(w, th)
    ensures var r := Acts(limits, th, sh, spare, 2);
            r.0 == Then(w) && Matches(Initiate(s, th.task.i, th.task.c), limits, w, r.1) && Local(limits, r.0, r.1)
  {
    hide Then, Those, Local, Acts;
    HandHasPlace(limits, th, sh);
    NumberingKeeps(limits, th, sh, th.task.i, th.task.c, spare);
    var i, c, id := th.task.i, th.task.c, sh.next % ID_SPACE;
    var (th1, sh1) := Act(limits, th, sh, spare);
    ActsOne(limits, th1, sh1, spare);
    ActsOn(limits, th, sh, spare, 1, 1);
    ActsOne(limits, th, sh, spare);
    w := th1.(conns := th1.conns[c := Fld(th1, c).Start()], place := th1.place[i := At(id)], started := th1.started + [i]);
    PlaceMoves(th.place, i, At(id));
    InsertingKeeps(limits, th1, sh1, i, c, id, spare);
  }

  /** connect; a newcomer is counted among the accepted unless it is dropped. */
  function Connected<I, C>(s: Sched<I, C>, i: I, newcomer: bool, spare: C): Sched<I, C> {
    if newcomer then Accept(Connect(s, i, spare), i) else Connect(s, i, spare)
  }

  /** The state when a connection was found. */
  function Found<I, C>(s: Sched<I, C>, th: Thread<I, C>, i: I, newcomer: bool, spare: C): Sched<I, C> {
    GetAvailable(s, spare).1.(history := s.history.(accepted := Accepted(th, i, newcomer)))
  }

  lemma ConnectedIs<I, C>(s: Sched<I, C>, limits: Limits, th: Thread<I, C>, sh: Shared<I, C>, i: I, newcomer: bool, spare: C)
    requires Matches(s, limits, th, sh) && i in th.place && th.place[i] == InHand
    ensures var (conn, t) := GetAvailable(s, spare);
            Connected(s, i, newcomer, spare) ==
            if conn.Some? then Initiate(Found(s, th, i, newcomer, spare), i, conn.value)
            else if QueueFull(s) then s.(history := s.history.(dropped := s.history.dropped + {i}))
            else s.(queue := s.queue + [i], history := s.history.(accepted := Accepted(th, i, newcomer)))
  {
    assert i !in s.history.dropped;
  }

  lemma ActConnects<I, C>(limits: Limits, th: Thread<I, C>, sh: Shared<I, C>, spare: C, i: I, newcomer: bool)
    requires th.task == Connecting(i, newcomer)
    ensures Act(limits, th, sh, spare) == (ActConnecting(limits, th, i, newcomer, spare), sh)
  {
    hide ActConnecting;
  }

  lemma FoundMatches<I, C>(limits: Limits, s: Sched<I, C>, th: Thread<I, C>, sh: Shared<I, C>, i: I, newcomer: bool, spare: C)
    requires Matches(s, limits, th, sh) && (|th.connections| < limits.maxConn || th.available != [])
    ensures var conn, th1 := GetAvailable(s, spare).0, ActConnecting(limits, th, i, newcomer, spare);
            conn.Some? && th1.task == Numbering(i, conn.value) && SameRest(th1, th) && Matches(Found(s, th, i, newcomer, spare), limits, th1, sh)
  {
    hide Then, Those;
  }

  lemma NotFoundMatches<I, C>(limits: Limits, s: Sched<I, C>, th: Thread<I, C>, sh: Shared<I, C>, i: I, newcomer: bool, spare: C) returns (w: Thread<I, C>)
    requires Matches(s, limits, th, sh) && i in th.place && th.place[i] == InHand
    requires |th.connections| >= limits.maxConn && th.available == []
    ensures ActConnecting(limits, th, i, newcomer, spare) == Then(w) && SameRest(w, th)
    ensures Matches(Connected(s, i, newcomer, spare), limits, w, sh)
  {
    hide Then, Those, Initiate, Connected;
    ConnectedIs(s, limits, th, sh, i, newcomer, spare);
    if |th.queue| >= limits.queueSize {
      w := th.(place := th.place[i := Discarded]);
      PlaceMoves(th.place, i, Discarded);
    } else {
      w := th.(accepted := Accepted(th, i, newcomer), queue := th.queue + [i], place := th.place[i := Queued]);
      PlaceMoves(th.place, i, Queued);
    }
  }

  /** connect, from the intercept in hand to what the event has left open. */
  lemma ConnectAlone<I, C>(limits: Limits, s: Sched<I, C>, th: Thread<I, C>, sh: Shared<I, C>, spare: C) returns (w: Thread<I, C>, n: nat)
    requires Matches(s, limits, th, sh) && th.task.Connecting? && Sound(limits, th, sh, spare)
    ensures SameRest(w, th)
    ensures var r := Acts(limits, th, sh, spare, n);
            r.0 == Then(w) && Matches(Connected(s, th.task.i, th.task.newcomer, spare), limits, w, r.1) && Local(limits, r.0, r.1)
  {
    hide Then, Those, Initiate, Acts, Local, Connected, Act, ActConnecting, Matches, Found, GetAvailable;
    HandHasPlace(limits, th, sh);
    ActKeeps(limits, th, sh, spare);
    var i, newcomer := th.task.i, th.task.newcomer;
    ActConnects(limits, th, sh, spare, i, newcomer);
    ActsOne(limits, th, sh, spare);
    var th1 := Act(limits, th, sh, spare).0;
    if |th.connections| < limits.maxConn || th.available != [] {
      FoundMatches(limits, s, th, sh, i, newcomer, spare);
      ConnectedIs(s, limits, th, sh, i, newcomer, spare);
      w := InitiateAlone(limits, Found(s, th, i, newcomer, spare), th1, sh, spare);
      n := 3;
      ActsOn(limits, th, sh, spare, 1, 2);
    } else {
      w := NotFoundMatches(limits, s, th, sh, i, newcomer, spare);
      n := 1;
    }
  }

  // ---- Closing --------------------------------------------------------------------------------------------

  lemma ClosedAnyway<I, C>(s: Sched<I, C>, c: C, state: ConnState)
    requires c in s.conns
    ensures ConnectionClosed(SetState(s, c, state), c) == ConnectionClosed(s, c)
  {
    assert SetState(s, c, state).conns - {c} == s.conns - {c};
  }

  lemma CloseAlone<I, C>(limits: Limits, s: Sched<I, C>, th: Thread<I, C>, sh: Shared<I, C>, spare: C) returns (w: Thread<I, C>)
    requires Matches(s, limits, th, sh) && th.task.Closing? && Local(limits, th, sh)
    ensures SameRest(w, th)
    ensures var r := Acts(limits, th, sh, spare, 2);
            r.0 == Then(w) && Matches(ConnectionClosed(s, th.task.c), limits, w, r.1)
  {
    hide Then, Those, Acts, Local, Without, Act;
    HandHasPlace(limits, th, sh);
    var c := th.task.c;
    var id := Fld(th, c).requestId;
    var (th1, sh1) := Act(limits, th, sh, spare);
    ActClosing(limits, th, sh, spare, c);
    ActDrops(limits, th1, sh1, spare, c);
    ActsOne(limits, th, sh, spare);
    ActsOne(limits, th1, sh1, spare);
    ActsOn(limits, th, sh, spare, 1, 1);
    if id in sh.mapped { PlaceMoves(th.place, sh.mapped[id].0, Failed); }
    w := th1.(connections := Without(th1.connections, c), available := Without(th1.available, c), conns := th1.conns - {c});
  }

  // ---- Removing -------------------------------------------------------------------------------------------

  /** An intercept is taken from the map and its connection put back or closed. */
  lemma ReleaseAlone<I, C>(limits: Limits, s: Sched<I, C>, th: Thread<I, C>, sh: Shared<I, C>, spare: C) returns (w: Thread<I, C>, n: nat)
    requires Matches(s, limits, th, sh) && Sound(limits, th, sh, spare) && th.task.Erasing? && th.task.id in sh.mapped
    ensures w.popping && w.closing == th.closing
    ensures var r := Acts(limits, th, sh, spare, n);
            r.0 == Then(w) && Matches(Release(s, th.task.id), limits, w, r.1) && Sound(limits, Then(w), r.1, spare)
  {
    hide Then, Those, Acts, Local, Without, ConnectionClosed;
    var id := th.task.id;
    var (i, c) := sh.mapped[id];
    var (th1, sh1) := Act(limits, th, sh, spare);
    ErasedAlone(limits, s, th, sh, spare);
    var k := Fld(th1, c).ReleaseFCGIClient().(requestId := 0);
    var s1 := Erased(s, id);
    ReleaseIs(s, id, i, c);
    ActsOne(limits, th, sh, spare);
    var (th2, sh2) := Act(limits, th1, sh1, spare);
    ActKeeps(limits, th1, sh1, spare);
    ActsOne(limits, th1, sh1, spare);
    ActsOn(limits, th, sh, spare, 1, 1);
    if limits.maxRequests > k.reqCount {
      n := 2;
      w := th1.(conns := th1.conns[c := k.(readEnable := false, state := Ready)], available := th1.available + [c]);
      ThenFields(w);
    } else {
      n := 4;
      var s2 := s1.(conns := s1.conns[c := k.(state := Closed)]);
      w := CloseAlone(limits, s2, th2, sh2, spare);
      ActsOn(limits, th, sh, spare, 2, 2);
      CloseSound(limits, th2, sh2, spare, c);
    }
  }

  /** Release without its last step. */
  function Erased<I, C>(s: Sched<I, C>, id: nat): Sched<I, C>
    requires id in s.mapped
  {
    s.(mapped := s.mapped - {id}, history := s.history.(finished := s.history.finished + {s.mapped[id].0}))
  }

  lemma ReleaseIs<I, C>(s: Sched<I, C>, id: nat, i: I, c: C)
    requires id in s.mapped && s.mapped[id] == (i, c) && c in s.conns
    ensures var k := Fields(s, c).ReleaseFCGIClient().(requestId := 0);
            Release(s, id) ==
            if s.limits.maxRequests > k.reqCount then
              Erased(s, id).(conns := s.conns[c := k.(readEnable := false, state := Ready)], available := s.available + [c])
            else ConnectionClosed(Erased(s, id).(conns := s.conns[c := k.(state := Closed)]), c)
  {
    hide ConnectionClosed;
    var k := Fields(s, c).ReleaseFCGIClient().(requestId := 0);
    assert s.conns[c := k][c := k.(state := Closed)] == s.conns[c := k.(state := Closed)];
    assert s.conns[c := k][c := k.(readEnable := false, state := Ready)] == s.conns[c := k.(readEnable := false, state := Ready)];
  }

  lemma ErasedAlone<I, C>(limits: Limits, s: Sched<I, C>, th: Thread<I, C>, sh: Shared<I, C>, spare: C)
    requires Matches(s, limits, th, sh) && Sound(limits, th, sh, spare) && th.task.Erasing? && th.task.id in sh.mapped
    ensures var (th1, sh1) := Act(limits, th, sh, spare);
            && th1.task == Releasing(sh.mapped[th.task.id].1) && th1.popping && th1.closing == th.closing && th1.conns == th.conns
            && sh.mapped[th.task.id].1 in th.conns
            && Matches(Erased(s, th.task.id), limits, th1, sh1) && Sound(limits, th1, sh1, spare)
  {
    hide Those, Local, Act;
    ActKeeps(limits, th, sh, spare);
    HandHasPlace(limits, th, sh);
    MappedIsNotFree(limits, th, sh);
    ActErasing(limits, th, sh, spare, th.task.id);
    PlaceMoves(th.place, sh.mapped[th.task.id].0, Finished);
  }

  lemma ThenFields<I, C>(w: Thread<I, C>)
    ensures Then(w).conns == w.conns && Then(w).queue == w.queue && Then(w).place == w.place
  {
  }

  lemma CloseSound<I, C>(limits: Limits, th: Thread<I, C>, sh: Shared<I, C>, spare: C, c: C)
    requires Sound(limits, th, sh, spare) && th.task == Closing(c)
    ensures var r := Acts(limits, th, sh, spare, 2); Sound(limits, r.0, r.1, spare)
  {
    hide Local, Acts, Then;
    var (th1, sh1) := Act(limits, th, sh, spare);
    ActKeeps(limits, th, sh, spare);
    ActKeeps(limits, th1, sh1, spare);
    ActsOne(limits, th, sh, spare);
    ActsOne(limits, th1, sh1, spare);
    ActsOn(limits, th, sh, spare, 1, 1);
    ThenFields(th1.(connections := Without(th1.connections, c), available := Without(th1.available, c), conns := th1.conns - {c}));
  }

  /** The next request in the queue is given a connection. */
  lemma PopAlone<I, C>(limits: Limits, s: Sched<I, C>, th: Thread<I, C>, sh: Shared<I, C>, spare: C) returns (w: Thread<I, C>, n: nat)
    requires Matches(s, limits, th, sh) && Sound(limits, th, sh, spare) && th.task == Popping
    ensures SameRest(w, th)
    ensures var r := Acts(limits, th, sh, spare, n);
            r.0 == Then(w) && Matches(PopAndConnect(s, spare), limits, w, r.1)
  {
    hide Then, Those, Acts, Local, Connect, ActConnecting;
    HandHasPlace(limits, th, sh);
    ActKeeps(limits, th, sh, spare);
    var (th1, sh1) := Act(limits, th, sh, spare);
    ActsOne(limits, th, sh, spare);
    if th.queue == [] {
      w, n := th, 1;
    } else {
      var i := th.queue[0];
      assert i in th.queue;
      PlaceMoves(th.place, i, InHand);
      var more: nat;
      w, more := ConnectAlone(limits, s.(queue := s.queue[1..]), th1, sh1, spare);
      n := 1 + more;
      ActsOn(limits, th, sh, spare, 1, more);
    }
  }

  /** removeIntercept, worked off. */
  lemma RemoveAlone<I, C>(limits: Limits, s: Sched<I, C>, th: Thread<I, C>, sh: Shared<I, C>, spare: C) returns (n: nat)
    requires Matches(s, limits, th, sh) && Sound(limits, th, sh, spare) && th.task.Erasing?
    ensures var r := Acts(limits, th, sh, spare, n);
            r.0.task == Idle && Matches(RemoveIntercept(s, th.task.id, spare), limits, r.0, r.1)
  {
    hide Those, Acts, Local, Release, PopAndConnect, Act;
    var id := th.task.id;
    ErasingShape(limits, th, sh);
    if id in sh.mapped {
      var w, a := ReleaseAlone(limits, s, th, sh, spare);
      var (th1, sh1) := Acts(limits, th, sh, spare, a);
      assert Matches(Release(s, id), limits, th1, sh1);
      var v, b := PopAlone(limits, Release(s, id), th1, sh1, spare);
      n := a + b;
      ActsOn(limits, th, sh, spare, a, b);
    } else {
      ActErasing(limits, th, sh, spare, id);
      ActsOne(limits, th, sh, spare);
      n := 1;
    }
  }

  /** reConnect and the closing of the connection behind it, worked off. */
  lemma ReconnectAlone<I, C>(limits: Limits, s: Sched<I, C>, th: Thread<I, C>, sh: Shared<I, C>, spare: C, c: C) returns (n: nat)
    requires Matches(s, limits, th, sh) && Sound(limits, th, sh, spare) && th.task.Finding? && th.closing == Some(c) && !th.popping
    ensures var r := Acts(limits, th, sh, spare, n);
            r.0.task == Idle && Matches(ConnectionClosed(ReConnect(s, th.task.id, spare), c), limits, r.0, r.1)
  {
    hide Those, Acts, Local, ConnectionClosed;
    var a := ReconnectFirst(limits, s, th, sh, spare, c);
    var (th1, sh1) := Acts(limits, th, sh, spare, a);
    var w := CloseAlone(limits, ReConnect(s, th.task.id, spare), th1, sh1, spare);
    n := a + 2;
    ActsOn(limits, th, sh, spare, a, 2);
  }

  lemma ReconnectFirst<I, C>(limits: Limits, s: Sched<I, C>, th: Thread<I, C>, sh: Shared<I, C>, spare: C, c: C) returns (n: nat)
    requires Matches(s, limits, th, sh) && Sound(limits, th, sh, spare) && th.task.Finding? && th.closing == Some(c) && !th.popping
    ensures var r := Acts(limits, th, sh, spare, n);
            && r.0.task == Closing(c) && r.0.closing == None && !r.0.popping && Local(limits, r.0, r.1)
            && Matches(ReConnect(s, th.task.id, spare), limits, r.0, r.1)
  {
    hide Those, Acts, Local, Connect;
    HandHasPlace(limits, th, sh);
    var id := th.task.id;
    ActsOne(limits, th, sh, spare);
    ActKeeps(limits, th, sh, spare);
    var (th1, sh1) := Act(limits, th, sh, spare);
    if id !in sh.mapped {
      n := 1;
    } else {
      ActKeeps(limits, th1, sh1, spare);
      ActsOne(limits, th1, sh1, spare);
      ActsOn(limits, th, sh, spare, 1, 1);
      var (th2, sh2) := Act(limits, th1, sh1, spare);
      var s2 := s.(mapped := s.mapped - {id});
      PlaceMoves(th.place, sh.mapped[id].0, InHand);
      var w, more := ConnectAlone(limits, s2, th2, sh2, spare);
      n := 2 + more;
      ActsOn(limits, th, sh, spare, 2, more);
    }
  }

  lemma ErasingShape<I, C>(limits: Limits, th: Thread<I, C>, sh: Shared<I, C>)
    requires Local(limits, th, sh) && (th.task.Erasing? || th.task.Idle?)
    ensures th.closing == None && !th.popping
  {
    hide Lists, Free, Ids, Roles, Partition, Places;
  }

  // ---- Events ---------------------------------------------------------------------------------------------

  /** The connection object an event makes, if it makes one. */
  predicate MakesNone<I, C>(e: Event<I, C>) {
    e.NetConnect? || e.RequestWritten? || e.NetError?
  }

  lemma BeginSound<I, C>(limits: Limits, th: Thread<I, C>, sh: Shared<I, C>, e: Event<I, C>, spare: C)
    requires Sound(limits, th, sh, spare) && CanBegin(th, sh, e)
    ensures Sound(limits, Begin(th, sh, e), sh, spare)
  {
    hide Local;
    BeginKeeps(limits, th, sh, e);
    MappedIsNotFree(limits, th, sh);
  }

  lemma SubmitAlone<I, C>(limits: Limits, s: Sched<I, C>, th: Thread<I, C>, sh: Shared<I, C>, e: Event<I, C>, spare: C) returns (n: nat)
    requires Matches(s, limits, th, sh) && Sound(limits, th, sh, spare) && CanBegin(th, sh, e) && e.Submit? && e.spare == spare
    ensures var r := Acts(limits, Begin(th, sh, e), sh, spare, n);
            r.0.task == Idle && Matches(Step(s, e), limits, r.0, r.1)
  {
    hide Local, Acts, Connect, Those;
    ErasingShape(limits, th, sh);
    BeginSound(limits, th, sh, e, spare);
    SubmittedMatches(s, limits, th, sh, e.i);
    var w: Thread<I, C>;
    w, n := ConnectAlone(limits, Submitted(s, e.i), Begin(th, sh, e), sh, spare);
  }

  lemma SubmittedMatches<I, C>(s: Sched<I, C>, limits: Limits, th: Thread<I, C>, sh: Shared<I, C>, i: I)
    requires Matches(s, limits, th, sh) && i !in th.place
    ensures Matches(Submitted(s, i), limits, th.(place := th.place[i := InHand], task := Connecting(i, true)), sh)
  {
    var place := th.place[i := InHand];
    assert Those(place, Finished) == Those(th.place, Finished);
    assert Those(place, Failed) == Those(th.place, Failed);
    assert Those(place, Discarded) == Those(th.place, Discarded);
  }

  lemma ReconnectKeeps<I, C>(s: Sched<I, C>, id: nat, spare: C, c: C)
    requires c in s.conns
    ensures c in ReConnect(s, id, spare).conns
  {
  }

  /** ConnectFailed, and Eos before the request was written. */
  lemma ReconnectEvent<I, C>(limits: Limits, s: Sched<I, C>, th: Thread<I, C>, sh: Shared<I, C>, c: C, spare: C) returns (n: nat)
    requires Matches(s, limits, th, sh) && Sound(limits, th, sh, spare) && th.task == Idle && c in th.conns
    ensures var r := Acts(limits, th.(closing := Some(c), task := Finding(Fld(th, c).requestId)), sh, spare, n);
            && r.0.task == Idle
            && Matches(ConnectionClosed(SetState(ReConnect(s, Fields(s, c).requestId, spare), c, Closed), c), limits, r.0, r.1)
  {
    hide Local, Acts, ReConnect, ConnectionClosed, Those, SetState;
    ErasingShape(limits, th, sh);
    ClosesKeep(limits, th, sh, c);
    ReconnectKeeps(s, Fields(s, c).requestId, spare, c);
    ClosedAnyway(ReConnect(s, Fields(s, c).requestId, spare), c, Closed);
    n := ReconnectAlone(limits, s, th.(closing := Some(c), task := Finding(Fld(th, c).requestId)), sh, spare, c);
  }

  /** NetError, and Eos behind the request. */
  lemma CloseEvent<I, C>(limits: Limits, s: Sched<I, C>, th: Thread<I, C>, sh: Shared<I, C>, c: C, spare: C) returns (n: nat)
    requires Matches(s, limits, th, sh) && Sound(limits, th, sh, spare) && th.task == Idle && c in th.conns
    ensures var r := Acts(limits, th.(task := Closing(c)), sh, spare, n);
            && r.0.task == Idle
            && Matches(ConnectionClosed(s, c), limits, r.0, r.1) && Matches(ConnectionClosed(SetState(s, c, Closed), c), limits, r.0, r.1)
  {
    hide Local, Acts, ConnectionClosed, Those, SetState;
    ErasingShape(limits, th, sh);
    ClosesKeep(limits, th, sh, c);
    ClosedAnyway(s, c, Closed);
    var w := CloseAlone(limits, s, th.(task := Closing(c)), sh, spare);
    n := 2;
  }

  lemma RemoveEvent<I, C>(limits: Limits, s: Sched<I, C>, th: Thread<I, C>, sh: Shared<I, C>, e: Event<I, C>, spare: C) returns (n: nat)
    requires Matches(s, limits, th, sh) && Sound(limits, th, sh, spare) && CanBegin(th, sh, e) && (e.ResponseDone? || e.Abort?) && e.spare == spare
    ensures var r := Acts(limits, Begin(th, sh, e), sh, spare, n);
            r.0.task == Idle && Matches(Step(s, e), limits, r.0, r.1)
  {
    hide Local, Acts, RemoveIntercept, Those;
    BeginSound(limits, th, sh, e, spare);
    n := RemoveAlone(limits, if e.Abort? then s else SetState(s, e.c, Complete), Begin(th, sh, e), sh, spare);
  }

  /** An event taken up by an idle thread and worked off without interruption does what the one-step machine
      does; by SchedulerMachine.Isolation the sections of other threads in between only move the counter. */
  lemma Alone<I, C>(limits: Limits, s: Sched<I, C>, th: Thread<I, C>, sh: Shared<I, C>, e: Event<I, C>, spare: C) returns (n: nat)
    requires Matches(s, limits, th, sh) && Sound(limits, th, sh, spare) && CanBegin(th, sh, e)
    requires MakesNone(e) || e.spare == spare
    ensures var r := Acts(limits, Begin(th, sh, e), sh, spare, n);
            r.0.task == Idle && Matches(Step(s, e), limits, r.0, r.1)
  {
    hide Local, Those, ConnectionClosed, ReConnect, RemoveIntercept, Connect;
    match e
    case Submit(_, _) => n := SubmitAlone(limits, s, th, sh, e, spare);
    case NetConnect(_) => n := 0;
    case ConnectFailed(c, _) => n := ReconnectEvent(limits, s, th, sh, c, spare);
    case RequestWritten(_) => n := 0;
    case ResponseDone(_, _) => n := RemoveEvent(limits, s, th, sh, e, spare);
    case Abort(_, _) => n := RemoveEvent(limits, s, th, sh, e, spare);
    case Eos(c, _) => if Fld(th, c).readEnable { n := CloseEvent(limits, s, th, sh, c, spare); } else { n := ReconnectEvent(limits, s, th, sh, c, spare); }
    case NetError(c) => n := CloseEvent(limits, s, th, sh, c, spare);
  }
}
