/** Interleaving adds nothing: whatever the other threads do, each thread goes through a run of the one-step
    machine, in which the request ids others have drawn in the meantime are skipped. */
module SchedulerReduction {
  import opened SchedulerSpec
  import opened SchedulerInvariants
  import opened SchedulerThreads
  import opened SchedulerSections
  import M = SchedulerMachine

  // ---- Sections and the counter ---------------------------------------------------------------------------

  /** Only one section looks at the counter, and only one at the spare connection object. */
  lemma ActCommutes<I, C>(limits: Limits, th: Thread<I, C>, sh: Shared<I, C>, spare: C, other: C, x: nat)
    requires !th.task.Numbering?
    ensures var (th1, sh1) := Act(limits, th, sh, spare); Act(limits, th, sh.(next := x), spare) == (th1, sh1.(next := x))
    ensures !th.task.Connecting? ==> Act(limits, th, sh, other) == Act(limits, th, sh, spare)
  {
    hide ActConnecting, ActReleasing, ActDropping, ActPopping, Then;
  }

  /** The queue is looked at only after a connection was released. */
  ghost predicate PopOrder<I, C>(th: Thread<I, C>) {
    th.popping ==> th.task.Releasing? || th.task.Closing? || th.task.Dropping?
  }

  lemma ActPopOrder<I, C>(limits: Limits, th: Thread<I, C>, sh: Shared<I, C>, spare: C)
    requires PopOrder(th)
    ensures PopOrder(Act(limits, th, sh, spare).0)
  {
  }

  /** The event has nothing left that draws an id. */
  predicate Settled<I, C>(th: Thread<I, C>) {
    !th.popping && (th.task.Inserting? || th.task.Closing? || th.task.Dropping? || th.task.Idle?)
  }

  lemma ActSettled<I, C>(limits: Limits, th: Thread<I, C>, sh: Shared<I, C>, spare: C)
    requires Settled(th) || (th.task.Numbering? && !th.popping)
    ensures Settled(Act(limits, th, sh, spare).0)
  {
  }

  lemma {:induction false} SettledActs<I, C>(limits: Limits, th: Thread<I, C>, sh: Shared<I, C>, spare: C, n: nat, x: nat)
    requires Settled(th)
    ensures var r := Acts(limits, th, sh, spare, n); Acts(limits, th, sh.(next := x), spare, n) == (r.0, r.1.(next := x))
    decreases n
  {
    hide Act;
    if n > 0 {
      var (th1, sh1) := Act(limits, th, sh, spare);
      ActSettled(limits, th, sh, spare);
      ActCommutes(limits, th, sh, spare, spare, x);
      SettledActs(limits, th1, sh1, spare, n - 1, x);
    }
  }

  // ---- Where an event ends --------------------------------------------------------------------------------

  /** Left alone from here, the thread ends between events in the state `s`. */
  ghost predicate Finishes<I, C>(limits: Limits, s: Sched<I, C>, th: Thread<I, C>, sh: Shared<I, C>, spare: C) {
    exists n: nat :: EndsAfter(limits, s, th, sh, spare, n)
  }

  ghost predicate EndsAfter<I, C>(limits: Limits, s: Sched<I, C>, th: Thread<I, C>, sh: Shared<I, C>, spare: C, n: nat) {
    var r := Acts(limits, th, sh, spare, n);
    r.0.task == Idle && Matches(s, limits, r.0, r.1)
  }

  lemma {:induction false} IdleActs<I, C>(limits: Limits, th: Thread<I, C>, sh: Shared<I, C>, spare: C, n: nat)
    requires th.task == Idle
    ensures Acts(limits, th, sh, spare, n) == (th, sh)
    decreases n
  {
    if n > 0 { IdleActs(limits, th, sh, spare, n - 1); }
  }

  lemma FinishStep<I, C>(limits: Limits, s: Sched<I, C>, th: Thread<I, C>, sh: Shared<I, C>, spare: C)
    requires Finishes(limits, s, th, sh, spare)
    ensures var (th1, sh1) := Act(limits, th, sh, spare); Finishes(limits, s, th1, sh1, spare)
    ensures th.task == Idle ==> Matches(s, limits, th, sh)
  {
    hide Act, Matches;
    var n: nat :| EndsAfter(limits, s, th, sh, spare, n);
    var (th1, sh1) := Act(limits, th, sh, spare);
    if th.task == Idle {
      IdleActs(limits, th, sh, spare, n);
      M.IdleStays(limits, th, sh, spare);
      assert EndsAfter(limits, s, th1, sh1, spare, 0) by { assert Acts(limits, th1, sh1, spare, 0) == (th1, sh1); }
    } else {
      assert n > 0;
      assert EndsAfter(limits, s, th1, sh1, spare, n - 1);
    }
  }

  function WithSpare<I, C>(e: Event<I, C>, spare: C): Event<I, C> {
    if MakesNone(e) then e else e.(spare := spare)
  }

  /** The event in one step, with the counter at `x`. */
  function Target<I, C>(s: Sched<I, C>, e: Event<I, C>, x: nat, spare: C): Sched<I, C> {
    Step(s.(issued := x), WithSpare(e, spare))
  }

  ghost predicate Ends<I, C>(limits: Limits, s: Sched<I, C>, e: Event<I, C>, x: nat, spare: C, th: Thread<I, C>, sh: Shared<I, C>) {
    Finishes(limits, Target(s, e, x, spare), th, sh.(next := x), spare)
  }

  /** How far a thread is with an event that it took up in state `s`. */
  datatype Stage<I, C> =
    | Resting
    | Early(e: Event<I, C>)
    | Middle(e: Event<I, C>, spare: C)
    | Late(e: Event<I, C>, x: nat, spare: C)

  ghost predicate MiddleEnds<I, C>(limits: Limits, s: Sched<I, C>, e: Event<I, C>, spare: C, th: Thread<I, C>, sh: Shared<I, C>) {
    forall x :: sh.next <= x < ID_SPACE ==> Ends(limits, s, e, x, spare, th, sh)
  }

  /** Wherever the thread is, it will end where the event in one step ends: before it has taken a connection,
      whichever object that is; before it has drawn an id, whichever that is. */
  ghost predicate Follows<I, C(!new)>(limits: Limits, s: Sched<I, C>, th: Thread<I, C>, sh: Shared<I, C>, stage: Stage<I, C>) {
    PopOrder(th) &&
    match stage
    case Resting => th.task == Idle && Matches(s.(issued := sh.next), limits, th, sh)
    case Early(e) =>
      !th.task.Numbering? &&
      forall x, spare :: sh.next <= x < ID_SPACE && spare !in s.conns ==> Ends(limits, s, e, x, spare, th, sh)
    case Middle(e, spare) => (Settled(th) || (th.task.Numbering? && !th.popping)) && MiddleEnds(limits, s, e, spare, th, sh)
    case Late(e, x, spare) => Settled(th) && Finishes(limits, Target(s, e, x, spare).(issued := sh.next), th, sh, spare)
  }

  // ---- Runs with jumps of the counter ---------------------------------------------------------------------

  /** An event, and where the counter stood when the event drew its id. */
  datatype Jump<I, C> = Jump(x: nat, e: Event<I, C>)

  function JumpRun<I, C>(s: Sched<I, C>, jumps: seq<Jump<I, C>>): Sched<I, C>
    decreases |jumps|
  {
    if jumps == [] then s else JumpRun(Step(s.(issued := jumps[0].x), jumps[0].e), jumps[1..])
  }

  /** The counter only moves on, and every event is one the environment may produce. */
  ghost predicate Real<I, C>(s: Sched<I, C>, jumps: seq<Jump<I, C>>)
    decreases |jumps|
  {
    jumps == [] ||
    (s.issued <= jumps[0].x < ID_SPACE && Enabled(s.(issued := jumps[0].x), jumps[0].e) &&
     Real(Step(s.(issued := jumps[0].x), jumps[0].e), jumps[1..]))
  }

  lemma {:induction false} JumpsOn<I, C>(s: Sched<I, C>, a: seq<Jump<I, C>>, b: seq<Jump<I, C>>)
    requires Real(s, a) && Real(JumpRun(s, a), b)
    ensures Real(s, a + b) && JumpRun(s, a + b) == JumpRun(JumpRun(s, a), b)
    decreases |a|
  {
    hide Step, Enabled;
    if a == [] {
      assert a + b == b;
    } else {
      assert (a + b)[0] == a[0] && (a + b)[1..] == a[1..] + b;
      JumpsOn(Step(s.(issued := a[0].x), a[0].e), a[1..], b);
    }
  }

  lemma OneJump<I, C>(s: Sched<I, C>, x: nat, e: Event<I, C>)
    requires s.issued <= x < ID_SPACE && Enabled(s.(issued := x), e)
    ensures Real(s, [Jump(x, e)]) && JumpRun(s, [Jump(x, e)]) == Step(s.(issued := x), e)
  {
    hide Step, Enabled;
    var t := Step(s.(issued := x), e);
    assert [Jump(x, e)][1..] == [];
    assert JumpRun(t, []) == t && Real(t, []);
  }

  // ---- Events up to the objects they make -----------------------------------------------------------------

  /** The same event, but perhaps with another new object. */
  ghost predicate SameEvent<I, C>(a: Event<I, C>, b: Event<I, C>) {
    if MakesNone(a) then a == b else !MakesNone(b) && a.(spare := b.spare) == b
  }

  ghost predicate SameEvents<I, C>(a: seq<Event<I, C>>, b: seq<Event<I, C>>) {
    |a| == |b| && forall k :: 0 <= k < |a| ==> SameEvent(a[k], b[k])
  }

  lemma SameConcat<I, C>(a: seq<Event<I, C>>, b: seq<Event<I, C>>, c: seq<Event<I, C>>, d: seq<Event<I, C>>)
    requires SameEvents(a, b) && SameEvents(c, d)
    ensures SameEvents(a + c, b + d)
  {
  }

  lemma SameTransitive<I, C>(a: seq<Event<I, C>>, b: seq<Event<I, C>>, c: seq<Event<I, C>>)
    requires SameEvents(a, b) && SameEvents(b, c)
    ensures SameEvents(a, c)
  {
    forall k | 0 <= k < |a| ensures SameEvent(a[k], c[k]) {
      assert SameEvent(a[k], b[k]) && SameEvent(b[k], c[k]);
    }
  }

  /** The events a thread takes up in the course of some moves, in order. */
  function Taken<I, C>(moves: seq<M.Move<I, C>>, t: nat): seq<Event<I, C>> {
    if moves == [] then [] else (if moves[0].Start? && moves[0].t == t then [moves[0].e] else []) + Taken(moves[1..], t)
  }

  function Events<I, C>(jumps: seq<Jump<I, C>>): seq<Event<I, C>> {
    if jumps == [] then [] else [jumps[0].e] + Events(jumps[1..])
  }

  /** The event a thread is at work on. */
  function Pending<I, C>(stage: Stage<I, C>): seq<Event<I, C>> {
    if stage == Resting then [] else [stage.e]
  }

  lemma {:induction false} EventsConcat<I, C>(a: seq<Jump<I, C>>, b: seq<Jump<I, C>>)
    ensures Events(a + b) == Events(a) + Events(b)
    decreases |a|
  {
    if a == [] {
      assert a + b == b;
    } else {
      assert (a + b)[1..] == a[1..] + b;
      EventsConcat(a[1..], b);
    }
  }

  lemma OneTaken<I, C>(move: M.Move<I, C>, t: nat)
    ensures Taken([move], t) == if move.Start? && move.t == t then [move.e] else []
  {
    assert [move][1..] == [];
  }

  lemma TakenFirst<I, C>(moves: seq<M.Move<I, C>>, t: nat)
    requires moves != []
    ensures Taken(moves, t) == Taken([moves[0]], t) + Taken(moves[1..], t)
  {
    OneTaken(moves[0], t);
  }

  lemma NoEvents<I, C>(t: nat, p: seq<Event<I, C>>)
    ensures SameEvents(Events([]) + p, p + Taken([], t))
  {
  }

  lemma SpareChanges<I, C>(x: nat, e: Event<I, C>, spare: C)
    ensures SameEvents(Events([Jump(x, WithSpare(e, spare))]), [e])
  {
    var j := [Jump(x, WithSpare(e, spare))];
    assert j[1..] == [];
    assert Events(j) == [WithSpare(e, spare)];
  }

  /** What one move and the moves behind it have done adds up. */
  lemma EventsChain<I, C>(moves: seq<M.Move<I, C>>, t: nat, first: seq<Jump<I, C>>, rest: seq<Jump<I, C>>, p: seq<Event<I, C>>, q: seq<Event<I, C>>, r: seq<Event<I, C>>)
    requires moves != []
    requires SameEvents(Events(first) + q, p + Taken([moves[0]], t)) && SameEvents(Events(rest) + r, q + Taken(moves[1..], t))
    ensures SameEvents(Events(first + rest) + r, p + Taken(moves, t))
  {
    hide SameEvents, Events, Taken;
    var a, b, c, d := Events(first), Events(rest), Taken([moves[0]], t), Taken(moves[1..], t);
    EventsConcat(first, rest);
    TakenFirst(moves, t);
    SameReflexive(a);
    SameConcat(a, a, b + r, q + d);
    SameReflexive(d);
    SameConcat(a + q, p + c, d, d);
    assert a + (b + r) == (a + b) + r && a + (q + d) == (a + q) + d && (p + c) + d == p + (c + d);
    SameTransitive((a + b) + r, (a + q) + d, p + (c + d));
  }

  lemma SameReflexive<I, C>(a: seq<Event<I, C>>)
    ensures SameEvents(a, a)
  {
  }

  // ---- One move of the thread -----------------------------------------------------------------------------

  /** Taking up an event. */
  lemma BeginFollows<I, C(!new)>(limits: Limits, s: Sched<I, C>, th: Thread<I, C>, sh: Shared<I, C>, e: Event<I, C>)
    requires Follows(limits, s, th, sh, Resting) && Local(limits, th, sh) && CanBegin(th, sh, e) && sh.next < ID_SPACE
    ensures Follows(limits, s, Begin(th, sh, e), sh, Early(e))
  {
    hide Local, Begin, Act, Step, Matches;
    var th1 := Begin(th, sh, e);
    ErasingShape(limits, th, sh);
    BeginPopOrder(th, sh, e);
    BeginDrawsNothing(th, sh, e);
    forall x, spare | sh.next <= x < ID_SPACE && spare !in s.conns ensures Ends(limits, s, e, x, spare, th1, sh) {
      BeginEnds(limits, s, th, sh, e, x, spare);
    }
  }

  lemma BeginDrawsNothing<I, C>(th: Thread<I, C>, sh: Shared<I, C>, e: Event<I, C>)
    requires CanBegin(th, sh, e)
    ensures !Begin(th, sh, e).task.Numbering?
  {
  }

  lemma NotNumbering<I, C>(limits: Limits, th: Thread<I, C>, sh: Shared<I, C>, spare: C)
    requires !th.task.Connecting? && !th.task.Numbering?
    ensures !Act(limits, th, sh, spare).0.task.Numbering?
  {
  }

  lemma BeginPopOrder<I, C>(th: Thread<I, C>, sh: Shared<I, C>, e: Event<I, C>)
    requires !th.popping
    ensures PopOrder(Begin(th, sh, e))
  {
  }

  lemma BeginEnds<I, C>(limits: Limits, s: Sched<I, C>, th: Thread<I, C>, sh: Shared<I, C>, e: Event<I, C>, x: nat, spare: C)
    requires Matches(s.(issued := sh.next), limits, th, sh) && Local(limits, th, sh) && CanBegin(th, sh, e)
    requires sh.next <= x < ID_SPACE && spare !in s.conns
    ensures Ends(limits, s, e, x, spare, Begin(th, sh, e), sh)
  {
    hide Local, Begin, Act, Step, Those;
    M.LaterNext(limits, th, sh.next, x, sh.mapped);
    var n := Alone(limits, s.(issued := x), th, sh.(next := x), WithSpare(e, spare), spare);
    SameBegin(th, sh, e, spare, x);
    assert EndsAfter(limits, Target(s, e, x, spare), Begin(th, sh, e), sh.(next := x), spare, n);
  }

  lemma SameBegin<I, C>(th: Thread<I, C>, sh: Shared<I, C>, e: Event<I, C>, spare: C, x: nat)
    ensures Begin(th, sh.(next := x), WithSpare(e, spare)) == Begin(th, sh, e)
    ensures CanBegin(th, sh.(next := x), WithSpare(e, spare)) <==> CanBegin(th, sh, e)
  {
  }

  /** A section that takes a connection, or comes behind that, but not the one that draws an id. */
  lemma MiddleActs<I, C(!new)>(limits: Limits, s: Sched<I, C>, th: Thread<I, C>, sh: Shared<I, C>, e: Event<I, C>, spare: C, other: C)
    requires PopOrder(th) && MiddleEnds(limits, s, e, spare, th, sh) && (Settled(th) || (th.task.Connecting? && other == spare))
    ensures var (th1, sh1) := Act(limits, th, sh, other); Follows(limits, s, th1, sh1, Middle(e, spare)) && sh1.next == sh.next
  {
    hide Act, Finishes, Target;
    var (th1, sh1) := Act(limits, th, sh, other);
    ActPopOrder(limits, th, sh, other);
    NextStays(limits, th, sh, other);
    if Settled(th) { ActSettled(limits, th, sh, other); } else { ConnectingSettles(limits, th, sh, other); }
    ActCommutes(limits, th, sh, spare, other, sh.next);
    forall x | sh1.next <= x < ID_SPACE ensures Ends(limits, s, e, x, spare, th1, sh1) {
      assert Ends(limits, s, e, x, spare, th, sh);
      ActCommutes(limits, th, sh, spare, other, x);
      FinishStep(limits, Target(s, e, x, spare), th, sh.(next := x), spare);
    }
  }

  lemma ConnectingSettles<I, C>(limits: Limits, th: Thread<I, C>, sh: Shared<I, C>, spare: C)
    requires PopOrder(th) && th.task.Connecting?
    ensures var th1 := Act(limits, th, sh, spare).0; Settled(th1) || (th1.task.Numbering? && !th1.popping)
  {
  }

  lemma NextStays<I, C>(limits: Limits, th: Thread<I, C>, sh: Shared<I, C>, spare: C)
    ensures Act(limits, th, sh, spare).1.next == sh.next + if th.task.Numbering? then 1 else 0
  {
    hide ActConnecting, ActReleasing, ActDropping, ActPopping, Then;
  }

  /** A section before a connection is taken. */
  lemma EarlyActs<I, C(!new)>(limits: Limits, s: Sched<I, C>, th: Thread<I, C>, sh: Shared<I, C>, e: Event<I, C>, other: C)
    requires Follows(limits, s, th, sh, Early(e)) && !th.task.Numbering? && !th.task.Connecting?
    ensures var (th1, sh1) := Act(limits, th, sh, other); Follows(limits, s, th1, sh1, Early(e)) && sh1.next == sh.next
  {
    hide Act, Finishes, Target;
    var (th1, sh1) := Act(limits, th, sh, other);
    ActPopOrder(limits, th, sh, other);
    NextStays(limits, th, sh, other);
    NotNumbering(limits, th, sh, other);
    forall x, spare | sh1.next <= x < ID_SPACE && spare !in s.conns ensures Ends(limits, s, e, x, spare, th1, sh1) {
      assert Ends(limits, s, e, x, spare, th, sh);
      ActCommutes(limits, th, sh, spare, other, x);
      ActCommutes(limits, th, sh, other, other, x);
      ActCommutes(limits, th, sh.(next := x), other, spare, x);
      FinishStep(limits, Target(s, e, x, spare), th, sh.(next := x), spare);
    }
  }

  /** The section that draws an id settles which. */
  lemma NumberingActs<I, C(!new)>(limits: Limits, s: Sched<I, C>, th: Thread<I, C>, sh: Shared<I, C>, e: Event<I, C>, spare: C, other: C)
    requires Follows(limits, s, th, sh, Middle(e, spare)) && th.task.Numbering? && sh.next < ID_SPACE
    ensures var (th1, sh1) := Act(limits, th, sh, other); Follows(limits, s, th1, sh1, Late(e, sh.next, spare))
  {
    hide Finishes, Target;
    var x := sh.next;
    var (th1, sh1) := Act(limits, th, sh, other);
    assert Act(limits, th, sh, spare) == (th1, sh1);
    ActPopOrder(limits, th, sh, other);
    ActSettled(limits, th, sh, other);
    assert Ends(limits, s, e, x, spare, th, sh);
    assert sh.(next := x) == sh;
    FinishStep(limits, Target(s, e, x, spare), th, sh, spare);
    SettledTarget(limits, Target(s, e, x, spare), th1, sh1, spare, sh1.next);
  }

  /** From a settled thread on, the counter is only carried along. */
  lemma SettledTarget<I, C>(limits: Limits, s: Sched<I, C>, th: Thread<I, C>, sh: Shared<I, C>, spare: C, x: nat)
    requires Settled(th) && Finishes(limits, s, th, sh, spare)
    ensures Finishes(limits, s.(issued := x), th, sh.(next := x), spare)
  {
    hide Acts, Those;
    var n: nat :| EndsAfter(limits, s, th, sh, spare, n);
    SettledActs(limits, th, sh, spare, n, x);
    assert EndsAfter(limits, s.(issued := x), th, sh.(next := x), spare, n);
  }

  lemma LateActs<I, C(!new)>(limits: Limits, s: Sched<I, C>, th: Thread<I, C>, sh: Shared<I, C>, e: Event<I, C>, x: nat, spare: C, other: C)
    requires Follows(limits, s, th, sh, Late(e, x, spare))
    ensures var (th1, sh1) := Act(limits, th, sh, other); Follows(limits, s, th1, sh1, Late(e, x, spare)) && sh1.next == sh.next
  {
    hide Act, Finishes, Target;
    ActPopOrder(limits, th, sh, other);
    ActSettled(limits, th, sh, other);
    NextStays(limits, th, sh, other);
    ActCommutes(limits, th, sh, spare, other, sh.next);
    FinishStep(limits, Target(s, e, x, spare).(issued := sh.next), th, sh, spare);
  }

  /** Others moving the counter on do not matter to it. */
  lemma CounterMoves<I, C(!new)>(limits: Limits, s: Sched<I, C>, th: Thread<I, C>, sh: Shared<I, C>, stage: Stage<I, C>, next: nat)
    requires Follows(limits, s, th, sh, stage) && sh.next <= next
    ensures Follows(limits, s, th, sh.(next := next), stage)
  {
    hide Finishes, Target;
    match stage
    case Resting => RestingMoves(limits, s, th, sh, next);
    case Early(e) =>
      forall x, spare | next <= x < ID_SPACE && spare !in s.conns ensures Ends(limits, s, e, x, spare, th, sh.(next := next)) {
        assert Ends(limits, s, e, x, spare, th, sh);
        assert sh.(next := next).(next := x) == sh.(next := x);
      }
    case Middle(e, spare) =>
      forall x | next <= x < ID_SPACE ensures Ends(limits, s, e, x, spare, th, sh.(next := next)) {
        assert Ends(limits, s, e, x, spare, th, sh);
        assert sh.(next := next).(next := x) == sh.(next := x);
      }
    case Late(e, x, spare) => SettledTarget(limits, Target(s, e, x, spare).(issued := sh.next), th, sh, spare, next);
  }

  lemma RestingMoves<I, C>(limits: Limits, s: Sched<I, C>, th: Thread<I, C>, sh: Shared<I, C>, next: nat)
    requires Matches(s.(issued := sh.next), limits, th, sh)
    ensures Matches(s.(issued := next), limits, th, sh.(next := next))
  {
    hide Those;
  }

  // ---- Bookkeeping ----------------------------------------------------------------------------------------

  /** Can the event happen, with whatever new object? */
  predicate CanHappen<I, C>(s: Sched<I, C>, e: Event<I, C>) {
    match e
    case Submit(i, _) => i !in s.history.submitted
    case NetConnect(c) => c in s.conns && s.conns[c].connecting
    case ConnectFailed(c, _) => c in s.conns && s.conns[c].connecting
    case RequestWritten(id) => id in s.mapped
    case ResponseDone(c, _) => c in s.conns && !s.conns[c].connecting && s.conns[c].requestId in s.mapped
    case Abort(_, _) => true
    case Eos(c, _) => c in s.conns && !s.conns[c].connecting
    case NetError(c) => c in s.conns && !s.conns[c].connecting
  }

  lemma CanHappenEnabled<I, C>(s: Sched<I, C>, e: Event<I, C>, x: nat, spare: C)
    requires CanHappen(s, e) && spare !in s.conns
    ensures Enabled(s.(issued := x), WithSpare(e, spare))
  {
  }

  lemma CanBeginCanHappen<I, C>(limits: Limits, s: Sched<I, C>, th: Thread<I, C>, sh: Shared<I, C>, e: Event<I, C>)
    requires Matches(s.(issued := sh.next), limits, th, sh) && CanBegin(th, sh, e)
    ensures CanHappen(s, e)
  {
  }

  ghost predicate Tracks<I, C>(s: Sched<I, C>, stage: Stage<I, C>, next: nat) {
    s.issued <= next &&
    match stage
    case Resting => true
    case Early(e) => CanHappen(s, e)
    case Middle(e, spare) => CanHappen(s, e) && spare !in s.conns
    case Late(e, x, spare) => CanHappen(s, e) && spare !in s.conns && s.issued <= x < ID_SPACE && x < next
  }

  lemma StepIssues<I, C>(s: Sched<I, C>, e: Event<I, C>)
    ensures Step(s, e).issued <= s.issued + 1
  {
    hide Connect, RemoveIntercept, ReConnect;
    match e
    case Submit(i, spare) => ConnectIssues(Submitted(s, i), i, spare);
    case ConnectFailed(c, spare) => ReConnectIssues(s, Fields(s, c).requestId, spare);
    case ResponseDone(c, spare) => RemoveIssues(SetState(s, c, Complete), Fields(s, c).requestId, spare);
    case Abort(id, spare) => RemoveIssues(s, id, spare);
    case Eos(c, spare) => ReConnectIssues(s, Fields(s, c).requestId, spare);
    case _ =>
  }

  lemma ConnectIssues<I, C>(s: Sched<I, C>, i: I, spare: C)
    ensures Connect(s, i, spare).issued <= s.issued + 1
  {
  }

  lemma ReConnectIssues<I, C>(s: Sched<I, C>, id: nat, spare: C)
    ensures ReConnect(s, id, spare).issued <= s.issued + 1
  {
  }

  lemma RemoveIssues<I, C>(s: Sched<I, C>, id: nat, spare: C)
    ensures RemoveIntercept(s, id, spare).issued <= s.issued + 1
  {
    hide Connect;
    if id in s.mapped {
      var t := Release(s, id);
      assert t.issued == s.issued;
      if t.queue != [] { ConnectIssues(t.(queue := t.queue[1..]), t.queue[0], spare); }
    }
  }

  /** A thread that has come to rest has done its event in one step. */
  lemma Lands<I, C(!new)>(limits: Limits, s: Sched<I, C>, th: Thread<I, C>, sh: Shared<I, C>, stage: Stage<I, C>, new_: C)
    returns (s1: Sched<I, C>, jumps: seq<Jump<I, C>>)
    requires Follows(limits, s, th, sh, stage) && Tracks(s, stage, sh.next) && th.task == Idle && stage != Resting
    requires stage.Early? || stage.Middle? ==> sh.next < ID_SPACE && new_ !in s.conns
    ensures Follows(limits, s1, th, sh, Resting) && Tracks(s1, Resting, sh.next)
    ensures Real(s, jumps) && s1 == JumpRun(s, jumps) && s1.conns == th.conns
    ensures SameEvents(Events(jumps), [stage.e])
  {
    hide Finishes, Step, Enabled, Those, CanHappen;
    var e := stage.e;
    var x := if stage.Late? then stage.x else sh.next;
    var spare := if stage.Early? then new_ else stage.spare;
    s1 := Target(s, e, x, spare);
    jumps := [Jump(x, WithSpare(e, spare))];
    SpareChanges(x, e, spare);
    CanHappenEnabled(s, e, x, spare);
    OneJump(s, x, WithSpare(e, spare));
    StepIssues(s.(issued := x), WithSpare(e, spare));
    if stage.Late? {
      FinishStep(limits, s1.(issued := sh.next), th, sh, spare);
    } else {
      assert Ends(limits, s, e, x, spare, th, sh);
      assert sh.(next := x) == sh;
      FinishStep(limits, s1, th, sh, spare);
      assert s1.(issued := sh.next) == s1;
    }
  }

  // ---- One move of the machine ----------------------------------------------------------------------------

  lemma GoView<I, C>(m: M.Machine<I, C>, t: nat, spare: C)
    requires M.Inv(m) && M.Allowed(m, M.Go(t, spare))
    ensures var n := M.Step(m, M.Go(t, spare));
            Act(m.limits, m.threads[t], M.View(m.shared, m.issuedBy, t), spare) == (n.threads[t], M.View(n.shared, n.issuedBy, t))
  {
    hide Local, Act, M.View, M.Apart;
    var th, sh := m.threads[t], m.shared;
    assert M.ThreadOk(m.limits, th, sh, m.issuedBy, t);
    M.TouchedIsKnown(m.limits, th, M.View(sh, m.issuedBy, t), m.issuedBy, t);
    M.ActIsLocal(m.limits, th, sh, spare, m.issuedBy, t);
    if th.task.Numbering? {
      var sh1 := Act(m.limits, th, sh, spare).1;
      M.MineDrawn(sh1.mapped, m.issuedBy, sh.next, t);
      M.ViewIs(sh1, m.issuedBy, m.issuedBy[sh.next := t], t);
    }
  }

  lemma OwnLocal<I, C>(m: M.Machine<I, C>, t: nat)
    requires M.Inv(m) && t < |m.threads|
    ensures Local(m.limits, m.threads[t], M.View(m.shared, m.issuedBy, t)) && M.View(m.shared, m.issuedBy, t).next == m.shared.next
  {
    hide Local;
    assert M.ThreadOk(m.limits, m.threads[t], m.shared, m.issuedBy, t);
  }

  /** A section of the thread, before landing. */
  lemma GoFollows<I, C(!new)>(limits: Limits, s: Sched<I, C>, th: Thread<I, C>, sh: Shared<I, C>, stage: Stage<I, C>, spare: C)
    returns (stage1: Stage<I, C>)
    requires Follows(limits, s, th, sh, stage) && Tracks(s, stage, sh.next) && sh.next < ID_SPACE && spare !in s.conns && stage != Resting
    ensures var (th1, sh1) := Act(limits, th, sh, spare);
            && Follows(limits, s, th1, sh1, stage1) && Tracks(s, stage1, sh1.next) && stage1 != Resting
            && (stage1.Early? || stage1.Middle? ==> sh1.next < ID_SPACE)
    ensures stage1 != Resting && stage1.e == stage.e
  {
    hide Act, Finishes, Target, CanHappen;
    match stage
    case Early(e) =>
      if th.task.Connecting? {
        EarlyIsMiddle(limits, s, th, sh, e, spare);
        MiddleActs(limits, s, th, sh, e, spare, spare);
        stage1 := Middle(e, spare);
      } else {
        EarlyActs(limits, s, th, sh, e, spare);
        stage1 := stage;
      }
    case Middle(e, first) =>
      NextStays(limits, th, sh, spare);
      if th.task.Numbering? {
        NumberingActs(limits, s, th, sh, e, first, spare);
        stage1 := Late(e, sh.next, first);
      } else {
        MiddleActs(limits, s, th, sh, e, first, spare);
        stage1 := stage;
      }
    case Late(e, x, first) =>
      LateActs(limits, s, th, sh, e, x, first, spare);
      stage1 := stage;
  }

  lemma EarlyIsMiddle<I, C(!new)>(limits: Limits, s: Sched<I, C>, th: Thread<I, C>, sh: Shared<I, C>, e: Event<I, C>, spare: C)
    requires Follows(limits, s, th, sh, Early(e)) && spare !in s.conns
    ensures MiddleEnds(limits, s, e, spare, th, sh) && PopOrder(th)
  {
    hide Ends;
  }

  /** A thread, the state of the one-step machine it goes by, and how far it is with an event. */
  ghost predicate Follower<I, C(!new)>(m: M.Machine<I, C>, t: nat, s: Sched<I, C>, stage: Stage<I, C>, used: set<C>) {
    && t < |m.threads|
    && Follows(m.limits, s, m.threads[t], M.View(m.shared, m.issuedBy, t), stage) && Tracks(s, stage, m.shared.next)
    && s.conns.Keys <= used && m.threads[t].conns.Keys <= used
    && (m.threads[t].task == Idle <==> stage == Resting)
  }

  /** The objects in use after a move. */
  function Used<I, C>(move: M.Move<I, C>, t: nat, used: set<C>): set<C> {
    if move.Go? && move.t == t then used + {move.spare} else used
  }

  predicate NewObject<I, C>(move: M.Move<I, C>, t: nat, used: set<C>) {
    move.Go? && move.t == t ==> move.spare !in used
  }

  lemma OtherMove<I, C(!new)>(m: M.Machine<I, C>, move: M.Move<I, C>, t: nat, s: Sched<I, C>, stage: Stage<I, C>, used: set<C>)
    requires M.Inv(m) && M.Allowed(m, move) && Follower(m, t, s, stage, used) && move.t != t
    ensures Follower(M.Step(m, move), t, s, stage, used)
  {
    hide M.Inv, M.Allowed, M.Step, M.Mine, Follows;
    SameThreads(m, move);
    M.Isolation(m, move, t);
    var n := M.Step(m, move);
    CounterMoves(m.limits, s, m.threads[t], M.View(m.shared, m.issuedBy, t), stage, n.shared.next);
    assert M.View(n.shared, n.issuedBy, t) == M.View(m.shared, m.issuedBy, t).(next := n.shared.next);
  }

  lemma SameThreads<I, C>(m: M.Machine<I, C>, move: M.Move<I, C>)
    requires M.Allowed(m, move)
    ensures move.t < |m.threads| && |M.Step(m, move).threads| == |m.threads| && M.Step(m, move).limits == m.limits
    ensures m.shared.next < ID_SPACE
  {
  }

  lemma StartView<I, C>(m: M.Machine<I, C>, t: nat, e: Event<I, C>)
    requires M.Inv(m) && M.Allowed(m, M.Start(t, e))
    ensures var v, n := M.View(m.shared, m.issuedBy, t), M.Step(m, M.Start(t, e));
            && CanBegin(m.threads[t], v, e) && n.threads[t] == Begin(m.threads[t], v, e)
            && M.View(n.shared, n.issuedBy, t) == v && n.shared.next == m.shared.next < ID_SPACE && n.limits == m.limits
  {
    hide Local, Begin, M.Apart;
    assert M.ThreadOk(m.limits, m.threads[t], m.shared, m.issuedBy, t);
    M.BeginIsLocal(m.threads[t], m.shared, e, m.issuedBy, t);
  }

  /** An event with nothing left to do is done at once. */
  lemma Instant<I, C(!new)>(limits: Limits, s: Sched<I, C>, th: Thread<I, C>, sh: Shared<I, C>, e: Event<I, C>)
    returns (s1: Sched<I, C>, jumps: seq<Jump<I, C>>)
    requires Follows(limits, s, th, sh, Resting) && s.issued <= sh.next < ID_SPACE && CanBegin(th, sh, e) && Begin(th, sh, e).task == Idle
    ensures Follows(limits, s1, Begin(th, sh, e), sh, Resting) && Tracks(s1, Resting, sh.next) && s1.conns == Begin(th, sh, e).conns
    ensures Real(s, jumps) && s1 == JumpRun(s, jumps) && jumps == [Jump(sh.next, e)]
  {
    hide Those, Real, JumpRun;
    assert e.NetConnect? || e.RequestWritten?;
    s1 := Step(s.(issued := sh.next), e);
    jumps := [Jump(sh.next, e)];
    OneJump(s, sh.next, e);
    assert s1.(issued := sh.next) == s1;
  }

  lemma OwnStart<I, C(!new)>(m: M.Machine<I, C>, t: nat, e: Event<I, C>, s: Sched<I, C>, used: set<C>)
    returns (s1: Sched<I, C>, stage1: Stage<I, C>, jumps: seq<Jump<I, C>>)
    requires M.Inv(m) && M.Allowed(m, M.Start(t, e)) && Follower(m, t, s, Resting, used)
    ensures Follower(M.Step(m, M.Start(t, e)), t, s1, stage1, used) && Real(s, jumps) && s1 == JumpRun(s, jumps)
    ensures SameEvents(Events(jumps) + Pending(stage1), [e])
  {
    hide M.Inv, M.Allowed, M.Step, Local, Follows, Begin, CanHappen, M.View, Real, JumpRun;
    var th, v := m.threads[t], M.View(m.shared, m.issuedBy, t);
    OwnLocal(m, t);
    SameThreads(m, M.Start(t, e));
    StartView(m, t, e);
    MappedIsNotFree(m.limits, th, v);
    M.BeginObjects(th, v, e);
    if Begin(th, v, e).task == Idle {
      stage1 := Resting;
      s1, jumps := Instant(m.limits, s, th, v, e);
    } else {
      BeginFollows(m.limits, s, th, v, e);
      RestingCanHappen(m.limits, s, th, v, e);
      s1, stage1, jumps := s, Early(e), [];
      NoJump(s);
    }
  }

  lemma RestingCanHappen<I, C(!new)>(limits: Limits, s: Sched<I, C>, th: Thread<I, C>, sh: Shared<I, C>, e: Event<I, C>)
    requires Follows(limits, s, th, sh, Resting) && CanBegin(th, sh, e)
    ensures CanHappen(s, e)
  {
    hide Matches;
    CanBeginCanHappen(limits, s, th, sh, e);
  }

  lemma NoJump<I, C>(s: Sched<I, C>)
    ensures Real(s, []) && JumpRun(s, []) == s
  {
  }

  lemma OwnGo<I, C(!new)>(m: M.Machine<I, C>, t: nat, spare: C, s: Sched<I, C>, stage: Stage<I, C>, used: set<C>)
    returns (s1: Sched<I, C>, stage1: Stage<I, C>, jumps: seq<Jump<I, C>>)
    requires M.Inv(m) && M.Allowed(m, M.Go(t, spare)) && Follower(m, t, s, stage, used) && spare !in used
    ensures Follower(M.Step(m, M.Go(t, spare)), t, s1, stage1, used + {spare}) && Real(s, jumps) && s1 == JumpRun(s, jumps)
    ensures SameEvents(Events(jumps) + Pending(stage1), Pending(stage))
  {
    hide M.Inv, M.Allowed, M.Step, Local, Follows, Act, CanHappen, M.View, Real, JumpRun;
    var th, v, n := m.threads[t], M.View(m.shared, m.issuedBy, t), M.Step(m, M.Go(t, spare));
    OwnLocal(m, t);
    SameThreads(m, M.Go(t, spare));
    GoView(m, t, spare);
    ViewKeepsNext(n, t);
    NoJump(s);
    if th.task == Idle {
      M.IdleStays(m.limits, th, v, spare);
      s1, stage1, jumps := s, stage, [];
    } else {
      M.LocalAtHome(m.limits, th, v);
      M.ActObjects(m.limits, th, v, spare);
      var next := GoFollows(m.limits, s, th, v, stage, spare);
      var (th1, v1) := Act(m.limits, th, v, spare);
      if th1.task == Idle {
        s1, jumps := Lands(m.limits, s, th1, v1, next, spare);
        stage1 := Resting;
      } else {
        s1, stage1, jumps := s, next, [];
      }
    }
  }

  lemma ViewKeepsNext<I, C>(m: M.Machine<I, C>, t: nat)
    ensures M.View(m.shared, m.issuedBy, t).next == m.shared.next
  {
  }

  lemma OneMove<I, C(!new)>(m: M.Machine<I, C>, move: M.Move<I, C>, t: nat, s: Sched<I, C>, stage: Stage<I, C>, used: set<C>)
    returns (s1: Sched<I, C>, stage1: Stage<I, C>, jumps: seq<Jump<I, C>>)
    requires M.Inv(m) && M.Allowed(m, move) && Follower(m, t, s, stage, used) && NewObject(move, t, used)
    ensures Follower(M.Step(m, move), t, s1, stage1, Used(move, t, used)) && Real(s, jumps) && s1 == JumpRun(s, jumps)
    ensures SameEvents(Events(jumps) + Pending(stage1), Pending(stage) + Taken([move], t))
  {
    hide M.Inv, M.Step, Follows, Real, JumpRun, M.View, Tracks;
    if move.t != t {
      OtherMove(m, move, t, s, stage, used);
      NoJump(s);
      OneTaken(move, t);
      NoEvents(t, Pending(stage));
      s1, stage1, jumps := s, stage, [];
    } else {
      OneTaken(move, t);
      match move
      case Start(_, e) => s1, stage1, jumps := OwnStart(m, t, e, s, used);
      case Go(_, spare) => s1, stage1, jumps := OwnGo(m, t, spare, s, stage, used);
    }
  }

  // ---- Whole runs -----------------------------------------------------------------------------------------

  /** Each of the thread's sections is given an object not seen before. */
  predicate NewObjects<I, C>(moves: seq<M.Move<I, C>>, t: nat, used: set<C>)
    decreases |moves|
  {
    moves == [] || (NewObject(moves[0], t, used) && NewObjects(moves[1..], t, Used(moves[0], t, used)))
  }

  lemma {:induction false} Reduces<I, C(!new)>(m: M.Machine<I, C>, moves: seq<M.Move<I, C>>, t: nat, s: Sched<I, C>, stage: Stage<I, C>, used: set<C>)
    returns (s1: Sched<I, C>, stage1: Stage<I, C>, used1: set<C>, jumps: seq<Jump<I, C>>)
    requires M.Inv(m) && M.Possible(m, moves) && Follower(m, t, s, stage, used) && NewObjects(moves, t, used)
    ensures Follower(M.Run(m, moves), t, s1, stage1, used1) && Real(s, jumps) && s1 == JumpRun(s, jumps)
    ensures SameEvents(Events(jumps) + Pending(stage1), Pending(stage) + Taken(moves, t))
    decreases |moves|
  {
    hide M.Inv, M.Allowed, M.Step, Follower, Real, JumpRun, NewObject, Used, SameEvents, Events, Taken, Pending;
    if moves == [] {
      NoJump(s);
      s1, stage1, used1, jumps := s, stage, used, [];
      NoEvents(t, Pending(stage));
    } else {
      SameThreads(m, moves[0]);
      var s2, stage2, first := OneMove(m, moves[0], t, s, stage, used);
      MoveKeeps(m, moves[0]);
      var rest: seq<Jump<I, C>>;
      s1, stage1, used1, rest := Reduces(M.Step(m, moves[0]), moves[1..], t, s2, stage2, Used(moves[0], t, used));
      jumps := first + rest;
      JumpsOn(s, first, rest);
      EventsChain(moves, t, first, rest, Pending(stage), Pending(stage2), Pending(stage1));
    }
  }

  lemma MoveKeeps<I, C>(m: M.Machine<I, C>, move: M.Move<I, C>)
    requires M.Inv(m) && M.Allowed(m, move)
    ensures M.Inv(M.Step(m, move))
  {
    hide M.Inv, M.Step;
    match move
    case Start(t, e) => M.StartKeeps(m, t, e);
    case Go(t, spare) => M.GoKeeps(m, t, spare);
  }

  /** In every interleaving of any number of threads, a thread between events is where a run of the one-step
      machine is that skips the ids drawn by others: interleaving adds no behaviour. */
  lemma InterleavingAddsNothing<I, C(!new)>(limits: Limits, n: nat, moves: seq<M.Move<I, C>>, t: nat) returns (jumps: seq<Jump<I, C>>)
    requires M.Possible(M.Boot<I, C>(limits, n), moves) && t < n && NewObjects(moves, t, {})
    requires M.Run(M.Boot<I, C>(limits, n), moves).threads[t].task == Idle
    ensures Real(Init<I, C>(limits), jumps)
    ensures var m := M.Run(M.Boot<I, C>(limits, n), moves);
            Matches(JumpRun(Init(limits), jumps).(issued := m.shared.next), limits, m.threads[t], M.View(m.shared, m.issuedBy, t))
    ensures SameEvents(Events(jumps), Taken(moves, t))
  {
    hide M.Inv, M.Run, M.Possible, NewObjects, Real, JumpRun, Matches;
    var m0 := M.Boot<I, C>(limits, n);
    M.BootHolds<I, C>(limits, n);
    BootFollows<I, C>(limits, n, t);
    var s, stage, used;
    s, stage, used, jumps := Reduces(m0, moves, t, Init(limits), Resting, {});
    ViewKeepsNext(M.Run(m0, moves), t);
    assert Events(jumps) + [] == Events(jumps) && [] + Taken(moves, t) == Taken(moves, t);
  }

  lemma BootFollows<I, C(!new)>(limits: Limits, n: nat, t: nat)
    requires t < n
    ensures Follower(M.Boot<I, C>(limits, n), t, Init(limits), Resting, {})
  {
  }
}
