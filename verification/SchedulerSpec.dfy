/** The connection scheduler of one thread as a state machine: the pool with its free list, the queue of
    waiting requests, the map from request id to (intercept, connection), and every event that changes them.
    `I` and `C` are the identities of intercepts and connections. */
module SchedulerSpec {
  import opened Wrappers

  datatype ConnState = Initiated | Ready | InUse | Complete | Closed

  /** The fields of a ServerConnection. `connecting` says that its NET_CONNECT or NET_CONNECT_FAILED event
      is still to come. */
  datatype Conn = Conn(state: ConnState, requestId: nat, reqCount: nat, readEnable: bool, connecting: bool)
  {
    function CreateFCGIClient(): Conn {
      if state == Ready || state == Complete then this.(state := InUse, reqCount := reqCount + 1) else this
    }

    /** A request is put on the connection: it goes ahead, or waits for NET_CONNECT. */
    function Start(): Conn {
      if state != Ready then this.(connecting := true) else CreateFCGIClient()
    }

    function ReleaseFCGIClient(): Conn {
      if state == Complete then this.(state := Ready) else this
    }
  }

  const NEW_CONN := Conn(Initiated, 0, 0, false, false)

  datatype Limits = Limits(maxConn: nat, maxRequests: nat, queueSize: nat)

  const ID_SPACE := 0x1_0000_0000

  /** What has become of the submitted intercepts. `accepted` are those given a connection or a place in
      the queue when submitted, `started` those given a connection, both in order. */
  datatype History<I> = History(submitted: set<I>, accepted: seq<I>, started: seq<I>, finished: set<I>, failed: set<I>, dropped: set<I>)

  /** `issued` counts the request ids handed out, plus one; the next id is this number in 32 bits. */
  datatype Sched<I(==), C(==)> = Sched(
    limits: Limits,
    issued: nat,
    mapped: map<nat, (I, C)>,
    conns: map<C, Conn>,
    connections: seq<C>,
    available: seq<C>,
    queue: seq<I>,
    ids: map<I, nat>,
    history: History<I>)

  /** The fields of a connection; the invariants say that only live connections are looked up. */
  function Fields<I, C>(s: Sched<I, C>, c: C): Conn {
    if c in s.conns then s.conns[c] else NEW_CONN
  }

  function Init<I, C>(limits: Limits): Sched<I, C> {
    Sched(limits, 1, map[], map[], [], [], [], map[], History({}, [], [], {}, {}, {}))
  }

  // ---- ConnectionPool -----------------------------------------------------------------------------------

  /** std::list::remove. */
  function Without<T(==)>(s: seq<T>, x: T): seq<T> {
    if s == [] then [] else (if s[0] == x then [] else [s[0]]) + Without(s[1..], x)
  }

  /** A free connection is taken only when the pool is at its limit; below it a new one is made. */
  function GetAvailable<I, C>(s: Sched<I, C>, spare: C): (Option<C>, Sched<I, C>)
  {
    var (conn, s1) :=
      if s.available != [] && |s.connections| >= s.limits.maxConn then
        var c := s.available[0];
        (Some(c), s.(available := s.available[1..], conns := s.conns[c := Fields(s, c).(state := Ready)]))
      else (None, s);
    if |s1.connections| < s1.limits.maxConn then
      (Some(spare), s1.(conns := s1.conns[spare := NEW_CONN], connections := s1.connections + [spare]))
    else (conn, s1)
  }

  function Reuse<I, C>(s: Sched<I, C>, c: C): Sched<I, C>
  {
    s.(conns := s.conns[c := Fields(s, c).(readEnable := false, state := Ready)], available := s.available + [c])
  }

  /** Server::connectionClosed with the pool's: forgets the connection, and its intercept if it has one. */
  function ConnectionClosed<I, C>(s: Sched<I, C>, c: C): (t: Sched<I, C>)
    ensures t.limits == s.limits
  {
    var id := Fields(s, c).requestId;
    s.(mapped := s.mapped - {id},
       history := if id in s.mapped then s.history.(failed := s.history.failed + {s.mapped[id].0}) else s.history,
       available := Without(s.available, c),
       connections := Without(s.connections, c),
       conns := s.conns - {c})
  }

  // ---- RequestQueue -------------------------------------------------------------------------------------

  predicate QueueFull<I, C>(s: Sched<I, C>) {
    |s.queue| >= s.limits.queueSize
  }

  /** A full queue drops the intercept without a word. */
  function AddToQueue<I, C>(s: Sched<I, C>, i: I): Sched<I, C> {
    if QueueFull(s) then s.(history := s.history.(dropped := s.history.dropped + {i}))
    else s.(queue := s.queue + [i])
  }

  // ---- Server -------------------------------------------------------------------------------------------

  function Initiate<I, C>(s: Sched<I, C>, i: I, c: C): Sched<I, C>
  {
    var id := s.issued % ID_SPACE;
    s.(issued := s.issued + 1,
       ids := s.ids[i := id],
       mapped := s.mapped[id := (i, c)],
       conns := s.conns[c := Fields(s, c).(requestId := id).Start()],
       history := s.history.(started := s.history.started + [i]))
  }

  function Connect<I, C>(s: Sched<I, C>, i: I, spare: C): (t: Sched<I, C>)
    ensures t.limits == s.limits
  {
    var (conn, s1) := GetAvailable(s, spare);
    if conn.Some? then Initiate(s1, i, conn.value) else AddToQueue(s1, i)
  }

  /** The part of removeIntercept before the queue is looked at. */
  function Release<I, C>(s: Sched<I, C>, id: nat): (t: Sched<I, C>)
    requires id in s.mapped
    ensures t.limits == s.limits
  {
    var (i, c) := s.mapped[id];
    var k := Fields(s, c).ReleaseFCGIClient().(requestId := 0);
    var s1 := s.(mapped := s.mapped - {id}, conns := s.conns[c := k], history := s.history.(finished := s.history.finished + {i}));
    if s.limits.maxRequests > k.reqCount then Reuse(s1, c)
    else ConnectionClosed(s1.(conns := s1.conns[c := k.(state := Closed)]), c)
  }

  function PopAndConnect<I, C>(s: Sched<I, C>, spare: C): (t: Sched<I, C>)
    ensures t.limits == s.limits
  {
    if s.queue == [] then s else Connect(s.(queue := s.queue[1..]), s.queue[0], spare)
  }

  function RemoveIntercept<I, C>(s: Sched<I, C>, id: nat, spare: C): (t: Sched<I, C>)
    ensures t.limits == s.limits
  {
    if id in s.mapped then PopAndConnect(Release(s, id), spare) else s
  }

  function ReConnect<I, C>(s: Sched<I, C>, id: nat, spare: C): (t: Sched<I, C>)
    ensures t.limits == s.limits
  {
    if id in s.mapped then Connect(s.(mapped := s.mapped - {id}), s.mapped[id].0, spare) else s
  }

  // ---- Events -------------------------------------------------------------------------------------------

  /** `spare` is the connection object made if the event makes one. */
  datatype Event<I, C> =
    | Submit(i: I, spare: C)
    | NetConnect(c: C)
    | ConnectFailed(c: C, spare: C)
    | RequestWritten(id: nat)
    | ResponseDone(c: C, spare: C)
    | Abort(id: nat, spare: C)
    | Eos(c: C, spare: C)
    | NetError(c: C)

  /** What the environment may do: new intercepts, one connect answer per connection, network events on
      established connections only, and fresh memory for new objects. */
  predicate Enabled<I, C>(s: Sched<I, C>, e: Event<I, C>) {
    match e
    case Submit(i, spare) => i !in s.history.submitted && spare !in s.conns
    case NetConnect(c) => c in s.conns && s.conns[c].connecting
    case ConnectFailed(c, spare) => c in s.conns && s.conns[c].connecting && spare !in s.conns
    case RequestWritten(id) => id in s.mapped
    case ResponseDone(c, spare) => c in s.conns && !s.conns[c].connecting && s.conns[c].requestId in s.mapped && spare !in s.conns
    case Abort(_, spare) => spare !in s.conns
    case Eos(c, spare) => c in s.conns && !s.conns[c].connecting && spare !in s.conns
    case NetError(c) => c in s.conns && !s.conns[c].connecting
  }

  function Submitted<I, C>(s: Sched<I, C>, i: I): Sched<I, C> {
    s.(history := s.history.(submitted := s.history.submitted + {i}))
  }

  /** Was `i`, just submitted, given a connection or a place in the queue? */
  function Accept<I, C>(s: Sched<I, C>, i: I): Sched<I, C> {
    if i in s.history.dropped then s else s.(history := s.history.(accepted := s.history.accepted + [i]))
  }

  function SetState<I, C>(s: Sched<I, C>, c: C, state: ConnState): Sched<I, C> {
    s.(conns := s.conns[c := Fields(s, c).(state := state)])
  }

  function Step<I, C>(s: Sched<I, C>, e: Event<I, C>): Sched<I, C> {
    match e
    case Submit(i, spare) => Accept(Connect(Submitted(s, i), i, spare), i)
    case NetConnect(c) =>
      var k := Fields(s, c).(state := Ready, connecting := false);
      s.(conns := s.conns[c := if k.requestId in s.mapped then k.CreateFCGIClient() else k])
    case ConnectFailed(c, spare) =>
      ConnectionClosed(SetState(ReConnect(s, Fields(s, c).requestId, spare), c, Closed), c)
    case RequestWritten(id) =>
      if id in s.mapped then s.(conns := s.conns[s.mapped[id].1 := Fields(s, s.mapped[id].1).(readEnable := true)]) else s
    case ResponseDone(c, spare) =>
      RemoveIntercept(SetState(s, c, Complete), Fields(s, c).requestId, spare)
    case Abort(id, spare) =>
      RemoveIntercept(s, id, spare)
    case Eos(c, spare) =>
      var s1 := if !Fields(s, c).readEnable then ReConnect(s, Fields(s, c).requestId, spare) else s;
      ConnectionClosed(SetState(s1, c, Closed), c)
    case NetError(c) =>
      var s1 := if Fields(s, c).requestId in s.mapped then SetState(s, c, Closed) else s;
      ConnectionClosed(s1, c)
  }

  /** Runs from the initial state. */
  function Run<I, C>(s: Sched<I, C>, es: seq<Event<I, C>>): Sched<I, C>
    decreases |es|
  {
    if es == [] then s else Run(Step(s, es[0]), es[1..])
  }

  /** Every event of the run is one the environment may produce when it comes, and comes before the 32-bit
      id counter wraps. */
  predicate Possible<I, C>(s: Sched<I, C>, es: seq<Event<I, C>>)
    decreases |es|
  {
    es == [] || (s.issued < ID_SPACE && Enabled(s, es[0]) && Possible(Step(s, es[0]), es[1..]))
  }
}
