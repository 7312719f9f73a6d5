/** The objects of server.cc, connection_pool.cc, request_queue.cc and server_connection.cc for one thread,
    method by method, against the state machine of SchedulerSpec. */
module Scheduler {
  import opened Wrappers
  import opened SchedulerSpec
  import opened SchedulerInvariants

  class ServerIntercept {
    var requestId: nat

    constructor ()
    {
      requestId := 0;
    }
  }

  class ServerConnection {
    const maxRequests: nat
    var state: ConnState
    var requestId: nat
    var reqCount: nat
    /** writeio.readEnable. */
    var readEnable: bool
    /** NET_CONNECT or NET_CONNECT_FAILED is still to come. */
    ghost var connecting: bool

    constructor (maxRequests: nat)
      ensures Fields() == NEW_CONN && this.maxRequests == maxRequests
    {
      this.maxRequests := maxRequests;
      state, requestId, reqCount, readEnable, connecting := Initiated, 0, 0, false, false;
    }

    /** Stands for memory that is not used. */
    ghost constructor Unused()
    {
      maxRequests := 0;
    }

    ghost function Fields(): Conn
      reads this
    {
      Conn(state, requestId, reqCount, readEnable, connecting)
    }

    method CreateFCGIClient()
      modifies this
      ensures Fields() == old(Fields()).CreateFCGIClient()
    {
      if state == Ready || state == Complete {
        state := InUse;
        reqCount := reqCount + 1;
      }
    }

    method ReleaseFCGIClient()
      modifies this
      ensures Fields() == old(Fields()).ReleaseFCGIClient()
    {
      if state == Complete {
        state := Ready;
      }
    }

    method Start()
      modifies this
      ensures Fields() == old(Fields()).Start()
    {
      if state != Ready {
        CreateConnection();
      } else {
        CreateFCGIClient();
      }
    }

    /** TSNetConnect answers later. */
    method CreateConnection()
      modifies this
      ensures Fields() == old(Fields()).(connecting := true)
    {
      connecting := true;
    }
  }

  class RequestQueue {
    const maxQueueSize: nat
    var pending: seq<ServerIntercept>

    constructor (maxQueueSize: nat)
      ensures this.maxQueueSize == maxQueueSize && pending == []
    {
      this.maxQueueSize := maxQueueSize;
      pending := [];
    }

    predicate IsQueueFull()
      reads this
    {
      |pending| >= maxQueueSize
    }

    method AddToQueue(intercept: ServerIntercept)
      modifies this
      ensures |old(pending)| < maxQueueSize ==> pending == old(pending) + [intercept]
      ensures |old(pending)| >= maxQueueSize ==> pending == old(pending)
    {
      if !IsQueueFull() {
        pending := pending + [intercept];
      }
    }

    method PopFromQueue() returns (intercept: ServerIntercept?)
      modifies this
      ensures intercept == null <==> old(pending) == []
      ensures intercept == null ==> pending == old(pending)
      ensures intercept != null ==> [intercept] + pending == old(pending)
    {
      intercept := null;
      if pending != [] {
        intercept := pending[0];
        pending := pending[1..];
      }
    }
  }

  class ConnectionPool {
    const maxConn: nat
    const maxRequests: nat
    var connections: seq<ServerConnection>
    var available: seq<ServerConnection>

    constructor (maxConn: nat, maxRequests: nat)
      ensures this.maxConn == maxConn && this.maxRequests == maxRequests && connections == available == []
    {
      this.maxConn, this.maxRequests := maxConn, maxRequests;
      connections, available := [], [];
    }

    /** `spare` is the new connection if one is made. */
    method GetAvailableConnection() returns (conn: ServerConnection?, ghost spare: ServerConnection)
      modifies this, available
      ensures fresh(spare)
      ensures var first := |old(connections)| >= maxConn && old(available) != [];
              && available == (if first then old(available)[1..] else old(available))
              && (first ==> old(available)[0].Fields() == old(available[0].Fields()).(state := Ready))
              && forall c :: c in old(available) && !(first && c == old(available)[0]) ==> c.Fields() == old(c.Fields())
      ensures if |old(connections)| < maxConn then conn == spare && spare.Fields() == NEW_CONN && spare.maxRequests == maxRequests && connections == old(connections) + [spare]
              else connections == old(connections) && conn == if old(available) != [] then old(available)[0] else null
    {
      conn := null;
      spare := new ServerConnection.Unused();
      if available != [] && |connections| >= maxConn {
        conn := available[0];
        available := available[1..];
        conn.state := Ready;
      }
      if |connections| < maxConn {
        var c := new ServerConnection(maxRequests);
        AddConnection(c);
        conn, spare := c, c;
      }
    }

    method AddConnection(connection: ServerConnection)
      modifies this`connections
      ensures connections == old(connections) + [connection]
    {
      connections := connections + [connection];
    }

    method ReuseConnection(connection: ServerConnection)
      modifies this`available, connection
      ensures connection.Fields() == old(connection.Fields()).(readEnable := false, state := Ready)
      ensures available == old(available) + [connection]
    {
      connection.readEnable := false;
      connection.state := Ready;
      available := available + [connection];
    }

    method ConnectionClosed(connection: ServerConnection)
      modifies this
      ensures available == Without(old(available), connection)
      ensures connections == Without(old(connections), connection)
    {
      available := Without(available, connection);
      connections := Without(connections, connection);
    }
  }

  class Server {
    /** UniqueRequesID::_id. */
    var nextId: nat
    /** _intercept_list. */
    var interceptList: map<nat, (ServerIntercept, ServerConnection)>
    const pool: ConnectionPool
    const queue: RequestQueue
    /** The state of the specification that the objects are in. */
    ghost var abs: Sched<ServerIntercept, ServerConnection>

    constructor (maxConn: nat, maxRequests: nat, maxQueueSize: nat)
      ensures Valid() && abs == Init(Limits(maxConn, maxRequests, maxQueueSize))
      ensures fresh(pool) && fresh(queue)
    {
      pool := new ConnectionPool(maxConn, maxRequests);
      queue := new RequestQueue(maxQueueSize);
      nextId, interceptList := 1, map[];
      abs := Init(Limits(maxConn, maxRequests, maxQueueSize));
    }

    /** Every object is as `abs` says. */
    ghost predicate Valid()
      reads this, pool, queue, abs.conns.Keys, abs.ids.Keys
    {
      && abs.limits == Limits(pool.maxConn, pool.maxRequests, queue.maxQueueSize)
      && nextId == abs.issued % ID_SPACE
      && interceptList == abs.mapped
      && pool.connections == abs.connections && pool.available == abs.available
      && queue.pending == abs.queue
      && (forall c :: c in abs.conns ==> c.Fields() == abs.conns[c] && c.maxRequests == abs.limits.maxRequests)
      && (forall i :: i in abs.ids ==> i.requestId == abs.ids[i])
    }

    /** The objects an event can change, besides the intercept it brings. */
    ghost function Objects(): set<object>
      reads this
    {
      {this, pool, queue} + abs.conns.Keys + abs.ids.Keys + Elements(abs.queue)
    }

    /** UniqueRequesID::getNext: the counter is 32 bits wide. */
    method GetNext() returns (id: nat)
      requires nextId == abs.issued % ID_SPACE
      modifies this`nextId
      ensures id == old(nextId) && nextId == (abs.issued + 1) % ID_SPACE
    {
      id := nextId;
      nextId := if nextId + 1 == ID_SPACE then 0 else nextId + 1;
    }

    /** initiateBackendConnection. */
    method InitiateBackendConnection(intercept: ServerIntercept, conn: ServerConnection)
      requires Valid() && conn in abs.conns
      modifies this, intercept, conn
      ensures Valid()
      ensures abs == Initiate(old(abs), intercept, conn)
    {
      var requestId := GetNext();
      intercept.requestId := requestId;
      conn.requestId := requestId;
      interceptList := interceptList[requestId := (intercept, conn)];
      conn.Start();
      abs := Initiate(abs, intercept, conn);
    }

    /** getAvailableConnection, as the server sees it. */
    method TakeConnection() returns (conn: ServerConnection?, ghost spare: ServerConnection)
      requires Valid() && forall c :: c in abs.available ==> c in abs.conns
      modifies this`abs, pool, abs.available
      ensures Valid() && fresh(spare)
      ensures var (c, t) := GetAvailable(old(abs), spare);
              abs == t && (conn == null <==> c == None) && (conn != null ==> c == Some(conn) && conn in abs.conns)
    {
      ghost var s := abs;
      conn, spare := pool.GetAvailableConnection();
      abs := GetAvailable(s, spare).1;
    }

    /** connect. A free connection is in the list of live ones. */
    method Connect(intercept: ServerIntercept) returns (ghost spare: ServerConnection)
      requires Valid() && forall c :: c in abs.available ==> c in abs.conns
      modifies this, pool, queue, abs.available, intercept
      ensures Valid() && fresh(spare)
      ensures abs == SchedulerSpec.Connect(old(abs), intercept, spare)
    {
      var conn: ServerConnection?;
      conn, spare := TakeConnection();
      if conn != null {
        InitiateBackendConnection(intercept, conn);
        return;
      }
      queue.AddToQueue(intercept);
      abs := AddToQueue(abs, intercept);
    }

    method SetConnectionState(conn: ServerConnection, state: ConnState)
      requires Valid() && conn in abs.conns
      modifies this`abs, conn
      ensures Valid() && abs == SetState(old(abs), conn, state)
    {
      conn.state := state;
      abs := SetState(abs, conn, state);
    }

    /** connectionClosed. */
    method ConnectionClosed(conn: ServerConnection)
      requires Valid() && conn in abs.conns
      modifies this, pool
      ensures Valid() && abs == SchedulerSpec.ConnectionClosed(old(abs), conn)
    {
      interceptList := interceptList - {conn.requestId};
      pool.ConnectionClosed(conn);
      abs := SchedulerSpec.ConnectionClosed(abs, conn);
    }

    /** reuseConnection, as the server sees it. */
    method ReuseConnection(conn: ServerConnection)
      requires Valid() && conn in abs.conns
      modifies this`abs, pool, conn
      ensures Valid() && abs == Reuse(old(abs), conn)
    {
      pool.ReuseConnection(conn);
      abs := Reuse(abs, conn);
    }

    /** removeIntercept, up to the point where the queue is looked at. */
    method ReleaseIntercept(id: nat)
      requires Valid() && id in interceptList && interceptList[id].1 in abs.conns
      modifies this, pool, interceptList[id].1
      ensures Valid() && abs == Release(old(abs), id)
    {
      hide SchedulerSpec.ConnectionClosed, Reuse;
      var (intercept, conn) := interceptList[id];
      interceptList := interceptList - {id};
      conn.ReleaseFCGIClient();
      conn.requestId := 0;
      abs := abs.(mapped := interceptList, conns := abs.conns[conn := conn.Fields()],
                  history := abs.history.(finished := abs.history.finished + {intercept}));
      if conn.maxRequests > conn.reqCount {
        ReuseConnection(conn);
      } else {
        SetConnectionState(conn, Closed);
        ConnectionClosed(conn);
      }
    }

    /** removeIntercept: frees the connection, then serves the first in the queue. */
    method RemoveIntercept(id: nat) returns (ghost spare: ServerConnection)
      requires Valid() && Inv(abs)
      modifies Objects()
      ensures Valid() && fresh(spare)
      ensures abs == SchedulerSpec.RemoveIntercept(old(abs), id, spare)
    {
      hide Inv, Release;
      spare := new ServerConnection.Unused();
      LeadsToLive(abs);
      if id in interceptList {
        ReleaseKeeps(abs, id);
        ReleaseIntercept(id);
        LeadsToLive(abs);
        spare := ServeNext();
      }
    }

    /** The first in the queue, if any, is connected. */
    method ServeNext() returns (ghost spare: ServerConnection)
      requires Valid() && forall c :: c in abs.available ==> c in abs.conns
      modifies this, pool, queue, abs.available, queue.pending
      ensures Valid() && fresh(spare)
      ensures abs == PopAndConnect(old(abs), spare)
    {
      hide SchedulerSpec.Connect;
      spare := new ServerConnection.Unused();
      var intercept := queue.PopFromQueue();
      if intercept != null {
        assert intercept == old(queue.pending)[0];
        abs := abs.(queue := abs.queue[1..]);
        spare := Connect(intercept);
      }
    }

    /** reConnect: the intercept leaves the map and is connected anew. */
    method ReConnect(id: nat) returns (ghost spare: ServerConnection)
      requires Valid() && Inv(abs)
      modifies Objects()
      ensures Valid() && fresh(spare)
      ensures abs == SchedulerSpec.ReConnect(old(abs), id, spare)
    {
      hide Inv, SchedulerSpec.Connect;
      spare := new ServerConnection.Unused();
      LeadsToLive(abs);
      if id in interceptList {
        var intercept := interceptList[id].0;
        interceptList := interceptList - {id};
        abs := abs.(mapped := interceptList);
        spare := Connect(intercept);
      }
    }

    // ---- Events ---------------------------------------------------------------------------------------

    /** The cache lookup hook: a new intercept. */
    method OnSubmit(intercept: ServerIntercept) returns (ghost spare: ServerConnection)
      requires Valid() && Inv(abs) && abs.issued < ID_SPACE && intercept !in abs.history.submitted
      modifies Objects(), intercept
      ensures Valid() && Inv(abs)
      ensures fresh(spare) && abs == Step(old(abs), Submit(intercept, spare))
    {
      hide Inv, SchedulerSpec.Connect;
      ghost var s := abs;
      LeadsToLive(s);
      abs := Submitted(abs, intercept);
      spare := Connect(intercept);
      abs := Accept(abs, intercept);
      StepKeeps(s, Submit(intercept, spare));
    }

    /** TS_EVENT_NET_CONNECT. */
    method OnNetConnect(conn: ServerConnection)
      requires Valid() && Inv(abs) && abs.issued < ID_SPACE && Enabled(abs, NetConnect(conn))
      modifies Objects()
      ensures Valid() && Inv(abs)
      ensures abs == Step(old(abs), NetConnect(conn))
    {
      hide Inv;
      StepKeeps(abs, NetConnect(conn));
      conn.state := Ready;
      conn.connecting := false;
      if conn.requestId in interceptList {
        conn.CreateFCGIClient();
      }
      abs := Step(abs, NetConnect(conn));
    }

    /** TS_EVENT_NET_CONNECT_FAILED. */
    method OnConnectFailed(conn: ServerConnection) returns (ghost spare: ServerConnection)
      requires Valid() && Inv(abs) && abs.issued < ID_SPACE && conn in abs.conns && abs.conns[conn].connecting
      modifies Objects()
      ensures Valid() && Inv(abs)
      ensures fresh(spare) && abs == Step(old(abs), ConnectFailed(conn, spare))
    {
      hide Inv, SchedulerSpec.ReConnect, SchedulerSpec.ConnectionClosed;
      ghost var s := abs;
      spare := MoveRequestAndClose(conn);
      StepKeeps(s, ConnectFailed(conn, spare));
    }

    method MoveRequestAndClose(conn: ServerConnection) returns (ghost spare: ServerConnection)
      requires Valid() && Inv(abs) && abs.issued < ID_SPACE && conn in abs.conns
      modifies Objects()
      ensures Valid() && fresh(spare)
      ensures abs == SchedulerSpec.ConnectionClosed(SetState(SchedulerSpec.ReConnect(old(abs), old(abs).conns[conn].requestId, spare), conn, Closed), conn)
    {
      ghost var s := abs;
      spare := ReConnect(conn.requestId);
      ReConnectKeeps(s, s.conns[conn].requestId, spare);
      SetConnectionState(conn, Closed);
      ConnectionClosed(conn);
    }

    /** writeRequestBodyComplete: from now on the response may come. */
    method OnRequestWritten(id: nat)
      requires Valid() && Inv(abs) && abs.issued < ID_SPACE && id in abs.mapped
      modifies Objects()
      ensures Valid() && Inv(abs)
      ensures abs == Step(old(abs), RequestWritten(id))
    {
      hide Inv;
      LeadsToLive(abs);
      StepKeeps(abs, RequestWritten(id));
      var conn := interceptList[id].1;
      conn.readEnable := true;
      abs := Step(abs, RequestWritten(id));
    }

    /** TS_EVENT_VCONN_READ_READY with a terminal record, or TS_EVENT_VCONN_READ_COMPLETE. */
    method OnResponseDone(conn: ServerConnection) returns (ghost spare: ServerConnection)
      requires Valid() && Inv(abs) && abs.issued < ID_SPACE
      requires conn in abs.conns && !abs.conns[conn].connecting && abs.conns[conn].requestId in abs.mapped
      modifies Objects()
      ensures Valid() && Inv(abs)
      ensures fresh(spare) && abs == Step(old(abs), ResponseDone(conn, spare))
    {
      hide Inv, SchedulerSpec.RemoveIntercept;
      ghost var s := abs;
      CompleteKeeps(s, conn);
      SetConnectionState(conn, Complete);
      spare := RemoveIntercept(conn.requestId);
      StepKeeps(s, ResponseDone(conn, spare));
    }

    /** An intercept is destroyed before its response is complete. */
    method OnAbort(id: nat) returns (ghost spare: ServerConnection)
      requires Valid() && Inv(abs) && abs.issued < ID_SPACE
      modifies Objects()
      ensures Valid() && Inv(abs)
      ensures fresh(spare) && abs == Step(old(abs), Abort(id, spare))
    {
      hide Inv, SchedulerSpec.RemoveIntercept;
      ghost var s := abs;
      spare := RemoveIntercept(id);
      StepKeeps(s, Abort(id, spare));
    }

    /** TS_EVENT_VCONN_EOS. */
    method OnEos(conn: ServerConnection) returns (ghost spare: ServerConnection)
      requires Valid() && Inv(abs) && abs.issued < ID_SPACE && conn in abs.conns && !abs.conns[conn].connecting
      modifies Objects()
      ensures Valid() && Inv(abs)
      ensures fresh(spare) && abs == Step(old(abs), Eos(conn, spare))
    {
      hide Inv, SchedulerSpec.ReConnect, SchedulerSpec.ConnectionClosed;
      ghost var s := abs;
      if !conn.readEnable {
        spare := MoveRequestAndClose(conn);
      } else {
        spare := new ServerConnection.Unused();
        SetConnectionState(conn, Closed);
        ConnectionClosed(conn);
      }
      StepKeeps(s, Eos(conn, spare));
    }

    /** TS_EVENT_ERROR. */
    method OnError(conn: ServerConnection)
      requires Valid() && Inv(abs) && abs.issued < ID_SPACE && conn in abs.conns && !abs.conns[conn].connecting
      modifies Objects()
      ensures Valid() && Inv(abs)
      ensures abs == Step(old(abs), NetError(conn))
    {
      hide Inv, SchedulerSpec.ConnectionClosed;
      StepKeeps(abs, NetError(conn));
      if conn.requestId in interceptList {
        SetConnectionState(conn, Closed);
      }
      ConnectionClosed(conn);
    }
  }
}
