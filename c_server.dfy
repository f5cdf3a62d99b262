/**
 * The Linux Modbus TCP server's connection table: the listening socket and
 * a bounded array of connection descriptors whose first `n_connections_active`
 * slots are in use.  Library calls (accept, receive, reply, close) are
 * parameters and results.
 */
module CServer {
  import opened Wrappers
  import opened Tables

  /** `server_result_t`. */
  datatype ServerResult = ServerResult(isClosed: bool, newConnectionFd: int)

  /** `SERVER_RESULT_ZERO`: nothing closed, no new connection. */
  const ResultZero: ServerResult := ServerResult(false, -1)

  /** How `modbus_receive` ended: an error (and whether `errno` was `ECONNRESET`) or a byte count. */
  datatype Receive = ReceiveError(connReset: bool) | Received(count: nat)

  /** `server_close_fd` on the table's contents: the first copy of `fd` is swap-removed. */
  function CloseFdOn(active: seq<int>, fd: int): (r: seq<int>)
    ensures fd in active ==> |r| == |active| - 1 && multiset(r) == multiset(active) - multiset{fd}
    ensures fd !in active ==> r == active
  {
    if fd in active then
      SwapRemoveMultiset(active, IndexOf(active, fd));
      SwapRemove(active, IndexOf(active, fd))
    else active
  }

  /** What `server_handle` reports and the table it leaves. */
  datatype Handled = Handled(result: ServerResult, active: seq<int>)

  /**
   * `server_handle` on the table's contents, with capacity `cap` and
   * listening socket `socket`: only the socket adds a connection, and only
   * a connection can be reported closed or leave the table.
   */
  function HandleOn(active: seq<int>, cap: nat, socket: int, fd: int, accepted: int,
                    setSocketOk: bool, receive: Receive, replyOk: bool): (h: Handled)
    ensures fd == socket ==> !h.result.isClosed
    ensures fd == socket && h.result.newConnectionFd != -1 ==>
      accepted >= 0 && |active| < cap && h.result.newConnectionFd == accepted && h.active == active + [accepted]
    ensures fd == socket && h.result.newConnectionFd == -1 ==> h.active == active
    ensures fd != socket ==> h.result.newConnectionFd == -1 && (h.active == active || h.active == CloseFdOn(active, fd))
    ensures h.result.isClosed <==> fd != socket && setSocketOk && receive.ReceiveError?
  {
    if fd == socket then
      if accepted < 0 || |active| >= cap then Handled(ResultZero, active)
      else Handled(ServerResult(false, accepted), active + [accepted])
    else if !setSocketOk then Handled(ResultZero, active)
    else if receive.ReceiveError? then
      Handled(ServerResult(true, -1), if receive.connReset then active else CloseFdOn(active, fd))
    else if receive.count == 0 || replyOk then Handled(ResultZero, active)
    else Handled(ResultZero, CloseFdOn(active, fd))
  }

  class Server {
    const socketFd: int
    const nConnectionsMax: nat
    const connectionFds: array<int>
    var nConnectionsActive: nat

    ghost predicate Valid()
      reads this
    {
      connectionFds.Length == nConnectionsMax && nConnectionsActive <= nConnectionsMax
    }

    /** The descriptors of the active connections. */
    ghost function Active(): seq<int>
      requires Valid()
      reads this, connectionFds
    {
      connectionFds[..nConnectionsActive]
    }

    constructor Empty(socketFd: int, nConnections: nat)
      ensures Valid() && fresh(connectionFds)
      ensures this.socketFd == socketFd && nConnectionsMax == nConnections
      ensures nConnectionsActive == 0 && Active() == []
    {
      this.socketFd := socketFd;
      nConnectionsMax := nConnections;
      connectionFds := new int[nConnections];
      nConnectionsActive := 0;
    }

    /**
     * `server_close_fd`: when `fd` is active it is closed (`closed`) and the
     * last active entry moves into its slot; otherwise nothing changes.
     */
    method CloseFd(fd: int) returns (found: bool, closed: Option<int>)
      requires Valid()
      modifies this, connectionFds
      ensures Valid()
      ensures found <==> fd in old(Active())
      ensures found ==> closed == Some(fd) && Active() == SwapRemove(old(Active()), IndexOf(old(Active()), fd))
      ensures !found ==> closed.None? && Active() == old(Active()) && nConnectionsActive == old(nConnectionsActive)
      ensures found ==> multiset(Active()) == multiset(old(Active())) - multiset{fd}
      ensures Active() == CloseFdOn(old(Active()), fd)
    {
      var i := Find(fd);
      if i == nConnectionsActive {
        return false, None;
      }
      RemoveAt(i);
      return true, Some(fd);
    }

    /** The search loop of `server_close_fd`: the first active slot holding `fd`, or `n_connections_active`. */
    method Find(fd: int) returns (i: nat)
      requires Valid()
      ensures i <= nConnectionsActive
      ensures i == nConnectionsActive <==> fd !in Active()
      ensures i < nConnectionsActive ==> fd in Active() && i == IndexOf(Active(), fd)
    {
      i := 0;
      while i < nConnectionsActive && connectionFds[i] != fd
        invariant i <= nConnectionsActive
        invariant fd !in connectionFds[..i]
      {
        i := i + 1;
      }
      if i == nConnectionsActive {
        assert connectionFds[..i] == Active();
      } else {
        assert Active()[..i] == connectionFds[..i];
        assert Active()[i] == fd;
        IndexOfFirst(Active(), fd, i);
      }
    }

    /** The removal of `server_close_fd`: the last active entry moves into slot `i`. */
    method RemoveAt(i: nat)
      requires Valid() && i < nConnectionsActive
      modifies this, connectionFds
      ensures Valid() && nConnectionsActive == old(nConnectionsActive) - 1
      ensures Active() == SwapRemove(old(Active()), i)
      ensures multiset(Active()) == multiset(old(Active())) - multiset{old(Active())[i]}
    {
      ghost var before := Active();
      ghost var a := connectionFds[..];
      var n := nConnectionsActive - 1;
      var last := connectionFds[n];
      assert last == before[n];
      connectionFds[i] := last;
      assert connectionFds[..] == a[i := last];
      nConnectionsActive := n;
      ghost var u := a[i := last];
      ghost var w := before[i := last];
      assert Active() == u[..n];
      assert forall j :: 0 <= j < n ==> u[j] == w[j];
      SwapRemoveMultiset(before, i);
    }

    /**
     * `server_handle`.  On the listening socket a successful `accept` below
     * capacity stores the descriptor in slot `n_connections_active` and
     * reports it; at capacity it returns -1 and the descriptor is neither
     * stored nor closed.  On a connection: a receive error sets `is_closed`,
     * and unless it is `ECONNRESET` also removes the descriptor and returns
     * -1; a failed reply removes the descriptor but leaves `is_closed` false.
     */
    method Handle(fd: int, accepted: int, setSocketOk: bool, receive: Receive, replyOk: bool)
      returns (status: int, result: ServerResult, closed: Option<int>)
      requires Valid()
      modifies this, connectionFds
      ensures Valid()
      ensures fd == socketFd ==> closed.None? && result.isClosed == false
      ensures fd == socketFd && accepted < 0 ==>
        status == -1 && result == ResultZero && Active() == old(Active())
      ensures fd == socketFd && accepted >= 0 && old(nConnectionsActive) >= nConnectionsMax ==>
        status == -1 && result == ResultZero && Active() == old(Active())
      ensures fd == socketFd && accepted >= 0 && old(nConnectionsActive) < nConnectionsMax ==>
        status == 0 && result == ServerResult(false, accepted) && Active() == old(Active()) + [accepted]
      ensures fd != socketFd ==> result.newConnectionFd == -1
      ensures fd != socketFd && !setSocketOk ==>
        status == -1 && result == ResultZero && closed.None? && Active() == old(Active())
      ensures fd != socketFd && setSocketOk && receive == ReceiveError(true) ==>
        status == 0 && result.isClosed && closed.None? && Active() == old(Active())
      ensures fd != socketFd && setSocketOk && receive == ReceiveError(false) ==>
        && status == -1 && result.isClosed
        && (fd in old(Active()) ==> closed == Some(fd) && multiset(Active()) == multiset(old(Active())) - multiset{fd})
        && (fd !in old(Active()) ==> closed.None? && Active() == old(Active()))
      ensures fd != socketFd && setSocketOk && receive == Received(0) ==>
        status == 0 && result == ResultZero && closed.None? && Active() == old(Active())
      ensures fd != socketFd && setSocketOk && receive.Received? && receive.count > 0 && replyOk ==>
        status == 0 && result == ResultZero && closed.None? && Active() == old(Active())
      ensures fd != socketFd && setSocketOk && receive.Received? && receive.count > 0 && !replyOk ==>
        && status == -1 && result == ResultZero
        && (fd in old(Active()) ==> closed == Some(fd) && multiset(Active()) == multiset(old(Active())) - multiset{fd})
        && (fd !in old(Active()) ==> closed.None? && Active() == old(Active()))
      ensures Handled(result, Active())
           == HandleOn(old(Active()), nConnectionsMax, socketFd, fd, accepted, setSocketOk, receive, replyOk)
    {
      result := ResultZero;
      closed := None;
      if fd == socketFd {
        if accepted < 0 {
          return -1, result, closed;
        }
        if nConnectionsActive >= nConnectionsMax {
          return -1, result, closed;
        }
        var i := nConnectionsActive;
        nConnectionsActive := nConnectionsActive + 1;
        connectionFds[i] := accepted;
        assert Active() == old(Active()) + [accepted];
        result := result.(newConnectionFd := accepted);
        return 0, result, closed;
      }
      if !setSocketOk {
        return -1, result, closed;
      }
      if receive.ReceiveError? {
        result := result.(isClosed := true);
        if receive.connReset {
          return 0, result, closed;
        }
        var _, c := CloseFd(fd);
        return -1, result, c;
      }
      if receive.count == 0 {
        return 0, result, closed;
      }
      if !replyOk {
        var _, c := CloseFd(fd);
        return -1, result, c;
      }
      return 0, result, closed;
    }

    /**
     * `server_handle` with the connection table and `is_closed` kept in
     * step: every path that drops a connection reports it closed, and a
     * connection reset drops it as well.
     */
    method HandleCorrected(fd: int, accepted: int, setSocketOk: bool, receive: Receive, replyOk: bool)
      returns (status: int, result: ServerResult, closed: Option<int>)
      requires Valid()
      modifies this, connectionFds
      ensures Valid()
      ensures fd == socketFd ==> closed.None? && !result.isClosed
      ensures fd == socketFd && accepted >= 0 && old(nConnectionsActive) < nConnectionsMax ==>
        status == 0 && result == ServerResult(false, accepted) && Active() == old(Active()) + [accepted]
      ensures fd == socketFd && !(accepted >= 0 && old(nConnectionsActive) < nConnectionsMax) ==>
        status == -1 && result == ResultZero && Active() == old(Active())
      ensures fd != socketFd ==> result.newConnectionFd == -1 && (result.isClosed <==> closed.Some?)
      ensures fd != socketFd && closed.Some? ==>
        && closed == Some(fd) && fd in old(Active())
        && multiset(Active()) == multiset(old(Active())) - multiset{fd}
      ensures fd != socketFd && closed.None? ==> Active() == old(Active())
      ensures fd != socketFd && setSocketOk && fd in old(Active()) &&
              (receive.ReceiveError? || (receive.count > 0 && !replyOk)) ==>
        closed == Some(fd)
    {
      result := ResultZero;
      closed := None;
      if fd == socketFd {
        if accepted < 0 || nConnectionsActive >= nConnectionsMax {
          return -1, result, closed;
        }
        var i := nConnectionsActive;
        nConnectionsActive := nConnectionsActive + 1;
        connectionFds[i] := accepted;
        assert Active() == old(Active()) + [accepted];
        result := result.(newConnectionFd := accepted);
        return 0, result, closed;
      }
      if !setSocketOk {
        return -1, result, closed;
      }
      if receive.Received? && receive.count == 0 {
        return 0, result, closed;
      }
      if receive.Received? && replyOk {
        return 0, result, closed;
      }
      var found, c := CloseFd(fd);
      result := result.(isClosed := found);
      status := if receive == ReceiveError(true) then 0 else -1;
      return status, result, c;
    }

    /** `server_deinit`: every active connection is closed in table order, then the socket. */
    method Deinit() returns (closed: seq<int>)
      requires Valid()
      ensures closed == Active() + [socketFd]
    {
      closed := [];
      for i := 0 to nConnectionsActive
        invariant closed == connectionFds[..i]
      {
        closed := closed + [connectionFds[i]];
      }
      closed := closed + [socketFd];
    }
  }

  /**
   * `server_init`: a context and a listening socket, or -1.  On success the
   * table is empty with room for `n_connections` descriptors.
   */
  method Init(contextOk: bool, listenFd: int, nConnections: nat)
    returns (status: int, server: Option<Server>)
    ensures !contextOk || listenFd < 0 ==> status == -1 && server.None?
    ensures contextOk && listenFd >= 0 ==>
      && status == 0 && server.Some? && fresh(server.value)
      && server.value.Valid() && server.value.socketFd == listenFd
      && server.value.nConnectionsActive == 0 && server.value.nConnectionsMax == nConnections
  {
    if !contextOk || listenFd < 0 {
      return -1, None;
    }
    var s := new Server.Empty(listenFd, nConnections);
    return 0, Some(s);
  }

  /**
   * As written, the result and the table disagree: a failed reply drops the
   * connection without reporting it closed, and a connection reset reports
   * it closed while it stays in the table.
   */
  method AsWrittenDesyncs() returns (replyFailure: ServerResult, replyFailureDropped: bool,
                                     reset: ServerResult, resetKept: bool)
    ensures !replyFailure.isClosed && replyFailureDropped
    ensures reset.isClosed && resetKept
  {
    var server := new Server.Empty(3, 5);
    var _, r, _ := server.Handle(3, 4, true, Received(0), true);
    assert server.Active() == [4];
    var _, r1, c1 := server.Handle(4, -1, true, Received(12), false);
    replyFailure, replyFailureDropped := r1, c1 == Some(4);
    var _, _, _ := server.Handle(3, 5, true, Received(0), true);
    assert server.Active() == [5];
    var _, r2, _ := server.Handle(5, -1, true, ReceiveError(true), true);
    reset, resetKept := r2, server.nConnectionsActive == 1 && server.connectionFds[0] == 5;
  }
}
