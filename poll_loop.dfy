/**
 * The event loop of the Linux Modbus server: a fixed array of poll entries,
 * the listening socket first.  One pass visits every entry, marks closed
 * ones by negating their descriptor and appends new connections; a
 * compaction loop then drops the marked entries in place.  What `poll`
 * reports and what the server's library calls return are inputs.
 */
module PollLoop {
  import opened Wrappers
  import opened Tables
  import opened CServer

  /** `N_CONNECTIONS` and `N_FDS_MAX = 1 + N_CONNECTIONS`. */
  const NConnections: nat := 5
  const NFdsMax: nat := 1 + NConnections

  /**
   * What one entry sees in a pass: `POLLERR | POLLHUP`, `POLLIN`, and the
   * results of the library calls `server_handle` makes for it.
   */
  datatype Event = Event(hangUp: bool, readable: bool, accepted: int,
                         setSocketOk: bool, receive: Receive, replyOk: bool)

  /** The `revents` of an entry appended during the pass: nothing. */
  const Quiet: Event := Event(false, false, -1, true, Received(0), true)

  ghost predicate NoDup(s: seq<int>) {
    forall x :: multiset(s)[x] <= 1
  }

  ghost predicate AllPositive(s: seq<int>) {
    forall j :: 0 <= j < |s| ==> s[j] > 0
  }

  /** The entries the pass has not reached yet are unmarked. */
  ghost predicate PositiveFrom(s: seq<int>, k: nat) {
    forall j :: k <= j < |s| ==> s[j] > 0
  }

  /**
   * The poll entries list the listening socket and every open connection
   * exactly once; marked (negated) entries are not counted.  Descriptors are
   * positive, as marking by negation needs.
   */
  ghost predicate Tracks(entries: seq<int>, socket: int, active: seq<int>) {
    && socket > 0 && AllPositive(active) && NoDup([socket] + active)
    && SameNonNegative(entries, [socket] + active)
  }

  lemma PositiveAfterMark(e: seq<int>, i: nat, v: int)
    requires i < |e| && PositiveFrom(e, i)
    ensures PositiveFrom(e[i := v], i + 1) && PositiveFrom(e, i + 1)
  {
  }

  lemma PositiveAfterAppend(e: seq<int>, k: nat, x: int)
    requires PositiveFrom(e, k) && x > 0
    ensures PositiveFrom(e + [x], k)
  {
  }

  /** Marking an open connection and dropping it from the table keeps them in step. */
  lemma MarkTracks(e: seq<int>, i: nat, socket: int, active: seq<int>, active': seq<int>)
    requires i < |e| && Tracks(e, socket, active) && e[i] > 0 && e[i] != socket
    requires multiset(active') == multiset(active) - multiset{e[i]}
    ensures Tracks(e[i := -e[i]], socket, active')
  {
    var fd, e' := e[i], e[i := -e[i]];
    var t, t' := [socket] + active, [socket] + active';
    MultisetUpdate(e, i, -fd);
    assert multiset(t) == multiset{socket} + multiset(active);
    assert multiset(t') == multiset{socket} + multiset(active');
    assert multiset(t)[fd] >= 1 by {
      assert fd in multiset(e);
    }
    forall x | x >= 0 ensures multiset(e')[x] == multiset(t')[x] {
      assert multiset(e')[x] == multiset(e)[x] - (if x == fd then 1 else 0);
      assert multiset(t')[x] == multiset(t)[x] - (if x == fd then 1 else 0);
    }
    forall x ensures multiset(t')[x] <= 1 {
      assert multiset(t')[x] <= multiset(t)[x];
    }
    forall j | 0 <= j < |active'| ensures active'[j] > 0 {
      assert active'[j] in multiset(active');
      assert active'[j] in active;
    }
  }

  /** Marking a connection whose descriptor left the table keeps the poll set tracking it, and the descriptor is gone. */
  lemma HangUpTracks(e: seq<int>, i: nat, socket: int, active: seq<int>, e': seq<int>, active': seq<int>)
    requires i < |e| && Tracks(e, socket, active) && e[i] > 0 && e[i] != socket
    requires e' == e[i := -e[i]]
    requires e[i] in active ==> multiset(active') == multiset(active) - multiset{e[i]}
    ensures Tracks(e', socket, active') && e[i] !in active'
  {
    var fd := e[i];
    MarkedIsOpen(e, i, socket, active);
    MarkTracks(e, i, socket, active, active');
    assert multiset([socket] + active)[fd] <= 1;
    assert multiset([socket] + active) == multiset{socket} + multiset(active);
  }

  /** The table entry of a non-socket connection marked in the poll set is open. */
  lemma MarkedIsOpen(e: seq<int>, i: nat, socket: int, active: seq<int>)
    requires i < |e| && Tracks(e, socket, active) && e[i] > 0 && e[i] != socket
    ensures e[i] in active
  {
    assert e[i] in e;
    assert multiset(e)[e[i]] >= 1;
    assert multiset([socket] + active) == multiset{socket} + multiset(active);
  }

  /** Appending a new descriptor to both keeps them in step. */
  lemma AppendTracks(e: seq<int>, socket: int, active: seq<int>, fd: int)
    requires Tracks(e, socket, active) && fd > 0 && fd !in [socket] + active
    ensures Tracks(e + [fd], socket, active + [fd])
  {
    assert [socket] + (active + [fd]) == ([socket] + active) + [fd];
  }

  /** With nothing marked the poll set is exactly the socket and the open connections. */
  lemma UnmarkedCount(e: seq<int>, socket: int, active: seq<int>)
    requires Tracks(e, socket, active) && AllPositive(e)
    ensures |e| == 1 + |active|
  {
    assert multiset(e) == multiset([socket] + active) by {
      forall x ensures multiset(e)[x] == multiset([socket] + active)[x] {
        if x < 0 {
          assert x !in e;
          assert x !in [socket] + active;
        }
      }
    }
    assert |multiset(e)| == |e|;
    assert |multiset([socket] + active)| == |[socket] + active|;
  }

  /** The listening socket, kept first, occurs nowhere else. */
  lemma SocketOnlyFirst(e: seq<int>, j: nat, socket: int, active: seq<int>)
    requires Tracks(e, socket, active) && 0 < j < |e| && e[0] == socket
    ensures e[j] != socket
  {
    RepeatedEntry(e, j);
    assert multiset(e)[socket] == multiset([socket] + active)[socket] <= 1;
  }

  /** Compaction keeps the entries in step and leaves none marked. */
  lemma CompactTracks(e: seq<int>, e': seq<int>, socket: int, active: seq<int>)
    requires Tracks(e, socket, active) && SameNonNegative(e', e)
    requires forall j :: 0 <= j < |e'| ==> e'[j] >= 0
    ensures Tracks(e', socket, active) && AllPositive(e')
  {
    var t := [socket] + active;
    SameNonNegativeTrans(e', e, t);
    assert AllPositive(t);
    forall j | 0 <= j < |e'| ensures e'[j] > 0 {
      assert e'[j] in multiset(e');
      assert e'[j] in multiset(t);
    }
  }

  /** The `revents` an entry sees: those `poll` reported, or none for an entry appended during the pass. */
  function EventAt(events: seq<Event>, i: nat): Event {
    if i < |events| then events[i] else Quiet
  }

  /** What a marking pass works on: the poll entries, the server's table, and whether an append ran past the array. */
  datatype PassState = PassState(entries: seq<int>, active: seq<int>, overflowed: bool)

  /**
   * Entry `i` of the marking pass as written, on values: a hang-up marks it
   * and closes it in the table; a readable entry goes to `server_handle`,
   * is marked when `is_closed` is set, and a new connection is appended
   * unless the array is full, which is the overflow.
   */
  function DispatchOn(entries: seq<int>, active: seq<int>, i: nat, ev: Event, socket: int, cap: nat): (r: PassState)
    requires i < |entries| <= NFdsMax
    ensures |entries| <= |r.entries| <= |entries| + 1 && |r.entries| <= NFdsMax
    ensures forall j :: 0 <= j < |entries| && j != i ==> r.entries[j] == entries[j]
    ensures r.entries[i] == entries[i] || r.entries[i] == -entries[i]
    ensures !ev.hangUp && !ev.readable ==> r == PassState(entries, active, false)
    ensures entries[i] != socket ==> |r.entries| == |entries| && !r.overflowed
    ensures r.overflowed <==>
      && ev.readable && entries[i] == socket && ev.accepted >= 0 && |entries| == NFdsMax
      && |if ev.hangUp then CloseFdOn(active, socket) else active| < cap
  {
    var fd := entries[i];
    var closedActive := if ev.hangUp then CloseFdOn(active, fd) else active;
    var marked := if ev.hangUp then entries[i := -fd] else entries;
    if !ev.readable then PassState(marked, closedActive, false)
    else
      var h := HandleOn(closedActive, cap, socket, fd, ev.accepted, ev.setSocketOk, ev.receive, ev.replyOk);
      var e := if h.result.isClosed then marked[i := -fd] else marked;
      if h.result.newConnectionFd == -1 then PassState(e, h.active, false)
      else if |e| == NFdsMax then PassState(e, h.active, true)
      else PassState(e + [h.result.newConnectionFd], h.active, false)
  }

  /**
   * The marking pass as written from entry `i` on: every entry goes
   * through `DispatchOn`, entries appended on the way included, until the
   * end of the poll set or an overflow.  Entries before `i` are left alone,
   * the others are at most marked, and an overflow happens only on a full
   * array.
   */
  function PassFrom(s: PassState, i: nat, events: seq<Event>, socket: int, cap: nat): (r: PassState)
    requires |s.entries| <= NFdsMax && (s.overflowed ==> |s.entries| == NFdsMax)
    ensures |s.entries| <= |r.entries| <= NFdsMax
    ensures s.overflowed ==> r == s
    ensures r.overflowed ==> |r.entries| == NFdsMax
    ensures forall j :: 0 <= j < i && j < |s.entries| ==> r.entries[j] == s.entries[j]
    ensures forall j :: i <= j < |s.entries| ==> r.entries[j] == s.entries[j] || r.entries[j] == -s.entries[j]
    decreases NFdsMax - i
  {
    if s.overflowed || i >= |s.entries| then s
    else PassFrom(DispatchOn(s.entries, s.active, i, EventAt(events, i), socket, cap), i + 1, events, socket, cap)
  }

  /** A pass in which `poll` reports nothing for any entry changes nothing. */
  lemma {:induction false} QuietPassChangesNothing(s: PassState, i: nat, events: seq<Event>, socket: int, cap: nat)
    requires |s.entries| <= NFdsMax && !s.overflowed
    requires forall k :: 0 <= k < |events| ==> !events[k].hangUp && !events[k].readable
    ensures PassFrom(s, i, events, socket, cap) == s
    decreases NFdsMax - i
  {
    if i < |s.entries| {
      QuietPassChangesNothing(s, i + 1, events, socket, cap);
    }
  }

  /**
   * The compaction loop from position `i` on, on values: a marked entry is
   * swap-removed and the same position looked at again, otherwise the scan
   * moves on.
   */
  function Compacted(e: seq<int>, i: nat): (r: seq<int>)
    requires i <= |e|
    ensures i <= |r| <= |e|
    decreases |e| - i
  {
    if i == |e| then e
    else if e[i] < 0 then Compacted(SwapRemove(e, i), i)
    else Compacted(e, i + 1)
  }

  /**
   * Compaction keeps the entries before `i` and every non-negative entry
   * with its multiplicity; it leaves no negative entry when none precedes
   * `i`, and changes nothing when none follows.
   */
  lemma {:induction false} CompactedKeeps(e: seq<int>, i: nat)
    requires i <= |e|
    ensures var r := Compacted(e, i);
      && r[..i] == e[..i] && SameNonNegative(r, e)
      && ((forall j :: 0 <= j < i ==> e[j] >= 0) ==> forall j :: 0 <= j < |r| ==> r[j] >= 0)
      && ((forall j :: i <= j < |e| ==> e[j] >= 0) ==> r == e)
    decreases |e| - i
  {
    if i < |e| {
      if e[i] < 0 {
        var e' := SwapRemove(e, i);
        SwapRemoveNegative(e, i);
        CompactedKeeps(e', i);
        assert e'[..i] == e[..i];
        SameNonNegativeTrans(Compacted(e', i), e', e);
      } else {
        CompactedKeeps(e, i + 1);
        assert Compacted(e, i + 1)[..i] == Compacted(e, i + 1)[..i + 1][..i];
      }
    }
  }

  class PollSet {
    /** `poll_fds`. */
    const fds: array<int>
    /** `n_poll_fds`. */
    var n: nat

    ghost predicate Valid()
      reads this
    {
      fds.Length == NFdsMax && n <= NFdsMax
    }

    ghost function Entries(): seq<int>
      requires Valid()
      reads this, fds
    {
      fds[..n]
    }

    /** The listening socket alone. */
    constructor (socketFd: int)
      ensures Valid() && fresh(fds) && Entries() == [socketFd]
    {
      fds := new int[NFdsMax](_ => 0);
      n := 1;
      new;
      fds[0] := socketFd;
    }

    /** `poll_fd->fd = -fd`: a removal mark when `fd > 0`. */
    method Mark(i: nat, fd: int)
      requires Valid() && i < n
      modifies fds
      ensures Valid() && Entries() == old(Entries())[i := -fd] && fds[i] == -fd
    {
      fds[i] := -fd;
    }

    /**
     * `poll_fds[n_poll_fds++] = fd`, which the source does not bound-check;
     * a write past `N_FDS_MAX` entries is reported as `overflowed` and
     * changes nothing.
     */
    method Append(fd: int) returns (overflowed: bool)
      requires Valid()
      modifies this, fds
      ensures Valid() && (overflowed <==> old(n) == NFdsMax)
      ensures !overflowed ==> Entries() == old(Entries()) + [fd] && fds[..old(n)] == old(fds[..n])
      ensures overflowed ==> Entries() == old(Entries()) && n == old(n)
    {
      if n == NFdsMax {
        return true;
      }
      fds[n] := fd;
      n := n + 1;
      return false;
    }

    /**
     * The compaction `while` loop: a marked entry is replaced by the last
     * one, otherwise `i` advances.  Every remaining entry is non-negative
     * and the non-negative entries are kept with their multiplicities.
     */
    method Compact()
      requires Valid()
      modifies this, fds
      ensures Valid() && n <= old(n)
      ensures forall j :: 0 <= j < n ==> fds[j] >= 0
      ensures SameNonNegative(Entries(), old(Entries()))
      ensures old(n) > 0 && old(fds[0]) >= 0 ==> n > 0 && fds[0] == old(fds[0])
      ensures (forall j :: 0 <= j < old(n) ==> old(fds[j]) >= 0) ==> Entries() == old(Entries())
      ensures Entries() == Compacted(old(Entries()), 0)
    {
      ghost var target := Compacted(old(Entries()), 0);
      var i := 0;
      while i < n
        invariant Valid() && i <= n <= old(n)
        invariant Compacted(Entries(), i) == target
        decreases n - i
      {
        ghost var before := Entries();
        if fds[i] < 0 {
          assert Compacted(before, i) == Compacted(SwapRemove(before, i), i);
          n := n - 1;
          fds[i] := fds[n];
          assert Entries() == SwapRemove(before, i);
        } else {
          assert Compacted(before, i) == Compacted(before, i + 1);
          i := i + 1;
        }
      }
      CompactedKeeps(old(Entries()), 0);
      if old(n) > 0 && old(fds[0]) >= 0 {
        CompactedKeeps(old(Entries()), 1);
      }
    }

    /**
     * One entry of the marking pass, with the server as written: a hang-up
     * marks the entry and closes the descriptor in the table; a readable
     * entry goes to `server_handle`, is marked when `is_closed` is set, and
     * a new connection is appended.
     */
    method Dispatch(server: Server, i: nat, ev: Event) returns (overflowed: bool)
      requires Valid() && server.Valid() && fds != server.connectionFds && i < n
      modifies this, fds, server, server.connectionFds
      ensures Valid() && server.Valid() && old(n) <= n
      ensures !ev.hangUp && !ev.readable ==>
        !overflowed && Entries() == old(Entries()) && server.Active() == old(server.Active())
      ensures !ev.hangUp && ev.readable && old(fds[i]) == server.socketFd &&
              ev.accepted >= 0 && old(server.nConnectionsActive) < server.nConnectionsMax ==>
        && server.Active() == old(server.Active()) + [ev.accepted]
        && (overflowed <==> old(n) == NFdsMax)
        && (!overflowed ==> Entries() == old(Entries()) + [ev.accepted])
      ensures !ev.hangUp && ev.readable && old(fds[i]) != server.socketFd &&
              ev.setSocketOk && ev.receive.Received? && ev.receive.count > 0 && !ev.replyOk ==>
        && !overflowed && Entries() == old(Entries())
        && (old(fds[i]) in old(server.Active()) ==>
              multiset(server.Active()) == multiset(old(server.Active())) - multiset{old(fds[i])})
      ensures PassState(Entries(), server.Active(), overflowed)
           == DispatchOn(old(Entries()), old(server.Active()), i, ev, server.socketFd, server.nConnectionsMax)
    {
      overflowed := false;
      var fd := fds[i];
      if ev.hangUp {
        Mark(i, fd);
        var _, _ := server.CloseFd(fd);
      }
      if ev.readable {
        var _, result, _ := server.Handle(fd, ev.accepted, ev.setSocketOk, ev.receive, ev.replyOk);
        if result.isClosed {
          Mark(i, fd);
        }
        if result.newConnectionFd != -1 {
          overflowed := Append(result.newConnectionFd);
        }
      }
    }

    /**
     * The same entry with `server_handle` corrected so that `is_closed` is
     * set exactly when the connection leaves the table.  Given descriptors
     * the kernel hands out fresh, and a listening socket that does not hang
     * up, the poll set keeps listing the socket and the open connections and
     * an append never overflows.
     */
    method DispatchCorrected(server: Server, i: nat, ev: Event) returns (overflowed: bool)
      requires Valid() && server.Valid() && fds != server.connectionFds
      requires server.nConnectionsMax == NConnections
      requires Tracks(Entries(), server.socketFd, server.Active())
      requires i < n && fds[0] == server.socketFd && PositiveFrom(Entries(), i)
      requires i == 0 ==> AllPositive(Entries())
      requires fds[i] == server.socketFd ==>
        !ev.hangUp && ev.accepted != 0 && ev.accepted !in [server.socketFd] + server.Active()
      modifies this, fds, server, server.connectionFds
      ensures Valid() && server.Valid() && !overflowed
      ensures Tracks(Entries(), server.socketFd, server.Active())
      ensures old(n) <= n && fds[0] == server.socketFd && PositiveFrom(Entries(), i + 1)
    {
      overflowed := false;
      var fd := fds[i];
      ghost var e := Entries();
      if i != 0 {
        SocketOnlyFirst(e, i, server.socketFd, server.Active());
      }
      PositiveAfterMark(e, i, -fd);
      if fd == server.socketFd {
        if ev.readable {
          overflowed := AcceptCorrected(server, ev);
          if Entries() != e {
            PositiveAfterAppend(e, i + 1, ev.accepted);
          }
        }
      } else {
        ConnectionCorrected(server, i, ev);
      }
      assert Entries()[0] == e[0];
    }

    /** A connection's entry: a hang-up, then a readable connection, each as corrected. */
    method ConnectionCorrected(server: Server, i: nat, ev: Event)
      requires Valid() && server.Valid() && fds != server.connectionFds
      requires Tracks(Entries(), server.socketFd, server.Active())
      requires i < n && fds[i] > 0 && fds[i] != server.socketFd
      modifies fds, server, server.connectionFds
      ensures Valid() && server.Valid()
      ensures Tracks(Entries(), server.socketFd, server.Active())
      ensures Entries() == old(Entries()) || Entries() == old(Entries())[i := -old(fds[i])]
    {
      var fd := fds[i];
      if ev.hangUp {
        CloseHungUp(server, i);
      }
      if ev.readable {
        HandleConnectionCorrected(server, i, fd, ev);
      }
    }

    /** A hang-up on a connection: the entry is marked and the connection leaves the table. */
    method CloseHungUp(server: Server, i: nat)
      requires Valid() && server.Valid() && fds != server.connectionFds
      requires Tracks(Entries(), server.socketFd, server.Active())
      requires i < n && fds[i] > 0 && fds[i] != server.socketFd
      modifies fds, server, server.connectionFds
      ensures Valid() && server.Valid()
      ensures Entries() == old(Entries())[i := -old(fds[i])] && fds[i] == -old(fds[i])
      ensures Tracks(Entries(), server.socketFd, server.Active())
      ensures old(fds[i]) !in server.Active()
    {
      var fd := fds[i];
      // The source marks the entry first; the two writes touch separate state.
      var _, _ := server.CloseFd(fd);
      Mark(i, fd);
      HangUpTracks(old(Entries()), i, server.socketFd, old(server.Active()), Entries(), server.Active());
    }

    /**
     * A readable connection, whose entry is either unmarked or was marked by
     * a hang-up that already closed it: the corrected handler never yields a
     * new descriptor here, and the entry is marked exactly when the
     * connection leaves the table.
     */
    method HandleConnectionCorrected(server: Server, i: nat, fd: int, ev: Event)
      requires Valid() && server.Valid() && fds != server.connectionFds
      requires Tracks(Entries(), server.socketFd, server.Active())
      requires i < n && fd > 0 && fd != server.socketFd
      requires fds[i] == fd || (fds[i] == -fd && fd !in server.Active())
      modifies fds, server, server.connectionFds
      ensures Valid() && server.Valid()
      ensures Tracks(Entries(), server.socketFd, server.Active())
      ensures Entries() == old(Entries()) || (old(fds[i]) == fd && Entries() == old(Entries())[i := -fd])
    {
      var _, result, _ := server.HandleCorrected(fd, ev.accepted, ev.setSocketOk, ev.receive, ev.replyOk);
      if result.isClosed {
        Mark(i, fd);
        HangUpTracks(old(Entries()), i, server.socketFd, old(server.Active()), Entries(), server.Active());
      }
    }

    /**
     * The readable listening socket, first in an unmarked poll set: an
     * accepted connection is appended, and since the server holds at most
     * `N_CONNECTIONS` of them the append stays in bounds.
     */
    method AcceptCorrected(server: Server, ev: Event) returns (overflowed: bool)
      requires Valid() && server.Valid() && fds != server.connectionFds
      requires server.nConnectionsMax == NConnections
      requires Tracks(Entries(), server.socketFd, server.Active()) && AllPositive(Entries())
      requires 0 < n && fds[0] == server.socketFd
      requires ev.accepted != 0 && ev.accepted !in [server.socketFd] + server.Active()
      modifies this, fds, server, server.connectionFds
      ensures Valid() && server.Valid() && !overflowed
      ensures Tracks(Entries(), server.socketFd, server.Active())
      ensures Entries() == old(Entries()) || (ev.accepted > 0 && Entries() == old(Entries()) + [ev.accepted])
    {
      ghost var socket, e, a := server.socketFd, Entries(), server.Active();
      var _, result, _ := server.HandleCorrected(fds[0], ev.accepted, ev.setSocketOk, ev.receive, ev.replyOk);
      overflowed := false;
      if result.newConnectionFd != -1 {
        UnmarkedCount(e, socket, a);
        AppendTracks(e, socket, a, ev.accepted);
        overflowed := Append(result.newConnectionFd);
      }
    }
  
    /**
     * The marking pass: every entry, including those appended during the
     * pass (whose `revents` are empty), goes through `Dispatch`.  An append
     * past the array ends the pass.
     */
    method Pass(server: Server, events: seq<Event>) returns (overflowed: bool)
      requires Valid() && server.Valid() && fds != server.connectionFds && |events| == n
      modifies this, fds, server, server.connectionFds
      ensures Valid() && server.Valid()
      ensures PassState(Entries(), server.Active(), overflowed)
           == PassFrom(PassState(old(Entries()), old(server.Active()), false), 0, events, server.socketFd, server.nConnectionsMax)
    {
      var i := 0;
      overflowed := false;
      while i < n && !overflowed
        invariant Valid() && server.Valid() && i <= n && (overflowed ==> n == NFdsMax)
        invariant PassFrom(PassState(Entries(), server.Active(), overflowed), i, events, server.socketFd, server.nConnectionsMax)
               == PassFrom(PassState(old(Entries()), old(server.Active()), false), 0, events, server.socketFd, server.nConnectionsMax)
        decreases NFdsMax - i
      {
        overflowed := Dispatch(server, i, EventAt(events, i));
        i := i + 1;
      }
    }

    /** One iteration of the outer loop: the marking pass, then compaction. */
    method Round(server: Server, events: seq<Event>) returns (overflowed: bool)
      requires Valid() && server.Valid() && fds != server.connectionFds && |events| == n
      modifies this, fds, server, server.connectionFds
      ensures Valid() && server.Valid()
      ensures !overflowed ==> forall j :: 0 <= j < n ==> fds[j] >= 0
      ensures var p := PassFrom(PassState(old(Entries()), old(server.Active()), false), 0, events,
                                server.socketFd, server.nConnectionsMax);
        && overflowed == p.overflowed && server.Active() == p.active
        && Entries() == if overflowed then p.entries else Compacted(p.entries, 0)
    {
      overflowed := Pass(server, events);
      if !overflowed {
        Compact();
      }
    }

    /** The marking pass over the corrected server. */
    method PassCorrected(server: Server, events: seq<Event>) returns (overflowed: bool)
      requires Valid() && server.Valid() && fds != server.connectionFds
      requires server.nConnectionsMax == NConnections
      requires Tracks(Entries(), server.socketFd, server.Active()) && AllPositive(Entries())
      requires 0 < n && fds[0] == server.socketFd && |events| == n
      requires !events[0].hangUp && events[0].accepted != 0
      requires events[0].accepted !in [server.socketFd] + server.Active()
      modifies this, fds, server, server.connectionFds
      ensures Valid() && server.Valid() && !overflowed
      ensures Tracks(Entries(), server.socketFd, server.Active())
      ensures 0 < n && fds[0] == server.socketFd
    {
      var i := 0;
      overflowed := false;
      while i < n
        invariant Valid() && server.Valid() && i <= n && 0 < n && !overflowed
        invariant fds[0] == server.socketFd
        invariant Tracks(Entries(), server.socketFd, server.Active())
        invariant PositiveFrom(Entries(), i)
        invariant i == 0 ==> AllPositive(Entries()) && server.Active() == old(server.Active())
        decreases NFdsMax - i
      {
        var ev := if i < |events| then events[i] else Quiet;
        if i != 0 {
          SocketOnlyFirst(Entries(), i, server.socketFd, server.Active());
        }
        overflowed := DispatchCorrected(server, i, ev);
        i := i + 1;
      }
    }

    /**
     * A round over the corrected server: afterwards the poll set is exactly
     * the socket and the open connections, unmarked, so it never needs more
     * than `N_FDS_MAX` entries.
     */
    method RoundCorrected(server: Server, events: seq<Event>) returns (overflowed: bool)
      requires Valid() && server.Valid() && fds != server.connectionFds
      requires server.nConnectionsMax == NConnections
      requires Tracks(Entries(), server.socketFd, server.Active()) && AllPositive(Entries())
      requires 0 < n && fds[0] == server.socketFd && |events| == n
      requires !events[0].hangUp && events[0].accepted != 0
      requires events[0].accepted !in [server.socketFd] + server.Active()
      modifies this, fds, server, server.connectionFds
      ensures Valid() && server.Valid() && !overflowed
      ensures Tracks(Entries(), server.socketFd, server.Active()) && AllPositive(Entries())
      ensures 0 < n && fds[0] == server.socketFd
      ensures n == 1 + |server.Active()| <= NFdsMax
    {
      overflowed := PassCorrected(server, events);
      ghost var e := Entries();
      Compact();
      CompactTracks(e, Entries(), server.socketFd, server.Active());
      UnmarkedCount(Entries(), server.socketFd, server.Active());
    }
  }

  /**
   * As written, a failed reply leaves a stale entry: five accepted
   * connections fill the poll set, one of them fails its reply and leaves
   * the table but not the poll set, and the next accepted connection no
   * longer fits in `poll_fds`.
   */
  method StaleEntryOverflows() returns (overflowed: bool)
    ensures overflowed
  {
    var server, poll := FiveConnections();
    FailOneReply(server, poll);
    assert forall j :: 0 <= j < poll.n ==> poll.fds[j] >= 0 by {
      assert poll.Entries() == [3, 4, 5, 6, 7, 8];
    }
    poll.Compact();
    assert poll.Entries() == [3, 4, 5, 6, 7, 8];
    overflowed := poll.Dispatch(server, 0, Event(false, true, 9, true, Received(0), true));
  }

  /** Connection 4's reply fails: it leaves the server's table, but its poll entry stays unmarked. */
  method FailOneReply(server: Server, poll: PollSet)
    requires poll.Valid() && server.Valid() && poll.fds != server.connectionFds
    requires server.socketFd == 3 && server.nConnectionsMax == NConnections
    requires server.Active() == [4, 5, 6, 7, 8] && poll.Entries() == [3, 4, 5, 6, 7, 8]
    modifies poll, poll.fds, server, server.connectionFds
    ensures poll.Valid() && server.Valid()
    ensures poll.Entries() == [3, 4, 5, 6, 7, 8]
    ensures server.nConnectionsActive == NConnections - 1
  {
    ghost var filled := server.Active();
    var fail := Event(false, true, -1, true, Received(12), false);
    var _ := poll.Dispatch(server, 1, fail);
    assert |server.Active()| == NConnections - 1 by {
      assert |multiset(server.Active())| == |multiset(filled)| - 1;
    }
  }

  /** Listening socket 3 with connections 4 to 8 accepted one after another. */
  method FiveConnections() returns (server: Server, poll: PollSet)
    ensures fresh(server) && fresh(poll) && fresh(poll.fds) && fresh(server.connectionFds)
    ensures poll.Valid() && server.Valid() && poll.fds != server.connectionFds
    ensures server.socketFd == 3 && server.nConnectionsMax == NConnections
    ensures server.Active() == [4, 5, 6, 7, 8] && poll.Entries() == [3, 4, 5, 6, 7, 8]
  {
    server := new Server.Empty(3, NConnections);
    poll := new PollSet(3);
    var k := 0;
    while k < NConnections
      invariant 0 <= k <= NConnections
      invariant poll.Valid() && server.Valid() && poll.fds != server.connectionFds
      invariant fresh(poll) && fresh(server) && fresh(poll.fds) && fresh(server.connectionFds)
      invariant server.socketFd == 3 && server.nConnectionsMax == NConnections
      invariant server.Active() == seq(k, j => 4 + j) && poll.Entries() == [3] + seq(k, j => 4 + j)
    {
      assert seq(k + 1, j => 4 + j) == seq(k, j => 4 + j) + [4 + k];
      AcceptOne(server, poll, 4 + k);
      k := k + 1;
    }
    assert seq(NConnections, j => 4 + j) == [4, 5, 6, 7, 8];
  }

  /** The socket's entry, readable, with `accept` returning `fd` below capacity. */
  method AcceptOne(server: Server, poll: PollSet, fd: nat)
    requires poll.Valid() && server.Valid() && poll.fds != server.connectionFds
    requires 0 < poll.n < NFdsMax && poll.fds[0] == server.socketFd
    requires server.nConnectionsActive < server.nConnectionsMax
    modifies poll, poll.fds, server, server.connectionFds
    ensures poll.Valid() && server.Valid()
    ensures poll.Entries() == old(poll.Entries()) + [fd] && server.Active() == old(server.Active()) + [fd]
    ensures poll.n == old(poll.n) + 1 && server.nConnectionsActive == old(server.nConnectionsActive) + 1
  {
    var o := poll.Dispatch(server, 0, Event(false, true, fd, true, Received(0), true));
  }
}
