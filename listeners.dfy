/** The listener registry and each listener's shutdown protocol.

    A `Listener` wraps one bound socket. Its two channels become booleans:
    `pendingSignal` is the one-slot signal channel that `Accept` polls, and
    `unblockRequested` records the send on the unblock channel that makes the
    helper goroutine dial the listener. The `Registry` is the tracked-listener
    slice together with the wait-group counter `outstanding`. Each registry
    operation holds the registry lock for its whole bookkeeping (detach only
    the read lock, while it signals listeners), so each is an ordinary method
    here; the waits on the counter come after the lock is released.
    Outcomes of operating-system calls are inputs. */
module Listeners {

  import opened Results
  import opened Tls

  /** An operating-system descriptor and an opaque socket identity. */
  type Fd = nat
  type Socket = nat

  /** An error reported by the operating system or the network stack. */
  datatype OsError = OsError(code: nat)

  /** What `Accept` can fail with: the shutdown sentinel or a network error. */
  datatype ServeError = ShutdownRequested | NetError(cause: OsError)

  /** An accepted connection. */
  datatype Conn = Conn(id: nat)

  /** How a listener's serve loop ends: normally, or with a panic. */
  datatype Verdict = Finished | Fatal(cause: OsError)

  /** What a successor needs to recreate a listener: a duplicate of its
      descriptor and its session-ticket key. */
  datatype DetachedListener = DetachedListener(fd: Fd, sessionTicketKey: TicketKey)

  /** Address to detached-listener mapping. */
  type DetachedListeners = map<string, DetachedListener>

  predicate Distinct<T(==)>(s: seq<T>)
  {
    forall i, j :: 0 <= i < j < |s| ==> s[i] != s[j]
  }

  /** Position of the first occurrence of `x` in `s`. */
  function IndexOf<T(==)>(s: seq<T>, x: T): (i: nat)
    requires x in s
    ensures i < |s| && s[i] == x && x !in s[..i]
  {
    if s[0] == x then 0
    else
      assert x in s[1..];
      var j := IndexOf(s[1..], x);
      assert s[..j + 1] == [s[0]] + s[1..][..j];
      1 + j
  }

  lemma SwapRemoveMultiset<T>(s: seq<T>, i: nat)
    requires i < |s|
    ensures multiset(s[i := s[|s| - 1]][..|s| - 1]) == multiset(s) - multiset{s[i]}
  {
    var last := |s| - 1;
    var r := s[i := s[last]][..last];
    if i == last {
      assert s == r + [s[last]];
    } else {
      assert s == s[..i] + [s[i]] + s[i + 1..last] + [s[last]];
      assert r == s[..i] + [s[last]] + s[i + 1..last];
    }
  }

  /** The tracked list after `unwatch(x)`: when `x` is tracked, its first
      occurrence is overwritten by the last element and the list is shortened
      by one; otherwise the list is unchanged. */
  function Unwatched<T(==)>(s: seq<T>, x: T): (r: seq<T>)
    ensures x !in s ==> r == s
    ensures x in s ==> |r| == |s| - 1 && multiset(r) == multiset(s) - multiset{x}
    ensures x in s ==>
      var i := IndexOf(s, x);
      r[..i] == s[..i] && (i < |r| ==> r[i] == s[|s| - 1] && r[i + 1..] == s[i + 1..|s| - 1])
  {
    if x in s then
      var i, last := IndexOf(s, x), |s| - 1;
      SwapRemoveMultiset(s, i);
      s[i := s[last]][..last]
    else
      s
  }

  /** Removing one listener keeps every other one tracked and adds none; on a
      list without duplicates the removed one is gone and no duplicate
      appears. */
  lemma UnwatchedKeepsOthers<T>(s: seq<T>, x: T)
    ensures forall y :: y in Unwatched(s, x) ==> y in s
    ensures forall y :: y in s && y != x ==> y in Unwatched(s, x)
    ensures Distinct(s) ==> Distinct(Unwatched(s, x)) && x !in Unwatched(s, x)
  {
    var r := Unwatched(s, x);
    forall y ensures y in r <==> y in s && (y != x || multiset(s)[x] > 1) {
      assert y in r <==> y in multiset(r);
      assert y in s <==> y in multiset(s);
    }
    if x in s && Distinct(s) {
      var i, last := IndexOf(s, x), |s| - 1;
      forall k | 0 <= k < |r| ensures r[k] == s[if k == i then last else k] {
        if k < i {
          assert r[k] == r[..i][k];
        } else if k > i {
          assert r[k] == r[i + 1..][k - i - 1];
        }
      }
      forall k | 0 <= k < |r| ensures r[k] != x {
        assert x == s[i];
      }
    }
  }

  /** One listening socket. Its address (the one the bound socket reports,
      `Addr().String()`), socket and session-ticket key never change after
      creation; its signal, unblock and closed state do. */
  class Listener {
    const addr: string
    const socket: Socket
    const ticketKey: TicketKey
    var pendingSignal: bool
    var unblockRequested: bool
    var closed: bool

    /** A listener just bound or rebuilt from an inherited descriptor. */
    constructor(addr: string, socket: Socket, ticketKey: TicketKey)
      ensures this.addr == addr && this.socket == socket && this.ticketKey == ticketKey
      ensures !pendingSignal && !unblockRequested && !closed
    {
      this.addr := addr;
      this.socket := socket;
      this.ticketKey := ticketKey;
      pendingSignal := false;
      unblockRequested := false;
      closed := false;
    }

    /** Polls the signal slot before accepting. A pending shutdown signal is
        consumed, the listener is closed and unregistered, and the shutdown
        sentinel is returned without touching the socket. Otherwise the
        wrapped socket's accept outcome `wrapped` is returned unchanged. */
    method Accept(reg: Registry, wrapped: Result<Conn, ServeError>) returns (r: Result<Conn, ServeError>)
      requires reg.Valid()
      modifies this, reg
      ensures reg.Valid()
      ensures old(pendingSignal) ==>
        && r == Err(ShutdownRequested)
        && !pendingSignal && closed && unblockRequested == old(unblockRequested)
        && reg.listeners == Unwatched(old(reg.listeners), this)
        && reg.outstanding == old(reg.outstanding) - (if this in old(reg.listeners) then 1 else 0)
        && reg.tlsConfig == old(reg.tlsConfig)
      ensures !old(pendingSignal) ==> r == wrapped && unchanged(this) && unchanged(reg)
    {
      if pendingSignal {
        pendingSignal := false;
        Close(reg);
        r := Err(ShutdownRequested);
      } else {
        r := wrapped;
      }
    }

    /** Closes the socket and unregisters the listener. Safe to repeat: the
        second unregistration finds nothing and changes nothing. */
    method Close(reg: Registry)
      requires reg.Valid()
      modifies this, reg
      ensures reg.Valid() && this !in reg.listeners
      ensures closed && pendingSignal == old(pendingSignal) && unblockRequested == old(unblockRequested)
      ensures reg.listeners == Unwatched(old(reg.listeners), this)
      ensures reg.outstanding == old(reg.outstanding) - (if this in old(reg.listeners) then 1 else 0)
      ensures reg.tlsConfig == old(reg.tlsConfig)
    {
      closed := true;
      reg.Unwatch(this);
    }

    /** The end of the serve loop, given what the HTTP server returned: the
        error is classified and, as a deferred call, the listener is closed
        on either outcome. */
    method Serve(reg: Registry, served: Option<ServeError>) returns (v: Verdict)
      requires reg.Valid()
      modifies this, reg
      ensures v == Classify(served)
      ensures reg.Valid() && this !in reg.listeners
      ensures closed && pendingSignal == old(pendingSignal) && unblockRequested == old(unblockRequested)
      ensures reg.listeners == Unwatched(old(reg.listeners), this)
      ensures reg.outstanding == old(reg.outstanding) - (if this in old(reg.listeners) then 1 else 0)
      ensures reg.tlsConfig == old(reg.tlsConfig)
    {
      v := Classify(served);
      Close(reg);
    }
  }

  /** The shutdown sentinel ends a serve loop normally; any other error is
      fatal and carries its cause. */
  function Classify(served: Option<ServeError>): (v: Verdict)
    ensures v.Fatal? <==> served.Some? && served.value.NetError?
    ensures v.Fatal? ==> v.cause == served.value.cause
  {
    match served
    case Some(NetError(cause)) => Fatal(cause)
    case _ => Finished
  }

  /** Outcome of taking a listener's descriptor and duplicating it: `fileOf`
      is the listener's File() call and `dupOf` the Dup system call. */
  function DupOutcome(l: Listener, fileOf: Socket -> Result<Fd, OsError>, dupOf: Fd -> Result<Fd, OsError>): Result<Fd, OsError>
  {
    match fileOf(l.socket)
    case Err(e) => Err(e)
    case Ok(file) => dupOf(file)
  }

  /** Detaches `ls` in order on top of the records `acc` already made,
      stopping at the first failure. */
  function DetachFrom(ls: seq<Listener>, fileOf: Socket -> Result<Fd, OsError>, dupOf: Fd -> Result<Fd, OsError>,
                      acc: DetachedListeners): Result<DetachedListeners, OsError>
    decreases |ls|
  {
    if ls == [] then Ok(acc)
    else
      match DupOutcome(ls[0], fileOf, dupOf)
      case Err(e) => Err(e)
      case Ok(fd) => DetachFrom(ls[1..], fileOf, dupOf, acc[ls[0].addr := DetachedListener(fd, ls[0].ticketKey)])
  }

  /** The result of detaching every tracked listener. */
  function Detached(ls: seq<Listener>, fileOf: Socket -> Result<Fd, OsError>, dupOf: Fd -> Result<Fd, OsError>): Result<DetachedListeners, OsError>
  {
    DetachFrom(ls, fileOf, dupOf, map[])
  }

  /** How many leading listeners duplicate successfully: the ones detach
      processes before it stops. */
  function Detachable(ls: seq<Listener>, fileOf: Socket -> Result<Fd, OsError>, dupOf: Fd -> Result<Fd, OsError>): (k: nat)
    ensures k <= |ls|
    ensures forall j :: 0 <= j < k ==> DupOutcome(ls[j], fileOf, dupOf).Ok?
    ensures k < |ls| ==> DupOutcome(ls[k], fileOf, dupOf).Err?
    decreases |ls|
  {
    if ls == [] || DupOutcome(ls[0], fileOf, dupOf).Err? then 0
    else
      var k := Detachable(ls[1..], fileOf, dupOf);
      assert forall j :: 1 <= j < k + 1 ==> ls[j] == ls[1..][j - 1];
      1 + k
  }

  function Addresses(ls: seq<Listener>): set<string>
  {
    set j | 0 <= j < |ls| :: ls[j].addr
  }

  predicate DistinctAddresses(ls: seq<Listener>)
  {
    forall i, j :: 0 <= i < j < |ls| ==> ls[i].addr != ls[j].addr
  }

  lemma {:induction false} DetachFromOutcome(ls: seq<Listener>, fileOf: Socket -> Result<Fd, OsError>,
                                             dupOf: Fd -> Result<Fd, OsError>, acc: DetachedListeners)
    ensures var r, k := DetachFrom(ls, fileOf, dupOf, acc), Detachable(ls, fileOf, dupOf);
      && (r.Ok? <==> k == |ls|)
      && (k < |ls| ==> r.error == DupOutcome(ls[k], fileOf, dupOf).error)
      && (r.Ok? ==> r.value.Keys == acc.Keys + Addresses(ls))
      && (r.Ok? ==> forall a :: a in acc && a !in Addresses(ls) ==> r.value[a] == acc[a])
    decreases |ls|
  {
    if ls != [] && DupOutcome(ls[0], fileOf, dupOf).Ok? {
      var fd := DupOutcome(ls[0], fileOf, dupOf).value;
      var acc' := acc[ls[0].addr := DetachedListener(fd, ls[0].ticketKey)];
      DetachFromOutcome(ls[1..], fileOf, dupOf, acc');
      assert Addresses(ls) == {ls[0].addr} + Addresses(ls[1..]) by {
        forall a | a in Addresses(ls) ensures a in {ls[0].addr} + Addresses(ls[1..]) {
          var j :| 0 <= j < |ls| && ls[j].addr == a;
          if j > 0 { assert ls[j] == ls[1..][j - 1]; }
        }
      }
    }
  }

  lemma {:induction false} DetachFromRecords(ls: seq<Listener>, fileOf: Socket -> Result<Fd, OsError>,
                                             dupOf: Fd -> Result<Fd, OsError>, acc: DetachedListeners)
    requires DistinctAddresses(ls)
    requires DetachFrom(ls, fileOf, dupOf, acc).Ok?
    ensures forall j :: 0 <= j < |ls| ==>
      var r := DetachFrom(ls, fileOf, dupOf, acc).value;
      DupOutcome(ls[j], fileOf, dupOf).Ok? && ls[j].addr in r &&
      r[ls[j].addr] == DetachedListener(DupOutcome(ls[j], fileOf, dupOf).value, ls[j].ticketKey)
    decreases |ls|
  {
    if ls != [] {
      var fd := DupOutcome(ls[0], fileOf, dupOf).value;
      var acc' := acc[ls[0].addr := DetachedListener(fd, ls[0].ticketKey)];
      var rest := ls[1..];
      assert DistinctAddresses(rest) by {
        forall i, j | 0 <= i < j < |rest| ensures rest[i].addr != rest[j].addr {
          assert rest[i] == ls[i + 1] && rest[j] == ls[j + 1];
        }
      }
      DetachFromRecords(rest, fileOf, dupOf, acc');
      DetachFromOutcome(rest, fileOf, dupOf, acc');
      assert ls[0].addr !in Addresses(rest) by {
        forall j | 0 <= j < |rest| ensures rest[j].addr != ls[0].addr {
          assert rest[j] == ls[j + 1];
        }
      }
      forall j | 1 <= j < |ls|
        ensures var r := DetachFrom(ls, fileOf, dupOf, acc).value;
          DupOutcome(ls[j], fileOf, dupOf).Ok? && ls[j].addr in r &&
          r[ls[j].addr] == DetachedListener(DupOutcome(ls[j], fileOf, dupOf).value, ls[j].ticketKey)
      {
        assert ls[j] == rest[j - 1];
      }
    }
  }

  /** Detach succeeds exactly when every listener's descriptor can be taken
      and duplicated; otherwise it reports the first failure. On success the
      map has one key per tracked address, and with distinct addresses each
      entry holds that listener's duplicate and its unchanged ticket key. */
  lemma DetachedSpec(ls: seq<Listener>, fileOf: Socket -> Result<Fd, OsError>, dupOf: Fd -> Result<Fd, OsError>)
    ensures var r, k := Detached(ls, fileOf, dupOf), Detachable(ls, fileOf, dupOf);
      && (r.Ok? <==> forall j :: 0 <= j < |ls| ==> DupOutcome(ls[j], fileOf, dupOf).Ok?)
      && (r.Err? ==> k < |ls| && r.error == DupOutcome(ls[k], fileOf, dupOf).error)
      && (r.Ok? ==> r.value.Keys == Addresses(ls))
      && (r.Ok? && DistinctAddresses(ls) ==> forall j :: 0 <= j < |ls| ==>
            r.value[ls[j].addr] == DetachedListener(DupOutcome(ls[j], fileOf, dupOf).value, ls[j].ticketKey))
  {
    DetachFromOutcome(ls, fileOf, dupOf, map[]);
    if Detached(ls, fileOf, dupOf).Ok? && DistinctAddresses(ls) {
      DetachFromRecords(ls, fileOf, dupOf, map[]);
    }
  }

  /** A successful detach files each listener under the address its socket
      reports, so a later lookup finds a record for `addr` exactly when some
      tracked listener reported `addr`; a request spelled differently from
      the reported form (`:8080` against `[::]:8080`) finds none. */
  lemma DetachKeysAreReported(ls: seq<Listener>, fileOf: Socket -> Result<Fd, OsError>,
                              dupOf: Fd -> Result<Fd, OsError>, addr: string)
    requires Detached(ls, fileOf, dupOf).Ok?
    ensures addr in Detached(ls, fileOf, dupOf).value <==> exists j :: 0 <= j < |ls| && ls[j].addr == addr
  {
    DetachedSpec(ls, fileOf, dupOf);
  }

  /** The tracked listeners and the wait-group counter. */
  class Registry {
    var listeners: seq<Listener>
    var outstanding: int
    /** The configuration last handed to the registry by the server. */
    var tlsConfig: Option<TlsConfig>

    /** The counter equals the number of tracked listeners, none twice. */
    ghost predicate Valid()
      reads this
    {
      outstanding == |listeners| && Distinct(listeners)
    }

    constructor()
      ensures Valid() && listeners == [] && outstanding == 0 && tlsConfig == None
    {
      listeners := [];
      outstanding := 0;
      tlsConfig := None;
    }

    /** Starts tracking `w`: appended at the end, counter raised by one. */
    method Watch(w: Listener)
      requires Valid()
      modifies this
      ensures listeners == old(listeners) + [w] && outstanding == old(outstanding) + 1
      ensures outstanding == |listeners| && (w !in old(listeners) ==> Valid())
      ensures tlsConfig == old(tlsConfig)
    {
      listeners := listeners + [w];
      outstanding := outstanding + 1;
    }

    /** Stops tracking `w` by moving the last listener into its slot. The
        counter drops by one exactly when `w` was tracked. */
    method Unwatch(w: Listener)
      requires Valid()
      modifies this
      ensures Valid() && w !in listeners
      ensures listeners == Unwatched(old(listeners), w)
      ensures outstanding == old(outstanding) - (if w in old(listeners) then 1 else 0)
      ensures forall l :: l in old(listeners) && l != w ==> l in listeners
      ensures forall l :: l in listeners ==> l in old(listeners)
      ensures tlsConfig == old(tlsConfig)
    {
      UnwatchedKeepsOthers(listeners, w);
      var i := 0;
      while i < |listeners|
        invariant 0 <= i <= |listeners|
        invariant listeners == old(listeners) && outstanding == old(outstanding)
        invariant w !in listeners[..i]
      {
        if listeners[i] == w {
          var last := |listeners| - 1;
          listeners := listeners[i := listeners[last]][..last];
          outstanding := outstanding - 1;
          return;
        }
        assert listeners[..i + 1] == listeners[..i] + [listeners[i]];
        i := i + 1;
      }
      assert listeners[..i] == listeners;
    }

    /** Signals every tracked listener (signal slot and unblock request).
        Forced: each is also closed and counted down, and the list ends
        empty. Graceful: the list is left to drain through each listener's
        own accept loop, and the call returns once the counter is zero. */
    method Shutdown(graceful: bool)
      requires Valid()
      modifies this, listeners
      ensures Valid() && listeners == [] && outstanding == 0
      ensures tlsConfig == old(tlsConfig)
      ensures forall l :: l in old(listeners) ==> l.unblockRequested && l.closed
      ensures forall l :: l in old(listeners) ==> l.pendingSignal == !graceful
    {
      var i := 0;
      while i < |listeners|
        invariant 0 <= i <= |listeners|
        invariant listeners == old(listeners) && tlsConfig == old(tlsConfig)
        invariant outstanding == old(outstanding) - (if graceful then 0 else i)
        invariant forall j :: 0 <= j < i ==>
          listeners[j].pendingSignal && listeners[j].unblockRequested && (graceful || listeners[j].closed)
        invariant forall j :: i <= j < |listeners| ==> listeners[j].unblockRequested == old(listeners[j].unblockRequested)
      {
        var li := listeners[i];
        li.pendingSignal := true;
        li.unblockRequested := true;
        if !graceful {
          li.closed := true;
          outstanding := outstanding - 1;
        }
        i := i + 1;
      }
      if graceful {
        Drain();
      } else {
        listeners := [];
      }
    }

    /** What a blocking wait on the counter sees happen: each signalled
        listener's accept loop consumes its signal, closes and unregisters
        the listener, and its deferred close then finds it already gone. */
    method Drain()
      requires Valid()
      requires forall l :: l in listeners ==> l.pendingSignal
      modifies this, listeners
      ensures Valid() && listeners == [] && outstanding == 0
      ensures tlsConfig == old(tlsConfig)
      ensures forall l :: l in old(listeners) ==>
        l.closed && !l.pendingSignal && l.unblockRequested == old(l.unblockRequested)
    {
      while listeners != []
        invariant Valid() && tlsConfig == old(tlsConfig)
        invariant forall l :: l in listeners ==> l in old(listeners) && l.pendingSignal
        invariant forall l :: l in listeners ==> l.unblockRequested == old(l.unblockRequested)
        invariant forall l :: l in old(listeners) && l !in listeners ==>
          l.closed && !l.pendingSignal && l.unblockRequested == old(l.unblockRequested)
        decreases |listeners|
      {
        var l := listeners[0];
        assert l in old(listeners);  // so the calls below stay inside the frame
        // The wrapped accept is never reached: the pending signal is seen first.
        var r := l.Accept(this, Ok(Conn(0)));
        var v := l.Serve(this, Some(r.error));
        assert v == Finished;
      }
    }

    /** After a forced shutdown each former listener's serve loop still ends,
        closing the listener twice, and none of that touches the now-empty
        registry. How a loop ends depends on where the shutdown found it,
        given by `blockedWith[j]`:
        - `None`: the loop re-enters `Accept` after the signal was sent, sees
          the signal and ends normally.
        - `Some(e)`: the loop was already blocked in the socket's own accept
          when the forced path closed the socket. That accept fails with `e`,
          the HTTP server returns `e`, and the loop panics with the signal
          still pending. */
    method LateExits(former: seq<Listener>, blockedWith: seq<Option<OsError>>) returns (verdicts: seq<Verdict>)
      requires Valid()
      requires forall l :: l in former ==> l !in listeners && l.pendingSignal
      requires Distinct(former) && |blockedWith| == |former|
      modifies this, former
      ensures listeners == old(listeners) && outstanding == old(outstanding) && Valid()
      ensures tlsConfig == old(tlsConfig)
      ensures |verdicts| == |former|
      ensures forall j :: 0 <= j < |former| ==> former[j].unblockRequested == old(former[j].unblockRequested)
      ensures forall j :: 0 <= j < |former| ==>
        && former[j].closed
        && (blockedWith[j].None? ==> verdicts[j] == Finished && !former[j].pendingSignal)
        && (blockedWith[j].Some? ==> verdicts[j] == Fatal(blockedWith[j].value) && former[j].pendingSignal)
    {
      verdicts := [];
      var i := 0;
      while i < |former|
        invariant 0 <= i <= |former|
        invariant listeners == old(listeners) && outstanding == old(outstanding) && Valid()
        invariant tlsConfig == old(tlsConfig)
        invariant |verdicts| == i
        invariant forall j :: 0 <= j < |former| ==> former[j].unblockRequested == old(former[j].unblockRequested)
        invariant forall j :: 0 <= j < i ==>
          && former[j].closed
          && (blockedWith[j].None? ==> verdicts[j] == Finished && !former[j].pendingSignal)
          && (blockedWith[j].Some? ==> verdicts[j] == Fatal(blockedWith[j].value) && former[j].pendingSignal)
        invariant forall j :: i <= j < |former| ==> former[j].pendingSignal
      {
        var v;
        match blockedWith[i] {
          case None =>
            var r := former[i].Accept(this, Ok(Conn(0)));
            v := former[i].Serve(this, Some(r.error));
          case Some(e) =>
            v := former[i].Serve(this, Some(NetError(e)));
        }
        verdicts := verdicts + [v];
        i := i + 1;
      }
    }

    /** Takes a duplicate of each tracked listener's descriptor, records it
        with the listener's session-ticket key under its address, and signals
        the listener. The first failure stops the loop: the call reports it,
        and the listeners already processed stay signalled. On success the
        call waits, as graceful shutdown does, for every listener to drain. */
    method Detach(fileOf: Socket -> Result<Fd, OsError>, dupOf: Fd -> Result<Fd, OsError>)
      returns (r: Result<DetachedListeners, OsError>)
      requires Valid()
      modifies this, listeners
      ensures r == Detached(old(listeners), fileOf, dupOf)
      ensures Valid() && tlsConfig == old(tlsConfig)
      ensures r.Ok? ==> listeners == [] && outstanding == 0
      ensures r.Ok? ==> forall l :: l in old(listeners) ==> l.unblockRequested && l.closed && !l.pendingSignal
      ensures r.Err? ==> listeners == old(listeners) && outstanding == old(outstanding)
      ensures r.Err? ==> var k := Detachable(old(listeners), fileOf, dupOf);
        && (forall j :: 0 <= j < k ==>
              listeners[j].pendingSignal && listeners[j].unblockRequested && listeners[j].closed == old(listeners[j].closed))
        && (forall j :: k <= j < |listeners| ==> unchanged(listeners[j]))
    {
      var acc: DetachedListeners := map[];
      var failure: Option<OsError> := None;
      var i := 0;
      while i < |listeners|
        invariant 0 <= i <= |listeners|
        invariant listeners == old(listeners) && outstanding == old(outstanding) && tlsConfig == old(tlsConfig)
        invariant i <= Detachable(listeners, fileOf, dupOf)
        invariant DetachFrom(listeners[i..], fileOf, dupOf, acc) == Detached(listeners, fileOf, dupOf)
        invariant forall j :: 0 <= j < i ==>
          listeners[j].pendingSignal && listeners[j].unblockRequested && listeners[j].closed == old(listeners[j].closed)
        invariant forall j :: i <= j < |listeners| ==> unchanged(listeners[j])
      {
        var li := listeners[i];
        var file := fileOf(li.socket);
        if file.Err? {
          failure := Some(file.error);
          break;
        }
        var fd := dupOf(file.value);
        if fd.Err? {
          failure := Some(fd.error);
          break;
        }
        acc := acc[li.addr := DetachedListener(fd.value, li.ticketKey)];
        li.pendingSignal := true;
        li.unblockRequested := true;
        assert listeners[i..][1..] == listeners[i + 1..];
        i := i + 1;
      }
      if failure.Some? {
        return Err(failure.value);
      }
      assert listeners[i..] == [];
      Drain();
      return Ok(acc);
    }

    /** Binds a fresh listener on `addr` (`bind` is the outcome of the bind
        call) and tracks it; a bind error is returned and nothing changes.
        The listener's address is the one the bound socket reports
        (`reported`), which need not be spelled as `addr` was. */
    method NewListener(addr: string, bind: string -> Result<Socket, OsError>, reported: Socket -> string, key: TicketKey)
      returns (r: Result<Listener, OsError>)
      requires Valid()
      modifies this
      ensures bind(addr).Err? ==> r == Err(bind(addr).error) && unchanged(this)
      ensures bind(addr).Ok? ==>
        && r.Ok? && fresh(r.value) && listeners == old(listeners) + [r.value] && Valid()
        && r.value.addr == reported(bind(addr).value) && r.value.socket == bind(addr).value && r.value.ticketKey == key
        && !r.value.pendingSignal && !r.value.unblockRequested && !r.value.closed
      ensures tlsConfig == old(tlsConfig) && outstanding == |listeners|
    {
      match bind(addr)
      case Err(e) =>
        r := Err(e);
      case Ok(socket) =>
        var l := new Listener(reported(socket), socket, key);
        Watch(l);
        r := Ok(l);
    }

    /** Rebuilds a listener from the inherited descriptor `fd`
        (`fileListener` is the outcome of wrapping it) and tracks it; an
        error is returned and nothing changes. `addr` only names the
        descriptor; the listener's address is the one the rebuilt socket
        reports (`reported`). */
    method NewListenerFromFd(fd: Fd, addr: string, fileListener: Fd -> Result<Socket, OsError>,
                             reported: Socket -> string, key: TicketKey)
      returns (r: Result<Listener, OsError>)
      requires Valid()
      modifies this
      ensures fileListener(fd).Err? ==> r == Err(fileListener(fd).error) && unchanged(this)
      ensures fileListener(fd).Ok? ==>
        && r.Ok? && fresh(r.value) && listeners == old(listeners) + [r.value] && Valid()
        && r.value.addr == reported(fileListener(fd).value) && r.value.socket == fileListener(fd).value
        && r.value.ticketKey == key
        && !r.value.pendingSignal && !r.value.unblockRequested && !r.value.closed
      ensures tlsConfig == old(tlsConfig) && outstanding == |listeners|
    {
      match fileListener(fd)
      case Err(e) =>
        r := Err(e);
      case Ok(socket) =>
        var l := new Listener(reported(socket), socket, key);
        Watch(l);
        r := Ok(l);
    }

    /** Hands the server's TLS configuration to the registry; the tracked
        listeners and the counter do not change. */
    method ConfigureTls(config: TlsConfig)
      modifies this
      ensures tlsConfig == Some(config)
      ensures listeners == old(listeners) && outstanding == old(outstanding)
    {
      tlsConfig := Some(config);
    }
  }
}
