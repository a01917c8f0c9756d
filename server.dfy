/** The server: its TLS configuration, the detached listeners it may reuse,
    and its registry of listeners. Listening prefers an inherited descriptor
    and falls back to a fresh bind; TLS certificates accumulate in one lazily
    created configuration; shutdown and detach are forwarded to the
    registry. */
module Servers {

  import opened Results
  import opened Tls
  import opened Listeners

  /** Why a certificate and key pair could not be parsed. */
  datatype CertificateError = CertificateError(reason: string)

  /** The configuration after adding `cert`: the base configuration is
      created first when there is none, and `cert` goes after the
      certificates already present. */
  function WithCertificate(config: Option<TlsConfig>, cert: Certificate): (c: TlsConfig)
    ensures config.Some? ==> c.certificates == config.value.certificates + [cert]
    ensures config.None? ==> c.certificates == [cert]
    ensures config.Some? ==> c.(certificates := config.value.certificates) == config.value
    ensures config.None? ==> c.(certificates := []) == InitialTlsConfiguration()
  {
    var base := if config.Some? then config.value else InitialTlsConfiguration();
    base.(certificates := base.certificates + [cert])
  }

  /** The configuration after adding `certs` one by one. */
  function WithCertificates(config: Option<TlsConfig>, certs: seq<Certificate>): Option<TlsConfig>
    decreases |certs|
  {
    if certs == [] then config
    else WithCertificates(Some(WithCertificate(config, certs[0])), certs[1..])
  }

  /** Certificates added one by one end up after the existing ones, in the
      order they were added; every other setting is that of the existing
      configuration, or of the base configuration when there was none. */
  lemma {:induction false} WithCertificatesAppends(config: Option<TlsConfig>, certs: seq<Certificate>)
    requires config.Some? || certs != []
    ensures var c := WithCertificates(config, certs);
      var base := if config.Some? then config.value else InitialTlsConfiguration();
      c.Some? && c.value.certificates == base.certificates + certs
      && c.value.(certificates := base.certificates) == base
    decreases |certs|
  {
    if certs != [] {
      var next := Some(WithCertificate(config, certs[0]));
      if certs[1..] != [] {
        WithCertificatesAppends(next, certs[1..]);
        assert [certs[0]] + certs[1..] == certs;
      }
    }
  }

  class Server {
    var tls: Option<TlsConfig>
    var reuseListeners: DetachedListeners
    const listeners: Registry

    ghost predicate Valid()
      reads this, listeners
    {
      listeners.Valid()
    }

    /** A server with no TLS configuration, nothing to reuse and no
        listeners. */
    constructor()
      ensures Valid() && fresh(listeners)
      ensures tls == None && reuseListeners == map[]
      ensures listeners.listeners == [] && listeners.tlsConfig == None
    {
      tls := None;
      reuseListeners := map[];
      listeners := new Registry();
    }

    /** Records the listeners a predecessor detached; a nil map keeps the
        current ones, any other map (even an empty one) replaces them. */
    method ReuseListeners(detached: Option<DetachedListeners>)
      modifies this
      ensures reuseListeners == if detached.Some? then detached.value else old(reuseListeners)
      ensures tls == old(tls)
    {
      if detached.Some? {
        reuseListeners := detached.value;
      }
    }

    /** Starts listening on `addr`. When a detached listener for `addr` is
        on record, it is rebuilt from its descriptor with its ticket key; if
        that fails, the descriptor is closed (reported in `closedFd`) and a
        fresh socket is bound, as for an address with no record. A fresh
        listener gets `freshKey`. The record is looked up under `addr` as
        given, while the new listener's address, the key a later detach
        files it under, is the one its socket reports (`reported`). */
    method Listen(addr: string, fileListener: Fd -> Result<Socket, OsError>,
                  bind: string -> Result<Socket, OsError>, reported: Socket -> string, freshKey: TicketKey)
      returns (err: Option<OsError>, closedFd: Option<Fd>)
      requires Valid()
      modifies listeners
      ensures Valid() && listeners.tlsConfig == old(listeners.tlsConfig)
      ensures var reused := addr in reuseListeners && fileListener(reuseListeners[addr].fd).Ok?;
        && (reused ==>
              && err == None && closedFd == None
              && |listeners.listeners| == |old(listeners.listeners)| + 1
              && listeners.listeners[..|old(listeners.listeners)|] == old(listeners.listeners)
              && var l := listeners.listeners[|old(listeners.listeners)|];
                 && fresh(l) && l.addr == reported(l.socket) && l.socket == fileListener(reuseListeners[addr].fd).value
                 && l.ticketKey == reuseListeners[addr].sessionTicketKey
                 && !l.pendingSignal && !l.unblockRequested && !l.closed)
        && (!reused ==>
              && closedFd == (if addr in reuseListeners then Some(reuseListeners[addr].fd) else None)
              && (bind(addr).Err? ==> err == Some(bind(addr).error) && listeners.listeners == old(listeners.listeners))
              && (bind(addr).Ok? ==>
                    && err == None
                    && |listeners.listeners| == |old(listeners.listeners)| + 1
                    && listeners.listeners[..|old(listeners.listeners)|] == old(listeners.listeners)
                    && var l := listeners.listeners[|old(listeners.listeners)|];
                       && fresh(l) && l.addr == reported(l.socket) && l.socket == bind(addr).value
                       && l.ticketKey == freshKey && !l.pendingSignal && !l.unblockRequested && !l.closed))
    {
      closedFd := None;
      if addr in reuseListeners {
        var entry := reuseListeners[addr];
        var reused := listeners.NewListenerFromFd(entry.fd, addr, fileListener, reported, entry.sessionTicketKey);
        if reused.Ok? {
          return None, None;
        }
        closedFd := Some(entry.fd);
      }
      var created := listeners.NewListener(addr, bind, reported, freshKey);
      err := if created.Ok? then None else Some(created.error);
    }

    /** Adds a parsed certificate, or returns the parse error and changes
        nothing. */
    method AddTLSCertificate(parsed: Result<Certificate, CertificateError>) returns (err: Option<CertificateError>)
      requires Valid()
      modifies this, listeners
      ensures Valid() && reuseListeners == old(reuseListeners)
      ensures listeners.listeners == old(listeners.listeners)
      ensures parsed.Err? ==> err == Some(parsed.error) && tls == old(tls) && unchanged(listeners)
      ensures parsed.Ok? ==> err == None && tls == Some(WithCertificate(old(tls), parsed.value))
      ensures parsed.Ok? ==> listeners.tlsConfig == tls
    {
      match parsed
      case Err(e) =>
        return Some(e);
      case Ok(cert) =>
        AddTLSCert(cert);
        return None;
    }

    /** Creates the base configuration if there is none, appends `cert`
        and hands the result to the registry. */
    method AddTLSCert(cert: Certificate)
      requires Valid()
      modifies this, listeners
      ensures Valid() && reuseListeners == old(reuseListeners)
      ensures tls == Some(WithCertificate(old(tls), cert))
      ensures listeners.tlsConfig == tls
      ensures listeners.listeners == old(listeners.listeners) && listeners.outstanding == old(listeners.outstanding)
    {
      if tls.None? {
        tls := Some(InitialTlsConfiguration());
      }
      tls := Some(tls.value.(certificates := tls.value.certificates + [cert]));
      listeners.ConfigureTls(tls.value);
    }

    /** Graceful shutdown: returns once every listener has drained. */
    method Shutdown()
      requires Valid()
      modifies listeners, listeners.listeners
      ensures Valid() && listeners.listeners == [] && listeners.outstanding == 0
      ensures listeners.tlsConfig == old(listeners.tlsConfig)
      ensures forall l :: l in old(listeners.listeners) ==> l.unblockRequested && l.closed && !l.pendingSignal
    {
      listeners.Shutdown(true);
    }

    /** Forced shutdown: closes every listener at once; their pending
        signals are left for their accept loops to find. */
    method ForceShutdown()
      requires Valid()
      modifies listeners, listeners.listeners
      ensures Valid() && listeners.listeners == [] && listeners.outstanding == 0
      ensures listeners.tlsConfig == old(listeners.tlsConfig)
      ensures forall l :: l in old(listeners.listeners) ==> l.unblockRequested && l.closed && l.pendingSignal
    {
      listeners.Shutdown(false);
    }

    /** The registry's detach result, forwarded. */
    method Detach(fileOf: Socket -> Result<Fd, OsError>, dupOf: Fd -> Result<Fd, OsError>)
      returns (r: Result<DetachedListeners, OsError>)
      requires Valid()
      modifies listeners, listeners.listeners
      ensures Valid() && r == Detached(old(listeners.listeners), fileOf, dupOf)
      ensures listeners.tlsConfig == old(listeners.tlsConfig)
      ensures r.Ok? ==> listeners.listeners == [] && listeners.outstanding == 0
      ensures r.Ok? ==> forall l :: l in old(listeners.listeners) ==>
        l.unblockRequested && l.closed && !l.pendingSignal
      ensures r.Err? ==> listeners.listeners == old(listeners.listeners) && listeners.outstanding == old(listeners.outstanding)
      ensures r.Err? ==> var k := Detachable(old(listeners.listeners), fileOf, dupOf);
        && (forall j :: 0 <= j < k ==>
              && listeners.listeners[j].pendingSignal && listeners.listeners[j].unblockRequested
              && listeners.listeners[j].closed == old(listeners.listeners[j].closed))
        && (forall j :: k <= j < |listeners.listeners| ==> unchanged(listeners.listeners[j]))
    {
      r := listeners.Detach(fileOf, dupOf);
    }
  }
}
