# Graceful-shutdown HTTP/HTTPS server: listener bookkeeping in Dafny

This project models the sequential bookkeeping of a Go HTTP/HTTPS server
package that can shut its listeners down gracefully or by force, and can hand
its listening sockets to a successor process (detach and reuse).

- `results.dfy`, module `Results`: `Option` and `Result`. They stand for Go's
  nil-able values and its (value, error) pairs.
- `tls.dfy`, module `Tls`: the cipher-suite identifiers the server defines.
  It checks them against the IANA TLS Cipher Suite registry entries they name:
  RFC 5246 appendix A.5, RFC 5288 section 3, RFC 4492 section 6 and RFC 5289
  section 3.2. It also holds the eighteen-suite preference list and the base
  TLS configuration.
- `listeners.dfy`, module `Listeners`: the `Listener` class and the `Registry`
  class, which is the Go type `listeners`.
  - A listener's one-slot signal channel becomes `pendingSignal`.
  - Its unbuffered unblock channel becomes `unblockRequested`.
  - Its socket's closed state becomes `closed`.
  - The registry holds the tracked-listener slice `listeners` and the
    wait-group counter `outstanding`.
  - Each registry operation holds the registry lock for its bookkeeping, so
    each one is a plain method here. Detach holds only the read lock while it
    signals listeners, and both waits on the counter (listener.go:166-168,
    listener.go:206) run after the lock is released.
  - The object invariant `Registry.Valid()` says that the counter equals the
    number of tracked listeners and that no listener is tracked twice.
- `server.dfy`, module `Servers`: the `Server` class with these fields:
  - `tls`, the TLS configuration, which is nil until the first certificate is added;
  - `reuseListeners`, the detached listeners that may be reused;
  - `listeners`, its registry.

Operating-system and library calls are inputs to the methods:
- binding (`bind`);
- the address a bound socket reports, `Addr().String()` (`reported`);
- rebuilding a listener from a descriptor (`fileListener`);
- `File()` and `Dup` (`fileOf`, `dupOf`);
- the wrapped socket's accept (`wrapped`);
- the error `http.Serve` returns (`served`);
- certificate parsing (`parsed`);
- a newly generated session-ticket key (`freshKey`).

The source's `WaitGroup.Wait` blocks until other goroutines have unregistered
every listener. The model represents that wait by `Registry.Drain`. Drain runs,
for each signalled listener, the steps its accept loop takes:
1. `Accept` sees the signal.
2. `Accept` calls `close`, which unregisters the listener.
3. The serve loop's deferred `close` finds the listener already gone and changes nothing.

The main results:
- The counter is never decremented twice for one listener, across the two
  `close` calls each listener makes and across a forced shutdown followed by
  late unregistrations (`Unwatch`, `Drain`, `LateExits`).
- After a forced shutdown, an accept loop that was blocked in the socket's
  accept when the socket was closed ends `Fatal` with the signal still
  pending: the serve loop panics on that error (`LateExits`).
- The counter always equals the number of tracked listeners (`Registry.Valid`).
- Detach returns exactly one record per tracked address, holding the
  duplicated descriptor and the unchanged session-ticket key, or it returns
  the first failure (`DetachedSpec`).
- The cipher list holds 18 distinct registered suites in strict preference
  order (`CipherSuitesOrdered`, `CipherSuitesGrouped`).

Notes on the code's behaviour:
- Detach aborts on the first failure and returns no map at all. It does not
  leave out only the failing address.
- Detach of a listener on success is followed by that listener closing its own
  socket, because the signalled accept loop closes it. The duplicate survives.
- No listener state machine (Listening/Serving/Closing/Detached) exists in
  this code. Adding a certificate is never refused.
- A forced shutdown closes only the listening sockets (listener.go:157).
  Connections already accepted are not closed by it, although the comment at
  server.go:175-176 says it closes all active connections.
- Detach files each listener under the address its socket reports
  (listener.go:194), but `Listen` looks a record up under the address string
  it was given (server.go:68). A request spelled differently from the
  reported form, such as `:8080` against `[::]:8080`, finds no record and
  binds afresh (`DetachKeysAreReported`).
- A forced shutdown closes the sockets while their accept loops may still be
  blocked in the socket's accept. Such a loop gets the closed-socket error
  rather than the shutdown signal, and its serve loop panics (`LateExits`).

## Model

| member | source | states |
|---|---|---|
| `Tls.Registered` | server.go:17-37 | the registry entries used: exactly these 18 code points are known, each read as key exchange and bulk cipher |
| `Tls.ConstantsMatchRegistry` | server.go:24-37 | each suite constant's code point is the IANA entry its name spells out (0x0033/0x0039, 0x009c-0x009f, 0xc009/0xc00a, 0xc02b/0xc02c/0xc02f/0xc030), and so are the six crypto/tls constants the list uses |
| `Tls.CipherSuitesOrdered` | server.go:120-158 | every suite in the list is registered and strictly preferred to every later one (key exchange first, then cipher) |
| `Tls.CipherSuitesDistinct` | server.go:136-158 | the list has exactly 18 entries, pairwise distinct |
| `Tls.CipherSuitesGrouped` | server.go:120-158 | forward-secret suites come first; groups run ECDHE-ECDSA, ECDHE-RSA, DHE-RSA, RSA; within a group GCM precedes other modes, RC4 precedes CBC, 256-bit precedes 128-bit for one mode |
| `Tls.InitialTlsConfiguration` | server.go:114-162 | no certificates, NextProtos = ["http/1.1"], server preference on, session tickets enabled, and 18 registered suites in strict preference order |
| `Listeners.IndexOf` | listener.go:135-136 | the index unwatch stops at is the first occurrence of the listener |
| `Listeners.Unwatched` | listener.go:133-146 | an untracked listener leaves the list unchanged; a tracked one shortens it by one, removes exactly one occurrence (multiset), keeps the prefix, and moves the former last element into the vacated slot |
| `Listeners.UnwatchedKeepsOthers` | listener.go:133-141 | every other listener is still tracked, none is added, and on a duplicate-free list the removed listener is gone and the list stays duplicate-free |
| `Listeners.Listener.constructor` | listener.go:37-42 | a new listener has its address, socket and ticket key, no pending signal, no unblock request and an open socket |
| `Listeners.Listener.Accept` | listener.go:65-80 | with a pending signal: the signal is consumed, the listener is closed and unwatched (counter down by one if it was tracked) and the shutdown sentinel is returned without using `wrapped`; otherwise `wrapped` is returned and nothing changes |
| `Listeners.Listener.Close` | listener.go:82-86 | the socket is closed and the listener unwatched; a second call leaves the registry and counter unchanged |
| `Listeners.Listener.Serve` | listener.go:88-100 | the serve loop ends with the classification of its error, and the deferred close runs on either outcome |
| `Listeners.Classify` | listener.go:94-98 | a serve error is fatal exactly when it is present and not the shutdown sentinel, and the fatal verdict carries it |
| `Listeners.Detachable` | listener.go:181-192 | detach processes exactly the leading listeners whose File() and Dup both succeed and stops at the first one that fails |
| `Listeners.DetachFromOutcome` | listener.go:179-204 | the loop succeeds exactly when no listener fails; otherwise it reports the first failure; on success the keys are the earlier records plus every processed address |
| `Listeners.DetachFromRecords` | listener.go:194-197 | with distinct addresses, each listener's record holds its duplicate descriptor and its own ticket key |
| `Listeners.DetachKeysAreReported` | listener.go:194 | after a successful detach, an address has a record exactly when some tracked listener's reported address is that address |
| `Listeners.DetachedSpec` | listener.go:174-208 | detach succeeds iff every listener duplicates; an error is the first listener's failure; the map's keys are exactly the tracked addresses and each entry holds that listener's duplicate and unchanged key |
| `Listeners.Registry.constructor` | listener.go:117-122 | an empty registry with a zero counter |
| `Listeners.Registry.Watch` | listener.go:124-130 | the listener is appended at the end, earlier entries unchanged, the counter rises by exactly 1, and the invariant holds when the listener was new |
| `Listeners.Registry.Unwatch` | listener.go:132-146 | the new list is `Unwatched(old list, w)`, the counter drops by 1 exactly when `w` was tracked, `w` is no longer tracked and the invariant is kept |
| `Listeners.Registry.Shutdown` | listener.go:148-169 | every tracked listener is signalled and sent an unblock request. Forced: each is closed with its signal still pending, the counter drops by the number tracked and the list ends empty. Graceful: the call returns once all have drained, with the counter at zero and signals consumed |
| `Listeners.Registry.Drain` | listener.go:166-168 | with every tracked listener signalled, the listeners' own accept and close steps empty the list and bring the counter to zero, each listener closed exactly once in the count |
| `Listeners.Registry.LateExits` | listener.go:66-100 | after a forced shutdown, each former listener is closed and neither the list nor the counter changes, nor the registry's TLS configuration or any listener's unblock request. A loop that re-enters `Accept` consumes the signal and ends `Finished`. A loop blocked in the socket's accept gets that accept's error and ends `Fatal` with that error, the signal still pending |
| `Listeners.Registry.Detach` | listener.go:171-208 | returns `Detached(old list, fileOf, dupOf)`, whose meaning `DetachedSpec` states. On success: all listeners signalled, then drained. On failure: the list and counter are unchanged, the listeners before the first failure are signalled but stay open or closed as they were, and the rest are untouched |
| `Listeners.Registry.NewListener` | listener.go:31-46 | a bind error is returned with nothing tracked; otherwise a fresh listener is appended and counted, holding the bound socket, the key and the address that socket reports, with no signal, no unblock request and an open socket |
| `Listeners.Registry.NewListenerFromFd` | listener.go:48-63 | as `NewListener`, from an inherited descriptor |
| `Listeners.Registry.ConfigureTls` | server.go:111 | the registry records the configuration; tracked listeners and counter unchanged |
| `Servers.WithCertificate` | server.go:105-109 | the base configuration is created only when there is none; the certificate goes after the existing ones; every other field is kept |
| `Servers.WithCertificatesAppends` | server.go:105-111 | certificates added one by one appear after the existing ones in the order added, with the other settings unchanged |
| `Servers.Server.constructor` | server.go:47-55 | a server has no TLS configuration, an empty reuse map and an empty registry |
| `Servers.Server.ReuseListeners` | server.go:57-63 | a nil map keeps the stored map; any other map replaces it |
| `Servers.Server.Listen` | server.go:65-75 | an address with a record under the string as given is first rebuilt from its descriptor with its recorded key. If that fails, that descriptor is closed and a fresh bind follows. An address with no record is always bound fresh. A bind error is returned with nothing tracked. The new listener is fresh, carries its socket's reported address, and has no signal, no unblock request and an open socket |
| `Servers.Server.AddTLSCertificate` | server.go:77-88 | a parse error is returned and nothing changes; otherwise the certificate is added |
| `Servers.Server.AddTLSCert` | server.go:103-112 | the configuration becomes `WithCertificate(old configuration, cert)` and is handed to the registry; listeners and counter unchanged |
| `Servers.Server.Shutdown` | server.go:169-173 | graceful shutdown of the registry: all listeners sent an unblock request and closed, signals consumed, counter zero, TLS configuration kept |
| `Servers.Server.ForceShutdown` | server.go:175-180 | forced shutdown of the registry: all listeners sent an unblock request and closed with signals pending, list empty, counter zero, TLS configuration kept |
| `Servers.Server.Detach` | server.go:182-185 | the registry's detach result, forwarded. On success the registry is drained. On failure its list and counter are unchanged, the listeners before the first failure are signalled but keep their open or closed state, and the rest are untouched |

## Left out

- Sockets and system calls are inputs. This covers `net.Listen`, `net.FileListener`/`os.NewFile`, `TCPListener.File`, `syscall.Dup` and `syscall.Close`. `Server.Listen` reports the descriptor it closes in `closedFd` rather than closing it.
- The self-dial in `unblockAccept` is left out, because it exists only to wake a blocked accept. The same goes for the goroutines and the TLS dial.
- A send on a listener's channels only sets a flag. In the source, a second signal to a full slot blocks the sender, and so does an unblock send with no helper goroutine receiving it. The model does not capture this blocking.
- Listeners.Registry.Shutdown: the graceful wait is modelled as `Drain`, the state once every listener's accept loop has run. The blocking itself, and the wait for in-flight requests, are not modelled.
- Servers.Server.Shutdown: it returns the registry's drained end state. Waiting for in-flight requests to finish, which server.go:169-170 promises, is not modelled, as for the registry's graceful path.
- The wait group's request counting by `ServeHTTP` (servemux.go and server.go:188-193) is not modelled, so the counter counts listeners only.
- Two nil assignments are modelled as the empty list. The forced path sets each slot to nil and then sets the slice itself to nil (listener.go:158, listener.go:163). Unwatch resets an emptied slice to nil (listener.go:142-144).
- `http.Serve`, `tls.NewListener`, the TLS wrapping of accepted connections, `tls.X509KeyPair`, `tls.LoadX509KeyPair` and `BuildNameToCertificate` are foreign library calls. `AddTLSCertificateFromFile` is left out because it reads files.
- `Server.Serve` and the registry's `serve` are left out. The registry's `serve` is not defined in listener.go and would start goroutines.
- The registry operations that server.go calls (`reuse`, `new`, `configureTLS`) are not defined in listener.go:
  - `new` and `reuse` are modelled as `newListener`/`newListenerFromFd` on the server's own registry. The global `activeListeners` becomes an explicit registry.
  - A reused listener keeps the ticket key of its detached record. This follows the key-continuity check at server_test.go:146-153; the code that carries the key is not part of this model.
  - `configureTLS` only records the configuration. What it would do to each listener is not modelled.
- Listeners.Registry.LateExits: which accept loops were blocked in the socket's accept when a forced shutdown closed it is an input (`blockedWith`), because it depends on goroutine scheduling. The panic itself is represented by the `Fatal` verdict.
- Servers.Server.Detach: server.go:184 forwards a single result, but listener.go:174 returns a map and an error. The model forwards the combined `Result`.
- Servers.Server.Listen: server.go:72 closes the looked-up record itself, not a descriptor. The model closes the record's descriptor.
- Generating session-ticket keys is not modelled: a fresh key is an input. The key is kept on the listener rather than in the TLS configuration.
- Detach reads the ticket key through the listener's TLS configuration, which panics when that configuration is nil. The model assumes every listener has one.
- On a failed detach, the duplicates already made for earlier listeners are dropped without being closed. The model records no descriptors, so this leak is not visible in it.
