# go-pinger, modelled in Dafny

This project models the core of go-pinger, a Go library that pings many hosts
at once over one ICMP socket. Each host gets an echo request at its own
interval, and registered reply handlers are called with each round-trip
latency.

The library is built from goroutines: a buffer-pool arbiter, one listener and
one probe loop per destination. The model keeps each goroutine's state and
turns one turn of its loop into one method. Inputs say which `select` case
fired, what the clock read and what the socket or resolver returned.

Modules:

- `BufferPool` (buffer.dfy): the pool arbiter as a class over its free list.
  - Get, release and the expiry tick are each modelled as one turn.
  - The expiry sweep is a pure function `Sweep` over a sequence of clock
    readings.
- `Pinger` (pinger.dfy): the registry and its lifecycle (`New`, `AddHost`,
  `AddHandler`, `Run`, `Wait`), plus:
  - one turn of the listener loop, with the routing decision `ListenerPath`;
  - the probe loop's state, as the class `Prober`.
- `Utils` (utils.dfy): `getAddr`, the address built from the first resolved
  IP.
- `Icmp` (icmp.dfy): the socket fallback, the echo request, the write-retry
  rule and the reply filter. The ICMP library's results are inputs.
- `NetAddr` (netaddr.dfy): the parts of Go's `net` package the core relies on.
  This means `net.IP`, the two address shapes, and `net.IP.String`, which
  gives the registry key.
- `LittleEndian` (little_endian.dfy): `binary.LittleEndian.PutUint64`/`Uint64`
  and the `int64`/`uint64` conversions of the send timestamp.
- `Bytes` (bytes.dfy): Go's `byte`, as a newtype over 0..255.
- `Wrappers` (wrappers.dfy): `Option`, `Result` and `Error`.

Time is a natural number of nanoseconds. Go's `time.Since` returns an `int64`
Duration that saturates, and `Pinger.Since` models that saturation.

### Behaviours of the code worth knowing

- **Last-in, first-out reuse.**
  - Released buffers go to the front of the free list, and the front is what a
    getter receives.
  - The expiry sweep examines only the front, which is the newest buffer.
  - The sweep ends only when the list is empty, so an unexpired front makes
    it spin (`BufferPool.SweepStallsOnUnexpiredFront`).
- **Buffers kept on early `continue`s.** The listener does not release the
  received buffer after a read error or after a packet that is not an echo
  reply.
- **First sequence number 2.** The probe counter starts at 1 and is
  incremented before every send, so the first request carries 2.
- **Top-up on every turn.** The arbiter tops up an empty list at the start of
  every turn of its loop, whatever event that turn then serves.

## Model

| member | source | states |
|---|---|---|
| BufferPool.Sweep | buffer.go:62-70 | The sweep only ever removes entries from the front: what is left is a suffix of the list. It stops once the list is empty or the clock readings run out. |
| BufferPool.SweepStallsOnUnexpiredFront | buffer.go:63-70 | If the front has not expired at any reading, the sweep removes nothing and never looks past the front. |
| BufferPool.SweepClearsNewestFirst | buffer.go:63-70 | On a newest-first list, with a clock that never runs backwards, an expired front means the sweep empties the whole list. |
| BufferPool.SweepRemovesOnlyExpired | buffer.go:65-66 | Every removed entry satisfies the strict test `now - queuedAt > expiration` at the last reading. |
| BufferPool.SweepAllOrNothing | buffer.go:62-70 | With the clock standing still, a sweep of a newest-first list removes everything (expired front) or nothing (unexpired front). |
| BufferPool.Arbiter.constructor | buffer.go:38-44 | The arbiter starts with an empty free list and the given buffer size and expiration time. |
| BufferPool.Arbiter.TopUp | buffer.go:47-52 | Afterwards the list is non-empty. An empty list gains exactly one fresh zeroed buffer of `bufSize` bytes, stamped `now`. A non-empty list is unchanged and nothing is allocated. |
| BufferPool.Arbiter.GiveFront | buffer.go:54-61 | The buffer given out is the front buffer. Exactly that entry is removed; the rest of the list is unchanged. |
| BufferPool.Arbiter.PushReleased | buffer.go:58-59 | The released buffer, of any length, is pushed onto the front stamped `now`. The list grows by one. |
| BufferPool.Arbiter.SweepFront | buffer.go:64-69 | One iteration of the sweep loop removes the front exactly when it has expired at the reading, and changes nothing else. The list stays newest-first. |
| BufferPool.Arbiter.SweepExpired | buffer.go:62-70 | The new list is `Sweep` of the old list over the clock readings. The loop finishes exactly when the list is empty. |
| BufferPool.Arbiter.Get | buffer.go:45-61 | A get turn: on a non-empty list it hands out the front and removes it. On an empty list it hands out a fresh zeroed `bufSize` buffer and the list stays empty. |
| BufferPool.Arbiter.Release | buffer.go:45-59 | A release turn reads the clock twice: `startedAt` for the top-up and `now` when the release arrives. The buffer goes onto the front stamped `now`. When the list was empty, a fresh zeroed `bufSize` buffer stamped `startedAt` sits behind it. |
| BufferPool.Arbiter.Tick | buffer.go:45-70 | An expiry turn: a top-up at `now`, then the sweep. A non-empty list ends as `Sweep` of itself. An empty list ends as `Sweep` of the one fresh `bufSize` buffer stamped `now`. The turn finishes exactly when the list is empty. |
| BufferPool.Arbiter.ReleaseThenGet | buffer.go:58-61 | A get that directly follows a release returns the released buffer (LIFO reuse). A non-empty list ends as it was before. |
| Utils.NetAddrFor | utils.go:16-27 | A UDP connection gives a `UDPAddr` and a raw IP connection an `IPAddr`, both carrying the IP. Any other connection kind gives "Cannot determine connection type". |
| Utils.GetAddr | utils.go:11-33 | A lookup error comes back with nil IP and nil address. An empty list gives "Cannot resolve address". Otherwise the first IP comes back, in the connection's address shape, or with the connection-type error and a nil address. The error is nil exactly on the success path, and on success the address carries the IP. |
| Utils.GetAddrUsesFirstOnly | utils.go:28-30 | The IPs after the first never change the result. |
| Utils.ReplyKeyIsRegistryKey | utils.go:17-21 | For an address `getAddr` built, the key the listener looks a reply up under (`NetAddr.ReplyKey`) is the key `AddHost` registered, the string of the IP. |
| NetAddr.ReplyKey | pinger.go:146-154 | A reply from a `UDPAddr` or an `IPAddr` is looked up under the string of its IP. Any other address is looked up under "<nil>", the string of the nil IP. |
| NetAddr.SourceIP | pinger.go:146-152 | The listener takes the IP of a `UDPAddr` or an `IPAddr`; any other address gives the nil IP. |
| NetAddr.IPv4KeyInjective | pinger.go:154 | For IPv4 addresses in either length, two registry keys are equal exactly when the addresses are equal. |
| NetAddr.IPv4FormsShareKey | pinger.go:106 | The 4-byte and 16-byte forms of one IPv4 address give the same registry key. |
| LittleEndian.Uint64PutUint64 | pinger.go:179-190 | `Uint64` reads back exactly the value `PutUint64` wrote. |
| LittleEndian.PutUint64Uint64 | pinger.go:179-190 | `PutUint64` of a decoded value rewrites the eight bytes it was read from. |
| LittleEndian.ToInt64 | pinger.go:190 | `int64(u)` lies in the `int64` range, and converting back with `uint64` gives `u`. |
| LittleEndian.TimestampRoundTrip | pinger.go:179-190 | A non-negative timestamp that fits in `int64` survives the `uint64`, `PutUint64`, `Uint64`, `int64` chain unchanged. |
| Icmp.GetICMPListener | icmp.go:30-47 | Tries "ip4:icmp" and then "udp4", in that order. The first socket that opens is returned with its protocol, and no later protocol is tried. When every attempt fails, the result is a nil socket, an empty protocol and the last attempt's error. |
| Icmp.GetDefaultICMPListener | icmp.go:26-28 | The same fallback, on "0.0.0.0". |
| Icmp.EchoRequest | icmp.go:56-62 | The request has type Echo (8), code 0, and the caller's identifier, sequence number and data. |
| Icmp.WrappedNoBufsIsNotRetried | icmp.go:69-73 | Only an `OpError` whose error is the bare `ENOBUFS` errno is retried; an `ENOBUFS` wrapped in a system-call error is not. |
| Icmp.SendICMPEchoMessage | icmp.go:49-79 | A marshal error is returned unchanged and nothing is written. Otherwise the same bytes go to the same address until a write does not fail with `ENOBUFS`. Every other write error is ignored and the result is nil. |
| Icmp.ParseICMPMessage | icmp.go:81-95 | The result is the echo body exactly when parsing succeeded, the type is EchoReply and the body is an echo. It is nil otherwise. |
| Icmp.RequestsAreFilteredOut | icmp.go:87-89 | The pinger's own echo requests are never taken for replies. |
| Pinger.Destination.constructor | pinger.go:94-105 | A new destination has its host, address, timeout and interval, a nil cancel function and an empty mailbox. |
| Pinger.ListenerPath | pinger.go:122-166 | The whole routing decision, case by case. A done context at the top stops the loop, and a failed read continues. A packet that is not an echo reply is skipped. An echo reply whose key is absent is discarded. With a present key and the context not done, an empty mailbox gets the copy and a full one drops it. With the context done, the hand-off happens only if the mailbox has room and Go's `select` picks it; otherwise the loop stops. Each outcome in turn implies its conditions. |
| Pinger.Copied | pinger.go:158 | `copy(dst, src)` keeps `dst`'s length. It takes `src`'s bytes up to the shorter length and keeps `dst`'s bytes after that. |
| Pinger.Since | pinger.go:193 | `time.Since` is the exact difference when it fits in `int64`. Above that range it is 2^63-1, and below it -2^63, as `Time.Sub` saturates. |
| Pinger.NotifyHandlers | pinger.go:192-194 | Every handler is called once, in order, with the host, the latency and a nil error. |
| Pinger.EchoedStampGivesLatency | pinger.go:179-193 | A timestamp written by a probe and echoed back survives the copy into a pool buffer and the decode, so the reported latency is the time since the send. |
| Pinger.Pinger.constructor | pinger.go:44-53 | A new pinger has an empty registry, no context, no handlers, a zero wait group, and a pool of 512-byte buffers that expire after 30 s. |
| Pinger.New | pinger.go:39-54 | The pinger uses the first socket that opened, with that socket's protocol. When neither opened, it is nil and the error is returned. |
| Pinger.Pinger.Run | pinger.go:57-71 | The wait group grows by 1 plus the number of destinations. Every destination gets a cancel function derived from the run's context. Then the pinger is running with that context. |
| Pinger.Pinger.AddHandler | pinger.go:73-78 | A handler is stored only when none is registered, so the slice holds at most the first handler. |
| Pinger.Pinger.Wait | pinger.go:82-85 | The pinger is no longer running. |
| Pinger.Pinger.Done | pinger.go:120 | The wait-group counter drops by one, and the call panics exactly when it is already zero. |
| Pinger.Pinger.AddHost | pinger.go:88-117 | Returns `getAddr`'s error, if any, with the registry and wait group untouched. Otherwise a fresh destination with an empty mailbox is stored under `ip.String()`, replacing any old entry; every other key is unchanged. When the pinger is running, the destination gets a cancel function from the run's context and the wait group grows by exactly one. Otherwise the cancel function stays nil and the wait group is unchanged. |
| Pinger.Pinger.ListenerIteration | pinger.go:122-168 | The path taken is `ListenerPath`. The received buffer is released on the unknown, delivered, dropped and cancel paths, and on no other path. Only a delivery changes a mailbox, and it stores the copy in the destination looked up under the reply's key. The copy buffer holds `copy(dataBuf, reply data)` on the paths that copy and is untouched otherwise. It is never released, so it is not returned to the pool when the copy is dropped. |
| Pinger.Prober.constructor | pinger.go:174-176 | The probe's sequence counter starts at 1, with an 8-byte payload buffer and an identifier in [0, 0xffff). |
| Pinger.Prober.SendEcho | pinger.go:177-181 | The counter is incremented first. Then the clock reading is written little-endian into the payload, and the request carries the new sequence number and that payload. |
| Pinger.StartICMPHandler | pinger.go:171-182 | The first request goes out at once to the destination's address and carries sequence number 2 and the stamp of `now`. |
| Pinger.Prober.Step | pinger.go:183-196 | Cancellation changes nothing. An elapsed interval sends the next request, with the previous sequence number plus one, to the destination's address. A mailbox message is taken out and its first eight bytes decoded as the send time; a message shorter than 8 bytes panics. The buffer is released and every handler gets the host, the saturated elapsed time and a nil error. |

## Left out

- Goroutines, channels, `select` fairness, `sync.Mutex` and `context` cancellation are left out, because they are concurrency.
  - Each loop body is a step whose fired `select` case is an input.
  - Pool gets are inputs to the listener and probe steps; releases are their outputs.
  - The unbuffered channels to the arbiter are the separate `Arbiter.Get` and `Arbiter.Release` turns.
- `sync.WaitGroup` blocking is left out. The wait group is a counter, and `Pinger.Pinger.Wait` only clears `isRunning`.
- Real time is a parameter: `time.Now` readings are naturals, and `time.After` firing is a `select` input. The 100 ms read deadline and the 30 s timer as delays are left out.
- The monotonic clock is a precondition: `BufferPool.Arbiter` methods require a reading no earlier than the last. The newest-first order of the free list depends on it.
- The expiry sweep re-reads the clock on every iteration. It is modelled over a finite sequence of readings. An unfinished sweep means the loop is still spinning; the model does not represent a loop that never ends.
- Socket I/O (`icmp.ListenPacket`, `ReadFrom`, `WriteTo`, `SetReadDeadline`, `conn.Close`) is left out. Its outcomes are inputs.
- The ICMP wire format and checksum of the `golang.org/x/net/icmp` library are not part of this model. `Marshal` and `ParseMessage` results are inputs.
- Pinger.Pinger.ListenerIteration: the parse result is an input, so the model does not capture that the Go code parses the whole 512-byte buffer rather than the bytes read.
- DNS resolution (`net.LookupIP`) is an input: a list of IPs or an error.
- `rand.Seed` and `rand.Intn` are left out. The source identifier is a constructor argument in [0, 0xffff).
- `net.IP.String` for IPv6 omits the `::` zero-run compression. Groups are printed without leading zeros, but no run of zero groups is shortened. Only the IPv4 keys' injectivity is proved.
- Pinger.Prober.SendEcho: the sequence number is an unbounded integer. The 16-bit wrap of the wire field happens inside the ICMP library.
- Pinger.Pinger.AddHost: replacing a destination does not stop the old destination's probe loop. The model keeps no record of running probe loops.
- cmd/ping/main.go is not part of this model. It only parses flags and prints.
