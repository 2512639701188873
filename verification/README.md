# SCION endhost client: one path-steered request/reply exchange

This project models `realMain` of the SCION endhost client in
`project/main.go`. The client does one exchange with a verifier:

1. It dials the local SCION daemon. The daemon address is the local IP plus port 30255, with brackets around an IPv6 literal.
2. It asks the daemon for the local IA and for the paths to the verifier's IA. An empty path set is fatal.
3. It takes the first path. When that path leaves the local AS, it extends the `remote` address with the path's next hop and dataplane path.
4. It opens a raw connection on the local IP with port 0, so the system picks the port.
5. It builds one SCION packet carrying a UDP datagram with a fixed JSON request and writes it to the first path's next hop.
6. It reads one reply and keeps the reply's UDP payload bytes. A reply of another payload kind gives no bytes and is not an error.

Every call into the SCION library is an input of the model. The
`Exchange.Collaborators` record holds what each call returns: daemon
connect, `LocalIA`, `Paths`, `OpenRaw`, the IP parses, `WriteTo` and
`ReadFrom`. `Exchange.RealMain` is a pure function of the local IP text, the
`remote` address and those results. It returns a `Run` with three parts:

- the outcome: the reply bytes, or the failing stage with the wrapped collaborator error;
- the trace of calls made, with their arguments;
- the value of the `remote` global afterwards.

IA identifiers, IPs, host addresses, dataplane paths, errors and non-UDP
payload kinds are abstract types with equality. The client never looks
inside them.

Modules:

- `Results`: `Option`, `Result` and the opaque error type.
- `Decimal`: rendering of numbers in decimal (`%d`) and reading them back.
- `HostPort`: splitting a `host:port` text under the rules of Go's `net.SplitHostPort`. It is the reading side of the daemon address.
- `Daemon`: the daemon port and the daemon address.
- `Snet`: the SCION and Go value types.
- `Selection`: the cross-AS test and the extension of `remote`.
- `Assembly`: the request packet, the 16-bit port conversion and reply extraction.
- `Exchange`: the stage pipeline (`Exchange`, `RealMain`, `RealMainScoped`) and the properties of a run.

A few facts about the code that the model keeps as they are:

- The connection is closed only when every stage succeeds, because the deferred close is registered just before the final return. See Findings.
- The packet is always written to the first path's `UnderlayNextHop()`, nil or not. Same-AS traffic gets no special case, so it is not sent to the configured remote address.
- For a same-AS destination, `remote` is left as it was. It is not reset to carry no next hop and no path. For a cross-AS destination its next hop and path are copied from the first path, including a nil value.
- A local IP text that `net.ParseIP` rejects is not an error at resolution time. The failure shows up after the connection is opened, as the "parsing local IP address" error.

## Model

| member | source | states |
|---|---|---|
| Daemon.DaemonAddress | project/main.go:60-67 | The daemon address is at least six characters longer than the local IP text and ends in `:30255` |
| Daemon.DaemonAddressRoundTrip | project/main.go:60-67 | Splitting the daemon address by `host:port` rules gives back the local IP text unchanged and a port text that reads as 30255, with or without brackets |
| Daemon.BracketsExactlyForIPv6 | project/main.go:61-67 | The daemon address starts with `[` exactly when the local IP text contains a colon |
| Daemon.DaemonPortText | project/main.go:30 | The daemon port is rendered as the five digits `30255` |
| Decimal.ValueOfShow | project/main.go:63-66 | Reading the decimal rendering of a number gives back that number |
| Decimal.Show | project/main.go:63-66 | The `%d` rendering is non-empty, all digits, and has no leading zero |
| HostPort.Split | project/main.go:60-67 | Go's `net.SplitHostPort`, the reading side of the daemon address: a successful split never yields a port with a colon or a host with brackets |
| Selection.IsRemoteAS | project/main.go:109 | The destination is remote only for a non-empty path set, and then exactly when the first path's source and destination IAs differ |
| Selection.ExtendRemote | project/main.go:110-116 | The IA and host of `remote` are kept. Across ASes the next hop and path become the first path's, copied verbatim even when nil. Otherwise `remote` is unchanged |
| Selection.ExtensionExactlyAcrossAS | project/main.go:109-116 | Starting from an address with no next hop and no path, the extended address has a next hop exactly when the first path crosses an AS boundary and its next hop is non-nil, and a path exactly when it crosses and its dataplane path is non-nil |
| Selection.OnlyFirstPathMatters | project/main.go:109-112 | Selection and extension depend only on the first path, never on the paths after it |
| Assembly.ToUint16 | project/main.go:156 | Go's `uint16(...)` conversion gives a value congruent to the input modulo 2^16, and equal to it when the input is in range |
| Assembly.RequestPayload | project/main.go:134 | The request payload is, byte for byte, the text `{"ID": 1,"Payload": {}}` |
| Assembly.BuildPacket | project/main.go:145-158 | The packet goes from the local IA to the remote IA along the given path, as a UDP datagram whose payload reads back as the request and whose ports are congruent to the local and remote ports modulo 2^16 |
| Assembly.ExtractReply | project/main.go:174-182 | A UDP reply yields its bytes unchanged, whatever its ports. Any other payload kind yields no bytes |
| Assembly.RequestRoundTrip | project/main.go:145-158 | Extracting the payload of a built packet gives back the request bytes, and the datagram's ports are the given in-range ports |
| Assembly.BuildIgnoresRemoteRoute | project/main.go:145-158 | The built packet does not depend on the next hop or path stored in `remote`. Its path comes from the first path itself |
| Exchange.Exchange | project/main.go:52-185 | Every run starts by dialling the daemon, and no stage ends the trace with a close |
| Exchange.RealMain | project/main.go:52-189 | The trace is non-empty and ends with the close exactly when the exchange succeeds |
| Exchange.RealMainScoped | project/main.go:121-124 | The corrected exchange has the outcome and final `remote` of the written one, and on success its last call is the close |
| Exchange.FirstFailureDecides | project/main.go:70-171 | The exchange succeeds exactly when every stage succeeds. Otherwise it reports the first failing stage, with that stage's collaborator error (none for an empty path set) |
| Exchange.CallsInOrder | project/main.go:70-188 | The trace has at most seven calls, and position k holds the call of the k-th step: connect, LocalIA, Paths, OpenRaw, WriteTo, ReadFrom, Close |
| Exchange.CallsArePrefix | project/main.go:70-188 | The calls made are, in order, a prefix of connect, LocalIA, Paths, OpenRaw, WriteTo, ReadFrom, Close |
| Exchange.CallCount | project/main.go:70-188 | The trace grows past each step exactly when the stage issuing the next call is reached, and reaches the close exactly when every stage succeeds |
| Exchange.CallsFollowStages | project/main.go:70-188 | A stage's call is made exactly when every earlier stage succeeded, so nothing after the first failure runs. Close is made exactly when every stage succeeds |
| Exchange.LabelIdentifiesStage | project/main.go:70-171 | The nine error labels are pairwise distinct, so the label identifies the failing stage |
| Exchange.NoPathsStopsBeforeOpening | project/main.go:95-99 | Zero paths gives the "no paths available to destination" error with no wrapped cause. No connection is opened, nothing is written, and `remote` is unchanged |
| Exchange.LookupArguments | project/main.go:68-121 | The daemon is dialled at the daemon address of `local`. Paths are requested for (remote IA, local IA). The raw connection is bound to the parsed local IP with port 0 |
| Exchange.PathsArguments | project/main.go:90 | Every path lookup made asks for paths from the remote IA to the local IA, and only after the local IA was obtained |
| Exchange.BindArgument | project/main.go:121 | Every raw open made binds the parsed local IP with port 0 |
| Exchange.SentPacket | project/main.go:133-161 | The written packet goes from (local IA, local host) to (remote IA, remote host) along the first path's dataplane path, whether or not the destination is cross-AS. Its UDP ports are the opened connection's port and the remote port cut to 16 bits. It carries the fixed request and is always written to the first path's next hop, which may be nil |
| Exchange.RemoteAfterSelection | project/main.go:107-116 | Once the path check passes, `remote` becomes the first-path extension of its old value. If the exchange stops earlier, `remote` is unchanged |
| Exchange.ReplyOnSuccess | project/main.go:173-188 | On success the reply is the UDP payload's bytes, unchanged. Any other payload kind gives the empty sequence, and the exchange still succeeds |
| Exchange.CloseSkippedAfterOpen | project/main.go:121-188 | As written, any failure after a successful OpenRaw returns with the connection opened and never closed |
| Exchange.ExchangeNeverCloses | project/main.go:121-186 | No stage before the final return closes the connection. A close can only come from the deferred call |
| Exchange.OpenSucceededWhenReached | project/main.go:121-124 | A run gets past OpenRaw, succeeding or failing at a later stage, exactly when every stage up to and including the open succeeds |
| Exchange.ScopedCloseBalanced | project/main.go:121-124 | With the close deferred right after a successful open, the connection is closed exactly when OpenRaw was reached and returned no error, once, as the last call. A failed open closes nothing |
| Exchange.ScopedAgreesExceptClose | project/main.go:186-188 | The corrected exchange has the same outcome and the same final `remote` as the written one. Its trace is the written trace, or that trace plus a final close; on success the two traces are equal |

## Left out

- `main` (project/main.go:32-50) is left out. It only sets up logging and parses flags. The model takes `local` and `remote` as parameters instead of globals.
- The 10-second context (project/main.go:56-57) is left out: wall-clock time and cancellation are not modelled. A deadline that expires shows up only as an error result of the blocked call.
- Daemon connect, `LocalIA`, `Paths`, `OpenRaw`, `WriteTo` and `ReadFrom` are left out. These are SCION library and network I/O, so each is an input result. Their dependence on their arguments is not modelled. The arguments appear in the trace.
- `net.ParseIP` and `netip.ParseAddr` are opaque inputs. Go rejects the text `<nil>` of an IP that did not parse, and the model does not tie those two inputs together.
- SCION packet encoding, path encoding and `addr.HostIP` are left out. They live in library code. Packets are structured values.
- The error text from `serrors.WrapStr` is not rendered. A failure carries its stage (and so its label) and the wrapped error.
- `log.Debug`/`log.Error` calls, the loop that logs each path (project/main.go:101-105) and `scionNetwork.Metrics` are left out. They are diagnostics only.
- Two Go panics are left out: the type assertion `.(*net.UDPAddr)` on the connection's local address, and a nil `remote.Host`. The opened connection is modelled by its local UDP address, and `remote` always has a host.
- The sender underlay address returned by `ReadFrom` is recorded in `Received` but not used. The source never uses it either.

## Findings

| source | as written | input that shows it | evidently intended | confidence | as-written member | corrected member |
|---|---|---|---|---|---|---|
| project/main.go:186 | `defer spktConn.Close()` is registered just before the final `return nil`. The connection is closed only when every stage succeeds | Daemon, local IA, a non-empty path set and OpenRaw succeed, then ReadFrom returns an error (for example the 10-second deadline). Returns after OpenRaw at lines 139, 143 and 163 show the same thing | Defer the close right after OpenRaw succeeds (after line 124), so every later return releases the connection and a failed open closes nothing | medium; not executed | Exchange.CloseSkippedAfterOpen | Exchange.ScopedCloseBalanced |

`Exchange.RealMain` models the code as written. `Exchange.RealMainScoped` is
the corrected exchange: it closes the connection after every return that
follows a successful OpenRaw. `Exchange.ScopedAgreesExceptClose` shows that
the two have the same outcome and the same final `remote`, and that the
corrected trace is the written one with at most a close appended. So the
properties of the outcome, of `remote` and of the calls other than the close
hold for the corrected exchange too. The properties of the whole trace
(`Exchange.CallsInOrder`, `Exchange.CallsArePrefix`, `Exchange.CallCount` and
the close clause of `Exchange.CallsFollowStages`) are about the written
exchange only. For example, a corrected run that fails while parsing the
local IP makes the calls connect, LocalIA, Paths, OpenRaw, Close.
