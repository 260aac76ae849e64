# A verified model of wireguard-windows

A Dafny 4.11 model of the algorithms and protocols of the WireGuard client for Windows (the fork
with WebSocket transport), and proofs of what they promise. `dafny verify dfyconfig.toml` checks
the whole project.

The operating system, the driver, the clock, the file reader and the codecs of the Go libraries
(net/netip, base64, net/url, hex, gob, Unicode normalisation) are parameters or arbitrary choices
of the environment; where a proof needs a law of a codec, the law is a predicate and a hypothesis
(`Lawful`, `Laws`, `Injective`, and `Sorts` for sort.Slice; `WgQuickLaws.LawsCanBeMet` and
`GuidInput.SortsCanBeMet` show the first and the last to be consistent).
Where the original loops and assigns, the model has classes and loops, proved against functions
on values; the theorems are about those functions.

| files | part of the original |
|---|---|
| `Text`, `Netip`, `Config`, `Bytes`, `Sorting` | strings, addresses, the configuration record, numbers in bytes, sorting |
| `WgQuickParser`, `WgQuickWriter`, `WgQuickLoops` | the wg-quick parser and printer, as functions and as loops |
| `WgQuickLaws`, `WgQuickCanonical`, `WgQuickInterface`, `WgQuickPeer`, `WgQuickRoundTrip` | parsing undoes printing |
| `Entries`, `WgQuickMeaning`, `WgQuickAccept`, `WgQuickComments` | what the lines of a text say, which texts are accepted, where the comments go |
| `WgQuickInvariant`, `WgQuickText` | what the parser produces; the round trip for every accepted text; the look of the text |
| `RouteMonitor` | the default-route monitor against a routing table that others change |
| `AdapterCache` | the cache of driver adapters, for any number of threads |
| `RingLog`, `GlobalLog` | the shared ring log and the writer in front of it |
| `TlsNames`, `TlsFiles` | naming, collecting and validating the stored TLS files |
| `GuidInput` | the hash input of the deterministic GUID |
| `DriverBuffer` | the flat buffer exchanged with the driver |
| `Rpc` | the calls between UI and manager |
| `Uapi`, `UapiMeaning`, `UapiAccept` | the runtime view from the device's answer, what its lines say, which answers are accepted, and redaction |
| `KillSwitch`, `Routes`, `Names` | allowed-IP rewriting and the firewall, overlapping tunnels, tunnel names and their order |

## Results

- **wg-quick.** For every text and name the parser accepts, printing and parsing again gives the
  same configuration, comments included (`WgQuickInvariant.RoundTrip`). The proof has two halves:
  whatever is accepted is canonical, and every canonical configuration survives printing. What the
  parser computes is stated by the lines of the text alone: the settings of every section
  (`WgQuickMeaning.ParseSays`), all comments (`WgQuickComments.ParseNotes`), and exactly which texts
  are accepted (`WgQuickAccept.ParserAccepts`).
- **Route monitor.** In every interleaving, with foreign changes inside every call, the routes
  added and not deleted are the owned hosts through the current gateways and those whose deletion
  failed, only added routes are deleted, a family that is not incomplete has every host routed or
  the report of its loss on the way, and after `Destroy` exactly the routes are left whose deletion
  failed, so none if no deletion failed. After an update the families have the default gateways of
  the tables read, none is incomplete unless a table was unreadable or an addition refused, and a
  family that moved or was incomplete has got all its routes (`RouteMonitor.Monitor.Run`).
- **Adapter cache.** Any number of threads: whoever comes out of find holds an open adapter, one
  open adapter per name, none closed twice, and no deadlock; when no new call starts, every run is
  bounded by the work left, and all calls can be completed (`AdapterCache.Safety`, `NoDeadlock`,
  `CallsEnd`, `CallsComplete`). When a release returns, the name is not cached and every adapter it
  ever had is closed (`ReleaseReturns`); a find comes out with the adapter it met, or with a new one.
- **Ring log.** The polls of a follower return every line once and in order if and only if it
  keeps up and no line is stamped zero (`RingLog.FollowerSeesAll`). The bound is exact: with 2048
  or more lines between two polls the cursor, known only modulo 2048, makes the poll return their
  number modulo 2048.
- **TLS files.** What `CollectWSTLSFiles` stores, `ValidateWSTLSFiles` accepts, for any reader.
- **GUID.** Two configurations have the same hash input if and only if they agree on name, public
  key and sorted peers with allowed IPs in any order (`GuidInput.InputIffSameHashed`), and the order
  of peers is forgotten if and only if no key stands for two different peers
  (`GuidInput.ForgetsIffKeysTellPeers`), for every sorting algorithm that sees the keys only.
- **Runtime view.** Every setting and counter of a peer is what the lines of its block say
  (`UapiMeaning.RuntimeSays`), for exactly the answers described by `UapiAccept.ReaderAccepts`.
- **Order of names.** Numbers are in the order of numbers, texts in the order of strings, and numbers
  come first (`Names.NumberedNames`, `LetteredNames`, `NumbersFirst`).
- **Driver buffer, calls, kill switch, overlap.** See the table.

Three promises hold under a condition only, which is given exactly:

- A line stamped zero is skipped by `WriteTo` and stops a follower (`RingLog.ZeroStampedWrite`);
  queue and follower are complete if and only if no line concerned is stamped zero.
- Two peers with one key and different allowed IPs make the GUID depend on their order
  (`GuidInput.ExchangeShows`); it does not if and only if equal keys mean equal peers.
- The monitor ignores the errors of `DeleteRoute` and forgets the route
  (`RouteMonitor.Monitor.DeleteMine`); of the routes it added, `Destroy` leaves undeleted exactly
  those whose last deletion failed.

## Model

| member | source | states |
|---|---|---|
| `WgQuickInvariant.RoundTrip` | conf/parser.go:257-585 | every text that parses prints to a text that parses to the same configuration, with header, key and trailing comments |
| `WgQuickMeaning.ParseSays` | conf/parser.go:278-530 | for every accepted text there is one peer per [Peer] header; addresses, DNS entries and allowed IPs are the lists of all their lines in order, every other setting is that of the last line with its key, or the default |
| `WgQuickMeaning.LexEntry` | conf/parser.go:279-344 | however a line is spaced, it is read as its lower-cased key, its value and its comment |
| `WgQuickMeaning.LexScript` | conf/parser.go:337-344 | the value of a script runs to the end of the line, comment signs included |
| `WgQuickMeaning.LexBare` | conf/parser.go:279-334 | a line without equals sign is read as a header or a key without value |
| `WgQuickMeaning.EndpointText` | conf/parser.go:43-74 | an accepted endpoint is its host, or its IPv6 address in brackets, a colon and its port |
| `WgQuickMeaning.WSURLText` | conf/parser.go:99-123 | an accepted WebSocket URL has scheme, host and port, no user, and the endpoint is its host and port |
| `WgQuickAccept.ParserAccepts` | conf/parser.go:257-585 | a text is accepted if and only if the name is valid, every key line stands in a section and has a key and a value of it, there is a private key, and all peers have public keys and keep the WebSocket rules |
| `WgQuickComments.ParseNotes` | conf/parser.go:278-374 | for every accepted text the comments of every key, header and of the end are those of its lines in order, without needless blank lines |
| `WgQuickComments.PruneKeepsComments` | conf/parser.go:535-553 | pruning loses no comment |
| `WgQuickComments.CollapseTwo` | conf/parser.go:537-542 | a second blank line in a row makes no difference |
| `WgQuickInvariant.ParsedIsCanonical` | conf/parser.go:278-584 | whatever the parser accepts satisfies the invariant of printable configurations |
| `WgQuickInvariant.RunKeeps` | conf/parser.go:278-530 | every run over lines keeps the unpruned form of that invariant |
| `WgQuickInvariant.PruneIsPruned` | conf/parser.go:535-553 | pruning leaves no two blank lines in a row, no lone blank line, and no blank end where it was to drop it |
| `WgQuickInvariant.LexIsGood` | conf/parser.go:279-334 | the key, value and comment cut from any line are trimmed and free of the separators |
| `WgQuickRoundTrip.ParseShow` | conf/writer.go:19-113 | parsing undoes printing for every canonical configuration |
| `WgQuickInterface.ReadInterface` | conf/writer.go:42-73 | reading the printed interface section gives back the interface |
| `WgQuickPeer.ReadPeer` | conf/writer.go:75-106 | reading a printed peer section gives back the peer and notes no WebSocket key that was not printed |
| `WgQuickLaws.ReadEndpoint` | conf/parser.go:43-74 | parsing an endpoint undoes printing it |
| `WgQuickLaws.ParsedEndpointIsGood` | conf/parser.go:43-74 | whatever the endpoint parser accepts is such an endpoint |
| `WgQuickLaws.SplitJoin` | conf/parser.go:231-249 | splitting a list undoes joining it |
| `WgQuickText.PrintedIsTidy` | conf/parser_test.go:287-309 | the printed text of any accepted text neither begins with a blank line nor has two in a row |
| `WgQuickLoops.Reader.FinishPeer` | conf/parser.go:268-277 | checks and adds the peer being read and forgets the WebSocket keys noted for it; on an error nothing changes |
| `WgQuickLoops.Reader.ReadLine` | conf/parser.go:278-356 | one line does what the state machine says, or fails with its error |
| `WgQuickLoops.Reader.ReadInterfaceKey` | conf/parser.go:337-419 | one interface key with its comments |
| `WgQuickLoops.Reader.ReadPeerKey` | conf/parser.go:337-529 | one peer key with its comments and the WebSocket keys seen |
| `WgQuickLoops.Prune` | conf/parser.go:535-553 | the pruning loop computes the pruning function |
| `WgQuickLoops.PruneAll` | conf/parser.go:554-567 | pruning the comments of a section, keys in any order |
| `WgQuickLoops.Complete` | conf/parser.go:531-584 | what is left to do and to check after the last line |
| `WgQuickLoops.FromWgQuick` | conf/parser.go:257-585 | the whole parser computes the parsing function |
| `WgQuickLoops.Writer.WriteLine` | conf/writer.go:22-33 | comments, line and suffix are appended |
| `WgQuickLoops.Writer.WriteField` | conf/writer.go:34-40 | a key is printed when present or when a comment hangs on it |
| `WgQuickLoops.ToWgQuick` | conf/writer.go:19-113 | the whole printer computes the printing function |
| `WgQuickLoops.Reread` | conf/parser_test.go:287-302 | parse, print and parse with the loops themselves: the same result |
| `RouteMonitor.Monitor.Run` | tunnel/defaultroutemonitor.go:137-331 | any sequence of foreign changes, reports, updates, start and Destroy keeps ownership and coverage; after an update the families follow the tables read, with their routes; once destroyed, the routes left are exactly those whose deletion failed, none if no deletion failed in the run, and none is added |
| `RouteMonitor.Monitor.Act` | tunnel/defaultroutemonitor.go:137-331 | the same for one action |
| `RouteMonitor.Monitor.constructor` | tunnel/defaultroutemonitor.go:118-127 | the invariant holds at first, with no routes |
| `RouteMonitor.Monitor.Install` | tunnel/defaultroutemonitor.go:128-135 | fails if and only if a table is unreadable or an addition is refused, and then no route is left behind but those whose deletion failed; on success both families have the gateways of their tables, are complete and have got all their routes |
| `RouteMonitor.Monitor.StartWatching` | tunnel/defaultroutemonitor.go:137-163 | the first half of start keeps the invariant |
| `RouteMonitor.Monitor.BeginWatching` | tunnel/defaultroutemonitor.go:152-163 | from here deletions are reported; a family counts as covered if its host routes are intact then |
| `RouteMonitor.Monitor.FinishStart` | tunnel/defaultroutemonitor.go:164-177 | a failed second registration undoes the first |
| `RouteMonitor.Monitor.HostRouteDeleted` | tunnel/defaultroutemonitor.go:182-196 | a report marks exactly the family of the host incomplete and keeps coverage |
| `RouteMonitor.Monitor.Update` | tunnel/defaultroutemonitor.go:211-230 | nothing happens unless started; else every family whose table was read has its default gateway, without failure none is incomplete and one that moved or was incomplete has got all its routes; fails and reports a move exactly when that happened |
| `RouteMonitor.Monitor.UpdateLocked` | tunnel/defaultroutemonitor.go:235-285 | both families follow the default gateways of the tables given, unreadable ones stay; exactly when it fails and when something moved |
| `RouteMonitor.Monitor.UpdateFamily` | tunnel/defaultroutemonitor.go:238-283 | one family follows the default gateway of its table and gets its routes, or is left as it is |
| `RouteMonitor.Monitor.MoveFamily` | tunnel/defaultroutemonitor.go:247-282 | one family moves to its gateway, the other is untouched; without failure all hosts have got their routes, and it is covered from then on if the table is watched |
| `RouteMonitor.Monitor.AddHosts` | tunnel/defaultroutemonitor.go:262-282 | the family is complete, has got all its routes, and is covered if the table is watched, unless an addition was refused; what was added is owned |
| `RouteMonitor.Monitor.AddHost` | tunnel/defaultroutemonitor.go:266-274 | a row that existed already is not owned; without failure the host is routed |
| `RouteMonitor.Monitor.DeleteOwned` | tunnel/defaultroutemonitor.go:256-259 | tries to delete the owned routes through the previous gateway, forgets them, and keeps coverage of the rest; those whose deletion failed are stuck |
| `RouteMonitor.Monitor.DeleteMine` | tunnel/defaultroutemonitor.go:256-258 | only a route that this monitor added and has not deleted may be deleted; if that fails the row stays and the failure is counted |
| `RouteMonitor.Monitor.RemoveHostRoutes` | tunnel/defaultroutemonitor.go:306-315 | of the added routes exactly those are left whose deletion failed |
| `RouteMonitor.Monitor.BeginDestroy` | tunnel/defaultroutemonitor.go:317-327 | no later update does anything |
| `RouteMonitor.Monitor.EndDestroy` | tunnel/defaultroutemonitor.go:328-331 | the same after Destroy; none is left if none was stuck before and no deletion failed |
| `RouteMonitor.FindDefaultGateway` | tunnel/defaultroutemonitor.go:58-84 | the first default route of least combined metric among the candidates, or none if there is none; never through the tunnel itself, and with the interface, index and next hop of its row |
| `RouteMonitor.WebSocketServerHosts` | tunnel/defaultroutemonitor.go:88-113 | each server address of the family exactly once |
| `RouteMonitor.HostsOfBothFamilies` | tunnel/defaultroutemonitor.go:120-127 | the families share no host, and no server is missed |
| `AdapterCache.NextKeeps` | manager/ipc_driver.go:24-62 | every action of any thread keeps the invariant of locks, cache and adapters |
| `AdapterCache.RunKeeps` | manager/ipc_driver.go:24-62 | so does every run |
| `AdapterCache.Safety` | manager/ipc_driver.go:24-62 | in every reachable state: a thread out of find alone holds an open adapter of its name, one open adapter per name, none closed twice |
| `AdapterCache.ReleaseReleases` | manager/ipc_driver.go:51-62 | in every run, where a release is done, the name is not in the cache and no adapter of that name is open |
| `AdapterCache.ReleaseReturns` | manager/ipc_driver.go:51-62 | in every run, whenever a release returns, the name is not in the cache and every adapter of that name is closed, once |
| `AdapterCache.ReleaseClosesWhatWasThere` | manager/ipc_driver.go:51-62 | so an adapter that the cache had for the name at any time before is closed |
| `AdapterCache.FindReturnsTheCached` | manager/ipc_driver.go:24-39 | in every run, a find that meets an adapter in the cache comes out with that adapter |
| `AdapterCache.FindOpensANewOne` | manager/ipc_driver.go:40-48 | in every run, a find that meets none comes out with an adapter that did not exist before, or fails |
| `AdapterCache.FindReturns` | manager/ipc_driver.go:24-48 | a find ends with an adapter of its name or with the driver's failure |
| `AdapterCache.NoDeadlock` | manager/ipc_driver.go:24-62 | while a thread is inside a call, some thread inside a call can act |
| `AdapterCache.CallsEnd` | manager/ipc_server.go:69-80 | a run without new calls is no longer than the work left |
| `AdapterCache.CallsComplete` | manager/ipc_server.go:69-80 | from every reachable state all calls can be completed |
| `RingLog.LogMem.constructor` | ringlogger/ringlogger.go:82-95 | zeroed memory is an empty log |
| `RingLog.LogMem.Render` | ringlogger/ringlogger.go:127-149 | the bytes of a slot: the bracketed tag and the message cut to 511 bytes, then zeros |
| `RingLog.LogMem.Put` | ringlogger/ringlogger.go:127-151 | one write appends one line to the log, whatever the 32-bit counter, and keeps the slots in step |
| `RingLog.LogMem.Dump` | ringlogger/ringlogger.go:154-177 | the visible lines among the last 2048, oldest first, as many as the writer takes |
| `RingLog.LogMem.Follow` | ringlogger/ringlogger.go:186-222 | the lines since the cursor and the next cursor, for any cursor and any stamps |
| `RingLog.Ringlogger.Open` | ringlogger/ringlogger.go:48-80 | null if and only if the file cannot be mapped or the tag is too long; an inherited mapping is only read |
| `RingLog.Ringlogger.WriteWithTimestamp` | ringlogger/ringlogger.go:113-152 | results and effect in all cases: read-only, blank, closed, written |
| `RingLog.Ringlogger.FollowFromCursor` | ringlogger/ringlogger.go:186-222 | the poll, also of a closed log |
| `RingLog.Ringlogger.WriteTo` | ringlogger/ringlogger.go:154-177 | the dump, also of a closed log |
| `RingLog.Trimmed` | ringlogger/ringlogger.go:118-121 | trimming takes only white space, and all of it on both sides |
| `RingLog.LogIsQueue` | ringlogger/ringlogger.go:154-177 | the log is a bounded queue, giving the last min(n, 2048) lines oldest first, if and only if none of them has a zero timestamp |
| `RingLog.PollFetches` | ringlogger/ringlogger.go:186-222 | a poll returns the newest pending lines: all, or their number modulo 2048, if none of the pending ones has a zero timestamp |
| `RingLog.FollowerSeesAll` | ringlogger/ringlogger.go:179-222 | for every interleaving of writes, by processes with any tags, and polls: the polls return all lines once and in order if and only if the follower keeps up and none of the lines has a zero timestamp |
| `RingLog.ReaderSeesAll` | ringlogger/ringlogger.go:179-222 | the same for a reader that starts from CursorAll on any log |
| `RingLog.PolledIsStamped` | ringlogger/ringlogger.go:200-220 | no poll ever returns a line with a zero timestamp |
| `RingLog.ZeroStampSkipped` | ringlogger/ringlogger.go:161-164 | the dump skips a line with a zero timestamp |
| `RingLog.ZeroStampStops` | ringlogger/ringlogger.go:205-213 | a follower that has come to such a line gets nothing more and stays there until its slot is written again |
| `RingLog.ZeroStampedWrite` | ringlogger/ringlogger.go:113-152 | one write stamped zero and one poll: the follower keeps up and sees nothing |
| `RingLog.Replay` | ringlogger/dump.go:40-53 | the events carried out on one shared log return what the theorem is about |
| `GlobalLog.GlobalWriter.Write` | ringlogger/global.go:39-60 | ends even when entered with a full buffer; messages and buffer together are the bytes written; every message has a newline or is full |
| `GlobalLog.GlobalWriter.WriteAll` | ringlogger/global.go:33-60 | the same for any sequence of calls |
| `GlobalLog.ChunkIsNotCut` | ringlogger/ringlogger.go:137-141 | no message of the writer is long enough to be cut |
| `TlsNames.Sanitize` | conf/wstls.go:56-80 | the loop computes the sanitised name |
| `TlsNames.SanitizedIsValid` | conf/wstls.go:56-80 | the result is a valid stored name, and exactly the valid names stay as they are |
| `TlsNames.CleanedKeepsPlaces` | conf/wstls.go:58-64 | letters, digits, underscores, hyphens and dots stay in their places; an underscore stands for every other character |
| `TlsNames.SanitizedKeepsPlaces` | conf/wstls.go:56-80 | the same for the whole of a short name without dots at its ends, with an underscore in front if it is reserved |
| `TlsNames.CandidatesDiffer` | conf/wstls.go:93-99 | truncation and lower case never make two candidates the same |
| `TlsNames.CandidateIsValid` | conf/wstls.go:93-99 | a candidate of a valid name is valid, hence not reserved and at most 64 long |
| `TlsNames.Unique` | conf/wstls.go:84-104 | ends within one more candidate than names taken, with the first that is free; valid names stay valid |
| `TlsFiles.TlsConfig.ClaimStored` | conf/wstls.go:143-155 | stored names are claimed, with one spelling for all letter cases |
| `TlsFiles.TlsConfig.NameOf` | conf/wstls.go:158-164 | a reference has the name it had or a new one that clashes with none |
| `TlsFiles.TlsConfig.Take` | conf/wstls.go:165-177 | reads a file once per name; errors for unreadable and too large files |
| `TlsFiles.TlsConfig.Collect` | conf/wstls.go:138-182 | success leaves a configuration the validator accepts; two references share a name only if equal, or valid and equal up to case; the contents were read from a reference of that name; failure leaves the files unchanged |
| `TlsFiles.TlsConfig.Validate` | conf/wstls.go:187-216 | accepts if and only if the files are exactly the referenced ones, valid, small and few, and every other reference a local path |
| `TlsFiles.CollectedIsAccepted` | conf/wstls.go:138-216 | the invariant of the collecting loop implies acceptance |
| `GuidInput.InputIffSameHashed` | tunnel/deterministicguid.go:30-99 | equal input if and only if equal name, key and sorted peers with allowed IPs in any order, without condition on the keys |
| `GuidInput.InputIffSameTunnel` | tunnel/deterministicguid.go:30-99 | equal input if and only if equal name, key and peers with allowed IPs in any order, when no key stands for two different peers |
| `GuidInput.Decodes` | tunnel/deterministicguid.go:30-99 | the input can be decoded in one way only |
| `GuidInput.Forgets` | tunnel/deterministicguid.go:76-97 | then the order of peers and of allowed IPs does not matter, whatever the sorting algorithm |
| `GuidInput.ForgetsIffKeysTellPeers` | tunnel/deterministicguid.go:76-97 | every order of the same peers gives the same input if and only if peers with the same key have the same allowed IPs |
| `GuidInput.SomeOrderShows` | tunnel/deterministicguid.go:76-97 | otherwise there is an order of the same peers with another input, whatever the sorting algorithm |
| `GuidInput.ExchangeShows` | tunnel/deterministicguid.go:76-97 | exchanging two peers of a list that have one key and different allowed IPs changes the input, whatever the sorting algorithm |
| `GuidInput.OrderOfTwoShows` | tunnel/deterministicguid.go:78-80 | the same for a list of just two peers |
| `GuidInput.InputDeterminesName` | tunnel/deterministicguid.go:63-73 | in either mode the input determines an ASCII name |
| `GuidInput.ModesDiffer` | tunnel/deterministicguid.go:22-25 | the two modes never hash the same bytes |
| `GuidInput.Feed` | tunnel/deterministicguid.go:48-99 | the bytes written step by step are the input |
| `GuidInput.PeersInOrder` | tunnel/deterministicguid.go:77-80 | the peers are hashed in the order of the first byte in which their keys differ |
| `GuidInput.IpsInOrder` | tunnel/deterministicguid.go:83-92 | allowed IPs are hashed IPv4 first, then by length, then by address |
| `Sorting.SortedIsUnique` | tunnel/deterministicguid.go:77-93 | sorting by an order that separates the elements has one result, so the algorithm does not matter |
| `DriverBuffer.BufferRoundTrip` | conf/parser.go:604-669 | the walk stays inside the buffer, ends at its end, and gives back interface, keys, keepalive, addresses and prefixes in order |
| `DriverBuffer.WalkPeers` | driver/configuration_windows.go:134-142 | the offset walk visits exactly the appended peers |
| `DriverBuffer.WalkIps` | driver/configuration_windows.go:144-152 | and exactly their allowed IPs |
| `DriverBuffer.PeerRoundTrip` | conf/parser.go:632-650 | a peer record reads back as what the driver can know of the peer |
| `DriverBuffer.FilledRoundTrip` | conf/parser.go:632-650 | arbitrary counters and handshake times filled in by the driver are read from their own places, next to the peer's settings |
| `DriverBuffer.SockaddrRoundTrip` | tunnel/winipcfg/types.go:754-818 | address, numeric zone and port survive the raw socket address |
| `DriverBuffer.IpRoundTrip` | conf/parser.go:651-665 | an allowed IP survives its record |
| `DriverBuffer.ToDriver` | conf/writer.go:115-161 | the buffer is the concatenated records, as long as was reserved |
| `DriverBuffer.FromDriver` | conf/parser.go:604-669 | the loops over peers and allowed IPs compute the reading function, counters and handshake times included |
| `DriverBuffer.ThereAndBack` | conf/writer.go:115-161 | writing and reading with the loops themselves |
| `Rpc.HalvesAgree` | manager/ipc_client.go:216-449 | for every method, what one side encodes is what the other decodes |
| `Rpc.NextKeeps` | manager/ipc_server.go:300-466 | every action is well typed and keeps the balance: replies on the way and owed are those the current call awaits |
| `Rpc.Safety` | manager/ipc_client.go:216-457 | in every run every value is decoded into its type, the reply stream is empty while the mutex is free, and a call returns what the service returned for it |
| `Rpc.NoDeadlock` | manager/ipc_server.go:300-466 | while a call is under way, client or server can act |
| `Uapi.FromUAPI` | conf/uapi.go:118-290 | the loop computes the runtime view |
| `UapiMeaning.RuntimeSays` | conf/uapi.go:161-271 | for every accepted answer the peers are, in some order, what the blocks say: keys, endpoint, keepalive and counters of the last line of their name, all allowed IPs in order, the wrapped sum of the handshake times; key and port of the interface are those before the first block |
| `UapiAccept.ReaderAccepts` | conf/uapi.go:161-271 | an answer is accepted if and only if it ends in an empty line and every line has a name and a value its part can have |
| `Uapi.ReadKeys` | conf/uapi.go:161-271 | the peers read have the listed keys, in order |
| `Uapi.ReadWS` | conf/uapi.go:135-160 | every peer read has the stored WebSocket settings of its key |
| `Uapi.StoredOrder` | conf/uapi.go:272-289 | if the answer lists the stored peers in any order, position i is stored peer i with its WebSocket settings, and nothing else of the peers changes |
| `Uapi.RedactedKeysMatch` | conf/config.go:292-308 | after redaction on both sides, equal keys mean the same peer |
| `Uapi.RedactPeers` | conf/config.go:299-305 | the loop redacts every peer in place |
| `Uapi.RedactionHides` | conf/config.go:292-308 | two configurations have the same redacted form if and only if they agree on what may be shown, whatever their keys, scripts, bearers and comments |
| `KillSwitch.OnCovers` | ui/editdialog.go:209-247 | switching on keeps the addresses covered |
| `KillSwitch.OffCovers` | ui/editdialog.go:248-274 | switching off keeps the addresses covered |
| `KillSwitch.ToggleKeepsDefaultRoute` | tunnel/defaultroutemonitor.go:336-360 | the rewriting keeps the default route of both families |
| `KillSwitch.ToggleDecides` | tunnel/addressconfig.go:165-177 | the firewall restricts after switching on, if the table is not off, and not after switching off |
| `KillSwitch.ToggledText` | ui/editdialog.go:198-275 | the editor's new text parses to exactly the rewritten configuration |
| `KillSwitch.SwitchOn` | ui/editdialog.go:210-247 | the loop with its flags computes the rewriting, or refuses |
| `KillSwitch.SwitchOff` | ui/editdialog.go:248-274 | likewise for switching off |
| `KillSwitch.DoNotRestrict` | tunnel/addressconfig.go:166-174 | the loop decides by the whole-family prefixes of a single peer; never with several peers or the table off |
| `KillSwitch.HasDefaultRoute` | tunnel/defaultroutemonitor.go:336-360 | the flags say whether a whole family or both its halves are among all allowed IPs |
| `Routes.IntersectsWith` | conf/config.go:111-138 | true if and only if the two tunnels have a route in common |
| `Routes.OverlapIsIntersection` | conf/config.go:111-138 | that is, if their route sets meet |
| `Routes.AskBoth` | conf/config.go:111-138 | the answer is the same whichever tunnel is asked |
| `Routes.Deduplicate` | conf/config.go:248-290 | in place, the first of equal entries stay, in order |
| `Routes.FirstsOfPrefix` | conf/config.go:248-290 | what is kept of the first entries stays in front, so the order is that of first occurrence |
| `Routes.FirstsDiffer` | conf/config.go:248-290 | no two entries left are equal |
| `Routes.FirstsAreIn` | conf/config.go:248-290 | no entry is lost or invented |
| `Routes.DeduplicateNetworkEntries` | conf/config.go:248-290 | the loops over addresses, DNS servers and the allowed IPs of every peer keep the first of equal entries and change nothing else |
| `Routes.DeduplicationKeepsOverlap` | conf/config.go:248-290 | the result of those loops overlaps with the same tunnels as before |
| `Names.NameOrder` | conf/name.go:63-110 | the name order is irreflexive and transitive, and does not tell apart exactly the names with equal tokens |
| `Names.NumberedNames` | conf/name.go:79-110 | names with the same beginning and a number behind it are in the order of the numbers |
| `Names.LetteredNames` | conf/name.go:79-110 | names without digits are in the order of strings |
| `Names.NumbersInOrder` | conf/name.go:79-84 | after equal runs, runs of digits decide as numbers |
| `Names.NumbersFirst` | conf/name.go:79-87 | after equal runs, a number comes before anything else, also before digits too large for 64 bits |
| `Names.WordsInOrder` | conf/name.go:86-90 | after equal runs, runs without digits decide as strings |
| `Names.RunsAreWhole` | conf/name.go:66-67 | the runs make up the text, each all digits or none |
| `Names.NewNaturalSortString` | conf/name.go:63-76 | fills the tokens |
| `Names.TunnelNameIsLess` | conf/name.go:93-110 | the loop decides the order |

## Left out

- Windows API calls, services, tokens, DPAPI, file access control, registry and DLL loading: their results are arbitrary inputs where a core step needs them.
- User interface, tray, dialogs and translations, other than the rewriting of allowed IPs.
- The codecs of net/netip, base64, net/url, hex, gob and Unicode normalisation: parameters with stated laws; blake2s is left out.
- Texts of error messages: an error is its kind, without the offending text.
- Invalid UTF-8: a string is a sequence of Unicode characters.
- FromWgQuickWithUnknownEncoding, the redaction of WebSocket URLs and the sizes and times shown to users.
- The inside of a ring-log write as concurrent steps: the code documents races there, so a complete write is one step.
- The time format of dumped log lines.
- Burst timers, socket pinning and rebinding of the route monitor: updates happen at any moment; pinning only succeeds or fails.
- If someone else deletes an owned route and adds the identical one, `owned` still names it; ownership is stated against the routes the monitor added.
- RouteMonitor.Monitor.Update: a route lost between the first installation and the registration of the callback is not reported, so a family that did not move since then is covered only if its routes were intact at the registration.
- WgQuickMeaning.WSURLText: the host and port of a URL are those the library reports, if the port has no colon.
- Transport errors of the calls, and the notification stream.
- Padding bytes of the driver's records are taken as zero.
- `filepath.Base` is a parameter of the collection of TLS files; the readers of files and archives are arbitrary.
- ToUAPI: the set and get dialects differ, so no round trip is intended.
- DriverBuffer.BufferRoundTrip: asks for a total size below 2^32, the width in which the size is passed to the driver.
- GuidInput.InputIffSameTunnel: asks for lengths below 2^32, beyond which the code panics; that sort.Slice computes the new order from the comparisons of keys alone is the hypothesis `Sorts`.
