# begonia core, modelled in Dafny

begonia is a Go framework for game back ends built on gRPC. This project
models its routing and bookkeeping core and proves properties of it:

- request routing: the gRPC resolver and its gray-release filter, the proxy
  directors, the `specify` and consistent-hash pickers, and the transparent
  stream proxy;
- the gate's frame formats;
- the runtime's component container and service settings;
- the two discovery back ends (file-based and configuration-based);
- the bootstrap route, service and context registrars;
- the Redis driver's Lua scripts, its script-digest retry and its hooks;
- the `pkg` helpers (slicemap, cmap, the pub/sub broker's bookkeeping,
  types.List, errorsx, netx).

The Dafny modules follow the Go packages, one module per `.dfy` file. A
package directory usually maps to one module: the pkg/slicemap files form
`SliceMap`, and pkg/netx is `Netx`. driver/redis/redis.go is split three
ways: `RedisStore` holds what its Lua scripts do on the server, `RedisClient`
holds the script helpers, and `RedisHooks` holds the client hook. The
modules are written in these forms:

- Code that mutates state (registries, settings, streams, the broker, the
  Redis client) is a `class`. Its methods carry `modifies` clauses and
  state the whole new state.
- Loops in the source are `while` loops with invariants. Each such method
  is proved equal to a specification function.
- Pure code is made of functions and lemmas.
- A Go panic in the modelled code is an explicit error value (`Err(...)`,
  `Panic(...)`), never a precondition. Panics inside code passed in as a
  parameter, such as semantic-version parsing, are not modelled (see "Left
  out").
- Go's integer widths are written out where they matter: `uint8` app ids,
  `uint32` and `int64` parsing, 32-bit frame fields.

Two shared modules hold the helpers: `Wrappers` (Option, Result) and
`Text` (trim, cut, split, join, lower-casing, decimal parsing and
formatting).

Calls into code that is not visible here are parameters of the model: the
hash ring's `GetNode`, a version-string parser, a bootloader's flag
parser, a handler function.

## Model

| member | source | states |
|---|---|---|
| GrpcDirector.FirstValue | grpcx/grpcdirector/utils.go:27-35 | reading `md[key][0]`: nothing for an absent key, the first value otherwise, and the index panic for a present key with no values |
| GrpcDirector.ResolveAppName | grpcx/grpcdirector/utils.go:26-46 | an empty `sgr-app-id` list panics. Otherwise appID is its first value, or "" without the key. An empty `sgr-app-name` list panics, and a non-empty one gives its first value as appName and succeeds. Without that key, one leading "/" is trimmed and the part before the next "/" is taken: no "/" is the fullMethodName panic, no "." in that part is the slice panic, and otherwise appName is that part up to its last "." |
| GrpcDirector.NameBeforeLastDot | grpcx/grpcdirector/utils.go:37-45 | for every input resolved from the method name, the service part is appName + "." + a rest without ".", and the service part has no "/" |
| GrpcDirector.ResolveFromMethodName | grpcx/grpcdirector/utils.go:37-45 | for `/pkg.Service/Method` and no metadata keys, the app name is exactly `pkg` and the app id "" |
| GrpcDirector.ResolveExample | grpcx/grpcdirector/utils.go:37-44 | `/mtx.sample.v1.Sample/TestUnary` resolves to `mtx.sample.v1`, as the source's comment shows |
| GrpcDirector.ProxyBalancer | grpcx/grpcdirector/proxy_director.go:24-34 | a non-empty app id gives "AppID." + id. Otherwise the balancer is the first `sgr-balancer` value, "" without the key, and a panic when the key has no values |
| GrpcDirector.ProxyDirect | grpcx/grpcdirector/proxy_director.go:20-38 | a resolve panic propagates. Otherwise the outgoing metadata is the incoming copy, and the connection and error are exactly what clientFunc returns for the resolved app and balancer |
| GrpcDirector.ReverseProxyDirector.Director | grpcx/grpcdirector/reverseproxy_director.go:24-36 | another app's call is refused with Unimplemented "Unknown method" and no context or connection; the own app gets the fixed upstream and the copied metadata |
| GrpcDirector.ReverseIgnoresAppID | grpcx/grpcdirector/reverseproxy_director.go:28 | changing `sgr-app-id` changes neither whether the call is accepted nor the connection returned |
| SpecifyPicker.Build | grpcx/balancer/specify/specify.go:27-29 | the picker holds exactly the ready sub-connections with their infos |
| SpecifyPicker.FirstOrEmpty | grpcx/balancer/specify/specify.go:63-68 | the first element, or "" for an empty list |
| SpecifyPicker.ParsePolicy | grpcx/balancer/specify/specify.go:37-48 | missing metadata, an empty policy and a policy without "=" each give InvalidArgument with their own message. Otherwise the policy is key "=" value, split at the first "=" |
| SpecifyPicker.ParsePolicyOfPair | grpcx/balancer/specify/specify.go:41-48 | a first `Specify-Policy` value `key=value` with "=" not in key parses to exactly (key, value) |
| SpecifyPicker.Pick | grpcx/balancer/specify/specify.go:35-61 | a policy error is returned as a status. A picked sub-connection's string attribute under the key equals the value. ErrNoSubConnAvailable is returned exactly when no sub-connection matches |
| ConsistentHash.PickOutcome | grpcx/balancer/chash/picker.go:51-70 | no string key in the context gives ErrNoSubConnAvailable. The pick succeeds exactly when the ring names a node that is a known sub-connection, and it is that node's sub-connection |
| ConsistentHash.ConsistentHashPicker.constructor | grpcx/balancer/chash/picker.go:24-35 | the ring is built from exactly the keys of subConns; no reporting |
| ConsistentHash.ConsistentHashPicker.WithReportChan | grpcx/balancer/chash/picker.go:37-49 | the same picker, with reporting on |
| ConsistentHash.ConsistentHashPicker.Pick | grpcx/balancer/chash/picker.go:51-70 | the result is PickOutcome. One report is sent exactly when reporting is on and the ring found a node; it carries the key and the looked-up sub-connection, nil when unknown |
| GrpcProxy.RelayCount | grpcx/grpcproxy/handler.go:96-109 | how many frames a relay loop forwards: all that remain when the destination accepts them all, otherwise exactly as many as it has room for |
| GrpcProxy.S2CError | grpcx/grpcproxy/handler.go:94-110 | the server-to-client relay returns nil exactly when every remaining frame was forwarded and the source ended with io.EOF. Otherwise it returns the send error or the receive error that stopped it |
| GrpcProxy.C2SError | grpcx/grpcproxy/handler.go:112-146 | the client-to-server result: a failing first receive is returned as is, even io.EOF. A Header() error or a SendHeader error comes next. After that, the rest of the relay behaves like the other direction |
| GrpcProxy.Relay | grpcx/grpcproxy/handler.go:96-109 | the shared receive/send loop. The destination gains exactly the next RelayCount source frames, in order. The error is the one that ended the loop, and the loop records whether a receive or a send ended it |
| GrpcProxy.ForwardServerToClient | grpcx/grpcproxy/handler.go:94-110 | the error is S2CError. The client stream receives the relayed frames, followed by CloseSend exactly when the result is nil |
| GrpcProxy.ClientToServerBody | grpcx/grpcproxy/handler.go:119-145 | the error is C2SError. The server stream receives the backend header and then the relayed frames, and only when the first receive, Header() and SendHeader all succeed |
| GrpcProxy.RelayAfterFirst | grpcx/grpcproxy/handler.go:132-145 | after the first frame has been sent, the remaining loop completes the same relay and error as one relay started before that frame |
| GrpcProxy.ForwardClientToServer | grpcx/grpcproxy/handler.go:112-146 | ClientToServerBody, followed on every path by the deferred SetTrailer with the backend's trailer |
| GrpcProxy.Handle | grpcx/grpcproxy/handler.go:54-92 | a missing method name gives an Internal status, and a director error or a stream-opening error is returned unchanged, with the server stream untouched in all three cases. Otherwise an s2c failure wins as Internal "failed proxying s2c: …", then the c2s error, else nil. The trailer is always the last thing set |
| GrpcProxy.FirstReceiveEofIsError | grpcx/grpcproxy/handler.go:120-122 | a backend that ends before its first message makes the client-to-server direction return io.EOF as an error |
| GrpcProxy.S2CSucceedsOnEof | grpcx/grpcproxy/handler.go:97-102 | when the client stream accepts everything, the server-to-client direction succeeds exactly when the caller's stream ends with io.EOF |
| Gate.Uint32Of | gate/parser.go:121 | Go's `uint32(int32)` conversion: a non-negative value is unchanged, a negative one wraps around by 2^32 |
| Gate.GetAppId | gate/gate.go:35-37 | for a non-negative message id, the app id is bits 16-23: `(id / 65536) % 256` |
| Gate.IsClusterRange | gate/gate.go:39-41 | an app id is a cluster exactly when it is the gate (1) or has its top bit set (128 and above) |
| Gate.AppIdOfLayout | gate/gate.go:35-37 | for every byte app id, the 32-bit word app id × 65536 + a 16-bit low part, read as an int32 (negative from app id 128 on), gives that app id back |
| Gate.GetAppIdExamples | gate/gate.go:15-19 | the message ids 0x10001, 0x20001 and 0x30001 used in the gate's protocol tests carry app ids 1, 2 and 3 |
| Gate.GateIdsAreGateMessages | gate/gate.go:15-33 | all five gate message ids (author, author result, ping, pong, error) count as gate messages |
| GateParser.BigEndianRoundTrip | gate/parser.go:101 | reading back the k-byte big-endian form of n < 256^k gives n |
| GateParser.Int32Of | gate/parser.go:112 | `int32(Uint32(...))` gives a value in int32 range that `uint32` maps back to the same word |
| GateParser.Int64Of | gate/parser.go:210 | `int64(Uint64(...))` gives a value in int64 range that `uint64` maps back to the same word |
| GateParser.FrameOf | gate/parser.go:117-126 | the frame's length is the frame size truncated to 32 bits. Without overflow, the frame is the 4-byte big-endian size, then the id field, then the buffer |
| GateParser.ParseMessage | gate/parser.go:108-115 | a frame whose length, truncated to 32 bits as `uint32(len(frame))` does, is below 8 gives (0, nil, false). Otherwise the result is ok, with bytes 4-8 as the int32 message id and the rest as data |
| GateParser.ParseRouter | gate/parser.go:206-214 | a frame whose length, truncated to 32 bits, is below 12 gives (0, nil, false). Otherwise the result is ok, with bytes 4-12 as the int64 user id and the rest as data |
| GateParser.FrameFields | gate/parser.go:117-126 | a wrapped frame splits back into its size, id and buffer fields |
| GateParser.MessageFrameLength | gate/parser.go:117-126 | a message frame holds its own length in its first four bytes, and that length is the buffer length plus 8 |
| GateParser.WrappedFrameReadsBack | gate/parser.go:73-98 | a wrapped frame in a byte stream announces its own length, and that length passes the minimum-length check |
| GateParser.MessageRoundTrip | gate/parser.go:108-126 | Parse(Wrap(id, buf)) == (id, buf, true) whenever the frame size fits 32 bits |
| GateParser.RouterRoundTrip | gate/parser.go:206-225 | Parse(Wrap(userId, buf)) == (userId, buf, true) whenever the frame size fits 32 bits |
| GateParser.DecodeAuthorFrame | gate/parser.go:234-245 | ok exactly when the frame parses with user id 0, a 2-byte payload and a cluster app id. Then the result is those two bytes; otherwise (0, 0, false) |
| GateParser.AuthorRoundTrip | gate/parser.go:227-245 | decoding an author frame gives (appId, clusterId, true) exactly when appId is a cluster, and (0, 0, false) otherwise |
| GateParser.WrapInto | gate/parser.go:117-126 | the allocated array holds exactly FrameOf's bytes, and the wrap fails exactly when FrameOf does |
| GateParser.Reader.ReadFull | gate/parser.go:76-93 | io.ReadFull into buf[from..] leaves bytes before `from` alone. With enough input it copies the next bytes and advances. Otherwise it consumes everything and reports EOF when nothing was there, else ErrUnexpectedEOF |
| GateParser.ReadFrame | gate/parser.go:73-98 | a short header gives EOF or ErrUnexpectedEOF. A length at or above the maximum, or below the minimum, gives ErrorWrongLength after 4 bytes. A complete frame is returned whole, header included, with the reader just past it. A body shorter than the length gives EOF when no body byte is left, ErrUnexpectedEOF otherwise |
| GateParser.MessageFrameParser.ReadOneFrame | gate/parser.go:73-98 | the whole ReadFrameOutcome with the 8-byte message minimum: EOF or ErrUnexpectedEOF on a short header or a short body, ErrorWrongLength for a length outside [8, maxFrameSize), otherwise the next `length` bytes, all consumed |
| GateParser.MessageFrameParser.Wrap | gate/parser.go:117-126 | the array holds exactly MessageFrame's bytes |
| GateParser.RouterFrameParser.ReadOneFrame | gate/parser.go:171-196 | the whole ReadFrameOutcome with the 12-byte router minimum: EOF or ErrUnexpectedEOF on a short header or a short body, ErrorWrongLength for a length outside [12, maxFrameSize), otherwise the next `length` bytes, all consumed |
| GateParser.RouterFrameParser.Wrap | gate/parser.go:216-225 | the array holds exactly RouterFrame's bytes |
| GateParser.RouterFrameParser.CreateAuthorFrame | gate/parser.go:227-232 | the frame is Wrap(0, [appId, clusterId]), and it decodes back when appId is a cluster |
| HeaderMetadata.AddMetadata | bootstrap/header/metadata.go:20-28 | keys md does not touch keep their outgoing values. Each lower-case key of md gets md's values appended after the existing ones. A context without outgoing metadata stays without it exactly when md adds no values |
| HeaderMetadata.AppendValues | bootstrap/header/metadata.go:21-25 | the values of one key are appended in order under the lower-cased key, and every other key is unchanged |
| HeaderMetadata.GetMetadataKey | bootstrap/header/metadata.go:34-46 | found exactly when there is outgoing metadata with a value under the key; then it is the first value |
| HeaderMetadata.GetMetadataUID | bootstrap/header/metadata.go:48-60 | present only when the `userId` value parses as a base-10 int64, and then it is that value |
| HeaderMetadata.ClusterKey | bootstrap/header/metadata.go:133 | the key has the form `APP-<appid>-<userId>` |
| HeaderMetadata.GetClusterId | bootstrap/header/metadata.go:132-144 | present exactly when the `APP-…` value parses as a uint64; the result is that value truncated to uint8 |
| HeaderMetadata.PairsAllLower | bootstrap/header/metadata.go:148 | metadata.Pairs yields only lower-case keys, so AddMetadata appends all of its values |
| HeaderMetadata.AddPair | bootstrap/header/metadata.go:146-163 | adding one pair makes a first lookup of the key return the value when the key had none, and leaves an earlier first value in place |
| HeaderMetadata.SetMetadataUID | bootstrap/header/metadata.go:146-149 | GetMetadataUID then returns uid when no `userId` was set before; an existing value wins otherwise |
| HeaderMetadata.SetClusterId | bootstrap/header/metadata.go:159-163 | GetClusterId then returns the cluster id when the key was unset; an existing value wins otherwise |
| GrpcMetadata.Pairs | bootstrap/header/metadata.go:148 | metadata.Pairs(key, v) holds the one lower-cased key, and Get returns [v] under it |
| GrpcMetadata.Append | bootstrap/header/metadata.go:23 | AppendToOutgoingContext adds v after the existing values of the lower-cased key and leaves every other key alone |
| GrayRelease.EntryLess | grpcx/grpcresolver/grayrelease.go:24-30 | the sort's comparison: ascending semantic-version precedence for policy ≤ 0, descending otherwise |
| GrayRelease.EntryLessIsStrictWeak | grpcx/grpcresolver/grayrelease.go:24-30 | both comparisons are strict weak orders, so the sort's result is ordered |
| GrayRelease.TakeVersion | grpcx/grpcresolver/grayrelease.go:33-39 | the longest prefix whose entries all carry version v |
| GrayRelease.LeadingRun | grpcx/grpcresolver/grayrelease.go:31-40 | the first entry and every following entry with the same version string, stopping at the first different one |
| GrayRelease.LeadingRunUnique | grpcx/grpcresolver/grayrelease.go:31-40 | any prefix that has the first version throughout and is followed by another version is exactly the leading run |
| GrayRelease.FilterServiceEntry | grpcx/grpcresolver/grayrelease.go:20-41 | an empty slice comes back empty and untouched. Otherwise the caller's slice is left sorted in place, and the result is the leading run of the sorted slice |
| GrayRelease.GrayReleaseHandle | grpcx/grpcresolver/grayrelease.go:10-18 | "old_version" filters by ascending and "latest_version" by descending version, with the caller's slice sorted in place. Any other policy returns the slice untouched |
| GrayRelease.UnknownPolicyIsIdentity | grpcx/grpcresolver/grayrelease.go:17 | a policy other than the two names selects every entry |
| GrayRelease.FilteredShape | grpcx/grpcresolver/grayrelease.go:20-41 | a non-empty input keeps a non-empty sub-multiset sharing one version, and no input entry orders before the first kept one (the oldest, or the newest) |
| GrayRelease.SingleVersionKeepsAll | grpcx/grpcresolver/grayrelease.go:20-41 | when all entries share one version string, the filter keeps them all, in order |
| GrayRelease.FilteredIdempotent | grpcx/grpcresolver/grayrelease.go:20-41 | filtering twice is filtering once |
| ResolverConfig.LastKeyIndex | grpcx/grpcresolver/config.go:11-18 | the last index holding the key, or -1 when none does |
| ResolverConfig.LastValue | grpcx/grpcresolver/config.go:10-20 | "" when the key never occurs |
| ResolverConfig.ParseServiceConfig | grpcx/grpcresolver/config.go:10-20 | the loop returns, for each of the two keys, the value of its last item, "" when absent |
| ResolverConfig.LastItemWins | grpcx/grpcresolver/config.go:12-17 | appending an item for one key sets that field to its value and leaves the other field unchanged |
| ResolverConfig.OtherKeysIgnored | grpcx/grpcresolver/config.go:12-17 | items with any other key change nothing |
| ResolverConfig.NoItemsNoConfig | grpcx/grpcresolver/config.go:10-20 | no items give the zero ServiceConfig |
| ResolverConfig.ParseResolverTarget | grpcx/grpcresolver/target.go:16-33 | an empty host is "Invalid Authority", and an empty path then "Invalid Endpoint". Otherwise the service name is the host and the target is kept, with empty instance name and domain |
| ResolverConfig.QueryGet | grpcx/grpcresolver/resolver.go:56 | url.Values.Get: the first value of the key, "" when absent or empty |
| ResolverConfig.Equal | grpcx/grpcresolver/util.go:5-20 | the type assertion and the key loop answer exactly MetadataEqual: false for a value that is not Metadata, otherwise true exactly when every key of the receiver is present in the other map with the same value |
| ResolverConfig.MetadataEqualTrans | grpcx/grpcresolver/util.go:5-20 | Equal is transitive across Metadata values |
| ResolverConfig.MetadataEqualLaws | grpcx/grpcresolver/util.go:5-20 | Equal is reflexive, the empty map equals any Metadata, extra keys on the other side do not matter, and a non-Metadata value is never equal |
| ResolverConfig.MetadataEqualNotSymmetric | grpcx/grpcresolver/util.go:10-18 | Equal is not symmetric: {} equals {a: b} but not the other way round |
| Resolver.LastPrefixed | grpcx/grpcresolver/resolver.go:97-101 | the last endpoint with the schema prefix, -1 when none has it |
| Resolver.EndpointScanIsLastPrefixed | grpcx/grpcresolver/resolver.go:96-101 | the endpoint loop keeps the last prefixed endpoint, stripped of the schema |
| Resolver.LastPrefixedShift | grpcx/grpcresolver/resolver.go:97-101 | the last prefixed index of a list, in terms of the index in its tail |
| Resolver.ChooseEndpoint | grpcx/grpcresolver/resolver.go:96-104 | the address is the last schema-prefixed endpoint with the prefix removed. When that is empty and there is exactly one endpoint, it is that endpoint as it stands. With no prefixed endpoint and not exactly one endpoint, it is "" |
| Resolver.EntryAttributes | grpcx/grpcresolver/resolver.go:91-95 | the attributes hold "id", "name" and every metadata key. Metadata values win over id and name |
| Resolver.Addresses | grpcx/grpcresolver/resolver.go:89-112 | one address per entry, in order, each with the service name as server name and the same attributes for both attribute fields |
| Resolver.StateOf | grpcx/grpcresolver/resolver.go:113-122 | the state holds the addresses and the attribute resolver=sgr. A service config `{"loadBalancingConfig": [{"<name>":{}}]}` is added exactly when service config is enabled and a balancer name is set |
| Resolver.NoGrayReleaseKeepsEntries | grpcx/grpcresolver/resolver.go:86-88 | without a gray-release policy every entry is published and the current list is unchanged |
| Resolver.ReorderedPermutes | grpcx/grpcresolver/grayrelease.go:24 | sorting the current entries in place never loses or adds an entry |
| Resolver.Named | grpcx/grpcresolver/resolver.go:24-34 | the entries carrying the given name |
| Resolver.AddAllSpec | grpcx/grpcresolver/resolver.go:24-34 | after registering, a name is present exactly when it was before or an entry carries it. Its list is the old list followed by the new entries with that name, in order |
| Resolver.LocalServices.SetServiceInLocal | grpcx/grpcresolver/resolver.go:24-34 | the table becomes AddAll of the old table and the entries |
| Resolver.ReaderFeed | grpcx/grpcresolver/resolver.go:135-147 | the reader goroutine forwards the services up to the first iterator error. It closes the channel exactly when that error is Canceled or DeadlineExceeded; other errors just stop it |
| Resolver.RunAfterStop | grpcx/grpcresolver/resolver.go:152-170 | once the watch loop has returned, no further event changes anything |
| Resolver.RunKeepsPushes | grpcx/grpcresolver/resolver.go:149-172 | the watch loop only ever adds state updates; earlier ones are never changed |
| Resolver.NonEmptySnapshotPushed | grpcx/grpcresolver/resolver.go:156-162 | a non-empty snapshot replaces the entries and config and pushes one state update at once |
| Resolver.EmptySnapshotDelayed | grpcx/grpcresolver/resolver.go:159-167 | an empty snapshot pushes nothing at first. When the timer fires, one update with no addresses is pushed |
| Resolver.SupersededEmptySnapshotDropped | grpcx/grpcresolver/resolver.go:159-167 | an empty snapshot followed by a non-empty one before the timer fires yields only the non-empty snapshot's update |
| Resolver.SchemaOf | grpcx/grpcresolver/resolver.go:55-58 | the query's `schema` value, or the default endpoint schema when it is empty |
| Resolver.Resolver.constructor | grpcx/grpcresolver/resolver.go:37-52 | a resolver with no schema, entries, config or pushes, and no watch started |
| Resolver.Resolver.UpdateClientConnState | grpcx/grpcresolver/resolver.go:81-129 | pushes StateOf the gray-release selection of the current entries, and leaves those entries reordered as the in-place sort does |
| Resolver.Resolver.Init | grpcx/grpcresolver/resolver.go:54-79 | the schema is set first. A service in the local table is published from there without watching. Otherwise a first iterator error is returned with nothing published. A first snapshot sets entries and config, is published, and starts the watch |
| Resolver.Resolver.InitFromTable | grpcx/grpcresolver/resolver.go:59-62 | the local-table entries become current and are published with the old config |
| Resolver.Resolver.InitFromSnapshot | grpcx/grpcresolver/resolver.go:72-76 | the snapshot's entries and parsed config become current, are published, and the watch starts |
| Resolver.Resolver.Watch | grpcx/grpcresolver/resolver.go:131-173 | the loop's final state is Run over the events. It stops exactly at the first channel-closed or context-done event, or not at all when there is none |
| Resolver.RunSplit | grpcx/grpcresolver/resolver.go:149-172 | running a sequence of events is running its prefix and then the rest |
| SemVer.CompareStringLaws | grpcx/grpcresolver/grayrelease.go:27-29 | the comparison of alphanumeric pre-release identifiers (ASCII order) is antisymmetric and is 0 exactly on equal strings |
| SemVer.CompareStringTrans | grpcx/grpcresolver/grayrelease.go:27-29 | that string comparison is transitive |
| SemVer.CompareIdLaws | grpcx/grpcresolver/grayrelease.go:27-29 | the identifier order (numeric ones numerically and below alphanumeric ones) is antisymmetric and is 0 exactly on equal identifiers |
| SemVer.CompareIdTrans | grpcx/grpcresolver/grayrelease.go:27-29 | the identifier order is transitive |
| SemVer.CompareIdsLaws | grpcx/grpcresolver/grayrelease.go:27-29 | the field-by-field identifier-list order, in which a proper prefix is smaller, is antisymmetric and 0 exactly on equal lists |
| SemVer.CompareIdsTrans | grpcx/grpcresolver/grayrelease.go:27-29 | the identifier-list order is transitive |
| SemVer.CompareLaws | grpcx/grpcresolver/grayrelease.go:27-29 | version precedence (major, minor, patch, then a release above any of its pre-releases) is antisymmetric and 0 exactly on equal versions |
| SemVer.CompareTrans | grpcx/grpcresolver/grayrelease.go:27-29 | version precedence is transitive |
| SemVer.LessIsStrictWeak | grpcx/grpcresolver/grayrelease.go:27-29 | LessThan is a strict weak order |
| SemVer.LessTotal | grpcx/grpcresolver/grayrelease.go:27-29 | LessThan is irreflexive and any two different versions are ordered one way or the other |
| SemVer.PrecedenceExamples | grpcx/grpcresolver/grayrelease.go:27-29 | the precedence chain of section 11 of Semantic Versioning 2.0.0: 1.0.0-alpha < 1.0.0-alpha.1 < 1.0.0-alpha.beta < 1.0.0-beta, 1.0.0-beta.2 < 1.0.0-beta.11, 1.0.0-rc.1 < 1.0.0, and 1.9.0 < 1.10.0 |
| SliceMap.Search | pkg/slicemap/binary_search.go:23-38 | the bisection returns i ≤ n with f false just below i and true at i. For a monotone f, i is exactly the boundary between the false and the true part |
| SliceMap.BinarySearch | pkg/slicemap/binary_search.go:9-21 | found exactly when the key at pos is the target. For an ascending slice, pos is the insertion point (keys before are smaller, keys from pos on are not), and found holds exactly when some element has the target key |
| SliceMap.InsertPermutes | pkg/slicemap/sort.go:23-25 | inserting an element adds exactly that element |
| SliceMap.SortPermutes | pkg/slicemap/sort.go:23-25 | sorting is a permutation of the input |
| SliceMap.InsertSorted | pkg/slicemap/sort.go:23-25 | under a strict weak order, inserting into a sorted sequence keeps it sorted |
| SliceMap.SortSorts | pkg/slicemap/sort.go:23-25 | under a strict weak order, the result is sorted: no later element is less than an earlier one |
| SliceMap.SortOfSorted | pkg/slicemap/sort.go:23-25 | an already sorted sequence is left as it is |
| SliceMap.Sort | pkg/slicemap/sort.go:23-25 | the array is sorted in place, by adjacent swaps, to the insertion sort of its old contents |
| SliceMap.SortSnoc | pkg/slicemap/sort.go:23-25 | sorting a prefix one element longer inserts that element into the sorted shorter prefix |
| SliceMap.SiftDown | pkg/slicemap/sort.go:23-25 | one pass of swaps inserts a[i] into the sorted prefix a[..i] and leaves the rest alone |
| SliceMap.SortASCIsStrictWeak | pkg/slicemap/sort.go:31-33 | `l < r` is a strict weak order |
| SliceMap.SortExample | pkg/slicemap/sort_test.go:9-15 | sorting [7, 102, 84, 12] ascending gives [7, 12, 84, 102] |
| SliceMap.SliceIsEqual | pkg/slicemap/maptoslice.go:11-23 | different lengths give false with both slices untouched. Otherwise both slices are left sorted, and the answer is true exactly when the two old slices hold the same multiset |
| SliceMap.ElementsEqual | pkg/slicemap/maptoslice.go:16-21 | the comparison loop answers true exactly when the sequences are equal |
| SliceMap.SameSortedSameMultiset | pkg/slicemap/maptoslice.go:11-23 | two slices sort to the same sequence exactly when they hold the same multiset |
| SliceMap.HeadIsLeast | pkg/slicemap/maptoslice.go:11-23 | the first element of an ascending sequence is its least |
| SliceMap.AscendingUnique | pkg/slicemap/maptoslice.go:11-23 | two ascending sequences with the same multiset are equal |
| SliceMap.MapIsEqualIff | pkg/slicemap/maptoslice.go:25-39 | MapIsEqual holds exactly when the maps are equal, so it is symmetric |
| SliceMap.MapIsEqualImpliesEqual | pkg/slicemap/maptoslice.go:25-39 | equal size and every left entry present on the right make the maps equal |
| SliceMap.SubsetSameSize | pkg/slicemap/maptoslice.go:25-39 | a subset of the same finite size is the whole set |
| SliceMap.MapKeys | pkg/slicemap/keys.go:3-9 | every key exactly once, in some order |
| SliceMap.MapValues | pkg/slicemap/maptoslice.go:3-9 | one value per key, each key visited once |
| SliceMap.Contains | pkg/slicemap/contains.go:3-10 | true exactly when v occurs in the slice |
| Component.EntryEqualIff | runtime/component/discovery.go:48-58 | Equal holds exactly when ID, Name, Endpoints and Metadata are all equal |
| Component.EntryEqualReflexiveSymmetric | runtime/component/discovery.go:48-58 | Equal is reflexive and symmetric |
| Component.EntryEqualIgnoresAliasVersion | runtime/component/discovery.go:48-58 | Alias and Version play no part in Equal |
| Component.Get | runtime/component/component.go:80-89 | a loader is found exactly when it is registered under the type and name |
| Component.Container.constructor | runtime/component/component.go:54-58 | an empty container |
| Component.Container.Save | runtime/component/component.go:60-74 | a taken (type, name) is an "already exists" error and changes nothing. A free one is registered, with the type's map created when missing. No other pair changes |
| Component.Container.Load | runtime/component/component.go:76-90 | an unknown type gives "no driver registered" and an unknown name "driver not found". Otherwise the result is the registered value |
| Component.Register | runtime/component/component.go:25-30 | a duplicate registration panics with save's error and changes nothing; otherwise the loader is saved |
| Component.GetLoader | runtime/component/component.go:32-39 | the registered loader, or load's error |
| Component.EntriesNamed | app/discovery.go:88-92 | exactly the entries with the given name |
| Component.EntriesNamedAppend | app/discovery.go:88-92 | filtering by name distributes over concatenation |
| Component.SelectNamed | app/discovery.go:88-92 | the append loop keeps exactly the entries with the name, in order |
| RuntimeServiceType.ParseServiceType | runtime/servicetype.go:18-30 | a name whose part after "app" is not a hexadecimal uint32 panics with "invalid service name". Otherwise the name is a cluster exactly when bit 8 (0x100) of the number is set |
| RuntimeServiceType.ParseServiceTypeExamples | runtime/servicetype.go:24-29 | "app10A" is a cluster and "app011" a service |
| RuntimeServiceType.InvalidNamePanics | runtime/servicetype.go:21-23 | "invalid" panics |
| ServiceMeshServiceType.ParseServiceTypeFromServiceName | runtime/contrib/servicemesh/servicetype.go:16-29 | a name whose part after "app" is not a decimal int panics. Otherwise the name is a cluster exactly when `uint(id) >> 28 == 1` |
| ServiceMeshServiceType.ClusterRange | runtime/contrib/servicemesh/servicetype.go:22-28 | `uint(id) >> 28 == 1` holds exactly for 2^28 ≤ id < 2^29; negative ids never qualify |
| Settings.SettingOf | runtime/setting.go:137-144 | the value of the first build setting with the key, "" when none has it |
| Settings.GetSettingFromDebugInfo | runtime/setting.go:137-144 | the loop returns exactly SettingOf |
| Settings.ExecName | runtime/setting.go:146-153 | the lower-cased executable base name, with one trailing ".exe" removed |
| Settings.Settings.constructor | runtime/setting.go:29-46 | package initialisation: namespace "default", and a name and alias both taken from the executable. The entry has the given id, no version and no endpoints. Its metadata keys are exactly uptime, go and process; vcs.revision, vcs.time and vcs.modified when build information is available; and hostname when the OS gives one. vcs.revision and vcs.modified hold the first build setting of that key, vcs.time the converted build time, and GetHostName answers the host name or "" |
| Settings.Settings.SetNamespace | runtime/setting.go:48-52 | only the first non-empty namespace sticks |
| Settings.Settings.GetNamespace | runtime/setting.go:54-59 | never empty: the set namespace when there is one, "default" when the namespace is empty |
| Settings.Settings.AddServiceEndpoint | runtime/setting.go:69-71 | appends one endpoint and changes nothing else |
| Settings.Settings.SetServiceID | runtime/setting.go:77-79 | sets the ID only |
| Settings.Settings.SetServiceName | runtime/setting.go:85-87 | sets the name only |
| Settings.Settings.SetServiceAlias | runtime/setting.go:93-95 | sets the alias only |
| Settings.Settings.SetServiceVersion | runtime/setting.go:101-103 | sets the version only |
| Settings.Settings.SetServiceMetadata | runtime/setting.go:117-119 | sets one metadata key only |
| Settings.Settings.GetHostName | runtime/setting.go:109-115 | the hostname metadata value, "" when it is absent |
| Settings.NamespaceIsFirstWins | runtime/setting.go:48-71 | after initialisation, a later SetNamespace leaves GetNamespace unchanged, while an endpoint added afterwards is appended |
| RuntimeBuild.Dashed | runtime/runtime.go:24-30 | every option gets a "--" prefix, in order |
| RuntimeBuild.AddDash | runtime/runtime.go:24-30 | the loop builds exactly Dashed(opts) |
| RuntimeBuild.ApplyToComponent | runtime/runtime.go:39-49 | the flags parsed are the dashed options. A parse error stops before validation; otherwise the validation error, or nil, is the result |
| RuntimeBuild.Build | runtime/runtime.go:51-64 | a missing loader returns GetLoader's error at once. Otherwise the steps load, parse, validate, boot and instance run in order, and the first failing step's error is returned |
| RuntimeBuild.StepsOrdered | runtime/runtime.go:51-64 | Boot runs exactly when parsing and validation succeed. Instance is reached exactly when Build succeeds, which is exactly when no step fails |
| FilesDiscovery.Registry.constructor | runtime/contrib/files/discovery.go:77-102 | the registry serves the given entries |
| FilesDiscovery.Registry.Register | runtime/contrib/files/discovery.go:77-80 | registering only logs and never fails |
| FilesDiscovery.Registry.Lookup | runtime/contrib/files/discovery.go:82-90 | with the source's (id, name) parameter order: the first entry matching both, or "service not found" exactly when none matches |
| FilesDiscovery.Registry.LookupByNameAndID | runtime/component/discovery.go:23-24 | the lookup the Discovery interface asks for, with (name, id) order: the first entry matching both, or "service not found" |
| FilesDiscovery.Registry.Browse | runtime/contrib/files/discovery.go:92-102 | the entries with the name, in order, and no configs; never an error |
| FilesDiscovery.InterfaceOrderMisses | runtime/contrib/files/discovery.go:82 | a caller of the interface passing (name, id) misses an entry that exists, while the (name, id) lookup finds it |
| ConfigDiscovery.ParserService | app/discovery.go:80-94 | a decode error is returned; otherwise the service holds the decoded entries with the name, in order |
| ConfigDiscovery.BrowseResult | app/discovery.go:96-102 | a read error or a decode error is passed on. A result holds only entries with the name, and no configs |
| ConfigDiscovery.Registry.constructor | app/discovery.go:96-107 | the registry reads from the given path through the given watcher |
| ConfigDiscovery.Registry.Register | app/discovery.go:62-65 | registering only logs and never fails |
| ConfigDiscovery.Registry.Browse | app/discovery.go:96-102 | the result is BrowseResult |
| ConfigDiscovery.Registry.Lookup | app/discovery.go:67-78 | a browse error is passed on. Otherwise the result is the first browsed entry with the id, or "not found" exactly when none has it. A result always has the asked name and id |
| ConfigDiscovery.Registry.Watch | app/discovery.go:104-107 | an iterator over the watcher's stream for the path, filtering by the name |
| ConfigDiscovery.ConfigDiscoveryIterator.Next | app/discovery.go:118-124 | a stream error is passed on, and so is a decode error. Otherwise the result is the decoded entries with the iterator's name |
| Depency.SplitRule | app/depency/depency.go:25-30 | strings.SplitN(rule, ":", 2): the kind before the first ":" and the rest as name, or the whole rule and "" without a ":" |
| Depency.SplitN2 | app/depency/depency.go:25-30 | one part without ":", two parts with it, and they agree with SplitRule |
| Depency.EnsureModule | app/depency/depency.go:20-22 | a module entry is created when missing, and that allows nothing new |
| Depency.Grant | app/depency/depency.go:25-35 | adding a rule allows exactly the old (module, kind, name) triples plus the rule's kind and name for this module |
| Depency.Granted | app/depency/depency.go:19-37 | after SetModuleConfig the module is present |
| Depency.GrantedIff | app/depency/depency.go:19-37 | a triple is allowed afterwards exactly when it was before, or it is for this module and some rule splits into its kind and name |
| Depency.RuleGranted | app/depency/depency.go:25-35 | each rule "kind:name" allows (kind, name) for the module, and a rule without ":" allows (rule, "") |
| Depency.Config.constructor | app/depency/depency.go:39-43 | a configuration over the given allows |
| Depency.Config.AddRule | app/depency/depency.go:25-35 | one loop step: the kind's set is created when missing and the name added, as Grant says |
| Depency.Package.constructor | app/depency/depency.go:9-13 | the package starts with an empty configuration |
| Depency.Package.SetConfig | app/depency/depency.go:15-17 | the given configuration replaces the current one |
| Depency.Package.SetModuleConfig | app/depency/depency.go:19-37 | the configuration's allows become Granted of the old allows and the rules |
| Resources.FirstNamed | app/resources/resources.go:40-45 | the index of the first item with the name, none when no item has it |
| Resources.GetDBConfig | app/resources/resources.go:39-46 | nil exactly when no DB config has the name. Otherwise it is the first config with that name |
| Resources.GetRedisConfig | app/resources/resources.go:48-55 | nil exactly when no Redis config has the name. Otherwise it is the first config with that name |
| Resources.GetKafkaConfig | app/resources/resources.go:57-64 | nil exactly when no Kafka config has the name. Otherwise it is the first config with that name |
| ClientBalancer.WeightedTarget | app/client/balancer.go:27-31 | as written, the setter yields app id 0, whatever app id it was given, and the weighted_target balancer |
| ClientBalancer.WeightedRoundRobin | app/client/balancer.go:33-37 | as written: app id 0 and the weighted round-robin balancer |
| ClientBalancer.RoundRobin | app/client/balancer.go:39-43 | as written: app id 0 and round_robin |
| ClientBalancer.RingHash | app/client/balancer.go:45-49 | as written: app id 0 and ring_hash |
| ClientBalancer.SetterFor | app/client/balancer.go:27-49 | the intended setter: the app id it is given and the balancer name |
| ClientBalancer.LastFor | app/client/balancer.go:56-59 | the balancer of the last setter for the app id, none when no setter names it |
| ClientBalancer.Lookup | app/client/balancer.go:62-67 | the stored balancer, or round_robin for an unknown app id |
| ClientBalancer.StoredLookup | app/client/balancer.go:55-67 | after SetDefaultBalancer, an app id gets the last setter's balancer for it, and keeps its old default when no setter names it |
| ClientBalancer.OnlyZeroChanges | app/client/balancer.go:27-60 | setters that all yield app id 0 leave every other app id's default unchanged |
| ClientBalancer.WeightedTargetIgnoresAppID | app/client/balancer.go:27-31 | after SetDefaultBalancer(WeightedTarget(5)), app 5 still gets round_robin and app 0 gets weighted_target; the intended setter gives app 5 weighted_target |
| ClientBalancer.DefaultBalancers.constructor | app/client/balancer.go:16-18 | the default table starts empty |
| ClientBalancer.DefaultBalancers.SetDefaultBalancer | app/client/balancer.go:55-60 | the loop stores each setter's pair in order, so a later setter overwrites an earlier one |
| ClientBalancer.DefaultBalancers.GetDefaultBalancer | app/client/balancer.go:62-67 | the stored balancer, round_robin when none is stored |
| UserInfo.FromIncomingContext | app/header/userinfo.go:16-22 | a context without incoming metadata panics with "no metadata in context"; otherwise the info wraps that metadata |
| UserInfo.AtoiUint32 | app/header/userinfo.go:33 | `uint32(Must(strconv.Atoi(s)))`: an Atoi failure panics. Otherwise the result is the parsed int reduced modulo 2^32 |
| UserInfo.Info.Get | app/header/userinfo.go:24-30 | as written: the first "tenant_id" value whatever key is asked for. It panics with the asked key in the message exactly when there is no "tenant_id" value |
| UserInfo.Info.GetKey | app/header/userinfo.go:24-30 | the intended get: the first value of the asked key, and a panic exactly when it has none |
| UserInfo.GettersReadTenantID | app/header/userinfo.go:32-50 | as written, GetUserID, GetGameID and GetVersion all return GetTenantID and fail only when it fails. GetSource returns the raw tenant id text |
| UserInfo.UserIDIsTenantID | app/header/userinfo.go:36-38 | with tenant_id t and user_id u in the metadata, GetUserID returns t, while the intended reading returns u |
| BootstrapRoutes.RegisterAllSpec | bootstrap/routeregistrar.go:21-28 | registration keeps every old route and adds only ids of the given cells. It panics exactly when some id is already taken or repeats among the cells. Without a panic, every cell's handler is registered under its id |
| BootstrapRoutes.PanicKeepsPrefix | bootstrap/routeregistrar.go:22-26 | on a panic the table holds exactly the cells before the offending one, which were all fresh, and the offending id is already present |
| BootstrapRoutes.RouteRegistrar.constructor | bootstrap/routeregistrar.go:15-19 | an empty route table |
| BootstrapRoutes.RouteRegistrar.RegisterRoute | bootstrap/routeregistrar.go:21-28 | the loop's table and its panic are those of RegisterAll |
| BootstrapBusiness.Convert | bootstrap/businessservice.go:32 | status.Convert: a status error keeps its status, and any other error becomes Unknown with its text |
| BootstrapBusiness.BusinessService.constructor | bootstrap/businessservice.go:18-23 | the service dispatches through the given registrar |
| BootstrapBusiness.BusinessService.Dispatch | bootstrap/businessservice.go:25-35 | an unregistered msgid gives Unimplemented "unknown msgid <id>". Otherwise the reply is empty exactly when the handler succeeds, and its error is converted to a status |
| BootstrapBusiness.DispatchRegistered | bootstrap/routeregistrar.go:21-28 | a route registered without a panic dispatches to its own handler |
| BootstrapServices.ServiceDesc.constructor | bootstrap/serviceregistrar.go:20-25 | a service descriptor, compared by identity, as the Go map keys it by address |
| BootstrapServices.Server.constructor | bootstrap/serviceregistrar.go:27-31 | a target registrar with no services |
| BootstrapServices.Server.RegisterService | bootstrap/serviceregistrar.go:29 | the target records the registration |
| BootstrapServices.ServiceRegistrar.constructor | bootstrap/serviceregistrar.go:14-18 | an empty service table |
| BootstrapServices.ServiceRegistrar.RegisterService | bootstrap/serviceregistrar.go:20-25 | a descriptor already present panics with "service <name> already registered" and changes nothing; otherwise it is stored with its implementation |
| BootstrapServices.ServiceRegistrar.RegisterTo | bootstrap/serviceregistrar.go:27-31 | the target keeps its earlier registrations and gains each stored service exactly once, with its own implementation |
| BootstrapLogic.SplitN3 | bootstrap/logicserver.go:76 | strings.SplitN(s, "/", 3): one part without "/", otherwise the text is cut at the first one or two slashes |
| BootstrapLogic.ServiceOfFullMethod | bootstrap/logicserver.go:76-77 | for `/service/method`, `paths[1]` is the service name |
| BootstrapLogic.ContextInjector.constructor | bootstrap/logicserver.go:62-66 | no bound services |
| BootstrapLogic.ContextInjector.Bind | bootstrap/logicserver.go:68-73 | binding a service twice panics and keeps the first function; otherwise the function is bound |
| BootstrapLogic.ContextInjector.Intercept | bootstrap/logicserver.go:75-81 | a full method without "/" panics on `paths[1]` |
| BootstrapLogic.InterceptByService | bootstrap/logicserver.go:75-81 | for `/service/method` the handler gets the context transformed by the bound function, or the context unchanged when none is bound |
| RedisStore.Digest | driver/redis/redis.go:72-82 | each script has a non-empty digest of its own, so a digest names exactly one script |
| RedisStore.Get | driver/redis/redis.go:96-99 | GET: nil for a missing key, the string for a string key, WRONGTYPE for a hash |
| RedisStore.Del | driver/redis/redis.go:98 | DEL removes the key and its expiry and leaves every other key alone |
| RedisStore.HIncrBy | driver/redis/redis.go:62-64 | HINCRBY on a string key is WRONGTYPE. An old field value outside int64 is "not an integer", and a sum outside int64 is an overflow; no other case fails. On success the field holds and returns old + increment, and OnlyField holds: every other key, every other field of the key and every expiry stay as they were |
| RedisStore.RunHashSafelyDecr | driver/redis/redis.go:61-69 | the script returns the new value. When the value went negative, the increment is undone by a second HINCRBY, except where `-ARGV[1]` cannot be negated (int64 minimum) and the script errors. Missing KEYS or ARGV, an increment that is not an int64, and a failing first HINCRBY each return their error with the store unchanged. In every case only the one field of the one key can change (OnlyField) |
| RedisStore.RunGetDel | driver/redis/redis.go:96-104 | a string value is returned and its key deleted, and a missing key gives nil with nothing changed. DEL is the only change the script can make |
| RedisStore.RunCmpDel | driver/redis/redis.go:131-136 | the key is deleted, with reply 1, exactly when it holds the given value; otherwise nothing changes and the reply is 0 |
| RedisStore.RunCmpRefresh | driver/redis/redis.go:160-165 | when the key holds the value, PEXPIRE sets the new expiry (a non-positive one deletes the key) and answers 1. Otherwise nothing changes. The only data change is that deletion |
| RedisStore.Set | driver/redis/redis.go:191 | SET stores the string and clears the expiry |
| RedisStore.RunCmpSet | driver/redis/redis.go:189-194 | as written: a matching old value is replaced and the script answers SET's status "OK"; otherwise nothing changes and it answers 0 |
| RedisStore.RunCmpSetCounted | driver/redis/redis.go:189-194 | the intended script: the same change to the store, answering 1 on a swap |
| RedisStore.ToInt | driver/redis/redis.go:84-92 | go-redis `.Int()`: an integer reply converts as is, nil is redis.Nil, an error reply stays an error, and a string or status reply converts exactly when it is a decimal int64 |
| RedisStore.OKIsNotAnInt | driver/redis/redis.go:207 | `.Int()` on the status "OK" is a conversion error |
| RedisClient.Exec | driver/redis/redis.go:84-92 | EVALSHA: a down server refuses, an unknown digest is NOSCRIPT, and a known one runs its script |
| RedisClient.Server.constructor | driver/redis/redis.go:57-59 | a server with no loaded scripts |
| RedisClient.Server.ScriptLoad | driver/redis/redis.go:72-82 | SCRIPT LOAD records the script under its digest and returns the digest, or fails when the server is down |
| RedisClient.Server.EvalSha | driver/redis/redis.go:84-92 | the reply and new store are those of Exec |
| RedisClient.StaleDigestRunsOnce | driver/redis/redis.go:85-91 | a cached digest the server no longer knows fails with NOSCRIPT, so the script is reloaded and run exactly once |
| RedisClient.FreshLoadRunsOnce | driver/redis/redis.go:75-83 | without a cached digest, the script is loaded and run once; a down server returns the load error |
| RedisClient.ValidDigestRetriesOnConversionError | driver/redis/redis.go:85-91 | with a valid cached digest, a reply that does not convert to an integer makes the method reload and run the script a second time, on the store the first run left |
| RedisClient.Client.constructor | driver/redis/redis.go:57-59 | a client with no cached digests |
| RedisClient.Client.EnsureLoaded | driver/redis/redis.go:75-83 | a script is loaded (and marked reloaded) exactly when its cached digest is empty. The load error is returned, or the digest is cached |
| RedisClient.Client.EvalScript | driver/redis/redis.go:72-94 | the result and the store are Outcome: at most one retry after clearing the digest. No script is loaded more than once, and it runs at most twice (once when it had to be loaded first) |
| RedisClient.Client.HashSafelyDecr | driver/redis/redis.go:72-94 | EvalScript of the decrement script with the key, the field and the increment |
| RedisClient.Client.GetDel | driver/redis/redis.go:107-129 | EvalScript of the get-and-delete script, converted with `.Int64()` |
| RedisClient.Client.CmpDel | driver/redis/redis.go:138-158 | EvalScript of the compare-and-delete script |
| RedisClient.Client.CmpRefresh | driver/redis/redis.go:167-187 | EvalScript of the compare-and-refresh script, with the duration in milliseconds |
| RedisClient.Client.CmpSet | driver/redis/redis.go:196-216 | EvalScript of the compare-and-set script as written |
| RedisClient.Client.CmpSetCounted | driver/redis/redis.go:189-216 | the same method over the intended script |
| RedisClient.SafelyDecrKeepsFieldNonNegative | driver/redis/redis.go:61-94 | on a non-negative field, the method returns the new value, even when it is negative. The field ends as old + increment when that is not negative, and stays at the old value otherwise; it never goes below 0 |
| RedisClient.CmpSetNeverAnswersOne | driver/redis/redis.go:189-216 | a successful swap never returns 1. With a cached digest, "OK" fails conversion, the retry finds the new value and returns 0. With no cached digest, the swap returns the conversion error. The intended script returns 1 in both cases |
| RedisHooks.IsDisableCmd | driver/redis/redis.go:223-232 | nil exactly when no command is KEYS, FLUSHALL or FLUSHDB (any case). Otherwise the error names the first such command: "disable cmd: <name>" |
| RedisHooks.ArgReport | driver/redis/redis.go:268-290 | one value argument is reported exactly when it is a string, bytes or a marshaller that marshals, and its length is at least the limit |
| RedisHooks.ValueReports | driver/redis/redis.go:267-291 | every report is for a value argument at index 2 or above whose size reaches the limit, at most one per argument |
| RedisHooks.CmdReports | driver/redis/redis.go:261-291 | a command with at most two arguments is skipped; every report comes from one of its value arguments |
| RedisHooks.AllReports | driver/redis/redis.go:260-293 | every report is about some value argument, at index 2 or more, of some command, and has size at least the limit |
| RedisHooks.LoggedArgs | driver/redis/redis.go:267-291 | the lines logged for a command's value arguments up to the first panic. Without a panic they are exactly ValueReports |
| RedisHooks.LoggedCmd | driver/redis/redis.go:261-292 | the lines logged for one command. Without a panic they are exactly CmdReports |
| RedisHooks.Logged | driver/redis/redis.go:260-293 | the lines logged for the pipeline up to the first panic. Without a panic they are exactly AllReports |
| RedisHooks.CheckLargeKey | driver/redis/redis.go:260-293 | the nested loops produce AllReports, stopping at the panic of a non-string command or key when a report is due. Either way, the lines logged are Logged, so a panic keeps every line written before it |
| RedisHooks.CmdPanicAt | driver/redis/redis.go:270-275 | a large value under a name or key that is not a string panics the command, and only the earlier arguments' lines are logged |
| RedisHooks.PanicAt | driver/redis/redis.go:260-293 | that panic ends the pipeline, and the lines logged are those of the earlier commands followed by the command's own |
| RedisHooks.LoggedArgsPanicStays | driver/redis/redis.go:267-291 | after a panic no later argument logs a line |
| RedisHooks.LoggedPanicStays | driver/redis/redis.go:260-293 | after a panic no later command logs a line |
| RedisHooks.ValueReportsPanicStays | driver/redis/redis.go:270-290 | once a report panicked, later arguments cannot undo it |
| RedisHooks.ValueReportsComplete | driver/redis/redis.go:267-291 | the value arguments panic exactly when one of them is large and the name or key is not a string. Otherwise every large one is reported with args[0], args[1] and its size |
| RedisHooks.CmdReportsComplete | driver/redis/redis.go:261-292 | the same for one whole command, `len(args) <= 2` included |
| RedisHooks.AllReportsPanics | driver/redis/redis.go:260-293 | the pipeline panics exactly when some command has a large string, byte or marshaled value argument under a name or key that is not a string |
| RedisHooks.AllReportsComplete | driver/redis/redis.go:260-293 | when nothing panics, every large value argument at index 2 or more of every command is reported with that command's args[0], args[1] and the value's size |
| RedisHooks.AllReportsPanicStays | driver/redis/redis.go:261-292 | once a command panicked, later commands cannot undo it |
| RedisHooks.ProcessHook | driver/redis/redis.go:240-248 | a panic in the size check happens first, and the lines logged before it stay logged (Logged). Otherwise the logged reports are AllReports, a disabled command is refused with its error, and any other command goes to next |
| RedisHooks.ProcessPipelineHook | driver/redis/redis.go:250-258 | the same for a pipeline: a panic keeps the lines logged before it. Without one, the pipeline is refused with "disable cmd: <name>" of its first disabled command, and forwarded to next exactly when it has none |
| ErrorsX.Messages | pkg/errorsx/errorsx.go:8-11 | one message per error |
| ErrorsX.ErrorString | pkg/errorsx/errorsx.go:7-13 | the messages joined with "; ": one error gives its own message, and more errors give the earlier ones, then "; ", then the last |
| ErrorsX.Append | pkg/errorsx/errorsx.go:15-26 | a nil first error gives the second, and a nil second gives the first. An Errors value gets the second appended; otherwise both are wrapped into a new Errors. The result is nil exactly when both are |
| ErrorsX.MessageOfAppend | pkg/errorsx/errorsx.go:7-26 | the message of Append(e1, e2) is e1's message, "; ", then e2's, for any e1 other than an empty Errors |
| ErrorsX.MessageOfAppendToEmpty | pkg/errorsx/errorsx.go:22-25 | appending to an empty Errors gives just e2's message |
| ErrorsX.AppendAll | pkg/errorsx/errorsx.go:22-25 | folding Append over errors into an Errors value appends them all, in order |
| CMap.MMap.constructor | pkg/cmap/cmap.go:37-41 | an empty map |
| CMap.MMap.Get | pkg/cmap/cmap.go:7-10 | found exactly when the key is present, with its value |
| CMap.MMap.Set | pkg/cmap/cmap.go:12-14 | the key's entry is set and nothing else changes |
| CMap.MMap.Remove | pkg/cmap/cmap.go:16-18 | the key is deleted and nothing else changes |
| CMap.MMap.Length | pkg/cmap/cmap.go:28-30 | the number of keys |
| CMap.MMap.Range | pkg/cmap/cmap.go:20-26 | each key is visited at most once. Every visited key but the last was answered true, and when every answer was true every key was visited |
| CMap.SafeMap.constructor | pkg/cmap/cmap.go:37-41 | a new empty inner map |
| CMap.SafeMap.Get | pkg/cmap/cmap.go:43-47 | the inner map's Get |
| CMap.SafeMap.Set | pkg/cmap/cmap.go:49-54 | the inner map's Set |
| CMap.SafeMap.Remove | pkg/cmap/cmap.go:56-61 | the key is gone, and every other key keeps its value |
| CMap.SafeMap.Length | pkg/cmap/cmap.go:63-68 | the inner map's size |
| CMap.SafeMap.Range | pkg/cmap/cmap.go:70-74 | the inner map's Range |
| CMap.SafeMap.ToMap | pkg/cmap/cmap.go:102-106 | the inner map itself, not a copy |
| CMap.SetThenGet | pkg/cmap/cmap.go:43-54 | a Get after Set of the same key returns the set value |
| CMap.ToMapIsAliased | pkg/cmap/cmap.go:102-106 | a write through the map ToMap returned is seen by the next SafeMap Get |
| ChanPubSub.Chan.constructor | pkg/chanpubsub/broker.go:87 | a new channel is empty and open |
| ChanPubSub.AlignedPut | pkg/chanpubsub/broker.go:86-110 | recording a subscription in both tables, with a count of at least 1, keeps the subscriber and counter tables aligned |
| ChanPubSub.AlignedRecount | pkg/chanpubsub/broker.go:96-120 | changing a present subscription's count to another positive value keeps them aligned |
| ChanPubSub.AlignedDrop | pkg/chanpubsub/broker.go:121-125 | deleting a key from both tables keeps them aligned |
| ChanPubSub.Broker.constructor | pkg/chanpubsub/broker.go:19-26 | a broker with no publishers, subscribers or counts |
| ChanPubSub.Broker.Topic | pkg/chanpubsub/broker.go:29-40 | an existing topic returns its publisher unchanged. A new topic gets a fresh empty publisher that is recorded. Subscriptions are untouched |
| ChanPubSub.Broker.Subscribe | pkg/chanpubsub/broker.go:62-111 | an empty channel name creates a fresh anonymous channel, keyed by itself, with count 1. An existing name returns its channel and adds one to its count. A new name creates a fresh channel with count 1. An initial message is queued on the returned channel. The tables stay aligned |
| ChanPubSub.Broker.Unsubscribe | pkg/chanpubsub/broker.go:114-128 | an unknown key changes nothing. A count above 1 is decremented, leaving the channel open. The last reference closes the channel and deletes it from both tables. The channel's buffered messages stay as they were |
| ChanPubSub.Broker.RemoveTopic | pkg/chanpubsub/broker.go:132-144 | every subscriber channel of the topic is closed with its buffered messages kept, and the topic is deleted from the subscribers, counts and publishers |
| TypesList.FromText | pkg/types/list.go:31-46 | empty text or any-case "null" keeps the current items. Any other text gives its comma-separated pieces, at least one |
| TypesList.Unquoted | pkg/types/list.go:55-59 | unquoted data is kept, since only a leading quote triggers trimming, and trimming never lengthens |
| TypesList.FromJSON | pkg/types/list.go:48-71 | empty data is the error "data长度为0", and only empty data is an error. "null" or a value empty once unquoted keeps the current items |
| TypesList.TextRoundTrip | pkg/types/list.go:19-46 | comma-free items whose text is neither empty nor "null" survive MarshalText then UnmarshalText |
| TypesList.NullItemIsIgnored | pkg/types/list.go:35-37 | the list ["null"] marshals to "null", which UnmarshalText ignores, so the round trip keeps the old items |
| TypesList.JSONRoundTrip | pkg/types/list.go:25-71 | comma-free items with non-empty text survive MarshalJSON then UnmarshalJSON |
| TypesList.List.constructor | pkg/types/list.go:15-17 | a list holding the items |
| TypesList.List.MarshalText | pkg/types/list.go:19-23 | for non-empty comma-free items, the text splits back into the items |
| TypesList.List.MarshalJSON | pkg/types/list.go:25-29 | the text form in double quotes |
| TypesList.List.UnmarshalText | pkg/types/list.go:31-46 | never an error; the items become FromText of the old items |
| TypesList.List.UnmarshalJSON | pkg/types/list.go:48-71 | an error exactly when the data is empty, leaving the items unchanged; otherwise the items become FromJSON's result |
| TypesList.List.Contains | pkg/types/list.go:74-84 | true exactly when data is one of the items |
| TypesList.IndexOf | pkg/types/list.go:86-92 | an index past the end gives the zero value and an index in range the element. A negative index panics, as indexing a Go slice does |
| TypesList.MappedSpec | pkg/types/list.go:97-109 | the map holds exactly the keys. Each key gets the value at its last position, or the zero value where the values run out |
| TypesList.MappingList | pkg/types/list.go:97-109 | the loop builds exactly that map |
| TypesList.KeysOfSnoc | pkg/types/list.go:128-131 | the keys of a longer slice are the earlier keys plus the last element's key |
| TypesList.KeyedSpec | pkg/types/list.go:126-133 | the map's keys are the keys of the elements, and each key maps to the last element with it |
| TypesList.SliceToMap | pkg/types/list.go:126-133 | the loop builds exactly that map |
| TypesList.SelectedSpec | pkg/types/list.go:111-124 | MappingFilter's map holds exactly the keys. The key whose last occurrence is at index i gets the value of the element keyed by it, or zero when there is none, but only while i is below the number of elements; past that it gets zero |
| TypesList.MappingFilter | pkg/types/list.go:111-124 | the elements are keyed by SliceToMap first, and the loop then builds exactly that map |
| TypesList.FilterCutsByPosition | pkg/types/list.go:115-120 | with keys ["a", "b"] and one element keyed "b", "b" is mapped to zero, although SliceToMap holds its element |
| TypesList.Group | pkg/types/list.go:136-148 | the elements with the key, in order |
| TypesList.FoldedSpec | pkg/types/list.go:136-148 | the map's keys are the keys of the elements, each key maps to all its elements in order, and a key of no element has no group |
| TypesList.SliceFold | pkg/types/list.go:136-148 | the loop builds exactly that grouping |
| Netx.To4 | pkg/netx/ip.go:54-57 | the 4-byte form: an IPv4 address itself, the last four bytes of an IPv4-mapped IPv6 address, nil otherwise |
| Netx.IsLocalIP | pkg/netx/ip.go:50-62 | loopback, link-local multicast and link-local unicast addresses are local. For a non-IPv4 address, those three are the only local ones |
| Netx.BlockSizes | pkg/netx/ip.go:58-61 | the sizes of the /24, /16, /12 and /8 blocks |
| Netx.LocalIPv4Ranges | pkg/netx/ip.go:50-62 | an IPv4 address is local exactly when it lies in 127.0.0.0/8, 224.0.0.0/24, 10.0.0.0/8, 172.16.0.0/12, 169.254.0.0/16 or 192.168.0.0/16 |
| Netx.OutsideTwelveBitRange | pkg/netx/ip.go:59 | 172.32.0.1 is not local: the /12 block ends at 172.31 |
| Netx.Target | pkg/netx/addr.go:10-31 | a "unix:" prefix or a ".sock" suffix selects unix, with the "unix:" prefix trimmed. Anything else is tcp with the "tcp:" prefix trimmed |
| Netx.UnixTarget | pkg/netx/addr.go:11-12 | "unix:" + path dials unix at path |
| Netx.TcpTarget | pkg/netx/addr.go:14 | "tcp:" + hostPort, not ending in ".sock", dials tcp at hostPort |
| Text.TrimPrefix | runtime/servicetype.go:19 | strings.TrimPrefix: the prefix removed when present, the text unchanged otherwise |
| Text.TrimSuffix | runtime/setting.go:152 | strings.TrimSuffix: the suffix removed when present, the text unchanged otherwise |
| Text.LastIndex | grpcx/grpcdirector/utils.go:43-44 | strings.LastIndex: the last position of the character, -1 exactly when it is absent |
| Text.Split | pkg/types/list.go:39 | strings.Split on one character: at least one piece, and no piece contains the separator |
| Text.Cut | grpcx/grpcdirector/utils.go:38-41 | strings.Cut: found exactly when the character occurs, and then the text is before + separator + after, with the separator not in before |
| Text.SplitJoin | pkg/types/list.go:19-46 | splitting the join of separator-free pieces gives the pieces back |
| Text.JoinSnoc | pkg/errorsx/errorsx.go:12 | joining one more piece appends the separator and that piece |
| Text.ToLower | driver/redis/redis.go:225 | ASCII strings.ToLower: the same length, each upper-case letter lowered |
| Text.ParseUintDecimal | bootstrap/header/metadata.go:138 | strconv.ParseUint(s, 10, 64) succeeds exactly on a non-empty all-digit text below the limit, with its decimal value |
| Text.ParseHexUint32 | runtime/servicetype.go:20 | strconv.ParseUint(s, 16, 32) succeeds exactly on non-empty hexadecimal text below 2^32, with its value |
| Text.ParseInt64 | bootstrap/header/metadata.go:54 | strconv.ParseInt(s, 10, 64): the empty string fails. A leading digit or `+` parses like ParseUintDecimal below 2^63, a leading `-` is the negation of ParseUintDecimal below 2^63 + 1, and any other first character fails. A result is always in int64 range |
| Text.ParseInt64Examples | bootstrap/header/metadata.go:54 | "+5", "007" and "-0" parse to 5, 7 and 0. "", "-", "+-1" and "1a" fail |
| Text.ParseInt64Overflow | bootstrap/header/metadata.go:54 | a decimal above int64's maximum fails, and so does a negative one below int64's minimum |
| Text.ParseFormatInt | bootstrap/header/metadata.go:146-149 | formatting an int64 in decimal and parsing it back gives the same number |
| Text.ParseFormatUint | bootstrap/header/metadata.go:159-161 | formatting a number below the limit and parsing it as unsigned gives it back |

## Left out

- gRPC machinery: dialing, servers, interceptors, the resolver and balancer registries, `attributes`, `resolver.State` and service-config parsing. They are library wiring; addresses, states and configs are plain records here.
- Concurrency: goroutines, locks, channels used for joining, and the real timer. The resolver's watch is a sequential loop over events (snapshot, timer fire, channel closed, context done). The resolver's reader goroutine is not modelled.
- GrpcProxy.Handle: runs the server-to-client direction to completion and then the client-to-server one. The source runs them at the same time, so interleavings of the two are not modelled. Only which error wins is.
- `NewClientStream`, `RegisterService` and `largeKeyLog`: these only create a stream, register a handler or write a log line.
- Resolver `Close` (grpcx/grpcresolver/resolver.go:180-183): it only cancels the context, and logging is left out with it.
- Resolver.LocalServices.SetServiceInLocal: the gray-release sort also reorders the local table's slice through Go aliasing. The model sorts a copy, so the write-back into the table is not captured.
- Semantic-version parsing (`semver.New`) is not part of this model. A version is given as an already-parsed tuple through a `versionOf` parameter. Its precedence follows section 11 of Semantic Versioning 2.0.0. `semver.New` panics on a string it cannot parse, such as "" or "v1.0.0", as soon as the gray-release sort compares two entries (grpcx/grpcresolver/grayrelease.go:27-29). The total `versionOf` parameter does not model that panic.
- GrayRelease.FilterServiceEntry: the sorted order comes from SliceMap.Sort's insertion sort, not Go's pattern-defeating quicksort. With 13 or more entries that share the leading precedence but carry different version strings (build metadata, say), Go can leave a different one of them first. The kept run then differs from the model's.
- GrayRelease.GrayReleaseHandle: goes through FilterServiceEntry, with the same caveat about the order of equal-precedence entries.
- Resolver.Resolver.UpdateClientConnState: publishes the gray-release selection, with the same caveat about the order of equal-precedence entries.
- SliceMap.SliceIsEqual: elements are integers. Go's version is generic over ordered types, floats included, and a NaN would never compare equal. That case is not modelled.
- SliceMap.Sort: an insertion sort by adjacent swaps stands in for Go's `sort.Sort` (pattern-defeating quicksort). The order in which it leaves equal elements can differ from Go's.
- The hashring node lookup is a function parameter, and the ring-hash balancer's name is assumed to be "ring_hash". The ringhash package is not part of this model.
- `SetRingHashKeyInt64` (app/client/balancer.go:51-53) is not modelled: it only stores a formatted int in a context through the ringhash package.
- Redis: the server is an abstract key/value store of strings and hashes. Script digests are distinct tokens, not SHA-1 sums, and expiries are plain numbers with no clock. Lua number precision is not modelled, hash fields hold integers only, and string lengths count characters, not UTF-8 bytes.
- RedisHooks: a go-redis command's name is taken to be its first argument. `DialHook` (driver/redis/redis.go:234-238) only forwards and is not modelled. `NewRedis` and `FromClient` are network set-up.
- The broker's `serveTopic` delivery loop (pkg/chanpubsub/broker.go:42-57), with its 10 ms timeouts, is not modelled. Neither is the blocking send on a full one-slot channel. A channel is a queue of messages with a closed flag. The pkg/chanpubsub/chanpubsub.go and subscribe.go adapters are not part of this model.
- CMap `View` and `Update` (pkg/cmap/cmap.go:82-100) only run a callback under the lock. Changing the map from inside `Range` is not modelled.
- Component.StreamFunc: `Next` (runtime/component/component.go:143-145) calls the function with stop = false and `Stop` (component.go:139-141) calls it with stop = true and drops the result. Both only forward to a caller-supplied function, so there is nothing to state about them beyond the call itself. `ChanStream` (component.go:103-135) is channel plumbing.
- Settings: the trivial getters (`GetName`, `GetServiceEntry`, `GetServiceEndpoints`, `GetServiceID` and the like) return fields. The values taken from the operating system at start-up are constructor parameters: executable path, ksuid, time, hostname, pid and build info. The time parsing in `getVcsTimeFromDebugInfo` is not modelled.
- HeaderMetadata: `MetadataInterceptor` (bootstrap/header/metadata.go:14-18) and `GetMetadata` only pass a context on. An outgoing context is its normalised metadata map. The one-key getters `GetMetadataMediaId` to `GetMetadataDistinctId` (metadata.go:62-130) are `getMetadataKey` with a parse. `SetMetadataParams` (metadata.go:151-157) is `AddMetadata` of a map.
- TypesList: items are strings, and the flagvar conversion is the identity. The flagvar package is not part of this model.
- Netx: Go's `net.IP` methods (`IsLoopback`, `IsLinkLocalMulticast`, `IsLinkLocalUnicast`, `To4`) are restated from their documented behaviour. Interface enumeration (`AddrsForInterface`, `ListMulticastInterfaces`, `FindLocalIP`, `ListLocalIP`) and pkg/netx/local.go are OS calls. The actual `net.Dial` and `net.Listen` calls are not modelled; only the network and address chosen for them are.
- Text.ToLower: lowers ASCII letters only. Go's `strings.ToLower` also lowers other Unicode letters.
- RuntimeServiceType: the panic message text of an invalid service type is not modelled, only that it panics.
- SliceMap.BinarySearch: keys are integers. Go's version accepts any ordered key type, and strings and floats are not modelled.
- Depency: the `Allow` predicates are plain predicates without their own contracts. Their meaning is stated by the Grant lemmas.
- Depency.Package.SetModuleConfig: the model's tables are values and never nil, so it always succeeds. Go panics with "assignment to entry in nil map" when the installed `Config` has a nil `Allows` (after `SetConfig(&Config{})`, or after decoding a config without "allows"), or when a module's inner map is nil (a decoded `"m": null`), at app/depency/depency.go:21 and 32. A null kind set (a decoded `"k": null`) makes the `Add` at depency.go:35 dereference nil. `SetConfig(nil)` makes every later `SetModuleConfig` and `Allow` dereference nil (depency.go:20 and 46). None of these panics is modelled.
- ErrorsX.Append: `append(me, err2)` (pkg/errorsx/errorsx.go:22-25) can write into a backing array that an earlier `Errors` value still shares. For example, when `x` has length 3 and capacity 4, `y := Append(x, d)` followed by `z := Append(x, e)` overwrites `y[3]` with `e`. The model's lists are sequence values, so such sharing between results is not modelled.
- FilesDiscovery: `Registry.Boot` (runtime/contrib/files/discovery.go:60-75) reads the service file and decodes YAML through JSON; that is file I/O and decoding, and the decoded entries are the constructor's parameter. `Registry.Watch` (discovery.go:104-111) sends Browse's result on a channel and then blocks until the context is done; channels and contexts are not modelled.
- Handlers, directors, loaders and clients that the source calls through interfaces are function parameters.

## Findings

| source | as written | input that shows it | evidently intended | confidence | as-written member | corrected member |
|---|---|---|---|---|---|---|
| runtime/contrib/files/discovery.go:82-90 | `Lookup(ctx, id, name)` takes its two strings in the opposite order to the `Discovery` interface (runtime/component/discovery.go:24), which declares `Lookup(ctx, name, id)`. A caller through the interface therefore matches a name against IDs | an entry with ID "node-1" and name "lobby", looked up through the interface as ("lobby", "node-1"), is not found | look up by name, then ID, as the interface declares | not executed | FilesDiscovery.Registry.Lookup, FilesDiscovery.InterfaceOrderMisses | FilesDiscovery.Registry.LookupByNameAndID |
| app/client/balancer.go:27-49 | in each setter the inner closure's named result `appID` shadows the parameter, so the returned pair always carries app id 0 | `SetDefaultBalancer(WeightedTarget(5))`, then `GetDefaultBalancer(5)`, still answers round_robin | the setter yields the app id it was given | not executed | ClientBalancer.WeightedTarget, ClientBalancer.WeightedTargetIgnoresAppID | ClientBalancer.SetterFor |
| app/header/userinfo.go:24-30 | `get(key)` always reads "tenant_id" and names `key` only in its panic, so GetUserID, GetGameID and GetVersion all answer the tenant id | metadata tenant_id = 7 and user_id = 9: GetUserID answers 7 | read the value of the key it is given | not executed | UserInfo.Info.Get, UserInfo.UserIDIsTenantID | UserInfo.Info.GetKey |
| driver/redis/redis.go:189-216 | the compare-and-set script returns the reply of SET, the status "OK", and `.Int()` cannot convert it. With a cached digest the failure clears the digest and the retry answers 0 or fails again; without one the call fails with a conversion error. CmpSet never answers 1 | a key holding "a", `CmpSet(key, "a", "b")`: the key is set to "b", yet the call answers 0 with a cached digest and a conversion error without one | answer 1 after a successful set, 0 on a mismatch | not executed | RedisClient.Client.CmpSet, RedisClient.CmpSetNeverAnswersOne | RedisClient.Client.CmpSetCounted |
