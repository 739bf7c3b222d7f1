# Verified model of proxyfarm

proxyfarm collects proxy share links, probes them from several vantages and publishes the ones that
answer. This project models the parts on which the rest depends, in Dafny, and proves what they keep:
the canonical form whose hash is a node's identity, the way of a probe result from a worker into the
node table, the concurrency kernels of worker and coordinator, and the loops that publish, batch and
count. Strings are sequences of bytes, one character per byte. Code made of expressions is modelled
by functions, code that changes things by methods, loops and classes proved against such functions,
and protocols by step machines whose theorems quantify over every run.

| files | modelled |
|---|---|
| `Strings`, `Base64`, `Url` | the library calls the parser relies on: searching, trimming, splitting, sorting, Go's padded base64 decoder, query escaping |
| `Links`, `CanonicalForm`, `Idempotence`, `LinkText` | `Canonical` and its splitters; when two canonical forms are equal; when one is its own canonical form; which lines read as a given link |
| `ShareLink`, `Builders`, `Outbound`, `QueryKeys` | `ParseLine` with all builders, as a function and step by step; what every outbound says about its node; which query keys each builder reads |
| `Meaning`, `LineMeaning`, `MeaningIsComplete`, `OtherForms` | a description of the node, field by field, in terms of the link; that every accepted line meets it, and that only one node does |
| `Dedup`, `DedupLimits`, `HiddenPort`, `LegacyLinks`, `VmessLinks` | what two links with one hash have in common, and exactly where that fails |
| `Subscription`, `RoundTrip`, `LineBreaks` | `ParseMany`, the published body, feeding one to the other, and bodies broken into lines |
| `Recompute`, `Tables`, `Ingest`, `Confluence`, `Rows` | the statements on nodes and node_checks, ingestion of results, its independence of order and repetition, and what rows look like in every run |
| `FanOut`, `Pipeline`, `Provenance`, `Subjects` | a worker's goroutines, the at-least-once path from job to stored check, what the stored checks say, and which consumer a subject reaches |
| `Lease`, `Ports` | the leader lease; the port pool and the probes that share it |
| `PublishLoop`, `Histogram`, `Batching` | change detection, the probe-duration histogram, the two batching loops |

JSON decoding of a vmess payload and SHA-256 are functions of the environment (`Lib`) about which
nothing is assumed. Time, the outcome of a probe, every failure of the network and every scheduling
decision are inputs or free choices.

## Where the code and its documentation part

The model follows the code. Each point below is a theorem.

- A row is alive when a passing L1 is its vantage's latest check of *any* stage, so a newer L0 or L2
  check, even a passing one, turns the node dead (`AliveIff`, `LaterStageHides`).
- Validator results are stored under stage `VAL`, which the aggregate ignores, so no row is ever
  classed `rf` while edge vantages report only `VAL` and `L2` (`RfUnreachable`).
- Validation jobs are published on `jobs.validator.<vantage>`; the coordinator's filter for that
  consumer ends in `.>` and asks for one token more. From a validator's first heartbeat on it is
  delivered nothing (`ValidatorServedIff`). Its speed tests go to the cloud workers
  (`EdgeSpeedTestsGoToTheCloud`).
- Long-dead nodes are to be deleted after fourteen days of being dead. A dead row has no
  last_l1_ok_at, so the code deletes by first_seen, possibly minutes after the node was alive
  (`CleanupByFirstSeen`, `DeletedSoonAfterPassing`).
- A crash between `InsertCheck` and the recompute leaves the row behind, and redelivery of the same
  results does not catch it up (`CrashLeavesStaleRow`).
- The list is to be published on a change of more than 20%. Integer division makes it 21%
  (`ThresholdDiffers`, `FiveOfTwentyFour`).
- The lease is read and then written without a revision check, a failed read goes on to write, and
  hosts without a HOSTNAME share one id. Each alone allows two leaders (`SafeIffSound`).
- The semaphore is to bound the sing-box processes. A caller that times out gives its token back
  while its process lives (`ProcessesBounded`, `TokenOutlived`).
- The worker passes its concurrency flag on unchecked. Zero deadlocks the first job with a node
  (`DeadlockFreeIff`).
- A base64 body may hold line breaks as far as its recogniser is concerned, but they are counted when its
  padding is completed: unless their number is a multiple of four, nothing is read (`WrappedBodyReads`),
  so one line break at the end loses a whole subscription (`FinalBreakLosesAll`).
- One hash can mean several nodes. A repeated query key: every vless link with two different flows
  has a twin with another outbound (`RepeatedFlow`). A port hidden in a bare host: `scheme://h:y`
  and `scheme://h:y:` share a hash and are different servers, and no other links share one across
  hosts (`SharesHashIff`, `ServersDiffer`). Legacy shadowsocks links are hashed without regard to
  the case of their base64 up to its first slash (`LegacyShadowsocksFoldsCase`, `LegacyExample`).
  Vmess records are hashed without their alter id (`VmessDedup`), and a separator inside a field
  merges different ones (`SeparatorConfuses`). And one node can have several hashes: an opaque vmess
  link is hashed with its fragment, so renaming it changes its identity (`FragmentIgnored`).

## Model

| member | source | states |
|---|---|---|
| `Links.SplitAuthority` | proxies/internal/parse/parse.go:130-138 | the authority ends before the first slash or question mark, and nothing is lost |
| `Links.SplitPathQuery` | proxies/internal/parse/parse.go:140-145 | the path ends before the first question mark, and nothing is lost |
| `Links.SplitUserinfo` | proxies/internal/parse/parse.go:165-170 | userinfo reaches to the last at sign, and nothing is lost |
| `CanonicalForm.HostPortIff` | proxies/internal/parse/parse.go:171-194 | exactly the texts of a host and a port are accepted, in brackets with anything behind a colon or bare with digits, and are split where they should be |
| `Links.SortQuery` | proxies/internal/parse/parse.go:148-161 | the loop yields the sorted non-empty pairs of the query, joined |
| `Strings.LeqIff` | proxies/internal/parse/parse.go:159 | the order of the sort: by the first byte that differs, and a text before its extensions |
| `CanonicalForm.PrintInjective` | proxies/internal/parse/parse.go:109-126 | two well-shaped links print the same text exactly when scheme, userinfo, path, query and the joint text of host and port are equal |
| `CanonicalForm.CanonicalEqual` | proxies/internal/parse/parse.go:74-194 | for all accepted non-vmess links, equal canonical forms mean exactly equal readings of scheme, userinfo, host and port, path and the multiset of pairs |
| `CanonicalForm.CanonicalEqualParts` | proxies/internal/parse/parse.go:74-194 | for all accepted non-vmess links: scheme, userinfo, lower-cased host, port modulo the dropped default, path and multiset of non-empty pairs agree exactly when the canonical forms agree and both bare hosts hide a port or neither does |
| `Idempotence.CanonicalLength` | proxies/internal/parse/parse.go:74-128 | a canonical form is never longer than the trimmed link |
| `Idempotence.VmessNeverFixed` | proxies/internal/parse/parse.go:211-223 | no text read as vmess is its own canonical form |
| `Idempotence.TrimmedIff` | proxies/internal/parse/parse.go:52-56 | trimming leaves a canonical form alone exactly when no byte order mark is left in front of the scheme and the last of sorted query, path, port and host that is printed does not end in white space |
| `Idempotence.CanonicalIdempotent` | proxies/internal/parse/parse.go:52-128 | Canonical of a canonical form is that form exactly when its ends are clean in this sense and its bare host hides no port that would be dropped or rejected |
| `Base64.DecodeInvertsEncode` | proxies/internal/parse/parse.go:289-304 | b64Decode recovers a byte string from its standard or URL-safe RFC 4648 encoding with any part of the padding kept, exactly when it is not empty |
| `Base64.StdOnUrlText` | proxies/internal/parse/parse.go:289-304 | trying the standard alphabet first never yields a wrong decoding of URL-safe text |
| `Base64.PaddingRestored` | proxies/internal/parse/parse.go:293-296 | the appended equals signs restore exactly the padding that was dropped |
| `Base64.DecodeCharIff` | proxies/internal/parse/parse.go:297-302 | a character stands for a sextet in an alphabet exactly when RFC 4648 writes the sextet so |
| `LineBreaks.QuantaIff` | proxies/internal/parse/parse.go:297-302 | exactly the texts of whole quanta decode: characters of the one alphabet up to at most two signs |
| `Url.UnescapeInvertsEscape` | proxies/cmd/coordinator/publish.go:142-149 | unescaping an escaped name gives the name back |
| `Url.UnescapeIff` | proxies/internal/parse/parse.go:354-363 | a value is unescaped to exactly what it spells, with hexadecimal digits of either case, and left as it is when it spells nothing |
| `Url.EscapedText` | proxies/cmd/coordinator/publish.go:148-149 | an escaped name holds no newline, white space or hash sign |
| `ShareLink.CollectPairs` | proxies/internal/parse/parse.go:371-379 | the loop collects the pairs of the non-empty parts in order |
| `ShareLink.Get` | proxies/internal/parse/parse.go:345-352 | the loop finds the value of the first pair with the key, or none if there is none |
| `ShareLink.FirstMatchesAreFirst` | proxies/internal/parse/parse.go:345-352 | the lookup table holds for each key the value Get finds |
| `Builders.ParseShareLink` | proxies/internal/parse/parse.go:308-333 | parsing a line step by step refines the function about which the results below are stated |
| `LineMeaning.NodeMeans` | proxies/internal/parse/parse.go:308-755 | a line of any form but vmess and legacy shadowsocks gives a node exactly when its port and credentials are usable, and then protocol, host, port, transport and every field of the outbound, down to the TLS and transport blocks, say what the link says |
| `MeaningIsComplete.NodeOnce` | proxies/internal/parse/parse.go:308-755 | that description leaves nothing open: two nodes that meet it for one link have the same protocol, transport, host, port and outbound |
| `OtherForms.VmessLineMeans` | proxies/internal/parse/parse.go:500-535 | a vmess line gives a node exactly when its payload, as base64 of JSON or else as JSON, has an address, an id and a port, and the node says what the record says |
| `OtherForms.VmessOnce` | proxies/internal/parse/parse.go:500-535 | the description of a vmess outbound leaves nothing open |
| `OtherForms.LegacyLineMeans` | proxies/internal/parse/parse.go:554-585 | a legacy shadowsocks line gives a node exactly when its payload decodes to a secret, an at sign and a host with its port, and the node says what they say |
| `OtherForms.LegacyOnce` | proxies/internal/parse/parse.go:554-585 | such a payload has one reading and one outbound |
| `LineMeaning.OtherLines` | proxies/internal/parse/parse.go:308-322 | blank lines give nothing, and lines without a known scheme are told apart from links that fail to parse |
| `LineMeaning.SchemeTable` | proxies/internal/parse/parse.go:35-40 | which schemes there are, and the protocol of each |
| `LineMeaning.FirstValue` | proxies/internal/parse/parse.go:345-363 | the value read under a key is that of its first pair, unescaped if it can be |
| `LineMeaning.NumberIs` | proxies/internal/parse/parse.go:537-542 | a number is read with the white space around it and its sign, or is the default |
| `LineMeaning.SecretRoundTrip` | proxies/internal/parse/parse.go:587-597 | method and password come out of their plain form and of base64 in either alphabet with any part of the padding, and nothing else does |
| `LineMeaning.PasswordRoundTrip` | proxies/internal/parse/parse.go:855-860 | an escaped password comes out as it was |
| `QueryKeys.ReadKeysDecide` | proxies/internal/parse/parse.go:451-755 | a builder reads no query key outside the set listed for its protocol: lookups that agree on those build the same outbound or fail alike |
| `Dedup.SameLookups` | proxies/internal/parse/parse.go:345-363 | for the keys whose pairs agree in value, all orders of the pairs look up the same values |
| `Dedup.SamePartsBuildSame` | proxies/internal/parse/parse.go:396-755 | links with the same parts build the same outbound for every host, as long as the pairs the builder reads do not depend on their order |
| `Dedup.PortsAgree` | proxies/internal/parse/parse.go:439-449 | the socks port that Canonical drops is the one applyPort puts back |
| `Dedup.HostDoesNotDecide` | proxies/internal/parse/parse.go:396-755 | acceptance, transport and port do not depend on the server name |
| `Dedup.ParseLineOfLink` | proxies/internal/parse/parse.go:308-437 | a line is parsed by the builder of its scheme applied to the link that Canonical splits |
| `Dedup.DedupPreservesMeaning` | proxies/internal/parse/parse.go:308-755 | two links with one canonical form, both or neither hiding a port, are both accepted or both rejected, with one protocol, transport and port, hosts equal up to case and the same outbound but for the host's spelling; only repeated keys that the builder reads are excluded |
| `DedupLimits.HostCaseExample` | proxies/internal/parse/parse.go:102 | two different links that meet every hypothesis of DedupPreservesMeaning |
| `LinkText.LineReads` | proxies/internal/parse/parse.go:52-127 | every well-shaped link is read from some line, whatever its parts contain |
| `LinkText.TrimTakes` | proxies/internal/parse/parse.go:52-56 | white space around a link, and a byte order mark before it, are not part of it |
| `DedupLimits.FlowDecides` | proxies/internal/parse/parse.go:461-463 | two vless lines with one hash and different first flows have different outbounds, whatever else they hold |
| `DedupLimits.RepeatedFlow` | proxies/internal/parse/parse.go:345-352 | every accepted vless line with two different flows has a twin of the same hash and another outbound, whatever its other pairs are |
| `DedupLimits.RepeatedFlowExample` | proxies/internal/parse/parse.go:148-161 | for any two different values, the two orders of a vless link with both as flow: one hash, two outbounds |
| `VmessLinks.VmessCanonicalEqual` | proxies/internal/parse/parse.go:211-223 | two vmess lines whose hashed fields are free of the separator share a canonical form exactly when v, lower-cased add, port, id, net, path, host, tls, sni, alpn and scy agree |
| `VmessLinks.VmessDedup` | proxies/internal/parse/parse.go:211-223 | two such lines of one hash are both accepted or both rejected, with one transport and port, hosts equal up to case, and for one spelling of the host equal outbounds exactly when their alter ids are equal |
| `VmessLinks.SeparatorConfuses` | proxies/internal/parse/parse.go:220-222 | a separator inside the id: two usable records with different ids, one hash and two outbounds, whatever the other fields are |
| `VmessLinks.OpaqueApart` | proxies/internal/parse/parse.go:216-219 | a payload that does not decode shares its hash with no decoded one, and with another only if the lines are one text |
| `VmessLinks.VmessApart` | proxies/internal/parse/parse.go:74-89 | no vmess line shares its canonical form with a share link of another scheme |
| `HiddenPort.SharesHashIff` | proxies/internal/parse/parse.go:165-194 | of all accepted non-vmess links, exactly those with a bare host and a port, given or hidden in the host, share their hash with a link of another host or port |
| `HiddenPort.ServersDiffer` | proxies/internal/parse/parse.go:102-124 | two nodes of one hash have the same server up to case exactly when both links hide a port or neither does |
| `HiddenPort.HiddenPortExample` | proxies/internal/parse/parse.go:116-120 | `vless://u@h:81:` and `vless://u@h:81` are two such links |
| `HiddenPort.DroppedPorts` | proxies/internal/parse/parse.go:42-43 | the canonical form drops a port exactly when it is 80 for http, 443 for https or 1080 for socks |
| `LegacyLinks.LegacyShadowsocksFoldsCase` | proxies/internal/parse/parse.go:544-585 | two base64 payloads share a hash exactly when they agree up to letter case before their first slash, and verbatim from there on |
| `LegacyLinks.LegacyExample` | proxies/internal/parse/parse.go:554-573 | two accepted legacy links with one hash and different passwords |
| `Outbound.NodeAgrees` | proxies/internal/parse/parse.go:396-826 | whichever builder made it, a node's outbound is tagged as the probe, has all fields of its protocol and none of another, names the node's own server and port, names a TLS server whenever the node has a host, and has a transport block exactly for, and of, the node's own transport when that is neither plain, quic nor kcp |
| `Outbound.PortInRange` | proxies/internal/parse/parse.go:386-449 | a node from any link but vmess and legacy shadowsocks has a port in 1-65535, whether or not the link gave one |
| `Subscription.ParseMany` | proxies/internal/parse/parse.go:872-893 | the loop over the lines yields the specified collection |
| `RoundTrip.CollectedKeepsFirst` | proxies/internal/parse/parse.go:872-893 | ParseMany keeps exactly the first accepted line of each hash, in input order |
| `RoundTrip.ReparseOwnOutput` | proxies/internal/parse/parse.go:872-909 | parsing the newline-joined links of its own output gives the same nodes, for every body |
| `LineBreaks.BreaksDecodeIff` | proxies/internal/parse/parse.go:289-304 | base64 with line breaks in it, in either alphabet and with any part of its padding, decodes exactly when the number of breaks is a multiple of four |
| `LineBreaks.WrappedBodyReads` | proxies/internal/parse/parse.go:872-909 | such a body is read as the text it encodes, or else as nothing |
| `LineBreaks.FinalBreakLosesAll` | proxies/internal/parse/parse.go:882-886 | a published body with one line break behind it holds no nodes for its reader |
| `RoundTrip.StoredFromLine` | proxies/internal/parse/parse.go:308-333 | the link stored with a node is one line that parses to that node |
| `RoundTrip.FragmentIgnored` | proxies/internal/parse/parse.go:211-223 | two links that differ in the fragment have one canonical form exactly when they are not an opaque vmess link or are equal |
| `RoundTrip.RenameParses` | proxies/cmd/coordinator/publish.go:140-149 | a renamed link parses to the same node under the new name |
| `Subscription.BodyOf` | proxies/cmd/coordinator/publish.go:95-103 | the loop builds the base64 of the newline-joined renamed links |
| `Subscription.LabelReads` | proxies/cmd/coordinator/publish.go:142-163 | a published name is read back: country or XX, city or Unknown, latency in decimal milliseconds or a question mark, class |
| `RoundTrip.SubscriptionRoundTrip` | proxies/cmd/coordinator/publish.go:95-103 | ParseMany of a published body gives the published nodes back, in order, for nodes of distinct hashes and no opaque vmess |
| `RoundTrip.FetchPublishFetch` | proxies/cmd/coordinator/publish.go:95-149 | whatever body was fetched, publishing its nodes and fetching again gives the same nodes renamed |
| `Recompute.Summarise` | proxies/cmd/coordinator/consume.go:157-191 | the loop computes the fold over the vantages in some order |
| `Recompute.OrderIndependent` | proxies/cmd/coordinator/consume.go:157-191 | every order of the vantage map gives the same status, class, last-L1-ok time and best speed |
| `Recompute.ScanDescribes` | proxies/cmd/coordinator/consume.go:157-191 | those results described without an order: alive iff some passing L1, class by its vantages, the maximum of the times and of the speeds |
| `Recompute.LatencyIffSettled` | proxies/cmd/coordinator/consume.go:165-171 | the latency is the same for every order exactly when the newest passing checks carry one latency, or no passing check carries any but zero |
| `Tables.Store.UpsertNode` | proxies/internal/model/pg.go:109-123 | a known hash keeps its row but for last_seen, a new one gets a fresh row under a serial never used before, and the id is the row's |
| `Tables.Store.InsertCheck` | proxies/internal/model/pg.go:295-312 | a check is stored once per key, and refused without its node |
| `Tables.Store.LatestByVantage` | proxies/internal/model/pg.go:352-372 | one check of maximal time per vantage of the node |
| `Tables.Store.UpdateNodeAggregate` | proxies/internal/model/pg.go:374-379 | the four aggregate columns of one row change, if it exists |
| `Tables.Store.DeleteLongDead` | proxies/internal/model/pg.go:97-105 | exactly the dead rows below the limit go, with their checks, and are counted |
| `Ingest.Coordinator.RecomputeNode` | proxies/cmd/coordinator/consume.go:147-221 | the row shows a summary of newest checks of the node, and nothing else changes |
| `Ingest.Coordinator.EnqueueL1` | proxies/cmd/coordinator/consume.go:233-258 | one job with the nodes whose links parse, or none |
| `Ingest.Coordinator.IngestResults` | proxies/cmd/coordinator/consume.go:117-144 | the batch is taken in item by item, with unreadable times replaced by the arrival |
| `Ingest.Coordinator.ConsumeResults` | proxies/cmd/coordinator/consume.go:103-114 | a fetched list of batches is taken in one after the other |
| `Provenance.ChecksAreReports` | proxies/cmd/coordinator/consume.go:117-135 | after any deliveries no stored check has changed, every new one says field by field what an item of a delivered batch says, and every item of a known node has a check under its key |
| `Provenance.OnlyReportStored` | proxies/internal/model/pg.go:295-312 | a report that is the only one of its key is stored as it was reported |
| `Provenance.FirstReportWins` | proxies/internal/model/pg.go:295-312 | of two reports with one key the first stays, whatever is delivered later |
| `Provenance.OneResultDecides` | proxies/cmd/coordinator/consume.go:117-190 | one L1 result, the newest of its vantage, leaves the node alive exactly when the probe succeeded or another vantage's latest check is a passing L1, and classed rf exactly when one of these is an edge |
| `Provenance.OnlyVantageDecides` | proxies/cmd/coordinator/consume.go:117-190 | without other vantages it alone decides status, class and last_l1_ok_at |
| `Confluence.DeliveredAccounted` | proxies/cmd/coordinator/consume.go:117-144 | any deliveries add up: the checks not yet known, a fresh summary for every node touched, one L1 job per newly stored L0 pass |
| `Confluence.Confluent` | proxies/cmd/coordinator/consume.go:117-220 | the same batches in any order and each any number of times end in the same checks, status, class, last-L1-ok time and queued jobs |
| `Confluence.RedeliveryChangesNothing` | proxies/cmd/coordinator/consume.go:128-135 | delivering known checks leads exactly to the state before |
| `Confluence.DeliveredTwice` | proxies/internal/model/pg.go:295-312 | delivering a list again changes nothing |
| `Rows.ReachableRowsOk` | proxies/cmd/coordinator/consume.go:185-220 | in every state of every run, with crashes between any two statements: alive iff classified iff last_l1_ok_at is set |
| `Rows.DeliveredReachable` | proxies/cmd/coordinator/consume.go:117-144 | ingestion stays among those states |
| `Rows.AliveIff` | proxies/internal/model/pg.go:352-372 | a recomputed row is alive exactly when a passing L1 is its vantage's latest check of any stage |
| `Rows.LastOkIsNewest` | proxies/cmd/coordinator/consume.go:165-171 | last_l1_ok_at is then the newest time of such a check |
| `Rows.RowAgrees` | proxies/cmd/coordinator/consume.go:146-221 | in any run, once a node was recomputed its row is a summary of its checks for as long as none of them is added or dropped, whatever happens to other nodes and to the row |
| `Rows.RfIff` | proxies/cmd/coordinator/consume.go:172-191 | a recomputed row is classed rf exactly when some edge vantage's latest check is a passing L1 |
| `Rows.LaterStageHides` | proxies/cmd/coordinator/consume.go:163-178 | a newer check of another stage from the only vantage leaves the node dead |
| `Rows.RfHasCause` | proxies/cmd/coordinator/consume.go:172-191 | every row classed rf was recomputed when a passing L1 was an edge vantage's latest check, and kept the class since |
| `Rows.RfUnreachable` | proxies/cmd/coordinator/plan.go:98-107 | while edge vantages report nothing under stage L1, no row is ever classed rf |
| `Rows.RfReachable` | proxies/cmd/coordinator/consume.go:172-188 | and one passing L1 from an edge vantage is enough for a run that ends in such a row |
| `Rows.CleanupByFirstSeen` | proxies/internal/model/pg.go:97-105 | in every reachable state the cleanup removes exactly the dead rows first seen before the limit |
| `Rows.DeletedSoonAfterPassing` | proxies/cmd/coordinator/publish.go:182-184 | a node that passed after the limit is deleted |
| `Rows.SeenTimes` | proxies/internal/model/pg.go:109-123 | in every state of every run a row keeps the link it was created with, first_seen is the time of that report and last_seen that of the latest report of its hash |
| `Rows.CrashLeavesStaleRow` | proxies/cmd/coordinator/consume.go:128-138 | after a crash behind InsertCheck no redelivery of the check rebuilds the row |
| `FanOut.Shuffle` | proxies/cmd/worker/main.go:222 | the shuffle permutes the nodes |
| `FanOut.Bounded` | proxies/cmd/worker/main.go:225-233 | in every state of every schedule at most `concurrency` probes are under way |
| `FanOut.DeadlockFreeIff` | proxies/cmd/worker/main.go:224-236 | no schedule gets stuck before the join exactly when the concurrency is at least one or there is no node |
| `FanOut.RunsAreFinite` | proxies/cmd/worker/main.go:224-236 | every schedule ends within 7n + 2 steps |
| `FanOut.JoinedReports` | proxies/cmd/worker/main.go:224-315 | on join every slot i was probed exactly once and holds the report of node i: the outcome's ok, its latency and speed if positive, its error code on failure, E_INTERNAL for an empty one, and the time; so the reported ids are the job's |
| `Provenance.ProbedIsStored` | proxies/cmd/worker/main.go:218-315 | from probe to table: what the one probe of a node found is what the check stored for it says |
| `Pipeline.MsgIdInjective` | proxies/internal/natsb/natsb.go:199-203 | one message id, one job, vantage and stage |
| `Pipeline.NothingLost` | proxies/cmd/worker/main.go:218-260 | in every run with crashes, naks, lost replies, redeliveries and expiring deduplication: behind every acked job stands a stored results message, and for each of its messages that is acked too every node of the job has a check of that vantage and stage, with what the message reports of it unless an older check or another report had its key first |
| `Pipeline.RunTells` | proxies/cmd/coordinator/consume.go:117-135 | in every run a stored check never changes, and each says field by field what an item of a stored message says |
| `Pipeline.StoredOnce` | proxies/internal/natsb/natsb.go:199-203 | while the stream remembers a message id it stores one message of that id, however often it is published |
| `Subjects.WorkerFilterDelivers` | proxies/cmd/worker/main.go:161-162 | the worker's filter delivers the validation jobs of its own vantage and no other |
| `Subjects.CloudFilterDelivers` | proxies/cmd/worker/main.go:156-160 | the filter of a cloud worker delivers the jobs of its stage, whatever the vantage, and of no other stage |
| `Subjects.CoordinatorFilterDelivers` | proxies/cmd/coordinator/consume.go:306-310 | the coordinator's filter delivers exactly those of vantages that extend the name by further tokens |
| `Subjects.EdgeSpeedTestsGoToTheCloud` | proxies/cmd/coordinator/plan.go:100-107 | a speed test planned for any edge vantage is delivered by the cloud workers' filter and by no validator's |
| `Subjects.ValidatorsGetOnlyTheirs` | proxies/cmd/coordinator/consume.go:308-310 | no validator filter delivers a subject of another family |
| `Subjects.ValidatorServedIff` | proxies/cmd/worker/main.go:167-172 | a validator is delivered its jobs exactly from attaching until its first heartbeat is seen |
| `Lease.SoundIsSafe` | proxies/internal/natsb/bus.go:187-239 | with distinct ids, atomic claims, reads that do not fail and renewals within the ttl less one second, every reachable state has at most one leader |
| `Lease.SafeIffSound` | proxies/internal/natsb/bus.go:187-239 | and only then: each hypothesis dropped gives a run with two leaders |
| `Lease.SplitBrainPersists` | proxies/internal/natsb/bus.go:228-234 | two leaders remain two, whatever the bucket says, until one of them stops |
| `Lease.LeaseTerm` | proxies/internal/natsb/bus.go:206-239 | a claim or renewal keeps every other instance out for the ttl but a second, and from the ttl on the next claim takes the lease |
| `Ports.PortAllocator.constructor` | proxies/internal/probe/l1.go:30-36 | the pool starts with every port of the range once |
| `Ports.PortAllocator.Acquire` | proxies/internal/probe/l1.go:38 | the first free port is handed out |
| `Ports.PortAllocator.Release` | proxies/internal/probe/l1.go:39 | the port joins the end of the pool |
| `Ports.PortConservation` | proxies/internal/probe/l1.go:111-178 | in every interleaving free and held ports are the range, each once; no two attempts share a port, no free port has a process, and no probe makes a third attempt |
| `Ports.RetriedOnce` | proxies/internal/probe/l1.go:135-148 | in every interleaving a probe that is done made a second attempt exactly when its first ended in an internal error, and never a third |
| `Ports.ReleaseNeverBlocks` | proxies/internal/probe/l1.go:140 | a probe can always give its port back |
| `Ports.SomeoneMovesOn` | proxies/internal/probe/l1.go:135-148 | as long as a probe is not done, some probe can go on |
| `Ports.ProcessesBounded` | proxies/internal/probe/l1.go:98-133 | processes of waiting callers are within the semaphore, all processes within it and the probes given up on |
| `Ports.TokenOutlived` | proxies/internal/probe/l1.go:127-132 | a run with one token and two processes |
| `PublishLoop.CountMissing` | proxies/cmd/coordinator/publish.go:50-59 | the counting loop computes the size of the set difference, in any order |
| `PublishLoop.HasChanged` | proxies/cmd/coordinator/publish.go:48-61 | the two loops and the division decide 100 times the symmetric difference against 21 times the last set |
| `PublishLoop.Publisher.Tick` | proxies/cmd/coordinator/publish.go:32-71 | when a tick publishes and what it remembers |
| `PublishLoop.RunRemembers` | proxies/cmd/coordinator/publish.go:22-27 | over every run with restarts the loop remembers exactly the last version announced since the restart, and before that the time of the newest stored version, if it could be read |
| `PublishLoop.FreshAfterTick` | proxies/cmd/coordinator/publish.go:32-71 | after every tick without error the current set was just announced, or the last announcement is young and close enough |
| `PublishLoop.AnnouncedIff` | proxies/cmd/coordinator/publish.go:32-71 | over every run a version is announced exactly on a tick that publishes without error, finds something alive, and has no last time, one a period ago, or 21 in 100 nodes come or gone since the last version since the restart; it lists exactly the nodes alive |
| `PublishLoop.AnnouncementsSpaced` | proxies/cmd/coordinator/publish.go:47-64 | so two announcements in a row since the restart are a period apart or 21 in 100 of the nodes differ |
| `PublishLoop.ThresholdDiffers` | proxies/cmd/coordinator/publish.go:60 | the code's threshold and the documented one differ exactly strictly between 20 and 21 in 100 |
| `PublishLoop.FiveOfTwentyFour` | proxies/cmd/coordinator/publish.go:18-19 | a change of more than 20 in 100 that is not noticed |
| `Histogram.Registry.ProbeDuration` | proxies/internal/metrics/metrics.go:57-75 | one count, the sum and one slot of the stage change, as specified |
| `Histogram.RecordedTally` | proxies/internal/metrics/metrics.go:57-75 | after any observations the maps tally each stage's own |
| `Histogram.CumulativeIsAtMost` | proxies/internal/metrics/metrics.go:114-122 | the first slots add up to the observations at or below the bound |
| `Histogram.Registry.Render` | proxies/internal/metrics/metrics.go:107-125 | after any observations every stage is rendered once, in order, with cumulative buckets, +Inf equal to the count, and the sum |
| `Histogram.BucketsAscend` | proxies/internal/metrics/metrics.go:114-124 | buckets never decrease and +Inf bounds them |
| `Batching.PublishBatched` | proxies/cmd/coordinator/plan.go:111-135 | the slicing loop sends the chunks of the list, or on an error a proper prefix of them, and counts what it sent |
| `Batching.FetchBatches` | proxies/cmd/fetcher/main.go:133-170 | the fill-and-flush loop sends the same chunks and counts them |
| `Batching.ChunksConcat` | proxies/cmd/coordinator/plan.go:113-121 | the chunks concatenate to the list |
| `Batching.ChunkSizes` | proxies/cmd/coordinator/plan.go:113-121 | no chunk is empty or too long and only the last may be short |
| `Batching.PrefixSent` | proxies/cmd/coordinator/plan.go:125-128 | what was sent before an error is a proper prefix of the list |

## Left out

- HTTP API, event stream, web frontend, configuration, logging, DNS and geo lookup.
- sing-box, curl and TCP dialling: a probe outcome is an arbitrary value and a process a start and an end; the parsing of curl's output and the exit-code table are not modelled.
- The SQL itself and JetStream itself: tables are maps, streams are logs with deliver, ack and forget steps; interest retention is modelled with the durable consumer present, and eviction by stream size, MaxDeliver and the DLQ are not.
- The maps the builders write into are values held in variables, so aliasing between two Go maps is not captured; the source shares none.
- Case folding and white space beyond ASCII: Go's ToLower and TrimSpace also know Unicode.
- JSON marshalling: an outbound is a JSON value, and equal values are taken to print equally.
- The score: recomputeNode passes it on as an arbitrary number, because it depends on whichever vantage the map yields first.
- 64-bit wrap-around of counters, and floating-point rounding: sums and bounds are real numbers.
- Times are whole seconds in the tables, as the workers write them; fractions of a second are not.
- Geo columns, the vantages, sources and publishes tables, the due-node queries and their backoff.
- vmess ports: that path takes any non-zero number, so no range is claimed for it.
- Delivery of RAW batches: their message id repeats within a second, so only the partition is proved.
- Legacy shadowsocks in DedupPreservesMeaning: two such links of one hash can be different servers (LegacyExample); vmess has VmessDedup.
- VmessLinks.VmessCanonicalEqual: asks that no hashed field holds the separator; SeparatorConfuses shows records that collide without it, and which others do is not characterised.
- Dedup.DedupPreservesMeaning: asks that repeated keys the builder reads carry equal values; whether each pair of different values shows in the outbound is settled for the flow of vless only, and some do not, such as two spellings of one transport.
- Rows.AliveIff: assumes that no two checks of one node and vantage have the same time; with ties the row depends on which of them the query returns.
- Provenance.ProbedIsStored: of a node that the job names once and whose key is new; otherwise FirstReportWins says which report stays.
- Provenance.OneResultDecides: makes the same assumption of the checks already stored.
- Rows.RfIff: its second half makes the same assumption, for the same reason.
- Confluence.Confluent: assumes readable times, distinct keys and no ties, and that no statement fails; DropOldCheckPartitions is left to Rows, for it removes history without a recompute.
- Batching.PublishBatched: requires a positive batch unless there is nothing to send; the source would loop forever on zero and panic on a negative one.
- Pipeline.NothingLost: assumes unique job ids, that nodes are not deleted, and that InsertCheck meets no store error; the code acks such a message all the same.
