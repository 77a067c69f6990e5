# Goodwin control plane: a model and its proofs

This project models the control plane of the Goodwin VPN backend in Dafny and proves what it promises over whole runs:
who stays on a node, what traffic is charged, which stacks are served, what a share link dials, which geo packs come
out, how often alerts and logins go through. `dafny verify dfyconfig.toml` checks all of it.

## What is modelled

- `Entitlement`, `Period`, `Storage`, `Metering`, `Polling`: the entitlement predicate, the calendar of quota periods, the rows and
  transactions of the store, and the traffic cursors against the traffic that really flowed. Times are nanoseconds since
  the Unix epoch; the one sum Go computes on stored counters is taken modulo 2^64 as Go does.
- `Stack`, `Desired`, `XrayConf`, `Share`, `Agreement`, `Bodies`, `UserBodies`, `Settings`: one stack specification through its two
  translators, the node's document and Xray configuration on one side and the client's links on the other; exactly where
  they agree; whole subscription bodies over all nodes of a group; and the stored REALITY settings both sides read.
- `Plane`: the control plane as a state machine. Its state is the database, the two in-memory maps (`pendingKicks`,
  `entitled`), the document each agent last accepted, the group every user id was issued in, and the clock. An event is
  one handler, one sweep, one traffic poll, one clock step or a restart of the plane.
- `Kicks`, `Convergence`, `Tidy`, `Quiescence`: what every run of that machine keeps. `Exceptions` says what an accepted
  sweep does not repair and from which states, and `Scenarios` reaches those states from an installation in a few steps.
  `Server` is the imperative program: a class whose methods
  loop over groups, nodes and users as the source does, each proved to be one step of `Plane`.
- `NodeLock`: concurrent applies of one node under its mutex, interleaved with admin writes.
- `Geo`, `Cidr`, `GeoScript`: the Go and the JavaScript geo pack compilers and where they agree.
- `Alerts`, `Login`, `Stats`: the alert throttle, the login limiter with its in-place compaction, the stats fold.

A document is "on a node" when it was in the last PUT its agent accepted; a refused PUT leaves the node as it was.
Agents are an oracle that accepts or refuses: `Server` keeps every PUT with its answer. Database calls do not fail, and each handler, poll and sweep is one atomic
step (`NodeLock` looks inside an apply). Ids are never reused. IPv6 prefixes are a parameter of the geo compilers.

## Findings

Properties that do not hold of the code in general, each with the exact condition and a way to break it:

- A user who is put back after a sweep sampled it as out, and then expires before the next sweep, is not kicked:
  the sweep compares samples only (`internal/api/traffic.go:160-166`). `Scenarios.LapseIsReached` is the run,
  `Kicks.SweepKicksIffGroupSelected` the exact condition, and `Kicks.KickSafety` assumes the clock does not do this.
- A restart empties `pendingKicks`, and the first sweep after it selects users who are out only, so a refused push of an
  entitled user is forgotten: `Scenarios.ForgottenPushIsReached`, `Exceptions.SweepMakesExactIff`.
- A node created with groups is not pushed to by `createNode`, so it stays empty until one of its groups has another
  reason to be pushed: `Scenarios.EmptyNodeIsReached`, `Exceptions.NewNodeFilledIff`.
- Deleting a user while a node refuses the push, and then deleting the empty group, drops the owed push; the credential
  stays on the node: `Scenarios.SurvivalIsReached`, `Exceptions.StrayClearedIff`.
- The quota test adds two int64 counters and can wrap; `Entitlement.EntitledIsMayConnect` says exactly when it matters.
- A period start equal to Go's zero time reads as unset and stays due: `Period.DueAfterMove`.
- Link and node disagree on VLESS with TLS over gRPC, VMess over gRPC, VMess with REALITY or with a foreign `Host`, and
  Trojan with anything but TLS over TCP: `Agreement.LinkDialsInboundIffAgreeing`.
- `createNode` stores a host name untrimmed. Documents trim it for the certificate, links do not, so every TLS and
  Hysteria2 link of a padded host name asks for a name the certificate does not carry:
  `Agreement.LinkDialsInboundIffAgreeing`, `Bodies.Hy2LinkDialsIffTrimmed`.
- `createNode` also stores a host name of spaces for a stack that needs none. Links then have no address and renderUser
  answers every user of the group with an error, the links of all other nodes included: `UserBodies.BodyIsRenderedIff`,
  `UserBodies.BlankHostRefusesBodies`.
- Documents trim the stored REALITY values and links do not. They show the same exactly when the values are trimmed
  (`Settings.PlainIffShownAsCarried`), and the handlers only ever store trimmed ones (`Settings.StoredSettingsArePlain`),
  so no reachable setting divides them (`Agreement.StoredSettingsLinkDialsIff`).
- The stat name parser does not read back an email that ends in `>`: `Stats.ParseInvertsPrintIff`.
- The JavaScript compiler accepts IPv4 literals that Go refuses, the two trim NEXT LINE (U+0085) and the byte order mark
  (U+FEFF) differently and lower the dotted capital I (U+0130) differently. `GeoScript.HostsAgreeIff` is the exact
  condition for an entry and `GeoScript.CompilersAgreeIff` for an allowlist; `GeoScript.NextLineDivides`,
  `GeoScript.ByteOrderMarkDivides` and `GeoScript.DottedCapitalDivides` are the witnesses.
- The JavaScript compiler copies CIDRs as they are written and Go normalises them, so a prefix with bits outside it
  gives two different geo packs: `Cidr.HostBitsDivide`, `GeoScript.PublishedIsServedIff`.
- An alert comes before its wait is over exactly when a push in between did not list its key: `Alerts.GapBrokenIff`,
  `Alerts.NextPostIff`.

## Model

| member | source | states |
|---|---|---|
| Entitlement.Wrap64 | internal/sub/entitle.go:16 | a Go int64 sum lies in range and is the true sum whenever that fits |
| Entitlement.EntitledIsMayConnect | internal/sub/entitle.go:7-20 | on stored counters the code lets a user connect exactly when the promise (active, not expired, under quota) does, if and only if the counters add up without wrapping or the sum is not looked at |
| Entitlement.TimeOnlyRemoves | internal/sub/entitle.go:7-20 | a user entitled later was entitled earlier on the same row: time alone never grants entitlement |
| Period.CivilOf | internal/sub/period.go:34-51 | every day number has a valid civil date that converts back to it, in the proleptic Gregorian calendar |
| Period.CivilIsUnique | internal/sub/period.go:34-51 | no day number has two valid civil dates |
| Period.DaysFollowTheCalendar | internal/sub/period.go:34-51 | day 0 is 1 January 1970 and the date of each day number is the day after that of the one before, with the month lengths and the leap rule written out: the calendar is the Gregorian one |
| Period.WeekdaysGoRound | internal/sub/period.go:34-51 | 1 January 1970 was a Thursday and weekdays go round in order |
| Period.PeriodStartIsGreatestBoundary | internal/sub/period.go:34-51 | the period start is a boundary (midnight; Monday midnight; midnight of a first of month), is not after now, and no later boundary is |
| Period.PeriodStartInDates | internal/sub/period.go:34-51 | in dates: midnight of the same day, of the first of its month, or of the Monday at most six days before |
| Period.ZeroTimeIsYearOne | internal/sub/period.go:55-66 | Go's zero time is midnight of 1 January of year 1 |
| Period.PeriodStartIsIdempotentAndMonotone | internal/sub/period.go:34-51 | moving a start twice is moving it once, and a later clock never moves it back |
| Period.DueAfterMove | internal/sub/period.go:55-66 | straight after the start is moved the period is due if and only if that start is Go's zero time |
| Period.DueIffLaterPeriod | internal/sub/period.go:55-66 | a moved start falls due exactly when some boundary lies after it and not after now |
| Storage.Store.ApplyTraffic | internal/store/store.go:653-701 | one transaction: the row gains Delta of each direction, the cursor takes the reading, an unknown user changes nothing, and the amounts returned are those credited |
| Storage.Store.ResetQuotaPeriod | internal/store/store.go:705-718 | only the named row changes: its start moves, its counters are cleared exactly when asked, cursors are untouched |
| Metering.PollLoss | internal/store/store.go:663-679 | over an interval the credit plus the loss is the true traffic, where the loss is zero without a restart and otherwise the traffic before the last restart, plus the old cursor when the reading has reached it |
| Metering.CreditedPlusLostIsTruth | internal/store/store.go:653-701 | over every run of traffic, counter restarts and polls, bytes credited plus bytes lost equal the bytes that flowed up to the last poll, and the loss is never negative: no overcharging |
| Metering.ExactWithoutRestart | internal/store/store.go:653-701 | a run without a counter restart credits exactly the true traffic |
| Metering.PollIsTransaction | internal/store/store.go:653-701 | a poll of the ghost meter is the stored transaction, and moves no other cursor |
| Metering.ChargesNeverExceedUse | internal/store/store.go:653-701 | over any interleaving of traffic, restarts and polls on any set of nodes and sources, a user's row gains exactly the sum of what its counters were credited, which is at most the traffic that flowed, so it fits int64 whenever true traffic does |
| Metering.AccountIsStoredRow | internal/api/traffic.go:140-156 | the single-account run used below is what readings and sweeps do to the stored row and cursors |
| Metering.CreditsAccumulate | internal/store/store.go:653-718 | without a zeroing in between, the counters grow by exactly the credits of the readings, whatever sweeps are interleaved |
| Metering.CountersAreCreditsSinceZeroing | internal/api/traffic.go:140-156 | after the last zeroing the counters are the credits of the later readings alone, measured from the cursors that were there before it |
| Metering.SweepsLeaveCreditsAlone | internal/store/store.go:705-718 | removing every sweep from a run changes no cursor and no credit: nothing is credited again after a reset |
| Metering.OneZeroingPerPeriod | internal/api/traffic.go:140-156 | with a clock that never goes back, the number of zeroings is the number of distinct period starts the sweeps saw beyond the stored one |
| Metering.OneZeroingPerPeriodFromAdoption | internal/api/traffic.go:140-156 | the same when the stored start is unset: the first sweep adopts one without zeroing, and the zeroings are the distinct starts seen beyond it |
| Polling.AnswersAreRead | internal/api/traffic.go:69-74 | a poll credits one reading for each row whose email is a user id, and no other: of its node, its user, its list (Xray or Hysteria2) and its two counters, answer by answer and Xray rows first |
| Polling.PollingAgainChangesNothing | internal/api/traffic.go:41-80 | polling the same counters again, when no node answers twice and no list names a user twice, charges nobody, moves no cursor and pushes nothing |
| Convergence.CrossingsIff | internal/api/traffic.go:82-105 | a poll pushes a group if and only if one of its users was entitled before the poll and is not after it |
| Stack.NormalizeListens | internal/stack/stack.go:190-217 | the loop gives the normal form of every listen, in order |
| Stack.NormalFormReads | internal/stack/stack.go:190-217 | which protocol, security and network each spelling in the ports column gives, defaults included |
| Stack.NormalFormFills | internal/stack/stack.go:190-236 | the other fields are kept, and empty service names, ciphers and labels are filled as the source does |
| Stack.ListensAreTheFirstColumns | internal/stack/stack.go:176-188 | listens come from the xray column, else from the vless column, else from the lone port |
| Stack.Validate | internal/stack/stack.go:336-418 | reports the first fault in the order of the source, or none |
| Stack.ValidateAcceptsExactlyLegal | internal/stack/stack.go:336-418 | accepts a spec if and only if it has a known family, listens when an Xray family is chosen, only listens of chosen families with a legal combination of protocol, network, security and flow, distinct positive TCP ports also distinct from TrustTunnel's, and legal Hysteria2 and TrustTunnel ports |
| Stack.VerdictExplains | internal/stack/stack.go:336-418 | a reported error is true of the spec: it names the first listen at fault, all before it legal and on ports of their own, or what is wrong besides |
| Stack.NormalizeTwice | internal/stack/stack.go:190-217 | a normalised listen written back to the ports column normalises to itself |
| Stack.NormalFormHasSameVerdict | internal/stack/stack.go:176-217 | replacing a spec's ports by their normal form keeps the listens served and the verdict of Validate |
| Desired.AppendUsers | internal/api/server.go:1650-1709 | one inner loop appends to a list the first qualifying entry of every key not seen before |
| Desired.BuildLists | internal/api/server.go:1627-1709 | the nested loops with five seen-maps compute the five lists of first entries per key |
| Desired.DesiredListIsExact | internal/api/server.go:1627-1709 | no key twice; the keys are those of entitled users with a credential in attached groups permitting the family (UUIDs unconditionally, for VLESS or VMess); an entry is listed if and only if it is the first with its key in traversal order |
| Desired.EntryIsItsUser | internal/api/server.go:1650-1709 | every entry is an entitled user's, under its own id and credential, for TrustTunnel with its own password |
| Desired.EntitledUserIsListed | internal/api/server.go:1650-1709 | every entitled user of a group that permits a chosen family has its credential listed, blank ones aside; UUIDs are listed as they are |
| Desired.CompileDoc | internal/api/server.go:1600-1774 | the checks and the document of an apply, in the order of the source |
| Desired.DocumentSays | internal/api/server.go:1715-1772 | the host names, ports, names, keys, listens and lists of a document |
| Desired.NothingBlocksIff | internal/api/server.go:1600-1625 | what an apply needs before the agent is asked: address, token, a group, a host name where one is needed, and something to serve |
| Desired.RefusalExplains | internal/api/server.go:1600-1775 | a refused apply reports what is missing |
| Desired.LegalPortsAreServed | internal/api/server.go:1744-1771 | on a legal stack Hysteria2 and TrustTunnel are served exactly when chosen, on the stack's own distinct ports, under the node's host name, to exactly their lists |
| XrayConf.Build | internal/xrayconf/build.go:66-153 | the loop builds one inbound per resolved listen and the stats inbound last, or reports the first error; what the inbounds are is said by the next rows |
| XrayConf.LegalListenBuilds | internal/xrayconf/build.go:155-361 | a legal listen with its certificate builds; the inbound has its port and protocol, one client an entry of the protocol's list in order with the entry's key as credential, its user id as the name traffic is reported under, the listen's flow (only on VLESS REALITY over TCP) and cipher, and the document's own REALITY keys |
| XrayConf.BuildErrorExplains | internal/xrayconf/build.go:66-153 | the error of a build is that of the first listen that fails, and true of it |
| XrayConf.CertificateFiles | internal/xrayconf/build.go:66-82 | the certificate files are those of the trimmed host name in Let's Encrypt's directory |
| XrayConf.LegalStackCompiles | internal/xrayconf/build.go:66-153 | once the checks of an apply pass on a legal stack, Build succeeds with one inbound per listen in order, then the stats inbound, and there is an Xray part exactly when an Xray family is chosen |
| XrayConf.StoredStacksStayLegal | internal/api/server.go:1277-1281 | over every run of the node handlers the stored families and ports of every node are legal |
| XrayConf.EveryStoredStackCompiles | internal/api/server.go:1429-1449 | in every reachable node table, a node whose apply is not blocked gets a configuration |
| Share.XrayLines | internal/api/server.go:2042-2093 | the listen loop of renderUser gives the lines of the listens whose family is applied and permitted |
| Share.NodeLinesOf | internal/api/server.go:2042-2124 | all lines of a node: its listens, then its other applied families |
| Share.Render | internal/sub/render.go:73-107 | the links of the lines in order, skipping users without the credential, or the first error |
| Agreement.CredentialIsListed | internal/api/server.go:1627-1709 | an entitled user's credential for a permitted listen is on the list its inbound gets |
| Agreement.ClientIsItsUser | internal/xrayconf/build.go:155-277 | every client of a built configuration is an entitled user's: it lets in that user's credential for the listen and reports traffic under that user's id |
| Agreement.LinkNamesNodeAndUser | internal/sub/render.go:109-282 | a link names the node's host name, or without one its address, and the user's own credential |
| Agreement.StreamAgrees | internal/sub/render.go:109-282 | the rendered link names the node, port, protocol, flow and credential of the built inbound, and has its stream (network, security, REALITY values or certificate name, service, path and host) exactly when the listen is Agreeing |
| Agreement.LinkDialsInboundIffAgreeing | internal/api/server.go:2024-2124 | at one snapshot with REALITY keys set, the link rendered for an entitled user names the node's address and dials the inbound of its listen (port, protocol, security, network, path or service name, flow, method, REALITY values, certificate name, credential) if and only if the listen is Agreeing, a condition on listen, host name and stored REALITY values alone |
| Agreement.CertificateIsForTrimmed | internal/xrayconf/build.go:66-82 | the certificate an inbound serves is issued for a name exactly when that is the trimmed host name |
| Agreement.StoredSettingsLinkDialsIff | internal/api/server.go:1889-1907 | on settings any run of the handlers stored, the condition is on listen and host name alone |
| Settings.SettingsTable.EnsureReality | internal/api/server.go:1847-1887 | keys that are all set are kept and nothing is written; otherwise all three are replaced by the generated ones; a name that was set is kept trimmed; the keys returned are the stored ones, trimmed and with names filled in |
| Settings.SetKeysStay | internal/api/server.go:1847-1887 | once all three keys are set, no later handler changes any of them |
| Settings.SettingsTable.PatchSettings | internal/api/server.go:493-566 | never touches the keys; stores the given names, the server name normalised, and keeps or defaults the other; changes nothing at all when there is no field or the name is refused |
| Settings.StoredSettingsArePlain | internal/api/server.go:1847-1887 | over every run of the two handlers the stored name, public key and short id are trimmed |
| Settings.PlainIffShownAsCarried | internal/api/server.go:1889-1907 | links and documents show the same REALITY name, public key and short id if and only if the stored ones are trimmed |
| Settings.NormalizedIsTrimmed | internal/reality/keys.go:100-113 | an accepted REALITY name is non-empty, trimmed, lower case and without slash, space or colon |
| Settings.NormalizeSNIKeepsHosts | internal/reality/keys.go:100-113 | such a name is accepted as it is, and with either scheme or a slash at its end |
| Bodies.Hy2LinkDialsIffTrimmed | internal/api/server.go:2094-2124 | the Hysteria2 link names the server's port, its password is on the list, and the name it asks for is the certificate's exactly when the stored host name is trimmed |
| Bodies.NodeLineLeads | internal/api/server.go:2042-2124 | on a node of any legal stack whose listens are all Agreeing and whose Hysteria2 host name is trimmed, the link of every line leads to an inbound, the Hysteria2 server or the TrustTunnel deeplink of the document that node was sent |
| Bodies.LinkAt | internal/sub/render.go:73-107 | the link of a line stands in the body right after the links of the lines before it |
| Bodies.BodyLength | internal/sub/render.go:73-107 | a body has exactly one link per line that gives one |
| Bodies.LinesJoin | internal/api/server.go:2042-2093 | the lines of listens come in the order of the listens |
| Bodies.FamilyLinesJoin | internal/api/server.go:2094-2124 | and those of the applied families in theirs |
| Bodies.BodyIsOkIff | internal/sub/render.go:73-107 | a body is rendered if and only if no line of it is refused |
| Bodies.NodeLinesAreOkIff | internal/sub/render.go:109-112 | no line of a node is refused if and only if it has none, or has an address and no applied and permitted family is unknown |
| UserBodies.RenderUser | internal/api/server.go:1997-2149 | the loops over the nodes of the group give the links of all their lines, node after node, or the first error; nothing for a user who is out |
| UserBodies.NodesJoin | internal/api/server.go:2024-2125 | the lines of the nodes stand in the body in the order of the nodes |
| UserBodies.BodyIsRenderedIff | internal/api/server.go:2024-2149 | the body over all nodes of a group is rendered if and only if every node with a line has an address and offers no unknown family |
| UserBodies.BlankHostRefusesBodies | internal/api/server.go:2030-2033 | a plain node whose host name is blank but not empty compiles, and every body of its group is refused, whatever the other nodes are |
| UserBodies.EveryRenderedLinkLeads | internal/api/server.go:2024-2149 | soundness of a body over any number of nodes: when every listen of every node is Agreeing and Hysteria2 host names are trimmed, every link leads to an inbound, the Hysteria2 server or the TrustTunnel deeplink of the document one of the nodes was sent |
| UserBodies.EveryListenIsRendered | internal/api/server.go:2024-2124 | completeness: in a rendered body, every listen of every node whose family is applied and permitted, and whose credential the entitled user has, has its link, which dials it exactly when it is Agreeing |
| UserBodies.EveryFamilyIsRendered | internal/api/server.go:2094-2124 | completeness for Hysteria2 and TrustTunnel on every node |
| UserBodies.AppliedIsSent | internal/api/server.go:1717-1776 | the document an accepted apply leaves on a node with a legal stack is one the results on bodies are about |
| Bodies.PlainStackDials | internal/api/server.go:2024-2149 | end to end and for every node with the default VLESS REALITY gRPC listen: the document compiles, an entitled user of a permitting group gets exactly one link, and it dials the node's inbound |
| Kicks.FreshIsWanted | internal/api/server.go:1627-1709 | a compiled document admits wanted users only, and all of them when credentials are unique |
| Kicks.StepCovers | internal/api/traffic.go:124-177 | the inductive invariant: after every step, a stored user on an attached node is entitled, or will be noticed by the next sweep, or its group is owed a push |
| Kicks.SweepIsSafe | internal/api/traffic.go:124-177 | from any covered state one sweep leaves every user who is out off its nodes or its group pending |
| Kicks.KickSafety | internal/api/traffic.go:124-177 | over every run, restarts and refused pushes included: after each sweep, every stored user not entitled is on no attached node's accepted document, or its group is pending; provided no clock step expires a user put back since it was sampled as out |
| Kicks.SweepKicksIffGroupSelected | internal/api/traffic.go:160-171 | from any state, a sweep is sure to kick or mark an expired user on a node, whatever the agents answer, if and only if it selects the user's group |
| Kicks.RevokeEndsAccess | internal/api/server.go:1052-1080 | a revoked user is never entitled again, and is off every node of its group or the group is owed a push |
| Kicks.DeleteEndsAccess | internal/api/server.go:1120-1141 | a deleted user leaves no row and no cursor, and is off every node of its group or the group is owed a push |
| Kicks.LapseIsMissed | internal/api/traffic.go:160-166 | a user re-enabled and expired between two sweeps is missed |
| Convergence.StepSettles | internal/api/traffic.go:139-176 | the inductive invariant, kept by every step but a restart while a push is owed and an expiry the sweep cannot see: of the groups owed no push, nodes with a document hold all wanted users and nobody the next sweep would not notice |
| Convergence.SweepConverges | internal/api/traffic.go:139-176 | in every run that restarts only while nothing is pending, a sweep whose pushes are all accepted leaves nothing pending and every attached node that ever accepted a document with all wanted users, and with nobody else whose group still exists |
| Tidy.TidySweepConverges | internal/api/traffic.go:139-176 | when moreover nodes are created unattached and groups deleted with no push owed to them, every attached node without exception holds exactly its groups' entitled users |
| Quiescence.QuietIffNothingChanged | internal/api/traffic.go:139-171 | after such a sweep the next one selects no group if and only if no counter is due for zeroing and nobody's entitlement changed |
| Quiescence.QuietSweepSendsNothing | internal/api/traffic.go:171-176 | a sweep that selects no group has no apply accepted, owes none and leaves every document as it was |
| Quiescence.SweptUserIsDueIff | internal/sub/period.go:55-66 | a swept user, whether or not its start moved, is due again exactly when the clock enters a later period |
| Quiescence.NotDueWithinPeriod | internal/sub/period.go:55-66 | with no boundary of its period crossed no swept user is due, whatever start the row held; a lifetime quota has no boundary |
| Quiescence.RestingPlaneSendsNothing | internal/api/traffic.go:124-177 | quiescence end to end: after a sweep that left nothing pending, while no user's period boundary is crossed and nobody's entitlement changes, the next sweep selects no group and leaves every document as it was |
| Quiescence.RestsIffNothingHappens | internal/api/traffic.go:124-177 | and only then: when no stored start is in the future and the clock is past the period of Go's zero time, the next sweep selects no group if and only if no boundary is crossed and no entitlement changes |
| Exceptions.SweepMakesExactIff | internal/api/traffic.go:157-176 | from any state, restarts included, an accepted sweep leaves a node with exactly its wanted users if and only if it selects one of the node's groups or the node was exact already |
| Exceptions.RestartForgetsPush | internal/api/server.go:72-85 | a plane restart forgets a refused push: a wanted user stays off the node after the next accepted sweep while nobody is out |
| Exceptions.DeletedUserSurvives | internal/api/server.go:754-774 | deleting a user during a refused push and then its group leaves the credential on the node |
| Exceptions.StrayClearedIff | internal/api/server.go:754-774 | such a credential is cleared by an accepted sweep if and only if the sweep selects another group of the node |
| Exceptions.NodeCreatedAttachedStaysEmpty | internal/api/server.go:1256-1323 | a node created with quiet groups gets no document from an accepted sweep, though a user is wanted on it |
| Exceptions.NewNodeFilledIff | internal/api/server.go:1256-1323 | it is filled exactly when the sweep selects one of its groups or nobody is wanted there |
| Scenarios.LapseIsReached | internal/api/traffic.go:160-166 | a run from an installation reaches the lapse: the sweep leaves an expired user on its node with nothing pending |
| Scenarios.SurvivalIsReached | internal/api/server.go:754-774 | a run from an installation leaves a deleted user on its node after an accepted sweep |
| Scenarios.ForgottenPushIsReached | internal/api/server.go:72-85 | a run from an installation loses a refused push at a restart |
| Scenarios.EmptyNodeIsReached | internal/api/server.go:1256-1323 | a run from an installation leaves a node created attached without its user |
| Server.Server.UsersInGroup | internal/store/store.go:550-565 | the active users of a group, each once, in some order |
| Server.Server.ApplyStoredNode | internal/api/server.go:1596-1776 | the agent is asked exactly when nothing stops the apply before, once, with a document compiled from the tables at that moment whose REALITY keys are the stored ones, and its answer is the outcome; an accepted document is on the node, a refused one leaves it alone; stored keys do not change |
| Server.Server.ApplyGroupNodes | internal/api/server.go:1143-1171 | pushes every attached node; the group is pending afterwards exactly when some node did not accept; every deployable node was asked and counts as its agent answered, with a document that has the stored REALITY keys |
| Server.Server.CreditTraffic | internal/api/traffic.go:82-105 | credits one reading and collects the group of a user it takes from entitled to not |
| Server.Server.CollectTraffic | internal/api/traffic.go:41-105 | is the Collect step of the readings `Polling.AnswersAreRead` describes, and pushes the groups of that step by what the agents answer |
| Server.Server.SweepQuotas | internal/api/traffic.go:140-156 | is the quota step on every row, and returns the groups whose counters were cleared |
| Server.Server.Resample | internal/api/traffic.go:157-169 | replaces the sample map and returns the groups of users whose sample changed or who are new and out |
| Server.Server.SweepEntitlement | internal/api/traffic.go:124-177 | is the Sweep step |
| Server.Server.PatchUser | internal/api/server.go:936-1050 | is the PatchUser step: pushes only when an entitlement field was given |
| Server.Server.RevokeUser | internal/api/server.go:1052-1080 | is the RevokeUser step |
| Server.Server.DeleteUser | internal/api/server.go:1119-1141 | is the DeleteUser step |
| Server.Server.SetNodeGroups | internal/api/server.go:1384-1421 | is the SetNodeGroups step: a refused apply marks every group of the new set |
| Server.Server.CreateUsers | internal/api/server.go:808-934 | is the CreateUsers step, or changes nothing when the group is unknown |
| Server.Server.PatchGroup | internal/api/server.go:672-752 | is the PatchGroup step when protocols are given, and otherwise changes nothing modelled |
| Server.Server.DeleteGroup | internal/api/server.go:754-774 | conflict exactly when the group has users, not found exactly when it has none and does not exist, otherwise the DeleteGroup step |
| Server.Server.CreateNode | internal/api/server.go:1256-1308 | stores only legal stacks, as the CreateNode step, and pushes nothing |
| Server.Server.EnrollNode | internal/api/server.go:1356-1382 | succeeds exactly on a known node with address, token and a healthy agent, as the Enroll step |
| Server.Server.PatchNode | internal/api/server.go:1462-1507 | succeeds exactly when the families allow the host name, as the PatchNode step; a refused apply is not marked |
| Server.Server.DeleteNode | internal/api/server.go:1233-1254 | is the DeleteNode step: the node's cursors go with it |
| Server.PushOneMore | internal/api/traffic.go:173-176 | pushing groups one after another, in any order, is pushing them all: later pushes neither undo nor forget earlier ones |
| NodeLock.RunOrdered | internal/api/server.go:1591-1599 | in every state of every interleaving, each node's lock has one holder, its document is no newer than the tables and no newer than what the holder has read |
| NodeLock.DocumentsNeverGoBack | internal/api/server.go:1596-1599 | under any interleaving of applies and writes, the version of a group inside a node's accepted document never goes back |
| NodeLock.AcceptedApplyReflectsEarlierWrites | internal/api/server.go:1638-1646 | a write made before an apply took the lock is in every document the node accepts from that apply on which includes the group |
| Geo.HostReIsHostname | internal/geo/catalog.go:234-253 | the host regular expression accepts exactly the dot-separated sequences of two or more lower-case labels of section 2.1 of RFC 1123 |
| Geo.NormalizeHostTwice | internal/geo/catalog.go:234-253 | a normalised entry normalises to itself and is a host name |
| Geo.OneDotIsStripped | internal/geo/catalog.go:236 | exactly one leading dot is dropped from an entry |
| Geo.CompilePack | internal/geo/catalog.go:144-216 | the loops compute the declared result: id check, three lists in order, first refused entry, size limits |
| Geo.CompiledPackIsCanonical | internal/geo/catalog.go:144-216 | a compiled pack has three strictly increasing lists that hold exactly the normalised entries, all domains and suffixes host names |
| Geo.PackIgnoresOrderAndRepeats | internal/geo/catalog.go:144-216 | permuting or repeating entries changes neither success nor the geo pack that results |
| Geo.OutcomeExplains | internal/geo/catalog.go:144-216 | a refusal names the first entry refused, domains before suffixes before CIDRs, or the limit exceeded by the distinct entries; a result is within 2000 entries and 512 KiB |
| Geo.LessIff | internal/geo/catalog.go:191-193 | the order of the lists: a text before its extensions, otherwise by the first character that differs |
| Geo.BodyOfExample | internal/geo/catalog.go:201-203 | a body written out, with each list under its own name |
| Cidr.RecompilingIsIdentity | internal/geo/catalog.go:144-216 | compiling a geo pack's own lists gives the same geo pack again, when IPv6 prefixes in normal form normalise to themselves |
| Cidr.RecompilingIPv4IsIdentity | internal/geo/catalog.go:144-216 | with IPv4 prefixes only, the same with nothing assumed |
| Cidr.ParseInvertsShow | internal/geo/catalog.go:255-262 | every IPv4 prefix is read back from its print |
| Cidr.ParsedIsWritten | internal/geo/catalog.go:255-262 | only a dotted address of four bytes without leading zeros, a slash and a number up to 32 are read, as what they say |
| Cidr.MaskedIsFloor | internal/geo/catalog.go:255-262 | masking rounds the address, as a number of 32 bits, down to a multiple of the size of its network |
| Cidr.NormalizeCIDRTwice | internal/geo/catalog.go:255-262 | an IPv4 prefix in normal form normalises to itself |
| Cidr.SameTextIffSameNetwork | internal/geo/catalog.go:255-262 | two IPv4 prefixes are written alike exactly when they are one network |
| GeoScript.HostsAgreeIff | tools/build_geo_packs.mjs:30-41 | for every entry, the two sides give the same result if and only if what both trims leave is no host, or is an address and U+0085 is in the entry, or is another host and U+FEFF is in the entry exactly when U+0085 or U+0130 is |
| GeoScript.EntriesAre | internal/geo/catalog.go:234-253 | what each side accepts, and that both write an accepted entry alike, said without its own trimming and lowering |
| GeoScript.IdsAgree | tools/build_geo_packs.mjs:48-50 | the two pack id checks accept the same ids |
| GeoScript.EscapedSize | tools/build_geo_packs.mjs:57-59 | the size limit counts an ASCII character of a copied CIDR as JSON.stringify writes it |
| GeoScript.CompilersAgreeIff | tools/build_geo_packs.mjs:47-65 | for every allowlist: with all CIDRs in normal form, both compilers give the same geo pack or both refuse, if and only if they accept all hosts together or not at all, or the id or the size is out of bounds; with another CIDR, if and only if both refuse |
| GeoScript.PublishedIsServedIff | tools/build_geo_packs.mjs:47-65 | the geo pack the script prints is the one Go serves if and only if Go accepts every host and every CIDR is in normal form |
| Cidr.NormalFormIffNetwork | internal/geo/catalog.go:255-262 | an IPv4 entry is in normal form exactly when it is the print of a network, with no bit outside its prefix |
| Cidr.PublishedIPv4IsServedIff | tools/build_geo_packs.mjs:47-65 | the same on IPv4 allowlists with nothing assumed |
| Cidr.HostBitsDivide | tools/build_geo_packs.mjs:53 | every prefix with bits outside it is accepted by both compilers, masked by Go and copied by the script |
| GeoScript.PlainCompilersAgree | tools/build_geo_packs.mjs:47-65 | on allowlists without the three characters, ASCII ones among them, and with CIDRs in normal form, Go succeeds exactly when the script does and no host is an IPv4 literal |
| GeoScript.NextLineDivides | tools/build_geo_packs.mjs:30-41 | a host followed by U+0085 is accepted by Go and refused by the script |
| GeoScript.ByteOrderMarkDivides | tools/build_geo_packs.mjs:30-41 | a host followed by U+FEFF is accepted by the script and refused by Go |
| GeoScript.DottedCapitalDivides | tools/build_geo_packs.mjs:30-41 | a host with an i written as U+0130 is accepted by Go and refused by the script |
| Alerts.AlertServer.WantAlert | internal/api/alerts.go:95-107 | true exactly for a key not remembered, or whose wait (6 hours after a success, 5 minutes after a failure) is over |
| Alerts.AlertServer.PruneAlerts | internal/api/alerts.go:115-123 | keeps exactly the live keys, as they were |
| Alerts.AlertServer.PushAlerts | internal/api/alerts.go:175-207 | the remembered map and the history of posts are those of offering the alerts in order and pruning; the count returned is that of posts delivered |
| Alerts.AlertServer.AlertLoop | internal/api/alerts.go:209-224 | the map and the posts of a whole loop are those of a run of pushes, appended to the earlier history, and the posts of a key live at every tick are spaced as `AlertGaps` says |
| Alerts.AlertGaps | internal/api/alerts.go:95-113 | over any stretch of pushes in which a key stays live, two attempts of it are at least 5 minutes apart, and at least 6 hours after a success |
| Alerts.PushPostsIff | internal/api/alerts.go:184-205 | a push posts a key exactly when it lists it and wants it at its start, and forgets a key it does not list |
| Alerts.NextPostIff | internal/api/alerts.go:95-123 | once a key is remembered, and until it is posted again, the next push posts it if and only if it lists the key and some push in between missed it, or the wait is over |
| Alerts.GapBrokenIff | internal/api/alerts.go:95-123 | a post comes before its wait is over if and only if a push in between missed the key |
| Alerts.OncePerPush | internal/api/alerts.go:184-205 | no key is posted twice in one push even if listed twice, and every post is of a listed key |
| Alerts.PushRemembersExactlyLive | internal/api/alerts.go:184-205 | after a push the remembered keys are exactly those it listed |
| Alerts.ForgottenKeyPostsAgain | internal/api/alerts.go:115-123 | a run in which a key missing from one push is posted again at once |
| Login.FailWindow.Allowed | internal/api/server.go:288-301 | the compaction over the slice's own front keeps exactly the entries inside the window, in order, and allows under ten |
| Login.FailWindow.Failed | internal/api/server.go:303-307 | appends the time, in place while there is room |
| Login.FailWindow.Succeeded | internal/api/server.go:309-313 | a correct password empties the window |
| Login.FailWindow.TryWrong | internal/api/server.go:257-278 | a wrong password is one Try step: refused without being recorded, or recorded |
| Login.DecisionIsByRecordedFailures | internal/api/server.go:288-307 | whether an attempt is recorded depends on the failures recorded in the last 15 minutes of the whole history and nothing else, so refused attempts never extend a block |
| Login.RefusedIffTenRecent | internal/api/server.go:288-307 | an attempt is refused if and only if ten failures were recorded and the tenth last of them is less than 15 minutes old |
| Login.ElevenFailuresSpanTheWindow | internal/api/server.go:288-307 | any eleven consecutive recorded failures span at least 15 minutes |
| Stats.ParseUserStats | internal/xrayrun/stats.go:45-85 | one entry per distinct email in order of first appearance, each with its last reported values |
| Stats.OrderListsNamed | internal/xrayrun/stats.go:59-85 | an email is listed if and only if some row names it, and then a first row does |
| Stats.OrderIsByFirstAppearance | internal/xrayrun/stats.go:59-85 | no email is listed twice, and entries come in the order of the rows that first named them |
| Stats.LastValueIsLast | internal/xrayrun/stats.go:69-77 | the value of a counter is that of the last row that names it |
| Stats.UnreportedIsZero | internal/xrayrun/stats.go:59-77 | a counter no row names is 0 |
| Stats.ParseInvertsPrintIff | internal/xrayrun/stats.go:87-99 | the parser reads a printed stat name back if and only if the email is non-empty, trimmed, without the separator and not ending in its character |
| Stats.PrintedNames | internal/xrayrun/stats.go:87-99 | the printed names of the two counters, written out |
| Stats.ReadNameIsPrinted | internal/xrayrun/stats.go:87-99 | only such names are read, spaces around the email aside |

## Left out

- HTTP routing, JSON, SQL text, migrations, cookies, CORS, sessions, cryptography, URL escaping, the admin UI and the agents' own code.
- Database errors, and a PUT that times out but is carried out later: every PUT is accepted or leaves the node unchanged.
- Changing a node's stack inside a run of `Plane`: the agent keeps an omitted family running, and apply reads the node row before it takes the lock. `XrayConf.StoredStacksStayLegal` covers the table side alone.
- Nodes attached to no group: apply refuses them, so what they last accepted stays and no claim is made about it.
- Overlapping pushes of one group: `clearKick` runs after the applies and outside the node lock (`internal/api/server.go:1160-1169`), so one push can erase another's mark. Each push is atomic here.
- Which nodes a traffic poll asks and which answer: the answers of a poll are its input. Of the counts in the replies of polls and sweeps, only that of applied nodes is modelled.
- `UpdateUser` writing back counters read before a concurrent credit: a patch is an atomic override.
- How the handlers fill a row from a request (default quota and expiry, generated credentials, field checks): the new row is their input. `createGroup` is an event of `Plane` without a method in `Server`.
- Health probing and `IncludeNode` in `renderUser`, subscription headers, the display name fragment of a link, and the minting of TrustTunnel deeplinks.
- `AllPorts`, presets, `DetectPreset`, `NormalizeFamilies`, port clashes with the stats port, and tag uniqueness in the Xray configuration.
- Ids are numbers, not UUID text; a stats email is already resolved to an id or to none.
- Lower-casing is exact where its result is ASCII; other letters keep their own character, which no caller can tell apart.
- Characters are Unicode scalars: the script's UTF-16 order of characters beyond the basic plane is not modelled, and no accepted host name or normalised CIDR has any.
- SHA-256 of a geo pack body and its byte form: equal packs are compared instead of equal hashes.
- The webhook's URL check, the collection of alerts, and the fallback of an empty alert key to its text: keys are an input.
- The login limiter's map of addresses: one address at a time, and deleting its entry is emptying its slice.
- KickSafety: assumes that no clock step expires a user who was sampled as out and put back, because the code misses that user; `SweepKicksIffGroupSelected` is the condition without that assumption.
- SweepConverges: is about runs without a restart while a push is owed, from an installation, with unique credentials, without the expiry of KickSafety, and with totals that do not fall or overflow; `SweepMakesExactIff` is the exact condition from any state.
- QuietIffNothingChanged: looks at a second sweep with no event between the two but the clock.
- StoredSettingsArePlain: net.SplitHostPort is a parameter, the text NormalizeDest returns is an input, and concurrent first applies, which could each generate keys, are one step each. What `reality.Generate` would return is an input of the handlers, and only their first apply to need it uses it.
- RestsIffNothingHappens: the direction that rest implies quiet assumes stored starts not in the future and a clock past the period of Go's zero time; `RestingPlaneSendsNothing`, the other direction, assumes neither.
- CompilersAgreeIff: assumes of IPv6 prefixes that the normal form normalises to itself and needs no JSON escape; for IPv4 that is proved (`Cidr.PublishedIPv4IsServedIff`).
- RecompilingIsIdentity: assumes of IPv6 prefixes that the normal form normalises to itself; for IPv4 that is proved.
