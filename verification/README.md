# Verified model of the 4x-ui panel's core services

The panel manages Xray inbounds and SSH tunnels on one host. This project models the services that hold
its algorithms and state machines, and proves what they promise over every input and every run. Check it
with `dafny verify dfyconfig.toml` (Dafny 4.11).

JSON documents are typed records, database tables are sequences or maps, and everything outside the
process (nft, systemctl, sockets, the license server, the clock, failing updates) is an input of the step
that meets it, so every theorem quantifies over it. Go code that changes state in place is a class or a
method with loops; its contract equates the new state with a specification function, and the laws are
proved about that function or about runs of steps.

| module | service | main result |
|---|---|---|
| `XrayMarks` | mark assignment | a correct open-addressing table; which marks are reachable, exactly |
| `XrayRouting`, `XrayRoutingLaws` | speed-limit rewrite of the Xray config | where every connection goes after the rewrite; re-injection laws |
| `StatsRouting` | storing the template | the stats rule stays first through save and injection; unwrapping inverts wrapping |
| `NftPolicy`, `NftPackets`, `NftCache` | generated nft programs | a packet meets its own client's rules only; exactly when a signature determines the program |
| `SshMetering`, `SshMeteringLaws` | SSH usage | never over-counts in any run; increments telescope across failed reads; exactly who is switched off |
| `ClientTraffic`, `ClientTrafficLaws` | the traffic tick | bytes conserved, totals cover counters, one expiry for row and settings; exactly who is switched off |
| `WebSocketHub` | fan-out hub | gap-free delivery and single close under every interleaving |
| `PayloadPrelude`, `PayloadGateways`, `PayloadReconcile` | payload gateway | the backend stream by the client's bytes alone, however segmented; the listener table, and a full reconcile of it, under interleaving |
| `PortRegistry`, `PortRegistryLaws` | port reservation | no two inbounds on one port, over all changes of both tables; exactly which requests break it, public and hidden |
| `License` | license client | in every run permission is bounded by accepted tokens; exactly what gives it back |
| `IpLimiter` | IP limit job | exactly the excess is banned, for any map order |
| `UdpState`, `UdpRelay`, `UdpRelayLaws` | UDP relay services | make before break under failures; exactly when a service is forgotten |
| `CopyClients`, `CopyClientsLaws` | copying clients | who is copied, under which fresh email; accepted for every database iff no email begins with a quote |

`Text`, `Filters` and `Wrappers` hold number formatting, trimming, list filtering and the option types.

Where the documentation and the code differ, the code is modelled:

- The comments on the config rewrite describe its effect on limited clients only; moving block and api
  rules to the front also changes routes of unlimited clients. `UnlimitedRouteKeptIff` says when.
- The license comments promise immediate revocation. A refusal with a code does revoke (`RevokedUntilAccepted`).
  A refusal without one clears the recorded code; `EmptyRefusalReturnsIff` says exactly when permission
  then comes back at the time of the reply or later, and `EmptyRefusalUndoesACodedOne` gives such runs. A refusal that could not be saved is undone by the
  next restart (`UnsavedRevocationComesBack`); `RestartPermitsIff` says what a restart permits.
- A poll is meant to switch off every SSH user that reached its limit. One whose due reset could not be
  written stays on (`OverLimitStaysOnIff`).
- Copied emails are meant to pass the later duplicate check. They do for every database exactly when no
  copied email begins with a quote (`AcceptedIffNoLeadingQuote`).
- The SSH side reserves ports but never checks a gateway port it was sent, and an add request that
  carries the id of a stored row is not checked against that row. `AddKeepsInvIff` and
  `UpdateKeepsInvIff` say exactly when the tables stay free of conflicts.
- Hidden payload ports are meant to be reserved. One that is sent along is not compared with those of
  other rows (`AddXrayKeepsHiddenIff`, `UpdateXrayKeepsHiddenIff`), and the SSH side never looks at them
  (`SshChecksIgnoreHiddenPorts`).
- A renewal is meant to bring a client back. It switches on the row and never the client in the settings
  (`RenewedFlagsAgreeIff`).
- The state file of the relay services is overwritten in place. A write that is cut short forgets services
  that run (`LostUnstoppedIff`) and can name a port nobody owns (`CutRenamesAPort`).

## Model

| member | source | states |
|---|---|---|
| XrayMarks.AssignMarks | web/service/xray_limits.go:98-114 | the array ends up sorted by email with the marks of the specification |
| XrayMarks.FindFree | web/service/xray_limits.go:105-110 | probing stops at the first unused mark at or above the hash |
| XrayMarks.AssignedTable | web/service/xray_limits.go:98-114 | n clients get pairwise distinct marks between 0x200000 and 0x2fffff + n - 1, for every hash |
| XrayMarks.MarksDistinctAndBounded | web/service/xray_limits.go:101-113 | the i-th mark overshoots the hash range by at most i |
| XrayMarks.ReachableMarks | web/service/xray_limits.go:104-110 | a mark can be handed out by some hash if and only if it lies in that range: the bound is tight |
| XrayMarks.SshMarkClash | web/service/ssh_limits.go:111 | an SSH user's mark can meet a client's mark if and only if the user id reaches 0x100000 and not beyond the overshoot |
| XrayMarks.MarksIgnoreOrder | web/service/xray_limits.go:98-114 | with distinct emails a client's mark depends on the set of emails only |
| XrayMarks.AnySortAgrees | web/service/xray_limits.go:99 | with distinct emails every sorted permutation is the same list, so an unstable sort cannot show |
| XrayMarks.AssignedKeepsClients | web/service/xray_limits.go:98-114 | the result is a permutation of the clients with nothing but marks changed |
| XrayRouting.FilterOutbounds | web/service/xray_limits.go:125-132 | keeps the operator's outbounds in order |
| XrayRouting.FindBase | web/service/xray_limits.go:133-160 | the clone base is the first freedom outbound without its tag, or a synthesized one |
| XrayRouting.CollectBlockTags | web/service/xray_limits.go:183-190 | block, blocked and the tags of blackhole outbounds |
| XrayRouting.FilterRules | web/service/xray_limits.go:192-206 | keeps the operator's rules in order |
| XrayRouting.Classify | web/service/xray_limits.go:208-229 | splits the rules by kind, each in the operator's order |
| XrayRouting.Generate | web/service/xray_limits.go:231-260 | one marked outbound and one user rule per client |
| XrayRouting.XrayConfig.InjectBandwidth | web/service/xray_limits.go:116-278 | the new config on success, an unchanged one on a document that does not parse |
| XrayRoutingLaws.RewrittenRoute | web/service/xray_limits.go:183-266 | every connection takes the first matching api rule, else block rule, else its own speed rule, else what the cleaned rules said |
| XrayRoutingLaws.ApiRuleWins | web/service/xray_limits.go:213-221 | with limits in force the first matching rule to the tag api wins |
| XrayRoutingLaws.BlockRuleWins | web/service/xray_limits.go:183-225 | where none does, the first matching rule to block, blocked or the tag of a blackhole outbound wins, wherever the operator put it |
| XrayRoutingLaws.OwnRuleIsNext | web/service/xray_limits.go:213-266 | no other rule comes ahead of a limited client's own |
| XrayRoutingLaws.UnlimitedRouteKeptIff | web/service/xray_limits.go:208-266 | an unlimited user's rule is kept if and only if no rule moved ahead of it matches |
| XrayRoutingLaws.UnlimitedRouteCanChange | web/service/xray_limits.go:208-266 | a config for which it is not kept |
| XrayRoutingLaws.LimitedClientLeavesMarked | web/service/xray_limits.go:231-266 | a limited client that no rule to the api, to block, blocked or a blackhole outbound matches leaves through a freedom outbound with its own mark |
| XrayRoutingLaws.OthersLeaveUnchanged | web/service/xray_limits.go:183-266 | a connection whose rule is kept uses the very outbound it used before |
| XrayRoutingLaws.DefaultKeptIff | web/service/xray_limits.go:254-267 | a connection no rule matches keeps its outbound if and only if the operator has one or nothing is limited |
| XrayRoutingLaws.DefaultIsLostWithoutOutbounds | web/service/xray_limits.go:254-267 | otherwise it leaves through the first limited client's marked outbound |
| XrayRoutingLaws.TagsStayDistinct | web/service/xray_limits.go:125-160 | output tags are pairwise distinct when input tags were |
| XrayRoutingLaws.GeneratedRulesResolve | web/service/xray_limits.go:231-260 | every generated rule of the new config is one client's, and its tag resolves among all outbounds to a freedom outbound with that client's mark |
| XrayRoutingLaws.CleanRulesAfterInject | web/service/xray_limits.go:192-266 | cleaning an injected list gives the cleaned rules, hoisted when something was limited |
| XrayRoutingLaws.ReinjectionReplaces | web/service/xray_limits.go:116-278 | injecting A and then a non-empty B is injecting B |
| XrayRoutingLaws.InjectionIdempotent | web/service/xray_limits.go:116-278 | injecting the same list twice is injecting it once |
| XrayRoutingLaws.ClearingRestoresOrderIff | web/service/xray_limits.go:192-213 | removing all limits restores the operator's order if and only if nothing was limited or the rules were hoisted already |
| StatsRouting.Unwrap | web/service/xray_setting.go:56-88 | peels every wrapper layer, at most eight |
| StatsRouting.UnwrapInvertsWrap | web/service/xray_setting.go:56-88 | recovers the config from any mix of object and string layers if and only if there are at most eight |
| StatsRouting.FindApiRule | web/service/xray_setting.go:174-205 | the first api rule, or -1 when there is none |
| StatsRouting.EnsureStatsRouting | web/service/xray_setting.go:111-169 | the api rule is first, a document that does not parse or is right already is untouched |
| StatsRouting.PinnedRoute | web/service/xray_setting.go:134-150 | only connections the pinned rule matches change their route: the order of all other rules is kept |
| StatsRouting.StatsRuleSurvivesInjection | web/service/xray_limits.go:208-266 | after any injection of limits the api rule is still at index 0 and wins |
| StatsRouting.Save | web/service/xray_setting.go:17-31 | rejects what is no config or has a member of the wrong type, stores a template it cannot pin as it is, any other pinned |
| StatsRouting.SavedTemplateServesStats | web/service/xray_setting.go:111-169 | from save to running config: every connection of the api inbound reaches the api through the pinned rule, under any limits, if and only if that rule has no conditions but its inbounds |
| NftPolicy.BuildXrayPolicy | web/service/xray_limits.go:287-314 | the program and the signature of a client list |
| NftPolicy.BuildSshPolicy | web/service/ssh_limits.go:166-195 | the same for SSH users, skipping those without a uid |
| NftPolicy.XraySignatureDeterminesScript | web/service/xray_limits.go:298-313 | equal signature texts mean the same clients and an identical program when no email has a semicolon |
| NftPolicy.SshSignatureDeterminesScript | web/service/ssh_limits.go:180-194 | the same without any condition |
| NftPolicy.AmbiguousIff | web/service/xray_limits.go:298-313 | another list, with any marks, has the same signature and another program if and only if the list has two or more clients, or one whose email begins with a whole record and a semicolon |
| NftPolicy.SemicolonForgesSignature | web/service/xray_limits.go:98-114 | for lists the mark assignment yields: two or more clients, the last mark within the hash range, have a hash that gives them and one other client the same signature and different programs |
| NftPackets.XrayUpload | web/service/xray_limits.go:289-310 | an outgoing packet with a client's mark, its socket's or its own, counts once in that client's upload counter and meets that client's rate rule alone |
| NftPackets.XrayDownload | web/service/xray_limits.go:289-310 | a returning packet with a client's mark, its connection's or its own, meets that client's download rule, and counts unless dropped |
| NftPackets.XrayStranger | web/service/xray_limits.go:289-310 | a packet with no client's mark is neither counted nor policed |
| NftPackets.CountersDiffer | web/service/xray_limits.go:299-300 | clients and directions never share a counter |
| NftPackets.RateIsEnforced | web/service/ssh_limits.go:116-148 | a rate rule drops above an eighth of the megabits, with a burst of one second between 256 KiB and 8 MiB; there is none without a positive limit |
| NftPackets.XrayCountersAreDeclared | web/service/xray_limits.go:298-313 | every counter a rule names is declared in the program |
| NftPackets.SshCountersAreDeclared | web/service/ssh_limits.go:180-194 | the same for SSH users |
| NftPackets.TablesAreApart | web/service/ssh_limits.go:193 | the two programs are for two tables |
| NftPackets.LegacyAgrees | web/service/xray_limits.go:335-347 | the program without socket expressions treats a packet as the full one does when the kernel has set the packet's mark from its socket |
| NftPackets.SshUpload | web/service/ssh_limits.go:177-190 | an SSH user's packet counts once for that user and meets its rule alone |
| NftPackets.SshDownload | web/service/ssh_limits.go:187-190 | a returning packet counts for its user also when it is dropped |
| NftPackets.SshIgnoresXray | web/service/ssh_limits.go:111 | the SSH chains leave packets of Xray clients alone while user ids stay below 0x100000 |
| NftCache.XrayPolicyCache.Apply | web/service/xray_limits.go:316-352 | success means the kernel holds a program with this list's signature, and the program of exactly this list when it was loaded now or no email has a semicolon; a failed load leaves no signature in front of another program |
| NftCache.XrayPolicyCache.OutsideFlush | web/service/xray_limits.go:328-334 | a firewall reload in between keeps the cache valid |
| NftCache.SshPolicyCache.Ensure | web/service/ssh_limits.go:197-230 | true exactly when a table was loaded; a trusted signature belongs to this very program |
| NftCache.SshPolicyCache.Forget | web/service/ssh_limits.go:76-78 | forgetting the signature keeps the cache valid |
| SshMetering.SshMeter.ResetUserTraffic | web/service/ssh_limits.go:68-80 | row, baseline and true count start over, or nothing changes |
| SshMetering.SshMeter.ResetDue | web/service/ssh_limits.go:267-273 | the reset pass, user by user, is the pointwise reset of the due users |
| SshMetering.SshMeter.MeterUser | web/service/ssh_limits.go:276-318 | one user's row and baseline afterwards, for failed reads, updates and locks alike |
| SshMetering.SshMeter.ReconcileUserLimits | web/service/ssh_limits.go:260-319 | a whole poll refines the pointwise transition |
| SshMetering.StepKeepsInv | web/service/ssh_limits.go:260-319 | recorded usage plus what the next reading would add stays at most what was sent, under every event |
| SshMetering.NeverOverCounts | web/service/ssh_limits.go:274-304 | in every run of traffic, polls, failed reads, outside resets, policy replacements, user resets and restarts, usage is at most the bytes that reached the chains since the last reset |
| SshMetering.DisabledForAReason | web/service/ssh_limits.go:297-317 | a poll disables a user only if it truly sent its limit or expired |
| SshMetering.IncrementsTelescope | web/service/ssh_limits.go:281-295 | between counter resets recorded usage grows by exactly the difference of the baselines, however many reads fail |
| SshMetering.NothingMissed | web/service/ssh_limits.go:281-295 | after a successful poll nothing counted since the baseline is missing or doubled |
| SshMetering.ResetOncePerPeriod | web/service/ssh_limits.go:82-101 | a periodic reset happens at most once per day, week or month |
| SshMeteringLaws.ResetDueIff | web/service/ssh_limits.go:82-101 | a reset is due exactly when the last one was in another day, week or month of its rhythm, or there was none |
| SshMeteringLaws.EnabledAfterPollIff | web/service/ssh_limits.go:276-318 | a user that was on is off after a poll if and only if the account could be locked and the loaded usage, 0 if a reset was due, plus the new bytes reaches a positive limit, or the expiry has come |
| SshMeteringLaws.UsedAfterPoll | web/service/ssh_limits.go:267-295 | the stored usage: from 0 after a successful reset, plus the new bytes if they could be saved |
| SshMeteringLaws.OverLimitStaysOnIff | web/service/ssh_limits.go:267-303 | a user stays on with its limit reached if and only if a due reset failed and the new bytes alone stay below |
| SshMeteringLaws.PollEnforcesLimits | web/service/ssh_limits.go:276-318 | otherwise nobody whose account can be locked stays on over its limit or past its date |
| SshMeteringLaws.FailedResetKeepsTheUserOn | web/service/ssh_limits.go:267-273 | such a poll |
| ClientTraffic.RenewExpiry | web/service/inbound.go:1705-1708 | the renewal loop ends at the closed form by ceiling division |
| ClientTraffic.RenewedIsLeast | web/service/inbound.go:1705-1708 | the renewed date is the least old + k * period that is not in the past; a date equal to now stays |
| ClientTraffic.Store.VisitAll | web/service/inbound.go:1618-1646 | the nested loops, changing rows and settings in place, compute the pass that `PassIsPointwise` resolves |
| ClientTraffic.Store.MergeReports | web/service/inbound.go:1572-1590 | the loop over a map of the reports adds to every row the last report of its email and nothing else |
| ClientTraffic.Store.AddClientTraffic | web/service/inbound.go:1535-1599 | the new rows and settings after starting delayed expiries and counting |
| ClientTraffic.Store.AutoRenewClients | web/service/inbound.go:1659-1743 | the new rows and settings after renewal, which `RenewalIsExact` characterizes |
| ClientTraffic.Store.DisableInvalidClients | web/service/inbound.go:1797-1903 | exhausted or expired rows are switched off, and in each inbound the clients of such rows of that inbound |
| ClientTraffic.Store.AddTraffic | web/service/inbound.go:1469-1508 | the client part of the tick is the three passes in order |
| ClientTraffic.Store.ResetOneClient | web/service/inbound.go:2386-2400 | a reset by email zeroes the counters, keeps the total and enables the row |
| ClientTraffic.Store.ResetAllClients | web/service/inbound.go:2465-2485 | the same for one inbound or all |
| ClientTraffic.Store.EditClient | web/service/inbound.go:2807-2828 | an edit sets the counters and raises the total when they exceed it |
| ClientTrafficLaws.PassIsPointwise | web/service/inbound.go:1618-1650 | with distinct emails the nested, mutating loops amount to one independent update of every row and client |
| ClientTrafficLaws.StepKeepsAgreement | web/service/inbound.go:1601-1745 | the whole tick keeps one expiry for each stats row and its settings client |
| ClientTrafficLaws.DelayedExpiryStarts | web/service/inbound.go:1604-1634 | a delayed expiry -d becomes now + d exactly for reported clients in the settings of an inbound that such a row names |
| ClientTrafficLaws.OwnInboundIsLoaded | web/service/inbound.go:1602-1613 | the inbound a row names is such an inbound for it |
| ClientTrafficLaws.RenewalIsExact | web/service/inbound.go:1665-1727 | renewal changes exactly the rows with a period and a date that has come whose client it meets, and how |
| ClientTrafficLaws.RunOneMore | web/service/inbound.go:1469-1508 | a run takes ticks, resets and edits one after the other |
| ClientTrafficLaws.ExpiryMovesForward | web/service/inbound.go:1601-1745 | over every run a date only moves forward, never stays never, a delay turns into a date once |
| ClientTrafficLaws.ReportsAreCounted | web/service/inbound.go:1572-1590 | each row gets exactly the bytes reported for its email, up and down, and the time when there were any |
| ClientTrafficLaws.TickSwitchesOffIff | web/service/inbound.go:1797-1840 | after a tick no row is on with its total used up or its date past, and a row that was on is off exactly for one of these |
| ClientTrafficLaws.TickSwitchesClientOffIff | web/service/inbound.go:1842-1903 | a settings client goes off exactly when the tick switched off a row of its inbound and email |
| ClientTrafficLaws.ChangesAreExact | web/service/inbound.go:2386-2485 | resets and edits change exactly the rows they name, and how |
| ClientTrafficLaws.RenewalKeepsClientFlags | web/service/inbound.go:1701-1727 | renewal leaves the flag of every client in the settings as it was |
| ClientTrafficLaws.RenewedFlagsAgreeIff | web/service/inbound.go:1701-1727 | a renewed row and its client agree on the flag afterwards if and only if the client was on |
| ClientTrafficLaws.RenewalLeavesTheClientOff | web/service/inbound.go:1713-1714 | a database in which they come to differ |
| ClientTrafficLaws.MergeIsNestedLoop | web/service/inbound.go:1569-1590 | the map-based merge is the nested loop when every email is reported once |
| ClientTrafficLaws.MergeConserves | web/service/inbound.go:1578-1590 | the all-time totals grow by exactly the reported bytes that have a row |
| ClientTrafficLaws.TickConserves | web/service/inbound.go:1469-1508 | the same for the whole tick: starting, renewing and disabling move no bytes |
| ClientTrafficLaws.StepKeepsCovered | web/service/inbound.go:2386-2480 | ticks, renewals, resets and edits keep all_time at least up + down, and never lower it |
| ClientTrafficLaws.RunKeepsCovered | web/service/inbound.go:2807-2828 | the same over every run, for edits of any values |
| WebSocketHub.Hub.RegisterClient | web/websocket/hub.go:172-180 | the hub's state afterwards is that of the atomic registration step |
| WebSocketHub.Hub.RemoveClient | web/websocket/hub.go:206-215 | removal is the atomic step also in the middle of a fan-out, and a no-op for a client already gone |
| WebSocketHub.Hub.TrySendTo | web/websocket/hub.go:262-274 | a send fails exactly on a full or closed channel |
| WebSocketHub.Hub.Fanout | web/websocket/hub.go:222-256 | without interference the call is the snapshot step, one send step per target and the eviction step |
| WebSocketHub.Hub.ShutdownAll | web/websocket/hub.go:195-203 | shutdown closes and forgets every client |
| WebSocketHub.StepKeepsInv | web/websocket/hub.go:158-274 | every atomic step keeps the delivery and channel invariant |
| WebSocketHub.DeliveryHasNoGaps | web/websocket/hub.go:166-256 | under every interleaving a client was sent a contiguous run of the fan-out log from its registration on |
| WebSocketHub.RegisteredClientsGetEverything | web/websocket/hub.go:222-256 | a registered client lags behind by nothing between fan-outs |
| WebSocketHub.ChannelsCloseOnce | web/websocket/hub.go:195-256 | a registered client's channel is open, and none is closed twice even without closeOnce |
| WebSocketHub.SendNeverStuck | web/websocket/hub.go:237-255 | whatever is removed meanwhile, a fan-out can go on |
| WebSocketHub.RemovedIsGone | web/websocket/hub.go:205-215 | a removed client is gone and its channel closed, and nobody else notices |
| WebSocketHub.SendDelivers | web/websocket/hub.go:240-244 | a target gets the message if its channel is open and holds less than 512, and is marked otherwise |
| WebSocketHub.EvictedAreGone | web/websocket/hub.go:246-256 | exactly the marked clients are evicted and closed, and all on shutdown |
| WebSocketHub.FanoutAchieves | web/websocket/hub.go:222-257 | an undisturbed fan-out gives the message to exactly the clients with room and closes the others, in any order |
| WebSocketHub.FanoutIsARun | web/websocket/hub.go:222-257 | it is one of the runs of atomic steps: a snapshot, a send for each target, an eviction |
| WebSocketHub.ReturningClientIsClosedTwice | web/websocket/hub.go:172-203 | registering a removed client again does close twice: the condition is needed |
| WebSocketHub.Throttle.ShouldThrottle | web/websocket/hub.go:118-130 | drops exactly gated types within the interval and remembers exactly the broadcasts that pass |
| WebSocketHub.ThrottleSpacing | web/websocket/hub.go:105-130 | passed broadcasts of a throttled type are at least 250 ms apart; other types always pass |
| WebSocketHub.PassesIff | web/websocket/hub.go:105-130 | a broadcast passes if and only if its type is not gated or none of its type passed less than 250 ms ago |
| PayloadPrelude.Read | web/service/payload_bypass.go:216-233 | a prelude that succeeds never holds more than 65536 bytes, and its header lies within them |
| PayloadPrelude.ReadPrelude | web/service/payload_bypass.go:210-234 | the read loop computes the specified outcome and leaves the unread segments |
| PayloadPrelude.Handle | web/service/payload_bypass.go:255-299 | what the backend receives and whether the client gets the 101 reply |
| PayloadPrelude.SegmentationIndependent | web/service/payload_bypass.go:210-299 | whenever the prelude succeeds the backend's bytes depend on the client stream alone |
| PayloadPrelude.HandledByBytes | web/service/payload_bypass.go:201-299 | a connection that is not given up forwards its whole stream without a reply if and only if it begins with the TLS bytes or its header names the WebSocket key; else it gets the 101 and the backend what follows the header |
| PayloadPrelude.HandshakeIff | web/service/payload_bypass.go:236-243 | the key is named exactly when a line break is followed by sec-websocket-key: in any mixture of cases |
| PayloadPrelude.AlwaysSucceedsIff | web/service/payload_bypass.go:214-233 | a header gets through under every segmentation if and only if it ends by byte 61441 or the stream fits the limit |
| PayloadPrelude.JumpingSegmentsFail | web/service/payload_bypass.go:217-219 | the segmentation that fails otherwise |
| PayloadPrelude.TlsAlwaysPlainNever | web/service/payload_bypass.go:201-234 | TLS always gets through, a stream with no blank line and no TLS prefix never |
| PayloadGateways.EnsuredIsStable | web/service/payload_bypass.go:399-424 | an ensured row is valid and ensuring it again changes nothing |
| PayloadGateways.Manager.ReconcileOne | web/service/payload_bypass.go:79-114 | one row: its listener is stopped, kept or replaced, and the call reports whether the row is served |
| PayloadGateways.Manager.StopGateway | web/service/payload_bypass.go:144-157 | closes and forgets one entry |
| PayloadGateways.Manager.StopAllExcept | web/service/payload_bypass.go:159-170 | closes and forgets all others, in any order |
| PayloadGateways.Manager.RemoveEntryIfCurrent | web/service/payload_bypass.go:133-142 | the cleanup of an accept loop removes its own entry only |
| PayloadGateways.Manager.Perform | web/service/payload_bypass.go:79-189 | each locked operation is one step of the transition system |
| PayloadGateways.Manager.Interfere | web/service/payload_bypass.go:79-189 | any sequence of them is a run of it |
| PayloadGateways.StepKeepsInv | web/service/payload_bypass.go:79-189 | every step keeps entries open and listeners owned |
| PayloadGateways.EntriesAreOpen | web/service/payload_bypass.go:79-189 | under every interleaving an entry has an open listener of its own inbound |
| PayloadGateways.ClosedLoopRemovesNothing | web/service/payload_bypass.go:133-142 | a finished accept loop of a replaced gateway never removes its successor |
| PayloadGateways.FailedLoopLeaksItsListener | web/service/payload_bypass.go:176-189 | a loop that ends on another error leaves its listener open without an entry |
| PayloadReconcile.ReconcileAll | web/service/payload_bypass.go:430-460 | a full pass with other goroutines' steps between the rows: the table, the rows written back and the result; nothing is retired on an error |
| PayloadReconcile.ConfigIsTheRows | web/service/payload_bypass.go:49-70 | the listener's address and ports are the row's, one spelling for each wildcard and the local address |
| PayloadReconcile.EnsuredIff | web/service/payload_bypass.go:342-424 | a row passes the check if and only if its stream is a plain WebSocket and its two ports are in range and differ; the hidden port it ends with |
| PayloadReconcile.ReconciledAchieves | web/service/payload_bypass.go:79-114 | a row that is off ends without an entry and closed; any other is served with its configuration if and only if it is valid and its listener is there or opens; no other inbound is touched |
| PayloadReconcile.RowIsDoneIff | web/service/payload_bypass.go:442-456 | when one row of a pass is left out, done, or fails |
| PayloadReconcile.PassSucceeds | web/service/payload_bypass.go:430-460 | a pass succeeds under any interference when every wanted row passes, can be stored and listened for, and not when one does not pass or cannot be stored |
| PayloadReconcile.FullReconcile | web/service/payload_bypass.go:430-460 | after success under any interference the keys are wanted inbounds, and each stored row has an open listener with its config unless its inbound was touched after its row was done; its accept loop has failed exactly when it did so after that or had before |
| PayloadReconcile.MissingOnlyIfTouched | web/service/payload_bypass.go:430-460 | a wanted inbound is missing at the end only if its entry was stopped, replaced or its loop ended after its row was done |
| PayloadReconcile.FullReconcileIsExact | web/service/payload_bypass.go:430-460 | undisturbed, the keys are exactly the enabled payload-bypass inbounds, each open with the stored config, and none with a failed loop if there was none before |
| PortRegistry.CollectReservedPorts | web/service/ssh_manager.go:191-235 | the loops compute the map that `ReservedExactly` characterizes, later owners overwriting earlier ones |
| PortRegistry.CheckInboundPorts | web/service/ssh_manager.go:259-320 | accepts exactly when no port but a shared relay is reserved and new ports are free on the host |
| PortRegistry.AllocateGatewayPort | web/service/ssh_manager.go:324-341 | the first unused of twenty offered ports |
| PortRegistry.ExternalPortOwner | web/service/inbound_ports.go:31-68 | whether an SSH row or the panel owns a port |
| PortRegistryLaws.ReservedExactly | web/service/ssh_manager.go:191-235 | the reserved ports are exactly the positive ports of the other SSH rows, of all Xray rows and of the panel |
| PortRegistryLaws.PortsOkIff | web/service/ssh_manager.go:259-320 | ports are admitted if and only if listen and backend port are nobody's, the relay port nobody's but a relay, and the host has them free or running for this very use |
| PortRegistryLaws.AllocatedIff | web/service/ssh_manager.go:324-341 | a gateway port is drawn if and only if it is the first of twenty offered that is nobody's and none of the row's |
| PortRegistryLaws.ValidatedIff | web/service/ssh_manager.go:120-186 | a request is valid if and only if its ports are in range and differ as the mode needs, with a certificate for TLS |
| PortRegistryLaws.AddedIff | web/service/ssh_manager.go:362-388 | when an add is accepted, and the row that is stored |
| PortRegistryLaws.UpdatedIff | web/service/ssh_manager.go:390-431 | when an update is accepted, and the row that is stored, gateway included |
| PortRegistryLaws.DeletedIsGone | web/service/ssh_manager.go:433-454 | a delete removes exactly that row, and a refused one leaves exactly the old rows |
| PortRegistryLaws.DeletedXrayIsGone | web/service/inbound.go:365-425 | the same for an Xray row |
| PortRegistryLaws.EnabledAlone | web/service/ssh_manager.go:456-475 | switching an SSH row changes its flag alone |
| PortRegistryLaws.AddedXrayIff | web/service/inbound.go:239-252 | an Xray row is accepted if and only if no row overlaps with its port, neither service has it, and it passes the payload check; what is stored |
| PortRegistryLaws.UpdatedXrayIff | web/service/inbound.go:513-535 | the same for an update, which keeps the hidden port the row has |
| PortRegistryLaws.AllocatedHiddenIff | web/service/payload_bypass.go:368-397 | the hidden port drawn is the first of 32 offered that nobody has |
| PortRegistryLaws.XrayEnabledAlone | web/service/inbound.go:440-475 | switching an Xray row changes its flag alone, and leaves it off when it does not pass or come up |
| PortRegistryLaws.SharedRelayIsOnlyARelay | web/service/ssh_manager.go:266-269 | under the invariant a port recorded as a relay is nothing else, which makes sharing it sound |
| PortRegistryLaws.SharingNeedsTheInvariant | web/service/ssh_manager.go:211-216 | without the invariant the record admits a port that is another row's listen port |
| PortRegistryLaws.FitsIffGatewayFree | web/service/ssh_manager.go:259-320 | an admitted row is free of conflicts if and only if its gateway port is not reserved |
| PortRegistryLaws.AddKeepsInvIff | web/service/ssh_manager.go:362-388 | adding keeps the tables free of conflicts if and only if a gateway port sent for a TLS mode is not reserved and the row shares no port with a stored row of the id the request carried |
| PortRegistryLaws.AddingUnderAStoredIdConflicts | web/service/ssh_manager.go:362-375 | the failing input: a row added again under its own id passes the checks even with no port free, and conflicts |
| PortRegistryLaws.UpdateKeepsInvIff | web/service/ssh_manager.go:390-431 | the same for updates in payload mode; kept and allocated gateways are always safe |
| PortRegistryLaws.UpdateXrayKeepsInv | web/service/inbound.go:513-535 | updating an Xray row keeps the public ports apart, whatever hidden port is sent |
| PortRegistryLaws.AddXrayKeepsInv | web/service/inbound.go:239-252 | so does adding one, under any id, also that of a stored row |
| PortRegistryLaws.AddXrayKeepsHiddenIff | web/service/payload_bypass.go:399-424 | an accepted add keeps the hidden ports apart if and only if it brings none that another row has as hidden or public port |
| PortRegistryLaws.UpdateXrayKeepsHiddenIff | web/service/inbound.go:527-532 | an accepted update does if and only if it brings none or the stored row's own is kept |
| PortRegistryLaws.SentHiddenPortConflicts | web/service/payload_bypass.go:399-424 | the failing input: a new row whose hidden port is another row's public port |
| PortRegistryLaws.SshChecksIgnoreHiddenPorts | web/service/ssh_manager.go:218-226 | the SSH side accepts, refuses and completes a request alike whatever the hidden ports are |
| PortRegistryLaws.ChangeKeepsInvIff | web/service/ssh_manager.go:362-471 | any change, accepted, refused, rolled back, or left by a failed rollback, keeps the public ports apart if and only if it is safe: a stored SSH row brings no reserved gateway port and is apart from a row whose id was sent |
| PortRegistryLaws.ChangeKeepsHiddenIff | web/service/inbound.go:239-252 | it keeps the hidden ports apart if and only if a stored Xray row brings no taken one |
| PortRegistryLaws.UsualIsSafe | web/service/ssh_manager.go:362-431 | requests that leave ids, gateway and hidden ports to the panel, or send them back as stored, are safe |
| PortRegistryLaws.RunOneMore | web/service/ssh_manager.go:362-471 | a run takes its changes one after the other |
| PortRegistryLaws.RunKeepsInvIff | web/service/ssh_manager.go:362-471 | over any run the public ports are apart all the time if and only if every change is safe |
| PortRegistryLaws.RunKeepsHiddenIff | web/service/inbound.go:239-252 | the same for the hidden ports |
| PortRegistryLaws.PortsNeverConflict | web/service/ssh_manager.go:191-431 | over all sequences of safe changes, whatever hidden ports are sent: SSH rows share only a common relay, no SSH row uses an Xray or panel port, Xray rows on one port have different single addresses |
| PortRegistryLaws.HiddenPortsNeverConflict | web/service/payload_bypass.go:359-397 | if none brings a taken hidden port, a hidden port is no other Xray port of any kind |
| PortRegistryLaws.AddedGatewayClashesIff | web/service/ssh_manager.go:362-388 | an added row's gateway port is its own listen or backend port if and only if it was sent so for a TLS mode |
| PortRegistryLaws.UpdatedGatewayClashesIff | web/service/ssh_manager.go:402-418 | an updated row's is if and only if one was sent so, or none was sent and the stored one, not the relay port, is one of the new ports |
| PortRegistryLaws.KeptGatewayCanMeetItsOwnListenPort | web/service/ssh_manager.go:402-407 | such an update of a disabled row, accepted with no other port free |
| PortRegistryLaws.Tables.ValidateInbound | web/service/ssh_manager.go:120-186 | refuses or returns the row with backend and gateway ports as the mode wants them |
| PortRegistryLaws.Tables.AddInbound | web/service/ssh_manager.go:362-388 | insert, reconcile, undo: the table afterwards and the result |
| PortRegistryLaws.Tables.UpdateInbound | web/service/ssh_manager.go:390-431 | save, reconcile, restore: the table afterwards and the result |
| PortRegistryLaws.Tables.DelInbound | web/service/ssh_manager.go:433-454 | delete, reconcile, put back |
| Text.BlankIffTrimmed | web/service/license.go:130 | a text trims to nothing exactly when it is all white space |
| License.Manager.RememberServerError | web/service/license.go:400-414 | a refusal records its code, keeps the key of a known license and takes over a positive expiry |
| License.Manager.CheckToken | web/service/license.go:318-332 | the cached key first, then once with a fresh key |
| License.Manager.Activate | web/service/license.go:416-465 | succeeds exactly on an accepted and saved token |
| License.Manager.Verify | web/service/license.go:467-518 | the same, and under the offline grace when the server is unreachable |
| License.Manager.constructor | web/service/license.go:111-149 | a start rebuilds the claims from the signed token, or starts fresh when the file cannot be read |
| License.AcceptedIff | web/service/license.go:248-345 | a token is accepted if and only if its claims are an active license of this device that has not expired and the cached key, or the one fetched in its place, or one fetched once more verifies it; the key that remains |
| License.AcceptedPermitsIff | web/service/license.go:416-465 | an accepted token permits exactly the times before its expiry and within 48 hours of its issue, or of the answer |
| License.LoadedPermitsIff | web/service/license.go:111-149 | what a start permits, by the saved token and key |
| License.NormalizedIs | web/service/license.go:173-175 | the key is sent without surrounding space and in capitals |
| License.PermissionIsBounded | web/service/license.go:520-545 | in every run with any refusals, outages, restarts and failed saves, permission lies within 48 hours of the verification of a token that a parsed key verified and that names this device, and before its expiry unless a refusal without a code occurred and some refusal carried a later expiry |
| License.StepGivesIff | web/service/license.go:400-545 | a step that is no accepted token gives permission at a time if and only if it is a restart whose saved state permits it, or a refusal without a code on a licensed state under the stated bounds |
| License.PermissionReturnsOnlyBy | web/service/license.go:400-545 | over every run from any state, missing permission comes back by an accepted token or such a step |
| License.EmptyRefusalReturnsIff | web/service/license.go:400-414 | answered at a time, a refusal without a code gives permission at that or a later time if and only if the stated condition on the state holds |
| License.EmptyRefusalUndoesACodedOne | web/service/license.go:400-414 | from every state with permission a refusal with a code takes it away and one without brings it back up to the expiry last heard of, without a token |
| License.RestartPermitsIff | web/service/license.go:111-149 | a restart permits exactly what the saved state permits, if the cached token still verifies |
| License.LostUntilAccepted | web/service/license.go:520-545 | with coded refusals and saves failing freely, lost permission at any later time takes another accepted token, or a restart that finds an older state saved |
| License.RevokedUntilAccepted | web/service/license.go:520-529 | a refusal with a code, saved or not and also for a mistyped key, revokes at every time until a token is accepted or such a restart |
| License.SteadyRestartsNeedAToken | web/service/license.go:416-545 | when every restart finds what was in memory, only an accepted token brings permission back |
| License.RunKeepsSteady | web/service/license.go:151-172 | that is so when no save and no read fails |
| License.UnsavedRevocationComesBack | web/service/license.go:400-414 | a refusal that is not saved is always undone by a restart |
| License.SuspensionCanBeLost | web/service/license.go:400-414 | a run from a fresh installation that does so, for every key and valid token |
| IpLimiter.MergeClientIps | web/job/check_client_ip_job.go:233-250 | the two loops compute the map that `MergeIsLatest` characterizes |
| IpLimiter.MergeIsLatest | web/job/check_client_ip_job.go:227-250 | with no address stored twice the merge is the latest fresh time of every address |
| IpLimiter.StoredTwiceIsNotLatest | web/job/check_client_ip_job.go:235-240 | with one stored twice it need not be |
| IpLimiter.PartitionLiveIps | web/job/check_client_ip_job.go:267-281 | for any map order, live and historical split the merge, each oldest first |
| IpLimiter.SortByTime | web/job/check_client_ip_job.go:278-279 | a sorted permutation, ties in any order |
| IpLimiter.Limiter.Update | web/job/check_client_ip_job.go:348-461 | the record after a scan on every path, and when the log is to be cleaned |
| IpLimiter.ScanBansTheExcess | web/job/check_client_ip_job.go:416-445 | exactly max(0, live - limit) addresses are banned, only live ones, no kept one newer; the rest of the merge is stored |
| IpLimiter.OtherScansBanNobody | web/job/check_client_ip_job.go:348-402 | a scan without a limit, a known inbound or a log bans nobody, and what it stores |
| IpLimiter.StoredStaysDistinct | web/job/check_client_ip_job.go:376-447 | over any number of scans no address is stored twice, so every merge is exact |
| UdpState.ReadState | web/service/ssh_udp_relay.go:344-356 | the loop over the fields collects exactly the valid ports in the text |
| UdpState.WriteState | web/service/ssh_udp_relay.go:367-381 | the file after a write that completes, does not open it, or is cut short |
| UdpState.WrittenIsRead | web/service/ssh_udp_relay.go:344-381 | round trip: the text written for ports is read as these ports |
| UdpState.WriteIsRead | web/service/ssh_udp_relay.go:344-381 | a complete write of any set of ports is read as that set |
| UdpState.CutFile | web/service/ssh_udp_relay.go:380 | a cut file is read as a prefix of the sorted ports and at most one number made of the first digits of the next |
| UdpState.CutReadsIff | web/service/ssh_udp_relay.go:344-381 | a cut file names a port if and only if its number ends before the cut or the first digits of the next number spell it |
| UdpState.CutKeepsIff | web/service/ssh_udp_relay.go:344-381 | a written port is still named if and only if the cut is not before the end of its number |
| UdpState.CutRenamesAPort | web/service/ssh_udp_relay.go:380 | a cut that makes another port of a number |
| UdpRelay.DesiredPorts | web/service/ssh_udp_relay.go:650-656 | the wanted ports of all inbounds, once each and in range, for any map order |
| UdpRelay.Relays.StartEach | web/service/ssh_udp_relay.go:463-511 | the commands are those of the ports in order up to the first failure, and the new ports are collected |
| UdpRelay.Relays.StopEach | web/service/ssh_udp_relay.go:516-529 | the retire loop; what does not stop stays owned |
| UdpRelay.Relays.ReconcileSystemd | web/service/ssh_udp_relay.go:450-538 | commands, state file and result of a reconcile |
| UdpRelay.Relays.StopSystemd | web/service/ssh_udp_relay.go:426-448 | commands, state file and result of a stop |
| UdpRelay.Relays.ReconcileFallback | web/service/ssh_udp_relay.go:616-645 | the processes of the panel itself: stopped, kept and started in order up to the first that does not answer |
| UdpRelay.Relays.ReconcileAll | web/service/ssh_udp_relay.go:650-671 | with and without systemd; with no port wanted what is owned is stopped, else reconciled when the tool is there |
| UdpRelayLaws.StartErrorRetiresNothing | web/service/ssh_udp_relay.go:463-511 | an error while starting never disables an owned port and leaves the state file |
| UdpRelayLaws.SucceedsIff | web/service/ssh_udp_relay.go:450-538 | success if and only if every desired port listens and the state is written; the file then names desired plus the old ports that did not stop, and otherwise is as it was or what a cut write left of it |
| UdpRelayLaws.ListensMeansReady | web/service/ssh_udp_relay.go:466-507 | a port counts as up only when its socket was healthy or answered |
| UdpRelayLaws.ListensIff | web/service/ssh_udp_relay.go:463-511 | when a wanted port ends up listening, by what the host answers |
| UdpRelayLaws.StartIsIssued | web/service/ssh_udp_relay.go:463-511 | a port that needs it is enabled, started or restarted, and disabled again only if it is new and failed |
| UdpRelayLaws.WantedIff | web/service/ssh_udp_relay.go:650-656 | a port is wanted if and only if it is in range and some inbound names it |
| UdpRelayLaws.StopSucceedsIff | web/service/ssh_udp_relay.go:426-448 | a stop disables every recorded port, and succeeds if and only if all of them stop |
| UdpRelayLaws.NoToolNoChange | web/service/ssh_udp_relay.go:663-666 | without the relay program nothing is done |
| UdpRelayLaws.SuccessDisablesNoneWanted | web/service/ssh_udp_relay.go:516-538 | after a success no wanted port was disabled |
| UdpRelayLaws.WantedPortsSurvive | web/service/ssh_udp_relay.go:490-537 | a port both owned and desired is never disabled, however the call ends |
| UdpRelayLaws.MakeBeforeBreak | web/service/ssh_udp_relay.go:459-529 | when an owned port is disabled every desired port listens and no start is to come |
| UdpRelayLaws.WriteFailureUndoesTheNew | web/service/ssh_udp_relay.go:531-536 | when the state cannot be written the new ports are disabled again |
| UdpRelayLaws.FailedStartLeavesOn | web/service/ssh_udp_relay.go:490-507 | a failed start leaves a new port on if and only if it came up before the one that failed |
| UdpRelayLaws.DroppedIff | web/service/ssh_udp_relay.go:426-538 | one call, on either path: a recorded port is dropped if and only if the call gets as far as saving and the outcome of the write, by the position of the cut, takes the port |
| UdpRelayLaws.LostUnstoppedIff | web/service/ssh_udp_relay.go:426-538 | it is dropped without having been stopped if and only if the write is cut before the end of its number, or the file could not be read |
| UdpRelayLaws.OverlookedIsLeftAlone | web/service/ssh_udp_relay.go:344-349 | the service of a port overlooked in that way is never disabled |
| UdpRelayLaws.CutWriteForgets | web/service/ssh_udp_relay.go:380 | such an input, for any two ports |
| UdpRelayLaws.RecordedThroughoutIff | web/service/ssh_udp_relay.go:426-538 | over any number of calls with any failures, a recorded port stays recorded all the time if and only if no call drops it |
| UdpRelayLaws.ForgottenOnlyBy | web/service/ssh_udp_relay.go:426-538 | and one that is not recorded any more was stopped unwanted, cut off or overlooked by some call |
| UdpRelayLaws.FallbackRunsTheDesired | web/service/ssh_udp_relay.go:616-645 | without systemd, success if and only if every missing port answers; then exactly the desired ports run, and a wanted one never stops |
| UdpRelayLaws.NothingWantedNeedsNoTool | web/service/ssh_udp_relay.go:657-662 | when nothing is wanted, every process is stopped without the relay program |
| CopyClients.NextAvailableCopiedEmail | web/service/inbound.go:1045-1057 | ends within one candidate more than there are occupied emails, at the first free one |
| CopyClients.CandidatesDiffer | web/service/inbound.go:1046-1055 | candidates of one base differ also in lower case |
| CopyClients.CopyEmails | web/service/inbound.go:1086-1139 | the loops make exactly the copies that `CopiesAreFresh` and `AcceptedIffNoLeadingQuote` speak about |
| CopyClientsLaws.ChosenAreCopied | web/service/inbound.go:1107-1131 | exactly the clients with an email that were chosen, or all, and have a subscription id are copied, in their order |
| CopyClientsLaws.CopiesAreNumbered | web/service/inbound.go:1045-1057 | a copy's email is the original with the inbound's number and, if needed, the smallest further number with which it is neither occupied nor an earlier copy |
| CopyClients.CheckEmailsExist | web/service/inbound.go:191-209 | finds a duplicate exactly when there is one, within the list or against the database |
| CopyClients.CopiesAreFresh | web/service/inbound.go:1093-1139 | the copies differ case-insensitively from each other and from every occupied email |
| CopyClients.CopiesComeFromOriginals | web/service/inbound.go:1107-1139 | the i-th copy extends the i-th original |
| CopyClients.QuotedRefused | web/service/inbound.go:1099-1101 | a database for which a quoted email is refused |
| CopyClients.AcceptedIffNoLeadingQuote | web/service/inbound.go:1093-1155 | the later add accepts the copies for every database if and only if no copied email begins with a quote |

## Left out

- XrayRouting.Egress: balancer rules and Xray's regexp form of the user condition are not interpreted; a rule without an outbound tag has no egress here.
- XrayMarks.AssignMarks: the sort is modelled by its result; FNV-1a is any function of the email.
- StatsRouting.EnsureStatsRouting: a template that is the JSON text null (which the Go code cannot store) is not modelled.
- NftPolicy.XraySignatureDeterminesScript: assumes emails without a semicolon. `AmbiguousIff` says for which single lists the claim fails against any other list; under one fixed hash only some of these others can occur, as `SemicolonForgesSignature` shows for a suitable one.
- NftCache.XrayPolicyCache.Apply: SHA-256 is an injective function, and nft loads a program completely or not at all.
- SshMetering.SshMeter.ReconcileUserLimits: a poll is one atomic step; a user reset racing with a poll is not covered by the code either.
- SshMetering.NeverOverCounts: the bytes sent are those that reached the chains, dropped packets included, and the two counters of a user together grow by at most these. Loopback traffic of a user, as of the UDP relay, passes both generated chains and is counted twice; its bytes are then the sum of both passes.
- ClientTraffic.Store.AddTraffic: traffic of inbound rows, the Xray API calls and transaction failures are left out; the clock is read once per part of the tick; clients without an email or expiry field are not modelled.
- ClientTrafficLaws.RunKeepsCovered: the inbound rows' own total is not claimed; `UpdateInbound` does not keep it above up + down.
- WebSocketHub.Hub.Fanout: client objects are ids, message encoding and queueing before the event loop are left out; an unregister handled before its register leaves the client in the hub, as in the code.
- WebSocketHub.ChannelsCloseOnce: assumes each client is registered once, as the controllers do.
- PayloadPrelude.Handle: deadlines, the dial of the backend and write errors are left out.
- PayloadGateways.Manager.ReconcileOne: a gateway object is a handle, and listening is one attempt that succeeds or fails.
- PayloadReconcile.ReconcileAll: the rows are those read at the start; what other writers do to the table of inbounds meanwhile is not modelled.
- PortRegistryLaws.PortsNeverConflict: assumes that the panel's own ports do not change during a run, lookups succeed and new rows get new ids. Unique tags of Xray rows are left out.
- License.PermissionIsBounded: RSA and JSON are functions of the token and the key; error texts and the last attempt time are left out.
- License.NormalizedIs: letters beyond ASCII are not put into capitals.
- License.LostUntilAccepted: assumes refusals with a code, as `RestartPermitsIff` does; `PermissionReturnsOnlyBy` covers the others.
- IpLimiter.Limiter.Update: parsing the access log, fail2ban and the temporary disconnect are left out.
- UdpRelay.Relays.ReconcileSystemd: the host answers each question about a port once per call; no other process writes the state file.
- UdpRelay.Relays.ReconcileFallback: the restart of a relay process that ends by itself is not modelled.
- CopyClients.CopyEmails: credentials and subscription ids of the copies are left out, and no other writer changes the emails between the read and the add.
- HTTP controllers, sessions, templates, the Telegram bot, LDAP, WARP, geo files and process control: user interface or foreign effects.
- Overflow of 64-bit counters and dates: integers are unbounded.
- Imported statistics, migrations, log buffering, CPU averaging and link formatting: they would add easy members only.
