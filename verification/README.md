# Zigbee device adapter: enumeration, rules and protocols, proved

A gateway turns Zigbee nodes into devices with capabilities. When a node joins or is asked about
again, its endpoints are reconciled with the devices it already has, the rules say which capability
implementations each endpoint should have, and each device's capabilities are reconciled with that.
Every change sends an event and is written to a persisted tree, from which the gateway is rebuilt at
the next start. This project models that logic and proves what it promises, together with the
concurrent and timed protocols around it.

`dafny verify dfyconfig.toml` checks everything.

## How the model is laid out

**Rules engine.** `RuleModel` holds the data, with expression compilation and evaluation as
uninterpreted partial functions. `RuleCompileSpec` and `RuleExecuteSpec` say what compiling and
executing mean, `RuleCompileProof`, `RuleExecuteProof` and `RuleMeaning` prove it, `RuleSource` and
`RuleSourceProof` say the same of the source text of the rule sets alone, and `RuleEngine` is
the engine itself: a class whose methods fill maps and slices in loops, in whatever order a map
delivers its keys, each proved equal to the specification. `SortedStrings` is `sort.Strings`.

**Table, log and tree.** `Factory` is the table of implementations, `EventLog` the events and the view
a reader rebuilds from them, `Persistence` the tree by address, and `Keys` and `KeyEncoding` the string
keys it is really stored under. `GatewayState` has the table, the tree and the log as one value, every
step on it, and what every step keeps: `Inv`. `Table` is the gateway as a class that changes in place;
each method's new state is the step's.

**Enumeration.** `Roster` is the reconciliation of a node's devices on values and `CapabilityPlan` that
of one device's capabilities; both say exactly when the result is right. `NodeUpdate`,
`CapabilityUpdate` and `Enumeration` are the loops on the table, which carry out those plans and keep
`Inv`. `EnumerationMeaning` goes all the way from the rules to the devices. `ProviderLoop` and
`ProviderLoad` are joining, leaving and starting up, and `Runs` is any sequence of all of these, over
any number of restarts.

**Protocols and timers.** `SequenceRing`, `EnumerationProtocol` and `Poller` are step systems whose
results hold of every interleaving. `Monitor` is an attribute monitor's stored configuration.
`DeviceDiscovery` and `Identify` are the permit-join timer and the identify countdown.

Where the order of a map iteration matters, a method chooses it by `InSomeOrder` or hands it out as a
ghost result, and the theorems hold for every choice. What the network, a capability or an expression
answers is an argument of the step.

## Where the code falls short of what one would expect

- An inventory endpoint 0 together with a device that has no id yet is mistaken for a match, because
  the match loop does not look at the set flag (`enumerate_device.go:271-286`). `Roster.ReconcileCorrectIff`:
  reconciliation is right in every iteration order exactly without that combination. No other limit is
  needed: the 256 sub-identifiers always suffice (`Roster.CreateRoom`).
- A category attached on one endpoint and tried again on a later one would be reported as not attached although it
  is held (`enumerate_device.go:356-366`). `CapabilityPlan.StatusTruthfulIff`: the statuses are truthful exactly when
  no attempt follows an attachment of its category. Only devices of several endpoints could meet that, and the
  grouping makes none (`Enumeration.GroupInventoryDevices`, `CapabilityPlan.OneEndpointTruthful`), so every reported
  status is truthful today.
- `Disable` forgets its timer without stopping it (`device_discovery.go:62-77`), so the next grant may end early.
  `DeviceDiscovery.LastsIff`: a grant lasts to its end exactly when no forgotten timer is due before
  that end and no expiry is being handled.
- A detached monitor may still start reads before its poller receives the stop (`attribute/monitor.go:229-253`).
  `Poller.MayReadIff`: at any time a read may still start exactly while polling is configured and no stop was received.
  `Poller.QuietAfterDetachIff`: before calling, no read can follow Detach exactly when polling is not configured.
- A Detach that looks for the ticker before Attach or Load has made it sends no stop, and the poller that starts
  afterwards runs on (`attribute/monitor.go:149-157, 229-231`). `Poller.DetachSendsIff` and `Poller.StopsIff`: the stop is
  sent exactly when Detach finds the ticker, and the poller can stop exactly when it was sent; `Poller.DetachMayMissPoller`
  is the run.
- A poll interval below a millisecond is stored as 0, which a ticker does not accept: `Monitor.StartsIff`.
- `RULES.md:18-19` says that endpoints are grouped into devices by their `DeviceID`; the code makes one device of each
  endpoint. `Enumeration.GroupedAsDocumentedIff`: the two agree exactly when no two endpoints share a `DeviceID`.

## Model

| member | source | states |
|---|---|---|
| RuleCompileSpec.RulesCompileIff | rules/engine.go:202-277 | A rule tree compiles exactly when each filter and each added or removed value in it, at any depth, compiles. |
| RuleCompileProof.CompileErrorIsGenuine | rules/engine.go:169-187 | Every compile error is true: a circular one exhibits a dependency path that closes into a cycle, a missing one a path to a name that is not loaded, and a failed expression belongs to a set on the path. |
| RuleCompileProof.CompileSucceedsIff | rules/engine.go:147-200 | Compilation succeeds exactly when all dependencies are loaded, the dependency graph has no cycle, and all expressions compile. |
| RuleCompileProof.CompiledAfterDependencies | rules/engine.go:147-200 | On success every loaded set is compiled exactly once, after every set it transitively depends on. |
| RuleSourceProof.OrderIsPlaced | rules/engine.go:147-200 | The order of the compiled sets is fixed by the rule sets alone: by name, each set after those it depends on in the order it lists them. |
| RuleSourceProof.SourceDecides | rules/engine.go:147-332 | After compiling and executing, a capability is in the output exactly when the last matching source rule that adds or removes it adds it, and each of its settings is what that rule's text for it evaluates to. |
| RuleSourceProof.SourceRunsIff | rules/engine.go:279-332 | Execution succeeds exactly when every source rule it reaches has a filter text that evaluates to a boolean and, where that is true, value texts that evaluate. |
| SortedStrings.AtMostIff | rules/engine.go:155-156 | Names are compared as Go does: at the first difference by character, and a prefix first. |
| SortedStrings.SortCanonical | rules/engine.go:155-156 | Sorting distinct names gives one sequence, whatever order the map delivered them in. |
| RuleEngine.CompileRuleTree | rules/engine.go:202-229 | The loops over rules, actions and values compute the compilation of the tree, failing where it fails. |
| RuleEngine.Engine.CompileRules | rules/engine.go:147-167 | Appends the rules of the sets in the one order that the loaded sets determine, and reports an error exactly when a dependency is missing, circular, or an expression does not compile. |
| RuleEngine.Engine.CompileRuleSet | rules/engine.go:169-200 | The recursion with its trail and shared map of loaded sets visits what the depth-first search visits and keeps the rules in step with it; it ends because the loaded names not on the trail get fewer. |
| RuleEngine.Engine.ExecuteRule | rules/engine.go:293-332 | Adding to and deleting from the shared map, in any order of the add, remove and value maps, has the effect of the rule on values. |
| RuleEngine.Engine.Execute | rules/engine.go:279-291 | Runs the compiled rules in order from no capabilities, and fails if one of them fails. |
| RuleExecuteProof.RulesRunIff | rules/engine.go:293-332 | Execution succeeds exactly when every rule it reaches has a filter that runs to a boolean and, where that is true, each added value's program runs. |
| RuleExecuteProof.OutputIsLastOperation | rules/engine.go:293-332 | A capability is in the output exactly when the last matching rule that lists it in preorder adds it, and then it has that Add's names, each with what its program runs to. |
| RuleMeaning.CompileAndExecute | rules/engine.go:147-332 | Loading, compiling and executing, said of the loaded sets and the expressions alone: when it succeeds and what it yields. |
| RuleMeaning.DependentOverrules | rules/engine.go:147-200 | If one set transitively depends on another and both operate on a capability, leaving the other set's rules out does not change that capability. |
| RuleMeaning.CompileTwice | rules/engine.go:147-167 | An engine that is compiled a second time reports what it did the first time and executes every input as before. |
| RuleMeaning.SecondCompilationIsHarmless | rules/engine.go:147-167 | Compiling twice, which appends all rules again, changes no execution: it succeeds on the same inputs with the same capabilities. |
| Factory.FactoryIsFaithful | implcaps/factory/mapping.go:24-53 | The factory makes exactly the mapped names, each with its own name and category; no category has two implementations. |
| Factory.FactoryTable | implcaps/factory/mapping.go:16-53 | The seven implementation names with the category of each, in the map and in the constructor. |
| Keys.NodeKeyDigits | persistence.go:14 | A node's key is its address in sixteen lower-case hexadecimal digits, the most significant first. |
| Keys.DeviceKeyDigits | persistence.go:34 | A device's key is its sub-identifier in decimal without leading zeros. |
| Keys.NodeKey | persistence.go:14 | A node's key parses back to its address. |
| Keys.DeviceKey | persistence.go:34 | A device's key parses back to its sub-identifier. |
| KeyEncoding.OperationsCarried | persistence.go:9-35 | Each operation on string keys does to the carried tree what the operation by address does, leaving unrelated keys alone. |
| KeyEncoding.EncodeCarries | persistence.go:9-35 | Every tree by address has a string-keyed tree that carries it. |
| KeyEncoding.CarriesOne | persistence.go:17-47 | A string-keyed tree carries one tree by address: decoding inverts encoding. |
| KeyEncoding.NodeListFromPersistence | persistence.go:17-27 | Lists exactly the stored nodes, once each, whatever the key order; keys that do not parse are skipped. |
| KeyEncoding.DeviceListFromPersistence | persistence.go:37-47 | Lists exactly the stored devices of a node, once each. |
| KeyEncoding.ReadTree | provider_load.go:10-40 | Reading nodes, then devices, by their string keys yields the tree by address that the stored tree carries. |
| EventLog.ReplayMeans | table.go:127-129 | The replayed view knows the devices added and not removed since, with the capabilities added and not removed since. |
| EventLog.CoherentInOrder | table.go:95-202 | In a coherent log no capability event names an absent device, nothing is removed that was not shown, and a device is removed only after all it was shown with. |
| EventLog.Snoc | table.go:127-129 | Sending one more event extends the replayed view by that event, and a log of sensible events stays one. |
| GatewayState.DeviceCreatedInv | table.go:95-133 | Creating a device at a free address keeps log, tree and table in agreement. |
| GatewayState.IdSetInv | table.go:143-151 | Setting a unique id that no other device of the node carries keeps them in agreement. |
| GatewayState.CapabilityAttachedInv | table.go:187-193 | Attaching an implementation whose section is written keeps them in agreement and writes nothing more. |
| GatewayState.CapabilityDetachedInv | table.go:195-202 | Detaching keeps table, log and tree in agreement. |
| GatewayState.DetachedSections | table.go:195-202 | Detaching a held capability deletes its section and leaves every other section, the device's id and all other devices in the tree as they were. |
| GatewayState.DeviceRemovedEffect | table.go:153-185 | Removing a device sends one removal for each capability, the two built-in ones and the device, and touches nothing else, in whatever order the capabilities go. |
| GatewayState.DeviceRemovedInv | table.go:153-185 | Removing a device keeps the agreement; in particular the device's removal follows that of all its capabilities. |
| Roster.AllocatorFreeIff | node.go:102-110 | The allocator returns the least free sub-identifier, and a free one exactly when fewer than 256 are used. |
| Table.Gateway.NextDeviceSubIdentifier | node.go:102-110 | The scan computes that allocation over the node's devices. |
| Table.Gateway.CreateNode | table.go:14-34 | A known node is returned as it is; a new one is entered and gets its section. |
| Table.Gateway.RemoveNode | table.go:43-54 | Forgets the node and its section, if it was known. |
| Table.Gateway.CreateSpecificDevice | table.go:95-133 | Enters a new device at its own address, with its section and its three events in order. |
| Table.Gateway.CreateNextDevice | table.go:135-141 | Creates a device at the allocator's sub-identifier. |
| Table.Gateway.SetDeviceUniqueId | table.go:143-151 | Sets the id in the device and in its section. |
| Table.Gateway.AttachCapability | table.go:187-193 | Holds the capability under its category, makes sure of its section, and sends the event. |
| Table.Gateway.DetachCapability | table.go:195-202 | Does nothing for a category that is not held; otherwise removes it from event view, section and device. |
| Table.Gateway.RemoveDevice | table.go:153-185 | Detaches every capability in some order, then removes the bare device; reports whether there was one. |
| Roster.CreateRoom | enumerate_device.go:289-306 | When reconciliation has to make a device, fewer than 256 sub-identifiers of the node are used, so the allocator's answer is free. |
| Roster.ReconcileCorrect | enumerate_device.go:253-325 | The mapping is total and injective on the inventory, the node holds exactly the mapped devices with their own ids, matching devices keep their place, and unset ones are used before any is made; for every iteration order. |
| Roster.ReconcileCorrectIff | enumerate_device.go:271-286 | That holds in every iteration order exactly unless id 0 is in the inventory while a device has no id. |
| Roster.ReconcileFixedPoint | enumerate_device.go:253-325 | A second reconciliation with the same inventory changes no device and gives the same mapping. |
| NodeUpdate.RoundsFollow | enumerate_device.go:289-306 | The assignment loop carries out the plan in the table and keeps log, tree and table in agreement through every round. |
| NodeUpdate.UpdateNodeTable | enumerate_device.go:253-325 | Leaves a valid table whose node has the reconciled devices, returns their objects by id, keeps every surviving device's object and capabilities, and touches no other node. |
| CapabilityPlan.HeldExactly | enumerate_device.go:386-446 | The device ends up with exactly the categories that some attempt attached, each by its mapped implementation. |
| CapabilityPlan.HeldOrderFree | enumerate_device.go:337-383 | The capabilities depend on neither the order of the attempts nor the capabilities held before. |
| CapabilityPlan.StatusTruthfulIff | enumerate_device.go:330-381 | Every reported status agrees with what is held exactly when no category is tried again after it attached. |
| CapabilityPlan.StatusKeys | enumerate_device.go:330-381 | The report has a status for the enumeration itself, for every category tried and for every category held before, and no other. |
| CapabilityPlan.OneEndpointTruthful | enumerate_device.go:233-251 | A device of one endpoint always reports truthfully. |
| CapabilityUpdate.EnumeratedInv | enumerate_device.go:386-446 | Attaching, replacing, refusing and failing one capability all keep the agreement: what is attached has its implementation stored. |
| CapabilityUpdate.RunFollows | enumerate_device.go:337-368 | The loop over the rule output carries out the plan on its device and touches no other. |
| CapabilityUpdate.HoldsWhatIsWanted | enumerate_device.go:327-384 | A device holds a category exactly when an endpoint asks for its implementation and that attached, whatever it held before. |
| CapabilityUpdate.RunLeaves | enumerate_device.go:337-446 | A section of a capability the device does not hold was left over before, or one of the attempts wrote it; nothing else in the tree changed. |
| CapabilityUpdate.UpdateCapabilities | enumerate_device.go:327-384 | Leaves a valid table in which only this device changed, with the planned capabilities and statuses; a category that was held and is not asked for any more is gone from the tree. |
| Enumeration.RunRules | enumerate_device.go:210-231 | Every endpoint gets its own rule output, implementation names with their settings, and keeps the rest of its details; one failing endpoint fails the enumeration. |
| Enumeration.GroupingUnique | enumerate_device.go:233-251 | The grouping is determined by the rule output: one device for each endpoint, in increasing order. |
| Enumeration.GroupInventoryDevices | enumerate_device.go:233-251 | Computes that grouping from any iteration order. |
| Enumeration.GroupedAsDocumentedIff | enumerate_device.go:233-251 | The code's grouping is the documented grouping by `DeviceID` exactly when no two endpoints share one. |
| Enumeration.Enumerate | enumerate_device.go:71-127 | A failed query or rule changes nothing; otherwise the node has one device for each endpoint, each holding what its rule output asks for, with truthful statuses, what it no longer holds or is asked for is gone from the tree, and other nodes are untouched. |
| EnumerationMeaning.DeviceFollowsRules | enumerate_device.go:71-127 | A device holds a category exactly when the last matching source rule on its implementation, for that endpoint, adds it and the implementation attached with what that rule's texts evaluate to. |
| ProviderLoop.ReceiveNodeJoin | provider_loop.go:36-47 | A new node gets one device at sub-identifier 0; a known one is left alone. |
| ProviderLoop.ReceiveNodeLeave | provider_loop.go:49-65 | A known node goes with all its devices, and nothing else changes. |
| ProviderLoad.DeviceLoadedOk | provider_load.go:30-73 | Loading a device yields its stored row and leaves the tree as it is. |
| ProviderLoad.LoadRebuilds | provider_load.go:10-73 | A restart rebuilds the same nodes, addresses, ids and flags, and every held capability, with its implementation, whose Load attaches it; beyond those it attaches just what a left-over section names and loads. |
| ProviderLoad.SameCapabilitiesIff | provider_load.go:42-69 | A restart leaves a device's capabilities as they were exactly when each held one loads and no other one named in the tree does. |
| ProviderLoad.ProviderLoad | provider_load.go:10-28 | From an empty table and the tree that a run left, the loops end in a valid table that is what the tree says. |
| Runs.InvConsistent | table.go:95-202 | What the invariant means, read off the events: the log shows just the devices and capabilities in the table and was in order at every point, and the tree agrees with the table both ways. |
| Runs.TakeStep | provider_loop.go:21-33 | A join, a leave or an enumeration does to the gateway what it should. |
| Runs.Run | provider_loop.go:10-65 | Any sequence of joins, leaves and enumerations is carried out step by step, and at every point the table, the log and the tree agree. |
| Runs.EnumerateAndRestart | provider_load.go:42-69 | A capability that an enumeration took away and the rules no longer ask for is not attached by the next restart. |
| Runs.Restart | provider_load.go:10-73 | The gateway rebuilt from a valid gateway's tree has its nodes, devices and ids, its held capabilities that load as they were, and otherwise only what the tree names and loads. |
| Runs.RestartFromTree | provider_load.go:10-73 | The same holds when the gateway is rebuilt from any string-keyed tree that carries the old gateway's. |
| Runs.Lives | provider_loop.go:10-13 | Any number of starts, each loading the tree that the last run left and then taking its steps, leaves a tree that the next start can load. |
| SequenceRing.Sequence.Next | node.go:95-100 | Returns the front number and puts it at the back. |
| SequenceRing.Sequence.NextTimes | node.go:85-100 | Called one after another, the calls return 0 to 254 and start again. |
| SequenceRing.EachNumberOnce | node.go:85-100 | In every interleaving each of 0 to 254 is either in the channel, once, or with exactly one caller. |
| SequenceRing.NeverStuck | node.go:95-100 | A put-back never blocks, and some step is always possible. |
| SequenceRing.IssuesFarApart | node.go:95-100 | With at most k callers at once, at least 255 - k issues lie between two issues of one number. |
| EnumerationProtocol.StepKeeps | enumerate_device.go:58-93 | Every step of every actor keeps mutual exclusion, the state flag, the join handler's priority, distinct ids, and what a running reconciliation relies on: its list of devices without an id, its mapping, and the freedom of the sub-identifier it chose. |
| EnumerationProtocol.NoDeviceOverwritten | table.go:135-141 | In every interleaving, from a joining node or a loaded one, the write section of `createNextDevice` writes at a free sub-identifier, and no step ever overwrites a device. |
| EnumerationProtocol.ReconcileHasRoom | enumerate_device.go:253-306 | In every interleaving, a reconciliation that comes to make a device finds fewer than 256 in use, whatever was removed meanwhile. |
| EnumerationProtocol.JoinTakesZero | provider_loop.go:39-40 | The join handler takes sub-identifier 0. |
| EnumerationProtocol.RefusedIff | enumerate_device.go:58-69 | A start is refused exactly while another enumeration is under way. |
| EnumerationProtocol.StateHonest | enumerate_device.go:71-93 | The reported state is set exactly from an enumeration's first statement to its last, and there is at most one. |
| Poller.SendNeverBlocks | attribute/monitor.go:229-231 | In every interleaving the stop is sent at once, to a channel that is open. |
| Poller.ClosedAtMostOnce | attribute/monitor.go:234-241 | The stop channel is closed at most once, after the stop was received. |
| Poller.StopNotLost | attribute/monitor.go:234-253 | A sent stop waits until the poller, which still selects, receives it. |
| Poller.NoReadAfterStop | attribute/monitor.go:237-252 | No read starts once the poller has received the stop. |
| Poller.MayReadIff | attribute/monitor.go:142-159 | In every reachable state a read may still start exactly while polling is configured and the poller has not received a stop. |
| Poller.QuietAfterDetachIff | attribute/monitor.go:210-253 | Before Detach is called: no read can follow its return exactly when polling is not configured. |
| Poller.DetachSendsIff | attribute/monitor.go:229-231 | Detach sends the stop exactly when it looks while there is a ticker, which is once it was made. |
| Poller.StopsIff | attribute/monitor.go:229-241 | After Detach has returned, the poller can stop exactly if the stop was sent. |
| Poller.DetachMayMissPoller | attribute/monitor.go:149-157 | A Detach between registering the match and making the ticker leaves a poller that nothing stops: a concrete run. |
| Poller.ReadMayFollowDetach | attribute/monitor.go:229-252 | A read may start after Detach has sent the stop: a concrete run. |
| Monitor.Monitor.Attach | attribute/monitor.go:161-208 | Stores the target field by field; polls anew exactly when it always polls or reporting was refused and it polls then, else as the section said; fails exactly when reporting is refused and polling not allowed. |
| Monitor.Monitor.Load | attribute/monitor.go:105-140 | Fails exactly when a key is missing, and otherwise runs as its section says. |
| Monitor.AttachThenLoad | attribute/monitor.go:105-208 | After a successful Attach a fresh monitor's Load accepts the same messages, delivers the same values and polls at the same interval. |
| Monitor.DetachThenLoad | attribute/monitor.go:210-227 | After a Detach that unconfigures, the section loads without polling; after any other it loads as before. |
| Monitor.PollsIff | attribute/monitor.go:200-207 | Attach configures polling, at its interval cut to milliseconds, exactly when it always polls, or reporting was refused and it polls then; otherwise the section's polling stays. |
| Monitor.StartsIff | attribute/monitor.go:149-156 | A polling Attach can start its ticker exactly when its interval is at least a millisecond. |
| Monitor.DeliversExactly | attribute/monitor.go:263-278 | The deliveries are the values of exactly the records of the watched attribute and type, in a response those read successfully, once each and in order. |
| DeviceDiscovery.Discovery.Enable | device_discovery.go:32-60 | A refused call changes nothing; a permitted one replaces the timer by one due after its duration and sets the grant's end to that time. |
| DeviceDiscovery.Discovery.Disable | device_discovery.go:62-77 | A refused call changes nothing; a successful one ends discovery and forgets the timer. |
| DeviceDiscovery.NeverOutlivesGrant | device_discovery.go:32-77 | In every run discovery is on exactly since a permitted Enable that nothing has ended, and then, unless its callback is under way or failed, its timer is pending for the time of that Enable plus its duration. |
| DeviceDiscovery.RemainingTells | device_discovery.go:79-86 | The remaining time is the latest grant's time plus duration minus now while discovering before then, and 0 otherwise. |
| DeviceDiscovery.LastsIff | device_discovery.go:32-77 | A grant left alone lasts until its time plus its duration, whatever the timers do, exactly when no forgotten timer is due before then and no other callback is left over. |
| DeviceDiscovery.UndisturbedGrantsLast | device_discovery.go:32-60 | Without manual Disable, and without an Enable during an expiry, discovery is on until the latest Enable's time plus its duration. |
| DeviceDiscovery.DisableLeavesThreat | device_discovery.go:69-71 | After a manual Disable the next grant is threatened by the forgotten timer: a concrete run. |
| Identify.Implementation.UpdateDuration | implcaps/zcl/identify/impl.go:119-136 | Rewrites the end and the change time exactly when the report is outside the dead band, and always the update time. |
| Identify.Implementation.Status | implcaps/zcl/identify/impl.go:179-192 | Reports the time left to the stored end, never negative, and identifying exactly when some is left. |
| Identify.StatusWithinDeadBand | implcaps/zcl/identify/impl.go:119-136 | After any sequence of reports, at all later times, the status is within 250 ms of the countdown of the latest report. |
| Identify.StatusWithinDeadBandOfReading | implcaps/zcl/identify/impl.go:119-136 | With one clock reading per report, that countdown runs from that reading. |
| Identify.MovesIff | implcaps/zcl/identify/impl.go:120-134 | A report moves the end exactly when it differs from the status at that time by 250 ms or more. |
| Identify.RepeatMovesNothing | implcaps/zcl/identify/impl.go:119-136 | The same report again at once changes nothing. |
| Identify.BoundIsTight | implcaps/zcl/identify/impl.go:127 | The difference can be one nanosecond less than 250 ms. |

## Left out

- Network queries, retries, reads of product information, binding and reporting requests: their results are arguments of the steps.
- The `expr` library, JSON loading and walking the file system: compiling and running an expression are deterministic functions that may fail.
- `toRulesInput`: the rules' input for a node is an argument, with each endpoint's number as `Self`.
- Logging, contexts, error texts, and the error lists beside the statuses.
- The start and stop events of an enumeration, and other events that do not concern devices or capabilities coming and going.
- Table.Gateway: the device maps of all nodes are one map by address, so that a node is its address; what is then not modelled is a node object that users still hold after the node has left. Field updates of devices, and the identity of device objects, are modelled.
- A node leaving while it is being enumerated, and enumerations asked for during loading: the code does not serialise them, and the properties of table, log and tree are about runs that do.
- Capabilities' own data below their sections, and what their `Detach` reports; a `Detach` that panics outside an attempt ends the process.
- Exact equality of persisted and held capabilities: a failed new attachment leaves its implementation's name in the tree, so the tree may name more than is held.
- Foreign keys that parse but are not written the way the gateway writes them, such as a short hexadecimal address, would be listed under an address whose section is elsewhere; `KeyEncoding.Carries` excludes them.
- The converters of the persistence library: numbers, times and intervals are taken to be stored as the tests show, times and intervals in whole milliseconds.
- A second Attach of one monitor without Detach, and use after Detach: the stop channel is made for one use.
- Stopping discovery (`device_discovery.go:88-92`), after which no grant ends by itself.
- The periodic identify events (`implcaps/zcl/identify/impl.go:138-167`), which repeat what the status says, and sending an identify request.
- Power supply, the sensors, product information, workarounds and device removal requests: device reads and thin wrappers.
