# Verified model of munet

munet builds network topologies out of namespaces and runs mutest scripts on them. This
project models the parts of it that are state machines and allocators in their own right, and
proves what they keep over every run:

- **The mutest test case** (`munet/mutest/userapi.py`): result frames, sections, inline and
  section-creating includes, and the three ways a script ends. `Scripts` has the scripts as
  data, `TestMachine` the state functions, `TestCases` the classes proved against them.
  `Accounting` proves conservation of results, numbering and stack discipline; `ScriptMeaning`
  what a run shows and returns, read off its script; `Headers` the numbers of headers; `Splicing` that an
  inline include means the calls it includes; `ScriptPaths` exactly when `script_dir()` is right.
- **The topology builder and its address plan** (`munet/native.py`, `munet/base.py`,
  `munet/config.py`): `Addresses`, `Topology`, `Tables`, `Nodes` and `BuildPlan` for the
  addresses and tables that a sequence of links leaves, `PeerTables` for the two ends of a link,
  `InterfaceNames` for automatic names. `Connections` has the loop that makes links of
  connections, `LinkBuilder` the class proved against it, `LoopTrace`, `Pairings` and `LinksOnce`
  when it adds every link once, `BuiltAddresses` and `WholeBuild` the addresses of a whole build.
- **Streams and logs seen in pieces** (`munet/watchlog.py`, `munet/testing/util.py`,
  `munet/cli.py`): `WatchMachine`, `WatchLogs`, `WatchRuns`; `LineMachine`, `LineReaders`,
  `LineRuns`; `Framing`.
- **Running a command once under asyncio** (`munet/base.py`): `OnceMachine`, `Commanders`,
  `OnceRuns`.
- **Keyed list merging** (`munet/config.py`): `KeyedMerge`.

Where the source updates objects there is a class whose methods are proved to do what a state
function does, and the theorems are about the state functions. `dafny verify dfyconfig.toml`
checks everything. Every lemma carries `{:induction false}`: its body is its whole proof.

## Conventions

- A script is the tree of API calls it makes when it runs. A `return` in a script just ends its
  list of calls; a call that has no effect on results (`step`, `log`) is left out of the list.
- The outcome of a match is a boolean of the script, and so are the answers at pause prompts.
- Addresses are natural numbers and networks are a first address and a size: a /31 has size 2,
  a /24 has size 256. A link's two automatic addresses are the two addresses of a /31, as in
  section 2.1 of RFC 3021.
- An exception is an outcome or an error value of the call that raises it.

## What turned out not to hold

For each of these there is the exact condition under which the code does what is wanted, as an
equivalence, or a lemma that says what the code does on all inputs of the failing kind.

- `script_dir()` is documented to be the directory of the current script
  (`munet/mutest/userapi.py:1025-1031`). It is at every call exactly when no section-creating
  include that is followed by another call of its script ends a section opened by another file
  (`ScriptPaths.PathIffSafe`, `ScriptPaths.MixedCanFail`).
- `--cli-on-error` enters the CLI after a *passing* step too when `--pause` is given
  (`Scripts.PassEntersCliIff`).
- A watched file that is replaced makes the next update raise (the size of a `stat` that was just
  reset is read), one that shrank has its text read twice, and one that was gone and is there again
  is added to the old text
  (`WatchRuns.UpdateAgreesIff`, `WatchRuns.ReplacedRaises`, `WatchRuns.ShrunkIsReadTwice`,
  `WatchRuns.GoneRaises`).
- Automatic interface names do not avoid names given later in the configuration
  (`InterfaceNames.FreshNamesDistinctIff`, `InterfaceNames.NamesDistinctIff`,
  `InterfaceNames.LaterNameRepeats`).
- Parallel links without remote names are not paired (`LinksOnce.EachOnceIffPaired`,
  `LinksOnce.ParallelLinksFail`).
- A second connection of a node to the same bridge fails an assertion, and the links after it are
  never added (`LinksOnce.EachOnceIffPaired`, `LinksOnce.TwiceOnBridgeFails`).
- An explicit IPv6 address of a bridge connection is always refused, because the assertion looks
  at the IPv4 address (`PeerTables.LanIpv6Refused`).
- p2p networks of two nodes can meet once enough links are sourced
  (`Addresses.BlocksApartIff`, `Addresses.RoomForLinks`).
- A reply that contains the end marker, or ends with all of it but the last byte, can be cut short
  by the client (`Framing.SessionIffClean`).
- The blocking `cmd_raises_once` runs a command a second time while an asynchronous caller has
  it in flight (`OnceRuns.BlockingKeepsIff`, `OnceRuns.BlockingCallRunsTwice`,
  `OnceRuns.BlockingCallCanOverlap`).

## Model

| member | source | states |
|---|---|---|
| Scripts.PassEntersCliIff | munet/mutest/userapi.py:128-137 | a passing step enters the CLI without anyone asking for it exactly when both pause and cli-on-error are on |
| Scripts.StepEntersCliIff | munet/mutest/userapi.py:95-137 | a step ends its script exactly when the CLI is asked for at the first prompt, or on errors and the step is a described failure or under pause; the option passes the description on |
| TestCases.TestCaseInfo.constructor | munet/mutest/userapi.py:140-152 | a new frame has its tag and path and no results |
| TestCases.TestCase.constructor | munet/mutest/userapi.py:189-235 | a test case starts with the base frame alone, outside any section |
| TestCases.TestCase.PushExecInfo | munet/mutest/userapi.py:284-295 | the parent's step count numbers the new frame, which is a new object on top of the unchanged ones |
| TestCases.TestCase.PopExecInfo | munet/mutest/userapi.py:297-303 | the very object below the top becomes the top again |
| TestCases.TestCase.EndSection | munet/mutest/userapi.py:720-728 | the totals of the ended frame are added to its parent and no section is open |
| TestCases.TestCase.EndOpenSection | munet/mutest/userapi.py:424-425 | an open section is ended, and otherwise nothing happens |
| TestCases.TestCase.StartExecSection | munet/mutest/userapi.py:730-738 | the source's assertion that no section is open holds after the push |
| TestCases.TestCase.StartSection | munet/mutest/userapi.py:740-759 | a section replaces an open one and takes over the path that was on top before |
| TestCases.TestCase.PrintHeader | munet/mutest/userapi.py:305-310 | a header line shows the top frame's tag |
| TestCases.TestCase.PostResult | munet/mutest/userapi.py:384-415 | one result is counted once, in the top frame, under its next step number |
| TestCases.TestCase.SetPath | munet/mutest/userapi.py:688-694 | only the top frame's path changes |
| TestCases.TestCase.Include | munet/mutest/userapi.py:656-718 | both kinds of include end in the state and with the exception of the state function, frames under them untouched |
| TestCases.TestCase.IncludeInline | munet/mutest/userapi.py:688-710 | the includer's path is swapped in and forced back whatever happened in between |
| TestCases.TestCase.IncludeSection | munet/mutest/userapi.py:681-718 | a section-creating include leaves the stack of frame objects as it found it, also when an exception crosses it |
| TestCases.TestCase.EnterSection | munet/mutest/userapi.py:681-700 | the script runs on a new frame of its own, which is the frame over the includer's, or has one section over it, when it ends |
| TestCases.TestCase.LeaveSection | munet/mutest/userapi.py:696-710 | the source's assertion that the include's own frame object is on top again never fails |
| TestCases.TestCase.Call | munet/mutest/userapi.py:852-862 | every API call does what the state function says and keeps the frame objects below |
| TestCases.TestCase.ExecCalls | munet/mutest/userapi.py:312-382 | calls are made in order until one raises |
| TestCases.TestCase.ExecScript | munet/mutest/userapi.py:312-382 | a script that cannot be loaded is an error before any header is printed |
| TestCases.TestCase.EndTest | munet/mutest/userapi.py:417-441 | the totals returned are those of the base frame with an open section ended |
| TestCases.TestCase.Execute | munet/mutest/userapi.py:264-277 | totals and error are returned, or the CLI exception escapes, always from the finally reached state |
| TestMachine.ExecCmds | munet/mutest/userapi.py:312-382 | no sequence of calls touches a frame below the base frame or renumbers the base frame |
| TestMachine.ExecCmd | munet/mutest/userapi.py:656-759 | the same for one call of any kind |
| TestMachine.Included | munet/mutest/userapi.py:656-718 | the same for an include, whatever the included script does |
| TestMachine.ExecScript | munet/mutest/userapi.py:312-382 | the same for a whole script |
| Accounting.PostKeeps | munet/mutest/userapi.py:384-415 | posting a result keeps conservation, numbering and step counts |
| Accounting.PushKeeps | munet/mutest/userapi.py:284-295 | opening a frame keeps them |
| Accounting.EndSectionKeeps | munet/mutest/userapi.py:720-728 | closing a frame keeps them |
| Accounting.SectionKeeps | munet/mutest/userapi.py:740-759 | starting a section keeps them |
| Accounting.EnterKeeps | munet/mutest/userapi.py:672-694 | entering an include keeps them |
| Accounting.LeaveKeeps | munet/mutest/userapi.py:696-713 | leaving an include keeps them |
| Accounting.CmdsSound | munet/mutest/userapi.py:264-441 | from any sound state every later call is made in a sound state and the end state is sound |
| Accounting.RunIsSound | munet/mutest/userapi.py:264-303 | at every call of every run results are conserved over the stacked frames, steps are own results plus frames opened, numbers increase without gaps, and the stack is the base frame, one frame per running section-creating include and one more exactly when a section is open |
| Accounting.RunEndsSound | munet/mutest/userapi.py:264-277 | however a run ends no frame is left on the stack and the base frame's totals are the results posted |
| Accounting.PrintedNumbersDiffer | munet/mutest/userapi.py:305-415 | the numbers of the printed lines, headers and results, the test's own header included, increase strictly over a run, and no two are the same text |
| Accounting.ReportIsExact | munet/mutest/userapi.py:264-277 | execute returns exactly the PASS and FAIL results posted, on normal and on error exits |
| Headers.RunIsHeaded | munet/mutest/userapi.py:284-310 | every header line comes right after its frame was opened and shows that frame's number, the first one the test's own |
| ScriptMeaning.CmdsShow | munet/mutest/userapi.py:312-415 | calls add to the log the lines that can be read off the script, results of tests and of described matches and headers, up to the first call that stops them, and end as that call says |
| ScriptMeaning.ExecuteIsExpected | munet/mutest/userapi.py:264-277 | the results and headers of a run are, in order, those of its script; execute returns their PASS and FAIL counts and the error wrapped once per include it crossed, or the CLI exception escapes |
| Numbers.DottedInjective | munet/mutest/userapi.py:293-295 | the dotted text determines the number |
| Numbers.DottedParts | munet/mutest/userapi.py:293-295 | the parts of a number are printed in order with a dot between each two |
| Splicing.RerootNames | munet/mutest/userapi.py:661-662 | a re-rooted pathname names the same file from the includer |
| Splicing.SplicedHasNoInline | munet/mutest/userapi.py:1014-1022 | splicing leaves no inline include at any depth |
| Splicing.SplicedOpensSame | munet/mutest/userapi.py:661-662 | the spliced script names the same files for its section-creating includes |
| Splicing.CmdsSame | munet/mutest/userapi.py:656-759 | from states equal but for paths, calls and spliced calls end in states equal but for paths, the same way and from the same cause |
| Splicing.InlineSame | munet/mutest/userapi.py:687-718 | an inline include does what the spliced calls of its script do, even when it leaves a section open |
| Splicing.SectionSame | munet/mutest/userapi.py:681-718 | a section-creating include of a script does what that of the spliced script does |
| Splicing.IncludeIsSplicing | munet/mutest/userapi.py:656-718 | replacing every inline include by its calls leaves log, totals and outcome of a run unchanged |
| ScriptPaths.IncludeRestores | munet/mutest/userapi.py:704-713 | an inline include brings the includer's path back; a section-creating one brings back the path of the frame it ended on |
| ScriptPaths.JoinNames | munet/mutest/userapi.py:661-662 | an absolute pathname names one file from everywhere, a relative one a file under the current directory |
| ScriptPaths.OutcomeIsStatic | munet/mutest/userapi.py:312-382 | whether calls return normally depends on the script alone |
| ScriptPaths.CmdsFaithful | munet/mutest/userapi.py:672-759 | from a state with the right path, the path is right at every call exactly when the calls are safe |
| ScriptPaths.PathIffSafe | munet/mutest/userapi.py:1025-1031 | script_dir is the directory of the running file at every call of a run exactly when the script is safe |
| ScriptPaths.UnmixedIsFaithful | munet/mutest/userapi.py:1025-1031 | a run without sections, or without section-creating includes, always has the right path |
| ScriptPaths.MixedCanFail | munet/mutest/userapi.py:704-736 | a section left open by an inline include and ended by a section-creating one leaves a wrong path |
| Addresses.LanNetwork | munet/native.py:91-113 | a bridge's automatic network is 10.x.y.0/24 or fc00:0:0:n::/64 of its identifier, in octets and groups |
| Addresses.BridgeWritten | munet/native.py:91-113 | a bridge's automatic address is 10.x.y.254/24 or fc00:0:0:n::fe/64, the string replacement of prefix lengths included |
| Addresses.LanWritten | munet/native.py:1023-1038 | a node's automatic address on a bridge has its identifier for the host and the bridge's prefix length |
| Addresses.P2pWritten | munet/native.py:795-799 | a node's first p2p networks are 10.254.x.y/31 and fcff:ffff:n::/127 |
| Addresses.LoopbackWritten | munet/native.py:57-79 | a node's automatic loopbacks are 10.255.x.y and fcfe::n |
| Addresses.P2pSlot | munet/native.py:84-88 | node id's k-th automatic link has the two addresses of /31 number Seed(id) + k of 10.254.0.0, and of the k-th /127 of fcff:ffff:id:: |
| Addresses.SeedInjective | munet/native.py:795-798 | different nodes start at different networks |
| Addresses.BlocksApartIff | munet/native.py:795-798 | two nodes' links never share an address exactly when the gap between the seeds is at least the lower node's number of links |
| Addresses.RoomForLinks | munet/native.py:796-798 | neighbouring node identifiers have room for exactly 128 links |
| Addresses.PlanIsInjective | munet/native.py:57-113 | different automatic items within the plan get different addresses, IPv4 and IPv6 |
| Addresses.PlanKeepsToPools | munet/native.py:57-113 | bridge and LAN addresses stay in 10.0.0.0 to 10.253.255.255, p2p addresses in 10.254.0.0/16, loopbacks in 10.255.0.0 to 10.255.127.254 |
| Addresses.UsableOnLan | munet/native.py:1022-1023 | a node's automatic LAN address is a host address other than the bridge's exactly for identifiers 1 to 253 |
| Topology.ConnectOne | munet/base.py:3002-3037 | a link succeeds exactly when its addresses are taken and its node is not on its bridge with another interface |
| Topology.ConnectRegisters | munet/base.py:1689-1697 | a link enters its ends and its bridge in its nodes' tables, and nothing else |
| Topology.ConnectIsLinkedNodes | munet/native.py:1123-1126 | a p2p link changes its two nodes, or its one node, as set_p2p_addr does and no other node |
| Tables.NetFreeIff | munet/base.py:1693-1697 | after any links, the next one to a bridge passes the assertion exactly when none of its node was to that bridge |
| Tables.ConnectSucceedsIff | munet/native.py:3335-3398 | links on different interfaces are all added exactly when each one's addresses are taken and no node is linked to a bridge twice; the tables then hold just what the links entered |
| PeerTables.PlaceStep | munet/base.py:1651-1655 | an address changes one family of one interface and nothing else |
| PeerTables.FamilyStep | munet/native.py:1063-1121 | after one family of a link its ends agree and the other family and all other interfaces are untouched |
| PeerTables.LinkStep | munet/native.py:1123-1126 | after a whole link its ends agree in both families |
| PeerTables.PeersAgree | munet/native.py:1063-1126 | after any sequence of links on different interfaces that gets through, each end has its configured address, or one of two neighbouring automatic ones, and its peer entry is the other end's own entry, empty when one end has no address |
| PeerTables.LanIpv6Refused | munet/native.py:1027-1029 | a bridge connection is accepted exactly when it has no explicit IPv6 address |
| BuildPlan.LinkGives | munet/native.py:1011-1081 | an automatic link that gets through uses the next networks of its source and moves them on by one, or the network of its bridge |
| BuildPlan.BuildTracks | munet/native.py:1011-1126 | an automatic build gets through exactly when no node is linked to a bridge twice, and then every interface has the address its place in the order gives |
| BuildPlan.ItemsDistinct | munet/native.py:795-811 | a build within the plan's bounds gives no item twice |
| BuildPlan.BuildAddressesUnique | munet/native.py:65-113 | all automatic addresses of a whole build within the bounds are different, from each other and from every bridge and loopback address, IPv4 and IPv6 |
| Nodes.Node.constructor | munet/native.py:795-799 | a new node has its seed networks and empty tables |
| Nodes.Node.GetNextIntfName | munet/base.py:1665-1671 | terminates for every table and returns the name of the least unregistered index from the counter on |
| Nodes.Node.NameConnections | munet/native.py:3250-3268 | the naming pass of one node |
| Nodes.Node.GetIntfAddr | munet/base.py:1641-1644 | the table entry, or None for an unknown interface |
| Nodes.Node.GetPeerIntfAddr | munet/base.py:1646-1649 | the same for the peer table |
| Nodes.Node.SetIntfAddr | munet/base.py:1651-1655 | own and peer entries are set in the slot of the address's version |
| Nodes.Node.RegisterInterface | munet/base.py:1689-1691 | a registered interface keeps its addresses |
| Nodes.Node.RegisterNetwork | munet/base.py:1693-1697 | a network stays on the interface it was first registered on, and the assertion fails exactly for another one |
| Nodes.Node.SetP2pAddrFamily | munet/native.py:1063-1121 | one family of a link, also between two interfaces of one node |
| Nodes.Node.SetP2pAddr | munet/native.py:1123-1126 | both families, IPv6 only when enabled |
| Nodes.Node.SetLanAddr | munet/native.py:1011-1061 | a bridge connection's addresses, or a failed assertion that changed nothing |
| Nodes.Node.SetDummyAddr | munet/native.py:986-1009 | an unconnected interface's addresses, or a failed assertion that changed nothing |
| Nodes.Node.AddDummy | munet/base.py:2906-2931 | registers the interface and sets its addresses |
| Nodes.Node.AddLan | munet/base.py:3036-3037 | registers the interface and the bridge and sets the addresses, or fails an assertion |
| Nodes.Node.AddP2p | munet/base.py:2995-3000 | registers both ends, also on one node, and sets their addresses |
| InterfaceNames.NextIndex | munet/base.py:1665-1671 | the least free index exists however many names are taken |
| InterfaceNames.NameAll | munet/native.py:3250-3268 | every connection gets a name and the counter never goes back |
| InterfaceNames.NameAllFacts | munet/native.py:3250-3268 | given names are kept and the others are exactly the free automatic names the counter passed, none twice |
| InterfaceNames.NamesDistinctIff | munet/native.py:3250-3268 | all names are different exactly when the given ones are and none of them is a free automatic name with fewer free ones before it than there are unnamed connections |
| InterfaceNames.FreshNodeCounter | munet/base.py:1665-1671 | while nothing is registered the automatic names are the next ones, one per unnamed connection |
| InterfaceNames.FreshNamesDistinctIff | munet/native.py:3250-3268 | in a build, where nothing is registered yet: exactly when no given name is one of the first automatic ones, as many as there are unnamed connections |
| InterfaceNames.LaterNameRepeats | munet/native.py:3263-3268 | an unnamed connection before one named eth0 gets the same name |
| InterfaceNames.NeverRepeats | munet/base.py:1665-1691 | over any sequence of registrations and calls get_next_intf_name returns no name twice and none that is registered then |
| Decimals.DecimalInjective | munet/base.py:1667 | the decimal text determines the index |
| Decimals.DecimalReads | munet/base.py:1667 | the decimal text is digits without a leading zero, and read by their codes they are the number |
| Connections.FindAllTo | munet/config.py:25-31 | all connections to a node, in order |
| Connections.FindNamed | munet/config.py:17-22 | the first connection of a name |
| Connections.FindMatchingNetConfig | munet/config.py:34-43 | the matching rule as it is coded |
| Connections.MatchIsFirst | munet/config.py:34-43 | the match is the first connection that leads back and has the wanted name, and there is none only if no connection fits |
| LoopTrace.WantedIsMatched | munet/config.py:34-43 | what a connection is matched with is a connection of the configuration that leads back |
| LoopTrace.VisitAdds | munet/native.py:3274-3298 | a connection that is not there yet adds its link, or fails exactly when there is none, an address is refused or its bridge is taken |
| LoopTrace.FailsBecause | munet/native.py:3274-3298 | which of the errors a connection that fails gives, read off the configuration and the tables |
| LoopTrace.LoopIsMade | munet/native.py:3270-3298 | however far the loop comes, the nodes are what its links, in its order, make of them |
| LinkBuilder.Munet.constructor | munet/native.py:3270-3273 | nothing is linked at first, and the nodes are as they were made |
| LinkBuilder.Munet.FindHost | munet/native.py:3296 | the connections of the host of that name, or none |
| LinkBuilder.Munet.AddDummyLink | munet/native.py:3316-3333 | an unconnected interface is registered and addressed, or an address is refused |
| LinkBuilder.Munet.AddLanLink | munet/native.py:3386-3391 | a bridge link, or which of its assertions fails |
| LinkBuilder.Munet.AddP2pLink | munet/native.py:3386-3389 | the link is recorded and its nodes have its interfaces and addresses, also when both are one |
| LinkBuilder.Munet.ConnectPort | munet/native.py:3274-3298 | one connection: unconnected, to a bridge, already there, or a new p2p link; an unknown node, a missing match, a long name, a taken network or a refused address is an error |
| LinkBuilder.Munet.ConnectHost | munet/native.py:3274-3298 | the connections of one node in order, up to the first error |
| LinkBuilder.Munet.ConnectAll | munet/native.py:3270-3298 | the whole loop over nodes and connections |
| Pairings.PairedIsOnce | munet/native.py:3270-3298 | with a pairing, and assertions that accept the other connections, the loop gets through, every connection is an end of exactly one link, and exactly the configured interfaces are registered |
| LinksOnce.EndsDistinct | munet/native.py:3270-3298 | then the ends of the links are the connections, and no two are the same |
| LinksOnce.OnceIsAccepted | munet/native.py:3335-3391 | if the loop gets through and has every connection once, the assertions accept every connection |
| LinksOnce.OnceIsPaired | munet/native.py:3270-3298 | if the loop gets through and has every connection once, its p2p links are a pairing |
| LinksOnce.EachOnceIffPaired | munet/native.py:3270-3298 | the loop gets through and adds every link exactly once if and only if the p2p connections can be paired so that of each pair the first one visited is matched with the other, no node has two connections to one bridge, and the others' addresses and names are accepted |
| LinksOnce.ParallelLinksFail | munet/config.py:34-43 | two parallel links without remote names are not added once each |
| LinksOnce.TwiceOnBridgeFails | munet/base.py:1693-1697 | a node with two connections to one bridge fails, though its p2p connections are paired |
| LinksOnce.FreshExists | munet/native.py:795-799 | newly made nodes are what these theorems start from |
| BuiltAddresses.DummyPlaces | munet/native.py:986-1009 | an unconnected interface gets its configured addresses and nothing else |
| BuiltAddresses.LanPlaces | munet/native.py:1011-1061 | an interface on a bridge gets its configured IPv4 address or 10.x.y.id/24, and fc00:0:0:n::id/64, and no peer |
| BuiltAddresses.P2pPlaces | munet/native.py:1063-1126 | the ends of a p2p link get their configured addresses of the enabled families, also on one node |
| BuiltAddresses.BuiltAsConfigured | munet/native.py:3270-3298 | after every build that gets through, whatever its links, each connection has the addresses it is configured with; one on a bridge without has the bridge's automatic ones, and an unconnected one none |
| WholeBuild.BuiltPeersAgree | munet/native.py:3270-3298 | a build that can be done gets through, and the two ends of each of its links agree |
| WholeBuild.BuiltPeers | munet/native.py:1063-1126 | after a build each of a pair of connections has the other's own address for its peer's, or none when one of them has none |
| WholeBuild.BuiltByPlan | munet/native.py:1071-1081 | in an automatic build the k-th link that a node sources, in the order of the configuration, has the k-th pair of addresses of that node, the first for the connection that comes first |
| WholeBuild.SourcedBound | munet/native.py:1071-1081 | a node sources no more links than it has connections to nodes |
| WholeBuild.BuiltAddressesUnique | munet/native.py:3270-3298 | a build that can be done, within bounds that can be read off its configuration, gives every connection that leads somewhere an address that no other one, no bridge and no loopback has |
| WatchLogs.WatchLog.constructor | munet/watchlog.py:36-54 | an existing file is read at once and counted as delivered |
| WatchLogs.WatchLog.StatSnapshot | munet/watchlog.py:56-74 | the stat is taken over and a change of any of its four fields, or of existence, is reported |
| WatchLogs.WatchLog.Reset | munet/watchlog.py:76-80 | everything is forgotten |
| WatchLogs.WatchLog.UpdateContent | munet/watchlog.py:82-118 | new content is what lies between the old and the new size, with the two exceptions the code can raise |
| WatchLogs.WatchLog.SetMark | munet/watchlog.py:173-177 | the mark moves to the end and the old one is returned |
| WatchLogs.WatchLog.FromMark | munet/watchlog.py:156-171 | content from a mark, with Python's slices for negative and large marks |
| WatchLogs.WatchLog.Snapshot | munet/watchlog.py:179-194 | returns what was added since the last snapshot and starts a new one |
| WatchLogs.WatchLog.PeekSnapshot | munet/watchlog.py:196-200 | the same without starting a new one |
| WatchRuns.UpdateAgreesIff | munet/watchlog.py:82-118 | exactly when an update leaves the content equal to the file up to the size last seen, whatever is appended between stat and read |
| WatchRuns.UpdateFate | munet/watchlog.py:56-118 | exactly when an update raises, when it starts over, and what it then has of the file |
| WatchRuns.GoneRaises | munet/watchlog.py:91-92 | a file that is gone makes one update raise; its text is kept, and that of a file that is there again comes after it |
| WatchRuns.ShrunkIsReadTwice | munet/watchlog.py:99-104 | after a truncation the next update reads the same text again |
| WatchRuns.ReplacedRaises | munet/watchlog.py:92-99 | a replaced file makes one update raise, and the next one reads it from the start |
| WatchRuns.PeekThenSnapshot | munet/watchlog.py:179-200 | a peek uses nothing up: a snapshot after it returns the same text, and only then nothing is left |
| WatchRuns.PeekUpdates | munet/watchlog.py:196-200 | a peek with an update does that update and shows what it adds |
| WatchRuns.MarkSlices | munet/watchlog.py:156-171 | everything from a mark on, a negative one counted from the end, a large one giving nothing |
| WatchRuns.MarkSeesNew | munet/watchlog.py:156-177 | the content from a mark set now on is what updates add |
| WatchRuns.SnapshotsDeliverOnce | munet/watchlog.py:156-200 | in every run, whatever happens to the file, the snapshots since the last reset are the content up to the mark and both marks lie within the content |
| WatchRuns.AppendOnlyAgrees | munet/watchlog.py:56-118 | while a file is only appended to, under every interleaving, nothing raises and the content is the file up to the size last seen |
| WatchRuns.StartDelivers | munet/watchlog.py:36-54 | a log made on an existing file has all of it, delivered |
| WatchRuns.PeekShowsRest | munet/watchlog.py:196-200 | after such a run a peek shows exactly what the snapshots have not delivered of the file |
| WatchRuns.SnapshotCatchesUp | munet/watchlog.py:179-194 | then one more snapshot makes all snapshots since the last reset the file itself |
| LineReaders.LineReader.constructor | munet/testing/util.py:170-175 | nothing is queued or buffered at first |
| LineReaders.LineReader.SplitLines | munet/testing/util.py:196-199 | the queue gets the complete lines and the buffer keeps the rest |
| LineReaders.LineReader.ReadLine | munet/testing/util.py:160-204 | one call, whatever reads, ends of file and timeouts it meets |
| LineRuns.LinesUnique | munet/testing/util.py:196-199 | splitting after each newline has one result |
| LineRuns.LinesAppend | munet/testing/util.py:196-199 | later text only adds to the lines found |
| LineRuns.CallsDeliver | munet/testing/util.py:160-204 | after any number of calls the strings returned and queued are those the inputs so far promise |
| LineRuns.OneCall | munet/testing/util.py:177-204 | one call, given the first input that ends it: what it returns, how many inputs it uses and what it keeps |
| LineRuns.GivesUpIff | munet/testing/util.py:177-190 | a call returns None exactly when nothing is queued and the first input that ends it is a timeout, or there is none |
| LineRuns.SessionKeepsNoNewline | munet/testing/util.py:196-199 | what is buffered between calls never holds a newline |
| LineRuns.FeedIsLines | munet/testing/util.py:160-204 | how a text is cut into reads, and where calls give up, does not matter |
| LineRuns.WholeFile | munet/testing/util.py:160-204 | calls that used up a file and its end have returned or queued its lines and then the rest |
| LineRuns.ChunkIndependent | munet/testing/util.py:160-204 | however a file is cut and wherever calls give up, some number of calls reads exactly the file and returns its lines and then the unterminated rest |
| LineRuns.NothingLost | munet/testing/util.py:160-204 | what was read is what was returned, queued and buffered |
| Framing.WriteReply | munet/cli.py:739-744 | the reply's pieces and then the marker |
| Framing.CollectReply | munet/cli.py:659-675 | the receive loop, its early return when the connection closes included |
| Framing.CleanIffNoEarlyEnd | munet/cli.py:659-672 | nothing before the end of reply and marker looks like the end exactly when the reply neither holds the marker nor ends with all of it but its last byte |
| Framing.CleanWritten | munet/cli.py:40 | clean means no NUL "END" NUL anywhere and no NUL "END" at the end, byte by byte |
| Framing.ClosedIff | munet/cli.py:661-668 | the client gives up exactly when the connection ends before what it received ends with the marker |
| Framing.NulFreeIsClean | munet/cli.py:40 | a reply without NUL is clean |
| Framing.CollectExact | munet/cli.py:659-675 | such a reply is printed exactly, for every chunking, and nothing of the stream is taken from the next one |
| Framing.CollectShort | munet/cli.py:659-675 | another one is cut short when it comes byte by byte |
| Framing.SessionIffClean | munet/cli.py:638-744 | every chunking of a session makes the client print exactly the replies in order if and only if every reply is clean |
| Commanders.Commander.constructor | munet/base.py:350-351 | no result, no lock |
| Commanders.Commander.Begin | munet/base.py:1570-1580 | from the call to the first await |
| Commanders.Commander.Resume | munet/base.py:1577-1583 | from getting the lock to the next await |
| Commanders.Commander.Succeed | munet/base.py:1580-1583 | the result is stored, the lock released and the result returned |
| Commanders.Commander.Fail | munet/base.py:1577-1582 | an exception stores nothing and releases the lock |
| Commanders.Commander.GiveUp | munet/base.py:1577 | a cancelled waiter leaves the queue |
| Commanders.Commander.CallBlocking | munet/base.py:1585-1588 | the blocking variant, which takes no lock |
| OnceRuns.RunOnce | munet/base.py:1570-1583 | under any interleaving of any number of callers at most one execution is in flight, none begins during another, at most one succeeds, and all values returned are its result |
| OnceRuns.NoExecutionAfterSuccess | munet/base.py:1570-1583 | nothing is executed after a success |
| OnceRuns.WaitersGoOn | munet/base.py:1577-1583 | a waiter either has an execution to wait for, after whose failure it can go on, or can take the lock now and executes or returns |
| OnceRuns.CallerDoes | munet/base.py:1570-1580 | a new caller returns the result if there is one, executes when nobody executes or waits, and else waits: it overtakes nobody |
| OnceRuns.BlockingKeepsIff | munet/base.py:1585-1588 | after a blocking call, successful or not, every run of asynchronous callers keeps this if and only if the call met a result or no execution in flight |
| OnceRuns.BlockingCallRunsTwice | munet/base.py:1570-1588 | otherwise, when both executions succeed, two callers return their two results |
| OnceRuns.BlockingCallCanOverlap | munet/base.py:1570-1588 | one asynchronous call is enough to come to it |
| KeyedMerge.IndexByKey | munet/config.py:47-49 | the last position of every key value; it fails exactly when an object lacks the key |
| KeyedMerge.PutObject | munet/config.py:50-56 | an object replaces the last one of its key value, or is appended, and the index stays right |
| KeyedMerge.MergeUsingKey | munet/config.py:46-57 | the merge with its index; it fails exactly when an object lacks the key |
| KeyedMerge.ListToDictWithKey | munet/config.py:60-76 | of objects with one key value the last one |
| KeyedMerge.MergeIsOverride | munet/config.py:46-76 | the dict of the merged list is the dict of the first overridden by the dict of the second |
| KeyedMerge.MergeKeepsPositions | munet/config.py:46-57 | the merged list position by position, duplicates included |

## Left out

- Running commands: processes, namespaces, containers, virtual machines, `ip` and `tc` commands,
  log formatting, timing, prompts and pexpect shells.
- The matching of command output and JSON: a match result is an arbitrary boolean.
- Frame names and the blank separator lines of the results log. An inline include clears the flag
  for the next blank line, so splicing does not preserve blank lines.
- A script that catches the exception of an API call itself, and exceptions that are not
  `Exception` (a keyboard interrupt) inside an include, after which the source does not unwind.
- Which text a pathname holds: an include in the model carries its script. `ScriptPaths` says when
  the path it is read from is the one meant.
- Explicit addresses of bridges and loopbacks, external networks, host and physical interfaces,
  virtual machine nodes (which leave unconnected interfaces without addresses), MTUs and the DNS
  network. An address key that is present but empty, which switches automatic numbering off for a
  bridge connection, is not distinguished from a missing one.
- The end of the address space: addresses are unbounded numbers, and `ipaddress` would raise.
- The text a link is recorded under; two links with odd node names could share one. The names of
  the bridge's own side of a connection are not in the model: whether both names of a bridge link
  are shorter than 16 characters, as `munet/base.py:3015` asserts, is a boolean of the connection.
- Carriage returns and encodings of more than one byte in a watched file, and of replies.
- A file that is removed between the `exists` and the `stat` of one update.
- The order in which asyncio wakes waiters: any waiter may get a free lock.
- `convert_number` (suffixes of numbers), `config_subst` (variables in strings), the merging of
  kinds, the command line's host expressions and the search for test files: each is one pass over
  one value, or depends on regular expressions.
