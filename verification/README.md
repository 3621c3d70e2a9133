# Verification of the fabric scan and the MAD codec

This project models parts of infiniband-diags in Dafny and proves properties of them: the
discovery of a fabric by `libibnetdisc`, the cache file that it is stored in, the field
codec and the packet encoder of `libibmad`, and some algorithms of the tools.

`dafny verify dfyconfig.toml` checks all of it.

## How the parts fit together

- **Engine** (`SmpEngine`, `SmpWire`): a queue of SMPs feeds a bounded window of SMPs on the
  wire. `SmpEngine` is the engine as functions on values, with theorems over whole runs;
  `SmpWire` is the engine in memory, a linked queue and a map, and each of its methods is
  proved to do what the functions say.
- **Callbacks** (`Fabric`, `Tables`, `PortTable`, `Scanner`): what a reply does to the graph of
  nodes and ports, to the hash chains, the type lists, the port table and the LID map.
  `Scanner.FabricScan` holds them as fields that its methods update. `PortTable` is the port
  table once more, with its chains threaded through objects; both port tables are specified
  by the same function `Tables.EnterChain`.
- **Scans of a static fabric** (`Wiring`, `Discovery`, `TrueLinks`, `Completeness`,
  `Termination`, `Paths`, `BadStart`, `PortRecords`, `PortIndexes`): a fabric is a set of
  nodes with cabled ports; it answers SMPs on directed routes, one at a time and in any
  order. The theorems are about every run; completeness holds with a hop limit too, as long
  as the hops counted stay inside it. `Discover` joins them to the classes: the loop of
  `process_mads` on `FabricScan` and `Wire` ends in a state that the theorems describe.
  `QueriedOnce`, `HopCount` and part of `Paths` need no static fabric and hold for any
  replies.
- **Codec and packets** (`Binary`, `BitFields`, `WideFields`, `FieldLayouts`, `Packet`,
  `MadHeaders`, `MadBytes`, `MadCodec`): bit fields in big-endian words, the layout table
  entry by entry, and `mad_encode` with what can be read from its packets: fields through
  the codec in `MadHeaders`, bytes at their offsets in `MadBytes`.
- **Cache** (`CacheFormat`, `CacheBytes`, `CacheGraph`, `CacheWriter`, `CacheLoader`): the
  bytes of a file, the graph behind them, and the round trip. `CacheBytes` states the
  bytes at their offsets, and which files are refused.
- **From the scan to the loaded fabric** (`ScanSizes`, `ScanToCache`, `LoadedLids`,
  `LoadedScan`): what a scan leaves fits the file, and what is loaded from it is complete.
- **Multicast trace** (`McNodes`, `McLog`, `McTree`, `McReach`): the tree of nodes, a log of
  what the search has asked, the search itself, and what it finds in a fabric that does not
  change while it runs.
- **Other tools** (`Chassis`, `ChassisGuids`, `Diff`, `DrPathText`, `Hex256`).

Field layouts follow sections 13.4.2, 14.2.1.1, 14.2.1.2 and 15.2.1.1 of the InfiniBand
Architecture Specification, Volume 1, as the source cites them.

## Findings

Where the code does not do what its callers may expect, the exact condition is proved.

| finding | source | condition |
|---|---|---|
| A scan that starts at a CA or router, over a path whose way back does not lead to the peer of the start port, links the start port to another port of that switch or to none. | libibnetdisc/src/ibnetdisc.c:100-118 | `BadStart.GoodStartIff`, `BadStart.CompleteIffGoodStart`; an input is in `BadStart.RowIsNotComplete` |
| The count of stored ports in a node record is one byte; a node with 255 ports and a port 0, all present, is not read back. | libibnetdisc/src/ibnetdisc_cache.c:845-846 | `CacheFormat.NodeReadsIff` |
| A port that hangs in a ports array but is not in the port table makes the load of the cache fail. It is a port that answered as the end of a link and whose PortInfo never came. | libibnetdisc/src/ibnetdisc_cache.c:497-526 | `CacheGraph.CacheRoundTrip`, `ScanToCache.CacheableIff`; an input is in `ScanToCache.LostPortInfo` |
| `recv_node_info` stores the GUID of the reply also in a port that is in the port table; the chains go wrong when the new GUID has another bucket. | libibnetdisc/src/ibnetdisc.c:574-576 | `PortTable.PortHash.StoreGuid` |
| The tail byte of a field is written without masking the value. | libibmad/src/fields.c:1066-1069 | `BitFields.KeepsOthersIff` |
| `maxhops_discovered` counts a hop for every step back of a scan that comes to its start, a CA or router, again; it then exceeds the longest route. | libibnetdisc/src/ibnetdisc.c:100-118 | `HopCount.HopsAreCounted` with `NeverBack`; an input is in `HopCount.CountOvershoots` |
| `nodecount` of a chassis is one byte, so a class of 256 or 257 nodes makes no chassis. | libibnetdisc/src/chassis.c:1280-1327 | `Chassis.BigIff` |
| From a CA or router over a path of at most one hop, the search for a multicast path can enter level 63, behind the end of `nodesdist`. | src/ibtracert.c:538-678 | `McTree.McScan.FindMcPath` for all fabrics, `McTree.ChainOverruns` for a chain of switches |
| Two cables between the same two switches can be exchanged at one side without a report: of the far end only the GUID is compared, which all ports of a switch share. | src/ibnetdiscover.c:808-815 | `Diff.MissesChangeIff`; an input is in `Diff.ExchangeIsNotReported` |
| When the start of a multicast trace is its own target and is returned, `dump_mcpath` reads the number of a port that is NULL. | src/ibtracert.c:565-574 | `McTree.Trace`; an input is in `McTree.TraceToItself` |
| `parse256` reads the character behind the terminator of an argument without digits. | src/ibccconfig.c:201-216 | `Hex256.Parse256`; the arguments are in its last postcondition |
| `mad_dump_array` ends its digits with a zero character behind a buffer that they fill. | libibmad/src/dump.c:653-663 | `Hex256.DumpOverruns` |
| `str2drpath` stores hops behind the path array. | libibmad/src/portid.c:93-104 | `DrPathText.StrToDrPath` |

## Model

| member | source | states |
|---|---|---|
| SmpEngine.Conservation | libibnetdisc/src/query_smp.c:44-67 | an issued SMP is queued or on the wire, answered, or freed by a failed send, exactly once, as bags of requests |
| SmpEngine.RunInv | libibnetdisc/src/query_smp.c:102-209 | in every run of issues and answers, with any send failures and fewer than 2^32 ids drawn: SMPs leave the queue in issue order, the ids on the wire and in the queue are distinct, the wire never holds more than the window, `total_smps` is wire plus answered, and while the run goes on the queue waits only for a full window |
| SmpEngine.Quiescence | libibnetdisc/src/query_smp.c:276-283 | when the loop of `process_mads` ends without an error the queue is empty too, and every issued SMP was answered or freed; sends may have failed in callbacks |
| SmpWire.SmpQueue.Put | libibnetdisc/src/query_smp.c:44-54 | the linked queue in memory gains the SMP at its end |
| SmpWire.SmpQueue.Get | libibnetdisc/src/query_smp.c:56-67 | the head of the linked queue leaves it, and an emptied queue has no tail |
| SmpWire.Wire.MadTrid | libibmad/src/mad.c:60-73 | the low 32 bits of an advancing counter |
| SmpWire.Wire.ProcessSmpQueue | libibnetdisc/src/query_smp.c:102-121 | the loop over the queue is the recursive refill that the run theorems are about, for any outcome of the sends |
| SmpWire.Wire.IssueSmp | libibnetdisc/src/query_smp.c:123-155 | queueing and refilling, with the id drawn at issue |
| SmpWire.Wire.Receive | libibnetdisc/src/query_smp.c:157-209 | an answered SMP leaves the wire and the window is refilled; an unknown id changes nothing |
| Fabric.LinkPortsInvolution | libibnetdisc/src/ibnetdisc.c:505-518 | `remoteport` pointers come in pairs after linking any two ports, whatever they were linked to before |
| Fabric.HandleOk | libibnetdisc/src/ibnetdisc.c:231-610 | every callback, for any reply: `remoteport` stays an involution, node GUIDs stay unique, ports stay in their slots, no callback data of an outstanding SMP dangles, nodes and ports are never lost, the internal error of `recv_node_info` cannot happen, and a callback fails exactly when the reply to an extended query names a port that the node does not have; the port is the one in the attribute modifier of the reply |
| Scanner.FabricScan.FindNodeGuid | libibnetdisc/src/ibnetdisc.c:620-635 | the walk down one hash chain finds what a scan of the list of all nodes finds |
| Scanner.FabricScan.CreateNode | libibnetdisc/src/ibnetdisc.c:465-503 | the new node enters the node list, its chain and its type list, and the indexes still agree |
| Scanner.FabricScan.LinkPorts | libibnetdisc/src/ibnetdisc.c:505-518 | the four assignments, in their order and with former partners unlinked first, have the effect of one simultaneous change |
| Scanner.FabricScan.AddToPortGuidHash | libibnetdisc/src/ibnetdisc.c:662-679 | the port goes in front of its chain unless the walk meets it there |
| Scanner.FabricScan.AddToPortLidHash | libibnetdisc/src/ibnetdisc.c:702-722 | for lmc <= 7 the loop with its 16-bit counter ends, and registers the LIDs base to base + 2^lmc - 1 without replacing an entry |
| Fabric.AfterPortInfo | libibnetdisc/src/ibnetdisc.c:336-440 | what a PortInfo reply is followed by: the extended query if and only if it is wanted, supported, and the port is up at QDR; otherwise a NodeInfo query through the port if and only if the port is up, is not port 0 and leads on, the count of hops is inside the limit or there is none, and the path has room |
| Scanner.FabricScan.RecvNodeInfo | libibnetdisc/src/ibnetdisc.c:532-610 | graph, issued SMPs in order, and engine state are those of the callback function; the indexes stay in agreement |
| Scanner.FabricScan.RecvPortInfo | libibnetdisc/src/ibnetdisc.c:336-440 | the same for `recv_port_info` with its tail, and the port that the reply names enters the port table and the LID map with the GUID and LIDs it has then |
| Scanner.FabricScan.RecvPort0Info | libibnetdisc/src/ibnetdisc.c:442-454 | the same when port 0 was asked for, whichever port the reply names, with the queries for ports 1 to numports behind it |
| Scanner.FabricScan.RecvExtPortInfo | libibnetdisc/src/ibnetdisc.c:231-325 | the callback goes on through the port that the reply names, and fails exactly when the node does not have it |
| Scanner.FabricScan.GoOn | libibnetdisc/src/ibnetdisc.c:231-325 | the tail shared with the two extended-port-info callbacks |
| Scanner.FabricScan.ProcessOneRecv | libibnetdisc/src/query_smp.c:157-209 | one received MAD: unknown id, failed refill, or callback, with graph, indexes and engine after it |
| Tables.ChainLookup | libibnetdisc/src/ibnetdisc.c:620-635 | the search of the chain of a GUID equals the linear scan of all nodes, for every list of nodes |
| Tables.ChainMembers | libibnetdisc/src/ibnetdisc.c:643-660 | each of the 137 chains holds exactly the nodes of its bucket, each once, newest first |
| Tables.KindMembers | libibnetdisc/src/ibnetdisc.c:724-741 | each CA, switch and router is on the list of its type, once, and on no other |
| Tables.LidMapsToFirst | libibnetdisc/src/ibnetdisc.c:702-722 | after any registrations a LID maps to the first registered port whose range contains it, and to nothing if there is none |
| Tables.FiledOf | libibnetdisc/src/ibnetdisc.c:662-679 | the port table is in order (right chain, no port twice) as long as the ports have the GUIDs they were entered with |
| Tables.PortLookup | libibnetdisc/src/ibnetdisc.c:946-961 | a port GUID is found exactly when a port with that GUID is in the table |
| PortTable.PortHash.Add | libibnetdisc/src/ibnetdisc.c:662-679 | on chains threaded through the ports in memory: the table becomes the one of the sequence model, stays acyclic, and a port that is in it is not entered again |
| PortTable.PortHash.Find | libibnetdisc/src/ibnetdisc.c:946-961 | finds a port exactly when one with the GUID was put in |
| PortTable.PortHash.StoreGuid | libibnetdisc/src/ibnetdisc.c:574-576 | storing the GUID of a reply keeps the table in order if and only if the port is not in it or the GUID stays in the same chain |
| Discovery.DeliverSound | libibnetdisc/src/ibnetdisc.c:336-610 | one answer of a static fabric keeps the graph true: nodes are what is at the end of their stored routes, PortInfo is that of the port, and every outstanding SMP is on its way to the node it is about |
| TrueLinks.DeliverInv | libibnetdisc/src/ibnetdisc.c:91-147 | links are cables, every node but the first is linked to an older one, and its route continues the route of that one |
| Completeness.DeliverCovered | libibnetdisc/src/ibnetdisc.c:231-325 | as long as a port of a known switch is not linked to its peer, an SMP that brings the scan closer to it is outstanding; while the hops counted are inside the limit |
| Completeness.FoundIsReachable | libibnetdisc/src/ibnetdisc.c:532-610 | a scan finds nothing that cannot be reached through switches or the start port |
| Completeness.ScanIsComplete | libibnetdisc/src/ibnetdisc.c:336-610 | when nothing is outstanding and the hops counted are inside the limit, or there is none, the nodes found are exactly the reachable ones and every port that leads on is linked to its true peer, for every order of answers |
| Paths.SmallScanIsComplete | libibnetdisc/src/ibnetdisc.c:91-147 | the same, with the same condition on the hop limit and without a hypothesis on the routes, for any good start path, when the path and one hop for each node fit into the path array |
| BadStart.GoodStartIff | libibnetdisc/src/ibnetdisc.c:100-118 | the start is good exactly when the path ends at a switch, at an unlinked port or at the home port, or enters its last switch by the port that it leaves it by |
| BadStart.StartPortLinkedIff | libibnetdisc/src/ibnetdisc.c:100-118 | with the hops counted inside the limit, a cabled start port of a CA or router is linked to its peer in the end if and only if the start is good |
| BadStart.CompleteIffGoodStart | libibnetdisc/src/ibnetdisc.c:100-147 | a finished scan whose count of hops is inside its limit is complete if and only if the start is good |
| BadStart.RowIsNotComplete | libibnetdisc/src/ibnetdisc.c:100-118 | a CA, a switch and a CA in a row, started at the far CA: a finished run exists, and its start port is not linked to the switch port that it is cabled to |
| Termination.DeliverDecreases | libibnetdisc/src/ibnetdisc.c:413-453 | every answer strictly lowers a measure over outstanding SMPs and nodes not yet found |
| Termination.ScanEnds | libibnetdisc/src/query_smp.c:276-283 | no scan takes more answers than the measure of its first state |
| Termination.RunToEnd | libibnetdisc/src/query_smp.c:276-283 | every run can be continued until nothing is outstanding |
| Termination.ScanLength | libibnetdisc/src/ibnetdisc.c:413-453 | a scan of n nodes with at most p ports takes at most 6 + n (3 + 8 p) answers |
| QueriedOnce.AskedOnce | libibnetdisc/src/ibnetdisc.c:596-607 | for any replies in any order, NodeDesc, SwitchInfo and each PortInfo of a switch are asked for at most once per node |
| QueriedOnce.AskedExactlyOnce | libibnetdisc/src/ibnetdisc.c:532-610 | and every node that was found has been asked for its NodeDesc exactly once, every switch for its SwitchInfo and its port 0 exactly once, over the route that found it |
| HopCount.HopsAreCounted | libibnetdisc/src/ibnetdisc.c:91-147 | for any replies, no route has more hops than the start path and the hops counted, a limit of n lets no route have more than n + 1 hops behind the start path, and without a turn at the start node the count is that of the longest NodeInfo route |
| HopCount.SwitchNeverBack | libibnetdisc/src/ibnetdisc.c:100-118 | a scan that starts at a switch never turns |
| HopCount.CountOvershoots | libibnetdisc/src/ibnetdisc.c:100-118 | a run from the home port in which three hops are counted and no route has more than two |
| Paths.PathsAreValid | libibnetdisc/src/ibnetdisc.c:963-1001 | walking the stored route of a node through `remoteport`, as `ibnd_find_port_dr` does, ends at that node and at the port it was entered by, in every state of every scan from the home port |
| Paths.RunRoutesFit | libibnetdisc/src/ibnetdisc.c:91-98 | for any replies in any order, every stored route and every route of an issued SMP has fewer than 64 hops |
| Paths.SmpsAreEncoded | libibmad/src/mad.c:109-114 | so `mad_encode` refuses none of the SMPs of a scan for its hop count |
| PortRecords.RunRecords | libibnetdisc/src/ibnetdisc.c:336-463 | in every state of every scan the recorded GUID of a port is that of the fabric, and its LID and LMC are its own or those of port 0 of its switch |
| PortRecords.SwitchPortsShareLid | libibnetdisc/src/ibnetdisc.c:369-386 | a port of a switch whose PortInfo is in carries the LID and LMC of port 0, because the other ports are asked for after port 0 has answered |
| PortIndexes.DeliverEntries | libibnetdisc/src/ibnetdisc.c:380-386 | one answer keeps every entry of the port table and the LID map true, and every port of a known switch entered or awaited |
| PortIndexes.RunEntries | libibnetdisc/src/ibnetdisc.c:336-463 | the same in every state of every scan, for fabrics whose switches have one GUID for all ports |
| PortIndexes.TableInOrder | libibnetdisc/src/ibnetdisc.c:662-679 | in every such state the chains of the port table are in order, although ports of CAs are entered again on every visit |
| PortIndexes.IndexesAtRest | libibnetdisc/src/ibnetdisc.c:936-961 | at the end of a scan all ports of all switches are known, a port GUID is found exactly when a port has it, and the LID map leads from exactly the LIDs of the known ports to a port with that LID |
| Discover.AnswerOne | libibnetdisc/src/query_smp.c:157-209 | one turn of the loop on the classes: a step of the run, and the measure falls |
| Discover.ProcessMads | libibnetdisc/src/query_smp.c:276-283 | the loop over the engine in memory ends, leaves queue and wire empty, and its graph is the last state of a run |
| Discover.DiscoverFabric | libibnetdisc/src/ibnetdisc.c:770-843 | a whole scan on the classes ends; if the hops counted are inside the limit its graph is complete, with complete indexes; the reported count is that of the run and the hops of the start path |
| BitFields.GetField | libibmad/src/fields.c:1072-1099 | the loops over whole bytes and the partial bytes compute the field function |
| BitFields.SetField | libibmad/src/fields.c:1040-1070 | the same for writing in place |
| BitFields.FlipIsXor | libibmad/src/fields.c:1046-1069 | the byte index of the model is `3 ^ idx` |
| BitFields.GotIsField | libibmad/src/fields.c:1072-1099 | an aligned field of at most 32 bits, also one that crosses words, reads as the number whose bits are those of the buffer from its first bit on |
| BitFields.GetIsRightIffAligned | libibmad/src/fields.c:1072-1099 | a field inside a word reads as (word >> offset) mod 2^width in every buffer if and only if it is a single byte or prebits + 8 (width / 8) + postbits = width |
| BitFields.PutThenGet | libibmad/src/fields.c:1040-1099 | a written value is read back modulo 2^width |
| BitFields.KeepsOthersIff | libibmad/src/fields.c:1066-1069 | a write keeps all bits outside the field, in every buffer, if and only if the value has no bits beyond the width in the last partial byte |
| BitFields.PutKeepsField | libibmad/src/fields.c:1040-1099 | fields without common bits do not disturb each other |
| WideFields.SetField64 | libibmad/src/fields.c:1022-1030 | a 64-bit field is eight big-endian bytes |
| WideFields.GetField64 | libibmad/src/fields.c:1032-1038 | the number of those bytes, below 2^64 |
| WideFields.NumberIsTwoWords | libibmad/src/fields.c:1032-1038 | which is the two big-endian words at that place |
| FieldLayouts.TableFieldsWork | libibmad/src/fields.c:57-1020 | every entry of at most 32 bits of the layout table reads as its part of the word, gives back a value that fits, and keeps all other bits |
| Packet.MadEncode | libibmad/src/mad.c:86-163 | the packet is that of the list of stores; a direct route without a path or with 64 hops or more is refused; an id is drawn for a request without one, after that test |
| MadHeaders.HeaderInLayouts | libibmad/src/fields.c:71-96 | the header fields are entries of the layout table |
| MadHeaders.HeaderReads | libibmad/src/mad.c:86-163 | with the table of the library, the packet gives back method mod 128, response bit, class, transaction id mod 2^64, attribute id and modifier, for every class and any data at offset 24 or later |
| MadHeaders.DrHeaderReads | libibmad/src/mad.c:107-144 | and on a direct route with data in bytes 64 to 127 also hop count, status mod 2^15, direction, both LIDs (0 stands for 0xffff) and the path |
| MadBytes.FirstBytes | libibmad/src/mad.c:91-101 | the first four bytes, for every class: 1, the class, class version 2 exactly for classes 3 and 0x21, and the method with its response bit |
| MadBytes.HeaderBytes | libibmad/src/mad.c:103-130 | behind them, big-endian: the status, or on a direct route direction and status in one word, hop pointer and hop count; transaction id at 8, attribute id at 16, modifier at 20 |
| MadBytes.KeyBytes | libibmad/src/mad.c:132-160 | the M_Key at 24, or in congestion control its key; the component mask at 48 in subnet administration; the OUI at 37 in the vendor classes with one |
| MadBytes.RouteBytes | libibmad/src/mad.c:135-147 | on a direct route the LIDs at 32 and 34, and the path at 128, or at 192 in a response |
| MadBytes.DataBytes | libibmad/src/mad.c:155-156 | the data block is at its offset, for every class; in the vendor classes with an OUI when it lies behind that |
| MadCodec.EncodeAndDecode | libibmad/src/mad.c:86-163 | encoding and then decoding a buffer in place gives the header back, with the data and the first word where they belong; a direct route without a path or with 64 hops or more is refused |
| CacheFormat.NodeReadsIff | libibnetdisc/src/ibnetdisc_cache.c:311-398 | a node record is read back if and only if it does not store 256 ports, which its one-byte count cannot say |
| CacheFormat.FileReads | libibnetdisc/src/ibnetdisc_cache.c:222-464 | the records of a whole file are read back, each with what follows it left over |
| CacheBytes.HeaderIff | libibnetdisc/src/ibnetdisc_cache.c:222-260 | a header is accepted if and only if 28 bytes are there and the first eight are the signature 2b 83 e7 8f 01 00 00 00 |
| CacheBytes.LoadsOnlySigned | libibnetdisc/src/ibnetdisc_cache.c:236-246 | so a file with another magic number or version is not loaded |
| CacheBytes.LoadsNoShortFile | libibnetdisc/src/ibnetdisc_cache.c:222-464 | nor is one that is shorter than the records that it announces |
| CacheBytes.FileLayout | libibnetdisc/src/ibnetdisc_cache.c:767-808 | the bytes of a written header at their offsets, and the records of nodes and ports behind it |
| CacheBytes.NodeLayout | libibnetdisc/src/ibnetdisc_cache.c:810-852 | the bytes of a node: 207, with the number of stored ports in the last one, and the keys behind them |
| CacheBytes.KeysLayout | libibnetdisc/src/ibnetdisc_cache.c:810-852 | nine bytes for each key |
| CacheBytes.PortLayout | libibnetdisc/src/ibnetdisc_cache.c:854-880 | the 95 bytes of a port |
| CacheGraph.ChainFinds | libibnetdisc/src/ibnetdisc_cache.c:466-495 | a lookup in a hash chain of the loader finds the latest matching record of all |
| CacheGraph.CacheRoundTrip | libibnetdisc/src/ibnetdisc_cache.c:497-692 | loading the bytes of a cached fabric gives the same nodes, ports arrays, links, from-node and hop count if every attached port is in the port table, and fails otherwise |
| CacheGraph.IndexesRestored | libibnetdisc/src/ibnetdisc_cache.c:542-557 | the list of nodes, the hash chains and the type lists after a load are those of the scan that was cached, in the same order |
| CacheGraph.IndexedSame | libibnetdisc/src/ibnetdisc_cache.c:516-523 | after a load of a cached fabric the port table holds every port, in the chain of its GUID and once, and the LID map is that of registering the ports from the last record to the first |
| CacheWriter.CacheFabric | libibnetdisc/src/ibnetdisc_cache.c:882-967 | the file holds the records of the fabric, with the counts filled in afterwards |
| CacheLoader.FabricCache.RebuildNodes | libibnetdisc/src/ibnetdisc_cache.c:528-579 | the walk down the reversed list of records, prepending each node, leaves the nodes in the order of the file, in all lists and chains; the ports that were filled in are the port table |
| CacheLoader.FabricCache.RebuildPorts | libibnetdisc/src/ibnetdisc_cache.c:581-622 | every port is wired to its node and its remote port, or the load fails; each is registered in the LID map |
| CacheLoader.LoadFabric | libibnetdisc/src/ibnetdisc_cache.c:624-699 | the loader on its hash tables is the function that the round trip is about, and its indexes are those of the records; a file without the signature is refused |
| CacheLoader.CacheAndLoad | libibnetdisc/src/ibnetdisc_cache.c:624-967 | caching to a new file and loading it: the same graph and complete indexes, or nothing when a port is missing in the port table |
| ScanToCache.CacheableIff | libibnetdisc/src/ibnetdisc_cache.c:497-526 | after any run with any replies, every port of the fabric is in the port table if and only if its PortInfo has come in |
| ScanToCache.LostPortInfoNotLoaded | libibnetdisc/src/ibnetdisc_cache.c:497-526 | a CA that answers NodeInfo and not PortInfo: the scan is over, the port is known and not in the port table |
| ScanToCache.FinishedScanIsCacheable | libibnetdisc/src/ibnetdisc_cache.c:810-880 | a fabric in memory with the nodes, ports and port table of a finished scan meets what the round trip asks for, every port in the table included |
| ScanSizes.RunSizes | libibnetdisc/src/ibnetdisc.c:336-610 | after k answers a scan of a static fabric knows at most k nodes and k ports, and every number in the graph has the width of its field |
| LoadedLids.LidsRestored | libibnetdisc/src/ibnetdisc_cache.c:581-622 | the LID map that is rebuilt from the cache has the LIDs of that of the scan; a LID leads to the same port in both if and only if the port that the scan registered first for it is in the last chain of the port table that has a port with the LID |
| LoadedScan.ScanCacheLoad | libibnetdisc/src/ibnetdisc_cache.c:624-967 | a static fabric is scanned, cached and loaded: the load succeeds with the reported count of hops, a LID that one GUID has leads to the port that it led to after the scan, the rebuilt indexes hold all nodes and ports, and, if the count was inside the limit, the loaded nodes are exactly the reachable ones, and every port that leads on is linked to the port at the other end of its cable |
| Chassis.GroupingIsRight | libibnetdisc/src/chassis.c:1280-1327 | one record for each class, its count, numbers 1 to last without repeats exactly for the classes with a count above one, and a list of exactly the members that no earlier pass took, each once |
| Chassis.BigIff | libibnetdisc/src/chassis.c:1280-1327 | the one-byte count is right about a class having more than one node exactly when the class is below 256 nodes or its size is not 0 or 1 modulo 256 |
| Chassis.Grouping.GroupNodes | libibnetdisc/src/chassis.c:1195-1327 | passes 3 and 4 over the lists of chassis compute that grouping |
| ChassisGuids.TopspinChassis | libibnetdisc/src/chassis.c:136-141 | Topspin nodes are in one chassis exactly when their GUIDs differ in the slot byte at most |
| ChassisGuids.XsigoCaChassis | libibnetdisc/src/chassis.c:193-223 | a Xsigo CA is in the chassis of the switch it is cabled to exactly when that is a first leaf |
| ChassisGuids.ChassisGuidBits | libibnetdisc/src/chassis.c:136-238 | a node that no vendor rule is for has its own GUID; Topspin nodes and Xsigo switches have theirs with bits 24 to 31 cleared and no other bit changed; a Xsigo CA has 0 without port 1, the GUID of a first leaf at the other end with those bits cleared, and its own otherwise |
| ChassisGuids.OrdinaryChassis | libibnetdisc/src/chassis.c:225-238 | two nodes that no vendor rule is for are in one class exactly when they have one system image GUID |
| ChassisGuids.OrdinaryNumbered | libibnetdisc/src/chassis.c:1280-1327 | for a GUID that only such nodes have, there is a numbered chassis exactly when the number of nodes that share it is above one modulo 256, and it lists exactly those of them that no earlier pass took |
| McTree.McScan.NewNode | src/ibtracert.c:462-486 | a node is placed exactly when it is not the target, its GUID is new and its level is inside `nodesdist`; the table holds no GUID twice |
| McTree.McScan.FindMcPath | src/ibtracert.c:538-678 | a node that is found has a path that leads to it, is printable and reaches the root in exactly as many `upnode` steps as its level, unless the start is the target: then the start is returned if and only if it is a switch that forwards the group to its port 0; levels stay inside `nodesdist` except from a CA or router over a path of at most one hop; and when nothing is found no reply was from the target, every node that replied is in the tree, and every switch in it has been asked for its ports and followed through each that it forwards to, if up, but the one that leads back |
| McTree.McScan.Place | src/ibtracert.c:654-668 | a reply is the target exactly when it has its port GUID; otherwise its node is in the tree afterwards, new or known |
| McReach.FindForwarded | src/ibtracert.c:538-678 | in a fabric that does not change during the search: a target that is found is one that the group is forwarded to from the start over links that are up, and when nothing is found there is no way of any length; the search fails only behind a route of 62 hops |
| McReach.NothingIsForwardedTo | src/ibtracert.c:571-675 | the second half, from the log of the queries |
| McReach.FoundIsForwardedTo | src/ibtracert.c:571-675 | the first half |
| McTree.ChainOverruns | src/ibtracert.c:538-678 | and for every such start path the search does leave `nodesdist`, against a chain of switches |
| McTree.DumpMcPath | src/ibtracert.c:693-740 | the recursion ends; it prints one line for each node from the root down and one for the target, or reads through NULL, which it does exactly when the node at the root has a distance other than 0 |
| McTree.Trace | src/ibtracert.c:849-855 | a trace reads through NULL if and only if the first reply comes from the target and the target is a switch that forwards the group to its port 0 |
| McTree.TraceToItself | src/ibtracert.c:565-574 | such a trace |
| Diff.DiffFabrics | src/ibnetdiscover.c:783-989 | the events of the nested loops are those of the event functions, and there are none exactly when every node has its like on the other side |
| Diff.PortLines | src/ibnetdiscover.c:783-855 | a port is on a line of its side, with its own number, exactly when it differs and is not merely missing the link that the other port has |
| Diff.NodeLines | src/ibnetdiscover.c:872-925 | exactly the lines about a node: its header when it is missing or differs, the links of a missing node, a detail line of the other side, each side with its own number of ports, and the port lines |
| Diff.SilentIff | src/ibnetdiscover.c:857-989 | with unique GUIDs diff prints nothing if and only if both fabrics have the same GUIDs and every node agrees with its like in what the flags select |
| Diff.DefaultSilentIff | src/ibnetdiscover.c:857-989 | which by default is: port count, presence, GUID and link of each port, and the GUID at the other end |
| Diff.MissesChangeIff | src/ibnetdiscover.c:783-855 | a diff that compares links has a silent change of the wiring if and only if the original has two cables that look alike from both sides |
| Diff.ExchangeIsNotReported | src/ibnetdiscover.c:808-815 | two cables between two switches, exchanged at one side: nothing is printed |
| Diff.SilentBothWays | src/ibnetdiscover.c:927-969 | whether there is output does not depend on which fabric is the original |
| DrPathText.StrToDrPath | libibmad/src/portid.c:83-111 | the loop over commas stores the hops of the text; it stores behind the path array exactly when there are more than 64 |
| DrPathText.DrPathToStr | libibmad/src/portid.c:114-128 | the buffer shows the whole text, cut to what fits |
| DrPathText.PrintAndRead | libibmad/src/portid.c:83-128 | the printed hop list of 1 to 64 byte hops is read back as the same hops and count |
| Hex256.DumpArray | libibmad/src/dump.c:653-663 | two digits for every byte that fits, and a zero character behind them, which falls behind the buffer exactly when the digits fill it |
| Hex256.HexTextAt | libibmad/src/dump.c:653-663 | the digits of byte k, lower-case, high digit first |
| Hex256.DumpOverruns | libibmad/src/dump.c:653-663 | with the size of the buffer passed, that is when the size is even, at least 2 and at most two characters for each byte |
| Hex256.Parse256 | src/ibccconfig.c:174-224 | bad digits and more than 64 digits are refused without a store; otherwise the bytes of the digits are stored at the end of the buffer; the last character read is behind the terminator exactly for the arguments "", "0x" and "0X" |
| Hex256.ParseMask | src/ibccconfig.c:174-224 | a zeroed buffer gets the big-endian number of the digits, for odd and even counts |
| Hex256.DumpAndParse | libibmad/src/dump.c:653-663 | parsing undoes dumping on every 32-byte mask |

## Left out

- DrPathText.StrToDrPath: stops at the first store behind the array. A number beyond an int is read as it stands.
- CacheLoader.LoadFabric: the load stops before the grouping of nodes. In a damaged file, an out-of-range port number is a key of the ports map here, and a port with an LMC above 7 is not registered in the LID map.
- LoadedScan.ScanCacheLoad: asks for nodes of at most 254 ports, port numbers that the wire can carry.
- Chassis.Grouping.GroupNodes: leaves out the insertion of Mellanox lines and spines in pass 4.
- Discover.DiscoverFabric: replies are those of a static fabric and sends succeed; a fabric that changes during a scan is covered by the modules that hold for any replies.
- Fabric.HandleOk: a reply names a port that the node has room for, as `ReplyOk` says; the source writes behind the ports array otherwise.
- Termination.ScanEnds: ports cabled to themselves are excluded.
- PortIndexes.RunEntries: needs one GUID for all ports of a switch; ports whose GUID changes are the subject of `PortTable.PortHash.StoreGuid`.
- McReach.FindForwarded: a query that is lost makes a fabric change; a multicast search in such a fabric is covered by `McTree`, for any replies.
- McTree.McScan.FindMcPath: one object is one search, as one run of the tool makes one. SwitchInfo and the blocks of the forwarding table are one query here, which returns the set of ports.
- LID-routed starts, and the part of a start path before the home port.
- The payload of NodeDesc, SwitchInfo and extended PortInfo replies, the table of devices that support the latter (a flag of the node) and the test of link speeds (a flag of the port).
- umad calls, memory failure, options, logging and printing; a send succeeds or fails as a parameter says, and the seed of the transaction ids is a parameter.
- The heap form of nodes and ports in a scan: they are named by number and kept in a sequence and a map. Objects are used for the SMP queue, the port table and the multicast tree, where chains of pointers are the point.
- From the cache: `ext_info`, `from_portnum`, `path_portid` and `total_mads_used`, which the source does not store, and errors of reading and writing other than a short file. The unrolled `_marshall16`, `_marshall32` and `_marshall64` are one loop.
- Voltaire and Mellanox slot tables and the passes of `group_nodes` that use them; chassis of which there are more than 255.
- Disjointness of all fields of the layout table, which does not hold; fields of more than 64 bits and `mad_encode_field`, `mad_decode_field` and the array form, which copy bytes.
- `mad_rpc`, the SA queries, and the tools other than the functions named here.
- The text that `diff` and the multicast trace print; lines are events.
