# daqswitch, its controller helpers and tcp-static, modelled in Dafny

daqswitch is a DPDK software switch for the TCP traffic of a data-acquisition
system. The switch has three datapaths.

- **voq_swq.**
  - A default lcore decodes every received frame into a 32-byte flow key.
  - It forwards by an exact-match route table.
  - When it sees a "fragment request" it claims one of the 64 data-flow slots of the output port.
  - It asks the NICs for two mirrored flow-director filters whose ids carry that slot.
  - It sets the slot's bit in the `active_flows` mask of the TX lcore serving the port.
  - Data RX lcores move the filtered traffic into per-(port, slot) software rings.
  - Data TX lcores drain the rings whose bit is set.
- **oq_hwq.** A route lookup falls back to the input port. Runs of packets bound for the same port are grouped and go to per-port TX buffers.
- **voq_hwq.** The NIC flow director steers each destination to an RX queue owned by one TX queue.

Around the datapaths sit three more parts of the switch:

- a pipeline descriptor registry (`pipeline_params` with its bounded input and output tables);
- the lifecycle gate (initialized, configured, started) with its guarded per-port setters;
- the IPv4 flow log.

Two smaller parts of the repository are modelled too.

- **The controller helpers.** These are Python code for an OpenDaylight controller:
  - `of.py` covers bridge MAC and port tables, Dcm flow naming and leaf-spine name classifiers;
  - `ovsdb.py` covers datastore paths, node filtering, datapath ids and the `create_bridge` payload.
- **tcp-static.** A kernel congestion-control module that pins `snd_cwnd`.

## Modelling conventions

- **How the source becomes Dafny.**
  - Objects the source updates in place are classes whose methods are proved against specification functions: the datapath parameters, the pipeline descriptor, the ring table, the lcore workers, the switch, the TX buffers, the controller clients and the socket.
  - Pure decisions (flow-key decoding, lcore assignment, name parsing) are functions.
  - Every poll loop is modelled as a single pass, with "now" as a parameter.
- **DPDK as abstract state.**
  - The LPM is an exact-match map, because every rule the switch installs has depth 32.
  - Software rings are FIFO sequences.
  - Flow-director programming is an append-only log of requests.
  - A burst transmit takes a number of packets between 0 and the number offered, given by an environment schedule.
  - The outcome of each library call that can fail is a parameter. The flow-director add of the hit handlers is the exception: it is always taken to succeed (see "## Left out").
- **Integer widths and masks.**
  - Machine integers are `nat` subsets with their C width: `byte`, `u16`, `u32`.
  - The burst mask `(~0) >> (64 - n)` of the action handlers is a `bv64`.
  - The hit handlers' packet masks and the TX lcores' `active_flows` masks are sets of bit positions below 64.
  - Wrap-around and truncation are written out where the source relies on them: the 16-bit flow-director id counter, the `size_t` length test, the `int` shift and the `uint16_t` return of -1.
- **Packets.** Frames are `seq<byte>`. A byte read past the end of a frame reads as 0.
- **Strings.** Python strings are `seq<char>`. `str`, `int`, `in`, `replace`, `split` and `rsplit` are defined in module `Text`.

Each "## Findings" row below pairs a member that models the code as written with a corrected definition. The rest of the model is built on the corrected definitions. So the classes, the hit-handler and delivery functions, and Delivery.FilteredTrafficDelivered all describe the corrected switch:

- 64 rings per port;
- 64-bit shifts for `active_flows`;
- `q_in` scanned up to `nb_q_in`;
- a compared output count;
- the in-datagram length test;
- exact node matching and a parsed pod id in the controller helpers.

"## Model" rows of members built on a corrected definition begin with "corrected (see Findings)".

Three behaviours of the code are easy to misread. The model follows the code in each:

- **Transmit entry.** The TX-port entry the hit handler updates is the LAST matching entry of the last matching TX lcore, because the scan keeps overwriting its result. It is not the first.
- **Unmatched lcore id.** `get_lcore_params` returns the last table slot, not NULL, when no id matches.
- **`filter.port_src`.** The egress side of a trigger can stop after the ingress filter is installed. The handler's `filter.port_src` then holds the trigger's destination port, not its source port. The next packet's trigger test is made against that value.

## Model

| member | source | states |
|---|---|---|
| Masks.LowMaskBits | daqswitch/pipeline/pipeline_default.c:219 | the burst mask (~0) >> (64 - n) has bit j set exactly for the first n packets, 1 <= n <= 64 |
| VoqSwqDefs.SlotOfId | daqswitch/dp/voq_swq/dp_lcore_data_rx.c:125 | the slot read from a flow-director id (id & 0x3f) is always one of the 64 data-flow slots |
| VoqSwqDefs.SlotSurvivesCounter | daqswitch/dp/voq_swq/dp_lcore_default.c:349 | a soft id built as slot or-ed with the counter shifted by 6 (truncated to 16 bits) still yields its slot under the 0x3f mask, and the mask width matches the 64 slots |
| Lpm.Lookup | daqswitch/dp/oq_hwq/dp_oq_hwq.c:245-259 | a depth-32 lookup hits exactly when the address holds a rule, and then yields that rule's next hop |
| Lpm.AddAll | daqswitch/dp/voq_swq/dp_defaults.c:28-39 | a sequence of adds never loses a route already present |
| Lpm.AddAllSnoc | daqswitch/dp/voq_swq/dp_defaults.c:28-39 | the adds apply in order: one more add either stores (ip, hop) or, when the table is full and ip is new, changes nothing |
| Lpm.AddAllFits | daqswitch/dp/voq_swq/dp_defaults.c:28-39 | distinct fresh addresses that fit the capacity are all installed with their hops, and existing routes are unchanged |
| Lpm.AddAllSize | daqswitch/dp/voq_swq/dp_defaults.c:28-39 | each add grows the table by at most one route |
| Lpm.LpmTable.constructor | daqswitch/dp/oq_hwq/dp_oq_hwq.c:759-775 | a created table is empty with the given rule capacity |
| Lpm.LpmTable.Add | daqswitch/dp/oq_hwq/dp_oq_hwq.c:779-799 | a depth-32 add succeeds exactly when the address is present or there is room, stores the hop on success and leaves the table unchanged on failure |
| DefaultTables.DefaultRules | daqswitch/dp/voq_swq/dp_defaults.c:28-39 | twelve rules, the k-th mapping 20.1.(k+1).1 to the k-th listed port |
| DefaultTables.DefaultAddressesDistinct | daqswitch/dp/voq_swq/dp_defaults.c:28-39 | the twelve default addresses are pairwise distinct |
| DefaultTables.DefaultPortsPermutation | daqswitch/dp/voq_swq/dp_defaults.c:28-39 | the default output ports are a permutation of 0..11 |
| DefaultTables.InstallDefaultTables | daqswitch/dp/voq_swq/dp_defaults.c:23-44 | the install adds the twelve rules in source order and reports success whatever each add returned |
| DefaultTables.DefaultTableInstalled | daqswitch/dp/voq_swq/dp_defaults.c:23-44 | into an empty table with room for twelve rules, the result maps exactly the twelve default addresses, each to its port |
| DpInit.DataQueues | daqswitch/dp/voq_swq/dp_init.c:49 | the data queues of a port are those from the first data queue up to the per-port queue count |
| DpInit.InitDataRxPipeline | daqswitch/dp/voq_swq/dp_init.c:24-58 | the RX data pipeline gets one ring-less input per switch port, all on the given RX queue, and one ring-backed output per data queue of the output port; it stops (RTE_VERIFY) exactly when a ring is missing |
| DpInit.AddRxOutputs | daqswitch/dp/voq_swq/dp_init.c:49-57 | the output loop registers data queue dataMin + k of the port as output k, backed by ring (port, dataMin + k), and fails exactly when a ring is missing |
| DpInit.InitDataTxPipeline | daqswitch/dp/voq_swq/dp_init.c:62-81 | the TX data pipeline's k-th input reads ring (port, q) and its k-th output is TX queue q of the same port, for each data queue q; it stops exactly when a ring is missing |
| DpInit.DataPipelinesNeedRing63 | daqswitch/dp/voq_swq/dp_voq_swq.c:54 | with the rings created for slots 0..62 no port's data pipeline can be built; with one ring per slot 0..63 every port's can |
| Rings.Slot | daqswitch/dp/voq_swq/dp_lcore_data_rx.c:125 | the ring slot a data packet goes to is its flow-director id masked to one of the 64 slots |
| Rings.CreatedAsWritten | daqswitch/dp/voq_swq/dp_voq_swq.c:49-62 | init_rings as written creates an empty ring for every switch port and every slot 0..62, and no other |
| Rings.Created | daqswitch/dp/voq_swq/dp_voq_swq.c:49-62 | the corrected init_rings creates an empty ring for every switch port and every slot 0..63 |
| Rings.RunEnd | daqswitch/dp/voq_swq/dp_lcore_data_rx.c:126-133 | the inner scan stops at the first packet whose slot differs from the run's first packet, or at the end of the burst |
| Rings.Runs | daqswitch/dp/voq_swq/dp_lcore_data_rx.c:124-140 | the burst is cut into non-empty runs of one slot each, consecutive runs having different slots, the first starting with the burst's first packet |
| Rings.RunsCover | daqswitch/dp/voq_swq/dp_lcore_data_rx.c:124-140 | the runs, concatenated, are exactly the received burst: no packet is lost, duplicated or reordered |
| Rings.Append | daqswitch/dp/voq_swq/dp_lcore_data_rx.c:30-49 | an enqueue with back-pressure appends the whole run to its ring and fails only when the ring does not exist |
| Rings.DeliverSpec | daqswitch/dp/voq_swq/dp_lcore_data_rx.c:121-140 | delivering a burst succeeds exactly when every packet's ring exists; each ring of the output port then gains, in order, exactly the burst's packets of its slot, and other ports' rings are unchanged |
| Rings.DeliverDefined | daqswitch/dp/voq_swq/dp_lcore_data_rx.c:121-140 | delivery succeeds exactly when every packet's ring (output port, slot) exists |
| Rings.DeliverContents | daqswitch/dp/voq_swq/dp_lcore_data_rx.c:121-140 | after a successful delivery every ring of the output port holds its old contents followed by the burst's packets of its slot; no other ring changes |
| Rings.DeliverRun | daqswitch/dp/voq_swq/dp_lcore_data_rx.c:136-138 | delivering one more run of a single slot appends it to that slot's ring |
| Rings.AppendTwice | daqswitch/dp/voq_swq/dp_lcore_data_rx.c:42-46 | two appends to one ring are one append of the concatenation, so the partial enqueues of the back-pressure loop add up to the whole run |
| Pipeline.KindOf | daqswitch/pipeline/pipeline.c:251-253 | a pipeline type is accepted exactly when it is below PIPELINE_TYPE_MAX |
| Pipeline.FindIn | daqswitch/pipeline/pipeline.c:76-90 | the search yields the first registered input with that (port, queue), or reports that none has it |
| Pipeline.FindOut | daqswitch/pipeline/pipeline.c:59-73 | the search yields the first registered output with that (port, queue), or reports that none has it |
| Pipeline.FindRte | daqswitch/pipeline/pipeline.c:41-56 | get_q_in_index yields the first input whose library port id is the given one, or reports that none has it |
| Pipeline.FirstIdle | daqswitch/pipeline/pipeline.c:93-110 | the search yields the first input of the given port that is not enabled, or reports that every input of the port is enabled |
| Pipeline.AcceptInKeepsRules | daqswitch/pipeline/pipeline.c:325-363 | an input the registration checks accept keeps the pipeline's input rules (rings only on TX data, one queue on RX data, one port on TX data) |
| Pipeline.AcceptOutKeepsRules | daqswitch/pipeline/pipeline.c:285-322 | an output the registration checks accept keeps the pipeline's output rules (rings only on RX data, one port on RX and TX data) |
| Pipeline.EnableIn | daqswitch/pipeline/pipeline.c:218-244 | enabling an input fails exactly when no registered input has that (port, queue); otherwise only that input's enabled flag is set |
| Pipeline.EnableInIdempotent | daqswitch/pipeline/pipeline.c:218-244 | enabling the same input twice is enabling it once |
| Pipeline.EnableInAsWrittenMissesInput | daqswitch/pipeline/pipeline.c:82-83 | with two inputs and one output, the search bounded by nb_q_out misses the second input, which the intended search finds and enables |
| Pipeline.EnableInNumbered | daqswitch/pipeline/pipeline.c:82-83 | when the bound used equals the number of inputs, the search as written agrees with the intended one |
| Pipeline.Pipeline.constructor | daqswitch/pipeline/pipeline.h:147-211 | a fresh descriptor has no type, no queues, no rules and no pending requests |
| Pipeline.Pipeline.Init | daqswitch/pipeline/pipeline.c:246-282 | pipeline_init succeeds exactly for a known type, then records the type and lcore and clears both queue counts; otherwise nothing changes |
| Pipeline.Pipeline.InitPortIn | daqswitch/pipeline/pipeline.c:325-363 | registering an input succeeds exactly when the checks accept it, then appends (port, queue, ring) as a disabled input; otherwise nothing changes |
| Pipeline.Pipeline.InitPortOut | daqswitch/pipeline/pipeline.c:285-322 | registering an output succeeds exactly when the checks accept it, then appends (port, queue, ring); otherwise nothing changes |
| Pipeline.Pipeline.InternalPortOutId | daqswitch/pipeline/pipeline.c:59-73 | the library id of the first output with that (port, queue), or an error when there is none |
| Pipeline.Pipeline.InternalPortInId | daqswitch/pipeline/pipeline.c:76-90 | corrected (see Findings): the library id of the first input with that (port, queue), or an error when there is none |
| Pipeline.Pipeline.QInIndex | daqswitch/pipeline/pipeline.c:41-56 | the index of the first input with the given library id, or an error |
| Pipeline.Pipeline.EnablePortIn | daqswitch/pipeline/pipeline.c:218-244 | corrected (see Findings): enabling succeeds exactly when the input exists and then sets only its enabled flag; nothing else changes |
| Pipeline.Pipeline.NextAvailableInQueue | daqswitch/pipeline/pipeline.c:93-110 | the queue of the first idle input of the port, or an error when all are enabled |
| Pipeline.Pipeline.AddIpv4Rule | daqswitch/pipeline/pipeline.c:117-157 | a rule is added exactly on a default pipeline with that output registered and room in the table; it then routes ip to that output's library id, otherwise the table is unchanged |
| Pipeline.Pipeline.HandleMsg | daqswitch/pipeline/pipeline_msg.c:17-42 | corrected (see Findings): with no pending request nothing changes; otherwise the first request is consumed and its input enabled when it exists |
| PipelineData.NumberIn | daqswitch/pipeline/pipeline_rx_data.c:104-121 | creating the first n input ports numbers them 0..n-1 in order, marks them enabled exactly when the pipeline enables its inputs, and keeps their port, queue and ring |
| PipelineData.NumberOut | daqswitch/pipeline/pipeline_rx_data.c:159-178 | creating the first n output ports gives output i the pipeline port id i and changes nothing else about any queue |
| PipelineData.CreateInputs | daqswitch/pipeline/pipeline_rx_data.c:104-121 | the input-port loop leaves the inputs numbered as NumberIn says and every other field of the pipeline as it was |
| PipelineData.CreateOutputs | daqswitch/pipeline/pipeline_rx_data.c:159-178 | the output-port loop leaves the outputs numbered as NumberOut says and every other field as it was |
| PipelineData.ConfigureDefault | daqswitch/pipeline/pipeline_default.c:342-470 | configuring succeeds exactly for a default-kind pipeline; it builds the pipeline with all inputs and outputs created and no input enabled, and a refused call changes nothing |
| PipelineData.DefaultEnablesNone | daqswitch/pipeline/pipeline_default.c:452-457 | the default pipeline connects its inputs to the table without enabling any of them |
| PipelineData.Registry.constructor | daqswitch/pipeline/pipeline_rx_data.c:25-26 | the registry of receive data pipelines starts empty |
| PipelineData.Registry.FindDataPipeline | daqswitch/pipeline/pipeline_rx_data.c:29-40 | the lookup returns the first registered pipeline whose first output is on the port, and nothing exactly when none is |
| PipelineData.FirstOnPort | daqswitch/pipeline/pipeline_rx_data.c:33-36 | the index found is the first whose first output queue is on the port; no index means no pipeline is on it |
| PipelineData.FirstOnPortPrefix | daqswitch/pipeline/pipeline_rx_data.c:33-36 | when no earlier pipeline is on the port and pipeline i is, the scan stops at i |
| PipelineData.ConfigureRxData | daqswitch/pipeline/pipeline_rx_data.c:76-213 | configuring succeeds exactly for a receive data pipeline whose outputs all have rings; it numbers inputs and outputs, enables every input and appends the pipeline to the registry; a refused call changes neither |
| PipelineData.RxDataEnablesAll | daqswitch/pipeline/pipeline_rx_data.c:196-199 | after configuration every input of a receive data pipeline is enabled |
| PipelineData.OutputOfFdirId | daqswitch/pipeline/pipeline_rx_data.c:51 | the output a flow-director id selects is its low four bits, at most 15 |
| PipelineData.OutputOfSmallId | daqswitch/pipeline/pipeline_rx_data.c:51 | an id of 15 or less selects the output of the same number |
| PipelineData.RxDataActionHandler | daqswitch/pipeline/pipeline_rx_data.c:56-71 | the action handler gives each packet of the burst the output its id selects, and marks exactly the burst's packets in the mask |
| PipelineData.FillOutputs | daqswitch/pipeline/pipeline_rx_data.c:44-52 | the metadata fill writes, for every packet, the output its flow-director id selects |
| PipelineData.TxOutCount | daqswitch/pipeline/pipeline_tx_data.c:79 | the corrected consistency check accepts a transmit pipeline only when it has as many outputs as inputs, and then keeps that count |
| PipelineData.TxOutCountAsWrittenDiffers | daqswitch/pipeline/pipeline_tx_data.c:79 | the check as written assigns instead of comparing: it accepts 2 inputs with 1 output and refuses 0 inputs with 0 outputs, where the comparison does the opposite |
| PipelineData.ConfigureTxData | daqswitch/pipeline/pipeline_tx_data.c:26-177 | corrected (see Findings): configuring succeeds exactly for a transmit data pipeline whose inputs all have rings and whose counts agree; input i is then linked from its ring to output i's port and queue, every input is enabled, and a refused call changes nothing |
| PipelineData.TxLinksOnePort | daqswitch/pipeline/pipeline_tx_data.c:147-151 | in a well-formed transmit pipeline every link writes to the port of the first output, reading its own input ring |
| PipelineData.AddDataFlow | daqswitch/pipeline/pipeline.c:161-215 | corrected (see Findings): adding a data flow needs a receive pipeline and a transmit pipeline; it enables the receive input, then the transmit input, and installs a filter on the receive port whose id is the internal id of the receive output leading to the transmit queue; it succeeds exactly when both inputs exist, that output exists and the NIC accepts; a wrong pair of kinds changes nothing |
| PipelineDefault.FindBound | daqswitch/pipeline/pipeline_default.c:80-84 | the search returns the first output already bound to the destination address and event, and nothing exactly when no output among the first n is |
| PipelineDefault.FindUnbound | daqswitch/pipeline/pipeline_default.c:89-94 | the search returns the first output with no destination bound, and nothing exactly when every output is bound |
| PipelineDefault.Bind | daqswitch/pipeline/pipeline_default.c:74-100 | a bound output is reused unchanged; otherwise the first free output is bound to the address and event and nothing else changes; the call fails exactly when neither exists |
| PipelineDefault.BindIdempotent | daqswitch/pipeline/pipeline_default.c:74-100 | binding the same address and event a second time returns the same output and leaves the queues as the first binding did |
| PipelineDefault.BindKeepsKeysDistinct | daqswitch/pipeline/pipeline_default.c:74-100 | binding never makes two outputs carry the same address and event |
| PipelineDefault.GetNextDataQueueInternalId | daqswitch/pipeline/pipeline_default.c:74-100 | the lookup returns the pipeline port id of the output Bind selects and stores its binding; on failure the outputs are unchanged; nothing else about the pipeline changes |
| PipelineDefault.MirrorIdBits | daqswitch/pipeline/pipeline_default.c:312 | the id of the reverse filter is the id ORed with itself shifted left by four bits |
| PipelineDefault.MirrorIdKeepsOutput | daqswitch/pipeline/pipeline_default.c:307-312 | the reverse filter's id selects the same output as the forward filter's id |
| PipelineDefault.MirrorIdInjective | daqswitch/pipeline/pipeline_default.c:307-312 | two ids below 256 with the same reverse id are equal, so reverse filters stay unique on a NIC |
| PipelineDefault.ViewOf | daqswitch/pipeline/pipeline_rx_data.c:29-40 | the view of the registered pipelines records, per pipeline, its outputs, its number of outputs and its first input queue |
| PipelineDefault.HitStepDefaultSpec | daqswitch/pipeline/pipeline_default.c:253-330 | a packet that is not a new fragment request from another port installs nothing; one that is installs exactly two filters, remembers its source port, and changes only the receive pipeline's bound output |
| PipelineDefault.BindSelectsBoundOutput | daqswitch/pipeline/pipeline_default.c:280-312 | the id a binding returns selects, through the receive mask, the very output that was bound to the flow |
| PipelineDefault.HitStepDefaultSelects | daqswitch/pipeline/pipeline_default.c:253-287 | the forward filter a packet installs steers the flow to the output of its receive pipeline bound to the packet's source address and event |
| PipelineDefault.PairedAppend | daqswitch/pipeline/pipeline_default.c:280-320 | two lists of forward and reverse filter pairs joined are still such a list |
| PipelineDefault.HitAllDefaultPaired | daqswitch/pipeline/pipeline_default.c:239-333 | the filters a burst installs come in forward and reverse pairs |
| PipelineDefault.ViewAfterBind | daqswitch/pipeline/pipeline_default.c:256-262 | binding an output of one registered pipeline changes the view only in that pipeline's outputs |
| PipelineDefault.BindIn | daqswitch/pipeline/pipeline_default.c:256-262 | binding through the registry does to the view what Bind does to that pipeline's outputs |
| PipelineDefault.HandleHit | daqswitch/pipeline/pipeline_default.c:247-330 | handling one packet of a table hit leaves the pipelines, filters and remembered port exactly as the per-packet step says, and fails exactly when that step does; every descriptor keeps its kind, lcore, inputs, counts, rules, pending requests and built flag, and only output bindings change |
| PipelineDefault.HandleOn | daqswitch/pipeline/pipeline_default.c:256-330 | handling a packet on a found receive pipeline matches the step for that pipeline; every descriptor keeps its kind, lcore, inputs, counts, rules, pending requests and built flag, and only output bindings change |
| PipelineDefault.InstallPair | daqswitch/pipeline/pipeline_default.c:270-320 | installing the forward and reverse filters matches the install step, which fails exactly when the table entry's port has no receive data pipeline |
| PipelineDefault.HitAllDefaultSnoc | daqswitch/pipeline/pipeline_default.c:239-333 | handling one more packet continues from the state the earlier packets left |
| PipelineDefault.HitAllDefaultStopped | daqswitch/pipeline/pipeline_default.c:239-333 | once a packet of the burst makes handling fail, the whole burst fails |
| PipelineDefault.TableActionHandlerHit | daqswitch/pipeline/pipeline_default.c:226-336 | the hit handler walks the packets the mask selects in order, leaves the pipelines as the sequence of steps says and installs filters in forward and reverse pairs; every descriptor keeps its kind, lcore, inputs, counts, rules, pending requests and built flag, and only output bindings change |
| PipelineDefault.Visit | daqswitch/pipeline/pipeline_default.c:239-247 | one visit of the walk: a packet outside the mask leaves the handler's state alone, a handled packet extends the step sequence by its own step, and a failed packet means the whole burst's step sequence fails; every descriptor keeps its kind, lcore, inputs, counts, rules, pending requests and built flag, and only output bindings change |
| PipelineDefault.RxActionHandler | daqswitch/pipeline/pipeline_default.c:162-222 | corrected (see Findings): the receive handler decodes each frame of the burst into its flow key (the full key, or only slab1 with data flows compiled out) and marks exactly the burst's packets in the mask |
| PipelineDefault.FillKeys | daqswitch/pipeline/pipeline_default.c:170-196 | corrected (see Findings): every packet's metadata gets the key decoded from its own frame |
| Daqswitch.FdirForwarding | daqswitch/daqswitch/daqswitch_port.h:111-127 | enabling flow-director forwarding sets perfect-match mode with status reporting, stores the masks and marks the port enabled, and leaves every other field of the port configuration as it was |
| Daqswitch.Sized | daqswitch/dp/voq_swq/dp_voq_swq.c:328-402 | the sizing a datapath's init applies gives the port its queue and descriptor counts, keeps its pool, and turns flow-director forwarding on with the datapath's masks only when the datapath asks for it |
| Daqswitch.TxSetups | daqswitch/daqswitch/daqswitch_port.c:114-121 | a port's transmit setup calls are one per queue 0..nb_txq-1, each with nb_txd descriptors |
| Daqswitch.RxSetups | daqswitch/daqswitch/daqswitch_port.c:124-132 | a port's receive setup calls are one per queue 0..nb_rxq-1, each with nb_rxd descriptors and the port's pool |
| Daqswitch.TryAllSpec | daqswitch/daqswitch/daqswitch_port.c:114-132 | running setup calls in order succeeds exactly when none fails; the calls made are a prefix of the list, all of it on success |
| Daqswitch.TryAllAppend | daqswitch/daqswitch/daqswitch_port.c:114-132 | running the transmit then the receive calls is running the first list and, only when it succeeded, the second |
| Daqswitch.TryAllFirstFailure | daqswitch/daqswitch/daqswitch_port.c:120 | the calls stop right after the first one that fails |
| Daqswitch.ConfigureOutcome | daqswitch/daqswitch/daqswitch_port.c:73-140 | configuring a port creates its pool when it has none; a port with no pool or a refused device configuration fails before any queue is set up |
| Daqswitch.ConfigureOutcomeSpec | daqswitch/daqswitch/daqswitch_port.c:73-140 | configuring a port succeeds exactly when it has or gets a pool, the device accepts the configuration and every transmit and receive queue setup succeeds; the setups made are a prefix of transmit then receive calls |
| Daqswitch.StartOutcome | daqswitch/daqswitch/daqswitch_port.c:143-186 | starting a port succeeds exactly when the device starts, the masks load where flow director is enabled and flow control is accepted; the masks are loaded exactly when the device started and flow director is enabled |
| Daqswitch.ConfigurePorts | daqswitch/daqswitch/daqswitch.c:173-176 | configuring ports 0..k-1 leaves the later ports' configurations alone and, on success, gives every configured port a pool |
| Daqswitch.ConfigurePortsStep | daqswitch/daqswitch/daqswitch.c:173-176 | after ports 0..k-1 succeeded, port k is configured from its own untouched configuration |
| Daqswitch.ConfigurePortsStopped | daqswitch/daqswitch/daqswitch.c:175 | the first port that fails to configure ends the loop: no later port is touched |
| Daqswitch.StartPortsOk | daqswitch/daqswitch/daqswitch.c:205-208 | starting ports 0..k-1 succeeds exactly when every one of them starts |
| Daqswitch.StartPortsStopped | daqswitch/daqswitch/daqswitch.c:207 | the first port that fails to start ends the loop |
| Daqswitch.StartPortsLoadsEnabled | daqswitch/daqswitch/daqswitch_port.c:158-167 | every mask load belongs to a started port with flow director enabled and carries that port's masks |
| Daqswitch.Ports.constructor | daqswitch/daqswitch/daqswitch_port.c:21 | the port table starts zeroed, with no queue set up and no masks loaded |
| Daqswitch.Ports.SetNbRxq | daqswitch/daqswitch/daqswitch_port.h:51-64 | the setter succeeds exactly while the switch is not initialized and then changes only that port's receive queue count |
| Daqswitch.Ports.SetNbTxq | daqswitch/daqswitch/daqswitch_port.h:66-79 | the setter succeeds exactly while the switch is not initialized and then changes only that port's transmit queue count |
| Daqswitch.Ports.SetNbRxd | daqswitch/daqswitch/daqswitch_port.h:81-94 | the setter succeeds exactly while the switch is not initialized and then changes only that port's receive descriptor count |
| Daqswitch.Ports.SetNbTxd | daqswitch/daqswitch/daqswitch_port.h:96-109 | the setter succeeds exactly while the switch is not initialized and then changes only that port's transmit descriptor count |
| Daqswitch.Ports.SetFdirForwarding | daqswitch/daqswitch/daqswitch_port.h:111-133 | the setter succeeds exactly while the switch is not initialized, then applies FdirForwarding to that port only, after which the port reports flow director enabled |
| Daqswitch.Ports.PortInit | daqswitch/daqswitch/daqswitch_port.c:59-70 | initializing a port resets its configuration to the default (one queue each way, 512 descriptors, no flow director) and touches no other port |
| Daqswitch.Ports.PortConfigure | daqswitch/daqswitch/daqswitch_port.c:73-140 | configuring a port records the outcome ConfigureOutcome gives, appends exactly its setup calls and changes no other port |
| Daqswitch.Ports.SetupQueues | daqswitch/daqswitch/daqswitch_port.c:111-132 | the two setup loops append the calls TryAll makes on the transmit then receive list and report whether all succeeded |
| Daqswitch.Ports.RunSetups | daqswitch/daqswitch/daqswitch_port.c:114-121 | a setup loop appends the calls made up to and including the first failure and reports whether there was none |
| Daqswitch.Ports.PortStart | daqswitch/daqswitch/daqswitch_port.c:143-186 | starting a port appends exactly the mask loads StartOutcome gives and reports its verdict, changing no configuration |
| Daqswitch.Switch.constructor | daqswitch/daqswitch/daqswitch.c:21-28 | the switch starts neither initialized, configured nor started, with no port, no datapath hooks and no flow |
| Daqswitch.Switch.Init | daqswitch/daqswitch/daqswitch.c:95-147 | a second init fails and changes nothing; otherwise the port count is the device count capped at the maximum, every present port gets the default then the datapath's sizing, and the switch is initialized exactly when the datapath init succeeds |
| Daqswitch.Switch.ResetPorts | daqswitch/daqswitch/daqswitch.c:114-117 | every present port gets the default configuration; the others keep theirs |
| Daqswitch.Switch.ApplySizing | daqswitch/dp/voq_swq/dp_voq_swq.c:328-402 | every present port gets the datapath's sizing; the others keep theirs |
| Daqswitch.Switch.Configure | daqswitch/daqswitch/daqswitch.c:153-186 | configuring an already configured or uninitialized switch fails and changes nothing; otherwise every port is configured in order, stopping at the first failure, and the switch is configured exactly on success |
| Daqswitch.Switch.ConfigureAllPorts | daqswitch/daqswitch/daqswitch.c:173-176 | the port loop leaves the ports as ConfigurePorts says |
| Daqswitch.Switch.Start | daqswitch/daqswitch/daqswitch.c:189-233 | starting an already started or unconfigured switch fails and changes nothing; otherwise every port is started in order, stopping at the first failure, and on success the switch is started and the default routes are installed |
| Daqswitch.Switch.StartConfigured | daqswitch/daqswitch/daqswitch.c:205-220 | on a configured switch, start loads the masks StartPorts gives and installs the default routes exactly when every port started |
| Daqswitch.Switch.InstallDefaults | daqswitch/daqswitch/daqswitch.c:220 | installing the default tables adds the default routes to the routing table |
| Daqswitch.Switch.StartAllPorts | daqswitch/daqswitch/daqswitch.c:205-208 | the port loop appends the mask loads StartPorts gives and reports its verdict |
| Daqswitch.Switch.SetFlowHook | daqswitch/daqswitch/daqswitch.h:107-111 | registering the datapath's flow hook records it and changes nothing else |
| Daqswitch.Switch.FlowAdd | daqswitch/daqswitch/daqswitch_flow.c:67-98 | adding a flow to a switch that is not started returns -1 and records nothing; on a started switch the flow is appended to the flow array and the result is the hook's where one is registered, 0 otherwise |
| Daqswitch.Switch.DpFlowAdd | daqswitch/daqswitch/daqswitch_flow.c:26-34 | the datapath is asked only when the switch is started and a hook is registered; otherwise the result is 0 |
| DataLcores.Taken | daqswitch/dp/voq_swq/dp_lcore_data_rx.c:43 | a library burst call takes at most the packets offered, and all of them once the environment's schedule of capacities has run out |
| DataLcores.RingTable.constructor | daqswitch/dp/voq_swq/dp_voq_swq.c:43-66 | the ring table starts with no ring and nothing freed |
| DataLcores.RingTable.InitRings | daqswitch/dp/voq_swq/dp_voq_swq.c:43-66 | corrected (see Findings): after ring initialization there is exactly one empty ring per switch port and data-flow slot |
| DataLcores.RingTable.EnqueueBurst | daqswitch/dp/voq_swq/dp_lcore_data_rx.c:43 | a ring burst enqueue appends the packets the ring takes, in order, to that ring only |
| DataLcores.RingTable.EnqueueDataPkt | daqswitch/dp/voq_swq/dp_lcore_data_rx.c:30-49 | with back-pressure every packet ends up on the ring, in order, and nothing is freed; in the lossy build the ring gets the packets it took and exactly the rest are freed |
| DataLcores.RingTable.DequeueBurst | daqswitch/dp/voq_swq/dp_lcore_data_tx.c:79-81 | a ring burst dequeue takes up to the burst size from the front of the ring and leaves the rest |
| DataLcores.RingTable.EnqueueRuns | daqswitch/dp/voq_swq/dp_lcore_data_rx.c:122-139 | enqueueing a burst by runs leaves the rings as Deliver says (each packet appended, in order, to the ring of its output port and slot), and fails exactly when a run's ring was never created |
| DataLcores.CreatedUnique | daqswitch/dp/voq_swq/dp_voq_swq.c:43-66 | corrected (see Findings): any ring map with exactly the ports-by-slots keys, all empty, is the one ring initialization builds |
| DataLcores.SentAll | daqswitch/dp/voq_swq/dp_lcore_data_tx.c:91-92 | the transmit log of a list of packets records each on the given port and queue, in order |
| DataLcores.Wire.constructor | daqswitch/dp/voq_swq/dp_lcore_data_tx.c:91-92 | the NIC log starts empty |
| DataLcores.Wire.TxBurst | daqswitch/dp/voq_swq/dp_lcore_data_tx.c:91-94 | one NIC burst sends the first packets the NIC takes, in order, and counts one burst on that queue |
| DataLcores.Wire.TransmitAll | daqswitch/dp/voq_swq/dp_lcore_data_tx.c:89-108 | the transmit loop sends every packet, in order, on the flow's port and queue, drops none, and every burst it makes is on that queue |
| DataLcores.Wire.SendFrom | daqswitch/dp/voq_swq/dp_lcore_data_tx.c:91-98 | one retry sends the next packets the NIC takes and extends the sent prefix by exactly them |
| DataLcores.RxDue | daqswitch/dp/voq_swq/dp_lcore_data_rx.c:100-104 | a queue is polled in this pass exactly when its poll interval has elapsed since its stamp |
| DataLcores.RxStamps | daqswitch/dp/voq_swq/dp_lcore_data_rx.c:117-119 | a queue's stamp is refreshed only after a polled burst that was non-empty and shorter than the maximum; the others keep theirs |
| DataLcores.RxRingsStopped | daqswitch/dp/voq_swq/dp_lcore_data_rx.c:95-142 | once one queue's burst hits a missing ring, the whole pass fails |
| DataLcores.RxPrefixStep | daqswitch/dp/voq_swq/dp_lcore_data_rx.c:95-142 | the rings, stamps and statistics after queues 0..i follow from those after 0..i-1 and queue i's burst |
| DataLcores.RxWorker.constructor | daqswitch/dp/voq_swq/dp_lcore_data_rx.c:83-88 | the receive worker starts at port index 0 with the given stamps and no statistics |
| DataLcores.RxWorker.Pass | daqswitch/dp/voq_swq/dp_lcore_data_rx.c:62-148 | with no port the loop does nothing; otherwise one pass polls port index mod nb_ports, leaves the rings, stamps and per-queue statistics as the pass functions say, succeeds exactly when no run hits a missing ring, and moves to the next port |
| DataLcores.RxWorker.PollQueues | daqswitch/dp/voq_swq/dp_lcore_data_rx.c:95-142 | the queue loop over one port leaves rings, stamps and statistics as the pass functions over all its queues say |
| DataLcores.RxWorker.PollQueue | daqswitch/dp/voq_swq/dp_lcore_data_rx.c:97-141 | a queue that is not due is skipped; a due queue's burst is counted, its stamp refreshed after a short burst, and delivered by runs |
| DataLcores.TxQueueOf | daqswitch/dp/voq_swq/dp_lcore_data_tx.c:85 | request flows leave on the request queue and all other flows on the data queue |
| DataLcores.TxFlows | daqswitch/dp/voq_swq/dp_lcore_data_tx.c:65-118 | corrected (see Findings): draining flows 0..k-1 of a port keeps one stamp per flow |
| DataLcores.TxFlowsStopped | daqswitch/dp/voq_swq/dp_lcore_data_tx.c:65-118 | corrected (see Findings): once a flow's ring is missing, the whole drain fails |
| DataLcores.TxWorker.constructor | daqswitch/dp/voq_swq/dp_lcore_data_tx.c:54-58 | the transmit worker starts at port index 0 with the given stamps and no statistics |
| DataLcores.TxWorker.Pass | daqswitch/dp/voq_swq/dp_lcore_data_tx.c:35-123 | corrected (see Findings): with no port the loop does nothing; otherwise one pass drains the active, due flows of port index mod nb_ports as TxFlows says, succeeds exactly when no drained ring is missing, and moves to the next port |
| DataLcores.TxWorker.DrainFlows | daqswitch/dp/voq_swq/dp_lcore_data_tx.c:65-118 | corrected (see Findings): the flow loop over one port leaves rings, NIC log and stamps as TxFlows over all 64 flows says |
| DataLcores.TxWorker.DrainFlow | daqswitch/dp/voq_swq/dp_lcore_data_tx.c:67-117 | corrected (see Findings): an inactive flow is skipped; a request flow or a flow whose drain interval elapsed is dequeued, sent whole on its queue and restamped |
| DefaultLcore.CountOn | daqswitch/dp/voq_swq/dp_lcore_default.c:219-220 | the count of a burst's packets on a port is zero exactly when no packet arrived on it |
| DefaultLcore.CountOnTotal | daqswitch/dp/voq_swq/dp_lcore_default.c:215-222 | the per-port counts of a burst add up to its size, so every packet is counted exactly once |
| DefaultLcore.RxActionHandler | daqswitch/dp/voq_swq/dp_lcore_default.c:208-227 | corrected (see Findings): the receive handler gives every packet the key decoded from its own frame, adds each packet once to its port's packet and burst counters of the default queue, and marks exactly the n received packets |
| DefaultLcore.DecodeAll | daqswitch/dp/voq_swq/dp_lcore_default.c:215-217 | corrected (see Findings): every packet's metadata gets the key decoded from its own frame, in order |
| DefaultLcore.CountBurst | daqswitch/dp/voq_swq/dp_lcore_default.c:219-220 | each counter grows by the number of the burst's packets on its port |
| DefaultLcore.CountOnPrefix | daqswitch/dp/voq_swq/dp_lcore_default.c:215-222 | counting one more packet adds one on its port and nothing elsewhere |
| DefaultLcore.Bump | daqswitch/dp/voq_swq/dp_lcore_default.c:219 | a counter increment raises one port's counter by one and keeps the others |
| DefaultLcore.AddIpv4Rule | daqswitch/dp/voq_swq/dp_lcore_default.c:473-508 | adding a depth-32 route succeeds exactly when the table has room for it (or already holds the address); then the address routes to the given output port, and otherwise the table is unchanged |
| Delivery.RxQueueOfFilter | daqswitch/dp/voq_swq/dp_voq_swq.c:138-171 | when every port is bound to a receive lcore, the receive queue a filter names is polled by some receive lcore on the filter's NIC and feeds the port the queue number names |
| Delivery.FilteredTrafficDelivered | daqswitch/dp/voq_swq/dp_lcore_default.c:351-356 | corrected (see Findings): in every state the flow handler keeps routed, a packet a logged filter caught reaches a receive lcore that polls its queue, is enqueued on the existing ring of its output port and slot, and that ring is polled by a transmit lcore |
| Delivery.RoutedFilter | daqswitch/dp/voq_swq/dp_lcore_default.c:349-356 | corrected (see Findings): every logged filter steers to a data receive queue of some port whose ring for the filter's slot is polled |
| Delivery.DeliverOne | daqswitch/dp/voq_swq/dp_lcore_data_rx.c:124-138 | corrected (see Findings): a packet for a port below nb_ports is appended to the ring of that port and its slot, once all rings exist |
| Delivery.DeliverTotal | daqswitch/dp/voq_swq/dp_lcore_data_rx.c:124-139 | corrected (see Findings): when every ring exists, enqueueing a burst for a present port never meets a missing ring and creates no ring |
| Delivery.RxPassTotal | daqswitch/dp/voq_swq/dp_lcore_data_rx.c:95-142 | corrected (see Findings): when every ring exists, a receive pass over queues feeding present ports never fails, whatever arrives and whichever queues are due |
| Delivery.TxPassTotal | daqswitch/dp/voq_swq/dp_lcore_data_tx.c:65-118 | corrected (see Findings): when every ring exists, a transmit pass over a present port never fails, whichever flow bits are set |
| Delivery.Slot63AsWritten | daqswitch/dp/voq_swq/dp_voq_swq.c:54 | once slots 0..62 of a port are active the handler claims slot 63; with the rings as written a packet steered to slot 63 finds no ring, and with 64 rings per port it is enqueued |
| Delivery.MissingRing | daqswitch/dp/voq_swq/dp_lcore_data_rx.c:126 | a packet whose ring was never created makes delivery fail |
| FlowDetect.LastTxEntry | daqswitch/dp/voq_swq/dp_lcore_default.c:285-289 | the entry found is the last of the lcore's transmit entries for the port; none means the lcore lists no such entry |
| FlowDetect.TxConfOf | daqswitch/dp/voq_swq/dp_lcore_default.c:280-291 | the transmit entry the handler updates is the last entry for the port in the last transmit lcore serving it; none exactly when no transmit lcore serves the port |
| FlowDetect.LastTxEntrySameLayout | daqswitch/dp/voq_swq/dp_lcore_default.c:285-289 | the entry picked depends only on the ports of the entries, not on their flow bits |
| FlowDetect.TxConfSameLayout | daqswitch/dp/voq_swq/dp_lcore_default.c:280-291 | setting flow bits never moves the entry the handler picks for a port |
| FlowDetect.TxConfSameEntries | daqswitch/dp/voq_swq/dp_lcore_default.c:280-291 | two lcore tables with the same types and the same last entries pick the same entry |
| FlowDetect.FindFlow | daqswitch/dp/voq_swq/dp_lcore_default.c:293-302 | the slot found is the lowest active slot for the address and sink; none means no active slot holds them |
| FlowDetect.FreeSlot | daqswitch/dp/voq_swq/dp_lcore_default.c:312-328 | the slot found is the lowest inactive one; none means all 64 are active |
| FlowDetect.ClaimSlot | daqswitch/dp/voq_swq/dp_lcore_default.c:280-340 | corrected (see Findings): the search is fatal exactly when no transmit lcore serves the port; it finds no slot exactly when all are active for other flows; an existing flow is reused with nothing changed; otherwise the lowest inactive slot is written and the active_flows mask of the transmit entry serving the port gains exactly that slot, every other entry and mask staying as it was; the flow-director counters and filter log are unchanged |
| FlowDetect.ActivateFlows | daqswitch/dp/voq_swq/dp_lcore_default.c:315-319 | corrected (see Findings): activating a slot writes that slot of that port and no other, and leaves the filter state alone |
| FlowDetect.ActivateKeepsPolling | daqswitch/dp/voq_swq/dp_lcore_default.c:323 | activating slot k adds k, and only k, to the active_flows mask of the serving transmit entry, leaving every other entry and mask as it was; so it keeps the entry lookup, keeps every polled ring polled and makes the new one polled |
| FlowDetect.Inc16 | daqswitch/dp/voq_swq/dp_lcore_default.c:348 | the per-NIC filter counter is a 16-bit counter that wraps from 0xffff to 0 |
| FlowDetect.Install | daqswitch/dp/voq_swq/dp_lcore_default.c:348-356 | installing a filter bumps that NIC's counter, appends one filter with the given match and queue whose id carries the slot in its low six bits, and changes nothing else |
| FlowDetect.Side | daqswitch/dp/voq_swq/dp_lcore_default.c:280-356 | corrected (see Findings): one direction fails or finds no slot exactly when the slot search does; otherwise it holds the flow in the claimed slot and appends exactly one filter for that slot |
| FlowDetect.HitStep | daqswitch/dp/voq_swq/dp_lcore_default.c:244-461 | corrected (see Findings): handling one packet keeps the state well formed whenever it does not stop the switch |
| FlowDetect.HitAll | daqswitch/dp/voq_swq/dp_lcore_default.c:244-461 | corrected (see Findings): handling a burst keeps the state well formed whenever it does not stop the switch |
| FlowDetect.Selected | daqswitch/dp/voq_swq/dp_lcore_default.c:244-250 | the packets visited are packets of the burst, at most all of them |
| FlowDetect.HitStepSpec | daqswitch/dp/voq_swq/dp_lcore_default.c:268-461 | corrected (see Findings): a packet that is not a new fragment request changes nothing; a handled one only appends filters, at most two: first the forward filter on the table entry's NIC steering to the arrival port's data queue, whose slot holds the request's direction, then the reverse filter on the arrival NIC, whose slot holds the reply direction; the remembered port ends at the source port after both and at the destination port when only the first was installed; a packet that installs nothing changes nothing |
| FlowDetect.FiltersMirror | daqswitch/dp/voq_swq/dp_lcore_default.c:342-346 | the two filters of a trigger match each other's reply direction |
| FlowDetect.InitialRouted | daqswitch/dp/voq_swq/dp_voq_swq.c:328-402 | before any detection no slot is active and no filter is logged, so every filter is routed |
| FlowDetect.SideKeepsRouted | daqswitch/dp/voq_swq/dp_lcore_default.c:280-356 | corrected (see Findings): one direction keeps every logged filter routed to a polled ring, its own included |
| FlowDetect.HitStepKeepsRouted | daqswitch/dp/voq_swq/dp_lcore_default.c:244-461 | corrected (see Findings): handling one packet keeps every filter routed |
| FlowDetect.HitAllKeepsRouted | daqswitch/dp/voq_swq/dp_lcore_default.c:232-466 | corrected (see Findings): the hit handler keeps every filter routed, whatever the burst |
| FlowDetect.HitAllAppendsOnly | daqswitch/dp/voq_swq/dp_lcore_default.c:232-466 | corrected (see Findings): the hit handler only appends to the filter log |
| FlowDetect.ShiftBitsAsWritten | daqswitch/dp/voq_swq/dp_lcore_default.c:323 | the bits a 32-bit `1 << k` sets in the 64-bit mask are bit positions below 64 |
| FlowDetect.ShiftAsWrittenCounterexample | daqswitch/dp/voq_swq/dp_lcore_data_tx.c:67 | as written, claiming slot 31 also marks slot 63 polled, and claiming slot 32 sets bit 0 instead of bit 32, so ring 32 is drained only when slot 0 is active |
| FlowKey.KeyBytes | daqswitch/dp/voq_swq/dp_lcore_default.c:38-78 | the packed image of a flow key is 32 bytes |
| FlowKey.KeyOf | daqswitch/dp/voq_swq/dp_lcore_default.c:38-78 | reading a key from 32 bytes and packing it again gives the same bytes |
| FlowKey.KeyRoundTrip | daqswitch/dp/voq_swq/dp_lcore_default.c:38-78 | reading a key back from its packed image gives the key |
| FlowKey.TcpHdrSize | daqswitch/dp/voq_swq/dp_lcore_default.c:180 | the TCP header size is a multiple of four no larger than 60 |
| FlowKey.AppSlabs | daqswitch/dp/voq_swq/dp_lcore_default.c:170-189 | the application part of the key is 16 bytes |
| FlowKey.DecodeKey | daqswitch/dp/voq_swq/dp_lcore_default.c:147-204 | corrected (see Findings): the first 16 key bytes are IPv4 header bytes 8..23 (ttl, protocol, addresses, ports); the application fields are the 16 bytes after the TCP header when the frame is TCP and the datagram holds them, and zero otherwise |
| FlowKey.DecodeSlabs | daqswitch/dp/voq_swq/dp_lcore_default.c:166-189 | where each field of a decoded key comes from, under either length test |
| FlowKey.AsWrittenAgrees | daqswitch/dp/voq_swq/dp_lcore_default.c:182-183 | whenever the TCP header fits in the datagram, the test as written and the intended test decode the same key |
| FlowKey.AppHeaderInsideDatagram | daqswitch/dp/voq_swq/dp_lcore_default.c:182-189 | with the intended test the application header read lies inside the IPv4 datagram, and so inside a frame that holds the whole datagram |
| FlowKey.ShortFramePassesAsWritten | daqswitch/dp/voq_swq/dp_lcore_default.c:182-183 | a TCP frame whose datagram is 20 bytes but whose TCP header claims 20 passes the test as written, through unsigned wrap-around, and is read past the end of the datagram and frame; the intended test rejects it |
| FlowKey.DecodeDefaultKey | daqswitch/pipeline/pipeline_default.c:105-158 | corrected (see Findings): with data flows compiled in, the default pipeline fills the whole key as DecodeKey decodes it; compiled out, the key is the 8-byte slab1 at offset 0, whose bytes are IPv4 bytes 16..23 of the frame, i.e. slab1 of the full key |
| HwqLcores.NextWorker | daqswitch/dp/voq_hwq/dp_voq_hwq.c:232 | the next worker of the round-robin walk is again a worker |
| HwqLcores.Limit | daqswitch/dp/voq_hwq/dp_voq_hwq.c:226-236 | the socket test sees at most all workers before the walk comes back to the previous pick |
| HwqLcores.Seek | daqswitch/dp/voq_hwq/dp_voq_hwq.c:226-236 | the walk stops at the first worker, in round-robin order, on the port's socket; none means no worker within the limit is on it |
| HwqLcores.ConfigureLcoreParams | daqswitch/dp/voq_hwq/dp_voq_hwq.c:214-250 | every port gets a worker; up to the port where the socket test is dropped each port's worker is on the port's own socket; at that port no other worker is on it; after it each port takes the worker after the previous port's |
| HwqLcores.Ids | daqswitch/dp/voq_hwq/dp_voq_hwq.c:238-239 | each port's parameter names the id of the worker chosen for it |
| HwqLcores.Workers | daqswitch/dp/voq_hwq/dp_voq_hwq.c:221 | the workers walked are the enabled lcores other than the master |
| HwqLcores.PicksKept | daqswitch/dp/voq_hwq/dp_voq_hwq.c:238-244 | placing one more port leaves the earlier ports' placement as it was |
| HwqLcores.SeekLcore | daqswitch/dp/voq_hwq/dp_voq_hwq.c:226-236 | the inner loop stops at the first worker on the port's socket, or, when the walk comes back to the previous pick first, drops the socket test and takes that pick |
| HwqLcores.SeekFrom | daqswitch/dp/voq_hwq/dp_voq_hwq.c:226-236 | the first fitting distance the loop reaches is the one Seek names, and reaching the limit means Seek finds none |
| HwqLcores.CircStep | daqswitch/dp/voq_hwq/dp_voq_hwq.c:232 | one step of the walk moves one worker further round the circle |
| HwqLcores.CircBack | daqswitch/dp/voq_hwq/dp_voq_hwq.c:233-235 | within the limit, the walk is back at the previous pick exactly at the limit |
| HwqLcores.PickSockets | daqswitch/dp/voq_hwq/dp_voq_hwq.c:226-236 | a port placed under the socket test is served on its own socket; the test is dropped only when no worker other than the previous pick is on the port's socket |
| HwqLcores.PortsUpTo | daqswitch/dp/voq_hwq/dp_voq_hwq.c:258-270 | the ports among the first k that a lcore serves are at most k |
| HwqLcores.AssignQueues | daqswitch/dp/voq_hwq/dp_voq_hwq.c:253-273 | the queue-list loop succeeds exactly when no lcore list would pass 16 entries; then every lcore's list is its ports in order; on failure the lists hold the ports before the first port whose lcore was full |
| HwqLcores.PlaceLcores | daqswitch/dp/voq_hwq/dp_voq_hwq.c:214-273 | placing the workers then building the lists gives the placement ConfigureLcoreParams describes and lists that succeed exactly when every lcore has room |
| HwqLcores.ListsStep | daqswitch/dp/voq_hwq/dp_voq_hwq.c:266-269 | appending port p to its lcore's list extends the lists to ports 0..p |
| HwqLcores.AppendPort | daqswitch/dp/voq_hwq/dp_voq_hwq.c:266-269 | the append puts the port at the end of one lcore's list and changes no other list |
| HwqLcores.PortsUpToSnoc | daqswitch/dp/voq_hwq/dp_voq_hwq.c:258-270 | one more parameter adds its port to its own lcore's ports only |
| HwqLcores.ListsBounded | daqswitch/dp/voq_hwq/dp_voq_hwq.c:262 | before the loop fails, no list holds more than 16 entries |
| HwqLcores.PortsUpToGrows | daqswitch/dp/voq_hwq/dp_voq_hwq.c:258-270 | a shorter prefix never gives an lcore more ports |
| HwqLcores.QueuesFit | daqswitch/dp/voq_hwq/dp_voq_hwq.c:253-273 | the queue lists succeed exactly when no lcore is given more than 16 ports |
| LcoreAssign.CountUnused | daqswitch/dp/voq_swq/dp_voq_swq.c:221-229 | the count of unused lcores is at most the table's size |
| LcoreAssign.RolesBalanced | daqswitch/dp/voq_swq/dp_voq_swq.c:233-248 | with the alternating roles no lcore stays unused, one is the default lcore, and receive lcores outnumber transmit lcores by at most one |
| LcoreAssign.IndexOfId | daqswitch/dp/voq_swq/dp_voq_swq.c:81-87 | the index found is the first entry with the id; none means no entry has it |
| LcoreAssign.Circ | daqswitch/dp/voq_swq/dp_voq_swq.c:97 | the circular index is inside the table |
| LcoreAssign.Scan | daqswitch/dp/voq_swq/dp_voq_swq.c:94-120 | the scan finds the first entry, in circular order from the one after the start, with the role, room and (while required) the socket; none means no entry fits |
| LcoreAssign.NextLcore | daqswitch/dp/voq_swq/dp_voq_swq.c:71-132 | a picked lcore is an entry of the table |
| LcoreAssign.CircCovers | daqswitch/dp/voq_swq/dp_voq_swq.c:94-97 | the circular scan reaches every entry within one round |
| LcoreAssign.NextLcoreSpec | daqswitch/dp/voq_swq/dp_voq_swq.c:71-132 | the search is fatal exactly when the start id is absent; a pick has the role and room and is on the socket whenever some fitting lcore is; no pick means no lcore of the role has room |
| LcoreAssign.RxEntry | daqswitch/dp/voq_swq/dp_voq_swq.c:159-166 | a port's receive entry has one queue per switch port, queue q reading receive queue 1+q and feeding output port q |
| LcoreAssign.AssignFrom | daqswitch/dp/voq_swq/dp_voq_swq.c:151-170 | giving out the ports changes no lcore's role |
| LcoreAssign.PortIds | daqswitch/dp/voq_swq/dp_voq_swq.c:159 | the port ids of a lcore's list, for either role |
| LcoreAssign.HoldersUpdate | daqswitch/dp/voq_swq/dp_voq_swq.c:159-167 | replacing one lcore changes the number of holders of a port by the change in that lcore's list |
| LcoreAssign.BoundKept | daqswitch/dp/voq_swq/dp_voq_swq.c:251-252 | binding the transmit ports keeps the receive binding, and the other way round |
| LcoreAssign.NoPortsBound | daqswitch/dp/voq_swq/dp_voq_swq.c:213 | with no port given out, the binding of zero ports holds |
| LcoreAssign.AddPortCounts | daqswitch/dp/voq_swq/dp_voq_swq.c:159-167 | giving port p to one lcore makes it held once and leaves every other port's count alone |
| LcoreAssign.BindStep | daqswitch/dp/voq_swq/dp_voq_swq.c:151-170 | giving port p to the picked lcore extends the binding to ports 0..p without changing roles or the other role's lists |
| LcoreAssign.AssignFromSpec | daqswitch/dp/voq_swq/dp_voq_swq.c:138-200 | a successful pass binds every port to exactly one lcore of the role, with no other port ids, at most 16 per lcore, and changes neither roles nor the other role's lists |
| LcoreAssign.Registered | daqswitch/dp/voq_swq/dp_voq_swq.c:211-215 | the table registers one unused entry per worker, with its id and socket, in order |
| LcoreAssign.WithDefault | daqswitch/dp/voq_swq/dp_voq_swq.c:26-35 | choosing the default lcore succeeds exactly when entry 0 exists and is unused, and then changes only its role |
| LcoreAssign.Alternate | daqswitch/dp/voq_swq/dp_voq_swq.c:233-248 | the role loop changes only roles, leaves entries before the start alone and leaves no entry unused from the start on |
| LcoreAssign.AlternateRoles | daqswitch/dp/voq_swq/dp_voq_swq.c:233-248 | from an odd index on, a run of unused entries gets receive and transmit roles alternately |
| LcoreAssign.CountUnusedAfterFirst | daqswitch/dp/voq_swq/dp_voq_swq.c:221-229 | after the default lcore is taken, every other registered worker is unused |
| LcoreAssign.RolesStage | daqswitch/dp/voq_swq/dp_voq_swq.c:211-248 | on fresh workers, the default lcore is chosen exactly when there is at least one worker; the others are then unused and get alternating roles, keeping ids and sockets |
| LcoreAssign.BindStage | daqswitch/dp/voq_swq/dp_voq_swq.c:251-252 | the two binding passes leave every port bound once for receive and once for transmit, with roles unchanged |
| LcoreAssign.InitLcoresSpec | daqswitch/dp/voq_swq/dp_voq_swq.c:207-254 | fewer than three workers is fatal; a successful init keeps every worker's id and socket, makes entry 0 the default and the rest alternately receive and transmit, binds every port to exactly one receive and one transmit lcore, and leaves every port a transmit entry the flow handler can find |
| LcoreAssign.TxServed | daqswitch/dp/voq_swq/dp_lcore_default.c:280-291 | a port bound for transmit has a transmit entry the flow handler finds |
| LcoreAssign.Padded | daqswitch/dp/voq_swq/dp_voq_swq.c:264 | the lookup scans the whole fixed-size table: the registered entries, then zeroed padding |
| LcoreAssign.LcoreParams | daqswitch/dp/voq_swq/dp_voq_swq.c:257-274 | the lookup always lands on some entry of the fixed-size table |
| LcoreAssign.LcoreParamsSpec | daqswitch/dp/voq_swq/dp_voq_swq.c:257-274 | a registered id yields its first entry; an unregistered non-zero id yields the last table entry rather than no entry; an unregistered id 0 yields the first padding entry, which is unused |
| OqHwq.WithTables | daqswitch/dp/oq_hwq/dp_oq_hwq.c:866-880 | the per-socket table list keeps its length after the configure pass |
| OqHwq.WithTablesTwice | daqswitch/dp/oq_hwq/dp_oq_hwq.c:874-876 | running the configure pass a second time creates no further table: the pass is idempotent |
| OqHwq.WithTablesStep | daqswitch/dp/oq_hwq/dp_oq_hwq.c:871-877 | each enabled worker creates its socket's table exactly when that socket has none yet and creation does not fail |
| OqHwq.WithTablesValid | daqswitch/dp/oq_hwq/dp_oq_hwq.c:759-775 | a freshly created table is empty, so every table stays within the 1024-rule limit |
| OqHwq.BindStep | daqswitch/dp/oq_hwq/dp_oq_hwq.c:873-877 | binding one more worker to its socket's table keeps all earlier bindings and leaves every other worker's binding unchanged |
| OqHwq.TablesPresent | daqswitch/dp/oq_hwq/dp_oq_hwq.c:874-877 | after the pass, the socket of every worker whose table creation does not fail holds a table |
| OqHwq.FirstFull | daqswitch/dp/oq_hwq/dp_oq_hwq.c:784-794 | the first socket whose table cannot take the rule; every existing table before it has room |
| OqHwq.InstallStep | daqswitch/dp/oq_hwq/dp_oq_hwq.c:779-799 | with room for all rules no table is full, and adding the next rule extends the installed prefix by one |
| OqHwq.DefaultRoutes | daqswitch/dp/oq_hwq/dp_oq_hwq.c:893-904 | after the twelve default rules, every table that started empty maps 20.1.k.1 to the k-th default port |
| OqHwq.NumberTxQueues | daqswitch/dp/oq_hwq/dp_oq_hwq.c:826-835 | every enabled worker gets, on every port, its position among the enabled workers as its tx queue id |
| OqHwq.BindLcores | daqswitch/dp/oq_hwq/dp_oq_hwq.c:867-878 | the tables are those of the specification pass; every worker is bound to its socket's table and no other binding changes |
| OqHwq.AddToTables | daqswitch/dp/oq_hwq/dp_oq_hwq.c:784-798 | returns 0 exactly when no existing table is full, otherwise the no-space code; the rule lands in every existing table before the first full one |
| OqHwq.AddRules | daqswitch/dp/oq_hwq/dp_oq_hwq.c:893-904 | tables stay within the rule limit, no table appears or vanishes, and with room every rule is installed |
| OqHwq.TablesStayBounded | daqswitch/dp/oq_hwq/dp_oq_hwq.c:784-794 | adding one rule keeps every table within the limit and creates or removes no table |
| OqHwq.OqDatapath.constructor | daqswitch/dp/oq_hwq/dp_oq_hwq.c:104-129 | no parameters, no queues, no tables, no bindings and no routes at start |
| OqHwq.OqDatapath.Init | daqswitch/dp/oq_hwq/dp_oq_hwq.c:802-853 | workers are placed per port as the round-robin socket walk decides; succeeds exactly when no worker exceeds 16 rx queues; then each worker lists its ports, each port gets one rx queue and one tx queue per enabled worker |
| OqHwq.OqDatapath.ConfigurePass | daqswitch/dp/oq_hwq/dp_oq_hwq.c:867-878 | one pass over the workers creates the missing socket tables and binds each worker to its socket's table, touching nothing else |
| OqHwq.OqDatapath.Configure | daqswitch/dp/oq_hwq/dp_oq_hwq.c:856-886 | always returns success; with no port nothing changes, otherwise the tables and bindings are those of one pass |
| OqHwq.OqDatapath.AddIpv4Rule | daqswitch/dp/oq_hwq/dp_oq_hwq.c:779-799 | the route counter always grows by one; returns 0 exactly when no table is full, and then every table maps the address to the port |
| OqHwq.OqDatapath.InstallDefaultTables | daqswitch/dp/oq_hwq/dp_oq_hwq.c:889-909 | always returns success and counts twelve routes; with room every table that started empty maps the twelve default addresses to their ports |
| OqTx.GetDstPort | daqswitch/dp/oq_hwq/dp_oq_hwq.c:245-259 | an IPv4 packet whose destination has a route goes to that route's port; every other packet goes back out its own port |
| OqTx.LookupX4 | daqswitch/dp/oq_hwq/dp_oq_hwq.c:330 | each of the four lanes gets its address's route or the incoming port |
| OqTx.ProcessX4 | daqswitch/dp/oq_hwq/dp_oq_hwq.c:318-338 | the four-packet fast path and the per-packet fallback both give each packet the same port as the single-packet path |
| OqTx.DstPorts | daqswitch/dp/oq_hwq/dp_oq_hwq.c:579-612 | the destination array computed in steps of four plus the tail is the per-packet destination list |
| OqTx.RunLenSpan | daqswitch/dp/oq_hwq/dp_oq_hwq.c:354-362 | a run covers only packets with the same destination and ends at a different destination or at the end |
| OqTx.GroupPorts | daqswitch/dp/oq_hwq/dp_oq_hwq.c:600-665 | at every run start the count array holds the length of the run of equal destinations |
| OqTx.LogOnAppend | daqswitch/dp/oq_hwq/dp_oq_hwq.c:144-155 | what a port received over two stretches of sends is what it received in each, in order |
| OqTx.ToPortRun | daqswitch/dp/oq_hwq/dp_oq_hwq.c:673-689 | handing a run to its port adds exactly that run to that port's share and nothing to any other |
| OqTx.ToPortTotal | daqswitch/dp/oq_hwq/dp_oq_hwq.c:673-689 | when every destination is a port, the shares of all ports together hold every packet of the burst |
| OqTx.AccountedTrans | daqswitch/dp/oq_hwq/dp_oq_hwq.c:540-690 | accounting composes: two stretches of the loop deliver or buffer, per port, what each delivered or buffered |
| OqTx.FlushKeeps | daqswitch/dp/oq_hwq/dp_oq_hwq.c:173-240 | what is sent and what stays buffered is exactly the old buffer followed by the new packets: no packet is lost or duplicated |
| OqTx.FlushBounds | daqswitch/dp/oq_hwq/dp_oq_hwq.c:173-240 | the buffer stays below 32 packets; a direct send is at least 16 packets; when nothing is sent the new packets are appended |
| OqTx.OnPort | daqswitch/dp/oq_hwq/dp_oq_hwq.c:161-242 | sending a run on one port changes only that port's sent-plus-buffered sequence, by the run |
| OqTx.CopyInto | daqswitch/dp/oq_hwq/dp_oq_hwq.c:196-211 | the unrolled copy places the packets after the first entries, which stay as they were |
| OqTx.TxBuffer.SendPacketsX4 | daqswitch/dp/oq_hwq/dp_oq_hwq.c:161-242 | the wire gets the flushed packets on this port's queue and the buffer keeps the rest |
| OqTx.TxBuffer.Flush | daqswitch/dp/oq_hwq/dp_oq_hwq.c:135-158 | the whole buffer goes out on the port's queue and the buffer is empty |
| OqTx.OqLcore.SendTo | daqswitch/dp/oq_hwq/dp_oq_hwq.c:677-682 | only the destination port's buffer changes; the wire gets its flushed part |
| OqTx.OqLcore.SendRuns | daqswitch/dp/oq_hwq/dp_oq_hwq.c:673-689 | every packet of the burst is sent or buffered on its destination port, in order |
| OqTx.OqLcore.FlushAt | daqswitch/dp/oq_hwq/dp_oq_hwq.c:555-560 | one non-empty buffer is sent out whole and emptied |
| OqTx.OqLcore.Drain | daqswitch/dp/oq_hwq/dp_oq_hwq.c:547-564 | after the drain every buffer is empty and every buffered packet went out on its own port |
| OqTx.OqLcore.ProcessBurst | daqswitch/dp/oq_hwq/dp_oq_hwq.c:569-690 | each packet of one received burst is delivered or buffered on the port its route gives, in arrival order |
| OqTx.OqLcore.ProcessAll | daqswitch/dp/oq_hwq/dp_oq_hwq.c:569-690 | over all rx queues, every packet is delivered or buffered on its routed port, in order |
| OqTx.OqLcore.MainLoopPass | daqswitch/dp/oq_hwq/dp_oq_hwq.c:540-690 | the drain runs exactly when more than the drain interval has passed, with 64-bit wrap; each packet read is delivered or buffered on its routed port |
| VoqHwq.CyclesPerUs | daqswitch/dp/voq_hwq/dp_voq_hwq.c:131 | the rounded-up number of cycles per microsecond |
| VoqHwq.RxPortIds | daqswitch/dp/voq_hwq/dp_voq_hwq.c:463-466 | every tx queue lists every port, in port order |
| VoqHwq.NumberQueues | daqswitch/dp/voq_hwq/dp_voq_hwq.c:450-469 | the queues of one worker get consecutive rx queue ids from the running count, wrapping at 256, and all ports as rx ports |
| VoqHwq.NumberRxQueues | daqswitch/dp/voq_hwq/dp_voq_hwq.c:436-471 | rx queue ids are numbered over the workers in id order, each worker starting after the queues of the workers before it |
| VoqHwq.SumListsTotal | daqswitch/dp/voq_hwq/dp_voq_hwq.c:436-471 | when every port's worker is enabled, the queue count over all workers is the number of ports |
| VoqHwq.PortPosition | daqswitch/dp/voq_hwq/dp_voq_hwq.c:258-270 | a port sits in its worker's queue list at the position given by the earlier ports of that worker, after only earlier ports |
| VoqHwq.ConfiguredAfterInit | daqswitch/dp/voq_hwq/dp_voq_hwq.c:426-476 | numbering the lists built by init gives each worker exactly its ports, in order, with consecutive rx ids |
| VoqHwq.RxQueuesDistinct | daqswitch/dp/voq_hwq/dp_voq_hwq.c:436-468 | distinct ports get distinct rx queue ids |
| VoqHwq.FindIn | daqswitch/dp/voq_hwq/dp_voq_hwq.c:303-307 | the first queue of a worker whose port matches; no earlier queue matches |
| VoqHwq.RxQueueFound | daqswitch/dp/voq_hwq/dp_voq_hwq.c:289-310 | after configuration the lookup for a port returns the rx id numbered for it |
| VoqHwq.RxQueueMissing | daqswitch/dp/voq_hwq/dp_voq_hwq.c:309 | a port that has no queue yields the -1 result, 0xFFFF as uint16_t |
| VoqHwq.RxQueuesAfterConfigure | daqswitch/dp/voq_hwq/dp_voq_hwq.c:289-310 | after init and configure every port's rx id is below the port count, distinct ports have distinct ids and a missing port gets 0xFFFF |
| VoqHwq.CpuToBe32Twice | daqswitch/dp/voq_hwq/dp_voq_hwq.c:358 | the byte swap is its own inverse |
| VoqHwq.FiltersAdded | daqswitch/dp/voq_hwq/dp_voq_hwq.c:361-367 | a filter is recorded for exactly the ports whose add call succeeds |
| VoqHwq.AddFilters | daqswitch/dp/voq_hwq/dp_voq_hwq.c:361-371 | returns the last port's code, even when an earlier port failed; records the filters of the successful ports |
| VoqHwq.RuleFilterIn | daqswitch/dp/voq_hwq/dp_voq_hwq.c:483-494 | a successful add of the k-th rule on a port leaves its filter, with soft id base + k, among those installed |
| VoqHwq.DefaultFiltersSteer | daqswitch/dp/voq_hwq/dp_voq_hwq.c:479-499 | when every add succeeds, each default address is steered on every port to the rx queue of its output port, which is a real queue |
| VoqHwq.GetRxQueuesId | daqswitch/dp/voq_hwq/dp_voq_hwq.c:289-310 | the loop over workers and queues returns the specification lookup's result |
| VoqHwq.AddRule | daqswitch/dp/voq_hwq/dp_voq_hwq.c:349-372 | the filter carries the byte-swapped address and the output port's rx queue; the last port's code is returned |
| VoqHwq.AddRules | daqswitch/dp/voq_hwq/dp_voq_hwq.c:483-494 | the filters of a sequence of rules are those of each rule in turn, with consecutive soft ids |
| VoqHwq.VoqDatapath.constructor | daqswitch/dp/voq_hwq/dp_voq_hwq.c:104-114 | no parameters, no queue lists, no filters and no routes at start |
| VoqHwq.VoqDatapath.Init | daqswitch/dp/voq_hwq/dp_voq_hwq.c:376-422 | workers are placed per port by the round-robin socket walk; succeeds exactly when no worker exceeds its queue limit; each worker then lists its ports' tx queues in port order, and each port gets one rx queue per port |
| VoqHwq.VoqDatapath.Configure | daqswitch/dp/voq_hwq/dp_voq_hwq.c:426-476 | always succeeds; the queue lists are numbered as specified and nothing else changes |
| VoqHwq.VoqDatapath.AddIpv4Rule | daqswitch/dp/voq_hwq/dp_voq_hwq.c:349-372 | the route counter grows by one and is the rule's soft id; the filters of the successful ports are recorded |
| VoqHwq.VoqDatapath.InstallDefaultTables | daqswitch/dp/voq_hwq/dp_voq_hwq.c:479-499 | always succeeds and counts twelve routes; the filters are those of the twelve default rules in order |
| VoqHwq.SentBurstsSize | daqswitch/dp/voq_hwq/dp_voq_hwq.c:171-203 | every received packet is sent, all on the queue's own port and tx queue |
| VoqHwq.VoqLcore.Pass | daqswitch/dp/voq_hwq/dp_voq_hwq.c:157-208 | one pass forwards exactly the bursts of the queues whose poll interval has passed, and each stamp is updated as the poll rule says |
| VoqHwq.VoqLcore.PollQueue | daqswitch/dp/voq_hwq/dp_voq_hwq.c:162-206 | a queue is polled only when more than the poll interval has passed, with 64-bit wrap; a full burst resets its stamp to 0 |
| VoqSwq.Datapath.GetNextLcore | daqswitch/dp/voq_swq/dp_voq_swq.c:71-132 | the two passes over the worker list return the pick the specification walk gives: the next lcore of the type with room on the socket, then on any socket |
| VoqSwq.Datapath.FindIndex | daqswitch/dp/voq_swq/dp_voq_swq.c:81-87 | the index of the first entry with the given lcore id, none when no entry has it |
| VoqSwq.Datapath.ScanPass | daqswitch/dp/voq_swq/dp_voq_swq.c:94-120 | one pass starting after the given index finds the first candidate the specification scan finds |
| VoqSwq.Datapath.InitLcoreDefault | daqswitch/dp/voq_swq/dp_voq_swq.c:26-35 | succeeds exactly when there is an entry and the first one is unused, and then makes it the default lcore; otherwise nothing changes |
| VoqSwq.Datapath.DpInit | daqswitch/dp/voq_swq/dp_voq_swq.c:328-402 | returns exactly when the lcore assignment succeeds (every failure of it is an RTE_VERIFY that stops the switch), and then the lcore table is that assignment and the ports get the voq_swq sizing |
| VoqSwq.Datapath.RxQueues | daqswitch/dp/voq_swq/dp_voq_swq.c:159-166 | queue q of an rx port entry reads rx queue 1 + q and feeds output port q, for every port |
| VoqSwq.Datapath.InitLcoresData | daqswitch/dp/voq_swq/dp_voq_swq.c:138-200 | every port is handed, after the previous pick, to the lcore the walk chooses; fails exactly when some port finds none |
| VoqSwq.Datapath.InitLcores | daqswitch/dp/voq_swq/dp_voq_swq.c:207-254 | succeeds exactly when the specification assignment does, and then the lcore table is that assignment |
| VoqSwq.Datapath.RegisterWorkers | daqswitch/dp/voq_swq/dp_voq_swq.c:211-215 | every worker becomes an unused entry with no ports, in order |
| VoqSwq.Datapath.CountFree | daqswitch/dp/voq_swq/dp_voq_swq.c:221-229 | the number of unused entries |
| VoqSwq.Datapath.AssignRoles | daqswitch/dp/voq_swq/dp_voq_swq.c:233-248 | unused entries become data rx and data tx in turn, skipping the others |
| VoqSwq.Datapath.GetLcoreParams | daqswitch/dp/voq_swq/dp_voq_swq.c:257-274 | the index of the first entry with the id, or the last slot when none matches |
| VoqSwq.Datapath.FindTxConf | daqswitch/dp/voq_swq/dp_lcore_default.c:280-291 | the last tx port entry of the last data tx lcore that lists the port, as the scan keeps overwriting its result |
| VoqSwq.Datapath.FindFlowSlot | daqswitch/dp/voq_swq/dp_lcore_default.c:293-302 | the first active slot holding the flow's address and sink |
| VoqSwq.Datapath.FindFreeSlot | daqswitch/dp/voq_swq/dp_lcore_default.c:312-328 | the first inactive slot |
| VoqSwq.Datapath.HandleSide | daqswitch/dp/voq_swq/dp_lcore_default.c:280-356 | corrected (see Findings): one direction of a new flow stops exactly when the specification reports an abort, reports a full table with nothing changed, or claims the specified slot and state |
| VoqSwq.Datapath.HandleHit | daqswitch/dp/voq_swq/dp_lcore_default.c:268-461 | corrected (see Findings): handling one packet succeeds exactly when the specification step does and yields its state and remembered source port |
| VoqSwq.Datapath.TableActionHandlerHit | daqswitch/dp/voq_swq/dp_lcore_default.c:232-466 | corrected (see Findings): walking the mask from the lowest bit gives the specification handler's result, and keeps every active flow routed |
| VoqSwq.VoqSwqSizing | daqswitch/dp/voq_swq/dp_voq_swq.c:364-387 | ports get the default rx queue plus one data rx queue per output port, and the default, request and data tx queues |
| VoqSwq.IndexOfIdFirst | daqswitch/dp/voq_swq/dp_voq_swq.c:81-86 | the index found is the first entry with the id |
| VoqSwq.FindFlowUnique | daqswitch/dp/voq_swq/dp_lcore_default.c:293-302 | the slot found is the first one holding the flow |
| VoqSwq.FreeSlotUnique | daqswitch/dp/voq_swq/dp_lcore_default.c:312-328 | the slot found is the first inactive one |
| VoqSwq.SelectedValid | daqswitch/dp/voq_swq/dp_lcore_default.c:244-250 | the packets the mask selects are all well formed |
| VoqSwq.SelectedStep | daqswitch/dp/voq_swq/dp_lcore_default.c:244-250 | the mask walk visits packet i exactly when bit i is set, in index order |
| VoqSwq.HitAllSnoc | daqswitch/dp/voq_swq/dp_lcore_default.c:244-463 | handling one more packet is one more step after the earlier ones |
| VoqSwq.HitAllStopped | daqswitch/dp/voq_swq/dp_lcore_default.c:291 | once a packet aborts the handler, the whole burst aborts |
| TcpStatic.CwndOf | tcp-static/tcp-static.c:18-25 | the int parameter stored in the u32 window is itself when non-negative and wraps by 2^32 when negative |
| TcpStatic.Step | tcp-static/tcp-static.c:23-59 | init, cong_avoid and set_state pin the window to the parameter; cong_avoid and set_state also zero the threshold; the other callbacks change nothing |
| TcpStatic.SsthreshValue | tcp-static/tcp-static.c:28-31 | the ssthresh callback reports 0 |
| TcpStatic.RunKeepsPinned | tcp-static/tcp-static.c:61-70 | a window equal to the parameter stays so under any sequence of callbacks |
| TcpStatic.PinnedAfterInit | tcp-static/tcp-static.c:23-47 | after init, whatever callbacks follow, the window equals the parameter and what min_cwnd and undo_cwnd report |
| TcpStatic.RunKeepsThreshold | tcp-static/tcp-static.c:61-70 | a zero threshold stays zero under any sequence of callbacks |
| TcpStatic.ThresholdZeroAfterWrite | tcp-static/tcp-static.c:38-59 | once cong_avoid or set_state has run, the threshold is 0, the value ssthresh reports, whatever follows |
| TcpStatic.Sock.constructor | tcp-static/tcp-static.c:23 | a socket holds the given window and threshold |
| TcpStatic.Sock.Init | tcp-static/tcp-static.c:23-26 | the window becomes the parameter and the threshold is untouched, as the step function says |
| TcpStatic.Sock.CongAvoid | tcp-static/tcp-static.c:38-42 | the window becomes the parameter and the threshold 0, whatever the ack and data in flight |
| TcpStatic.Sock.SetState | tcp-static/tcp-static.c:49-59 | every new state sets the window to the parameter and the threshold to 0 |
| Text.DigitChar | odl/odl_utils/of.py:238 | the digit character of a value below ten |
| Text.Str | odl/odl_utils/of.py:238 | str() of a non-negative number is a non-empty run of digits without a leading zero |
| Text.ParseNat | odl/odl_utils/of.py:478 | int() succeeds exactly on a non-empty run of digits |
| Text.StrRoundTrip | odl/odl_utils/of.py:477-481 | int(str(n)) is n |
| Text.StrInjective | odl/odl_utils/of.py:238 | distinct numbers print as distinct strings |
| Text.ContainsWithin | odl/odl_utils/of.py:477 | a substring of a part is a substring of the whole |
| Text.ContainsSelf | odl/odl_utils/of.py:477 | a string that starts with the pattern contains it |
| Text.ContainsChar | odl/odl_utils/of.py:477 | a one-character pattern occurs exactly where the character does |
| Text.ReplaceAbsent | odl/odl_utils/ovsdb.py:78 | replace() leaves a string without the pattern unchanged |
| Text.ReplaceLeading | odl/odl_utils/ovsdb.py:42 | a leading occurrence is replaced and the scan resumes after it |
| Text.ReplaceKeeps | odl/odl_utils/ovsdb.py:78 | a first character that cannot start the pattern is kept |
| Text.Fields | odl/odl_utils/of.py:829 | split() on one separator gives at least one field |
| Text.FieldsWhole | odl/odl_utils/of.py:849 | a string without the separator is a single field |
| Text.FieldsCons | odl/odl_utils/of.py:849 | a field followed by the separator is split off the front |
| Text.SplitLast | odl/odl_utils/of.py:478 | rsplit(c, 1) gives the parts before and after the last c, which rejoin to the string; it has a second part exactly when the string holds c |
| Text.SplitLastJoin | odl/odl_utils/of.py:478-481 | splitting at the last c recovers the parts it joined |
| Text.HexValue | odl/odl_utils/ovsdb.py:154 | int(c, 16) of one digit, in either case, is below 16 |
| Text.HexDigit | odl/odl_utils/of.py:563 | the upper-case digit '%X' prints reads back as its value and is never a colon |
| Text.ParseHex | odl/odl_utils/ovsdb.py:154 | int(s, 16) succeeds exactly on a non-empty run of hex digits |
| Text.HexNumberPair | odl/odl_utils/ovsdb.py:154 | two more hex digits shift the value by one byte |
| Text.Keep | odl/odl_utils/of.py:716-718 | the comprehension keeps no more entries than there were |
| Text.KeepMembers | odl/odl_utils/of.py:716-718 | the comprehension keeps exactly the entries that pass the test |
| Text.KeepSnoc | odl/odl_utils/of.py:716-718 | the comprehension over one more entry appends it exactly when it passes |
| Ovsdb.NodePath | odl/odl_utils/ovsdb.py:77-78 | every node path starts with the topology prefix |
| Ovsdb.EscapeNoSlash | odl/odl_utils/ovsdb.py:78 | an escaped id has no '/' left, so it is a single path segment |
| Ovsdb.EscapeRoundTrip | odl/odl_utils/ovsdb.py:78 | for ids without '%', decoding the escaped id gives the id back |
| Ovsdb.ReplaceCharConcat | odl/odl_utils/ovsdb.py:78 | escaping a concatenation escapes each part |
| Ovsdb.ServerNames | odl/odl_utils/ovsdb.py:39-43 | one name per id without 'bridge', in order, with 'ovsdb://' removed |
| Ovsdb.GetAllNodes | odl/odl_utils/ovsdb.py:23-44 | the loop returns the names of the server nodes in order; an unreadable datastore gives none |
| Ovsdb.ServerNameRoundTrip | odl/odl_utils/ovsdb.py:42-64 | the name recovered from a server's node id is the name the client was built with |
| Ovsdb.BridgeIdSkipped | odl/odl_utils/ovsdb.py:40-149 | a bridge's node id is one that get_all_nodes and is_connected skip |
| Ovsdb.EscapeSegment | odl/odl_utils/ovsdb.py:151 | a '/' followed by a segment without '/' escapes to '%2F' and the segment |
| Ovsdb.EscapeTwoSegments | odl/odl_utils/ovsdb.py:149-151 | escaping an id followed by two segments escapes the id and both separators |
| Ovsdb.BridgePathExtends | odl/odl_utils/ovsdb.py:130-151 | the bridge's path extends the server's escaped path by '%2Fbridge%2Fbr0' |
| Ovsdb.Hex2 | odl/odl_utils/of.py:563 | '%02X' of a byte is two upper-case hex digits |
| Ovsdb.ColonHex | odl/odl_utils/of.py:563 | bytes as colon-separated hex pairs |
| Ovsdb.ColonHexStripped | odl/odl_utils/ovsdb.py:154 | removing the colons leaves the bare hex pairs |
| Ovsdb.HexPairsValue | odl/odl_utils/ovsdb.py:154 | the hex pairs read back as the big-endian value of the bytes |
| Ovsdb.DatapathIdOfColonHex | odl/odl_utils/ovsdb.py:154 | a datapath-id written as colon-separated hex bytes reads back as the big-endian value of those bytes |
| Ovsdb.ControllerTargetPort | odl/odl_utils/ovsdb.py:251 | the controller's port is what follows the last ':' of the target |
| Ovsdb.TerminationPoints | odl/odl_utils/ovsdb.py:259-297 | the supplied ports numbered from 1, then with DPDK two daqring sets from 100 and 200, in that order |
| Ovsdb.AppendDaqringPorts | odl/odl_utils/ovsdb.py:274-297 | one daqring loop appends its ports in order after those before it |
| Ovsdb.LayoutPortRead | odl/odl_utils/ovsdb.py:268-294 | every termination point's ofport text reads back as its number |
| Ovsdb.OfportsDistinct | odl/odl_utils/ovsdb.py:259-297 | with fewer than 100 supplied ports and at most 100 daqring ports per set, no two termination points share an OpenFlow port |
| Ovsdb.OfportsCollideBeyond | odl/odl_utils/ovsdb.py:273-297 | with more than 100 daqring ports per set, the two sets share an OpenFlow port |
| Ovsdb.FindServer | odl/odl_utils/ovsdb.py:125-132 | the search stops at the first node that is not a bridge and either is at the client's address or has no connection info; it runs through exactly when no node is such |
| Ovsdb.OvsdbClient.constructor | odl/odl_utils/ovsdb.py:46-103 | the node id is 'ovsdb://' plus the name; stored address and port replace the arguments; no node, bridge or OpenFlow id yet |
| Ovsdb.OvsdbClient.IsConnected | odl/odl_utils/ovsdb.py:117-143 | the first successful search caches the first server node at the client's address and later calls reuse it; it raises exactly when the search first meets a server node without connection info or the known node's manager reply lacks its entry or flag; true exactly when the node is known and the manager entry says connected |
| Ovsdb.OvsdbClient.IsBridge | odl/odl_utils/ovsdb.py:145-157 | when connected, records br0's node id and datastore path, and otherwise leaves both as they were; true exactly when a hex datapath-id is read, which sets the OpenFlow id; raises exactly when is_connected raises or the datapath-id is not hexadecimal |
| Ovsdb.OvsdbClient.RemoveBridge | odl/odl_utils/ovsdb.py:159-167 | forgets br0's id and path and deletes the path it held |
| Ovsdb.OvsdbClient.CreateBridge | odl/odl_utils/ovsdb.py:217-299 | the request names br0 under the server's node, its controller target, its datapath type and its termination points; it raises exactly when the server was never found, the manager reply is malformed or the datapath-id is not hexadecimal |
| OpenFlow.MacBytes | odl/odl_utils/of.py:563 | the MAC address has six bytes |
| OpenFlow.GetMac | odl/odl_utils/of.py:561-563 | get_mac prints 17 characters: six hex pairs joined by ':' |
| OpenFlow.LowBytesAre | odl/odl_utils/of.py:563 | the bytes listed are those the shifts and masks extract, most significant first |
| OpenFlow.LowBytesValue | odl/odl_utils/of.py:563 | the low m bytes read back as the id modulo 2^(8m) |
| OpenFlow.MacBytesValue | odl/odl_utils/of.py:563 | the MAC bytes are the low 48 bits of the OpenFlow id |
| OpenFlow.MacReadsBack | odl/odl_utils/of.py:563 | the MAC string, read as a datapath-id the way the OVSDB helper reads one, gives back the id's low 48 bits |
| OpenFlow.ConnectorParts | odl/odl_utils/of.py:477-478 | a node connector 'openflow:a:p' splits at its last ':' into node and port, holds no '/', and contains its port's digits |
| OpenFlow.LinkEntryOfConnectors | odl/odl_utils/of.py:478-481 | a link between two node connectors records the local port with the peer's node and port |
| OpenFlow.SelectedConnector | odl/odl_utils/of.py:477 | with the corrected test, a link leaving node a is taken by bridge id exactly when a is id |
| OpenFlow.ParseLinkOfConnectors | odl/odl_utils/of.py:476-481 | a link between two node connectors is taken by exactly the bridge it leaves, under its own port number |
| OpenFlow.LinkSelectionOverreaches | odl/odl_utils/of.py:477 | as written, a bridge whose id equals another bridge's port number takes that bridge's link as its own |
| OpenFlow.Steps | odl/odl_utils/of.py:476-481 | corrected (see Findings): one parse step per listed link, in order |
| OpenFlow.TableRaisesIff | odl/odl_utils/of.py:476-481 | building the port table raises exactly when some step raises |
| OpenFlow.TableLastWins | odl/odl_utils/of.py:481 | the table holds exactly the ports some step records, each with the peer of the last such step |
| OpenFlow.PortsFromSpec | odl/odl_utils/of.py:470-481 | corrected (see Findings): the constructor raises exactly when some taken link cannot be read; otherwise each port it takes maps to the peer of the last link taken from it |
| OpenFlow.ParseLinks | odl/odl_utils/of.py:476-481 | corrected (see Findings): the loop builds the port table the specification gives |
| OpenFlow.Bridge.constructor | odl/odl_utils/of.py:459-468 | a bridge holds the given OpenFlow id, port table and flows, and has deleted nothing |
| OpenFlow.Bridge.Create | odl/odl_utils/of.py:446-481 | corrected (see Findings): none exactly when reading some taken link raises; otherwise a new bridge whose port table is the one the links give under the exact node match, with the given id and flows and nothing deleted |
| OpenFlow.Bridge.GetPortForDst | odl/odl_utils/of.py:546-559 | exactly the local ports whose peer is the given bridge, each once |
| OpenFlow.Bridge.FlowAdd | odl/odl_utils/of.py:511-516 | the flow is stored under its id, replacing any flow of that id |
| OpenFlow.Bridge.FlowDelete | odl/odl_utils/of.py:518-523 | the flow of that id is removed, a missing one being no error, and the deletion is logged |
| OpenFlow.DigitRunsMatch | odl/odl_utils/of.py:181 | digits ended by '_' cannot be a proper prefix of other digits ended by '_' |
| OpenFlow.PrefixSeparates | odl/odl_utils/of.py:181 | a flow id built for Dcm j is claimed by Dcm i exactly when i is j |
| OpenFlow.FlowIdsDistinct | odl/odl_utils/of.py:216-238 | the inflow ids of one Dcm are pairwise distinct and differ from its daqring out-flow id |
| OpenFlow.InstallSubpath | odl/odl_utils/of.py:185-239 | fails with no flow written exactly when no port leads to the destination; otherwise every inflow goes out the (id mod n)-th such port, or to the daqring port which then forwards there, and no other flow changes |
| OpenFlow.InstalledFlows | odl/odl_utils/of.py:167-183 | the listed flow ids this Dcm claims, in order |
| OpenFlow.RemovalsScope | odl/odl_utils/of.py:361-374 | removal deletes exactly this Dcm's listed inflows and daqring out-flows, never another Dcm's, all inflows first |
| OpenFlow.RemoveDcmFlows | odl/odl_utils/of.py:366-374 | the two deletion loops on one bridge delete the specified flows in order and keep all others unchanged |
| OpenFlow.DeleteMatching | odl/odl_utils/of.py:368-370 | one loop deletes every listed id that passes the test, in order, and nothing else |
| OpenFlow.DeleteIf | odl/odl_utils/of.py:368-370 | one visit of the loop deletes and logs the id exactly when it passes the test, and leaves the other flows unchanged |
| OpenFlow.RemovePath | odl/odl_utils/of.py:361-374 | every bridge of the topology gets this Dcm's removals from its own listing, and its flows become its old flows minus those removals, each kept flow unchanged |
| OpenFlow.LeadingDigits | odl/odl_utils/of.py:155 | the longest run of digits at the start of the name |
| OpenFlow.LeadingDigitsOf | odl/odl_utils/of.py:155 | digits followed by a non-digit or nothing are the leading run |
| OpenFlow.PodId | odl/odl_utils/of.py:153-158 | a pod id exists exactly when the name matches 'pod-<digits>-' |
| OpenFlow.PodIdOfName | odl/odl_utils/of.py:153-158 | an end node named 'pod-p-...' is in pod p |
| OpenFlow.PlaneIdOfName | odl/odl_utils/of.py:160-165 | the spine 'plane-a-spine-b...' is in plane a |
| OpenFlow.IpToPodOfAddress | odl/odl_utils/of.py:636-638 | the pod of the address a.b.c.d is 'pod' followed by c |
| OpenFlow.StrAppendDigit | odl/odl_utils/of.py:682 | the decimal text of 10i + k is that of i followed by the digit k |
| OpenFlow.PodEndnodesAsWrittenOverreach | odl/odl_utils/of.py:682 | as written, the end nodes of pod i include those of pods 10i to 10i + 9 |
| OpenFlow.InPodExactly | odl/odl_utils/of.py:678-684 | with the corrected test, an end node 'pod-p-...' is in pod i exactly when p is i |
| OpenFlow.GetSpines | odl/odl_utils/of.py:662-668 | the names holding 'spine', in order |
| OpenFlow.GetEndnodes | odl/odl_utils/of.py:670-676 | the names holding 'pod-' and not 'plane', in order |
| OpenFlow.GetPodEndnodes | odl/odl_utils/of.py:678-684 | corrected (see Findings): the end nodes of pod i, in order |
| OpenFlow.GetNpods | odl/odl_utils/of.py:686-692 | the number of names holding 'plane-1-pod-' |
| OpenFlow.Select | odl/odl_utils/of.py:664-667 | the appending loop keeps the names that pass the test, in order |
| OpenFlow.NamesClassified | odl/odl_utils/of.py:662-692 | spines are spines and not end nodes, leaves are not end nodes, and plane-1 leaves are counted as pods |
| OpenFlow.NameFromOfId | odl/odl_utils/of.py:640-645 | the name of the first bridge with the OpenFlow id; none exactly when no bridge has it |
| Bytes.WindowInside | daqswitch/dp/voq_swq/dp_lcore_default.c:147-204 | inside the received frame, the bytes read are the frame's own bytes |
| Bytes.Sub64 | daqswitch/dp/oq_hwq/dp_oq_hwq.c:547 | the cycle difference is the plain difference, or wraps by 2^64 when the counter is behind |
| Bytes.Le16RoundTrip | daqswitch/dp/voq_swq/dp_lcore_default.c:38-78 | a 16-bit little-endian load and store are inverse |
| Bytes.Le32RoundTrip | daqswitch/dp/voq_swq/dp_lcore_default.c:38-78 | a 32-bit little-endian load and store are inverse |
| FlowKey.KeyOfFields | daqswitch/dp/voq_swq/dp_lcore_default.c:38-78 | the key's bytes are the copied header and application slabs, and each field is read from its place in them |
| Delivery.FreeSlotLast | daqswitch/dp/voq_swq/dp_lcore_default.c:312-328 | with the first 63 slots busy, the free-slot scan claims slot 63 |
| PipelineDefault.HitStepDefault | daqswitch/pipeline/pipeline_default.c:226-336 | one packet step of the default pipeline's hit handler keeps the output-queue view well formed |
| PipelineDefault.HitAllDefault | daqswitch/pipeline/pipeline_default.c:226-336 | the handler over a burst keeps the output-queue view well formed |
| OqTx.LogOnSentAll | daqswitch/dp/oq_hwq/dp_oq_hwq.c:144-155 | a burst sent on one port is received by that port only, whole and in order |
| OqTx.AccountedRun | daqswitch/dp/oq_hwq/dp_oq_hwq.c:673-689 | handing one run to its port's buffer keeps every packet accounted for up to the run's end |
| OqTx.AccountedDrainStep | daqswitch/dp/oq_hwq/dp_oq_hwq.c:554-561 | flushing one port's buffer keeps every packet accounted for |
| VoqHwq.CpuToBe32 | daqswitch/dp/voq_hwq/dp_voq_hwq.c:358 | the big-endian store of an address reverses its little-endian bytes |
| VoqHwq.ConfiguredQueue | daqswitch/dp/voq_hwq/dp_voq_hwq.c:450-469 | the q-th queue of a worker serves its q-th port on tx queue 0 with rx id the running count plus q, modulo 256, reading all ports |
| VoqHwq.FoundAtPosition | daqswitch/dp/voq_hwq/dp_voq_hwq.c:303-307 | a port's queue is found on its own worker at the port's position there |
| VoqHwq.NotOnOtherLcore | daqswitch/dp/voq_hwq/dp_voq_hwq.c:303-307 | a worker that does not serve the port has no queue for it |
| Daqswitch.Switch.SizePort | daqswitch/daqswitch/daqswitch_port.h:51-109 | the datapath's sizing is applied to one port and nothing else changes |
| Daqswitch.Switch.ConfigureNext | daqswitch/daqswitch/daqswitch.c:173-176 | configuring one more port extends the specified configuration by that port |


## Left out

- **Infinite poll loops, TSC cycle counters and `rte_delay_*`.** One pass is modelled, with the current time as a parameter. The uninitialised poll and drain stamps are arbitrary constructor arguments.
- **DPDK internals.** `rte_lpm`, the `rte_ring` implementation, the `rte_pipeline` engine, `rte_eth_*`, mempools and `rte_eal_mp_remote_launch` are foreign libraries. They appear only through the abstract state and outcome parameters described above.
- **SIMD.** The SSE intrinsics of `processx4_step1/2` and `port_groupx4` are left out: the `gptbl` table and the byte-swap shuffle. Only their lookup and grouping semantics are modelled, lane by lane.
- **Concurrency.** Multi-producer ring safety, unsynchronised reads of `active_flows` and the non-thread-safe slot writes are not modelled; the model is sequential.
- **Statistics.** The per-queue packet counters of daqswitch/stats/stats.h appear as ghost logs in the data lcores. DefaultLcore.RxActionHandler is the exception: it returns the default lcore's per-port packet and burst counters as values. The hit handler's per-packet `total_packets` and `total_bursts` increments on the default transmit queue (daqswitch/dp/voq_swq/dp_lcore_default.c:252-253) are not modelled: they are counters only, and no decision of the handler reads them. daqswitch/stats/stats.c (floating-point bandwidth, `usleep`, printing) is not part of this model.
- **Startup and shell glue.** The CLI, argument parsing and `main` are not part of this model. Neither is the empty message handler of daqswitch_msg.c or the skeleton datapath.
- **Debug output.** `dp_dump_cfg`, `pipeline_dump_cfg`, `dump_pkt`, `daqswitch_ipv4_flow_array_dump`, `Dcm.show_info` and `Topology.show` print only.
- **`wait_all_links_up`.** It polls link state over time.
- **Promiscuous mode.** `daqswitch_port_start` switches it on; it has no state the model keeps.
- **The 5-tuple variant of voq_hwq.** The `DP_VOQ_HWQ_USE_5TUPLE` branch is compile-time. The destination-only filter branch is modelled.
- **The message ring transport.** The request ring of `pipeline_msg_handle` is a sequence of pending requests; its memory and the response ring are not modelled.
- **Controller I/O.** rest.py, output.py and the scripts under odl/examples are not part of this model.
  - `of.py` parts not modelled: `scan_dcms` (ssh and `ss` parsing), `load_dcms` (pickle), `show_bandwidth` (floats, sleep), `check_links`, `clear_flows`, `get_port_status`, `get_port_stats` and `Topology.__update`.
  - `of.py` path selection not modelled: `install_path`, `is_path_available`, `is_path_up`, `spine_in_use` and the default, drop, LLDP and DHCP flow setters. `install_path` chooses the plane, the pod node and the end nodes, and decides per hop whether daqrings are used. `is_path_available` combines the per-path checks. `spine_in_use` picks the first spine with installed flows. This is path-selection logic over the REST state of the controller. It lies outside the modelled core, which covers the flow-id scheme, the subpath install and the removal these functions build on.
  - `ovsdb.py`: the `connect` and `create_bridge` retry and sleep loops are left out, and so is `remove_node`. Every REST reply is a parameter, including its malformed forms where the code lets a KeyError or IndexError through (a server node without connection info, a manager reply without its entry or flag). Topology nodes are taken to carry a 'node-id'.
- **Kernel module registration.** `module_init` and `module_exit` of tcp-static.c are not modelled.
- Text.ParseNat: Python's `int()` also accepts surrounding whitespace, a sign and underscores between digits. The model accepts only plain digit strings, which is what the helpers' inputs hold.
- Daqswitch.Switch.FlowAdd: the source appends to the 1024-entry flow log without a bound check. The model requires room in the log rather than modelling the overflow.
- PipelineData.ConfigureRxData: the source appends to the 32-entry registry of RX data pipelines without a bound check. The model requires room rather than modelling the overflow.
- Masks.LowMaskBits: `~0 >> (64 - n)` is undefined in C for an empty burst. The model answers 0 there, and the lemma covers 1 <= n <= 64 only.
- PipelineDefault.InstallPair: the source stops the switch with `RTE_VERIFY(ret == 0)` when the NIC refuses a flow-director add (daqswitch/pipeline/pipeline_default.c:287 and 319). The model takes every add to succeed, so the hit handlers never stop there.
- PipelineDefault.HandleHit: the `rte_eth_set_queue_rate_limit(pkt->port, fdir_id + 1, 1000)` call after the first add (daqswitch/pipeline/pipeline_default.c:288) is not modelled. Its result is ignored and it changes no state the model keeps.
- FlowDetect.Install: the source stops the switch with `RTE_VERIFY(ret == 0)` when the NIC refuses the add (daqswitch/dp/voq_swq/dp_lcore_default.c:356 and 449). The model logs the request and takes it to succeed.
- HwqLcores.ConfigureLcoreParams: requires at least one worker lcore. With none, the `while(1)` search of daqswitch/dp/voq_hwq/dp_voq_hwq.c:225-235 never ends, and the model does not model the hang.
- Text.ParseHex: Python's `int(s, 16)` also accepts a `0x`/`0X` prefix, surrounding whitespace, a sign and underscores. The model accepts only plain hexadecimal digit strings. Datapath ids carry none of these once their colons are removed.
- TcpStatic.Run: `static_cwnd` is fixed over a trace. A write to the module parameter through sysfs (mode 0644) between callbacks is modelled as the start of a new trace.
- Pipeline.Pipeline.InternalPortInId: corrected (see Findings); the scan of `q_in` bounded by `nb_q_out` (daqswitch/pipeline/pipeline.c:82-83) is not modelled here. Pipeline.EnableInAsWritten models it, and Pipeline.EnableInAsWrittenMissesInput shows the input it misses.
- Pipeline.Pipeline.EnablePortIn: corrected (see Findings); built on the `nb_q_in`-bounded scan. The `nb_q_out` bound as written is Pipeline.EnableInAsWritten.
- PipelineData.ConfigureTxData: corrected (see Findings); compares the output count with the input count. The assignment inside `RTE_VERIFY` (daqswitch/pipeline/pipeline_tx_data.c:79) is PipelineData.TxOutCountAsWritten.
- DataLcores.RingTable.InitRings: corrected (see Findings); creates 64 rings per port. The 63 rings of daqswitch/dp/voq_swq/dp_voq_swq.c:54 are Rings.CreatedAsWritten.
- DataLcores.TxWorker.DrainFlow: corrected (see Findings); tests `active_flows` with a 64-bit shift. The 32-bit `1 << i` of daqswitch/dp/voq_swq/dp_lcore_data_tx.c:67 is FlowDetect.ShiftBitsAsWritten.
- FlowDetect.ActivateFlows: corrected (see Findings); sets the slot with a 64-bit shift. The 32-bit `1 << flow_id` of daqswitch/dp/voq_swq/dp_lcore_default.c:323 is FlowDetect.ShiftBitsAsWritten.
- FlowKey.DecodeKey: corrected (see Findings); reads the application header only when it lies inside the datagram. The wrapping `size_t` test of daqswitch/dp/voq_swq/dp_lcore_default.c:182-183 is FlowKey.DecodeKeyAsWritten, with FlowKey.PayloadTestAsWritten.
- VoqSwq.Datapath.HandleSide: corrected (see Findings); built on the 64-bit slot shift and the 64-ring table. The code as written is FlowDetect.ShiftBitsAsWritten and Rings.CreatedAsWritten.
- OpenFlow.Steps: corrected (see Findings); takes a link when its source node is exactly this bridge. The substring test of odl/odl_utils/of.py:477 is OpenFlow.ParseLinkAsWritten.
- OpenFlow.PortsFromSpec: corrected (see Findings); uses the exact node match. The substring test of odl/odl_utils/of.py:477 is OpenFlow.ParseLinkAsWritten.
- OpenFlow.ParseLinks: corrected (see Findings); uses the exact node match. The substring test of odl/odl_utils/of.py:477 is OpenFlow.ParseLinkAsWritten.
- OpenFlow.GetPodEndnodes: corrected (see Findings); compares the pod id read from each name. The substring test of odl/odl_utils/of.py:682 is OpenFlow.InPodAsWritten.
- Pipeline.Pipeline.HandleMsg: corrected (see Findings); built on the `nb_q_in`-bounded input scan. The `nb_q_out` bound of daqswitch/pipeline/pipeline.c:82-83 is Pipeline.EnableInAsWritten.
- PipelineData.AddDataFlow: corrected (see Findings); built on the `nb_q_in`-bounded input scan. The `nb_q_out` bound of daqswitch/pipeline/pipeline.c:82-83 is Pipeline.EnableInAsWritten.
- DefaultLcore.RxActionHandler: corrected (see Findings); built on the in-datagram length test of FlowKey.DecodeKey. The wrapping `size_t` test of daqswitch/dp/voq_swq/dp_lcore_default.c:182-183 and daqswitch/pipeline/pipeline_default.c:137-138 is FlowKey.DecodeKeyAsWritten.
- DefaultLcore.DecodeAll: corrected (see Findings); built on the in-datagram length test of FlowKey.DecodeKey. The wrapping `size_t` test of daqswitch/dp/voq_swq/dp_lcore_default.c:182-183 and daqswitch/pipeline/pipeline_default.c:137-138 is FlowKey.DecodeKeyAsWritten.
- FlowKey.DecodeDefaultKey: corrected (see Findings); built on the in-datagram length test of FlowKey.DecodeKey. The wrapping `size_t` test of daqswitch/dp/voq_swq/dp_lcore_default.c:182-183 and daqswitch/pipeline/pipeline_default.c:137-138 is FlowKey.DecodeKeyAsWritten.
- PipelineDefault.RxActionHandler: corrected (see Findings); built on the in-datagram length test of FlowKey.DecodeKey. The wrapping `size_t` test of daqswitch/dp/voq_swq/dp_lcore_default.c:182-183 and daqswitch/pipeline/pipeline_default.c:137-138 is FlowKey.DecodeKeyAsWritten.
- PipelineDefault.FillKeys: corrected (see Findings); built on the in-datagram length test of FlowKey.DecodeKey. The wrapping `size_t` test of daqswitch/dp/voq_swq/dp_lcore_default.c:182-183 and daqswitch/pipeline/pipeline_default.c:137-138 is FlowKey.DecodeKeyAsWritten.
- FlowDetect.ClaimSlot: corrected (see Findings); built on the 64-bit slot activation. The 32-bit `1 << flow_id` of daqswitch/dp/voq_swq/dp_lcore_default.c:323 is FlowDetect.ShiftBitsAsWritten.
- FlowDetect.Side: corrected (see Findings); built on the 64-bit slot activation. The 32-bit `1 << flow_id` of daqswitch/dp/voq_swq/dp_lcore_default.c:323 is FlowDetect.ShiftBitsAsWritten.
- FlowDetect.HitStep: corrected (see Findings); built on the 64-bit slot activation. The 32-bit `1 << flow_id` of daqswitch/dp/voq_swq/dp_lcore_default.c:323 is FlowDetect.ShiftBitsAsWritten.
- FlowDetect.HitAll: corrected (see Findings); built on the 64-bit slot activation. The 32-bit `1 << flow_id` of daqswitch/dp/voq_swq/dp_lcore_default.c:323 is FlowDetect.ShiftBitsAsWritten.
- FlowDetect.HitStepSpec: corrected (see Findings); built on the 64-bit slot activation. The 32-bit `1 << flow_id` of daqswitch/dp/voq_swq/dp_lcore_default.c:323 is FlowDetect.ShiftBitsAsWritten.
- FlowDetect.SideKeepsRouted: corrected (see Findings); built on the 64-bit slot activation. The 32-bit `1 << flow_id` of daqswitch/dp/voq_swq/dp_lcore_default.c:323 is FlowDetect.ShiftBitsAsWritten.
- FlowDetect.HitStepKeepsRouted: corrected (see Findings); built on the 64-bit slot activation. The 32-bit `1 << flow_id` of daqswitch/dp/voq_swq/dp_lcore_default.c:323 is FlowDetect.ShiftBitsAsWritten.
- FlowDetect.HitAllKeepsRouted: corrected (see Findings); built on the 64-bit slot activation. The 32-bit `1 << flow_id` of daqswitch/dp/voq_swq/dp_lcore_default.c:323 is FlowDetect.ShiftBitsAsWritten.
- FlowDetect.HitAllAppendsOnly: corrected (see Findings); built on the 64-bit slot activation. The 32-bit `1 << flow_id` of daqswitch/dp/voq_swq/dp_lcore_default.c:323 is FlowDetect.ShiftBitsAsWritten.
- DataLcores.TxFlows: corrected (see Findings); built on the 64-bit `active_flows` test. The 32-bit `1 << i` of daqswitch/dp/voq_swq/dp_lcore_data_tx.c:67 is FlowDetect.ShiftBitsAsWritten.
- DataLcores.TxFlowsStopped: corrected (see Findings); built on the 64-bit `active_flows` test. The 32-bit `1 << i` of daqswitch/dp/voq_swq/dp_lcore_data_tx.c:67 is FlowDetect.ShiftBitsAsWritten.
- DataLcores.TxWorker.Pass: corrected (see Findings); built on the 64-bit `active_flows` test. The 32-bit `1 << i` of daqswitch/dp/voq_swq/dp_lcore_data_tx.c:67 is FlowDetect.ShiftBitsAsWritten.
- DataLcores.TxWorker.DrainFlows: corrected (see Findings); built on the 64-bit `active_flows` test. The 32-bit `1 << i` of daqswitch/dp/voq_swq/dp_lcore_data_tx.c:67 is FlowDetect.ShiftBitsAsWritten.
- DataLcores.CreatedUnique: corrected (see Findings); built on the 64-ring table of Rings.Created. The rings for slots 0..62 only of daqswitch/dp/voq_swq/dp_voq_swq.c:54 are Rings.CreatedAsWritten, and Delivery.Slot63AsWritten shows a claimed slot without a ring.
- Delivery.RoutedFilter: corrected (see Findings); built on the 64-ring table of Rings.Created. The rings for slots 0..62 only of daqswitch/dp/voq_swq/dp_voq_swq.c:54 are Rings.CreatedAsWritten, and Delivery.Slot63AsWritten shows a claimed slot without a ring.
- Delivery.DeliverOne: corrected (see Findings); built on the 64-ring table of Rings.Created. The rings for slots 0..62 only of daqswitch/dp/voq_swq/dp_voq_swq.c:54 are Rings.CreatedAsWritten, and Delivery.Slot63AsWritten shows a claimed slot without a ring.
- Delivery.DeliverTotal: corrected (see Findings); built on the 64-ring table of Rings.Created. The rings for slots 0..62 only of daqswitch/dp/voq_swq/dp_voq_swq.c:54 are Rings.CreatedAsWritten, and Delivery.Slot63AsWritten shows a claimed slot without a ring.
- Delivery.RxPassTotal: corrected (see Findings); built on the 64-ring table of Rings.Created. The rings for slots 0..62 only of daqswitch/dp/voq_swq/dp_voq_swq.c:54 are Rings.CreatedAsWritten, and Delivery.Slot63AsWritten shows a claimed slot without a ring.
- Delivery.TxPassTotal: corrected (see Findings); built on the 64-ring table of Rings.Created. The rings for slots 0..62 only of daqswitch/dp/voq_swq/dp_voq_swq.c:54 are Rings.CreatedAsWritten, and Delivery.Slot63AsWritten shows a claimed slot without a ring.
- Delivery.FilteredTrafficDelivered: corrected (see Findings); built on the 64-bit slot activation and the 64-ring table. The code as written is FlowDetect.ShiftBitsAsWritten and Rings.CreatedAsWritten.
- VoqSwq.Datapath.HandleHit: corrected (see Findings); built on the 64-bit slot activation and the 64-ring table. The code as written is FlowDetect.ShiftBitsAsWritten and Rings.CreatedAsWritten.
- VoqSwq.Datapath.TableActionHandlerHit: corrected (see Findings); built on the 64-bit slot activation and the 64-ring table. The code as written is FlowDetect.ShiftBitsAsWritten and Rings.CreatedAsWritten.
- OpenFlow.Bridge.Create: corrected (see Findings); uses the exact node match. The substring test of odl/odl_utils/of.py:477 is OpenFlow.ParseLinkAsWritten.
- PipelineData.AddDataFlow: the flow-director API takes the RX queue as a `uint8_t`. The model passes the 16-bit queue id unchanged, because queue ids stay below DAQSWITCH_MAX_QUEUES_PER_PORT (64, daqswitch/daqswitch/daqswitch.h:40).


## Findings

| source | as written | input that shows it | evidently intended | confidence | as-written member | corrected member |
|---|---|---|---|---|---|---|
| daqswitch/dp/voq_swq/dp_lcore_default.c:323 | `1 << flow_id` here and `1 << i` at dp_lcore_data_tx.c:67 are 32-bit `int` shifts, OR-ed into or tested against the 64-bit `active_flows` mask | slot 31 sets bits 31..63 after sign extension, so ring 63 counts as polled; slot 32 sets bit 0 | a 64-bit shift, so slot k sets bit k and only bit k | not executed | FlowDetect.ShiftAsWrittenCounterexample | FlowDetect.ActivateKeepsPolling |
| daqswitch/dp/voq_swq/dp_voq_swq.c:54 | `init_rings` creates rings 0..62 of every port, but slot 63 can be claimed | slots 0..62 of a port active: the handler claims slot 63, and its first packet finds no ring | one ring per data-flow slot, 0..63 | not executed | Delivery.Slot63AsWritten | Rings.Created |
| daqswitch/pipeline/pipeline.c:82-83 | `get_internal_port_in_id` bounds its scan of `q_in` by `nb_q_out` | two inputs and one output: enabling input (1, q) finds nothing | scan the `nb_q_in` inputs | not executed | Pipeline.EnableInAsWrittenMissesInput | Pipeline.EnableIn |
| daqswitch/pipeline/pipeline_tx_data.c:79 | `RTE_VERIFY(params->nb_q_out = params->nb_q_in)` assigns | two rings and one registered output pass the check; a pipeline with no inputs panics | compare the two counts | not executed | PipelineData.TxOutCountAsWrittenDiffers | PipelineData.TxOutCount |
| daqswitch/dp/voq_swq/dp_lcore_default.c:182-183 | the application-header length test subtracts in `size_t` and wraps | a 60-byte TCP frame with IPv4 total length 20 passes, and the header is read past the datagram | the header must lie inside the datagram | not executed | FlowKey.ShortFramePassesAsWritten | FlowKey.AppHeaderInsideDatagram |
| odl/odl_utils/of.py:477 | a link is taken when the decimal bridge id occurs anywhere in its link id | bridge 1 takes the link of bridge 5's port 1, 'openflow:5:1', as its own port 1 | match the node id of the link's source exactly | not executed | OpenFlow.LinkSelectionOverreaches | OpenFlow.ParseLinkOfConnectors |
| odl/odl_utils/of.py:682 | `get_pod_endnodes(i)` keeps names containing `'pod-<i>'` | pod 1 also receives the end nodes of pod 12 | compare the pod id read from the name | not executed | OpenFlow.PodEndnodesAsWrittenOverreach | OpenFlow.InPodExactly |
