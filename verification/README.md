# A verified model of CoreIR's circuit rewriting, simulator and generators

CoreIR keeps hardware as graphs: a module definition holds instances and connections between
wireables, passes rewrite these graphs, a simulator evaluates them, and generators build them.
This project models the parts whose correctness spans many functions and proves what they
promise. Run `dafny verify dfyconfig.toml`.

**Circuit rewriting** (`Wires`, `Names`, `InstanceOrder`, `ModuleDefs`, `Chains`, `Loops`, `Runs`,
`Inline`, `Passthroughs`, `Boundaries`, `Validation`, `Drivers`, `InlineInstances`). A wireable is
the path of selects that leads to it from an instance or from the interface `self`. A connection
joins wireables of opposite type, at any level of their select trees, and so joins their bits
pairwise. `ModuleDef` is the mutable definition. An assertion of the program that would stop it is a
result `ok == false`; the contracts say what holds when the program goes on, and for most operations
exactly when it does. Inlining is proved at the level of single bits: `Chains` shows that combining
two levels of a passthrough loses no path of bits and adds none, `Inline` follows the recursion over
both select trees with the set of pairs of levels still to be combined, and `Boundaries` and
`InlineInstances` compose two such passthroughs into the inlining of an instance. `Loops`, `Runs`
and `Drivers` say when no connection is made twice, so that inlining goes on: a path of bits that
comes back to where it started is kept by every step and cannot be left at the end, and without one,
where every input bit has one driver, there is one path between two bits, which is kept as well. The
names of the temporary passthroughs are the program's own.

**Simulator** (`Circuits`, `Simulator`). A circuit is a graph whose vertices are inputs, operators
(an arbitrary function of the arguments), and an output and a receiver for every register and
memory. The two settle passes, the clocked update and the composite step are functions on the
values of all ports; the class `SimulatorState` computes exactly these on the current recorded
state, whose clock values are objects. `Timeline` is the history as a value, and every command of
the class is proved to be one step of it.

**Graph algorithms** (`Walks`, `Graphs`, `TopologicalOrder`, `Components`, `Pruning`), **bit vectors**
(`Arithmetic`, `BitVectors`, `BitVectorText`), **generated hardware** (`MuxTrees`, `Serializers`) and
**pass scheduling** (`PassManagers`) are modelled the same way: loops over mutable state as methods,
proved against values, and the promises as lemmas about these values.

Where the code does not do what a reader might expect, there is an input and the exact condition:

- Two settle passes do not settle every circuit without loops. They do for all contents, inputs and
  operators exactly if no memory that is read before its address is updated has an address that
  depends on another such memory (`SettlesExactly`, with `ChainedMemoriesUnsettled`; other chained
  memories are settled, `ChainedMemoriesSettled`).
- Reset and overflow set a counter to zero, not to its minimum: it stays within its bounds in every
  run exactly if the minimum is zero or the only value (`StaysInRange`). And it can leave its width
  without overflowing, exactly if a sum beyond it is reached before the maximum (`StepsExactly`,
  `WrappingCounter`).
- A half cycle that finds an input that is not set flips the clock of a recorded state; exactly then
  a half cycle changes one (`RunHalfCycle`).
- Printing a vector in hexadecimal and reading it back is the identity exactly if no group of four
  bits mixes kinds of value (`HexRoundTrip`, `MixedGroup`).
- A negative integer wider than 32 bits is not extended by its sign (`SignExtended`), and of vectors
  of different widths the narrower counts as less than an equal one (`Less`).
- Inlining an instance can stop on a connection that is there already, although validation accepts
  both definitions. For two definitions it accepts and free names it goes on exactly if no bit is
  reached from itself by connections outside and inside that change sides at the instance's ports
  (`InlineInstance`); with such a loop it always stops. `InlineLoop` is an input that does.
- Rewinding by a negative number goes forward, and beyond the last recorded state unless one is there
  (`Rewind`).

## Model

| member | source | states |
|---|---|---|
| Wires.FlipTwice | include/coreir/ir/types.h:49 | flipping a type twice gives the type back |
| Wires.FlipDiffers | include/coreir/ir/types.h:49 | a type with at least one bit is never its own flip, so no wireable fits itself |
| Wires.FlipSelPath | src/ir/types.cpp:44-67 | selecting from a flipped type gives the flip of what is selected, along any path, and fails for the same paths |
| Wires.SelPathAppend | src/ir/types.cpp:102-108 | selecting along two paths one after the other is selecting along their concatenation |
| InstanceOrder.InstanceIter.Append | src/ir/moduledef.cpp:162-187 | the pointers describe the old walk with the new instance at its end |
| InstanceOrder.InstanceIter.Remove | src/ir/moduledef.cpp:189-207 | the pointers describe the old walk without the instance, in the same order, for first, last, middle and only instances |
| InstanceOrder.RemoveDescribes | src/ir/moduledef.cpp:189-207 | redirecting the two neighbours and the two ends leaves a proper doubly linked list of the rest |
| InstanceOrder.InstanceIter.Walk | src/ir/moduledef.cpp:209-215 | following the next pointers from the first instance visits exactly the live instances in insertion order |
| ModuleDefs.ModuleDef.constructor | src/ir/moduledef.cpp:15-22 | a new definition has no instance and no connection, and only its interface as wireable |
| ModuleDefs.ModuleDef.Sel | src/ir/wireable.cpp:25-38 | succeeds exactly if the label is an index below the length of an array or the name of a field of a record; an existing wireable and its neighbours are kept, a new one starts unconnected |
| ModuleDefs.ModuleDef.SelPath | src/ir/moduledef.cpp:148-154 | succeeds exactly if the path is typed; afterwards exactly the wireables on the path have been added |
| ModuleDefs.ModuleDef.Connect | src/ir/moduledef.cpp:279-311 | goes on exactly if the types are flips and the connection is new; then both orders of exactly this pair are added, and neighbours, annotations and wireables stay consistent |
| ModuleDefs.ModuleDef.ConnectPaths | src/ir/moduledef.cpp:313-315 | as Connect, selecting both paths first |
| ModuleDefs.ModuleDef.Disconnect | src/ir/moduledef.cpp:349-381 | goes on exactly if the connection exists; exactly this connection and its annotation are gone |
| ModuleDefs.ModuleDef.DisconnectWire | src/ir/moduledef.cpp:343-347 | exactly the connections at the wireable and their annotations are gone |
| ModuleDefs.ModuleDef.DisconnectAll | src/ir/wireable.cpp:84-87 | exactly the connections at or below the wireable and their annotations are gone |
| ModuleDefs.ModuleDef.SetMetaData | src/ir/moduledef.cpp:383-392 | an annotation can be attached exactly to existing connections, from either end |
| ModuleDefs.ModuleDef.AddInstance | src/ir/moduledef.cpp:219-246 | goes on exactly if the name is unused; adds the instance to the map and at the end of the walk, and its root wireable |
| ModuleDefs.ModuleDef.RemoveInstance | src/ir/moduledef.cpp:399-422 | goes on exactly if the instance exists; its connections, annotations and wireables are gone, all others are kept, and the walk keeps its order |
| ModuleDefs.ModuleDef.Copy | src/ir/moduledef.cpp:79-98 | another definition with instances of the same names and types, walked in the order of their names, and exactly the same connections |
| Names.AscendingUnique | src/ir/moduledef.cpp:85-88 | a list of names in the order of the map is determined by which names it lists |
| Names.FirstDifference | src/ir/moduledef.cpp:85-88 | one name comes before another exactly if, where they first differ, it ends or has the smaller character |
| Names.HasFirst | src/ir/moduledef.cpp:85-88 | of any names one comes before all others |
| Names.SortedFirst | src/ir/moduledef.cpp:85-88 | the names in order are the first one and then the others in order |
| ModuleDefs.ConnectWiring | src/ir/moduledef.cpp:300-306 | adding each end to the neighbours of the other keeps neighbours, connections, types and annotations consistent |
| ModuleDefs.DisconnectWiring | src/ir/moduledef.cpp:369-380 | removing a connection from both neighbour sets and its annotation keeps everything consistent |
| ModuleDefs.RemoveWiring | src/ir/moduledef.cpp:411-422 | once its connections are gone, dropping an instance's wireables leaves nothing that refers to it |
| Chains.Eliminate | src/ir/inline.cpp:22-32 | a chain of connections and crossings that crosses between two combined levels can be replaced by one that does not, ending at the same bits |
| Chains.EliminateAll | src/ir/inline.cpp:22-32 | so combining two levels keeps every pair of bits driven when that pair of levels is no longer crossed |
| Chains.MergeSound | src/ir/inline.cpp:22-32 | combining two levels wires no bits that were not wired across the two sides before |
| Chains.AltToDrives | src/ir/inline.cpp:174-183 | an alternation of wired bits and crossings of a passthrough is a chain of connections of whole wireables |
| Chains.AllCombined | src/ir/inline.cpp:42-82 | when all levels are combined, bits away from the passthrough are wired exactly as they were across it by connections that are not made above its sides |
| Loops.ClosedKept | src/ir/inline.cpp:22-32 | combining two levels keeps a path that comes back to where it started, in other steps if it crossed between these levels |
| Loops.LoopCloses | src/ir/inline.cpp:42-82 | a bit that is reached from itself across the sides is on such a path of whole connections |
| Loops.NothingClosed | src/ir/inline.cpp:42-82 | there is none once all levels are combined |
| Runs.OneRunKept | src/ir/inline.cpp:22-32 | combining two levels leaves at most one path between two bits where there was at most one |
| Runs.DrivenOneRun | src/ir/inline.cpp:42-82 | with one driver for every input bit, and no bit reached from itself across the sides, no two bits are joined by two paths |
| Inline.MergeConnections | src/ir/inline.cpp:22-32 | every neighbour of the one wireable, selected at the offset, is connected to every neighbour of the other, and nothing else changes; goes on whenever no such connection exists or arises twice |
| Inline.NeighbourLevel | src/ir/inline.cpp:42-47 | what is connected to a level of one side lies at no comparable level of either side, except the same level of the other side |
| Inline.CrossingMerged | src/ir/inline.cpp:22-32 | the connections made at two levels are all and only the combinations of their connections, and none attaches to the two levels themselves |
| Inline.ConnectOffsetLevel | src/ir/inline.cpp:16-39 | all levels of the one side at or below the offset are combined with one level of the other: no path of bits is lost and none is added; goes on whenever no two bits are joined by two paths, or all is moved back to one wireable, which moves every connection |
| Inline.ConnectSameLevel | src/ir/inline.cpp:42-82 | all pairs of levels at or below the given ones are combined, in the order the code takes them, losing and adding no path of bits; goes on whenever no two bits are joined by two paths, or all is moved back to one wireable |
| Inline.SingleUnconnected | src/ir/inline.cpp:22-32 | where no two bits are joined by two paths, combining two levels makes no connection that exists and none twice |
| Inline.SameChildClosed | src/ir/inline.cpp:57-60 | what one label's recursion has combined does not disturb the pairs still to be combined below another label |
| Inline.SameEnd | src/ir/inline.cpp:57-79 | pairs of levels the code never visits have no connections |
| Inline.MovedAll | src/ir/inline.cpp:35-39 | levels below labels that were never selected have nothing to move |
| Passthroughs.InlinePassthrough | src/ir/inline.cpp:174-183 | bits away from the passthrough are wired afterwards exactly if they were wired before across its two sides, by connections other than those of the passthrough as a whole; exactly the instance is gone, the order of the others is kept; goes on only if no bit is reached from itself across it, and exactly then if every input bit has one driver |
| Passthroughs.AllOpen | src/ir/inline.cpp:42-82 | where a bit is reached from itself across the passthrough, not all of its levels can be combined |
| Passthroughs.DrivenSingle | src/ir/inline.cpp:42-82 | where none is and every input bit has one driver, no two bits are joined by two paths across it |
| Passthroughs.PTTraverse | src/ir/inline.cpp:101-134 | exactly the connections at or below the wireable are moved to the same places below the other, also those between two such places |
| Passthroughs.MoveNeighbours | src/ir/inline.cpp:102-107 | connecting to all neighbours and disconnecting from them replaces one end by the other and changes nothing else |
| Passthroughs.CheckParents | src/ir/inline.cpp:148-154 | accepts exactly if nothing the wireable was selected from is connected |
| Passthroughs.AddPassthrough | src/ir/inline.cpp:142-171 | goes on exactly if no select-parent is connected and the name is unused; then all connections at or below the wireable are on the out side, and the wireable has one to the in side |
| Passthroughs.AddThenInline | src/ir/inline.cpp:142-183 | inlining the passthrough just added succeeds and restores every connection, every instance and their order, also where two places of the wireable are connected with each other |
| Passthroughs.MovedBackRestores | src/ir/inline.cpp:142-183 | moving connections to the out side and back is the identity on connection sets |
| InlineInstances.BringInstances | src/ir/inline.cpp:241-257 | goes on exactly if the names are free; then the definition's instances are added under the prefix, with their types, at the end of the walk in the order of their names, and nothing else is |
| InlineInstances.BringConnections | src/ir/inline.cpp:259-271 | exactly the definition's connections away from its interface are added, under the prefix |
| InlineInstances.QuarantineInside | src/ir/inline.cpp:234-237 | the copy has all connections of the interface on the out side of a passthrough; fails exactly if its name is taken |
| InlineInstances.QuarantineOutside | src/ir/inline.cpp:273-281 | goes on exactly if the name is free; then the instance is replaced by a passthrough whose in side is joined with the one inside |
| Boundaries.AssembledQuarantined | src/ir/inline.cpp:234-281 | after these steps the connections are those of both definitions with the two passthroughs in place of the instance and the interface |
| Boundaries.QuarantinedBits | src/ir/inline.cpp:273-281 | a bit is wired there exactly if both are on the joined in sides, or what they stand for was wired |
| Boundaries.BoundaryForth | src/ir/inline.cpp:273-286 | every path of bits over the two passthroughs is one that changes sides at the instance's ports |
| Boundaries.BoundaryBack | src/ir/inline.cpp:273-286 | every path of bits that changes sides at the instance's ports is one over the two passthroughs |
| Boundaries.SummaryAltBack | src/ir/inline.cpp:283-286 | inlining the two passthroughs one after the other reaches all that crossing both reaches |
| InlineInstances.InlinedBoth | src/ir/inline.cpp:283-286 | so after both are inlined bits are wired exactly as over the ports |
| InlineInstances.InlineInstance | src/ir/inline.cpp:201-286 | surviving bits are wired afterwards exactly if connections outside and inside wired them, with port p of the instance identified with self.p, feedthroughs included; the instances are those outside without the instance and then, in the order of their names, those inside under the prefix; without a definition nothing changes; goes on only if the names are free and no bit is reached from itself over the ports, and exactly then if both definitions have one driver for every input bit |
| InlineInstances.WalkWithout | src/ir/inline.cpp:241-286 | bringing instances in name order, adding and removing the passthroughs and removing the instance comes to that walk |
| InlineInstances.LoopValidated | src/ir/moduledef_validate.cpp:97-121 | an instance whose output is connected to its input, and a definition that does the same with its interface, both with one driver for every input bit |
| InlineInstances.LoopCircular | src/ir/inline.cpp:283-286 | there a bit is reached from itself over the ports |
| InlineInstances.InlineLoop | src/ir/inline.cpp:201-286 | built and inlined, this instance stops |
| Drivers.SingleMeansOne | src/ir/moduledef_validate.cpp:62-93 | what validation counts for input bits says that every input bit is covered by one connection, from one side |
| Drivers.HalfwayDrivers | src/ir/inline.cpp:283-286 | every input bit has one driver after the first passthrough is inlined if it had one in both definitions |
| Drivers.HalfwayLoops | src/ir/inline.cpp:283-286 | after the first passthrough is inlined a bit is reached from itself across the second exactly if one was over the ports |
| Validation.InputLeaf | src/ir/types.cpp:110-127 | a type that has an input has a bit that is one |
| Validation.InputBelow | src/ir/types.cpp:110-127 | if some select of a type has an input, so has the type |
| Validation.CheckInputConnected | src/ir/moduledef_validate.cpp:43-57 | an error exactly if some wireable with an input, at or below the given one, is connected |
| Validation.CheckInputOutputs | src/ir/moduledef_validate.cpp:62-93 | an error exactly if some input bit at or below has more than one connection counted over itself and what lies between |
| Validation.OnceConnected | src/ir/moduledef_validate.cpp:77-88 | below a wireable connected once, any connected input is one too many, and nothing else is |
| Validation.Validate | src/ir/moduledef_validate.cpp:97-121 | no error exactly if all connections join flipped types and every input bit has at most one connection over itself and all it was selected from |
| BitVectors.Add | include/coreir/ir/dynamic_bit_vector.h:581-605 | the sum modulo the width for binary operands, and all unknown exactly if some operand bit is not binary |
| BitVectors.Borrow | include/coreir/ir/dynamic_bit_vector.h:622-631 | the inner loop takes one from the bits above, with wrap-around when there is no one to take |
| BitVectors.Sub | include/coreir/ir/dynamic_bit_vector.h:607-645 | known exactly if every bit of the subtrahend is binary and every unknown bit of the minuend is reached by a borrow; then the difference modulo the width, with unknown bits of the minuend as zero; otherwise all unknown |
| BitVectors.Negate | include/coreir/ir/dynamic_bit_vector.h:708-712 | two's complement of a binary vector, all unknown for any other |
| BitVectors.Mul | include/coreir/ir/dynamic_bit_vector.h:647-667 | the product modulo the width for a binary multiplicand |
| BitVectors.AddPartial | include/coreir/ir/dynamic_bit_vector.h:653-663 | the double-width accumulator holds the exact partial product |
| BitVectors.Equals | include/coreir/ir/dynamic_bit_vector.h:501-524 | equality of binary vectors; unknown bits equal nothing |
| BitVectors.Greater | include/coreir/ir/dynamic_bit_vector.h:746-759 | the order of the numbers for binary vectors |
| BitVectors.Less | include/coreir/ir/dynamic_bit_vector.h:769-777 | the order of the numbers for binary vectors of one width; a narrower vector also counts as less if the low bits are equal |
| BitVectors.FromInt | include/coreir/ir/dynamic_bit_vector.h:372-382 | the low bits of a 32-bit integer in two's complement, with zeros above 32 bits |
| BitVectors.SignExtended | include/coreir/ir/dynamic_bit_vector.h:372-382 | so the vector stands for the integer at its width exactly if the integer is not negative or the width is at most 32 |
| BitVectors.ShiftAmount | include/coreir/ir/dynamic_bit_vector.h:843-867 | the number a binary shift operand stands for |
| BitVectors.Shl | include/coreir/ir/dynamic_bit_vector.h:927-943 | multiplication by a power of two modulo the width |
| BitVectors.ZeroExtend | include/coreir/ir/dynamic_bit_vector.h:976-983 | the same number at a larger width |
| BitVectors.Divide | include/coreir/ir/dynamic_bit_vector.h:985-1019 | the floor of the quotient; all ones for division by zero; zero if some bit is unknown |
| BitVectors.DivideBit | include/coreir/ir/dynamic_bit_vector.h:1000-1014 | deciding one quotient bit keeps dividend = quotient * divisor + rest with rest below the divisor shifted |
| BitVectorText.BinaryString | include/coreir/ir/dynamic_bit_vector.h:458-464 | the bits from the highest down, with x and z |
| BitVectorText.ParseBinary | include/coreir/ir/dynamic_bit_vector.h:338-370 | the vector its characters name, separators skipped |
| BitVectorText.BinaryRoundTrip | include/coreir/ir/dynamic_bit_vector.h:338-370 | reading back a printed four-valued vector of any width gives the same vector |
| BitVectorText.BinaryTextRoundTrip | include/coreir/ir/dynamic_bit_vector.h:338-370 | a string of 0, 1, x and z is printed back unchanged |
| BitVectorText.BinaryTextValue | include/coreir/ir/dynamic_bit_vector.h:338-370 | whatever the width and the separators, the vector read has the number that was written, and is binary if no x or z was |
| BitVectorText.Symbols | include/coreir/ir/dynamic_bit_vector.h:458-464 | the bits 1, x, 0 and z, from the lowest up, are printed as z0x1 |
| BitVectorText.HexDigits | include/coreir/ir/dynamic_bit_vector.h:384-422 | one character for every group of four bits, decided by its lowest bit that is not binary if there is one |
| BitVectorText.HexString | include/coreir/ir/dynamic_bit_vector.h:426-430 | width, quote, h and the digits |
| BitVectorText.HexTextValue | include/coreir/ir/dynamic_bit_vector.h:384-422 | the digits printed for a binary vector of any width are its number to the base 16 |
| BitVectorText.ParseLiteral | include/coreir/ir/dynamic_bit_vector.h:268-336 | every bit is that of its digit, cut at the width |
| BitVectorText.LiteralValue | include/coreir/ir/dynamic_bit_vector.h:268-336 | a literal has the width before its quote, and its number is that of its digits modulo the width, with fewer or more digits than the width has as well; the bits of an x are unknown and those of a z high impedance, and no others are |
| BitVectorText.HexRoundTrip | include/coreir/ir/dynamic_bit_vector.h:268-430 | reading back what was printed in hexadecimal is the identity exactly if every group is all binary, all x or all z, the partial top group included |
| BitVectorText.MixedGroup | include/coreir/ir/dynamic_bit_vector.h:268-430 | a group of 1, x, 0 and 1 is printed as x and read back as four unknown bits |
| Graphs.DirectedGraph.AddEdge | include/coreir/common/op_graph.h:91-101 | the graph has one more edge, and both adjacency maps list exactly the incident edges |
| Graphs.DirectedGraph.AddVertex | include/coreir/common/op_graph.h:103-108 | the graph has one more vertex, new exactly if its number was unused |
| Graphs.DirectedGraph.AddVertLabel | include/coreir/common/op_graph.h:122-126 | only the label of the vertex changes |
| Graphs.DirectedGraph.VertsWithNoIncomingEdge | include/coreir/common/op_graph.h:159-168 | exactly the vertices without incoming edge, each once |
| TopologicalOrder.TopologicalSortNoFail | src/ir/op_graph.cpp:190-241 | on every multigraph: no duplicates, predecessors first, and exactly the vertices no cycle leads to; as long as the vertex list exactly if the graph is acyclic |
| TopologicalOrder.DeleteOutEdges | src/ir/op_graph.cpp:208-233 | deleting a vertex's outgoing edges stacks exactly the vertices that become ready |
| TopologicalOrder.TopologicalLevels | src/ir/op_graph.cpp:142-188 | on an acyclic graph every vertex is in the level numbered by its longest incoming path, and nowhere else |
| Components.ConnectedComponent | src/simulator/multithreading.cpp:31-64 | terminates and returns exactly the vertices linked to the start by edges between vertices that are neither inputs nor constants |
| Components.ConnectedComponentsIgnoringInputs | src/simulator/multithreading.cpp:66-97 | the components partition the vertices that are neither inputs nor constants |
| Components.NumberComponents | src/simulator/multithreading.cpp:99-110 | every vertex gets the number of its component and nothing else changes |
| Components.ClassNumbers | src/simulator/multithreading.cpp:99-110 | numbering the classes in order gives two open vertices one number exactly if they are linked |
| Components.NumberAllComponents | src/simulator/multithreading.cpp:66-110 | after components and numbers two vertices that are neither inputs nor constants have one number exactly if they are linked, and nothing else of any label changes; where no edge ends in an input or constant no such vertex is shared |
| Components.IsThreadShared | src/ir/op_graph.cpp:562-571 | true exactly if an edge leads to a vertex with another number |
| Components.BalancedComponentsParallel | src/simulator/multithreading.cpp:112-130 | component k, in the order found, goes to thread k % 2 + 1, so that thread 1 has as many components as thread 2 or one more; nothing else of any label changes, and linked vertices share a thread |
| Components.EvenlySplit | src/simulator/multithreading.cpp:118-128 | with the threads taken in turn, of n components (n + 1) / 2 are in thread 1 and n / 2 in thread 2 |
| Components.SharedOnlyThroughIneligible | src/ir/op_graph.cpp:562-571 | after numbering only edges at inputs and constants cross threads |
| Pruning.PruneSequentialSinks | src/simulator/dag_optimiziation.cpp:180-239 | a single group keeps, in order, on an acyclic schedule exactly the vertices that are no sequential receivers and from which a path among the others that are none leads to a graph output; groups of more sub-graphs are kept as they are |
| Pruning.KeptForOutputs | src/simulator/dag_optimiziation.cpp:180-239 | the same of the schedule as a value, on the fields of the vertices |
| Pruning.PruneOutputs | src/simulator/dag_optimiziation.cpp:241-293 | a single group keeps, in order, on an acyclic schedule exactly the vertices that are no graph outputs and from which a path among the others that are none leads to a sequential receiver; groups of more sub-graphs are kept as they are |
| Pruning.KeptForReceivers | src/simulator/dag_optimiziation.cpp:241-293 | the same of the schedule as a value, on the fields of the vertices |
| Pruning.PrunedKeepsWhatRootsNeed | src/simulator/dag_optimiziation.cpp:180-293 | on an acyclic schedule exactly the nodes with a path inside it to a remaining root are kept, whatever the order of deletion |
| Pruning.PrunedEvaluation | src/simulator/dag_optimiziation.cpp:180-293 | evaluating the pruned schedule gives the same values at the roots |
| Circuits.CombinationalSettles | src/simulator/interpret.cpp:1803-1831 | after the two passes every operator, output, register and memory satisfies its equation, and inputs, constants and contents are unchanged, if no memory that is read before its address is updated has an address that depends on another such memory |
| Circuits.SettlesExactly | src/simulator/interpret.cpp:1803-1831 | the two passes settle a circuit for all operators and all data exactly under that condition, which is on the circuit alone |
| Circuits.Shows | src/simulator/interpret.cpp:1803-1831 | after the two passes an operator shows the result for its arguments in their order, a register its content, and a memory the word at its read address, or zeros where there is none |
| Circuits.FreeIsTimely | src/simulator/interpret.cpp:1803-1831 | the condition holds in particular if no read address depends on read data |
| Circuits.MemorySettles | src/simulator/interpret.cpp:1576-1589 | in the second pass memories read at the addresses that are there in the end |
| Circuits.ChainedMemoriesUnsettled | src/simulator/interpret.cpp:1803-1831 | a circuit in which an address depends on another memory that is read before its own address is updated, and data the two passes leave unsettled |
| Circuits.ChainedMemoriesSettled | src/simulator/interpret.cpp:1803-1831 | a circuit in which a read address depends on read data and the condition holds all the same |
| Circuits.SettledUnique | src/simulator/interpret.cpp:1803-1831 | inputs, constants, registers and memories determine the settled values |
| Circuits.OrderIndependent | src/simulator/interpret.cpp:1829-1831 | the result is the same for every topological order |
| Circuits.SettledStays | src/simulator/interpret.cpp:1803-1831 | doing it again changes nothing |
| Circuits.SortedIsOrdered | src/simulator/interpret.cpp:528-536 | the order the topological sort lists for a graph without cycles is one the passes can use |
| Circuits.SequentialAtOnce | src/simulator/interpret.cpp:1783-1801 | updating receivers one after the other, in any vertex order, is updating all registers and memories at once from what their inputs were |
| Circuits.ReceiverStores | src/simulator/interpret.cpp:1701-1758 | a register loads on a rising clock and a reset's level goes first; a memory is written on a rising clock with its enable |
| Circuits.SequentialOrderIndependent | src/simulator/interpret.cpp:1783-1801 | so the vertex order does not matter |
| Circuits.StepRefines | src/simulator/interpret.cpp:1889-1916 | one step refines a synchronous machine: next registers and memories come from the settled values before, and all values are settled for them afterwards |
| Circuits.RegisterHolds | src/simulator/interpret.cpp:1701-1758 | after a step a register holds its initial value exactly if its reset was fed the one bit of its polarity, else what was fed on a rising clock, else what it held |
| Circuits.MemoryHolds | src/simulator/interpret.cpp:1640-1691 | after a step a memory has exactly the data fed at exactly the address fed on a rising clock with an enable of one, and is the same otherwise |
| Circuits.ReadsWritten | src/simulator/interpret.cpp:1576-1691 | what a step writes is read in the state it leads to, at the address it was written to |
| Simulator.ClockValue.Flip | include/coreir/simulator/interpreter.h:81-86 | last and current value change places and the half cycles go up by one |
| Simulator.NextClock | src/simulator/interpret.cpp:429-435 | over a computed half cycle the values of the main clock are exchanged, its half cycles go up by one, and the clock argument of every register and memory is this clock |
| Simulator.TwoHalfCycles | src/simulator/interpret.cpp:429-435 | two half cycles bring the values of the clock back |
| Simulator.LoadsOnRise | src/simulator/interpret.cpp:429-435 | from a clock that has fallen, the first half cycle leaves a register without reset as it was and the second loads what the first one shows at its input |
| Simulator.SimulatorState.UpdateInputs | src/simulator/interpret.cpp:775-783 | every argument takes the value of what feeds it, a clock argument the same clock object |
| Simulator.SimulatorState.UpdateNodeValues | src/simulator/interpret.cpp:978-1574 | operators compute from their updated arguments, outputs copy, all else is left alone |
| Simulator.SimulatorState.UpdateRegisterOutput | src/simulator/interpret.cpp:1629-1638 | the output shows the register |
| Simulator.SimulatorState.UpdateMemoryOutput | src/simulator/interpret.cpp:1576-1589 | the read address is updated first and the read data is what the memory holds there |
| Simulator.SimulatorState.ExeCombinational | src/simulator/interpret.cpp:1803-1831 | computes the two settle passes on the current state and changes no other |
| Simulator.SimulatorState.UpdateRegisterValue | src/simulator/interpret.cpp:1701-1758 | computes the update of a register's receiver, which on its fields is `RegisterHolds` |
| Simulator.SimulatorState.UpdateMemoryValue | src/simulator/interpret.cpp:1640-1691 | computes the update of a memory's receiver, which on its fields is `MemoryHolds` |
| Simulator.SimulatorState.ExeSequential | src/simulator/interpret.cpp:1783-1801 | computes the clocked update of all receivers; their clock arguments refer to the main clock of the state |
| Simulator.SimulatorState.Execute | src/simulator/interpret.cpp:1889-1916 | appends the state one step computes, with a new clock object of the old values, and changes no recorded state; if some input is not set, appends the old state with the same clock objects |
| Simulator.SimulatorState.RunHalfCycle | src/simulator/interpret.cpp:429-435 | goes to the next recorded state, or appends the next one, whose clock object is new, has the two values of the old one exchanged, and is that of every register and memory; changes a recorded state exactly if it computes at the last state while some input is not set, and then flips that state's clock |
| Simulator.SimulatorState.Rewind | src/simulator/interpret.cpp:110-118 | goes back exactly if there are enough states, and changes no record; a negative number goes forward, and the index stays in range exactly if a state is recorded there |
| Simulator.SimulatorState.SetValue | src/simulator/interpret.cpp:573-583 | the current state becomes the last one, with exactly one port changed, and registers, memories, clocks and all earlier states as they were |
| Simulator.SimulatorState.SetMainClockValue | src/simulator/interpret.cpp:1938-1945 | the current state, in place, gets a clock object of its own with the last and current value given; no other record changes and none is lost |
| Simulator.SimulatorState.Run | src/simulator/interpret.cpp:417-435 | any run of commands in which no state is computed while some input is not set does to the recorded states and the index what it does to the timeline as a value |
| Simulator.SetOnceRunnable | src/simulator/interpret.cpp:1760-1779 | once all inputs are set in all records they stay set, so every run is possible |
| Simulator.Play | src/simulator/interpret.cpp:110-118 | over every run of commands the index stays in range and every record has a main clock |
| Simulator.PlayOnlyAdds | src/simulator/interpret.cpp:429-435 | a run of half cycles and rewinds changes and loses no record, and what it adds follows on |
| Simulator.BackAndForth | src/simulator/interpret.cpp:110-118 | going back k half cycles and forward k gives the identical timeline exactly if there are k states to go back |
| Simulator.SetDiscardsLater | src/simulator/interpret.cpp:573-583 | a set after going back discards exactly the later records |
| Simulator.OneMoreState | src/simulator/interpret.cpp:1907-1911 | with a new clock object for every state no state refers to the clock of a later one |
| MuxTrees.ComputeNumBits | src/libs/commonlib.cpp:9-19 | the shift loop counts the bits of the number |
| MuxTrees.NumBitsBelow | src/libs/commonlib.cpp:9-19 | a number below a power of two needs at most so many bits, and fits into those it needs |
| MuxTrees.Halves | src/libs/commonlib.cpp:587-590 | both halves are smaller and not empty, and the select widths computed for them fit into the select |
| MuxTrees.GenerateMux | src/libs/commonlib.cpp:559-635 | terminates for every number of inputs and builds the tree of halves |
| MuxTrees.MuxFits | src/libs/commonlib.cpp:138-148 | at every level each select slice lies in the select and has the width of the port it feeds, and every input is used once |
| MuxTrees.MuxSelects | src/libs/commonlib.cpp:559-635 | for every number of inputs the circuit outputs the input the select names |
| MuxTrees.GenerateTree | src/libs/commonlib.cpp:646-702 | terminates for every number of inputs and builds the tree of halves |
| MuxTrees.TreeFolds | src/libs/commonlib.cpp:646-762 | for every number of inputs the tree computes the in-order fold of an associative operator, at any width |
| Serializers.StaysInRange | src/libs/commonlib.cpp:832-904 | over all runs of enables and resets the count stays within its bounds exactly if the minimum is zero or equals the maximum |
| Serializers.StepsExactly | src/libs/commonlib.cpp:845-904 | for a minimum below the maximum, over all runs every enabled cycle adds the increment or overflows, exactly if no count reached before the overflow leaves the width |
| Serializers.WrappingCounter | src/libs/commonlib.cpp:845-904 | a counter from 2 to 7 in steps of 3 with three bits goes from 5 to 0 without an overflow |
| Serializers.NoWrap | src/libs/commonlib.cpp:941-944 | the asserted width leaves room to count one past the last input |
| Serializers.Step | src/libs/commonlib.cpp:884-904 | in every run the count stays below the rate, goes up by one and around on enabled cycles, holds otherwise and is zero after a reset |
| Serializers.RegistersHold | src/libs/commonlib.cpp:1000-1011 | while the count is not zero the registers hold the inputs of the last cycle in which it was |
| Serializers.Serializes | src/libs/commonlib.cpp:937-1014 | in every cycle of every run the output is input i, for i the count, as it was in the last cycle with count zero |
| PassManagers.PassManager.PushAllDependencies | src/ir/passmanager.cpp:150-172 | goes on exactly if the pass is loaded and all it depends on are loaded analyses; what is pushed is, from the top, all that each dependency asks for, in the order declared, and then the pass itself |
| PassManagers.PassManager.RunAnalysis | src/ir/passmanager.cpp:204-212 | an analysis is executed on the current program with all it depends on, and cached; goes on exactly if it changes nothing |
| PassManagers.PassManager.RunTransform | src/ir/passmanager.cpp:207-220 | a transform is logged and executed; if it changes the program the verifier is executed next, on the new program, and is all that is cached |
| PassManagers.PassManager.Run | src/ir/passmanager.cpp:175-225 | goes on exactly if every pass and all it depends on is loaded and no executed analysis changes the program; then the log has the requested transforms in order and as often as listed, directly followed by the verifier where the program changed, and nothing else but analyses that a requested pass is or depends on, each in turn and only if there was no result for the program as it was; requested analyses and dependencies have one, and the result says whether a transform changed the program |
| PassManagers.PassManager.RunEntry | src/ir/passmanager.cpp:189-222 | a cached analysis is skipped; any other entry is executed exactly once, with the verifier after a transform that changed the program |
| PassManagers.ServedTransforms | src/ir/passmanager.cpp:175-225 | of what is executed for a requested transform exactly one execution is of a transform, and it is the one requested |
| PassManagers.AllDependenciesCurrent | src/ir/passmanager.cpp:175-225 | if the direct dependencies are cached, all transitive ones have results for the current version |

## Left out

- InlineInstance: where an input bit has more than one driver, only one direction is stated: it stops on a loop or a taken name, and may also stop on a connection that both drivers come to.
- ConnectSameLevel: goes on if no two bits are joined by two paths, and only if none comes back to where it started; where input bits have more than one driver neither decides it.
- The dispatch by generator name in `inlineInstance`, which is the choice between its method and that for passthroughs.
- Module arguments of instances, and their substitution when a definition is brought in.
- Divide: widths up to 64 bits, as the shift amount is read as a 64-bit number.
- BalancedComponentsParallel: assumes that vertices carry labels, as the graph builder gives them.
- PushAllDependencies: takes one argument string for every analysis, so that a pass is named by its string; and one list of namespaces for all runs.
- PassManager.Run: what a pass computes is not modelled; a pass that says it changed nothing is taken at its word, and the verifier is taken to change nothing.
- CombinationalSettles: reading a port that never got a value, which stops the program, reads an empty vector here; so does an address beyond a memory's depth, which reads and writes like any other.
- Execute: a main clock is required.
- Run: a half cycle at the last state while some input is not set is described by itself, but not followed by further commands, since two states then share a clock object; nor is rewinding by a negative number.
- UpdateInputs: data and clock values are held in two maps, since no port has both kinds; selects of single bits of a port are not modelled.
- Combinational loops in the simulator: the branch compares two copies of one saved state and never propagates.
- Slices and hierarchical selects of wireables, InOut and named types, and the symbol table.
- Index selects written with leading zeros, which name the same index through another select.
- Annotations of connections are kept consistent but not followed through inlining.
- Sets of wireables are walked as they are when a loop starts; the program walks the live sets, which its own changes leave alone in every run that goes on.
- Floating-point operators, and which bit vector operation each primitive performs: the simulator theorems hold for any operator function.
- SIMD groups of more than one sub-graph, which pruning returns unchanged.
- `deserializer`, `transpose` and other generators; reading and writing of files; code generation; plugins.
- `lshr`, `ashr`, signed comparison and the bitwise operators, which would only add easy members.
