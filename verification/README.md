# Odin II back end and ezxml, verified

Odin II turns Verilog into a netlist of gates, flip-flops and hard blocks. Every pass of its back end is meant
to leave the behaviour of the circuit alone. This project models those passes on the pin/net/node graph they
work on and proves that they do, for every netlist, every width and every run of the clock. Beside them it models
the graph passes that run over the netlist (levelization, the loop checks, activity estimation) and the XML
reader's text functions, and three of the support structures both programs rest on.

## How it is built

* **Netlists.** `Netlists.Netlist` is the graph as the source has it: tables of nodes, pins and nets with back
  pointers, pin arrays that move and grow in place, and the wiring primitives of `netlist_utils.c` as methods.
  The ghost field `cells` is its abstraction, each node with the nets its pins are attached to; `Valid` ties it
  to the tables, gives every net at most one driver and keeps every back pointer right. `Ready` adds that every
  pin on a node is on a net (`BoundBut` excepts some nodes), `tidy` that every pin on a net is on a node.
* **Meaning.** `Semantics` says when values of all nets are consistent with the cells, from the gate functions of
  the BLIF covers (`output_blif.c`) and the simulator. `Runs` adds the clock: flip-flops and memories step on a
  rising edge, memories read the old word and write their ports in order. `Lowers(a, b)` says that only
  combinational cells changed and that the values of the old nets that satisfy `a` are exactly those that extend to
  values satisfying `b`. `RunEquivalent(a, b)` says that on the nets of `a` both netlists have the same runs.
* **Passes.** Each pass is a method with the source's loops. Its contract relates the netlist before and after by
  one of these two relations; lemmas about the resulting cells carry the proof.
* **Files.** One module per pass or per stage of a pass. The large ones are split into what the pass builds
  (`SpSplit`, `DpSplit`, `MultiplierCells`, `WidthParts`), how it builds it (`SpDepth`, `DpBuild`,
  `MultiplierWiring`, `WidthSplit`) and why that is right (`BankSplit`, `BankRealize`, `MultiplierMeaning`,
  `WidthSlices`). `MemoryPass` and `ActivityPass` put the stages of their passes together.

## Findings

Where the code does not do what one would expect, the model follows the code, a lemma states it at an input, and
another contract says exactly when the code does what is intended.

| where | as written | input | intended | confidence |
|---|---|---|---|---|
| ODIN_II/SRC/netlist_create_from_ast.c:2707-2806 | a case without default whose items all fail clears the register | one item that does not match, over a register that holds a one (Statements.FallThroughClears) | the register holds; it does if and only if no executed case falls through over a one (Statements.LoweringExact, Statements.ExclusivePasses) | certain |
| ODIN_II/SRC/netlist_create_from_ast.c:2739-2806 | the values of all items that match are ORed | two items that both match and assign 0 and 1 (Statements.SecondItemDrowns) | the first item wins; it does if and only if no other selected branch carries a 1 over its 0 (Statements.LoweringExact, Statements.ChoiceExact) | certain |
| libvpr/ezxml.c:211-221 | the line-ending loop steps over the terminator of the text | `a` and a carriage return (LineEndings.StepsOverTheTerminator) | the loop stays inside the text; it does if and only if the text does not end in a return or has a return with a line feed behind it somewhere, whose removal leaves a second terminator (LineEndings.NormalizeLineEndings) | certain |
| libvpr/ezxml.c:987-1021 | vertical tabs and form feeds are not escaped in attributes, and decoding makes blanks of them | an attribute that is one vertical tab (XmlEscapes.VerticalTabLost) | decoding gives the text back; it does if and only if the text has no NUL and, in attributes, neither of the two (XmlEscapes.DecodingUndoesEncoding) | certain |
| ODIN_II/SRC/multipliers.c:1084-1092 | the sides of the hard block are swapped for good whenever the first factor is the narrower one | two 1 by 2 multipliers and a 2 by 1 block (MultiplierSizes.TurnedBack) | a multiplier that fits is left whole; all are if and only if each fits the block as it is held when its turn comes (MultiplierSizes.WholeIffInTurn) | certain |
| ODIN_II/SRC/partial_map.c:923-1063 | an order comparison of one-bit operands stops in an assertion, as its difference gate has no inputs | a greater-than node with two operands of one bit (Comparators.OneBitRefused) | the comparison is lowered; it is if and only if the width is at least two (Comparators.InstantiateGt) | certain |

## Model

| member | source | states |
|---|---|---|
| Netlists.Netlist.AddInputPinToNode | ODIN_II/SRC/netlist_utils.c:352-366 | a free pin takes an empty input slot; the back pointers agree again and only that slot of the abstraction changes, to the pin's net |
| Netlists.Netlist.AddFanoutPinToNet | ODIN_II/SRC/netlist_utils.c:368-384 | the pin is entered among the fan-outs of the net at its new index, everything else is untouched |
| Netlists.Netlist.AddDriverPinToNet | ODIN_II/SRC/netlist_utils.c:402-414 | a net without driver gets one; one driver per net is kept |
| Netlists.Netlist.RemapInput | ODIN_II/SRC/netlist_utils.c:501-519 | an input pin moves to a slot of another node: that slot is now on the pin's net and the old slot is empty |
| Netlists.Netlist.RemapOutput | ODIN_II/SRC/netlist_utils.c:501-519 | the same for an output pin, so that the net's driver is now the other node |
| Netlists.Netlist.CopyInput | ODIN_II/SRC/netlist_utils.c:248-267 | a copy of an input pin reads the same net from another slot |
| Netlists.Netlist.ConnectNodes | ODIN_II/SRC/netlist_utils.c:521-559 | an output without a net gets a new one, one with a net keeps it; in both cases the input slot is afterwards on the output's net |
| Netlists.Netlist.MoveInputPin | ODIN_II/SRC/netlist_utils.c:332-347 | a pin moves to an empty slot of its node and leaves its own empty, all back pointers agreeing |
| Netlists.Netlist.RemoveInputPin | ODIN_II/SRC/memories.c:258-266 | the pin leaves the node, those behind it close up in place, and the port is one narrower |
| Runs.LoweringKeepsRuns | ODIN_II/SRC/partial_map.c:61-69 | a pass that keeps exactly the old values of the combinational cells keeps whole runs, state included, in both directions |
| Networks.NetworkLowers | ODIN_II/SRC/partial_map.c:496-1145 | a node may be replaced by any network of gates wired in any order, feedback in the wiring order included, as long as the nets that take over its outputs carry its values |
| BankSplit.SplitRun | ODIN_II/SRC/memories.c:176-354 | every run of the two banks with their gated enables and the registered address bit is a run of the memory, whose contents are the banks' interleaved |
| BankRealize.SplitEquivalent | ODIN_II/SRC/memories.c:176-354 | and every run of the memory is shown by the banks: the split cannot be observed on any old net in any run |
| SpSplit.SpBuiltSplits | ODIN_II/SRC/memories.c:258-354 | the cells that the single-port construction leaves behind are such a split, gate by gate |
| SpDepth.SplitSpMemoryDepth | ODIN_II/SRC/memories.c:176-354 | the recursion ends; the netlist has exactly the runs it had, all other cells are untouched, and the RAMs put on the list are one for every value of the address bits taken away, each the old RAM without those bits; a RAM without its four ports is refused and nothing has changed |
| DpSplit.DpBuiltSplits | ODIN_II/SRC/memories.c:398-618 | the same for two access ports, with optional second address, enable and output |
| DpBuild.SplitDpMemoryDepth | ODIN_II/SRC/memories.c:363-618 | as for the single-port RAM, with the second port's register, gates and muxes |
| MemoryTree.WordsConserved | ODIN_II/SRC/memories.c:176-354 | the banks have at most the asked number of live address bits, exactly that many if the RAM was deeper, and together as many words as the RAM |
| SpDepth.CountLiveBits | ODIN_II/SRC/memories.c:241-246 | the loop counts the address pins below the first one on the pad net |
| WidthSlices.SlicesEquivalent | ODIN_II/SRC/memories.c:978-1265 | a RAM may be replaced by slices of its columns that share address, enables and clock: the slices together have exactly its runs |
| WidthSplit.CutSlice | ODIN_II/SRC/memories.c:1006-1072 | one slice takes its data and output pins off the RAM in order, gets copies of the other pins (the last slice the pins themselves), and carries exactly the columns it should |
| WidthArch.SplitSpMemoryToArchWidth | ODIN_II/SRC/memories.c:978-1080 | a RAM wider than the hard block becomes ceil(d/t) slices that tile its columns in order, every run is kept, the RAM node is freed with no pin lost, and the slices are on the list in place of it |
| WidthArch.SplitDpMemoryToArchWidth | ODIN_II/SRC/memories.c:1082-1261 | the same for both data and both output ports of a dual-port RAM |
| WidthArch.SlicesFit | ODIN_II/SRC/memories.c:978-1080 | every slice is a RAM of its own width, between one and the hard block's, and only the last one is narrower than the hard block |
| WidthFill.PadMemoryInputPort | ODIN_II/SRC/memories.c:1468-1505 | later pins move up in place, the last one first, without one being overwritten; the gap is on the pad net and the RAM has the runs it had |
| WidthFill.PadMemoryOutputPort | ODIN_II/SRC/memories.c:1433-1463 | the same for an output port, whose new pins are on no net |
| WidthFill.PadSpMemoryWidth | ODIN_II/SRC/memories.c:1418-1428 | all data and output ports of the RAM reach the width of the hard block's ports and the netlist has the runs it had |
| WidthFill.PadDpMemoryWidth | ODIN_II/SRC/memories.c:1401-1413 | the same for the four ports of a dual-port RAM, out2 moving up behind out1 |
| WidthPass.IterateWidth | ODIN_II/SRC/memories.c:1311-1381 | cutting, then padding, over one list: every run is kept, every RAM on the new list has exactly the hard block's width on every data port and is as deep as it was, every RAM of the old list is on it or was cut up into slices that are, and no other node has changed |
| MemoryPass.SplitMemories | ODIN_II/SRC/memories.c:1277-1308 | the depth half over a list: every run is kept, the new list holds exactly the memories among the RAMs taken and the nodes made, each a RAM no deeper than asked; given up exactly when a RAM lacks a port it needs |
| MemoryPass.IterateMemories | ODIN_II/SRC/memories.c:1271-1382 | the whole pass over both lists, depth before width: every run is kept; every RAM that was on a list or was made ends up on the list of its kind, with its hard block's width on every data port and no deeper than asked; no other node has changed; given up exactly when a RAM to be split in depth lacks a port it needs |
| Statements.LoweringExact | ODIN_II/SRC/netlist_create_from_ast.c:2589-2948 | for every nesting of blocks, ifs and cases, overlapping items included, the mux tree gives a register its next value, or its present one where nothing is assigned, if and only if what is executed passes: no case falls through over a 1 and no other selected branch ORs a 1 over a 0 |
| Statements.ChoiceExact | ODIN_II/SRC/netlist_create_from_ast.c:2707-2806 | the mux of a choice gives the input of the executed branch ORed with those of the other selected ones |
| Statements.ExclusivePasses | ODIN_II/SRC/netlist_create_from_ast.c:2739-2806 | where no two items match together on the executed path, only falling through can do harm |
| Statements.CompletePasses | ODIN_II/SRC/netlist_create_from_ast.c:2589-2948 | with a default in every case and no two items matching together every register gets its next value |
| Statements.FallThroughClears | ODIN_II/SRC/netlist_create_from_ast.c:2707-2806 | a case without default whose only item fails clears a register that holds a one |
| Statements.SecondItemDrowns | ODIN_II/SRC/netlist_create_from_ast.c:2739-2806 | of two matching items that assign 0 and 1 the first should win and the register gets 1 |
| Merging.PinsConsumed | ODIN_II/SRC/netlist_create_from_ast.c:2855-2938 | read branch by branch, the picks of the merged rows are the pins of that branch's list, each one once and in order |
| Merging.RowCount | ODIN_II/SRC/netlist_create_from_ast.c:2855-2938 | a name gets as many rows as the list in which it occurs most often has entries for it: one mux per name where no list repeats one |
| Merging.RowsOrdered | ODIN_II/SRC/netlist_create_from_ast.c:2855-2938 | the rows come in the order of their names |
| Merging.SkipAdvances | ODIN_II/SRC/netlist_create_from_ast.c:2866-2880 | the merge index always moves on, by exactly the number of cursors that moved, and the next combined entry is the least remaining head |
| MuxStatements.MergeStatements | ODIN_II/SRC/netlist_create_from_ast.c:2846-2948 | the merge loop with its cursors leaves the mux node with one port and one output per row, each port on the nets of its row, with the implied value where a branch does not assign the name |
| Controls.IfControls | ODIN_II/SRC/netlist_create_from_ast.c:2613-2668 | the select pins carry the condition and its complement |
| Controls.CaseControls | ODIN_II/SRC/netlist_create_from_ast.c:2739-2802 | the select pins carry one comparison per item and, for a default, that none of them holds |
| AlwaysBlocks.TerminateRegistered | ODIN_II/SRC/netlist_create_from_ast.c:1964-2069 | a flip-flop per assigned name, clock and data on its pins and the register's net on its output; a second driver for a register is refused |
| AlwaysBlocks.RegisterStep | ODIN_II/SRC/netlist_create_from_ast.c:1964-2069 | over one step of any run a register takes its next value if and only if it is not clocked or what is executed passes |
| AlwaysBlocks.LowerAlways | ODIN_II/SRC/netlist_create_from_ast.c:2589-2948 | a whole clocked always block: refused exactly when some name is assigned twice on a path; otherwise in every run of the netlist the registers do what the statement says, as far as `LoweringExact` allows; and on the old nets the runs of the result are exactly those of the old netlist in which every register takes the lowered value at its clock edge |
| BitwiseGates.InstantiateBitwiseLogic | ODIN_II/SRC/partial_map.c:496-585 | a two-operand bitwise node, both operands as wide as the output, becomes one gate per bit; exactly the old behaviours remain |
| LogicalGates.InstantiateNotLogic | ODIN_II/SRC/partial_map.c:316-339 | one inverter per bit, exactly the old behaviours |
| LogicalGates.InstantiateBitwiseReduction | ODIN_II/SRC/partial_map.c:428-490 | a reduction becomes one gate over all bits |
| LogicalGates.InstantiateLogicalLogic | ODIN_II/SRC/partial_map.c:365-425 | both operands are reduced by OR and the results combined; the output is that of the logical operator on whole words |
| Adders.InstantiateAddWCarry | ODIN_II/SRC/partial_map.c:591-672 | the ripple of sum and carry cells computes A + B modulo 2^w for every combination of operand and output widths, exactly the old behaviours remain |
| RippleCells.RippleAdds | ODIN_II/SRC/output_blif.c:453-544 | full-adder cells in a chain add as numbers |
| Subtractors.InstantiateSubWCarry | ODIN_II/SRC/partial_map.c:679-763 | A - B modulo 2^w from inverters and a carry in of one, for every combination of widths |
| Subtractors.InstantiateUnarySub | ODIN_II/SRC/partial_map.c:769-830 | the negative modulo 2^w of the low w bits of an operand that may be wider than the result |
| Equality.InstantiateEqual | ODIN_II/SRC/partial_map.c:837-916 | bitwise comparison and reduction compute equality and inequality of the operand values |
| Comparators.ExceedsIsGreater | ODIN_II/SRC/partial_map.c:923-1063 | the highest bit in which two words differ decides which number is greater |
| Comparators.ChainBit | ODIN_II/SRC/partial_map.c:923-1063 | chain cell i carries whether some higher bit differs |
| Comparators.InstantiateGt | ODIN_II/SRC/partial_map.c:923-1063 | A > B and, with the ports swapped, A < B: the network has the node's behaviour at every width, and the lowering of its difference gate is refused exactly at width one |
| Comparators.OneBitRefused | ODIN_II/SRC/partial_map.c:923-1063 | the difference gate has no inputs exactly when the operands have one bit, as in a greater-than node on two single nets |
| OrderOrEqual.InstantiateGe | ODIN_II/SRC/partial_map.c:1070-1145 | A >= B and A <= B as an order comparison or an equality, the intermediate nodes lowered in turn; refused where the order comparison is |
| PortMuxes.InstantiateMultiPortMux | ODIN_II/SRC/partial_map.c:267-311 | one AND-OR mux per output, the select pins copied for all but the last; exactly the old behaviours remain |
| ProductBits.StageFits | ODIN_II/SRC/multipliers.c:62-219 | no adder of the array overflows its a + 1 bits |
| ProductBits.StageProduct | ODIN_II/SRC/multipliers.c:62-219 | after stage i the fallen bits and the stage hold the product of A and the low i + 2 bits of B |
| ProductBits.ArrayMultiplies | ODIN_II/SRC/multipliers.c:62-219 | the array of partial products and adders gives the full product for every width of A from one and of B from two |
| SoftMultiplier.InstantiateSimpleSoftMultiplier | ODIN_II/SRC/multipliers.c:62-219 | a multiplication node becomes AND gates and rippled adders with exactly the old behaviours; a second factor of one bit is refused and nothing has changed |
| PartialMap.PartialMapTop | ODIN_II/SRC/partial_map.c:61-134 | the depth-first pass over a netlist that grows under it: every run is kept; when it ends every node reachable from the inputs and constants is mapped to gates and none of them was one the source refuses (a word-level node without pins among them); when it stops there is such a node, and on a tidy netlist it is reachable |
| PartialMap.PartialMapNode | ODIN_II/SRC/partial_map.c:140-262 | each kind of node goes to its own lowering, which keeps the behaviour and leaves all other nodes alone |
| Levelize.Leveller.LevelizeForwards | ODIN_II/SRC/netlist_check.c:315-472 | the marking loops end, list every levelled node once, and give it one more than the highest level of its drivers; a node gets a level exactly when all of its pins were reached |
| LevelPaths.PathBound | ODIN_II/SRC/netlist_check.c:315-472 | no path into a node is longer than its level |
| LevelPaths.LongestPath | ODIN_II/SRC/netlist_check.c:315-472 | and some path from a source is as long: the level is the longest path |
| LevelPaths.UnlevelledIffStuck | ODIN_II/SRC/netlist_check.c:315-472 | a node stays without a level if and only if it lies on or behind a cycle without flip-flops, or behind a pin that nothing drives |
| LevelCheck.Checker.CheckForward | ODIN_II/SRC/netlist_check.c:244-309 | the recursive check passes if and only if no root reaches a node that feeds an unlevelled combinational one |
| LevelCheck.LoopIsStuck | ODIN_II/SRC/netlist_check.c:266-309 | that is, exactly when no root leads to a node on or behind such a cycle or open pin |
| LevelClean.CleanForward | ODIN_II/SRC/netlist_check.c:476-572 | the clean-up succeeds if and only if no node was reached on some of its pins only, and then it leaves no visit data behind |
| LevelClean.VerdictIsStuck | ODIN_II/SRC/netlist_check.c:476-572 | that is, exactly when no source drives a node on or behind a cycle without flip-flops or an open pin, and no flip-flop or other source was reached on some of its pins only |
| TruthTables.Shannon | ODIN_II/SRC/activity_estimation.c:291-340 | the enumerated probability satisfies Shannon expansion in every input |
| TruthTables.ProbBounded | ODIN_II/SRC/activity_estimation.c:291-340 | the probability of every truth table at every input probability is again a probability |
| TruthTables.InsertOnto | ODIN_II/SRC/activity_estimation.c:405-436 | the index built by skipping one column reaches every full index exactly once |
| TruthTables.DifferenceWeight | ODIN_II/SRC/activity_estimation.c:444-522 | the weight of the Boolean difference over the other inputs is exactly the probability, over all inputs, that flipping that input flips the function |
| ActivityLoops.StaticProbability | ODIN_II/SRC/activity_estimation.c:291-340 | the loops over entries and bits compute that enumerated probability |
| ActivityLoops.BooleanDifference | ODIN_II/SRC/activity_estimation.c:393-439 | the index loop fills the array with the Boolean difference |
| ActivityLoops.InputDensity | ODIN_II/SRC/activity_estimation.c:444-522 | calc_density gives the flip probability times the input's density; the assertion before the clamp holds and the clamp changes nothing |
| TruthTables.TransitionBounded | ODIN_II/SRC/activity_estimation.c:381-381 | a transition probability is at most one half |
| ActivityPass.Activities.CalcProbabilities | ODIN_II/SRC/activity_estimation.c:275-386 | three sweeps in level order, each the sweep of the one before it, registers holding in the first; everything stays a probability and every transition probability is at most one half |
| ActivityPass.SweepUnique | ODIN_II/SRC/activity_estimation.c:275-386 | on an order that puts drivers first a sweep determines its result |
| ActivityPass.Activities.CalcTransitionDensity | ODIN_II/SRC/activity_estimation.c:88-182 | the density of a function is the sum over its inputs of the input's density times the exact probability that flipping it flips the function |
| ActivityPass.DensityBounded | ODIN_II/SRC/activity_estimation.c:444-522 | a density is never negative and at most the sum of the input densities |
| ActivityPass.Activities.Estimate | ODIN_II/SRC/activity_estimation.c:61-73 | initialization, probabilities and densities in turn: on every listed node the probability is one of its drivers', and the density is non-negative, at most the sum of the input densities on a function and at most one half on a flip-flop |
| ActivityOrder.LevelsOrder | ODIN_II/SRC/activity_estimation.c:275-300 | the levels that levelize_forwards made are such an order |
| EntityTables.EntOk | libvpr/ezxml.c:370-390 | the recursive search ends on every table without cycles and finds exactly the references to the name that can be reached |
| EntityTables.DeclarationKeepsAcyclic | libvpr/ezxml.c:486-499 | an accepted declaration leaves the reference graph without cycles, also when older entities already referred to the new name |
| EntityTables.EntityTable.Declare | libvpr/ezxml.c:475-499 | a declaration is entered exactly when its text cannot reach its own name, and the table stays without cycles |
| LineEndings.NormalizeLineEndings | libvpr/ezxml.c:211-221 | the in-place loop over the bytes makes every return, with or without a line feed, one line feed, and stays inside the buffer if and only if the text does not end in a return or has a return with a line feed behind it |
| LineEndings.StepsOverTheTerminator | libvpr/ezxml.c:211-221 | the text `a` and a return is left; `a`, a return and a line feed is not, and neither is a text that ends in a return behind an earlier pair |
| EntityScanner.Decode | libvpr/ezxml.c:200-281 | on a table without cycles the in-place scan ends, with the recursively defined expansion of the normalized text, for every text that the first loop does not leave; that loop is the only one that can leave the text |
| EntityDecode.ExpandAppend | libvpr/ezxml.c:223-263 | a complete replacement text and what follows it expand independently of each other |
| XmlEscapes.AmpEncode | libvpr/ezxml.c:979-1023 | the encoded text up to the terminator is appended |
| XmlEscapes.DecodingUndoesEncoding | libvpr/ezxml.c:979-1023 | for every text and every document's table, decoding what was encoded gives the text back if and only if it has no NUL and, in attributes, no vertical tab or form feed; nothing is decoded twice |
| XmlEscapes.VerticalTabLost | libvpr/ezxml.c:262-263 | an attribute that is a vertical tab comes back as a blank |
| DocumentTables.DeclareAll | libvpr/ezxml.c:475-502 | whatever a document declares, the table keeps the predefined entities first, has no cycle, and meets what decoding asks of it; it has the declarations up to the first one that would close a circle, at which the reader stops, and every one of them was accepted |
| DocumentTables.OutAndBack | libvpr/ezxml.c:200-281 | encoding and decoding run one after the other against such a table give the text back exactly when it survives |
| Utf16.LengthFormula | libvpr/ezxml.c:638-641 | the bit-count formula gives two, three and four bytes exactly where section 3 of RFC 3629 asks for them |
| Utf16.StrToUtf8 | libvpr/ezxml.c:609-649 | texts without a byte order mark are left alone, the others converted unit by unit |
| Utf16.WellFormedConverts | libvpr/ezxml.c:609-649 | every well-formed UTF-16 text of either byte order comes out as UTF-8 that decodes to the same characters |
| MultiplierSizes.Multipliers.IterateMultipliers | ODIN_II/SRC/multipliers.c:1054-1124 | the worklist ends for every positive block although the block's sides are swapped for good along the way, and leaves whole exactly the multipliers of the recursively defined splitting |
| MultiplierSizes.LeavesFit | ODIN_II/SRC/multipliers.c:1054-1124 | splitting conserves the total area, loses no multiplier, and everything left whole fits the block in one of its orientations |
| MultiplierSizes.WholeIffInTurn | ODIN_II/SRC/multipliers.c:1084-1092 | nothing is split if and only if every multiplier fits the block the way it is held when its turn comes |
| MultiplierSizes.TurnedBack | ODIN_II/SRC/multipliers.c:1084-1092 | of two equal 1 by 2 multipliers that both fit a 2 by 1 block the second one is split |
| ChunkMemory.Chunks.ChunkMalloc | libvpr/util.c:188-282 | the entry assertion always holds; a request is met from one block not yet given back, on a word boundary, apart from everything handed out before; at most one block is obtained and put at the front of the list |
| ChunkMemory.Chunks.FreeChunkMemory | libvpr/util.c:285-303 | every block of the list is given back exactly once and is still there when it is, and no other block is |
| ChunkMemory.Rounded | libvpr/util.c:265-273 | the least multiple of the word that holds the request |
| PinClasses.SetupPinClasses | libvpr/read_xml_arch_file.c:290-352 | the table of pins and the lists of the classes are inverse to each other, no list has a pin twice, two pins share a class if and only if they are bits of one equivalent port of one instance, inputs receive and outputs drive; both closing assertions hold |
| HashTables.Table.Add | ODIN_II/SRC/hashtable.c:101-120 | the table is one list of associations, and a new one goes to its end |
| HashTables.Table.Get | ODIN_II/SRC/hashtable.c:144-157 | the item of the earliest association of the key that is still there |
| HashTables.Table.Remove | ODIN_II/SRC/hashtable.c:122-142 | that association goes and no other, the order of the rest is kept |
| HashTables.Table.GetAll | ODIN_II/SRC/hashtable.c:159-178 | the item of every association, each association exactly once |
| HashTables.ChainKnows | ODIN_II/SRC/hashtable.c:122-157 | the earliest association of a key is the earliest one in its bucket, and dropping it there drops it from the whole |
| HashTables.BucketsHoldAll | ODIN_II/SRC/hashtable.c:159-178 | the chains hold every association exactly once, whatever the hash values |

## Left out

Representation:

- Pointers are indices into the tables of nodes, pins and nets; a freed node is an inert entry of its table. A pin that leaves its slot forgets the node, where the source leaves the old pointer behind.
- Signals have two values; the simulator's unknown value is not modelled. Memories start with any contents.
- Names, line numbers, pin mappings as strings and everything printed. Ports of memories carry roles in place of mapping strings, all roles of a node being different.
- Reals stand for doubles. `qsort` is a sort. Allocation does not fail.

Lowering:

- Statements.LoweringExact: is about names that every path assigns at most once. `AlwaysBlocks.LowerAlways` refuses exactly the other blocks, as terminate_registered_assignment does, so nothing is said about what their muxes would carry.
- Expressions arrive as nets that already carry their values, item keys and comparison operands as wide as their subject; create_operation_node pads them. A missing else is an empty block. Every register has one net for its input and its output.
- Clock detection in terminate_registered_assignment, and continuous assignments, whose implied value is zero instead of the register.
- BitwiseGates.InstantiateBitwiseLogic: operands are as wide as the output, as create_operation_node makes them.
- Comparators.InstantiateGt: a refused comparison leaves its network wired, as the code does before it stops. Operands have one width, as create_operation_node makes them; the same holds for the equality and the or-equal forms.
- LogicalGates.InstantiateLogicalLogic: the output pin is moved before the reductions are wired, not after them.
- OrderOrEqual.InstantiateGe: the intermediate comparison is typed by the operation passed on, as the code does.
- PartialMap.PartialMapTop: buffers and constant shifts, whose lowering merges nets, are not among the kinds of a netlist here; hard blocks are passed over. That a node met by a stop is reachable is proved on tidy netlists.

Memories:

- DpBuild.SplitDpMemoryDepth: for a positive size, address ports of one width, out1 before out2, and a second enable or output only with a second address. The enable pins it leaves behind are not on a node any more, so the result is not called tidy.
- WidthArch.SplitSpMemoryToArchWidth: data and output ports of one width, which the dual-port version asserts.
- MemoryPass.IterateMemories: for a depth that is not negative, and with hard blocks of both kinds. Filling leaves output pins without nets, so the netlist is `Valid` afterwards and not `Ready`.
- The configuration in which every memory is cut to single bits (split_sp_memory_width, split_dp_memory_width).

Multipliers:

- MultiplierSizes.Multipliers.IterateMultipliers: port sizes only. Which pins the parts get and how they are added up is left out, as the code takes pins of the second factor at an offset that depends on the first. Padding to a fixed size is left out.

Graph passes:

- The levelization from the outputs backwards, the sequential levels, and the search for the top of a loop.
- LevelCheck.Checker.CheckForward: cycles that no root reaches are not reported, in the code and here.
- ActivityPass.Activities.CalcTransitionDensity: an output node gets the static probability of its driver, as in the code. Probabilities are not read from a file.

XML and support:

- EntityScanner.Decode: modes for text and attributes; the mode for parameter entities and the trimming of tokenized attributes are left out, as is the counting of lines. Names have no inner semicolon and do not start with a hash mark, and values close every ampersand. Numbers of character references do not overflow.
- Utf16.StrToUtf8: a character has at most three payload bytes, which the input's 21 bits guarantee.
- ChunkMemory.Chunks.ChunkMalloc: words of eight bytes. After the list is freed the caller must close the open chunk, which is the precondition.
- HashTables.Table.Add: chains are sequences in the buckets; destroying the table is left out.
- The list operations of the XML tree, the parser, file access, and the output formats.
