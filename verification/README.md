# Verified models of the streaming, adapter and codec logic

This project models five parts of the repository whose correctness depends on several functions at once, and
proves what those parts are for. Every claim below is about all inputs, all event runs or all files; nothing
was executed, only verified.

**The streaming tool-call pipeline.** A parse of the text generated so far is a run of tagged events. A mapper
folds the events into a message and prints the arguments of tool calls as JSON piece by piece; the server gives
the message stable call ids, compares it with the previous one and sends deltas. `ToolCallMapper` is the mapper
(a transition function, and a class proved against it), `QuoteLexers` its two character scanners, `JsonText` the
escaping of RFC 8259 section 7 with a reader as the reference for what printed text means, `StreamGrowth` the
monotonicity of snapshots, `MessageDiff` the deltas, the client that folds them and the id cache,
`StreamingPipeline` the server loop. `CallTexts`, `TaggedCallJson` and `TypedCallJson` say what whole parses print,
`NameTiming` that the place of the name does not matter, `PythonText` what rewriting quotes means.

**The low-rank tensor algebra.** `LoraTorchTensor` stands for the batched product B @ A and transforms only the
factors. `TensorAlgebra` defines plain tensors in row-major order and PyTorch's operations on them, and `TensorPlaces`
says which element they move where; `LoraTensor`, `LoraIndexing`, `LoraReshaping`, `LoraJoining` compare each
operation on the pair with the same operation on the product, and say which calls are accepted. `LoraCatExact` finds
when joining is right whatever the entries are, and `LoraEllipsis` when an index tuple with an ellipsis is.
`LoraChain` puts the operations side by side, `LoraExpression` nests them at will, stacking and joining included, and
`LlamaPermute` applies that to what the converter does to attention weights. `LoraWitnesses` holds inputs that are
answered wrongly. Entries are exact reals.

**The marker-aware differ.** `MarkerSegments` is the segmenter and its inverse, `MarkerDiff` the two-ended
comparison and the exact condition under which its four parts rebuild both inputs, once by the state in which the
loop ends and once by the segments alone. `MarkerBest` is the difference without a loop.

**Codecs and text transforms.** `Base64` (RFC 4648 sections 4 and 5), `CsvRow` (RFC 4180 section 2), `Escapes`
(in place), `SplitJoin`, `CpuMask` and `WordWrap`.

**The legacy GGML loader.** `GgmlFormat` defines what is read and the files the format allows, `GgmlBytes` what stands
in which bytes; `GgmlLayout` proves that loading and laying out are inverse, `GgmlBackwards` holds files on which
the loader steps back, `GgmlLoader` holds the loader's classes.

Code that works by changing things is modelled by methods and classes that do the same, each proved equal to a
function of its inputs; the properties are proved about those functions.

## What the proofs found

* `calculate_diff_split` does not always rebuild its inputs, although its header promises a split. The fix-up
  after the loop does not look at whether the loop already consumed the last segment of the shorter side; when it
  did and that segment matches again, text is lost, and only then (`MarkerDiff.DiffExact`). In terms of the segments:
  one input is two halves of equally many segments, the other the same halves with something in between whose first
  or last segment is the first of the second half (`MarkerDiff.RematchedExact`). For `<a><b>` against `<a><b><b>` it
  even reports no difference (`MarkerDiff.RematchWitness`). With one more test in the fix-up the law holds for all
  inputs (`MarkerDiff.GuardedLossless`).
* The flush at the end of `common_chat_peg_mapper::from_ast` and the push in the tool-close branch never happen:
  a pending call never has a name (`ToolCallMapper.FlushIsDead`). After a call is closed that was never named, the
  pointer to the current call is stale; whether a run uses it can be read off its events
  (`ToolCallMapper.DefinedExact`).
* Streamed container values are cut badly in exactly one place: when the partial text of a single-quoted string
  ends in a backslash that turns out to escape a single quote (`StreamGrowth.ContainerGrowthExact`; the text `['\`
  in `StreamGrowth.CutQuoteRetracts`).
* The "TODO: make sure this is correct" of `LoraTorchTensor.__getitem__` has an answer: index tuples that end in
  two slices are right exactly when no leading slice shortens an axis on which A has more than one entry
  (`LoraIndexing.GetEntriesExact`, `LoraWitnesses.SliceKeepsA`); an ellipsis is expanded right exactly when it stands
  for as many axes as there are other indices, or for more with only full slices behind it
  (`LoraIndexing.EllipsisExact`, `LoraEllipsis.EllipsisAlways`, `LoraWitnesses.EllipsisMisses`). An integer among
  the last two indices leaves a rank too many (`LoraIndexing.LastTwoMustBeSlices`,
  `LoraWitnesses.TwoIntegersAccepted`), and a plain slice can empty A alone (`LoraIndexing.GetSliceExact`,
  `LoraWitnesses.SliceEmptiesA`).
* `reshape` takes any number of inferred dimensions and regroups a rank-0 adapter to any number of elements, neither
  of which the product allows (`LoraReshaping.ReshapeExact`, `LoraWitnesses.TwoInferred`,
  `LoraWitnesses.EmptyRankGrows`); `permute` accepts axis numbers that are out of range (`LoraReshaping.PermuteExact`,
  `LoraWitnesses.AxisPastTheLast`).
* `torch.cat` of batched adapters is right for all entries exactly when every A has as many leading rows as its B, or
  the A's have one row in all, or the products have no entries to tell apart and the rows of the A's are as many as
  those of the B's (`LoraCatExact.CatExact`, `LoraWitnesses.BroadcastJoined`).
* A GGML tensor whose 64-bit size wraps to a negative number sends the loader backwards. A file of 60 bytes is read
  forever (`GgmlBackwards.EndlessLoad`), and one of 115 bytes is accepted whose second tensor lies inside the name of
  the first (`GgmlBackwards.NestedLoad`). Where all sizes are exact, the files accepted with the offset at the end are
  the well-formed files (`GgmlLayout.LoadExact`), and where no size is negative the loop ends and the ranges are in
  order (`GgmlLayout.ForwardLoopEnds`, `GgmlLayout.TensorRanges`). A last tensor that is cut short is accepted, with
  a final offset past the end (`GgmlBackwards.ShortLoad`).
* An over-long help line that holds only spaces prints no line at all (`WordWrap.VanishingLine`).

## Model

| member | source | states |
|---|---|---|
| `Common.TrimTrailingSpace` | common/chat-peg-parser.cpp:11-21 | the loop drops trailing spaces, at most `max` of them unless `max` is -1 |
| `Common.TrimLeadingSpace` | common/chat-peg-parser.cpp:23-33 | the same at the front |
| `JsonText.ReadStringQuote` | common/chat-peg-parser.cpp:70-76 | a string printed as JSON reads back as itself under an independent reader, whatever follows it |
| `JsonText.ShortEscapes` | common/chat-peg-parser.cpp:70-76 | the short escapes of RFC 8259 section 7, printed and read, by their letters and codes |
| `JsonText.OtherEscapes` | common/chat-peg-parser.cpp:70-76 | apart from these only control characters are escaped, by their code |
| `JsonText.EscapeMonotone` | common/chat-peg-parser.cpp:70-76 | escaping a longer text only extends the escaped text |
| `QuoteLexers.JsonBraceDepth` | common/chat-peg-parser.cpp:41-67 | the loop computes the depth of the string-skipping automaton |
| `QuoteLexers.NormalizeQuotesToJson` | common/chat-peg-parser.cpp:83-160 | the loop computes the rewriting of Python-style quotes, defined one construct at a time |
| `QuoteLexers.LexersAgree` | common/chat-peg-parser.cpp:41-160 | after any input the brace counter is inside a string on the normalized text exactly when the normalizer is inside a quoted one, and its depth counts exactly the input braces outside quotes |
| `QuoteLexers.NormalizeIdempotent` | common/chat-peg-parser.cpp:78-160 | normalizing twice is normalizing once |
| `QuoteLexers.NormMonotone` | common/chat-peg-parser.cpp:83-160 | more input only extends the output, except exactly when the input was cut between a backslash and a single quote inside a single-quoted string |
| `PythonText.NormalizeKeepsTexts` | common/chat-peg-parser.cpp:78-160 | every literal, in single or double quotes, becomes the JSON literal of the same text, and everything outside literals stays as it stands |
| `ToolCallMapper.RunKeepsInv` | common/chat-peg-parser.cpp:234-407 | over every run a pending call has neither name nor arguments, and the current-call pointer never points into an empty list |
| `ToolCallMapper.FlushIsDead` | common/chat-peg-parser.cpp:217-232 | the flush after the last event changes nothing |
| `ToolCallMapper.DefinedExact` | common/chat-peg-parser.cpp:256-406 | whether a run ever dereferences the current call after an unnamed call was closed can be read off its events in order, without running the mapper |
| `ToolCallMapper.RunHeard` | common/chat-peg-parser.cpp:234-407 | the nodes without an effective tag (enclosing nodes, rules, arguments without a JSON object) can be dropped from a run |
| `ToolCallMapper.Mapper.MapName` | common/chat-peg-parser.cpp:277-292 | the name branch on the object is the name step of the transition function: name, buffered arguments or an opening brace, and publication of the pending call |
| `ToolCallMapper.Mapper.MapArgName` | common/chat-peg-parser.cpp:307-320 | the argument-name branch: comma, opening brace, quoted key, colon, counter |
| `ToolCallMapper.Mapper.ValueText` | common/chat-peg-parser.cpp:322-372 | the text a value adds and the closing quote it leaves pending |
| `ToolCallMapper.Mapper.MapClose` | common/chat-peg-parser.cpp:384-406 | the closing branch, with its loop that appends one brace per open level |
| `ToolCallMapper.Mapper.MapTool` | common/chat-peg-parser.cpp:269-406 | the branches that need a current call: id, name, whole arguments, argument name, value, argument close, call close |
| `ToolCallMapper.Mapper.Map` | common/chat-peg-parser.cpp:234-407 | one event changes the object's whole state as the transition function says |
| `ToolCallMapper.Mapper.FromAst` | common/chat-peg-parser.cpp:217-232 | a fresh mapper fed one parse holds the snapshot of that parse |
| `CallTexts.MessageTexts` | common/chat-peg-parser.cpp:234-249 | content is the text of exactly the content events in order, reasoning that of exactly the reasoning events |
| `CallTexts.ValueRead` | common/chat-peg-parser.cpp:322-324 | of a value's text one space at either end does not count, and everything else does |
| `CallTexts.KeyRead` | common/chat-peg-parser.cpp:307-313 | nor does one space before a key, or any behind |
| `CallTexts.TaggedCallRead` | common/chat-peg-parser.cpp:234-407 | a tagged call with string arguments appends one call with that name, whose text reads back as exactly the keys and values given, in order, whatever such spaces stand around them |
| `CallTexts.JsonCallRead` | common/chat-peg-parser.cpp:269-305 | a call with id, name and JSON arguments appends one call with that name, the id without its quotes and the arguments as they stand, all without the spaces behind |
| `CallTexts.ClosingBalances` | common/chat-peg-parser.cpp:384-398 | closing adds the pending quote and as many braces as are open, so that all are closed |
| `StreamGrowth.RunExtends` | common/chat-peg-parser.cpp:234-407 | further events of a well-ordered run only extend content, reasoning, the list of calls and the arguments of the last call |
| `StreamGrowth.EventGrows` | common/chat-peg-parser.cpp:234-407 | an event whose text grew, or that differs only in what the mapper ignores, extends what the other showed; a value as long as it is shown in one way (as it stands, or quoted) |
| `StreamGrowth.StringGrowthExact` | common/chat-peg-parser.cpp:322-336 | a growing string value keeps what was shown, except exactly when it grows from empty while a closing quote is pending |
| `StreamGrowth.ContainerGrowthExact` | common/chat-peg-parser.cpp:337-371 | a growing container value keeps what was shown exactly when it is not cut at an escaped single quote |
| `StreamGrowth.CutQuoteRetracts` | common/chat-peg-parser.cpp:83-160 | the list text `['\` growing by a single quote retracts what was shown |
| `StreamGrowth.PartialLiteralRetracts` | common/chat-peg-parser.cpp:343-371 | a partial literal such as `tru`, shown as a string, is taken back when it becomes `true`: why a growing value must keep the way it is shown |
| `StreamGrowth.WellOrderedHeard` | common/chat-peg-parser.cpp:234-407 | a parse is well ordered exactly when what the mapper hears of it is |
| `StreamGrowth.SnapshotsExtend` | common/chat-peg-parser.cpp:217-407 | when what the mapper hears of a parse grows into what it hears of the next, every text of the first snapshot is a prefix of the second's |
| `StreamGrowth.PartsIgnored` | common/peg-parser.cpp:259-273 | a growing node followed by any nodes of its own parts, visited parent first, is such growth |
| `MessageDiff.ComputeDiffs` | common/chat.cpp:149-215 | the procedure returns the list of deltas, or the error, of the specification |
| `MessageDiff.DiffsLossless` | common/chat.cpp:149-215 | two messages follow one another (every text a prefix, only the last call changing, ids not erased) exactly when the deltas exist and a client that folds them turns the first message into the second |
| `MessageDiff.RefusedExact` | common/chat.cpp:149-202 | an update is refused exactly when a text is exchanged, calls are missing, or the last call got another name |
| `MessageDiff.NothingNew` | common/chat.cpp:158-206 | an unchanged message has no deltas |
| `MessageDiff.DiffsCount` | common/chat.cpp:158-212 | one delta for each text that changed, one for the last call already sent exactly when its arguments lengthened or its name or id changed, and one for each new call |
| `MessageDiff.EmptyDeltaExact` | common/chat.cpp:158-212 | a delta without any text is sent exactly when a text got shorter, the last call lost its name and id, or a new call is empty |
| `MessageDiff.NoEmptyDelta` | common/chat.cpp:158-212 | when the messages follow one another, only for an empty new call |
| `MessageDiff.CacheGrows` | common/chat.h:131-143 | the id cache keeps every id it has handed out, in order, and covers all calls |
| `MessageDiff.FirstMet` | common/chat.h:131-143 | a call first met keeps its own id; the others get the answers of the generator, in order |
| `MessageDiff.IdCache.SetToolCallIds` | common/chat.h:131-143 | the loop extends the cache and overwrites every call's id with the cached one |
| `StreamingPipeline.TaskState.UpdateChatMsg` | tools/server/server-task.cpp:157-175 | one server update: parse, skip an empty message, stamp ids, compute deltas against the previous message |
| `StreamingPipeline.StreamingLossless` | tools/server/server-task.cpp:157-175 | over any sequence of well-ordered parses that use no discarded call and of which each, as far as the mapper listens, grows into the next, no update fails, and the client that started empty and folded all deltas holds exactly the last message with its ids |
| `StreamingPipeline.IdsStable` | common/chat.h:131-143 | the id a client saw for a call never changes later |
| `StreamingPipeline.JsonArgumentsStream` | common/chat-peg-parser.cpp:599-602 | a call whose JSON arguments grow, each time followed by the nodes of their parts, is such a sequence |
| `NameTiming.SwapName` | common/chat-peg-parser.cpp:213-320 | the tool name and the next event of an unnamed call can be swapped, except exactly when that event is a value that would be the first thing written |
| `NameTiming.NameMoves` | common/chat-peg-parser.cpp:213-382 | the name may move to any position of a body whose values each follow their argument name |
| `NameTiming.NameTimingInvisible` | common/chat-peg-parser.cpp:213-406 | in a whole run, two positions of the name give the same final state, whatever follows and whatever nodes without effect lie between |
| `TaggedCallJson.ObjectReadsBack` | common/chat-peg-parser.cpp:307-320 | the object text with commas and quotes as the mapper writes them reads back as exactly its members, in order |
| `TaggedCallJson.ClosingAddsOneBrace` | common/chat-peg-parser.cpp:384-398 | such a text has brace depth 1 outside strings, so closing it adds exactly one brace and leaves depth 0 |
| `TaggedCallJson.TaggedCallPrintsJson` | common/chat-peg-parser.cpp:234-407 | for any string arguments, any position of the name and any nodes without effect between, the run of a tagged call appends one call whose arguments are the JSON object of those arguments in order |
| `TypedCallJson.TypedCallPrints` | common/chat-peg-parser.cpp:234-407 | for arguments of any type: a declared string is printed as a JSON string, any other value as it stands (with quotes rewritten) if that is JSON and as a JSON string if it is not; the call has all of them in order between one pair of braces |
| `TensorAlgebra.UnravelRavel` | convert_lora_to_gguf.py:131-155 | row-major flattening of a valid index is undone by division and remainder |
| `TensorAlgebra.RavelUnravel` | convert_lora_to_gguf.py:131-155 | and the other way round, within the shape |
| `TensorAlgebra.MatMulAt` | convert_lora_to_gguf.py:41-54 | an element of a broadcast batched matrix product is the sum over the shared dimension |
| `TensorPlaces.SliceExact` | convert_lora_to_gguf.py:73-77 | a slice takes the places first, first + step and so on below stop, where negative bounds count from the end and missing ones are the ends |
| `TensorPlaces.ItemExact` | convert_lora_to_gguf.py:99-113 | an index tuple gives exactly the elements it takes, each in its place |
| `TensorPlaces.SliceRows` | convert_lora_to_gguf.py:73-77 | row i of a slice is row first + i * step of the tensor |
| `TensorPlaces.CutAndJoin` | convert_lora_to_gguf.py:207-220 | cutting a tensor into its rows up to m and from m and joining them gives it back |
| `TensorPlaces.CatPlaces` | convert_lora_to_gguf.py:207-220 | joined tensors stand one behind the other in the order of the operands |
| `TensorPlaces.PermutePlaces` | convert_lora_to_gguf.py:163-174 | axis i of a permuted tensor is axis ds[i] of the operand, in its size and in every index |
| `TensorPlaces.TransposePlaces` | convert_lora_to_gguf.py:176-180 | transposing exchanges two axes, in the shape and in every index |
| `LoraTensor.ShapeExact` | convert_lora_to_gguf.py:122-125 | `shape` is the shape of the product exactly when every leading dimension of A is 1 or that of B |
| `LoraTensor.ProductAt` | convert_lora_to_gguf.py:41-54 | an element of the product a pair stands for is the sum over the rank |
| `LoraTensor.BatchElement` | convert_lora_to_gguf.py:41-54 | each batch of B is multiplied by its own batch of A, or by the only one along an axis where A has one |
| `LoraTensor.AdapterProduct` | convert_lora_to_gguf.py:46-54 | the two matrices of an adapter are accepted exactly when they can be multiplied; the pair is then well formed and its product has the rows of B, the columns of A and in each place the sum over the rank |
| `LoraTensor.SplitCommutes` | convert_lora_to_gguf.py:99-113 | selecting rows in B and columns in A, with matching leading selections, selects in the product |
| `LoraIndexing.GetIntCorrect` | convert_lora_to_gguf.py:68-70 | a plain integer index, where it succeeds, indexes the product |
| `LoraIndexing.GetIntAccepted` | convert_lora_to_gguf.py:68-72 | a plain integer is accepted exactly on batched pairs and within the first axis of both factors, where the product asks for its own first axis only |
| `LoraIndexing.GetSliceExact` | convert_lora_to_gguf.py:73-75 | a plain slice of a batched pair gives a well-formed pair, and stands for the sliced product, exactly when A's first axis is not emptied alone |
| `LoraIndexing.GetSliceMatrix` | convert_lora_to_gguf.py:76-77 | a plain slice of a matrix pair always slices the product |
| `LoraIndexing.GetSliceAccepted` | convert_lora_to_gguf.py:73-77 | plain slices with a positive step are accepted, and no others, by pair and product alike |
| `LoraIndexing.GetEntriesExact` | convert_lora_to_gguf.py:96-113 | an index tuple ending in two slices gives a well-formed pair, and stands for the indexed product, exactly when no leading slice shortens an axis on which A has more than one entry |
| `LoraIndexing.GetEntriesAccepted` | convert_lora_to_gguf.py:96-113 | tuples ending in two slices are accepted exactly when the product accepts them |
| `LoraIndexing.LastTwoMustBeSlices` | convert_lora_to_gguf.py:100-113 | with an integer among the last two indices the result has one dimension more than the indexed product |
| `LoraIndexing.EllipsisExact` | convert_lora_to_gguf.py:82-97 | the expansion of an ellipsis is right exactly when it stands for as many axes as there are other indices, or for more with only full slices behind it |
| `LoraIndexing.GetEllipsisCorrect` | convert_lora_to_gguf.py:82-113 | in those cases indexing with an ellipsis gives a well-formed pair, and indexes the product, exactly when no leading slice shortens an axis on which A has more than one entry |
| `LoraEllipsis.EllipsisAlways` | convert_lora_to_gguf.py:82-113 | where no slice shortens an axis of A and at most as many slices are inserted as the ellipsis stands for, indexing with an ellipsis is right for all pairs of given shapes exactly when, filled up behind the last entry instead, the tuple selects the same places of the product (for rank 0: as many) |
| `LoraEllipsis.SelectionExact` | convert_lora_to_gguf.py:82-113 | two index tuples select the same tensor from the products of all pairs of given shapes exactly when they select the same places |
| `LoraIndexing.TrailingEllipsis` | convert_lora_to_gguf.py:80-81 | a trailing ellipsis can be dropped |
| `LoraReshaping.ReshapeCommutes` | convert_lora_to_gguf.py:131-155 | where `reshape` of a pair with positive rank succeeds, the result stands for the reshaped product, with any inferred dimension |
| `LoraReshaping.ReshapeExact` | convert_lora_to_gguf.py:131-155 | for every rank: the result is well formed, and stands for the product reshaped by PyTorch exactly when at most one dimension was left to be inferred and the rank is positive or the new shape holds as many elements as the product |
| `LoraReshaping.ReshapeAccepted` | convert_lora_to_gguf.py:131-155 | the shapes accepted: the columns stay, A has no leading dimension but 1, and B's rows are regrouped (the last two unless an empty factor makes them void) |
| `LoraReshaping.InferredKeepsElements` | convert_lora_to_gguf.py:140-145 | the inferred dimension makes the new shape hold exactly the elements there are, and the others stay |
| `LoraReshaping.PermuteExact` | convert_lora_to_gguf.py:163-174 | where `permute` succeeds, PyTorch accepts the same axis numbers on the product exactly when none is past the last axis, and then the result stands for the permuted product |
| `LoraReshaping.PermuteAccepted` | convert_lora_to_gguf.py:163-174 | the permutations accepted: the columns stay last and A has no leading dimension but 1, or a matrix is transposed |
| `LoraReshaping.TransposeCommutes` | convert_lora_to_gguf.py:176-180 | where `transpose` succeeds, the result stands for the transposed product |
| `LoraReshaping.TransposeAccepted` | convert_lora_to_gguf.py:176-180 | the axes that can be exchanged: two before the columns where A has no leading dimension but 1, or both of a matrix |
| `LoraJoining.StackCommutes` | convert_lora_to_gguf.py:199-206 | where `torch.stack` of pairs succeeds, the result stands for the stacked products |
| `LoraJoining.StackAccepted` | convert_lora_to_gguf.py:199-206 | stacking is accepted exactly where the products can be stacked and the pairs agree in rank and leading dimensions of A |
| `LoraJoining.CatCommutes` | convert_lora_to_gguf.py:207-215 | where concatenating batched pairs succeeds, it concatenates the products if each A has as many leading rows as its B or the As have one row in all |
| `LoraCatExact.CatExact` | convert_lora_to_gguf.py:207-215 | for operands of given shapes the joined pair stands for the joined products whatever the entries are exactly under that condition, or when the products have no entries or no rank and the rows of the As are as many as those of the Bs |
| `LoraCatExact.BroadcastCatFails` | convert_lora_to_gguf.py:207-215 | when the As have neither one row in all nor as many as the Bs, the joined pair never stands for the joined products |
| `LoraJoining.CatRowsCommutes` | convert_lora_to_gguf.py:216-220 | where concatenating matrix pairs succeeds, which share A, it concatenates the products |
| `LoraJoining.CatAccepted` | convert_lora_to_gguf.py:207-215 | concatenating batched pairs is accepted exactly where the products can be concatenated and the pairs agree in rank and in A's leading dimensions behind the first |
| `LoraJoining.CatRowsAccepted` | convert_lora_to_gguf.py:216-222 | concatenating matrix pairs is accepted exactly when they share A, where the products only need as many columns |
| `LoraChain.OpCommutes` | convert_lora_to_gguf.py:59-180 | each supported operation that succeeds on a pair succeeds on the product, and the results agree |
| `LoraExpression.ExprCommutes` | convert_lora_to_gguf.py:59-220 | so does any expression that nests them with stacking and concatenation: materializing the result equals evaluating the expression on the materialized operands |
| `LoraExpression.NeverIllFormed` | convert_lora_to_gguf.py:59-220 | no such expression, accepted or not, ever meets a pair without a product of its shape on the way |
| `LoraWitnesses.SliceEmptiesA` | convert_lora_to_gguf.py:73-75 | `l[1:]` with A broadcast along the first axis: A is emptied, B keeps a row |
| `LoraWitnesses.SliceKeepsA` | convert_lora_to_gguf.py:99-113 | `l[0:1, :, :]` with two rows in both factors: A keeps both |
| `LoraWitnesses.EllipsisMisses` | convert_lora_to_gguf.py:82-97 | `l[..., 0:1]` on three axes: the slice is applied to the second axis |
| `LoraWitnesses.TwoIntegersAccepted` | convert_lora_to_gguf.py:100-113 | `l[:, 0, 0]` with all dimensions 1: accepted, with a matrix for a vector |
| `LoraWitnesses.EmptyRankGrows` | convert_lora_to_gguf.py:131-155 | a rank-0 pair of shape [2, 1] is reshaped to [3, 1], which its product is not |
| `LoraWitnesses.TwoInferred` | convert_lora_to_gguf.py:140-145 | `reshape(-1, -1)` of a [1, 1] pair is accepted, which PyTorch refuses on the product |
| `LoraWitnesses.AxisPastTheLast` | convert_lora_to_gguf.py:163-168 | `permute(2, 1)` of a matrix pair is accepted, which PyTorch refuses on the product |
| `LoraWitnesses.BroadcastJoined` | convert_lora_to_gguf.py:211-215 | two pairs with one row of A for two of B are joined to two rows of A for four of B, which stands for no joined product |
| `LlamaPermute.RegroupCommutes` | convert_hf_to_gguf.py:2778-2784 | the regrouping of attention rows, written for plain weights, is accepted on every matrix adapter of positive rank whose rows divide into heads of even size, and returns a pair of the same shapes that stands for the regrouped product |
| `LlamaPermute.RowsInterleaved` | convert_hf_to_gguf.py:2778-2784 | that regrouping interleaves the two halves of every head: row y of half z of head x becomes its row 2y + z, in every column |
| `MarkerSegments.SegmentizeMarkers` | common/chat-auto-parser-helpers.cpp:252-282 | the scan returns the segments of the text, defined by first opener and first matching closer |
| `MarkerSegments.SegmentsSound` | common/chat-auto-parser-helpers.cpp:252-282 | the segments join to the text, are non-empty and canonical: a marker runs from an opener to its first matching closer, a text holds no opener unless it is the unclosed rest |
| `MarkerSegments.SegmentsComplete` | common/chat-auto-parser-helpers.cpp:252-282 | segmenting the text of any canonical list returns that list |
| `MarkerSegments.BracketsAreMarkers` | common/chat-auto-parser-helpers.cpp:252-282 | angle and square brackets make markers, each up to its first own closing bracket |
| `MarkerSegments.TextIsText` | common/chat-auto-parser-helpers.cpp:252-282 | other text is one segment up to the next opening bracket |
| `MarkerSegments.UnclosedIsText` | common/chat-auto-parser-helpers.cpp:262-279 | a bracket that is never closed is text up to the end |
| `MarkerDiff.CommonPrefixLen` | common/chat-auto-parser-helpers.cpp:67-74 | the loop finds the length of the longest common prefix |
| `MarkerDiff.CommonSuffixLen` | common/chat-auto-parser-helpers.cpp:76-83 | the loop finds the length of the longest common suffix |
| `MarkerDiff.ClosingLoop` | common/chat-auto-parser-helpers.cpp:100-137 | the two-ended loop over four iterators and two flags reaches the specified cursors |
| `MarkerDiff.FixUpFits` | common/chat-auto-parser-helpers.cpp:139-163 | unless it rematches, the fix-up leaves a prefix, a suffix and two remainders that together are the two inputs |
| `MarkerDiff.FinishSplit` | common/chat-auto-parser-helpers.cpp:165-189 | remainders, text refinement without overlap, and the degenerate case |
| `MarkerDiff.CalculateDiffSplit` | common/chat-auto-parser-helpers.cpp:85-190 | the whole procedure returns the specified split |
| `MarkerDiff.DiffExact` | common/chat-auto-parser-helpers.cpp:85-190 | prefix, difference and suffix rebuild both inputs exactly when the fix-up does not match again a segment the loop has already consumed on one side |
| `MarkerDiff.RematchedExact` | common/chat-auto-parser-helpers.cpp:100-163 | that happens exactly when one segment list is two halves of equal count and the other the same halves with segments in between, whose first or last is the first of the second half (a single one in between must be a marker) |
| `MarkerBest.DiffIsBest` | common/chat-auto-parser-helpers.cpp:85-190 | unless a consumed segment is matched again the difference is what can be read off the segments: the shared segments at either end, meeting in the middle where they overlap, then the longest common end and beginning of text between them |
| `MarkerBest.GuardedIsBest` | common/chat-auto-parser-helpers.cpp:85-190 | with the missing test this holds for all inputs |
| `MarkerBest.DifferenceMinimal` | common/chat-auto-parser-helpers.cpp:165-181 | what is left on both sides differs in its first character, unless one begins with an opening bracket, and in its last, unless one ends with a closing one |
| `MarkerBest.PlainDifference` | common/chat-auto-parser-helpers.cpp:165-181 | texts without brackets share their longest common end, and of the rest their longest common beginning |
| `MarkerBest.LongestFront` | common/chat-auto-parser-helpers.cpp:67-74 | beginnings of equal length are equal exactly up to the common prefix |
| `MarkerBest.LongestBack` | common/chat-auto-parser-helpers.cpp:76-83 | and ends exactly up to the common suffix |
| `MarkerDiff.RematchWitness` | common/chat-auto-parser-helpers.cpp:139-163 | `<a><b>` against `<a><b><b>`: the result drops the second `<b>` |
| `MarkerDiff.GuardedLossless` | common/chat-auto-parser-helpers.cpp:139-163 | with the missing test in the fix-up both inputs are always rebuilt, and results that were right stay the same |
| `MarkerDiff.EqualInputs` | common/chat-auto-parser-helpers.cpp:183-188 | equal inputs give an empty difference with the whole input as prefix |
| `MarkerDiff.NoDifferenceExact` | common/chat-auto-parser-helpers.cpp:183-188 | when nothing is rematched, an empty difference is reported exactly for equal inputs |
| `Base64.EncodeTo` | common/base64.hpp:80-144 | the loop writes the encoding, of exactly the required size |
| `Base64.EncodeSize` | common/base64.hpp:338-341 | `required_encode_size` is exact |
| `Base64.SymbolsAre` | common/base64.hpp:83-86 | the symbols are those of RFC 4648, in both alphabets |
| `Base64.EncodeBits` | common/base64.hpp:80-144 | three bytes, the first highest, are the number of four symbols, the first highest; missing bits are zero and equals signs fill the last block |
| `Base64.FoobarEncodes` | common/base64.hpp:80-144 | the longest example of RFC 4648 section 10: `foobar` is `Zm9vYmFy` |
| `Base64.DecodeTo` | common/base64.hpp:200-244 | the loop over characters, alphabet, last value and pending bits computes the decoding or its error |
| `Base64.DecodeSize` | common/base64.hpp:324-327 | a decoding has 3n/4 bytes, rounded down, for n characters before the padding, and `max_decode_size` bounds it |
| `Base64.DecodeEncode` | common/base64.hpp:80-244 | decoding undoes encoding for every byte string and both alphabets, given or detected |
| `Base64.EncodeDecode` | common/base64.hpp:80-244 | encoding undoes decoding on every canonically padded text whose spare bits are zero |
| `Base64.EncodeCanonical` | common/base64.hpp:80-144 | encoding produces only such texts |
| `Base64.DetectExact` | common/base64.hpp:344-389 | detection succeeds exactly when one of the two alphabets does, with the same bytes |
| `Base64.DecodeBodyInPlace` | common/base64.hpp:200-229 | decoding into the buffer being read: the write cursor never passes the read cursor |
| `Base64.DecodeInPlace` | common/base64.hpp:309-313 | in-place decoding leaves exactly the out-of-place result followed by the untouched rest; on an error the bytes decoded before it, followed by the untouched rest |
| `GgmlFormat.WrapExact` | convert_llama_ggml_to_gguf.py:126-127 | a 64-bit value is exact exactly when it fits |
| `GgmlBytes.HeaderExact` | convert_llama_ggml_to_gguf.py:145-166 | `lmgg` starts a GGML file, `fmgg` a GGMF file of version 1, `tjgg` a GGJT file of version 1 to 3, numbers having their lowest byte first; nothing else is accepted |
| `GgmlBytes.ConvertedTypes` | convert_llama_ggml_to_gguf.py:59-71 | a loaded file has a known type, 0 or 1 before GGJT version 2, and none of the types changed since in version 2 |
| `GgmlBytes.RefusedTypes` | convert_llama_ggml_to_gguf.py:168-178 | a file is refused as not convertible exactly for the other combinations |
| `GgmlBytes.HyperExact` | convert_llama_ggml_to_gguf.py:59-71 | the hyperparameters are accepted exactly when seven numbers are there and the last is 0 to 4 or 7 to 18 |
| `GgmlBytes.ItemPlaces` | convert_llama_ggml_to_gguf.py:84-98 | a token is its length, its text and perhaps four bytes of score |
| `GgmlBytes.RecordPlaces` | convert_llama_ggml_to_gguf.py:110-131 | a record is three numbers, the dimensions, the name, and the tensor on the next 32-byte boundary if padded |
| `GgmlBytes.RecordAccepted` | convert_llama_ggml_to_gguf.py:110-121 | a record is accepted exactly with at most four dimensions, all there, a name shorter than 4096 bytes and a known type |
| `GgmlBytes.FormatOptions` | convert_llama_ggml_to_gguf.py:180-190 | scores come with GGMF and GGJT files, padding with GGJT files |
| `GgmlBytes.KnownTypes` | gguf-py/gguf/constants.py:3913-3947 | exactly the types 0 to 3, 6 to 30, 34, 35, 39 and 40 have a block size |
| `GgmlBytes.LargeBlocks` | gguf-py/gguf/constants.py:3922-3927 | the bytes of a block of 256 values, added up from its parts |
| `GgmlBytes.FeedForwardExact` | convert_llama_ggml_to_gguf.py:53-57 | the feed-forward size is the second dimension of the last tensor named `layers.0.feed_forward.w1.weight` |
| `GgmlFormat.TensorBytesExact` | convert_llama_ggml_to_gguf.py:126-127 | the 64-bit size computation is the exact size of a tensor as long as the size before division into blocks fits |
| `GgmlFormat.TensorMapLast` | convert_llama_ggml_to_gguf.py:189-194 | the tensor index holds exactly the names present, each leading to the last tensor that carries it |
| `GgmlLayout.LoadsWhatIsLaidOut` | convert_llama_ggml_to_gguf.py:180-200 | loading the image of a well-formed file, whose tensors have the exact size of their dimensions and type, returns exactly its header, hyperparameters, vocabulary and tensor records, with the final offset at the end |
| `GgmlLayout.LoadedWasLaidOut` | convert_llama_ggml_to_gguf.py:180-200 | a load that ends where the data ends, and whose tensor sizes fit 64 bits, has read the image of a well-formed file, and returns what it says |
| `GgmlLayout.LoadExact` | convert_llama_ggml_to_gguf.py:180-200 | data is accepted with the final offset at its end and with tensor sizes that fit 64 bits exactly when it is such an image |
| `GgmlLayout.SmallestIsGood` | convert_llama_ggml_to_gguf.py:53-57 | such images exist: a file without vocabulary and with the one tensor the loader insists on |
| `GgmlLayout.AdvanceExact` | convert_llama_ggml_to_gguf.py:110-131 | a record advances the offset exactly when head, dimensions, name, padding and computed size add up to more than nothing |
| `GgmlLayout.ForwardLoopEnds` | convert_llama_ggml_to_gguf.py:188-194 | as long as no record met has a negative size the loop ends within one record for each byte |
| `GgmlLayout.MoreSteps` | convert_llama_ggml_to_gguf.py:188-194 | once the loop has ended, a larger bound on the number of records changes nothing |
| `GgmlLayout.TensorRanges` | convert_llama_ggml_to_gguf.py:110-131 | in every accepted file without negative sizes, truncated or not, tensor data ranges are disjoint and in order, start on 32-byte boundaries when padded, only the last can reach past the data, and the final offset is its end |
| `GgmlLayout.ContentsFound` | convert_llama_ggml_to_gguf.py:110-131 | the bytes at a loaded tensor's range are its record's content |
| `GgmlBackwards.EndlessLoad` | convert_llama_ggml_to_gguf.py:126-130 | a file of 60 bytes whose only record steps back by its own length: no number of records ends the loop |
| `GgmlBackwards.NestedLoad` | convert_llama_ggml_to_gguf.py:126-130 | a file of 115 bytes is accepted with the offset at its end, its second tensor inside the name of its first, though it is the image of no well-formed file |
| `GgmlBackwards.ShortLoad` | convert_llama_ggml_to_gguf.py:110-131 | a file that lacks its last byte is accepted, with the final offset one past its end |
| `GgmlLoader.GgmlModel.ValidateHeader` | convert_llama_ggml_to_gguf.py:145-166 | format, version and header size, or the error |
| `GgmlLoader.Hyperparameters.Load` | convert_llama_ggml_to_gguf.py:59-73 | sets the seven fields, each from its own four bytes, or fails on a short read or unknown file type |
| `GgmlLoader.Vocab.Load` | convert_llama_ggml_to_gguf.py:84-98 | the loop appends every token with its score |
| `GgmlLoader.Tensor.Load` | convert_llama_ggml_to_gguf.py:110-131 | name, dimensions, type, aligned start and byte length of one record, and the step, which may be negative |
| `GgmlLoader.GgmlModel.LoadTensors` | convert_llama_ggml_to_gguf.py:188-194 | the data-driven loop, cut off after a given number of records, returns the tensors and the index of the rest of the file |
| `GgmlLoader.GgmlModel.SetNFf` | convert_llama_ggml_to_gguf.py:53-57 | the feed-forward size is the second dimension of the last tensor of that name |
| `GgmlLoader.GgmlModel.Load` | convert_llama_ggml_to_gguf.py:180-200 | the object holds the parsed model, index included, and the final offset is returned; a load that fails before the tensors are read leaves the earlier model in place but for format and version, one that fails on the feed-forward size leaves the new parts without it |
| `CsvRow.ParseCsvRow` | common/arg.cpp:942-984 | the loop returns the fields of the two-state parser |
| `CsvRow.ParsePrint` | common/arg.cpp:942-984 | parsing undoes every printer that quotes at least the fields that need it and doubles inner quotes |
| `CsvRow.PlainExact` | common/arg.cpp:950-958 | a bare field reads back as itself exactly when it has no comma and does not start with a quote |
| `Escapes.ProcessEscapes` | common/common.cpp:576-611 | processing in place leaves the left-to-right unescaping of the original text; the write index never passes the read index |
| `Escapes.ProcessEscape` | common/common.cpp:581-604 | one backslash, with the fall-through that writes two characters |
| `Escapes.UnescapeEscape` | common/common.cpp:576-611 | processing undoes a printer that escapes backslash, quotes, newline, return and tab |
| `Escapes.UnescapePrint` | common/common.cpp:576-611 | and every printer that writes characters as they are, by a letter for code 10, 13, 9, 39, 34 or 92, as two hexadecimal digits, the first counting sixteen times, or as one digit behind a space or sign |
| `Escapes.UnescapeFixed` | common/common.cpp:576-611 | exactly the texts without a known escape stay as they are |
| `SplitJoin.StringSplit` | common/common.cpp:471-485 | the loop ends for every non-empty delimiter and returns the split |
| `SplitJoin.StringJoin` | common/common.cpp:460-469 | the loop returns the values with separators between them |
| `SplitJoin.StringReplaceAll` | common/common.cpp:438-453 | replacing is joining the split with the replacement |
| `SplitJoin.JoinSplit` | common/common.cpp:460-485 | joining what was split gives the text back |
| `SplitJoin.SplitJoinExact` | common/common.cpp:460-485 | splitting what was joined gives the parts back exactly when no delimiter is found before a part's end |
| `CpuMask.ParseCpuMask` | common/common.cpp:325-359 | slot i is set exactly when it was set before or bit i of the hexadecimal number is 1; an invalid digit ends the parse with the slots of the digits before it set |
| `CpuMask.DigitBitIsBit` | common/common.cpp:335-356 | the slots the digits select one by one are the bits of the number they stand for |
| `CpuMask.PrefixIgnored` | common/common.cpp:326-333 | behind the prefix `0x` the first 128 characters are the digits, and without it the same |
| `WordWrap.BreakIntoLines` | common/arg.cpp:148-173 | the output is the wrapped lines of every input line, in order |
| `WordWrap.WrapWords` | common/arg.cpp:156-166 | the loop prints the greedy layout of the words |
| `WordWrap.WrapOptimal` | common/arg.cpp:152-168 | the greedy layout keeps all words in order, every line fits or is a single word, and no such layout has fewer lines |
| `WordWrap.WordsKeepLetters` | common/arg.cpp:156-158 | reading words loses nothing but spaces |
| `WordWrap.WordsSpaced` | common/arg.cpp:156-158 | words with any spaces between and around them are read as those words |
| `WordWrap.VanishingLine` | common/arg.cpp:152-168 | a line prints nothing exactly when it is too long and holds only spaces |
| `WordWrap.FittingLines` | common/arg.cpp:153-154 | lines that fit come out as they are |
| `WordWrap.LongLine` | common/arg.cpp:155-167 | a line that does not comes out as its words with single spaces between them, every line full |

## Left out

- StreamGrowth.SnapshotsExtend: a growing value that changes the way it is shown (as it stands, quoted, or as the string it denotes) is outside the growth condition, because it can be retracted; `PartialLiteralRetracts` is the example.
- ToolCallMapper.Mapper.Map: the source keeps a pointer to a discarded call after an unnamed call closes; events that would dereference it before the next call opens have no defined effect and are excluded by the precondition, which `DefinedExact` reads off the events.
- MessageDiff.ComputeDiffs: the role, content parts, tool name and call id of a message take no part in deltas and are not modelled; errors are constructors, their texts are left out.
- StreamingPipeline.TaskState.UpdateChatMsg: the `filter_tool_calls` branch, which holds deltas back until a call's name is known to be complete, is not modelled; no caller in the repository asks for it.
- JsonText.ReadStringQuote: characters above ASCII pass through unchanged and `\u` escapes are read for codes below 256 only; UTF-8 validation is left out.
- LoraIndexing.GetEllipsisCorrect: tuples with more than one ellipsis and tensors as indices are left out; other lists of entries with an equal effect are the matter of `LoraEllipsis`.
- LoraJoining.StackCommutes: joining along another axis than the first is refused by the source and not modelled.
- LlamaPermute.RegroupCommutes: whether the number of heads or of key-value heads is passed is the caller's choice.
- GgmlLoader.GgmlModel.LoadTensors: the number of records is bounded by a parameter, since the source's loop need not end; the results hold for every bound, and larger ones change nothing once the loop has ended (`MoreSteps`). An offset is an unbounded integer except where a size is added to it in 64 bits.
- Escapes.ProcessEscapes: characters are bytes; the final `resize` is the returned length.
- WordWrap.BreakIntoLines: spaces are those of the "C" locale.
- The PEG engine, grammars and parser builders: the mapper's input is an event sequence.
- The JSON library: parsing a value is an oracle that says not JSON, a string with its contents, or another value.
- Template heuristics, `until_common_prefix` and `after_common_suffix`: they would add only easy members.
- torch dtypes, devices and rounding: matrix entries are exact reals.
- Index widths: lengths and offsets are unbounded integers, except for the 64-bit tensor sizes of the loader.
- Logging, help texts, option tables, downloads, model conversion after loading, and the network clients.
