# libtopologies in Dafny

libtopologies reads a JSON description of a network topology (modules,
simple modules, gates, submodules, connections, loops, conditionals and
graph products). It expands the description into an undirected graph of
entity vertices (`NODE_NODE`) and gate vertices (`NODE_GATE`), compacts gate
chains into direct entity–entity edges, and prints the graph in the Graphviz
DOT language. This project models the core of the library and proves its
properties. The parts are:

- **The token-stream deserializer** of `src/parser.c`:
  - `json_str_eq`, the RFC 8259 section 7 escape decoder `jsmn_nstr` and `json_str_cpy`;
  - `bad_token`'s line/column report and the state names;
  - the sub-parsers `parse_submodule`, `parse_replace` and `parse_connection`;
  - the `json_deserialize` state machine over a jsmn token array given as input records (modules `Tokens`, `Parser`, `Deserializer`).
- **The expansion** of `src/topologies.c`:
  - `find_module`, `add_auto_gate`, `graph_eval_and_add_edge`, `add_gate`, `traverse_and_add_conns`, `graphs_product`, `graph_insert`, `add_submodule`, `expand_module`, `enter_and_expand_module`, `topologies_definition_to_graph`;
  - it is driven by the name stack of `name_stack.c` and the parameter stack of `param_stack.c`.
  - Every procedure is specified by a function on values (`Expansion`), implemented by methods on the graph and stack objects (`Topologies`), with the laws in `ExpansionLaws`.
- **The graph products** of `src/products.c` (`Products`, `ProductLaws`). Each method is specified by the exact list of graph calls it makes (`GraphOps`).
- **The compaction** `graph_find_end_and_mark` / `topologies_graph_compact` (`Compaction`).
- **The adjacency-array graph store and DOT serializer** of `src/graph.c` (`GraphStore`).
- **The error table and `return_error`** of `src/errors.c` (`Errors`).
- **The first-generation linked-list graph and its compaction pass**, from the root `graph.c` and `topologies.c` (`Legacy`).

Objects that the C code updates in place are classes with `modifies` clauses. These are the graph, the name stack, the parameter stack, the definition being deserialized, and the legacy graph. Each of their methods is proved against a function on values. Loops stay loops, with their invariants.

Expression evaluation (tinyexpr behind `param_stack_eval`) is a function parameter `ev` from an expression and the visible bindings to an optional real. `lrint` is modelled as round-half-even.

## Model

| member | source | states |
|---|---|---|
| Basics.DecimalRoundTrip | name_stack.c:34-36 | the `%d` text of any integer reads back as that integer, so distinct indices print differently |
| Basics.FindFirst | param_stack.c:135-147 | `strchr` from a position returns the first occurrence at or after it, or none when there is no occurrence |
| Basics.CStrTerminated | src/parser.c:143-150 | a C string followed by its NUL and anything else reads back as itself |
| Errors.TableLayout | src/__errors.h:1-18 | the table lists codes 1..13 in order, followed by the sentinel entry with id 0 |
| Errors.MessagesPlain | src/__errors.h:1-18 | no message contains a NUL, so each one reads back whole from the concatenated `errmsg[]` |
| Errors.MessageCoverage | src/errors.c:19-26 | exactly the codes 1..13 have a message of their own; 0 and `TOP_E_ROOT` (14, missing from the table) get "No error information" |
| Errors.Ids | src/errors.c:7-10 | `errid[]` holds each table id cut to an unsigned char, entry by entry |
| Errors.ScanStop | src/errors.c:23 | the id scan stops at the first entry equal to e or 0, and at none before it |
| Errors.ScanStopUnique | src/errors.c:23 | any index with that stopping property is the one the scan finds |
| Errors.ScanTable | src/errors.c:19-26 | the two loops of `strerror_custom`, over any well-formed table, reach the offset of the message paired with the stop index |
| Errors.SkipString | src/errors.c:24 | the inner loop steps over exactly one string and its NUL |
| Errors.ScanFindsMessage | src/errors.c:19-26 | for the shipped table, the scan stops at the message `MessageOf` pairs with e |
| Errors.StrErrorCustom | src/errors.c:19-26 | `strerror_custom` returns an offset whose C string is `MessageOf(e)` |
| Errors.SuffixRoom | src/errors.c:37 | corrected room for the suffix: it fills the buffer to its end when the message fits, and is 0 otherwise |
| Errors.BoundedPrint | src/errors.c:36 | `snprintf(buf+off, room, "%s", t)` writes min(\|t\|, room-1) bytes and a NUL, nothing when room is 0, and keeps every other byte |
| Errors.PrintMessageAndSuffix | src/errors.c:36-37 | the buffer holds message+suffix cut to size-1 bytes, then a NUL |
| Errors.ReturnError | src/errors.c:29-41 | always returns e; a buffer of size 0 is untouched; otherwise it holds the code's message and the suffix, truncated and NUL-terminated |
| Errors.ShortBufferOverflowsAsWritten | src/errors.c:37 | as written, a 4-byte buffer and `TOP_E_CONN` put the suffix window past the buffer's end with a wrapped size |
| NameStack.JoinSnoc | name_stack.c:53-72 | entering one more level extends the joined name by "." and that level |
| NameStack.NameFitsBuffer | name_stack.c:56-63 | the length computed by the first loop of `name_stack_name` is exactly the joined name plus its NUL |
| NameStack.FullNameIsChildName | name_stack.c:74-94 | `get_full_name(s, name, i)` equals the name of the stack after entering `name`/`name[i]`, for every i >= -1 |
| NameStack.LeaveUndoesEnter | name_stack.c:40-51 | leaving after entering restores the stack, whatever the level |
| NameStack.Stack.constructor | name_stack.c:9-17 | a one-entry stack holding the name |
| NameStack.Stack.Enter | name_stack.c:20-38 | appends `name` (or `name[index]` for index >= 0) at the tail and keeps earlier entries (corrected for index < 0) |
| NameStack.Stack.Leave | name_stack.c:40-51 | drops the tail entry; does nothing when only the root remains |
| NameStack.Stack.Name | name_stack.c:53-72 | returns every entry from root to tail joined by "." |
| NameStack.Stack.ChildName | name_stack.c:74-94 | returns the stack's name, ".", the name, and `[index]` unless index is -1 |
| NameStack.EnterLeaveLosesRootAsWritten | name_stack.c:29-33 | as written, entering an unindexed level overwrites the root name, and leaving does not restore it |
| ParamStack.Lrint | param_stack.c:156 | rounds to the nearest integer, ties to even |
| ParamStack.TeVars | param_stack.c:37-60 | whole-name reference list (the evidently intended duplicate test): after visiting the k newest bindings, only visited indices are listed |
| ParamStack.Visible | param_stack.c:57-58 | the evaluator sees the listed bindings, in list order |
| ParamStack.TeVarsAsWritten | param_stack.c:37-60 | the list as the code builds it, with the prefix test: only visited indices are listed |
| ParamStack.TeVarsAsWrittenStep | param_stack.c:41-55 | one turn skips binding i exactly when its name is a prefix of a listed name, and otherwise appends i |
| ParamStack.TeVarsAsWrittenCovers | param_stack.c:37-60 | every visited binding's name is a prefix of some listed binding's name |
| ParamStack.TeVarsAsWrittenExact | param_stack.c:37-60 | a binding is listed exactly when it is visited and its name is a prefix of no newer binding's name |
| ParamStack.ListedPrefix | param_stack.c:41-48 | a prefix of a name that passes the written test passes it too |
| ParamStack.PrefixTransitive | param_stack.c:42-43 | a prefix of a prefix is a prefix |
| ParamStack.TeVarsAsWrittenAgrees | param_stack.c:37-60 | when no visited name is a proper prefix of a newer one, the written list is the whole-name list |
| ParamStack.NewestListedFirstAsWritten | param_stack.c:38 | the newest binding heads the written list |
| ParamStack.TeVarsNewestWins | param_stack.c:37-60 | in the whole-name reference list, a binding is listed exactly when no newer binding has its name |
| ParamStack.TeVarsListsVisitedNames | param_stack.c:37-60 | in the whole-name reference list, a name is listed exactly when some visited binding has it |
| ParamStack.TeVarsNewestFirst | param_stack.c:37-60 | the whole-name reference list is strictly newest first, with no binding listed twice |
| ParamStack.NewestListedFirst | param_stack.c:38 | the newest binding heads a non-empty whole-name list |
| ParamStack.OwnNameVisibleUnset | param_stack.c:81-94 | during its own evaluation, a pushed name is the first variable and has no value |
| ParamStack.PrefixNameHiddenAsWritten | param_stack.c:41-48 | as written, binding `n` below `nn` hides `n`; the whole-name list shows both |
| ParamStack.IndexValuesFail | param_stack.c:146-155 | `eval_conn_name` returns NULL exactly when some '[' is unclosed or its expression fails |
| ParamStack.NoIndexUnchanged | param_stack.c:127-178 | a name without '[' comes back unchanged |
| ParamStack.OneIndexBrackets | param_stack.c:145-160 | in `a[e]b` with one pair, the scans find '[' at \|a\| and ']' right after e |
| ParamStack.Texts | param_stack.c:167-175 | each index value is written as its `%d` text |
| ParamStack.OneIndexSubstituted | param_stack.c:127-178 | in `a[e]b`, e is replaced by its rounded value and all other text is copied |
| ParamStack.AlreadyListed | param_stack.c:41-48 | the inner loop answers whether the binding's name is a prefix of a listed binding's name (`strncmp` over its own length) |
| ParamStack.SubstituteIndices | param_stack.c:162-176 | the third loop writes the text with each value after its '[' |
| ParamStack.NextPiece | param_stack.c:167-175 | one turn of the third loop writes its piece and moves strictly forward |
| ParamStack.Stack.constructor | param_stack.c:13-21 | an empty stack with room for one block |
| ParamStack.Stack.Leave | param_stack.c:23-27 | pops exactly the top binding |
| ParamStack.Stack.Reserve | param_stack.c:84-88 | room for one more binding; capacity grows by one block when full |
| ParamStack.Stack.EnterVal | param_stack.c:96-109 | pushes (name, d) on top and keeps lower bindings |
| ParamStack.Stack.ToTeVars | param_stack.c:29-63 | returns the indices the prefix test lists, newest first |
| ParamStack.Stack.Eval | param_stack.c:65-79 | returns -1 exactly when the expression does not compile over the bindings the prefix test lists, else 0 and its value |
| ParamStack.Stack.Enter | param_stack.c:81-94 | pushes the name unset, then binds it to its value evaluated with the name visible; -1 exactly on failure |
| ParamStack.Stack.IndexValuesOf | param_stack.c:145-160 | the second loop yields the rounded index values, or None where the C code returns NULL |
| ParamStack.Stack.NextIndex | param_stack.c:146-159 | one turn of the second loop: done, failed, or one value and a strictly later position |
| ParamStack.Stack.EvalConnName | param_stack.c:127-178 | returns the substituted name, or None (NULL) on an unclosed '[' or a failing index |
| GraphOps.Step | src/graph.c:28-52 | one call keeps the store well formed and returns 0 or `TOP_E_CONN` |
| GraphOps.Run | src/graph.c:114-124 | a run of calls keeps the store well formed and ends with 0 or `TOP_E_CONN` |
| GraphOps.RunOne | src/graph.c:114-124 | one call is a one-element run |
| GraphOps.StepExtends | src/graph.c:28-100 | one call only appends vertices and adjacency entries |
| GraphOps.StepNames | src/graph.c:28-52 | one call keeps every name and adds the new vertex's name |
| GraphOps.FoundIfListed | src/graph.c:55-61 | every name of a vertex is found |
| GraphOps.ResolvableWider | src/graph.c:114-124 | a call list that resolves against some names resolves against any superset |
| GraphOps.NamesOf | src/graph.c:55-61 | the vertex names, by index |
| GraphOps.Labels | src/graph.c:28-52 | each vertex's name and type, by index |
| GraphOps.RunAppend | src/graph.c:114-124 | running two call lists in a row equals running their concatenation up to the first failure |
| GraphOps.RunExtends | src/graph.c:28-124 | a run, successful or not, only appends: old vertices keep names, types, attributes and edges |
| GraphOps.RunLabels | src/graph.c:28-52 | a successful run appends exactly its vertex calls' names and types, in order |
| GraphOps.ResolvableRuns | src/graph.c:114-124 | a run whose edge calls all name existing vertices never fails |
| GraphOps.ResolvableAppend | src/graph.c:114-124 | two resolvable call lists compose; the second may use names the first adds |
| GraphOps.Apply | src/graph.c:28-124 | one call on the graph object has the effect `Step` gives |
| GraphOps.ApplyAll | src/graph.c:28-124 | a sequence of calls on the object, stopping at the first failure, has the effect `Run` gives |
| GraphStore.WithNodeFacts | src/graph.c:28-52 | a new vertex with no neighbours keeps the store well formed and reciprocal |
| GraphStore.Append | src/graph.c:72-83 | appending to an adjacency array adds exactly that entry and changes nothing else |
| GraphStore.Targets | src/graph.c:103-111 | the neighbour indices of an adjacency array, in order |
| GraphStore.WithEdgeShape | src/graph.c:69-99 | adding an edge keeps every vertex's name, type and attributes |
| GraphStore.WithEdgeWellFormed | src/graph.c:69-99 | adding an edge between valid ids keeps the store well formed |
| GraphStore.WithEdgeFacts | src/graph.c:69-99 | adding a--b appends b to a's list and a to b's (twice for a loop), keeps the store reciprocal, and touches nothing else |
| GraphStore.WithEdgeReciprocal | src/graph.c:69-99 | adding an edge keeps every adjacency entry recorded at its other end |
| GraphStore.IndexOf | src/graph.c:55-61 | the lowest index with the name, or -1 when no vertex has it |
| GraphStore.IndexOfFirst | src/graph.c:55-61 | the first vertex with the name is the one found |
| GraphStore.EdgeIdPastEndAcceptedAsWritten | src/graph.c:66-67 | as written, a one-vertex graph accepts id 1, which does not exist |
| GraphStore.AttributeSlotSlipAsWritten | src/graph.c:96 | as written, the second attribute store relabels an earlier edge of a and leaves b's slot unlabelled; the intended update does not |
| GraphStore.WithEdgeAsWrittenAgreesIff | src/graph.c:69-99 | the written update stores past a's list exactly when the edge is not a loop and b's old degree reaches a's capacity; it equals the intended one exactly when the edge is a loop, or the store stays inside, the edge has no attributes and a's slot at b's old degree has none |
| GraphStore.NinthGateOverflowsAsWritten | src/graph.c:94-96 | joining a gate with an empty one-block list to a vertex with 8 neighbours stores past the gate's list as written; the intended update stays inside it |
| GraphStore.ShownNodesExact | src/graph.c:131-137 | a vertex gets a line exactly when it is an entity or gates are printed, in index order |
| GraphStore.ShownNodes | src/graph.c:131-137 | the shown vertices among the first m, in index order |
| GraphStore.ShownRowExact | src/graph.c:139-153 | a pair is printed for vertex i exactly when it is one of i's first k entries that is shown |
| GraphStore.HiddenRowEmpty | src/graph.c:138-154 | a hidden vertex gives no edge lines |
| GraphStore.ShownEdgesExact | src/graph.c:138-154 | an entry gets an edge line exactly when its vertex is shown, it points no lower, and (gates hidden) it points at an entity |
| GraphStore.HiddenGatesShowEntityEdgesOnly | src/graph.c:138-154 | with gates hidden, every edge line joins two entities, lower index first |
| GraphStore.DotFramed | src/graph.c:127-156 | the text starts with `graph g {` and ends with `}` |
| GraphStore.Framed | src/graph.c:127-156 | the closing text ends the DOT output |
| GraphStore.MeasureNodes | src/graph.c:161-172 | the header's and the shown vertices' snprintf lengths sum to the length of the header and the vertex lines |
| GraphStore.MeasureNodeStep | src/graph.c:165-171 | one vertex adds the length of its line when shown, nothing for a hidden gate |
| GraphStore.MeasureNode | src/graph.c:166-170 | the three snprintf lengths of a vertex line add up to that line's length |
| GraphStore.MeasureEdge | src/graph.c:183-186 | the three snprintf lengths of an edge line add up to that line's length |
| GraphStore.RowLinesNext | src/graph.c:176-187 | one more adjacency entry appends its line exactly when it is shown |
| GraphStore.MeasureEdgeStep | src/graph.c:177-186 | one adjacency entry grows the sum by its line's length when shown, and not at all when skipped |
| GraphStore.MeasureRow | src/graph.c:174-187 | the measured length of a vertex's row is the length of its shown edge lines; a hidden vertex's row measures 0 |
| GraphStore.Measure | src/graph.c:161-189 | the whole measuring pass sums to exactly the length of the DOT text |
| GraphStore.NulTerminated | src/graph.c:191-226 | a fresh buffer of len+1 bytes holding a text of length len and a NUL |
| GraphStore.NodeStep | src/graph.c:131-137 | one turn of the vertex loop writes vertex i's line, or nothing for a hidden gate |
| GraphStore.EmitNode | src/graph.c:132-136 | the fprintf calls of one vertex line write that line |
| GraphStore.EmitEdge | src/graph.c:142-152 | the fprintf calls of one edge line write that line |
| GraphStore.NodeText | src/graph.c:131-137 | the vertex loop writes the lines of the shown vertices in order |
| GraphStore.EdgeText | src/graph.c:138-154 | the edge loop writes the lines of the shown edges in order |
| GraphStore.RowText | src/graph.c:139-153 | the inner loop writes vertex i's shown edge lines |
| GraphStore.AreAdjacent | src/graph.c:103-111 | false for a NULL vertex, else true exactly when b's index is among a's neighbours |
| GraphStore.AreAdjacentOnStore | src/graph.c:103-111 | on a well-formed store, this agrees with adjacency between i and j |
| GraphStore.Graph.constructor | src/graph.c:12-25 | no vertices, with room for one block |
| GraphStore.Graph.AddNode | src/graph.c:28-52 | appends the vertex at index n_nodes with an empty list and keeps earlier ones; capacity grows by one block when full |
| GraphStore.Graph.FindNode | src/graph.c:55-61 | the lowest index with the name, or -1 |
| GraphStore.Graph.AddEdgeId | src/graph.c:64-100 | `TOP_E_CONN` exactly for an invalid id, with nothing changed: exactly the ids the written check refuses, plus id n_nodes; otherwise the edge is recorded at both ends (corrected attribute slot) |
| GraphStore.Graph.AddEdgeName | src/graph.c:114-124 | `TOP_E_CONN` exactly when a name is unknown; otherwise the edge between the first matches |
| GraphStore.Graph.Print | src/graph.c:127-156 | writes exactly the DOT text |
| GraphStore.Graph.ToText | src/graph.c:159-227 | a buffer of the measured length plus one, holding exactly the DOT text and a NUL; the measured and the written lengths agree |
| Tokens.Tok | src/parser.c:984-1367 | a token read lies within the text, and only an index inside the array gives a typed token |
| Tokens.StrNEqPlain | src/parser.c:31-40 | the `strncmp` over the token compares exactly the remaining bytes |
| Tokens.JsonStrEqIff | src/parser.c:31-40 | true exactly for a STRING token whose text is s, length included |
| Tokens.HexVal | src/parser.c:99-120 | the value read is in 0..15, or -1 for a byte that is no hex digit |
| Tokens.DecodeStep | src/parser.c:76-135 | one round of the decoding loop always moves forward |
| Tokens.Decode | src/parser.c:65-140 | the decoder writes at most room bytes and at most as many as the token has |
| Tokens.DecodeRoomEnough | src/parser.c:143-150 | any room at least the token's length decodes the whole token, so `len + 1` bytes suffice |
| Tokens.DecodeOne | src/parser.c:80-133 | the switch for one byte gives the same byte and position as the decoding step |
| Tokens.NStr | src/parser.c:65-140 | writes the decoded bytes (at most dstn-1 and at most the token length), then a NUL; returns the count and keeps later bytes |
| Tokens.JsonStrCpy | src/parser.c:143-150 | a buffer of the token's length plus one whose C string is the decoded token |
| Tokens.HexDigitValue | src/parser.c:99-120 | a hex digit written for d is read back as d |
| Tokens.EscDecodes | src/parser.c:80-133 | each RFC 8259 section 7 escape of a byte decodes to that byte and moves past the escape |
| Tokens.UnicodeEscapeDecodes | src/parser.c:99-120 | `\u00XY` with hex digits of a control byte reads back as that byte |
| Tokens.StepEscaped | src/parser.c:76-135 | the escape of a string's first byte decodes to that byte, followed by the escape of the rest |
| Tokens.DecodeFirst | src/parser.c:76-79 | decoding starts with the byte of the first step |
| Tokens.EscapeSteps | src/parser.c:76-135 | the escape of s decodes in \|s\| steps, one per byte |
| Tokens.DecodeSteps | src/parser.c:76-135 | decoding along those steps, with enough room, yields s |
| Tokens.EscapeRoundTrip | src/parser.c:65-140 | decoding the JSON escaping of any byte string returns that string |
| Tokens.BadEscapeKept | src/parser.c:96-133 | a backslash that starts no valid escape is copied, and decoding goes on from the byte after it |
| Tokens.StateName | src/parser.c:154-205 | every state's name is `STATE_...` |
| Tokens.StateNameRoundTrip | src/parser.c:154-205 | each name identifies exactly its state |
| Tokens.LastNewline | src/parser.c:236-247 | the last newline before the token, or -1 |
| Tokens.Locate | src/parser.c:236-247 | line = 1 + number of '\n' before the token; column counted from the last newline, 1-based |
| Tokens.FirstLineColumn | src/parser.c:236-247 | on the first line, the column is the offset plus one |
| Tokens.ReportHead | src/parser.c:233-250 | the first part of the report, with type, number, line and column |
| Tokens.BadToken | src/parser.c:233-265 | returns `TOP_E_TOKEN` and fills the buffer with the message and the report (decoded text when end != 0) |
| Parser.ParamEntriesAccept | src/parser.c:281-303 | a params array is accepted exactly when every entry is a one-key object of two strings |
| Parser.ParamEntries | src/parser.c:281-303 | a refusal keeps the state; a parse ends at or after the starting token |
| Parser.EntryParams | src/parser.c:281-303 | the entries from..n-1 give n-from parameters, in order |
| Parser.ParamEntriesValue | src/parser.c:281-303 | an accepted array yields its entries' parameters in order, ending on the last value token |
| Parser.ParseSubmodule | src/parser.c:307-543 | a parsed submodule lies after the object token and is well shaped (a product carries a root exactly when it is rooted; a conditional has an else only with a then, recursively); a one-key object is a product |
| Parser.ParseProduct | src/parser.c:314-357 | the product branch yields a well-shaped product after the object token |
| Parser.ProductOperands | src/parser.c:359-405 | the operands parse into a well-shaped product; the root is present only for a rooted product |
| Parser.SubmoduleCondEntries | src/parser.c:409-478 | the entries of a conditional submodule give a well-shaped conditional: an `else` only with a `then` |
| Parser.InstanceEntries | src/parser.c:479-541 | the entries of a plain submodule give an instance, ending at or after the last key |
| Parser.ParseReplace | src/parser.c:546-588 | an object without exactly two keys is refused at that token; a parsed replacement's submodule is well shaped |
| Parser.ReplaceEntries | src/parser.c:557-587 | the entries of a replacement end at or after the last key, and its submodule is well shaped |
| Parser.SeriesKindOf | src/parser.c:709-725 | reference scan over every key (the evidently intended reading): a series kind is reported only when its key is among the keys before an object value |
| Parser.ScanSeesFirstKeyOnly | src/parser.c:711-725 | the scan as written, from any key on, answers exactly what testing the first key alone answers |
| Parser.ScansAgreeIff | src/parser.c:711-725 | the written scan and the reference scan agree exactly when the first value is an object, or the first key names a kind, or no key names one |
| Parser.ParseConnection | src/parser.c:592-981 | more than five keys are refused at that token; a parsed connection is well shaped (a conditional's `else` only with a `then`, recursively); as written, a parsed series is one whose FIRST key names its kind |
| Parser.LinkEntries | src/parser.c:604-644 | the entries of a link give a link, ending at or after the last key |
| Parser.ConnectionCondEntries | src/parser.c:645-708 | the entries of a conditional connection give a well-shaped conditional: an `else` only with a `then` |
| Parser.LoopEntries | src/parser.c:727-781 | the entries of a loop give a well-shaped loop |
| Parser.SeriesEntries | src/parser.c:782-943 | the entries of a ring, line or all list give a series of the kind found |
| Parser.AllMatchEntries | src/parser.c:945-976 | the entries of an all-match connection give an all-match connection |
| SeriesScan.RingNotFirstRefusedAsWritten | src/parser.c:711-725 | as written, a ring whose first key is `start` is refused (`Bad` at the connection's own token); the corrected reading parses it |
| SeriesScan.RingFirstKeyOnly | src/parser.c:711-725 | the written scan sees only the first key of the example and finds no kind |
| SeriesScan.RingReadAsLoop | src/parser.c:727-781 | read as a loop, the example is refused at its `ring` key |
| SeriesScan.RingScanned | src/parser.c:711-725 | the scan over every key finds `ring` |
| SeriesScan.RingEntries | src/parser.c:836-889 | the example's keys read as a ring's |
| SeriesScan.RingParsed | src/parser.c:592-981 | with that kind, the example parses as a series |
| SeriesScan.LoopOrSeriesCorrected | src/parser.c:709-781 | the corrected four-/five-key reading: a parsed result is well shaped, and a series carries the kind the reference scan finds |
| Deserializer.Zeroed | src/parser.c:1109-1172 | calloc gives n zeroed entries when n > 0, else none |
| Deserializer.StepStart | src/parser.c:1003-1019 | a first token that is not an array is refused; otherwise its size reserves that many zeroed slots after the existing modules |
| Deserializer.StepBetween | src/parser.c:1020-1062 | a pass in the BETWEEN state that goes on keeps the configuration sane, moves forward (a later token, or a lower-ranked state at the same token), and never returns to START |
| Deserializer.StepModule | src/parser.c:1063-1178 | a pass in the MODULE state that goes on keeps the configuration sane, moves forward (a later token, or a lower-ranked state at the same token), and never returns to START |
| Deserializer.StepModuleArray | src/parser.c:1105-1177 | taking an array key in MODULE keeps the configuration sane and moves on by the key and its value |
| Deserializer.StepModuleParams | src/parser.c:1179-1212 | a pass in the MODULE_PARAMS state that goes on keeps the configuration sane, moves forward (a later token, or a lower-ranked state at the same token), and never returns to START |
| Deserializer.NetworkEntry | src/parser.c:1042-1058 | a "network" entry is refused when the definition already has a network or its value is not an object; otherwise it gives back one reserved module slot and starts an empty network, leaving the modules as they were |
| Deserializer.ModuleKeysOnce | src/parser.c:1065-1174 | a second "name", a second "attributes" of a simple module, or a second non-empty submodules/replace/connections/gates array is refused at its value; "attributes" in a compound module is refused at the key; "params" with an array value moves to the params state |
| Deserializer.ParamsOnce | src/parser.c:1179-1212 | a module whose params are already set refuses another params array; an empty params array leaves the modules unchanged |
| Deserializer.StepArrayBetween | src/parser.c:1225-1251 | a pass in the SUBMODULES/CONNECTIONS/REPLACE_BETWEEN state that goes on keeps the configuration sane, moves forward (a later token, or a lower-ranked state at the same token), and never returns to START |
| Deserializer.StepSubmodule | src/parser.c:1264-1275 | a pass in the SUBMODULE state that goes on keeps the configuration sane, moves forward (a later token, or a lower-ranked state at the same token), and never returns to START |
| Deserializer.StepConnection | src/parser.c:1252-1263 | a pass in the CONNECTION state that goes on keeps the configuration sane, moves forward (a later token, or a lower-ranked state at the same token), and never returns to START |
| Deserializer.StepReplace | src/parser.c:1276-1287 | a pass in the REPLACE state that goes on keeps the configuration sane, moves forward (a later token, or a lower-ranked state at the same token), and never returns to START |
| Deserializer.StepGatesBetween | src/parser.c:1213-1224 | a pass in the GATES_BETWEEN state that goes on keeps the configuration sane, moves forward (a later token, or a lower-ranked state at the same token), and never returns to START |
| Deserializer.StepGate | src/parser.c:1288-1306 | a pass in the GATE state that goes on keeps the configuration sane, moves forward (a later token, or a lower-ranked state at the same token), and never returns to START |
| Deserializer.StepNetwork | src/parser.c:1307-1330 | a pass in the NETWORK state that goes on keeps the configuration sane, moves forward (a later token, or a lower-ranked state at the same token), and never returns to START |
| Deserializer.StepNetworkParams | src/parser.c:1331-1362 | a pass in the NETWORK_PARAMS state that goes on keeps the configuration sane, moves forward (a later token, or a lower-ranked state at the same token), and never returns to START |
| Deserializer.Step | src/parser.c:1003-1364 | any pass after START that goes on keeps the configuration sane and moves forward, so the loop ends |
| Deserializer.Deserialized | src/parser.c:984-1367 | a first token that is not an array is refused at token 0 |
| Deserializer.ModuleSlotAsWritten | src/parser.c:1029-1033 | as written, a module entry writes slot m_i+1 with no bound check; the corrected step refuses exactly when that slot is out of range |
| Deserializer.StepKeeps | src/parser.c:1003-1364 | no pass touches the modules that were there before, or the network once set |
| Deserializer.RunKeeps | src/parser.c:1364 | the loop keeps this to its end |
| Deserializer.DeserializeExtends | src/parser.c:1003-1018 | an accepted description appends its modules after the existing ones and leaves those as they were |
| Deserializer.StartKeeps | src/parser.c:1003-1019 | STATE_START reserves zeroed slots after the existing modules and keeps them |
| Deserializer.SubmoduleStored | src/parser.c:1264-1275 | storing a parsed submodule keeps the module well shaped |
| Deserializer.ConnectionStored | src/parser.c:1252-1263 | storing a parsed connection keeps the module well shaped |
| Deserializer.ReplaceStored | src/parser.c:1276-1287 | storing a parsed replacement keeps the module well shaped |
| Deserializer.Definition.PassBetween | src/parser.c:1020-1062 | the in-place BETWEEN state has the effect of `StepBetween` |
| Deserializer.Definition.PassModule | src/parser.c:1063-1178 | the in-place MODULE state has the effect of `StepModule` |
| Deserializer.CopyString | src/parser.c:143-150 | the copied string is the token's decoded C string |
| Deserializer.ReadParams | src/parser.c:1191-1210 | the entry loop yields exactly what the params function gives |
| Deserializer.Definition.constructor | src/defs.h:188-229 | an empty definition |
| Deserializer.Definition.Pass | src/parser.c:1003-1364 | one pass on the object has the effect of the step function |
| Deserializer.Definition.Deserialize | src/parser.c:984-1367 | returns 0 with the definition the step function gives, or `TOP_E_TOKEN` on a refusal |
| SlotOverflow.ModuleSlotOverflow | src/parser.c:1029 | read into an empty definition, `[{"simplemodule":{"gates":[{"g":[{"module":{}}]}]}}]` makes the C code write slot 1 of a one-slot array |
| SlotOverflow.ExampleReaches | src/parser.c:984-1367 | from an empty definition, the loop passes through the example's first nine tokens |
| SlotOverflow.SlotAtReached | src/parser.c:1029 | at token 9 the C code writes slot 1 of one, and the corrected step refuses the key |
| Expansion.FindModule | src/topologies.c:149-156 | the first module with the name, or -1 when there is none |
| Expansion.ModuleLookup | src/topologies.c:149-156 | the loop meets the first module with the name, or the end when every module before it is named otherwise, or a NULL name before either |
| Expansion.Pushed | src/topologies.c:646-649 | each raw parameter pushed in order, with its name, keeping lower bindings; None at the first failure |
| Expansion.SetAttributes | src/topologies.c:663 | rewrites only the attributes of the vertex found |
| Expansion.NeighbourNames | src/topologies.c:68-75 | the names of the vertex's neighbours, in adjacency order |
| Expansion.AutoIndex | src/topologies.c:64-77 | the search from j ends in [j, INT_MAX), or at INT_MAX-1 when everything is taken |
| Expansion.AutoGate | src/topologies.c:56-86 | adds exactly one vertex, extends the store, and returns a valid index |
| Expansion.Endpoint | src/topologies.c:125-131 | the joined endpoint is a valid vertex, and the store only grows |
| Expansion.AddConnection | src/topologies.c:89-146 | on success the store only grows; a failure is an expansion error code |
| Expansion.Connect | src/topologies.c:102-146 | it fails only with `TOP_E_CONN` |
| Expansion.Traverse | src/topologies.c:213-272 | a connection, loop or conditional only extends the store, or fails with an expansion error |
| Expansion.LoopFrom | src/topologies.c:231-244 | the turns j..end-1 only extend the store, or fail with an expansion error |
| Expansion.Turn | src/topologies.c:235-243 | one turn only extends the store, or fails with an expansion error |
| Expansion.ConnectionsFrom | src/topologies.c:730-736 | the connections in order, up to the first failure |
| Expansion.GatesFrom | src/topologies.c:664-720 | the gates in order, up to the first failure |
| Expansion.GraphsProduct | src/topologies.c:275-461 | the product is a well-formed store |
| Expansion.InsertVertexOps | src/topologies.c:478-500 | one vertex call per product vertex, `<scope>.<name>`, same type |
| Expansion.ProductInto | src/topologies.c:561-575 | on success the store only grows; failure is only `TOP_E_CONN` |
| Expansion.ExpandModule | src/topologies.c:642-742 | a module only grows the store (attributes may be written), or fails with an expansion error |
| Expansion.ModuleBody | src/topologies.c:650-737 | between push and pop, the store only grows, or the expansion fails with an expansion error |
| Expansion.SubmodulesFrom | src/topologies.c:722-729 | the submodules i.. in order: the store only grows, or fails with an expansion error |
| Expansion.Copies | src/topologies.c:587-611 | the copies of an instance: the store only grows, or fails with an expansion error |
| Expansion.InstancesFrom | src/topologies.c:597-604 | instances j..count-1: the store only grows, or fails with an expansion error |
| Expansion.SimpleModule | src/topologies.c:650-691 | the same for a simple module |
| Expansion.CompoundModule | src/topologies.c:692-737 | the same for a compound module |
| Expansion.AddSubmodule | src/topologies.c:526-639 | the same for a submodule of any kind |
| Expansion.Operand | src/topologies.c:543-558 | an operand expands into a well-formed store, or fails with an expansion error |
| Expansion.EnterAndExpand | src/topologies.c:190-210 | an instance only grows the store, or fails with an expansion error |
| Expansion.DefinitionToGraph | src/topologies.c:745-804 | `TOP_E_NONET` exactly without a network; `TOP_E_NOMOD` when its module is missing; a NULL read when the network has no module name or the lookup meets an unnamed module first |
| Topologies.FindModule | src/topologies.c:149-156 | when the loop reads no NULL name, it returns the first match, or -1 exactly when the lookup reaches the end |
| Topologies.EvalInt | src/topologies.c:219-230 | `TOP_E_EVAL` exactly when the expression fails over the bindings `param_stack_eval` shows (the prefix-tested list), else its rounded value |
| Topologies.PushParams | src/topologies.c:646-649 | 0 exactly when every parameter evaluates, and the stack is then the pushed one |
| Topologies.PopParams | src/topologies.c:738-740 | pops exactly n bindings |
| Topologies.Seen | src/topologies.c:68-75 | true exactly when some neighbour carries the full name |
| Topologies.NamedAmong | src/topologies.c:68-75 | true exactly when an entry of the list ends at a vertex with the name |
| Topologies.AddAutoGate | src/topologies.c:56-86 | the graph and the index are those `AutoGate` specifies; the name stack comes back unchanged |
| Topologies.EvalAndAddEdge | src/topologies.c:89-146 | the result and graph are those `AddConnection` specifies |
| Topologies.Connect | src/topologies.c:117-146 | from the lookup on, the result and graph are those `Connect` specifies, and the name stack is unchanged |
| Topologies.JoinedEnd | src/topologies.c:125-131 | the graph and endpoint are those `Endpoint` specifies |
| Topologies.TraverseAndAddConns | src/topologies.c:213-272 | the result and graph are those `Traverse` specifies; on success both stacks come back unchanged |
| Topologies.LoopBody | src/topologies.c:235-244 | the loop runs the turns `LoopFrom` specifies |
| Topologies.LoopTurn | src/topologies.c:235-243 | one turn: a failure is the specified one; on success the stacks are restored and the rest of the loop is what remains |
| Topologies.AddConnections | src/topologies.c:730-736 | the connection loop has the effect `ConnectionsFrom` gives |
| Topologies.AddGate | src/topologies.c:159-183 | `add_gate` makes exactly the calls `GateOps` lists |
| Topologies.AddCopies | src/topologies.c:679-689 | the copies of one gate make exactly the calls `CopiesFrom` lists |
| Topologies.AddGates | src/topologies.c:664-720 | the gate loop has the effect `GatesFrom` gives |
| Topologies.GraphsProduct | src/topologies.c:275-461 | builds exactly the `GraphsProduct` store |
| Topologies.InsertVertices | src/topologies.c:478-500 | the vertex loop makes exactly the calls `InsertVertexOps` lists |
| Topologies.InsertRow | src/topologies.c:502-520 | the entries of one product vertex make exactly the listed calls |
| Topologies.InsertEdgeAt | src/topologies.c:504-518 | one entry makes exactly its listed call |
| Topologies.GraphInsert | src/topologies.c:464-523 | makes exactly the calls `InsertOps` lists |
| Topologies.ExpandModule | src/topologies.c:642-742 | has the effect `ExpandModule` specifies; on success both stacks come back unchanged |
| Topologies.ModuleBody | src/topologies.c:650-737 | has the effect `ModuleBody` specifies; on success both stacks are restored |
| Topologies.SimpleModule | src/topologies.c:650-691 | has the effect `SimpleModule` specifies |
| Topologies.CompoundModule | src/topologies.c:692-737 | has the effect `CompoundModule` specifies; on success both stacks are restored |
| Topologies.AddSubmodules | src/topologies.c:722-729 | the submodule loop has the effect `SubmodulesFrom` specifies |
| Topologies.AddSubmodule | src/topologies.c:526-639 | has the effect `AddSubmodule` specifies; on success both stacks come back unchanged |
| Topologies.AddProduct | src/topologies.c:532-575 | a product submodule has the effect `AddSubmodule` specifies |
| Topologies.Operand | src/topologies.c:543-558 | a fresh graph holding the operand `Operand` specifies, expanded and compacted |
| Topologies.InsertProduct | src/topologies.c:561-575 | has the effect `ProductInto` specifies |
| Topologies.AddInstance | src/topologies.c:576-614 | an instance submodule has the effect `AddSubmodule` specifies; on success both stacks are restored |
| Topologies.Copies | src/topologies.c:587-611 | has the effect `Copies` specifies |
| Topologies.Instances | src/topologies.c:597-604 | the instance loop has the effect `InstancesFrom` gives |
| Topologies.EnterAndExpandModule | src/topologies.c:190-210 | has the effect `EnterAndExpand` specifies; on success the scope is left again |
| Topologies.DefinitionToGraph | src/topologies.c:745-804 | 0 with a fresh graph holding the specified store, or the specified code and no graph |
| ExpansionLaws.LookupAgrees | src/topologies.c:149-156 | when the lookup meets no NULL name, it finds exactly the module `FindModule` gives, and is missing exactly when that is -1 |
| ExpansionLaws.ConnectFailsIffMissing | src/topologies.c:117-124 | `TOP_E_CONN` exactly when an endpoint's full name is not in the graph |
| ExpansionLaws.AddConnectionOutcome | src/topologies.c:97-124 | `TOP_E_EVAL` exactly when an endpoint name does not evaluate; `TOP_E_CONN` exactly when both evaluate and one is missing |
| ExpansionLaws.ConnectGatesDirectly | src/topologies.c:125-133 | two gate endpoints are joined by one edge, and nothing else is added |
| ExpansionLaws.ConnectAddsAutoGates | src/topologies.c:125-131 | one auto gate per entity endpoint, and no other vertex |
| ExpansionLaws.EndpointSize | src/topologies.c:125-131 | an endpoint adds a vertex exactly when it is an entity |
| ExpansionLaws.AutoIndexLeast | src/topologies.c:64-77 | the search stops at the least free candidate |
| ExpansionLaws.AutoFullInjective | src/topologies.c:64-67 | distinct candidates have distinct names |
| ExpansionLaws.AutoFullCount | src/topologies.c:64-67 | n candidates give n distinct names |
| ExpansionLaws.AutoIndexFree | src/topologies.c:64-77 | with fewer than INT_MAX neighbours, the chosen name is carried by no neighbour |
| ExpansionLaws.AutoGateJoins | src/topologies.c:56-86 | the auto gate is named `<scope>.<name>._auto[j]` with the least free j, is a gate, and is joined to the entity |
| ExpansionLaws.GateCopiesLabels | src/topologies.c:664-720 | size 0 gives one vertex `<scope>.<gate>`; size n > 0 gives `<scope>.<gate>[0..n-1]`; negative sizes give none |
| ExpansionLaws.GateLabels | src/topologies.c:672-689 | the gate vertices are `<scope>.<gate>` or `<scope>.<gate>[j]`, one per index |
| ExpansionLaws.GatesFailOnlyOnEval | src/topologies.c:664-720 | gates fail only with `TOP_E_EVAL` |
| ExpansionLaws.SimpleModuleFailsOnlyOnEval | src/topologies.c:650-691 | a simple module fails only on a gate size that does not evaluate |
| ExpansionLaws.GraphsProductNeverFails | src/topologies.c:275-461 | `graphs_product` never fails, and its entities are exactly the entity pairs |
| ExpansionLaws.InsertEdgeExact | src/topologies.c:502-518 | the edge loop asks for exactly the entries pointing at or below their own vertex |
| ExpansionLaws.InsertEdgeSound | src/topologies.c:502-520 | every call of the edge loop is one of the listed edges |
| ExpansionLaws.InsertEdgeComplete | src/topologies.c:502-520 | every listed edge is asked for by the edge loop |
| ExpansionLaws.InsertNeverFails | src/topologies.c:464-523 | `graph_insert` never fails and appends exactly `<scope>.<name>` for every product vertex, with its type |
| ExpansionLaws.ProductIntoSucceeds | src/topologies.c:561-575 | a product of compacted operands always inserts successfully |
| ExpansionLaws.ProductFailsOnlyInOperands | src/topologies.c:532-575 | a product submodule fails exactly when one of its operands fails |
| ExpansionLaws.LoopBounds | src/topologies.c:231-244 | `TOP_E_LOOP` when start > end, nothing when start == end, otherwise the turns from start |
| ExpansionLaws.LoopSplit | src/topologies.c:235-244 | the turns j..end-1 are the turns j..k-1 followed by k..end-1 |
| ExpansionLaws.LoopLastTurn | src/topologies.c:235-244 | the last turn runs with the loop variable bound to end-1 |
| ExpansionLaws.ConnectionCondBranch | src/topologies.c:245-266 | the then-branch exactly for a nonzero condition; else the else-branch if there is one, else nothing |
| ExpansionLaws.InstancesSplit | src/topologies.c:597-604 | the instances j..count-1 split at any k |
| ExpansionLaws.CopiesInOrder | src/topologies.c:597-611 | size n > 0 expands `name[0..n-1]` in order; otherwise one unindexed instance |
| ExpansionLaws.InScopeTrans | name_stack.c:53-72 | a name inside a scope nested in another is inside the outer one |
| ExpansionLaws.FullNameInScope | name_stack.c:74-94 | `get_full_name` lies inside the stack's scope |
| ExpansionLaws.TraverseScoped | src/topologies.c:213-272 | every vertex a connection adds is named inside the scope |
| ExpansionLaws.AutoGateScoped | src/topologies.c:56-86 | the auto gate is named inside the scope |
| ExpansionLaws.ConnectScoped | src/topologies.c:89-146 | a connection adds vertices only inside the scope |
| ExpansionLaws.AddSubmoduleScoped | src/topologies.c:526-639 | a submodule adds vertices only inside the scope |
| ExpansionLaws.InsertScoped | src/topologies.c:464-523 | every vertex `graph_insert` adds is `<scope>.<name>` |
| ExpansionLaws.ExpandModuleScoped | src/topologies.c:642-742 | every vertex a module's expansion adds is named inside its scope |
| ExpansionLaws.DefinitionToGraphScoped | src/topologies.c:745-804 | every vertex of the final graph is `network` or `network.<...>` |
| Products.FlattenStep | src/products.c:40-155 | the calls of parts k.. are those of part k followed by the rest |
| Products.GateLoop | src/products.c:81-112 | the neighbour loop makes exactly the gate-copy calls |
| Products.GateStep | src/products.c:81-112 | one gate neighbour: its copy and the edge to it, exactly the listed calls |
| Products.CartALoop | src/products.c:186-207 | the loop over a's neighbours makes exactly the specified calls |
| Products.CartBLoop | src/products.c:209-230 | the loop over b's neighbours makes exactly the specified calls |
| Products.TensInnerLoop | src/products.c:270-292 | the tensor inner loop, as written, makes exactly the calls of `TensInnerAsWritten`: for each slot l of b an edge to (a', b_l), made when b's k-th slot points at an entity and labelled with that slot's attributes |
| Products.TensStep | src/products.c:270-290 | one innermost turn, guarded by b's k-th slot and labelled from it, makes exactly the calls of slot l of `TensInnerAsWritten` |
| Products.TensLoop | src/products.c:268-292 | the loop over a's entity neighbours makes exactly the calls of the as-written inner loops, in order |
| Products.LexInnerLoop | src/products.c:331-351 | the lexicographic inner loop, as written, makes exactly the calls of `LexInnerAsWritten`: an edge to (a', b_l) for every vertex b_l, made when b's k-th slot points at an entity and labelled with that slot's attributes |
| Products.LexStep | src/products.c:330-350 | one inner turn, guarded by b's k-th slot, makes exactly the calls for vertex l of `LexInnerAsWritten` |
| Products.LexALoop | src/products.c:328-352 | the loop over a's entity neighbours makes exactly the calls of the as-written inner loops, in order |
| Products.LexBLoop | src/products.c:353-372 | the B-side loop, with no index filter, makes exactly the specified calls |
| Products.RunPass | src/products.c:40-155 | one pass over all entity pairs, A-major, makes exactly the calls `PassOps` lists |
| Products.Cell | src/products.c:40-155 | the body for one entity pair makes exactly the calls `CellOps` lists |
| Products.Row | src/products.c:40-155 | the loop over b's entities makes exactly the calls of that row |
| Products.Column | src/products.c:42-44 | a pair whose b-vertex is not an entity makes no call; otherwise the pair's calls |
| Products.RowTurn | src/products.c:40-41 | a non-entity vertex of a makes no call; otherwise its row's calls |
| Products.CartProductNodes | src/products.c:24-155 | the vertex pass makes exactly the specified calls |
| Products.CartProduct | src/products.c:158-237 | `graphs_cart_product` has the effect of its call list, ignoring the vertex pass's status |
| Products.TensProduct | src/products.c:240-297 | the same for the tensor product, whose inner loop reads b's k-th slot as written |
| Products.LexProduct | src/products.c:300-379 | the same for the lexicographic product, whose A-side inner loop reads b's k-th slot as written |
| Products.StrongProduct | src/products.c:382-496 | the same for the strong product: the as-written tensor edges, then, if they all succeed, the Cartesian edge set |
| ProductLaws.InFlatten | src/products.c:40-155 | a call is in the concatenation exactly when it is in one part |
| ProductLaws.VerticesNeverFail | src/products.c:24-155 | the vertex pass never fails |
| ProductLaws.VertexPassEntities | src/products.c:40-79 | the vertex pass adds the entity pairs in A-major order, and no other entity |
| ProductLaws.ProductVertices | src/products.c:24-155 | afterwards the entities are the old ones followed by one per pair, and earlier vertices are kept |
| ProductLaws.CartEdgesExact | src/products.c:178-232 | exactly the edges (a,b)-(a',b) with a' an entity neighbour of index at least a's, and likewise along b, each with its source attributes |
| ProductLaws.CartCellSound | src/products.c:186-232 | each call of a Cartesian cell is an edge along a or along b |
| ProductLaws.CartCellComplete | src/products.c:186-232 | each edge along a or along b is asked for by its cell |
| ProductLaws.TensEdgesExact | src/products.c:260-292 | as written, exactly the edges (a,b)-(a',b_l) with a' an entity neighbour of a (its k-th) and b_l any neighbour of b, whenever b's k-th slot points at an entity, labelled with that slot's attributes |
| ProductLaws.TensCellSound | src/products.c:268-292 | each call of a tensor cell is such an as-written tensor edge |
| ProductLaws.TensCellComplete | src/products.c:268-292 | each as-written tensor edge is asked for by its cell |
| ProductLaws.LexEdgesExact | src/products.c:320-372 | as written, exactly the edges (a,b)-(a',b_l) for a's k-th neighbour a' an entity and any vertex b_l, whenever b's k-th slot points at an entity, and the edges (a,b)-(a,b') to every entity neighbour b' |
| ProductLaws.LexCellSound | src/products.c:328-372 | each call of a lexicographic cell is such an as-written lexicographic edge |
| ProductLaws.LexCellCompleteA | src/products.c:328-352 | each as-written A-side lexicographic edge is asked for by its cell |
| ProductLaws.LexCellCompleteB | src/products.c:353-372 | each B-side lexicographic edge is asked for by its cell |
| ProductLaws.LexBothWays | src/products.c:353-372 | an edge of b between entities is asked for from both of its ends |
| ProductLaws.EdgeEndsArePairs | src/products.c:178-232 | every edge the Cartesian pass asks for joins two entity pairs |
| ProductLaws.ProductSucceedsWhenPaired | src/products.c:158-496 | a product of any kind whose edge calls all join entity pairs returns 0 |
| ProductLaws.ProductFailsWhenUnnamed | src/products.c:195-206 | a product of any kind one of whose edge calls names a vertex the vertex pass did not add returns `TOP_E_CONN` |
| ProductLaws.VertexPassNames | src/products.c:40-145 | a name the vertex pass adds is an entity pair's `(a,b)` or a gate copy's `(a,b).<gate>` |
| ProductLaws.ProductNeverFails | src/products.c:158-237 | the Cartesian product of well-formed graphs never fails |
| ProductLaws.PairedRunSucceeds | src/products.c:158-496 | edge calls that all join entity pairs, made after the vertex pass, return 0 |
| ProductLaws.TensInnerPaired | src/products.c:268-282 | read with the l-th slot, every call of the tensor inner loop for entities a_i, b_j and an entity neighbour of a_i joins two entity pairs, for all operands |
| ProductLaws.LexInnerPaired | src/products.c:328-342 | read with the l-th vertex, every call of the lexicographic inner loop joins two entity pairs, for all operands |
| ProductLaws.IntendedCellPaired | src/products.c:158-496 | every edge call an entity pair makes in an intended edge pass joins two entity pairs |
| ProductLaws.IntendedPassPaired | src/products.c:158-496 | every call of an intended edge pass joins two entity pairs |
| ProductLaws.IntendedProductNeverFails | src/products.c:240-495 | with the inner loops read as intended, the Cartesian, tensor, lexicographic and strong products of two well-formed graphs return 0 |
| ProductLaws.TensSlipAsWritten | src/products.c:271 | as written, the guard reads b's k-th neighbour, so a (p,x)-(q,z) edge to a gate pair is asked for |
| ProductLaws.TensSlipCorrected | src/products.c:271 | read with the l-th slot, that call is not made |
| ProductLaws.LexSlipAsWritten | src/products.c:332 | the same slip in the lexicographic inner loop |
| ProductLaws.LexSlipCorrected | src/products.c:332 | corrected, no such call |
| ProductLaws.SlipNotAPair | src/products.c:271-279 | the name (q,z) is not an entity pair, so that call would fail |
| ProductLaws.SlipPairMissing | src/products.c:40-145 | after the vertex pass of the example no vertex is named (q,z) |
| ProductLaws.TensSlipFails | src/products.c:240-297 | so the tensor product of the example returns `TOP_E_CONN` |
| ProductLaws.StrongSlipFails | src/products.c:382-434 | and so does the strong product, whose tensor half has the same slip (src/products.c:413, 421) |
| ProductLaws.LexSlipFails | src/products.c:300-352 | and so does the lexicographic product |
| ProductLaws.TensSlotAgreesIff | src/products.c:270-290 | for all inputs, the written and the intended tensor turn (k, l) make the same calls exactly when b's k-th and l-th neighbours are both entities or both not, and, when entities, their slots carry the same attributes |
| ProductLaws.LexSlotAgreesIff | src/products.c:331-350 | for all inputs, the written and the intended lexicographic turn (k, l) agree exactly when b's k-th neighbour and b_l are both entities or both not, and, when entities, b's k-th slot carries a's edge's attributes |
| Compaction.MarkCount | src/topologies.c:822 | marking a vertex removes one gate exactly when it was a gate |
| Compaction.MarkedStore | src/topologies.c:822-838 | a store that differs from a sound one only by marks is still well formed and reciprocal |
| Compaction.MarkIsMarked | src/topologies.c:822 | marking a non-entity is a marking step |
| Compaction.NeighbourHasNeighbour | src/topologies.c:821-838 | a neighbour of x lists x back, so it has a neighbour to read at `adj[0]` |
| Compaction.GoTo | src/topologies.c:821-823 | stepping to a gate neighbour marks the vertex left, and the walk's measure decreases |
| Compaction.EndAt | src/topologies.c:827-829 | ending at a neighbour marks the vertex left and never adds a gate |
| Compaction.Turn | src/topologies.c:815-841 | one turn stops with `TOP_E_BADGATE` exactly at a non-entity with more than two neighbours |
| Compaction.Follow | src/topologies.c:821-829 | a turn with one or two neighbours is sound and never reports `TOP_E_BADGATE` |
| Compaction.Second | src/topologies.c:830-840 | the second-neighbour branch is sound and never reports `TOP_E_BADGATE` |
| Compaction.Walk | src/topologies.c:807-846 | the walk ends with 0 or `TOP_E_BADGATE` (at a vertex with more than two neighbours), only marks, and consumes a gate or stays put |
| Compaction.Visit | src/topologies.c:862-879 | one neighbour turn of phase one keeps the store sound, and it consumes a gate or changes nothing |
| Compaction.UnchangedOrUsed | src/topologies.c:831-832 | a walk that consumes no gate ends where it began, next to the entity (dead end left unmarked) |
| Compaction.JoinFacts | src/topologies.c:870-878 | joining a chain end keeps the store sound, the entity's type and the gate count |
| Compaction.Advance | src/topologies.c:858-881 | each step of phase one stops on `TOP_E_BADGATE` or moves on in a decreasing measure |
| Compaction.Phase1 | src/topologies.c:858-881 | phase one ends with 0 or `TOP_E_BADGATE`, keeping the store sound |
| Compaction.Phase1Visit | src/topologies.c:862-879 | at an entity's j-th neighbour, phase one is a visit, then the next neighbour unless it failed |
| Compaction.KeptIndices | src/topologies.c:883-890 | exactly the indices of kept vertices, ascending |
| Compaction.Keep | src/topologies.c:883-890 | phase two over the first m vertices keeps at most m |
| Compaction.KeepNext | src/topologies.c:884-889 | vertex m is appended, renumbered, exactly when it is kept |
| Compaction.KeepIsKept | src/topologies.c:883-890 | phase two copies exactly the unmarked vertices with at least one neighbour, in original order, renumbered |
| Compaction.KeepStore | src/topologies.c:883-890 | the kept vertices form a well-formed store without edges |
| Compaction.LinkEdge | src/topologies.c:894-904 | one turn of phase three keeps the new store sound and its vertices unchanged, and only extends adjacency arrays |
| Compaction.Link | src/topologies.c:891-906 | phase three adds only edges: every adjacency array is extended, never shortened, and names, indices and types stay as they were |
| Compaction.Compact | src/topologies.c:849-911 | the compacted store is well formed and reciprocal |
| Compaction.MarkedNames | src/topologies.c:822 | marking keeps every vertex's name in its place |
| Compaction.VisitNames | src/topologies.c:862-879 | a turn of phase one renames no vertex |
| Compaction.Phase1Names | src/topologies.c:858-881 | phase one renames no vertex |
| Compaction.Phase1VisitNames | src/topologies.c:862-879 | phase one from an entity's j-th neighbour on renames no vertex |
| Compaction.VisitJoins | src/topologies.c:862-879 | when the walk from an entity's gate neighbour succeeds, the turn succeeds and the chain's end and the entity list each other as neighbours afterwards |
| Compaction.KeptPrefix | src/topologies.c:883-890 | the vertices kept among the first m come first among those kept later |
| Compaction.KeptPosAt | src/topologies.c:883-890 | a kept vertex gets as new index the number of vertices kept before it |
| Compaction.KeptIndicesOrder | src/topologies.c:883-890 | phase two's renumbering is a bijection between the kept vertices and the new indices |
| Compaction.FoundAtNewIndex | src/topologies.c:897-900 | with distinct names, the lookup by name in the fresh graph finds a kept vertex at its new index |
| Compaction.WithEdgeSound | src/topologies.c:901 | adding an edge between two new indices whose vertices are adjacent keeps every edge of the fresh graph one between adjacent kept vertices |
| Compaction.AdjacentJoined | src/topologies.c:870 | in a reciprocal graph, a vertex listed as a neighbour lists the other one back |
| Compaction.WithEdgeJoins | src/topologies.c:871-872 | after graph_add_edge_id adds e--i, each of e and i lists the other as a neighbour |
| Compaction.LinkEdgeFound | src/topologies.c:895-901 | a turn of phase three on an entry i--t with i < t and both ends unmarked adds exactly the edge between the indices where the two names are found |
| Compaction.LinkEdgeTarget | src/topologies.c:895-901 | with distinct names, both ends of a copied entry are kept, are found at their new (different) indices, and the turn adds exactly the edge between those indices |
| Compaction.SameVerticesHold | src/topologies.c:901 | adding edges leaves every kept vertex's name at its new index |
| Compaction.LinkEdgeCopies | src/topologies.c:894-904 | one turn of phase three keeps names and sound edges, and copies its entry when that entry goes to a larger unmarked index |
| Compaction.CopiedStays | src/topologies.c:894-904 | entries already copied stay copied when edges are added |
| Compaction.LinkEdgeKeeps | src/topologies.c:894-904 | one turn of phase three keeps both invariants and passes one more entry |
| Compaction.LinkKeeps | src/topologies.c:891-906 | phase three from any point on ends with only sound edges and every due entry copied |
| Compaction.LinkStepKeeps | src/topologies.c:894-905 | the same from an unmarked vertex's j-th entry |
| Compaction.LinkedFromBoth | src/topologies.c:894-904 | an edge between two kept vertices is copied whichever end has the smaller index, through the reciprocal entry |
| Compaction.ReverseEdge | src/topologies.c:901 | in a reciprocal store an edge is listed at both ends |
| Compaction.LinkedPair | src/topologies.c:891-906 | after phase three, two new indices are adjacent exactly when they differ and their vertices were adjacent |
| Compaction.LinkedExactly | src/topologies.c:891-906 | after phase three the fresh graph has no self-loop, and two distinct new indices are adjacent exactly when their vertices were |
| Compaction.LinkStart | src/topologies.c:883-891 | before phase three the fresh graph has no edge and nothing is due |
| Compaction.KeepHoldsKept | src/topologies.c:883-890 | phase two puts each kept vertex's name at its new index |
| Compaction.KeepAndLink | src/topologies.c:883-906 | phases two and three copy exactly the edges between distinct kept vertices |
| Compaction.DistinctKept | src/topologies.c:858-881 | distinct names stay distinct when nothing is renamed |
| Compaction.SameNamesTrans | src/topologies.c:858-881 | names kept in place through two steps are kept in place |
| Compaction.JoinNames | src/topologies.c:870-878 | adding an edge renames no vertex |
| Compaction.CompactLinks | src/topologies.c:849-911 | after a successful phase one the compacted graph is phase three over phase two's vertices |
| Compaction.CompactEdges | src/topologies.c:849-911 | with distinct names: on success the compacted graph has one vertex per kept vertex, no self-loop, and two distinct vertices are adjacent exactly when the vertices they were copied from are adjacent after phase one |
| Compaction.CompactVertices | src/topologies.c:849-911 | on `TOP_E_BADGATE` the result is phase one's; on success vertex k is the k-th kept vertex, renumbered, with its name and type and no attributes |
| Compaction.TurnAt | src/topologies.c:815-841 | one in-place turn has the effect of `Turn` |
| Compaction.MarkVisited | src/topologies.c:822 | writes exactly the mark |
| Compaction.FindEndAndMark | src/topologies.c:807-846 | the in-place walk has the effect and result of `Walk` |
| Compaction.JoinChainEnds | src/topologies.c:858-881 | the in-place phase one has the effect of `Phase1` |
| Compaction.VisitAll | src/topologies.c:862-879 | the turns at vertex i have the effect of phase one at i |
| Compaction.VisitAt | src/topologies.c:863-878 | one in-place turn has the effect of `Visit` |
| Compaction.KeepVertices | src/topologies.c:883-890 | a fresh graph holding exactly `Keep` |
| Compaction.LinkKept | src/topologies.c:891-906 | adds exactly the edges `Link` gives |
| Compaction.LinkAll | src/topologies.c:894-905 | the turns at vertex i have the effect of phase three at i |
| Compaction.LinkAt | src/topologies.c:895-904 | one in-place turn has the effect of `LinkEdge` |
| Compaction.CompactGraph | src/topologies.c:849-911 | the result is what `Compact` specifies: a fresh graph on success, the original graph on `TOP_E_BADGATE` |
| Legacy.FirstIndex | graph.c:38-44 | the lowest index holding x, or -1 when none does |
| Legacy.LinkShape | graph.c:47-60 | linking changes only the two lists, each gaining one cell at its head |
| Legacy.LinkCounts | graph.c:47-60 | linking adds one b cell to a's list and one a cell to b's list |
| Legacy.LinkSymmetric | graph.c:47-60 | a symmetric graph stays symmetric |
| Legacy.AppendKeepsGraph | graph.c:20-35 | a vertex appended with an empty list keeps the graph well formed and symmetric |
| Legacy.Graph.constructor | graph.c:10-17 | an empty graph with room for one block |
| Legacy.Graph.AddNode | graph.c:20-35 | appends at index n_nodes with an empty list, growing by one block (corrected: no cell can refer to the freed array) |
| Legacy.Graph.FindNode | graph.c:38-44 | the first vertex with the name, or NULL |
| Legacy.Graph.AddEdgePtr | graph.c:47-60 | -1 with nothing changed for a NULL end; otherwise a cell at the head of each end's list |
| Legacy.Graph.AddEdgeName | graph.c:63-73 | -1 exactly when either name is unknown; otherwise the link between the first matches |
| Legacy.Graph.Print | graph.c:76-95 | writes exactly the text `Dot` gives |
| Legacy.ShownVerticesExact | graph.c:80-84 | vertex i is listed exactly when it is an entity or gates are printed |
| Legacy.ShownEdgesExact | graph.c:85-93 | the line i -- j is printed for every cell j of i's list with i < j, whatever the types |
| Legacy.RowLines | graph.c:86-93 | the list walk writes one line per cell with a larger index |
| Legacy.VertexText | graph.c:79-84 | the vertex loop writes the shown vertices' lines |
| Legacy.EmitVertex | graph.c:82-83 | the fprintf of one vertex line writes that line |
| Legacy.EmitEdge | graph.c:89-90 | the fprintf of one edge line writes that line |
| Legacy.ShownRowExact | graph.c:86-92 | a pair (i, j) is printed exactly when j is among i's cells and i < j |
| Legacy.Neighbours | topologies.c:279-295 | the first two cells, NULL where the list is shorter; the process exits exactly on a third cell |
| Legacy.MarkKeepsGraph | topologies.c:298-318 | marking a gate keeps the graph well formed and symmetric |
| Legacy.Graph.GateNeighbours | topologies.c:279-295 | the list walk returns what `Neighbours` gives |
| Legacy.WalkFrom | topologies.c:298-318 | the corrected walk always ends (or exits), marking only gates, at a vertex that is not an unvisited gate |
| Legacy.Traverse | topologies.c:298-318 | a NULL start is its own end; otherwise the walk's end |
| Legacy.Graph.TraverseGateNeighbours | topologies.c:298-318 | the loop has the effect and result of `Traverse` |
| Legacy.RingNeverEndsAsWritten | topologies.c:303 | as written, on a ring of three gates the walk never ends, whatever the fuel |
| Legacy.RingEnds | topologies.c:303 | with the corrected guard, the walk on the same ring stops with all three gates visited |
| Legacy.AsWrittenEnd | topologies.c:298-318 | the walk as written, when it ends, ends at an entity or at a gate with fewer than two neighbours, having only marked gates |
| Legacy.WalkAsWrittenAgrees | topologies.c:298-318 | given a turn per unvisited gate, the walk as written ends where the corrected one does if and only if the corrected one does not stop at an already visited gate with two or more neighbours |
| Legacy.RingLoops | topologies.c:303 | on the fully marked ring, the written walk returns to where it was after three turns |
| Legacy.ConnectsWhom | topologies.c:321-328 | marks the gate, and returns the ends of the walks from its two neighbours |
| Legacy.Graph.GateConnectsWhom | topologies.c:321-328 | has the effect of `ConnectsWhom` |
| Legacy.JoinTurn | topologies.c:336-347 | one turn only retypes, keeps the graph well formed and leaves the gate visited |
| Legacy.JoinTurnEdge | topologies.c:341-346 | a turn adds cells only when both ends exist and the first's index is strictly greater |
| Legacy.JoinFrom | topologies.c:336-347 | the first loop from i only retypes vertices and keeps the graph well formed |
| Legacy.JoinFromClearsGates | topologies.c:336-347 | after the first loop, no vertex is an unvisited gate |
| Legacy.Graph.JoinGate | topologies.c:336-347 | one in-place turn has the effect of `JoinTurn` |
| Legacy.EntitiesCount | topologies.c:360-371 | filtering keeps every entity cell, as many times as before, and drops every other cell |
| Legacy.KeepEntities | topologies.c:360-371 | the unlinking loop keeps exactly the entity cells, in order |
| Legacy.StripKeepsGraph | topologies.c:348-372 | the second loop keeps the graph well formed and symmetric |
| Legacy.CompactedShape | topologies.c:331-373 | no unvisited gates remain, entities are unchanged, non-entity lists are empty and entity lists keep exactly their entity cells |
| Legacy.Graph.DisconnectGates | topologies.c:348-372 | the second loop has the effect of `Strip` |
| Legacy.Graph.Compact | topologies.c:331-373 | has the effect of `Compacted` |
| Legacy.StaleAfterGrowth | graph.c:20-35 | as written, 32 vertices, an edge, then a 33rd vertex leaves cells pointing into the freed array when `realloc` moves it |
| Legacy.LoopValues | topologies.c:145-152 | the process exits exactly when start > end; otherwise j takes every value from start to end inclusive |
| Legacy.FindModule | topologies.c:87-94 | the first module with the name, or NULL |
| Legacy.FindModuleAgrees | topologies.c:87-94 | the old lookup and the current `find_module` agree |

## Left out

- Allocation failure (`TOP_E_ALLOC`), NULL-pointer arguments and frees are not modelled. Every allocation succeeds.
- File I/O (`file_map`, `json_read_file`, `topologies_network_read_*`), the jsmn tokenizer itself, `json_print`, and destroy/free functions are not modelled. Tokens are an input sequence.
- The tinyexpr evaluator is the parameter `ev`. `lrint`'s conversion from long to int is not modelled.
- The newer call forms used by `src/topologies.c` are modelled as the visible bodies: 5-argument `param_stack_eval`/`eval_conn_name` and a `name_stack_enter` whose status is tested. A failing evaluation is reported as `TOP_E_EVAL` with no message text.
- Error-message texts after the code (the `": %s"` suffixes) are not modelled, except in `Errors.ReturnError`.
- Expansion.ExpandModule and every member of the expansion SCC: a `fuel` argument bounds the recursion through module references. The result `OutOfFuel` is never produced by the C code. A self-including module, on which the C code recurses without end, is not modelled.
- Deserializer.Definition.Deserialize: after a refusal, nothing is said about the partially filled definition.
- Expansion.Operand: the status of `topologies_graph_compact` on an operand is ignored, as the C code ignores it.
- Products.CartProduct, TensProduct, LexProduct, StrongProduct: the vertex pass's status is ignored, as in the C code. The `TOP_E_CONN` message text naming both vertices is not modelled.
- `graphs_product` in `src/topologies.c` builds the Cartesian product for every product kind. The model does the same, so the kind is parsed but not used.
- Expansion.Traverse: the C code expands ring, line, all and all-match connections only through the link path, reading their first two strings as endpoints through the shared union (`Expansion.Ends`). The model does the same. No series-specific topology (a ring or a line of edges) is built, because the C expansion builds none.
- `replace` entries are parsed but not applied. The C expansion does not apply them either.
- Compaction.Visit, Compaction.Compact: what phase one joins is stated by `Compaction.VisitJoins` (the chain end and the entity are adjacent afterwards), and which edges the compacted graph has by `Compaction.CompactEdges`. Neither contract repeats it.
- Compaction.CompactEdges: requires distinct vertex names. Phase three looks each end up by name (`graph_find_node`, src/topologies.c:897-900), and with a repeated name the C code and `LinkEdge` join the first vertex of that name, so the edge set is then not the renumbered one.
- Legacy.Graph.Print: the stream is returned as text.
- Legacy pointers are modelled as indices. Realloc aliasing appears only in `Legacy.StaleAfterGrowth`, for the case where `realloc` moves the array; when it grows the block in place the cells stay valid.
- Legacy.Neighbours: `error()` (process exit) on a third neighbour is modelled as the `TooMany` outcome. The same holds for `Legacy.LoopValues`' exit on start > end.
- Legacy `expand_module`, `enter_and_expand_module`, `graph_eval_and_add_edge`, `add_gate` and `topologies_definition_to_graph` (topologies.c:62-125, 159-276) are not part of this model. They exit the process on every error and depend on tinyexpr. Their current versions are modelled in `Expansion`/`Topologies`.
- Legacy.LoopValues: with end == INT_MAX, the C loop `j <= end` overflows. This is not modelled.
- Legacy.Graph.DisconnectGates reads vertex types from a snapshot. The second loop changes no type, so this is equivalent.
- The root `defs.h` declares the adjacency list as an `int` array, while `graph.c` uses `node_list_t` lists. The model follows `graph.c`.
- `main.c`, `vis.py`, `wrapper.py` and the root `parser.c` are not part of this model.
- GraphStore.Graph.AddEdgeId: refuses id `n_nodes` with `TOP_E_CONN`. As written (src/graph.c:66-67) it is accepted, and the C code then writes into the unused slot past the last vertex, or past the array when it is full; the model has no such slot. The method's contract states that it refuses exactly the ids the written check refuses, plus id `n_nodes`.
- GraphStore.Graph.AddEdgeId: labels b's new slot with the edge's attributes and leaves a's earlier entries alone (`WithEdge`). As written (src/graph.c:96) b's slot stays unlabelled and a's slot at b's old degree is relabelled (`WithEdgeAsWritten`). `WithEdgeAsWrittenAgreesIff` states exactly when the two coincide. For the three-argument calls of `src/graph.c`, which store NULL, they coincide except where b's old degree reaches a's capacity: there the C code writes past a's list (`NinthGateOverflowsAsWritten`), and `WithEdgeAsWritten` gives None, modelling nothing beyond the out-of-bounds store.
- ParamStack.Stack.EvalConnName: on a failing index expression the C code (param_stack.c:152-155) returns NULL having cut the caller's name at the '[' (`*right = 0` is not undone). The model returns None and leaves the name as it was. The caller (`graph_eval_and_add_edge`, src/topologies.c:97-101) stops on the failure, but the cut string is the connection's own name in the definition, so a later expansion of the same definition would see the cut name; that is not modelled.
- ParamStack.Stack.Leave: requires a non-empty stack; the C code does not check for underflow, and every caller pops only what it pushed.
- Products.TensInnerLoop, Products.LexInnerLoop (and so TensProduct, LexProduct, StrongProduct): b's k-th slot is read as `Slot`, which gives vertex 0 with no attributes past b's last neighbour. In the C code such a slot is zeroed memory while k is below b's adjacency capacity, which `Slot` matches; past the capacity the C code reads outside the array, which is not modelled.
- Deserializer.StepBetween, Deserializer.Definition.PassBetween: a module entry past the reserved module slots is refused at its key. As written (src/parser.c:1029) the C code writes `m[m_i]` past the allocated slots, which is undefined behaviour; `SlotOverflow.ModuleSlotOverflow` exhibits an input that gets there.
- Errors.SuffixRoom, Errors.PrintMessageAndSuffix, Errors.ReturnError: when the message does not fit the buffer, the room left for the suffix is 0 and the output is the message cut to size-1 bytes. As written (src/errors.c:37) `size - printed` wraps around as an unsigned value and the suffix is written past the buffer; `Errors.ShortBufferOverflowsAsWritten` exhibits it.
- NameStack.Stack.Enter: for index < 0 the new tail entry holds `name` and the root is kept. As written (name_stack.c:29-33) the name is copied into the root entry and the new tail's name is left uninitialised; `NameStack.EnterLeaveLosesRootAsWritten` exhibits the difference.
- Legacy.WalkFrom, Legacy.Traverse, Legacy.Graph.TraverseGateNeighbours: the walk stops at the first vertex that is not an unvisited gate. As written (topologies.c:303) the loop runs while the vertex is not an entity, so it walks through already visited gates again and never ends on a ring of gates; `Legacy.WalkAsWritten` models that loop with fuel and `Legacy.RingNeverEndsAsWritten` exhibits the ring; `Legacy.WalkAsWrittenAgrees` states exactly when the two walks agree.
- A read through a NULL pointer is the outcome `NullRead` of `Expansion.Out`, given for a missing name, module name, expression, array entry, attributes or branch at the point where the C code dereferences it. What the C code then does is undefined behaviour and is not modelled further; the methods of `Topologies` require an outcome other than `NullRead`.
- Expansion.Turn: a NULL loop variable is pushed by `param_stack_enter_val` (param_stack.c:97-109) and read only at the next evaluation inside the body; the model gives `NullRead` at the turn itself.
- GraphStore.Graph.AddNode: the attributes of a new vertex are a parameter. Every caller passes None except the product vertex pass (`Products.CellOps` through `GraphOps.Apply`), which passes the pair's attributes as the four-argument `graph_add_node` of src/products.c:76 stores them. `graph_add_node` (src/graph.c:28-52) never writes them: the first 32 vertex slots come from `calloc` and hold NULL, past a `realloc` they are indeterminate, which is not modelled.
- Compaction.Keep, Compaction.KeepVertices: the compacted vertices carry no attributes, as the first 32 slots of a fresh graph do; past a `realloc` the C slots are indeterminate, which is not modelled.
- Tokens.Tok: past the end of the token array it gives an undefined token of length 0. The C read there is undefined behaviour, which is not modelled.
- Tokens.CharAt: past the end of the text it gives NUL. The C read there is undefined behaviour unless the text is NUL-terminated, which is not modelled.

## Findings

| source | as written | input that shows it | evidently intended | confidence | as-written member | corrected member |
|---|---|---|---|---|---|---|
| src/graph.c:66-67 | ids are rejected only when `> n_nodes`, so id `n_nodes` passes | one vertex, edge 0--1 | `>= n_nodes` | high, not executed | GraphStore.EdgeIdPastEndAcceptedAsWritten | GraphStore.Graph.AddEdgeId |
| src/graph.c:96 | the second attribute store names `node_a` at b's old degree | edge 0--1 labelled, then 0--2, through the four-argument attribute calls of src/products.c (the three-argument version in src/graph.c stores NULL there) | store into `node_b->adj[i]` | high, not executed | GraphStore.AttributeSlotSlipAsWritten | GraphStore.WithEdgeFacts |
| src/graph.c:94-96 | the store at b's old degree indexes a's list with no check against a's capacity | a simple module with nine gates: the ninth gate (8 free slots, none used) is joined to the module vertex, which has 8 neighbours, so slot 8 is written | store into `node_b->adj[i]` | high, not executed | GraphStore.NinthGateOverflowsAsWritten | GraphStore.WithEdgeFacts |
| src/errors.c:36-37 | `size - printed` underflows when the message is longer than the buffer | 4-byte buffer, `TOP_E_CONN` | print the suffix only in the room left | high, not executed | Errors.ShortBufferOverflowsAsWritten | Errors.PrintMessageAndSuffix |
| name_stack.c:29-33 | for index < 0, the name is copied into the root `s->name` and the new tail stays unset | enter("sw", -1) on ["network"], then leave | copy into `head->name` | high, not executed | NameStack.EnterLeaveLosesRootAsWritten | NameStack.LeaveUndoesEnter |
| param_stack.c:41-48 | the duplicate test compares only the older name's length, so a prefix of a listed name is dropped | bindings `n` then `nn` | compare whole names | high, not executed | ParamStack.PrefixNameHiddenAsWritten | ParamStack.TeVarsNewestWins |
| src/parser.c:711-725 | the kind scan never advances `*i`, so only the first key is tested | `{"start":"0","end":"3","ring":"i","conn":"n[i]"}` | test each key | medium, not executed | SeriesScan.RingNotFirstRefusedAsWritten | SeriesScan.RingParsed |
| src/parser.c:1029 | module slot `m_i + 1` is written with no bound check | `[{"simplemodule":{"gates":[{"g":[{"module":{}}]}]}}]` | refuse entries past the reserved slots | high, not executed | SlotOverflow.ModuleSlotOverflow | Deserializer.DeserializeExtends |
| src/products.c:271 | the tensor guard reads `adj[k]` of b while l is the loop index | a = p--q, b = x--y and x--z with z a gate | `adj[l]` | high, not executed | ProductLaws.TensSlipAsWritten | ProductLaws.TensInnerPaired |
| src/products.c:332 | the lexicographic guard reads `adj[k]` of b while l ranges over b's vertices | the same operands | `nodes[l]` | high, not executed | ProductLaws.LexSlipAsWritten | ProductLaws.LexInnerPaired |
| src/products.c:413-421 | the strong product's tensor half reads `adj[k]` of b for the guard and the attributes while l is the loop index | the same operands | `adj[l]` | high, not executed | ProductLaws.StrongSlipFails | ProductLaws.IntendedProductNeverFails |
| topologies.c:303 | the loop runs while the vertex is not an entity, so visited gates are walked again | a ring of three gates | stop at a vertex that is not an unvisited gate | high, not executed | Legacy.RingNeverEndsAsWritten | Legacy.RingEnds |
| graph.c:20-35 | when `realloc` moves the vertex array, list cells are left pointing into the old array | 32 vertices, edge 0--1, one more vertex | cells that stay valid (indices) | high, not executed | Legacy.StaleAfterGrowth | Legacy.Graph.AddNode |
