# logos, modelled in Dafny

logos reads a small text language and draws it as a tree of boxes in an SVG file. A source
such as

```
{ "Pets" }
a = "Animal"
b = "Dog"
a -> b
```

declares variables bound to strings and joins them with `->` (one edge) or `<->` (an edge in
each direction). A line `{ "text" }` sets the title. Arrows can be chained (`a -> b -> c`). An
arrow's target can be assigned inline (`a -> b = "Dog"`).

The interpreter has five parts, and this project models each one:

- **Lexer** (`src/lexer.c`), module `Lexing`. Each token is a pure function `Scan` of the
  source and the lexer state. This function is specified by small scanning functions such as
  `SkipSpace`, `IdentEnd` and `StringEnd`. The class `Lexer` keeps the C cursor (`start`,
  `current`, `line`) and its methods move it step by step, as the C functions do.
  `Lexer.ScanToken` is proved to compute `Scan`.
- **Parser** (`src/parser.c`). Module `ParserSpec` states what each C function does, as a
  function on a value `PState`. That value holds:
  - the scanner and its two tokens;
  - the variable table;
  - the graph;
  - the panic flag;
  - the diagnostics written to standard error;
  - a flag for undefined behaviour.

  Module `Parsing` holds the class `Parser`: the C globals `parser` and `interpret_result` as
  fields, together with the `Lexer`, `Table` and `Graph` objects it owns. Each method is proved
  to move the object's state exactly as its `ParserSpec` function says. Module `ParserProps`
  proves what statements do to the table, the graph and the diagnostics. It also proves on
  which inputs the parse loop never ends.
- **Graph** (`src/graph.c`, `src/node.c`), modules `Nodes`, `GraphSpec` and `Graphs`. The class
  `Graph` keeps the nodes in id order and a square `array2<bool>` adjacency matrix that doubles
  when full. `GraphSpec.GraphView` sees the same graph as a value: the title, the nodes, the
  set of edges and `highest_level`. `GraphSpec` also proves:
  - the level, parent and child-count rules of `add_edge`;
  - a bookkeeping invariant that every operation preserves;
  - the bottom-up width pass.
- **Symbol table** (`src/table.c`), modules `TableSpec` and `Tables`. These cover 64-bit
  FNV-1a and linear probing over a power-of-two `array<Entry>`. The table is abstracted to a
  `map<string, string>`.
- **SVG writer** (`src/svg.c`), module `Svgs`. This is an append-only text buffer. Each
  element method appends exactly the markup of a function of its arguments, and integers are
  written as `%d` decimals.

Behaviours of the C code that the model keeps as written:

- The loop of `parse` never ends in two cases, and the model shows both with lemmas:
  - a statement that starts with a string, `=`, `}`, `->` or `<->` is neither consumed nor
    reported;
  - a name that is the last token of the source starts nothing, and `synchronize` does not
    move once the look-ahead is EOF.

  The model therefore runs the loop for a given number of rounds and says whether it reached
  EOF.
- An arrow whose source (or a chained middle name) is unbound and has no node makes the C
  code call `add_node` with the NULL that `table_get` returns (`src/parser.c:166-168`). That
  is undefined behaviour (`strdup(NULL)`). The model raises a flag instead, and what it
  computes after that point has no meaning for the program. An unbound target is checked
  with `is_declared` first and is only reported.
- The block that runs before a chained arrow is chosen by the operator after the target, not
  by the one before it. So `a -> b <-> c` adds both `a -> b` and `b -> a`, as well as the
  edges between `b` and `c`.
- In `a = "x" -> b` the arrow checks the lexeme of the `->` token as a variable name, so it
  always reports "Undefined variable.".
- Block comments do not count the lines they span.
- A self-loop as the first edge of a node makes it a root (level 1) but leaves
  `highest_level` unchanged.

## Model

| member | source | states |
|---|---|---|
| Lexing.LineEnd | src/lexer.c:94-96 | a `//` comment ends at the next newline or at the end of the source, never past it |
| Lexing.LineEndIsFirstNewline | src/lexer.c:96 | no newline lies inside the skipped comment, so the stop is the first newline |
| Lexing.BlockEnd | src/lexer.c:102-104 | the scan for `*/` stops on a `*` followed by `/`, or at the end of the source |
| Lexing.BlockEndIsFirstClose | src/lexer.c:102-104 | no `*/` lies before the stop, so a block comment ends at its first close |
| Lexing.SkipSpace | src/lexer.c:84-118 | skipping blanks and comments stops at the end or on a byte that is neither a blank nor the start of a comment |
| Lexing.IdentEnd | src/lexer.c:122 | an identifier run stops at the end or on a byte outside `[A-Za-z0-9_]` |
| Lexing.IdentEndIsRun | src/lexer.c:21-26 | every byte of the run is alphanumeric or `_` |
| Lexing.StringEnd | src/lexer.c:128-131 | a string body stops at the end, at the opening quote character or at a newline |
| Lexing.StringEndIsFirstStop | src/lexer.c:128-131 | the body holds neither the opening quote nor a newline |
| Lexing.ScanFrom | src/lexer.c:145-172 | from the first non-blank byte: EOF exactly at the end, otherwise at least one byte consumed; the line goes up by one exactly for a NEWLINE token, which carries the new line |
| Lexing.Scan | src/lexer.c:141-173 | `scan_token`: the cursor never moves back, EOF exactly when the cursor is at the end with an empty span, and every other token consumes input |
| Lexing.EofIsSticky | src/lexer.c:145-147 | once EOF is returned, scanning again returns an empty EOF and leaves the state alone |
| Lexing.NewlineIsAToken | src/lexer.c:167-169 | a newline is never skipped: it is a one-byte NEWLINE token carrying the incremented line |
| Lexing.BlanksAreSkipped | src/lexer.c:88-92 | a space, tab or CR in front changes nothing about the next token |
| Lexing.LineCommentStopsBeforeNewline | src/lexer.c:93-96 | a `//` comment is skipped up to, not including, its newline |
| Lexing.UnterminatedBlockCommentRunsToEnd | src/lexer.c:97-109 | a `/*` with no later `*/` swallows the rest of the source silently |
| Lexing.BlockCommentEndsAfterClose | src/lexer.c:97-109 | a `/*` comment is skipped through its first `*/` and skipping goes on after it |
| Lexing.IdentifierIsMaximalRun | src/lexer.c:121-124 | an IDENTIFIER is a non-empty maximal run of `[A-Za-z0-9_]` equal to its source slice |
| Lexing.DigitsScanAsIdentifier | src/lexer.c:151 | a token starting with a digit is an IDENTIFIER |
| Lexing.StringSpanExcludesQuotes | src/lexer.c:127-138 | a STRING opens and closes with the same quote character and its text is what lies strictly between them, with no newline |
| Lexing.UnterminatedStringLeavesNewline | src/lexer.c:127-133 | a newline or the end before the closing quote gives ERROR "Unterminated string." and the newline is not consumed |
| Lexing.ArrowScans | src/lexer.c:161-162 | `->` scans as ARROW with lexeme `->` |
| Lexing.DoubleArrowScans | src/lexer.c:157-158 | `<->` scans as DOUBLE_ARROW with lexeme `<->` |
| Lexing.UnexpectedCharacters | src/lexer.c:157-172 | `-` without `>`, `<` without `->`, and any byte that starts no token give ERROR "Unexpected character." |
| Lexing.TokenIsSourceSlice | src/lexer.c:59-71 | every token but STRING and ERROR is exactly the source slice from `start` to `current` |
| Lexing.Lexer.constructor | src/lexer.c:9-18 | `init_lexer`: both cursors at the start of the source, line 1 |
| Lexing.Lexer.IsAtEnd | src/lexer.c:29-31 | true exactly when the cursor is at the end (where the C string has its NUL) |
| Lexing.Lexer.Advance | src/lexer.c:34-37 | moves the cursor one byte and returns the byte passed |
| Lexing.Lexer.Peek | src/lexer.c:40-42 | the byte under the cursor, NUL exactly at the end |
| Lexing.Lexer.PeekNext | src/lexer.c:45-48 | the byte after the cursor, NUL at or past the end |
| Lexing.Lexer.Match | src/lexer.c:51-56 | consumes the expected byte exactly when it is under the cursor |
| Lexing.Lexer.MakeToken | src/lexer.c:59-71 | the token's text is the span from `start` to `current`, without the two quotes for a STRING, and its line is the lexer's |
| Lexing.Lexer.ErrorToken | src/lexer.c:74-81 | an ERROR token whose text is the message, at the lexer's line |
| Lexing.Lexer.SkipLineComment | src/lexer.c:96 | the cursor ends at `LineEnd` |
| Lexing.Lexer.SkipBlockComment | src/lexer.c:97-109 | the cursor ends just past the first `*/`, or at the end of an unterminated comment |
| Lexing.Lexer.SkipWhitespace | src/lexer.c:84-118 | the cursor ends at `SkipSpace` |
| Lexing.Lexer.ScanIdentifier | src/lexer.c:121-124 | the cursor ends at `IdentEnd` and the token is the identifier's slice |
| Lexing.Lexer.ScanString | src/lexer.c:127-138 | stops at `StringEnd`: ERROR "Unterminated string." before a newline or the end, otherwise the text between the quotes with the closing quote consumed |
| Lexing.Lexer.ScanSymbol | src/lexer.c:153-172 | the token and new state are those of `ScanFrom` |
| Lexing.Lexer.ScanToken | src/lexer.c:141-173 | the token and new state are exactly `Scan` of the old state |
| Nodes.Node.constructor | src/node.c:6-17 | `create_node`: copies of name and text, no parent, level -1, no children, position -1, width 0 |
| GraphSpec.Find | src/graph.c:103-110 | `get_node`: the id of the first node with exactly that name, and none exactly when no node has it |
| GraphSpec.FindDependsOnNamesOnly | src/graph.c:103-110 | lookups depend only on the names, so changing texts, levels or edges never changes what is found |
| GraphSpec.AddNodeThenFind | src/graph.c:84-99 | after `add_node` every name found before is found at the same id, and a new name is found at the old node count |
| GraphSpec.AddNode | src/graph.c:84-98 | `add_node`: one node more, at the old node count, with the name and text given and no level; earlier nodes, edges, title and `highest_level` unchanged (lookups: `GraphSpec.AddNodeThenFind`) |
| GraphSpec.SetTitle | src/graph.c:170-181 | `update_graph_title`: the title is the one given and nothing else changes |
| GraphSpec.SetText | src/parser.c:100 | `node->text = value`: only that node's text changes, so no lookup changes |
| GraphSpec.RootSource | src/graph.c:132-134 | afterwards the source has a level: 1 if it had none, else unchanged; no other node changes |
| GraphSpec.PlaceTarget | src/graph.c:137-142 | a target with no level goes one below the source and `highest_level` becomes the larger of the two; a placed target changes nothing |
| GraphSpec.Adopt | src/graph.c:144-148 | a target exactly one level below the source becomes its child (count up by one, parent set); otherwise nothing changes, and no level ever does |
| GraphSpec.WithWidths | src/graph.c:185-213 | after the pass every width is `RequiredWidth`, at least 440, and nothing but widths changes (the child sums: `GraphSpec.WidthsCoverChildren`) |
| GraphSpec.Link | src/graph.c:129-148 | the bookkeeping of a new edge keeps names, texts, widths, the title and the edges |
| GraphSpec.AddEdge | src/graph.c:113-151 | true exactly when both names have a node; false leaves the graph unchanged; true adds exactly the edge between the first nodes so named |
| GraphSpec.AddEdgeIsIdempotent | src/graph.c:122-125 | adding the same edge twice is the same as adding it once |
| GraphSpec.LinkLevels | src/graph.c:131-142 | an assigned level never changes; an unassigned source becomes 1; an unassigned target goes one below its source and raises `highest_level` to that; no other level changes |
| GraphSpec.LinkChildren | src/graph.c:144-148 | exactly when the target is one level below the source, the source gains a child and becomes the target's parent, without the old parent's count going down; nothing else changes |
| GraphSpec.SelfLoopOnFreshNode | src/graph.c:131-148 | a self-loop as a node's first edge makes it level 1 with no child and no parent, and `highest_level` stays |
| GraphSpec.EmptyGraphInv | src/graph.c:13-42 | the empty graph meets the bookkeeping invariant (edges join levelled nodes, levels in range, parents one level up, child counts equal direct children) |
| GraphSpec.AddNodePreservesInv | src/graph.c:84-99 | `add_node` keeps the invariant |
| GraphSpec.SetTitlePreservesInv | src/graph.c:170-182 | `update_graph_title` keeps the invariant |
| GraphSpec.SetTextPreservesInv | src/parser.c:97-101 | replacing a node's text keeps the invariant |
| GraphSpec.AddEdgePreservesInv | src/graph.c:113-151 | `add_edge` keeps the invariant, so every node's child count is its number of direct children |
| GraphSpec.LinkLevelsInRange | src/graph.c:131-142 | levels stay -1 or at least 1, bounded by `highest_level` once it is set |
| GraphSpec.LinkEdgesLevelled | src/graph.c:127-142 | after a new edge both of its ends have a level |
| GraphSpec.LinkParentsOk | src/graph.c:144-148 | a node has a parent exactly when its level is at least 2, and the parent is one level up with an edge to it |
| GraphSpec.LinkChildCount | src/graph.c:144-148 | after a new edge every node's child count equals its number of direct children |
| GraphSpec.SourceChildCount | src/graph.c:145-146 | the source's count goes up exactly when the target lands one level below it |
| GraphSpec.OtherChildCount | src/graph.c:144-148 | every node other than the source keeps its direct children and its count |
| GraphSpec.RequiredWidth | src/graph.c:185-213 | every width after the pass is at least the footprint 440 |
| GraphSpec.ChildWidths | src/graph.c:200-205 | the sum of the widths of direct children is never negative |
| GraphSpec.StoredChildWidthsAfterPass | src/graph.c:194-212 | children are settled before their parent, so the sum the pass takes equals the sum of the children's final widths |
| GraphSpec.WidthsCoverChildren | src/graph.c:185-213 | a node the pass visits has width max(440, sum of its direct children's widths); an unvisited node keeps 440 |
| Graphs.Graph.constructor | src/graph.c:13-42 | `create_graph`: no nodes, empty title, `highest_level` 0, capacity 4 and an all-false matrix |
| Graphs.Graph.Resize | src/graph.c:67-82 | doubles the capacity, keeps every old bit, zero-fills new rows and columns, and the view is unchanged |
| Graphs.Graph.AddNode | src/graph.c:84-99 | the view gains exactly the new node, whose id is the old node count; old nodes are untouched |
| Graphs.Graph.GetNode | src/graph.c:103-110 | returns the node at `Find`'s id, null exactly when `Find` finds none |
| Graphs.Graph.AddEdge | src/graph.c:113-151 | result and new view are exactly `GraphSpec.AddEdge` of the old view |
| Graphs.Graph.AddNewEdge | src/graph.c:127-148 | sets the matrix bit, then the view is the edge added and linked |
| Graphs.Graph.SetEdge | src/graph.c:127 | the view gains exactly that edge |
| Graphs.Graph.LinkNodes | src/graph.c:131-148 | the view is `Link` of the old one |
| Graphs.Graph.RootSourceNode | src/graph.c:132-134 | an unassigned source gets level 1 |
| Graphs.Graph.PlaceTargetNode | src/graph.c:137-142 | an unassigned target goes one level below the source, raising `highest_level` |
| Graphs.Graph.AdoptNode | src/graph.c:145-148 | the parent and child count change exactly for a direct child |
| Graphs.Graph.RaiseHighest | src/graph.c:139-141 | `highest_level` becomes the larger of itself and the level |
| Graphs.Graph.SetLevel | src/graph.c:138 | only that node's level changes |
| Graphs.Graph.SetNodeText | src/parser.c:98-101 | only that node's text changes |
| Graphs.Graph.AddChild | src/graph.c:146 | only that node's child count goes up by one |
| Graphs.Graph.SetParent | src/graph.c:147 | only that node's parent changes |
| Graphs.Graph.UpdateTitle | src/graph.c:170-182 | the title is replaced and nothing else changes |
| Graphs.Graph.CalculateRequiredWidths | src/graph.c:185-213 | the widths become those of `WithWidths` and nothing else changes |
| Graphs.Graph.ResetWidths | src/graph.c:189-191 | every width becomes 440 |
| Graphs.Graph.LevelRound | src/graph.c:195-211 | one level of the bottom-up pass settles every node of that level |
| Graphs.Graph.SettleNode | src/graph.c:196-210 | a node's width becomes the larger of its width and its children's sum |
| Graphs.Graph.SumChildWidths | src/graph.c:200-205 | the matrix scan sums exactly the widths of the direct children |
| TableSpec.FnvStep | src/table.c:18-19 | one FNV-1a step stays below 2^64 (xor of the byte, multiplication by the prime, wrapped) |
| TableSpec.Fnv1a | src/table.c:15-22 | the hash is a 64-bit value |
| TableSpec.Home | src/table.c:53-54 | the home slot lies inside the table |
| TableSpec.OccupiedCount | src/table.c:93 | no more keys than slots |
| TableSpec.MissingIsAbsent | src/table.c:56-65 | a key held by no slot is not in the map |
| TableSpec.OccupiedIsBound | src/table.c:56-59 | an occupied slot's key is bound to its value |
| TableSpec.BoundIsOccupied | src/table.c:52-66 | a bound key is held by some slot |
| TableSpec.WriteBinds | src/table.c:76-96 | writing into an empty slot for a missing key, or into the key's own slot, binds the key to the value and changes no other binding |
| TableSpec.WriteCounts | src/table.c:88-96 | filling an empty slot adds one key and overwriting adds none |
| TableSpec.CountIsSize | src/table.c:93 | with distinct keys the number of occupied slots is the number of bound keys |
| TableSpec.HasEmptySlot | src/table.c:137-141 | a table below full has an empty slot, so every probe stops |
| TableSpec.PrefixCount | src/table.c:114-120 | a prefix never holds more keys than the whole |
| TableSpec.PrefixStep | src/table.c:114-120 | copying one more slot adds exactly its binding |
| TableSpec.AllEmpty | src/table.c:33 | an all-empty array is the empty map with no keys |
| TableSpec.Slot | src/table.c:60-63 | the probe sequence with wrap-around stays inside the table |
| TableSpec.ProbeMissIsMissing | src/table.c:56-65 | a probe that reaches an empty slot after passing only other keys proves the key absent |
| TableSpec.InsertKeepsShape | src/table.c:88-96 | inserting at the first empty slot of the probe keeps every key reachable from its home |
| TableSpec.OverwriteKeepsShape | src/table.c:78-80 | overwriting a value keeps the layout |
| TableSpec.EmptyShape | src/table.c:33 | the empty array satisfies the layout invariant |
| TableSpec.Overwrite | src/table.c:76-81 | an overwrite rebinds the key, keeps the key set and the count |
| TableSpec.Insert | src/table.c:88-97 | an insert adds the new key with its value and one to the count |
| Tables.HashKey | src/table.c:15-22 | the loop computes `Fnv1a` of the key |
| Tables.HomeSlot | src/table.c:53-54 | the index is `hash & (capacity - 1)`, inside the table |
| Tables.Probe | src/table.c:56-64 | stops on the key's slot or on an empty slot, having passed only slots that hold other keys |
| Tables.SetEntry | src/table.c:69-98 | the map gains the binding, the layout is kept, and a key is added exactly when it was absent |
| Tables.Table.constructor | src/table.c:25-39 | `create_table`: empty map, count 0, capacity 16 |
| Tables.Table.CountIsKeys | src/table.c:93 | `count` is the number of bound keys |
| Tables.Table.Get | src/table.c:52-66 | the value bound to exactly that key, or none |
| Tables.Table.Expand | src/table.c:101-127 | doubles the capacity and keeps every binding and the count; fails, changing nothing, when the doubled capacity would overflow an `int` |
| Tables.Table.Set | src/table.c:130-145 | with a value and room, binds the key (last write wins) and counts a new key; a NULL value or a refused expansion changes nothing and returns none |
| Tables.SetThenGet | src/table.c:52-66 | after a successful `table_set(k, v)`, `table_get(k)` is `v`; after a refused one it is the old value |
| Svgs.Decimal | src/svg.c:19-25 | `%d`: non-empty, starting with `-` exactly for a negative number, with a digit after it (round trip: `Svgs.DecimalRoundTrip`) |
| Svgs.NatDigitsShape | src/svg.c:19-25 | `%d` of a natural is a non-empty digit string without a leading zero |
| Svgs.DecimalShape | src/svg.c:19-25 | `%d` is digits with a `-` exactly for negatives and no leading zero |
| Svgs.NatDigitsValue | src/svg.c:19-25 | the digits read back as the number |
| Svgs.DecimalRoundTrip | src/svg.c:19-25 | reading `%d` back gives the integer |
| Svgs.DecimalInjective | src/svg.c:19-25 | different integers are written differently |
| Svgs.DecimalFitsBuffer | src/svg.c:20-22 | every 32-bit `int` with its NUL fits the 16-byte buffer |
| Svgs.HeaderMarkup | src/svg.c:41-45 | the header appends are the `<svg width='Wpx' height='Hpx' ...>` element |
| Svgs.RectangleMarkup | src/svg.c:87-109 | the rectangle appends are one `<rect .../>` element with attributes fill, stroke, stroke-width, width, height, y, x, ry, rx in that order |
| Svgs.LineMarkup | src/svg.c:117-132 | the line appends are one `<line .../>` with stroke, stroke-width, y2, x2, y1, x1 in that order |
| Svgs.TextMarkup | src/svg.c:162-180 | the text appends are one `<text ...>` element with the text verbatim between `>` and `</text>` |
| Svgs.CircleMarkup | src/svg.c:183-197 | the circle appends are one `<circle .../>` with stroke, stroke-width, fill, r, cy, cx |
| Svgs.EllipseMarkup | src/svg.c:200-216 | the ellipse appends are one `<ellipse .../>` with cx, cy, rx, ry, fill, stroke, stroke-width |
| Svgs.Svg.AppendString | src/svg.c:6-16 | the old buffer is a prefix and the text follows it |
| Svgs.Svg.AppendNumber | src/svg.c:19-25 | appends the `%d` decimal of the number |
| Svgs.Svg.constructor | src/svg.c:28-51 | records the size, not finalized, and the buffer is exactly the header |
| Svgs.Svg.Finalize | src/svg.c:54-58 | appends `</svg>` and sets `finalized` |
| Svgs.Svg.Save | src/svg.c:66-69 | finalizes only when not already finalized |
| Svgs.Svg.Rectangle | src/svg.c:87-109 | appends exactly the rectangle element; the header stays a prefix |
| Svgs.Svg.Fill | src/svg.c:112-114 | appends a canvas-sized rectangle at (0,0) with the fill as stroke and zero stroke width and radii |
| Svgs.Svg.Line | src/svg.c:117-132 | appends exactly the line element |
| Svgs.Svg.Text | src/svg.c:162-180 | appends exactly the text element |
| Svgs.Svg.Circle | src/svg.c:183-197 | appends exactly the circle element |
| Svgs.Svg.Ellipse | src/svg.c:200-216 | appends exactly the ellipse element |
| ParserSpec.ErrorAt | src/parser.c:12-31 | does nothing in panic mode; otherwise sets panic mode and writes exactly one diagnostic with the token's line and place (at end, nowhere for an error token, or at the lexeme) |
| ParserSpec.Refill | src/parser.c:42-47 | the new look-ahead is never an error token, every error token met is reported in order, and the scanner never moves back |
| ParserSpec.Advance | src/parser.c:39-48 | `next_token`: the look-ahead becomes the current token, nothing reported is taken back, and what is left to scan shrinks unless the current token was EOF |
| ParserSpec.NextToken | src/parser.c:39-48 | `next_token` on the whole state touches neither the table nor the graph |
| ParserSpec.SkipNewlines | src/parser.c:82-87 | `new_line` stops on a token that is not NEWLINE |
| ParserSpec.TableSet | src/table.c:130-145 | the table as the parser sees it either gains the binding or is refused unchanged |
| ParserSpec.Relabel | src/parser.c:97-101 | only the text of the node of that name may change |
| ParserSpec.Declare | src/parser.c:95-102 | `declare_variable` never touches the tokens |
| ParserSpec.ErrorAtCurrent | src/parser.c:34-36 | `error`: as `error_at` on the current token; tokens, table and graph unchanged |
| ParserSpec.EnsureNode | src/parser.c:166-169 | keeps tokens and table; the node it adds carries the binding (`ParserProps.NodeTakesBinding`) |
| ParserSpec.AddDeclared | src/parser.c:167-168 | a bound name gets one new node, last, with its name and the bound text; an unbound name flags undefined behaviour and leaves the graph alone |
| ParserSpec.Place | src/parser.c:258-261 | adds a node with the given text only when the name has none |
| ParserSpec.Connect | src/parser.c:105-109 | `add_edge_to_graph` keeps tokens and table and only adds diagnostics |
| ParserSpec.Join | src/parser.c:227-228 | one or both edges, keeping tokens and table |
| ParserSpec.LinkTo | src/parser.c:170-176 | node for the target, then the edges |
| ParserSpec.ChainLink | src/parser.c:136-161 | the links made before a chained arrow keep tokens and table (their edges and texts: `ParserProps.ChainLinks`) |
| ParserSpec.FinalLink | src/parser.c:166-179 | the closing block of an arrow keeps tokens and table |
| ParserSpec.InlineLink | src/parser.c:257-271 | the edge block of an inline assignment keeps tokens and table |
| ParserSpec.ParseArrow | src/parser.c:114-123 | `arrow` moves only forward and never leaves panic mode |
| ParserSpec.ArrowOperator | src/parser.c:124-236 | both arrow branches move only forward and never leave panic mode |
| ParserSpec.ArrowTarget | src/parser.c:128-179 | same, for the part after the target |
| ParserSpec.TargetContinuation | src/parser.c:130-164 | same, for an inline assignment or chained arrow |
| ParserSpec.ParseAssignment | src/parser.c:240-246 | `assignment` moves only forward and never leaves panic mode |
| ParserSpec.AssignOperator | src/parser.c:247-251 | same, past `=` |
| ParserSpec.AssignValue | src/parser.c:253-304 | same, for the value |
| ParserSpec.BindString | src/parser.c:251-271 | binding a string keeps the tokens and only adds diagnostics |
| ParserSpec.AfterString | src/parser.c:272-283 | moves only forward and never leaves panic mode |
| ParserSpec.AssignName | src/parser.c:284-301 | same, for a name as the value (the order of a chain: `ParserProps.ChainedAssignmentCopies`) |
| ParserSpec.ValueContinuation | src/parser.c:289-294 | same, for a chain after the name |
| ParserSpec.CopyValue | src/parser.c:295-301 | same, for the copy |
| ParserSpec.ParseTitle | src/parser.c:320-331 | same, for a title block |
| ParserSpec.StatementBody | src/parser.c:319-347 | same, for a statement |
| ParserSpec.ParseStatement | src/parser.c:319-350 | a statement ends on a token that is not NEWLINE |
| ParserSpec.SkipToLineEnd | src/parser.c:312-315 | stops with the current token NEWLINE or the look-ahead EOF, and does not move when already there |
| ParserSpec.Synchronize | src/parser.c:309-316 | clears panic mode (only a new error token sets it again) and stops at a line end or an EOF look-ahead |
| ParserSpec.Round | src/parser.c:358-361 | one round moves only forward and never undoes undefined behaviour |
| ParserSpec.ParseLoop | src/parser.c:358-361 | the loop reports Finished exactly when the current token is EOF |
| ParserSpec.LoopStep | src/parser.c:358-361 | away from EOF, the loop is one round followed by the loop |
| ParserSpec.Init | src/parser.c:55-63 | `init_parser` yields a well-formed state |
| ParserSpec.ParseFrom | src/parser.c:353-362 | `parse` finishes exactly at EOF |
| ParserSpec.Parse | src/parser.c:353-362 | `init_parser` then `parse` yields a well-formed state |
| Parsing.Parser.constructor | src/parser.c:50-63 | the object's state is exactly `Init` of the source |
| Parsing.Parser.ErrorAt | src/parser.c:12-31 | the tokens, flags and diagnostics become `ParserSpec.ErrorAt` of the old ones |
| Parsing.Parser.NextToken | src/parser.c:39-48 | the tokens become `Advance` of the old ones |
| Parsing.Parser.Match | src/parser.c:76-79 | advances exactly when the current token has the kind |
| Parsing.Parser.NewLine | src/parser.c:82-87 | the tokens become `SkipNewlines` of the old ones |
| Parsing.Parser.SkipLeadingNewlines | src/parser.c:354-356 | the tokens become `SkipNewlines` of the old ones |
| Parsing.Parser.Synchronize | src/parser.c:309-316 | the tokens become `ParserSpec.Synchronize` of the old ones |
| Parsing.Parser.ErrorAtCurrent | src/parser.c:34-36 | the state becomes `ParserSpec.ErrorAtCurrent` of the old one |
| Parsing.Parser.Shift | src/parser.c:39-48 | the state becomes `ParserSpec.NextToken` of the old one |
| Parsing.Parser.IsDeclared | src/parser.c:90-92 | true exactly when the name is bound |
| Parsing.Parser.Bind | src/parser.c:96 | the table becomes `TableSet` of the old one |
| Parsing.Parser.Relabel | src/parser.c:97-101 | the state becomes `ParserSpec.Relabel` of the old one |
| Parsing.Parser.DeclareVariable | src/parser.c:95-102 | the state becomes `Declare` of the old one |
| Parsing.Parser.EnsureNode | src/parser.c:166-169 | the state becomes `ParserSpec.EnsureNode` of the old one |
| Parsing.Parser.AddDeclared | src/parser.c:167-168 | the state becomes `ParserSpec.AddDeclared` of the old one |
| Parsing.Parser.Place | src/parser.c:258-261 | the state becomes `ParserSpec.Place` of the old one |
| Parsing.Parser.AddEdgeToGraph | src/parser.c:105-109 | the state becomes `Connect` of the old one |
| Parsing.Parser.Join | src/parser.c:227-228 | the state becomes `ParserSpec.Join` of the old one |
| Parsing.Parser.LinkTo | src/parser.c:170-176 | the state becomes `ParserSpec.LinkTo` of the old one |
| Parsing.Parser.ChainLink | src/parser.c:136-146 | the state becomes `ParserSpec.ChainLink` of the old one |
| Parsing.Parser.FinalLink | src/parser.c:166-179 | the state becomes `ParserSpec.FinalLink` of the old one |
| Parsing.Parser.InlineLink | src/parser.c:257-271 | the state becomes `ParserSpec.InlineLink` of the old one |
| Parsing.Parser.Arrow | src/parser.c:114-237 | the state becomes `ParseArrow` of the old one |
| Parsing.Parser.ArrowOperator | src/parser.c:124-236 | the state becomes `ParserSpec.ArrowOperator` of the old one |
| Parsing.Parser.ArrowTarget | src/parser.c:128-179 | the state becomes `ParserSpec.ArrowTarget` of the old one |
| Parsing.Parser.TargetContinuation | src/parser.c:130-164 | the state becomes `ParserSpec.TargetContinuation` of the old one |
| Parsing.Parser.Assignment | src/parser.c:240-306 | the state becomes `ParseAssignment` of the old one |
| Parsing.Parser.AssignOperator | src/parser.c:247-251 | the state becomes `ParserSpec.AssignOperator` of the old one |
| Parsing.Parser.AssignValue | src/parser.c:253-304 | the state becomes `ParserSpec.AssignValue` of the old one |
| Parsing.Parser.BindString | src/parser.c:251-271 | the state becomes `ParserSpec.BindString` of the old one |
| Parsing.Parser.AfterString | src/parser.c:272-283 | the state becomes `ParserSpec.AfterString` of the old one |
| Parsing.Parser.AssignName | src/parser.c:284-301 | the state becomes `ParserSpec.AssignName` of the old one |
| Parsing.Parser.ValueContinuation | src/parser.c:289-294 | the state becomes `ParserSpec.ValueContinuation` of the old one |
| Parsing.Parser.CopyValue | src/parser.c:295-301 | the state becomes `ParserSpec.CopyValue` of the old one |
| Parsing.Parser.Title | src/parser.c:320-331 | the state becomes `ParseTitle` of the old one |
| Parsing.Parser.StatementBody | src/parser.c:319-347 | the state becomes `ParserSpec.StatementBody` of the old one |
| Parsing.Parser.Statement | src/parser.c:319-350 | the state becomes `ParseStatement` of the old one |
| Parsing.Parser.Round | src/parser.c:358-361 | the state becomes `ParserSpec.Round` of the old one |
| Parsing.Parser.Loop | src/parser.c:358-361 | the state and outcome are `ParseLoop` of the old state |
| Parsing.Parser.Parse | src/parser.c:353-362 | the state and outcome are `ParseFrom` of the old state |
| Parsing.Parser.Interpret | src/parser.c:365-368 | as `Parse`, and the returned `had_error` is true exactly when a diagnostic was written |
| Parsing.Run | src/main.c:48-49 | `init_parser` then `interpret` end in `ParserSpec.Parse` of the source |
| ParserProps.LexerErrorIsReported | src/parser.c:42-47 | an error token is reported with its own message, at its line and with no place, and never becomes the look-ahead |
| ParserProps.TitleIsTheString | src/parser.c:320-331 | `{ "s" }` sets the title to `s`; a non-string reports "Expected string." at it and keeps the graph; the table is untouched |
| ParserProps.InitIsEmpty | src/parser.c:50-63 | `init_parser` starts from an empty graph and an empty table of 16 slots, with tokens that are not errors |
| ParserProps.StringIsBound | src/parser.c:253-255 | `a = "s"` binds `a` to `s` when the table has room, relabels the node named `a`, and keeps names and edges |
| ParserProps.RelabelKeepsNames | src/parser.c:97-101 | relabelling changes no name and no edge |
| ParserProps.PlaceFinds | src/parser.c:258-261 | after placing a node the name is found and earlier lookups are unchanged |
| ParserProps.ConnectAdds | src/parser.c:105-109 | between two existing nodes the edge is added with no report, keeping names and texts |
| ParserProps.FailedEdgeIsReported | src/parser.c:105-109 | with an end missing, the graph is kept and "Invalid nodes for edge creation." is reported |
| ParserProps.JoinAdds | src/parser.c:227-228 | `<->` adds both edges and `->` one |
| ParserProps.InlineAssignmentLinks | src/parser.c:255-271 | `a -> b = "s"` binds `b`, gives both ends a node (a missing `a` gets text `s`) and adds the edge, both ways for `<->`, without a report |
| ParserProps.NameIsCopied | src/parser.c:295-300 | `a = b` copies `b`'s value; an unbound `b` reports "Undefined variable." and changes nothing |
| ParserProps.AssignToLiteralIsReported | src/parser.c:272-276 | a string followed by `=` reports "Cannot assign to literal." and binds nothing more |
| ParserProps.NameInInlineAssignmentIsReported | src/parser.c:286-288 | `a -> b = c` reports "Cannot assign to identifier while adding edge." |
| ParserProps.UndeclaredSourceIsReported | src/parser.c:116-118 | an arrow from an unbound name reports "Undefined variable." first |
| ParserProps.NodeTakesBinding | src/parser.c:166-176 | a name with no node but a binding gets a node whose text is the binding; earlier nodes and lookups are kept; a name with neither is undefined behaviour |
| ParserProps.LinkToAdds | src/parser.c:170-176 | a bound target gets a node with its bound text if it has none, then the edge (both for `<->`) is added with no report, and earlier nodes keep their id and text |
| ParserProps.ArrowLinks | src/parser.c:166-179 | with both ends usable the edge (both ways for `<->`) is added with no report; an end that had no node gets one carrying its binding; an unbound target is reported; a source with no node and no binding is undefined behaviour |
| ParserProps.ChainLinks | src/parser.c:136-161 | before a chained arrow: with both ends usable the edge is added, and the reverse too when the next operator is `<->`; an unbound target is skipped with no report and no edge; new nodes carry their binding |
| ParserProps.ChainedAssignmentCopies | src/parser.c:288-300 | in `a = b ...` the assignment or arrow starting at `b` runs first, and `a` then takes `b`'s value in the table it left, or the table is kept when `b` is unbound |
| ParserProps.UnstartableStatementIsIgnored | src/parser.c:319-349 | a statement starting with a string, `=`, `}`, `->` or `<->` is neither consumed nor reported |
| ParserProps.UnstartableStatementNeverFinishes | src/parser.c:358-361 | from such a statement the loop never reaches EOF and the state never changes |
| ParserProps.LastNameIsReportedAgain | src/parser.c:344-346 | a last name that starts nothing is reported and `synchronize` leaves the tokens where they were |
| ParserProps.LastNameNeverFinishes | src/parser.c:358-361 | from such a name the loop never reaches EOF and writes one diagnostic per round |
| ParserProps.LoneNameNeverFinishes | src/parser.c:353-362 | the source `a` never finishes parsing |

## Left out

- `src/main.c` is not part of this model: argument parsing, `read_file` and the exit codes are
  input and output. `Parsing.Run` stands for its two calls `init_parser` and `interpret`.
- `draw_graph`, `print_graph` and `print_table` are left out. They do floating-point layout, SVG
  drawing, file naming and printing to standard output.
- `svg_arrow` is left out, because its arrowhead is computed with `sqrt`, `cos` and `sin`. Also
  left out: the file write of `svg_save`, `svg_print` and `svg_free`.
- Memory management is left out: `free_graph`, `free_table`, the leaked `strndup` copies, every
  branch taken when `malloc`, `calloc`, `realloc` or `strdup` fails, and the undersized
  allocation in `init_lexer`.
- Pointer sharing between the table's values and node texts is not modelled. Strings are values
  here.
- Diagnostics are kept as (line, place, message) values, not as the formatted text written to
  standard error.
- The lexer works on `seq<char>` without a NUL (`CString`). Each character stands for one byte,
  and `hash_key` reads it as its value modulo 256.
- Node positions `x_pos` and `y_pos` are kept only at their initial -1. Required widths are
  integers, because the pass only adds the integer footprint 440.
- ParserSpec.ParseLoop: the loop of `parse` is run for a given number of rounds. The C loop is
  unbounded and does not always end, so the model reports `OutOfRounds` where the program would
  spin.
- Svgs.Svg.AppendString: the text is appended whole. `strcat` would stop at a NUL inside it;
  texts here come from the lexer or from the drawing code and hold none.
- ParserSpec.EnsureNode: `add_node` with a NULL text is undefined behaviour in C. It is recorded
  as the flag `ub` and no node is added, so what follows that point is not the program's
  behaviour.
- Tables.Table.Set: `assert(value != NULL)` is taken as compiled out, so a NULL value returns
  NULL and changes nothing. The signed overflow of `capacity * 2` in `table_expand` is modelled
  as a refused expansion whenever the doubled capacity exceeds `INT_MAX`.
- ParserSpec.TableSet: its contract says only that the binding is added or refused. The exact
  condition is `HasRoom`, proved for the class in `Tables.Table.Set`.
- ParserSpec.ParseArrow: its contract (and that of the other statement functions) states only
  forward motion and panic discipline. What each statement does to the table, the graph and the
  diagnostics is proved in module ParserProps.
- `check_token`, `check_peek` and `match` inside statements are written as comparisons of the
  current or next token kind (`Parsing.Parser.Match` models `match` itself). The two branches of
  `arrow` for `->` and `<->` differ only in whether the reverse edge is added, and are one
  function with a flag.
