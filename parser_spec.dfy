/**
 * What one call of each function of src/parser.c does, stated on a value `PState` that
 * holds everything those functions read or write: the scanner, the two tokens of
 * look-ahead, the variable table, the graph, the panic flag and the diagnostics written to
 * standard error.  The class `Parser` (module Parsing) is proved to follow these functions.
 *
 * The recursive descent (`arrow` and `assignment` call each other) terminates because
 * every recursive call comes after at least one `next_token` that consumed a token other
 * than EOF; `Progress` measures what is left.  The top-level loop of `parse` is the one
 * place that may not terminate, and it is given an explicit number of rounds.
 */
module ParserSpec {
  import opened Wrappers
  import opened Lexing
  import opened GraphSpec
  import Tables

  // ---------------------------------------------------------------------------
  // State
  // ---------------------------------------------------------------------------

  /** Where `error_at` says the error is: " at end", nothing, or " at '<lexeme>'". */
  datatype Where = AtEnd | Nowhere | AtLexeme(lexeme: string)

  /** One line `[line N] Error<where>: <message>` written to standard error. */
  datatype Diagnostic = Diagnostic(line: int, where: Where, message: string)

  /**
   * The variable table as the parser sees it: the map it stands for and its capacity,
   * which decides when `table_set` has to grow it (module Tables).
   */
  datatype Symbols = Symbols(vars: map<string, string>, capacity: nat)

  /**
   * The part of the global `parser` that `next_token` and `error_at` work on: the scanner's
   * state, the current token and the look-ahead, the panic flag, and the diagnostics written
   * to standard error so far.
   */
  datatype Scanner = Scanner(lex: LexState, curr: Token, next: Token, panicMode: bool, errors: seq<Diagnostic>)

  /**
   * The globals `parser` and `interpret_result`.  Both `had_error` flags are set exactly
   * when a diagnostic is written and are never cleared, so they are `|sc.errors| > 0` here.
   * `ub` records that the C code has reached undefined behaviour (`add_node` with a NULL
   * text); what the model computes after that point says nothing about the program.
   */
  datatype PState = PState(sc: Scanner, table: Symbols, graph: GraphView, ub: bool)

  /** `had_error`, of both the parser and the interpret result. */
  function HadError(s: PState): bool {
    |s.sc.errors| > 0
  }

  /** The token a zero-initialised global holds: kind 0 (`TOKEN_LEFT_BRACE`), no text, line 0. */
  const ZeroToken: Token := Token(LeftBrace, "", 0)

  const UndefinedVariable: string := "Undefined variable."
  const ExpectedIdentifier: string := "Expected identifier."
  const InvalidNodes: string := "Invalid nodes for edge creation."
  const CannotAssignToLiteral: string := "Cannot assign to literal."
  const CannotAssignWhileAddingEdge: string := "Cannot assign to identifier while adding edge."
  const ExpectedStringOrIdentifier: string := "Expected string or identifier."
  const ExpectedString: string := "Expected string."
  const ExpectedStatement: string := "Expected either assignment or arrow to node."

  /**
   * The shape every scanner the parser reaches has: the lexer is inside the source, the
   * look-ahead is never an error token, an EOF look-ahead means the lexer is at the end,
   * and an EOF current token has an EOF look-ahead behind it.
   */
  predicate Ready(src: string, k: Scanner) {
    && k.lex.current <= |src|
    && k.next.kind != Error
    && (k.next.kind == Eof ==> k.lex.current == |src|)
    && (k.curr.kind == Eof ==> k.next.kind == Eof)
  }

  predicate Wf(src: string, s: PState) {
    Ready(src, s.sc)
  }

  /** What is left to scan: every `next_token` past a token other than EOF lowers it. */
  function Remaining(src: string, k: Scanner): nat {
    if k.lex.current <= |src| then
      3 * (|src| - k.lex.current) + (if k.curr.kind != Eof then 1 else 0) + (if k.next.kind != Eof then 1 else 0)
    else 0
  }

  function Progress(src: string, s: PState): nat {
    Remaining(src, s.sc)
  }

  /**
   * `k2` is a scanner reachable from `k`: the lexer never moves back, an EOF token stays
   * EOF, and no diagnostic is taken back.
   */
  predicate Moves(src: string, k: Scanner, k2: Scanner) {
    && Ready(src, k2)
    && k.lex.current <= k2.lex.current
    && (k.curr.kind == Eof ==> k2.curr.kind == Eof)
    && (k.next.kind == Eof ==> k2.next.kind == Eof)
    && |k.errors| <= |k2.errors|
  }

  /** In panic mode nothing more is reported, and panic mode stays on. */
  predicate Quiet(k: Scanner, k2: Scanner) {
    k.panicMode ==> k2.panicMode && k2.errors == k.errors
  }

  /** A move of the scanner that does not leave panic mode. */
  predicate Steps(src: string, k: Scanner, k2: Scanner) {
    Moves(src, k, k2) && Quiet(k, k2)
  }

  /** `r` is a state the parser can reach from `s`; undefined behaviour is never undone. */
  predicate Follows(src: string, s: PState, r: PState) {
    Moves(src, s.sc, r.sc) && (s.ub ==> r.ub)
  }

  /** Reaching a state never adds to what is left to parse. */
  lemma FollowsProgress(src: string, s: PState, r: PState)
    requires Wf(src, s) && Follows(src, s, r)
    ensures Progress(src, r) <= Progress(src, s)
  {
  }

  /** A step of the parser that does not leave panic mode: everything but `synchronize`. */
  predicate Continues(src: string, s: PState, r: PState) {
    Follows(src, s, r) && Quiet(s.sc, r.sc)
  }

  /** Diagnostics are only added, and none while in panic mode. */
  predicate Reported(s: PState, r: PState) {
    |s.sc.errors| <= |r.sc.errors| && Quiet(s.sc, r.sc)
  }

  /** The tokens and the lexer are those of `s`. */
  predicate SameTokens(s: PState, r: PState) {
    r.sc.lex == s.sc.lex && r.sc.curr == s.sc.curr && r.sc.next == s.sc.next
  }

  // ---------------------------------------------------------------------------
  // Errors and tokens (src/parser.c:12-87)
  // ---------------------------------------------------------------------------

  function WhereOf(t: Token): Where {
    if t.kind == Eof then AtEnd else if t.kind == Error then Nowhere else AtLexeme(t.lexeme)
  }

  /**
   * `error_at`: nothing in panic mode; otherwise panic mode is switched on and one
   * diagnostic naming the token's line and place is written.
   */
  function ErrorAt(k: Scanner, t: Token, message: string): (r: Scanner)
    ensures r.lex == k.lex && r.curr == k.curr && r.next == k.next
    ensures k.panicMode ==> r == k
    ensures !k.panicMode ==> r.panicMode && r.errors == k.errors + [Diagnostic(t.line, WhereOf(t), message)]
  {
    if k.panicMode then k
    else k.(panicMode := true, errors := k.errors + [Diagnostic(t.line, WhereOf(t), message)])
  }

  /** `error`: an error at the current token. */
  function ErrorAtCurrent(s: PState, message: string): (r: PState)
    ensures SameTokens(s, r) && r.table == s.table && r.graph == s.graph && r.ub == s.ub
    ensures s.sc.panicMode ==> r == s
    ensures !s.sc.panicMode ==>
      r.sc.panicMode && r.sc.errors == s.sc.errors + [Diagnostic(s.sc.curr.line, WhereOf(s.sc.curr), message)]
  {
    s.(sc := ErrorAt(s.sc, s.sc.curr, message))
  }

  /**
   * The loop of `next_token`: scan, and report and drop every error token, until the
   * lexer yields a token that is not an error; that token becomes the look-ahead.
   */
  function Refill(src: string, k: Scanner): (r: Scanner)
    requires k.lex.current <= |src|
    ensures k.lex.current <= r.lex.current <= |src|
    ensures r.next.kind != Error
    ensures r.next.kind == Eof ==> r.lex.current == |src|
    ensures r.next.kind != Eof ==> k.lex.current < r.lex.current
    ensures r.curr == k.curr
    ensures |k.errors| <= |r.errors| && Quiet(k, r) && r.errors[..|k.errors|] == k.errors
    ensures r.panicMode ==> k.panicMode || |k.errors| < |r.errors|
    decreases |src| - k.lex.current
  {
    var (t, lex) := Scan(src, k.lex);
    if t.kind == Error then Refill(src, ErrorAt(k.(lex := lex, next := t), t, t.lexeme))
    else k.(lex := lex, next := t)
  }

  /** `next_token`: the look-ahead becomes the current token and a new look-ahead is scanned. */
  function Advance(src: string, k: Scanner): (r: Scanner)
    requires Ready(src, k)
    ensures Steps(src, k, r) && r.errors[..|k.errors|] == k.errors
    ensures r.panicMode ==> k.panicMode || |k.errors| < |r.errors|
    ensures r.curr == k.next
    ensures k.curr.kind != Eof ==> Remaining(src, r) < Remaining(src, k)
  {
    Refill(src, k.(curr := k.next))
  }

  /** `next_token` on the whole state: only the scanner moves. */
  function NextToken(src: string, s: PState): (r: PState)
    requires Wf(src, s)
    ensures Continues(src, s, r) && r.sc.curr == s.sc.next
    ensures r.table == s.table && r.graph == s.graph && r.ub == s.ub
    ensures s.sc.curr.kind != Eof ==> Progress(src, r) < Progress(src, s)
  {
    s.(sc := Advance(src, s.sc))
  }

  /** `new_line`: `match(TOKEN_NEWLINE)` and then every further NEWLINE is skipped. */
  function SkipNewlines(src: string, k: Scanner): (r: Scanner)
    requires Ready(src, k)
    ensures Steps(src, k, r) && r.curr.kind != Newline
    decreases Remaining(src, k)
  {
    if k.curr.kind == Newline then SkipNewlines(src, Advance(src, k)) else k
  }

  // ---------------------------------------------------------------------------
  // Variables, nodes and edges (src/parser.c:90-109 and the blocks of `arrow`)
  // ---------------------------------------------------------------------------

  /**
   * `table_set` as the variable table does it: when the table is half full it must double
   * first, and when doubling would overflow an `int` the call is refused.
   */
  function TableSet(t: Symbols, key: string, value: string): (r: Symbols)
    ensures r.vars == t.vars[key := value] || r == t
  {
    if 2 * |t.vars| >= t.capacity then
      if 2 * t.capacity > Tables.IntMax then t else Symbols(t.vars[key := value], 2 * t.capacity)
    else Symbols(t.vars[key := value], t.capacity)
  }

  /** Whether `table_set` has room for one more key. */
  predicate HasRoom(t: Symbols) {
    2 * |t.vars| < t.capacity || 2 * t.capacity <= Tables.IntMax
  }

  /** The node named `name`, if there is one, gets the text `value`. */
  function Relabel(s: PState, name: string, value: string): (r: PState)
    ensures r.sc == s.sc && r.table == s.table && r.ub == s.ub
  {
    match Find(s.graph.nodes, name)
    case Some(i) => s.(graph := SetText(s.graph, i, value))
    case None => s
  }

  /**
   * `declare_variable`: the name is bound in the table and, if a node of that name
   * exists, its text is replaced.
   */
  function Declare(s: PState, name: string, value: string): (r: PState)
    ensures r.sc == s.sc && r.ub == s.ub
  {
    Relabel(s.(table := TableSet(s.table, name, value)), name, value)
  }

  /**
   * `if (!get_node(g, name)) add_node(g, name, table_get(variables, name))`.  When the
   * name has no node and no binding the C code hands NULL to `strdup`: undefined behaviour.
   */
  function EnsureNode(s: PState, name: string): (r: PState)
    ensures r.sc == s.sc && r.table == s.table && (s.ub ==> r.ub)
  {
    if Find(s.graph.nodes, name).Some? then s else AddDeclared(s, name)
  }

  /** `add_node(g, name, table_get(variables, name))`, undefined when `name` is unbound. */
  function AddDeclared(s: PState, name: string): (r: PState)
    ensures r.sc == s.sc && r.table == s.table && (s.ub ==> r.ub)
    ensures name in s.table.vars ==>
      && r.ub == s.ub && |r.graph.nodes| == |s.graph.nodes| + 1 && r.graph.edges == s.graph.edges
      && r.graph.nodes[|s.graph.nodes|].name == name && r.graph.nodes[|s.graph.nodes|].text == s.table.vars[name]
    ensures name !in s.table.vars ==> r.ub && r.graph == s.graph
  {
    if name in s.table.vars then s.(graph := AddNode(s.graph, name, s.table.vars[name]))
    else s.(ub := true)
  }

  /** `if (!get_node(g, name)) add_node(g, name, text)` with a text at hand. */
  function Place(s: PState, name: string, text: string): (r: PState)
    ensures r.sc == s.sc && r.table == s.table && r.ub == s.ub
  {
    if Find(s.graph.nodes, name).Some? then s else s.(graph := AddNode(s.graph, name, text))
  }

  /** `add_edge_to_graph`: a failed `add_edge` is reported. */
  function Connect(s: PState, from: string, to: string): (r: PState)
    ensures SameTokens(s, r) && r.table == s.table && r.ub == s.ub && Reported(s, r)
  {
    var (ok, g) := AddEdge(s.graph, from, to);
    if ok then s.(graph := g) else ErrorAtCurrent(s.(graph := g), InvalidNodes)
  }

  /** The edge `from -> to`, and `to -> from` too when `both`. */
  function Join(s: PState, from: string, to: string, both: bool): (r: PState)
    ensures SameTokens(s, r) && r.table == s.table && r.ub == s.ub && Reported(s, r)
  {
    var s1 := Connect(s, from, to);
    if both then Connect(s1, to, from) else s1
  }

  /** A node for the declared `target` if there is none, then the edge (or edges) from `name`. */
  function LinkTo(s: PState, name: string, target: string, both: bool): (r: PState)
    ensures SameTokens(s, r) && r.table == s.table && Reported(s, r) && (s.ub ==> r.ub)
  {
    Join(EnsureNode(s, target), name, target, both)
  }

  /**
   * The block `arrow` runs before a chained arrow: a node for `name` if there is none;
   * and, when `target` is declared, a node for it and the edge (or the two edges).
   */
  function ChainLink(s: PState, name: string, target: string, both: bool): (r: PState)
    ensures SameTokens(s, r) && r.table == s.table && Reported(s, r) && (s.ub ==> r.ub)
  {
    var s1 := EnsureNode(s, name);
    if target in s1.table.vars then LinkTo(s1, name, target, both) else s1
  }

  /**
   * The block that ends both arrow branches: as `ChainLink`, except that an undeclared
   * target is reported as an undefined variable.
   */
  function FinalLink(s: PState, name: string, target: string, both: bool): (r: PState)
    ensures SameTokens(s, r) && r.table == s.table && Reported(s, r) && (s.ub ==> r.ub)
  {
    var s1 := EnsureNode(s, name);
    if target in s1.table.vars then LinkTo(s1, name, target, both) else ErrorAtCurrent(s1, UndefinedVariable)
  }

  /**
   * The edge block of `assignment` for `from -> to = "text"`: both ends get a node with the
   * assigned text if they have none, then the edge (or the two edges) is added.
   */
  function InlineLink(s: PState, from: string, to: string, text: string, both: bool): (r: PState)
    ensures SameTokens(s, r) && r.table == s.table && r.ub == s.ub && Reported(s, r)
  {
    Join(Place(Place(s, from, text), to, text), from, to, both)
  }

  // ---------------------------------------------------------------------------
  // Statements (src/parser.c:114-350)
  // ---------------------------------------------------------------------------

  predicate IsArrow(k: TokenKind) {
    k == Arrow || k == DoubleArrow
  }

  /**
   * `arrow(prev_name)`, entered with the current token on the source name (`prev` is None)
   * or on the arrow after an inline assignment (`prev` holds the assigned name).  The
   * token the call starts on is looked up first, whichever name is then used.
   */
  function ParseArrow(src: string, s: PState, prev: Option<string>): (r: PState)
    requires Wf(src, s)
    ensures Continues(src, s, r)
    decreases Progress(src, s), 2
  {
    var s1 := if s.sc.curr.lexeme in s.table.vars then s else ErrorAtCurrent(s, UndefinedVariable);
    var name := if prev.Some? then prev.value else s.sc.curr.lexeme;
    ArrowOperator(src, if prev.None? then NextToken(src, s1) else s1, name)
  }

  /** The arrow branches of `arrow`: past the arrow, the target must be an identifier. */
  function ArrowOperator(src: string, s: PState, name: string): (r: PState)
    requires Wf(src, s)
    ensures Continues(src, s, r)
    decreases Progress(src, s), 1
  {
    if IsArrow(s.sc.curr.kind) then
      var s1 := NextToken(src, s);
      if s1.sc.curr.kind == Identifier then ArrowTarget(src, s1, name, s.sc.curr.kind == DoubleArrow)
      else ErrorAtCurrent(s1, ExpectedIdentifier)
    else s
  }

  /**
   * The rest of an arrow branch, with the current token on the target: an inline
   * assignment to the target or a chained arrow from it comes first, then the edge from
   * `name` to the target (both ways for `<->`).
   */
  function ArrowTarget(src: string, s: PState, name: string, both: bool): (r: PState)
    requires Wf(src, s)
    ensures Continues(src, s, r)
    decreases Progress(src, s), 4
  {
    FinalLink(TargetContinuation(src, s, name, both), name, s.sc.curr.lexeme, both)
  }

  /**
   * What follows the target of an arrow: an assignment to it, which also adds the edge,
   * or a chained arrow from it, after the nodes and edge of this arrow.
   */
  function TargetContinuation(src: string, s: PState, name: string, both: bool): (r: PState)
    requires Wf(src, s)
    ensures Continues(src, s, r)
    decreases Progress(src, s), 3
  {
    if s.sc.next.kind == Equal then ParseAssignment(src, s, Some(name), !both, both)
    else if IsArrow(s.sc.next.kind) then
      ParseArrow(src, ChainLink(s, name, s.sc.curr.lexeme, s.sc.next.kind == DoubleArrow), None)
    else s
  }

  /**
   * `assignment(prev_name, add_edge, add_two_edges)`, entered with the current token on
   * the assigned name.  The two flags say that the assignment is the target of an arrow
   * (`a -> b = ...`) or of a double arrow, whose source is then `prev`.
   */
  function ParseAssignment(src: string, s: PState, prev: Option<string>, addEdge: bool, addTwoEdges: bool): (r: PState)
    requires Wf(src, s) && ((addEdge || addTwoEdges) ==> prev.Some?)
    ensures Continues(src, s, r)
    decreases Progress(src, s), 2
  {
    var inline := prev.Some? && !addEdge && !addTwoEdges;
    var name := if inline then prev.value else s.sc.curr.lexeme;
    AssignOperator(src, if !inline then NextToken(src, s) else s, name, prev, addEdge, addTwoEdges)
  }

  /** Nothing more unless the current token is `=`; past it comes the value. */
  function AssignOperator(src: string, s: PState, name: string, prev: Option<string>, addEdge: bool, addTwoEdges: bool): (r: PState)
    requires Wf(src, s) && ((addEdge || addTwoEdges) ==> prev.Some?)
    ensures Continues(src, s, r)
    decreases Progress(src, s), 1
  {
    if s.sc.curr.kind != Equal then s
    else AssignValue(src, NextToken(src, s), name, prev, addEdge, addTwoEdges)
  }

  /** The value of an assignment: a string, another name, or an error. */
  function AssignValue(src: string, s: PState, name: string, prev: Option<string>, addEdge: bool, addTwoEdges: bool): (r: PState)
    requires Wf(src, s) && ((addEdge || addTwoEdges) ==> prev.Some?)
    ensures Continues(src, s, r)
    decreases Progress(src, s), 5
  {
    if s.sc.curr.kind == String then AfterString(src, BindString(s, name, prev, addEdge, addTwoEdges), name)
    else if s.sc.curr.kind == Identifier then AssignName(src, s, name, addEdge || addTwoEdges)
    else ErrorAtCurrent(s, ExpectedStringOrIdentifier)
  }

  /**
   * `name = "text"`, with the current token on the string: the name is declared with the
   * string's contents and, for an assignment that is the target of an arrow, the missing
   * end nodes get that text and the edge (or both edges) is added.
   */
  function BindString(s: PState, name: string, prev: Option<string>, addEdge: bool, addTwoEdges: bool): (r: PState)
    requires (addEdge || addTwoEdges) ==> prev.Some?
    ensures SameTokens(s, r) && r.ub == s.ub && Reported(s, r)
  {
    var value := s.sc.curr.lexeme;
    var s1 := Declare(s, name, value);
    if addEdge then InlineLink(s1, prev.value, name, value, false)
    else if addTwoEdges then InlineLink(s1, prev.value, name, value, true)
    else s1
  }

  /**
   * What follows `name = "text"`: `=` is an error that skips two tokens, an arrow makes
   * the rest an arrow statement from `name`, anything else is stepped over.
   */
  function AfterString(src: string, s: PState, name: string): (r: PState)
    requires Wf(src, s)
    ensures Continues(src, s, r)
    decreases Progress(src, s), 3
  {
    if s.sc.next.kind == Equal then
      NextToken(src, NextToken(src, ErrorAtCurrent(s, CannotAssignToLiteral)))
    else if IsArrow(s.sc.next.kind) then
      ParseArrow(src, NextToken(src, s), Some(name))
    else NextToken(src, s)
  }

  /**
   * `name = other`, with the current token on `other`: an assignment or arrow that starts
   * at `other` is parsed first, then `name` takes the value `other` is bound to.
   */
  function AssignName(src: string, s: PState, name: string, withEdge: bool): (r: PState)
    requires Wf(src, s)
    ensures Continues(src, s, r)
    decreases Progress(src, s), 4
  {
    var s1 := if withEdge then ErrorAtCurrent(s, CannotAssignWhileAddingEdge) else s;
    CopyValue(src, ValueContinuation(src, s1), name, s.sc.curr.lexeme)
  }

  /** What follows a name used as a value: a further assignment, or an arrow, from it. */
  function ValueContinuation(src: string, s: PState): (r: PState)
    requires Wf(src, s)
    ensures Continues(src, s, r)
    decreases Progress(src, s), 3
  {
    if s.sc.next.kind == Equal then ParseAssignment(src, s, None, false, false)
    else if IsArrow(s.sc.next.kind) then ParseArrow(src, s, None)
    else s
  }

  /** The end of `name = other`: the copy of `other`'s value, or an error, then the next token. */
  function CopyValue(src: string, s: PState, name: string, other: string): (r: PState)
    requires Wf(src, s)
    ensures Continues(src, s, r)
  {
    NextToken(src, if other in s.table.vars then Declare(s, name, s.table.vars[other]) else ErrorAtCurrent(s, UndefinedVariable))
  }

  /** `{ "title" }`: the title is set from the string; the closing brace is optional. */
  function ParseTitle(src: string, s: PState): (r: PState)
    requires Wf(src, s)
    ensures Continues(src, s, r)
  {
    var s1 := NextToken(src, s);
    if s1.sc.curr.kind == String then
      var s2 := NextToken(src, s1.(graph := SetTitle(s1.graph, s1.sc.curr.lexeme)));
      if s2.sc.curr.kind == RightBrace then NextToken(src, s2) else s2
    else ErrorAtCurrent(s1, ExpectedString)
  }

  /** The statement proper, before `new_line`. */
  function StatementBody(src: string, s: PState): (r: PState)
    requires Wf(src, s)
    ensures Continues(src, s, r)
  {
    if s.sc.curr.kind == LeftBrace then ParseTitle(src, s)
    else if s.sc.curr.kind == Identifier then
      if s.sc.next.kind == Equal then NextToken(src, ParseAssignment(src, s, None, false, false))
      else if IsArrow(s.sc.next.kind) then NextToken(src, ParseArrow(src, s, None))
      else ErrorAtCurrent(s, ExpectedStatement)
    else s
  }

  /** `statement`: a title, an assignment or an arrow, then the end of the line. */
  function ParseStatement(src: string, s: PState): (r: PState)
    requires Wf(src, s)
    ensures Continues(src, s, r) && r.sc.curr.kind != Newline
  {
    var s1 := StatementBody(src, s);
    s1.(sc := SkipNewlines(src, s1.sc))
  }

  /**
   * The loop of `synchronize`: skip tokens until the current one is NEWLINE or the
   * look-ahead is EOF; a scanner already there is left alone.
   */
  function SkipToLineEnd(src: string, k: Scanner): (r: Scanner)
    requires Ready(src, k)
    ensures Steps(src, k, r)
    ensures r.panicMode ==> k.panicMode || |k.errors| < |r.errors|
    ensures r.next.kind == Eof || r.curr.kind == Newline
    ensures (k.next.kind == Eof || k.curr.kind == Newline) ==> r == k
    decreases Remaining(src, k)
  {
    if k.next.kind == Eof || k.curr.kind == Newline then k
    else SkipToLineEnd(src, Advance(src, k))
  }

  /**
   * `synchronize`: panic mode is switched off and the parser skips to the end of the line.
   * Only an error token met on the way can switch panic mode back on.
   */
  function Synchronize(src: string, k: Scanner): (r: Scanner)
    requires Ready(src, k)
    ensures Moves(src, k, r)
    ensures r.panicMode ==> |k.errors| < |r.errors|
    ensures r.next.kind == Eof || r.curr.kind == Newline
  {
    SkipToLineEnd(src, k.(panicMode := false))
  }

  /** One round of the loop of `parse`: a statement, then recovery if it went into panic. */
  function Round(src: string, s: PState): (r: PState)
    requires Wf(src, s)
    ensures Follows(src, s, r)
  {
    var s1 := ParseStatement(src, s);
    if s1.sc.panicMode then s1.(sc := Synchronize(src, s1.sc)) else s1
  }

  /**
   * One round fewer.  The loop of `parse` and its model count the remaining rounds down
   * through this one function, so that both name the new count by the same term.
   */
  function Fewer(rounds: nat): nat
    requires rounds > 0
  {
    rounds - 1
  }

  /** How a bounded run of `parse` ended: at EOF, or with rounds left to run. */
  datatype Outcome = Finished | OutOfRounds

  /** The loop of `parse`, run for at most `rounds` rounds. */
  function ParseLoop(src: string, s: PState, rounds: nat): (r: (PState, Outcome))
    requires Wf(src, s)
    ensures Follows(src, s, r.0)
    ensures r.1 == Finished <==> r.0.sc.curr.kind == Eof
    decreases rounds
  {
    if s.sc.curr.kind == Eof then (s, Finished)
    else if rounds == 0 then (s, OutOfRounds)
    else ParseLoop(src, Round(src, s), Fewer(rounds))
  }

  /** One unfolding of the loop: a round is run while the current token is not EOF. */
  lemma LoopStep(src: string, s: PState, rounds: nat)
    requires Wf(src, s) && s.sc.curr.kind != Eof && rounds > 0
    ensures ParseLoop(src, s, rounds) == ParseLoop(src, Round(src, s), Fewer(rounds))
  {
  }

  /** The scanner `init_parser` starts from: zero-initialised tokens, line 1. */
  const Start: Scanner := Scanner(LexState(0, 0, 1), ZeroToken, ZeroToken, false, [])

  /**
   * `init_parser`: an empty graph, an empty table of 16 slots, no panic, no diagnostic,
   * and two calls of `next_token` from the zero-initialised tokens.
   */
  function Init(src: string): (r: PState)
    ensures Wf(src, r)
  {
    PState(Advance(src, Advance(src, Start)), Symbols(map[], Tables.InitialCapacity), EmptyGraph(), false)
  }

  /** `parse` from state `s`: leading newlines are skipped, then the statement loop runs. */
  function ParseFrom(src: string, s: PState, rounds: nat): (r: (PState, Outcome))
    requires Wf(src, s)
    ensures Follows(src, s, r.0)
    ensures r.1 == Finished <==> r.0.sc.curr.kind == Eof
  {
    ParseLoop(src, s.(sc := SkipNewlines(src, s.sc)), rounds)
  }

  /** `init_parser` followed by `parse`. */
  function Parse(src: string, rounds: nat): (r: (PState, Outcome))
    ensures Wf(src, r.0)
  {
    ParseFrom(src, Init(src), rounds)
  }
}
