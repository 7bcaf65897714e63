/**
 * The parser of src/parser.c as a class: the globals `parser` and `interpret_result` become
 * the fields of one `Parser`, which owns its `Lexer`, its variable `Table` and the `Graph`
 * it builds.  Every method does what its C function does, step by step, and is proved to
 * compute the function of the same step in module ParserSpec: the methods that only move
 * through the tokens on the value `Toks()`, the others on the whole state `State()`.
 */
module Parsing {
  import opened Wrappers
  import opened Lexing
  import opened GraphSpec
  import opened ParserSpec
  import Nodes
  import Graphs
  import Tables

  class Parser {
    /** `parser.lexer`. */
    const lexer: Lexer
    /** `parser.variables`: the values of the declared names. */
    const variables: Tables.Table
    /** `interpret_result.graph`. */
    const graph: Graphs.Graph
    var curr: Token
    var next: Token
    /** `parser.had_error`. */
    var hadError: bool
    var panicMode: bool
    /** `interpret_result.had_error`. */
    var resultHadError: bool
    /** The diagnostics `error_at` has written to standard error, in order. */
    var errors: seq<Diagnostic>
    /** Set when the C code would have reached undefined behaviour. */
    ghost var undefinedBehaviour: bool

    /** The text being parsed. */
    function Src(): string
      reads this
    {
      lexer.source
    }

    /** The token side of the parser as a value. */
    ghost function Toks(): Scanner
      reads this, lexer
    {
      Scanner(lexer.State(), curr, next, panicMode, errors)
    }

    /** Both error flags say whether a diagnostic was written. */
    ghost predicate Flags()
      reads this
    {
      hadError == (|errors| > 0) && resultHadError == hadError
    }

    /** The lexer is sound and the look-ahead is never an error token (see `Ready`). */
    ghost predicate Scanning()
      reads this, lexer
    {
      lexer.Valid() && Flags() && Ready(Src(), Toks())
    }

    /**
     * The lexer, table and graph are each sound and the graph shares no object with the
     * parser, the lexer or the table.
     */
    ghost predicate Valid()
      reads this, lexer, variables, variables.entries, graph, graph.Repr
    {
      && Scanning() && variables.Valid() && graph.Valid()
      && this !in graph.Repr && lexer !in graph.Repr
      && variables !in graph.Repr && variables.entries !in graph.Repr
    }

    /** The whole parser as a value. */
    ghost function State(): PState
      requires graph.Valid()
      reads this, lexer, variables, variables.entries, graph, graph.Repr
    {
      PState(Toks(), Symbols(variables.Contents(), variables.capacity), graph.View(), undefinedBehaviour)
    }

    /** Objects a call may have added: fresh graph objects and a fresh slot array. */
    twostate predicate Grown()
      reads this, variables, graph
    {
      (forall o | o in graph.Repr :: o in old(graph.Repr) || fresh(o)) && (variables.entries == old(variables.entries) || fresh(variables.entries))
    }

    /**
     * `init_interpret_result` and `init_parser`: an empty graph, a lexer at the start
     * of `source`, an empty table, both flags false, and two calls of `next_token` that
     * shift the first two tokens in.
     */
    constructor (source: string)
      requires CString(source)
      ensures Valid() && Src() == source
      ensures State() == Init(source)
      ensures fresh(lexer) && fresh(variables) && fresh(variables.entries) && fresh(graph.Repr)
    {
      graph := new Graphs.Graph();
      resultHadError := false;
      lexer := new Lexer(source);
      variables := new Tables.Table();
      hadError := false;
      panicMode := false;
      curr := ZeroToken;
      next := ZeroToken;
      errors := [];
      undefinedBehaviour := false;
      new;
      assert State() == PState(Start, Symbols(map[], Tables.InitialCapacity), EmptyGraph(), false);
      Shift();
      Shift();
    }

    // -------------------------------------------------------------------------
    // Errors and tokens
    // -------------------------------------------------------------------------

    /** `error_at`: silent in panic mode; otherwise panic mode, a diagnostic and both flags. */
    method ErrorAt(t: Token, message: string)
      requires Flags()
      modifies this
      ensures Flags() && Toks() == ParserSpec.ErrorAt(old(Toks()), t, message)
      ensures undefinedBehaviour == old(undefinedBehaviour)
    {
      if panicMode {
        return;
      }
      panicMode := true;
      errors := errors + [Diagnostic(t.line, WhereOf(t), message)];
      hadError := true;
      resultHadError := true;
    }

    /**
     * `next_token`: the look-ahead becomes the current token; then tokens are scanned, and
     * error tokens reported with their message, until one is not an error.
     */
    method NextToken()
      requires Scanning()
      modifies this, lexer
      ensures Scanning() && Toks() == Advance(Src(), old(Toks()))
      ensures undefinedBehaviour == old(undefinedBehaviour)
    {
      ghost var target := Advance(Src(), Toks());
      curr := next;
      while true
        invariant lexer.Valid() && Flags() && Refill(Src(), Toks()) == target
        invariant undefinedBehaviour == old(undefinedBehaviour)
        decreases |Src()| - lexer.current
      {
        next := lexer.ScanToken();
        if next.kind != Error {
          break;
        }
        ErrorAt(next, next.lexeme);
      }
    }

    /** `match`: the current token is consumed if it has the given kind. */
    method Match(kind: TokenKind)
      requires Scanning()
      modifies this, lexer
      ensures Scanning()
      ensures Toks() == if old(curr.kind) == kind then Advance(Src(), old(Toks())) else old(Toks())
      ensures undefinedBehaviour == old(undefinedBehaviour)
    {
      if curr.kind != kind {
        return;
      }
      NextToken();
    }

    /** `new_line`: all NEWLINE tokens at the current position are consumed. */
    method NewLine()
      requires Scanning()
      modifies this, lexer
      ensures Scanning() && Toks() == SkipNewlines(Src(), old(Toks()))
      ensures undefinedBehaviour == old(undefinedBehaviour)
    {
      Match(Newline);
      while curr.kind == Newline
        invariant Scanning() && SkipNewlines(Src(), Toks()) == SkipNewlines(Src(), old(Toks()))
        invariant undefinedBehaviour == old(undefinedBehaviour)
        decreases Remaining(Src(), Toks())
      {
        NextToken();
      }
    }

    /** The first loop of `parse`: the newlines before the first statement are skipped. */
    method SkipLeadingNewlines()
      requires Scanning()
      modifies this, lexer
      ensures Scanning() && Toks() == SkipNewlines(Src(), old(Toks()))
      ensures undefinedBehaviour == old(undefinedBehaviour)
    {
      while curr.kind == Newline
        invariant Scanning() && SkipNewlines(Src(), Toks()) == SkipNewlines(Src(), old(Toks()))
        invariant undefinedBehaviour == old(undefinedBehaviour)
        decreases Remaining(Src(), Toks())
      {
        NextToken();
      }
    }

    /** `synchronize`: out of panic mode, then on to the end of the line. */
    method Synchronize()
      requires Scanning()
      modifies this, lexer
      ensures Scanning() && Toks() == ParserSpec.Synchronize(Src(), old(Toks()))
      ensures undefinedBehaviour == old(undefinedBehaviour)
    {
      panicMode := false;
      while next.kind != Eof
        invariant Scanning() && SkipToLineEnd(Src(), Toks()) == ParserSpec.Synchronize(Src(), old(Toks()))
        invariant undefinedBehaviour == old(undefinedBehaviour)
        decreases Remaining(Src(), Toks())
      {
        if curr.kind == Newline {
          return;
        }
        NextToken();
      }
    }

    /** `error`: an error at the current token. */
    method ErrorAtCurrent(message: string)
      requires Valid()
      modifies this
      ensures Valid() && State() == ParserSpec.ErrorAtCurrent(old(State()), message)
    {
      ErrorAt(curr, message);
    }

    /** `next_token` seen from the whole state: only the token side moves. */
    method Shift()
      requires Valid()
      modifies this, lexer
      ensures Valid() && State() == ParserSpec.NextToken(Src(), old(State()))
    {
      NextToken();
    }

    // -------------------------------------------------------------------------
    // Variables, nodes and edges
    // -------------------------------------------------------------------------

    /** `is_declared`: whether the table binds `key`. */
    method IsDeclared(key: string) returns (declared: bool)
      requires Valid()
      ensures declared <==> key in State().table.vars
    {
      var value := variables.Get(key);
      declared := value.Some?;
    }

    /** `table_set(parser.variables, name, value)`, as `declare_variable` calls it. */
    method Bind(name: string, value: string)
      requires Valid()
      modifies variables, variables.entries
      ensures Valid() && Grown()
      ensures State() == old(State()).(table := TableSet(old(State()).table, name, value))
    {
      variables.CountIsKeys();
      var _ := variables.Set(name, Some(value));
    }

    /** `node->text = value` on the node named `name`, if there is one. */
    method Relabel(name: string, value: string)
      requires Valid()
      modifies graph.Repr
      ensures Valid() && Grown() && State() == ParserSpec.Relabel(old(State()), name, value)
    {
      var node := graph.GetNode(name);
      if node != null {
        graph.SetNodeText(node, value);
      }
    }

    /** `declare_variable`: bind `name` to `value`, and relabel the node so named if there is one. */
    method DeclareVariable(name: string, value: string)
      requires Valid()
      modifies variables, variables.entries, graph.Repr
      ensures Valid() && Grown() && State() == Declare(old(State()), name, value)
    {
      Bind(name, value);
      Relabel(name, value);
    }

    /** A node for `name` with the text the table binds it to, unless there is one already. */
    method EnsureNode(name: string)
      requires Valid()
      modifies this, graph.Repr
      ensures Valid() && Grown() && State() == ParserSpec.EnsureNode(old(State()), name)
    {
      var node := graph.GetNode(name);
      if node == null {
        AddDeclared(name);
      }
    }

    /**
     * `add_node(g, name, table_get(variables, name))`; an unbound name hands NULL to
     * `add_node`, which the model records as undefined behaviour instead.
     */
    method AddDeclared(name: string)
      requires Valid()
      modifies this, graph.Repr
      ensures Valid() && Grown() && State() == ParserSpec.AddDeclared(old(State()), name)
    {
      var value := variables.Get(name);
      if value.Some? {
        var _ := graph.AddNode(name, value.value);
      } else {
        undefinedBehaviour := true;
      }
    }

    /** A node for `name` with text `text`, unless there is one already. */
    method Place(name: string, text: string)
      requires Valid()
      modifies graph.Repr
      ensures Valid() && Grown() && State() == ParserSpec.Place(old(State()), name, text)
    {
      var node := graph.GetNode(name);
      if node == null {
        var _ := graph.AddNode(name, text);
      }
    }

    /** `add_edge_to_graph`: `add_edge`, and an error if it fails. */
    method AddEdgeToGraph(from: string, to: string)
      requires Valid()
      modifies this, graph.Repr
      ensures Valid() && Grown() && State() == Connect(old(State()), from, to)
    {
      var ok := graph.AddEdge(from, to);
      if !ok {
        ErrorAtCurrent(InvalidNodes);
      }
    }

    /** The edge `from -> to`, and `to -> from` too when `both`. */
    method Join(from: string, to: string, both: bool)
      requires Valid()
      modifies this, graph.Repr
      ensures Valid() && Grown() && State() == ParserSpec.Join(old(State()), from, to, both)
    {
      AddEdgeToGraph(from, to);
      if both {
        AddEdgeToGraph(to, from);
      }
    }

    /** A node for the declared `target` if there is none, then the edge (or edges) from `name`. */
    method LinkTo(name: string, target: string, both: bool)
      requires Valid()
      modifies this, graph.Repr
      ensures Valid() && Grown() && State() == ParserSpec.LinkTo(old(State()), name, target, both)
    {
      EnsureNode(target);
      Join(name, target, both);
    }

    /** The node and edge block `arrow` runs before a chained arrow. */
    method ChainLink(name: string, target: string, both: bool)
      requires Valid()
      modifies this, graph.Repr
      ensures Valid() && Grown() && State() == ParserSpec.ChainLink(old(State()), name, target, both)
    {
      EnsureNode(name);
      var declared := IsDeclared(target);
      if declared {
        LinkTo(name, target, both);
      }
    }

    /** The node and edge block that ends both arrow branches of `arrow`. */
    method FinalLink(name: string, target: string, both: bool)
      requires Valid()
      modifies this, graph.Repr
      ensures Valid() && Grown() && State() == ParserSpec.FinalLink(old(State()), name, target, both)
    {
      EnsureNode(name);
      var declared := IsDeclared(target);
      if declared {
        LinkTo(name, target, both);
      } else {
        ErrorAtCurrent(UndefinedVariable);
      }
    }

    /** The edge block of `assignment` for `from -> to = "text"`. */
    method InlineLink(from: string, to: string, text: string, both: bool)
      requires Valid()
      modifies this, graph.Repr
      ensures Valid() && Grown() && State() == ParserSpec.InlineLink(old(State()), from, to, text, both)
    {
      Place(from, text);
      Place(to, text);
      Join(from, to, both);
    }

    // -------------------------------------------------------------------------
    // Statements
    // -------------------------------------------------------------------------

    /**
     * `arrow(prev_name)`: the name under the current token must be declared; then, for a
     * statement that starts here, the parser moves to the arrow.
     */
    method Arrow(prev: Option<string>)
      requires Valid()
      modifies this, lexer, variables, variables.entries, graph.Repr
      ensures Valid() && Grown() && State() == ParseArrow(Src(), old(State()), prev)
      decreases Progress(Src(), State()), 2
    {
      var name := curr.lexeme;
      var declared := IsDeclared(name);
      if !declared {
        ErrorAtCurrent(UndefinedVariable);
      }
      if prev.Some? {
        name := prev.value;
      }
      if prev.None? {
        Shift();
      }
      ArrowOperator(name);
    }

    /** The two arrow branches of `arrow`: past `->` or `<->` the target must be an identifier. */
    method ArrowOperator(name: string)
      requires Valid()
      modifies this, lexer, variables, variables.entries, graph.Repr
      ensures Valid() && Grown() && State() == ParserSpec.ArrowOperator(Src(), old(State()), name)
      decreases Progress(Src(), State()), 1
    {
      if curr.kind == TokenKind.Arrow || curr.kind == DoubleArrow {
        var both := curr.kind == DoubleArrow;
        Shift();
        if curr.kind == Identifier {
          ArrowTarget(name, both);
        } else {
          ErrorAtCurrent(ExpectedIdentifier);
        }
      }
    }

    /**
     * An arrow branch from its target on: an inline assignment to the target or a chained
     * arrow from it, then the node and edge block.
     */
    method ArrowTarget(name: string, both: bool)
      requires Valid()
      modifies this, lexer, variables, variables.entries, graph.Repr
      ensures Valid() && Grown() && State() == ParserSpec.ArrowTarget(Src(), old(State()), name, both)
      decreases Progress(Src(), State()), 4
    {
      var target := curr.lexeme;
      TargetContinuation(name, both);
      FinalLink(name, target, both);
    }

    /** An inline assignment to the target, or the nodes and edge before a chained arrow. */
    method TargetContinuation(name: string, both: bool)
      requires Valid()
      modifies this, lexer, variables, variables.entries, graph.Repr
      ensures Valid() && Grown() && State() == ParserSpec.TargetContinuation(Src(), old(State()), name, both)
      decreases Progress(Src(), State()), 3
    {
      var target := curr.lexeme;
      if next.kind == Equal {
        Assignment(Some(name), !both, both);
      } else if next.kind == TokenKind.Arrow || next.kind == DoubleArrow {
        ChainLink(name, target, next.kind == DoubleArrow);
        Arrow(None);
      }
    }

    /**
     * `assignment(prev_name, add_edge, add_two_edges)`: the assigned name is the current
     * token, or `prev` for an inline assignment; then comes `=`.
     */
    method Assignment(prev: Option<string>, addEdge: bool, addTwoEdges: bool)
      requires Valid() && ((addEdge || addTwoEdges) ==> prev.Some?)
      modifies this, lexer, variables, variables.entries, graph.Repr
      ensures Valid() && Grown() && State() == ParseAssignment(Src(), old(State()), prev, addEdge, addTwoEdges)
      decreases Progress(Src(), State()), 2
    {
      var name := curr.lexeme;
      if prev.Some? && !addEdge && !addTwoEdges {
        name := prev.value;
      }
      if prev.None? || addEdge || addTwoEdges {
        Shift();
      }
      AssignOperator(name, prev, addEdge, addTwoEdges);
    }

    /** Nothing more unless the current token is `=`; past it comes the value. */
    method AssignOperator(name: string, prev: Option<string>, addEdge: bool, addTwoEdges: bool)
      requires Valid() && ((addEdge || addTwoEdges) ==> prev.Some?)
      modifies this, lexer, variables, variables.entries, graph.Repr
      ensures Valid() && Grown() && State() == ParserSpec.AssignOperator(Src(), old(State()), name, prev, addEdge, addTwoEdges)
      decreases Progress(Src(), State()), 1
    {
      if curr.kind == Equal {
        Shift();
        AssignValue(name, prev, addEdge, addTwoEdges);
      }
    }

    /** The value of an assignment: a string, another name, or an error. */
    method AssignValue(name: string, prev: Option<string>, addEdge: bool, addTwoEdges: bool)
      requires Valid() && ((addEdge || addTwoEdges) ==> prev.Some?)
      modifies this, lexer, variables, variables.entries, graph.Repr
      ensures Valid() && Grown() && State() == ParserSpec.AssignValue(Src(), old(State()), name, prev, addEdge, addTwoEdges)
      decreases Progress(Src(), State()), 5
    {
      if curr.kind == String {
        BindString(name, prev, addEdge, addTwoEdges);
        AfterString(name);
      } else if curr.kind == Identifier {
        AssignName(name, addEdge || addTwoEdges);
      } else {
        ErrorAtCurrent(ExpectedStringOrIdentifier);
      }
    }

    /** `name = "text"`: the declaration and, for the target of an arrow, the edge block. */
    method BindString(name: string, prev: Option<string>, addEdge: bool, addTwoEdges: bool)
      requires Valid() && ((addEdge || addTwoEdges) ==> prev.Some?)
      modifies this, variables, variables.entries, graph.Repr
      ensures Valid() && Grown() && State() == ParserSpec.BindString(old(State()), name, prev, addEdge, addTwoEdges)
    {
      var value := curr.lexeme;
      DeclareVariable(name, value);
      if addEdge {
        InlineLink(prev.value, name, value, false);
      } else if addTwoEdges {
        InlineLink(prev.value, name, value, true);
      }
    }

    /** What follows `name = "text"`: `=` is an error, an arrow continues the statement. */
    method AfterString(name: string)
      requires Valid()
      modifies this, lexer, variables, variables.entries, graph.Repr
      ensures Valid() && Grown() && State() == ParserSpec.AfterString(Src(), old(State()), name)
      decreases Progress(Src(), State()), 3
    {
      if next.kind == Equal {
        ErrorAtCurrent(CannotAssignToLiteral);
        Shift();
        Shift();
      } else if next.kind == TokenKind.Arrow || next.kind == DoubleArrow {
        Shift();
        Arrow(Some(name));
      } else {
        Shift();
      }
    }

    /** `name = other`: what starts at `other` is parsed first, then its value is copied. */
    method AssignName(name: string, withEdge: bool)
      requires Valid()
      modifies this, lexer, variables, variables.entries, graph.Repr
      ensures Valid() && Grown() && State() == ParserSpec.AssignName(Src(), old(State()), name, withEdge)
      decreases Progress(Src(), State()), 4
    {
      var other := curr.lexeme;
      if withEdge {
        ErrorAtCurrent(CannotAssignWhileAddingEdge);
      }
      ValueContinuation();
      CopyValue(name, other);
    }

    /** A chained assignment or an arrow that starts at the name used as a value. */
    method ValueContinuation()
      requires Valid()
      modifies this, lexer, variables, variables.entries, graph.Repr
      ensures Valid() && Grown() && State() == ParserSpec.ValueContinuation(Src(), old(State()))
      decreases Progress(Src(), State()), 3
    {
      if next.kind == Equal {
        Assignment(None, false, false);
      } else if next.kind == TokenKind.Arrow || next.kind == DoubleArrow {
        Arrow(None);
      }
    }

    /** `name` takes the value `other` is bound to, or an error; then the next token. */
    method CopyValue(name: string, other: string)
      requires Valid()
      modifies this, lexer, variables, variables.entries, graph.Repr
      ensures Valid() && Grown() && State() == ParserSpec.CopyValue(Src(), old(State()), name, other)
    {
      var value := variables.Get(other);
      if value.Some? {
        DeclareVariable(name, value.value);
      } else {
        ErrorAtCurrent(UndefinedVariable);
      }
      Shift();
    }

    /** The title block of `statement`: `{`, a string that becomes the title, and an optional `}`. */
    method Title()
      requires Valid()
      modifies this, lexer, graph.Repr
      ensures Valid() && Grown() && State() == ParseTitle(Src(), old(State()))
    {
      Shift();
      if curr.kind == String {
        graph.UpdateTitle(curr.lexeme);
        Shift();
        if curr.kind == RightBrace {
          Shift();
        }
      } else {
        ErrorAtCurrent(ExpectedString);
      }
    }

    /** `statement` without its final `new_line`. */
    method StatementBody()
      requires Valid()
      modifies this, lexer, variables, variables.entries, graph.Repr
      ensures Valid() && Grown() && State() == ParserSpec.StatementBody(Src(), old(State()))
    {
      if curr.kind == LeftBrace {
        Title();
      } else if curr.kind == Identifier {
        if next.kind == Equal {
          Assignment(None, false, false);
          Shift();
        } else if next.kind == TokenKind.Arrow || next.kind == DoubleArrow {
          Arrow(None);
          Shift();
        } else {
          ErrorAtCurrent(ExpectedStatement);
        }
      }
    }

    /** `statement`: a title, an assignment or an arrow, then `new_line`. */
    method Statement()
      requires Valid()
      modifies this, lexer, variables, variables.entries, graph.Repr
      ensures Valid() && Grown() && State() == ParseStatement(Src(), old(State()))
    {
      StatementBody();
      NewLine();
    }

    /** One pass of the loop of `parse`: a statement, then `synchronize` if it panicked. */
    method Round()
      requires Valid()
      modifies this, lexer, variables, variables.entries, graph.Repr
      ensures Valid() && Grown() && State() == ParserSpec.Round(Src(), old(State()))
    {
      Statement();
      if panicMode {
        Synchronize();
      }
    }

    /**
     * The second loop of `parse`: statements, each followed by `synchronize` if it left the
     * parser in panic mode, until the current token is EOF, for at most `rounds` rounds.
     */
    method Loop(rounds: nat) returns (outcome: Outcome)
      requires Valid()
      modifies this, lexer, variables, variables.entries, graph.Repr
      ensures Valid() && Grown() && (State(), outcome) == ParseLoop(Src(), old(State()), rounds)
    {
      ghost var src := Src();
      ghost var goal := ParseLoop(src, State(), rounds);
      ghost var cur := State();
      var left := rounds;
      while curr.kind != Eof && left > 0
        invariant Valid() && Grown() && State() == cur && Src() == src
        invariant ParseLoop(src, cur, left) == goal
        decreases left
      {
        LoopStep(src, cur, left);
        Round();
        cur := ParserSpec.Round(src, cur);
        left := Fewer(left);
      }
      outcome := if curr.kind == Eof then Finished else OutOfRounds;
    }

    /** `parse`: the leading newlines are skipped, then the statements are parsed. */
    method Parse(rounds: nat) returns (outcome: Outcome)
      requires Valid()
      modifies this, lexer, variables, variables.entries, graph.Repr
      ensures Valid() && Grown() && (State(), outcome) == ParseFrom(Src(), old(State()), rounds)
    {
      ghost var s0 := State();
      SkipLeadingNewlines();
      assert State() == s0.(sc := SkipNewlines(Src(), s0.sc));
      outcome := Loop(rounds);
    }

    /** `interpret`: `parse`, then the result's error flag and graph. */
    method Interpret(rounds: nat) returns (hadErrors: bool, outcome: Outcome)
      requires Valid()
      modifies this, lexer, variables, variables.entries, graph.Repr
      ensures Valid() && Grown() && (State(), outcome) == ParseFrom(Src(), old(State()), rounds)
      ensures hadErrors == HadError(State())
    {
      outcome := Parse(rounds);
      hadErrors := resultHadError;
    }
  }

  /**
   * `init_parser(source)` followed by `interpret()`: the parser ends in the state, and with
   * the outcome, that `Parse` gives for the source.
   */
  method Run(source: string, rounds: nat) returns (parser: Parser, hadErrors: bool, outcome: Outcome)
    requires CString(source)
    ensures parser.Valid() && (parser.State(), outcome) == ParserSpec.Parse(source, rounds)
    ensures hadErrors == HadError(parser.State())
  {
    parser := new Parser(source);
    hadErrors, outcome := parser.Interpret(rounds);
  }
}
