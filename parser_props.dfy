/**
 * Properties of the parser model (module ParserSpec): what a statement does to the
 * variable table and the graph, which diagnostics it writes, and the inputs on which the
 * loop of `parse` never reaches the end of the source.
 */
module ParserProps {
  import opened Wrappers
  import opened Lexing
  import opened GraphSpec
  import opened ParserSpec

  /** The graph has nodes named `from` and `to` and the edge between the first such nodes. */
  predicate HasEdge(g: GraphView, from: string, to: string) {
    && Find(g.nodes, from).Some?
    && Find(g.nodes, to).Some?
    && (Find(g.nodes, from).value, Find(g.nodes, to).value) in g.edges
  }

  /** The one diagnostic `error(message)` writes for the current token of `s`. */
  function ErrorHere(s: PState, message: string): Diagnostic {
    Diagnostic(s.sc.curr.line, WhereOf(s.sc.curr), message)
  }

  // ---------------------------------------------------------------------------
  // next_token
  // ---------------------------------------------------------------------------

  /**
   * An error token from the lexer is reported with the lexer's message, at its line and
   * with no place, and is never handed to the parser as the look-ahead.
   */
  lemma LexerErrorIsReported(src: string, k: Scanner)
    requires Ready(src, k) && !k.panicMode
    requires Scan(src, k.lex).0.kind == Error
    ensures var r := Advance(src, k); var t := Scan(src, k.lex).0;
      && |r.errors| > |k.errors|
      && r.errors[|k.errors|] == Diagnostic(t.line, Nowhere, t.lexeme)
      && r.panicMode && r.next.kind != Error
  {
    var t := Scan(src, k.lex).0;
    var k1 := k.(curr := k.next);
    var k2 := ErrorAt(k1.(lex := Scan(src, k.lex).1, next := t), t, t.lexeme);
    assert Refill(src, k1) == Refill(src, k2);
    var r := Refill(src, k2);
    assert r.errors[..|k2.errors|] == k2.errors;
    assert r.errors[|k.errors|] == k2.errors[|k.errors|];
  }

  // ---------------------------------------------------------------------------
  // Titles and assignments
  // ---------------------------------------------------------------------------

  /**
   * `{ "text" }` sets the title to the string's contents; a block whose first token is not
   * a string leaves the graph alone and, unless scanning that token already reported an
   * error, reports "Expected string." at it.  The variable table is never touched.
   */
  lemma TitleIsTheString(src: string, s: PState)
    requires Wf(src, s)
    ensures var r := ParseTitle(src, s);
      && r.graph == (if s.sc.next.kind == String then SetTitle(s.graph, s.sc.next.lexeme) else s.graph)
      && r.table == s.table
    ensures var r := ParseTitle(src, s); var k := Advance(src, s.sc);
      s.sc.next.kind != String && !k.panicMode ==>
        r.sc.errors == k.errors + [Diagnostic(s.sc.next.line, WhereOf(s.sc.next), ExpectedString)]
  {
  }

  /**
   * `init_parser`: an empty graph, an empty table of 16 slots, and no undefined behaviour;
   * the two tokens are the first two the lexer yields that are not errors.
   */
  lemma InitIsEmpty(src: string)
    ensures var s := Init(src);
      && s.graph == EmptyGraph() && s.table == Symbols(map[], 16) && !s.ub
      && s.sc.curr.kind != Error && s.sc.next.kind != Error
  {
  }

  /** `name = "text"` binds `name` to the text and relabels the node called `name`, if any. */
  lemma StringIsBound(s: PState, name: string)
    ensures var r := BindString(s, name, None, false, false); var value := s.sc.curr.lexeme;
      && (HasRoom(s.table) ==> r.table.vars == s.table.vars[name := value])
      && (!HasRoom(s.table) ==> r.table == s.table)
      && SameNames(s.graph.nodes, r.graph.nodes) && r.graph.edges == s.graph.edges
      && (Find(s.graph.nodes, name).Some? ==> r.graph.nodes[Find(s.graph.nodes, name).value].text == value)
      && r.sc == s.sc
  {
  }

  /** Relabelling a node changes no name, so lookups are unchanged. */
  lemma RelabelKeepsNames(s: PState, name: string, value: string)
    ensures SameNames(s.graph.nodes, Relabel(s, name, value).graph.nodes)
    ensures Relabel(s, name, value).graph.edges == s.graph.edges
  {
  }

  /** After `Place` a node called `name` exists, and every node found before is found again. */
  lemma PlaceFinds(s: PState, name: string, text: string, other: string)
    ensures Find(Place(s, name, text).graph.nodes, name).Some?
    ensures Find(s.graph.nodes, other).Some? ==>
      Find(Place(s, name, text).graph.nodes, other) == Find(s.graph.nodes, other)
    ensures Place(s, name, text).graph.edges == s.graph.edges
  {
    if Find(s.graph.nodes, name).None? {
      AddNodeThenFind(s.graph, name, text, name);
      AddNodeThenFind(s.graph, name, text, other);
    }
  }

  /** Between two nodes that exist, `add_edge_to_graph` adds the edge and reports nothing. */
  lemma ConnectAdds(s: PState, from: string, to: string)
    requires Find(s.graph.nodes, from).Some? && Find(s.graph.nodes, to).Some?
    ensures var r := Connect(s, from, to);
      && HasEdge(r.graph, from, to) && r.sc == s.sc && s.graph.edges <= r.graph.edges
      && SameNames(s.graph.nodes, r.graph.nodes)
      && forall i | 0 <= i < |s.graph.nodes| :: r.graph.nodes[i].text == s.graph.nodes[i].text
  {
    var g := AddEdge(s.graph, from, to).1;
    FindDependsOnNamesOnly(s.graph.nodes, g.nodes, from);
    FindDependsOnNamesOnly(s.graph.nodes, g.nodes, to);
  }

  /** When an end has no node, `add_edge` fails: the graph is kept and the failure reported. */
  lemma FailedEdgeIsReported(s: PState, from: string, to: string)
    requires Find(s.graph.nodes, from).None? || Find(s.graph.nodes, to).None?
    requires !s.sc.panicMode
    ensures var r := Connect(s, from, to);
      r.graph == s.graph && r.sc.errors == s.sc.errors + [ErrorHere(s, InvalidNodes)]
  {
  }

  /** Both edges of `<->`, or the one edge of `->`, between two nodes that exist. */
  lemma JoinAdds(s: PState, from: string, to: string, both: bool)
    requires Find(s.graph.nodes, from).Some? && Find(s.graph.nodes, to).Some?
    ensures var r := Join(s, from, to, both);
      && HasEdge(r.graph, from, to) && (both ==> HasEdge(r.graph, to, from)) && r.sc == s.sc
      && SameNames(s.graph.nodes, r.graph.nodes)
      && forall i | 0 <= i < |s.graph.nodes| :: r.graph.nodes[i].text == s.graph.nodes[i].text
  {
    ConnectAdds(s, from, to);
    var s1 := Connect(s, from, to);
    if both {
      FindDependsOnNamesOnly(s.graph.nodes, s1.graph.nodes, from);
      FindDependsOnNamesOnly(s.graph.nodes, s1.graph.nodes, to);
      ConnectAdds(s1, to, from);
      var s2 := Connect(s1, to, from);
      FindDependsOnNamesOnly(s1.graph.nodes, s2.graph.nodes, from);
      FindDependsOnNamesOnly(s1.graph.nodes, s2.graph.nodes, to);
    }
  }

  /**
   * `from -> name = "text"` (and `<->`): `name` is bound to the text first, both ends get a
   * node, the one of them that had none gets the text, and the edge, or both edges, is
   * added; nothing is reported.
   */
  lemma InlineAssignmentLinks(s: PState, from: string, name: string, both: bool)
    ensures var r := BindString(s, name, Some(from), !both, both);
      && HasEdge(r.graph, from, name) && (both ==> HasEdge(r.graph, name, from))
      && (HasRoom(s.table) ==> r.table.vars == s.table.vars[name := s.sc.curr.lexeme])
      && r.sc == s.sc
    ensures var r := BindString(s, name, Some(from), !both, both);
      Find(s.graph.nodes, from).None? ==> r.graph.nodes[Find(r.graph.nodes, from).value].text == s.sc.curr.lexeme
  {
    var value := s.sc.curr.lexeme;
    var s1 := Declare(s, name, value);
    assert SameNames(s.graph.nodes, s1.graph.nodes);
    FindDependsOnNamesOnly(s.graph.nodes, s1.graph.nodes, from);
    var s2 := Place(s1, from, value);
    PlaceFinds(s1, from, value, from);
    var s3 := Place(s2, name, value);
    PlaceFinds(s2, name, value, from);
    PlaceFinds(s2, name, value, name);
    JoinAdds(s3, from, name, both);
    var r := Join(s3, from, name, both);
    FindDependsOnNamesOnly(s3.graph.nodes, r.graph.nodes, from);
    if Find(s.graph.nodes, from).None? {
      var i := |s1.graph.nodes|;
      AddNodeThenFind(s1.graph, from, value, from);
      assert s2.graph.nodes[i].text == value;
      assert s3.graph.nodes[i].text == value;
    }
  }

  /**
   * `name = other`: `name` takes the value `other` is bound to; when `other` is not bound
   * the table is left alone and "Undefined variable." is reported at the current token.
   */
  lemma NameIsCopied(src: string, s: PState, name: string, other: string)
    requires Wf(src, s)
    ensures var r := CopyValue(src, s, name, other);
      && (other in s.table.vars && HasRoom(s.table) ==> r.table.vars == s.table.vars[name := s.table.vars[other]])
      && (other !in s.table.vars ==> r.table == s.table && r.graph == s.graph)
      && (other !in s.table.vars && !s.sc.panicMode ==>
            r.sc.errors == s.sc.errors + [ErrorHere(s, UndefinedVariable)])
  {
  }

  /**
   * `name = other ...`: whatever assignment or arrow starts at `other` is parsed first, and
   * only then does `name` take the value `other` is bound to in the resulting table; so in
   * `a = b = "x"` the rightmost name is bound first and `a` copies its new value.
   */
  lemma ChainedAssignmentCopies(src: string, s: PState, name: string)
    requires Wf(src, s)
    ensures var m := ValueContinuation(src, s); var other := s.sc.curr.lexeme;
      var r := AssignName(src, s, name, false);
      && (other in m.table.vars && HasRoom(m.table) ==> r.table.vars == m.table.vars[name := m.table.vars[other]])
      && (other !in m.table.vars ==> r.table == m.table && r.graph == m.graph)
  {
    NameIsCopied(src, ValueContinuation(src, s), name, s.sc.curr.lexeme);
  }

  /** A string followed by `=` is reported as an assignment to a literal; nothing is bound. */
  lemma AssignToLiteralIsReported(src: string, s: PState, name: string)
    requires Wf(src, s) && s.sc.next.kind == Equal && !s.sc.panicMode
    ensures var r := AfterString(src, s, name);
      && r.sc.errors == s.sc.errors + [ErrorHere(s, CannotAssignToLiteral)]
      && r.table == s.table && r.graph == s.graph
  {
  }

  /**
   * In `a -> b = c` the value must be a string: a name is reported, and the statement
   * goes on as `b = c` would.
   */
  lemma NameInInlineAssignmentIsReported(src: string, s: PState, name: string)
    requires Wf(src, s) && !s.sc.panicMode
    ensures AssignName(src, s, name, true).sc.errors == s.sc.errors + [ErrorHere(s, CannotAssignWhileAddingEdge)]
  {
  }

  // ---------------------------------------------------------------------------
  // Arrows
  // ---------------------------------------------------------------------------

  /** An arrow whose first token is not a bound variable is reported at that token. */
  lemma UndeclaredSourceIsReported(src: string, s: PState, prev: Option<string>)
    requires Wf(src, s) && !s.sc.panicMode && s.sc.curr.lexeme !in s.table.vars
    ensures ParseArrow(src, s, prev).sc.errors == s.sc.errors + [ErrorHere(s, UndefinedVariable)]
  {
  }

  /**
   * `if (!get_node(g, name)) add_node(g, name, table_get(variables, name))`: a name with no
   * node but a binding gets a node whose text is its binding; every lookup that succeeded
   * before finds the same node, with the same text; a name with neither reaches undefined
   * behaviour.
   */
  lemma NodeTakesBinding(s: PState, name: string, other: string)
    ensures var r := EnsureNode(s, name);
      && (Find(s.graph.nodes, name).Some? || name in s.table.vars ==> Find(r.graph.nodes, name).Some?)
      && (Find(s.graph.nodes, name).None? && name in s.table.vars ==>
            r.graph.nodes[Find(r.graph.nodes, name).value].text == s.table.vars[name])
      && (Find(s.graph.nodes, name).None? && name !in s.table.vars ==> r.ub)
      && (Find(s.graph.nodes, other).Some? ==> Find(r.graph.nodes, other) == Find(s.graph.nodes, other))
      && |s.graph.nodes| <= |r.graph.nodes| && r.graph.edges == s.graph.edges
      && forall i | 0 <= i < |s.graph.nodes| :: r.graph.nodes[i] == s.graph.nodes[i]
  {
    if Find(s.graph.nodes, name).None? && name in s.table.vars {
      AddNodeThenFind(s.graph, name, s.table.vars[name], name);
      AddNodeThenFind(s.graph, name, s.table.vars[name], other);
    }
  }

  /**
   * The edge block for a bound `target` from a `name` that has a node: the target gets a
   * node carrying its binding if it had none, then the edge (both edges) is added without a
   * report, and nodes found before keep their place and text.
   */
  lemma LinkToAdds(s: PState, name: string, target: string, both: bool, other: string)
    requires Find(s.graph.nodes, name).Some? && target in s.table.vars
    ensures var r := LinkTo(s, name, target, both);
      && HasEdge(r.graph, name, target) && (both ==> HasEdge(r.graph, target, name)) && r.sc == s.sc
      && (Find(s.graph.nodes, target).None? ==> r.graph.nodes[Find(r.graph.nodes, target).value].text == s.table.vars[target])
      && (Find(s.graph.nodes, other).Some? ==>
            && Find(r.graph.nodes, other) == Find(s.graph.nodes, other)
            && r.graph.nodes[Find(r.graph.nodes, other).value].text == s.graph.nodes[Find(s.graph.nodes, other).value].text)
  {
    var s1 := EnsureNode(s, target);
    NodeTakesBinding(s, target, name);
    NodeTakesBinding(s, target, other);
    NodeTakesBinding(s, target, target);
    JoinAdds(s1, name, target, both);
    var r := Join(s1, name, target, both);
    FindDependsOnNamesOnly(s1.graph.nodes, r.graph.nodes, target);
    FindDependsOnNamesOnly(s1.graph.nodes, r.graph.nodes, other);
  }

  /**
   * The end of an arrow `name -> target` (or `<->`): when the target is bound and the
   * source has a node or is bound, both get a node and the edge (both edges) is added
   * without a report; an unbound target is reported; an end that had no node gets one
   * whose text is its binding; a source with neither a node nor a binding reaches
   * undefined behaviour.
   */
  lemma ArrowLinks(s: PState, name: string, target: string, both: bool)
    ensures var r := FinalLink(s, name, target, both);
      && (target in s.table.vars && (Find(s.graph.nodes, name).Some? || name in s.table.vars) ==>
            HasEdge(r.graph, name, target) && (both ==> HasEdge(r.graph, target, name)) && r.sc == s.sc)
      && (target !in s.table.vars && !s.sc.panicMode ==>
            r.sc.errors == s.sc.errors + [ErrorHere(s, UndefinedVariable)])
      && (Find(s.graph.nodes, name).None? && name !in s.table.vars ==> r.ub)
    ensures var r := FinalLink(s, name, target, both);
      Find(s.graph.nodes, name).None? && name in s.table.vars ==>
        && Find(r.graph.nodes, name).Some?
        && r.graph.nodes[Find(r.graph.nodes, name).value].text == s.table.vars[name]
    ensures var r := FinalLink(s, name, target, both);
      target in s.table.vars && Find(s.graph.nodes, target).None? && (Find(s.graph.nodes, name).Some? || name in s.table.vars) ==>
        && Find(r.graph.nodes, target).Some?
        && r.graph.nodes[Find(r.graph.nodes, target).value].text == s.table.vars[target]
  {
    var s1 := EnsureNode(s, name);
    NodeTakesBinding(s, name, name);
    NodeTakesBinding(s, name, target);
    if target in s.table.vars && Find(s1.graph.nodes, name).Some? {
      LinkToAdds(s1, name, target, both, name);
    }
  }

  /**
   * The block that runs before a chained arrow `name -> target -> ...`, keyed on the
   * operator that follows the target (`both` when it is `<->`): as at the end of an arrow,
   * except that an unbound target is skipped without a report.
   */
  lemma ChainLinks(s: PState, name: string, target: string, both: bool)
    ensures var r := ChainLink(s, name, target, both);
      && (target in s.table.vars && (Find(s.graph.nodes, name).Some? || name in s.table.vars) ==>
            HasEdge(r.graph, name, target) && (both ==> HasEdge(r.graph, target, name)) && r.sc == s.sc)
      && (target !in s.table.vars ==> r.graph.edges == s.graph.edges && r.sc == s.sc)
      && (Find(s.graph.nodes, name).None? && name !in s.table.vars ==> r.ub)
    ensures var r := ChainLink(s, name, target, both);
      Find(s.graph.nodes, name).None? && name in s.table.vars ==>
        && Find(r.graph.nodes, name).Some?
        && r.graph.nodes[Find(r.graph.nodes, name).value].text == s.table.vars[name]
    ensures var r := ChainLink(s, name, target, both);
      target in s.table.vars && Find(s.graph.nodes, target).None? && (Find(s.graph.nodes, name).Some? || name in s.table.vars) ==>
        && Find(r.graph.nodes, target).Some?
        && r.graph.nodes[Find(r.graph.nodes, target).value].text == s.table.vars[target]
  {
    var s1 := EnsureNode(s, name);
    NodeTakesBinding(s, name, name);
    NodeTakesBinding(s, name, target);
    if target in s.table.vars {
      if Find(s1.graph.nodes, name).Some? {
        LinkToAdds(s1, name, target, both, name);
      }
      assert ChainLink(s, name, target, both) == LinkTo(s1, name, target, both);
    } else {
      assert ChainLink(s, name, target, both) == s1;
    }
  }

  // ---------------------------------------------------------------------------
  // Inputs on which `parse` never reaches the end
  // ---------------------------------------------------------------------------

  /**
   * A statement that starts with a string, `=`, `}`, `->` or `<->` is neither reported nor
   * consumed: the round of `parse` returns the state it was given.
   */
  lemma UnstartableStatementIsIgnored(src: string, s: PState)
    requires Wf(src, s) && !s.sc.panicMode
    requires s.sc.curr.kind in {String, Equal, RightBrace, TokenKind.Arrow, DoubleArrow}
    ensures Round(src, s) == s
  {
  }

  /** From such a statement `parse` spins without end and without a report. */
  lemma {:induction false} UnstartableStatementNeverFinishes(src: string, s: PState, rounds: nat)
    requires Wf(src, s) && !s.sc.panicMode
    requires s.sc.curr.kind in {String, Equal, RightBrace, TokenKind.Arrow, DoubleArrow}
    ensures ParseLoop(src, s, rounds) == (s, OutOfRounds)
    decreases rounds
  {
    if rounds > 0 {
      LoopStep(src, s, rounds);
      UnstartableStatementIsIgnored(src, s);
      UnstartableStatementNeverFinishes(src, s, Fewer(rounds));
    }
  }

  /**
   * A name that is the last token and starts no assignment or arrow is reported, and then
   * `synchronize` stops at once because the look-ahead is EOF: the round leaves the tokens
   * where they were, with one more diagnostic.
   */
  lemma LastNameIsReportedAgain(src: string, s: PState)
    requires Wf(src, s) && !s.sc.panicMode
    requires s.sc.curr.kind == Identifier && s.sc.next.kind == Eof
    ensures var r := Round(src, s);
      && SameTokens(s, r) && !r.sc.panicMode
      && r.sc.errors == s.sc.errors + [ErrorHere(s, ExpectedStatement)]
  {
  }

  /** So from a last name that starts nothing, `parse` never reaches EOF. */
  lemma {:induction false} LastNameNeverFinishes(src: string, s: PState, rounds: nat)
    requires Wf(src, s) && !s.sc.panicMode
    requires s.sc.curr.kind == Identifier && s.sc.next.kind == Eof
    ensures ParseLoop(src, s, rounds).1 == OutOfRounds
    ensures |ParseLoop(src, s, rounds).0.sc.errors| == |s.sc.errors| + rounds
    decreases rounds
  {
    if rounds > 0 {
      LoopStep(src, s, rounds);
      LastNameIsReportedAgain(src, s);
      LastNameNeverFinishes(src, Round(src, s), Fewer(rounds));
    }
  }

  /**
   * The source `a` is one such input: every round reports "Expected either assignment or
   * arrow to node." again and the end is never reached.
   */
  lemma LoneNameNeverFinishes(rounds: nat)
    ensures Parse("a", rounds).1 == OutOfRounds
    ensures |Parse("a", rounds).0.sc.errors| == rounds
  {
    var s := Init("a");
    var s1 := s.(sc := SkipNewlines("a", s.sc));
    assert s1.sc.curr.kind == Identifier && s1.sc.next.kind == Eof;
    LastNameNeverFinishes("a", s1, rounds);
  }
}
