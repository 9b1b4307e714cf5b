/**
 * LoopStatementParser: parses LOOP ( init [;] BAR cond BAR update ) DO body
 * and lowers it to COMPOUND(init, LOOP(TEST(NOT(cond)), body, update)). A
 * missing BAR or DO is flagged and parsing goes on from where synchronisation
 * stopped.
 */
module LoopStatements {
  import opened Wrappers
  import opened TokenTypes
  import opened PascalErrors
  import opened ICode
  import opened Parsing

  /** DO_SET: STMT_START_SET, DO and STMT_FOLLOW_SET. */
  function DoSet(start: set<PascalTokenType>, follow: set<PascalTokenType>): (r: set<PascalTokenType>)
    ensures forall k :: k in r <==> k == Reserved(DO) || k in start || k in follow
  {
    SyncSet(start, Reserved(DO), follow)
  }

  /** BAR_SET: STMT_START_SET, BAR and STMT_FOLLOW_SET. */
  function BarSet(start: set<PascalTokenType>, follow: set<PascalTokenType>): (r: set<PascalTokenType>)
    ensures forall k :: k in r <==> k == BAR || k in start || k in follow
  {
    SyncSet(start, BAR, follow)
  }

  /**
   * The error log a LOOP statement adds: MISSING_BAR at either BAR check and
   * MISSING_DO at the DO check, each flagged only where synchronisation
   * stopped at some other token.
   */
  function LoopFlags(t1: Token, t2: Token, t3: Token): (flags: seq<Flag>)
  {
    Missing(t1, BAR, MISSING_BAR) + Missing(t2, BAR, MISSING_BAR) + Missing(t3, Reserved(DO), MISSING_DO)
  }

  /** At most three errors, each MISSING_BAR or MISSING_DO and each at a token that is not the marker. */
  lemma LoopFlagsBounded(t1: Token, t2: Token, t3: Token)
    ensures |LoopFlags(t1, t2, t3)| <= 3
    ensures forall f :: f in LoopFlags(t1, t2, t3) ==>
      (f.code == MISSING_BAR && f.token.kind != BAR && (f.token == t1 || f.token == t2)) ||
      (f.code == MISSING_DO && f.token.kind != Reserved(DO) && f.token == t3)
    ensures LoopFlags(t1, t2, t3) == [] <==> t1.kind == BAR && t2.kind == BAR && t3.kind == Reserved(DO)
  {
    var f1, f2, f3 := Missing(t1, BAR, MISSING_BAR), Missing(t2, BAR, MISSING_BAR), Missing(t3, Reserved(DO), MISSING_DO);
    assert LoopFlags(t1, t2, t3) == f1 + f2 + f3;
    forall f | f in LoopFlags(t1, t2, t3)
      ensures (f.code == MISSING_BAR && f.token.kind != BAR && (f.token == t1 || f.token == t2)) ||
              (f.code == MISSING_DO && f.token.kind != Reserved(DO) && f.token == t3)
    {
      assert f in f1 || f in f2 || f in f3;
    }
  }

  /**
   * A loop header with both BARs and the DO where parse looks for them: no
   * error is flagged, and the condition, the update and the body each start
   * right after their marker.
   */
  lemma LoopWellFormed(t: seq<Token>, start: set<PascalTokenType>, follow: set<PascalTokenType>,
                       e0: nat, e1: nat, e2: nat)
    requires WellFormed(t) && e0 < |t| && e1 < |t| && e2 < |t|
    requires t[AfterSemicolon(t, e0)].kind == BAR && t[e1].kind == BAR && t[Next(t, e2)].kind == Reserved(DO)
    ensures var bar1 := SyncPoint(t, AfterSemicolon(t, e0), BarSet(start, follow));
      var bar2 := SyncPoint(t, e1, BarSet(start, follow));
      var doAt := SyncPoint(t, Next(t, e2), DoSet(start, follow));
      && LoopFlags(t[bar1], t[bar2], t[doAt]) == []
      && AfterMarker(t, bar1, BAR) == Next(t, AfterSemicolon(t, e0))
      && AfterMarker(t, bar2, BAR) == Next(t, e1)
      && AfterMarker(t, doAt, Reserved(DO)) == Next(t, Next(t, e2))
  {
    MarkerFound(t, AfterSemicolon(t, e0), start, BAR, follow, MISSING_BAR);
    MarkerFound(t, e1, start, BAR, follow, MISSING_BAR);
    MarkerFound(t, Next(t, e2), start, Reserved(DO), follow, MISSING_DO);
  }

  /**
   * The whole error log a LOOP statement adds, in the order the errors are
   * flagged: what the initial assignment's parser flags (f0), the first BAR
   * check, the condition's (f1), the second BAR check, the update's (f2), the
   * DO check and the body's (f3).
   */
  function LoopLog(f0: seq<Flag>, t1: Token, f1: seq<Flag>, t2: Token, f2: seq<Flag>, t3: Token, f3: seq<Flag>)
    : (log: seq<Flag>)
  {
    (f0 + (Missing(t1, BAR, MISSING_BAR) + f1))
      + ((Missing(t2, BAR, MISSING_BAR) + f2) + (Missing(t3, Reserved(DO), MISSING_DO) + f3))
  }

  /**
   * The log holds the sub-parsers' errors and the LOOP statement's own, and
   * nothing else; when the sub-parsers flag nothing, it is exactly the LOOP
   * statement's own flags.
   */
  lemma LoopLogParts(f0: seq<Flag>, t1: Token, f1: seq<Flag>, t2: Token, f2: seq<Flag>, t3: Token, f3: seq<Flag>)
    ensures |LoopLog(f0, t1, f1, t2, f2, t3, f3)| == |f0| + |f1| + |f2| + |f3| + |LoopFlags(t1, t2, t3)|
    ensures forall f :: f in LoopLog(f0, t1, f1, t2, f2, t3, f3) <==>
      f in f0 || f in f1 || f in f2 || f in f3 || f in LoopFlags(t1, t2, t3)
    ensures f0 == f1 == f2 == f3 == [] ==> LoopLog(f0, t1, f1, t2, f2, t3, f3) == LoopFlags(t1, t2, t3)
  {
    var m1, m2, m3 := Missing(t1, BAR, MISSING_BAR), Missing(t2, BAR, MISSING_BAR), Missing(t3, Reserved(DO), MISSING_DO);
    assert LoopFlags(t1, t2, t3) == m1 + m2 + m3;
    if f0 == f1 == f2 == f3 == [] {
      assert LoopLog(f0, t1, f1, t2, f2, t3, f3) == m1 + m2 + m3;
    }
  }

  /**
   * parse: consume LOOP and '(' unchecked; parse the initial assignment; skip
   * an optional ';'; expect BAR; parse the condition; expect BAR; parse the
   * update assignment; consume ')' unchecked; expect DO; parse the body; then
   * lower the parts to the tree. The sub-parser calls are recorded in the
   * parser's trace, which fixes where each one started.
   */
  method Parse(p: Parser)
    returns (root: Node, ghost init: Node, ghost cond: Node, ghost update: Node, ghost body: Node,
             ghost e0: nat, ghost e1: nat, ghost e2: nat, ghost e3: nat,
             ghost f0: seq<Flag>, ghost f1: seq<Flag>, ghost f2: seq<Flag>, ghost f3: seq<Flag>)
    requires p.Valid()
    modifies p
    ensures p.Valid() && e0 < |p.tokens| && e1 < |p.tokens| && e2 < |p.tokens|
    ensures
      var t := p.tokens;
      var target := Next(t, Next(t, old(p.pos)));
      var bar1 := SyncPoint(t, AfterSemicolon(t, e0), BarSet(p.stmtStart, p.stmtFollow));
      var bar2 := SyncPoint(t, e1, BarSet(p.stmtStart, p.stmtFollow));
      var doAt := SyncPoint(t, Next(t, e2), DoSet(p.stmtStart, p.stmtFollow));
      && p.trace == old(p.trace) + [SubParse(ASSIGNMENT, target, e0, init, f0),
                                    SubParse(EXPRESSION, AfterMarker(t, bar1, BAR), e1, cond, f1),
                                    SubParse(ASSIGNMENT, AfterMarker(t, bar2, BAR), e2, update, f2),
                                    SubParse(STATEMENT, AfterMarker(t, doAt, Reserved(DO)), e3, body, f3)]
      && p.pos == e3
      && p.errors == old(p.errors) + LoopLog(f0, t[bar1], f1, t[bar2], f2, t[doAt], f3)
      && init.line == Some(t[target].line) && update.line == Some(t[target].line)
    ensures fresh(root) && root.nodeType == COMPOUND && |root.children| == 2 && root.line == None
    ensures root.children[0] == init
    ensures var loop := root.children[1];
      && fresh(loop) && loop.nodeType == ICodeNodeType.LOOP && |loop.children| == 3 && loop.line == None
      && loop.children[1] == body && loop.children[2] == update
      && var test := loop.children[0];
      && fresh(test) && test.nodeType == TEST && |test.children| == 1 && test.line == None
      && var not := test.children[0];
      && fresh(not) && not.nodeType == ICodeNodeType.NOT && not.children == [cond] && not.line == None
  {
    var initAssignNode, expressionNode, updateAssignNode, bodyNode, targetToken;
    initAssignNode, expressionNode, updateAssignNode, bodyNode, targetToken, e0, e1, e2, e3, f0, f1, f2, f3 :=
      ParseParts(p);
    root := Lower(initAssignNode, expressionNode, updateAssignNode, bodyNode, targetToken);
    init, cond, update, body := initAssignNode, expressionNode, updateAssignNode, bodyNode;
  }

  /** The token-consuming steps of parse, in order, giving the four parsed parts and the token after '('. */
  method ParseParts(p: Parser)
    returns (initAssignNode: Node, expressionNode: Node, updateAssignNode: Node, bodyNode: Node, targetToken: Token,
             ghost e0: nat, ghost e1: nat, ghost e2: nat, ghost e3: nat,
             ghost f0: seq<Flag>, ghost f1: seq<Flag>, ghost f2: seq<Flag>, ghost f3: seq<Flag>)
    requires p.Valid()
    modifies p
    ensures p.Valid() && e0 < |p.tokens| && e1 < |p.tokens| && e2 < |p.tokens|
    ensures
      var t := p.tokens;
      var target := Next(t, Next(t, old(p.pos)));
      var bar1 := SyncPoint(t, AfterSemicolon(t, e0), BarSet(p.stmtStart, p.stmtFollow));
      var bar2 := SyncPoint(t, e1, BarSet(p.stmtStart, p.stmtFollow));
      var doAt := SyncPoint(t, Next(t, e2), DoSet(p.stmtStart, p.stmtFollow));
      && targetToken == t[target]
      && p.trace == old(p.trace) + [SubParse(ASSIGNMENT, target, e0, initAssignNode, f0),
                                    SubParse(EXPRESSION, AfterMarker(t, bar1, BAR), e1, expressionNode, f1),
                                    SubParse(ASSIGNMENT, AfterMarker(t, bar2, BAR), e2, updateAssignNode, f2),
                                    SubParse(STATEMENT, AfterMarker(t, doAt, Reserved(DO)), e3, bodyNode, f3)]
      && p.pos == e3
      && p.errors == old(p.errors) + LoopLog(f0, t[bar1], f1, t[bar2], f2, t[doAt], f3)
    ensures fresh(initAssignNode) && fresh(expressionNode) && fresh(updateAssignNode) && fresh(bodyNode)
  {
    ghost var trace0, errors0 := p.trace, p.errors;
    initAssignNode, expressionNode, targetToken, e0, e1, f0, f1 := ParseHead(p);
    updateAssignNode, bodyNode, e2, e3, f2, f3 := ParseTail(p);
    ghost var t := p.tokens;
    ghost var bar1 := SyncPoint(t, AfterSemicolon(t, e0), BarSet(p.stmtStart, p.stmtFollow));
    ghost var bar2 := SyncPoint(t, e1, BarSet(p.stmtStart, p.stmtFollow));
    ghost var doAt := SyncPoint(t, Next(t, e2), DoSet(p.stmtStart, p.stmtFollow));
    AppendTwo(trace0, [SubParse(ASSIGNMENT, Next(t, Next(t, old(p.pos))), e0, initAssignNode, f0),
                       SubParse(EXPRESSION, AfterMarker(t, bar1, BAR), e1, expressionNode, f1)],
              [SubParse(ASSIGNMENT, AfterMarker(t, bar2, BAR), e2, updateAssignNode, f2),
               SubParse(STATEMENT, AfterMarker(t, doAt, Reserved(DO)), e3, bodyNode, f3)]);
    AppendTwo(errors0, f0 + (Missing(t[bar1], BAR, MISSING_BAR) + f1),
              (Missing(t[bar2], BAR, MISSING_BAR) + f2) + (Missing(t[doAt], Reserved(DO), MISSING_DO) + f3));
  }

  /**
   * The first half of parse: LOOP and '(' unchecked, the initial assignment,
   * the optional ';', the first BAR and the condition.
   */
  method ParseHead(p: Parser)
    returns (initAssignNode: Node, expressionNode: Node, targetToken: Token, ghost e0: nat, ghost e1: nat,
             ghost f0: seq<Flag>, ghost f1: seq<Flag>)
    requires p.Valid()
    modifies p
    ensures p.Valid() && e0 < |p.tokens| && p.pos == e1
    ensures
      var t := p.tokens;
      var target := Next(t, Next(t, old(p.pos)));
      var bar1 := SyncPoint(t, AfterSemicolon(t, e0), BarSet(p.stmtStart, p.stmtFollow));
      && targetToken == t[target]
      && p.trace == old(p.trace) + [SubParse(ASSIGNMENT, target, e0, initAssignNode, f0),
                                    SubParse(EXPRESSION, AfterMarker(t, bar1, BAR), e1, expressionNode, f1)]
      && p.errors == old(p.errors) + (f0 + (Missing(t[bar1], BAR, MISSING_BAR) + f1))
    ensures fresh(initAssignNode) && fresh(expressionNode)
  {
    var token := p.NextToken();  // the LOOP
    token := p.NextToken();      // the '('
    targetToken := token;
    initAssignNode, f0 := p.ParseAssignment();
    e0 := p.pos;
    p.SkipSemicolon();
    expressionNode, e1, f1 := ExpectThenParse(p, BarSet(p.stmtStart, p.stmtFollow), BAR, MISSING_BAR, EXPRESSION);
    AppendTwo(old(p.errors), f0, Missing(p.tokens[SyncPoint(p.tokens, AfterSemicolon(p.tokens, e0),
                                                            BarSet(p.stmtStart, p.stmtFollow))], BAR, MISSING_BAR) + f1);
  }

  /**
   * The second half of parse: the second BAR, the update assignment, ')'
   * unchecked, DO and the body.
   */
  method ParseTail(p: Parser)
    returns (updateAssignNode: Node, bodyNode: Node, ghost e2: nat, ghost e3: nat, ghost f2: seq<Flag>,
             ghost f3: seq<Flag>)
    requires p.Valid()
    modifies p
    ensures p.Valid() && e2 < |p.tokens| && p.pos == e3
    ensures
      var t := p.tokens;
      var bar2 := SyncPoint(t, old(p.pos), BarSet(p.stmtStart, p.stmtFollow));
      var doAt := SyncPoint(t, Next(t, e2), DoSet(p.stmtStart, p.stmtFollow));
      && p.trace == old(p.trace) + [SubParse(ASSIGNMENT, AfterMarker(t, bar2, BAR), e2, updateAssignNode, f2),
                                    SubParse(STATEMENT, AfterMarker(t, doAt, Reserved(DO)), e3, bodyNode, f3)]
      && p.errors == old(p.errors) + ((Missing(t[bar2], BAR, MISSING_BAR) + f2)
                                      + (Missing(t[doAt], Reserved(DO), MISSING_DO) + f3))
    ensures fresh(updateAssignNode) && fresh(bodyNode)
  {
    updateAssignNode, e2, f2 := ExpectThenParse(p, BarSet(p.stmtStart, p.stmtFollow), BAR, MISSING_BAR, ASSIGNMENT);
    var token := p.NextToken();  // the ')'
    bodyNode, e3, f3 := ExpectThenParse(p, DoSet(p.stmtStart, p.stmtFollow), Reserved(DO), MISSING_DO, STATEMENT);
    ghost var t := p.tokens;
    AppendTwo(old(p.errors), Missing(t[SyncPoint(t, old(p.pos), BarSet(p.stmtStart, p.stmtFollow))], BAR, MISSING_BAR) + f2,
              Missing(t[SyncPoint(t, Next(t, e2), DoSet(p.stmtStart, p.stmtFollow))], Reserved(DO), MISSING_DO) + f3);
  }

  /** The TEST node of the loop, whose only child is NOT(cond). */
  method LowerTest(expressionNode: Node) returns (testNode: Node)
    ensures fresh(testNode) && testNode.nodeType == TEST && |testNode.children| == 1 && testNode.line == None
    ensures var not := testNode.children[0];
      fresh(not) && not.nodeType == ICodeNodeType.NOT && not.children == [expressionNode] && not.line == None
  {
    var notNode := new Node(ICodeNodeType.NOT);
    notNode.AddChild(expressionNode);
    testNode := new Node(TEST);
    testNode.AddChild(notNode);
  }

  /** The LOOP node: the test first, then the body, then the update assignment. */
  method LowerLoop(expressionNode: Node, bodyNode: Node, updateAssignNode: Node) returns (loop: Node)
    ensures fresh(loop) && loop.nodeType == ICodeNodeType.LOOP && |loop.children| == 3 && loop.line == None
    ensures loop.children[1] == bodyNode && loop.children[2] == updateAssignNode
    ensures var test := loop.children[0];
      && fresh(test) && test.nodeType == TEST && |test.children| == 1 && test.line == None
      && var not := test.children[0];
      && fresh(not) && not.nodeType == ICodeNodeType.NOT && not.children == [expressionNode] && not.line == None
  {
    var testNode := LowerTest(expressionNode);
    loop := new Node(ICodeNodeType.LOOP);
    loop.AddChild(testNode);
    loop.AddChild(bodyNode);
    loop.AddChild(updateAssignNode);
  }

  /**
   * The tree parse builds from the parts: COMPOUND(init, LOOP(TEST(NOT(cond)),
   * body, update)), with both assignments given the line of the token after '('.
   */
  method Lower(initAssignNode: Node, expressionNode: Node, updateAssignNode: Node, bodyNode: Node,
               targetToken: Token)
    returns (root: Node)
    modifies initAssignNode`line, updateAssignNode`line
    ensures initAssignNode.line == Some(targetToken.line) && updateAssignNode.line == Some(targetToken.line)
    ensures fresh(root) && root.nodeType == COMPOUND && |root.children| == 2 && root.line == None
    ensures root.children[0] == initAssignNode
    ensures var loop := root.children[1];
      && fresh(loop) && loop.nodeType == ICodeNodeType.LOOP && |loop.children| == 3 && loop.line == None
      && loop.children[1] == bodyNode && loop.children[2] == updateAssignNode
      && var test := loop.children[0];
      && fresh(test) && test.nodeType == TEST && |test.children| == 1 && test.line == None
      && var not := test.children[0];
      && fresh(not) && not.nodeType == ICodeNodeType.NOT && not.children == [expressionNode] && not.line == None
  {
    SetLineNumber(initAssignNode, targetToken);
    SetLineNumber(updateAssignNode, targetToken);
    var loopNode := LowerLoop(expressionNode, bodyNode, updateAssignNode);
    root := new Node(COMPOUND);
    root.AddChild(initAssignNode);
    root.AddChild(loopNode);
  }
}
