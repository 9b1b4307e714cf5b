/**
 * WhenStatementParser: parses WHEN expr LESSTHAN0 s1 [;] EQUAL0 s2 [;]
 * GREATERTHAN0 s3 and lowers it to a chain of IF nodes,
 * IF(LT(expr, 0), s1, IF(EQ(expr, 0), s2, IF(GT(expr, 0), s3))), in which the
 * three comparisons share the one expression node and the one 0 node. A
 * missing LESSTHAN0, EQUAL0 or GREATERTHAN0 is flagged and parsing goes on
 * from where synchronisation stopped.
 */
module WhenStatements {
  import opened Wrappers
  import opened TokenTypes
  import opened PascalErrors
  import opened ICode
  import opened Parsing

  /** LESSTHAN0_SET: STMT_START_SET, LESSTHAN0 and STMT_FOLLOW_SET. */
  function LtSet(start: set<PascalTokenType>, follow: set<PascalTokenType>): (r: set<PascalTokenType>)
    ensures forall k :: k in r <==> k == Reserved(LESSTHAN0) || k in start || k in follow
  {
    SyncSet(start, Reserved(LESSTHAN0), follow)
  }

  /** EQUAL0_SET: STMT_START_SET, EQUAL0 and STMT_FOLLOW_SET. */
  function EqSet(start: set<PascalTokenType>, follow: set<PascalTokenType>): (r: set<PascalTokenType>)
    ensures forall k :: k in r <==> k == Reserved(EQUAL0) || k in start || k in follow
  {
    SyncSet(start, Reserved(EQUAL0), follow)
  }

  /** GREATERTHAN0_SET: STMT_START_SET, GREATERTHAN0 and STMT_FOLLOW_SET. */
  function GtSet(start: set<PascalTokenType>, follow: set<PascalTokenType>): (r: set<PascalTokenType>)
    ensures forall k :: k in r <==> k == Reserved(GREATERTHAN0) || k in start || k in follow
  {
    SyncSet(start, Reserved(GREATERTHAN0), follow)
  }

  /**
   * The error log a WHEN statement adds: one flag for each of the three
   * markers that synchronisation did not find, in order.
   */
  function WhenFlags(lt: Token, eq: Token, gt: Token): (flags: seq<Flag>)
  {
    Missing(lt, Reserved(LESSTHAN0), MISSING_LESSTHAN0)
      + Missing(eq, Reserved(EQUAL0), MISSING_EQUAL0)
      + Missing(gt, Reserved(GREATERTHAN0), MISSING_GREATERTHAN0)
  }

  /**
   * At most three errors, each naming the marker that was missing at the
   * token flagged, and none at all exactly when all three markers are found.
   */
  lemma WhenFlagsBounded(lt: Token, eq: Token, gt: Token)
    ensures |WhenFlags(lt, eq, gt)| <= 3
    ensures forall f :: f in WhenFlags(lt, eq, gt) ==>
      (f.code == MISSING_LESSTHAN0 && f.token == lt && lt.kind != Reserved(LESSTHAN0)) ||
      (f.code == MISSING_EQUAL0 && f.token == eq && eq.kind != Reserved(EQUAL0)) ||
      (f.code == MISSING_GREATERTHAN0 && f.token == gt && gt.kind != Reserved(GREATERTHAN0))
    ensures WhenFlags(lt, eq, gt) == [] <==>
      lt.kind == Reserved(LESSTHAN0) && eq.kind == Reserved(EQUAL0) && gt.kind == Reserved(GREATERTHAN0)
  {
    var f1 := Missing(lt, Reserved(LESSTHAN0), MISSING_LESSTHAN0);
    var f2 := Missing(eq, Reserved(EQUAL0), MISSING_EQUAL0);
    var f3 := Missing(gt, Reserved(GREATERTHAN0), MISSING_GREATERTHAN0);
    assert WhenFlags(lt, eq, gt) == f1 + f2 + f3;
    forall f | f in WhenFlags(lt, eq, gt)
      ensures (f.code == MISSING_LESSTHAN0 && f.token == lt && lt.kind != Reserved(LESSTHAN0)) ||
              (f.code == MISSING_EQUAL0 && f.token == eq && eq.kind != Reserved(EQUAL0)) ||
              (f.code == MISSING_GREATERTHAN0 && f.token == gt && gt.kind != Reserved(GREATERTHAN0))
    {
      assert f in f1 || f in f2 || f in f3;
    }
  }

  /**
   * The flags follow the order of the markers in the statement: when
   * LESSTHAN0 is missing its flag comes first, and a missing GREATERTHAN0 is
   * always flagged last.
   */
  lemma WhenFlagsOrdered(lt: Token, eq: Token, gt: Token)
    ensures lt.kind != Reserved(LESSTHAN0) ==> WhenFlags(lt, eq, gt)[0] == Flag(lt, MISSING_LESSTHAN0)
    ensures gt.kind != Reserved(GREATERTHAN0) ==>
      WhenFlags(lt, eq, gt)[|WhenFlags(lt, eq, gt)| - 1] == Flag(gt, MISSING_GREATERTHAN0)
  {
  }

  /**
   * A WHEN statement with each marker where parse looks for it: no error is
   * flagged, and each statement starts right after its marker.
   */
  lemma WhenWellFormed(t: seq<Token>, start: set<PascalTokenType>, follow: set<PascalTokenType>,
                       e0: nat, e1: nat, e2: nat)
    requires WellFormed(t) && e0 < |t| && e1 < |t| && e2 < |t|
    requires t[e0].kind == Reserved(LESSTHAN0)
    requires t[AfterSemicolon(t, e1)].kind == Reserved(EQUAL0)
    requires t[AfterSemicolon(t, e2)].kind == Reserved(GREATERTHAN0)
    ensures var lt := SyncPoint(t, e0, LtSet(start, follow));
      var eq := SyncPoint(t, AfterSemicolon(t, e1), EqSet(start, follow));
      var gt := SyncPoint(t, AfterSemicolon(t, e2), GtSet(start, follow));
      && WhenFlags(t[lt], t[eq], t[gt]) == []
      && AfterMarker(t, lt, Reserved(LESSTHAN0)) == Next(t, e0)
      && AfterMarker(t, eq, Reserved(EQUAL0)) == Next(t, AfterSemicolon(t, e1))
      && AfterMarker(t, gt, Reserved(GREATERTHAN0)) == Next(t, AfterSemicolon(t, e2))
  {
    MarkerFound(t, e0, start, Reserved(LESSTHAN0), follow, MISSING_LESSTHAN0);
    MarkerFound(t, AfterSemicolon(t, e1), start, Reserved(EQUAL0), follow, MISSING_EQUAL0);
    MarkerFound(t, AfterSemicolon(t, e2), start, Reserved(GREATERTHAN0), follow, MISSING_GREATERTHAN0);
  }

  /**
   * The whole error log a WHEN statement adds, in the order the errors are
   * flagged: what the expression's parser flags (f0), the LESSTHAN0 check,
   * the first statement's (f1), the EQUAL0 check, the second statement's
   * (f2), the GREATERTHAN0 check and the third statement's (f3).
   */
  function WhenLog(f0: seq<Flag>, lt: Token, f1: seq<Flag>, eq: Token, f2: seq<Flag>, gt: Token, f3: seq<Flag>)
    : (log: seq<Flag>)
  {
    (f0 + (Missing(lt, Reserved(LESSTHAN0), MISSING_LESSTHAN0) + f1))
      + ((Missing(eq, Reserved(EQUAL0), MISSING_EQUAL0) + f2)
         + (Missing(gt, Reserved(GREATERTHAN0), MISSING_GREATERTHAN0) + f3))
  }

  /**
   * The log holds the sub-parsers' errors and the WHEN statement's own, and
   * nothing else; when the sub-parsers flag nothing, it is exactly the WHEN
   * statement's own flags.
   */
  lemma WhenLogParts(f0: seq<Flag>, lt: Token, f1: seq<Flag>, eq: Token, f2: seq<Flag>, gt: Token, f3: seq<Flag>)
    ensures |WhenLog(f0, lt, f1, eq, f2, gt, f3)| == |f0| + |f1| + |f2| + |f3| + |WhenFlags(lt, eq, gt)|
    ensures forall f :: f in WhenLog(f0, lt, f1, eq, f2, gt, f3) <==>
      f in f0 || f in f1 || f in f2 || f in f3 || f in WhenFlags(lt, eq, gt)
    ensures f0 == f1 == f2 == f3 == [] ==> WhenLog(f0, lt, f1, eq, f2, gt, f3) == WhenFlags(lt, eq, gt)
  {
    var m1 := Missing(lt, Reserved(LESSTHAN0), MISSING_LESSTHAN0);
    var m2 := Missing(eq, Reserved(EQUAL0), MISSING_EQUAL0);
    var m3 := Missing(gt, Reserved(GREATERTHAN0), MISSING_GREATERTHAN0);
    assert WhenFlags(lt, eq, gt) == m1 + m2 + m3;
    if f0 == f1 == f2 == f3 == [] {
      assert WhenLog(f0, lt, f1, eq, f2, gt, f3) == m1 + m2 + m3;
    }
  }

  /**
   * parse: consume WHEN; parse the expression; expect LESSTHAN0 and parse
   * the first statement; then twice skip an optional ';', note the current
   * token, expect EQUAL0 (then GREATERTHAN0) and parse the next statement
   * with the same statement parser; then lower the parts to the IF chain.
   * The sub-parser calls are recorded in the parser's trace; e0 to e3 are
   * where each of them stopped, and whenExpr, s1, s2 and s3 the nodes they
   * returned.
   */
  method Parse(p: Parser)
    returns (root: Node, ghost whenExpr: Node, ghost s1: Node, ghost s2: Node, ghost s3: Node,
             ghost e0: nat, ghost e1: nat, ghost e2: nat, ghost e3: nat,
             ghost f0: seq<Flag>, ghost f1: seq<Flag>, ghost f2: seq<Flag>, ghost f3: seq<Flag>)
    requires p.Valid()
    modifies p
    ensures p.Valid() && e0 < |p.tokens| && e1 < |p.tokens| && e2 < |p.tokens|
    ensures
      var t := p.tokens;
      var lt := SyncPoint(t, e0, LtSet(p.stmtStart, p.stmtFollow));
      var eqTarget := AfterSemicolon(t, e1);
      var eq := SyncPoint(t, eqTarget, EqSet(p.stmtStart, p.stmtFollow));
      var gtTarget := AfterSemicolon(t, e2);
      var gt := SyncPoint(t, gtTarget, GtSet(p.stmtStart, p.stmtFollow));
      && p.trace == old(p.trace) + [SubParse(EXPRESSION, Next(t, old(p.pos)), e0, whenExpr, f0),
                                    SubParse(STATEMENT, AfterMarker(t, lt, Reserved(LESSTHAN0)), e1, s1, f1),
                                    SubParse(STATEMENT, AfterMarker(t, eq, Reserved(EQUAL0)), e2, s2, f2),
                                    SubParse(STATEMENT, AfterMarker(t, gt, Reserved(GREATERTHAN0)), e3, s3, f3)]
      && p.pos == e3
      && p.errors == old(p.errors) + WhenLog(f0, t[lt], f1, t[eq], f2, t[gt], f3)
      && IfChain(root, whenExpr, s1, s2, s3, t[eqTarget].line, t[gtTarget].line)
    ensures fresh(root) && fresh(root.children[0]) && fresh(root.children[0].children[1])
    ensures var ifEQ := root.children[2];
      && fresh(ifEQ) && fresh(ifEQ.children[0])
      && var ifGT := ifEQ.children[2];
      && fresh(ifGT) && fresh(ifGT.children[0])
  {
    var whenExpression, ltStatement, eqStatement, gtStatement, eqTargetToken, gtTargetToken;
    whenExpression, ltStatement, eqStatement, gtStatement, eqTargetToken, gtTargetToken, e0, e1, e2, e3,
      f0, f1, f2, f3 := ParseParts(p);
    root := Lower(whenExpression, ltStatement, eqStatement, gtStatement, eqTargetToken, gtTargetToken);
    whenExpr, s1, s2, s3 := whenExpression, ltStatement, eqStatement, gtStatement;
  }

  /**
   * The shape parse gives the tree: IF(LT(expr, 0), s1, IF(EQ(expr, 0), s2,
   * IF(GT(expr, 0), s3))), where every comparison has the same expression
   * node and the same 0 node as its operands, only the two inner IF nodes
   * carry a line, and those are the lines of the tokens noted before EQUAL0
   * and GREATERTHAN0.
   */
  ghost predicate IfChain(root: Node, whenExpr: Node, s1: Node, s2: Node, s3: Node, eqLine: int, gtLine: int)
    reads *
  {
    && root.nodeType == ICodeNodeType.IF && root.line == None && |root.children| == 3
    && var ltNode := root.children[0];
    && |ltNode.children| == 2
    && var zero := ltNode.children[1];
    && Comparison(ltNode, LT, whenExpr, zero)
    && root.children[1] == s1
    && var ifEQ := root.children[2];
    && ifEQ.nodeType == ICodeNodeType.IF && ifEQ.line == Some(eqLine) && |ifEQ.children| == 3
    && Comparison(ifEQ.children[0], EQ, whenExpr, zero)
    && ifEQ.children[1] == s2
    && var ifGT := ifEQ.children[2];
    && ifGT.nodeType == ICodeNodeType.IF && ifGT.line == Some(gtLine) && |ifGT.children| == 2
    && Comparison(ifGT.children[0], GT, whenExpr, zero)
    && ifGT.children[1] == s3
  }

  /** A comparison of the expression with the shared 0 node, as LT, EQ and GT nodes are built. */
  ghost predicate Comparison(n: Node, kind: ICodeNodeType, whenExpr: Node, zero: Node)
    reads n, zero
  {
    && n.nodeType == kind && n.line == None && n.children == [whenExpr, zero]
    && zero.nodeType == INTEGER_CONSTANT && zero.value == Some(0) && zero.children == [] && zero.line == None
  }

  /**
   * The token-consuming steps of parse, in order: the expression and the
   * three statements, with the tokens noted before EQUAL0 and GREATERTHAN0.
   */
  method ParseParts(p: Parser)
    returns (whenExpression: Node, ltStatement: Node, eqStatement: Node, gtStatement: Node,
             eqTargetToken: Token, gtTargetToken: Token, ghost e0: nat, ghost e1: nat, ghost e2: nat, ghost e3: nat,
             ghost f0: seq<Flag>, ghost f1: seq<Flag>, ghost f2: seq<Flag>, ghost f3: seq<Flag>)
    requires p.Valid()
    modifies p
    ensures p.Valid() && e0 < |p.tokens| && e1 < |p.tokens| && e2 < |p.tokens|
    ensures
      var t := p.tokens;
      var lt := SyncPoint(t, e0, LtSet(p.stmtStart, p.stmtFollow));
      var eqTarget := AfterSemicolon(t, e1);
      var eq := SyncPoint(t, eqTarget, EqSet(p.stmtStart, p.stmtFollow));
      var gtTarget := AfterSemicolon(t, e2);
      var gt := SyncPoint(t, gtTarget, GtSet(p.stmtStart, p.stmtFollow));
      && p.trace == old(p.trace) + [SubParse(EXPRESSION, Next(t, old(p.pos)), e0, whenExpression, f0),
                                    SubParse(STATEMENT, AfterMarker(t, lt, Reserved(LESSTHAN0)), e1, ltStatement, f1),
                                    SubParse(STATEMENT, AfterMarker(t, eq, Reserved(EQUAL0)), e2, eqStatement, f2),
                                    SubParse(STATEMENT, AfterMarker(t, gt, Reserved(GREATERTHAN0)), e3, gtStatement, f3)]
      && p.pos == e3
      && p.errors == old(p.errors) + WhenLog(f0, t[lt], f1, t[eq], f2, t[gt], f3)
      && eqTargetToken == t[eqTarget] && gtTargetToken == t[gtTarget]
  {
    ghost var trace0, errors0 := p.trace, p.errors;
    whenExpression, ltStatement, e0, e1, f0, f1 := ParseHead(p);
    eqStatement, gtStatement, eqTargetToken, gtTargetToken, e2, e3, f2, f3 := ParseBranches(p);
    ghost var t := p.tokens;
    ghost var lt := SyncPoint(t, e0, LtSet(p.stmtStart, p.stmtFollow));
    ghost var eq := SyncPoint(t, AfterSemicolon(t, e1), EqSet(p.stmtStart, p.stmtFollow));
    ghost var gt := SyncPoint(t, AfterSemicolon(t, e2), GtSet(p.stmtStart, p.stmtFollow));
    AppendTwo(trace0, [SubParse(EXPRESSION, Next(t, old(p.pos)), e0, whenExpression, f0),
                       SubParse(STATEMENT, AfterMarker(t, lt, Reserved(LESSTHAN0)), e1, ltStatement, f1)],
              [SubParse(STATEMENT, AfterMarker(t, eq, Reserved(EQUAL0)), e2, eqStatement, f2),
               SubParse(STATEMENT, AfterMarker(t, gt, Reserved(GREATERTHAN0)), e3, gtStatement, f3)]);
    AppendTwo(errors0, f0 + (Missing(t[lt], Reserved(LESSTHAN0), MISSING_LESSTHAN0) + f1),
              (Missing(t[eq], Reserved(EQUAL0), MISSING_EQUAL0) + f2)
                + (Missing(t[gt], Reserved(GREATERTHAN0), MISSING_GREATERTHAN0) + f3));
  }

  /** The first part of parse: WHEN, the expression, LESSTHAN0 and the statement after it. */
  method ParseHead(p: Parser)
    returns (whenExpression: Node, ltStatement: Node, ghost e0: nat, ghost e1: nat, ghost f0: seq<Flag>,
             ghost f1: seq<Flag>)
    requires p.Valid()
    modifies p
    ensures p.Valid() && e0 < |p.tokens| && p.pos == e1
    ensures
      var t := p.tokens;
      var lt := SyncPoint(t, e0, LtSet(p.stmtStart, p.stmtFollow));
      && p.trace == old(p.trace) + [SubParse(EXPRESSION, Next(t, old(p.pos)), e0, whenExpression, f0),
                                    SubParse(STATEMENT, AfterMarker(t, lt, Reserved(LESSTHAN0)), e1, ltStatement, f1)]
      && p.errors == old(p.errors) + (f0 + (Missing(t[lt], Reserved(LESSTHAN0), MISSING_LESSTHAN0) + f1))
  {
    var token := p.NextToken();  // the WHEN
    whenExpression, f0 := p.ParseExpression();
    e0 := p.pos;
    ltStatement, e1, f1 := ExpectThenParse(p, LtSet(p.stmtStart, p.stmtFollow), Reserved(LESSTHAN0),
                                           MISSING_LESSTHAN0, STATEMENT);
    AppendTwo(old(p.errors), f0, Missing(p.tokens[SyncPoint(p.tokens, e0, LtSet(p.stmtStart, p.stmtFollow))],
                                         Reserved(LESSTHAN0), MISSING_LESSTHAN0) + f1);
  }

  /** The EQUAL0 branch and then the GREATERTHAN0 branch. */
  method ParseBranches(p: Parser)
    returns (eqStatement: Node, gtStatement: Node, eqTargetToken: Token, gtTargetToken: Token,
             ghost e2: nat, ghost e3: nat, ghost f2: seq<Flag>, ghost f3: seq<Flag>)
    requires p.Valid()
    modifies p
    ensures p.Valid() && e2 < |p.tokens| && p.pos == e3
    ensures
      var t := p.tokens;
      var eqTarget := AfterSemicolon(t, old(p.pos));
      var eq := SyncPoint(t, eqTarget, EqSet(p.stmtStart, p.stmtFollow));
      var gtTarget := AfterSemicolon(t, e2);
      var gt := SyncPoint(t, gtTarget, GtSet(p.stmtStart, p.stmtFollow));
      && p.trace == old(p.trace) + [SubParse(STATEMENT, AfterMarker(t, eq, Reserved(EQUAL0)), e2, eqStatement, f2),
                                    SubParse(STATEMENT, AfterMarker(t, gt, Reserved(GREATERTHAN0)), e3, gtStatement, f3)]
      && p.errors == old(p.errors) + ((Missing(t[eq], Reserved(EQUAL0), MISSING_EQUAL0) + f2)
                                      + (Missing(t[gt], Reserved(GREATERTHAN0), MISSING_GREATERTHAN0) + f3))
      && eqTargetToken == t[eqTarget] && gtTargetToken == t[gtTarget]
  {
    ghost var errors0 := p.errors;
    eqStatement, eqTargetToken, e2, f2 := ParseBranch(p, EqSet(p.stmtStart, p.stmtFollow), Reserved(EQUAL0),
                                                      MISSING_EQUAL0);
    gtStatement, gtTargetToken, e3, f3 := ParseBranch(p, GtSet(p.stmtStart, p.stmtFollow), Reserved(GREATERTHAN0),
                                                      MISSING_GREATERTHAN0);
    AppendTwo(errors0, Missing(p.tokens[SyncPoint(p.tokens, AfterSemicolon(p.tokens, old(p.pos)),
                                                   EqSet(p.stmtStart, p.stmtFollow))], Reserved(EQUAL0), MISSING_EQUAL0)
                         + f2,
              Missing(p.tokens[SyncPoint(p.tokens, AfterSemicolon(p.tokens, e2), GtSet(p.stmtStart, p.stmtFollow))],
                      Reserved(GREATERTHAN0), MISSING_GREATERTHAN0) + f3);
  }

  /**
   * One of the later branches: skip an optional ';', note the current token,
   * expect the marker and parse the statement after it.
   */
  method ParseBranch(p: Parser, syncSet: set<PascalTokenType>, marker: PascalTokenType, code: ErrorCode)
    returns (statement: Node, targetToken: Token, ghost end: nat, ghost flags: seq<Flag>)
    requires p.Valid()
    modifies p
    ensures p.Valid() && p.pos == end
    ensures
      var t := p.tokens;
      var target := AfterSemicolon(t, old(p.pos));
      var at := SyncPoint(t, target, syncSet);
      && p.trace == old(p.trace) + [SubParse(STATEMENT, AfterMarker(t, at, marker), end, statement, flags)]
      && p.errors == old(p.errors) + (Missing(t[at], marker, code) + flags)
      && targetToken == t[target]
  {
    p.SkipSemicolon();
    targetToken := p.CurrentToken();
    statement, end, flags := ExpectThenParse(p, syncSet, marker, code, STATEMENT);
  }

  /** An LT, EQ or GT node comparing the expression with the 0 node. */
  method NewComparison(kind: ICodeNodeType, whenExpression: Node, zeroNode: Node) returns (node: Node)
    ensures fresh(node) && node.nodeType == kind && node.line == None && node.children == [whenExpression, zeroNode]
  {
    node := new Node(kind);
    node.AddChild(whenExpression);
    node.AddChild(zeroNode);
  }

  /** The innermost IF: GT(expr, 0) and the GREATERTHAN0 statement, at the line of the token noted before it. */
  method LowerGreater(whenExpression: Node, zeroNode: Node, gtStatement: Node, gtTargetToken: Token)
    returns (ifGTNode: Node)
    ensures fresh(ifGTNode) && ifGTNode.nodeType == ICodeNodeType.IF && ifGTNode.line == Some(gtTargetToken.line)
    ensures |ifGTNode.children| == 2 && ifGTNode.children[1] == gtStatement
    ensures var gtNode := ifGTNode.children[0];
      fresh(gtNode) && gtNode.nodeType == GT && gtNode.line == None && gtNode.children == [whenExpression, zeroNode]
  {
    var greaterThan0Node := NewComparison(GT, whenExpression, zeroNode);
    ifGTNode := new Node(ICodeNodeType.IF);
    SetLineNumber(ifGTNode, gtTargetToken);
    ifGTNode.AddChild(greaterThan0Node);
    ifGTNode.AddChild(gtStatement);
  }

  /** The middle IF: EQ(expr, 0), the EQUAL0 statement and the innermost IF. */
  method LowerEqual(whenExpression: Node, zeroNode: Node, eqStatement: Node, gtStatement: Node,
                    eqTargetToken: Token, gtTargetToken: Token)
    returns (ifEQNode: Node)
    ensures fresh(ifEQNode) && ifEQNode.nodeType == ICodeNodeType.IF && ifEQNode.line == Some(eqTargetToken.line)
    ensures |ifEQNode.children| == 3 && ifEQNode.children[1] == eqStatement
    ensures var eqNode := ifEQNode.children[0];
      fresh(eqNode) && eqNode.nodeType == EQ && eqNode.line == None && eqNode.children == [whenExpression, zeroNode]
    ensures var ifGTNode := ifEQNode.children[2];
      && fresh(ifGTNode) && ifGTNode.nodeType == ICodeNodeType.IF && ifGTNode.line == Some(gtTargetToken.line)
      && |ifGTNode.children| == 2 && ifGTNode.children[1] == gtStatement
      && var gtNode := ifGTNode.children[0];
      && fresh(gtNode) && gtNode.nodeType == GT && gtNode.line == None && gtNode.children == [whenExpression, zeroNode]
  {
    var equal0Node := NewComparison(EQ, whenExpression, zeroNode);
    ifEQNode := new Node(ICodeNodeType.IF);
    SetLineNumber(ifEQNode, eqTargetToken);
    ifEQNode.AddChild(equal0Node);
    ifEQNode.AddChild(eqStatement);
    var ifGTNode := LowerGreater(whenExpression, zeroNode, gtStatement, gtTargetToken);
    ifEQNode.AddChild(ifGTNode);
  }

  /** The tree parse builds from the parts: the IF chain under a new 0 node shared by all three comparisons. */
  method Lower(whenExpression: Node, ltStatement: Node, eqStatement: Node, gtStatement: Node,
               eqTargetToken: Token, gtTargetToken: Token)
    returns (ifLTNode: Node)
    ensures IfChain(ifLTNode, whenExpression, ltStatement, eqStatement, gtStatement, eqTargetToken.line,
                    gtTargetToken.line)
    ensures fresh(ifLTNode) && fresh(ifLTNode.children[0]) && fresh(ifLTNode.children[0].children[1])
    ensures var ifEQ := ifLTNode.children[2];
      && fresh(ifEQ) && fresh(ifEQ.children[0])
      && var ifGT := ifEQ.children[2];
      && fresh(ifGT) && fresh(ifGT.children[0])
  {
    var zeroNode := new Node(INTEGER_CONSTANT);
    zeroNode.SetValue(0);
    var lessThan0Node := NewComparison(LT, whenExpression, zeroNode);
    ifLTNode := new Node(ICodeNodeType.IF);
    ifLTNode.AddChild(lessThan0Node);
    ifLTNode.AddChild(ltStatement);
    var ifEQNode := LowerEqual(whenExpression, zeroNode, eqStatement, gtStatement, eqTargetToken, gtTargetToken);
    ifLTNode.AddChild(ifEQNode);
  }
}
