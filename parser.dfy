/**
 * The parsing machinery the LOOP and WHEN statement parsers share with every
 * StatementParser: the token stream and its cursor (nextToken, currentToken),
 * panic-mode synchronisation, the error handler's log, setLineNumber, the
 * synchronisation sets built from STMT_START_SET and STMT_FOLLOW_SET, and
 * stand-ins for the assignment, expression and statement sub-parsers.
 */
module Parsing {
  import opened Wrappers
  import opened TokenTypes
  import opened PascalErrors
  import opened ICode

  /** A scanned token: its kind, its text and the source line it starts on. */
  datatype Token = Token(kind: PascalTokenType, text: string, line: int)

  /** One diagnostic the error handler has been given: the token flagged and the code. */
  datatype Flag = Flag(token: Token, code: ErrorCode)

  /** The sub-grammars whose parsers the modelled parsers call. */
  datatype Grammar = ASSIGNMENT | EXPRESSION | STATEMENT

  /**
   * A call of a sub-parser: which one, the cursor before and after it, the
   * node it returned and the errors it flagged.
   */
  datatype SubParse = SubParse(grammar: Grammar, start: nat, end: nat, node: Node, flags: seq<Flag>)

  /** A token stream as the scanner delivers it: it ends with an END_OF_FILE token. */
  predicate WellFormed(tokens: seq<Token>) {
    |tokens| > 0 && tokens[|tokens| - 1].kind == END_OF_FILE
  }

  /** The cursor after nextToken: one token on, except that the final END_OF_FILE token repeats. */
  function Next(tokens: seq<Token>, pos: nat): (q: nat)
    requires pos < |tokens|
    ensures q < |tokens|
    ensures q == pos + 1 || (q == pos && pos == |tokens| - 1)
  {
    if pos < |tokens| - 1 then pos + 1 else pos
  }

  /** Whether synchronize stops at t: its kind is in the set, or it is the end of the file. */
  predicate Stops(t: Token, syncSet: set<PascalTokenType>) {
    t.kind in syncSet || t.kind == END_OF_FILE
  }

  /** Where synchronize leaves the cursor: the first stopping token at or after from. */
  function SyncPoint(tokens: seq<Token>, from: nat, syncSet: set<PascalTokenType>): (r: nat)
    requires WellFormed(tokens) && from < |tokens|
    ensures from <= r < |tokens|
    ensures Stops(tokens[r], syncSet)
    ensures forall k :: from <= k < r ==> !Stops(tokens[k], syncSet)
    decreases |tokens| - from
  {
    if Stops(tokens[from], syncSet) then from else SyncPoint(tokens, from + 1, syncSet)
  }

  /** The cursor after an optional ';': consumed when it is there, left alone otherwise. */
  function AfterSemicolon(tokens: seq<Token>, pos: nat): (q: nat)
    requires pos < |tokens|
  {
    if tokens[pos].kind == Special(SEMICOLON) then Next(tokens, pos) else pos
  }

  /** The cursor after a synchronised marker check: the marker is consumed, anything else is not. */
  function AfterMarker(tokens: seq<Token>, pos: nat, marker: PascalTokenType): (q: nat)
    requires pos < |tokens|
  {
    if tokens[pos].kind == marker then Next(tokens, pos) else pos
  }

  /** What a marker check adds to the error log: nothing for the marker, the code for any other token. */
  function Missing(t: Token, marker: PascalTokenType, code: ErrorCode): (flags: seq<Flag>)
    ensures |flags| <= 1
    ensures flags == [] <==> t.kind == marker
    ensures forall f :: f in flags ==> f == Flag(t, code)
  {
    if t.kind == marker then [] else [Flag(t, code)]
  }

  /**
   * A synchronisation set: STMT_START_SET with the expected marker added and
   * STMT_FOLLOW_SET added to that.
   */
  function SyncSet(start: set<PascalTokenType>, marker: PascalTokenType, follow: set<PascalTokenType>)
    : (r: set<PascalTokenType>)
  {
    start + {marker} + follow
  }

  /**
   * The static blocks that build a synchronisation set: clone STMT_START_SET,
   * add the marker, add all of STMT_FOLLOW_SET.
   */
  method BuildSyncSet(start: set<PascalTokenType>, marker: PascalTokenType, follow: set<PascalTokenType>)
    returns (syncSet: set<PascalTokenType>)
    ensures syncSet == SyncSet(start, marker, follow)
  {
    syncSet := start;
    syncSet := syncSet + {marker};
    syncSet := syncSet + follow;
  }

  /**
   * The kinds synchronising on such a set can stop at: the marker, a token
   * that starts a statement or may follow one, and nothing else.
   */
  lemma SyncSetMembers(start: set<PascalTokenType>, marker: PascalTokenType, follow: set<PascalTokenType>,
                       k: PascalTokenType)
    ensures k in SyncSet(start, marker, follow) <==> k == marker || k in start || k in follow
    ensures start <= SyncSet(start, marker, follow) && follow <= SyncSet(start, marker, follow)
  {
  }

  /** Synchronising again where synchronisation stopped does not move the cursor. */
  lemma SyncPointStable(tokens: seq<Token>, from: nat, syncSet: set<PascalTokenType>)
    requires WellFormed(tokens) && from < |tokens|
    ensures SyncPoint(tokens, SyncPoint(tokens, from, syncSet), syncSet) == SyncPoint(tokens, from, syncSet)
  {
  }

  /** Synchronisation never skips a token of the set: it stops at or before the first one. */
  lemma SyncPointNotPast(tokens: seq<Token>, from: nat, syncSet: set<PascalTokenType>, m: nat)
    requires WellFormed(tokens) && from <= m < |tokens|
    requires tokens[m].kind in syncSet
    ensures SyncPoint(tokens, from, syncSet) <= m
  {
  }

  /**
   * Synchronising on a larger set stops no later: the tokens skipped for a
   * larger set are skipped for a smaller one as well.
   */
  lemma {:induction false} SyncPointMonotone(tokens: seq<Token>, from: nat, small: set<PascalTokenType>,
                                             large: set<PascalTokenType>)
    requires WellFormed(tokens) && from < |tokens|
    requires small <= large
    ensures SyncPoint(tokens, from, large) <= SyncPoint(tokens, from, small)
    decreases |tokens| - from
  {
    if !Stops(tokens[from], large) {
      SyncPointMonotone(tokens, from + 1, small, large);
    }
  }

  /**
   * A marker check after synchronising either finds the marker and moves on
   * past it, or flags exactly one error and leaves the cursor on a token that
   * starts a statement, may follow one, or ends the file.
   */
  lemma MarkerCheck(tokens: seq<Token>, from: nat, start: set<PascalTokenType>, marker: PascalTokenType,
                    follow: set<PascalTokenType>, code: ErrorCode)
    requires WellFormed(tokens) && from < |tokens|
    ensures var at := SyncPoint(tokens, from, SyncSet(start, marker, follow));
      && (tokens[at].kind == marker ==>
            Missing(tokens[at], marker, code) == [] && AfterMarker(tokens, at, marker) == Next(tokens, at))
      && (tokens[at].kind != marker ==>
            && Missing(tokens[at], marker, code) == [Flag(tokens[at], code)]
            && AfterMarker(tokens, at, marker) == at
            && (tokens[at].kind in start || tokens[at].kind in follow || tokens[at].kind == END_OF_FILE))
  {
  }

  /**
   * When the expected marker is the current token, synchronisation stays put,
   * nothing is flagged, and the marker is consumed.
   */
  lemma MarkerFound(tokens: seq<Token>, at: nat, start: set<PascalTokenType>, marker: PascalTokenType,
                    follow: set<PascalTokenType>, code: ErrorCode)
    requires WellFormed(tokens) && at < |tokens| && tokens[at].kind == marker
    ensures SyncPoint(tokens, at, SyncSet(start, marker, follow)) == at
    ensures Missing(tokens[at], marker, code) == []
    ensures AfterMarker(tokens, at, marker) == Next(tokens, at)
  {
    assert marker in SyncSet(start, marker, follow);
  }

  /** Appending two pieces one after the other or both at once gives the same sequence. */
  lemma AppendTwo<T>(s: seq<T>, a: seq<T>, b: seq<T>)
    ensures s + a + b == s + (a + b)
  {
  }

  /**
   * A marker check followed by the sub-parser it guards: synchronise and
   * check the marker, then parse the part of the given grammar from where
   * the check left the cursor.
   */
  method ExpectThenParse(p: Parser, syncSet: set<PascalTokenType>, marker: PascalTokenType, code: ErrorCode,
                         grammar: Grammar)
    returns (node: Node, ghost end: nat, ghost flags: seq<Flag>)
    requires p.Valid()
    modifies p
    ensures p.Valid() && fresh(node) && p.pos == end
    ensures var at := SyncPoint(p.tokens, old(p.pos), syncSet);
      && p.trace == old(p.trace) + [SubParse(grammar, AfterMarker(p.tokens, at, marker), end, node, flags)]
      && p.errors == old(p.errors) + (Missing(p.tokens[at], marker, code) + flags)
  {
    var t := p.Expect(syncSet, marker, code);
    match grammar {
      case ASSIGNMENT => node, flags := p.ParseAssignment();
      case EXPRESSION => node, flags := p.ParseExpression();
      case STATEMENT => node, flags := p.ParseStatement();
    }
    end := p.pos;
    AppendTwo(old(p.errors), Missing(p.tokens[SyncPoint(p.tokens, old(p.pos), syncSet)], marker, code), flags);
  }

  /** setLineNumber: give the node the line of the token. */
  method SetLineNumber(node: Node, t: Token)
    modifies node`line
    ensures node.line == Some(t.line)
  {
    node.SetLine(t.line);
  }

  /**
   * The parser state shared by a statement parser and its sub-parsers: the
   * scanner's token stream and cursor, the statement start and follow sets,
   * and the error handler's log. The ghost trace records each sub-parser call.
   */
  class Parser {
    const tokens: seq<Token>
    const stmtStart: set<PascalTokenType>
    const stmtFollow: set<PascalTokenType>
    var pos: nat
    var errors: seq<Flag>
    ghost var trace: seq<SubParse>

    ghost predicate Valid()
      reads this
    {
      && WellFormed(tokens) && pos < |tokens|
      && forall i :: 0 <= i < |trace| ==> trace[i].start <= trace[i].end < |tokens|
    }

    constructor(tokens: seq<Token>, stmtStart: set<PascalTokenType>, stmtFollow: set<PascalTokenType>)
      requires WellFormed(tokens)
      ensures Valid()
      ensures this.tokens == tokens && this.stmtStart == stmtStart && this.stmtFollow == stmtFollow
      ensures pos == 0 && errors == [] && trace == []
    {
      this.tokens := tokens;
      this.stmtStart := stmtStart;
      this.stmtFollow := stmtFollow;
      pos := 0;
      errors := [];
      trace := [];
    }

    /** currentToken: the token under the cursor, which is END_OF_FILE once the stream is used up. */
    function CurrentToken(): (t: Token)
      requires Valid()
      reads this
      ensures t == tokens[pos]
      ensures pos == |tokens| - 1 ==> t.kind == END_OF_FILE
    {
      tokens[pos]
    }

    /** nextToken: consume the current token and return the one after it. */
    method NextToken() returns (t: Token)
      requires Valid()
      modifies this
      ensures Valid()
      ensures pos == Next(tokens, old(pos)) && t == tokens[pos]
      ensures errors == old(errors) && trace == old(trace)
    {
      pos := Next(tokens, pos);
      t := tokens[pos];
    }

    /** synchronize: skip tokens until one whose kind is in the set, or the end of the file. */
    method Synchronize(syncSet: set<PascalTokenType>) returns (t: Token)
      requires Valid()
      modifies this
      ensures Valid()
      ensures pos == SyncPoint(tokens, old(pos), syncSet) && t == tokens[pos]
      ensures errors == old(errors) && trace == old(trace)
    {
      t := tokens[pos];
      while !(t.kind in syncSet) && t.kind != END_OF_FILE
        invariant Valid() && old(pos) <= pos
        invariant t == tokens[pos]
        invariant SyncPoint(tokens, pos, syncSet) == SyncPoint(tokens, old(pos), syncSet)
        invariant errors == old(errors) && trace == old(trace)
        decreases |tokens| - pos
      {
        t := NextToken();
      }
    }

    /**
     * The check both statement parsers repeat for each expected marker:
     * synchronize on the set, then consume the marker if it is there, or flag
     * the code at the token synchronisation stopped at and consume nothing.
     */
    method Expect(syncSet: set<PascalTokenType>, marker: PascalTokenType, code: ErrorCode)
      returns (t: Token)
      requires Valid()
      modifies this
      ensures Valid()
      ensures var at := SyncPoint(tokens, old(pos), syncSet);
        && pos == AfterMarker(tokens, at, marker)
        && errors == old(errors) + Missing(tokens[at], marker, code)
      ensures t == tokens[pos] && trace == old(trace)
    {
      t := Synchronize(syncSet);
      if t.kind == marker {
        t := NextToken();
      } else {
        FlagError(t, code);
      }
    }

    /** The optional ';': consumed when it is the current token. */
    method SkipSemicolon()
      requires Valid()
      modifies this
      ensures Valid()
      ensures pos == AfterSemicolon(tokens, old(pos))
      ensures errors == old(errors) && trace == old(trace)
    {
      var t := CurrentToken();
      if t.kind == Special(SEMICOLON) {
        t := NextToken();
      }
    }

    /** errorHandler.flag: record the token and the code. */
    method FlagError(t: Token, code: ErrorCode)
      modifies this
      ensures errors == old(errors) + [Flag(t, code)]
      ensures pos == old(pos) && trace == old(trace)
    {
      errors := errors + [Flag(t, code)];
    }

    /**
     * AssignmentStatementParser.parse, whose body is not part of this model: it
     * returns a new ASSIGN node, leaves the cursor at or after where it was,
     * and may flag errors of its own, which the trace records. The stand-in
     * consumes nothing and flags nothing.
     */
    method ParseAssignment() returns (node: Node, ghost flags: seq<Flag>)
      requires Valid()
      modifies this
      ensures Valid() && fresh(node) && node.nodeType == ASSIGN
      ensures old(pos) <= pos && errors == old(errors) + flags
      ensures trace == old(trace) + [SubParse(ASSIGNMENT, old(pos), pos, node, flags)]
    {
      node := new Node(ASSIGN);
      flags := [];
      trace := trace + [SubParse(ASSIGNMENT, pos, pos, node, flags)];
    }

    /**
     * ExpressionParser.parse, whose body is not part of this model: it returns a
     * new node, leaves the cursor at or after where it was, and may flag
     * errors of its own, which the trace records.
     */
    method ParseExpression() returns (node: Node, ghost flags: seq<Flag>)
      requires Valid()
      modifies this
      ensures Valid() && fresh(node)
      ensures old(pos) <= pos && errors == old(errors) + flags
      ensures trace == old(trace) + [SubParse(EXPRESSION, old(pos), pos, node, flags)]
    {
      node := new Node(VARIABLE);
      flags := [];
      trace := trace + [SubParse(EXPRESSION, pos, pos, node, flags)];
    }

    /**
     * StatementParser.parse, whose body is not part of this model: it returns a
     * new node, leaves the cursor at or after where it was, and may flag
     * errors of its own, which the trace records.
     */
    method ParseStatement() returns (node: Node, ghost flags: seq<Flag>)
      requires Valid()
      modifies this
      ensures Valid() && fresh(node)
      ensures old(pos) <= pos && errors == old(errors) + flags
      ensures trace == old(trace) + [SubParse(STATEMENT, old(pos), pos, node, flags)]
    {
      node := new Node(NO_OP);
      flags := [];
      trace := trace + [SubParse(STATEMENT, pos, pos, node, flags)];
    }
  }
}
