/**
 * The Pascal token kinds of PascalTokenType.java. The Java enum lists its
 * constants in three bands -- reserved words, special symbols, then the
 * literal and structural kinds -- and locates the first two bands by ordinal.
 * Here each of the first two bands is a datatype of its own, so that "t is a
 * reserved word" is a constructor test; Ordinal and KindAt give the flat
 * numbering of the Java enum back.
 */
module TokenTypes {
  import opened Wrappers
  import opened Chars

  /** The reserved-word constants AND..LOOP, in declaration order. */
  datatype ReservedWord =
    | AND | ARRAY | BEGIN | CASE | DIV | DO | ELSE | END | FILE | FOR | FUNCTION | IF
    | IN | MOD | NIL | NOT | OF | OR | PACKED | PROCEDURE | PROGRAM | REPEAT | SET
    | THEN | TO | DOWNTO | UNTIL | VAR | WHILE | WITH | WHEN | LESSTHAN0 | EQUAL0
    | GREATERTHAN0 | LOOP

  /** The special-symbol constants PLUS..UP_ARROW, in declaration order. */
  datatype SpecialSymbol =
    | PLUS | MINUS | STAR | SLASH | COLON_EQUALS | DOT | COMMA | SEMICOLON | COLON
    | QUOTE | EQUALS | NOT_EQUALS | LESS_THAN | LESS_EQUALS | GREATER_EQUALS
    | GREATER_THAN | LEFT_PAREN | RIGHT_PAREN | LEFT_BRACKET | RIGHT_BRACKET
    | LEFT_BRACE | RIGHT_BRACE | UP_ARROW

  datatype PascalTokenType =
    | Reserved(word: ReservedWord)
    | Special(symbol: SpecialSymbol)
    | IDENTIFIER | INTEGER | REAL | STRING | COMMENT | ERROR | END_OF_FILE
    // LoopStatementParser expects BAR, which the enum does not declare. It is
    // added after the last declared kind, without a text, so that neither
    // table of TokenTables changes.
    | BAR

  const RESERVED_COUNT: nat := 35
  const SPECIAL_COUNT: nat := 23
  /** Number of kinds, BAR included. */
  const KIND_COUNT: nat := 66

  const FIRST_RESERVED_INDEX: nat := 0  // AND.ordinal()
  const LAST_RESERVED_INDEX: nat := 34  // LOOP.ordinal()
  const FIRST_SPECIAL_INDEX: nat := 35  // PLUS.ordinal()
  const LAST_SPECIAL_INDEX: nat := 57  // UP_ARROW.ordinal()

  /** Position of a reserved word within its band. */
  function ReservedIndex(w: ReservedWord): (r: nat)
    ensures r < RESERVED_COUNT
  {
    match w
    case AND => 0
    case ARRAY => 1
    case BEGIN => 2
    case CASE => 3
    case DIV => 4
    case DO => 5
    case ELSE => 6
    case END => 7
    case FILE => 8
    case FOR => 9
    case FUNCTION => 10
    case IF => 11
    case IN => 12
    case MOD => 13
    case NIL => 14
    case NOT => 15
    case OF => 16
    case OR => 17
    case PACKED => 18
    case PROCEDURE => 19
    case PROGRAM => 20
    case REPEAT => 21
    case SET => 22
    case THEN => 23
    case TO => 24
    case DOWNTO => 25
    case UNTIL => 26
    case VAR => 27
    case WHILE => 28
    case WITH => 29
    case WHEN => 30
    case LESSTHAN0 => 31
    case EQUAL0 => 32
    case GREATERTHAN0 => 33
    case LOOP => 34
  }

  /** Position of a special symbol within its band. */
  function SpecialIndex(s: SpecialSymbol): (r: nat)
    ensures r < SPECIAL_COUNT
  {
    match s
    case PLUS => 0
    case MINUS => 1
    case STAR => 2
    case SLASH => 3
    case COLON_EQUALS => 4
    case DOT => 5
    case COMMA => 6
    case SEMICOLON => 7
    case COLON => 8
    case QUOTE => 9
    case EQUALS => 10
    case NOT_EQUALS => 11
    case LESS_THAN => 12
    case LESS_EQUALS => 13
    case GREATER_EQUALS => 14
    case GREATER_THAN => 15
    case LEFT_PAREN => 16
    case RIGHT_PAREN => 17
    case LEFT_BRACKET => 18
    case RIGHT_BRACKET => 19
    case LEFT_BRACE => 20
    case RIGHT_BRACE => 21
    case UP_ARROW => 22
  }

  /** Enum.ordinal(): the position of a kind in declaration order. */
  function Ordinal(t: PascalTokenType): (r: nat)
    ensures r < KIND_COUNT
  {
    match t
    case Reserved(w) => FIRST_RESERVED_INDEX + ReservedIndex(w)
    case Special(s) => FIRST_SPECIAL_INDEX + SpecialIndex(s)
    case IDENTIFIER => 58
    case INTEGER => 59
    case REAL => 60
    case STRING => 61
    case COMMENT => 62
    case ERROR => 63
    case END_OF_FILE => 64
    case BAR => 65
  }

  /** The j-th reserved word. */
  function ReservedAt(j: nat): ReservedWord
    requires j < RESERVED_COUNT
  {
    match j
    case 0 => AND
    case 1 => ARRAY
    case 2 => BEGIN
    case 3 => CASE
    case 4 => DIV
    case 5 => DO
    case 6 => ELSE
    case 7 => END
    case 8 => FILE
    case 9 => FOR
    case 10 => FUNCTION
    case 11 => IF
    case 12 => IN
    case 13 => MOD
    case 14 => NIL
    case 15 => NOT
    case 16 => OF
    case 17 => OR
    case 18 => PACKED
    case 19 => PROCEDURE
    case 20 => PROGRAM
    case 21 => REPEAT
    case 22 => SET
    case 23 => THEN
    case 24 => TO
    case 25 => DOWNTO
    case 26 => UNTIL
    case 27 => VAR
    case 28 => WHILE
    case 29 => WITH
    case 30 => WHEN
    case 31 => LESSTHAN0
    case 32 => EQUAL0
    case 33 => GREATERTHAN0
    case _ => LOOP
  }

  /** The j-th special symbol. */
  function SpecialAt(j: nat): SpecialSymbol
    requires j < SPECIAL_COUNT
  {
    match j
    case 0 => PLUS
    case 1 => MINUS
    case 2 => STAR
    case 3 => SLASH
    case 4 => COLON_EQUALS
    case 5 => DOT
    case 6 => COMMA
    case 7 => SEMICOLON
    case 8 => COLON
    case 9 => QUOTE
    case 10 => EQUALS
    case 11 => NOT_EQUALS
    case 12 => LESS_THAN
    case 13 => LESS_EQUALS
    case 14 => GREATER_EQUALS
    case 15 => GREATER_THAN
    case 16 => LEFT_PAREN
    case 17 => RIGHT_PAREN
    case 18 => LEFT_BRACKET
    case 19 => RIGHT_BRACKET
    case 20 => LEFT_BRACE
    case 21 => RIGHT_BRACE
    case _ => UP_ARROW
  }

  /** values()[i]: the kind whose ordinal is i. */
  function KindAt(i: nat): PascalTokenType
    requires i < KIND_COUNT
  {
    if i <= LAST_RESERVED_INDEX then Reserved(ReservedAt(i - FIRST_RESERVED_INDEX))
    else if i <= LAST_SPECIAL_INDEX then Special(SpecialAt(i - FIRST_SPECIAL_INDEX))
    else match i
      case 58 => IDENTIFIER
      case 59 => INTEGER
      case 60 => REAL
      case 61 => STRING
      case 62 => COMMENT
      case 63 => ERROR
      case 64 => END_OF_FILE
      case _ => BAR
  }

  /** Enum.name() of a reserved word. */
  function ReservedName(w: ReservedWord): string {
    match w
    case AND => "AND"
    case ARRAY => "ARRAY"
    case BEGIN => "BEGIN"
    case CASE => "CASE"
    case DIV => "DIV"
    case DO => "DO"
    case ELSE => "ELSE"
    case END => "END"
    case FILE => "FILE"
    case FOR => "FOR"
    case FUNCTION => "FUNCTION"
    case IF => "IF"
    case IN => "IN"
    case MOD => "MOD"
    case NIL => "NIL"
    case NOT => "NOT"
    case OF => "OF"
    case OR => "OR"
    case PACKED => "PACKED"
    case PROCEDURE => "PROCEDURE"
    case PROGRAM => "PROGRAM"
    case REPEAT => "REPEAT"
    case SET => "SET"
    case THEN => "THEN"
    case TO => "TO"
    case DOWNTO => "DOWNTO"
    case UNTIL => "UNTIL"
    case VAR => "VAR"
    case WHILE => "WHILE"
    case WITH => "WITH"
    case WHEN => "WHEN"
    case LESSTHAN0 => "LESSTHAN0"
    case EQUAL0 => "EQUAL0"
    case GREATERTHAN0 => "GREATERTHAN0"
    case LOOP => "LOOP"
  }

  /** Enum.name() of a special symbol. */
  function SpecialName(s: SpecialSymbol): string {
    match s
    case PLUS => "PLUS"
    case MINUS => "MINUS"
    case STAR => "STAR"
    case SLASH => "SLASH"
    case COLON_EQUALS => "COLON_EQUALS"
    case DOT => "DOT"
    case COMMA => "COMMA"
    case SEMICOLON => "SEMICOLON"
    case COLON => "COLON"
    case QUOTE => "QUOTE"
    case EQUALS => "EQUALS"
    case NOT_EQUALS => "NOT_EQUALS"
    case LESS_THAN => "LESS_THAN"
    case LESS_EQUALS => "LESS_EQUALS"
    case GREATER_EQUALS => "GREATER_EQUALS"
    case GREATER_THAN => "GREATER_THAN"
    case LEFT_PAREN => "LEFT_PAREN"
    case RIGHT_PAREN => "RIGHT_PAREN"
    case LEFT_BRACKET => "LEFT_BRACKET"
    case RIGHT_BRACKET => "RIGHT_BRACKET"
    case LEFT_BRACE => "LEFT_BRACE"
    case RIGHT_BRACE => "RIGHT_BRACE"
    case UP_ARROW => "UP_ARROW"
  }

  /** Enum.name(), which is also toString() for this enum. */
  function Name(t: PascalTokenType): string {
    match t
    case Reserved(w) => ReservedName(w)
    case Special(s) => SpecialName(s)
    case IDENTIFIER => "IDENTIFIER"
    case INTEGER => "INTEGER"
    case REAL => "REAL"
    case STRING => "STRING"
    case COMMENT => "COMMENT"
    case ERROR => "ERROR"
    case END_OF_FILE => "END_OF_FILE"
    case BAR => "BAR"
  }

  /** The argument each special symbol is declared with, PascalTokenType(String text). */
  function SpecialText(s: SpecialSymbol): string {
    match s
    case PLUS => "+"
    case MINUS => "-"
    case STAR => "*"
    case SLASH => "/"
    case COLON_EQUALS => ":="
    case DOT => "."
    case COMMA => ","
    case SEMICOLON => ";"
    case COLON => ":"
    case QUOTE => "'"
    case EQUALS => "="
    case NOT_EQUALS => "><"
    case LESS_THAN => "<"
    case LESS_EQUALS => "<="
    case GREATER_EQUALS => ">="
    case GREATER_THAN => ">"
    case LEFT_PAREN => "("
    case RIGHT_PAREN => ")"
    case LEFT_BRACKET => "["
    case RIGHT_BRACKET => "]"
    case LEFT_BRACE => "{"
    case RIGHT_BRACE => "}"
    case UP_ARROW => "^"
  }

  /**
   * getText(): the text a special symbol is declared with, or, for a kind
   * declared without one, its name in lower case (what the no-argument
   * constructor stores).
   */
  function GetText(t: PascalTokenType): (r: string)
    ensures t.Special? ==> r == SpecialText(t.symbol)
    ensures !t.Special? ==> r == ToLower(Name(t)) && |r| == |Name(t)| && ToLower(r) == r
  {
    match t
    case Special(s) => SpecialText(s)
    case _ => ToLower(Name(t))
  }

  /**
   * Enum.valueOf(name), with None where Java throws IllegalArgumentException.
   * Java looks the name up in a hash map from the constants' names; the
   * model splits its table by first character only so that each case stays
   * small for the prover.
   */
  function ValueOf(name: string): Option<PascalTokenType> {
    if name == [] then None else
    match name[0]
    case 'A' =>
      if name == "AND" then Some(Reserved(AND))
      else if name == "ARRAY" then Some(Reserved(ARRAY))
      else None
    case 'B' =>
      if name == "BEGIN" then Some(Reserved(BEGIN))
      else if name == "BAR" then Some(BAR)
      else None
    case 'C' =>
      if name == "CASE" then Some(Reserved(CASE))
      else if name == "COLON_EQUALS" then Some(Special(COLON_EQUALS))
      else if name == "COMMA" then Some(Special(COMMA))
      else if name == "COLON" then Some(Special(COLON))
      else if name == "COMMENT" then Some(COMMENT)
      else None
    case 'D' =>
      if name == "DIV" then Some(Reserved(DIV))
      else if name == "DO" then Some(Reserved(DO))
      else if name == "DOWNTO" then Some(Reserved(DOWNTO))
      else if name == "DOT" then Some(Special(DOT))
      else None
    case 'E' =>
      if name == "ELSE" then Some(Reserved(ELSE))
      else if name == "END" then Some(Reserved(END))
      else if name == "EQUAL0" then Some(Reserved(EQUAL0))
      else if name == "EQUALS" then Some(Special(EQUALS))
      else if name == "ERROR" then Some(ERROR)
      else if name == "END_OF_FILE" then Some(END_OF_FILE)
      else None
    case 'F' =>
      if name == "FILE" then Some(Reserved(FILE))
      else if name == "FOR" then Some(Reserved(FOR))
      else if name == "FUNCTION" then Some(Reserved(FUNCTION))
      else None
    case 'G' =>
      if name == "GREATERTHAN0" then Some(Reserved(GREATERTHAN0))
      else if name == "GREATER_EQUALS" then Some(Special(GREATER_EQUALS))
      else if name == "GREATER_THAN" then Some(Special(GREATER_THAN))
      else None
    case 'I' =>
      if name == "IF" then Some(Reserved(IF))
      else if name == "IN" then Some(Reserved(IN))
      else if name == "IDENTIFIER" then Some(IDENTIFIER)
      else if name == "INTEGER" then Some(INTEGER)
      else None
    case 'L' =>
      if name == "LESSTHAN0" then Some(Reserved(LESSTHAN0))
      else if name == "LOOP" then Some(Reserved(LOOP))
      else if name == "LESS_THAN" then Some(Special(LESS_THAN))
      else if name == "LESS_EQUALS" then Some(Special(LESS_EQUALS))
      else if name == "LEFT_PAREN" then Some(Special(LEFT_PAREN))
      else if name == "LEFT_BRACKET" then Some(Special(LEFT_BRACKET))
      else if name == "LEFT_BRACE" then Some(Special(LEFT_BRACE))
      else None
    case 'M' =>
      if name == "MOD" then Some(Reserved(MOD))
      else if name == "MINUS" then Some(Special(MINUS))
      else None
    case 'N' =>
      if name == "NIL" then Some(Reserved(NIL))
      else if name == "NOT" then Some(Reserved(NOT))
      else if name == "NOT_EQUALS" then Some(Special(NOT_EQUALS))
      else None
    case 'O' =>
      if name == "OF" then Some(Reserved(OF))
      else if name == "OR" then Some(Reserved(OR))
      else None
    case 'P' =>
      if name == "PACKED" then Some(Reserved(PACKED))
      else if name == "PROCEDURE" then Some(Reserved(PROCEDURE))
      else if name == "PROGRAM" then Some(Reserved(PROGRAM))
      else if name == "PLUS" then Some(Special(PLUS))
      else None
    case 'Q' =>
      if name == "QUOTE" then Some(Special(QUOTE))
      else None
    case 'R' =>
      if name == "REPEAT" then Some(Reserved(REPEAT))
      else if name == "RIGHT_PAREN" then Some(Special(RIGHT_PAREN))
      else if name == "RIGHT_BRACKET" then Some(Special(RIGHT_BRACKET))
      else if name == "RIGHT_BRACE" then Some(Special(RIGHT_BRACE))
      else if name == "REAL" then Some(REAL)
      else None
    case 'S' =>
      if name == "SET" then Some(Reserved(SET))
      else if name == "STAR" then Some(Special(STAR))
      else if name == "SLASH" then Some(Special(SLASH))
      else if name == "SEMICOLON" then Some(Special(SEMICOLON))
      else if name == "STRING" then Some(STRING)
      else None
    case 'T' =>
      if name == "THEN" then Some(Reserved(THEN))
      else if name == "TO" then Some(Reserved(TO))
      else None
    case 'U' =>
      if name == "UNTIL" then Some(Reserved(UNTIL))
      else if name == "UP_ARROW" then Some(Special(UP_ARROW))
      else None
    case 'V' =>
      if name == "VAR" then Some(Reserved(VAR))
      else None
    case 'W' =>
      if name == "WHILE" then Some(Reserved(WHILE))
      else if name == "WITH" then Some(Reserved(WITH))
      else if name == "WHEN" then Some(Reserved(WHEN))
      else None
    case _ => None
  }

  // ----- Facts about single kinds. A proof that runs through every constant of a
  // band is split into groups of about ten constants to keep each one small. -----

  /**
   * FIRST/LAST_RESERVED_INDEX and FIRST/LAST_SPECIAL_INDEX delimit exactly the
   * two bands, and every other kind comes after UP_ARROW.
   */
  lemma OrdinalBands(t: PascalTokenType)
    ensures t.Reserved? <==> FIRST_RESERVED_INDEX <= Ordinal(t) <= LAST_RESERVED_INDEX
    ensures t.Special? <==> FIRST_SPECIAL_INDEX <= Ordinal(t) <= LAST_SPECIAL_INDEX
    ensures !t.Reserved? && !t.Special? <==> LAST_SPECIAL_INDEX < Ordinal(t)
  {
  }

  /** values()[t.ordinal()] == t. */
  lemma KindAtOrdinal(t: PascalTokenType)
    ensures KindAt(Ordinal(t)) == t
  {
    match t
    case Reserved(w) => ReservedAtIndex(w);
    case Special(s) => SpecialAtIndex(s);
    case _ =>
  }

  lemma ReservedAtIndex(w: ReservedWord)
    ensures ReservedAt(ReservedIndex(w)) == w
  {
    if ReservedIndex(w) < 12 {
      ReservedAtIndex0(w);
    } else if ReservedIndex(w) < 24 {
      ReservedAtIndex12(w);
    } else {
      ReservedAtIndex24(w);
    }
  }

  lemma ReservedAtIndex0(w: ReservedWord)
    requires 0 <= ReservedIndex(w) < 12
    ensures ReservedAt(ReservedIndex(w)) == w
  {
  }

  lemma ReservedAtIndex12(w: ReservedWord)
    requires 12 <= ReservedIndex(w) < 24
    ensures ReservedAt(ReservedIndex(w)) == w
  {
  }

  lemma ReservedAtIndex24(w: ReservedWord)
    requires 24 <= ReservedIndex(w) < 35
    ensures ReservedAt(ReservedIndex(w)) == w
  {
  }

  lemma SpecialAtIndex(s: SpecialSymbol)
    ensures SpecialAt(SpecialIndex(s)) == s
  {
  }

  /**
   * A reserved word is named in capitals, digits and '_' only, and valueOf
   * finds it by that name.
   */
  lemma ReservedSpelling(w: ReservedWord)
    ensures IsConstantName(ReservedName(w))
    ensures ValueOf(ReservedName(w)) == Some(Reserved(w))
  {
    if ReservedIndex(w) < 9 {
      ReservedNames0(w);
      ReservedValueOf0(w);
    } else if ReservedIndex(w) < 18 {
      ReservedNames9(w);
      ReservedValueOf9(w);
    } else if ReservedIndex(w) < 27 {
      ReservedNames18(w);
      ReservedValueOf18(w);
    } else {
      ReservedNames27(w);
      ReservedValueOf27(w);
    }
  }

  lemma ReservedNames0(w: ReservedWord)
    requires 0 <= ReservedIndex(w) < 9
    ensures IsConstantName(ReservedName(w))
  {
  }

  lemma ReservedValueOf0(w: ReservedWord)
    requires 0 <= ReservedIndex(w) < 9
    ensures ValueOf(ReservedName(w)) == Some(Reserved(w))
  {
  }

  lemma ReservedNames9(w: ReservedWord)
    requires 9 <= ReservedIndex(w) < 18
    ensures IsConstantName(ReservedName(w))
  {
  }

  lemma ReservedValueOf9(w: ReservedWord)
    requires 9 <= ReservedIndex(w) < 18
    ensures ValueOf(ReservedName(w)) == Some(Reserved(w))
  {
  }

  lemma ReservedNames18(w: ReservedWord)
    requires 18 <= ReservedIndex(w) < 27
    ensures IsConstantName(ReservedName(w))
  {
  }

  lemma ReservedValueOf18(w: ReservedWord)
    requires 18 <= ReservedIndex(w) < 27
    ensures ValueOf(ReservedName(w)) == Some(Reserved(w))
  {
  }

  lemma ReservedNames27(w: ReservedWord)
    requires 27 <= ReservedIndex(w) < 35
    ensures IsConstantName(ReservedName(w))
  {
  }

  lemma ReservedValueOf27(w: ReservedWord)
    requires 27 <= ReservedIndex(w) < 35
    ensures ValueOf(ReservedName(w)) == Some(Reserved(w))
  {
  }

  lemma SpecialValueOf0(s: SpecialSymbol)
    requires SpecialIndex(s) < 12
    ensures ValueOf(SpecialName(s)) == Some(Special(s))
  {
  }

  lemma SpecialValueOf12(s: SpecialSymbol)
    requires 12 <= SpecialIndex(s)
    ensures ValueOf(SpecialName(s)) == Some(Special(s))
  {
  }

  /** valueOf finds each special symbol by its constant name. */
  lemma SpecialValueOf(s: SpecialSymbol)
    ensures ValueOf(SpecialName(s)) == Some(Special(s))
  {
    if SpecialIndex(s) < 12 {
      SpecialValueOf0(s);
    } else {
      SpecialValueOf12(s);
    }
  }

  /** A special symbol's text is one or two characters long, and no two special symbols share one. */
  lemma SpecialSpelling(s: SpecialSymbol, s2: SpecialSymbol)
    ensures 1 <= |SpecialText(s)| <= 2
    ensures SpecialText(s) == SpecialText(s2) ==> s == s2
  {
    SpecialTextLength(s);
    if SpecialText(s) == SpecialText(s2) {
      SpecialTextsDistinct(s, s2);
    }
  }

  lemma SpecialTextLength(s: SpecialSymbol)
    ensures 1 <= |SpecialText(s)| <= 2
  {
  }

  lemma SpecialTextsDistinct(s: SpecialSymbol, s2: SpecialSymbol)
    requires SpecialText(s) == SpecialText(s2)
    ensures s == s2
  {
  }

  /**
   * A literal or structural kind (BAR included) is named in capitals and '_',
   * with at least three characters, and valueOf finds it by that name.
   */
  lemma LiteralSpelling(t: PascalTokenType)
    requires !t.Reserved? && !t.Special?
    ensures IsConstantName(Name(t)) && |Name(t)| >= 3
    ensures ValueOf(Name(t)) == Some(t)
  {
    LiteralNames(t);
    LiteralValueOf(t);
  }

  lemma LiteralNames(t: PascalTokenType)
    requires !t.Reserved? && !t.Special?
    ensures IsConstantName(Name(t)) && |Name(t)| >= 3
  {
  }

  lemma LiteralValueOf(t: PascalTokenType)
    requires !t.Reserved? && !t.Special?
    ensures ValueOf(Name(t)) == Some(t)
  {
  }
}
