/**
 * PascalCommentToken.extract: the scanner for brace comments. It consumes the
 * opening brace, copies the characters up to the closing '}' or the end of
 * the input with every whitespace character turned into a blank, and yields a
 * COMMENT token, or an ERROR token with the code UNEXPECTED_EOF when the input
 * ends first.
 */
module CommentTokens {
  import opened Wrappers
  import opened Chars
  import opened TokenTypes
  import opened PascalErrors
  import opened Sources

  /** The value a token carries: a text, an error code, or none yet. */
  datatype TokenValue = NoValue | TextValue(text: string) | ErrorValue(code: ErrorCode)

  /** The characters that stop the scanning loop. */
  predicate IsCommentEnd(c: char) {
    c == '}' || c == EOF
  }

  /** What the loop stores for a character: a blank for any whitespace, the character itself otherwise. */
  function Blank(c: char): (b: char)
    ensures IsWhitespace(c) ==> b == ' '
    ensures !IsWhitespace(c) ==> b == c
    ensures IsCommentEnd(b) <==> IsCommentEnd(c)
  {
    if IsWhitespace(c) then ' ' else c
  }

  /** The position of the first '}' or EOF from p on. */
  function CommentEnd(s: seq<char>, p: nat): (q: nat)
    requires p <= |s|
    ensures p <= q <= |s|
    ensures forall k :: p <= k < q ==> !IsCommentEnd(s[k])
    ensures IsCommentEnd(CharAt(s, q))
    decreases |s| - p
  {
    if p < |s| && !IsCommentEnd(s[p]) then CommentEnd(s, p + 1) else p
  }

  /** Whether the comment body that starts at p is closed by '}' rather than cut off by EOF. */
  predicate Terminated(s: seq<char>, p: nat)
    requires p <= |s|
  {
    CharAt(s, CommentEnd(s, p)) == '}'
  }

  /**
   * The text the loop collects from p on: one character per source character
   * up to the terminator, in order, with whitespace blanked. It holds neither
   * '}' nor EOF, and no whitespace but the blank.
   */
  function CommentBody(s: seq<char>, p: nat): (r: string)
    requires p <= |s|
    ensures |r| == CommentEnd(s, p) - p
    ensures forall i :: 0 <= i < |r| ==> r[i] == Blank(s[p + i])
    ensures forall i :: 0 <= i < |r| ==> !IsCommentEnd(r[i])
    ensures forall i :: 0 <= i < |r| ==> IsWhitespace(r[i]) ==> r[i] == ' '
  {
    seq(CommentEnd(s, p) - p, i requires 0 <= i < CommentEnd(s, p) - p => Blank(s[p + i]))
  }

  /** A text that can be a comment body: no '}' or EOF, and no whitespace but the blank. */
  predicate IsBody(body: string) {
    forall k :: 0 <= k < |body| ==> !IsCommentEnd(body[k]) && (IsWhitespace(body[k]) ==> body[k] == ' ')
  }

  /** Whatever precedes it, a body followed by '}' is scanned back exactly, as a terminated comment. */
  lemma CommentRoundTrip(prefix: seq<char>, body: string, rest: seq<char>)
    requires IsBody(body)
    ensures CommentEnd(prefix + body + ['}'] + rest, |prefix|) == |prefix| + |body|
    ensures Terminated(prefix + body + ['}'] + rest, |prefix|)
    ensures CommentBody(prefix + body + ['}'] + rest, |prefix|) == body
  {
    CommentEndAfter(prefix, body, ['}'] + rest);
    var s := prefix + body + ['}'] + rest;
    assert s == prefix + body + (['}'] + rest);
  }

  /** A body that runs to the end of the input is cut off: the token is an error and keeps the body. */
  lemma CommentCutOff(prefix: seq<char>, body: string)
    requires IsBody(body)
    ensures CommentEnd(prefix + body, |prefix|) == |prefix + body|
    ensures !Terminated(prefix + body, |prefix|)
    ensures CommentBody(prefix + body, |prefix|) == body
  {
    CommentEndAfter(prefix, body, []);
    assert prefix + body + [] == prefix + body;
  }

  /** Scanning from the start of a body stops at the first '}' or EOF after it. */
  lemma {:induction false} CommentEndAfter(prefix: seq<char>, body: string, rest: seq<char>)
    requires forall k :: 0 <= k < |body| ==> !IsCommentEnd(body[k])
    requires IsCommentEnd(CharAt(rest, 0))
    ensures CommentEnd(prefix + body + rest, |prefix|) == |prefix| + |body|
    decreases |body|
  {
    var s := prefix + body + rest;
    if body == [] {
      assert CharAt(s, |prefix|) == CharAt(rest, 0);
    } else {
      CommentEndAfter(prefix + [body[0]], body[1..], rest);
      assert prefix + [body[0]] + body[1..] + rest == s;
      assert s[|prefix|] == body[0];
    }
  }

  /** A PascalCommentToken: the text, kind and value extract leaves. */
  class CommentToken {
    var text: Option<string>
    var tokenType: Option<PascalTokenType>
    var value: TokenValue

    /** new PascalCommentToken(source): the Token constructor leaves the fields unset, then extracts. */
    constructor(src: Source)
      requires src.Valid()
      modifies src
      ensures src.Valid()
      ensures var p := Advance(src.text, old(src.pos));
        && text == Some(CommentBody(src.text, p))
        && (Terminated(src.text, p) ==>
              tokenType == Some(COMMENT) && value == TextValue(CommentBody(src.text, p))
              && src.pos == CommentEnd(src.text, p) + 1)
        && (!Terminated(src.text, p) ==>
              tokenType == Some(ERROR) && value == ErrorValue(UNEXPECTED_EOF)
              && src.pos == CommentEnd(src.text, p))
    {
      text := None;
      tokenType := None;
      value := NoValue;
      new;
      Extract(src);
    }

    /**
     * extract: consume the opening character, collect the body up to the first
     * '}' or EOF, then consume a closing '}' and yield COMMENT with the body as
     * its value, or yield ERROR with UNEXPECTED_EOF. The text is the body in
     * both cases; the braces are never part of it.
     */
    method Extract(src: Source)
      requires src.Valid()
      modifies this, src
      ensures src.Valid()
      ensures var p := Advance(src.text, old(src.pos));
        && text == Some(CommentBody(src.text, p))
        && (Terminated(src.text, p) ==>
              tokenType == Some(COMMENT) && value == TextValue(CommentBody(src.text, p))
              && src.pos == CommentEnd(src.text, p) + 1)
        && (!Terminated(src.text, p) ==>
              tokenType == Some(ERROR) && value == ErrorValue(UNEXPECTED_EOF)
              && src.pos == CommentEnd(src.text, p))
    {
      var c := src.NextChar();
      var textBuffer, valueBuffer;
      textBuffer, valueBuffer, c := ReadBody(src, c);
      if c == '}' {
        c := src.NextChar();
        tokenType := Some(COMMENT);
        value := TextValue(valueBuffer);
      } else {
        tokenType := Some(ERROR);
        value := ErrorValue(UNEXPECTED_EOF);
      }
      text := Some(textBuffer);
    }
  }

  /**
   * The do-while loop of extract, entered with the character after the opener:
   * both buffers receive the blanked body, and the cursor stops on its terminator.
   */
  method ReadBody(src: Source, c0: char) returns (textBuffer: string, valueBuffer: string, c: char)
    requires src.Valid() && c0 == src.CurrentChar()
    modifies src
    ensures src.Valid()
    ensures src.pos == CommentEnd(src.text, old(src.pos))
    ensures textBuffer == valueBuffer == CommentBody(src.text, old(src.pos))
    ensures c == src.CurrentChar() && IsCommentEnd(c)
  {
    c := c0;
    textBuffer := [];
    valueBuffer := [];
    ghost var first := src.pos;
    // The do-while loop: its body runs once before the condition is first tested.
    while true
      invariant src.Valid() && first <= src.pos <= CommentEnd(src.text, first)
      invariant CommentEnd(src.text, src.pos) == CommentEnd(src.text, first)
      invariant c == src.CurrentChar()
      invariant textBuffer == valueBuffer
      invariant |textBuffer| == src.pos - first
      invariant forall i :: 0 <= i < |textBuffer| ==> textBuffer[i] == Blank(src.text[first + i])
      decreases |src.text| - src.pos
    {
      if IsWhitespace(c) {
        c := ' ';
      }
      if c != '}' && c != EOF {
        textBuffer := textBuffer + [c];
        valueBuffer := valueBuffer + [c];
        c := src.NextChar();
      }
      if !(c != '}' && c != EOF) {
        break;
      }
    }
    assert textBuffer == CommentBody(src.text, first);
  }
}
