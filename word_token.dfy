/**
 * PascalWordToken.extract: the scanner for identifiers and reserved words.
 * It takes the longest run of letters, digits and underscores under the
 * cursor and classifies it, ignoring case, as a reserved word or an
 * identifier.
 */
module WordTokens {
  import opened Wrappers
  import opened Chars
  import opened TokenTypes
  import opened TokenTables
  import opened Sources

  const UNDERSCORE: char := '_'

  /** The characters the scanning loop accepts. */
  predicate IsWordChar(c: char) {
    IsLetterOrDigit(c) || c == UNDERSCORE
  }

  /** The number of word characters from p on, up to the first character that is not one. */
  function WordRunLength(s: seq<char>, p: nat): (r: nat)
    requires p <= |s|
    ensures p + r <= |s|
    ensures forall k :: p <= k < p + r ==> IsWordChar(s[k])
    ensures !IsWordChar(CharAt(s, p + r))
    decreases |s| - p
  {
    if p < |s| && IsWordChar(s[p]) then 1 + WordRunLength(s, p + 1) else 0
  }

  /** The word that starts at p: the longest run of word characters there. */
  function WordAt(s: seq<char>, p: nat): (w: string)
    requires p <= |s|
  {
    s[p..p + WordRunLength(s, p)]
  }

  /**
   * The kind the scanner gives a word: valueOf of the upper-cased text when the
   * lower-cased text is a reserved word, IDENTIFIER otherwise. valueOf finding
   * no constant (an exception in the scanner) is None.
   */
  function Classify(text: string): (r: Option<PascalTokenType>)
    ensures r.Some? && (r.value.Reserved? || r.value == IDENTIFIER)
    ensures r.value == IDENTIFIER <==> ToLower(text) !in RESERVED_WORDS
    ensures r.value.Reserved? ==> GetText(r.value) == ToLower(text)
  {
    if ToLower(text) in RESERVED_WORDS then
      ReservedTextLookup(text);
      ValueOf(ToUpper(text))
    else
      Some(IDENTIFIER)
  }

  /**
   * A text whose lower-case form is in RESERVED_WORDS names a reserved word
   * when upper-cased, and that word is spelt as the lower-case form.
   */
  lemma ReservedTextLookup(text: string)
    requires ToLower(text) in RESERVED_WORDS
    ensures ValueOf(ToUpper(text)).Some? && ValueOf(ToUpper(text)).value.Reserved?
    ensures GetText(ValueOf(ToUpper(text)).value) == ToLower(text)
  {
    ReservedWordsExactly(ToLower(text));
    var w :| ToLower(text) == GetText(Reserved(w));
    ReservedWordLookup(w);
    UpperOfLower(text);
  }

  /** The scanned word is a maximal run: every character is a word character, the next is not. */
  lemma WordAtMaximal(s: seq<char>, p: nat)
    requires p <= |s|
    ensures p + |WordAt(s, p)| <= |s|
    ensures forall k :: 0 <= k < |WordAt(s, p)| ==> IsWordChar(WordAt(s, p)[k]) && WordAt(s, p)[k] == s[p + k]
    ensures !IsWordChar(CharAt(s, p + |WordAt(s, p)|))
  {
  }

  /** A word followed by a non-word character is scanned back exactly, whatever precedes it. */
  lemma {:induction false} WordRoundTrip(prefix: seq<char>, word: string, rest: seq<char>)
    requires forall k :: 0 <= k < |word| ==> IsWordChar(word[k])
    requires !IsWordChar(CharAt(rest, 0))
    ensures WordAt(prefix + word + rest, |prefix|) == word
    decreases |word|
  {
    var s := prefix + word + rest;
    if word == [] {
      assert CharAt(s, |prefix|) == CharAt(rest, 0);
    } else {
      WordRoundTrip(prefix + [word[0]], word[1..], rest);
      assert prefix + [word[0]] + word[1..] + rest == s;
      assert s[|prefix|] == word[0];
    }
  }

  /** A text whose lower-case form is a reserved word's text is classified as that reserved word. */
  lemma ClassifyReserved(text: string, w: ReservedWord)
    requires ToLower(text) == GetText(Reserved(w))
    ensures Classify(text) == Some(Reserved(w))
  {
    ReservedWordLookup(w);
    UpperOfLower(text);
  }

  /**
   * Classification is total and exact: a text is classified as the reserved
   * word w iff its lower-case form is w's text, and as IDENTIFIER iff its
   * lower-case form is no reserved word.
   */
  lemma ClassifyExactly(text: string, w: ReservedWord)
    ensures Classify(text).Some?
    ensures Classify(text) == Some(Reserved(w)) <==> ToLower(text) == GetText(Reserved(w))
    ensures Classify(text) == Some(IDENTIFIER) <==> ToLower(text) !in RESERVED_WORDS
    ensures Classify(text).value.Reserved? || Classify(text).value == IDENTIFIER
  {
    ReservedWordsExactly(ToLower(text));
    if ToLower(text) in RESERVED_WORDS {
      var w' :| ToLower(text) == GetText(Reserved(w'));
      ClassifyReserved(text, w');
      if ToLower(text) == GetText(Reserved(w)) {
        ReservedWordsDistinct(w, w');
      }
    }
  }

  /** Classification ignores case: "Loop", "LOOP" and "loop" are all the reserved word LOOP. */
  lemma ClassifyIgnoresCase(text: string)
    ensures Classify(ToUpper(text)) == Classify(text)
    ensures Classify(ToLower(text)) == Classify(text)
  {
    LowerOfUpper(text);
    LowerOfLower(text);
    UpperOfLower(text);
    UpperOfUpper(text);
  }

  /** Every reserved word, spelt in its own text, scans as itself. */
  lemma ReservedTextClassified(w: ReservedWord)
    ensures Classify(GetText(Reserved(w))) == Some(Reserved(w))
  {
    NameTextIsLower(Reserved(w));
    ClassifyReserved(GetText(Reserved(w)), w);
  }

  /** A PascalWordToken: the text and kind extract leaves, None where it leaves the field unset. */
  class WordToken {
    var text: Option<string>
    var tokenType: Option<PascalTokenType>

    /** new PascalWordToken(source): the Token constructor leaves both fields unset, then extracts. */
    constructor(src: Source)
      requires src.Valid()
      modifies src
      ensures src.Valid()
      ensures old(src.CurrentChar()) == UNDERSCORE ==>
        src.pos == old(src.pos) && text == None && tokenType == None
      ensures old(src.CurrentChar()) != UNDERSCORE ==>
        && text == Some(WordAt(src.text, old(src.pos)))
        && src.pos == old(src.pos) + |WordAt(src.text, old(src.pos))|
        && tokenType == Classify(WordAt(src.text, old(src.pos)))
    {
      text := None;
      tokenType := None;
      new;
      Extract(src);
    }

    /**
     * extract: when the current character is not '_', consume the word under the
     * cursor, keep its exact spelling as the text and classify it; when it is
     * '_', consume nothing and leave both fields as they were.
     */
    method Extract(src: Source)
      requires src.Valid()
      modifies this, src
      ensures src.Valid()
      ensures old(src.CurrentChar()) == UNDERSCORE ==>
        src.pos == old(src.pos) && text == old(text) && tokenType == old(tokenType)
      ensures old(src.CurrentChar()) != UNDERSCORE ==>
        && text == Some(WordAt(src.text, old(src.pos)))
        && src.pos == old(src.pos) + |WordAt(src.text, old(src.pos))|
        && tokenType == Classify(WordAt(src.text, old(src.pos)))
    {
      var c := src.CurrentChar();
      if c != UNDERSCORE {
        var buffer;
        buffer, c := ReadWord(src);
        // The loop stops at a character that is neither a letter, a digit nor '_'.
        if c != UNDERSCORE {
          text := Some(buffer);
          tokenType := Classify(buffer);
        }
      }
    }
  }

  /** The scanning loop of extract: append word characters to the buffer until the first other character. */
  method ReadWord(src: Source) returns (buffer: string, c: char)
    requires src.Valid()
    modifies src
    ensures src.Valid()
    ensures buffer == WordAt(src.text, old(src.pos))
    ensures src.pos == old(src.pos) + |buffer|
    ensures c == src.CurrentChar() && !IsWordChar(c)
  {
    buffer := [];
    c := src.CurrentChar();
    ghost var start := src.pos;
    while IsLetterOrDigit(c) || c == UNDERSCORE
      invariant src.Valid() && start <= src.pos
      invariant c == src.CurrentChar()
      invariant buffer == src.text[start..src.pos]
      invariant WordRunLength(src.text, start) == src.pos - start + WordRunLength(src.text, src.pos)
      decreases |src.text| - src.pos
    {
      buffer := buffer + [c];
      c := src.NextChar();
    }
  }
}
