/**
 * The two lookup tables that the static blocks of PascalTokenType.java build
 * from the reserved and special bands of the enumeration: RESERVED_WORDS, the
 * set of lower-cased reserved-word texts, and SPECIAL_SYMBOLS, the table from
 * a special symbol's text to its kind.
 */
module TokenTables {
  import opened Wrappers
  import opened Chars
  import opened TokenTypes

  /** values()[i].getText().toLowerCase(), the entry the first static block adds at index i. */
  function ReservedEntry(i: nat): string
    requires FIRST_RESERVED_INDEX <= i <= LAST_RESERVED_INDEX
  {
    ToLower(GetText(KindAt(i)))
  }

  /** values()[i].getText(), the key the second static block puts at index i. */
  function SpecialEntry(i: nat): string
    requires FIRST_SPECIAL_INDEX <= i <= LAST_SPECIAL_INDEX
  {
    GetText(KindAt(i))
  }

  /** RESERVED_WORDS as its static block leaves it: the lower-cased texts of values()[AND..LOOP]. */
  const RESERVED_WORDS: set<string> :=
    set i | FIRST_RESERVED_INDEX <= i <= LAST_RESERVED_INDEX :: ReservedEntry(i)

  /** The keys of SPECIAL_SYMBOLS as its static block leaves them: the texts of values()[PLUS..UP_ARROW]. */
  const SPECIAL_SYMBOL_TEXTS: set<string> :=
    set i | FIRST_SPECIAL_INDEX <= i <= LAST_SPECIAL_INDEX :: SpecialEntry(i)

  /**
   * A constant declared without a text (a reserved word, a literal or
   * structural kind, BAR) has its name in lower case as its text, and
   * lower-casing that text again changes nothing.
   */
  lemma NameTextIsLower(t: PascalTokenType)
    requires !t.Special?
    ensures GetText(t) == ToLower(Name(t))
    ensures ToLower(GetText(t)) == GetText(t)
  {
    LowerOfLower(Name(t));
  }

  /** The entry at index i of the reserved band is the text of the reserved word there. */
  lemma ReservedEntryText(i: nat)
    requires FIRST_RESERVED_INDEX <= i <= LAST_RESERVED_INDEX
    ensures ReservedEntry(i) == GetText(Reserved(ReservedAt(i)))
  {
    assert KindAt(i) == Reserved(ReservedAt(i));
    NameTextIsLower(Reserved(ReservedAt(i)));
  }

  /** Every reserved word is entered at its own ordinal. */
  lemma ReservedTextEntry(w: ReservedWord)
    ensures FIRST_RESERVED_INDEX <= Ordinal(Reserved(w)) <= LAST_RESERVED_INDEX
    ensures ReservedEntry(Ordinal(Reserved(w))) == GetText(Reserved(w))
  {
    OrdinalBands(Reserved(w));
    KindAtOrdinal(Reserved(w));
    NameTextIsLower(Reserved(w));
  }

  /** RESERVED_WORDS holds exactly the texts of the reserved words AND..LOOP. */
  lemma ReservedWordsExactly(s: string)
    ensures s in RESERVED_WORDS <==> exists w :: s == GetText(Reserved(w))
  {
    if s in RESERVED_WORDS {
      var i :| FIRST_RESERVED_INDEX <= i <= LAST_RESERVED_INDEX && s == ReservedEntry(i);
      ReservedEntryText(i);
    }
    if w :| s == GetText(Reserved(w)) {
      ReservedTextEntry(w);
    }
  }

  /**
   * What PascalWordToken relies on: a reserved word's text is in RESERVED_WORDS,
   * and valueOf of that text in upper case gives the reserved word back.
   */
  lemma ReservedWordLookup(w: ReservedWord)
    ensures GetText(Reserved(w)) in RESERVED_WORDS
    ensures ValueOf(ToUpper(GetText(Reserved(w)))) == Some(Reserved(w))
  {
    ReservedWordsExactly(GetText(Reserved(w)));
    ReservedSpelling(w);
    ConstantNameRoundTrip(ReservedName(w));
  }

  /** No two reserved words share a text. */
  lemma ReservedWordsDistinct(w1: ReservedWord, w2: ReservedWord)
    requires GetText(Reserved(w1)) == GetText(Reserved(w2))
    ensures w1 == w2
  {
    ReservedWordLookup(w1);
    ReservedWordLookup(w2);
  }

  /** The keys of SPECIAL_SYMBOLS are exactly the texts of PLUS..UP_ARROW. */
  lemma SpecialSymbolTextsExactly(s: string)
    ensures s in SPECIAL_SYMBOL_TEXTS <==> exists sym :: s == SpecialText(sym)
  {
    if sym :| s == SpecialText(sym) {
      SpecialAtIndex(sym);
      assert s == SpecialEntry(FIRST_SPECIAL_INDEX + SpecialIndex(sym));
    }
  }

  /**
   * The texts of IDENTIFIER..END_OF_FILE (and of BAR) are in neither table: a
   * word spelt "identifier" scans as an identifier, and no text scans as BAR.
   */
  lemma LiteralTextsInNeitherTable(t: PascalTokenType)
    requires !t.Reserved? && !t.Special?
    ensures GetText(t) !in RESERVED_WORDS
    ensures GetText(t) !in SPECIAL_SYMBOL_TEXTS
  {
    LiteralTextNotReserved(t);
    LiteralTextNotSpecial(t);
  }

  lemma LiteralTextNotReserved(t: PascalTokenType)
    requires !t.Reserved? && !t.Special?
    ensures GetText(t) !in RESERVED_WORDS
  {
    if GetText(t) in RESERVED_WORDS {
      ReservedWordsExactly(GetText(t));
      var w :| GetText(t) == GetText(Reserved(w));
      LiteralSpelling(t);
      ReservedSpelling(w);
      ConstantNameRoundTrip(ReservedName(w));
      ConstantNameRoundTrip(Name(t));
      assert false;
    }
  }

  lemma LiteralTextNotSpecial(t: PascalTokenType)
    requires !t.Reserved? && !t.Special?
    ensures GetText(t) !in SPECIAL_SYMBOL_TEXTS
  {
    if GetText(t) in SPECIAL_SYMBOL_TEXTS {
      SpecialSymbolTextsExactly(GetText(t));
      var sym :| GetText(t) == SpecialText(sym);
      LiteralSpelling(t);
      SpecialTextLength(sym);
      assert false;
    }
  }

  /**
   * NOT_EQUALS is declared with the text "><", so the usual Pascal spelling
   * "<>" is not a key of SPECIAL_SYMBOLS.
   */
  lemma NotEqualsSpelling()
    ensures "><" in SPECIAL_SYMBOL_TEXTS
    ensures "<>" !in SPECIAL_SYMBOL_TEXTS
  {
    SpecialSymbolTextsExactly("><");
    assert "><" == SpecialText(NOT_EQUALS);
    SpecialSymbolTextsExactly("<>");
    if "<>" in SPECIAL_SYMBOL_TEXTS {
      var sym :| "<>" == SpecialText(sym);
      NoSymbolSpeltLessGreater(sym);
      assert false;
    }
  }

  lemma NoSymbolSpeltLessGreater(sym: SpecialSymbol)
    ensures SpecialText(sym) != "<>"
  {
  }

  // ----- The static blocks -----

  /** The set a loop over lo..n-1 has built by adding f(i) at each index. */
  function Collected(f: nat --> string, lo: nat, n: nat): set<string>
    requires lo <= n
    requires forall i :: lo <= i < n ==> f.requires(i)
    decreases n - lo
  {
    if n == lo then {} else Collected(f, lo, n - 1) + {f(n - 1)}
  }

  lemma {:induction false} CollectedMembers(f: nat --> string, lo: nat, n: nat, s: string)
    requires lo <= n
    requires forall i :: lo <= i < n ==> f.requires(i)
    ensures s in Collected(f, lo, n) <==> exists i :: lo <= i < n && s == f(i)
    decreases n - lo
  {
    if n > lo {
      CollectedMembers(f, lo, n - 1, s);
    }
  }

  /** Once the first static block has run over the whole band, it has built RESERVED_WORDS. */
  lemma ReservedWordsCollected(n: nat)
    requires n == LAST_RESERVED_INDEX + 1
    ensures Collected(ReservedEntry, FIRST_RESERVED_INDEX, n) == RESERVED_WORDS
  {
    forall s | true
      ensures s in Collected(ReservedEntry, FIRST_RESERVED_INDEX, n) <==> s in RESERVED_WORDS
    {
      CollectedMembers(ReservedEntry, FIRST_RESERVED_INDEX, n, s);
    }
  }

  /** Once the second static block has run over the whole band, its keys are SPECIAL_SYMBOL_TEXTS. */
  lemma SpecialTextsCollected(n: nat)
    requires n == LAST_SPECIAL_INDEX + 1
    ensures Collected(SpecialEntry, FIRST_SPECIAL_INDEX, n) == SPECIAL_SYMBOL_TEXTS
  {
    forall s | true
      ensures s in Collected(SpecialEntry, FIRST_SPECIAL_INDEX, n) <==> s in SPECIAL_SYMBOL_TEXTS
    {
      CollectedMembers(SpecialEntry, FIRST_SPECIAL_INDEX, n, s);
    }
  }

  /** The static block that fills RESERVED_WORDS from values()[FIRST_RESERVED_INDEX..LAST_RESERVED_INDEX]. */
  method BuildReservedWords() returns (words: set<string>)
    ensures words == RESERVED_WORDS
  {
    words := {};
    var i := FIRST_RESERVED_INDEX;
    while i <= LAST_RESERVED_INDEX
      invariant FIRST_RESERVED_INDEX <= i <= LAST_RESERVED_INDEX + 1
      invariant words == Collected(ReservedEntry, FIRST_RESERVED_INDEX, i)
    {
      words := words + {ReservedEntry(i)};
      i := i + 1;
    }
    ReservedWordsCollected(i);
  }

  /**
   * The static block that fills SPECIAL_SYMBOLS from values()[FIRST_SPECIAL_INDEX..LAST_SPECIAL_INDEX]:
   * its keys are the special texts, and each key leads to the special symbol spelt that way.
   */
  method BuildSpecialSymbols() returns (symbols: map<string, PascalTokenType>)
    ensures symbols.Keys == SPECIAL_SYMBOL_TEXTS
    ensures forall s :: s in symbols ==> symbols[s].Special? && GetText(symbols[s]) == s
  {
    symbols := map[];
    var i := FIRST_SPECIAL_INDEX;
    while i <= LAST_SPECIAL_INDEX
      invariant FIRST_SPECIAL_INDEX <= i <= LAST_SPECIAL_INDEX + 1
      invariant symbols.Keys == Collected(SpecialEntry, FIRST_SPECIAL_INDEX, i)
      invariant forall s :: s in symbols ==> symbols[s].Special? && GetText(symbols[s]) == s
    {
      symbols := symbols[SpecialEntry(i) := KindAt(i)];
      i := i + 1;
    }
    SpecialTextsCollected(i);
  }

  /** In a table built that way every special symbol is found under its own text. */
  lemma SpecialSymbolLookup(symbols: map<string, PascalTokenType>, sym: SpecialSymbol)
    requires symbols.Keys == SPECIAL_SYMBOL_TEXTS
    requires forall s :: s in symbols ==> symbols[s].Special? && GetText(symbols[s]) == s
    ensures SpecialText(sym) in symbols && symbols[SpecialText(sym)] == Special(sym)
  {
    SpecialSymbolTextsExactly(SpecialText(sym));
    SpecialSpelling(sym, symbols[SpecialText(sym)].symbol);
  }
}
