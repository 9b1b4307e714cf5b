/**
 * The character source the Pascal token scanners read from: the program text
 * with a cursor. Reading past the last character yields the EOF sentinel, as
 * Source.currentChar does once the input is exhausted.
 */
module Sources {
  import opened Chars

  /** The character at position p of s, or EOF once p has passed the end. */
  function CharAt(s: seq<char>, p: nat): char {
    if p < |s| then s[p] else EOF
  }

  /** Where the cursor is after consuming the character at p: nextChar does not move past the end. */
  function Advance(s: seq<char>, p: nat): (q: nat)
    requires p <= |s|
    ensures q <= |s|
    ensures p < |s| ==> q == p + 1
    ensures p == |s| ==> q == p
  {
    if p < |s| then p + 1 else p
  }

  class Source {
    const text: seq<char>
    var pos: nat

    ghost predicate Valid()
      reads this
    {
      pos <= |text|
    }

    constructor(text: seq<char>)
      ensures Valid()
      ensures this.text == text && pos == 0
    {
      this.text := text;
      pos := 0;
    }

    /** Source.currentChar: the character under the cursor. */
    function CurrentChar(): (c: char)
      requires Valid()
      reads this
      ensures c == CharAt(text, pos)
    {
      if pos < |text| then text[pos] else EOF
    }

    /** Source.nextChar: consume the current character and return the one after it. */
    method NextChar() returns (c: char)
      requires Valid()
      modifies this
      ensures Valid()
      ensures pos == Advance(text, old(pos))
      ensures c == CharAt(text, pos)
    {
      if pos < |text| {
        pos := pos + 1;
      }
      c := CurrentChar();
    }
  }
}
