/** Homoglyph folding of sector names: the twelve Cyrillic capitals that look
    like Latin capitals are replaced by those Latin capitals, one pass over the
    characters with a lookup in a fixed table per character. */
module Homoglyphs {
  import opened Wrappers
  import opened CharClasses

  /** С Е Т Н У О Р Х А В К М (Cyrillic) ... */
  const CyrillicChars: seq<char> := ['С', 'Е', 'Т', 'Н', 'У', 'О', 'Р', 'Х', 'А', 'В', 'К', 'М']
  /** ... and the Latin letters C E T H Y O P X A B K M they are replaced by, entry for entry. */
  const LatinChars: seq<char> := ['C', 'E', 'T', 'H', 'Y', 'O', 'P', 'X', 'A', 'B', 'K', 'M']

  /** The table lookup of the inner loop, started at entry `j`: the first
      entry that equals `c` gives its replacement. */
  function LookupFrom(c: char, j: nat): (d: char)
    requires j <= |CyrillicChars|
    ensures (forall k :: j <= k < |CyrillicChars| ==> CyrillicChars[k] != c) ==> d == c
    ensures forall k :: j <= k < |CyrillicChars| && CyrillicChars[k] == c ==> d == LatinChars[k]
    decreases |CyrillicChars| - j
  {
    if j == |CyrillicChars| then c
    else if c == CyrillicChars[j] then LatinChars[j]
    else LookupFrom(c, j + 1)
  }

  /** The replacement of one character: a table letter becomes its Latin
      counterpart, every other character stays. */
  function FoldChar(c: char): (d: char)
    ensures c !in CyrillicChars ==> d == c
    ensures forall k :: 0 <= k < |CyrillicChars| && CyrillicChars[k] == c ==> d == LatinChars[k]
  {
    LookupFrom(c, 0)
  }

  /** The folded string, character by character. */
  function Fold(s: string): (r: string)
    ensures |r| == |s|
    ensures forall i :: 0 <= i < |s| ==> r[i] == FoldChar(s[i])
  {
    if s == [] then [] else [FoldChar(s[0])] + Fold(s[1..])
  }

  /** No replacement letter is itself a letter that gets replaced. */
  lemma LatinCharsAreNotFolded()
    ensures forall k :: 0 <= k < |LatinChars| ==> LatinChars[k] !in CyrillicChars
  {
  }

  lemma FoldCharIdempotent(c: char)
    ensures FoldChar(FoldChar(c)) == FoldChar(c)
    ensures FoldChar(c) !in CyrillicChars
  {
    LatinCharsAreNotFolded();
    if c in CyrillicChars {
      var k :| 0 <= k < |CyrillicChars| && CyrillicChars[k] == c;
      assert FoldChar(c) == LatinChars[k];
    }
  }

  /** A character folds to itself or to a Latin capital letter. */
  lemma FoldCharLatinOrSame(c: char)
    ensures FoldChar(c) == c || 'A' <= FoldChar(c) <= 'Z'
  {
    if c in CyrillicChars {
      var k :| 0 <= k < |CyrillicChars| && CyrillicChars[k] == c;
      assert FoldChar(c) == LatinChars[k];
    }
  }

  /** Folding twice is folding once: the output holds no table letter. */
  lemma FoldIdempotent(s: string)
    ensures Fold(Fold(s)) == Fold(s)
    ensures forall i :: 0 <= i < |s| ==> Fold(s)[i] !in CyrillicChars
  {
    forall i | 0 <= i < |s|
      ensures Fold(Fold(s))[i] == Fold(s)[i] && Fold(s)[i] !in CyrillicChars
    {
      FoldCharIdempotent(s[i]);
    }
  }

  /** Folding leaves a string unchanged exactly when it holds no table letter. */
  lemma FoldUnchangedIff(s: string)
    ensures Fold(s) == s <==> forall i :: 0 <= i < |s| ==> s[i] !in CyrillicChars
  {
    if Fold(s) == s {
      forall i | 0 <= i < |s| ensures s[i] !in CyrillicChars {
        FoldCharIdempotent(s[i]);
        assert Fold(s)[i] == FoldChar(s[i]);
      }
    }
  }

  /** A folded capital letter or digit is still a capital letter or digit. */
  lemma FoldCharKeepsUpperOrDigit(c: char)
    requires IsUpperOrDigit(c)
    ensures IsUpperOrDigit(FoldChar(c))
  {
    if c in CyrillicChars {
      var k :| 0 <= k < |CyrillicChars| && CyrillicChars[k] == c;
      assert FoldChar(c) == LatinChars[k];
    }
  }

  /** The replacement loop: copy the string into an array, overwrite every
      table letter in place and report the original string when nothing
      was overwritten. */
  method PerformCyrillicReplacement(input: string) returns (r: string)
    ensures r == Fold(input)
  {
    var chars := new char[|input|](i requires 0 <= i < |input| => input[i]);
    var isModified := false;
    for i := 0 to chars.Length
      invariant forall k :: 0 <= k < i ==> chars[k] == FoldChar(input[k])
      invariant forall k :: i <= k < chars.Length ==> chars[k] == input[k]
      invariant !isModified ==> forall k :: 0 <= k < i ==> chars[k] == input[k]
    {
      var current := chars[i];
      for j := 0 to |CyrillicChars|
        invariant chars[i] == current == input[i]
        invariant forall k :: 0 <= k < j ==> CyrillicChars[k] != current
        invariant forall k :: 0 <= k < i ==> chars[k] == FoldChar(input[k])
        invariant forall k :: i < k < chars.Length ==> chars[k] == input[k]
        invariant !isModified ==> forall k :: 0 <= k < i ==> chars[k] == input[k]
      {
        if current == CyrillicChars[j] {
          chars[i] := LatinChars[j];
          isModified := true;
          break;
        }
      }
    }
    if isModified {
      r := chars[..];
    } else {
      assert input == chars[..];
      r := input;
    }
  }

  /** Folding applied to a nullable string: `null` and the empty string are
      returned as they are, without scanning. */
  method ReplaceCyrillicChars(input: Option<string>) returns (r: Option<string>)
    ensures r.Some? <==> input.Some?
    ensures r.Some? ==> r.value == Fold(input.value)
  {
    if input.Some? && input.value != "" {
      var folded := PerformCyrillicReplacement(input.value);
      r := Some(folded);
    } else {
      r := input;
    }
  }
}
