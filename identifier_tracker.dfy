/**
 * Identifier generation for scale-up: a counter, starting at 51, turned into a two-character
 * identifier whose first character is the index modulo 26 and whose second is the quotient,
 * both counted from 'a'. A C char holds one byte, so the second character wraps modulo 256
 * once the quotient passes 158; nothing bounds the index.
 */
module IdentifierTracking {
  import Expanding

  /** The index a fresh tracker starts from. */
  const FirstSampleIndex: nat := 51

  /** The number of values a char can hold. */
  const CharRange: nat := 256

  /** Below this index the second character does not wrap: 'a' + index / 26 < 256. */
  const UnwrappedIndexBound: nat := 159 * 26

  /** After this many indices the identifiers come round again. */
  const IdentifierPeriod: nat := CharRange * 26

  /** `c += offset` on a one-byte char: the sum wraps modulo 256. */
  function AddToChar(c: char, offset: nat): (sum: char)
    requires c as int < CharRange
    ensures sum as int < CharRange
    ensures c as int + offset < CharRange ==> sum as int == c as int + offset
  {
    ((c as int + offset) % CharRange) as char
  }

  /** The identifier getNewIdentifier returns for the index `index`. */
  function Identifier(index: nat): (identifier: string)
    ensures |identifier| == 2
    ensures Expanding.IsLabelChar(identifier[0])
    ensures identifier[0] as int - 'a' as int == index % 26
  {
    [AddToChar('a', index % 26), AddToChar('a', index / 26)]
  }

  /** Reading an identifier back as a number: first character plus 26 times the second. */
  function DecodeIdentifier(identifier: string): int
    requires |identifier| == 2
  {
    (identifier[0] as int - 'a' as int) + 26 * (identifier[1] as int - 'a' as int)
  }

  /** Below the wrap-around bound, decoding an identifier gives its index back. */
  lemma DecodeIdentifierRoundTrip(index: nat)
    requires index < UnwrappedIndexBound
    ensures DecodeIdentifier(Identifier(index)) == index
  {
    assert index / 26 < 159;
  }

  /** Below the wrap-around bound, different indices get different identifiers. */
  lemma IdentifiersDistinct(i: nat, j: nat)
    requires i < UnwrappedIndexBound && j < UnwrappedIndexBound && i != j
    ensures Identifier(i) != Identifier(j)
  {
    DecodeIdentifierRoundTrip(i);
    DecodeIdentifierRoundTrip(j);
  }

  /** The second character wraps: every identifier comes back IdentifierPeriod indices later. */
  lemma IdentifiersRepeat(index: nat)
    ensures Identifier(index + IdentifierPeriod) == Identifier(index)
  {
    var later := index + IdentifierPeriod;
    assert later % 26 == index % 26 && later / 26 == index / 26 + CharRange;
  }

  /**
   * The second character is a letter exactly when the quotient index / 26, taken modulo the
   * char range, is below 26; within one period that means exactly while index < 26 * 26.
   */
  lemma IdentifierLetters(index: nat)
    ensures Expanding.IsLabelChar(Identifier(index)[1]) <==> index / 26 % CharRange < 26
    ensures index < IdentifierPeriod ==> (Expanding.IsLabelChar(Identifier(index)[1]) <==> index < 26 * 26)
  {
    var q := index / 26;
    var r := q % CharRange;
    assert q == CharRange * (q / CharRange) + r;
    assert ('a' as int + q) % CharRange == ('a' as int + r) % CharRange;
    if r >= CharRange - 'a' as int {
      assert ('a' as int + r) % CharRange == 'a' as int + r - CharRange;
    }
    if index < IdentifierPeriod {
      assert q < CharRange;
    }
  }

  /** The identifier of index 51, the first one a fresh tracker hands out, is "zb". */
  lemma FirstIdentifier()
    ensures Identifier(FirstSampleIndex) == "zb"
  {
    assert FirstSampleIndex % 26 == 25 && FirstSampleIndex / 26 == 1;
  }

  /** Below 26 * 26 an identifier spells the expansion label of the same position. */
  lemma IdentifierIsExpansionLabel(index: nat)
    requires index < Expanding.LabelCount
    ensures Identifier(index) == [Expanding.LabelOf(index).0, Expanding.LabelOf(index).1]
  {
    var letters := Expanding.LabelOf(index);
    Expanding.LabelOfLabelIndex(letters.0, letters.1);
    DecodeIdentifierRoundTrip(index);
  }

  /** Hands out identifiers from a counter that only grows. */
  class IdentifierTracker {
    var currentGraphSampleIndex: nat

    constructor ()
      ensures currentGraphSampleIndex == FirstSampleIndex
    {
      currentGraphSampleIndex := FirstSampleIndex;
    }

    /** getNewIdentifier: the identifier of the current index, then the index moves on by one. */
    method GetNewIdentifier() returns (identifier: string)
      modifies this
      ensures currentGraphSampleIndex == old(currentGraphSampleIndex) + 1
      ensures identifier == Identifier(old(currentGraphSampleIndex))
    {
      var firstIdentifier, secondIdentifier := 'a', 'a';
      firstIdentifier := AddToChar(firstIdentifier, currentGraphSampleIndex % 26);
      secondIdentifier := AddToChar(secondIdentifier, currentGraphSampleIndex / 26);
      currentGraphSampleIndex := currentGraphSampleIndex + 1;
      identifier := [];
      identifier := identifier + [firstIdentifier];
      identifier := identifier + [secondIdentifier];
    }
  }

  /** A fresh tracker's first identifier is "zb". */
  method FirstIdentifierOfFreshTracker() returns (identifier: string)
    ensures identifier == "zb"
  {
    var tracker := new IdentifierTracker();
    identifier := tracker.GetNewIdentifier();
    FirstIdentifier();
  }
}
