/** What `normalize_area` reads back from areas written the way listings write them
    ("5 marla", "1 kanal", "10 sq ft", "1200"). */
module AreaValues {
  import opened Basics
  import opened TextOps
  import opened Records
  import opened Cleaner
  import opened CleanerFacts
  import opened ReadingFacts

  /** The unit spellings of the area pattern written with single spaces, the text the unit
      group matches in each, and the factor to square feet that text is converted with.
      "sq meter" is matched by its prefix "sq m"; the matched text loses its spaces before
      the lookup, and neither "sqm" nor "squarefeet" is a key of the table, so the metre
      spellings and "square feet" get the default factor 1. */
  const UnitSpellings: seq<(string, string, real)> := [
    ("marla", "marla", 272.25), ("kanal", "kanal", 5445.0), ("sq ft", "sq ft", 1.0),
    ("sqft", "sqft", 1.0), ("square feet", "square feet", 1.0), ("sq m", "sq m", 1.0),
    ("sq meter", "sq m", 1.0), ("yard", "yard", 9.0), ("acre", "acre", 43560.0)]

  /** The spellings are lower-case words. */
  lemma {:induction false} SpellingWords(i: nat)
    requires i < |UnitSpellings|
    ensures LowerWords(UnitSpellings[i].0)
  {
  }

  /** The text matched for each spelling, its spaces deleted, is looked up with the factor
      listed beside it. */
  lemma {:induction false} SpellingFactor(i: nat)
    requires i < |UnitSpellings|
    ensures AreaFactor(Delete(UnitSpellings[i].1, ' ')) == UnitSpellings[i].2
  {
    var u := UnitSpellings[i].1;
    UnitFactors();
    if i == 0 {
      assert u == "marla";
      NoSpaceFactor(u, 272.25);
    } else if i == 1 {
      assert u == "kanal";
      NoSpaceFactor(u, 5445.0);
    } else if i == 2 {
      SpacedUnit(u, "sq", "ft", "sqft");
    } else if i == 3 {
      assert u == "sqft";
      NoSpaceFactor(u, 1.0);
    } else if i == 4 {
      SpacedUnit(u, "square", "feet", "squarefeet");
    } else if i == 5 || i == 6 {
      SpacedUnit(u, "sq", "m", "sqm");
    } else if i == 7 {
      assert u == "yard";
      NoSpaceFactor(u, 9.0);
    } else {
      assert u == "acre";
      NoSpaceFactor(u, 43560.0);
    }
  }

  lemma {:induction false} SpacedUnit(u: string, a: string, b: string, joined: string)
    requires u == a + " " + b && ' ' !in a && ' ' !in b && joined == a + b
    ensures Delete(u, ' ') == joined
  {
    DeleteOneSpace(a, b);
  }

  lemma {:induction false} NoSpaceFactor(u: string, f: real)
    requires ' ' !in u && AreaFactor(u) == f
    ensures AreaFactor(Delete(u, ' ')) == f
  {
    DeleteAbsent(u, ' ');
  }

  /** `a\s*b` over "`a` `b`" spans it. */
  lemma {:induction false} SpacedWordsRead(s: string, k: nat, a: string, b: string)
    requires b != [] && !IsSpace(b[0]) && k + |a| + 1 + |b| <= |s|
    requires s[k..k + |a| + 1 + |b|] == a + " " + b
    ensures SpacedWordsAt(s, k, a, b) == Some(a + " " + b)
  {
    var e := k + |a| + 1 + |b|;
    assert s[k..k + |a|] == s[k..e][..|a|] == a;
    SpelledAt(s, a, k);
    assert s[k + |a|] == s[k..e][|a|] == ' ';
    assert s[k + |a| + 1] == s[k..e][|a| + 1] == b[0];
    RunEndAt(s, k + |a|, k + |a| + 1, IsSpace);
    assert s[k + |a| + 1..e] == s[k..e][|a| + 1..] == b;
    SpelledAt(s, b, k + |a| + 1);
  }

  /** `a\s*b` over "`a``b`" (no space) spans it. */
  lemma {:induction false} JoinedWordsRead(s: string, k: nat, a: string, b: string)
    requires b != [] && !IsSpace(b[0]) && k + |a| + |b| <= |s|
    requires s[k..k + |a| + |b|] == a + b
    ensures SpacedWordsAt(s, k, a, b) == Some(a + b)
  {
    var e := k + |a| + |b|;
    assert s[k..k + |a|] == s[k..e][..|a|] == a;
    SpelledAt(s, a, k);
    assert s[k + |a|] == s[k..e][|a|] == b[0];
    RunEndAt(s, k + |a|, k + |a|, IsSpace);
    assert s[k + |a|..e] == s[k..e][|a|..] == b;
    SpelledAt(s, b, k + |a|);
  }

  /** `a\s*b` fails where `a` is followed, after its spaces, by something other than `b`. */
  lemma {:induction false} SpacedWordsMiss(s: string, k: nat, a: string, b: string, m: nat, j: nat)
    requires OccursAt(s, a, k) && k + |a| <= m <= |s|
    requires forall p :: k + |a| <= p < m ==> IsSpace(s[p])
    requires m == |s| || !IsSpace(s[m])
    requires j < |b| && (m + j >= |s| || s[m + j] != b[j])
    ensures SpacedWordsAt(s, k, a, b).None?
  {
    RunEndAt(s, k + |a|, m, IsSpace);
    NotAt(s, b, m, j);
  }

  // ------------------------------------------- the unit group, spelling by spelling

  lemma {:induction false} MarlaRead(s: string, k: nat)
    requires k <= |s| && s[k..] == "marla"
    ensures AreaUnitAt(s, k) == Some("marla")
  {
    SpelledAt(s, "marla", k);
  }

  lemma {:induction false} KanalRead(s: string, k: nat)
    requires k <= |s| && s[k..] == "kanal"
    ensures AreaUnitAt(s, k) == Some("kanal")
  {
    assert s[k] == s[k..][0];
    NotAt(s, "marla", k, 0);
    SpelledAt(s, "kanal", k);
  }

  /** Text from `k` on that starts with "sq" is neither "marla" nor "kanal". */
  lemma {:induction false} SquareStart(s: string, k: nat)
    requires k + 2 <= |s| && s[k] == 's' && s[k + 1] == 'q'
    ensures !OccursAt(s, "marla", k) && !OccursAt(s, "kanal", k) && OccursAt(s, "sq", k)
  {
    NotAt(s, "marla", k, 0);
    NotAt(s, "kanal", k, 0);
    assert s[k..k + 2] == "sq";
    SpelledAt(s, "sq", k);
  }

  lemma {:induction false} SqFtRead(s: string, k: nat, u: string)
    requires u == "sq" + " " + "ft" && k <= |s| && s[k..] == u
    ensures AreaUnitAt(s, k) == Some(u)
  {
    assert s[k] == s[k..][0] && s[k + 1] == s[k..][1];
    SquareStart(s, k);
    SpacedWordsRead(s, k, "sq", "ft");
  }

  lemma {:induction false} SqftRead(s: string, k: nat, u: string)
    requires u == "sq" + "ft" && k <= |s| && s[k..] == u
    ensures AreaUnitAt(s, k) == Some(u)
  {
    assert s[k] == s[k..][0] && s[k + 1] == s[k..][1];
    SquareStart(s, k);
    JoinedWordsRead(s, k, "sq", "ft");
  }

  lemma {:induction false} SquareFeetRead(s: string, k: nat, u: string)
    requires u == "square" + " " + "feet" && k <= |s| && s[k..] == u
    ensures AreaUnitAt(s, k) == Some(u)
  {
    assert s[k] == s[k..][0] && s[k + 1] == s[k..][1] && s[k + 2] == s[k..][2];
    SquareStart(s, k);
    SpacedWordsMiss(s, k, "sq", "ft", k + 2, 0);
    NotAt(s, "sqft", k, 2);
    SpacedWordsRead(s, k, "square", "feet");
  }

  /** "sq m" and everything that starts with it, "sq meter" among them, is matched as
      "sq m". */
  lemma {:induction false} SqMRead(s: string, k: nat, u: string)
    requires u == "sq" + " " + "m" && k + 4 <= |s| && s[k..k + 4] == u
    ensures AreaUnitAt(s, k) == Some(u)
  {
    assert s[k] == s[k..k + 4][0] && s[k + 1] == s[k..k + 4][1];
    assert s[k + 2] == s[k..k + 4][2] && s[k + 3] == s[k..k + 4][3];
    SquareStart(s, k);
    SpacedWordsMiss(s, k, "sq", "ft", k + 3, 0);
    NotAt(s, "sqft", k, 2);
    NotAt(s, "square", k, 2);
    SpacedWordsRead(s, k, "sq", "m");
  }

  /** Text from `k` on that starts with neither "m", "k" nor "s" is matched by none of the
      units before "yard". */
  lemma {:induction false} NotEarlierUnit(s: string, k: nat)
    requires k < |s| && s[k] != 'm' && s[k] != 'k' && s[k] != 's'
    ensures !OccursAt(s, "marla", k) && !OccursAt(s, "kanal", k) && !OccursAt(s, "sq", k)
    ensures !OccursAt(s, "sqft", k) && !OccursAt(s, "square", k)
  {
    NotAt(s, "marla", k, 0);
    NotAt(s, "kanal", k, 0);
    NotAt(s, "sq", k, 0);
    NotAt(s, "sqft", k, 0);
    NotAt(s, "square", k, 0);
  }

  lemma {:induction false} YardRead(s: string, k: nat)
    requires k <= |s| && s[k..] == "yard"
    ensures AreaUnitAt(s, k) == Some("yard")
  {
    assert s[k] == s[k..][0];
    NotEarlierUnit(s, k);
    SpelledAt(s, "yard", k);
  }

  lemma {:induction false} AcreRead(s: string, k: nat)
    requires k <= |s| && s[k..] == "acre"
    ensures AreaUnitAt(s, k) == Some("acre")
  {
    assert s[k] == s[k..][0];
    NotEarlierUnit(s, k);
    NotAt(s, "yard", k, 0);
    SpelledAt(s, "acre", k);
  }

  /** The unit group matched where the text ends with spelling `i`: the text listed for it. */
  lemma {:induction false} UnitRead(s: string, k: nat, i: nat)
    requires i < |UnitSpellings| && k <= |s| && s[k..] == UnitSpellings[i].0
    ensures AreaUnitAt(s, k) == Some(UnitSpellings[i].1)
  {
    if i == 0 {
      MarlaRead(s, k);
    } else if i == 1 {
      KanalRead(s, k);
    } else if i == 2 {
      SqFtRead(s, k, UnitSpellings[i].0);
    } else if i == 3 {
      SqftRead(s, k, UnitSpellings[i].0);
    } else if i == 4 {
      SquareFeetRead(s, k, UnitSpellings[i].0);
    } else if i == 5 || i == 6 {
      assert s[k..k + 4] == s[k..][..4];
      SqMRead(s, k, UnitSpellings[i].1);
    } else if i == 7 {
      YardRead(s, k);
    } else {
      AcreRead(s, k);
    }
  }

  // ------------------------------------------------------- a number and a unit

  /** A number followed by a unit reads as the number times the factor of the text matched:
      "5 marla" is 1361.25 square feet, "1 kanal" 5445, "10 sq ft" 10, "2 acre" 87120, and
      "10 sq meter" 10. `amount` and `factor` name the number and the factor as reals. */
  lemma {:induction false} AreaOfUnit(rt: Runtime, n: nat, i: nat, amount: real, factor: real)
    requires i < |UnitSpellings| && amount == n as real && factor == UnitSpellings[i].2
    ensures NormalizeArea(rt, Str(NatToString(n) + " " + UnitSpellings[i].0)) == Some(amount * factor)
    ensures factor == AreaFactor(Delete(UnitSpellings[i].1, ' '))
  {
    NatToStringRoundTrip(n);
    SpellingFactor(i);
    UnitReading(rt, NatToString(n) + " " + UnitSpellings[i].0, NatToString(n), i, amount, factor);
  }

  /** The reading of digits and a unit is the digits' value times the unit's factor. */
  lemma {:induction false} UnitReading(rt: Runtime, s: string, ds: string, i: nat, amount: real, factor: real)
    requires i < |UnitSpellings| && ds != [] && AllDigits(ds) && NatOf(ds) as real == amount
    requires s == ds + " " + UnitSpellings[i].0 && factor == AreaFactor(Delete(UnitSpellings[i].1, ' '))
    ensures NormalizeArea(rt, Str(s)) == Some(amount * factor)
  {
    ReadingSearched(rt, s, ds, i, amount);
    ConvertedBy(amount, UnitSpellings[i].1, factor);
  }

  /** Converting with the factor of the unit is multiplying by it. */
  lemma {:induction false} ConvertedBy(size: real, unit: string, factor: real)
    requires size >= 0.0 && factor == AreaFactor(Delete(unit, ' '))
    ensures Converted(size, unit) == size * factor
  {
  }

  /** The clean-up leaves a reading as it is, and the pattern matches the number and the
      unit text. */
  lemma {:induction false} ReadingSearched(rt: Runtime, s: string, ds: string, i: nat, amount: real)
    requires i < |UnitSpellings| && ds != [] && AllDigits(ds) && NatOf(ds) as real == amount
    requires s == ds + " " + UnitSpellings[i].0
    ensures amount >= 0.0 && NormalizeArea(rt, Str(s)) == Some(Converted(amount, UnitSpellings[i].1))
  {
    ReadingIsClean(s, ds, i);
    SizedReading(s, ds, i, amount);
    AreaOfSearched(rt, s, s, amount, UnitSpellings[i].1);
  }

  lemma {:induction false} ReadingIsClean(s: string, ds: string, i: nat)
    requires i < |UnitSpellings| && ds != [] && AllDigits(ds) && s == ds + " " + UnitSpellings[i].0
    ensures s != [] && Strip(Lower(s)) == s
  {
    SpellingWords(i);
    CleanReading(ds, UnitSpellings[i].0);
  }

  /** Text whose clean form has a match of the area pattern reads as its size converted. */
  lemma {:induction false} AreaOfSearched(rt: Runtime, s: string, clean: string, size: real, unit: string)
    requires s != [] && Strip(Lower(s)) == clean && SearchArea(clean, 0) == Some((size, unit))
    ensures size >= 0.0 && NormalizeArea(rt, Str(s)) == Some(Converted(size, unit))
  {
  }

  /** The area pattern over a reading: the number before the unit, and the unit text. */
  lemma {:induction false} SizedReading(s: string, ds: string, i: nat, amount: real)
    requires i < |UnitSpellings| && ds != [] && AllDigits(ds) && NatOf(ds) as real == amount
    requires s == ds + " " + UnitSpellings[i].0
    ensures SearchArea(s, 0) == Some((amount, UnitSpellings[i].1))
  {
    var u := UnitSpellings[i].0;
    assert IsDigit(s[0]) && DecimalAt(s, 0).value == amount && SpacesEnd(s, DecimalAt(s, 0).end) == |ds| + 1 by {
      SpellingWords(i);
      NumberThenWord(ds, u);
    }
    assert s[|ds| + 1..] == u by {
      ReadingAt(ds, u);
    }
    UnitRead(s, |ds| + 1, i);
  }

  /** No match of the area pattern starts at a number of `clean`: no unit follows any
      number. */
  predicate NoUnitAfterNumber(clean: string) {
    forall i :: 0 <= i < |clean| && IsDigit(clean[i]) ==> AreaUnitAt(clean, SpacesEnd(clean, DecimalAt(clean, i).end)).None?
  }

  lemma {:induction false} SearchAreaNone(clean: string, i: nat)
    requires NoUnitAfterNumber(clean)
    ensures SearchArea(clean, i).None?
    decreases |clean| - i
  {
    if i < |clean| {
      SearchAreaNone(clean, i + 1);
    }
  }

  /** When no unit follows any number, the area is the first number of the lower-cased,
      stripped text, taken as square feet. */
  lemma {:induction false} AreaNoUnit(rt: Runtime, s: string)
    requires NoUnitAfterNumber(Strip(Lower(s)))
    ensures NormalizeArea(rt, Str(s)) == FirstDecimal(Strip(Lower(s)))
  {
    SearchAreaNone(Strip(Lower(s)), 0);
    if s == [] {
      FirstDecimalNone(Strip(Lower(s)));
    }
  }

  /** Every unit starts with a letter, so none is matched where there is no letter. */
  lemma {:induction false} NoUnitWithoutLetter(s: string, k: nat)
    requires k >= |s| || !IsLetter(s[k])
    ensures AreaUnitAt(s, k).None?
  {
    NotAt(s, "marla", k, 0);
    NotAt(s, "kanal", k, 0);
    NotAt(s, "sq", k, 0);
    NotAt(s, "sqft", k, 0);
    NotAt(s, "square", k, 0);
    NotAt(s, "yard", k, 0);
    NotAt(s, "acre", k, 0);
  }

  /** Text without a letter has no unit after any number. */
  lemma {:induction false} LetterFreeNoUnit(clean: string)
    requires forall k :: 0 <= k < |clean| ==> !IsLetter(clean[k])
    ensures NoUnitAfterNumber(clean)
  {
    forall i | 0 <= i < |clean| && IsDigit(clean[i])
      ensures AreaUnitAt(clean, SpacesEnd(clean, DecimalAt(clean, i).end)).None?
    {
      NoUnitWithoutLetter(clean, SpacesEnd(clean, DecimalAt(clean, i).end));
    }
  }

  /** A bare number reads as itself, in square feet. */
  lemma {:induction false} AreaPlain(rt: Runtime, n: nat)
    ensures NormalizeArea(rt, Str(NatToString(n))).Some?
    ensures NormalizeArea(rt, Str(NatToString(n))).value == n as real
  {
    var ds := NatToString(n);
    LowerIdentity(ds);
    StripIdentity(ds);
    assert Strip(Lower(ds)) == ds;
    LetterFreeNoUnit(ds);
    AreaNoUnit(rt, ds);
    RunEndAt(ds, 0, |ds|, IsDigit);
    assert ds[0..|ds|] == ds;
    NatToStringRoundTrip(n);
  }
}
