/** Steps of reading back a price written as a number and a magnitude word, or as digits
    with thousands commas. */
module PriceReadings {
  import opened Basics
  import opened TextOps
  import opened Records
  import opened Cleaner
  import opened CleanerFacts
  import opened ReadingFacts

  /** The magnitude words are single lower-case words. */
  lemma {:induction false} MagnitudeWords(j: nat)
    requires j < |PriceUnits|
    ensures LowerWords(PriceUnits[j].0)
  {
  }

  /** The number in front of the word of a reading is found, and is the digits' value. */
  lemma {:induction false} NumberBeforeReading(ds: string, w: string)
    requires ds != [] && AllDigits(ds) && LowerWords(w)
    ensures Applies(ds + " " + w, w)
    ensures NumberBefore(ds + " " + w, w, 0).value == NatOf(ds) as real
  {
    var s := ds + " " + w;
    ReadingAt(ds, w);
    NumberThenWord(ds, w);
    assert s[|ds| + 1..|ds| + 1 + |w|] == w;
    OccursAtIff(s, w, |ds| + 1);
    OccursContains(s, w, |ds| + 1);
  }

  /** No magnitude word listed before word `j` is in its reading. */
  lemma {:induction false} EarlierWordsAbsent(ds: string, j: nat)
    requires AllDigits(ds) && j < |PriceUnits|
    ensures forall i :: 0 <= i < j ==> !Contains(ds + " " + PriceUnits[j].0, PriceUnits[i].0)
  {
    var w := PriceUnits[j].0;
    var s := ds + " " + w;
    if j >= 1 {
      AbsentFromReading(ds, w, 'c');
      AbsentChar(s, PriceUnits[0].0, 0);
    }
    if j == 2 || j == 3 {
      AbsentFromReading(ds, w, 'l');
      AbsentChar(s, PriceUnits[1].0, 0);
    }
    if j == 4 {
      AbsentFromReading(ds, w, 'a');
      AbsentChar(s, PriceUnits[1].0, 1);
    }
    if j >= 3 {
      AbsentFromReading(ds, w, 't');
      AbsentChar(s, PriceUnits[2].0, 0);
    }
    if j == 4 {
      AbsentFromReading(ds, w, 'k');
      AbsentChar(s, PriceUnits[3].0, 0);
    }
  }

  /** The amount of a magnitude reading is the digits' value times the multiplier. */
  lemma {:induction false} AmountOfReading(s: string, ds: string, j: nat, amount: real, multiplier: real)
    requires j < |PriceUnits| && ds != [] && AllDigits(ds) && s == ds + " " + PriceUnits[j].0
    requires NatOf(ds) as real == amount && multiplier == PriceUnits[j].1
    ensures AmountOf(s) == Some(amount * multiplier)
  {
    ReadingApplies(s, ds, j);
    ScaledValue(s, j, amount, multiplier);
  }

  /** The clean-up leaves a magnitude reading as it is. */
  lemma {:induction false} ReadingIsAmount(rt: Runtime, s: string, ds: string, j: nat)
    requires j < |PriceUnits| && ds != [] && AllDigits(ds) && s == ds + " " + PriceUnits[j].0
    ensures NormalizePrice(rt, Str(s)) == AmountOf(s)
  {
    MagnitudeWords(j);
    CleanReading(ds, PriceUnits[j].0);
    PriceOfText(rt, s);
  }

  /** The word of a magnitude reading is the first of the table that applies to it. */
  lemma {:induction false} ReadingApplies(s: string, ds: string, j: nat)
    requires j < |PriceUnits| && ds != [] && AllDigits(ds) && s == ds + " " + PriceUnits[j].0
    ensures FirstApplies(s, PriceUnits, j)
    ensures NumberBefore(s, PriceUnits[j].0, 0).value == NatOf(ds) as real
  {
    MagnitudeWords(j);
    NumberBeforeReading(ds, PriceUnits[j].0);
    EarlierWordsAbsent(ds, j);
  }

  /** The first applicable word scales the number before it. */
  lemma {:induction false} ScaledValue(clean: string, k: nat, amount: real, multiplier: real)
    requires FirstApplies(clean, PriceUnits, k) && NumberBefore(clean, PriceUnits[k].0, 0).value == amount
    requires multiplier == PriceUnits[k].1
    ensures AmountOf(clean) == Some(amount * multiplier)
  {
    AmountOfScaled(clean, k);
  }

  /** No magnitude word applies to digits and commas. */
  lemma {:induction false} NoWordAmongDigits(s: string)
    requires forall k :: 0 <= k < |s| ==> IsDigit(s[k]) || s[k] == ','
    ensures forall i :: 0 <= i < |PriceUnits| ==> !Applies(s, PriceUnits[i].0)
  {
    forall i | 0 <= i < |PriceUnits| ensures !Contains(s, PriceUnits[i].0) {
      var w := PriceUnits[i].0;
      MagnitudeWords(i);
      assert w[0] !in s by {
        assert IsLower(w[0]);
      }
      AbsentChar(s, w, 0);
    }
  }

  /** Digits with thousands commas, as in "1,250,000": a digit first, then digits and
      commas. */
  predicate GroupedDigits(s: string) {
    s != [] && IsDigit(s[0]) && forall k :: 0 <= k < |s| ==> IsDigit(s[k]) || s[k] == ','
  }

  /** Deleting the commas of grouped digits leaves the digits. */
  lemma {:induction false} GroupedDigitsDeleted(s: string)
    requires GroupedDigits(s)
    ensures Delete(s, ',') != [] && AllDigits(Delete(s, ','))
  {
    var d := Delete(s, ',');
    assert d == [s[0]] + Delete(s[1..], ',');
    forall k | 0 <= k < |d| ensures IsDigit(d[k]) {
      DeleteKeeps(s, ',', d[k]);
      assert d[k] in s;
    }
  }

  /** The price clean-up leaves grouped digits as they are. */
  lemma {:induction false} GroupedClean(s: string)
    requires GroupedDigits(s)
    ensures PriceClean(s) == s
  {
    GroupedChars(s);
    LowerIdentity(s);
    StripIdentity(s);
    FilterIdentity(s, KeepPriceChar);
    CollapseIdentity(s);
  }

  /** Grouped digits hold no upper-case letter and no space, and the price clean-up keeps
      each of their characters. */
  lemma {:induction false} GroupedChars(s: string)
    requires GroupedDigits(s)
    ensures forall i :: 0 <= i < |s| ==> !IsUpper(s[i]) && !IsSpace(s[i]) && KeepPriceChar(s[i])
    ensures SingleSpaced(s)
  {
  }

  /** The amount of grouped digits is the number the digits spell once the commas are
      deleted. */
  lemma {:induction false} GroupedAmount(s: string, d: string, amount: real)
    requires GroupedDigits(s) && d == Delete(s, ',') && d != [] && AllDigits(d) && NatOf(d) as real == amount
    ensures AmountOf(s) == Some(amount)
  {
    NoWordAmongDigits(s);
    AmountOfPlain(s);
    DigitsRead(d, amount);
  }

  /** `normalize_price` reads grouped digits as that number. */
  lemma {:induction false} GroupedRead(rt: Runtime, s: string, d: string, amount: real)
    requires GroupedDigits(s) && d == Delete(s, ',') && d != [] && AllDigits(d) && NatOf(d) as real == amount
    ensures NormalizePrice(rt, Str(s)) == Some(amount)
  {
    GroupedClean(s);
    PriceOfText(rt, s);
    GroupedAmount(s, d, amount);
  }

  /** A run of digits is read as the number it spells. */
  lemma {:induction false} DigitsRead(d: string, amount: real)
    requires d != [] && AllDigits(d) && NatOf(d) as real == amount
    ensures FirstDecimal(d) == Some(amount)
  {
    RunEndAt(d, 0, |d|, IsDigit);
    assert d[0..|d|] == d;
  }
}


/** What `normalize_price` reads back from prices written the way listings write them
    ("5 crore", "3 lakh", "1,250,000"). */
module PriceValues {
  import opened Basics
  import opened TextOps
  import opened Records
  import opened Cleaner
  import opened CleanerFacts
  import opened ReadingFacts
  import opened PriceReadings

  /** A number followed by a magnitude word reads as the number times the word's multiplier:
      "5 crore" is 50,000,000, "3 lakh" 300,000, "2 thousand" and "2 k" 2,000, "4 million"
      4,000,000. `amount` and `multiplier` name the number and the word's multiplier as reals. */
  lemma {:induction false} PriceOfMagnitude(rt: Runtime, n: nat, j: nat, amount: real, multiplier: real)
    requires j < |PriceUnits| && amount == n as real && multiplier == PriceUnits[j].1
    ensures NormalizePrice(rt, Str(NatToString(n) + " " + PriceUnits[j].0)) == Some(amount * multiplier)
  {
    NatToStringRoundTrip(n);
    MagnitudeReading(rt, NatToString(n) + " " + PriceUnits[j].0, NatToString(n), j, amount, multiplier);
  }

  /** The reading of digits and a magnitude word is the digits' value times the multiplier. */
  lemma {:induction false} MagnitudeReading(rt: Runtime, s: string, ds: string, j: nat, amount: real, multiplier: real)
    requires j < |PriceUnits| && ds != [] && AllDigits(ds) && NatOf(ds) as real == amount
    requires s == ds + " " + PriceUnits[j].0 && multiplier == PriceUnits[j].1
    ensures NormalizePrice(rt, Str(s)) == Some(amount * multiplier)
  {
    ReadingIsAmount(rt, s, ds, j);
    AmountOfReading(s, ds, j, amount, multiplier);
  }

  /** Digits with thousands commas, as in "1,250,000", read as the number the digits spell
      once the commas are deleted. */
  lemma {:induction false} PriceOfGroupedDigits(rt: Runtime, s: string)
    requires GroupedDigits(s)
    ensures Delete(s, ',') != [] && AllDigits(Delete(s, ','))
    ensures NormalizePrice(rt, Str(s)) == Some(NatOf(Delete(s, ',')) as real)
  {
    GroupedDigitsDeleted(s);
    GroupedRead(rt, s, Delete(s, ','), NatOf(Delete(s, ',')) as real);
  }
}
