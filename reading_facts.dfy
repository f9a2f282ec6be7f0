/** Facts about listing text of the form "`digits` `words`" ("5 crore", "10 sq ft") as the
    price and area normalisers see it. */
module ReadingFacts {
  import opened Basics
  import opened TextOps
  import opened Records
  import opened Cleaner
  import opened CleanerFacts

  /** Lower-case words separated by single spaces. */
  predicate LowerWords(w: string) {
    w != [] && IsLower(w[0]) && IsLower(w[|w| - 1])
    && (forall k :: 0 <= k < |w| ==> IsLower(w[k]) || w[k] == ' ')
    && forall k :: 0 <= k < |w| - 1 && w[k] == ' ' ==> w[k + 1] != ' '
  }

  /** The characters of "`ds` `w`": the digits, the space, then the word's. */
  lemma {:induction false} ReadingAt(ds: string, w: string)
    ensures |ds + " " + w| == |ds| + 1 + |w|
    ensures forall k :: 0 <= k < |ds| ==> (ds + " " + w)[k] == ds[k]
    ensures (ds + " " + w)[|ds|] == ' '
    ensures forall k :: 0 <= k < |w| ==> (ds + " " + w)[|ds| + 1 + k] == w[k]
    ensures (ds + " " + w)[|ds| + 1..] == w
  {
  }

  /** Every character of "`ds` `w`" is a digit, a lower-case letter or a space. */
  lemma {:induction false} ReadingChars(ds: string, w: string)
    requires AllDigits(ds) && LowerWords(w)
    ensures forall k :: 0 <= k < |ds + " " + w| ==>
      IsDigit((ds + " " + w)[k]) || IsLower((ds + " " + w)[k]) || (ds + " " + w)[k] == ' '
  {
    var s := ds + " " + w;
    ReadingAt(ds, w);
    forall k | 0 <= k < |s| ensures IsDigit(s[k]) || IsLower(s[k]) || s[k] == ' ' {
      if k > |ds| {
        assert s[k] == w[k - |ds| - 1];
      }
    }
  }

  /** "`ds` `w`" has single plain spaces only. */
  lemma {:induction false} ReadingSingleSpaced(ds: string, w: string)
    requires AllDigits(ds) && LowerWords(w)
    ensures SingleSpaced(ds + " " + w)
  {
    var s := ds + " " + w;
    ReadingAt(ds, w);
    ReadingChars(ds, w);
    forall k | 0 <= k < |s| - 1 && IsSpace(s[k]) ensures !IsSpace(s[k + 1]) {
      if k > |ds| {
        assert s[k] == w[k - |ds| - 1] && s[k + 1] == w[k - |ds|];
      } else {
        assert k == |ds| && s[k + 1] == w[0];
      }
    }
  }

  /** A number, a space and lower-case words is left as it is by the clean-up of both
      `normalize_price` and `normalize_area`. */
  lemma {:induction false} CleanReading(ds: string, w: string)
    requires ds != [] && AllDigits(ds) && LowerWords(w)
    ensures Strip(Lower(ds + " " + w)) == ds + " " + w
    ensures PriceClean(ds + " " + w) == ds + " " + w
  {
    ReadingUnchanged(ds + " " + w, ds, w);
  }

  lemma {:induction false} ReadingUnchanged(s: string, ds: string, w: string)
    requires s == ds + " " + w && ds != [] && AllDigits(ds) && LowerWords(w)
    ensures Lower(s) == s && Strip(s) == s && Filter(s, KeepPriceChar) == s && Collapse(s) == s
  {
    ReadingChars(ds, w);
    LowerIdentity(s);
    FilterIdentity(s, KeepPriceChar);
    ReadingAt(ds, w);
    EndsNotSpace(s);
    ReadingSingleSpaced(ds, w);
    CollapseIdentity(s);
  }

  /** Text that starts with a digit and ends with a letter or digit is already stripped. */
  lemma {:induction false} EndsNotSpace(s: string)
    requires s != [] && IsDigit(s[0]) && (IsLetter(s[|s| - 1]) || IsDigit(s[|s| - 1]))
    ensures Strip(s) == s
  {
    StripIdentity(s);
  }

  /** In "`ds` `w`" the number is the digits and the word starts right after the space. */
  lemma {:induction false} NumberThenWord(ds: string, w: string)
    requires ds != [] && AllDigits(ds) && w != [] && !IsSpace(w[0])
    ensures IsDigit((ds + " " + w)[0])
    ensures DecimalAt(ds + " " + w, 0) == Scanned(NatOf(ds) as real, |ds|)
    ensures SpacesEnd(ds + " " + w, |ds|) == |ds| + 1
  {
    var s := ds + " " + w;
    ReadingAt(ds, w);
    RunEndAt(s, 0, |ds|, IsDigit);
    assert s[0..|ds|] == ds;
    RunEndAt(s, |ds|, |ds| + 1, IsSpace);
  }

  /** A character that is neither a digit nor a space nor in the word is not in the
      reading. */
  lemma {:induction false} AbsentFromReading(ds: string, w: string, c: char)
    requires AllDigits(ds) && !IsDigit(c) && c != ' ' && c !in w
    ensures c !in ds + " " + w
  {
    var s := ds + " " + w;
    ReadingAt(ds, w);
    forall k | 0 <= k < |s| ensures s[k] != c {
      if k > |ds| {
        assert s[k] == w[k - |ds| - 1];
      }
    }
  }

  /** A word one of whose characters is missing from the text is not in it. */
  lemma {:induction false} AbsentChar(t: string, w: string, j: nat)
    requires j < |w| && w[j] !in t
    ensures !Contains(t, w)
  {
    forall p: nat ensures !OccursAt(t, w, p) {
      if p + j < |t| {
        assert t[p + j] in t;
      }
      NotAt(t, w, p, j);
    }
    ContainsIff(t, w);
  }

  /** A word whose character `j` differs from the text's is not matched there. */
  lemma {:induction false} NotAt(s: string, w: string, k: nat, j: nat)
    requires j < |w| && (k + j >= |s| || s[k + j] != w[j])
    ensures !OccursAt(s, w, k)
  {
    OccursAtIff(s, w, k);
    if k + |w| <= |s| {
      assert s[k..k + |w|][j] != w[j];
    }
  }

  /** A word that the text spells from `k` on is matched there. */
  lemma {:induction false} SpelledAt(s: string, w: string, k: nat)
    requires k + |w| <= |s| && s[k..k + |w|] == w
    ensures OccursAt(s, w, k)
  {
    OccursAtIff(s, w, k);
  }
}
