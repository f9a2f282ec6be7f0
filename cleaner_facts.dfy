/** What the normaliser's text rules promise: when an amount or a size is found, which
    magnitude word or unit decides it, which category a type falls into, and what the
    contact clean-up leaves. */
module CleanerFacts {
  import opened Basics
  import opened TextOps
  import opened Records
  import opened Cleaner

  // ------------------------------------------------------------------- price

  /** The price clean-up neither loses nor invents a digit. */
  lemma {:induction false} PriceCleanDigits(s: string)
    ensures HasDigit(PriceClean(s)) <==> HasDigit(s)
  {
    var lowered := Lower(s);
    var stripped := Strip(lowered);
    var kept := Filter(stripped, KeepPriceChar);
    LowerDigits(s);
    StripDigits(lowered);
    FilterDigits(stripped, KeepPriceChar);
    CollapseDigits(kept);
  }

  lemma {:induction false} NumberBeforeNeedsDigit(s: string, word: string, i: nat)
    requires !HasDigit(s)
    ensures NumberBefore(s, word, i).None?
    decreases |s| - i
  {
    if i < |s| {
      NumberBeforeNeedsDigit(s, word, i + 1);
    }
  }

  lemma {:induction false} MagnitudeNeedsDigit(clean: string, units: seq<(string, Multiplier)>)
    requires !HasDigit(clean)
    ensures MagnitudeMatch(clean, units).None?
  {
    if units != [] {
      NumberBeforeNeedsDigit(clean, units[0].0, 0);
      MagnitudeNeedsDigit(clean, units[1..]);
    }
  }

  /** `normalize_price` finds an amount in a text exactly when the text holds a digit, and
      the amount is never negative: a '-' is removed with the other symbols. */
  lemma {:induction false} PriceFoundIff(rt: Runtime, s: string)
    ensures NormalizePrice(rt, Str(s)).Some? <==> HasDigit(s)
    ensures NormalizePrice(rt, Str(s)).Some? ==> NormalizePrice(rt, Str(s)).value >= 0.0
  {
    if s != [] {
      PriceOfText(rt, s);
      PriceCleanDigits(s);
      AmountFoundIff(PriceClean(s));
    }
  }

  /** An amount is found in a cleaned text exactly when it holds a digit. */
  lemma {:induction false} AmountFoundIff(clean: string)
    ensures AmountOf(clean).Some? <==> HasDigit(clean)
  {
    DeleteDigits(clean, ',');
    FirstDecimalNone(Delete(clean, ','));
    if !HasDigit(clean) {
      MagnitudeNeedsDigit(clean, PriceUnits);
    }
  }

  /** The magnitude word applies to the cleaned text: it is in the text with a number
      before it. */
  predicate Applies(clean: string, word: string) {
    Contains(clean, word) && NumberBefore(clean, word, 0).Some?
  }

  /** `units[k]` is the first word of the table that applies to the text. */
  predicate FirstApplies(clean: string, units: seq<(string, Multiplier)>, k: nat) {
    k < |units| && Applies(clean, units[k].0) && forall j :: 0 <= j < k ==> !Applies(clean, units[j].0)
  }

  /** Words that do not apply are skipped: the search goes on with the rest of the table. */
  lemma {:induction false} MagnitudeSkip(clean: string, units: seq<(string, Multiplier)>, k: nat)
    requires k <= |units|
    requires forall j :: 0 <= j < k ==> !Applies(clean, units[j].0)
    ensures MagnitudeMatch(clean, units) == MagnitudeMatch(clean, units[k..])
  {
    if k > 0 {
      var rest := units[1..];
      assert forall j :: 0 <= j < k - 1 ==> rest[j] == units[j + 1];
      MagnitudeSkip(clean, rest, k - 1);
      assert rest[k - 1..] == units[k..];
      assert !Applies(clean, units[0].0);
    }
  }

  /** A word at the head of the table that applies is the match. */
  lemma {:induction false} MagnitudeHead(clean: string, units: seq<(string, Multiplier)>)
    requires units != [] && Applies(clean, units[0].0)
    ensures MagnitudeMatch(clean, units) == Some((NumberBefore(clean, units[0].0, 0).value, units[0].1))
  {
  }

  /** With no word applying, there is no scaled amount. */
  lemma {:induction false} MagnitudeNoneApplies(clean: string, units: seq<(string, Multiplier)>)
    requires forall j :: 0 <= j < |units| ==> !Applies(clean, units[j].0)
    ensures MagnitudeMatch(clean, units).None?
  {
    if units != [] {
      assert !Applies(clean, units[0].0);
      assert forall j :: 0 <= j < |units| - 1 ==> units[1..][j] == units[j + 1];
      MagnitudeNoneApplies(clean, units[1..]);
    }
  }

  /** `normalize_price` on a non-empty text is the amount found in its cleaned form. */
  lemma {:induction false} PriceOfText(rt: Runtime, s: string)
    requires s != []
    ensures NormalizePrice(rt, Str(s)) == AmountOf(PriceClean(s))
  {
  }

  /** The magnitude words are tried in table order and the first that is in the cleaned
      text with a number before it scales that number. */
  lemma {:induction false} AmountOfScaled(clean: string, k: nat)
    requires FirstApplies(clean, PriceUnits, k)
    ensures AmountOf(clean) == Some(NumberBefore(clean, PriceUnits[k].0, 0).value * PriceUnits[k].1)
  {
    MagnitudeSkip(clean, PriceUnits, k);
    assert PriceUnits[k..][0] == PriceUnits[k];
    MagnitudeHead(clean, PriceUnits[k..]);
    AmountScaled(clean, NumberBefore(clean, PriceUnits[k].0, 0).value, PriceUnits[k].1);
  }

  lemma {:induction false} AmountScaled(clean: string, amount: real, multiplier: Multiplier)
    requires MagnitudeMatch(clean, PriceUnits) == Some((amount, multiplier))
    ensures AmountOf(clean) == Some(amount * multiplier)
  {
  }

  /** When no magnitude word applies, the amount is the first number of the cleaned text
      with its commas removed, unscaled. */
  lemma {:induction false} AmountOfPlain(clean: string)
    requires forall j :: 0 <= j < |PriceUnits| ==> !Applies(clean, PriceUnits[j].0)
    ensures AmountOf(clean) == FirstDecimal(Delete(clean, ','))
  {
    MagnitudeNoneApplies(clean, PriceUnits);
  }

  /** The multipliers, in the order the words are tried. */
  lemma {:induction false} PriceMultipliers()
    ensures |PriceUnits| == 5
    ensures PriceUnits[0] == ("crore", 10000000.0) && PriceUnits[1] == ("lakh", 100000.0)
    ensures PriceUnits[2] == ("thousand", 1000.0) && PriceUnits[3] == ("k", 1000.0)
    ensures PriceUnits[4] == ("million", 1000000.0)
  {
  }

  // -------------------------------------------------------------------- area

  lemma {:induction false} AreaCleanDigits(s: string)
    ensures HasDigit(Strip(Lower(s))) <==> HasDigit(s)
  {
    LowerDigits(s);
    StripDigits(Lower(s));
  }

  lemma {:induction false} SearchAreaNeedsDigit(s: string, i: nat)
    requires !HasDigit(s)
    ensures SearchArea(s, i).None?
    decreases |s| - i
  {
    if i < |s| {
      SearchAreaNeedsDigit(s, i + 1);
    }
  }

  /** `normalize_area` finds a size in a text exactly when the text holds a digit. */
  lemma {:induction false} AreaFoundIff(rt: Runtime, s: string)
    ensures NormalizeArea(rt, Str(s)).Some? <==> HasDigit(s)
  {
    if s != [] {
      var clean := Strip(Lower(s));
      AreaCleanDigits(s);
      FirstDecimalNone(clean);
      if !HasDigit(clean) {
        SearchAreaNeedsDigit(clean, 0);
      }
    }
  }

  /** The factor each unit gets once its spaces are deleted: "sqm" and "sqmeter" are not
      keys of the table, so square metres are taken as square feet; "squarefeet" is also
      missing, but its default factor 1 is right. */
  lemma {:induction false} UnitFactors()
    ensures AreaFactor("marla") == 272.25 && AreaFactor("kanal") == 5445.0
    ensures AreaFactor("sqft") == 1.0 && AreaFactor("squarefeet") == 1.0
    ensures AreaFactor("yard") == 9.0 && AreaFactor("acre") == 43560.0
    ensures AreaConversions["sq m"] == 10.764 && AreaFactor("sqm") == 1.0
    ensures AreaConversions["sq meter"] == 10.764 && AreaFactor("sqmeter") == 1.0
  {
  }

  // ----------------------------------------------------------- property type

  /** Category `k` is the first of `table` with a synonym in `clean`. */
  predicate FirstCategoryIs(clean: string, table: seq<(string, seq<string>)>, k: nat) {
    k < |table| && AnyIn(clean, table[k].1) && forall j :: 0 <= j < k ==> !AnyIn(clean, table[j].1)
  }

  /** The table is searched in order and the first category with a synonym in the text
      wins; with none, there is no category. */
  lemma {:induction false} FirstCategoryWins(clean: string, table: seq<(string, seq<string>)>, k: nat)
    requires FirstCategoryIs(clean, table, k)
    ensures FirstCategory(clean, table) == Some(table[k].0)
  {
    if k > 0 {
      assert !AnyIn(clean, table[0].1);
      assert FirstCategoryIs(clean, table[1..], k - 1);
      FirstCategoryWins(clean, table[1..], k - 1);
    }
  }

  lemma {:induction false} FirstCategoryNone(clean: string, table: seq<(string, seq<string>)>)
    ensures FirstCategory(clean, table).None? <==> forall j :: 0 <= j < |table| ==> !AnyIn(clean, table[j].1)
  {
    if table != [] {
      FirstCategoryNone(clean, table[1..]);
      if forall j :: 0 <= j < |table| - 1 ==> !AnyIn(clean, table[1..][j].1) {
        assert forall j :: 1 <= j < |table| ==> !AnyIn(clean, table[j].1) by {
          forall j | 1 <= j < |table| ensures !AnyIn(clean, table[j].1) {
            assert table[j] == table[1..][j - 1];
          }
        }
      }
    }
  }

  lemma {:induction false} ContainsMiddle(a: string, w: string, b: string)
    ensures Contains(a + w + b, w)
  {
    assert (a + w + b)[|a|..|a| + |w|] == w;
    OccursContains(a + w + b, w, |a|);
  }

  /** Any text containing "house" is a House: the first category's first synonym. */
  lemma {:induction false} HouseWins(rt: Runtime, v: Value)
    requires Truthy(v) && Contains(Strip(Lower(Show(rt, v))), "house")
    ensures StandardizePropertyType(rt, v) == Ok("House")
  {
    var clean := Strip(Lower(Show(rt, v)));
    assert TypeTable[0].1[0] == "house";
    assert AnyIn(clean, TypeTable[0].1);
    assert FirstCategory(clean, TypeTable) == Some("house");
    TitleOfHouse("house");
  }

  lemma {:induction false} TitleOfHouse(w: string)
    requires w == "house"
    ensures Title(w) == "House"
  {
    var t := Title(w);
    assert w[0] == 'h' && w[1] == 'o' && w[2] == 'u' && w[3] == 's' && w[4] == 'e';
    assert t[0] == 'H' && t[1] == 'o' && t[2] == 'u' && t[3] == 's' && t[4] == 'e';
  }

  /** Every synonym of the farmhouse and penthouse categories contains "house", so the table
      never yields them. */
  lemma {:induction false} FarmhouseAndPenthouseUnreachable(clean: string)
    ensures FirstCategory(clean, TypeTable) != Some("farmhouse")
    ensures FirstCategory(clean, TypeTable) != Some("penthouse")
  {
    if AnyIn(clean, TypeTable[4].1) || AnyIn(clean, TypeTable[5].1) {
      HouseBehindFarmAndPent(clean);
    }
    if AnyIn(clean, TypeTable[0].1) {
      assert FirstCategoryIs(clean, TypeTable, 0);
      FirstCategoryWins(clean, TypeTable, 0);
    } else {
      FirstCategoryFacts(clean);
    }
  }

  /** Text naming a farmhouse or penthouse synonym names "house" too. */
  lemma {:induction false} HouseBehindFarmAndPent(clean: string)
    requires AnyIn(clean, TypeTable[4].1) || AnyIn(clean, TypeTable[5].1)
    ensures AnyIn(clean, TypeTable[0].1)
  {
    var syn: string;
    if AnyIn(clean, TypeTable[4].1) {
      var m :| 0 <= m < |TypeTable[4].1| && Contains(clean, TypeTable[4].1[m]);
      syn := TypeTable[4].1[m];
    } else {
      var m :| 0 <= m < |TypeTable[5].1| && Contains(clean, TypeTable[5].1[m]);
      syn := TypeTable[5].1[m];
    }
    SynonymHasHouse(syn);
    ContainsTransitive(clean, syn, "house");
    assert TypeTable[0].1[0] == "house";
  }

  lemma {:induction false} SynonymHasHouse(syn: string)
    requires syn in ["farmhouse", "farm house", "penthouse", "penthouse apartment"]
    ensures Contains(syn, "house")
  {
    if syn == "farmhouse" {
      assert syn == "farm" + "house" + "";
      ContainsMiddle("farm", "house", "");
    } else if syn == "farm house" {
      assert syn == "farm " + "house" + "";
      ContainsMiddle("farm ", "house", "");
    } else if syn == "penthouse" {
      assert syn == "pent" + "house" + "";
      ContainsMiddle("pent", "house", "");
    } else {
      assert syn == "pent" + "house" + " apartment";
      ContainsMiddle("pent", "house", " apartment");
    }
  }

  lemma {:induction false} FirstCategoryFacts(clean: string)
    requires !AnyIn(clean, TypeTable[0].1) && !AnyIn(clean, TypeTable[4].1) && !AnyIn(clean, TypeTable[5].1)
    ensures FirstCategory(clean, TypeTable) != Some("farmhouse")
    ensures FirstCategory(clean, TypeTable) != Some("penthouse")
  {
    var t := TypeTable;
    assert FirstCategory(clean, t) == FirstCategory(clean, t[1..]);
    if !AnyIn(clean, t[1].1) {
      assert FirstCategory(clean, t[1..]) == FirstCategory(clean, t[2..]);
      if !AnyIn(clean, t[2].1) {
        assert FirstCategory(clean, t[2..]) == FirstCategory(clean, t[3..]);
        if !AnyIn(clean, t[3].1) {
          assert FirstCategory(clean, t[3..]) == FirstCategory(clean, t[4..]);
          assert FirstCategory(clean, t[4..]) == FirstCategory(clean, t[5..]);
          assert FirstCategory(clean, t[5..]) == FirstCategory(clean, t[6..]);
        }
      }
    }
  }

  // ----------------------------------------------------------------- contact

  /** The cleaned contact fields: a phone of at least ten digits and '+' signs, present
      exactly when the filtered phone is that long; an e-mail with an '@' and no capital
      letter, present exactly when the e-mail text has an '@'. */
  lemma {:induction false} CleanedContact(rt: Runtime, d: Record, r: Record)
    requires CleanContactInfo(rt, d) == Ok(r)
    ensures PhoneKey in r <==> Has(d, PhoneKey) && |Filter(Show(rt, d[PhoneKey]), IsPhoneChar)| >= 10
    ensures PhoneKey in r ==> r[PhoneKey].Str? && |r[PhoneKey].s| >= 10
                              && forall c :: c in r[PhoneKey].s ==> IsPhoneChar(c)
    ensures EmailKey in r <==> Get(d, EmailKey, Str([])).Str? && '@' in Get(d, EmailKey, Str([])).s
    ensures EmailKey in r ==> r[EmailKey].Str? && '@' in r[EmailKey].s
                              && forall c :: c in r[EmailKey].s ==> !IsUpper(c)
  {
    var email := Get(d, EmailKey, Str([]));
    var text := if email.Str? then email.s else [];
    var phone := Get(d, PhoneKey, Str([]));
    var digits := if Truthy(phone) then Filter(Show(rt, phone), IsPhoneChar) else [];
    var agent := StrippedField(d, AgentKey).value;
    var seller := StrippedField(d, SellerKey).value;
    assert r == ContactRecord(digits, text, agent, seller);
    ContactFields(digits, text, agent, seller);
    LowerStripNoUpper(text);
  }

  /** Each of the four fields is present exactly when its text is non-empty, and then holds
      that text. */
  lemma {:induction false} FourFieldsValues(k1: Field, t1: string, k2: Field, t2: string, k3: Field, t3: string, k4: Field, t4: string)
    requires k1 != k2 && k1 != k3 && k1 != k4 && k2 != k3 && k2 != k4 && k3 != k4
    ensures (k1 in FourFields(k1, t1, k2, t2, k3, t3, k4, t4) <==> t1 != [])
            && (t1 != [] ==> FourFields(k1, t1, k2, t2, k3, t3, k4, t4)[k1] == Str(t1))
    ensures (k2 in FourFields(k1, t1, k2, t2, k3, t3, k4, t4) <==> t2 != [])
            && (t2 != [] ==> FourFields(k1, t1, k2, t2, k3, t3, k4, t4)[k2] == Str(t2))
    ensures (k3 in FourFields(k1, t1, k2, t2, k3, t3, k4, t4) <==> t3 != [])
            && (t3 != [] ==> FourFields(k1, t1, k2, t2, k3, t3, k4, t4)[k3] == Str(t3))
    ensures (k4 in FourFields(k1, t1, k2, t2, k3, t3, k4, t4) <==> t4 != [])
            && (t4 != [] ==> FourFields(k1, t1, k2, t2, k3, t3, k4, t4)[k4] == Str(t4))
  {
  }

  lemma {:induction false} ContactFields(digits: string, email: string, agent: string, seller: string)
    ensures PhoneKey in ContactRecord(digits, email, agent, seller) <==> |digits| >= 10
    ensures |digits| >= 10 ==> ContactRecord(digits, email, agent, seller)[PhoneKey] == Str(digits)
    ensures EmailKey in ContactRecord(digits, email, agent, seller) <==> '@' in email
    ensures '@' in email ==> ContactRecord(digits, email, agent, seller)[EmailKey] == Str(Strip(Lower(email)))
                             && '@' in Strip(Lower(email))
  {
    var e := if '@' in email then Strip(Lower(email)) else [];
    var p := if |digits| >= 10 then digits else [];
    LowerKeeps(email, '@');
    StripKeeps(Lower(email), '@');
    FourFieldsValues(PhoneKey, p, EmailKey, e, AgentKey, Title(agent), SellerKey, Title(seller));
  }
}
