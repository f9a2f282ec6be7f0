/** The pure helpers of the Zameen.com scraper (scrapers/zameen_scraper.py): the search URL
    of a city's listing page, and the parsers for the price, location and details text of a
    listing card. These are independent of the normaliser's parsers and differ from them. */
module ZameenParsing {
  import opened Basics
  import opened TextOps
  import opened Records
  import opened Settings
  import CleanerFacts

  // ---------------------------------------------------------------------- URLs

  /** The first listing page of each city, keyed by lower-case name. */
  const CityUrls: map<string, string> := map[
    "karachi" := "https://www.zameen.com/Homes/Karachi-1-1.html",
    "lahore" := "https://www.zameen.com/Homes/Lahore-5-1.html",
    "islamabad" := "https://www.zameen.com/Homes/Islamabad-2-1.html",
    "rawalpindi" := "https://www.zameen.com/Homes/Rawalpindi-3-1.html",
    "faisalabad" := "https://www.zameen.com/Homes/Faisalabad-17-1.html"
  ]

  /** The first listing page of `city`, matched case-insensitively; any other city gets
      Karachi's. */
  function BaseUrl(city: string): (url: string)
    ensures |url| >= 5
  {
    if Lower(city) in CityUrls then CityUrls[Lower(city)] else CityUrls["karachi"]
  }

  /** `base` with `_<page>` inserted before its last five characters, the `.html`. */
  function PagedUrl(base: string, page: nat): (url: string)
    requires |base| >= 5
  {
    base[..|base| - 5] + "_" + NatToString(page) + base[|base| - 5..]
  }

  /** The URL of listing page `page` of `city`. */
  function CitySearchUrl(city: string, page: int): (url: string) {
    var base := BaseUrl(city);
    if page > 1 then PagedUrl(base, page) else base
  }

  /** A city the table does not know is searched on Karachi's pages. */
  lemma {:induction false} UnknownCityUrl(city: string, karachi: string, page: int)
    requires Lower(city) !in CityUrls && Lower(karachi) == "karachi"
    ensures CitySearchUrl(city, page) == CitySearchUrl(karachi, page)
  {
  }

  /** Distinct pages of one city have distinct URLs, so no page is fetched under another
      page's address. */
  lemma {:induction false} CitySearchUrlInjective(city: string, p: int, q: int)
    requires p >= 1 && q >= 1
    requires CitySearchUrl(city, p) == CitySearchUrl(city, q)
    ensures p == q
  {
    var base := BaseUrl(city);
    var n := |base| - 4;
    if p > 1 && q > 1 {
      var u := PagedUrl(base, p);
      var v := PagedUrl(base, q);
      assert u[n..|u| - 5] == NatToString(p);
      assert v[n..|v| - 5] == NatToString(q);
      NatToStringInjective(p, q);
    }
  }

  // --------------------------------------------------------------------- price

  predicate IsAmountChar(c: char) { IsDigit(c) || c == '.' }
  predicate IsGroupedChar(c: char) { IsDigit(c) || c == ',' }

  /** `float(t)` for a run of digits and points: a number needs a digit and at most one
      point; anything else is a ValueError, None here. */
  function FloatOfRun(t: string): (r: Option<real>)
    ensures r.Some? ==> r.value >= 0.0
  {
    var d := DigitsEnd(t, 0);
    if d == |t| then
      (if t == [] then None else Some(NatOf(t) as real))
    else if t[d] == '.' && AllDigits(t[d + 1..]) && (d > 0 || d + 1 < |t|) then
      Some(NatOf(t[..d]) as real + FractionOf(t[d + 1..]))
    else
      None
  }

  /** `float(re.findall(r'[\d.]+', s)[0])`, or None when there is no run (IndexError) or the
      run is not a number (ValueError). */
  function LeadingAmount(s: string): (r: Option<real>)
    ensures r.Some? ==> r.value >= 0.0
  {
    var i := FirstWhere(s, 0, IsAmountChar);
    if i == |s| then None else FloatOfRun(s[i..RunEnd(s, i, IsAmountChar)])
  }

  lemma {:induction false} DeleteCommasLeavesDigits(t: string)
    requires forall k :: 0 <= k < |t| ==> IsGroupedChar(t[k])
    ensures AllDigits(Delete(t, ','))
  {
    if t != [] {
      DeleteCommasLeavesDigits(t[1..]);
    }
  }

  /** `float(re.findall(r'[\d,]+', s)[0].replace(',', ''))`: None when there is no run, or
      when the first run holds only commas (a ValueError). */
  function GroupedNumber(s: string): (r: Option<real>)
    ensures r.Some? ==> r.value >= 0.0
  {
    var i := FirstWhere(s, 0, IsGroupedChar);
    if i == |s| then None
    else
      var run := s[i..RunEnd(s, i, IsGroupedChar)];
      DeleteCommasLeavesDigits(run);
      var digits := Delete(run, ',');
      if digits == [] then None else Some(NatOf(digits) as real)
  }

  function Scaled(amount: Option<real>, multiplier: real): (r: Option<real>)
    requires multiplier >= 0.0
    requires amount.Some? ==> amount.value >= 0.0
    ensures r.Some? ==> r.value >= 0.0
  {
    match amount
    case Some(x) => Some(x * multiplier)
    case None => None
  }

  /** The listing price in rupees: crore, lakh, and "thousand" or any letter k scale the
      first run of digits and points; otherwise the first run of digits and commas is read
      unscaled. Symbols, the minus sign among them, are removed first. */
  function ParsePrice(text: string): (r: Option<real>)
    ensures r.Some? ==> r.value >= 0.0
  {
    PriceOfClean(Filter(Lower(text), KeepPriceChar))
  }

  /** The price read from the lower-cased text with its symbols removed. */
  function PriceOfClean(clean: string): (r: Option<real>)
    ensures r.Some? ==> r.value >= 0.0
  {
    if Contains(clean, "crore") then Scaled(LeadingAmount(clean), 10000000.0)
    else if Contains(clean, "lakh") then Scaled(LeadingAmount(clean), 100000.0)
    else if Contains(clean, "thousand") || 'k' in clean then Scaled(LeadingAmount(clean), 1000.0)
    else GroupedNumber(clean)
  }

  lemma {:induction false} FloatOfRunNeedsDigit(t: string)
    requires FloatOfRun(t).Some?
    ensures HasDigit(t)
  {
    var d := DigitsEnd(t, 0);
    if d == 0 {
      assert IsDigit(t[1]);
    } else {
      assert IsDigit(t[0]);
    }
  }

  lemma {:induction false} RunDigit(s: string, i: nat, j: nat)
    requires i <= j <= |s| && HasDigit(s[i..j])
    ensures HasDigit(s)
  {
    var k :| 0 <= k < j - i && IsDigit(s[i..j][k]);
    assert IsDigit(s[i + k]);
  }

  lemma {:induction false} LeadingAmountNeedsDigit(s: string)
    requires LeadingAmount(s).Some?
    ensures HasDigit(s)
  {
    var i := FirstWhere(s, 0, IsAmountChar);
    var j := RunEnd(s, i, IsAmountChar);
    FloatOfRunNeedsDigit(s[i..j]);
    RunDigit(s, i, j);
  }

  lemma {:induction false} GroupedNumberNeedsDigit(s: string)
    requires GroupedNumber(s).Some?
    ensures HasDigit(s)
  {
    var i := FirstWhere(s, 0, IsGroupedChar);
    var j := RunEnd(s, i, IsGroupedChar);
    var run := s[i..j];
    DeleteCommasLeavesDigits(run);
    var digits := Delete(run, ',');
    assert digits[0] in run by {
      DeleteKeeps(run, ',', digits[0]);
    }
    assert HasDigit(run);
    RunDigit(s, i, j);
  }

  /** A price is only ever read from text that holds a digit. */
  lemma {:induction false} ParsePriceNeedsDigit(text: string)
    ensures ParsePrice(text).Some? ==> HasDigit(text)
  {
    var clean := Filter(Lower(text), KeepPriceChar);
    if ParsePrice(text).Some? {
      if Contains(clean, "crore") || Contains(clean, "lakh") || Contains(clean, "thousand") || 'k' in clean {
        LeadingAmountNeedsDigit(clean);
      } else {
        GroupedNumberNeedsDigit(clean);
      }
      FilterDigits(Lower(text), KeepPriceChar);
      LowerDigits(text);
    }
  }

  /** The run of characters satisfying `p` that starts at 0 and covers all of `s`. */
  lemma {:induction false} WholeRun(s: string, p: char -> bool)
    requires s != [] && forall k :: 0 <= k < |s| ==> p(s[k])
    ensures FirstWhere(s, 0, p) == 0 && RunEnd(s, 0, p) == |s|
  {
  }

  /** A run of `[\d.]+` or `[\d,]+` that starts at 0 and stops at `|ds|`. */
  lemma {:induction false} RunStopsAt(s: string, ds: string, p: char -> bool)
    requires ds != [] && AllDigits(ds) && |ds| < |s| && s[..|ds|] == ds && !p(s[|ds|])
    requires forall c :: IsDigit(c) ==> p(c)
    ensures FirstWhere(s, 0, p) == 0 && RunEnd(s, 0, p) == |ds|
  {
    assert s[0] == ds[0];
  }

  /** A plain number is read back as itself. */
  lemma {:induction false} ParsePricePlain(n: nat)
    ensures ParsePrice(NatToString(n)) == Some(n as real)
  {
    var ds := NatToString(n);
    assert ParsePrice(ds) == PriceOfClean(ds) by {
      LowerIdentity(ds);
      FilterIdentity(ds, KeepPriceChar);
    }
    assert PriceOfClean(ds) == GroupedNumber(ds) by {
      AbsentFirstChar(ds, "crore", 0);
      AbsentFirstChar(ds, "lakh", 0);
      AbsentFirstChar(ds, "thousand", 0);
    }
    GroupedDigits(ds);
    NatToStringRoundTrip(n);
  }

  /** A run of digits alone is read as its number. */
  lemma {:induction false} GroupedDigits(ds: string)
    requires ds != [] && AllDigits(ds)
    ensures GroupedNumber(ds) == Some(NatOf(ds) as real)
  {
    WholeRun(ds, IsGroupedChar);
    assert ds[0..|ds|] == ds;
    DeleteAbsent(ds, ',');
  }

  /** Text that is already lower-case and free of symbols is read as it stands. */
  lemma {:induction false} AlreadyClean(s: string)
    requires forall k :: 0 <= k < |s| ==> !IsUpper(s[k]) && KeepPriceChar(s[k])
    ensures ParsePrice(s) == PriceOfClean(s)
  {
    LowerIdentity(s);
    FilterIdentity(s, KeepPriceChar);
  }

  /** A leading run of digits that a character outside `[\d.]` ends is read as its number. */
  lemma {:induction false} LeadingDigits(s: string, ds: string)
    requires ds != [] && AllDigits(ds) && |ds| < |s| && s[..|ds|] == ds && !IsAmountChar(s[|ds|])
    ensures LeadingAmount(s) == Some(NatOf(ds) as real)
  {
    RunStopsAt(s, ds, IsAmountChar);
    assert s[0..|ds|] == ds;
  }

  lemma {:induction false} PriceOfLakh(s: string, amount: real)
    requires !Contains(s, "crore") && Contains(s, "lakh") && LeadingAmount(s) == Some(amount)
    ensures PriceOfClean(s) == Some(amount * 100000.0)
  {
  }

  lemma {:induction false} PriceOfCrore(s: string, amount: real)
    requires Contains(s, "crore") && LeadingAmount(s) == Some(amount)
    ensures PriceOfClean(s) == Some(amount * 10000000.0)
  {
  }

  /** `word`, which starts with a space, is found in any text it ends. */
  lemma {:induction false} WordAfter(ds: string, word: string, w: string)
    requires |word| == |w| + 1 && word[1..] == w
    ensures Contains(ds + word, w)
  {
    var s := ds + word;
    assert s[|ds| + 1..|ds| + 1 + |w|] == w;
    OccursContains(s, w, |ds| + 1);
  }

  /** Digits followed by lower-case words are already clean. */
  lemma {:induction false} DigitsAndWordsClean(ds: string, word: string)
    requires AllDigits(ds)
    requires forall k :: 0 <= k < |word| ==> IsLower(word[k]) || word[k] == ' '
    ensures ParsePrice(ds + word) == PriceOfClean(ds + word)
  {
    var s := ds + word;
    forall k | 0 <= k < |s| ensures !IsUpper(s[k]) && KeepPriceChar(s[k]) {
      if k < |ds| { assert s[k] == ds[k]; } else { assert s[k] == word[k - |ds|]; }
    }
    AlreadyClean(s);
  }

  lemma {:induction false} LakhAfterDigits(ds: string, word: string)
    requires ds != [] && AllDigits(ds) && word == " lakh"
    ensures PriceOfClean(ds + word).Some? && PriceOfClean(ds + word).value == NatOf(ds) as real * 100000.0
  {
    var s := ds + word;
    assert s[..|ds|] == ds && s[|ds|] == ' ';
    LeadingDigits(s, ds);
    assert 'c' !in ds by {
      assert forall k :: 0 <= k < |ds| ==> IsDigit(ds[k]);
    }
    assert 'c' !in word;
    AbsentFirstChar(s, "crore", 0);
    WordAfter(ds, word, "lakh");
    PriceOfLakh(s, NatOf(ds) as real);
  }

  lemma {:induction false} CroreAfterDigits(ds: string, word: string)
    requires ds != [] && AllDigits(ds) && word == " crore"
    ensures PriceOfClean(ds + word).Some? && PriceOfClean(ds + word).value == NatOf(ds) as real * 10000000.0
  {
    var s := ds + word;
    assert s[..|ds|] == ds && s[|ds|] == ' ';
    LeadingDigits(s, ds);
    WordAfter(ds, word, "crore");
    PriceOfCrore(s, NatOf(ds) as real);
  }

  /** "`<n>` lakh" reads as n × 100,000. */
  lemma {:induction false} ParsePriceLakh(n: nat, word: string)
    requires word == " lakh"
    ensures ParsePrice(NatToString(n) + word).Some? && ParsePrice(NatToString(n) + word).value == n as real * 100000.0
  {
    DigitsAndWordsClean(NatToString(n), word);
    LakhAfterDigits(NatToString(n), word);
    NatToStringRoundTrip(n);
  }

  /** "`<n>` crore" reads as n × 10,000,000. */
  lemma {:induction false} ParsePriceCrore(n: nat, word: string)
    requires word == " crore"
    ensures ParsePrice(NatToString(n) + word).Some? && ParsePrice(NatToString(n) + word).value == n as real * 10000000.0
  {
    DigitsAndWordsClean(NatToString(n), word);
    CroreAfterDigits(NatToString(n), word);
    NatToStringRoundTrip(n);
  }

  lemma {:induction false} PriceOfThousand(s: string, amount: real)
    requires !Contains(s, "crore") && !Contains(s, "lakh") && 'k' in s && LeadingAmount(s) == Some(amount)
    ensures PriceOfClean(s) == Some(amount * 1000.0)
  {
  }

  lemma {:induction false} KAfterDigits(ds: string, word: string)
    requires ds != [] && AllDigits(ds) && word == "k"
    ensures PriceOfClean(ds + word).Some? && PriceOfClean(ds + word).value == NatOf(ds) as real * 1000.0
  {
    var s := ds + word;
    assert s[..|ds|] == ds && s[|ds|] == 'k';
    LeadingDigits(s, ds);
    assert 'c' !in s && 'l' !in s by {
      assert forall k :: 0 <= k < |ds| ==> IsDigit(ds[k]);
    }
    AbsentFirstChar(s, "crore", 0);
    AbsentFirstChar(s, "lakh", 0);
    PriceOfThousand(s, NatOf(ds) as real);
  }

  /** "`<n>`k" reads as n × 1,000. */
  lemma {:induction false} ParsePriceThousands(n: nat, word: string)
    requires word == "k"
    ensures ParsePrice(NatToString(n) + word).Some? && ParsePrice(NatToString(n) + word).value == n as real * 1000.0
  {
    DigitsAndWordsClean(NatToString(n), word);
    KAfterDigits(NatToString(n), word);
    NatToStringRoundTrip(n);
  }

  // ------------------------------------------------------------------ location

  /** The first of `cities` whose lower-cased name occurs in `low`. */
  function FirstCityIn(low: string, cities: seq<string>): (r: Option<string>)
    ensures r.Some? ==> r.value in cities && Contains(low, Lower(r.value))
    ensures r.None? ==> forall c :: c in cities ==> !Contains(low, Lower(c))
  {
    if cities == [] then None
    else if Contains(low, Lower(cities[0])) then Some(cities[0])
    else FirstCityIn(low, cities[1..])
  }

  /** The earliest city in the list wins, whatever later cities the text also names. */
  lemma {:induction false} FirstCityWins(low: string, cities: seq<string>, k: nat)
    requires k < |cities| && Contains(low, Lower(cities[k]))
    requires forall j :: 0 <= j < k ==> !Contains(low, Lower(cities[j]))
    ensures FirstCityIn(low, cities) == Some(cities[k])
  {
    if k > 0 {
      FirstCityWins(low, cities[1..], k - 1);
    }
  }

  /** The location fields of a card: the city (the first target city the text names, else
      the last comma-separated part), the area and sector from the first and second parts,
      and the full text. */
  function ParseLocation(text: string): (r: Record) {
    LocationAmong(text, TargetCities)
  }

  /** `[part.strip() for part in text.split(',')]` */
  function StrippedParts(text: string): (parts: seq<string>)
    ensures |parts| == |Split(text, ',')|
  {
    var split := Split(text, ',');
    seq(|split|, k requires 0 <= k < |split| => Strip(split[k]))
  }

  /** `ParseLocation` with the list of cities it looks for as a parameter. */
  function LocationAmong(text: string, cities: seq<string>): (r: Record) {
    Located(CityFrom(text, cities), StrippedParts(text), text)
  }

  /** The location dictionary from its city, the stripped parts and the full text. */
  function Located(city: string, parts: seq<string>, text: string): Record {
    var fields := map[CityKey := Str(city), AddressKey := Str(text)];
    if |parts| > 2 then fields[AreaKey := Str(parts[0])][SectorKey := Str(parts[1])]
    else if |parts| > 1 then fields[AreaKey := Str(parts[0])]
    else fields
  }

  /** The city of a location text: the first of `cities` it names, else its last part. */
  function CityFrom(text: string, cities: seq<string>): string {
    var found := FirstCityIn(Lower(text), cities);
    if found.Some? then found.value else LastPart(text)
  }

  /** `split(',')[-1].strip()`: the stripped text after the last comma. */
  function LastPart(text: string): string {
    Strip(text[AfterLast(text, ',')..])
  }

  lemma {:induction false} LocatedFields(city: string, parts: seq<string>, text: string)
    ensures var r := Located(city, parts, text);
      CityKey in r && r[CityKey] == Str(city) && AddressKey in r && r[AddressKey] == Str(text)
      && (AreaKey in r <==> |parts| > 1) && (SectorKey in r <==> |parts| > 2)
      && (AreaKey in r ==> r[AreaKey] == Str(parts[0]))
      && r.Keys <= {CityKey, AreaKey, SectorKey, AddressKey}
  {
  }

  /** Which location fields are set: city and full address always, the area exactly when
      the text has a comma, the sector exactly when it has two. */
  lemma {:induction false} LocationFields(text: string, cities: seq<string>)
    ensures var r := LocationAmong(text, cities);
      CityKey in r && r[CityKey] == Str(CityFrom(text, cities)) && AddressKey in r && r[AddressKey] == Str(text)
      && (AreaKey in r <==> ',' in text)
      && (SectorKey in r <==> CountChar(text, ',') >= 2)
      && r.Keys <= {CityKey, AreaKey, SectorKey, AddressKey}
  {
    LocatedFields(CityFrom(text, cities), StrippedParts(text), text);
    SplitCount(text, ',');
    CountCharZero(text, ',');
  }

  /** The area is the stripped text before the first comma. */
  lemma {:induction false} LocationArea(text: string, cities: seq<string>)
    requires AreaKey in LocationAmong(text, cities)
    ensures exists k ::
      0 <= k < |text| && text[k] == ',' && ',' !in text[..k]
      && LocationAmong(text, cities)[AreaKey] == Str(Strip(text[..k]))
  {
    LocatedFields(CityFrom(text, cities), StrippedParts(text), text);
    var first := Split(text, ',')[0];
    SplitHead(text, ',');
    var k := |first|;
    assert text[..k] == first;
  }

  /** When the text names one of the cities, the city is the first of them it names. */
  lemma {:induction false} CityFound(text: string, cities: seq<string>, c: string)
    requires c in cities && Contains(Lower(text), Lower(c))
    ensures var found := FirstCityIn(Lower(text), cities);
      found.Some? && found.value in cities && CityFrom(text, cities) == found.value
  {
  }

  /** When it names none, the city is the stripped text after the last comma, or the whole
      stripped text when there is no comma. */
  lemma {:induction false} CityFallback(text: string, cities: seq<string>)
    requires FirstCityIn(Lower(text), cities).None?
    ensures exists k ::
      0 <= k <= |text| && (k == 0 || text[k - 1] == ',') && ',' !in text[k..]
      && CityFrom(text, cities) == Strip(text[k..])
  {
    var k := AfterLast(text, ',');
    assert CityFrom(text, cities) == LastPart(text);
    assert 0 <= k <= |text| && (k == 0 || text[k - 1] == ',') && ',' !in text[k..]
      && CityFrom(text, cities) == Strip(text[k..]);
  }

  // ------------------------------------------------------------------- details

  /** The property kinds looked for in a card's details, in order. */
  const DetailTypes: seq<string> := ["house", "flat", "apartment", "plot", "commercial", "shop", "office"]

  /** The first of `words` that occurs in `low`. */
  function FirstWordIn(low: string, words: seq<string>): (r: Option<string>)
    ensures r.Some? ==> r.value in words && Contains(low, r.value)
    ensures r.None? ==> forall w :: w in words ==> !Contains(low, w)
  {
    if words == [] then None
    else if Contains(low, words[0]) then Some(words[0])
    else FirstWordIn(low, words[1..])
  }

  /** `(\d+)\s*<word>` matched at `i`: the whole digit run that starts there, since only a
      run that ends at a non-digit can be followed by spaces and a word. */
  function CountAt(s: string, word: string, i: nat): (r: Option<nat>)
    requires i < |s|
  {
    if !IsDigit(s[i]) then None
    else
      var j := DigitsEnd(s, i);
      if OccursAt(s, word, SpacesEnd(s, j)) then Some(NatOf(s[i..j])) else None
  }

  /** `re.search(r'(\d+)\s*<word>', s)` from `i`: the leftmost match. */
  function SearchCount(s: string, word: string, i: nat): (r: Option<nat>)
    requires i <= |s|
    decreases |s| - i
  {
    if i == |s| then None
    else if CountAt(s, word, i).Some? then CountAt(s, word, i)
    else SearchCount(s, word, i + 1)
  }

  /** A count written before its word is read back: "3 bed" gives 3. */
  lemma {:induction false} SearchCountReadsBack(digits: string, spaces: string, word: string, rest: string)
    requires digits != [] && AllDigits(digits)
    requires forall k :: 0 <= k < |spaces| ==> IsSpace(spaces[k])
    requires word != [] && !IsDigit(word[0]) && !IsSpace(word[0])
    ensures SearchCount(digits + spaces + word + rest, word, 0) == Some(NatOf(digits))
  {
    var s := digits + spaces + word + rest;
    var a := |digits|;
    var b := a + |spaces|;
    assert s[..a] == digits;
    forall k | 0 <= k < a ensures IsDigit(s[k]) {
      assert s[k] == digits[k];
    }
    assert s[b] == word[0];
    if |spaces| > 0 {
      assert s[a] == spaces[0];
    }
    RunEndAt(s, 0, a, IsDigit);
    var j := DigitsEnd(s, 0);
    forall k | a <= k < b ensures IsSpace(s[k]) {
      assert s[k] == spaces[k - a];
    }
    RunEndAt(s, a, b, IsSpace);
    assert s[b..b + |word|] == word;
    OccursAtIff(s, word, b);
    assert s[0..j] == digits;
  }

  /** The units the details pattern accepts: marla, kanal, "sq" and "ft" with any white
      space between, or sqft. */
  function DetailUnitAt(s: string, k: nat): Option<string> {
    if OccursAt(s, "marla", k) then Some("marla")
    else if OccursAt(s, "kanal", k) then Some("kanal")
    else if SpacedWordsAt(s, k, "sq", "ft").Some? then SpacedWordsAt(s, k, "sq", "ft")
    else if OccursAt(s, "sqft", k) then Some("sqft")
    else None
  }

  /** A size and the unit text that follows it. */
  datatype Measure = Measure(size: real, unit: string)

  /** The area pattern matched at `i`. */
  function MeasureAt(s: string, i: nat): (r: Option<Measure>)
    requires i < |s|
    ensures r.Some? ==> r.value.size >= 0.0
  {
    if !IsDigit(s[i]) then None
    else
      var n := DecimalAt(s, i);
      match DetailUnitAt(s, SpacesEnd(s, n.end))
      case Some(unit) => Some(Measure(n.value, unit))
      case None => None
  }

  /** `re.search` of the area pattern from `i`: the leftmost match. */
  function SearchMeasure(s: string, i: nat): (r: Option<Measure>)
    requires i <= |s|
    ensures r.Some? ==> r.value.size >= 0.0
    decreases |s| - i
  {
    if i == |s| then None
    else if MeasureAt(s, i).Some? then MeasureAt(s, i)
    else SearchMeasure(s, i + 1)
  }

  /** Square feet per unit; the table's own keys, looked up after lower-casing. */
  const SqftConversions: map<string, real> := map["marla" := 272.25, "kanal" := 5445.0, "sqft" := 1.0, "sq ft" := 1.0]

  /** `size` in square feet; a unit the table does not know counts as square feet. Every
      factor is at least one, so a conversion never shrinks a size. */
  function ConvertToSqft(size: real, unit: string): (area: real)
    ensures size >= 0.0 ==> area >= size
  {
    var key := Lower(unit);
    size * (if key in SqftConversions then SqftConversions[key] else 1.0)
  }

  /** The card's details: its kind (the first of `DetailTypes` the text names, title-cased,
      else "Other"), bedroom and bathroom counts, and the area with its unit and size in
      square feet. */
  function ParsePropertyDetails(rt: Runtime, text: string): (r: Record) {
    var low := Lower(text);
    var kind := match FirstWordIn(low, DetailTypes)
      case Some(w) => Title(w)
      case None => "Other";
    Detailed(rt, kind, SearchCount(low, "bed", 0), SearchCount(low, "bath", 0), SearchMeasure(low, 0))
  }

  /** The first word of the list the text contains wins over every later one. */
  lemma {:induction false} FirstWordWins(low: string, words: seq<string>, k: nat)
    requires k < |words| && Contains(low, words[k])
    requires forall j :: 0 <= j < k ==> !Contains(low, words[j])
    ensures FirstWordIn(low, words) == Some(words[k])
  {
    if k > 0 {
      FirstWordWins(low, words[1..], k - 1);
    }
  }

  /** A count is only found next to its word and a digit. */
  lemma {:induction false} SearchCountFound(s: string, word: string, i: nat)
    requires i <= |s| && SearchCount(s, word, i).Some?
    ensures Contains(s, word) && HasDigit(s)
    decreases |s| - i
  {
    if CountAt(s, word, i).Some? {
      var j := SpacesEnd(s, DigitsEnd(s, i));
      OccursAtIff(s, word, j);
      OccursContains(s, word, j);
    } else {
      SearchCountFound(s, word, i + 1);
    }
  }

  /** The unit text the details pattern matches: marla, kanal, sqft, or "sq" and "ft" with
      white space between. */
  predicate DetailUnitText(u: string) {
    u == "marla" || u == "kanal" || u == "sqft"
    || (4 <= |u| && u[..2] == "sq" && u[|u| - 2..] == "ft"
        && forall j :: 2 <= j < |u| - 2 ==> IsSpace(u[j]))
  }

  lemma {:induction false} DetailUnitShape(s: string, k: nat)
    requires DetailUnitAt(s, k).Some?
    ensures DetailUnitText(DetailUnitAt(s, k).value)
  {
    if !OccursAt(s, "marla", k) && !OccursAt(s, "kanal", k) && SpacedWordsAt(s, k, "sq", "ft").Some? {
      SpacedWordsShape(s, k, "sq", "ft");
    }
  }

  lemma {:induction false} SearchMeasureShape(s: string, i: nat)
    requires i <= |s| && SearchMeasure(s, i).Some?
    ensures DetailUnitText(SearchMeasure(s, i).value.unit)
    decreases |s| - i
  {
    if MeasureAt(s, i).Some? {
      DetailUnitShape(s, SpacesEnd(s, DecimalAt(s, i).end));
    } else {
      SearchMeasureShape(s, i + 1);
    }
  }

  /** Deleting the plain spaces of a matched unit leaves marla, kanal, sqft, or "sq" and "ft"
      around white space other than plain spaces. */
  lemma {:induction false} DeleteSpacesOfUnit(u: string)
    requires DetailUnitText(u)
    ensures var unit := Delete(u, ' ');
      ' ' !in unit
      && (unit == "marla" || unit == "kanal" || unit == "sqft"
          || (4 <= |unit| && unit[..2] == "sq" && unit[|unit| - 2..] == "ft"))
  {
    if u == "marla" || u == "kanal" || u == "sqft" {
      assert forall j :: 0 <= j < |u| ==> u[j] != ' ';
      DeleteAbsent(u, ' ');
    } else {
      var mid := u[2..|u| - 2];
      assert u == "sq" + mid + "ft";
      DeleteAppend("sq" + mid, "ft", ' ');
      DeleteAppend("sq", mid, ' ');
      assert ' ' !in "sq" && ' ' !in "ft";
      DeleteAbsent("sq", ' ');
      DeleteAbsent("ft", ' ');
    }
  }

  /** The details dictionary from its parts. */
  function Detailed(rt: Runtime, kind: string, beds: Option<nat>, baths: Option<nat>, measure: Option<Measure>): Record {
    var typed := map[TypeKey := Str(kind)];
    var withBeds := if beds.Some? then typed[BedroomsKey := Int(beds.value)] else typed;
    var withBaths := if baths.Some? then withBeds[BathroomsKey := Int(baths.value)] else withBeds;
    if measure.Some? then
      var unit := Delete(measure.value.unit, ' ');
      withBaths[AreaRawKey := Str(rt.floatStr(measure.value.size) + " " + unit)][AreaUnitKey := Str(unit)]
        [AreaSizeKey := Num(ConvertToSqft(measure.value.size, unit))]
    else withBaths
  }

  lemma {:induction false} DetailedFields(rt: Runtime, kind: string, beds: Option<nat>, baths: Option<nat>, measure: Option<Measure>)
    ensures var r := Detailed(rt, kind, beds, baths, measure);
      TypeKey in r && r[TypeKey] == Str(kind)
      && (BedroomsKey in r <==> beds.Some?) && (beds.Some? ==> r[BedroomsKey] == Int(beds.value))
      && (BathroomsKey in r <==> baths.Some?) && (baths.Some? ==> r[BathroomsKey] == Int(baths.value))
      && (AreaRawKey in r <==> measure.Some?) && (AreaUnitKey in r <==> measure.Some?)
      && (AreaSizeKey in r <==> measure.Some?)
      && (measure.Some? ==>
            var unit := Delete(measure.value.unit, ' ');
            r[AreaUnitKey] == Str(unit)
            && r[AreaRawKey] == Str(rt.floatStr(measure.value.size) + " " + unit)
            && r[AreaSizeKey] == Num(ConvertToSqft(measure.value.size, unit)))
      && r.Keys <= {TypeKey, BedroomsKey, BathroomsKey, AreaRawKey, AreaUnitKey, AreaSizeKey}
  {
  }

  /** What the details parser sets: always the kind; a bedroom or bathroom count only when
      the text has the word and a digit; the three area fields together, with a unit free of
      plain spaces, the size shown in the raw text and converted to square feet by that unit. */
  lemma {:induction false} DetailsFields(rt: Runtime, text: string)
    ensures var r := ParsePropertyDetails(rt, text);
      TypeKey in r
      && (BedroomsKey in r ==>
            r[BedroomsKey].Int? && r[BedroomsKey].i >= 0
            && Contains(Lower(text), "bed") && HasDigit(text))
      && (BathroomsKey in r ==>
            r[BathroomsKey].Int? && r[BathroomsKey].i >= 0
            && Contains(Lower(text), "bath") && HasDigit(text))
      && (AreaRawKey in r <==> AreaSizeKey in r) && (AreaUnitKey in r <==> AreaSizeKey in r)
      && (AreaSizeKey in r ==>
            r[AreaUnitKey].Str? && ' ' !in r[AreaUnitKey].s
            && (exists size: real ::
                  size >= 0.0
                  && r[AreaRawKey] == Str(rt.floatStr(size) + " " + r[AreaUnitKey].s)
                  && r[AreaSizeKey] == Num(ConvertToSqft(size, r[AreaUnitKey].s))))
      && r.Keys <= {TypeKey, BedroomsKey, BathroomsKey, AreaRawKey, AreaUnitKey, AreaSizeKey}
  {
    var low := Lower(text);
    var kind := match FirstWordIn(low, DetailTypes)
      case Some(w) => Title(w)
      case None => "Other";
    var beds := SearchCount(low, "bed", 0);
    var baths := SearchCount(low, "bath", 0);
    var measure := SearchMeasure(low, 0);
    DetailedFields(rt, kind, beds, baths, measure);
    LowerDigits(text);
    if beds.Some? {
      SearchCountFound(low, "bed", 0);
    }
    if baths.Some? {
      SearchCountFound(low, "bath", 0);
    }
    if measure.Some? {
      SearchMeasureShape(low, 0);
      DeleteSpacesOfUnit(measure.value.unit);
      var size := measure.value.size;
      var unit := Delete(measure.value.unit, ' ');
      assert ParsePropertyDetails(rt, text)[AreaSizeKey] == Num(ConvertToSqft(size, unit));
    }
  }

  /** The kind is "Other" or the title-cased form of a kind the text names. */
  lemma {:induction false} DetailsKind(rt: Runtime, text: string)
    ensures var kind := ParsePropertyDetails(rt, text)[TypeKey];
      kind == Str("Other")
      || exists w :: w in DetailTypes && Contains(Lower(text), w) && kind == Str(Title(w))
  {
    var low := Lower(text);
    var kind := match FirstWordIn(low, DetailTypes)
      case Some(w) => Title(w)
      case None => "Other";
    DetailedFields(rt, kind, SearchCount(low, "bed", 0), SearchCount(low, "bath", 0), SearchMeasure(low, 0));
  }

  /** House is looked for first, so any details text naming a house is a House. */
  lemma {:induction false} HouseDetails(rt: Runtime, text: string, house: string)
    requires house == "house" && Contains(Lower(text), house)
    ensures ParsePropertyDetails(rt, text)[TypeKey] == Str("House")
  {
    var low := Lower(text);
    assert DetailTypes[0] == house;
    FirstWordWins(low, DetailTypes, 0);
    CleanerFacts.TitleOfHouse(house);
    DetailedFields(rt, Title(house), SearchCount(low, "bed", 0), SearchCount(low, "bath", 0), SearchMeasure(low, 0));
  }

  /** The unit is matched whatever its case. */
  lemma {:induction false} ConvertIgnoresCase(size: real, unit: string)
    ensures ConvertToSqft(size, unit) == ConvertToSqft(size, Lower(unit))
  {
    var key := Lower(unit);
    LowerTwice(unit);
    assert Lower(key) == key;
  }

  /** One kanal is twenty marla. */
  lemma {:induction false} KanalIsTwentyMarla(size: real, kanal: string, marla: string)
    requires Lower(kanal) == "kanal" && Lower(marla) == "marla"
    ensures ConvertToSqft(size, kanal) == 20.0 * ConvertToSqft(size, marla)
  {
  }
}
