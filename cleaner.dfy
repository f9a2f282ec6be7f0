/** The record normaliser (`DataCleaner`): currency shorthand and land units to numbers,
    property-type categories, location and contact clean-up, the validity gate, the
    completeness score and first-occurrence deduplication. */
module Cleaner {
  import opened Basics
  import opened TextOps
  import opened Records

  // ------------------------------------------------------------------- price

  type Multiplier = x: real | x > 0.0 witness 1.0

  /** Magnitude words in the order the cleaner tries them, with their multipliers. */
  const PriceUnits: seq<(string, Multiplier)> :=
    [("crore", 10000000.0), ("lakh", 100000.0), ("thousand", 1000.0), ("k", 1000.0), ("million", 1000000.0)]

  /** Lower-cased, stripped, symbols removed, whitespace runs collapsed. */
  function PriceClean(s: string): string {
    Collapse(Filter(Strip(Lower(s)), KeepPriceChar))
  }

  /** The number captured by `(\d+(?:\.\d+)?)\s*<word>` when a match starts at `i`. */
  function NumberBeforeAt(s: string, i: nat, word: string): (r: Option<real>)
    requires i < |s|
    ensures r.Some? ==> r.value >= 0.0
  {
    if !IsDigit(s[i]) then None
    else
      var n := DecimalAt(s, i);
      if OccursAt(s, word, SpacesEnd(s, n.end)) then Some(n.value) else None
  }

  /** `re.search(r'(\d+(?:\.\d+)?)\s*' + word, s)` from position `i`: the leftmost match. */
  function NumberBefore(s: string, word: string, i: nat): (r: Option<real>)
    ensures r.Some? ==> r.value >= 0.0
    decreases |s| - i
  {
    if i >= |s| then None
    else if NumberBeforeAt(s, i, word).Some? then NumberBeforeAt(s, i, word)
    else NumberBefore(s, word, i + 1)
  }

  /** The first magnitude word (in table order) that is in the text and has a number
      before it: that number and the word's multiplier. */
  function MagnitudeMatch(clean: string, units: seq<(string, Multiplier)>): (r: Option<(real, Multiplier)>)
    ensures r.Some? ==> r.value.0 >= 0.0
  {
    if units == [] then None
    else
      var word := units[0].0;
      if Contains(clean, word) && NumberBefore(clean, word, 0).Some? then
        Some((NumberBefore(clean, word, 0).value, units[0].1))
      else MagnitudeMatch(clean, units[1..])
  }

  /** `normalize_price` on a non-empty string. */
  function NormalizePriceText(s: string): (r: Option<real>)
    ensures r.Some? ==> r.value >= 0.0
  {
    AmountOf(PriceClean(s))
  }

  /** The amount in a cleaned price text: the number before the first magnitude word scaled
      by it, else the first number with commas removed. */
  function AmountOf(clean: string): (r: Option<real>)
    ensures r.Some? ==> r.value >= 0.0
  {
    var scaled := MagnitudeMatch(clean, PriceUnits);
    if scaled.Some? then
      ScaledNonNegative(scaled.value.0, scaled.value.1);
      Some(scaled.value.0 * scaled.value.1)
    else FirstDecimal(Delete(clean, ','))
  }

  lemma {:induction false} ScaledNonNegative(amount: real, multiplier: real)
    requires amount >= 0.0 && multiplier > 0.0
    ensures amount * multiplier >= 0.0
  {
  }

  /** `normalize_price`: None for a falsy value, the value itself for a number, the parsed
      amount for text. */
  function NormalizePrice(rt: Runtime, v: Value): (r: Option<real>)
    ensures !Truthy(v) ==> r.None?
    ensures Truthy(v) && (v.Int? || v.Num?) ==> r == AsReal(v)
    ensures v.Str? && r.Some? ==> r.value >= 0.0
  {
    if !Truthy(v) then None
    else if v.Bool? || v.Int? || v.Num? then AsReal(v)
    else NormalizePriceText(Show(rt, v))
  }

  // -------------------------------------------------------------------- area

  /** The conversion table to square feet, keyed as in the source. */
  const AreaConversions: map<string, real> := map[
    "marla" := 272.25, "kanal" := 5445.0, "sq ft" := 1.0, "sqft" := 1.0, "square feet" := 1.0,
    "sq m" := 10.764, "sq meter" := 10.764, "yard" := 9.0, "acre" := 43560.0]

  /** `area_conversions.get(unit, 1)` */
  function AreaFactor(unit: string): (f: real)
    ensures f > 0.0
  {
    if unit in AreaConversions then AreaConversions[unit] else 1.0
  }

  /** The unit group `(marla|kanal|sq\s*ft|sqft|square\s*feet|sq\s*m|sq\s*meter|yard|acre)`
      matched at `k`, alternatives tried in order: the text it spans. */
  function AreaUnitAt(s: string, k: nat): Option<string> {
    if OccursAt(s, "marla", k) then Some("marla")
    else if OccursAt(s, "kanal", k) then Some("kanal")
    else if SpacedWordsAt(s, k, "sq", "ft").Some? then SpacedWordsAt(s, k, "sq", "ft")
    else if OccursAt(s, "sqft", k) then Some("sqft")
    else if SpacedWordsAt(s, k, "square", "feet").Some? then SpacedWordsAt(s, k, "square", "feet")
    else if SpacedWordsAt(s, k, "sq", "m").Some? then SpacedWordsAt(s, k, "sq", "m")
    else if SpacedWordsAt(s, k, "sq", "meter").Some? then SpacedWordsAt(s, k, "sq", "meter")
    else if OccursAt(s, "yard", k) then Some("yard")
    else if OccursAt(s, "acre", k) then Some("acre")
    else None
  }

  /** The area pattern matched at `i`: the size (group 1) and the text the unit group
      spans (group 2). */
  function AreaAt(s: string, i: nat): (r: Option<(real, string)>)
    requires i < |s|
    ensures r.Some? ==> r.value.0 >= 0.0
  {
    if !IsDigit(s[i]) then None
    else
      var n := DecimalAt(s, i);
      match AreaUnitAt(s, SpacesEnd(s, n.end))
      case Some(unit) => Some((n.value, unit))
      case None => None
  }

  /** `re.search` of the area pattern from `i`: the leftmost match. */
  function SearchArea(s: string, i: nat): (r: Option<(real, string)>)
    ensures r.Some? ==> r.value.0 >= 0.0
    decreases |s| - i
  {
    if i >= |s| then None
    else if AreaAt(s, i).Some? then AreaAt(s, i)
    else SearchArea(s, i + 1)
  }

  /** The size converted to square feet with the factor of the unit, its spaces deleted. */
  function Converted(size: real, unit: string): (r: real)
    requires size >= 0.0
    ensures r >= 0.0
  {
    size * AreaFactor(Delete(unit, ' '))
  }

  /** `normalize_area` on a non-empty string. */
  function NormalizeAreaText(s: string): (r: Option<real>)
    ensures r.Some? ==> r.value >= 0.0
  {
    var clean := Strip(Lower(s));
    var matched := SearchArea(clean, 0);
    if matched.Some? then Some(Converted(matched.value.0, matched.value.1)) else FirstDecimal(clean)
  }

  /** `normalize_area` */
  function NormalizeArea(rt: Runtime, v: Value): (r: Option<real>)
    ensures !Truthy(v) ==> r.None?
    ensures Truthy(v) && (v.Int? || v.Num?) ==> r == AsReal(v)
    ensures v.Str? && r.Some? ==> r.value >= 0.0
  {
    if !Truthy(v) then None
    else if v.Bool? || v.Int? || v.Num? then AsReal(v)
    else NormalizeAreaText(Show(rt, v))
  }

  // ----------------------------------------------------------- property type

  /** Categories and their synonyms, in the order they are tried. */
  const TypeTable: seq<(string, seq<string>)> := [
    ("house", ["house", "home", "bungalow", "villa", "cottage", "townhouse"]),
    ("apartment", ["apartment", "flat", "unit", "condo"]),
    ("plot", ["plot", "land", "residential plot", "commercial plot", "vacant land"]),
    ("commercial", ["shop", "office", "warehouse", "building", "commercial space"]),
    ("farmhouse", ["farmhouse", "farm house"]),
    ("penthouse", ["penthouse", "penthouse apartment"]),
    ("studio", ["studio", "studio apartment"])]

  predicate AnyIn(clean: string, synonyms: seq<string>) {
    exists k :: 0 <= k < |synonyms| && Contains(clean, synonyms[k])
  }

  /** The first category having a synonym inside `clean`. */
  function FirstCategory(clean: string, table: seq<(string, seq<string>)>): (r: Option<string>)
    ensures r.Some? ==> exists k :: 0 <= k < |table| && table[k].0 == r.value
  {
    if table == [] then None
    else if AnyIn(clean, table[0].1) then Some(table[0].0)
    else
      var rest := FirstCategory(clean, table[1..]);
      assert rest.Some? ==> exists k :: 0 <= k < |table| - 1 && table[1..][k].0 == rest.value;
      rest
  }

  /** `standardize_property_type`: "Other" for a falsy value, the title-cased first category
      matched, else the input title-cased (an AttributeError for a non-string). */
  function StandardizePropertyType(rt: Runtime, v: Value): Result<string, PyError> {
    if !Truthy(v) then Ok("Other")
    else
      match FirstCategory(Strip(Lower(Show(rt, v))), TypeTable)
      case Some(category) => Ok(Title(category))
      case None => if v.Str? then Ok(Title(v.s)) else Err(AttributeError)
  }

  // ---------------------------------------------------------------- location

  /** Canonical city names and the lower-case spellings mapped to them. */
  const CityTable: seq<(string, seq<string>)> := [
    ("Karachi", ["karachi", "krchi", "khi"]),
    ("Lahore", ["lahore", "lhr", "lahore city"]),
    ("Islamabad", ["islamabad", "isb", "islamabad capital"]),
    ("Rawalpindi", ["rawalpindi", "rwp", "pindi"]),
    ("Faisalabad", ["faisalabad", "fsd", "lyallpur"])]

  /** The canonical name whose spelling list holds `lowered`, else `city` unchanged. */
  function CanonicalCity(city: string, lowered: string, table: seq<(string, seq<string>)>): string {
    if table == [] then city
    else if lowered in table[0].1 then table[0].0
    else CanonicalCity(city, lowered, table[1..])
  }

  /** `d.get(key, '').strip()`, an AttributeError for a value that is not a string. */
  function StrippedField(d: Record, key: Field): Result<string, PyError> {
    match Get(d, key, Str([]))
    case Str(s) => Ok(Strip(s))
    case _ => Err(AttributeError)
  }

  /** `{key: text}` when `text` is non-empty, else `{}`. */
  function IfNonEmpty(key: Field, text: string): (r: Record)
    ensures r.Keys <= {key}
    ensures key in r <==> text != []
  {
    if text == [] then map[] else map[key := Str(text)]
  }

  /** The location fields built from the stripped inputs: city, area and sector title-cased,
      the city mapped to its canonical name; empty results are left out. */
  function LocationRecord(city: string, area: string, sector: string, address: string): (r: Record)
    ensures r.Keys <= {CityKey, AreaKey, SectorKey, AddressKey}
  {
    var titled := Title(city);
    var canonical := if titled == [] then [] else CanonicalCity(titled, Lower(titled), CityTable);
    FourFields(CityKey, canonical, AreaKey, Title(area), SectorKey, Title(sector), AddressKey, address)
  }

  /** `clean_location_data`: an AttributeError when one of the four fields is present and not
      a string. */
  function CleanLocationData(d: Record): (r: Result<Record, PyError>)
    ensures r.Ok? ==> r.value.Keys <= {CityKey, AreaKey, SectorKey, AddressKey}
  {
    var city :- StrippedField(d, CityKey);
    var area :- StrippedField(d, AreaKey);
    var sector :- StrippedField(d, SectorKey);
    var address :- StrippedField(d, AddressKey);
    Ok(LocationRecord(city, area, sector, address))
  }

  // ----------------------------------------------------------------- contact

  predicate IsPhoneChar(c: char) { IsDigit(c) || c == '+' }

  /** The contact fields: the phone digits from ten characters on, an e-mail containing '@'
      lower-cased and stripped, agent and seller names title-cased; empty results are left
      out. */
  function ContactRecord(digits: string, email: string, agent: string, seller: string): (r: Record)
    ensures r.Keys <= {PhoneKey, EmailKey, AgentKey, SellerKey}
  {
    FourFields(PhoneKey, if |digits| >= 10 then digits else [],
               EmailKey, if '@' in email then Strip(Lower(email)) else [],
               AgentKey, Title(agent), SellerKey, Title(seller))
  }

  /** Up to four text fields, each present when its text is non-empty. */
  function FourFields(k1: Field, t1: string, k2: Field, t2: string, k3: Field, t3: string, k4: Field, t4: string): (r: Record)
    ensures r.Keys <= {k1, k2, k3, k4}
  {
    IfNonEmpty(k1, t1) + IfNonEmpty(k2, t2) + IfNonEmpty(k3, t3) + IfNonEmpty(k4, t4)
  }

  /** `clean_contact_info`: the phone (any value, shown as text) reduced to digits and '+',
      the e-mail, agent and seller names cleaned; a TypeError for a truthy e-mail that is not
      a string, an AttributeError for an agent or seller name that is not a string. */
  function CleanContactInfo(rt: Runtime, d: Record): (r: Result<Record, PyError>)
    ensures r.Ok? ==> r.value.Keys <= {PhoneKey, EmailKey, AgentKey, SellerKey}
  {
    var phone := Get(d, PhoneKey, Str([]));
    var digits := if Truthy(phone) then Filter(Show(rt, phone), IsPhoneChar) else [];
    var email := Get(d, EmailKey, Str([]));
    if Truthy(email) && !email.Str? then Err(TypeError)
    else
      var agent :- StrippedField(d, AgentKey);
      var seller :- StrippedField(d, SellerKey);
      Ok(ContactRecord(digits, if email.Str? then email.s else [], agent, seller))
  }

  /** Characters `[\w\s\-.,()\/]` that `clean_text` keeps. */
  predicate KeepTextChar(c: char) {
    IsWordChar(c) || IsSpace(c) || c in "-.,()/"
  }

  /** `clean_text`: "" for a falsy value, else stripped, whitespace runs collapsed, other
      punctuation removed. */
  function CleanText(rt: Runtime, v: Value): (r: string)
    ensures forall i :: 0 <= i < |r| ==> KeepTextChar(r[i])
  {
    if !Truthy(v) then [] else Filter(Collapse(Strip(Show(rt, v))), KeepTextChar)
  }

  // ------------------------------------------------- validity and quality score

  /** `is_valid_property` */
  predicate IsValidProperty(d: Record) {
    Has(d, TitleKey) && Has(d, CityKey) && (Has(d, PriceKey) || Has(d, AreaSizeKey))
  }

  const ImportantFields: seq<Field> := [TitleKey, CityKey, PriceKey, TypeKey, AreaSizeKey]
  const OptionalFields: seq<Field> := [AreaKey, BedroomsKey, BathroomsKey, AgentKey, PhoneKey]

  /** How many of `fields` are truthy in `d`. */
  function CountPresent(d: Record, fields: seq<Field>): (n: nat)
    ensures n <= |fields|
  {
    if fields == [] then 0 else (if Has(d, fields[0]) then 1 else 0) + CountPresent(d, fields[1..])
  }

  /** `calculate_quality_score` in hundredths: each important field present adds 0.14, each
      optional field 0.06. */
  function QualityScore(d: Record): (q: nat)
    ensures q <= 100
  {
    14 * CountPresent(d, ImportantFields) + 6 * CountPresent(d, OptionalFields)
  }

  /** Presence in `fields` does not depend on a key outside them. */
  lemma {:induction false} CountPresentFrame(d: Record, k: Field, v: Value, fields: seq<Field>)
    requires k !in fields
    ensures CountPresent(d[k := v], fields) == CountPresent(d, fields)
  {
    if fields != [] {
      CountPresentFrame(d, k, v, fields[1..]);
    }
  }

  /** Making one more field truthy never lowers the count. */
  lemma {:induction false} CountPresentGrows(d: Record, k: Field, v: Value, fields: seq<Field>)
    requires Truthy(v)
    ensures CountPresent(d, fields) <= CountPresent(d[k := v], fields)
  {
    if fields != [] {
      CountPresentGrows(d, k, v, fields[1..]);
    }
  }

  /** The score reads only the ten tracked fields. */
  lemma {:induction false} QualityScoreFrame(d: Record, k: Field, v: Value)
    requires k !in ImportantFields && k !in OptionalFields
    ensures QualityScore(d[k := v]) == QualityScore(d)
  {
    CountPresentFrame(d, k, v, ImportantFields);
    CountPresentFrame(d, k, v, OptionalFields);
  }

  /** The score never decreases when a field becomes truthy, and strictly increases when a
      tracked field that was absent becomes present. */
  lemma {:induction false} QualityScoreMonotone(d: Record, k: Field, v: Value)
    requires Truthy(v)
    ensures QualityScore(d) <= QualityScore(d[k := v])
    ensures (k in ImportantFields || k in OptionalFields) && !Has(d, k) ==> QualityScore(d) < QualityScore(d[k := v])
  {
    CountPresentGrows(d, k, v, ImportantFields);
    CountPresentGrows(d, k, v, OptionalFields);
    if k in ImportantFields && !Has(d, k) {
      var i :| 0 <= i < |ImportantFields| && ImportantFields[i] == k;
      CountPresentSplit(d, k, v, ImportantFields, i);
    } else if k in OptionalFields && !Has(d, k) {
      var i :| 0 <= i < |OptionalFields| && OptionalFields[i] == k;
      CountPresentSplit(d, k, v, OptionalFields, i);
    }
  }

  /** A field listed once at position `i` adds exactly one when it becomes present. */
  lemma {:induction false} CountPresentSplit(d: Record, k: Field, v: Value, fields: seq<Field>, i: nat)
    requires Truthy(v) && !Has(d, k)
    requires i < |fields| && fields[i] == k
    ensures CountPresent(d[k := v], fields) > CountPresent(d, fields)
  {
    if i == 0 {
      CountPresentGrows(d, k, v, fields[1..]);
    } else {
      CountPresentSplit(d, k, v, fields[1..], i - 1);
    }
  }

  /** The score of an empty record is 0 and of a record with all ten tracked fields 100. */
  lemma {:induction false} QualityScoreExtremes(d: Record)
    ensures QualityScore(map[]) == 0
    ensures (forall k :: k in ImportantFields + OptionalFields ==> Has(d, k)) ==> QualityScore(d) == 100
  {
    NonePresent(ImportantFields);
    NonePresent(OptionalFields);
    if forall k :: k in ImportantFields + OptionalFields ==> Has(d, k) {
      assert forall k :: k in ImportantFields ==> Has(d, k);
      assert forall k :: k in OptionalFields ==> Has(d, k);
      AllPresent(d, ImportantFields);
      AllPresent(d, OptionalFields);
    }
  }

  lemma {:induction false} NonePresent(fields: seq<Field>)
    ensures CountPresent(map[], fields) == 0
  {
    if fields != [] {
      NonePresent(fields[1..]);
    }
  }

  lemma {:induction false} AllPresent(d: Record, fields: seq<Field>)
    requires forall k :: k in fields ==> Has(d, k)
    ensures CountPresent(d, fields) == |fields|
  {
    if fields != [] {
      AllPresent(d, fields[1..]);
    }
  }

  // --------------------------------------------------------- one whole record

  /** `price / area` in Python arithmetic: a TypeError when either is not a number. */
  function DivideBy(price: Value, area: Value): (r: Result<real, PyError>)
    requires Truthy(area)
    ensures r.Ok? <==> AsReal(price).Some? && AsReal(area).Some?
  {
    match (AsReal(price), AsReal(area))
    case (Some(p), Some(a)) => Ok(p / a)
    case _ => Err(TypeError)
  }

  /** The fields `clean_single_property` may rewrite. */
  const CleanedKeys: set<Field> := {
    PriceKey, AreaSizeKey, TypeKey, CityKey, AreaKey, SectorKey, AddressKey, PhoneKey, EmailKey,
    AgentKey, SellerKey, TitleKey, PricePerSqftKey, QualityKey}

  /** The copy with `price_pkr` normalised from `price_raw`, and `area_size` from `area_raw`
      when that is truthy. */
  function PricedAndSized(rt: Runtime, d: Record): (r: Record)
    ensures d.Keys <= r.Keys && PriceKey in r
    ensures r[PriceKey] == OptNum(NormalizePrice(rt, Get(d, PriceRawKey, Str([]))))
    ensures Has(d, AreaRawKey) ==> AreaSizeKey in r && r[AreaSizeKey] == OptNum(NormalizeArea(rt, d[AreaRawKey]))
  {
    var priced := d[PriceKey := OptNum(NormalizePrice(rt, Get(d, PriceRawKey, Str([]))))];
    if Has(d, AreaRawKey) then priced[AreaSizeKey := OptNum(NormalizeArea(rt, d[AreaRawKey]))] else priced
  }

  /** The category, the location and contact fields and the title written over `base`. */
  function Overlay(base: Record, category: string, location: Record, contact: Record, title: string): (r: Record)
    requires location.Keys <= {CityKey, AreaKey, SectorKey, AddressKey}
    requires contact.Keys <= {PhoneKey, EmailKey, AgentKey, SellerKey}
    ensures base.Keys <= r.Keys && TypeKey in r && TitleKey in r
    ensures r[TitleKey] == Str(title) && r[TypeKey] == Str(category)
    ensures PriceKey in base ==> r[PriceKey] == base[PriceKey]
    ensures AreaSizeKey in base ==> r[AreaSizeKey] == base[AreaSizeKey]
  {
    (base[TypeKey := Str(category)] + location + contact)[TitleKey := Str(title)]
  }

  /** The record after price, area, type, location, contact and title clean-up, before the
      price per square foot and the score are added. */
  function CleanFields(rt: Runtime, d: Record): (r: Result<Record, PyError>)
    ensures r.Err? <==> StandardizePropertyType(rt, Get(d, TypeKey, Str([]))).Err?
                        || CleanLocationData(d).Err? || CleanContactInfo(rt, d).Err?
    ensures r.Ok? ==> d.Keys <= r.value.Keys && PriceKey in r.value && TitleKey in r.value && TypeKey in r.value
    ensures r.Ok? ==> r.value[PriceKey] == OptNum(NormalizePrice(rt, Get(d, PriceRawKey, Str([]))))
    ensures r.Ok? ==> r.value[TitleKey] == Str(CleanText(rt, Get(d, TitleKey, Str([]))))
    ensures r.Ok? ==> r.value[TypeKey] == Str(StandardizePropertyType(rt, Get(d, TypeKey, Str([]))).value)
    ensures r.Ok? && Has(d, AreaRawKey) ==> AreaSizeKey in r.value && r.value[AreaSizeKey] == OptNum(NormalizeArea(rt, d[AreaRawKey]))
  {
    var category := StandardizePropertyType(rt, Get(d, TypeKey, Str([])));
    var location := CleanLocationData(d);
    var contact := CleanContactInfo(rt, d);
    if category.Err? then Err(category.error)
    else if location.Err? then Err(location.error)
    else if contact.Err? then Err(contact.error)
    else
      var base := PricedAndSized(rt, d);
      var title := CleanText(rt, Get(d, TitleKey, Str([])));
      var o := Overlay(base, category.value, location.value, contact.value, title);
      Ok(o)
  }

  /** `clean_single_property`: the cleaned copy, with `price_per_sqft` when price and size are
      both truthy (a TypeError when the size is not a number), and the quality score of the
      result in [0, 1]. */
  function CleanSingleProperty(rt: Runtime, d: Record): (r: Result<Record, PyError>)
    ensures CleanFields(rt, d).Err? ==> r.Err?
    ensures r.Ok? ==> d.Keys <= r.value.Keys && QualityKey in r.value
  {
    var c :- CleanFields(rt, d);
    RateAndScore(c)
  }

  /** The values `clean_single_property` writes: the normalised price, the cleaned title,
      the category and the normalised size. */
  lemma {:induction false} CleanedValues(rt: Runtime, d: Record, r: Record)
    requires CleanSingleProperty(rt, d) == Ok(r)
    ensures PriceKey in r && r[PriceKey] == OptNum(NormalizePrice(rt, Get(d, PriceRawKey, Str([]))))
    ensures TitleKey in r && r[TitleKey] == Str(CleanText(rt, Get(d, TitleKey, Str([]))))
    ensures TypeKey in r && r[TypeKey] == Str(StandardizePropertyType(rt, Get(d, TypeKey, Str([]))).value)
    ensures Has(d, AreaRawKey) ==> AreaSizeKey in r && r[AreaSizeKey] == OptNum(NormalizeArea(rt, d[AreaRawKey]))
  {
    var c := CleanFields(rt, d).value;
    RateAndScoreKeeps(c, r);
  }

  /** Every field outside the ones the cleaner rewrites is carried over unchanged. */
  lemma {:induction false} CleanedKeepsOthers(rt: Runtime, d: Record, r: Record)
    requires CleanSingleProperty(rt, d) == Ok(r)
    ensures forall k :: k in d && k !in CleanedKeys ==> k in r && r[k] == d[k]
  {
    var c := CleanFields(rt, d).value;
    CleanFieldsKeeps(rt, d, c);
    RateAndScoreKeeps(c, r);
  }

  lemma {:induction false} CleanFieldsKeeps(rt: Runtime, d: Record, c: Record)
    requires CleanFields(rt, d) == Ok(c)
    ensures forall k :: k in d && k !in CleanedKeys ==> k in c && c[k] == d[k]
  {
    var base := PricedAndSized(rt, d);
    var category := StandardizePropertyType(rt, Get(d, TypeKey, Str([]))).value;
    var location := CleanLocationData(d).value;
    var contact := CleanContactInfo(rt, d).value;
    var title := CleanText(rt, Get(d, TitleKey, Str([])));
    assert c == Overlay(base, category, location, contact, title);
    PricedAndSizedKeeps(rt, d);
    OverlayKeeps(base, category, location, contact, title);
  }

  lemma {:induction false} PricedAndSizedKeeps(rt: Runtime, d: Record)
    ensures forall k :: k in d && k != PriceKey && k != AreaSizeKey ==> PricedAndSized(rt, d)[k] == d[k]
  {
  }

  lemma {:induction false} OverlayKeeps(base: Record, category: string, location: Record, contact: Record, title: string)
    requires location.Keys <= {CityKey, AreaKey, SectorKey, AddressKey}
    requires contact.Keys <= {PhoneKey, EmailKey, AgentKey, SellerKey}
    ensures forall k :: k in base && k !in CleanedKeys ==> Overlay(base, category, location, contact, title)[k] == base[k]
  {
  }

  lemma {:induction false} RateAndScoreKeeps(c: Record, r: Record)
    requires RateAndScore(c) == Ok(r)
    ensures forall k :: k in c && k != PricePerSqftKey && k != QualityKey ==> k in r && r[k] == c[k]
  {
    var rated := PerSqft(c).value;
    assert r == Scored(rated);
  }

  /** The stored quality score is the score of the cleaned record itself, in [0, 1]. */
  lemma {:induction false} CleanedScore(rt: Runtime, d: Record, r: Record)
    requires CleanSingleProperty(rt, d) == Ok(r)
    ensures QualityKey in r
    ensures r[QualityKey] == Num(QualityScore(r) as real / 100.0)
    ensures 0.0 <= r[QualityKey].x <= 1.0
  {
    var c := CleanFields(rt, d).value;
    RateAndScoreScore(c, r);
  }

  lemma {:induction false} RateAndScoreScore(c: Record, r: Record)
    requires RateAndScore(c) == Ok(r)
    ensures QualityKey in r
    ensures r[QualityKey] == Num(QualityScore(r) as real / 100.0)
    ensures 0.0 <= r[QualityKey].x <= 1.0
  {
    var rated := PerSqft(c).value;
    assert r == Scored(rated);
  }

  /** `price_per_sqft` is written exactly when the cleaned price and size are both truthy, as
      their quotient. */
  lemma {:induction false} CleanedRate(rt: Runtime, d: Record, r: Record)
    requires CleanSingleProperty(rt, d) == Ok(r)
    ensures Has(r, PriceKey) && Has(r, AreaSizeKey) ==>
              PricePerSqftKey in r && AsReal(r[PriceKey]).Some? && AsReal(r[AreaSizeKey]).Some?
              && AsReal(r[AreaSizeKey]).value != 0.0
              && r[PricePerSqftKey] == Num(AsReal(r[PriceKey]).value / AsReal(r[AreaSizeKey]).value)
  {
    var c := CleanFields(rt, d).value;
    RateAndScoreRate(c, r);
  }

  lemma {:induction false} RateAndScoreRate(c: Record, r: Record)
    requires RateAndScore(c) == Ok(r)
    ensures Has(r, PriceKey) && Has(r, AreaSizeKey) ==>
              PricePerSqftKey in r && AsReal(r[PriceKey]).Some? && AsReal(r[AreaSizeKey]).Some?
              && AsReal(r[AreaSizeKey]).value != 0.0
              && r[PricePerSqftKey] == Num(AsReal(r[PriceKey]).value / AsReal(r[AreaSizeKey]).value)
  {
    var rated := PerSqft(c).value;
    assert r == Scored(rated);
    if Has(r, PriceKey) && Has(r, AreaSizeKey) {
      assert PriceKey in c && AreaSizeKey in c;
      assert r[PriceKey] == rated[PriceKey] == c[PriceKey];
      assert r[AreaSizeKey] == rated[AreaSizeKey] == c[AreaSizeKey];
    }
  }

  /** The last two steps of `clean_single_property`: the price per square foot, then the
      score. */
  function RateAndScore(c: Record): (r: Result<Record, PyError>)
    ensures r.Ok? ==> c.Keys <= r.value.Keys && QualityKey in r.value
    ensures r.Ok? && Has(c, PriceKey) && Has(c, AreaSizeKey) ==>
              PricePerSqftKey in r.value && AsReal(c[PriceKey]).Some? && AsReal(c[AreaSizeKey]).Some?
              && AsReal(c[AreaSizeKey]).value != 0.0
              && r.value[PricePerSqftKey] == Num(AsReal(c[PriceKey]).value / AsReal(c[AreaSizeKey]).value)
  {
    var rated :- PerSqft(c);
    var scored := Scored(rated);
    assert PricePerSqftKey in rated ==> scored[PricePerSqftKey] == rated[PricePerSqftKey];
    Ok(scored)
  }

  /** The record with its own quality score (in [0, 1]) stored under `data_quality_score`. */
  function Scored(c: Record): (r: Record)
    ensures r.Keys == c.Keys + {QualityKey}
    ensures forall k :: k in c && k != QualityKey ==> r[k] == c[k]
    ensures r[QualityKey] == Num(QualityScore(r) as real / 100.0)
    ensures 0.0 <= r[QualityKey].x <= 1.0
  {
    var score := Num(QualityScore(c) as real / 100.0);
    QualityScoreFrame(c, QualityKey, score);
    c[QualityKey := score]
  }

  /** Adds `price_per_sqft` when price and size are both truthy; nothing else changes. */
  function PerSqft(c: Record): (r: Result<Record, PyError>)
    ensures r.Ok? ==> r.value.Keys <= c.Keys + {PricePerSqftKey} && c.Keys <= r.value.Keys
    ensures r.Ok? ==> forall k :: k in c && k != PricePerSqftKey ==> r.value[k] == c[k]
    ensures r.Ok? && Has(c, PriceKey) && Has(c, AreaSizeKey) ==>
              PricePerSqftKey in r.value && AsReal(c[PriceKey]).Some? && AsReal(c[AreaSizeKey]).Some?
              && AsReal(c[AreaSizeKey]).value != 0.0
              && r.value[PricePerSqftKey] == Num(AsReal(c[PriceKey]).value / AsReal(c[AreaSizeKey]).value)
    ensures r.Err? <==> Has(c, PriceKey) && Has(c, AreaSizeKey) && (AsReal(c[PriceKey]).None? || AsReal(c[AreaSizeKey]).None?)
  {
    if Has(c, PriceKey) && Has(c, AreaSizeKey) then
      var rate :- DivideBy(c[PriceKey], c[AreaSizeKey]);
      Ok(c[PricePerSqftKey := Num(rate)])
    else Ok(c)
  }

  // ----------------------------------------------------------- deduplication

  /** The fields whose shown values, concatenated, form the cleaner's content key. */
  const DedupKeys: seq<Field> := [TitleKey, CityKey, AreaKey, PriceKey, AreaSizeKey]

  /** The sha256 digest of the content key. */
  function Fingerprint(rt: Runtime, p: Record): string {
    rt.sha256(KeyString(rt, p, DedupKeys))
  }

  /** `Fingerprint` as a function value, the key `remove_duplicates` compares. */
  function FingerprintOf(rt: Runtime): Record -> string {
    p => Fingerprint(rt, p)
  }

  /** The record with its key stored under `content_hash`. */
  function Stamp(fp: Record -> string, p: Record): (r: Record)
    ensures r.Keys == p.Keys + {HashKey} && r[HashKey] == Str(fp(p))
  {
    p[HashKey := Str(fp(p))]
  }

  /** The keys of a list of records. */
  function Fingerprints(fp: Record -> string, ps: seq<Record>): set<string> {
    set i | 0 <= i < |ps| :: fp(ps[i])
  }

  /** No earlier record of `ps` has the key of `ps[i]`. */
  predicate IsFirst(fp: Record -> string, ps: seq<Record>, i: nat)
    requires i < |ps|
  {
    forall j :: 0 <= j < i ==> fp(ps[j]) != fp(ps[i])
  }

  /** First-occurrence deduplication as a value: records taken in order, each kept (stamped
      with its key) unless an earlier one had the same key. */
  function UniqueBy(fp: Record -> string, ps: seq<Record>): (u: seq<Record>)
    ensures |u| <= |ps|
  {
    if ps == [] then []
    else
      var prefix := ps[..|ps| - 1];
      var last := ps[|ps| - 1];
      UniqueBy(fp, prefix) + (if fp(last) in Fingerprints(fp, prefix) then [] else [Stamp(fp, last)])
  }

  /** `remove_duplicates` as a value, over the cleaner's fingerprint. */
  function Unique(rt: Runtime, ps: seq<Record>): (u: seq<Record>)
    ensures |u| <= |ps|
  {
    UniqueBy(FingerprintOf(rt), ps)
  }

  /** The keys of a prefix grow by the next record's. */
  lemma {:induction false} FingerprintsSnoc(fp: Record -> string, ps: seq<Record>, i: nat)
    requires i < |ps|
    ensures Fingerprints(fp, ps[..i + 1]) == Fingerprints(fp, ps[..i]) + {fp(ps[i])}
  {
    var a := ps[..i + 1];
    forall h | h in Fingerprints(fp, a) ensures h in Fingerprints(fp, ps[..i]) + {fp(ps[i])} {
      var j :| 0 <= j < |a| && fp(a[j]) == h;
      if j < i {
        assert ps[..i][j] == a[j];
      }
    }
    forall h | h in Fingerprints(fp, ps[..i]) ensures h in Fingerprints(fp, a) {
      var j :| 0 <= j < i && fp(ps[..i][j]) == h;
      assert a[j] == ps[..i][j];
    }
  }

  /** A record is first of its key exactly when the key is not among the earlier ones. */
  lemma {:induction false} IsFirstIff(fp: Record -> string, ps: seq<Record>, i: nat)
    requires i < |ps|
    ensures IsFirst(fp, ps, i) <==> fp(ps[i]) !in Fingerprints(fp, ps[..i])
  {
    if !IsFirst(fp, ps, i) {
      var j :| 0 <= j < i && fp(ps[j]) == fp(ps[i]);
      assert ps[..i][j] == ps[j];
    }
    if fp(ps[i]) in Fingerprints(fp, ps[..i]) {
      var j :| 0 <= j < i && fp(ps[..i][j]) == fp(ps[i]);
      assert ps[..i][j] == ps[j];
    }
  }

  /** Each kept record carries its own key, which is one of the input's, and no two kept
      records carry the same one. */
  lemma {:induction false} UniqueHashesDistinct(fp: Record -> string, ps: seq<Record>)
    ensures forall i :: 0 <= i < |UniqueBy(fp, ps)| ==>
              HashKey in UniqueBy(fp, ps)[i] && UniqueBy(fp, ps)[i][HashKey].Str?
              && UniqueBy(fp, ps)[i][HashKey].s in Fingerprints(fp, ps)
    ensures forall i, j :: 0 <= i < j < |UniqueBy(fp, ps)| ==> UniqueBy(fp, ps)[i][HashKey] != UniqueBy(fp, ps)[j][HashKey]
  {
    if ps != [] {
      var n := |ps| - 1;
      var prefix := ps[..n];
      var u: seq<Record> := UniqueBy(fp, ps);
      var v: seq<Record> := UniqueBy(fp, prefix);
      UniqueHashesDistinct(fp, prefix);
      FingerprintsSnoc(fp, ps, n);
      assert ps[..n + 1] == ps;
      if fp(ps[n]) in Fingerprints(fp, prefix) {
        assert u == v;
      } else {
        assert u == v + [Stamp(fp, ps[n])];
        forall i: int | 0 <= i < |u|
          ensures HashKey in u[i] && u[i][HashKey].Str? && u[i][HashKey].s in Fingerprints(fp, ps)
        {
          if i < |v| {
            assert u[i] == v[i];
          } else {
            assert u[i] == Stamp(fp, ps[n]);
          }
        }
        forall i: int, j: int | 0 <= i < j < |u|
          ensures HashKey in u[i] && HashKey in u[j] && u[i][HashKey] != u[j][HashKey]
        {
          assert u[i] == v[i];
          if j < |v| {
            assert u[j] == v[j];
          }
        }
      }
    }
  }

  /** The `content_hash` values of a list of records. */
  function StampedKeys(u: seq<Record>): set<Value> {
    set i | 0 <= i < |u| && HashKey in u[i] :: u[i][HashKey]
  }

  /** Every key of the input is carried by some kept record. */
  lemma {:induction false} UniqueCoversFingerprints(fp: Record -> string, ps: seq<Record>)
    ensures forall h :: h in Fingerprints(fp, ps) ==> Str(h) in StampedKeys(UniqueBy(fp, ps))
  {
    if ps != [] {
      var n := |ps| - 1;
      var prefix := ps[..n];
      var u: seq<Record> := UniqueBy(fp, ps);
      var v: seq<Record> := UniqueBy(fp, prefix);
      UniqueCoversFingerprints(fp, prefix);
      FingerprintsSnoc(fp, ps, n);
      assert ps[..n + 1] == ps;
      forall h | h in Fingerprints(fp, ps) ensures Str(h) in StampedKeys(u) {
        if h in Fingerprints(fp, prefix) {
          var i :| 0 <= i < |v| && HashKey in v[i] && v[i][HashKey] == Str(h);
          assert u[i] == v[i];
        } else {
          assert h == fp(ps[n]);
          assert u == v + [Stamp(fp, ps[n])];
          assert HashKey in u[|v|] && u[|v|][HashKey] == Str(h);
        }
      }
    }
  }

  /** Every first occurrence is kept, stamped. */
  lemma {:induction false} UniqueKeepsFirsts(fp: Record -> string, ps: seq<Record>)
    ensures forall i :: 0 <= i < |ps| && IsFirst(fp, ps, i) ==> Stamp(fp, ps[i]) in UniqueBy(fp, ps)
  {
    if ps != [] {
      var n := |ps| - 1;
      var prefix := ps[..n];
      var u: seq<Record> := UniqueBy(fp, ps);
      var v: seq<Record> := UniqueBy(fp, prefix);
      UniqueKeepsFirsts(fp, prefix);
      IsFirstIff(fp, ps, n);
      assert forall x :: x in v ==> x in u;
      forall i | 0 <= i < |ps| && IsFirst(fp, ps, i) ensures Stamp(fp, ps[i]) in u {
        if i < n {
          assert prefix[i] == ps[i];
          assert IsFirst(fp, prefix, i);
        }
      }
    }
  }

  /** Everything kept is a stamped first occurrence. */
  lemma {:induction false} UniqueOnlyFirsts(fp: Record -> string, ps: seq<Record>)
    ensures forall x :: x in UniqueBy(fp, ps) ==> exists i :: 0 <= i < |ps| && IsFirst(fp, ps, i) && x == Stamp(fp, ps[i])
  {
    if ps != [] {
      var n := |ps| - 1;
      var prefix := ps[..n];
      var u: seq<Record> := UniqueBy(fp, ps);
      var v: seq<Record> := UniqueBy(fp, prefix);
      UniqueOnlyFirsts(fp, prefix);
      IsFirstIff(fp, ps, n);
      forall x | x in u ensures exists i :: 0 <= i < |ps| && IsFirst(fp, ps, i) && x == Stamp(fp, ps[i]) {
        if x in v {
          var i :| 0 <= i < |prefix| && IsFirst(fp, prefix, i) && x == Stamp(fp, prefix[i]);
          assert ps[i] == prefix[i];
          assert IsFirst(fp, ps, i);
        } else {
          assert IsFirst(fp, ps, n) && x == Stamp(fp, ps[n]);
        }
      }
    }
  }

  /** The positions of the first occurrences of each key, in order. */
  function FirstIndices(fp: Record -> string, ps: seq<Record>): seq<nat> {
    if ps == [] then []
    else
      var prefix := ps[..|ps| - 1];
      FirstIndices(fp, prefix) + (if fp(ps[|ps| - 1]) in Fingerprints(fp, prefix) then [] else [|ps| - 1])
  }

  /** The kept records are exactly the first occurrences, stamped, in their input order:
      the `j`-th kept record is the stamped record at the `j`-th first-occurrence position,
      those positions increase, and every first occurrence has one. */
  lemma {:induction false} UniqueInOrder(fp: Record -> string, ps: seq<Record>)
    ensures |FirstIndices(fp, ps)| == |UniqueBy(fp, ps)|
    ensures forall j :: 0 <= j < |FirstIndices(fp, ps)| ==>
              FirstIndices(fp, ps)[j] < |ps| && IsFirst(fp, ps, FirstIndices(fp, ps)[j])
              && UniqueBy(fp, ps)[j] == Stamp(fp, ps[FirstIndices(fp, ps)[j]])
    ensures forall j, k :: 0 <= j < k < |FirstIndices(fp, ps)| ==> FirstIndices(fp, ps)[j] < FirstIndices(fp, ps)[k]
    ensures forall i :: 0 <= i < |ps| && IsFirst(fp, ps, i) ==> i in FirstIndices(fp, ps)
  {
    UniqueAtFirstIndices(fp, ps);
    FirstIndicesIncreasing(fp, ps);
    FirstIndicesCover(fp, ps);
  }

  lemma {:induction false} UniqueAtFirstIndices(fp: Record -> string, ps: seq<Record>)
    ensures |FirstIndices(fp, ps)| == |UniqueBy(fp, ps)|
    ensures forall j :: 0 <= j < |FirstIndices(fp, ps)| ==>
              FirstIndices(fp, ps)[j] < |ps| && IsFirst(fp, ps, FirstIndices(fp, ps)[j])
              && UniqueBy(fp, ps)[j] == Stamp(fp, ps[FirstIndices(fp, ps)[j]])
  {
    if ps != [] {
      var n := |ps| - 1;
      var prefix := ps[..n];
      var idx := FirstIndices(fp, ps);
      var pidx := FirstIndices(fp, prefix);
      var u := UniqueBy(fp, ps);
      var v := UniqueBy(fp, prefix);
      UniqueAtFirstIndices(fp, prefix);
      OrderStep(fp, ps);
      forall j | 0 <= j < |idx|
        ensures idx[j] < |ps| && IsFirst(fp, ps, idx[j]) && u[j] == Stamp(fp, ps[idx[j]])
      {
        if j < |pidx| {
          assert idx[j] == pidx[j] && u[j] == v[j];
          assert prefix[pidx[j]] == ps[pidx[j]];
        } else {
          assert idx[j] == n && u[j] == Stamp(fp, ps[n]);
        }
      }
    }
  }

  lemma {:induction false} FirstIndicesIncreasing(fp: Record -> string, ps: seq<Record>)
    ensures forall j :: 0 <= j < |FirstIndices(fp, ps)| ==> FirstIndices(fp, ps)[j] < |ps|
    ensures forall j, k :: 0 <= j < k < |FirstIndices(fp, ps)| ==> FirstIndices(fp, ps)[j] < FirstIndices(fp, ps)[k]
  {
    if ps != [] {
      FirstIndicesIncreasing(fp, ps[..|ps| - 1]);
    }
  }

  lemma {:induction false} FirstIndicesCover(fp: Record -> string, ps: seq<Record>)
    ensures forall i :: 0 <= i < |ps| && IsFirst(fp, ps, i) ==> i in FirstIndices(fp, ps)
  {
    if ps != [] {
      var n := |ps| - 1;
      var idx := FirstIndices(fp, ps);
      var pidx := FirstIndices(fp, ps[..n]);
      FirstIndicesCover(fp, ps[..n]);
      OrderStep(fp, ps);
      forall i | 0 <= i < |ps| && IsFirst(fp, ps, i) ensures i in idx {
        if i < n {
          assert i in pidx;
        } else {
          assert idx[|pidx|] == n;
        }
      }
    }
  }

  /** The last record adds its position and its stamped form exactly when it is the first of
      its key, and the first occurrences before it are those of the prefix. */
  lemma {:induction false} OrderStep(fp: Record -> string, ps: seq<Record>)
    requires ps != []
    ensures var n := |ps| - 1;
            FirstIndices(fp, ps) == FirstIndices(fp, ps[..n]) + (if IsFirst(fp, ps, n) then [n] else [])
            && UniqueBy(fp, ps) == UniqueBy(fp, ps[..n]) + (if IsFirst(fp, ps, n) then [Stamp(fp, ps[n])] else [])
    ensures forall i :: 0 <= i < |ps| - 1 ==> (IsFirst(fp, ps[..|ps| - 1], i) <==> IsFirst(fp, ps, i))
  {
    var n := |ps| - 1;
    var prefix := ps[..n];
    IsFirstIff(fp, ps, n);
    forall i | 0 <= i < n
      ensures IsFirst(fp, prefix, i) <==> IsFirst(fp, ps, i)
    {
      assert forall m :: 0 <= m <= i ==> prefix[m] == ps[m];
    }
  }

  /** `remove_duplicates`: walks the list once with a set of seen digests, stamps
      `content_hash` in place on each record it keeps and returns the kept records in order.
      The digest function is a parameter; the cleaner passes `FingerprintOf(rt)`. */
  method RemoveDuplicates(fp: Record -> string, props: array<Record>) returns (unique: seq<Record>)
    modifies props
    ensures unique == UniqueBy(fp, old(props[..]))
    ensures forall i :: 0 <= i < props.Length ==>
              props[i] == if IsFirst(fp, old(props[..]), i) then Stamp(fp, old(props[i])) else old(props[i])
  {
    ghost var ps := props[..];
    var seen: set<string> := {};
    unique := [];
    var i := 0;
    while i < props.Length
      invariant 0 <= i <= props.Length
      invariant seen == Fingerprints(fp, ps[..i])
      invariant unique == UniqueBy(fp, ps[..i])
      invariant forall j :: i <= j < props.Length ==> props[j] == ps[j]
      invariant forall j :: 0 <= j < i ==> props[j] == StampedAt(fp, ps, j)
    {
      var p := props[i];
      var digest := fp(p);
      WalkStep(fp, ps, i, seen, unique);
      if digest !in seen {
        var kept := Stamp(fp, p);
        seen := seen + {digest};
        props[i] := kept;
        unique := unique + [kept];
      }
      i := i + 1;
    }
    assert ps[..i] == ps;
  }

  /** The walk's state after the record at `i`, from its state before it. */
  lemma {:induction false} WalkStep(fp: Record -> string, ps: seq<Record>, i: nat, seen: set<string>, unique: seq<Record>)
    requires i < |ps| && seen == Fingerprints(fp, ps[..i]) && unique == UniqueBy(fp, ps[..i])
    ensures fp(ps[i]) !in seen ==> seen + {fp(ps[i])} == Fingerprints(fp, ps[..i + 1])
                                   && unique + [Stamp(fp, ps[i])] == UniqueBy(fp, ps[..i + 1])
                                   && StampedAt(fp, ps, i) == Stamp(fp, ps[i])
    ensures fp(ps[i]) in seen ==> seen == Fingerprints(fp, ps[..i + 1]) && unique == UniqueBy(fp, ps[..i + 1])
                                  && StampedAt(fp, ps, i) == ps[i]
  {
    UniqueStep(fp, ps, i);
  }

  /** The entry left at position `j`: stamped when it is the first of its key. */
  function StampedAt(fp: Record -> string, ps: seq<Record>, j: nat): Record
    requires j < |ps|
  {
    if IsFirst(fp, ps, j) then Stamp(fp, ps[j]) else ps[j]
  }

  /** One step of the walk: the next record's key joins the seen keys, and the record is kept,
      stamped, exactly when it is the first of its key. */
  lemma {:induction false} UniqueStep(fp: Record -> string, ps: seq<Record>, i: nat)
    requires i < |ps|
    ensures Fingerprints(fp, ps[..i + 1]) == Fingerprints(fp, ps[..i]) + {fp(ps[i])}
    ensures IsFirst(fp, ps, i) <==> fp(ps[i]) !in Fingerprints(fp, ps[..i])
    ensures UniqueBy(fp, ps[..i + 1]) == UniqueBy(fp, ps[..i]) + if IsFirst(fp, ps, i) then [Stamp(fp, ps[i])] else []
  {
    FingerprintsSnoc(fp, ps, i);
    IsFirstIff(fp, ps, i);
    assert ps[..i + 1][..i] == ps[..i];
  }

  // ----------------------------------------------------------- the whole list

  /** `self.clean_single_property` as a function value. */
  function CleanerOf(rt: Runtime): Record -> Result<Record, PyError> {
    p => CleanSingleProperty(rt, p)
  }

  /** The records that `clean` turns, without an exception, into a valid record: their
      cleaned forms, in order. */
  function CleanValidBy(clean: Record -> Result<Record, PyError>, props: seq<Record>): (r: seq<Record>)
    ensures |r| <= |props|
    ensures forall x :: x in r ==> IsValidProperty(x)
  {
    if props == [] then []
    else
      CleanValidBy(clean, props[..|props| - 1]) + Accepted(clean(props[|props| - 1]))
  }

  /** The records that clean without an exception and pass the validity gate, in order. */
  function CleanValid(rt: Runtime, props: seq<Record>): (r: seq<Record>)
    ensures |r| <= |props|
    ensures forall x :: x in r ==> IsValidProperty(x)
  {
    CleanValidBy(CleanerOf(rt), props)
  }

  /** The cleaned record as a one-element list when it cleaned without an exception and is
      valid, else the empty list. */
  function Accepted(cleaned: Result<Record, PyError>): (r: seq<Record>)
    ensures |r| <= 1
    ensures forall x :: x in r ==> IsValidProperty(x)
  {
    if cleaned.Ok? && IsValidProperty(cleaned.value) then [cleaned.value] else []
  }

  /** One more input record adds its accepted cleaned form. */
  lemma {:induction false} CleanValidStep(clean: Record -> Result<Record, PyError>, props: seq<Record>, i: nat, r: Result<Record, PyError>)
    requires i < |props| && r == clean(props[i])
    ensures r.Ok? && IsValidProperty(r.value) ==> CleanValidBy(clean, props[..i + 1]) == CleanValidBy(clean, props[..i]) + [r.value]
    ensures !(r.Ok? && IsValidProperty(r.value)) ==> CleanValidBy(clean, props[..i + 1]) == CleanValidBy(clean, props[..i])
  {
    assert props[..i + 1][..i] == props[..i];
  }

  /** The loop of `clean_properties_data`: each record cleaned in turn, and kept when it
      cleaned without an exception and is valid. */
  method CleanEach(clean: Record -> Result<Record, PyError>, props: seq<Record>) returns (cleaned: seq<Record>)
    ensures cleaned == CleanValidBy(clean, props)
  {
    cleaned := [];
    var i := 0;
    while i < |props|
      invariant 0 <= i <= |props|
      invariant cleaned == CleanValidBy(clean, props[..i])
    {
      var r := clean(props[i]);
      CleanValidStep(clean, props, i, r);
      if r.Ok? && IsValidProperty(r.value) {
        cleaned := cleaned + [r.value];
      }
      i := i + 1;
    }
    assert props[..i] == props;
  }

  /** `clean_properties_data`: every record cleaned, the failures and the invalid ones dropped,
      then duplicates removed. */
  method CleanPropertiesData(rt: Runtime, props: seq<Record>) returns (result: seq<Record>)
    ensures result == Unique(rt, CleanValid(rt, props))
  {
    var cleaned := CleanEach(CleanerOf(rt), props);
    var buffer := new Record[|cleaned|](j requires 0 <= j < |cleaned| => cleaned[j]);
    assert buffer[..] == cleaned;
    result := RemoveDuplicates(FingerprintOf(rt), buffer);
  }

  /** Stamping the key keeps a record valid. */
  lemma {:induction false} StampKeepsValid(fp: Record -> string, p: Record)
    requires IsValidProperty(p)
    ensures IsValidProperty(Stamp(fp, p))
  {}

  /** Every record `clean_properties_data` returns is valid, their fingerprints are pairwise
      distinct, and there are no more of them than inputs. */
  lemma {:induction false} CleanedListValid(rt: Runtime, props: seq<Record>)
    ensures |Unique(rt, CleanValid(rt, props))| <= |props|
    ensures forall x :: x in Unique(rt, CleanValid(rt, props)) ==> IsValidProperty(x)
    ensures forall i, j :: 0 <= i < j < |Unique(rt, CleanValid(rt, props))| ==>
              HashKey in Unique(rt, CleanValid(rt, props))[i] && HashKey in Unique(rt, CleanValid(rt, props))[j]
              && Unique(rt, CleanValid(rt, props))[i][HashKey] != Unique(rt, CleanValid(rt, props))[j][HashKey]
  {
    var fp := FingerprintOf(rt);
    var cv := CleanValid(rt, props);
    UniqueOnlyFirsts(fp, cv);
    UniqueHashesDistinct(fp, cv);
    forall x | x in UniqueBy(fp, cv) ensures IsValidProperty(x) {
      var i :| 0 <= i < |cv| && IsFirst(fp, cv, i) && x == Stamp(fp, cv[i]);
      StampKeepsValid(fp, cv[i]);
    }
  }
}
