/** What `clean_location_data` and `clean_text` produce, field by field and character by
    character. */
module LocationValues {
  import opened Basics
  import opened TextOps
  import opened Records
  import opened Cleaner
  import opened CleanerFacts

  // ------------------------------------------------------------------ city names

  /** Title-casing changes only the case of letters, so lower-casing undoes it. */
  lemma {:induction false} LowerTitle(s: string)
    ensures Lower(Title(s)) == Lower(s)
  {
    var t := Title(s);
    forall i | 0 <= i < |s| ensures Lower(t)[i] == Lower(s)[i] {
      assert t[i] == if i > 0 && IsLetter(s[i - 1]) then LowerChar(s[i]) else UpperChar(s[i]);
      assert Lower(t)[i] == LowerChar(t[i]) && Lower(s)[i] == LowerChar(s[i]);
      LowerOfCase(s[i]);
    }
    assert |Lower(t)| == |Lower(s)|;
  }

  lemma {:induction false} LowerOfCase(c: char)
    ensures LowerChar(UpperChar(c)) == LowerChar(c) && LowerChar(LowerChar(c)) == LowerChar(c)
  {
    if IsLower(c) {
      assert IsUpper(UpperChar(c));
    }
  }

  /** The spelling lists are searched in table order: the first list holding the lower-cased
      name gives the canonical name. */
  lemma {:induction false} CanonicalCityFirst(city: string, lowered: string, table: seq<(string, seq<string>)>, k: nat)
    requires k < |table| && lowered in table[k].1
    requires forall j :: 0 <= j < k ==> lowered !in table[j].1
    ensures CanonicalCity(city, lowered, table) == table[k].0
  {
    if k > 0 {
      assert lowered !in table[0].1;
      CanonicalCityFirst(city, lowered, table[1..], k - 1);
    }
  }

  /** A name in none of the spelling lists is kept as it is. */
  lemma {:induction false} CanonicalCityNone(city: string, lowered: string, table: seq<(string, seq<string>)>)
    requires forall j :: 0 <= j < |table| ==> lowered !in table[j].1
    ensures CanonicalCity(city, lowered, table) == city
  {
    if table != [] {
      assert lowered !in table[0].1;
      CanonicalCityNone(city, lowered, table[1..]);
    }
  }

  /** A non-empty name never becomes empty when table names are non-empty. */
  lemma {:induction false} CanonicalNonEmpty(city: string, lowered: string, table: seq<(string, seq<string>)>)
    requires city != [] && forall j :: 0 <= j < |table| ==> table[j].0 != []
    ensures CanonicalCity(city, lowered, table) != []
  {
    if table != [] && lowered !in table[0].1 {
      CanonicalNonEmpty(city, lowered, table[1..]);
    }
  }

  lemma {:induction false} CityNamesNonEmpty()
    ensures forall j :: 0 <= j < |CityTable| ==> CityTable[j].0 != []
  {
  }

  /** Every spelling appears in one list only, so the order of the lists decides nothing. */
  lemma {:induction false} CitySpellingsDisjoint(k: nat, w: string)
    requires k < |CityTable| && w in CityTable[k].1
    ensures forall j :: 0 <= j < |CityTable| && j != k ==> w !in CityTable[j].1
  {
  }

  /** A city written in any case as one of the spellings of city `k` gets city `k`'s canonical
      name ("KHI", "krchi" and "Karachi" all become "Karachi"). */
  lemma {:induction false} CitySpelling(city: string, k: nat)
    requires k < |CityTable| && Lower(city) in CityTable[k].1
    ensures CanonicalCity(Title(city), Lower(city), CityTable) == CityTable[k].0
  {
    CitySpellingsDisjoint(k, Lower(city));
    CanonicalCityFirst(Title(city), Lower(city), CityTable, k);
  }

  /** A city that is none of the spellings is only title-cased. */
  lemma {:induction false} CityUnknown(city: string)
    requires forall j :: 0 <= j < |CityTable| ==> Lower(city) !in CityTable[j].1
    ensures CanonicalCity(Title(city), Lower(city), CityTable) == Title(city)
  {
    CanonicalCityNone(Title(city), Lower(city), CityTable);
  }

  // ------------------------------------------------------------- location fields

  /** The record built from the four stripped texts: each key is present exactly when its
      text is non-empty; the city is title-cased and then made canonical, area and sector are
      title-cased, the address is kept as it is. */
  lemma {:induction false} LocationFields(city: string, area: string, sector: string, address: string)
    ensures CityKey in LocationRecord(city, area, sector, address) <==> city != []
    ensures city != [] ==> LocationRecord(city, area, sector, address)[CityKey]
                           == Str(CanonicalCity(Title(city), Lower(city), CityTable))
    ensures AreaKey in LocationRecord(city, area, sector, address) <==> area != []
    ensures area != [] ==> LocationRecord(city, area, sector, address)[AreaKey] == Str(Title(area))
    ensures SectorKey in LocationRecord(city, area, sector, address) <==> sector != []
    ensures sector != [] ==> LocationRecord(city, area, sector, address)[SectorKey] == Str(Title(sector))
    ensures AddressKey in LocationRecord(city, area, sector, address) <==> address != []
    ensures address != [] ==> LocationRecord(city, area, sector, address)[AddressKey] == Str(address)
  {
    var titled := Title(city);
    var canonical := if titled == [] then [] else CanonicalCity(titled, Lower(titled), CityTable);
    if titled != [] {
      CityNamesNonEmpty();
      CanonicalNonEmpty(titled, Lower(titled), CityTable);
      LowerTitle(city);
    }
    FourFieldsValues(CityKey, canonical, AreaKey, Title(area), SectorKey, Title(sector), AddressKey, address);
  }

  /** A field that is present but holds no text. */
  predicate NotText(d: Record, key: Field) {
    key in d && !d[key].Str?
  }

  /** Reading one field fails, with an AttributeError, exactly when it is present and not a
      string. */
  lemma {:induction false} StrippedFieldError(d: Record, key: Field)
    ensures StrippedField(d, key).Err? <==> NotText(d, key)
    ensures StrippedField(d, key).Err? ==> StrippedField(d, key).error == AttributeError
    ensures StrippedField(d, key).Ok? ==> StrippedField(d, key).value == Strip(FieldText(d, key))
  {
  }

  /** `clean_location_data` fails, with an AttributeError, exactly when one of the four fields
      is present and not a string. */
  lemma {:induction false} LocationError(d: Record)
    ensures CleanLocationData(d).Err? <==>
              NotText(d, CityKey) || NotText(d, AreaKey) || NotText(d, SectorKey) || NotText(d, AddressKey)
    ensures CleanLocationData(d).Err? ==> CleanLocationData(d).error == AttributeError
  {
    StrippedFieldError(d, CityKey);
    StrippedFieldError(d, AreaKey);
    StrippedFieldError(d, SectorKey);
    StrippedFieldError(d, AddressKey);
  }

  /** Otherwise it builds the record from the four stripped texts. */
  lemma {:induction false} LocationBuilt(d: Record, city: string, area: string, sector: string, address: string)
    requires !NotText(d, CityKey) && !NotText(d, AreaKey) && !NotText(d, SectorKey) && !NotText(d, AddressKey)
    requires city == Strip(FieldText(d, CityKey)) && area == Strip(FieldText(d, AreaKey))
    requires sector == Strip(FieldText(d, SectorKey)) && address == Strip(FieldText(d, AddressKey))
    ensures CleanLocationData(d) == Ok(LocationRecord(city, area, sector, address))
  {
    StrippedFieldError(d, CityKey);
    StrippedFieldError(d, AreaKey);
    StrippedFieldError(d, SectorKey);
    StrippedFieldError(d, AddressKey);
  }

  /** The text of a field, "" when absent or not a string. */
  function FieldText(d: Record, key: Field): string {
    match Get(d, key, Str([]))
    case Str(s) => s
    case _ => []
  }

  /** A successful `clean_location_data` holds each key exactly when the stripped input text
      is non-empty, and the cleaned text under it. */
  lemma {:induction false} LocationValues(d: Record, r: Record)
    requires CleanLocationData(d) == Ok(r)
    ensures !NotText(d, CityKey) && !NotText(d, AreaKey) && !NotText(d, SectorKey) && !NotText(d, AddressKey)
    ensures CityKey in r <==> Strip(FieldText(d, CityKey)) != []
    ensures CityKey in r ==> r[CityKey] == Str(CanonicalCity(Title(Strip(FieldText(d, CityKey))),
                                                             Lower(Strip(FieldText(d, CityKey))), CityTable))
    ensures AreaKey in r <==> Strip(FieldText(d, AreaKey)) != []
    ensures AreaKey in r ==> r[AreaKey] == Str(Title(Strip(FieldText(d, AreaKey))))
    ensures SectorKey in r <==> Strip(FieldText(d, SectorKey)) != []
    ensures SectorKey in r ==> r[SectorKey] == Str(Title(Strip(FieldText(d, SectorKey))))
    ensures AddressKey in r <==> Strip(FieldText(d, AddressKey)) != []
    ensures AddressKey in r ==> r[AddressKey] == Str(Strip(FieldText(d, AddressKey)))
  {
    LocationError(d);
    var city := Strip(FieldText(d, CityKey));
    var area := Strip(FieldText(d, AreaKey));
    var sector := Strip(FieldText(d, SectorKey));
    var address := Strip(FieldText(d, AddressKey));
    LocationBuilt(d, city, area, sector, address);
    LocationFields(city, area, sector, address);
  }

  // ------------------------------------------------------------------ clean text

  /** Text that is already stripped, single-spaced and free of removed punctuation comes back
      unchanged. */
  lemma {:induction false} CleanTextIdentity(rt: Runtime, s: string)
    requires s != [] && !IsSpace(s[0]) && !IsSpace(s[|s| - 1]) && SingleSpaced(s)
    requires forall i :: 0 <= i < |s| ==> KeepTextChar(s[i])
    ensures CleanText(rt, Str(s)) == s
  {
    StripIdentity(s);
    CollapseIdentity(s);
    FilterIdentity(s, KeepTextChar);
  }

  /** Every letter, digit, underscore and kept punctuation mark of a text survives
      `clean_text`, and no other non-space character is in its result. */
  lemma {:induction false} CleanTextKeeps(rt: Runtime, s: string, c: char)
    requires s != [] && !IsSpace(c)
    ensures c in CleanText(rt, Str(s)) <==> c in s && KeepTextChar(c)
  {
    if KeepTextChar(c) {
      StripKeeps(s, c);
      CollapseKeeps(Strip(s), c);
      FilterKeeps(Collapse(Strip(s)), KeepTextChar, c);
    }
  }
}
