/** The cleaning report (`generate_cleaning_report`): the counts before and after cleaning,
    and the numpy statistics over the quality scores, the truthy prices and the truthy
    sizes. Only the counts are kept; what matters to the caller is that numpy raises a
    TypeError when a statistic is taken over text or datetimes. */
module CleaningReport {
  import opened Basics
  import opened Records
  import opened Cleaner

  /** A value `np.mean` can add up with numbers: a bool, an int or a float. */
  predicate Averages(v: Value) {
    v.Bool? || v.Int? || v.Num?
  }

  /** The counts of the report. */
  datatype Report = Report(originalCount: nat, cleanedCount: nat, removedCount: int,
                           withPrice: nat, withArea: nat)

  /** `[prop.get(key) for prop in cleaned if prop.get(key)]` */
  function TruthyValues(cleaned: seq<Record>, key: Field): (r: seq<Value>)
    ensures |r| <= |cleaned|
    ensures forall v :: v in r ==> Truthy(v)
    ensures forall v :: v in r <==> exists j :: 0 <= j < |cleaned| && Has(cleaned[j], key) && v == cleaned[j][key]
  {
    if cleaned == [] then []
    else
      var rest := TruthyValues(cleaned[..|cleaned| - 1], key);
      var last := cleaned[|cleaned| - 1];
      assert forall j :: 0 <= j < |cleaned| - 1 ==> cleaned[..|cleaned| - 1][j] == cleaned[j];
      rest + (if Has(last, key) then [last[key]] else [])
  }

  /** `[prop.get('data_quality_score', 0) for prop in cleaned]` */
  function QualityScores(cleaned: seq<Record>): (r: seq<Value>)
    ensures |r| == |cleaned|
    ensures forall j :: 0 <= j < |cleaned| ==> r[j] == Get(cleaned[j], QualityKey, Int(0))
  {
    seq(|cleaned|, j requires 0 <= j < |cleaned| => Get(cleaned[j], QualityKey, Int(0)))
  }

  /** `np.mean` (taken first of the statistics) raises when one value is not a number. */
  predicate MeanRaises(vs: seq<Value>) {
    exists v :: v in vs && !Averages(v)
  }

  /** `generate_cleaning_report`: the statistics are taken only over a non-empty cleaned list
      and non-empty value lists; a TypeError when one of them holds a value that is not a
      number. */
  function GenerateCleaningReport(original: seq<Record>, cleaned: seq<Record>): (r: Result<Report, PyError>)
  {
    var prices := TruthyValues(cleaned, PriceKey);
    var areas := TruthyValues(cleaned, AreaSizeKey);
    if cleaned != [] && (MeanRaises(QualityScores(cleaned)) || MeanRaises(prices) || MeanRaises(areas)) then
      Err(TypeError)
    else
      Ok(Report(|original|, |cleaned|, |original| - |cleaned|, |prices|, |areas|))
  }

  /** A record that makes the report raise: its score is not a number, or its truthy price or
      size is not. */
  predicate SpoilsReport(d: Record) {
    !Averages(Get(d, QualityKey, Int(0)))
    || (Has(d, PriceKey) && !Averages(d[PriceKey]))
    || (Has(d, AreaSizeKey) && !Averages(d[AreaSizeKey]))
  }

  /** The report fails, with a TypeError, exactly when one cleaned record spoils it; otherwise
      it counts the records and the truthy prices and sizes. */
  lemma {:induction false} ReportRaisesIff(original: seq<Record>, cleaned: seq<Record>)
    ensures GenerateCleaningReport(original, cleaned).Err? <==>
              exists j :: 0 <= j < |cleaned| && SpoilsReport(cleaned[j])
    ensures GenerateCleaningReport(original, cleaned).Err? ==> GenerateCleaningReport(original, cleaned).error == TypeError
    ensures GenerateCleaningReport(original, cleaned).Ok? ==>
              var report := GenerateCleaningReport(original, cleaned).value;
              report.originalCount == |original| && report.cleanedCount == |cleaned|
              && report.removedCount == |original| - |cleaned|
              && report.withPrice <= |cleaned| && report.withArea <= |cleaned|
  {
    var prices := TruthyValues(cleaned, PriceKey);
    var areas := TruthyValues(cleaned, AreaSizeKey);
    var scores := QualityScores(cleaned);
    if exists j :: 0 <= j < |cleaned| && SpoilsReport(cleaned[j]) {
      var j :| 0 <= j < |cleaned| && SpoilsReport(cleaned[j]);
      if !Averages(Get(cleaned[j], QualityKey, Int(0))) {
        assert scores[j] in scores;
      } else if Has(cleaned[j], PriceKey) && !Averages(cleaned[j][PriceKey]) {
        assert cleaned[j][PriceKey] in prices;
      } else {
        assert cleaned[j][AreaSizeKey] in areas;
      }
    }
    if GenerateCleaningReport(original, cleaned).Err? {
      if MeanRaises(scores) {
        var v :| v in scores && !Averages(v);
        var j :| 0 <= j < |scores| && scores[j] == v;
        assert SpoilsReport(cleaned[j]);
      } else if MeanRaises(prices) {
        var v :| v in prices && !Averages(v);
        var j :| 0 <= j < |cleaned| && Has(cleaned[j], PriceKey) && v == cleaned[j][PriceKey];
        assert SpoilsReport(cleaned[j]);
      } else {
        var v :| v in areas && !Averages(v);
        var j :| 0 <= j < |cleaned| && Has(cleaned[j], AreaSizeKey) && v == cleaned[j][AreaSizeKey];
        assert SpoilsReport(cleaned[j]);
      }
    }
  }

  /** A cleaned record spoils the report exactly when its input had no truthy `area_raw` and a
      truthy `area_size` that is text or a datetime: the score is always a number, the price
      is a number or None, and a size read from `area_raw` is a number or None. */
  lemma {:induction false} CleanedSpoilsIff(rt: Runtime, d: Record, r: Record)
    requires CleanSingleProperty(rt, d) == Ok(r)
    ensures SpoilsReport(r) <==> RawArea(d)
  {
    CleanedValues(rt, d, r);
    CleanedScore(rt, d, r);
    CleanedAreaSize(rt, d, r);
  }

  /** An input whose `area_size` survives cleaning and cannot be averaged. */
  predicate RawArea(d: Record) {
    !Has(d, AreaRawKey) && Has(d, AreaSizeKey) && !Averages(d[AreaSizeKey])
  }

  /** Without a truthy `area_raw`, the cleaned record holds the input's `area_size` as it was. */
  lemma {:induction false} CleanedAreaSize(rt: Runtime, d: Record, r: Record)
    requires CleanSingleProperty(rt, d) == Ok(r)
    ensures !Has(d, AreaRawKey) ==> (AreaSizeKey in r <==> AreaSizeKey in d)
    ensures !Has(d, AreaRawKey) && AreaSizeKey in d ==> r[AreaSizeKey] == d[AreaSizeKey]
  {
    var c := CleanFields(rt, d).value;
    CleanFieldsArea(rt, d, c);
    RateAndScoreArea(c, r);
  }

  lemma {:induction false} CleanFieldsArea(rt: Runtime, d: Record, c: Record)
    requires CleanFields(rt, d) == Ok(c)
    ensures !Has(d, AreaRawKey) ==> (AreaSizeKey in c <==> AreaSizeKey in d)
    ensures !Has(d, AreaRawKey) && AreaSizeKey in d ==> c[AreaSizeKey] == d[AreaSizeKey]
  {
    var base := PricedAndSized(rt, d);
    var category := StandardizePropertyType(rt, Get(d, TypeKey, Str([]))).value;
    var location := CleanLocationData(d).value;
    var contact := CleanContactInfo(rt, d).value;
    var title := CleanText(rt, Get(d, TitleKey, Str([])));
    assert c == Overlay(base, category, location, contact, title);
    OverlayArea(base, category, location, contact, title);
  }

  lemma {:induction false} OverlayArea(base: Record, category: string, location: Record, contact: Record, title: string)
    requires location.Keys <= {CityKey, AreaKey, SectorKey, AddressKey}
    requires contact.Keys <= {PhoneKey, EmailKey, AgentKey, SellerKey}
    ensures AreaSizeKey in Overlay(base, category, location, contact, title) <==> AreaSizeKey in base
  {
  }

  lemma {:induction false} RateAndScoreArea(c: Record, r: Record)
    requires RateAndScore(c) == Ok(r)
    ensures AreaSizeKey in r <==> AreaSizeKey in c
    ensures AreaSizeKey in c ==> r[AreaSizeKey] == c[AreaSizeKey]
  {
    var rated := PerSqft(c).value;
    assert r == Scored(rated);
  }

  /** Every record the cleaning keeps is the accepted cleaned form of some input record. */
  lemma {:induction false} CleanValidFrom(clean: Record -> Result<Record, PyError>, props: seq<Record>)
    ensures forall x :: x in CleanValidBy(clean, props) ==>
              exists i :: 0 <= i < |props| && clean(props[i]) == Ok(x)
  {
    if props != [] {
      var n := |props| - 1;
      CleanValidFrom(clean, props[..n]);
      forall x | x in CleanValidBy(clean, props) ensures exists i :: 0 <= i < |props| && clean(props[i]) == Ok(x) {
        if x in CleanValidBy(clean, props[..n]) {
          var i :| 0 <= i < n && clean(props[..n][i]) == Ok(x);
          assert props[..n][i] == props[i];
        } else {
          assert clean(props[n]) == Ok(x);
        }
      }
    }
  }

  /** The first input record, when it is accepted, heads the kept list. */
  lemma {:induction false} CleanValidHead(clean: Record -> Result<Record, PyError>, props: seq<Record>)
    requires props != [] && clean(props[0]).Ok? && IsValidProperty(clean(props[0]).value)
    ensures CleanValidBy(clean, props) != [] && CleanValidBy(clean, props)[0] == clean(props[0]).value
  {
    var n := |props| - 1;
    if n > 0 {
      assert props[..n][0] == props[0];
      CleanValidHead(clean, props[..n]);
    }
  }

  /** The report over the cleaned list fails only because of an input record whose
      `area_size` survived cleaning as text or a datetime. */
  lemma {:induction false} CleanedReportRaises(rt: Runtime, props: seq<Record>)
    ensures GenerateCleaningReport(props, Unique(rt, CleanValid(rt, props))).Err? ==>
              exists i :: 0 <= i < |props| && RawArea(props[i])
  {
    var fp := FingerprintOf(rt);
    var cv := CleanValid(rt, props);
    var u := Unique(rt, cv);
    ReportRaisesIff(props, u);
    if GenerateCleaningReport(props, u).Err? {
      var j :| 0 <= j < |u| && SpoilsReport(u[j]);
      UniqueOnlyFirsts(fp, cv);
      assert u[j] in UniqueBy(fp, cv);
      var k :| 0 <= k < |cv| && IsFirst(fp, cv, k) && u[j] == Stamp(fp, cv[k]);
      assert SpoilsReport(cv[k]);
      CleanValidFrom(CleanerOf(rt), props);
      assert cv[k] in CleanValidBy(CleanerOf(rt), props);
      var i :| 0 <= i < |props| && CleanerOf(rt)(props[i]) == Ok(cv[k]);
      CleanedSpoilsIff(rt, props[i], cv[k]);
    }
  }

  /** An accepted first record that spoils the report is kept, stamped, by the deduplication. */
  lemma {:induction false} HeadKept(clean: Record -> Result<Record, PyError>, fp: Record -> string, props: seq<Record>, r: Record)
    requires props != [] && clean(props[0]) == Ok(r) && IsValidProperty(r) && SpoilsReport(r)
    ensures exists j :: 0 <= j < |UniqueBy(fp, CleanValidBy(clean, props))|
                        && SpoilsReport(UniqueBy(fp, CleanValidBy(clean, props))[j])
  {
    CleanValidHead(clean, props);
    var cv := CleanValidBy(clean, props);
    assert IsFirst(fp, cv, 0);
    UniqueKeepsFirsts(fp, cv);
    var u := UniqueBy(fp, cv);
    var j :| 0 <= j < |u| && u[j] == Stamp(fp, cv[0]);
    assert SpoilsReport(u[j]);
  }

  /** An accepted first record whose `area_size` survived cleaning as text or a datetime
      makes the report fail: `[{title: "x", city: "y", area_size: "1200"}]` is one. */
  lemma {:induction false} FirstRawAreaRaises(rt: Runtime, props: seq<Record>)
    requires props != [] && CleanSingleProperty(rt, props[0]).Ok?
    requires IsValidProperty(CleanSingleProperty(rt, props[0]).value) && RawArea(props[0])
    ensures GenerateCleaningReport(props, Unique(rt, CleanValid(rt, props))) == Err(TypeError)
  {
    var r := CleanSingleProperty(rt, props[0]).value;
    CleanedSpoilsIff(rt, props[0], r);
    HeadKept(CleanerOf(rt), FingerprintOf(rt), props, r);
    ReportRaisesIff(props, Unique(rt, CleanValid(rt, props)));
  }
}
