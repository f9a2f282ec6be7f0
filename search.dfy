/** `search_properties` of database/operations.py: the non-duplicate listing rows that pass
    the filters whose arguments are truthy, newest `date_scraped` first, at most `limit` of
    them. */
module Search {
  import opened Basics
  import opened TextOps
  import opened Records
  import opened Store

  /** The keyword arguments; `None` where the caller leaves one out. */
  datatype Query = Query(
    city: Option<string>, propertyType: Option<string>,
    minPrice: Option<real>, maxPrice: Option<real>, bedrooms: Option<int>, limit: nat)

  /** The arguments a caller gets by default: no filter, 50 rows. */
  const DefaultQuery := Query(None, None, None, None, None, 50)

  /** Python truthiness of an optional argument. */
  predicate TextSet(o: Option<string>) { o.Some? && o.value != [] }
  predicate NumSet(o: Option<real>) { o.Some? && o.value != 0.0 }
  predicate IntSet(o: Option<int>) { o.Some? && o.value != 0 }

  /** `column.ilike('%' + p + '%')`: a string column holding `p` in any letter case; NULL
      matches nothing. */
  predicate ILike(v: Value, p: string) {
    v.Str? && Contains(Lower(v.s), Lower(p))
  }

  /** `column >= x` and `column <= x` on a numeric column; NULL matches nothing. */
  predicate AtLeast(v: Value, x: real) { AsReal(v).Some? && AsReal(v).value >= x }
  predicate AtMost(v: Value, x: real) { AsReal(v).Some? && AsReal(v).value <= x }

  /** The row passes `is_duplicate == False` and every filter whose argument is truthy. */
  predicate Matches(q: Query, r: Row) {
    Get(r.data, DuplicateKey, Null) == Bool(false)
    && (TextSet(q.city) ==> ILike(Get(r.data, CityKey, Null), q.city.value))
    && (TextSet(q.propertyType) ==> ILike(Get(r.data, TypeKey, Null), q.propertyType.value))
    && (NumSet(q.minPrice) ==> AtLeast(Get(r.data, PriceKey, Null), q.minPrice.value))
    && (NumSet(q.maxPrice) ==> AtMost(Get(r.data, PriceKey, Null), q.maxPrice.value))
    && (IntSet(q.bedrooms) ==> AsReal(Get(r.data, BedroomsKey, Null)) == Some(q.bedrooms.value as real))
  }

  /** The rows that pass, in storage order. */
  function Matching(rows: seq<Row>, q: Query): seq<Row> {
    if rows == [] then []
    else (if Matches(q, rows[0]) then [rows[0]] else []) + Matching(rows[1..], q)
  }

  /** A row is kept exactly when it is stored and passes. */
  lemma {:induction false} MatchingIff(rows: seq<Row>, q: Query)
    ensures forall x :: x in Matching(rows, q) <==> x in rows && Matches(q, x)
    ensures |Matching(rows, q)| <= |rows|
  {
    if rows != [] {
      MatchingIff(rows[1..], q);
      assert forall x :: x in rows <==> x == rows[0] || x in rows[1..];
    }
  }

  /** The `date_scraped` of a row as a number (a stored row always has one). */
  function ScrapedAt(r: Row): int {
    var v := Get(r.data, ScrapedKey, Null);
    if v.Time? then v.t else 0
  }

  /** Newest first. */
  predicate Descending(s: seq<Row>) {
    forall i, j :: 0 <= i < j < |s| ==> ScrapedAt(s[i]) >= ScrapedAt(s[j])
  }

  /** `x` placed after every row of the descending `s` that is at least as new. */
  function Insert(x: Row, s: seq<Row>): seq<Row> {
    if s == [] then [x]
    else if ScrapedAt(s[0]) >= ScrapedAt(x) then [s[0]] + Insert(x, s[1..])
    else [x] + s
  }

  /** Inserting adds exactly `x`. */
  lemma {:induction false} InsertCount(x: Row, s: seq<Row>)
    ensures multiset(Insert(x, s)) == multiset(s) + multiset{x}
    ensures |Insert(x, s)| == |s| + 1
  {
    if s != [] && ScrapedAt(s[0]) >= ScrapedAt(x) {
      InsertCount(x, s[1..]);
      assert s == [s[0]] + s[1..];
    }
  }

  /** Inserting into a descending sequence keeps it descending. */
  lemma {:induction false} InsertSorted(x: Row, s: seq<Row>)
    requires Descending(s)
    ensures Descending(Insert(x, s))
  {
    if s == [] {
    } else if ScrapedAt(s[0]) >= ScrapedAt(x) {
      var rest := s[1..];
      InsertSorted(x, rest);
      InsertCount(x, rest);
      var t := Insert(x, rest);
      forall j | 0 <= j < |t| ensures ScrapedAt(s[0]) >= ScrapedAt(t[j]) {
        assert t[j] in multiset(rest) + multiset{x};
        if t[j] != x {
          var i :| 0 <= i < |rest| && rest[i] == t[j];
          assert s[i + 1] == t[j];
        }
      }
      ConsDescending(s[0], t);
    } else {
      ConsDescending(x, s);
    }
  }

  /** A row at least as new as every row of a descending list can go in front of it. */
  lemma {:induction false} ConsDescending(a: Row, t: seq<Row>)
    requires Descending(t) && forall j :: 0 <= j < |t| ==> ScrapedAt(a) >= ScrapedAt(t[j])
    ensures Descending([a] + t)
  {
    var s := [a] + t;
    forall i, j | 0 <= i < j < |s| ensures ScrapedAt(s[i]) >= ScrapedAt(s[j]) {
      assert s[j] == t[j - 1];
      if i > 0 {
        assert s[i] == t[i - 1];
      }
    }
  }


  /** `ORDER BY date_scraped DESC`, rows of equal date in storage order. */
  function SortByDate(rs: seq<Row>): seq<Row> {
    if rs == [] then [] else Insert(rs[|rs| - 1], SortByDate(rs[..|rs| - 1]))
  }

  /** The sort orders newest first and is a permutation of its input. */
  lemma {:induction false} SortByDateSorted(rs: seq<Row>)
    ensures Descending(SortByDate(rs))
    ensures multiset(SortByDate(rs)) == multiset(rs)
    ensures |SortByDate(rs)| == |rs|
  {
    if rs != [] {
      var prefix := rs[..|rs| - 1];
      SortByDateSorted(prefix);
      InsertSorted(rs[|rs| - 1], SortByDate(prefix));
      InsertCount(rs[|rs| - 1], SortByDate(prefix));
      assert rs == prefix + [rs[|rs| - 1]];
    }
  }

  /** `search_properties`: the passing rows, newest first, cut at `limit`. */
  function SearchProperties(rows: seq<Row>, q: Query): seq<Row> {
    var sorted := SortByDate(Matching(rows, q));
    if q.limit < |sorted| then sorted[..q.limit] else sorted
  }

  /** Every row returned is stored and passes every active filter, and the result is newest
      first. */
  lemma {:induction false} SearchSound(rows: seq<Row>, q: Query)
    ensures forall x :: x in SearchProperties(rows, q) ==> x in rows && Matches(q, x)
    ensures Descending(SearchProperties(rows, q))
  {
    var m := Matching(rows, q);
    MatchingIff(rows, q);
    SortByDateSorted(m);
    var sorted := SortByDate(m);
    forall x | x in SearchProperties(rows, q) ensures x in rows && Matches(q, x) {
      assert x in sorted;
      assert x in multiset(m);
    }
  }

  /** As many rows as pass, up to `limit`. */
  lemma {:induction false} SearchSize(rows: seq<Row>, q: Query)
    ensures var n := |Matching(rows, q)|;
      |SearchProperties(rows, q)| == if q.limit < n then q.limit else n
  {
    SortByDateSorted(Matching(rows, q));
  }

  /** A passing row that is not returned is no newer than any returned row, and is left out
      only because `limit` rows were returned. */
  lemma {:induction false} SearchNewest(rows: seq<Row>, q: Query, x: Row)
    requires x in rows && Matches(q, x) && x !in SearchProperties(rows, q)
    ensures |SearchProperties(rows, q)| == q.limit
    ensures forall y :: y in SearchProperties(rows, q) ==> ScrapedAt(y) >= ScrapedAt(x)
  {
    var m := Matching(rows, q);
    MatchingIff(rows, q);
    SortByDateSorted(m);
    var sorted := SortByDate(m);
    assert x in multiset(m);
    assert x in sorted;
    var k :| 0 <= k < |sorted| && sorted[k] == x;
    assert q.limit < |sorted| && k >= q.limit;
    forall y | y in SearchProperties(rows, q) ensures ScrapedAt(y) >= ScrapedAt(x) {
      var i :| 0 <= i < q.limit && sorted[i] == y;
    }
  }

  /** The letter case of a text argument does not matter. */
  lemma {:induction false} SearchIgnoresCase(rows: seq<Row>, q: Query, city: string, propertyType: string)
    ensures SearchProperties(rows, q.(city := Some(city), propertyType := Some(propertyType)))
         == SearchProperties(rows, q.(city := Some(Lower(city)), propertyType := Some(Lower(propertyType))))
  {
    var a := q.(city := Some(city), propertyType := Some(propertyType));
    var b := q.(city := Some(Lower(city)), propertyType := Some(Lower(propertyType)));
    LowerTwice(city);
    LowerTwice(propertyType);
    forall r ensures Matches(a, r) == Matches(b, r) {
    }
    MatchingSame(rows, a, b);
  }

  /** Two queries that pass the same rows keep the same rows. */
  lemma {:induction false} MatchingSame(rows: seq<Row>, a: Query, b: Query)
    requires forall r :: Matches(a, r) == Matches(b, r)
    requires a.limit == b.limit
    ensures Matching(rows, a) == Matching(rows, b)
    ensures SearchProperties(rows, a) == SearchProperties(rows, b)
  {
    if rows != [] {
      MatchingSame(rows[1..], a, b);
    }
  }
}
