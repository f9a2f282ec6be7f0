/** The listing table of database/operations.py as values: the content hash that keys it, the
    row a single insert builds, and the pass a bulk insert makes over a batch before its
    commit. The table is a sequence of rows in insertion order; sha256 is the runtime's
    uninterpreted digest. */
module Store {
  import opened Basics
  import opened Records
  import opened Cleaner

  /** A stored `property_listings` row: its primary key and its column values. */
  datatype Row = Row(id: nat, data: Record)

  // ------------------------------------------------------------ content hash

  /** The fields whose shown values, concatenated, the store hashes. */
  const HashKeys: seq<Field> := [TitleKey, CityKey, AreaKey, PriceRawKey, TypeKey, BedroomsKey, AreaSizeKey]

  /** `generate_content_hash` */
  function ContentHash(rt: Runtime, d: Record): string {
    rt.sha256(KeyString(rt, d, HashKeys))
  }

  /** `ContentHash` as a function value. */
  function HashOf(rt: Runtime): Record -> string {
    d => ContentHash(rt, d)
  }

  /** The hash is a function of the seven hashed fields alone (a missing one counts as the
      empty string): two records that agree on them hash alike, whatever else they hold. */
  lemma {:induction false} ContentHashReadsKeys(rt: Runtime, d: Record, e: Record)
    requires forall k :: k in HashKeys ==> Get(d, k, Str([])) == Get(e, k, Str([]))
    ensures ContentHash(rt, d) == ContentHash(rt, e)
  {
    KeyStringReadsKeys(rt, d, e, HashKeys);
    assert KeyString(rt, d, HashKeys) == KeyString(rt, e, HashKeys);
  }

  /** The key string of the first two keys and the rest. */
  lemma {:induction false} KeyStringTwo(rt: Runtime, d: Record, keys: seq<Field>)
    requires |keys| >= 2
    ensures KeyString(rt, d, keys)
         == Show(rt, Get(d, keys[0], Str([]))) + (Show(rt, Get(d, keys[1], Str([]))) + KeyString(rt, d, keys[2..]))
  {
    assert keys[1..][1..] == keys[2..];
  }

  /** Over keys that start with the title and then the city and hold neither again, a title
      `a + b` with no city shows as the title `a` in the city `b`. */
  lemma {:induction false} KeyStringJoins(rt: Runtime, keys: seq<Field>, a: string, b: string)
    requires |keys| >= 2 && keys[0] == TitleKey && keys[1] == CityKey
    requires TitleKey !in keys[2..] && CityKey !in keys[2..]
    ensures KeyString(rt, map[TitleKey := Str(a + b)], keys)
         == KeyString(rt, map[TitleKey := Str(a), CityKey := Str(b)], keys)
  {
    var d: Record := map[TitleKey := Str(a + b)];
    var e: Record := map[TitleKey := Str(a), CityKey := Str(b)];
    var rest := keys[2..];
    forall k | k in rest ensures Get(d, k, Str([])) == Get(e, k, Str([])) {
    }
    KeyStringReadsKeys(rt, d, e, rest);
    KeyStringTwo(rt, d, keys);
    KeyStringTwo(rt, e, keys);
    var tail := KeyString(rt, d, rest);
    assert Show(rt, Get(d, keys[0], Str([]))) == a + b && Show(rt, Get(d, keys[1], Str([]))) == [];
    assert Show(rt, Get(e, keys[0], Str([]))) == a && Show(rt, Get(e, keys[1], Str([]))) == b;
    JoinsAssoc(a, b, tail);
  }

  /** Regrouping the joined strings. */
  lemma {:induction false} JoinsAssoc(a: string, b: string, tail: string)
    ensures (a + b) + ([] + tail) == a + (b + tail)
  {
  }

  /** There is no delimiter between the fields: the title `a + b` in no city and the title `a`
      in the city `b` hash alike. */
  lemma {:induction false} ContentHashNoDelimiter(rt: Runtime, a: string, b: string)
    ensures ContentHash(rt, map[TitleKey := Str(a + b)]) == ContentHash(rt, map[TitleKey := Str(a), CityKey := Str(b)])
  {
    KeyStringJoins(rt, HashKeys, a, b);
  }

  /** `content_hash` of a row is `h`. */
  predicate HasHash(r: Row, h: string) {
    HashKey in r.data && r.data[HashKey] == Str(h)
  }

  /** `query(...).filter_by(content_hash=h).first()` over the committed rows, taking the
      earliest stored match. */
  function FindByHash(rows: seq<Row>, h: string): (r: Option<Row>)
    ensures r.Some? ==> r.value in rows && HasHash(r.value, h)
    ensures r.None? <==> forall j :: 0 <= j < |rows| ==> !HasHash(rows[j], h)
  {
    if rows == [] then None
    else if HasHash(rows[0], h) then Some(rows[0])
    else FindByHash(rows[1..], h)
  }

  /** A lookup in a longer table finds whatever the shorter one held. */
  lemma {:induction false} FindByHashGrows(rows: seq<Row>, more: seq<Row>, h: string)
    requires FindByHash(rows, h).Some?
    ensures FindByHash(rows + more, h).Some?
  {
    var j :| 0 <= j < |rows| && HasHash(rows[j], h);
    assert (rows + more)[j] == rows[j];
  }

  /** A lookup that misses the first rows answers from the rest. */
  lemma {:induction false} FindByHashPast(rows: seq<Row>, more: seq<Row>, h: string)
    requires FindByHash(rows, h).None?
    ensures FindByHash(rows + more, h) == FindByHash(more, h)
  {
    if rows != [] {
      assert !HasHash(rows[0], h);
      assert (rows + more)[0] == rows[0];
      assert (rows + more)[1..] == rows[1..] + more;
      FindByHashPast(rows[1..], more, h);
    } else {
      assert rows + more == more;
    }
  }

  // -------------------------------------------------------------- row shape

  /** The 22 columns `insert_property` copies out of the dictionary: all but the id, the
      hash, the score and the two columns with defaults. */
  predicate IsCopied(k: Field) {
    !(k.Other? || k == IdKey || k == HashKey || k == QualityKey || k == ScrapedKey || k == DuplicateKey)
  }

  /** A record all of whose keys are columns of the listing table (`PropertyListing(**d)`
      accepts it). */
  predicate ColumnsOnly(d: Record) {
    forall k :: k in d ==> !k.Other?
  }

  /** The column defaults a new row gets when the insert leaves them out: `date_scraped` the
      current time, `is_duplicate` false. */
  function WithDefaults(now: int, d: Record): Record {
    var dated := if ScrapedKey in d then d else d[ScrapedKey := Time(now)];
    if DuplicateKey in dated then dated else dated[DuplicateKey := Bool(false)]
  }

  /** The defaults fill only the two columns the dictionary leaves out. */
  lemma {:induction false} WithDefaultsFacts(now: int, d: Record)
    ensures var r := WithDefaults(now, d);
      r.Keys == d.Keys + {ScrapedKey, DuplicateKey}
      && (forall k :: k in d ==> r[k] == d[k])
      && (ScrapedKey !in d ==> r[ScrapedKey] == Time(now))
      && (DuplicateKey !in d ==> r[DuplicateKey] == Bool(false))
  {
  }

  /** The row `insert_property` builds: the copied columns (a column absent from the row is
      NULL, as is one the dictionary lacks), the content hash, the quality score, and the
      column defaults. */
  function ListingRow(now: int, d: Record, h: string): (r: Record)
    ensures forall k :: IsCopied(k) ==> Get(r, k, Null) == Get(d, k, Null)
    ensures HashKey in r && r[HashKey] == Str(h)
    ensures QualityKey in r && r[QualityKey] == Num(QualityScore(d) as real / 100.0)
    ensures ScrapedKey in r && r[ScrapedKey] == Time(now)
    ensures DuplicateKey in r && r[DuplicateKey] == Bool(false)
  {
    var copied := map k | k in d && IsCopied(k) :: d[k];
    var scored := copied[HashKey := Str(h)][QualityKey := Num(QualityScore(d) as real / 100.0)];
    WithDefaultsFacts(now, scored);
    WithDefaults(now, scored)
  }

  /** The NOT NULL columns hold values, and `date_scraped` a datetime: what a commit
      demands of a new row. */
  predicate Storable(data: Record) {
    Get(data, TitleKey, Null) != Null && Get(data, CityKey, Null) != Null
    && Get(data, TypeKey, Null) != Null && Get(data, SourceKey, Null) != Null
    && Get(data, ScrapedKey, Null).Time?
  }

  // ---------------------------------------------------------- single insert

  /** What `insert_property` does with one dictionary. */
  datatype InsertOutcome =
    | Existing(id: nat)  // a stored row has the hash: its id, nothing added
    | Added(row: Row)  // one new row, committed
    | Failed  // an exception: rolled back, `None` returned

  /** `insert_property`: a stored row with the same hash answers with its id (the debug line
      slices the title, which raises for a title that is not a string); otherwise the new row
      is committed when the NOT NULL columns allow it. */
  function InsertPlan(rt: Runtime, now: int, rows: seq<Row>, nextId: nat, d: Record): (o: InsertOutcome)
    ensures o.Existing? ==>
      exists j :: 0 <= j < |rows| && rows[j].id == o.id && HasHash(rows[j], ContentHash(rt, d))
    ensures o.Added? ==>
      (forall j :: 0 <= j < |rows| ==> !HasHash(rows[j], ContentHash(rt, d)))
      && o.row.id == nextId && Storable(o.row.data) && HasHash(o.row, ContentHash(rt, d))
      && QualityKey in o.row.data && o.row.data[QualityKey] == Num(QualityScore(d) as real / 100.0)
      && (forall k :: IsCopied(k) ==> Get(o.row.data, k, Null) == Get(d, k, Null))
    ensures o.Failed? <==>
      if FindByHash(rows, ContentHash(rt, d)).Some? then TitleKey in d && !d[TitleKey].Str?
      else !Storable(ListingRow(now, d, ContentHash(rt, d)))
  {
    var h := ContentHash(rt, d);
    var existing := FindByHash(rows, h);
    if existing.Some? then
      if TitleKey in d && !d[TitleKey].Str? then Failed else Existing(existing.value.id)
    else
      var data := ListingRow(now, d, h);
      if Storable(data) then Added(Row(nextId, data)) else Failed
  }

  /** Inserting the same dictionary again, at any later time, answers with the id of the row
      the first insert added and adds nothing. */
  lemma {:induction false} InsertIdempotent(rt: Runtime, now: int, later: int, rows: seq<Row>, nextId: nat, d: Record)
    requires InsertPlan(rt, now, rows, nextId, d).Added?
    requires d[TitleKey].Str?
    ensures var row := InsertPlan(rt, now, rows, nextId, d).row;
      InsertPlan(rt, later, rows + [row], nextId + 1, d) == Existing(row.id)
  {
    var row := InsertPlan(rt, now, rows, nextId, d).row;
    FindByHashPast(rows, [row], ContentHash(rt, d));
  }

  /** An existing row answers only while the title is a string or absent: a second insert of
      a dictionary whose title is a number fails even though its row is stored. */
  lemma {:induction false} InsertNonStringTitle(rt: Runtime, now: int, rows: seq<Row>, nextId: nat, d: Record, n: int)
    requires d[TitleKey := Int(n)] == d && FindByHash(rows, ContentHash(rt, d)).Some?
    ensures InsertPlan(rt, now, rows, nextId, d).Failed?
  {
  }

  // ------------------------------------------------------------- bulk insert

  /** The state of `bulk_insert_properties` inside its session: the two counters, the rows
      added to the session (not yet flushed), the caller's dictionaries as they stand, and
      whether an exception left the loop. */
  datatype Pass = Pass(inserted: nat, duplicates: nat, pending: seq<Row>, records: seq<Record>, failed: bool)

  /** What the bulk insert writes into a new record's dictionary: its hash, then its score. */
  function Prepared(hash: Record -> string, d: Record): Record {
    var stamped := d[HashKey := Str(hash(d))];
    stamped[QualityKey := Num(QualityScore(stamped) as real / 100.0)]
  }

  /** The dictionary is prepared as the normaliser stamps and scores its records: the score
      is the record's own completeness in [0, 1], which writing it does not change. */
  lemma {:induction false} PreparedIsScored(hash: Record -> string, d: Record)
    ensures Prepared(hash, d) == Scored(Stamp(hash, d))
    ensures var p := Prepared(hash, d);
      p[QualityKey] == Num(QualityScore(p) as real / 100.0) && 0.0 <= p[QualityKey].x <= 1.0
  {
  }

  /** Preparing writes the hash and the score and nothing else. */
  lemma {:induction false} PreparedFacts(hash: Record -> string, d: Record)
    ensures var r := Prepared(hash, d);
      r.Keys == d.Keys + {HashKey, QualityKey}
      && r[HashKey] == Str(hash(d))
      && forall k :: k in d && k != HashKey && k != QualityKey ==> r[k] == d[k]
  {
  }

  /** Writing the hash and the score leaves the hash as it was. */
  lemma {:induction false} PreparedSameHash(rt: Runtime, d: Record)
    ensures ContentHash(rt, Prepared(HashOf(rt), d)) == ContentHash(rt, d)
  {
    var p := Prepared(HashOf(rt), d);
    PreparedFacts(HashOf(rt), d);
    forall k | k in HashKeys ensures Get(p, k, Str([])) == Get(d, k, Str([])) {
      assert k != HashKey && k != QualityKey;
    }
    ContentHashReadsKeys(rt, p, d);
  }

  /** The hashes of the committed rows. */
  function Hashes(rows: seq<Row>): set<string> {
    set j | 0 <= j < |rows| && HashKey in rows[j].data && rows[j].data[HashKey].Str? :: rows[j].data[HashKey].s
  }

  /** The duplicate query finds a row exactly when the hash is among the committed ones. */
  lemma {:induction false} HashesFind(rows: seq<Row>, h: string)
    ensures h in Hashes(rows) <==> FindByHash(rows, h).Some?
  {
    if h in Hashes(rows) {
      var j :| 0 <= j < |rows| && HashKey in rows[j].data && rows[j].data[HashKey].Str? && rows[j].data[HashKey].s == h;
      assert HasHash(rows[j], h);
    }
  }

  /** The hash of a record is not among the `known` hashes of the committed rows. */
  predicate Absent(hash: Record -> string, known: set<string>, d: Record) {
    hash(d) !in known
  }

  /** One iteration of the loop, on the caller's record `d` at position `i`. The duplicate
      query sees only committed rows (autoflush is off), so an earlier record of the same
      batch does not make this one a duplicate. A new record gets its hash and score written
      into the caller's dictionary before `PropertyListing(**d)`, which raises a TypeError
      for a key that is no column (the two keys written are columns). */
  function BulkStep(hash: Record -> string, now: int, known: set<string>, nextId: nat, s: Pass, d: Record, i: nat): (t: Pass)
    requires i < |s.records| && !s.failed
    ensures |t.records| == |s.records|
    ensures t.inserted >= s.inserted && |t.pending| == |s.pending| + (t.inserted - s.inserted)
    ensures t.inserted + t.duplicates == s.inserted + s.duplicates + (if t.failed then 0 else 1)
  {
    if !Absent(hash, known, d) then s.(duplicates := s.duplicates + 1)
    else
      var records := s.records[i := Prepared(hash, d)];
      if !ColumnsOnly(d) then s.(records := records, failed := true)
      else
        var row := Row(nextId + |s.pending|, WithDefaults(now, Prepared(hash, d)));
        s.(inserted := s.inserted + 1, pending := s.pending + [row], records := records)
  }

  /** The loop over the first `n` records of `batch`, left at the first exception. */
  function BulkUpTo(hash: Record -> string, now: int, known: set<string>, nextId: nat, batch: seq<Record>, n: nat): (p: Pass)
    requires n <= |batch|
    ensures |p.records| == |batch|
  {
    if n == 0 then Pass(0, 0, [], batch, false)
    else
      var p := BulkUpTo(hash, now, known, nextId, batch, n - 1);
      if p.failed then p else BulkStep(hash, now, known, nextId, p, batch[n - 1], n - 1)
  }

  /** The whole loop over `batch`. */
  function Bulk(hash: Record -> string, now: int, known: set<string>, nextId: nat, batch: seq<Record>): Pass {
    BulkUpTo(hash, now, known, nextId, batch, |batch|)
  }

  /** Whether the commit goes through: the loop ended normally and every pending row fits
      the NOT NULL columns. Otherwise the session rolls back and nothing is stored. */
  predicate Commits(p: Pass) {
    !p.failed && forall j :: 0 <= j < |p.pending| ==> Storable(p.pending[j].data)
  }

  /** The committed table after the bulk insert. */
  function Committed(rows: seq<Row>, p: Pass): (r: seq<Row>)
    ensures Commits(p) ==> r == rows + p.pending
    ensures !Commits(p) ==> r == rows
  {
    if Commits(p) then rows + p.pending else rows
  }

  /** Once an exception has left the loop, later records change nothing. */
  lemma {:induction false} BulkUpToFailed(hash: Record -> string, now: int, known: set<string>, nextId: nat, batch: seq<Record>, k: nat, m: nat)
    requires k <= m <= |batch| && BulkUpTo(hash, now, known, nextId, batch, k).failed
    ensures BulkUpTo(hash, now, known, nextId, batch, m) == BulkUpTo(hash, now, known, nextId, batch, k)
    decreases m
  {
    if m > k {
      BulkUpToFailed(hash, now, known, nextId, batch, k, m - 1);
    }
  }

  /** Every record is counted once, as inserted or as a duplicate, exactly when no exception
      left the loop; after one, fewer are counted. Each inserted record has one pending row. */
  lemma {:induction false} BulkUpToCounts(hash: Record -> string, now: int, known: set<string>, nextId: nat, batch: seq<Record>, n: nat)
    requires n <= |batch|
    ensures var p := BulkUpTo(hash, now, known, nextId, batch, n);
      p.inserted == |p.pending|
      && (p.failed ==> p.inserted + p.duplicates < n)
      && (!p.failed ==> p.inserted + p.duplicates == n)
  {
    if n > 0 {
      BulkUpToCounts(hash, now, known, nextId, batch, n - 1);
    }
  }

  /** Rows numbered consecutively from `first`. */
  predicate IdsFrom(rs: seq<Row>, first: nat) {
    forall k :: 0 <= k < |rs| ==> rs[k].id == first + k
  }

  /** The pending rows carry consecutive ids from `nextId`, in the order they were added. */
  lemma {:induction false} BulkUpToIds(hash: Record -> string, now: int, known: set<string>, nextId: nat, batch: seq<Record>, n: nat)
    requires n <= |batch|
    ensures IdsFrom(BulkUpTo(hash, now, known, nextId, batch, n).pending, nextId)
  {
    if n > 0 {
      var q := BulkUpTo(hash, now, known, nextId, batch, n - 1);
      BulkUpToIds(hash, now, known, nextId, batch, n - 1);
      if !q.failed {
        var p := BulkStep(hash, now, known, nextId, q, batch[n - 1], n - 1);
        assert p.pending == q.pending || p.pending == q.pending + [Row(nextId + |q.pending|, p.pending[|q.pending|].data)];
      }
    }
  }

  /** `inserted + duplicates == len(batch)` exactly when the loop ran to its end. */
  lemma {:induction false} BulkCounts(hash: Record -> string, now: int, known: set<string>, nextId: nat, batch: seq<Record>)
    ensures var r := Bulk(hash, now, known, nextId, batch);
      r.inserted == |r.pending| && r.inserted + r.duplicates <= |batch|
      && (!r.failed <==> r.inserted + r.duplicates == |batch|)
  {
    BulkUpToCounts(hash, now, known, nextId, batch, |batch|);
  }

  /** The dictionaries ahead of the loop are the caller's originals, those behind it the
      originals or, for an absent hash, prepared; when no exception occurred, every one behind
      it with an absent hash is prepared. */
  lemma {:induction false} BulkUpToStamps(hash: Record -> string, now: int, known: set<string>, nextId: nat, batch: seq<Record>, n: nat)
    requires n <= |batch|
    ensures var p := BulkUpTo(hash, now, known, nextId, batch, n);
      (forall j :: 0 <= j < |batch| ==>
        p.records[j] == batch[j] || (Absent(hash, known, batch[j]) && p.records[j] == Prepared(hash, batch[j])))
      && (forall j :: n <= j < |batch| ==> p.records[j] == batch[j])
      && (!p.failed ==> forall j :: 0 <= j < n && Absent(hash, known, batch[j]) ==> p.records[j] == Prepared(hash, batch[j]))
  {
    if n > 0 {
      BulkUpToStamps(hash, now, known, nextId, batch, n - 1);
    }
  }

  /** Only the records whose hash was absent get `content_hash` and `data_quality_score`
      written into the caller's dictionary, and all of them do when no exception occurred. */
  lemma {:induction false} BulkStamps(hash: Record -> string, now: int, known: set<string>, nextId: nat, batch: seq<Record>)
    ensures var r := Bulk(hash, now, known, nextId, batch);
      |r.records| == |batch|
      && (forall j :: 0 <= j < |batch| ==>
        r.records[j] == batch[j] || (Absent(hash, known, batch[j]) && r.records[j] == Prepared(hash, batch[j])))
      && (!r.failed ==> forall j :: 0 <= j < |batch| && Absent(hash, known, batch[j]) ==> r.records[j] == Prepared(hash, batch[j]))
  {
    BulkUpToStamps(hash, now, known, nextId, batch, |batch|);
  }

  /** The records of `ds` whose hash is not stored, in order. */
  function Absentees(hash: Record -> string, known: set<string>, ds: seq<Record>): (a: seq<Record>)
    ensures |a| <= |ds|
  {
    if ds == [] then []
    else
      var last := ds[|ds| - 1];
      Absentees(hash, known, ds[..|ds| - 1]) + (if Absent(hash, known, last) then [last] else [])
  }

  /** The rows the bulk insert adds for `ds`: consecutive ids from `first`, each record
      prepared and given the column defaults. */
  function NewRows(hash: Record -> string, now: int, first: nat, ds: seq<Record>): (r: seq<Row>)
    ensures |r| == |ds|
  {
    if ds == [] then []
    else NewRows(hash, now, first, ds[..|ds| - 1]) + [Row(first + |ds| - 1, WithDefaults(now, Prepared(hash, ds[|ds| - 1])))]
  }

  /** The `j`-th new row. */
  lemma {:induction false} NewRowsAt(hash: Record -> string, now: int, first: nat, ds: seq<Record>, j: nat)
    requires j < |ds|
    ensures NewRows(hash, now, first, ds)[j] == Row(first + j, WithDefaults(now, Prepared(hash, ds[j])))
  {
    if j < |ds| - 1 {
      NewRowsAt(hash, now, first, ds[..|ds| - 1], j);
    }
  }

  /** New rows for one more record. */
  lemma {:induction false} NewRowsSnoc(hash: Record -> string, now: int, first: nat, ds: seq<Record>, d: Record)
    ensures NewRows(hash, now, first, ds + [d]) == NewRows(hash, now, first, ds) + [Row(first + |ds|, WithDefaults(now, Prepared(hash, d)))]
  {
    assert (ds + [d])[..|ds|] == ds;
  }

  /** The absent records of a longer prefix. */
  lemma {:induction false} AbsenteesPrefix(hash: Record -> string, known: set<string>, batch: seq<Record>, n: nat)
    requires 0 < n <= |batch|
    ensures Absentees(hash, known, batch[..n])
      == Absentees(hash, known, batch[..n - 1]) + (if Absent(hash, known, batch[n - 1]) then [batch[n - 1]] else [])
  {
    assert batch[..n][..n - 1] == batch[..n - 1];
  }

  /** One step keeps the pending rows equal to the new rows of the absent records so far. */
  lemma {:induction false} BulkStepPending(hash: Record -> string, now: int, known: set<string>, nextId: nat, q: Pass, d: Record, i: nat, before: seq<Record>)
    requires i < |q.records| && !q.failed
    requires q.pending == NewRows(hash, now, nextId, before)
    ensures var p := BulkStep(hash, now, known, nextId, q, d, i);
      !p.failed ==> p.pending == NewRows(hash, now, nextId, before + (if Absent(hash, known, d) then [d] else []))
  {
    if Absent(hash, known, d) {
      NewRowsSnoc(hash, now, nextId, before, d);
    } else {
      assert before + [] == before;
    }
  }

  /** When the loop runs to its end, the pending rows are the new rows of the absent records
      so far. */
  lemma {:induction false} BulkUpToPending(hash: Record -> string, now: int, known: set<string>, nextId: nat, batch: seq<Record>, n: nat)
    requires n <= |batch|
    ensures var p := BulkUpTo(hash, now, known, nextId, batch, n);
      !p.failed ==> p.pending == NewRows(hash, now, nextId, Absentees(hash, known, batch[..n]))
  {
    if n == 0 {
      assert batch[..0] == [];
    } else {
      var q := BulkUpTo(hash, now, known, nextId, batch, n - 1);
      BulkUpToPending(hash, now, known, nextId, batch, n - 1);
      AbsenteesPrefix(hash, known, batch, n);
      if !q.failed {
        BulkStepPending(hash, now, known, nextId, q, batch[n - 1], n - 1, Absentees(hash, known, batch[..n - 1]));
      }
    }
  }

  /** When the loop runs to its end, exactly the records whose hash was absent become pending
      rows, in batch order, with consecutive ids from `nextId`. */
  lemma {:induction false} BulkPending(hash: Record -> string, now: int, known: set<string>, nextId: nat, batch: seq<Record>)
    ensures var r := Bulk(hash, now, known, nextId, batch);
      !r.failed ==> r.pending == NewRows(hash, now, nextId, Absentees(hash, known, batch))
  {
    BulkUpToPending(hash, now, known, nextId, batch, |batch|);
    assert batch[..|batch|] == batch;
  }

  /** With every hash already stored the loop only counts duplicates. */
  lemma {:induction false} BulkUpToAllStored(hash: Record -> string, now: int, known: set<string>, nextId: nat, batch: seq<Record>, n: nat)
    requires n <= |batch|
    requires forall j :: 0 <= j < |batch| ==> !Absent(hash, known, batch[j])
    ensures BulkUpTo(hash, now, known, nextId, batch, n) == Pass(0, n, [], batch, false)
  {
    if n > 0 {
      BulkUpToAllStored(hash, now, known, nextId, batch, n - 1);
    }
  }

  /** A batch whose hashes are all stored yields `(0, len(batch))`, writes nothing into the
      dictionaries and leaves the table as it was. */
  lemma {:induction false} BulkAllStored(hash: Record -> string, now: int, known: set<string>, nextId: nat, batch: seq<Record>)
    requires forall j :: 0 <= j < |batch| ==> !Absent(hash, known, batch[j])
    ensures var r := Bulk(hash, now, known, nextId, batch);
      r == Pass(0, |batch|, [], batch, false)
  {
    BulkUpToAllStored(hash, now, known, nextId, batch, |batch|);
  }

  /** A record of `ds` is in `Absentees` when its hash was absent. */
  lemma {:induction false} AbsenteesHas(hash: Record -> string, known: set<string>, ds: seq<Record>, j: nat)
    requires j < |ds| && Absent(hash, known, ds[j])
    ensures exists k :: 0 <= k < |Absentees(hash, known, ds)| && Absentees(hash, known, ds)[k] == ds[j]
  {
    var prefix := ds[..|ds| - 1];
    var before := Absentees(hash, known, prefix);
    if j == |ds| - 1 {
      assert Absentees(hash, known, ds)[|before|] == ds[j];
    } else {
      assert prefix[j] == ds[j];
      AbsenteesHas(hash, known, prefix, j);
      var k :| 0 <= k < |before| && before[k] == ds[j];
      assert Absentees(hash, known, ds)[k] == ds[j];
    }
  }

  /** After a committed bulk insert every record of the batch has its hash in the table. */
  lemma {:induction false} BulkStoresAll(hash: Record -> string, now: int, rows: seq<Row>, nextId: nat, batch: seq<Record>, j: nat)
    requires Commits(Bulk(hash, now, Hashes(rows), nextId, batch)) && j < |batch|
    ensures FindByHash(Committed(rows, Bulk(hash, now, Hashes(rows), nextId, batch)), hash(batch[j])).Some?
  {
    var known := Hashes(rows);
    var r := Bulk(hash, now, known, nextId, batch);
    var h := hash(batch[j]);
    if Absent(hash, known, batch[j]) {
      BulkPending(hash, now, known, nextId, batch);
      AbsenteesHas(hash, known, batch, j);
      var a := Absentees(hash, known, batch);
      var k :| 0 <= k < |a| && a[k] == batch[j];
      NewRowsAt(hash, now, nextId, a, k);
      PreparedFacts(hash, batch[j]);
      WithDefaultsFacts(now, Prepared(hash, batch[j]));
      assert HasHash(r.pending[k], h);
      assert (rows + r.pending)[|rows| + k] == r.pending[k];
    } else {
      HashesFind(rows, h);
      FindByHashGrows(rows, r.pending, h);
    }
  }

  /** Re-submitting a batch, as the bulk insert left the dictionaries, after it committed:
      `(0, len(batch))` and nothing changes. */
  lemma {:induction false} BulkResubmit(rt: Runtime, now: int, later: int, rows: seq<Row>, nextId: nat, batch: seq<Record>)
    requires Commits(Bulk(HashOf(rt), now, Hashes(rows), nextId, batch))
    ensures var r := Bulk(HashOf(rt), now, Hashes(rows), nextId, batch);
      var stored := Committed(rows, r);
      var again := Bulk(HashOf(rt), later, Hashes(stored), nextId + |r.pending|, r.records);
      again == Pass(0, |batch|, [], r.records, false) && Committed(stored, again) == stored
  {
    var hash := HashOf(rt);
    var r := Bulk(hash, now, Hashes(rows), nextId, batch);
    var stored := Committed(rows, r);
    BulkStamps(hash, now, Hashes(rows), nextId, batch);
    forall j | 0 <= j < |r.records| ensures !Absent(hash, Hashes(stored), r.records[j]) {
      BulkStoresAll(hash, now, rows, nextId, batch, j);
      if r.records[j] != batch[j] {
        PreparedSameHash(rt, batch[j]);
      }
      HashesFind(stored, hash(r.records[j]));
    }
    BulkAllStored(hash, later, Hashes(stored), nextId + |r.pending|, r.records);
  }

  /** Two records with the same absent hash in one batch are both inserted: the bulk insert
      does not de-duplicate within a batch. */
  lemma {:induction false} BulkKeepsTwins(hash: Record -> string, now: int, known: set<string>, nextId: nat, d: Record)
    requires Absent(hash, known, d) && ColumnsOnly(d)
    ensures var r := Bulk(hash, now, known, nextId, [d, d]);
      r.inserted == 2 && r.duplicates == 0 && |r.pending| == 2
      && HasHash(r.pending[0], hash(d)) && HasHash(r.pending[1], hash(d))
  {
    var batch := [d, d];
    assert batch[0] == d && batch[1] == d;
    var p0 := BulkUpTo(hash, now, known, nextId, batch, 0);
    assert p0 == Pass(0, 0, [], batch, false);
    var p1 := BulkUpTo(hash, now, known, nextId, batch, 1);
    assert p1 == BulkStep(hash, now, known, nextId, p0, d, 0);
    var p2 := BulkUpTo(hash, now, known, nextId, batch, 2);
    assert p2 == BulkStep(hash, now, known, nextId, p1, d, 1);
    assert !p1.failed && p1.inserted == 1 && p1.duplicates == 0 && |p1.pending| == 1;
    assert !p2.failed && p2.inserted == 2 && p2.duplicates == 0;
    PreparedFacts(hash, d);
    WithDefaultsFacts(now, Prepared(hash, d));
    assert p2.pending == p1.pending + [Row(nextId + 1, WithDefaults(now, Prepared(hash, d)))];
  }
}
