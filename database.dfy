/** `DatabaseOperations` of database/operations.py over an in-memory database: the listing
    table and the scraping-session table with their id sequences. Each method runs one
    database session of the source: what it commits becomes the new table, what it rolls back
    leaves the table as it was. */
module Database {
  import opened Basics
  import opened Records
  import opened Cleaner
  import opened Store
  import opened DbModels

  // ------------------------------------------------------ session-row updates

  /** A mutable column of `scraping_sessions`. */
  datatype Column = ScrapedCol | SavedCol | ErrorsCol | StatusCol | EndTimeCol | LogFileCol

  /** One keyword argument of `update_scraping_session`: a column and its new value, or a name
      that is no column (setattr stores it on the object; the commit ignores it). */
  datatype SessionChange =
    | SetScraped(n: int)
    | SetSaved(n: int)
    | SetErrors(n: int)
    | SetStatus(status: string)
    | SetEndTime(time: Option<int>)
    | SetLogFile(file: Option<string>)
    | SetUnmapped(name: string)

  /** The column a change names, if any. */
  function Target(c: SessionChange): Option<Column> {
    match c
    case SetScraped(_) => Some(ScrapedCol)
    case SetSaved(_) => Some(SavedCol)
    case SetErrors(_) => Some(ErrorsCol)
    case SetStatus(_) => Some(StatusCol)
    case SetEndTime(_) => Some(EndTimeCol)
    case SetLogFile(_) => Some(LogFileCol)
    case SetUnmapped(_) => None
  }

  /** A column of a session row as a value (NULL for an empty optional column). */
  function Project(s: SessionRow, col: Column): Value {
    match col
    case ScrapedCol => Int(s.propertiesScraped)
    case SavedCol => Int(s.propertiesSaved)
    case ErrorsCol => Int(s.errorsCount)
    case StatusCol => Str(s.status)
    case EndTimeCol => if s.endTime.Some? then Time(s.endTime.value) else Null
    case LogFileCol => if s.logFile.Some? then Str(s.logFile.value) else Null
  }

  /** The value a change writes into its column. */
  function Written(c: SessionChange): Value {
    match c
    case SetScraped(n) => Int(n)
    case SetSaved(n) => Int(n)
    case SetErrors(n) => Int(n)
    case SetStatus(status) => Str(status)
    case SetEndTime(time) => if time.Some? then Time(time.value) else Null
    case SetLogFile(file) => if file.Some? then Str(file.value) else Null
    case SetUnmapped(_) => Null
  }

  /** `setattr(scraping_session, key, value)` for one change. */
  function Apply(s: SessionRow, c: SessionChange): SessionRow {
    match c
    case SetScraped(n) => s.(propertiesScraped := n)
    case SetSaved(n) => s.(propertiesSaved := n)
    case SetErrors(n) => s.(errorsCount := n)
    case SetStatus(status) => s.(status := status)
    case SetEndTime(time) => s.(endTime := time)
    case SetLogFile(file) => s.(logFile := file)
    case SetUnmapped(_) => s
  }

  /** One change writes its own column and leaves the identity and every other column alone. */
  lemma {:induction false} ApplyWrites(s: SessionRow, c: SessionChange, col: Column)
    ensures var r := Apply(s, c);
      r.id == s.id && r.website == s.website && r.startTime == s.startTime
      && Project(r, col) == (if Target(c) == Some(col) then Written(c) else Project(s, col))
  {
  }

  /** The changes in order, as the setattr loop applies them. */
  function ApplyAll(s: SessionRow, cs: seq<SessionChange>): SessionRow {
    if cs == [] then s else Apply(ApplyAll(s, cs[..|cs| - 1]), cs[|cs| - 1])
  }

  /** The id, website and start time are never changed. */
  lemma {:induction false} ApplyAllKeepsIdentity(s: SessionRow, cs: seq<SessionChange>)
    ensures var r := ApplyAll(s, cs);
      r.id == s.id && r.website == s.website && r.startTime == s.startTime
  {
    if cs != [] {
      ApplyAllKeepsIdentity(s, cs[..|cs| - 1]);
      ApplyWrites(ApplyAll(s, cs[..|cs| - 1]), cs[|cs| - 1], ScrapedCol);
    }
  }

  /** A column no change names keeps its value. */
  lemma {:induction false} ApplyAllUntouched(s: SessionRow, cs: seq<SessionChange>, col: Column)
    requires forall j :: 0 <= j < |cs| ==> Target(cs[j]) != Some(col)
    ensures Project(ApplyAll(s, cs), col) == Project(s, col)
  {
    if cs != [] {
      ApplyAllUntouched(s, cs[..|cs| - 1], col);
      ApplyWrites(ApplyAll(s, cs[..|cs| - 1]), cs[|cs| - 1], col);
    }
  }

  /** A column holds the value of the last change that names it. */
  lemma {:induction false} ApplyAllLastWins(s: SessionRow, cs: seq<SessionChange>, j: nat, col: Column)
    requires j < |cs| && Target(cs[j]) == Some(col)
    requires forall k :: j < k < |cs| ==> Target(cs[k]) != Some(col)
    ensures Project(ApplyAll(s, cs), col) == Written(cs[j])
  {
    var prefix := cs[..|cs| - 1];
    ApplyWrites(ApplyAll(s, prefix), cs[|cs| - 1], col);
    if j < |cs| - 1 {
      ApplyAllLastWins(s, prefix, j, col);
    }
  }

  /** The update `scrape_data` makes after a site's scrape: completed, with its count and end
      time, and nothing else changed. */
  lemma {:induction false} CompletedUpdate(s: SessionRow, count: nat, now: int)
    ensures var r := ApplyAll(s, [SetScraped(count), SetStatus("completed"), SetEndTime(Some(now))]);
      r == s.(propertiesScraped := count, status := "completed", endTime := Some(now))
  {
    var cs := [SetScraped(count), SetStatus("completed"), SetEndTime(Some(now))];
    assert cs[..2][..1] == cs[..1] && cs[..1][..0] == [];
    assert ApplyAll(s, cs[..1]) == s.(propertiesScraped := count);
    assert ApplyAll(s, cs[..2]) == s.(propertiesScraped := count, status := "completed");
  }

  /** The update `scrape_data` makes when a site's scrape raises: failed, with its end time,
      and nothing else changed. */
  lemma {:induction false} FailedUpdate(s: SessionRow, now: int)
    ensures ApplyAll(s, [SetStatus("failed"), SetEndTime(Some(now))]) == s.(status := "failed", endTime := Some(now))
  {
    var cs := [SetStatus("failed"), SetEndTime(Some(now))];
    assert cs[..1][..0] == [];
    assert ApplyAll(s, cs[..1]) == s.(status := "failed");
  }

  /** The session with `id`: the index of its row. */
  function FindSession(sessions: seq<SessionRow>, id: nat): (r: Option<nat>)
    ensures r.Some? ==> r.value < |sessions| && sessions[r.value].id == id
    ensures r.None? <==> forall j :: 0 <= j < |sessions| ==> sessions[j].id != id
  {
    if sessions == [] then None
    else if sessions[|sessions| - 1].id == id then Some(|sessions| - 1)
    else FindSession(sessions[..|sessions| - 1], id)
  }

  // ---------------------------------------------------------------- the class

  /** Ids strictly ascending and below the next id of their sequence, as autoincrement keys
      handed out in order are. */
  predicate ListingIds(rows: seq<Row>, nextId: nat) {
    (forall j :: 0 <= j < |rows| ==> rows[j].id < nextId)
    && forall i, j :: 0 <= i < j < |rows| ==> rows[i].id < rows[j].id
  }

  /** Appending rows with consecutive ids from the next id keeps the ids ascending. */
  lemma {:induction false} AppendKeepsIds(rows: seq<Row>, nextId: nat, added: seq<Row>)
    requires ListingIds(rows, nextId)
    requires IdsFrom(added, nextId)
    ensures ListingIds(rows + added, nextId + |added|)
  {
  }

  /** The access layer: the committed listing rows, the committed session rows, and the next
      value of each id sequence. */
  class DatabaseOperations {
    var rows: seq<Row>
    var nextId: nat
    var sessions: seq<SessionRow>
    var nextSessionId: nat

    /** Listing ids are ascending and every stored row satisfies the NOT NULL columns. */
    predicate ListingsValid()
      reads this`rows, this`nextId
    {
      ListingIds(rows, nextId) && forall j :: 0 <= j < |rows| ==> Storable(rows[j].data)
    }

    /** Session ids are ascending and below the next session id. */
    predicate SessionsValid()
      reads this`sessions, this`nextSessionId
    {
      (forall j :: 0 <= j < |sessions| ==> sessions[j].id < nextSessionId)
      && forall i, j :: 0 <= i < j < |sessions| ==> sessions[i].id < sessions[j].id
    }

    /** Empty tables whose id sequences start at 1. */
    constructor ()
      ensures ListingsValid() && SessionsValid()
      ensures rows == [] && nextId == 1 && sessions == [] && nextSessionId == 1
    {
      rows := [];
      nextId := 1;
      sessions := [];
      nextSessionId := 1;
    }

    /** `insert_property`: answers as `InsertPlan` decides, adding its row only when it
        commits one. */
    method InsertProperty(rt: Runtime, now: int, d: Record) returns (id: Option<nat>)
      requires ListingsValid()
      modifies this`rows, this`nextId
      ensures ListingsValid()
      ensures match InsertPlan(rt, now, old(rows), old(nextId), d)
        case Existing(i) => id == Some(i) && rows == old(rows) && nextId == old(nextId)
        case Added(row) => id == Some(row.id) && rows == old(rows) + [row] && nextId == old(nextId) + 1
        case Failed => id.None? && rows == old(rows) && nextId == old(nextId)
    {
      var h := ContentHash(rt, d);
      var existing := FindByHash(rows, h);
      if existing.Some? {
        if TitleKey in d && !d[TitleKey].Str? {
          // the debug line slices a title that is no string: rolled back
          return None;
        }
        return Some(existing.value.id);
      }
      var data := ListingRow(now, d, h);
      if !Storable(data) {
        // the commit violates a NOT NULL column: rolled back
        return None;
      }
      rows := rows + [Row(nextId, data)];
      id := Some(nextId);
      nextId := nextId + 1;
    }

    /** One iteration of the bulk-insert loop on `batch[i]`: the duplicate query, then for a
        new record the hash and score written into the caller's dictionary and the row added
        to the session, as `BulkStep` specifies. */
    method BulkIteration(rt: Runtime, now: int, batch: array<Record>, i: nat, s: Pass) returns (t: Pass)
      requires i < batch.Length && !s.failed && s.records == batch[..]
      modifies batch
      ensures t == BulkStep(HashOf(rt), now, Hashes(rows), nextId, s, old(batch[i]), i)
      ensures batch[..] == t.records
    {
      var d := batch[i];
      var h := ContentHash(rt, d);
      HashesFind(rows, h);
      if FindByHash(rows, h).Some? {
        return s.(duplicates := s.duplicates + 1);
      }
      var stamped := d[HashKey := Str(h)];
      var prepared := stamped[QualityKey := Num(QualityScore(stamped) as real / 100.0)];
      batch[i] := prepared;
      if !ColumnsOnly(d) {
        // `PropertyListing(**d)` rejects a key that is no column
        return s.(records := batch[..], failed := true);
      }
      var row := Row(nextId + |s.pending|, WithDefaults(now, prepared));
      t := s.(inserted := s.inserted + 1, pending := s.pending + [row], records := batch[..]);
    }

    /** The loop of `bulk_insert_properties`, left at its end or at the first exception: the
        pass `Bulk` specifies, with the caller's dictionaries as it leaves them. */
    method BulkLoop(rt: Runtime, now: int, batch: array<Record>) returns (pass: Pass)
      modifies batch
      ensures pass == Bulk(HashOf(rt), now, Hashes(rows), nextId, old(batch[..]))
      ensures batch[..] == pass.records
    {
      ghost var hash := HashOf(rt);
      ghost var known := Hashes(rows);
      ghost var original := batch[..];
      pass := Pass(0, 0, [], batch[..], false);
      var i := 0;
      while i < batch.Length && !pass.failed
        invariant 0 <= i <= batch.Length
        invariant batch[i..] == original[i..] && pass.records == batch[..]
        invariant pass == BulkUpTo(hash, now, known, nextId, original, i)
      {
        assert batch[i] == original[i];
        pass := BulkIteration(rt, now, batch, i, pass);
        i := i + 1;
      }
      if pass.failed {
        BulkUpToFailed(hash, now, known, nextId, original, i, batch.Length);
      }
    }

    /** `bulk_insert_properties`: the loop, then the commit of its pending rows or the
        rollback of all of them; the counts are returned either way, and the caller's
        dictionaries keep what the loop wrote into them. */
    method BulkInsertProperties(rt: Runtime, now: int, batch: array<Record>) returns (inserted: nat, duplicates: nat)
      requires ListingsValid()
      modifies this`rows, this`nextId, batch
      ensures ListingsValid()
      ensures var p := Bulk(HashOf(rt), now, Hashes(old(rows)), old(nextId), old(batch[..]));
        inserted == p.inserted && duplicates == p.duplicates && batch[..] == p.records
        && rows == Committed(old(rows), p)
        && nextId == old(nextId) + (if Commits(p) then |p.pending| else 0)
    {
      var pass := BulkLoop(rt, now, batch);
      inserted, duplicates := pass.inserted, pass.duplicates;
      if !pass.failed && forall j :: 0 <= j < |pass.pending| ==> Storable(pass.pending[j].data) {
        ghost var original := old(batch[..]);
        BulkUpToIds(HashOf(rt), now, Hashes(rows), nextId, original, |original|);
        assert pass == BulkUpTo(HashOf(rt), now, Hashes(rows), nextId, original, |original|);
        assert IdsFrom(pass.pending, nextId);
        AppendKeepsIds(rows, nextId, pass.pending);
        assert forall j :: 0 <= j < |rows + pass.pending| ==> Storable((rows + pass.pending)[j].data);
        rows := rows + pass.pending;
        nextId := nextId + |pass.pending|;
      }
    }

    /** `create_scraping_session`: a new row with the column defaults, its id the next of the
        sequence. */
    method CreateScrapingSession(website: string, now: int) returns (id: nat)
      requires SessionsValid()
      modifies this`sessions, this`nextSessionId
      ensures SessionsValid()
      ensures id == old(nextSessionId) && nextSessionId == id + 1
      ensures sessions == old(sessions) + [NewSession(id, website, now)]
    {
      id := nextSessionId;
      sessions := sessions + [NewSession(id, website, now)];
      nextSessionId := nextSessionId + 1;
    }

    /** `update_scraping_session`: the session with `id` gets the changes in order and is
        committed; an unknown id changes nothing. */
    method UpdateScrapingSession(id: nat, changes: seq<SessionChange>)
      requires SessionsValid()
      modifies this`sessions
      ensures SessionsValid()
      ensures match FindSession(old(sessions), id)
        case None => sessions == old(sessions)
        case Some(k) => sessions == old(sessions)[k := ApplyAll(old(sessions)[k], changes)]
    {
      var found := FindSession(sessions, id);
      if found.None? {
        return;
      }
      var k := found.value;
      var s := sessions[k];
      for j := 0 to |changes|
        invariant s == ApplyAll(sessions[k], changes[..j])
      {
        assert changes[..j + 1][..j] == changes[..j];
        s := Apply(s, changes[j]);
      }
      assert changes[..|changes|] == changes;
      ApplyAllKeepsIdentity(sessions[k], changes);
      sessions := sessions[k := s];
    }
  }
}
