/** `RealEstateAnalytics` of main.py: the per-website scraping loop with its session rows,
    and the clean-then-save step. The scrapers are given as what each website's
    `scrape_all_cities` returns or whether it raises; the database is the access layer of
    database/operations.py. */
module Coordinator {
  import opened Basics
  import opened Records
  import opened Cleaner
  import opened CleaningReport
  import opened Store
  import opened DbModels
  import opened Database

  /** What `self.scrapers[site].scrape_all_cities(max_pages_per_city=n)` does: the records it
      returns, or `None` when it raises. */
  type Scrapes = (string, int) -> Option<seq<Record>>

  /** The keys of `self.scrapers`, and the websites `scrape_data` walks by default. */
  const ScraperNames: set<string> := {"zameen", "graana"}
  const DefaultWebsites: seq<string> := ["zameen", "graana"]

  /** The row a known website's session ends as: completed with its record count, or failed;
      its end time set either way. */
  function FinishedSession(id: nat, site: string, now: int, outcome: Option<seq<Record>>): SessionRow {
    var s := NewSession(id, site, now);
    if outcome.Some? then s.(propertiesScraped := |outcome.value|, status := "completed", endTime := Some(now))
    else s.(status := "failed", endTime := Some(now))
  }

  /** What the loop has produced: the records gathered and the sessions it created. */
  datatype Run = Run(records: seq<Record>, sessions: seq<SessionRow>)

  /** The loop of `scrape_data` over `sites`, its sessions numbered from `firstId`: an unknown
      website is skipped, a known one gets a session and contributes its records when its
      scrape returns. */
  function RunSites(scrape: Scrapes, maxPages: int, now: int, firstId: nat, sites: seq<string>): Run {
    if sites == [] then Run([], [])
    else
      var r := RunSites(scrape, maxPages, now, firstId, sites[..|sites| - 1]);
      var site := sites[|sites| - 1];
      if site !in ScraperNames then r
      else
        var outcome := scrape(site, maxPages);
        Run(r.records + outcome.GetOr([]), r.sessions + [FinishedSession(firstId + |r.sessions|, site, now, outcome)])
  }

  /** The known websites among `sites`, in order. */
  function KnownSites(sites: seq<string>): seq<string> {
    if sites == [] then []
    else KnownSites(sites[..|sites| - 1]) + (if sites[|sites| - 1] in ScraperNames then [sites[|sites| - 1]] else [])
  }

  /** The records counted as scraped by the completed sessions. */
  function TotalScraped(sessions: seq<SessionRow>): int {
    if sessions == [] then 0
    else
      var last := sessions[|sessions| - 1];
      TotalScraped(sessions[..|sessions| - 1]) + (if last.status == "completed" then last.propertiesScraped else 0)
  }

  /** One session per known website, in order, with consecutive ids; each ends completed
      exactly when its scrape returned, with the number of records it returned, and failed
      otherwise; none is left running. */
  lemma {:induction false} RunSessions(scrape: Scrapes, maxPages: int, now: int, firstId: nat, sites: seq<string>)
    ensures var run := RunSites(scrape, maxPages, now, firstId, sites);
      var known := KnownSites(sites);
      |run.sessions| == |known|
      && forall k :: 0 <= k < |known| ==>
        var s := run.sessions[k];
        var outcome := scrape(known[k], maxPages);
        s.id == firstId + k && s.website == known[k] && s.startTime == now && s.endTime == Some(now)
        && (s.status == "completed" <==> outcome.Some?)
        && (outcome.Some? ==> s.propertiesScraped == |outcome.value|)
        && (outcome.None? ==> s.status == "failed" && s.propertiesScraped == 0)
  {
    if sites != [] {
      RunSessions(scrape, maxPages, now, firstId, sites[..|sites| - 1]);
    }
  }

  /** The records returned are exactly as many as the completed sessions report scraped. */
  lemma {:induction false} RunTotal(scrape: Scrapes, maxPages: int, now: int, firstId: nat, sites: seq<string>)
    ensures var run := RunSites(scrape, maxPages, now, firstId, sites);
      |run.records| == TotalScraped(run.sessions)
  {
    if sites != [] {
      var prefix := sites[..|sites| - 1];
      var r := RunSites(scrape, maxPages, now, firstId, prefix);
      RunTotal(scrape, maxPages, now, firstId, prefix);
      var site := sites[|sites| - 1];
      if site in ScraperNames {
        var run := RunSites(scrape, maxPages, now, firstId, sites);
        assert run.sessions[..|run.sessions| - 1] == r.sessions;
      }
    }
  }

  /** With every scrape raising, nothing is returned and every session is failed. */
  lemma {:induction false} RunAllFail(scrape: Scrapes, maxPages: int, now: int, firstId: nat, sites: seq<string>)
    requires forall site :: scrape(site, maxPages).None?
    ensures var run := RunSites(scrape, maxPages, now, firstId, sites);
      run.records == [] && forall k :: 0 <= k < |run.sessions| ==> run.sessions[k].status == "failed"
  {
    if sites != [] {
      RunAllFail(scrape, maxPages, now, firstId, sites[..|sites| - 1]);
    }
  }

  /** The loop over one more website. */
  lemma {:induction false} RunSitesSnoc(scrape: Scrapes, maxPages: int, now: int, firstId: nat, sites: seq<string>, site: string)
    ensures var r := RunSites(scrape, maxPages, now, firstId, sites);
      var outcome := scrape(site, maxPages);
      RunSites(scrape, maxPages, now, firstId, sites + [site])
        == if site !in ScraperNames then r
           else Run(r.records + outcome.GetOr([]), r.sessions + [FinishedSession(firstId + |r.sessions|, site, now, outcome)])
  {
    assert (sites + [site])[..|sites|] == sites;
  }

  /** The default run visits zameen and then graana. */
  lemma {:induction false} DefaultRun(scrape: Scrapes, maxPages: int, now: int, firstId: nat)
    ensures var run := RunSites(scrape, maxPages, now, firstId, DefaultWebsites);
      |run.sessions| == 2 && run.sessions[0].website == "zameen" && run.sessions[1].website == "graana"
      && run.records == scrape("zameen", maxPages).GetOr([]) + scrape("graana", maxPages).GetOr([])
  {
    var zameen, graana := "zameen", "graana";
    assert zameen in ScraperNames && graana in ScraperNames;
    RunSitesSnoc(scrape, maxPages, now, firstId, [], zameen);
    RunSitesSnoc(scrape, maxPages, now, firstId, [zameen], graana);
    assert [] + [zameen] == [zameen] && [zameen] + [graana] == DefaultWebsites;
  }

  /** The coordinator over the database access layer. */
  class RealEstateAnalytics {
    const db: DatabaseOperations

    constructor (db: DatabaseOperations)
      ensures this.db == db
    {
      this.db := db;
    }

    /** One pass of the `scrape_data` loop for a known website: its session is created, the
        scrape runs, and the session is updated to completed with the record count or, when
        the scrape raises, to failed. */
    method ScrapeSite(site: string, maxPages: int, scrape: Scrapes, now: int) returns (records: seq<Record>)
      requires db.SessionsValid()
      modifies db`sessions, db`nextSessionId
      ensures db.SessionsValid()
      ensures var outcome := scrape(site, maxPages);
        records == outcome.GetOr([]) && db.nextSessionId == old(db.nextSessionId) + 1
        && db.sessions == old(db.sessions) + [FinishedSession(old(db.nextSessionId), site, now, outcome)]
    {
      var id := db.CreateScrapingSession(site, now);
      var outcome := scrape(site, maxPages);
      if outcome.Some? {
        db.UpdateScrapingSession(id, [SetScraped(|outcome.value|), SetStatus("completed"), SetEndTime(Some(now))]);
        CompletedUpdate(NewSession(id, site, now), |outcome.value|, now);
        records := outcome.value;
      } else {
        db.UpdateScrapingSession(id, [SetStatus("failed"), SetEndTime(Some(now))]);
        FailedUpdate(NewSession(id, site, now), now);
        records := [];
      }
    }

    /** `scrape_data`: the loop `RunSites` specifies over the given websites, or zameen and
        graana by default; its sessions are added to the session table. */
    method ScrapeData(websites: Option<seq<string>>, maxPages: int, scrape: Scrapes, now: int) returns (allProperties: seq<Record>)
      requires db.SessionsValid()
      modifies db`sessions, db`nextSessionId
      ensures db.SessionsValid()
      ensures var run := RunSites(scrape, maxPages, now, old(db.nextSessionId), websites.GetOr(DefaultWebsites));
        allProperties == run.records && db.sessions == old(db.sessions) + run.sessions
        && db.nextSessionId == old(db.nextSessionId) + |run.sessions|
    {
      var sites := if websites.None? then DefaultWebsites else websites.value;
      ghost var firstId := db.nextSessionId;
      ghost var before := db.sessions;
      allProperties := [];
      for i := 0 to |sites|
        invariant db.SessionsValid()
        invariant var run := RunSites(scrape, maxPages, now, firstId, sites[..i]);
          allProperties == run.records && db.sessions == before + run.sessions
          && db.nextSessionId == firstId + |run.sessions|
      {
        var site := sites[i];
        assert sites[..i + 1] == sites[..i] + [site];
        RunSitesSnoc(scrape, maxPages, now, firstId, sites[..i], site);
        if site !in ScraperNames {
          continue;
        }
        var records := ScrapeSite(site, maxPages, scrape, now);
        allProperties := allProperties + records;
      }
      assert sites[..|sites|] == sites;
    }

    /** `clean_and_save_data`: nothing for an empty input; otherwise the records are cleaned,
        the cleaning report is generated (its TypeError propagates before anything is
        saved), and the cleaned records are bulk-inserted and the inserted count returned
        (0 when cleaning leaves nothing). */
    method CleanAndSaveData(rt: Runtime, now: int, properties: seq<Record>) returns (saved: Result<nat, PyError>)
      requires db.ListingsValid()
      modifies db`rows, db`nextId
      ensures db.ListingsValid()
      ensures properties == [] ==> saved == Ok(0) && db.rows == old(db.rows) && db.nextId == old(db.nextId)
      ensures properties != [] ==>
        var cleaned := Unique(rt, CleanValid(rt, properties));
        var report := GenerateCleaningReport(properties, cleaned);
        var p := Bulk(HashOf(rt), now, Hashes(old(db.rows)), old(db.nextId), cleaned);
        (report.Err? ==> saved == Err(report.error) && db.rows == old(db.rows) && db.nextId == old(db.nextId))
        && (report.Ok? && cleaned == [] ==> saved == Ok(0) && db.rows == old(db.rows) && db.nextId == old(db.nextId))
        && (report.Ok? && cleaned != [] ==> saved == Ok(p.inserted) && db.rows == Committed(old(db.rows), p)
                                            && db.nextId == old(db.nextId) + (if Commits(p) then |p.pending| else 0))
    {
      if properties == [] {
        return Ok(0);
      }
      var cleaned := CleanPropertiesData(rt, properties);
      var report := GenerateCleaningReport(properties, cleaned);
      if report.Err? {
        return Err(report.error);
      }
      var inserted := SaveCleaned(rt, now, cleaned);
      saved := Ok(inserted);
    }

    /** The saving tail of `clean_and_save_data`: the cleaned records bulk-inserted and the
        inserted count returned, or 0 and no change when there are none. */
    method SaveCleaned(rt: Runtime, now: int, cleaned: seq<Record>) returns (saved: nat)
      requires db.ListingsValid()
      modifies db`rows, db`nextId
      ensures db.ListingsValid()
      ensures var p := Bulk(HashOf(rt), now, Hashes(old(db.rows)), old(db.nextId), cleaned);
        (cleaned == [] ==> saved == 0 && db.rows == old(db.rows) && db.nextId == old(db.nextId))
        && (cleaned != [] ==> saved == p.inserted && db.rows == Committed(old(db.rows), p)
                              && db.nextId == old(db.nextId) + (if Commits(p) then |p.pending| else 0))
    {
      if cleaned == [] {
        return 0;
      }
      var buffer := new Record[|cleaned|](j requires 0 <= j < |cleaned| => cleaned[j]);
      assert buffer[..] == cleaned;
      var inserted, duplicates := db.BulkInsertProperties(rt, now, buffer);
      saved := inserted;
    }
  }

  /** The count `clean_and_save_data` returns is at most the number of records it was given. */
  lemma {:induction false} SavedAtMostGiven(rt: Runtime, now: int, rows: seq<Row>, nextId: nat, properties: seq<Record>)
    ensures Bulk(HashOf(rt), now, Hashes(rows), nextId, Unique(rt, CleanValid(rt, properties))).inserted <= |properties|
  {
    var cleaned := Unique(rt, CleanValid(rt, properties));
    CleanedListValid(rt, properties);
    BulkCounts(HashOf(rt), now, Hashes(rows), nextId, cleaned);
  }
}
