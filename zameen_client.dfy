/** The acquisition side of the Zameen.com scraper (scrapers/zameen_scraper.py): the
    user-agent rotation, the retrying request with its back-off, and the walks over a city's
    listing pages and over all target cities.

    The network is a function from the history of events so far, ending with the request
    being answered, to that request's outcome; a page that loads is already reduced to its
    listing cards (each one extracted or not) and whether an enabled "Next" link is present.
    Waits are not taken but recorded in the scraper's event log. */
module ZameenClient {
  import opened Basics
  import opened Records
  import opened Settings
  import opened ZameenParsing

  /** What the scraper does that the outside world sees. */
  datatype Event =
    | Pause  // the random pacing delay before a request, between the configured bounds
    | Get(url: string, rotation: nat)  // a request, carrying the User-Agent of rotation `rotation`
    | Sleep(seconds: nat)  // a back-off wait
    | Cooldown  // the random wait of 10 to 20 seconds after each city

  /** A page that loaded: its listing cards, each extracted to a record or not, and whether
      it has a "Next" link that is not disabled. `Unreadable` stands for a page whose
      handling raises. */
  datatype Page = Listing(cards: seq<Option<Record>>, hasNext: bool) | Unreadable

  /** The outcome of one request: a reply with its status code, or a request exception. */
  datatype Outcome = Reply(status: int, page: Page) | RequestError

  /** The outcome of the request that ends the given history. */
  type Network = seq<Event> -> Outcome

  /** The user agent that rotation number `i` selects from the rotation list `agents` (which
      the configuration never leaves empty). */
  function AgentAt(agents: seq<string>, i: nat): (agent: string)
    ensures agents != [] ==> agent in agents
  {
    if agents == [] then "" else agents[i % |agents|]
  }

  predicate IsGet(e: Event) { e.Get? }
  predicate IsPause(e: Event) { e.Pause? }
  predicate IsCooldown(e: Event) { e.Cooldown? }

  /** How many events of the log satisfy `p`. */
  function Tally(log: seq<Event>, p: Event -> bool): nat {
    if log == [] then 0 else Tally(log[..|log| - 1], p) + (if p(log[|log| - 1]) then 1 else 0)
  }

  lemma {:induction false} TallySnoc(a: seq<Event>, e: Event, p: Event -> bool)
    ensures Tally(a + [e], p) == Tally(a, p) + (if p(e) then 1 else 0)
  {
    assert (a + [e])[..|a + [e]| - 1] == a;
  }

  /** The seconds of back-off waiting in the log. */
  function Slept(log: seq<Event>): nat {
    if log == [] then 0
    else Slept(log[..|log| - 1]) + (match log[|log| - 1] case Sleep(s) => s case _ => 0)
  }

  lemma {:induction false} SleptSnoc(a: seq<Event>, e: Event)
    ensures Slept(a + [e]) == Slept(a) + (match e case Sleep(s) => s case _ => 0)
  {
    assert (a + [e])[..|a + [e]| - 1] == a;
  }

  // ------------------------------------------------------------- one request

  /** The wait after failed attempt `attempt`: a rate limit (429) waits 60·2^attempt seconds
      even after the last attempt; a request exception waits 5·2^attempt seconds unless it
      was the last attempt; any other status does not wait. */
  function Backoff(attempt: nat, outcome: Outcome, maxRetries: int): seq<Event> {
    match outcome
    case Reply(status, _) => if status == 429 then [Sleep(60 * Pow2(attempt))] else []
    case RequestError => if attempt < maxRetries then [Sleep(5 * Pow2(attempt))] else []
  }

  /** A back-off is at most one wait, of at most 60·2^attempt seconds, and nothing else. */
  lemma {:induction false} BackoffShape(attempt: nat, outcome: Outcome, maxRetries: int)
    ensures var b := Backoff(attempt, outcome, maxRetries);
      |b| <= 1 && (b != [] ==> b[0].Sleep? && b[0].seconds <= 60 * Pow2(attempt))
  {
  }

  lemma {:induction false} BackoffTally(attempt: nat, outcome: Outcome, maxRetries: int, a: seq<Event>, p: Event -> bool)
    requires forall s: nat :: !p(Sleep(s))
    ensures Tally(a + Backoff(attempt, outcome, maxRetries), p) == Tally(a, p)
  {
    var b := Backoff(attempt, outcome, maxRetries);
    if b == [] {
      assert a + b == a;
    } else {
      assert b == [b[0]];
      TallySnoc(a, b[0], p);
    }
  }

  lemma {:induction false} BackoffSlept(attempt: nat, outcome: Outcome, maxRetries: int, a: seq<Event>)
    ensures Slept(a) <= Slept(a + Backoff(attempt, outcome, maxRetries)) <= Slept(a) + 60 * Pow2(attempt)
  {
    var b := Backoff(attempt, outcome, maxRetries);
    if b == [] {
      assert a + b == a;
    } else {
      assert b == [b[0]];
      SleptSnoc(a, b[0]);
    }
  }

  /** The result of a request: the page of the reply, if one came with status 200, and the
      rotation counter and event log afterwards. */
  datatype Fetched = Fetched(page: Option<Page>, index: nat, log: seq<Event>)

  /** The history after a request to `url` with rotation number `index` was sent: the pacing
      pause, then the request. */
  function Sent(url: string, index: nat, log: seq<Event>): seq<Event> {
    log + [Pause] + [Get(url, index)]
  }

  /** The attempts from number `attempt` on, with rotation counter `index` and the history
      `log` so far. */
  function Attempts(net: Network, url: string, maxRetries: int, attempt: nat, index: nat, log: seq<Event>): Fetched
    decreases maxRetries + 1 - attempt
  {
    if attempt > maxRetries then Fetched(None, index, log)
    else
      var sent := Sent(url, index, log);
      var outcome := net(sent);
      if outcome.Reply? && outcome.status == 200 then Fetched(Some(outcome.page), index + 1, sent)
      else Attempts(net, url, maxRetries, attempt + 1, index + 1, sent + Backoff(attempt, outcome, maxRetries))
  }

  /** One failed attempt: the rest of the call goes on after its back-off. */
  lemma {:induction false} AttemptsStep(net: Network, url: string, maxRetries: int, attempt: nat, index: nat, log: seq<Event>,
                     sent: seq<Event>, outcome: Outcome)
    requires attempt <= maxRetries && sent == Sent(url, index, log) && outcome == net(sent)
    requires !(outcome.Reply? && outcome.status == 200)
    ensures Attempts(net, url, maxRetries, attempt, index, log)
      == Attempts(net, url, maxRetries, attempt + 1, index + 1, sent + Backoff(attempt, outcome, maxRetries))
  {
  }

  /** The attempts still allowed from number `attempt` on. */
  function Remaining(maxRetries: int, attempt: nat): nat {
    if attempt <= maxRetries then maxRetries + 1 - attempt else 0
  }

  /** The log only grows, and at most `maxRetries + 1` attempts are made, all of them exactly
      when no page came. */
  lemma {:induction false} AttemptsBound(net: Network, url: string, maxRetries: int, attempt: nat, index: nat, log: seq<Event>)
    ensures var r := Attempts(net, url, maxRetries, attempt, index, log);
      log <= r.log
      && index <= r.index <= index + Remaining(maxRetries, attempt)
      && (r.page.None? ==> r.index == index + Remaining(maxRetries, attempt))
    decreases maxRetries + 1 - attempt
  {
    if attempt <= maxRetries {
      var sent := Sent(url, index, log);
      var outcome := net(sent);
      if !(outcome.Reply? && outcome.status == 200) {
        var next := sent + Backoff(attempt, outcome, maxRetries);
        AttemptsBound(net, url, maxRetries, attempt + 1, index + 1, next);
        assert log <= next;
      }
    }
  }

  /** Every attempt adds exactly one pause and one request, and no cool-down. */
  lemma {:induction false} AttemptsTally(net: Network, url: string, maxRetries: int, attempt: nat, index: nat, log: seq<Event>)
    ensures var r := Attempts(net, url, maxRetries, attempt, index, log);
      && Tally(r.log, IsGet) == Tally(log, IsGet) + (r.index - index)
      && Tally(r.log, IsPause) == Tally(log, IsPause) + (r.index - index)
      && Tally(r.log, IsCooldown) == Tally(log, IsCooldown)
    decreases maxRetries + 1 - attempt
  {
    if attempt <= maxRetries {
      var sent := Sent(url, index, log);
      var outcome := net(sent);
      TallySnoc(log, Pause, IsGet);
      TallySnoc(log + [Pause], Get(url, index), IsGet);
      TallySnoc(log, Pause, IsPause);
      TallySnoc(log + [Pause], Get(url, index), IsPause);
      TallySnoc(log, Pause, IsCooldown);
      TallySnoc(log + [Pause], Get(url, index), IsCooldown);
      if !(outcome.Reply? && outcome.status == 200) {
        BackoffTally(attempt, outcome, maxRetries, sent, IsGet);
        BackoffTally(attempt, outcome, maxRetries, sent, IsPause);
        BackoffTally(attempt, outcome, maxRetries, sent, IsCooldown);
        AttemptsTally(net, url, maxRetries, attempt + 1, index + 1, sent + Backoff(attempt, outcome, maxRetries));
      }
    }
  }

  /** The log only grows, and every request of the call goes to `url`. */
  lemma {:induction false} AttemptsUrls(net: Network, url: string, maxRetries: int, attempt: nat, index: nat, log: seq<Event>)
    ensures var r := Attempts(net, url, maxRetries, attempt, index, log);
      |log| <= |r.log| && r.log[..|log|] == log
      && (forall j :: |log| <= j < |r.log| && r.log[j].Get? ==> r.log[j].url == url)
    decreases maxRetries + 1 - attempt
  {
    if attempt <= maxRetries {
      var sent := Sent(url, index, log);
      var outcome := net(sent);
      if !(outcome.Reply? && outcome.status == 200) {
        BackoffShape(attempt, outcome, maxRetries);
        var next := sent + Backoff(attempt, outcome, maxRetries);
        AttemptsUrls(net, url, maxRetries, attempt + 1, index + 1, next);
        var r := Attempts(net, url, maxRetries, attempt + 1, index + 1, next);
        assert r.log[..|next|] == next;
        assert r.log[..|log|] == log by {
          assert next[..|log|] == log;
        }
        forall j | |log| <= j < |next| && r.log[j].Get?
          ensures r.log[j].url == url
        {
          assert r.log[j] == next[j];
        }
      }
    }
  }

  /** A page is returned only from a reply with status 200 to the last request, sent with
      the agent of the last rotation; no other request of the call got such a reply. */
  lemma {:induction false} AttemptsReplies(net: Network, url: string, maxRetries: int, attempt: nat, index: nat, log: seq<Event>)
    ensures var r := Attempts(net, url, maxRetries, attempt, index, log);
      |log| <= |r.log|
      && (forall j :: |log| <= j < |r.log| && r.log[j].Get? && (r.page.None? || j < |r.log| - 1) ==>
            !(net(r.log[..j + 1]).Reply? && net(r.log[..j + 1]).status == 200))
      && (r.page.Some? ==>
            |r.log| > |log| && r.index > index && r.log[|r.log| - 1] == Get(url, r.index - 1)
            && net(r.log) == Reply(200, r.page.value))
    decreases maxRetries + 1 - attempt
  {
    if attempt <= maxRetries {
      var sent := Sent(url, index, log);
      var outcome := net(sent);
      if !(outcome.Reply? && outcome.status == 200) {
        BackoffShape(attempt, outcome, maxRetries);
        var next := sent + Backoff(attempt, outcome, maxRetries);
        AttemptsReplies(net, url, maxRetries, attempt + 1, index + 1, next);
        AttemptsUrls(net, url, maxRetries, attempt + 1, index + 1, next);
        var r := Attempts(net, url, maxRetries, attempt + 1, index + 1, next);
        assert r.log[..|next|] == next;
        forall j | |log| <= j < |next| && r.log[j].Get?
          ensures !(net(r.log[..j + 1]).Reply? && net(r.log[..j + 1]).status == 200)
        {
          assert r.log[j] == next[j];
          assert j == |log| + 1;
          assert r.log[..j + 1] == sent;
        }
      }
    }
  }

  lemma {:induction false} Pow2Grows(a: nat, b: nat)
    requires a <= b
    ensures Pow2(a) <= Pow2(b)
    decreases b
  {
    if a < b {
      Pow2Grows(a, b - 1);
    }
  }

  /** Sending a request adds no waiting. */
  lemma {:induction false} SleptSent(url: string, index: nat, log: seq<Event>)
    ensures Slept(Sent(url, index, log)) == Slept(log)
  {
    SleptSnoc(log, Pause);
    SleptSnoc(log + [Pause], Get(url, index));
  }

  /** The back-off waits of one call add up to at most 60·(2^(maxRetries+1) − 2^attempt)
      seconds: a rate limit on every attempt. */
  lemma {:induction false} AttemptsSleep(net: Network, url: string, maxRetries: int, attempt: nat, index: nat, log: seq<Event>)
    requires attempt <= maxRetries + 1
    ensures Slept(Attempts(net, url, maxRetries, attempt, index, log).log) + 60 * Pow2(attempt)
      <= Slept(log) + 60 * Pow2((maxRetries + 1) as nat)
    decreases maxRetries + 1 - attempt
  {
    if attempt <= maxRetries {
      var sent := Sent(url, index, log);
      var outcome := net(sent);
      SleptSent(url, index, log);
      Pow2Grows(attempt, (maxRetries + 1) as nat);
      if outcome.Reply? && outcome.status == 200 {
        assert Attempts(net, url, maxRetries, attempt, index, log).log == sent;
      } else {
        var next := sent + Backoff(attempt, outcome, maxRetries);
        BackoffSlept(attempt, outcome, maxRetries, sent);
        AttemptsSleep(net, url, maxRetries, attempt + 1, index + 1, next);
        assert Attempts(net, url, maxRetries, attempt, index, log)
          == Attempts(net, url, maxRetries, attempt + 1, index + 1, next);
        assert Pow2(attempt + 1) == 2 * Pow2(attempt);
        assert Slept(Attempts(net, url, maxRetries, attempt + 1, index + 1, next).log) + 60 * Pow2(attempt)
          <= Slept(log) + 60 * Pow2((maxRetries + 1) as nat);
      }
    } else {
      assert attempt == maxRetries + 1;
    }
  }

  // --------------------------------------------------------------- page walks

  /** The records extracted from a page's cards, in card order. */
  function Extracted(cards: seq<Option<Record>>): seq<Record> {
    if cards == [] then []
    else Extracted(cards[..|cards| - 1]) + (match cards[|cards| - 1] case Some(d) => [d] case None => [])
  }

  /** A walk over a city's listing pages: the records gathered, the pages requested, and the
      rotation counter and event log afterwards. */
  datatype Walk = Walk(records: seq<Record>, pages: seq<int>, index: nat, log: seq<Event>)

  /** The records a fetched page contributes. */
  function Gathered(page: Option<Page>): seq<Record> {
    if page.Some? && page.value.Listing? then Extracted(page.value.cards) else []
  }

  /** Whether the walk goes on after a fetched page: it loaded, was handled, had cards and
      an enabled "Next" link. */
  predicate Continues(page: Option<Page>) {
    page.Some? && page.value.Listing? && page.value.cards != [] && page.value.hasNext
  }

  /** The walk from page `page` on, after `acc`; it stops after a page that does not
      continue it and after page `maxPages`. */
  function WalkFrom(net: Network, city: string, maxPages: int, page: int, acc: Walk): Walk
    decreases maxPages + 1 - page
  {
    if page > maxPages then acc
    else
      var f := Attempts(net, CitySearchUrl(city, page), MaxRetries, 0, acc.index, acc.log);
      var w := Walk(acc.records + Gathered(f.page), acc.pages + [page], f.index, f.log);
      if Continues(f.page) then WalkFrom(net, city, maxPages, page + 1, w) else w
  }

  /** The pages a walk requests are `page`, `page + 1`, ... in order, none after `maxPages`;
      the records only grow. */
  lemma {:induction false} WalkPages(net: Network, city: string, maxPages: int, page: int, acc: Walk)
    ensures var w := WalkFrom(net, city, maxPages, page, acc);
      acc.records <= w.records && acc.pages <= w.pages
      && (forall j :: |acc.pages| <= j < |w.pages| ==> w.pages[j] == page + (j - |acc.pages|) <= maxPages)
    decreases maxPages + 1 - page
  {
    if page <= maxPages {
      var f := Attempts(net, CitySearchUrl(city, page), MaxRetries, 0, acc.index, acc.log);
      var w := Walk(acc.records + Gathered(f.page), acc.pages + [page], f.index, f.log);
      if Continues(f.page) {
        WalkPages(net, city, maxPages, page + 1, w);
      }
    }
  }

  /** Every request of a walk is for one of the city's pages from `page` to `maxPages`. */
  lemma {:induction false} WalkUrls(net: Network, city: string, maxPages: int, page: int, acc: Walk)
    ensures var w := WalkFrom(net, city, maxPages, page, acc);
      |acc.log| <= |w.log| && w.log[..|acc.log|] == acc.log
      && (forall j :: |acc.log| <= j < |w.log| && w.log[j].Get? ==>
            exists p :: page <= p <= maxPages && w.log[j].url == CitySearchUrl(city, p))
    decreases maxPages + 1 - page
  {
    if page <= maxPages {
      var url := CitySearchUrl(city, page);
      var f := Attempts(net, url, MaxRetries, 0, acc.index, acc.log);
      AttemptsUrls(net, url, MaxRetries, 0, acc.index, acc.log);
      var w1 := Walk(acc.records + Gathered(f.page), acc.pages + [page], f.index, f.log);
      if Continues(f.page) {
        WalkUrls(net, city, maxPages, page + 1, w1);
        var w := WalkFrom(net, city, maxPages, page + 1, w1);
        assert w.log[..|f.log|] == f.log;
        assert w.log[..|acc.log|] == acc.log by {
          assert f.log[..|acc.log|] == acc.log;
        }
        forall j | |acc.log| <= j < |w.log| && w.log[j].Get?
          ensures exists p :: page <= p <= maxPages && w.log[j].url == CitySearchUrl(city, p)
        {
          if j < |f.log| {
            assert w.log[j] == f.log[j];
            assert w.log[j].url == CitySearchUrl(city, page);
          }
        }
      } else {
        forall j | |acc.log| <= j < |f.log| && f.log[j].Get?
          ensures exists p :: page <= p <= maxPages && f.log[j].url == CitySearchUrl(city, p)
        {
          assert f.log[j].url == CitySearchUrl(city, page);
        }
      }
    }
  }

  /** A walk sends at most `MaxRetries + 1` requests for each page it visits, and adds no
      cool-down. */
  lemma {:induction false} WalkRequests(net: Network, city: string, maxPages: int, page: int, acc: Walk)
    ensures var w := WalkFrom(net, city, maxPages, page, acc);
      Tally(w.log, IsGet) == Tally(acc.log, IsGet) + (w.index - acc.index)
      && acc.index <= w.index <= acc.index + (|w.pages| - |acc.pages|) * (MaxRetries + 1)
      && Tally(w.log, IsCooldown) == Tally(acc.log, IsCooldown)
      && |acc.pages| <= |w.pages|
    decreases maxPages + 1 - page
  {
    if page <= maxPages {
      var url := CitySearchUrl(city, page);
      var f := Attempts(net, url, MaxRetries, 0, acc.index, acc.log);
      AttemptsBound(net, url, MaxRetries, 0, acc.index, acc.log);
      AttemptsTally(net, url, MaxRetries, 0, acc.index, acc.log);
      var w1 := Walk(acc.records + Gathered(f.page), acc.pages + [page], f.index, f.log);
      if Continues(f.page) {
        WalkRequests(net, city, maxPages, page + 1, w1);
      }
    }
  }

  /** The walk of `city` from page 1 with nothing gathered yet. */
  function CityWalk(net: Network, city: string, maxPages: int, index: nat, log: seq<Event>): Walk {
    WalkFrom(net, city, maxPages, 1, Walk([], [], index, log))
  }

  /** A sweep over several cities: the records gathered, and the rotation counter and event
      log afterwards. */
  datatype Sweep = Sweep(records: seq<Record>, index: nat, log: seq<Event>)

  /** Each city walked from page 1 in turn, its records appended, a cool-down after it. */
  function SweepFrom(net: Network, maxPages: int, cities: seq<string>, acc: Sweep): Sweep
    decreases |cities|
  {
    if cities == [] then acc
    else
      var w := CityWalk(net, cities[0], maxPages, acc.index, acc.log);
      SweepFrom(net, maxPages, cities[1..], Sweep(acc.records + w.records, w.index, w.log + [Cooldown]))
  }

  /** One city of a sweep: its walk, its records appended, then a cool-down. */
  lemma {:induction false} SweepStep(net: Network, maxPages: int, cities: seq<string>, acc: Sweep)
    requires cities != []
    ensures var w := CityWalk(net, cities[0], maxPages, acc.index, acc.log);
      SweepFrom(net, maxPages, cities, acc)
        == SweepFrom(net, maxPages, cities[1..], Sweep(acc.records + w.records, w.index, w.log + [Cooldown]))
  {
  }

  /** A sweep cools down once per city, and its records start with the first city's. */
  lemma {:induction false} SweepCooldowns(net: Network, maxPages: int, cities: seq<string>, acc: Sweep)
    ensures var s := SweepFrom(net, maxPages, cities, acc);
      acc.records <= s.records
      && Tally(s.log, IsCooldown) == Tally(acc.log, IsCooldown) + |cities|
      && (cities != [] ==>
            acc.records + CityWalk(net, cities[0], maxPages, acc.index, acc.log).records <= s.records)
    decreases |cities|
  {
    if cities != [] {
      var w := CityWalk(net, cities[0], maxPages, acc.index, acc.log);
      WalkRequests(net, cities[0], maxPages, 1, Walk([], [], acc.index, acc.log));
      TallySnoc(w.log, Cooldown, IsCooldown);
      var next := Sweep(acc.records + w.records, w.index, w.log + [Cooldown]);
      SweepCooldowns(net, maxPages, cities[1..], next);
    }
  }

  // ---------------------------------------------------------------- the class

  /** The scraper: the rotation list it reads from the configuration, its rotation counter,
      the User-Agent header of its session, and the log of what it has done. */
  class ZameenScraper {
    const agents: seq<string>
    var agentIndex: nat
    var userAgent: string
    var log: seq<Event>

    /** There is an agent to rotate to, and there has been a rotation. */
    predicate Valid()
      reads this`agentIndex
    {
      agents != [] && agentIndex >= 1
    }

    /** A new scraper rotates through the configured agents, has rotated once and has done
      nothing else. */
    constructor ()
      ensures Valid() && agents == UserAgents
      ensures agentIndex == 1 && userAgent == AgentAt(agents, 0) && log == []
    {
      agents := UserAgents;
      agentIndex := 0;
      userAgent := "";
      log := [];
      new;
      RotateUserAgent();
    }

    /** Select the agent of the current counter and advance the counter by exactly one. */
    method RotateUserAgent()
      requires agents != []
      modifies this
      ensures agentIndex == old(agentIndex) + 1 && userAgent == AgentAt(agents, old(agentIndex))
      ensures log == old(log) && Valid()
    {
      userAgent := agents[agentIndex % |agents|];
      agentIndex := agentIndex + 1;
    }

    /** The pacing pause before a request. */
    method RandomDelay()
      modifies this
      ensures log == old(log) + [Pause]
      ensures agentIndex == old(agentIndex) && userAgent == old(userAgent)
    {
      log := log + [Pause];
    }

    /** One attempt at `url`: the pacing pause, a fresh agent, the request, and the back-off
      its outcome calls for. */
    method SendAttempt(url: string, attempt: nat, maxRetries: int, net: Network) returns (outcome: Outcome)
      requires Valid()
      modifies this
      ensures Valid() && agentIndex == old(agentIndex) + 1
      ensures outcome == net(Sent(url, old(agentIndex), old(log)))
      ensures log == Sent(url, old(agentIndex), old(log)) + Backoff(attempt, outcome, maxRetries)
    {
      RandomDelay();
      RotateUserAgent();
      // the request carries the header just selected: the agent of rotation agentIndex - 1
      assert userAgent == AgentAt(agents, agentIndex - 1);
      log := log + [Get(url, agentIndex - 1)];
      outcome := net(log);
      if outcome.Reply? && outcome.status == 429 {
        log := log + [Sleep(60 * Pow2(attempt))];
      } else if outcome.RequestError? && attempt < maxRetries {
        log := log + [Sleep(5 * Pow2(attempt))];
      } else {
        // any other status is only logged, and the last request error is not waited for
        assert log + Backoff(attempt, outcome, maxRetries) == log;
      }
    }

    /** Request `url` with retries (`maxRetries`, by default the configured three): the page
      of the first reply with status 200, or None once every attempt has failed. */
    method MakeRequest(url: string, maxRetries: Option<int>, net: Network) returns (page: Option<Page>)
      requires Valid()
      modifies this
      ensures Valid()
      ensures Fetched(page, agentIndex, log)
        == Attempts(net, url, maxRetries.GetOr(MaxRetries), 0, old(agentIndex), old(log))
    {
      var retries := maxRetries.GetOr(MaxRetries);
      var attempt: nat := 0;
      ghost var target := Attempts(net, url, retries, 0, agentIndex, log);
      while attempt <= retries
        invariant Valid()
        invariant Attempts(net, url, retries, attempt, agentIndex, log) == target
        decreases retries + 1 - attempt
      {
        ghost var index0, log0 := agentIndex, log;
        var outcome := SendAttempt(url, attempt, retries, net);
        ghost var sent := Sent(url, index0, log0);
        if outcome.Reply? && outcome.status == 200 {
          assert log == sent + [];
          assert target == Fetched(Some(outcome.page), agentIndex, log);
          return Some(outcome.page);
        }
        AttemptsStep(net, url, retries, attempt, index0, log0, sent, outcome);
        attempt := attempt + 1;
      }
      return None;
    }

    /** Walk `city`'s listing pages from page 1, at most `maxPages` of them, gathering the
      extracted records in page order. */
    method ScrapePropertyListings(city: string, maxPages: int, net: Network) returns (properties: seq<Record>)
      requires Valid()
      modifies this
      ensures Valid()
      ensures var w := CityWalk(net, city, maxPages, old(agentIndex), old(log));
        properties == w.records && agentIndex == w.index && log == w.log
    {
      properties := [];
      var page := 1;
      ghost var visited: seq<int> := [];
      while page <= maxPages
        invariant Valid()
        invariant WalkFrom(net, city, maxPages, page, Walk(properties, visited, agentIndex, log))
          == CityWalk(net, city, maxPages, old(agentIndex), old(log))
        decreases maxPages + 1 - page
      {
        var url := CitySearchUrl(city, page);
        ghost var before := properties;
        var response := MakeRequest(url, None, net);
        visited := visited + [page];
        if response.None? || response.value.Unreadable? {
          break;
        }
        var cards := response.value.cards;
        if cards == [] {
          break;
        }
        for i := 0 to |cards|
          invariant properties == before + Extracted(cards[..i])
        {
          assert cards[..i + 1][..i] == cards[..i];
          if cards[i].Some? {
            properties := properties + [cards[i].value];
          }
        }
        assert cards[..|cards|] == cards;
        if !response.value.hasNext {
          break;
        }
        page := page + 1;
      }
    }

    /** Walk every target city in order, at most `maxPagesPerCity` pages each, cooling down
      after each city. */
    method ScrapeAllCities(maxPagesPerCity: int, net: Network) returns (allProperties: seq<Record>)
      requires Valid()
      modifies this
      ensures Valid()
      ensures var s := SweepFrom(net, maxPagesPerCity, TargetCities, Sweep([], old(agentIndex), old(log)));
        allProperties == s.records && agentIndex == s.index && log == s.log
    {
      allProperties := [];
      var cities := TargetCities;
      ghost var target := SweepFrom(net, maxPagesPerCity, cities, Sweep([], agentIndex, log));
      for i := 0 to |cities|
        invariant Valid()
        invariant SweepFrom(net, maxPagesPerCity, cities[i..], Sweep(allProperties, agentIndex, log)) == target
      {
        ghost var acc := Sweep(allProperties, agentIndex, log);
        var cityProperties := ScrapePropertyListings(cities[i], maxPagesPerCity, net);
        allProperties := allProperties + cityProperties;
        log := log + [Cooldown];
        assert cities[i..][1..] == cities[i + 1..];
        SweepStep(net, maxPagesPerCity, cities[i..], acc);
      }
    }
  }
}
