/** The sitemap: two static pages, then one detail page and one booking page per event, each
    with its English and Arabic alternates. */
module Sitemap {

  import opened Wrappers
  import opened EventTypes
  import opened EventsApi

  const DefaultBaseUrl := "http://localhost:3000"

  datatype ChangeFrequency = Daily | Weekly | Monthly

  datatype Alternates = Alternates(en: string, ar: string)

  /** One sitemap entry; `priority` is kept in tenths (1, 0.8 and 0.6 are 10, 8 and 6). */
  datatype Entry = Entry(url: string, changeFrequency: ChangeFrequency, priorityTenths: nat, alternates: Alternates)

  /** `process.env.NEXT_PUBLIC_BASE_URL || 'http://localhost:3000'`: an unset or empty value falls back. */
  function BaseUrl(env: Option<string>): (r: string)
    ensures env.None? || env == Some("") ==> r == DefaultBaseUrl
    ensures env.Some? && env.value != "" ==> r == env.value
    ensures r != ""
  {
    if env.Some? && env.value != "" then env.value else DefaultBaseUrl
  }

  /** A page under both locale prefixes; the English one is the page's own url. */
  function LocalizedEntry(base: string, path: string, freq: ChangeFrequency, priorityTenths: nat): Entry {
    Entry(base + "/en" + path, freq, priorityTenths, Alternates(base + "/en" + path, base + "/ar" + path))
  }

  function StaticPages(base: string): seq<Entry> {
    [LocalizedEntry(base, "/events", Daily, 10), LocalizedEntry(base, "/tickets", Weekly, 8)]
  }

  function EventPages(base: string, events: seq<Event>): seq<Entry> {
    seq(|events|, i requires 0 <= i < |events| => LocalizedEntry(base, "/events/" + events[i].slug, Weekly, 8))
  }

  function BookingPages(base: string, events: seq<Event>): seq<Entry> {
    seq(|events|, i requires 0 <= i < |events| =>
      LocalizedEntry(base, "/events/" + events[i].slug + "/book", Monthly, 6))
  }

  /** `sitemap()`, with `events` the list `getEvents()` returns and `env` the base-url variable. */
  function BuildSitemap(events: seq<Event>, env: Option<string>): seq<Entry> {
    var base := BaseUrl(env);
    StaticPages(base) + EventPages(base, events) + BookingPages(base, events)
  }

  /** Two static pages, then `n` event pages, then `n` booking pages. */
  lemma SitemapLength(events: seq<Event>, env: Option<string>)
    ensures |BuildSitemap(events, env)| == 2 + 2 * |events|
  {
  }

  /** The events page is refreshed daily and the tickets page weekly, both under both locales. */
  lemma SitemapStaticPages(events: seq<Event>, env: Option<string>)
    ensures var r, b := BuildSitemap(events, env), BaseUrl(env);
      && r[0] == Entry(b + "/en/events", Daily, 10, Alternates(b + "/en/events", b + "/ar/events"))
      && r[1] == Entry(b + "/en/tickets", Weekly, 8, Alternates(b + "/en/tickets", b + "/ar/tickets"))
  {
    var b := BaseUrl(env);
    assert b + "/en" + "/events" == b + "/en/events" && b + "/ar" + "/events" == b + "/ar/events";
    assert b + "/en" + "/tickets" == b + "/en/tickets" && b + "/ar" + "/tickets" == b + "/ar/tickets";
  }

  /** Entry `2 + i` is the detail page of the `i`-th event: its English url is its own url and
      its Arabic alternate differs only in the locale segment. */
  lemma SitemapEventPage(events: seq<Event>, env: Option<string>, i: nat)
    requires i < |events|
    ensures var r, b, slug := BuildSitemap(events, env), BaseUrl(env), events[i].slug;
      && 2 + i < |r|
      && r[2 + i].url == b + "/en/events/" + slug
      && r[2 + i].alternates == Alternates(r[2 + i].url, b + "/ar/events/" + slug)
      && r[2 + i].changeFrequency == Weekly && r[2 + i].priorityTenths == 8
  {
    var b, slug := BaseUrl(env), events[i].slug;
    var r := BuildSitemap(events, env);
    assert r[2 + i] == EventPages(b, events)[i];
    assert b + "/en" + ("/events/" + slug) == b + "/en/events/" + slug;
    assert b + "/ar" + ("/events/" + slug) == b + "/ar/events/" + slug;
  }

  /** Entry `2 + n + i` is the booking page of the `i`-th event: the detail page's urls with "/book" appended. */
  lemma SitemapBookingPage(events: seq<Event>, env: Option<string>, i: nat)
    requires i < |events|
    ensures var r, n := BuildSitemap(events, env), |events|;
      && 2 + n + i < |r|
      && r[2 + n + i].url == r[2 + i].url + "/book"
      && r[2 + n + i].alternates == Alternates(r[2 + i].alternates.en + "/book", r[2 + i].alternates.ar + "/book")
      && r[2 + n + i].changeFrequency == Monthly && r[2 + n + i].priorityTenths == 6
  {
    var b, slug, n := BaseUrl(env), events[i].slug, |events|;
    var r := BuildSitemap(events, env);
    assert r[2 + i] == EventPages(b, events)[i];
    assert r[2 + n + i] == BookingPages(b, events)[i];
    assert b + "/en" + ("/events/" + slug + "/book") == b + "/en" + ("/events/" + slug) + "/book";
    assert b + "/ar" + ("/events/" + slug + "/book") == b + "/ar" + ("/events/" + slug) + "/book";
  }

  /** Over the unfiltered event list the pages follow date order: the `i`-th detail and booking
      pages belong to the `i`-th event of the fixture sorted by date, and every fixture event has
      exactly as many detail pages as it has occurrences. */
  lemma SitemapFollowsDateOrder(fixture: seq<Event>, env: Option<string>)
    ensures var events := Query(fixture, NoFilters);
      && |BuildSitemap(events, env)| == 2 + 2 * |fixture|
      && SortedByDate(events)
      && multiset(events) == multiset(fixture)
      && forall i :: 0 <= i < |events| ==>
           BuildSitemap(events, env)[2 + i].url == BaseUrl(env) + "/en/events/" + events[i].slug
  {
    var events := Query(fixture, NoFilters);
    QueryUnfiltered(fixture, NoFilters);
    SortByDateSorted(fixture);
    assert |events| == |multiset(events)| == |multiset(fixture)| == |fixture|;
    forall i | 0 <= i < |events|
      ensures BuildSitemap(events, env)[2 + i].url == BaseUrl(env) + "/en/events/" + events[i].slug
    {
      SitemapEventPage(events, env, i);
    }
  }
}
