/** The `GET` handler of the slugs endpoint: every localized event contributes its English slug,
    then its Arabic slug, to the list the success envelope carries. */
module SlugsRoute {

  import opened EventTypes

  datatype LocalizedText = LocalizedText(en: string, ar: string)

  /** The part of a localized event this handler reads. */
  datatype LocalizedEvent = LocalizedEvent(slug: LocalizedText)

  datatype SlugEntry = SlugEntry(slug: string, locale: Locale)

  /** `{ success: true, slugs }`. */
  datatype SlugsResponse = SlugsResponse(success: bool, slugs: seq<SlugEntry>)

  /** The two entries one event contributes. */
  function EntriesOf(e: LocalizedEvent): seq<SlugEntry> {
    [SlugEntry(e.slug.en, En), SlugEntry(e.slug.ar, Ar)]
  }

  /** The slug list of the first events, in order. */
  function SlugList(events: seq<LocalizedEvent>): seq<SlugEntry> {
    if |events| == 0 then [] else SlugList(events[..|events| - 1]) + EntriesOf(events[|events| - 1])
  }

  /** How many entries carry `locale`. */
  function CountLocale(entries: seq<SlugEntry>, locale: Locale): nat {
    if |entries| == 0 then 0
    else CountLocale(entries[..|entries| - 1], locale) + (if entries[|entries| - 1].locale == locale then 1 else 0)
  }

  /** Two entries per event, in event order: the English slug at `2i`, the Arabic one at `2i + 1`. */
  lemma {:induction false} SlugListLayout(events: seq<LocalizedEvent>)
    ensures |SlugList(events)| == 2 * |events|
    ensures forall i :: 0 <= i < |events| ==>
      SlugList(events)[2 * i] == SlugEntry(events[i].slug.en, En)
      && SlugList(events)[2 * i + 1] == SlugEntry(events[i].slug.ar, Ar)
  {
    if |events| > 0 {
      var init := events[..|events| - 1];
      SlugListLayout(init);
      assert forall i :: 0 <= i < |init| ==> init[i] == events[i];
    }
  }

  lemma CountLocaleConcat(a: seq<SlugEntry>, b: seq<SlugEntry>, locale: Locale)
    ensures CountLocale(a + b, locale) == CountLocale(a, locale) + CountLocale(b, locale)
    decreases |b|
  {
    if |b| > 0 {
      assert (a + b)[..|a + b| - 1] == a + b[..|b| - 1];
      CountLocaleConcat(a, b[..|b| - 1], locale);
    } else {
      assert a + b == a;
    }
  }

  /** There are as many English entries as Arabic ones, one of each per event. */
  lemma {:induction false} SlugListBalanced(events: seq<LocalizedEvent>)
    ensures CountLocale(SlugList(events), En) == |events|
    ensures CountLocale(SlugList(events), Ar) == |events|
  {
    if |events| > 0 {
      var init, last := events[..|events| - 1], events[|events| - 1];
      SlugListBalanced(init);
      CountLocaleConcat(SlugList(init), EntriesOf(last), En);
      CountLocaleConcat(SlugList(init), EntriesOf(last), Ar);
      var pair, first := EntriesOf(last), [SlugEntry(last.slug.en, En)];
      assert pair[..1] == first && first[..0] == [];
      assert CountLocale(first, En) == 1 && CountLocale(first, Ar) == 0;
      assert CountLocale(pair, En) == 1 && CountLocale(pair, Ar) == 1;
    }
  }

  /** `GET()`: push two entries per event, then answer with the success envelope. */
  method GetSlugs(events: seq<LocalizedEvent>) returns (r: SlugsResponse)
    ensures r.success
    ensures r.slugs == SlugList(events)
    ensures |r.slugs| == 2 * |events|
    ensures forall i :: 0 <= i < |events| ==>
      r.slugs[2 * i] == SlugEntry(events[i].slug.en, En)
      && r.slugs[2 * i + 1] == SlugEntry(events[i].slug.ar, Ar)
  {
    var slugs: seq<SlugEntry> := [];
    for n := 0 to |events|
      invariant slugs == SlugList(events[..n])
    {
      slugs := slugs + [SlugEntry(events[n].slug.en, En)];
      slugs := slugs + [SlugEntry(events[n].slug.ar, Ar)];
      assert events[..n + 1][..n] == events[..n];
    }
    assert events[..|events|] == events;
    SlugListLayout(events);
    r := SlugsResponse(true, slugs);
  }
}
