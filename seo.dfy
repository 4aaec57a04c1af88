/** The SEO string builders: the JSON-LD record of an event after the schema.org `Event`, `Place`,
    `PostalAddress`, `Organization` and `Offer` types, the meta description and the keyword list. */
module Seo {

  import opened Wrappers
  import opened Strings
  import opened EventTypes
  import Sitemap

  datatype PostalAddress = PostalAddress(
    addressType: string, addressLocality: string, addressRegion: string, addressCountry: string)

  datatype Place = Place(placeType: string, name: string, address: PostalAddress)

  datatype Organization = Organization(organizationType: string, name: string, url: string)

  datatype Performer = Performer(performerType: string, name: string)

  datatype Offer = Offer(
    offerType: string, price: string, priceCurrency: string, availability: string,
    validFrom: string, url: string)

  /** The object `generateEventJsonLd` returns; `@context` and `@type` are `context` and `schemaType`. */
  datatype EventJsonLd = EventJsonLd(
    context: string,
    schemaType: string,
    name: string,
    description: string,
    startDate: int,
    endDate: int,
    eventStatus: string,
    eventAttendanceMode: string,
    location: Place,
    image: seq<string>,
    organizer: Organization,
    offers: Offer,
    performer: Performer)

  const InStock := "https://schema.org/InStock"
  const SoldOut := "https://schema.org/SoldOut"

  /** A template literal renders an unset environment variable as the text "undefined". */
  function EnvText(v: Option<string>): string {
    if v.None? then "undefined" else v.value
  }

  /** `event.price === 'free' ? '0' : event.price.toString()`. */
  function OfferPrice(p: Price): string {
    if p.Free? then "0" else IntToString(p.value)
  }

  function Availability(e: Event): string {
    if e.attendeeCount < e.maxAttendees then InStock else SoldOut
  }

  /** `generateEventJsonLd(event)`; `baseUrl` is `process.env.NEXT_PUBLIC_BASE_URL`. */
  function GenerateEventJsonLd(e: Event, baseUrl: Option<string>): EventJsonLd {
    EventJsonLd(
      "https://schema.org",
      "Event",
      e.title,
      e.description,
      e.date,
      if e.endDate.Some? then e.endDate.value else e.date,
      "https://schema.org/EventScheduled",
      "https://schema.org/OfflineEventAttendanceMode",
      Place("Place", e.location.venue,
            PostalAddress("PostalAddress", e.location.city, e.location.state, e.location.country)),
      [e.imageUrl],
      Organization("Organization", e.organizer.name, e.organizer.avatar),
      Offer("Offer", OfferPrice(e.price), "USD", Availability(e), e.createdAt,
            EnvText(baseUrl) + "/events/" + e.slug),
      Performer("Organization", e.organizer.name))
  }

  /** The end date is the event's own end date when it has one, otherwise its start date;
      either way it is never before the start when the event's own dates are ordered. */
  lemma JsonLdEndDate(e: Event, baseUrl: Option<string>)
    ensures var r := GenerateEventJsonLd(e, baseUrl);
      && r.startDate == e.date
      && (e.endDate.Some? ==> r.endDate == e.endDate.value)
      && (e.endDate.None? ==> r.endDate == e.date)
      && ((e.endDate.Some? && e.date <= e.endDate.value) || e.endDate.None? ==> r.startDate <= r.endDate)
  {
  }

  /** The offer price is the canonical decimal text of the numeric price (0 for a free event), so by
      `CanonicalDecimalUnique` it is that price's rendering; it is "0" exactly for a free event or a
      numeric price of 0. */
  lemma JsonLdOfferPrice(e: Event, baseUrl: Option<string>)
    ensures var r := GenerateEventJsonLd(e, baseUrl);
      && ParseInt(r.offers.price) == Some(if e.price.Free? then 0 else e.price.value)
      && CanonicalDecimal(r.offers.price)
      && (r.offers.price == "0" <==> e.price == Free || e.price == Amount(0))
  {
    if e.price.Amount? {
      IntToStringRoundTrip(e.price.value);
      IntToStringCanonical(e.price.value);
      IntToStringZero(e.price.value);
    } else {
      IntToStringRoundTrip(0);
      IntToStringCanonical(0);
    }
  }

  /** In stock exactly while places remain, sold out otherwise. */
  lemma JsonLdAvailability(e: Event, baseUrl: Option<string>)
    ensures var r := GenerateEventJsonLd(e, baseUrl);
      && (r.offers.availability == InStock <==> e.attendeeCount < e.maxAttendees)
      && (r.offers.availability == SoldOut <==> e.attendeeCount >= e.maxAttendees)
  {
    assert InStock != SoldOut by {
      assert InStock[20] != SoldOut[20];
    }
  }

  /** Name, description, place and organizer (its url is the organizer's avatar) are copied
      unchanged from the event; the performer is the organizer by name. */
  lemma JsonLdCopiesListing(e: Event, baseUrl: Option<string>)
    ensures var r := GenerateEventJsonLd(e, baseUrl);
      && r.name == e.title && r.description == e.description
      && r.location.name == e.location.venue
      && r.location.address.addressLocality == e.location.city
      && r.location.address.addressRegion == e.location.state
      && r.location.address.addressCountry == e.location.country
      && r.organizer.name == e.organizer.name == r.performer.name
      && r.organizer.url == e.organizer.avatar
      && r.offers.validFrom == e.createdAt && r.image == [e.imageUrl]
  {
  }

  /** The fields every record carries whatever the event: the schema.org context and types, a
      scheduled offline event, and prices in US dollars. */
  lemma JsonLdFixedFields(e: Event, baseUrl: Option<string>)
    ensures var r := GenerateEventJsonLd(e, baseUrl);
      && r.context == "https://schema.org" && r.schemaType == "Event"
      && r.eventStatus == "https://schema.org/EventScheduled"
      && r.eventAttendanceMode == "https://schema.org/OfflineEventAttendanceMode"
      && r.location.placeType == "Place" && r.location.address.addressType == "PostalAddress"
      && r.organizer.organizationType == "Organization" && r.performer.performerType == "Organization"
      && r.offers.offerType == "Offer" && r.offers.priceCurrency == "USD"
  {
  }

  /** The offer url is the base url, then "/events/", then the slug, which can be read back from it. */
  lemma JsonLdOfferUrl(e: Event, baseUrl: Option<string>)
    ensures var r := GenerateEventJsonLd(e, baseUrl);
      && r.offers.url[..|EnvText(baseUrl)|] == EnvText(baseUrl)
      && r.offers.url[|EnvText(baseUrl)|..|EnvText(baseUrl)| + 8] == "/events/"
      && r.offers.url[|EnvText(baseUrl)| + 8..] == e.slug
      && (baseUrl.None? ==> r.offers.url[..9] == "undefined")
  {
  }

  /** As written, an unset base-url variable puts the text "undefined" where the site address belongs. */
  lemma JsonLdOfferUrlUnset(e: Event)
    ensures GenerateEventJsonLd(e, None).offers.url == "undefined/events/" + e.slug
  {
  }

  /** The JSON-LD record with the base url the sitemap uses: the variable, or the local default
      when it is unset or empty. */
  function CorrectedEventJsonLd(e: Event, env: Option<string>): EventJsonLd {
    GenerateEventJsonLd(e, Some(Sitemap.BaseUrl(env)))
  }

  /** With the fallback the offer url always starts with the site's own base url, never with
      "undefined", and everything else is as before. */
  lemma CorrectedOfferUrl(e: Event, env: Option<string>)
    ensures var r := CorrectedEventJsonLd(e, env);
      && r.offers.url == Sitemap.BaseUrl(env) + "/events/" + e.slug
      && (env.None? || env == Some("") ==> r.offers.url == Sitemap.DefaultBaseUrl + "/events/" + e.slug)
      && (env.Some? && env.value != "" ==> r == GenerateEventJsonLd(e, env))
      && var w := GenerateEventJsonLd(e, None);
         r.(offers := r.offers.(url := "")) == w.(offers := w.offers.(url := ""))
  {
  }

  // ---------------------------------------------------------------- meta description

  /** `event.price === 'free' ? 'Free entry' : \`From $${event.price}\``. */
  function PriceLabel(p: Price): string {
    if p.Free? then "Free entry" else "From $" + IntToString(p.value)
  }

  /** `generateMetaDescription(event)`. */
  function GenerateMetaDescription(e: Event): string {
    var location := e.location.city + ", " + e.location.country;
    e.description + " " + PriceLabel(e.price) + (". " + location + ". Book your tickets now!")
  }

  /** The price label is exactly "Free entry" for a free event; otherwise "From $" and the
      canonical decimal text of the price. */
  lemma PriceLabelParts(p: Price)
    ensures var t := PriceLabel(p);
      && |t| >= 7
      && (p.Free? ==> t == "Free entry")
      && (p.Amount? ==> t[..6] == "From $" && ParseInt(t[6..]) == Some(p.value) && CanonicalDecimal(t[6..]))
  {
    var t := PriceLabel(p);
    if p.Amount? {
      var x := IntToString(p.value);
      assert |x| > 0;
      assert t[..6] == "From $" && t[6..] == x;
      assert t[2] == 'o';
      IntToStringRoundTrip(p.value);
      IntToStringCanonical(p.value);
    }
  }

  /** The parts of `d + " " + t + tail` read back by position. */
  lemma DescriptionSlices(d: string, t: string, tail: string)
    requires |t| >= 6
    ensures var r := d + " " + t + tail;
      && |r| == |d| + 1 + |t| + |tail|
      && r[..|d|] == d && r[|d|] == ' '
      && r[|d| + 1..|d| + 7] == t[..6]
      && r[|d| + 7..|r| - |tail|] == t[6..]
      && (|t| >= 10 ==> r[|d| + 1..|d| + 11] == t[..10])
      && r[|d| + 3] == t[2]
      && r[|r| - |tail|..] == tail
  {
    var r := d + " " + t + tail;
    assert r == d + (" " + t + tail);
    assert r == (d + " " + t) + tail;
    assert r[|d| + 1..|r| - |tail|] == t;
  }

  /** The description comes first, then a space and the price label, then the place and the call
      to book. The label is exactly "Free entry" for a free event; otherwise it is "From $" followed
      by the canonical decimal text of the price. */
  lemma MetaDescriptionParts(e: Event)
    ensures var r, d := GenerateMetaDescription(e), e.description;
      var tail := ". " + (e.location.city + ", " + e.location.country) + ". Book your tickets now!";
      && |r| >= |d| + 8 + |tail|
      && r[..|d|] == d && r[|d|] == ' '
      && ((|r| >= |d| + 11 && r[|d| + 1..|d| + 11] == "Free entry") <==> e.price.Free?)
      && (e.price.Free? ==> |r| == |d| + 11 + |tail|)
      && (e.price.Amount? ==> r[|d| + 1..|d| + 7] == "From $"
                              && ParseInt(r[|d| + 7..|r| - |tail|]) == Some(e.price.value)
                              && CanonicalDecimal(r[|d| + 7..|r| - |tail|]))
      && r[|r| - |tail|..] == tail
  {
    var d, t := e.description, PriceLabel(e.price);
    var tail := ". " + (e.location.city + ", " + e.location.country) + ". Book your tickets now!";
    assert GenerateMetaDescription(e) == d + " " + t + tail;
    PriceLabelParts(e.price);
    DescriptionSlices(d, t, tail);
    if e.price.Amount? {
      var r := GenerateMetaDescription(e);
      assert t[2] == t[..6][2] == 'o';
      assert |r| >= |d| + 11 ==> r[|d| + 1..|d| + 11][2] == r[|d| + 3];
    }
  }

  // ---------------------------------------------------------------- keywords

  /** `[title, category, ...tags, city, country]`. */
  function KeywordList(e: Event): seq<string> {
    [e.title, e.category] + e.tags + [e.location.city, e.location.country]
  }

  /** `generateKeywords(event)`. */
  function GenerateKeywords(e: Event): string {
    Join(KeywordList(e), ", ")
  }

  /** The keyword list holds title, category, every tag in order, city and country, whatever
      characters they contain. */
  lemma KeywordsLayout(e: Event)
    ensures |KeywordList(e)| == |e.tags| + 4
    ensures KeywordList(e)[0] == e.title && KeywordList(e)[1] == e.category
    ensures forall i :: 0 <= i < |e.tags| ==> KeywordList(e)[2 + i] == e.tags[i]
    ensures KeywordList(e)[|e.tags| + 2] == e.location.city && KeywordList(e)[|e.tags| + 3] == e.location.country
  {
  }

  /** When no part contains a comma, splitting the keywords text at ", " gives the keyword list
      back, so the text determines the list. */
  lemma KeywordsRoundTrip(e: Event)
    requires forall i :: 0 <= i < |KeywordList(e)| ==> ',' !in KeywordList(e)[i]
    ensures Split(GenerateKeywords(e), ", ") == KeywordList(e)
  {
    SplitJoin(KeywordList(e), ", ");
  }
}
