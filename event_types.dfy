/** The entities of the event fixture and the filter set of the query engine.
    Dates are integer timestamps (milliseconds), standing for the ISO strings of the fixture. */
module EventTypes {

  import opened Wrappers

  /** `price: number | 'free'`. A numeric price of 0 is a number, not the free marker. */
  datatype Price = Free | Amount(value: int)

  datatype Location = Location(venue: string, city: string, state: string, country: string)

  datatype Organizer = Organizer(name: string, avatar: string)

  datatype Event = Event(
    id: string,
    slug: string,
    title: string,
    description: string,
    longDescription: string,
    date: int,
    endDate: Option<int>,
    location: Location,
    category: string,
    tags: seq<string>,
    imageUrl: string,
    price: Price,
    attendeeCount: int,
    maxAttendees: int,
    organizer: Organizer,
    featured: bool,
    createdAt: string)

  /** `priceRange?: 'free' | 'paid' | 'all'`. */
  datatype PriceRange = FreeOnly | PaidOnly | AllPrices

  /** Every field may be absent; an empty string is tested like an absent one. */
  datatype EventFilters = EventFilters(
    search: Option<string>,
    category: Option<string>,
    location: Option<string>,
    startDate: Option<int>,
    endDate: Option<int>,
    priceRange: Option<PriceRange>)

  /** `getEvents()` called without a filter object. */
  const NoFilters := EventFilters(None, None, None, None, None, None)

  /** The two supported locales. */
  datatype Locale = En | Ar
}
