# Event discovery platform: a verified model of its core

This project models the server-side core of the event discovery platform (a Next.js site for
browsing and booking events) and proves what that core promises. The core has seven parts:

- **Event query engine** (`EventsApi`, over the types of `EventTypes`).
  - `getEvents` runs a fixed chain of six filters over the fixture array: search, category, free-text location, start date, end date and price.
  - It then sorts the survivors by date, in place and stably.
  - Beside it sit the lookups `getEventBySlug`, `getFeaturedEvents`, `getCategories` and `getLocations`.
  - Each filter call allocates a new array. When no filter narrows the list, the working array is the fixture itself, and the sort reorders it. `GetEvents` works on a Dafny `array` and says in its contract which of the two happens.
- **SEO builders** (`Seo`): the schema.org JSON-LD record of an event, the meta description and the keyword list.
- **Booking form schema** (`BookingValidation`, over the regular-expression model `Patterns`).
  - It covers the name, mobile, date and event-id rules and `validateBooking`.
  - The name and mobile rules are stated as the source's regular expressions. They are proved equal to a direct description of the strings they accept.
- **Query-parameter fold** (`QueryParams`): `mapParamsToObject`, an imperative loop over the pairs that writes into a dictionary.
- **Sitemap** (`Sitemap`): the static pages, then the event pages, then the booking pages.
- **Slugs endpoint** (`SlugsRoute`): a loop that pushes the English and the Arabic slug of every event.
- **Bookings endpoint** (`BookingsRoute`): the required-field guard and the assembly of the confirmed booking.

`Strings` models the JavaScript string operations the core relies on:

- `toLowerCase` and `toUpperCase`;
- `includes`;
- the default order of `Array.prototype.sort`;
- `join`;
- the decimal rendering of integers.

`Wrappers` holds `Option` and `Result`.

The two files that read the fixture disagree on its shape: `src/lib/api/events.ts:15` reads
`mock-events.json` as `Event[]`, with a string `slug`, while `src/app/api/events/slugs/route.ts:7`
reads the same file as `LocalizedEvent[]`, with `slug: { en, ar }`. Each module follows its own file:
`EventsApi`, `Seo` and `Sitemap` take `EventTypes.Event`, and `SlugsRoute` takes its own
`LocalizedEvent`. The model does not decide which reading matches the data.

Inputs the code reads from its surroundings become parameters:

- the fixture (`mock-events.json`) is a sequence or an array of `Event`;
- `NEXT_PUBLIC_BASE_URL` is an `Option<string>`;
- the parsed request body is an `Option<Json>`, `None` when the body is not JSON;
- `Math.random`, `Date.now()` and `new Date().toISOString()` are the fields of `BookingsRoute.Generated`;
- zod's verdicts on the email syntax and the date are two booleans.

Dates are integer timestamps. A price is `Free` or `Amount(n)`. `Amount(0)` is a paid event for every filter, because the code compares with `'free'`.

Where the code and a plain reading of its purpose differ, the model follows the code:

- `mapParamsToObject` never stores the key `__proto__`. On a plain object, assigning that key goes to the prototype setter, which ignores string values. So the result's keys are the keys of the input pairs minus `__proto__`, not all of them.
- The name rule accepts exactly 100 characters, although its message reads "less than 100 characters".
- The JSON-LD `endDate` falls back to the start date for a missing end date. An empty-string end date is not representable in the model.
- The date bounds of `getEvents` are tested for truthiness (`if (filters?.startDate)`, `if (filters?.endDate)`), so an empty bound is no filter. The model gives a bound as an `Option<int>` timestamp and writes an empty bound as `None`.

## Model

| member | source | states |
|---|---|---|
| Strings.Includes | src/lib/api/events.ts:21-24 | `includes` is true exactly when the needle occurs at some position of the haystack |
| Strings.LowerIdempotent | src/lib/api/events.ts:19 | lower-casing a text twice is lower-casing it once, which makes a term and its lower-cased form search alike |
| Strings.SplitJoin | src/lib/utils/seo.ts:76 | splitting a `join` at the separator gives the parts back when no part holds the separator's first character |
| Strings.IntToStringRoundTrip | src/lib/utils/seo.ts:37 | the decimal rendering of an integer parses back to that integer |
| Strings.IntToStringZero | src/lib/utils/seo.ts:37 | only 0 renders as "0" |
| Strings.IntToStringCanonical | src/lib/utils/seo.ts:37 | every rendering is canonical: no leading '0' unless the text is "0", and never "-0" |
| Strings.CanonicalDecimalUnique | src/lib/utils/seo.ts:37 | a canonical text that parses as `v` is exactly the rendering of `v` |
| Strings.LexLessIrreflexive | src/lib/api/events.ts:95 | no string precedes itself in the default sort order |
| Strings.UpperHasNoLowerCase | src/app/api/bookings/route.ts:32-35 | upper-casing leaves no ASCII lower-case letter and keeps every other character |
| Strings.LowerOfUpper | src/app/api/bookings/route.ts:32-35 | an upper-cased text lower-cases like the original |
| Strings.UpperDetermined | src/app/api/bookings/route.ts:32-35 | a text of the same length with no lower-case letter that lower-cases like `s` is exactly `Upper(s)` |
| EventsApi.Holds | src/lib/api/events.ts:20-85 | the tests the module passes to `filter`: lower-cased `includes` of the search term in title, description, a tag or category; equal category; lower-cased `includes` of the location in city, country or venue; date on or after the start bound; date on or before the end bound; free; not free; featured |
| EventsApi.Select | src/lib/api/events.ts:20 | `events.filter(test)`: the events passing the test, in input order; its contract is given by `SelectMultiset` and `SelectConcat` |
| EventsApi.Restrict | src/lib/api/events.ts:17-58 | the six filter blocks in source order, each applied only when its filter value is set (category also not `'all'`, price only for `'free'` or `'paid'`); its contract is given by `RestrictMultiset`, `RestrictKeepsOrder` and `RestrictSingle` |
| EventsApi.SelectMultiset | src/lib/api/events.ts:20-57 | a filter call keeps each satisfying event as often as it occurs and drops every other |
| EventsApi.SelectConcat | src/lib/api/events.ts:20-57 | filtering distributes over concatenation, so the relative order is kept |
| EventsApi.RestrictMultiset | src/lib/api/events.ts:18-58 | the six blocks together keep exactly the events every active filter admits, with their multiplicity |
| EventsApi.RestrictKeepsOrder | src/lib/api/events.ts:18-58 | the filter chain keeps fixture order |
| EventsApi.RestrictSingle | src/lib/api/events.ts:18-58 | a single event survives the chain exactly when it passes every active filter |
| EventsApi.SortByDate | src/lib/api/events.ts:61 | the stable ascending sort by date; its contract is given by `SortByDatePermutation`, `SortByDateSorted` and `SortByDateStable` |
| EventsApi.SortByDatePermutation | src/lib/api/events.ts:61 | sorting is a permutation |
| EventsApi.SortByDateSorted | src/lib/api/events.ts:61 | the sorted list is non-decreasing by date |
| EventsApi.SortByDateStable | src/lib/api/events.ts:61 | events of one date keep their relative order (stable sort) |
| EventsApi.FilterArray | src/lib/api/events.ts:20 | `events.filter(...)` yields a new array holding exactly the selected elements in order |
| EventsApi.InsertInPlace | src/lib/api/events.ts:61 | one insertion pass moves the element into the sorted prefix as the stable `Insert` does; the rest is untouched |
| EventsApi.SortInPlace | src/lib/api/events.ts:61 | the in-place sort leaves the array equal to the stable date sort of its old contents |
| EventsApi.ApplyStep | src/lib/api/events.ts:18-58 | an active filter block replaces the working array by a new filtered one; an inactive block keeps the same array |
| EventsApi.Query | src/lib/api/events.ts:12-64 | the value `getEvents` returns: the filter chain over the fixture, then the date sort; its contract is given by the `Query*` lemmas below |
| EventsApi.GetEvents | src/lib/api/events.ts:12-64 | the returned array holds the filtered, date-sorted fixture; with no active filter it is the fixture array itself, reordered; otherwise the fixture is unchanged |
| EventsApi.QueryMembers | src/lib/api/events.ts:18-58 | a result holds exactly the fixture events passing every active filter, each as often as in the fixture |
| EventsApi.QuerySorted | src/lib/api/events.ts:61 | every result is sorted by date |
| EventsApi.QueryTiesKeepFixtureOrder | src/lib/api/events.ts:61 | events of the same date keep fixture order |
| EventsApi.QueryUnfiltered | src/lib/api/events.ts:15-58 | with no filters, or only empty and `'all'` values, the result is the sorted fixture, a permutation of it |
| EventsApi.QuerySearchIgnoresCase | src/lib/api/events.ts:18-26 | two search terms that lower-case alike give identical results |
| EventsApi.QuerySearchLowered | src/lib/api/events.ts:18-26 | a search term gives the same result as its lower-cased form |
| EventsApi.QuerySearchTechExample | src/lib/api/events.ts:18-26 | "TECH" and "tech" give identical results |
| EventsApi.QueryCategoryExact | src/lib/api/events.ts:29-31 | with a category given, every result has exactly that category (case-sensitive) |
| EventsApi.QueryCategorySentinels | src/lib/api/events.ts:29 | the category `'all'` and the empty category are no filter |
| EventsApi.QueryDateBounds | src/lib/api/events.ts:44-51 | kept events lie within the supplied date bounds, both inclusive |
| EventsApi.PriceBlockIsLast | src/lib/api/events.ts:54-58 | the price block selects free or paid events from what the other blocks kept; `'all'` is no filter |
| EventsApi.FreePaidSplit | src/lib/api/events.ts:54-58 | free and paid selection split any list |
| EventsApi.QueryPricePartition | src/lib/api/events.ts:54-58 | the `'free'` and `'paid'` results together are the `'all'` result; the first holds only free events, the second only the others |
| EventsApi.QueryFreePaidDisjoint | src/lib/api/events.ts:54-58 | no event is in both the free and the paid result |
| EventsApi.GetEventBySlug | src/lib/api/events.ts:71-76 | null exactly when no event has the slug; otherwise the first event with it |
| EventsApi.GetFeaturedEvents | src/lib/api/events.ts:82-86 | `filter(e => e.featured)` over the fixture; its contract is given by `FeaturedEventsExactly` |
| EventsApi.FeaturedEventsExactly | src/lib/api/events.ts:82-86 | exactly the featured events, with multiplicity, in fixture order |
| EventsApi.SortedUniqueProperties | src/lib/api/events.ts:94-95 | `[...new Set(xs)].sort()` is strictly increasing, repeats nothing and holds exactly the values of `xs` |
| EventsApi.IncreasingHasNoDuplicates | src/lib/api/events.ts:94-95 | a strictly increasing list repeats no value |
| EventsApi.GetCategories | src/lib/api/events.ts:92-96 | the categories of the fixture, duplicates removed, in the default sort order; its contract is given by `CategoriesSortedUnique` |
| EventsApi.GetLocations | src/lib/api/events.ts:102-106 | the cities of the fixture, duplicates removed, in the default sort order; its contract is given by `LocationsSortedUnique` |
| EventsApi.CategoriesSortedUnique | src/lib/api/events.ts:92-96 | the categories are strictly increasing and exactly those of the fixture |
| EventsApi.LocationsSortedUnique | src/lib/api/events.ts:102-106 | the cities are strictly increasing and exactly those of the fixture |
| Seo.GenerateEventJsonLd | src/lib/utils/seo.ts:9-50 | the schema.org Event record, with the base-url variable as a parameter; its contract is given by the `JsonLd*` lemmas below |
| Seo.JsonLdEndDate | src/lib/utils/seo.ts:15-16 | the end date is the event's end date when present, else the start date |
| Seo.JsonLdOfferPrice | src/lib/utils/seo.ts:37 | the offer price is the canonical decimal text of the numeric price (0 when free), and is "0" exactly for a free or zero price |
| Seo.JsonLdAvailability | src/lib/utils/seo.ts:39-41 | in stock exactly when attendees are fewer than the maximum, else sold out |
| Seo.JsonLdCopiesListing | src/lib/utils/seo.ts:13-48 | name, description, venue, city, state, country, organizer name, image and validFrom come unchanged from the event; the organizer url is the organizer's avatar; the performer is the organizer by name |
| Seo.JsonLdFixedFields | src/lib/utils/seo.ts:10-48 | the schema.org context and types, the scheduled offline status and mode, and the currency "USD" are the same for every event |
| Seo.JsonLdOfferUrl | src/lib/utils/seo.ts:43 | the offer url is the base url, "/events/" and the slug, which reads back from it |
| Seo.JsonLdOfferUrlUnset | src/lib/utils/seo.ts:43 | with the base-url variable unset the offer url is "undefined/events/" and the slug |
| Seo.CorrectedEventJsonLd | src/lib/utils/seo.ts:43 | the record built with the sitemap's base-url fallback (src/app/sitemap.ts:6); its contract is given by `CorrectedOfferUrl` |
| Seo.CorrectedOfferUrl | src/lib/utils/seo.ts:43 | with the sitemap's fallback the offer url is the real base url, "/events/" and the slug; every other field, offer fields included, equals the as-written record's |
| Seo.GenerateMetaDescription | src/lib/utils/seo.ts:57-61 | description, price label, place and the call to book; its contract is given by `MetaDescriptionParts` |
| Seo.PriceLabelParts | src/lib/utils/seo.ts:59 | the label is exactly "Free entry" for a free event; otherwise "From $" and the canonical decimal text of the price |
| Seo.MetaDescriptionParts | src/lib/utils/seo.ts:57-61 | description, a space, then the label: exactly "Free entry" when free, otherwise "From $" and the canonical decimal text of the price; then the place and the call to book |
| Seo.GenerateKeywords | src/lib/utils/seo.ts:68-77 | the keyword list joined with ", "; its contract is given by `KeywordsLayout` and `KeywordsRoundTrip` |
| Seo.KeywordsLayout | src/lib/utils/seo.ts:69-75 | title, category, each tag in order, city, country, for every event |
| Seo.KeywordsRoundTrip | src/lib/utils/seo.ts:68-77 | splitting the keywords text at ", " gives the keyword list back when no part holds a comma |
| Patterns.ConcatClassFirst | src/lib/validations/booking.ts:22 | a character class in front of a pattern consumes exactly one character |
| Patterns.ConcatOptionalFirst | src/lib/validations/booking.ts:22 | an optional first part is skipped or taken |
| Patterns.RepeatClass | src/lib/validations/booking.ts:22 | a bounded repetition of a class matches strings of lo to hi characters of the class |
| Patterns.OneOrMoreClass | src/lib/validations/booking.ts:12 | `[..]+` matches the non-empty strings of characters of the class |
| BookingValidation.NameIssues | src/lib/validations/booking.ts:8-12 | the messages of the name rules that fail, in rule order (every rule runs); its contract is given by `NameAccepted` and `NameLengthRejects` |
| BookingValidation.NameClassMembers | src/lib/validations/booking.ts:12 | the name class is the ASCII letters, JavaScript white space and U+0600..U+06FF |
| BookingValidation.NameAccepted | src/lib/validations/booking.ts:8-12 | a name passes exactly when it has 2 to 100 characters, each of the name class |
| BookingValidation.NameLengthRejects | src/lib/validations/booking.ts:10-11 | too short or too long names are rejected with the length message |
| BookingValidation.MobileIssues | src/lib/validations/booking.ts:19-24 | the mobile message when the text does not match the pattern, else nothing; its contract is given by `MobilePatternExact` and the `Mobile*` lemmas |
| BookingValidation.NationalNumberExact | src/lib/validations/booking.ts:22 | `[1-9]\d{1,14}` matches 2 to 15 digits whose first is not 0 |
| BookingValidation.MobilePatternExact | src/lib/validations/booking.ts:19-24 | the mobile pattern accepts exactly an optional '+' then 2 to 15 digits, the first not 0 |
| BookingValidation.MobileDigitCount | src/lib/validations/booking.ts:22 | an accepted number has 2 to 15 digits, the E.164 maximum, and does not start with 0 |
| BookingValidation.MobileRejectsLeadingZero | src/lib/validations/booking.ts:22-23 | a number starting with 0, with or without '+', is rejected |
| BookingValidation.MobileRejectsNonDigit | src/lib/validations/booking.ts:22-23 | a non-digit other than one leading '+' is rejected |
| BookingValidation.MobileExampleAccepted | src/lib/validations/booking.ts:23 | the message's own example is accepted |
| BookingValidation.EmailIssues | src/lib/validations/booking.ts:14-17 | the email message exactly when zod's verdict on the address is negative; its contract is given by `FieldReports` |
| BookingValidation.DateIssues | src/lib/validations/booking.ts:26-34 | the `min(1)` message for an empty date, then the future-date message when the refinement fails; the refinement runs even after `min(1)` fails (zod does not abort on a failed string check); its contract is given by `FieldReports` |
| BookingValidation.EventIdIssues | src/lib/validations/booking.ts:36 | the event-id message exactly for an empty id; its contract is given by `FieldReports` |
| BookingValidation.Report | src/lib/validations/booking.ts:7-37 | a field reports nothing exactly when it is a string breaking no rule; every issue names that field |
| BookingValidation.Issues | src/lib/validations/booking.ts:7-37 | the reports of the five fields, in schema order; its contract is given by `FieldReports` and `ValidateBookingBlames` |
| BookingValidation.ValidateBooking | src/lib/validations/booking.ts:46-48 | `safeParse`: the parsed form when there is no issue, else the issues; its contract is given by `ValidateBookingAccepts` and `ValidateBookingBlames` |
| BookingValidation.FieldReports | src/lib/validations/booking.ts:7-37 | each field is clean exactly when all its rules hold |
| BookingValidation.ValidateBookingAccepts | src/lib/validations/booking.ts:46-48 | parsing succeeds exactly when every rule of every field holds; the result carries the fields, the email lower-cased |
| BookingValidation.ValidateBookingBlames | src/lib/validations/booking.ts:46-48 | a rejected form names a field exactly when that field breaks a rule |
| QueryParams.LastValue | src/lib/utils/query-params.ts:8-10 | the value of the last pair with a key, none exactly when the key does not occur |
| QueryParams.Fold | src/lib/utils/query-params.ts:6-12 | the dictionary after assigning every pair in order; its contract is given by `FoldMeaning` |
| QueryParams.FoldMeaning | src/lib/utils/query-params.ts:8-10 | the keys are those occurring except `__proto__`, each holding the value of its last pair |
| QueryParams.FoldEmpty | src/lib/utils/query-params.ts:6-12 | no pairs give the empty dictionary |
| QueryParams.FoldDistinct | src/lib/utils/query-params.ts:8-12 | with distinct keys each key holds its own value and nothing else is stored |
| QueryParams.FoldLastWins | src/lib/utils/query-params.ts:9 | a later pair overwrites an earlier one |
| QueryParams.MapParamsToObject | src/lib/utils/query-params.ts:5-13 | the loop builds the fold: keys occurring except `__proto__`, last write wins |
| Sitemap.BaseUrl | src/app/sitemap.ts:6 | an unset or empty variable gives `http://localhost:3000`, any other value is used as is |
| Sitemap.BuildSitemap | src/app/sitemap.ts:4-65 | static pages, then event pages, then booking pages for the events given; its contract is given by the `Sitemap*` lemmas below |
| Sitemap.SitemapLength | src/app/sitemap.ts:9-64 | 2 + 2n entries for n events |
| Sitemap.SitemapStaticPages | src/app/sitemap.ts:9-34 | the events page (daily) and tickets page (weekly) with both locale alternates |
| Sitemap.SitemapEventPage | src/app/sitemap.ts:37-48 | entry 2+i is the English detail page of event i, its Arabic alternate the same under "/ar", weekly |
| Sitemap.SitemapBookingPage | src/app/sitemap.ts:51-62 | entry 2+n+i is entry 2+i's urls with "/book" appended, monthly |
| Sitemap.SitemapFollowsDateOrder | src/app/sitemap.ts:5-64 | over the unfiltered event list the pages follow a date-sorted permutation of the fixture |
| SlugsRoute.SlugList | src/app/api/events/slugs/route.ts:8-14 | the list the push loop builds; its contract is given by `SlugListLayout` and `SlugListBalanced` |
| SlugsRoute.SlugListLayout | src/app/api/events/slugs/route.ts:11-14 | 2n entries; entry 2i is the English slug of event i, entry 2i+1 its Arabic slug |
| SlugsRoute.CountLocaleConcat | src/app/api/events/slugs/route.ts:11-14 | locale counts add up over concatenation |
| SlugsRoute.SlugListBalanced | src/app/api/events/slugs/route.ts:12-13 | as many English as Arabic entries, one of each per event |
| SlugsRoute.GetSlugs | src/app/api/events/slugs/route.ts:5-26 | the push loop answers success with the slug list, laid out as above |
| BookingsRoute.Post | src/app/api/bookings/route.ts:4-55 | the handler's answer for a parsed body; its contract is given by the `Post*` lemmas below |
| BookingsRoute.BookingRecord | src/app/api/bookings/route.ts:29-38 | `{ id, ...body, ticketNumber, status, bookingDate }`; its contract is given by `BookingKeepsBody` |
| BookingsRoute.TicketNumber | src/app/api/bookings/route.ts:32-35 | "TKT-", the clock, a dash and the upper-cased random characters; its contract is given by `TicketNumberShape` |
| BookingsRoute.RequiredFieldsMeaning | src/app/api/bookings/route.ts:9-15 | the guard passes exactly when all five fields are present and truthy, which needs an object body |
| BookingsRoute.PostServerError | src/app/api/bookings/route.ts:45-53 | 500 with "Failed to create booking" exactly for an unreadable or null body |
| BookingsRoute.PostMissingFields | src/app/api/bookings/route.ts:9-23 | 400 with "Missing required fields" exactly when a readable body lacks a truthy required field |
| BookingsRoute.PostRejectsEmptyField | src/app/api/bookings/route.ts:9-23 | one missing or empty required field is enough for the 400 answer |
| BookingsRoute.PostRejectedBuildsNoBooking | src/app/api/bookings/route.ts:9-53 | every failure answer has `success: false` and no booking |
| BookingsRoute.PostConfirms | src/app/api/bookings/route.ts:29-44 | with all five fields the answer is `success: true`, the confirmation message and the assembled booking |
| BookingsRoute.BookingKeepsBody | src/app/api/bookings/route.ts:29-38 | every body field is kept except ticketNumber, status and bookingDate, which take the generated values; the generated id survives only without a body id |
| BookingsRoute.TicketNumberShape | src/app/api/bookings/route.ts:32-35 | "TKT-", the clock in canonical decimal, which reads back as the clock, a dash, then a tail with no lower-case letter that lower-cases like the random characters, which by `UpperDetermined` makes it their upper-casing |

## Left out

- The `delay`/`setTimeout` latency of `getEvents`, the lookups and the bookings endpoint: timing, not behaviour. The model treats the handlers as synchronous functions.
- `toLowerCase`/`toUpperCase` map only the ASCII letters; the Unicode case mappings are not modelled.
- Strings are sequences of Unicode characters. The default string sort and string lengths of JavaScript count UTF-16 code units, which differ only for characters outside the Basic Multilingual Plane.
- `new Date(string)` parsing and invalid dates: dates are integer timestamps, and `createdAt`/`bookingDate` are opaque texts.
- Seo.JsonLdOfferPrice: `Number.prototype.toString` is modelled for integers only; fractional prices and exponent notation are not.
- The sitemap's `lastModified` (clock and date parsing) is not modelled. `priority` is kept in tenths.
- The localized `getEvents(filters, locale)`, `getCategories(locale)` and `getCountries(locale)` that other routes call are not in `events.ts` and are not part of this model.
- zod's email check is given as the boolean `emailWellFormed`: its grammar lives in the library. The date refinement depends on the current clock and is given as `dateNotPast`.
- `validateBooking(data: unknown)` on a value that is not an object: zod then reports one invalid-type issue at the root. `BookingInput` always has five fields, so the model cannot express that input, and all five fields `None` give five `Missing` issues instead. `validateBooking` has no caller in the shown source. The booking form validates its values object through `zodResolver(bookingSchema)` (src/app/[locale]/events/[slug]/book/page.tsx:28), which always passes an object.
- The date refinement on the empty string: `new Date("")` is an invalid date, so the source's refinement fails. The model lets the caller pass `dateNotPast` freely, and nothing ties it to `date == ""`. With `dateNotPast` true and an empty date, the model reports only the `min(1)` message, where the source would also add the future-date message. Acceptance and the blamed fields are the same either way, because an empty date already breaks `min(1)`.
- BookingValidation.ValidateBookingAccepts: a field that is missing or not a string is reported as `Missing`, without zod's own message text. The email is lower-cased only on ASCII letters.
- The slugs endpoint's `catch` branch: reading the bundled fixture cannot fail in the model. `LocalizedEvent` is reduced to its `slug` field, and the rest of that type is not part of this model.
- JSON numbers in a booking body are integers, and the key order of JSON objects is not modelled (objects are maps).
- Response headers (`Cache-Control`) and logging (`console.error`).

## Findings

| source | as written | input that shows it | evidently intended | confidence | as-written member | corrected member |
|---|---|---|---|---|---|---|
| src/lib/utils/seo.ts:43 | the offer url interpolates `NEXT_PUBLIC_BASE_URL` without a fallback | the variable unset: the url becomes "undefined/events/" followed by the slug | a fallback base url. The shown files hold two literal fallbacks: `http://localhost:3000` in src/app/sitemap.ts:6 and `http://localhost:3001` in src/app/[locale]/events/page.tsx:52. The page that renders the JSON-LD (src/app/[locale]/events/[slug]/page.tsx:129) takes its own base url from `getBaseUrl()` (page.tsx:11, 36), whose fallback is not shown: `src/lib/api/base-url` is not part of this model. The corrected member assumes the sitemap's fallback | medium, not executed | Seo.JsonLdOfferUrlUnset | Seo.CorrectedOfferUrl |
