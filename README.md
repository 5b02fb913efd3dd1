# JOSM tile loading, date parsing, image geotagging and the notes filter, in Dafny

This project models four pieces of JOSM, the Java OpenStreetMap editor, and proves
properties of the models.

- **The single-fetch tile loader** `JCSCachedTileLoaderJob`, run sequentially (`cache_loader.dfy`, `cache_attributes.dfy`). It covers:
  - the freshness test of a cached tile;
  - the reader of the `Cache-Control`, `Expires` and `ETag` headers;
  - the deduplication registry of in-progress URLs (`submit`, `finishLoading`, `handleJobCancellation`);
  - the decision procedure of `run`, `loadObject` and `loadObjectHttp`: the `useHead` shortcut, conditional GETs, 304, 404, 503, other I/O failures and file URLs.

  The job is a class whose methods change its fields, the shared `inProgress` and `useHead` maps and the cache store. Each method is proved equal to a pure function of the old state (`RunSpec`, `HttpLoad`, `GetSpec`, …). The lemmas about those functions state the classification the loader promises.
- **The fast date parser** `DateUtils.parseInstant` with `checkLayout` and `parsePart2/3/4/6` (`date_utils.dfy`). The layouts are a subset of the extended ISO 8601 format: the `date-time` shape of section 5.6 of RFC 3339 with whole-hour offsets, plus variants with other separators.
  - The parser yields an instant through a proleptic Gregorian day count.
  - A reference formatter gives the round trip for the `…Z` layout.
  - The file also models the second-to-millisecond conversions of `fromTimestamp`.
- **The image entry** `GpxImageEntry` (`gpx_image_entry.dfy`): its fields and setters, the temporary copy (`createTmp`, `getTmp`, `applyTmp`, `discardTmp`) that the getters prefer, the copy constructor, and the null-first `compareTo`.
- **The notes panel** `NotesDialog` (`notes_dialog.dfy`):
  - the `matchesNote` token filter;
  - the `NoteTableModel` list, whose `filteredData` is an order-preserving filter of `data`;
  - the button decision of `updateButtonStates`.

Helper modules:
- `java_numbers.dfy`: Java's `long`/`int` ranges, wrap-around `+`/`-`, `Long.parseLong`, `Integer.toUnsignedLong` and the saturating `TimeUnit.SECONDS.toMillis`.
- `instants.dfy`: `java.time.Instant` and its `compareTo`.
- `strings.dfy`: ASCII digits, decimal values and `String.contains`.
- `wrappers.dfy`: `Option`.

Clock readings, the server, file reads and the back-off sleep are parameters:
- the loader's start time `now`;
- one `clock` value for every `System.currentTimeMillis()` call in a run;
- `Server`, a function from the request sent to the answer or the exception;
- `fileRead`;
- `interrupted`.

## Model

| member | source | states |
|---|---|---|
| CacheAttributes.IsCacheElementValid | src/org/openstreetmap/josm/data/cache/JCSCachedTileLoaderJob.java:269-292 | With an announced expiry, the entry is valid iff now is at most both the expiry and createTime plus max(28 days, minimum). Without one, it is valid iff neither the age since lastModification (when that is positive) nor the age since creation exceeds max(7 days, minimum); both tests are applied. |
| CacheAttributes.NeverValidPastCap | src/org/openstreetmap/josm/data/cache/JCSCachedTileLoaderJob.java:270-291 | Past createTime + max(EXPIRE_TIME_SERVER_LIMIT, minimum), no entry is valid, whatever its expiration time. |
| CacheAttributes.ValidityAntitone | src/org/openstreetmap/josm/data/cache/JCSCachedTileLoaderJob.java:269-292 | An entry valid at some time was valid at every earlier time since its creation. |
| CacheAttributes.ValidityMonotoneInMinimum | src/org/openstreetmap/josm/data/cache/JCSCachedTileLoaderJob.java:269-292 | Raising the minimum expiry time never invalidates a valid entry. |
| CacheAttributes.SplitComma | src/org/openstreetmap/josm/data/cache/JCSCachedTileLoaderJob.java:497 | `split(",", -1)` yields at least one piece, and no piece contains a comma. |
| CacheAttributes.JoinComma | src/org/openstreetmap/josm/data/cache/JCSCachedTileLoaderJob.java:497 | The inverse used to state the split's round trip. The first piece starts the joined text and, when more pieces follow, a comma comes right after it. |
| CacheAttributes.JoinSplitComma | src/org/openstreetmap/josm/data/cache/JCSCachedTileLoaderJob.java:497 | `split(",", -1)` loses nothing: joining the pieces with commas gives the header back. |
| CacheAttributes.SplitJoinComma | src/org/openstreetmap/josm/data/cache/JCSCachedTileLoaderJob.java:497 | Splitting comma-free tokens joined by commas gives the same tokens, empty ones included. |
| CacheAttributes.TokenExpiry | src/org/openstreetmap/josm/data/cache/JCSCachedTileLoaderJob.java:498-514 | A token contributes iff it begins with `max-age=` and the rest is a long `Long.parseLong` accepts, or likewise with `s-max-age=`. The contribution is then exactly those seconds in milliseconds (saturating) plus the clock, with long wrap-around, and always a long. |
| CacheAttributes.RunningMaxIsMaximum | src/org/openstreetmap/josm/data/cache/JCSCachedTileLoaderJob.java:494-516 | The loop's running maximum is at least 0, bounds every contribution, and is either 0 or one of the contributions: unparsable tokens are skipped. |
| CacheAttributes.DirectiveExpirationIsMaximum | src/org/openstreetmap/josm/data/cache/JCSCachedTileLoaderJob.java:494-516 | The header's expiration is the largest `max-age=`/`s-max-age=` value converted to milliseconds plus the clock, or 0 when no token gives a positive one. |
| CacheAttributes.HeaderExpiration | src/org/openstreetmap/josm/data/cache/JCSCachedTileLoaderJob.java:492-525 | The pre-minimum expiration is a long. A non-zero maximum over the Cache-Control directives takes precedence over `Expires`. |
| CacheAttributes.HeaderAttributes | src/org/openstreetmap/josm/data/cache/JCSCachedTileLoaderJob.java:487-532 | The expiration is the larger of two values: the clock plus the minimum expiry time, and the header expiration. It equals one of them and is never below either. lastModification is the job's start time, not a header. The ETag is copied verbatim. The response code is the default 200 and no error is recorded. |
| CacheAttributes.ParseHeaders | src/org/openstreetmap/josm/data/cache/JCSCachedTileLoaderJob.java:487-532 | The token loop, with its invariant, computes exactly HeaderAttributes. |
| CacheAttributes.ExpirationFallbacks | src/org/openstreetmap/josm/data/cache/JCSCachedTileLoaderJob.java:518-525 | If no directive applies, `Expires` decides; if that is 0, the clock plus DEFAULT_EXPIRE_TIME. |
| CacheAttributes.MaxAgeHeader | src/org/openstreetmap/josm/data/cache/JCSCachedTileLoaderJob.java:497-503 | A lone `max-age=n` header expires n seconds after the clock. |
| JavaNumbers.SecondsToMillis | src/org/openstreetmap/josm/data/cache/JCSCachedTileLoaderJob.java:117 | Seconds times 1000, saturating at the long bounds, as `TimeUnit.SECONDS.toMillis` does. |
| JavaNumbers.ParseLong | src/org/openstreetmap/josm/data/cache/JCSCachedTileLoaderJob.java:501 | `Long.parseLong` yields a value only on a non-empty string, and the value is a long. |
| JavaNumbers.ParseLongOfNegated | src/org/openstreetmap/josm/data/cache/JCSCachedTileLoaderJob.java:501 | A minus sign before the digits of a negative long, `Long.MIN_VALUE` included, parses back to that long. |
| JavaNumbers.ParseLongOfDigits | src/org/openstreetmap/josm/data/cache/JCSCachedTileLoaderJob.java:501 | A rendered non-negative long parses back to itself. |
| JavaNumbers.ParseLongRejectsOverflow | src/org/openstreetmap/josm/data/cache/JCSCachedTileLoaderJob.java:501 | A digit run beyond the long range is rejected, not truncated, so its token is ignored. |
| CacheLoader.SubmitSpec | src/org/openstreetmap/josm/data/cache/JCSCachedTileLoaderJob.java:146-169 | The listener is always added to the URL's set, no other key changes, and the job is dispatched iff the key was absent or `force` is set. |
| CacheLoader.FinishSpec | src/org/openstreetmap/josm/data/cache/JCSCachedTileLoaderJob.java:252-267 | The key is removed with its whole set, no other key changes, and an absent key yields no listeners. |
| CacheLoader.SubmitAllDispatchesOnce | src/org/openstreetmap/josm/data/cache/JCSCachedTileLoaderJob.java:146-169 | Unforced submissions for one URL collect all their listeners and dispatch exactly one job if none was in progress, none otherwise. |
| CacheLoader.SecondFinishNotifiesNobody | src/org/openstreetmap/josm/data/cache/JCSCachedTileLoaderJob.java:252-267 | A second finish for the same URL (after a forced second dispatch or a cancellation) notifies nobody. |
| CacheLoader.EnsureSpec | src/org/openstreetmap/josm/data/cache/JCSCachedTileLoaderJob.java:129-137 | A missing cache element is looked up once; the element, its data and its attributes come from the store. Otherwise nothing changes. |
| CacheLoader.GetRequest | src/org/openstreetmap/josm/data/cache/JCSCachedTileLoaderJob.java:351-357 | `If-Modified-Since` is sent iff loadable content is cached and now − lastModification ≤ ABSOLUTE_EXPIRE_TIME_LIMIT. `If-None-Match` is sent iff loadable content is cached with an ETag. Caches may answer iff not forced. |
| CacheLoader.ObjectLoadable | src/org/openstreetmap/josm/data/cache/JCSCachedTileLoaderJob.java:184-189 | No cached data and empty cached content, which is what caching as empty stores, are never loadable. |
| CacheLoader.IsResponseLoadable | src/org/openstreetmap/josm/data/cache/JCSCachedTileLoaderJob.java:481-483 | A loadable response stores a loadable object. A code of 400 or more is never loadable. |
| CacheLoader.CacheAsEmpty | src/org/openstreetmap/josm/data/cache/JCSCachedTileLoaderJob.java:199-201 | A 404 is cached as empty. The dummy code 599 that an I/O failure records is not. |
| CacheLoader.HeadConfirms | src/org/openstreetmap/josm/data/cache/JCSCachedTileLoaderJob.java:555-556 | A HEAD answer never confirms the cache when there is neither a cached ETag nor a Last-Modified. It also never confirms when its Last-Modified is newer than the cached one and no ETag matches. |
| CacheLoader.CatchSpec | src/org/openstreetmap/josm/data/cache/JCSCachedTileLoaderJob.java:427-447 | An I/O failure leaves `useHead` and the looked-up cache element alone and keeps the attributes present. IoFailureHandling states the 404 and other-exception outcomes. |
| CacheLoader.ClassifySpec | src/org/openstreetmap/josm/data/cache/JCSCachedTileLoaderJob.java:405-426 | Storing or refusing the body never touches the attributes, `useHead` or the cache element. ResponseClassification states which of the three outcomes applies. |
| CacheLoader.ResponseSpec | src/org/openstreetmap/josm/data/cache/JCSCachedTileLoaderJob.java:384-426 | Handling a non-304 answer leaves `useHead` and the cache element alone. UnavailableFails, ResponseClassification and ResponseFailureKeepsData state its outcomes. |
| CacheLoader.AnswerSpec | src/org/openstreetmap/josm/data/cache/JCSCachedTileLoaderJob.java:359-426 | Handling a GET answer keeps the cache element and the attributes present. NotModifiedKeepsData and LearnsToUseHead state the 304 and ignored-conditional cases. |
| CacheLoader.GetSpec | src/org/openstreetmap/josm/data/cache/JCSCachedTileLoaderJob.java:348-447 | The GET path keeps the cache element and the attributes present. GetRequest states the request it sends. |
| CacheLoader.HttpLoad | src/org/openstreetmap/josm/data/cache/JCSCachedTileLoaderJob.java:337-457 | `loadObjectHttp` keeps the cache element and the attributes present. HeadShortcut, NoHeadWithoutKnowledge and HttpFailureKeepsData state its outcomes. |
| CacheLoader.FileLoad | src/org/openstreetmap/josm/data/cache/JCSCachedTileLoaderJob.java:316-332 | A readable file succeeds: it becomes the cached data and is stored under the key with the current attributes. An unreadable file fails: the store and the data are unchanged and an I/O error is recorded. |
| CacheLoader.LoadSpec | src/org/openstreetmap/josm/data/cache/JCSCachedTileLoaderJob.java:297-314 | `loadObject` always leaves attributes present and keeps the cache element. FailedLoadKeepsData states that a failure keeps loadable data. |
| CacheLoader.RunSpec | src/org/openstreetmap/josm/data/cache/JCSCachedTileLoaderJob.java:217-250 | A run keeps the snapshot well formed and never reports CANCELED. RunOutcome states which result each case gives. |
| CacheLoader.RunOutcome | src/org/openstreetmap/josm/data/cache/JCSCachedTileLoaderJob.java:217-250 | `run` answers SUCCESS from the cache without loading exactly when not forced and a valid, loadable element exists. Otherwise it reports SUCCESS iff the load succeeds or loadable stale data remains. |
| CacheLoader.FailedLoadKeepsData | src/org/openstreetmap/josm/data/cache/JCSCachedTileLoaderJob.java:297-314 | A failed load never changes the cached content, so the stale data `run` falls back on is the content from before the load. |
| CacheLoader.HttpFailureKeepsData | src/org/openstreetmap/josm/data/cache/JCSCachedTileLoaderJob.java:337-457 | A failed HTTP load keeps the cached content. |
| CacheLoader.ResponseFailureKeepsData | src/org/openstreetmap/josm/data/cache/JCSCachedTileLoaderJob.java:384-426 | A response that ends in false keeps the cached content. |
| CacheLoader.UnavailableFails | src/org/openstreetmap/josm/data/cache/JCSCachedTileLoaderJob.java:385-397 | A 503 is re-examined on the same response and never re-requested. It ends as false and stores nothing, recording the interruption if the back-off was interrupted. |
| CacheLoader.ResponseClassification | src/org/openstreetmap/josm/data/cache/JCSCachedTileLoaderJob.java:398-426 | The response code is recorded. The result is true iff the body is loadable (non-empty, code < 400) or the code is below 500. The body, an empty entry, or nothing is stored accordingly. |
| CacheLoader.IoFailureHandling | src/org/openstreetmap/josm/data/cache/JCSCachedTileLoaderJob.java:427-447 | A FileNotFoundException records 404 and caches an empty entry. Another IOException succeeds iff loadable content is cached, else it records 599 and stores nothing. |
| CacheLoader.NotModifiedKeepsData | src/org/openstreetmap/josm/data/cache/JCSCachedTileLoaderJob.java:361-368 | A 304 keeps the cached data, replaces the attributes by the parsed headers, stores both and returns true. |
| CacheLoader.LearnsToUseHead | src/org/openstreetmap/josm/data/cache/JCSCachedTileLoaderJob.java:369-380 | A non-304 answer repeating the cached ETag or Last-Modified for loadable content sets `useHead[host]`. No other answer changes `useHead`. |
| CacheLoader.HeadShortcut | src/org/openstreetmap/josm/data/cache/JCSCachedTileLoaderJob.java:341-346 | For a host marked for HEAD with loadable content: a confirming HEAD answer (same ETag, or 0 ≠ Last-Modified ≤ cached lastModification) succeeds with the content kept and the attributes refreshed. Otherwise the GET runs. |
| CacheLoader.NoHeadWithoutKnowledge | src/org/openstreetmap/josm/data/cache/JCSCachedTileLoaderJob.java:341-343 | Without HEAD knowledge for the host, or without loadable content, the load is the GET alone. |
| CacheLoader.CacheStore.Put | src/org/openstreetmap/josm/data/cache/JCSCachedTileLoaderJob.java:363 | The store maps the key to the new data and attributes, and nothing else changes. |
| CacheLoader.LoaderJob.constructor | src/org/openstreetmap/josm/data/cache/JCSCachedTileLoaderJob.java:107-118 | The job starts unforced, with no element, data or attributes, and a minimum expiry time in milliseconds. |
| CacheLoader.LoaderJob.Submit | src/org/openstreetmap/josm/data/cache/JCSCachedTileLoaderJob.java:146-169 | A job without URL is rejected and the registry is unchanged. Otherwise the registry and the dispatch decision are SubmitSpec's; `force` is set, and nothing else changes. |
| CacheLoader.LoaderJob.FinishLoading | src/org/openstreetmap/josm/data/cache/JCSCachedTileLoaderJob.java:252-267 | The URL's set leaves the registry as FinishSpec says, and each member of the set is notified exactly once with the job's data, attributes and result. |
| CacheLoader.LoaderJob.NotifyAll | src/org/openstreetmap/josm/data/cache/JCSCachedTileLoaderJob.java:260-265 | The loop notifies each member of the removed set exactly once, appending one notification per listener. |
| CacheLoader.LoaderJob.HandleJobCancellation | src/org/openstreetmap/josm/data/cache/JCSCachedTileLoaderJob.java:589-591 | The same as a finish with the result CANCELED. |
| CacheLoader.LoaderJob.EnsureCacheElement | src/org/openstreetmap/josm/data/cache/JCSCachedTileLoaderJob.java:129-137 | The new state is EnsureSpec of the old one. |
| CacheLoader.LoaderJob.CatchIo | src/org/openstreetmap/josm/data/cache/JCSCachedTileLoaderJob.java:427-447 | The new state and result are CatchSpec's. |
| CacheLoader.LoaderJob.Classify | src/org/openstreetmap/josm/data/cache/JCSCachedTileLoaderJob.java:405-426 | The new state and result are ClassifySpec's. |
| CacheLoader.LoaderJob.HandleResponse | src/org/openstreetmap/josm/data/cache/JCSCachedTileLoaderJob.java:384-426 | The five-pass loop over one response gives ResponseSpec's state and result. |
| CacheLoader.LoaderJob.IsCacheValidUsingHead | src/org/openstreetmap/josm/data/cache/JCSCachedTileLoaderJob.java:552-563 | A thrown exception changes nothing. Otherwise the verdict is HeadConfirms, and a confirming answer replaces the attributes by the parsed headers and stores them. |
| CacheLoader.LoaderJob.LoadObjectHttp | src/org/openstreetmap/josm/data/cache/JCSCachedTileLoaderJob.java:337-457 | The new state, the `useHead` map and the result are HttpLoad's. The registry is unchanged. |
| CacheLoader.LoaderJob.LoadUsingGet | src/org/openstreetmap/josm/data/cache/JCSCachedTileLoaderJob.java:348-447 | The GET with its conditional headers gives GetSpec's state and result. |
| CacheLoader.LoaderJob.HandleAnswer | src/org/openstreetmap/josm/data/cache/JCSCachedTileLoaderJob.java:359-426 | The handling of the GET's answer gives AnswerSpec's state and result. |
| CacheLoader.LoaderJob.LoadObjectFile | src/org/openstreetmap/josm/data/cache/JCSCachedTileLoaderJob.java:316-332 | The new state and result are FileLoad's: the bytes are stored, or an I/O error is recorded. |
| CacheLoader.LoaderJob.LoadObject | src/org/openstreetmap/josm/data/cache/JCSCachedTileLoaderJob.java:297-314 | Fresh attributes if there are none, then the HTTP or file load by protocol, as LoadSpec says. |
| CacheLoader.LoaderJob.Run | src/org/openstreetmap/josm/data/cache/JCSCachedTileLoaderJob.java:217-250 | The new state and result are RunSpec's. Every listener of the URL is notified once with that result, and `executionFinished` runs exactly once. |
| DateUtils.CheckLayout | src/org/openstreetmap/josm/tools/date/DateUtils.java:215-227 | True iff the text has the pattern's length, a digit at every `x`, and the pattern's character everywhere else. |
| DateUtils.ParsePart2 | src/org/openstreetmap/josm/tools/date/DateUtils.java:233-235 | On digits, the decimal value of the two characters at the offset, in 0..99. |
| DateUtils.ParsePart3 | src/org/openstreetmap/josm/tools/date/DateUtils.java:237-239 | On digits, the decimal value of the three characters at the offset, in 0..999. |
| DateUtils.ParsePart4 | src/org/openstreetmap/josm/tools/date/DateUtils.java:241-243 | On digits, the decimal value of the four characters at the offset, in 0..9999. |
| DateUtils.ParsePart6 | src/org/openstreetmap/josm/tools/date/DateUtils.java:245-252 | On digits, the decimal value of the six characters at the offset, in 0..999999. |
| DateUtils.OfUtc | src/org/openstreetmap/josm/tools/date/DateUtils.java:102-116 | `ZonedDateTime.of(…, UTC).plusHours(h)`: an instant iff the fields are in range, shifted by h hours. |
| DateUtils.ToInstant | src/org/openstreetmap/josm/tools/date/DateUtils.java:85-90 | A valid instant with the given nanoseconds. Its second count divided by 86400 is the epoch day of the date, and the remainder is the time of day in seconds. |
| DateUtils.ParseInstant | src/org/openstreetmap/josm/tools/date/DateUtils.java:81-149 | Falls through to the fallback parsers exactly when the string matches none of the fixed layouts. Every matching string yields an instant or a field-range error. |
| DateUtils.DateOnlyForms | src/org/openstreetmap/josm/tools/date/DateUtils.java:83-91 | `xxxx`, `xxxx-xx` and `xxxx-xx-xx` always take the date branch and give midnight UTC. For `xxxx-xx-xx` the day is the one written. A missing month or day defaults to 1. |
| DateUtils.SecondsPlainForm | src/org/openstreetmap/josm/tools/date/DateUtils.java:92-116 | `xxxx-xx-xxTxx:xx:xx` reads the six fields in UTC. |
| DateUtils.SecondsOffsetForm | src/org/openstreetmap/josm/tools/date/DateUtils.java:92-116 | For lengths 22 and 25, the two-digit hour at index 20 is subtracted after a `+` at index 19 and added otherwise. |
| DateUtils.SecondsOffsetCorrection | src/org/openstreetmap/josm/tools/date/DateUtils.java:112-115 | An offset form is its 19-character local prefix shifted by the offset's hours; the offset minutes can only be `:00`. |
| DateUtils.SecondsZuluForm | src/org/openstreetmap/josm/tools/date/DateUtils.java:92-116 | A trailing `Z` changes nothing. |
| DateUtils.MillisForm | src/org/openstreetmap/josm/tools/date/DateUtils.java:117-137 | The nanoseconds are the three digits at 20 times 1 000 000. At length 29 the hour at index 24 is applied with the sign at index 23. |
| DateUtils.MillisUtcForms | src/org/openstreetmap/josm/tools/date/DateUtils.java:117-132 | `xxxx-xx-xxTxx:xx:xx.xxxZ`, `xxxx:xx:xx xx:xx:xx.xxx` and `xxxx/xx/xx xx:xx:xx.xxx` read the fields in UTC, with the three digits at 20 as milliseconds. |
| DateUtils.MillisOffsetCorrection | src/org/openstreetmap/josm/tools/date/DateUtils.java:133-136 | A millisecond offset form is its 23-character prefix shifted by the offset's hours. |
| DateUtils.MicrosForm | src/org/openstreetmap/josm/tools/date/DateUtils.java:138-148 | `xxxx/xx/xx xx:xx:xx.xxxxxx` reads the six digits at 20 times 1000 as nanoseconds, in UTC. |
| DateUtils.EpochDayOfNextDay | src/org/openstreetmap/josm/tools/date/DateUtils.java:85-90 | The day count behind the instants advances by exactly one from any valid date to the next. |
| DateUtils.EpochDayOfEpoch | src/org/openstreetmap/josm/tools/date/DateUtils.java:85-90 | 1970-01-01 is day 0. |
| DateUtils.MidnightIsWholeDay | src/org/openstreetmap/josm/tools/date/DateUtils.java:85-90 | Midnight of a valid date falls on a whole day of the epoch. |
| DateUtils.ParseFormatUtc | src/org/openstreetmap/josm/tools/date/DateUtils.java:92-116 | Parsing the `xxxx-xx-xxTxx:xx:xxZ` rendering of valid fields gives back their instant. |
| DateUtils.FromTimestampLong | src/org/openstreetmap/josm/tools/date/DateUtils.java:171-173 | Seconds become milliseconds (×1000), saturating at the long bounds. |
| DateUtils.FromTimestampInt | src/org/openstreetmap/josm/tools/date/DateUtils.java:191-193 | The int is first read as unsigned, so the result is in 0..(2^32 − 1)·1000. |
| Instants.CompareToAntisymmetric | src/org/openstreetmap/josm/data/gpx/GpxImageEntry.java:475 | `Instant.compareTo` is antisymmetric in sign and zero exactly on equal instants. |
| Gpx.Copied | src/org/openstreetmap/josm/data/gpx/GpxImageEntry.java:105-120 | The copy has every field of the original except the IPTC fields and the camera projection, which keep their defaults. |
| Gpx.CompareExifTimes | src/org/openstreetmap/josm/data/gpx/GpxImageEntry.java:473-482 | An absent time sorts before a present one, and two absent times tie. |
| Gpx.CompareExifTimesAntisymmetric | src/org/openstreetmap/josm/data/gpx/GpxImageEntry.java:473-482 | The order is antisymmetric in sign and ties exactly on equal times. |
| Gpx.CompareExifTimesTransitive | src/org/openstreetmap/josm/data/gpx/GpxImageEntry.java:473-482 | The order is transitive. |
| Gpx.GpxImageEntry.constructor | src/org/openstreetmap/josm/data/gpx/GpxImageEntry.java:98 | All fields take their defaults and there is no temporary copy. |
| Gpx.GpxImageEntry.WithFile | src/org/openstreetmap/josm/data/gpx/GpxImageEntry.java:126-128 | The defaults, with the given file. |
| Gpx.GpxImageEntry.Copy | src/org/openstreetmap/josm/data/gpx/GpxImageEntry.java:105-120 | The fields are Copied of the original's, and the original's temporary copy is shared. |
| Gpx.GpxImageEntry.HasGpsTime | src/org/openstreetmap/josm/data/gpx/GpxImageEntry.java:208-210 | True iff the shown GPS time or the entry's own GPS time is set. |
| Gpx.GpxImageEntry.GetExifOrientation | src/org/openstreetmap/josm/data/gpx/GpxImageEntry.java:232-234 | The orientation, or 1 when unset. |
| Gpx.GpxImageEntry.IsTagged | src/org/openstreetmap/josm/data/gpx/GpxImageEntry.java:577-579 | Tagged iff the entry's own position is set, whether or not a temporary copy exists. Without a copy, this is iff `getPos` shows a position. |
| Gpx.GpxImageEntry.CompareTo | src/org/openstreetmap/josm/data/gpx/GpxImageEntry.java:473-482 | `Instant.compareTo` on two EXIF times. An image without one sorts first, and two images without one tie. |
| Gpx.GpxImageEntry.SetPos | src/org/openstreetmap/josm/data/gpx/GpxImageEntry.java:321-331 | Only `pos` changes. |
| Gpx.GpxImageEntry.SetSpeed | src/org/openstreetmap/josm/data/gpx/GpxImageEntry.java:337-339 | Only `speed` changes. |
| Gpx.GpxImageEntry.SetElevation | src/org/openstreetmap/josm/data/gpx/GpxImageEntry.java:345-347 | Only `elevation` changes. |
| Gpx.GpxImageEntry.SetFile | src/org/openstreetmap/josm/data/gpx/GpxImageEntry.java:353-355 | Only `file` changes. |
| Gpx.GpxImageEntry.SetExifOrientation | src/org/openstreetmap/josm/data/gpx/GpxImageEntry.java:361-363 | Only `exifOrientation` changes. |
| Gpx.GpxImageEntry.SetExifTime | src/org/openstreetmap/josm/data/gpx/GpxImageEntry.java:370-372 | Only `exifTime` changes. |
| Gpx.GpxImageEntry.SetExifGpsTime | src/org/openstreetmap/josm/data/gpx/GpxImageEntry.java:379-381 | Only `exifGpsTime` changes. |
| Gpx.GpxImageEntry.SetGpsTime | src/org/openstreetmap/josm/data/gpx/GpxImageEntry.java:388-390 | Only `gpsTime` changes. |
| Gpx.GpxImageEntry.SetExifCoor | src/org/openstreetmap/josm/data/gpx/GpxImageEntry.java:392-394 | Only `exifCoor` changes. |
| Gpx.GpxImageEntry.SetExifImgDir | src/org/openstreetmap/josm/data/gpx/GpxImageEntry.java:396-398 | Only `exifImgDir` changes. |
| Gpx.GpxImageEntry.SetWidth | src/org/openstreetmap/josm/data/gpx/GpxImageEntry.java:304-306 | Only `width` changes. |
| Gpx.GpxImageEntry.SetHeight | src/org/openstreetmap/josm/data/gpx/GpxImageEntry.java:313-315 | Only `height` changes. |
| Gpx.GpxImageEntry.SetIptcCaption | src/org/openstreetmap/josm/data/gpx/GpxImageEntry.java:405-407 | Only `iptcCaption` changes. |
| Gpx.GpxImageEntry.SetIptcHeadline | src/org/openstreetmap/josm/data/gpx/GpxImageEntry.java:414-416 | Only `iptcHeadline` changes. |
| Gpx.GpxImageEntry.SetIptcKeywords | src/org/openstreetmap/josm/data/gpx/GpxImageEntry.java:423-425 | Only `iptcKeywords` changes. |
| Gpx.GpxImageEntry.SetIptcObjectName | src/org/openstreetmap/josm/data/gpx/GpxImageEntry.java:432-434 | Only `iptcObjectName` changes. |
| Gpx.GpxImageEntry.FlagNewGpsData | src/org/openstreetmap/josm/data/gpx/GpxImageEntry.java:599-601 | Only `isNewGpsData` changes, to true. |
| Gpx.GpxImageEntry.UnflagNewGpsData | src/org/openstreetmap/josm/data/gpx/GpxImageEntry.java:623-625 | Only `isNewGpsData` changes, to false. |
| Gpx.GpxImageEntry.CreateTmp | src/org/openstreetmap/josm/data/gpx/GpxImageEntry.java:526-530 | A fresh copy whose own temporary copy is null becomes the entry's temporary copy. The getters then show the entry's own values. |
| Gpx.GpxImageEntry.GetTmp | src/org/openstreetmap/josm/data/gpx/GpxImageEntry.java:539-544 | An existing copy is returned unchanged, so repeated calls return the same copy. A copy is created only when there is none. |
| Gpx.GpxImageEntry.ApplyTmp | src/org/openstreetmap/josm/data/gpx/GpxImageEntry.java:551-562 | pos, speed, elevation, gpsTime and exifImgDir come from the copy, `isNewGpsData` is or-ed with the copy's, and the copy is dropped. Nothing else changes, and nothing changes without a copy. |
| Gpx.GpxImageEntry.DiscardTmp | src/org/openstreetmap/josm/data/gpx/GpxImageEntry.java:568-571 | The copy is dropped, no field changes, and the getters show the entry's own values. |
| Gpx.TmpOverrides | src/org/openstreetmap/josm/data/gpx/GpxImageEntry.java:153-201 | The getters GetPos, GetSpeed, GetElevation, GetGpsInstant, GetExifImgDir and HasNewGpsData show the copy's values whenever there is one, else the entry's own. This lemma is their contract. |
| Gpx.TaggedIgnoresTmp | src/org/openstreetmap/josm/data/gpx/GpxImageEntry.java:577-579 | An entry whose copy has a position but which has none of its own is not tagged, although `getPos` shows a position. |
| Gpx.EntryCompareAntisymmetric | src/org/openstreetmap/josm/data/gpx/GpxImageEntry.java:473-482 | Comparing images is antisymmetric in sign and ties exactly on equal EXIF times. |
| Gpx.HasGpsTimeDisagreement | src/org/openstreetmap/josm/data/gpx/GpxImageEntry.java:199-210 | With a copy lacking a GPS time, `hasGpsTime` is true while `getGpsInstant` shows none. |
| Notes.Tokens | src/org/openstreetmap/josm/gui/dialogs/NotesDialog.java:250 | No token contains whitespace, every token after the first is non-empty, and there are tokens iff the filter has a word. |
| Notes.TokenMatches | src/org/openstreetmap/josm/gui/dialogs/NotesDialog.java:251-265 | The keywords test the note's state, last action, id or newness. Any other token is a substring test, so the empty token matches every note. |
| Notes.MatchesNote | src/org/openstreetmap/josm/gui/dialogs/NotesDialog.java:246-267 | A filter without words matches every note. |
| Notes.WordsOfJoin | src/org/openstreetmap/josm/gui/dialogs/NotesDialog.java:250 | Splitting on whitespace runs: two texts joined by whitespace have the concatenated words. |
| Notes.MatchesIffAllWords | src/org/openstreetmap/josm/gui/dialogs/NotesDialog.java:246-266 | A filter matches a note iff every whitespace-separated word of it does. The empty leading token of a filter that starts with whitespace matches everything. |
| Notes.BlankFilterMatchesAll | src/org/openstreetmap/josm/gui/dialogs/NotesDialog.java:246-250 | An empty or all-whitespace filter matches every note. |
| Notes.FilterConjunction | src/org/openstreetmap/josm/gui/dialogs/NotesDialog.java:250 | A filter of two parts joined by whitespace matches exactly the notes matched by both parts, so adding tokens only narrows. |
| Notes.OpenKeyword | src/org/openstreetmap/josm/gui/dialogs/NotesDialog.java:253-254 | `open` matches exactly the open notes. |
| Notes.ClosedKeyword | src/org/openstreetmap/josm/gui/dialogs/NotesDialog.java:255-256 | `closed` matches exactly the closed notes. |
| Notes.ReopenedKeyword | src/org/openstreetmap/josm/gui/dialogs/NotesDialog.java:257-258 | `reopened` matches exactly the notes whose last comment has the action REOPENED. |
| Notes.NewKeyword | src/org/openstreetmap/josm/gui/dialogs/NotesDialog.java:259-260 | `new` matches exactly the notes with a negative id. |
| Notes.ModifiedKeyword | src/org/openstreetmap/josm/gui/dialogs/NotesDialog.java:261-262 | `modified` matches exactly the notes whose last comment is new. |
| Notes.SingleWord | src/org/openstreetmap/josm/gui/dialogs/NotesDialog.java:263-264 | A one-word filter matches as its token does; a non-keyword searches the comments' text. |
| Notes.FilterNotes | src/org/openstreetmap/josm/gui/dialogs/NotesDialog.java:335 | The filtered list is never longer than the data. FilterNotesMembers and FilterNotesAppend give its members and order. |
| Notes.FilterNotesMembers | src/org/openstreetmap/josm/gui/dialogs/NotesDialog.java:335 | The filtered list holds exactly the notes of `data` that satisfy the predicate. |
| Notes.FilterNotesAppend | src/org/openstreetmap/josm/gui/dialogs/NotesDialog.java:335 | Filtering works piecewise, so the filtered list keeps the data's order. |
| Notes.FilterByJoinedText | src/org/openstreetmap/josm/gui/dialogs/NotesDialog.java:246-266 | Filtering by a two-part filter text is filtering by one part and then by the other. |
| Notes.BlankFilterShowsAll | src/org/openstreetmap/josm/gui/dialogs/NotesDialog.java:246-249 | A blank filter text shows all notes. |
| Notes.NoteTableModel.constructor | src/org/openstreetmap/josm/gui/dialogs/NotesDialog.java:315-317 | Both lists start empty, with no predicate. |
| Notes.NoteTableModel.GetSize | src/org/openstreetmap/josm/gui/dialogs/NotesDialog.java:320-322 | The filtered list's length, never more than the data's. |
| Notes.NoteTableModel.GetElementAt | src/org/openstreetmap/josm/gui/dialogs/NotesDialog.java:325-327 | A shown note is one of the data. |
| Notes.NoteTableModel.SetFilter | src/org/openstreetmap/josm/gui/dialogs/NotesDialog.java:329-341 | `filteredData` becomes the order-preserving filter of `data`, or `data` itself without a predicate; `data` is unchanged. The title is "Notes" without data, else the shown and total counts. |
| Notes.NoteTableModel.SetData | src/org/openstreetmap/josm/gui/dialogs/NotesDialog.java:343-347 | `data` becomes the new notes and the current filter is reapplied. The title is "Notes" for an empty list, else the shown and total counts. |
| Notes.NoteTableModel.ClearData | src/org/openstreetmap/josm/gui/dialogs/NotesDialog.java:349-353 | Both lists are empty, the filter is kept, and the title is "Notes". |
| Notes.ButtonStates | src/org/openstreetmap/josm/gui/dialogs/NotesDialog.java:139-156 | With no selection, close, comment and reopen are disabled. With an open note selected, close and comment are enabled and reopen is disabled; otherwise only reopen is enabled. Open-in-browser is enabled iff the selected id > 0, upload iff the data is modified, and sort iff there are notes. |
| Notes.ButtonsConsistent | src/org/openstreetmap/josm/gui/dialogs/NotesDialog.java:139-152 | Comment goes with close, close and reopen are never both enabled, and one of them is enabled iff a note is selected. |
| Notes.NoteButtons.UpdateButtonStates | src/org/openstreetmap/josm/gui/dialogs/NotesDialog.java:139-156 | The enabled flags become ButtonStates of the note data. |

## Left out

- Threading in the loader: the `ThreadPoolExecutor` and its queue, `cancelOutstandingTasks`, the atomicity of the concurrent maps, `synchronized`, and thread renaming. The model runs one job at a time; `submit`'s dispatch is a returned flag, not an execution.
- The back-off `Thread.sleep` with `SecureRandom` jitter has no effect on the state. Whether it is interrupted is an input.
- Building the HTTP request: `getRequest` headers, timeouts, redirects and the `User-Agent`. The model keeps only the method, the conditional headers and `useCache`, and the server answers by a fixed function of that request.
- The JCS cache internals. The store is a map from key to data and attributes, and the attributes are values, so the aliasing between the job's `attributes` object and the stored element is not modelled.
- `detectErrorMessage` is an input field of the response: the regular expression it runs comes from code that is not part of this model.
- `CacheEntryAttributes` is not part of this model. Its creation time is taken to be the clock, and its response code defaults to 200.
- `setError` and `setException` are merged into one recorded failure kind.
- Every `System.currentTimeMillis()` call in one run reads the same `clock`.
- `getUrl` returning null and throwing are both a job without URL. `finishLoading`'s NullPointerException in that case, and a null `getServerKey`, are not modelled.
- `executionFinished` is a counter of finished runs, because the finish task is not part of this model.
- JavaNumbers.ParseLong: accepts only ASCII digits, while `Long.parseLong` also accepts other Unicode decimal digits.
- `createCacheEntry` is abstract and its subclasses are not part of this model. The model assumes it keeps the raw bytes, so the stored object is exactly the body downloaded.
- `isObjectLoadable`, `isResponseLoadable` and `cacheAsEmpty` are modelled as the base-class defaults. Overrides in subclasses are not part of this model.
- CacheLoader.GetRequest: `useCache` is exactly `!force`. The Java 8 WebStart workaround of `getRequest` (`JCSCachedTileLoaderJob.java:543-547`) depends on the runtime, so it is not modelled.
- The date parser accepts only ASCII digits, while `Character.isDigit` also accepts other Unicode digits.
- The `SimpleDateFormat` and `ZonedDateTime.parse` fallbacks of `parseInstant`, and all date formatting, are left out: they wrap library code. Strings that match no fixed layout yield `NoFixedLayout`. `FormatUtc` is only a reference rendering for the round trip, not a model of `fromTimestampInMillis`.
- DateUtils.FromTimestampLong: models the conversion to milliseconds, not the string formatting that follows.
- `ZonedDateTime` years beyond 0..9999 never arise, because four ASCII digits cannot express them.
- `GpxImageEntry`:
  - left out: `extractExif`, `read`, `hashCode`, `equals`, `toString`, `getBBox`, `asWayPoint` and the deprecated `Date` getters (library code and file I/O);
  - `tmpUpdated` is an empty hook and is not modelled;
  - `LatLon`, `CachedLatLon` and `Double` values are opaque values, so `setPos(LatLon)` and `setPos(CachedLatLon)` are one setter.
- `NotesDialog`'s Swing layout, renderer, actions, dialogs and listeners are left out. So is the translation of the title: the title is a value with the counts.
- A note's comments are the string of `getComments().toString()`; `NoteComment` is not part of this model.
- `TaggingPresetPreference` is only UI dialogs and preset file I/O: there is nothing to model.
