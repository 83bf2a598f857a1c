# Schedules Direct listings provider and `MetadataResult<T>`, in Dafny

This project models the electronic-programme-guide provider for the Schedules
Direct service (`SchedulesDirect`) and the metadata container
`MetadataResult<T>`, and proves properties of the model.

The listings provider does four things:

- It keeps a per-user authentication token cache. Tokens live for 20 hours. After an HTTP 400 from the token call there is a one-minute cooldown.
- It sends requests and, after a 4xx reply, clears the token cache and gets a new token to retry once. As written, the retry hands the already-sent request back to `HttpClient` and so always throws.
- It turns three service payloads into `ProgramInfo` records: the schedules, the programme details and the artwork lists. This includes choosing the primary, thumb and backdrop images.
- It maps a lineup's channel map and station list to `ChannelInfo` records.

`MetadataResult<T>` has lists that it creates on first use. It also has a people list that is reset in place, and a get-or-add lookup of per-user data.

Modules, one per concern:

| file | module | what it holds |
|---|---|---|
| wrappers.dfy | `Wrappers` | `Option` (a nullable value) and `Result` (a return or a thrown exception) |
| text.dfy | `Text` | ordinal-ignore-case comparison, `IsNullOrWhiteSpace`, `Replace`, `TrimStart`, `Join` on `seq<char>` |
| numbers.dfy | `Numbers` | decimal formatting of integers, `int.TryParse`/`long.TryParse`, and their round trip |
| tokens.dfy | `Tokens` | the token cache as the class `SchedulesDirect` (`GetToken`, `Send`) and the transition function `Acquire` that specifies it |
| requests.dfy | `Requests` | the schedule request days, channel-id normalisation, the `/programs` and `/metadata/programs` bodies, and a JSON string-array decoder for their round trips |
| images.dfy | `Images` | `GetAspectRatio`, `GetSizeOrder`, `GetProgramImage`, the image roles, and `GetImageForPrograms` |
| programs.dfy | `Programs` | `GetProgram` (method plus its specification `ProgramSpec`), the details dictionary, and the listing loop |
| listings.dfy | `Listings` | `GetProgramsAsync` from station id to records, with the requests it sends |
| channels.dfy | `Channels` | `GetChannelNumber`, the mapping loop of `GetChannels`, and `NormalizeName` (a private helper that nothing in the provider calls) |
| metadata_result.dfy | `MetadataResults` | the class `MetadataResult<T>` over a reference `List<T>`, and GUIDs in "N" form |

Modelling choices:

- **Instants.** An instant is a tick count (100 ns units since 0001-01-01). A calendar day is `ticks / TicksPerDay`.
- **Time zone.** The local reading of an instant (`ToLocalTime`) is a parameter.
- **Clock.** `DateTime.UtcNow` is a parameter. `GetToken` reads the clock twice: `now` before the network call (lines 558 and 574) and `later` after it (lines 586 and 596).
- **Network.** Every network call is replaced by the reply it produced: a status code, a `TokenDto`, or a deserialised payload. `None` stands for a failed request or unreadable JSON.
- **Date parsing.** The air-time parser (line 389) and `DateTime.Parse` of the original air date (line 360) are function parameters. They return `None` where they would throw.
- **Exceptions.** A thrown exception is the `Failure` side of a `Result`, and the model keeps the order in which the source would throw.
- **Ignore-case comparison.** Ordinal-ignore-case comparison folds the ASCII letters `a`–`z` only.
- **Aspect ratios.** They are exact rationals (`real`), where the source divides doubles.
- **Behaviour worth noting.** The model follows the code in these places:
  - The show id of a programme whose id is not a generic "SH…0000" one is the full programme id (line 282), while the series id is its 10-character root (line 334).
  - An image with no usable size (aspect 0) can still be chosen over a sized one that is farther from the desired aspect (`Images.UnsizedCandidateCanWin`).
  - The one-minute cooldown is tested before the cache (line 558), so during a cooldown even a valid cached token is not returned.
  - A token exactly 20 hours old is refreshed: the comment at line 573 says "under 24 hours", and the test at line 574 is `< TimeSpan.FromHours(20)`.

## Model

| member | source | states |
|---|---|---|
| `Requests.GetScheduleRequestDates` | Emby.Server.Implementations/LiveTv/Listings/SchedulesDirect.cs:62-76 | it throws exactly when the day loop adds 9999-12-31 (or a day after it) and then calls `AddDays(1)`; otherwise the days are consecutive, strictly ascending and duplicate-free; they run from the date of min(start, local start) to the date of max(end, local end), both included; every instant of the window falls on a listed day |
| `Requests.TimeZoneWindowExample` | Emby.Server.Implementations/LiveTv/Listings/SchedulesDirect.cs:66-67 | a window from 23:00Z to 02:00Z the next day, read in UTC+5, asks for exactly the UTC start date and the local end date |
| `Requests.NormalizeChannelId` | Emby.Server.Implementations/LiveTv/Listings/SchedulesDirect.cs:80-86 | a null or empty channel id is rejected; otherwise the result never starts with 'I' |
| `Requests.NormalizeStationId` | Emby.Server.Implementations/LiveTv/Listings/SchedulesDirect.cs:86 | a station id comes back unchanged whether it arrives bare, with ".json.schedulesdirect.org", or as "I<id>.json.schedulesdirect.org" |
| `Requests.Distinct` | Emby.Server.Implementations/LiveTv/Listings/SchedulesDirect.cs:123 | the distinct ids hold no duplicates and exactly the values of the input |
| `Requests.DistinctKeepsFirstOccurrenceOrder` | Emby.Server.Implementations/LiveTv/Listings/SchedulesDirect.cs:123 | the distinct values come in the order of their first occurrences in the input, as `Enumerable.Distinct` yields them |
| `Requests.ProgramsBodyAsWrittenNonEmpty` | Emby.Server.Implementations/LiveTv/Listings/SchedulesDirect.cs:124 | for at least one id, the string concatenation of line 124 is exactly a JSON array of the quoted ids |
| `Requests.ProgramsBodyAsWrittenEmpty` | Emby.Server.Implementations/LiveTv/Listings/SchedulesDirect.cs:124 | for no ids, line 124 sends an array holding one empty id |
| `Requests.ProgramsBodyRoundTrip` | Emby.Server.Implementations/LiveTv/Listings/SchedulesDirect.cs:124 | the intended `/programs` body decodes back to exactly the ids given, the empty list included |
| `Requests.MetadataRequestBody` | Emby.Server.Implementations/LiveTv/Listings/SchedulesDirect.cs:457-472 | no ids means no body; an id shorter than 10 characters throws, naming the first such id; otherwise the body is the JSON array of the 10-character roots, in order, and the trailing comma is replaced by ']' |
| `Requests.MetadataBodyRoundTrip` | Emby.Server.Implementations/LiveTv/Listings/SchedulesDirect.cs:462-472 | the `/metadata/programs` body decodes back to exactly the roots of the ids, duplicates kept |
| `Numbers.ParseFormatNat` | Emby.Server.Implementations/LiveTv/Listings/SchedulesDirect.cs:571-586 | the tick count stored as text at line 586 parses back to the same number at line 571 |
| `Tokens.TokenInternal` | Emby.Server.Implementations/LiveTv/Listings/SchedulesDirect.cs:638-661 | the token call succeeds iff it gets a 2xx reply whose message is exactly "OK", and then yields the reply's token; it fails with status 400 iff the reply is a 400 |
| `Tokens.CachedToken` | Emby.Server.Implementations/LiveTv/Listings/SchedulesDirect.cs:569-579 | a cache entry only ever offers its own stored token, and only when that token is non-empty |
| `Tokens.NullWithoutNetworkIffRefused` | Emby.Server.Implementations/LiveTv/Listings/SchedulesDirect.cs:541-587 | `GetToken` returns null without a network call iff the user name is blank, the password empty, or less than a minute has passed since the last 400; it calls the network iff it is not refused and holds no usable cached token |
| `Tokens.ReusedIffUnderTwentyHours` | Emby.Server.Implementations/LiveTv/Listings/SchedulesDirect.cs:569-587 | after a refresh stored a token at time t, the next call reuses it unchanged, with no network call and no state change, iff now − t < 20 hours |
| `Tokens.BadRequestStartsCooldown` | Emby.Server.Implementations/LiveTv/Listings/SchedulesDirect.cs:589-598 | a 400 from the token call rethrows, empties the whole cache and sets the cooldown to now; for the next minute every caller gets null without a network call, and after it valid credentials reach the network again |
| `Tokens.OtherFailureKeepsState` | Emby.Server.Implementations/LiveTv/Listings/SchedulesDirect.cs:589-601 | any other failure rethrows and leaves the cooldown and every user's entry as they were |
| `Tokens.SuccessStoresToken` | Emby.Server.Implementations/LiveTv/Listings/SchedulesDirect.cs:584-587 | a successful refresh returns the token and stores (token, now) under that user only |
| `Tokens.SingleAttempt` | Emby.Server.Implementations/LiveTv/Listings/SchedulesDirect.cs:615-631 | an attempt succeeds iff its status is 2xx; otherwise it throws carrying that status |
| `Tokens.SchedulesDirect.constructor` | Emby.Server.Implementations/LiveTv/Listings/SchedulesDirect.cs:40-54 | a new provider has an empty cache and no cooldown |
| `Tokens.SchedulesDirect.GetToken` | Emby.Server.Implementations/LiveTv/Listings/SchedulesDirect.cs:541-606 | the result, the new cache and cooldown, and whether the network was called are exactly those of `Acquire` |
| `Tokens.SchedulesDirect.Send` | Emby.Server.Implementations/LiveTv/Listings/SchedulesDirect.cs:608-636 | as written: result, state and attempts are exactly `SendSpec`. Without a retry (2xx, retry disabled, status ≥ 500 or no reply) it returns or throws with the first status and leaves the state alone. A retry empties the cache and acquires a token, then throws `RequestAlreadySent` because the same message goes back to `SendAsync`; only one attempt ever reaches the network |
| `Tokens.RetryNeverSucceeds` | Emby.Server.Implementations/LiveTv/Listings/SchedulesDirect.cs:614-635 | as written, only the first attempt reaches the network, `Send` succeeds iff the first reply is 2xx, and a retry whose token call succeeds throws `RequestAlreadySent` |
| `Tokens.SchedulesDirect.SendRebuildingRequest` | Emby.Server.Implementations/LiveTv/Listings/SchedulesDirect.cs:608-636 | the retry as evidently intended, with the request rebuilt: result, state and attempts are exactly `FreshRetrySpec`, so at most two attempts are made and the second carries the new token |
| `Tokens.SendsAgreeUntilResend` | Emby.Server.Implementations/LiveTv/Listings/SchedulesDirect.cs:614-635 | both versions leave the same token state, and they agree on every input except a retry whose token call succeeded |
| `Tokens.FreshRetryCanSucceed` | Emby.Server.Implementations/LiveTv/Listings/SchedulesDirect.cs:633-635 | with the request rebuilt, a retry whose token call succeeds sends a second attempt with the new token added, and that attempt's reply decides the outcome |
| `Tokens.ExpiredTokenExample` | Emby.Server.Implementations/LiveTv/Listings/SchedulesDirect.cs:614-635 | a 401 followed by a good token call: as written `Send` throws `RequestAlreadySent`; rebuilt, it succeeds with 200, stores the new token and makes two attempts |
| `Images.AspectZeroIff` | Emby.Server.Implementations/LiveTv/Listings/SchedulesDirect.cs:427-450 | the aspect is 0 exactly when the width or the height is 0, blank or unparseable |
| `Images.SizedKeys` | Emby.Server.Implementations/LiveTv/Listings/SchedulesDirect.cs:186-194 | a decimal width and height give aspect w/h (0 for a zero side) and size order h |
| `Images.BestIndex` | Emby.Server.Implementations/LiveTv/Listings/SchedulesDirect.cs:401-404 | the chosen candidate has no candidate sorting before it by (distance ascending, height descending), and it sorts strictly before every earlier candidate, which is a stable sort; no candidates means no choice |
| `Images.FirstKeyUnique` | Emby.Server.Implementations/LiveTv/Listings/SchedulesDirect.cs:401-404 | only one index is first under that stable ordering, so the choice is deterministic |
| `Images.ResolvedUriIsAbsolute` | Emby.Server.Implementations/LiveTv/Listings/SchedulesDirect.cs:411-424 | a blank URI gives null; a URI containing "http" in any case is returned verbatim; any result contains "http", so resolving it again changes nothing |
| `Images.ProgramImageOfBest` | Emby.Server.Implementations/LiveTv/Listings/SchedulesDirect.cs:399-425 | `GetProgramImage` is null iff there are no candidates or the best one has a blank URI; otherwise it is the resolved URI of the first-best candidate |
| `Images.ExactAspectWins` | Emby.Server.Implementations/LiveTv/Listings/SchedulesDirect.cs:401-404 | when some candidate has exactly the desired aspect, the chosen one has it too |
| `Images.ZeroAspectLosesToCloser` | Emby.Server.Implementations/LiveTv/Listings/SchedulesDirect.cs:401-404 | an unsized candidate is never chosen when some candidate's aspect lies strictly between 0 and twice the desired one |
| `Images.UnsizedCandidateCanWin` | Emby.Server.Implementations/LiveTv/Listings/SchedulesDirect.cs:442-445 | a 0x0 candidate beats a 4:1 candidate at 16:9 |
| `Images.PortraitExampleChoosesExactMatch` | Emby.Server.Implementations/LiveTv/Listings/SchedulesDirect.cs:401-404 | a 2:3 candidate beats a 16:9 candidate at the 2:3 aspect |
| `Images.WideExampleSkipsUnsizedCandidate` | Emby.Server.Implementations/LiveTv/Listings/SchedulesDirect.cs:401-404 | a 4:3 candidate beats a 0x0 candidate at 16:9 |
| `Images.TallerWinsTie` | Emby.Server.Implementations/LiveTv/Listings/SchedulesDirect.cs:403 | between two candidates of equal aspect distance, the taller wins in either input order |
| `Images.EqualKeysKeepInputOrder` | Emby.Server.Implementations/LiveTv/Listings/SchedulesDirect.cs:401-404 | between candidates with equal keys, the earlier one wins |
| `Images.WithText` | Emby.Server.Implementations/LiveTv/Listings/SchedulesDirect.cs:153-154 | the filtered candidates are exactly those whose Text equals the given word, ignoring case |
| `Images.WithTextConcat` | Emby.Server.Implementations/LiveTv/Listings/SchedulesDirect.cs:153-154 | the filter works piecewise over concatenation, so the kept candidates keep their input order and duplicates, which the stable tie-break of `GetProgramImage` depends on |
| `Images.RolesAreConsistent` | Emby.Server.Implementations/LiveTv/Listings/SchedulesDirect.cs:152-171 | thumb is null or differs from primary; thumb comes from a text="yes" image and backdrop from a text="no" image; primary is the best 2:3 text image whenever that yields a URI, otherwise it comes from any image |
| `Images.FindImages` | Emby.Server.Implementations/LiveTv/Listings/SchedulesDirect.cs:147 | the artwork entry used is the first whose id equals the 10-character root; −1 iff there is none |
| `Images.GetImageForPrograms` | Emby.Server.Implementations/LiveTv/Listings/SchedulesDirect.cs:452-491 | no ids gives an empty list and no request; a short id throws; otherwise it sends the roots body, and a failed request or unreadable reply becomes an empty list |
| `Programs.AudioIsStrongestTag` | Emby.Server.Implementations/LiveTv/Listings/SchedulesDirect.cs:228-250 | the chain of `Exists` tests picks the strongest class among the tags: Atmos > Dolby Digital ("dd 5.1" or "dd") > Stereo > Mono, each a whole-tag match ignoring case |
| `Programs.ClassifyAudio` | Emby.Server.Implementations/LiveTv/Listings/SchedulesDirect.cs:222-250 | Stereo without a tag list, otherwise the strongest tag's class |
| `Programs.OfficialRating` | Emby.Server.Implementations/LiveTv/Listings/SchedulesDirect.cs:310-317 | the rating is null iff the code, after "TV"→"TV-" and "--"→"-", is N/A, Approved, Not Rated or Passed in any case; otherwise it is that normalised code |
| `Programs.ClassifyRating` | Emby.Server.Implementations/LiveTv/Listings/SchedulesDirect.cs:308-318 | only the first rating code is used; no list or an empty one gives no rating; a null first code throws |
| `Programs.RatingNormalForm` | Emby.Server.Implementations/LiveTv/Listings/SchedulesDirect.cs:310-311 | "TV14" and "TV-14"-style codes both come out as "TV-14" |
| `Programs.PlainRatingKeptOrDropped` | Emby.Server.Implementations/LiveTv/Listings/SchedulesDirect.cs:310-317 | a code containing neither "TV" nor "--" is kept unchanged unless it is one of the invalid codes |
| `Programs.IdentityKeysDiffer` | Emby.Server.Implementations/LiveTv/Listings/SchedulesDirect.cs:226 | two airings of one programme on one channel at different instants get different identity keys |
| `Programs.GenericEpisodeExample` | Emby.Server.Implementations/LiveTv/Listings/SchedulesDirect.cs:282-298 | "SH005316560000" is a series whose show id is the airing's identity key |
| `Programs.IdentifiedEpisodeExample` | Emby.Server.Implementations/LiveTv/Listings/SchedulesDirect.cs:282-298 | "SH005316560001" is a series whose show id is the whole programme id |
| `Programs.FirstGracenote` | Emby.Server.Implementations/LiveTv/Listings/SchedulesDirect.cs:340-353 | the metadata entry used is the first with Gracenote numbers; −1 iff there is none |
| `Programs.ScanMetadata` | Emby.Server.Implementations/LiveTv/Listings/SchedulesDirect.cs:338-355 | the season comes from the first entry with Gracenote numbers, and the episode too, but only when it is positive |
| `Programs.SeriesFields` | Emby.Server.Implementations/LiveTv/Listings/SchedulesDirect.cs:282-355 | the series flag, show id, series id, Zap2It provider id and season/episode are those of `SeriesOf`, including the throw for a series id shorter than 10 characters |
| `Programs.YearFields` | Emby.Server.Implementations/LiveTv/Listings/SchedulesDirect.cs:358-371 | the fields are those of `YearOf`: a non-blank air date is parsed or throws, and a parsable movie year overrides its year |
| `Programs.NonBlank` | Emby.Server.Implementations/LiveTv/Listings/SchedulesDirect.cs:375 | the kept genres are exactly the non-null, non-blank ones, and there are no more of them than the input |
| `Programs.NonBlankConcat` | Emby.Server.Implementations/LiveTv/Listings/SchedulesDirect.cs:375 | the filter works piecewise over concatenation, so `Genres` keeps the order of the details' genres |
| `Programs.GenreFields` | Emby.Server.Implementations/LiveTv/Listings/SchedulesDirect.cs:373-382 | the genre list, news flag and kids flag are those of `GenresOf` |
| `Programs.GetProgram` | Emby.Server.Implementations/LiveTv/Listings/SchedulesDirect.cs:218-385 | the record, or the first exception, is exactly `ProgramSpec` of the airing and its details |
| `Programs.ProgramSucceedsIff` | Emby.Server.Implementations/LiveTv/Listings/SchedulesDirect.cs:218-385 | `GetProgram` throws exactly when the air time does not parse, the end leaves the `DateTime` range, there is no title, the first rating code is null, a series id is shorter than 10 characters, or a non-blank air date does not parse |
| `Programs.ProgramIdentity` | Emby.Server.Implementations/LiveTv/Listings/SchedulesDirect.cs:220-264 | start and end come from the air time and duration; the id is exactly programId + "T" + startTicks + "C" + channelId; the name is the first title, or "Unknown" |
| `Programs.ProgramAudioAndRating` | Emby.Server.Implementations/LiveTv/Listings/SchedulesDirect.cs:228-318 | the record's audio is Stereo without tags and otherwise the strongest tag; its rating is that of the first code |
| `Programs.ProgramSeriesIds` | Emby.Server.Implementations/LiveTv/Listings/SchedulesDirect.cs:271-336 | IsSeries iff the entity type is "episode" or the id starts with "SH" and has at least 14 characters; the show id is the identity key for an "SH…0000" id and the programme id otherwise; a series has SeriesId = the first 10 characters; a non-series has no series id, season or episode |
| `Programs.ProgramSeasonEpisode` | Emby.Server.Implementations/LiveTv/Listings/SchedulesDirect.cs:338-355 | a series takes its season from the first metadata entry with Gracenote numbers and its episode only when positive; without one, both are unset |
| `Programs.ProgramYearsAndGenres` | Emby.Server.Implementations/LiveTv/Listings/SchedulesDirect.cs:358-382 | the air date is the parsed one; a parsable movie year wins over the air date's year; the genres are the non-blank ones; IsNews iff a genre is "news"; IsKids iff the audience or a kept genre is "children" |
| `Programs.ToDictionarySucceedsIff` | Emby.Server.Implementations/LiveTv/Listings/SchedulesDirect.cs:129 | building the details dictionary succeeds iff every id is non-null and no id repeats |
| `Programs.ToDictionaryIndexes` | Emby.Server.Implementations/LiveTv/Listings/SchedulesDirect.cs:129 | a built dictionary maps each id to its own entry and holds no other key |
| `Programs.Decorate` | Emby.Server.Implementations/LiveTv/Listings/SchedulesDirect.cs:158-171 | the three image fields get the chosen roles, and every other field of the details is unchanged |
| `Programs.DecorateIdempotent` | Emby.Server.Implementations/LiveTv/Listings/SchedulesDirect.cs:158-171 | writing the same roles twice is writing them once, so repeated airings of one programme see the same images |
| `Programs.EntryDetails` | Emby.Server.Implementations/LiveTv/Listings/SchedulesDirect.cs:145-180 | the details an airing is built from are those of `DetailsFor`: a short id throws only when the artwork list has an entry, because the slice sits inside the `FindIndex` predicate; the shared dictionary only ever holds original or decorated entries |
| `Programs.ShortIdWithoutArtworkEntries` | Emby.Server.Implementations/LiveTv/Listings/SchedulesDirect.cs:145-180 | with a null or empty artwork list, an id of any length that is in the dictionary gets its entry unchanged |
| `Programs.EmptyArtworkListIsNull` | Emby.Server.Implementations/LiveTv/Listings/SchedulesDirect.cs:145-180 | an empty artwork list builds exactly the listing a null one does, short ids included |
| `Programs.Airing` | Emby.Server.Implementations/LiveTv/Listings/SchedulesDirect.cs:145-180 | one loop step yields `AiringSpec` and keeps the dictionary invariant |
| `Programs.BuildListing` | Emby.Server.Implementations/LiveTv/Listings/SchedulesDirect.cs:137-183 | the loop, which updates the dictionary in place, yields exactly `ListingSpec` |
| `Programs.ListingRecords` | Emby.Server.Implementations/LiveTv/Listings/SchedulesDirect.cs:137-183 | the listing succeeds iff every airing does, and then holds one record per airing, in schedule order |
| `Programs.ListingFirstFailure` | Emby.Server.Implementations/LiveTv/Listings/SchedulesDirect.cs:137-183 | a failing listing throws the exception of its first failing airing |
| `Programs.ListingIdsDistinct` | Emby.Server.Implementations/LiveTv/Listings/SchedulesDirect.cs:180 | two airings of one programme at different instants get records with different ids |
| `Listings.ArtworkIds` | Emby.Server.Implementations/LiveTv/Listings/SchedulesDirect.cs:131-133 | the artwork request names exactly the programmes flagged as having artwork |
| `Listings.ArtworkIdsConcat` | Emby.Server.Implementations/LiveTv/Listings/SchedulesDirect.cs:131-133 | the filter works piecewise over concatenation, so the artwork ids keep the order of the details |
| `Listings.RequestsSent` | Emby.Server.Implementations/LiveTv/Listings/SchedulesDirect.cs:120-135 | at most two requests follow the schedules request: the `/programs` request, with the token header and the body of line 124, iff the schedules arrived; the artwork request, without a token header, iff the details arrived, built a dictionary and name artwork ids none shorter than 10 characters |
| `Listings.FetchPrograms` | Emby.Server.Implementations/LiveTv/Listings/SchedulesDirect.cs:118-183 | the outcome is `ProgramsOutcome`, and the requests sent are exactly `FollowUps`: the `/programs` request with the token once the schedules arrived, then the `/metadata/programs` request with the roots body and no token when there are artwork ids to ask for |
| `Listings.GetProgramsAsync` | Emby.Server.Implementations/LiveTv/Listings/SchedulesDirect.cs:78-184 | a null or empty channel throws with no request; no token gives an empty list with no request; a window whose day loop passes 9999-12-31 throws with no request; otherwise the outcome is `ProgramsOutcome` for the normalised station, and the requests are the schedules request, with the token header, for that station over the request days, followed by `FollowUps` |
| `Listings.OutcomeRecords` | Emby.Server.Implementations/LiveTv/Listings/SchedulesDirect.cs:137-183 | a successful listing has one record per airing, in order, each on the normalised station with the identity key of its programme and start |
| `Listings.DistinctScheduledIds` | Emby.Server.Implementations/LiveTv/Listings/SchedulesDirect.cs:123 | for ids free of quotes and backslashes, the distinct ids name every scheduled programme exactly once |
| `Listings.ProgramsRequestNamesEachOnce` | Emby.Server.Implementations/LiveTv/Listings/SchedulesDirect.cs:123-124 | when no programme id holds a quote or backslash, the `/programs` body sent decodes to a list naming every scheduled programme exactly once; for days without airings it decodes to one empty id |
| `Channels.ChannelNumberSource` | Emby.Server.Implementations/LiveTv/Listings/SchedulesDirect.cs:196-211 | the number is the logical number, else the channel, else "major.minor", with exactly its leading '0's removed |
| `Channels.AtscChannelNumber` | Emby.Server.Implementations/LiveTv/Listings/SchedulesDirect.cs:205-210 | without a logical number or channel, a positive major number is kept and a zero major leaves ".minor" |
| `Channels.FindStation` | Emby.Server.Implementations/LiveTv/Listings/SchedulesDirect.cs:793 | the station used is the first whose id matches ignoring case; −1 iff there is none |
| `Channels.ChannelFromStation` | Emby.Server.Implementations/LiveTv/Listings/SchedulesDirect.cs:791-810 | a channel takes id, call sign, logo and name (the number when the name is blank) from the first matching station; without one it carries only the map's station id, with its number as its name |
| `Channels.ChannelNameNotBlank` | Emby.Server.Implementations/LiveTv/Listings/SchedulesDirect.cs:804 | a channel's name is blank only if its number is |
| `Channels.MapChannel` | Emby.Server.Implementations/LiveTv/Listings/SchedulesDirect.cs:789-812 | one loop step builds exactly `ChannelFor` of its map entry |
| `Channels.GetChannels` | Emby.Server.Implementations/LiveTv/Listings/SchedulesDirect.cs:761-816 | a missing listings id or token throws; otherwise there is exactly one channel per map entry, in map order, each `ChannelFor` that entry |
| `Channels.NormalizedName` | Emby.Server.Implementations/LiveTv/Listings/SchedulesDirect.cs:818-821 | the normalised name holds every character of the input except ' ' and '-', and none of those, and is no longer |
| `Channels.NormalizeNameConcat` | Emby.Server.Implementations/LiveTv/Listings/SchedulesDirect.cs:818-821 | normalising works piecewise over concatenation, so the kept characters keep their order |
| `MetadataResults.MetadataResult.constructor` | MediaBrowser.Controller/Providers/MetadataResult.cs:19-22 | a new result has ResultLanguage "en" and no lists |
| `MetadataResults.MetadataResult.GetImages` | MediaBrowser.Controller/Providers/MetadataResult.cs:24-28 | the getter never returns null; it returns the existing list, or creates an empty one and keeps it, so a second get returns the list the first get created; nothing else changes |
| `MetadataResults.MetadataResult.SetImages` | MediaBrowser.Controller/Providers/MetadataResult.cs:27 | the setter stores the given list and changes nothing else |
| `MetadataResults.MetadataResult.GetRemoteImages` | MediaBrowser.Controller/Providers/MetadataResult.cs:30-34 | the same lazy-creation guarantee for the remote images |
| `MetadataResults.MetadataResult.SetRemoteImages` | MediaBrowser.Controller/Providers/MetadataResult.cs:33 | the setter stores the given list and changes nothing else |
| `MetadataResults.MetadataResult.AddPerson` | MediaBrowser.Controller/Providers/MetadataResult.cs:50-55 | the people list exists afterwards, is the old one if there was one, and is handed to the merge step |
| `MetadataResults.MetadataResult.ResetPeople` | MediaBrowser.Controller/Providers/MetadataResult.cs:60-70 | afterwards the people list exists and is empty; an existing list is the same object, cleared in place |
| `MetadataResults.LastMatch` | MediaBrowser.Controller/Providers/MetadataResult.cs:76-84 | the entry found is the last whose "N"-form id equals the user id ignoring case; −1 iff there is none |
| `MetadataResults.MetadataResult.GetOrAddUserData` | MediaBrowser.Controller/Providers/MetadataResult.cs:72-97 | the list exists afterwards; with a match it returns the last matching entry and leaves the list unchanged; without one it appends exactly one new entry for `new Guid(userId)` (white space at either end trimmed) and returns it, or throws for a null or malformed id |
| `MetadataResults.FormatNInjective` | MediaBrowser.Controller/Providers/MetadataResult.cs:80 | different GUIDs have different "N" forms |
| `MetadataResults.ParseFormatN` | MediaBrowser.Controller/Providers/MetadataResult.cs:90 | parsing a GUID's "N" form gives the GUID back |
| `MetadataResults.AddedEntryIsFound` | MediaBrowser.Controller/Providers/MetadataResult.cs:80-93 | an entry added for an "N"-form id is found by the next lookup of that id, so a second call adds nothing |
| `MetadataResults.DashedIdNeverFound` | MediaBrowser.Controller/Providers/MetadataResult.cs:80-93 | a dashed ("D"-form) id never matches, so every call with one appends another entry |
| `MetadataResults.PaddedIdAcceptedNeverFound` | MediaBrowser.Controller/Providers/MetadataResult.cs:80-93 | an "N"-form id padded with white space parses to its GUID, since `new Guid` trims it, yet never matches an entry, so every call with it appends another entry for the same GUID |

## Findings

| source | as written | input that shows it | evidently intended | confidence | as-written member | corrected member |
|---|---|---|---|---|---|---|
| Emby.Server.Implementations/LiveTv/Listings/SchedulesDirect.cs:124 | the `/programs` body is `"[\"" + Join("\", \"", ids) + "\"]"` | no schedule entries (ids = []): the body is `[""]`, which asks for one programme with an empty id | `[]`, an empty array of ids | medium, not executed | `Requests.ProgramsBodyAsWrittenEmpty` | `Requests.ProgramsBodyRoundTrip` |
| Emby.Server.Implementations/LiveTv/Listings/SchedulesDirect.cs:633-635 | the retry adds the new token to the request message already sent at line 615 and passes that same message to `Send` again | a first reply of 401, then a successful token call: `HttpClient.SendAsync` refuses a message it has sent before, so the retry throws `InvalidOperationException` with no second network call | a fresh request carrying the new token, sent once more without retry | high, not executed | `Tokens.RetryNeverSucceeds` | `Tokens.FreshRetryCanSucceed` |

For at least one id the two bodies are identical (`Requests.ProgramsBodyAsWrittenNonEmpty`). The listing flow (`Listings.ProgramsRequestBody`) sends the body as written, so `Listings.ProgramsRequestNamesEachOnce` states the empty-id body for days without airings. The intended body is `Requests.ProgramsBody`. For the retry, `Tokens.SchedulesDirect.Send` is the code as written (specified by `Tokens.SendSpec`) and `Tokens.SchedulesDirect.SendRebuildingRequest` the evidently intended one (`Tokens.FreshRetrySpec`); `Tokens.SendsAgreeUntilResend` shows they differ only after a token was acquired for a retry.

## Left out

- HTTP transport, JSON (de)serialisation, streams and logging: each request is replaced by its reply, passed in as a parameter.
- Concurrency: the token semaphore, the concurrent dictionary, async/await and cancellation. Token refresh is one sequential state transition.
- SHA-1 hashing and hex encoding of the password in `GetTokenInternal`, and the `/token` request body that carries them: foreign crypto.
- `DateTime.Parse`, `ParseExact`, `ToLocalTime`, `ToString("yyyy-MM-dd")` and the calendar: parameters, or day numbers in place of date strings.
- `Requests.GetScheduleRequestDates`: returns day numbers, not "yyyy-MM-dd" strings; the formatting belongs to the date library. Instants are not bounded by 9999-12-31; a day past it only raises the same `DayOutOfRange`.
- `Images.AspectRatio`: exact rationals in place of `double`, so a double rounding that would reorder two near-equal distances is not captured.
- `Text.EqualsIgnoreCase`: folds ASCII letters only, not the full Unicode case mapping .NET uses.
- `AddLineupToAccount`, `HasLineup`, `Validate`, `GetHeadends` and `GetLineups`: thin orchestration over network calls, with no decision logic beyond null checks.
- `MetadataResults.MetadataResult.AddPerson`: `PeopleHelper.AddPerson` is not part of this model; its effect on the list is the parameter `merge`.
- `MetadataResults.ParseGuid`: accepts only the "N" and "D" GUID forms, after trimming white space; the braced, parenthesised and hexadecimal-group forms `new Guid` also accepts are not modelled.
- GetOrAddUserData: a user id in the braced, parenthesised or hexadecimal-group form throws `BadGuidFormat` here, where `new Guid` would accept it and append an entry (see `MetadataResults.ParseGuid`).
- Listings.GetProgramsAsync: the token is a parameter, and each of its three sends is modelled by its reply. The retry inside `Send(.., true, ..)` is not modelled here: on a 4xx reply it clears the token cache and calls `GetToken` again, which can start the 400 cooldown. `Tokens.SchedulesDirect.Send` models that retry on its own: as written it ends in `RequestAlreadySent` (see "## Findings").
- Images.GetImageForPrograms: the same holds for its `Send(.., true, ..)` at line 481; a failure there is caught and becomes an empty list.
- Channels.GetChannels: the same holds for its `Send(.., true, ..)` at line 779, and the token is a parameter.
- Channels.GetChannels: a null `Map` in the lineup reply (line 781) throws a null-reference exception in the source; `Channels.Lineup.map_` is a sequence that is never null.
- Listings.Flatten: a null `Programs` list of a day (line 123) throws a null-reference exception in the source; `Listings.Day.programs` is a sequence that is never null.
- `Programs.ProgramDetails`: a null `TitleDto`, rating or metadata element is modelled through its one field (`Title120`, `Code`, `Gracenote`); the null-reference exceptions for null elements themselves are not modelled.
- The `Id` slice `lineup.Uri[18..]` of `GetHeadends` and the case-insensitive lineup match of `HasLineup` (line 711) are not modelled.
- `ApiService.cs`, the test file `EncoderValidatorTests.cs` and the DTO files `TokenDto.cs` and `LineupsDto.cs` are not part of this model; the DTO fields the provider reads appear as datatype fields.
