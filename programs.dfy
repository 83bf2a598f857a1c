/**
 * Programme records of the Schedules Direct provider: `GetProgram`, which
 * turns one schedule entry and the details of its programme into a
 * `ProgramInfo`, and the listing loop of `GetProgramsAsync`, which attaches
 * the chosen artwork to the details and emits one record per airing.
 *
 * Instants are ticks (100 ns units since 0001-01-01). Parsing the two date
 * formats is left to the parameters `getDate` (the exact
 * "yyyy-MM-ddTHH:mm:ssZ" form of line 389) and `parseDate`
 * (`DateTime.Parse` of line 360); None stands for the exception they throw.
 */
module Programs {
  import opened Wrappers
  import opened Text
  import opened Numbers
  import Requests
  import Images

  /** Ticks per second, for `AddSeconds`. */
  const TicksPerSecond: nat := 10_000_000

  /** `ProgramAudio`, in the order of the precedence `GetProgram` applies. */
  datatype ProgramAudio = Mono | Stereo | DolbyDigital | Atmos

  /** A schedule entry (`ProgramDto`): one airing of a programme on the channel. */
  datatype ProgramDto = ProgramDto(
    programId: Option<string>,
    airDateTime: Option<string>,
    duration: int,
    md5: Option<string>,
    audioProperties: Option<seq<Option<string>>>,
    videoProperties: Option<seq<Option<string>>>,
    isNew: Option<bool>,
    liveTapeDelay: Option<string>,
    premiere: bool,
    isPremiereOrFinale: Option<string>)

  /** `GracenoteDto`: season and episode numbers. */
  datatype Gracenote = Gracenote(season: int, episode: int)

  /** `DescriptionsProgramDto`: the 1000- and 100-character descriptions, each entry's text. */
  datatype Descriptions = Descriptions(description1000: Option<seq<Option<string>>>, description100: Option<seq<Option<string>>>)

  /** `MovieDto`: only the year is read. */
  datatype Movie = Movie(year: Option<string>)

  /**
   * `ProgramDetailsDto`, the fields the provider reads. `titles` holds each
   * title's `Title120`, `contentRatings` each rating's `Code`, `metadata`
   * each entry's `Gracenote`.
   */
  datatype ProgramDetails = ProgramDetails(
    programId: Option<string>,
    titles: Option<seq<Option<string>>>,
    entityType: Option<string>,
    episodeTitle150: Option<string>,
    audience: Option<string>,
    contentRatings: Option<seq<Option<string>>>,
    descriptions: Option<Descriptions>,
    metadata: Option<seq<Option<Gracenote>>>,
    originalAirDate: Option<string>,
    movie: Option<Movie>,
    genres: Option<seq<Option<string>>>,
    hasImageArtwork: bool,
    primaryImage: Option<string>,
    thumbImage: Option<string>,
    backdropImage: Option<string>)

  /** A parsed `OriginalAirDate`: its ticks and its calendar year. */
  datatype CalendarDate = CalendarDate(ticks: nat, year: int)

  /** `ProgramInfo`, the fields `GetProgram` sets. */
  datatype ProgramInfo = ProgramInfo(
    channelId: string,
    id: string,
    startDate: nat,
    endDate: nat,
    name: string,
    officialRating: Option<string>,
    episodeTitle: Option<string>,
    audio: ProgramAudio,
    isRepeat: bool,
    isSeries: bool,
    imageUrl: Option<string>,
    thumbImageUrl: Option<string>,
    isKids: bool,
    isSports: bool,
    isMovie: bool,
    etag: Option<string>,
    isLive: bool,
    isPremiere: bool,
    showId: string,
    isHD: bool,
    is3D: bool,
    overview: Option<string>,
    seriesId: Option<string>,
    seriesProviderIds: map<string, string>,
    seasonNumber: Option<int>,
    episodeNumber: Option<int>,
    originalAirDate: Option<nat>,
    productionYear: Option<int>,
    genres: seq<string>,
    isNews: bool)

  /** The exceptions the listing code can throw on its input or a payload. */
  datatype ProgramError =
    | BadAirDateTime                           // DateTime.ParseExact, line 389
    | EndOutOfRange                            // AddSeconds past the DateTime range, line 223
    | NoTitle                                  // Titles[0] of a null or empty list, line 259
    | NullRatingCode                           // ContentRating[0].Code.Replace on null, line 310
    | ShortSeriesId(programId: string)         // Substring(0, 10), line 334
    | BadOriginalAirDate                       // DateTime.Parse, line 360
    | NullProgramId                            // a null program id used as a key or sliced
    | ShortProgramId(programId: string)        // ProgramId[..10], line 143
    | MissingDetails(programId: string)        // programDict[...] without that key, lines 145 and 181
    | DuplicateProgramId(programId: string)    // ToDictionary, line 129
    | RequestFailed                            // a request or its JSON failed
    | ShortArtworkId(programId: string)        // Slice(0, 10) in the artwork body builder, line 465
    | NullChannelId                            // ArgumentNullException, line 82
    | DayOutOfRange                            // AddDays(1) past 9999-12-31, line 72

  /** The key by which `Zap2It` series ids are stored. */
  const Zap2It: string := "Zap2It"

  // ---------------------------------------------------------------------
  // Audio class, lines 224-250

  /** Some tag equals `tag`, ignoring case (`List.Exists`). */
  predicate HasTag(tags: seq<Option<string>>, tag: string) {
    exists i | 0 <= i < |tags| :: OptEqualsIgnoreCase(tags[i], Some(tag))
  }

  /** The chain of `Exists` tests of lines 228-249; Stereo when no list is given. */
  function AudioOf(audioProperties: Option<seq<Option<string>>>): ProgramAudio {
    match audioProperties
    case None => Stereo
    case Some(tags) =>
      if HasTag(tags, "atmos") then Atmos
      else if HasTag(tags, "dd 5.1") then DolbyDigital
      else if HasTag(tags, "dd") then DolbyDigital
      else if HasTag(tags, "stereo") then Stereo
      else Mono
  }

  /** What one tag alone indicates. */
  function TagClass(t: Option<string>): ProgramAudio {
    if OptEqualsIgnoreCase(t, Some("atmos")) then Atmos
    else if OptEqualsIgnoreCase(t, Some("dd 5.1")) || OptEqualsIgnoreCase(t, Some("dd")) then DolbyDigital
    else if OptEqualsIgnoreCase(t, Some("stereo")) then Stereo
    else Mono
  }

  function Rank(a: ProgramAudio): nat {
    match a
    case Mono => 0
    case Stereo => 1
    case DolbyDigital => 2
    case Atmos => 3
  }

  /** The highest-ranked class any tag indicates, Mono for no tags. */
  function Strongest(tags: seq<Option<string>>): (a: ProgramAudio)
    ensures forall i | 0 <= i < |tags| :: Rank(TagClass(tags[i])) <= Rank(a)
    ensures tags == [] ==> a == Mono
    ensures tags != [] ==> exists i | 0 <= i < |tags| :: TagClass(tags[i]) == a
    decreases |tags|
  {
    if tags == [] then Mono
    else
      var rest := Strongest(tags[1..]);
      assert forall i | 1 <= i < |tags| :: tags[i] == tags[1..][i - 1];
      if Rank(TagClass(tags[0])) >= Rank(rest) then TagClass(tags[0]) else rest
  }

  /**
   * The `Exists` chain picks the strongest class present among the tags:
   * Atmos over Dolby Digital ("dd 5.1" or "dd") over Stereo over Mono.
   */
  lemma AudioIsStrongestTag(tags: seq<Option<string>>)
    ensures AudioOf(Some(tags)) == Strongest(tags)
  {
    var a := Strongest(tags);
    if HasTag(tags, "atmos") {
      var i :| 0 <= i < |tags| && OptEqualsIgnoreCase(tags[i], Some("atmos"));
      assert TagClass(tags[i]) == Atmos;
    } else if HasTag(tags, "dd 5.1") || HasTag(tags, "dd") {
      var i :| 0 <= i < |tags| && (OptEqualsIgnoreCase(tags[i], Some("dd 5.1")) || OptEqualsIgnoreCase(tags[i], Some("dd")));
      assert TagClass(tags[i]) == DolbyDigital;
      assert forall j | 0 <= j < |tags| :: TagClass(tags[j]) != Atmos;
    } else if HasTag(tags, "stereo") {
      var i :| 0 <= i < |tags| && OptEqualsIgnoreCase(tags[i], Some("stereo"));
      assert TagClass(tags[i]) == Stereo;
      assert forall j | 0 <= j < |tags| :: Rank(TagClass(tags[j])) <= 1;
    } else {
      assert forall j | 0 <= j < |tags| :: TagClass(tags[j]) == Mono;
    }
  }

  // ---------------------------------------------------------------------
  // Official rating, lines 308-318

  /** The codes line 312 discards. */
  const InvalidRatings: seq<string> := ["N/A", "Approved", "Not Rated", "Passed"]

  /** "TV" becomes "TV-", then "--" becomes "-", both ordinal. */
  function NormalizeRating(code: string): string {
    Replace(Replace(code, "TV", "TV-", false), "--", "-", false)
  }

  /** The official rating of a first rating code: the normalised code, unless it is one of the invalid ones. */
  function OfficialRating(code: string): (r: Option<string>)
    ensures r.None? <==> exists b | b in InvalidRatings :: EqualsIgnoreCase(NormalizeRating(code), b)
    ensures r.Some? ==> r.value == NormalizeRating(code)
  {
    var n := NormalizeRating(code);
    if exists b | b in InvalidRatings :: EqualsIgnoreCase(n, b) then None else Some(n)
  }

  /** No character of `s` is `c`. */
  predicate Lacks(s: string, c: char) {
    forall i | 0 <= i < |s| :: s[i] != c
  }

  /** `Replace` steps over a leading character that cannot start the pattern. */
  lemma ReplaceSkipsChar(c: char, x: string, pat: string, rep: string)
    requires |pat| >= 2 && c != pat[0]
    ensures Replace([c] + x, pat, rep, false) == [c] + Replace(x, pat, rep, false)
  {
    var s := [c] + x;
    assert s[1..] == x;
    if |pat| <= |s| {
      assert s[..|pat|][0] == c;
    }
  }

  /** `Replace` rewrites a leading occurrence of the pattern. */
  lemma ReplaceLeading(pat: string, x: string, rep: string)
    requires pat != []
    ensures Replace(pat + x, pat, rep, false) == rep + Replace(x, pat, rep, false)
  {
    var s := pat + x;
    assert s[..|pat|] == pat && s[|pat|..] == x;
  }

  /** A single '-' not followed by another is not an occurrence of "--". */
  lemma ReplaceLoneDash(rest: string, dd: string, d: string)
    requires dd == "--" && d == "-"
    requires Lacks(rest, '-')
    ensures Replace(d + rest, dd, d, false) == d + Replace(rest, dd, d, false)
  {
    var s := d + rest;
    assert s[1..] == rest;
    if 2 <= |s| {
      assert s[..2][1] == rest[0];
    }
  }

  lemma TvDashNotInvalid(rest: string)
    ensures forall b | b in InvalidRatings :: !EqualsIgnoreCase("TV-" + rest, b)
  {
    var ok := "TV-" + rest;
    forall b | b in InvalidRatings
      ensures !EqualsIgnoreCase(ok, b)
    {
      if |ok| == |b| {
        assert Fold(ok)[0] == 'T' && Fold(b)[0] != 'T';
      }
    }
  }

  /**
   * The helpers below take the patterns as parameters `tv` = "TV",
   * `tvd` = "TV-", `dd` = "--" and `d` = "-", which keeps the solver from
   * unfolding `Replace` on the literals.
   */
  predicate RatingPatterns(tv: string, tvd: string, dd: string, d: string) {
    tv == "TV" && tvd == "TV-" && dd == "--" && d == "-"
  }

  /** Neither pattern occurs in a rating without 'T' and '-', so it passes both passes unchanged. */
  lemma PlainRest(rest: string, tv: string, tvd: string, dd: string, d: string)
    requires RatingPatterns(tv, tvd, dd, d)
    requires Lacks(rest, 'T') && Lacks(rest, '-')
    ensures Replace(rest, tv, tvd, false) == rest
    ensures Replace(rest, dd, d, false) == rest
  {
    NoStartNoOccurrence(rest, tv, false);
    NoStartNoOccurrence(rest, dd, false);
    ReplaceWithoutOccurrence(rest, tv, tvd, false);
    ReplaceWithoutOccurrence(rest, dd, d, false);
  }

  /** "TV" + rest: the first pass adds the dash. */
  lemma FirstPassTv(rest: string, tv: string, tvd: string, dd: string, d: string)
    requires RatingPatterns(tv, tvd, dd, d)
    requires Lacks(rest, 'T') && Lacks(rest, '-')
    ensures Replace(tv + rest, tv, tvd, false) == tvd + rest
  {
    PlainRest(rest, tv, tvd, dd, d);
    ReplaceLeading(tv, rest, tvd);
  }

  /** "TV-" + rest: the second pass keeps the single dash. */
  lemma SecondPassTvDash(rest: string, tv: string, tvd: string, dd: string, d: string)
    requires RatingPatterns(tv, tvd, dd, d)
    requires Lacks(rest, 'T') && Lacks(rest, '-')
    ensures Replace(tvd + rest, dd, d, false) == tvd + rest
  {
    PlainRest(rest, tv, tvd, dd, d);
    ReplaceLoneDash(rest, dd, d);
    ReplaceSkipsChar('V', d + rest, dd, d);
    ReplaceSkipsChar('T', ['V'] + (d + rest), dd, d);
    assert tvd + rest == ['T'] + (['V'] + (d + rest));
  }

  /** "TV-" + rest: the first pass doubles the dash. */
  lemma FirstPassTvDash(rest: string, tv: string, tvd: string, dd: string, d: string)
    requires RatingPatterns(tv, tvd, dd, d)
    requires Lacks(rest, 'T') && Lacks(rest, '-')
    ensures Replace(tvd + rest, tv, tvd, false) == tvd + (d + rest)
  {
    PlainRest(rest, tv, tvd, dd, d);
    assert tvd + rest == tv + (d + rest);
    ReplaceLeading(tv, d + rest, tvd);
    ReplaceSkipsChar('-', rest, tv, tvd);
  }

  /** "TV--" + rest: the second pass folds the dashes into one. */
  lemma SecondPassTvDashDash(rest: string, tv: string, tvd: string, dd: string, d: string)
    requires RatingPatterns(tv, tvd, dd, d)
    requires Lacks(rest, 'T') && Lacks(rest, '-')
    ensures Replace(tvd + (d + rest), dd, d, false) == tvd + rest
  {
    PlainRest(rest, tv, tvd, dd, d);
    ReplaceLeading(dd, rest, d);
    ReplaceSkipsChar('V', dd + rest, dd, d);
    ReplaceSkipsChar('T', ['V'] + (dd + rest), dd, d);
    assert tvd + (d + rest) == ['T'] + (['V'] + (dd + rest));
    assert tvd + rest == ['T'] + (['V'] + (d + rest));
  }

  /**
   * "TV" followed by a rating (no 'T', no '-' in it) and the same code
   * already spelled "TV-..." both come out as "TV-" + rating.
   */
  lemma RatingNormalForm(rest: string)
    requires Lacks(rest, 'T') && Lacks(rest, '-')
    ensures OfficialRating("TV" + rest) == Some("TV-" + rest)
    ensures OfficialRating("TV-" + rest) == Some("TV-" + rest)
  {
    FirstPassTv(rest, "TV", "TV-", "--", "-");
    SecondPassTvDash(rest, "TV", "TV-", "--", "-");
    FirstPassTvDash(rest, "TV", "TV-", "--", "-");
    SecondPassTvDashDash(rest, "TV", "TV-", "--", "-");
    TvDashNotInvalid(rest);
  }

  /**
   * A code in which neither "TV" nor "--" occurs is kept as it is, and is
   * dropped exactly when it is one of the invalid codes in any case.
   */
  lemma PlainRatingKeptOrDropped(code: string)
    requires !Occurs(code, "TV", false) && !Occurs(code, "--", false)
    ensures OfficialRating(code).None? <==> exists b | b in InvalidRatings :: EqualsIgnoreCase(code, b)
    ensures OfficialRating(code).Some? ==> OfficialRating(code).value == code
  {
    ReplaceWithoutOccurrence(code, "TV", "TV-", false);
    ReplaceWithoutOccurrence(code, "--", "-", false);
  }

  // ---------------------------------------------------------------------
  // Identity, series and show ids, lines 226, 271, 282-300, 332-355

  /** `programId + "T" + startAt.Ticks + "C" + channelId`. */
  function IdentityKey(programId: string, startTicks: nat, channelId: string): string {
    programId + "T" + FormatNat(startTicks) + "C" + channelId
  }

  /** A run of digits followed by 'C' is determined by the string it starts. */
  lemma DigitsBeforeC(fa: string, fb: string, rest: string)
    requires AllDigits(fa) && AllDigits(fb)
    ensures fa + "C" + rest == fb + "C" + rest ==> fa == fb
  {
    if fa + "C" + rest == fb + "C" + rest {
      var s := fa + "C" + rest;
      assert s[|fa|] == 'C' && (fb + "C" + rest)[|fb|] == 'C';
      assert forall i | 0 <= i < |fa| :: s[i] == fa[i];
      assert forall i | 0 <= i < |fb| :: s[i] == fb[i];
      assert |fa| == |fb|;
      assert fa == s[..|fa|] && fb == s[..|fb|];
    }
  }

  /** Two airings of one programme on one channel at different instants get different ids. */
  lemma IdentityKeysDiffer(programId: string, channelId: string, a: nat, b: nat)
    requires a != b
    ensures IdentityKey(programId, a, channelId) != IdentityKey(programId, b, channelId)
  {
    var head := programId + "T";
    var fa, fb := FormatNat(a), FormatNat(b);
    var ta, tb := fa + "C" + channelId, fb + "C" + channelId;
    DigitsValueOfFormat(a);
    DigitsValueOfFormat(b);
    DigitsBeforeC(fa, fb, channelId);
    assert IdentityKey(programId, a, channelId) == head + ta && (head + ta)[|head|..] == ta;
    assert IdentityKey(programId, b, channelId) == head + tb && (head + tb)[|head|..] == tb;
  }

  /** Line 271, then lines 285-289: an "episode" entity, or an "SH" id of at least 14 characters. */
  predicate IsSeriesOf(entityType: Option<string>, programId: string) {
    OptEqualsIgnoreCase(entityType, Some("episode"))
    || (StartsWithIgnoreCase(programId, "SH") && |programId| >= 14)
  }

  /** Lines 291-298: a generic "SH...0000" episode gets the airing's id as its show id. */
  function ShowIdOf(programId: string, id: string): string {
    if StartsWithIgnoreCase(programId, "SH") && EndsWithIgnoreCase(programId, "0000") then id else programId
  }

  /**
   * A generic episode "SH005316560000": a series (an "SH" id of 14
   * characters) whose show id is the airing's own id.
   */
  lemma GenericEpisodeExample(id: string)
    ensures IsSeriesOf(None, "SH005316560000")
    ensures ShowIdOf("SH005316560000", id) == id
  {
    var p := "SH005316560000";
    assert p[0..2] == "SH" && p[10..14] == "0000";
    assert Fold(p[0..2]) == Fold("SH");
    assert Fold(p[10..14]) == Fold("0000");
  }

  /**
   * An identified episode "SH005316560001": a series, and its show id is
   * the whole programme id, not its 10-character root.
   */
  lemma IdentifiedEpisodeExample(id: string)
    ensures IsSeriesOf(None, "SH005316560001")
    ensures ShowIdOf("SH005316560001", id) == "SH005316560001"
  {
    var p := "SH005316560001";
    assert p[0..2] == "SH" && p[10..14] == "0001";
    assert Fold(p[0..2]) == Fold("SH");
    assert Fold(p[10..14])[3] != Fold("0000")[3];
  }

  /** `foreach` with `break` of lines 338-353: the first metadata entry carrying Gracenote numbers, -1 for none. */
  function FirstGracenote(metadata: seq<Option<Gracenote>>): (k: int)
    ensures -1 <= k < |metadata|
    ensures k >= 0 ==> metadata[k].Some? && forall j | 0 <= j < k :: metadata[j].None?
    ensures k == -1 ==> forall j | 0 <= j < |metadata| :: metadata[j].None?
  {
    if exists j | 0 <= j < |metadata| :: metadata[j].Some? then FirstSome(metadata, 0) else -1
  }

  function FirstSome(metadata: seq<Option<Gracenote>>, from: nat): (k: int)
    requires from <= |metadata|
    requires exists j | from <= j < |metadata| :: metadata[j].Some?
    ensures from <= k < |metadata| && metadata[k].Some?
    ensures forall j | from <= j < k :: metadata[j].None?
    decreases |metadata| - from
  {
    if metadata[from].Some? then from else FirstSome(metadata, from + 1)
  }

  // ---------------------------------------------------------------------
  // GetProgram, lines 218-385

  /** `List.Contains(t, StringComparer.OrdinalIgnoreCase)` on a list that may hold nulls. */
  predicate ContainsIgnoreCase(xs: seq<Option<string>>, t: string) {
    HasTag(xs, t)
  }

  /** `List.Contains(t, StringComparer.OrdinalIgnoreCase)` on a list without nulls. */
  predicate ListContainsIgnoreCase(xs: seq<string>, t: string) {
    exists i | 0 <= i < |xs| :: EqualsIgnoreCase(xs[i], t)
  }

  /** `Genres.Where(g => !string.IsNullOrWhiteSpace(g))`, in order. */
  function NonBlank(genres: seq<Option<string>>): (r: seq<string>)
    ensures |r| <= |genres|
    ensures forall x :: x in r <==> Some(x) in genres && !IsBlank(x)
    decreases |genres|
  {
    if genres == [] then []
    else
      var rest := NonBlank(genres[1..]);
      assert forall x :: x in genres <==> x == genres[0] || x in genres[1..];
      if IsNullOrWhiteSpace(genres[0]) then rest else [genres[0].value] + rest
  }

  /** The filter works piecewise, so the kept genres stay in input order. */
  lemma {:induction false} NonBlankConcat(a: seq<Option<string>>, b: seq<Option<string>>)
    ensures NonBlank(a + b) == NonBlank(a) + NonBlank(b)
    decreases |a|
  {
    if a == [] {
      assert a + b == b;
    } else {
      assert (a + b)[0] == a[0] && (a + b)[1..] == a[1..] + b;
      NonBlankConcat(a[1..], b);
    }
  }

  /** The rating of the first content rating, lines 308-318; a null first code throws. */
  function RatingOf(contentRatings: Option<seq<Option<string>>>): Result<Option<string>, ProgramError> {
    match contentRatings
    case None => Success(None)
    case Some(codes) =>
      if codes == [] then Success(None)
      else if codes[0].None? then Failure(NullRatingCode)
      else Success(OfficialRating(codes[0].value))
  }

  /** Lines 320-330: the first long description, else the first short one. */
  function OverviewOf(descriptions: Option<Descriptions>): Option<string> {
    match descriptions
    case None => None
    case Some(ds) =>
      if ds.description1000.Some? && |ds.description1000.value| > 0 then ds.description1000.value[0]
      else if ds.description100.Some? && |ds.description100.value| > 0 then ds.description100.value[0]
      else None
  }

  /** Lines 364-371: a non-empty movie year that parses as an Int32. */
  function MovieYear(movie: Option<Movie>): Option<int> {
    if movie.None? || IsNullOrEmpty(movie.value.year) then None
    else TryParseInteger(movie.value.year, Int32Min, Int32Max)
  }

  /** The start instant: `GetDate` of the air time, None when it throws. */
  function StartOf(p: ProgramDto, getDate: string -> Option<nat>): Option<nat> {
    if p.airDateTime.None? then None else getDate(p.airDateTime.value)
  }

  /** The series-related fields, lines 282-300 and 332-355. */
  datatype SeriesPart = SeriesPart(isSeries: bool, showId: string, seriesId: Option<string>,
                                   providerIds: map<string, string>, season: Option<int>, episode: Option<int>)

  /**
   * The series fields of an airing with programme id `programId`, airing id
   * `id`; a series whose id is shorter than 10 characters throws.
   */
  function SeriesOf(entityType: Option<string>, programId: string, id: string,
                    metadata: Option<seq<Option<Gracenote>>>): Result<SeriesPart, ProgramError>
  {
    var series := IsSeriesOf(entityType, programId);
    if series && |programId| < 10 then Failure(ShortSeriesId(programId))
    else
      var k := if series && metadata.Some? then FirstGracenote(metadata.value) else -1;
      Success(SeriesPart(
        series,
        ShowIdOf(programId, id),
        if series then Some(programId[..10]) else None,
        if series then map[Zap2It := programId[..10]] else map[],
        if k >= 0 then Some(metadata.value[k].value.season) else None,
        if k >= 0 && metadata.value[k].value.episode > 0 then Some(metadata.value[k].value.episode) else None))
  }

  /** The date fields, lines 358-371. */
  datatype YearPart = YearPart(originalAirDate: Option<nat>, productionYear: Option<int>)

  /**
   * A non-blank original air date is parsed (throwing when it does not
   * parse) and gives the year; a parsable movie year overrides it.
   */
  function YearOf(originalAirDate: Option<string>, movie: Option<Movie>,
                  parseDate: string -> Option<CalendarDate>): Result<YearPart, ProgramError>
  {
    var parsed := if IsNullOrWhiteSpace(originalAirDate) then None else parseDate(originalAirDate.value);
    if !IsNullOrWhiteSpace(originalAirDate) && parsed.None? then Failure(BadOriginalAirDate)
    else
      var airYear := if parsed.Some? then Some(parsed.value.year) else None;
      Success(YearPart(
        if parsed.Some? then Some(parsed.value.ticks) else None,
        if MovieYear(movie).Some? then MovieYear(movie) else airYear))
  }

  /** The genre fields, lines 274 and 373-382. */
  datatype GenrePart = GenrePart(genres: seq<string>, isNews: bool, isKids: bool)

  function GenresOf(audience: Option<string>, genres: Option<seq<Option<string>>>): GenrePart {
    var kept := if genres.Some? then NonBlank(genres.value) else [];
    GenrePart(
      kept,
      genres.Some? && ContainsIgnoreCase(genres.value, "news"),
      OptEqualsIgnoreCase(audience, Some("children")) || (genres.Some? && ListContainsIgnoreCase(kept, "children")))
  }

  /** The record `GetProgram` returns, from its parts. */
  function Assemble(channelId: string, p: ProgramDto, d: ProgramDetails, startAt: nat, endAt: nat, id: string,
                    rating: Option<string>, audio: ProgramAudio, series: SeriesPart, years: YearPart, g: GenrePart): ProgramInfo
  {
    ProgramInfo(
      channelId := channelId,
      id := id,
      startDate := startAt,
      endDate := endAt,
      name := if d.titles.Some? && |d.titles.value| > 0 then d.titles.value[0].GetOr("Unknown") else "Unknown",
      officialRating := rating,
      episodeTitle := d.episodeTitle150,
      audio := audio,
      isRepeat := p.isNew.None?,
      isSeries := series.isSeries,
      imageUrl := d.primaryImage,
      thumbImageUrl := d.thumbImage,
      isKids := g.isKids,
      isSports := OptEqualsIgnoreCase(d.entityType, Some("sports")),
      isMovie := OptEqualsIgnoreCase(d.entityType, Some("movie")),
      etag := p.md5,
      isLive := OptEqualsIgnoreCase(p.liveTapeDelay, Some("live")),
      isPremiere := p.premiere || Occurs(p.isPremiereOrFinale.GetOr(""), "premiere", true),
      showId := series.showId,
      isHD := p.videoProperties.Some? && ContainsIgnoreCase(p.videoProperties.value, "hdtv"),
      is3D := p.videoProperties.Some? && ContainsIgnoreCase(p.videoProperties.value, "3d"),
      overview := OverviewOf(d.descriptions),
      seriesId := series.seriesId,
      seriesProviderIds := series.providerIds,
      seasonNumber := series.season,
      episodeNumber := series.episode,
      originalAirDate := years.originalAirDate,
      productionYear := years.productionYear,
      genres := g.genres,
      isNews := g.isNews)
  }

  /**
   * What `GetProgram` returns for an airing `p` of the programme `d` on
   * channel `channelId`, or the exception it throws first.
   */
  function ProgramSpec(channelId: string, p: ProgramDto, d: ProgramDetails,
                       getDate: string -> Option<nat>, parseDate: string -> Option<CalendarDate>): Result<ProgramInfo, ProgramError>
  {
    var start := StartOf(p, getDate);
    if start.None? then Failure(BadAirDateTime)
    else
      var startAt := start.value;
      var endAt := startAt + p.duration * TicksPerSecond;
      if endAt < 0 || endAt > Requests.MaxTicks then Failure(EndOutOfRange)
      else if d.titles.None? || d.titles.value == [] then Failure(NoTitle)
      else
        var rating := RatingOf(d.contentRatings);
        if rating.Failure? then Failure(rating.error)
        else
          var programId := p.programId.GetOr("");
          var id := IdentityKey(programId, startAt, channelId);
          var series := SeriesOf(d.entityType, programId, id, d.metadata);
          if series.Failure? then Failure(series.error)
          else
            var years := YearOf(d.originalAirDate, d.movie, parseDate);
            if years.Failure? then Failure(years.error)
            else
              Success(Assemble(channelId, p, d, startAt, endAt, id, rating.value, AudioOf(p.audioProperties),
                               series.value, years.value, GenresOf(d.audience, d.genres)))
  }

  /** Lines 224-250: the `Exists` chain over the audio tags. */
  method ClassifyAudio(audioProperties: Option<seq<Option<string>>>) returns (audioType: ProgramAudio)
    ensures audioType == AudioOf(audioProperties)
    ensures audioProperties.Some? ==> audioType == Strongest(audioProperties.value)
  {
    audioType := Stereo;
    if audioProperties.Some? {
      var tags := audioProperties.value;
      AudioIsStrongestTag(tags);
      if HasTag(tags, "atmos") {
        audioType := Atmos;
      } else if HasTag(tags, "dd 5.1") {
        audioType := DolbyDigital;
      } else if HasTag(tags, "dd") {
        audioType := DolbyDigital;
      } else if HasTag(tags, "stereo") {
        audioType := Stereo;
      } else {
        audioType := Mono;
      }
    }
  }

  /** Lines 308-318: the official rating, or the null-code exception. */
  method ClassifyRating(contentRatings: Option<seq<Option<string>>>) returns (r: Result<Option<string>, ProgramError>)
    ensures r == RatingOf(contentRatings)
  {
    r := Success(None);
    if contentRatings.Some? && |contentRatings.value| > 0 {
      var code := contentRatings.value[0];
      if code.None? {
        return Failure(NullRatingCode);
      }
      var rating := Replace(Replace(code.value, "TV", "TV-", false), "--", "-", false);
      r := Success(Some(rating));
      if exists b | b in InvalidRatings :: EqualsIgnoreCase(rating, b) {
        r := Success(None);
      }
    }
  }

  /**
   * Lines 338-353: scan the metadata for the first entry with Gracenote
   * numbers; its season is taken, its episode only when positive.
   */
  method ScanMetadata(metadata: seq<Option<Gracenote>>) returns (season: Option<int>, episode: Option<int>)
    ensures var k := FirstGracenote(metadata);
      && season == (if k >= 0 then Some(metadata[k].value.season) else None)
      && episode == (if k >= 0 && metadata[k].value.episode > 0 then Some(metadata[k].value.episode) else None)
  {
    season, episode := None, None;
    var i := 0;
    while i < |metadata|
      invariant 0 <= i <= |metadata|
      invariant forall j | 0 <= j < i :: metadata[j].None?
      invariant season.None? && episode.None?
    {
      var gracenote := metadata[i];
      if gracenote.Some? {
        season := Some(gracenote.value.season);
        if gracenote.value.episode > 0 {
          episode := Some(gracenote.value.episode);
        }
        assert i == FirstGracenote(metadata);
        return;
      }
      i := i + 1;
    }
  }

  /** Lines 282-300 and 332-355: series flag, show id, series id and the Gracenote numbers. */
  method SeriesFields(entityType: Option<string>, programId: string, newId: string,
                      metadata: Option<seq<Option<Gracenote>>>) returns (r: Result<SeriesPart, ProgramError>)
    ensures r == SeriesOf(entityType, programId, newId, metadata)
  {
    var isSeries := OptEqualsIgnoreCase(entityType, Some("episode"));
    var showId := programId;
    if !isSeries {
      isSeries := StartsWithIgnoreCase(showId, "SH") && |showId| >= 14;
    }
    var hasUniqueShowId := !StartsWithIgnoreCase(showId, "SH") || !EndsWithIgnoreCase(showId, "0000");
    if !hasUniqueShowId {
      showId := newId;
    }
    var seriesId: Option<string> := None;
    var providerIds: map<string, string> := map[];
    var season: Option<int>, episode: Option<int> := None, None;
    if isSeries {
      if |programId| < 10 {
        return Failure(ShortSeriesId(programId));
      }
      seriesId := Some(programId[..10]);
      providerIds := providerIds[Zap2It := programId[..10]];
      if metadata.Some? {
        season, episode := ScanMetadata(metadata.value);
      }
    }
    return Success(SeriesPart(isSeries, showId, seriesId, providerIds, season, episode));
  }

  /** Lines 358-371: the original air date and the production year. */
  method YearFields(originalAirDate: Option<string>, movie: Option<Movie>,
                    parseDate: string -> Option<CalendarDate>) returns (r: Result<YearPart, ProgramError>)
    ensures r == YearOf(originalAirDate, movie, parseDate)
  {
    var airDate: Option<nat>, productionYear: Option<int> := None, None;
    if !IsNullOrWhiteSpace(originalAirDate) {
      var parsed := parseDate(originalAirDate.value);
      if parsed.None? {
        return Failure(BadOriginalAirDate);
      }
      airDate, productionYear := Some(parsed.value.ticks), Some(parsed.value.year);
    }
    if movie.Some? {
      if !IsNullOrEmpty(movie.value.year) {
        var year := TryParseInteger(movie.value.year, Int32Min, Int32Max);
        if year.Some? {
          productionYear := year;
        }
      }
    }
    return Success(YearPart(airDate, productionYear));
  }

  /** Lines 373-382, with the audience test of line 265. */
  method GenreFields(audience: Option<string>, genres: Option<seq<Option<string>>>) returns (g: GenrePart)
    ensures g == GenresOf(audience, genres)
  {
    var isKids := OptEqualsIgnoreCase(audience, Some("children"));
    var kept: seq<string>, isNews := [], false;
    if genres.Some? {
      kept := NonBlank(genres.value);
      isNews := ContainsIgnoreCase(genres.value, "news");
      if ListContainsIgnoreCase(kept, "children") {
        isKids := true;
      }
    }
    return GenrePart(kept, isNews, isKids);
  }

  /**
   * `GetProgram`: computes the fields in the order of lines 220-384 and
   * fails with the first exception the source would throw.
   */
  method GetProgram(channelId: string, p: ProgramDto, d: ProgramDetails,
                    getDate: string -> Option<nat>, parseDate: string -> Option<CalendarDate>)
    returns (r: Result<ProgramInfo, ProgramError>)
    ensures r == ProgramSpec(channelId, p, d, getDate, parseDate)
  {
    if p.airDateTime.None? {
      return Failure(BadAirDateTime);
    }
    var parsed := getDate(p.airDateTime.value);
    if parsed.None? {
      return Failure(BadAirDateTime);
    }
    var startAt := parsed.value;
    var endTicks := startAt + p.duration * TicksPerSecond;
    if endTicks < 0 || endTicks > Requests.MaxTicks {
      return Failure(EndOutOfRange);
    }
    var programId := if p.programId.Some? then p.programId.value else "";
    var newId := programId + "T" + FormatNat(startAt) + "C" + channelId;
    var audioType := ClassifyAudio(p.audioProperties);
    if d.titles.None? || |d.titles.value| == 0 {
      return Failure(NoTitle);
    }
    var rating := ClassifyRating(d.contentRatings);
    if rating.Failure? {
      return Failure(rating.error);
    }
    var series := SeriesFields(d.entityType, programId, newId, d.metadata);
    if series.Failure? {
      return Failure(series.error);
    }
    var years := YearFields(d.originalAirDate, d.movie, parseDate);
    if years.Failure? {
      return Failure(years.error);
    }
    var g := GenreFields(d.audience, d.genres);
    return Success(Assemble(channelId, p, d, startAt, endTicks, newId, rating.value, audioType, series.value, years.value, g));
  }

  /**
   * `GetProgram` throws exactly when the air time does not parse, the end
   * leaves the `DateTime` range, there is no title, the first rating code is
   * null, a series id is shorter than 10 characters or a non-blank original
   * air date does not parse.
   */
  lemma ProgramSucceedsIff(channelId: string, p: ProgramDto, d: ProgramDetails,
                           getDate: string -> Option<nat>, parseDate: string -> Option<CalendarDate>)
    ensures ProgramSpec(channelId, p, d, getDate, parseDate).Success? <==>
      && StartOf(p, getDate).Some?
      && 0 <= StartOf(p, getDate).value + p.duration * TicksPerSecond <= Requests.MaxTicks
      && d.titles.Some? && d.titles.value != []
      && !(d.contentRatings.Some? && d.contentRatings.value != [] && d.contentRatings.value[0].None?)
      && !(IsSeriesOf(d.entityType, p.programId.GetOr("")) && |p.programId.GetOr("")| < 10)
      && (IsNullOrWhiteSpace(d.originalAirDate) || parseDate(d.originalAirDate.value).Some?)
  {
  }

  /** Lines 220-226: the record's instants and its identity key. */
  lemma ProgramIdentity(channelId: string, p: ProgramDto, d: ProgramDetails,
                        getDate: string -> Option<nat>, parseDate: string -> Option<CalendarDate>)
    requires ProgramSpec(channelId, p, d, getDate, parseDate).Success?
    ensures var r := ProgramSpec(channelId, p, d, getDate, parseDate).value;
      && StartOf(p, getDate) == Some(r.startDate)
      && r.endDate == r.startDate + p.duration * TicksPerSecond
      && r.channelId == channelId
      && r.id == IdentityKey(p.programId.GetOr(""), r.startDate, channelId)
      && r.name == d.titles.value[0].GetOr("Unknown")
  {
  }

  /**
   * Lines 224-250 and 308-318: the audio class is Stereo without tags and
   * otherwise the strongest tag; the rating is that of the first code.
   */
  lemma ProgramAudioAndRating(channelId: string, p: ProgramDto, d: ProgramDetails,
                              getDate: string -> Option<nat>, parseDate: string -> Option<CalendarDate>)
    requires ProgramSpec(channelId, p, d, getDate, parseDate).Success?
    ensures var r := ProgramSpec(channelId, p, d, getDate, parseDate).value;
      && (p.audioProperties.None? ==> r.audio == Stereo)
      && (p.audioProperties.Some? ==> r.audio == Strongest(p.audioProperties.value))
      && (d.contentRatings.None? || d.contentRatings.value == [] ==> r.officialRating.None?)
      && (d.contentRatings.Some? && d.contentRatings.value != [] ==>
            r.officialRating == OfficialRating(d.contentRatings.value[0].value))
  {
    if p.audioProperties.Some? {
      AudioIsStrongestTag(p.audioProperties.value);
    }
  }

  /**
   * Lines 271 and 282-300: the series flag, the show id, and the series id
   * with its Zap2It provider id for a series only.
   */
  lemma ProgramSeriesIds(channelId: string, p: ProgramDto, d: ProgramDetails,
                         getDate: string -> Option<nat>, parseDate: string -> Option<CalendarDate>)
    requires ProgramSpec(channelId, p, d, getDate, parseDate).Success?
    ensures var r := ProgramSpec(channelId, p, d, getDate, parseDate).value;
      var pid := p.programId.GetOr("");
      && (r.isSeries <==> OptEqualsIgnoreCase(d.entityType, Some("episode")) || (StartsWithIgnoreCase(pid, "SH") && |pid| >= 14))
      && (StartsWithIgnoreCase(pid, "SH") && EndsWithIgnoreCase(pid, "0000") ==> r.showId == r.id)
      && (!(StartsWithIgnoreCase(pid, "SH") && EndsWithIgnoreCase(pid, "0000")) ==> r.showId == pid)
      && (r.isSeries ==> |pid| >= 10 && r.seriesId == Some(pid[..10]) && r.seriesProviderIds == map[Zap2It := pid[..10]])
      && (!r.isSeries ==> r.seriesId.None? && r.seriesProviderIds == map[] && r.seasonNumber.None? && r.episodeNumber.None?)
  {
  }

  /**
   * Lines 332-355: a series takes its season from the first metadata entry
   * with Gracenote numbers, and its episode only when positive; without such
   * an entry both stay unset.
   */
  lemma ProgramSeasonEpisode(channelId: string, p: ProgramDto, d: ProgramDetails,
                             getDate: string -> Option<nat>, parseDate: string -> Option<CalendarDate>, k: nat)
    requires ProgramSpec(channelId, p, d, getDate, parseDate).Success?
    requires ProgramSpec(channelId, p, d, getDate, parseDate).value.isSeries && d.metadata.Some?
    ensures var r := ProgramSpec(channelId, p, d, getDate, parseDate).value;
      var md := d.metadata.value;
      && ((forall j | 0 <= j < |md| :: md[j].None?) ==> r.seasonNumber.None? && r.episodeNumber.None?)
      && (k < |md| && md[k].Some? && (forall j | 0 <= j < k :: md[j].None?) ==>
            && r.seasonNumber == Some(md[k].value.season)
            && r.episodeNumber == (if md[k].value.episode > 0 then Some(md[k].value.episode) else None))
  {
    var md := d.metadata.value;
    var f := FirstGracenote(md);
    if k < |md| && md[k].Some? && (forall j | 0 <= j < k :: md[j].None?) {
      assert f == k as int;
    }
  }

  /**
   * Lines 358-382: the original air date is the parsed one; a parsable
   * movie year takes precedence over the air date's year; the genres are
   * the non-blank ones; news follows the genres, and kids the audience or a
   * kept "children" genre.
   */
  lemma ProgramYearsAndGenres(channelId: string, p: ProgramDto, d: ProgramDetails,
                              getDate: string -> Option<nat>, parseDate: string -> Option<CalendarDate>)
    requires ProgramSpec(channelId, p, d, getDate, parseDate).Success?
    ensures var r := ProgramSpec(channelId, p, d, getDate, parseDate).value;
      var parsed := if IsNullOrWhiteSpace(d.originalAirDate) then None else parseDate(d.originalAirDate.value);
      && (parsed.None? ==> r.originalAirDate.None?)
      && (parsed.Some? ==> r.originalAirDate == Some(parsed.value.ticks))
      && (MovieYear(d.movie).Some? ==> r.productionYear == MovieYear(d.movie))
      && (MovieYear(d.movie).None? && parsed.Some? ==> r.productionYear == Some(parsed.value.year))
      && (MovieYear(d.movie).None? && parsed.None? ==> r.productionYear.None?)
      && (d.genres.None? ==> r.genres == [] && !r.isNews)
      && (d.genres.Some? ==> forall x :: x in r.genres <==> Some(x) in d.genres.value && !IsBlank(x))
      && (r.isNews <==> d.genres.Some? && HasTag(d.genres.value, "news"))
      && (r.isKids <==> OptEqualsIgnoreCase(d.audience, Some("children"))
                         || (d.genres.Some? && exists x :: x in r.genres && EqualsIgnoreCase(x, "children")))
  {
  }

  // ---------------------------------------------------------------------
  // The listing loop of GetProgramsAsync, lines 126-184

  /** Every details entry has an id and no two share one. */
  predicate KeysValid(details: seq<ProgramDetails>) {
    && (forall i | 0 <= i < |details| :: details[i].programId.Some?)
    && (forall i, j | 0 <= i < j < |details| :: details[i].programId != details[j].programId)
  }

  /** `m` maps exactly the ids of `details` to their entries. */
  predicate IndexesDetails(m: map<string, ProgramDetails>, details: seq<ProgramDetails>) {
    && (forall i | 0 <= i < |details| :: details[i].programId.Some? && details[i].programId.value in m
                                          && m[details[i].programId.value] == details[i])
    && (forall id | id in m :: exists i | 0 <= i < |details| :: details[i].programId == Some(id))
  }

  /**
   * `programDetails.ToDictionary(p => p.ProgramId)`: a null id or the
   * repetition of an id throws, the first offender in list order.
   */
  function ToDictionary(details: seq<ProgramDetails>): Result<map<string, ProgramDetails>, ProgramError>
    decreases |details|
  {
    if details == [] then Success(map[])
    else
      var n := |details| - 1;
      match ToDictionary(details[..n])
      case Failure(e) => Failure(e)
      case Success(m) =>
        var id := details[n].programId;
        if id.None? then Failure(NullProgramId)
        else if id.value in m then Failure(DuplicateProgramId(id.value))
        else Success(m[id.value := details[n]])
  }

  /** `ToDictionary` succeeds exactly when every id is present and no id repeats. */
  lemma {:induction false} ToDictionarySucceedsIff(details: seq<ProgramDetails>)
    ensures ToDictionary(details).Success? <==> KeysValid(details)
    decreases |details|
  {
    if details != [] {
      var n := |details| - 1;
      var init := details[..n];
      ToDictionarySucceedsIff(init);
      assert forall i | 0 <= i < n :: init[i] == details[i];
      if ToDictionary(init).Success? {
        ToDictionaryIndexes(init);
        var m := ToDictionary(init).value;
        var id := details[n].programId;
        if id.Some? && id.value in m {
          var i :| 0 <= i < n && init[i].programId == Some(id.value);
          assert details[i].programId == details[n].programId;
        }
      }
    }
  }

  /** A successful `ToDictionary` maps each id to its entry and holds no other key. */
  lemma {:induction false} ToDictionaryIndexes(details: seq<ProgramDetails>)
    requires ToDictionary(details).Success?
    ensures IndexesDetails(ToDictionary(details).value, details)
    decreases |details|
  {
    if details != [] {
      var n := |details| - 1;
      var init := details[..n];
      assert forall i | 0 <= i < n :: init[i] == details[i];
      ToDictionaryIndexes(init);
      var m := ToDictionary(init).value;
      var id := details[n].programId.value;
      var m' := m[id := details[n]];
      assert ToDictionary(details).value == m';
      forall i | 0 <= i < |details|
        ensures details[i].programId.Some? && details[i].programId.value in m' && m'[details[i].programId.value] == details[i]
      {
        if i < n {
          assert init[i].programId.value != id;
        }
      }
      forall k | k in m' ensures exists i | 0 <= i < |details| :: details[i].programId == Some(k) {
        if k != id {
          var i :| 0 <= i < n && init[i].programId == Some(k);
          assert details[i].programId == Some(k);
        }
      }
    }
  }

  /** Lines 152-171 write the three image fields of the shared details entry. */
  function Decorate(d: ProgramDetails, roles: Images.Roles): (r: ProgramDetails)
    ensures r.primaryImage == roles.primary && r.thumbImage == roles.thumb && r.backdropImage == roles.backdrop
    ensures r.(primaryImage := d.primaryImage, thumbImage := d.thumbImage, backdropImage := d.backdropImage) == d
  {
    d.(primaryImage := roles.primary, thumbImage := roles.thumb, backdropImage := roles.backdrop)
  }

  /** Decorating twice with the same roles is decorating once. */
  lemma DecorateIdempotent(d: ProgramDetails, roles: Images.Roles)
    ensures Decorate(Decorate(d, roles), roles) == Decorate(d, roles)
  {
  }

  /**
   * The artwork entry of a programme id, when there is an artwork list:
   * the first entry for its 10-character root (-1 for none).
   */
  function ArtworkIndex(images: seq<Images.ShowImages>, programId: string): int
    requires |programId| >= 10
  {
    Images.FindImages(images, programId[..10])
  }

  /** The artwork list exists and has at least one entry for `FindIndex` to test. */
  predicate HasArtworkEntries(images: Option<seq<Images.ShowImages>>) {
    images.Some? && images.value != []
  }

  /**
   * The details `GetProgram` sees for schedule entry `s`: the dictionary
   * entry with the roles of its artwork written in when there is an
   * artwork entry for its root. A null id or an id absent from the
   * dictionary throws; so does an id shorter than 10 characters, but only
   * when the artwork list has an entry, because the slice `ProgramId[..10]`
   * sits inside the `FindIndex` predicate and `FindIndex` calls it once per
   * entry.
   */
  function DetailsFor(s: ProgramDto, dict: map<string, ProgramDetails>, images: Option<seq<Images.ShowImages>>): Result<ProgramDetails, ProgramError>
  {
    if s.programId.None? then Failure(NullProgramId)
    else
      var pid := s.programId.value;
      if HasArtworkEntries(images) && |pid| < 10 then Failure(ShortProgramId(pid))
      else if pid !in dict then Failure(MissingDetails(pid))
      else if HasArtworkEntries(images) && ArtworkIndex(images.value, pid) >= 0 then
        Success(Decorate(dict[pid], Images.AssignRoles(images.value[ArtworkIndex(images.value, pid)].data)))
      else Success(dict[pid])
  }

  /** One airing: the record `GetProgram` builds from the details the loop looks up for it. */
  function AiringSpec(channelId: string, s: ProgramDto, dict: map<string, ProgramDetails>,
                      images: Option<seq<Images.ShowImages>>,
                      getDate: string -> Option<nat>, parseDate: string -> Option<CalendarDate>): Result<ProgramInfo, ProgramError>
  {
    match DetailsFor(s, dict, images)
    case Failure(e) => Failure(e)
    case Success(d) => ProgramSpec(channelId, s, d, getDate, parseDate)
  }

  /**
   * The values of a sequence of outcomes, in order, or the first failure:
   * what appending the results of a loop body to a list does when the body
   * may throw.
   */
  function Collect<T, E>(rs: seq<Result<T, E>>): Result<seq<T>, E>
    decreases |rs|
  {
    if rs == [] then Success([])
    else
      match Collect(rs[..|rs| - 1])
      case Failure(e) => Failure(e)
      case Success(xs) =>
        match rs[|rs| - 1]
        case Failure(e) => Failure(e)
        case Success(x) => Success(xs + [x])
  }

  /** `Collect` succeeds exactly when every outcome does, and then lists their values in order. */
  lemma {:induction false} CollectRecords<T, E>(rs: seq<Result<T, E>>)
    ensures Collect(rs).Success? <==> forall i | 0 <= i < |rs| :: rs[i].Success?
    ensures Collect(rs).Success? ==>
      && |Collect(rs).value| == |rs|
      && forall i | 0 <= i < |rs| :: rs[i] == Success(Collect(rs).value[i])
    decreases |rs|
  {
    if rs != [] {
      var n := |rs| - 1;
      CollectRecords(rs[..n]);
      assert forall i | 0 <= i < n :: rs[..n][i] == rs[i];
    }
  }

  /** A failing `Collect` fails with the error of its first failing outcome. */
  lemma {:induction false} CollectFirstFailure<T, E>(rs: seq<Result<T, E>>)
    requires Collect(rs).Failure?
    ensures exists k | 0 <= k < |rs| ::
      rs[k].Failure? && rs[k].error == Collect(rs).error && forall j | 0 <= j < k :: rs[j].Success?
    decreases |rs|
  {
    var n := |rs| - 1;
    var init := rs[..n];
    assert forall i | 0 <= i < n :: init[i] == rs[i];
    if Collect(init).Failure? {
      CollectFirstFailure(init);
      var k :| 0 <= k < n && init[k].Failure? && init[k].error == Collect(init).error
               && forall j | 0 <= j < k :: init[j].Success?;
      assert rs[k] == init[k];
    } else {
      CollectRecords(init);
    }
  }

  /** The outcome of every airing of `schedules`, in order. */
  function Airings(channelId: string, schedules: seq<ProgramDto>, dict: map<string, ProgramDetails>,
                   images: Option<seq<Images.ShowImages>>,
                   getDate: string -> Option<nat>, parseDate: string -> Option<CalendarDate>): (rs: seq<Result<ProgramInfo, ProgramError>>)
    ensures |rs| == |schedules|
    ensures forall i | 0 <= i < |schedules| :: rs[i] == AiringSpec(channelId, schedules[i], dict, images, getDate, parseDate)
  {
    seq(|schedules|, i requires 0 <= i < |schedules| => AiringSpec(channelId, schedules[i], dict, images, getDate, parseDate))
  }

  /** The records of the loop of lines 134-182 for `schedules`, or the first exception. */
  function ListingSpec(channelId: string, schedules: seq<ProgramDto>, dict: map<string, ProgramDetails>,
                       images: Option<seq<Images.ShowImages>>,
                       getDate: string -> Option<nat>, parseDate: string -> Option<CalendarDate>): Result<seq<ProgramInfo>, ProgramError>
    decreases |schedules|
  {
    if schedules == [] then Success([])
    else
      var n := |schedules| - 1;
      match ListingSpec(channelId, schedules[..n], dict, images, getDate, parseDate)
      case Failure(e) => Failure(e)
      case Success(xs) =>
        match AiringSpec(channelId, schedules[n], dict, images, getDate, parseDate)
        case Failure(e) => Failure(e)
        case Success(x) => Success(xs + [x])
  }

  /** One more airing extends the listing of a prefix by its record, or fails with its exception. */
  lemma ListingStep(channelId: string, schedules: seq<ProgramDto>, i: nat, xs: seq<ProgramInfo>,
                    dict: map<string, ProgramDetails>, images: Option<seq<Images.ShowImages>>,
                    getDate: string -> Option<nat>, parseDate: string -> Option<CalendarDate>)
    requires i < |schedules|
    requires ListingSpec(channelId, schedules[..i], dict, images, getDate, parseDate) == Success(xs)
    ensures ListingSpec(channelId, schedules[..i + 1], dict, images, getDate, parseDate)
         == match AiringSpec(channelId, schedules[i], dict, images, getDate, parseDate)
            case Failure(e) => Failure(e)
            case Success(x) => Success(xs + [x])
  {
    assert schedules[..i + 1][..i] == schedules[..i] && schedules[..i + 1][i] == schedules[i];
  }

  /** Once a prefix of the schedule fails, the whole listing fails with the same exception. */
  lemma {:induction false} ListingFailureSticks(channelId: string, schedules: seq<ProgramDto>, k: nat,
                                                dict: map<string, ProgramDetails>, images: Option<seq<Images.ShowImages>>,
                                                getDate: string -> Option<nat>, parseDate: string -> Option<CalendarDate>)
    requires k <= |schedules|
    requires ListingSpec(channelId, schedules[..k], dict, images, getDate, parseDate).Failure?
    ensures ListingSpec(channelId, schedules, dict, images, getDate, parseDate)
         == ListingSpec(channelId, schedules[..k], dict, images, getDate, parseDate)
    decreases |schedules|
  {
    if k == |schedules| {
      assert schedules[..k] == schedules;
    } else {
      var n := |schedules| - 1;
      assert schedules[..n][..k] == schedules[..k];
      ListingFailureSticks(channelId, schedules[..n], k, dict, images, getDate, parseDate);
    }
  }

  /** The listing collects the outcomes of the airings. */
  lemma {:induction false} ListingIsCollect(channelId: string, schedules: seq<ProgramDto>,
                                            dict: map<string, ProgramDetails>, images: Option<seq<Images.ShowImages>>,
                                            getDate: string -> Option<nat>, parseDate: string -> Option<CalendarDate>)
    ensures ListingSpec(channelId, schedules, dict, images, getDate, parseDate)
         == Collect(Airings(channelId, schedules, dict, images, getDate, parseDate))
    decreases |schedules|
  {
    if schedules != [] {
      var n := |schedules| - 1;
      var rs := Airings(channelId, schedules, dict, images, getDate, parseDate);
      ListingIsCollect(channelId, schedules[..n], dict, images, getDate, parseDate);
      assert Airings(channelId, schedules[..n], dict, images, getDate, parseDate) == rs[..n];
    }
  }

  /**
   * The listing succeeds exactly when every airing does, and then holds one
   * record per airing, in schedule order.
   */
  lemma ListingRecords(channelId: string, schedules: seq<ProgramDto>,
                       dict: map<string, ProgramDetails>, images: Option<seq<Images.ShowImages>>,
                       getDate: string -> Option<nat>, parseDate: string -> Option<CalendarDate>)
    ensures ListingSpec(channelId, schedules, dict, images, getDate, parseDate).Success?
        <==> forall i | 0 <= i < |schedules| :: AiringSpec(channelId, schedules[i], dict, images, getDate, parseDate).Success?
    ensures ListingSpec(channelId, schedules, dict, images, getDate, parseDate).Success? ==>
      var xs := ListingSpec(channelId, schedules, dict, images, getDate, parseDate).value;
      && |xs| == |schedules|
      && forall i | 0 <= i < |schedules| :: AiringSpec(channelId, schedules[i], dict, images, getDate, parseDate) == Success(xs[i])
  {
    ListingIsCollect(channelId, schedules, dict, images, getDate, parseDate);
    CollectRecords(Airings(channelId, schedules, dict, images, getDate, parseDate));
  }

  /** A failing listing fails with the exception of its first failing airing. */
  lemma ListingFirstFailure(channelId: string, schedules: seq<ProgramDto>,
                            dict: map<string, ProgramDetails>, images: Option<seq<Images.ShowImages>>,
                            getDate: string -> Option<nat>, parseDate: string -> Option<CalendarDate>)
    requires ListingSpec(channelId, schedules, dict, images, getDate, parseDate).Failure?
    ensures exists k | 0 <= k < |schedules| ::
      && AiringSpec(channelId, schedules[k], dict, images, getDate, parseDate).Failure?
      && AiringSpec(channelId, schedules[k], dict, images, getDate, parseDate).error
         == ListingSpec(channelId, schedules, dict, images, getDate, parseDate).error
      && forall j | 0 <= j < k :: AiringSpec(channelId, schedules[j], dict, images, getDate, parseDate).Success?
  {
    ListingIsCollect(channelId, schedules, dict, images, getDate, parseDate);
    CollectFirstFailure(Airings(channelId, schedules, dict, images, getDate, parseDate));
  }

  /**
   * Two airings of one programme on one channel at different instants get
   * different record ids.
   */
  lemma ListingIdsDistinct(channelId: string, schedules: seq<ProgramDto>,
                           dict: map<string, ProgramDetails>, images: Option<seq<Images.ShowImages>>,
                           getDate: string -> Option<nat>, parseDate: string -> Option<CalendarDate>,
                           xs: seq<ProgramInfo>, i: nat, j: nat)
    requires ListingSpec(channelId, schedules, dict, images, getDate, parseDate) == Success(xs)
    requires i < |schedules| && j < |schedules|
    requires schedules[i].programId == schedules[j].programId
    requires StartOf(schedules[i], getDate) != StartOf(schedules[j], getDate)
    ensures |xs| == |schedules| && xs[i].id != xs[j].id
  {
    ListingRecords(channelId, schedules, dict, images, getDate, parseDate);
    var di := DetailsFor(schedules[i], dict, images).value;
    var dj := DetailsFor(schedules[j], dict, images).value;
    ProgramIdentity(channelId, schedules[i], di, getDate, parseDate);
    ProgramIdentity(channelId, schedules[j], dj, getDate, parseDate);
    IdentityKeysDiffer(schedules[i].programId.GetOr(""), channelId,
                       StartOf(schedules[i], getDate).value, StartOf(schedules[j], getDate).value);
  }

  /**
   * An id of any length, short ones included, gets its dictionary entry when
   * the artwork list is null or empty: the slice of line 147 is never
   * evaluated then, and line 180 looks the whole id up.
   */
  lemma ShortIdWithoutArtworkEntries(s: ProgramDto, dict: map<string, ProgramDetails>, images: Option<seq<Images.ShowImages>>)
    requires !HasArtworkEntries(images) && s.programId.Some? && s.programId.value in dict
    ensures DetailsFor(s, dict, images) == Success(dict[s.programId.value])
  {
  }

  /** An empty artwork list builds the same listing as a null one, short ids included. */
  lemma {:induction false} EmptyArtworkListIsNull(channelId: string, schedules: seq<ProgramDto>, dict: map<string, ProgramDetails>,
                                                 getDate: string -> Option<nat>, parseDate: string -> Option<CalendarDate>)
    ensures ListingSpec(channelId, schedules, dict, Some([]), getDate, parseDate)
         == ListingSpec(channelId, schedules, dict, None, getDate, parseDate)
    decreases |schedules|
  {
    if schedules != [] {
      var n := |schedules| - 1;
      EmptyArtworkListIsNull(channelId, schedules[..n], dict, getDate, parseDate);
      assert DetailsFor(schedules[n], dict, Some([])) == DetailsFor(schedules[n], dict, None);
    }
  }

  /**
   * The dictionary during the loop: every entry is the original one, or the
   * original with the roles of its own artwork entry written in.
   */
  predicate DictInvariant(dict: map<string, ProgramDetails>, dict0: map<string, ProgramDetails>, images: Option<seq<Images.ShowImages>>) {
    && dict.Keys == dict0.Keys
    && forall pid | pid in dict ::
         dict[pid] == dict0[pid]
         || (images.Some? && |pid| >= 10 && ArtworkIndex(images.value, pid) >= 0
             && dict[pid] == Decorate(dict0[pid], Images.AssignRoles(images.value[ArtworkIndex(images.value, pid)].data)))
  }

  /** Writing the roles of an id's artwork into its entry keeps the dictionary invariant. */
  lemma DecorateKeepsInvariant(dict: map<string, ProgramDetails>, dict0: map<string, ProgramDetails>,
                               images: seq<Images.ShowImages>, pid: string)
    requires DictInvariant(dict, dict0, Some(images))
    requires pid in dict && |pid| >= 10 && ArtworkIndex(images, pid) >= 0
    ensures var roles := Images.AssignRoles(images[ArtworkIndex(images, pid)].data);
      DictInvariant(dict[pid := Decorate(dict[pid], roles)], dict0, Some(images))
      && dict[pid := Decorate(dict[pid], roles)][pid] == Decorate(dict0[pid], roles)
  {
    DecorateIdempotent(dict0[pid], Images.AssignRoles(images[ArtworkIndex(images, pid)].data));
  }

  /**
   * Lines 141-171 and the lookup of line 181 for one schedule entry: writes
   * the roles into the dictionary entry when the entry's root has artwork,
   * and yields the entry `GetProgram` reads.
   */
  method EntryDetails(schedule: ProgramDto, dict: map<string, ProgramDetails>, ghost dict0: map<string, ProgramDetails>,
                      images: Option<seq<Images.ShowImages>>)
    returns (r: Result<ProgramDetails, ProgramError>, dict': map<string, ProgramDetails>)
    requires DictInvariant(dict, dict0, images)
    ensures DictInvariant(dict', dict0, images)
    ensures r == DetailsFor(schedule, dict0, images)
  {
    dict' := dict;
    if schedule.programId.None? {
      return Failure(NullProgramId), dict';
    }
    var pid := schedule.programId.value;
    if images.Some? && images.value != [] {
      if |pid| < 10 {
        return Failure(ShortProgramId(pid)), dict';
      }
      var imageIndex := Images.FindImages(images.value, pid[..10]);
      if imageIndex > -1 {
        if pid !in dict' {
          return Failure(MissingDetails(pid)), dict';
        }
        var roles := Images.AssignRoles(images.value[imageIndex].data);
        DecorateKeepsInvariant(dict', dict0, images.value, pid);
        dict' := dict'[pid := Decorate(dict'[pid], roles)];
        return Success(dict'[pid]), dict';
      }
    }
    if pid !in dict' {
      return Failure(MissingDetails(pid)), dict';
    }
    return Success(dict'[pid]), dict';
  }

  /** The body of the loop of lines 134-182 for one schedule entry. */
  method Airing(channelId: string, schedule: ProgramDto, dict: map<string, ProgramDetails>, ghost dict0: map<string, ProgramDetails>,
                images: Option<seq<Images.ShowImages>>,
                getDate: string -> Option<nat>, parseDate: string -> Option<CalendarDate>)
    returns (r: Result<ProgramInfo, ProgramError>, dict': map<string, ProgramDetails>)
    requires DictInvariant(dict, dict0, images)
    ensures DictInvariant(dict', dict0, images)
    ensures r == AiringSpec(channelId, schedule, dict0, images, getDate, parseDate)
  {
    var entry;
    entry, dict' := EntryDetails(schedule, dict, dict0, images);
    if entry.Failure? {
      return Failure(entry.error), dict';
    }
    r := GetProgram(channelId, schedule, entry.value, getDate, parseDate);
  }

  /**
   * The loop of lines 134-182 over the flattened schedule: it writes the
   * artwork roles into the shared dictionary entry, in place, and then
   * builds the record from that entry.
   */
  method BuildListing(channelId: string, schedules: seq<ProgramDto>, dict0: map<string, ProgramDetails>,
                      images: Option<seq<Images.ShowImages>>,
                      getDate: string -> Option<nat>, parseDate: string -> Option<CalendarDate>)
    returns (r: Result<seq<ProgramInfo>, ProgramError>)
    ensures r == ListingSpec(channelId, schedules, dict0, images, getDate, parseDate)
  {
    var dict := dict0;
    var programsInfo: seq<ProgramInfo> := [];
    for i := 0 to |schedules|
      invariant DictInvariant(dict, dict0, images)
      invariant ListingSpec(channelId, schedules[..i], dict0, images, getDate, parseDate) == Success(programsInfo)
    {
      ListingStep(channelId, schedules, i, programsInfo, dict0, images, getDate, parseDate);
      var program;
      program, dict := Airing(channelId, schedules[i], dict, dict0, images, getDate, parseDate);
      if program.Failure? {
        ListingFailureSticks(channelId, schedules, i + 1, dict0, images, getDate, parseDate);
        return Failure(program.error);
      }
      programsInfo := programsInfo + [program.value];
    }
    assert schedules[..|schedules|] == schedules;
    return Success(programsInfo);
  }
}
