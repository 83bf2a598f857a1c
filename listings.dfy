/**
 * `GetProgramsAsync` (lines 78-184) from the station id to the list of
 * records: the requests it sends, in order, and what it makes of the three
 * payloads. The token is the one `GetToken` returned; each payload is the
 * deserialised reply, None when the request or its JSON failed.
 */
module Listings {
  import opened Wrappers
  import opened Text
  import Requests
  import Images
  import opened Programs

  /** `DayDto`: the airings of one day of the schedule. */
  datatype Day = Day(programs: seq<ProgramDto>)

  /**
   * A request `GetProgramsAsync` sends, with the value of its `token`
   * header: the schedules and details requests carry the token (lines 114
   * and 121), the artwork request is built without one (lines 474-477).
   */
  datatype Request =
    | SchedulesRequest(stationId: string, days: seq<nat>, token: Option<string>)   // POST /schedules, lines 96-116
    | ProgramsRequest(body: string, token: Option<string>)                         // POST /programs, lines 120-126
    | MetadataRequest(body: string, token: Option<string>)                         // POST /metadata/programs, lines 474-477

  /** `dailySchedules.SelectMany(d => d.Programs)`: every airing, day after day. */
  function Flatten(days: seq<Day>): (s: seq<ProgramDto>)
    ensures forall x :: x in s <==> exists i | 0 <= i < |days| :: x in days[i].programs
    decreases |days|
  {
    if days == [] then []
    else
      var n := |days| - 1;
      var init := Flatten(days[..n]);
      assert forall i | 0 <= i < n :: days[..n][i] == days[i];
      init + days[n].programs
  }

  /** The program id of every airing, in order. */
  function ScheduledIds(schedules: seq<ProgramDto>): (ids: seq<Option<string>>)
    ensures |ids| == |schedules| && forall i | 0 <= i < |schedules| :: ids[i] == schedules[i].programId
  {
    seq(|schedules|, i requires 0 <= i < |schedules| => schedules[i].programId)
  }

  /** `string.Join` writes a null element as the empty string. */
  function JoinText(ids: seq<Option<string>>): (r: seq<string>)
    ensures |r| == |ids| && forall i | 0 <= i < |ids| :: r[i] == ids[i].GetOr("")
  {
    seq(|ids|, i requires 0 <= i < |ids| => ids[i].GetOr(""))
  }

  /**
   * The body of POST /programs for the airings `schedules`, lines 123-124:
   * the distinct ids, joined as line 124 writes them.
   */
  function ProgramsRequestBody(schedules: seq<ProgramDto>): string {
    Requests.ProgramsBodyAsWritten(JoinText(Requests.Distinct(ScheduledIds(schedules))))
  }

  /**
   * Lines 131-133: the ids of the details that have artwork, in order. They
   * are read after `ToDictionary` succeeded, so none is null.
   */
  function ArtworkIds(details: seq<ProgramDetails>): (ids: seq<string>)
    ensures |ids| <= |details|
    ensures forall x :: x in ids <==> exists i | 0 <= i < |details| :: details[i].hasImageArtwork && details[i].programId.GetOr("") == x
    decreases |details|
  {
    if details == [] then []
    else
      var n := |details| - 1;
      var init := ArtworkIds(details[..n]);
      assert forall i | 0 <= i < n :: details[..n][i] == details[i];
      if details[n].hasImageArtwork then init + [details[n].programId.GetOr("")] else init
  }

  /** The filter works piecewise, so the artwork ids stay in details order. */
  lemma {:induction false} ArtworkIdsConcat(a: seq<ProgramDetails>, b: seq<ProgramDetails>)
    ensures ArtworkIds(a + b) == ArtworkIds(a) + ArtworkIds(b)
    decreases |b|
  {
    if b == [] {
      assert a + b == a;
    } else {
      var n := |b| - 1;
      assert (a + b)[..|a + b| - 1] == a + b[..n] && (a + b)[|a + b| - 1] == b[n];
      ArtworkIdsConcat(a, b[..n]);
    }
  }

  /** The artwork list `GetImageForPrograms` returns when its body could be built. */
  function ArtworkList(ids: seq<string>, artwork: Option<Option<seq<Images.ShowImages>>>): Option<seq<Images.ShowImages>> {
    if ids == [] || artwork.None? then Some([]) else artwork.value
  }

  /**
   * What `GetProgramsAsync` returns, once a station id and a token are at
   * hand, or the exception it throws first.
   */
  function ProgramsOutcome(station: string, days: Option<seq<Day>>, details: Option<seq<ProgramDetails>>,
                           artwork: Option<Option<seq<Images.ShowImages>>>,
                           getDate: string -> Option<nat>, parseDate: string -> Option<CalendarDate>): Result<seq<ProgramInfo>, ProgramError>
  {
    if days.None? || details.None? then Failure(RequestFailed)
    else
      match ToDictionary(details.value)
      case Failure(e) => Failure(e)
      case Success(dict) =>
        var ids := ArtworkIds(details.value);
        var k := Requests.FirstShort(ids);
        if k >= 0 then Failure(ShortArtworkId(ids[k]))
        else ListingSpec(station, Flatten(days.value), dict, ArtworkList(ids, artwork), getDate, parseDate)
  }

  /** The calendar days `first` to `last`, both included. */
  function DaySpan(first: nat, last: nat): (d: seq<nat>)
    ensures |d| == (if first <= last then last - first + 1 else 0)
    ensures forall i | 0 <= i < |d| :: d[i] == first + i
  {
    seq(if first <= last then last - first + 1 else 0, i requires 0 <= i => first + i)
  }

  /** The artwork ids can go into the body of POST /metadata/programs: there are some, none shorter than 10. */
  predicate ArtworkRequested(details: seq<ProgramDetails>) {
    ToDictionary(details).Success? && ArtworkIds(details) != [] && Requests.FirstShort(ArtworkIds(details)) == -1
  }

  /**
   * The requests sent after the schedules request, in order: POST /programs
   * with the token once the schedules arrived (lines 120-126), then POST
   * /metadata/programs without a token header (lines 474-477) when the
   * details arrived and there are artwork ids to ask for.
   */
  function FollowUps(token: string, days: Option<seq<Day>>, details: Option<seq<ProgramDetails>>): seq<Request> {
    if days.None? then []
    else
      [ProgramsRequest(ProgramsRequestBody(Flatten(days.value)), Some(token))]
      + if details.Some? && ArtworkRequested(details.value) then
          [MetadataRequest("[" + Join(",", Requests.Quotes(Requests.Roots(ArtworkIds(details.value)))) + "]", None)]
        else []
  }

  /**
   * At most two requests follow the schedules request: the details request,
   * carrying the token, iff the schedules arrived; the artwork request,
   * without a token, iff the details arrived and name artwork worth asking for.
   */
  lemma RequestsSent(token: string, days: Option<seq<Day>>, details: Option<seq<ProgramDetails>>)
    ensures var sent := FollowUps(token, days, details);
      && |sent| <= 2
      && (|sent| >= 1 <==> days.Some?)
      && (|sent| >= 1 ==> sent[0] == ProgramsRequest(ProgramsRequestBody(Flatten(days.value)), Some(token)))
      && (|sent| == 2 <==> days.Some? && details.Some? && ArtworkRequested(details.value))
      && (|sent| == 2 ==> sent[1].MetadataRequest? && sent[1].token.None?)
  {
  }

  /**
   * Lines 118-181, once the schedules were asked for: the requests for the
   * details and the artwork, and the records built from the replies.
   */
  method FetchPrograms(station: string, token: string, days: Option<seq<Day>>, details: Option<seq<ProgramDetails>>,
                       artwork: Option<Option<seq<Images.ShowImages>>>,
                       getDate: string -> Option<nat>, parseDate: string -> Option<CalendarDate>)
    returns (r: Result<seq<ProgramInfo>, ProgramError>, sent: seq<Request>)
    ensures r == ProgramsOutcome(station, days, details, artwork, getDate, parseDate)
    ensures sent == FollowUps(token, days, details)
  {
    sent := [];
    if days.None? {
      return Failure(RequestFailed), sent;
    }
    var schedules := Flatten(days.value);
    sent := [ProgramsRequest(ProgramsRequestBody(schedules), Some(token))];
    if details.None? {
      return Failure(RequestFailed), sent;
    }
    var dict := ToDictionary(details.value);
    if dict.Failure? {
      return Failure(dict.error), sent;
    }
    var ids := ArtworkIds(details.value);
    var images, body := Images.GetImageForPrograms(ids, artwork);
    if images.Failure? {
      return Failure(ShortArtworkId(images.error.programId)), sent;
    }
    if body.Some? {
      sent := sent + [MetadataRequest(body.value, None)];
    }
    r := BuildListing(station, schedules, dict.value, images.value, getDate, parseDate);
  }

  /**
   * `GetProgramsAsync` for channel `channelId` and the window `startUtc` to
   * `endUtc` (`startLocal`, `endLocal` being their local readings). `sent`
   * lists the requests made: the schedules of the normalised station for
   * every day of the window, then the details of the distinct programmes,
   * then the artwork of those that have some.
   */
  method GetProgramsAsync(channelId: Option<string>, token: Option<string>,
                          startUtc: nat, endUtc: nat, startLocal: nat, endLocal: nat,
                          days: Option<seq<Day>>, details: Option<seq<ProgramDetails>>,
                          artwork: Option<Option<seq<Images.ShowImages>>>,
                          getDate: string -> Option<nat>, parseDate: string -> Option<CalendarDate>)
    returns (r: Result<seq<ProgramInfo>, ProgramError>, sent: seq<Request>)
    ensures IsNullOrEmpty(channelId) ==> r == Failure(NullChannelId) && sent == []
    ensures !IsNullOrEmpty(channelId) && IsNullOrEmpty(token) ==> r == Success([]) && sent == []
    ensures !IsNullOrEmpty(channelId) && !IsNullOrEmpty(token)
            && Requests.PassesLastDay(Requests.FirstDay(startUtc, startLocal), Requests.LastDay(endUtc, endLocal)) ==>
      r == Failure(DayOutOfRange) && sent == []
    ensures !IsNullOrEmpty(channelId) && !IsNullOrEmpty(token)
            && !Requests.PassesLastDay(Requests.FirstDay(startUtc, startLocal), Requests.LastDay(endUtc, endLocal)) ==>
      var station := Requests.NormalizeChannelId(channelId).value;
      && r == ProgramsOutcome(station, days, details, artwork, getDate, parseDate)
      && sent == [SchedulesRequest(station, DaySpan(Requests.FirstDay(startUtc, startLocal), Requests.LastDay(endUtc, endLocal)), token)]
                 + FollowUps(token.value, days, details)
  {
    sent := [];
    if IsNullOrEmpty(channelId) {
      return Failure(NullChannelId), sent;
    }
    var station := TrimStart(Replace(channelId.value, Requests.HostSuffix, "", true), 'I');
    if IsNullOrEmpty(token) {
      return Success([]), sent;
    }
    var dates := Requests.GetScheduleRequestDates(startUtc, endUtc, startLocal, endLocal);
    if dates.Failure? {
      return Failure(DayOutOfRange), sent;
    }
    assert dates.value == DaySpan(Requests.FirstDay(startUtc, startLocal), Requests.LastDay(endUtc, endLocal));
    var more;
    r, more := FetchPrograms(station, token.value, days, details, artwork, getDate, parseDate);
    sent := [SchedulesRequest(station, dates.value, token)] + more;
  }

  /**
   * A successful listing holds one record per airing of the schedule, in
   * order, each on the normalised station and keyed by its programme,
   * start and station.
   */
  lemma OutcomeRecords(station: string, days: Option<seq<Day>>, details: Option<seq<ProgramDetails>>,
                       artwork: Option<Option<seq<Images.ShowImages>>>,
                       getDate: string -> Option<nat>, parseDate: string -> Option<CalendarDate>, xs: seq<ProgramInfo>)
    requires ProgramsOutcome(station, days, details, artwork, getDate, parseDate) == Success(xs)
    ensures days.Some? && details.Some? && KeysValid(details.value)
    ensures |xs| == |Flatten(days.value)|
    ensures forall i | 0 <= i < |xs| ::
      var s := Flatten(days.value)[i];
      && StartOf(s, getDate).Some?
      && xs[i].channelId == station
      && xs[i].startDate == StartOf(s, getDate).value
      && xs[i].id == IdentityKey(s.programId.GetOr(""), xs[i].startDate, station)
  {
    ToDictionarySucceedsIff(details.value);
    var dict := ToDictionary(details.value).value;
    var ids := ArtworkIds(details.value);
    var images := ArtworkList(ids, artwork);
    var schedules := Flatten(days.value);
    ListingRecords(station, schedules, dict, images, getDate, parseDate);
    forall i | 0 <= i < |xs|
      ensures StartOf(schedules[i], getDate).Some?
      ensures xs[i].channelId == station
      ensures xs[i].startDate == StartOf(schedules[i], getDate).value
      ensures xs[i].id == IdentityKey(schedules[i].programId.GetOr(""), xs[i].startDate, station)
    {
      ProgramIdentity(station, schedules[i], DetailsFor(schedules[i], dict, images).value, getDate, parseDate);
    }
  }

  /**
   * The distinct ids of airings whose ids are free of quotes and
   * backslashes: each plain, none twice, exactly the scheduled ones.
   */
  lemma DistinctScheduledIds(schedules: seq<ProgramDto>)
    requires forall i | 0 <= i < |schedules| :: schedules[i].programId.Some? && Requests.Plain(schedules[i].programId.value)
    ensures var ids := JoinText(Requests.Distinct(ScheduledIds(schedules)));
      && (forall i | 0 <= i < |ids| :: Requests.Plain(ids[i]))
      && (forall i, j | 0 <= i < j < |ids| :: ids[i] != ids[j])
      && (forall x :: x in ids <==> exists i | 0 <= i < |schedules| :: schedules[i].programId == Some(x))
  {
    var all := ScheduledIds(schedules);
    var ds := Requests.Distinct(all);
    var ids := JoinText(ds);
    forall i | 0 <= i < |ds| ensures ds[i].Some? && ids[i] == ds[i].value && Requests.Plain(ids[i]) {
      assert ds[i] in all;
    }
    forall x ensures x in ids <==> exists i | 0 <= i < |schedules| :: schedules[i].programId == Some(x) {
      if x in ids {
        var k :| 0 <= k < |ids| && ids[k] == x;
        assert ds[k] == Some(x) && Some(x) in all;
      }
      if exists i | 0 <= i < |schedules| :: schedules[i].programId == Some(x) {
        var i :| 0 <= i < |schedules| && schedules[i].programId == Some(x);
        assert all[i] == Some(x) && Some(x) in ds;
        var k :| 0 <= k < |ds| && ds[k] == Some(x);
        assert ids[k] == x;
      }
    }
  }

  /**
   * When every airing has an id free of quotes and backslashes, the body of
   * POST /programs is a JSON array naming every scheduled programme exactly
   * once; for a schedule without airings it names one empty id.
   */
  lemma ProgramsRequestNamesEachOnce(schedules: seq<ProgramDto>)
    requires forall i | 0 <= i < |schedules| :: schedules[i].programId.Some? && Requests.Plain(schedules[i].programId.value)
    ensures schedules == [] ==> Requests.DecodeArray(ProgramsRequestBody(schedules)) == Some([""])
    ensures schedules != [] ==> exists ids ::
      && Requests.DecodeArray(ProgramsRequestBody(schedules)) == Some(ids)
      && (forall i, j | 0 <= i < j < |ids| :: ids[i] != ids[j])
      && (forall x :: x in ids <==> exists i | 0 <= i < |schedules| :: schedules[i].programId == Some(x))
  {
    var ids := JoinText(Requests.Distinct(ScheduledIds(schedules)));
    DistinctScheduledIds(schedules);
    if schedules == [] {
      assert ids == [];
      Requests.ProgramsBodyAsWrittenEmpty();
    } else {
      assert schedules[0].programId.value in ids;
      Requests.ProgramsBodyAsWrittenNonEmpty(ids);
      Requests.ProgramsBodyRoundTrip(ids);
    }
  }
}
