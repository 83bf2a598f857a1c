/**
 * The channel side of the Schedules Direct provider: `GetChannelNumber`,
 * the mapping loop of `GetChannels` from a lineup's station map to
 * `ChannelInfo` records, and `NormalizeName`.
 */
module Channels {
  import opened Wrappers
  import opened Text
  import opened Numbers

  /** `MapDto`: one entry of a lineup's channel map. */
  datatype MapEntry = MapEntry(stationId: Option<string>, logicalChannelNumber: Option<string>, channel: Option<string>,
                               atscMajor: int, atscMinor: int)

  /** `LogoDto`: only the address is read. */
  datatype Logo = Logo(url: Option<string>)

  /** `StationDto`, the fields `GetChannels` reads. */
  datatype Station = Station(stationId: Option<string>, callsign: Option<string>, name: Option<string>, logo: Option<Logo>)

  /** `ChannelInfo`, the fields `GetChannels` sets. */
  datatype ChannelInfo = ChannelInfo(id: Option<string>, callSign: Option<string>, number: string, name: string, imageUrl: Option<string>)

  /** The lineup reply `ChannelDto`: the channel map and the stations, which may be null. */
  datatype Lineup = Lineup(map_: seq<MapEntry>, stations: Option<seq<Station>>)

  /** The exceptions of `GetChannels`. */
  datatype ChannelError =
    | ListingsIdRequired   // line 765
    | TokenRequired        // line 772
    | RequestFailed        // the request or its JSON failed

  /** The decimal form of a positive number does not start with '0'. */
  lemma {:induction false} FormatNatNoLeadingZero(n: nat)
    requires n > 0
    ensures FormatNat(n)[0] != '0'
    decreases n
  {
    if n >= 10 {
      FormatNatNoLeadingZero(n / 10);
      assert FormatNat(n)[0] == FormatNat(n / 10)[0];
    }
  }

  /**
   * `GetChannelNumber` (lines 196-211): the logical channel number, else the
   * channel, else "major.minor" from the ATSC numbers, the first that is not
   * blank; then the leading zeros are removed.
   */
  function GetChannelNumber(m: MapEntry): string {
    TrimStart(NumberSource(m), '0')
  }

  /** The untrimmed number: the first of the three sources that is not blank. */
  function NumberSource(m: MapEntry): string {
    if !IsNullOrWhiteSpace(m.logicalChannelNumber) then m.logicalChannelNumber.value
    else if !IsNullOrWhiteSpace(m.channel) then m.channel.value
    else AtscNumber(m.atscMajor, m.atscMinor)
  }

  /** `map.AtscMajor + "." + map.AtscMinor`. */
  function AtscNumber(major: int, minor: int): string {
    FormatInt(major) + "." + FormatInt(minor)
  }

  /**
   * The channel number is the chosen source with its leading zeros, and only
   * those, removed: the logical number wins over the channel, which wins
   * over the ATSC pair.
   */
  lemma ChannelNumberSource(m: MapEntry)
    ensures var n := GetChannelNumber(m);
      var src := if !IsNullOrWhiteSpace(m.logicalChannelNumber) then m.logicalChannelNumber.value
                 else if !IsNullOrWhiteSpace(m.channel) then m.channel.value
                 else AtscNumber(m.atscMajor, m.atscMinor);
      && (n == [] || n[0] != '0')
      && |n| <= |src| && n == src[|src| - |n|..]
      && forall i | 0 <= i < |src| - |n| :: src[i] == '0'
  {
    var src := NumberSource(m);
    var n := TrimStart(src, '0');
    assert GetChannelNumber(m) == n;
  }

  /**
   * With no logical number and no channel, a positive major number is kept
   * as written and a zero major number leaves only "." and the minor number.
   */
  lemma AtscChannelNumber(m: MapEntry)
    requires IsNullOrWhiteSpace(m.logicalChannelNumber) && IsNullOrWhiteSpace(m.channel)
    ensures m.atscMajor > 0 ==> GetChannelNumber(m) == FormatNat(m.atscMajor) + "." + FormatInt(m.atscMinor)
    ensures m.atscMajor == 0 ==> GetChannelNumber(m) == "." + FormatInt(m.atscMinor)
  {
    var s := AtscNumber(m.atscMajor, m.atscMinor);
    var rest := "." + FormatInt(m.atscMinor);
    assert NumberSource(m) == s;
    if m.atscMajor > 0 {
      FormatNatNoLeadingZero(m.atscMajor);
      assert s == FormatNat(m.atscMajor) + rest && s[0] == FormatNat(m.atscMajor)[0];
    } else if m.atscMajor == 0 {
      assert s == "0" + rest && s[1..] == rest && rest[0] == '.';
    }
  }

  /**
   * `allStations.Find(...)` of lines 790-791: the first station whose id
   * equals `stationId` ignoring case (null matching null), -1 for none.
   */
  function FindStation(stations: seq<Station>, stationId: Option<string>): (k: int)
    ensures -1 <= k < |stations|
    ensures k >= 0 ==> OptEqualsIgnoreCase(stations[k].stationId, stationId)
                       && forall j | 0 <= j < k :: !OptEqualsIgnoreCase(stations[j].stationId, stationId)
    ensures k == -1 ==> forall j | 0 <= j < |stations| :: !OptEqualsIgnoreCase(stations[j].stationId, stationId)
    decreases |stations|
  {
    if stations == [] then -1
    else if OptEqualsIgnoreCase(stations[0].stationId, stationId) then 0
    else
      var k := FindStation(stations[1..], stationId);
      assert forall j | 1 <= j < |stations| :: stations[j] == stations[1..][j - 1];
      if k == -1 then -1 else k + 1
  }

  /** The station a map entry is shown with: the one found, or a stub with the entry's id only. */
  function StationFor(stations: seq<Station>, m: MapEntry): Station {
    var k := FindStation(stations, m.stationId);
    if k >= 0 then stations[k] else Station(m.stationId, None, None, None)
  }

  /** The record lines 794-805 build for map entry `m`. */
  function ChannelFor(stations: seq<Station>, m: MapEntry): ChannelInfo {
    var station := StationFor(stations, m);
    var number := GetChannelNumber(m);
    ChannelInfo(
      station.stationId,
      station.callsign,
      number,
      if IsNullOrWhiteSpace(station.name) then number else station.name.value,
      if station.logo.Some? then station.logo.value.url else None)
  }

  /**
   * A channel takes the id, call sign, name and logo of the first station
   * matching its entry; without one it carries the entry's station id, no
   * call sign, no logo, and its number as its name.
   */
  lemma ChannelFromStation(stations: seq<Station>, m: MapEntry, k: int)
    ensures var c := ChannelFor(stations, m);
      && c.number == GetChannelNumber(m)
      && (0 <= k < |stations| && OptEqualsIgnoreCase(stations[k].stationId, m.stationId)
          && (forall j | 0 <= j < k :: !OptEqualsIgnoreCase(stations[j].stationId, m.stationId)) ==>
            && c.id == stations[k].stationId && c.callSign == stations[k].callsign
            && c.name == (if IsNullOrWhiteSpace(stations[k].name) then c.number else stations[k].name.value)
            && c.imageUrl == (if stations[k].logo.Some? then stations[k].logo.value.url else None))
      && ((forall j | 0 <= j < |stations| :: !OptEqualsIgnoreCase(stations[j].stationId, m.stationId)) ==>
            c == ChannelInfo(m.stationId, None, c.number, c.number, None))
  {
    var f := FindStation(stations, m.stationId);
    if 0 <= k < |stations| && OptEqualsIgnoreCase(stations[k].stationId, m.stationId)
       && (forall j | 0 <= j < k :: !OptEqualsIgnoreCase(stations[j].stationId, m.stationId)) {
      assert f == k;
    }
  }

  /** A channel's name is never blank unless its number is. */
  lemma ChannelNameNotBlank(stations: seq<Station>, m: MapEntry)
    requires !IsBlank(GetChannelNumber(m))
    ensures !IsBlank(ChannelFor(stations, m).name)
  {
  }

  /** The body of the loop of lines 786-811 for one map entry. */
  method MapChannel(allStations: seq<Station>, channel: MapEntry) returns (channelInfo: ChannelInfo)
    ensures channelInfo == ChannelFor(allStations, channel)
  {
    var channelNumber := GetChannelNumber(channel);
    var k := FindStation(allStations, channel.stationId);
    var station := if k >= 0 then allStations[k] else Station(channel.stationId, None, None, None);
    channelInfo := ChannelInfo(station.stationId, station.callsign, channelNumber,
                               if IsNullOrWhiteSpace(station.name) then channelNumber else station.name.value, None);
    if station.logo.Some? {
      channelInfo := channelInfo.(imageUrl := station.logo.value.url);
    }
  }

  /**
   * The mapping part of `GetChannels` (lines 762-813) for the lineup reply
   * `reply`: a missing listings id or token throws, and otherwise there is
   * one channel per map entry, in map order.
   */
  method GetChannels(listingsId: Option<string>, token: Option<string>, reply: Option<Lineup>)
    returns (r: Result<seq<ChannelInfo>, ChannelError>)
    ensures IsNullOrEmpty(listingsId) ==> r == Failure(ListingsIdRequired)
    ensures !IsNullOrEmpty(listingsId) && IsNullOrEmpty(token) ==> r == Failure(TokenRequired)
    ensures !IsNullOrEmpty(listingsId) && !IsNullOrEmpty(token) && reply.None? ==> r == Failure(RequestFailed)
    ensures !IsNullOrEmpty(listingsId) && !IsNullOrEmpty(token) && reply.Some? ==>
      && r.Success? && |r.value| == |reply.value.map_|
      && forall i | 0 <= i < |reply.value.map_| :: r.value[i] == ChannelFor(reply.value.stations.GetOr([]), reply.value.map_[i])
  {
    if IsNullOrEmpty(listingsId) {
      return Failure(ListingsIdRequired);
    }
    if IsNullOrEmpty(token) {
      return Failure(TokenRequired);
    }
    if reply.None? {
      return Failure(RequestFailed);
    }
    var allStations := reply.value.stations.GetOr([]);
    var entries := reply.value.map_;
    var list: seq<ChannelInfo> := [];
    for i := 0 to |entries|
      invariant |list| == i
      invariant forall j | 0 <= j < i :: list[j] == ChannelFor(allStations, entries[j])
    {
      var channelInfo := MapChannel(allStations, entries[i]);
      list := list + [channelInfo];
    }
    return Success(list);
  }

  /** `NormalizeName` (lines 818-821): every ' ' and then every '-' removed, ordinal. */
  function NormalizeName(value: string): string {
    Replace(Replace(value, " ", "", false), "-", "", false)
  }

  /** The normalised name keeps every other character and neither a space nor a dash, and is no longer. */
  lemma NormalizedName(value: string)
    ensures var r := NormalizeName(value);
      |r| <= |value| && forall x :: x in r <==> x in value && x != ' ' && x != '-'
  {
    ReplaceCharByNothing(value, ' ');
    ReplaceCharByNothing(Replace(value, " ", "", false), '-');
  }

  /** Normalising works piecewise, so the kept characters stay in order. */
  lemma NormalizeNameConcat(a: string, b: string)
    ensures NormalizeName(a + b) == NormalizeName(a) + NormalizeName(b)
  {
    ReplaceCharByNothingConcat(a, b, ' ');
    ReplaceCharByNothingConcat(Replace(a, " ", "", false), Replace(b, " ", "", false), '-');
  }
}
