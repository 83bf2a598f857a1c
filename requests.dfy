/**
 * The request side of the Schedules Direct provider: the calendar days asked
 * for, the normalised station id, and the JSON bodies of POST /programs and
 * POST /metadata/programs. A small decoder for JSON arrays of plain strings
 * states what those bodies mean.
 */
module Requests {
  import opened Wrappers
  import opened Text

  /** `TimeSpan.TicksPerDay`. */
  const TicksPerDay: nat := 864_000_000_000

  function Min(a: nat, b: nat): nat { if a <= b then a else b }
  function Max(a: nat, b: nat): nat { if a <= b then b else a }

  /** The day number of the date of the earlier of the two readings of the start. */
  function FirstDay(startUtc: nat, startLocal: nat): nat { Min(startUtc, startLocal) / TicksPerDay }

  /** The day number of the date of the later of the two readings of the end. */
  function LastDay(endUtc: nat, endLocal: nat): nat { Max(endUtc, endLocal) / TicksPerDay }

  /** `DateTime.MaxValue.Ticks`: every instant is at most this. */
  const MaxTicks: nat := 3_155_378_975_999_999_999

  /** The day number of 9999-12-31, the last date `DateTime` can hold. */
  const LastCalendarDay: nat := MaxTicks / TicksPerDay

  /** The exception that leaves `GetScheduleRequestDates`. */
  datatype DatesError = DayOutOfRange   // AddDays(1) past 9999-12-31, line 72

  /**
   * The day loop reaches 9999-12-31 (or starts after it) and so calls
   * `AddDays(1)` on the last date there is.
   */
  predicate PassesLastDay(first: nat, last: nat) {
    first <= last && last >= LastCalendarDay
  }

  /**
   * `GetScheduleRequestDates`: every calendar day from the date of
   * min(start, start as local time) to the date of max(end, end as local
   * time), both included, one after the other. Instants are tick counts;
   * `startLocal` and `endLocal` are what `ToLocalTime` makes of them. Each
   * element is a day number (ticks / TicksPerDay); its "yyyy-MM-dd" text is
   * the date library's. After adding a day the loop steps to the next one,
   * which throws once the day added is 9999-12-31.
   */
  method GetScheduleRequestDates(startUtc: nat, endUtc: nat, startLocal: nat, endLocal: nat)
    returns (r: Result<seq<nat>, DatesError>)
    ensures r.Failure? <==> PassesLastDay(FirstDay(startUtc, startLocal), LastDay(endUtc, endLocal))
    ensures r.Success? ==> var dates, first, last := r.value, FirstDay(startUtc, startLocal), LastDay(endUtc, endLocal);
      |dates| == (if first <= last then last - first + 1 else 0)
      && (dates != [] ==> dates[0] == first && dates[|dates| - 1] == last)
    ensures r.Success? ==> forall i | 0 <= i < |r.value| :: r.value[i] == FirstDay(startUtc, startLocal) + i
    ensures r.Success? ==> forall i | 0 < i < |r.value| :: r.value[i] == r.value[i - 1] + 1
    ensures r.Success? ==> forall i, j | 0 <= i < j < |r.value| :: r.value[i] < r.value[j]
    ensures r.Success? ==> forall t: nat | Min(startUtc, startLocal) <= t <= Max(endUtc, endLocal) :: t / TicksPerDay in r.value
  {
    var start := FirstDay(startUtc, startLocal);
    var end := LastDay(endUtc, endLocal);
    ghost var first := start;
    var dates := [];
    while start <= end
      invariant first <= start <= (if first <= end then end + 1 else first)
      invariant start > first ==> start <= LastCalendarDay
      invariant |dates| == start - first
      invariant forall i | 0 <= i < |dates| :: dates[i] == first + i
    {
      dates := dates + [start];
      if start >= LastCalendarDay {
        return Failure(DayOutOfRange);
      }
      start := start + 1;
    }
    forall t: nat | Min(startUtc, startLocal) <= t <= Max(endUtc, endLocal)
      ensures t / TicksPerDay in dates
    {
      DayMonotone(Min(startUtc, startLocal), t);
      DayMonotone(t, Max(endUtc, endLocal));
      assert dates[t / TicksPerDay - first] == t / TicksPerDay;
    }
    return Success(dates);
  }

  /** Ticks per hour. */
  const TicksPerHour: nat := 36_000_000_000

  /**
   * The window 2024-01-01T23:00Z to 2024-01-02T02:00Z read in a UTC+5 zone
   * (day 738885 is 2024-01-01): the days asked for are 2024-01-01 and
   * 2024-01-02, the UTC date of the start and the local date of the end.
   */
  lemma TimeZoneWindowExample()
    ensures var day := 738_885;
      var startUtc, endUtc := day * TicksPerDay + 23 * TicksPerHour, (day + 1) * TicksPerDay + 2 * TicksPerHour;
      var startLocal, endLocal := startUtc + 5 * TicksPerHour, endUtc + 5 * TicksPerHour;
      FirstDay(startUtc, startLocal) == day && LastDay(endUtc, endLocal) == day + 1
  {
  }

  lemma DayMonotone(a: nat, b: nat)
    requires a <= b
    ensures a / TicksPerDay <= b / TicksPerDay
  {
  }

  /** The host part `GetProgramsAsync` strips from a station id. */
  const HostSuffix: string := ".json.schedulesdirect.org"

  /**
   * Line 86 with the check before it: a null or empty id is an
   * ArgumentNullException (None); otherwise every occurrence of the host
   * suffix, in any case, is removed and then the leading 'I's.
   */
  function NormalizeChannelId(channelId: Option<string>): (r: Option<string>)
    ensures r.None? <==> IsNullOrEmpty(channelId)
    ensures r.Some? ==> r.value == [] || r.value[0] != 'I'
  {
    if IsNullOrEmpty(channelId) then None
    else Some(TrimStart(Replace(channelId.value, HostSuffix, "", true), 'I'))
  }

  /** A string with no '.' cannot contain the host suffix, in any case. */
  lemma NoDotNoSuffix(d: string)
    requires forall i | 0 <= i < |d| :: d[i] != '.'
    ensures !Occurs(d, HostSuffix, true)
  {
    if Occurs(d, HostSuffix, true) {
      var i :| 0 <= i <= |d| - |HostSuffix| && OccursAt(d, HostSuffix, i, true);
      MatchesFirstChar(d[i..i + |HostSuffix|], HostSuffix, true);
      assert false;
    }
  }

  /**
   * A Schedules Direct station id `d` (no '.', not starting with 'I')
   * comes back as `d` whether it arrives bare, with the host suffix, or as
   * the "I<d>.json.schedulesdirect.org" form.
   */
  lemma {:induction false} NormalizeStationId(d: string)
    requires d != [] && d[0] != 'I'
    requires forall i | 0 <= i < |d| :: d[i] != '.'
    ensures NormalizeChannelId(Some(d)) == Some(d)
    ensures NormalizeChannelId(Some(d + HostSuffix)) == Some(d)
    ensures NormalizeChannelId(Some("I" + d + HostSuffix)) == Some(d)
  {
    NoDotNoSuffix(d);
    ReplaceWithoutOccurrence(d, HostSuffix, "", true);
    ReplaceTrailingPattern(d, HostSuffix, "", true);
    assert d + "" == d;
    var x := "I" + d;
    forall i | 0 <= i < |x| ensures !CharMatches(x[i], HostSuffix[0], true) {
      if i > 0 { assert x[i] == d[i - 1]; }
    }
    ReplaceTrailingPattern(x, HostSuffix, "", true);
    assert x + "" == x && x[1..] == d;
  }

  /** A JSON string literal of `x`, which is plain (see `Plain`). */
  function Quote(x: string): string {
    "\"" + x + "\""
  }

  function Quotes(xs: seq<string>): (r: seq<string>)
    ensures |r| == |xs| && forall i | 0 <= i < |xs| :: r[i] == Quote(xs[i])
  {
    seq(|xs|, i requires 0 <= i < |xs| => Quote(xs[i]))
  }

  /** No character of `x` needs escaping in a JSON string. */
  predicate Plain(x: string) {
    forall i | 0 <= i < |x| :: x[i] != '"' && x[i] != '\\'
  }

  /** The index of the first '"' at or after `from`, or |s| when there is none. */
  function IndexOfQuote(s: string, from: nat): (j: nat)
    requires from <= |s|
    ensures from <= j <= |s|
    ensures j < |s| ==> s[j] == '"'
    ensures forall k | from <= k < j :: s[k] != '"'
    decreases |s| - from
  {
    if from == |s| || s[from] == '"' then from else IndexOfQuote(s, from + 1)
  }

  function SkipSpaces(s: string): (r: string)
    ensures |r| <= |s|
    decreases |s|
  {
    if |s| > 0 && s[0] == ' ' then SkipSpaces(s[1..]) else s
  }

  /** The strings of a non-empty comma-separated list of string literals, or None. */
  function DecodeElements(s: string): Option<seq<string>>
    decreases |s|
  {
    if |s| == 0 || s[0] != '"' then None
    else
      var j := IndexOfQuote(s, 1);
      if j == |s| then None
      else
        var rest := s[j + 1..];
        if rest == [] then Some([s[1..j]])
        else if rest[0] != ',' then None
        else
          match DecodeElements(SkipSpaces(rest[1..]))
          case Some(more) => Some([s[1..j]] + more)
          case None => None
  }

  /** The strings of a JSON array of string literals without escapes, or None. */
  function DecodeArray(s: string): Option<seq<string>> {
    if |s| < 2 || s[0] != '[' || s[|s| - 1] != ']' then None
    else if |s| == 2 then Some([])
    else DecodeElements(s[1..|s| - 1])
  }

  /** The first literal of `Quote(x) + rest` is read back as `x`, and decoding goes on with `rest`. */
  lemma DecodeHead(x: string, rest: string)
    requires Plain(x)
    ensures var s := Quote(x) + rest;
      s[0] == '"' && IndexOfQuote(s, 1) == |x| + 1 && s[1..|x| + 1] == x && s[|x| + 2..] == rest
  {
    var s := Quote(x) + rest;
    var j := |x| + 1;
    assert s[j] == '"' && s[1..j] == x && s[j + 1..] == rest;
    forall k | 1 <= k < j ensures s[k] != '"' {
      assert s[k] == x[k - 1];
    }
  }

  lemma JoinQuotesCons(sep: string, xs: seq<string>)
    requires |xs| > 1
    ensures Join(sep, Quotes(xs)) == Quote(xs[0]) + sep + Join(sep, Quotes(xs[1..]))
  {
    assert Quotes(xs)[1..] == Quotes(xs[1..]);
  }

  lemma JoinQuotesStartsWithQuote(sep: string, xs: seq<string>)
    requires |xs| >= 1
    ensures |Join(sep, Quotes(xs))| > 0 && Join(sep, Quotes(xs))[0] == '"'
  {
    if |xs| > 1 {
      JoinQuotesCons(sep, xs);
    }
  }

  lemma SkipSeparator(sep: string, tail: string)
    requires sep == "," || sep == ", "
    requires |tail| > 0 && tail[0] == '"'
    ensures (sep + tail)[0] == ',' && SkipSpaces((sep + tail)[1..]) == tail
  {
    if sep == ", " {
      assert (sep + tail)[1..] == " " + tail;
      assert (" " + tail)[1..] == tail;
    } else {
      assert (sep + tail)[1..] == tail;
    }
  }

  lemma {:induction false} DecodeJoinedElements(sep: string, xs: seq<string>)
    requires sep == "," || sep == ", "
    requires |xs| >= 1 && forall i | 0 <= i < |xs| :: Plain(xs[i])
    ensures DecodeElements(Join(sep, Quotes(xs))) == Some(xs)
    decreases |xs|
  {
    var x := xs[0];
    if |xs| == 1 {
      DecodeHead(x, "");
      var s := Quote(x);
      assert Quote(x) + "" == s;
      assert Join(sep, Quotes(xs)) == s;
      assert s[|x| + 2..] == [] && s[1..|x| + 1] == x;
      assert xs == [x];
    } else {
      var tail := Join(sep, Quotes(xs[1..]));
      JoinQuotesCons(sep, xs);
      JoinQuotesStartsWithQuote(sep, xs[1..]);
      DecodeCons(sep, x, tail);
      DecodeJoinedElements(sep, xs[1..]);
      assert [x] + xs[1..] == xs;
    }
  }

  /** A literal, a separator and a further literal: the first is read and decoding goes on after the separator. */
  lemma DecodeCons(sep: string, x: string, tail: string)
    requires sep == "," || sep == ", "
    requires Plain(x) && |tail| > 0 && tail[0] == '"'
    ensures DecodeElements(Quote(x) + sep + tail)
         == match DecodeElements(tail) case Some(more) => Some([x] + more) case None => None
  {
    DecodeHead(x, sep + tail);
    assert Quote(x) + sep + tail == Quote(x) + (sep + tail);
    SkipSeparator(sep, tail);
  }

  /** A bracketed list of plain strings, separated by `sep`, decodes to those strings. */
  lemma DecodeQuotedArray(sep: string, xs: seq<string>)
    requires sep == "," || sep == ", "
    requires forall i | 0 <= i < |xs| :: Plain(xs[i])
    ensures DecodeArray("[" + Join(sep, Quotes(xs)) + "]") == Some(xs)
  {
    var s := "[" + Join(sep, Quotes(xs)) + "]";
    if xs == [] {
      assert s == "[]";
    } else {
      DecodeJoinedElements(sep, xs);
      JoinQuotesStartsWithQuote(sep, xs);
      assert s[1..|s| - 1] == Join(sep, Quotes(xs));
    }
  }

  /**
   * `Enumerable.Distinct`: the first occurrence of every value, in order.
   * Line 123 applies it to the program ids of all schedule entries.
   */
  function Distinct<T(==,!new)>(xs: seq<T>): (d: seq<T>)
    ensures forall i, j | 0 <= i < j < |d| :: d[i] != d[j]
    ensures forall x :: x in d <==> x in xs
    decreases |xs|
  {
    if xs == [] then []
    else
      var prefix := Distinct(xs[..|xs| - 1]);
      assert forall x :: x in xs <==> x in xs[..|xs| - 1] || x == xs[|xs| - 1];
      if xs[|xs| - 1] in prefix then prefix else prefix + [xs[|xs| - 1]]
  }

  /** The position of the first occurrence of `x` in `xs`. */
  function FirstIndex<T(==)>(xs: seq<T>, x: T): (k: nat)
    requires x in xs
    ensures k < |xs| && xs[k] == x && forall j | 0 <= j < k :: xs[j] != x
  {
    if xs[0] == x then 0 else 1 + FirstIndex(xs[1..], x)
  }

  lemma FirstIndexInPrefix<T>(xs: seq<T>, n: nat, x: T)
    requires n <= |xs| && x in xs[..n]
    ensures x in xs && FirstIndex(xs, x) == FirstIndex(xs[..n], x)
  {
    var k := FirstIndex(xs[..n], x);
    assert xs[k] == x;
    var m := FirstIndex(xs, x);
    assert m <= k;
    assert xs[..n][m] == x;
  }

  /**
   * Together with its own contract, this fixes `Distinct` completely: the
   * kept values appear in the order of their first occurrences.
   */
  lemma {:induction false} DistinctKeepsFirstOccurrenceOrder<T(!new)>(xs: seq<T>)
    ensures forall i, j | 0 <= i < j < |Distinct(xs)| ::
      Distinct(xs)[i] in xs && Distinct(xs)[j] in xs && FirstIndex(xs, Distinct(xs)[i]) < FirstIndex(xs, Distinct(xs)[j])
    decreases |xs|
  {
    if xs != [] {
      var n := |xs| - 1;
      var init := xs[..n];
      var prefix := Distinct(init);
      DistinctKeepsFirstOccurrenceOrder(init);
      forall v | v in prefix ensures v in xs && FirstIndex(xs, v) == FirstIndex(init, v) < n {
        FirstIndexInPrefix(xs, n, v);
      }
      var d := Distinct(xs);
      if xs[n] !in prefix {
        assert forall k | 0 <= k < n :: xs[k] == init[k];
        assert FirstIndex(xs, xs[n]) == n;
        forall i, j | 0 <= i < j < |d| ensures d[i] in xs && d[j] in xs && FirstIndex(xs, d[i]) < FirstIndex(xs, d[j]) {
          assert d[i] == prefix[i] && d[i] in init;
          FirstIndexInPrefix(xs, n, d[i]);
          assert FirstIndex(init, prefix[i]) < n;
          if j < |prefix| {
            assert d[j] == prefix[j] && d[j] in init;
            FirstIndexInPrefix(xs, n, d[j]);
            assert FirstIndex(init, prefix[i]) < FirstIndex(init, prefix[j]);
          } else {
            assert d[j] == xs[n];
            assert FirstIndex(xs, d[j]) == n;
          }
        }
      }
    }
  }

  /** The body of POST /programs exactly as line 124 builds it. */
  function ProgramsBodyAsWritten(ids: seq<string>): string {
    "[\"" + Join("\", \"", ids) + "\"]"
  }

  /** The body of POST /programs as intended: a JSON array of the ids. */
  function ProgramsBody(ids: seq<string>): string {
    "[" + Join(", ", Quotes(ids)) + "]"
  }

  /** With at least one id, line 124 builds exactly the intended body. */
  lemma {:induction false} ProgramsBodyAsWrittenNonEmpty(ids: seq<string>)
    requires ids != []
    ensures ProgramsBodyAsWritten(ids) == ProgramsBody(ids)
  {
    QuoteJoin(ids);
  }

  lemma {:induction false} QuoteJoin(ids: seq<string>)
    requires ids != []
    ensures "\"" + Join("\", \"", ids) + "\"" == Join(", ", Quotes(ids))
    decreases |ids|
  {
    if |ids| > 1 {
      QuoteJoin(ids[1..]);
      assert Quotes(ids)[1..] == Quotes(ids[1..]);
    }
  }

  /** The intended body carries exactly the given ids, none added or lost, the empty list included. */
  lemma ProgramsBodyRoundTrip(ids: seq<string>)
    requires forall i | 0 <= i < |ids| :: Plain(ids[i])
    ensures DecodeArray(ProgramsBody(ids)) == Some(ids)
  {
    DecodeQuotedArray(", ", ids);
  }

  /** For no ids at all, line 124 asks for one program whose id is empty. */
  lemma ProgramsBodyAsWrittenEmpty()
    ensures DecodeArray(ProgramsBodyAsWritten([])) == Some([""])
  {
    var s := ProgramsBodyAsWritten([]);
    var inner := "\"\"";
    assert Join("\", \"", []) == "";
    assert s == "[" + inner + "]";
    assert s[1..|s| - 1] == inner;
    assert IndexOfQuote(inner, 1) == 1;
    assert inner[2..] == [] && inner[1..1] == "";
  }

  /** The 10-character roots artwork is keyed by (`Slice(0, 10)`). */
  function Roots(ids: seq<string>): (r: seq<string>)
    requires forall i | 0 <= i < |ids| :: |ids[i]| >= 10
    ensures |r| == |ids| && forall i | 0 <= i < |ids| :: r[i] == ids[i][..10]
  {
    seq(|ids|, i requires 0 <= i < |ids| => ids[i][..10])
  }

  /** The StringBuilder contents after the loop of lines 463-468: every root quoted and followed by ','. */
  function QuotedWithCommas(roots: seq<string>): string
    decreases |roots|
  {
    if roots == [] then "" else QuotedWithCommas(roots[..|roots| - 1]) + Quote(roots[|roots| - 1]) + ","
  }

  lemma {:induction false} QuotedWithCommasJoin(roots: seq<string>)
    requires roots != []
    ensures QuotedWithCommas(roots) == Join(",", Quotes(roots)) + ","
    decreases |roots|
  {
    if |roots| > 1 {
      var init := roots[..|roots| - 1];
      QuotedWithCommasJoin(init);
      JoinSnoc(",", Quotes(init), Quote(roots[|roots| - 1]));
      assert Quotes(init) + [Quote(roots[|roots| - 1])] == Quotes(roots);
    } else {
      assert QuotedWithCommas(roots) == QuotedWithCommas([]) + Quote(roots[0]) + ",";
    }
  }

  lemma {:induction false} JoinSnoc(sep: string, xs: seq<string>, y: string)
    requires xs != []
    ensures Join(sep, xs + [y]) == Join(sep, xs) + sep + y
    decreases |xs|
  {
    if |xs| > 1 {
      assert (xs + [y])[1..] == xs[1..] + [y];
      JoinSnoc(sep, xs[1..], y);
    } else {
      assert xs + [y] == [xs[0], y];
      assert [xs[0], y][1..] == [y];
    }
  }

  /** The index of the first id shorter than 10 characters, -1 for none. */
  function FirstShort(ids: seq<string>): (k: int)
    ensures -1 <= k < |ids|
    ensures k >= 0 ==> |ids[k]| < 10 && forall j | 0 <= j < k :: |ids[j]| >= 10
    ensures k == -1 ==> forall j | 0 <= j < |ids| :: |ids[j]| >= 10
    decreases |ids|
  {
    if ids == [] then -1
    else if |ids[0]| < 10 then 0
    else
      var k := FirstShort(ids[1..]);
      assert forall j | 1 <= j < |ids| :: ids[j] == ids[1..][j - 1];
      if k == -1 then -1 else k + 1
  }

  lemma FirstShortAt(ids: seq<string>, k: nat)
    requires k < |ids| && |ids[k]| < 10
    requires forall j | 0 <= j < k :: |ids[j]| >= 10
    ensures FirstShort(ids) == k
  {
  }

  /** Why building a request body failed: a program id shorter than 10 characters. */
  datatype BodyError = ArgumentOutOfRange(programId: string)

  /**
   * The body builder of `GetImageForPrograms` (lines 457-472). No ids: no
   * request at all (None). An id shorter than 10 characters throws from
   * `Slice(0, 10)`. Otherwise a JSON array of the 10-character roots.
   */
  method MetadataRequestBody(programIds: seq<string>) returns (r: Result<Option<string>, BodyError>)
    ensures programIds == [] ==> r == Success(None)
    ensures r.Failure? <==> exists i | 0 <= i < |programIds| :: |programIds[i]| < 10
    ensures r.Failure? ==> r.error == ArgumentOutOfRange(programIds[FirstShort(programIds)])
    ensures r.Success? && programIds != [] ==>
      (forall i | 0 <= i < |programIds| :: |programIds[i]| >= 10)
      && r.value == Some("[" + Join(",", Quotes(Roots(programIds))) + "]")
  {
    if |programIds| == 0 {
      return Success(None);
    }
    var str := "[";
    for k := 0 to |programIds|
      invariant forall i | 0 <= i < k :: |programIds[i]| >= 10
      invariant str == "[" + QuotedWithCommas(Roots(programIds[..k]))
    {
      var id := programIds[k];
      if |id| < 10 {
        FirstShortAt(programIds, k);
        return Failure(ArgumentOutOfRange(id));
      }
      assert Roots(programIds[..k + 1]) == Roots(programIds[..k]) + [id[..10]];
      str := str + "\"" + id[..10] + "\",";
    }
    assert programIds[..|programIds|] == programIds;
    QuotedWithCommasJoin(Roots(programIds));
    ghost var joined := Join(",", Quotes(Roots(programIds)));
    assert str == "[" + joined + ",";
    assert str[..|str| - 1] == "[" + joined;
    str := str[..|str| - 1] + "]";
    return Success(Some(str));
  }

  /** The metadata body carries exactly the roots of the ids, in order, duplicates kept. */
  lemma MetadataBodyRoundTrip(programIds: seq<string>)
    requires forall i | 0 <= i < |programIds| :: |programIds[i]| >= 10 && Plain(programIds[i])
    ensures DecodeArray("[" + Join(",", Quotes(Roots(programIds))) + "]") == Some(Roots(programIds))
  {
    var roots := Roots(programIds);
    forall i | 0 <= i < |roots| ensures Plain(roots[i]) {
      assert forall k | 0 <= k < 10 :: roots[i][k] == programIds[i][k];
    }
    DecodeQuotedArray(",", roots);
  }
}
