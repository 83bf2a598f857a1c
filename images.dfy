/**
 * Artwork selection of the Schedules Direct provider: `GetAspectRatio`,
 * `GetSizeOrder`, `GetProgramImage`, the primary/thumb/backdrop choice of
 * `GetProgramsAsync`, and the artwork request `GetImageForPrograms`.
 *
 * Aspect ratios are exact rationals (`real`), where the source divides
 * doubles.
 */
module Images {
  import opened Wrappers
  import opened Text
  import opened Numbers
  import Requests

  /** The service's base URL; relative image URIs are resolved under ApiUrl + "/image/". */
  const ApiUrl: string := "https://json.schedulesdirect.org/20141201"

  /** `ImageDataDto`, the fields selection reads (all strings in the payload, all nullable). */
  datatype ImageData = ImageData(width: Option<string>, height: Option<string>, text: Option<string>, uri: Option<string>)

  /** `ShowImagesDto`: the artwork candidates of one 10-character program root. */
  datatype ShowImages = ShowImages(programId: Option<string>, data: Option<seq<ImageData>>)

  /** A width or height as `GetAspectRatio` reads it: blank or unparseable is 0. */
  function Dimension(s: Option<string>): int {
    if IsNullOrWhiteSpace(s) then 0 else TryParseInteger(s, Int32Min, Int32Max).GetOr(0)
  }

  /** `GetAspectRatio`: width / height, or 0 when either is 0 (unparseable counts as 0). */
  function AspectRatio(i: ImageData): real {
    var w, h := Dimension(i.width), Dimension(i.height);
    if h == 0 || w == 0 then 0.0 else w as real / h as real
  }

  lemma RatioNonZero(w: real, h: real)
    requires w != 0.0 && h != 0.0
    ensures w / h != 0.0
  {
    if w / h == 0.0 {
      assert w == (w / h) * h;
    }
  }

  /** The aspect is 0 exactly when the width or the height is 0, blank or unparseable. */
  lemma AspectZeroIff(i: ImageData)
    ensures AspectRatio(i) == 0.0 <==> Dimension(i.width) == 0 || Dimension(i.height) == 0
  {
    var w, h := Dimension(i.width), Dimension(i.height);
    if w != 0 && h != 0 {
      RatioNonZero(w as real, h as real);
    }
  }

  /** `GetSizeOrder`: the parsed height, 0 when it does not parse. */
  function SizeOrder(i: ImageData): int {
    TryParseInteger(i.height, Int32Min, Int32Max).GetOr(0)
  }

  function Abs(x: real): real {
    if x < 0.0 then -x else x
  }

  /** The first sort key: `Math.Abs(desiredAspect - GetAspectRatio(i))`. */
  function Distance(i: ImageData, desired: real): real {
    Abs(desired - AspectRatio(i))
  }

  /** The two keys of `GetProgramImage`'s ordering: distance ascending, then size descending. */
  datatype SortKey = SortKey(distance: real, size: int)

  function KeyOf(i: ImageData, desired: real): SortKey {
    SortKey(Distance(i, desired), SizeOrder(i))
  }

  function Keys(images: seq<ImageData>, desired: real): (ks: seq<SortKey>)
    ensures |ks| == |images| && forall j | 0 <= j < |images| :: ks[j] == KeyOf(images[j], desired)
  {
    seq(|images|, j requires 0 <= j < |images| => KeyOf(images[j], desired))
  }

  /** Key `a` sorts strictly before key `b`. */
  predicate KeyBefore(a: SortKey, b: SortKey) {
    a.distance < b.distance || (a.distance == b.distance && a.size > b.size)
  }

  /** Image `a` sorts strictly before image `b` under OrderBy(distance).ThenByDescending(size). */
  predicate Before(a: ImageData, b: ImageData, desired: real) {
    KeyBefore(KeyOf(a, desired), KeyOf(b, desired))
  }

  /**
   * `k` is the element a stable sort by these keys puts first: nothing sorts
   * before it, and it sorts strictly before every earlier element (ties keep
   * input order).
   */
  predicate IsFirstKey(ks: seq<SortKey>, k: int) {
    && 0 <= k < |ks|
    && (forall j | 0 <= j < |ks| :: !KeyBefore(ks[j], ks[k]))
    && (forall j | 0 <= j < k :: KeyBefore(ks[k], ks[j]))
  }

  /** The index a stable sort by the keys puts first, -1 for none. */
  function FirstKey(ks: seq<SortKey>): (k: int)
    ensures ks == [] ==> k == -1
    ensures ks != [] ==> IsFirstKey(ks, k)
    decreases |ks|
  {
    if ks == [] then -1
    else
      var n := |ks| - 1;
      var k := FirstKey(ks[..n]);
      if k == -1 || KeyBefore(ks[n], ks[k]) then n else k
  }

  /** The first-best key is unique: the ordering allows only the index `FirstKey` picks. */
  lemma FirstKeyUnique(ks: seq<SortKey>, k1: int, k2: int)
    requires IsFirstKey(ks, k1) && IsFirstKey(ks, k2)
    ensures k1 == k2
  {
    forall i | 0 <= i < k1
      ensures !IsFirstKey(ks, i)
    {
      assert KeyBefore(ks[k1], ks[i]);
    }
    forall i | k1 < i < |ks|
      ensures !IsFirstKey(ks, i)
    {
      assert !KeyBefore(ks[i], ks[k1]);
    }
  }

  /** The first-best image of a candidate list. */
  predicate IsFirstBest(images: seq<ImageData>, desired: real, k: int) {
    IsFirstKey(Keys(images, desired), k)
  }

  /** The index `OrderBy(..).ThenByDescending(..).FirstOrDefault()` picks, -1 for no candidates. */
  function BestIndex(images: seq<ImageData>, desired: real): (k: int)
    ensures images == [] ==> k == -1
    ensures images != [] ==> IsFirstBest(images, desired, k)
  {
    FirstKey(Keys(images, desired))
  }

  /**
   * `GetProgramImage`: the URI of the best candidate. No candidate, or a
   * best candidate with a blank URI, gives null; a URI containing "http"
   * (any case) is returned verbatim, any other is resolved under the API.
   */
  function ProgramImage(images: seq<ImageData>, desired: real): Option<string> {
    var k := BestIndex(images, desired);
    if k == -1 then None else ResolveUri(images[k].uri)
  }

  function ResolveUri(uri: Option<string>): Option<string> {
    if IsNullOrWhiteSpace(uri) then None
    else if Occurs(uri.value, "http", true) then uri
    else Some(ApiUrl + "/image/" + uri.value)
  }

  /**
   * A resolved URI is never blank and always contains "http", so resolving
   * it again changes nothing; a verbatim one is the candidate's own URI.
   */
  lemma {:induction false} ResolvedUriIsAbsolute(uri: Option<string>)
    ensures var r := ResolveUri(uri);
      (r.None? <==> IsNullOrWhiteSpace(uri))
      && (r.Some? ==> Occurs(r.value, "http", true) && ResolveUri(r) == r)
      && (r.Some? && Occurs(uri.value, "http", true) ==> r == uri)
  {
    if !IsNullOrWhiteSpace(uri) && !Occurs(uri.value, "http", true) {
      var s := ApiUrl + "/image/" + uri.value;
      assert s[..|ApiUrl|] == ApiUrl;
      assert ApiUrl[0] == 'h' && ApiUrl[1] == 't' && ApiUrl[2] == 't' && ApiUrl[3] == 'p';
      assert ApiUrl[0..4] == "http";
      assert s[0..4] == "http";
      assert OccursAt(s, "http", 0, true);
      assert !IsWhiteSpace(s[0]);
    }
  }

  /**
   * What `GetProgramImage` returns is the resolved URI of the candidate the
   * stable ordering puts first; null exactly when there is none or its URI
   * is blank.
   */
  lemma ProgramImageOfBest(images: seq<ImageData>, desired: real)
    ensures var r := ProgramImage(images, desired);
      (r.None? <==> images == [] || IsNullOrWhiteSpace(images[BestIndex(images, desired)].uri))
      && (r.Some? ==> exists k :: IsFirstBest(images, desired, k) && ResolveUri(images[k].uri) == r)
  {
    ResolvedUriIsAbsolute(if images == [] then None else images[BestIndex(images, desired)].uri);
  }

  /** When some candidate has exactly the desired aspect, the chosen one has it too. */
  lemma ExactAspectWins(images: seq<ImageData>, desired: real, j: int)
    requires 0 <= j < |images| && AspectRatio(images[j]) == desired
    ensures AspectRatio(images[BestIndex(images, desired)]) == desired
  {
    var k := BestIndex(images, desired);
    assert !KeyBefore(Keys(images, desired)[j], Keys(images, desired)[k]);
  }

  /**
   * A candidate without a usable size (aspect 0) loses to any candidate
   * whose aspect lies strictly between 0 and twice the desired one; beyond
   * that, the distance of 0 from the desired aspect is the smaller.
   */
  lemma ZeroAspectLosesToCloser(images: seq<ImageData>, desired: real, j: int)
    requires desired > 0.0
    requires 0 <= j < |images| && 0.0 < AspectRatio(images[j]) < 2.0 * desired
    ensures AspectRatio(images[BestIndex(images, desired)]) != 0.0
  {
    var k := BestIndex(images, desired);
    assert !KeyBefore(Keys(images, desired)[j], Keys(images, desired)[k]);
  }

  /** A candidate with text whose width and height are written as the given decimal numbers. */
  function Sized(w: nat, h: nat, uri: string): ImageData {
    ImageData(Some(FormatNat(w)), Some(FormatNat(h)), Some("yes"), Some(uri))
  }

  /** A written-out size reads back as itself: its aspect is w/h (0 for a zero side) and its size order h. */
  lemma SizedKeys(w: nat, h: nat, uri: string)
    requires w <= Int32Max && h <= Int32Max
    ensures AspectRatio(Sized(w, h, uri)) == if w == 0 || h == 0 then 0.0 else w as real / h as real
    ensures SizeOrder(Sized(w, h, uri)) == h
  {
    ParseFormatNat(w, Int32Min, Int32Max);
    ParseFormatNat(h, Int32Min, Int32Max);
    assert !IsWhiteSpace(FormatNat(w)[0]) && !IsWhiteSpace(FormatNat(h)[0]);
  }

  /** Of two keys, the second is chosen only when it sorts strictly before the first. */
  lemma FirstOfTwo(ks: seq<SortKey>)
    requires |ks| == 2
    ensures FirstKey(ks) == if KeyBefore(ks[1], ks[0]) then 1 else 0
  {
    assert ks[..1] == [ks[0]];
  }

  /** The sort key of a 2:3 candidate at the portrait aspect: an exact match. */
  lemma PortraitKeyOfTwoByThree(uri: string)
    ensures KeyOf(Sized(2, 3, uri), DesiredAspect) == SortKey(0.0, 3)
  {
    SizedKeys(2, 3, uri);
  }

  /** The sort key of a 16:9 candidate at the portrait aspect. */
  lemma PortraitKeyOfSixteenByNine(uri: string)
    ensures KeyOf(Sized(16, 9, uri), DesiredAspect) == SortKey(10.0 / 9.0, 9)
  {
    SizedKeys(16, 9, uri);
  }

  /** A 2:3 and a 16:9 candidate: at the portrait aspect the exact 2:3 one is chosen. */
  lemma PortraitExampleChoosesExactMatch()
    ensures BestIndex([Sized(2, 3, "a.jpg"), Sized(16, 9, "b.jpg")], DesiredAspect) == 0
  {
    var ks := Keys([Sized(2, 3, "a.jpg"), Sized(16, 9, "b.jpg")], DesiredAspect);
    PortraitKeyOfTwoByThree("a.jpg");
    PortraitKeyOfSixteenByNine("b.jpg");
    FirstOfTwo(ks);
  }

  /** A 0x0 and a 4:3 candidate: at the wide aspect the 4:3 one is closer and chosen. */
  lemma WideExampleSkipsUnsizedCandidate()
    ensures BestIndex([Sized(0, 0, "a.jpg"), Sized(4, 3, "b.jpg")], WideAspect) == 1
  {
    SizedKeys(0, 0, "a.jpg");
    SizedKeys(4, 3, "b.jpg");
  }

  /**
   * An unsized candidate (aspect 0) does win against a sized one that is
   * farther from the desired aspect: a 0x0 and a 4:1 candidate at 16:9.
   */
  lemma UnsizedCandidateCanWin()
    ensures BestIndex([Sized(0, 0, "a.jpg"), Sized(4, 1, "b.jpg")], WideAspect) == 0
  {
    SizedKeys(0, 0, "a.jpg");
    SizedKeys(4, 1, "b.jpg");
  }

  /** The sort key of a 4:6 candidate at the portrait aspect: an exact match, taller than 2:3. */
  lemma PortraitKeyOfFourBySix(uri: string)
    ensures KeyOf(Sized(4, 6, uri), DesiredAspect) == SortKey(0.0, 6)
  {
    SizedKeys(4, 6, uri);
  }

  /** Two candidates of one aspect: the taller is chosen whatever their order. */
  lemma TallerWinsTie()
    ensures BestIndex([Sized(2, 3, "a.jpg"), Sized(4, 6, "b.jpg")], DesiredAspect) == 1
    ensures BestIndex([Sized(4, 6, "b.jpg"), Sized(2, 3, "a.jpg")], DesiredAspect) == 0
  {
    PortraitKeyOfTwoByThree("a.jpg");
    PortraitKeyOfFourBySix("b.jpg");
    FirstOfTwo(Keys([Sized(2, 3, "a.jpg"), Sized(4, 6, "b.jpg")], DesiredAspect));
    FirstOfTwo(Keys([Sized(4, 6, "b.jpg"), Sized(2, 3, "a.jpg")], DesiredAspect));
  }

  /** Two candidates with equal keys: the earlier one is chosen (the sort is stable). */
  lemma EqualKeysKeepInputOrder()
    ensures BestIndex([Sized(2, 3, "a.jpg"), Sized(2, 3, "b.jpg")], DesiredAspect) == 0
  {
    SizedKeys(2, 3, "a.jpg");
    SizedKeys(2, 3, "b.jpg");
  }

  /** `string.Equals(i.Text, t, StringComparison.OrdinalIgnoreCase)`. */
  predicate HasText(i: ImageData, t: string) {
    OptEqualsIgnoreCase(i.text, Some(t))
  }

  /** `allImages.Where(i => HasText(i, t))`. */
  function WithText(images: seq<ImageData>, t: string): (r: seq<ImageData>)
    ensures forall x :: x in r <==> x in images && HasText(x, t)
    decreases |images|
  {
    if images == [] then []
    else
      var rest := WithText(images[1..], t);
      assert forall x :: x in images <==> x == images[0] || x in images[1..];
      if HasText(images[0], t) then [images[0]] + rest else rest
  }

  /** The filter works piecewise, so the kept candidates stay in input order, duplicates included. */
  lemma {:induction false} WithTextConcat(a: seq<ImageData>, b: seq<ImageData>, t: string)
    ensures WithText(a + b, t) == WithText(a, t) + WithText(b, t)
    decreases |a|
  {
    if a == [] {
      assert a + b == b;
    } else {
      assert (a + b)[0] == a[0] && (a + b)[1..] == a[1..] + b;
      WithTextConcat(a[1..], b, t);
    }
  }

  /** `2.0 / 3`: the portrait aspect of a primary image. */
  const DesiredAspect: real := 2.0 / 3.0
  /** `16.0 / 9`: the wide aspect of thumb and backdrop images. */
  const WideAspect: real := 16.0 / 9.0

  /** The three image URIs lines 152-171 assign to a program entry. */
  datatype Roles = Roles(primary: Option<string>, thumb: Option<string>, backdrop: Option<string>)

  /**
   * Lines 152-171: primary is the best 2:3 image with text, else the best
   * 2:3 image of all; thumb the best 16:9 image with text unless it equals
   * the primary; backdrop the best 16:9 image without text.
   */
  function AssignRoles(data: Option<seq<ImageData>>): Roles {
    var all := data.GetOr([]);
    var withText := WithText(all, "yes");
    var withoutText := WithText(all, "no");
    var primary := match ProgramImage(withText, DesiredAspect)
      case Some(u) => Some(u)
      case None => ProgramImage(all, DesiredAspect);
    var thumb := ProgramImage(withText, WideAspect);
    Roles(primary, if thumb == primary then None else thumb, ProgramImage(withoutText, WideAspect))
  }

  /** `ProgramImage` only returns something one of its candidates resolves to. */
  lemma ProgramImageFromCandidate(images: seq<ImageData>, desired: real)
    requires ProgramImage(images, desired).Some?
    ensures exists x :: x in images && ResolveUri(x.uri) == ProgramImage(images, desired)
  {
    var k := BestIndex(images, desired);
    assert images[k] in images;
  }

  /**
   * The roles of one program: the thumb is never the primary; every chosen
   * URI comes from a candidate of the right kind (thumb from a text image,
   * backdrop from a text-free one, primary from a text image whenever one
   * yields a URI at 2:3, from any image otherwise); and the primary is the
   * first-best 2:3 choice among the images it was chosen from.
   */
  lemma {:induction false} RolesAreConsistent(data: Option<seq<ImageData>>)
    ensures var r := AssignRoles(data);
      r.thumb.None? || r.thumb != r.primary
    ensures var r := AssignRoles(data);
      r.thumb.Some? ==> exists x :: x in data.GetOr([]) && HasText(x, "yes") && ResolveUri(x.uri) == r.thumb
    ensures var r := AssignRoles(data);
      r.backdrop.Some? ==> exists x :: x in data.GetOr([]) && HasText(x, "no") && ResolveUri(x.uri) == r.backdrop
    ensures var r := AssignRoles(data); var withText := WithText(data.GetOr([]), "yes");
      ProgramImage(withText, DesiredAspect).Some? ==>
        r.primary == ProgramImage(withText, DesiredAspect)
        && exists x :: x in data.GetOr([]) && HasText(x, "yes") && ResolveUri(x.uri) == r.primary
    ensures var r := AssignRoles(data);
      r.primary.Some? ==> exists x :: x in data.GetOr([]) && ResolveUri(x.uri) == r.primary
  {
    var all := data.GetOr([]);
    var r := AssignRoles(data);
    var withText := WithText(all, "yes");
    var withoutText := WithText(all, "no");
    if r.thumb.Some? {
      ProgramImageFromCandidate(withText, WideAspect);
    }
    if r.backdrop.Some? {
      ProgramImageFromCandidate(withoutText, WideAspect);
    }
    if ProgramImage(withText, DesiredAspect).Some? {
      ProgramImageFromCandidate(withText, DesiredAspect);
    } else if r.primary.Some? {
      ProgramImageFromCandidate(all, DesiredAspect);
    }
  }

  /** `images.FindIndex(i => i.ProgramId == root)`: the first entry for that root, or -1. */
  function FindImages(images: seq<ShowImages>, root: string): (k: int)
    ensures -1 <= k < |images|
    ensures k >= 0 ==> images[k].programId == Some(root) && forall j | 0 <= j < k :: images[j].programId != Some(root)
    ensures k == -1 ==> forall j | 0 <= j < |images| :: images[j].programId != Some(root)
    decreases |images|
  {
    if images == [] then -1
    else if images[0].programId == Some(root) then 0
    else
      var k := FindImages(images[1..], root);
      if k == -1 then -1 else k + 1
  }

  /**
   * `GetImageForPrograms`: no ids, no request and an empty list; an id
   * shorter than 10 characters throws while the body is built; otherwise
   * POST /metadata/programs is sent with `body`. `reply` is None when the
   * request or its JSON failed (caught: an empty list), else the
   * deserialised list, which is null for a JSON null.
   */
  method GetImageForPrograms(programIds: seq<string>, reply: Option<Option<seq<ShowImages>>>)
    returns (r: Result<Option<seq<ShowImages>>, Requests.BodyError>, body: Option<string>)
    ensures programIds == [] ==> r == Success(Some([])) && body.None?
    ensures r.Failure? <==> exists i | 0 <= i < |programIds| :: |programIds[i]| < 10
    ensures r.Failure? ==> r.error == Requests.ArgumentOutOfRange(programIds[Requests.FirstShort(programIds)])
    ensures r.Success? && programIds != [] ==>
      (forall i | 0 <= i < |programIds| :: |programIds[i]| >= 10)
      && body == Some("[" + Join(",", Requests.Quotes(Requests.Roots(programIds))) + "]")
      && r == Success(if reply.None? then Some([]) else reply.value)
  {
    body := None;
    var built := Requests.MetadataRequestBody(programIds);
    if built.Failure? {
      return Failure(built.error), None;
    }
    if built.value.None? {
      return Success(Some([])), None;
    }
    body := built.value;
    match reply {
      case None => r := Success(Some([]));
      case Some(list) => r := Success(list);
    }
  }
}
