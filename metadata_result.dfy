/**
 * `MetadataResult<T>`, the container a metadata provider fills: lists that
 * are created on first use, the people list that can be reset in place, and
 * the per-user data looked up by the user's id in "N" GUID format.
 */
module MetadataResults {
  import opened Wrappers
  import opened Text

  /** `List<T>`: a reference whose contents change in place. */
  class List<T> {
    var items: seq<T>

    constructor ()
      ensures items == []
    {
      items := [];
    }

    /** `List.Clear`. */
    method Clear()
      modifies this
      ensures items == []
    {
      items := [];
    }

    /** `List.Add`. */
    method Add(x: T)
      modifies this
      ensures items == old(items) + [x]
    {
      items := items + [x];
    }
  }

  /** One hexadecimal digit of a GUID. */
  newtype Nibble = x: int | 0 <= x < 16

  datatype GuidDigits = GuidDigits(nibbles: seq<Nibble>)

  /** A `Guid`, as its 32 hexadecimal digits, most significant first. */
  type Guid = g: GuidDigits | |g.nibbles| == 32 witness GuidDigits(seq(32, _ => 0 as Nibble))

  function HexChar(d: Nibble): char {
    if d < 10 then ('0' as int + d as int) as char else ('a' as int + d as int - 10) as char
  }

  /** The digit a character spells in either case, None for a non-hexadecimal character. */
  function HexValue(c: char): Option<Nibble> {
    if '0' <= c <= '9' then Some((c as int - '0' as int) as Nibble)
    else if 'a' <= c <= 'f' then Some((c as int - 'a' as int + 10) as Nibble)
    else if 'A' <= c <= 'F' then Some((c as int - 'A' as int + 10) as Nibble)
    else None
  }

  /** `Guid.ToString("N")`: the 32 digits in lower case, no separators. */
  function FormatN(g: Guid): (s: string)
    ensures |s| == 32
    ensures forall i | 0 <= i < 32 :: HexValue(s[i]) == Some(g.nibbles[i]) && !('A' <= s[i] <= 'Z')
  {
    seq(32, i requires 0 <= i < 32 => HexChar(g.nibbles[i]))
  }

  /** Different GUIDs have different "N" forms. */
  lemma FormatNInjective(a: Guid, b: Guid)
    requires FormatN(a) == FormatN(b)
    ensures a == b
  {
    forall i | 0 <= i < 32 ensures a.nibbles[i] == b.nibbles[i] {
      assert HexValue(FormatN(a)[i]) == Some(a.nibbles[i]);
      assert HexValue(FormatN(b)[i]) == Some(b.nibbles[i]);
    }
  }

  /** The characters of `s` at positions `from` to `from + count` are hexadecimal digits. */
  predicate HexRun(s: string, from: nat, count: nat) {
    from + count <= |s| && forall i | from <= i < from + count :: HexValue(s[i]).Some?
  }

  /** The digits of `s` other than the dashes at 8, 13, 18 and 23 of the "D" form. */
  function DigitPositions(dashed: bool): (ps: seq<nat>)
    ensures |ps| == 32
  {
    if dashed then seq(32, i requires 0 <= i < 32 => i + (if i < 8 then 0 else if i < 12 then 1 else if i < 16 then 2 else if i < 20 then 3 else 4))
    else seq(32, i requires 0 <= i < 32 => i)
  }

  /** `s` has the "N" form (32 digits) or the "D" form (8-4-4-4-12 digits). */
  predicate GuidShaped(s: string, dashed: bool) {
    if dashed then
      |s| == 36 && s[8] == '-' && s[13] == '-' && s[18] == '-' && s[23] == '-'
      && HexRun(s, 0, 8) && HexRun(s, 9, 4) && HexRun(s, 14, 4) && HexRun(s, 19, 4) && HexRun(s, 24, 12)
    else |s| == 32 && HexRun(s, 0, 32)
  }

  lemma DigitPositionsAreDigits(s: string, dashed: bool)
    requires GuidShaped(s, dashed)
    ensures forall i | 0 <= i < 32 :: DigitPositions(dashed)[i] < |s| && HexValue(s[DigitPositions(dashed)[i]]).Some?
  {
    var ps := DigitPositions(dashed);
    forall i | 0 <= i < 32 ensures ps[i] < |s| && HexValue(s[ps[i]]).Some? {
      if dashed {
        if i < 8 {} else if i < 12 { assert HexRun(s, 9, 4); }
        else if i < 16 { assert HexRun(s, 14, 4); } else if i < 20 { assert HexRun(s, 19, 4); }
        else { assert HexRun(s, 24, 12); }
      }
    }
  }

  /**
   * `new Guid(s)` on the "N" and "D" forms, in either case, once white
   * space is trimmed from both ends; None for what it rejects with a
   * FormatException.
   */
  function ParseGuid(s: string): (g: Option<Guid>)
    ensures g.Some? ==> exists dashed: bool :: GuidShaped(Trim(s), dashed)
  {
    var t := Trim(s);
    if GuidShaped(t, false) || GuidShaped(t, true) then
      var dashed := !GuidShaped(t, false);
      var ps := DigitPositions(dashed);
      DigitPositionsAreDigits(t, dashed);
      Some(GuidDigits(seq(32, i requires 0 <= i < 32 => HexValue(t[ps[i]]).value)))
    else None
  }

  /** A GUID-shaped text has no white space to trim. */
  lemma TrimShaped(s: string, dashed: bool)
    requires GuidShaped(s, dashed)
    ensures Trim(s) == s
  {
    DigitPositionsAreDigits(s, dashed);
    assert DigitPositions(dashed)[0] == 0;
    assert DigitPositions(dashed)[31] == |s| - 1;
    assert "" + s + "" == s;
    TrimPadded("", s, "");
  }

  /** Parsing the "N" form of a GUID gives the GUID back. */
  lemma ParseFormatN(g: Guid)
    ensures ParseGuid(FormatN(g)) == Some(g)
  {
    var s := FormatN(g);
    assert GuidShaped(s, false);
    TrimShaped(s, false);
    var p := ParseGuid(s).value;
    forall i | 0 <= i < 32 ensures p.nibbles[i] == g.nibbles[i] {
      assert DigitPositions(false)[i] == i;
    }
    assert p.nibbles == g.nibbles;
  }

  /** A user id in "N" form, in either case, matches the "N" form of the GUID it parses to. */
  lemma ParsedNFormMatches(s: string)
    requires GuidShaped(s, false)
    ensures ParseGuid(s).Some? && EqualsIgnoreCase(s, FormatN(ParseGuid(s).value))
  {
    TrimShaped(s, false);
    var g := ParseGuid(s).value;
    var f := FormatN(g);
    forall i | 0 <= i < 32 ensures UpperChar(s[i]) == UpperChar(f[i]) {
      assert DigitPositions(false)[i] == i;
      assert HexRun(s, 0, 32);
      assert HexValue(s[i]) == HexValue(f[i]);
    }
    assert Fold(s) == Fold(f);
  }

  /** A "D"-form user id never equals an "N" form: its dashes are not digits. */
  lemma DashedNeverMatches(s: string, g: Guid)
    requires GuidShaped(s, true)
    ensures !EqualsIgnoreCase(s, FormatN(g))
  {
  }

  /** `UserItemData`: only the user id is used here. */
  class UserItemData {
    var userId: Guid

    constructor (userId: Guid)
      ensures this.userId == userId
    {
      this.userId := userId;
    }
  }

  /** `string.Equals(userId, i.UserId.ToString("N"), OrdinalIgnoreCase)`; a null id equals no entry. */
  predicate IsUser(userId: Option<string>, u: UserItemData)
    reads u
  {
    userId.Some? && EqualsIgnoreCase(userId.value, FormatN(u.userId))
  }

  /** The last entry of `list` that belongs to `userId`, -1 for none. */
  function LastMatch(list: seq<UserItemData>, userId: Option<string>): (k: int)
    reads set u | u in list
    ensures -1 <= k < |list|
    ensures k >= 0 ==> IsUser(userId, list[k]) && forall j | k < j < |list| :: !IsUser(userId, list[j])
    ensures k == -1 ==> forall j | 0 <= j < |list| :: !IsUser(userId, list[j])
    decreases |list|
  {
    if list == [] then -1
    else if IsUser(userId, list[|list| - 1]) then |list| - 1
    else LastMatch(list[..|list| - 1], userId)
  }

  /**
   * After an entry for an "N"-form id was appended, the next lookup of that
   * id finds it, so a second `GetOrAddUserData` adds nothing.
   */
  lemma AddedEntryIsFound(list: seq<UserItemData>, u: UserItemData, s: string)
    requires GuidShaped(s, false) && ParseGuid(s).Some? && u.userId == ParseGuid(s).value
    ensures LastMatch(list + [u], Some(s)) == |list|
  {
    ParsedNFormMatches(s);
  }

  /**
   * A "D"-form id matches no entry, so every `GetOrAddUserData` with it
   * appends another one.
   */
  lemma DashedIdNeverFound(list: seq<UserItemData>, s: string)
    requires GuidShaped(s, true)
    ensures LastMatch(list, Some(s)) == -1
  {
    forall j | 0 <= j < |list| ensures !IsUser(Some(s), list[j]) {
      DashedNeverMatches(s, list[j].userId);
    }
  }

  /**
   * An "N"-form id padded with white space is accepted, since `new Guid`
   * trims it, but it never equals an "N" form; so every `GetOrAddUserData`
   * with it appends another entry for the same GUID.
   */
  lemma PaddedIdAcceptedNeverFound(list: seq<UserItemData>, g: Guid, pad: string)
    requires pad != [] && IsBlank(pad)
    ensures ParseGuid(pad + FormatN(g) + pad) == Some(g)
    ensures LastMatch(list, Some(pad + FormatN(g) + pad)) == -1
  {
    var f := FormatN(g);
    var s := pad + f + pad;
    assert HexValue(f[0]).Some? && HexValue(f[31]).Some?;
    TrimPadded(pad, f, pad);
    ParseFormatN(g);
    TrimShaped(f, false);
    forall j | 0 <= j < |list| ensures !IsUser(Some(s), list[j]) {
      assert |Fold(s)| != |Fold(FormatN(list[j].userId))|;
    }
  }

  /** Why `GetOrAddUserData` throws: a null id, or one `new Guid` rejects. */
  datatype GuidError = NullUserId | BadGuidFormat

  /** A local image (`LocalImageInfo`): its path. */
  datatype LocalImageInfo = LocalImageInfo(path: string)

  /** `ImageType`, the kinds the values here use. */
  datatype ImageType = Primary | Art | Backdrop | Banner | Logo | Thumb | Disc | Box | Screenshot | Menu | Chapter | BoxRear | Profile

  /** A remote image: its address and kind. */
  datatype RemoteImage = RemoteImage(url: string, kind: ImageType)

  /** `PersonInfo`, by name and role. */
  datatype PersonInfo = PersonInfo(name: string, role: Option<string>)

  /** `MetadataResult<T>`; a null list is a null reference. */
  class MetadataResult<T> {
    var images: List?<LocalImageInfo>
    var remoteImages: List?<RemoteImage>
    var userDataList: List?<UserItemData>
    var people: List?<PersonInfo>
    var hasMetadata: bool
    var item: Option<T>
    var resultLanguage: Option<string>
    var provider: Option<string>
    var queriedById: bool

    /** Lines 19-22: a new result is in English and has no lists yet. */
    constructor ()
      ensures resultLanguage == Some("en")
      ensures images == null && remoteImages == null && userDataList == null && people == null
      ensures !hasMetadata && item.None? && provider.None? && !queriedById
    {
      images, remoteImages, userDataList, people := null, null, null, null;
      hasMetadata, item, provider, queriedById := false, None, None, false;
      resultLanguage := Some("en");
    }

    /** The `Images` getter, line 26: creates the list on first use, then always yields it. */
    method GetImages() returns (l: List<LocalImageInfo>)
      modifies this
      ensures images == l
      ensures old(images) != null ==> l == old(images)
      ensures old(images) == null ==> fresh(l) && l.items == []
      ensures remoteImages == old(remoteImages) && userDataList == old(userDataList) && people == old(people)
      ensures hasMetadata == old(hasMetadata) && item == old(item) && resultLanguage == old(resultLanguage)
      ensures provider == old(provider) && queriedById == old(queriedById)
    {
      if images == null {
        images := new List<LocalImageInfo>();
      }
      l := images;
    }

    /** The `Images` setter, line 27. */
    method SetImages(value: List?<LocalImageInfo>)
      modifies this
      ensures images == value
      ensures remoteImages == old(remoteImages) && userDataList == old(userDataList) && people == old(people)
      ensures hasMetadata == old(hasMetadata) && item == old(item) && resultLanguage == old(resultLanguage)
      ensures provider == old(provider) && queriedById == old(queriedById)
    {
      images := value;
    }

    /** The `RemoteImages` getter, line 32: creates the list on first use, then always yields it. */
    method GetRemoteImages() returns (l: List<RemoteImage>)
      modifies this
      ensures remoteImages == l
      ensures old(remoteImages) != null ==> l == old(remoteImages)
      ensures old(remoteImages) == null ==> fresh(l) && l.items == []
      ensures images == old(images) && userDataList == old(userDataList) && people == old(people)
      ensures hasMetadata == old(hasMetadata) && item == old(item) && resultLanguage == old(resultLanguage)
      ensures provider == old(provider) && queriedById == old(queriedById)
    {
      if remoteImages == null {
        remoteImages := new List<RemoteImage>();
      }
      l := remoteImages;
    }

    /** The `RemoteImages` setter, line 33. */
    method SetRemoteImages(value: List?<RemoteImage>)
      modifies this
      ensures remoteImages == value
      ensures images == old(images) && userDataList == old(userDataList) && people == old(people)
      ensures hasMetadata == old(hasMetadata) && item == old(item) && resultLanguage == old(resultLanguage)
      ensures provider == old(provider) && queriedById == old(queriedById)
    {
      remoteImages := value;
    }

    /**
     * `AddPerson`, lines 50-55: makes sure there is a people list, then
     * hands it to `PeopleHelper.AddPerson`, whose effect on the contents is
     * the parameter `merge`.
     */
    method AddPerson(p: PersonInfo, merge: (seq<PersonInfo>, PersonInfo) -> seq<PersonInfo>)
      modifies this, people
      ensures people != null
      ensures old(people) != null ==> people == old(people) && people.items == merge(old(people.items), p)
      ensures old(people) == null ==> fresh(people) && people.items == merge([], p)
      ensures images == old(images) && remoteImages == old(remoteImages) && userDataList == old(userDataList)
      ensures hasMetadata == old(hasMetadata) && item == old(item) && resultLanguage == old(resultLanguage)
      ensures provider == old(provider) && queriedById == old(queriedById)
    {
      if people == null {
        people := new List<PersonInfo>();
      }
      people.items := merge(people.items, p);
    }

    /**
     * `ResetPeople`, lines 60-70: afterwards there is an empty people list;
     * an existing list is cleared in place rather than replaced.
     */
    method ResetPeople()
      modifies this, people
      ensures people != null && people.items == []
      ensures old(people) != null ==> people == old(people)
      ensures old(people) == null ==> fresh(people)
      ensures images == old(images) && remoteImages == old(remoteImages) && userDataList == old(userDataList)
      ensures hasMetadata == old(hasMetadata) && item == old(item) && resultLanguage == old(resultLanguage)
      ensures provider == old(provider) && queriedById == old(queriedById)
    {
      if people == null {
        people := new List<PersonInfo>();
      } else {
        people.Clear();
      }
    }

    /**
     * `GetOrAddUserData`, lines 72-97: the last entry whose user id in "N"
     * form equals `userId` ignoring case, the list left as it was; without
     * one, a new entry for `new Guid(userId)` appended at the end. The list
     * is created first if there was none, even when `new Guid` then throws.
     */
    method GetOrAddUserData(userId: Option<string>) returns (r: Result<UserItemData, GuidError>)
      modifies this, userDataList
      ensures userDataList != null
      ensures old(userDataList) != null ==> userDataList == old(userDataList)
      ensures old(userDataList) == null ==> fresh(userDataList)
      ensures var before := if old(userDataList) == null then [] else old(userDataList.items);
        var k := old(LastMatch(before, userId));
        && (k >= 0 ==> r == Success(before[k]) && userDataList.items == before)
        && (k == -1 && userId.None? ==> r == Failure(NullUserId) && userDataList.items == before)
        && (k == -1 && userId.Some? && ParseGuid(userId.value).None? ==>
              r == Failure(BadGuidFormat) && userDataList.items == before)
        && (k == -1 && userId.Some? && ParseGuid(userId.value).Some? ==>
              && r.Success? && fresh(r.value) && r.value.userId == ParseGuid(userId.value).value
              && userDataList.items == before + [r.value])
      ensures images == old(images) && remoteImages == old(remoteImages) && people == old(people)
      ensures hasMetadata == old(hasMetadata) && item == old(item) && resultLanguage == old(resultLanguage)
      ensures provider == old(provider) && queriedById == old(queriedById)
    {
      if userDataList == null {
        userDataList := new List<UserItemData>();
      }
      var list := userDataList.items;
      var userData: UserItemData? := null;
      for i := 0 to |list|
        invariant userData == null ==> LastMatch(list[..i], userId) == -1
        invariant userData != null ==> 0 <= LastMatch(list[..i], userId) && userData == list[LastMatch(list[..i], userId)]
      {
        assert list[..i + 1][..i] == list[..i];
        if IsUser(userId, list[i]) {
          userData := list[i];
        }
      }
      assert list[..|list|] == list;
      if userData != null {
        return Success(userData);
      }
      if userId.None? {
        return Failure(NullUserId);
      }
      var guid := ParseGuid(userId.value);
      if guid.None? {
        return Failure(BadGuidFormat);
      }
      var added := new UserItemData(guid.value);
      userDataList.Add(added);
      return Success(added);
    }
  }
}
