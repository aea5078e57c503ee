/**
 * The preference editor of the frontend
 * (frontend/components/UserPreferenceDashboard.js). The component's
 * `preferences`, `customTag` and `customExcludedTag` state becomes the fields
 * of a class; each state updater becomes a method that reassigns them.
 */
module PreferenceDashboard {
  import opened Wrappers

  datatype Preferences = Preferences(genres: seq<string>, artStyles: seq<string>, excludedTags: seq<string>)

  /** The `userPreferences` prop: each list may be missing (`undefined` or `null`). */
  datatype PreferenceProps = PreferenceProps(genres: Option<seq<string>>, artStyles: Option<seq<string>>, excludedTags: Option<seq<string>>)

  /** `{ genres: userPreferences.genres || [], ... }`: a given list is kept, a missing one becomes empty. */
  function FromProps(props: PreferenceProps): (r: Preferences)
    ensures props.genres.Some? ==> r.genres == props.genres.value
    ensures props.genres.None? ==> r.genres == []
    ensures props.artStyles.Some? ==> r.artStyles == props.artStyles.value
    ensures props.artStyles.None? ==> r.artStyles == []
    ensures props.excludedTags.Some? ==> r.excludedTags == props.excludedTags.value
    ensures props.excludedTags.None? ==> r.excludedTags == []
  {
    Preferences(props.genres.GetOr([]), props.artStyles.GetOr([]), props.excludedTags.GetOr([]))
  }

  /** The `type` argument of `removeTag`: which list of `preferences` it edits. */
  datatype ListName = Genres | ArtStyles | ExcludedTags

  function ListOf(p: Preferences, name: ListName): seq<string> {
    match name
    case Genres => p.genres
    case ArtStyles => p.artStyles
    case ExcludedTags => p.excludedTags
  }

  function WithList(p: Preferences, name: ListName, xs: seq<string>): Preferences {
    match name
    case Genres => p.(genres := xs)
    case ArtStyles => p.(artStyles := xs)
    case ExcludedTags => p.(excludedTags := xs)
  }

  /** `xs.indexOf(x)`. */
  function IndexOf(xs: seq<string>, x: string): (i: int)
    ensures -1 <= i < |xs|
    ensures i == -1 <==> x !in xs
    ensures i >= 0 ==> xs[i] == x && x !in xs[..i]
  {
    if xs == [] then -1
    else if xs[0] == x then 0
    else
      var k := IndexOf(xs[1..], x);
      assert k >= 0 ==> xs[1..][..k] == xs[1..k + 1];
      if k == -1 then -1 else k + 1
  }

  /** `splice(indexOf(x), 1)` when `x` occurs: the list without its first `x`. */
  function RemoveFirst(xs: seq<string>, x: string): (r: seq<string>)
    ensures x !in xs ==> r == xs
    ensures x in xs ==> exists i :: 0 <= i < |xs| && xs[i] == x && x !in xs[..i] && r == xs[..i] + xs[i + 1..]
  {
    var i := IndexOf(xs, x);
    if i == -1 then xs else xs[..i] + xs[i + 1..]
  }

  /** The body of the `toggleGenre` and `toggleArtStyle` updaters: append an absent item, remove a present one. */
  function Toggle(xs: seq<string>, x: string): (r: seq<string>)
    ensures x !in xs ==> r == xs + [x]
    ensures x in xs ==> r == RemoveFirst(xs, x)
  {
    if IndexOf(xs, x) == -1 then xs + [x] else RemoveFirst(xs, x)
  }

  ghost predicate NoDuplicates(xs: seq<string>) {
    forall i, j :: 0 <= i < j < |xs| ==> xs[i] != xs[j]
  }

  /** Toggling an absent item appends it; toggling a present one removes its first occurrence and nothing else. */
  lemma ToggleEffect(xs: seq<string>, x: string)
    ensures x !in xs ==> Toggle(xs, x) == xs + [x]
    ensures x in xs ==> |Toggle(xs, x)| == |xs| - 1
    ensures x in xs ==> multiset(Toggle(xs, x)) == multiset(xs) - multiset{x}
    ensures x in xs ==> exists i :: 0 <= i < |xs| && xs[i] == x && x !in xs[..i] && Toggle(xs, x) == xs[..i] + xs[i + 1..]
  {
    if x in xs {
      var i := IndexOf(xs, x);
      assert xs == xs[..i] + [xs[i]] + xs[i + 1..];
      assert Toggle(xs, x) == xs[..i] + xs[i + 1..];
    }
  }

  /** Toggling an absent item twice gives the list back. */
  lemma ToggleTwiceRestores(xs: seq<string>, x: string)
    requires x !in xs
    ensures Toggle(Toggle(xs, x), x) == xs
  {
    var ys := xs + [x];
    var i := IndexOf(ys, x);
    assert forall k :: 0 <= k < |xs| ==> ys[k] == xs[k];
    assert i == |xs|;
    assert ys[..i] == xs;
  }

  /** A list without duplicates stays without duplicates, and then `x` is in it exactly when it was not before. */
  lemma ToggleKeepsNoDuplicates(xs: seq<string>, x: string)
    requires NoDuplicates(xs)
    ensures NoDuplicates(Toggle(xs, x))
    ensures x in Toggle(xs, x) <==> x !in xs
  {
    if x in xs {
      var i := IndexOf(xs, x);
      RemoveAtKeepsNoDuplicates(xs, i);
      assert RemoveFirst(xs, x) == xs[..i] + xs[i + 1..];
      assert Toggle(xs, x) == RemoveFirst(xs, x);
    } else {
      AddKeepsNoDuplicates(xs, x);
      assert Toggle(xs, x) == xs + [x];
      assert (xs + [x])[|xs|] == x;
    }
  }

  /** Proof step for `ToggleKeepsNoDuplicates`: dropping the entry at `i` leaves no copy of it and no duplicates. */
  lemma RemoveAtKeepsNoDuplicates(xs: seq<string>, i: nat)
    requires NoDuplicates(xs) && i < |xs|
    ensures NoDuplicates(xs[..i] + xs[i + 1..])
    ensures xs[i] !in xs[..i] + xs[i + 1..]
  {
    var r := xs[..i] + xs[i + 1..];
    assert forall k :: 0 <= k < |r| ==> r[k] == xs[if k < i then k else k + 1];
  }

  /** Removing an absent tag changes nothing. */
  lemma RemoveAbsent(xs: seq<string>, x: string)
    requires x !in xs
    ensures RemoveFirst(xs, x) == xs
  {
  }

  /** JavaScript's white space and line terminators, which `trim` strips. */
  predicate IsSpace(c: char) {
    var n := c as int;
    (0x09 <= n <= 0x0D) || n == 0x20 || n == 0xA0 || n == 0x1680 || (0x2000 <= n <= 0x200A)
    || n == 0x2028 || n == 0x2029 || n == 0x202F || n == 0x205F || n == 0x3000 || n == 0xFEFF
  }

  function TrimStart(s: string): (r: string)
    ensures |r| <= |s| && r == s[|s| - |r|..]
    ensures r == [] || !IsSpace(r[0])
    ensures forall k :: 0 <= k < |s| - |r| ==> IsSpace(s[k])
  {
    if s == [] || !IsSpace(s[0]) then s
    else TrimStart(s[1..])
  }

  function TrimEnd(s: string): (r: string)
    ensures |r| <= |s| && r == s[..|r|]
    ensures r == [] || !IsSpace(r[|r| - 1])
    ensures forall k :: |r| <= k < |s| ==> IsSpace(s[k])
  {
    if s == [] || !IsSpace(s[|s| - 1]) then s
    else TrimEnd(s[..|s| - 1])
  }

  /** `s[a..b]` is what is left of `s` once white space before `a` and from `b` on is cut off. */
  ghost predicate Strips(s: string, a: int, b: int) {
    && 0 <= a <= b <= |s|
    && (forall k :: 0 <= k < a ==> IsSpace(s[k]))
    && (forall k :: b <= k < |s| ==> IsSpace(s[k]))
  }

  /** Cutting white space off the start of `s`, giving `t`, and then off the end of `t`, giving `r`, strips both ends of `s`. */
  lemma TrimPiece(s: string, t: string, r: string)
    requires |t| <= |s| && t == s[|s| - |t|..] && forall k :: 0 <= k < |s| - |t| ==> IsSpace(s[k])
    requires |r| <= |t| && r == t[..|r|] && forall k :: |r| <= k < |t| ==> IsSpace(t[k])
    ensures Strips(s, |s| - |t|, |s| - |t| + |r|) && r == s[|s| - |t|..|s| - |t| + |r|]
  {
    var a := |s| - |t|;
    assert s[a..][..|r|] == s[a..a + |r|];
    forall k | a + |r| <= k < |s| ensures IsSpace(s[k]) {
      assert s[k] == t[k - a];
    }
  }

  /**
   * `s.trim()`: `s` without its leading and trailing white space, a piece of
   * `s` that neither starts nor ends with white space, empty exactly when `s`
   * is all white space.
   */
  function Trim(s: string): (r: string)
    ensures |r| <= |s|
    ensures exists a, b :: Strips(s, a, b) && r == s[a..b]
    ensures r == [] || (!IsSpace(r[0]) && !IsSpace(r[|r| - 1]))
    ensures r == [] <==> forall k :: 0 <= k < |s| ==> IsSpace(s[k])
  {
    var t := TrimStart(s);
    var r := TrimEnd(t);
    TrimPiece(s, t, r);
    assert t == [] ==> forall k :: 0 <= k < |s| ==> IsSpace(s[k]);
    assert t != [] ==> !IsSpace(s[|s| - |t|]);
    r
  }

  /** Trimming a trimmed string changes nothing. */
  lemma TrimIdempotent(s: string)
    ensures Trim(Trim(s)) == Trim(s)
  {
    var r := Trim(s);
    assert TrimStart(r) == r;
    assert TrimEnd(r) == r;
  }

  class Dashboard {
    var preferences: Preferences
    var customTag: string
    var customExcludedTag: string

    /** `useState` from the `userPreferences` prop; a missing list starts empty, both inputs start blank. */
    constructor (props: PreferenceProps)
      ensures preferences == FromProps(props) && customTag == "" && customExcludedTag == ""
    {
      preferences := FromProps(props);
      customTag := "";
      customExcludedTag := "";
    }

    /** The `useEffect` on a changed `userPreferences` prop: the lists are reset from it, the inputs are kept. */
    method Resync(props: PreferenceProps)
      modifies this
      ensures preferences == FromProps(props)
      ensures customTag == old(customTag) && customExcludedTag == old(customExcludedTag)
    {
      preferences := FromProps(props);
    }

    /** `toggleGenre(genre)`: changes `genres` only. */
    method ToggleGenre(genre: string)
      modifies this
      ensures preferences == old(preferences).(genres := Toggle(old(preferences.genres), genre))
      ensures customTag == old(customTag) && customExcludedTag == old(customExcludedTag)
    {
      var genres := preferences.genres;
      var index := IndexOf(genres, genre);
      if index == -1 {
        genres := genres + [genre];
      } else {
        genres := genres[..index] + genres[index + 1..];
      }
      preferences := preferences.(genres := genres);
    }

    /** `toggleArtStyle(style)`: changes `artStyles` only. */
    method ToggleArtStyle(style: string)
      modifies this
      ensures preferences == old(preferences).(artStyles := Toggle(old(preferences.artStyles), style))
      ensures customTag == old(customTag) && customExcludedTag == old(customExcludedTag)
    {
      var artStyles := preferences.artStyles;
      var index := IndexOf(artStyles, style);
      if index == -1 {
        artStyles := artStyles + [style];
      } else {
        artStyles := artStyles[..index] + artStyles[index + 1..];
      }
      preferences := preferences.(artStyles := artStyles);
    }

    /** `addCustomTag`: appends the trimmed input to `genres` when it is non-empty and new, then clears the input. */
    method AddCustomTag()
      modifies this
      ensures var t := Trim(old(customTag));
        if t != "" && t !in old(preferences.genres) then
          preferences == old(preferences).(genres := old(preferences.genres) + [t]) && customTag == ""
        else
          preferences == old(preferences) && customTag == old(customTag)
      ensures customExcludedTag == old(customExcludedTag)
    {
      var t := Trim(customTag);
      if t != "" && t !in preferences.genres {
        preferences := preferences.(genres := preferences.genres + [t]);
        customTag := "";
      }
    }

    /** `addExcludedTag`: the same for `excludedTags` and its own input. */
    method AddExcludedTag()
      modifies this
      ensures var t := Trim(old(customExcludedTag));
        if t != "" && t !in old(preferences.excludedTags) then
          preferences == old(preferences).(excludedTags := old(preferences.excludedTags) + [t]) && customExcludedTag == ""
        else
          preferences == old(preferences) && customExcludedTag == old(customExcludedTag)
      ensures customTag == old(customTag)
    {
      var t := Trim(customExcludedTag);
      if t != "" && t !in preferences.excludedTags {
        preferences := preferences.(excludedTags := preferences.excludedTags + [t]);
        customExcludedTag := "";
      }
    }

    /** `removeTag(tag, type)`: removes the first occurrence of `tag` from the named list. */
    method RemoveTag(tag: string, name: ListName)
      modifies this
      ensures preferences == WithList(old(preferences), name, RemoveFirst(ListOf(old(preferences), name), tag))
      ensures customTag == old(customTag) && customExcludedTag == old(customExcludedTag)
    {
      var list := ListOf(preferences, name);
      var index := IndexOf(list, tag);
      if index != -1 {
        list := list[..index] + list[index + 1..];
      }
      preferences := WithList(preferences, name, list);
    }
  }

  /** Adding through `addCustomTag` keeps a duplicate-free genre list duplicate-free. */
  lemma AddKeepsNoDuplicates(xs: seq<string>, t: string)
    requires NoDuplicates(xs) && t !in xs
    ensures NoDuplicates(xs + [t])
  {
  }
}
