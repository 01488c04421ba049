/** The profile page's form handling: the stored row has nullable fields,
    the form has plain strings; loading maps `null` to `""` and saving maps
    `""` back to `null`.  The avatar fallback shows the initials of the
    display name. */
module Profile {
  import opened Wrappers
  import opened JsText

  /** The form: `{display_name, bio, academic_level, avatar_url}`. */
  datatype ProfileData = ProfileData(displayName: string, bio: string, academicLevel: string, avatarUrl: string)

  /** The stored row, each column nullable. */
  datatype ProfileRow = ProfileRow(
    displayName: Option<string>, bio: Option<string>, academicLevel: Option<string>, avatarUrl: Option<string>)

  /** `value ?? ""` */
  function OrEmpty(v: Option<string>): (r: string)
    ensures v.None? ==> r == ""
    ensures v.Some? ==> r == v.value
  {
    v.GetOr("")
  }

  /** `value || null` for a string */
  function OrNull(s: string): (r: Option<string>)
    ensures s == "" <==> r.None?
    ensures s != "" ==> r == Some(s)
  {
    if s == "" then None else Some(s)
  }

  /** The form filled from a loaded row. */
  function Load(row: ProfileRow): (f: ProfileData)
    ensures f.displayName == OrEmpty(row.displayName) && f.bio == OrEmpty(row.bio)
    ensures f.academicLevel == OrEmpty(row.academicLevel) && f.avatarUrl == OrEmpty(row.avatarUrl)
  {
    ProfileData(OrEmpty(row.displayName), OrEmpty(row.bio), OrEmpty(row.academicLevel), OrEmpty(row.avatarUrl))
  }

  /** The update sent on save. */
  function Save(f: ProfileData): (row: ProfileRow)
    ensures row.displayName == OrNull(f.displayName) && row.bio == OrNull(f.bio)
    ensures row.academicLevel == OrNull(f.academicLevel) && row.avatarUrl == OrNull(f.avatarUrl)
  {
    ProfileRow(OrNull(f.displayName), OrNull(f.bio), OrNull(f.academicLevel), OrNull(f.avatarUrl))
  }

  /** Saving a form and loading it back gives the same form. */
  lemma LoadSave(f: ProfileData)
    ensures Load(Save(f)) == f
  {
  }

  predicate NoEmptyString(v: Option<string>) {
    v != Some("")
  }

  /** Loading and saving a row gives it back exactly when no column holds
      the empty string, which the form cannot tell apart from `null`. */
  lemma SaveLoad(row: ProfileRow)
    ensures Save(Load(row)) == row <==>
      NoEmptyString(row.displayName) && NoEmptyString(row.bio) &&
      NoEmptyString(row.academicLevel) && NoEmptyString(row.avatarUrl)
  {
  }

  /** The first character of each word (`n => n[0]`); an empty word gives
      `undefined`, which `join("")` prints as nothing. */
  function FirstChars(words: seq<string>): (r: string)
    ensures |r| <= |words|
  {
    if words == [] then ""
    else (if words[0] == "" then "" else [words[0][0]]) + FirstChars(words[1..])
  }

  const NoName: string := "?"

  /** `initials` */
  function Initials(displayName: string): (r: string)
    ensures |r| <= 2
    ensures displayName == "" ==> r == NoName
  {
    if displayName == "" then NoName
    else Take(ToUpper(FirstChars(Split(displayName, ' '))), 2)
  }

  /** The initials of words joined by single spaces: the upper-cased first
      letters of the first two words. */
  lemma InitialsOfWords(words: seq<string>)
    requires |words| >= 1
    requires forall k :: 0 <= k < |words| ==> words[k] != "" && ' ' !in words[k]
    ensures var heads := seq(|words|, k requires 0 <= k < |words| => UpperChar(words[k][0]));
      Initials(Join(words, ' ')) == Take(heads, 2)
  {
    SplitJoin(words, ' ');
    FirstCharsOfNonEmpty(words);
    if |words| == 1 {
      assert Join(words, ' ') == words[0];
    } else {
      assert Join(words, ' ') == words[0] + [' '] + Join(words[1..], ' ');
    }
  }

  lemma {:induction false} FirstCharsOfNonEmpty(words: seq<string>)
    requires forall k :: 0 <= k < |words| ==> words[k] != ""
    ensures ToUpper(FirstChars(words)) == seq(|words|, k requires 0 <= k < |words| => UpperChar(words[k][0]))
  {
    if words != [] {
      FirstCharsOfNonEmpty(words[1..]);
      ToUpperAppend([words[0][0]], FirstChars(words[1..]));
    }
  }

  /** The words of `words` that are not empty, in order. */
  function NonEmptyWords(words: seq<string>): (r: seq<string>)
    ensures |r| <= |words|
    ensures forall k :: 0 <= k < |r| ==> r[k] != ""
  {
    if words == [] then []
    else (if words[0] == "" then [] else [words[0]]) + NonEmptyWords(words[1..])
  }

  /** The first character of each of `words`. */
  function Heads(words: seq<string>): (r: string)
    requires forall k :: 0 <= k < |words| ==> words[k] != ""
    ensures |r| == |words| && forall k :: 0 <= k < |r| ==> r[k] == words[k][0]
  {
    seq(|words|, k requires 0 <= k < |words| => words[k][0])
  }

  /** Empty words add nothing: the first characters are those of the
      non-empty words, in order. */
  lemma {:induction false} FirstCharsSkipEmpty(words: seq<string>)
    ensures FirstChars(words) == Heads(NonEmptyWords(words))
  {
    if words != [] {
      FirstCharsSkipEmpty(words[1..]);
      var rest := NonEmptyWords(words[1..]);
      if words[0] != "" {
        HeadsCons(words[0], rest);
      } else {
        assert NonEmptyWords(words) == rest;
      }
    }
  }

  lemma HeadsCons(w: string, rest: seq<string>)
    requires w != "" && forall k :: 0 <= k < |rest| ==> rest[k] != ""
    ensures Heads([w] + rest) == [w[0]] + Heads(rest)
  {
  }

  /** A non-empty name shows the upper-cased first characters of its first
      two non-empty space-separated words. */
  lemma InitialsOfName(displayName: string)
    requires displayName != ""
    ensures Initials(displayName) == Take(ToUpper(Heads(NonEmptyWords(Split(displayName, ' ')))), 2)
  {
    FirstCharsSkipEmpty(Split(displayName, ' '));
  }

  /** A name of spaces only has no initials at all, not the `?` fallback. */
  lemma SpacesOnlyHaveNoInitials(displayName: string)
    requires displayName != "" && forall k :: 0 <= k < |displayName| ==> displayName[k] == ' '
    ensures Initials(displayName) == ""
  {
    SplitOfSpaces(displayName);
    FirstCharsOfEmpty(Split(displayName, ' '));
  }

  lemma {:induction false} SplitOfSpaces(s: string)
    requires forall k :: 0 <= k < |s| ==> s[k] == ' '
    ensures forall k :: 0 <= k < |Split(s, ' ')| ==> Split(s, ' ')[k] == ""
    decreases |s|
  {
    if s != [] {
      assert IndexOf(s, ' ') == 0;
      SplitOfSpaces(s[1..]);
    }
  }

  lemma {:induction false} FirstCharsOfEmpty(words: seq<string>)
    requires forall k :: 0 <= k < |words| ==> words[k] == ""
    ensures FirstChars(words) == ""
  {
    if words != [] {
      FirstCharsOfEmpty(words[1..]);
    }
  }

  /** The fallback `?` is also what the name `?` itself shows, so `?` does
      not by itself mean that the name is empty. */
  lemma QuestionMarkName()
    ensures Initials(NoName) == NoName && NoName != ""
  {
    assert IndexOf(NoName, ' ') == -1;
    assert Split(NoName, ' ') == [NoName];
    assert FirstChars([NoName]) == "?" + FirstChars([]);
  }
}
