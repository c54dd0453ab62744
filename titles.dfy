/**
 * Filenames and titles of playlist entries: stripping the final extension
 * with the regular expression /\.[^/.]+$/ and turning '-' and '_' into
 * spaces.
 */
module Titles {
  import opened Wrappers
  import opened Text

  /**
   * `t` is a whole match of /\.[^/.]+$/ standing at the end of the input:
   * a dot followed by one or more characters that are neither '/' nor '.'.
   */
  predicate IsExtSuffix(t: string) {
    |t| >= 2 && t[0] == '.' && forall i :: 1 <= i < |t| ==> t[i] != '/' && t[i] != '.'
  }

  /**
   * Where the regular expression's first (leftmost) match starts, searching
   * the start positions from left to right as `String.prototype.replace`
   * does; None when there is no match.
   */
  function ExtensionStart(s: string): (k: Option<nat>)
    ensures k.Some? ==> k.value < |s| && IsExtSuffix(s[k.value..])
    ensures k.Some? ==> forall j :: 0 <= j < k.value ==> !IsExtSuffix(s[j..])
    ensures k.None? ==> forall j :: 0 <= j < |s| ==> !IsExtSuffix(s[j..])
    decreases |s|
  {
    if s == [] then None
    else if IsExtSuffix(s) then
      assert s[0..] == s;
      Some(0)
    else
      var rest := ExtensionStart(s[1..]);
      assert forall j :: 1 <= j <= |s| ==> s[1..][j - 1..] == s[j..];
      assert s[0..] == s;
      match rest
      case Some(k) => Some(k + 1)
      case None => None
  }

  /** A string has at most one match: the dot of a match is the last dot of the string. */
  lemma ExtSuffixUnique(s: string, i: nat, j: nat)
    requires i < j <= |s|
    requires IsExtSuffix(s[i..])
    ensures !IsExtSuffix(s[j..])
  {
    if j < |s| {
      assert s[i..][j - i] == s[j];
    }
  }

  /**
   * `s.replace(/\.[^/.]+$/, '')`: the result is a prefix of `s`; it differs
   * from `s` exactly when `s` has a match, and what was cut off is that match.
   */
  function StripExtension(s: string): (r: string)
    ensures r <= s
    ensures r == s <==> forall j :: 0 <= j < |s| ==> !IsExtSuffix(s[j..])
    ensures r != s ==> IsExtSuffix(s[|r|..])
  {
    match ExtensionStart(s)
    case Some(k) => s[..k]
    case None => s
  }

  /** Where there is a match, the stripped name ends exactly where the match starts. */
  lemma StripExtensionAt(s: string, k: nat)
    requires k < |s| && IsExtSuffix(s[k..])
    ensures StripExtension(s) == s[..k]
  {
    var r := StripExtension(s);
    assert r != s;
    if |r| < k {
      ExtSuffixUnique(s, |r|, k);
    } else if k < |r| {
      ExtSuffixUnique(s, k, |r|);
    }
  }

  /** The examples of the extension rule: only the last suffix goes, a bare dot or a slash stops it. */
  lemma StripExtensionExamples()
    ensures StripExtension("a.b.mp4") == "a.b"
    ensures StripExtension("a.") == "a."
    ensures StripExtension(".mkv") == ""
    ensures StripExtension("v1.0/clip") == "v1.0/clip"
  {
    var s := "a.b.mp4";
    assert IsExtSuffix(s[3..]);
    StripExtensionAt(s, 3);

    var t := "a.";
    forall j | 0 <= j < |t| ensures !IsExtSuffix(t[j..]) {
      assert t[j..][|t[j..]| - 1] == '.';
    }

    var m := ".mkv";
    assert m[0..] == m;
    StripExtensionAt(m, 0);

    var v := "v1.0/clip";
    forall j | 0 <= j < |v| ensures !IsExtSuffix(v[j..]) {
      if j <= 4 {
        assert v[j..][4 - j] == '/';
        if j < 4 {
          assert |v[j..]| >= 2;
        }
      }
    }
  }

  /** The separator characters of a filename, which titles show as spaces. */
  predicate IsSeparator(c: char) {
    c == '-' || c == '_'
  }

  /**
   * The title shown for a scene without one: the filename without its
   * extension, with every '-' and then every '_' replaced by a space.
   * It is as long as the stripped filename, holds no separator, and agrees
   * with the filename everywhere else.
   */
  function DeriveTitle(filename: string): (title: string)
    ensures |title| == |StripExtension(filename)| <= |filename|
    ensures '-' !in title && '_' !in title
    ensures forall i :: 0 <= i < |title| ==>
              title[i] == (if IsSeparator(filename[i]) then ' ' else filename[i])
  {
    var stem := StripExtension(filename);
    assert forall i :: 0 <= i < |stem| ==> stem[i] == filename[i];
    ReplaceAll(ReplaceAll(stem, '-', ' '), '_', ' ')
  }

  /**
   * `scene.title || <derived title>`: a non-empty title of the scene is used
   * as it is; a missing or empty one is derived from the filename.
   */
  function EntryTitle(sceneTitle: Option<string>, filename: string): (title: string)
    ensures sceneTitle.Some? && sceneTitle.value != [] ==> title == sceneTitle.value
    ensures sceneTitle.None? || sceneTitle.value == [] ==>
              title == DeriveTitle(filename) && '-' !in title && '_' !in title
  {
    if sceneTitle.Some? && sceneTitle.value != [] then sceneTitle.value else DeriveTitle(filename)
  }
}
