/**
 * Start-up configuration of the middleware: the upstream base URL and the
 * list of group names taken from the comma-separated GROUP_NAMES setting.
 * The environment is an immutable map from variable name to value.
 */
module GroupConfig {
  import opened Text
  import opened Lists

  const DefaultStashUrl: string := "http://192.168.1.75:9999"
  const DefaultGroupNames: string := "Erin"

  datatype Config = Config(stashUrl: string, groupNames: seq<string>)

  /** `process.env[key] || default`: an unset or empty variable yields the default. */
  function EnvOr(env: map<string, string>, key: string, default: string): (r: string)
    ensures key in env && env[key] != [] ==> r == env[key]
    ensures key !in env || env[key] == [] ==> r == default
  {
    if key in env && env[key] != [] then env[key] else default
  }

  /** A well-formed group name: non-empty, no surrounding whitespace, no comma. */
  predicate IsGroupName(name: string) {
    name != [] && Trimmed(name) && ',' !in name
  }

  /** `pieces.map(p => p.trim())`. */
  function TrimEach(pieces: seq<string>): (r: seq<string>)
    ensures |r| == |pieces|
    ensures forall i :: 0 <= i < |pieces| ==> r[i] == Trim(pieces[i])
  {
    MapEach(Trim, pieces)
  }

  /** `names.filter(n => n.length > 0)`: the non-empty strings, in their order. */
  function DropEmpty(names: seq<string>): (r: seq<string>)
    ensures |r| <= |names|
    ensures forall i :: 0 <= i < |r| ==> r[i] != []
    ensures forall x :: x in r <==> x in names && x != []
    decreases |names|
  {
    if names == [] then []
    else if names[0] == [] then DropEmpty(names[1..])
    else [names[0]] + DropEmpty(names[1..])
  }

  lemma {:induction false} DropEmptyAppend(a: seq<string>, b: seq<string>)
    ensures DropEmpty(a + b) == DropEmpty(a) + DropEmpty(b)
    decreases |a|
  {
    if a == [] {
      assert a + b == b;
    } else {
      assert (a + b)[1..] == a[1..] + b;
      DropEmptyAppend(a[1..], b);
    }
  }

  lemma {:induction false} DropEmptyKeepsNonEmpty(names: seq<string>)
    requires forall i :: 0 <= i < |names| ==> names[i] != []
    ensures DropEmpty(names) == names
    decreases |names|
  {
    if names != [] {
      DropEmptyKeepsNonEmpty(names[1..]);
      assert [names[0]] + names[1..] == names;
    }
  }

  /** `raw.split(',').map(name => name.trim()).filter(name => name.length > 0)`. */
  function ParseGroupNames(raw: string): (names: seq<string>)
    ensures forall i :: 0 <= i < |names| ==> IsGroupName(names[i])
  {
    var pieces := Split(raw, ',');
    TrimmedPiecesAreNames(pieces);
    DropEmpty(TrimEach(pieces))
  }

  lemma TrimmedPiecesAreNames(pieces: seq<string>)
    requires forall i :: 0 <= i < |pieces| ==> ',' !in pieces[i]
    ensures forall i :: 0 <= i < |DropEmpty(TrimEach(pieces))| ==> IsGroupName(DropEmpty(TrimEach(pieces))[i])
  {
    var trimmed := TrimEach(pieces);
    var names := DropEmpty(trimmed);
    forall i | 0 <= i < |names| ensures IsGroupName(names[i]) {
      assert names[i] in trimmed;
      var j :| 0 <= j < |trimmed| && trimmed[j] == names[i];
      TrimIsInfix(pieces[j]);
    }
  }

  /** What `trim` returns is a piece of its input, so it has no character the input lacks. */
  lemma TrimIsInfix(s: string)
    ensures forall c :: c in Trim(s) ==> c in s
  {
    var t := TrimStart(s);
    var r := TrimEnd(t);
    forall i | 0 <= i < |r| ensures r[i] in s {
      assert r[i] == t[i] == s[|s| - |t| + i];
    }
  }

  /** Order: the names before a comma come before the names after it. */
  lemma ParseGroupNamesAppend(a: string, b: string)
    ensures ParseGroupNames(a + "," + b) == ParseGroupNames(a) + ParseGroupNames(b)
  {
    assert a + "," + b == a + [','] + b;
    SplitAtSeparator(a, b, ',');
    var pa, pb := Split(a, ','), Split(b, ',');
    MapEachAppend(Trim, pa, pb);
    DropEmptyAppend(TrimEach(pa), TrimEach(pb));
  }

  /**
   * A setting without a comma names the trimmed setting, or nothing when it
   * is all whitespace.  With ParseGroupNamesAppend this determines the parse
   * of every setting.
   */
  lemma ParseGroupNamesPiece(s: string)
    requires ',' !in s
    ensures ParseGroupNames(s) == if AllSpace(s) then [] else [Trim(s)]
  {
    SplitNoSeparator(s, ',');
    assert TrimEach([s]) == [Trim(s)];
    if !AllSpace(s) {
      DropEmptyKeepsNonEmpty([Trim(s)]);
    }
  }

  /** Round trip: joining well-formed names with commas and parsing gives the same names back, in order. */
  lemma ParseJoinedGroupNames(names: seq<string>)
    requires forall i :: 0 <= i < |names| ==> IsGroupName(names[i])
    ensures ParseGroupNames(Join(names, ',')) == names
  {
    var joined := Join(names, ',');
    if names == [] {
      assert Split(joined, ',') == [[]];
      assert TrimEach([[]]) == [[]];
      assert DropEmpty([[]]) == [];
    } else {
      SplitJoin(names, ',');
      assert Split(joined, ',') == names;
      TrimEachKeepsTrimmed(names);
      DropEmptyKeepsNonEmpty(names);
    }
  }

  lemma TrimEachKeepsTrimmed(names: seq<string>)
    requires forall i :: 0 <= i < |names| ==> Trimmed(names[i])
    ensures TrimEach(names) == names
  {
    forall i | 0 <= i < |names| ensures TrimEach(names)[i] == names[i] {
      TrimKeepsTrimmed(names[i]);
    }
  }

  /** A setting that is only commas and whitespace names no group at all: the default does not apply. */
  lemma {:induction false} BlankSettingNamesNoGroup(raw: string)
    requires forall i :: 0 <= i < |raw| ==> raw[i] == ',' || IsSpace(raw[i])
    ensures ParseGroupNames(raw) == []
    decreases |raw|
  {
    if ',' !in raw {
      SplitNoSeparator(raw, ',');
      assert AllSpace(raw);
      assert TrimEach([raw]) == [[]];
      assert DropEmpty([[]]) == [];
    } else {
      var k :| 0 <= k < |raw| && raw[k] == ',';
      assert raw == raw[..k] + "," + raw[k + 1..];
      BlankSettingNamesNoGroup(raw[..k]);
      BlankSettingNamesNoGroup(raw[k + 1..]);
      ParseGroupNamesAppend(raw[..k], raw[k + 1..]);
    }
  }

  /** `GROUP_NAMES` after the default for an unset or empty variable. */
  function GroupNames(env: map<string, string>): (names: seq<string>)
    ensures forall i :: 0 <= i < |names| ==> IsGroupName(names[i])
  {
    ParseGroupNames(EnvOr(env, "GROUP_NAMES", DefaultGroupNames))
  }

  /** With GROUP_NAMES unset or empty, the one configured group is "Erin". */
  lemma DefaultGroupIsErin(env: map<string, string>)
    requires "GROUP_NAMES" !in env || env["GROUP_NAMES"] == []
    ensures GroupNames(env) == ["Erin"]
  {
    assert IsGroupName(DefaultGroupNames);
    ParseJoinedGroupNames([DefaultGroupNames]);
  }

  /** The configuration read once at start-up. */
  function ConfigFromEnv(env: map<string, string>): (c: Config)
    ensures c.stashUrl != []
    ensures c.groupNames == GroupNames(env)
    ensures "STASH_URL" in env && env["STASH_URL"] != [] ==> c.stashUrl == env["STASH_URL"]
    ensures "STASH_URL" !in env || env["STASH_URL"] == [] ==> c.stashUrl == DefaultStashUrl
  {
    Config(EnvOr(env, "STASH_URL", DefaultStashUrl), GroupNames(env))
  }
}
