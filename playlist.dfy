/**
 * `fetchGroupScenes`: from the replies of the two GraphQL queries for one
 * group to the playlist entries of that group, one per scene.
 */
module Playlist {
  import opened Wrappers
  import opened Titles
  import opened StashApi

  /** The bag of catalogue fields carried along with each entry (`_erin`). */
  datatype Metadata = Metadata(
    stashId: string,
    stashGroup: string,
    screenshot: Option<string>,
    date: Option<string>,
    rating: Option<int>,
    duration: Option<real>,
    width: Option<int>,
    height: Option<int>,
    studio: Option<string>,
    performers: seq<string>,
    tags: seq<string>)

  /** One item of the playlist served to the media player. */
  datatype Entry = Entry(
    url: string,
    filename: string,
    title: string,
    extension: string,
    playlist: string,
    metadataURL: bool,
    erin: Metadata)

  /** The catalogue server's streaming endpoint for a scene. */
  function StreamUrl(stashUrl: string, sceneId: string): (url: string)
    ensures |url| == |stashUrl| + |sceneId| + 14
    ensures url[..|stashUrl|] == stashUrl
  {
    stashUrl + "/scene/" + sceneId + "/stream"
  }

  /** Different scenes get different stream URLs: the id can be read back from the URL. */
  lemma StreamUrlInjective(stashUrl: string, a: string, b: string)
    requires StreamUrl(stashUrl, a) == StreamUrl(stashUrl, b)
    ensures a == b
  {
    var n := |stashUrl| + 7;
    var u := StreamUrl(stashUrl, a);
    assert |a| == |b|;
    assert u[n..n + |a|] == a;
    assert StreamUrl(stashUrl, b)[n..n + |b|] == b;
  }

  /** The scene's first file has a non-empty basename. */
  predicate HasBasename(scene: Scene) {
    |scene.files| > 0 && scene.files[0].basename.Some? && scene.files[0].basename.value != []
  }

  /** `primaryFile?.basename || \`Scene ${scene.id}\``: never empty. */
  function Filename(scene: Scene): (name: string)
    ensures name != []
    ensures HasBasename(scene) ==> name == scene.files[0].basename.value
    ensures !HasBasename(scene) ==> name == "Scene " + scene.id
  {
    if HasBasename(scene) then scene.files[0].basename.value else "Scene " + scene.id
  }

  /** `list?.map(x => x.name) || []`: the names in list order, none for a missing list. */
  function Names(list: Option<seq<Named>>): (names: seq<string>)
    ensures list.None? ==> names == []
    ensures list.Some? ==> |names| == |list.value|
    ensures list.Some? ==> forall i :: 0 <= i < |names| ==> names[i] == list.value[i].name
  {
    match list
    case None => []
    case Some(xs) => seq(|xs|, i requires 0 <= i < |xs| => xs[i].name)
  }

  /** `primaryFile`: the first of the scene's files, if it has any. */
  function PrimaryFile(scene: Scene): (f: Option<VideoFile>)
    ensures f.Some? <==> |scene.files| > 0
    ensures f.Some? ==> f.value == scene.files[0]
  {
    if |scene.files| > 0 then Some(scene.files[0]) else None
  }

  /**
   * The fixed shape of every entry made for group `groupName`: the stream
   * URL of the scene it names, extension "mp4", the group as playlist and
   * as `stashGroup`, `metadataURL` false, and a non-empty filename.
   */
  predicate IsEntryFor(stashUrl: string, groupName: string, e: Entry) {
    && e.url == StreamUrl(stashUrl, e.erin.stashId)
    && e.extension == "mp4"
    && e.playlist == groupName
    && e.erin.stashGroup == groupName
    && !e.metadataURL
    && e.filename != []
  }

  /** The entry for one scene of group `groupName`. */
  function SceneToEntry(stashUrl: string, groupName: string, scene: Scene): (e: Entry)
    ensures IsEntryFor(stashUrl, groupName, e)
    ensures e.erin.stashId == scene.id
    ensures e.filename == Filename(scene)
    ensures e.title == EntryTitle(scene.title, e.filename)
    ensures e.erin.performers == Names(scene.performers) && e.erin.tags == Names(scene.tags)
    ensures e.erin.date == scene.date && e.erin.rating == scene.rating100
    ensures e.erin.studio == if scene.studio.Some? then Some(scene.studio.value.name) else None
    ensures e.erin.screenshot == if scene.paths.Some? then scene.paths.value.screenshot else None
    ensures |scene.files| == 0 ==> e.erin.duration.None? && e.erin.width.None? && e.erin.height.None?
    ensures |scene.files| > 0 ==>
              e.erin.duration == scene.files[0].duration
              && e.erin.width == scene.files[0].width
              && e.erin.height == scene.files[0].height
  {
    var file := PrimaryFile(scene);
    var filename := Filename(scene);
    Entry(
      url := StreamUrl(stashUrl, scene.id),
      filename := filename,
      title := EntryTitle(scene.title, filename),
      extension := "mp4",
      playlist := groupName,
      metadataURL := false,
      erin := Metadata(
        stashId := scene.id,
        stashGroup := groupName,
        screenshot := if scene.paths.Some? then scene.paths.value.screenshot else None,
        date := scene.date,
        rating := scene.rating100,
        duration := if file.Some? then file.value.duration else None,
        width := if file.Some? then file.value.width else None,
        height := if file.Some? then file.value.height else None,
        studio := if scene.studio.Some? then Some(scene.studio.value.name) else None,
        performers := Names(scene.performers),
        tags := Names(scene.tags)))
  }

  /** `.filter(v => v !== null)`: the present values, in order. */
  function NonNull<T(!new)>(xs: seq<Option<T>>): (r: seq<T>)
    ensures |r| <= |xs|
    ensures forall x :: x in r <==> Some(x) in xs
    decreases |xs|
  {
    if xs == [] then []
    else
      assert xs == [xs[0]] + xs[1..];
      if xs[0].None? then NonNull(xs[1..]) else [xs[0].value] + NonNull(xs[1..])
  }

  /** When no element is null the filter removes nothing. */
  lemma {:induction false} NonNullKeepsAll<T(!new)>(xs: seq<Option<T>>)
    requires forall i :: 0 <= i < |xs| ==> xs[i].Some?
    ensures |NonNull(xs)| == |xs|
    ensures forall i :: 0 <= i < |xs| ==> NonNull(xs)[i] == xs[i].value
    decreases |xs|
  {
    if xs != [] {
      NonNullKeepsAll(xs[1..]);
    }
  }

  /**
   * `scenes.map(scene => ({...})).filter(v => v !== null)`: exactly one
   * entry per scene, in scene order.
   */
  function ScenesToEntries(stashUrl: string, groupName: string, scenes: seq<Scene>): (es: seq<Entry>)
    ensures |es| == |scenes|
    ensures forall i :: 0 <= i < |scenes| ==> es[i] == SceneToEntry(stashUrl, groupName, scenes[i])
  {
    var mapped := seq(|scenes|, i requires 0 <= i < |scenes| => Some(SceneToEntry(stashUrl, groupName, scenes[i])));
    NonNullKeepsAll(mapped);
    NonNull(mapped)
  }

  /**
   * `fetchGroupScenes(groupName)`: look the group up by name; no group
   * found gives no entries; otherwise ask for the first group's scenes by
   * its id; no group or no scene list in that answer gives no entries;
   * otherwise one entry per scene.  A failed query, or reading a member of
   * a null `data`, fails the whole group.
   */
  function FetchGroupScenes(stashUrl: string, upstream: Upstream, groupName: string): (r: Result<seq<Entry>, StashError>)
    ensures r.Success? ==> forall e :: e in r.value ==> IsEntryFor(stashUrl, groupName, e)
  {
    match QueryStash(upstream.findGroups(groupName))
    case Failure(err) => Failure(err)
    case Success(groupData) =>
      if groupData.None? then Failure(NullDereference("findGroups"))
      else if groupData.value.findGroups.None? then Failure(NullDereference("findGroups.groups"))
      else
        var groups := groupData.value.findGroups.value.groups;
        if groups.None? || |groups.value| == 0 then Success([])
        else
          var group := groups.value[0];
          match QueryStash(upstream.groupScenes(group.id))
          case Failure(err) => Failure(err)
          case Success(scenesData) =>
            if scenesData.None? then Failure(NullDereference("findGroup"))
            else if scenesData.value.findGroup.None? || scenesData.value.findGroup.value.scenes.None? then Success([])
            else
              var es := ScenesToEntries(stashUrl, groupName, scenesData.value.findGroup.value.scenes.value);
              assert forall e :: e in es ==> IsEntryFor(stashUrl, groupName, e);
              Success(es)
  }

  /** The groups the FindGroup reply lists, when the reply is healthy and has them. */
  function FoundGroups(reply: Reply<FindGroupsData>): Option<seq<GroupRef>>
  {
    if Healthy(reply) && Data(reply).findGroups.Some? then Data(reply).findGroups.value.groups
    else None
  }

  /** The scenes the GetGroupScenes reply lists, when the reply is healthy and has them. */
  function FoundScenes(reply: Reply<ScenesData>): Option<seq<Scene>>
  {
    if Healthy(reply) && Data(reply).findGroup.Some? then Data(reply).findGroup.value.scenes
    else None
  }

  /** A group name the catalogue does not know yields no entries and no error. */
  lemma GroupNotFoundYieldsNothing(stashUrl: string, upstream: Upstream, groupName: string)
    requires Healthy(upstream.findGroups(groupName))
    requires Data(upstream.findGroups(groupName)).findGroups.Some?
    requires FoundGroups(upstream.findGroups(groupName)) in {None, Some([])}
    ensures FetchGroupScenes(stashUrl, upstream, groupName) == Success([])
  {
  }

  /** A found group whose scene query answers without a group or a scene list yields no entries. */
  lemma GroupWithoutScenesYieldsNothing(stashUrl: string, upstream: Upstream, groupName: string, groups: seq<GroupRef>)
    requires FoundGroups(upstream.findGroups(groupName)) == Some(groups) && |groups| > 0
    requires Healthy(upstream.groupScenes(groups[0].id))
    requires FoundScenes(upstream.groupScenes(groups[0].id)).None?
    ensures FetchGroupScenes(stashUrl, upstream, groupName) == Success([])
  {
  }

  /**
   * When both queries answer with data, the group's entries are one per
   * scene of the FIRST group found, in scene order, each naming its scene.
   */
  lemma OneEntryPerScene(stashUrl: string, upstream: Upstream, groupName: string, groups: seq<GroupRef>, scenes: seq<Scene>)
    requires FoundGroups(upstream.findGroups(groupName)) == Some(groups) && |groups| > 0
    requires FoundScenes(upstream.groupScenes(groups[0].id)) == Some(scenes)
    ensures FetchGroupScenes(stashUrl, upstream, groupName) == Success(ScenesToEntries(stashUrl, groupName, scenes))
    ensures var es := FetchGroupScenes(stashUrl, upstream, groupName).value;
            && |es| == |scenes|
            && forall i :: 0 <= i < |scenes| ==>
                 es[i].erin.stashId == scenes[i].id && es[i].url == StreamUrl(stashUrl, scenes[i].id)
  {
  }

  /** A lookup answered with a null `findGroups` makes reading its `groups` throw, which fails the group. */
  lemma NullFindGroupsFails(stashUrl: string, upstream: Upstream, groupName: string)
    requires Healthy(upstream.findGroups(groupName))
    requires Data(upstream.findGroups(groupName)).findGroups.None?
    ensures FetchGroupScenes(stashUrl, upstream, groupName) == Failure(NullDereference("findGroups.groups"))
  {
  }

  /** A scene query answered with null `data` makes reading `findGroup` throw, which fails the group. */
  lemma NullScenesDataFails(stashUrl: string, upstream: Upstream, groupName: string, groups: seq<GroupRef>)
    requires FoundGroups(upstream.findGroups(groupName)) == Some(groups) && |groups| > 0
    requires QueryStash(upstream.groupScenes(groups[0].id)) == Success(None)
    ensures FetchGroupScenes(stashUrl, upstream, groupName) == Failure(NullDereference("findGroup"))
  {
  }

  /** A failed query fails the group with that query's error. */
  lemma QueryFailurePropagates(stashUrl: string, upstream: Upstream, groupName: string)
    requires QueryStash(upstream.findGroups(groupName)).Failure?
    ensures FetchGroupScenes(stashUrl, upstream, groupName) == Failure(QueryStash(upstream.findGroups(groupName)).error)
  {
  }

  /** A failed scene query for the first group found fails the group with that query's error. */
  lemma SceneQueryFailurePropagates(stashUrl: string, upstream: Upstream, groupName: string, groups: seq<GroupRef>)
    requires FoundGroups(upstream.findGroups(groupName)) == Some(groups) && |groups| > 0
    requires QueryStash(upstream.groupScenes(groups[0].id)).Failure?
    ensures FetchGroupScenes(stashUrl, upstream, groupName) == Failure(QueryStash(upstream.groupScenes(groups[0].id)).error)
  {
  }

  /** A lookup answered with null `data` makes reading `findGroups` throw, which fails the group. */
  lemma NullGroupDataFails(stashUrl: string, upstream: Upstream, groupName: string)
    requires QueryStash(upstream.findGroups(groupName)) == Success(None)
    ensures FetchGroupScenes(stashUrl, upstream, groupName) == Failure(NullDereference("findGroups"))
  {
  }

  /** Entries of one group have pairwise different URLs when its scenes have pairwise different ids. */
  lemma DistinctScenesDistinctUrls(stashUrl: string, groupName: string, scenes: seq<Scene>, i: nat, j: nat)
    requires i < j < |scenes| && scenes[i].id != scenes[j].id
    ensures ScenesToEntries(stashUrl, groupName, scenes)[i].url != ScenesToEntries(stashUrl, groupName, scenes)[j].url
  {
    var es := ScenesToEntries(stashUrl, groupName, scenes);
    if es[i].url == es[j].url {
      StreamUrlInjective(stashUrl, scenes[i].id, scenes[j].id);
    }
  }
}
