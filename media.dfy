/**
 * The `/media/` listing: every configured group is fetched, a group whose
 * fetch fails contributes an empty list, and the per-group lists are
 * concatenated in configured order (positionally, whatever order the
 * fetches complete in).
 */
module Media {
  import opened Wrappers
  import opened Lists
  import opened StashApi
  import opened Playlist
  import GroupConfig

  /** `groupPromises` after `.catch(() => [])`: a failed group becomes an empty list. */
  function Recovered<T, E>(outcomes: seq<Result<seq<T>, E>>): (lists: seq<seq<T>>)
    ensures |lists| == |outcomes|
    ensures forall i :: 0 <= i < |outcomes| && outcomes[i].Success? ==> lists[i] == outcomes[i].value
    ensures forall i :: 0 <= i < |outcomes| && outcomes[i].Failure? ==> lists[i] == []
  {
    seq(|outcomes|, i requires 0 <= i < |outcomes| => outcomes[i].GetOr([]))
  }

  /** Number of elements the successful outcomes hold. */
  function SuccessfulLength<T, E>(outcomes: seq<Result<seq<T>, E>>): nat
  {
    if outcomes == [] then 0
    else (if outcomes[0].Success? then |outcomes[0].value| else 0) + SuccessfulLength(outcomes[1..])
  }

  /**
   * Fail-soft aggregation: the successful lists concatenated in order.  Its
   * length is the sum of the successful lists' lengths, and it holds exactly
   * the elements of the successful lists.
   */
  function Aggregate<T(!new), E>(outcomes: seq<Result<seq<T>, E>>): (r: seq<T>)
    ensures |r| == SuccessfulLength(outcomes)
    ensures forall x :: x in r <==> exists i :: 0 <= i < |outcomes| && outcomes[i].Success? && x in outcomes[i].value
  {
    var lists := Recovered(outcomes);
    RecoveredLength(outcomes);
    forall x ensures x in Flat(lists) <==> exists i :: 0 <= i < |outcomes| && outcomes[i].Success? && x in outcomes[i].value {
      FlatMembership(lists, x);
      if exists i :: 0 <= i < |lists| && x in lists[i] {
        var i :| 0 <= i < |lists| && x in lists[i];
        assert outcomes[i].Success?;
      }
      if exists i :: 0 <= i < |outcomes| && outcomes[i].Success? && x in outcomes[i].value {
        var i :| 0 <= i < |outcomes| && outcomes[i].Success? && x in outcomes[i].value;
        assert x in lists[i];
      }
    }
    Flat(lists)
  }

  lemma {:induction false} RecoveredLength<T, E>(outcomes: seq<Result<seq<T>, E>>)
    ensures TotalLength(Recovered(outcomes)) == SuccessfulLength(outcomes)
    decreases |outcomes|
  {
    if outcomes != [] {
      RecoveredLength(outcomes[1..]);
      assert Recovered(outcomes)[1..] == Recovered(outcomes[1..]);
    }
  }

  /** Aggregation respects order: the outcomes of a list's two halves aggregate to the two halves' results, concatenated. */
  lemma AggregateAppend<T(!new), E>(a: seq<Result<seq<T>, E>>, b: seq<Result<seq<T>, E>>)
    ensures Aggregate(a + b) == Aggregate(a) + Aggregate(b)
  {
    assert Recovered(a + b) == Recovered(a) + Recovered(b);
    FlatAppend(Recovered(a), Recovered(b));
  }

  /** A failed outcome contributes nothing: the result is that of the outcomes around it. */
  lemma AggregateSkipsFailure<T(!new), E>(outcomes: seq<Result<seq<T>, E>>, i: nat)
    requires i < |outcomes| && outcomes[i].Failure?
    ensures Aggregate(outcomes) == Aggregate(outcomes[..i]) + Aggregate(outcomes[i + 1..])
  {
    assert outcomes == outcomes[..i] + [outcomes[i]] + outcomes[i + 1..];
    AggregateAppend(outcomes[..i] + [outcomes[i]], outcomes[i + 1..]);
    AggregateAppend(outcomes[..i], [outcomes[i]]);
    assert Aggregate([outcomes[i]]) == [] by {
      assert Recovered([outcomes[i]]) == [[]];
    }
  }

  /** Fetching one group by name, failures included. */
  function FetchGroup(stashUrl: string, upstream: Upstream): string -> Result<seq<Entry>, StashError>
  {
    groupName => FetchGroupScenes(stashUrl, upstream, groupName)
  }

  /**
   * The `/media/` response body: every entry belongs to one of the
   * configured groups and has that group's entry shape.
   */
  function MediaListing(stashUrl: string, upstream: Upstream, groupNames: seq<string>): (entries: seq<Entry>)
    ensures forall e :: e in entries ==> e.playlist in groupNames && IsEntryFor(stashUrl, e.playlist, e)
  {
    var outcomes := MapEach(FetchGroup(stashUrl, upstream), groupNames);
    var entries: seq<Entry> := Aggregate(outcomes);
    assert forall e :: e in entries ==> e.playlist in groupNames && IsEntryFor(stashUrl, e.playlist, e) by {
      forall e | e in entries ensures e.playlist in groupNames && IsEntryFor(stashUrl, e.playlist, e) {
        var i :| 0 <= i < |outcomes| && outcomes[i].Success? && e in outcomes[i].value;
        assert IsEntryFor(stashUrl, groupNames[i], e);
      }
    }
    entries
  }

  /** Groups are listed in configured order: the listing of two lists of groups is the two listings concatenated. */
  lemma MediaListingAppend(stashUrl: string, upstream: Upstream, a: seq<string>, b: seq<string>)
    ensures MediaListing(stashUrl, upstream, a + b) == MediaListing(stashUrl, upstream, a) + MediaListing(stashUrl, upstream, b)
  {
    MapEachAppend(FetchGroup(stashUrl, upstream), a, b);
    AggregateAppend(MapEach(FetchGroup(stashUrl, upstream), a), MapEach(FetchGroup(stashUrl, upstream), b));
  }

  /** One group's contribution: its entries when its fetch succeeds, nothing when it fails. */
  lemma MediaListingOneGroup(stashUrl: string, upstream: Upstream, groupName: string)
    ensures MediaListing(stashUrl, upstream, [groupName]) == FetchGroupScenes(stashUrl, upstream, groupName).GetOr([])
  {
    var outcomes := MapEach(FetchGroup(stashUrl, upstream), [groupName]);
    assert Recovered(outcomes) == [FetchGroupScenes(stashUrl, upstream, groupName).GetOr([])];
    assert Recovered(outcomes)[1..] == [];
  }

  /** A group whose fetch fails is left out and the other groups are listed as if it were not configured. */
  lemma FailedGroupContributesNothing(stashUrl: string, upstream: Upstream, groupNames: seq<string>, i: nat)
    requires i < |groupNames| && FetchGroupScenes(stashUrl, upstream, groupNames[i]).Failure?
    ensures MediaListing(stashUrl, upstream, groupNames)
            == MediaListing(stashUrl, upstream, groupNames[..i]) + MediaListing(stashUrl, upstream, groupNames[i + 1..])
  {
    assert groupNames == groupNames[..i] + [groupNames[i]] + groupNames[i + 1..];
    MediaListingAppend(stashUrl, upstream, groupNames[..i] + [groupNames[i]], groupNames[i + 1..]);
    MediaListingAppend(stashUrl, upstream, groupNames[..i], [groupNames[i]]);
    MediaListingOneGroup(stashUrl, upstream, groupNames[i]);
  }

  /** The number of entries listed is the sum of the successful groups' entry counts. */
  lemma MediaListingLength(stashUrl: string, upstream: Upstream, groupNames: seq<string>)
    ensures |MediaListing(stashUrl, upstream, groupNames)| == SuccessfulLength(MapEach(FetchGroup(stashUrl, upstream), groupNames))
  {
  }

  /** With GROUP_NAMES unset or empty, the listing is the group "Erin"'s entries, or nothing when that fetch fails. */
  lemma DefaultListingIsErin(env: map<string, string>, upstream: Upstream)
    requires "GROUP_NAMES" !in env || env["GROUP_NAMES"] == []
    ensures var config := GroupConfig.ConfigFromEnv(env);
            MediaListing(config.stashUrl, upstream, config.groupNames)
            == FetchGroupScenes(config.stashUrl, upstream, "Erin").GetOr([])
  {
    GroupConfig.DefaultGroupIsErin(env);
    MediaListingOneGroup(GroupConfig.ConfigFromEnv(env).stashUrl, upstream, "Erin");
  }
}
