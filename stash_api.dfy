/**
 * The catalogue server's GraphQL interface as the middleware sees it: the
 * records the two queries return, the raw reply to a query, and how
 * `queryStash` classifies a reply.  The network is not modelled; a reply is
 * an input value.
 */
module StashApi {
  import opened Wrappers

  /** A name-bearing record (tag, performer, studio). */
  datatype Named = Named(name: string)

  /** One entry of a scene's `files`. */
  datatype VideoFile = VideoFile(
    basename: Option<string>,
    duration: Option<real>,
    width: Option<int>,
    height: Option<int>)

  datatype ScenePaths = ScenePaths(screenshot: Option<string>, stream: Option<string>)

  /** A scene as selected by the GetGroupScenes query; None stands for a null or absent field. */
  datatype Scene = Scene(
    id: string,
    title: Option<string>,
    details: Option<string>,
    date: Option<string>,
    rating100: Option<int>,
    files: seq<VideoFile>,
    paths: Option<ScenePaths>,
    tags: Option<seq<Named>>,
    performers: Option<seq<Named>>,
    studio: Option<Named>)

  datatype GroupRef = GroupRef(id: string, name: string)

  /** `data` of the FindGroup query: `findGroups { groups { id name } }`. */
  datatype FindGroupsData = FindGroupsData(findGroups: Option<GroupList>)
  datatype GroupList = GroupList(groups: Option<seq<GroupRef>>)

  /** `data` of the GetGroupScenes query: `findGroup { id name scenes { ... } }`. */
  datatype ScenesData = ScenesData(findGroup: Option<GroupScenes>)
  datatype GroupScenes = GroupScenes(id: string, name: string, scenes: Option<seq<Scene>>)

  /** `response.ok`: the status is in the success range 200-299. */
  predicate OkStatus(status: int) {
    200 <= status <= 299
  }

  /**
   * The decoded JSON body of a GraphQL response: its `errors` and `data`
   * members, each None when absent or null.
   */
  datatype Body<D> = Body(errors: Option<seq<string>>, data: Option<D>)

  /**
   * What one POST to the GraphQL endpoint yields: either the request failed
   * before an HTTP response arrived, or a response with its status and its
   * decoded body, None when the body is the JSON literal `null`.
   */
  datatype Reply<D> =
    | NetworkFailure(reason: string)
    | Response(status: int, statusText: string, body: Option<Body<D>>)

  /**
   * The answers the catalogue server gives: to FindGroup for a group name,
   * and to GetGroupScenes for a group id.
   */
  datatype Upstream = Upstream(
    findGroups: string -> Reply<FindGroupsData>,
    groupScenes: string -> Reply<ScenesData>)

  /** The errors fetching a group's scenes can end in. */
  datatype StashError =
    | NetworkError(reason: string)
    | HttpError(status: int, statusText: string)
    | GraphQLErrors(errors: seq<string>)
      /** A member of a null value was read (a JavaScript TypeError). */
    | NullDereference(path: string)

  /** A reply that `queryStash` accepts and whose `data` is present. */
  predicate Healthy<D>(reply: Reply<D>) {
    && reply.Response?
    && OkStatus(reply.status)
    && reply.body.Some?
    && reply.body.value.errors.None?
    && reply.body.value.data.Some?
  }

  /** The `data` of a healthy reply. */
  function Data<D>(reply: Reply<D>): D
    requires Healthy(reply)
  {
    reply.body.value.data.value
  }

  /**
   * `queryStash`: a failed request is rethrown, a non-success status is an
   * error, reading `errors` of a `null` body throws, a body with an `errors`
   * member (even an empty list) is an error, and otherwise the body's
   * `data`, which may be null, is the result.
   */
  function QueryStash<D>(reply: Reply<D>): (r: Result<Option<D>, StashError>)
    ensures r.Success? <==>
              reply.Response? && OkStatus(reply.status) && reply.body.Some? && reply.body.value.errors.None?
    ensures r.Success? ==> r.value == reply.body.value.data
    ensures reply.NetworkFailure? ==> r == Failure(NetworkError(reply.reason))
    ensures reply.Response? && !OkStatus(reply.status) ==> r == Failure(HttpError(reply.status, reply.statusText))
    ensures reply.Response? && OkStatus(reply.status) && reply.body.None? ==> r == Failure(NullDereference("errors"))
    ensures reply.Response? && OkStatus(reply.status) && reply.body.Some? && reply.body.value.errors.Some? ==>
              r == Failure(GraphQLErrors(reply.body.value.errors.value))
  {
    match reply
    case NetworkFailure(reason) => Failure(NetworkError(reason))
    case Response(status, statusText, body) =>
      if !OkStatus(status) then Failure(HttpError(status, statusText))
      else if body.None? then Failure(NullDereference("errors"))
      else if body.value.errors.Some? then Failure(GraphQLErrors(body.value.errors.value))
      else Success(body.value.data)
  }
}
