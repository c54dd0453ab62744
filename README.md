# Stash middleware playlist core, in Dafny

This project models the core of `stash-middleware/server.js`, a small adapter that asks a Stash
media-catalogue server for the scenes of a few named groups and returns them as the
playlist entries a media player consumes. The core has no mutable state and no loops. It is a
chain of string and list transformations, and the model is written the same way: datatypes,
functions and lemmas.

- **Configuration** (`group_config.dfy`). `GROUP_NAMES` is a comma-separated setting.
  It is split at `,`, each piece is trimmed and empty pieces are dropped. An unset or empty
  variable means `"Erin"`. `STASH_URL` falls back to the built-in address.
- **String operations** (`text.dfy`). These are JavaScript's `trim`, `split` at one
  character, `join` and `replaceAll` of one character, over `seq<char>`.
- **Titles** (`titles.dfy`). The regular expression `/\.[^/.]+$/` is modelled as a leftmost-match
  search. The model proves that a match, when there is one, is unique. A derived title is
  the filename with that match removed and every `-` and `_` turned into a space.
- **Upstream replies** (`stash_api.dfy`). These are the records the two GraphQL queries
  (FindGroup, GetGroupScenes) select, plus the raw reply to a query. `queryStash` classifies
  a reply: a request that never got a response, a non-success status, or a body carrying
  `errors` is an error. Otherwise the result is the body's `data`, which may be null.
- **Playlist entries** (`playlist.dfy`). `fetchGroupScenes` is modelled as a function of the
  catalogue's replies. The catalogue is an `Upstream` value: one reply to FindGroup per group
  name, one reply to GetGroupScenes per group id. The model makes one entry per scene, with
  its stream URL, filename, title, the fixed extension `mp4` and a metadata bag.
- **Listing** (`media.dfy`, with `lists.dfy`). The `/media/` handler maps every configured
  group to its fetch outcome. A failed fetch becomes `[]`, as `.catch(() => [])` does, and the
  lists are flattened in configured order.

`server.js` returns the catalogue's own stream URLs. It has no path-prefix translation and no
range-request streaming. Every scene yields an entry, the extension is always `mp4`, and in a
derived title every `-` and every `_` becomes a space, one space per character.

## Model

| member | source | states |
|---|---|---|
| Text.TrimStart | stash-middleware/server.js:19 | the result is a suffix of the input; everything dropped is whitespace; the result does not start with whitespace |
| Text.TrimEnd | stash-middleware/server.js:19 | the result is a prefix of the input; everything dropped is whitespace; the result does not end with whitespace |
| Text.Trim | stash-middleware/server.js:19 | `trim()` gives a string with no surrounding whitespace, no longer than the input, and empty exactly when the input is all whitespace |
| Text.TrimUnpads | stash-middleware/server.js:19 | trim is fully characterised: whitespace around a trimmed core is removed and the core is kept |
| Text.TrimKeepsTrimmed | stash-middleware/server.js:19 | trim leaves a string without surrounding whitespace unchanged |
| Text.Split | stash-middleware/server.js:18 | `split(',')` yields at least one piece; no piece holds the separator; joining the pieces with the separator restores the input |
| Text.SplitNoSeparator | stash-middleware/server.js:18 | a string without the separator splits into itself alone |
| Text.SplitAtSeparator | stash-middleware/server.js:18 | splitting `a + sep + b` is splitting `a`, then splitting `b` |
| Text.SplitJoin | stash-middleware/server.js:18 | round trip: splitting the join of separator-free pieces returns those pieces |
| Text.ReplaceAll | stash-middleware/server.js:129-130 | `replaceAll` keeps the length, replaces every occurrence and only those, and leaves no occurrence behind |
| GroupConfig.EnvOr | stash-middleware/server.js:14-17 | `env[key] \|\| default`: the variable's value when set and non-empty, the default otherwise |
| GroupConfig.TrimEach | stash-middleware/server.js:19 | one trimmed piece per piece, in order |
| GroupConfig.DropEmpty | stash-middleware/server.js:20 | the filter keeps exactly the non-empty names, and nothing empty |
| GroupConfig.DropEmptyAppend | stash-middleware/server.js:20 | the filter works piecewise over a concatenation, so the kept names stay in order |
| GroupConfig.DropEmptyKeepsNonEmpty | stash-middleware/server.js:20 | the filter removes nothing from a list of non-empty names |
| GroupConfig.ParseGroupNames | stash-middleware/server.js:17-20 | every parsed name is non-empty, has no surrounding whitespace and holds no comma |
| GroupConfig.TrimmedPiecesAreNames | stash-middleware/server.js:18-20 | trimming comma-free pieces and dropping empty ones leaves only well-formed names |
| GroupConfig.TrimIsInfix | stash-middleware/server.js:19 | trimming introduces no character, so a trimmed piece still has no comma |
| GroupConfig.ParseGroupNamesAppend | stash-middleware/server.js:17-20 | names before a comma come, in order, before the names after it |
| GroupConfig.ParseGroupNamesPiece | stash-middleware/server.js:17-20 | a setting without a comma names its trimmed value, or nothing when it is all whitespace; with the append lemma this fixes the parse of every setting |
| GroupConfig.ParseJoinedGroupNames | stash-middleware/server.js:17-20 | round trip: parsing well-formed names joined with commas gives back the same names in the same order |
| GroupConfig.TrimEachKeepsTrimmed | stash-middleware/server.js:19 | trimming a list of trimmed names changes nothing |
| GroupConfig.BlankSettingNamesNoGroup | stash-middleware/server.js:17-20 | a non-empty setting made only of commas and whitespace names no group, and the default does not apply |
| GroupConfig.GroupNames | stash-middleware/server.js:17-20 | the configured group names are all well-formed |
| GroupConfig.DefaultGroupIsErin | stash-middleware/server.js:17 | with GROUP_NAMES unset or empty the configured groups are exactly `["Erin"]` |
| GroupConfig.ConfigFromEnv | stash-middleware/server.js:14-20 | the base URL is the STASH_URL setting when that is non-empty and `http://192.168.1.75:9999` otherwise, so never empty; the groups are the parsed GROUP_NAMES |
| StashApi.QueryStash | stash-middleware/server.js:84-98 | success exactly when a response arrived with a 2xx status, a non-null body and no `errors`, and then the result is `data`; a missing response, a non-2xx status, a `null` body and an `errors` member each give their own error |
| Titles.ExtensionStart | stash-middleware/server.js:128 | the regex search finds the leftmost position where `/\.[^/.]+$/` matches, and finds none only when there is no match |
| Titles.ExtSuffixUnique | stash-middleware/server.js:128 | the regex has at most one match in a string, so leftmost and only match coincide |
| Titles.StripExtension | stash-middleware/server.js:128 | the result is a prefix of the name; it differs from the name exactly when the regex matches, and what is cut off is a match |
| Titles.StripExtensionAt | stash-middleware/server.js:128 | when the regex matches at position k, the result is the first k characters |
| Titles.StripExtensionExamples | stash-middleware/server.js:128 | `a.b.mp4` becomes `a.b`; `a.` and `v1.0/clip` are unchanged; `.mkv` becomes empty |
| Titles.DeriveTitle | stash-middleware/server.js:128-130 | the derived title is as long as the stripped name and holds no `-` or `_`; it agrees with the filename elsewhere, with separators shown as spaces |
| Titles.EntryTitle | stash-middleware/server.js:128-130 | a non-empty scene title is used as is; a missing or empty one gives the derived title, which holds no `-` or `_` |
| Playlist.StreamUrl | stash-middleware/server.js:134 | the stream URL starts with the base URL and is 14 characters longer than base and id together |
| Playlist.StreamUrlInjective | stash-middleware/server.js:134 | different scene ids give different stream URLs |
| Playlist.Filename | stash-middleware/server.js:125-126 | the filename is the first file's basename when that is present and non-empty, otherwise `Scene <id>`; it is never empty |
| Playlist.Names | stash-middleware/server.js:150-151 | performer and tag names are the names in list order, or none when the list is absent |
| Playlist.PrimaryFile | stash-middleware/server.js:125 | the primary file is the first file, and exists exactly when the scene has files |
| Playlist.SceneToEntry | stash-middleware/server.js:124-153 | every entry has the scene's stream URL, extension `mp4`, the group as playlist and `stashGroup`, `metadataURL` false, the scene id, the filename and title rules, the studio's name, the screenshot path, and the date, rating, performers, tags and first file's duration, width and height |
| Playlist.NonNull | stash-middleware/server.js:155 | the null filter keeps exactly the present values and never lengthens the list |
| Playlist.NonNullKeepsAll | stash-middleware/server.js:155 | on a list without nulls the filter removes nothing and keeps the order |
| Playlist.ScenesToEntries | stash-middleware/server.js:123-155 | exactly one entry per scene, in scene order |
| Playlist.FetchGroupScenes | stash-middleware/server.js:101-158 | every entry of a successful fetch has the group's entry shape |
| Playlist.GroupNotFoundYieldsNothing | stash-middleware/server.js:104-109 | when the lookup finds no group, or no group list, the group yields no entries and no error |
| Playlist.GroupWithoutScenesYieldsNothing | stash-middleware/server.js:114-118 | when the scene query for the first group answers without a group or without scenes, the group yields no entries and no error |
| Playlist.OneEntryPerScene | stash-middleware/server.js:111-157 | when both queries answer, the result is exactly the entries built from the first group's scenes, one per scene in order, each with its scene's id and stream URL |
| Playlist.NullFindGroupsFails | stash-middleware/server.js:106 | a lookup whose `findGroups` is null fails the group's fetch, since reading its `groups` throws |
| Playlist.NullScenesDataFails | stash-middleware/server.js:114-116 | a scene query whose `data` is null fails the group's fetch, since reading `findGroup` of null throws |
| Playlist.QueryFailurePropagates | stash-middleware/server.js:104 | a failed group lookup fails the group's fetch with that same error |
| Playlist.SceneQueryFailurePropagates | stash-middleware/server.js:114 | a failed scene query for the first group found fails the group's fetch with that same error |
| Playlist.NullGroupDataFails | stash-middleware/server.js:104-106 | a lookup whose `data` is null fails the group's fetch, since reading `findGroups` of null throws |
| Playlist.DistinctScenesDistinctUrls | stash-middleware/server.js:123-155 | scenes with different ids get entries with different URLs |
| Lists.MapEach | stash-middleware/server.js:167 | `map` gives one result per element, in order |
| Lists.MapEachAppend | stash-middleware/server.js:167 | `map` works piecewise over a concatenation |
| Lists.Flat | stash-middleware/server.js:175 | `flat()` has as many elements as all the lists together |
| Lists.FlatAppend | stash-middleware/server.js:175 | `flat()` works piecewise over a concatenation, so list order is kept |
| Lists.FlatMembership | stash-middleware/server.js:175 | an element is in the flattened list exactly when it is in one of the lists |
| Media.Recovered | stash-middleware/server.js:168-171 | after the catch, a successful group keeps its entries and a failed group contributes `[]` |
| Media.Aggregate | stash-middleware/server.js:167-175 | the aggregate's length is the sum of the successful groups' lengths, and it holds exactly the entries of the successful groups |
| Media.AggregateAppend | stash-middleware/server.js:167-175 | results are concatenated in configured order |
| Media.AggregateSkipsFailure | stash-middleware/server.js:168-171 | a failed group contributes nothing: the aggregate is that of the groups before it, then the groups after it |
| Media.MediaListing | stash-middleware/server.js:167-175 | every listed entry belongs to a configured group and has that group's entry shape |
| Media.MediaListingAppend | stash-middleware/server.js:167-175 | the listing follows the configured group order |
| Media.MediaListingOneGroup | stash-middleware/server.js:167-175 | one group's contribution is its entries if its fetch succeeds, otherwise nothing |
| Media.FailedGroupContributesNothing | stash-middleware/server.js:168-171 | a failing group is left out and the other groups are listed as if it were not configured |
| Media.MediaListingLength | stash-middleware/server.js:174-175 | the number of entries is the sum of the successful groups' entry counts |
| Media.DefaultListingIsErin | stash-middleware/server.js:17-20 | with GROUP_NAMES unset or empty the listing is the `Erin` group's entries, or empty when that fetch fails |

## Left out

- Express setup, the routes' response writing, CORS, `/health` and `app.listen` (server.js:12, 22-23, 161-204). These are HTTP plumbing. The body `/media/` returns is `Media.MediaListing`, but its 500 reply is not modelled.
- The POST itself, its headers and the optional `ApiKey` header, and JSON decoding of the body (server.js:75-82, 88). These are network I/O. A reply is an input value. A body that is not JSON, which makes `response.json()` throw, is not represented; a body that is the JSON literal `null` is.
- `dotenv` loading and the `.env` existence check (server.js:8-10). The environment is an immutable `map<string, string>` parameter. `MIDDLEWARE_PORT` is used only by `listen` and is not modelled.
- All `console` logging. Logging has no modelled effect.
- `Promise.all` concurrency (server.js:174). Only the positional, order-preserving result is modelled.
- StashApi.QueryStash: keeps the status and the `errors` list as data instead of the formatted `Error` message text. The `errors` member counts as present only when it is a list; other truthy values are not modelled.
- Text.IsSpace: the whitespace set is fixed to the Unicode space separators of current Unicode. JavaScript's `trim` and `split` work on UTF-16 code units; the model works on Unicode scalar values, which gives the same results for these separators.
- A scene whose `files` field is null, or a null group in the lookup's list, is not modelled. The catalogue schema declares both non-null; the code would throw a TypeError, and the group would then contribute `[]`.
- The float `duration` is carried as a `real` and only passed through.
- Path-prefix translation and range-request streaming: `server.js` has neither.
- The difference between `undefined` and `null` in an entry's metadata. Both are `None` here. `res.json` omits an `undefined` field, such as `duration` for a scene without files, but writes a `null` one, such as a file whose duration is null. The same holds for `studio` and `screenshot` (server.js:143-149).
