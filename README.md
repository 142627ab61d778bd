# Playlist session state machine

A Dafny model of the server core of a shared-playlist application: a playlist stored as one
document (admin, play flag, volume, current track, queue of entries) that listeners change
through HTTP routes, and whose changes are broadcast as `state_change` messages.

Modules, one per part of the program:

- `Json` (`json.dfy`): the JavaScript values the application stores and copies, with truthiness
  and property reads. A read that throws a TypeError is `None`.
- `Projection` (`projection.dfy`): `objCopy`, which keeps only the listed (dotted) fields of a
  catalog track record. It is a method with the source's loop, proved equal to a fold
  (`Project`). The lemmas say the projection never invents a field, and that it keeps the
  catalog's value at every listed path whose value is truthy (falsy values are dropped).
- `Names` (`names.dfy`): `normalizeName`.
- `Queue` (`queue.dfy`): queue entries and the pure edits on the queue. These are the `$pull`
  of an entry, the two-splice move, and the up and down vote of one entry.
- `Playlists` (`playlists.dfy`): the stored document as the class `Playlist`, with one method
  per store update. These are play, volume, skip, add, delete, reorder, vote and import.
  Each method is specified by a function on the document value (`PlaylistDoc`). Each
  function keeps the document invariant `ValidDoc`: entry ids are unique, each vote count
  equals its number of distinct voters, stored tracks are truthy, and nothing is queued while there
  is no current track (whatever the play flag says).
  The lemmas about those functions state what the routes promise.
- `PlaylistView` (`view.dfy`): the values the playlist page is rendered with (`getPlaylist`).

Inputs the program takes from outside are parameters of the model: the catalog's answer for a
track (`None` when the lookup fails), the requesting user, the request body, and the fresh
entry ids the store would generate. Requests are handled one after another.

## Model

| member | source | states |
|---|---|---|
| Json.Truthy | utils.js:345-351 | objects and arrays, even empty, are truthy; undefined and null are falsy |
| Json.FalsyValues | utils.js:345-351 | the falsy values are exactly undefined, null, false, 0 and the empty string |
| Json.Get | utils.js:350 | `v[k]` is the object's field when present and undefined otherwise |
| Json.At | routes/playlists.js:68 | `v[i]` on an array is the element when in range; on a non-array it is undefined |
| Json.Lookup | utils.js:349-352 | following an empty path gives the value itself; a path that reads anything but undefined starts with a field of an object |
| Json.Read | routes/playlists.js:68-69 | a property read throws exactly when the base is undefined or null; otherwise it is `Get` |
| Names.NormalizeName | utils.js:11-13 | the normalized name holds only `[a-z0-9_]` and is never longer than the input |
| Names.NormalizeFixesNormal | utils.js:11-13 | a name already made of `[a-z0-9_]` is returned unchanged |
| Names.NormalizeIdempotent | utils.js:11-13 | normalizing twice equals normalizing once |
| Names.NormalizeConcat | utils.js:12 | normalization distributes over concatenation (the replace and lower-casing work per character) |
| Names.NormalizeChar | utils.js:12 | a single character outside `\w` normalizes to nothing; a word character to its lower case |
| Names.DropsNonWord | utils.js:12 | deleting a character outside `\w` anywhere in a name leaves its normalized form unchanged |
| Names.NormalizeIgnoresCase | utils.js:12 | two names that differ only in letter case normalize to the same name |
| Projection.Split | utils.js:361 | `key.split('.')` yields at least one part and no part holds a dot |
| Projection.JoinSplit | utils.js:361 | joining the parts of a key with dots gives the key back |
| Projection.SplitJoin | utils.js:361 | splitting dot-free parts joined with dots gives the parts back |
| Projection.SplitDotFreePrefix | utils.js:361 | a dot-free prefix extends the first part of the split |
| Projection.Put | utils.js:352 | assigning `o[k]` changes only key `k` of an object and nothing of a non-object |
| Projection.CopyField | utils.js:344-356 | with no path left the input comes back (undefined when falsy); otherwise the result is an object when the input is an object or falsy, a truthy primitive input comes back unchanged, a falsy value at the head of the path leaves the input (or a new empty object), and fields other than the head of the path keep their values |
| Projection.Project | utils.js:358-364 | the accumulator starts as an empty object and stays an object, hence truthy, whatever the source holds |
| Projection.ObjCopy | utils.js:343-365 | the loop over the kept keys computes `Project(source, keep)`, the fold of `copyObjField` over the keys |
| Projection.WithinMono | utils.js:343-365 | a copy within the source for some paths is within it for more paths |
| Projection.CopyIntoSelf | utils.js:344-356 | copying a path of a truthy value into itself leaves it unchanged |
| Projection.CopyFieldWithin | utils.js:344-356 | copying one more path keeps the result an object whose every field comes from the source along a kept path |
| Projection.CopyFieldReaches | utils.js:344-356 | after copying a path whose source value is truthy, the result holds that value at that path |
| Projection.UndefinedLookup | utils.js:350 | following any path from a non-object yields undefined |
| Projection.CopyFieldKeeps | utils.js:344-356 | copying another path does not disturb a path already copied |
| Projection.ProjectWithin | utils.js:343-365 | the projection holds only values of the source, found along the kept paths or their prefixes |
| Projection.ProjectCopies | utils.js:343-365 | every kept path whose source value is truthy has that value in the projection |
| Queue.NewEntry | utils.js:168-173 | a new queue entry has its id, its track, its author, no votes and no voters |
| Queue.Without | routes/playlists.js:203-207 | the `$pull` never makes the queue longer |
| Queue.WithoutMembers | routes/playlists.js:203-207 | an entry survives the `$pull` exactly when it was queued and its id differs |
| Queue.WithoutConcat | routes/playlists.js:203-207 | the `$pull` works entry by entry: it distributes over concatenation |
| Queue.WithoutAbsent | routes/playlists.js:203-207 | pulling an id that is not queued changes nothing |
| Queue.WithoutAt | utils.js:69 | with unique ids, pulling the id of entry k removes exactly that entry and keeps the order |
| Queue.WithoutKeepsUnique | utils.js:69 | a pull keeps ids unique |
| Queue.WithoutKeepsAbsent | utils.js:69 | an id missing from the queue is still missing after a pull |
| Queue.WithoutKeepsValid | routes/playlists.js:203-207 | a pull keeps the queue invariant |
| Queue.SpliceStart | routes/playlists.js:240-241 | `splice`'s start: negative counts from the end; a start past the end is the length and one before the start of the array is 0 |
| Queue.MoveAsWritten | routes/playlists.js:240-241 | as written, the two splices keep the length when `from` picks an element and add one slot otherwise; every filled slot holds an entry of the queue |
| Queue.MoveAsWrittenOutOfRange | routes/playlists.js:240-241 | as written, a `from` that picks no element makes the queue one longer and inserts undefined |
| Queue.MoveAsWrittenExample | routes/playlists.js:240-241 | as written, moving from 5 to 0 in `[A]` gives `[undefined, A]` |
| Queue.Move | routes/playlists.js:240-241 | the move keeps the queue length, and a `from` out of range leaves the queue as it is |
| Queue.MoveAgreesInRange | routes/playlists.js:240-241 | for a `from` in range the corrected move is exactly the two splices as written |
| Queue.MovePlaces | routes/playlists.js:240-241 | the moved entry lands at the clamped target and the others keep their relative order |
| Queue.MovePermutes | routes/playlists.js:240-241 | every move is a permutation of the queue |
| Queue.MoveExample | routes/playlists.js:240-241 | moving index 2 to index 0 in `[A,B,C,D]` gives `[C,A,B,D]` |
| Queue.RemoveAtUnique | routes/playlists.js:240 | removing one entry keeps ids unique and drops that id |
| Queue.InsertAtUnique | routes/playlists.js:241 | inserting an entry with a new id keeps ids unique |
| Queue.MoveKeepsUnique | routes/playlists.js:240-241 | a move keeps ids unique |
| Queue.MoveKeepsValid | routes/playlists.js:240-241 | a move keeps the queue invariant |
| Queue.MoveKeepsEntries | routes/playlists.js:240-241 | an entry is in the queue after a move exactly when it was before |
| Queue.IsVoter | utils.js:204-216 | the voter query matches exactly when some entry with that id lists the user among its voters |
| Queue.FirstIndex | utils.js:263-266 | the positional update's entry is the first with that id, or none |
| Queue.RemoveVoter | utils.js:245-249 | the voter `$pull` keeps exactly the other voters |
| Queue.Upvoted | utils.js:226-235 | an upvote adds one vote and appends the user, keeping id, track and author |
| Queue.Unvoted | utils.js:241-250 | a down vote takes one vote away and pulls the user, keeping id, track and author |
| Queue.AppendKeepsValid | utils.js:164-175 | appending a consistent entry with a new id keeps the queue invariant |
| Queue.ReplaceKeepsValid | utils.js:263-268 | replacing an entry by a consistent one with the same id keeps the queue invariant |
| Queue.RemoveVoterOnce | utils.js:245-249 | pulling a listed user from distinct voters shortens the list by one and keeps it distinct |
| Queue.RemoveVoterAbsent | utils.js:245-249 | pulling an unlisted user changes nothing |
| Queue.UpvoteConsistent | utils.js:223-235 | an upvote by a non-voter keeps count equal to voters and makes the user a voter |
| Queue.UnvoteConsistent | utils.js:238-250 | a down vote by a voter keeps count equal to voters and removes the user |
| Playlists.UserIsPlaylistAdmin | utils.js:103-108 | true exactly when there is a user and a playlist and the user's id is the admin |
| Playlists.ImportGate | routes/playlists.js:311-372 | the import goes ahead exactly for the admin; anyone else gets "Only admin can import" |
| Playlists.ParsePlay | routes/playlists.js:94 | playback is on exactly when the body's `play` is the string "true" |
| Playlists.ClampVolume | routes/playlists.js:130 | the stored volume is in 0..100: the magnitude of the request, or 100 beyond it |
| Playlists.ClampVolumeExamples | routes/playlists.js:130 | -150 and 150 store 100, 40 stores 40 |
| Playlists.AddedByAsWritten | utils.js:127-128 | as written, the author of a queued entry is always null |
| Playlists.AddedBy | utils.js:127-128 | as intended, the author is the requesting user's id and name, null without one |
| Playlists.AddedByDiscrepancy | utils.js:127-128 | for user u1 the as-written author is null and the intended one is u1 |
| Playlists.StateChange | utils.js:294-332 | the broadcast carries the play flag, current track, queue and trigger, and no volume |
| Playlists.Skipped | utils.js:51-101 | skip makes the head of a non-empty queue current and pulls it; with an empty queue it clears the current track; the invariant is kept |
| Playlists.SkipKeeps | utils.js:55-69 | with unique ids, the pull of the head leaves exactly the tail, and the invariant holds after |
| Playlists.AddedTo | utils.js:137-187 | with no current track the track becomes current and the queue stays; otherwise a new entry is appended and the current track stays; the invariant is kept and there is a current track after |
| Playlists.Deleted | routes/playlists.js:200-210 | delete pulls the id from the queue and changes nothing else; an absent id changes nothing; the invariant is kept |
| Playlists.DeleteKeeps | routes/playlists.js:200-210 | the pull of an absent id changes nothing and the pull keeps the invariant |
| Playlists.DeleteRemovesOne | routes/playlists.js:200-210 | deleting the id of entry k removes exactly entry k |
| Playlists.Reordered | routes/playlists.js:237-254 | reorder stores the corrected `Move`, a permutation of the queue of the same length, changes nothing else, and keeps the invariant |
| Playlists.ReorderKeeps | routes/playlists.js:240-250 | the stored move keeps the invariant |
| Playlists.Rejection | utils.js:253-276 | the rejections are answered with "The user has already voted on this track", "The user hasn't voted on this track yet" and "No track found in playlist"; a success with no text |
| Playlists.CastVote | utils.js:199-290 | "already voted" exactly for a voter's upvote, "not voted" exactly for a non-voter's down vote, "no track" exactly for an upvote of an absent id; a rejection changes nothing; a success updates only the first entry with that id; the invariant is kept |
| Playlists.VoteKeeps | utils.js:223-268 | the positional vote update keeps the invariant |
| Playlists.VoteSucceeds | utils.js:223-268 | a successful vote moves that entry's count by one, adds or removes the user, keeps count equal to voters and leaves every other entry alone |
| Playlists.UpvoteTwice | utils.js:223-253 | after a successful upvote, the same upvote again is rejected and changes nothing |
| Playlists.Leading | routes/playlists.js:346-361 | the import stops at the first track the catalog does not return |
| Playlists.ImportedTracks | routes/playlists.js:333-355 | the tracks imported are the projections of the leading catalog answers, in order |
| Playlists.NewEntries | routes/playlists.js:346-355 | one new entry per imported track, in order, with its own id |
| Playlists.AddAll | routes/playlists.js:333-361 | the sequential adds never change the admin, the play flag or the volume, and keep a current track that was already set |
| Playlists.ImportOrder | routes/playlists.js:330-361 | importing into a playlist with no current track makes track 1 current and queues tracks 2..N in order; into one with a current track it queues all N behind the existing entries; the invariant is kept |
| Playlists.ImportBehindCurrent | routes/playlists.js:346-361 | into a playlist with a current track the sequential adds append every track in order |
| Playlists.AddAllFront | routes/playlists.js:333-361 | the sequential adds are the first add followed by the adds of the rest |
| Playlists.ImportStep | routes/playlists.js:346-355 | after one more add, n + 1 tracks are added and the ids still to come are not queued |
| Playlists.StillFresh | routes/playlists.js:346-355 | appending entry n leaves the ids of later tracks unqueued |
| Playlists.FreshAfter | routes/playlists.js:346-355 | an id outside the new ids and the queue is absent after the appends |
| Playlists.Playlist.constructor | routes/playlists.js:330-332 | a playlist before its first add has no current track and no queue, and satisfies the document invariant |
| Playlists.Playlist.SetPlay | routes/playlists.js:93-121 | the play route stores `ParsePlay(body)`, changes nothing else, and broadcasts play, unchanged volume and track |
| Playlists.Playlist.SetVolume | routes/playlists.js:125-158 | the volume route stores the clamped volume in 0..100, changes nothing else, and broadcasts it |
| Playlists.Playlist.Skip | utils.js:51-101 | the store becomes `Skipped` of the old one and the invariant is kept |
| Playlists.Playlist.AddTrack | utils.js:124-197 | without a catalog answer nothing changes and nothing is sent; otherwise the store becomes `AddedTo` of the projected track, authored by the corrected `AddedBy`, and the broadcast is `add_track` or `add_track_queue` |
| Playlists.Playlist.Delete | routes/playlists.js:194-230 | the store becomes `Deleted` of the old one and the broadcast carries the queue, empty when absent |
| Playlists.Playlist.Reorder | routes/playlists.js:232-272 | without `id`, `from` and `to` nothing changes; without a queue the request fails unchanged; otherwise the store becomes `Reordered` (the corrected `Move`) and is broadcast |
| Playlists.Playlist.Vote | utils.js:199-290 | the outcome and the new store are those of `CastVote` |
| Playlists.Playlist.Import | routes/playlists.js:310-373 | non-admins are refused and nothing changes; a catalog error or an empty playlist changes nothing; otherwise the adds run in order and the store becomes `AddAll` of the imported tracks, authored by the corrected `AddedBy` |
| Playlists.Playlist.AddInOrder | routes/playlists.js:333-361 | the loop of adds leaves the store at `AddAll` of the leading tracks with their ids and the corrected `AddedBy` author, and keeps the invariant |
| PlaylistView.ReadIndex | routes/playlists.js:68-69 | `v[i]` throws exactly on undefined or null, otherwise it is `At` |
| PlaylistView.FirstArtistName | routes/playlists.js:68 | `current.artists[0].name` throws exactly when the artists or the first artist is undefined or null; otherwise it is that artist's name |
| PlaylistView.FirstImageUrl | routes/playlists.js:69 | `current.album.images[0].url` throws exactly when the album, its images or the first image is undefined or null; otherwise it is that image's url |
| PlaylistView.Render | routes/playlists.js:47-89 | the page shows the queue (empty when absent), admin controls exactly for the admin, "pause" exactly when the play flag is set; with no current track it shows "Nothing playing"; with one it renders exactly when the first artist and first image can be read |
| PlaylistView.PlayStateRoundTrip | routes/playlists.js:50-94 | the page's play state posted to the play route stores the flag it came from |
| PlaylistView.AdminViewMatchesGate | routes/playlists.js:52-58 | the page's admin flag agrees with the import routes' gate |
| PlaylistView.RenderShowsTrack | routes/playlists.js:66-70 | a current track with an artist object and an image object is shown with its name, first artist's name and first image's url |
| PlaylistView.ProjectedTrack | utils.js:134 | the stored track keeps the catalog's name, artists and album images |
| PlaylistView.RenderShowsCatalogTrack | routes/playlists.js:66-70 | a track stored by an add is shown with the catalog's name, first artist and first album image |
| PlaylistView.AlbumImagesPath | utils.js:134 | the kept key "album.images" splits into "album" and "images" |
| PlaylistView.NoArtistsNoPage | routes/playlists.js:68 | any current track whose artists list is undefined or null makes the page throw |
| PlaylistView.NameOnlyNoPage | routes/playlists.js:68 | for example, a current track holding only its name makes the page throw |

## Left out

- Spotify API calls are inputs, not modelled. This covers `getSpotifyApiForUser`, the token
  refresh, `updateUser` and `getUserPlaylistTracks` in utils.js. The catalog's answers come in
  as parameters.
- The route that lists importable playlists (routes/playlists.js:276-307) is modelled only
  through its admin gate (`ImportGate`). Rendering the list is not modelled.
- Express routing, `res.render`, `res.json` and `res.redirect` are not modelled. The passport
  login is not modelled either.
- The `pretty` flag of `getPlaylist` is not modelled. The template locals `playlist` and `user`
  are passed through unchanged and are not modelled.
- Socket delivery is not modelled. A broadcast is the `Payload` value a method returns.
- `query/transform.js` is not part of this model. It is taken as the identity.
- Timestamps (`last_updated`, `dateAdded`) and the store's `ObjectID` generation are not
  modelled. New ids come in as parameters, assumed distinct and not already queued.
- Store errors and the `.error` callbacks are not modelled.
- Concurrency is not modelled. This covers races between requests, the gap between the voter
  check and the vote update, and the import's redirect being sent before its adds finish.
- The skip route passes `req.db, req.io, req.playlist, cb` to `skipTrack(playlist, callback)`
  (routes/playlists.js:185). Only `skipTrack` itself is modelled.
- `skipTrack` (utils.js:51-101) and `voteOnTrack` (utils.js:199-290) broadcast nothing, unlike
  the other state changes. The model follows the code: neither `Skip` nor `Vote` returns a
  payload.
- The play, volume, skip and delete routes have their admin checks commented out, and the reorder
  route has no admin check at all. The model follows the code and does not check the admin on
  those routes.
- Playlists.Playlist.SetVolume: takes an integer request. JavaScript's coercion of the body
  string, `NaN` and fractional volumes are not modelled.
- Playlists.ParsePlay: takes the body's `play` as an optional string. Non-string bodies and
  loose `==` coercions are not modelled.
- Playlists.Playlist.Reorder: `from` and `to` are integers, `None` when missing or empty. The
  model treats every present form field as truthy, as url-encoded strings are. A JSON body
  with a numeric 0 is not modelled.
- Playlists.Playlist.Import: each catalog item is the catalog's answer for that item's track.
  An item whose `track` is null is not modelled; in the source it throws. An empty playlist
  throws when its first item is read; the model reports it as `NoTracks`.
- Playlists.Playlist.AddTrack: an unfound track (`"Track not found"`) cannot happen, because
  `objCopy` always returns an object (the contract of `Project`). The outcome exists but is never
  produced.
- Projection.ObjCopy: a source that is undefined or null would throw on the first read. The
  model reads every field of a non-object as undefined. Reading properties of strings and
  arrays (`"abc"[0]`, `.length`) is not modelled: `Get` and `At` return undefined there.
- Playlists.Playlist.AddTrack: stores the corrected author `AddedBy(apiUser)` of the first
  finding below. As written, the source stores `addedBy: null` on every queued entry
  (`AddedByAsWritten`).
- Playlists.Playlist.Import: its adds store the corrected author `AddedBy(apiUser)`; as written
  every queued entry gets `addedBy: null`.
- Playlists.Playlist.AddInOrder: its adds store the corrected author `AddedBy(apiUser)`; as
  written every queued entry gets `addedBy: null`.
- Playlists.Playlist.Reorder: stores the corrected `Move` of the second finding below. As written,
  a `from` that picks no element stores a queue one longer, with an undefined hole
  (`MoveAsWritten`).
- Playlists.Reordered: is stated with the corrected `Move`, for the same reason.
- Creating a playlist is not part of this model. The constructor of `Playlist` takes the admin,
  the play flag and the volume as parameters and starts with no current track and no queue.
- Queue.NewEntry: gives a new entry `votes: 0` and `voters: []`. The source pushes entries
  without those fields (utils.js:168-173), and the store's `$inc` and `$push` read them as 0 and
  []. The broadcast `queue` and the rendered queue show such an entry without the two fields,
  which the model does not distinguish.
- Numbers are integers. Floating point is not modelled.
- Object key order is not modelled. Objects are maps.
- `emitStateChange`'s four-argument form (a projection argument) is not modelled. Every call
  in the core passes the trigger third.
- `ObjectID` parsing of a malformed id in delete and vote is not modelled. Ids are strings
  compared for equality.

## Findings

| source | as written | input that shows it | evidently intended | confidence | as-written member | corrected member |
|---|---|---|---|---|---|---|
| utils.js:127-128 | `var user = (user) ? {...} : null` tests the variable being declared, which is still undefined when the test runs, so every queued entry's `addedBy` is null | an add by API user `{_id: "u1", name: "Ann"}` into a playlist with a current track stores `addedBy: null` | test `apiUser` and store `{_id, name}` of the user who added the track | high (not executed) | Playlists.AddedByAsWritten | Playlists.AddedBy |
| routes/playlists.js:240-241 | when `from` picks no element, the first splice removes nothing, `source` is undefined, and the second splice inserts that undefined into the stored queue | queue `[A]`, body `from=5, to=0` stores `[undefined, A]` | leave the queue unchanged when `from` is out of range | medium (not executed) | Queue.MoveAsWrittenOutOfRange | Queue.Move |
