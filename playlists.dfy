/**
 * One stored playlist document and the operations that change it.  Each store update
 * (`findAndModify` or `update`) is one method of the class `Playlist`, whose fields are
 * the document's fields.  Each method is specified by a function on the document value
 * (`PlaylistDoc`), and the properties the application relies on are stated about those
 * functions.  Requests are handled one after another: the store's atomicity and the
 * races between concurrent requests are not modelled.
 */
module Playlists {
  import opened Wrappers
  import opened Json
  import opened Queue
  import opened Projection

  /** The catalog fields kept of a track (utils.js:134). */
  const TrackFields: seq<string> :=
    ["name", "duration_ms", "id", "uri", "artists", "album.id", "album.images", "album.name", "album.uri"]

  /** The stored playlist.  `current` is None when it is null or missing, and `tracks`
      is None when the field is missing. */
  datatype PlaylistDoc = PlaylistDoc(
    admin: UserId,
    play: bool,
    volume: int,
    current: Option<Value>,
    tracks: Option<seq<Entry>>)

  /** The queue, a missing `tracks` read as empty. */
  function QueueOf(d: PlaylistDoc): seq<Entry> {
    if d.tracks.Some? then d.tracks.value else []
  }

  /** `playlist.current` is truthy: the playlist has a current track (whatever the play flag says). */
  predicate HasCurrent(d: PlaylistDoc) {
    d.current.Some? && Truthy(d.current.value)
  }

  /** What every operation keeps: entry ids are unique, each entry's vote count is the
      number of its (distinct) voters, stored tracks are truthy, and nothing waits in the
      queue while there is no current track. */
  ghost predicate ValidDoc(d: PlaylistDoc) {
    ValidQueue(QueueOf(d)) &&
    (d.current.Some? ==> Truthy(d.current.value)) &&
    (!HasCurrent(d) ==> QueueOf(d) == [])
  }

  // ---------------------------------------------------------------------------------
  // Pure helpers

  /** `userIsPlaylistAdmin`: false without a user or a playlist, otherwise whether the
      user's id equals the playlist's admin. */
  function UserIsPlaylistAdmin(user: Option<UserId>, playlist: Option<PlaylistDoc>): (b: bool)
    ensures b <==> user.Some? && playlist.Some? && user.value == playlist.value.admin
  {
    if user.None? || playlist.None? then false
    else user.value == playlist.value.admin
  }

  /** The admin gate of both import routes: None lets the request through, otherwise the
      error sent back. */
  function ImportGate(user: Option<UserId>, d: PlaylistDoc): (r: Option<string>)
    ensures r.None? <==> user == Some(d.admin)
    ensures r.Some? ==> r.value == "Only admin can import"
  {
    if UserIsPlaylistAdmin(user, Some(d)) then None else Some("Only admin can import")
  }

  /** `req.body.play == "true"`: only the string "true" turns playback on. */
  function ParsePlay(body: Option<string>): (b: bool)
    ensures b <==> body == Some("true")
  {
    body == Some("true")
  }

  /** `Math.min(Math.abs(v), 100)`: the magnitude of the request, capped at 100. */
  function ClampVolume(v: int): (r: int)
    ensures 0 <= r <= 100
    ensures -100 <= v <= 100 ==> r == v || r == -v
    ensures !(-100 <= v <= 100) ==> r == 100
  {
    var magnitude := if v < 0 then -v else v;
    if magnitude < 100 then magnitude else 100
  }

  lemma ClampVolumeExamples()
    ensures ClampVolume(-150) == 100 && ClampVolume(40) == 40 && ClampVolume(150) == 100
  {
  }

  /** `addedBy` as utils.js:128 computes it: the test reads the variable being declared,
      which is still undefined (hoisted), so the result is null whoever adds the track. */
  function AddedByAsWritten(apiUser: Option<User>): (r: Option<User>)
    ensures r.None?
  {
    var user: Option<User> := None;  // `user` before its own initialiser has run
    if user.Some? then AddedBy(apiUser) else None
  }

  /** `addedBy` as intended: `{_id, name}` of the requesting API user, null without one. */
  function AddedBy(apiUser: Option<User>): (r: Option<User>)
    ensures r.Some? <==> apiUser.Some?
    ensures r.Some? ==> r.value.id == apiUser.value.id && r.value.name == apiUser.value.name
  {
    if apiUser.Some? then Some(User(apiUser.value.id, apiUser.value.name)) else None
  }

  /** A requesting user for whom the two disagree: the entry loses its author. */
  lemma AddedByDiscrepancy()
    ensures AddedByAsWritten(Some(User("u1", "Ann"))) == None
    ensures AddedBy(Some(User("u1", "Ann"))) == Some(User("u1", "Ann"))
  {
  }

  // ---------------------------------------------------------------------------------
  // Broadcast payloads

  /** The `state_change` message.  `volume` and `queue` are None where a handler leaves
      the key out; `track` is None for null. */
  datatype Payload = Payload(
    play: bool,
    volume: Option<int>,
    track: Option<Value>,
    queue: Option<seq<Entry>>,
    trigger: string)

  /** `emitStateChange`/`sendStateChange`: the transformed playlist's play flag, current
      track and queue, and the trigger; no volume. */
  function StateChange(d: PlaylistDoc, trigger: string): (p: Payload)
    ensures p.play == d.play && p.track == d.current && p.queue == d.tracks
    ensures p.volume.None? && p.trigger == trigger
  {
    Payload(d.play, None, d.current, d.tracks, trigger)
  }

  // ---------------------------------------------------------------------------------
  // The document after each operation

  /** `skipTrack`: the head of a non-empty queue becomes the current track and is pulled
      from the queue; with nothing queued the current track is cleared. */
  ghost function Skipped(d: PlaylistDoc): (r: PlaylistDoc)
    ensures r.admin == d.admin && r.play == d.play && r.volume == d.volume
    ensures QueueOf(d) == [] ==> r == d.(current := None)
    ensures UniqueIds(QueueOf(d)) && QueueOf(d) != [] ==>
              r.current == Some(QueueOf(d)[0].track) && r.tracks == Some(QueueOf(d)[1..])
    ensures ValidDoc(d) ==> ValidDoc(r)
  {
    if d.tracks.Some? && |d.tracks.value| > 0 then
      var first := d.tracks.value[0];
      var r := d.(current := Some(first.track), tracks := Some(Without(d.tracks.value, first.id)));
      SkipKeeps(d, r);
      r
    else
      d.(current := None)
  }

  lemma SkipKeeps(d: PlaylistDoc, r: PlaylistDoc)
    requires d.tracks.Some? && |d.tracks.value| > 0
    requires r == d.(current := Some(d.tracks.value[0].track),
                     tracks := Some(Without(d.tracks.value, d.tracks.value[0].id)))
    ensures UniqueIds(QueueOf(d)) ==> r.tracks == Some(QueueOf(d)[1..])
    ensures ValidDoc(d) ==> ValidDoc(r)
  {
    var q := d.tracks.value;
    assert QueueOf(d) == q;
    if UniqueIds(q) {
      WithoutAt(q, 0);
      assert q[..0] + q[1..] == q[1..];
      assert r.tracks == Some(q[1..]);
    }
    if ValidDoc(d) {
      var w := Without(q, q[0].id);
      WithoutKeepsValid(q, q[0].id);
      assert QueueOf(r) == w;
      assert EntryOk(q[0]);
      assert HasCurrent(r);
    }
  }

  /** `addTrackToPlaylist` once the catalog returned a track: with no current track the
      track becomes current and the queue is untouched; otherwise a new entry is appended
      and the current track is untouched. */
  ghost function AddedTo(d: PlaylistDoc, track: Value, id: EntryId, author: Option<User>): (r: PlaylistDoc)
    ensures r.admin == d.admin && r.play == d.play && r.volume == d.volume
    ensures !HasCurrent(d) ==> r.current == Some(track) && r.tracks == d.tracks
    ensures HasCurrent(d) ==> r.current == d.current && r.tracks == Some(QueueOf(d) + [NewEntry(id, track, author)])
    ensures ValidDoc(d) && Truthy(track) && !HasId(QueueOf(d), id) ==> ValidDoc(r) && HasCurrent(r)
  {
    if !HasCurrent(d) then d.(current := Some(track))
    else
      var r := d.(tracks := Some(QueueOf(d) + [NewEntry(id, track, author)]));
      assert QueueOf(r) == QueueOf(d) + [NewEntry(id, track, author)];
      r
  }

  /** The delete route's `$pull`: entries with that id leave the queue; nothing else moves. */
  ghost function Deleted(d: PlaylistDoc, id: EntryId): (r: PlaylistDoc)
    ensures r.admin == d.admin && r.play == d.play && r.volume == d.volume && r.current == d.current
    ensures r.tracks.Some? <==> d.tracks.Some?
    ensures QueueOf(r) == Without(QueueOf(d), id)
    ensures !HasId(QueueOf(d), id) ==> r == d
    ensures ValidDoc(d) ==> ValidDoc(r)
  {
    if d.tracks.Some? then
      var r := d.(tracks := Some(Without(d.tracks.value, id)));
      DeleteKeeps(d, id, r);
      r
    else d
  }

  lemma DeleteKeeps(d: PlaylistDoc, id: EntryId, r: PlaylistDoc)
    requires d.tracks.Some? && r == d.(tracks := Some(Without(d.tracks.value, id)))
    ensures !HasId(QueueOf(d), id) ==> r == d
    ensures ValidDoc(d) ==> ValidDoc(r)
  {
    var q := d.tracks.value;
    if !HasId(q, id) {
      WithoutAbsent(q, id);
    }
    if ValidDoc(d) {
      WithoutKeepsValid(q, id);
    }
  }

  /** With unique ids, deleting the id of entry k removes exactly that entry and keeps
      the others in order. */
  lemma DeleteRemovesOne(d: PlaylistDoc, k: nat)
    requires UniqueIds(QueueOf(d)) && k < |QueueOf(d)|
    ensures QueueOf(Deleted(d, QueueOf(d)[k].id)) == QueueOf(d)[..k] + QueueOf(d)[k + 1..]
  {
    WithoutAt(QueueOf(d), k);
  }

  /** The reorder route's `$set: {tracks}` after the two splices. */
  ghost function Reordered(d: PlaylistDoc, from: int, to: int): (r: PlaylistDoc)
    requires d.tracks.Some?
    ensures r.admin == d.admin && r.play == d.play && r.volume == d.volume && r.current == d.current
    ensures r.tracks.Some? && |QueueOf(r)| == |QueueOf(d)|
    ensures multiset(QueueOf(r)) == multiset(QueueOf(d))
    ensures !InRange(from, |QueueOf(d)|) ==> r == d
    ensures ValidDoc(d) ==> ValidDoc(r)
  {
    var q := d.tracks.value;
    var r := d.(tracks := Some(Move(q, from, to)));
    MovePermutes(q, from, to);
    ReorderKeeps(d, from, to, r);
    r
  }

  lemma ReorderKeeps(d: PlaylistDoc, from: int, to: int, r: PlaylistDoc)
    requires d.tracks.Some? && r == d.(tracks := Some(Move(d.tracks.value, from, to)))
    ensures ValidDoc(d) ==> ValidDoc(r)
  {
    if ValidDoc(d) {
      MoveKeepsValid(d.tracks.value, from, to);
    }
  }

  /** What a vote request ends in.  The three rejections are answered as bad requests
      with the texts of `Rejection`. */
  datatype VoteOutcome = Success | AlreadyVoted | NotVoted | NoTrack

  function Rejection(o: VoteOutcome): (text: string)
    ensures text == "" <==> o == Success
    ensures o == AlreadyVoted ==> text == "The user has already voted on this track"
    ensures o == NotVoted ==> text == "The user hasn't voted on this track yet"
    ensures o == NoTrack ==> text == "No track found in playlist"
  {
    match o
    case Success => ""
    case AlreadyVoted => "The user has already voted on this track"
    case NotVoted => "The user hasn't voted on this track yet"
    case NoTrack => "No track found in playlist"
  }

  datatype VoteResult = VoteResult(outcome: VoteOutcome, doc: PlaylistDoc)

  /** `voteOnTrack`: the voter check, then the positional update of the first entry with
      that id, or a rejection that leaves the document as it was. */
  ghost function CastVote(d: PlaylistDoc, user: UserId, id: EntryId, upvote: bool): (v: VoteResult)
    ensures v.outcome == AlreadyVoted <==> upvote && IsVoter(QueueOf(d), id, user)
    ensures v.outcome == NotVoted <==> !upvote && !IsVoter(QueueOf(d), id, user)
    ensures v.outcome == NoTrack <==> upvote && !HasId(QueueOf(d), id)
    ensures v.outcome != Success ==> v.doc == d
    ensures v.outcome == Success ==>
              var q := QueueOf(d);
              var k := FirstIndex(q, id);
              k < |q| &&
              v.doc == d.(tracks := Some(q[k := if upvote then Upvoted(q[k], user) else Unvoted(q[k], user)]))
    ensures ValidDoc(d) ==> ValidDoc(v.doc)
  {
    var q := QueueOf(d);
    var voter := IsVoter(q, id, user);
    if upvote == voter then
      VoteResult(if upvote then AlreadyVoted else NotVoted, d)
    else
      var k := FirstIndex(q, id);
      if k == |q| then
        VoteResult(NoTrack, d)
      else
        var r := d.(tracks := Some(q[k := if upvote then Upvoted(q[k], user) else Unvoted(q[k], user)]));
        VoteKeeps(d, user, id, upvote, r);
        VoteResult(Success, r)
  }

  lemma VoteKeeps(d: PlaylistDoc, user: UserId, id: EntryId, upvote: bool, r: PlaylistDoc)
    requires upvote != IsVoter(QueueOf(d), id, user)
    requires FirstIndex(QueueOf(d), id) < |QueueOf(d)|
    requires var q := QueueOf(d); var k := FirstIndex(q, id);
             r == d.(tracks := Some(q[k := if upvote then Upvoted(q[k], user) else Unvoted(q[k], user)]))
    ensures ValidDoc(d) ==> ValidDoc(r)
  {
    var q := QueueOf(d);
    var k := FirstIndex(q, id);
    var nq := QueueOf(r);
    if ValidDoc(d) {
      if upvote {
        UpvoteConsistent(q[k], user);
      } else {
        var i :| 0 <= i < |q| && q[i].id == id && user in q[i].voters;
        assert i == k;
        UnvoteConsistent(q[k], user);
      }
      assert forall i :: 0 <= i < |nq| ==> nq[i].id == q[i].id;
    }
  }

  /** With unique ids, a successful vote moves that entry's count by one, adds or removes
      the user, keeps the count equal to the voters, and leaves every other entry alone. */
  lemma VoteSucceeds(d: PlaylistDoc, user: UserId, k: nat, upvote: bool)
    requires ValidDoc(d) && k < |QueueOf(d)|
    requires CastVote(d, user, QueueOf(d)[k].id, upvote).outcome == Success
    ensures var q := QueueOf(d);
            var nq := QueueOf(CastVote(d, user, q[k].id, upvote).doc);
            |nq| == |q| &&
            (forall i :: 0 <= i < |q| && i != k ==> nq[i] == q[i]) &&
            nq[k].id == q[k].id && nq[k].track == q[k].track &&
            nq[k].votes == (if upvote then q[k].votes + 1 else q[k].votes - 1) &&
            (user in nq[k].voters <==> upvote) &&
            nq[k].votes == |nq[k].voters|
  {
    var q := QueueOf(d);
    var v := CastVote(d, user, q[k].id, upvote);
    assert FirstIndex(q, q[k].id) == k;
    assert ValidDoc(v.doc);
    if !upvote {
      var i :| 0 <= i < |q| && q[i].id == q[k].id && user in q[i].voters;
      assert i == k;
      UnvoteConsistent(q[k], user);
    }
  }

  /** Voting the same way twice: the second upvote is rejected and changes nothing. */
  lemma UpvoteTwice(d: PlaylistDoc, user: UserId, id: EntryId)
    requires ValidDoc(d) && HasId(QueueOf(d), id)
    ensures var first := CastVote(d, user, id, true);
            first.outcome == Success ==>
              CastVote(first.doc, user, id, true) == VoteResult(AlreadyVoted, first.doc)
  {
    var first := CastVote(d, user, id, true);
    if first.outcome == Success {
      var q := QueueOf(d);
      var k := FirstIndex(q, id);
      assert QueueOf(first.doc)[k].id == id && user in QueueOf(first.doc)[k].voters;
    }
  }

  // ---------------------------------------------------------------------------------
  // Import

  /** How many catalog lookups succeed before the first that returns nothing: the import
      chain stops there, because `addTrackToPlaylist` then never calls back. */
  function Leading(items: seq<Option<Value>>): (n: nat)
    ensures n <= |items|
    ensures forall i :: 0 <= i < n ==> items[i].Some?
    ensures n < |items| ==> items[n].None?
  {
    if items == [] || items[0].None? then 0 else 1 + Leading(items[1..])
  }

  /** The projected tracks the import adds, in playlist order. */
  function ImportedTracks(items: seq<Option<Value>>): (ts: seq<Value>)
    ensures |ts| == Leading(items)
    ensures forall i :: 0 <= i < |ts| ==> ts[i] == Project(items[i].value, TrackFields)
  {
    var n := Leading(items);
    seq(n, i requires 0 <= i < n => Project(items[i].value, TrackFields))
  }

  /** The entries appended for tracks `ts`, one fresh id each. */
  function NewEntries(ts: seq<Value>, ids: seq<EntryId>, author: Option<User>): (es: seq<Entry>)
    requires |ids| == |ts|
    ensures |es| == |ts|
    ensures forall i :: 0 <= i < |ts| ==> es[i] == NewEntry(ids[i], ts[i], author)
  {
    seq(|ts|, i requires 0 <= i < |ts| => NewEntry(ids[i], ts[i], author))
  }

  /** Adding the tracks one after the other, each add seeing the document the previous
      one produced (`async.eachSeries`). */
  ghost function AddAll(d: PlaylistDoc, ts: seq<Value>, ids: seq<EntryId>, author: Option<User>): (r: PlaylistDoc)
    requires |ids| == |ts|
    ensures r.admin == d.admin && r.play == d.play && r.volume == d.volume
    ensures HasCurrent(d) ==> r.current == d.current
    decreases |ts|
  {
    if ts == [] then d
    else
      var n := |ts| - 1;
      AddedTo(AddAll(d, ts[..n], ids[..n], author), ts[n], ids[n], author)
  }

  predicate FreshIds(q: seq<Entry>, ids: seq<EntryId>) {
    (forall i, j :: 0 <= i < j < |ids| ==> ids[i] != ids[j]) &&
    (forall i :: 0 <= i < |ids| ==> !HasId(q, ids[i]))
  }

  /** Importing N tracks in order: into a playlist with no current track, track 1 becomes
      current and tracks 2..N are queued in their original order; into one with a current track, all
      N are queued behind the existing entries. */
  lemma {:induction false} ImportOrder(d: PlaylistDoc, ts: seq<Value>, ids: seq<EntryId>, author: Option<User>)
    requires ValidDoc(d) && |ts| >= 1 && |ids| == |ts| && FreshIds(QueueOf(d), ids)
    requires forall i :: 0 <= i < |ts| ==> Truthy(ts[i])
    ensures var r := AddAll(d, ts, ids, author);
            ValidDoc(r) && HasCurrent(r) && r.admin == d.admin && r.play == d.play && r.volume == d.volume &&
            (HasCurrent(d) ==> r.current == d.current && QueueOf(r) == QueueOf(d) + NewEntries(ts, ids, author)) &&
            (!HasCurrent(d) ==> r.current == Some(ts[0]) && QueueOf(r) == NewEntries(ts[1..], ids[1..], author))
  {
    if HasCurrent(d) {
      ImportBehindCurrent(d, ts, ids, author);
    } else {
      var d1 := AddedTo(d, ts[0], ids[0], author);
      AddAllFront(d, ts, ids, author);
      assert QueueOf(d1) == [];
      assert FreshIds(QueueOf(d1), ids[1..]);
      ImportBehindCurrent(d1, ts[1..], ids[1..], author);
    }
  }

  /** Into a playlist that has a current track, every imported track is appended in order. */
  lemma {:induction false} ImportBehindCurrent(d: PlaylistDoc, ts: seq<Value>, ids: seq<EntryId>, author: Option<User>)
    requires ValidDoc(d) && HasCurrent(d) && |ids| == |ts| && FreshIds(QueueOf(d), ids)
    requires forall i :: 0 <= i < |ts| ==> Truthy(ts[i])
    ensures var r := AddAll(d, ts, ids, author);
            ValidDoc(r) && HasCurrent(r) && r.admin == d.admin && r.play == d.play && r.volume == d.volume &&
            r.current == d.current && QueueOf(r) == QueueOf(d) + NewEntries(ts, ids, author)
    decreases |ts|
  {
    if ts == [] {
      assert NewEntries(ts, ids, author) == [];
    } else {
      var n := |ts| - 1;
      var ts', ids' := ts[..n], ids[..n];
      var prev := AddAll(d, ts', ids', author);
      assert FreshIds(QueueOf(d), ids');
      ImportBehindCurrent(d, ts', ids', author);
      assert ids[n] !in ids';
      FreshAfter(QueueOf(d), ts', ids', author, ids[n]);
      assert NewEntries(ts, ids, author) == NewEntries(ts', ids', author) + [NewEntry(ids[n], ts[n], author)];
    }
  }

  /** The sequential adds, seen from the front: the first add, then the rest. */
  lemma {:induction false} AddAllFront(d: PlaylistDoc, ts: seq<Value>, ids: seq<EntryId>, author: Option<User>)
    requires |ts| >= 1 && |ids| == |ts|
    ensures AddAll(d, ts, ids, author) == AddAll(AddedTo(d, ts[0], ids[0], author), ts[1..], ids[1..], author)
    decreases |ts|
  {
    var n := |ts| - 1;
    if n == 0 {
      assert ts[..0] == [] && ids[..0] == [] && ts[1..] == [] && ids[1..] == [];
    } else {
      AddAllFront(d, ts[..n], ids[..n], author);
      assert ts[..n][1..] == ts[1..][..n - 1] && ids[..n][1..] == ids[1..][..n - 1];
      assert ts[1..][n - 1] == ts[n] && ids[1..][n - 1] == ids[n];
    }
  }

  /** One add of an import: adding the first n + 1 tracks is adding the first n, then
      track n, and the ids of the later tracks are still not queued. */
  lemma ImportStep(d0: PlaylistDoc, ts: seq<Value>, ids: seq<EntryId>, author: Option<User>, n: nat,
                   before: PlaylistDoc, after: PlaylistDoc)
    requires n < |ts| <= |ids| && FreshIds([], ids)
    requires before == AddAll(d0, ts[..n], ids[..n], author)
    requires forall j :: n <= j < |ids| ==> !HasId(QueueOf(before), ids[j])
    requires after == AddedTo(before, ts[n], ids[n], author)
    ensures after == AddAll(d0, ts[..n + 1], ids[..n + 1], author)
    ensures forall j :: n + 1 <= j < |ids| ==> !HasId(QueueOf(after), ids[j])
  {
    assert ts[..n + 1][..n] == ts[..n] && ids[..n + 1][..n] == ids[..n];
    if HasCurrent(before) {
      StillFresh(QueueOf(before), QueueOf(after), ids, n);
    }
  }

  /** After the add of track n, the ids of the later tracks are still not queued. */
  lemma StillFresh(q: seq<Entry>, q': seq<Entry>, ids: seq<EntryId>, n: nat)
    requires n < |ids| && FreshIds([], ids)
    requires forall j :: n <= j < |ids| ==> !HasId(q, ids[j])
    requires q' == q || (|q'| == |q| + 1 && q'[..|q|] == q && q'[|q|].id == ids[n])
    ensures forall j :: n + 1 <= j < |ids| ==> !HasId(q', ids[j])
  {
    forall j, i | n + 1 <= j < |ids| && 0 <= i < |q'| ensures q'[i].id != ids[j] {
      if i < |q| {
        assert q'[i] == q[i];
      }
    }
  }

  lemma FreshAfter(q: seq<Entry>, ts: seq<Value>, ids: seq<EntryId>, author: Option<User>, id: EntryId)
    requires |ids| == |ts| && !HasId(q, id) && id !in ids
    ensures !HasId(q + NewEntries(ts, ids, author), id)
  {
    var r := q + NewEntries(ts, ids, author);
    forall i | 0 <= i < |r| ensures r[i].id != id {
      if i >= |q| {
        assert r[i].id == ids[i - |q|];
      }
    }
  }

  /** The outcome of an import request. */
  datatype ImportOutcome =
    | Forbidden(error: string)  // `{error: "Only admin can import"}`
    | UpstreamError             // the catalog could not be reached: `res.end(err)`
    | NoTracks                  // an empty playlist: reading its first item throws
    | Redirected                // the adds are under way; the client is sent to the playlist

  // ---------------------------------------------------------------------------------
  // The stored document

  /** What the application sends back for an add: nothing when the catalog lookup failed
      (the callback is never called), the unreachable "Track not found" error, or the
      broadcast state. */
  datatype AddOutcome = NoResponse | TrackNotFound | Added(state: Payload)

  /** What the reorder route does: end the response without a move when a field is
      missing, fail on a playlist without a `tracks` field, or store and broadcast. */
  datatype ReorderOutcome = Ignored | Failed | Moved(state: Payload)

  /** The reorder request body.  Form fields arrive as strings, so a field is truthy as
      soon as it is present and non-empty; `from` and `to` hold the indices they spell,
      None when missing or empty. */
  datatype MoveBody = MoveBody(id: string, from: Option<int>, to: Option<int>)

  class Playlist {
    const admin: UserId
    var play: bool
    var volume: int
    var current: Option<Value>
    var tracks: Option<seq<Entry>>

    function Doc(): PlaylistDoc
      reads this
    {
      PlaylistDoc(admin, play, volume, current, tracks)
    }

    ghost predicate Valid()
      reads this
    {
      ValidDoc(Doc())
    }

    function Entries(): (q: seq<Entry>)
      reads this
      ensures q == QueueOf(Doc())
    {
      if tracks.Some? then tracks.value else []
    }

    /** A stored playlist before any track was added: no current track and no `tracks`
        field.  Every route may start from it. */
    constructor (owner: UserId, playing: bool, vol: int)
      ensures Doc() == PlaylistDoc(owner, playing, vol, None, None)
      ensures Valid()
    {
      admin := owner;
      play := playing;
      volume := vol;
      current := None;
      tracks := None;
    }

    /** The play route: stores whether the body said "true" and broadcasts it with the
        unchanged volume and track. */
    method SetPlay(body: Option<string>) returns (p: Payload)
      requires Valid()
      modifies this
      ensures Doc() == old(Doc()).(play := ParsePlay(body))
      ensures p == Payload(play, Some(volume), current, None, "play")
      ensures Valid()
    {
      var playing := ParsePlay(body);
      play := playing;
      p := Payload(playing, Some(volume), current, None, "play");
    }

    /** The volume route: stores the clamped volume and broadcasts it. */
    method SetVolume(requested: int) returns (p: Payload)
      requires Valid()
      modifies this
      ensures Doc() == old(Doc()).(volume := ClampVolume(requested))
      ensures 0 <= volume <= 100
      ensures p == Payload(play, Some(volume), current, None, "volume")
      ensures Valid()
    {
      var clamped := ClampVolume(requested);
      volume := clamped;
      p := Payload(play, Some(clamped), current, None, "volume");
    }

    /** `skipTrack`: promotes the head of the queue, or clears the current track. */
    method Skip()
      requires Valid()
      modifies this
      ensures Doc() == Skipped(old(Doc()))
      ensures Valid()
    {
      if tracks.Some? && |tracks.value| > 0 {
        var first := tracks.value[0];
        current := Some(first.track);
        tracks := Some(Without(tracks.value, first.id));
      } else {
        current := None;
      }
    }

    /** `addTrackToPlaylist`: projects the catalog's answer, then either makes it the
        current track or appends it to the queue under `freshId`, and broadcasts. */
    method AddTrack(response: Option<Value>, apiUser: Option<User>, freshId: EntryId) returns (outcome: AddOutcome)
      requires Valid() && !HasId(Entries(), freshId)
      modifies this
      ensures response.None? ==> outcome == NoResponse && Doc() == old(Doc())
      ensures response.Some? ==>
                Doc() == AddedTo(old(Doc()), Project(response.value, TrackFields), freshId, AddedBy(apiUser)) &&
                outcome == Added(StateChange(Doc(), if HasCurrent(old(Doc())) then "add_track_queue" else "add_track"))
      ensures Valid()
    {
      if response.None? {
        return NoResponse;
      }
      var track := ObjCopy(response.value, TrackFields);
      if Truthy(track) {
        if !(current.Some? && Truthy(current.value)) {
          current := Some(track);
          outcome := Added(Payload(play, None, current, tracks, "add_track"));
        } else {
          var entry := NewEntry(freshId, track, AddedBy(apiUser));
          tracks := Some(Entries() + [entry]);
          outcome := Added(Payload(play, None, current, tracks, "add_track_queue"));
        }
      } else {
        outcome := TrackNotFound;
      }
    }

    /** The delete route: pulls the entry and broadcasts the queue, matched or not. */
    method Delete(id: EntryId) returns (p: Payload)
      requires Valid()
      modifies this
      ensures Doc() == Deleted(old(Doc()), id)
      ensures p == Payload(play, Some(volume), current, Some(Entries()), "track_deleted")
      ensures Valid()
    {
      if tracks.Some? {
        tracks := Some(Without(tracks.value, id));
      }
      p := Payload(play, Some(volume), current, Some(Entries()), "track_deleted");
    }

    /** The reorder route: with `id`, `from` and `to` all given, moves the entry at `from`
        to `to` and stores the whole queue. */
    method Reorder(move: MoveBody) returns (outcome: ReorderOutcome)
      requires Valid()
      modifies this
      ensures !(move.id != "" && move.from.Some? && move.to.Some?) ==> outcome == Ignored && Doc() == old(Doc())
      ensures move.id != "" && move.from.Some? && move.to.Some? && old(tracks).None? ==>
                outcome == Failed && Doc() == old(Doc())
      ensures move.id != "" && move.from.Some? && move.to.Some? && old(tracks).Some? ==>
                Doc() == Reordered(old(Doc()), move.from.value, move.to.value) &&
                outcome == Moved(Payload(play, Some(volume), current, tracks, "queue_reordered"))
      ensures Valid()
    {
      if move.id != "" && move.from.Some? && move.to.Some? {
        if tracks.None? {
          return Failed;
        }
        tracks := Some(Move(tracks.value, move.from.value, move.to.value));
        outcome := Moved(Payload(play, Some(volume), current, tracks, "queue_reordered"));
      } else {
        outcome := Ignored;
      }
    }

    /** `voteOnTrack`: checks whether the user already votes on the entry, then updates
        the first entry with that id or rejects the request. */
    method Vote(user: UserId, id: EntryId, upvote: bool) returns (outcome: VoteOutcome)
      requires Valid()
      modifies this
      ensures outcome == CastVote(old(Doc()), user, id, upvote).outcome
      ensures Doc() == CastVote(old(Doc()), user, id, upvote).doc
      ensures Valid()
    {
      var q := Entries();
      var voter := IsVoter(q, id, user);
      if upvote && !voter {
        var k := FirstIndex(q, id);
        if k == |q| {
          return NoTrack;
        }
        tracks := Some(q[k := Upvoted(q[k], user)]);
        outcome := Success;
      } else if !upvote && voter {
        var k := FirstIndex(q, id);
        if k == |q| {
          return NoTrack;
        }
        tracks := Some(q[k := Unvoted(q[k], user)]);
        outcome := Success;
      } else if upvote {
        outcome := AlreadyVoted;
      } else {
        outcome := NotVoted;
      }
    }

    /** The import route: for the playlist's admin, adds the first track, then the others
        one at a time in order, stopping at the first the catalog does not return.
        `catalog` is the playlist's items as the catalog answers for each of them. */
    method Import(user: Option<UserId>, catalog: Option<seq<Option<Value>>>, apiUser: Option<User>,
                  freshIds: seq<EntryId>) returns (outcome: ImportOutcome)
      requires Valid()
      requires catalog.Some? ==> |freshIds| == |catalog.value|
      requires FreshIds(Entries(), freshIds)
      modifies this
      ensures ImportGate(user, old(Doc())).Some? ==>
                outcome == Forbidden(ImportGate(user, old(Doc())).value) && Doc() == old(Doc())
      ensures ImportGate(user, old(Doc())).None? && catalog.None? ==> outcome == UpstreamError && Doc() == old(Doc())
      ensures ImportGate(user, old(Doc())).None? && catalog == Some([]) ==> outcome == NoTracks && Doc() == old(Doc())
      ensures ImportGate(user, old(Doc())).None? && catalog.Some? && catalog.value != [] ==>
                outcome == Redirected &&
                Doc() == AddAll(old(Doc()), ImportedTracks(catalog.value),
                                freshIds[..Leading(catalog.value)], AddedBy(apiUser))
      ensures Valid()
    {
      var gate := ImportGate(user, Doc());
      if gate.Some? {
        return Forbidden(gate.value);
      }
      if catalog.None? {
        return UpstreamError;
      }
      var items := catalog.value;
      if items == [] {
        return NoTracks;
      }
      AddInOrder(items, apiUser, freshIds);
      outcome := Redirected;
    }

    /** The adds of an import: the first track, then each of the others once the previous
        add has called back, stopping at the first track the catalog does not return. */
    method AddInOrder(items: seq<Option<Value>>, apiUser: Option<User>, freshIds: seq<EntryId>)
      requires Valid() && |items| >= 1 && |freshIds| == |items| && FreshIds(Entries(), freshIds)
      modifies this
      ensures Doc() == AddAll(old(Doc()), ImportedTracks(items), freshIds[..Leading(items)], AddedBy(apiUser))
      ensures Valid()
    {
      ghost var d0 := Doc();
      ghost var ts := ImportedTracks(items);
      ghost var author := AddedBy(apiUser);
      assert FreshIds([], freshIds);
      var n := 0;
      var going := true;
      while going && n < |items|
        invariant 0 <= n <= Leading(items)
        invariant !going ==> n == Leading(items)
        invariant Valid()
        invariant Doc() == AddAll(d0, ts[..n], freshIds[..n], author)
        invariant forall j :: n <= j < |freshIds| ==> !HasId(QueueOf(Doc()), freshIds[j])
        decreases |items| - n, going
      {
        ghost var before := Doc();
        var added := AddTrack(items[n], apiUser, freshIds[n]);
        if added.Added? {
          ImportStep(d0, ts, freshIds, author, n, before, Doc());
          n := n + 1;
        } else {
          going := false;
        }
      }
      assert ts[..n] == ts;
    }
  }
}
