/**
 * The playlist page (`getPlaylist`): the values the template is rendered with, derived
 * from the stored playlist and the signed-in user.  Reading the current track's first
 * artist or first album image can throw a TypeError; the page is then not rendered.
 */
module PlaylistView {
  import opened Wrappers
  import opened Json
  import opened Queue
  import opened Projection
  import opened Playlists

  /** `v[i]` as a read that throws (None) when `v` is undefined or null. */
  function ReadIndex(v: Value, i: nat): (r: Option<Value>)
    ensures r.None? <==> v == Undefined || v == Null
    ensures r.Some? ==> r.value == At(v, i)
  {
    if v == Undefined || v == Null then None else Some(At(v, i))
  }

  /** The template's locals that depend on the playlist; `playlist`, `user` and `pretty`
      are passed through unchanged and are not modelled. */
  datatype PageView = PageView(
    nextState: string,
    playState: string,
    isAdmin: bool,
    currentName: Value,
    currentArtist: Value,
    albumArt: Value,
    queue: seq<Entry>)

  /** `current.artists[0].name`, None when a read throws. */
  function FirstArtistName(current: Value): (r: Option<Value>)
    ensures var artists := Get(current, "artists");
            var first := At(artists, 0);
            (r.Some? <==> artists != Undefined && artists != Null && first != Undefined && first != Null) &&
            (r.Some? ==> r.value == Get(first, "name"))
  {
    var first := ReadIndex(Get(current, "artists"), 0);
    if first.None? then None else Read(first.value, "name")
  }

  /** `current.album.images[0].url`, None when a read throws. */
  function FirstImageUrl(current: Value): (r: Option<Value>)
    ensures var album := Get(current, "album");
            var images := Get(album, "images");
            var first := At(images, 0);
            (r.Some? <==> album != Undefined && album != Null && images != Undefined && images != Null &&
                          first != Undefined && first != Null) &&
            (r.Some? ==> r.value == Get(first, "url"))
  {
    var images := Read(Get(current, "album"), "images");
    if images.None? then None
    else
      var first := ReadIndex(images.value, 0);
      if first.None? then None else Read(first.value, "url")
  }

  /** The page for playlist `d` seen by `user`; None when rendering throws. */
  function Render(d: PlaylistDoc, user: Option<UserId>): (r: Option<PageView>)
    ensures r.Some? ==> r.value.queue == QueueOf(d)
    ensures r.Some? ==> (r.value.isAdmin <==> user == Some(d.admin))
    ensures r.Some? ==> (r.value.nextState == "pause" <==> d.play) && r.value.nextState in {"pause", "play"}
    ensures !HasCurrent(d) ==>
              r.Some? && r.value.currentName == Str("Nothing playing") &&
              r.value.currentArtist == Str("") && r.value.albumArt == Str("")
    ensures HasCurrent(d) ==>
              (r.Some? <==> FirstArtistName(d.current.value).Some? && FirstImageUrl(d.current.value).Some?)
  {
    var nextState := if d.play then "pause" else "play";
    var playState := if d.play then "true" else "false";
    var isAdmin := UserIsPlaylistAdmin(user, Some(d));
    var queue := QueueOf(d);
    if !HasCurrent(d) then
      Some(PageView(nextState, playState, isAdmin, Str("Nothing playing"), Str(""), Str(""), queue))
    else
      var current := d.current.value;
      var artist := FirstArtistName(current);
      var art := FirstImageUrl(current);
      if artist.None? || art.None? then None
      else Some(PageView(nextState, playState, isAdmin, Get(current, "name"), artist.value, art.value, queue))
  }

  /** The page's play state, posted back to the play route, leaves the play flag as it is. */
  lemma PlayStateRoundTrip(d: PlaylistDoc, user: Option<UserId>)
    requires Render(d, user).Some?
    ensures ParsePlay(Some(Render(d, user).value.playState)) == d.play
    ensures d.(play := ParsePlay(Some(Render(d, user).value.playState))) == d
  {
  }

  /** The admin controls are shown exactly to the user the import routes let through. */
  lemma AdminViewMatchesGate(d: PlaylistDoc, user: Option<UserId>)
    requires Render(d, user).Some?
    ensures Render(d, user).value.isAdmin <==> ImportGate(user, d).None?
  {
  }

  /** A current track whose first artist and first album image are objects is shown with
      its name, that artist's name and that image's url. */
  lemma RenderShowsTrack(d: PlaylistDoc, user: Option<UserId>, c: Value)
    requires d.current == Some(c) && c.Obj?
    requires Truthy(Get(c, "artists")) && At(Get(c, "artists"), 0).Obj?
    requires Truthy(Lookup(c, ["album", "images"])) && At(Lookup(c, ["album", "images"]), 0).Obj?
    ensures Render(d, user).Some?
    ensures Render(d, user).value.currentName == Get(c, "name")
    ensures Render(d, user).value.currentArtist == Get(At(Get(c, "artists"), 0), "name")
    ensures Render(d, user).value.albumArt == Get(At(Lookup(c, ["album", "images"]), 0), "url")
  {
    var images := Lookup(c, ["album", "images"]);
    assert images == Get(Get(c, "album"), "images");
    assert Get(c, "album") != Undefined && Get(c, "album") != Null;
    assert Read(Get(c, "album"), "images") == Some(images);
    assert FirstImageUrl(c) == Some(Get(At(images, 0), "url"));
  }

  /** A projection that keeps the name, the artists and the album images keeps the
      catalog's values for them. */
  lemma ProjectedTrack(source: Value, keys: seq<string>)
    requires "name" in keys && "artists" in keys && "album.images" in keys
    requires Truthy(Get(source, "name")) && Truthy(Get(source, "artists"))
    requires Truthy(Lookup(source, ["album", "images"]))
    ensures Project(source, keys).Obj?
    ensures Get(Project(source, keys), "name") == Get(source, "name")
    ensures Get(Project(source, keys), "artists") == Get(source, "artists")
    ensures Lookup(Project(source, keys), ["album", "images"]) == Lookup(source, ["album", "images"])
  {
    AlbumImagesPath();
    var track := Project(source, keys);
    assert Get(track, "name") == Get(source, "name") by {
      LookupOne(source, "name");
      LookupOne(track, "name");
      ProjectCopies(source, keys, "name");
    }
    assert Get(track, "artists") == Get(source, "artists") by {
      LookupOne(source, "artists");
      LookupOne(track, "artists");
      ProjectCopies(source, keys, "artists");
    }
    ProjectCopies(source, keys, "album.images");
  }


  /** A track stored by an add shows the catalog's name, first artist and first album
      image, provided the catalog record has them. */
  lemma RenderShowsCatalogTrack(d: PlaylistDoc, user: Option<UserId>, source: Value)
    requires d.current == Some(Project(source, TrackFields))
    requires Truthy(Get(source, "name"))
    requires Truthy(Get(source, "artists")) && At(Get(source, "artists"), 0).Obj?
    requires Truthy(Lookup(source, ["album", "images"]))
    requires At(Lookup(source, ["album", "images"]), 0).Obj?
    ensures Render(d, user).Some?
    ensures Render(d, user).value.currentName == Get(source, "name")
    ensures Render(d, user).value.currentArtist == Get(At(Get(source, "artists"), 0), "name")
    ensures Render(d, user).value.albumArt == Get(At(Lookup(source, ["album", "images"]), 0), "url")
  {
    KeptKeys();
    ProjectedTrack(source, TrackFields);
    RenderShowsTrack(d, user, Project(source, TrackFields));
  }

  /** The page reads three of the fields an add keeps. */
  lemma KeptKeys()
    ensures "name" in TrackFields && "artists" in TrackFields && "album.images" in TrackFields
  {
    assert TrackFields[0] == "name";
    assert TrackFields[4] == "artists";
    assert TrackFields[6] == "album.images";
  }

  /** The stored path "album.images" splits into its two field names. */
  lemma AlbumImagesPath()
    ensures Split("album.images") == ["album", "images"]
    ensures Split("name") == ["name"] && Split("artists") == ["artists"]
  {
    var parts := ["album", "images"];
    assert parts[1..] == ["images"];
    assert Join(parts) == "album" + "." + "images";
    assert "album" + "." + "images" == "album.images";
    SplitJoin(parts);
    SplitJoin(["name"]);
    SplitJoin(["artists"]);
  }

  /** A current track whose artists list is undefined or null cannot be rendered. */
  lemma NoArtistsNoPage(d: PlaylistDoc, user: Option<UserId>)
    requires HasCurrent(d)
    requires Get(d.current.value, "artists") == Undefined || Get(d.current.value, "artists") == Null
    ensures Render(d, user).None?
  {
    assert FirstArtistName(d.current.value).None?;
  }

  /** For instance, a track holding only its name. */
  lemma NameOnlyNoPage(d: PlaylistDoc, user: Option<UserId>)
    requires d.current == Some(Obj(map["name" := Str("Intro")]))
    ensures Render(d, user).None?
  {
    assert Get(d.current.value, "artists") == Undefined;
    NoArtistsNoPage(d, user);
  }
}
