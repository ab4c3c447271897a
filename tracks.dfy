/**
 * The track mapping of `/api/music/nepalese`:
 * `deezerData.tracks.data.map(track => ({id, title, description, image}))`,
 * with the TypeErrors its property reads can throw.
 */
module Tracks {
  import opened Wrappers
  import opened Js

  /** A track is mappable when reading `artist.name` and
      `album.cover_medium` cannot throw: the track, its artist and its album
      are neither undefined nor null. */
  predicate Nullish(v: Js) { v == Undefined || v == Null }

  predicate Mappable(track: Js) {
    && !Nullish(track)
    && !Nullish(Member(track, "artist").value)
    && !Nullish(Member(track, "album").value)
  }

  /** The summary the lambda builds for one track, evaluating the four
      properties in source order. */
  function Summary(track: Js): Result<Js, TypeError>
  {
    // `track.id` throws first when the track itself is nullish; after that
    // only `artist.name` and `album.cover_medium` can throw.
    if Nullish(track) then Failure(TypeError)
    else
      var artist := Member(track, "artist").value;
      if Nullish(artist) then Failure(TypeError)
      else
        var album := Member(track, "album").value;
        if Nullish(album) then Failure(TypeError)
        else
          Success(Obj([Prop("id", Member(track, "id").value),
                       Prop("title", Member(track, "title").value),
                       Prop("description", Member(artist, "name").value),
                       Prop("image", Member(album, "cover_medium").value)]))
  }

  /** What the client reads of one summary once it is serialised: `id` and
      `title` of the track, `description` its artist's name, `image` its
      album's medium cover, each absent when the track lacks it, and no other
      property. */
  lemma SummaryOnTheWire(track: Js)
    requires Mappable(track)
    ensures var w := WireForm(Summary(track).value);
            && w.Obj?
            && Lookup(w.props, "id") == WireForm(Member(track, "id").value)
            && Lookup(w.props, "title") == WireForm(Member(track, "title").value)
            && Lookup(w.props, "description") == WireForm(Member(Member(track, "artist").value, "name").value)
            && Lookup(w.props, "image") == WireForm(Member(Member(track, "album").value, "cover_medium").value)
            && Keys(w.props) <= {"id", "title", "description", "image"}
  {
    var props := Summary(track).value.props;
    assert DistinctKeys(props);
    LookupWireProps(props, "id");
    LookupWireProps(props, "title");
    LookupWireProps(props, "description");
    LookupWireProps(props, "image");
    assert Lookup(props, "title") == Lookup(props[1..], "title");
    assert Lookup(props, "description") == Lookup(props[1..], "description") == Lookup(props[2..], "description");
    assert Lookup(props, "image") == Lookup(props[1..], "image") == Lookup(props[2..], "image")
        == Lookup(props[3..], "image");
    WirePropsKeys(props);
    assert Keys(props) == {"id", "title", "description", "image"};
  }

  /** `tracks.map(lambda)`: the first track whose summary throws makes the
      whole map throw; otherwise one summary per track, in order. */
  function SummarizeAll(tracks: seq<Js>): (r: Result<seq<Js>, TypeError>)
    ensures r.Success? <==> forall i :: 0 <= i < |tracks| ==> Mappable(tracks[i])
    ensures r.Success? ==> |r.value| == |tracks|
    ensures r.Success? ==> forall i :: 0 <= i < |tracks| ==> Summary(tracks[i]) == Success(r.value[i])
  {
    if tracks == [] then Success([])
    else
      match Summary(tracks[0])
      case Failure(e) => Failure(e)
      case Success(first) =>
        match SummarizeAll(tracks[1..])
        case Failure(e) =>
          assert exists j :: 0 <= j < |tracks| && !Mappable(tracks[j]) by {
            var j :| 0 <= j < |tracks[1..]| && !Mappable(tracks[1..][j]);
            assert tracks[j + 1] == tracks[1..][j];
          }
          Failure(e)
        case Success(rest) =>
          assert forall i :: 1 <= i < |tracks| ==> tracks[i] == tracks[1..][i - 1];
          Success([first] + rest)
  }

  /** `deezerData.tracks.data.map(..)`: reading `tracks` of a nullish
      response, or `data` of a nullish `tracks`, throws, and so does calling
      `map` on anything but an array. */
  function MapChart(chart: Js): (r: Result<seq<Js>, TypeError>)
  {
    var tracks :- Member(chart, "tracks");
    var data :- Member(tracks, "data");
    if data.Arr? then SummarizeAll(data.items) else Failure(TypeError)
  }

  /** The tracks array of a chart, when the path `tracks.data` leads to one. */
  function TrackList(chart: Js): Option<seq<Js>> {
    if Nullish(chart) then None
    else
      var tracks := Member(chart, "tracks").value;
      if Nullish(tracks) then None
      else
        var data := Member(tracks, "data").value;
        if data.Arr? then Some(data.items) else None
  }

  /** The mapping succeeds exactly when `tracks.data` is an array of
      mappable tracks, and then keeps its length and order, element i being
      `{id, title, description: artist.name, image: album.cover_medium}` of
      track i. */
  lemma MapChartSpec(chart: Js)
    ensures MapChart(chart).Success? <==>
              TrackList(chart).Some? && forall i :: 0 <= i < |TrackList(chart).value| ==> Mappable(TrackList(chart).value[i])
    ensures MapChart(chart).Success? ==>
              var tracks := TrackList(chart).value;
              var out := MapChart(chart).value;
              && |out| == |tracks|
              && forall i :: 0 <= i < |tracks| ==> Summary(tracks[i]) == Success(out[i])
  {
  }
}
