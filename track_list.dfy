/**
 * The ordered track listing of a release draft, and the three edits the
 * release wizard makes to it: append a blank track, remove a track by id
 * (never below one track), and change one field of a track by id.
 * Positions are 1-based display numbers only; a track is identified by its id.
 */
module TrackList {

  /** One entry of the track listing. */
  datatype Track = Track(id: nat, songTitle: string, isrc: string, audioUrl: string, credits: string)

  /** The editable text fields of a track. */
  datatype TrackField = SongTitle | Isrc | AudioUrl | Credits

  /** A freshly added track: the given id, every text field empty. */
  function EmptyTrack(id: nat): Track
  {
    Track(id, "", "", "", "")
  }

  function FieldOf(t: Track, f: TrackField): string
  {
    match f
    case SongTitle => t.songTitle
    case Isrc => t.isrc
    case AudioUrl => t.audioUrl
    case Credits => t.credits
  }

  /** The object spread `{ ...t, [field]: value }`: one field replaced. */
  function WithField(t: Track, f: TrackField, v: string): (r: Track)
    ensures r.id == t.id
    ensures FieldOf(r, f) == v
    ensures forall g :: g != f ==> FieldOf(r, g) == FieldOf(t, g)
  {
    match f
    case SongTitle => t.(songTitle := v)
    case Isrc => t.(isrc := v)
    case AudioUrl => t.(audioUrl := v)
    case Credits => t.(credits := v)
  }

  /** No two tracks of the listing share an id. */
  predicate UniqueIds(ts: seq<Track>)
  {
    forall i, j :: 0 <= i < j < |ts| ==> ts[i].id != ts[j].id
  }

  /** Every id in the listing was drawn from a supply that is now at `n`. */
  predicate IdsBelow(ts: seq<Track>, n: nat)
  {
    forall t :: t in ts ==> t.id < n
  }

  predicate HasId(ts: seq<Track>, id: nat)
  {
    exists i :: 0 <= i < |ts| && ts[i].id == id
  }

  /** `[...tracks, newTrack]`: a blank track with the given id at the end. */
  function AddTrack(ts: seq<Track>, id: nat): (r: seq<Track>)
    ensures |r| == |ts| + 1
    ensures r[..|ts|] == ts
    ensures r[|ts|].id == id
    ensures forall g :: FieldOf(r[|ts|], g) == ""
  {
    ts + [EmptyTrack(id)]
  }

  /** `tracks.filter(t => t.id !== id)`: the tracks whose id differs, in order. */
  function WithoutId(ts: seq<Track>, id: nat): (r: seq<Track>)
    ensures |r| <= |ts|
    ensures forall t :: t in r <==> t in ts && t.id != id
    ensures !HasId(ts, id) ==> r == ts
  {
    if ts == [] then []
    else if ts[0].id == id then WithoutId(ts[1..], id)
    else [ts[0]] + WithoutId(ts[1..], id)
  }

  /** The remove handler: filter by id, but only when more than one track is listed. */
  function RemoveTrack(ts: seq<Track>, id: nat): (r: seq<Track>)
    ensures |ts| <= 1 ==> r == ts
    ensures |ts| > 1 ==> forall t :: t in r <==> t in ts && t.id != id
  {
    if |ts| > 1 then WithoutId(ts, id) else ts
  }

  /** `tracks.map(t => t.id === id ? { ...t, [field]: value } : t)`. */
  function UpdateTrack(ts: seq<Track>, id: nat, f: TrackField, v: string): (r: seq<Track>)
    ensures |r| == |ts|
    ensures forall i :: 0 <= i < |ts| ==> r[i].id == ts[i].id
    ensures forall i :: 0 <= i < |ts| && ts[i].id != id ==> r[i] == ts[i]
    ensures forall i :: 0 <= i < |ts| && ts[i].id == id ==>
      FieldOf(r[i], f) == v && forall g :: g != f ==> FieldOf(r[i], g) == FieldOf(ts[i], g)
  {
    if ts == [] then []
    else [if ts[0].id == id then WithField(ts[0], f, v) else ts[0]] + UpdateTrack(ts[1..], id, f, v)
  }

  /** Removing the track at position `k` of a listing with unique ids drops exactly
      that position and keeps every other track in its original order. */
  lemma {:induction false} WithoutIdAt(ts: seq<Track>, id: nat, k: nat)
    requires UniqueIds(ts)
    requires k < |ts| && ts[k].id == id
    ensures WithoutId(ts, id) == ts[..k] + ts[k + 1..]
  {
    if k == 0 {
      assert !HasId(ts[1..], id) by {
        forall i | 0 <= i < |ts[1..]| ensures ts[1..][i].id != id {
          assert ts[1..][i] == ts[i + 1];
        }
      }
    } else {
      assert ts[0].id != id;
      WithoutIdAt(ts[1..], id, k - 1);
      assert ts[1..][..k - 1] + ts[1..][k..] == ts[1..k] + ts[k + 1..];
      assert [ts[0]] + ts[1..k] == ts[..k];
    }
  }

  /** Filtering keeps the ids of a listing distinct. */
  lemma {:induction false} WithoutIdKeepsUnique(ts: seq<Track>, id: nat)
    requires UniqueIds(ts)
    ensures UniqueIds(WithoutId(ts, id))
  {
    if ts != [] {
      WithoutIdKeepsUnique(ts[1..], id);
      var rest := WithoutId(ts[1..], id);
      if ts[0].id != id {
        forall t | t in rest ensures t.id != ts[0].id {
          assert t in ts[1..];
          var j :| 0 <= j < |ts[1..]| && ts[1..][j] == t;
          assert ts[j + 1] == t;
        }
        var r := [ts[0]] + rest;
        forall i, j | 0 <= i < j < |r| ensures r[i].id != r[j].id {
          assert r[j] == rest[j - 1];
          assert rest[j - 1] in rest;
          if i > 0 {
            assert r[i] == rest[i - 1];
          }
        }
      }
    }
  }

  /** The track floor: with unique ids, removal keeps at least one track, drops exactly
      one when the id is listed and more than one track is listed, and otherwise changes nothing. */
  lemma RemoveKeepsFloor(ts: seq<Track>, id: nat)
    requires UniqueIds(ts) && |ts| >= 1
    ensures |RemoveTrack(ts, id)| >= 1
    ensures |ts| > 1 && HasId(ts, id) ==> |RemoveTrack(ts, id)| == |ts| - 1
    ensures !HasId(ts, id) ==> RemoveTrack(ts, id) == ts
  {
    if |ts| > 1 {
      if HasId(ts, id) {
        var k :| 0 <= k < |ts| && ts[k].id == id;
        WithoutIdAt(ts, id, k);
      }
    }
  }

  /** Without unique ids the floor fails: when every listed track carries the removed id,
      the filter leaves nothing, however many tracks were listed. */
  lemma {:induction false} RemoveWithSharedIdEmpties(ts: seq<Track>, id: nat)
    requires forall i :: 0 <= i < |ts| ==> ts[i].id == id
    ensures |ts| > 1 ==> RemoveTrack(ts, id) == []
    ensures WithoutId(ts, id) == []
  {
    if ts != [] {
      RemoveWithSharedIdEmpties(ts[1..], id);
    }
  }

  /** Appending a track whose id is fresh keeps ids distinct and below the advanced supply. */
  lemma AddKeepsUnique(ts: seq<Track>, id: nat)
    requires UniqueIds(ts) && IdsBelow(ts, id)
    ensures UniqueIds(AddTrack(ts, id))
    ensures IdsBelow(AddTrack(ts, id), id + 1)
  {
  }

  /** With unique ids an edit by id changes exactly the one track at that position. */
  lemma UpdateTrackAt(ts: seq<Track>, id: nat, f: TrackField, v: string, k: nat)
    requires UniqueIds(ts)
    requires k < |ts| && ts[k].id == id
    ensures UpdateTrack(ts, id, f, v) == ts[..k] + [WithField(ts[k], f, v)] + ts[k + 1..]
  {
    var r := UpdateTrack(ts, id, f, v);
    var s := ts[..k] + [WithField(ts[k], f, v)] + ts[k + 1..];
    forall i | 0 <= i < |ts| ensures r[i] == s[i] {
      if i == k {
        TrackByFields(r[i], WithField(ts[k], f, v));
      }
    }
  }

  /** A track is determined by its id and its four text fields. */
  lemma TrackByFields(a: Track, b: Track)
    requires a.id == b.id
    requires forall g :: FieldOf(a, g) == FieldOf(b, g)
    ensures a == b
  {
    assert FieldOf(a, SongTitle) == FieldOf(b, SongTitle);
    assert FieldOf(a, Isrc) == FieldOf(b, Isrc);
    assert FieldOf(a, AudioUrl) == FieldOf(b, AudioUrl);
    assert FieldOf(a, Credits) == FieldOf(b, Credits);
  }

  /** An edit never changes the ids, so it keeps them distinct and below the supply. */
  lemma UpdateKeepsIds(ts: seq<Track>, id: nat, f: TrackField, v: string, n: nat)
    requires UniqueIds(ts) && IdsBelow(ts, n)
    ensures UniqueIds(UpdateTrack(ts, id, f, v))
    ensures IdsBelow(UpdateTrack(ts, id, f, v), n)
  {
  }
}
