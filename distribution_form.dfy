/**
 * The four-step release-submission wizard: release metadata (step 1), cover art
 * (step 2), the track listing (step 3) and review with submission (step 4).
 *
 * The handlers themselves check nothing: moving forward adds one to the step and
 * moving back subtracts one. The bounds come from which controls are rendered or enabled,
 * so each control's visibility or enabled state is a precondition of its handler,
 * and `Valid()` is the invariant those preconditions keep.
 */
module DistributionForm {
  import opened Types
  import TrackList

  const FirstStep := 1
  const LastStep := 4

  /** Release-level fields entered on step 1. */
  datatype Metadata = Metadata(title: string, genre: string, releaseDate: string, upc: string)

  datatype MetadataField = Title | Genre | ReleaseDate | Upc

  function MetadataOf(m: Metadata, f: MetadataField): string
  {
    match f
    case Title => m.title
    case Genre => m.genre
    case ReleaseDate => m.releaseDate
    case Upc => m.upc
  }

  /** `setMetadata({ ...metadata, [field]: value })`: one field replaced. */
  function WithMetadata(m: Metadata, f: MetadataField, v: string): (r: Metadata)
    ensures MetadataOf(r, f) == v
    ensures forall g :: g != f ==> MetadataOf(r, g) == MetadataOf(m, g)
  {
    match f
    case Title => m.(title := v)
    case Genre => m.(genre := v)
    case ReleaseDate => m.(releaseDate := v)
    case Upc => m.(upc := v)
  }

  /** One row of the review's track list: its 1-based position and its displayed title. */
  datatype ReviewLine = ReviewLine(number: nat, title: string)

  /** What the review step shows. */
  datatype Review = Review(
    coverSrc: string, title: string, stageName: string, genre: string,
    releaseDate: string, trackCount: nat, lines: seq<ReviewLine>)

  /** The review rows of `ts`, numbered from `first`; an empty song title shows as "Untitled". */
  function ReviewLines(ts: seq<TrackList.Track>, first: nat): (r: seq<ReviewLine>)
    ensures |r| == |ts|
    ensures forall i :: 0 <= i < |ts| ==> r[i].number == first + i
    ensures forall i :: 0 <= i < |ts| && ts[i].songTitle != "" ==> r[i].title == ts[i].songTitle
    ensures forall i :: 0 <= i < |ts| && ts[i].songTitle == "" ==> r[i].title == "Untitled"
  {
    if ts == [] then []
    else
      [ReviewLine(first, if ts[0].songTitle == "" then "Untitled" else ts[0].songTitle)]
      + ReviewLines(ts[1..], first + 1)
  }

  /** The review projection of the draft. A missing user shows an empty stage name,
      missing cover art an empty image source, an empty date "Not set". */
  function ReviewOf(user: Option<User>, m: Metadata, cover: Option<string>, ts: seq<TrackList.Track>): (r: Review)
    ensures r.trackCount == |ts| == |r.lines|
    ensures r.lines == ReviewLines(ts, 1)
    ensures r.title == m.title && r.genre == m.genre
    ensures cover.Some? ==> r.coverSrc == cover.value
    ensures r.stageName == if user.Some? then user.value.stageName else ""
    ensures r.releaseDate == (if m.releaseDate == "" then "Not set" else m.releaseDate)
    ensures cover.None? ==> r.coverSrc == ""
    ensures forall i :: 0 <= i < |ts| ==> r.lines[i].number == i + 1
  {
    Review(
      if cover.Some? then cover.value else "",
      m.title,
      if user.Some? then user.value.stageName else "",
      m.genre,
      if m.releaseDate == "" then "Not set" else m.releaseDate,
      |ts|,
      ReviewLines(ts, 1))
  }

  /** Retitling one track (unique ids) shows the new title on that track's review row
      and leaves every other row and the track count as they were. */
  lemma RetitleShowsInReview(
    user: Option<User>, m: Metadata, cover: Option<string>, ts: seq<TrackList.Track>,
    id: nat, v: string, k: nat)
    requires TrackList.UniqueIds(ts)
    requires k < |ts| && ts[k].id == id && v != ""
    ensures var before := ReviewOf(user, m, cover, ts);
            var after := ReviewOf(user, m, cover, TrackList.UpdateTrack(ts, id, TrackList.SongTitle, v));
            && after.trackCount == before.trackCount
            && after.lines[k] == ReviewLine(k + 1, v)
            && forall i :: 0 <= i < |ts| && i != k ==> after.lines[i] == before.lines[i]
  {
  }

  /** The wizard's state. `nextId` is the fresh-id supply that stands in for the clock
      readings used as track ids; `pendingTimers` counts scheduled, unfired submission timers. */
  class Wizard {
    var step: int
    var isSubmitting: bool
    var isFinished: bool
    var metadata: Metadata
    var coverArt: Option<string>
    var tracks: seq<TrackList.Track>
    var nextId: nat
    var pendingTimers: nat

    ghost predicate Valid()
      reads this
    {
      && FirstStep <= step <= LastStep
      && |tracks| >= 1
      && TrackList.UniqueIds(tracks)
      && TrackList.IdsBelow(tracks, nextId)
      && metadata.genre in Genres
      && !(isSubmitting && isFinished)
      && pendingTimers == (if isSubmitting then 1 else 0)
    }

    /** The mounted wizard: step 1, idle, default genre, no cover art, one blank track. */
    constructor ()
      ensures Valid()
      ensures step == FirstStep && !isSubmitting && !isFinished && pendingTimers == 0
      ensures metadata == Metadata("", Genres[0], "", "")
      ensures coverArt == None
      ensures tracks == [TrackList.EmptyTrack(0)] && nextId == 1
    {
      step := FirstStep;
      isSubmitting, isFinished := false, false;
      metadata := Metadata("", Genres[0], "", "");
      coverArt := None;
      tracks := [TrackList.EmptyTrack(0)];
      nextId := 1;
      pendingTimers := 0;
    }

    /** Continue: shown only before the last step, and not on the confirmation screen. */
    method HandleNext()
      requires Valid() && !isFinished && step < LastStep
      modifies this`step
      ensures Valid()
      ensures step == old(step) + 1
    {
      step := step + 1;
    }

    /** Back: disabled on the first step, absent on the confirmation screen. It stays
        enabled while a submission is pending. */
    method HandleBack()
      requires Valid() && !isFinished && step != FirstStep
      modifies this`step
      ensures Valid()
      ensures step == old(step) - 1
    {
      step := step - 1;
    }

    /** The step-1 inputs; the genre selector offers only the listed genres. */
    method SetMetadata(f: MetadataField, v: string)
      requires Valid() && !isFinished && step == FirstStep
      requires f == Genre ==> v in Genres
      modifies this`metadata
      ensures Valid()
      ensures metadata == WithMetadata(old(metadata), f, v)
    {
      metadata := WithMetadata(metadata, f, v);
    }

    /** The step-2 picker: the cover art becomes the picked reference, replacing any earlier one. */
    method SelectCoverArt(reference: string)
      requires Valid() && !isFinished && step == 2
      modifies this`coverArt
      ensures Valid()
      ensures coverArt == Some(reference)
    {
      coverArt := Some(reference);
    }

    /** Add Track (step 3): a blank track with a fresh id at the end. */
    method AddTrack()
      requires Valid() && !isFinished && step == 3
      modifies this`tracks, this`nextId
      ensures Valid()
      ensures tracks == TrackList.AddTrack(old(tracks), old(nextId))
      ensures nextId == old(nextId) + 1
    {
      TrackList.AddKeepsUnique(tracks, nextId);
      tracks := TrackList.AddTrack(tracks, nextId);
      nextId := nextId + 1;
    }

    /** A track's delete button (step 3). The handler itself ignores the request when
        only one track is listed. */
    method RemoveTrack(id: nat)
      requires Valid() && !isFinished && step == 3
      modifies this`tracks
      ensures Valid()
      ensures tracks == TrackList.RemoveTrack(old(tracks), id)
      ensures |old(tracks)| > 1 && TrackList.HasId(old(tracks), id) ==> |tracks| == |old(tracks)| - 1
      ensures !TrackList.HasId(old(tracks), id) ==> tracks == old(tracks)
    {
      TrackList.RemoveKeepsFloor(tracks, id);
      TrackList.WithoutIdKeepsUnique(tracks, id);
      if |tracks| > 1 {
        tracks := TrackList.WithoutId(tracks, id);
      }
    }

    /** A track's song-title or ISRC input (step 3); no other field has an input. */
    method UpdateTrack(id: nat, f: TrackList.TrackField, v: string)
      requires Valid() && !isFinished && step == 3
      requires f == TrackList.SongTitle || f == TrackList.Isrc
      modifies this`tracks
      ensures Valid()
      ensures tracks == TrackList.UpdateTrack(old(tracks), id, f, v)
    {
      TrackList.UpdateKeepsIds(tracks, id, f, v, nextId);
      tracks := TrackList.UpdateTrack(tracks, id, f, v);
    }

    /** Submit for Distribution: shown only on the last step, disabled while submitting.
        Marks the draft as submitting and schedules one resolution. */
    method HandleSubmit()
      requires Valid() && !isFinished && step == LastStep && !isSubmitting
      modifies this`isSubmitting, this`pendingTimers
      ensures Valid()
      ensures isSubmitting && pendingTimers == 1
    {
      isSubmitting := true;
      pendingTimers := pendingTimers + 1;
    }

    /** The scheduled resolution fires: submitting ends and the wizard is finished.
        It fires only while a timer is pending, so once per submission. */
    method ResolveSubmit()
      requires Valid() && pendingTimers > 0
      modifies this`isSubmitting, this`isFinished, this`pendingTimers
      ensures Valid()
      ensures !isSubmitting && isFinished && pendingTimers == 0
    {
      isSubmitting := false;
      isFinished := true;
      pendingTimers := pendingTimers - 1;
    }
  }

  /** A walk through the wizard: two tracks added to the initial one, the initial one
      removed, then review and submission. */
  method AddTwoRemoveFirst() returns (w: Wizard)
    ensures w.Valid() && w.isFinished
    ensures w.tracks == [TrackList.EmptyTrack(1), TrackList.EmptyTrack(2)]
  {
    w := new Wizard();
    w.HandleNext();
    w.HandleNext();
    w.AddTrack();
    w.AddTrack();
    assert w.tracks == ThreeBlankTracks();
    RemoveFirstOfThree();
    w.RemoveTrack(0);
    w.HandleNext();
    w.HandleSubmit();
    w.ResolveSubmit();
  }

  function ThreeBlankTracks(): seq<TrackList.Track>
  {
    [TrackList.EmptyTrack(0), TrackList.EmptyTrack(1), TrackList.EmptyTrack(2)]
  }

  lemma RemoveFirstOfThree()
    ensures TrackList.RemoveTrack(ThreeBlankTracks(), 0) == ThreeBlankTracks()[1..]
  {
  }
}
