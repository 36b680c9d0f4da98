/**
 * The administrators' submission table. Each row carries a review status; the only
 * edit is a status update by id, and the only controls that trigger it are the
 * Approve and Reject buttons, which are rendered on PENDING rows alone. Per row
 * this is the state machine PENDING -> DISTRIBUTED | REJECTED, both targets final.
 */
module AdminPanel {
  import opened Types

  /** One row of the table. */
  datatype Submission = Submission(
    id: string, artist: string, title: string, genre: string, date: string, status: ReleaseStatus)

  predicate UniqueIds(rows: seq<Submission>)
  {
    forall i, j :: 0 <= i < j < |rows| ==> rows[i].id != rows[j].id
  }

  /** The table the panel is mounted with: three pending releases and one already distributed. */
  function InitialSubmissions(): (r: seq<Submission>)
    ensures |r| == 4 && UniqueIds(r)
    ensures r[0].id == "101" && r[1].id == "102" && r[2].id == "103" && r[3].id == "104"
    ensures forall i :: 0 <= i < 3 ==> r[i].status == Pending
    ensures r[3].status == Distributed
  {
    [ Submission("101", "Nova Sky", "Galactic Horizon", "Electronic", "2023-11-20", Pending),
      Submission("102", "The Rhythm Co.", "Back 2 Basics", "Hip-Hop", "2023-11-21", Pending),
      Submission("103", "Elena Ray", "Faded Memories", "Pop", "2023-11-22", Pending),
      Submission("104", "Acid Jazz Trio", "Blue Monday", "Jazz", "2023-11-23", Distributed) ]
  }

  /** `rows.map(s => s.id === id ? { ...s, status } : s)`: every row with that id gets the
      new status; nothing else changes, and an unknown id leaves the table as it was. */
  function StatusUpdated(rows: seq<Submission>, id: string, s: ReleaseStatus): (r: seq<Submission>)
    ensures |r| == |rows|
    ensures forall i :: 0 <= i < |rows| ==> r[i] == rows[i].(status := r[i].status)
    ensures forall i :: 0 <= i < |rows| ==> r[i].status == if rows[i].id == id then s else rows[i].status
    ensures (forall i :: 0 <= i < |rows| ==> rows[i].id != id) ==> r == rows
  {
    if rows == [] then []
    else [if rows[0].id == id then rows[0].(status := s) else rows[0]] + StatusUpdated(rows[1..], id, s)
  }

  /** Applying the same update twice is the same as applying it once. */
  lemma UpdateIdempotent(rows: seq<Submission>, id: string, s: ReleaseStatus)
    ensures StatusUpdated(StatusUpdated(rows, id, s), id, s) == StatusUpdated(rows, id, s)
  {
  }

  /** The status actions a row offers: Approve and Reject on a pending row, none otherwise. */
  function Offered(status: ReleaseStatus): (targets: set<ReleaseStatus>)
    ensures status == Pending <==> targets != {}
    ensures status == Pending ==> targets == {Distributed, Rejected}
    ensures targets <= {Distributed, Rejected}
  {
    if status == Pending then {Distributed, Rejected} else {}
  }

  /** Two versions of one row: equal in everything but, perhaps, the status. */
  predicate SameRow(a: Submission, b: Submission)
  {
    a.id == b.id && a.artist == b.artist && a.title == b.title && a.genre == b.genre && a.date == b.date
  }

  /** A click on the action `target` of row `row`; a control that is not on screen changes nothing. */
  function Click(rows: seq<Submission>, row: nat, target: ReleaseStatus): (r: seq<Submission>)
    ensures |r| == |rows|
    ensures forall i :: 0 <= i < |rows| ==> SameRow(rows[i], r[i])
    ensures row < |rows| && rows[row].status == Pending && (target == Distributed || target == Rejected)
      ==> r[row].status == target
    ensures !(row < |rows| && rows[row].status == Pending && (target == Distributed || target == Rejected))
      ==> r == rows
  {
    if row < |rows| && target in Offered(rows[row].status)
    then StatusUpdated(rows, rows[row].id, target)
    else rows
  }

  /** With unique ids, approving or rejecting a pending row moves that row alone. */
  lemma ClickMovesOneRow(rows: seq<Submission>, row: nat, target: ReleaseStatus)
    requires UniqueIds(rows)
    requires row < |rows| && target in Offered(rows[row].status)
    ensures rows[row].status == Pending && (target == Distributed || target == Rejected)
    ensures Click(rows, row, target) == rows[row := rows[row].(status := target)]
  {
  }

  /** Replays clicks in order. */
  function Replay(rows: seq<Submission>, clicks: seq<(nat, ReleaseStatus)>): (r: seq<Submission>)
    ensures |r| == |rows|
    ensures forall i :: 0 <= i < |rows| ==> SameRow(rows[i], r[i])
    ensures (forall i :: 0 <= i < |rows| ==> rows[i].status != Pending) ==> r == rows
    decreases |clicks|
  {
    if clicks == [] then rows
    else Replay(Click(rows, clicks[0].0, clicks[0].1), clicks[1..])
  }

  /** With unique ids, one click keeps every row's identity and leaves distributed and
      rejected rows alone. */
  lemma ClickKeepsTerminal(rows: seq<Submission>, row: nat, target: ReleaseStatus)
    requires UniqueIds(rows)
    ensures UniqueIds(Click(rows, row, target))
    ensures var r := Click(rows, row, target);
      && |r| == |rows|
      && (forall i :: 0 <= i < |rows| ==> SameRow(rows[i], r[i]))
      && (forall i :: 0 <= i < |rows| && rows[i].status != Pending ==> r[i] == rows[i])
  {
  }

  /** Starting from unique ids, whatever clicks are made, every row keeps its identity and a distributed or
      rejected row keeps its status: both are final. */
  lemma {:induction false} TerminalThroughClicks(rows: seq<Submission>, clicks: seq<(nat, ReleaseStatus)>)
    requires UniqueIds(rows)
    ensures var r := Replay(rows, clicks);
      && |r| == |rows|
      && (forall i :: 0 <= i < |rows| ==> SameRow(rows[i], r[i]))
      && (forall i :: 0 <= i < |rows| && rows[i].status != Pending ==> r[i] == rows[i])
    decreases |clicks|
  {
    if clicks != [] {
      var next := Click(rows, clicks[0].0, clicks[0].1);
      ClickKeepsTerminal(rows, clicks[0].0, clicks[0].1);
      TerminalThroughClicks(next, clicks[1..]);
    }
  }

  /** The panel's table state. */
  class Panel {
    var submissions: seq<Submission>

    ghost predicate Valid()
      reads this
    {
      UniqueIds(submissions)
    }

    constructor ()
      ensures Valid()
      ensures submissions == InitialSubmissions()
    {
      submissions := InitialSubmissions();
    }

    /** The setter the row buttons call. */
    method UpdateStatus(id: string, s: ReleaseStatus)
      requires Valid()
      modifies this
      ensures Valid()
      ensures submissions == StatusUpdated(old(submissions), id, s)
    {
      submissions := StatusUpdated(submissions, id, s);
      forall i, j | 0 <= i < j < |submissions| ensures submissions[i].id != submissions[j].id {
        assert submissions[i].id == old(submissions)[i].id && submissions[j].id == old(submissions)[j].id;
      }
    }

    /** Approve & Distribute, on a pending row. */
    method Approve(row: nat)
      requires Valid() && row < |submissions| && submissions[row].status == Pending
      modifies this
      ensures Valid()
      ensures submissions == old(submissions)[row := old(submissions)[row].(status := Distributed)]
    {
      ClickMovesOneRow(submissions, row, Distributed);
      UpdateStatus(submissions[row].id, Distributed);
    }

    /** Reject Submission, on a pending row. */
    method Reject(row: nat)
      requires Valid() && row < |submissions| && submissions[row].status == Pending
      modifies this
      ensures Valid()
      ensures submissions == old(submissions)[row := old(submissions)[row].(status := Rejected)]
    {
      ClickMovesOneRow(submissions, row, Rejected);
      UpdateStatus(submissions[row].id, Rejected);
    }
  }
}
