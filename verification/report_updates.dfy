/** Replace-by-id: copying the fields a server response returns onto the report it names. */
module ReportUpdates {
  import opened FeedTypes

  /** The fields a server response carries for one report. */
  datatype Patch =
    | LikePatch(likeCount: int, liked: bool)   // response to a like
    | CommentPatch(commentCount: int)          // response to a comment

  /** `r` carries exactly the values of `p`'s fields. */
  predicate Carries(r: Report, p: Patch) {
    match p
    case LikePatch(n, b) => r.likeCount == n && r.liked == b
    case CommentPatch(n) => r.commentCount == n
  }

  /** `a` and `b` agree on every field that `p` does not name. */
  predicate SameOutside(a: Report, b: Report, p: Patch) {
    match p
    case LikePatch(_, _) => a.(likeCount := b.likeCount, liked := b.liked) == b
    case CommentPatch(_) => a.(commentCount := b.commentCount) == b
  }

  /** The spread `{ ...r, <fields of p> }`. */
  function ApplyPatch(r: Report, p: Patch): (r': Report)
    ensures Carries(r', p)
    ensures SameOutside(r, r', p)
  {
    match p
    case LikePatch(n, b) => r.(likeCount := n, liked := b)
    case CommentPatch(n) => r.(commentCount := n)
  }

  /** `reports.map(r => r.id === id ? { ...r, <patch> } : r)`: every report with identifier `id` gets
      the patch, every other report is kept as it is, and the list keeps its length and order. */
  function UpdateById(reports: seq<Report>, id: ReportId, p: Patch): (rs: seq<Report>)
    ensures |rs| == |reports|
    ensures forall i :: 0 <= i < |reports| && reports[i].id == id ==>
      Carries(rs[i], p) && SameOutside(reports[i], rs[i], p)
    ensures forall i :: 0 <= i < |reports| && reports[i].id != id ==> rs[i] == reports[i]
  {
    if reports == [] then []
    else
      var head := if reports[0].id == id then ApplyPatch(reports[0], p) else reports[0];
      [head] + UpdateById(reports[1..], id, p)
  }

  /** A response for an identifier that is not on the page leaves the list exactly as it was. */
  lemma UpdateAbsentIsIdentity(reports: seq<Report>, id: ReportId, p: Patch)
    requires forall i :: 0 <= i < |reports| ==> reports[i].id != id
    ensures UpdateById(reports, id, p) == reports
  {
  }

  /** Updates never change which reports are on the page or in what order. */
  lemma UpdateKeepsIds(reports: seq<Report>, id: ReportId, p: Patch)
    ensures forall i :: 0 <= i < |reports| ==> UpdateById(reports, id, p)[i].id == reports[i].id
  {
  }

  /** Two responses of the same kind for the same report: the later one wins outright, nothing of
      the earlier one survives (no stacking of locally guessed counts). */
  lemma LaterResponseWins(reports: seq<Report>, id: ReportId, first: Patch, second: Patch)
    requires first.LikePatch? == second.LikePatch?
    ensures UpdateById(UpdateById(reports, id, first), id, second) == UpdateById(reports, id, second)
  {
  }

  /** Responses may arrive in either order: updates that name different reports, or that touch
      different fields, commute. */
  lemma UpdatesCommute(reports: seq<Report>, id1: ReportId, p1: Patch, id2: ReportId, p2: Patch)
    requires id1 != id2 || p1.LikePatch? != p2.LikePatch?
    ensures UpdateById(UpdateById(reports, id1, p1), id2, p2)
         == UpdateById(UpdateById(reports, id2, p2), id1, p1)
  {
  }
}
