/** The entities of the public feed page and the page's state record. */
module FeedTypes {
  import opened Wrappers

  /** Reports are keyed by an opaque identifier compared with `===`. */
  type ReportId = string

  datatype Author = Author(name: string, verified: bool)

  /** One report as the server sends it; the client never edits a field on its own. */
  datatype Report = Report(
    id: ReportId,
    ticket: string,
    title: string,
    body: string,
    author: Author,
    category: Option<string>,
    createdAt: int,        // milliseconds since the epoch
    likeCount: int,
    liked: bool,
    commentCount: int
  )

  /** Pagination metadata. `hasPrev`/`hasNext` are the server's own flags; the local default
      record leaves them undefined, which reads as false. */
  datatype Pagination = Pagination(page: int, pages: int, total: int, hasPrev: bool, hasNext: bool)

  /** Pagination as the server promises it: the flags agree with the page position. */
  predicate WellFormed(p: Pagination) {
    && 1 <= p.page <= p.pages
    && 0 <= p.total
    && p.hasPrev == (p.page > 1)
    && p.hasNext == (p.page < p.pages)
  }

  /** `{ page: 1, pages: 1, total: 0 }`, used before the first load and when a response has none. */
  const DefaultPagination := Pagination(1, 1, 0, false, false)

  /** Number of reports asked for per page. */
  const PageSize := 20

  /** Everything the feed component keeps between renders. */
  datatype FeedState = FeedState(
    reports: seq<Report>,
    loading: bool,
    error: Option<string>,
    pagination: Pagination,
    userEmail: string,            // "" while no identity is known
    commentingOn: Option<ReportId>,
    commentText: string
  )

  /** The state on mount. `stored` is what the browser's storage holds under the identity key;
      a missing value becomes the empty string. */
  function Init(stored: Option<string>): (s: FeedState)
    ensures s.loading && s.error == None && s.reports == []
    ensures s.pagination == DefaultPagination && WellFormed(s.pagination)
    ensures s.userEmail == (if stored.Some? then stored.value else "")
    ensures s.commentingOn == None && s.commentText == ""
  {
    FeedState([], true, None, DefaultPagination, stored.GetOr(""), None, "")
  }
}
