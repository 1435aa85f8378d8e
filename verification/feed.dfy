/** The feed component's event handlers as pure transitions. Each handler takes the state, the
    user's input and the settled server outcome, and returns the next state together with what it
    sent to the server, what it wrote to browser storage and which notice it raised. */
module Feed {
  import opened Wrappers
  import opened FeedTypes
  import opened JsText
  import opened Identity
  import opened ReportUpdates

  /** What a page fetch resolves to; either part may be missing from the response. */
  datatype PageData = PageData(reports: Option<seq<Report>>, pagination: Option<Pagination>)

  datatype LikeResult = LikeResult(likeCount: int, liked: bool)

  datatype CommentResult = CommentResult(commentCount: int)

  /** A call to the report backend. */
  datatype Request =
    | FetchPage(page: int, limit: int)
    | SendLike(id: ReportId, email: string)
    | SendComment(id: ReportId, email: string, name: string, text: string)

  /** The alerts a handler raises. */
  datatype Notice = InvalidEmail | LikeFailed | EmptyComment | CommentAdded | CommentFailed

  /** One handled event: next state, the request sent (if any), the identity written to storage
      (if any) and the alert shown (if any). */
  datatype Step = Step(state: FeedState, request: Option<Request>, persisted: Option<string>, notice: Option<Notice>)

  /** A handler that stops before doing anything but (possibly) raising a notice. */
  function Halt(s: FeedState, notice: Option<Notice>): Step {
    Step(s, None, None, notice)
  }

  const LoadFailedMessage := "Failed to load reports"
  const AnonymousName := "Anonymous"

  /** The error shown for a failed load: the error's own message unless it is missing or empty. */
  function LoadErrorText(message: Option<string>): (e: string)
    ensures e != ""
    ensures message.Some? && message.value != "" ==> e == message.value
    ensures message.None? || message.value == "" ==> e == LoadFailedMessage
  {
    if message.Some? && message.value != "" then message.value else LoadFailedMessage
  }

  /** `loadReports(page)`. The request goes out with the loading flag raised and the error
      cleared; when it settles the flag drops. A success replaces the list and the pagination
      wholesale (falling back to the empty list and the default record); a failure keeps both and
      shows an error. The identity and the comment draft are never touched. */
  function Load(s: FeedState, page: int, outcome: Response<PageData>): (st: Step)
    ensures st.request == Some(FetchPage(page, PageSize))
    ensures st.persisted == None && st.notice == None
    ensures !st.state.loading
    ensures st.state.userEmail == s.userEmail
    ensures st.state.commentingOn == s.commentingOn && st.state.commentText == s.commentText
    ensures outcome.Success? ==>
      && st.state.reports == (if outcome.value.reports.Some? then outcome.value.reports.value else [])
      && st.state.pagination == (if outcome.value.pagination.Some? then outcome.value.pagination.value else DefaultPagination)
      && st.state.error == None
    ensures outcome.Failure? ==>
      && st.state.reports == s.reports
      && st.state.pagination == s.pagination
      && st.state.error.Some? && st.state.error.value != ""
      && (outcome.message.Some? && outcome.message.value != "" ==> st.state.error == outcome.message)
      && (outcome.message.None? || outcome.message.value == "" ==> st.state.error == Some(LoadFailedMessage))
  {
    var pending := s.(loading := true, error := None);
    var settled := match outcome
      case Success(data) =>
        pending.(reports := data.reports.GetOr([]), pagination := data.pagination.GetOr(DefaultPagination))
      case Failure(message) =>
        pending.(error := Some(LoadErrorText(message)));
    Step(settled.(loading := false), Some(FetchPage(page, PageSize)), None, None)
  }

  /** `handleLike(id)`. The identity check runs first; if it refuses the typed value nothing else
      happens. Otherwise the identity is kept (and stored when it was just typed) and the like is
      sent with the identity as it was BEFORE this event, so the very first like goes out with the
      empty string. On success the server's `like_count` and `liked` are copied onto the report with
      that identifier; on failure the list is kept and a notice is raised. */
  function Like(s: FeedState, id: ReportId, answer: Option<string>, outcome: Response<LikeResult>): (st: Step)
    ensures s.userEmail == "" && !(answer.Some? && ValidEmail(answer.value)) ==>
      st == Halt(s, Some(InvalidEmail))
    ensures s.userEmail != "" || (answer.Some? && ValidEmail(answer.value)) ==>
      && st.request == Some(SendLike(id, s.userEmail))
      && st.state.userEmail == (if s.userEmail != "" then s.userEmail else answer.value)
      && st.persisted == (if s.userEmail != "" then None else answer)
      && st.state.(reports := s.reports, userEmail := s.userEmail) == s
      && (outcome.Success? ==>
            st.state.reports == UpdateById(s.reports, id, LikePatch(outcome.value.likeCount, outcome.value.liked))
            && st.notice == None)
      && (outcome.Failure? ==> st.state.reports == s.reports && st.notice == Some(LikeFailed))
  {
    match CheckIdentity(s.userEmail, answer)
    case Abort => Halt(s, Some(InvalidEmail))
    case Proceed(email, prompted) =>
      var identified := s.(userEmail := email);
      var persisted := if prompted then Some(email) else None;
      var request := Some(SendLike(id, s.userEmail));
      match outcome
      case Success(res) =>
        Step(identified.(reports := UpdateById(s.reports, id, LikePatch(res.likeCount, res.liked))),
             request, persisted, None)
      case Failure(_) => Step(identified, request, persisted, Some(LikeFailed))
  }

  /** `handleComment(id)`: opens the comment box under report `id` once the identity check lets it
      through. The draft text is left as it is, so text typed for another report carries over. */
  function OpenDraft(s: FeedState, id: ReportId, answer: Option<string>): (st: Step)
    ensures st.request == None
    ensures s.userEmail == "" && !(answer.Some? && ValidEmail(answer.value)) ==>
      st == Halt(s, Some(InvalidEmail))
    ensures s.userEmail != "" || (answer.Some? && ValidEmail(answer.value)) ==>
      && st.state.commentingOn == Some(id)
      && st.state.commentText == s.commentText
      && st.state.userEmail == (if s.userEmail != "" then s.userEmail else answer.value)
      && st.persisted == (if s.userEmail != "" then None else answer)
      && st.state.(commentingOn := s.commentingOn, userEmail := s.userEmail) == s
      && st.notice == None
  {
    match CheckIdentity(s.userEmail, answer)
    case Abort => Halt(s, Some(InvalidEmail))
    case Proceed(email, prompted) =>
      Step(s.(userEmail := email, commentingOn := Some(id)), None, if prompted then Some(email) else None, None)
  }

  /** The text area's change handler. */
  function EditDraft(s: FeedState, text: string): (st: FeedState)
    ensures st.commentText == text
    ensures st.(commentText := s.commentText) == s
  {
    s.(commentText := text)
  }

  /** The Cancel button: closes the comment box and clears the draft. */
  function CancelDraft(s: FeedState): (st: FeedState)
    ensures st.commentingOn == None && st.commentText == ""
    ensures st.(commentingOn := s.commentingOn, commentText := s.commentText) == s
  {
    s.(commentingOn := None, commentText := "")
  }

  /** The name a comment is posted under: the prompt's answer unless it was dismissed or left
      empty. A name of blanks only is kept. */
  function DisplayName(answer: Option<string>): (name: string)
    ensures name != ""
    ensures answer.Some? && answer.value != "" ==> name == answer.value
    ensures answer.None? || answer.value == "" ==> name == AnonymousName
  {
    if answer.Some? && answer.value != "" then answer.value else AnonymousName
  }

  /** `submitComment(id)`. A draft of whitespace only is refused locally: no request, no change.
      Otherwise the comment goes out with the stored identity and the chosen display name. On
      success only `comment_count` of report `id` is replaced by the server's value and the box
      closes with its text cleared; on failure the whole state, draft included, is kept. */
  function SubmitComment(s: FeedState, id: ReportId, nameAnswer: Option<string>, outcome: Response<CommentResult>): (st: Step)
    ensures st.persisted == None
    ensures AllWhitespace(s.commentText) ==> st == Halt(s, Some(EmptyComment))
    ensures !AllWhitespace(s.commentText) ==>
      && st.request == Some(SendComment(id, s.userEmail, DisplayName(nameAnswer), s.commentText))
      && (outcome.Success? ==>
            && st.state == s.(reports := UpdateById(s.reports, id, CommentPatch(outcome.value.commentCount)),
                              commentingOn := None, commentText := "")
            && st.notice == Some(CommentAdded))
      && (outcome.Failure? ==> st.state == s && st.notice == Some(CommentFailed))
  {
    TrimEmptyIffBlank(s.commentText);
    if Trim(s.commentText) == [] then Halt(s, Some(EmptyComment))
    else
      var request := Some(SendComment(id, s.userEmail, DisplayName(nameAnswer), s.commentText));
      match outcome
      case Success(res) =>
        var updated := UpdateById(s.reports, id, CommentPatch(res.commentCount));
        Step(CancelDraft(s.(reports := updated)), request, None, Some(CommentAdded))
      case Failure(_) => Step(s, request, None, Some(CommentFailed))
  }
}
