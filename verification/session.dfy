/** Sequences of user events on the feed page, and what holds across them. */
module Session {
  import opened Wrappers
  import opened FeedTypes
  import opened Identity
  import opened ReportUpdates
  import opened Feed
  import opened PageControls
  import JsText

  /** One user event together with whatever the outside world answers to it. */
  datatype Action =
    | LoadPage(page: int, pageOutcome: Response<PageData>)
    | LikeReport(id: ReportId, answer: Option<string>, likeOutcome: Response<LikeResult>)
    | OpenComment(id: ReportId, answer: Option<string>)
    | TypeDraft(text: string)
    | PostComment(id: ReportId, nameAnswer: Option<string>, commentOutcome: Response<CommentResult>)
    | CancelComment

  function Apply(s: FeedState, a: Action): Step {
    match a
    case LoadPage(page, o) => Load(s, page, o)
    case LikeReport(id, answer, o) => Like(s, id, answer, o)
    case OpenComment(id, answer) => OpenDraft(s, id, answer)
    case TypeDraft(text) => Halt(EditDraft(s, text), None)
    case PostComment(id, name, o) => SubmitComment(s, id, name, o)
    case CancelComment => Halt(CancelDraft(s), None)
  }

  /** The identity prompt is shown for this event. */
  predicate PromptsForIdentity(s: FeedState, a: Action) {
    (a.LikeReport? || a.OpenComment?) && PromptShown(s.userEmail)
  }

  function Run(s: FeedState, actions: seq<Action>): FeedState
    decreases |actions|
  {
    if actions == [] then s else Run(Apply(s, actions[0]).state, actions[1..])
  }

  /** How many times the identity prompt is shown along a run. The name prompt of a post is not
      counted. */
  function IdentityPromptCount(s: FeedState, actions: seq<Action>): nat
    decreases |actions|
  {
    if actions == [] then 0
    else (if PromptsForIdentity(s, actions[0]) then 1 else 0) + IdentityPromptCount(Apply(s, actions[0]).state, actions[1..])
  }

  /** How many times an identity is written to browser storage along a run. */
  function StoreCount(s: FeedState, actions: seq<Action>): nat
    decreases |actions|
  {
    if actions == [] then 0
    else (if Apply(s, actions[0]).persisted.Some? then 1 else 0) + StoreCount(Apply(s, actions[0]).state, actions[1..])
  }

  /** The error shown is never the empty string. Every state reached from mount satisfies this,
      whatever storage holds. */
  predicate ErrorInv(s: FeedState) {
    s.error != Some("")
  }

  /** What every state reached from a mount whose stored identity is empty or contains `@`
      satisfies: no empty error text, an identity that is empty or was accepted by the prompt,
      and a comment box open only once there is an identity. The page itself never checks the
      stored value, so a mount with any other stored string keeps only `ErrorInv`. */
  predicate Inv(s: FeedState) {
    && ErrorInv(s)
    && (s.userEmail == "" || ValidEmail(s.userEmail))
    && (s.commentingOn.Some? ==> s.userEmail != "")
  }

  /** The mount state shows no error, whatever storage holds. */
  lemma InitErrorInv(stored: Option<string>)
    ensures ErrorInv(Init(stored))
  {
  }

  /** No event leaves an empty error text behind. */
  lemma ApplyPreservesErrorInv(s: FeedState, a: Action)
    requires ErrorInv(s)
    ensures ErrorInv(Apply(s, a).state)
  {
    match a
    case LoadPage(page, o) =>
    case LikeReport(id, answer, o) =>
    case OpenComment(id, answer) =>
    case TypeDraft(text) =>
    case PostComment(id, name, o) =>
    case CancelComment =>
  }

  /** After mount and any sequence of events, the error shown is never the empty string. */
  lemma {:induction false} RunPreservesErrorInv(s: FeedState, actions: seq<Action>)
    requires ErrorInv(s)
    ensures ErrorInv(Run(s, actions))
    decreases |actions|
  {
    if actions != [] {
      ApplyPreservesErrorInv(s, actions[0]);
      RunPreservesErrorInv(Apply(s, actions[0]).state, actions[1..]);
    }
  }

  /** The mount state satisfies the invariant when storage holds nothing or a value the prompt
      would have accepted. */
  lemma InitInv(stored: Option<string>)
    requires stored.None? || stored.value == "" || ValidEmail(stored.value)
    ensures Inv(Init(stored))
  {
  }

  /** Every event keeps the invariant. What is written to storage is always the identity the
      state now holds, and it is written only when the prompt was shown. */
  lemma ApplyPreservesInv(s: FeedState, a: Action)
    requires Inv(s)
    ensures Inv(Apply(s, a).state)
    ensures Apply(s, a).persisted.Some? ==>
      PromptsForIdentity(s, a) && Apply(s, a).persisted.value == Apply(s, a).state.userEmail
  {
    match a
    case LoadPage(page, o) => LoadPreservesInv(s, page, o);
    case LikeReport(id, answer, o) => LikePreservesInv(s, id, answer, o);
    case OpenComment(id, answer) => OpenDraftPreservesInv(s, id, answer);
    case TypeDraft(text) =>
    case PostComment(id, name, o) =>
    case CancelComment =>
  }

  lemma LoadPreservesInv(s: FeedState, page: int, o: Response<PageData>)
    requires Inv(s)
    ensures Inv(Load(s, page, o).state)
  {
  }

  lemma LikePreservesInv(s: FeedState, id: ReportId, answer: Option<string>, o: Response<LikeResult>)
    requires Inv(s)
    ensures Inv(Like(s, id, answer, o).state)
    ensures Like(s, id, answer, o).persisted.Some? ==>
      s.userEmail == "" && Like(s, id, answer, o).persisted.value == Like(s, id, answer, o).state.userEmail
  {
  }

  lemma OpenDraftPreservesInv(s: FeedState, id: ReportId, answer: Option<string>)
    requires Inv(s)
    ensures Inv(OpenDraft(s, id, answer).state)
    ensures OpenDraft(s, id, answer).persisted.Some? ==>
      s.userEmail == "" && OpenDraft(s, id, answer).persisted.value == OpenDraft(s, id, answer).state.userEmail
  {
  }

  lemma {:induction false} RunPreservesInv(s: FeedState, actions: seq<Action>)
    requires Inv(s)
    ensures Inv(Run(s, actions))
    decreases |actions|
  {
    if actions != [] {
      ApplyPreservesInv(s, actions[0]);
      RunPreservesInv(Apply(s, actions[0]).state, actions[1..]);
    }
  }

  /** With the comment box open on report `id`, posting it sends a valid identity. */
  lemma PostedCommentCarriesIdentity(s: FeedState, id: ReportId, name: Option<string>, o: Response<CommentResult>)
    requires Inv(s) && s.commentingOn == Some(id)
    requires SubmitComment(s, id, name, o).request.Some?
    ensures SubmitComment(s, id, name, o).request.value.email == s.userEmail
    ensures ValidEmail(SubmitComment(s, id, name, o).request.value.email)
  {
  }

  /** With an identity known, a single event keeps it, shows no prompt and writes nothing. */
  lemma ApplyKeepsIdentity(s: FeedState, a: Action)
    requires s.userEmail != ""
    ensures Apply(s, a).state.userEmail == s.userEmail
    ensures !PromptsForIdentity(s, a) && Apply(s, a).persisted == None
  {
  }

  /** Once there is an identity, no later event changes it, shows the prompt or writes storage. */
  lemma {:induction false} IdentityIsFinal(s: FeedState, actions: seq<Action>)
    requires s.userEmail != ""
    ensures Run(s, actions).userEmail == s.userEmail
    ensures IdentityPromptCount(s, actions) == 0
    ensures StoreCount(s, actions) == 0
    decreases |actions|
  {
    if actions != [] {
      var st := Apply(s, actions[0]);
      ApplyKeepsIdentity(s, actions[0]);
      IdentityIsFinal(st.state, actions[1..]);
      assert Run(s, actions) == Run(st.state, actions[1..]);
      assert IdentityPromptCount(s, actions) == IdentityPromptCount(st.state, actions[1..]);
      assert StoreCount(s, actions) == StoreCount(st.state, actions[1..]);
    }
  }

  /** Along any run the identity is written to storage at most once, and never when one was
      already known at the start. */
  lemma {:induction false} IdentityStoredAtMostOnce(s: FeedState, actions: seq<Action>)
    ensures StoreCount(s, actions) <= (if s.userEmail == "" then 1 else 0)
    decreases |actions|
  {
    if s.userEmail != "" {
      IdentityIsFinal(s, actions);
    } else if actions != [] {
      var st := Apply(s, actions[0]);
      ApplyStoresOnlyWhenSet(s, actions[0]);
      assert StoreCount(s, actions) == (if st.persisted.Some? then 1 else 0) + StoreCount(st.state, actions[1..]);
      if st.persisted.Some? {
        IdentityIsFinal(st.state, actions[1..]);
      } else {
        IdentityStoredAtMostOnce(st.state, actions[1..]);
      }
    }
  }

  /** Without an identity, an event either writes one to storage, and then the state holds a
      non-empty identity, or writes nothing and leaves the identity empty. */
  lemma ApplyStoresOnlyWhenSet(s: FeedState, a: Action)
    requires s.userEmail == ""
    ensures Apply(s, a).persisted.Some? ==> Apply(s, a).state.userEmail != ""
    ensures Apply(s, a).persisted.None? ==> Apply(s, a).state.userEmail == ""
  {
  }

  /** Two successful likes on one report: the report ends with the second response's values,
      never with a locally computed count. */
  lemma SecondLikeResponseWins(s: FeedState, id: ReportId, a1: Option<string>, a2: Option<string>, r1: LikeResult, r2: LikeResult)
    requires s.userEmail != "" || (a1.Some? && ValidEmail(a1.value))
    ensures Like(Like(s, id, a1, Success(r1)).state, id, a2, Success(r2)).state.reports
         == UpdateById(s.reports, id, LikePatch(r2.likeCount, r2.liked))
  {
    LaterResponseWins(s.reports, id, LikePatch(r1.likeCount, r1.liked), LikePatch(r2.likeCount, r2.liked));
  }

  /** The first like with no known identity: the typed address is kept and stored, yet the request
      itself still carries the empty identity; the next like, on any report, shows no prompt and
      sends the stored address. */
  lemma FirstLikeSendsPriorIdentity(stored: Option<string>, id1: ReportId, id2: ReportId, o1: Response<LikeResult>, answer2: Option<string>, o2: Response<LikeResult>)
    requires stored.None? || stored.value == ""
    ensures var st1 := Like(Init(stored), id1, Some("a@b.com"), o1);
      && st1.request == Some(SendLike(id1, ""))
      && st1.persisted == Some("a@b.com")
      && st1.state.userEmail == "a@b.com"
      && !PromptsForIdentity(st1.state, LikeReport(id2, answer2, o2))
      && Like(st1.state, id2, answer2, o2).request == Some(SendLike(id2, "a@b.com"))
      && Like(st1.state, id2, answer2, o2).persisted == None
  {
  }

  /** Page 1 of 3 with 45 reports: three page buttons, no overflow marker, "Previous" disabled and
      "Next" leading to page 2. */
  lemma FirstOfThreePages(s: FeedState, reports: seq<Report>)
    ensures var p := Pagination(1, 3, 45, false, true);
      var st := Load(s, 1, Success(PageData(Some(reports), Some(p))));
      && ControlsVisible(st.state)
      && PageButtons(st.state.pagination.pages) == [1, 2, 3]
      && !ShowOverflow(st.state.pagination.pages)
      && !PrevControl(st.state.pagination).enabled
      && NextControl(st.state.pagination) == Control(2, true)
  {
  }

  /** Opening the box on another report does not clear the draft: text typed under report `a`
      is still there, now under report `b`, and it is the text a post from `b` would send. */
  lemma DraftTextCarriesOver(s: FeedState, a: ReportId, b: ReportId, text: string, name: Option<string>, o: Response<CommentResult>)
    requires s.userEmail != ""
    requires !JsText.AllWhitespace(text)
    ensures var s1 := EditDraft(OpenDraft(s, a, None).state, text);
      var s2 := OpenDraft(s1, b, None).state;
      && s2.commentingOn == Some(b) && s2.commentText == text
      && SubmitComment(s2, b, name, o).request == Some(SendComment(b, s.userEmail, DisplayName(name), text))
  {
  }

  /** A failed load keeps the last good page; loading the same page again and succeeding gives
      exactly what a first-time success would have given. */
  lemma RetryAfterFailure(s: FeedState, page: int, message: Option<string>, data: PageData)
    ensures var failed := Load(s, page, Failure(message)).state;
      && failed.reports == s.reports && failed.pagination == s.pagination
      && Load(failed, page, Success(data)).state == Load(s, page, Success(data)).state
  {
  }

  /** A successful load depends only on the response and on the identity and draft: whatever
      page, error or loading flag was shown before is forgotten. */
  lemma LoadSuccessIsWholesale(s: FeedState, t: FeedState, page: int, data: PageData)
    requires s.userEmail == t.userEmail && s.commentingOn == t.commentingOn && s.commentText == t.commentText
    ensures Load(s, page, Success(data)).state == Load(t, page, Success(data)).state
  {
  }

  /** In every state reached from mount, the bar's `!error` test is the same as "no error". */
  lemma ControlsVisibleUnderInv(s: FeedState)
    requires ErrorInv(s)
    ensures ControlsVisible(s) <==> !s.loading && s.error == None && s.pagination.pages > 1
  {
  }
}
