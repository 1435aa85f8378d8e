/** The pagination bar under the feed: which buttons exist, where they lead, when they work. */
module PageControls {
  import opened Wrappers
  import opened FeedTypes
  import opened Feed

  /** Most page buttons shown at once. */
  const MaxButtons := 10

  function Min(a: int, b: int): int {
    if a <= b then a else b
  }

  /** `Array.from({ length: Math.min(pages, 10) }, (_, i) => i + 1)`; a negative length counts as 0. */
  function PageButtons(pages: int): (buttons: seq<int>)
    ensures |buttons| == if pages <= 0 then 0 else Min(pages, MaxButtons)
    ensures forall i :: 0 <= i < |buttons| ==> buttons[i] == i + 1
  {
    var n := if pages <= 0 then 0 else Min(pages, MaxButtons);
    seq(n, i requires 0 <= i < n => i + 1)
  }

  /** The "..." marker after the buttons. */
  predicate ShowOverflow(pages: int) {
    pages > MaxButtons
  }

  /** The buttons are exactly the first pages, never one past the last page, and the marker is
      shown exactly when some page has no button of its own. */
  lemma ButtonsCoverFirstPages(pages: int)
    ensures forall n :: n in PageButtons(pages) <==> 1 <= n <= Min(pages, MaxButtons)
    ensures forall n :: n in PageButtons(pages) ==> 1 <= n <= pages
    ensures ShowOverflow(pages) <==> exists n :: 1 <= n <= pages && n !in PageButtons(pages)
  {
    var b := PageButtons(pages);
    forall n | 1 <= n <= Min(pages, MaxButtons) ensures n in b {
      assert b[n - 1] == n;
    }
    if ShowOverflow(pages) {
      assert 11 !in b;
    }
  }

  /** The bar is rendered only when no load is pending, no error is shown and there is more than
      one page. An empty error string is falsy and does not hide it. */
  function ControlsVisible(s: FeedState): (shown: bool)
    ensures s.loading ==> !shown
    ensures s.error.Some? && s.error.value != "" ==> !shown
    ensures s.pagination.pages <= 1 ==> !shown
    ensures !s.loading && s.error.None? && s.pagination.pages >= 2 ==> shown
    ensures !s.loading && s.error == Some("") && s.pagination.pages >= 2 ==> shown
  {
    && !s.loading
    && (s.error.None? || s.error.value == "")
    && s.pagination.pages > 1
  }

  /** A button of the bar: the page it loads and whether it can be clicked. */
  datatype Control = Control(target: int, enabled: bool)

  /** "Previous": page - 1, clickable iff the server says there is a previous page. */
  function PrevControl(p: Pagination): (c: Control)
    ensures c.target == p.page - 1 && (c.enabled <==> p.hasPrev)
  {
    Control(p.page - 1, p.hasPrev)
  }

  /** "Next": page + 1, clickable iff the server says there is a next page. */
  function NextControl(p: Pagination): (c: Control)
    ensures c.target == p.page + 1 && (c.enabled <==> p.hasNext)
  {
    Control(p.page + 1, p.hasNext)
  }

  /** A numbered button is always clickable. */
  function NumberControl(n: int): Control {
    Control(n, true)
  }

  /** The controls of the bar, in display order. */
  function Controls(p: Pagination): (cs: seq<Control>)
    ensures |cs| == |PageButtons(p.pages)| + 2
    ensures cs[0] == PrevControl(p) && cs[|cs| - 1] == NextControl(p)
    ensures forall i :: 1 <= i < |cs| - 1 ==> cs[i] == NumberControl(i)
  {
    var buttons := PageButtons(p.pages);
    [PrevControl(p)] + seq(|buttons|, i requires 0 <= i < |buttons| => NumberControl(buttons[i])) + [NextControl(p)]
  }

  /** With pagination as the server promises it, every clickable control leads to an existing
      page. The code itself does no range check; it relies on the server's flags. */
  lemma EnabledControlsStayInRange(p: Pagination)
    requires WellFormed(p)
    ensures forall c :: c in Controls(p) && c.enabled ==> 1 <= c.target <= p.pages
  {
  }

  /** A click on a control: a disabled button does nothing, an enabled one loads its page. */
  function Click(s: FeedState, c: Control, outcome: Response<PageData>): (st: Step)
    ensures !c.enabled ==> st == Halt(s, None)
    ensures c.enabled ==> st == Load(s, c.target, outcome)
    ensures c.enabled ==> st.request == Some(FetchPage(c.target, PageSize)) && !st.state.loading
  {
    if c.enabled then Load(s, c.target, outcome) else Halt(s, None)
  }

  /** Following a clickable control and having the load succeed with a page of the promised shape
      lands on that page. */
  lemma ClickLandsOnTarget(s: FeedState, c: Control, data: PageData)
    requires c.enabled
    requires data.pagination.Some? && data.pagination.value.page == c.target
    ensures Click(s, c, Success(data)).state.pagination.page == c.target
    ensures Click(s, c, Success(data)).state.error == None
  {
  }
}
