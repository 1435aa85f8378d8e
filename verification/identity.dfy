/** The lazily set pseudo-identity that likes and comments are attributed to. */
module Identity {
  import opened Wrappers

  /** What the prompt accepts: a non-empty string containing `@`. */
  predicate ValidEmail(e: string) {
    e != "" && '@' in e
  }

  /** Result of the identity check that opens a like or a comment action. */
  datatype Gate =
    | Proceed(email: string, prompted: bool)   // carry on with `email`; `prompted` when it was just typed in
    | Abort                                    // the typed value was refused: the action stops here

  /** The prompt is shown only while no identity is known. */
  predicate PromptShown(current: string) {
    current == ""
  }

  /** The identity check. `answer` is what the prompt returns (`None` when it is dismissed); it is
      read only when the prompt is shown. */
  function CheckIdentity(current: string, answer: Option<string>): (g: Gate)
    ensures !PromptShown(current) ==> g == Proceed(current, false)
    ensures PromptShown(current) ==> (g.Proceed? <==> answer.Some? && ValidEmail(answer.value))
    ensures PromptShown(current) && g.Proceed? ==> g.email == answer.value && g.prompted
    ensures g.Proceed? ==> g.email != ""
  {
    if current != "" then Proceed(current, false)
    else if answer.Some? && answer.value != "" && '@' in answer.value then Proceed(answer.value, true)
    else Abort
  }

  /** Once the check has let an action through, the identity it settled on is final: every later
      check keeps it, whatever is typed, and shows no prompt. */
  lemma CheckSettles(current: string, answer: Option<string>, later: Option<string>)
    requires CheckIdentity(current, answer).Proceed?
    ensures var e := CheckIdentity(current, answer).email;
      !PromptShown(e) && CheckIdentity(e, later) == Proceed(e, false)
  {
  }
}
