/** The change-password dialog: a security question must be answered (step `verify`)
    before a new password may be set (step `change`). The stored answer and the outcome
    of the password update are inputs. */
module PasswordDialog {
  import opened Options
  import opened Text

  datatype Question = Question(key: string, text: string)

  /** The three questions a user may be asked, in their fixed order. */
  const Questions: seq<Question> := [
    Question("security_answer_1", "What is your favourite food?"),
    Question("security_answer_2", "What was your childhood name?"),
    Question("security_answer_3", "Which is your favourite colour?")
  ]

  /** The shortest password the dialog accepts. */
  const MinPasswordLength := 6

  datatype Stage = Verify | Change

  datatype Dialog = Dialog(stage: Stage, answer: string, newPassword: string,
                           confirmPassword: string, question: nat)

  /** Toasts the dialog shows. `Silent` stands for none. */
  datatype Notice =
    | Silent | EnterAnswer | AnswerVerified | IncorrectAnswer | VerifyFailed
    | FillAllFields | TooShort | NoMatch | PasswordChanged | UpdateFailed

  /** The answer to the profile query for the selected question's column. */
  datatype Lookup = QueryError | Stored(answer: Option<string>)

  /** A dialog step: the new dialog state, the toast, and the password update issued, if any. */
  datatype Reply = Reply(dialog: Dialog, notice: Notice, update: Option<string>)

  /** `Math.floor(Math.random() * 3)` for a draw `r` in [0, 1): always a valid index. */
  function PickQuestion(r: real): (i: nat)
    requires 0.0 <= r < 1.0
    ensures i < |Questions|
    ensures i as real <= r * 3.0 < i as real + 1.0
  {
    (r * 3.0).Floor
  }

  /** The dialog when first shown. */
  function Open(r: real): (d: Dialog)
    requires 0.0 <= r < 1.0
    ensures d.stage == Verify && d.answer == [] && d.newPassword == [] && d.confirmPassword == []
    ensures d.question < |Questions|
  {
    Dialog(Verify, "", "", "", PickQuestion(r))
  }

  /** Both sides are compared after `toLowerCase().trim()`. */
  function Normalize(s: string): string {
    Trim(Lower(s))
  }

  /** `handleVerifyAnswer`. A blank answer is refused before any query; a failed query
      changes nothing; a matching answer opens the `change` step; a wrong or missing stored
      answer clears the answer box. */
  function VerifyAnswer(d: Dialog, lookup: Lookup): (r: Reply)
    ensures r.update.None? && r.dialog.question == d.question
    ensures IsBlank(d.answer) ==> r == Reply(d, EnterAnswer, None)
    ensures !IsBlank(d.answer) && lookup.QueryError? ==> r == Reply(d, VerifyFailed, None)
    ensures !IsBlank(d.answer) && lookup.Stored? ==>
              (r.notice == AnswerVerified <==> lookup.answer.Some? && Normalize(lookup.answer.value) == Normalize(d.answer))
    ensures r.notice == AnswerVerified ==> r.dialog == d.(stage := Change)
    ensures !IsBlank(d.answer) && lookup.Stored? && r.notice != AnswerVerified ==>
              r == Reply(d.(answer := []), IncorrectAnswer, None)
  {
    TrimEmptyIffBlank(d.answer);
    if Trim(d.answer) == [] then Reply(d, EnterAnswer, None)
    else match lookup
      case QueryError => Reply(d, VerifyFailed, None)
      case Stored(stored) =>
        if stored.Some? && Normalize(stored.value) == Normalize(d.answer)
        then Reply(d.(stage := Change), AnswerVerified, None)
        else Reply(d.(answer := []), IncorrectAnswer, None)
  }

  /** A blank answer is decided without looking at the stored answer at all. */
  lemma BlankAnswerNeedsNoQuery(d: Dialog, l1: Lookup, l2: Lookup)
    requires IsBlank(d.answer)
    ensures VerifyAnswer(d, l1) == VerifyAnswer(d, l2)
  {
  }

  /** The comparison ignores letter case and surrounding white space on the user's side:
      an answer and its lower-cased, trimmed form are judged alike. */
  lemma VerifyIgnoresCaseAndPadding(d: Dialog, lookup: Lookup)
    requires !IsBlank(d.answer) && lookup.Stored?
    ensures var e := d.(answer := Normalize(d.answer));
      VerifyAnswer(e, lookup).notice == VerifyAnswer(d, lookup).notice
  {
    var a := d.answer;
    var n := Normalize(a);
    assert Lower(n) == n by {
      LowerTrimCommute(Lower(a));
      LowerIdempotent(a);
    }
    assert Normalize(n) == n by {
      TrimIdempotent(Lower(a));
    }
    assert !IsBlank(n) by {
      TrimEmptyIffBlank(a);
      LowerTrimCommute(a);
      TrimIdempotent(Lower(a));
      TrimEmptyIffBlank(n);
    }
  }

  /** `handleClose`: back to `verify` with every field cleared and a fresh question. */
  function Close(d: Dialog, r: real): (c: Dialog)
    requires 0.0 <= r < 1.0
    ensures c.stage == Verify && c.answer == [] && c.newPassword == [] && c.confirmPassword == []
    ensures c.question < |Questions|
  {
    Open(r)
  }

  /** The first of the password checks that fails, in the order they are made. */
  function PasswordProblem(newPassword: string, confirmPassword: string): (n: Notice)
    ensures n in {Silent, FillAllFields, TooShort, NoMatch}
    ensures n == Silent <==> newPassword == confirmPassword && |newPassword| >= MinPasswordLength
    ensures n == FillAllFields <==> newPassword == [] || confirmPassword == []
    ensures n == TooShort <==> newPassword != [] && confirmPassword != [] && |newPassword| < MinPasswordLength
  {
    if newPassword == [] || confirmPassword == [] then FillAllFields
    else if |newPassword| < MinPasswordLength then TooShort
    else if newPassword != confirmPassword then NoMatch
    else Silent
  }

  /** `handleChangePassword`. A failed check is reported and nothing is updated; otherwise
      the new password is sent, and on success the dialog closes (`r` draws the next question). */
  function ChangePassword(d: Dialog, updateOk: bool, r: real): (rep: Reply)
    requires 0.0 <= r < 1.0
    ensures rep.update.Some? <==> d.newPassword == d.confirmPassword && |d.newPassword| >= MinPasswordLength
    ensures rep.update.Some? ==> rep.update.value == d.newPassword
    ensures rep.update.None? ==> rep.dialog == d && rep.notice == PasswordProblem(d.newPassword, d.confirmPassword)
    ensures rep.update.Some? && !updateOk ==> rep.dialog == d && rep.notice == UpdateFailed
    ensures rep.update.Some? && updateOk ==> rep.dialog == Close(d, r) && rep.notice == PasswordChanged
  {
    var problem := PasswordProblem(d.newPassword, d.confirmPassword);
    if problem != Silent then Reply(d, problem, None)
    else if updateOk then Reply(Close(d, r), PasswordChanged, Some(d.newPassword))
    else Reply(d, UpdateFailed, Some(d.newPassword))
  }

  /** Whatever happens in the dialog, the selected question stays one of the three. */
  lemma QuestionAlwaysValid(d: Dialog, lookup: Lookup, updateOk: bool, r: real)
    requires d.question < |Questions| && 0.0 <= r < 1.0
    ensures VerifyAnswer(d, lookup).dialog.question < |Questions|
    ensures ChangePassword(d, updateOk, r).dialog.question < |Questions|
  {
  }
}
