/**
 * The password-reset form (app/auth/reset-password/page.tsx): the link check
 * when the page loads and the submit handler, which validates the two
 * passwords, calls the update action and records its outcome in four pieces
 * of state. The action itself runs elsewhere; what it did is a parameter.
 */
module ResetPassword {
  import opened Options

  const InvalidLinkError := "Link de redefinição inválido ou expirado."
  const MismatchError := "As senhas não coincidem"
  const TooShortError := "A senha deve ter pelo menos 6 caracteres"
  const UnexpectedError := "Ocorreu um erro inesperado. Tente novamente."
  const DefaultSuccessMessage := "Senha redefinida com sucesso!"
  const MinPasswordLength := 6

  /** What `updatePasswordAction` returns. */
  datatype ActionResult = ActionResult(error: Option<string>, success: bool, message: Option<string>)

  /** The action threw, or it returned a result (possibly `undefined`). */
  datatype ActionOutcome = Threw | Returned(result: Option<ActionResult>)

  /** Lines 49-59: the first failing check's message, or none. */
  function Validate(password: string, confirmPassword: string): Option<string>
  {
    if password != confirmPassword then Some(MismatchError)
    else if |password| < MinPasswordLength then Some(TooShortError)
    else None
  }

  /** What one submission leaves behind: the error shown, and whether and with which message it succeeded. */
  datatype Effect = Effect(error: string, succeeded: bool, message: string)

  /** `s || fallback` for an optional string. */
  function OrElse(s: Option<string>, fallback: string): (r: string)
    ensures r != "" || fallback == ""
  {
    if s.Some? && s.value != "" then s.value else fallback
  }

  /** The effect of `handleSubmit` (lines 41-75). */
  function SubmitEffect(password: string, confirmPassword: string, outcome: ActionOutcome): Effect
  {
    match Validate(password, confirmPassword)
    case Some(e) => Effect(e, false, "")
    case None =>
      match outcome
      case Threw => Effect(UnexpectedError, false, "")
      case Returned(None) => Effect("", false, "")
      case Returned(Some(r)) =>
        if r.error.Some? && r.error.value != "" then Effect(r.error.value, false, "")
        else if r.success then Effect("", true, OrElse(r.message, DefaultSuccessMessage))
        else Effect("", false, "")
  }

  /**
   * The checks run in order, the mismatch first; six characters is enough. A
   * submission succeeds only when both checks pass and the action reports
   * success without an error, and then it shows no error and a non-empty message.
   */
  lemma SubmitEffectSpec(password: string, confirmPassword: string, outcome: ActionOutcome)
    ensures password != confirmPassword ==> SubmitEffect(password, confirmPassword, outcome) == Effect(MismatchError, false, "")
    ensures password == confirmPassword && |password| < 6 ==> SubmitEffect(password, confirmPassword, outcome) == Effect(TooShortError, false, "")
    ensures password == confirmPassword && |password| == 6 ==> Validate(password, confirmPassword).None?
    ensures var e := SubmitEffect(password, confirmPassword, outcome);
      e.succeeded <==> Validate(password, confirmPassword).None? && outcome.Returned? && outcome.result.Some?
                       && !(outcome.result.value.error.Some? && outcome.result.value.error.value != "") && outcome.result.value.success
    ensures var e := SubmitEffect(password, confirmPassword, outcome);
      e.succeeded ==> e.error == "" && e.message != ""
  {
  }

  class ResetPasswordForm {
    var loading: bool
    var error: string
    var success: bool
    var successMessage: string

    /** The initial state (lines 25-28). */
    constructor ()
      ensures !loading && error == "" && !success && successMessage == ""
    {
      loading, error, success, successMessage := false, "", false, "";
    }

    /** Lines 31-39: a link without both tokens (absent or empty) shows the invalid-link error. */
    method CheckTokens(accessToken: Option<string>, refreshToken: Option<string>)
      modifies this`error
      ensures error == if OrElse(accessToken, "") == "" || OrElse(refreshToken, "") == "" then InvalidLinkError else old(error)
    {
      if OrElse(accessToken, "") == "" || OrElse(refreshToken, "") == "" {
        error := InvalidLinkError;
      }
    }

    /**
     * `handleSubmit` (lines 41-75). The earlier error, the invalid-link one
     * included, is cleared and never blocks the submission; the action is called
     * exactly when both checks pass; loading is off again on every path.
     */
    method HandleSubmit(password: string, confirmPassword: string, outcome: ActionOutcome) returns (called: bool)
      modifies this
      ensures called <==> Validate(password, confirmPassword).None?
      ensures var e := SubmitEffect(password, confirmPassword, outcome);
        && !loading
        && error == e.error
        && success == (old(success) || e.succeeded)
        && successMessage == (if e.succeeded then e.message else old(successMessage))
    {
      loading := true;
      error := "";
      called := false;
      if password != confirmPassword {
        error := MismatchError;
        loading := false;
        return;
      }
      if |password| < MinPasswordLength {
        error := TooShortError;
        loading := false;
        return;
      }
      called := true;
      match outcome {
        case Threw =>
          error := UnexpectedError;
        case Returned(result) =>
          if result.Some? && result.value.error.Some? && result.value.error.value != "" {
            error := result.value.error.value;
          } else if result.Some? && result.value.success {
            success := true;
            successMessage := OrElse(result.value.message, DefaultSuccessMessage);
          }
      }
      loading := false;
    }
  }
}
