/** The login page's form. A submit clears both notices, calls the sign-in
    or sign-up service depending on the mode, and afterwards is never left
    loading. A successful sign-up shows a confirmation notice and clears the
    credentials; a failure shows an error, translating the three service
    messages users commonly meet. Switching mode clears both notices and
    keeps what was typed. The auth service's outcome is an input. */
module Login {
  import opened Wrappers

  const InvalidCredentials := "Invalid login credentials"
  const EmailNotConfirmed := "Email not confirmed"
  const AlreadyRegistered := "User already registered"

  const InvalidCredentialsText := "Email ou senha inválidos"
  const EmailNotConfirmedText := "Por favor, confirme seu email antes de fazer login"
  const AlreadyRegisteredText := "Este email já está cadastrado"
  const UnexpectedText := "Ocorreu um erro inesperado"
  const SignUpSuccessText := "Cadastro realizado com sucesso! Por favor, verifique seu email para confirmar sua conta."

  /** The form's state. `isLogin` selects sign-in (true) or sign-up. */
  datatype LoginState = LoginState(
    email: string,
    password: string,
    isLogin: bool,
    loading: bool,
    error: string,
    successMessage: string)

  /** What the awaited `signIn` or `signUp` call did. */
  datatype AuthOutcome = AuthOk | AuthFailed(thrown: Thrown)

  /** The error shown for a caught value: the three known service messages
      in Portuguese, any other `Error` message as it is, and a fixed text
      for values that are not `Error`s. */
  function TranslateError(t: Thrown): (m: string)
    ensures t == ErrorValue(InvalidCredentials) ==> m == InvalidCredentialsText
    ensures t == ErrorValue(EmailNotConfirmed) ==> m == EmailNotConfirmedText
    ensures t == ErrorValue(AlreadyRegistered) ==> m == AlreadyRegisteredText
    ensures t.ErrorValue? && t.message !in {InvalidCredentials, EmailNotConfirmed, AlreadyRegistered} ==> m == t.message
    ensures t.OtherValue? ==> m == UnexpectedText
  {
    match t
    case OtherValue => UnexpectedText
    case ErrorValue(msg) =>
      if msg == InvalidCredentials then InvalidCredentialsText
      else if msg == EmailNotConfirmed then EmailNotConfirmedText
      else if msg == AlreadyRegistered then AlreadyRegisteredText
      else msg
  }

  /** `handleSubmit`, given what the service call did. */
  function Submit(s: LoginState, outcome: AuthOutcome): (t: LoginState)
    ensures !t.loading && t.isLogin == s.isLogin
    ensures t.error == [] || t.successMessage == []
    ensures outcome.AuthOk? && !s.isLogin ==>
      t.successMessage == SignUpSuccessText && t.email == [] && t.password == [] && t.error == []
    ensures outcome.AuthOk? && s.isLogin ==>
      t.successMessage == [] && t.error == [] && t.email == s.email && t.password == s.password
    ensures outcome.AuthFailed? ==>
      t.error == TranslateError(outcome.thrown) && t.successMessage == []
      && t.email == s.email && t.password == s.password
  {
    var started := s.(loading := true, error := [], successMessage := []);
    var settled :=
      match outcome
      case AuthOk =>
        if started.isLogin then started
        else started.(successMessage := SignUpSuccessText, email := [], password := [])
      case AuthFailed(thrown) => started.(error := TranslateError(thrown));
    settled.(loading := false)
  }

  /** The mode switch below the form. */
  function ToggleMode(s: LoginState): (t: LoginState)
    ensures t.isLogin == !s.isLogin
    ensures t.error == [] && t.successMessage == []
    ensures t.email == s.email && t.password == s.password && t.loading == s.loading
  {
    s.(isLogin := !s.isLogin, error := [], successMessage := [])
  }

  /** A submit's result does not depend on the notices shown before it:
      both are cleared before the service is called. */
  lemma SubmitForgetsNotices(s: LoginState, outcome: AuthOutcome, error: string, success: string)
    ensures Submit(s.(error := error, successMessage := success), outcome) == Submit(s, outcome)
  {
  }

  /** Switching mode twice returns to the original mode with the notices
      cleared and nothing else changed. */
  lemma ToggleTwice(s: LoginState)
    ensures ToggleMode(ToggleMode(s)) == s.(error := [], successMessage := [])
  {
  }
}
