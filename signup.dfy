/**
 * The sign-up page: the ordered password checks of the submit handler and
 * the live indicator under the confirm-password input.
 */
module Signup {
  import opened Wrappers

  const Mismatch := "Passwords do not match."
  const TooShort := "Password must be at least 6 characters."
  const CheckEmail := "\U{2705} Check your email to confirm your account!"
  const MinLength := 6

  /**
   * The length of `s` as a JavaScript string reports it: characters outside
   * the Basic Multilingual Plane take two UTF-16 code units.
   */
  function Utf16Length(s: string): (n: nat)
    ensures |s| <= n <= 2 * |s|
  {
    if s == [] then 0
    else (if s[0] as int >= 0x10000 then 2 else 1) + Utf16Length(s[1..])
  }

  /** Within the Basic Multilingual Plane the two lengths agree. */
  lemma {:induction false} Utf16LengthBmp(s: string)
    requires forall i :: 0 <= i < |s| ==> s[i] as int < 0x10000
    ensures Utf16Length(s) == |s|
  {
    if s != [] {
      assert forall i :: 0 <= i < |s[1..]| ==> s[1..][i] == s[i + 1];
      Utf16LengthBmp(s[1..]);
    }
  }

  /**
   * The handler's checks, in order: a mismatch is reported before the length
   * is looked at.
   */
  function PasswordProblem(password: string, confirm: string): (p: Option<string>)
    ensures password != confirm ==> p == Some(Mismatch)
    ensures password == confirm && Utf16Length(password) < MinLength ==> p == Some(TooShort)
    ensures p.None? <==> password == confirm && Utf16Length(password) >= MinLength
  {
    if password != confirm then Some(Mismatch)
    else if Utf16Length(password) < MinLength then Some(TooShort)
    else None
  }

  /** Five astral characters make a long enough password though there are only five of them. */
  lemma AstralPasswordAccepted()
    ensures PasswordProblem("\U{1F600}\U{1F600}\U{1F600}\U{1F600}\U{1F600}", "\U{1F600}\U{1F600}\U{1F600}\U{1F600}\U{1F600}").None?
  {
    var s := "\U{1F600}\U{1F600}\U{1F600}\U{1F600}\U{1F600}";
    assert s[1..][1..][1..][1..][1..] == [];
  }

  // ---------------------------------------------------------------------------
  // The confirm-password indicator

  datatype Indicator = NoIndicator | ShowsMismatch | ShowsMatch

  /** Nothing while the confirm field is empty, otherwise whether the two fields agree. */
  function MatchIndicator(password: string, confirm: string): (r: Indicator)
    ensures confirm == "" <==> r == NoIndicator
    ensures r == ShowsMismatch <==> confirm != "" && password != confirm
    ensures r == ShowsMatch <==> confirm != "" && password == confirm
  {
    if confirm != "" && password != confirm then ShowsMismatch
    else if confirm != "" && password == confirm then ShowsMatch
    else NoIndicator
  }

  function IndicatorText(r: Indicator): string
  {
    match r
    case NoIndicator => ""
    case ShowsMismatch => "Passwords do not match"
    case ShowsMatch => "\U{2713} Passwords match"
  }

  /** The confirm input's border: red while the fields disagree. */
  function ConfirmBorder(password: string, confirm: string): (c: string)
  {
    if confirm != "" && password != confirm then "rgba(224,19,46,0.5)" else "rgba(0,197,102,0.15)"
  }

  /** The line under the confirm field: nothing, the mismatch warning or the match note. */
  lemma IndicatorShowsText(password: string, confirm: string)
    ensures var txt := IndicatorText(MatchIndicator(password, confirm));
      && (txt == "" <==> confirm == "")
      && (txt == "Passwords do not match" <==> confirm != "" && password != confirm)
      && (txt == "\U{2713} Passwords match" <==> confirm != "" && password == confirm)
  {
  }

  /** The border turns red exactly when the mismatch line shows. */
  lemma BorderAgreesWithIndicator(password: string, confirm: string)
    ensures ConfirmBorder(password, confirm) == "rgba(224,19,46,0.5)" <==> MatchIndicator(password, confirm) == ShowsMismatch
  {
  }

  /** A shown match means the submit handler's first check passes. */
  lemma MatchShownPassesFirstCheck(password: string, confirm: string)
    requires MatchIndicator(password, confirm) == ShowsMatch
    ensures PasswordProblem(password, confirm) != Some(Mismatch)
  {
  }

  // ---------------------------------------------------------------------------
  // The submit handler

  /** What the page hands to the auth service; the phone travels as user metadata. */
  datatype SignUpRequest = SignUpRequest(email: string, password: string, phone: string)

  class SignupPage {
    var email: string
    var password: string
    var confirmPassword: string
    var phone: string
    var loading: bool
    var message: string
    var error: string
    /** The sign-up calls the page has made, oldest first. */
    var requests: seq<SignUpRequest>

    constructor()
      ensures email == "" && password == "" && confirmPassword == "" && phone == ""
      ensures !loading && message == "" && error == "" && requests == []
    {
      email := "";
      password := "";
      confirmPassword := "";
      phone := "";
      loading := false;
      message := "";
      error := "";
      requests := [];
    }

    /** `handleSignup`. `authError` is the auth service's answer to the sign-up call. */
    method HandleSignup(authError: Option<string>)
      modifies this
      ensures email == old(email) && password == old(password)
      ensures confirmPassword == old(confirmPassword) && phone == old(phone)
      ensures PasswordProblem(old(password), old(confirmPassword)).Some? ==>
        && error == PasswordProblem(old(password), old(confirmPassword)).value
        && requests == old(requests) && loading == old(loading) && message == old(message)
      ensures PasswordProblem(old(password), old(confirmPassword)).None? ==>
        && requests == old(requests) + [SignUpRequest(old(email), old(password), old(phone))]
        && !loading
        && (authError.Some? ==> error == authError.value && message == old(message))
        && (authError.None? ==> error == "" && message == CheckEmail)
    {
      error := "";
      var problem := PasswordProblem(password, confirmPassword);
      if problem.Some? {
        error := problem.value;
        return;
      }
      loading := true;
      requests := requests + [SignUpRequest(email, password, phone)];
      if authError.Some? {
        error := authError.value;
      } else {
        message := CheckEmail;
      }
      loading := false;
    }
  }
}
