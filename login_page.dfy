/**
 * The login form: the email pattern `^[^\s@]+@[^\s@]+\.[^\s@]+$`, the error chosen on each
 * edit, and the order of the checks before the login request is sent. The form data and the
 * error record are string-keyed records that every handler rebuilds by spreading.
 */
module LoginPage {
  import opened Wrappers
  import opened Text

  const EmailRequired: string := "Email is required"
  const EmailInvalid: string := "Email is invalid"

  /** A character `[^\s@]` admits. */
  predicate PartChar(c: char) {
    !IsSpace(c) && c != '@'
  }

  /** `[^\s@]+`. */
  predicate Part(s: string) {
    |s| >= 1 && forall k :: 0 <= k < |s| ==> PartChar(s[k])
  }

  /**
   * The pattern read as a regular expression: the whole string splits at an '@' and a later
   * '.' into three non-empty runs without whitespace or '@'.
   */
  ghost predicate MatchesEmailPattern(s: string) {
    exists i, j :: 0 < i < j < |s| - 1 && s[i] == '@' && s[j] == '.'
      && Part(s[..i]) && Part(s[i + 1..j]) && Part(s[j + 1..])
  }

  predicate NoSpace(s: string) {
    forall k :: 0 <= k < |s| ==> !IsSpace(s[k])
  }

  /**
   * `validateEmail`, as a scan: no whitespace, a first '@' with something before it, no
   * further '@', and a '.' after the '@' that is neither the first nor the last character of
   * the domain.
   */
  predicate ValidateEmail(s: string) {
    var i := IndexOf(s, '@');
    && NoSpace(s) && i > 0
    && (forall k :: i < k < |s| ==> s[k] != '@')
    && (exists k :: i + 1 < k < |s| - 1 && s[k] == '.')
  }

  lemma PartOfSlice(s: string, a: nat, b: nat)
    requires a < b <= |s| && NoSpace(s)
    requires forall k :: a <= k < b ==> s[k] != '@'
    ensures Part(s[a..b])
  {
    forall k | 0 <= k < b - a
      ensures PartChar(s[a..b][k])
    {
      assert s[a..b][k] == s[a + k];
    }
  }

  lemma ValidEmailMatches(s: string)
    requires ValidateEmail(s)
    ensures MatchesEmailPattern(s)
  {
    var i := IndexOf(s, '@');
    var j :| i + 1 < j < |s| - 1 && s[j] == '.';
    PartOfSlice(s, 0, i);
    PartOfSlice(s, i + 1, j);
    PartOfSlice(s, j + 1, |s|);
    assert s[0..i] == s[..i];
    assert s[j + 1..|s|] == s[j + 1..];
  }

  /** Every character of a match lies in one of the three runs or is the '@' or the '.'. */
  lemma MatchHasNoSpace(s: string, i: nat, j: nat)
    requires 0 < i < j < |s| - 1 && s[i] == '@' && s[j] == '.'
    requires Part(s[..i]) && Part(s[i + 1..j]) && Part(s[j + 1..])
    ensures NoSpace(s) && '@' !in s[..i]
    ensures forall k :: i < k < |s| ==> s[k] != '@'
  {
    forall k | 0 <= k < |s|
      ensures !IsSpace(s[k]) && (k != i ==> s[k] != '@')
    {
      if k < i {
        assert s[k] == s[..i][k];
      } else if i < k < j {
        assert s[k] == s[i + 1..j][k - i - 1];
      } else if j < k {
        assert s[k] == s[j + 1..][k - j - 1];
      }
    }
  }

  lemma MatchIsValid(s: string, i: nat, j: nat)
    requires 0 < i < j < |s| - 1 && s[i] == '@' && s[j] == '.'
    requires Part(s[..i]) && Part(s[i + 1..j]) && Part(s[j + 1..])
    ensures ValidateEmail(s)
  {
    MatchHasNoSpace(s, i, j);
    IndexOfIsFirst(s, '@', i);
  }

  /** The scan accepts exactly the strings the regular expression matches. */
  lemma ValidateEmailMatchesPattern(s: string)
    ensures ValidateEmail(s) <==> MatchesEmailPattern(s)
  {
    if ValidateEmail(s) {
      ValidEmailMatches(s);
    }
    if MatchesEmailPattern(s) {
      var i, j :| 0 < i < j < |s| - 1 && s[i] == '@' && s[j] == '.'
        && Part(s[..i]) && Part(s[i + 1..j]) && Part(s[j + 1..]);
      MatchIsValid(s, i, j);
    }
  }

  lemma AcceptedExample()
    ensures ValidateEmail("a@b.co")
  {
    assert IndexOf("a@b.co", '@') == 1;
    assert "a@b.co"[3] == '.';
  }

  lemma DomainEndingInDotExample()
    ensures !ValidateEmail("a@b.")
  {
    assert IndexOf("a@b.", '@') == 1;
  }

  lemma SecondAtExample()
    ensures !ValidateEmail("a@b@c.d")
  {
    assert IndexOf("a@b@c.d", '@') == 1;
    assert "a@b@c.d"[3] == '@';
  }

  /** A `Record<string, string>`. */
  type Record = map<string, string>

  /** `record[key]` read where an absent key is falsy like the empty string. */
  function Field(r: Record, key: string): string {
    if key in r then r[key] else ""
  }

  /** The error `handleChange` shows for an email value; the empty value is checked first. */
  function EmailError(value: string): (e: string)
    ensures e == "" <==> ValidateEmail(value)
    ensures value == "" ==> e == EmailRequired
    ensures value != "" && !ValidateEmail(value) ==> e == EmailInvalid
  {
    if value == "" then EmailRequired
    else if !ValidateEmail(value) then EmailInvalid
    else ""
  }

  datatype Form = Form(data: Record, errors: Record)

  function InitialForm(): Form {
    Form(map["email" := ""], map["email" := ""])
  }

  /** `handleChange`: the named field takes the value; only an email edit recomputes its error. */
  function HandleChange(f: Form, name: string, value: string): (r: Form)
    ensures r.data == f.data[name := value]
    ensures name == "email" ==> r.errors == f.errors["email" := EmailError(value)]
    ensures name != "email" ==> r.errors == f.errors
  {
    var data := f.data[name := value];
    var errors := if name == "email" then f.errors["email" := EmailError(value)] else f.errors;
    Form(data, errors)
  }

  /** The record after a submit, and the email the login request carries when one is sent. */
  datatype SubmitOutcome = SubmitOutcome(form: Form, request: Option<string>)

  /**
   * `handleSubmit`'s guards in order: an empty email is "required", an invalid one is
   * "invalid", and a standing email error blocks the request.
   */
  function HandleSubmit(f: Form): (r: SubmitOutcome)
    ensures r.form.data == f.data
    ensures r.request.Some? <==> ValidateEmail(Field(f.data, "email")) && Field(f.errors, "email") == ""
    ensures r.request.Some? ==> r.request.value == Field(f.data, "email") && r.form == f
    ensures Field(f.data, "email") == "" ==> r.form.errors == f.errors["email" := EmailRequired]
    ensures Field(f.data, "email") != "" && !ValidateEmail(Field(f.data, "email"))
            ==> r.form.errors == f.errors["email" := EmailInvalid]
    ensures ValidateEmail(Field(f.data, "email")) ==> r.form == f
  {
    var email := Field(f.data, "email");
    if email == "" then
      SubmitOutcome(Form(f.data, f.errors["email" := EmailRequired]), None)
    else if !ValidateEmail(email) then
      SubmitOutcome(Form(f.data, f.errors["email" := EmailInvalid]), None)
    else if Field(f.errors, "email") != "" then
      SubmitOutcome(f, None)
    else
      SubmitOutcome(f, Some(email))
  }

  /** The email error shown is either none or the one the current value deserves. */
  predicate ErrorAgrees(f: Form) {
    var e := Field(f.errors, "email");
    e == "" || e == EmailError(Field(f.data, "email"))
  }

  lemma InitialFormAgrees()
    ensures ErrorAgrees(InitialForm())
  {
  }

  lemma HandleChangeKeepsAgreement(f: Form, name: string, value: string)
    requires ErrorAgrees(f)
    ensures ErrorAgrees(HandleChange(f, name, value))
  {
  }

  lemma HandleSubmitKeepsAgreement(f: Form)
    requires ErrorAgrees(f)
    ensures ErrorAgrees(HandleSubmit(f).form)
  {
  }

  /**
   * Whenever the record agrees, as it does from the initial form through any sequence of
   * edits and submits, the standing-error guard never decides: a request is sent exactly
   * for a valid email.
   */
  lemma StandingErrorGuardIsRedundant(f: Form)
    requires ErrorAgrees(f)
    ensures HandleSubmit(f).request.Some? <==> ValidateEmail(Field(f.data, "email"))
  {
  }
}
