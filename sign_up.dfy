/** The sign-up screen: three text fields, an ordered first-failure-wins
    validation of them, and a record of the messages shown under each
    field. A message, once shown, stays: a later failure sets only its own
    message, and a later success clears none. */
module SignUp {
  import opened JsText

  /** The three text fields of the form. */
  datatype SignUpField = Email | Password | ConfirmPassword

  datatype SignUpForm = SignUpForm(email: string, password: string, confirmPassword: string)

  /** The message record; `None` is a message that was never set. */
  datatype ValidateMsg = ValidateMsg(emailMsg: Option<string>, passwordMsg: Option<string>,
                                     confirmPasswordMsg: Option<string>)

  /** What is handed to the account service: the email and the password as
      typed, untrimmed. */
  datatype SignUpInfo = SignUpInfo(email: string, password: string)

  /** The outcome of the validation: the field that failed first, or the
      information to sign up with. */
  datatype Check = Invalid(field: SignUpField) | Passed(info: SignUpInfo)

  const MinEmailLength: int := 5
  const MinPasswordLength: int := 8

  const EmailMsg: string := "올바른 이메일 형식이 아닙니다"
  const PasswordMsg: string := "비밀번호는 8자 이상이여야 합니다."
  const ConfirmPasswordMsg: string := "비밀번호가 일치하지 않습니다."

  function FailureMessage(field: SignUpField): string {
    match field
    case Email => EmailMsg
    case Password => PasswordMsg
    case ConfirmPassword => ConfirmPasswordMsg
  }

  /** The form as the screen opens: every field empty. */
  function InitialSignUpForm(): (f: SignUpForm)
    ensures forall name :: GetField(f, name) == ""
  {
    SignUpForm("", "", "")
  }

  /** No message has been shown yet. */
  function NoMessages(): (m: ValidateMsg)
    ensures forall field :: MessageOf(m, field) == None
  {
    ValidateMsg(None, None, None)
  }

  function GetField(form: SignUpForm, name: SignUpField): string {
    match name
    case Email => form.email
    case Password => form.password
    case ConfirmPassword => form.confirmPassword
  }

  /** `handleChangeText`: the named field takes the new text and the other
      two keep theirs. */
  function SetField(form: SignUpForm, name: SignUpField, value: string): (r: SignUpForm)
    ensures GetField(r, name) == value
    ensures forall other :: other != name ==> GetField(r, other) == GetField(form, other)
  {
    match name
    case Email => form.(email := value)
    case Password => form.(password := value)
    case ConfirmPassword => form.(confirmPassword := value)
  }

  function MessageOf(m: ValidateMsg, field: SignUpField): Option<string> {
    match field
    case Email => m.emailMsg
    case Password => m.passwordMsg
    case ConfirmPassword => m.confirmPasswordMsg
  }

  /** The validation of `handleSubmit`, in its order: the trimmed email must
      be at least 5 UTF-16 units long, then the trimmed password at least 8,
      then the password must equal its confirmation exactly. */
  function CheckSignUp(form: SignUpForm): (r: Check)
    ensures r == Invalid(Email) <==> Utf16Length(Trim(form.email)) < MinEmailLength
    ensures r == Invalid(Password) <==>
      Utf16Length(Trim(form.email)) >= MinEmailLength &&
      Utf16Length(Trim(form.password)) < MinPasswordLength
    ensures r == Invalid(ConfirmPassword) <==>
      Utf16Length(Trim(form.email)) >= MinEmailLength &&
      Utf16Length(Trim(form.password)) >= MinPasswordLength &&
      form.password != form.confirmPassword
    ensures r.Passed? <==>
      Utf16Length(Trim(form.email)) >= MinEmailLength &&
      Utf16Length(Trim(form.password)) >= MinPasswordLength &&
      form.password == form.confirmPassword
    ensures r.Passed? ==> r.info == SignUpInfo(form.email, form.password)
  {
    if Utf16Length(Trim(form.email)) < MinEmailLength then Invalid(Email)
    else if Utf16Length(Trim(form.password)) < MinPasswordLength then Invalid(Password)
    else if form.password != form.confirmPassword then Invalid(ConfirmPassword)
    else Passed(SignUpInfo(form.email, form.password))
  }

  /** A failure sets its own field's message and leaves the other two as
      they were. */
  function RecordFailure(m: ValidateMsg, field: SignUpField): (r: ValidateMsg)
    ensures MessageOf(r, field) == Some(FailureMessage(field))
    ensures forall other :: other != field ==> MessageOf(r, other) == MessageOf(m, other)
  {
    match field
    case Email => m.(emailMsg := Some(EmailMsg))
    case Password => m.(passwordMsg := Some(PasswordMsg))
    case ConfirmPassword => m.(confirmPasswordMsg := Some(ConfirmPasswordMsg))
  }

  /** The message record after one submit of `form`. */
  function AfterSubmit(m: ValidateMsg, form: SignUpForm): (r: ValidateMsg)
    ensures CheckSignUp(form).Invalid? ==>
      MessageOf(r, CheckSignUp(form).field) == Some(FailureMessage(CheckSignUp(form).field))
    ensures forall field :: MessageOf(r, field) != MessageOf(m, field) ==>
      CheckSignUp(form) == Invalid(field)
    ensures forall field :: MessageOf(m, field).Some? ==> MessageOf(r, field).Some?
  {
    match CheckSignUp(form)
    case Invalid(field) => RecordFailure(m, field)
    case Passed(_) => m
  }

  /** The message record after submitting each form of `forms` in turn. */
  function AfterSubmits(m: ValidateMsg, forms: seq<SignUpForm>): ValidateMsg
    decreases |forms|
  {
    if forms == [] then m else AfterSubmits(AfterSubmit(m, forms[0]), forms[1..])
  }

  /** Every message is unset or the one fixed text of its field. */
  predicate MessagesWellFormed(m: ValidateMsg) {
    forall field :: MessageOf(m, field) == None || MessageOf(m, field) == Some(FailureMessage(field))
  }

  // ----- Properties -----

  /** A short trimmed email is reported whatever the passwords hold. */
  lemma EmailFailureWins(form: SignUpForm)
    requires Utf16Length(Trim(form.email)) < MinEmailLength
    ensures forall p, c :: CheckSignUp(form.(password := p, confirmPassword := c)) == Invalid(Email)
  {
  }

  /** The email check is one of length only: any five letters pass it, with
      or without an `@`. */
  lemma EmailLengthOnly(email: string)
    requires |email| == 5 && forall i :: 0 <= i < 5 ==> 'a' <= email[i] <= 'z'
    ensures Utf16Length(Trim(email)) >= MinEmailLength
  {
    assert Trim(email) == email by {
      TrimStartKeeps(email);
      assert TrimEnd(email) == email by { assert !IsJsWhitespace(email[4]); }
    }
  }

  /** Blanks around the email do not count towards its length: padding it
      with a blank on each side changes nothing about which check fails,
      although the padded email is what a sign-up would then use. */
  lemma BlanksDoNotCount(form: SignUpForm)
    ensures var padded := form.(email := " " + form.email + " ");
      var r := CheckSignUp(padded);
      r.Invalid? == CheckSignUp(form).Invalid? &&
      (r.Invalid? ==> r.field == CheckSignUp(form).field) &&
      (r.Passed? ==> r.info == SignUpInfo(" " + form.email + " ", form.password))
  {
    TrimOfLeadingBlank(form.email + " ");
    assert " " + form.email + " " == " " + (form.email + " ");
    TrimOfTrailingBlank(form.email);
  }

  /** A leading blank is cut by `trim`. */
  lemma TrimOfLeadingBlank(s: string)
    ensures Trim(" " + s) == Trim(s)
  {
    assert (" " + s)[1..] == s;
  }

  /** The confirmation is compared untrimmed: a password with a trailing
      blank passes the length check but not the comparison with the same
      password without the blank. */
  lemma UntrimmedComparison(email: string, password: string)
    requires Utf16Length(Trim(email)) >= MinEmailLength
    requires Utf16Length(Trim(password)) >= MinPasswordLength
    ensures CheckSignUp(SignUpForm(email, password + " ", password)) == Invalid(ConfirmPassword)
  {
    assert Trim(password + " ") == Trim(password) by { TrimOfTrailingBlank(password); }
    assert password + " " != password by { assert |password + " "| != |password|; }
  }

  /** A trailing blank is cut by `trim`. */
  lemma TrimOfTrailingBlank(s: string)
    ensures Trim(s + " ") == Trim(s)
  {
    var t := TrimStart(s);
    if TrimStart(s + " ") == t + " " {
      assert (t + " ")[..|t + " "| - 1] == t;
    } else {
      TrimStartAllBlank(s);
    }
  }

  /** `TrimStart` distributes over appending a blank: either the blank
      follows what is kept, or nothing but blanks was there to begin with. */
  lemma {:induction false} TrimStartAllBlank(s: string)
    ensures TrimStart(s + " ") == TrimStart(s) + " " || (TrimStart(s + " ") == [] && TrimStart(s) == [])
  {
    if s == [] {
      assert TrimStart([' ']) == TrimStart([]);
    } else if IsJsWhitespace(s[0]) {
      assert (s + " ")[1..] == s[1..] + " ";
      TrimStartAllBlank(s[1..]);
    } else {
      assert (s + " ")[0] == s[0];
    }
  }

  /** A submit never clears a message: what was shown stays shown. */
  lemma {:induction false} MessagesPersist(m: ValidateMsg, forms: seq<SignUpForm>, field: SignUpField)
    requires MessageOf(m, field).Some?
    ensures MessageOf(AfterSubmits(m, forms), field).Some?
    decreases |forms|
  {
    if forms != [] {
      MessagesPersist(AfterSubmit(m, forms[0]), forms[1..], field);
    }
  }

  /** Whatever is submitted, each message stays unset or its field's text. */
  lemma {:induction false} SubmitsKeepMessagesWellFormed(m: ValidateMsg, forms: seq<SignUpForm>)
    requires MessagesWellFormed(m)
    ensures MessagesWellFormed(AfterSubmits(m, forms))
    decreases |forms|
  {
    if forms != [] {
      var m1 := AfterSubmit(m, forms[0]);
      assert MessagesWellFormed(m1);
      SubmitsKeepMessagesWellFormed(m1, forms[1..]);
    }
  }

  /** Starting from no messages, a field's message is shown after a run of
      submits exactly when one of those submits failed at that field. */
  lemma {:induction false} MessageShownIff(m: ValidateMsg, forms: seq<SignUpForm>, field: SignUpField)
    requires MessageOf(m, field) == None
    ensures MessageOf(AfterSubmits(m, forms), field).Some? <==>
      exists i :: 0 <= i < |forms| && CheckSignUp(forms[i]) == Invalid(field)
    decreases |forms|
  {
    if forms != [] {
      var m1 := AfterSubmit(m, forms[0]);
      if CheckSignUp(forms[0]) == Invalid(field) {
        MessagesPersist(m1, forms[1..], field);
      } else {
        assert MessageOf(m1, field) == None;
        MessageShownIff(m1, forms[1..], field);
        assert forall i :: 1 <= i < |forms| ==> forms[i] == forms[1..][i - 1];
      }
    }
  }

  /** The screen: the form, the message record, the fields it moved the
      focus to, and the sign-up attempts it made. */
  class SignUpScreen {
    var form: SignUpForm
    var validateMsg: ValidateMsg
    var focused: seq<SignUpField>
    var signUpAttempts: seq<SignUpInfo>

    predicate Valid()
      reads this
    {
      MessagesWellFormed(validateMsg)
    }

    constructor ()
      ensures Valid()
      ensures form == InitialSignUpForm() && validateMsg == NoMessages()
      ensures focused == [] && signUpAttempts == []
    {
      form := InitialSignUpForm();
      validateMsg := NoMessages();
      focused := [];
      signUpAttempts := [];
    }

    /** `handleChangeText`. */
    method HandleChangeText(name: SignUpField, value: string)
      requires Valid()
      modifies this`form
      ensures Valid()
      ensures form == SetField(old(form), name, value)
    {
      form := SetField(form, name, value);
    }

    /** `handleSubmit`: on the first failed check the message of that field
        is set and the focus moves to it; when every check passes, one
        sign-up is attempted with the untrimmed email and password. */
    method HandleSubmit()
      requires Valid()
      modifies this`validateMsg, this`focused, this`signUpAttempts
      ensures Valid()
      ensures validateMsg == AfterSubmit(old(validateMsg), form)
      ensures match CheckSignUp(form)
        case Invalid(field) =>
          focused == old(focused) + [field] && signUpAttempts == old(signUpAttempts)
        case Passed(info) =>
          focused == old(focused) && signUpAttempts == old(signUpAttempts) + [info]
    {
      var email, password, confirmPassword := form.email, form.password, form.confirmPassword;
      var info := SignUpInfo(email, password);
      if Utf16Length(Trim(email)) < MinEmailLength {
        validateMsg := validateMsg.(emailMsg := Some(EmailMsg));
        focused := focused + [Email];
        return;
      }
      if Utf16Length(Trim(password)) < MinPasswordLength {
        validateMsg := validateMsg.(passwordMsg := Some(PasswordMsg));
        focused := focused + [Password];
        return;
      }
      if password != confirmPassword {
        validateMsg := validateMsg.(confirmPasswordMsg := Some(ConfirmPasswordMsg));
        focused := focused + [ConfirmPassword];
        return;
      }
      signUpAttempts := signUpAttempts + [info];
    }
  }
}
