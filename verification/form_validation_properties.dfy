/**
 What the rule table and the first-failure chain promise, field by field, and
 what whole-form validation promises about its error map and its verdict.
 */
module FormValidationProperties {
  import opened JsValues
  import opened Text
  import opened FormValidation

  /** The fields whose rule carries a pattern. */
  predicate IsPatternField(name: string) {
    name in {"email", "phone", "otp", "password", "newPassword"}
  }

  /** The fields whose rule is a length range only. */
  predicate IsLengthField(name: string) {
    name in {"firstName", "lastName", "address", "name", "description"}
  }

  /** A missing or empty value of any field with a rule gets exactly the required message. */
  lemma RequiredWins(name: string, value: FieldValue, form: map<string, string>)
    requires name in RuleTable
    requires !IsTruthy(value)
    ensures ValidateField(name, value, form) == RequiredMessage(RuleTable[name].fieldLabel)
  {
  }

  /**
   A non-empty value shorter than the rule's minimum length gets the length
   message, whatever the pattern would have said.
   */
  lemma LengthCheckedBeforePattern(name: string, s: string, form: map<string, string>)
    requires name in RuleTable && RuleTable[name].minLength.Some?
    requires 0 < |s| < RuleTable[name].minLength.value
    ensures ValidateField(name, Text(s), form)
            == TooShortMessage(RuleTable[name].fieldLabel, RuleTable[name].minLength.value)
  {
  }

  /** `"abc"` as a password is reported as too short, not as failing the pattern. */
  lemma ShortPasswordReportsLength(form: map<string, string>)
    ensures ValidateField("password", Text("abc"), form) == TooShortMessage("كلمة المرور", 8)
    ensures ValidateField("password", Text("abc"), form) != PasswordMessage
  {
    LengthCheckedBeforePattern("password", "abc", form);
    var m := TooShortMessage("كلمة المرور", 8);
    assert |m| != |PasswordMessage|;
  }

  /**
   A non-empty value of a pattern field is accepted exactly when it matches the
   pattern; a rejected value long enough for the length check gets the rule's
   own message.
   */
  lemma PatternVerdict(name: string, s: string, form: map<string, string>)
    requires IsPatternField(name)
    requires s != ""
    ensures ValidateField(name, Text(s), form) == "" <==> Matches(RuleTable[name].pattern.value, s)
    ensures !Matches(RuleTable[name].pattern.value, s) && |s| >= 8
            ==> ValidateField(name, Text(s), form) == RuleTable[name].message.value
  {
    if name == "password" || name == "newPassword" {
      PasswordVerdict(name, s, form);
    } else {
      PlainPatternVerdict(name, s, form);
    }
  }

  /** E-mail, phone and code have a pattern and no length bound: the pattern alone decides. */
  lemma PlainPatternVerdict(name: string, s: string, form: map<string, string>)
    requires name == "email" || name == "phone" || name == "otp"
    requires s != ""
    ensures ValidateField(name, Text(s), form) == "" <==> Matches(RuleTable[name].pattern.value, s)
    ensures !Matches(RuleTable[name].pattern.value, s) ==> ValidateField(name, Text(s), form) == RuleTable[name].message.value
  {
    var r := RuleTable[name];
    assert r.minLength.None? && r.maxLength.None? && r.pattern.Some?;
  }

  /**
   Passwords have a minimum length of eight as well as the pattern; the pattern
   itself demands eight characters, so it alone decides acceptance.
   */
  lemma PasswordVerdict(name: string, s: string, form: map<string, string>)
    requires name == "password" || name == "newPassword"
    requires s != ""
    ensures ValidateField(name, Text(s), form) == "" <==> IsStrongPassword(s)
    ensures !IsStrongPassword(s) && |s| >= 8 ==> ValidateField(name, Text(s), form) == RuleTable[name].message.value
    ensures RuleTable[name].pattern == Some(PasswordPattern)
  {
    var r := RuleTable[name];
    assert r.minLength == Some(8) && r.maxLength.None? && r.pattern == Some(PasswordPattern);
  }

  /** A non-empty value of a length-only field is accepted exactly when its length is in range. */
  lemma LengthVerdict(name: string, s: string, form: map<string, string>)
    requires IsLengthField(name)
    requires s != ""
    ensures ValidateField(name, Text(s), form) == ""
            <==> RuleTable[name].minLength.value <= |s| <= RuleTable[name].maxLength.value
  {
  }

  /**
   The confirmation is compared with `password` when the form has that field,
   otherwise with `newPassword`: equal is accepted, different (or nothing to
   compare with) gets the mismatch message, empty gets the required message.
   */
  lemma ConfirmVerdict(s: string, form: map<string, string>)
    ensures s == "" ==> ValidateField("confirmPassword", Text(s), form) == RequiredMessage("تأكيد كلمة المرور")
    ensures s != "" ==>
              (ValidateField("confirmPassword", Text(s), form) == ""
               <==> MatchField(form) in form && form[MatchField(form)] == s)
    ensures s != "" && ValidateField("confirmPassword", Text(s), form) != ""
            ==> ValidateField("confirmPassword", Text(s), form) == ConfirmMismatchMessage
    ensures "password" in form ==> MatchField(form) == "password"
    ensures "password" !in form ==> MatchField(form) == "newPassword"
  {
  }

  /** The cover picture is accepted exactly when something truthy was passed. */
  lemma CoverVerdict(v: FieldValue, form: map<string, string>)
    ensures ValidateField("cover", v, form) == "" <==> IsTruthy(v)
    ensures !IsTruthy(v) ==> ValidateField("cover", v, form) == RequiredMessage("صورة الخدمة")
  {
  }

  lemma EmailExamples()
    ensures IsEmail("a@b.co")
    ensures !IsEmail("not-an-email")
  {
    assert EmailSplit("a@b.co", 1, 3);
    var bad := "not-an-email";
    forall at, dot | 0 <= at < |bad| && 0 <= dot < |bad|
      ensures !EmailSplit(bad, at, dot)
    {
      assert bad[at] != '@';
    }
  }

  lemma PhoneAndOtpExamples()
    ensures IsPhone("01012345678")
    ensures !IsPhone("0101234567")
    ensures IsOtp("123456")
    ensures !IsOtp("12345a")
  {
    assert !IsAsciiDigit("12345a"[5]);
  }

  lemma PasswordExamples()
    ensures IsStrongPassword("abcd123!")
  {
    var good := "abcd123!";
    assert IsAsciiLetter(good[0]) && IsAsciiDigit(good[4]) && IsPasswordSymbol(good[7]);
  }

  lemma WeakPasswordExamples()
    ensures !IsStrongPassword("abcdefgh")
    ensures !IsStrongPassword("abcd 123!")
  {
    var letters := "abcdefgh";
    assert forall i :: 0 <= i < |letters| ==> !IsAsciiDigit(letters[i]);
    assert !IsPasswordChar("abcd 123!"[4]);
  }

  // ---------------------------------------------------------------------------
  // validateAll

  /** The error map has an entry for every form field, plus `cover` exactly when a file argument is passed. */
  lemma ErrorMapKeys(form: map<string, string>, file: FileArg)
    ensures ExpectedErrors(form, file).Keys == form.Keys + CoverKeys(file)
  {
  }

  /** Passing `null` still validates the cover, and it fails as required. */
  lemma NullCoverRejected(form: map<string, string>)
    ensures !ExpectedValid(form, Passed(Nothing))
    ensures ExpectedErrors(form, Passed(Nothing))["cover"] == RequiredMessage("صورة الخدمة")
  {
  }

  /**
   A valid verdict leaves no message in the error map. The converse holds as
   long as the `cover` entry of the form is not overwritten by the file argument.
   */
  lemma ValidIffNoMessage(form: map<string, string>, file: FileArg)
    ensures ExpectedValid(form, file) ==> forall k | k in ExpectedErrors(form, file) :: ExpectedErrors(form, file)[k] == ""
    ensures file.NotPassed? || "cover" !in form
            ==> (ExpectedValid(form, file) <==> forall k | k in ExpectedErrors(form, file) :: ExpectedErrors(form, file)[k] == "")
  {
    var errors := ExpectedErrors(form, file);
    if file.NotPassed? || "cover" !in form {
      if forall k | k in errors :: errors[k] == "" {
        forall k | k in form
          ensures ValidateField(k, Text(form[k]), form) == ""
        {
          assert errors[k] == "";
        }
        if file.Passed? {
          assert errors["cover"] == "";
        }
      }
    }
  }

  /**
   A form whose own `cover` text fails while a truthy file is passed reports
   invalid although its error map shows no message: the file's entry
   overwrites the form's.
   */
  lemma CoverEntryOverwritten()
    ensures !ExpectedValid(map["cover" := ""], Passed(FileObject(None)))
    ensures ExpectedErrors(map["cover" := ""], Passed(FileObject(None))).Keys == {"cover"}
    ensures ExpectedErrors(map["cover" := ""], Passed(FileObject(None)))["cover"] == ""
  {
    var form := map["cover" := ""];
    assert ValidateField("cover", Text(form["cover"]), form) != "";
  }

  /** A registration with password `"abc"` is rejected before anything is sent, with the length message. */
  lemma RegistrationWithShortPasswordRejected(form: map<string, string>, picture: FileArg)
    requires "password" in form && form["password"] == "abc"
    ensures !ExpectedValid(form, picture)
    ensures ExpectedErrors(form, picture)["password"] == TooShortMessage("كلمة المرور", 8)
  {
    ShortPasswordReportsLength(form);
  }
}
