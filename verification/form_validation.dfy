/**
 The form-validation engine shared by the login, registration, password-reset
 and add-service screens: a constant table of field rules, a first-failure
 chain that turns one field value into one message (or `""` when the value is
 acceptable), the whole-form validation that also checks an optional cover
 picture, and the two updates of the error map (typing into a field clears that
 field's error; `clearErrors` empties the map).
 */
module FormValidation {
  import opened JsValues
  import opened Text

  // ---------------------------------------------------------------------------
  // The four regular expressions of the rule table, as predicates

  /** Characters allowed before the `@` of an e-mail address: `[a-zA-Z0-9._%+-]`. */
  predicate IsEmailLocalChar(c: char) {
    IsAsciiLetter(c) || IsAsciiDigit(c) || c in "._%+-"
  }

  /** Characters allowed after the `@`: `[a-zA-Z0-9.-]`. */
  predicate IsEmailDomainChar(c: char) {
    IsAsciiLetter(c) || IsAsciiDigit(c) || c == '.' || c == '-'
  }

  /**
   `s` splits as local part, `@` at `at`, domain part, `.` at `dot`, and a
   top-level part of at least two letters running to the end of `s`.
   */
  predicate EmailSplit(s: string, at: int, dot: int) {
    && 0 < at && at + 1 < dot && dot + 3 <= |s|
    && (forall k :: 0 <= k < at ==> IsEmailLocalChar(s[k]))
    && s[at] == '@'
    && (forall k :: at < k < dot ==> IsEmailDomainChar(s[k]))
    && s[dot] == '.'
    && (forall k :: dot < k < |s| ==> IsAsciiLetter(s[k]))
  }

  /** `/^[a-zA-Z0-9._%+-]+@[a-zA-Z0-9.-]+\.[a-zA-Z]{2,}$/` */
  predicate IsEmail(s: string) {
    exists at, dot | 0 <= at < |s| && 0 <= dot < |s| :: EmailSplit(s, at, dot)
  }

  /** `/^[0-9]{11}$/` */
  predicate IsPhone(s: string) {
    |s| == 11 && AllDigits(s)
  }

  /** `/^[0-9]{6}$/` */
  predicate IsOtp(s: string) {
    |s| == 6 && AllDigits(s)
  }

  predicate IsPasswordSymbol(c: char) {
    c in "@$!%*?&"
  }

  predicate IsPasswordChar(c: char) {
    IsAsciiLetter(c) || IsAsciiDigit(c) || IsPasswordSymbol(c)
  }

  /**
   `/^(?=.*[A-Za-z])(?=.*\d)(?=.*[@$!%*?&])[A-Za-z\d@$!%*?&]{8,}$/`: at least
   eight characters, all letters, digits or one of `@$!%*?&`, with at least one
   of each kind.
   */
  predicate IsStrongPassword(s: string) {
    && |s| >= 8
    && (forall i :: 0 <= i < |s| ==> IsPasswordChar(s[i]))
    && (exists i :: 0 <= i < |s| && IsAsciiLetter(s[i]))
    && (exists i :: 0 <= i < |s| && IsAsciiDigit(s[i]))
    && (exists i :: 0 <= i < |s| && IsPasswordSymbol(s[i]))
  }

  datatype Pattern = EmailPattern | PhonePattern | PasswordPattern | OtpPattern

  /** `pattern.test(s)` for a string `s`. */
  predicate Matches(p: Pattern, s: string) {
    match p
    case EmailPattern => IsEmail(s)
    case PhonePattern => IsPhone(s)
    case PasswordPattern => IsStrongPassword(s)
    case OtpPattern => IsOtp(s)
  }

  // ---------------------------------------------------------------------------
  // The rule table

  /** One entry of the rule table; a missing property is `None`. */
  datatype Rule = Rule(
    required: bool,
    fieldLabel: string,
    minLength: Option<nat>,
    maxLength: Option<nat>,
    pattern: Option<Pattern>,
    message: Option<string>,
    matchMessage: Option<string>)

  function LengthRule(fieldLabel: string, min: nat, max: nat): Rule {
    Rule(true, fieldLabel, Some(min), Some(max), None, None, None)
  }

  const PasswordMessage: string := "كلمة المرور يجب أن تحتوي على 8 أحرف على الأقل، حرف، رقم، ورمز خاص"
  const NewPasswordMessage: string := "كلمة المرور الجديدة يجب أن تحتوي على 8 أحرف على الأقل، حرف، رقم، ورمز خاص"
  const ConfirmMismatchMessage: string := "تأكيد كلمة المرور غير مطابق"

  const RuleTable: map<string, Rule> := map[
    "firstName" := LengthRule("الاسم الأول", 2, 50),
    "lastName" := LengthRule("الاسم الأخير", 2, 50),
    "email" := Rule(true, "البريد الإلكتروني", None, None, Some(EmailPattern),
                    Some("البريد الإلكتروني غير صالح"), None),
    "phone" := Rule(true, "رقم الهاتف", None, None, Some(PhonePattern),
                    Some("رقم الهاتف يجب أن يكون 11 رقمًا"), None),
    "password" := Rule(true, "كلمة المرور", Some(8), None, Some(PasswordPattern),
                       Some(PasswordMessage), None),
    "newPassword" := Rule(true, "كلمة المرور الجديدة", Some(8), None, Some(PasswordPattern),
                          Some(NewPasswordMessage), None),
    "confirmPassword" := Rule(true, "تأكيد كلمة المرور", None, None, None, None,
                              Some(ConfirmMismatchMessage)),
    "address" := LengthRule("العنوان", 2, 100),
    "otp" := Rule(true, "رمز التحقق", None, None, Some(OtpPattern),
                  Some("رمز التحقق يجب أن يكون 6 أرقام"), None),
    "name" := LengthRule("اسم الخدمة", 2, 100),
    "description" := LengthRule("وصف الخدمة", 10, 500),
    "cover" := Rule(true, "صورة الخدمة", None, None, None, None, None)
  ]

  // ---------------------------------------------------------------------------
  // Messages

  function RequiredMessage(fieldLabel: string): string {
    fieldLabel + " مطلوب"
  }

  function TooShortMessage(fieldLabel: string, min: nat): string {
    fieldLabel + " يجب أن يكون " + NatToString(min) + " أحرف على الأقل"
  }

  function TooLongMessage(fieldLabel: string, max: nat): string {
    fieldLabel + " يجب ألا يتجاوز " + NatToString(max) + " أحرف"
  }

  function PatternMessage(r: Rule): string {
    OrElse(r.message, r.fieldLabel + " غير صالح")
  }

  function MismatchMessage(r: Rule): string {
    OrElse(r.matchMessage, r.fieldLabel + " غير مطابق")
  }

  /** Every message a rule can produce. */
  function Messages(r: Rule): set<string> {
    {RequiredMessage(r.fieldLabel), PatternMessage(r), MismatchMessage(r)}
    + (if r.minLength.Some? then {TooShortMessage(r.fieldLabel, r.minLength.value)} else {})
    + (if r.maxLength.Some? then {TooLongMessage(r.fieldLabel, r.maxLength.value)} else {})
  }

  // ---------------------------------------------------------------------------
  // Field values

  /**
   What a field can hold: text typed into an input, nothing (`null` or
   `undefined`), or a picked file. A file object is an array of files
   (its length is known) or a single `File` (no `length` property).
   */
  datatype FieldValue = Text(s: string) | Nothing | FileObject(length: Option<nat>)

  predicate IsTruthy(v: FieldValue) {
    match v
    case Text(s) => s != ""
    case Nothing => false
    case FileObject(_) => true
  }

  /** `value.length`, `None` where the property is missing. */
  function LengthOf(v: FieldValue): Option<nat> {
    match v
    case Text(s) => Some(|s|)
    case Nothing => None
    case FileObject(n) => n
  }

  /**
   `pattern.test(value)`. A file object is converted to a string first, giving
   `"[object File]"`, `"[object FileList]"` or a comma-separated list of such
   words (or `""` for an empty array); none of the four patterns accepts any of
   those strings, so a file object never matches.
   */
  predicate PatternTest(p: Pattern, v: FieldValue) {
    v.Text? && Matches(p, v.s)
  }

  /** `value.length < bound`, false when `value.length` is missing. */
  predicate ShorterThan(v: FieldValue, bound: nat) {
    LengthOf(v).Some? && LengthOf(v).value < bound
  }

  /** `value.length > bound`, false when `value.length` is missing. */
  predicate LongerThan(v: FieldValue, bound: nat) {
    LengthOf(v).Some? && LengthOf(v).value > bound
  }

  /** The field a confirmation is compared with: `password` if the form has one, else `newPassword`. */
  function MatchField(form: map<string, string>): string {
    if "password" in form then "password" else "newPassword"
  }

  /** `value !== formData[matchField]`, where a missing entry reads as `undefined`. */
  predicate DiffersFromMatchField(v: FieldValue, form: map<string, string>) {
    var f := MatchField(form);
    !(f in form && v == Text(form[f]))
  }

  // ---------------------------------------------------------------------------
  // validateField

  /**
   The first-failure chain for one field: required, minimum length, maximum
   length, pattern, then (for `confirmPassword` only) equality with the
   password field of `form`. A name without a rule is always accepted.
   */
  function ValidateField(name: string, value: FieldValue, form: map<string, string>): (error: string)
    ensures name !in RuleTable ==> error == ""
    ensures name in RuleTable && error != "" ==> error in Messages(RuleTable[name])
  {
    if name !in RuleTable then ""
    else
      var r := RuleTable[name];
      if r.required && !IsTruthy(value) then RequiredMessage(r.fieldLabel)
      else if r.minLength.Some? && r.minLength.value != 0 && IsTruthy(value)
              && ShorterThan(value, r.minLength.value) then
        TooShortMessage(r.fieldLabel, r.minLength.value)
      else if r.maxLength.Some? && r.maxLength.value != 0 && IsTruthy(value)
              && LongerThan(value, r.maxLength.value) then
        TooLongMessage(r.fieldLabel, r.maxLength.value)
      else if r.pattern.Some? && IsTruthy(value) && !PatternTest(r.pattern.value, value) then
        PatternMessage(r)
      else if name == "confirmPassword" && IsTruthy(value) then
        if DiffersFromMatchField(value, form) then MismatchMessage(r) else ""
      else ""
  }

  // ---------------------------------------------------------------------------
  // Form state and its updates

  /** Field values and the error shown under each field. */
  datatype FormState = FormState(values: map<string, string>, errors: map<string, string>)

  /**
   Typing `value` into field `name`: the value is stored and, if that field
   showed an error, the error is blanked.
   */
  function HandleChange(st: FormState, name: string, value: string): (r: FormState)
    ensures r.values.Keys == st.values.Keys + {name}
    ensures r.values[name] == value
    ensures forall k :: k in st.values && k != name ==> r.values[k] == st.values[k]
    ensures r.errors.Keys == st.errors.Keys
    ensures name in r.errors ==> r.errors[name] == ""
    ensures forall k :: k in st.errors && k != name ==> r.errors[k] == st.errors[k]
  {
    var errors := if name in st.errors && st.errors[name] != "" then st.errors[name := ""] else st.errors;
    FormState(st.values[name := value], errors)
  }

  /** `clearErrors`: no error is shown, the values are kept. */
  function ClearErrors(st: FormState): (r: FormState)
    ensures r.errors == map[]
    ensures r.values == st.values
  {
    st.(errors := map[])
  }

  // ---------------------------------------------------------------------------
  // validateAll

  /**
   The optional argument of `validateAll`: not passed at all (`undefined`), or
   passed, possibly as `null` (`Passed(Nothing)`).
   */
  datatype FileArg = NotPassed | Passed(value: FieldValue)

  function CoverKeys(file: FileArg): set<string> {
    if file.Passed? then {"cover"} else {}
  }

  /** The message of each form field, as the loop of `validateAll` computes it. */
  function FieldErrorOf(form: map<string, string>): string -> string {
    (k: string) => if k in form then ValidateField(k, Text(form[k]), form) else ""
  }

  /** The verdict on the file argument, when one is passed. */
  function CoverError(form: map<string, string>, file: FileArg): Option<string> {
    if file.Passed? then Some(ValidateField("cover", file.value, form)) else None
  }

  /** A message per field, and the cover message (when there is one) under `cover`, overriding a field of that name. */
  function Merge(fields: set<string>, fieldError: string -> string, cover: Option<string>): map<string, string> {
    map k | k in fields + (if cover.Some? then {"cover"} else {}) ::
      if k == "cover" && cover.Some? then cover.value else fieldError(k)
  }

  /** The error map `validateAll` stores: one entry per form field, plus `cover` when a file argument is passed. */
  function ExpectedErrors(form: map<string, string>, file: FileArg): map<string, string> {
    Merge(form.Keys, FieldErrorOf(form), CoverError(form, file))
  }

  /** What `validateAll` returns: every form field and the file argument (if passed) are accepted. */
  predicate ExpectedValid(form: map<string, string>, file: FileArg) {
    && (forall k | k in form :: FieldErrorOf(form)(k) == "")
    && (file.Passed? ==> ValidateField("cover", file.value, form) == "")
  }

  /** Adding the cover message to the per-field messages gives the merged map. */
  lemma MergeParts(fields: set<string>, fieldError: string -> string, cover: Option<string>)
    ensures var errors := map k | k in fields :: fieldError(k);
            Merge(fields, fieldError, cover) == if cover.Some? then errors["cover" := cover.value] else errors
  {
  }

  /**
   The loop of `validateAll`: one message per key, and a verdict that stays
   true until some key gets a non-empty message.
   */
  method CollectErrors(keys: set<string>, errorOf: string -> string) returns (errors: map<string, string>, valid: bool)
    ensures errors == map k | k in keys :: errorOf(k)
    ensures valid <==> forall k | k in keys :: errorOf(k) == ""
  {
    errors := map[];
    valid := true;
    var pending := keys;
    while pending != {}
      invariant pending <= keys
      invariant errors.Keys == keys - pending
      invariant forall k | k in errors :: errors[k] == errorOf(k)
      invariant valid <==> forall k | k in errors :: errors[k] == ""
      decreases pending
    {
      var k :| k in pending;
      var e := errorOf(k);
      errors := errors[k := e];
      if e != "" {
        valid := false;
      }
      pending := pending - {k};
    }
  }

  /**
   `validateAll(file)`: validates every field of the form and, when a file
   argument is passed, the `cover` rule against it; stores the resulting error
   map and reports whether nothing failed.
   */
  method ValidateAll(st: FormState, file: FileArg) returns (r: FormState, valid: bool)
    ensures r.values == st.values
    ensures r.errors == ExpectedErrors(st.values, file)
    ensures valid == ExpectedValid(st.values, file)
  {
    var form := st.values;
    var errors;
    errors, valid := CollectErrors(form.Keys, FieldErrorOf(form));
    MergeParts(form.Keys, FieldErrorOf(form), CoverError(form, file));
    if file.Passed? {
      var e := ValidateField("cover", file.value, form);
      errors := errors["cover" := e];
      if e != "" {
        valid := false;
      }
    }
    r := FormState(form, errors);
  }
}
