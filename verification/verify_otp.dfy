/**
 The one-time-code screen: six single-character input slots, an inline error,
 and the decision taken when the form is submitted. Focus movement, the
 loading flag, navigation and the notification pop-ups are not modelled; the
 network calls appear only as their outcome.
 */
module VerifyOtp {
  import opened JsValues
  import opened Text
  import opened FormValidation

  const SlotCount: nat := 6

  /** Six empty slots: the initial value and the value after a reset. */
  const EmptySlots: seq<string> := ["", "", "", "", "", ""]

  const IncompleteMessage: string := "أدخل رمز التحقق كاملاً (6 أرقام)"
  const DigitsOnlyMessage: string := "رمز التحقق يجب أن يحتوي على أرقام فقط"
  const WrongCodeMessage: string := "رمز التحقق غير صحيح"
  const ResendFailedMessage: string := "فشل في إعادة إرسال رمز التحقق"

  datatype OtpState = OtpState(slots: seq<string>, error: string)

  function Initial(): (s: OtpState)
    ensures WellFormed(s)
    ensures s.error == ""
    ensures forall i :: 0 <= i < |s.slots| ==> s.slots[i] == ""
  {
    OtpState(EmptySlots, "")
  }

  /** `/^\d$/`: exactly one ASCII digit. */
  predicate IsSingleDigit(v: string) {
    |v| == 1 && IsAsciiDigit(v[0])
  }

  /** What a slot may hold: nothing or one digit. */
  predicate IsSlot(v: string) {
    v == "" || IsSingleDigit(v)
  }

  predicate WellFormed(s: OtpState) {
    |s.slots| == SlotCount && forall i :: 0 <= i < |s.slots| ==> IsSlot(s.slots[i])
  }

  /**
   `handleOtpChange(index, value)`: a non-empty value that is not one digit is
   ignored; anything else replaces the slot and clears the error.
   */
  function Change(s: OtpState, index: nat, value: string): (r: OtpState)
    requires index < |s.slots|
    ensures value != "" && !IsSingleDigit(value) ==> r == s
    ensures |r.slots| == |s.slots|
    ensures IsSlot(value) ==> r.slots[index] == value && r.error == ""
    ensures forall i :: 0 <= i < |s.slots| && i != index ==> r.slots[i] == s.slots[i]
  {
    if value != "" && !IsSingleDigit(value) then s
    else OtpState(s.slots[index := value], "")
  }

  /**
   `handleKeyDown(index, e)`: only Backspace acts. On an empty slot after the
   first it only moves the focus; otherwise it empties the slot and clears the
   error.
   */
  function KeyDown(s: OtpState, index: nat, key: string): (r: OtpState)
    requires index < |s.slots|
    ensures key != "Backspace" ==> r == s
    ensures key == "Backspace" && s.slots[index] == "" && index > 0 ==> r == s
    ensures key == "Backspace" && (s.slots[index] != "" || index == 0)
            ==> r.slots == s.slots[index := ""] && r.error == ""
  {
    if key != "Backspace" then s
    else if s.slots[index] == "" && index > 0 then s
    else OtpState(s.slots[index := ""], "")
  }

  /** `text.split('')`: one slot per character. */
  function Singles(text: string): (slots: seq<string>)
    ensures |slots| == |text|
    ensures forall i :: 0 <= i < |text| ==> slots[i] == [text[i]]
  {
    seq(|text|, i requires 0 <= i < |text| => [text[i]])
  }

  /** `handlePaste`: exactly six digits fill the slots and clear the error; anything else is ignored. */
  function Paste(s: OtpState, text: string): (r: OtpState)
    ensures !IsOtp(text) ==> r == s
    ensures IsOtp(text) ==> WellFormed(r) && r.error == ""
    ensures IsOtp(text) ==> forall i :: 0 <= i < SlotCount ==> r.slots[i] == [text[i]]
  {
    if IsOtp(text) then OtpState(Singles(text), "") else s
  }

  /** `otp.join('')`. */
  function Join(slots: seq<string>): string {
    if |slots| == 0 then "" else slots[0] + Join(slots[1..])
  }

  /** The number of non-empty slots. */
  function Filled(slots: seq<string>): nat {
    if |slots| == 0 then 0 else (if slots[0] != "" then 1 else 0) + Filled(slots[1..])
  }

  datatype Submission = ShowError(state: OtpState) | SendCode(code: string)

  /**
   `handleSubmit` up to the request: a joined code of the wrong length or with
   a non-digit shows its message; otherwise the code is sent.
   */
  function Submit(s: OtpState): (r: Submission)
    ensures r.SendCode? <==> IsOtp(Join(s.slots))
    ensures r.SendCode? ==> r.code == Join(s.slots)
    ensures |Join(s.slots)| != SlotCount ==> r == ShowError(s.(error := IncompleteMessage))
    ensures |Join(s.slots)| == SlotCount && !IsOtp(Join(s.slots))
            ==> r == ShowError(s.(error := DigitsOnlyMessage))
  {
    var code := Join(s.slots);
    if |code| != SlotCount then ShowError(s.(error := IncompleteMessage))
    else if !AllDigits(code) then ShowError(s.(error := DigitsOnlyMessage))
    else SendCode(code)
  }

  /** A rejected code empties every slot and shows the wrong-code message inline. */
  function VerificationFailed(s: OtpState): (r: OtpState)
    ensures WellFormed(r) && Filled(r.slots) == 0
    ensures r.error == WrongCodeMessage
  {
    OtpState(EmptySlots, WrongCodeMessage)
  }

  /**
   The notification of a rejected code, `error.message || "..."`: never blank,
   the server's message when it has one, the wrong-code message otherwise.
   */
  function VerificationFailedNotice(serverMessage: string): (m: string)
    ensures m != ""
    ensures m == serverMessage || m == WrongCodeMessage
    ensures serverMessage != "" ==> m == serverMessage
  {
    OrElse(Some(serverMessage), WrongCodeMessage)
  }

  /** A successful resend empties every slot and clears the error; a failed one changes nothing. */
  function Resent(s: OtpState, succeeded: bool): (r: OtpState)
    ensures succeeded ==> WellFormed(r) && Filled(r.slots) == 0 && r.error == ""
    ensures !succeeded ==> r == s
  {
    if succeeded then OtpState(EmptySlots, "") else s
  }

  /** The notification of a failed resend: never blank, the server's message when it has one. */
  function ResendFailedNotice(serverMessage: string): (m: string)
    ensures m != ""
    ensures m == serverMessage || m == ResendFailedMessage
    ensures serverMessage != "" ==> m == serverMessage
  {
    OrElse(Some(serverMessage), ResendFailedMessage)
  }

  // ---------------------------------------------------------------------------
  // Properties

  /** Every transition keeps six slots of at most one digit each. */
  lemma TransitionsPreserveWellFormed(s: OtpState, index: nat, value: string, key: string,
                                      text: string, succeeded: bool)
    requires WellFormed(s) && index < SlotCount
    ensures WellFormed(Change(s, index, value))
    ensures WellFormed(KeyDown(s, index, key))
    ensures WellFormed(Paste(s, text))
    ensures WellFormed(VerificationFailed(s))
    ensures WellFormed(Resent(s, succeeded))
    ensures Submit(s).ShowError? ==> WellFormed(Submit(s).state)
  {
  }

  /** Joining slots of at most one digit each gives a digit string one character per filled slot. */
  lemma {:induction false} JoinOfSlots(slots: seq<string>)
    requires forall i :: 0 <= i < |slots| ==> IsSlot(slots[i])
    ensures |Join(slots)| == Filled(slots)
    ensures AllDigits(Join(slots))
  {
    if |slots| > 0 {
      JoinOfSlots(slots[1..]);
      var rest := Join(slots[1..]);
      assert Join(slots) == slots[0] + rest;
      forall i | 0 <= i < |Join(slots)|
        ensures IsAsciiDigit(Join(slots)[i])
      {
        if i >= |slots[0]| {
          assert Join(slots)[i] == rest[i - |slots[0]|];
        }
      }
    }
  }

  /** All slots are filled exactly when the count of filled slots is the number of slots. */
  lemma {:induction false} FilledAll(slots: seq<string>)
    ensures Filled(slots) <= |slots|
    ensures Filled(slots) == |slots| <==> forall i :: 0 <= i < |slots| ==> slots[i] != ""
  {
    if |slots| > 0 {
      FilledAll(slots[1..]);
      assert forall i :: 0 <= i < |slots| - 1 ==> slots[1..][i] == slots[i + 1];
    }
  }

  /**
   From any reachable state, submitting sends the code exactly when every slot
   is filled, and the digits-only message can never be shown: the slots hold
   nothing but digits.
   */
  lemma SubmitOnWellFormed(s: OtpState)
    requires WellFormed(s)
    ensures Submit(s).SendCode? <==> forall i :: 0 <= i < SlotCount ==> s.slots[i] != ""
    ensures Submit(s).ShowError? ==> Submit(s).state.error == IncompleteMessage
  {
    JoinOfSlots(s.slots);
    FilledAll(s.slots);
  }

  /** Joining the single-character slots of a text gives the text back. */
  lemma {:induction false} JoinSingles(text: string)
    ensures Join(Singles(text)) == text
  {
    if |text| > 0 {
      JoinSingles(text[1..]);
      assert Singles(text)[1..] == Singles(text[1..]);
      assert Join(Singles(text)) == [text[0]] + text[1..];
    }
  }

  /** Pasting six digits and submitting sends exactly the pasted code. */
  lemma PasteThenSubmit(s: OtpState, text: string)
    requires IsOtp(text)
    ensures Submit(Paste(s, text)) == SendCode(text)
  {
    JoinSingles(text);
  }
}
