/** The six-box code entry of client/src/auth/VerifyEmail.tsx. Focus moves
    are returned as the index of the box that should receive focus. */
module Otp {
  import opened Wrappers
  import opened Text
  import VerificationCode

  const Slots: nat := 6

  /** A box holds at most one character. */
  predicate WellFormed(otp: seq<string>) {
    |otp| == Slots && forall i :: 0 <= i < |otp| ==> |otp[i]| <= 1
  }

  type Boxes = otp: seq<string> | WellFormed(otp) witness ["", "", "", "", "", ""]

  type Index = i: int | 0 <= i < 6

  /** The initial state: six empty boxes. */
  function Initial(): (otp: Boxes)
    ensures forall i :: 0 <= i < Slots ==> otp[i] == ""
  {
    ["", "", "", "", "", ""]
  }

  datatype Change = Change(otp: Boxes, focus: Option<Index>)

  /** `handleChange(e, idx)` with the typed text `text`: the first non-digit is
      deleted and the first remaining character kept; an empty remainder
      clears the box. Focus advances only after an entry, and never past the
      last box. */
  function HandleChange(otp: Boxes, idx: Index, text: string): (r: Change)
    ensures forall j :: 0 <= j < Slots && j != idx ==> r.otp[j] == otp[j]
    ensures DeleteFirstNonDigit(text) == "" ==> r.otp[idx] == "" && r.focus.None?
    ensures DeleteFirstNonDigit(text) != "" ==> r.otp[idx] == [DeleteFirstNonDigit(text)[0]]
    ensures r.focus.Some? <==> DeleteFirstNonDigit(text) != "" && idx < 5
    ensures r.focus.Some? ==> r.focus.value == idx + 1
  {
    var value := DeleteFirstNonDigit(text);
    if value == "" then Change(otp[idx := ""], None)
    else Change(otp[idx := [value[0]]], if idx < 5 then Some(idx + 1) else None)
  }

  /** A single typed digit fills the box; a single typed non-digit clears it. */
  lemma SingleCharacterEntry(otp: Boxes, idx: Index, c: char)
    ensures IsDigit(c) ==> HandleChange(otp, idx, [c]).otp[idx] == [c]
    ensures !IsDigit(c) ==> HandleChange(otp, idx, [c]).otp[idx] == ""
  {
  }

  /** A two-character value "ab" leaves "b" in the box: the non-global
      regex deletes only the first non-digit. */
  lemma TwoLettersKeepSecond(otp: Boxes, idx: Index)
    ensures HandleChange(otp, idx, "ab").otp[idx] == "b"
  {
    assert FirstNonDigit("ab") == 0;
    assert DeleteFirstNonDigit("ab") == "b";
  }

  datatype Key = Backspace | ArrowLeft | ArrowRight | OtherKey

  /** `handleKeyDown(e, idx)`: Backspace clears a filled box, or moves back
      from an empty one; arrows move within the six boxes. */
  function HandleKeyDown(otp: Boxes, idx: Index, key: Key): (r: Change)
    ensures key == Backspace && otp[idx] != "" ==> r.otp == otp[idx := ""] && r.focus.None?
    ensures key != Backspace || otp[idx] == "" ==> r.otp == otp
    ensures r.focus.Some? ==> r.focus.value == idx - 1 || r.focus.value == idx + 1
    ensures key == ArrowRight ==> (r.focus.Some? <==> idx < 5)
    ensures key == ArrowLeft ==> (r.focus.Some? <==> idx > 0)
    ensures key == Backspace ==> (r.focus.Some? <==> otp[idx] == "" && idx > 0)
    // Backspace on an empty box and the left arrow move back; the right arrow
    // moves on; any other key does nothing
    ensures (key == ArrowLeft || (key == Backspace && otp[idx] == "")) && idx > 0 ==> r.focus == Some(idx - 1)
    ensures key == ArrowRight && idx < 5 ==> r.focus == Some(idx + 1)
    ensures key == OtherKey ==> r == Change(otp, None)
  {
    match key
    case Backspace =>
      if otp[idx] == "" then Change(otp, if idx > 0 then Some(idx - 1) else None)
      else Change(otp[idx := ""], None)
    case ArrowLeft => Change(otp, if idx > 0 then Some(idx - 1) else None)
    case ArrowRight => Change(otp, if idx < 5 then Some(idx + 1) else None)
    case OtherKey => Change(otp, None)
  }

  /** The arrows undo each other: right then left comes back to the box. */
  lemma ArrowsUndoEachOther(otp: Boxes, idx: Index)
    requires idx < 5
    ensures HandleKeyDown(otp, idx, ArrowRight).focus == Some(idx + 1)
    ensures HandleKeyDown(otp, idx + 1, ArrowLeft).focus == Some(idx)
  {
  }

  /** Two presses of Backspace in a filled box: the first clears it and keeps
      focus, the second moves to the previous box. */
  lemma BackspaceTwice(otp: Boxes, idx: Index)
    requires idx > 0 && otp[idx] != ""
    ensures var first := HandleKeyDown(otp, idx, Backspace);
      && first.otp[idx] == "" && first.focus.None?
      && HandleKeyDown(first.otp, idx, Backspace) == Change(first.otp, Some(idx - 1))
  {
  }

  /** The result of a paste handler: the state change and whether it calls
      `e.preventDefault()`, cancelling the browser's own paste. */
  datatype Pasted = Pasted(change: Change, cancelsDefault: bool)

  /** `handlePaste(e)`: the digits of the pasted text fill all six boxes, but
      only when there are at least six of them, and only then is the
      browser's paste cancelled; otherwise the handler changes no box. */
  function HandlePaste(otp: Boxes, text: string): (r: Pasted)
    ensures r.cancelsDefault <==> |Digits(text)| >= Slots
    ensures |Digits(text)| >= Slots ==>
      r.change.focus == Some(5) && forall j :: 0 <= j < Slots ==> r.change.otp[j] == [Digits(text)[j]]
    ensures |Digits(text)| < Slots ==> r.change == Change(otp, None)
  {
    var digits := Digits(text);
    var paste := if |digits| < 6 then digits else digits[..6];
    if |paste| == 6 then
      Pasted(Change(seq(6, j requires 0 <= j < 6 => [paste[j]]), Some(5)), true)
    else Pasted(Change(otp, None), false)
  }

  /** A paste into box `idx` as the page performs it. The handler runs first.
      When it does not cancel, the browser inserts the pasted text into the
      focused box cut to the box's `maxLength={1}` and fires `handleChange`
      with it; a filled box takes no more characters, and an empty text
      inserts nothing. So a short paste into an empty box acts as typing its
      first character. */
  function PasteOnPage(otp: Boxes, idx: Index, text: string): (r: Change)
    ensures |Digits(text)| >= Slots ==> r == HandlePaste(otp, text).change
    ensures |Digits(text)| < Slots ==>
      && (forall j :: 0 <= j < Slots && j != idx ==> r.otp[j] == otp[j])
      && r.otp[idx] == (if otp[idx] == "" && text != "" && IsDigit(text[0]) then [text[0]] else otp[idx])
      && (r.focus.Some? <==> otp[idx] == "" && text != "" && IsDigit(text[0]) && idx < 5)
      && (r.focus.Some? ==> r.focus.value == idx + 1)
  {
    var handled := HandlePaste(otp, text);
    if handled.cancelsDefault then handled.change
    else if otp[idx] != "" || text == "" then handled.change
    else
      var typed := [text[0]];
      assert DeleteFirstNonDigit(typed) == (if IsDigit(text[0]) then typed else "");
      HandleChange(otp, idx, typed)
  }

  /** Pasting "1Ab2C3" into the empty first box: the handler finds only three
      digits and lets the browser paste, which leaves "1" in the box and
      moves focus to the next one. */
  lemma ShortPasteTypesFirstCharacter()
    ensures PasteOnPage(Initial(), 0, "1Ab2C3") == Change(Initial()[0 := "1"], Some(1))
  {
    var text := "1Ab2C3";
    var r := PasteOnPage(Initial(), 0, text);
    assert r.otp == Initial()[0 := "1"];
  }

  /** `otp.join("")`. */
  function Joined(otp: seq<string>): string
  {
    if |otp| == 0 then "" else otp[0] + Joined(otp[1..])
  }

  lemma {:induction false} JoinedLength(otp: seq<string>)
    requires forall i :: 0 <= i < |otp| ==> |otp[i]| <= 1
    ensures |Joined(otp)| <= |otp|
    ensures |Joined(otp)| == |otp| <==> forall i :: 0 <= i < |otp| ==> |otp[i]| == 1
    decreases |otp|
  {
    if |otp| > 0 {
      JoinedLength(otp[1..]);
      assert forall i :: 1 <= i < |otp| ==> otp[i] == otp[1..][i - 1];
    }
  }

  /** `handleVerify`: the error is shown exactly when some box is empty. */
  function HandleVerify(otp: Boxes): (error: Option<string>)
    ensures error.Some? <==> exists i :: 0 <= i < Slots && otp[i] == ""
  {
    JoinedLength(otp);
    if |Joined(otp)| != 6 then Some("Please enter the 6-digit OTP sent to your email.") else None
  }

  /** The server mails alphanumeric codes, but a code holding a letter cannot
      be pasted: the paste handler keeps digits only, finds fewer than six,
      changes no box and leaves the browser's one-character paste to run. */
  lemma LetterCodeCannotBePasted(otp: Boxes, draws: seq<VerificationCode.Draw>, k: int)
    requires |draws| == VerificationCode.DefaultLength
    requires 0 <= k < |draws| && draws[k] < 52
    ensures HandlePaste(otp, VerificationCode.Spell(draws)) == Pasted(Change(otp, None), false)
  {
    var code := VerificationCode.Spell(draws);
    VerificationCode.LetterDraw(draws[k]);
    DigitsDropsNonDigit(code, k);
  }

  /** Only codes drawn entirely from the ten digits can be pasted. */
  lemma DigitCodePastes(otp: Boxes, draws: seq<VerificationCode.Draw>)
    requires |draws| == VerificationCode.DefaultLength
    requires forall i :: 0 <= i < |draws| ==> draws[i] >= 52
    ensures HandlePaste(otp, VerificationCode.Spell(draws)).change.focus == Some(5)
  {
    var code := VerificationCode.Spell(draws);
    VerificationCode.AlphabetIsTable();
    assert forall i :: 0 <= i < |code| ==> IsDigit(code[i]);
    DigitsOfDigits(code);
  }

  /** The paste handler the server's codes call for: letters and digits are
      kept, so the boxes accept everything the generator can produce. */
  function HandlePasteAlphanumeric(otp: Boxes, text: string): (r: Pasted)
    ensures r.cancelsDefault <==> |Alphanumerics(text)| >= Slots
    ensures |Alphanumerics(text)| >= Slots ==>
      r.change.focus == Some(5) && forall j :: 0 <= j < Slots ==> r.change.otp[j] == [Alphanumerics(text)[j]]
    ensures |Alphanumerics(text)| < Slots ==> r.change == Change(otp, None)
  {
    var kept := Alphanumerics(text);
    if |kept| >= 6 then Pasted(Change(seq(6, j requires 0 <= j < 6 => [kept[j]]), Some(5)), true)
    else Pasted(Change(otp, None), false)
  }

  /** Every code the server mails pastes whole into the corrected handler. */
  lemma GeneratedCodePastes(otp: Boxes, draws: seq<VerificationCode.Draw>)
    requires |draws| == VerificationCode.DefaultLength
    ensures var r := HandlePasteAlphanumeric(otp, VerificationCode.Spell(draws));
      r.cancelsDefault && r.change.focus == Some(5)
      && forall j :: 0 <= j < Slots ==> r.change.otp[j] == [VerificationCode.Spell(draws)[j]]
  {
    var code := VerificationCode.Spell(draws);
    VerificationCode.SpellAlphanumeric(draws);
    AlphanumericsOfAlphanumerics(code);
  }
}
