/**
 * The security screen: a password, then a six-digit MPIN, then a six-digit OTP with a
 * resend timer, each step checked before the next one is shown.
 */
module SecurityAccess {
  import opened Wrappers
  import opened Text

  datatype Step = Password | Mpin | Otp | Complete

  /** Where a step sits in the flow; steps are only ever taken forwards. */
  function Rank(s: Step): nat {
    match s
    case Password => 0
    case Mpin => 1
    case Otp => 2
    case Complete => 3
  }

  /** The position of the step in the progress bar, `-1` once complete. */
  function StepIndex(s: Step): (r: int)
    ensures s != Complete ==> r == Rank(s)
    ensures r == -1 <==> s == Complete
  {
    match s
    case Password => 0
    case Mpin => 1
    case Otp => 2
    case Complete => -1
  }

  const Slots: nat := 6

  /** The first OTP may be resent after 30 seconds. */
  const ResendDelay: nat := 30

  const MinPassword: nat := 6

  const EmptyCode: seq<string> := ["", "", "", "", "", ""]

  const ShortPassword := "Password must be at least 6 characters"
  const IncompleteMpin := "Please enter complete MPIN"
  const IncompleteOtp := "Please enter complete OTP"

  /** A slot holds nothing or one digit. */
  predicate IsSlot(s: string) {
    s == "" || (|s| == 1 && IsDigit(s[0]))
  }

  /** Six slots of a code. */
  predicate IsCode(code: seq<string>) {
    |code| == Slots && forall i :: 0 <= i < |code| ==> IsSlot(code[i])
  }

  /** `value.slice(-1)`: the last character, or nothing. */
  function LastChar(value: string): (r: string)
    ensures value == "" ==> r == ""
    ensures value != "" ==> r == [value[|value| - 1]]
    ensures |r| <= 1
  {
    if value == "" then "" else value[|value| - 1..]
  }

  /** The code after typing `value` into slot `index`: rejected unless all digits. */
  function Typed(code: seq<string>, index: nat, value: string): (r: seq<string>)
    requires index < |code|
    ensures |r| == |code|
  {
    if AllDigits(value) then code[index := LastChar(value)] else code
  }

  /**
   * Typing keeps a well-formed code well-formed; only slot `index` can change, to the
   * last digit typed; anything but digits leaves the code as it was.
   */
  lemma TypedFacts(code: seq<string>, index: nat, value: string)
    requires IsCode(code) && index < Slots
    ensures IsCode(Typed(code, index, value))
    ensures forall j :: 0 <= j < Slots && j != index ==> Typed(code, index, value)[j] == code[j]
    ensures AllDigits(value) ==> Typed(code, index, value)[index] == LastChar(value)
    ensures !AllDigits(value) ==> Typed(code, index, value) == code
  {
    if AllDigits(value) && value != "" {
      AllDigitsAt(value);
    }
  }

  /** Focus moves to the next slot after a digit is typed into any slot but the last. */
  function FocusAfterTyping(index: nat, value: string): (r: Option<nat>)
    ensures r.Some? <==> AllDigits(value) && value != "" && index < Slots - 1
    ensures r.Some? ==> r.value == index + 1
  {
    if AllDigits(value) && value != "" && index < Slots - 1 then Some(index + 1) else None
  }

  /** Backspace in an empty slot moves focus back, except in the first slot. */
  function FocusAfterKey(key: string, slotEmpty: bool, index: nat): (r: Option<nat>)
    ensures r.Some? <==> key == "Backspace" && slotEmpty && index > 0
    ensures r.Some? ==> r.value == index - 1
  {
    if key == "Backspace" && slotEmpty && index > 0 then Some(index - 1) else None
  }

  /** The slot that has focus after typing `value` into slot `index`. */
  function FocusNext(index: nat, value: string): (r: nat)
    requires index < Slots
    ensures r < Slots
  {
    match FocusAfterTyping(index, value)
    case Some(j) => j
    case None => index
  }

  /**
   * The code after the keys are typed one by one, starting in slot `index`, each into the
   * slot that has focus at that moment.
   */
  function TypeKeys(code: seq<string>, index: nat, keys: string): (r: seq<string>)
    requires index < Slots && |code| == Slots
    ensures |r| == Slots
    decreases |keys|
  {
    if keys == "" then code
    else TypeKeys(Typed(code, index, [keys[0]]), FocusNext(index, [keys[0]]), keys[1..])
  }

  /**
   * Typing the last `Slots - index` digits from slot `index` onwards puts each digit into
   * its own slot and leaves the earlier slots as they were.
   */
  lemma {:induction false} TypeKeysFrom(code: seq<string>, index: nat, keys: string)
    requires index < Slots && |code| == Slots && |keys| == Slots - index
    requires forall k :: 0 <= k < |keys| ==> IsDigit(keys[k])
    ensures forall j :: 0 <= j < index ==> TypeKeys(code, index, keys)[j] == code[j]
    ensures forall j :: index <= j < Slots ==> TypeKeys(code, index, keys)[j] == [keys[j - index]]
    decreases |keys|
  {
    var key := [keys[0]];
    AllDigitsAt(key);
    var next := Typed(code, index, key);
    assert next == code[index := key];
    if index < Slots - 1 {
      assert FocusNext(index, key) == index + 1;
      TypeKeysFrom(next, index + 1, keys[1..]);
      forall j | index + 1 <= j < Slots
        ensures TypeKeys(code, index, keys)[j] == [keys[j - index]]
      {
        assert keys[1..][j - (index + 1)] == keys[j - index];
      }
    } else {
      assert keys[1..] == "";
    }
  }

  /** Six digits typed from the first slot, each where focus moved, fill the code with them in order. */
  lemma TypingFillsCode(code: seq<string>, keys: string)
    requires IsCode(code) && |keys| == Slots
    requires forall k :: 0 <= k < |keys| ==> IsDigit(keys[k])
    ensures IsCode(TypeKeys(code, 0, keys)) && Filled(TypeKeys(code, 0, keys))
    ensures forall j :: 0 <= j < Slots ==> TypeKeys(code, 0, keys)[j] == [keys[j]]
  {
    TypeKeysFrom(code, 0, keys);
  }

  /** The slot that has focus after `k` presses of Backspace in empty slots, from slot `index`. */
  function FocusAfterBackspaces(index: nat, k: nat): nat
    decreases k
  {
    if k == 0 then index
    else match FocusAfterKey("Backspace", true, index)
      case Some(j) => FocusAfterBackspaces(j, k - 1)
      case None => FocusAfterBackspaces(index, k - 1)
  }

  /** Backspace in empty slots walks focus back one slot a press, and stops at the first. */
  lemma {:induction false} BackspaceWalksBack(index: nat, k: nat)
    ensures FocusAfterBackspaces(index, k) == if k <= index then index - k else 0
    decreases k
  {
    if k > 0 {
      if index > 0 {
        BackspaceWalksBack(index - 1, k - 1);
      } else {
        BackspaceWalksBack(index, k - 1);
      }
    }
  }

  /** A code is complete when no slot is empty, and then it is six digits. */
  predicate Filled(code: seq<string>) {
    forall i :: 0 <= i < |code| ==> code[i] != ""
  }

  lemma FilledCodeIsDigits(code: seq<string>)
    requires IsCode(code) && Filled(code)
    ensures forall i :: 0 <= i < Slots ==> |code[i]| == 1 && IsDigit(code[i][0])
  {
  }

  class Screen {
    var step: Step
    var password: string
    var mpin: seq<string>
    var otp: seq<string>
    var error: string
    var countdown: nat
    var view: string

    /** Both codes are six slots of at most one digit each. */
    predicate Valid()
      reads this
    {
      IsCode(mpin) && IsCode(otp)
    }

    /** The screen as first shown, at the step the session is on. */
    constructor (at: Step)
      ensures Valid()
      ensures step == at && password == "" && mpin == EmptyCode && otp == EmptyCode
      ensures error == "" && countdown == 0 && view == "security-access"
    {
      step, password, mpin, otp := at, "", EmptyCode, EmptyCode;
      error, countdown, view := "", 0, "security-access";
    }

    /** Editing the password clears the error. */
    method SetPassword(value: string)
      requires Valid() && step == Password
      modifies this
      ensures Valid() && password == value && error == ""
      ensures step == old(step) && mpin == old(mpin) && otp == old(otp)
      ensures countdown == old(countdown) && view == old(view)
    {
      password, error := value, "";
    }

    /** A password of at least six characters leads to the MPIN; a shorter one is refused. */
    method SubmitPassword()
      requires Valid() && step == Password
      modifies this
      ensures Valid() && Rank(old(step)) <= Rank(step)
      ensures |password| < MinPassword ==> step == Password && error == ShortPassword
      ensures |password| >= MinPassword ==> step == Mpin && error == ""
      ensures password == old(password) && mpin == old(mpin) && otp == old(otp)
      ensures countdown == old(countdown) && view == old(view)
    {
      if |password| < MinPassword {
        error := ShortPassword;
        return;
      }
      error := "";
      step := Mpin;
    }

    /** Typing into MPIN slot `index`; returns the slot to focus next, if any. */
    method ChangeMpin(index: nat, value: string) returns (focus: Option<nat>)
      requires Valid() && step == Mpin && index < Slots
      modifies this
      ensures Valid()
      ensures mpin == Typed(old(mpin), index, value)
      ensures AllDigits(value) ==> error == "" && focus == FocusAfterTyping(index, value)
      ensures !AllDigits(value) ==> error == old(error) && focus == None
      ensures step == old(step) && password == old(password) && otp == old(otp)
      ensures countdown == old(countdown) && view == old(view)
    {
      focus := None;
      if !AllDigits(value) {
        return;
      }
      TypedFacts(mpin, index, value);
      mpin := mpin[index := LastChar(value)];
      error := "";
      if value != "" && index < Slots - 1 {
        focus := Some(index + 1);
      }
    }

    /** A complete MPIN leads to the OTP and starts the 30 second resend timer. */
    method SubmitMpin()
      requires Valid() && step == Mpin
      modifies this
      ensures Valid() && Rank(old(step)) <= Rank(step)
      ensures !Filled(mpin) ==> step == Mpin && error == IncompleteMpin && countdown == old(countdown)
      ensures Filled(mpin) ==> step == Otp && error == "" && countdown == ResendDelay
      ensures password == old(password) && mpin == old(mpin) && otp == old(otp) && view == old(view)
    {
      if exists i :: 0 <= i < |mpin| && mpin[i] == "" {
        error := IncompleteMpin;
        return;
      }
      error := "";
      step, countdown := Otp, ResendDelay;
    }

    /** Typing into OTP slot `index`; returns the slot to focus next, if any. */
    method ChangeOtp(index: nat, value: string) returns (focus: Option<nat>)
      requires Valid() && step == Otp && index < Slots
      modifies this
      ensures Valid()
      ensures otp == Typed(old(otp), index, value)
      ensures AllDigits(value) ==> error == "" && focus == FocusAfterTyping(index, value)
      ensures !AllDigits(value) ==> error == old(error) && focus == None
      ensures step == old(step) && password == old(password) && mpin == old(mpin)
      ensures countdown == old(countdown) && view == old(view)
    {
      focus := None;
      if !AllDigits(value) {
        return;
      }
      TypedFacts(otp, index, value);
      otp := otp[index := LastChar(value)];
      error := "";
      if value != "" && index < Slots - 1 {
        focus := Some(index + 1);
      }
    }

    /** A complete OTP completes the flow and opens the saved documents. */
    method SubmitOtp()
      requires Valid() && step == Otp
      modifies this
      ensures Valid() && Rank(old(step)) <= Rank(step)
      ensures !Filled(otp) ==> step == Otp && error == IncompleteOtp && view == old(view)
      ensures Filled(otp) ==> step == Complete && error == "" && view == "saved-documents"
      ensures password == old(password) && mpin == old(mpin) && otp == old(otp)
      ensures countdown == old(countdown)
    {
      if exists i :: 0 <= i < |otp| && otp[i] == "" {
        error := IncompleteOtp;
        return;
      }
      error := "";
      step, view := Complete, "saved-documents";
    }

    /** "Resend OTP", offered once the timer is over: the timer restarts and the slots are cleared. */
    method ResendOtp()
      requires Valid() && step == Otp && countdown == 0
      modifies this
      ensures Valid() && countdown == ResendDelay && otp == EmptyCode
      ensures step == old(step) && password == old(password) && mpin == old(mpin)
      ensures error == old(error) && view == old(view)
    {
      countdown, otp := ResendDelay, EmptyCode;
    }

    /** One second of the resend timer, which stops at 0. */
    method SecondElapsed()
      requires Valid()
      modifies this
      ensures Valid()
      ensures countdown == TimerStep(old(countdown))
      ensures old(countdown) > 0 ==> countdown == old(countdown) - 1
      ensures old(countdown) == 0 ==> countdown == 0
      ensures step == old(step) && password == old(password) && mpin == old(mpin) && otp == old(otp)
      ensures error == old(error) && view == old(view)
    {
      if countdown > 0 {
        countdown := countdown - 1;
      }
    }
  }

  /** One second of the resend timer, as `SecondElapsed` applies it. */
  function TimerStep(n: nat): nat {
    if n > 0 then n - 1 else 0
  }

  /** The timer after `k` calls of `SecondElapsed`, from `n`. */
  function TimerAfter(n: nat, k: nat): nat
    decreases k
  {
    if k == 0 then n else TimerAfter(TimerStep(n), k - 1)
  }

  /** The timer reaches 0 exactly `n` seconds after it was set to `n`, and then stays there. */
  lemma {:induction false} TimerCountsDown(n: nat, k: nat)
    ensures TimerAfter(n, k) == if k <= n then n - k else 0
  {
    if k > 0 {
      TimerCountsDown(TimerStep(n), k - 1);
    }
  }
}
