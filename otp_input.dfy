/** The one-time-code input: `length` one-character slots. Typing into a slot keeps the last
    character of the slot's new text unless the text is not a number for `isNaN`, and reports the
    joined slots to the parent (`setUserOTP`); Backspace clears a slot unless a check is running;
    a "wrong" verdict from the parent empties every slot and the reported code. Focus moves and
    the 400 ms timer are not modelled beyond the status they set. */
module OtpInput {
  import opened Text

  /** JavaScript `StringToNumber`: the texts `Number(s)` reads as a number. White space around the
      literal is ignored and the blank text is 0. */
  predicate IsNumberText(s: string) {
    var t := Trim(s);
    t == "" || IsNonDecimalLiteral(t) || IsDecimalLiteral(t)
  }

  /** `isNaN(value)` for a string value. */
  predicate IsNaN(value: string) {
    !IsNumberText(value)
  }

  predicate IsHexDigit(c: char) {
    IsDigit(c) || ('a' <= c <= 'f') || ('A' <= c <= 'F')
  }

  /** `0x`, `0o` or `0b` followed by at least one digit of that base. */
  predicate IsNonDecimalLiteral(t: string) {
    && |t| >= 3 && t[0] == '0'
    && (|| ((t[1] == 'x' || t[1] == 'X') && forall i | 2 <= i < |t| :: IsHexDigit(t[i]))
        || ((t[1] == 'o' || t[1] == 'O') && forall i | 2 <= i < |t| :: '0' <= t[i] <= '7')
        || ((t[1] == 'b' || t[1] == 'B') && forall i | 2 <= i < |t| :: t[i] == '0' || t[i] == '1'))
  }

  /** Digits with at most one decimal point and at least one digit: `1`, `1.`, `.5`, `1.5`. */
  predicate IsMantissa(m: string) {
    || (m != "" && AllDigits(m))
    || exists d | 0 <= d < |m| :: m[d] == '.' && |m| > 1 && AllDigits(m[..d]) && AllDigits(m[d + 1..])
  }

  /** Optionally signed digits, at least one. */
  predicate IsSignedDigits(x: string) {
    if x != "" && (x[0] == '+' || x[0] == '-') then |x| > 1 && AllDigits(x[1..]) else x != "" && AllDigits(x)
  }

  /** `Infinity`, or a mantissa with an optional exponent. */
  predicate IsUnsignedDecimal(t: string) {
    || t == "Infinity"
    || IsMantissa(t)
    || exists k | 0 < k < |t| :: (t[k] == 'e' || t[k] == 'E') && IsMantissa(t[..k]) && IsSignedDigits(t[k + 1..])
  }

  /** A decimal literal with an optional sign. */
  predicate IsDecimalLiteral(t: string) {
    if t != "" && (t[0] == '+' || t[0] == '-') then IsUnsignedDecimal(t[1..]) else IsUnsignedDecimal(t)
  }

  /** `value.substring(value.length - 1)`: the last character, or the empty string. */
  function LastChar(value: string): (c: string)
    ensures |c| <= 1
    ensures value != "" ==> c == [value[|value| - 1]]
    ensures value == "" ==> c == ""
  {
    if value == "" then "" else value[|value| - 1..]
  }

  /** `otp.join("")`. */
  function Join(slots: seq<string>): (code: string) {
    if slots == [] then "" else Join(slots[..|slots| - 1]) + slots[|slots| - 1]
  }

  /** The parent's `status` values: "idle", "checking", "wrong" and "valid". */
  datatype OtpStatus = Idle | Checking | Wrong | Verified

  /** The slots after a change of slot `index` to `value`. */
  function AfterChange(otp: seq<string>, value: string, index: nat): (r: seq<string>)
    requires index < |otp|
    ensures |r| == |otp|
    ensures IsNaN(value) ==> r == otp
    ensures !IsNaN(value) ==> r[index] == LastChar(value) && forall i | 0 <= i < |otp| && i != index :: r[i] == otp[i]
  {
    if IsNaN(value) then otp else otp[index := LastChar(value)]
  }

  class OtpInputState {
    /** The `length` prop. */
    const length: nat
    /** The `otp` state. */
    var otp: seq<string>
    /** The value the component last passed to `setUserOTP`. */
    var userOtp: string
    /** The parent's `status`, which the component reads and sets. */
    var status: OtpStatus

    ghost predicate Valid()
      reads this
    {
      |otp| == length
    }

    /** The first render: `new Array(length).fill("")`. */
    constructor (length: nat, userOtp: string, status: OtpStatus)
      ensures Valid()
      ensures this.length == length && otp == seq(length, _ => "")
      ensures this.userOtp == userOtp && this.status == status
    {
      this.length := length;
      otp := seq(length, _ => "");
      this.userOtp := userOtp;
      this.status := status;
    }

    /** `handleChange`: a non-number leaves everything as it was; otherwise slot `index` takes the
        last character of the text and the joined slots are reported. */
    method HandleChange(value: string, index: nat)
      requires Valid() && index < length
      modifies this`otp, this`userOtp
      ensures Valid()
      ensures otp == AfterChange(old(otp), value, index)
      ensures userOtp == if IsNaN(value) then old(userOtp) else Join(otp)
    {
      if IsNaN(value) {
        return;
      }
      var newOtp := otp;
      newOtp := newOtp[index := LastChar(value)];
      otp := newOtp;
      userOtp := Join(newOtp);
    }

    /** `handleKeydown`: ignored while a check runs; Backspace sets the status to idle and clears
        slot `index`, and does not report to the parent. */
    method HandleKeydown(key: string, index: nat)
      requires Valid() && index < length
      modifies this`otp, this`status
      ensures Valid()
      ensures old(status) == Checking || key != "Backspace" ==> otp == old(otp) && status == old(status)
      ensures old(status) != Checking && key == "Backspace" ==> otp == old(otp)[index := ""] && status == Idle
    {
      if status == Checking {
        return;
      }
      if key == "Backspace" {
        var current := status;
        status := Idle;
        if current == Wrong {
          status := Idle;
        }
        var newOtp := otp;
        newOtp := newOtp[index := ""];
        otp := newOtp;
      }
    }

    /** The effect on `status`: a "wrong" verdict empties every slot and the reported code. */
    method StatusEffect()
      requires Valid()
      modifies this`otp, this`userOtp
      ensures Valid()
      ensures old(status) == Wrong ==> otp == seq(length, _ => "") && userOtp == ""
      ensures old(status) != Wrong ==> otp == old(otp) && userOtp == old(userOtp)
    {
      if status == Wrong {
        otp := seq(length, _ => "");
        userOtp := "";
      }
    }

    /** The timer the effect starts: 400 ms later the status is back to idle. */
    method WrongTimeout()
      modifies this`status
      ensures status == Idle
    {
      status := Idle;
    }
  }

  /** Joining slots of one digit each gives a code of `|slots|` digits. */
  lemma {:induction false} JoinDigits(slots: seq<string>)
    requires forall i | 0 <= i < |slots| :: |slots[i]| == 1 && IsDigit(slots[i][0])
    ensures |Join(slots)| == |slots| && AllDigits(Join(slots))
  {
    if slots != [] {
      JoinDigits(slots[..|slots| - 1]);
    }
  }

  /** Every digit is a number, so a typed digit always lands in its slot. */
  lemma DigitIsNumber(c: char)
    requires IsDigit(c)
    ensures !IsNaN([c]) && LastChar([c]) == [c]
  {
    assert Trim([c]) == [c];
  }

  /** Emptying a slot's text is a change to the number 0, so the slot is cleared and reported. */
  lemma EmptyTextClearsSlot(otp: seq<string>, index: nat)
    requires index < |otp|
    ensures AfterChange(otp, "", index) == otp[index := ""]
  {
  }

  /** `isNaN` lets through texts whose last character is not a digit: a space, which is blank
      and so the number 0, ... */
  lemma SpaceEntersSlot()
    ensures !IsNaN(" ") && LastChar(" ") == " "
  {
    assert AllWhitespace(" ");
  }

  /** ... a trailing decimal point, typed after a digit, ... */
  lemma TrailingPointEntersSlot()
    ensures !IsNaN("1.") && LastChar("1.") == "."
  {
    var point := "1.";
    assert SkipForward(point, 0) == 0 && SkipBackward(point, 2) == 2;
    assert Trim(point) == point;
    assert point[..1] == "1" && point[2..] == "";
    assert IsMantissa(point);
  }

  /** ... and `Infinity`, pasted into a slot. */
  lemma InfinityEntersSlot()
    ensures !IsNaN("Infinity") && LastChar("Infinity") == "y"
  {
    var inf := "Infinity";
    assert SkipForward(inf, 0) == 0 && SkipBackward(inf, 8) == 8;
    assert Trim(inf) == inf;
  }

  /** A lone decimal point is not a number and is refused. */
  lemma PointAloneIsNaN()
    ensures IsNaN(".")
  {
    var p := ".";
    assert Trim(p) == p by {
      assert SkipForward(p, 0) == 0 && SkipBackward(p, 1) == 1;
    }
    assert !IsMantissa(p) by {
      assert !AllDigits(p) by { assert !IsDigit(p[0]); }
    }
  }
}
