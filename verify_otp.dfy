/**
 * The OTP entry screen: a row of six single-digit cells with per-cell editing, paste of a
 * whole code, the length check before submitting, the resend countdown and its `m:ss` label.
 * The component's state (`otp`, `error`, `timer`, `loading`) is an object whose handlers
 * update it; the string helpers they use are functions.
 */
module VerifyOtp {
  import opened Wrappers
  import opened Text

  const OtpLength: nat := 6
  const ResendDelay: nat := 60
  const IncompleteOtp: string := "Please enter all 6 digits"
  const RejectedOtp: string := "Invalid OTP. Please try again."
  const NetworkFailure: string := "Network error. Please try again."

  /** A cell of the entry row: empty or one digit. */
  predicate IsCell(s: string) {
    s == "" || (|s| == 1 && IsDigit(s[0]))
  }

  predicate WellFormed(otp: seq<string>) {
    |otp| == OtpLength && forall i :: 0 <= i < |otp| ==> IsCell(otp[i])
  }

  function EmptyOtp(): (otp: seq<string>)
    ensures WellFormed(otp) && forall i :: 0 <= i < |otp| ==> otp[i] == ""
  {
    ["", "", "", "", "", ""]
  }

  /** `handleInputChange`'s two guards: `/^\d*$/.test(value)` and `value.length <= 1`. */
  predicate AcceptsKey(value: string) {
    AllDigits(value) && |value| <= 1
  }

  /** `otp.join('')`. */
  function JoinCells(cells: seq<string>): string {
    if cells == [] then "" else cells[0] + JoinCells(cells[1..])
  }

  /** Joining cells of at most one character gives one character per filled cell. */
  lemma {:induction false} JoinedLength(cells: seq<string>)
    requires forall i :: 0 <= i < |cells| ==> |cells[i]| <= 1
    ensures |JoinCells(cells)| <= |cells|
    ensures |JoinCells(cells)| == |cells| <==> forall i :: 0 <= i < |cells| ==> cells[i] != ""
  {
    if cells != [] {
      JoinedLength(cells[1..]);
      assert forall i :: 1 <= i < |cells| ==> cells[i] == cells[1..][i - 1];
    }
  }

  lemma {:induction false} JoinedDigits(cells: seq<string>)
    requires forall i :: 0 <= i < |cells| ==> IsCell(cells[i])
    ensures AllDigits(JoinCells(cells))
  {
    if cells != [] {
      JoinedDigits(cells[1..]);
    }
  }

  /**
   * Under the cell invariant the submit check `otp.join('').length !== 6` rejects exactly the
   * rows with an empty cell, and an accepted row joins to six digits.
   */
  lemma CompleteIffAllFilled(otp: seq<string>)
    requires WellFormed(otp)
    ensures |JoinCells(otp)| == OtpLength <==> forall i :: 0 <= i < OtpLength ==> otp[i] != ""
    ensures AllDigits(JoinCells(otp))
  {
    JoinedLength(otp);
    JoinedDigits(otp);
  }

  /** `replace(/\D/g, '')`: the digits of `s`, in order. */
  function KeepDigits(s: string): (d: string)
    ensures AllDigits(d) && |d| <= |s|
    ensures forall c :: c in d <==> c in s && IsDigit(c)
  {
    if s == "" then "" else (if IsDigit(s[0]) then [s[0]] else "") + KeepDigits(s[1..])
  }

  /** Filtering distributes over concatenation, so it keeps every digit and their order. */
  lemma {:induction false} KeepDigitsConcat(a: string, b: string)
    ensures KeepDigits(a + b) == KeepDigits(a) + KeepDigits(b)
  {
    if a != "" {
      assert (a + b)[1..] == a[1..] + b;
      KeepDigitsConcat(a[1..], b);
    } else {
      assert a + b == b;
    }
  }

  /** A character that is not a digit is dropped. */
  lemma KeepDigitsOfNonDigit(c: char)
    requires !IsDigit(c)
    ensures KeepDigits([c]) == ""
  {
  }

  /** Filtering leaves a digit string as it is. */
  lemma {:induction false} KeepDigitsOfDigits(s: string)
    requires AllDigits(s)
    ensures KeepDigits(s) == s
  {
    if s != "" {
      KeepDigitsOfDigits(s[1..]);
    }
  }

  /** `replace(/\D/g, '').slice(0, 6)`: at most the first six digits of the pasted text. */
  function PastedDigits(text: string): (d: string)
    ensures AllDigits(d) && |d| <= OtpLength && d <= KeepDigits(text)
    ensures |d| == OtpLength <==> |KeepDigits(text)| >= OtpLength
  {
    var all := KeepDigits(text);
    if |all| <= OtpLength then all else all[..OtpLength]
  }

  /** `split('')` on a digit string: one cell per digit. */
  function Cells(d: string): (cells: seq<string>)
    ensures |cells| == |d| && forall i :: 0 <= i < |d| ==> cells[i] == [d[i]]
  {
    seq(|d|, i requires 0 <= i < |d| => [d[i]])
  }

  /** The cells a paste produces are well formed and join back to the pasted digits. */
  lemma {:induction false} CellsJoinBack(d: string)
    requires AllDigits(d)
    ensures forall i :: 0 <= i < |d| ==> IsCell(Cells(d)[i])
    ensures JoinCells(Cells(d)) == d
    decreases |d|
  {
    if d != "" {
      assert Cells(d)[1..] == Cells(d[1..]);
      CellsJoinBack(d[1..]);
      assert d == [d[0]] + d[1..];
    }
  }

  // ---------------------------------------------------------------------------------------
  // formatTime

  /** `padStart(2, '0')`. */
  function PadStart2(s: string): (r: string)
    ensures |s| >= 2 ==> r == s
    ensures |s| < 2 ==> |r| == 2 && r[2 - |s|..] == s && forall i :: 0 <= i < 2 - |s| ==> r[i] == '0'
  {
    if |s| >= 2 then s else seq(2 - |s|, _ => '0') + s
  }

  /** JavaScript's `n % 60`: the remainder takes the sign of the dividend. */
  function JsRemainder60(n: int): int {
    if n >= 0 then n % 60 else -((-n) % 60)
  }

  /**
   * `formatTime`: `Math.floor(seconds / 60)`, a colon, then `seconds % 60` padded to two
   * characters. Dafny's `/` by a positive divisor rounds down, as `Math.floor` does.
   */
  function FormatTime(seconds: int): string {
    var mins := seconds / 60;
    var secs := JsRemainder60(seconds);
    IntToString(mins) + ":" + PadStart2(IntToString(secs))
  }

  /** The seconds part: two digits denoting `secs`. */
  lemma PaddedSeconds(secs: nat)
    requires secs < 60
    ensures var s := PadStart2(NatToString(secs)); |s| == 2 && AllDigits(s) && DecimalValue(s) == secs
  {
    DecimalValueOfNatToString(secs);
    var s := PadStart2(NatToString(secs));
    if secs < 10 {
      assert NatToString(secs) == [DigitChar(secs)];
      assert s == ['0', DigitChar(secs)];
      assert s[..1] == ['0'];
    } else {
      NatToStringLength(secs, 2);
    }
  }

  /**
   * For a non-negative count the label is `m:ss`: the minutes, a colon and exactly two
   * seconds digits below 60, together denoting `seconds`.
   */
  lemma FormatTimeMeaning(seconds: nat)
    ensures var r := FormatTime(seconds);
      && |r| >= 4 && r[|r| - 3] == ':'
      && AllDigits(r[..|r| - 3]) && AllDigits(r[|r| - 2..])
      && DecimalValue(r[..|r| - 3]) == seconds / 60
      && DecimalValue(r[|r| - 2..]) == seconds % 60
  {
    var m := NatToString(seconds / 60);
    var s := PadStart2(NatToString(seconds % 60));
    DecimalValueOfNatToString(seconds / 60);
    PaddedSeconds(seconds % 60);
    var r := m + ":" + s;
    assert r == FormatTime(seconds);
    assert r[..|r| - 3] == m;
    assert r[|r| - 2..] == s;
  }

  /** The two parts together denote the whole count. */
  lemma FormatTimeDenotesSeconds(seconds: nat)
    ensures var r := FormatTime(seconds);
      |r| >= 4 && AllDigits(r[..|r| - 3]) && AllDigits(r[|r| - 2..])
      && DecimalValue(r[..|r| - 3]) * 60 + DecimalValue(r[|r| - 2..]) == seconds
  {
    FormatTimeMeaning(seconds);
  }

  lemma FormatTimeExamples()
    ensures FormatTime(60) == "1:00"
    ensures FormatTime(59) == "0:59"
    ensures FormatTime(125) == "2:05"
  {
  }

  // ---------------------------------------------------------------------------------------
  // The component

  /** The answer to the verification request: `data.message` may be absent. */
  datatype VerifyReply = Accepted(token: string, message: Option<string>) | Refused(message: Option<string>) | NetworkError

  /** `data.message || fallback`. */
  function MessageOr(message: Option<string>, fallback: string): string {
    if message.Some? && message.value != "" then message.value else fallback
  }

  class OtpWidget {
    var otp: seq<string>
    var error: string
    var timer: int
    var loading: bool
    /** The signed-in flag and user of the application context; once signed in, the page redirects to the chat screen. */
    var isAuth: bool
    var user: Option<string>

    /** Every cell is empty or one digit; the countdown stays within its range. */
    ghost predicate Valid()
      reads this
    {
      WellFormed(otp) && 0 <= timer <= ResendDelay
    }

    constructor ()
      ensures Valid()
      ensures otp == EmptyOtp() && error == "" && timer == ResendDelay && !loading
      ensures !isAuth && user.None?
    {
      otp := EmptyOtp();
      error := "";
      timer := ResendDelay;
      loading := false;
      isAuth := false;
      user := None;
    }

    /** The submit button is enabled: not loading and six characters entered. */
    function SubmitEnabled(): bool
      reads this
    {
      !loading && |JoinCells(otp)| == OtpLength
    }

    /**
     * `handleInputChange`: a value with a non-digit, or longer than one character, is ignored;
     * otherwise it becomes cell `index` and the error is cleared.
     */
    method InputChange(index: nat, value: string)
      requires Valid() && index < OtpLength
      modifies this
      ensures Valid()
      ensures AcceptsKey(value) ==> otp == old(otp)[index := value] && error == ""
      ensures !AcceptsKey(value) ==> otp == old(otp) && error == old(error)
      ensures forall i :: 0 <= i < OtpLength && i != index ==> otp[i] == old(otp)[i]
      ensures timer == old(timer) && loading == old(loading)
      ensures isAuth == old(isAuth) && user == old(user)
    {
      if !AllDigits(value) {
        return;
      }
      if |value| > 1 {
        return;
      }
      var newOtp := otp;
      newOtp := newOtp[index := value];
      otp := newOtp;
      error := "";
    }

    /** `handlePaste`: six digits replace the whole row; anything shorter leaves it alone. */
    method Paste(text: string)
      requires Valid()
      modifies this
      ensures Valid()
      ensures |KeepDigits(text)| >= OtpLength ==> otp == Cells(PastedDigits(text))
      ensures |KeepDigits(text)| < OtpLength ==> otp == old(otp)
      ensures error == old(error) && timer == old(timer) && loading == old(loading)
      ensures isAuth == old(isAuth) && user == old(user)
    {
      var digits := PastedDigits(text);
      if |digits| == OtpLength {
        CellsJoinBack(digits);
        otp := Cells(digits);
      }
    }

    /**
     * `handleSubmit`'s guard: an incomplete row sets the error and sends nothing; a complete
     * one starts loading and sends its six digits.
     */
    method Submit() returns (request: Option<string>)
      requires Valid()
      modifies this
      ensures Valid() && otp == old(otp) && timer == old(timer)
      ensures request.Some? <==> forall i :: 0 <= i < OtpLength ==> otp[i] != ""
      ensures request.Some? ==> && request.value == JoinCells(otp) && |request.value| == OtpLength
                                && AllDigits(request.value) && loading && error == old(error)
      ensures request.None? ==> error == IncompleteOtp && loading == old(loading)
      ensures isAuth == old(isAuth) && user == old(user)
    {
      CompleteIffAllFilled(otp);
      var otpString := JoinCells(otp);
      if |otpString| != OtpLength {
        error := IncompleteOtp;
        return None;
      }
      loading := true;
      request := Some(otpString);
    }

    /** The end of the request (`finally`): loading stops, and a refusal or failure is shown. */
    method SubmitFinished(reply: VerifyReply)
      requires Valid()
      modifies this
      ensures Valid() && !loading && otp == old(otp) && timer == old(timer)
      ensures reply.Accepted? ==> error == old(error)
      ensures reply.Refused? ==> error == MessageOr(reply.message, RejectedOtp)
      ensures reply.NetworkError? ==> error == NetworkFailure
      ensures isAuth == old(isAuth) && user == old(user)
    {
      loading := false;
      match reply
      case Accepted(_, _) =>
      case Refused(message) =>
        error := MessageOr(message, RejectedOtp);
      case NetworkError =>
        error := NetworkFailure;
    }

    /**
     * `handleResend`: the error is cleared; a successful resend restarts the countdown, empties
     * the row, stores the reply's `user` (the login reply carries none, so it is `None` there)
     * and marks the context signed in, which redirects to the chat screen; a failed one
     * changes nothing else.
     */
    method Resend(succeeded: bool, replyUser: Option<string>)
      requires Valid()
      modifies this
      ensures Valid() && error == "" && loading == old(loading)
      ensures succeeded ==> timer == ResendDelay && otp == EmptyOtp() && isAuth && user == replyUser
      ensures !succeeded ==> timer == old(timer) && otp == old(otp) && isAuth == old(isAuth) && user == old(user)
    {
      error := "";
      if succeeded {
        timer := ResendDelay;
        otp := EmptyOtp();
        user := replyUser;
        isAuth := true;
      }
    }

    /** One second of the countdown: `setTimer(prev => prev - 1)` while it is positive. */
    method Tick()
      requires Valid()
      modifies this
      ensures Valid() && otp == old(otp) && error == old(error) && loading == old(loading)
      ensures timer == if old(timer) > 0 then old(timer) - 1 else 0
      ensures isAuth == old(isAuth) && user == old(user)
    {
      if timer > 0 {
        timer := timer - 1;
      }
    }
  }
}
