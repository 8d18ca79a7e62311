/** The one-time-code table of src/app/actions.ts: generateOtpAction writes
    one row per email (replacing any earlier one) and verifyOtpAction checks a
    code against it, deleting the row when the code is accepted. */
module OtpActions {
  import opened Common
  import opened Db

  /** Five minutes in milliseconds (actions.ts:504). */
  const OtpLifetimeMs: nat := 5 * 60 * 1000

  /** `Math.floor(100000 + r * 900000)` for `r = Math.random()`. */
  function OtpNumber(r: real): (n: int)
    requires 0.0 <= r < 1.0
    ensures 100000 <= n <= 999999
  {
    (100000.0 + r * 900000.0).Floor
  }

  function DigitChar(d: nat): char
    requires d < 10
  {
    ('0' as int + d) as char
  }

  /** `n.toString()` for a non-negative integer. */
  function DecimalString(n: nat): (s: string)
    ensures |s| >= 1
    ensures forall i :: 0 <= i < |s| ==> '0' <= s[i] <= '9'
  {
    if n < 10 then [DigitChar(n)] else DecimalString(n / 10) + [DigitChar(n % 10)]
  }

  function Pow10(k: nat): (p: nat)
    ensures p >= 1
  {
    if k == 0 then 1 else 10 * Pow10(k - 1)
  }

  /** A number with k digits prints as exactly k characters. */
  lemma {:induction false} DecimalLength(n: nat, k: nat)
    requires k >= 1 && Pow10(k - 1) <= n < Pow10(k)
    ensures |DecimalString(n)| == k
  {
    if k > 1 {
      assert n >= 10 by {
        assert Pow10(k - 1) == 10 * Pow10(k - 2);
      }
      assert Pow10(k) == 10 * Pow10(k - 1);
      assert Pow10(k - 1) == 10 * Pow10(k - 2);
      DecimalLength(n / 10, k - 1);
    } else {
      assert Pow10(1) == 10;
    }
  }

  /** Reads decimal digits back into a number. */
  function ParseDecimal(s: string): nat
    requires forall i :: 0 <= i < |s| ==> '0' <= s[i] <= '9'
  {
    if s == [] then 0 else 10 * ParseDecimal(s[..|s| - 1]) + (s[|s| - 1] as int - '0' as int)
  }

  /** The printed number reads back as itself. */
  lemma {:induction false} DecimalRoundTrip(n: nat)
    ensures ParseDecimal(DecimalString(n)) == n
  {
    if n >= 10 {
      var s := DecimalString(n);
      assert s[..|s| - 1] == DecimalString(n / 10);
      DecimalRoundTrip(n / 10);
    }
  }

  /** The row generateOtpAction stores for a draw `r` at instant `nowMs`. */
  function IssuedRow(r: real, nowMs: nat): OtpRow
    requires 0.0 <= r < 1.0
  {
    OtpRow(DecimalString(OtpNumber(r)), nowMs + OtpLifetimeMs)
  }

  /** Every generated code is six decimal digits, the length the OTP forms demand. */
  lemma IssuedCodeHasSixDigits(r: real, nowMs: nat)
    requires 0.0 <= r < 1.0
    ensures |IssuedRow(r, nowMs).code| == 6
    ensures forall i :: 0 <= i < 6 ==> '0' <= IssuedRow(r, nowMs).code[i] <= '9'
  {
    assert Pow10(5) == 100000 && Pow10(6) == 1000000 by {
      assert Pow10(1) == 10 && Pow10(2) == 100 && Pow10(3) == 1000 && Pow10(4) == 10000;
    }
    DecimalLength(OtpNumber(r), 6);
  }

  datatype OtpVerdict = InvalidOtp | ExpiredOtp | Verified

  /** The checks of verifyOtpAction (actions.ts:529-532), in their order. */
  function CheckOtp(otps: map<string, OtpRow>, email: string, otp: string, nowMs: int): OtpVerdict {
    if email !in otps || otps[email].code != otp then InvalidOtp
    else if nowMs > otps[email].expiresAtMs then ExpiredOtp
    else Verified
  }

  function OtpReply(v: OtpVerdict): ActionResult {
    match v
    case InvalidOtp => FailedWithMessage("Invalid OTP")
    case ExpiredOtp => FailedWithMessage("OTP expired")
    case Verified => Succeeded("OTP verified!")
  }

  const GenerateFailed := "Error generating OTP. Please try again."

  /** generateOtpAction (actions.ts:502-524) with `Math.random()` as `r` and
      `Date.now()` as `nowMs`: create the row, or on the unique-email
      violation update the existing one. `storeError` says whether the
      create fails for any other reason, which the action reports. */
  method GenerateOtpAction(db: Database, email: string, r: real, nowMs: nat, storeError: bool)
    returns (result: ActionResult, otp: string)
    requires 0.0 <= r < 1.0
    modifies db
    ensures otp == IssuedRow(r, nowMs).code && |otp| == 6
    ensures storeError ==> result == FailedWithMessage(GenerateFailed) && db.otps == old(db.otps)
    ensures !storeError ==> result == Succeeded("OTP sent successfully!")
                            && db.otps == old(db.otps)[email := IssuedRow(r, nowMs)]
    ensures unchanged(db`users, db`posts, db`portfolios, db`sessionRows)
  {
    otp := DecimalString(OtpNumber(r));
    IssuedCodeHasSixDigits(r, nowMs);
    var expiresAt := nowMs + OtpLifetimeMs;
    if storeError {
      return FailedWithMessage(GenerateFailed), otp;
    }
    // The create, and the update after a unique-email violation, write the same row.
    db.otps := db.otps[email := OtpRow(otp, expiresAt)];
    result := Succeeded("OTP sent successfully!");
  }

  /** verifyOtpAction (actions.ts:528-537) at instant `nowMs`. */
  method VerifyOtpAction(db: Database, email: string, otp: string, nowMs: int) returns (result: ActionResult)
    modifies db
    ensures result == OtpReply(CheckOtp(old(db.otps), email, otp, nowMs))
    ensures db.otps == if CheckOtp(old(db.otps), email, otp, nowMs) == Verified
                       then old(db.otps) - {email} else old(db.otps)
    ensures unchanged(db`users, db`posts, db`portfolios, db`sessionRows)
  {
    if email !in db.otps || db.otps[email].code != otp {
      return FailedWithMessage("Invalid OTP");
    }
    if nowMs > db.otps[email].expiresAtMs {
      return FailedWithMessage("OTP expired");
    }
    db.otps := db.otps - {email};
    result := Succeeded("OTP verified!");
  }

  /** A freshly generated code is accepted up to and including its expiry
      instant, reported expired after it, and any other code is invalid. */
  lemma VerifyAfterGenerate(otps: map<string, OtpRow>, email: string, r: real, t: nat, guess: string, later: int)
    requires 0.0 <= r < 1.0
    ensures CheckOtp(otps[email := IssuedRow(r, t)], email, guess, later)
            == if guess != IssuedRow(r, t).code then InvalidOtp
               else if later > t + OtpLifetimeMs then ExpiredOtp
               else Verified
  {
  }

  /** Codes are single use: once one is accepted, the same or any other code
      for that email is invalid until a new one is generated. */
  lemma SingleUse(otps: map<string, OtpRow>, email: string, otp: string, nowMs: int, again: string, later: int)
    requires CheckOtp(otps, email, otp, nowMs) == Verified
    ensures CheckOtp(otps - {email}, email, again, later) == InvalidOtp
  {
  }

  /** Generating again for the same email replaces the row: the earlier
      code stops working unless the new draw printed the same code. */
  lemma RegenerateReplaces(otps: map<string, OtpRow>, email: string, r1: real, t1: nat, r2: real, t2: nat, later: int)
    requires 0.0 <= r1 < 1.0 && 0.0 <= r2 < 1.0
    requires IssuedRow(r1, t1).code != IssuedRow(r2, t2).code
    ensures CheckOtp(otps[email := IssuedRow(r1, t1)][email := IssuedRow(r2, t2)], email, IssuedRow(r1, t1).code, later)
            == InvalidOtp
  {
  }
}
