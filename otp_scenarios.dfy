/**
 * Whole sessions with the OTP simulator, each on a fresh table, fixing what the
 * operations do in sequence: single use, lockout after three misses, and the length
 * of the resend cooldown.
 */
module OtpScenarios {
  import opened OtpSimulator

  /** A code verifies once; a second verification right after finds no record. */
  method VerifyIsSingleUse(phone: string, now: int) returns (first: VerifyResponse, second: VerifyResponse)
    requires |phone| >= 10
    ensures first == VerifyResponse(true, VerifiedMessage)
    ensures second == VerifyResponse(false, NotFoundMessage)
  {
    var registry := new OtpRegistry();
    var sent := registry.SendOtp(phone, now);
    first := registry.VerifyOtp(phone, sent.otp, now);
    second := registry.VerifyOtp(phone, sent.otp, now);
  }

  /**
   * Three wrong codes leave the record in place with three attempts; the fourth verification,
   * even with the right code, reports the lockout and deletes the record; only a fifth finds none.
   * "000000" is always wrong, since generated codes never start with a zero.
   */
  method LockoutAfterThreeMisses(phone: string, now: int)
    returns (misses: seq<VerifyResponse>, afterMisses: OtpStatus, fourth: VerifyResponse, fifth: VerifyResponse)
    requires |phone| >= 10
    ensures misses == [
      VerifyResponse(false, MismatchMessage(2)),
      VerifyResponse(false, MismatchMessage(1)),
      VerifyResponse(false, MismatchMessage(0))]
    ensures afterMisses == Present(now + ExpiryMs, MaxAttempts)
    ensures fourth == VerifyResponse(false, MaxAttemptsMessage)
    ensures fifth == VerifyResponse(false, NotFoundMessage)
  {
    var registry := new OtpRegistry();
    var sent := registry.SendOtp(phone, now);
    var code := sent.otp;
    var m1 := registry.VerifyOtp(phone, "000000", now);
    var m2 := registry.VerifyOtp(phone, "000000", now);
    var m3 := registry.VerifyOtp(phone, "000000", now);
    misses := [m1, m2, m3];
    afterMisses := registry.Status(phone);
    fourth := registry.VerifyOtp(phone, code, now);
    fifth := registry.VerifyOtp(phone, code, now);
  }

  /**
   * A resend is refused only during the first minute after issuance; at one minute it succeeds,
   * well before the first code expires, and the new record replaces the old one.
   */
  method ResendAfterOneMinute(phone: string, t: int)
    returns (early: SendResponse, onTime: SendResponse, status: OtpStatus)
    requires |phone| >= 10
    ensures early == SendResponse(false, CooldownMessage(), "")
    ensures onTime.success
    ensures status == Present(t + CooldownMs + ExpiryMs, 0)
  {
    var registry := new OtpRegistry();
    var first := registry.SendOtp(phone, t);
    early := registry.SendOtp(phone, t + CooldownMs - 1);
    onTime := registry.SendOtp(phone, t + CooldownMs);
    status := registry.Status(phone);
  }
}
