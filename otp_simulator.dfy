/**
 * The one-time-password simulator: a table from phone number to the code issued for it,
 * its expiry time and the number of failed attempts. Codes are issued with a resend
 * cooldown, verified at most once, locked after too many wrong guesses, and swept once
 * expired. Time is the caller's clock reading `now`, in integer milliseconds.
 */
module OtpSimulator {
  import opened Decimal
  import Validations

  // OTP_CONFIG
  const OtpLength: nat := 6
  const ExpiryMinutes: nat := 10
  const MaxAttempts: nat := 3
  const ResendCooldownMinutes: nat := 1

  const MinuteMs: nat := 60 * 1000
  const ExpiryMs: nat := ExpiryMinutes * MinuteMs
  const CooldownMs: nat := ResendCooldownMinutes * MinuteMs

  datatype OtpData = OtpData(phone: string, otp: string, expiresAt: int, attempts: nat)

  /** The time a record was issued: issuance stores expiresAt = issue time + ExpiryMs. */
  function IssuedAt(r: OtpData): int {
    r.expiresAt - ExpiryMs
  }

  /** The shape of every stored record: keyed by its own phone, a code as generated, attempts bounded. */
  predicate RecordValid(key: string, r: OtpData) {
    && r.phone == key
    && |key| >= 10
    && Validations.ValidOtp(r.otp) && r.otp[0] != '0'
    && r.attempts <= MaxAttempts
  }

  /** Cooldown test on one record: the cut-off is expiresAt minus the non-cooldown part of the window. */
  function InCooldownAt(r: OtpData, now: int): (cooling: bool)
    ensures cooling <==> now < IssuedAt(r) + CooldownMs
  {
    now < r.expiresAt - (ExpiryMinutes - ResendCooldownMinutes) * MinuteMs
  }

  /** A record cools down for the first minute after issuance and expires ten minutes after it. */
  lemma CooldownPrecedesExpiry(r: OtpData, now: int)
    ensures InCooldownAt(r, now) ==> now < r.expiresAt
    ensures now >= IssuedAt(r) + CooldownMs ==> !InCooldownAt(r, now)
  {
  }

  /** Whether verifying `otp` for `phone` against table `m` at `now` would succeed. */
  predicate Verifiable(m: map<string, OtpData>, phone: string, otp: string, now: int) {
    phone in m && now <= m[phone].expiresAt && m[phone].attempts < MaxAttempts && m[phone].otp == otp
  }

  /** The records a sweep at `now` keeps: exactly those that have not expired, unchanged. */
  function Unexpired(m: map<string, OtpData>, now: int): (kept: map<string, OtpData>)
    ensures forall p :: p in kept <==> p in m && now <= m[p].expiresAt
    ensures forall p :: p in kept ==> kept[p] == m[p]
  {
    map p | p in m && !(now > m[p].expiresAt) :: m[p]
  }

  /** Sweeping never changes the outcome of a verification at the same instant. */
  lemma SweepPreservesVerifiable(m: map<string, OtpData>, phone: string, otp: string, now: int)
    ensures Verifiable(Unexpired(m, now), phone, otp, now) <==> Verifiable(m, phone, otp, now)
  {
  }

  /** A second sweep at the same or a later time removes no more than a single sweep at that later time. */
  lemma SweepsCompose(m: map<string, OtpData>, t1: int, t2: int)
    requires t1 <= t2
    ensures Unexpired(Unexpired(m, t1), t2) == Unexpired(m, t2)
  {
  }

  datatype SendResponse = SendResponse(success: bool, message: string, otp: string)
  datatype VerifyResponse = VerifyResponse(success: bool, message: string)
  datatype OtpStatus = Absent | Present(expiresAt: int, attempts: nat)

  const InvalidPhoneMessage := "Invalid phone number"
  const RequiredMessage := "Phone number and OTP are required"
  const NotFoundMessage := "OTP not found or expired. Please request a new one."
  const ExpiredMessage := "OTP has expired. Please request a new one."
  const MaxAttemptsMessage := "Maximum attempts exceeded. Please request a new OTP."
  const VerifiedMessage := "OTP verified successfully! Welcome to Gemini AI!"

  function SentMessage(phone: string): string {
    "OTP sent successfully to " + phone + "! Check your SMS."
  }

  function MismatchMessage(remaining: nat): string {
    "Invalid OTP. " + DecimalString(remaining) + " attempts remaining."
  }

  /** `Math.ceil(a / b)` for a non-negative `a` and a positive `b`. */
  function CeilDiv(a: nat, b: nat): (q: nat)
    requires b > 0
    ensures q * b >= a && (q == 0 || (q - 1) * b < a)
  {
    (a + b - 1) / b
  }

  /** The wait the cooldown message announces, as written: `ceil(RESEND_COOLDOWN_MINUTES * 60 / 1000)`. */
  function CooldownWaitSeconds(): nat {
    CeilDiv(ResendCooldownMinutes * 60, 1000)
  }

  function CooldownMessage(): string {
    "Please wait " + DecimalString(CooldownWaitSeconds()) + " seconds before requesting another OTP"
  }

  /** As written, the message always announces one second, yet a code issued at `t` still cools down a second later. */
  lemma CooldownOutlastsItsMessage(r: OtpData, t: int)
    requires r.expiresAt == t + ExpiryMs
    ensures CooldownWaitSeconds() == 1
    ensures DecimalString(CooldownWaitSeconds()) == "1"
    ensures InCooldownAt(r, t + 1000 * CooldownWaitSeconds())
  {
    assert CooldownWaitSeconds() == 1;
    assert DecimalString(1) == "1";
  }

  /**
   * The wait the message evidently means: the whole seconds left until the cooldown ends.
   * Waiting that long always ends the cooldown, a second less never does, and it is at most
   * the one-minute cooldown when the clock has not gone back since issuance.
   */
  function RemainingCooldownSeconds(r: OtpData, now: int): (secs: nat)
    requires InCooldownAt(r, now)
    ensures secs >= 1
    ensures !InCooldownAt(r, now + 1000 * secs)
    ensures InCooldownAt(r, now + 1000 * (secs - 1))
    ensures now >= IssuedAt(r) ==> secs <= CooldownMs / 1000
  {
    CeilDiv(IssuedAt(r) + CooldownMs - now, 1000)
  }

  /**
   * `generateOTP`: `Math.floor(100000 + Math.random() * 900000)` rendered in base 10, i.e. the
   * numeral of some integer in [100000, 999999]; the random draw is a nondeterministic choice.
   */
  method GenerateOtp() returns (otp: string)
    ensures Validations.ValidOtp(otp) && |otp| == OtpLength && otp[0] != '0'
    ensures 100000 <= ParseDecimal(otp) <= 999999
    ensures forall isEmail: string -> bool :: Validations.OtpSchemaAccepts(otp, isEmail)
  {
    var n: nat :| 100000 <= n <= 999999;
    otp := DecimalString(n);
    GeneratedCodeShape(n);
    ParseDecimalString(n);
    forall isEmail: string -> bool ensures Validations.OtpSchemaAccepts(otp, isEmail) {
      Validations.OtpChecksSpec(otp, isEmail);
    }
  }

  /** The numerals of [100000, 999999] are exactly the six-digit strings without a leading zero. */
  lemma GeneratedCodeShape(n: nat)
    ensures 100000 <= n <= 999999 <==> (Validations.ValidOtp(DecimalString(n)) && DecimalString(n)[0] != '0')
  {
    var s := DecimalString(n);
    if 100000 <= n <= 999999 {
      assert Pow10(5) == 100000 && Pow10(6) == 1000000;
      DecimalStringLength(n, 5);
    }
    if Validations.ValidOtp(s) && s[0] != '0' {
      ParseDecimalString(n);
      ParseDecimalLowerBound(s);
      assert Pow10(5) == 100000 && Pow10(6) == 1000000;
    }
  }

  /** Every phone the sign-up, login and phone forms accept passes the simulator's own length check. */
  lemma SchemaPhonePassesLengthCheck(phone: string, isEmail: string -> bool)
    requires Validations.Accepts(Validations.PhoneChecks, phone, isEmail)
    ensures !(|phone| < 10)
  {
    Validations.PhoneChecksSpec(phone, isEmail);
  }

  /** The module-level `otpStorage` map and the operations over it. */
  class OtpRegistry {
    var storage: map<string, OtpData>

    ghost predicate Valid()
      reads this
    {
      forall p :: p in storage ==> RecordValid(p, storage[p])
    }

    constructor ()
      ensures Valid() && storage == map[]
    {
      storage := map[];
    }

    /** `isInCooldown`: a record exists for the phone and was issued less than a minute ago. */
    function IsInCooldown(phone: string, now: int): (cooling: bool)
      reads this
      ensures cooling <==> phone in storage && now < IssuedAt(storage[phone]) + CooldownMs
    {
      phone in storage && InCooldownAt(storage[phone], now)
    }

    /** `getOTPStatus`. */
    function Status(phone: string): (s: OtpStatus)
      reads this
      ensures s.Absent? <==> phone !in storage
      ensures s.Present? ==> s.expiresAt == storage[phone].expiresAt && s.attempts == storage[phone].attempts
      ensures Valid() && s.Present? ==> s.attempts <= MaxAttempts
    {
      if phone in storage then Present(storage[phone].expiresAt, storage[phone].attempts) else Absent
    }

    /** `sendOTP`. */
    method SendOtp(phone: string, now: int) returns (r: SendResponse)
      requires Valid()
      modifies this
      ensures Valid()
      ensures storage - {phone} == old(storage) - {phone}
      ensures r.success <==> |phone| >= 10 && !old(IsInCooldown(phone, now))
      ensures |phone| < 10 ==> r == SendResponse(false, InvalidPhoneMessage, "") && storage == old(storage)
      ensures |phone| >= 10 && old(IsInCooldown(phone, now)) ==>
        r == SendResponse(false, CooldownMessage(), "") && storage == old(storage)
      ensures r.success ==>
        && r.message == SentMessage(phone)
        && Validations.ValidOtp(r.otp) && r.otp[0] != '0'
        && storage == old(storage)[phone := OtpData(phone, r.otp, now + ExpiryMs, 0)]
        && Status(phone) == Present(now + ExpiryMs, 0)
    {
      if |phone| < 10 {
        return SendResponse(false, InvalidPhoneMessage, "");
      }
      if IsInCooldown(phone, now) {
        return SendResponse(false, CooldownMessage(), "");
      }
      var otp := GenerateOtp();
      var expiresAt := now + ExpiryMinutes * 60 * 1000;
      storage := storage[phone := OtpData(phone, otp, expiresAt, 0)];
      r := SendResponse(true, SentMessage(phone), otp);
    }

    /** `verifyOTP`. */
    method VerifyOtp(phone: string, otp: string, now: int) returns (r: VerifyResponse)
      requires Valid()
      modifies this
      ensures Valid()
      ensures storage - {phone} == old(storage) - {phone}
      ensures r.success <==> Verifiable(old(storage), phone, otp, now)
      ensures r.success ==> Status(phone) == Absent
      ensures phone == "" || otp == "" ==> r == VerifyResponse(false, RequiredMessage) && storage == old(storage)
      ensures phone != "" && otp != "" && phone !in old(storage) ==>
        r == VerifyResponse(false, NotFoundMessage) && storage == old(storage)
      ensures phone != "" && otp != "" && phone in old(storage) ==>
        var rec := old(storage)[phone];
        if now > rec.expiresAt then
          r == VerifyResponse(false, ExpiredMessage) && phone !in storage
        else if rec.attempts >= MaxAttempts then
          r == VerifyResponse(false, MaxAttemptsMessage) && phone !in storage
        else if rec.otp == otp then
          r == VerifyResponse(true, VerifiedMessage) && phone !in storage
        else
          && r == VerifyResponse(false, MismatchMessage(MaxAttempts - (rec.attempts + 1)))
          && storage == old(storage)[phone := rec.(attempts := rec.attempts + 1)]
    {
      if phone == "" || otp == "" {
        return VerifyResponse(false, RequiredMessage);
      }
      if phone !in storage {
        return VerifyResponse(false, NotFoundMessage);
      }
      var stored := storage[phone];
      if now > stored.expiresAt {
        storage := storage - {phone};
        return VerifyResponse(false, ExpiredMessage);
      }
      if stored.attempts >= MaxAttempts {
        storage := storage - {phone};
        return VerifyResponse(false, MaxAttemptsMessage);
      }
      if stored.otp == otp {
        storage := storage - {phone};
        return VerifyResponse(true, VerifiedMessage);
      }
      stored := stored.(attempts := stored.attempts + 1);
      storage := storage[phone := stored];
      var remainingAttempts := MaxAttempts - stored.attempts;
      r := VerifyResponse(false, MismatchMessage(remainingAttempts));
    }

    /** `cleanupExpiredOTPs`: deletes, entry by entry, every record whose expiry has passed. */
    method CleanupExpired(now: int)
      requires Valid()
      modifies this
      ensures Valid()
      ensures storage == Unexpired(old(storage), now)
    {
      ghost var before := storage;
      var pending := storage.Keys;
      while pending != {}
        invariant pending <= before.Keys
        invariant forall p :: p in storage <==> p in before && (p in pending || now <= before[p].expiresAt)
        invariant forall p :: p in storage ==> storage[p] == before[p]
        decreases pending
      {
        var p :| p in pending;
        if now > storage[p].expiresAt {
          storage := storage - {p};
        }
        pending := pending - {p};
      }
    }
  }
}
