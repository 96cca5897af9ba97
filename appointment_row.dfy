/** A `hospitals_appointments` row and the effect of each single-row update
    the mutation hooks of src/hooks/useDatabase.ts send to the store. Each
    update is a pure function from the old row to the new one; the table
    class in module Database applies them. */
module AppointmentRow {
  import opened Common

  /** A calendar day number. */
  type Day = int

  /** `24 * 60 * 60 * 1000`: an issued code stays valid for 24 hours. */
  const OtpLifetimeMs: int := 24 * 60 * 60 * 1000

  /** The generated code is a random whole number in this range. */
  const OtpLow: nat := 100000
  const OtpHigh: nat := 999999

  datatype Status = Scheduled | Confirmed | InProgress | Completed | Cancelled | NoShow

  datatype Appointment = Appointment(
    id: string,
    appointmentNumber: string,
    petPlatformId: string,
    ownerPlatformId: string,
    entityPlatformId: string,
    doctorPlatformId: string,
    date: Option<Day>,            // None: empty or unparsable `appointment_date`
    time: string,
    appointmentType: string,
    status: Status,
    reason: string,
    notes: string,
    bookingSource: string,
    // EMR-access sub-state
    emrAccessGranted: bool,
    otpCode: Option<string>,
    otpExpiresAt: Option<Timestamp>,
    otpVerified: bool,
    otpVerifiedAt: Option<Timestamp>,
    otpSentToOwner: bool,
    otpSentAt: Option<Timestamp>,
    readAccessGrantedAt: Option<Timestamp>,
    writeAccessActive: bool,
    writeAccessStartedAt: Option<Timestamp>,
    writeAccessEndedAt: Option<Timestamp>,
    accessRevoked: bool,
    revokedAt: Option<Timestamp>,
    revokedBy: Option<string>,
    revocationReason: Option<string>
  )

  /** The payload `handleCreateAppointment` hands to `useCreateAppointment`:
      every column the page writes; the store leaves the others null. */
  datatype NewAppointment = NewAppointment(
    petPlatformId: string,
    ownerPlatformId: string,
    entityPlatformId: string,
    doctorPlatformId: string,
    date: Option<Day>,
    time: string,
    appointmentType: string,
    status: Status,
    reason: string,
    notes: string,
    bookingSource: string,
    emrAccessGranted: bool,
    otpVerified: bool,
    otpSentToOwner: bool,
    writeAccessActive: bool,
    accessRevoked: bool
  )

  /** The row the store holds after inserting `p` under identifier `id`. */
  function Inserted(id: string, p: NewAppointment): (a: Appointment)
    ensures a.id == id && a.appointmentNumber == ""
    ensures a.petPlatformId == p.petPlatformId && a.ownerPlatformId == p.ownerPlatformId
    ensures a.entityPlatformId == p.entityPlatformId && a.doctorPlatformId == p.doctorPlatformId
    ensures a.date == p.date && a.time == p.time && a.appointmentType == p.appointmentType
    ensures a.status == p.status && a.reason == p.reason && a.notes == p.notes
    ensures a.bookingSource == p.bookingSource
    ensures a.emrAccessGranted == p.emrAccessGranted && a.otpVerified == p.otpVerified
    ensures a.otpSentToOwner == p.otpSentToOwner && a.writeAccessActive == p.writeAccessActive
    ensures a.accessRevoked == p.accessRevoked
    ensures a.otpCode == None && a.otpExpiresAt == None && a.otpVerifiedAt == None && a.otpSentAt == None
    ensures a.readAccessGrantedAt == None && a.writeAccessStartedAt == None && a.writeAccessEndedAt == None
    ensures a.revokedAt == None && a.revokedBy == None && a.revocationReason == None
  {
    Appointment(id, "", p.petPlatformId, p.ownerPlatformId, p.entityPlatformId,
      p.doctorPlatformId, p.date, p.time, p.appointmentType, p.status, p.reason,
      p.notes, p.bookingSource,
      p.emrAccessGranted, None, None, p.otpVerified, None, p.otpSentToOwner, None,
      None, p.writeAccessActive, None, None, p.accessRevoked, None, None, None)
  }

  // ---------------------------------------------------------------------
  // Field groups, for "nothing else changes"
  // ---------------------------------------------------------------------

  /** Identity, references and scheduling: every column no EMR hook writes. */
  predicate SameBooking(a: Appointment, b: Appointment) {
    && a.id == b.id && a.appointmentNumber == b.appointmentNumber
    && a.petPlatformId == b.petPlatformId && a.ownerPlatformId == b.ownerPlatformId
    && a.entityPlatformId == b.entityPlatformId && a.doctorPlatformId == b.doctorPlatformId
    && a.date == b.date && a.time == b.time && a.appointmentType == b.appointmentType
    && a.reason == b.reason && a.notes == b.notes && a.bookingSource == b.bookingSource
  }

  predicate SameOtpIssue(a: Appointment, b: Appointment) {
    && a.emrAccessGranted == b.emrAccessGranted && a.otpCode == b.otpCode
    && a.otpExpiresAt == b.otpExpiresAt && a.otpSentToOwner == b.otpSentToOwner
    && a.otpSentAt == b.otpSentAt
  }

  predicate SameVerification(a: Appointment, b: Appointment) {
    a.otpVerified == b.otpVerified && a.otpVerifiedAt == b.otpVerifiedAt
    && a.readAccessGrantedAt == b.readAccessGrantedAt
  }

  predicate SameWriteAccess(a: Appointment, b: Appointment) {
    a.writeAccessActive == b.writeAccessActive && a.writeAccessStartedAt == b.writeAccessStartedAt
    && a.writeAccessEndedAt == b.writeAccessEndedAt
  }

  predicate SameRevocation(a: Appointment, b: Appointment) {
    a.accessRevoked == b.accessRevoked && a.revokedAt == b.revokedAt
    && a.revokedBy == b.revokedBy && a.revocationReason == b.revocationReason
  }

  /** The relations between EMR columns that every hook keeps: a flag that is
      set always comes with the columns written beside it. */
  predicate EmrConsistent(a: Appointment) {
    && (a.otpCode.Some? ==> a.emrAccessGranted && a.otpExpiresAt.Some?)
    && (a.otpSentToOwner ==> a.otpCode.Some? && a.otpSentAt.Some?)
    && (a.otpVerified ==> a.otpCode.Some? && a.otpVerifiedAt.Some? && a.readAccessGrantedAt.Some?)
    && (a.writeAccessActive ==> a.writeAccessStartedAt.Some?)
    && (a.status == Completed ==> !a.writeAccessActive && a.writeAccessEndedAt.Some?)
    && (a.accessRevoked ==> a.revokedAt.Some? && a.revokedBy.Some?)
  }

  // ---------------------------------------------------------------------
  // The updates
  // ---------------------------------------------------------------------

  /** `useCancelAppointment`: `{ status: 'cancelled' }`, whatever the status was. */
  function Cancel(a: Appointment): (r: Appointment)
    ensures r.status == Cancelled
    ensures SameBooking(a, r) && SameOtpIssue(a, r) && SameVerification(a, r)
    ensures SameWriteAccess(a, r) && SameRevocation(a, r)
    ensures EmrConsistent(a) ==> EmrConsistent(r)
  {
    a.(status := Cancelled)
  }

  /** `useGenerateEMROTP` (owner self-service): a fresh code valid for 24
      hours, access granted, not marked as sent by the hospital; the sent-at
      column is not written. */
  function GenerateOtp(a: Appointment, code: string, now: Timestamp): (r: Appointment)
    ensures r.otpCode == Some(code) && r.otpExpiresAt == Some(now + OtpLifetimeMs)
    ensures r.emrAccessGranted && !r.otpSentToOwner && r.otpSentAt == a.otpSentAt
    ensures r.status == a.status && SameBooking(a, r) && SameVerification(a, r)
    ensures SameWriteAccess(a, r) && SameRevocation(a, r)
    ensures EmrConsistent(a) ==> EmrConsistent(r)
  {
    a.(otpCode := Some(code), otpExpiresAt := Some(now + OtpLifetimeMs),
       emrAccessGranted := true, otpSentToOwner := false)
  }

  /** `useSendOTPToOwner` (hospital staff): as `GenerateOtp`, but the
      code is marked as sent to the owner now. */
  function SendOtp(a: Appointment, code: string, now: Timestamp): (r: Appointment)
    ensures r.otpCode == Some(code) && r.otpExpiresAt == Some(now + OtpLifetimeMs)
    ensures r.emrAccessGranted && r.otpSentToOwner && r.otpSentAt == Some(now)
    ensures r.status == a.status && SameBooking(a, r) && SameVerification(a, r)
    ensures SameWriteAccess(a, r) && SameRevocation(a, r)
    ensures EmrConsistent(a) ==> EmrConsistent(r)
  {
    a.(otpCode := Some(code), otpExpiresAt := Some(now + OtpLifetimeMs),
       emrAccessGranted := true, otpSentToOwner := true, otpSentAt := Some(now))
  }

  datatype VerifyError = InvalidOtpCode | OtpExpired

  /** The text of the error `useVerifyEMROTP` throws. */
  function VerifyErrorMessage(e: VerifyError): string {
    match e
    case InvalidOtpCode => "Invalid OTP code"
    case OtpExpired => "OTP has expired"
  }

  /** The stored expiry is set and lies strictly before `now`. */
  predicate Expired(a: Appointment, now: Timestamp) {
    a.otpExpiresAt.Some? && a.otpExpiresAt.value < now
  }

  /** `useVerifyEMROTP`: the code check comes first, then the expiry check;
      on success the row is marked verified and read access granted now. */
  function CheckOtp(a: Appointment, code: string, now: Timestamp): (r: Result<Appointment, VerifyError>)
    ensures r.Ok? <==> a.otpCode == Some(code) && !Expired(a, now)
    ensures a.otpCode != Some(code) ==> r == Err(InvalidOtpCode)
    ensures a.otpCode == Some(code) && Expired(a, now) ==> r == Err(OtpExpired)
    ensures r.Ok? ==> r.value.otpVerified && r.value.otpVerifiedAt == Some(now)
                      && r.value.readAccessGrantedAt == Some(now)
    ensures r.Ok? ==> r.value.status == a.status && SameBooking(a, r.value) && SameOtpIssue(a, r.value)
                      && SameWriteAccess(a, r.value) && SameRevocation(a, r.value)
    ensures r.Ok? && EmrConsistent(a) ==> EmrConsistent(r.value)
  {
    if a.otpCode != Some(code) then Err(InvalidOtpCode)
    else if Expired(a, now) then Err(OtpExpired)
    else Ok(a.(otpVerified := true, otpVerifiedAt := Some(now), readAccessGrantedAt := Some(now)))
  }

  /** `useStartConsultation`: in progress with write access, whatever the
      status, verification or revocation state was. */
  function StartConsultation(a: Appointment, now: Timestamp): (r: Appointment)
    ensures r.status == InProgress && r.writeAccessActive && r.writeAccessStartedAt == Some(now)
    ensures r.writeAccessEndedAt == a.writeAccessEndedAt
    ensures SameBooking(a, r) && SameOtpIssue(a, r) && SameVerification(a, r) && SameRevocation(a, r)
    ensures EmrConsistent(a) ==> EmrConsistent(r)
  {
    a.(status := InProgress, writeAccessActive := true, writeAccessStartedAt := Some(now))
  }

  /** `useEndConsultation`: completed, write access off, ended now. */
  function EndConsultation(a: Appointment, now: Timestamp): (r: Appointment)
    ensures r.status == Completed && !r.writeAccessActive && r.writeAccessEndedAt == Some(now)
    ensures r.writeAccessStartedAt == a.writeAccessStartedAt
    ensures SameBooking(a, r) && SameOtpIssue(a, r) && SameVerification(a, r) && SameRevocation(a, r)
    ensures EmrConsistent(a) ==> EmrConsistent(r)
  {
    a.(status := Completed, writeAccessActive := false, writeAccessEndedAt := Some(now))
  }

  /** `useRevokeEMRAccess`: revoked now by `revokedBy`, write access forced
      off, status untouched. An absent reason is an `undefined` value, which
      the JSON request body drops, so the stored reason is then left as it was. */
  function Revoke(a: Appointment, revokedBy: string, reason: Option<string>, now: Timestamp): (r: Appointment)
    ensures r.accessRevoked && r.revokedAt == Some(now) && r.revokedBy == Some(revokedBy)
    ensures r.revocationReason == (if reason.Some? then reason else a.revocationReason)
    ensures !r.writeAccessActive && r.writeAccessStartedAt == a.writeAccessStartedAt
    ensures r.writeAccessEndedAt == a.writeAccessEndedAt
    ensures r.status == a.status && SameBooking(a, r) && SameOtpIssue(a, r) && SameVerification(a, r)
    ensures EmrConsistent(a) ==> EmrConsistent(r)
  {
    a.(accessRevoked := true, revokedAt := Some(now), revokedBy := Some(revokedBy),
       revocationReason := if reason.Some? then reason else a.revocationReason,
       writeAccessActive := false)
  }

  // ---------------------------------------------------------------------
  // What the hooks do not guard
  // ---------------------------------------------------------------------

  /** Starting a consultation does not require a verified code: write access
      becomes active on a row that was never verified. */
  lemma StartWithoutVerification(a: Appointment, now: Timestamp)
    requires !a.otpVerified
    ensures StartConsultation(a, now).writeAccessActive && !StartConsultation(a, now).otpVerified
  {
  }

  /** Revocation is not terminal for write access: starting a consultation on
      a revoked row makes write access active again while it stays revoked. */
  lemma StartAfterRevocation(a: Appointment, revokedBy: string, reason: Option<string>, t1: Timestamp, t2: Timestamp)
    ensures var r := StartConsultation(Revoke(a, revokedBy, reason, t1), t2);
      r.accessRevoked && r.writeAccessActive
  {
  }

  /** Issuing a new code keeps an earlier verification: the row stays verified
      although the stored code is no longer the one that was verified. */
  lemma ReissueKeepsVerification(a: Appointment, code: string, now: Timestamp)
    requires a.otpVerified
    ensures SendOtp(a, code, now).otpVerified && GenerateOtp(a, code, now).otpVerified
  {
  }

  /** Cancellation is not restricted to open appointments: a completed one
      becomes cancelled too. */
  lemma CancelFromAnyStatus(a: Appointment)
    requires a.status == Completed
    ensures Cancel(a).status == Cancelled
  {
  }

  // ---------------------------------------------------------------------
  // The one-time passcode
  // ---------------------------------------------------------------------

  /** Six decimal digits, the first not '0'. */
  predicate IsOtpCode(s: string) {
    |s| == 6 && AllDigits(s) && s[0] != '0'
  }

  /** Every number the generator can draw is written as a six-digit code that
      reads back as the same number. */
  lemma OtpCodeOf(n: nat)
    requires OtpLow <= n <= OtpHigh
    ensures IsOtpCode(DecimalString(n))
    ensures DigitsValue(DecimalString(n)) == n
  {
    assert Pow10(5) == 100000 && Pow10(6) == 1000000;
    DecimalLength(n, 6);
    DecimalRoundTrip(n);
  }
}
