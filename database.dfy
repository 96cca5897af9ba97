/** The `hospitals_appointments` table as the hooks of src/hooks/useDatabase.ts
    see it: each mutation hook is one update of one row, selected by id and
    read back with `.single()` (a missing row is an error); and the read-side
    join that attaches pet, owner and doctor records to fetched appointments. */
module Database {
  import opened Common
  import opened Directory
  import opened AppointmentRow

  datatype StoreError =
    | RowNotFound                      // `.single()` found no row with that id
    | DuplicateKey                     // the insert clashed with an existing id
    | OtpRejected(reason: VerifyError) // `useVerifyEMROTP` threw before updating

  class AppointmentsTable {
    var rows: map<string, Appointment>

    /** Each row is stored under its own identifier. */
    ghost predicate Valid()
      reads this
    {
      forall k :: k in rows ==> rows[k].id == k
    }

    /** Every row satisfies the EMR column relations. */
    ghost predicate AllConsistent()
      reads this
    {
      forall k :: k in rows ==> EmrConsistent(rows[k])
    }

    constructor ()
      ensures Valid() && AllConsistent() && rows == map[]
    {
      rows := map[];
    }

    /** `useCreateAppointment`: insert the payload under the identifier the
        store generates. */
    method CreateAppointment(id: string, p: NewAppointment) returns (r: Result<Appointment, StoreError>)
      requires Valid()
      modifies this
      ensures Valid()
      ensures id in old(rows) ==> r == Err(DuplicateKey) && rows == old(rows)
      ensures id !in old(rows) ==> r == Ok(Inserted(id, p)) && rows == old(rows)[id := Inserted(id, p)]
      ensures old(AllConsistent()) && EmrConsistent(Inserted(id, p)) ==> AllConsistent()
    {
      if id in rows {
        return Err(DuplicateKey);
      }
      var row := Inserted(id, p);
      rows := rows[id := row];
      r := Ok(row);
    }

    /** `useCancelAppointment`. */
    method CancelAppointment(id: string) returns (r: Result<Appointment, StoreError>)
      requires Valid()
      modifies this
      ensures Valid()
      ensures id !in old(rows) ==> r == Err(RowNotFound) && rows == old(rows)
      ensures id in old(rows) ==> r == Ok(Cancel(old(rows)[id])) && rows == old(rows)[id := r.value]
      ensures old(AllConsistent()) ==> AllConsistent()
    {
      if id !in rows {
        return Err(RowNotFound);
      }
      var row := Cancel(rows[id]);
      rows := rows[id := row];
      r := Ok(row);
    }

    /** `useGenerateEMROTP`: the code is a number drawn from 100000..999999
        and written in decimal. */
    method GenerateEmrOtp(id: string, now: Timestamp) returns (r: Result<Appointment, StoreError>)
      requires Valid()
      modifies this
      ensures Valid()
      ensures id !in old(rows) ==> r == Err(RowNotFound) && rows == old(rows)
      ensures id in old(rows) ==>
        && r.Ok? && r.value.otpCode.Some? && IsOtpCode(r.value.otpCode.value)
        && r.value == GenerateOtp(old(rows)[id], r.value.otpCode.value, now)
        && rows == old(rows)[id := r.value]
      ensures old(AllConsistent()) ==> AllConsistent()
    {
      var n :| OtpLow <= n <= OtpHigh;
      var code := DecimalString(n);
      OtpCodeOf(n);
      if id !in rows {
        return Err(RowNotFound);
      }
      var row := GenerateOtp(rows[id], code, now);
      rows := rows[id := row];
      r := Ok(row);
    }

    /** `useSendOTPToOwner`: as `GenerateEmrOtp`, marked as sent to the owner.
        Delivering the code to the owner is not part of the hook. */
    method SendOtpToOwner(id: string, now: Timestamp) returns (r: Result<Appointment, StoreError>)
      requires Valid()
      modifies this
      ensures Valid()
      ensures id !in old(rows) ==> r == Err(RowNotFound) && rows == old(rows)
      ensures id in old(rows) ==>
        && r.Ok? && r.value.otpCode.Some? && IsOtpCode(r.value.otpCode.value)
        && r.value == SendOtp(old(rows)[id], r.value.otpCode.value, now)
        && rows == old(rows)[id := r.value]
      ensures old(AllConsistent()) ==> AllConsistent()
    {
      var n :| OtpLow <= n <= OtpHigh;
      var code := DecimalString(n);
      OtpCodeOf(n);
      if id !in rows {
        return Err(RowNotFound);
      }
      var row := SendOtp(rows[id], code, now);
      rows := rows[id := row];
      r := Ok(row);
    }

    /** `useVerifyEMROTP`: fetch the row, check the code and then the expiry,
        and only then write; a rejected code leaves the table unchanged. */
    method VerifyEmrOtp(id: string, code: string, now: Timestamp) returns (r: Result<Appointment, StoreError>)
      requires Valid()
      modifies this
      ensures Valid()
      ensures id !in old(rows) ==> r == Err(RowNotFound) && rows == old(rows)
      ensures id in old(rows) && CheckOtp(old(rows)[id], code, now).Err? ==>
        r == Err(OtpRejected(CheckOtp(old(rows)[id], code, now).error)) && rows == old(rows)
      ensures id in old(rows) && CheckOtp(old(rows)[id], code, now).Ok? ==>
        r == Ok(CheckOtp(old(rows)[id], code, now).value) && rows == old(rows)[id := r.value]
      ensures old(AllConsistent()) ==> AllConsistent()
    {
      if id !in rows {
        return Err(RowNotFound);
      }
      var checked := CheckOtp(rows[id], code, now);
      if checked.Err? {
        return Err(OtpRejected(checked.error));
      }
      rows := rows[id := checked.value];
      r := Ok(checked.value);
    }

    /** `useStartConsultation`: unconditional. */
    method StartConsultation(id: string, now: Timestamp) returns (r: Result<Appointment, StoreError>)
      requires Valid()
      modifies this
      ensures Valid()
      ensures id !in old(rows) ==> r == Err(RowNotFound) && rows == old(rows)
      ensures id in old(rows) ==>
        && r == Ok(AppointmentRow.StartConsultation(old(rows)[id], now))
        && rows == old(rows)[id := r.value]
      ensures old(AllConsistent()) ==> AllConsistent()
    {
      if id !in rows {
        return Err(RowNotFound);
      }
      var row := AppointmentRow.StartConsultation(rows[id], now);
      rows := rows[id := row];
      r := Ok(row);
    }

    /** `useEndConsultation`: unconditional. */
    method EndConsultation(id: string, now: Timestamp) returns (r: Result<Appointment, StoreError>)
      requires Valid()
      modifies this
      ensures Valid()
      ensures id !in old(rows) ==> r == Err(RowNotFound) && rows == old(rows)
      ensures id in old(rows) ==>
        && r == Ok(AppointmentRow.EndConsultation(old(rows)[id], now))
        && rows == old(rows)[id := r.value]
      ensures old(AllConsistent()) ==> AllConsistent()
    {
      if id !in rows {
        return Err(RowNotFound);
      }
      var row := AppointmentRow.EndConsultation(rows[id], now);
      rows := rows[id := row];
      r := Ok(row);
    }

    /** `useRevokeEMRAccess`. */
    method RevokeEmrAccess(id: string, revokedBy: string, reason: Option<string>, now: Timestamp)
      returns (r: Result<Appointment, StoreError>)
      requires Valid()
      modifies this
      ensures Valid()
      ensures id !in old(rows) ==> r == Err(RowNotFound) && rows == old(rows)
      ensures id in old(rows) ==>
        && r == Ok(Revoke(old(rows)[id], revokedBy, reason, now))
        && rows == old(rows)[id := r.value]
      ensures old(AllConsistent()) ==> AllConsistent()
    {
      if id !in rows {
        return Err(RowNotFound);
      }
      var row := Revoke(rows[id], revokedBy, reason, now);
      rows := rows[id := row];
      r := Ok(row);
    }
  }

  // ---------------------------------------------------------------------
  // useAppointmentsWithDetails
  // ---------------------------------------------------------------------

  /** An appointment with its pet, owner and doctor records (`undefined` is None). */
  datatype AppointmentWithDetails = AppointmentWithDetails(
    appointment: Appointment,
    pet: Option<Pet>,
    owner: Option<Profile>,
    doctor: Option<Profile>
  )

  /** One entry: look the pet and owner up by platform id; the doctor only
      when the appointment names one. */
  function Details(a: Appointment, pets: seq<Pet>, owners: seq<Profile>, doctors: seq<Profile>): AppointmentWithDetails
  {
    AppointmentWithDetails(a,
      Get(Index(pets, PetKey), a.petPlatformId),
      Get(Index(owners, ProfileKey), a.ownerPlatformId),
      if Truthy(a.doctorPlatformId) then Get(Index(doctors, ProfileKey), a.doctorPlatformId) else None)
  }

  /** The join over the fetched appointments and the pet, owner and doctor
      lists fetched for their identifiers. */
  function AttachDetails(apts: seq<Appointment>, pets: seq<Pet>, owners: seq<Profile>, doctors: seq<Profile>)
    : (r: seq<AppointmentWithDetails>)
    ensures |r| == |apts|
  {
    if apts == [] then []
    else seq(|apts|, i requires 0 <= i < |apts| => Details(apts[i], pets, owners, doctors))
  }

  /** Entry `i` of the join keeps appointment `i` unchanged; its pet is the
      last fetched pet with the appointment's pet id, and is absent exactly
      when no fetched pet has that id; the owner likewise; the doctor is absent
      when the appointment names no doctor, and is otherwise the last fetched
      doctor profile with that id. */
  lemma AttachDetailsSpec(apts: seq<Appointment>, pets: seq<Pet>, owners: seq<Profile>, doctors: seq<Profile>, i: nat)
    requires i < |apts|
    ensures var d := AttachDetails(apts, pets, owners, doctors)[i];
      && d.appointment == apts[i]
      && (d.pet.Some? <==> exists j :: 0 <= j < |pets| && pets[j].petPlatformId == apts[i].petPlatformId)
      && (d.pet.Some? ==> exists j :: LastWithKey(pets, PetKey, apts[i].petPlatformId, j) && d.pet.value == pets[j])
      && (d.owner.Some? <==> exists j :: 0 <= j < |owners| && owners[j].userPlatformId == apts[i].ownerPlatformId)
      && (d.owner.Some? ==> exists j :: LastWithKey(owners, ProfileKey, apts[i].ownerPlatformId, j) && d.owner.value == owners[j])
      && (!Truthy(apts[i].doctorPlatformId) ==> d.doctor == None)
      && (Truthy(apts[i].doctorPlatformId) ==>
            (d.doctor.Some? <==> exists j :: 0 <= j < |doctors| && doctors[j].userPlatformId == apts[i].doctorPlatformId))
      && (d.doctor.Some? ==> exists j :: LastWithKey(doctors, ProfileKey, apts[i].doctorPlatformId, j) && d.doctor.value == doctors[j])
  {
    var a := apts[i];
    LookupIsLast(pets, PetKey, a.petPlatformId);
    LookupIsLast(owners, ProfileKey, a.ownerPlatformId);
    LookupIsLast(doctors, ProfileKey, a.doctorPlatformId);
  }
}
