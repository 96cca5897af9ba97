/** The client-side rules of the appointments page
    (src/app/core/appointments/page.tsx): the unified pet/owner search, the
    new-appointment form and its validation, the start-consultation date
    guard, the OTP dialog, the row actions, the text filter and the time
    formatting. Remote queries are inputs; store updates go through the
    table of module Database. */
module AppointmentsPage {
  import opened Common
  import opened Directory
  import opened AppointmentRow
  import opened Database

  // ---------------------------------------------------------------------
  // Unified search (performUnifiedSearch)
  // ---------------------------------------------------------------------

  /** What a remote query returned: its rows, or an error. */
  datatype Query<T> = Rows(rows: seq<T>) | Failed

  /** The answers of the four queries the search may issue, in order: pets
      matching the text, owners matching the text, pets of those owners, and
      the owners of the merged pets. */
  datatype SearchResponses = SearchResponses(
    petsByPet: Query<Pet>,
    ownerMatches: Query<Profile>,
    ownerPets: Query<Pet>,
    owners: Query<Profile>
  )

  /** A query the search issues. */
  datatype Lookup =
    | SearchPets(text: string)
    | SearchOwners(text: string)
    | PetsOfOwners(ownerIds: seq<string>)
    | OwnersById(ownerIds: seq<string>)

  /** One entry of the result list: a pet and its owner (`null` is None). */
  datatype SearchResult = SearchResult(pet: Pet, owner: Option<Profile>)

  datatype SearchOutcome = SearchOutcome(lookups: seq<Lookup>, results: seq<SearchResult>)

  /** The keys of the list with the falsy ones dropped, in order, repeats kept. */
  function TruthyKeys<T>(xs: seq<T>, key: T -> string): (ks: seq<string>)
    ensures forall k :: k in ks <==> k != "" && exists i :: 0 <= i < |xs| && key(xs[i]) == k
  {
    if xs == [] then []
    else
      var rest := TruthyKeys(xs[1..], key);
      assert forall i :: 1 <= i < |xs| ==> xs[i] == xs[1..][i - 1];
      if key(xs[0]) != "" then [key(xs[0])] + rest else rest
  }

  /** The owner paired with `pet`: looked up only when the pet names one. */
  function OwnerOf(pet: Pet, ownersMap: map<string, Profile>): Option<Profile> {
    if Truthy(pet.ownerPlatformId) then Get(ownersMap, pet.ownerPlatformId) else None
  }

  /** Each merged pet paired with the owner the owner map holds for its owner id. */
  function Pair(pets: seq<Pet>, ownersMap: map<string, Profile>): (r: seq<SearchResult>)
    ensures |r| == |pets|
  {
    seq(|pets|, i requires 0 <= i < |pets| => SearchResult(pets[i], OwnerOf(pets[i], ownersMap)))
  }

  /** The pets found through matching owners; an error of that query is
      ignored, and no query is made when no owner matched. */
  function PetsByOwner(resp: SearchResponses): seq<Pet>
    requires resp.ownerMatches.Rows?
  {
    if |resp.ownerMatches.rows| > 0 && resp.ownerPets.Rows? then resp.ownerPets.rows else []
  }

  /** The merged pet list: text matches first, then owner matches, one per
      truthy pet id, a later record replacing an earlier one. */
  function MergedPets(resp: SearchResponses): seq<Pet>
    requires resp.petsByPet.Rows? && resp.ownerMatches.Rows?
  {
    ValuesInOrder(resp.petsByPet.rows + PetsByOwner(resp), PetKey)
  }

  /** The whole search: queries issued and results shown. Any error of the
      pet, owner or final owner query is caught and shows no results. */
  function UnifiedSearch(query: string, resp: SearchResponses): (r: SearchOutcome)
    ensures |query| < 2 ==> r.lookups == [] && r.results == []
    ensures |query| >= 2 ==> |r.lookups| >= 1 && r.lookups[0] == SearchPets(query)
  {
    if |query| < 2 then SearchOutcome([], [])
    else if resp.petsByPet.Failed? then SearchOutcome([SearchPets(query)], [])
    else if resp.ownerMatches.Failed? then SearchOutcome([SearchPets(query), SearchOwners(query)], [])
    else
      var matched := resp.ownerMatches.rows;
      var first := [SearchPets(query), SearchOwners(query)]
        + (if |matched| > 0 then [PetsOfOwners(TruthyKeys(matched, ProfileKey))] else []);
      var allPets := MergedPets(resp);
      if allPets == [] then SearchOutcome(first, [])
      else
        var lookups := first + [OwnersById(KeysInOrder(allPets, PetOwnerKey))];
        if resp.owners.Failed? then SearchOutcome(lookups, [])
        else SearchOutcome(lookups, Pair(allPets, IndexTruthy(resp.owners.rows, ProfileKey)))
  }

  /** A fresh `Map` filled element by element, skipping elements whose key is
      falsy: returns the keys in insertion order and the map. */
  method FillMap<T>(xs: seq<T>, key: T -> string) returns (keys: seq<string>, m: map<string, T>)
    ensures keys == KeysInOrder(xs, key) && m == IndexTruthy(xs, key)
  {
    keys, m := [], map[];
    var i := 0;
    while i < |xs|
      invariant 0 <= i <= |xs|
      invariant keys == KeysInOrder(xs[..i], key)
      invariant m == IndexTruthy(xs[..i], key)
    {
      var k := key(xs[i]);
      assert xs[..i + 1][..i] == xs[..i];
      if k != "" {
        if k !in keys {
          keys := keys + [k];
        }
        m := m[k := xs[i]];
      } else {
        assert IndexTruthy(xs[..i + 1], key) == m;
      }
      i := i + 1;
    }
    assert xs[..i] == xs;
  }

  /** `allPetsMap` filled from the list and read back with
      `Array.from(allPetsMap.values())`. */
  method MergeById(all: seq<Pet>) returns (allPets: seq<Pet>)
    ensures allPets == ValuesInOrder(all, PetKey)
  {
    var keys, petsMap := FillMap(all, PetKey);
    allPets := seq(|keys|, j requires 0 <= j < |keys| => petsMap[keys[j]]);
  }

  /** The search as the page runs it: two `forEach` loops fill the pet map
      and the owner map, then the pets are paired with their owners. */
  method PerformUnifiedSearch(query: string, resp: SearchResponses)
    returns (lookups: seq<Lookup>, results: seq<SearchResult>)
    ensures SearchOutcome(lookups, results) == UnifiedSearch(query, resp)
  {
    if |query| < 2 {
      return [], [];
    }
    lookups := [SearchPets(query)];
    if resp.petsByPet.Failed? {
      return lookups, [];
    }
    lookups := lookups + [SearchOwners(query)];
    if resp.ownerMatches.Failed? {
      return lookups, [];
    }
    var petsByOwner: seq<Pet> := [];
    if |resp.ownerMatches.rows| > 0 {
      lookups := lookups + [PetsOfOwners(TruthyKeys(resp.ownerMatches.rows, ProfileKey))];
      if resp.ownerPets.Rows? {
        petsByOwner := resp.ownerPets.rows;
      }
    }
    assert petsByOwner == PetsByOwner(resp);
    var allPets := MergeById(resp.petsByPet.rows + petsByOwner);
    if |allPets| == 0 {
      return lookups, [];
    }
    lookups := lookups + [OwnersById(KeysInOrder(allPets, PetOwnerKey))];
    if resp.owners.Failed? {
      return lookups, [];
    }
    var _, ownersMap := FillMap(resp.owners.rows, ProfileKey);
    results := Pair(allPets, ownersMap);
  }

  /** The merged pets are distinct by pet id, none lacks one, every pet with
      an id that either query returned is represented, and each is the last
      record with its id, so an owner-derived record replaces a text match. */
  lemma MergedPetsSpec(resp: SearchResponses)
    requires resp.petsByPet.Rows? && resp.ownerMatches.Rows?
    ensures var all := resp.petsByPet.rows + PetsByOwner(resp);
      var merged := MergedPets(resp);
      && (forall a, b :: 0 <= a < b < |merged| ==> merged[a].petPlatformId != merged[b].petPlatformId)
      && (forall a :: 0 <= a < |merged| ==> merged[a].petPlatformId != "")
      && (forall i :: 0 <= i < |all| && all[i].petPlatformId != "" ==>
            exists a :: 0 <= a < |merged| && merged[a].petPlatformId == all[i].petPlatformId)
      && (forall a :: 0 <= a < |merged| ==>
            exists i :: LastWithKey(all, PetKey, merged[a].petPlatformId, i) && merged[a] == all[i])
  {
    ValuesInOrderSpec(resp.petsByPet.rows + PetsByOwner(resp), PetKey);
  }

  /** Each result pairs a pet with an owner whose id is the pet's owner id,
      the last such owner fetched; the owner is absent exactly when the pet
      names no owner or no fetched owner has that id. */
  lemma PairSpec(pets: seq<Pet>, owners: seq<Profile>, i: nat)
    requires i < |pets|
    ensures var r := Pair(pets, IndexTruthy(owners, ProfileKey))[i];
      && r.pet == pets[i]
      && (r.owner.Some? <==>
            && pets[i].ownerPlatformId != ""
            && exists j :: 0 <= j < |owners| && owners[j].userPlatformId == pets[i].ownerPlatformId)
      && (r.owner.Some? ==>
            exists j :: LastWithKey(owners, ProfileKey, pets[i].ownerPlatformId, j) && r.owner.value == owners[j])
  {
    var k := pets[i].ownerPlatformId;
    LookupIsLast(owners, ProfileKey, k);
    if k != "" {
      assert Get(IndexTruthy(owners, ProfileKey), k) == Get(Index(owners, ProfileKey), k);
    }
  }

  /** The final owner query asks for each owner id of the merged pets once,
      and for nothing else. */
  lemma OwnerLookupSpec(query: string, resp: SearchResponses)
    requires |query| >= 2 && resp.petsByPet.Rows? && resp.ownerMatches.Rows? && MergedPets(resp) != []
    ensures var r := UnifiedSearch(query, resp);
      var ids := r.lookups[|r.lookups| - 1].ownerIds;
      && r.lookups[|r.lookups| - 1].OwnersById?
      && Distinct(ids)
      && forall k :: k in ids <==> k != "" && exists a :: 0 <= a < |MergedPets(resp)| && MergedPets(resp)[a].ownerPlatformId == k
  {
    KeysInOrderSpec(MergedPets(resp), PetOwnerKey);
  }

  // ---------------------------------------------------------------------
  // The new-appointment form (handleCreateAppointment and its inputs)
  // ---------------------------------------------------------------------

  /** A staff member offered for the chosen hospital. */
  datatype Staff = Staff(employeeAssignmentId: string, employeeId: string, userPlatformId: string, fullName: string)

  /** A bookable time of the chosen staff member on the chosen day. */
  datatype Slot = Slot(time: string, available: bool, bookingCount: nat)

  /** A hospital found by the entity search. */
  datatype Entity = Entity(entityPlatformId: string, entityName: string)

  /** The `appointmentForm` state. */
  datatype AppointmentForm = AppointmentForm(
    entityPlatformId: string,
    doctorPlatformId: string,
    employeeAssignmentId: string,
    employeeId: string,
    date: Option<Day>,
    time: string,
    appointmentType: string,
    reason: string,
    notes: string
  )

  /** The form as the page initialises and resets it. */
  const EmptyForm := AppointmentForm("", "", "", "", None, "", "routine", "", "")

  /** Why `handleCreateAppointment` refuses, in the order it checks. */
  datatype CreateError = SelectPetAndOwner | EnterEntity | SelectStaff | SelectTimeSlot

  function CreateErrorMessage(e: CreateError): string {
    match e
    case SelectPetAndOwner => "Please select a pet and owner"
    case EnterEntity => "Please enter an entity platform ID"
    case SelectStaff => "Please select a staff member"
    case SelectTimeSlot => "Please select an appointment time slot"
  }

  /** The checks of `handleCreateAppointment` and, when they pass, the row
      it asks the store to insert. */
  function ValidateCreate(pet: Option<Pet>, owner: Option<Profile>, form: AppointmentForm, employee: Option<Staff>)
    : (r: Result<NewAppointment, CreateError>)
    ensures r.Ok? <==> pet.Some? && owner.Some? && Truthy(form.entityPlatformId) && employee.Some?
                       && Truthy(form.employeeAssignmentId) && Truthy(form.time)
    ensures pet.None? || owner.None? ==> r == Err(SelectPetAndOwner)
    ensures pet.Some? && owner.Some? && !Truthy(form.entityPlatformId) ==> r == Err(EnterEntity)
    ensures (pet.Some? && owner.Some? && Truthy(form.entityPlatformId)
             && (employee.None? || !Truthy(form.employeeAssignmentId))) ==> r == Err(SelectStaff)
    ensures (pet.Some? && owner.Some? && Truthy(form.entityPlatformId) && employee.Some?
             && Truthy(form.employeeAssignmentId) && !Truthy(form.time)) ==> r == Err(SelectTimeSlot)
    ensures r.Ok? ==>
      && r.value.petPlatformId == pet.value.petPlatformId
      && r.value.ownerPlatformId == owner.value.userPlatformId
      && r.value.entityPlatformId == form.entityPlatformId
      && r.value.doctorPlatformId == employee.value.userPlatformId
      && r.value.date == form.date && r.value.time == form.time
      && r.value.appointmentType == form.appointmentType
      && r.value.reason == form.reason && r.value.notes == form.notes
      && r.value.status == Scheduled && r.value.bookingSource == "hospital-online"
      && !r.value.emrAccessGranted && !r.value.otpVerified && !r.value.otpSentToOwner
      && !r.value.writeAccessActive && !r.value.accessRevoked
  {
    if pet.None? || owner.None? then Err(SelectPetAndOwner)
    else if !Truthy(form.entityPlatformId) then Err(EnterEntity)
    else if employee.None? || !Truthy(form.employeeAssignmentId) then Err(SelectStaff)
    else if !Truthy(form.time) then Err(SelectTimeSlot)
    else Ok(NewAppointment(
      pet.value.petPlatformId, owner.value.userPlatformId, form.entityPlatformId,
      employee.value.userPlatformId, form.date, form.time, form.appointmentType,
      Scheduled, form.reason, form.notes, "hospital-online",
      false, false, false, false, false))
  }

  /** Choosing a staff member: looked up by assignment id; the time is cleared. */
  function StaffChanged(form: AppointmentForm, staff: seq<Staff>, assignmentId: string): (r: AppointmentForm)
    ensures r.time == "" && r.employeeAssignmentId == assignmentId
    ensures r.entityPlatformId == form.entityPlatformId && r.date == form.date
    ensures r.appointmentType == form.appointmentType && r.reason == form.reason && r.notes == form.notes
    ensures var s := FindFirst(staff, (x: Staff) => x.employeeAssignmentId == assignmentId);
      && (s.Some? ==> r.employeeId == s.value.employeeId && r.doctorPlatformId == s.value.userPlatformId)
      && (s.None? ==> r.employeeId == "" && r.doctorPlatformId == "")
  {
    var s := FindFirst(staff, (x: Staff) => x.employeeAssignmentId == assignmentId);
    form.(employeeAssignmentId := assignmentId,
          employeeId := if s.Some? then s.value.employeeId else "",
          doctorPlatformId := if s.Some? then s.value.userPlatformId else "",
          time := "")
  }

  /** Setting the date (a quick button or the date input): the time is cleared. */
  function DateChanged(form: AppointmentForm, date: Option<Day>): (r: AppointmentForm)
    ensures r.date == date && r.time == ""
    ensures r.(date := form.date, time := form.time) == form
  {
    form.(date := date, time := "")
  }

  /** Clicking a slot: only an available slot sets the time. */
  function SlotClicked(form: AppointmentForm, slot: Slot): (r: AppointmentForm)
    ensures !slot.available ==> r == form
    ensures slot.available ==> r.time == slot.time
    ensures r.(time := form.time) == form
  {
    if slot.available then form.(time := slot.time) else form
  }

  /** After the staff member or the date changes, a booking is refused until
      a slot is clicked again, even when everything else is filled in. */
  lemma ChangeRequiresNewSlot(pet: Option<Pet>, owner: Option<Profile>, form: AppointmentForm, employee: Option<Staff>,
                              staff: seq<Staff>, assignmentId: string, date: Option<Day>)
    requires pet.Some? && owner.Some? && Truthy(form.entityPlatformId) && employee.Some? && Truthy(assignmentId)
    ensures ValidateCreate(pet, owner, StaffChanged(form, staff, assignmentId), employee) == Err(SelectTimeSlot)
    ensures Truthy(form.employeeAssignmentId) ==>
      ValidateCreate(pet, owner, DateChanged(form, date), employee) == Err(SelectTimeSlot)
  {
  }

  /** A search result without an owner can be chosen but never booked. */
  lemma OwnerlessResultNotBookable(res: SearchResult, form: AppointmentForm, employee: Option<Staff>)
    requires res.owner.None?
    ensures ValidateCreate(Some(res.pet), res.owner, form, employee) == Err(SelectPetAndOwner)
  {
  }

  /** The new-appointment dialog and the state behind it. */
  class NewAppointmentModal {
    var isOpen: bool
    var selectedPet: Option<Pet>
    var selectedOwner: Option<Profile>
    var unifiedSearch: string
    var searchResults: seq<SearchResult>
    var selectedEntity: Option<Entity>
    var entitySearch: string
    var entitySearchResults: seq<Entity>
    var form: AppointmentForm
    var selectedEmployee: Option<Staff>
    var availableStaff: seq<Staff>
    var availableSlots: seq<Slot>

    /** The state the page starts in and returns to after a booking. */
    ghost predicate IsReset()
      reads this
    {
      && !isOpen && selectedPet == None && selectedOwner == None
      && unifiedSearch == "" && searchResults == []
      && selectedEntity == None && entitySearch == "" && entitySearchResults == []
      && form == EmptyForm && selectedEmployee == None
      && availableStaff == [] && availableSlots == []
    }

    constructor ()
      ensures IsReset()
    {
      isOpen, selectedPet, selectedOwner := false, None, None;
      unifiedSearch, searchResults := "", [];
      selectedEntity, entitySearch, entitySearchResults := None, "", [];
      form, selectedEmployee := EmptyForm, None;
      availableStaff, availableSlots := [], [];
    }

    /** The reset after a booking: the dialog closes and every field returns
        to its initial value. */
    method Reset()
      modifies this
      ensures IsReset()
    {
      ClearSelection();
      ClearBooking();
    }

    /** The first half of the reset: the dialog, the chosen pet, owner and
        entity, and both searches. */
    method ClearSelection()
      modifies this
      ensures !isOpen && selectedPet == None && selectedOwner == None && selectedEntity == None
      ensures unifiedSearch == "" && searchResults == [] && entitySearch == "" && entitySearchResults == []
      ensures form == old(form) && selectedEmployee == old(selectedEmployee)
      ensures availableStaff == old(availableStaff) && availableSlots == old(availableSlots)
    {
      isOpen := false;
      selectedPet := None;
      selectedOwner := None;
      selectedEntity := None;
      unifiedSearch := "";
      searchResults := [];
      entitySearch := "";
      entitySearchResults := [];
    }

    /** The second half of the reset: the form, the staff member, and the
        staff and slot lists. */
    method ClearBooking()
      modifies this
      ensures form == EmptyForm && selectedEmployee == None && availableStaff == [] && availableSlots == []
      ensures isOpen == old(isOpen) && selectedPet == old(selectedPet) && selectedOwner == old(selectedOwner)
      ensures selectedEntity == old(selectedEntity) && unifiedSearch == old(unifiedSearch)
      ensures searchResults == old(searchResults) && entitySearch == old(entitySearch)
      ensures entitySearchResults == old(entitySearchResults)
    {
      form := EmptyForm;
      selectedEmployee := None;
      availableStaff := [];
      availableSlots := [];
    }

    /** Choosing a search result selects its pet and owner and clears the search. */
    method ChooseSearchResult(res: SearchResult)
      modifies this
      ensures selectedPet == Some(res.pet) && selectedOwner == res.owner
      ensures searchResults == [] && unifiedSearch == ""
      ensures isOpen == old(isOpen) && form == old(form) && selectedEntity == old(selectedEntity)
      ensures entitySearch == old(entitySearch) && entitySearchResults == old(entitySearchResults)
      ensures selectedEmployee == old(selectedEmployee) && availableStaff == old(availableStaff)
      ensures availableSlots == old(availableSlots)
    {
      selectedPet := Some(res.pet);
      selectedOwner := res.owner;
      searchResults := [];
      unifiedSearch := "";
    }

    /** "Change Selection": the chosen pet and owner and the search are cleared. */
    method ChangeSelection()
      modifies this
      ensures selectedPet == None && selectedOwner == None && searchResults == [] && unifiedSearch == ""
      ensures isOpen == old(isOpen) && form == old(form) && selectedEntity == old(selectedEntity)
      ensures entitySearch == old(entitySearch) && entitySearchResults == old(entitySearchResults)
      ensures selectedEmployee == old(selectedEmployee) && availableStaff == old(availableStaff)
      ensures availableSlots == old(availableSlots)
    {
      selectedPet, selectedOwner := None, None;
      unifiedSearch, searchResults := "", [];
    }

    /** Choosing a hospital sets the entity id; the time is not cleared. */
    method ChooseEntity(e: Entity)
      modifies this
      ensures selectedEntity == Some(e) && entitySearchResults == [] && entitySearch == ""
      ensures form == old(form).(entityPlatformId := e.entityPlatformId)
      ensures isOpen == old(isOpen) && selectedPet == old(selectedPet) && selectedOwner == old(selectedOwner)
      ensures unifiedSearch == old(unifiedSearch) && searchResults == old(searchResults)
      ensures selectedEmployee == old(selectedEmployee) && availableStaff == old(availableStaff)
      ensures availableSlots == old(availableSlots)
    {
      selectedEntity := Some(e);
      entitySearchResults := [];
      entitySearch := "";
      form := form.(entityPlatformId := e.entityPlatformId);
    }

    /** "Change" next to the chosen hospital clears it; the staff member and
        the time are kept. */
    method ClearEntity()
      modifies this
      ensures selectedEntity == None && entitySearch == ""
      ensures form == old(form).(entityPlatformId := "")
      ensures isOpen == old(isOpen) && selectedPet == old(selectedPet) && selectedOwner == old(selectedOwner)
      ensures unifiedSearch == old(unifiedSearch) && searchResults == old(searchResults)
      ensures entitySearchResults == old(entitySearchResults)
      ensures selectedEmployee == old(selectedEmployee) && availableStaff == old(availableStaff)
      ensures availableSlots == old(availableSlots)
    {
      selectedEntity := None;
      entitySearch := "";
      form := form.(entityPlatformId := "");
    }

    /** The staff `<select>` changed to `assignmentId`. */
    method ChooseStaff(assignmentId: string)
      modifies this
      ensures selectedEmployee == FindFirst(availableStaff, (x: Staff) => x.employeeAssignmentId == assignmentId)
      ensures form == StaffChanged(old(form), availableStaff, assignmentId)
      ensures isOpen == old(isOpen) && selectedPet == old(selectedPet) && selectedOwner == old(selectedOwner)
      ensures unifiedSearch == old(unifiedSearch) && searchResults == old(searchResults)
      ensures selectedEntity == old(selectedEntity) && entitySearch == old(entitySearch)
      ensures entitySearchResults == old(entitySearchResults)
      ensures availableStaff == old(availableStaff) && availableSlots == old(availableSlots)
    {
      selectedEmployee := FindFirst(availableStaff, (x: Staff) => x.employeeAssignmentId == assignmentId);
      form := StaffChanged(form, availableStaff, assignmentId);
    }

    /** A date was set, by a quick button or the date input. */
    method ChooseDate(date: Option<Day>)
      modifies this
      ensures form == DateChanged(old(form), date)
      ensures isOpen == old(isOpen) && selectedPet == old(selectedPet) && selectedOwner == old(selectedOwner)
      ensures unifiedSearch == old(unifiedSearch) && searchResults == old(searchResults)
      ensures selectedEntity == old(selectedEntity) && entitySearch == old(entitySearch)
      ensures entitySearchResults == old(entitySearchResults) && selectedEmployee == old(selectedEmployee)
      ensures availableStaff == old(availableStaff) && availableSlots == old(availableSlots)
    {
      form := DateChanged(form, date);
    }

    /** A slot button was clicked. */
    method ClickSlot(slot: Slot)
      modifies this
      ensures form == SlotClicked(old(form), slot)
      ensures isOpen == old(isOpen) && selectedPet == old(selectedPet) && selectedOwner == old(selectedOwner)
      ensures unifiedSearch == old(unifiedSearch) && searchResults == old(searchResults)
      ensures selectedEntity == old(selectedEntity) && entitySearch == old(entitySearch)
      ensures entitySearchResults == old(entitySearchResults) && selectedEmployee == old(selectedEmployee)
      ensures availableStaff == old(availableStaff) && availableSlots == old(availableSlots)
    {
      form := SlotClicked(form, slot);
    }

    /** `handleCreateAppointment`: refuse without touching anything, or insert
        the row under the identifier `id` the store assigns and reset the
        dialog; a store error leaves the dialog as it was. */
    method Submit(table: AppointmentsTable, id: string) returns (r: Result<Appointment, SubmitError>)
      requires table.Valid()
      modifies this, table
      ensures table.Valid()
      ensures old(table.AllConsistent()) ==> table.AllConsistent()
      ensures var v := ValidateCreate(old(selectedPet), old(selectedOwner), old(form), old(selectedEmployee));
        && (v.Err? ==> r == Err(Invalid(v.error)) && table.rows == old(table.rows) && unchanged(this))
        && (v.Ok? && id in old(table.rows) ==>
              r == Err(StoreFailed(DuplicateKey)) && table.rows == old(table.rows) && unchanged(this))
        && (v.Ok? && id !in old(table.rows) ==>
              r == Ok(Inserted(id, v.value)) && table.rows == old(table.rows)[id := Inserted(id, v.value)]
              && IsReset())
    {
      var v := ValidateCreate(selectedPet, selectedOwner, form, selectedEmployee);
      if v.Err? {
        return Err(Invalid(v.error));
      }
      NewRowConsistent(id, selectedPet, selectedOwner, form, selectedEmployee);
      var inserted := table.CreateAppointment(id, v.value);
      if inserted.Err? {
        return Err(StoreFailed(inserted.error));
      }
      Reset();
      r := Ok(inserted.value);
    }
  }

  datatype SubmitError = Invalid(reason: CreateError) | StoreFailed(error: StoreError)

  // ---------------------------------------------------------------------
  // Row actions
  // ---------------------------------------------------------------------

  /** The row has no OTP code, or an empty one (both are falsy). */
  predicate NoCode(a: Appointment) {
    a.otpCode.None? || a.otpCode.value == ""
  }

  /** "Complete Consultation" is offered: never beside Cancel or Send-OTP. */
  predicate ShowComplete(a: Appointment): (r: bool)
    ensures r ==> !ShowCancel(a) && !ShowSendOtp(a)
  {
    a.status == InProgress && a.writeAccessActive
  }

  /** "Cancel Appointment" is offered: on every row that is not in progress,
      completed, cancelled or a no-show. */
  predicate ShowCancel(a: Appointment): (r: bool)
    ensures r <==> a.status != InProgress && a.status != Completed && a.status != Cancelled && a.status != NoShow
  {
    a.status == Scheduled || a.status == Confirmed
  }

  /** "Send OTP to Owner" is offered: only on a row that also offers Cancel. */
  predicate ShowSendOtp(a: Appointment): (r: bool)
    ensures r ==> ShowCancel(a)
  {
    a.status == Scheduled && NoCode(a)
  }

  /** "Verify OTP" is offered: never beside Send-OTP. */
  predicate ShowVerify(a: Appointment): (r: bool)
    ensures r ==> !ShowSendOtp(a)
  {
    !NoCode(a) && !a.otpVerified
  }

  /** A freshly booked row satisfies the EMR column relations and offers
      exactly Cancel and Send-OTP. */
  lemma NewRowConsistent(id: string, pet: Option<Pet>, owner: Option<Profile>, form: AppointmentForm, employee: Option<Staff>)
    requires ValidateCreate(pet, owner, form, employee).Ok?
    ensures var row := Inserted(id, ValidateCreate(pet, owner, form, employee).value);
      && EmrConsistent(row)
      && ShowCancel(row) && ShowSendOtp(row) && !ShowVerify(row) && !ShowComplete(row)
  {
  }

  /** Sending a code hides Send-OTP and offers Verify unless the row was
      already verified. */
  lemma SendOtpOffersVerify(a: Appointment, code: string, now: Timestamp)
    requires IsOtpCode(code)
    ensures !ShowSendOtp(SendOtp(a, code, now))
    ensures ShowVerify(SendOtp(a, code, now)) <==> !a.otpVerified
  {
  }

  /** A successful verification hides Verify. */
  lemma VerifyHidesVerify(a: Appointment, code: string, now: Timestamp)
    requires CheckOtp(a, code, now).Ok?
    ensures !ShowVerify(CheckOtp(a, code, now).value)
  {
  }

  /** Starting offers Complete; completing, cancelling or revoking withdraws it. */
  lemma CompleteVisibility(a: Appointment, revokedBy: string, reason: Option<string>, now: Timestamp)
    ensures ShowComplete(AppointmentRow.StartConsultation(a, now))
    ensures !ShowComplete(AppointmentRow.EndConsultation(a, now))
    ensures !ShowComplete(Cancel(a)) && !ShowCancel(Cancel(a)) && !ShowSendOtp(Cancel(a))
    ensures !ShowComplete(Revoke(a, revokedBy, reason, now))
  {
  }

  // ---------------------------------------------------------------------
  // Handlers that call the table
  // ---------------------------------------------------------------------

  datatype StartOutcome = RejectedFutureDate | Started(row: Appointment) | StartFailed(error: StoreError)

  /** The first loaded appointment with identifier `id`; nothing when the
      list has not loaded. */
  function FindLoaded(loaded: Option<seq<AppointmentWithDetails>>, id: string): Option<AppointmentWithDetails> {
    if loaded.None? then None
    else FindFirst(loaded.value, (d: AppointmentWithDetails) => d.appointment.id == id)
  }

  /** The start guard refuses: the appointment is in the loaded list and its
      day is strictly after today. */
  predicate StartRejected(loaded: Option<seq<AppointmentWithDetails>>, id: string, today: Day): (r: bool)
    ensures r ==> loaded.Some? && exists i :: 0 <= i < |loaded.value| && loaded.value[i].appointment.id == id
    ensures loaded.None? ==> !r
  {
    var f := FindLoaded(loaded, id);
    f.Some? && f.value.appointment.date.Some? && f.value.appointment.date.value > today
  }

  /** The guard refuses exactly when the first loaded appointment with that id
      has a day after today; an id not in the list, or no list, passes. */
  lemma StartRejectedSpec(loaded: Option<seq<AppointmentWithDetails>>, id: string, today: Day)
    ensures StartRejected(loaded, id, today) <==>
      && loaded.Some?
      && exists i :: 0 <= i < |loaded.value| && loaded.value[i].appointment.id == id
           && (forall j :: 0 <= j < i ==> loaded.value[j].appointment.id != id)
           && loaded.value[i].appointment.date.Some? && loaded.value[i].appointment.date.value > today
  {
    if loaded.Some? {
      var xs := loaded.value;
      var p := (d: AppointmentWithDetails) => d.appointment.id == id;
      if exists i :: 0 <= i < |xs| && xs[i].appointment.id == id
           && (forall j :: 0 <= j < i ==> xs[j].appointment.id != id)
           && xs[i].appointment.date.Some? && xs[i].appointment.date.value > today {
        var i :| 0 <= i < |xs| && xs[i].appointment.id == id
           && (forall j :: 0 <= j < i ==> xs[j].appointment.id != id)
           && xs[i].appointment.date.Some? && xs[i].appointment.date.value > today;
        FindFirstAt(xs, p, i);
      }
    }
  }

  /** `handleStartConsultation`: the date guard, then the unconditional update. */
  method HandleStartConsultation(table: AppointmentsTable, loaded: Option<seq<AppointmentWithDetails>>,
                                 id: string, today: Day, now: Timestamp) returns (r: StartOutcome)
    requires table.Valid()
    modifies table
    ensures table.Valid()
    ensures old(table.AllConsistent()) ==> table.AllConsistent()
    ensures StartRejected(loaded, id, today) ==> r == RejectedFutureDate && table.rows == old(table.rows)
    ensures !StartRejected(loaded, id, today) && id !in old(table.rows) ==>
      r == StartFailed(RowNotFound) && table.rows == old(table.rows)
    ensures !StartRejected(loaded, id, today) && id in old(table.rows) ==>
      && r == Started(AppointmentRow.StartConsultation(old(table.rows)[id], now))
      && table.rows == old(table.rows)[id := r.row]
  {
    if StartRejected(loaded, id, today) {
      return RejectedFutureDate;
    }
    var started := table.StartConsultation(id, now);
    r := if started.Ok? then Started(started.value) else StartFailed(started.error);
  }

  /** `handleEndConsultation`: only after the user confirms. */
  method HandleEndConsultation(table: AppointmentsTable, id: string, confirmed: bool, now: Timestamp)
    returns (r: Option<Result<Appointment, StoreError>>)
    requires table.Valid()
    modifies table
    ensures table.Valid()
    ensures old(table.AllConsistent()) ==> table.AllConsistent()
    ensures !confirmed ==> r == None && table.rows == old(table.rows)
    ensures confirmed && id !in old(table.rows) ==> r == Some(Err(RowNotFound)) && table.rows == old(table.rows)
    ensures confirmed && id in old(table.rows) ==>
      && r == Some(Ok(AppointmentRow.EndConsultation(old(table.rows)[id], now)))
      && table.rows == old(table.rows)[id := r.value.value]
  {
    if !confirmed {
      return None;
    }
    var ended := table.EndConsultation(id, now);
    r := Some(ended);
  }

  /** `handleCancelAppointment`: only after the user confirms. */
  method HandleCancelAppointment(table: AppointmentsTable, id: string, confirmed: bool)
    returns (r: Option<Result<Appointment, StoreError>>)
    requires table.Valid()
    modifies table
    ensures table.Valid()
    ensures old(table.AllConsistent()) ==> table.AllConsistent()
    ensures !confirmed ==> r == None && table.rows == old(table.rows)
    ensures confirmed && id !in old(table.rows) ==> r == Some(Err(RowNotFound)) && table.rows == old(table.rows)
    ensures confirmed && id in old(table.rows) ==>
      && r == Some(Ok(Cancel(old(table.rows)[id])))
      && table.rows == old(table.rows)[id := r.value.value]
  {
    if !confirmed {
      return None;
    }
    var cancelled := table.CancelAppointment(id);
    r := Some(cancelled);
  }

  /** The OTP dialog. */
  /** The code field's `maxLength`: longer input is cut to this many characters. */
  const OtpInputLength: nat := 6

  class OtpDialog {
    var isOpen: bool
    var appointmentId: string
    var code: string

    constructor ()
      ensures !isOpen && appointmentId == "" && code == ""
    {
      isOpen, appointmentId, code := false, "", "";
    }

    /** "Verify OTP" on a row opens the dialog for it; typed text is kept. */
    method OpenFor(id: string)
      modifies this
      ensures isOpen && appointmentId == id && code == old(code)
    {
      appointmentId := id;
      isOpen := true;
    }

    /** Typing in the code field, which holds at most `OtpInputLength`
        characters. */
    method Type(text: string)
      modifies this
      ensures |text| <= OtpInputLength ==> code == text
      ensures |text| > OtpInputLength ==> code == text[..OtpInputLength]
      ensures |code| <= OtpInputLength
      ensures isOpen == old(isOpen) && appointmentId == old(appointmentId)
    {
      code := if |text| <= OtpInputLength then text else text[..OtpInputLength];
    }

    /** The "Verify OTP" button is enabled: the trimmed code is non-blank and
        exactly six characters long, and no verification is pending. */
    predicate VerifyEnabled(pending: bool): (r: bool)
      reads this
      ensures r ==> |code| >= OtpInputLength && !pending
    {
      Trim(code) != "" && |Trim(code)| == OtpInputLength && !pending
    }

    /** Closing the dialog clears it. */
    method Close()
      modifies this
      ensures !isOpen && appointmentId == "" && code == ""
    {
      isOpen, appointmentId, code := false, "", "";
    }

    /** "Resend OTP": sends a new code to the owner when the dialog names an
        appointment. */
    method Resend(table: AppointmentsTable, now: Timestamp) returns (r: Option<Result<Appointment, StoreError>>)
      requires table.Valid()
      modifies table
      ensures table.Valid()
      ensures old(table.AllConsistent()) ==> table.AllConsistent()
      ensures !Truthy(appointmentId) ==> r == None && table.rows == old(table.rows)
      ensures Truthy(appointmentId) && appointmentId !in old(table.rows) ==>
        r == Some(Err(RowNotFound)) && table.rows == old(table.rows)
      ensures Truthy(appointmentId) && appointmentId in old(table.rows) ==>
        && r.Some? && r.value.Ok? && r.value.value.otpCode.Some? && IsOtpCode(r.value.value.otpCode.value)
        && r.value.value == SendOtp(old(table.rows)[appointmentId], r.value.value.otpCode.value, now)
        && table.rows == old(table.rows)[appointmentId := r.value.value]
    {
      if !Truthy(appointmentId) {
        return None;
      }
      var sent := table.SendOtpToOwner(appointmentId, now);
      r := Some(sent);
    }

    /** Submitting: blank input does nothing; otherwise the trimmed code is
        verified, and a success closes and clears the dialog while a failure
        leaves it open as it was. */
    method Submit(table: AppointmentsTable, now: Timestamp) returns (r: Option<Result<Appointment, StoreError>>)
      requires table.Valid()
      modifies this, table
      ensures table.Valid()
      ensures old(table.AllConsistent()) ==> table.AllConsistent()
      ensures Trim(old(code)) == "" ==> r == None && table.rows == old(table.rows) && unchanged(this)
      ensures Trim(old(code)) != "" && old(appointmentId) !in old(table.rows) ==>
        r == Some(Err(RowNotFound)) && table.rows == old(table.rows) && unchanged(this)
      ensures Trim(old(code)) != "" && old(appointmentId) in old(table.rows) ==>
        var c := CheckOtp(old(table.rows)[old(appointmentId)], Trim(old(code)), now);
        && (c.Err? ==> r == Some(Err(OtpRejected(c.error))) && table.rows == old(table.rows) && unchanged(this))
        && (c.Ok? ==> r == Some(Ok(c.value)) && table.rows == old(table.rows)[old(appointmentId) := c.value]
                      && !isOpen && appointmentId == "" && code == "")
    {
      var typed := Trim(code);
      if typed == "" {
        return None;
      }
      var verified := table.VerifyEmrOtp(appointmentId, typed, now);
      r := Some(verified);
      if verified.Ok? {
        isOpen, appointmentId, code := false, "", "";
      }
    }
  }

  /** Input the code field can hold and that enables the Verify button has no
      surrounding whitespace: trimming it changes nothing. */
  lemma EnabledInputIsUntrimmed(s: string)
    requires |s| <= OtpInputLength && |Trim(s)| == OtpInputLength
    ensures Trim(s) == s
  {
    var t := TrimStart(s);
    assert |t| == |s| && t == s[0..];
  }

  /** Whitespace typed around a code is not part of what is verified. */
  lemma {:induction false} TrimSurrounded(before: string, c: string, after: string)
    requires forall i :: 0 <= i < |before| ==> IsSpace(before[i])
    requires forall i :: 0 <= i < |after| ==> IsSpace(after[i])
    requires c != [] && !IsSpace(c[0]) && !IsSpace(c[|c| - 1])
    ensures Trim(before + c + after) == c
  {
    assert before + c + after == before + (c + after);
    TrimStartSpaces(before, c + after);
    assert TrimStart(before + c + after) == c + after;
    TrimEndSpaces(c, after);
  }

  lemma {:induction false} TrimStartSpaces(spaces: string, s: string)
    requires forall i :: 0 <= i < |spaces| ==> IsSpace(spaces[i])
    requires s != [] && !IsSpace(s[0])
    ensures TrimStart(spaces + s) == s
  {
    if spaces != [] {
      assert (spaces + s)[1..] == spaces[1..] + s;
      TrimStartSpaces(spaces[1..], s);
    } else {
      assert spaces + s == s;
    }
  }

  lemma {:induction false} TrimEndSpaces(s: string, spaces: string)
    requires forall i :: 0 <= i < |spaces| ==> IsSpace(spaces[i])
    requires s != [] && !IsSpace(s[|s| - 1])
    ensures TrimEnd(s + spaces) == s
  {
    if spaces != [] {
      var n := |spaces| - 1;
      assert (s + spaces)[..|s + spaces| - 1] == s + spaces[..n];
      TrimEndSpaces(s, spaces[..n]);
    } else {
      assert s + spaces == s;
    }
  }

  /** A code surrounded by whitespace verifies as the code itself. */
  lemma PaddedCodeVerifies(before: string, code: string, after: string)
    requires forall i :: 0 <= i < |before| ==> IsSpace(before[i])
    requires forall i :: 0 <= i < |after| ==> IsSpace(after[i])
    requires IsOtpCode(code)
    ensures Trim(before + code + after) == code
  {
    TrimSurrounded(before, code, after);
  }

  // ---------------------------------------------------------------------
  // The text filter (filteredAppointments)
  // ---------------------------------------------------------------------

  /** The lower-cased field contains `s`. */
  predicate FieldHas(field: string, s: string) {
    Includes(Lower(field), s)
  }

  /** One row matches the lower-cased search text in a pet, owner, entity or
      appointment field; a missing pet or owner matches nothing. */
  predicate Matches(d: AppointmentWithDetails, s: string) {
    var a := d.appointment;
    || (d.pet.Some? && (FieldHas(d.pet.value.name, s) || FieldHas(d.pet.value.species, s)
                        || FieldHas(d.pet.value.breed, s)))
    || FieldHas(a.petPlatformId, s)
    || (d.owner.Some? && (FieldHas(d.owner.value.firstName, s) || FieldHas(d.owner.value.lastName, s)
                          || FieldHas(d.owner.value.email, s)))
    || FieldHas(a.ownerPlatformId, s)
    || FieldHas(a.entityPlatformId, s) || FieldHas(a.appointmentNumber, s) || FieldHas(a.reason, s)
  }

  function KeepMatching(xs: seq<AppointmentWithDetails>, search: string): (r: seq<AppointmentWithDetails>)
    ensures |r| <= |xs| && SubsequenceOf(r, xs)
    ensures forall d :: d in r <==> d in xs && (search == "" || Matches(d, Lower(search)))
  {
    if xs == [] then []
    else
      var rest := KeepMatching(xs[1..], search);
      if search == "" || Matches(xs[0], Lower(search)) then
        assert ([xs[0]] + rest)[1..] == rest;
        [xs[0]] + rest
      else
        assert rest == [] || SubsequenceOf(rest, xs[1..]);
        rest
  }

  /** `filteredAppointments`: with no data, nothing; with no search text, all
      rows; otherwise the matching rows in their original order. */
  function FilterAppointments(loaded: Option<seq<AppointmentWithDetails>>, search: string)
    : (r: seq<AppointmentWithDetails>)
    ensures loaded.None? ==> r == []
    ensures loaded.Some? ==> SubsequenceOf(r, loaded.value)
    ensures loaded.Some? ==>
      forall d :: d in r <==> d in loaded.value && (search == "" || Matches(d, Lower(search)))
  {
    if loaded.None? then [] else KeepMatching(loaded.value, search)
  }

  /** The filter keeps each matching row exactly as often as it occurs in
      the list, and no other row. */
  lemma {:induction false} KeepMatchingMultiplicity(xs: seq<AppointmentWithDetails>, search: string,
                                                    d: AppointmentWithDetails)
    ensures multiset(KeepMatching(xs, search))[d] ==
      if search == "" || Matches(d, Lower(search)) then multiset(xs)[d] else 0
  {
    if xs != [] {
      KeepMatchingMultiplicity(xs[1..], search, d);
      assert xs == [xs[0]] + xs[1..];
    }
  }

  /** With no search text the filter keeps every row, in order. */
  lemma {:induction false} EmptySearchKeepsAll(xs: seq<AppointmentWithDetails>)
    ensures KeepMatching(xs, "") == xs
  {
    if xs != [] {
      EmptySearchKeepsAll(xs[1..]);
    }
  }

  /** A row whose entity id contains the search text in any letter case is
      kept, wherever the text occurs in it. */
  lemma EntityOccurrenceKept(xs: seq<AppointmentWithDetails>, search: string, i: nat, at: int)
    requires i < |xs| && search != ""
    requires OccursAt(Lower(xs[i].appointment.entityPlatformId), Lower(search), at)
    ensures xs[i] in FilterAppointments(Some(xs), search)
  {
    OccursIncludes(Lower(xs[i].appointment.entityPlatformId), Lower(search), at);
  }

  // ---------------------------------------------------------------------
  // formatTime
  // ---------------------------------------------------------------------

  /** The text up to the first colon: the first piece when the text is split
      at colons. */
  function Field(s: string): (r: string)
    ensures |r| <= |s| && r == s[..|r|] && ':' !in r
    ensures |r| < |s| ==> s[|r|] == ':'
  {
    if s == [] || s[0] == ':' then [] else [s[0]] + Field(s[1..])
  }

  /** The first two pieces of `s` split at colons; the second is absent when
      `s` has no colon. */
  function SplitClock(s: string): (string, Option<string>) {
    var hours := Field(s);
    if |hours| == |s| then (hours, None) else (hours, Some(Field(s[|hours| + 1..])))
  }

  /** The 12-hour clock hour: an unreadable hour and multiples of 12 show as 12. */
  function DisplayHour(hour: Option<int>): int {
    if hour.None? || JsRem(hour.value, 12) == 0 then 12 else JsRem(hour.value, 12)
  }

  /** PM from noon on; an unreadable hour compares false and shows AM. */
  function Meridiem(hour: Option<int>): string {
    if hour.Some? && hour.value >= 12 then "PM" else "AM"
  }

  /** `formatTime`: the hour read with `parseInt`, the minutes piece copied
      as it is (`undefined` when there is none). */
  function FormatTime(t: string): (r: string)
    ensures |r| >= 3 && (r[|r| - 3..] == " AM" || r[|r| - 3..] == " PM")
  {
    ShowClock(ParseInt(SplitClock(t).0), MinutesPiece(t))
  }

  /** The minutes piece as the template literal renders it. */
  function MinutesPiece(t: string): string {
    var minutes := SplitClock(t).1;
    if minutes.Some? then minutes.value else "undefined"
  }

  /** The display hour, a colon, the minutes, a space and the AM/PM suffix. */
  function ShowClock(hour: Option<int>, minutes: string): (r: string)
    ensures |r| >= 3 && (r[|r| - 3..] == " AM" || r[|r| - 3..] == " PM")
  {
    var front := IntString(DisplayHour(hour)) + ":" + minutes;
    var suffix := " " + Meridiem(hour);
    assert suffix == " AM" || suffix == " PM";
    assert (front + suffix)[|front + suffix| - 3..] == suffix;
    front + suffix
  }

  /** The first piece of a text that starts with a colon-free part. */
  lemma {:induction false} FieldOfConcat(a: string, b: string)
    requires ':' !in a && (b == [] || b[0] == ':')
    ensures Field(a + b) == a
  {
    if a != [] {
      assert (a + b)[0] == a[0] && (a + b)[1..] == a[1..] + b;
      FieldOfConcat(a[1..], b);
    } else {
      assert a + b == b;
    }
  }

  /** A text made of digits holds no colon. */
  lemma DigitsHaveNoColon(hh: string)
    requires AllDigits(hh)
    ensures ':' !in hh
  {
    forall i | 0 <= i < |hh| ensures hh[i] != ':' {
      assert IsDigit(hh[i]);
    }
  }

  /** A clock text `hh:mm` or `hh:mm:ss` splits into the colon-free part
      before the first colon and the minutes piece. */
  lemma SplitColonClock(hh: string, mm: string, rest: string)
    requires ':' !in hh && ':' !in mm && (rest == [] || rest[0] == ':')
    ensures SplitClock(hh + ":" + mm + rest) == (hh, Some(mm))
  {
    var after := mm + rest;
    var t := hh + ([':'] + after);
    assert hh + ":" + mm + rest == t;
    FieldOfConcat(hh, [':'] + after);
    assert t[|hh| + 1..] == after;
    FieldOfConcat(mm, rest);
  }

  /** A clock text `hh:mm` or `hh:mm:ss`: the hour comes from the digits
      before the first colon and the minutes piece is copied unchanged. */
  lemma FormatClock(hh: string, mm: string, rest: string)
    requires hh != [] && AllDigits(hh)
    requires ':' !in mm && (rest == [] || rest[0] == ':')
    ensures FormatTime(hh + ":" + mm + rest) ==
      IntString(DisplayHour(Some(DigitsValue(hh)))) + ":" + mm + " " + Meridiem(Some(DigitsValue(hh)))
  {
    DigitsHaveNoColon(hh);
    SplitColonClock(hh, mm, rest);
    ParseIntOfDigits(hh);
  }

  /** On a 24-hour clock the display hour is 1..12, AM exactly before noon,
      and hour and suffix together give back the 24-hour value. */
  lemma ClockHour(h: int)
    requires 0 <= h < 24
    ensures 1 <= DisplayHour(Some(h)) <= 12
    ensures Meridiem(Some(h)) == "AM" <==> h < 12
    ensures DisplayHour(Some(h)) % 12 + (if Meridiem(Some(h)) == "PM" then 12 else 0) == h
  {
  }

  /** NaN renders as 12 AM. */
  lemma ShowUnreadable(minutes: string)
    ensures ShowClock(None, minutes) == "12:" + minutes + " AM"
  {
    assert DecimalString(12) == DecimalString(1) + [DigitChar(2)] == "12";
  }

  /** An hour piece `parseInt` cannot read shows as 12 AM. */
  lemma UnreadableHour(t: string)
    requires ParseInt(SplitClock(t).0) == None
    ensures FormatTime(t) == "12:" + MinutesPiece(t) + " AM"
  {
    ShowUnreadable(MinutesPiece(t));
  }
}
