/**
 * The complaint-filing wizard (`FileComplaint` page).
 *
 * Step 1 collects personal details, step 2 the incident, step 3 evidence
 * files; Submit stores the complaint and shows step 4. Next leaves a step
 * only when that step's required fields are filled in, Back returns one step
 * and keeps what was entered. The input for a field exists only on its own
 * step, so whatever reaches step 3 has all required fields, and so has every
 * complaint the wizard stores.
 */
module FileComplaint {
  import opened Common
  import opened Text
  import opened Records

  /** The text fields of the form, as passed to `handleInputChange`. */
  datatype Field = Name | Email | Phone | CrimeType | IncidentDate | Location | Description

  datatype FormData = FormData(
    name: string,
    email: string,
    phone: string,
    crimeType: string,
    incidentDate: string,
    location: string,
    description: string,
    evidenceFiles: seq<EvidenceFile>)

  const EmptyForm: FormData := FormData("", "", "", "", "", "", "", [])

  function FieldValue(form: FormData, field: Field): string {
    match field
    case Name => form.name
    case Email => form.email
    case Phone => form.phone
    case CrimeType => form.crimeType
    case IncidentDate => form.incidentDate
    case Location => form.location
    case Description => form.description
  }

  /** The step whose screen renders the input for `field`. */
  function FieldStep(field: Field): nat {
    match field
    case Name => 1
    case Email => 1
    case Phone => 1
    case _ => 2
  }

  /** `{ ...formData, [field]: value }`: only `field` takes the new value. */
  function SetField(form: FormData, field: Field, value: string): (r: FormData)
    ensures FieldValue(r, field) == value
    ensures forall g :: g != field ==> FieldValue(r, g) == FieldValue(form, g)
    ensures r.evidenceFiles == form.evidenceFiles
  {
    match field
    case Name => form.(name := value)
    case Email => form.(email := value)
    case Phone => form.(phone := value)
    case CrimeType => form.(crimeType := value)
    case IncidentDate => form.(incidentDate := value)
    case Location => form.(location := value)
    case Description => form.(description := value)
  }

  /** What step 1 requires before Next: name, email and phone. */
  predicate PersonalDetailsComplete(form: FormData) {
    form.name != "" && form.email != "" && form.phone != ""
  }

  /** What step 2 requires before Next: crime type and description. */
  predicate IncidentDetailsComplete(form: FormData) {
    form.crimeType != "" && form.description != ""
  }

  // ----------------------------------------------------------- complaint ID

  /** `CC${Date.now().toString().slice(-8)}`. */
  function ComplaintId(timestamp: nat): (id: string)
    ensures 3 <= |id| <= 10 && id[..2] == "CC"
    ensures forall i :: 2 <= i < |id| ==> IsDigit(id[i])
  {
    "CC" + LastChars(DecimalString(timestamp), 8)
  }

  /** The ID has ten characters exactly when the timestamp has at least eight digits. */
  lemma ComplaintIdLength(timestamp: nat)
    ensures |ComplaintId(timestamp)| == 10 <==> timestamp >= 10_000_000
  {
    DecimalLength(timestamp, 7);
    assert Pow10(7) == 10_000_000;
  }

  /** The digits after "CC" denote the timestamp modulo 10^8: its eight low-order decimal digits. */
  lemma ComplaintIdDigits(timestamp: nat)
    ensures DigitsValue(ComplaintId(timestamp)[2..]) == timestamp % 100_000_000
  {
    var s := DecimalString(timestamp);
    assert ComplaintId(timestamp)[2..] == LastChars(s, 8);
    assert Pow10(8) == 100_000_000;
    if |s| >= 8 {
      DecimalSuffix(timestamp, 8);
    } else {
      DecimalRoundTrip(timestamp);
      DecimalLength(timestamp, 8);
    }
  }

  // -------------------------------------------------------- stored complaint

  const SafetySteps: seq<string> := [
    "✓ Do not engage further with the suspect",
    "✓ Preserve all evidence (screenshots, messages, transaction IDs)",
    "✓ Block the suspect's contact information",
    "✓ Report to your bank/payment provider immediately",
    "✓ Change all related passwords"
  ]

  /** The guidance attached to a complaint filed under `id`. */
  function SafetyGuidance(id: string): Guidance {
    Guidance("Immediate Safety Measures", SafetySteps, Some("Investigation typically takes 7-14 days"), Some(id))
  }

  /** The record pushed onto the stored list: the form, the ID, status "Pending", the filing date and the guidance. */
  function NewComplaint(form: FormData, id: string, filedDate: string): (r: Complaint)
    ensures r.id == id && r.status == "Pending" && r.filedDate == filedDate
    ensures r.aiGuidance.Some? && r.aiGuidance.value.complaintId == Some(r.id)
    ensures |r.aiGuidance.value.steps| == 5
  {
    Complaint(id, form.name, form.crimeType, form.description, "Pending", filedDate,
      Some(ContactDetails(form.email, form.phone, form.incidentDate, form.location, form.evidenceFiles)),
      Some(SafetyGuidance(id)))
  }

  /** The form fields a stored complaint carries (empty where the record has none). */
  function FormOf(c: Complaint): FormData {
    match c.contact
    case Some(d) => FormData(c.name, d.email, d.phone, c.crimeType, d.incidentDate, d.location, c.description, d.evidenceFiles)
    case None => FormData(c.name, "", "", c.crimeType, "", "", c.description, [])
  }

  /** A stored complaint gives back exactly the form it was filed from, under its ID and as Pending. */
  lemma NewComplaintKeepsForm(form: FormData, id: string, filedDate: string)
    ensures FormOf(NewComplaint(form, id, filedDate)) == form
    ensures NewComplaint(form, id, filedDate).id == id
    ensures NewComplaint(form, id, filedDate).status == "Pending"
  {
  }

  /** `JSON.parse(localStorage.getItem("complaints") || "[]")`: a missing list reads as empty. */
  function StoredList(stored: Option<seq<Complaint>>): (r: seq<Complaint>)
    ensures stored.None? ==> r == []
    ensures stored.Some? ==> r == stored.value
  {
    match stored
    case None => []
    case Some(list) => list
  }

  // ------------------------------------------------------------------ wizard

  class ComplaintWizard {
    var step: nat
    var form: FormData

    /** The step is 1..4, and every step beyond one was entered through Next with its fields filled in. */
    ghost predicate Valid()
      reads this
    {
      1 <= step <= 4 &&
      (step >= 2 ==> PersonalDetailsComplete(form)) &&
      (step >= 3 ==> IncidentDetailsComplete(form))
    }

    constructor ()
      ensures Valid() && step == 1 && form == EmptyForm
    {
      step := 1;
      form := EmptyForm;
    }

    /** `handleInputChange`, fired by the input for `field`, which only its own step renders. */
    method InputChange(field: Field, value: string)
      requires Valid() && FieldStep(field) == step
      modifies this
      ensures Valid() && step == old(step)
      ensures form == SetField(old(form), field, value)
    {
      form := SetField(form, field, value);
    }

    /** `handleFileChange` on step 3: a present file list replaces the evidence files. */
    method FileChange(files: Option<seq<EvidenceFile>>)
      requires Valid() && step == 3
      modifies this
      ensures Valid() && step == old(step)
      ensures form == if files.Some? then old(form).(evidenceFiles := files.value) else old(form)
    {
      if files.Some? {
        form := form.(evidenceFiles := files.value);
      }
    }

    /**
     * `handleNext`, offered on steps 1 and 2. It advances one step when the
     * current step's required fields are filled in; otherwise it shows the
     * "Missing Information" toast (`advanced` is false) and changes nothing.
     */
    method Next() returns (advanced: bool)
      requires Valid() && (step == 1 || step == 2)
      modifies this
      ensures Valid() && form == old(form)
      ensures advanced <==>
        (old(step) == 1 && PersonalDetailsComplete(form)) || (old(step) == 2 && IncidentDetailsComplete(form))
      ensures step == if advanced then old(step) + 1 else old(step)
    {
      if step == 1 {
        if form.name == "" || form.email == "" || form.phone == "" {
          return false;
        }
      }
      if step == 2 {
        if form.crimeType == "" || form.description == "" {
          return false;
        }
      }
      step := step + 1;
      advanced := true;
    }

    /** The Back buttons of steps 2 and 3: one step back, the form untouched. */
    method Back()
      requires Valid() && (step == 2 || step == 3)
      modifies this
      ensures Valid() && form == old(form)
      ensures step == old(step) - 1
    {
      step := step - 1;
    }

    /**
     * `handleSubmit` on step 3: builds the ID from the clock reading
     * `timestamp`, appends exactly one complaint to the stored list (an
     * absent list counts as empty), and shows step 4. `filedDate` is the
     * ISO form of the filing time.
     */
    method Submit(store: BrowserStore, timestamp: nat, filedDate: string) returns (id: string)
      requires Valid() && step == 3
      modifies this, store`complaints
      ensures Valid() && step == 4 && form == old(form)
      ensures id == ComplaintId(timestamp)
      ensures store.complaints == Some(StoredList(old(store.complaints)) + [NewComplaint(form, id, filedDate)])
      ensures PersonalDetailsComplete(form) && IncidentDetailsComplete(form)
    {
      id := ComplaintId(timestamp);
      var complaints := StoredList(store.complaints);
      complaints := complaints + [NewComplaint(form, id, filedDate)];
      store.complaints := Some(complaints);
      step := 4;
    }
  }

  /**
   * Submitting keeps every earlier record in place and adds one record at
   * the end, which carries the form, the ID and status "Pending".
   */
  lemma SubmitAppendsOne(before: Option<seq<Complaint>>, form: FormData, timestamp: nat, filedDate: string)
    ensures var after := StoredList(before) + [NewComplaint(form, ComplaintId(timestamp), filedDate)];
      && |after| == |StoredList(before)| + 1
      && after[..|after| - 1] == StoredList(before)
      && FormOf(after[|after| - 1]) == form
      && after[|after| - 1].status == "Pending"
      && after[|after| - 1].id == ComplaintId(timestamp)
  {
    NewComplaintKeepsForm(form, ComplaintId(timestamp), filedDate);
  }
}
