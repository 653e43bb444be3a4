/** The doctor's patient page of src/pages/DoctorPatients.tsx: assembling the shared
    patients from the chain, the chart of the selected patient, and the selection toggle. */
module DoctorPatients {
  import opened Wrappers
  import opened Text
  import opened Collections
  import opened PatientVitals
  import opened PatientDocuments

  /** The patient record the chain returns (`getPatientDetails`). */
  datatype PatientDetails = PatientDetails(fullName: string, dateOfBirth: string, weight: string, height: string,
                                           aadharNumber: string, bloodType: string, phoneNumber: string,
                                           isMarried: bool)

  /** One entry of the page's list (`PatientWithBlockchainData`). */
  datatype PatientEntry = PatientEntry(address: string, details: Option<PatientDetails>,
                                       vitals: seq<VitalSign>, documents: seq<MedicalDocument>)

  /** The three reads for one patient: one of them threw, or each returned a value or nothing. */
  datatype PatientFetch =
    | FetchThrew
    | Fetched(details: Option<PatientDetails>, vitals: Option<seq<VitalSign>>, documents: Option<seq<MedicalDocument>>)

  /** `getDoctorDetails`: it threw, returned no shared-patient list, or returned one. */
  datatype DoctorRead = DoctorThrew | NoSharedList | Shared(addresses: seq<string>)

  /** The entry built for one address: missing vitals or documents become empty lists, and a
      failed read gives an entry without details. */
  function Assemble(address: string, f: PatientFetch): (e: PatientEntry)
    ensures e.address == address
    ensures e.details.Some? <==> f.Fetched? && f.details.Some?
    ensures f.Fetched? && f.vitals.Some? ==> e.vitals == f.vitals.value
    ensures f.Fetched? && f.documents.Some? ==> e.documents == f.documents.value
    ensures f.FetchThrew? || f.vitals.None? ==> e.vitals == []
    ensures f.FetchThrew? || f.documents.None? ==> e.documents == []
  {
    match f
    case FetchThrew => PatientEntry(address, None, [], [])
    case Fetched(d, v, docs) => PatientEntry(address, d, v.GetOr([]), docs.GetOr([]))
  }

  function AssembleAll(addresses: seq<string>, fetch: string -> PatientFetch): (es: seq<PatientEntry>)
    ensures |es| == |addresses|
    ensures forall i :: 0 <= i < |es| ==> es[i] == Assemble(addresses[i], fetch(addresses[i]))
  {
    seq(|addresses|, i requires 0 <= i < |addresses| => Assemble(addresses[i], fetch(addresses[i])))
  }

  predicate HasDetails(e: PatientEntry) { e.details.Some? }

  /** The list `loadPatients` stores: the entries whose details were read. */
  function Loaded(addresses: seq<string>, fetch: string -> PatientFetch): (ps: seq<PatientEntry>)
    ensures |ps| <= |addresses|
    ensures forall i :: 0 <= i < |ps| ==>
              ps[i].details.Some? && ps[i].address in addresses &&
              ps[i] == Assemble(ps[i].address, fetch(ps[i].address))
    ensures forall i :: 0 <= i < |addresses| && fetch(addresses[i]).Fetched? && fetch(addresses[i]).details.Some? ==>
              Assemble(addresses[i], fetch(addresses[i])) in ps
  {
    Filter(AssembleAll(addresses, fetch), HasDetails)
  }

  /** The list keeps the shared-patient order: loading two runs of addresses one after the
      other gives the two lists one after the other. */
  lemma LoadedKeepsOrder(a: seq<string>, b: seq<string>, fetch: string -> PatientFetch)
    ensures Loaded(a + b, fetch) == Loaded(a, fetch) + Loaded(b, fetch)
  {
    assert AssembleAll(a + b, fetch) == AssembleAll(a, fetch) + AssembleAll(b, fetch);
    FilterAppend(AssembleAll(a, fetch), AssembleAll(b, fetch), HasDetails);
  }

  /** `patients.find(p => p.address === address)`: the first entry with that address. */
  function FindPatient(patients: seq<PatientEntry>, address: string): (r: Option<PatientEntry>)
    ensures r.None? <==> forall i :: 0 <= i < |patients| ==> patients[i].address != address
    ensures forall k :: 0 <= k < |patients| && patients[k].address == address &&
                        (forall j :: 0 <= j < k ==> patients[j].address != address) ==>
                          r == Some(patients[k])
  {
    if patients == [] then None
    else if patients[0].address == address then Some(patients[0])
    else FindPatient(patients[1..], address)
  }

  /** The chart effect: the chart of the selected patient's vitals in the order the chain
      returned them, when that patient is listed and has a reading; otherwise the previous chart. */
  function SelectedChart(selected: Option<string>, patients: seq<PatientEntry>,
                         previous: seq<ChartPoint>): (c: seq<ChartPoint>)
    ensures |c| <= 10 || c == previous
    ensures Truthy(selected) && FindPatient(patients, selected.value).Some? &&
            |FindPatient(patients, selected.value).value.vitals| > 0 ==>
              c == Chart(FindPatient(patients, selected.value).value.vitals)
    ensures !Truthy(selected) || FindPatient(patients, selected.value).None? ||
            |FindPatient(patients, selected.value).value.vitals| == 0 ==>
              c == previous
  {
    if !Truthy(selected) then previous
    else
      var p := FindPatient(patients, selected.value);
      if p.Some? && |p.value.vitals| > 0 then Chart(p.value.vitals) else previous
  }

  /** `selectPatient`: choosing the selected patient clears the selection; any other
      address becomes the selection. */
  function Toggled(current: Option<string>, address: string): (next: Option<string>)
    ensures next.None? <==> current == Some(address)
    ensures next.Some? ==> next.value == address
    ensures next != current
  {
    if current == Some(address) then None else Some(address)
  }

  class DoctorPatientsPage {
    var isLoading: bool
    var patients: seq<PatientEntry>
    var selectedPatient: Option<string>
    var patientChartData: seq<ChartPoint>

    constructor ()
      ensures !isLoading && patients == [] && selectedPatient.None? && patientChartData == []
    {
      isLoading := false;
      patients := [];
      selectedPatient := None;
      patientChartData := [];
    }

    /** `loadPatients`; a new list re-runs the chart effect. */
    method LoadPatients(ethAddress: Option<string>, doctor: DoctorRead, fetch: string -> PatientFetch)
      modifies this
      ensures !Truthy(ethAddress) ==> unchanged(this)
      ensures Truthy(ethAddress) ==> !isLoading && selectedPatient == old(selectedPatient)
      ensures Truthy(ethAddress) && doctor.Shared? ==>
                patients == Loaded(doctor.addresses, fetch) &&
                patientChartData == SelectedChart(selectedPatient, patients, old(patientChartData))
      ensures Truthy(ethAddress) && !doctor.Shared? ==>
                patients == old(patients) && patientChartData == old(patientChartData)
    {
      if !Truthy(ethAddress) {
        return;
      }
      isLoading := true;
      if doctor.Shared? {
        patients := Loaded(doctor.addresses, fetch);
        patientChartData := SelectedChart(selectedPatient, patients, patientChartData);
      }
      isLoading := false;
    }

    /** `selectPatient`; the new selection re-runs the chart effect. */
    method SelectPatient(address: string)
      modifies this
      ensures selectedPatient == Toggled(old(selectedPatient), address)
      ensures patientChartData == SelectedChart(selectedPatient, patients, old(patientChartData))
      ensures patients == old(patients) && isLoading == old(isLoading)
    {
      selectedPatient := Toggled(selectedPatient, address);
      patientChartData := SelectedChart(selectedPatient, patients, patientChartData);
    }
  }

  /** Selecting a listed patient with readings shows that patient's chart; selecting the
      same patient again clears the selection and keeps the chart on screen. */
  lemma SelectTwiceKeepsChart(patients: seq<PatientEntry>, address: string, previous: seq<ChartPoint>)
    requires address != ""
    requires FindPatient(patients, address).Some? && |FindPatient(patients, address).value.vitals| > 0
    ensures var c1 := SelectedChart(Toggled(None, address), patients, previous);
            && c1 == Chart(FindPatient(patients, address).value.vitals)
            && Toggled(Toggled(None, address), address).None?
            && SelectedChart(Toggled(Toggled(None, address), address), patients, c1) == c1
  {
  }
}
