/** The dashboard of src/pages/Dashboard.tsx: what the page shows for a session state, which
    access list it fetches for which tab, and the welcome name. */
module Dashboard {
  import opened Wrappers
  import opened Text
  import opened Supabase
  import opened AuthContext

  /** What the page renders: the spinner, a redirect, or the dashboard itself. */
  datatype Screen = Spinner | RedirectTo(path: string) | Show

  /** The page's decision, in the order the code takes it: once loading is over a patient or
      doctor without a profile is sent to fill one in; while loading the spinner shows; with
      no user the page sends to sign-in. */
  function ScreenFor(s: SessionState): (v: Screen)
    ensures s.isLoading ==> v == Spinner
    ensures !s.isLoading && s.user.None? ==> v == RedirectTo("/signin")
    ensures !s.isLoading && s.user.Some? && s.user.value.role == "patient" && s.patientProfile.None? ==>
              v == RedirectTo("/patient-profile")
    ensures !s.isLoading && s.user.Some? && s.user.value.role == "doctor" && s.doctorProfile.None? ==>
              v == RedirectTo("/doctor-profile")
    ensures v == Show <==>
              !s.isLoading && s.user.Some? &&
              !(s.user.value.role == "patient" && s.patientProfile.None?) &&
              !(s.user.value.role == "doctor" && s.doctorProfile.None?)
  {
    if !s.isLoading && s.user.Some? && s.user.value.role == "patient" && s.patientProfile.None? then
      RedirectTo("/patient-profile")
    else if !s.isLoading && s.user.Some? && s.user.value.role == "doctor" && s.doctorProfile.None? then
      RedirectTo("/doctor-profile")
    else if s.isLoading then Spinner
    else if s.user.None? then RedirectTo("/signin")
    else Show
  }

  /** A session whose refresh has not settled always shows the spinner, whatever it holds. */
  lemma SpinnerWhileLoading(s: SessionState, t: SessionState)
    requires s.isLoading && t.isLoading
    ensures ScreenFor(s) == ScreenFor(t) == Spinner
  {
  }

  /** The patient list is fetched for a doctor with a profile on the patients tab. */
  predicate FetchesPatients(s: SessionState, tab: string) {
    s.user.Some? && s.user.value.role == "doctor" && s.doctorProfile.Some? && tab == "patients"
  }

  /** The doctor list is fetched for a patient with a profile on the doctors tab. */
  predicate FetchesDoctors(s: SessionState, tab: string) {
    s.user.Some? && s.user.value.role == "patient" && s.patientProfile.Some? && tab == "doctors"
  }

  /** The two fetches never both run, and a fetching page is one that shows the dashboard. */
  lemma FetchesExclusive(s: SessionState, tab: string)
    ensures !(FetchesPatients(s, tab) && FetchesDoctors(s, tab))
    ensures !s.isLoading && (FetchesPatients(s, tab) || FetchesDoctors(s, tab)) ==> ScreenFor(s) == Show
  {
  }

  /** `patientProfile?.full_name || doctorProfile?.full_name || user.email`: an empty name
      falls through to the next choice. */
  function WelcomeName(s: SessionState): (name: string)
    requires s.user.Some?
    ensures s.patientProfile.Some? && s.patientProfile.value.fullName != "" ==>
              name == s.patientProfile.value.fullName
    ensures (s.patientProfile.None? || s.patientProfile.value.fullName == "") &&
            s.doctorProfile.Some? && s.doctorProfile.value.fullName != "" ==>
              name == s.doctorProfile.value.fullName
    ensures (s.patientProfile.None? || s.patientProfile.value.fullName == "") &&
            (s.doctorProfile.None? || s.doctorProfile.value.fullName == "") ==>
              name == s.user.value.email
  {
    if s.patientProfile.Some? && s.patientProfile.value.fullName != "" then s.patientProfile.value.fullName
    else if s.doctorProfile.Some? && s.doctorProfile.value.fullName != "" then s.doctorProfile.value.fullName
    else s.user.value.email
  }

  class DashboardPage {
    var activeTab: string
    var patients: seq<AccessRow>
    var doctors: seq<AccessRow>
    var isLoadingPatients: bool
    var isLoadingDoctors: bool

    constructor ()
      ensures activeTab == "overview" && patients == [] && doctors == []
      ensures !isLoadingPatients && !isLoadingDoctors
    {
      activeTab := "overview";
      patients, doctors := [], [];
      isLoadingPatients, isLoadingDoctors := false, false;
    }

    /** The fetch effect for session `s`. `access` is the access table as the query reads it,
        or `None` when the query fails; a failed query keeps the previous list. */
    method FetchLists(s: SessionState, access: Option<seq<AccessRow>>)
      modifies this
      ensures activeTab == old(activeTab)
      ensures FetchesPatients(s, activeTab) ==> !isLoadingPatients
      ensures FetchesDoctors(s, activeTab) ==> !isLoadingDoctors
      ensures FetchesPatients(s, activeTab) && access.Some? ==>
                patients == DoctorPatients(access.value, s.doctorProfile.value.id)
      ensures !(FetchesPatients(s, activeTab) && access.Some?) ==> patients == old(patients)
      ensures FetchesDoctors(s, activeTab) && access.Some? ==>
                doctors == PatientDoctors(access.value, s.patientProfile.value.id)
      ensures !(FetchesDoctors(s, activeTab) && access.Some?) ==> doctors == old(doctors)
      ensures !FetchesPatients(s, activeTab) ==> isLoadingPatients == old(isLoadingPatients)
      ensures !FetchesDoctors(s, activeTab) ==> isLoadingDoctors == old(isLoadingDoctors)
    {
      if FetchesPatients(s, activeTab) {
        isLoadingPatients := true;
        if access.Some? {
          patients := DoctorPatients(access.value, s.doctorProfile.value.id);
        }
        isLoadingPatients := false;
      }
      if FetchesDoctors(s, activeTab) {
        isLoadingDoctors := true;
        if access.Some? {
          doctors := PatientDoctors(access.value, s.patientProfile.value.id);
        }
        isLoadingDoctors := false;
      }
    }

    /** Choosing a tab. Setting the tab that is already active leaves the state as it is, so
        the fetch effect, which depends on the tab, does not run again; a different tab
        re-runs it. */
    method SelectTab(s: SessionState, tab: string, access: Option<seq<AccessRow>>)
      modifies this
      ensures activeTab == tab
      ensures tab == old(activeTab) ==> unchanged(this)
      ensures tab != old(activeTab) && FetchesPatients(s, tab) && access.Some? ==>
                patients == DoctorPatients(access.value, s.doctorProfile.value.id)
      ensures !(tab != old(activeTab) && FetchesPatients(s, tab) && access.Some?) ==> patients == old(patients)
      ensures tab != old(activeTab) && FetchesDoctors(s, tab) && access.Some? ==>
                doctors == PatientDoctors(access.value, s.patientProfile.value.id)
      ensures !(tab != old(activeTab) && FetchesDoctors(s, tab) && access.Some?) ==> doctors == old(doctors)
    {
      if tab != activeTab {
        activeTab := tab;
        FetchLists(s, access);
      }
    }
  }
}
