/** The session context of src/contexts/AuthContext.tsx: six fields that the auth-change
    handler, the initial load, `refreshUser`, `connectWallet` and the wallet probe update.
    Each update is specified by a function on `SessionState`; the `Session` class performs
    it field by field and is proved to agree. What the identity provider, the profile
    tables and the wallet answer is passed in as parameters. */
module AuthContext {
  import opened Wrappers
  import opened Text
  import opened Supabase

  /** The provider's user record: id, optional email, metadata role and address, creation time. */
  datatype AuthUser = AuthUser(
    id: string, email: Option<string>, metaRole: Option<string>, metaEthAddress: Option<string>,
    createdAt: string)

  /** What `getCurrentUser` did: threw, found nobody signed in, or returned a user. */
  datatype UserLookup = LookupFailed | NoUser | Current(authUser: AuthUser)

  /** What connecting the wallet did: threw, was refused, or was accepted, after which the
      active account (possibly none) was read. */
  datatype WalletConnect = ConnectFailed | ConnectRefused | ConnectAccepted(address: Option<string>)

  datatype SessionState = SessionState(
    isLoading: bool,
    user: Option<UserData>,
    patientProfile: Option<PatientData>,
    doctorProfile: Option<DoctorData>,
    ethAddress: Option<string>,
    isWeb3Connected: bool)

  /** The state before anything has settled. */
  const Initial := SessionState(true, None, None, None, None, false)

  /** The metadata role when it is a non-empty string, otherwise "patient". */
  function RoleOf(metaRole: Option<string>): (role: string)
    ensures role != ""
    ensures Truthy(metaRole) ==> role == metaRole.value
    ensures !Truthy(metaRole) ==> role == "patient"
  {
    if Truthy(metaRole) then metaRole.value else "patient"
  }

  /** The `userData` record `refreshUser` builds from the provider's user. */
  function ToUserData(u: AuthUser): (d: UserData)
    ensures d.id == u.id && d.role == RoleOf(u.metaRole) && d.ethAddress == u.metaEthAddress
    ensures Truthy(u.email) ==> d.email == u.email.value
    ensures !Truthy(u.email) ==> d.email == ""
  {
    UserData(u.id, u.email.GetOr(""), RoleOf(u.metaRole), u.metaEthAddress, u.createdAt)
  }

  /** The profile fetch that matters for `role` succeeded. */
  predicate ProfileFetched(role: string, patientFetch: Result<PatientData, string>,
                           doctorFetch: Result<DoctorData, string>) {
    (role == "patient" && patientFetch.Ok?) || (role == "doctor" && doctorFetch.Ok?)
  }

  /** `refreshUser`. Only the fetch matching the user's role is consulted. */
  function Refreshed(s: SessionState, lookup: UserLookup, patientFetch: Result<PatientData, string>,
                     doctorFetch: Result<DoctorData, string>): (t: SessionState)
    ensures t.isLoading == s.isLoading
    ensures t.ethAddress == s.ethAddress && t.isWeb3Connected == s.isWeb3Connected
    ensures lookup.LookupFailed? ==> t == s
    ensures lookup.NoUser? ==> t.user.None? && t.patientProfile.None? && t.doctorProfile.None?
    ensures lookup.Current? ==> t.user == Some(ToUserData(lookup.authUser))
    ensures lookup.Current? && t.user.value.role == "patient" && patientFetch.Ok? ==>
              t.patientProfile == Some(patientFetch.value) && t.doctorProfile.None?
    ensures lookup.Current? && t.user.value.role == "doctor" && doctorFetch.Ok? ==>
              t.doctorProfile == Some(doctorFetch.value) && t.patientProfile.None?
    ensures lookup.Current? && !ProfileFetched(t.user.value.role, patientFetch, doctorFetch) ==>
              t.patientProfile == s.patientProfile && t.doctorProfile == s.doctorProfile
  {
    match lookup
    case LookupFailed => s
    case NoUser => s.(user := None, patientProfile := None, doctorProfile := None)
    case Current(au) =>
      var userData := ToUserData(au);
      var signedIn := s.(user := Some(userData));
      if userData.role == "patient" then
        (match patientFetch
         case Ok(p) => signedIn.(patientProfile := Some(p), doctorProfile := None)
         case Err(_) => signedIn)
      else if userData.role == "doctor" then
        (match doctorFetch
         case Ok(d) => signedIn.(doctorProfile := Some(d), patientProfile := None)
         case Err(_) => signedIn)
      else signedIn
  }

  /** The auth-change handler: refresh when the event carries a session user, otherwise
      sign out locally; loading is over either way. */
  function AuthChanged(s: SessionState, sessionHasUser: bool, lookup: UserLookup,
                       patientFetch: Result<PatientData, string>,
                       doctorFetch: Result<DoctorData, string>): (t: SessionState)
    ensures !t.isLoading
    ensures t.ethAddress == s.ethAddress && t.isWeb3Connected == s.isWeb3Connected
    ensures !sessionHasUser ==> t.user.None? && t.patientProfile.None? && t.doctorProfile.None?
    ensures sessionHasUser ==> t == Refreshed(s, lookup, patientFetch, doctorFetch).(isLoading := false)
  {
    var next := if sessionHasUser then Refreshed(s, lookup, patientFetch, doctorFetch)
                else s.(user := None, patientProfile := None, doctorProfile := None);
    next.(isLoading := false)
  }

  /** The initial load: one refresh, after which loading is over. */
  function InitiallyLoaded(s: SessionState, lookup: UserLookup, patientFetch: Result<PatientData, string>,
                           doctorFetch: Result<DoctorData, string>): (t: SessionState)
    ensures !t.isLoading
    ensures t.(isLoading := s.isLoading) == Refreshed(s, lookup, patientFetch, doctorFetch)
  {
    Refreshed(s, lookup, patientFetch, doctorFetch).(isLoading := false)
  }

  /** `connectWallet`: the new state and the address it returns. */
  function WalletConnected(s: SessionState, c: WalletConnect): (r: (SessionState, Option<string>))
    ensures c.ConnectAccepted? ==>
              r.0 == s.(ethAddress := c.address, isWeb3Connected := true) && r.1 == c.address
    ensures !c.ConnectAccepted? ==> r.0 == s && r.1.None?
  {
    match c
    case ConnectAccepted(address) => (s.(ethAddress := address, isWeb3Connected := true), address)
    case _ => (s, None)
  }

  /** The start-up wallet probe: a non-empty address marks the wallet as connected. */
  function WalletProbed(s: SessionState, address: Option<string>): (t: SessionState)
    ensures Truthy(address) ==> t == s.(ethAddress := address, isWeb3Connected := true)
    ensures !Truthy(address) ==> t == s
  {
    if Truthy(address) then s.(ethAddress := address, isWeb3Connected := true) else s
  }

  /** Everything that can happen to the context. */
  datatype Event =
    | Refresh(lookup: UserLookup, patientFetch: Result<PatientData, string>, doctorFetch: Result<DoctorData, string>)
    | AuthChange(sessionHasUser: bool, lookup: UserLookup, patientFetch: Result<PatientData, string>,
                 doctorFetch: Result<DoctorData, string>)
    | InitialLoad(lookup: UserLookup, patientFetch: Result<PatientData, string>, doctorFetch: Result<DoctorData, string>)
    | Connect(outcome: WalletConnect)
    | Probe(address: Option<string>)
    | SetDoctor(profile: Option<DoctorData>)

  function Step(s: SessionState, e: Event): SessionState {
    match e
    case Refresh(l, pf, df) => Refreshed(s, l, pf, df)
    case AuthChange(h, l, pf, df) => AuthChanged(s, h, l, pf, df)
    case InitialLoad(l, pf, df) => InitiallyLoaded(s, l, pf, df)
    case Connect(c) => WalletConnected(s, c).0
    case Probe(a) => WalletProbed(s, a)
    case SetDoctor(d) => s.(doctorProfile := d)
  }

  /** The state after the events of `es`, in order. */
  function Run(s: SessionState, es: seq<Event>): SessionState
    decreases |es|
  {
    if es == [] then s else Run(Step(s, es[0]), es[1..])
  }

  /** Loading is only ever switched off. */
  lemma {:induction false} LoadingOnlyEnds(s: SessionState, es: seq<Event>)
    ensures Run(s, es).isLoading ==> s.isLoading
    decreases |es|
  {
    if es != [] {
      LoadingOnlyEnds(Step(s, es[0]), es[1..]);
    }
  }

  /** An event that comes from the identity side rather than from the wallet. */
  predicate IdentityEvent(e: Event) {
    e.Refresh? || e.AuthChange? || e.InitialLoad? || e.SetDoctor?
  }

  /** Sign-in, sign-out and refreshes never touch the wallet fields. */
  lemma {:induction false} IdentityEventsKeepWallet(s: SessionState, es: seq<Event>)
    requires forall i :: 0 <= i < |es| ==> IdentityEvent(es[i])
    ensures Run(s, es).ethAddress == s.ethAddress
    ensures Run(s, es).isWeb3Connected == s.isWeb3Connected
    decreases |es|
  {
    if es != [] {
      IdentityEventsKeepWallet(Step(s, es[0]), es[1..]);
    }
  }

  /** Refreshing twice against unchanged backends gives the state of refreshing once. */
  lemma RefreshIdempotent(s: SessionState, lookup: UserLookup, patientFetch: Result<PatientData, string>,
                          doctorFetch: Result<DoctorData, string>)
    ensures Refreshed(Refreshed(s, lookup, patientFetch, doctorFetch), lookup, patientFetch, doctorFetch)
            == Refreshed(s, lookup, patientFetch, doctorFetch)
  {
  }

  /** At most one profile slot is filled. */
  predicate AtMostOneProfile(s: SessionState) {
    s.patientProfile.None? || s.doctorProfile.None?
  }

  /** Every event keeps at most one profile slot filled, except storing a doctor profile
      directly while a patient profile is still held. */
  lemma {:induction false} AtMostOneProfileKept(s: SessionState, es: seq<Event>)
    requires AtMostOneProfile(s)
    requires forall i :: 0 <= i < |es| ==> !es[i].SetDoctor?
    ensures AtMostOneProfile(Run(s, es))
    decreases |es|
  {
    if es != [] {
      var e := es[0];
      assert AtMostOneProfile(Step(s, e)) by {
        match e
        case Refresh(l, pf, df) =>
        case AuthChange(h, l, pf, df) =>
        case InitialLoad(l, pf, df) =>
        case Connect(c) =>
        case Probe(a) =>
      }
      AtMostOneProfileKept(Step(s, e), es[1..]);
    }
  }

  /** A failed profile fetch keeps whatever profile the previous user left behind: a doctor
      who signs in after a patient, while the doctor table is unreachable, is exposed
      together with the patient's profile. */
  lemma StaleProfileSurvivesFailedFetch(patient: AuthUser, doctor: AuthUser, p: PatientData)
    requires patient.metaRole == Some("patient") && doctor.metaRole == Some("doctor")
    ensures var t := Run(Initial, [InitialLoad(Current(patient), Ok(p), Err("offline")),
                                   AuthChange(true, Current(doctor), Err("offline"), Err("offline"))]);
            t.user.Some? && t.user.value.role == "doctor" && t.patientProfile == Some(p)
  {
    var e1 := InitialLoad(Current(patient), Ok(p), Err("offline"));
    var e2 := AuthChange(true, Current(doctor), Err("offline"), Err("offline"));
    var s1 := Step(Initial, e1);
    assert s1.patientProfile == Some(p);
    assert [e1, e2][1..] == [e2];
    assert Run(Initial, [e1, e2]) == Run(s1, [e2]);
    assert Run(s1, [e2]) == Step(s1, e2);
  }

  /** From a fresh context, a doctor whose profile fetch fails stays signed in with no profile. */
  lemma DoctorWithoutProfileFromStart(doctor: AuthUser, patientFetch: Result<PatientData, string>)
    requires doctor.metaRole == Some("doctor")
    ensures var t := Run(Initial, [InitialLoad(Current(doctor), patientFetch, Err("503"))]);
            t.user == Some(ToUserData(doctor)) && t.patientProfile.None? && t.doctorProfile.None? && !t.isLoading
  {
  }

  /** The `AuthProvider` state. */
  class Session {
    var isLoading: bool
    var user: Option<UserData>
    var patientProfile: Option<PatientData>
    var doctorProfile: Option<DoctorData>
    var ethAddress: Option<string>
    var isWeb3Connected: bool

    function State(): SessionState
      reads this
    {
      SessionState(isLoading, user, patientProfile, doctorProfile, ethAddress, isWeb3Connected)
    }

    constructor ()
      ensures State() == Initial
    {
      isLoading := true;
      user := None;
      patientProfile := None;
      doctorProfile := None;
      ethAddress := None;
      isWeb3Connected := false;
    }

    method RefreshUser(lookup: UserLookup, patientFetch: Result<PatientData, string>,
                       doctorFetch: Result<DoctorData, string>)
      modifies this
      ensures State() == Refreshed(old(State()), lookup, patientFetch, doctorFetch)
    {
      if lookup.LookupFailed? {
        return;
      }
      if lookup.NoUser? {
        user := None;
        patientProfile := None;
        doctorProfile := None;
        return;
      }
      var userData := ToUserData(lookup.authUser);
      user := Some(userData);
      if userData.role == "patient" {
        if patientFetch.Ok? {
          patientProfile := Some(patientFetch.value);
          doctorProfile := None;
        }
      } else if userData.role == "doctor" {
        if doctorFetch.Ok? {
          doctorProfile := Some(doctorFetch.value);
          patientProfile := None;
        }
      }
    }

    method OnAuthStateChange(sessionHasUser: bool, lookup: UserLookup,
                             patientFetch: Result<PatientData, string>,
                             doctorFetch: Result<DoctorData, string>)
      modifies this
      ensures State() == AuthChanged(old(State()), sessionHasUser, lookup, patientFetch, doctorFetch)
    {
      if sessionHasUser {
        RefreshUser(lookup, patientFetch, doctorFetch);
      } else {
        user := None;
        patientProfile := None;
        doctorProfile := None;
      }
      isLoading := false;
    }

    method InitialLoad(lookup: UserLookup, patientFetch: Result<PatientData, string>,
                       doctorFetch: Result<DoctorData, string>)
      modifies this
      ensures State() == InitiallyLoaded(old(State()), lookup, patientFetch, doctorFetch)
    {
      RefreshUser(lookup, patientFetch, doctorFetch);
      isLoading := false;
    }

    method ConnectWallet(outcome: WalletConnect) returns (address: Option<string>)
      modifies this
      ensures (State(), address) == WalletConnected(old(State()), outcome)
    {
      if outcome.ConnectAccepted? {
        address := outcome.address;
        ethAddress := address;
        isWeb3Connected := true;
      } else {
        address := None;
      }
    }

    method CheckWeb3(probed: Option<string>)
      modifies this
      ensures State() == WalletProbed(old(State()), probed)
    {
      if Truthy(probed) {
        ethAddress := probed;
        isWeb3Connected := true;
      }
    }

    /** A setter for the doctor profile, which the doctor-profile page expects the context to
        offer; the context as written offers none (see `DoctorProfile.AfterSaveAsWritten`). */
    method SetDoctorProfile(profile: Option<DoctorData>)
      modifies this
      ensures State() == old(State()).(doctorProfile := profile)
    {
      doctorProfile := profile;
    }
  }
}
