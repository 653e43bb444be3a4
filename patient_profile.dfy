/** The patient profile page of src/pages/PatientProfile.tsx: the form validator, the
    blood-group menu, the address display, and the submit sequence (wallet, photo, save,
    chain registration, refresh). */
module PatientProfile {
  import opened Wrappers
  import opened Text
  import opened Supabase
  import opened AuthContext
  import opened PatientDocuments

  /** The form's values. */
  datatype PatientForm = PatientForm(fullName: string, dateOfBirth: string, bloodGroup: string, weight: real,
                                     aadharNumber: string, phoneNumber: string, isMarried: bool)

  /** `patientProfileSchema`: lengths are in characters; the weight is at least 1. */
  predicate ValidPatient(f: PatientForm) {
    && |f.fullName| >= 3
    && |f.dateOfBirth| >= 1
    && |f.bloodGroup| >= 1
    && f.weight >= 1.0
    && |f.aadharNumber| == 12
    && |f.phoneNumber| == 10
  }

  /** `bloodGroups`. */
  const BloodGroups: seq<string> := ["A+", "A-", "B+", "B-", "AB+", "AB-", "O+", "O-"]

  /** The menu holds eight distinct groups, and each passes the blood-group rule. */
  lemma BloodGroupsAreSelectable()
    ensures |BloodGroups| == 8
    ensures forall i :: 0 <= i < |BloodGroups| ==> |BloodGroups[i]| >= 1
    ensures forall i, j :: 0 <= i < j < |BloodGroups| ==> BloodGroups[i] != BloodGroups[j]
  {
  }

  /** The connected address as the page shows it: `substring(0, 6)`, "...", then
      `substring(length - 4)`. */
  function ShortAddress(a: string): string {
    Substring(a, 0, 6) + "..." + Substring(a, |a| - 4, |a|)
  }

  /** A full-length address shows as its first six characters, three dots and its last four.
      One of at most four characters is shown whole on both sides of the dots; one of five is
      shown whole, then the dots, then all but its first character. */
  lemma ShortAddressShape(a: string)
    ensures |a| >= 6 ==> ShortAddress(a) == a[..6] + "..." + a[|a| - 4..]
    ensures |a| >= 6 ==> |ShortAddress(a)| == 13
    ensures |a| == 5 ==> ShortAddress(a) == a + "..." + a[1..]
    ensures |a| <= 4 ==> ShortAddress(a) == a + "..." + a
  {
    if |a| >= 6 {
      assert Substring(a, 0, 6) == a[..6];
      assert Substring(a, |a| - 4, |a|) == a[|a| - 4..];
    } else if |a| == 5 {
      assert Substring(a, 0, 6) == a[0..|a|] == a;
      assert Substring(a, |a| - 4, |a|) == a[1..];
    } else {
      assert Substring(a, 0, 6) == a[0..|a|] == a;
      assert Substring(a, |a| - 4, |a|) == a[0..|a|] == a;
    }
  }

  /** The profile row the page saves; `photoUrl` is already defaulted to "". */
  datatype ProfileRow = ProfileRow(fullName: string, dateOfBirth: string, bloodGroup: string, weight: real,
                                   aadharNumber: string, phoneNumber: string, isMarried: bool,
                                   userId: string, photoUrl: string)

  /** Update of the existing row keyed by user id, or creation of a new one. */
  datatype ProfileSave = UpdateProfile(userId: string, row: ProfileRow) | CreateProfile(row: ProfileRow)

  /** The `registerPatient` call. */
  datatype Registration = Registration(fullName: string, dateOfBirth: string, weight: real, height: int,
                                       aadharNumber: string, bloodGroup: string, phoneNumber: string,
                                       isMarried: bool)

  /** The calls a submission made, in order: the wallet connect attempt, the photo upload (to
      this path), the save, the chain registration, and the closing refresh. */
  datatype ProfileCalls = ProfileCalls(connectTried: bool, photoPath: Option<string>, save: Option<ProfileSave>,
                                       register: Option<Registration>, refreshed: bool)

  const NoCalls := ProfileCalls(false, None, None, None, false)

  /** The height the page always registers. */
  const DefaultHeight := 170

  /** Whether the submit may go past the wallet step. */
  predicate WalletReady(s: SessionState, connect: WalletConnect) {
    s.isWeb3Connected || Truthy(WalletConnected(s, connect).1)
  }

  /** `photoUrl || ''`, where `photoUrl` starts as the stored profile's URL. */
  function PhotoUrl(s: SessionState, photo: Option<FileRef>, uploaded: string): (url: string)
    ensures photo.Some? ==> url == uploaded
    ensures photo.None? && s.patientProfile.Some? && s.patientProfile.value.profilePhotoUrl.Some? ==>
              url == s.patientProfile.value.profilePhotoUrl.value
    ensures photo.None? && (s.patientProfile.None? || s.patientProfile.value.profilePhotoUrl.None?) ==> url == ""
  {
    if photo.Some? then uploaded
    else if s.patientProfile.Some? then s.patientProfile.value.profilePhotoUrl.GetOr("")
    else ""
  }

  /** The row saved for `userId`: the form's fields and the photo URL. */
  function SavedRow(data: PatientForm, userId: string, photoUrl: string): ProfileRow {
    ProfileRow(data.fullName, data.dateOfBirth, data.bloodGroup, data.weight, data.aadharNumber,
               data.phoneNumber, data.isMarried, userId, photoUrl)
  }

  /** The registration sent for the form, with the fixed height. */
  function RegistrationOf(data: PatientForm): Registration {
    Registration(data.fullName, data.dateOfBirth, data.weight, DefaultHeight,
                 data.aadharNumber, data.bloodGroup, data.phoneNumber, data.isMarried)
  }

  /** The submit sequence for session `s`. `connect` is the wallet's answer, `token` the
      random part of the photo path, `photoUpload` the storage's public URL or error, and
      `saved` and `registered` whether the save and the registration went through. A step
      that fails ends the sequence. */
  function ProfileSteps(s: SessionState, data: PatientForm, photo: Option<FileRef>, connect: WalletConnect,
                        token: string, photoUpload: Result<string, string>, saved: bool, registered: bool): ProfileCalls
  {
    if s.user.None? then NoCalls
    else
      var tried := !s.isWeb3Connected;
      if !WalletReady(s, connect) then ProfileCalls(tried, None, None, None, false)
      else
        var user := s.user.value;
        var path := if photo.Some? then Some(PhotoPath(user.id, token, photo.value.name)) else None;
        if photo.Some? && photoUpload.Err? then ProfileCalls(tried, path, None, None, false)
        else
          var row := SavedRow(data, user.id, PhotoUrl(s, photo, if photoUpload.Ok? then photoUpload.value else ""));
          var save := if s.patientProfile.Some? then UpdateProfile(user.id, row) else CreateProfile(row);
          if !saved then ProfileCalls(tried, path, Some(save), None, false)
          else ProfileCalls(tried, path, Some(save), Some(RegistrationOf(data)), registered)
  }

  /** What the submit sequence promises: no user means no calls; the wallet is tried only
      when it is not connected, and the sequence goes on only with a connected wallet; the
      photo is uploaded to the owner's path when one was chosen; an existing profile is
      updated by user id and a new one created otherwise, with the photo URL defaulted; the
      registration follows a successful save with the submitted fields and the fixed height;
      and the refresh follows a successful registration. */
  lemma ProfileStepsContract(s: SessionState, data: PatientForm, photo: Option<FileRef>, connect: WalletConnect,
                             token: string, photoUpload: Result<string, string>, saved: bool, registered: bool)
    ensures var c := ProfileSteps(s, data, photo, connect, token, photoUpload, saved, registered);
            && (s.user.None? ==> c == NoCalls)
            && (c.connectTried <==> s.user.Some? && !s.isWeb3Connected)
            && (c.photoPath.Some? <==> s.user.Some? && WalletReady(s, connect) && photo.Some?)
            && (c.photoPath.Some? ==> c.photoPath.value == PhotoPath(s.user.value.id, token, photo.value.name))
            && (c.save.Some? <==> s.user.Some? && WalletReady(s, connect) && (photo.None? || photoUpload.Ok?))
            && (c.save.Some? ==>
                  var row := c.save.value.row;
                  && (c.save.value.UpdateProfile? <==> s.patientProfile.Some?)
                  && (c.save.value.UpdateProfile? ==> c.save.value.userId == s.user.value.id)
                  && row.userId == s.user.value.id
                  && row.photoUrl == PhotoUrl(s, photo, if photoUpload.Ok? then photoUpload.value else "")
                  && row.fullName == data.fullName && row.aadharNumber == data.aadharNumber
                  && row.weight == data.weight && row.isMarried == data.isMarried)
            && (c.register.Some? <==> c.save.Some? && saved)
            && (c.register.Some? ==>
                  c.register.value == Registration(data.fullName, data.dateOfBirth, data.weight, DefaultHeight,
                                                   data.aadharNumber, data.bloodGroup, data.phoneNumber,
                                                   data.isMarried))
            && (c.refreshed <==> c.register.Some? && registered)
  {
  }

  /** Nothing reaches the database or the chain unless the wallet is connected or the connect
      attempt returns an address. */
  lemma NoSaveWithoutWallet(s: SessionState, data: PatientForm, photo: Option<FileRef>, token: string,
                            photoUpload: Result<string, string>, saved: bool, registered: bool)
    requires s.user.Some? && !s.isWeb3Connected
    ensures ProfileSteps(s, data, photo, ConnectRefused, token, photoUpload, saved, registered) ==
              ProfileCalls(true, None, None, None, false)
    ensures ProfileSteps(s, data, photo, ConnectAccepted(None), token, photoUpload, saved, registered) ==
              ProfileCalls(true, None, None, None, false)
  {
  }

  class PatientProfilePage {
    var isLoading: bool
    var profilePhoto: Option<FileRef>

    constructor ()
      ensures !isLoading && profilePhoto.None?
    {
      isLoading := false;
      profilePhoto := None;
    }

    /** `handleProfilePhotoChange` with a chosen file. */
    method ChoosePhoto(file: FileRef)
      modifies this
      ensures profilePhoto == Some(file) && isLoading == old(isLoading)
    {
      profilePhoto := Some(file);
    }

    /** `onSubmit`: decides its calls by `ProfileSteps` and performs the two that change the
        session, the wallet connect and the closing refresh (which reads `lookup`,
        `patientFetch` and `doctorFetch`). The form reaches this handler only through
        `handleSubmit` with the schema resolver, so it is valid, and so are the Aadhaar and
        phone numbers of every registration sent. */
    method Submit(session: Session, data: PatientForm, connect: WalletConnect, token: string,
                  photoUpload: Result<string, string>, saved: bool, registered: bool,
                  lookup: UserLookup, patientFetch: Result<PatientData, string>,
                  doctorFetch: Result<DoctorData, string>) returns (calls: ProfileCalls)
      requires ValidPatient(data)
      modifies this, session
      ensures calls.register.Some? ==>
                |calls.register.value.aadharNumber| == 12 && |calls.register.value.phoneNumber| == 10
      ensures calls == ProfileSteps(old(session.State()), data, old(profilePhoto), connect, token, photoUpload,
                                    saved, registered)
      ensures var s1 := if calls.connectTried then WalletConnected(old(session.State()), connect).0
                        else old(session.State());
              session.State() == if calls.refreshed then Refreshed(s1, lookup, patientFetch, doctorFetch) else s1
      ensures profilePhoto == old(profilePhoto)
      ensures old(session.user).Some? ==> !isLoading
      ensures old(session.user).None? ==> isLoading == old(isLoading)
    {
      var s := session.State();
      calls := ProfileSteps(s, data, profilePhoto, connect, token, photoUpload, saved, registered);
      if session.user.Some? {
        isLoading := true;
        if calls.connectTried {
          var connected := session.ConnectWallet(connect);
        }
        if calls.refreshed {
          session.RefreshUser(lookup, patientFetch, doctorFetch);
        }
        isLoading := false;
      }
    }
  }
}
