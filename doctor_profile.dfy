/** The doctor profile page of src/pages/DoctorProfile.tsx: the form validator, the
    specialised-areas text (parsed on submit, joined to prefill the form), the role redirect,
    and the submit sequence. */
module DoctorProfile {
  import opened Wrappers
  import opened Text
  import opened Collections
  import opened Supabase
  import opened AuthContext
  import opened PatientDocuments
  import PatientProfile

  /** The form's values; the areas are one comma-separated text. */
  datatype DoctorForm = DoctorForm(fullName: string, qualification: string, specializedAreas: string,
                                   phoneNumber: string)

  /** `formSchema`: the phone needs at least 10 characters, not exactly 10. */
  predicate ValidDoctor(f: DoctorForm) {
    |f.fullName| >= 2 && |f.qualification| >= 2 && |f.specializedAreas| >= 2 && |f.phoneNumber| >= 10
  }

  /** The doctor's phone rule is a minimum while the patient's is an exact length: one more
      digit keeps a valid doctor form valid and makes a valid patient form invalid. */
  lemma PhoneRulesDiffer(d: DoctorForm, p: PatientProfile.PatientForm)
    requires ValidDoctor(d) && PatientProfile.ValidPatient(p)
    ensures ValidDoctor(d.(phoneNumber := d.phoneNumber + "0"))
    ensures !PatientProfile.ValidPatient(p.(phoneNumber := p.phoneNumber + "0"))
  {
  }

  /** `.map(area => area.trim())`. */
  function TrimAll(xs: seq<string>): (ys: seq<string>)
    ensures |ys| == |xs|
    ensures forall i :: 0 <= i < |xs| ==> ys[i] == Trim(xs[i])
  {
    seq(|xs|, i requires 0 <= i < |xs| => Trim(xs[i]))
  }

  predicate NonEmpty(s: string) { |s| > 0 }

  /** An item as the parse produces it: non-empty, no white space at either end, no comma. */
  predicate CleanArea(s: string) {
    s != [] && !IsTrimmable(s[0]) && !IsTrimmable(s[|s| - 1]) && ',' !in s
  }

  /** `text.split(',').map(trim).filter(area => area.length > 0)`. */
  function ParseAreas(text: string): (areas: seq<string>)
    ensures forall i :: 0 <= i < |areas| ==> CleanArea(areas[i])
  {
    var pieces := Split(text, ',');
    var trimmed := TrimAll(pieces);
    var areas := Filter(trimmed, NonEmpty);
    assert forall i :: 0 <= i < |areas| ==> CleanArea(areas[i]) by {
      forall i | 0 <= i < |areas| ensures CleanArea(areas[i]) {
        var j :| 0 <= j < |trimmed| && trimmed[j] == areas[i];
        SplitPiecesLackSeparator(text, ',');
        TrimShape(pieces[j]);
        assert ',' !in pieces[j];
      }
    }
    areas
  }

  /** `specialized_areas.join(', ')`, which prefills the form from a stored profile. */
  function JoinAreas(areas: seq<string>): string {
    Join(areas, ", ")
  }

  /** A leading blank changes no trimmed piece. */
  lemma TrimAllLeadingBlank(j: string)
    ensures TrimAll(Split(" " + j, ',')) == TrimAll(Split(j, ','))
  {
    var rest := Split(j, ',');
    SplitLeadingBlank(j);
    TrimDropsLeadingBlank(rest[0]);
    TrimAllSameHead(Split(" " + j, ','), rest, " " + rest[0]);
  }

  lemma SplitLeadingBlank(j: string)
    ensures Split(" " + j, ',') == [" " + Split(j, ',')[0]] + Split(j, ',')[1..]
  {
    SplitLeadingChar(' ', j, ',');
  }

  /** Trimming a list depends on its first item only through that item's trim. */
  lemma TrimAllSameHead(a: seq<string>, b: seq<string>, x: string)
    requires |b| >= 1 && a == [x] + b[1..] && Trim(x) == Trim(b[0])
    ensures TrimAll(a) == TrimAll(b)
  {
    forall i | 0 <= i < |a| ensures TrimAll(a)[i] == TrimAll(b)[i] {
      if i > 0 {
        assert a[i] == b[i];
      }
    }
  }

  /** Joining a clean item in front of more items puts exactly that item in front of
      the trimmed pieces. */
  lemma PiecesOfJoin(x: string, rest: seq<string>)
    requires CleanArea(x) && |rest| >= 1
    ensures TrimAll(Split(JoinAreas([x] + rest), ',')) == [x] + TrimAll(Split(JoinAreas(rest), ','))
  {
    var j := JoinAreas(rest);
    assert ([x] + rest)[1..] == rest;
    assert JoinAreas([x] + rest) == x + [','] + (" " + j);
    SplitAtSeparator(x, " " + j, ',');
    TrimFixed(x);
    TrimAllLeadingBlank(j);
    var pieces := Split(" " + j, ',');
    assert TrimAll([x] + pieces) == [Trim(x)] + TrimAll(pieces);
  }

  /** Prefilling the form from stored areas and submitting it unchanged stores the same areas,
      as long as every stored area is clean. */
  lemma {:induction false} ParseJoinRoundTrip(areas: seq<string>)
    requires forall i :: 0 <= i < |areas| ==> CleanArea(areas[i])
    ensures ParseAreas(JoinAreas(areas)) == areas
  {
    if |areas| == 0 {
      assert Split("", ',') == [""];
      assert TrimAll([""]) == [""];
    } else if |areas| == 1 {
      var x := areas[0];
      SplitWithoutSeparator(x, ',');
      TrimFixed(x);
      assert TrimAll([x]) == [x];
      assert Filter([x], NonEmpty) == [x] + Filter([], NonEmpty);
    } else {
      var x, rest := areas[0], areas[1..];
      assert areas == [x] + rest;
      PiecesOfJoin(x, rest);
      var tail := TrimAll(Split(JoinAreas(rest), ','));
      ParseJoinRoundTrip(rest);
      assert Filter([x] + tail, NonEmpty) == [x] + Filter(tail, NonEmpty);
    }
  }

  /** The form values a stored profile prefills. */
  function FormFromProfile(d: DoctorData): DoctorForm {
    DoctorForm(d.fullName, d.qualification, JoinAreas(d.specializedAreas), d.phoneNumber)
  }

  /** Submitting the prefilled form unchanged stores the profile's own areas, as long as each
      stored area is clean. */
  lemma PrefilledAreasRoundTrip(d: DoctorData)
    requires forall i :: 0 <= i < |d.specializedAreas| ==> CleanArea(d.specializedAreas[i])
    ensures ParseAreas(FormFromProfile(d).specializedAreas) == d.specializedAreas
    ensures (&& |d.fullName| >= 2 && |d.qualification| >= 2 && |d.phoneNumber| >= 10
             && |d.specializedAreas| >= 1 && |d.specializedAreas[0]| >= 2)
            ==> ValidDoctor(FormFromProfile(d))
  {
    ParseJoinRoundTrip(d.specializedAreas);
    if |d.specializedAreas| >= 2 {
      assert JoinAreas(d.specializedAreas) == d.specializedAreas[0] + ", " + Join(d.specializedAreas[1..], ", ");
    }
  }

  /** Once loading is over, a signed-in user who is not a doctor is sent to the dashboard. */
  function DoctorRedirect(isLoading: bool, user: Option<UserData>): (target: Option<string>)
    ensures target.Some? <==> !isLoading && user.Some? && user.value.role != "doctor"
    ensures target.Some? ==> target.value == "/dashboard"
  {
    if !isLoading && user.Some? && user.value.role != "doctor" then Some("/dashboard") else None
  }

  /** The doctor row the page saves. */
  datatype DoctorRow = DoctorRow(fullName: string, qualification: string, specializedAreas: seq<string>,
                                 phoneNumber: string, ethAddress: string, photoUrl: string)

  /** Update of the row keyed by user id, or creation of one for that user. */
  datatype DoctorSave = UpdateDoctor(userId: string, row: DoctorRow) | CreateDoctor(userId: string, row: DoctorRow)

  /** The calls a submission made: whether it tried the wallet, and the save it sent. */
  datatype DoctorCalls = DoctorCalls(connectTried: bool, save: Option<DoctorSave>)

  /** The submit sequence for session `s`: the wallet is tried when not connected but its
      answer is not looked at; `objectUrl` is the local URL of a chosen file. */
  function DoctorSteps(s: SessionState, values: DoctorForm, selectedFile: Option<FileRef>,
                       objectUrl: string): (c: DoctorCalls)
    ensures s.user.None? ==> c == DoctorCalls(false, None)
    ensures s.user.Some? ==> c.save.Some? && c.save.value.userId == s.user.value.id
    ensures c.connectTried <==> s.user.Some? && !s.isWeb3Connected
    ensures c.save.Some? ==>
              var row := c.save.value.row;
              && (c.save.value.UpdateDoctor? <==> s.doctorProfile.Some?)
              && row.fullName == values.fullName && row.qualification == values.qualification
              && row.phoneNumber == values.phoneNumber
              && row.specializedAreas == ParseAreas(values.specializedAreas)
              && row.ethAddress == s.user.value.ethAddress.GetOr("")
              && (selectedFile.Some? ==> row.photoUrl == objectUrl)
              && (selectedFile.None? && s.doctorProfile.Some? ==>
                    row.photoUrl == s.doctorProfile.value.profilePhotoUrl.GetOr(""))
              && (selectedFile.None? && s.doctorProfile.None? ==> row.photoUrl == "")
  {
    if s.user.None? then DoctorCalls(false, None)
    else
      var user := s.user.value;
      var stored := if s.doctorProfile.Some? then s.doctorProfile.value.profilePhotoUrl.GetOr("") else "";
      var row := DoctorRow(values.fullName, values.qualification, ParseAreas(values.specializedAreas),
                           values.phoneNumber, user.ethAddress.GetOr(""),
                           if selectedFile.Some? then objectUrl else stored);
      DoctorCalls(!s.isWeb3Connected,
                  Some(if s.doctorProfile.Some? then UpdateDoctor(user.id, row) else CreateDoctor(user.id, row)))
  }

  /** What a submission that sent its save leaves behind: the doctor profile the session
      holds, whether the page went on to the dashboard, and whether it showed the failure
      message. */
  datatype SaveOutcome = SaveOutcome(profile: Option<DoctorData>, navigated: bool, failed: bool)

  /** The page as written: the profile setter it takes from the session context is not one
      the context provides, so calling it after a successful save throws, and the catch
      turns every submission into a failure that keeps the profile held before. */
  function AfterSaveAsWritten(before: Option<DoctorData>, response: Result<Option<DoctorData>, string>): (o: SaveOutcome)
    ensures o.failed && !o.navigated && o.profile == before
  {
    SaveOutcome(before, false, true)
  }

  /** The evidently intended page: a save the database accepts becomes the session's doctor
      profile and leads to the dashboard; a refused one keeps the old profile and shows the
      failure message. */
  function AfterSave(before: Option<DoctorData>, response: Result<Option<DoctorData>, string>): (o: SaveOutcome)
    ensures o.navigated <==> response.Ok?
    ensures o.failed <==> !o.navigated
    ensures response.Ok? ==> o.profile == response.value
    ensures response.Err? ==> o.profile == before
  {
    match response
    case Ok(saved) => SaveOutcome(saved, true, false)
    case Err(_) => SaveOutcome(before, false, true)
  }

  /** A profile the database saved never reaches the session as written, and the page
      reports failure; the intended page adopts it and moves on. */
  lemma SavedProfileLostAsWritten(before: Option<DoctorData>, row: DoctorData)
    requires before != Some(row)
    ensures AfterSaveAsWritten(before, Ok(Some(row))).profile != Some(row)
    ensures AfterSaveAsWritten(before, Ok(Some(row))).failed
    ensures AfterSave(before, Ok(Some(row))) == SaveOutcome(Some(row), true, false)
  {
  }

  class DoctorProfilePage {
    var isSubmitting: bool
    var selectedFile: Option<FileRef>

    constructor ()
      ensures !isSubmitting && selectedFile.None?
    {
      isSubmitting := false;
      selectedFile := None;
    }

    /** `handleFileChange` with a chosen file. */
    method ChooseFile(file: FileRef)
      modifies this
      ensures selectedFile == Some(file) && isSubmitting == old(isSubmitting)
    {
      selectedFile := Some(file);
    }

    /** `onSubmit` of the page as intended, with the session setter that the context as
        written does not provide: the calls of `DoctorSteps` on the session, then the save's
        outcome as `AfterSave` gives it, so that the saved row (`response`, possibly absent)
        becomes the session's doctor profile and the page navigates, while a refused save
        changes no profile. As written, every save instead ends as `AfterSaveAsWritten`
        says: no navigation and the old profile. The form reaches this handler only through
        `handleSubmit` with the schema resolver, so it is valid, and so is the phone number
        of every row saved. */
    method Submit(session: Session, values: DoctorForm, connect: WalletConnect, objectUrl: string,
                  response: Result<Option<DoctorData>, string>) returns (calls: DoctorCalls, navigated: bool)
      requires ValidDoctor(values)
      modifies this, session
      ensures calls.save.Some? ==> |calls.save.value.row.phoneNumber| >= 10
      ensures calls == DoctorSteps(old(session.State()), values, old(selectedFile), objectUrl)
      ensures var s1 := if calls.connectTried then WalletConnected(old(session.State()), connect).0
                        else old(session.State());
              var o := AfterSave(s1.doctorProfile, response);
              && session.State() == (if calls.save.Some? then s1.(doctorProfile := o.profile) else s1)
              && navigated == (calls.save.Some? && o.navigated)
      ensures selectedFile == old(selectedFile)
      ensures old(session.user).Some? ==> !isSubmitting
      ensures old(session.user).None? ==> isSubmitting == old(isSubmitting)
    {
      var s := session.State();
      if session.user.None? {
        return DoctorCalls(false, None), false;
      }
      isSubmitting := true;
      if !session.isWeb3Connected {
        var ignored := session.ConnectWallet(connect);
      }
      calls := DoctorSteps(s, values, selectedFile, objectUrl);
      var outcome := AfterSave(session.doctorProfile, response);
      session.SetDoctorProfile(outcome.profile);
      navigated := outcome.navigated;
      isSubmitting := false;
    }
  }
}
