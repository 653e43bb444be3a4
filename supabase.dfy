/** The database client of src/lib/supabase.ts: the row types, the client configuration
    fallback, profile lookup and update keyed by user, the patient/doctor access relation
    and the storage path of profile photos. The authentication calls are the provider's. */
module Supabase {
  import opened Wrappers
  import opened Text
  import opened Collections

  /** An authenticated user as the application sees it. `role` is whatever string the
      account metadata held; the application only ever writes "patient" or "doctor". */
  datatype UserData = UserData(
    id: string, email: string, role: string, ethAddress: Option<string>, createdAt: string)

  datatype PatientData = PatientData(
    id: string, userId: string, fullName: string, dateOfBirth: string, bloodGroup: string,
    weight: real, aadharNumber: string, phoneNumber: string, isMarried: bool,
    ethAddress: Option<string>, profilePhotoUrl: Option<string>, createdAt: string)

  datatype DoctorData = DoctorData(
    id: string, userId: string, fullName: string, qualification: string,
    specializedAreas: seq<string>, phoneNumber: string,
    ethAddress: Option<string>, profilePhotoUrl: Option<string>, createdAt: string)

  /** One row of `patient_doctor_access`; timestamps are instants as integers. */
  datatype AccessRow = AccessRow(
    patientId: string, doctorId: string, grantedAt: int, revokedAt: Option<int>, isActive: bool)

  // ---------------------------------------------------------------- configuration

  const PlaceholderUrl := "https://placeholder-project.supabase.co"
  const PlaceholderKey := "placeholder-key-for-development-only"

  /** `configured || placeholder`: an unset or empty setting falls back to the placeholder. */
  function OrPlaceholder(configured: Option<string>, placeholder: string): (r: string)
    ensures Truthy(configured) ==> r == configured.value
    ensures !Truthy(configured) ==> r == placeholder
    ensures placeholder != "" ==> r != ""
  {
    if Truthy(configured) then configured.value else placeholder
  }

  /** The client is never created with an empty URL or key. */
  lemma ClientSettingsNeverEmpty(url: Option<string>, key: Option<string>)
    ensures OrPlaceholder(url, PlaceholderUrl) != "" && OrPlaceholder(key, PlaceholderKey) != ""
    ensures !Truthy(url) ==> OrPlaceholder(url, PlaceholderUrl) == PlaceholderUrl
  {
  }

  // ---------------------------------------------------------------- profiles keyed by user

  /** The rows whose `user_id` column equals `userId` (the `.eq('user_id', userId)` filter). */
  function RowsOf<T>(rows: seq<T>, userIdOf: T -> string, userId: string): seq<T>
  {
    Filter(rows, x => userIdOf(x) == userId)
  }

  /** Exactly one row of the table belongs to `userId`. */
  ghost predicate UniqueRow<T>(rows: seq<T>, userIdOf: T -> string, userId: string) {
    exists i :: 0 <= i < |rows| && userIdOf(rows[i]) == userId &&
      forall j :: 0 <= j < |rows| && userIdOf(rows[j]) == userId ==> j == i
  }

  /** `getPatientProfile` / `getDoctorProfile`: `.select('*').eq('user_id', userId).single()`,
      which fails unless exactly one row matches. */
  function GetProfile<T>(rows: seq<T>, userIdOf: T -> string, userId: string): (r: Result<T, string>)
    ensures r.Ok? <==> UniqueRow(rows, userIdOf, userId)
    ensures r.Ok? ==> r.value in rows && userIdOf(r.value) == userId
  {
    var found := RowsOf(rows, userIdOf, userId);
    CountOneIffUnique(rows, userIdOf, userId);
    if |found| == 1 then Ok(found[0]) else Err("JSON object requested, multiple (or no) rows returned")
  }

  lemma {:induction false} NoRowsIffNoMatch<T>(rows: seq<T>, userIdOf: T -> string, userId: string)
    ensures |RowsOf(rows, userIdOf, userId)| == 0 <==>
            forall j :: 0 <= j < |rows| ==> userIdOf(rows[j]) != userId
  {
    if rows != [] {
      NoRowsIffNoMatch(rows[1..], userIdOf, userId);
      forall j | 1 <= j < |rows| ensures rows[j] == rows[1..][j - 1] { }
    }
  }

  lemma {:induction false} CountOneIffUnique<T>(rows: seq<T>, userIdOf: T -> string, userId: string)
    ensures |RowsOf(rows, userIdOf, userId)| == 1 <==> UniqueRow(rows, userIdOf, userId)
  {
    if rows != [] {
      var tail := rows[1..];
      if userIdOf(rows[0]) == userId {
        assert |RowsOf(rows, userIdOf, userId)| == 1 + |RowsOf(tail, userIdOf, userId)|;
        NoRowsIffNoMatch(tail, userIdOf, userId);
        UniqueAtHead(rows, userIdOf, userId);
      } else {
        assert RowsOf(rows, userIdOf, userId) == RowsOf(tail, userIdOf, userId);
        CountOneIffUnique(tail, userIdOf, userId);
        UniqueAfterHead(rows, userIdOf, userId);
      }
    }
  }

  /** When the first row matches, it is the unique one exactly when no later row matches. */
  lemma UniqueAtHead<T>(rows: seq<T>, userIdOf: T -> string, userId: string)
    requires rows != [] && userIdOf(rows[0]) == userId
    ensures UniqueRow(rows, userIdOf, userId) <==>
            forall j :: 0 <= j < |rows[1..]| ==> userIdOf(rows[1..][j]) != userId
  {
    var tail := rows[1..];
    if UniqueRow(rows, userIdOf, userId) {
      forall j | 0 <= j < |tail| ensures userIdOf(tail[j]) != userId {
        assert tail[j] == rows[j + 1];
      }
    }
  }

  /** When the first row does not match, uniqueness is decided by the remaining rows. */
  lemma UniqueAfterHead<T>(rows: seq<T>, userIdOf: T -> string, userId: string)
    requires rows != [] && userIdOf(rows[0]) != userId
    ensures UniqueRow(rows, userIdOf, userId) <==> UniqueRow(rows[1..], userIdOf, userId)
  {
    var tail := rows[1..];
    if UniqueRow(rows, userIdOf, userId) {
      var i :| 0 <= i < |rows| && userIdOf(rows[i]) == userId &&
        forall j :: 0 <= j < |rows| && userIdOf(rows[j]) == userId ==> j == i;
      assert tail[i - 1] == rows[i];
      forall j | 0 <= j < |tail| && userIdOf(tail[j]) == userId ensures j == i - 1 {
        assert rows[j + 1] == tail[j];
      }
    }
    if UniqueRow(tail, userIdOf, userId) {
      var i :| 0 <= i < |tail| && userIdOf(tail[i]) == userId &&
        forall j :: 0 <= j < |tail| && userIdOf(tail[j]) == userId ==> j == i;
      assert rows[i + 1] == tail[i];
      forall j | 0 <= j < |rows| && userIdOf(rows[j]) == userId ensures j == i + 1 {
        assert tail[j - 1] == rows[j];
      }
    }
  }

  /** `updatePatientProfile` / `updateDoctorProfile`: `.update(updates).eq('user_id', userId)`
      rewrites every row of that user with `patch` and leaves the other rows alone. */
  function UpdateRows<T>(rows: seq<T>, userIdOf: T -> string, userId: string, patch: T -> T): (r: seq<T>)
    ensures |r| == |rows|
    ensures forall i :: 0 <= i < |rows| && userIdOf(rows[i]) != userId ==> r[i] == rows[i]
  {
    if rows == [] then []
    else [if userIdOf(rows[0]) == userId then patch(rows[0]) else rows[0]]
         + UpdateRows(rows[1..], userIdOf, userId, patch)
  }

  /** Read-after-write: once the single profile of a user is updated by a patch that keeps
      its `user_id`, looking the user up returns the patched profile. */
  lemma {:induction false} GetAfterUpdate<T>(rows: seq<T>, userIdOf: T -> string, userId: string, patch: T -> T)
    requires forall x :: userIdOf(patch(x)) == userIdOf(x)
    requires GetProfile(rows, userIdOf, userId).Ok?
    ensures GetProfile(UpdateRows(rows, userIdOf, userId, patch), userIdOf, userId)
            == Ok(patch(GetProfile(rows, userIdOf, userId).value))
  {
    UpdatePreservesRows(rows, userIdOf, userId, patch);
  }

  lemma {:induction false} UpdatePreservesRows<T>(rows: seq<T>, userIdOf: T -> string, userId: string, patch: T -> T)
    requires forall x :: userIdOf(patch(x)) == userIdOf(x)
    ensures RowsOf(UpdateRows(rows, userIdOf, userId, patch), userIdOf, userId)
            == seq(|RowsOf(rows, userIdOf, userId)|, i requires 0 <= i < |RowsOf(rows, userIdOf, userId)| =>
                   patch(RowsOf(rows, userIdOf, userId)[i]))
  {
    if rows != [] {
      UpdatePreservesRows(rows[1..], userIdOf, userId, patch);
      var u := UpdateRows(rows, userIdOf, userId, patch);
      assert u[1..] == UpdateRows(rows[1..], userIdOf, userId, patch);
    }
  }

  /** Read-after-create: inserting the first profile of a user makes the lookup find it. */
  lemma GetAfterCreate<T>(rows: seq<T>, userIdOf: T -> string, row: T)
    requires forall j :: 0 <= j < |rows| ==> userIdOf(rows[j]) != userIdOf(row)
    ensures GetProfile(rows + [row], userIdOf, userIdOf(row)) == Ok(row)
  {
    var all := rows + [row];
    assert UniqueRow(all, userIdOf, userIdOf(row)) by {
      assert userIdOf(all[|rows|]) == userIdOf(row);
      assert all[..|rows|] == rows;
    }
  }

  // ---------------------------------------------------------------- access relation

  /** A grant row that is still open: active and never revoked. */
  predicate Open(r: AccessRow) {
    r.isActive && r.revokedAt.None?
  }

  /** `getDoctorPatients`: the rows with `doctor_id = doctorId`, `is_active` and no revocation time. */
  function DoctorPatients(rows: seq<AccessRow>, doctorId: string): (r: seq<AccessRow>)
    ensures forall i :: 0 <= i < |r| ==> r[i] in rows && r[i].doctorId == doctorId && Open(r[i])
    ensures forall i :: 0 <= i < |rows| && rows[i].doctorId == doctorId && Open(rows[i]) ==> rows[i] in r
  {
    Filter(rows, (x: AccessRow) => x.doctorId == doctorId && Open(x))
  }

  /** `getPatientDoctors`: the rows with `patient_id = patientId`, `is_active` and no revocation time. */
  function PatientDoctors(rows: seq<AccessRow>, patientId: string): (r: seq<AccessRow>)
    ensures forall i :: 0 <= i < |r| ==> r[i] in rows && r[i].patientId == patientId && Open(r[i])
    ensures forall i :: 0 <= i < |rows| && rows[i].patientId == patientId && Open(rows[i]) ==> rows[i] in r
  {
    Filter(rows, (x: AccessRow) => x.patientId == patientId && Open(x))
  }

  /** The pair appears in the doctor's patient list and in the patient's doctor list. */
  predicate Listed(rows: seq<AccessRow>, patientId: string, doctorId: string) {
    (exists x :: x in DoctorPatients(rows, doctorId) && x.patientId == patientId) &&
    (exists x :: x in PatientDoctors(rows, patientId) && x.doctorId == doctorId)
  }

  /** The row `revokeAccessFromDoctor` leaves behind: matching rows are closed at `now`. */
  function RevokeRow(r: AccessRow, patientId: string, doctorId: string, now: int): AccessRow {
    if r.patientId == patientId && r.doctorId == doctorId
    then r.(isActive := false, revokedAt := Some(now))
    else r
  }

  function Revoked(rows: seq<AccessRow>, patientId: string, doctorId: string, now: int): (r: seq<AccessRow>)
    ensures |r| == |rows|
    ensures forall i :: 0 <= i < |rows| ==> r[i] == RevokeRow(rows[i], patientId, doctorId, now)
  {
    seq(|rows|, i requires 0 <= i < |rows| => RevokeRow(rows[i], patientId, doctorId, now))
  }

  /** After a grant row for the pair is written, both list queries show the pair. */
  lemma GrantIsListed(rows: seq<AccessRow>, patientId: string, doctorId: string, now: int)
    ensures Listed(rows + [AccessRow(patientId, doctorId, now, None, true)], patientId, doctorId)
  {
    var all := rows + [AccessRow(patientId, doctorId, now, None, true)];
    assert all[|rows|] == AccessRow(patientId, doctorId, now, None, true);
  }

  /** After a revoke, neither list query shows the pair, and every other row is unchanged. */
  lemma RevokeIsNotListed(rows: seq<AccessRow>, patientId: string, doctorId: string, now: int)
    ensures forall x :: x in DoctorPatients(Revoked(rows, patientId, doctorId, now), doctorId) ==> x.patientId != patientId
    ensures forall x :: x in PatientDoctors(Revoked(rows, patientId, doctorId, now), patientId) ==> x.doctorId != doctorId
    ensures forall i :: 0 <= i < |rows| && (rows[i].patientId != patientId || rows[i].doctorId != doctorId) ==>
              Revoked(rows, patientId, doctorId, now)[i] == rows[i]
  {
    var after := Revoked(rows, patientId, doctorId, now);
    forall x | x in DoctorPatients(after, doctorId) ensures x.patientId != patientId {
      var i :| 0 <= i < |after| && after[i] == x;
      assert x == RevokeRow(rows[i], patientId, doctorId, now);
    }
    forall x | x in PatientDoctors(after, patientId) ensures x.doctorId != doctorId {
      var i :| 0 <= i < |after| && after[i] == x;
      assert x == RevokeRow(rows[i], patientId, doctorId, now);
    }
  }

  /** The `patient_doctor_access` table, which grants and revocations change in place. */
  class AccessTable {
    var rows: seq<AccessRow>

    constructor ()
      ensures rows == []
    {
      rows := [];
    }

    /** `grantAccessToDoctor`: writes an active, unrevoked row for the pair, granted at `now`. */
    method Grant(patientId: string, doctorId: string, now: int)
      modifies this
      ensures rows == old(rows) + [AccessRow(patientId, doctorId, now, None, true)]
      ensures Listed(rows, patientId, doctorId)
    {
      GrantIsListed(rows, patientId, doctorId, now);
      rows := rows + [AccessRow(patientId, doctorId, now, None, true)];
    }

    /** `revokeAccessFromDoctor`: closes every row of the pair at `now`; no row is deleted. */
    method Revoke(patientId: string, doctorId: string, now: int)
      modifies this
      ensures rows == Revoked(old(rows), patientId, doctorId, now)
      ensures !Listed(rows, patientId, doctorId)
    {
      RevokeIsNotListed(rows, patientId, doctorId, now);
      rows := Revoked(rows, patientId, doctorId, now);
    }
  }

  // ---------------------------------------------------------------- photo storage path

  /** `name.split('.').pop()`: the text after the last dot, or the whole name without a dot. */
  function Extension(fileName: string): (ext: string)
    ensures '.' !in ext
    ensures '.' !in fileName ==> ext == fileName
    ensures '.' in fileName ==> |ext| < |fileName| && fileName[|fileName| - |ext| - 1..] == "." + ext
  {
    var pieces := Split(fileName, '.');
    SplitPiecesLackSeparator(fileName, '.');
    assert '.' !in pieces[|pieces| - 1];
    if '.' in fileName then
      LastPieceIsSuffix(fileName, '.');
      Last(pieces)
    else
      SplitWithoutSeparator(fileName, '.');
      Last(pieces)
  }

  /** The storage path `uploadProfilePhoto` writes to; `token` stands for the random
      base-36 text the source draws with `Math.random`. */
  function PhotoPath(userId: string, token: string, fileName: string): string {
    "profiles/" + userId + "-" + token + "." + Extension(fileName)
  }

  /** The extension of the stored path is the extension of the uploaded file, and the path
      lies under `profiles/` and starts with the owner's id. */
  lemma {:induction false} PhotoPathKeepsExtension(userId: string, token: string, fileName: string)
    ensures Extension(PhotoPath(userId, token, fileName)) == Extension(fileName)
    ensures PhotoPath(userId, token, fileName)[..9] == "profiles/"
    ensures PhotoPath(userId, token, fileName)[9..9 + |userId| + 1] == userId + "-"
  {
    var ext := Extension(fileName);
    var front := "profiles/" + userId + "-" + token;
    assert PhotoPath(userId, token, fileName) == front + ['.'] + ext;
    LastPieceAfterDot(front, ext);
  }

  lemma {:induction false} LastPieceAfterDot(front: string, ext: string)
    requires '.' !in ext
    ensures Last(Split(front + ['.'] + ext, '.')) == ext
    decreases |front|
  {
    if '.' !in front {
      SplitAtSeparator(front, ext, '.');
      SplitWithoutSeparator(ext, '.');
    } else {
      var k := FirstDot(front);
      var a, b := front[..k], front[k + 1..];
      assert front + ['.'] + ext == a + ['.'] + (b + ['.'] + ext);
      SplitAtSeparator(a, b + ['.'] + ext, '.');
      LastPieceAfterDot(b, ext);
    }
  }

  function FirstDot(s: string): (k: nat)
    requires '.' in s
    ensures k < |s| && s[k] == '.' && '.' !in s[..k]
  {
    if s[0] == '.' then 0 else
      assert '.' in s[1..] by { var j :| 0 <= j < |s| && s[j] == '.'; assert s[1..][j - 1] == '.'; }
      var k := 1 + FirstDot(s[1..]);
      assert s[..k] == [s[0]] + s[1..][..k - 1];
      k
  }
}
