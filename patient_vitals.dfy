/** The vitals page of src/pages/PatientVitals.tsx: the reading validator and its defaults,
    the newest-first history, the ten-point chart, loading from the chain and recording a
    reading. Instants are integers; the chain's answers are parameters. */
module PatientVitals {
  import opened Wrappers
  import opened Text
  import opened Collections
  import opened AuthContext
  import opened Supabase

  /** One recorded reading (the `VitalSign` interface). */
  datatype VitalSign = VitalSign(recordedAt: int, systolic: int, diastolic: int, bloodSugar: int, heartRate: int)

  /** One chart point; `date` is the reading's instant, which the page renders as "MMM dd". */
  datatype ChartPoint = ChartPoint(date: int, systolic: int, diastolic: int, bloodSugar: int, heartRate: int)

  /** The form's four numbers. */
  datatype VitalsForm = VitalsForm(systolic: int, diastolic: int, bloodSugar: int, heartRate: int)

  /** The `addDailyReport` call a submission issues. */
  datatype DailyReport = DailyReport(timestamp: int, systolic: int, diastolic: int, bloodSugar: int, heartRate: int)

  /** What a chain read returned: it threw, returned something that is not an array, or a list. */
  datatype ChainRead<T> = ReadFailed | NotAList | Listed(items: seq<T>)

  /** The access guard of the three role-restricted pages: a signed-in user of another role
      is sent to the dashboard, no user to the sign-in page, the right role stays. */
  function RoleGuard(user: Option<UserData>, role: string): (target: Option<string>)
    ensures target.None? <==> user.Some? && user.value.role == role
    ensures user.None? ==> target == Some("/signin")
    ensures user.Some? && user.value.role != role ==> target == Some("/dashboard")
  {
    if user.Some? && user.value.role != role then Some("/dashboard")
    else if user.None? then Some("/signin")
    else None
  }

  /** `vitalsSchema`: every bound is inclusive. */
  predicate ValidVitals(f: VitalsForm) {
    && 70 <= f.systolic <= 220
    && 40 <= f.diastolic <= 120
    && 30 <= f.bloodSugar <= 600
    && 40 <= f.heartRate <= 220
  }

  /** Every bound is inclusive: from a valid reading, moving one field to either end of its
      range keeps it valid, and one step past either end makes it invalid. */
  lemma VitalsBoundsInclusive(f: VitalsForm)
    requires ValidVitals(f)
    ensures ValidVitals(f.(systolic := 70)) && ValidVitals(f.(systolic := 220))
    ensures !ValidVitals(f.(systolic := 69)) && !ValidVitals(f.(systolic := 221))
    ensures ValidVitals(f.(diastolic := 40)) && ValidVitals(f.(diastolic := 120))
    ensures !ValidVitals(f.(diastolic := 39)) && !ValidVitals(f.(diastolic := 121))
    ensures ValidVitals(f.(bloodSugar := 30)) && ValidVitals(f.(bloodSugar := 600))
    ensures !ValidVitals(f.(bloodSugar := 29)) && !ValidVitals(f.(bloodSugar := 601))
    ensures ValidVitals(f.(heartRate := 40)) && ValidVitals(f.(heartRate := 220))
    ensures !ValidVitals(f.(heartRate := 39)) && !ValidVitals(f.(heartRate := 221))
  {
  }

  /** The form's default values, which pass the validator. */
  function DefaultVitals(): (f: VitalsForm)
    ensures ValidVitals(f)
  {
    VitalsForm(120, 80, 100, 70)
  }

  function RecordedAt(v: VitalSign): int { v.recordedAt }

  /** One chart point per reading: its instant and the four measured values. */
  function ToPoint(v: VitalSign): (p: ChartPoint)
    ensures p.date == v.recordedAt
    ensures p.systolic == v.systolic && p.diastolic == v.diastolic
    ensures p.bloodSugar == v.bloodSugar && p.heartRate == v.heartRate
  {
    ChartPoint(v.recordedAt, v.systolic, v.diastolic, v.bloodSugar, v.heartRate)
  }

  /** `vitals.slice(0, 10)`: the rows of the history table. */
  function Recent<T>(s: seq<T>): (r: seq<T>)
    ensures |r| == Min(10, |s|) && r == s[..|r|]
  {
    s[..Min(10, |s|)]
  }

  /** `vitals.slice(0, 10).reverse().map(...)`: the table's rows, last first, as chart points. */
  function Chart(vitals: seq<VitalSign>): (c: seq<ChartPoint>)
    ensures |c| <= 10 && |c| == Min(10, |vitals|)
    ensures forall i :: 0 <= i < |c| ==> c[i] == ToPoint(Recent(vitals)[|c| - 1 - i])
  {
    var rows := Reverse(Recent(vitals));
    seq(|rows|, i requires 0 <= i < |rows| => ToPoint(rows[i]))
  }

  /** On a newest-first history the chart runs oldest to newest and ends with the newest reading. */
  lemma ChartIsChronological(vitals: seq<VitalSign>)
    requires NewestFirst(vitals, RecordedAt)
    ensures forall i, j :: 0 <= i < j < |Chart(vitals)| ==> Chart(vitals)[i].date <= Chart(vitals)[j].date
    ensures vitals != [] ==> Chart(vitals)[|Chart(vitals)| - 1] == ToPoint(vitals[0])
  {
    var c := Chart(vitals);
    forall i, j | 0 <= i < j < |c| ensures c[i].date <= c[j].date {
      assert c[i].date == RecordedAt(vitals[|c| - 1 - i]);
      assert c[j].date == RecordedAt(vitals[|c| - 1 - j]);
    }
  }

  /** The history as the page stores it: the list sorted newest first. */
  function History(items: seq<VitalSign>): (h: seq<VitalSign>)
    ensures NewestFirst(h, RecordedAt)
    ensures multiset(h) == multiset(items)
  {
    SortNewestFirst(items, RecordedAt)
  }

  class VitalsPage {
    var isLoading: bool
    var loadingVitals: bool
    var vitals: seq<VitalSign>
    var chartData: seq<ChartPoint>
    var activeTab: string
    var form: VitalsForm

    constructor ()
      ensures !isLoading && !loadingVitals && vitals == [] && chartData == []
      ensures activeTab == "record" && form == DefaultVitals()
    {
      isLoading, loadingVitals := false, false;
      vitals, chartData := [], [];
      activeTab := "record";
      form := DefaultVitals();
    }

    /** `loadVitalsData`: without an address nothing happens; a list read replaces the
        history and the chart; any other outcome keeps both. */
    method LoadVitalsData(ethAddress: Option<string>, read: ChainRead<VitalSign>)
      modifies this
      ensures !Truthy(ethAddress) ==> unchanged(this)
      ensures Truthy(ethAddress) && read.Listed? ==>
                vitals == History(read.items) && chartData == Chart(vitals)
      ensures Truthy(ethAddress) && !read.Listed? ==>
                vitals == old(vitals) && chartData == old(chartData)
      ensures Truthy(ethAddress) ==>
                !loadingVitals && isLoading == old(isLoading) && activeTab == old(activeTab) && form == old(form)
    {
      if !Truthy(ethAddress) {
        return;
      }
      loadingVitals := true;
      if read.Listed? {
        var sorted := History(read.items);
        vitals := sorted;
        chartData := Chart(sorted);
      }
      loadingVitals := false;
    }

    /** `onSubmit`: needs a user and a wallet address; then writes the reading at `now`.
        When the write succeeds (`written`), the form is reset, the history is read again
        (`reread`) and the history tab is shown. The form reaches this handler only through
        `handleSubmit` with the schema resolver, so the values are valid, and so is every
        reading sent to the chain. */
    method OnSubmit(session: Session, values: VitalsForm, now: int, written: bool,
                    reread: ChainRead<VitalSign>) returns (report: Option<DailyReport>)
      requires ValidVitals(values)
      modifies this
      ensures report.Some? ==>
                ValidVitals(VitalsForm(report.value.systolic, report.value.diastolic,
                                       report.value.bloodSugar, report.value.heartRate))
      ensures session.user.None? || !Truthy(session.ethAddress) ==> report.None? && unchanged(this)
      ensures session.user.Some? && Truthy(session.ethAddress) ==>
                report == Some(DailyReport(now, values.systolic, values.diastolic, values.bloodSugar, values.heartRate))
                && !isLoading
      ensures session.user.Some? && Truthy(session.ethAddress) && written ==>
                form == DefaultVitals() && activeTab == "history" && !loadingVitals &&
                (reread.Listed? ==> vitals == History(reread.items) && chartData == Chart(vitals)) &&
                (!reread.Listed? ==> vitals == old(vitals) && chartData == old(chartData))
      ensures session.user.Some? && Truthy(session.ethAddress) && !written ==>
                form == old(form) && activeTab == old(activeTab) &&
                vitals == old(vitals) && chartData == old(chartData) && loadingVitals == old(loadingVitals)
    {
      if session.user.None? {
        return None;
      }
      if !Truthy(session.ethAddress) {
        return None;
      }
      isLoading := true;
      report := Some(DailyReport(now, values.systolic, values.diastolic, values.bloodSugar, values.heartRate));
      if written {
        form := DefaultVitals();
        LoadVitalsData(session.ethAddress, reread);
        activeTab := "history";
      }
      isLoading := false;
    }
  }
}
