/**
 * The dashboard (src/app/page.tsx): the recent cases it loads once, the four stat tiles
 * computed from them, and each case row's priority bar, flag pill and relative time. The
 * page's `getTimeAgo` is the same code as the cases page's, modelled once as
 * `CasesPage.GetTimeAgo`.
 */
module Dashboard {
  import opened Wrappers
  import opened JsString
  import Db
  import CasesPage

  /** `cases.reduce((acc, c) => acc + f(c), 0)`: a left fold over the cases. */
  function SumOf(cases: seq<Db.CaseDoc>, f: Db.CaseDoc -> nat): (n: nat)
    ensures cases == [] ==> n == 0
  {
    if cases == [] then 0 else SumOf(cases[..|cases| - 1], f) + f(cases[|cases| - 1])
  }

  /** The fold over two runs of cases is the sum of the folds over each. */
  lemma {:induction false} SumOfConcat(a: seq<Db.CaseDoc>, b: seq<Db.CaseDoc>, f: Db.CaseDoc -> nat)
    ensures SumOf(a + b, f) == SumOf(a, f) + SumOf(b, f)
  {
    if b == [] {
      assert a + b == a;
    } else {
      assert (a + b)[..|a + b| - 1] == a + b[..|b| - 1];
      SumOfConcat(a, b[..|b| - 1], f);
    }
  }

  /** The fold is zero exactly when every case contributes zero, and it bounds every contribution. */
  lemma {:induction false} SumOfZeroIff(cases: seq<Db.CaseDoc>, f: Db.CaseDoc -> nat)
    ensures SumOf(cases, f) == 0 <==> forall i :: 0 <= i < |cases| ==> f(cases[i]) == 0
    ensures forall i :: 0 <= i < |cases| ==> f(cases[i]) <= SumOf(cases, f)
  {
    if cases != [] {
      var init := cases[..|cases| - 1];
      SumOfZeroIff(init, f);
      assert forall i :: 0 <= i < |init| ==> init[i] == cases[i];
    }
  }

  /** A single case contributes exactly its own count. */
  lemma SumOfOne(c: Db.CaseDoc, f: Db.CaseDoc -> nat)
    ensures SumOf([c], f) == f(c)
  {
    assert [c][..0] == [];
  }

  function RedFlagCount(c: Db.CaseDoc): nat {
    |c.data.analysis.redFlags|
  }

  function DiagnosisCount(c: Db.CaseDoc): nat {
    |c.data.analysis.differentialDiagnoses|
  }

  /** `totalRedFlags`. */
  function TotalRedFlags(cases: seq<Db.CaseDoc>): (n: nat)
    ensures n == 0 <==> forall i :: 0 <= i < |cases| ==> cases[i].data.analysis.redFlags == []
    ensures forall i :: 0 <= i < |cases| ==> |cases[i].data.analysis.redFlags| <= n
  {
    SumOfZeroIff(cases, RedFlagCount);
    SumOf(cases, RedFlagCount)
  }

  /** The Diagnoses tile's number. */
  function TotalDiagnoses(cases: seq<Db.CaseDoc>): (n: nat)
    ensures n == 0 <==> forall i :: 0 <= i < |cases| ==> cases[i].data.analysis.differentialDiagnoses == []
    ensures forall i :: 0 <= i < |cases| ==> |cases[i].data.analysis.differentialDiagnoses| <= n
  {
    SumOfZeroIff(cases, DiagnosisCount);
    SumOf(cases, DiagnosisCount)
  }

  /** The colour of a row's priority bar. */
  datatype PriorityBar = RedBar | GreenBar

  /** A row's bar is red exactly when its case has at least one red flag. */
  function Priority(c: Db.CaseDoc): (b: PriorityBar)
    ensures b == RedBar <==> |c.data.analysis.redFlags| > 0
  {
    if |c.data.analysis.redFlags| > 0 then RedBar else GreenBar
  }

  /** The flag pill: "N Flag", or "N Flags" from two on, and no pill without red flags. */
  function FlagPill(c: Db.CaseDoc): (p: Option<string>)
    ensures p.None? <==> |c.data.analysis.redFlags| == 0
    ensures p.Some? ==> p.value == NatToString(|c.data.analysis.redFlags|) + " Flag" + (if |c.data.analysis.redFlags| > 1 then "s" else "")
  {
    var n := |c.data.analysis.redFlags|;
    if n > 0 then Some(NatToString(n) + " Flag" + (if n > 1 then "s" else "")) else None
  }

  /** The Red Flags total is zero exactly when every row's bar is green, and no row has more flags than the total. */
  lemma RedFlagTotalMatchesBars(cases: seq<Db.CaseDoc>)
    ensures TotalRedFlags(cases) == 0 <==> forall i :: 0 <= i < |cases| ==> Priority(cases[i]) == GreenBar
    ensures forall i :: 0 <= i < |cases| ==> |cases[i].data.analysis.redFlags| <= TotalRedFlags(cases)
  {
    SumOfZeroIff(cases, RedFlagCount);
    assert forall i :: 0 <= i < |cases| ==> RedFlagCount(cases[i]) == |cases[i].data.analysis.redFlags|;
  }

  /** Both totals add up over runs of cases. */
  lemma TotalsConcat(a: seq<Db.CaseDoc>, b: seq<Db.CaseDoc>)
    ensures TotalRedFlags(a + b) == TotalRedFlags(a) + TotalRedFlags(b)
    ensures TotalDiagnoses(a + b) == TotalDiagnoses(a) + TotalDiagnoses(b)
  {
    SumOfConcat(a, b, RedFlagCount);
    SumOfConcat(a, b, DiagnosisCount);
  }

  /** One stat tile. */
  datatype Stat = Stat(heading: string, value: string, change: string)

  /** The four tiles, in order. */
  function Stats(cases: seq<Db.CaseDoc>): (s: seq<Stat>)
    ensures |s| == 4
    ensures s[0].heading == "Saved Cases" && s[1].heading == "AI Analyses"
    ensures s[2].heading == "Red Flags" && s[3].heading == "Diagnoses"
    ensures s[0].value == NatToString(|cases|) && s[1].value == NatToString(|cases|)
    ensures s[2].value == NatToString(TotalRedFlags(cases)) && s[3].value == NatToString(TotalDiagnoses(cases))
  {
    [ Stat("Saved Cases", NatToString(|cases|), "In database"),
      Stat("AI Analyses", NatToString(|cases|), "Completed"),
      Stat("Red Flags", NatToString(TotalRedFlags(cases)), "Detected"),
      Stat("Diagnoses", NatToString(TotalDiagnoses(cases)), "Generated") ]
  }

  /** `String(n)` is "0" only for zero. */
  lemma NatToStringZero(n: nat)
    ensures NatToString(n) == "0" <==> n == 0
  {
    if n >= 10 {
      assert |NatToString(n)| >= 2 by { assert NatToString(n) == NatToString(n / 10) + [('0' as int + n % 10) as char]; }
    }
  }

  /**
   * The two count tiles always agree, and the Red Flags tile reads "0" exactly when all bars
   * are green; with no case loaded every tile reads "0".
   */
  lemma StatsAgree(cases: seq<Db.CaseDoc>)
    ensures Stats(cases)[0].value == Stats(cases)[1].value
    ensures Stats(cases)[2].value == "0" <==> forall i :: 0 <= i < |cases| ==> Priority(cases[i]) == GreenBar
    ensures cases == [] ==> forall k :: 0 <= k < 4 ==> Stats(cases)[k].value == "0"
  {
    NatToStringZero(TotalRedFlags(cases));
    RedFlagTotalMatchesBars(cases);
  }

  /** A case row: its id, bar, pill, chief complaint and how long ago it was saved. */
  datatype Row = Row(id: string, bar: PriorityBar, pill: Option<string>, complaint: string, ago: CasesPage.TimeAgo)

  function RowOf(c: Db.CaseDoc, now: int): (r: Row)
    ensures r.id == c.id && r.complaint == c.data.encounter.chiefComplaint
    ensures r.bar == RedBar <==> r.pill.Some?
    ensures r.pill.Some? <==> c.data.analysis.redFlags != []
    ensures !r.ago.NoTime?
  {
    Row(c.id, Priority(c), FlagPill(c), c.data.encounter.chiefComplaint, CasesPage.GetTimeAgo(Some(c.data.savedAt), now))
  }

  /** The Recent Cases panel: a spinner, the empty-state message, or one row per case. */
  datatype RecentView = LoadingCases | NoCasesYet | Rows(rows: seq<Row>)

  /** The page's state. */
  class DashboardPage {
    var recentCases: seq<Db.CaseDoc>
    var loading: bool

    /** `useState([])`, `useState(true)`. */
    constructor ()
      ensures recentCases == [] && loading
    {
      recentCases := [];
      loading := true;
    }

    /**
     * The effect's `fetchCases` once the store answers: `getRecentCases` already turns a
     * failed query into `[]`, so the page's own `catch` is never reached; `loading` ends in
     * every case.
     */
    method CasesFetched(answer: Option<seq<Db.CaseDoc>>)
      modifies this
      ensures recentCases == Db.ListCases(answer)
      ensures answer.None? ==> recentCases == []
      ensures !loading
    {
      recentCases := Db.ListCases(answer);
      loading := false;
    }

    /** What the Recent Cases panel shows when the clock reads `now`. */
    function View(now: int): (v: RecentView)
      reads this
      ensures v == LoadingCases <==> loading
      ensures v == NoCasesYet <==> !loading && recentCases == []
      ensures v.Rows? ==> |v.rows| == |recentCases| > 0
      ensures v.Rows? ==> forall i :: 0 <= i < |v.rows| ==>
                v.rows[i].id == recentCases[i].id &&
                (v.rows[i].bar == RedBar <==> |recentCases[i].data.analysis.redFlags| > 0) &&
                (v.rows[i].pill.Some? <==> |recentCases[i].data.analysis.redFlags| > 0) &&
                v.rows[i].complaint == recentCases[i].data.encounter.chiefComplaint &&
                !v.rows[i].ago.NoTime?
    {
      if loading then LoadingCases
      else if recentCases == [] then NoCasesYet
      else
        var cases := recentCases;
        Rows(seq(|cases|, i requires 0 <= i < |cases| => RowOf(cases[i], now)))
    }
  }

  /** A failed query leaves the dashboard showing the empty-state message, as if nothing were saved. */
  method FailedQueryShowsNoCases() returns (v: RecentView)
    ensures v == NoCasesYet
  {
    var page := new DashboardPage();
    page.CasesFetched(None);
    v := page.View(0);
  }
}
