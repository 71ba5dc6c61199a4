/** Recommendation thresholds and the text report. */
module AIController {
  import opened Json
  import opened Wrappers
  import PerformanceModel
  import PerformanceController

  datatype Recommendation = Recommendation(id: int, kind: string, targetId: string, targetName: string,
                                           reason: string, suggestion: string, action: string)

  /** The recommendations for a completion rate: a review below 50, a
      bonus above 90, none in between; never more than one, always about
      the demo employee. */
  function Recommendations(rate: int): (rs: seq<Recommendation>)
    ensures |rs| <= 1
    ensures rate < 50 <==> |rs| == 1 && rs[0].kind == "warning"
    ensures rate < 50 ==> rs[0].action == "review"
    ensures rate > 90 <==> |rs| == 1 && rs[0].kind == "bonus"
    ensures rate > 90 ==> rs[0].action == "bonus"
    ensures 50 <= rate <= 90 <==> rs == []
    ensures forall r :: r in rs ==> r.targetId == "employee"
  {
    if rate < 50 then
      [Recommendation(1, "warning", "employee", "Employee Name", "Low completion rate (< 50%)",
                      "Schedule 1:1 Review", "review")]
    else if rate > 90 then
      [Recommendation(2, "bonus", "employee", "Employee Name", "Excellent performance (> 90%)",
                      "Award Performance Bonus", "bonus")]
    else []
  }

  /** The completion rate of the demo employee 'employee'. */
  function EmployeeRate(stored: seq<Record>): (rate: int)
    ensures 0 <= rate <= 100
  {
    PerformanceController.EmployeeRate(stored, Str("employee"));
    PerformanceModel.CompletionRate(PerformanceController.GetEmployeePerformance(stored, Str("employee"))).value
  }

  /** `generateTeamRecommendations`: the manager id is not used; the team
      is the demo employee alone. */
  function GenerateTeamRecommendations(stored: seq<Record>, managerId: Value): seq<Recommendation>
  {
    Recommendations(EmployeeRate(stored))
  }

  /** An employee without tasks has rate 0 and so gets a review. */
  lemma NoTasksMeansReview(stored: seq<Record>, managerId: Value)
    requires |PerformanceController.TaskController.GetByEmployee(stored, Str("employee"))| == 0
    ensures GenerateTeamRecommendations(stored, managerId)[0].action == "review"
  {
    PerformanceController.EmployeeRate(stored, Str("employee"));
  }

  const ReportHead := "AI Analysis Report:\n        - Total Tasks: "
  const ReportMiddle := "\n        - Completion: "
  const ReportTail := "\n" + "        - Efficiency: High\n        - Risk Level: Low\n        "

  /** `generateReport`: the fixed text with the total and completed
      figures filled in. */
  function GenerateReport(data: Record): string
  {
    ReportHead + Display(Get(data, "total")) + ReportMiddle + Display(Get(data, "completed")) + ReportTail
  }

  /** A whole number is displayed by its decimal digits. */
  lemma DisplayNat(n: nat)
    ensures Display(Num(n as real)) == NatToString(n)
  {
    assert (n as real).Floor == n;
  }

  /** Two digit strings framed by the same texts, where the texts after
      them start with a non-digit, can be read back. */
  lemma FramedDigits(head: string, t1: string, middle: string, c1: string, tail: string,
                     t2: string, c2: string)
    requires forall i :: 0 <= i < |t1| ==> '0' <= t1[i] <= '9'
    requires forall i :: 0 <= i < |t2| ==> '0' <= t2[i] <= '9'
    requires forall i :: 0 <= i < |c1| ==> '0' <= c1[i] <= '9'
    requires forall i :: 0 <= i < |c2| ==> '0' <= c2[i] <= '9'
    requires middle != [] && !('0' <= middle[0] <= '9') && tail != [] && !('0' <= tail[0] <= '9')
    requires head + t1 + middle + c1 + tail == head + t2 + middle + c2 + tail
    ensures t1 == t2 && c1 == c2
  {
    var r1 := head + t1 + middle + c1 + tail;
    var r2 := head + t2 + middle + c2 + tail;
    var n := |head|;
    assert r1[n..] == t1 + (middle + c1 + tail);
    assert r2[n..] == t2 + (middle + c2 + tail);
    DigitsThenOther(t1, middle + c1 + tail, t2, middle + c2 + tail);
    var m := |middle|;
    assert (middle + c1 + tail)[m..] == c1 + tail;
    assert (middle + c2 + tail)[m..] == c2 + tail;
    DigitsThenOther(c1, tail, c2, tail);
  }

  /** Different whole-number figures give different reports: the report
      determines the total and the completed count. */
  lemma ReportDeterminesFigures(total1: nat, done1: nat, total2: nat, done2: nat)
    requires GenerateReport(map["total" := Num(total1 as real), "completed" := Num(done1 as real)]) ==
             GenerateReport(map["total" := Num(total2 as real), "completed" := Num(done2 as real)])
    ensures total1 == total2 && done1 == done2
  {
    DisplayNat(total1);
    DisplayNat(total2);
    DisplayNat(done1);
    DisplayNat(done2);
    assert ReportMiddle[0] == '\n' && ReportTail[0] == '\n';
    FramedDigits(ReportHead, NatToString(total1), ReportMiddle, NatToString(done1), ReportTail,
                 NatToString(total2), NatToString(done2));
    NatToStringInjective(total1, total2);
    NatToStringInjective(done1, done2);
  }
}
