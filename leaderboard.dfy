/**
 * The `/leaderboard` aggregate (backend/index.js:178-188): every RT, left-joined
 * with its reports and grouped, with the sum of approved points and the numbers
 * of approved and pending reports, ordered by the total, highest first.
 */
module Leaderboard {
  import opened Common
  import opened Tables
  import opened Sorting

  /** One row of the result: `id`, `name`, `total_points`, `approved_reports`, `pending_reports`. */
  datatype Standing = Standing(
    rtId: int,
    name: string,
    totalPoints: int,
    approvedReports: nat,
    pendingReports: nat)

  /** What one report adds to an RT's `total_points`: its points when it belongs to the RT and is approved. */
  function Contribution(r: Report, rtId: int): int
  {
    if r.rtId == rtId && r.status == Approved then r.points else 0
  }

  /** `IFNULL(SUM(CASE WHEN status = 'approved' THEN points ELSE 0 END), 0)` for one RT. */
  function ApprovedPoints(reports: seq<Report>, rtId: int): int
    decreases |reports|
  {
    if reports == [] then 0 else Contribution(reports[0], rtId) + ApprovedPoints(reports[1..], rtId)
  }

  /** `COUNT(CASE WHEN status = st THEN 1 END)` for one RT. */
  function CountStatus(reports: seq<Report>, rtId: int, st: ReportStatus): nat
    decreases |reports|
  {
    if reports == [] then 0
    else (if reports[0].rtId == rtId && reports[0].status == st then 1 else 0) + CountStatus(reports[1..], rtId, st)
  }

  /** The group of one RT. */
  function StandingOf(rt: Rt, reports: seq<Report>): Standing
  {
    Standing(rt.id, rt.name, ApprovedPoints(reports, rt.id),
      CountStatus(reports, rt.id, Approved), CountStatus(reports, rt.id, Pending))
  }

  /** The groups, one per RT, before ordering. */
  function Standings(rts: seq<Rt>, reports: seq<Report>): seq<Standing>
  {
    seq(|rts|, i requires 0 <= i < |rts| => StandingOf(rts[i], reports))
  }

  function TotalOf(s: Standing): int { s.totalPoints }

  /**
   * `ORDER BY total_points DESC`: the groups in non-increasing order of their
   * totals. Ties have no defined order in the source; this is one permitted order.
   */
  function Ranking(rts: seq<Rt>, reports: seq<Report>): (rows: seq<Standing>)
    ensures SortedDesc(rows, TotalOf)
    ensures multiset(rows) == multiset(Standings(rts, reports))
  {
    SortDesc(Standings(rts, reports), TotalOf)
  }

  /**
   * The leaderboard has exactly one row per RT, RTs without reports included, and
   * each row is that RT's group.
   */
  lemma RankingOneRowPerRt(rts: seq<Rt>, reports: seq<Report>)
    requires RtIdsUnique(rts)
    ensures |Ranking(rts, reports)| == |rts|
    ensures forall rt :: rt in rts ==> StandingOf(rt, reports) in Ranking(rts, reports)
    ensures forall row :: row in Ranking(rts, reports) ==> exists rt :: rt in rts && row == StandingOf(rt, reports)
    ensures forall i, j :: 0 <= i < j < |Ranking(rts, reports)| ==>
      Ranking(rts, reports)[i].rtId != Ranking(rts, reports)[j].rtId
  {
    var groups := Standings(rts, reports);
    var rows := Ranking(rts, reports);
    assert |rows| == |multiset(rows)| == |multiset(groups)| == |groups|;
    forall rt | rt in rts
      ensures StandingOf(rt, reports) in rows
    {
      var k :| 0 <= k < |rts| && rts[k] == rt;
      assert groups[k] in multiset(groups);
    }
    forall row | row in rows
      ensures exists rt :: rt in rts && row == StandingOf(rt, reports)
    {
      assert row in multiset(groups);
      var k :| 0 <= k < |groups| && groups[k] == row;
      assert rts[k] in rts;
    }
    assert Distinct(groups) by {
      forall i, j | 0 <= i < j < |groups|
        ensures groups[i] != groups[j]
      {
        assert groups[i].rtId == rts[i].id && groups[j].rtId == rts[j].id;
      }
    }
    SortKeepsDistinct(groups, TotalOf);
    forall i, j | 0 <= i < j < |rows|
      ensures rows[i].rtId != rows[j].rtId
    {
      assert rows[i] in multiset(groups) && rows[j] in multiset(groups);
      var a :| 0 <= a < |groups| && groups[a] == rows[i];
      var b :| 0 <= b < |groups| && groups[b] == rows[j];
      assert rows[i] != rows[j];
      assert a != b;
    }
  }

  lemma {:induction false} ApprovedPointsAppend(a: seq<Report>, b: seq<Report>, rtId: int)
    ensures ApprovedPoints(a + b, rtId) == ApprovedPoints(a, rtId) + ApprovedPoints(b, rtId)
    decreases |a|
  {
    if a == [] {
      assert a + b == b;
    } else {
      assert (a + b)[1..] == a[1..] + b;
      ApprovedPointsAppend(a[1..], b, rtId);
    }
  }

  lemma {:induction false} CountStatusAppend(a: seq<Report>, b: seq<Report>, rtId: int, st: ReportStatus)
    ensures CountStatus(a + b, rtId, st) == CountStatus(a, rtId, st) + CountStatus(b, rtId, st)
    decreases |a|
  {
    if a == [] {
      assert a + b == b;
    } else {
      assert (a + b)[1..] == a[1..] + b;
      CountStatusAppend(a[1..], b, rtId, st);
    }
  }

  /** Replacing one report changes an RT's figures by exactly the difference between the old and new row. */
  lemma ReplaceEffect(rt: Rt, reports: seq<Report>, i: int, y: Report)
    requires 0 <= i < |reports|
    ensures var x := reports[i]; var s := StandingOf(rt, reports); var s' := StandingOf(rt, reports[i := y]);
      && s'.totalPoints == s.totalPoints - Contribution(x, rt.id) + Contribution(y, rt.id)
      && s'.approvedReports == s.approvedReports
           - (if x.rtId == rt.id && x.status == Approved then 1 else 0)
           + (if y.rtId == rt.id && y.status == Approved then 1 else 0)
      && s'.pendingReports == s.pendingReports
           - (if x.rtId == rt.id && x.status == Pending then 1 else 0)
           + (if y.rtId == rt.id && y.status == Pending then 1 else 0)
  {
    var pre, post := reports[..i], reports[i + 1..];
    assert reports == pre + [reports[i]] + post;
    assert reports[i := y] == pre + [y] + post;
    ApprovedPointsAppend(pre + [reports[i]], post, rt.id);
    ApprovedPointsAppend(pre, [reports[i]], rt.id);
    ApprovedPointsAppend(pre + [y], post, rt.id);
    ApprovedPointsAppend(pre, [y], rt.id);
    CountStatusAppend(pre + [reports[i]], post, rt.id, Approved);
    CountStatusAppend(pre, [reports[i]], rt.id, Approved);
    CountStatusAppend(pre + [y], post, rt.id, Approved);
    CountStatusAppend(pre, [y], rt.id, Approved);
    CountStatusAppend(pre + [reports[i]], post, rt.id, Pending);
    CountStatusAppend(pre, [reports[i]], rt.id, Pending);
    CountStatusAppend(pre + [y], post, rt.id, Pending);
    CountStatusAppend(pre, [y], rt.id, Pending);
  }

  /**
   * Deciding a pending report: approval adds its points and moves it from the
   * pending to the approved count of its RT; rejection only removes it from the
   * pending count. No other RT's row changes.
   */
  lemma DecidingPendingReport(rt: Rt, reports: seq<Report>, i: int, approve: bool, verifier: int)
    requires 0 <= i < |reports| && reports[i].status == Pending
    ensures var y := reports[i].(status := if approve then Approved else Rejected, verifiedBy := Some(verifier));
      var s := StandingOf(rt, reports); var s' := StandingOf(rt, reports[i := y]);
      if rt.id != reports[i].rtId then s' == s
      else
        && s'.rtId == s.rtId && s'.name == s.name
        && s'.totalPoints == s.totalPoints + (if approve then reports[i].points else 0)
        && s'.approvedReports == s.approvedReports + (if approve then 1 else 0)
        && s'.pendingReports + 1 == s.pendingReports
  {
    var y := reports[i].(status := if approve then Approved else Rejected, verifiedBy := Some(verifier));
    ReplaceEffect(rt, reports, i, y);
  }

  /**
   * Re-deciding an approved report as rejected takes its points back out of its
   * RT's total: the source does not keep decisions final.
   */
  lemma RejectingApprovedReport(rt: Rt, reports: seq<Report>, i: int, verifier: int)
    requires 0 <= i < |reports| && reports[i].status == Approved && reports[i].rtId == rt.id
    ensures var y := reports[i].(status := Rejected, verifiedBy := Some(verifier));
      StandingOf(rt, reports[i := y]).totalPoints == StandingOf(rt, reports).totalPoints - reports[i].points
  {
    ReplaceEffect(rt, reports, i, reports[i].(status := Rejected, verifiedBy := Some(verifier)));
  }

  /**
   * A newly inserted pending report (a submission or a challenge award) only adds
   * one to its RT's pending count: it reaches the total once it is approved.
   */
  lemma AddingPendingReport(rt: Rt, reports: seq<Report>, r: Report)
    requires r.status == Pending
    ensures var s := StandingOf(rt, reports); var s' := StandingOf(rt, reports + [r]);
      s' == (if r.rtId == rt.id then s.(pendingReports := s.pendingReports + 1) else s)
  {
    ApprovedPointsAppend(reports, [r], rt.id);
    CountStatusAppend(reports, [r], rt.id, Approved);
    CountStatusAppend(reports, [r], rt.id, Pending);
  }
}
