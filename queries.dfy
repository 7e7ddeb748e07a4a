/**
 * The read-only endpoints over the tables: `/login` (backend/index.js:124-130),
 * the administrator check shared by the approval endpoints
 * (backend/index.js:196, 215) and `/pending-reports/:rt_id`
 * (backend/index.js:191-205).
 */
module Queries {
  import opened Common
  import opened Tables
  import opened Sorting

  datatype LoginError = PhoneRequired | NoActiveUserWithPhone

  /** The `user` object `/login` answers with: the user's columns and the name of their RT. */
  datatype LoginInfo = LoginInfo(id: int, name: string, phone: string, rtId: int, rtName: string, role: Role)

  /** `users u JOIN rts r ON u.rt_id = r.id WHERE u.phone = ? AND u.status = 'active'`, for one pair. */
  predicate LoginMatch(u: User, rt: Rt, phone: string)
  {
    u.phone == phone && u.status == Active && u.rtId == rt.id
  }

  function HasRt(rts: seq<Rt>, id: int): bool
  {
    Find(rts, (rt: Rt) => rt.id == id).Some?
  }

  /**
   * `/login`: an empty phone is refused; otherwise the first active user with
   * that phone whose RT exists, with the RT's name.
   */
  function Login(phone: string, users: seq<User>, rts: seq<Rt>): (r: Result<LoginInfo, LoginError>)
    ensures r == Err(PhoneRequired) <==> phone == []
    ensures r.Ok? ==> exists u, rt ::
      u in users && rt in rts && LoginMatch(u, rt, phone) &&
      r.value == LoginInfo(u.id, u.name, u.phone, u.rtId, rt.name, u.role)
    ensures r == Err(NoActiveUserWithPhone) <==>
      phone != [] && forall u, rt :: u in users && rt in rts ==> !LoginMatch(u, rt, phone)
  {
    if phone == [] then Err(PhoneRequired)
    else
      match Find(users, (u: User) => u.phone == phone && u.status == Active && HasRt(rts, u.rtId))
      case None =>
        assert forall u, rt :: u in users && rt in rts && LoginMatch(u, rt, phone) ==> HasRt(rts, u.rtId);
        Err(NoActiveUserWithPhone)
      case Some(i) =>
        var u := users[i];
        var j := Find(rts, (rt: Rt) => rt.id == u.rtId).value;
        assert LoginMatch(u, rts[j], phone);
        Ok(LoginInfo(u.id, u.name, u.phone, u.rtId, rts[j].name, u.role))
  }

  /** With unique phones and RT ids, logging in finds exactly the active user holding the phone. */
  lemma LoginFindsPhoneOwner(phone: string, users: seq<User>, rts: seq<Rt>, k: int, m: int)
    requires PhonesUnique(users) && RtIdsUnique(rts)
    requires 0 <= k < |users| && 0 <= m < |rts| && LoginMatch(users[k], rts[m], phone) && phone != []
    ensures Login(phone, users, rts) ==
      Ok(LoginInfo(users[k].id, users[k].name, phone, users[k].rtId, rts[m].name, users[k].role))
  {
  }

  /** `SELECT * FROM users WHERE id = ? AND role = 'pengurus' AND rt_id = ?`: the user's status is not consulted. */
  predicate IsPengurus(u: User, id: int, rtId: int)
  {
    u.id == id && u.role == Pengurus && u.rtId == rtId
  }

  /** Whether the caller-supplied id names an administrator of the RT (a missing id names nobody). */
  function AuthorizedFor(users: seq<User>, pengurusId: Option<int>, rtId: int): (ok: bool)
    ensures ok <==> pengurusId.Some? && exists k :: 0 <= k < |users| && IsPengurus(users[k], pengurusId.value, rtId)
  {
    pengurusId.Some? && Find(users, (u: User) => IsPengurus(u, pengurusId.value, rtId)).Some?
  }

  /** A row of the pending list: the report's columns and the submitter's name. */
  datatype PendingRow = PendingRow(report: Report, userName: string)

  /** `WHERE r.rt_id = ? AND r.status = 'pending'`. */
  predicate Listed(r: Report, rtId: int)
  {
    r.rtId == rtId && r.status == Pending
  }

  /** The user a report's `user_id` joins with, if any. */
  function Submitter(r: Report, users: seq<User>): Option<nat>
  {
    if r.userId.None? then None else Find(users, (u: User) => u.id == r.userId.value)
  }

  /**
   * `reports r JOIN users u ON r.user_id = u.id WHERE ...`, in table order: a
   * report without a user, or whose user is missing, has no row.
   */
  function PendingJoin(reports: seq<Report>, users: seq<User>, rtId: int): (rows: seq<PendingRow>)
    ensures forall row :: row in rows ==>
      row.report in reports && Listed(row.report, rtId) &&
      Submitter(row.report, users).Some? && row.userName == users[Submitter(row.report, users).value].name
    ensures forall r :: r in reports && Listed(r, rtId) && Submitter(r, users).Some? ==>
      PendingRow(r, users[Submitter(r, users).value].name) in rows
    decreases |reports|
  {
    if reports == [] then []
    else
      var r := reports[0];
      var rest := PendingJoin(reports[1..], users, rtId);
      assert forall x :: x in reports ==> x == r || x in reports[1..];
      match Submitter(r, users)
      case Some(k) =>
        if Listed(r, rtId) then [PendingRow(r, users[k].name)] + rest else rest
      case None => rest
  }

  /**
   * The join yields one row per occurrence of a report: a row appears in the
   * result exactly as many times as its report appears in the table (one inner
   * join with a single user per report).
   */
  lemma {:induction false} PendingJoinOncePerReport(reports: seq<Report>, users: seq<User>, rtId: int)
    ensures forall row :: row in PendingJoin(reports, users, rtId) ==>
      multiset(PendingJoin(reports, users, rtId))[row] == multiset(reports)[row.report]
    decreases |reports|
  {
    if reports != [] {
      var r, tail := reports[0], reports[1..];
      PendingJoinOncePerReport(tail, users, rtId);
      assert reports == [r] + tail;
      var rows, rest := PendingJoin(reports, users, rtId), PendingJoin(tail, users, rtId);
      forall row | row in rows
        ensures multiset(rows)[row] == multiset(reports)[row.report]
      {
        if Listed(r, rtId) && Submitter(r, users).Some? {
          var name := users[Submitter(r, users).value].name;
          assert rows == [PendingRow(r, name)] + rest;
          if row.report == r {
            assert row == PendingRow(r, name);
          }
        } else {
          assert rows == rest;
          assert row.report != r;
        }
      }
    }
  }

  /** With unique report ids (the AUTOINCREMENT key), every pending row occurs once. */
  lemma PendingRowsDistinct(reports: seq<Report>, users: seq<User>, rtId: int)
    requires forall i, j :: 0 <= i < j < |reports| ==> reports[i].id < reports[j].id
    ensures forall row :: row in PendingJoin(reports, users, rtId) ==>
      multiset(PendingJoin(reports, users, rtId))[row] == 1
  {
    PendingJoinOncePerReport(reports, users, rtId);
    forall row | row in PendingJoin(reports, users, rtId)
      ensures multiset(reports)[row.report] == 1
    {
      OccursOnce(reports, row.report);
    }
  }

  /** In a table with strictly ascending ids, each of its rows occurs once. */
  lemma {:induction false} OccursOnce(reports: seq<Report>, r: Report)
    requires forall i, j :: 0 <= i < j < |reports| ==> reports[i].id < reports[j].id
    requires r in reports
    ensures multiset(reports)[r] == 1
    decreases |reports|
  {
    assert reports == [reports[0]] + reports[1..];
    if r == reports[0] {
      assert r !in reports[1..];
    } else {
      OccursOnce(reports[1..], r);
    }
  }

  /** `ORDER BY r.created_at DESC`; a NULL `created_at` sorts last. */
  function CreatedKey(row: PendingRow): int
  {
    match row.report.createdAt
    case Some(t) => t
    case None => -1
  }

  datatype AccessError = AccessDenied

  /**
   * `/pending-reports/:rt_id`: refused unless the caller is an administrator of
   * that RT; otherwise the RT's pending reports that join with a user, newest
   * first (equal timestamps in no defined order).
   */
  function PendingReports(rtId: int, pengurusId: Option<int>, users: seq<User>, reports: seq<Report>)
    : (r: Result<seq<PendingRow>, AccessError>)
    ensures r.Err? <==> !AuthorizedFor(users, pengurusId, rtId)
    ensures r.Ok? ==> SortedDesc(r.value, CreatedKey)
    ensures r.Ok? ==> multiset(r.value) == multiset(PendingJoin(reports, users, rtId))
    ensures r.Ok? ==> forall row :: row in r.value <==> row in PendingJoin(reports, users, rtId)
  {
    if !AuthorizedFor(users, pengurusId, rtId) then Err(AccessDenied)
    else
      var rows := SortDesc(PendingJoin(reports, users, rtId), CreatedKey);
      assert forall row :: row in rows <==> row in multiset(rows);
      Ok(rows)
  }

  /**
   * What an administrator sees: exactly the pending reports of the RT whose user
   * exists; challenge awards, which have no user, never appear.
   */
  lemma PendingListContents(rtId: int, pengurusId: Option<int>, users: seq<User>, reports: seq<Report>, r: Report)
    requires AuthorizedFor(users, pengurusId, rtId)
    ensures var rows := PendingReports(rtId, pengurusId, users, reports).value;
      (exists name :: PendingRow(r, name) in rows) <==>
        (r in reports && Listed(r, rtId) && Submitter(r, users).Some?)
    ensures r.userId.None? ==> forall row :: row in PendingReports(rtId, pengurusId, users, reports).value ==> row.report != r
  {
  }
}
