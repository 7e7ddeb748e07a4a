/**
 * The four tables of backend/index.js:54-95 as records, and the row lookup
 * every endpoint uses (`.get()`: the first row, in table order, that matches).
 */
module Tables {
  import opened Common
  import opened Scoring

  /** A calendar day, `YYYY-MM-DD`, compared only for equality. */
  type Date = string

  /** A `created_at` instant; only its order matters. */
  type Timestamp = nat

  /** `users.role`: 'warga' (resident, the column default) or 'pengurus' (administrator). */
  datatype Role = Warga | Pengurus

  /** `users.status`: 'active' (the column default) or anything else. */
  datatype UserStatus = Active | Inactive

  /** `reports.status`: 'pending' (the column default), 'approved' or 'rejected'. */
  datatype ReportStatus = Pending | Approved | Rejected

  /** A neighbourhood (RT). */
  datatype Rt = Rt(id: int, name: string)

  datatype User = User(
    id: int,
    name: string,
    phone: string,
    rtId: int,
    role: Role,
    status: UserStatus,
    createdAt: Timestamp)

  /**
   * A report row. A challenge award is a report with no user, zero quantities
   * and no `created_at`; `verifiedBy` is set by an approval decision.
   */
  datatype Report = Report(
    id: int,
    userId: Option<int>,
    rtId: int,
    date: Date,
    quantities: Quantities,
    points: int,
    status: ReportStatus,
    verifiedBy: Option<int>,
    createdAt: Option<Timestamp>)

  datatype Challenge = Challenge(
    id: int,
    title: string,
    description: string,
    startDate: Date,
    endDate: Date,
    points: int)

  /** A request field passes JavaScript's `!field` test: present and not 0. */
  predicate Present(field: Option<int>)
  {
    field.Some? && field.value != 0
  }

  /** The position of the first row satisfying `p`, if any. */
  function Find<T>(rows: seq<T>, p: T -> bool): (r: Option<nat>)
    ensures r.Some? ==> r.value < |rows| && p(rows[r.value])
    ensures r.Some? ==> forall k :: 0 <= k < r.value ==> !p(rows[k])
    ensures r.None? <==> forall k :: 0 <= k < |rows| ==> !p(rows[k])
    decreases |rows|
  {
    if rows == [] then None
    else if p(rows[0]) then Some(0)
    else
      match Find(rows[1..], p)
      case None => None
      case Some(k) => Some(k + 1)
  }

  /** Row ids strictly increase along the table, as AUTOINCREMENT assigns them, and stay below the next id. */
  ghost predicate UserIdsAscending(users: seq<User>, nextId: int)
  {
    && (forall i, j :: 0 <= i < j < |users| ==> users[i].id < users[j].id)
    && (forall i :: 0 <= i < |users| ==> users[i].id < nextId)
  }

  ghost predicate ReportIdsAscending(reports: seq<Report>, nextId: int)
  {
    && (forall i, j :: 0 <= i < j < |reports| ==> reports[i].id < reports[j].id)
    && (forall i :: 0 <= i < |reports| ==> reports[i].id < nextId)
  }

  /** The UNIQUE constraint on `users.phone`. */
  ghost predicate PhonesUnique(users: seq<User>)
  {
    forall i, j :: 0 <= i < j < |users| ==> users[i].phone != users[j].phone
  }

  /** The primary key of `rts`. */
  ghost predicate RtIdsUnique(rts: seq<Rt>)
  {
    forall i, j :: 0 <= i < j < |rts| ==> rts[i].id != rts[j].id
  }

  /** At most one user-submitted report per (user, date). */
  ghost predicate OneReportPerUserDay(reports: seq<Report>)
  {
    forall i, j :: 0 <= i < j < |reports| && reports[i].userId.Some? ==>
      reports[i].userId != reports[j].userId || reports[i].date != reports[j].date
  }

  /** A user-submitted report is within the daily cap and carries the points of its quantities. */
  ghost predicate ScoredWithinCap(reports: seq<Report>)
  {
    forall i :: 0 <= i < |reports| && reports[i].userId.Some? ==>
      !ExceedsCap(reports[i].quantities) && reports[i].points == Points(reports[i].quantities)
  }
}
