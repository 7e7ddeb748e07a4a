/**
 * The SQLite database of backend/index.js as an object: the four tables as
 * sequences of rows in insertion order, and the AUTOINCREMENT counters. The
 * endpoints that insert or update rows are its methods; each one either fails
 * and changes nothing, or makes exactly the change its SQL statement makes.
 */
module Store {
  import opened Common
  import opened Scoring
  import opened Tables
  import opened Queries
  import opened Leaderboard

  datatype RegisterError = NamePhoneRtRequired | PhoneAlreadyRegistered
  datatype SubmitError = UserIdRequired | UserNotFoundOrInactive | AlreadyReportedToday | DailyLimitExceeded
  datatype DecideError = DecisionFieldsRequired | ReportNotFound | NotPengurusOfRt
  datatype ChallengeError = RtAndChallengeRequired | ChallengeNotFound

  /** `/report`'s answer. */
  datatype Receipt = Receipt(id: int, points: int, status: ReportStatus)

  /** `/challenges/complete`'s answer. */
  datatype Award = Award(awarded: int, reportId: int)

  /** `SELECT * FROM users WHERE id = ? AND status = 'active'`. */
  function ActiveUser(users: seq<User>, id: int): Option<nat>
  {
    Find(users, (u: User) => u.id == id && u.status == Active)
  }

  /** `SELECT id FROM reports WHERE user_id = ? AND date = ?` finds a row. */
  predicate HasReportOn(reports: seq<Report>, userId: int, day: Date)
  {
    exists k :: 0 <= k < |reports| && reports[k].userId == Some(userId) && reports[k].date == day
  }

  /** `SELECT * FROM reports WHERE id = ?`. */
  function ReportIndex(reports: seq<Report>, id: int): Option<nat>
  {
    Find(reports, (r: Report) => r.id == id)
  }

  /** `SELECT * FROM challenges WHERE id = ?`. */
  function ChallengeIndex(challenges: seq<Challenge>, id: int): Option<nat>
  {
    Find(challenges, (c: Challenge) => c.id == id)
  }

  /** A phone already held by some user (the UNIQUE constraint's test). */
  predicate PhoneTaken(users: seq<User>, phone: string)
  {
    exists k :: 0 <= k < |users| && users[k].phone == phone
  }

  /** `date || today`: an empty or missing date means today. */
  function ReportDay(date: Date, today: Date): Date
  {
    if date == "" then today else date
  }

  /** `action === 'approve' ? 'approved' : 'rejected'`. */
  function DecidedStatus(action: string): (st: ReportStatus)
    ensures st == Approved <==> action == "approve"
    ensures st != Pending
  {
    if action == "approve" then Approved else Rejected
  }

  class Database {
    var rts: seq<Rt>
    var users: seq<User>
    var reports: seq<Report>
    var challenges: seq<Challenge>
    var nextUserId: int
    var nextReportId: int

    /** The table constraints and the invariants every endpoint keeps. */
    ghost predicate Valid()
      reads this
    {
      && RtIdsUnique(rts)
      && UserIdsAscending(users, nextUserId)
      && ReportIdsAscending(reports, nextReportId)
      && PhonesUnique(users)
      && OneReportPerUserDay(reports)
      && ScoredWithinCap(reports)
    }

    /** A fresh database after the start-up seeding: three RTs, four users, one challenge. */
    constructor (now: Timestamp, today: Date)
      ensures Valid()
      ensures rts == [Rt(1, "RT 01"), Rt(2, "RT 02"), Rt(3, "RT 03")]
      ensures users == [
        User(1, "Budi Warga", "081234567890", 1, Warga, Active, now),
        User(2, "Siti Pengurus", "081234567891", 1, Pengurus, Active, now),
        User(3, "Ahmad Warga", "081234567892", 2, Warga, Active, now),
        User(4, "Rina Pengurus", "081234567893", 2, Pengurus, Active, now)]
      ensures reports == []
      ensures challenges == [Challenge(1, "Hari tanpa plastik sekali pakai",
        "Usahakan tidak menggunakan plastik sekali pakai hari ini", today, today, 50)]
      ensures nextUserId == 5 && nextReportId == 1
    {
      rts := [Rt(1, "RT 01"), Rt(2, "RT 02"), Rt(3, "RT 03")];
      users := [
        User(1, "Budi Warga", "081234567890", 1, Warga, Active, now),
        User(2, "Siti Pengurus", "081234567891", 1, Pengurus, Active, now),
        User(3, "Ahmad Warga", "081234567892", 2, Warga, Active, now),
        User(4, "Rina Pengurus", "081234567893", 2, Pengurus, Active, now)];
      reports := [];
      challenges := [Challenge(1, "Hari tanpa plastik sekali pakai",
        "Usahakan tidak menggunakan plastik sekali pakai hari ini", today, today, 50)];
      nextUserId := 5;
      nextReportId := 1;
    }

    /**
     * `/register`: a new active resident with the next user id, unless a field is
     * missing or the phone is taken. A new user whose RT exists can then log in.
     */
    method Register(name: string, phone: string, rtId: Option<int>, now: Timestamp)
      returns (r: Result<int, RegisterError>)
      requires Valid()
      modifies this
      ensures Valid()
      ensures r == Err(NamePhoneRtRequired) <==> (name == [] || phone == [] || !Present(rtId))
      ensures r == Err(PhoneAlreadyRegistered) <==>
        (name != [] && phone != [] && Present(rtId) && PhoneTaken(old(users), phone))
      ensures r.Err? ==> users == old(users) && nextUserId == old(nextUserId)
      ensures r.Ok? ==>
        && r.value == old(nextUserId)
        && users == old(users) + [User(old(nextUserId), name, phone, rtId.value, Warga, Active, now)]
        && nextUserId == old(nextUserId) + 1
      ensures r.Ok? && HasRt(rts, rtId.value) ==>
        Login(phone, users, rts).Ok? && Login(phone, users, rts).value.id == r.value
      ensures rts == old(rts) && reports == old(reports) && challenges == old(challenges)
      ensures nextReportId == old(nextReportId)
    {
      if name == [] || phone == [] || !Present(rtId) {
        return Err(NamePhoneRtRequired);
      }
      if PhoneTaken(users, phone) {
        return Err(PhoneAlreadyRegistered);
      }
      var u := User(nextUserId, name, phone, rtId.value, Warga, Active, now);
      users := users + [u];
      nextUserId := nextUserId + 1;
      r := Ok(u.id);
      if HasRt(rts, rtId.value) {
        var m := Find(rts, (rt: Rt) => rt.id == rtId.value).value;
        LoginFindsPhoneOwner(phone, users, rts, |users| - 1, m);
      }
    }

    /**
     * `/report`: checks, in this order, that a user id is given, that it names an
     * active user, that the user has no report on the day, and that no category
     * exceeds 50; the first check that fails is the answer and nothing changes.
     * Otherwise one pending report is appended, in the user's RT, carrying the
     * computed points, which are returned with its id.
     */
    method Submit(userId: Option<int>, date: Date, q: Quantities, today: Date, now: Timestamp)
      returns (r: Result<Receipt, SubmitError>)
      requires Valid()
      modifies this
      ensures Valid()
      ensures r == Err(UserIdRequired) <==> !Present(userId)
      ensures r == Err(UserNotFoundOrInactive) <==> Present(userId) && ActiveUser(users, userId.value).None?
      ensures r == Err(AlreadyReportedToday) <==>
        && Present(userId) && ActiveUser(users, userId.value).Some?
        && HasReportOn(old(reports), userId.value, ReportDay(date, today))
      ensures r == Err(DailyLimitExceeded) <==>
        && Present(userId) && ActiveUser(users, userId.value).Some?
        && !HasReportOn(old(reports), userId.value, ReportDay(date, today))
        && ExceedsCap(q)
      ensures r.Err? ==> reports == old(reports) && nextReportId == old(nextReportId)
      ensures r.Ok? ==>
        var u := users[ActiveUser(users, userId.value).value];
        && r.value == Receipt(old(nextReportId), Points(q), Pending)
        && reports == old(reports) + [Report(old(nextReportId), Some(userId.value), u.rtId,
             ReportDay(date, today), q, Points(q), Pending, None, Some(now))]
        && nextReportId == old(nextReportId) + 1
      ensures rts == old(rts) && users == old(users) && challenges == old(challenges)
      ensures nextUserId == old(nextUserId)
    {
      if !Present(userId) {
        return Err(UserIdRequired);
      }
      var k := ActiveUser(users, userId.value);
      if k.None? {
        return Err(UserNotFoundOrInactive);
      }
      var u := users[k.value];
      var day := ReportDay(date, today);
      if HasReportOn(reports, userId.value, day) {
        return Err(AlreadyReportedToday);
      }
      if ExceedsCap(q) {
        return Err(DailyLimitExceeded);
      }
      var points := Points(q);
      var report := Report(nextReportId, Some(userId.value), u.rtId, day, q, points, Pending, None, Some(now));
      reports := reports + [report];
      nextReportId := nextReportId + 1;
      r := Ok(Receipt(report.id, points, Pending));
    }

    /**
     * `/approve-report`: after the required fields, the report must exist and the
     * caller must be a pengurus of the report's RT (whatever the caller's status).
     * Then that report alone gets the new status (`approved` for the action
     * "approve", `rejected` for any other) and the caller as verifier; a report
     * already decided is decided again.
     */
    method Decide(reportId: Option<int>, pengurusId: Option<int>, action: string)
      returns (r: Result<ReportStatus, DecideError>)
      requires Valid()
      modifies this
      ensures Valid()
      ensures r == Err(DecisionFieldsRequired) <==> (!Present(reportId) || !Present(pengurusId) || action == "")
      ensures r == Err(ReportNotFound) <==>
        && Present(reportId) && Present(pengurusId) && action != ""
        && ReportIndex(old(reports), reportId.value).None?
      ensures r == Err(NotPengurusOfRt) <==>
        && Present(reportId) && Present(pengurusId) && action != ""
        && ReportIndex(old(reports), reportId.value).Some?
        && !AuthorizedFor(users, pengurusId, old(reports)[ReportIndex(old(reports), reportId.value).value].rtId)
      ensures r.Err? ==> reports == old(reports)
      ensures r.Ok? ==>
        var i := ReportIndex(old(reports), reportId.value).value;
        && r.value == DecidedStatus(action)
        && reports == old(reports)[i := old(reports)[i].(status := r.value, verifiedBy := Some(pengurusId.value))]
      ensures rts == old(rts) && users == old(users) && challenges == old(challenges)
      ensures nextUserId == old(nextUserId) && nextReportId == old(nextReportId)
    {
      if !Present(reportId) || !Present(pengurusId) || action == "" {
        return Err(DecisionFieldsRequired);
      }
      var i := ReportIndex(reports, reportId.value);
      if i.None? {
        return Err(ReportNotFound);
      }
      var report := reports[i.value];
      if !AuthorizedFor(users, pengurusId, report.rtId) {
        return Err(NotPengurusOfRt);
      }
      var status := DecidedStatus(action);
      reports := reports[i.value := report.(status := status, verifiedBy := Some(pengurusId.value))];
      r := Ok(status);
    }

    /**
     * `/challenges/complete`: for a known challenge, appends a report with no user
     * for the given RT, dated today, worth the challenge's points, in the column's
     * default status `pending`; returns the points and the new report's id.
     */
    method CompleteChallenge(rtId: Option<int>, challengeId: Option<int>, today: Date)
      returns (r: Result<Award, ChallengeError>)
      requires Valid()
      modifies this
      ensures Valid()
      ensures r == Err(RtAndChallengeRequired) <==> (!Present(rtId) || !Present(challengeId))
      ensures r == Err(ChallengeNotFound) <==>
        Present(rtId) && Present(challengeId) && ChallengeIndex(challenges, challengeId.value).None?
      ensures r.Err? ==> reports == old(reports) && nextReportId == old(nextReportId)
      ensures r.Ok? ==>
        var ch := challenges[ChallengeIndex(challenges, challengeId.value).value];
        && r.value == Award(ch.points, old(nextReportId))
        && reports == old(reports) + [Report(old(nextReportId), None, rtId.value, today,
             NO_WASTE, ch.points, Pending, None, None)]
        && nextReportId == old(nextReportId) + 1
      ensures rts == old(rts) && users == old(users) && challenges == old(challenges)
      ensures nextUserId == old(nextUserId)
    {
      if !Present(rtId) || !Present(challengeId) {
        return Err(RtAndChallengeRequired);
      }
      var k := ChallengeIndex(challenges, challengeId.value);
      if k.None? {
        return Err(ChallengeNotFound);
      }
      var ch := challenges[k.value];
      var award := Report(nextReportId, None, rtId.value, today, NO_WASTE, ch.points, Pending, None, None);
      reports := reports + [award];
      nextReportId := nextReportId + 1;
      r := Ok(Award(ch.points, award.id));
    }
  }

  /** A user's second report for one day is refused and leaves the reports as the first left them. */
  method SubmitTwice(db: Database, userId: int, date: Date, q: Quantities, q': Quantities,
                     today: Date, now: Timestamp, later: Timestamp)
    returns (first: Result<Receipt, SubmitError>, second: Result<Receipt, SubmitError>)
    requires db.Valid()
    modifies db
    ensures db.Valid()
    ensures first.Ok? ==> second == Err(AlreadyReportedToday)
    ensures first.Ok? ==> |db.reports| == |old(db.reports)| + 1
  {
    first := db.Submit(Some(userId), date, q, today, now);
    ghost var afterFirst := db.reports;
    second := db.Submit(Some(userId), date, q', today, later);
    if first.Ok? {
      assert afterFirst[|afterFirst| - 1].userId == Some(userId);
      assert HasReportOn(afterFirst, userId, ReportDay(date, today));
    }
  }

  /**
   * Approving a pending report puts its points into its RT's leaderboard total
   * and moves it from the pending to the approved count.
   */
  method ApproveAndRank(db: Database, reportId: int, pengurusId: int, rt: Rt)
    returns (r: Result<ReportStatus, DecideError>)
    requires db.Valid()
    modifies db
    ensures db.Valid()
    ensures r.Ok? ==> r.value == Approved && ReportIndex(old(db.reports), reportId).Some?
    ensures r.Ok? ==>
      var i := ReportIndex(old(db.reports), reportId).value;
      old(db.reports)[i].status == Pending && old(db.reports)[i].rtId == rt.id ==>
        && StandingOf(rt, db.reports).totalPoints == StandingOf(rt, old(db.reports)).totalPoints + old(db.reports)[i].points
        && StandingOf(rt, db.reports).approvedReports == StandingOf(rt, old(db.reports)).approvedReports + 1
        && StandingOf(rt, db.reports).pendingReports + 1 == StandingOf(rt, old(db.reports)).pendingReports
  {
    r := db.Decide(Some(reportId), Some(pengurusId), "approve");
    if r.Ok? {
      var i := ReportIndex(old(db.reports), reportId).value;
      if old(db.reports)[i].status == Pending {
        DecidingPendingReport(rt, old(db.reports), i, true, pengurusId);
      }
    }
  }
}
