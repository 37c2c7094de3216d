/** The tables of the leave application (api/models.py, core/models.py) and the one
    computed field, `LeaveRequestPerDay.leave_hours`. The relational store is the
    class `LeaveDatabase`, one field per table. */
module Models {
  import opened Basics

  type DeptId = nat
  type RoleId = nat
  type UserId = nat
  type CatId = nat

  /** Request ids are UUIDs: opaque 128-bit values, ordered as unsigned integers. */
  type Uuid = n: nat | n < 0x1_0000_0000_0000_0000_0000_0000_0000_0000

  // ---------------------------------------------------------------------------
  // Enumerations
  // ---------------------------------------------------------------------------

  datatype Status = Submitted | Locked | Approved | Rejected

  /** The integer stored in the `status` column. */
  function StatusCode(s: Status): (c: int)
    ensures 0 <= c <= 3
  {
    match s
    case Submitted => 0
    case Locked => 1
    case Approved => 2
    case Rejected => 3
  }

  /** Reading a `status` column back: only the four declared codes are choices. */
  function StatusFromCode(c: int): (r: Option<Status>)
    ensures r.Some? <==> 0 <= c <= 3
    ensures r.Some? ==> StatusCode(r.value) == c
  {
    if c == 0 then Some(Submitted)
    else if c == 1 then Some(Locked)
    else if c == 2 then Some(Approved)
    else if c == 3 then Some(Rejected)
    else None
  }

  lemma StatusCodeRoundTrip(s: Status)
    ensures StatusFromCode(StatusCode(s)) == Some(s)
  {
  }

  datatype ResetPolicy = NoReset | Monthly | Yearly

  function ResetPolicyCode(p: ResetPolicy): (c: int)
    ensures 0 <= c <= 2
  {
    match p
    case NoReset => 0
    case Monthly => 1
    case Yearly => 2
  }

  function ResetPolicyFromCode(c: int): (r: Option<ResetPolicy>)
    ensures r.Some? <==> 0 <= c <= 2
    ensures r.Some? ==> ResetPolicyCode(r.value) == c
  {
    if c == 0 then Some(NoReset)
    else if c == 1 then Some(Monthly)
    else if c == 2 then Some(Yearly)
    else None
  }

  lemma ResetPolicyCodeRoundTrip(p: ResetPolicy)
    ensures ResetPolicyFromCode(ResetPolicyCode(p)) == Some(p)
  {
  }

  /** The category names the code tests for. 生理假 is the category only female
      users are meant to use. */
  const PersonalLeave: string := "事假"
  const SickLeave: string := "病假"
  const MenstrualLeave: string := "生理假"
  const AnnualLeave: string := "特休"
  const MonsterHunterLeave: string := "魔物獵人荒野假"

  /** `User.SexChoices`: "M" and "F"; the column is nullable. */
  datatype Gender = Male | Female

  // ---------------------------------------------------------------------------
  // Rows
  // ---------------------------------------------------------------------------

  datatype Role = Role(name: string, isSupervisor: bool)

  datatype User = User(
    department: Option<DeptId>,
    role: Option<RoleId>,
    gender: Option<Gender>,
    isStaff: bool)

  /** Both ends of the effective window are optional and unrelated to each other. */
  datatype LeaveCategory = LeaveCategory(
    name: string,
    resetPolicy: ResetPolicy,
    effectiveStart: Option<int>,
    effectiveEnd: Option<int>)

  /** A category created with only its name takes the column defaults. */
  function NewCategory(name: string): (c: LeaveCategory)
    ensures c.name == name && c.resetPolicy == NoReset
    ensures c.effectiveStart.None? && c.effectiveEnd.None?
  {
    LeaveCategory(name, NoReset, None, None)
  }

  /** The `submitted_at` and `created_at` timestamps are not part of this model. */
  datatype LeaveRequest = LeaveRequest(
    uuid: Uuid,
    category: CatId,
    start: DateTime,
    end: DateTime,
    status: Status,
    comment: Option<string>,
    reason: Option<string>,
    requestUser: UserId,
    processUser: Option<UserId>,
    processedAt: Option<DateTime>)

  /** A request inserted without the defaulted columns. */
  function NewLeaveRequest(uuid: Uuid, category: CatId, start: DateTime, end: DateTime,
                           reason: Option<string>, requestUser: UserId): (r: LeaveRequest)
    ensures r.uuid == uuid && r.category == category && r.requestUser == requestUser
    ensures r.start == start && r.end == end && r.reason == reason
    ensures r.status == Submitted && r.processUser.None? && r.processedAt.None?
    ensures r.comment.None?
  {
    LeaveRequest(uuid, category, start, end, Submitted, None, reason, requestUser, None, None)
  }

  datatype PerDayEntry = PerDayEntry(date: int, startTime: Time, endTime: Time)

  /** `leave_hours`: end hour minus start hour; minutes and seconds are dropped and
      the difference is not clamped. */
  function LeaveHours(e: PerDayEntry): (h: int)
    ensures -23 <= h <= 23
    ensures h < 0 <==> e.endTime.hour < e.startTime.hour
    ensures h == 0 <==> e.endTime.hour == e.startTime.hour
  {
    e.endTime.hour - e.startTime.hour
  }

  lemma LeaveHoursIgnoresMinutes(e: PerDayEntry, m1: Minute, s1: Second, m2: Minute, s2: Second)
    ensures LeaveHours(e) == LeaveHours(PerDayEntry(e.date,
                                          Time(e.startTime.hour, m1, s1),
                                          Time(e.endTime.hour, m2, s2)))
  {
  }

  /** A request row together with its per-day rows, in insertion order. */
  datatype StoredRequest = StoredRequest(request: LeaveRequest, entries: seq<PerDayEntry>)

  // ---------------------------------------------------------------------------
  // The store
  // ---------------------------------------------------------------------------

  /** All tables. Unique (role, category) and (user, category) pairs are map keys;
      category ids come from an auto-increment counter. */
  class LeaveDatabase {
    var departments: set<DeptId>
    var roles: map<RoleId, Role>
    var users: map<UserId, User>
    var categories: map<CatId, LeaveCategory>
    var nextCategoryId: nat
    var policies: map<(RoleId, CatId), int>
    var balances: map<(UserId, CatId), int>
    var requests: map<Uuid, StoredRequest>

    /** Auto-increment ids are fresh, and policy and balance rows point at rows
        that exist. */
    ghost predicate Valid()
      reads this
    {
      && (forall c :: c in categories ==> c < nextCategoryId)
      && (forall k :: k in policies ==> k.0 in roles && k.1 in categories)
      && (forall k :: k in balances ==> k.0 in users && k.1 in categories)
    }

    constructor ()
      ensures Valid()
      ensures departments == {} && roles == map[] && users == map[] && categories == map[]
      ensures policies == map[] && balances == map[] && requests == map[]
      ensures nextCategoryId == 1
    {
      departments, roles, users, categories := {}, map[], map[], map[];
      nextCategoryId := 1;
      policies, balances, requests := map[], map[], map[];
    }
  }
}
