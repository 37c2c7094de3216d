/** The request-lifecycle logic of api/serializers.py: validating and expanding a new
    leave request into per-day rows, summing its hours, and copying validated fields
    onto a request instance. */
module Serializers {
  import opened Basics
  import opened Models

  /** `OFF_WORK_TIME`, 18:00:00: the end of every day of a multi-day request but
      the last. */
  const OffWorkTime: Time := Time(18, 0, 0)

  // ---------------------------------------------------------------------------
  // Per-day expansion
  // ---------------------------------------------------------------------------

  /** The per-day rows for the days `day` .. `endDay`. Every row starts at
      `startTime`; the row dated `endDay` ends at `endTime`, all others at 18:00. */
  function ExpandFrom(day: int, endDay: int, startTime: Time, endTime: Time): (r: seq<PerDayEntry>)
    requires day <= endDay
    ensures |r| == endDay - day + 1
    ensures forall k :: 0 <= k < |r| ==>
              r[k] == PerDayEntry(day + k, startTime, if day + k == endDay then endTime else OffWorkTime)
    decreases endDay - day
  {
    if day == endDay then [PerDayEntry(day, startTime, endTime)]
    else [PerDayEntry(day, startTime, OffWorkTime)] + ExpandFrom(day + 1, endDay, startTime, endTime)
  }

  /** The per-day rows a successful create writes for the range `start` .. `end`:
      one per calendar day, consecutive and ascending from the start date to the
      end date. */
  function ExpandDays(start: DateTime, end: DateTime): (r: seq<PerDayEntry>)
    requires start.date <= end.date
    ensures |r| == end.date - start.date + 1
    ensures r[0].date == start.date && r[|r| - 1].date == end.date
    ensures forall k :: 0 <= k < |r| ==> r[k].date == start.date + k
    ensures forall k :: 0 <= k < |r| ==> r[k].startTime == start.time
    ensures forall k :: 0 <= k < |r| ==>
              r[k].endTime == if r[k].date == end.date then end.time else OffWorkTime
    ensures start.date == end.date ==> r == [PerDayEntry(start.date, start.time, end.time)]
  {
    ExpandFrom(start.date, end.date, start.time, end.time)
  }

  // ---------------------------------------------------------------------------
  // Creating a request
  // ---------------------------------------------------------------------------

  datatype CreateError =
    | EntriesProvided          // the caller sent per-day entries
    | StartAfterEnd            // effective start is later than effective end
    | NotOnTheHour             // a minute component is not zero
    | ReverseRelationAssigned  // an empty entry list reaches the row constructor, which refuses it

  /** `validated_data` as `create` receives it: the serializer's writable fields
      (`reason` is not one of them) merged with the `request_user` the view saves. */
  datatype CreateData = CreateData(
    category: CatId,
    start: DateTime,
    end: DateTime,
    perDayEntries: Option<seq<PerDayEntry>>,
    requestUser: UserId)

  /** The three checks of `create`, in their order. An empty list of per-day
      entries is falsy and passes the first check. */
  function ValidateCreate(d: CreateData): (r: Option<CreateError>)
    ensures r == Some(EntriesProvided) <==> d.perDayEntries.Some? && |d.perDayEntries.value| > 0
    ensures r == Some(StartAfterEnd) <==>
              (d.perDayEntries.None? || d.perDayEntries.value == []) && Before(d.end, d.start)
    ensures r == Some(NotOnTheHour) <==>
              (d.perDayEntries.None? || d.perDayEntries.value == []) && !Before(d.end, d.start)
              && (d.start.time.minute != 0 || d.end.time.minute != 0)
    ensures r.None? ==> d.start.date <= d.end.date
    ensures r != Some(ReverseRelationAssigned)
  {
    if d.perDayEntries.Some? && |d.perDayEntries.value| > 0 then Some(EntriesProvided)
    else if Before(d.end, d.start) then Some(StartAfterEnd)
    else if d.start.time.minute != 0 || d.end.time.minute != 0 then Some(NotOnTheHour)
    else None
  }

  /** What a stored request looks like when `create` wrote it: an accepted range
      and exactly the expansion of that range as its per-day rows. */
  ghost predicate WellFormedRequest(id: Uuid, s: StoredRequest)
  {
    && s.request.uuid == id
    && !Before(s.request.end, s.request.start)
    && s.request.start.time.minute == 0 && s.request.end.time.minute == 0
    && s.entries == ExpandDays(s.request.start, s.request.end)
  }

  ghost predicate WellFormedRequests(m: map<Uuid, StoredRequest>)
  {
    forall id :: id in m ==> WellFormedRequest(id, m[id])
  }

  /** The per-day loop of `create`: onto the request row `id`, which has no
      per-day rows yet, one row per calendar day of `start` .. `end`. */
  method WriteEntries(db: LeaveDatabase, id: Uuid, start: DateTime, end: DateTime)
    requires start.date <= end.date
    requires id in db.requests && db.requests[id].entries == []
    modifies db`requests
    ensures db.requests == old(db.requests)[id := old(db.requests)[id].(entries := ExpandDays(start, end))]
  {
    var startDate, startTime := start.date, start.time;
    var endDate, endTime := end.date, end.time;
    ghost var expansion := ExpandDays(start, end);
    if endDate != startDate {
      var i := 0;
      while i < endDate - startDate + 1
        invariant 0 <= i <= endDate - startDate + 1
        invariant db.requests == old(db.requests)[id := old(db.requests)[id].(entries := expansion[..i])]
      {
        var date := startDate + i;
        var entry := PerDayEntry(date, startTime, if endDate == date then endTime else OffWorkTime);
        assert expansion[..i + 1] == expansion[..i] + [entry];
        db.requests := db.requests[id := db.requests[id].(entries := db.requests[id].entries + [entry])];
        i := i + 1;
      }
      assert expansion[..i] == expansion;
    } else {
      assert [] + [PerDayEntry(startDate, startTime, endTime)] == expansion;
      db.requests := db.requests[id := db.requests[id].(entries := db.requests[id].entries
                                          + [PerDayEntry(startDate, startTime, endTime)])];
    }
  }

  /** `LeaveRequestCreateUpdateSerializer.create`. Every check runs before the
      atomic block, so a rejected request writes nothing; an accepted one writes
      the request row and then one per-day row per calendar day. `id` is the
      fresh UUID the database default generates. */
  method Create(db: LeaveDatabase, id: Uuid, d: CreateData) returns (r: Result<Uuid, CreateError>)
    requires id !in db.requests
    modifies db`requests
    ensures r.Failure? <==> ValidateCreate(d).Some? || d.perDayEntries == Some([])
    ensures r.Failure? ==>
              r.error == (if ValidateCreate(d).Some? then ValidateCreate(d).value else ReverseRelationAssigned)
    ensures r.Failure? ==> db.requests == old(db.requests)
    ensures r.Success? ==> r.value == id && d.start.date <= d.end.date
    ensures r.Success? ==>
              db.requests == old(db.requests)[id := StoredRequest(
                NewLeaveRequest(id, d.category, d.start, d.end, None, d.requestUser),
                ExpandDays(d.start, d.end))]
    ensures WellFormedRequests(old(db.requests)) ==> WellFormedRequests(db.requests)
  {
    if d.perDayEntries.Some? && |d.perDayEntries.value| > 0 {
      return Failure(EntriesProvided);
    }
    if Before(d.end, d.start) {
      return Failure(StartAfterEnd);
    }
    if d.start.time.minute != 0 || d.end.time.minute != 0 {
      return Failure(NotOnTheHour);
    }
    // Inside the atomic block: the row constructor refuses a per_day_entries
    // keyword, and the rollback leaves the store as it was.
    if d.perDayEntries.Some? {
      return Failure(ReverseRelationAssigned);
    }
    var request := NewLeaveRequest(id, d.category, d.start, d.end, None, d.requestUser);
    db.requests := db.requests[id := StoredRequest(request, [])];

    WriteEntries(db, id, d.start, d.end);
    r := Success(id);
    assert WellFormedRequest(id, db.requests[id]);
  }

  // ---------------------------------------------------------------------------
  // Total leave hours
  // ---------------------------------------------------------------------------

  /** The sum of `leave_hours` over a sequence of per-day rows. */
  function SumLeaveHours(entries: seq<PerDayEntry>): (r: int)
    ensures -23 * |entries| <= r <= 23 * |entries|
  {
    if entries == [] then 0 else LeaveHours(entries[0]) + SumLeaveHours(entries[1..])
  }

  lemma {:induction false} SumLeaveHoursAppend(a: seq<PerDayEntry>, b: seq<PerDayEntry>)
    ensures SumLeaveHours(a + b) == SumLeaveHours(a) + SumLeaveHours(b)
  {
    if a == [] {
      assert a + b == b;
    } else {
      assert (a + b)[1..] == a[1..] + b;
      SumLeaveHoursAppend(a[1..], b);
    }
  }

  /** `get_total_leave_hours`: accumulates `leave_hours` over the request's per-day
      rows; 0 when there are none. */
  method TotalLeaveHours(obj: StoredRequest) returns (totalHours: int)
    ensures totalHours == SumLeaveHours(obj.entries)
    ensures obj.entries == [] ==> totalHours == 0
  {
    totalHours := 0;
    var i := 0;
    while i < |obj.entries|
      invariant 0 <= i <= |obj.entries|
      invariant totalHours == SumLeaveHours(obj.entries[..i])
    {
      assert obj.entries[..i + 1] == obj.entries[..i] + [obj.entries[i]];
      SumLeaveHoursAppend(obj.entries[..i], [obj.entries[i]]);
      totalHours := totalHours + LeaveHours(obj.entries[i]);
      i := i + 1;
    }
    assert obj.entries[..i] == obj.entries;
  }

  /** The total hours of an expansion in closed form: each day but the last counts
      `18 - start hour`, the last `end hour - start hour`. */
  lemma {:induction false} ExpandFromTotal(day: int, endDay: int, startTime: Time, endTime: Time)
    requires day <= endDay
    ensures SumLeaveHours(ExpandFrom(day, endDay, startTime, endTime))
         == (endDay - day) * (OffWorkTime.hour - startTime.hour) + (endTime.hour - startTime.hour)
    decreases endDay - day
  {
    var r := ExpandFrom(day, endDay, startTime, endTime);
    if day < endDay {
      assert r[1..] == ExpandFrom(day + 1, endDay, startTime, endTime);
      ExpandFromTotal(day + 1, endDay, startTime, endTime);
      var n := endDay - day;
      var x := OffWorkTime.hour - startTime.hour;
      assert n * x == (n - 1) * x + x;
    }
  }

  /** The total leave hours of a created request, which is negative, for instance,
      when the start hour is after 18 on a multi-day request. */
  lemma CreatedTotal(start: DateTime, end: DateTime)
    requires start.date <= end.date
    ensures SumLeaveHours(ExpandDays(start, end))
         == (end.date - start.date) * (18 - start.time.hour) + (end.time.hour - start.time.hour)
  {
    ExpandFromTotal(start.date, end.date, start.time, end.time);
  }

  /** 2025-03-03 09:00 to 2025-03-05 18:00: three rows, each 09:00-18:00,
      27 hours in all. */
  lemma ThreeDayRequest()
    ensures var s := DateTime(739313, Time(9, 0, 0));
            var e := DateTime(739315, Time(18, 0, 0));
            && ExpandDays(s, e) == [PerDayEntry(739313, Time(9, 0, 0), Time(18, 0, 0)),
                                    PerDayEntry(739314, Time(9, 0, 0), Time(18, 0, 0)),
                                    PerDayEntry(739315, Time(9, 0, 0), Time(18, 0, 0))]
            && SumLeaveHours(ExpandDays(s, e)) == 27
  {
    var s := DateTime(739313, Time(9, 0, 0));
    var e := DateTime(739315, Time(18, 0, 0));
    var r := ExpandDays(s, e);
    assert |r| == 3;
    CreatedTotal(s, e);
  }

  /** A request that passes every check yet totals -3 hours: 20:00 on one day to
      19:00 the next. */
  lemma AcceptedRequestWithNegativeTotal()
    ensures var d := CreateData(0, DateTime(1, Time(20, 0, 0)), DateTime(2, Time(19, 0, 0)), None, 0);
            ValidateCreate(d).None? && SumLeaveHours(ExpandDays(d.start, d.end)) == -3
  {
    CreatedTotal(DateTime(1, Time(20, 0, 0)), DateTime(2, Time(19, 0, 0)));
  }

  // ---------------------------------------------------------------------------
  // Approve / reject: copying validated fields onto the instance
  // ---------------------------------------------------------------------------

  /** The writable columns of the approve/reject serializer, plus `status`, which
      only the view's save keywords set. */
  datatype Field = StatusField | ProcessUserField | CommentField

  datatype FieldValue =
    | StatusValue(status: Status)
    | ProcessUserValue(processUser: Option<UserId>)
    | CommentValue(comment: Option<string>)

  function FieldOf(v: FieldValue): Field
  {
    match v
    case StatusValue(_) => StatusField
    case ProcessUserValue(_) => ProcessUserField
    case CommentValue(_) => CommentField
  }

  /** Each field carries a value of its own column type. */
  ghost predicate WellKinded(data: map<Field, FieldValue>)
  {
    forall f :: f in data ==> FieldOf(data[f]) == f
  }

  /** `setattr(instance, attr, value)` for one validated item. */
  function Assign(r: LeaveRequest, v: FieldValue): LeaveRequest
  {
    match v
    case StatusValue(s) => r.(status := s)
    case ProcessUserValue(u) => r.(processUser := u)
    case CommentValue(c) => r.(comment := c)
  }

  /** The instance after every validated item is copied onto it: each field in
      `data` takes its value, every other field keeps its own. */
  function Updated(r: LeaveRequest, data: map<Field, FieldValue>): (u: LeaveRequest)
    requires WellKinded(data)
  {
    r.(status := if StatusField in data then data[StatusField].status else r.status,
       processUser := if ProcessUserField in data then data[ProcessUserField].processUser else r.processUser,
       comment := if CommentField in data then data[CommentField].comment else r.comment)
  }

  lemma UpdatedStep(r: LeaveRequest, data: map<Field, FieldValue>, done: set<Field>, f: Field)
    requires WellKinded(data) && f in data && f !in done && done <= data.Keys
    ensures WellKinded(data - (data.Keys - done))
    ensures WellKinded(data - (data.Keys - (done + {f})))
    ensures Updated(r, data - (data.Keys - (done + {f})))
         == Assign(Updated(r, data - (data.Keys - done)), data[f])
  {
  }

  /** An in-memory `LeaveRequest` instance, whose fields `update` sets in place. */
  class RequestInstance {
    var uuid: Uuid
    var category: CatId
    var start: DateTime
    var end: DateTime
    var status: Status
    var comment: Option<string>
    var reason: Option<string>
    var requestUser: UserId
    var processUser: Option<UserId>
    var processedAt: Option<DateTime>

    function Record(): LeaveRequest
      reads this
    {
      LeaveRequest(uuid, category, start, end, status, comment, reason, requestUser,
                   processUser, processedAt)
    }

    /** The instance the view loads from the store. */
    constructor (r: LeaveRequest)
      ensures Record() == r
    {
      uuid, category, start, end := r.uuid, r.category, r.start, r.end;
      status, comment, reason := r.status, r.comment, r.reason;
      requestUser, processUser, processedAt := r.requestUser, r.processUser, r.processedAt;
    }

    /** `LeaveRequestApproveRejectSerializer.update`: the setattr loop over the
        validated items. It never saves the instance. */
    method Update(validatedData: map<Field, FieldValue>)
      requires WellKinded(validatedData)
      modifies this
      ensures Record() == Updated(old(Record()), validatedData)
    {
      var pending := validatedData.Keys;
      ghost var done: set<Field> := {};
      assert validatedData - (validatedData.Keys - done) == map[];
      while pending != {}
        invariant pending == validatedData.Keys - done && done <= validatedData.Keys
        invariant WellKinded(validatedData - (validatedData.Keys - done))
        invariant Record() == Updated(old(Record()), validatedData - (validatedData.Keys - done))
        decreases pending
      {
        var attr :| attr in pending;
        UpdatedStep(old(Record()), validatedData, done, attr);
        match validatedData[attr] {
          case StatusValue(s) => status := s;
          case ProcessUserValue(u) => processUser := u;
          case CommentValue(c) => comment := c;
        }
        pending := pending - {attr};
        done := done + {attr};
      }
      assert validatedData - (validatedData.Keys - done) == validatedData;
    }
  }
}
