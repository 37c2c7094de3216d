/** The request handlers of api/views.py: the gender-gated category and balance
    listings, the caller's own requests, the administrator queue, creating,
    retrieving, updating and deleting a request, and approving or rejecting one. */
module Views {
  import opened Basics
  import opened Models
  import opened Serializers

  // ---------------------------------------------------------------------------
  // Category listing
  // ---------------------------------------------------------------------------

  /** `LeaveCategoryListAPIView.get_queryset` as written: every category for a user
      whose gender is not female (null included); for a female user, every category
      except those named 生理假. */
  function CategoryListAsWritten(categories: map<CatId, LeaveCategory>, gender: Option<Gender>): (r: set<CatId>)
    ensures r <= categories.Keys
    ensures gender != Some(Female) ==> r == categories.Keys
    ensures gender == Some(Female) ==>
              forall c :: c in categories ==> (c in r <==> categories[c].name != MenstrualLeave)
  {
    var isFemale := gender == Some(Female);
    if !isFemale then categories.Keys
    else set c | c in categories && categories[c].name != MenstrualLeave
  }

  /** The category listing with the gate the balance listing uses: 生理假 is hidden
      from every user whose gender is not female. */
  function CategoryList(categories: map<CatId, LeaveCategory>, gender: Option<Gender>): (r: set<CatId>)
    ensures r <= categories.Keys
    ensures gender == Some(Female) ==> r == categories.Keys
    ensures gender != Some(Female) ==>
              forall c :: c in categories ==> (c in r <==> categories[c].name != MenstrualLeave)
  {
    if gender == Some(Female) then categories.Keys
    else set c | c in categories && categories[c].name != MenstrualLeave
  }

  // ---------------------------------------------------------------------------
  // Balance listing
  // ---------------------------------------------------------------------------

  function MenstrualIds(categories: map<CatId, LeaveCategory>): (ids: set<CatId>)
    ensures forall c :: c in ids <==> c in categories && categories[c].name == MenstrualLeave
  {
    set c | c in categories && categories[c].name == MenstrualLeave
  }

  /** How `LeaveCategory.objects.get(name=...)` fails. */
  datatype QueryError = DoesNotExist | MultipleObjectsReturned

  /** `UserLeaveBalanceListAPIView.get_queryset`: the caller's own balance rows;
      for a caller who is not female, without the row of the one category named
      生理假, and failing when there is not exactly one such category. */
  function BalanceList(balances: map<(UserId, CatId), int>, categories: map<CatId, LeaveCategory>,
                       caller: UserId, gender: Option<Gender>): (r: Result<set<(UserId, CatId)>, QueryError>)
    ensures gender == Some(Female) ==> r.Success?
    ensures gender != Some(Female) ==> (r == Failure(DoesNotExist) <==> MenstrualIds(categories) == {})
    ensures gender != Some(Female) ==>
              (r == Failure(MultipleObjectsReturned) <==> |MenstrualIds(categories)| > 1)
    ensures r.Success? ==> forall k :: k in r.value <==>
              k in balances && k.0 == caller && (gender != Some(Female) ==> k.1 !in MenstrualIds(categories))
  {
    if gender == Some(Female) then Success(set k | k in balances && k.0 == caller)
    else
      var ids := MenstrualIds(categories);
      if |ids| == 0 then Failure(DoesNotExist)
      else if |ids| > 1 then Failure(MultipleObjectsReturned)
      else Success(set k | k in balances && k.0 == caller && k.1 !in ids)
  }

  /** The corrected category listing agrees with the balance listing: a category
      whose balance the caller is shown is also a category the caller is offered,
      and a caller who is not female sees 生理假 in neither. */
  lemma CategoryListMatchesBalanceList(balances: map<(UserId, CatId), int>,
                                       categories: map<CatId, LeaveCategory>,
                                       caller: UserId, gender: Option<Gender>, k: (UserId, CatId))
    requires forall b :: b in balances ==> b.1 in categories
    requires BalanceList(balances, categories, caller, gender).Success?
    requires k in BalanceList(balances, categories, caller, gender).value
    ensures k.1 in CategoryList(categories, gender)
    ensures gender != Some(Female) ==> categories[k.1].name != MenstrualLeave
  {
  }

  /** The listing as written disagrees with the balance listing: a female user is
      shown the 生理假 balance but is not offered the 生理假 category. */
  lemma CategoryListAsWrittenHidesFromFemale()
    ensures var categories := map[1 := NewCategory(MenstrualLeave)];
            var balances := map[(7, 1) := 8];
            && BalanceList(balances, categories, 7, Some(Female)) == Success({(7, 1)})
            && 1 !in CategoryListAsWritten(categories, Some(Female))
            && 1 in CategoryListAsWritten(categories, Some(Male))
  {
    var categories := map[1 := NewCategory(MenstrualLeave)];
    var balances := map[(7, 1) := 8];
    var listed := BalanceList(balances, categories, 7, Some(Female)).value;
    assert (7, 1) in listed;
    assert listed == {(7, 1)};
  }

  // ---------------------------------------------------------------------------
  // The caller's own requests
  // ---------------------------------------------------------------------------

  /** `NormalUserLeaveRequestListCreateAPIView.get_queryset`: exactly the requests
      the caller made. */
  function OwnRequests(requests: map<Uuid, StoredRequest>, caller: UserId): (r: set<Uuid>)
    ensures forall id :: id in r <==> id in requests && requests[id].request.requestUser == caller
  {
    set id | id in requests && requests[id].request.requestUser == caller
  }

  /** A request the caller creates joins the caller's list and nobody else's. */
  lemma CreatedJoinsOwnList(requests: map<Uuid, StoredRequest>, id: Uuid, s: StoredRequest,
                            caller: UserId, other: UserId)
    requires id !in requests && s.request.requestUser == caller && other != caller
    ensures OwnRequests(requests[id := s], caller) == OwnRequests(requests, caller) + {id}
    ensures OwnRequests(requests[id := s], other) == OwnRequests(requests, other)
  {
  }

  /** The create payload as the client sends it. `request_user` and `status` are
      read-only and `reason` is not a field of the create serializer, so all
      three are dropped. */
  datatype CreatePayload = CreatePayload(
    category: CatId,
    start: DateTime,
    end: DateTime,
    perDayEntries: Option<seq<PerDayEntry>>,
    requestUser: Option<UserId>,
    status: Option<Status>,
    reason: Option<string>)

  /** `perform_create`: `serializer.save(request_user=caller)`. */
  function CreateValidatedData(p: CreatePayload, caller: UserId): (d: CreateData)
    ensures d.requestUser == caller
    ensures d.category == p.category && d.start == p.start && d.end == p.end
    ensures d.perDayEntries == p.perDayEntries
  {
    CreateData(p.category, p.start, p.end, p.perDayEntries, caller)
  }

  /** Creating through the list/create view: the stored request belongs to the
      caller, whatever `request_user` the client sent, and starts SUBMITTED. */
  method PerformCreate(db: LeaveDatabase, id: Uuid, p: CreatePayload, caller: UserId)
      returns (r: Result<Uuid, CreateError>)
    requires id !in db.requests
    modifies db`requests
    ensures r.Failure? <==> ValidateCreate(CreateValidatedData(p, caller)).Some? || p.perDayEntries == Some([])
    ensures r.Failure? ==>
              r.error == (if ValidateCreate(CreateValidatedData(p, caller)).Some?
                          then ValidateCreate(CreateValidatedData(p, caller)).value else ReverseRelationAssigned)
    ensures r.Failure? ==> db.requests == old(db.requests)
    ensures r.Success? ==> r.value == id && db.requests.Keys == old(db.requests).Keys + {id}
    ensures r.Success? ==>
              && id in db.requests && p.start.date <= p.end.date
              && db.requests[id] == StoredRequest(NewLeaveRequest(id, p.category, p.start, p.end, None, caller),
                                                  ExpandDays(p.start, p.end))
    ensures r.Success? ==>
              && db.requests[id].request.requestUser == caller
              && db.requests[id].request.status == Submitted
              && db.requests[id].request.processUser.None?
              && db.requests[id].request.processedAt.None?
              && db.requests[id].request.reason.None?
    ensures r.Success? ==> forall x :: x in old(db.requests) ==> db.requests[x] == old(db.requests)[x]
    ensures r.Success? ==> OwnRequests(db.requests, caller) == OwnRequests(old(db.requests), caller) + {id}
    ensures WellFormedRequests(old(db.requests)) ==> WellFormedRequests(db.requests)
  {
    r := Create(db, id, CreateValidatedData(p, caller));
    if r.Success? {
      assert db.requests == old(db.requests)[id := db.requests[id]];
    }
  }

  // ---------------------------------------------------------------------------
  // Retrieve, update and destroy one request
  // ---------------------------------------------------------------------------

  datatype ViewError = NotFound | NoInstanceReturned

  /** The retrieve view looks a request up by UUID in the whole table: there is no
      owner check. */
  function Retrieve(requests: map<Uuid, StoredRequest>, id: Uuid): (r: Result<StoredRequest, ViewError>)
    ensures r.Success? <==> id in requests
    ensures r.Success? ==> r.value == requests[id]
    ensures r.Failure? ==> r.error == NotFound
  {
    if id in requests then Success(requests[id]) else Failure(NotFound)
  }

  lemma RetrieveIgnoresOwner(requests: map<Uuid, StoredRequest>, id: Uuid, caller: UserId)
    requires id in requests && requests[id].request.requestUser != caller
    ensures id !in OwnRequests(requests, caller) && Retrieve(requests, id).Success?
  {
  }

  /** PUT/PATCH on one request: the create/update serializer's `update` is an empty
      atomic block returning no instance, so the save fails after writing nothing. */
  method UpdateRequest(db: LeaveDatabase, id: Uuid) returns (r: Result<LeaveRequest, ViewError>)
    ensures r == Failure(if id in db.requests then NoInstanceReturned else NotFound)
  {
    if id !in db.requests {
      return Failure(NotFound);
    }
    // `update` returns None, and `save` asserts that an instance came back
    return Failure(NoInstanceReturned);
  }

  /** DELETE on one request, by any authenticated user; its per-day rows go with it. */
  method Destroy(db: LeaveDatabase, id: Uuid) returns (r: Result<Uuid, ViewError>)
    modifies db`requests
    ensures r.Success? <==> id in old(db.requests)
    ensures r.Failure? ==> r.error == NotFound
    ensures db.requests == old(db.requests) - {id}
    ensures WellFormedRequests(old(db.requests)) ==> WellFormedRequests(db.requests)
  {
    if id !in db.requests {
      return Failure(NotFound);
    }
    db.requests := db.requests - {id};
    return Success(id);
  }

  // ---------------------------------------------------------------------------
  // The administrator queue
  // ---------------------------------------------------------------------------

  predicate StrictlyIncreasing(s: seq<Uuid>)
  {
    forall i, j :: 0 <= i < j < |s| ==> s[i] < s[j]
  }

  /** `m` is the least element of `s`. */
  predicate IsMin(m: Uuid, s: set<Uuid>)
  {
    m in s && forall x :: x in s ==> m <= x
  }

  lemma {:induction false} MinExists(s: set<Uuid>)
    requires s != {}
    ensures exists m :: IsMin(m, s)
    decreases |s|
  {
    var y :| y in s;
    var rest := s - {y};
    assert forall x :: x in s ==> x in rest || x == y;
    if rest == {} {
      assert IsMin(y, s);
    } else {
      MinExists(rest);
      var m :| IsMin(m, rest);
      var w := if y < m then y else m;
      assert IsMin(w, s);
    }
  }

  function MinOf(s: set<Uuid>): (m: Uuid)
    requires s != {}
    ensures IsMin(m, s)
  {
    MinExists(s);
    var m :| IsMin(m, s); m
  }

  /** A finite set of UUIDs as an ascending list. */
  function SortedIds(s: set<Uuid>): (r: seq<Uuid>)
    ensures |r| == |s|
    ensures forall x :: x in r <==> x in s
    ensures StrictlyIncreasing(r)
    decreases |s|
  {
    if s == {} then []
    else
      var m := MinOf(s);
      [m] + SortedIds(s - {m})
  }

  /** `AdminUserLeaveRequestListAPIView.queryset`: the SUBMITTED requests, in
      ascending UUID order, each once. */
  function AdminQueue(requests: map<Uuid, StoredRequest>): (r: seq<Uuid>)
    ensures forall id :: id in r <==> id in requests && requests[id].request.status == Submitted
    ensures StrictlyIncreasing(r)
  {
    SortedIds(set id | id in requests && requests[id].request.status == Submitted)
  }

  // ---------------------------------------------------------------------------
  // Approve / reject
  // ---------------------------------------------------------------------------

  /** The `leave_request_action` the URL configures the view with. */
  datatype Action = Approve | Reject | NoAction

  /** The `update_kwargs` `perform_update` builds: always the caller as
      `process_user`, and a status only for approve or reject. */
  function DecisionKwargs(action: Action, caller: UserId): (k: map<Field, FieldValue>)
    ensures WellKinded(k)
    ensures ProcessUserField in k && k[ProcessUserField] == ProcessUserValue(Some(caller))
    ensures CommentField !in k
    ensures StatusField in k <==> action != NoAction
    ensures action == Approve ==> k[StatusField] == StatusValue(Approved)
    ensures action == Reject ==> k[StatusField] == StatusValue(Rejected)
  {
    var base := map[ProcessUserField := ProcessUserValue(Some(caller))];
    match action
    case Approve => base[StatusField := StatusValue(Approved)]
    case Reject => base[StatusField := StatusValue(Rejected)]
    case NoAction => base
  }

  /** What `serializer.save(**update_kwargs)` hands to `update`: the client's
      writable fields (`status` is read-only) overridden by the keywords. */
  function DecisionData(client: map<Field, FieldValue>, action: Action, caller: UserId): (d: map<Field, FieldValue>)
    requires WellKinded(client)
    ensures WellKinded(d)
  {
    (client - {StatusField}) + DecisionKwargs(action, caller)
  }

  /** The instance after a decision: status APPROVED, REJECTED or unchanged by the
      action; the caller as `process_user`, whatever the client sent; the comment
      the client sent, if any; nothing else touched, `processed_at` included. It
      holds whatever the current status is. */
  lemma DecisionOutcome(r: LeaveRequest, client: map<Field, FieldValue>, action: Action, caller: UserId)
    requires WellKinded(client)
    ensures var u := Updated(r, DecisionData(client, action, caller));
            && u.processUser == Some(caller)
            && u.status == (match action
                            case Approve => Approved
                            case Reject => Rejected
                            case NoAction => r.status)
            && u.comment == (if CommentField in client then client[CommentField].comment else r.comment)
            && u.processedAt == r.processedAt
            && u.uuid == r.uuid && u.category == r.category && u.start == r.start && u.end == r.end
            && u.reason == r.reason && u.requestUser == r.requestUser
  {
  }

  /** `LeaveRequestApproveRejectAPIView.perform_update` as written: the fields are
      set on an in-memory instance and the instance is returned, but nothing saves
      it, so the store is not written (this method has no `modifies` clause). */
  method DecideAsWritten(db: LeaveDatabase, id: Uuid, action: Action, caller: UserId,
                         client: map<Field, FieldValue>) returns (r: Result<LeaveRequest, ViewError>)
    requires WellKinded(client)
    ensures r.Success? <==> id in db.requests
    ensures r == Failure(NotFound) <==> id !in db.requests
    ensures r.Success? ==>
              id in db.requests && r.value == Updated(db.requests[id].request, DecisionData(client, action, caller))
  {
    if id !in db.requests {
      return Failure(NotFound);
    }
    var instance := new RequestInstance(db.requests[id].request);
    var updateKwargs := map[ProcessUserField := ProcessUserValue(Some(caller))];
    if action == Approve {
      updateKwargs := updateKwargs[StatusField := StatusValue(Approved)];
    } else if action == Reject {
      updateKwargs := updateKwargs[StatusField := StatusValue(Rejected)];
    }
    assert updateKwargs == DecisionKwargs(action, caller);
    instance.Update((client - {StatusField}) + updateKwargs);
    return Success(instance.Record());
  }

  /** Because the decision is not saved, an approved request stays in the
      administrator queue: the response says APPROVED while the queue, computed from
      the untouched store, still lists it as SUBMITTED. */
  lemma ApprovalIsNotPersisted(requests: map<Uuid, StoredRequest>, id: Uuid, caller: UserId,
                               client: map<Field, FieldValue>)
    requires WellKinded(client)
    requires id in requests && requests[id].request.status == Submitted
    ensures Updated(requests[id].request, DecisionData(client, Approve, caller)).status == Approved
    ensures id in AdminQueue(requests)
  {
    DecisionOutcome(requests[id].request, client, Approve, caller);
  }

  /** The store after a decision that is saved. */
  function Decided(requests: map<Uuid, StoredRequest>, id: Uuid, action: Action, caller: UserId,
                   client: map<Field, FieldValue>): map<Uuid, StoredRequest>
    requires WellKinded(client) && id in requests
  {
    requests[id := requests[id].(request := Updated(requests[id].request, DecisionData(client, action, caller)))]
  }

  /** The decision as evidently intended: the updated instance is written back. */
  method Decide(db: LeaveDatabase, id: Uuid, action: Action, caller: UserId,
                client: map<Field, FieldValue>) returns (r: Result<LeaveRequest, ViewError>)
    requires WellKinded(client)
    modifies db`requests
    ensures r.Success? <==> id in old(db.requests)
    ensures r == Failure(NotFound) <==> id !in old(db.requests)
    ensures r.Failure? ==> db.requests == old(db.requests)
    ensures r.Success? ==>
              && id in old(db.requests)
              && r.value == Updated(old(db.requests)[id].request, DecisionData(client, action, caller))
              && db.requests == Decided(old(db.requests), id, action, caller, client)
    ensures WellFormedRequests(old(db.requests)) ==> WellFormedRequests(db.requests)
  {
    r := DecideAsWritten(db, id, action, caller, client);
    if r.Success? {
      DecisionOutcome(db.requests[id].request, client, action, caller);
      db.requests := db.requests[id := db.requests[id].(request := r.value)];
    }
  }

  /** Once saved, an approved or rejected request leaves the administrator queue and
      the rest of the queue is unchanged. */
  lemma DecisionLeavesQueue(requests: map<Uuid, StoredRequest>, id: Uuid, action: Action,
                            caller: UserId, client: map<Field, FieldValue>)
    requires WellKinded(client) && id in requests && action != NoAction
    ensures forall x :: x in AdminQueue(Decided(requests, id, action, caller, client))
                     <==> x in AdminQueue(requests) && x != id
  {
    DecisionOutcome(requests[id].request, client, action, caller);
  }
}
