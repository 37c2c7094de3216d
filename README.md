# Leave requests: a Dafny model

This project models the core of a Django REST Framework leave-request service:

- Employees file leave requests, and each request is expanded into one row per calendar day.
- Administrators approve or reject requests from a queue of submitted ones.
- A seeding command fills in the leave categories, a default amount per (role, category) and a starting balance per (user, category).
- A browser script shows each balance as days and hours.

The store is the class `Models.LeaveDatabase`, with one field per table. Operations that change the store are methods that name the tables they write in `modifies`. Queries are functions over those tables. Each operation is tied to a specification function, and lemmas prove what that function promises.

Modules, in dependency order:

- `Basics` (basics.dfy): `Option`, `Result`, times of day and naive datetimes. Python's datetime comparison is modelled as a lexicographic order.
- `Models` (models.dfy): the status and reset-policy enumerations with their stored codes, the rows, `leave_hours`, and the store.
- `Serializers` (serializers.dfy):
  - request creation with its three checks and the per-day expansion;
  - the total-hours loop;
  - the `setattr` loop of the approve/reject serializer, on an in-memory `RequestInstance`.
- `Views` (views.dfy): the gender-gated category and balance listings, the caller's own requests, the administrator queue, create/retrieve/update/destroy, and approve/reject.
- `Populate` (populate.dfy): the seeding command.
  - Categories are filled by get-or-create by name.
  - The policy and balance fills are loops over roles × categories and eligible users × categories that never overwrite a row.
  - Supervisors are promoted to staff.
  - `--empty` deletes everything.
- `LeavesJs` (leaves_js.dfy): the days/hours conversion, the line format (proved to read back), and the list rebuild.

Where the code does something other than what a leave-request workflow would be expected to do, the model follows the code:

- Every per-day row starts at the request's own start time; no workday-start constant is used. The last day ends at the requested end time, and every other day at 18:00.
- A decision sets `process_user` and the status but never `processed_at`, and it is not saved at all (see Findings). Nothing stops a decided request from being decided again.
- Retrieve, update and destroy look a request up in the whole table; there is no owner check.
- The create serializer has no `reason` field, so a created request always has a null reason.
- The category list hides 生理假 from *female* users, while the balance list hides it from the others (see Findings).
- An empty `per_day_entries` list passes the first check, because it is falsy. Creating the row with it then fails, so the model returns `ReverseRelationAssigned` and writes nothing.
- Nothing orders the two ends of a category's effective window.

## Model

| member | source | states |
|---|---|---|
| Basics.BeforeTrichotomy | api/serializers.py:149-152 | the datetime order used by the start/end check is total: exactly one of before, equal, after holds |
| Basics.BeforeTransitive | api/serializers.py:149-152 | the datetime order is transitive |
| Models.StatusCode | api/models.py:56-60 | each status is stored as one of the codes 0..3 |
| Models.StatusFromCode | api/models.py:56-60 | a stored code is a valid choice exactly when it lies in 0..3, and then it encodes back to the same code |
| Models.StatusCodeRoundTrip | api/models.py:56-60 | decoding a status's code gives the status back |
| Models.ResetPolicyCode | api/models.py:9-12 | each reset policy is stored as one of the codes 0..2 |
| Models.ResetPolicyFromCode | api/models.py:9-12 | a stored code is a valid choice exactly when it lies in 0..2, and then it encodes back to the same code |
| Models.ResetPolicyCodeRoundTrip | api/models.py:9-12 | decoding a reset policy's code gives the policy back |
| Models.NewCategory | api/models.py:14-21 | a category created with only a name gets reset policy NONE and no effective dates |
| Models.NewLeaveRequest | api/models.py:62-92 | a new request is SUBMITTED, with no processor, no processing time and no comment, and keeps the given id, category, range, reason and requester |
| Models.LeaveHours | api/models.py:110-114 | end hour minus start hour, not clamped: negative exactly when the end hour is earlier, zero exactly when the hours are equal |
| Models.LeaveHoursIgnoresMinutes | api/models.py:114 | changing minutes or seconds never changes `leave_hours` |
| Serializers.ExpandFrom | api/serializers.py:170-187 | the rows for days `day..endDay`: one per day, consecutive dates, all starting at the start time, ending at the end time on `endDay` and at 18:00 before it |
| Serializers.ExpandDays | api/serializers.py:165-187 | the created rows for a range: end − start + 1 rows, dated start to end ascending, each starting at the request's start time, ending at its end time on the end date and at 18:00 otherwise; one row as given for a single day |
| Serializers.ValidateCreate | api/serializers.py:144-157 | the three checks in order: non-empty entries, then start after end, then a minute that is not zero; each error is reported exactly under its condition, and passing implies start date ≤ end date |
| Serializers.WriteEntries | api/serializers.py:165-187 | the per-day loop leaves the request row with exactly the expansion of its range as its rows, and touches no other request |
| Serializers.Create | api/serializers.py:135-188 | fails exactly when a check fails or the entry list is empty; on failure the store is unchanged; on success it stores exactly the new SUBMITTED request with its expansion under the fresh id; it keeps every stored request well formed |
| Serializers.TotalLeaveHours | api/serializers.py:26-33 | the loop's total is the sum of `leave_hours` over the rows, and 0 for none |
| Serializers.ExpandFromTotal | api/serializers.py:170-187 | an expansion's total is (days − 1) × (18 − start hour) + (end hour − start hour) |
| Serializers.CreatedTotal | api/serializers.py:170-187 | a created request's total hours in closed form |
| Serializers.ThreeDayRequest | api/serializers.py:170-179 | 2025-03-03 09:00 to 2025-03-05 18:00 gives three 09:00–18:00 rows totalling 27 hours |
| Serializers.AcceptedRequestWithNegativeTotal | api/serializers.py:144-187 | a request from 20:00 to 19:00 the next day passes every check and totals −3 hours |
| Serializers.RequestInstance.Update | api/serializers.py:75-81 | each validated field takes its value on the instance and every other field keeps its own |
| Views.CategoryListAsWritten | api/views.py:33-37 | a user who is not female (null included) gets every category; a female user gets exactly those not named 生理假 |
| Views.CategoryList | api/views.py:33-37 | the corrected gate: a female user gets every category; any other user gets exactly those not named 生理假 |
| Views.MenstrualIds | api/views.py:54 | exactly the ids of categories named 生理假 |
| Views.BalanceList | api/views.py:49-55 | exactly the caller's own balance rows; for a caller who is not female, without the 生理假 row, failing with DoesNotExist or MultipleObjectsReturned exactly when there is no such category or several |
| Views.CategoryListMatchesBalanceList | api/views.py:33-55 | under the corrected gate, every category whose balance the caller sees is offered to them, and 生理假 is in neither list for a caller who is not female |
| Views.CategoryListAsWrittenHidesFromFemale | api/views.py:33-37 | as written, a female user sees their 生理假 balance but is not offered the category, while a male user is offered it |
| Views.OwnRequests | api/views.py:67-69 | exactly the requests whose requester is the caller |
| Views.CreatedJoinsOwnList | api/views.py:67-80 | a created request joins the creator's list and no other user's |
| Views.CreateValidatedData | api/views.py:76-80 | the data handed to create has the caller as requester whatever the client sent, and the client's category, range and entries |
| Views.PerformCreate | api/views.py:76-80 | fails exactly when a check of `create` fails or the entry list is empty, with that check's error (`ReverseRelationAssigned` for the empty list), and then the store is unchanged; on success exactly one request is added: the caller's, SUBMITTED, with the client's category and range, no processor, processing time or reason, and the expansion of its range as its rows; other requests are untouched and it joins the caller's list |
| Views.Retrieve | api/views.py:83-92 | succeeds exactly when the id is stored, with that request; otherwise NotFound |
| Views.RetrieveIgnoresOwner | api/views.py:88 | another user's request, absent from the caller's list, is still retrieved |
| Views.UpdateRequest | api/serializers.py:131-133 | PUT/PATCH fails without writing: NotFound for an unknown id, otherwise a failure |
| Views.Destroy | api/views.py:83-92 | removes exactly the given request if stored (NotFound otherwise) and keeps the rest well formed |
| Views.SortedIds | api/views.py:105-107 | a set of UUIDs as a strictly ascending list with exactly its elements |
| Views.AdminQueue | api/views.py:105-107 | exactly the SUBMITTED requests, each once, in ascending UUID order |
| Views.DecisionKwargs | api/views.py:129-135 | always the caller as processor; status APPROVED for approve, REJECTED for reject, and no status for any other action |
| Views.DecisionData | api/views.py:136 | the data handed to `update` is well kinded; the client's status is dropped because it is read-only |
| Views.DecisionOutcome | api/views.py:128-136 | after a decision: the status follows the action, the caller is processor, the comment is the client's if sent, and `processed_at` and all other fields are unchanged, whatever the current status |
| Views.DecideAsWritten | api/views.py:128-136 | succeeds exactly when the id is stored, whatever its current status, returning the decided instance; NotFound otherwise; the store is not written |
| Views.ApprovalIsNotPersisted | api/serializers.py:75-81 | the approval response says APPROVED while the request stays in the administrator queue |
| Views.Decide | api/views.py:128-136 | the corrected decision: succeeds exactly when the id is stored, whatever its current status, and then the decided instance is written back and nothing else changes; NotFound and an unchanged store otherwise |
| Views.DecisionLeavesQueue | api/views.py:105-136 | once saved, an approved or rejected request leaves the queue and the rest of the queue is unchanged |
| Populate.DivisorValue | core/management/commands/populate_data.py:199 | the divisor drawn is 2 or 3 |
| Populate.PolicyAmount | core/management/commands/populate_data.py:146-156 | every new policy amount lies in 1..17; at least 3 for a supervisor, at most 10 otherwise, and at least 7 for a supervisor's 特休 |
| Populate.BalanceAmount | core/management/commands/populate_data.py:189-201 | a balance is a multiple of 8; for a non-negative policy it lies in 0..8 × policy; 0 for a male user's 生理假; exactly 8 × policy when not divided or when the policy is negative |
| Populate.PolicyPairs | core/management/commands/populate_data.py:139-140 | the pairs visited are exactly roles × categories |
| Populate.FilledPoliciesProperties | core/management/commands/populate_data.py:139-167 | after the fill: a row for every existing or visited pair and no other; existing rows unchanged; new rows hold the amount rule's value, in 1..17 |
| Populate.SeedPolicy | core/management/commands/populate_data.py:141-162 | one get-or-create: an existing row is kept, otherwise the amount rule's value is inserted |
| Populate.SeedRolePolicies | core/management/commands/populate_data.py:140-167 | the inner loop fills every category for one role |
| Populate.FillPolicies | core/management/commands/populate_data.py:139-167 | the nested loops produce the filled policy table over roles × categories |
| Populate.SeedPolicies | core/management/commands/populate_data.py:139-167 | policy rows exist exactly for the old pairs and roles × categories; old rows are unchanged; new rows follow the amount rule; the store stays valid |
| Populate.UserPairs | core/management/commands/populate_data.py:170-173 | the pairs visited are exactly users × categories |
| Populate.FilledBalancesProperties | core/management/commands/populate_data.py:170-214 | after the fill: existing rows unchanged; every visited pair with a policy has a row; new rows are for visited pairs with a policy and hold the balance rule's value, a multiple of 8, which for a non-negative policy lies in 0..8 × policy |
| Populate.SeedBalance | core/management/commands/populate_data.py:174-209 | one get-or-create: an existing row is kept, a pair without a policy is skipped, otherwise the balance rule's value is inserted |
| Populate.SeedUserBalances | core/management/commands/populate_data.py:173-214 | the inner loop fills every category for one user |
| Populate.FillBalances | core/management/commands/populate_data.py:170-214 | the nested loops produce the filled balance table over eligible users × categories |
| Populate.SeedBalances | core/management/commands/populate_data.py:170-214 | old rows unchanged; every eligible user with a policy for a category gets a row; new rows exist only for such pairs and hold the balance rule's value |
| Populate.IneligibleUsersGetNothing | core/management/commands/populate_data.py:170-172 | a user with no department or no role gets no new balance row |
| Populate.GetOrCreateAllProperties | core/management/commands/populate_data.py:129-136 | get-or-create by name over a list: ids stay fresh, existing categories are unchanged, every listed name ends up present, and added categories come from the list with new, distinct names |
| Populate.SeedCategories | core/management/commands/populate_data.py:104-136 | the category loop computes get-or-create over the five defaults and keeps the store valid |
| Populate.PromoteSupervisors | core/management/commands/populate_data.py:218 | exactly the users whose role is a supervisor role get `is_staff`; no other field or user changes |
| Populate.Empty | core/management/commands/populate_data.py:32-40 | every table is emptied; the category id counter is kept |
| Populate.SeedTables | core/management/commands/populate_data.py:101-214 | categories, then policies, then balances, with the combined guarantees of the three steps |
| Populate.PopulateApi | core/management/commands/populate_data.py:101-218 | the combined guarantees of the category, policy and balance steps; roles and requests unchanged; the same users, each changed only by getting `is_staff` when their role is a supervisor role |
| Populate.Handle | core/management/commands/populate_data.py:31-43 | `--empty` leaves every table empty, departments and roles included; otherwise (with the department, role and user creation step not modelled, so departments, roles and the set of users stay as they were, and requests are untouched): no existing category, policy or balance row is changed or lost; every default category name is present; every role has a policy for every category, and each new policy row holds the amount rule's value; new balance rows exist only for eligible users whose role has a policy, and hold the balance rule's value, and every such pair has a row; each user changes only by getting `is_staff` when their role is a supervisor role |
| LeavesJs.RemainingDays | static/js/leaves.js:35 | the floor of amount / 8: the largest d with 8d ≤ amount |
| LeavesJs.RemainingHours | static/js/leaves.js:36 | the truncating remainder: in 0..7 for a non-negative amount, in −7..0 for a negative one, and congruent to the amount modulo 8 |
| LeavesJs.SplitAddsUp | static/js/leaves.js:35-36 | for a non-negative amount, days × 8 + hours = amount with 0 ≤ hours < 8 |
| LeavesJs.NegativeSplitIsOffByADay | static/js/leaves.js:35-36 | for a negative amount that is not whole days, days × 8 + hours is one day less than the amount |
| LeavesJs.MinusThreeHours | static/js/leaves.js:35-36 | −3 hours is shown as −1 day and −3 hours |
| LeavesJs.NatToString | static/js/leaves.js:39 | a natural number's decimal form: at least one digit, all digits, no leading zero |
| LeavesJs.NatToStringRoundTrip | static/js/leaves.js:39 | reading a natural number's digits back gives the number |
| LeavesJs.IntToString | static/js/leaves.js:39 | an integer's decimal form: digits with a leading minus exactly for a negative value |
| LeavesJs.IntToStringRoundTrip | static/js/leaves.js:39 | an integer's decimal form parses back to the integer |
| LeavesJs.Label | static/js/leaves.js:38-40 | a line starts with the category name and ": " and ends with 小時 |
| LeavesJs.LabelRoundTrip | static/js/leaves.js:38-40 | the days and hours can be read back from a line, given the name length |
| LeavesJs.LabelShowsAmount | static/js/leaves.js:33-40 | for a non-negative amount the line determines the amount exactly |
| LeavesJs.BalanceList.Refresh | static/js/leaves.js:29-42 | the list is rebuilt with exactly one line per result, the i-th line being the i-th result's label |

## Left out

- Creating departments, roles, users and the superuser (`populate_core_app_models`, core/management/commands/populate_data.py:45-99), which `handle` runs first (line 42). The departments and roles come from fixed name lists (lines 13-17, 47-59), and only the users are random (random names, usernames and genders). Every created user gets the fixed password `password` (line 85) and the superuser gets `adminpassword` (line 97). For each department there is one ordinary and one supervisor user, each created only when the department lacks a user of that kind (lines 62-67). The model leaves the whole step out and starts the category, policy and balance steps from any valid store.
- Random draws: each is a parameter of the seeding methods, one per row, restricted to the drawn range.
- Logging and the warnings for missing policies: there is no effect on the tables.
- The ORM, SQL and transactions: tables are maps, and `transaction.atomic` is all-or-nothing, so validation happens before any write.
- HTTP routing, authentication and permission classes: the caller's identity and gender are parameters; `IsAuthenticated` and `IsAdminUser` are not modelled.
- `get_or_create` on a category name that is stored twice raises MultipleObjectsReturned: the model's fill sees any row of that name as existing and so does not model that error.
- Timezones and microseconds: datetimes are naive (day ordinal, time of day).
- The `submitted_at` and `created_at` timestamps (`auto_now_add`): they depend on the wall clock.
- UUID generation: the fresh id is a parameter.
- `UserLeaveBalanceSerializer`: api/views.py imports it (lines 13-19), but api/serializers.py does not define it, so at this revision importing api/views.py raises ImportError and none of its views can be loaded. The model assumes the views load, and models the balance list as the set of rows its queryset selects.
- Field validation of request bodies (`is_valid`), which runs before any modelled operation and answers an invalid body with a 400 and no write. The model takes every body as already validated and does not model that error path. In particular, `Views.PerformCreate` does not check that the POSTed `category` id is stored, and `Views.DecideAsWritten` and `Views.Decide` do not check that a `process_user` id sent in the body is stored. That id is then replaced by the caller, but the source rejects both bodies with a 400 before that happens. For a PUT/PATCH of a request, an invalid body fails before `update` runs and a valid one fails after it, and both write nothing.
- Duplicate policy or balance rows: the tables have no unique constraint on (role, category) or (user, category) (api/models.py:27-48), and a duplicated policy makes the lookup at core/management/commands/populate_data.py:180 raise MultipleObjectsReturned and roll the seeding back. The model keys both tables by the pair, so it has no duplicates and does not model that error.
- The read serializers' output fields and `LeaveCategorySerializer`: these are field lists with no logic.
- The TODO in the approve/reject `update` about checking the supervisor's department: there is no code for it.
- In static/js/leaves.js: jQuery, AJAX, the date-range picker, form submission, the request table and the DOM. Only the balance conversion and the list contents are modelled.
- Concurrency: the code has none.

## Findings

| source | as written | input that shows it | evidently intended | confidence | as-written member | corrected member |
|---|---|---|---|---|---|---|
| api/views.py:128-136 | `perform_update` passes the decision to an `update` (api/serializers.py:75-81) that sets the fields on the instance but never saves it, so the store keeps the old status | a SUBMITTED request approved by an administrator is still SUBMITTED and still in the administrator queue | the decided instance is saved, and an approved or rejected request leaves the queue | not executed | Views.DecideAsWritten, Views.ApprovalIsNotPersisted | Views.Decide, Views.DecisionLeavesQueue |
| api/views.py:33-37 | the category list excludes 生理假 when the user *is* female | a female user with a 生理假 balance is shown the balance but not offered the category, while a male user is offered it | 生理假 is hidden from users who are not female, as the balance list does (api/views.py:51-55) | not executed | Views.CategoryListAsWritten, Views.CategoryListAsWrittenHidesFromFemale | Views.CategoryList, Views.CategoryListMatchesBalanceList |
