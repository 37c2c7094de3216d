/** The seeding command, core/management/commands/populate_data.py: the five default
    categories, a default amount per (role, category), a starting balance per
    (user, category), the `is_staff` update, and the `--empty` switch. Every fill
    is a get-or-create that never touches an existing row. The random draws are
    parameters, one per row. */
module Populate {
  import opened Basics
  import opened Models

  /** `WORK_HOURS`: hours in one working day. */
  const WorkHours: int := 8

  /** The categories the command gets or creates, by name, in this order. */
  const DefaultCategories: seq<LeaveCategory> := [
    LeaveCategory(PersonalLeave, Monthly, None, None),
    LeaveCategory(SickLeave, Monthly, None, None),
    LeaveCategory(MenstrualLeave, Monthly, None, None),
    LeaveCategory(AnnualLeave, Yearly, None, None),
    // 2025-02-28 to 2025-04-30 as day ordinals
    LeaveCategory(MonsterHunterLeave, NoReset, Some(739310), Some(739371))
  ]

  // ---------------------------------------------------------------------------
  // Amount rules
  // ---------------------------------------------------------------------------

  /** `random.randint(1, 10)` */
  type BaseDraw = x: int | 1 <= x <= 10 witness 1
  /** `random.randint(5, 15)` */
  type SeniorDraw = x: int | 5 <= x <= 15 witness 5

  /** The draws for one policy row. The first is always drawn; the second only
      matters for a supervisor's 特休. */
  datatype PolicyDraw = PolicyDraw(base: BaseDraw, senior: SeniorDraw)

  /** `random.randint(2, 3)` */
  datatype Divisor = Two | Three

  function DivisorValue(d: Divisor): (k: int)
    ensures k == 2 || k == 3
  {
    match d
    case Two => 2
    case Three => 3
  }

  /** The draws for one balance row: whether `random.random() < 0.5`, and the
      divisor. */
  datatype BalanceDraw = BalanceDraw(halve: bool, divisor: Divisor)

  /** The default amount of a new policy row. 特休 for a supervisor is checked
      first, then 魔物獵人荒野假, then 生理假; supervisors get 2 more days. */
  function PolicyAmount(isSupervisor: bool, name: string, d: PolicyDraw): (a: int)
    ensures 1 <= a <= 17
    ensures isSupervisor ==> 3 <= a
    ensures !isSupervisor ==> a <= 10
    ensures isSupervisor && name == AnnualLeave ==> 7 <= a
  {
    var chosen :=
      if isSupervisor && name == AnnualLeave then d.senior
      else if name == MonsterHunterLeave then 5
      else if name == MenstrualLeave then 1
      else d.base;
    if isSupervisor then chosen + 2 else chosen
  }

  /** The starting balance, in hours, taken from a policy amount in days: none of
      生理假 for a male user; a positive amount is halved or thirded (rounding
      down) when the coin says so; the result is counted in work hours. */
  function BalanceAmount(policyAmount: int, isMenstrual: bool, gender: Option<Gender>,
                         d: BalanceDraw): (b: int)
    ensures b % WorkHours == 0
    ensures policyAmount >= 0 ==> 0 <= b <= WorkHours * policyAmount
    ensures isMenstrual && gender == Some(Male) ==> b == 0
    ensures !(isMenstrual && gender == Some(Male)) && !d.halve ==> b == WorkHours * policyAmount
    ensures policyAmount < 0 && !(isMenstrual && gender == Some(Male)) ==> b == WorkHours * policyAmount
  {
    var amount := if isMenstrual && gender == Some(Male) then 0 else policyAmount;
    var divided := if amount > 0 && d.halve then amount / DivisorValue(d.divisor) else amount;
    divided * WorkHours
  }

  // ---------------------------------------------------------------------------
  // Policy fill
  // ---------------------------------------------------------------------------

  function PolicyPairs(roles: set<RoleId>, categories: set<CatId>): (r: set<(RoleId, CatId)>)
    ensures forall k :: k in r <==> k.0 in roles && k.1 in categories
  {
    set r, c | r in roles && c in categories :: (r, c)
  }

  ghost predicate PairsIn(done: set<(RoleId, CatId)>, roles: map<RoleId, Role>,
                          categories: map<CatId, LeaveCategory>)
  {
    forall k :: k in done ==> k.0 in roles && k.1 in categories
  }

  /** The policy table after the get-or-create step has visited the pairs in
      `done`: every existing row as it was, and a new row for each visited pair
      that had none. */
  function FilledPolicies(p0: map<(RoleId, CatId), int>, roles: map<RoleId, Role>,
                          categories: map<CatId, LeaveCategory>,
                          draw: (RoleId, CatId) -> PolicyDraw,
                          done: set<(RoleId, CatId)>): map<(RoleId, CatId), int>
    requires PairsIn(done, roles, categories)
  {
    map k | k in p0.Keys + done ::
      if k in p0 then p0[k]
      else PolicyAmount(roles[k.0].isSupervisor, categories[k.1].name, draw(k.0, k.1))
  }

  /** What the policy fill promises: a row for every existing or visited pair and
      no other, existing rows unchanged, and every new row holding the amount rule's
      value, between 1 and 17 days. */
  lemma FilledPoliciesProperties(p0: map<(RoleId, CatId), int>, roles: map<RoleId, Role>,
                                 categories: map<CatId, LeaveCategory>,
                                 draw: (RoleId, CatId) -> PolicyDraw, done: set<(RoleId, CatId)>)
    requires PairsIn(done, roles, categories)
    ensures var p := FilledPolicies(p0, roles, categories, draw, done);
            && (forall k :: k in p <==> k in p0 || k in done)
            && (forall k :: k in p0 ==> p[k] == p0[k])
            && (forall k :: k in p && k !in p0 ==> 1 <= p[k] <= 17)
            && (forall k :: k in p && k !in p0 ==>
                  p[k] == PolicyAmount(roles[k.0].isSupervisor, categories[k.1].name, draw(k.0, k.1)))
  {
  }

  lemma FilledPoliciesStep(p0: map<(RoleId, CatId), int>, roles: map<RoleId, Role>,
                           categories: map<CatId, LeaveCategory>,
                           draw: (RoleId, CatId) -> PolicyDraw,
                           done: set<(RoleId, CatId)>, k: (RoleId, CatId))
    requires PairsIn(done, roles, categories) && k.0 in roles && k.1 in categories && k !in done
    ensures PairsIn(done + {k}, roles, categories)
    ensures k in FilledPolicies(p0, roles, categories, draw, done) <==> k in p0
    ensures FilledPolicies(p0, roles, categories, draw, done + {k})
         == if k in p0 then FilledPolicies(p0, roles, categories, draw, done)
            else FilledPolicies(p0, roles, categories, draw, done)[k :=
                   PolicyAmount(roles[k.0].isSupervisor, categories[k.1].name, draw(k.0, k.1))]
  {
  }

  lemma PolicyPairsAddCategory(r: RoleId, cs: set<CatId>, c: CatId)
    ensures PolicyPairs({r}, cs + {c}) == PolicyPairs({r}, cs) + {(r, c)}
  {
  }

  lemma PolicyPairsAddRole(roles: set<RoleId>, r: RoleId, cs: set<CatId>)
    ensures PolicyPairs(roles, cs) + PolicyPairs({r}, cs) == PolicyPairs(roles + {r}, cs)
  {
  }

  /** One get-or-create of a policy row: an existing row is kept, a missing one is
      inserted with `PolicyAmount`. */
  method SeedPolicy(db: LeaveDatabase, role: RoleId, category: CatId,
                    draw: (RoleId, CatId) -> PolicyDraw)
    requires role in db.roles && category in db.categories
    modifies db`policies
    ensures db.policies == if (role, category) in old(db.policies) then old(db.policies)
                           else old(db.policies)[(role, category) :=
                                  PolicyAmount(db.roles[role].isSupervisor, db.categories[category].name,
                                               draw(role, category))]
  {
    if (role, category) !in db.policies {
      var isSupervisor := db.roles[role].isSupervisor;
      var name := db.categories[category].name;
      var d := draw(role, category);
      var defaultAmount := d.base;
      if isSupervisor && name == AnnualLeave {
        defaultAmount := d.senior;
      } else if name == MonsterHunterLeave {
        defaultAmount := 5;
      } else if name == MenstrualLeave {
        defaultAmount := 1;
      }
      if isSupervisor {
        defaultAmount := defaultAmount + 2;
      }
      db.policies := db.policies[(role, category) := defaultAmount];
    }
  }

  /** The inner loop: every category, for one role. */
  method SeedRolePolicies(db: LeaveDatabase, role: RoleId, draw: (RoleId, CatId) -> PolicyDraw,
                          ghost p0: map<(RoleId, CatId), int>, ghost done: set<(RoleId, CatId)>)
    requires role in db.roles
    requires PairsIn(done, db.roles, db.categories)
    requires forall c :: (role, c) !in done
    requires db.policies == FilledPolicies(p0, db.roles, db.categories, draw, done)
    modifies db`policies
    ensures PairsIn(done + PolicyPairs({role}, db.categories.Keys), db.roles, db.categories)
    ensures db.policies == FilledPolicies(p0, db.roles, db.categories, draw,
                                          done + PolicyPairs({role}, db.categories.Keys))
  {
    var catIds := db.categories.Keys;
    ghost var doneCats: set<CatId> := {};
    ghost var cur := done;
    assert done + PolicyPairs({role}, doneCats) == cur;
    while catIds != {}
      invariant catIds + doneCats == db.categories.Keys && catIds !! doneCats
      invariant cur == done + PolicyPairs({role}, doneCats)
      invariant PairsIn(cur, db.roles, db.categories)
      invariant db.policies == FilledPolicies(p0, db.roles, db.categories, draw, cur)
      decreases catIds
    {
      var category :| category in catIds;
      FilledPoliciesStep(p0, db.roles, db.categories, draw, cur, (role, category));
      SeedPolicy(db, role, category, draw);
      PolicyPairsAddCategory(role, doneCats, category);
      catIds := catIds - {category};
      doneCats := doneCats + {category};
      cur := cur + {(role, category)};
    }
  }

  lemma PolicyPairsWithin(rs: set<RoleId>, roles: map<RoleId, Role>, categories: map<CatId, LeaveCategory>)
    requires rs <= roles.Keys
    ensures PairsIn(PolicyPairs(rs, categories.Keys), roles, categories)
  {
  }

  /** The two nested loops over roles and categories. */
  method FillPolicies(db: LeaveDatabase, draw: (RoleId, CatId) -> PolicyDraw)
    modifies db`policies
    ensures PairsIn(PolicyPairs(db.roles.Keys, db.categories.Keys), db.roles, db.categories)
    ensures db.policies == FilledPolicies(old(db.policies), db.roles, db.categories, draw,
                                          PolicyPairs(db.roles.Keys, db.categories.Keys))
  {
    ghost var p0 := db.policies;
    var roleIds := db.roles.Keys;
    ghost var doneRoles: set<RoleId> := {};
    ghost var done := PolicyPairs(doneRoles, db.categories.Keys);
    PolicyPairsWithin(doneRoles, db.roles, db.categories);
    assert done == {};
    while roleIds != {}
      invariant roleIds + doneRoles == db.roles.Keys && roleIds !! doneRoles
      invariant done == PolicyPairs(doneRoles, db.categories.Keys)
      invariant PairsIn(done, db.roles, db.categories)
      invariant db.policies == FilledPolicies(p0, db.roles, db.categories, draw, done)
      decreases roleIds
    {
      var role :| role in roleIds;
      SeedRolePolicies(db, role, draw, p0, done);
      PolicyPairsAddRole(doneRoles, role, db.categories.Keys);
      roleIds := roleIds - {role};
      doneRoles := doneRoles + {role};
      done := done + PolicyPairs({role}, db.categories.Keys);
      PolicyPairsWithin(doneRoles, db.roles, db.categories);
    }
    assert doneRoles == db.roles.Keys;
  }

  /** The policy step of `populate_api_app_models`: for every role and category
      without a policy row, insert one with `PolicyAmount`; no other row changes. */
  method SeedPolicies(db: LeaveDatabase, draw: (RoleId, CatId) -> PolicyDraw)
    requires db.Valid()
    modifies db`policies
    ensures db.Valid()
    ensures forall k :: k in db.policies <==> k in old(db.policies) || (k.0 in db.roles && k.1 in db.categories)
    ensures forall k :: k in old(db.policies) ==> db.policies[k] == old(db.policies)[k]
    ensures forall k :: k in db.policies && k !in old(db.policies) ==>
              && k.0 in db.roles && k.1 in db.categories
              && db.policies[k] == PolicyAmount(db.roles[k.0].isSupervisor, db.categories[k.1].name, draw(k.0, k.1))
  {
    ghost var p0 := db.policies;
    FillPolicies(db, draw);
    FilledPoliciesProperties(p0, db.roles, db.categories, draw, PolicyPairs(db.roles.Keys, db.categories.Keys));
  }

  // ---------------------------------------------------------------------------
  // Balance fill
  // ---------------------------------------------------------------------------

  /** Only users with a department and a role are given balances. */
  predicate Eligible(u: User)
  {
    u.department.Some? && u.role.Some?
  }

  /** A visited (user, category) pair gets a balance row when the user's role has
      a policy for the category. */
  predicate Funded(users: map<UserId, User>, policies: map<(RoleId, CatId), int>, k: (UserId, CatId))
  {
    k.0 in users && Eligible(users[k.0]) && (users[k.0].role.value, k.1) in policies
  }

  function SeededBalance(users: map<UserId, User>, categories: map<CatId, LeaveCategory>,
                         policies: map<(RoleId, CatId), int>, draw: (UserId, CatId) -> BalanceDraw,
                         k: (UserId, CatId)): int
    requires Funded(users, policies, k) && k.1 in categories
  {
    BalanceAmount(policies[(users[k.0].role.value, k.1)], categories[k.1].name == MenstrualLeave,
                  users[k.0].gender, draw(k.0, k.1))
  }

  function UserPairs(users: set<UserId>, categories: set<CatId>): (r: set<(UserId, CatId)>)
    ensures forall k :: k in r <==> k.0 in users && k.1 in categories
  {
    set u, c | u in users && c in categories :: (u, c)
  }

  function EligibleUsers(users: map<UserId, User>): set<UserId>
  {
    set u | u in users && Eligible(users[u])
  }

  ghost predicate UserPairsIn(done: set<(UserId, CatId)>, users: map<UserId, User>,
                              categories: map<CatId, LeaveCategory>)
  {
    forall k :: k in done ==> k.0 in users && k.1 in categories
  }

  /** The balance table after the get-or-create step has visited the pairs in
      `done`: every existing row as it was; a new row holding the balance rule's
      value for each visited pair that had none and whose user's role has a
      policy; nothing for the rest. */
  function FilledBalances(b0: map<(UserId, CatId), int>, users: map<UserId, User>,
                          categories: map<CatId, LeaveCategory>, policies: map<(RoleId, CatId), int>,
                          draw: (UserId, CatId) -> BalanceDraw,
                          done: set<(UserId, CatId)>): map<(UserId, CatId), int>
    requires UserPairsIn(done, users, categories)
  {
    map k | k in b0.Keys + done && (k in b0 || Funded(users, policies, k)) ::
      if k in b0 then b0[k] else SeededBalance(users, categories, policies, draw, k)
  }

  /** What the balance fill promises: existing rows are kept; every visited,
      funded pair has a row; and every new row belongs to a visited, funded pair
      and holds the balance rule's value: a multiple of 8 hours, between 0 and 8
      times the policy's days when the policy is not negative. */
  lemma FilledBalancesProperties(b0: map<(UserId, CatId), int>, users: map<UserId, User>,
                                 categories: map<CatId, LeaveCategory>,
                                 policies: map<(RoleId, CatId), int>,
                                 draw: (UserId, CatId) -> BalanceDraw, done: set<(UserId, CatId)>)
    requires UserPairsIn(done, users, categories)
    ensures var b := FilledBalances(b0, users, categories, policies, draw, done);
            && (forall k :: k in b0 ==> k in b && b[k] == b0[k])
            && (forall k :: k in done && Funded(users, policies, k) ==> k in b)
            && (forall k :: k in b && k !in b0 ==>
                  && k in done && Funded(users, policies, k)
                  && b[k] == SeededBalance(users, categories, policies, draw, k)
                  && b[k] % WorkHours == 0
                  && (policies[(users[k.0].role.value, k.1)] >= 0 ==>
                        0 <= b[k] <= WorkHours * policies[(users[k.0].role.value, k.1)]))
  {
  }

  lemma FilledBalancesStep(b0: map<(UserId, CatId), int>, users: map<UserId, User>,
                           categories: map<CatId, LeaveCategory>, policies: map<(RoleId, CatId), int>,
                           draw: (UserId, CatId) -> BalanceDraw,
                           done: set<(UserId, CatId)>, k: (UserId, CatId))
    requires UserPairsIn(done, users, categories) && k.0 in users && k.1 in categories && k !in done
    ensures UserPairsIn(done + {k}, users, categories)
    ensures k in FilledBalances(b0, users, categories, policies, draw, done) <==> k in b0
    ensures FilledBalances(b0, users, categories, policies, draw, done + {k})
         == if k in b0 || !Funded(users, policies, k)
            then FilledBalances(b0, users, categories, policies, draw, done)
            else FilledBalances(b0, users, categories, policies, draw, done)[k :=
                   SeededBalance(users, categories, policies, draw, k)]
  {
  }

  lemma UserPairsAddCategory(u: UserId, cs: set<CatId>, c: CatId)
    ensures UserPairs({u}, cs + {c}) == UserPairs({u}, cs) + {(u, c)}
  {
  }

  lemma UserPairsAddUser(us: set<UserId>, u: UserId, cs: set<CatId>)
    ensures UserPairs(us, cs) + UserPairs({u}, cs) == UserPairs(us + {u}, cs)
  {
  }

  /** One get-or-create of a balance row: an existing row is kept; a missing one
      is inserted with `BalanceAmount` when the user's role has a policy for the
      category, and skipped otherwise. */
  method SeedBalance(db: LeaveDatabase, user: UserId, category: CatId,
                     draw: (UserId, CatId) -> BalanceDraw)
    requires user in db.users && Eligible(db.users[user]) && category in db.categories
    modifies db`balances
    ensures db.balances
         == if (user, category) in old(db.balances) || !Funded(db.users, db.policies, (user, category))
            then old(db.balances)
            else old(db.balances)[(user, category) :=
                   SeededBalance(db.users, db.categories, db.policies, draw, (user, category))]
  {
    var role := db.users[user].role.value;
    if (user, category) !in db.balances && (role, category) in db.policies {
      var d := draw(user, category);
      var defaultAmount := db.policies[(role, category)];
      if db.categories[category].name == MenstrualLeave && db.users[user].gender == Some(Male) {
        defaultAmount := 0;
      }
      if defaultAmount > 0 {
        if d.halve {
          defaultAmount := defaultAmount / DivisorValue(d.divisor);
        }
      }
      defaultAmount := defaultAmount * WorkHours;
      db.balances := db.balances[(user, category) := defaultAmount];
    }
  }

  /** The inner loop: every category, for one user. */
  method SeedUserBalances(db: LeaveDatabase, user: UserId, draw: (UserId, CatId) -> BalanceDraw,
                          ghost b0: map<(UserId, CatId), int>, ghost done: set<(UserId, CatId)>)
    requires user in db.users && Eligible(db.users[user])
    requires UserPairsIn(done, db.users, db.categories)
    requires forall c :: (user, c) !in done
    requires db.balances == FilledBalances(b0, db.users, db.categories, db.policies, draw, done)
    modifies db`balances
    ensures UserPairsIn(done + UserPairs({user}, db.categories.Keys), db.users, db.categories)
    ensures db.balances == FilledBalances(b0, db.users, db.categories, db.policies, draw,
                                          done + UserPairs({user}, db.categories.Keys))
  {
    var catIds := db.categories.Keys;
    ghost var doneCats: set<CatId> := {};
    ghost var cur := done;
    assert done + UserPairs({user}, doneCats) == cur;
    while catIds != {}
      invariant catIds + doneCats == db.categories.Keys && catIds !! doneCats
      invariant cur == done + UserPairs({user}, doneCats)
      invariant UserPairsIn(cur, db.users, db.categories)
      invariant db.balances == FilledBalances(b0, db.users, db.categories, db.policies, draw, cur)
      decreases catIds
    {
      var category :| category in catIds;
      FilledBalancesStep(b0, db.users, db.categories, db.policies, draw, cur, (user, category));
      SeedBalance(db, user, category, draw);
      UserPairsAddCategory(user, doneCats, category);
      catIds := catIds - {category};
      doneCats := doneCats + {category};
      cur := cur + {(user, category)};
    }
  }

  lemma UserPairsWithin(us: set<UserId>, users: map<UserId, User>, categories: map<CatId, LeaveCategory>)
    requires us <= users.Keys
    ensures UserPairsIn(UserPairs(us, categories.Keys), users, categories)
  {
  }

  /** The two nested loops over eligible users and categories. */
  method FillBalances(db: LeaveDatabase, draw: (UserId, CatId) -> BalanceDraw)
    modifies db`balances
    ensures UserPairsIn(UserPairs(EligibleUsers(db.users), db.categories.Keys), db.users, db.categories)
    ensures db.balances == FilledBalances(old(db.balances), db.users, db.categories, db.policies, draw,
                                          UserPairs(EligibleUsers(db.users), db.categories.Keys))
  {
    ghost var b0 := db.balances;
    var userIds := set u | u in db.users && Eligible(db.users[u]);
    ghost var doneUsers: set<UserId> := {};
    ghost var done := UserPairs(doneUsers, db.categories.Keys);
    UserPairsWithin(doneUsers, db.users, db.categories);
    assert done == {};
    while userIds != {}
      invariant userIds + doneUsers == EligibleUsers(db.users) && userIds !! doneUsers
      invariant done == UserPairs(doneUsers, db.categories.Keys)
      invariant UserPairsIn(done, db.users, db.categories)
      invariant db.balances == FilledBalances(b0, db.users, db.categories, db.policies, draw, done)
      decreases userIds
    {
      var user :| user in userIds;
      SeedUserBalances(db, user, draw, b0, done);
      UserPairsAddUser(doneUsers, user, db.categories.Keys);
      userIds := userIds - {user};
      doneUsers := doneUsers + {user};
      done := done + UserPairs({user}, db.categories.Keys);
      UserPairsWithin(doneUsers, db.users, db.categories);
    }
    assert doneUsers == EligibleUsers(db.users);
  }

  /** The balance step of `populate_api_app_models`: for every user with a
      department and a role, and every category, insert a balance row unless one
      exists or the user's role has no policy for the category. */
  method SeedBalances(db: LeaveDatabase, draw: (UserId, CatId) -> BalanceDraw)
    requires db.Valid()
    modifies db`balances
    ensures db.Valid()
    ensures forall k :: k in old(db.balances) ==> k in db.balances && db.balances[k] == old(db.balances)[k]
    ensures forall k: (UserId, CatId) ::
              k.0 in db.users && Eligible(db.users[k.0]) && k.1 in db.categories && Funded(db.users, db.policies, k)
              ==> k in db.balances
    ensures forall k :: k in db.balances && k !in old(db.balances) ==>
              && Funded(db.users, db.policies, k) && k.1 in db.categories
              && db.balances[k] == SeededBalance(db.users, db.categories, db.policies, draw, k)
  {
    ghost var b0 := db.balances;
    FillBalances(db, draw);
    ghost var all := UserPairs(EligibleUsers(db.users), db.categories.Keys);
    FilledBalancesProperties(b0, db.users, db.categories, db.policies, draw, all);
    assert forall k :: k in db.balances && k !in b0 ==> k in all;
  }

  /** A user with no department or no role gets no new balance row. */
  lemma IneligibleUsersGetNothing(b0: map<(UserId, CatId), int>, users: map<UserId, User>,
                                  categories: map<CatId, LeaveCategory>,
                                  policies: map<(RoleId, CatId), int>,
                                  draw: (UserId, CatId) -> BalanceDraw, k: (UserId, CatId))
    requires k.0 in users && !Eligible(users[k.0]) && k !in b0
    requires UserPairsIn(UserPairs(EligibleUsers(users), categories.Keys), users, categories)
    ensures k !in FilledBalances(b0, users, categories, policies, draw,
                                 UserPairs(EligibleUsers(users), categories.Keys))
  {
  }

  // ---------------------------------------------------------------------------
  // Category fill
  // ---------------------------------------------------------------------------

  /** The names the category table holds. */
  function Names(categories: map<CatId, LeaveCategory>): set<string>
  {
    set c | c in categories :: categories[c].name
  }

  /** The names in a list of categories. */
  function ListNames(s: seq<LeaveCategory>): set<string>
  {
    set i | 0 <= i < |s| :: s[i].name
  }

  lemma NamesInsert(categories: map<CatId, LeaveCategory>, id: CatId, category: LeaveCategory)
    requires id !in categories
    ensures Names(categories[id := category]) == Names(categories) + {category.name}
  {
    var after := categories[id := category];
    forall n | n in Names(categories)
      ensures n in Names(after)
    {
      var c :| c in categories && categories[c].name == n;
      assert after[c].name == n;
    }
    assert after[id].name == category.name;
    forall n | n in Names(after)
      ensures n in Names(categories) + {category.name}
    {
      var c :| c in after && after[c].name == n;
      if c != id {
        assert categories[c].name == n;
      }
    }
  }

  lemma ListNamesAppend(s: seq<LeaveCategory>, x: LeaveCategory)
    ensures ListNames(s + [x]) == ListNames(s) + {x.name}
  {
    var t := s + [x];
    forall n | n in ListNames(s)
      ensures n in ListNames(t)
    {
      var i :| 0 <= i < |s| && s[i].name == n;
      assert t[i].name == n;
    }
    assert t[|s|].name == x.name;
  }

  /** The category table with its auto-increment counter. */
  datatype CategoryTable = CategoryTable(categories: map<CatId, LeaveCategory>, next: nat)

  /** Every id in use is below the counter. */
  ghost predicate Fresh(t: CategoryTable)
  {
    forall c :: c in t.categories ==> c < t.next
  }

  /** `get_or_create(name=..., defaults=...)`: nothing changes when a category of
      that name exists; otherwise the category is inserted under the next id. */
  function GetOrCreate(t: CategoryTable, category: LeaveCategory): CategoryTable
  {
    if category.name in Names(t.categories) then t
    else CategoryTable(t.categories[t.next := category], t.next + 1)
  }

  /** `GetOrCreate` for each category of `s`, first to last. */
  function GetOrCreateAll(t: CategoryTable, s: seq<LeaveCategory>): CategoryTable
    decreases |s|
  {
    if s == [] then t else GetOrCreate(GetOrCreateAll(t, s[..|s| - 1]), s[|s| - 1])
  }

  /** Every category in `t` is in `u`, unchanged. */
  ghost predicate Kept(t: CategoryTable, u: CategoryTable)
  {
    forall c :: c in t.categories ==> c in u.categories && u.categories[c] == t.categories[c]
  }

  /** The categories `u` has beyond `t` come from `s`, with names `t` did not hold. */
  ghost predicate AddedFrom(t: CategoryTable, u: CategoryTable, s: seq<LeaveCategory>)
  {
    forall c :: c in u.categories && c !in t.categories ==>
      u.categories[c] in s && u.categories[c].name !in Names(t.categories)
  }

  /** No two categories `u` has beyond `t` share a name. */
  ghost predicate DistinctAdded(t: CategoryTable, u: CategoryTable)
  {
    forall c1, c2 :: c1 in u.categories && c2 in u.categories && c1 != c2
      && c1 !in t.categories && c2 !in t.categories
      ==> u.categories[c1].name != u.categories[c2].name
  }

  /** What running the get-or-create loop over `s` from `t` to `u` guarantees:
      ids stay fresh, existing categories are kept unchanged, every listed name
      ends up in the table, and the additions are listed categories with new,
      distinct names. */
  ghost predicate Seeded(t: CategoryTable, u: CategoryTable, s: seq<LeaveCategory>)
  {
    && Fresh(u) && t.next <= u.next
    && Kept(t, u)
    && Names(u.categories) == Names(t.categories) + ListNames(s)
    && AddedFrom(t, u, s)
    && DistinctAdded(t, u)
  }

  lemma GetOrCreateKeeps(t: CategoryTable, m: CategoryTable, x: LeaveCategory)
    requires Fresh(m) && Kept(t, m)
    ensures Fresh(GetOrCreate(m, x)) && m.next <= GetOrCreate(m, x).next
    ensures Kept(t, GetOrCreate(m, x))
  {
  }

  lemma GetOrCreateAdds(t: CategoryTable, m: CategoryTable, front: seq<LeaveCategory>, x: LeaveCategory)
    requires Fresh(m) && Names(t.categories) <= Names(m.categories) && AddedFrom(t, m, front)
    ensures AddedFrom(t, GetOrCreate(m, x), front + [x])
  {
    var u := GetOrCreate(m, x);
    forall c | c in u.categories && c !in t.categories
      ensures u.categories[c] in front + [x] && u.categories[c].name !in Names(t.categories)
    {
      if c in m.categories {
        assert u.categories[c] == m.categories[c];
        assert m.categories[c] in front;
      }
    }
  }

  lemma GetOrCreateDistinct(t: CategoryTable, m: CategoryTable, x: LeaveCategory)
    requires Fresh(m) && DistinctAdded(t, m)
    ensures DistinctAdded(t, GetOrCreate(m, x))
  {
    var u := GetOrCreate(m, x);
    if x.name !in Names(m.categories) {
      forall c | c in m.categories
        ensures u.categories[c].name != x.name
      {
        assert m.categories[c].name in Names(m.categories);
      }
    }
  }

  lemma GetOrCreateNames(m: CategoryTable, x: LeaveCategory)
    requires Fresh(m)
    ensures Names(GetOrCreate(m, x).categories) == Names(m.categories) + {x.name}
  {
    if x.name !in Names(m.categories) {
      NamesInsert(m.categories, m.next, x);
    }
  }

  lemma GetOrCreateStep(t: CategoryTable, m: CategoryTable, front: seq<LeaveCategory>, x: LeaveCategory)
    requires Seeded(t, m, front)
    ensures Seeded(t, GetOrCreate(m, x), front + [x])
  {
    ListNamesAppend(front, x);
    GetOrCreateKeeps(t, m, x);
    GetOrCreateAdds(t, m, front, x);
    GetOrCreateDistinct(t, m, x);
    GetOrCreateNames(m, x);
  }

  /** The get-or-create loop keeps every guarantee of `Seeded`. */
  lemma {:induction false} GetOrCreateAllProperties(t: CategoryTable, s: seq<LeaveCategory>)
    requires Fresh(t)
    ensures Seeded(t, GetOrCreateAll(t, s), s)
    decreases |s|
  {
    if s == [] {
      assert ListNames(s) == {};
    } else {
      var front, x := s[..|s| - 1], s[|s| - 1];
      assert s == front + [x];
      GetOrCreateAllProperties(t, front);
      GetOrCreateStep(t, GetOrCreateAll(t, front), front, x);
    }
  }

  /** The category loop over the five default categories. */
  method SeedCategories(db: LeaveDatabase)
    requires db.Valid()
    modifies db`categories, db`nextCategoryId
    ensures db.Valid()
    ensures CategoryTable(db.categories, db.nextCategoryId)
         == GetOrCreateAll(CategoryTable(old(db.categories), old(db.nextCategoryId)), DefaultCategories)
  {
    ghost var t0 := CategoryTable(db.categories, db.nextCategoryId);
    var i := 0;
    while i < |DefaultCategories|
      invariant 0 <= i <= |DefaultCategories|
      invariant CategoryTable(db.categories, db.nextCategoryId) == GetOrCreateAll(t0, DefaultCategories[..i])
    {
      var category := DefaultCategories[i];
      if category.name !in Names(db.categories) {
        var id := db.nextCategoryId;
        db.categories := db.categories[id := category];
        db.nextCategoryId := db.nextCategoryId + 1;
      }
      assert DefaultCategories[..i + 1][..i] == DefaultCategories[..i];
      i := i + 1;
    }
    assert DefaultCategories[..i] == DefaultCategories;
    GetOrCreateAllProperties(t0, DefaultCategories);
  }

  // ---------------------------------------------------------------------------
  // is_staff, --empty, and the command as a whole
  // ---------------------------------------------------------------------------

  predicate IsSupervisorUser(roles: map<RoleId, Role>, u: User)
  {
    u.role.Some? && u.role.value in roles && roles[u.role.value].isSupervisor
  }

  /** `User.objects.filter(role__is_supervisor=True).update(is_staff=True)` */
  method PromoteSupervisors(db: LeaveDatabase)
    modifies db`users
    ensures db.users.Keys == old(db.users).Keys
    ensures forall u :: u in db.users ==>
              db.users[u] == if IsSupervisorUser(db.roles, old(db.users)[u])
                             then old(db.users)[u].(isStaff := true) else old(db.users)[u]
    ensures forall u :: u in db.users && IsSupervisorUser(db.roles, db.users[u]) ==> db.users[u].isStaff
  {
    db.users := map u | u in db.users ::
      if IsSupervisorUser(db.roles, db.users[u]) then db.users[u].(isStaff := true) else db.users[u];
  }

  /** `--empty`: every table is deleted (leave requests and their per-day rows go
      with their users and categories) and nothing is populated. */
  method Empty(db: LeaveDatabase)
    modifies db
    ensures db.Valid()
    ensures db.users == map[] && db.departments == {} && db.roles == map[]
    ensures db.categories == map[] && db.policies == map[] && db.balances == map[]
    ensures db.requests == map[]
    ensures db.nextCategoryId == old(db.nextCategoryId)
  {
    db.users := map[];
    db.departments := {};
    db.roles := map[];
    db.categories := map[];
    db.policies := map[];
    db.balances := map[];
    db.requests := map[];
  }

  /** The category, policy and balance steps of `populate_api_app_models`. */
  method SeedTables(db: LeaveDatabase, policyDraw: (RoleId, CatId) -> PolicyDraw,
                     balanceDraw: (UserId, CatId) -> BalanceDraw)
    requires db.Valid()
    modifies db`categories, db`nextCategoryId, db`policies, db`balances
    ensures db.Valid()
    ensures db.roles == old(db.roles) && db.requests == old(db.requests) && db.users == old(db.users)
    ensures CategoryTable(db.categories, db.nextCategoryId)
         == GetOrCreateAll(CategoryTable(old(db.categories), old(db.nextCategoryId)), DefaultCategories)
    ensures db.policies.Keys == old(db.policies).Keys + PolicyPairs(db.roles.Keys, db.categories.Keys)
    ensures forall k :: k in old(db.policies) ==> db.policies[k] == old(db.policies)[k]
    ensures forall k :: k in db.policies && k !in old(db.policies) ==>
              && k.0 in db.roles && k.1 in db.categories
              && db.policies[k] == PolicyAmount(db.roles[k.0].isSupervisor, db.categories[k.1].name, policyDraw(k.0, k.1))
    ensures forall k :: k in old(db.balances) ==> k in db.balances && db.balances[k] == old(db.balances)[k]
    ensures forall k: (UserId, CatId) ::
              k.0 in old(db.users) && Eligible(old(db.users)[k.0]) && k.1 in db.categories && Funded(old(db.users), db.policies, k)
              ==> k in db.balances
    ensures forall k :: k in db.balances && k !in old(db.balances) ==>
              && Funded(old(db.users), db.policies, k) && k.1 in db.categories
              && db.balances[k] == SeededBalance(old(db.users), db.categories, db.policies, balanceDraw, k)
  {
    SeedCategories(db);
    SeedPolicies(db, policyDraw);
    SeedBalances(db, balanceDraw);
  }

  /** `populate_api_app_models`: categories, then policies, then balances, then
      `is_staff`, in one transaction. */
  method PopulateApi(db: LeaveDatabase, policyDraw: (RoleId, CatId) -> PolicyDraw,
                     balanceDraw: (UserId, CatId) -> BalanceDraw)
    requires db.Valid()
    modifies db`categories, db`nextCategoryId, db`policies, db`balances, db`users
    ensures db.Valid()
    ensures db.roles == old(db.roles) && db.requests == old(db.requests)
    ensures CategoryTable(db.categories, db.nextCategoryId)
         == GetOrCreateAll(CategoryTable(old(db.categories), old(db.nextCategoryId)), DefaultCategories)
    ensures db.policies.Keys == old(db.policies).Keys + PolicyPairs(db.roles.Keys, db.categories.Keys)
    ensures forall k :: k in old(db.policies) ==> db.policies[k] == old(db.policies)[k]
    ensures forall k :: k in db.policies && k !in old(db.policies) ==>
              && k.0 in db.roles && k.1 in db.categories
              && db.policies[k] == PolicyAmount(db.roles[k.0].isSupervisor, db.categories[k.1].name, policyDraw(k.0, k.1))
    ensures forall k :: k in old(db.balances) ==> k in db.balances && db.balances[k] == old(db.balances)[k]
    ensures forall k: (UserId, CatId) ::
              k.0 in old(db.users) && Eligible(old(db.users)[k.0]) && k.1 in db.categories && Funded(old(db.users), db.policies, k)
              ==> k in db.balances
    ensures forall k :: k in db.balances && k !in old(db.balances) ==>
              && Funded(old(db.users), db.policies, k) && k.1 in db.categories
              && db.balances[k] == SeededBalance(old(db.users), db.categories, db.policies, balanceDraw, k)
    ensures db.users.Keys == old(db.users).Keys
    ensures forall u :: u in db.users ==>
              db.users[u] == if IsSupervisorUser(db.roles, old(db.users)[u])
                             then old(db.users)[u].(isStaff := true) else old(db.users)[u]
    ensures forall u :: u in db.users && IsSupervisorUser(db.roles, db.users[u]) ==> db.users[u].isStaff
  {
    SeedTables(db, policyDraw, balanceDraw);
    PromoteSupervisors(db);
  }

  /** `Command.handle`. Creating departments, roles and users
      (`populate_core_app_models`) is not part of this model. */
  method Handle(db: LeaveDatabase, empty: bool, policyDraw: (RoleId, CatId) -> PolicyDraw,
                balanceDraw: (UserId, CatId) -> BalanceDraw)
    requires db.Valid()
    modifies db
    ensures db.Valid()
    ensures empty ==> db.users == map[] && db.departments == {} && db.roles == map[]
                      && db.categories == map[] && db.policies == map[]
                      && db.balances == map[] && db.requests == map[]
    ensures !empty ==> db.departments == old(db.departments) && db.roles == old(db.roles)
                       && db.requests == old(db.requests) && db.users.Keys == old(db.users).Keys
    ensures !empty ==> CategoryTable(db.categories, db.nextCategoryId)
                       == GetOrCreateAll(CategoryTable(old(db.categories), old(db.nextCategoryId)), DefaultCategories)
    ensures !empty ==> Names(db.categories) == Names(old(db.categories)) + ListNames(DefaultCategories)
    ensures !empty ==> forall k :: k in db.policies <==> k in old(db.policies) || (k.0 in db.roles && k.1 in db.categories)
    ensures !empty ==> forall k: (UserId, CatId) ::
              (k.0 in old(db.users) && Eligible(old(db.users)[k.0]) && k.1 in db.categories
               && Funded(old(db.users), db.policies, k)) ==> k in db.balances
    ensures !empty ==> forall u :: u in db.users && IsSupervisorUser(db.roles, db.users[u]) ==> db.users[u].isStaff
    ensures !empty ==> forall u :: u in db.users ==>
              db.users[u] == if IsSupervisorUser(db.roles, old(db.users)[u])
                             then old(db.users)[u].(isStaff := true) else old(db.users)[u]
    ensures !empty ==> forall k :: k in db.policies && k !in old(db.policies) ==>
              && k.0 in db.roles && k.1 in db.categories
              && db.policies[k] == PolicyAmount(db.roles[k.0].isSupervisor, db.categories[k.1].name, policyDraw(k.0, k.1))
    ensures !empty ==> forall k :: k in db.balances && k !in old(db.balances) ==>
              && Funded(old(db.users), db.policies, k) && k.1 in db.categories
              && db.balances[k] == SeededBalance(old(db.users), db.categories, db.policies, balanceDraw, k)
    ensures !empty ==> forall c :: c in old(db.categories) ==>
                                   c in db.categories && db.categories[c] == old(db.categories)[c]
    ensures !empty ==> forall k :: k in old(db.policies) ==> k in db.policies && db.policies[k] == old(db.policies)[k]
    ensures !empty ==> forall k :: k in old(db.balances) ==> k in db.balances && db.balances[k] == old(db.balances)[k]
  {
    if empty {
      Empty(db);
      return;
    }
    ghost var t0 := CategoryTable(db.categories, db.nextCategoryId);
    PopulateApi(db, policyDraw, balanceDraw);
    GetOrCreateAllProperties(t0, DefaultCategories);
  }
}
