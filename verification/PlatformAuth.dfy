/** PlatformAuthService: platform admins, their sessions and the admin cache. */
module PlatformAuth {
  import opened Common

  type Token = string

  datatype Role = SuperAdmin | Support | BillingAdmin | UnknownRole(name: string)

  datatype AdminStatus = Active | Inactive | Suspended | OtherStatus(name: string)

  datatype Admin = Admin(
    email: string,
    name: string,
    role: Role,
    permissions: seq<string>,
    status: AdminStatus,
    passwordHash: string,
    lastLogin: Option<int>)

  datatype Cached = Cached(admin: Admin, expiry: int)

  datatype AuthError =
    | AdminNotFound
    | AdminInactive
    | Unauthorized
    | AdminExists
    | InvalidRole
    | CannotDemoteLastSuperAdmin
    | CannotDeleteLastSuperAdmin
    | CannotDeleteSelf

  type Answer = Result<Admin, AuthError>

  /** Fields left out of an update keep their value. */
  datatype Updates = Updates(
    name: Option<string>,
    role: Option<Role>,
    status: Option<AdminStatus>,
    permissions: Option<seq<string>>,
    passwordHash: Option<string>)

  datatype Auth = Auth(admins: map<Id, Admin>, cache: map<Id, Cached>, sessions: map<Token, Id>)

  const CACHE_SECONDS := 300

  predicate IsActiveSuper(a: Admin) { a.role == SuperAdmin && a.status == Active }

  function ActiveSupers(admins: map<Id, Admin>): set<Id> {
    set id | id in admins && IsActiveSuper(admins[id])
  }

  function SupersIn(admins: map<Id, Admin>, ids: set<Id>): set<Id> {
    set id | id in ids && id in admins && IsActiveSuper(admins[id])
  }

  lemma SupersGrow(admins: map<Id, Admin>, ids: set<Id>, id: Id)
    requires id in admins && id !in ids
    ensures |SupersIn(admins, ids + {id})| == |SupersIn(admins, ids)| + if IsActiveSuper(admins[id]) then 1 else 0
  {
    assert SupersIn(admins, ids + {id}) == SupersIn(admins, ids) + if IsActiveSuper(admins[id]) then {id} else {};
  }

  function WithCached(a: Auth, id: Id, admin: Admin, now: int): Auth {
    a.(cache := a.cache[id := Cached(admin, now + CACHE_SECONDS)])
  }

  function Evict(a: Auth, id: Id): Auth { a.(cache := a.cache - {id}) }

  /** `found` is the admin with the given email, `passwordOk` bcrypt's verdict
      and `token` the newly drawn session token. */
  function Login(a: Auth, found: Option<Id>, passwordOk: bool, token: Token, now: int): (Auth, Answer) {
    if found == None || found.value !in a.admins then (a, Failure(AdminNotFound))
    else
      var id, admin := found.value, a.admins[found.value];
      if admin.status != Active then (a, Failure(AdminInactive))
      else if !passwordOk then (a, Failure(Unauthorized))
      else
        var stored := Auth(a.admins[id := admin.(lastLogin := Some(now))], a.cache, a.sessions[token := id]);
        (WithCached(stored, id, admin, now), Success(admin))
  }

  function ValidateSession(a: Auth, id: Id, now: int): (Auth, Answer) {
    if id in a.cache && now < a.cache[id].expiry then (a, Success(a.cache[id].admin))
    else if id !in a.admins then (a, Failure(AdminNotFound))
    else if a.admins[id].status != Active then (a, Failure(AdminInactive))
    else (WithCached(a, id, a.admins[id], now), Success(a.admins[id]))
  }

  function ValidateToken(a: Auth, token: Token, now: int): (Auth, Answer) {
    if token !in a.sessions then (a, Failure(Unauthorized)) else ValidateSession(a, a.sessions[token], now)
  }

  function Updated(admin: Admin, u: Updates): Admin {
    admin.(
      name := if u.name.Some? then u.name.value else admin.name,
      role := if u.role.Some? then u.role.value else admin.role,
      status := if u.status.Some? then u.status.value else admin.status,
      permissions := if u.permissions.Some? then u.permissions.value else admin.permissions,
      passwordHash := if u.passwordHash.Some? then u.passwordHash.value else admin.passwordHash)
  }

  /** The first guard of UpdateAdmin that refuses, if any. */
  function UpdateRefusal(admins: map<Id, Admin>, actor: Id, id: Id, u: Updates): Option<AuthError> {
    if id !in admins then Some(AdminNotFound)
    else if u.role.Some? && u.role.value.UnknownRole? then Some(InvalidRole)
    else if u.role.Some? && admins[id].role == SuperAdmin && u.role.value != SuperAdmin && |ActiveSupers(admins)| <= 1
    then Some(CannotDemoteLastSuperAdmin)
    else if actor == id && (u.status == Some(Inactive) || u.status == Some(Suspended)) then Some(CannotDeleteSelf)
    else None
  }

  function UpdateAdmin(a: Auth, actor: Id, id: Id, u: Updates): (Auth, Option<AuthError>) {
    var refusal := UpdateRefusal(a.admins, actor, id, u);
    if refusal.Some? then (a, refusal)
    else if id !in a.admins then (a, None)
    else (Evict(a, id).(admins := a.admins[id := Updated(a.admins[id], u)]), None)
  }

  function DeleteRefusal(admins: map<Id, Admin>, actor: Id, id: Id): Option<AuthError> {
    if actor == id then Some(CannotDeleteSelf)
    else if id !in admins then Some(AdminNotFound)
    else if admins[id].role == SuperAdmin && |ActiveSupers(admins)| <= 1 then Some(CannotDeleteLastSuperAdmin)
    else None
  }

  function DeleteAdmin(a: Auth, actor: Id, id: Id): (Auth, Option<AuthError>) {
    var refusal := DeleteRefusal(a.admins, actor, id);
    if refusal.Some? then (a, refusal) else (Evict(a, id).(admins := a.admins - {id}), None)
  }

  predicate EmailTaken(admins: map<Id, Admin>, email: string) {
    exists id :: id in admins && admins[id].email == email
  }

  /** Used when none are given; super admins bypass permission checks. */
  function DefaultPermissions(role: Role): seq<string> {
    match role
    case BillingAdmin => ["billing:read", "billing:write", "tenant:read"]
    case Support => ["tenant:read", "user:read"]
    case _ => []
  }

  datatype NewAdmin = NewAdmin(email: string, passwordHash: string, name: string, role: Role, permissions: seq<string>)

  /** `newId` is the identifier the database gives the new row. */
  function CreateAdmin(a: Auth, newId: Id, n: NewAdmin): (Auth, Option<AuthError>) {
    if n.role.UnknownRole? then (a, Some(InvalidRole))
    else if EmailTaken(a.admins, n.email) then (a, Some(AdminExists))
    else
      var permissions := if n.permissions == [] then DefaultPermissions(n.role) else n.permissions;
      (a.(admins := a.admins[newId := Admin(n.email, n.name, n.role, permissions, Active, n.passwordHash, None)]), None)
  }

  // ------------------------------------------------------------- the service

  class PlatformAuthService {
    var admins: map<Id, Admin>
    var cache: map<Id, Cached>
    var sessionTokens: map<Token, Id>

    function State(): Auth
      reads this
    {
      Auth(admins, cache, sessionTokens)
    }

    method CacheAdmin(id: Id, admin: Admin, now: int)
      modifies this`cache
      ensures State() == WithCached(old(State()), id, admin, now)
    {
      cache := cache[id := Cached(admin, now + CACHE_SECONDS)];
    }

    method DoLogin(email: string, passwordOk: bool, token: Token, now: int) returns (r: Answer, found: Option<Id>)
      modifies this
      ensures if EmailTaken(old(admins), email)
              then found.Some? && found.value in old(admins) && old(admins)[found.value].email == email
              else found == None
      ensures (State(), r) == Login(old(State()), found, passwordOk, token, now)
    {
      if id :| id in admins && admins[id].email == email {
        found := Some(id);
        var admin := admins[id];
        if admin.status != Active {
          return Failure(AdminInactive), found;
        }
        if !passwordOk {
          return Failure(Unauthorized), found;
        }
        sessionTokens := sessionTokens[token := id];
        admins := admins[id := admin.(lastLogin := Some(now))];
        CacheAdmin(id, admin, now);
        return Success(admin), found;
      }
      return Failure(AdminNotFound), None;
    }

    method DoValidateSession(adminId: Id, now: int) returns (r: Answer)
      modifies this`cache
      ensures (State(), r) == ValidateSession(old(State()), adminId, now)
    {
      if adminId in cache && now < cache[adminId].expiry {
        return Success(cache[adminId].admin);
      }
      if adminId !in admins {
        return Failure(AdminNotFound);
      }
      var admin := admins[adminId];
      if admin.status != Active {
        return Failure(AdminInactive);
      }
      CacheAdmin(adminId, admin, now);
      r := Success(admin);
    }

    method DoValidateToken(token: Token, now: int) returns (r: Answer)
      modifies this`cache
      ensures (State(), r) == ValidateToken(old(State()), token, now)
    {
      if token !in sessionTokens {
        return Failure(Unauthorized);
      }
      r := DoValidateSession(sessionTokens[token], now);
    }

    method Logout(token: Token)
      modifies this`sessionTokens
      ensures sessionTokens == old(sessionTokens) - {token}
    {
      sessionTokens := sessionTokens - {token};
    }

    method DoCreateAdmin(newId: Id, n: NewAdmin) returns (r: Option<AuthError>)
      modifies this`admins
      ensures (State(), r) == CreateAdmin(old(State()), newId, n)
    {
      if n.role.UnknownRole? {
        return Some(InvalidRole);
      }
      if existing :| existing in admins && admins[existing].email == n.email {
        return Some(AdminExists);
      }
      var permissions := n.permissions;
      if |permissions| == 0 {
        permissions := DefaultPermissions(n.role);
      }
      admins := admins[newId := Admin(n.email, n.name, n.role, permissions, Active, n.passwordHash, None)];
      r := None;
    }

    method SuperAdminCount() returns (count: nat)
      ensures count == |ActiveSupers(admins)|
    {
      count := 0;
      var left := admins.Keys;
      ghost var seen: set<Id> := {};
      while left != {}
        invariant seen + left == admins.Keys && seen !! left
        invariant count == |SupersIn(admins, seen)|
        decreases left
      {
        ghost var one := Pick(left);
        assert one in left;
        var id :| id in left;
        SupersGrow(admins, seen, id);
        left, seen := left - {id}, seen + {id};
        if admins[id].role == SuperAdmin && admins[id].status == Active {
          count := count + 1;
        }
      }
      assert ActiveSupers(admins) == SupersIn(admins, seen);
    }

    method DoUpdateAdmin(actorId: Id, adminId: Id, updates: Updates) returns (r: Option<AuthError>)
      modifies this`admins, this`cache
      ensures (State(), r) == UpdateAdmin(old(State()), actorId, adminId, updates)
    {
      if adminId !in admins {
        return Some(AdminNotFound);
      }
      var admin := admins[adminId];
      if updates.name.Some? {
        admin := admin.(name := updates.name.value);
      }
      if updates.role.Some? {
        if updates.role.value.UnknownRole? {
          return Some(InvalidRole);
        }
        if admin.role == SuperAdmin && updates.role.value != SuperAdmin {
          var count := SuperAdminCount();
          if count <= 1 {
            return Some(CannotDemoteLastSuperAdmin);
          }
        }
        admin := admin.(role := updates.role.value);
      }
      if updates.status.Some? {
        if actorId == adminId && (updates.status.value == Inactive || updates.status.value == Suspended) {
          return Some(CannotDeleteSelf);
        }
        admin := admin.(status := updates.status.value);
      }
      if updates.permissions.Some? {
        admin := admin.(permissions := updates.permissions.value);
      }
      if updates.passwordHash.Some? {
        admin := admin.(passwordHash := updates.passwordHash.value);
      }
      cache := cache - {adminId};
      admins := admins[adminId := admin];
      r := None;
    }

    method DoDeleteAdmin(actorId: Id, adminId: Id) returns (r: Option<AuthError>)
      modifies this`admins, this`cache
      ensures (State(), r) == DeleteAdmin(old(State()), actorId, adminId)
    {
      if actorId == adminId {
        return Some(CannotDeleteSelf);
      }
      if adminId !in admins {
        return Some(AdminNotFound);
      }
      if admins[adminId].role == SuperAdmin {
        var count := SuperAdminCount();
        if count <= 1 {
          return Some(CannotDeleteLastSuperAdmin);
        }
      }
      cache := cache - {adminId};
      admins := admins - {adminId};
      r := None;
    }
  }

  // --------------------------------------------------------------- coherence

  /** What a session check answers without a cache. */
  function Truth(a: Auth, token: Token): Answer {
    if token !in a.sessions then Failure(Unauthorized)
    else if a.sessions[token] !in a.admins then Failure(AdminNotFound)
    else if a.admins[a.sessions[token]].status != Active then Failure(AdminInactive)
    else Success(a.admins[a.sessions[token]])
  }

  /** Equal but for the time of the last login. */
  predicate SameAdmin(x: Admin, y: Admin) { x == y.(lastLogin := x.lastLogin) }

  predicate SameAnswer(x: Answer, y: Answer) {
    if x.Success? && y.Success? then SameAdmin(x.value, y.value) else x == y
  }

  /** Every cache entry, expired or not, mirrors an active admin. */
  ghost predicate Coherent(a: Auth) {
    forall id | id in a.cache :: id in a.admins && a.admins[id].status == Active && SameAdmin(a.cache[id].admin, a.admins[id])
  }

  /** In a coherent state the cache cannot be noticed: tokens validate exactly
      when the repository says so, with the repository's role and permissions. */
  lemma CacheIsTransparent(a: Auth, token: Token, now: int)
    requires Coherent(a)
    ensures SameAnswer(ValidateToken(a, token, now).1, Truth(a, token))
    ensures Coherent(ValidateToken(a, token, now).0)
  {
  }

  /** A deactivated admin's tokens stop validating at once, and so do a deleted
      one's. */
  lemma RemovedAdminsLoseTheirTokens(a: Auth, actor: Id, id: Id, u: Updates, token: Token, now: int)
    requires Coherent(a) && token in a.sessions && a.sessions[token] == id
    ensures UpdateAdmin(a, actor, id, u).1 == None && u.status.Some? && u.status.value != Active ==>
              ValidateToken(UpdateAdmin(a, actor, id, u).0, token, now).1 == Failure(AdminInactive)
    ensures DeleteAdmin(a, actor, id).1 == None ==>
              ValidateToken(DeleteAdmin(a, actor, id).0, token, now).1 == Failure(AdminNotFound)
  {
  }

  // ------------------------------------------------- some super admin remains

  predicate SoleSuper(admins: map<Id, Admin>, id: Id) {
    ActiveSupers(admins) == {id}
  }

  lemma AtMostOne(s: set<Id>, x: Id)
    requires x in s
    ensures |s| <= 1 <==> s == {x}
  {
    assert s == {x} + (s - {x});
  }

  /** An accepted update removes the last active super admin exactly when it
      gives the only one a status that is not active. Role changes never do. */
  lemma UpdateLosesLastSuperExactly(a: Auth, actor: Id, id: Id, u: Updates)
    requires ActiveSupers(a.admins) != {} && UpdateAdmin(a, actor, id, u).1 == None
    ensures ActiveSupers(UpdateAdmin(a, actor, id, u).0.admins) == {} <==>
            SoleSuper(a.admins, id) && u.status.Some? && u.status.value != Active
  {
    var before := ActiveSupers(a.admins);
    var after := ActiveSupers(UpdateAdmin(a, actor, id, u).0.admins);
    assert after - {id} == before - {id};
    if before - {id} == {} {
      assert id in before;
      AtMostOne(before, id);
      assert before == {id};
    } else {
      var other := Pick(before - {id});
      assert other in after;
    }
  }

  /** Deleting never removes the last active super admin. */
  lemma DeleteKeepsASuper(a: Auth, actor: Id, id: Id)
    requires ActiveSupers(a.admins) != {}
    ensures ActiveSupers(DeleteAdmin(a, actor, id).0.admins) != {}
  {
    var before := ActiveSupers(a.admins);
    var after := ActiveSupers(DeleteAdmin(a, actor, id).0.admins);
    if DeleteAdmin(a, actor, id).1 == None {
      assert after == before - {id};
      if id in before {
        AtMostOne(before, id);
      }
    }
  }

  // ------------------------------------------------- what changes stored admins

  /** Changing an admin is refused exactly for an unknown admin or role, for
      demoting a super admin while at most one is active, and for deactivating
      oneself. An accepted change writes the given fields only, of that admin
      only, and drops its cache entry and no other. */
  lemma UpdateExactly(a: Auth, actor: Id, id: Id, u: Updates, other: Id)
    ensures var (b, r) := UpdateAdmin(a, actor, id, u);
      var active := set x | x in a.admins && a.admins[x].role == SuperAdmin && a.admins[x].status == Active;
      && r == (if id !in a.admins then Some(AdminNotFound)
               else if u.role.Some? && u.role.value.UnknownRole? then Some(InvalidRole)
               else if u.role in {Some(Support), Some(BillingAdmin)} && a.admins[id].role == SuperAdmin && |active| <= 1
                    then Some(CannotDemoteLastSuperAdmin)
               else if actor == id && u.status in {Some(Inactive), Some(Suspended)} then Some(CannotDeleteSelf)
               else None)
      && (r.Some? ==> b == a)
      && (r.None? ==>
            && id in b.admins && id !in b.cache
            && var was, now := a.admins[id], b.admins[id];
            && u.name in {None, Some(now.name)} && (u.name == None ==> now.name == was.name)
            && u.role in {None, Some(now.role)} && (u.role == None ==> now.role == was.role)
            && u.status in {None, Some(now.status)} && (u.status == None ==> now.status == was.status)
            && u.permissions in {None, Some(now.permissions)} && (u.permissions == None ==> now.permissions == was.permissions)
            && u.passwordHash in {None, Some(now.passwordHash)} && (u.passwordHash == None ==> now.passwordHash == was.passwordHash)
            && now.email == was.email && now.lastLogin == was.lastLogin)
      && b.sessions == a.sessions
      && (other != id ==> (other in b.admins <==> other in a.admins) && (other in b.cache <==> other in a.cache))
      && (other != id && other in a.admins ==> b.admins[other] == a.admins[other])
      && (other != id && other in a.cache ==> b.cache[other] == a.cache[other])
  {
    var active := set x | x in a.admins && a.admins[x].role == SuperAdmin && a.admins[x].status == Active;
    assert forall x :: x in active <==> x in ActiveSupers(a.admins);
    assert active == ActiveSupers(a.admins);
  }

  /** Deleting is refused exactly for oneself, an unknown admin, and a super admin
      while at most one is active. */
  lemma DeleteExactly(a: Auth, actor: Id, id: Id)
    ensures var (b, r) := DeleteAdmin(a, actor, id);
      var active := set x | x in a.admins && a.admins[x].role == SuperAdmin && a.admins[x].status == Active;
      && r == (if actor == id then Some(CannotDeleteSelf)
               else if id !in a.admins then Some(AdminNotFound)
               else if a.admins[id].role == SuperAdmin && |active| <= 1 then Some(CannotDeleteLastSuperAdmin)
               else None)
      && b == (if r.Some? then a else Auth(a.admins - {id}, a.cache - {id}, a.sessions))
  {
    var active := set x | x in a.admins && a.admins[x].role == SuperAdmin && a.admins[x].status == Active;
    assert forall x :: x in active <==> x in ActiveSupers(a.admins);
    assert active == ActiveSupers(a.admins);
  }

  /** A new admin has a known role and an email of its own, can log in at once,
      and gets its role's permissions when none are given. */
  lemma CreateExactly(a: Auth, newId: Id, n: NewAdmin, token: Token, now: int)
    requires newId !in a.admins
    ensures var (b, r) := CreateAdmin(a, newId, n);
      && r == (if n.role.UnknownRole? then Some(InvalidRole)
               else if exists id :: id in a.admins && a.admins[id].email == n.email then Some(AdminExists)
               else None)
      && (r.Some? ==> b == a)
      && (r.None? ==>
            && b.admins.Keys == a.admins.Keys + {newId} && (forall id | id in a.admins :: b.admins[id] == a.admins[id])
            && b.cache == a.cache && b.sessions == a.sessions
            && Login(b, Some(newId), true, token, now).1 == Success(b.admins[newId])
            && b.admins[newId].email == n.email && b.admins[newId].name == n.name && b.admins[newId].role == n.role
            && b.admins[newId].passwordHash == n.passwordHash
            && b.admins[newId].permissions ==
               if |n.permissions| > 0 then n.permissions
               else if n.role == Support then ["tenant:read", "user:read"]
               else if n.role == BillingAdmin then ["billing:read", "billing:write", "tenant:read"]
               else [])
  {
  }

  // ------------------------------------------------------------------- runs

  datatype Step =
    | StepLogin(found: Option<Id>, passwordOk: bool, token: Token, now: int)
    | StepValidate(token: Token, now: int)
    | StepLookup(id: Id, now: int)
    | StepLogout(token: Token)
    | StepCreate(token: Token, now: int, newId: Id, newAdmin: NewAdmin)
    | StepUpdate(token: Token, now: int, id: Id, updates: Updates)
    | StepDelete(token: Token, now: int, id: Id)

  /** Creating, updating and deleting go through the token check and the super
      admin check, which looks at the role the token check returned. */
  function Actor(a: Auth, token: Token, now: int): (Auth, Option<Id>) {
    var (b, answer) := ValidateToken(a, token, now);
    if answer.Success? && answer.value.role == SuperAdmin && token in b.sessions then (b, Some(b.sessions[token])) else (b, None)
  }

  function Next(a: Auth, s: Step): Auth {
    match s
    case StepLogin(found, passwordOk, token, now) => Login(a, found, passwordOk, token, now).0
    case StepValidate(token, now) => ValidateToken(a, token, now).0
    case StepLookup(id, now) => ValidateSession(a, id, now).0
    case StepLogout(token) => a.(sessions := a.sessions - {token})
    case StepCreate(token, now, newId, admin) =>
      var (b, actor) := Actor(a, token, now);
      if actor == None || newId in b.admins then b else CreateAdmin(b, newId, admin).0
    case StepUpdate(token, now, id, u) =>
      var (b, actor) := Actor(a, token, now);
      if actor == None then b else UpdateAdmin(b, actor.value, id, u).0
    case StepDelete(token, now, id) =>
      var (b, actor) := Actor(a, token, now);
      if actor == None then b else DeleteAdmin(b, actor.value, id).0
  }

  function Run(a: Auth, steps: seq<Step>): Auth
    decreases |steps|
  {
    if steps == [] then a else Run(Next(a, steps[0]), steps[1..])
  }

  ghost predicate Inv(a: Auth) {
    Coherent(a) && ActiveSupers(a.admins) != {}
  }

  /** Statuses the rest of the gateway knows. */
  predicate KnownStatus(s: Step) {
    s.StepUpdate? && s.updates.status.Some? ==> !s.updates.status.value.OtherStatus?
  }

  /** Because the cache is coherent, whoever passes the checks is an active super
      admin in the repository at that moment. */
  lemma ActorIsActiveSuper(a: Auth, token: Token, now: int)
    requires Coherent(a)
    ensures var (b, actor) := Actor(a, token, now);
      && b.admins == a.admins && Coherent(b)
      && (actor.Some? ==> actor.value in ActiveSupers(b.admins))
  {
    CacheIsTransparent(a, token, now);
  }

  /** Only who validates as a super admin that is active in the repository adds,
      changes or removes admins; every other step writes login times at most. */
  lemma OnlySuperAdminsChangeAdmins(a: Auth, s: Step)
    requires Coherent(a)
    ensures s.StepCreate? || s.StepUpdate? || s.StepDelete? ||
            (Next(a, s).admins.Keys == a.admins.Keys && forall id | id in a.admins :: SameAdmin(Next(a, s).admins[id], a.admins[id]))
    ensures (s.StepCreate? || s.StepUpdate? || s.StepDelete?) && Next(a, s).admins != a.admins ==>
            s.token in a.sessions && a.sessions[s.token] in a.admins
            && a.admins[a.sessions[s.token]].role == SuperAdmin && a.admins[a.sessions[s.token]].status == Active
  {
    if s.StepCreate? || s.StepUpdate? || s.StepDelete? {
      ActorIsActiveSuper(a, s.token, s.now);
    }
  }

  /** A login for a found admin succeeds if and only if that admin is stored and
      active and the password is right. A refused one changes nothing. An accepted
      one adds exactly the drawn token, which then validates as that admin. */
  lemma LoginExactly(a: Auth, id: Id, passwordOk: bool, token: Token, now: int, other: Token)
    ensures var (b, r) := Login(a, Some(id), passwordOk, token, now);
      && (r.Success? <==> id in a.admins && a.admins[id].status == Active && passwordOk)
      && (r.Failure? ==> b == a)
      && (r.Failure? ==> r.error == if id !in a.admins then AdminNotFound
                                    else if a.admins[id].status != Active then AdminInactive else Unauthorized)
      && (r.Success? ==>
            && r.value == a.admins[id]
            && token in b.sessions && b.sessions[token] == id
            && ValidateToken(b, token, now).1 == Success(a.admins[id])
            && b.admins == a.admins[id := a.admins[id].(lastLogin := Some(now))])
      && Login(a, None, passwordOk, token, now) == (a, Failure(AdminNotFound))
      && (other != token ==> (other in b.sessions <==> other in a.sessions))
      && (other != token && other in a.sessions ==> b.sessions[other] == a.sessions[other])
  {
  }

  lemma LoginKeepsInv(a: Auth, found: Option<Id>, passwordOk: bool, token: Token, now: int)
    requires Inv(a)
    ensures Inv(Login(a, found, passwordOk, token, now).0)
  {
    var b := Login(a, found, passwordOk, token, now).0;
    assert ActiveSupers(b.admins) == ActiveSupers(a.admins);
  }

  /** A guarded update loses the last active super admin exactly when that admin
      gives itself a status outside active, inactive and suspended. */
  lemma GuardedUpdateLosesLastSuperExactly(a: Auth, token: Token, now: int, id: Id, u: Updates)
    requires Inv(a) && Actor(a, token, now).1.Some?
    requires UpdateAdmin(Actor(a, token, now).0, Actor(a, token, now).1.value, id, u).1 == None
    ensures ActiveSupers(Next(a, StepUpdate(token, now, id, u)).admins) == {} <==>
            SoleSuper(a.admins, id) && u.status.Some? && u.status.value.OtherStatus?
  {
    var (b, actor) := Actor(a, token, now);
    ActorIsActiveSuper(a, token, now);
    UpdateLosesLastSuperExactly(b, actor.value, id, u);
  }

  lemma StepKeepsInv(a: Auth, s: Step)
    requires Inv(a) && KnownStatus(s)
    ensures Inv(Next(a, s))
  {
    match s
    case StepLogin(found, passwordOk, token, now) => LoginKeepsInv(a, found, passwordOk, token, now);
    case StepValidate(token, now) => CacheIsTransparent(a, token, now);
    case StepLookup(_, _) =>
    case StepLogout(_) =>
    case StepCreate(token, now, newId, admin) =>
      ActorIsActiveSuper(a, token, now);
      var (b, actor) := Actor(a, token, now);
      if actor.Some? && newId !in b.admins {
        assert actor.value in ActiveSupers(CreateAdmin(b, newId, admin).0.admins);
      }
    case StepUpdate(token, now, id, u) =>
      ActorIsActiveSuper(a, token, now);
      var (b, actor) := Actor(a, token, now);
      if actor.Some? && UpdateAdmin(b, actor.value, id, u).1 == None {
        GuardedUpdateLosesLastSuperExactly(a, token, now, id, u);
      }
    case StepDelete(token, now, id) =>
      ActorIsActiveSuper(a, token, now);
      var (b, actor) := Actor(a, token, now);
      if actor.Some? {
        DeleteKeepsASuper(b, actor.value, id);
      }
  }

  /** In every sequential run the cache stays coherent and some active super
      admin remains. */
  lemma {:induction false} SomeSuperAdminRemains(a: Auth, steps: seq<Step>)
    requires Inv(a) && forall s | s in steps :: KnownStatus(s)
    ensures Inv(Run(a, steps))
    decreases |steps|
  {
    if steps != [] {
      assert steps[0] in steps;
      StepKeepsInv(a, steps[0]);
      SomeSuperAdminRemains(Next(a, steps[0]), steps[1..]);
    }
  }

  /** Step `i` is an accepted login of `id` that drew this token. */
  predicate DrawnBy(a: Auth, steps: seq<Step>, i: int, token: Token, id: Id) {
    && 0 <= i < |steps| && steps[i].StepLogin?
    && steps[i].found == Some(id) && steps[i].passwordOk && steps[i].token == token
    && var before := Run(a, steps[..i]).admins; id in before && before[id].status == Active
  }

  lemma DrawnLater(a: Auth, steps: seq<Step>, i: nat, token: Token, id: Id)
    requires steps != [] && DrawnBy(Next(a, steps[0]), steps[1..], i, token, id)
    ensures DrawnBy(a, steps, i + 1, token, id)
  {
    assert steps[..i + 1][0] == steps[0] && steps[..i + 1][1..] == steps[1..][..i];
  }

  /** Over every run, a token that is not as it was at the start was drawn by a
      login with the right password, of the admin it stands for, who was active
      at that moment. */
  lemma {:induction false} TokensComeFromLogins(a: Auth, steps: seq<Step>, token: Token)
    requires token in Run(a, steps).sessions
    ensures var id := Run(a, steps).sessions[token];
      (token in a.sessions && a.sessions[token] == id) || exists i :: DrawnBy(a, steps, i, token, id)
    decreases |steps|
  {
    if steps != [] {
      var b, id := Next(a, steps[0]), Run(a, steps).sessions[token];
      TokensComeFromLogins(b, steps[1..], token);
      if i :| DrawnBy(b, steps[1..], i, token, id) {
        DrawnLater(a, steps, i, token, id);
      } else {
        assert steps[..0] == [];
        assert (token in a.sessions && a.sessions[token] == id) || DrawnBy(a, steps, 0, token, id);
      }
    }
  }

  predicate UniqueEmails(admins: map<Id, Admin>) {
    forall i, j | i in admins && j in admins && admins[i].email == admins[j].email :: i == j
  }

  lemma StepKeepsEmailsUnique(a: Auth, s: Step)
    requires UniqueEmails(a.admins)
    ensures UniqueEmails(Next(a, s).admins)
  {
  }

  /** No two admins ever share an email, so a login names at most one. */
  lemma {:induction false} EmailsStayUnique(a: Auth, steps: seq<Step>)
    requires UniqueEmails(a.admins)
    ensures UniqueEmails(Run(a, steps).admins)
    decreases |steps|
  {
    if steps != [] {
      StepKeepsEmailsUnique(a, steps[0]);
      EmailsStayUnique(Next(a, steps[0]), steps[1..]);
    }
  }

  /** What an update leaves when a session check falls between its eviction and
      its write. */
  function Interleaved(a: Auth, id: Id, u: Updates, now: int): Auth
    requires id in a.admins
  {
    var checked := ValidateSession(Evict(a, id), id, now).0;
    checked.(admins := a.admins[id := Updated(a.admins[id], u)])
  }

  /** Sequential runs are needed: with a session check between its eviction and
      its write, an update leaves a coherent cache if and only if the admin was
      not active, so nothing was cached, or the update changes nothing. */
  lemma CheckBetweenEvictAndWriteGoesStale(a: Auth, id: Id, u: Updates, now: int)
    requires Coherent(a) && id in a.admins
    ensures Coherent(Interleaved(a, id, u, now)) <==>
            a.admins[id].status != Active || SameAdmin(a.admins[id], Updated(a.admins[id], u))
  {
    var b := Interleaved(a, id, u, now);
    if a.admins[id].status == Active {
      assert b.cache[id].admin == a.admins[id];
      assert b.admins[id] == Updated(a.admins[id], u);
    }
  }

  /** An admin that such an update deactivates still validates, exactly if it was
      active before and for exactly as long as the entry lives. */
  lemma DeactivatedAdminStillValidates(a: Auth, id: Id, u: Updates, now: int, later: int)
    requires id in a.admins && u.status.Some? && u.status.value != Active
    ensures ValidateSession(Interleaved(a, id, u, now), id, later).1.Success? <==>
            a.admins[id].status == Active && later < now + 300
  {
  }
}
