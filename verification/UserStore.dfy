/** Users and their roles: the permission check, and everything that writes the user table. */
module UserStore {
  import opened Basics
  import opened Text

  const SUPER: string := "super_admin"

  /** ROLE_HIERARCHY; an unknown role has no permissions. */
  function Permissions(role: string): set<string> {
    if role == SUPER then
      {"users:read", "users:write", "users:delete", "users:admin",
       "events:read", "events:write", "events:delete", "events:admin", "billing:read", "billing:write",
       "analytics:read", "analytics:export", "community:read", "community:moderate"}
    else if role == "admin" then
      {"users:read", "users:write", "users:delete", "events:read", "events:write", "events:delete",
       "billing:read", "billing:write", "analytics:read", "analytics:export"}
    else if role == "organizer" then
      {"users:read", "events:read", "events:write", "events:delete", "billing:read", "analytics:read"}
    else if role == "moderator" then {"users:read", "events:read", "community:read", "community:moderate"}
    else if role == "attendee" then {"users:read", "events:read", "billing:read"}
    else {}
  }

  // ---------------------------------------------------------------- check_permission

  /** permission.split(":")[-1] */
  function LastPart(p: string): string {
    if p == "" || p[|p| - 1] == ':' then "" else LastPart(p[..|p| - 1]) + [p[|p| - 1]]
  }

  predicate EndsWith(p: string, suffix: string) {
    |suffix| <= |p| && p[|p| - |suffix|..] == suffix
  }

  lemma {:induction false} LastPartSplits(p: string) returns (front: string)
    ensures p == front + LastPart(p) && ':' !in LastPart(p)
    ensures ':' in p ==> front != "" && front[|front| - 1] == ':'
  {
    if p == "" || p[|p| - 1] == ':' {
      return p;
    }
    front := LastPartSplits(p[..|p| - 1]);
    assert p == front + (LastPart(p[..|p| - 1]) + [p[|p| - 1]]);
  }

  lemma LastPartIs(p: string, part: string)
    requires ':' !in part
    ensures (':' in p && LastPart(p) == part) <==> EndsWith(p, ":" + part)
  {
    var front := LastPartSplits(p);
    if EndsWith(p, ":" + part) {
      assert p[|p| - |part| - 1] == (":" + part)[0];
    }
    if ':' in p {
      var head := front[..|front| - 1];
      assert p == head + ":" + LastPart(p);
      EndIs(p, head, LastPart(p), part);
    }
  }

  lemma EndIs(p: string, head: string, last: string, part: string)
    requires p == head + ":" + last && ':' !in last && ':' !in part
    ensures last == part <==> EndsWith(p, ":" + part)
  {
    if EndsWith(p, ":" + part) {
      var before := p[..|p| - |part| - 1];
      assert p == before + (":" + part) == before + ":" + part;
      LastColon(head, last, before, part);
    }
    if last == part {
      assert p[|head|..] == ":" + part;
    }
  }

  lemma ReadIs(p: string)
    ensures (':' in p && LastPart(p) == "read") <==> EndsWith(p, ":read")
  {
    LastPartIs(p, "read");
    assert ":" + "read" == ":read";
  }

  lemma WriteIs(p: string)
    ensures (':' in p && LastPart(p) == "write") <==> EndsWith(p, ":write")
  {
    LastPartIs(p, "write");
    assert ":" + "write" == ":write";
  }

  /** Who may do what: super admins everything, everybody whatever one of their roles lists, and
      owners may read and write what is theirs. */
  predicate Permitted(roles: seq<string>, permission: string, owner: Option<nat>, requester: Option<nat>) {
    || SUPER in roles
    || (owner.Some? && owner == requester && (EndsWith(permission, ":read") || EndsWith(permission, ":write")))
    || exists role :: role in roles && permission in Permissions(role)
  }

  /** check_permission */
  method CheckPermission(roles: seq<string>, permission: string, owner: Option<nat>, requester: Option<nat>)
    returns (granted: bool)
    ensures granted == Permitted(roles, permission, owner, requester)
    ensures owner.Some? && owner == requester && (EndsWith(permission, ":read") || EndsWith(permission, ":write"))
            ==> granted
    ensures owner.None? || owner != requester || !(EndsWith(permission, ":read") || EndsWith(permission, ":write"))
            ==> (granted <==> "super_admin" in roles
                              || exists i :: 0 <= i < |roles| && permission in Permissions(roles[i]))
  {
    if SUPER in roles {
      return true;
    }
    if owner.Some? && requester.Some? && owner.value == requester.value {
      var open := IsReadOrWrite(permission);
      if open {
        return true;
      }
    }
    granted := SomeRoleLists(roles, permission);
  }

  method IsReadOrWrite(permission: string) returns (yes: bool)
    ensures yes <==> EndsWith(permission, ":read") || EndsWith(permission, ":write")
  {
    var action := if ':' in permission then LastPart(permission) else "";
    ReadIs(permission);
    WriteIs(permission);
    yes := action == "read" || action == "write";
  }

  /** The loop over the roles. */
  method SomeRoleLists(roles: seq<string>, permission: string) returns (found: bool)
    ensures found <==> exists role :: role in roles && permission in Permissions(role)
  {
    for i := 0 to |roles|
      invariant forall j :: 0 <= j < i ==> permission !in Permissions(roles[j])
    {
      if permission in Permissions(roles[i]) {
        return true;
      }
    }
    return false;
  }

  /** Owning a resource never helps with deleting, administering or anything else but reading and writing. */
  lemma OwnersOnlyReadAndWrite(roles: seq<string>, permission: string, me: nat)
    requires !EndsWith(permission, ":read") && !EndsWith(permission, ":write")
    ensures Permitted(roles, permission, Some(me), Some(me)) <==> Permitted(roles, permission, None, None)
  {}

  /** Writing to an account takes one of two roles or being its owner; deleting one, one of the two. */
  lemma AdminsWriteAndDelete(roles: seq<string>, id: nat, requester: nat)
    ensures Permitted(roles, "users:write", Some(id), Some(requester)) <==>
              "super_admin" in roles || "admin" in roles || id == requester
    ensures Permitted(roles, "users:delete", None, None) <==> "super_admin" in roles || "admin" in roles
  {
    assert "users:write"[5..] == ":write";
    assert "users:write" in Permissions("admin") && "users:delete" in Permissions("admin");
    forall role | role in roles ensures "users:write" in Permissions(role) || "users:delete" in Permissions(role)
                                        ==> role in {"super_admin", "admin"}
    {
      WhoSeesUsers(role);
    }
  }

  /** Changing roles is for super admins alone: no other role lists it, the role "admin" included,
      and owning the account does not help. */
  lemma OnlySuperAdminsAdminister(roles: seq<string>, owner: Option<nat>, requester: Option<nat>)
    ensures Permitted(roles, "users:admin", owner, requester) <==> SUPER in roles
  {
    assert "users:admin"[10] == 'n';
    assert !EndsWith("users:admin", ":read") && !EndsWith("users:admin", ":write") by {
      assert ":read"[4] == 'd' && ":write"[5] == 'e';
    }
  }

  // ---------------------------------------------------------------- the role table, by permission

  lemma WhoSeesUsers(role: string)
    ensures "users:read" in Permissions(role) <==>
              role in {"super_admin", "admin", "organizer", "moderator", "attendee"}
    ensures "users:write" in Permissions(role) <==> role in {"super_admin", "admin"}
    ensures "users:delete" in Permissions(role) <==> role in {"super_admin", "admin"}
    ensures "users:admin" in Permissions(role) <==> role in {"super_admin"}
  {}

  lemma WhoSeesEvents(role: string)
    ensures "events:read" in Permissions(role) <==>
              role in {"super_admin", "admin", "organizer", "moderator", "attendee"}
    ensures "events:write" in Permissions(role) <==> role in {"super_admin", "admin", "organizer"}
    ensures "events:delete" in Permissions(role) <==> role in {"super_admin", "admin", "organizer"}
    ensures "events:admin" in Permissions(role) <==> role in {"super_admin"}
  {}

  lemma WhoSeesTheRest(role: string)
    ensures "billing:read" in Permissions(role) <==> role in {"super_admin", "admin", "organizer", "attendee"}
    ensures "billing:write" in Permissions(role) <==> role in {"super_admin", "admin"}
    ensures "analytics:read" in Permissions(role) <==> role in {"super_admin", "admin", "organizer"}
    ensures "analytics:export" in Permissions(role) <==> role in {"super_admin", "admin"}
    ensures "community:read" in Permissions(role) <==> role in {"super_admin", "moderator"}
    ensures "community:moderate" in Permissions(role) <==> role in {"super_admin", "moderator"}
  {}

  // ---------------------------------------------------------------- the user table

  datatype User = User(email: string, name: string, roles: seq<string>, verified: bool, active: bool, sso: bool,
                       updatedAt: Option<int>, deactivatedAt: Option<int>)

  /** A row as the services create it. */
  function Newcomer(email: string, name: string, verified: bool, sso: bool): User {
    User(email, name, ["attendee"], verified, true, sso, None, None)
  }

  /** The claims of an access token, fixed when it is issued. */
  datatype Token = Token(user: nat, roles: seq<string>)

  /** next: the id the database gives the next row. */
  datatype State = State(users: map<nat, User>, tokens: set<Token>, next: nat, now: int)

  datatype Changes = Changes(roles: Option<seq<string>>, name: Option<string>, email: Option<string>)

  datatype UserError = AuthenticationError | PermissionDeniedError | NotFoundError | ValidationError

  datatype Op =
    | Wait(d: nat)
    | Register(email: string, name: string)
    | SsoAuthenticate(email: string, name: string)
    | IssueToken(user: nat)
    | UpdateUser(token: Token, id: nat, changes: Changes)
    | DeactivateUser(token: Token, id: nat)

  predicate Taken(users: map<nat, User>, email: string, except: Option<nat>) {
    exists id :: id in users && except != Some(id) && users[id].email == email
  }

  ghost function Owner(users: map<nat, User>, email: string): nat
    requires Taken(users, email, None)
  {
    var id :| id in users && users[id].email == email;
    id
  }

  function UpdateError(s: State, id: nat, c: Changes, requester: nat, roles: seq<string>): Option<UserError> {
    if !Permitted(roles, "users:write", Some(id), Some(requester)) then Some(PermissionDeniedError)
    else if id !in s.users then Some(NotFoundError)
    else if c.roles.Some? && !Permitted(roles, "users:admin", None, None) then Some(PermissionDeniedError)
    else if c.email.Some? && Taken(s.users, Lower(c.email.value), Some(id)) then Some(ValidationError)
    else None
  }

  function Changed(u: User, c: Changes, now: int): User {
    var u := u.(updatedAt := Some(now));
    var u := if c.roles.Some? then u.(roles := c.roles.value) else u;
    var u := if c.name.Some? then u.(name := c.name.value) else u;
    if c.email.Some? then u.(email := Lower(c.email.value), verified := false) else u
  }

  /** Field by field: what was sent is there, all else is as it was; a sent address is unverified. */
  predicate Rewritten(u: User, v: User, c: Changes, now: int) {
    && (match c.roles case Some(roles) => v.roles == roles case None => v.roles == u.roles)
    && (match c.name case Some(name) => v.name == name case None => v.name == u.name)
    && (match c.email
        case Some(email) => v.email == Lower(email) && !v.verified
        case None => v.email == u.email && v.verified == u.verified)
    && v.active == u.active && v.sso == u.sso && v.deactivatedAt == u.deactivatedAt && v.updatedAt == Some(now)
  }

  function DeactivateError(s: State, id: nat, requester: nat, roles: seq<string>): Option<UserError> {
    if !Permitted(roles, "users:delete", None, None) then Some(PermissionDeniedError)
    else if id == requester then Some(ValidationError)
    else if id !in s.users then Some(NotFoundError)
    else None
  }

  lemma UpdateErrorMeans(s: State, id: nat, c: Changes, requester: nat, roles: seq<string>)
    ensures UpdateError(s, id, c, requester, roles)
            == if !("super_admin" in roles || "admin" in roles || id == requester) then Some(PermissionDeniedError)
               else if id !in s.users then Some(NotFoundError)
               else if c.roles.Some? && "super_admin" !in roles then Some(PermissionDeniedError)
               else if c.email.Some? && exists i :: i in s.users && i != id && s.users[i].email == Lower(c.email.value)
               then Some(ValidationError) else None
  {
    AdminsWriteAndDelete(roles, id, requester);
    OnlySuperAdminsAdminister(roles, None, None);
  }

  lemma ChangedMeans(u: User, c: Changes, now: int)
    ensures Rewritten(u, Changed(u, c, now), c, now)
  {}

  lemma DeactivateErrorMeans(s: State, id: nat, requester: nat, roles: seq<string>)
    ensures DeactivateError(s, id, requester, roles)
            == if !("super_admin" in roles || "admin" in roles) then Some(PermissionDeniedError)
               else if id == requester then Some(ValidationError)
               else if id !in s.users then Some(NotFoundError) else None
  {
    AdminsWriteAndDelete(roles, id, requester);
  }

  function ErrorOf(s: State, op: Op): Option<UserError> {
    match op
    case Wait(_) => None
    case Register(email, _) => if Taken(s.users, Lower(email), None) then Some(AuthenticationError) else None
    case SsoAuthenticate(_, _) => None
    case IssueToken(id) => if id in s.users then None else Some(AuthenticationError)
    case UpdateUser(token, id, c) => UpdateError(s, id, c, token.user, token.roles)
    case DeactivateUser(token, id) => DeactivateError(s, id, token.user, token.roles)
  }

  /** A new row, and a token for it. */
  function Add(s: State, u: User): State {
    s.(users := s.users[s.next := u], tokens := s.tokens + {Token(s.next, u.roles)}, next := s.next + 1)
  }

  function Issue(s: State, id: nat): State
    requires id in s.users
  {
    s.(tokens := s.tokens + {Token(id, s.users[id].roles)})
  }

  /** Okta has vouched for the company's own addresses. */
  function SsoUser(email: string, name: string): User {
    Newcomer(email, name, EndsWith(email, "@eventpulse.com"), true)
  }

  /** What each operation leaves committed; one that raises leaves everything as it was. */
  ghost function Apply(s: State, op: Op): State {
    if ErrorOf(s, op).Some? then s
    else
      match op
      case Wait(d) => s.(now := s.now + d)
      case Register(email, name) => Add(s, Newcomer(Lower(email), name, false, false))
      case SsoAuthenticate(email, name) =>
        if Taken(s.users, Lower(email), None) then Issue(s, Owner(s.users, Lower(email)))
        else Add(s, SsoUser(Lower(email), name))
      case IssueToken(id) => Issue(s, id)
      case UpdateUser(_, id, c) => s.(users := s.users[id := Changed(s.users[id], c, s.now)])
      case DeactivateUser(_, id) => s.(users := s.users[id := s.users[id].(active := false,
                                                                           deactivatedAt := Some(s.now))])
  }

  /** What an update does, without the functions above: who may send it, what is refused in which
      order, and every field of every row afterwards. */
  lemma UpdateMeans(s: State, t: State, token: Token, id: nat, c: Changes, error: Option<UserError>)
    requires t == Apply(s, UpdateUser(token, id, c)) && error == ErrorOf(s, UpdateUser(token, id, c))
    ensures error == if !("super_admin" in token.roles || "admin" in token.roles || id == token.user)
                     then Some(PermissionDeniedError)
                     else if id !in s.users then Some(NotFoundError)
                     else if c.roles.Some? && "super_admin" !in token.roles then Some(PermissionDeniedError)
                     else if c.email.Some? && exists i :: i in s.users && i != id
                                                          && s.users[i].email == Lower(c.email.value)
                     then Some(ValidationError) else None
    ensures error.Some? ==> t == s
    ensures error.None? ==> id in t.users && Rewritten(s.users[id], t.users[id], c, s.now)
                            && t == s.(users := s.users[id := t.users[id]])
  {
    UpdateErrorMeans(s, id, c, token.user, token.roles);
    if error.None? {
      ChangedMeans(s.users[id], c, s.now);
    }
  }

  ghost function Run(s: State, ops: seq<Op>): State {
    if ops == [] then s else Apply(Run(s, ops[..|ops| - 1]), ops[|ops| - 1])
  }

  /** The route guards hand over what an issued token says. */
  predicate Honest(s: State, op: Op) {
    (op.UpdateUser? || op.DeactivateUser?) ==> op.token in s.tokens
  }

  ghost predicate HonestRun(s: State, ops: seq<Op>) {
    forall i :: 0 <= i < |ops| ==> Honest(Run(s, ops[..i]), ops[i])
  }

  // ---------------------------------------------------------------- emails

  /** Stored addresses are lower-case and pairwise distinct, and ids are below the next one. */
  ghost predicate Valid(s: State) {
    && (forall id :: id in s.users ==> Lower(s.users[id].email) == s.users[id].email && id < s.next)
    && (forall i, j :: i in s.users && j in s.users && s.users[i].email == s.users[j].email ==> i == j)
  }

  lemma AddKeepsValid(s: State, u: User)
    requires Valid(s) && Lower(u.email) == u.email && !Taken(s.users, u.email, None)
    ensures Valid(Add(s, u))
  {}

  /** An accepted update leaves the address as it was, or takes a lower-case one nobody else has. */
  lemma UpdateKeepsValid(s: State, id: nat, c: Changes)
    requires Valid(s) && id in s.users && (c.email.Some? ==> !Taken(s.users, Lower(c.email.value), Some(id)))
    ensures Valid(s.(users := s.users[id := Changed(s.users[id], c, s.now)]))
  {
    var email := Changed(s.users[id], c, s.now).email;
    if c.email.Some? {
      LowerTwice(c.email.value);
    }
    assert Lower(email) == email && !Taken(s.users, email, Some(id));
  }

  lemma ApplyKeepsValid(s: State, op: Op)
    requires Valid(s)
    ensures Valid(Apply(s, op))
  {
    if ErrorOf(s, op).None? {
      match op
      case Register(email, name) =>
        LowerTwice(email);
        AddKeepsValid(s, Newcomer(Lower(email), name, false, false));
      case SsoAuthenticate(email, name) =>
        LowerTwice(email);
        if !Taken(s.users, Lower(email), None) {
          AddKeepsValid(s, SsoUser(Lower(email), name));
        }
      case UpdateUser(_, id, c) => UpdateKeepsValid(s, id, c);
      case _ =>
    }
  }

  /** Over every run of registrations, SSO logins, updates and deactivations, addresses stay
      lower-case and distinct. */
  lemma {:induction false} RunsKeepAddresses(s: State, ops: seq<Op>)
    requires Valid(s)
    ensures Valid(Run(s, ops))
  {
    if ops != [] {
      RunsKeepAddresses(s, ops[..|ops| - 1]);
      ApplyKeepsValid(Run(s, ops[..|ops| - 1]), ops[|ops| - 1]);
    }
  }

  // ---------------------------------------------------------------- dates

  /** An account is inactive exactly when it has a date of deactivation, and no date lies ahead. */
  predicate Dated(u: User, now: int) {
    && (u.active <==> u.deactivatedAt.None?)
    && (u.deactivatedAt.Some? ==> u.deactivatedAt.value <= now) && (u.updatedAt.Some? ==> u.updatedAt.value <= now)
  }

  /** Over every run each inactive account has its date of deactivation, by which the removal of
      personal data after 90 days goes; and once there it stays inactive, its date only growing. */
  lemma {:induction false} DeactivationsAreDated(s: State, ops: seq<Op>)
    requires Valid(s) && forall id :: id in s.users ==> Dated(s.users[id], s.now)
    ensures var t := Run(s, ops);
            && s.now <= t.now && (forall id :: id in t.users ==> Dated(t.users[id], t.now))
            && forall id :: id in s.users && s.users[id].deactivatedAt.Some? ==>
                 id in t.users && !t.users[id].active && StillDeactivated(s.users[id], t.users[id])
  {
    if ops != [] {
      var before, op := ops[..|ops| - 1], ops[|ops| - 1];
      DeactivationsAreDated(s, before);
      RunsKeepAddresses(s, before);
      ApplyKeepsDates(Run(s, before), op, Apply(Run(s, before), op));
    }
  }

  lemma ApplyKeepsDates(s: State, op: Op, t: State)
    requires Valid(s) && t == Apply(s, op) && forall id :: id in s.users ==> Dated(s.users[id], s.now)
    ensures s.now <= t.now && forall id :: id in t.users ==> Dated(t.users[id], t.now)
    ensures forall id :: id in s.users ==> id in t.users && StillDeactivated(s.users[id], t.users[id])
  {
    forall id | id in s.users ensures id in t.users && StillDeactivated(s.users[id], t.users[id]) {
      RowStaysDated(s, op, t, id);
    }
    forall id | id in t.users ensures Dated(t.users[id], t.now) {
      if id in s.users {
        RowStaysDated(s, op, t, id);
      }
    }
  }

  predicate StillDeactivated(u: User, v: User) {
    u.deactivatedAt.Some? ==> v.deactivatedAt.Some? && u.deactivatedAt.value <= v.deactivatedAt.value
  }

  lemma RowStaysDated(s: State, op: Op, t: State, id: nat)
    requires t == Apply(s, op) && id in s.users && id < s.next && Dated(s.users[id], s.now)
    ensures id in t.users && s.now <= t.now && Dated(t.users[id], t.now) && StillDeactivated(s.users[id], t.users[id])
  {
    RowEffect(s, op, t, id);
  }

  /** What one operation does to a row that is there. */
  lemma RowEffect(s: State, op: Op, t: State, id: nat)
    requires t == Apply(s, op) && id in s.users && id < s.next
    ensures s.now <= t.now && id in t.users
    ensures t.users[id] == s.users[id] || t.users[id] == s.users[id].(active := false, deactivatedAt := Some(s.now))
         || (t.users[id].active == s.users[id].active && t.users[id].deactivatedAt == s.users[id].deactivatedAt
             && t.users[id].updatedAt == Some(s.now))
  {}

  // ---------------------------------------------------------------- roles

  /** No user and no token carries the role. */
  ghost predicate Nobody(s: State) {
    (forall id :: id in s.users ==> SUPER !in s.users[id].roles) && (forall t :: t in s.tokens ==> SUPER !in t.roles)
  }

  /** The roles of existing users only change at the hand of a token that says super admin. */
  lemma RoleChangesNeedASuperAdmin(s: State, op: Op, id: nat)
    requires Valid(s) && id in s.users
    ensures var t := Apply(s, op);
            && id in t.users && s.next <= t.next
            && (t.users[id].roles != s.users[id].roles ==>
                  op.UpdateUser? && op.id == id && op.changes.roles == Some(t.users[id].roles)
                  && SUPER in op.token.roles)
  {
    if op.UpdateUser? {
      OnlySuperAdminsAdminister(op.token.roles, None, None);
    }
  }

  lemma ApplyKeepsNobody(s: State, op: Op)
    requires Valid(s) && Nobody(s) && Honest(s, op)
    ensures Nobody(Apply(s, op))
  {
    var t := Apply(s, op);
    forall id | id in t.users ensures SUPER !in t.users[id].roles {
      if id in s.users {
        RoleChangesNeedASuperAdmin(s, op, id);
      }
    }
  }

  /** No escalation: if nobody starts as a super admin, nobody ever becomes one, and no user's roles
      ever change at all. */
  lemma {:induction false} NobodyRises(s: State, ops: seq<Op>)
    requires Valid(s) && Nobody(s) && HonestRun(s, ops)
    ensures var t := Run(s, ops);
            && Nobody(t)
            && forall id :: id in s.users ==> id in t.users && t.users[id].roles == s.users[id].roles
  {
    if ops != [] {
      var before, op := ops[..|ops| - 1], ops[|ops| - 1];
      forall i | 0 <= i < |before| ensures Honest(Run(s, before[..i]), before[i]) {
        assert before[..i] == ops[..i];
      }
      NobodyRises(s, before);
      RunsKeepAddresses(s, before);
      var t := Run(s, before);
      ApplyKeepsNobody(t, op);
      forall id | id in s.users ensures id in Run(s, ops).users && Run(s, ops).users[id].roles == s.users[id].roles {
        RoleChangesNeedASuperAdmin(t, op, id);
      }
    }
  }

  /** Operation i wrote these roles for the account, with a token that says super admin. */
  predicate WroteRoles(ops: seq<Op>, i: nat, id: nat, roles: seq<string>) {
    && i < |ops| && ops[i].UpdateUser? && ops[i].id == id && ops[i].changes.roles == Some(roles)
    && "super_admin" in ops[i].token.roles
  }

  lemma NewRowsAreAttendees(s: State, op: Op, t: State, id: nat)
    requires t == Apply(s, op) && id !in s.users && id in t.users
    ensures t.users[id].roles == ["attendee"]
  {}

  /** Over every run, an account that was not there at the start is an attendee and nothing more,
      unless a super admin's update gave it the roles it has. */
  lemma {:induction false} NewcomersAreAttendees(s: State, ops: seq<Op>, id: nat)
    requires Valid(s) && id !in s.users && id in Run(s, ops).users
    ensures var roles := Run(s, ops).users[id].roles;
            roles == ["attendee"] || exists i: nat :: WroteRoles(ops, i, id, roles)
  {
    var before, op := ops[..|ops| - 1], ops[|ops| - 1];
    var u, t := Run(s, before), Run(s, ops);
    RunsKeepAddresses(s, before);
    if id in u.users {
      NewcomersAreAttendees(s, before, id);
      RoleChangesNeedASuperAdmin(u, op, id);
      if t.users[id].roles != u.users[id].roles {
        assert WroteRoles(ops, |ops| - 1, id, t.users[id].roles);
      } else if u.users[id].roles != ["attendee"] {
        var i: nat :| WroteRoles(before, i, id, u.users[id].roles);
        assert WroteRoles(ops, i, id, t.users[id].roles);
      }
    } else {
      NewRowsAreAttendees(u, op, t, id);
    }
  }

  /** Why tokens count as well as users: one issued before a demotion undoes the demotion. */
  lemma OldTokensOutliveDemotion(s: State, t: Token)
    requires t in s.tokens && t.user in s.users && SUPER in t.roles
    ensures var demote := UpdateUser(t, t.user, Changes(Some([]), None, None));
            var restore := UpdateUser(t, t.user, Changes(Some([SUPER]), None, None));
            && HonestRun(s, [demote, restore])
            && Apply(s, demote).users[t.user].roles == []
            && Apply(Apply(s, demote), restore).users[t.user].roles == [SUPER]
  {}

  // ---------------------------------------------------------------- the services

  class UserTable {
    var users: map<nat, User>
    var tokens: set<Token>
    var next: nat
    var now: int

    ghost function Db(): State
      reads this
    {
      State(users, tokens, next, now)
    }

    constructor (start: int)
      ensures Db() == State(map[], {}, 0, start) && Valid(Db())
    {
      users, tokens, next, now := map[], {}, 0, start;
    }

    method Wait(d: nat)
      modifies this`now
      ensures Db() == Apply(old(Db()), Op.Wait(d))
    {
      now := now + d;
    }

    method FindByEmail(email: string) returns (id: Option<nat>)
      requires Valid(Db())
      ensures id == if Taken(users, email, None) then Some(Owner(users, email)) else None
    {
      var found := set id | id in users && users[id].email == email;
      if found == {} {
        assert forall i :: i in users && users[i].email == email ==> i in found;
        return None;
      }
      var i :| i in found;
      return Some(i);
    }

    /** The uniqueness query of update_user. */
    method IsTaken(email: string, except: nat) returns (taken: bool)
      ensures taken == Taken(users, email, Some(except))
    {
      var conflicts := set i | i in users && users[i].email == email && i != except;
      assert forall i :: i in users && users[i].email == email && i != except ==> i in conflicts;
      taken := conflicts != {};
    }

    method GenerateTokens(user: nat)
      requires user in users
      modifies this`tokens
      ensures Db() == Issue(old(Db()), user)
    {
      tokens := tokens + {Token(user, users[user].roles)};
    }

    method Register(email: string, name: string) returns (error: Option<UserError>)
      requires Valid(Db())
      modifies this
      ensures Valid(Db()) && error == ErrorOf(old(Db()), Op.Register(email, name))
      ensures Db() == Apply(old(Db()), Op.Register(email, name))
      ensures error == if exists id :: id in old(users) && old(users)[id].email == Lower(email)
                       then Some(AuthenticationError) else None
      ensures error.Some? ==> Db() == old(Db())
      ensures error.None? ==>
                && users == old(users)[old(next) := User(Lower(email), name, ["attendee"], false, true, false, None,
                                                         None)]
                && tokens == old(tokens) + {Token(old(next), ["attendee"])} && next == old(next) + 1
    {
      ApplyKeepsValid(Db(), Op.Register(email, name));
      var existing := FindByEmail(Lower(email));
      if existing.Some? {
        return Some(AuthenticationError);
      }
      users := users[next := Newcomer(Lower(email), name, false, false)];
      next := next + 1;
      GenerateTokens(next - 1);
      return None;
    }

    /** sso_authenticate, after Okta has answered */
    method SsoAuthenticate(email: string, name: string)
      requires Valid(Db())
      modifies this
      ensures Valid(Db()) && Db() == Apply(old(Db()), Op.SsoAuthenticate(email, name))
      ensures forall id :: id in old(users) && old(users)[id].email == Lower(email) ==>
                users == old(users) && next == old(next) && tokens == old(tokens) + {Token(id, old(users)[id].roles)}
      ensures (forall id :: id in old(users) ==> old(users)[id].email != Lower(email)) ==>
                && users == old(users)[old(next) := User(Lower(email), name, ["attendee"],
                                                         EndsWith(Lower(email), "@eventpulse.com"), true, true, None,
                                                         None)]
                && tokens == old(tokens) + {Token(old(next), ["attendee"])} && next == old(next) + 1
    {
      ApplyKeepsValid(Db(), Op.SsoAuthenticate(email, name));
      var user := FindByEmail(Lower(email));
      if user.None? {
        users := users[next := SsoUser(Lower(email), name)];
        next := next + 1;
        user := Some(next - 1);
      }
      GenerateTokens(user.value);
    }

    method UpdateUser(id: nat, c: Changes, requester: nat, roles: seq<string>) returns (error: Option<UserError>)
      requires Valid(Db())
      modifies this`users
      ensures Valid(Db()) && error == UpdateError(old(Db()), id, c, requester, roles)
      ensures Db() == Apply(old(Db()), Op.UpdateUser(Token(requester, roles), id, c))
    {
      ApplyKeepsValid(Db(), Op.UpdateUser(Token(requester, roles), id, c));
      var granted := CheckPermission(roles, "users:write", Some(id), Some(requester));
      if !granted {
        return Some(PermissionDeniedError);
      }
      if id !in users {
        return Some(NotFoundError);
      }
      var user := users[id];
      if c.roles.Some? {
        granted := CheckPermission(roles, "users:admin", None, None);
        if !granted {
          return Some(PermissionDeniedError);
        }
        user := user.(roles := c.roles.value);
      }
      if c.name.Some? {
        user := user.(name := c.name.value);
      }
      if c.email.Some? {
        var conflict := IsTaken(Lower(c.email.value), id);
        if conflict {
          return Some(ValidationError);
        }
        user := user.(email := Lower(c.email.value), verified := false);
      }
      users := users[id := user.(updatedAt := Some(now))];
      return None;
    }

    method DeactivateUser(id: nat, requester: nat, roles: seq<string>) returns (error: Option<UserError>)
      requires Valid(Db())
      modifies this`users
      ensures Valid(Db()) && error == DeactivateError(old(Db()), id, requester, roles)
      ensures Db() == Apply(old(Db()), Op.DeactivateUser(Token(requester, roles), id))
      ensures error == if !("super_admin" in roles || "admin" in roles) then Some(PermissionDeniedError)
                       else if id == requester then Some(ValidationError)
                       else if id !in old(users) then Some(NotFoundError) else None
      ensures users == if error.Some? then old(users)
                       else old(users)[id := old(users)[id].(active := false, deactivatedAt := Some(now))]
    {
      DeactivateErrorMeans(Db(), id, requester, roles);
      ApplyKeepsValid(Db(), Op.DeactivateUser(Token(requester, roles), id));
      var granted := CheckPermission(roles, "users:delete", None, None);
      if !granted {
        return Some(PermissionDeniedError);
      }
      if id == requester {
        return Some(ValidationError);
      }
      if id !in users {
        return Some(NotFoundError);
      }
      users := users[id := users[id].(active := false, deactivatedAt := Some(now))];
      return None;
    }
  }
}
