/**
 * lib/auth.ts: authentication and role-based permission checks. The ORM lookup
 * `prisma.user.findUnique({ ..., include: userRoles -> role -> rolePermissions -> permission })`
 * is an input: the fetched user, or `None` when no row has that id.
 */
module Auth {
  import opened Wrappers
  import opened Types
  import ApiResponse

  /** One `userRoles[i].role`, with the permissions of its `rolePermissions` in order. */
  datatype RoleGrant = RoleGrant(role: Role, permissions: seq<Permission>)

  /** A user row with its roles and their permissions, as the permission helpers fetch it. */
  datatype UserWithRoles = UserWithRoles(id: int, username: string, status: int, userRoles: seq<RoleGrant>)

  /** The `Error` messages the helpers throw. */
  datatype AuthError = Unauthorized | UserNotFound | Forbidden {
    function Message(): string {
      match this
      case Unauthorized => "UNAUTHORIZED"
      case UserNotFound => "USER_NOT_FOUND"
      case Forbidden => "FORBIDDEN"
    }
  }

  /** `requireAuth`: the payload of a valid bearer token, or UNAUTHORIZED. */
  function RequireAuth(authorization: Option<string>, jwtVerify: string -> ApiResponse.JwtOutcome): (r: Result<JwtPayload, AuthError>)
    ensures r.Failure? <==> ApiResponse.GetAuthUser(authorization, jwtVerify).None?
    ensures r.Failure? ==> r.error == Unauthorized
    ensures r.Success? ==> ApiResponse.GetAuthUser(authorization, jwtVerify) == Some(r.value)
  {
    match ApiResponse.GetAuthUser(authorization, jwtVerify)
    case None => Failure(Unauthorized)
    case Some(p) => Success(p)
  }

  /** The nested `some` of `requirePermission`: some role of the user has a permission with this code. */
  predicate Granted(u: UserWithRoles, code: string) {
    exists i, j :: 0 <= i < |u.userRoles| && 0 <= j < |u.userRoles[i].permissions|
      && u.userRoles[i].permissions[j].code == code
  }

  /** `requirePermission`: USER_NOT_FOUND first, then FORBIDDEN unless some role grants the code. */
  function RequirePermission(user: Option<UserWithRoles>, code: string): (r: Result<UserWithRoles, AuthError>)
    ensures user.None? ==> r == Failure(UserNotFound)
    ensures user.Some? ==> (r.Success? <==> code in PermissionCodes(user.value))
    ensures r.Success? ==> r.value == user.value
    ensures user.Some? && r.Failure? ==> r.error == Forbidden
  {
    match user
    case None => Failure(UserNotFound)
    case Some(u) =>
      GrantedIsUnion(u, code);
      if Granted(u, code) then Success(u) else Failure(Forbidden)
  }

  /** `hasPermission`: `requirePermission` with every thrown error turned into `false`. */
  function HasPermission(user: Option<UserWithRoles>, code: string): (b: bool)
    ensures b <==> RequirePermission(user, code).Success?
    ensures b <==> user.Some? && code in PermissionCodes(user.value)
  {
    RequirePermission(user, code).Success?
  }

  // ---------------------------------------------------------------------------
  // The permission set that hasAnyPermission and hasAllPermissions build

  /** The codes of a list of permissions. */
  function CodesOf(ps: seq<Permission>): (codes: set<string>)
    ensures forall c :: c in codes <==> exists j :: 0 <= j < |ps| && ps[j].code == c
  {
    if ps == [] then {}
    else
      var init := ps[..|ps| - 1];
      assert forall j :: 0 <= j < |init| ==> init[j] == ps[j];
      CodesOf(init) + {ps[|ps| - 1].code}
  }

  /** The union of the permission codes of a list of roles. */
  function CodesOfRoles(rs: seq<RoleGrant>): set<string> {
    if rs == [] then {} else CodesOfRoles(rs[..|rs| - 1]) + CodesOf(rs[|rs| - 1].permissions)
  }

  /** Every permission code the user holds through any role. */
  function PermissionCodes(u: UserWithRoles): set<string> {
    CodesOfRoles(u.userRoles)
  }

  /** A code is in the union of the roles' codes exactly when some role carries it. */
  lemma {:induction false} CodesOfRolesMembers(rs: seq<RoleGrant>, code: string)
    ensures code in CodesOfRoles(rs) <==>
      exists i, j :: 0 <= i < |rs| && 0 <= j < |rs[i].permissions| && rs[i].permissions[j].code == code
  {
    if rs != [] {
      var init := rs[..|rs| - 1];
      CodesOfRolesMembers(init, code);
      assert forall i :: 0 <= i < |init| ==> init[i] == rs[i];
      if code in CodesOfRoles(rs) && code !in CodesOfRoles(init) {
        var j :| 0 <= j < |rs[|rs| - 1].permissions| && rs[|rs| - 1].permissions[j].code == code;
        assert rs[|rs| - 1].permissions[j].code == code;
      }
    }
  }

  /** The nested-`some` test and the `Set` the any/all helpers build agree on every code. */
  lemma GrantedIsUnion(u: UserWithRoles, code: string)
    ensures Granted(u, code) <==> code in PermissionCodes(u)
  {
    CodesOfRolesMembers(u.userRoles, code);
  }

  /** What `hasAnyPermission` answers. */
  predicate GrantsAny(user: Option<UserWithRoles>, codes: seq<string>) {
    user.Some? && exists k :: 0 <= k < |codes| && codes[k] in PermissionCodes(user.value)
  }

  /** What `hasAllPermissions` answers. */
  predicate GrantsAll(user: Option<UserWithRoles>, codes: seq<string>) {
    user.Some? && forall k :: 0 <= k < |codes| ==> codes[k] in PermissionCodes(user.value)
  }

  /** The `forEach`/`add` loops: the set of every code of every role of the user. */
  method CollectPermissionCodes(u: UserWithRoles) returns (userPermissions: set<string>)
    ensures forall c :: c in userPermissions <==> Granted(u, c)
  {
    userPermissions := {};
    for i := 0 to |u.userRoles|
      invariant userPermissions == CodesOfRoles(u.userRoles[..i])
    {
      var perms := u.userRoles[i].permissions;
      ghost var before := userPermissions;
      for j := 0 to |perms|
        invariant userPermissions == before + CodesOf(perms[..j])
      {
        assert perms[..j + 1][..j] == perms[..j];
        userPermissions := userPermissions + {perms[j].code};
      }
      assert perms[..|perms|] == perms;
      assert u.userRoles[..i + 1][..i] == u.userRoles[..i];
    }
    assert u.userRoles[..|u.userRoles|] == u.userRoles;
    forall c ensures c in userPermissions <==> Granted(u, c) {
      GrantedIsUnion(u, c);
    }
  }

  /**
   * `hasAnyPermission`: false for a missing user; otherwise whether some requested code is
   * granted through some role (so an empty request is false).
   */
  method HasAnyPermission(user: Option<UserWithRoles>, codes: seq<string>) returns (b: bool)
    ensures b == GrantsAny(user, codes)
    ensures b <==> user.Some? && exists k :: 0 <= k < |codes| && Granted(user.value, codes[k])
  {
    if user.None? {
      return false;
    }
    var userPermissions := CollectPermissionCodes(user.value);
    b := exists k :: 0 <= k < |codes| && codes[k] in userPermissions;
    forall k | 0 <= k < |codes| ensures codes[k] in PermissionCodes(user.value) <==> codes[k] in userPermissions {
      GrantedIsUnion(user.value, codes[k]);
    }
  }

  /**
   * `hasAllPermissions`: false for a missing user; otherwise whether every requested code is
   * granted (so an empty request is true for an existing user).
   */
  method HasAllPermissions(user: Option<UserWithRoles>, codes: seq<string>) returns (b: bool)
    ensures b == GrantsAll(user, codes)
    ensures b <==> user.Some? && forall k :: 0 <= k < |codes| ==> Granted(user.value, codes[k])
  {
    if user.None? {
      return false;
    }
    var userPermissions := CollectPermissionCodes(user.value);
    b := forall k :: 0 <= k < |codes| ==> codes[k] in userPermissions;
    forall k | 0 <= k < |codes| ensures codes[k] in PermissionCodes(user.value) <==> codes[k] in userPermissions {
      GrantedIsUnion(user.value, codes[k]);
    }
  }

  /** For one code the three checks agree; the empty request is false for any-of and true for all-of. */
  lemma SingleCodeChecksAgree(user: Option<UserWithRoles>, code: string)
    ensures HasPermission(user, code) == GrantsAny(user, [code]) == GrantsAll(user, [code])
    ensures !GrantsAny(user, [])
    ensures GrantsAll(user, []) <==> user.Some?
  {
    assert [code][0] == code;
  }

  /** Asking for more codes can only turn any-of on and all-of off. */
  lemma {:induction false} MoreCodesMonotone(user: Option<UserWithRoles>, codes: seq<string>, more: seq<string>)
    ensures GrantsAny(user, codes) ==> GrantsAny(user, codes + more)
    ensures GrantsAll(user, codes + more) ==> GrantsAll(user, codes)
  {
    if GrantsAny(user, codes) {
      var k :| 0 <= k < |codes| && codes[k] in PermissionCodes(user.value);
      assert (codes + more)[k] == codes[k];
    }
    if GrantsAll(user, codes + more) {
      forall k | 0 <= k < |codes| ensures codes[k] in PermissionCodes(user.value) {
        assert (codes + more)[k] == codes[k];
      }
    }
  }

  /** `isAdmin(user)`: `user.roles?.some(role => role.code === 'admin') || false`. */
  predicate IsAdmin(roles: Option<seq<Role>>) {
    roles.Some? && exists i :: 0 <= i < |roles.value| && roles.value[i].code == "admin"
  }

  /** Absent roles are not admin; a role list is admin exactly when "admin" is one of its codes. */
  lemma {:induction false} IsAdminByCodes(roles: Option<seq<Role>>)
    ensures roles.None? ==> !IsAdmin(roles)
    ensures roles.Some? ==> (IsAdmin(roles) <==> "admin" in RoleCodeSet(roles.value))
  {
  }

  /** The codes of a list of roles. */
  function RoleCodeSet(rs: seq<Role>): (codes: set<string>)
    ensures forall c :: c in codes <==> exists i :: 0 <= i < |rs| && rs[i].code == c
  {
    if rs == [] then {}
    else
      var init := rs[..|rs| - 1];
      assert forall i :: 0 <= i < |init| ==> init[i] == rs[i];
      RoleCodeSet(init) + {rs[|rs| - 1].code}
  }
}
