/**
 * app/api/permissions/route.ts: `GET` fetches the permissions (of one module when the `module`
 * query parameter is non-empty) and groups them by module with a `reduce` that fills an object
 * literal in place: `acc[module]` is created as `[]` when missing and the permission is pushed.
 *
 * The grouping is modelled twice. `ReduceAsWritten` follows the JavaScript object semantics of
 * the accumulator `{}`, whose inherited members ("constructor", "toString", ...) look like
 * existing groups and make `push` throw; `Get` is the route built on it. `GroupByModule` is the
 * grouping the route evidently intends (own keys only), and `GetCorrected` is the route built on it.
 */
module PermissionGroups {
  import opened Wrappers
  import opened Types
  import opened ApiResponse

  // ---------------------------------------------------------------------------
  // Selection and the specification of a group

  /** `const where = module ? { module } : {}`: an absent or empty parameter selects every row. */
  predicate Selects(moduleParam: Option<string>) {
    moduleParam.Some? && moduleParam.value != ""
  }

  /** The rows `findMany({ where })` returns, in the order the query returns them. */
  function Fetched(table: seq<Permission>, moduleParam: Option<string>): (ps: seq<Permission>)
    ensures |ps| <= |table|
    ensures forall p :: p in ps <==> p in table && (Selects(moduleParam) ==> p.moduleName == moduleParam.value)
    ensures !Selects(moduleParam) ==> ps == table
    ensures Selects(moduleParam) ==> ps == OfModule(table, moduleParam.value)
  {
    if table == [] then []
    else
      var init, last := table[..|table| - 1], table[|table| - 1];
      assert table == init + [last];
      Fetched(init, moduleParam) + (if !Selects(moduleParam) || last.moduleName == moduleParam.value then [last] else [])
  }

  /** The permissions of module `m`, in input order. */
  function OfModule(ps: seq<Permission>, m: string): (g: seq<Permission>)
    ensures |g| <= |ps|
    ensures forall p :: p in g <==> p in ps && p.moduleName == m
  {
    if ps == [] then []
    else
      var init, last := ps[..|ps| - 1], ps[|ps| - 1];
      assert ps == init + [last];
      OfModule(init, m) + (if last.moduleName == m then [last] else [])
  }

  /** The modules present in a list of permissions. */
  function Modules(ps: seq<Permission>): set<string> {
    set p | p in ps :: p.moduleName
  }

  /** The object the route answers with: one key per present module, holding that module's group. */
  predicate IsGrouping(groups: map<string, seq<Permission>>, ps: seq<Permission>) {
    groups.Keys == Modules(ps) && forall m :: m in groups ==> groups[m] == OfModule(ps, m)
  }

  /**
   * The `reduce` callback on own keys only: `if (!acc[m]) acc[m] = []` (an existing array is
   * truthy, so only a missing key is created), then `acc[m].push(p)`.
   */
  function Push(groups: map<string, seq<Permission>>, p: Permission): (next: map<string, seq<Permission>>)
    ensures next.Keys == groups.Keys + {p.moduleName}
    ensures next[p.moduleName] == (if p.moduleName in groups then groups[p.moduleName] else []) + [p]
    ensures forall m :: m in groups && m != p.moduleName ==> next[m] == groups[m]
  {
    var created := if p.moduleName !in groups then groups[p.moduleName := []] else groups;
    created[p.moduleName := created[p.moduleName] + [p]]
  }

  // ---------------------------------------------------------------------------
  // The grouping loop

  /** The `reduce` with own keys only: the callback runs on each permission in turn. */
  method GroupByModule(perms: seq<Permission>) returns (groups: map<string, seq<Permission>>)
    ensures IsGrouping(groups, perms)
  {
    groups := map[];
    var i := 0;
    while i < |perms|
      invariant 0 <= i <= |perms|
      invariant IsGrouping(groups, perms[..i])
    {
      var p := perms[i];
      PushGroups(groups, perms[..i], p);
      assert perms[..i + 1] == perms[..i] + [p];
      groups := Push(groups, p);
      i := i + 1;
    }
    assert perms[..i] == perms;
  }

  /** Appending one permission adds it at the end of its own module's group only. */
  lemma OfModuleSnoc(ps: seq<Permission>, p: Permission, m: string)
    ensures OfModule(ps + [p], m) == OfModule(ps, m) + if p.moduleName == m then [p] else []
  {
    assert (ps + [p])[..|ps|] == ps;
  }

  lemma ModulesSnoc(ps: seq<Permission>, p: Permission)
    ensures Modules(ps + [p]) == Modules(ps) + {p.moduleName}
  {
    var q := ps + [p];
    forall m | m in Modules(q) ensures m in Modules(ps) + {p.moduleName} {
      var r :| r in q && r.moduleName == m;
      if r != p {
        assert r in ps;
      }
    }
    forall m | m in Modules(ps) ensures m in Modules(q) {
      var r :| r in ps && r.moduleName == m;
      assert r in q;
    }
    assert p in q;
  }

  /** A module without permissions has an empty group. */
  lemma {:induction false} AbsentModuleEmpty(ps: seq<Permission>, m: string)
    requires m !in Modules(ps)
    ensures OfModule(ps, m) == []
  {
    if ps != [] {
      var init, last := ps[..|ps| - 1], ps[|ps| - 1];
      assert ps == init + [last];
      assert last in ps;
      assert m !in Modules(init) by {
        forall r | r in init ensures r.moduleName != m {
          assert r in ps;
        }
      }
      AbsentModuleEmpty(init, m);
    }
  }

  /** Appending one permission extends its module's group (creating it) and nothing else. */
  lemma PushGroups(groups: map<string, seq<Permission>>, ps: seq<Permission>, p: Permission)
    requires IsGrouping(groups, ps)
    ensures IsGrouping(Push(groups, p), ps + [p])
  {
    if p.moduleName !in Modules(ps) {
      AbsentModuleEmpty(ps, p.moduleName);
    }
    ModulesSnoc(ps, p);
    var next := Push(groups, p);
    forall m | m in next ensures next[m] == OfModule(ps + [p], m) {
      OfModuleSnoc(ps, p, m);
      if m != p.moduleName {
        assert next[m] == groups[m];
      }
    }
  }

  // ---------------------------------------------------------------------------
  // What the grouping promises

  /** Every group is non-empty, and holds only permissions of its own module. */
  lemma {:induction false} GroupsNonEmptyAndPure(groups: map<string, seq<Permission>>, ps: seq<Permission>, m: string)
    requires IsGrouping(groups, ps) && m in groups
    ensures |groups[m]| > 0
    ensures forall p :: p in groups[m] ==> p in ps && p.moduleName == m
  {
    var r :| r in ps && r.moduleName == m;
    assert r in OfModule(ps, m);
  }

  /** Each fetched permission appears in its own module's group exactly as often as it was fetched. */
  lemma {:induction false} GroupMultiplicity(ps: seq<Permission>, m: string, p: Permission)
    ensures multiset(OfModule(ps, m))[p] == if p.moduleName == m then multiset(ps)[p] else 0
  {
    if ps != [] {
      var init, last := ps[..|ps| - 1], ps[|ps| - 1];
      assert ps == init + [last];
      GroupMultiplicity(init, m, p);
      assert multiset(ps) == multiset(init) + multiset{last};
    }
  }

  /** Grouping keeps input order: the group of a concatenation is the concatenation of the groups. */
  lemma {:induction false} GroupKeepsOrder(a: seq<Permission>, b: seq<Permission>, m: string)
    ensures OfModule(a + b, m) == OfModule(a, m) + OfModule(b, m)
  {
    if b == [] {
      assert a + b == a;
    } else {
      var init, last := b[..|b| - 1], b[|b| - 1];
      var x := if last.moduleName == m then [last] else [];
      assert a + b == (a + init) + [last];
      assert b == init + [last];
      calc {
        OfModule(a + b, m);
        OfModule((a + init) + [last], m);
        { OfModuleSnoc(a + init, last, m); }
        OfModule(a + init, m) + x;
        { GroupKeepsOrder(a, init, m); }
        (OfModule(a, m) + OfModule(init, m)) + x;
        OfModule(a, m) + (OfModule(init, m) + x);
        { OfModuleSnoc(init, last, m); }
        OfModule(a, m) + OfModule(b, m);
      }
    }
  }

  /** The distinct modules, in order of first appearance. */
  function ModuleOrder(ps: seq<Permission>): (ms: seq<string>)
    ensures forall i, j :: 0 <= i < j < |ms| ==> ms[i] != ms[j]
    ensures forall m :: m in ms <==> m in Modules(ps)
  {
    if ps == [] then []
    else
      var init, last := ps[..|ps| - 1], ps[|ps| - 1];
      assert ps == init + [last];
      var before := ModuleOrder(init);
      if last.moduleName in before then before else before + [last.moduleName]
  }

  /**
   * Later permissions only append modules: the order of a prefix is a prefix of the order.
   * With the two ensures of `ModuleOrder`, this makes it the first-appearance order.
   */
  lemma {:induction false} ModuleOrderPrefix(a: seq<Permission>, b: seq<Permission>)
    ensures ModuleOrder(a) <= ModuleOrder(a + b)
    decreases |b|
  {
    if b == [] {
      assert a + b == a;
    } else {
      var init := b[..|b| - 1];
      ModuleOrderPrefix(a, init);
      assert (a + b)[..|a + b| - 1] == a + init;
    }
  }

  /** The summed sizes of the groups of the listed modules. */
  function TotalSize(ps: seq<Permission>, ms: seq<string>): nat {
    if ms == [] then 0 else TotalSize(ps, ms[..|ms| - 1]) + |OfModule(ps, ms[|ms| - 1])|
  }

  lemma {:induction false} TotalSizeSnoc(ps: seq<Permission>, p: Permission, ms: seq<string>)
    requires forall i, j :: 0 <= i < j < |ms| ==> ms[i] != ms[j]
    ensures TotalSize(ps + [p], ms) == TotalSize(ps, ms) + if p.moduleName in ms then 1 else 0
  {
    if ms != [] {
      var init, last := ms[..|ms| - 1], ms[|ms| - 1];
      assert ms == init + [last];
      TotalSizeSnoc(ps, p, init);
      assert (ps + [p])[..|ps|] == ps;
      if last == p.moduleName {
        assert p.moduleName !in init;
      }
    }
  }

  /** The group sizes sum to the number of fetched permissions. */
  lemma {:induction false} GroupSizesSum(ps: seq<Permission>)
    ensures TotalSize(ps, ModuleOrder(ps)) == |ps|
  {
    if ps != [] {
      var init, p := ps[..|ps| - 1], ps[|ps| - 1];
      assert ps == init + [p];
      GroupSizesSum(init);
      var before := ModuleOrder(init);
      TotalSizeSnoc(init, p, before);
      if p.moduleName !in before {
        AbsentModuleEmpty(init, p.moduleName);
        OfModuleSnoc(init, p, p.moduleName);
        assert OfModule(ps, p.moduleName) == [p];
        assert (before + [p.moduleName])[..|before|] == before;
      }
    }
  }

  /** With a non-empty `module` parameter, the answer holds at most that one group, complete. */
  lemma {:induction false} FilterKeepsOneGroup(table: seq<Permission>, m: string)
    requires m != ""
    ensures Modules(Fetched(table, Some(m))) <= {m}
    ensures OfModule(Fetched(table, Some(m)), m) == OfModule(table, m)
  {
    var ps := Fetched(table, Some(m));
    forall x | x in Modules(ps) ensures x == m {
      var r :| r in ps && r.moduleName == x;
    }
    if table != [] {
      var init, last := table[..|table| - 1], table[|table| - 1];
      FilterKeepsOneGroup(init, m);
      var fi := Fetched(init, Some(m));
      if last.moduleName == m {
        assert ps == fi + [last];
        assert (fi + [last])[..|fi|] == fi;
      } else {
        assert ps == fi;
      }
    }
  }

  // ---------------------------------------------------------------------------
  // The route

  const ListFailedMessage := "获取权限列表失败"

  /**
   * `GET /api/permissions` as written: 401 without a valid bearer token; the `reduce` over `{}`
   * then either throws, which the catch answers with 500 "获取权限列表失败", or yields the grouped
   * rows with 200.
   */
  method Get(authorization: Option<string>, jwtVerify: string -> JwtOutcome, moduleParam: Option<string>, table: seq<Permission>)
    returns (r: Response<map<string, seq<Permission>>>)
    ensures GetAuthUser(authorization, jwtVerify).None? ==> r == UnauthorizedResponse(None)
    ensures GetAuthUser(authorization, jwtVerify).Some? ==>
              !NoneInherited(Fetched(table, moduleParam)) ==> r == Response(500, Failed(ListFailedMessage))
    ensures GetAuthUser(authorization, jwtVerify).Some? ==>
              NoneInherited(Fetched(table, moduleParam)) ==>
                && r.status == 200 && r.body.success && r.body.error.None?
                && r.body.data.Some? && IsGrouping(r.body.data.value, Fetched(table, moduleParam))
  {
    var authUser := GetAuthUser(authorization, jwtVerify);
    if authUser.None? {
      return UnauthorizedResponse(None);
    }
    var permissions := Fetched(table, moduleParam);
    var grouped := ReduceAsWritten(permissions);
    if grouped.None? {
      return Response(500, Failed(ListFailedMessage));
    }
    r := SuccessResponse(grouped.value, None);
  }

  /** The route with the intended grouping: 401 without a valid bearer token, otherwise always the grouped rows. */
  method GetCorrected(authorization: Option<string>, jwtVerify: string -> JwtOutcome, moduleParam: Option<string>, table: seq<Permission>)
    returns (r: Response<map<string, seq<Permission>>>)
    ensures GetAuthUser(authorization, jwtVerify).None? ==> r == UnauthorizedResponse(None)
    ensures GetAuthUser(authorization, jwtVerify).Some? ==>
              && r.status == 200 && r.body.success && r.body.error.None?
              && r.body.data.Some? && IsGrouping(r.body.data.value, Fetched(table, moduleParam))
  {
    var authUser := GetAuthUser(authorization, jwtVerify);
    if authUser.None? {
      return UnauthorizedResponse(None);
    }
    var permissions := Fetched(table, moduleParam);
    var grouped := GroupByModule(permissions);
    r := SuccessResponse(grouped, None);
  }

  // ---------------------------------------------------------------------------
  // The reduce as written, over a plain object literal

  /** Names `{}` inherits from `Object.prototype`: none of them has a `push` method. */
  const InheritedKeys: set<string> := {
    "constructor", "__proto__", "toString", "toLocaleString", "valueOf", "hasOwnProperty",
    "isPrototypeOf", "propertyIsEnumerable", "__defineGetter__", "__defineSetter__",
    "__lookupGetter__", "__lookupSetter__"
  }

  /** What `acc[key]` finds on an object literal whose own properties are `own`. */
  datatype Lookup = OwnArray(list: seq<Permission>) | InheritedMember | Undefined

  function GetProperty(own: map<string, seq<Permission>>, key: string): (v: Lookup)
    ensures v.OwnArray? <==> key in own
    ensures v.InheritedMember? <==> key !in own && key in InheritedKeys
    ensures v.OwnArray? ==> v.list == own[key]
  {
    if key in own then OwnArray(own[key])
    else if key in InheritedKeys then InheritedMember
    else Undefined
  }

  /**
   * One call of the callback: `if (!acc[m]) acc[m] = []` (an inherited member is truthy, so it
   * is left alone), then `acc[m].push(p)`, which throws a TypeError (`None`) unless `acc[m]` is
   * an own array.
   */
  function ReduceStep(acc: map<string, seq<Permission>>, p: Permission): (r: Option<map<string, seq<Permission>>>)
    ensures r.None? <==> p.moduleName !in acc && p.moduleName in InheritedKeys
  {
    var m := p.moduleName;
    var acc1 := if GetProperty(acc, m).Undefined? then acc[m := []] else acc;
    match GetProperty(acc1, m)
    case OwnArray(list) => Some(acc1[m := list + [p]])
    case _ => None
  }

  /** No permission of the list belongs to a module named like an inherited member. */
  predicate NoneInherited(ps: seq<Permission>) {
    forall k :: 0 <= k < |ps| ==> ps[k].moduleName !in InheritedKeys
  }

  /** The `reduce` as written: `None` when the callback throws, which the route answers with 500. */
  method ReduceAsWritten(perms: seq<Permission>) returns (r: Option<map<string, seq<Permission>>>)
    ensures r.None? <==> !NoneInherited(perms)
    ensures r.Some? ==> IsGrouping(r.value, perms)
  {
    var acc: map<string, seq<Permission>> := map[];
    var i := 0;
    while i < |perms|
      invariant 0 <= i <= |perms|
      invariant IsGrouping(acc, perms[..i]) && NoneInherited(perms[..i])
    {
      var p := perms[i];
      var step := ReduceStep(acc, p);
      StepThrowsOnlyOnInherited(acc, perms[..i], p);
      if step.None? {
        return None;
      }
      ReduceStepAgrees(acc, perms[..i], p);
      assert perms[..i + 1] == perms[..i] + [p];
      acc := step.value;
      i := i + 1;
    }
    assert perms[..i] == perms;
    return Some(acc);
  }

  /**
   * While every group so far belongs to an ordinary module name, the callback throws exactly
   * on a permission whose module is named like an inherited member.
   */
  lemma StepThrowsOnlyOnInherited(acc: map<string, seq<Permission>>, ps: seq<Permission>, p: Permission)
    requires IsGrouping(acc, ps) && NoneInherited(ps)
    ensures ReduceStep(acc, p).None? <==> p.moduleName in InheritedKeys
  {
    if p.moduleName in acc {
      var q :| q in ps && q.moduleName == p.moduleName;
      var k :| 0 <= k < |ps| && ps[k] == q;
      assert ps[k].moduleName !in InheritedKeys;
    }
  }

  /** Agreement: on module names that are not inherited members, the reduce as written is the grouping. */
  lemma ReduceStepAgrees(acc: map<string, seq<Permission>>, ps: seq<Permission>, p: Permission)
    requires IsGrouping(acc, ps) && p.moduleName !in InheritedKeys
    ensures ReduceStep(acc, p).Some? && IsGrouping(ReduceStep(acc, p).value, ps + [p])
    ensures NoneInherited(ps) ==> NoneInherited(ps + [p])
  {
    PushGroups(acc, ps, p);
  }

  /** A permission of module "constructor" makes the reduce throw, where the grouping gives it a group. */
  lemma ConstructorModuleThrows(p: Permission)
    requires p.moduleName == "constructor"
    ensures ReduceStep(map[], p) == None
    ensures IsGrouping(map["constructor" := [p]], [p])
  {
    PushGroups(map[], [], p);
    assert [] + [p] == [p];
  }
}
