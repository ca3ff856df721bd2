/**
 * The login page's role-to-route decision: a fixed table from role to path
 * segment, an "admin" fallback for every other role, and the dashboard path
 * built from a segment.
 */
module Routes {
  import opened Wrappers

  /** The fixed role-to-segment table of the redirect effect. */
  const RoleRouteMap: map<string, string> :=
    map["admin" := "admin", "user" := "user", "contractor" := "contractor"]

  /** The roles the table names; every other role falls back to "admin". */
  const KnownRoles: set<string> := RoleRouteMap.Keys

  const DefaultSegment: string := "admin"
  const DashboardSuffix: string := "/dashboard"

  /** The segment for a role, looked up among the table's own entries only. */
  function RoleSegment(role: string): (seg: string)
    ensures role in KnownRoles ==> seg == role
    ensures role !in KnownRoles ==> seg == DefaultSegment
    ensures seg in KnownRoles
  {
    if role in RoleRouteMap then RoleRouteMap[role] else DefaultSegment
  }

  /** The path `/{segment}/dashboard`. */
  function DashboardPath(segment: string): string
  {
    "/" + segment + DashboardSuffix
  }

  /** Recovers the segment from a dashboard path; the inverse of DashboardPath. */
  function SegmentOf(path: string): (r: Option<string>)
    ensures r.Some? ==> |r.value| + 11 == |path|
  {
    if |path| >= 11 && path[0] == '/' && path[|path| - 10..] == DashboardSuffix
    then Some(path[1..|path| - 10])
    else None
  }

  /** Parsing a dashboard path gives back its segment. */
  lemma SegmentOfDashboardPath(segment: string)
    ensures SegmentOf(DashboardPath(segment)) == Some(segment)
  {
  }

  /** A path the parser accepts is the dashboard path of what it returns. */
  lemma DashboardPathOfSegment(path: string, segment: string)
    requires SegmentOf(path) == Some(segment)
    ensures DashboardPath(segment) == path
  {
  }

  /** Distinct segments give distinct dashboard paths. */
  lemma DashboardPathInjective(a: string, b: string)
    ensures DashboardPath(a) == DashboardPath(b) <==> a == b
  {
    if DashboardPath(a) == DashboardPath(b) {
      SegmentOfDashboardPath(a);
      SegmentOfDashboardPath(b);
    }
  }

  /** The redirect target for a role: `/{RoleSegment(role)}/dashboard`. */
  function RouteForRole(role: string): (path: string)
    ensures role in KnownRoles ==> path == "/" + role + "/dashboard"
    ensures role !in KnownRoles ==> path == "/admin/dashboard"
  {
    DashboardPath(RoleSegment(role))
  }

  /** Every role is routed to one of exactly three dashboards. */
  lemma RouteForRoleRange(role: string)
    ensures RouteForRole(role) in {"/admin/dashboard", "/user/dashboard", "/contractor/dashboard"}
  {
    if role == "admin" {
      assert "/" + "admin" + DashboardSuffix == "/admin/dashboard";
    } else if role == "user" {
      assert "/" + "user" + DashboardSuffix == "/user/dashboard";
    } else if role == "contractor" {
      assert "/" + "contractor" + DashboardSuffix == "/contractor/dashboard";
    } else {
      assert role !in KnownRoles;
    }
  }

  /**
   * A role is routed to its own dashboard exactly when the table names it:
   * an unknown role never reaches `/{role}/dashboard`.
   */
  lemma RouteForRoleIsOwnDashboard(role: string)
    ensures RouteForRole(role) == DashboardPath(role) <==> role in KnownRoles
  {
    DashboardPathInjective(RoleSegment(role), role);
  }

  // ---------------------------------------------------------------------
  // The lookup as the page writes it: `roleRouteMap[userRole] || "admin"`
  // on a plain object literal, where indexing also finds the members that
  // every object inherits from Object.prototype.
  // ---------------------------------------------------------------------

  /** The JavaScript values the indexing expression can produce. */
  datatype JsValue =
    | Undefined
    | Str(s: string)
    | NativeFunction(name: string)   // a built-in method, stringified by its name
    | PlainObject                    // Object.prototype itself, reached through `__proto__`

  /** The members inherited from Object.prototype, by key. */
  function InheritedMember(key: string): Option<JsValue>
  {
    if key == "constructor" then Some(NativeFunction("Object"))
    else if key == "__proto__" then Some(PlainObject)
    else if key in {"__defineGetter__", "__defineSetter__", "hasOwnProperty",
                    "__lookupGetter__", "__lookupSetter__", "isPrototypeOf",
                    "propertyIsEnumerable", "toString", "valueOf", "toLocaleString"}
    then Some(NativeFunction(key))
    else None
  }

  /** `roleRouteMap[key]`: an own entry first, then an inherited member. */
  function IndexRoleTable(key: string): JsValue
  {
    if key in RoleRouteMap then Str(RoleRouteMap[key])
    else match InheritedMember(key)
      case Some(v) => v
      case None => Undefined
  }

  predicate Truthy(v: JsValue)
  {
    match v
    case Undefined => false
    case Str(s) => s != ""
    case NativeFunction(_) => true
    case PlainObject => true
  }

  /** What a template literal inserts for a value (a V8-style native function text). */
  function TemplateText(v: JsValue): string
  {
    match v
    case Undefined => "undefined"
    case Str(s) => s
    case NativeFunction(name) => "function " + name + "() { [native code] }"
    case PlainObject => "[object Object]"
  }

  /** `roleRouteMap[userRole] || "admin"`, as written. */
  function RoleSegmentAsWritten(role: string): string
  {
    var v := IndexRoleTable(role);
    if Truthy(v) then TemplateText(v) else DefaultSegment
  }

  function RouteForRoleAsWritten(role: string): string
  {
    DashboardPath(RoleSegmentAsWritten(role))
  }

  /** Apart from the inherited keys, the code as written and the own-entry lookup agree. */
  lemma AsWrittenAgreesOffPrototype(role: string)
    requires InheritedMember(role).None?
    ensures RouteForRoleAsWritten(role) == RouteForRole(role)
  {
  }

  /** The inherited key `constructor` skips the admin fallback. */
  lemma InheritedKeyEscapesFallback()
    ensures "constructor" !in KnownRoles
    ensures RouteForRoleAsWritten("constructor") == DashboardPath("function Object() { [native code] }")
    ensures RouteForRoleAsWritten("constructor") != RouteForRole("constructor")
  {
  }

  /** Every inherited key skips it. */
  lemma EveryInheritedKeyEscapesFallback(role: string)
    requires InheritedMember(role).Some?
    ensures role !in KnownRoles
    ensures RouteForRoleAsWritten(role) != RouteForRole(role)
  {
  }
}
