/** Which pages a user may open and which module the shell highlights: role-based access, global
    routes open to everyone, route prefixes granted by the user's modules, the module colour, and
    the choice of active module for a path. */
module ModuleAccess {
  import opened Wrappers
  import opened Text
  import opened Modules
  import opened Tables

  datatype Role = Admin | Manager | Operator | Viewer

  /** The signed-in user's role (`None` without a user) and subscribed modules. */
  datatype Access = Access(role: Option<Role>, userModules: seq<ModuleType>)

  predicate Privileged(a: Access) {
    a.role == Some(Admin) || a.role == Some(Manager)
  }

  /** Routes every user may open. */
  const GlobalRoutes: seq<string> :=
    ["/dashboard", "/workflow", "/params", "/notifications", "/audit", "/integrations", "/analytics"]

  /** `hasAccessToModule`. */
  predicate HasAccessToModule(a: Access, m: ModuleType) {
    Privileged(a) || m in a.userModules
  }

  /** `routes.some(route => path.startsWith(route))`. */
  predicate AnyPrefix(routes: seq<string>, path: string) {
    exists i :: 0 <= i < |routes| && StartsWith(path, routes[i])
  }

  /** `hasAccessToRoute`: administrators and managers go anywhere; others may open a global route
      or a route one of their modules lists. */
  predicate HasAccessToRoute(a: Access, path: string) {
    Privileged(a)
    || AnyPrefix(GlobalRoutes, path)
    || exists j :: 0 <= j < |a.userModules| && AnyPrefix(ModuleOf(a.userModules[j]).routes, path)
  }

  /** Access to a module opens every page under each of its routes. */
  lemma ModuleAccessOpensRoutes(a: Access, m: ModuleType, k: int, path: string)
    requires HasAccessToModule(a, m)
    requires 0 <= k < |ModuleOf(m).routes| && StartsWith(path, ModuleOf(m).routes[k])
    ensures HasAccessToRoute(a, path)
  {
    if !Privileged(a) {
      var j :| 0 <= j < |a.userModules| && a.userModules[j] == m;
      assert AnyPrefix(ModuleOf(a.userModules[j]).routes, path);
    }
  }

  /** A user without modules and without a privileged role reaches exactly the global routes. */
  lemma NoModulesOnlyGlobal(a: Access, path: string)
    requires !Privileged(a) && a.userModules == []
    ensures HasAccessToRoute(a, path) <==> AnyPrefix(GlobalRoutes, path)
  {
  }

  /** An operator subscribed only to payment documents reaches the payment pages and the global
      workflow pages but not the import process list, which a manager reaches without any module. */
  lemma PaymentOperatorExample()
    ensures HasAccessToRoute(Access(Some(Operator), [PaymentDocuments]), "/financial/payments/42")
    ensures HasAccessToRoute(Access(Some(Operator), [PaymentDocuments]), "/workflow/approvals")
    ensures !HasAccessToRoute(Access(Some(Operator), [PaymentDocuments]), "/import/processes")
    ensures HasAccessToRoute(Access(Some(Manager), []), "/import/processes")
  {
    var a := Access(Some(Operator), [PaymentDocuments]);
    assert StartsWith("/financial/payments/42", ModuleOf(PaymentDocuments).routes[2]);
    assert AnyPrefix(ModuleOf(a.userModules[0]).routes, "/financial/payments/42");
    assert StartsWith("/workflow/approvals", GlobalRoutes[1]);
    var path := "/import/processes";
    forall i | 0 <= i < |GlobalRoutes|
      ensures !StartsWith(path, GlobalRoutes[i])
    {
      assert path[1] == 'i' && path[2] == 'm';
    }
    forall i | 0 <= i < |ModuleOf(PaymentDocuments).routes|
      ensures !StartsWith(path, ModuleOf(PaymentDocuments).routes[i])
    {
      assert path[1] == 'i';
    }
  }

  const FallbackColor: string := "#7E69AB"

  /** `MODULES[currentModule]?.color || '#7E69AB'`. */
  function ModuleColor(current: ModuleType): (color: string)
    ensures color != ""
    ensures ModuleOf(current).color.Some? && ModuleOf(current).color.value != "" ==> color == ModuleOf(current).color.value
  {
    var c := ModuleOf(current).color;
    if c.Some? && c.value != "" then c.value else FallbackColor
  }

  /** Every module has its own colour, so the fallback is the import module's. */
  lemma ColorFallbackUnused(current: ModuleType)
    ensures ModuleColor(current) == ModuleOf(current).color.value
    ensures ModuleColor(ImportFull) == FallbackColor
  {
    ModulesTableWellFormed(current);
  }

  /** A route of the module, other than the dashboard, that the path starts with. */
  predicate MatchesModule(m: ModuleType, path: string) {
    exists i :: 0 <= i < |ModuleOf(m).routes| && StartsWith(path, ModuleOf(m).routes[i])
                && ModuleOf(m).routes[i] != "/dashboard"
  }

  /** `determineModule`: keep the current module on the dashboard; otherwise the first user module
      with a matching non-dashboard route, else the first user module, else the import module. */
  function DetermineModule(path: string, current: ModuleType, userModules: seq<ModuleType>): (m: ModuleType)
    ensures path == "/dashboard" ==> m == current
    ensures path != "/dashboard" ==> m in userModules || (userModules == [] && m == ImportFull)
    ensures path != "/dashboard" && (exists j :: 0 <= j < |userModules| && MatchesModule(userModules[j], path)) ==>
              MatchesModule(m, path)
    ensures path != "/dashboard" && (exists j :: 0 <= j < |userModules| && MatchesModule(userModules[j], path)) ==>
              exists k :: 0 <= k < |userModules| && userModules[k] == m && MatchesModule(m, path)
                          && forall i :: 0 <= i < k ==> !MatchesModule(userModules[i], path)
    ensures path != "/dashboard" && (forall i :: 0 <= i < |userModules| ==> !MatchesModule(userModules[i], path)) ==>
              m == (if userModules == [] then ImportFull else userModules[0])
  {
    if path == "/dashboard" then current
    else match FindFirst(userModules, (m: ModuleType) => MatchesModule(m, path))
      case Some(m) => m
      case None => if userModules != [] then userModules[0] else ImportFull
  }

  /** Off the dashboard, when some user module matches the path, the active module is the first
      such, and the user may open the path. */
  lemma DetermineModuleGrantsAccess(a: Access, path: string, current: ModuleType, j: int)
    requires path != "/dashboard"
    requires 0 <= j < |a.userModules| && MatchesModule(a.userModules[j], path)
    ensures var m := DetermineModule(path, current, a.userModules);
            m in a.userModules && MatchesModule(m, path) && HasAccessToRoute(a, path)
  {
    var m := DetermineModule(path, current, a.userModules);
    var k :| 0 <= k < |ModuleOf(m).routes| && StartsWith(path, ModuleOf(m).routes[k])
             && ModuleOf(m).routes[k] != "/dashboard";
    ModuleAccessOpensRoutes(a, m, k, path);
  }
}
