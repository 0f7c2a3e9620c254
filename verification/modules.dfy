/** The product modules a company can subscribe to and the route prefixes each one opens (the
    `MODULES` table). Display names, descriptions and feature lists are not modelled. */
module Modules {
  import opened Wrappers

  datatype ModuleType = ImportFull | PoManagement | ShipmentManagement | PaymentDocuments | ExportFull

  datatype Module = Module(id: ModuleType, key: string, color: Option<string>, routes: seq<string>)

  /** The five members of `ModuleType`, in declaration order. */
  const AllModuleTypes: seq<ModuleType> := [ImportFull, PoManagement, ShipmentManagement, PaymentDocuments, ExportFull]

  /** The string each member of `ModuleType` is spelled as. */
  function KeyOf(m: ModuleType): string {
    match m
    case ImportFull => "import_full"
    case PoManagement => "po_management"
    case ShipmentManagement => "shipment_management"
    case PaymentDocuments => "payment_documents"
    case ExportFull => "export_full"
  }

  /** `MODULES[m]`. */
  function ModuleOf(m: ModuleType): Module {
    match m
    case ImportFull =>
      Module(ImportFull, "import_full", Some("#7E69AB"),
             ["/dashboard", "/import", "/export", "/financial", "/logistics", "/operations", "/params",
              "/notifications", "/audit", "/integrations"])
    case PoManagement =>
      Module(PoManagement, "po_management", Some("#3B82F6"),
             ["/dashboard", "/import/processes", "/import/processes-advanced", "/import/process",
              "/import/dashboard", "/logistics/cargo", "/logistics/containers", "/notifications"])
    case ShipmentManagement =>
      Module(ShipmentManagement, "shipment_management", Some("#22C55E"),
             ["/dashboard", "/import/documents", "/logistics/cargo", "/logistics/containers",
              "/import/licenses", "/notifications"])
    case PaymentDocuments =>
      Module(PaymentDocuments, "payment_documents", Some("#F59E0B"),
             ["/dashboard", "/financial/exchange", "/financial/payments", "/financial/dashboard",
              "/notifications"])
    case ExportFull =>
      Module(ExportFull, "export_full", Some("#EC4899"),
             ["/dashboard", "/export/dashboard", "/export/processes", "/export/documents", "/financial",
              "/logistics", "/notifications"])
  }

  /** The table's invariants: every entry is stored under its own id, opens the dashboard and the
      notifications page, and has a colour; the module types are exactly the table's five keys,
      spelled distinctly. */
  lemma ModulesTableWellFormed(m: ModuleType)
    ensures ModuleOf(m).id == m && ModuleOf(m).key == KeyOf(m)
    ensures "/dashboard" in ModuleOf(m).routes && "/notifications" in ModuleOf(m).routes
    ensures ModuleOf(m).color.Some? && ModuleOf(m).color.value != ""
    ensures m in AllModuleTypes
    ensures forall n :: KeyOf(n) == KeyOf(m) ==> n == m
  {
    forall n | KeyOf(n) == KeyOf(m)
      ensures n == m
    {
      KeyOfInjective(n, m);
    }
  }

  /** Different module types are spelled differently: the first two characters already tell them
      apart. */
  lemma KeyOfInjective(m: ModuleType, n: ModuleType)
    requires KeyOf(m) == KeyOf(n)
    ensures m == n
  {
    assert KeyOf(m)[..2] == KeyOf(n)[..2];
  }
}
