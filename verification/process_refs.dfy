/** The check shared by the warehouse and drawback endpoints: an optional import or export process
    id, when given, must name a process of the caller's company. */
module ProcessRefs {
  import opened Wrappers

  /** Python truthiness of an optional integer id: `None` and `0` are both false. */
  predicate Given(id: Option<nat>) {
    id.Some? && id.value != 0
  }

  datatype ProcessRefError = ImportProcessNotFound | ExportProcessNotFound

  /** Processes are given by the company that owns them. */
  predicate Owned(processes: map<nat, nat>, id: nat, companyId: nat) {
    id in processes && processes[id] == companyId
  }

  /** The import reference is checked first, then the export reference. */
  function Check(importProcesses: map<nat, nat>, exportProcesses: map<nat, nat>, companyId: nat,
                 importId: Option<nat>, exportId: Option<nat>): (r: Option<ProcessRefError>)
    ensures r == None <==>
              (!Given(importId) || Owned(importProcesses, importId.value, companyId))
              && (!Given(exportId) || Owned(exportProcesses, exportId.value, companyId))
    ensures r == Some(ImportProcessNotFound) <==> Given(importId) && !Owned(importProcesses, importId.value, companyId)
  {
    if Given(importId) && !Owned(importProcesses, importId.value, companyId) then Some(ImportProcessNotFound)
    else if Given(exportId) && !Owned(exportProcesses, exportId.value, companyId) then Some(ExportProcessNotFound)
    else None
  }
}
