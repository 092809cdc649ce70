/** The lab importer of `labsbakery/backend/services/import_service.py`:
    reading a package, creating the project and its VMs from `lab.json`, and
    the never-raising `validate_labpkg`. The archive is given by what it
    holds; decoding `lab.json`, encoding canvas and tutorial back to text,
    and the outcome of copying the assets are inputs. */
module LabImport {
  import opened Wrappers
  import opened Text
  import opened Labs
  import opened LabValidator
  import LabExport

  /** A package: not a ZIP archive, or an archive with or without
      `lab.json` (its text), `metadata.json` and an `assets` directory. */
  datatype Package = NotZip | Archive(labJson: Option<string>, hasMetadata: bool, hasAssets: bool)

  const NotZipMessage := "Invalid .labpkg file: not a valid ZIP"
  const MissingLabMessage := "Invalid .labpkg: missing lab.json"

  // ---------------------------------------------------------------- rows from lab data

  const DefaultVmRam := 2048
  const DefaultVmCpu := 2
  const DefaultNetwork := "default"
  const DefaultIp := "192.168.56.10"

  /** `_create_project`: the new row takes the next project id. */
  function CreateProject(lab: Lab, store: Store, encode: Json -> string, now: string): (r: (Project, Store))
    ensures r.0.id == store.nextProjectId && r.1.projects == store.projects[r.0.id := r.0]
    ensures r.1.vms == store.vms && r.1.nextProjectId == store.nextProjectId + 1 && r.1.nextVmId == store.nextVmId
    ensures r.0.status == "draft"
    ensures r.0.tags == Some(Join(lab.metadata.tags.GetOr([]), ','))
    ensures StoreValid(store) ==> StoreValid(r.1) && r.0.id !in store.projects
  {
    var p := Project(
      store.nextProjectId, lab.metadata.title, Some(lab.metadata.description.GetOr("")),
      lab.metadata.author, now, lab.schemaVersion,
      encode(lab.canvas.GetOr(EmptyObject)), encode(lab.tutorial.GetOr(EmptyObject)),
      "draft", Some(Join(lab.metadata.tags.GetOr([]), ',')));
    (p, store.(projects := store.projects[p.id := p], nextProjectId := store.nextProjectId + 1))
  }

  /** The VM row for one ingredient, with the defaults for missing settings. */
  function ImportedVm(ing: Ingredient, projectId: int, id: int): LabVm {
    LabVm(id, projectId, ing.name, ing.box, ing.ram.GetOr(DefaultVmRam), ing.cpu.GetOr(DefaultVmCpu),
          ing.network.GetOr(DefaultNetwork), ing.ip.GetOr(DefaultIp), "pending")
  }

  function ImportedVms(ings: seq<Ingredient>, projectId: int, firstId: int): (r: seq<LabVm>)
    ensures |r| == |ings|
    ensures forall i :: 0 <= i < |ings| ==> r[i] == ImportedVm(ings[i], projectId, firstId + i)
  {
    seq(|ings|, i requires 0 <= i < |ings| => ImportedVm(ings[i], projectId, firstId + i))
  }

  /** `_create_vms`: one pending row per ingredient, in order; the count of
      ingredients is returned. */
  function CreateVms(lab: Lab, projectId: int, store: Store): (r: (nat, Store))
    ensures r.0 == |lab.ingredients.GetOr([])|
    ensures |r.1.vms| == |store.vms| + r.0 && r.1.vms[..|store.vms|] == store.vms
    ensures forall i :: |store.vms| <= i < |r.1.vms| ==> r.1.vms[i].projectId == projectId && r.1.vms[i].status == "pending"
    ensures r.1.projects == store.projects && r.1.nextProjectId == store.nextProjectId
    ensures StoreValid(store) ==> StoreValid(r.1)
  {
    var ings := lab.ingredients.GetOr([]);
    var added := ImportedVms(ings, projectId, store.nextVmId);
    assert (store.vms + added)[..|store.vms|] == store.vms;
    (|ings|, store.(vms := store.vms + added, nextVmId := store.nextVmId + |ings|))
  }

  // ---------------------------------------------------------------- import

  /** The `import_info` dictionary. */
  datatype ImportInfo = ImportInfo(projectId: int, title: string, author: string, vmsCreated: nat, warnings: seq<string>, status: string)

  /** `import_lab`: the project id and import info or the message raised,
      together with the lab database afterwards. The project and its VMs are
      committed before the assets are copied, so a failing copy (`copyError`)
      is reported as a failure while the rows stay. */
  function ImportLab(
    pkg: Package, store: Store, decode: string -> Result<Lab, string>, schema: Lab -> SchemaCheck,
    encode: Json -> string, now: string, copyError: Option<string>): (r: (Result<(int, ImportInfo), string>, Store))
    ensures r.0.Ok? <==> Admitted(pkg, decode, schema) && !(pkg.Archive? && pkg.hasAssets && copyError.Some?)
    ensures !Admitted(pkg, decode, schema) ==> r.1 == store
    ensures |store.vms| <= |r.1.vms| && r.1.vms[..|store.vms|] == store.vms
    ensures r.0.Ok? ==> r.0.value.0 == store.nextProjectId && r.0.value.1.status == "success"
  {
    match pkg
    case NotZip => (Err("Import failed: " + NotZipMessage), store)
    case Archive(labJson, _, hasAssets) =>
      if labJson.None? then (Err("Import failed: " + MissingLabMessage), store)
      else match decode(labJson.value)
        case Err(e) => (Err("Import failed: " + e), store)
        case Ok(lab) =>
          match Validate(lab, schema)
          case Err(e) => (Err("Import failed: " + e), store)
          case Ok(v) =>
            if !v.valid then (Err("Import failed: Lab validation failed: " + ListText(v.errors)), store)
            else
              var (p, s1) := CreateProject(lab, store, encode, now);
              var (n, s2) := CreateVms(lab, p.id, s1);
              if hasAssets && copyError.Some? then (Err("Import failed: " + copyError.value), s2)
              else (Ok((p.id, ImportInfo(p.id, p.title, p.author, n, v.warnings, "success"))), s2)
  }

  /** Whether the package's `lab.json` decodes to a document that validates. */
  predicate Admitted(pkg: Package, decode: string -> Result<Lab, string>, schema: Lab -> SchemaCheck) {
    && pkg.Archive? && pkg.labJson.Some? && decode(pkg.labJson.value).Ok?
    && var v := Validate(decode(pkg.labJson.value).value, schema); v.Ok? && v.value.valid
  }

  /** A package that is not a ZIP, lacks `lab.json`, does not decode or does
      not validate is refused and leaves the database as it was. */
  lemma ImportRefused(
    pkg: Package, store: Store, decode: string -> Result<Lab, string>, schema: Lab -> SchemaCheck,
    encode: Json -> string, now: string, copyError: Option<string>)
    requires !Admitted(pkg, decode, schema)
    ensures var r := ImportLab(pkg, store, decode, schema, encode, now, copyError);
      r.0.Err? && r.1 == store
    ensures pkg.NotZip? ==> ImportLab(pkg, store, decode, schema, encode, now, copyError).0 == Err("Import failed: " + NotZipMessage)
  {
  }

  /** An admitted package adds exactly one project, with the next id, and one
      pending VM per ingredient; it succeeds unless the assets fail to copy. */
  lemma ImportAdmitted(
    pkg: Package, store: Store, decode: string -> Result<Lab, string>, schema: Lab -> SchemaCheck,
    encode: Json -> string, now: string, copyError: Option<string>)
    requires Admitted(pkg, decode, schema)
    ensures var r := ImportLab(pkg, store, decode, schema, encode, now, copyError);
      var lab := decode(pkg.labJson.value).value;
      var n := |lab.ingredients.GetOr([])|;
      && (r.0.Ok? <==> !(pkg.hasAssets && copyError.Some?))
      && r.1.projects.Keys == store.projects.Keys + {store.nextProjectId}
      && r.1.projects[store.nextProjectId].title == lab.metadata.title
      && |r.1.vms| == |store.vms| + n && r.1.vms[..|store.vms|] == store.vms
      && (r.0.Ok? ==> r.0.value.0 == store.nextProjectId && r.0.value.1.vmsCreated == n && r.0.value.1.status == "success")
      && (StoreValid(store) ==> StoreValid(r.1))
  {
    var lab := decode(pkg.labJson.value).value;
    var (p, s1) := CreateProject(lab, store, encode, now);
    var (n, s2) := CreateVms(lab, p.id, s1);
    assert ImportLab(pkg, store, decode, schema, encode, now, copyError).1 == s2;
  }

  /** `import_lab` as its rollback evidently intends: a failure of any kind
      leaves the database as it was. */
  function ImportLabAtomic(
    pkg: Package, store: Store, decode: string -> Result<Lab, string>, schema: Lab -> SchemaCheck,
    encode: Json -> string, now: string, copyError: Option<string>): (r: (Result<(int, ImportInfo), string>, Store))
    ensures r.0.Err? ==> r.1 == store
    ensures r.0 == ImportLab(pkg, store, decode, schema, encode, now, copyError).0
    ensures r.0.Ok? ==> r.1 == ImportLab(pkg, store, decode, schema, encode, now, copyError).1
  {
    var (result, after) := ImportLab(pkg, store, decode, schema, encode, now, copyError);
    if result.Err? then (result, store) else (result, after)
  }

  /** As written, an assets copy that raises reports failure although the
      project it belongs to stays in the database. */
  lemma ImportLabKeepsProjectOnCopyFailure(
    pkg: Package, store: Store, decode: string -> Result<Lab, string>, schema: Lab -> SchemaCheck,
    encode: Json -> string, now: string, message: string)
    requires StoreValid(store)
    requires Admitted(pkg, decode, schema) && pkg.hasAssets
    ensures var r := ImportLab(pkg, store, decode, schema, encode, now, Some(message));
      && r.0.Err?
      && store.nextProjectId in r.1.projects && store.nextProjectId !in store.projects
      && ImportLabAtomic(pkg, store, decode, schema, encode, now, Some(message)).1 == store
  {
    ImportAdmitted(pkg, store, decode, schema, encode, now, Some(message));
  }

  // ---------------------------------------------------------------- round trip

  /** Exporting a project and importing the document gives back its title,
      author, schema version, description (an absent one as empty) and tags
      (absent ones as the empty string). */
  lemma ExportImportProject(p: Project, vms: seq<LabVm>, decodeText: string -> Option<Json>, store: Store, encode: Json -> string, now: string)
    ensures var q := CreateProject(LabExport.BuildLabData(p, vms, decodeText), store, encode, now).0;
      && q.title == p.title && q.author == p.author && q.schemaVersion == p.schemaVersion
      && q.description == Some(p.description.GetOr(""))
      && q.tags == Some(p.tags.GetOr(""))
  {
    if p.tags.Some? && p.tags.value != "" {
      JoinSplit(p.tags.value, ',');
    }
  }

  /** Exporting VM rows and importing them gives rows with the same name,
      box, RAM, CPUs, network and address, in the same order, pending under
      the new project. */
  lemma ExportImportVms(p: Project, vms: seq<LabVm>, decodeText: string -> Option<Json>, projectId: int, store: Store)
    ensures var lab := LabExport.BuildLabData(p, vms, decodeText);
      var s := CreateVms(lab, projectId, store).1;
      && |s.vms| == |store.vms| + |vms|
      && forall i :: 0 <= i < |vms| ==>
        var w := s.vms[|store.vms| + i];
        && w.name == vms[i].name && w.box == vms[i].box && w.ramMb == vms[i].ramMb
        && w.cpuCores == vms[i].cpuCores && w.networkId == vms[i].networkId
        && w.ipAddress == vms[i].ipAddress && w.projectId == projectId && w.status == "pending"
  {
    var lab := LabExport.BuildLabData(p, vms, decodeText);
    var added := ImportedVms(lab.ingredients.value, projectId, store.nextVmId);
    assert CreateVms(lab, projectId, store).1.vms == store.vms + added;
  }

  // ---------------------------------------------------------------- validate_labpkg

  /** The dictionary `validate_labpkg` returns: the validation result, plus
      the package size and VM count when `lab.json` was read and checked. */
  datatype PackageReport = PackageReport(
    valid: bool, errors: seq<string>, warnings: seq<string>,
    fileSizeMb: Option<real>, vmCount: Option<nat>)

  function Failed(message: string): PackageReport {
    PackageReport(false, [message], [], None, None)
  }

  /** `validate_labpkg`: every failure is caught and reported. */
  function ValidateLabpkg(pkg: Package, decode: string -> Result<Lab, string>, schema: Lab -> SchemaCheck, sizeMb: real): (r: PackageReport)
    ensures r.vmCount.Some? <==> pkg.Archive? && pkg.labJson.Some? && decode(pkg.labJson.value).Ok? && Validate(decode(pkg.labJson.value).value, schema).Ok?
    ensures r.vmCount.Some? ==> r.vmCount.value == |decode(pkg.labJson.value).value.ingredients.GetOr([])| && r.fileSizeMb == Some(sizeMb)
    ensures r.vmCount.None? ==> !r.valid && |r.errors| == 1 && r.warnings == [] && r.fileSizeMb.None?
    ensures r.valid ==> r.errors == []
  {
    match pkg
    case NotZip => Failed(NotZipMessage)
    case Archive(labJson, _, _) =>
      if labJson.None? then Failed(MissingLabMessage)
      else match decode(labJson.value)
        case Err(e) => Failed(e)
        case Ok(lab) =>
          match Validate(lab, schema)
          case Err(e) => Failed(e)
          case Ok(v) => PackageReport(v.valid, v.errors, v.warnings, Some(sizeMb), Some(|lab.ingredients.GetOr([])|))
  }

  /** Checking a package agrees with importing it: the report is valid
      exactly when the import admits the package. */
  lemma ValidateAgreesWithImport(pkg: Package, decode: string -> Result<Lab, string>, schema: Lab -> SchemaCheck, sizeMb: real)
    ensures ValidateLabpkg(pkg, decode, schema, sizeMb).valid <==> Admitted(pkg, decode, schema)
  {
  }
}
