/** The records of the lab-package side (`labsbakery/backend`): the JSON
    values a lab file holds, the typed `lab.json` document, the project and
    VM rows, and the result of validating a lab. A key that the document
    may omit (read with `.get(key, default)`) is an `Option`. */
module Labs {
  import opened Wrappers

  /** A JSON value. Numbers are reals; the integer/float distinction of the
      JSON text does not matter to any decision the services make. */
  datatype Json =
    | JNull
    | JBool(b: bool)
    | JNum(n: real)
    | JStr(s: string)
    | JArr(items: seq<Json>)
    | JObj(fields: map<string, Json>)

  /** Python truthiness of a decoded JSON value. */
  predicate Truthy(j: Json) {
    match j
    case JNull => false
    case JBool(b) => b
    case JNum(n) => n != 0.0
    case JStr(s) => s != ""
    case JArr(items) => items != []
    case JObj(fields) => fields != map[]
  }

  const EmptyObject: Json := JObj(map[])

  /** One entry of `ingredients`: a VM of the lab. */
  datatype Ingredient = Ingredient(
    id: Option<string>, name: string, box: string,
    ram: Option<int>, cpu: Option<int>, network: Option<string>, ip: Option<string>)

  datatype Metadata = Metadata(
    id: Option<string>, title: string, author: string,
    description: Option<string>, created: Option<string>, tags: Option<seq<string>>)

  /** The `lab.json` document. */
  datatype Lab = Lab(
    schemaVersion: int, metadata: Metadata, canvas: Option<Json>,
    ingredients: Option<seq<Ingredient>>, tutorial: Option<Json>,
    providerHints: Option<map<string, string>>)

  /** A `project` row; `createdAt` is its ISO-8601 rendering. */
  datatype Project = Project(
    id: int, title: string, description: Option<string>, author: string,
    createdAt: string, schemaVersion: int, canvasState: string,
    tutorialContent: string, status: string, tags: Option<string>)

  /** A `vm` row of a lab project. */
  datatype LabVm = LabVm(
    id: int, projectId: int, name: string, box: string, ramMb: int,
    cpuCores: int, networkId: string, ipAddress: string, status: string)

  /** The lab database: projects by id, VM rows in insertion order, and the
      next auto-increment ids. */
  datatype Store = Store(projects: map<int, Project>, vms: seq<LabVm>, nextProjectId: int, nextVmId: int)

  /** Auto-increment keeps every project id below the next one, and each row
      is stored under its own id. */
  predicate StoreValid(s: Store) {
    forall k :: k in s.projects ==> k < s.nextProjectId && s.projects[k].id == k
  }

  /** The dictionary `validate` returns. */
  datatype Validation = Validation(valid: bool, errors: seq<string>, warnings: seq<string>)

  /** The quoted items of a list of strings, separated by `, `. */
  function QuotedItems(items: seq<string>): string
    decreases |items|
  {
    if |items| == 0 then ""
    else if |items| == 1 then "'" + items[0] + "'"
    else "'" + items[0] + "', " + QuotedItems(items[1..])
  }

  /** Python's rendering of a list of strings inside an f-string, without
      the escaping of quotes inside the items. */
  function ListText(items: seq<string>): (r: string)
    ensures |r| >= 2 && r[0] == '[' && r[|r| - 1] == ']'
    ensures items == [] <==> r == "[]"
  {
    "[" + QuotedItems(items) + "]"
  }
}
