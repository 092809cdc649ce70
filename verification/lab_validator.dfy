/** The lab validator of `labsbakery/backend/utils/schema_validator.py`.
    The JSON-schema check itself is an input (`SchemaCheck`): whether the
    document conforms, the path and message of the first violation, or a
    fault of the schema. What this module decides is the shape of the result
    and the four custom warnings. */
module LabValidator {
  import opened Wrappers
  import opened Text
  import opened Labs

  // ---------------------------------------------------------------- custom warnings

  const DefaultRam := 2048
  const RamWarningLimit := 8192
  const ManyVms := 10

  /** The custom warnings, in the order they are checked. */
  datatype Warning = NoVms | TooManyVms(count: nat) | HighRam(total: int) | NoTutorialSteps

  function Rank(w: Warning): nat {
    match w
    case NoVms => 0
    case TooManyVms(_) => 1
    case HighRam(_) => 2
    case NoTutorialSteps => 3
  }

  function WarningText(w: Warning): string {
    match w
    case NoVms => "Lab has no VMs defined"
    case TooManyVms(n) => "Lab has " + NatToString(n) + " VMs, which may be resource-intensive"
    case HighRam(total) => "Lab requires " + IntToString(total) + "MB RAM total, which may exceed typical system resources"
    case NoTutorialSteps => "Lab has no tutorial steps defined"
  }

  function WarningTexts(ws: seq<Warning>): (r: seq<string>)
    ensures |r| == |ws|
    ensures forall i :: 0 <= i < |ws| ==> r[i] == WarningText(ws[i])
  {
    seq(|ws|, i requires 0 <= i < |ws| => WarningText(ws[i]))
  }

  function RamOrDefault(ing: Ingredient): int {
    ing.ram.GetOr(DefaultRam)
  }

  /** The RAM the lab asks for, counting 2048 MB for a VM that names none. */
  function TotalRam(ings: seq<Ingredient>): (r: int)
    ensures (forall i :: 0 <= i < |ings| ==> RamOrDefault(ings[i]) >= 0) ==>
              r >= 0 && forall i :: 0 <= i < |ings| ==> RamOrDefault(ings[i]) <= r
    decreases |ings|
  {
    if |ings| == 0 then 0
    else
      var rest := TotalRam(ings[1..]);
      assert forall i :: 1 <= i < |ings| ==> ings[i] == ings[1..][i - 1];
      RamOrDefault(ings[0]) + rest
  }

  /** Without explicit sizes every VM counts for the default. */
  lemma {:induction false} TotalRamAllDefault(ings: seq<Ingredient>)
    requires forall i :: 0 <= i < |ings| ==> ings[i].ram.None?
    ensures TotalRam(ings) == DefaultRam * |ings|
    decreases |ings|
  {
    if |ings| > 0 {
      TotalRamAllDefault(ings[1..]);
    }
  }

  /** Whether the tutorial has steps: `None` when the check raises, which
      happens for a truthy tutorial that is not an object (it has no `.get`). */
  function TutorialHasSteps(tutorial: Json): (r: Option<bool>)
    ensures r.None? <==> Truthy(tutorial) && !tutorial.JObj?
    ensures r == Some(true) <==> tutorial.JObj? && "steps" in tutorial.fields && Truthy(tutorial.fields["steps"])
  {
    if !Truthy(tutorial) then Some(false)
    else match tutorial
      case JObj(fields) => Some("steps" in fields && Truthy(fields["steps"]))
      case _ => None
  }

  /** The one-warning list when the check fires, else an empty one. */
  function When(fires: bool, w: Warning): (r: seq<Warning>)
    ensures forall x :: x in r <==> fires && x == w
    ensures |r| == if fires then 1 else 0
  {
    if fires then [w] else []
  }

  /** `_custom_validations`, or `None` when it raises. Each warning fires
      exactly on its condition, at most once, and the warnings come in the
      order the checks are written. */
  function CustomWarnings(lab: Lab): (r: Option<seq<Warning>>)
    ensures r.None? <==> TutorialHasSteps(lab.tutorial.GetOr(EmptyObject)).None?
    ensures r.Some? ==> var ws := r.value; var ings := lab.ingredients.GetOr([]);
      && (NoVms in ws <==> |ings| == 0)
      && (TooManyVms(|ings|) in ws <==> |ings| > 10)
      && (HighRam(TotalRam(ings)) in ws <==> TotalRam(ings) > 8192)
      && (NoTutorialSteps in ws <==> TutorialHasSteps(lab.tutorial.GetOr(EmptyObject)) == Some(false))
      && (forall w :: w in ws ==> w == NoVms || w == TooManyVms(|ings|) || w == HighRam(TotalRam(ings)) || w == NoTutorialSteps)
  {
    var ings := lab.ingredients.GetOr([]);
    var steps := TutorialHasSteps(lab.tutorial.GetOr(EmptyObject));
    if steps.None? then None
    else
      var total := TotalRam(ings);
      Some(
        When(|ings| == 0, NoVms)
        + When(|ings| > ManyVms, TooManyVms(|ings|))
        + When(total > RamWarningLimit, HighRam(total))
        + When(!steps.value, NoTutorialSteps))
  }

  /** At most three warnings (no VMs and too many VMs exclude each other),
      in the order the checks are written. */
  lemma CustomWarningsOrdered(lab: Lab)
    requires CustomWarnings(lab).Some?
    ensures var ws := CustomWarnings(lab).value;
      && |ws| <= 3
      && (forall i, j :: 0 <= i < j < |ws| ==> Rank(ws[i]) < Rank(ws[j]))
  {
    var ings := lab.ingredients.GetOr([]);
    var steps := TutorialHasSteps(lab.tutorial.GetOr(EmptyObject));
    var a := When(|ings| == 0, NoVms);
    var b := When(|ings| > ManyVms, TooManyVms(|ings|));
    var c := When(TotalRam(ings) > RamWarningLimit, HighRam(TotalRam(ings)));
    var d := When(!steps.value, NoTutorialSteps);
    var ws := a + b + c + d;
    assert CustomWarnings(lab).value == ws;
    forall i, j | 0 <= i < j < |ws| ensures Rank(ws[i]) < Rank(ws[j]) {
      assert ws[i] in ws && ws[j] in ws;
      assert Rank(ws[i]) == 0 <==> i < |a|;
      assert Rank(ws[j]) == 3 <==> j >= |a| + |b| + |c|;
    }
  }

  /** A lab whose VMs all leave the RAM to the default draws the RAM warning
      exactly when it has more than four VMs. */
  lemma DefaultRamWarning(lab: Lab)
    requires CustomWarnings(lab).Some?
    requires forall i :: 0 <= i < |lab.ingredients.GetOr([])| ==> lab.ingredients.GetOr([])[i].ram.None?
    ensures var n := |lab.ingredients.GetOr([])|;
      HighRam(DefaultRam * n) in CustomWarnings(lab).value <==> n > 4
  {
    TotalRamAllDefault(lab.ingredients.GetOr([]));
  }

  // ---------------------------------------------------------------- validate

  /** What the JSON-schema check reports: conformance, the path and message
      of a violation, a fault in the schema itself, or that the schema file
      could not be loaded (missing or not JSON), which the validator raises. */
  datatype SchemaCheck = Conforms | Violation(path: seq<string>, message: string) | SchemaFault(message: string) | Unloadable(message: string)

  /** The dotted path of a violation, or `root` for the document itself. */
  function ErrorPath(path: seq<string>): (r: string)
    ensures path == [] ==> r == "root"
    ensures |path| == 1 ==> r == path[0]
  {
    if path == [] then "root" else Join(path, '.')
  }

  /** `validate_lab`: the result dictionary, or the message of what it raises. */
  function Validate(lab: Lab, schema: Lab -> SchemaCheck): (r: Result<Validation, string>)
    ensures r.Err? <==> schema(lab).Unloadable? || (schema(lab).Conforms? && CustomWarnings(lab).None?)
    ensures r.Ok? && r.value.valid ==> r.value.errors == [] && schema(lab).Conforms?
    ensures r.Ok? && !r.value.valid ==> |r.value.errors| == 1 && r.value.warnings == []
  {
    match schema(lab)
    case Unloadable(message) => Err(message)
    case Conforms =>
      (match CustomWarnings(lab)
       case Some(ws) => Ok(Validation(true, [], WarningTexts(ws)))
       case None => Err("object has no attribute 'get'"))
    case Violation(path, message) => Ok(Validation(false, [ErrorPath(path) + ": " + message], []))
    case SchemaFault(message) => Ok(Validation(false, ["Schema error: " + message], []))
  }

  /** A violation yields one error that starts with its path; a conforming
      document is valid and carries exactly its custom warnings. */
  lemma ValidateReports(lab: Lab, schema: Lab -> SchemaCheck)
    ensures schema(lab).Violation? ==>
      var e := Validate(lab, schema).value.errors[0];
      var p := ErrorPath(schema(lab).path);
      && !Validate(lab, schema).value.valid
      && |e| > |p| && e[..|p|] == p && e[|p|..|p| + 2] == ": "
    ensures schema(lab).Conforms? && CustomWarnings(lab).Some? ==>
      Validate(lab, schema) == Ok(Validation(true, [], WarningTexts(CustomWarnings(lab).value)))
  {
    if schema(lab).Violation? {
      var p := ErrorPath(schema(lab).path);
      var e := p + ": " + schema(lab).message;
      assert e[..|p|] == p;
      assert e[|p|..|p| + 2] == ": ";
    }
  }

  /** `validate_file`: a missing file or text that is not JSON gives an
      invalid result with one error; otherwise the file's document is
      validated. */
  function ValidateFile(path: string, contents: Option<string>, parse: string -> Result<Lab, string>, schema: Lab -> SchemaCheck): (r: Result<Validation, string>)
    ensures contents.None? ==> r == Ok(Validation(false, ["File not found: " + path], []))
    ensures contents.Some? && parse(contents.value).Err? ==> r == Ok(Validation(false, ["Invalid JSON: " + parse(contents.value).error], []))
    ensures contents.Some? && parse(contents.value).Ok? ==> r == Validate(parse(contents.value).value, schema)
  {
    match contents
    case None => Ok(Validation(false, ["File not found: " + path], []))
    case Some(text) =>
      match parse(text)
      case Err(e) => Ok(Validation(false, ["Invalid JSON: " + e], []))
      case Ok(lab) => Validate(lab, schema)
  }
}
