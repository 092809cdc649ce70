/** The lab exporter of `labsbakery/backend/services/export_service.py`:
    the file-name sanitiser, the `lab.json` document built from a project and
    its VMs, and the validation gate in front of the package writer. Decoding
    the stored canvas and tutorial text is an input (`decode`, `None` for text
    that is not JSON); writing files and zipping them is not modelled. */
module LabExport {
  import opened Wrappers
  import opened Text
  import opened Seqs
  import opened Labs
  import opened LabValidator

  // ---------------------------------------------------------------- file names

  /** The characters a package name may not contain. */
  const InvalidChars: string := "<>:\"/\\|?*"

  const MaxNameLength := 200

  /** Removes every character of `cs`, one character after the other. */
  function RemoveAll(s: string, cs: string): (r: string)
    ensures forall c :: c in r <==> c in s && c !in cs
    decreases |cs|
  {
    if |cs| == 0 then s
    else
      assert cs == [cs[0]] + cs[1..];
      RemoveAll(RemoveChar(s, cs[0]), cs[1..])
  }

  /** A name with no space and no invalid character. */
  predicate SafeName(s: string) {
    ' ' !in s && forall c :: c in s ==> c !in InvalidChars
  }

  /** Spaces turned into underscores, then the invalid characters removed. */
  function Clean(s: string): (r: string)
    ensures SafeName(r)
  {
    var u := ReplaceChar(s, ' ', '_');
    assert ' ' !in u;
    RemoveAll(u, InvalidChars)
  }

  lemma SafeNameNoSeparator(s: string)
    requires SafeName(s)
    ensures '/' !in s && '\\' !in s
  {
    assert InvalidChars[4] == '/' && InvalidChars[5] == '\\';
  }

  lemma PrefixSafe(s: string, n: nat)
    requires SafeName(s) && n <= |s|
    ensures SafeName(s[..n])
  {
    assert forall c :: c in s[..n] ==> c in s;
  }

  /** `_sanitize_filename` */
  function Sanitize(s: string): (r: string)
    ensures SafeName(r)
    ensures |r| <= MaxNameLength
  {
    var c := Clean(s);
    if |c| > MaxNameLength then
      PrefixSafe(c, MaxNameLength);
      c[..MaxNameLength]
    else c
  }

  function Except(c: char): char -> bool {
    x => x != c
  }

  function NoneOf(cs: string): char -> bool {
    x => x !in cs
  }

  lemma {:induction false} RemoveCharIsFilter(s: string, c: char)
    ensures RemoveChar(s, c) == Filter(s, Except(c))
    decreases |s|
  {
    if |s| > 0 {
      RemoveCharIsFilter(s[1..], c);
      assert s == [s[0]] + s[1..];
      FilterAppend([s[0]], s[1..], Except(c));
      FilterSingle(s[0], Except(c));
    }
  }

  lemma {:induction false} RemoveAllIsFilter(s: string, cs: string)
    ensures RemoveAll(s, cs) == Filter(s, NoneOf(cs))
    decreases |cs|
  {
    if |cs| == 0 {
      FilterAll(s, NoneOf(cs));
    } else {
      RemoveAllIsFilter(RemoveChar(s, cs[0]), cs[1..]);
      RemoveCharIsFilter(s, cs[0]);
      assert cs == [cs[0]] + cs[1..];
      FilterFilter(s, Except(cs[0]), NoneOf(cs[1..]), NoneOf(cs));
    }
  }

  /** The sanitised name is the first 200 characters of the name with spaces
      turned into underscores and the invalid characters dropped, everything
      else in its original order. */
  lemma SanitizeIsFilteredPrefix(s: string)
    ensures Sanitize(s) == Take(Filter(ReplaceChar(s, ' ', '_'), NoneOf(InvalidChars)), MaxNameLength)
  {
    RemoveAllIsFilter(ReplaceChar(s, ' ', '_'), InvalidChars);
  }

  /** The names the sanitiser leaves alone are exactly the short ones without
      spaces or invalid characters; so sanitising twice changes nothing. */
  lemma SanitizeFixedPoints(s: string)
    ensures Sanitize(s) == s <==> SafeName(s) && |s| <= MaxNameLength
    ensures Sanitize(Sanitize(s)) == Sanitize(s)
  {
    if SafeName(s) && |s| <= MaxNameLength {
      SanitizeClean(s);
    }
    SanitizeClean(Sanitize(s));
  }

  lemma SanitizeClean(s: string)
    requires SafeName(s) && |s| <= MaxNameLength
    ensures Sanitize(s) == s
  {
    assert ReplaceChar(s, ' ', '_') == s;
    RemoveAllIsFilter(s, InvalidChars);
    FilterKeepsSafe(s);
  }

  lemma FilterKeepsSafe(s: string)
    requires SafeName(s)
    ensures Filter(s, NoneOf(InvalidChars)) == s
  {
    forall i | 0 <= i < |s| ensures NoneOf(InvalidChars)(s[i]) {
      assert s[i] in s;
    }
    FilterAll(s, NoneOf(InvalidChars));
  }

  // ---------------------------------------------------------------- lab.json

  const EmptyCanvas: Json := JObj(map["nodes" := JArr([]), "links" := JArr([])])
  const EmptyTutorial: Json := JObj(map["steps" := JArr([])])
  const ProviderHints: map<string, string> := map["linux" := "libvirt", "windows" := "hyperv"]

  /** The `tags` column split on commas; an empty or missing column gives no tags. */
  function ExportTags(tags: Option<string>): (r: seq<string>)
    ensures tags.None? || tags == Some("") ==> r == []
    ensures tags.Some? && tags.value != "" ==> |r| >= 1 && forall i :: 0 <= i < |r| ==> ',' !in r[i]
  {
    if tags.Some? && tags.value != "" then Split(tags.value, ',') else []
  }

  /** One ingredient per VM row. */
  function ExportIngredient(vm: LabVm): Ingredient {
    Ingredient(Some(IntToString(vm.id)), vm.name, vm.box, Some(vm.ramMb), Some(vm.cpuCores), Some(vm.networkId), Some(vm.ipAddress))
  }

  function Ingredients(vms: seq<LabVm>): (r: seq<Ingredient>)
    ensures |r| == |vms|
    ensures forall i :: 0 <= i < |vms| ==> r[i] == ExportIngredient(vms[i])
  {
    seq(|vms|, i requires 0 <= i < |vms| => ExportIngredient(vms[i]))
  }

  /** `_build_lab_data` */
  function BuildLabData(p: Project, vms: seq<LabVm>, decode: string -> Option<Json>): (r: Lab)
    ensures r.metadata.id == Some("lab_" + IntToString(p.id))
    ensures r.metadata.description == Some(p.description.GetOr(""))
    ensures r.ingredients.Some? && |r.ingredients.value| == |vms|
    ensures decode(p.canvasState).None? ==> r.canvas == Some(EmptyCanvas)
    ensures decode(p.tutorialContent).None? ==> r.tutorial == Some(EmptyTutorial)
  {
    Lab(
      p.schemaVersion,
      Metadata(Some("lab_" + IntToString(p.id)), p.title, p.author,
               Some(p.description.GetOr("")), Some(p.createdAt), Some(ExportTags(p.tags))),
      Some(decode(p.canvasState).GetOr(EmptyCanvas)),
      Some(Ingredients(vms)),
      Some(decode(p.tutorialContent).GetOr(EmptyTutorial)),
      Some(ProviderHints))
  }

  /** Each exported ingredient carries its VM's id and settings, in row order. */
  lemma BuildLabDataIngredients(p: Project, vms: seq<LabVm>, decode: string -> Option<Json>, i: nat)
    requires i < |vms|
    ensures var ing := BuildLabData(p, vms, decode).ingredients.value[i];
      && ing.id == Some(IntToString(vms[i].id))
      && ing.name == vms[i].name && ing.box == vms[i].box
      && ing.ram == Some(vms[i].ramMb) && ing.cpu == Some(vms[i].cpuCores)
      && ing.network == Some(vms[i].networkId) && ing.ip == Some(vms[i].ipAddress)
  {
  }

  // ---------------------------------------------------------------- export

  /** The name of the package written for a project title: a `.labpkg`
      file with no path separator, so it lands in the export directory. */
  function PackageName(title: string): (r: string)
    ensures '/' !in r && '\\' !in r
    ensures |r| >= 7 && r[|r| - 7..] == ".labpkg"
  {
    SafeNameWithSuffix(Sanitize(title));
    Sanitize(title) + ".labpkg"
  }

  lemma {:induction false} SafeNameWithSuffix(t: string)
    requires SafeName(t)
    ensures var n := t + ".labpkg";
      && '/' !in n && '\\' !in n
      && |n| >= 7 && n[|n| - 7..] == ".labpkg" && n[..|n| - 7] == t
  {
    var n := t + ".labpkg";
    assert n[|n| - 7..] == ".labpkg";
    assert n[..|n| - 7] == t;
    SafeNameNoSeparator(t);
    assert '/' !in ".labpkg" && '\\' !in ".labpkg";
  }

  /** The package lands directly in the export directory: its name has no
      path separator, ends in `.labpkg`, and its stem is the sanitised title. */
  lemma PackageNameSafe(title: string)
    ensures var n := PackageName(title);
      && '/' !in n && '\\' !in n
      && |n| >= 7 && n[|n| - 7..] == ".labpkg"
      && n[..|n| - 7] == Sanitize(title)
  {
    SafeNameWithSuffix(Sanitize(title));
  }

  /** `export_lab`: the name of the package it writes, or the message it
      raises; nothing is written when the document does not validate.
      `writeError` is the message of the first exception raised while writing
      the two JSON files, copying the assets or zipping the package, if any;
      it propagates to the caller. */
  function ExportLab(p: Project, vms: seq<LabVm>, decode: string -> Option<Json>, schema: Lab -> SchemaCheck,
                     writeError: Option<string>): (r: Result<string, string>)
    ensures var v := Validate(BuildLabData(p, vms, decode), schema);
      r.Ok? <==> v.Ok? && v.value.valid && writeError.None?
    ensures r.Ok? ==> r.value == PackageName(p.title)
    ensures var v := Validate(BuildLabData(p, vms, decode), schema);
      v.Ok? && v.value.valid && writeError.Some? ==> r == Err(writeError.value)
  {
    match Validate(BuildLabData(p, vms, decode), schema)
    case Err(e) => Err(e)
    case Ok(v) =>
      if !v.valid then Err("Lab validation failed: " + ListText(v.errors))
      else if writeError.Some? then Err(writeError.value)
      else Ok(PackageName(p.title))
  }
}
