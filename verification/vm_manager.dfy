/** The VM lifecycle of `backend/vm_manager.py`: workspace naming, the OS to
    box table, the rendered Vagrantfile, the `.vm_info` sidecar, the parsers of
    `vagrant status` / `vagrant ssh-config` output, and the effect of
    create/start/stop/destroy/refresh on the database and the workspaces.
    Every vagrant call is an input (`ToolRun`): its exit status, stdout and
    error text. */
module VmManager {
  import opened Wrappers
  import opened Records
  import opened Text
  import opened Seqs

  // ---------------------------------------------------------------- workspace naming

  /** The name of a VM's workspace under the base directory. */
  function VmDir(name: string, userId: int): string {
    "user" + IntToString(userId) + "-" + name
  }

  /** `str(base / dir)` */
  function DirPath(base: string, dir: string): string {
    base + "/" + dir
  }

  /** The names that the tests fix for three owners. */
  lemma VmDirExamples()
    ensures VmDir("test-vm-1", 1) == "user1-test-vm-1"
    ensures VmDir("web-server", 5) == "user5-web-server"
    ensures VmDir("db-server", 10) == "user10-db-server"
  {
    assert IntToString(1) == "1";
    assert IntToString(5) == "5";
    assert IntToString(10) == "10" by {
      assert NatToString(10) == NatToString(1) + [DigitChar(0)];
    }
  }

  /** A run of digits followed by '-' is determined by the string it starts. */
  lemma DigitsThenDash(a: string, c: string, b: string, d: string)
    requires IsDigits(a) && IsDigits(b)
    requires a + "-" + c == b + "-" + d
    ensures a == b && c == d
  {
    var s := a + "-" + c;
    var t := b + "-" + d;
    assert s[|a|] == '-';
    assert t[|b|] == '-';
    if |a| < |b| {
      assert false;
    }
    if |b| < |a| {
      assert false;
    }
    assert a == s[..|a|] && b == t[..|b|];
    assert c == s[|a| + 1..] && d == t[|b| + 1..];
  }

  /** Two VMs share a workspace only if they have the same owner and the same
      name: the owner's digits stop at the first '-'. */
  lemma VmDirInjective(n1: string, u1: int, n2: string, u2: int)
    requires u1 >= 0 && u2 >= 0
    requires VmDir(n1, u1) == VmDir(n2, u2)
    ensures n1 == n2 && u1 == u2
  {
    var d1 := NatToString(u1);
    var d2 := NatToString(u2);
    assert IntToString(u1) == d1 && IntToString(u2) == d2;
    var s := VmDir(n1, u1);
    var t := VmDir(n2, u2);
    assert s[4..] == d1 + "-" + n1;
    assert t[4..] == d2 + "-" + n2;
    DigitsThenDash(d1, n1, d2, n2);
    NatToStringInjective(u1, u2);
  }

  // ---------------------------------------------------------------- box table

  /** The nine OS names the platform knows and the Vagrant box for each. */
  const BoxTable: map<string, string> := map[
    "ubuntu" := "ubuntu/focal64",
    "ubuntu20" := "ubuntu/focal64",
    "ubuntu22" := "ubuntu/jammy64",
    "centos" := "centos/7",
    "centos7" := "centos/7",
    "centos8" := "centos/stream8",
    "debian" := "debian/bullseye64",
    "debian11" := "debian/bullseye64",
    "debian10" := "debian/buster64"]

  const DefaultBox: string := "ubuntu/focal64"

  /** The box for an OS name, looked up case-insensitively, with a default. */
  function BoxFor(osType: string): (r: string)
    ensures r in BoxTable.Values
    ensures Lower(osType) in BoxTable ==> r == BoxTable[Lower(osType)]
    ensures Lower(osType) !in BoxTable ==> r == DefaultBox
  {
    var key := Lower(osType);
    assert BoxTable["ubuntu"] == DefaultBox;
    if key in BoxTable then BoxTable[key] else DefaultBox
  }

  /** The lookup ignores ASCII case. */
  lemma BoxForIgnoresCase(osType: string)
    ensures BoxFor(Lower(osType)) == BoxFor(osType)
  {
    LowerIsLower(osType);
  }

  // ---------------------------------------------------------------- Vagrantfile

  /** The values an f-string template draws on. */
  datatype Field = Box | Name | RamMb | CpuCores

  /** One line of a template: fixed text, or text around one value. */
  datatype TemplateLine = Text(text: string) | Hole(prefix: string, field: Field, suffix: string)

  function FieldValue(vm: Vm, f: Field): string {
    match f
    case Box => BoxFor(vm.osType)
    case Name => vm.name
    case RamMb => IntToString(vm.ramMb)
    case CpuCores => IntToString(vm.cpuCores)
  }

  function FillLine(l: TemplateLine, vm: Vm): string {
    match l
    case Text(t) => t
    case Hole(p, f, s) => p + FieldValue(vm, f) + s
  }

  /** A template rendered for a VM: its lines filled in and joined by newlines. */
  function Render(t: seq<TemplateLine>, vm: Vm): string {
    Join(seq(|t|, i requires 0 <= i < |t| => FillLine(t[i], vm)), '\n')
  }

  /** Every hole of a template shows up filled in the rendered text, and so
      does the value in it. */
  lemma RenderShowsHole(t: seq<TemplateLine>, vm: Vm, i: nat)
    requires i < |t| && t[i].Hole?
    ensures Contains(Render(t, vm), t[i].prefix + FieldValue(vm, t[i].field) + t[i].suffix)
    ensures Contains(Render(t, vm), FieldValue(vm, t[i].field))
  {
    var lines := seq(|t|, j requires 0 <= j < |t| => FillLine(t[j], vm));
    JoinContainsPart(lines, '\n', i);
    ContainsMiddle(t[i].prefix, FieldValue(vm, t[i].field), t[i].suffix);
    ContainsTransitive(Render(t, vm), lines[i], FieldValue(vm, t[i].field));
  }

  /** The Vagrantfile template of a new workspace; the file ends with a
      newline, hence the final empty line. */
  const VagrantTemplate: seq<TemplateLine> := [
    Text("# -*- mode: ruby -*-"),
    Text("# vi: set ft=ruby :"),
    Text(""),
    Text("Vagrant.configure(\"2\") do |config|"),
    Hole("  config.vm.box = \"", Box, "\""),
    Hole("  config.vm.hostname = \"", Name, "\""),
    Text("  "),
    Text("  # Provider-specific configuration"),
    Text("  config.vm.provider \"virtualbox\" do |vb|"),
    Hole("    vb.name = \"", Name, "\""),
    Hole("    vb.memory = ", RamMb, ""),
    Hole("    vb.cpus = ", CpuCores, ""),
    Text("  end"),
    Text("  "),
    Text("  config.vm.provider \"libvirt\" do |lv|"),
    Hole("    lv.memory = ", RamMb, ""),
    Hole("    lv.cpus = ", CpuCores, ""),
    Text("  end"),
    Text("  "),
    Text("  # Network configuration - private network with DHCP"),
    Text("  config.vm.network \"private_network\", type: \"dhcp\""),
    Text("  "),
    Text("  # Sync folder disabled for minimal setup"),
    Text("  config.vm.synced_folder \".\", \"/vagrant\", disabled: true"),
    Text("  "),
    Text("  # Basic provisioning"),
    Text("  config.vm.provision \"shell\", inline: <<-SHELL"),
    Hole("    echo \"VM ", Name, " provisioned successfully\""),
    Text("    echo \"Hostname: $(hostname)\""),
    Text("    echo \"IP Address: $(hostname -I)\""),
    Text("  SHELL"),
    Text("end"),
    Text("")]

  function RenderVagrantfile(vm: Vm): string {
    Render(VagrantTemplate, vm)
  }

  /** The rendered file names the box of the VM's OS. */
  lemma VagrantfileBox(vm: Vm)
    ensures Contains(RenderVagrantfile(vm), "  config.vm.box = \"" + BoxFor(vm.osType) + "\"")
  {
    assert VagrantTemplate[4] == Hole("  config.vm.box = \"", Box, "\"");
    RenderShowsHole(VagrantTemplate, vm, 4);
  }

  /** The rendered file uses the VM's name as hostname, so the name appears. */
  lemma VagrantfileName(vm: Vm)
    ensures Contains(RenderVagrantfile(vm), "  config.vm.hostname = \"" + vm.name + "\"")
    ensures Contains(RenderVagrantfile(vm), vm.name)
  {
    assert VagrantTemplate[5] == Hole("  config.vm.hostname = \"", Name, "\"");
    RenderShowsHole(VagrantTemplate, vm, 5);
  }

  /** Both providers get the VM's memory, so the amount appears. */
  lemma VagrantfileMemory(vm: Vm)
    ensures Contains(RenderVagrantfile(vm), "    vb.memory = " + IntToString(vm.ramMb) + "")
    ensures Contains(RenderVagrantfile(vm), "    lv.memory = " + IntToString(vm.ramMb) + "")
    ensures Contains(RenderVagrantfile(vm), IntToString(vm.ramMb))
  {
    assert VagrantTemplate[10] == Hole("    vb.memory = ", RamMb, "");
    RenderShowsHole(VagrantTemplate, vm, 10);
    assert VagrantTemplate[15] == Hole("    lv.memory = ", RamMb, "");
    RenderShowsHole(VagrantTemplate, vm, 15);
  }

  /** Both providers get the VM's CPU count, so the count appears. */
  lemma VagrantfileCpus(vm: Vm)
    ensures Contains(RenderVagrantfile(vm), "    vb.cpus = " + IntToString(vm.cpuCores) + "")
    ensures Contains(RenderVagrantfile(vm), "    lv.cpus = " + IntToString(vm.cpuCores) + "")
    ensures Contains(RenderVagrantfile(vm), IntToString(vm.cpuCores))
  {
    assert VagrantTemplate[11] == Hole("    vb.cpus = ", CpuCores, "");
    RenderShowsHole(VagrantTemplate, vm, 11);
    assert VagrantTemplate[16] == Hole("    lv.cpus = ", CpuCores, "");
    RenderShowsHole(VagrantTemplate, vm, 16);
  }

  // ---------------------------------------------------------------- sidecar

  /** The five configuration fields of a VM, as stored in the sidecar and in
      the creation event's details. */
  function VmConfig(vm: Vm): (r: Details)
    ensures r.Keys == {"name", "os_type", "ram_mb", "disk_gb", "cpu_cores"}
  {
    map["name" := VStr(vm.name), "os_type" := VStr(vm.osType), "ram_mb" := VInt(vm.ramMb),
        "disk_gb" := VInt(vm.diskGb), "cpu_cores" := VInt(vm.cpuCores)]
  }

  /** The fields a configuration map gives back; `None` for a missing or
      mistyped field. */
  datatype Config = Config(name: string, osType: string, ramMb: int, diskGb: int, cpuCores: int)

  function ReadConfig(d: Details): (r: Option<Config>)
    ensures r.Some? ==> "name" in d && d["name"] == VStr(r.value.name) && "ram_mb" in d && d["ram_mb"] == VInt(r.value.ramMb)
  {
    if && "name" in d && d["name"].VStr? && "os_type" in d && d["os_type"].VStr?
       && "ram_mb" in d && d["ram_mb"].VInt? && "disk_gb" in d && d["disk_gb"].VInt?
       && "cpu_cores" in d && d["cpu_cores"].VInt?
    then Some(Config(d["name"].s, d["os_type"].s, d["ram_mb"].i, d["disk_gb"].i, d["cpu_cores"].i))
    else None
  }

  /** The initial `.vm_info` of a workspace, `createdAt` being the ISO stamp. */
  function CreateVmInfo(vm: Vm, createdAt: string): (r: Details)
    ensures r.Keys == VmConfig(vm).Keys + {"status", "ip_address", "created_at", "uptime_seconds"}
    ensures r["status"] == VStr("pending") && r["ip_address"] == VNull && r["uptime_seconds"] == VInt(0)
    ensures r["created_at"] == VStr(createdAt)
  {
    VmConfig(vm) + map["status" := VStr("pending"), "ip_address" := VNull,
                       "created_at" := VStr(createdAt), "uptime_seconds" := VInt(0)]
  }

  /** The sidecar gives back the configuration the VM was created with. */
  lemma CreateVmInfoRoundTrip(vm: Vm, createdAt: string)
    ensures ReadConfig(CreateVmInfo(vm, createdAt)) == Some(Config(vm.name, vm.osType, vm.ramMb, vm.diskGb, vm.cpuCores))
  {
  }

  /** `_update_vm_info_file`: the new keys over the existing map (or over
      nothing when there is no sidecar), stamped with `updated_at`. */
  function UpdateVmInfo(existing: Option<Details>, updates: Details, stamp: string): (r: Details)
    ensures r.Keys == existing.GetOr(map[]).Keys + updates.Keys + {"updated_at"}
    ensures r["updated_at"] == VStr(stamp)
    ensures forall k :: k in updates && k != "updated_at" ==> r[k] == updates[k]
    ensures forall k :: k in existing.GetOr(map[]) && k !in updates && k != "updated_at" ==> r[k] == existing.GetOr(map[])[k]
  {
    existing.GetOr(map[]) + updates + map["updated_at" := VStr(stamp)]
  }

  /** Repeating an update changes nothing but the stamp. */
  lemma UpdateVmInfoIdempotent(existing: Option<Details>, updates: Details, s1: string, s2: string)
    ensures UpdateVmInfo(Some(UpdateVmInfo(existing, updates, s1)), updates, s2) == UpdateVmInfo(existing, updates, s2)
  {
  }

  // ---------------------------------------------------------------- vagrant output

  /** One vagrant call: success, stdout and the error text (stderr, or the
      timeout/exception message). */
  datatype ToolRun = ToolRun(ok: bool, stdout: string, error: string)

  const KnownStatuses: set<string> := {"pending", "running", "stopped", "failed", "not_created", "unknown"}

  /** `get_vm_status`: the state reported by `vagrant status` in a workspace. */
  function GetVmStatus(dirExists: bool, run: ToolRun): (r: string)
    ensures r in {"running", "stopped", "not_created", "unknown"}
    ensures !dirExists ==> r == "not_created"
    ensures dirExists && !run.ok ==> r == "unknown"
    ensures dirExists && run.ok ==>
      var out := Lower(run.stdout);
      && (r == "running" <==> Contains(out, "running"))
      && (r == "stopped" <==> !Contains(out, "running") && (Contains(out, "poweroff") || Contains(out, "stopped")))
      && (r == "not_created" <==> !Contains(out, "running") && !Contains(out, "poweroff")
                                  && !Contains(out, "stopped") && Contains(out, "not created"))
  {
    if !dirExists then "not_created"
    else if !run.ok then "unknown"
    else
      var out := Lower(run.stdout);
      if Contains(out, "running") then "running"
      else if Contains(out, "poweroff") || Contains(out, "stopped") then "stopped"
      else if Contains(out, "not created") then "not_created"
      else "unknown"
  }

  /** The classification ignores the case of the tool's output. */
  lemma GetVmStatusIgnoresCase(dirExists: bool, out: string, e1: string, e2: string)
    ensures GetVmStatus(dirExists, ToolRun(true, Lower(out), e1)) == GetVmStatus(dirExists, ToolRun(true, out, e2))
  {
    LowerIsLower(out);
  }

  const HostKey: string := "HostName"

  /** `'HostName' in line` */
  predicate NamesHost(line: string) {
    Contains(line, HostKey)
  }

  /** The index of the first line that names the host. */
  function FirstHostLine(lines: seq<string>): (r: Option<nat>)
    ensures r.Some? ==> r.value < |lines| && NamesHost(lines[r.value])
    ensures r.Some? ==> forall j :: 0 <= j < r.value ==> !NamesHost(lines[j])
    ensures r.None? ==> forall j :: 0 <= j < |lines| ==> !NamesHost(lines[j])
    decreases |lines|
  {
    if |lines| == 0 then None
    else if NamesHost(lines[0]) then Some(0)
    else
      match FirstHostLine(lines[1..])
      case None => None
      case Some(j) => Some(j + 1)
  }

  /** The last token of the first line that names the host. */
  function HostAddress(lines: seq<string>): (r: Option<string>)
    ensures r.Some? <==> exists j :: 0 <= j < |lines| && NamesHost(lines[j])
    ensures r.Some? ==> exists j :: (0 <= j < |lines| && NamesHost(lines[j]) && r.value == LastToken(lines[j])
      && forall k :: 0 <= k < j ==> !NamesHost(lines[k]))
  {
    match FirstHostLine(lines)
    case None => None
    case Some(j) =>
      assert NamesHost(lines[j]);
      Some(LastToken(lines[j]))
  }

  /** A line naming the host has a token, so the address found is a
      non-empty run without whitespace. */
  lemma HostAddressWellFormed(lines: seq<string>)
    requires HostAddress(lines).Some?
    ensures |HostAddress(lines).value| > 0
    ensures forall i :: 0 <= i < |HostAddress(lines).value| ==> !IsSpace(HostAddress(lines).value[i])
  {
    var j := FirstHostLine(lines).value;
    var line := lines[j];
    assert HostKey[0] == 'H';
    ContainsHasToken(line, HostKey);
    LastTokenSpec(line);
  }

  /** `_get_vm_ip`: the address on the first `HostName` line of
      `vagrant ssh-config`; `None` when the run failed or no line names the
      host, otherwise a non-empty run without whitespace. */
  function GetVmIp(run: ToolRun): (r: Option<string>)
    ensures !run.ok ==> r.None?
    ensures run.ok ==> r == HostAddress(Split(run.stdout, '\n'))
    ensures r.Some? ==> |r.value| > 0 && forall i :: 0 <= i < |r.value| ==> !IsSpace(r.value[i])
  {
    if !run.ok then None
    else
      var lines := Split(run.stdout, '\n');
      if HostAddress(lines).Some? then
        HostAddressWellFormed(lines);
        HostAddress(lines)
      else None
  }

  /** Output assembled from lines finds the address on the first line that
      names the host. */
  lemma GetVmIpOfLines(lines: seq<string>, j: nat, error: string)
    requires |lines| >= 1
    requires forall i :: 0 <= i < |lines| ==> '\n' !in lines[i]
    requires j < |lines| && NamesHost(lines[j])
    requires forall i :: 0 <= i < j ==> !NamesHost(lines[i])
    ensures GetVmIp(ToolRun(true, Join(lines, '\n'), error)) == Some(LastToken(lines[j]))
  {
    SplitJoin(lines, '\n');
    var k := FirstHostLine(lines).value;
    assert k == j;
  }

  // ---------------------------------------------------------------- the world

  /** The database plus the workspaces under the base directory: which exist,
      and the sidecar and Vagrantfile in each. */
  datatype World = World(
    db: Db,
    base: string,
    dirs: set<string>,
    sidecars: map<string, Details>,
    vagrantfiles: map<string, string>)

  /** Files live only inside existing workspaces. */
  ghost predicate WorkspacesValid(w: World) {
    w.sidecars.Keys <= w.dirs && w.vagrantfiles.Keys <= w.dirs
  }

  /** Every VM row carries one of the states the manager writes. */
  ghost predicate StatusesKnown(w: World) {
    forall id :: id in w.db.vms ==> w.db.vms[id].status in KnownStatuses
  }

  datatype Outcome = Outcome(w: World, ok: bool, message: string)

  /** `vm.<field> = ...; db.commit()` */
  function PutVm(w: World, vm: Vm): (r: World)
    ensures r.db.vms == w.db.vms[vm.id := vm]
    ensures r.db.users == w.db.users && r.db.events == w.db.events && r.db.nextEventId == w.db.nextEventId
    ensures r.dirs == w.dirs && r.sidecars == w.sidecars && r.vagrantfiles == w.vagrantfiles
  {
    w.(db := w.db.(vms := w.db.vms[vm.id := vm]))
  }

  /** A `vm` event with the VM's owner and id. */
  function PutEvent(w: World, vm: Vm, user: User, severity: string, message: string, details: Details, now: int): (r: World)
    ensures |r.db.events| == |w.db.events| + 1 && r.db.events[..|w.db.events|] == w.db.events
    ensures var e := r.db.events[|w.db.events|];
      && e.eventType == "vm" && e.severity == severity && e.message == message
      && e.userId == Some(user.id) && e.vmId == Some(vm.id) && e.details == details
    ensures r.db.vms == w.db.vms && r.db.users == w.db.users
    ensures r.dirs == w.dirs && r.sidecars == w.sidecars && r.vagrantfiles == w.vagrantfiles
  {
    var db := AddEvent(w.db, "vm", severity, message, Some(user.id), Some(vm.id), details, now).0;
    assert db.events[..|w.db.events|] == w.db.events;
    w.(db := db)
  }

  /** `_update_vm_info_file` on an existing workspace. */
  function PutSidecar(w: World, dir: string, updates: Details, stamp: string): (r: World)
    ensures r.sidecars == w.sidecars[dir := UpdateVmInfo(if dir in w.sidecars then Some(w.sidecars[dir]) else None, updates, stamp)]
    ensures r.db == w.db && r.dirs == w.dirs && r.vagrantfiles == w.vagrantfiles
  {
    var existing := if dir in w.sidecars then Some(w.sidecars[dir]) else None;
    w.(sidecars := w.sidecars[dir := UpdateVmInfo(existing, updates, stamp)])
  }

  /** Python's rendering of an optional address in a message. */
  function ShowIp(ip: Option<string>): string {
    match ip
    case Some(s) => s
    case None => "None"
  }

  // ---------------------------------------------------------------- create

  /** The first half of `create_vm` on a fresh workspace: the directory, its
      Vagrantfile and sidecar, the row marked "pending", and the event that
      records the request with the VM's configuration. */
  function Provision(w: World, vm: Vm, user: User, stamp: string, now: int): (r: World)
    ensures var d := VmDir(vm.name, user.id);
      && r.dirs == w.dirs + {d}
      && r.vagrantfiles == w.vagrantfiles[d := RenderVagrantfile(vm)]
      && r.sidecars == w.sidecars[d := CreateVmInfo(vm, stamp)]
    ensures r.db.vms == w.db.vms[vm.id := vm.(status := "pending")] && r.db.users == w.db.users
    ensures |r.db.events| == |w.db.events| + 1 && r.db.events[..|w.db.events|] == w.db.events
    ensures r.db.events[|w.db.events|].severity == "info" && r.db.events[|w.db.events|].details == VmConfig(vm)
  {
    var d := VmDir(vm.name, user.id);
    var w1 := w.(dirs := w.dirs + {d},
                 vagrantfiles := w.vagrantfiles[d := RenderVagrantfile(vm)],
                 sidecars := w.sidecars[d := CreateVmInfo(vm, stamp)]);
    var vm1 := vm.(status := "pending");
    PutEvent(PutVm(w1, vm1), vm1, user, "info",
             "User '" + user.username + "' initiated VM creation: " + vm.name, VmConfig(vm), now)
  }

  /** `create_vm`: `up` is the `vagrant up` run and `sshConfig` the
      `vagrant ssh-config` run that follows a successful one; `stamp` is the
      clock's ISO text and `now` its seconds. */
  function CreateVm(w: World, vm: Vm, user: User, up: ToolRun, sshConfig: ToolRun, stamp: string, now: int): (r: Outcome)
    ensures r.ok ==> up.ok
    ensures r.w.db.users == w.db.users
  {
    var d := VmDir(vm.name, user.id);
    if d in w.dirs then Outcome(w, false, "VM directory already exists: " + DirPath(w.base, d))
    else
      var w2 := Provision(w, vm, user, stamp, now);
      if up.ok then CreateSucceeded(w2, vm, user, GetVmIp(sshConfig), stamp, now)
      else CreateFailed(w2, vm, user, up.error, now)
  }

  /** The end of a creation whose `vagrant up` succeeded. */
  function CreateSucceeded(w: World, vm: Vm, user: User, ip: Option<string>, stamp: string, now: int): (r: Outcome)
    ensures r.ok
    ensures r.w.db.vms == w.db.vms[vm.id := vm.(status := "running", ipAddress := ip)]
    ensures var d := VmDir(vm.name, user.id);
      d in r.w.sidecars && "status" in r.w.sidecars[d] && r.w.sidecars[d]["status"] == VStr("running")
    ensures |r.w.db.events| == |w.db.events| + 1 && r.w.db.events[..|w.db.events|] == w.db.events
    ensures r.w.db.events[|w.db.events|].severity == "info"
    ensures r.w.dirs == w.dirs && r.w.vagrantfiles == w.vagrantfiles && r.w.db.users == w.db.users
    ensures r.w.sidecars.Keys == w.sidecars.Keys + {VmDir(vm.name, user.id)}
  {
    var vm2 := vm.(ipAddress := ip, status := "running");
    var w3 := PutSidecar(PutVm(w, vm2), VmDir(vm.name, user.id), map["status" := VStr("running"), "ip_address" := OptStrValue(ip)], stamp);
    var w4 := PutEvent(w3, vm2, user, "info", "VM '" + vm.name + "' created successfully with IP " + ShowIp(ip),
                       map["ip" := OptStrValue(ip), "status" := VStr("running")], now);
    Outcome(w4, true, "VM created successfully with IP " + ShowIp(ip))
  }

  /** The end of a creation whose `vagrant up` failed: the row is marked
      "failed" (the sidecar is left alone) and a critical event carries the
      error. */
  function CreateFailed(w: World, vm: Vm, user: User, error: string, now: int): (r: Outcome)
    ensures !r.ok
    ensures r.w.db.vms == w.db.vms[vm.id := vm.(status := "failed")]
    ensures r.w.sidecars == w.sidecars && r.w.dirs == w.dirs && r.w.vagrantfiles == w.vagrantfiles
    ensures |r.w.db.events| == |w.db.events| + 1 && r.w.db.events[..|w.db.events|] == w.db.events
    ensures r.w.db.events[|w.db.events|].severity == "critical"
    ensures r.w.db.events[|w.db.events|].details == map["error" := VStr(error)]
    ensures r.w.db.users == w.db.users
  {
    var vm2 := vm.(status := "failed");
    var w3 := PutEvent(PutVm(w, vm2), vm2, user, "critical", "Failed to create VM '" + vm.name + "': " + error,
                       map["error" := VStr(error)], now);
    Outcome(w3, false, "Failed to create VM: " + error)
  }

  /** An existing workspace refuses the creation and nothing changes. */
  lemma CreateVmRefused(w: World, vm: Vm, user: User, up: ToolRun, sshConfig: ToolRun, stamp: string, now: int)
    requires VmDir(vm.name, user.id) in w.dirs
    ensures CreateVm(w, vm, user, up, sshConfig, stamp, now) == Outcome(w, false, "VM directory already exists: " + DirPath(w.base, VmDir(vm.name, user.id)))
  {
  }

  /** On a fresh workspace the creation succeeds exactly when `vagrant up`
      does, and the workspace and its Vagrantfile exist either way. */
  lemma CreateVmWorkspace(w: World, vm: Vm, user: User, up: ToolRun, sshConfig: ToolRun, stamp: string, now: int)
    requires VmDir(vm.name, user.id) !in w.dirs
    ensures var r := CreateVm(w, vm, user, up, sshConfig, stamp, now);
      && r.ok == up.ok
      && r.w.dirs == w.dirs + {VmDir(vm.name, user.id)}
      && r.w.vagrantfiles == w.vagrantfiles[VmDir(vm.name, user.id) := RenderVagrantfile(vm)]
  {
    var w2 := Provision(w, vm, user, stamp, now);
    if up.ok {
      assert CreateVm(w, vm, user, up, sshConfig, stamp, now) == CreateSucceeded(w2, vm, user, GetVmIp(sshConfig), stamp, now);
    } else {
      assert CreateVm(w, vm, user, up, sshConfig, stamp, now) == CreateFailed(w2, vm, user, up.error, now);
    }
  }

  /** On a fresh workspace the row ends "running" with the address found, or
      "failed" with its address untouched. */
  lemma CreateVmRow(w: World, vm: Vm, user: User, up: ToolRun, sshConfig: ToolRun, stamp: string, now: int)
    requires VmDir(vm.name, user.id) !in w.dirs
    ensures CreateVm(w, vm, user, up, sshConfig, stamp, now).w.db.vms
      == w.db.vms[vm.id := if up.ok then vm.(status := "running", ipAddress := GetVmIp(sshConfig)) else vm.(status := "failed")]
  {
    var w2 := Provision(w, vm, user, stamp, now);
    var row := if up.ok then vm.(status := "running", ipAddress := GetVmIp(sshConfig)) else vm.(status := "failed");
    UpdateTwice(w.db.vms, vm.id, vm.(status := "pending"), row);
    if up.ok {
      assert CreateVm(w, vm, user, up, sshConfig, stamp, now) == CreateSucceeded(w2, vm, user, GetVmIp(sshConfig), stamp, now);
    } else {
      assert CreateVm(w, vm, user, up, sshConfig, stamp, now) == CreateFailed(w2, vm, user, up.error, now);
    }
  }

  lemma PrefixOfPrefix<T>(a: seq<T>, b: seq<T>, c: seq<T>)
    requires |a| >= |b| >= |c| && a[..|b|] == b && b[..|c|] == c
    ensures a[..|c|] == c
  {
    assert a[..|c|] == a[..|b|][..|c|];
  }

  lemma UpdateTwice<K, V>(m: map<K, V>, k: K, a: V, b: V)
    ensures m[k := a][k := b] == m[k := b]
  {
  }

  /** On a fresh workspace the sidecar says "running" after a successful
      `vagrant up`, and still says "pending" after a failed one. */
  lemma CreateVmSidecar(w: World, vm: Vm, user: User, up: ToolRun, sshConfig: ToolRun, stamp: string, now: int)
    requires VmDir(vm.name, user.id) !in w.dirs
    ensures var r := CreateVm(w, vm, user, up, sshConfig, stamp, now);
      var d := VmDir(vm.name, user.id);
      && d in r.w.sidecars && "status" in r.w.sidecars[d]
      && r.w.sidecars[d]["status"] == (if up.ok then VStr("running") else VStr("pending"))
  {
    var w2 := Provision(w, vm, user, stamp, now);
    var d := VmDir(vm.name, user.id);
    if up.ok {
      assert CreateVm(w, vm, user, up, sshConfig, stamp, now) == CreateSucceeded(w2, vm, user, GetVmIp(sshConfig), stamp, now);
    } else {
      assert w2.sidecars[d]["status"] == VStr("pending");
      assert CreateVm(w, vm, user, up, sshConfig, stamp, now) == CreateFailed(w2, vm, user, up.error, now);
    }
  }

  /** A fresh creation adds two events: the request, carrying the VM's
      configuration, then an info event on success or a critical one on
      failure. */
  lemma CreateVmEvents(w: World, vm: Vm, user: User, up: ToolRun, sshConfig: ToolRun, stamp: string, now: int)
    requires VmDir(vm.name, user.id) !in w.dirs
    ensures var r := CreateVm(w, vm, user, up, sshConfig, stamp, now);
      && |r.w.db.events| == |w.db.events| + 2 && r.w.db.events[..|w.db.events|] == w.db.events
      && r.w.db.events[|w.db.events|].details == VmConfig(vm)
      && r.w.db.events[|w.db.events| + 1].severity == (if up.ok then "info" else "critical")
  {
    var w2 := Provision(w, vm, user, stamp, now);
    var r := if up.ok then CreateSucceeded(w2, vm, user, GetVmIp(sshConfig), stamp, now)
             else CreateFailed(w2, vm, user, up.error, now);
    assert CreateVm(w, vm, user, up, sshConfig, stamp, now) == r;
    PrefixOfPrefix(r.w.db.events, w2.db.events, w.db.events);
  }

  /** Creation keeps files inside workspaces. */
  lemma CreateVmKeepsWorkspaces(w: World, vm: Vm, user: User, up: ToolRun, sshConfig: ToolRun, stamp: string, now: int)
    requires WorkspacesValid(w)
    ensures WorkspacesValid(CreateVm(w, vm, user, up, sshConfig, stamp, now).w)
  {
    var d := VmDir(vm.name, user.id);
    if d !in w.dirs {
      var w2 := Provision(w, vm, user, stamp, now);
      assert WorkspacesValid(w2);
      if up.ok {
        assert CreateVm(w, vm, user, up, sshConfig, stamp, now) == CreateSucceeded(w2, vm, user, GetVmIp(sshConfig), stamp, now);
      } else {
        assert CreateVm(w, vm, user, up, sshConfig, stamp, now) == CreateFailed(w2, vm, user, up.error, now);
      }
    }
  }

  /** Creation leaves every row in a known state. */
  lemma CreateVmKeepsStatuses(w: World, vm: Vm, user: User, up: ToolRun, sshConfig: ToolRun, stamp: string, now: int)
    requires StatusesKnown(w)
    ensures StatusesKnown(CreateVm(w, vm, user, up, sshConfig, stamp, now).w)
  {
    if VmDir(vm.name, user.id) !in w.dirs {
      CreateVmRow(w, vm, user, up, sshConfig, stamp, now);
    }
  }

  /** A second creation of the same VM for the same owner is refused and
      changes nothing, whatever the first one's outcome. */
  lemma CreateTwiceRefused(w: World, vm: Vm, user: User, up: ToolRun, ssh: ToolRun, up2: ToolRun, ssh2: ToolRun, stamp: string, now: int)
    ensures var r := CreateVm(w, vm, user, up, ssh, stamp, now);
      var r2 := CreateVm(r.w, vm, user, up2, ssh2, stamp, now);
      r2.w == r.w && !r2.ok
  {
    var r := CreateVm(w, vm, user, up, ssh, stamp, now);
    if VmDir(vm.name, user.id) !in w.dirs {
      CreateVmWorkspace(w, vm, user, up, ssh, stamp, now);
    }
    CreateVmRefused(r.w, vm, user, up2, ssh2, stamp, now);
  }

  // ---------------------------------------------------------------- start / stop

  /** `start_vm`: `vagrant up` in an existing workspace. It succeeds exactly
      when the workspace exists and the run does, and a failure changes
      nothing. */
  function StartVm(w: World, vm: Vm, user: User, up: ToolRun, sshConfig: ToolRun, stamp: string, now: int): (r: Outcome)
    ensures r.ok <==> VmDir(vm.name, user.id) in w.dirs && up.ok
    ensures !r.ok ==> r.w == w
  {
    var d := VmDir(vm.name, user.id);
    if d !in w.dirs then Outcome(w, false, "VM directory not found: " + DirPath(w.base, d))
    else if !up.ok then Outcome(w, false, "Failed to start VM: " + up.error)
    else
      var ip := GetVmIp(sshConfig);
      var vm1 := vm.(ipAddress := ip, status := "running");
      var w1 := PutSidecar(PutVm(w, vm1), d, map["status" := VStr("running"), "ip_address" := OptStrValue(ip)], stamp);
      var w2 := PutEvent(w1, vm1, user, "info", "VM '" + vm.name + "' started successfully", map[], now);
      Outcome(w2, true, "VM started successfully")
  }

  /** A successful start marks the row and the sidecar "running", records the
      address found, adds one info event and leaves the workspaces alone. */
  lemma StartVmEffects(w: World, vm: Vm, user: User, up: ToolRun, sshConfig: ToolRun, stamp: string, now: int)
    requires StartVm(w, vm, user, up, sshConfig, stamp, now).ok
    ensures var r := StartVm(w, vm, user, up, sshConfig, stamp, now);
      var d := VmDir(vm.name, user.id);
      && r.w.db.vms == w.db.vms[vm.id := vm.(status := "running", ipAddress := GetVmIp(sshConfig))]
      && |r.w.db.events| == |w.db.events| + 1 && r.w.db.events[..|w.db.events|] == w.db.events
      && r.w.db.events[|w.db.events|].severity == "info"
      && d in r.w.sidecars && "status" in r.w.sidecars[d] && r.w.sidecars[d]["status"] == VStr("running")
      && r.w.dirs == w.dirs && r.w.vagrantfiles == w.vagrantfiles
  {
  }

  /** Starting keeps files inside workspaces and rows in known states. */
  lemma StartVmKeepsInvariants(w: World, vm: Vm, user: User, up: ToolRun, sshConfig: ToolRun, stamp: string, now: int)
    requires WorkspacesValid(w) && StatusesKnown(w)
    ensures WorkspacesValid(StartVm(w, vm, user, up, sshConfig, stamp, now).w)
    ensures StatusesKnown(StartVm(w, vm, user, up, sshConfig, stamp, now).w)
  {
    if StartVm(w, vm, user, up, sshConfig, stamp, now).ok {
      StartVmEffects(w, vm, user, up, sshConfig, stamp, now);
    }
  }

  /** `stop_vm`: `vagrant halt` in an existing workspace. It succeeds exactly
      when the workspace exists and the run does, and a failure changes
      nothing. */
  function StopVm(w: World, vm: Vm, user: User, halt: ToolRun, stamp: string, now: int): (r: Outcome)
    ensures r.ok <==> VmDir(vm.name, user.id) in w.dirs && halt.ok
    ensures !r.ok ==> r.w == w
  {
    var d := VmDir(vm.name, user.id);
    if d !in w.dirs then Outcome(w, false, "VM directory not found: " + DirPath(w.base, d))
    else if !halt.ok then Outcome(w, false, "Failed to stop VM: " + halt.error)
    else
      var vm1 := vm.(status := "stopped");
      var w1 := PutSidecar(PutVm(w, vm1), d, map["status" := VStr("stopped")], stamp);
      var w2 := PutEvent(w1, vm1, user, "info", "VM '" + vm.name + "' stopped successfully", map[], now);
      Outcome(w2, true, "VM stopped successfully")
  }

  /** A successful stop marks the row and the sidecar "stopped", adds one
      info event and leaves the workspaces alone. */
  lemma StopVmEffects(w: World, vm: Vm, user: User, halt: ToolRun, stamp: string, now: int)
    requires StopVm(w, vm, user, halt, stamp, now).ok
    ensures var r := StopVm(w, vm, user, halt, stamp, now);
      var d := VmDir(vm.name, user.id);
      && r.w.db.vms == w.db.vms[vm.id := vm.(status := "stopped")]
      && |r.w.db.events| == |w.db.events| + 1 && r.w.db.events[..|w.db.events|] == w.db.events
      && r.w.db.events[|w.db.events|].severity == "info"
      && d in r.w.sidecars && "status" in r.w.sidecars[d] && r.w.sidecars[d]["status"] == VStr("stopped")
      && r.w.dirs == w.dirs && r.w.vagrantfiles == w.vagrantfiles
  {
  }

  /** Stopping keeps files inside workspaces and rows in known states. */
  lemma StopVmKeepsInvariants(w: World, vm: Vm, user: User, halt: ToolRun, stamp: string, now: int)
    requires WorkspacesValid(w) && StatusesKnown(w)
    ensures WorkspacesValid(StopVm(w, vm, user, halt, stamp, now).w)
    ensures StatusesKnown(StopVm(w, vm, user, halt, stamp, now).w)
  {
    if StopVm(w, vm, user, halt, stamp, now).ok {
      StopVmEffects(w, vm, user, halt, stamp, now);
    }
  }

  // ---------------------------------------------------------------- destroy

  /** `db.delete(vm)`: the row goes, and with it (the relationship cascades
      on delete) the events already stored against it. */
  function DeleteVm(db: Db, vmId: int): (r: Db)
    ensures r.vms == db.vms - {vmId} && r.users == db.users && r.nextEventId == db.nextEventId
    ensures forall e :: e in r.events <==> e in db.events && e.vmId != Some(vmId)
  {
    var p := (e: Event) => e.vmId != Some(vmId);
    forall e ensures e in Filter(db.events, p) <==> e in db.events && p(e) {
      FilterMembership(db.events, p, e);
    }
    db.(vms := db.vms - {vmId}, events := Filter(db.events, p))
  }

  /** The delete, in a world whose last event is still pending: the session
      is not flushed before the cascade, so that event survives it. */
  function DeleteKeepingPending(w: World, vmId: int): (r: World)
    requires |w.db.events| >= 1
    ensures |r.db.events| >= 1 && r.db.events[|r.db.events| - 1] == w.db.events[|w.db.events| - 1]
    ensures forall e :: e in r.db.events[..|r.db.events| - 1] <==> e in w.db.events[..|w.db.events| - 1] && e.vmId != Some(vmId)
    ensures r.db.vms == w.db.vms - {vmId} && r.db.users == w.db.users
    ensures r.dirs == w.dirs && r.sidecars == w.sidecars && r.vagrantfiles == w.vagrantfiles
  {
    var pending := w.db.events[|w.db.events| - 1];
    var stored := DeleteVm(w.db.(events := w.db.events[..|w.db.events| - 1]), vmId);
    var events := stored.events + [pending];
    assert events[..|events| - 1] == stored.events;
    w.(db := stored.(events := events))
  }

  /** `shutil.rmtree` on the workspace when it exists; `ok` says whether the
      removal went through. The database is not touched. */
  function RemoveWorkspace(w: World, d: string, ok: bool): (r: World)
    ensures d in r.dirs <==> d in w.dirs && !ok
    ensures forall x :: x != d ==> (x in r.dirs <==> x in w.dirs)
    ensures r.db == w.db
    ensures WorkspacesValid(w) ==> WorkspacesValid(r)
  {
    if d in w.dirs && ok then w.(dirs := w.dirs - {d}, sidecars := w.sidecars - {d}, vagrantfiles := w.vagrantfiles - {d})
    else w
  }

  /** `destroy_vm`. The result of `vagrant destroy -f` is ignored;
      `rmtreeOk` says whether the workspace could be removed. Every path
      deletes the row and reports success; the event is a warning exactly
      when there was no workspace. */
  function DestroyVm(w: World, vm: Vm, user: User, rmtreeOk: bool, now: int): (r: Outcome)
    ensures r.ok
    ensures r.w.db.vms == w.db.vms - {vm.id} && r.w.db.users == w.db.users
    ensures |r.w.db.events| >= 1
  {
    var d := VmDir(vm.name, user.id);
    var found := d in w.dirs;
    var w1 := RemoveWorkspace(w, d, rmtreeOk);
    var w2 := PutEvent(w1, vm, user, if found then "info" else "warning",
      if found then "VM '" + vm.name + "' destroyed successfully"
      else "VM '" + vm.name + "' directory not found, removing from database", map[], now);
    Outcome(DeleteKeepingPending(w2, vm.id), true,
      if found then "VM destroyed successfully" else "VM removed from database (directory not found)")
  }

  /** The event a destroy records outlives the cascade: it is the last one,
      names the VM, and is a warning exactly when there was no workspace.
      Every earlier event survives exactly when it was not about this VM. */
  lemma DestroyVmEvents(w: World, vm: Vm, user: User, rmtreeOk: bool, now: int)
    ensures var r := DestroyVm(w, vm, user, rmtreeOk, now);
      var e := r.w.db.events[|r.w.db.events| - 1];
      && e.vmId == Some(vm.id) && e.eventType == "vm"
      && e.severity == (if VmDir(vm.name, user.id) in w.dirs then "info" else "warning")
    ensures var r := DestroyVm(w, vm, user, rmtreeOk, now);
      forall e :: e in r.w.db.events[..|r.w.db.events| - 1] <==> e in w.db.events && e.vmId != Some(vm.id)
  {
  }

  /** The workspace goes exactly when it existed and could be removed; no
      other workspace changes. */
  lemma DestroyVmWorkspace(w: World, vm: Vm, user: User, rmtreeOk: bool, now: int)
    ensures var r := DestroyVm(w, vm, user, rmtreeOk, now);
      VmDir(vm.name, user.id) in r.w.dirs <==> VmDir(vm.name, user.id) in w.dirs && !rmtreeOk
    ensures var r := DestroyVm(w, vm, user, rmtreeOk, now);
      forall d :: d != VmDir(vm.name, user.id) ==> (d in r.w.dirs <==> d in w.dirs)
  {
  }

  /** Destroying keeps files inside workspaces and rows in known states. */
  lemma DestroyVmKeepsInvariants(w: World, vm: Vm, user: User, rmtreeOk: bool, now: int)
    requires WorkspacesValid(w) && StatusesKnown(w)
    ensures WorkspacesValid(DestroyVm(w, vm, user, rmtreeOk, now).w)
    ensures StatusesKnown(DestroyVm(w, vm, user, rmtreeOk, now).w)
  {
  }

  // ---------------------------------------------------------------- refresh

  /** `update_vm_status`: the row takes the state `vagrant status` reports
      when it differs. The sidecar write follows the commit, so with no
      workspace the row is still rewritten (to "not_created") and the call
      reports failure. */
  function UpdateVmStatus(w: World, vm: Vm, user: User, status: ToolRun, stamp: string): (r: (World, bool))
    ensures var s := GetVmStatus(VmDir(vm.name, user.id) in w.dirs, status);
      && (s == vm.status ==> r == (w, true))
      && (s != vm.status ==> r.0.db.vms == w.db.vms[vm.id := vm.(status := s)])
      && (r.1 <==> s == vm.status || VmDir(vm.name, user.id) in w.dirs)
    ensures r.0.db.events == w.db.events && r.0.dirs == w.dirs && r.0.db.users == w.db.users
  {
    var d := VmDir(vm.name, user.id);
    var s := GetVmStatus(d in w.dirs, status);
    if s == vm.status then (w, true)
    else
      var w1 := PutVm(w, vm.(status := s));
      if d in w.dirs then (PutSidecar(w1, d, map["status" := VStr(s)], stamp), true)
      else (w1, false)
  }

  /** With a workspace, a changed state is also written to the sidecar. */
  lemma UpdateVmStatusSidecar(w: World, vm: Vm, user: User, status: ToolRun, stamp: string)
    ensures var r := UpdateVmStatus(w, vm, user, status, stamp);
      var d := VmDir(vm.name, user.id); var s := GetVmStatus(d in w.dirs, status);
      d in w.dirs && s != vm.status ==> d in r.0.sidecars && "status" in r.0.sidecars[d] && r.0.sidecars[d]["status"] == VStr(s)
  {
  }

  /** Refreshing keeps files inside workspaces and rows in known states. */
  lemma UpdateVmStatusKeepsInvariants(w: World, vm: Vm, user: User, status: ToolRun, stamp: string)
    requires WorkspacesValid(w) && StatusesKnown(w)
    ensures WorkspacesValid(UpdateVmStatus(w, vm, user, status, stamp).0)
    ensures StatusesKnown(UpdateVmStatus(w, vm, user, status, stamp).0)
  {
  }
}
