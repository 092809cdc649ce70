/** The resource monitor: threshold alerts over a host sample, per-VM usage
    figures read from the workspace sidecar, the fixed-shape metric batches
    written to the metrics table, the newest-first history query and the
    retention sweep. Host sampling itself is an input: a map from metric key
    to reading, empty when sampling failed. Python's rendering of a float in
    a message is the parameter `show`. */
module Monitor {
  import opened Wrappers
  import opened Records
  import opened Seqs
  import VmManager

  const SecondsPerDay := 86400

  /** A host or VM sample: metric key to reading. */
  type Sample = map<string, real>

  /** `metrics.get(key, 0)` */
  function Reading(m: Sample, key: string): real {
    if key in m then m[key] else 0.0
  }

  // ---------------------------------------------------------------- thresholds

  datatype Resource = Cpu | Memory | Disk | Swap

  /** The order in which the thresholds are checked. */
  const CheckOrder: seq<Resource> := [Cpu, Memory, Disk, Swap]

  function SampleKey(res: Resource): string {
    match res
    case Cpu => "cpu_percent"
    case Memory => "memory_percent"
    case Disk => "disk_percent"
    case Swap => "swap_percent"
  }

  /** The inclusive alert thresholds, in percent. */
  function Threshold(res: Resource): real {
    match res
    case Cpu => 90.0
    case Memory => 85.0
    case Disk => 90.0
    case Swap => 50.0
  }

  /** The suffix of the event type: `system_high_<x>`. */
  function EventName(res: Resource): string {
    match res
    case Cpu => "high_cpu"
    case Memory => "high_memory"
    case Disk => "high_disk"
    case Swap => "high_swap"
  }

  function AlertLabel(res: Resource): string {
    match res
    case Cpu => "CPU"
    case Memory => "memory"
    case Disk => "disk"
    case Swap => "swap"
  }

  function EventLabel(res: Resource): string {
    match res
    case Cpu => "CPU"
    case Memory => "Memory"
    case Disk => "Disk"
    case Swap => "Swap"
  }

  predicate Breached(m: Sample, res: Resource) {
    Reading(m, SampleKey(res)) >= Threshold(res)
  }

  /** The alert line returned to the caller (it starts with a warning sign). */
  function AlertText(res: Resource, shown: string): string {
    "\U{26A0}\U{FE0F} High " + AlertLabel(res) + " usage: " + shown + "%"
  }

  function AlertMessage(res: Resource, shown: string): string {
    EventLabel(res) + " usage at " + shown + "%"
  }

  /** The details every alert event carries. */
  const AlertDetails: Details := map["source" := VStr("system_monitor")]

  /** `_log_alert_event`: a warning of type `system_high_<x>` with no user
      and no VM. */
  predicate IsAlertEvent(e: Event, res: Resource, shown: string, now: int) {
    && e.eventType == "system_" + EventName(res) && e.severity == "warning"
    && e.message == AlertMessage(res, shown) && e.details == AlertDetails
    && e.userId.None? && e.vmId.None? && e.createdAt == now
  }

  /** The alert line of a breached resource. */
  function AlertLine(m: Sample, res: Resource, show: real -> string): string {
    AlertText(res, show(Reading(m, SampleKey(res))))
  }

  /** `_log_alert_event` for a breached resource, under the id `id`. */
  function AlertEvent(m: Sample, res: Resource, show: real -> string, id: int, now: int): Event {
    Event(id, "system_" + EventName(res), "warning", AlertMessage(res, show(Reading(m, SampleKey(res)))),
          None, None, AlertDetails, now)
  }

  /** One threshold check: a breach appends the alert line and commits the
      alert event; otherwise nothing happens. */
  function CheckOne(db: Db, alerts: seq<string>, m: Sample, res: Resource, show: real -> string, now: int): (r: (Db, seq<string>))
    ensures Breached(m, res) ==> r.1 == alerts + [AlertLine(m, res, show)]
    ensures Breached(m, res) ==> r.0.events == db.events + [AlertEvent(m, res, show, db.nextEventId, now)]
    ensures Breached(m, res) ==> r.0.nextEventId == db.nextEventId + 1
    ensures r.0.users == db.users && r.0.vms == db.vms
    ensures !Breached(m, res) ==> r == (db, alerts)
  {
    if Breached(m, res) then
      var shown := show(Reading(m, SampleKey(res)));
      (AddEvent(db, "system_" + EventName(res), "warning", AlertMessage(res, shown), None, None, AlertDetails, now).0,
       alerts + [AlertText(res, shown)])
    else (db, alerts)
  }

  /** The checks of `rs`, one after another. */
  function CheckAll(db: Db, alerts: seq<string>, m: Sample, rs: seq<Resource>, show: real -> string, now: int): (r: (Db, seq<string>))
    ensures r.0.users == db.users && r.0.vms == db.vms
    ensures |alerts| <= |r.1| <= |alerts| + |rs| && r.1[..|alerts|] == alerts
    ensures |r.0.events| == |db.events| + (|r.1| - |alerts|) && r.0.events[..|db.events|] == db.events
    decreases |rs|
  {
    if |rs| == 0 then (db, alerts)
    else
      var st := CheckOne(db, alerts, m, rs[0], show, now);
      var rest := CheckAll(st.0, st.1, m, rs[1..], show, now);
      assert rest.1[..|alerts|] == rest.1[..|st.1|][..|alerts|];
      assert rest.0.events[..|db.events|] == rest.0.events[..|st.0.events|][..|db.events|];
      rest
  }

  /** The breached resources of `rs`, in order. */
  function Breaches(m: Sample, rs: seq<Resource>): (r: seq<Resource>)
    ensures |r| <= |rs|
    decreases |rs|
  {
    if |rs| == 0 then []
    else (if Breached(m, rs[0]) then [rs[0]] else []) + Breaches(m, rs[1..])
  }

  /** A resource is listed exactly when it is checked and breached. */
  lemma {:induction false} BreachesMembership(m: Sample, rs: seq<Resource>, res: Resource)
    ensures res in Breaches(m, rs) <==> res in rs && Breached(m, res)
    decreases |rs|
  {
    if |rs| > 0 {
      BreachesMembership(m, rs[1..], res);
      assert rs == [rs[0]] + rs[1..];
    }
  }

  /** The alert lines of the breached resources `b`, in order. */
  function AlertTexts(m: Sample, b: seq<Resource>, show: real -> string): (r: seq<string>)
    ensures |r| == |b|
    decreases |b|
  {
    if |b| == 0 then [] else [AlertLine(m, b[0], show)] + AlertTexts(m, b[1..], show)
  }

  /** The events of the breached resources `b`, numbered from `id`. */
  function AlertEvents(m: Sample, b: seq<Resource>, show: real -> string, id: int, now: int): (r: seq<Event>)
    ensures |r| == |b|
    decreases |b|
  {
    if |b| == 0 then [] else [AlertEvent(m, b[0], show, id, now)] + AlertEvents(m, b[1..], show, id + 1, now)
  }

  /** Each alert line names its resource and shows its reading. */
  lemma {:induction false} AlertTextsAt(m: Sample, b: seq<Resource>, show: real -> string, i: nat)
    requires i < |b|
    ensures AlertTexts(m, b, show)[i] == AlertText(b[i], show(Reading(m, SampleKey(b[i]))))
    decreases i
  {
    if i > 0 {
      AlertTextsAt(m, b[1..], show, i - 1);
    }
  }

  /** Each alert event is the warning of its resource, under consecutive ids. */
  lemma {:induction false} AlertEventsAt(m: Sample, b: seq<Resource>, show: real -> string, id: int, now: int, i: nat)
    requires i < |b|
    ensures var e := AlertEvents(m, b, show, id, now)[i];
      e.id == id + i && IsAlertEvent(e, b[i], show(Reading(m, SampleKey(b[i]))), now)
    decreases i
  {
    if i > 0 {
      AlertEventsAt(m, b[1..], show, id + 1, now, i - 1);
    }
  }

  lemma AlertTextsCons(m: Sample, x: Resource, b: seq<Resource>, show: real -> string)
    ensures AlertTexts(m, [x] + b, show) == [AlertLine(m, x, show)] + AlertTexts(m, b, show)
  {
    assert ([x] + b)[1..] == b;
  }

  lemma AlertEventsCons(m: Sample, x: Resource, b: seq<Resource>, show: real -> string, id: int, now: int)
    ensures AlertEvents(m, [x] + b, show, id, now) == [AlertEvent(m, x, show, id, now)] + AlertEvents(m, b, show, id + 1, now)
  {
    assert ([x] + b)[1..] == b;
  }

  lemma AppendAssoc<T>(a: seq<T>, b: seq<T>, c: seq<T>)
    ensures a + b + c == a + (b + c)
  {
  }

  /** Running the checks of `rs` appends the alert lines of the breached
      resources, in order. */
  lemma {:induction false} CheckAllAlerts(db: Db, alerts: seq<string>, m: Sample, rs: seq<Resource>, show: real -> string, now: int)
    ensures CheckAll(db, alerts, m, rs, show, now).1 == alerts + AlertTexts(m, Breaches(m, rs), show)
    decreases |rs|
  {
    if |rs| > 0 {
      var st := CheckOne(db, alerts, m, rs[0], show, now);
      var b := Breaches(m, rs[1..]);
      CheckAllAlerts(st.0, st.1, m, rs[1..], show, now);
      assert CheckAll(db, alerts, m, rs, show, now) == CheckAll(st.0, st.1, m, rs[1..], show, now);
      if !Breached(m, rs[0]) {
        assert Breaches(m, rs) == [] + b == b;
      } else {
        assert Breaches(m, rs) == [rs[0]] + b;
        AlertTextsCons(m, rs[0], b, show);
        AppendAssoc(alerts, [AlertLine(m, rs[0], show)], AlertTexts(m, b, show));
      }
    }
  }

  /** Running the checks of `rs` logs one event per breached resource, in
      order, under consecutive ids; users and VMs are untouched. */
  lemma {:induction false} CheckAllEvents(db: Db, alerts: seq<string>, m: Sample, rs: seq<Resource>, show: real -> string, now: int)
    ensures var r := CheckAll(db, alerts, m, rs, show, now).0;
      && r.events == db.events + AlertEvents(m, Breaches(m, rs), show, db.nextEventId, now)
      && r.nextEventId == db.nextEventId + |Breaches(m, rs)|
      && r.users == db.users && r.vms == db.vms
    decreases |rs|
  {
    if |rs| == 0 {
      assert db.events + [] == db.events;
    } else {
      var st := CheckOne(db, alerts, m, rs[0], show, now);
      var b := Breaches(m, rs[1..]);
      CheckAllEvents(st.0, st.1, m, rs[1..], show, now);
      assert CheckAll(db, alerts, m, rs, show, now) == CheckAll(st.0, st.1, m, rs[1..], show, now);
      if !Breached(m, rs[0]) {
        assert Breaches(m, rs) == [] + b == b;
      } else {
        assert Breaches(m, rs) == [rs[0]] + b;
        AlertEventsCons(m, rs[0], b, show, db.nextEventId, now);
        AppendAssoc(db.events, [AlertEvent(m, rs[0], show, db.nextEventId, now)], AlertEvents(m, b, show, db.nextEventId + 1, now));
      }
    }
  }

  /** `check_resource_thresholds`: cpu, memory, disk and swap in that order. */
  function CheckResourceThresholds(db: Db, m: Sample, show: real -> string, now: int): (r: (Db, seq<string>))
    ensures |r.1| == |r.0.events| - |db.events|
    ensures r.0.users == db.users && r.0.vms == db.vms
  {
    CheckAllAlerts(db, [], m, CheckOrder, show, now);
    CheckAllEvents(db, [], m, CheckOrder, show, now);
    CheckAll(db, [], m, CheckOrder, show, now)
  }

  /** An alert is raised exactly when some reading reaches its threshold; a
      missing reading counts as 0. */
  lemma CheckResourceThresholdsAlerts(db: Db, m: Sample, show: real -> string, now: int)
    ensures var r := CheckResourceThresholds(db, m, show, now);
      |r.1| > 0 <==> Reading(m, "cpu_percent") >= 90.0 || Reading(m, "memory_percent") >= 85.0
                     || Reading(m, "disk_percent") >= 90.0 || Reading(m, "swap_percent") >= 50.0
  {
    CheckAllAlerts(db, [], m, CheckOrder, show, now);
    CheckAllEvents(db, [], m, CheckOrder, show, now);
    var b := Breaches(m, CheckOrder);
    if |b| > 0 {
      assert b[0] in b;
      BreachesMembership(m, CheckOrder, b[0]);
    } else if exists res :: Breached(m, res) {
      var res :| Breached(m, res);
      BreachesMembership(m, CheckOrder, res);
    }
  }

  /** Every alert names a breached resource and shows its reading, in the
      fixed order of the checks. */
  lemma CheckResourceThresholdsLines(db: Db, m: Sample, show: real -> string, now: int)
    ensures var r := CheckResourceThresholds(db, m, show, now); var b := Breaches(m, CheckOrder);
      && |r.1| == |b|
      && forall i :: 0 <= i < |b| ==>
           Breached(m, b[i]) && r.1[i] == AlertText(b[i], show(Reading(m, SampleKey(b[i]))))
  {
    CheckAllAlerts(db, [], m, CheckOrder, show, now);
    var b := Breaches(m, CheckOrder);
    assert [] + AlertTexts(m, b, show) == AlertTexts(m, b, show);
    forall i | 0 <= i < |b|
      ensures Breached(m, b[i]) && AlertTexts(m, b, show)[i] == AlertText(b[i], show(Reading(m, SampleKey(b[i]))))
    {
      AlertTextsAt(m, b, show, i);
      assert b[i] in b;
      BreachesMembership(m, CheckOrder, b[i]);
    }
  }

  /** Each alert's event is appended after the existing log as a warning of
      type `system_high_<x>`, in the order of the alerts. */
  lemma CheckResourceThresholdsEvents(db: Db, m: Sample, show: real -> string, now: int)
    ensures var r := CheckResourceThresholds(db, m, show, now); var b := Breaches(m, CheckOrder);
      && |r.0.events| == |db.events| + |b| && r.0.events[..|db.events|] == db.events
      && forall i :: 0 <= i < |b| ==>
           IsAlertEvent(r.0.events[|db.events| + i], b[i], show(Reading(m, SampleKey(b[i]))), now)
  {
    CheckAllEvents(db, [], m, CheckOrder, show, now);
    var b := Breaches(m, CheckOrder);
    var e := AlertEvents(m, b, show, db.nextEventId, now);
    assert (db.events + e)[..|db.events|] == db.events;
    forall i | 0 <= i < |b|
      ensures IsAlertEvent((db.events + e)[|db.events| + i], b[i], show(Reading(m, SampleKey(b[i]))), now)
    {
      AlertEventsAt(m, b, show, db.nextEventId, now, i);
      assert (db.events + e)[|db.events| + i] == e[i];
    }
  }

  // ---------------------------------------------------------------- VM usage

  /** A JSON value as Python arithmetic sees it: numbers and booleans are
      numeric, anything else makes `round` or `>` raise. */
  function AsNumber(v: Value): Option<real> {
    match v
    case VInt(i) => Some(i as real)
    case VReal(x) => Some(x)
    case VBool(b) => Some(if b then 1.0 else 0.0)
    case VNull => None
    case VStr(_) => None
  }

  /** `vm_info.get(key, default)` followed by the arithmetic on it. */
  function InfoNumber(info: Details, key: string, default: real): Option<real> {
    if key in info then AsNumber(info[key]) else Some(default)
  }

  /** The percentages reported for a running VM without a usable sidecar. */
  const DefaultCpu := 15.0
  const DefaultMemory := 45.0
  const DefaultDisk := 30.0

  datatype Usage = Usage(cpu: real, memory: real, disk: real, rx: real, tx: real)

  /** The usage figures of `get_vm_metrics`: zero unless the VM is running;
      the simulated defaults when the sidecar is missing or empty; otherwise
      the sidecar's values with the defaults for missing keys. `None` when a
      sidecar value is not a number (the call then returns None). */
  function VmUsage(vm: Vm, info: Option<Details>): (r: Option<Usage>)
    ensures vm.status != "running" ==> r == Some(Usage(0.0, 0.0, 0.0, 0.0, 0.0))
    ensures vm.status == "running" && (info.None? || info.value == map[]) ==>
      r == Some(Usage(DefaultCpu, DefaultMemory, DefaultDisk, 0.0, 0.0))
    ensures vm.status == "running" && info.Some? && info.value != map[] ==>
      (r.Some? <==> forall k :: k in UsageKeys && k in info.value ==> AsNumber(info.value[k]).Some?)
  {
    if vm.status != "running" then Some(Usage(0.0, 0.0, 0.0, 0.0, 0.0))
    else if info.None? || info.value == map[] then Some(Usage(DefaultCpu, DefaultMemory, DefaultDisk, 0.0, 0.0))
    else
      var d := info.value;
      var cpu := InfoNumber(d, "cpu_percent", DefaultCpu);
      var mem := InfoNumber(d, "memory_percent", DefaultMemory);
      var disk := InfoNumber(d, "disk_percent", DefaultDisk);
      var rx := InfoNumber(d, "network_rx_mb", 0.0);
      var tx := InfoNumber(d, "network_tx_mb", 0.0);
      if cpu.Some? && mem.Some? && disk.Some? && rx.Some? && tx.Some? then
        Some(Usage(cpu.value, mem.value, disk.value, rx.value, tx.value))
      else None
  }

  /** The sidecar keys the usage figures are read from. */
  const UsageKeys: set<string> := {"cpu_percent", "memory_percent", "disk_percent", "network_rx_mb", "network_tx_mb"}

  /** `update_vm_resource_usage` on the sidecar map (None when the file is
      missing, which the call reports as failure). */
  function UpdateVmResourceUsage(info: Option<Details>, u: Usage, stamp: string): (r: Option<Details>)
    ensures info.None? <==> r.None?
    ensures r.Some? ==> r.value.Keys == info.value.Keys + UsageKeys + {"last_metrics_update"}
    ensures r.Some? ==> forall k :: k in info.value && k !in UsageKeys && k != "last_metrics_update" ==> r.value[k] == info.value[k]
  {
    match info
    case None => None
    case Some(d) =>
      Some(d["cpu_percent" := VReal(u.cpu)]["memory_percent" := VReal(u.memory)]["disk_percent" := VReal(u.disk)]
            ["network_rx_mb" := VReal(u.rx)]["network_tx_mb" := VReal(u.tx)]["last_metrics_update" := VStr(stamp)])
  }

  /** What `update_vm_resource_usage` writes is what `get_vm_metrics` then
      reads for a running VM. */
  lemma UpdateThenUsage(vm: Vm, info: Details, u: Usage, stamp: string)
    requires vm.status == "running"
    ensures VmUsage(vm, UpdateVmResourceUsage(Some(info), u, stamp)) == Some(u)
  {
    var d := UpdateVmResourceUsage(Some(info), u, stamp).value;
    assert "cpu_percent" in d;
    assert d != map[];
  }

  /** The usage dictionary of `get_vm_metrics`, without the rounding. */
  datatype VmMetrics = VmMetrics(
    vmId: int, vmName: string, vmStatus: string, ipAddress: Option<string>,
    ramAllocatedMb: int, diskAllocatedGb: int, cpuAllocatedCores: int,
    usage: Usage,
    memoryUsedMb: real, memoryAvailableMb: real,
    diskUsedGb: real, diskAvailableGb: real,
    uptimeSeconds: int, uptimeHours: real,
    timestamp: string)

  /** `(pct / 100) * total`, or 0 unless the percentage is positive. */
  function UsedOf(pct: real, total: int): (r: real)
    ensures pct <= 0.0 ==> r == 0.0
    ensures pct > 0.0 ==> r * 100.0 == pct * total as real
  {
    if pct > 0.0 then (pct / 100.0) * total as real else 0.0
  }

  /** `get_vm_metrics`. The sidecar is passed in as read from the workspace
      (`None` when missing or unreadable). */
  function GetVmMetrics(vm: Vm, info: Option<Details>, stamp: string): (r: Option<VmMetrics>)
    ensures r.Some? <==> VmUsage(vm, info).Some?
    ensures r.Some? ==> r.value.usage == VmUsage(vm, info).value
    ensures r.Some? ==> r.value.memoryUsedMb + r.value.memoryAvailableMb == vm.ramMb as real
    ensures r.Some? ==> r.value.diskUsedGb + r.value.diskAvailableGb == vm.diskGb as real
    ensures r.Some? ==> r.value.vmId == vm.id && r.value.ramAllocatedMb == vm.ramMb && r.value.uptimeSeconds == vm.uptimeSeconds
    ensures r.Some? && vm.status != "running" ==> r.value.memoryUsedMb == 0.0 && r.value.diskUsedGb == 0.0
  {
    match VmUsage(vm, info)
    case None => None
    case Some(u) =>
      var memUsed := UsedOf(u.memory, vm.ramMb);
      var diskUsed := UsedOf(u.disk, vm.diskGb);
      Some(VmMetrics(
        vm.id, vm.name, vm.status, vm.ipAddress,
        vm.ramMb, vm.diskGb, vm.cpuCores,
        u,
        memUsed, vm.ramMb as real - memUsed,
        diskUsed, vm.diskGb as real - diskUsed,
        vm.uptimeSeconds, if vm.uptimeSeconds != 0 then vm.uptimeSeconds as real / 3600.0 else 0.0,
        stamp))
  }

  /** The dictionary `get_vm_metrics` hands to `store_vm_metrics`, numeric
      entries only. */
  function VmMetricsSample(x: VmMetrics): Sample {
    map["cpu_percent" := x.usage.cpu, "memory_percent" := x.usage.memory, "disk_percent" := x.usage.disk,
        "memory_used_mb" := x.memoryUsedMb, "disk_used_gb" := x.diskUsedGb,
        "network_rx_mb" := x.usage.rx, "network_tx_mb" := x.usage.tx,
        "uptime_seconds" := x.uptimeSeconds as real]
  }

  // ---------------------------------------------------------------- batches

  /** One row of a batch: stored name, key read from the sample, unit. */
  datatype Series = Series(name: string, key: string, unit: string)

  const HostSeries: seq<Series> := [
    Series("host_cpu_percent", "cpu_percent", "%"),
    Series("host_memory_percent", "memory_percent", "%"),
    Series("host_disk_percent", "disk_percent", "%"),
    Series("host_memory_used_gb", "memory_used_gb", "GB"),
    Series("host_disk_used_gb", "disk_used_gb", "GB"),
    Series("host_net_send_speed", "net_send_speed_mbps", "MB/s"),
    Series("host_net_recv_speed", "net_recv_speed_mbps", "MB/s")]

  const VmSeries: seq<Series> := [
    Series("vm_cpu_percent", "cpu_percent", "%"),
    Series("vm_memory_percent", "memory_percent", "%"),
    Series("vm_disk_percent", "disk_percent", "%"),
    Series("vm_memory_used_mb", "memory_used_mb", "MB"),
    Series("vm_disk_used_gb", "disk_used_gb", "GB"),
    Series("vm_network_rx_mb", "network_rx_mb", "MB"),
    Series("vm_network_tx_mb", "network_tx_mb", "MB"),
    Series("vm_uptime", "uptime_seconds", "seconds")]

  /** The samples of one batch, each reading its key (0 when missing). */
  function Batch(series: seq<Series>, m: Sample, vmId: Option<int>, now: int): (r: seq<Metric>)
    ensures |r| == |series|
    ensures forall i :: 0 <= i < |r| ==>
      r[i] == Metric(series[i].name, Reading(m, series[i].key), series[i].unit, vmId, now)
  {
    seq(|series|, i requires 0 <= i < |series| => Metric(series[i].name, Reading(m, series[i].key), series[i].unit, vmId, now))
  }

  /** `store_host_metrics`: seven host samples (no VM) appended. */
  function StoreHostMetrics(metrics: seq<Metric>, m: Sample, now: int): (r: seq<Metric>)
    ensures |r| == |metrics| + 7 && r[..|metrics|] == metrics
    ensures forall i :: |metrics| <= i < |r| ==> r[i].vmId.None? && r[i].timestamp == now
  {
    var b := Batch(HostSeries, m, None, now);
    assert (metrics + b)[..|metrics|] == metrics;
    metrics + b
  }

  /** `store_vm_metrics`: eight samples of the VM appended. */
  function StoreVmMetrics(metrics: seq<Metric>, vm: Vm, m: Sample, now: int): (r: seq<Metric>)
    ensures |r| == |metrics| + 8 && r[..|metrics|] == metrics
    ensures forall i :: |metrics| <= i < |r| ==> r[i].vmId == Some(vm.id) && r[i].timestamp == now
  {
    var b := Batch(VmSeries, m, Some(vm.id), now);
    assert (metrics + b)[..|metrics|] == metrics;
    metrics + b
  }

  /** Every series name of a batch occurs once. */
  lemma SeriesNamesDistinct()
    ensures forall i, j :: 0 <= i < j < |HostSeries| ==> HostSeries[i].name != HostSeries[j].name
    ensures forall i, j :: 0 <= i < j < |VmSeries| ==> VmSeries[i].name != VmSeries[j].name
  {
  }

  // ---------------------------------------------------------------- history

  /** `ORDER BY timestamp DESC` as a total preorder. */
  predicate NewerFirst(a: Metric, b: Metric) {
    a.timestamp >= b.timestamp
  }

  lemma NewerFirstTotal()
    ensures TotalPreorder(NewerFirst)
  {
  }

  /** The filter of `get_historical_metrics`: the name, and the VM (or the
      host samples when no VM is given). */
  function SeriesOf(name: string, vmId: Option<int>): Metric -> bool {
    (x: Metric) => x.name == name && x.vmId == vmId
  }

  /** `get_historical_metrics`: the newest `limit` samples of one series. */
  function GetHistoricalMetrics(metrics: seq<Metric>, name: string, vmId: Option<int>, limit: nat): (r: seq<Metric>)
    ensures |r| <= limit
    ensures forall i :: 0 <= i < |r| ==> r[i].name == name && r[i].vmId == vmId
  {
    NewerFirstTotal();
    var r := Take(Sort(Filter(metrics, SeriesOf(name, vmId)), NewerFirst), limit);
    forall i | 0 <= i < |r| ensures r[i].name == name && r[i].vmId == vmId {
      var s := Sort(Filter(metrics, SeriesOf(name, vmId)), NewerFirst);
      assert r[i] == s[i];
      assert s[i] in multiset(s);
      assert s[i] in Filter(metrics, SeriesOf(name, vmId));
    }
    r
  }

  /** The history is newest first and drawn from the table. */
  lemma GetHistoricalMetricsSound(metrics: seq<Metric>, name: string, vmId: Option<int>, limit: nat)
    ensures var r := GetHistoricalMetrics(metrics, name, vmId, limit);
      SortedBy(r, NewerFirst) && multiset(r) <= multiset(metrics)
  {
    var s := Filter(metrics, SeriesOf(name, vmId));
    FilterMultiset(metrics, SeriesOf(name, vmId));
    NewerFirstTotal();
    TakePrefix(Sort(s, NewerFirst), limit, NewerFirst);
  }

  /** No sample of the series is left out while a place is free, nor one
      newer than the last listed. */
  lemma GetHistoricalMetricsComplete(metrics: seq<Metric>, name: string, vmId: Option<int>, limit: nat, x: Metric)
    requires x in metrics && x.name == name && x.vmId == vmId
    requires x !in GetHistoricalMetrics(metrics, name, vmId, limit)
    ensures var r := GetHistoricalMetrics(metrics, name, vmId, limit);
      |r| == limit && (limit > 0 ==> r[|r| - 1].timestamp >= x.timestamp)
  {
    NewerFirstTotal();
    FilterMembership(metrics, SeriesOf(name, vmId), x);
    TopOmits(Filter(metrics, SeriesOf(name, vmId)), NewerFirst, limit, x);
  }

  /** The head of a newest-first list is at least as new as any member. */
  lemma HeadIsNewest(q: seq<Metric>, x: Metric)
    requires SortedBy(q, NewerFirst) && x in q
    ensures q[0].timestamp >= x.timestamp
  {
    var j :| 0 <= j < |q| && q[j] == x;
    if j > 0 {
      assert NewerFirst(q[0], q[j]);
    }
  }

  /** Of a host batch, only the first sample is the CPU series. */
  lemma HostBatchCpuFirst(m: Sample, now: int, k: nat)
    requires k < |HostSeries| && HostSeries[k].name == "host_cpu_percent"
    ensures k == 0
  {
  }

  /** A sample newer than every other sample of its series heads the
      history of that series. */
  lemma NewestHeadsHistory(t: seq<Metric>, x: Metric, limit: nat)
    requires limit > 0 && x in t
    requires forall y :: y in t && y.name == x.name && y.vmId == x.vmId && y.timestamp >= x.timestamp ==> y == x
    ensures var r := GetHistoricalMetrics(t, x.name, x.vmId, limit); |r| > 0 && r[0] == x
  {
    var p := SeriesOf(x.name, x.vmId);
    var s := Filter(t, p);
    NewerFirstTotal();
    var q := Sort(s, NewerFirst);
    FilterMembership(t, p, x);
    assert x in multiset(q);
    HeadIsNewest(q, x);
    assert q[0] in multiset(s);
    FilterMembership(t, p, q[0]);
  }

  /** After a host batch stored at a time later than every stored sample, the
      newest CPU sample of the host is the one just stored. */
  lemma StoreHostThenHistory(metrics: seq<Metric>, m: Sample, now: int, limit: nat)
    requires forall i :: 0 <= i < |metrics| ==> metrics[i].timestamp < now
    requires limit > 0
    ensures var r := GetHistoricalMetrics(StoreHostMetrics(metrics, m, now), "host_cpu_percent", None, limit);
      |r| > 0 && r[0] == Metric("host_cpu_percent", Reading(m, "cpu_percent"), "%", None, now)
  {
    var batch := Batch(HostSeries, m, None, now);
    var t := metrics + batch;
    var stored := batch[0];
    assert t[|metrics|] == stored;
    forall y | y in t && y.name == stored.name && y.vmId == stored.vmId && y.timestamp >= stored.timestamp
      ensures y == stored
    {
      var k :| 0 <= k < |t| && t[k] == y;
      assert k >= |metrics|;
      assert batch[k - |metrics|] == y;
      HostBatchCpuFirst(m, now, k - |metrics|);
    }
    NewestHeadsHistory(t, stored, limit);
  }

  // ---------------------------------------------------------------- retention

  /** The start of the retention window, `days` days before `now`. */
  function Cutoff(days: int, now: int): int {
    now - days * SecondsPerDay
  }

  function OlderThan(cutoff: int): Metric -> bool {
    (x: Metric) => x.timestamp < cutoff
  }

  function NotOlderThan(cutoff: int): Metric -> bool {
    (x: Metric) => x.timestamp >= cutoff
  }

  function AnyMetric(): Metric -> bool {
    (x: Metric) => true
  }

  /** The samples dropped and the samples kept add up to the table. */
  lemma CutoffSplits(metrics: seq<Metric>, cutoff: int)
    ensures |Filter(metrics, OlderThan(cutoff))| + |Filter(metrics, NotOlderThan(cutoff))| == |metrics|
  {
    FilterDisjointUnion(metrics, OlderThan(cutoff), NotOlderThan(cutoff), AnyMetric());
    FilterAll(metrics, AnyMetric());
  }

  /** `cleanup_old_metrics`: drops the samples older than `days` days and
      returns the table left and the number dropped. */
  function CleanupOldMetrics(metrics: seq<Metric>, days: int, now: int): (r: (seq<Metric>, nat))
    ensures forall x :: x in r.0 <==> x in metrics && x.timestamp >= Cutoff(days, now)
    ensures r.1 + |r.0| == |metrics|
  {
    var cutoff := Cutoff(days, now);
    var kept := Filter(metrics, NotOlderThan(cutoff));
    forall x ensures x in kept <==> x in metrics && x.timestamp >= cutoff {
      FilterMembership(metrics, NotOlderThan(cutoff), x);
    }
    CutoffSplits(metrics, cutoff);
    (kept, |Filter(metrics, OlderThan(cutoff))|)
  }

  /** The count returned is the number of samples older than the cut-off,
      and the table keeps its order. */
  lemma CleanupCount(metrics: seq<Metric>, days: int, now: int)
    ensures var r := CleanupOldMetrics(metrics, days, now);
      r.1 == |Filter(metrics, OlderThan(Cutoff(days, now)))|
      && r.0 == Filter(metrics, NotOlderThan(Cutoff(days, now)))
  {
  }

  /** Cleaning up twice with the same cut-off drops nothing the second time. */
  lemma CleanupIdempotent(metrics: seq<Metric>, days: int, now: int)
    ensures var once := CleanupOldMetrics(metrics, days, now).0;
      CleanupOldMetrics(once, days, now) == (once, 0)
  {
    var cutoff := Cutoff(days, now);
    var once := CleanupOldMetrics(metrics, days, now).0;
    forall i | 0 <= i < |once| ensures once[i].timestamp >= cutoff {
      assert once[i] in once;
    }
    FilterAll(once, NotOlderThan(cutoff));
    FilterNone(once, OlderThan(cutoff));
    var twice := CleanupOldMetrics(once, days, now);
    assert twice.0 == Filter(once, NotOlderThan(cutoff));
    assert twice.1 == |Filter(once, OlderThan(cutoff))|;
  }

  // ---------------------------------------------------------------- collection

  /** The metrics table and the database the collector writes to. */
  datatype Tables = Tables(db: Db, metrics: seq<Metric>)

  /** The ids of the running VMs of `vms`. */
  function RunningIds(vms: seq<Vm>): set<int>
    decreases |vms|
  {
    if |vms| == 0 then {}
    else (if vms[0].status == "running" then {vms[0].id} else {}) + RunningIds(vms[1..])
  }

  /** A running VM of the list is a running VM row of the table the list
      was read from. */
  lemma {:induction false} RunningIdsInTable(vms: seq<Vm>, table: map<int, Vm>, id: int)
    requires RowsOf(vms, table)
    requires id in RunningIds(vms)
    ensures id in table && table[id].status == "running"
    decreases |vms|
  {
    if vms[0].status == "running" && id == vms[0].id {
    } else {
      assert RowsOf(vms[1..], table) by {
        forall i | 0 <= i < |vms[1..]| ensures vms[1..][i].id in table && table[vms[1..][i].id] == vms[1..][i] {
          assert vms[1..][i] == vms[i + 1];
        }
      }
      RunningIdsInTable(vms[1..], table, id);
    }
  }

  /** Every element of `vms` is the row of `table` under its own id. */
  predicate RowsOf(vms: seq<Vm>, table: map<int, Vm>) {
    forall i :: 0 <= i < |vms| ==> vms[i].id in table && table[vms[i].id] == vms[i]
  }

  /** `vms` is the VM table read in row order: every element is the row under
      its own id, and every row appears. */
  predicate ListsTable(vms: seq<Vm>, table: map<int, Vm>) {
    && RowsOf(vms, table)
    && (forall k :: k in table ==> table[k] in vms)
  }

  /** The sidecar of a VM's workspace, when there is one. */
  function SidecarOf(vm: Vm, sidecars: map<string, Details>): Option<Details> {
    var dir := VmManager.VmDir(vm.name, vm.ownerId);
    if dir in sidecars then Some(sidecars[dir]) else None
  }

  /** One step of the collector's VM loop: a running VM whose usage can be
      computed gets its batch stored; any other VM adds nothing. */
  function StoreIfRunning(metrics: seq<Metric>, vm: Vm, sidecars: map<string, Details>, stamp: string, now: int): (r: seq<Metric>)
    ensures |r| >= |metrics| && r[..|metrics|] == metrics
    ensures vm.status != "running" ==> r == metrics
    ensures forall i :: |metrics| <= i < |r| ==> r[i].vmId == Some(vm.id) && r[i].timestamp == now
  {
    if vm.status != "running" then metrics
    else
      match GetVmMetrics(vm, SidecarOf(vm, sidecars), stamp)
      case None => metrics
      case Some(x) => StoreVmMetrics(metrics, vm, VmMetricsSample(x), now)
  }

  /** The collector's VM loop over `vms`, in order. */
  function VmBatches(metrics: seq<Metric>, vms: seq<Vm>, sidecars: map<string, Details>, stamp: string, now: int): (r: seq<Metric>)
    ensures |r| >= |metrics| && r[..|metrics|] == metrics
    ensures forall i :: |metrics| <= i < |r| ==> r[i].timestamp == now && r[i].vmId.Some?
    decreases |vms|
  {
    if |vms| == 0 then metrics
    else
      var s := StoreIfRunning(metrics, vms[0], sidecars, stamp, now);
      var rest := VmBatches(s, vms[1..], sidecars, stamp, now);
      assert rest[..|metrics|] == rest[..|s|][..|metrics|];
      assert forall i :: |metrics| <= i < |s| ==> rest[i] == rest[..|s|][i];
      rest
  }

  /** The loop keeps what was stored before it, and every sample it adds
      belongs to a running VM of the table and is stamped with the
      collection time. */
  lemma {:induction false} VmBatchesOnlyRunning(metrics: seq<Metric>, vms: seq<Vm>, sidecars: map<string, Details>, stamp: string, now: int)
    ensures var r := VmBatches(metrics, vms, sidecars, stamp, now);
      && |r| >= |metrics| && r[..|metrics|] == metrics
      && forall i :: |metrics| <= i < |r| ==>
           r[i].timestamp == now && r[i].vmId.Some? && r[i].vmId.value in RunningIds(vms)
    decreases |vms|
  {
    if |vms| > 0 {
      var s := StoreIfRunning(metrics, vms[0], sidecars, stamp, now);
      VmBatchesOnlyRunning(s, vms[1..], sidecars, stamp, now);
      var r := VmBatches(s, vms[1..], sidecars, stamp, now);
      assert r[..|metrics|] == r[..|s|][..|metrics|];
      forall i | |metrics| <= i < |r|
        ensures r[i].timestamp == now && r[i].vmId.Some? && r[i].vmId.value in RunningIds(vms)
      {
        if i < |s| {
          assert r[i] == r[..|s|][i];
        }
      }
    }
  }

  /** `collect_and_store_all_metrics`. `host` is the host sample (empty when
      sampling failed); `vms` is the VM table in row order and `sidecars` the
      workspace sidecars. An empty sample changes nothing and yields
      `({}, [])`. */
  function CollectAndStoreAllMetrics(
    t: Tables, host: Sample, vms: seq<Vm>, sidecars: map<string, Details>,
    show: real -> string, stamp: string, now: int): (r: (Tables, Sample, seq<string>))
    requires ListsTable(vms, t.db.vms)
    ensures host == map[] ==> r == (t, map[], [])
    ensures host != map[] ==> r.1 == host && r.2 == CheckResourceThresholds(t.db, host, show, now).1
    ensures host != map[] ==> r.0.db == CheckResourceThresholds(t.db, host, show, now).0
  {
    if host == map[] then (t, map[], [])
    else
      var checked := CheckResourceThresholds(t.db, host, show, now);
      var metrics := VmBatches(StoreHostMetrics(t.metrics, host, now), vms, sidecars, stamp, now);
      (Tables(checked.0, metrics), host, checked.1)
  }

  /** A non-empty collection first stores the host batch, then only samples of
      running VMs, all stamped with the collection time. */
  lemma CollectStoresHostThenRunning(
    t: Tables, host: Sample, vms: seq<Vm>, sidecars: map<string, Details>,
    show: real -> string, stamp: string, now: int)
    requires ListsTable(vms, t.db.vms)
    requires host != map[]
    ensures var r := CollectAndStoreAllMetrics(t, host, vms, sidecars, show, stamp, now).0.metrics;
      && |r| >= |t.metrics| + 7 && r[..|t.metrics|] == t.metrics
      && (forall i :: |t.metrics| <= i < |t.metrics| + 7 ==> r[i].vmId.None? && r[i].timestamp == now)
      && (forall i :: |t.metrics| + 7 <= i < |r| ==>
            r[i].timestamp == now && r[i].vmId.Some? && r[i].vmId.value in RunningIds(vms))
    ensures var r := CollectAndStoreAllMetrics(t, host, vms, sidecars, show, stamp, now).0.metrics;
      forall i :: |t.metrics| + 7 <= i < |r| ==>
        r[i].vmId.Some? && r[i].vmId.value in t.db.vms && t.db.vms[r[i].vmId.value].status == "running"
  {
    var m1 := StoreHostMetrics(t.metrics, host, now);
    var r := VmBatches(m1, vms, sidecars, stamp, now);
    VmBatchesOnlyRunning(m1, vms, sidecars, stamp, now);
    assert r[..|t.metrics|] == r[..|m1|][..|t.metrics|];
    forall i | |t.metrics| <= i < |t.metrics| + 7 ensures r[i].vmId.None? && r[i].timestamp == now {
      assert r[i] == r[..|m1|][i];
    }
    forall i | |t.metrics| + 7 <= i < |r|
      ensures r[i].vmId.Some? && r[i].vmId.value in t.db.vms && t.db.vms[r[i].vmId.value].status == "running"
    {
      RunningIdsInTable(vms, t.db.vms, r[i].vmId.value);
    }
  }
}
