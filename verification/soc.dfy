/** The security operations centre: the append-only event log, the fixed
    severity rules of the VM lifecycle and SSH wrappers, brute-force
    correlation over a trailing window, and the newest-first queries and
    statistics that read the log. */
module Soc {
  import opened Wrappers
  import opened Records
  import opened Seqs
  import opened Text

  const SecondsPerMinute := 60
  const SecondsPerHour := 3600

  // ---------------------------------------------------------------- logging

  /** Appends one event; absent (or empty) details are stored as `{}`. */
  function LogEvent(
    db: Db, eventType: string, severity: string, message: string,
    userId: Option<int>, vmId: Option<int>, details: Option<Details>, now: int): (r: (Db, Event))
    ensures r.0.events == db.events + [r.1]
    ensures r.0.users == db.users && r.0.vms == db.vms
    ensures r.1.eventType == eventType && r.1.severity == severity && r.1.message == message
    ensures r.1.userId == userId && r.1.vmId == vmId && r.1.createdAt == now
    ensures details.None? ==> r.1.details == map[]
    ensures details.Some? ==> r.1.details == details.value
    ensures EventIdsValid(db) ==> EventIdsValid(r.0)
  {
    AddEvent(db, eventType, severity, message, userId, vmId, details.GetOr(map[]), now)
  }

  /** The four lifecycle wrappers of the VM log. */
  datatype Lifecycle = Created | Started | Stopped | Destroyed

  function LifecycleVerb(a: Lifecycle): string {
    match a
    case Created => "created"
    case Started => "started"
    case Stopped => "stopped"
    case Destroyed => "destroyed"
  }

  /** The keys each wrapper fills in before the caller's details are merged. */
  function LifecycleDefaults(a: Lifecycle, vm: Vm, user: User): Details {
    match a
    case Created =>
      map["vm_name" := VStr(vm.name), "vm_id" := VInt(vm.id), "os_type" := VStr(vm.osType),
          "ram_mb" := VInt(vm.ramMb), "disk_gb" := VInt(vm.diskGb),
          "cpu_cores" := VInt(vm.cpuCores), "user" := VStr(user.username)]
    case Started =>
      map["vm_name" := VStr(vm.name), "vm_id" := VInt(vm.id),
          "ip_address" := OptStrValue(vm.ipAddress), "user" := VStr(user.username),
          "action" := VStr("start")]
    case Stopped =>
      map["vm_name" := VStr(vm.name), "vm_id" := VInt(vm.id),
          "uptime_seconds" := VInt(vm.uptimeSeconds), "user" := VStr(user.username),
          "action" := VStr("stop")]
    case Destroyed =>
      map["vm_name" := VStr(vm.name), "vm_id" := VInt(vm.id), "user" := VStr(user.username),
          "action" := VStr("destroy"), "total_uptime" := VInt(vm.uptimeSeconds)]
  }

  /** `event_details.update(details)` when the caller's details are truthy. */
  function MergeDetails(defaults: Details, details: Option<Details>): (r: Details)
    ensures r.Keys == defaults.Keys + (if details.Some? then details.value.Keys else {})
    ensures details.Some? ==> forall k :: k in details.value ==> r[k] == details.value[k]
    ensures forall k :: k in defaults && (details.None? || k !in details.value) ==> r[k] == defaults[k]
  {
    match details
    case Some(d) => defaults + d
    case None => defaults
  }

  /** `log_vm_created`, `log_vm_started`, `log_vm_stopped`, `log_vm_destroyed`:
      a "vm" event owned by the user and the VM; creation, start and stop are
      informational, destruction is a warning; the caller's details override
      the default keys. */
  function LogVmLifecycle(db: Db, a: Lifecycle, vm: Vm, user: User, details: Option<Details>, now: int): (r: (Db, Event))
    ensures r.0.events == db.events + [r.1]
    ensures r.1.eventType == "vm"
    ensures r.1.severity == (if a == Destroyed then "warning" else "info")
    ensures r.1.userId == Some(user.id) && r.1.vmId == Some(vm.id)
    ensures "vm_name" in r.1.details && "user" in r.1.details
    ensures details.Some? ==> forall k :: k in details.value ==> k in r.1.details && r.1.details[k] == details.value[k]
    ensures details.None? ==> r.1.details == LifecycleDefaults(a, vm, user)
  {
    var message := "VM '" + vm.name + "' " + LifecycleVerb(a) + " by user '" + user.username + "'";
    var severity := if a == Destroyed then "warning" else "info";
    LogEvent(db, "vm", severity, message, Some(user.id), Some(vm.id),
             Some(MergeDetails(LifecycleDefaults(a, vm, user), details)), now)
  }

  /** `log_vm_error`: a critical "vm" event; the VM id is optional. */
  function LogVmError(
    db: Db, vmName: string, user: User, errorMessage: string,
    vmId: Option<int>, details: Option<Details>, now: int): (r: (Db, Event))
    ensures r.0.events == db.events + [r.1]
    ensures r.1.eventType == "vm" && r.1.severity == "critical"
    ensures r.1.userId == Some(user.id) && r.1.vmId == vmId
    ensures details.None? || "error" !in details.value ==>
              "error" in r.1.details && r.1.details["error"] == VStr(errorMessage)
  {
    var message := "VM '" + vmName + "' encountered error: " + errorMessage;
    var defaults := map["vm_name" := VStr(vmName), "error" := VStr(errorMessage), "user" := VStr(user.username)];
    LogEvent(db, "vm", "critical", message, Some(user.id), vmId, Some(MergeDetails(defaults, details)), now)
  }

  /** `log_system_event`: a "system" event with no user and no VM. */
  function LogSystemEvent(db: Db, severity: string, message: string, details: Option<Details>, now: int): (r: (Db, Event))
    ensures r.0.events == db.events + [r.1]
    ensures r.1.eventType == "system" && r.1.severity == severity
    ensures r.1.userId.None? && r.1.vmId.None?
  {
    LogEvent(db, "system", severity, message, None, None, details, now)
  }

  // ---------------------------------------------------------------- SSH

  /** `log_ssh_attempt`: nothing is logged for an unknown VM; otherwise a
      "security" event owned by the VM's owner, informational on success and a
      warning on failure, whose details record the outcome. */
  function LogSshAttempt(
    db: Db, vmId: int, success: bool, username: string, ipAddress: string,
    details: Option<Details>, now: int): (r: (Db, Option<Event>))
    ensures r.1.None? <==> vmId !in db.vms
    ensures r.1.None? ==> r.0 == db
    ensures r.1.Some? ==> && r.0.events == db.events + [r.1.value]
                          && r.1.value.eventType == "security"
                          && r.1.value.severity == (if success then "info" else "warning")
                          && r.1.value.userId == Some(db.vms[vmId].ownerId)
                          && r.1.value.vmId == Some(vmId)
    ensures r.1.Some? && (details.None? || "success" !in details.value) ==>
              "success" in r.1.value.details && r.1.value.details["success"] == VBool(success)
  {
    if vmId !in db.vms then (db, None)
    else
      var vm := db.vms[vmId];
      var severity := if success then "info" else "warning";
      var status := if success then "Successful" else "Failed";
      var message := status + " SSH login attempt on VM '" + vm.name + "' (user: " + username
                     + ", from: " + ipAddress + ")";
      var defaults := map["vm_name" := VStr(vm.name), "vm_id" := VInt(vmId), "ssh_username" := VStr(username),
                          "source_ip" := VStr(ipAddress), "success" := VBool(success),
                          "attempt_type" := VStr("ssh")];
      var (db', e) := LogEvent(db, "security", severity, message, Some(vm.ownerId), Some(vmId),
                               Some(MergeDetails(defaults, details)), now);
      (db', Some(e))
  }

  /** The failed-login flag the brute-force query looks for in `details`. */
  predicate FailedFlag(e: Event) {
    "success" in e.details && e.details["success"] == VBool(false)
  }

  /** One failed SSH attempt on `vmId` no earlier than `cutoff`. */
  predicate IsFailedSsh(vmId: int, cutoff: int, e: Event) {
    && e.vmId == Some(vmId)
    && e.eventType == "security"
    && e.severity == "warning"
    && e.createdAt >= cutoff
    && FailedFlag(e)
  }

  /** The number of failed attempts on the VM in the window: zero exactly
      when the log holds none. */
  function FailedSshCount(events: seq<Event>, vmId: int, cutoff: int): (r: nat)
    ensures r <= |events|
    ensures r == 0 <==> forall i :: 0 <= i < |events| ==> !IsFailedSsh(vmId, cutoff, events[i])
  {
    var p := e => IsFailedSsh(vmId, cutoff, e);
    var f := Filter(events, p);
    assert |f| == 0 <==> forall i :: 0 <= i < |events| ==> !IsFailedSsh(vmId, cutoff, events[i]) by {
      forall i | 0 <= i < |events| && IsFailedSsh(vmId, cutoff, events[i]) ensures |f| > 0 {
        FilterMembership(events, p, events[i]);
      }
      if |f| > 0 {
        FilterMembership(events, p, f[0]);
      }
    }
    |f|
  }

  datatype BruteForce = BruteForce(db: Db, isAttack: bool, failedAttempts: nat)

  /** `detect_brute_force`: counts failed attempts in the trailing window and,
      when the count reaches the threshold on an existing VM, appends exactly
      one critical alert. */
  function DetectBruteForce(db: Db, vmId: int, windowMinutes: int, threshold: int, now: int): (r: BruteForce)
    ensures r.failedAttempts == FailedSshCount(db.events, vmId, now - windowMinutes * SecondsPerMinute)
    ensures r.isAttack <==> r.failedAttempts >= threshold
    ensures r.db.users == db.users && r.db.vms == db.vms
    ensures !(r.isAttack && vmId in db.vms) ==> r.db == db
    ensures r.isAttack && vmId in db.vms ==>
              && |r.db.events| == |db.events| + 1
              && r.db.events[..|db.events|] == db.events
              && r.db.events[|db.events|].severity == "critical"
              && r.db.events[|db.events|].eventType == "security"
              && r.db.events[|db.events|].userId == Some(db.vms[vmId].ownerId)
  {
    var count := FailedSshCount(db.events, vmId, now - windowMinutes * SecondsPerMinute);
    var isAttack := count >= threshold;
    if isAttack && vmId in db.vms then
      var vm := db.vms[vmId];
      var message := "Potential SSH brute force attack detected on VM '" + vm.name + "' ("
                     + NatToString(count) + " failed attempts in " + IntToString(windowMinutes) + " minutes)";
      var details := map["attack_type" := VStr("brute_force"), "failed_attempts" := VInt(count),
                         "time_window_minutes" := VInt(windowMinutes)];
      var (db', _) := LogEvent(db, "security", "critical", message, Some(vm.ownerId), Some(vmId), Some(details), now);
      assert db'.events[..|db.events|] == db.events;
      BruteForce(db', true, count)
    else
      BruteForce(db, isAttack, count)
  }

  /** The alert the detector appends is critical, so no later count, over any
      window and any VM, includes it: the detector never feeds on itself. */
  lemma BruteForceAlertNotCounted(db: Db, vmId: int, windowMinutes: int, threshold: int, now: int, v: int, cutoff: int)
    ensures var r := DetectBruteForce(db, vmId, windowMinutes, threshold, now);
            FailedSshCount(r.db.events, v, cutoff) == FailedSshCount(db.events, v, cutoff)
  {
    var r := DetectBruteForce(db, vmId, windowMinutes, threshold, now);
    if r.db != db {
      var p := (e: Event) => IsFailedSsh(v, cutoff, e);
      var alert := r.db.events[|db.events|];
      assert r.db.events == db.events + [alert];
      FilterAppend(db.events, [alert], p);
      FilterNone([alert], p);
    }
  }

  /** Widening the window never lowers the count of failed attempts. */
  lemma FailedSshCountWindowMonotone(events: seq<Event>, vmId: int, wider: int, narrower: int)
    requires wider <= narrower
    ensures FailedSshCount(events, vmId, narrower) <= FailedSshCount(events, vmId, wider)
  {
    FilterMonotone(events, e => IsFailedSsh(vmId, narrower, e), e => IsFailedSsh(vmId, wider, e));
  }

  // ---------------------------------------------------------------- resource alerts

  /** Alerts at or above this value are critical. */
  const CriticalUsage: real := 95.0

  function ResourceAlertDetails(resourceType: string, currentValue: real, threshold: real): Details {
    map["resource_type" := VStr(resourceType), "current_value" := VReal(currentValue),
        "threshold" := VReal(threshold), "unit" := VStr("%")]
  }

  /** `log_resource_alert` as written. A truthy `vmId` naming no VM fails
      with Python's attribute error, because the VM's name is read before
      the code checks whether the VM was found. The rendered value and
      threshold (`{:.1f}` and `{}` formatting) are passed in as text. */
  function LogResourceAlert(
    db: Db, resourceType: string, currentValue: real, threshold: real, vmId: Option<int>,
    valueText: string, thresholdText: string, now: int): (r: Result<(Db, Event), string>)
    ensures r.Err? <==> vmId.Some? && vmId.value != 0 && vmId.value !in db.vms
    ensures r.Ok? ==> && r.value.0.events == db.events + [r.value.1]
                      && r.value.1.eventType == "system"
                      && (r.value.1.severity == "critical" <==> currentValue >= CriticalUsage)
                      && (r.value.1.severity == "warning" <==> currentValue < CriticalUsage)
                      && r.value.1.vmId == vmId
  {
    var severity := if currentValue >= CriticalUsage then "critical" else "warning";
    var details := ResourceAlertDetails(resourceType, currentValue, threshold);
    if vmId.Some? && vmId.value != 0 then
      if vmId.value !in db.vms then
        Err("'NoneType' object has no attribute 'name'")
      else
        var vm := db.vms[vmId.value];
        var message := "High " + resourceType + " usage on VM '" + vm.name + "': " + valueText
                       + "% (threshold: " + thresholdText + "%)";
        Ok(LogEvent(db, "system", severity, message, Some(vm.ownerId), vmId, Some(details), now))
    else
      var message := "High host " + resourceType + " usage: " + valueText + "% (threshold: " + thresholdText + "%)";
      Ok(LogEvent(db, "system", severity, message, None, vmId, Some(details), now))
  }

  /** `log_resource_alert` as its `vm.owner_id if vm else None` guard intends:
      an alert about a VM that is gone is still logged, with no owner and the
      VM id in place of its name. */
  function LogResourceAlertIntended(
    db: Db, resourceType: string, currentValue: real, threshold: real, vmId: Option<int>,
    valueText: string, thresholdText: string, now: int): (r: (Db, Event))
    ensures r.0.events == db.events + [r.1]
    ensures r.1.eventType == "system" && r.1.vmId == vmId
    ensures r.1.severity == "critical" <==> currentValue >= CriticalUsage
    ensures r.1.userId.Some? <==> vmId.Some? && vmId.value != 0 && vmId.value in db.vms
  {
    var severity := if currentValue >= CriticalUsage then "critical" else "warning";
    var details := ResourceAlertDetails(resourceType, currentValue, threshold);
    if vmId.Some? && vmId.value != 0 then
      var name := if vmId.value in db.vms then db.vms[vmId.value].name else "#" + IntToString(vmId.value);
      var owner := if vmId.value in db.vms then Some(db.vms[vmId.value].ownerId) else None;
      var message := "High " + resourceType + " usage on VM '" + name + "': " + valueText
                     + "% (threshold: " + thresholdText + "%)";
      LogEvent(db, "system", severity, message, owner, vmId, Some(details), now)
    else
      var message := "High host " + resourceType + " usage: " + valueText + "% (threshold: " + thresholdText + "%)";
      LogEvent(db, "system", severity, message, None, vmId, Some(details), now)
  }

  /** The input that shows the defect: an alert for VM 7 when no VM 7 exists. */
  lemma LogResourceAlertMissingVmFails(db: Db, valueText: string, thresholdText: string, now: int)
    requires 7 !in db.vms
    ensures LogResourceAlert(db, "cpu", 97.0, 90.0, Some(7), valueText, thresholdText, now).Err?
    ensures LogResourceAlertIntended(db, "cpu", 97.0, 90.0, Some(7), valueText, thresholdText, now).1.severity == "critical"
  {
  }

  /** Wherever the code as written succeeds, the intended version logs the same event. */
  lemma LogResourceAlertAgrees(
    db: Db, resourceType: string, currentValue: real, threshold: real, vmId: Option<int>,
    valueText: string, thresholdText: string, now: int)
    requires LogResourceAlert(db, resourceType, currentValue, threshold, vmId, valueText, thresholdText, now).Ok?
    ensures LogResourceAlert(db, resourceType, currentValue, threshold, vmId, valueText, thresholdText, now).value
         == LogResourceAlertIntended(db, resourceType, currentValue, threshold, vmId, valueText, thresholdText, now)
  {
  }

  // ---------------------------------------------------------------- queries

  /** `ORDER BY created_at DESC` as a total preorder. */
  predicate NewerFirst(a: Event, b: Event) {
    a.createdAt >= b.createdAt
  }

  lemma NewerFirstTotal()
    ensures TotalPreorder(NewerFirst)
  {
  }

  /** The filters of `get_recent_events`; a falsy filter (None, "" or 0) is
      not applied. */
  predicate RecentMatch(
    e: Event, cutoff: int, eventType: Option<string>, severity: Option<string>,
    userId: Option<int>, vmId: Option<int>)
  {
    && e.createdAt >= cutoff
    && (eventType.None? || eventType.value == "" || e.eventType == eventType.value)
    && (severity.None? || severity.value == "" || e.severity == severity.value)
    && (userId.None? || userId.value == 0 || e.userId == userId)
    && (vmId.None? || vmId.value == 0 || e.vmId == vmId)
  }

  /** The filter of `get_recent_events` as a predicate value. */
  function RecentFilter(
    cutoff: int, eventType: Option<string>, severity: Option<string>,
    userId: Option<int>, vmId: Option<int>): Event -> bool
  {
    e => RecentMatch(e, cutoff, eventType, severity, userId, vmId)
  }

  /** `get_recent_events`: the newest `limit` events of the window that match
      every truthy filter, newest first. */
  function GetRecentEvents(
    db: Db, limit: nat, eventType: Option<string>, severity: Option<string>,
    userId: Option<int>, vmId: Option<int>, hours: int, now: int): (r: seq<Event>)
    ensures |r| <= limit
  {
    NewerFirstTotal();
    var p := RecentFilter(now - hours * SecondsPerHour, eventType, severity, userId, vmId);
    Take(Sort(Filter(db.events, p), NewerFirst), limit)
  }

  /** Every recent event is a matching event of the log, and the list is
      newest first. */
  lemma GetRecentEventsSound(
    db: Db, limit: nat, eventType: Option<string>, severity: Option<string>,
    userId: Option<int>, vmId: Option<int>, hours: int, now: int)
    ensures var r := GetRecentEvents(db, limit, eventType, severity, userId, vmId, hours, now);
            && SortedBy(r, NewerFirst)
            && forall i :: 0 <= i < |r| ==> r[i] in db.events && RecentMatch(r[i], now - hours * SecondsPerHour, eventType, severity, userId, vmId)
  {
    var p := RecentFilter(now - hours * SecondsPerHour, eventType, severity, userId, vmId);
    var matching := Filter(db.events, p);
    NewerFirstTotal();
    var r := GetRecentEvents(db, limit, eventType, severity, userId, vmId, hours, now);
    TakePrefix(Sort(matching, NewerFirst), limit, NewerFirst);
    forall i | 0 <= i < |r|
      ensures r[i] in db.events && p(r[i])
    {
      assert r[i] in multiset(r);
      FilterMembership(db.events, p, r[i]);
    }
  }

  /** No matching event is left out while a place is free, nor is one left
      out that is newer than the last event listed. */
  lemma GetRecentEventsComplete(
    db: Db, limit: nat, eventType: Option<string>, severity: Option<string>,
    userId: Option<int>, vmId: Option<int>, hours: int, now: int, e: Event)
    requires e in db.events && RecentMatch(e, now - hours * SecondsPerHour, eventType, severity, userId, vmId)
    requires e !in GetRecentEvents(db, limit, eventType, severity, userId, vmId, hours, now)
    ensures var r := GetRecentEvents(db, limit, eventType, severity, userId, vmId, hours, now);
            |r| == limit && (limit > 0 ==> r[|r| - 1].createdAt >= e.createdAt)
  {
    var p := RecentFilter(now - hours * SecondsPerHour, eventType, severity, userId, vmId);
    NewerFirstTotal();
    FilterMembership(db.events, p, e);
    TopOmits(Filter(db.events, p), NewerFirst, limit, e);
  }

  // ---------------------------------------------------------------- statistics

  /** Events of the window whose type is one of `types`. */
  function TypeIn(types: set<string>, cutoff: int): Event -> bool {
    (e: Event) => e.eventType in types && e.createdAt >= cutoff
  }

  /** Events of the window whose severity is one of `levels`. */
  function SeverityIn(levels: set<string>, cutoff: int): Event -> bool {
    (e: Event) => e.severity in levels && e.createdAt >= cutoff
  }

  function InWindow(cutoff: int): Event -> bool {
    (e: Event) => e.createdAt >= cutoff
  }

  /** The number of events in the window that `p` selects. */
  function CountIn(events: seq<Event>, p: Event -> bool): nat {
    |Filter(events, p)|
  }

  /** One row of the critical list of the dashboard. */
  datatype CriticalSummary = CriticalSummary(id: int, eventType: string, message: string, createdAt: int)

  datatype Statistics = Statistics(
    totalEvents: nat,
    eventsByType: map<string, nat>,
    eventsBySeverity: map<string, nat>,
    criticalEvents: seq<CriticalSummary>,
    timeWindowHours: int)

  /** The length of the dashboard's list of critical events. */
  const CriticalListSize: nat := 10

  function Summarize(events: seq<Event>): (r: seq<CriticalSummary>)
    ensures |r| == |events|
    ensures forall i :: 0 <= i < |r| ==> r[i].id == events[i].id && r[i].createdAt == events[i].createdAt
  {
    seq(|events|, i requires 0 <= i < |events| =>
      CriticalSummary(events[i].id, events[i].eventType, events[i].message, events[i].createdAt))
  }

  /** The dashboard's critical list: the newest critical events of the window. */
  function CriticalEvents(db: Db, hours: int, now: int): (r: seq<CriticalSummary>)
    ensures |r| <= CriticalListSize
  {
    Summarize(GetRecentEvents(db, CriticalListSize, None, Some("critical"), None, None, hours, now))
  }

  /** `get_event_statistics`: the window's total, its counts per event type
      (four types) and per severity (three levels), and its ten newest
      critical events, newest first. */
  function GetEventStatistics(db: Db, hours: int, now: int): (r: Statistics)
    ensures r.totalEvents == CountIn(db.events, InWindow(now - hours * SecondsPerHour))
    ensures r.eventsByType.Keys == {"vm", "auth", "system", "security"}
    ensures r.eventsByType["vm"] + r.eventsByType["auth"] + r.eventsByType["system"]
            + r.eventsByType["security"] <= r.totalEvents
    ensures r.eventsBySeverity.Keys == {"info", "warning", "critical"}
    ensures r.eventsBySeverity["info"] + r.eventsBySeverity["warning"] + r.eventsBySeverity["critical"]
            <= r.totalEvents
    ensures |r.criticalEvents| <= CriticalListSize
    ensures forall i :: 0 <= i < |r.criticalEvents| ==>
              CriticalSince(db, now - hours * SecondsPerHour, r.criticalEvents[i])
    ensures forall i, j :: 0 <= i < j < |r.criticalEvents| ==>
              r.criticalEvents[i].createdAt >= r.criticalEvents[j].createdAt
    ensures r.timeWindowHours == hours
  {
    var cutoff := now - hours * SecondsPerHour;
    TypeCountsBounded(db.events, cutoff);
    SeverityCountsBounded(db.events, cutoff);
    CriticalEventsSound(db, hours, now);
    Statistics(CountIn(db.events, InWindow(cutoff)), CountsByType(db.events, cutoff),
               CountsBySeverity(db.events, cutoff), CriticalEvents(db, hours, now), hours)
  }

  function CountsByType(events: seq<Event>, cutoff: int): (r: map<string, nat>)
    ensures r.Keys == {"vm", "auth", "system", "security"}
  {
    map["vm" := CountIn(events, TypeIn({"vm"}, cutoff)),
        "auth" := CountIn(events, TypeIn({"auth"}, cutoff)),
        "system" := CountIn(events, TypeIn({"system"}, cutoff)),
        "security" := CountIn(events, TypeIn({"security"}, cutoff))]
  }

  function CountsBySeverity(events: seq<Event>, cutoff: int): (r: map<string, nat>)
    ensures r.Keys == {"info", "warning", "critical"}
  {
    map["info" := CountIn(events, SeverityIn({"info"}, cutoff)),
        "warning" := CountIn(events, SeverityIn({"warning"}, cutoff)),
        "critical" := CountIn(events, SeverityIn({"critical"}, cutoff))]
  }

  /** Counting two disjoint sets of types separately adds up to counting
      their union. */
  lemma TypeCountsAdd(events: seq<Event>, a: set<string>, b: set<string>, cutoff: int)
    requires a !! b
    ensures CountIn(events, TypeIn(a, cutoff)) + CountIn(events, TypeIn(b, cutoff)) == CountIn(events, TypeIn(a + b, cutoff))
  {
    FilterDisjointUnion(events, TypeIn(a, cutoff), TypeIn(b, cutoff), TypeIn(a + b, cutoff));
  }

  lemma SeverityCountsAdd(events: seq<Event>, a: set<string>, b: set<string>, cutoff: int)
    requires a !! b
    ensures CountIn(events, SeverityIn(a, cutoff)) + CountIn(events, SeverityIn(b, cutoff)) == CountIn(events, SeverityIn(a + b, cutoff))
  {
    FilterDisjointUnion(events, SeverityIn(a, cutoff), SeverityIn(b, cutoff), SeverityIn(a + b, cutoff));
  }

  /** The per-type counts never add up to more than the window's total. */
  lemma TypeCountsBounded(events: seq<Event>, cutoff: int)
    ensures var c := CountsByType(events, cutoff);
            c["vm"] + c["auth"] + c["system"] + c["security"] <= CountIn(events, InWindow(cutoff))
  {
    TypeCountsAdd(events, {"vm"}, {"auth"}, cutoff);
    TypeCountsAdd(events, {"vm", "auth"}, {"system"}, cutoff);
    TypeCountsAdd(events, {"vm", "auth", "system"}, {"security"}, cutoff);
    assert {"vm"} + {"auth"} == {"vm", "auth"};
    assert {"vm", "auth"} + {"system"} == {"vm", "auth", "system"};
    FilterMonotone(events, TypeIn({"vm", "auth", "system"} + {"security"}, cutoff), InWindow(cutoff));
  }

  /** The per-severity counts never add up to more than the window's total,
      and add up to exactly the total when every event carries one of the
      three known severities. */
  lemma SeverityCountsBounded(events: seq<Event>, cutoff: int)
    ensures var c := CountsBySeverity(events, cutoff);
            c["info"] + c["warning"] + c["critical"] <= CountIn(events, InWindow(cutoff))
    ensures var c := CountsBySeverity(events, cutoff);
            (forall i :: 0 <= i < |events| ==> events[i].severity in {"info", "warning", "critical"}) ==>
            c["info"] + c["warning"] + c["critical"] == CountIn(events, InWindow(cutoff))
  {
    SeverityCountsAdd(events, {"info"}, {"warning"}, cutoff);
    SeverityCountsAdd(events, {"info", "warning"}, {"critical"}, cutoff);
    assert {"info"} + {"warning"} == {"info", "warning"};
    var all := {"info", "warning"} + {"critical"};
    FilterMonotone(events, SeverityIn(all, cutoff), InWindow(cutoff));
    if forall i :: 0 <= i < |events| ==> events[i].severity in {"info", "warning", "critical"} {
      FilterMonotone(events, InWindow(cutoff), SeverityIn(all, cutoff));
    }
  }

  /** The row summarises a critical event of the log no older than the cutoff. */
  ghost predicate CriticalSince(db: Db, cutoff: int, row: CriticalSummary) {
    exists e :: e in db.events && e.severity == "critical" && e.createdAt >= cutoff
                && e.id == row.id && e.createdAt == row.createdAt
  }

  /** Each row of the critical list is a critical event of the window, and
      the rows are newest first. */
  lemma CriticalEventsSound(db: Db, hours: int, now: int)
    ensures var r := CriticalEvents(db, hours, now);
            forall i :: 0 <= i < |r| ==> CriticalSince(db, now - hours * SecondsPerHour, r[i])
    ensures var r := CriticalEvents(db, hours, now);
            forall i, j :: 0 <= i < j < |r| ==> r[i].createdAt >= r[j].createdAt
  {
    var critical := GetRecentEvents(db, CriticalListSize, None, Some("critical"), None, None, hours, now);
    GetRecentEventsSound(db, CriticalListSize, None, Some("critical"), None, None, hours, now);
    SummaryOfCritical(db, now - hours * SecondsPerHour, critical);
  }

  lemma SummaryOfCritical(db: Db, cutoff: int, critical: seq<Event>)
    requires SortedBy(critical, NewerFirst)
    requires forall i :: 0 <= i < |critical| ==>
               critical[i] in db.events && RecentMatch(critical[i], cutoff, None, Some("critical"), None, None)
    ensures var r := Summarize(critical);
            forall i :: 0 <= i < |r| ==> CriticalSince(db, cutoff, r[i])
    ensures var r := Summarize(critical);
            forall i, j :: 0 <= i < j < |r| ==> r[i].createdAt >= r[j].createdAt
  {
    var r := Summarize(critical);
    forall i | 0 <= i < |r| ensures CriticalSince(db, cutoff, r[i]) {
      var e := critical[i];
      assert RecentMatch(e, cutoff, None, Some("critical"), None, None);
      assert e in db.events && e.severity == "critical" && e.createdAt >= cutoff;
      assert e.id == r[i].id && e.createdAt == r[i].createdAt;
    }
    forall i, j | 0 <= i < j < |r| ensures r[i].createdAt >= r[j].createdAt {
      assert NewerFirst(critical[i], critical[j]);
    }
  }

  // ---------------------------------------------------------------- user activity

  datatype Activity = Activity(
    userId: int,
    username: string,
    totalEvents: nat,
    vmEvents: nat,
    failedAuthAttempts: nat,
    activeVms: nat,
    timeWindowHours: int)

  function UserInWindow(userId: int, cutoff: int): Event -> bool {
    (e: Event) => e.userId == Some(userId) && e.createdAt >= cutoff
  }

  function UserVmEvents(userId: int, cutoff: int): Event -> bool {
    (e: Event) => e.userId == Some(userId) && e.eventType == "vm" && e.createdAt >= cutoff
  }

  function UserFailedAuth(userId: int, cutoff: int): Event -> bool {
    (e: Event) => e.userId == Some(userId) && e.eventType == "auth" && e.severity == "warning" && e.createdAt >= cutoff
  }

  function UserVmOrFailedAuth(userId: int, cutoff: int): Event -> bool {
    (e: Event) => e.userId == Some(userId) && e.createdAt >= cutoff
         && (e.eventType == "vm" || (e.eventType == "auth" && e.severity == "warning"))
  }

  /** The ids of the user's VMs that are running. */
  function RunningVmsOf(db: Db, userId: int): set<int> {
    set id | id in db.vms && db.vms[id].ownerId == userId && db.vms[id].status == "running"
  }

  /** `analyze_user_activity`: an error for an unknown user; otherwise the
      user's event counts in the window and the number of running VMs. VM
      events and failed logins are kinds of the user's events, so together
      they never outnumber them. */
  function AnalyzeUserActivity(db: Db, userId: int, hours: int, now: int): (r: Result<Activity, string>)
    ensures r.Err? <==> userId !in db.users
    ensures r.Err? ==> r.error == "User not found"
    ensures r.Ok? ==> r.value.username == db.users[userId].username
    ensures r.Ok? ==> r.value.vmEvents + r.value.failedAuthAttempts <= r.value.totalEvents
    ensures r.Ok? ==> r.value.activeVms <= |db.vms|
  {
    if userId !in db.users then Err("User not found")
    else
      var cutoff := now - hours * SecondsPerHour;
      var ev := db.events;
      FilterDisjointUnion(ev, UserVmEvents(userId, cutoff), UserFailedAuth(userId, cutoff), UserVmOrFailedAuth(userId, cutoff));
      FilterMonotone(ev, UserVmOrFailedAuth(userId, cutoff), UserInWindow(userId, cutoff));
      var running := RunningVmsOf(db, userId);
      SubsetCardinality(running, db.vms.Keys);
      Ok(Activity(userId, db.users[userId].username, CountIn(ev, UserInWindow(userId, cutoff)),
                  CountIn(ev, UserVmEvents(userId, cutoff)), CountIn(ev, UserFailedAuth(userId, cutoff)),
                  |running|, hours))
  }
}
