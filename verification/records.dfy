/** The persistent records of the platform (users, virtual machines, events,
    metric samples) and the store that holds them. The store stands for the
    relational database: a table keyed by id is a `map`, the event and metric
    tables are append-ordered sequences. */
module Records {
  import opened Wrappers

  /** A JSON scalar as it appears in an event's `details` column. */
  datatype Value = VNull | VBool(b: bool) | VInt(i: int) | VReal(x: real) | VStr(s: string)

  /** The `details` column: a JSON object of scalars. */
  type Details = map<string, Value>

  function OptIntValue(o: Option<int>): Value {
    match o
    case Some(i) => VInt(i)
    case None => VNull
  }

  function OptStrValue(o: Option<string>): Value {
    match o
    case Some(s) => VStr(s)
    case None => VNull
  }

  datatype User = User(id: int, username: string, isAdmin: bool)

  /** A virtual machine row. `status` is free text in the table; the code
      writes "pending", "running", "stopped", "failed", "not_created" and
      "unknown" into it. */
  datatype Vm = Vm(
    id: int,
    name: string,
    osType: string,
    ramMb: int,
    diskGb: int,
    cpuCores: int,
    status: string,
    ipAddress: Option<string>,
    uptimeSeconds: int,
    ownerId: int)

  /** An audit event. Times are whole seconds on one clock. */
  datatype Event = Event(
    id: int,
    eventType: string,
    severity: string,
    message: string,
    userId: Option<int>,
    vmId: Option<int>,
    details: Details,
    createdAt: int)

  /** The database: users and VMs by id, events in insertion order, and the
      next value of the events' auto-increment key. */
  datatype Db = Db(users: map<int, User>, vms: map<int, Vm>, events: seq<Event>, nextEventId: int)

  /** Event ids grow with insertion and stay below the auto-increment key. */
  ghost predicate EventIdsValid(db: Db) {
    && (forall i, j :: 0 <= i < j < |db.events| ==> db.events[i].id < db.events[j].id)
    && (forall i :: 0 <= i < |db.events| ==> db.events[i].id < db.nextEventId)
  }

  /** `db.add(Event(...)); db.commit()`: one row appended under a fresh id,
      stamped `now`; the other tables are untouched. */
  function AddEvent(
    db: Db, eventType: string, severity: string, message: string,
    userId: Option<int>, vmId: Option<int>, details: Details, now: int): (r: (Db, Event))
    ensures r.0.events == db.events + [r.1]
    ensures r.0.users == db.users && r.0.vms == db.vms
    ensures r.1.eventType == eventType && r.1.severity == severity && r.1.message == message
    ensures r.1.userId == userId && r.1.vmId == vmId && r.1.details == details && r.1.createdAt == now
    ensures EventIdsValid(db) ==> EventIdsValid(r.0)
    ensures EventIdsValid(db) ==> forall e :: e in db.events ==> e.id != r.1.id
  {
    var e := Event(db.nextEventId, eventType, severity, message, userId, vmId, details, now);
    (db.(events := db.events + [e], nextEventId := db.nextEventId + 1), e)
  }

  /** A metric sample; `vmId` is `None` for host samples. */
  datatype Metric = Metric(name: string, value: real, unit: string, vmId: Option<int>, timestamp: int)
}
