/** Runs of store operations, and what they show about the id counters: each table
    hands out consecutive, strictly increasing ids, never hands one out twice (deletion
    does not wind a counter back), and a table's counter moves only for its own records. */
module History {
  import opened Options
  import opened Schema
  import opened Storage
  import opened Registration

  /** Every operation that changes the store. */
  datatype Op =
    | CreateUserOp(u: InsertUser)
    | CreateVendorOp(v: InsertVendor)
    | RegisterVendorOp(account: InsertUser, profile: InsertVendor)
    | CreateContractOp(c: InsertContract)
    | CreateAiAnalysisOp(a: InsertAiAnalysis)
    | CreateNotificationOp(n: InsertNotification)
    | UpdateVendorOp(vendorId: Id, vendorPatch: VendorPatch)
    | UpdateContractOp(contractId: Id, contractPatch: ContractPatch)
    | DeleteContractOp(deletedId: Id)
    | MarkReadOp(notificationId: Id)

  /** An operation and the clock reading at which it ran. */
  datatype Event = Event(op: Op, now: Timestamp)

  function Keys(s: Store, t: Table): set<Id> {
    match t
    case Users => s.users.Keys
    case Vendors => s.vendors.Keys
    case Contracts => s.contracts.Keys
    case Analyses => s.analyses.Keys
    case Notifications => s.notifications.Keys
  }

  /** The store after one event. */
  function Step(s: Store, e: Event): Store {
    match e.op
    case CreateUserOp(u) => CreateUser(s, u, e.now).store
    case CreateVendorOp(v) => CreateVendor(s, v, e.now).store
    case RegisterVendorOp(u, v) => RegisterVendor(s, u, v, e.now).store
    case CreateContractOp(c) => CreateContract(s, c, e.now).store
    case CreateAiAnalysisOp(a) => CreateAiAnalysis(s, a, e.now).store
    case CreateNotificationOp(n) => CreateNotification(s, n, e.now).store
    case UpdateVendorOp(id, p) => UpdateVendor(s, id, p).store
    case UpdateContractOp(id, p) => UpdateContract(s, id, p, e.now).store
    case DeleteContractOp(id) => DeleteContract(s, id).store
    case MarkReadOp(id) => MarkNotificationAsRead(s, id).store
  }

  /** The ids of the records of table `t` that one event created, as the operation
      returned them. */
  function StepIssued(s: Store, e: Event, t: Table): seq<Id> {
    match e.op
    case CreateUserOp(u) => if t == Users then [CreateUser(s, u, e.now).value.id] else []
    case CreateVendorOp(v) => if t == Vendors then [CreateVendor(s, v, e.now).value.id] else []
    case RegisterVendorOp(u, v) =>
      var reg := RegisterVendor(s, u, v, e.now).value;
      if t == Users then [reg.user.id] else if t == Vendors then [reg.vendor.id] else []
    case CreateContractOp(c) =>
      if t == Contracts then [CreateContract(s, c, e.now).value.id] else []
    case CreateAiAnalysisOp(a) =>
      if t == Analyses then [CreateAiAnalysis(s, a, e.now).value.id] else []
    case CreateNotificationOp(n) =>
      if t == Notifications then [CreateNotification(s, n, e.now).value.id] else []
    case _ => []
  }

  /** Each event moves a counter by exactly the ids it issued from it. */
  lemma StepCounters(s: Store, e: Event, t: Table)
    ensures Counter(s, t) <= Counter(Step(s, e), t)
    ensures StepIssued(s, e, t) == Range(Counter(s, t), Counter(Step(s, e), t))
  {
    if e.op.UpdateVendorOp? || e.op.UpdateContractOp? || e.op.DeleteContractOp? || e.op.MarkReadOp? {
      MaintenanceIssuesNothing(s, e, t);
    } else if e.op.RegisterVendorOp? {
      var r := RegisterVendor(s, e.op.account, e.op.profile, e.now);
      if t != Users && t != Vendors {
        assert SameTable(s, r.store, t);
      }
    } else {
      CreationIssuesOne(s, e, t);
    }
  }

  lemma CreationIssuesOne(s: Store, e: Event, t: Table)
    requires e.op.CreateUserOp? || e.op.CreateVendorOp? || e.op.CreateContractOp?
          || e.op.CreateAiAnalysisOp? || e.op.CreateNotificationOp?
    ensures Counter(s, t) <= Counter(Step(s, e), t)
    ensures StepIssued(s, e, t) == Range(Counter(s, t), Counter(Step(s, e), t))
  {
    match e.op {
      case CreateUserOp(u) => CreateIssues(s, CreateUser(s, u, e.now), Users, t);
      case CreateVendorOp(v) => CreateIssues(s, CreateVendor(s, v, e.now), Vendors, t);
      case CreateContractOp(c) => CreateIssues(s, CreateContract(s, c, e.now), Contracts, t);
      case CreateAiAnalysisOp(a) => CreateIssues(s, CreateAiAnalysis(s, a, e.now), Analyses, t);
      case CreateNotificationOp(n) =>
        CreateIssues(s, CreateNotification(s, n, e.now), Notifications, t);
    }
  }

  lemma MaintenanceIssuesNothing(s: Store, e: Event, t: Table)
    requires e.op.UpdateVendorOp? || e.op.UpdateContractOp? || e.op.DeleteContractOp? || e.op.MarkReadOp?
    ensures StepIssued(s, e, t) == [] && Counter(Step(s, e), t) == Counter(s, t)
  {
    match e.op {
      case UpdateVendorOp(id, p) => assert SameTable(s, Step(s, e), t) || t == Vendors;
      case UpdateContractOp(id, p) => assert SameTable(s, Step(s, e), t) || t == Contracts;
      case DeleteContractOp(id) => assert SameTable(s, Step(s, e), t) || t == Contracts;
      case MarkReadOp(id) => assert SameTable(s, Step(s, e), t) || t == Notifications;
    }
  }

  /** A creation into `created` that moved that counter by one and touched no other
      table issued one id from `created` and none from `t` when `t` is another table. */
  lemma CreateIssues<T>(s: Store, r: Outcome<T>, created: Table, t: Table)
    requires Counter(r.store, created) == Counter(s, created) + 1
    requires OnlyTouches(s, r.store, created)
    ensures Counter(s, t) <= Counter(r.store, t)
    ensures t == created ==> Range(Counter(s, t), Counter(r.store, t)) == [Counter(s, t)]
    ensures t != created ==> Range(Counter(s, t), Counter(r.store, t)) == []
  {
    if t != created {
      assert SameTable(s, r.store, t);
    }
  }

  /** Every operation keeps the store invariant. */
  lemma StepValid(s: Store, e: Event)
    requires Valid(s)
    ensures Valid(Step(s, e))
  {
  }

  /** The integers lo, lo + 1, ..., hi - 1. */
  function Range(lo: int, hi: int): (r: seq<int>)
    ensures |r| == if lo <= hi then hi - lo else 0
    ensures forall i :: 0 <= i < |r| ==> r[i] == lo + i
    decreases hi - lo
  {
    if lo >= hi then [] else [lo] + Range(lo + 1, hi)
  }

  function Run(s: Store, events: seq<Event>): Store
    decreases |events|
  {
    if |events| == 0 then s else Run(Step(s, events[0]), events[1..])
  }

  /** Every id of table `t` the events issued, in issue order. */
  function Issued(s: Store, events: seq<Event>, t: Table): seq<Id>
    decreases |events|
  {
    if |events| == 0 then []
    else StepIssued(s, events[0], t) + Issued(Step(s, events[0]), events[1..], t)
  }

  /** A run issues from each table exactly the ids from its counter's starting value up
      to its final value, one after another. */
  lemma {:induction false} IssuedIsRange(s: Store, events: seq<Event>, t: Table)
    ensures Counter(s, t) <= Counter(Run(s, events), t)
    ensures Issued(s, events, t) == Range(Counter(s, t), Counter(Run(s, events), t))
    decreases |events|
  {
    if |events| > 0 {
      var s' := Step(s, events[0]);
      var rest := Run(s', events[1..]);
      assert Run(s, events) == rest;
      assert Issued(s, events, t) == StepIssued(s, events[0], t) + Issued(s', events[1..], t);
      StepCounters(s, events[0], t);
      IssuedIsRange(s', events[1..], t);
      RangeSplit(Counter(s, t), Counter(s', t), Counter(rest, t));
    }
  }

  /** Every run keeps the store invariant. */
  lemma {:induction false} RunValid(s: Store, events: seq<Event>)
    requires Valid(s)
    ensures Valid(Run(s, events))
    decreases |events|
  {
    if |events| > 0 {
      StepValid(s, events[0]);
      RunValid(Step(s, events[0]), events[1..]);
    }
  }

  lemma RangeSplit(a: int, b: int, c: int)
    requires a <= b <= c
    ensures Range(a, b) + Range(b, c) == Range(a, c)
  {
    assert |Range(a, b) + Range(b, c)| == |Range(a, c)|;
  }

  /** Ids are issued in strictly increasing order, so no id is issued twice. */
  lemma IssuedIncreasing(s: Store, events: seq<Event>, t: Table)
    ensures forall i, j :: 0 <= i < j < |Issued(s, events, t)| ==>
      Issued(s, events, t)[i] < Issued(s, events, t)[j]
  {
    IssuedIsRange(s, events, t);
  }

  /** No issued id collides with a key the table held before the run, even if that
      record has since been deleted. */
  lemma IssuedFresh(s: Store, events: seq<Event>, t: Table, id: Id)
    requires Valid(s)
    requires id in Issued(s, events, t)
    ensures id !in Keys(s, t)
    ensures Counter(s, t) <= id < Counter(Run(s, events), t)
  {
    IssuedIsRange(s, events, t);
  }

  /** Ids issued by one run and ids issued by a later run never meet. */
  lemma NeverReused(s: Store, first: seq<Event>, later: seq<Event>, t: Table, id: Id)
    requires id in Issued(s, first, t)
    ensures id !in Issued(Run(s, first), later, t)
  {
    IssuedIsRange(s, first, t);
    IssuedIsRange(Run(s, first), later, t);
  }

  /** A table's counter moves only when its own records are created: a run that issues
      nothing from `t` leaves its counter where it was. */
  lemma CountersIndependent(s: Store, events: seq<Event>, t: Table)
    requires Issued(s, events, t) == []
    ensures Counter(Run(s, events), t) == Counter(s, t)
  {
    IssuedIsRange(s, events, t);
  }
}
