/** The in-memory entity store (`MemStorage`): five id-keyed collections, each with its
    own id counter, and the create / get / update / delete / mark-read operations. Each
    operation takes the store as a value and returns the next store with its result. */
module Storage {
  import opened Options
  import opened Seqs
  import opened Schema

  datatype Store = Store(
    users: map<Id, User>,
    vendors: map<Id, Vendor>,
    contracts: map<Id, Contract>,
    analyses: map<Id, AiAnalysis>,
    notifications: map<Id, Notification>,
    nextUserId: Id,
    nextVendorId: Id,
    nextContractId: Id,
    nextAnalysisId: Id,
    nextNotificationId: Id)

  /** The store an operation leaves behind, and what it returns to its caller. */
  datatype Outcome<T> = Outcome(store: Store, value: T)

  /** The five collections, for statements about "every other collection". */
  datatype Table = Users | Vendors | Contracts | Analyses | Notifications

  /** The store as the constructor builds it before seeding: no records, every counter at 1. */
  const Empty: Store := Store(map[], map[], map[], map[], map[], 1, 1, 1, 1, 1)

  function Counter(s: Store, t: Table): Id {
    match t
    case Users => s.nextUserId
    case Vendors => s.nextVendorId
    case Contracts => s.nextContractId
    case Analyses => s.nextAnalysisId
    case Notifications => s.nextNotificationId
  }

  /** Table `t` (its records and its counter) is the same in both stores. */
  predicate SameTable(s: Store, s': Store, t: Table) {
    match t
    case Users => s'.users == s.users && s'.nextUserId == s.nextUserId
    case Vendors => s'.vendors == s.vendors && s'.nextVendorId == s.nextVendorId
    case Contracts => s'.contracts == s.contracts && s'.nextContractId == s.nextContractId
    case Analyses => s'.analyses == s.analyses && s'.nextAnalysisId == s.nextAnalysisId
    case Notifications =>
      s'.notifications == s.notifications && s'.nextNotificationId == s.nextNotificationId
  }

  /** Only table `t` may differ between the two stores. */
  predicate OnlyTouches(s: Store, s': Store, t: Table) {
    forall u: Table :: u != t ==> SameTable(s, s', u)
  }

  /** Every key of `m` was issued by a counter that started at 1 and now stands at `next`. */
  predicate IssuedBelow<T>(m: map<Id, T>, next: Id) {
    next >= 1 && forall k :: k in m ==> 1 <= k < next
  }

  /** The store invariant: every key was issued by its table's counter, and in the tables
      no update can reach (users, analyses, notifications) each record's id is its key. */
  predicate Valid(s: Store) {
    && IssuedBelow(s.users, s.nextUserId)
    && IssuedBelow(s.vendors, s.nextVendorId)
    && IssuedBelow(s.contracts, s.nextContractId)
    && IssuedBelow(s.analyses, s.nextAnalysisId)
    && IssuedBelow(s.notifications, s.nextNotificationId)
    && (forall k :: k in s.users ==> s.users[k].id == k)
    && (forall k :: k in s.analyses ==> s.analyses[k].id == k)
    && (forall k :: k in s.notifications ==> s.notifications[k].id == k)
  }

  // ---------------------------------------------------------------------------
  // Listing a collection. A JavaScript `Map` yields its values in insertion order;
  // this store only ever inserts a new key under its counter's current value, and an
  // update re-sets an existing key (which keeps its place), so insertion order is
  // ascending key order. `Listing` enumerates the keys in [lo, hi) in that order.
  // ---------------------------------------------------------------------------

  function Listing<T>(m: map<Id, T>, lo: Id, hi: Id): seq<T>
    decreases hi - lo
  {
    if lo >= hi then []
    else (if lo in m then [m[lo]] else []) + Listing(m, lo + 1, hi)
  }

  /** The keys in [lo, hi) whose records satisfy `p`. */
  function KeysWhere<T>(m: map<Id, T>, lo: Id, hi: Id, p: T -> bool): set<Id> {
    set k | k in m && lo <= k < hi && p(m[k])
  }

  /** The listing holds exactly the records stored under keys in [lo, hi). */
  lemma {:induction false} ListingMembers<T>(m: map<Id, T>, lo: Id, hi: Id, x: T)
    ensures x in Listing(m, lo, hi) <==> exists k :: lo <= k < hi && k in m && m[k] == x
    decreases hi - lo
  {
    if lo < hi {
      ListingMembers(m, lo + 1, hi, x);
    }
  }

  /** `x` is the record stored under some key of `m`. */
  ghost predicate Stored<T>(m: map<Id, T>, x: T) {
    exists k :: k in m && m[k] == x
  }

  /** With every key issued below `next`, the listing holds exactly the stored records. */
  lemma ListingValues<T>(m: map<Id, T>, next: Id, x: T)
    requires IssuedBelow(m, next)
    ensures x in Listing(m, 1, next) <==> Stored(m, x)
  {
    ListingMembers(m, 1, next, x);
  }

  /** Counting listed records that satisfy `p` counts each such key once. */
  lemma {:induction false} ListingCount<T>(m: map<Id, T>, lo: Id, hi: Id, p: T -> bool)
    ensures Count(Listing(m, lo, hi), p) == |KeysWhere(m, lo, hi, p)|
    decreases hi - lo
  {
    if lo < hi {
      var head := if lo in m then [m[lo]] else [];
      CountAppend(head, Listing(m, lo + 1, hi), p);
      ListingCount(m, lo + 1, hi, p);
      if lo in m && p(m[lo]) {
        assert KeysWhere(m, lo, hi, p) == {lo} + KeysWhere(m, lo + 1, hi, p);
      } else {
        assert KeysWhere(m, lo, hi, p) == KeysWhere(m, lo + 1, hi, p);
      }
    } else {
      assert KeysWhere(m, lo, hi, p) == {};
    }
  }

  /** With every key issued below `next`, the listing has one entry per stored record. */
  lemma ListingLength<T>(m: map<Id, T>, next: Id)
    requires IssuedBelow(m, next)
    ensures |Listing(m, 1, next)| == |m|
  {
    var all: T -> bool := _ => true;
    ListingCount(m, 1, next, all);
    assert KeysWhere(m, 1, next, all) == m.Keys;
  }

  function UserList(s: Store): seq<User> {
    Listing(s.users, 1, s.nextUserId)
  }

  function VendorList(s: Store): seq<Vendor> {
    Listing(s.vendors, 1, s.nextVendorId)
  }

  /** `getContracts()`: every stored contract, in creation order. */
  function ContractList(s: Store): seq<Contract> {
    Listing(s.contracts, 1, s.nextContractId)
  }

  function AnalysisList(s: Store): seq<AiAnalysis> {
    Listing(s.analyses, 1, s.nextAnalysisId)
  }

  function NotificationList(s: Store): seq<Notification> {
    Listing(s.notifications, 1, s.nextNotificationId)
  }

  // ---------------------------------------------------------------------------
  // Lookups
  // ---------------------------------------------------------------------------

  /** `getUser(id)`: the stored user, or nothing. An id its counter has not issued yet
      (or 0) finds nothing, and in a valid store the user found carries that id. */
  function GetUser(s: Store, id: Id): (r: Option<User>)
    ensures r.Some? <==> id in s.users
    ensures r.Some? ==> r.value == s.users[id]
    ensures Valid(s) && !(1 <= id < s.nextUserId) ==> r.None?
    ensures Valid(s) && r.Some? ==> r.value.id == id
  {
    Lookup(s.users, id)
  }

  /** `getVendor(id)`: the vendor stored under `id`. An update may have rewritten the
      record's own `id` field, so only the key is promised, not `r.value.id`. */
  function GetVendor(s: Store, id: Id): (r: Option<Vendor>)
    ensures r.Some? <==> id in s.vendors
    ensures r.Some? ==> r.value == s.vendors[id]
    ensures Valid(s) && !(1 <= id < s.nextVendorId) ==> r.None?
  {
    Lookup(s.vendors, id)
  }

  /** `getContract(id)`: the contract stored under `id` (its `id` field, like a
      vendor's, may have been rewritten by an update). */
  function GetContract(s: Store, id: Id): (r: Option<Contract>)
    ensures r.Some? <==> id in s.contracts
    ensures r.Some? ==> r.value == s.contracts[id]
    ensures Valid(s) && !(1 <= id < s.nextContractId) ==> r.None?
  {
    Lookup(s.contracts, id)
  }

  /** `aiAnalyses.get(id)`: the analysis stored under `id`. */
  function GetAiAnalysis(s: Store, id: Id): (r: Option<AiAnalysis>)
    ensures r.Some? <==> id in s.analyses
    ensures r.Some? ==> r.value == s.analyses[id]
    ensures Valid(s) && !(1 <= id < s.nextAnalysisId) ==> r.None?
    ensures Valid(s) && r.Some? ==> r.value.id == id
  {
    Lookup(s.analyses, id)
  }

  /** `notifications.get(id)`: the notification stored under `id`. */
  function GetNotification(s: Store, id: Id): (r: Option<Notification>)
    ensures r.Some? <==> id in s.notifications
    ensures r.Some? ==> r.value == s.notifications[id]
    ensures Valid(s) && !(1 <= id < s.nextNotificationId) ==> r.None?
    ensures Valid(s) && r.Some? ==> r.value.id == id
  {
    Lookup(s.notifications, id)
  }

  /** The first key in [lo, hi), in ascending order, whose record satisfies `p`
      (`Array.from(m.values()).find(p)`, reporting where it was found). */
  function FirstKey<T>(m: map<Id, T>, lo: Id, hi: Id, p: T -> bool): (r: Option<Id>)
    ensures r.Some? ==> lo <= r.value < hi && r.value in m && p(m[r.value])
    ensures r.Some? ==> forall k :: lo <= k < r.value && k in m ==> !p(m[k])
    ensures r.None? ==> forall k :: lo <= k < hi && k in m ==> !p(m[k])
    decreases hi - lo
  {
    if lo >= hi then None
    else if lo in m && p(m[lo]) then Some(lo)
    else FirstKey(m, lo + 1, hi, p)
  }

  function HasUsername(name: string): User -> bool {
    (u: User) => u.username == name
  }

  /** `getUserByUsername`: the earliest-created user with that name (the store does not
      enforce the column's uniqueness), or none when no user has it. */
  function GetUserByUsername(s: Store, name: string): (r: Option<User>)
    ensures r.Some? ==> Stored(s.users, r.value) && r.value.username == name
    ensures Valid(s) && r.Some? ==>
      forall k :: k in s.users && s.users[k].username == name ==> r.value.id <= k
    ensures Valid(s) ==> (r.None? <==> forall k :: k in s.users ==> s.users[k].username != name)
  {
    match FirstKey(s.users, 1, s.nextUserId, HasUsername(name))
    case Some(k) => Some(s.users[k])
    case None => None
  }

  function OwnedBy(userId: Id): Vendor -> bool {
    (v: Vendor) => v.userId == userId
  }

  /** `getVendorByUserId`: the earliest-created vendor owned by that user, if any. */
  function GetVendorByUserId(s: Store, userId: Id): (r: Option<Vendor>)
    ensures r.Some? ==> Stored(s.vendors, r.value) && r.value.userId == userId
    ensures r.Some? ==>
      exists k :: k in s.vendors && s.vendors[k] == r.value &&
        forall j :: 1 <= j < k && j in s.vendors ==> s.vendors[j].userId != userId
    ensures Valid(s) ==> (r.None? <==> forall k :: k in s.vendors ==> s.vendors[k].userId != userId)
  {
    match FirstKey(s.vendors, 1, s.nextVendorId, OwnedBy(userId))
    case Some(k) => Some(s.vendors[k])
    case None => None
  }

  function OfVendor(vendorId: Id): Contract -> bool {
    (c: Contract) => c.vendorId == vendorId
  }

  /** `getContractsByVendor`: the contracts naming that vendor, in creation order, one
      entry per stored key (an update may have made two records equal). */
  function GetContractsByVendor(s: Store, vendorId: Id): (r: seq<Contract>)
    ensures IsSubsequence(r, ContractList(s))
    ensures |r| == |KeysWhere(s.contracts, 1, s.nextContractId, OfVendor(vendorId))|
    ensures Valid(s) ==> forall c :: c in r <==> Stored(s.contracts, c) && c.vendorId == vendorId
  {
    var r := Filter(ContractList(s), OfVendor(vendorId));
    CountIsFilterLength(ContractList(s), OfVendor(vendorId));
    ListingCount(s.contracts, 1, s.nextContractId, OfVendor(vendorId));
    assert Valid(s) ==> forall c :: c in r <==> Stored(s.contracts, c) && c.vendorId == vendorId by {
      if Valid(s) {
        forall c { ListingValues(s.contracts, s.nextContractId, c); }
      }
    }
    r
  }

  function OfContract(contractId: Id): AiAnalysis -> bool {
    (a: AiAnalysis) => a.contractId == contractId
  }

  /** `getAiAnalysesByContract`: every stored analysis naming that contract, in creation
      order, whether or not the contract itself is still stored. */
  function GetAiAnalysesByContract(s: Store, contractId: Id): (r: seq<AiAnalysis>)
    ensures IsSubsequence(r, AnalysisList(s))
    ensures |r| == |KeysWhere(s.analyses, 1, s.nextAnalysisId, OfContract(contractId))|
    ensures Valid(s) ==> forall a :: a in r <==> Stored(s.analyses, a) && a.contractId == contractId
  {
    var r := Filter(AnalysisList(s), OfContract(contractId));
    CountIsFilterLength(AnalysisList(s), OfContract(contractId));
    ListingCount(s.analyses, 1, s.nextAnalysisId, OfContract(contractId));
    assert Valid(s) ==> forall a :: a in r <==> Stored(s.analyses, a) && a.contractId == contractId by {
      if Valid(s) {
        forall a { ListingValues(s.analyses, s.nextAnalysisId, a); }
      }
    }
    r
  }

  function ForUser(userId: Id): Notification -> bool {
    (n: Notification) => n.userId == userId
  }

  /** `getNotificationsByUser`: that user's notifications, in creation order. */
  function GetNotificationsByUser(s: Store, userId: Id): (r: seq<Notification>)
    ensures IsSubsequence(r, NotificationList(s))
    ensures |r| == |KeysWhere(s.notifications, 1, s.nextNotificationId, ForUser(userId))|
    ensures Valid(s) ==> forall n :: n in r <==> Stored(s.notifications, n) && n.userId == userId
  {
    var r := Filter(NotificationList(s), ForUser(userId));
    CountIsFilterLength(NotificationList(s), ForUser(userId));
    ListingCount(s.notifications, 1, s.nextNotificationId, ForUser(userId));
    assert Valid(s) ==> forall n :: n in r <==> Stored(s.notifications, n) && n.userId == userId by {
      if Valid(s) {
        forall n { ListingValues(s.notifications, s.nextNotificationId, n); }
      }
    }
    r
  }

  // ---------------------------------------------------------------------------
  // Creation: the record gets the table's current counter value as its id and the
  // clock reading as its timestamps; the counter moves on by one.
  // ---------------------------------------------------------------------------

  function CreateUser(s: Store, u: InsertUser, now: Timestamp): (r: Outcome<User>)
    ensures r.value == StampUser(u, s.nextUserId, now)
    ensures GetUser(r.store, r.value.id) == Some(r.value)
    ensures forall k :: k != r.value.id ==> GetUser(r.store, k) == GetUser(s, k)
    ensures r.store.nextUserId == s.nextUserId + 1
    ensures OnlyTouches(s, r.store, Users)
    ensures Valid(s) ==> r.value.id !in s.users && Valid(r.store)
  {
    var user := StampUser(u, s.nextUserId, now);
    Outcome(s.(users := s.users[user.id := user], nextUserId := s.nextUserId + 1), user)
  }

  function CreateVendor(s: Store, v: InsertVendor, now: Timestamp): (r: Outcome<Vendor>)
    ensures r.value == StampVendor(v, s.nextVendorId, now)
    ensures GetVendor(r.store, r.value.id) == Some(r.value)
    ensures forall k :: k != r.value.id ==> GetVendor(r.store, k) == GetVendor(s, k)
    ensures r.store.nextVendorId == s.nextVendorId + 1
    ensures OnlyTouches(s, r.store, Vendors)
    ensures Valid(s) ==> r.value.id !in s.vendors && Valid(r.store)
  {
    var vendor := StampVendor(v, s.nextVendorId, now);
    Outcome(s.(vendors := s.vendors[vendor.id := vendor], nextVendorId := s.nextVendorId + 1), vendor)
  }

  function CreateContract(s: Store, c: InsertContract, now: Timestamp): (r: Outcome<Contract>)
    ensures r.value == StampContract(c, s.nextContractId, now)
    ensures GetContract(r.store, r.value.id) == Some(r.value)
    ensures forall k :: k != r.value.id ==> GetContract(r.store, k) == GetContract(s, k)
    ensures r.store.nextContractId == s.nextContractId + 1
    ensures OnlyTouches(s, r.store, Contracts)
    ensures Valid(s) ==> r.value.id !in s.contracts && Valid(r.store)
  {
    var contract := StampContract(c, s.nextContractId, now);
    Outcome(s.(contracts := s.contracts[contract.id := contract],
               nextContractId := s.nextContractId + 1), contract)
  }

  /** Also the entry point of the delayed analysis write that follows a contract's
      creation: any later `CreateAiAnalysis` for that contract id is accepted. */
  function CreateAiAnalysis(s: Store, a: InsertAiAnalysis, now: Timestamp): (r: Outcome<AiAnalysis>)
    ensures r.value == StampAiAnalysis(a, s.nextAnalysisId, now)
    ensures GetAiAnalysis(r.store, r.value.id) == Some(r.value)
    ensures forall k :: k != r.value.id ==> GetAiAnalysis(r.store, k) == GetAiAnalysis(s, k)
    ensures r.store.nextAnalysisId == s.nextAnalysisId + 1
    ensures OnlyTouches(s, r.store, Analyses)
    ensures Valid(s) ==> r.value.id !in s.analyses && Valid(r.store)
  {
    var analysis := StampAiAnalysis(a, s.nextAnalysisId, now);
    Outcome(s.(analyses := s.analyses[analysis.id := analysis],
               nextAnalysisId := s.nextAnalysisId + 1), analysis)
  }

  function CreateNotification(s: Store, n: InsertNotification, now: Timestamp): (r: Outcome<Notification>)
    ensures r.value == StampNotification(n, s.nextNotificationId, now)
    ensures GetNotification(r.store, r.value.id) == Some(r.value)
    ensures forall k :: k != r.value.id ==> GetNotification(r.store, k) == GetNotification(s, k)
    ensures r.store.nextNotificationId == s.nextNotificationId + 1
    ensures OnlyTouches(s, r.store, Notifications)
    ensures Valid(s) ==> r.value.id !in s.notifications && Valid(r.store)
  {
    var notification := StampNotification(n, s.nextNotificationId, now);
    Outcome(s.(notifications := s.notifications[notification.id := notification],
               nextNotificationId := s.nextNotificationId + 1), notification)
  }

  // ---------------------------------------------------------------------------
  // Updates, deletion, mark-read
  // ---------------------------------------------------------------------------

  /** `updateVendor`: none and no change for an absent id; otherwise the shallow merge is
      stored back under the same key, even when the update supplies another `id`. */
  function UpdateVendor(s: Store, id: Id, p: VendorPatch): (r: Outcome<Option<Vendor>>)
    ensures r.value.None? <==> id !in s.vendors
    ensures r.value.None? ==> r.store == s
    ensures r.value.Some? ==> r.value.value == ApplyVendorPatch(s.vendors[id], p)
    ensures GetVendor(r.store, id) == (if r.value.Some? then r.value else GetVendor(s, id))
    ensures forall k :: k != id ==> GetVendor(r.store, k) == GetVendor(s, k)
    ensures r.store.vendors.Keys == s.vendors.Keys
    ensures r.store.nextVendorId == s.nextVendorId
    ensures OnlyTouches(s, r.store, Vendors)
    ensures Valid(s) ==> Valid(r.store)
  {
    if id !in s.vendors then Outcome(s, None)
    else
      var updated := ApplyVendorPatch(s.vendors[id], p);
      Outcome(s.(vendors := s.vendors[id := updated]), Some(updated))
  }

  /** `updateContract`: none and no change for an absent id; otherwise the shallow merge
      with `updatedAt` set to the clock reading is stored back under the same key. The
      merge does not protect `id`, `createdAt` or `submissionDate`: a supplied value
      replaces them (the key stays `id`), and a supplied `updatedAt` is ignored. */
  function UpdateContract(s: Store, id: Id, p: ContractPatch, now: Timestamp): (r: Outcome<Option<Contract>>)
    ensures r.value.None? <==> id !in s.contracts
    ensures r.value.None? ==> r.store == s
    ensures r.value.Some? ==> r.value.value == ApplyContractPatch(s.contracts[id], p, now)
    ensures r.value.Some? ==> r.value.value.updatedAt == now
    ensures r.value.Some? && p.id.Some? ==> r.value.value.id == p.id.value
    ensures r.value.Some? && p.id.None? ==> r.value.value.id == s.contracts[id].id
    ensures r.value.Some? && p.createdAt.Some? ==> r.value.value.createdAt == p.createdAt.value
    ensures r.value.Some? && p.submissionDate.Some? ==>
      r.value.value.submissionDate == p.submissionDate.value
    ensures r.value.Some? && p.createdAt.None? ==> r.value.value.createdAt == s.contracts[id].createdAt
    ensures r.value.Some? && p.submissionDate.None? ==>
      r.value.value.submissionDate == s.contracts[id].submissionDate
    ensures GetContract(r.store, id) == (if r.value.Some? then r.value else GetContract(s, id))
    ensures forall k :: k != id ==> GetContract(r.store, k) == GetContract(s, k)
    ensures r.store.contracts.Keys == s.contracts.Keys
    ensures r.store.nextContractId == s.nextContractId
    ensures OnlyTouches(s, r.store, Contracts)
    ensures Valid(s) ==> Valid(r.store)
  {
    if id !in s.contracts then Outcome(s, None)
    else
      var updated := ApplyContractPatch(s.contracts[id], p, now);
      Outcome(s.(contracts := s.contracts[id := updated]), Some(updated))
  }

  /** `deleteContract`: true exactly when the id was stored; the contract is gone
      afterwards, the counter is not wound back, and its analyses stay where they are. */
  function DeleteContract(s: Store, id: Id): (r: Outcome<bool>)
    ensures r.value <==> id in s.contracts
    ensures GetContract(r.store, id) == None
    ensures forall k :: k != id ==> GetContract(r.store, k) == GetContract(s, k)
    ensures r.store.nextContractId == s.nextContractId
    ensures OnlyTouches(s, r.store, Contracts)
    ensures Valid(s) ==> Valid(r.store)
  {
    Outcome(s.(contracts := s.contracts - {id}), id in s.contracts)
  }

  /** `markNotificationAsRead`: false and no change for an absent id; otherwise the
      notification's `isRead` becomes true and nothing else about it changes. */
  function MarkNotificationAsRead(s: Store, id: Id): (r: Outcome<bool>)
    ensures r.value <==> id in s.notifications
    ensures !r.value ==> r.store == s
    ensures r.value ==> GetNotification(r.store, id) == Some(s.notifications[id].(isRead := true))
    ensures forall k :: k != id ==> GetNotification(r.store, k) == GetNotification(s, k)
    ensures r.store.notifications.Keys == s.notifications.Keys
    ensures OnlyTouches(s, r.store, Notifications)
    ensures Valid(s) ==> Valid(r.store)
  {
    if id !in s.notifications then Outcome(s, false)
    else
      var n := s.notifications[id];
      Outcome(s.(notifications := s.notifications[id := n.(isRead := true)]), true)
  }

  /** Marking a notification read twice leaves the same store as marking it once, and
      the second call reports the same answer. */
  lemma MarkReadIdempotent(s: Store, id: Id)
    ensures var once := MarkNotificationAsRead(s, id);
      var twice := MarkNotificationAsRead(once.store, id);
      twice.store == once.store && twice.value == once.value
  {
  }

  /** Deleting a contract leaves every analysis lookup as it was: the analyses of the
      deleted contract are still returned by a lookup on its id. */
  lemma DeleteKeepsAnalyses(s: Store, id: Id, contractId: Id)
    ensures GetAiAnalysesByContract(DeleteContract(s, id).store, contractId)
         == GetAiAnalysesByContract(s, contractId)
  {
  }
}
