/** Vendor self-registration: a user account is created first and the vendor profile is
    then created pointing at it, whatever `userId` the submitted profile carried. */
module Registration {
  import opened Options
  import opened Schema
  import opened Storage

  datatype Registered = Registered(user: User, vendor: Vendor)

  /** Every vendor's `userId` names a stored user. */
  predicate AllVendorsOwned(s: Store) {
    forall k :: k in s.vendors ==> s.vendors[k].userId in s.users
  }

  function RegisterVendor(s: Store, u: InsertUser, v: InsertVendor, now: Timestamp): (r: Outcome<Registered>)
    ensures UserInsert(r.value.user) == u
    ensures VendorInsert(r.value.vendor) == v.(userId := r.value.user.id)
    ensures r.value.vendor.userId == r.value.user.id
    ensures GetUser(r.store, r.value.user.id) == Some(r.value.user)
    ensures GetVendor(r.store, r.value.vendor.id) == Some(r.value.vendor)
    ensures r.store.nextUserId == s.nextUserId + 1 && r.store.nextVendorId == s.nextVendorId + 1
    ensures forall t :: t != Users && t != Vendors ==> SameTable(s, r.store, t)
    ensures Valid(s) ==> Valid(r.store)
    ensures Valid(s) && AllVendorsOwned(s) ==> AllVendorsOwned(r.store)
    ensures Valid(s) && AllVendorsOwned(s) ==>
      GetVendorByUserId(r.store, r.value.user.id) == Some(r.value.vendor)
  {
    var created := CreateUser(s, u, now);
    var profile := CreateVendor(created.store, v.(userId := created.value.id), now);
    var r := Outcome(profile.store, Registered(created.value, profile.value));
    assert Valid(s) && AllVendorsOwned(s) ==>
      GetVendorByUserId(r.store, r.value.user.id) == Some(r.value.vendor) by {
      if Valid(s) && AllVendorsOwned(s) {
        var found := GetVendorByUserId(r.store, created.value.id);
        assert forall k :: k in r.store.vendors && k != profile.value.id ==>
          r.store.vendors[k].userId in s.users;
        if found.Some? {
          var k :| k in r.store.vendors && r.store.vendors[k] == found.value;
          assert k == profile.value.id;
        }
      }
    }
    r
  }

  /** The vendor part of a `POST /api/vendors` body. The client may leave `userId` out;
      every other field is taken as already well-typed. */
  datatype VendorBody = VendorBody(
    userId: Option<Id>,
    companyName: string,
    contactName: string,
    contactEmail: string,
    contactPhone: Option<string>,
    industry: string,
    verificationStatus: string,
    documents: Option<Json>)

  /** The body with the given user id filled in. */
  function WithUser(b: VendorBody, userId: Id): InsertVendor {
    InsertVendor(userId, b.companyName, b.contactName, b.contactEmail, b.contactPhone,
                 b.industry, b.verificationStatus, b.documents)
  }

  /** The server's vendor schema: every column but `id` and `createdAt`, so `userId` is
      required and a body without it is refused. */
  function ParseVendorBody(b: VendorBody): (r: Option<InsertVendor>)
    ensures r.None? <==> b.userId.None?
    ensures r.Some? ==> r.value.userId == b.userId.value && r.value == WithUser(b, r.value.userId)
  {
    match b.userId
    case None => None
    case Some(id) => Some(WithUser(b, id))
  }

  /** `POST /api/vendors` as written: the vendor part is parsed against the full vendor
      schema before anything is created, so a body without `userId` is a validation error
      with nothing stored; otherwise the registration runs and the parsed `userId` is
      overwritten by the new user's id. */
  function RegisterRoute(s: Store, u: InsertUser, b: VendorBody, now: Timestamp)
    : (r: Outcome<Option<Registered>>)
    ensures r.value.None? <==> b.userId.None?
    ensures r.value.None? ==> r.store == s
    ensures r.value.Some? ==> r.value.value.vendor.userId == r.value.value.user.id
    ensures r.value.Some? ==>
      VendorInsert(r.value.value.vendor) == WithUser(b, r.value.value.user.id)
    ensures r.value.Some? ==> GetVendor(r.store, r.value.value.vendor.id) == Some(r.value.value.vendor)
    ensures r.value.Some? ==> UserInsert(r.value.value.user) == u
    ensures r.value.Some? ==> GetUser(r.store, r.value.value.user.id) == Some(r.value.value.user)
    ensures r.value.Some? ==>
      r.store.nextUserId == s.nextUserId + 1 && r.store.nextVendorId == s.nextVendorId + 1
    ensures r.value.Some? ==> forall t :: t != Users && t != Vendors ==> SameTable(s, r.store, t)
    ensures Valid(s) ==> Valid(r.store)
    ensures Valid(s) && AllVendorsOwned(s) ==> AllVendorsOwned(r.store)
  {
    match ParseVendorBody(b)
    case None => Outcome(s, None)
    case Some(v) =>
      var reg := RegisterVendor(s, u, v, now);
      Outcome(reg.store, Some(reg.value))
  }

  /** The route as its comment and the portal evidently intend: the vendor part is parsed
      without `userId`, which the route supplies itself, so every well-typed body
      registers a user and a vendor pointing at it. */
  function RegisterRouteIntended(s: Store, u: InsertUser, b: VendorBody, now: Timestamp)
    : (r: Outcome<Option<Registered>>)
    ensures r.value.Some?
    ensures r.value.value.vendor.userId == r.value.value.user.id
    ensures VendorInsert(r.value.value.vendor) == WithUser(b, r.value.value.user.id)
    ensures UserInsert(r.value.value.user) == u
    ensures r.store.nextUserId == s.nextUserId + 1 && r.store.nextVendorId == s.nextVendorId + 1
    ensures Valid(s) && AllVendorsOwned(s) ==> Valid(r.store) && AllVendorsOwned(r.store)
    ensures Valid(s) && AllVendorsOwned(s) ==>
      GetVendorByUserId(r.store, r.value.value.user.id) == Some(r.value.value.vendor)
  {
    var reg := RegisterVendor(s, u, WithUser(b, s.nextUserId), now);
    Outcome(reg.store, Some(reg.value))
  }
}
