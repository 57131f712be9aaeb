/** The vendor portal: the verification counts over the vendor list, the status marker
    and badge of each row, the admin actions each status offers and the update they
    send, and the rules of the vendor registration form. */
module VendorPortal {
  import opened Options
  import opened Seqs
  import opened Text
  import opened Schema
  import opened Storage
  import opened Registration
  import opened Joins
  import opened StatusBadge

  // ---------------------------------------------------------------------------
  // Verification counts
  // ---------------------------------------------------------------------------

  datatype VerificationStats = VerificationStats(total: nat, verified: nat, pending: nat, rejected: nat)

  function VerificationIs(status: string): VendorWithUser -> bool {
    (v: VendorWithUser) => v.vendor.verificationStatus == status
  }

  function VendorVerificationIs(status: string): Vendor -> bool {
    (v: Vendor) => v.verificationStatus == status
  }

  function Unverifiable(): VendorWithUser -> bool {
    (v: VendorWithUser) => !IsVerificationStatus(v.vendor.verificationStatus)
  }

  /** Every listed vendor, and how many are verified, pending and rejected. The three
      figures never add up to more than the total, and add up to it exactly when every
      vendor's status is one of the three. */
  function VerificationStatsOf(vs: seq<VendorWithUser>): (r: VerificationStats)
    ensures r.total == |vs|
    ensures r.verified + r.pending + r.rejected <= r.total
    ensures r.verified + r.pending + r.rejected == r.total
        <==> forall i :: 0 <= i < |vs| ==> IsVerificationStatus(vs[i].vendor.verificationStatus)
  {
    VerificationPartition(vs);
    VerificationStats(
      |vs|,
      Count(vs, VerificationIs("verified")),
      Count(vs, VerificationIs("pending")),
      Count(vs, VerificationIs("rejected")))
  }

  /** The three statuses and the vendors with none of them add up to the whole list. */
  lemma {:induction false} VerificationPartition(vs: seq<VendorWithUser>)
    ensures Count(vs, VerificationIs("verified")) + Count(vs, VerificationIs("pending"))
          + Count(vs, VerificationIs("rejected")) + Count(vs, Unverifiable()) == |vs|
  {
    if |vs| > 0 {
      VerificationPartition(vs[1..]);
    }
  }

  /** Counting rows by their vendor's status counts the vendors themselves. */
  lemma {:induction false} CountThroughVendors(r: seq<VendorWithUser>, status: string)
    ensures Count(r, VerificationIs(status)) == Count(VendorsOf(r), VendorVerificationIs(status))
  {
    if |r| > 0 {
      assert VendorsOf(r)[1..] == VendorsOf(r[1..]);
      CountThroughVendors(r[1..], status);
    }
  }

  /** When every vendor's user is stored, the portal's counts are counts of the stored
      vendors: the total is the number of vendors and each status figure is the number
      of stored vendors with that status. */
  lemma PortalCountsStore(s: Store, status: string)
    requires Valid(s) && AllVendorsOwned(s)
    ensures VerificationStatsOf(VendorsWithUser(s)).total == |s.vendors|
    ensures Count(VendorsWithUser(s), VerificationIs(status))
         == |KeysWhere(s.vendors, 1, s.nextVendorId, VendorVerificationIs(status))|
  {
    NoVendorDropped(s);
    var vs := VendorList(s);
    forall j | 0 <= j < |vs| ensures UserKnown(s)(vs[j]) {
      ListingMembers(s.vendors, 1, s.nextVendorId, vs[j]);
    }
    FilterAll(vs, UserKnown(s));
    CountThroughVendors(VendorsWithUser(s), status);
    ListingCount(s.vendors, 1, s.nextVendorId, VendorVerificationIs(status));
  }

  // ---------------------------------------------------------------------------
  // Row marker and badge
  // ---------------------------------------------------------------------------

  /** The icon before a row's badge and the colour it is drawn in. */
  datatype Marker = Marker(icon: Icon, colour: string)

  /** Verified is a green check, pending a yellow clock, rejected a red warning sign, and
      any other status a grey clock. */
  function VerificationMarker(status: string): (m: Marker)
    ensures m.icon == CheckCircle <==> status == "verified"
    ensures m.icon == AlertTriangle <==> status == "rejected"
    ensures m.icon == Clock <==> status != "verified" && status != "rejected"
    ensures m.colour == "gray" <==> !IsVerificationStatus(status)
  {
    match status
    case "verified" => Marker(CheckCircle, "green")
    case "pending" => Marker(Clock, "yellow")
    case "rejected" => Marker(AlertTriangle, "red")
    case _ => Marker(Clock, "gray")
  }

  /** The badge variant the portal passes in: verified is success, pending a warning,
      and every other status an error. */
  function VerificationVariant(status: string): (v: Variant)
    ensures v == Success <==> status == "verified"
    ensures v == Warning <==> status == "pending"
    ensures v == Error <==> status != "verified" && status != "pending"
  {
    if status == "verified" then Success
    else if status == "pending" then Warning
    else Error
  }

  /** For the three statuses of the vocabulary, the marker and the badge agree: the marker
      is drawn in the colour of the badge's variant, and the badge's own text is the
      capitalised status. */
  lemma MarkerMatchesBadge(st: VerificationStatus)
    ensures VerificationMarker(st.Name()).colour == Colour(VerificationVariant(st.Name()))
    ensures StatusText(st.Name()) == [UpperChar(st.Name()[0])] + st.Name()[1..]
  {
  }

  // ---------------------------------------------------------------------------
  // Admin actions
  // ---------------------------------------------------------------------------

  /** A button on a vendor row: its caption and the status it asks for. */
  datatype AdminAction = AdminAction(caption: string, target: string)

  const Approve := AdminAction("Approve", "verified")
  const Reject := AdminAction("Reject", "rejected")
  const Revoke := AdminAction("Revoke", "rejected")

  /** A pending vendor can be approved or rejected, a rejected one approved, a verified
      one revoked; a vendor with any other status offers no action. */
  function AdminActions(status: string): (r: seq<AdminAction>)
    ensures |r| == 0 <==> !IsVerificationStatus(status)
    ensures |r| == 2 <==> status == "pending"
    ensures forall i :: 0 <= i < |r| ==> r[i].target != status
    ensures forall i :: 0 <= i < |r| ==> IsVerificationStatus(r[i].target)
    ensures forall i :: 0 <= i < |r| ==> r[i].target != "pending"
    ensures status == "pending" ==> {r[0].target, r[1].target} == {"verified", "rejected"}
    ensures status == "verified" || status == "rejected" ==> |r| == 1
  {
    match status
    case "pending" => [Approve, Reject]
    case "rejected" => [Approve]
    case "verified" => [Revoke]
    case _ => []
  }

  /** Once a vendor has been acted on it stays out of `pending`, and its single action
      toggles it between verified and rejected: taking it twice returns it where it was. */
  lemma ActionsToggle(status: string, a: AdminAction)
    requires a in AdminActions(status)
    ensures |AdminActions(a.target)| == 1
    ensures AdminActions(a.target)[0].target != a.target
    ensures status != "pending" ==> AdminActions(a.target)[0].target == status
  {
  }

  /** The update an action sends: only the verification status is supplied. */
  function StatusPatch(target: string): (p: VendorPatch)
    ensures forall v: Vendor :: ApplyVendorPatch(v, p) == v.(verificationStatus := target)
  {
    NoVendorChange.(verificationStatus := Some(target))
  }

  /** Taking an action on vendor `id`: not found when no such vendor is stored; otherwise
      the vendor with its status set to the action's target and every other field kept,
      every other vendor untouched. */
  function TakeAction(s: Store, id: Id, a: AdminAction): (r: Outcome<Option<Vendor>>)
    ensures r.value.None? <==> id !in s.vendors
    ensures r.value.None? ==> r.store == s
    ensures r.value.Some? ==> r.value.value == s.vendors[id].(verificationStatus := a.target)
    ensures forall k :: k != id ==> GetVendor(r.store, k) == GetVendor(s, k)
    ensures GetVendor(r.store, id) == (if id in s.vendors then r.value else None)
    ensures OnlyTouches(s, r.store, Vendors)
    ensures Valid(s) ==> Valid(r.store)
  {
    UpdateVendor(s, id, StatusPatch(a.target))
  }

  /** Pressing the same button twice has the effect of pressing it once. */
  lemma TakeActionIdempotent(s: Store, id: Id, a: AdminAction)
    ensures TakeAction(TakeAction(s, id, a).store, id, a) == TakeAction(s, id, a)
  {
    var once := TakeAction(s, id, a);
    if id in s.vendors {
      assert once.store.vendors[id := once.value.value] == once.store.vendors;
    }
  }

  // ---------------------------------------------------------------------------
  // Registration form
  // ---------------------------------------------------------------------------

  datatype UserForm = UserForm(
    username: string,
    password: string,
    firstName: string,
    lastName: string,
    email: string,
    role: string)

  /** The vendor half of the form; it carries no user id. */
  datatype ProfileForm = ProfileForm(
    companyName: string,
    contactName: string,
    contactEmail: string,
    contactPhone: Option<string>,
    industry: string,
    verificationStatus: string)

  datatype VendorForm = VendorForm(user: UserForm, vendor: ProfileForm)

  datatype FormField =
    | Username | Password | FirstName | LastName | Email | Role
    | CompanyName | ContactName | ContactEmail | Industry | VerificationStatusField

  /** The form the dialog opens with: everything empty but the fixed role and status. */
  const BlankForm := VendorForm(
    UserForm("", "", "", "", "", "vendor"),
    ProfileForm("", "", "", Some(""), "", "pending"))

  /** A field of the account half of the form. */
  predicate OfAccount(field: FormField) {
    field in {Username, Password, FirstName, LastName, Email, Role}
  }

  /** The rule of one account field, with `isEmail` standing for the email format check. */
  predicate AccountFails(u: UserForm, field: FormField, isEmail: string -> bool) {
    match field
    case Username => |u.username| < 3
    case Password => |u.password| < 6
    case FirstName => |u.firstName| < 1
    case LastName => |u.lastName| < 1
    case Email => !isEmail(u.email)
    case Role => u.role != "vendor"
    case _ => false
  }

  /** The rule of one profile field; the phone number has none. */
  predicate ProfileFails(v: ProfileForm, field: FormField, isEmail: string -> bool) {
    match field
    case CompanyName => |v.companyName| < 1
    case ContactName => |v.contactName| < 1
    case ContactEmail => !isEmail(v.contactEmail)
    case Industry => |v.industry| < 1
    case VerificationStatusField => v.verificationStatus != "pending"
    case _ => false
  }

  predicate Fails(f: VendorForm, field: FormField, isEmail: string -> bool) {
    if OfAccount(field) then AccountFails(f.user, field, isEmail)
    else ProfileFails(f.vendor, field, isEmail)
  }

  function Flag(bad: bool, field: FormField): set<FormField> {
    if bad then {field} else {}
  }

  function AccountErrors(u: UserForm, isEmail: string -> bool): (errs: set<FormField>)
    ensures forall field :: field in errs <==> OfAccount(field) && AccountFails(u, field, isEmail)
  {
    Flag(|u.username| < 3, Username)
      + Flag(|u.password| < 6, Password)
      + Flag(|u.firstName| == 0, FirstName)
      + Flag(|u.lastName| == 0, LastName)
      + Flag(!isEmail(u.email), Email)
      + Flag(u.role != "vendor", Role)
  }

  function ProfileErrors(v: ProfileForm, isEmail: string -> bool): (errs: set<FormField>)
    ensures forall field :: field in errs <==> !OfAccount(field) && ProfileFails(v, field, isEmail)
  {
    Flag(|v.companyName| == 0, CompanyName)
      + Flag(|v.contactName| == 0, ContactName)
      + Flag(!isEmail(v.contactEmail), ContactEmail)
      + Flag(|v.industry| == 0, Industry)
      + Flag(v.verificationStatus != "pending", VerificationStatusField)
  }

  /** The fields the form reports, all of them at once; the phone number is optional and
      never reported. */
  function FormErrors(f: VendorForm, isEmail: string -> bool): (errs: set<FormField>)
    ensures forall field :: field in errs <==> Fails(f, field, isEmail)
  {
    AccountErrors(f.user, isEmail) + ProfileErrors(f.vendor, isEmail)
  }

  /** The blank form, with an email check that refuses the empty string, reports every
      field except the two it fills in itself. */
  lemma BlankFormRejected(isEmail: string -> bool)
    requires !isEmail("")
    ensures FormErrors(BlankForm, isEmail)
         == {Username, Password, FirstName, LastName, Email, CompanyName, ContactName,
             ContactEmail, Industry}
  {
  }

  /** The account half of the body the form posts. */
  function Account(f: VendorForm): InsertUser {
    InsertUser(f.user.username, f.user.password, f.user.role, f.user.firstName,
               f.user.lastName, f.user.email)
  }

  /** The vendor half of the body the form posts: the form has no user id field, so the
      body carries none. */
  function PortalBody(f: VendorForm): VendorBody {
    VendorBody(None, f.vendor.companyName, f.vendor.contactName, f.vendor.contactEmail,
               f.vendor.contactPhone, f.vendor.industry, f.vendor.verificationStatus, None)
  }

  /** As written, the route refuses every body the portal sends, however well the form
      was filled in: the server's vendor schema requires the `userId` the form never
      has, so the request fails validation and nothing is stored. */
  lemma PortalSubmissionRejected(s: Store, f: VendorForm, isEmail: string -> bool, now: Timestamp)
    requires FormErrors(f, isEmail) == {}
    ensures RegisterRoute(s, Account(f), PortalBody(f), now) == Outcome(s, None)
  {
  }

  /** With the route parsing the vendor part without `userId`, a form with no errors
      registers a vendor-role user with a valid username and password, and a pending
      vendor pointing at that user, which the store then finds for that user. */
  lemma AcceptedFormRegistersPendingVendor(s: Store, f: VendorForm, isEmail: string -> bool,
                                           now: Timestamp)
    requires FormErrors(f, isEmail) == {}
    requires Valid(s) && AllVendorsOwned(s)
    ensures var r := RegisterRouteIntended(s, Account(f), PortalBody(f), now);
      && r.value.Some?
      && r.value.value.user.role == "vendor"
      && r.value.value.vendor.verificationStatus == "pending"
      && r.value.value.vendor.userId == r.value.value.user.id
      && |r.value.value.user.username| >= 3 && |r.value.value.user.password| >= 6
      && r.value.value.vendor.companyName == f.vendor.companyName
      && GetVendorByUserId(r.store, r.value.value.user.id) == Some(r.value.value.vendor)
  {
    assert !Fails(f, Role, isEmail) && !Fails(f, VerificationStatusField, isEmail);
    assert !Fails(f, Username, isEmail) && !Fails(f, Password, isEmail);
  }
}
