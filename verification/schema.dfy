/** The entity shapes of the contract-management system: the five stored records, the
    insert shapes the store accepts (the record minus its store-stamped fields), the
    partial updates, the status vocabularies, and the composite views the store returns. */
module Schema {
  import opened Options

  /** Row ids and foreign keys (`serial` / `integer` columns). */
  type Id = int

  /** A point in time, in milliseconds since the epoch. */
  type Timestamp = int

  /** A `decimal(15, 2)` money column, held as a whole number of cents. */
  type Cents = int

  /** A `jsonb` column value, kept opaque by the store. */
  datatype Json =
    | JNull
    | JBool(b: bool)
    | JNumber(n: int)
    | JString(s: string)
    | JArray(items: seq<Json>)
    | JObject(entries: seq<JsonEntry>)

  datatype JsonEntry = JsonEntry(key: string, value: Json)

  // ---------------------------------------------------------------------------
  // Status vocabularies. The columns themselves are free `text`; these are the
  // values the system uses.
  // ---------------------------------------------------------------------------

  datatype ContractStatus = Pending | AiReview | Approved | Rejected | NeedsReview | Archived {
    function Name(): string {
      match this
      case Pending => "pending"
      case AiReview => "ai_review"
      case Approved => "approved"
      case Rejected => "rejected"
      case NeedsReview => "needs_review"
      case Archived => "archived"
    }
  }

  /** The contract status a stored `status` string names, if it names one. */
  function ParseContractStatus(s: string): (r: Option<ContractStatus>)
    ensures r.Some? ==> r.value.Name() == s
    ensures r.None? ==> forall st: ContractStatus :: st.Name() != s
  {
    if s == "pending" then Some(Pending)
    else if s == "ai_review" then Some(AiReview)
    else if s == "approved" then Some(Approved)
    else if s == "rejected" then Some(Rejected)
    else if s == "needs_review" then Some(NeedsReview)
    else if s == "archived" then Some(Archived)
    else None
  }

  predicate IsContractStatus(s: string) {
    ParseContractStatus(s).Some?
  }

  datatype VerificationStatus = VerificationPending | Verified | VerificationRejected {
    function Name(): string {
      match this
      case VerificationPending => "pending"
      case Verified => "verified"
      case VerificationRejected => "rejected"
    }
  }

  /** The verification status a stored `verificationStatus` string names, if any. */
  function ParseVerificationStatus(s: string): (r: Option<VerificationStatus>)
    ensures r.Some? ==> r.value.Name() == s
    ensures r.None? ==> forall st: VerificationStatus :: st.Name() != s
  {
    if s == "pending" then Some(VerificationPending)
    else if s == "verified" then Some(Verified)
    else if s == "rejected" then Some(VerificationRejected)
    else None
  }

  predicate IsVerificationStatus(s: string) {
    ParseVerificationStatus(s).Some?
  }

  // ---------------------------------------------------------------------------
  // Users
  // ---------------------------------------------------------------------------

  datatype User = User(
    id: Id,
    username: string,
    password: string,
    role: string,
    firstName: string,
    lastName: string,
    email: string,
    createdAt: Timestamp)

  /** A user as submitted: `id` and `createdAt` are left to the store. */
  datatype InsertUser = InsertUser(
    username: string,
    password: string,
    role: string,
    firstName: string,
    lastName: string,
    email: string)

  /** The submitted part of a stored user. */
  function UserInsert(u: User): InsertUser {
    InsertUser(u.username, u.password, u.role, u.firstName, u.lastName, u.email)
  }

  /** The stored user for a submission, with the store's id and clock reading. */
  function StampUser(u: InsertUser, id: Id, now: Timestamp): (r: User)
    ensures UserInsert(r) == u
    ensures r.id == id && r.createdAt == now
  {
    User(id, u.username, u.password, u.role, u.firstName, u.lastName, u.email, now)
  }

  // ---------------------------------------------------------------------------
  // Vendors
  // ---------------------------------------------------------------------------

  datatype Vendor = Vendor(
    id: Id,
    userId: Id,
    companyName: string,
    contactName: string,
    contactEmail: string,
    contactPhone: Option<string>,
    industry: string,
    verificationStatus: string,
    documents: Option<Json>,
    createdAt: Timestamp)

  /** A vendor as submitted: `id` and `createdAt` are left to the store. */
  datatype InsertVendor = InsertVendor(
    userId: Id,
    companyName: string,
    contactName: string,
    contactEmail: string,
    contactPhone: Option<string>,
    industry: string,
    verificationStatus: string,
    documents: Option<Json>)

  function VendorInsert(v: Vendor): InsertVendor {
    InsertVendor(v.userId, v.companyName, v.contactName, v.contactEmail, v.contactPhone,
                 v.industry, v.verificationStatus, v.documents)
  }

  function StampVendor(v: InsertVendor, id: Id, now: Timestamp): (r: Vendor)
    ensures VendorInsert(r) == v
    ensures r.id == id && r.createdAt == now
  {
    Vendor(id, v.userId, v.companyName, v.contactName, v.contactEmail, v.contactPhone,
           v.industry, v.verificationStatus, v.documents, now)
  }

  /** A `Partial<Vendor>`: every field may be supplied, the store-stamped ones included.
      A nullable field is `Some(None)` when the update sets it to null explicitly. */
  datatype VendorPatch = VendorPatch(
    id: Option<Id>,
    userId: Option<Id>,
    companyName: Option<string>,
    contactName: Option<string>,
    contactEmail: Option<string>,
    contactPhone: Option<Option<string>>,
    industry: Option<string>,
    verificationStatus: Option<string>,
    documents: Option<Option<Json>>,
    createdAt: Option<Timestamp>)

  /** `{ ...v, ...p }`: a supplied field replaces the old value, any other is kept. */
  function ApplyVendorPatch(v: Vendor, p: VendorPatch): (r: Vendor)
    ensures p == NoVendorChange ==> r == v
    ensures forall w :: p == VendorOverwrite(w) ==> r == w
    ensures p.verificationStatus.None? ==> r.verificationStatus == v.verificationStatus
    ensures p.id.None? && p.userId.None? ==> r.id == v.id && r.userId == v.userId
  {
    Vendor(
      p.id.GetOr(v.id),
      p.userId.GetOr(v.userId),
      p.companyName.GetOr(v.companyName),
      p.contactName.GetOr(v.contactName),
      p.contactEmail.GetOr(v.contactEmail),
      p.contactPhone.GetOr(v.contactPhone),
      p.industry.GetOr(v.industry),
      p.verificationStatus.GetOr(v.verificationStatus),
      p.documents.GetOr(v.documents),
      p.createdAt.GetOr(v.createdAt))
  }

  /** The update that supplies no field. */
  const NoVendorChange := VendorPatch(None, None, None, None, None, None, None, None, None, None)

  /** The update that supplies every field of `w`. */
  function VendorOverwrite(w: Vendor): VendorPatch {
    VendorPatch(Some(w.id), Some(w.userId), Some(w.companyName), Some(w.contactName),
                Some(w.contactEmail), Some(w.contactPhone), Some(w.industry),
                Some(w.verificationStatus), Some(w.documents), Some(w.createdAt))
  }

  /** Shallow-merge laws: supplying nothing keeps the vendor, supplying everything
      replaces it, and applying the same update twice changes nothing more. */
  lemma VendorPatchLaws(v: Vendor, w: Vendor, p: VendorPatch)
    ensures ApplyVendorPatch(v, NoVendorChange) == v
    ensures ApplyVendorPatch(v, VendorOverwrite(w)) == w
    ensures ApplyVendorPatch(ApplyVendorPatch(v, p), p) == ApplyVendorPatch(v, p)
  {
  }

  // ---------------------------------------------------------------------------
  // Contracts
  // ---------------------------------------------------------------------------

  datatype Contract = Contract(
    id: Id,
    title: string,
    description: Option<string>,
    vendorId: Id,
    status: string,
    value: Option<Cents>,
    currency: Option<string>,
    startDate: Option<Timestamp>,
    endDate: Option<Timestamp>,
    submissionDate: Timestamp,
    contractDocument: Option<string>,
    submittedLetter: Option<string>,
    sensitiveData: Option<string>,
    industry: string,
    aiAnalysis: Option<Json>,
    adminNotes: Option<string>,
    createdAt: Timestamp,
    updatedAt: Timestamp)

  /** A contract as submitted: `id`, `createdAt`, `updatedAt` and `submissionDate` are
      left to the store. */
  datatype InsertContract = InsertContract(
    title: string,
    description: Option<string>,
    vendorId: Id,
    status: string,
    value: Option<Cents>,
    currency: Option<string>,
    startDate: Option<Timestamp>,
    endDate: Option<Timestamp>,
    contractDocument: Option<string>,
    submittedLetter: Option<string>,
    sensitiveData: Option<string>,
    industry: string,
    aiAnalysis: Option<Json>,
    adminNotes: Option<string>)

  function ContractInsert(c: Contract): InsertContract {
    InsertContract(c.title, c.description, c.vendorId, c.status, c.value, c.currency,
                   c.startDate, c.endDate, c.contractDocument, c.submittedLetter,
                   c.sensitiveData, c.industry, c.aiAnalysis, c.adminNotes)
  }

  function StampContract(c: InsertContract, id: Id, now: Timestamp): (r: Contract)
    ensures ContractInsert(r) == c
    ensures r.id == id
    ensures r.submissionDate == now && r.createdAt == now && r.updatedAt == now
  {
    Contract(id, c.title, c.description, c.vendorId, c.status, c.value, c.currency,
             c.startDate, c.endDate, now, c.contractDocument, c.submittedLetter,
             c.sensitiveData, c.industry, c.aiAnalysis, c.adminNotes, now, now)
  }

  /** A `Partial<Contract>`; nullable fields as in `VendorPatch`. */
  datatype ContractPatch = ContractPatch(
    id: Option<Id>,
    title: Option<string>,
    description: Option<Option<string>>,
    vendorId: Option<Id>,
    status: Option<string>,
    value: Option<Option<Cents>>,
    currency: Option<Option<string>>,
    startDate: Option<Option<Timestamp>>,
    endDate: Option<Option<Timestamp>>,
    submissionDate: Option<Timestamp>,
    contractDocument: Option<Option<string>>,
    submittedLetter: Option<Option<string>>,
    sensitiveData: Option<Option<string>>,
    industry: Option<string>,
    aiAnalysis: Option<Option<Json>>,
    adminNotes: Option<Option<string>>,
    createdAt: Option<Timestamp>,
    updatedAt: Option<Timestamp>)

  /** `{ ...c, ...p, updatedAt: now }`: a supplied field replaces the old value, any
      other is kept, and `updatedAt` is the clock reading whatever `p` says. */
  function ApplyContractPatch(c: Contract, p: ContractPatch, now: Timestamp): (r: Contract)
    ensures r.updatedAt == now
    ensures p == NoContractChange ==> r == c.(updatedAt := now)
    ensures forall w :: p == ContractOverwrite(w) ==> r == w.(updatedAt := now)
    ensures p.status.None? ==> r.status == c.status
    ensures p.id.None? && p.vendorId.None? ==> r.id == c.id && r.vendorId == c.vendorId
  {
    Contract(
      p.id.GetOr(c.id),
      p.title.GetOr(c.title),
      p.description.GetOr(c.description),
      p.vendorId.GetOr(c.vendorId),
      p.status.GetOr(c.status),
      p.value.GetOr(c.value),
      p.currency.GetOr(c.currency),
      p.startDate.GetOr(c.startDate),
      p.endDate.GetOr(c.endDate),
      p.submissionDate.GetOr(c.submissionDate),
      p.contractDocument.GetOr(c.contractDocument),
      p.submittedLetter.GetOr(c.submittedLetter),
      p.sensitiveData.GetOr(c.sensitiveData),
      p.industry.GetOr(c.industry),
      p.aiAnalysis.GetOr(c.aiAnalysis),
      p.adminNotes.GetOr(c.adminNotes),
      p.createdAt.GetOr(c.createdAt),
      now)
  }

  const NoContractChange := ContractPatch(None, None, None, None, None, None, None, None, None,
                                          None, None, None, None, None, None, None, None, None)

  function ContractOverwrite(w: Contract): ContractPatch {
    ContractPatch(Some(w.id), Some(w.title), Some(w.description), Some(w.vendorId),
                  Some(w.status), Some(w.value), Some(w.currency), Some(w.startDate),
                  Some(w.endDate), Some(w.submissionDate), Some(w.contractDocument),
                  Some(w.submittedLetter), Some(w.sensitiveData), Some(w.industry),
                  Some(w.aiAnalysis), Some(w.adminNotes), Some(w.createdAt),
                  Some(w.updatedAt))
  }

  /** Shallow-merge laws for contracts: supplying nothing changes only `updatedAt`;
      supplying everything replaces the contract except that `updatedAt` is the clock
      reading; repeating an update at the same instant changes nothing more. */
  lemma ContractPatchLaws(c: Contract, w: Contract, p: ContractPatch, now: Timestamp)
    ensures ApplyContractPatch(c, NoContractChange, now) == c.(updatedAt := now)
    ensures ApplyContractPatch(c, ContractOverwrite(w), now) == w.(updatedAt := now)
    ensures ApplyContractPatch(ApplyContractPatch(c, p, now), p, now) == ApplyContractPatch(c, p, now)
  {
  }

  // ---------------------------------------------------------------------------
  // AI analyses
  // ---------------------------------------------------------------------------

  datatype AiAnalysis = AiAnalysis(
    id: Id,
    contractId: Id,
    analysisType: string,
    confidenceScore: Option<int>,  // a decimal(5, 2), in hundredths
    suggestedAction: Option<string>,
    keyFindings: Option<Json>,
    riskFlags: Option<Json>,
    recommendations: Option<string>,
    processedAt: Timestamp)

  /** An analysis as submitted: `id` and `processedAt` are left to the store. */
  datatype InsertAiAnalysis = InsertAiAnalysis(
    contractId: Id,
    analysisType: string,
    confidenceScore: Option<int>,
    suggestedAction: Option<string>,
    keyFindings: Option<Json>,
    riskFlags: Option<Json>,
    recommendations: Option<string>)

  function AiAnalysisInsert(a: AiAnalysis): InsertAiAnalysis {
    InsertAiAnalysis(a.contractId, a.analysisType, a.confidenceScore, a.suggestedAction,
                     a.keyFindings, a.riskFlags, a.recommendations)
  }

  function StampAiAnalysis(a: InsertAiAnalysis, id: Id, now: Timestamp): (r: AiAnalysis)
    ensures AiAnalysisInsert(r) == a
    ensures r.id == id && r.processedAt == now
  {
    AiAnalysis(id, a.contractId, a.analysisType, a.confidenceScore, a.suggestedAction,
               a.keyFindings, a.riskFlags, a.recommendations, now)
  }

  // ---------------------------------------------------------------------------
  // Notifications
  // ---------------------------------------------------------------------------

  datatype Notification = Notification(
    id: Id,
    userId: Id,
    title: string,
    message: string,
    kind: string,  // the `type` column: info, warning, error, success
    isRead: bool,
    relatedEntityType: Option<string>,
    relatedEntityId: Option<Id>,
    createdAt: Timestamp)

  /** A notification as submitted: `id` and `createdAt` are left to the store. */
  datatype InsertNotification = InsertNotification(
    userId: Id,
    title: string,
    message: string,
    kind: string,
    isRead: bool,
    relatedEntityType: Option<string>,
    relatedEntityId: Option<Id>)

  function NotificationInsert(n: Notification): InsertNotification {
    InsertNotification(n.userId, n.title, n.message, n.kind, n.isRead,
                       n.relatedEntityType, n.relatedEntityId)
  }

  function StampNotification(n: InsertNotification, id: Id, now: Timestamp): (r: Notification)
    ensures NotificationInsert(r) == n
    ensures r.id == id && r.createdAt == now
  {
    Notification(id, n.userId, n.title, n.message, n.kind, n.isRead,
                 n.relatedEntityType, n.relatedEntityId, now)
  }

  // ---------------------------------------------------------------------------
  // Composite views and dashboard figures
  // ---------------------------------------------------------------------------

  /** A contract with its vendor (always present) and its analyses (optional). */
  datatype ContractWithVendor = ContractWithVendor(
    contract: Contract,
    vendor: Vendor,
    aiAnalyses: Option<seq<AiAnalysis>>)

  /** A vendor with its owning user (always present). */
  datatype VendorWithUser = VendorWithUser(vendor: Vendor, user: User)

  /** The four reported status buckets; `needsMoreInformation` counts `needs_review`. */
  datatype StatusDistribution = StatusDistribution(
    approved: nat,
    pending: nat,
    needsMoreInformation: nat,
    rejected: nat)

  datatype IndustryData = IndustryData(value: string, contracts: nat)

  datatype DashboardStats = DashboardStats(
    avgProcessingTime: string,
    approvalRate: string,
    expiringContracts: nat,
    totalValue: string,
    totalContracts: nat,
    statusDistribution: StatusDistribution,
    industryData: map<string, IndustryData>)
}
