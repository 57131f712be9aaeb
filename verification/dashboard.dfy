/** The dashboard figures computed over every stored contract (`getDashboardStats`). */
module Dashboard {
  import opened Options
  import opened Seqs
  import opened Text
  import opened Schema
  import opened Storage

  /** Thirty days in milliseconds: the expiry window, taken as a fixed span. */
  const ThirtyDaysMs: int := 30 * 24 * 60 * 60 * 1000

  /** The processing-time figure is a fixed string, not computed from the data. */
  const AvgProcessingTime: string := "4.2 days"

  // ---------------------------------------------------------------------------
  // Status buckets
  // ---------------------------------------------------------------------------

  function HasStatus(name: string): Contract -> bool {
    (c: Contract) => c.status == name
  }

  /** A status that one of the four reported buckets counts. */
  predicate Bucketed(status: string) {
    status == "approved" || status == "pending" || status == "needs_review" || status == "rejected"
  }

  function Unbucketed(): Contract -> bool {
    (c: Contract) => !Bucketed(c.status)
  }

  function Distribution(cs: seq<Contract>): (d: StatusDistribution)
    ensures d.approved + d.pending + d.needsMoreInformation + d.rejected <= |cs|
    ensures d.approved + d.pending + d.needsMoreInformation + d.rejected == |cs|
        <==> forall i :: 0 <= i < |cs| ==> Bucketed(cs[i].status)
  {
    BucketsPartition(cs);
    StatusDistribution(
      Count(cs, HasStatus("approved")),
      Count(cs, HasStatus("pending")),
      Count(cs, HasStatus("needs_review")),
      Count(cs, HasStatus("rejected")))
  }

  /** The four buckets and the contracts no bucket takes (`ai_review`, `archived`, or
      anything else) add up to the whole. */
  lemma {:induction false} BucketsPartition(cs: seq<Contract>)
    ensures Count(cs, HasStatus("approved")) + Count(cs, HasStatus("pending"))
          + Count(cs, HasStatus("needs_review")) + Count(cs, HasStatus("rejected"))
          + Count(cs, Unbucketed()) == |cs|
  {
    if |cs| > 0 {
      BucketsPartition(cs[1..]);
    }
  }

  // ---------------------------------------------------------------------------
  // Approval rate and money figures
  // ---------------------------------------------------------------------------

  /** `approved / total * 100` to one decimal and a percent sign, or `0%` with no
      contracts at all. */
  function ApprovalRate(approved: nat, total: nat): (r: string)
    ensures |r| >= 2 && r[|r| - 1] == '%'
    ensures r == "0%" <==> total == 0
    ensures total > 0 ==>
      FixedShape(r[..|r| - 1], false, 1, RoundedUnits(approved * 100, total, 1))
  {
    if total == 0 then "0%"
    else
      var digits := ToFixed(approved * 100, total, 1);
      var r := digits + "%";
      assert r[..|r| - 1] == digits;
      r
  }

  function ValueCents(c: Contract): int {
    c.value.GetOr(0)
  }

  /** The sum of the contracts' values in cents, a missing value counting as zero. */
  function TotalCents(cs: seq<Contract>): int {
    if |cs| == 0 then 0 else ValueCents(cs[0]) + TotalCents(cs[1..])
  }

  lemma {:induction false} TotalCentsAppend(a: seq<Contract>, b: seq<Contract>)
    ensures TotalCents(a + b) == TotalCents(a) + TotalCents(b)
  {
    if |a| > 0 {
      assert (a + b)[1..] == a[1..] + b;
      TotalCentsAppend(a[1..], b);
    } else {
      assert a + b == b;
    }
  }

  function HasValue(): Contract -> bool {
    (c: Contract) => c.value.Some?
  }

  /** Contracts without a value add nothing to the total. */
  lemma {:induction false} MissingValuesAddNothing(cs: seq<Contract>)
    ensures TotalCents(Filter(cs, HasValue())) == TotalCents(cs)
  {
    if |cs| > 0 {
      MissingValuesAddNothing(cs[1..]);
      if cs[0].value.Some? {
        assert Filter(cs, HasValue()) == [cs[0]] + Filter(cs[1..], HasValue());
        assert ([cs[0]] + Filter(cs[1..], HasValue()))[1..] == Filter(cs[1..], HasValue());
      }
    }
  }

  /** The headline total: billions with one decimal from one billion dollars up,
      otherwise whole millions. */
  function TotalValue(cents: int): (r: string)
    ensures |r| >= 3 && r[0] == '$'
    ensures r[|r| - 1] == 'B' <==> cents >= 100_000_000_000
    ensures r[|r| - 1] == 'M' <==> cents < 100_000_000_000
    ensures cents >= 100_000_000_000 ==>
      FixedShape(r[1..|r| - 1], false, 1, RoundedUnits(cents, 100_000_000_000, 1))
    ensures cents < 100_000_000_000 ==>
      FixedShape(r[1..|r| - 1], cents < 0, 0, RoundedUnits(cents, 100_000_000, 0))
  {
    if cents >= 100_000_000_000 then Money(cents, 100_000_000_000, 1, "B")
    else Money(cents, 100_000_000, 0, "M")
  }

  /** The per-industry value ladder: billions (one decimal), millions, thousands, or
      whole dollars, each from its threshold up. */
  function IndustryValue(cents: int): (r: string)
    ensures |r| >= 2 && r[0] == '$'
    ensures r[|r| - 1] == 'B' <==> cents >= 100_000_000_000
    ensures r[|r| - 1] == 'M' <==> 100_000_000 <= cents < 100_000_000_000
    ensures r[|r| - 1] == 'K' <==> 100_000 <= cents < 100_000_000
    ensures IsDigit(r[|r| - 1]) <==> cents < 100_000
    ensures cents < 100_000 ==> FixedShape(r[1..], cents < 0, 0, RoundedUnits(cents, 100, 0))
  {
    if cents >= 100_000_000_000 then Money(cents, 100_000_000_000, 1, "B")
    else if cents >= 100_000_000 then Money(cents, 100_000_000, 0, "M")
    else if cents >= 100_000 then Money(cents, 100_000, 0, "K")
    else
      var r := Money(cents, 100, 0, "");
      assert r[1..|r| - 0] == r[1..];
      r
  }

  // ---------------------------------------------------------------------------
  // Industry breakdown
  // ---------------------------------------------------------------------------

  function InIndustry(name: string): Contract -> bool {
    (c: Contract) => c.industry == name
  }

  /** The own properties of `Object.prototype`. The breakdown is a plain object, so for
      an industry with one of these names the lookup finds the inherited property,
      which is truthy, and no entry of its own is ever made. */
  const InheritedNames: set<string> := {
    "constructor", "hasOwnProperty", "isPrototypeOf", "propertyIsEnumerable",
    "toLocaleString", "toString", "valueOf", "__proto__",
    "__defineGetter__", "__defineSetter__", "__lookupGetter__", "__lookupSetter__"}

  predicate Inherited(name: string) {
    name in InheritedNames
  }

  /** The contract's industry can get an entry of its own. */
  function OwnIndustry(): Contract -> bool {
    (c: Contract) => !Inherited(c.industry)
  }

  predicate Distinct(ns: seq<string>) {
    forall i, j :: 0 <= i < j < |ns| ==> ns[i] != ns[j]
  }

  /** The industries that get an entry, each once, in order of first appearance. */
  function Industries(cs: seq<Contract>): (ns: seq<string>)
    ensures Distinct(ns)
  {
    if |cs| == 0 then []
    else
      var ns := Industries(cs[..|cs| - 1]);
      var name := cs[|cs| - 1].industry;
      if name in ns || Inherited(name) then ns else ns + [name]
  }

  /** An industry is listed exactly when some contract names it and the name is not
      inherited. */
  lemma {:induction false} IndustriesMembers(cs: seq<Contract>, name: string)
    ensures name in Industries(cs) <==> Count(cs, InIndustry(name)) > 0 && !Inherited(name)
  {
    if |cs| > 0 {
      var init := cs[..|cs| - 1];
      assert cs == init + [cs[|cs| - 1]];
      IndustriesMembers(init, name);
      CountAppend(init, [cs[|cs| - 1]], InIndustry(name));
    }
  }

  /** The per-industry contract counts, taken over a list of names. */
  function CountsOver(ns: seq<string>, cs: seq<Contract>): nat {
    if |ns| == 0 then 0
    else CountsOver(ns[..|ns| - 1], cs) + Count(cs, InIndustry(ns[|ns| - 1]))
  }

  /** One more contract adds one to the counts exactly when its industry is listed. */
  lemma {:induction false} CountsOverAppendOne(ns: seq<string>, cs: seq<Contract>, x: Contract)
    requires Distinct(ns)
    ensures CountsOver(ns, cs + [x]) == CountsOver(ns, cs) + (if x.industry in ns then 1 else 0)
  {
    if |ns| > 0 {
      var init := ns[..|ns| - 1];
      assert ns == init + [ns[|ns| - 1]];
      CountsOverAppendOne(init, cs, x);
      CountAppend(cs, [x], InIndustry(ns[|ns| - 1]));
    }
  }

  lemma {:induction false} CountsOverAppendName(ns: seq<string>, n: string, cs: seq<Contract>)
    ensures CountsOver(ns + [n], cs) == CountsOver(ns, cs) + Count(cs, InIndustry(n))
  {
    assert (ns + [n])[..|ns + [n]| - 1] == ns;
  }

  /** Every contract whose industry is not inherited falls in exactly one listed
      industry: the per-industry counts add up to the number of such contracts. */
  lemma {:induction false} IndustryCountsSumToTotal(cs: seq<Contract>)
    ensures CountsOver(Industries(cs), cs) == Count(cs, OwnIndustry())
  {
    if |cs| > 0 {
      var init := cs[..|cs| - 1];
      var last := cs[|cs| - 1];
      assert cs == init + [last];
      var ns := Industries(init);
      IndustryCountsSumToTotal(init);
      CountsOverAppendOne(ns, init, last);
      CountAppend(init, [last], OwnIndustry());
      if last.industry in ns {
        IndustriesMembers(init, last.industry);
        assert Industries(cs) == ns;
      } else if Inherited(last.industry) {
        assert Industries(cs) == ns;
      } else {
        assert Industries(cs) == ns + [last.industry];
        CountsOverAppendName(ns, last.industry, cs);
        CountAppend(init, [last], InIndustry(last.industry));
        IndustriesMembers(init, last.industry);
      }
    }
  }

  /** When no industry is inherited, the per-industry counts add up to the number of
      contracts. */
  lemma OrdinaryIndustriesSumToTotal(cs: seq<Contract>)
    requires forall i :: 0 <= i < |cs| ==> !Inherited(cs[i].industry)
    ensures CountsOver(Industries(cs), cs) == |cs|
  {
    IndustryCountsSumToTotal(cs);
  }

  /** A contract with an inherited industry is counted under no industry at all. */
  lemma InheritedIndustryUncounted(cs: seq<Contract>)
    requires |cs| > 0 && forall i :: 0 <= i < |cs| ==> Inherited(cs[i].industry)
    ensures CountsOver(Industries(cs), cs) == 0 < |cs|
  {
    IndustryCountsSumToTotal(cs);
    assert Count(cs, OwnIndustry()) == 0;
  }

  /** The summed value of one industry's contracts. */
  function IndustryCents(cs: seq<Contract>, name: string): int {
    TotalCents(Filter(cs, InIndustry(name)))
  }

  /** One entry per industry that occurs and is not inherited, holding its contract
      count and its value on the ladder. */
  function IndustryBreakdown(cs: seq<Contract>): (m: map<string, IndustryData>)
    ensures forall name :: name in m <==> Count(cs, InIndustry(name)) > 0 && !Inherited(name)
    ensures forall name :: name in m ==> m[name].contracts == Count(cs, InIndustry(name))
    ensures forall name :: name in m ==> m[name].value == IndustryValue(IndustryCents(cs, name))
  {
    assert forall name :: name in Industries(cs) <==> Count(cs, InIndustry(name)) > 0 && !Inherited(name) by {
      forall name {
        IndustriesMembers(cs, name);
      }
    }
    map name | name in Industries(cs) ::
      IndustryData(IndustryValue(IndustryCents(cs, name)), Count(cs, InIndustry(name)))
  }

  // ---------------------------------------------------------------------------
  // Expiry window and the whole record
  // ---------------------------------------------------------------------------

  /** The contract has an end date no earlier than `now` and at most thirty days on. */
  function ExpiresWithin(now: Timestamp): (p: Contract -> bool)
    ensures forall c: Contract :: p(c) ==>
              c.endDate.Some? && 0 <= c.endDate.value - now <= 30 * 24 * 60 * 60 * 1000
    ensures forall c: Contract :: c.endDate.Some? && now <= c.endDate.value <= now + ThirtyDaysMs ==> p(c)
  {
    (c: Contract) => c.endDate.Some? && now <= c.endDate.value <= now + ThirtyDaysMs
  }

  /** The number of stored contracts that satisfy `p`, counted by key. */
  function StoredCount(s: Store, p: Contract -> bool): nat {
    |KeysWhere(s.contracts, 1, s.nextContractId, p)|
  }

  /** The summed value of the contracts stored under keys in [lo, hi), each key once. */
  function StoredCents(m: map<Id, Contract>, lo: Id, hi: Id): int
    decreases hi - lo
  {
    if lo >= hi then 0
    else (if lo in m then ValueCents(m[lo]) else 0) + StoredCents(m, lo + 1, hi)
  }

  /** Summing the listing sums every stored value once. */
  lemma {:induction false} ListingCents(m: map<Id, Contract>, lo: Id, hi: Id)
    ensures TotalCents(Listing(m, lo, hi)) == StoredCents(m, lo, hi)
    decreases hi - lo
  {
    if lo < hi {
      var head := if lo in m then [m[lo]] else [];
      TotalCentsAppend(head, Listing(m, lo + 1, hi));
      ListingCents(m, lo + 1, hi);
    }
  }

  /** The summed value of the contracts stored under keys in [lo, hi) that satisfy `p`,
      each key once. */
  function StoredCentsWhere(m: map<Id, Contract>, lo: Id, hi: Id, p: Contract -> bool): int
    decreases hi - lo
  {
    if lo >= hi then 0
    else (if lo in m && p(m[lo]) then ValueCents(m[lo]) else 0) + StoredCentsWhere(m, lo + 1, hi, p)
  }

  /** Summing the values of the listed contracts that pass `p` sums the value of every
      stored key whose contract passes `p`, once. */
  lemma {:induction false} ListingCentsWhere(m: map<Id, Contract>, lo: Id, hi: Id, p: Contract -> bool)
    ensures TotalCents(Filter(Listing(m, lo, hi), p)) == StoredCentsWhere(m, lo, hi, p)
    decreases hi - lo
  {
    if lo < hi {
      var head := if lo in m then [m[lo]] else [];
      var rest := Listing(m, lo + 1, hi);
      FilterAppend(head, rest, p);
      TotalCentsAppend(Filter(head, p), Filter(rest, p));
      ListingCentsWhere(m, lo + 1, hi, p);
      if lo in m {
        FilterCons(head, p);
        assert head[1..] == [];
      }
    }
  }

  /** Over a valid store, every count over `getContracts()` counts stored keys, and the
      listing's length and value sum are those of the stored contracts. */
  lemma StoreFigures(s: Store)
    ensures Valid(s) ==> |ContractList(s)| == |s.contracts|
    ensures Valid(s) ==> forall p: Contract -> bool ::
      Count(ContractList(s), p) == StoredCount(s, p)
    ensures TotalCents(ContractList(s)) == StoredCents(s.contracts, 1, s.nextContractId)
    ensures forall p: Contract -> bool ::
      TotalCents(Filter(ContractList(s), p)) == StoredCentsWhere(s.contracts, 1, s.nextContractId, p)
  {
    ListingCents(s.contracts, 1, s.nextContractId);
    forall p: Contract -> bool
      ensures TotalCents(Filter(ContractList(s), p))
           == StoredCentsWhere(s.contracts, 1, s.nextContractId, p)
    {
      ListingCentsWhere(s.contracts, 1, s.nextContractId, p);
    }
    if Valid(s) {
      ListingLength(s.contracts, s.nextContractId);
      forall p: Contract -> bool
        ensures Count(ContractList(s), p) == StoredCount(s, p)
      {
        ListingCount(s.contracts, 1, s.nextContractId, p);
      }
    }
  }

  /** `getDashboardStats`. Over a valid store every figure is taken over the stored
      contracts: the total is the number stored, each bucket and the expiry figure count
      the stored contracts meeting their condition, the rate is `0%` exactly when
      nothing is stored and otherwise reads back to the approved share, the value sums
      every stored contract once, and the breakdown has an entry for exactly the
      industries some stored contract names, bar the inherited ones, each counting its
      stored contracts and showing their summed value on the ladder. */
  function Stats(s: Store, now: Timestamp): (r: DashboardStats)
    ensures r.avgProcessingTime == AvgProcessingTime
    ensures Valid(s) ==> r.totalContracts == |s.contracts|
    ensures Valid(s) ==>
      r.statusDistribution.approved == StoredCount(s, HasStatus("approved"))
    ensures Valid(s) ==>
      r.statusDistribution.pending == StoredCount(s, HasStatus("pending"))
    ensures Valid(s) ==>
      r.statusDistribution.needsMoreInformation == StoredCount(s, HasStatus("needs_review"))
    ensures Valid(s) ==>
      r.statusDistribution.rejected == StoredCount(s, HasStatus("rejected"))
    ensures Valid(s) ==>
      r.expiringContracts == StoredCount(s, ExpiresWithin(now))
    ensures |r.approvalRate| >= 2
    ensures Valid(s) ==> (r.approvalRate == "0%" <==> |s.contracts| == 0)
    ensures Valid(s) && |s.contracts| > 0 ==>
      FixedShape(r.approvalRate[..|r.approvalRate| - 1], false, 1,
        RoundedUnits(StoredCount(s, HasStatus("approved")) * 100, |s.contracts|, 1))
    ensures r.totalValue == TotalValue(StoredCents(s.contracts, 1, s.nextContractId))
    ensures Valid(s) ==> forall name :: name in r.industryData <==>
      !Inherited(name) && StoredCount(s, InIndustry(name)) > 0
    ensures Valid(s) ==> forall name :: name in r.industryData ==>
      r.industryData[name].contracts == StoredCount(s, InIndustry(name))
    ensures forall name :: name in r.industryData ==>
      r.industryData[name].value
        == IndustryValue(StoredCentsWhere(s.contracts, 1, s.nextContractId, InIndustry(name)))
  {
    var cs := ContractList(s);
    StoreFigures(s);
    DashboardStats(
      AvgProcessingTime,
      ApprovalRate(Count(cs, HasStatus("approved")), |cs|),
      Count(cs, ExpiresWithin(now)),
      TotalValue(TotalCents(cs)),
      |cs|,
      Distribution(cs),
      IndustryBreakdown(cs))
  }

  /** Over a valid store the breakdown's counts add up to the number of stored
      contracts whose industry is not inherited. */
  lemma IndustryCountsOverStore(s: Store)
    requires Valid(s)
    ensures CountsOver(Industries(ContractList(s)), ContractList(s))
         == StoredCount(s, OwnIndustry())
  {
    IndustryCountsSumToTotal(ContractList(s));
    StoreFigures(s);
  }
}
