/** The two joined listings of the store: vendors with their user accounts, and
    contracts with their vendor and analyses, newest submission first. */
module Joins {
  import opened Options
  import opened Seqs
  import opened Schema
  import opened Storage

  // ---------------------------------------------------------------------------
  // Vendors with their users (`getVendorsWithUser`)
  // ---------------------------------------------------------------------------

  function UserKnown(s: Store): Vendor -> bool {
    (v: Vendor) => v.userId in s.users
  }

  function VendorsOf(r: seq<VendorWithUser>): (vs: seq<Vendor>)
    ensures |vs| == |r| && forall j :: 0 <= j < |r| ==> vs[j] == r[j].vendor
  {
    seq(|r|, j requires 0 <= j < |r| => r[j].vendor)
  }

  /** Pairs each vendor of `vs` with the user its `userId` names, dropping the vendors
      whose user is not stored, and keeping the order of the rest. */
  function AttachUsers(s: Store, vs: seq<Vendor>): (r: seq<VendorWithUser>)
    ensures VendorsOf(r) == Filter(vs, UserKnown(s))
    ensures forall j :: 0 <= j < |r| ==> GetUser(s, r[j].vendor.userId) == Some(r[j].user)
  {
    if |vs| == 0 then []
    else
      var rest := AttachUsers(s, vs[1..]);
      FilterCons(vs, UserKnown(s));
      if vs[0].userId in s.users then
        var head := VendorWithUser(vs[0], s.users[vs[0].userId]);
        VendorsOfCons(head, rest);
        var r := [head] + rest;
        assert forall j :: 1 <= j < |r| ==> r[j] == rest[j - 1];
        r
      else rest
  }

  lemma VendorsOfCons(head: VendorWithUser, rest: seq<VendorWithUser>)
    ensures VendorsOf([head] + rest) == [head.vendor] + VendorsOf(rest)
  {
    assert forall j :: 1 <= j < |rest| + 1 ==> ([head] + rest)[j] == rest[j - 1];
  }

  function VendorsWithUser(s: Store): (r: seq<VendorWithUser>)
    ensures VendorsOf(r) == Filter(VendorList(s), UserKnown(s))
    ensures forall j :: 0 <= j < |r| ==> GetUser(s, r[j].vendor.userId) == Some(r[j].user)
  {
    AttachUsers(s, VendorList(s))
  }

  /** A stored vendor is listed exactly when its user is stored; nothing else is listed. */
  lemma VendorsWithUserMembers(s: Store, v: Vendor)
    requires Valid(s)
    ensures v in VendorsOf(VendorsWithUser(s)) <==> Stored(s.vendors, v) && v.userId in s.users
  {
    ListingValues(s.vendors, s.nextVendorId, v);
  }

  /** When every vendor's user is stored, no vendor is dropped. */
  lemma {:induction false} NoVendorDropped(s: Store)
    requires Valid(s)
    requires forall k :: k in s.vendors ==> s.vendors[k].userId in s.users
    ensures |VendorsWithUser(s)| == |s.vendors|
  {
    var vs := VendorList(s);
    forall j | 0 <= j < |vs| ensures UserKnown(s)(vs[j]) {
      ListingMembers(s.vendors, 1, s.nextVendorId, vs[j]);
    }
    CountIsFilterLength(vs, UserKnown(s));
    ListingLength(s.vendors, s.nextVendorId);
    assert |VendorsWithUser(s)| == |VendorsOf(VendorsWithUser(s))|;
  }

  // ---------------------------------------------------------------------------
  // Contracts with vendor and analyses (`getContractsWithVendor`)
  // ---------------------------------------------------------------------------

  function VendorKnown(s: Store): Contract -> bool {
    (c: Contract) => c.vendorId in s.vendors
  }

  /** `cw` carries its contract's vendor and every analysis naming that contract. */
  predicate Joined(s: Store, cw: ContractWithVendor) {
    && cw.contract.vendorId in s.vendors
    && cw.vendor == s.vendors[cw.contract.vendorId]
    && cw.aiAnalyses == Some(GetAiAnalysesByContract(s, cw.contract.id))
  }

  function ContractsOf(r: seq<ContractWithVendor>): (cs: seq<Contract>)
    ensures |cs| == |r| && forall j :: 0 <= j < |r| ==> cs[j] == r[j].contract
  {
    seq(|r|, j requires 0 <= j < |r| => r[j].contract)
  }

  /** The row for a contract whose vendor is stored: that vendor and the contract's
      analyses. */
  function JoinRow(s: Store, c: Contract): ContractWithVendor
    requires c.vendorId in s.vendors
  {
    ContractWithVendor(c, s.vendors[c.vendorId], Some(GetAiAnalysesByContract(s, c.id)))
  }

  lemma ContractsOfCons(head: ContractWithVendor, rest: seq<ContractWithVendor>)
    ensures ContractsOf([head] + rest) == [head.contract] + ContractsOf(rest)
  {
    assert forall j :: 1 <= j < |rest| + 1 ==> ([head] + rest)[j] == rest[j - 1];
  }

  /** Joins each contract of `cs` whose vendor is stored, in the order of `cs`. */
  function JoinContracts(s: Store, cs: seq<Contract>): (r: seq<ContractWithVendor>)
    ensures ContractsOf(r) == Filter(cs, VendorKnown(s))
    ensures forall j :: 0 <= j < |r| ==> Joined(s, r[j])
  {
    if |cs| == 0 then []
    else
      var rest := JoinContracts(s, cs[1..]);
      FilterCons(cs, VendorKnown(s));
      if cs[0].vendorId in s.vendors then
        var r := [JoinRow(s, cs[0])] + rest;
        ContractsOfCons(JoinRow(s, cs[0]), rest);
        assert forall j :: 1 <= j < |r| ==> r[j] == rest[j - 1];
        r
      else
        rest
  }

  /** A joined row is in the join exactly when its contract is in `cs`. */
  lemma JoinMembers(s: Store, cs: seq<Contract>, cw: ContractWithVendor)
    ensures cw in JoinContracts(s, cs) <==> cw.contract in cs && Joined(s, cw)
  {
    var r := JoinContracts(s, cs);
    if cw in r {
      var j :| 0 <= j < |r| && r[j] == cw;
      assert ContractsOf(r)[j] == cw.contract;
    }
    if cw.contract in cs && Joined(s, cw) {
      assert cw.contract in ContractsOf(r);
      var j :| 0 <= j < |r| && ContractsOf(r)[j] == cw.contract;
      assert r[j] == cw;
    }
  }

  function SubmittedAt(cw: ContractWithVendor): Timestamp {
    cw.contract.submissionDate
  }

  /** Newest submission first. */
  predicate NewestFirst(xs: seq<ContractWithVendor>) {
    forall i, j :: 0 <= i < j < |xs| ==> SubmittedAt(xs[i]) >= SubmittedAt(xs[j])
  }

  function SubmittedOn(d: Timestamp): ContractWithVendor -> bool {
    (cw: ContractWithVendor) => SubmittedAt(cw) == d
  }

  /** Places `x` before the first element submitted no later than it. */
  function InsertNewestFirst(x: ContractWithVendor, ys: seq<ContractWithVendor>): (r: seq<ContractWithVendor>)
    ensures multiset(r) == multiset([x] + ys)
    ensures |r| == |ys| + 1
    ensures |ys| > 0 ==> r[0] == x || r[0] == ys[0]
  {
    if |ys| == 0 || SubmittedAt(x) >= SubmittedAt(ys[0]) then [x] + ys
    else
      assert ys == [ys[0]] + ys[1..];
      [ys[0]] + InsertNewestFirst(x, ys[1..])
  }

  /** Inserting into a newest-first sequence keeps it newest-first. */
  lemma {:induction false} InsertSorted(x: ContractWithVendor, ys: seq<ContractWithVendor>)
    requires NewestFirst(ys)
    ensures NewestFirst(InsertNewestFirst(x, ys))
  {
    if |ys| > 0 && SubmittedAt(x) < SubmittedAt(ys[0]) {
      var tail := ys[1..];
      assert NewestFirst(tail) by {
        forall i, j | 0 <= i < j < |tail| ensures SubmittedAt(tail[i]) >= SubmittedAt(tail[j]) {
          assert tail[i] == ys[i + 1] && tail[j] == ys[j + 1];
        }
      }
      InsertSorted(x, tail);
      var rest := InsertNewestFirst(x, tail);
      var r := [ys[0]] + rest;
      assert InsertNewestFirst(x, ys) == r;
      assert |tail| > 0 ==> SubmittedAt(ys[0]) >= SubmittedAt(tail[0]);
      assert SubmittedAt(ys[0]) >= SubmittedAt(rest[0]);
      forall i, j | 0 <= i < j < |r| ensures SubmittedAt(r[i]) >= SubmittedAt(r[j]) {
        assert r[j] == rest[j - 1];
        if i > 0 {
          assert r[i] == rest[i - 1];
        } else {
          assert SubmittedAt(rest[0]) >= SubmittedAt(rest[j - 1]);
        }
      }
    }
  }

  /** A stable sort, newest submission first (the comparator `b - a` under the stable
      `Array.prototype.sort`). */
  function SortNewestFirst(xs: seq<ContractWithVendor>): (r: seq<ContractWithVendor>)
    ensures NewestFirst(r)
    ensures multiset(r) == multiset(xs)
    ensures |r| == |xs|
  {
    if |xs| == 0 then []
    else
      assert xs == [xs[0]] + xs[1..];
      InsertSorted(xs[0], SortNewestFirst(xs[1..]));
      InsertNewestFirst(xs[0], SortNewestFirst(xs[1..]))
  }

  /** Insertion keeps `x` ahead of every element submitted at the same instant. */
  lemma {:induction false} InsertKeepsTies(x: ContractWithVendor, ys: seq<ContractWithVendor>, d: Timestamp)
    ensures Filter(InsertNewestFirst(x, ys), SubmittedOn(d)) == Filter([x] + ys, SubmittedOn(d))
  {
    if |ys| > 0 && SubmittedAt(x) < SubmittedAt(ys[0]) {
      var p := SubmittedOn(d);
      var rest := InsertNewestFirst(x, ys[1..]);
      InsertKeepsTies(x, ys[1..], d);
      assert ([ys[0]] + rest)[1..] == rest;
      assert ([x] + ys)[1..] == ys;
      assert ([x] + ys[1..])[1..] == ys[1..];
      FilterCons([ys[0]] + rest, p);
      FilterCons([x] + ys, p);
      FilterCons([x] + ys[1..], p);
      FilterCons(ys, p);
    }
  }

  /** Stability: the contracts submitted at any one instant keep their relative order. */
  lemma {:induction false} SortKeepsTies(xs: seq<ContractWithVendor>, d: Timestamp)
    ensures Filter(SortNewestFirst(xs), SubmittedOn(d)) == Filter(xs, SubmittedOn(d))
  {
    if |xs| > 0 {
      var p := SubmittedOn(d);
      SortKeepsTies(xs[1..], d);
      InsertKeepsTies(xs[0], SortNewestFirst(xs[1..]), d);
      FilterAppend([xs[0]], SortNewestFirst(xs[1..]), p);
      FilterAppend([xs[0]], xs[1..], p);
      assert xs == [xs[0]] + xs[1..];
    }
  }

  function ContractsWithVendor(s: Store): (r: seq<ContractWithVendor>)
    ensures NewestFirst(r)
    ensures multiset(r) == multiset(JoinContracts(s, ContractList(s)))
    ensures |r| == Count(ContractList(s), VendorKnown(s))
  {
    var joined := JoinContracts(s, ContractList(s));
    CountIsFilterLength(ContractList(s), VendorKnown(s));
    assert |joined| == |ContractsOf(joined)|;
    SortNewestFirst(joined)
  }

  /** The listing holds exactly the stored contracts whose vendor is stored, each with
      that vendor and all of its analyses. */
  lemma ContractsWithVendorMembers(s: Store, cw: ContractWithVendor)
    requires Valid(s)
    ensures cw in ContractsWithVendor(s) <==> Stored(s.contracts, cw.contract) && Joined(s, cw)
  {
    var r := ContractsWithVendor(s);
    assert cw in r <==> cw in multiset(r);
    JoinMembers(s, ContractList(s), cw);
    ListingValues(s.contracts, s.nextContractId, cw.contract);
  }

  /** Contracts submitted at the same instant are listed in creation order. */
  lemma ContractsWithVendorTies(s: Store, d: Timestamp)
    ensures Filter(ContractsWithVendor(s), SubmittedOn(d))
         == Filter(JoinContracts(s, ContractList(s)), SubmittedOn(d))
  {
    SortKeepsTies(JoinContracts(s, ContractList(s)), d);
  }
}
