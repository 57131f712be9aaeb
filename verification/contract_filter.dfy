/** The contract list page's filter: a case-insensitive search over title and company
    name, and a status choice that is either `all` or one exact status. */
module ContractFilter {
  import opened Seqs
  import opened Text
  import opened Schema

  /** The search term occurs, ignoring ASCII case, in the title or the company name. */
  function MatchesSearch(cw: ContractWithVendor, term: string): (b: bool)
    ensures b <==>
              (exists i :: OccursAt(Lower(cw.contract.title), Lower(term), i))
              || (exists i :: OccursAt(Lower(cw.vendor.companyName), Lower(term), i))
    ensures term == "" ==> b
  {
    ContainsSpec(Lower(cw.contract.title), Lower(term));
    ContainsSpec(Lower(cw.vendor.companyName), Lower(term));
    assert term == "" ==> Lower(term) == "" && OccursAt(Lower(cw.contract.title), Lower(term), 0);
    Contains(Lower(cw.contract.title), Lower(term))
      || Contains(Lower(cw.vendor.companyName), Lower(term))
  }

  /** `all` lets every row through; any other choice only rows with exactly that
      status, so a choice outside the schema's vocabulary lets no such row through. */
  function MatchesStatus(cw: ContractWithVendor, statusFilter: string): (b: bool)
    ensures statusFilter == "all" ==> b
    ensures statusFilter == cw.contract.status ==> b
    ensures b && statusFilter != "all" ==> cw.contract.status == statusFilter
    ensures IsContractStatus(cw.contract.status) && !IsContractStatus(statusFilter) ==>
              statusFilter != "all" ==> !b
  {
    statusFilter == "all" || cw.contract.status == statusFilter
  }

  function Matches(term: string, statusFilter: string): ContractWithVendor -> bool {
    (cw: ContractWithVendor) => MatchesSearch(cw, term) && MatchesStatus(cw, statusFilter)
  }

  /** The rows that pass both tests, in the order they came. */
  function FilterContracts(cs: seq<ContractWithVendor>, term: string, statusFilter: string)
    : (r: seq<ContractWithVendor>)
    ensures IsSubsequence(r, cs)
    ensures |r| == Count(cs, Matches(term, statusFilter))
    ensures forall cw :: cw in r <==>
      cw in cs && MatchesSearch(cw, term) && MatchesStatus(cw, statusFilter)
  {
    CountIsFilterLength(cs, Matches(term, statusFilter));
    Filter(cs, Matches(term, statusFilter))
  }

  /** Every string contains the empty string. */
  lemma ContainsEmpty(s: string)
    ensures Contains(s, "")
  {
    ContainsSpec(s, "");
    assert OccursAt(s, "", 0);
  }

  /** With an empty search and `all`, nothing is filtered out. */
  lemma {:induction false} EmptySearchKeepsAll(cs: seq<ContractWithVendor>)
    ensures FilterContracts(cs, "", "all") == cs
  {
    if |cs| > 0 {
      ContainsEmpty(Lower(cs[0].contract.title));
      assert Lower("") == "";
      EmptySearchKeepsAll(cs[1..]);
      assert cs == [cs[0]] + cs[1..];
    }
  }

  /** The search ignores ASCII case: terms that lower-case alike filter alike. */
  lemma {:induction false} SearchIgnoresCase(cs: seq<ContractWithVendor>, t1: string, t2: string, statusFilter: string)
    requires Lower(t1) == Lower(t2)
    ensures FilterContracts(cs, t1, statusFilter) == FilterContracts(cs, t2, statusFilter)
  {
    if |cs| > 0 {
      assert Matches(t1, statusFilter)(cs[0]) == Matches(t2, statusFilter)(cs[0]);
      SearchIgnoresCase(cs[1..], t1, t2, statusFilter);
    }
  }

  /** The "need more information" choice names a status no contract of the schema's
      vocabulary has, so over such contracts it always yields an empty list. */
  lemma {:induction false} NeedsMoreInformationYieldsNothing(cs: seq<ContractWithVendor>, term: string)
    requires forall i :: 0 <= i < |cs| ==> IsContractStatus(cs[i].contract.status)
    ensures FilterContracts(cs, term, "needs_more_information") == []
  {
    if |cs| > 0 {
      assert IsContractStatus(cs[0].contract.status);
      var st := ParseContractStatus(cs[0].contract.status).value;
      assert st.Name() == cs[0].contract.status;
      assert !MatchesStatus(cs[0], "needs_more_information");
      NeedsMoreInformationYieldsNothing(cs[1..], term);
    }
  }
}
