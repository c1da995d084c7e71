/**
 * The search side of the EOB provider before paging: one lookup per claim
 * kind, each hit transformed, the results concatenated in kind order,
 * SAMHSA-related claims optionally removed, and the list sorted by claim id
 * with claim type as tie-break.
 */
module ClaimSearch {
  import opened Wrappers
  import opened JavaLang
  import opened ClaimTypes
  import opened Fhir
  import ListSort

  /**
   * The database as the provider queries it, for claim records of type `R`:
   * the record of a kind with a given `@Id` value, if any, and the records
   * of a kind whose beneficiary-id attribute equals a given id, in the order
   * the query returns them.
   */
  datatype ClaimStore<R> = ClaimStore(
    findById: (ClaimType, string) -> Option<R>,
    findByPatient: (ClaimType, string) -> seq<R>)

  /** The claim transformers: kind and record to resource. */
  type Transformer<-R> = (ClaimType, R) -> ExplanationOfBenefit

  /** Every transformer yields a resource of its own claim type. */
  ghost predicate KeepsClaimType<R(!new)>(transform: Transformer<R>) {
    forall c, claim :: transform(c, claim).claimType == c
  }

  /** `transformToEobs`: one resource per claim, in the claims' order. */
  function TransformToEobs<R>(c: ClaimType, claims: seq<R>, transform: Transformer<R>): (r: seq<ExplanationOfBenefit>)
    ensures |r| == |claims|
    ensures forall i :: 0 <= i < |claims| ==> r[i] == transform(c, claims[i])
  {
    seq(|claims|, i requires 0 <= i < |claims| => transform(c, claims[i]))
  }

  /** The resources of the beneficiary's claims of each kind in `kinds`, kind after kind. */
  function MergedEobs<R>(kinds: seq<ClaimType>, store: ClaimStore<R>, transform: Transformer<R>,
                         beneficiaryId: string): seq<ExplanationOfBenefit>
  {
    if kinds == [] then []
    else TransformToEobs(kinds[0], store.findByPatient(kinds[0], beneficiaryId), transform)
         + MergedEobs(kinds[1..], store, transform, beneficiaryId)
  }

  /** The unfiltered, unsorted search list: every kind in declaration order. */
  function AllEobs<R>(store: ClaimStore<R>, transform: Transformer<R>, beneficiaryId: string): seq<ExplanationOfBenefit> {
    MergedEobs(Values(), store, transform, beneficiaryId)
  }

  /** The resources of the beneficiary's claims of kind `c`. */
  function EobsOfKind<R>(c: ClaimType, store: ClaimStore<R>, transform: Transformer<R>, beneficiaryId: string): seq<ExplanationOfBenefit> {
    TransformToEobs(c, store.findByPatient(c, beneficiaryId), transform)
  }

  /** The search list is the per-kind results concatenated in the order CARRIER, DME, ..., SNF. */
  lemma AllEobsInDeclarationOrder<R>(store: ClaimStore<R>, transform: Transformer<R>, beneficiaryId: string)
    ensures AllEobs(store, transform, beneficiaryId) ==
      [] + EobsOfKind(CARRIER, store, transform, beneficiaryId) + EobsOfKind(DME, store, transform, beneficiaryId)
      + EobsOfKind(HHA, store, transform, beneficiaryId) + EobsOfKind(HOSPICE, store, transform, beneficiaryId)
      + EobsOfKind(INPATIENT, store, transform, beneficiaryId) + EobsOfKind(OUTPATIENT, store, transform, beneficiaryId)
      + EobsOfKind(PDE, store, transform, beneficiaryId) + EobsOfKind(SNF, store, transform, beneficiaryId)
  {
    var kinds := Values();
    assert kinds[8..] == [];
    assert kinds[7..][1..] == kinds[8..];
    assert MergedEobs(kinds[7..], store, transform, beneficiaryId) == EobsOfKind(SNF, store, transform, beneficiaryId) + [];
    assert kinds[6..][1..] == kinds[7..];
    assert MergedEobs(kinds[6..], store, transform, beneficiaryId) == EobsOfKind(PDE, store, transform, beneficiaryId) + MergedEobs(kinds[7..], store, transform, beneficiaryId);
    assert kinds[5..][1..] == kinds[6..];
    assert MergedEobs(kinds[5..], store, transform, beneficiaryId) == EobsOfKind(OUTPATIENT, store, transform, beneficiaryId) + MergedEobs(kinds[6..], store, transform, beneficiaryId);
    assert kinds[4..][1..] == kinds[5..];
    assert MergedEobs(kinds[4..], store, transform, beneficiaryId) == EobsOfKind(INPATIENT, store, transform, beneficiaryId) + MergedEobs(kinds[5..], store, transform, beneficiaryId);
    assert kinds[3..][1..] == kinds[4..];
    assert MergedEobs(kinds[3..], store, transform, beneficiaryId) == EobsOfKind(HOSPICE, store, transform, beneficiaryId) + MergedEobs(kinds[4..], store, transform, beneficiaryId);
    assert kinds[2..][1..] == kinds[3..];
    assert MergedEobs(kinds[2..], store, transform, beneficiaryId) == EobsOfKind(HHA, store, transform, beneficiaryId) + MergedEobs(kinds[3..], store, transform, beneficiaryId);
    assert kinds[1..][1..] == kinds[2..];
    assert MergedEobs(kinds[1..], store, transform, beneficiaryId) == EobsOfKind(DME, store, transform, beneficiaryId) + MergedEobs(kinds[2..], store, transform, beneficiaryId);
    assert kinds[0..][1..] == kinds[1..];
    assert MergedEobs(kinds[0..], store, transform, beneficiaryId) == EobsOfKind(CARRIER, store, transform, beneficiaryId) + MergedEobs(kinds[1..], store, transform, beneficiaryId);
    assert kinds[0..] == kinds;
  }

  /** `e` is the transform of one of the beneficiary's claims of kind `c`. */
  predicate IsEobOfKind<R>(e: ExplanationOfBenefit, c: ClaimType, store: ClaimStore<R>,
                           transform: Transformer<R>, beneficiaryId: string)
  {
    e in TransformToEobs(c, store.findByPatient(c, beneficiaryId), transform)
  }

  /** The merged list holds exactly the transforms of the claims of the listed kinds. */
  lemma {:induction false} MergedEobsMembers<R>(kinds: seq<ClaimType>, store: ClaimStore<R>,
                                                transform: Transformer<R>, beneficiaryId: string,
                                                e: ExplanationOfBenefit)
    ensures e in MergedEobs(kinds, store, transform, beneficiaryId)
            <==> exists c :: c in kinds && IsEobOfKind(e, c, store, transform, beneficiaryId)
  {
    if kinds != [] {
      var head := TransformToEobs(kinds[0], store.findByPatient(kinds[0], beneficiaryId), transform);
      var tail := MergedEobs(kinds[1..], store, transform, beneficiaryId);
      MergedEobsMembers(kinds[1..], store, transform, beneficiaryId, e);
      assert e in head + tail <==> e in head || e in tail;
      if e in tail {
        var c :| c in kinds[1..] && IsEobOfKind(e, c, store, transform, beneficiaryId);
        assert c in kinds;
      }
      if e in head {
        assert IsEobOfKind(e, kinds[0], store, transform, beneficiaryId);
      }
      if c :| c in kinds && IsEobOfKind(e, c, store, transform, beneficiaryId) {
        if c != kinds[0] {
          assert c in kinds[1..];
        }
      }
    }
  }

  /** The merged list is as long as all per-kind results together. */
  lemma {:induction false} MergedEobsLength<R>(kinds: seq<ClaimType>, store: ClaimStore<R>,
                                               transform: Transformer<R>, beneficiaryId: string)
    ensures |MergedEobs(kinds, store, transform, beneficiaryId)| == ResultCount(kinds, store, beneficiaryId)
  {
    if kinds != [] {
      MergedEobsLength(kinds[1..], store, transform, beneficiaryId);
    }
  }

  function ResultCount<R>(kinds: seq<ClaimType>, store: ClaimStore<R>, beneficiaryId: string): nat {
    if kinds == [] then 0
    else |store.findByPatient(kinds[0], beneficiaryId)| + ResultCount(kinds[1..], store, beneficiaryId)
  }

  /** Search completeness: a resource is in the search list iff it transforms a claim of some kind. */
  lemma AllEobsMembers<R>(store: ClaimStore<R>, transform: Transformer<R>, beneficiaryId: string,
                          e: ExplanationOfBenefit)
    ensures e in AllEobs(store, transform, beneficiaryId)
            <==> exists c :: IsEobOfKind(e, c, store, transform, beneficiaryId)
  {
    MergedEobsMembers(Values(), store, transform, beneficiaryId, e);
    forall c ensures c in Values() {
      assert Values()[Ordinal(c)] == c;
    }
  }

  /** Claim types never decrease along the list. */
  ghost predicate InClaimTypeOrder(s: seq<ExplanationOfBenefit>) {
    forall i, j :: 0 <= i < j < |s| ==> Ordinal(s[i].claimType) <= Ordinal(s[j].claimType)
  }

  /** Kinds listed in declaration order, each at most once. */
  ghost predicate AscendingKinds(kinds: seq<ClaimType>) {
    forall i, j :: 0 <= i < j < |kinds| ==> Ordinal(kinds[i]) < Ordinal(kinds[j])
  }

  /** With transformers that keep their kind, the merged list is in claim-type order. */
  lemma {:induction false} MergedEobsInClaimTypeOrder<R(!new)>(kinds: seq<ClaimType>, store: ClaimStore<R>,
                                                         transform: Transformer<R>, beneficiaryId: string)
    requires KeepsClaimType(transform) && AscendingKinds(kinds)
    ensures InClaimTypeOrder(MergedEobs(kinds, store, transform, beneficiaryId))
    ensures forall e :: e in MergedEobs(kinds, store, transform, beneficiaryId) ==> e.claimType in kinds
  {
    if kinds != [] {
      var head := TransformToEobs(kinds[0], store.findByPatient(kinds[0], beneficiaryId), transform);
      var tail := MergedEobs(kinds[1..], store, transform, beneficiaryId);
      MergedEobsInClaimTypeOrder(kinds[1..], store, transform, beneficiaryId);
      forall e | e in tail ensures Ordinal(kinds[0]) < Ordinal(e.claimType) {
        var k :| 1 <= k < |kinds| && kinds[k] == e.claimType;
      }
      assert forall i :: 0 <= i < |head| ==> head[i].claimType == kinds[0];
      var all := head + tail;
      forall i, j | 0 <= i < j < |all| ensures Ordinal(all[i].claimType) <= Ordinal(all[j].claimType) {
        if j >= |head| {
          assert all[j] == tail[j - |head|];
          if i >= |head| {
            assert all[i] == tail[i - |head|];
          }
        }
      }
    }
  }

  // ---------------------------------------------------------------------------
  // filterSamhsa

  /** The list without the resources the SAMHSA matcher accepts, survivors in their order. */
  function WithoutSamhsa(eobs: seq<ExplanationOfBenefit>, isSamhsa: ExplanationOfBenefit -> bool): seq<ExplanationOfBenefit> {
    if eobs == [] then []
    else WithoutSamhsa(eobs[..|eobs| - 1], isSamhsa)
         + (if isSamhsa(eobs[|eobs| - 1]) then [] else [eobs[|eobs| - 1]])
  }

  /** Removes exactly the matched resources. */
  lemma {:induction false} WithoutSamhsaMembers(eobs: seq<ExplanationOfBenefit>,
                                                isSamhsa: ExplanationOfBenefit -> bool, e: ExplanationOfBenefit)
    ensures e in WithoutSamhsa(eobs, isSamhsa) <==> e in eobs && !isSamhsa(e)
  {
    if eobs != [] {
      var init := eobs[..|eobs| - 1];
      WithoutSamhsaMembers(init, isSamhsa, e);
      assert eobs == init + [eobs[|eobs| - 1]];
    }
  }

  /** Filtering distributes over concatenation: filtering per kind equals filtering the merged list. */
  lemma {:induction false} WithoutSamhsaAppend(a: seq<ExplanationOfBenefit>, b: seq<ExplanationOfBenefit>,
                                               isSamhsa: ExplanationOfBenefit -> bool)
    ensures WithoutSamhsa(a + b, isSamhsa) == WithoutSamhsa(a, isSamhsa) + WithoutSamhsa(b, isSamhsa)
    decreases |b|
  {
    if b == [] {
      assert a + b == a;
    } else {
      var binit := b[..|b| - 1];
      assert (a + b)[..|a + b| - 1] == a + binit;
      assert (a + b)[|a + b| - 1] == b[|b| - 1];
      WithoutSamhsaAppend(a, binit, isSamhsa);
    }
  }

  /** Nothing matched means nothing removed. */
  lemma {:induction false} WithoutSamhsaNoMatch(eobs: seq<ExplanationOfBenefit>, isSamhsa: ExplanationOfBenefit -> bool)
    requires forall i :: 0 <= i < |eobs| ==> !isSamhsa(eobs[i])
    ensures WithoutSamhsa(eobs, isSamhsa) == eobs
  {
    if eobs != [] {
      WithoutSamhsaNoMatch(eobs[..|eobs| - 1], isSamhsa);
    }
  }

  /** The survivors keep their relative order, so claim-type order survives filtering. */
  lemma {:induction false} WithoutSamhsaInClaimTypeOrder(eobs: seq<ExplanationOfBenefit>,
                                                          isSamhsa: ExplanationOfBenefit -> bool)
    requires InClaimTypeOrder(eobs)
    ensures InClaimTypeOrder(WithoutSamhsa(eobs, isSamhsa))
  {
    if eobs != [] {
      var init := eobs[..|eobs| - 1];
      var last := eobs[|eobs| - 1];
      var kept := WithoutSamhsa(init, isSamhsa);
      WithoutSamhsaInClaimTypeOrder(init, isSamhsa);
      forall e | e in kept ensures Ordinal(e.claimType) <= Ordinal(last.claimType) {
        WithoutSamhsaMembers(init, isSamhsa, e);
      }
    }
  }

  /**
   * `filterSamhsa(eobs)`: walks the list with an iterator and removes each
   * element the matcher accepts.
   */
  method FilterSamhsa(eobs: seq<ExplanationOfBenefit>, isSamhsa: ExplanationOfBenefit -> bool)
    returns (kept: seq<ExplanationOfBenefit>)
    ensures kept == WithoutSamhsa(eobs, isSamhsa)
  {
    kept := eobs;
    var cursor := 0;
    ghost var visited := 0;
    while cursor < |kept|
      invariant 0 <= cursor <= |kept| && 0 <= visited <= |eobs|
      invariant kept[..cursor] == WithoutSamhsa(eobs[..visited], isSamhsa)
      invariant kept[cursor..] == eobs[visited..]
      decreases |kept| - cursor
    {
      var eob := kept[cursor];
      assert eob == eobs[visited] && kept[cursor + 1..] == eobs[visited + 1..];
      assert eobs[..visited + 1][..visited] == eobs[..visited];
      if isSamhsa(eob) {
        kept := kept[..cursor] + kept[cursor + 1..];
      } else {
        cursor := cursor + 1;
      }
      visited := visited + 1;
    }
    assert eobs[..visited] == eobs;
  }

  // ---------------------------------------------------------------------------
  // compareByClaimIdThenClaimType and the sort

  /**
   * `compareByClaimIdThenClaimType`, with its `==` on the two claim-id
   * strings read as value equality: claim id first, claim type on a tie.
   */
  function CompareByClaimIdThenClaimType(e1: ExplanationOfBenefit, e2: ExplanationOfBenefit): int {
    if e1.unprefixedClaimId == e2.unprefixedClaimId then CompareClaimTypes(e1.claimType, e2.claimType)
    else CompareTo(e1.unprefixedClaimId, e2.unprefixedClaimId)
  }

  /**
   * The same comparator when its `==` finds two distinct String objects:
   * only `compareTo` on the claim ids decides.
   */
  function CompareByClaimId(e1: ExplanationOfBenefit, e2: ExplanationOfBenefit): int {
    CompareTo(e1.unprefixedClaimId, e2.unprefixedClaimId)
  }

  lemma CompareByClaimIdThenClaimTypeIsTotalPreorder()
    ensures ListSort.IsTotalPreorder(CompareByClaimIdThenClaimType)
  {
    forall a, b ensures CompareByClaimIdThenClaimType(a, b) <= 0 || CompareByClaimIdThenClaimType(b, a) <= 0 {
      CompareToAntisymmetric(a.unprefixedClaimId, b.unprefixedClaimId);
    }
    forall a, b, c | CompareByClaimIdThenClaimType(a, b) <= 0 && CompareByClaimIdThenClaimType(b, c) <= 0
      ensures CompareByClaimIdThenClaimType(a, c) <= 0
    {
      var x, y, z := a.unprefixedClaimId, b.unprefixedClaimId, c.unprefixedClaimId;
      CompareToZeroIffEqual(x, y);
      CompareToZeroIffEqual(y, z);
      CompareToZeroIffEqual(x, z);
      CompareToTransitive(x, y, z);
      CompareToAntisymmetric(x, z);
      if x == z && x != y {
        CompareToAntisymmetric(x, y);
      }
    }
  }

  /** Sorted by the comparator: ascending claim ids, equal ids in claim-type order. */
  ghost predicate SortedByClaimIdThenClaimType(s: seq<ExplanationOfBenefit>) {
    forall i, j :: 0 <= i < j < |s| ==>
      && CompareTo(s[i].unprefixedClaimId, s[j].unprefixedClaimId) <= 0
      && (s[i].unprefixedClaimId == s[j].unprefixedClaimId ==> Ordinal(s[i].claimType) <= Ordinal(s[j].claimType))
  }

  /** `eobs.sort(compareByClaimIdThenClaimType)`. */
  function SortEobs(eobs: seq<ExplanationOfBenefit>): seq<ExplanationOfBenefit> {
    ListSort.Sort(eobs, CompareByClaimIdThenClaimType)
  }

  /** The sorted list is a permutation of its input, ascending by claim id and then claim type. */
  lemma SortEobsSorted(eobs: seq<ExplanationOfBenefit>)
    ensures multiset(SortEobs(eobs)) == multiset(eobs)
    ensures SortedByClaimIdThenClaimType(SortEobs(eobs))
  {
    var s := SortEobs(eobs);
    CompareByClaimIdThenClaimTypeIsTotalPreorder();
    ListSort.SortSorted(eobs, CompareByClaimIdThenClaimType);
    forall i, j | 0 <= i < j < |s|
      ensures CompareTo(s[i].unprefixedClaimId, s[j].unprefixedClaimId) <= 0
    {
      assert CompareByClaimIdThenClaimType(s[i], s[j]) <= 0;
      CompareToZeroIffEqual(s[i].unprefixedClaimId, s[j].unprefixedClaimId);
    }
  }

  /** Equal claim ids appear in claim-type order. */
  ghost predicate ClaimTypeOrderPerClaimId(s: seq<ExplanationOfBenefit>) {
    forall i, j :: 0 <= i < j < |s| && s[i].unprefixedClaimId == s[j].unprefixedClaimId ==>
      Ordinal(s[i].claimType) <= Ordinal(s[j].claimType)
  }

  lemma {:induction false} InsertByClaimIdAgrees(x: ExplanationOfBenefit, s: seq<ExplanationOfBenefit>)
    requires forall y :: y in s && y.unprefixedClaimId == x.unprefixedClaimId ==> Ordinal(x.claimType) <= Ordinal(y.claimType)
    ensures ListSort.Insert(x, s, CompareByClaimId) == ListSort.Insert(x, s, CompareByClaimIdThenClaimType)
  {
    if s != [] {
      CompareToZeroIffEqual(x.unprefixedClaimId, s[0].unprefixedClaimId);
      InsertByClaimIdAgrees(x, s[1..]);
    }
  }

  /**
   * Whichever way the `==` of the comparator goes, the stable sort returns
   * the same list, provided equal claim ids already come in claim-type
   * order, as they do in the merged search list.
   */
  lemma {:induction false} SortByClaimIdAgrees(s: seq<ExplanationOfBenefit>)
    requires ClaimTypeOrderPerClaimId(s)
    ensures ListSort.Sort(s, CompareByClaimId) == SortEobs(s)
  {
    if s != [] {
      var rest := s[1..];
      SortByClaimIdAgrees(rest);
      var sorted := SortEobs(rest);
      forall y | y in sorted && y.unprefixedClaimId == s[0].unprefixedClaimId
        ensures Ordinal(s[0].claimType) <= Ordinal(y.claimType)
      {
        assert y in multiset(sorted);
        var k :| 0 <= k < |rest| && rest[k] == y;
        assert s[k + 1] == y;
      }
      InsertByClaimIdAgrees(s[0], sorted);
    }
  }

  // ---------------------------------------------------------------------------
  // The search list before paging

  /** The resources `findByPatient` pages over: merged, filtered when requested, sorted. */
  function SearchResults<R>(store: ClaimStore<R>, transform: Transformer<R>,
                            isSamhsa: ExplanationOfBenefit -> bool,
                            beneficiaryId: string, excludeSamhsa: Option<string>): seq<ExplanationOfBenefit>
  {
    var merged := AllEobs(store, transform, beneficiaryId);
    SortEobs(if ParseBoolean(excludeSamhsa) then WithoutSamhsa(merged, isSamhsa) else merged)
  }

  /**
   * The search results are sorted and hold exactly the transformed claims of
   * every kind, less the SAMHSA-related ones when `excludeSAMHSA` is true.
   */
  lemma SearchResultsMembers<R>(store: ClaimStore<R>, transform: Transformer<R>,
                                isSamhsa: ExplanationOfBenefit -> bool,
                                beneficiaryId: string, excludeSamhsa: Option<string>, e: ExplanationOfBenefit)
    ensures SortedByClaimIdThenClaimType(SearchResults(store, transform, isSamhsa, beneficiaryId, excludeSamhsa))
    ensures e in SearchResults(store, transform, isSamhsa, beneficiaryId, excludeSamhsa)
            <==> (exists c :: IsEobOfKind(e, c, store, transform, beneficiaryId))
                 && !(ParseBoolean(excludeSamhsa) && isSamhsa(e))
  {
    var merged := AllEobs(store, transform, beneficiaryId);
    var filtered := if ParseBoolean(excludeSamhsa) then WithoutSamhsa(merged, isSamhsa) else merged;
    SortEobsSorted(filtered);
    assert e in SortEobs(filtered) <==> e in multiset(filtered);
    AllEobsMembers(store, transform, beneficiaryId, e);
    WithoutSamhsaMembers(merged, isSamhsa, e);
  }

  /**
   * With transformers that keep their kind, sorting by claim id alone (the
   * comparator when its `==` is false) yields the same search results.
   */
  lemma SearchResultsIndependentOfIdIdentity<R(!new)>(store: ClaimStore<R>, transform: Transformer<R>,
                                                isSamhsa: ExplanationOfBenefit -> bool,
                                                beneficiaryId: string, excludeSamhsa: Option<string>)
    requires KeepsClaimType(transform)
    ensures var merged := AllEobs(store, transform, beneficiaryId);
            var filtered := if ParseBoolean(excludeSamhsa) then WithoutSamhsa(merged, isSamhsa) else merged;
            ListSort.Sort(filtered, CompareByClaimId) == SearchResults(store, transform, isSamhsa, beneficiaryId, excludeSamhsa)
  {
    var merged := AllEobs(store, transform, beneficiaryId);
    MergedEobsInClaimTypeOrder(Values(), store, transform, beneficiaryId);
    WithoutSamhsaInClaimTypeOrder(merged, isSamhsa);
    var filtered := if ParseBoolean(excludeSamhsa) then WithoutSamhsa(merged, isSamhsa) else merged;
    SortByClaimIdAgrees(filtered);
  }
}
