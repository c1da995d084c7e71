/**
 * `ExplanationOfBenefitResourceProvider`: the FHIR `read` of one
 * ExplanationOfBenefit by its id text, and the search by patient, which
 * merges the claims of every kind, drops the SAMHSA-related ones on request,
 * sorts them, and returns them in a `Bundle`, a page at a time when asked.
 *
 * The database queries, the claim transformers and the SAMHSA matcher are
 * parameters: a `ClaimStore`, a `Transformer` and a predicate.
 */
module EobProvider {
  import opened Wrappers
  import opened JavaLang
  import opened ClaimTypes
  import opened EobIds
  import opened Fhir
  import opened ClaimSearch
  import opened Paging

  // ---------------------------------------------------------------------------
  // read

  /**
   * An id `read` looks up rather than rejects with an IllegalArgumentException:
   * present, without a version, with an id part that is not blank.
   */
  predicate IsReadableId(eobId: Option<IdType>) {
    && eobId.Some?
    && eobId.value.versionIdPartAsLong.None?
    && eobId.value.idPart.Some?
    && !IsBlank(eobId.value.idPart.value)
  }

  /**
   * `read(eobId)`. An unreadable id is an IllegalArgumentException; an id
   * text that does not match the pattern, names no claim kind, or names no
   * stored claim is a ResourceNotFoundException. Otherwise the result is the
   * transform of the claim whose kind and unprefixed id the text names.
   */
  function Read<R>(eobId: Option<IdType>, store: ClaimStore<R>, transform: Transformer<R>)
    : (r: Result<ExplanationOfBenefit, ProviderException>)
    ensures r == Failure(IllegalArgument) <==> !IsReadableId(eobId)
    ensures r.Failure? ==> r.error == IllegalArgument || r.error == ResourceNotFound
    ensures r.Success? ==>
              exists c, claimId :: && eobId.value.idPart.value == EobIdText(c, claimId)
                                   && IsAlnumWord(claimId)
                                   && store.findById(c, claimId).Some?
                                   && r.value == transform(c, store.findById(c, claimId).value)
  {
    if eobId.None? then Failure(IllegalArgument)
    else if eobId.value.versionIdPartAsLong.Some? then Failure(IllegalArgument)
    else if eobId.value.idPart.None? then Failure(IllegalArgument)
    else
      var eobIdText := eobId.value.idPart.value;
      TrimIsEmptyIffBlank(eobIdText);
      if Trim(eobIdText) == [] then Failure(IllegalArgument)
      else ReadIdText(eobIdText, store, transform)
  }

  /**
   * The lookup `read` makes for an id text that is not blank: match the
   * pattern, parse the kind prefix, query the claim by its unprefixed id.
   */
  function ReadIdText<R>(eobIdText: string, store: ClaimStore<R>, transform: Transformer<R>)
    : (r: Result<ExplanationOfBenefit, ProviderException>)
    ensures r.Failure? ==> r.error == ResourceNotFound
    ensures r.Success? ==>
              exists c, claimId :: && eobIdText == EobIdText(c, claimId)
                                   && IsAlnumWord(claimId)
                                   && store.findById(c, claimId).Some?
                                   && r.value == transform(c, store.findById(c, claimId).value)
  {
    match MatchEobId(eobIdText)
    case None => Failure(ResourceNotFound)
    case Some(groups) =>
      match Parse(groups.claimTypeText)
      case None => Failure(ResourceNotFound)
      case Some(c) =>
        match store.findById(c, groups.claimIdText)
        case None => Failure(ResourceNotFound)
        case Some(claim) =>
          assert eobIdText == EobIdText(c, groups.claimIdText);
          Success(transform(c, claim))
  }

  /** The unversioned id whose id part is `text`. */
  function IdOf(text: string): Option<IdType> {
    Some(IdType(Some(text), None))
  }

  /**
   * Reading the id the application gives a claim finds that claim: the
   * transform of the stored claim of that kind and id, or a
   * ResourceNotFoundException when there is none.
   */
  lemma ReadEobIdText<R>(c: ClaimType, claimId: string, store: ClaimStore<R>, transform: Transformer<R>)
    requires IsAlnumWord(claimId)
    ensures Read(IdOf(EobIdText(c, claimId)), store, transform)
            == if store.findById(c, claimId).Some? then Success(transform(c, store.findById(c, claimId).value))
               else Failure(ResourceNotFound)
  {
    var text := EobIdText(c, claimId);
    assert !IsBlank(text) by {
      TagIsAlphabetic(c);
      assert text[0] == Tag(c)[0] && IsAlpha(Tag(c)[0]);
    }
    ReadNonBlank(text, store, transform);
    DecodeEobIdText(c, claimId);
  }

  /** A non-blank, unversioned id goes straight to the lookup by its text. */
  lemma ReadNonBlank<R>(text: string, store: ClaimStore<R>, transform: Transformer<R>)
    requires !IsBlank(text)
    ensures Read(IdOf(text), store, transform) == ReadIdText(text, store, transform)
  {
    TrimIsEmptyIffBlank(text);
  }

  /** A non-blank id text that is not `<letters>-<letters or digits>` is not found. */
  lemma ReadUnmatchedText<R>(text: string, store: ClaimStore<R>, transform: Transformer<R>)
    requires !IsBlank(text) && forall i :: !MatchesAt(text, i)
    ensures Read(IdOf(text), store, transform) == Failure(ResourceNotFound)
  {
  }

  /**
   * A well-formed id text whose prefix is not the lower-case name of a claim
   * kind is not found, whatever the store holds.
   */
  lemma ReadUnknownKind<R>(tag: string, claimId: string, store: ClaimStore<R>, transform: Transformer<R>)
    requires IsAlphaWord(tag) && IsAlnumWord(claimId)
    requires forall c :: Tag(c) != tag
    ensures Read(IdOf(tag + "-" + claimId), store, transform) == Failure(ResourceNotFound)
  {
    MatchJoined(tag, claimId);
    assert (tag + "-" + claimId)[0] == tag[0] && IsAlpha(tag[0]);
  }

  // ---------------------------------------------------------------------------
  // The search bundle

  const ZERO_PAGE_SIZE_MESSAGE: string := "Invalid request - the page size should not be zero."

  /**
   * What `findByPatient` does with the sorted search list `eobs`: the whole
   * list when no paging is requested, otherwise the page at the start index
   * with its paging links; the total is the size of the whole list.
   */
  function SearchBundle(eobs: seq<ExplanationOfBenefit>, request: RequestDetails, beneficiaryId: string)
    : (r: Result<BundleValue, ProviderException>)
    ensures r.Success? ==> r.value.total == Some(|eobs|)
    ensures r.Success? ==> exists from, to :: 0 <= from <= to <= |eobs| && r.value.entries == eobs[from..to]
    ensures r.Failure? ==> r.error != BadCodeMonkey
  {
    var pagingArgs :- NewPagingArguments(request);
    var paging :- IsPagingRequested(pagingArgs);
    if paging then
      var pageSize := GetPageSize(pagingArgs).value;
      if pageSize == 0 then Failure(InvalidRequest(ZERO_PAGE_SIZE_MESSAGE))
      else
        var startIndex := GetStartIndex(pagingArgs).value;
        var resources :- Page(eobs, startIndex, pageSize);
        Success(BundleValue(resources,
                            PagingLinks(pagingArgs.serverBase, beneficiaryId, pageSize, startIndex, |eobs|),
                            Some(|eobs|)))
    else
      assert eobs == eobs[0..|eobs|];
      Success(BundleValue(eobs, [], Some(|eobs|)))
  }

  /** `findByPatient(patient, startIndex, excludeSamhsa, requestDetails)`, as a value. */
  function Search<R>(store: ClaimStore<R>, transform: Transformer<R>, isSamhsa: ExplanationOfBenefit -> bool,
                     beneficiaryId: string, excludeSamhsa: Option<string>, request: RequestDetails)
    : Result<BundleValue, ProviderException>
  {
    SearchBundle(SearchResults(store, transform, isSamhsa, beneficiaryId, excludeSamhsa), request, beneficiaryId)
  }

  /** Without `_count` and `startIndex` the bundle holds the whole list and no links. */
  lemma UnpagedSearchReturnsAll(eobs: seq<ExplanationOfBenefit>, serverBase: string, beneficiaryId: string)
    ensures SearchBundle(eobs, PagingRequest(None, None, serverBase), beneficiaryId)
            == Success(BundleValue(eobs, [], Some(|eobs|)))
  {
    PagingRequestCases(None, None, serverBase);
  }

  /**
   * With `_count` = n and `startIndex` = s (both `int`s, n positive), the
   * bundle holds the full page of `min(n, size)` results from s with its
   * links, or the search fails with an IndexOutOfBoundsException when that
   * page does not fit in the list.
   */
  lemma PagedSearch(eobs: seq<ExplanationOfBenefit>, n: int, s: int, serverBase: string, beneficiaryId: string)
    requires IsInt32(n) && IsInt32(s) && n > 0
    ensures SearchBundle(eobs, PagingRequest(Some(IntToString(n)), Some(IntToString(s)), serverBase), beneficiaryId)
            == if 0 <= s && s + Min(n, |eobs|) <= |eobs| then
                 Success(BundleValue(eobs[s..s + Min(n, |eobs|)], PagingLinks(serverBase, beneficiaryId, n, s, |eobs|),
                                     Some(|eobs|)))
               else Failure(IndexOutOfBounds)
  {
    ParseIntOfIntToString(n);
    ParseIntOfIntToString(s);
    PagingRequestCases(Some(IntToString(n)), Some(IntToString(s)), serverBase);
  }

  /** `_count` alone pages from the first result. */
  lemma CountAlonePagesFromStart(eobs: seq<ExplanationOfBenefit>, n: int, serverBase: string, beneficiaryId: string)
    requires IsInt32(n) && n > 0
    ensures SearchBundle(eobs, PagingRequest(Some(IntToString(n)), None, serverBase), beneficiaryId)
            == Success(BundleValue(eobs[..Min(n, |eobs|)], PagingLinks(serverBase, beneficiaryId, n, 0, |eobs|),
                                   Some(|eobs|)))
  {
    ParseIntOfIntToString(n);
    PagingRequestCases(Some(IntToString(n)), None, serverBase);
    FirstPage(eobs, n);
  }

  /** `startIndex` without `_count` is an IllegalArgumentException. */
  lemma StartIndexAloneRejected(eobs: seq<ExplanationOfBenefit>, s: string, serverBase: string, beneficiaryId: string)
    requires ParseInt(s).Some?
    ensures SearchBundle(eobs, PagingRequest(None, Some(s), serverBase), beneficiaryId) == Failure(IllegalArgument)
  {
    PagingRequestCases(None, Some(s), serverBase);
  }

  /** `_count=0` is an InvalidRequestException, whatever the start index. */
  lemma ZeroCountRejected(eobs: seq<ExplanationOfBenefit>, s: Option<string>, serverBase: string, beneficiaryId: string)
    requires s.None? || ParseInt(s.value).Some?
    ensures SearchBundle(eobs, PagingRequest(Some(IntToString(0)), s, serverBase), beneficiaryId)
            == Failure(InvalidRequest(ZERO_PAGE_SIZE_MESSAGE))
  {
    ParseIntOfIntToString(0);
    PagingRequestCases(Some(IntToString(0)), s, serverBase);
  }

  /**
   * A negative `_count` is not rejected as such: the page's end falls before
   * its start and `subList` throws an IllegalArgumentException.
   */
  lemma NegativeCountRejected(eobs: seq<ExplanationOfBenefit>, n: int, serverBase: string, beneficiaryId: string)
    requires IsInt32(n) && n < 0
    ensures SearchBundle(eobs, PagingRequest(Some(IntToString(n)), None, serverBase), beneficiaryId)
            == Failure(IllegalArgument)
  {
    ParseIntOfIntToString(n);
    PagingRequestCases(Some(IntToString(n)), None, serverBase);
  }

  /**
   * A negative `_count` with a `startIndex` always fails, but which exception
   * depends on the start: `subList` checks the start, then the end, then
   * their order, so a start outside the list is IndexOutOfBoundsException.
   */
  lemma NegativeCountWithStartIndex(eobs: seq<ExplanationOfBenefit>, n: int, s: int, serverBase: string,
                                    beneficiaryId: string)
    requires IsInt32(n) && IsInt32(s) && n < 0
    ensures SearchBundle(eobs, PagingRequest(Some(IntToString(n)), Some(IntToString(s)), serverBase), beneficiaryId)
            == if s < 0 || s + n > |eobs| then Failure(IndexOutOfBounds) else Failure(IllegalArgument)
  {
    ParseIntOfIntToString(n);
    ParseIntOfIntToString(s);
    PagingRequestCases(Some(IntToString(n)), Some(IntToString(s)), serverBase);
  }

  /**
   * 20 results in pages of 8: the first page holds results 0 to 7 and links
   * to `next` and `last`, both at 8; asking for the final page at 16 fails.
   */
  lemma TwentyResultsInPagesOfEight(eobs: seq<ExplanationOfBenefit>, serverBase: string, beneficiaryId: string)
    requires |eobs| == 20
    ensures SearchBundle(eobs, PagingRequest(Some(IntToString(8)), None, serverBase), beneficiaryId)
            == Success(BundleValue(eobs[..8],
                                   [BundleLink(LINK_NEXT, PagingLinkUrl(serverBase, beneficiaryId, 8, 8)),
                                    BundleLink(LINK_LAST, PagingLinkUrl(serverBase, beneficiaryId, 8, 8))],
                                   Some(20)))
    ensures SearchBundle(eobs, PagingRequest(Some(IntToString(8)), Some(IntToString(16)), serverBase), beneficiaryId)
            == Failure(IndexOutOfBounds)
  {
    CountAlonePagesFromStart(eobs, 8, serverBase, beneficiaryId);
    assert Min(8, |eobs|) == 8 && LastStart(20, 8) == 8 && NextStart(0, 8) == 8;
    assert PagingLinks(serverBase, beneficiaryId, 8, 0, |eobs|)
           == [BundleLink(LINK_NEXT, PagingLinkUrl(serverBase, beneficiaryId, 8, 8)),
               BundleLink(LINK_LAST, PagingLinkUrl(serverBase, beneficiaryId, 8, 8))] + [];
    var links := [BundleLink(LINK_NEXT, PagingLinkUrl(serverBase, beneficiaryId, 8, 8)),
                  BundleLink(LINK_LAST, PagingLinkUrl(serverBase, beneficiaryId, 8, 8))];
    assert links + [] == links;
    assert SearchBundle(eobs, PagingRequest(Some(IntToString(8)), None, serverBase), beneficiaryId)
           == Success(BundleValue(eobs[..8], links, Some(20)));
    PagedSearch(eobs, 8, 16, serverBase, beneficiaryId);
  }

  /**
   * A successful search reports as its total every claim of the beneficiary
   * that survives the SAMHSA filter, and returns only such claims.
   */
  lemma SearchTotalCountsFilteredClaims<R>(store: ClaimStore<R>, transform: Transformer<R>,
                                           isSamhsa: ExplanationOfBenefit -> bool, beneficiaryId: string,
                                           excludeSamhsa: Option<string>, request: RequestDetails)
    ensures var merged := AllEobs(store, transform, beneficiaryId);
            var filtered := if ParseBoolean(excludeSamhsa) then WithoutSamhsa(merged, isSamhsa) else merged;
            var r := Search(store, transform, isSamhsa, beneficiaryId, excludeSamhsa, request);
            && |merged| == ResultCount(Values(), store, beneficiaryId)
            && (r.Success? ==> r.value.total == Some(|filtered|))
            && (r.Success? ==> forall e :: e in r.value.entries ==> e in filtered)
  {
    var merged := AllEobs(store, transform, beneficiaryId);
    var filtered := if ParseBoolean(excludeSamhsa) then WithoutSamhsa(merged, isSamhsa) else merged;
    var results := SearchResults(store, transform, isSamhsa, beneficiaryId, excludeSamhsa);
    MergedEobsLength(Values(), store, transform, beneficiaryId);
    assert multiset(results) == multiset(filtered);
    assert |results| == |multiset(results)| == |filtered|;
    var r := Search(store, transform, isSamhsa, beneficiaryId, excludeSamhsa, request);
    if r.Success? {
      forall e | e in r.value.entries ensures e in filtered {
        var from, to :| 0 <= from <= to <= |results| && r.value.entries == results[from..to];
        assert e in results;
        assert e in multiset(filtered);
      }
    }
  }

  // ---------------------------------------------------------------------------
  // The methods that fill the bundle

  /** `addResourcesToBundle`: appends one entry per resource, in order, and returns the same bundle. */
  method AddResourcesToBundle(bundle: Bundle, eobs: seq<ExplanationOfBenefit>) returns (r: Bundle)
    modifies bundle
    ensures r == bundle
    ensures bundle.Value() == old(bundle.Value()).(entries := old(bundle.entries) + eobs)
  {
    for i := 0 to |eobs|
      invariant bundle.Value() == old(bundle.Value()).(entries := old(bundle.entries) + eobs[..i])
    {
      bundle.AddEntry(eobs[i]);
      assert eobs[..i + 1] == eobs[..i] + [eobs[i]];
    }
    assert eobs[..|eobs|] == eobs;
    return bundle;
  }

  /** `createPagingLink`: the URL built piece by piece in a string builder. */
  method CreatePagingLink(theServerBase: string, patientId: string, startIndex: int, theCount: int)
    returns (url: string)
    ensures url == PagingLinkUrl(theServerBase, patientId, startIndex, theCount)
  {
    var b: string := [];
    b := b + (theServerBase + "/ExplanationOfBenefit?");
    b := b + ("_count=" + IntToString(theCount));
    b := b + ("&startIndex=" + IntToString(startIndex));
    b := b + ("&patient=" + patientId);
    url := b;
  }

  /** `addPagingLinks`: appends the `next`, `last` and `previous` links the page calls for. */
  method AddPagingLinks(bundle: Bundle, pagingArgs: PagingArguments, beneficiaryId: string, numTotalResults: int)
    requires pagingArgs.pageSize.Some? && pagingArgs.pageSize.value != 0
    modifies bundle
    ensures bundle.Value() == old(bundle.Value()).(links := old(bundle.links)
              + PagingLinks(pagingArgs.serverBase, beneficiaryId, GetPageSize(pagingArgs).value,
                            GetStartIndex(pagingArgs).value, numTotalResults))
  {
    var pageSize := GetPageSize(pagingArgs).value;
    var startIndex := GetStartIndex(pagingArgs).value;
    var serverBase := pagingArgs.serverBase;

    ghost var forward: seq<BundleLink> := [];
    if startIndex + pageSize < numTotalResults {
      var nextUrl := CreatePagingLink(serverBase, beneficiaryId, startIndex + pageSize, pageSize);
      bundle.AddLink(BundleLink(LINK_NEXT, nextUrl));
      var start := (Div(numTotalResults, pageSize) - 1) * pageSize;
      var lastUrl := CreatePagingLink(serverBase, beneficiaryId, start, pageSize);
      bundle.AddLink(BundleLink(LINK_LAST, lastUrl));
      forward := [BundleLink(LINK_NEXT, nextUrl), BundleLink(LINK_LAST, lastUrl)];
    }
    assert bundle.Value() == old(bundle.Value()).(links := old(bundle.links) + forward);

    ghost var backward: seq<BundleLink> := [];
    if startIndex > 0 {
      var start := Max(0, startIndex - pageSize);
      var prevUrl := CreatePagingLink(serverBase, beneficiaryId, start, pageSize);
      bundle.AddLink(BundleLink(LINK_PREV, prevUrl));
      backward := [BundleLink(LINK_PREV, prevUrl)];
    }
    assert forward + backward == PagingLinks(serverBase, beneficiaryId, pageSize, startIndex, numTotalResults);
    assert bundle.links == old(bundle.links) + forward + backward;
  }

  /**
   * The first half of `findByPatient`: one query per claim kind in
   * declaration order, the SAMHSA filter when `excludeSAMHSA` parses as
   * true, then the sort.
   */
  method LoadSearchResults<R>(store: ClaimStore<R>, transform: Transformer<R>, isSamhsa: ExplanationOfBenefit -> bool,
                              beneficiaryId: string, excludeSamhsa: Option<string>)
    returns (eobs: seq<ExplanationOfBenefit>)
    ensures eobs == SearchResults(store, transform, isSamhsa, beneficiaryId, excludeSamhsa)
  {
    eobs := [];
    eobs := eobs + TransformToEobs(CARRIER, store.findByPatient(CARRIER, beneficiaryId), transform);
    eobs := eobs + TransformToEobs(DME, store.findByPatient(DME, beneficiaryId), transform);
    eobs := eobs + TransformToEobs(HHA, store.findByPatient(HHA, beneficiaryId), transform);
    eobs := eobs + TransformToEobs(HOSPICE, store.findByPatient(HOSPICE, beneficiaryId), transform);
    eobs := eobs + TransformToEobs(INPATIENT, store.findByPatient(INPATIENT, beneficiaryId), transform);
    eobs := eobs + TransformToEobs(OUTPATIENT, store.findByPatient(OUTPATIENT, beneficiaryId), transform);
    eobs := eobs + TransformToEobs(PDE, store.findByPatient(PDE, beneficiaryId), transform);
    eobs := eobs + TransformToEobs(SNF, store.findByPatient(SNF, beneficiaryId), transform);
    AllEobsInDeclarationOrder(store, transform, beneficiaryId);

    if ParseBoolean(excludeSamhsa) {
      eobs := FilterSamhsa(eobs, isSamhsa);
    }

    eobs := SortEobs(eobs);
  }

  /**
   * The second half of `findByPatient`: a new bundle with the requested page
   * of the search results, its links and the total.
   */
  method BuildBundle(eobs: seq<ExplanationOfBenefit>, requestDetails: RequestDetails, beneficiaryId: string)
    returns (r: Result<Bundle, ProviderException>)
    ensures match SearchBundle(eobs, requestDetails, beneficiaryId)
            case Success(v) => r.Success? && fresh(r.value) && r.value.Value() == v
            case Failure(e) => r == Failure(e)
  {
    var bundle := new Bundle();
    var pagingArgs :- NewPagingArguments(requestDetails);
    var paging :- IsPagingRequested(pagingArgs);
    if paging {
      var pageSize := GetPageSize(pagingArgs).value;
      if pageSize == 0 {
        return Failure(InvalidRequest(ZERO_PAGE_SIZE_MESSAGE));
      }
      var numToReturn := Min(pageSize, |eobs|);
      var startIndex := GetStartIndex(pagingArgs).value;
      var resources :- SubList(eobs, startIndex, startIndex + numToReturn);
      bundle := AddResourcesToBundle(bundle, resources);
      AddPagingLinks(bundle, pagingArgs, beneficiaryId, |eobs|);
    } else {
      bundle := AddResourcesToBundle(bundle, eobs);
    }

    bundle.SetTotal(|eobs|);
    return Success(bundle);
  }

  /**
   * `findByPatient`: the search results in a new bundle, paged as the
   * request asks; it fails exactly when `Search` does, with the same
   * exception.
   */
  method FindByPatient<R>(store: ClaimStore<R>, transform: Transformer<R>, isSamhsa: ExplanationOfBenefit -> bool,
                          beneficiaryId: string, excludeSamhsa: Option<string>, requestDetails: RequestDetails)
    returns (r: Result<Bundle, ProviderException>)
    ensures match Search(store, transform, isSamhsa, beneficiaryId, excludeSamhsa, requestDetails)
            case Success(v) => r.Success? && fresh(r.value) && r.value.Value() == v
            case Failure(e) => r == Failure(e)
  {
    var eobs := LoadSearchResults(store, transform, isSamhsa, beneficiaryId, excludeSamhsa);
    r := BuildBundle(eobs, requestDetails, beneficiaryId);
  }
}
