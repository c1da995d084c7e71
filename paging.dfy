/**
 * Paging of EOB search results: the `PagingArguments` read from the request
 * (`_count` and `startIndex`), the page taken with `List.subList`, and the
 * arithmetic and URLs of the `next`, `last` and `previous` links.
 */
module Paging {
  import opened Wrappers
  import opened JavaLang
  import opened Fhir

  const COUNT_PARAM: string := "_count"
  const START_INDEX_PARAM: string := "startIndex"

  /** `PagingArguments`: its three final fields. */
  datatype PagingArguments = PagingArguments(
    pageSize: Option<int>,
    startIndex: Option<int>,
    serverBase: string)

  /**
   * `parseIntegerParameters`: absent when the request lacks the parameter,
   * otherwise `Integer.parseInt` of its first value; an unparsable value is
   * an InvalidRequestException and a parameter with no value fails on `[0]`.
   */
  function ParseIntegerParameter(request: RequestDetails, name: string): (r: Result<Option<int>, ProviderException>)
    ensures r.Success? && r.value.Some? ==> IsInt32(r.value.value)
  {
    if name in request.parameters then
      var values := request.parameters[name];
      if |values| == 0 then Failure(IndexOutOfBounds)
      else match ParseInt(values[0])
        case Some(n) => Success(Some(n))
        case None => Failure(InvalidRequest("Invalid argument in request URL: " + name + ". Cannot parse to Integer."))
    else Success(None)
  }

  /** `new PagingArguments(requestDetails)`: `_count` is parsed before `startIndex`. */
  function NewPagingArguments(request: RequestDetails): Result<PagingArguments, ProviderException> {
    var pageSize :- ParseIntegerParameter(request, COUNT_PARAM);
    var startIndex :- ParseIntegerParameter(request, START_INDEX_PARAM);
    Success(PagingArguments(pageSize, startIndex, request.serverBaseForRequest))
  }

  /** `isPagingRequested()`: a page size means paging; a start index alone is rejected. */
  function IsPagingRequested(args: PagingArguments): (r: Result<bool, ProviderException>)
    ensures r == Success(true) <==> args.pageSize.Some?
    ensures r == Success(false) <==> args.pageSize.None? && args.startIndex.None?
    ensures r.Failure? ==> r.error == IllegalArgument
  {
    if args.pageSize.Some? then Success(true)
    else if args.startIndex.None? then Success(false)
    else Failure(IllegalArgument)
  }

  /** `getPageSize()`. */
  function GetPageSize(args: PagingArguments): (r: Result<int, ProviderException>)
    ensures args.pageSize.Some? ==> r == Success(args.pageSize.value)
  {
    var requested :- IsPagingRequested(args);
    if !requested then Failure(BadCodeMonkey) else Success(args.pageSize.value)
  }

  /** `getStartIndex()`: 0 when paging is requested without a start index. */
  function GetStartIndex(args: PagingArguments): (r: Result<int, ProviderException>)
    ensures args.pageSize.Some? ==> r == Success(if args.startIndex.Some? then args.startIndex.value else 0)
  {
    var requested :- IsPagingRequested(args);
    if !requested then Failure(BadCodeMonkey)
    else if args.startIndex.Some? then Success(args.startIndex.value)
    else Success(0)
  }

  /** The request with `_count` and `startIndex` as given (absent when `None`). */
  function PagingRequest(count: Option<string>, start: Option<string>, serverBase: string): RequestDetails {
    var withCount := if count.Some? then map[COUNT_PARAM := [count.value]] else map[];
    RequestDetails(
      if start.Some? then withCount[START_INDEX_PARAM := [start.value]] else withCount,
      serverBase)
  }

  /**
   * How the two parameters decide paging: `_count` alone pages from 0, both
   * absent means no paging, `startIndex` alone is an IllegalArgumentException,
   * and a value that is not an `int` is an InvalidRequestException.
   */
  lemma PagingRequestCases(count: Option<string>, start: Option<string>, serverBase: string)
    ensures var args := NewPagingArguments(PagingRequest(count, start, serverBase));
      && (count.Some? && ParseInt(count.value).None? ==> args.Failure? && args.error.InvalidRequest?)
      && (start.Some? && ParseInt(start.value).None? ==> args.Failure? && args.error.InvalidRequest?)
      && (count.None? && start.None? ==>
            args.Success? && IsPagingRequested(args.value) == Success(false))
      && (count.None? && start.Some? && ParseInt(start.value).Some? ==>
            args.Success? && IsPagingRequested(args.value) == Failure(IllegalArgument))
      && (count.Some? && ParseInt(count.value).Some? && start.None? ==>
            args.Success? && GetPageSize(args.value) == Success(ParseInt(count.value).value)
            && GetStartIndex(args.value) == Success(0))
      && (count.Some? && ParseInt(count.value).Some? && start.Some? && ParseInt(start.value).Some? ==>
            args.Success? && GetPageSize(args.value) == Success(ParseInt(count.value).value)
            && GetStartIndex(args.value) == Success(ParseInt(start.value).value))
  {
    var request := PagingRequest(count, start, serverBase);
    assert COUNT_PARAM != START_INDEX_PARAM;
    assert count.Some? <==> COUNT_PARAM in request.parameters;
    assert start.Some? <==> START_INDEX_PARAM in request.parameters;
    assert count.Some? ==> request.parameters[COUNT_PARAM] == [count.value];
    assert start.Some? ==> request.parameters[START_INDEX_PARAM] == [start.value];
  }

  // ---------------------------------------------------------------------------
  // The page

  /** `list.subList(from, to)` of an ArrayList, with its range checks in Java's order. */
  function SubList<T>(s: seq<T>, from: int, to: int): (r: Result<seq<T>, ProviderException>)
    ensures r.Success? <==> 0 <= from <= to <= |s|
    ensures r.Success? ==> r.value == s[from..to]
  {
    if from < 0 then Failure(IndexOutOfBounds)
    else if to > |s| then Failure(IndexOutOfBounds)
    else if from > to then Failure(IllegalArgument)
    else Success(s[from..to])
  }

  /** The page `findByPatient` takes: `subList(startIndex, startIndex + min(pageSize, size))`. */
  function Page<T>(s: seq<T>, startIndex: int, pageSize: int): Result<seq<T>, ProviderException> {
    SubList(s, startIndex, startIndex + Min(pageSize, |s|))
  }

  /**
   * A page is returned only when it is full: `min(pageSize, size)` elements
   * from the start index. A shorter final page is an IndexOutOfBoundsException.
   */
  lemma PageIsFullOrFails<T>(s: seq<T>, startIndex: int, pageSize: int)
    requires pageSize > 0
    ensures Page(s, startIndex, pageSize).Success?
            <==> 0 <= startIndex && startIndex + Min(pageSize, |s|) <= |s|
    ensures Page(s, startIndex, pageSize).Success? ==>
              |Page(s, startIndex, pageSize).value| == Min(pageSize, |s|)
              && Page(s, startIndex, pageSize).value == s[startIndex..startIndex + Min(pageSize, |s|)]
    ensures 0 <= startIndex < |s| && |s| < startIndex + pageSize && pageSize <= |s| ==>
              Page(s, startIndex, pageSize) == Failure(IndexOutOfBounds)
  {
  }

  /** The first page holds the first `min(pageSize, size)` elements. */
  lemma FirstPage<T>(s: seq<T>, pageSize: int)
    requires pageSize > 0
    ensures Page(s, 0, pageSize) == Success(s[..Min(pageSize, |s|)])
  {
  }

  // ---------------------------------------------------------------------------
  // The links

  /** `createPagingLink`: the URL a paging link points to. */
  function PagingLinkUrl(serverBase: string, patientId: string, startIndex: int, count: int): string {
    serverBase + "/ExplanationOfBenefit?" + "_count=" + IntToString(count)
      + "&startIndex=" + IntToString(startIndex) + "&patient=" + patientId
  }

  /** The start index of the `next` link. */
  function NextStart(startIndex: int, pageSize: int): int {
    startIndex + pageSize
  }

  /** The start index of the `last` link: `(total / pageSize - 1) * pageSize`, in `int` division. */
  function LastStart(total: int, pageSize: int): int
    requires pageSize != 0
  {
    (Div(total, pageSize) - 1) * pageSize
  }

  /** The start index of the `previous` link. */
  function PrevStart(startIndex: int, pageSize: int): int {
    Max(0, startIndex - pageSize)
  }

  /** The links `addPagingLinks` adds, in the order it adds them. */
  function PagingLinks(serverBase: string, patientId: string, pageSize: int, startIndex: int, total: int): seq<BundleLink>
    requires pageSize != 0
  {
    (if startIndex + pageSize < total then
       [BundleLink(LINK_NEXT, PagingLinkUrl(serverBase, patientId, NextStart(startIndex, pageSize), pageSize)),
        BundleLink(LINK_LAST, PagingLinkUrl(serverBase, patientId, LastStart(total, pageSize), pageSize))]
     else [])
    + (if startIndex > 0 then
         [BundleLink(LINK_PREV, PagingLinkUrl(serverBase, patientId, PrevStart(startIndex, pageSize), pageSize))]
       else [])
  }

  /** The relations of the links, in order. */
  function Relations(links: seq<BundleLink>): seq<string> {
    seq(|links|, i requires 0 <= i < |links| => links[i].relation)
  }

  /**
   * `next` and `last` are present exactly when a page follows the current
   * one, `previous` exactly when the current page does not start at 0, and
   * they come in the order next, last, previous.
   */
  lemma PagingLinkRelations(serverBase: string, patientId: string, pageSize: int, startIndex: int, total: int)
    requires pageSize != 0
    ensures var rels := Relations(PagingLinks(serverBase, patientId, pageSize, startIndex, total));
      && (LINK_NEXT in rels <==> startIndex + pageSize < total)
      && (LINK_LAST in rels <==> startIndex + pageSize < total)
      && (LINK_PREV in rels <==> startIndex > 0)
      && rels == (if startIndex + pageSize < total then [LINK_NEXT, LINK_LAST] else [])
                 + (if startIndex > 0 then [LINK_PREV] else [])
  {
    var rels := Relations(PagingLinks(serverBase, patientId, pageSize, startIndex, total));
    assert LINK_NEXT != LINK_LAST && LINK_NEXT != LINK_PREV && LINK_LAST != LINK_PREV;
    assert rels == (if startIndex + pageSize < total then [LINK_NEXT, LINK_LAST] else [])
                   + (if startIndex > 0 then [LINK_PREV] else []);
  }

  /**
   * Every link repeats the page size and the patient, and carries its start
   * index as text that `Integer.parseInt` reads back exactly.
   */
  lemma PagingLinkStartsParseBack(serverBase: string, patientId: string, pageSize: int, startIndex: int, total: int)
    requires pageSize != 0 && IsInt32(pageSize)
    requires IsInt32(NextStart(startIndex, pageSize)) && IsInt32(LastStart(total, pageSize))
    requires IsInt32(PrevStart(startIndex, pageSize))
    ensures forall link :: link in PagingLinks(serverBase, patientId, pageSize, startIndex, total) ==>
      exists s :: IsInt32(s) && link.url == PagingLinkUrl(serverBase, patientId, s, pageSize)
                  && ParseInt(IntToString(s)) == Some(s)
                  && s == (if link.relation == LINK_NEXT then NextStart(startIndex, pageSize)
                           else if link.relation == LINK_LAST then LastStart(total, pageSize)
                           else PrevStart(startIndex, pageSize))
  {
    ParseIntOfIntToString(NextStart(startIndex, pageSize));
    ParseIntOfIntToString(LastStart(total, pageSize));
    ParseIntOfIntToString(PrevStart(startIndex, pageSize));
    assert LINK_NEXT != LINK_LAST && LINK_NEXT != LINK_PREV && LINK_LAST != LINK_PREV;
  }

  /** The start of the page that holds the last result. */
  function FinalPageStart(total: int, pageSize: int): int
    requires total > 0 && pageSize > 0
  {
    (total - 1) / pageSize * pageSize
  }

  lemma FinalPageStartHoldsLastResult(total: int, pageSize: int)
    requires total > 0 && pageSize > 0
    ensures FinalPageStart(total, pageSize) % pageSize == 0
    ensures FinalPageStart(total, pageSize) <= total - 1 < FinalPageStart(total, pageSize) + pageSize
  {
    var q, r := (total - 1) / pageSize, (total - 1) % pageSize;
    DivModUnique(q * pageSize, pageSize, q, 0);
  }

  /** Euclidean division is unique. */
  lemma DivModUnique(x: int, m: int, q: int, r: int)
    requires m > 0 && 0 <= r < m && x == q * m + r
    ensures x / m == q && x % m == r
  {
    var q', r' := x / m, x % m;
    assert (q - q') * m == r' - r;
    if q > q' {
      MulAtLeastOnce(q - q', m);
    } else if q < q' {
      MulAtLeastOnce(q' - q, m);
    }
  }

  lemma {:induction false} MulAtLeastOnce(d: int, m: int)
    requires d >= 1 && m > 0
    ensures d * m >= m
  {
    if d > 1 {
      MulAtLeastOnce(d - 1, m);
      assert d * m == (d - 1) * m + m;
    }
  }

  /**
   * The `last` link points at the final page only when the page size divides
   * the total; otherwise it points one page earlier, at a page that still
   * has a `next` link.
   */
  lemma {:induction false} LastLinkVersusFinalPage(total: int, pageSize: int)
    requires total > 0 && pageSize > 0
    ensures total % pageSize == 0 ==> LastStart(total, pageSize) == FinalPageStart(total, pageSize)
    ensures total % pageSize != 0 && total > pageSize ==>
              LastStart(total, pageSize) == FinalPageStart(total, pageSize) - pageSize
              && LastStart(total, pageSize) + pageSize < total
  {
    var q, r := total / pageSize, total % pageSize;
    assert total == q * pageSize + r;
    if r == 0 {
      DivModUnique(total - 1, pageSize, q - 1, pageSize - 1);
    } else {
      DivModUnique(total - 1, pageSize, q, r - 1);
      if total > pageSize {
        assert q >= 1;
        assert (q - 1) * pageSize + pageSize == q * pageSize;
      }
    }
  }

  /** 20 results in pages of 8, first page: `next` starts at 8 and `last` also at 8, not 16. */
  lemma TwentyResultsByEight()
    ensures PagingLinks("base", "p", 8, 0, 20) ==
      [BundleLink(LINK_NEXT, PagingLinkUrl("base", "p", 8, 8)),
       BundleLink(LINK_LAST, PagingLinkUrl("base", "p", 8, 8))]
    ensures FinalPageStart(20, 8) == 16
  {
  }
}
