/**
 * The HAPI FHIR and Java types the EOB provider works with: the
 * ExplanationOfBenefit resource (reduced to what the provider reads of it),
 * `IdType`, `RequestDetails`, the exceptions it throws, and `Bundle`, which
 * the provider fills in place.
 */
module Fhir {
  import opened Wrappers
  import opened ClaimTypes

  /**
   * A transformed claim. The provider reads only its claim type and its
   * unprefixed claim id (through TransformerUtils); `content` stands for the
   * rest of the resource.
   */
  datatype ExplanationOfBenefit = ExplanationOfBenefit(
    claimType: ClaimType,
    unprefixedClaimId: string,
    content: string)

  /** `IdType`: the id part and the version part already read as a long, if any. */
  datatype IdType = IdType(idPart: Option<string>, versionIdPartAsLong: Option<int>)

  /** `RequestDetails`: the query parameters by name and the server base URL. */
  datatype RequestDetails = RequestDetails(
    parameters: map<string, seq<string>>,
    serverBaseForRequest: string)

  /** The exceptions the provider lets escape to the server. */
  datatype ProviderException =
    | IllegalArgument               // java.lang.IllegalArgumentException
    | ResourceNotFound              // HAPI ResourceNotFoundException
    | InvalidRequest(message: string)  // HAPI InvalidRequestException
    | IndexOutOfBounds              // java.lang.IndexOutOfBoundsException
    | BadCodeMonkey                 // an internal-consistency failure

  /** `Bundle.LINK_NEXT`, the literal "last" used for the last page, and `Bundle.LINK_PREV`. */
  const LINK_NEXT: string := "next"
  const LINK_LAST: string := "last"
  const LINK_PREV: string := "previous"

  datatype BundleLink = BundleLink(relation: string, url: string)

  /** What a bundle holds: its entries, its links and its total, unset at first. */
  datatype BundleValue = BundleValue(
    entries: seq<ExplanationOfBenefit>,
    links: seq<BundleLink>,
    total: Option<int>)

  /** A search result `Bundle`, filled in place by the provider. */
  class Bundle {
    var entries: seq<ExplanationOfBenefit>
    var links: seq<BundleLink>
    var total: Option<int>

    function Value(): BundleValue
      reads this
    {
      BundleValue(entries, links, total)
    }

    constructor ()
      ensures Value() == BundleValue([], [], None)
    {
      entries, links, total := [], [], None;
    }

    /** `addEntry().setResource(resource)`. */
    method AddEntry(resource: ExplanationOfBenefit)
      modifies this
      ensures Value() == old(Value()).(entries := old(entries) + [resource])
    {
      entries := entries + [resource];
    }

    /** `addLink(link)`. */
    method AddLink(link: BundleLink)
      modifies this
      ensures Value() == old(Value()).(links := old(links) + [link])
    {
      links := links + [link];
    }

    /** `setTotal(n)`. */
    method SetTotal(n: int)
      modifies this
      ensures Value() == old(Value()).(total := Some(n))
    {
      total := Some(n);
    }
  }
}
