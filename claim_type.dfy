/**
 * The closed set of Blue Button claim kinds served as ExplanationOfBenefit
 * resources (the `ClaimType` enum), their storage descriptors, and `parse`,
 * which maps a lower-cased constant name back to its constant.
 */
module ClaimTypes {
  import opened Wrappers
  import opened JavaLang

  /** The enum constants, in declaration order. */
  datatype ClaimType = CARRIER | DME | HHA | HOSPICE | INPATIENT | OUTPATIENT | PDE | SNF

  /** `ClaimType.values()`: every constant once (see `Ordinal`), in declaration order. */
  function Values(): (r: seq<ClaimType>)
    ensures forall i, j :: 0 <= i < j < |r| ==> r[i] != r[j]
  {
    [CARRIER, DME, HHA, HOSPICE, INPATIENT, OUTPATIENT, PDE, SNF]
  }

  /** `ordinal()`: the position of the constant in `values()`. */
  function Ordinal(c: ClaimType): (r: nat)
    ensures r < |Values()| && Values()[r] == c
  {
    match c
    case CARRIER => 0
    case DME => 1
    case HHA => 2
    case HOSPICE => 3
    case INPATIENT => 4
    case OUTPATIENT => 5
    case PDE => 6
    case SNF => 7
  }

  /** `Enum.compareTo`: the difference of the ordinals. */
  function CompareClaimTypes(c1: ClaimType, c2: ClaimType): int {
    Ordinal(c1) - Ordinal(c2)
  }

  /** `name()`: the constant's identifier. */
  function Name(c: ClaimType): string {
    match c
    case CARRIER => "CARRIER"
    case DME => "DME"
    case HHA => "HHA"
    case HOSPICE => "HOSPICE"
    case INPATIENT => "INPATIENT"
    case OUTPATIENT => "OUTPATIENT"
    case PDE => "PDE"
    case SNF => "SNF"
  }

  /** `name().toLowerCase()`: the kind tag that `parse` accepts. */
  function Tag(c: ClaimType): string {
    ToLowerCase(Name(c))
  }

  /**
   * The constructor arguments of a constant other than its transformer: the
   * JPA entity class, its `@Id` attribute, the attribute holding the owning
   * beneficiary's id, and the lazily fetched collection attributes, kept in
   * the order given. Each getter is the field of the same name.
   */
  datatype Descriptor = Descriptor(
    entityClass: string,
    entityIdAttribute: string,
    entityBeneficiaryIdAttribute: string,
    entityLazyAttributes: seq<string>)

  /**
   * Only CARRIER's entity class, `@Id` attribute and lazy attributes are
   * declared in `ClaimType.java`. The other seven descriptors, and every
   * beneficiary-id attribute, are assumed values in the same naming.
   */
  function DescriptorOf(c: ClaimType): Descriptor {
    match c
    case CARRIER => Descriptor("CarrierClaim", "claimId", "beneficiaryId", ["lines"])
    case DME => Descriptor("DMEClaim", "claimId", "beneficiaryId", ["lines"])
    case HHA => Descriptor("HHAClaim", "claimId", "beneficiaryId", ["lines"])
    case HOSPICE => Descriptor("HospiceClaim", "claimId", "beneficiaryId", ["lines"])
    case INPATIENT => Descriptor("InpatientClaim", "claimId", "beneficiaryId", ["lines"])
    case OUTPATIENT => Descriptor("OutpatientClaim", "claimId", "beneficiaryId", ["lines"])
    case PDE => Descriptor("PartDEvent", "eventId", "beneficiaryId", [])
    case SNF => Descriptor("SNFClaim", "claimId", "beneficiaryId", ["lines"])
  }

  /** The tags written out. */
  lemma TagValues()
    ensures Tag(CARRIER) == "carrier" && Tag(DME) == "dme" && Tag(HHA) == "hha"
    ensures Tag(HOSPICE) == "hospice" && Tag(INPATIENT) == "inpatient"
    ensures Tag(OUTPATIENT) == "outpatient" && Tag(PDE) == "pde" && Tag(SNF) == "snf"
  {
  }

  /** Every tag is a non-empty run of `\p{Alpha}` characters. */
  lemma TagIsAlphabetic(c: ClaimType)
    ensures |Tag(c)| > 0
    ensures forall i :: 0 <= i < |Tag(c)| ==> IsAsciiLower(Tag(c)[i])
  {
    TagValues();
  }

  /** Distinct constants have distinct tags, so at most one can match. */
  lemma TagsDistinct(c1: ClaimType, c2: ClaimType)
    ensures Tag(c1) == Tag(c2) ==> c1 == c2
  {
    TagValues();
    if c1 != c2 {
      assert |Tag(c1)| != |Tag(c2)| || Tag(c1)[0] != Tag(c2)[0];
    }
  }

  /**
   * The loop of `parse` over the remaining `candidates`: the first constant
   * whose tag equals `text`, if any.
   */
  function ParseFrom(candidates: seq<ClaimType>, text: string): (r: Option<ClaimType>)
    ensures r.Some? ==> r.value in candidates && Tag(r.value) == text
    ensures r.None? ==> forall c :: c in candidates ==> Tag(c) != text
  {
    if candidates == [] then None
    else if Tag(candidates[0]) == text then Some(candidates[0])
    else ParseFrom(candidates[1..], text)
  }

  /** `ClaimType.parse(claimTypeText)`. */
  function Parse(text: string): (r: Option<ClaimType>)
    ensures r.Some? ==> Tag(r.value) == text
    ensures r.None? <==> forall c :: Tag(c) != text
  {
    ParseFrom(Values(), text)
  }

  /** Every tag parses back to its own constant. */
  lemma ParseTag(c: ClaimType)
    ensures Parse(Tag(c)) == Some(c)
  {
    var r := Parse(Tag(c));
    TagsDistinct(r.value, c);
  }

  /** `parse` does not fold the case of its input: only the names are lower-cased. */
  lemma ParseIsCaseSensitive()
    ensures Parse("CARRIER") == None && Parse("Carrier") == None
  {
    TagValues();
  }
}
