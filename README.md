# Blue Button ExplanationOfBenefit provider, modelled in Dafny

This project models the FHIR ExplanationOfBenefit (EOB) resource provider of
the Blue Button server, together with the `ClaimType` registry it dispatches on.

- **read.** It takes an id of the form `<kind tag>-<claim id>`, for example
  `carrier-123`, and answers with the transformed claim.
  - A missing id, a versioned id or a blank id is an IllegalArgumentException.
  - An id that does not match `(\p{Alpha}+)-(\p{Alnum}+)`, that names no claim
    kind, or that names no stored claim is a ResourceNotFoundException.
- **Search by patient.** It queries each of the eight claim kinds in
  declaration order and transforms and concatenates the hits.
  - When `excludeSAMHSA` reads as `true`, it drops the SAMHSA-related claims
    (Substance Abuse and Mental Health Services Administration).
  - It sorts the results by unprefixed claim id, with claim type as the tie-break.
  - It returns them in a `Bundle`, either all of them or, when `_count` (and
    `startIndex`) are given, one page with `next`, `last` and `previous` links.
    The total is always set to the full size of the result list.
- **`ClaimType`.** The eight kinds CARRIER, DME, HHA, HOSPICE, INPATIENT,
  OUTPATIENT, PDE and SNF, their storage descriptors, and `parse`, which maps
  a lower-cased constant name back to its kind.

Modules:
- `Wrappers`: `Option` and `Result`.
- `JavaLang`: the JDK behaviour the provider relies on: `String.trim`,
  `toLowerCase`, `compareTo`, `Integer.parseInt` and `toString`,
  `Boolean.parseBoolean`, and `int` division.
- `ClaimTypes`: the enum and `parse`.
- `EobIds`: the id pattern.
- `Fhir`: the HAPI types, including `Bundle`, a class filled in place.
- `ListSort`: the stable `List.sort`.
- `ClaimSearch`: merging, the SAMHSA filter and the comparator.
- `Paging`: `PagingArguments`, `subList` and the paging links.
- `EobProvider`: `read` and `findByPatient`.

The database, the per-kind claim transformers and the SAMHSA matcher are
parameters:
- a `ClaimStore` holds two lookup functions, by id and by beneficiary;
- a `Transformer` is a function from a kind and a record to a resource;
- the matcher is a predicate on resources.

### The registry has eight kinds

`ClaimType.java` as it stands declares only `CARRIER` (line 25), with no
beneficiary-id attribute. The provider queries eight kinds (lines 215-222) and
calls `getEntityBeneficiaryIdAttribute` (line 359), and the integration test
uses all eight kinds. The model therefore declares the eight kinds in the
provider's order, each with an owner attribute. Only CARRIER's entity class,
`@Id` attribute and lazy attributes are taken from the file. The descriptors of
the other seven kinds, and every beneficiary-id attribute, are assumed values:
they are not declared anywhere in `ClaimType.java`. Nothing else in the model
reads a descriptor, because `ClaimStore` stands in for the queries built from
them.

### Behaviour worth knowing, as the code has it

- **The `last` link is not always the final page.** The `last` link starts at
  `(total / pageSize - 1) * pageSize`, computed in `int` division.
  - For 20 results in pages of 8, that is 8, although the final page starts
    at 16.
  - `LastLinkVersusFinalPage` shows that the two agree exactly when the page
    size divides the total. Otherwise `last` is one page early.
- **A short final page is an error.** The page is
  `subList(startIndex, startIndex + min(pageSize, total))`. A final page with
  fewer results than the page size therefore throws IndexOutOfBoundsException
  instead of returning what is left (`PageIsFullOrFails`,
  `TwentyResultsInPagesOfEight`).
- **The comparator's `==` on claim ids.** The comparator compares the two
  claim-id Strings with `==` (line 267). Equal ids held in different String
  objects then skip the claim-type tie-break.
  - The model uses value equality.
  - `SortByClaimIdAgrees` and `SearchResultsIndependentOfIdIdentity` cover
    the opposite extreme, where `==` is false for every pair of ids, so the
    comparator sorts by claim id alone. That gives the same search result,
    provided every transformer yields a resource of its own claim type: the
    merged list then holds equal ids in claim-type order, and the sort is
    stable.
  - A mix, where some equal ids share a String object and others do not, is
    not covered.
- **A negative `_count` is rejected by `subList`.** It is not rejected as a
  page size. With `startIndex` absent, or with the page's start and end both
  within the list, the end falls before the start, which is an
  IllegalArgumentException (`NegativeCountRejected`). A start below 0 or an
  end past the list is checked first and is an IndexOutOfBoundsException
  (`NegativeCountWithStartIndex`).

## Model

| member | source | states |
|---|---|---|
| JavaLang.ToLowerCase | bluebutton-server-app/src/main/java/gov/hhs/cms/bluebutton/server/app/stu3/providers/ClaimType.java:91 | lower-casing keeps the length and maps each character on its own, changing only A-Z |
| JavaLang.TrimIsEmptyIffBlank | bluebutton-server-app/src/main/java/gov/hhs/cms/bluebutton/server/app/stu3/providers/ExplanationOfBenefitResourceProvider.java:130 | `trim().isEmpty()` holds exactly when every character is at or below U+0020 |
| JavaLang.CompareToAntisymmetric | bluebutton-server-app/src/main/java/gov/hhs/cms/bluebutton/server/app/stu3/providers/ExplanationOfBenefitResourceProvider.java:270 | swapping the arguments of `String.compareTo` negates the result |
| JavaLang.CompareToZeroIffEqual | bluebutton-server-app/src/main/java/gov/hhs/cms/bluebutton/server/app/stu3/providers/ExplanationOfBenefitResourceProvider.java:267-270 | `compareTo` is 0 exactly for equal strings |
| JavaLang.CompareToTransitive | bluebutton-server-app/src/main/java/gov/hhs/cms/bluebutton/server/app/stu3/providers/ExplanationOfBenefitResourceProvider.java:270 | "not after" under `compareTo` is transitive |
| JavaLang.ParseInt | bluebutton-server-app/src/main/java/gov/hhs/cms/bluebutton/server/app/stu3/providers/ExplanationOfBenefitResourceProvider.java:425 | `Integer.parseInt` succeeds only with a 32-bit value |
| JavaLang.NatToStringValue | bluebutton-server-app/src/main/java/gov/hhs/cms/bluebutton/server/app/stu3/providers/ExplanationOfBenefitResourceProvider.java:333-334 | the decimal text written for a number reads back as that number |
| JavaLang.ParseIntOfIntToString | bluebutton-server-app/src/main/java/gov/hhs/cms/bluebutton/server/app/stu3/providers/ExplanationOfBenefitResourceProvider.java:333-334 | `Integer.parseInt` reads back every 32-bit value written by string concatenation |
| JavaLang.Div | bluebutton-server-app/src/main/java/gov/hhs/cms/bluebutton/server/app/stu3/providers/ExplanationOfBenefitResourceProvider.java:315 | `int` division of a non-negative total by a positive page size is ordinary division |
| ClaimTypes.Values | bluebutton-server-app/src/main/java/gov/hhs/cms/bluebutton/server/app/stu3/providers/ClaimType.java:90 | `values()` lists each kind once |
| ClaimTypes.Ordinal | bluebutton-server-app/src/main/java/gov/hhs/cms/bluebutton/server/app/stu3/providers/ClaimType.java:24-25 | every kind sits at its ordinal in `values()` |
| ClaimTypes.TagValues | bluebutton-server-app/src/main/java/gov/hhs/cms/bluebutton/server/app/stu3/providers/ClaimType.java:91 | the lower-cased names are carrier, dme, hha, hospice, inpatient, outpatient, pde, snf |
| ClaimTypes.TagIsAlphabetic | bluebutton-server-app/src/main/java/gov/hhs/cms/bluebutton/server/app/stu3/providers/ClaimType.java:91 | every tag is a non-empty run of lower-case letters |
| ClaimTypes.TagsDistinct | bluebutton-server-app/src/main/java/gov/hhs/cms/bluebutton/server/app/stu3/providers/ClaimType.java:89-94 | distinct kinds have distinct tags, so the first match of `parse` is the only one |
| ClaimTypes.ParseFrom | bluebutton-server-app/src/main/java/gov/hhs/cms/bluebutton/server/app/stu3/providers/ClaimType.java:90-93 | the loop returns a candidate whose tag equals the text, and returns empty only when no candidate's tag does |
| ClaimTypes.Parse | bluebutton-server-app/src/main/java/gov/hhs/cms/bluebutton/server/app/stu3/providers/ClaimType.java:89-94 | a parsed kind's lower-cased name equals the text exactly, and the result is empty exactly when no kind's tag equals the text |
| ClaimTypes.ParseTag | bluebutton-server-app/src/main/java/gov/hhs/cms/bluebutton/server/app/stu3/providers/ClaimType.java:89-94 | `parse(name().toLowerCase())` returns that kind, for every kind |
| ClaimTypes.ParseIsCaseSensitive | bluebutton-server-app/src/main/java/gov/hhs/cms/bluebutton/server/app/stu3/providers/ClaimType.java:91 | "CARRIER" and "Carrier" parse to nothing |
| EobIds.MatchEobId | bluebutton-server-app/src/main/java/gov/hhs/cms/bluebutton/server/app/stu3/providers/ExplanationOfBenefitResourceProvider.java:133-140 | the pattern matches exactly when the text is a run of letters, a '-', and a run of letters or digits, and then the text is group 1 + "-" + group 2 |
| EobIds.MatchJoined | bluebutton-server-app/src/main/java/gov/hhs/cms/bluebutton/server/app/stu3/providers/ExplanationOfBenefitResourceProvider.java:133-140 | an alphabetic tag and an alphanumeric key joined by '-' decode to exactly that tag and key |
| EobIds.DecodeEobIdText | bluebutton-server-app/src/main/java/gov/hhs/cms/bluebutton/server/app/stu3/providers/ClaimType.java:89-94 | a kind's tag joined to an alphanumeric key decodes to that tag, and the tag parses back to the kind |
| Fhir.Bundle.constructor | bluebutton-server-app/src/main/java/gov/hhs/cms/bluebutton/server/app/stu3/providers/ExplanationOfBenefitResourceProvider.java:229 | a new bundle has no entries, no links and no total |
| Fhir.Bundle.AddEntry | bluebutton-server-app/src/main/java/gov/hhs/cms/bluebutton/server/app/stu3/providers/ExplanationOfBenefitResourceProvider.java:286-287 | appends one entry and changes nothing else |
| Fhir.Bundle.AddLink | bluebutton-server-app/src/main/java/gov/hhs/cms/bluebutton/server/app/stu3/providers/ExplanationOfBenefitResourceProvider.java:312-323 | appends one link and changes nothing else |
| Fhir.Bundle.SetTotal | bluebutton-server-app/src/main/java/gov/hhs/cms/bluebutton/server/app/stu3/providers/ExplanationOfBenefitResourceProvider.java:248 | sets the total and changes nothing else |
| ListSort.Insert | bluebutton-server-app/src/main/java/gov/hhs/cms/bluebutton/server/app/stu3/providers/ExplanationOfBenefitResourceProvider.java:227 | insertion adds exactly the one element |
| ListSort.Sort | bluebutton-server-app/src/main/java/gov/hhs/cms/bluebutton/server/app/stu3/providers/ExplanationOfBenefitResourceProvider.java:227 | the sorted list is a permutation of the input |
| ListSort.InsertSorted | bluebutton-server-app/src/main/java/gov/hhs/cms/bluebutton/server/app/stu3/providers/ExplanationOfBenefitResourceProvider.java:227 | inserting into a sorted list under a total preorder keeps it sorted |
| ListSort.SortSorted | bluebutton-server-app/src/main/java/gov/hhs/cms/bluebutton/server/app/stu3/providers/ExplanationOfBenefitResourceProvider.java:227 | under a total preorder the result is sorted |
| ClaimSearch.TransformToEobs | bluebutton-server-app/src/main/java/gov/hhs/cms/bluebutton/server/app/stu3/providers/ExplanationOfBenefitResourceProvider.java:376-379 | one resource per claim, in the claims' order, each the kind's transform of its claim |
| ClaimSearch.AllEobsInDeclarationOrder | bluebutton-server-app/src/main/java/gov/hhs/cms/bluebutton/server/app/stu3/providers/ExplanationOfBenefitResourceProvider.java:209-222 | the merged list is the per-kind results concatenated in the order CARRIER, DME, HHA, HOSPICE, INPATIENT, OUTPATIENT, PDE, SNF |
| ClaimSearch.MergedEobsMembers | bluebutton-server-app/src/main/java/gov/hhs/cms/bluebutton/server/app/stu3/providers/ExplanationOfBenefitResourceProvider.java:215-222 | a resource is in the merge of some kinds exactly when it is the transform of a claim of one of them |
| ClaimSearch.MergedEobsLength | bluebutton-server-app/src/main/java/gov/hhs/cms/bluebutton/server/app/stu3/providers/ExplanationOfBenefitResourceProvider.java:215-222 | the merged list has one resource per claim found |
| ClaimSearch.AllEobsMembers | bluebutton-server-app/src/main/java/gov/hhs/cms/bluebutton/server/app/stu3/providers/ExplanationOfBenefitResourceProvider.java:215-222 | the full merge holds exactly the transformed claims of every kind |
| ClaimSearch.MergedEobsInClaimTypeOrder | bluebutton-server-app/src/main/java/gov/hhs/cms/bluebutton/server/app/stu3/providers/ExplanationOfBenefitResourceProvider.java:215-222 | with transformers that keep their kind, the merge is in claim-type order |
| ClaimSearch.WithoutSamhsaMembers | bluebutton-server-app/src/main/java/gov/hhs/cms/bluebutton/server/app/stu3/providers/ExplanationOfBenefitResourceProvider.java:389-396 | the filter keeps exactly the resources the matcher rejects |
| ClaimSearch.WithoutSamhsaAppend | bluebutton-server-app/src/main/java/gov/hhs/cms/bluebutton/server/app/stu3/providers/ExplanationOfBenefitResourceProvider.java:389-396 | filtering a concatenation filters each part, so survivors keep their relative order |
| ClaimSearch.WithoutSamhsaNoMatch | bluebutton-server-app/src/main/java/gov/hhs/cms/bluebutton/server/app/stu3/providers/ExplanationOfBenefitResourceProvider.java:389-396 | a list with no SAMHSA-related resource is left unchanged |
| ClaimSearch.WithoutSamhsaInClaimTypeOrder | bluebutton-server-app/src/main/java/gov/hhs/cms/bluebutton/server/app/stu3/providers/ExplanationOfBenefitResourceProvider.java:389-396 | filtering keeps claim-type order |
| ClaimSearch.FilterSamhsa | bluebutton-server-app/src/main/java/gov/hhs/cms/bluebutton/server/app/stu3/providers/ExplanationOfBenefitResourceProvider.java:389-396 | the iterator loop that removes matches leaves the filtered list |
| ClaimSearch.CompareByClaimIdThenClaimTypeIsTotalPreorder | bluebutton-server-app/src/main/java/gov/hhs/cms/bluebutton/server/app/stu3/providers/ExplanationOfBenefitResourceProvider.java:258-272 | the comparator is total and transitive, so `List.sort` may use it |
| ClaimSearch.SortEobsSorted | bluebutton-server-app/src/main/java/gov/hhs/cms/bluebutton/server/app/stu3/providers/ExplanationOfBenefitResourceProvider.java:258-272 | the sorted list is a permutation of its input, ascending by claim id, with equal ids in claim-type order |
| ClaimSearch.InsertByClaimIdAgrees | bluebutton-server-app/src/main/java/gov/hhs/cms/bluebutton/server/app/stu3/providers/ExplanationOfBenefitResourceProvider.java:267-270 | when no later equal id has an earlier kind, inserting by claim id alone gives the same list as the full comparator |
| ClaimSearch.SortByClaimIdAgrees | bluebutton-server-app/src/main/java/gov/hhs/cms/bluebutton/server/app/stu3/providers/ExplanationOfBenefitResourceProvider.java:258-272 | on a list whose equal ids are in claim-type order, the stable sort by claim id alone equals the sort with the tie-break |
| ClaimSearch.SearchResultsMembers | bluebutton-server-app/src/main/java/gov/hhs/cms/bluebutton/server/app/stu3/providers/ExplanationOfBenefitResourceProvider.java:209-227 | the search list is sorted and holds exactly the beneficiary's transformed claims, less the SAMHSA-related ones when `excludeSAMHSA` reads as true |
| ClaimSearch.SearchResultsIndependentOfIdIdentity | bluebutton-server-app/src/main/java/gov/hhs/cms/bluebutton/server/app/stu3/providers/ExplanationOfBenefitResourceProvider.java:258-272 | skipping the tie-break, as the `==` at line 267 can, does not change the search list |
| Paging.ParseIntegerParameter | bluebutton-server-app/src/main/java/gov/hhs/cms/bluebutton/server/app/stu3/providers/ExplanationOfBenefitResourceProvider.java:422-434 | a parsed parameter is a 32-bit value |
| Paging.IsPagingRequested | bluebutton-server-app/src/main/java/gov/hhs/cms/bluebutton/server/app/stu3/providers/ExplanationOfBenefitResourceProvider.java:441-451 | paging is requested exactly when `_count` is present, not requested exactly when both are absent, and a lone `startIndex` is an IllegalArgumentException |
| Paging.GetPageSize | bluebutton-server-app/src/main/java/gov/hhs/cms/bluebutton/server/app/stu3/providers/ExplanationOfBenefitResourceProvider.java:457-461 | with `_count` present, the page size is its value |
| Paging.GetStartIndex | bluebutton-server-app/src/main/java/gov/hhs/cms/bluebutton/server/app/stu3/providers/ExplanationOfBenefitResourceProvider.java:467-474 | with `_count` present, the start index is `startIndex`, or 0 when absent |
| Paging.PagingRequestCases | bluebutton-server-app/src/main/java/gov/hhs/cms/bluebutton/server/app/stu3/providers/ExplanationOfBenefitResourceProvider.java:407-474 | `_count` alone pages from 0; both absent means no paging; `startIndex` alone is an IllegalArgumentException; a non-integer value is an InvalidRequestException |
| Paging.SubList | bluebutton-server-app/src/main/java/gov/hhs/cms/bluebutton/server/app/stu3/providers/ExplanationOfBenefitResourceProvider.java:240-241 | `subList` succeeds exactly for `0 <= from <= to <= size`, with that slice |
| Paging.PageIsFullOrFails | bluebutton-server-app/src/main/java/gov/hhs/cms/bluebutton/server/app/stu3/providers/ExplanationOfBenefitResourceProvider.java:239-241 | a page exists exactly when `min(pageSize, size)` results fit from the start index; a short final page is an IndexOutOfBoundsException |
| Paging.FirstPage | bluebutton-server-app/src/main/java/gov/hhs/cms/bluebutton/server/app/stu3/providers/ExplanationOfBenefitResourceProvider.java:239-241 | the first page is the first `min(pageSize, size)` results |
| Paging.PagingLinkRelations | bluebutton-server-app/src/main/java/gov/hhs/cms/bluebutton/server/app/stu3/providers/ExplanationOfBenefitResourceProvider.java:311-324 | `next` and `last` appear exactly when `startIndex + pageSize < total`, `previous` exactly when `startIndex > 0`, in the order next, last, previous |
| Paging.PagingLinkStartsParseBack | bluebutton-server-app/src/main/java/gov/hhs/cms/bluebutton/server/app/stu3/providers/ExplanationOfBenefitResourceProvider.java:311-338 | each link's URL carries the page size, the patient, and its start (`startIndex + pageSize`, `(total / pageSize - 1) * pageSize`, `max(0, startIndex - pageSize)`) as text that parses back |
| Paging.FinalPageStartHoldsLastResult | bluebutton-server-app/src/main/java/gov/hhs/cms/bluebutton/server/app/stu3/providers/ExplanationOfBenefitResourceProvider.java:315 | the page-aligned start below the last result is a multiple of the page size whose page holds that result |
| Paging.LastLinkVersusFinalPage | bluebutton-server-app/src/main/java/gov/hhs/cms/bluebutton/server/app/stu3/providers/ExplanationOfBenefitResourceProvider.java:315 | the `last` link starts the final page exactly when the page size divides the total, and otherwise one page earlier, at a page that is not final |
| Paging.TwentyResultsByEight | bluebutton-server-app/src/main/java/gov/hhs/cms/bluebutton/server/app/stu3/providers/ExplanationOfBenefitResourceProvider.java:311-317 | 20 results in pages of 8 give `next` and `last` both at 8, while the final page starts at 16 |
| EobProvider.Read | bluebutton-server-app/src/main/java/gov/hhs/cms/bluebutton/server/app/stu3/providers/ExplanationOfBenefitResourceProvider.java:123-163 | IllegalArgumentException exactly for a missing, versioned or blank id; otherwise only ResourceNotFoundException or the transform of a stored claim whose kind tag and id make up the id text |
| EobProvider.ReadIdText | bluebutton-server-app/src/main/java/gov/hhs/cms/bluebutton/server/app/stu3/providers/ExplanationOfBenefitResourceProvider.java:133-161 | the lookup fails only with ResourceNotFoundException and otherwise returns the transform of the stored claim the text names |
| EobProvider.ReadEobIdText | bluebutton-server-app/src/main/java/gov/hhs/cms/bluebutton/server/app/stu3/providers/ExplanationOfBenefitResourceProvider.java:123-163 | reading a claim's own id returns that claim's transform, or ResourceNotFoundException when it is not stored |
| EobProvider.ReadUnmatchedText | bluebutton-server-app/src/main/java/gov/hhs/cms/bluebutton/server/app/stu3/providers/ExplanationOfBenefitResourceProvider.java:133-135 | a non-blank id that does not match the pattern is not found |
| EobProvider.ReadUnknownKind | bluebutton-server-app/src/main/java/gov/hhs/cms/bluebutton/server/app/stu3/providers/ExplanationOfBenefitResourceProvider.java:136-139 | a well-formed id whose prefix is no kind's tag is not found, whatever is stored |
| EobProvider.SearchBundle | bluebutton-server-app/src/main/java/gov/hhs/cms/bluebutton/server/app/stu3/providers/ExplanationOfBenefitResourceProvider.java:229-250 | a bundle's total is the size of the whole list and its entries are a contiguous slice of it; BadCodeMonkeyException never escapes |
| EobProvider.UnpagedSearchReturnsAll | bluebutton-server-app/src/main/java/gov/hhs/cms/bluebutton/server/app/stu3/providers/ExplanationOfBenefitResourceProvider.java:244-248 | without paging parameters the bundle holds every result in order, no links, and the total |
| EobProvider.PagedSearch | bluebutton-server-app/src/main/java/gov/hhs/cms/bluebutton/server/app/stu3/providers/ExplanationOfBenefitResourceProvider.java:231-248 | with a positive `_count` and a `startIndex`, the bundle holds the full page and its links, or the search is an IndexOutOfBoundsException when that page does not fit |
| EobProvider.CountAlonePagesFromStart | bluebutton-server-app/src/main/java/gov/hhs/cms/bluebutton/server/app/stu3/providers/ExplanationOfBenefitResourceProvider.java:231-248 | `_count` without `startIndex` returns the first page, with links computed from start 0 |
| EobProvider.StartIndexAloneRejected | bluebutton-server-app/src/main/java/gov/hhs/cms/bluebutton/server/app/stu3/providers/ExplanationOfBenefitResourceProvider.java:441-451 | `startIndex` without `_count` is an IllegalArgumentException |
| EobProvider.ZeroCountRejected | bluebutton-server-app/src/main/java/gov/hhs/cms/bluebutton/server/app/stu3/providers/ExplanationOfBenefitResourceProvider.java:235-237 | `_count=0` is an InvalidRequestException with the page-size message, whatever the start index |
| EobProvider.NegativeCountRejected | bluebutton-server-app/src/main/java/gov/hhs/cms/bluebutton/server/app/stu3/providers/ExplanationOfBenefitResourceProvider.java:239-241 | a negative `_count` without `startIndex` makes `subList` throw IllegalArgumentException |
| EobProvider.NegativeCountWithStartIndex | bluebutton-server-app/src/main/java/gov/hhs/cms/bluebutton/server/app/stu3/providers/ExplanationOfBenefitResourceProvider.java:239-241 | a negative `_count` with a `startIndex` always fails: IndexOutOfBoundsException when the start is below 0 or the end past the list, IllegalArgumentException otherwise |
| EobProvider.TwentyResultsInPagesOfEight | bluebutton-server-app/src/main/java/gov/hhs/cms/bluebutton/server/app/stu3/providers/ExplanationOfBenefitResourceProvider.java:239-248 | 20 results with `_count=8` give results 0-7 with `next` and `last` at 8, and `startIndex=16` fails |
| EobProvider.SearchTotalCountsFilteredClaims | bluebutton-server-app/src/main/java/gov/hhs/cms/bluebutton/server/app/stu3/providers/ExplanationOfBenefitResourceProvider.java:215-248 | the total is the number of claims left after the SAMHSA filter and before paging, and every entry is one of them |
| EobProvider.AddResourcesToBundle | bluebutton-server-app/src/main/java/gov/hhs/cms/bluebutton/server/app/stu3/providers/ExplanationOfBenefitResourceProvider.java:284-291 | appends the resources as entries in order, changes nothing else, and returns the same bundle |
| EobProvider.CreatePagingLink | bluebutton-server-app/src/main/java/gov/hhs/cms/bluebutton/server/app/stu3/providers/ExplanationOfBenefitResourceProvider.java:330-338 | the builder yields the paging URL whose `_count`, `startIndex` and `patient` values `PagingLinkStartsParseBack` reads back |
| EobProvider.AddPagingLinks | bluebutton-server-app/src/main/java/gov/hhs/cms/bluebutton/server/app/stu3/providers/ExplanationOfBenefitResourceProvider.java:305-325 | appends exactly the links whose presence and order `PagingLinkRelations` states, and changes nothing else |
| EobProvider.LoadSearchResults | bluebutton-server-app/src/main/java/gov/hhs/cms/bluebutton/server/app/stu3/providers/ExplanationOfBenefitResourceProvider.java:207-227 | the eight queries, the optional filter and the sort leave the search list of `SearchResultsMembers` |
| EobProvider.BuildBundle | bluebutton-server-app/src/main/java/gov/hhs/cms/bluebutton/server/app/stu3/providers/ExplanationOfBenefitResourceProvider.java:229-250 | returns a new bundle holding exactly the value `SearchBundle` describes, or fails with the same exception |
| EobProvider.FindByPatient | bluebutton-server-app/src/main/java/gov/hhs/cms/bluebutton/server/app/stu3/providers/ExplanationOfBenefitResourceProvider.java:195-251 | returns a new bundle equal to the specified search result, or fails exactly when it does, with the same exception |

## Left out

- The JPA Criteria queries (provider lines 145-159 and 348-366) are not modelled. `ClaimStore` stands in for them: `findById` maps a kind and an id to at most one record, and `findByPatient` maps a kind and a beneficiary to a list of records.
- The Dropwizard metric timers are not modelled. They are instrumentation only.
- The warning logged when a paging parameter does not parse as an integer (provider lines 427-428) is not modelled. It is logging only; the InvalidRequestException that follows it is.
- The per-kind claim transformers and `SamhsaMatcher` are not modelled. They are code outside the core and appear as a function parameter and a predicate parameter.
- HAPI FHIR types are reduced to what the provider reads or writes:
  - a resource has a claim type, an unprefixed claim id and opaque content;
  - `IdType` carries its version already read as a number, so the parsing of version text is not modelled.
- `ClaimTypes.DescriptorOf`: the getters are the fields of a datatype, so they return the constructor arguments by construction. Only CARRIER's entity class, `@Id` attribute and lazy attributes come from `ClaimType.java`; the descriptors of DME through SNF and every beneficiary-id attribute are assumed values. No other member reads a descriptor.
- `JavaLang.ParseInt`: only ASCII digits are modelled; `Integer.parseInt` also accepts other Unicode decimal digits.
- `JavaLang.CompareTo` compares characters, not UTF-16 code units. The two differ only for characters outside the Basic Multilingual Plane.
- `JavaLang.ToLowerCase` folds only A-Z. The model assumes a default locale without the Turkish or Azeri casing rules; under those, the four tags that contain `I` (carrier, hospice, inpatient, outpatient) never parse.
- `Paging.PagingLinks`: `startIndex + pageSize` and `(total / pageSize - 1) * pageSize` are unbounded integers, so Java's 32-bit wrap-around of these `int` expressions is not modelled.
- `EobProvider.BuildBundle`: `startIndex + numToReturn` is an unbounded integer, so Java's 32-bit wrap-around is not modelled.
- `ClaimSearch.CompareByClaimIdThenClaimType` compares claim ids by value where line 267 compares String references. `SearchResultsIndependentOfIdIdentity` shows the search result is the same when `==` is false for every pair of ids, assuming each transformer keeps its resource's claim type (`KeepsClaimType`). A mix of shared and distinct String objects is not covered.
- `ListSort.Sort` is a stable insertion sort standing in for the JDK's stable TimSort. For a comparator that is a total preorder, every stable sort returns the same list.
- `EobProvider.FindByPatient`: the `ArrayList` is a sequence value that the method reassigns. In-place sorting and aliasing of the list are not modelled. The method body is split into `LoadSearchResults` (the queries, the filter and the sort) and `BuildBundle` (the bundle).
- `ClaimSearch.FilterSamhsa` walks a sequence with a cursor in place of a `ListIterator` over the list.
- `FDADrugDataUtilityApp.java` is not part of this model. It is download and file-conversion plumbing.
- `EndpointJsonResponseComparatorIT.java` is not part of this model. It is an HTTP integration test, used only as evidence of the eight kinds and of paging with `_count` alone.
