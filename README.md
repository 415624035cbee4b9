# CloudFormation reference-page scrapers, modelled in Dafny

Two Go programs read the AWS CloudFormation user guide and turn each reference
page into a JSON record:

- `cfnTemplateResourceScraper.go` handles template-resource pages such as
  `AWS::EC2::Instance`. The record has the name, the properties (description,
  type, required, update behaviour), the first JSON and YAML samples, the
  page URL, the description paragraph and the `Fn::GetAtt` return values.
- `cfnResourcePropertyScraper.go` handles resource-property pages. The
  record has a name and properties only, and there is no update behaviour.

Each program defines its own copies of the same three functions: the extraction
function `scrapeResourceTemplate` and two helpers.
`fillProperties` splits a property's `dd` text into labelled fields, and
`cleanString` normalises whitespace. This project models those three, for
both page types, over an already-parsed page.

Files and modules:

- `text.dfy` (`Text`): `cleanString` as a byte loop with its one-bit flag,
  proved equal to a reference definition made of three passes. The passes
  delete line feeds, keep only the first space of each run, and trim ASCII
  whitespace. The module also has the Go library helpers the scrapers use
  (`strings.Contains`, `TrimSuffix`, `TrimSpace`, `Join`).
- `records.dfy` (`Records`): the records, the errors, the parser's label
  sets, and `Variant`. A `Variant` is a configuration record that tells the
  two page types apart.
- `fields.dfy` (`Fields`): `fillProperties`. The parser
  (`paraparser.Parse`) is a function-typed parameter. The file also states
  the two laws of `fillProperties` that the loops rely on: it keeps the
  entry's name, and a later fill replaces an earlier one.
- `dom.dfy` (`Dom`): a page is a map from each selector the scrapers use to
  the elements it matches. Each element carries the texts the scrapers read.
- `blocks.dfy` (`Blocks`): the `.variablelist` loops exactly as written.
  The property loop takes the fill as a parameter; the extraction passes
  `fillProperties` of its page type (`Fields.Filler`). Lemmas that need
  the fill's laws say so in their preconditions. A
  block is a property block when its text contains `"Required:"`. Each
  property block appends one entry per `dt` to a slice shared by all blocks,
  then refills entries from index 0. Each other block replaces the return
  values.
- `pairing.dfy` (`Pairing`): the defect in the property loop (see
  Findings), and the corrected pairing used by the extraction.
- `scraper.dfy` (`Scraper`): the heading selector, the name, the
  description, the samples, and the whole extraction with its error order.

Go's index-out-of-range panics become the error `IndexOutOfRange`. In the
as-written loops of `Blocks` it is raised when a `dd` position has no slot
to write to, at the same point in the run as the panic. The extraction in
`Scraper` uses the corrected property pairing; there the property-loop
error means that some property block has more `dd`s than `dt`s.

## Model

| member | source | states |
|---|---|---|
| `Text.CleanString` | cfnTemplateResourceScraper.go:189-207 | The flag loop returns the reference normalisation `Clean`: line feeds deleted, the first space of each run kept, ASCII whitespace trimmed at both ends. |
| `Text.CleanNormalises` | cfnTemplateResourceScraper.go:189-207 | The result has no line feed, no two adjacent spaces and no whitespace at either end. It keeps every non-whitespace byte of the input in order, and it only deletes bytes (its multiset is contained in the input's). |
| `Text.CleanFixedPoints` | cfnTemplateResourceScraper.go:189-207 | A string is returned unchanged exactly when it is already normalised. |
| `Text.CleanIdempotent` | cfnTemplateResourceScraper.go:189-207 | Cleaning twice is the same as cleaning once. |
| `Text.CleanOnlyDeletes` | cfnTemplateResourceScraper.go:189-207 | The result is no longer than the input and has no more spaces than it. |
| `Text.CleanBlankIff` | cfnTemplateResourceScraper.go:189-207 | The result is "" exactly when the input is all whitespace. |
| `Text.CleanJoinsAcrossNewline` | cfnTemplateResourceScraper.go:194-196 | For any text p and q, p + line feed + q cleans exactly as p + q does: a line feed is deleted, not turned into a space, so its neighbours become adjacent. |
| `Text.CleanDoubleSpace` | cfnTemplateResourceScraper.go:197-204 | For any text p and q, p + two spaces + q cleans exactly as p + one space + q does. |
| `Text.CleanCollapsesRun` | cfnTemplateResourceScraper.go:194-204 | For any text p and q and any run r of spaces and line feeds with at least one space, p + r + q cleans exactly as p + one space + q does. |
| `Text.CleanTrims` | cfnTemplateResourceScraper.go:206 | One example input: two spaces, a visible byte x, two spaces cleans to x alone, for every visible x. |
| `Text.TrimSpaceTrimmed` | cfnTemplateResourceScraper.go:206 | `strings.TrimSpace` leaves no ASCII whitespace at either end, and leaves an already trimmed string unchanged. |
| `Records.Message` | cfnTemplateResourceScraper.go:167-172 | The missing-name error carries exactly "Could not locate resource name"; the missing-properties error carries "Could not locate properties of resource: " followed by the resource's name; the index error's text starts with the Go runtime's "runtime error: index out of range [" (the index and the length follow, in decimal). |
| `Records.MessageIdentifies` | cfnTemplateResourceScraper.go:167-172 | Equal messages come from the same kind of error, and equal missing-properties messages name the same resource. |
| `Fields.FillProperty` | cfnTemplateResourceScraper.go:177-187 | The name is kept. Description, required and type are the cleaned joins of the parser's `_rest`, `Required:` and `Type:` buckets. Updates is the cleaned `Update requires:` bucket for template resources and is untouched for resource properties (cfnResourcePropertyScraper.go:121-130). |
| `Fields.FieldMeaning` | cfnTemplateResourceScraper.go:181-184 | Each filled field is normalised and carries exactly the non-whitespace bytes of its label's runs. A label the parser did not report gives "". |
| `Fields.FillOverwrites` | cfnTemplateResourceScraper.go:177-187 | Filling discards everything a property held except its name: a second fill replaces the first one entirely. |
| `Fields.FillerLaws` | cfnTemplateResourceScraper.go:177-187 | As used by the loops, `fillProperties` keeps names and overwrites. On resource-property pages it leaves `Updates` alone (cfnResourcePropertyScraper.go:121-130). |
| `Blocks.AddPropertyBlock` | cfnTemplateResourceScraper.go:136-144 | One property block appends a blank entry per `dt` to the shared slice, then overwrites entry i with the fill of the i-th `dd`. If a `dd` index reaches the slice's length, the result is `IndexOutOfRange`. |
| `Blocks.CollectProperties` | cfnTemplateResourceScraper.go:132-146 | The as-written property loop over all `.variablelist` blocks equals the block-by-block definition; the first panic ends it. |
| `Blocks.RefillAt` | cfnTemplateResourceScraper.go:140-142 | After the `dd` loop, entry k holds the fill from the k-th `dd`. Entries past the last `dd` are untouched. |
| `Blocks.PropertyNames` | cfnTemplateResourceScraper.go:136-138 | As written, there is one entry per `dt` of all property blocks. With a fill that keeps names, the entries are named by the raw `dt` texts, in document order. |
| `Blocks.PropertyFields` | cfnTemplateResourceScraper.go:132-146 | For a fill that keeps names and overwrites, as written, entry k is a blank entry filled from the last `dd` at position k in any property block, or blank if there is none. No position at or past the slice's length is ever written. |
| `Blocks.PropertiesFailIff` | cfnTemplateResourceScraper.go:140-142 | The as-written loop panics exactly when some property block has more `dd`s than the entries accumulated up to and including it. |
| `Blocks.PropertiesIgnoreOtherBlocks` | cfnTemplateResourceScraper.go:133 | Blocks without "Required:" in their text do not affect the property loop. |
| `Blocks.BlockAttributes` | cfnTemplateResourceScraper.go:153-163 | One other block gives a fresh list with one entry per `dt`. The i-th `dd`, cleaned, is entry i's description. If there are more `dd`s than `dt`s, the result is `IndexOutOfRange`. |
| `Blocks.CollectReturnValues` | cfnTemplateResourceScraper.go:149-165 | The attribute loop equals its block-by-block definition; the first panic ends it. |
| `Blocks.ReturnValuesFromLastBlock` | cfnTemplateResourceScraper.go:149-165 | The return values come from the last non-property block alone: raw `dt` names, cleaned `dd` descriptions by position, and "" past the last `dd`. If there is no such block, there are none. |
| `Blocks.ReturnValuesFailIff` | cfnTemplateResourceScraper.go:159-161 | The attribute loop panics exactly when some non-property block has more `dd`s than `dt`s. |
| `Blocks.ReturnValuesIgnorePropertyBlocks` | cfnTemplateResourceScraper.go:150 | Property blocks never feed the return values. |
| `Pairing.RefillRestartsAtZero` | cfnTemplateResourceScraper.go:140-142 | For any fill that overwrites, as written, with two one-property blocks, the first entry gets the second block's description and the second entry stays blank. |
| `Pairing.OwnIsFreshStep` | cfnTemplateResourceScraper.go:136-144 | The corrected step for one block is the as-written step started from an empty slice. |
| `Pairing.CollectPairedProperties` | cfnTemplateResourceScraper.go:132-146 | The corrected loop gives each property block a slice of its own and appends it. It equals the corrected block-by-block definition. |
| `Pairing.PairedOwnDd` | cfnTemplateResourceScraper.go:132-146 | Corrected: the entry for the j-th `dt` of property block b comes after the entries of earlier blocks. It is filled from the j-th `dd` of the same block, or is blank if there is none. |
| `Pairing.PairedKeepsBlocksApart` | cfnTemplateResourceScraper.go:132-146 | Corrected: on the page of `RefillRestartsAtZero`, each entry gets its own block's description. |
| `Pairing.PairedNames` | cfnTemplateResourceScraper.go:136-138 | Corrected: there is still one entry per `dt` of all property blocks. With a fill that keeps names, they are named by the raw `dt` texts, in document order. |
| `Pairing.PairedFailIff` | cfnTemplateResourceScraper.go:140-142 | Corrected: the loop fails exactly when some property block has more `dd`s than `dt`s of its own. |
| `Pairing.NoPropertyBlocks` | cfnTemplateResourceScraper.go:170 | Without property blocks, both loops give no properties. |
| `Pairing.PairingAgreesOnOneBlock` | cfnTemplateResourceScraper.go:132-146 | With at most one property block, the as-written and corrected loops agree, errors included. |
| `Pairing.PairedUpdatesBlank` | cfnResourcePropertyScraper.go:121-130 | With a fill that never touches `Updates`, as on resource-property pages, no entry ever gets a value for it. |
| `Scraper.AnchorId` | cfnTemplateResourceScraper.go:87 | The heading selector starts with "#". The link can be rebuilt from it by adding back ".html" exactly when the link ended in ".html". |
| `Scraper.AnchorIdOfPage` | cfnTemplateResourceScraper.go:87 | "name.html" gives "#name": only one trailing ".html" is removed. |
| `Scraper.ResourceName` | cfnTemplateResourceScraper.go:100-102 | The name loop leaves the cleaned text of the last heading match, or "" when there is none. |
| `Scraper.NameMeaning` | cfnTemplateResourceScraper.go:100-102 | The name is normalised and carries the visible bytes of the last heading match. It is "" exactly when there is no match or that match is all whitespace. |
| `Scraper.CollectListings` | cfnTemplateResourceScraper.go:110-122 | The sample loop collects every `.programlisting` text of every matched section, in document order. |
| `Scraper.FirstListingFrom` | cfnTemplateResourceScraper.go:124-129 | The kept sample is the first listing of the first matched section that has one. |
| `Scraper.NoListingNoSample` | cfnTemplateResourceScraper.go:124-129 | Without any listing, the sample stays "". |
| `Scraper.Scrape` | cfnTemplateResourceScraper.go:85-175 | The extraction, step by step, equals `Extract`, whose property step is the corrected per-block pairing (`Pairing.CollectPairedProperties`), not the source's refill from index 0. Property-loop errors come first, then attribute-loop panics, then the missing name, then missing properties. |
| `Scraper.ExtractOkIff` | cfnTemplateResourceScraper.go:167-172 | With the corrected pairing, a record is returned exactly when all of these hold: each property block has no more `dd`s than its own `dt`s (`Pairing.OwnBlocksFit`, not the source's cumulative `Blocks.PropertyBlocksFit`); each other block, when return values are read, has no more `dd`s than `dt`s; the last heading match exists and has visible text; the property blocks have at least one `dt`. |
| `Scraper.ExtractErrors` | cfnTemplateResourceScraper.go:167-172 | With fit meaning `Pairing.OwnBlocksFit` and, when return values are read, `Blocks.AttributeBlocksFit`: an index error is reported exactly when the blocks do not fit; "missing name" exactly when they fit and the last heading match is absent or blank; "missing properties" under the found name exactly when they fit, the name is there and no property block has a `dt`. |
| `Scraper.ExtractPropertyEntry` | cfnTemplateResourceScraper.go:132-146 | With the corrected pairing (the source's own loop breaks this on two property blocks, see `Pairing.RefillRestartsAtZero`): in a returned record, the entry for the j-th `dt` of property block b sits after the entries of the earlier property blocks and is that `dt` filled by `fillProperties` from the j-th `dd` of the same block, or blank when there is no such `dd`. |
| `Scraper.ExtractAgreesOnOneBlock` | cfnTemplateResourceScraper.go:132-146 | On a page with at most one property block, the corrected extraction and the as-written one (`ExtractAsWritten`, with the source's property loop) give the same record or the same error. |
| `Scraper.ExtractAsWrittenOkIff` | cfnTemplateResourceScraper.go:132-172 | The as-written extraction returns a record exactly when every property block's `dd`s fit the entries accumulated up to it (`Blocks.PropertyBlocksFit`), the other blocks fit when return values are read, the last heading match has visible text, and some property block has a `dt`. |
| `Scraper.ExtractTemplateResource` | cfnTemplateResourceScraper.go:85-175 | A template-resource record has all of these: the name `NameOf` gives for the heading matches (the cleaned last match), hence normalised; one property per `dt` in document order; the first listing under the JSON and under the YAML sample selector (or ""); the page URL; the description paragraph; and one return value per `dt` of the last non-property block, named by the `dt` and described by the cleaned `dd` at the same position (or ""). |
| `Scraper.ExtractResourceProperty` | cfnResourcePropertyScraper.go:78-119 | A resource-property record has a name and properties only: the cleaned last heading match as its name (:88-90) and one property per `dt` in document order, named by the `dt` (:99-101). It has no samples, URL, description or return values, and no property has an update value. |

## Left out

- `main` of both programs is left out: the link walk over the index page, the JSON output file and the logging.
- Fetching the page is left out, together with its error return: a page is a parameter, already parsed.
- goquery is not part of this model. A document-level `Find` becomes the function `Dom.Find` over a `Dom.Page`, a map from each selector to the elements it matches. An element's `Text()`, `Next().Text()` and its own nested `Find`s become the fields of `Dom.Element`; a selector that matches nothing gives no elements.
- `paraparser.Parse` is not part of this model. It is the parameter `parse`, and `Fields.FillProperty` holds for any parser.
- The line printed to standard output is left out.
- On an error, the Go code also returns the partly filled record, which `main` still appends to its output. The model returns only the error.
- A nil slice and an empty slice are not told apart. In the JSON output they differ (`null` vs `[]`) for properties and return values.
- `Text.CleanString` treats only the six ASCII whitespace bytes as whitespace when trimming. Go's `strings.TrimSpace` also trims Unicode spaces such as U+0085 and U+00A0; that is not modelled.
- A Go runtime panic is modelled as the error `IndexOutOfRange`. The real program aborts instead of returning.
- Line feeds are deleted inside `cleanString`, not turned into spaces, so text joined across a line break runs together. The model follows the code (`Text.CleanJoinsAcrossNewline`).
- Scraper.Extract: collects properties with the corrected pairing of `Pairing` rather than the as-written refill from index 0. The source's version is `Scraper.ExtractAsWritten`, and the two agree on every page with at most one property block (`Scraper.ExtractAgreesOnOneBlock`). The step-by-step method `Scraper.Scrape` and the lemmas about error order and record contents are stated for the corrected one.

## Findings

| source | as written | input that shows it | evidently intended | confidence | as-written member | corrected member |
|---|---|---|---|---|---|---|
| cfnTemplateResourceScraper.go:140-142 (also cfnResourcePropertyScraper.go:103-105) | The `dd` loop writes `property[i]`, with `i` counted from 0 within the block, into the slice shared by all property blocks. | A page with two `.variablelist` blocks containing "Required:", each with one `dt` and one `dd`. The first entry gets the second block's description; the second entry stays blank. | Each `dd` fills the entry of the `dt` at the same position in its own block. | not executed | `Pairing.RefillRestartsAtZero` | `Pairing.PairedOwnDd` |
