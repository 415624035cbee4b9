/**
 * `scrapeResourceTemplate` of both scrapers: from one reference page to one
 * resource record. The page is already parsed (see `Dom`); fetching it and
 * the progress line printed to standard output are not part of this model.
 */
module Scraper {
  import opened Wrappers
  import opened Text
  import opened Records
  import opened Fields
  import opened Dom
  import opened Blocks
  import opened Pairing

  /** The base URL of the CloudFormation user guide. */
  const Path := "http://docs.aws.amazon.com/AWSCloudFormation/latest/UserGuide/"
  const HtmlSuffix := ".html"
  const JsonSelector := "#JSON"
  const YamlSelector := "#YAML"
  const BlockSelector := ".variablelist"

  // ---------------------------------------------------------------------
  // The resource's heading

  /** The selector of the page's heading: "#" and the page name, one
      trailing ".html" removed. The page name can be read back from it. */
  function AnchorId(href: string): (id: string)
    ensures |id| > 0 && id[0] == '#'
    ensures href == id[1..] + (if HasSuffix(href, HtmlSuffix) then HtmlSuffix else "")
  {
    "#" + TrimSuffix(href, HtmlSuffix)
  }

  /** The usual link "name.html" gives the selector "#name", even when the
      name itself ends in ".html". */
  lemma {:induction false} AnchorIdOfPage(name: string)
    ensures AnchorId(name + HtmlSuffix) == "#" + name
  {
  }

  /** The name loop: every heading match overwrites the name, so the last
      one wins; no match leaves it "". */
  function NameOf(heads: seq<Element>): string {
    if heads == [] then "" else Clean(heads[|heads| - 1].text)
  }

  /** The name is the normalised text of the last heading match, and it is
      missing exactly when there is no match or that match's text is all
      whitespace. */
  lemma {:induction false} NameMeaning(heads: seq<Element>)
    ensures heads == [] ==> NameOf(heads) == ""
    ensures heads != [] ==>
      Normalised(NameOf(heads)) && Visible(NameOf(heads)) == Visible(heads[|heads| - 1].text)
    ensures NameOf(heads) == "" <==> heads == [] || Visible(heads[|heads| - 1].text) == []
  {
    if heads != [] {
      CleanNormalises(heads[|heads| - 1].text);
      CleanBlankIff(heads[|heads| - 1].text);
    }
  }

  method ResourceName(heads: seq<Element>) returns (name: string)
    ensures name == NameOf(heads)
  {
    name := "";
    var i := 0;
    while i < |heads|
      invariant 0 <= i <= |heads|
      invariant name == NameOf(heads[..i])
    {
      name := CleanString(heads[i].text);
      i := i + 1;
    }
    assert heads[..i] == heads;
  }

  /** The description: the text of the first heading match's next sibling,
      uncleaned; "" without a match. */
  function DescriptionOf(heads: seq<Element>): string {
    if heads == [] then "" else heads[0].nextText
  }

  // ---------------------------------------------------------------------
  // The JSON and YAML samples

  /** All `.programlisting` texts under the matched sections, in order. */
  function AllListings(sections: seq<Element>): seq<string> {
    if sections == [] then []
    else AllListings(sections[..|sections| - 1]) + sections[|sections| - 1].listings
  }

  /** `xs[0]` guarded by `len(xs) > 0`: the field stays "" otherwise. */
  function FirstOrEmpty(xs: seq<string>): string {
    if xs == [] then "" else xs[0]
  }

  /** The collection loop of one sample section: every listing of every
      match is appended. */
  method CollectListings(sections: seq<Element>) returns (found: seq<string>)
    ensures found == AllListings(sections)
  {
    found := [];
    var i := 0;
    while i < |sections|
      invariant 0 <= i <= |sections|
      invariant found == AllListings(sections[..i])
    {
      assert sections[..i + 1][..i] == sections[..i];
      var j := 0;
      ghost var before := found;
      while j < |sections[i].listings|
        invariant 0 <= j <= |sections[i].listings|
        invariant found == before + sections[i].listings[..j]
      {
        assert sections[i].listings[..j + 1] == sections[i].listings[..j] + [sections[i].listings[j]];
        found := found + [sections[i].listings[j]];
        j := j + 1;
      }
      assert sections[i].listings[..j] == sections[i].listings;
      i := i + 1;
    }
    assert sections[..i] == sections;
  }

  /** Sections without listings contribute nothing. */
  lemma {:induction false} NoListings(sections: seq<Element>)
    requires forall c :: 0 <= c < |sections| ==> sections[c].listings == []
    ensures AllListings(sections) == []
  {
    if sections != [] {
      NoListings(sections[..|sections| - 1]);
    }
  }

  /** The sample kept is the first listing of the first matched section that
      has one. */
  lemma {:induction false} FirstListingFrom(sections: seq<Element>, b: nat)
    requires b < |sections| && sections[b].listings != []
    requires forall c :: 0 <= c < b ==> sections[c].listings == []
    ensures AllListings(sections) != []
    ensures FirstOrEmpty(AllListings(sections)) == sections[b].listings[0]
  {
    var p := sections[..|sections| - 1];
    if b < |p| {
      assert p[b] == sections[b];
      assert forall c :: 0 <= c < b ==> p[c] == sections[c];
      FirstListingFrom(p, b);
    } else {
      NoListings(p);
      assert AllListings(sections) == [] + sections[b].listings;
    }
  }

  /** Without any listing the sample is "". */
  lemma {:induction false} NoListingNoSample(sections: seq<Element>)
    requires forall c :: 0 <= c < |sections| ==> sections[c].listings == []
    ensures FirstOrEmpty(AllListings(sections)) == ""
  {
    NoListings(sections);
  }

  // ---------------------------------------------------------------------
  // The whole extraction

  /**
   * The record once the property loop has given `properties`. The loops run
   * first, so a panic in the property loop and then one in the attribute
   * loop come before the two returned errors; the missing name is reported
   * before missing properties.
   */
  function Assemble(v: Variant, page: Page, href: string, properties: Result<seq<Property>, ScrapeError>)
    : Result<Resource, ScrapeError>
  {
    var heads := Find(page, AnchorId(href));
    var blocks := Find(page, BlockSelector);
    match properties
    case Err(e) => Err(e)
    case Ok(props) =>
      match (if v.withAttributes then ReturnValuesOf(blocks) else Ok([]))
      case Err(e) => Err(e)
      case Ok(attrs) =>
        var name := NameOf(heads);
        if name == "" then Err(MissingName)
        else if props == [] then Err(MissingProperties(name))
        else
          var withSamples := v.withSamples;
          Ok(Resource(
            name,
            props,
            if withSamples then FirstOrEmpty(AllListings(Find(page, JsonSelector))) else "",
            if withSamples then FirstOrEmpty(AllListings(Find(page, YamlSelector))) else "",
            if withSamples then Path + href else "",
            if withSamples then DescriptionOf(heads) else "",
            attrs))
  }

  /** One page to one record, with the properties paired block by block as
      evidently intended (see `Pairing`). */
  function Extract(v: Variant, page: Page, href: string, parse: Parser): Result<Resource, ScrapeError> {
    Assemble(v, page, href, PairedPropertiesOf(Filler(v, parse), Find(page, BlockSelector)))
  }

  /** One page to one record as the source computes it, with the property
      loop refilling the shared slice from index 0 for every block. */
  function ExtractAsWritten(v: Variant, page: Page, href: string, parse: Parser): Result<Resource, ScrapeError> {
    Assemble(v, page, href, PropertiesOf(Filler(v, parse), Find(page, BlockSelector)))
  }

  /** On a page with at most one property block, the corrected extraction
      and the source's agree, record and errors alike. */
  lemma {:induction false} ExtractAgreesOnOneBlock(v: Variant, page: Page, href: string, parse: Parser)
    requires |PropertyBlocks(Find(page, BlockSelector))| <= 1
    ensures Extract(v, page, href, parse) == ExtractAsWritten(v, page, href, parse)
  {
    PairingAgreesOnOneBlock(Filler(v, parse), Find(page, BlockSelector));
  }

  /** The source's extraction succeeds exactly when every property block's
      `dd`s fit the entries accumulated so far, every other block (when
      return values are read) has no more `dd`s than `dt`s, the heading's
      last match has visible text, and the property blocks have a `dt`. */
  lemma {:induction false} ExtractAsWrittenOkIff(v: Variant, page: Page, href: string, parse: Parser)
    ensures var heads := Find(page, AnchorId(href));
      var blocks := Find(page, BlockSelector);
      ExtractAsWritten(v, page, href, parse).Ok? <==>
        && PropertyBlocksFit(blocks)
        && (v.withAttributes ==> AttributeBlocksFit(blocks))
        && heads != [] && Visible(heads[|heads| - 1].text) != []
        && |PropertyTerms(blocks)| > 0
  {
    var heads := Find(page, AnchorId(href));
    var blocks := Find(page, BlockSelector);
    PropertiesFailIff(Filler(v, parse), blocks);
    ReturnValuesFailIff(blocks);
    NameMeaning(heads);
    if PropertiesOf(Filler(v, parse), blocks).Ok? {
      PropertyNames(Filler(v, parse), blocks);
    }
  }

  /** `scrapeResourceTemplate`, step by step in the source's order, except
      that the property step is the corrected per-block pairing of
      `Pairing.CollectPairedProperties`. */
  method Scrape(v: Variant, page: Page, href: string, parse: Parser) returns (result: Result<Resource, ScrapeError>)
    ensures result == Extract(v, page, href, parse)
  {
    var id := AnchorId(href);
    var heads := Find(page, id);
    var doc := if v.withSamples then Path + href else "";
    var name := ResourceName(heads);
    var description := if v.withSamples then DescriptionOf(heads) else "";
    var json, yaml := "", "";
    if v.withSamples {
      var jsons := CollectListings(Find(page, JsonSelector));
      var yamls := CollectListings(Find(page, YamlSelector));
      if |jsons| > 0 {
        json := jsons[0];
      }
      if |yamls| > 0 {
        yaml := yamls[0];
      }
    }
    var blocks := Find(page, BlockSelector);
    var properties := CollectPairedProperties(Filler(v, parse), blocks);
    if properties.Err? {
      return Err(properties.error);
    }
    var returnValues: seq<Attribute> := [];
    if v.withAttributes {
      var attributes := CollectReturnValues(blocks);
      if attributes.Err? {
        return Err(attributes.error);
      }
      returnValues := attributes.value;
    }
    if name == "" {
      return Err(MissingName);
    }
    if |properties.value| == 0 {
      return Err(MissingProperties(name));
    }
    return Ok(Resource(name, properties.value, json, yaml, doc, description, returnValues));
  }

  // ---------------------------------------------------------------------
  // What an extraction yields

  /** An extraction succeeds exactly when no block has a `dd` without a
      slot, the heading's last match has visible text, and the property
      blocks have at least one `dt`. */
  lemma {:induction false} ExtractOkIff(v: Variant, page: Page, href: string, parse: Parser)
    ensures var heads := Find(page, AnchorId(href));
      var blocks := Find(page, BlockSelector);
      Extract(v, page, href, parse).Ok? <==>
        && OwnBlocksFit(blocks)
        && (v.withAttributes ==> AttributeBlocksFit(blocks))
        && heads != [] && Visible(heads[|heads| - 1].text) != []
        && |PropertyTerms(blocks)| > 0
  {
    var heads := Find(page, AnchorId(href));
    var blocks := Find(page, BlockSelector);
    PairedFailIff(Filler(v, parse), blocks);
    ReturnValuesFailIff(blocks);
    NameMeaning(heads);
    if PairedPropertiesOf(Filler(v, parse), blocks).Ok? {
      PairedNames(Filler(v, parse), blocks);
    }
  }

  /** The error reported names the first failure in the source's order: a
      panic of the property loop or of the attribute loop, then the missing
      name, then the missing properties under the found name. Each comes
      exactly when the earlier checks pass and its own fails. */
  lemma {:induction false} ExtractErrors(v: Variant, page: Page, href: string, parse: Parser)
    ensures var heads := Find(page, AnchorId(href));
      var blocks := Find(page, BlockSelector);
      var r := Extract(v, page, href, parse);
      var fit := OwnBlocksFit(blocks) && (v.withAttributes ==> AttributeBlocksFit(blocks));
      var named := heads != [] && Visible(heads[|heads| - 1].text) != [];
      && ((r.Err? && r.error.IndexOutOfRange?) <==> !fit)
      && (r == Err(MissingName) <==> fit && !named)
      && (r == Err(MissingProperties(NameOf(heads))) <==> fit && named && |PropertyTerms(blocks)| == 0)
      && (r.Err? && r.error.MissingProperties? ==> r.error.resource == NameOf(heads))
  {
    var heads := Find(page, AnchorId(href));
    var blocks := Find(page, BlockSelector);
    PairedFailIff(Filler(v, parse), blocks);
    ReturnValuesFailIff(blocks);
    NameMeaning(heads);
    if PairedPropertiesOf(Filler(v, parse), blocks).Ok? {
      PairedNames(Filler(v, parse), blocks);
    } else {
      PairedErrorIsPanic(Filler(v, parse), blocks);
    }
    if ReturnValuesOf(blocks).Err? {
      ReturnValuesErrorIsPanic(blocks);
    }
  }

  /** A successful record of a template-resource page: the normalised name
      of the last heading match, one property per `dt` of the property
      blocks in document order, the source URL, and the return values of
      the last other block. */
  lemma {:induction false} ExtractTemplateResource(page: Page, href: string, parse: Parser)
    requires Extract(TemplateResource, page, href, parse).Ok?
    ensures var heads := Find(page, AnchorId(href));
      var blocks := Find(page, BlockSelector);
      var r := Extract(TemplateResource, page, href, parse).value;
      && r.name == NameOf(heads)
      && Normalised(r.name) && Visible(r.name) == Visible(heads[|heads| - 1].text)
      && |r.properties| == |PropertyTerms(blocks)| > 0
      && (forall k :: 0 <= k < |r.properties| ==> r.properties[k].name == PropertyTerms(blocks)[k])
      && r.json == FirstOrEmpty(AllListings(Find(page, JsonSelector)))
      && r.yaml == FirstOrEmpty(AllListings(Find(page, YamlSelector)))
      && r.doc == Path + href
      && r.description == heads[0].nextText
      && match LastAttributeBlock(blocks)
         case None => r.returnValues == []
         case Some(block) =>
           && |r.returnValues| == |block.dts|
           && forall k :: 0 <= k < |block.dts| ==>
                r.returnValues[k] == Attribute(block.dts[k], if k < |block.dds| then Clean(block.dds[k]) else "")
  {
    var heads := Find(page, AnchorId(href));
    var blocks := Find(page, BlockSelector);
    NameMeaning(heads);
    FillerLaws(TemplateResource, parse);
    PairedNames(Filler(TemplateResource, parse), blocks);
    ReturnValuesFromLastBlock(blocks);
  }

  /** The contents of every property of a record: the entry of the j-th `dt`
      of property block b comes after the entries of the earlier property
      blocks, and is that `dt` filled by `fillProperties` from the j-th `dd`
      of the same block, or left blank when the block has no such `dd`. */
  lemma {:induction false} ExtractPropertyEntry(v: Variant, page: Page, href: string, parse: Parser, b: nat, j: nat)
    requires Extract(v, page, href, parse).Ok?
    requires var blocks := Find(page, BlockSelector);
      b < |blocks| && IsPropertyBlock(blocks[b]) && j < |blocks[b].dts|
    ensures var blocks := Find(page, BlockSelector);
      var ps := Extract(v, page, href, parse).value.properties;
      var at := |PropertyTerms(blocks[..b])| + j;
      && at < |ps|
      && ps[at] == if j < |blocks[b].dds| then FillProperty(v, Blank(blocks[b].dts[j]), blocks[b].dds[j], parse)
                   else Blank(blocks[b].dts[j])
  {
    PairedOwnDd(Filler(v, parse), Find(page, BlockSelector), b, j);
  }

  /** A resource-property record has a name and properties only: the
      cleaned last heading match, one property per `dt` in document order,
      no samples, no URL, no description, no return values, and no property
      with an `Updates` value. */
  lemma {:induction false} ExtractResourceProperty(page: Page, href: string, parse: Parser)
    requires Extract(ResourceProperty, page, href, parse).Ok?
    ensures var heads := Find(page, AnchorId(href));
      var blocks := Find(page, BlockSelector);
      var r := Extract(ResourceProperty, page, href, parse).value;
      && r.name == NameOf(heads)
      && Normalised(r.name) && Visible(r.name) == Visible(heads[|heads| - 1].text)
      && |r.properties| == |PropertyTerms(blocks)| > 0
      && (forall k :: 0 <= k < |r.properties| ==> r.properties[k].name == PropertyTerms(blocks)[k])
      && r.json == r.yaml == r.doc == r.description == ""
      && r.returnValues == []
      && forall k :: 0 <= k < |r.properties| ==> r.properties[k].updates == ""
  {
    var heads := Find(page, AnchorId(href));
    var blocks := Find(page, BlockSelector);
    NameMeaning(heads);
    FillerLaws(ResourceProperty, parse);
    PairedNames(Filler(ResourceProperty, parse), blocks);
    PairedUpdatesBlank(Filler(ResourceProperty, parse), blocks);
  }

  /** A failing property loop fails with a panic. */
  lemma {:induction false} PairedErrorIsPanic(fill: Fill, blocks: seq<Element>)
    requires PairedPropertiesOf(fill, blocks).Err?
    ensures PairedPropertiesOf(fill, blocks).error.IndexOutOfRange?
  {
    if blocks != [] {
      var p := blocks[..|blocks| - 1];
      if PairedPropertiesOf(fill, p).Err? {
        PairedErrorIsPanic(fill, p);
      }
    }
  }

  /** A failing attribute loop fails with a panic. */
  lemma {:induction false} ReturnValuesErrorIsPanic(blocks: seq<Element>)
    requires ReturnValuesOf(blocks).Err?
    ensures ReturnValuesOf(blocks).error.IndexOutOfRange?
  {
    if blocks != [] {
      var p := blocks[..|blocks| - 1];
      if ReturnValuesOf(p).Err? {
        ReturnValuesErrorIsPanic(p);
      }
    }
  }
}
