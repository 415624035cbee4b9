/**
 * The `.variablelist` loops of `scrapeResourceTemplate`: classifying each
 * block by whether its text contains "Required:", accumulating property
 * entries across property blocks, refilling them from `dd` texts, and
 * building the return values of the other blocks.
 *
 * The property loop is given its fill (`fillProperties` of the page type,
 * see `Fields.Filler`) as a parameter; the lemmas that depend on what the
 * fill does ask for its laws (`KeepsName`, `Overwrites`) in their
 * preconditions.
 */
module Blocks {
  import opened Wrappers
  import opened Text
  import opened Records
  import opened Fields
  import opened Dom

  /** The block classifier: a property block iff its text contains "Required:". */
  predicate IsPropertyBlock(block: Element) {
    Contains(block.text, RequiredLabel)
  }

  /** One fresh entry per `dt`, named by the raw (uncleaned) `dt` text. */
  function Blanks(dts: seq<string>): (r: seq<Property>)
    ensures |r| == |dts|
    ensures forall k :: 0 <= k < |r| ==> r[k] == Blank(dts[k])
  {
    seq(|dts|, k requires 0 <= k < |dts| => Blank(dts[k]))
  }

  /** `props` after the `dd` loop: `property[i] = fill(property[i], dd)`
      for each `dd` in turn. */
  function Refill(fill: Fill, props: seq<Property>, dds: seq<string>): (r: seq<Property>)
    requires |dds| <= |props|
    ensures |r| == |props|
  {
    if dds == [] then props
    else
      var i := |dds| - 1;
      Refill(fill, props, dds[..i])[i := fill(props[i], dds[i])]
  }

  /** The shared `property` slice after one block: a property block appends
      its `dt`s and then refills from index 0; a `dd` beyond the slice panics. */
  function PropertyStep(fill: Fill, props: seq<Property>, block: Element)
    : Result<seq<Property>, ScrapeError>
  {
    if !IsPropertyBlock(block) then Ok(props)
    else
      var grown := props + Blanks(block.dts);
      if |grown| < |block.dds| then Err(IndexOutOfRange(|grown|, |grown|))
      else Ok(Refill(fill, grown, block.dds))
  }

  /** The property loop over all blocks, in document order. */
  function PropertiesOf(fill: Fill, blocks: seq<Element>): Result<seq<Property>, ScrapeError>
  {
    if blocks == [] then Ok([])
    else
      match PropertiesOf(fill, blocks[..|blocks| - 1])
      case Err(e) => Err(e)
      case Ok(props) => PropertyStep(fill, props, blocks[|blocks| - 1])
  }

  /** The return values one non-property block yields: raw `dt` names,
      cleaned `dd` descriptions by position; a `dd` beyond the `dt`s panics. */
  function AttributeStep(block: Element): Result<seq<Attribute>, ScrapeError> {
    if |block.dts| < |block.dds| then Err(IndexOutOfRange(|block.dts|, |block.dts|))
    else Ok(seq(|block.dts|, k requires 0 <= k < |block.dts| =>
      Attribute(block.dts[k], if k < |block.dds| then Clean(block.dds[k]) else "")))
  }

  /** The attribute loop: each non-property block replaces the return values. */
  function ReturnValuesOf(blocks: seq<Element>): Result<seq<Attribute>, ScrapeError> {
    if blocks == [] then Ok([])
    else
      match ReturnValuesOf(blocks[..|blocks| - 1])
      case Err(e) => Err(e)
      case Ok(attrs) =>
        var block := blocks[|blocks| - 1];
        if IsPropertyBlock(block) then Ok(attrs) else AttributeStep(block)
  }

  // ---------------------------------------------------------------------
  // The loops

  /** The body of the "Get properties" loop for one property block: append
      an entry per `dt` to the shared slice, then let the k-th `dd`
      overwrite entry k. */
  method AddPropertyBlock(fill: Fill, property: seq<Property>, block: Element)
    returns (result: Result<seq<Property>, ScrapeError>)
    requires IsPropertyBlock(block)
    ensures result == PropertyStep(fill, property, block)
  {
    var props := property;
    var i := 0;
    while i < |block.dts|
      invariant 0 <= i <= |block.dts|
      invariant |props| == |property| + i
      invariant props[..|property|] == property
      invariant forall k :: 0 <= k < i ==> props[|property| + k] == Blank(block.dts[k])
    {
      props := props + [Blank(block.dts[i])];
      i := i + 1;
    }
    ghost var grown := property + Blanks(block.dts);
    assert props == grown;
    i := 0;
    while i < |block.dds|
      invariant 0 <= i <= |block.dds|
      invariant i <= |grown|
      invariant props == Refill(fill, grown, block.dds[..i])
    {
      if i >= |props| {
        return Err(IndexOutOfRange(i, |props|));
      }
      assert block.dds[..i + 1][..i] == block.dds[..i];
      RefillAt(fill, grown, block.dds[..i], i);
      props := props[i := fill(props[i], block.dds[i])];
      i := i + 1;
    }
    assert block.dds[..i] == block.dds;
    return Ok(props);
  }

  /** The "Get properties" loop over all `.variablelist` blocks. */
  method CollectProperties(fill: Fill, blocks: seq<Element>)
    returns (result: Result<seq<Property>, ScrapeError>)
    ensures result == PropertiesOf(fill, blocks)
  {
    var property: seq<Property> := [];
    var b := 0;
    while b < |blocks|
      invariant 0 <= b <= |blocks|
      invariant PropertiesOf(fill, blocks[..b]) == Ok(property)
    {
      assert blocks[..b + 1][..b] == blocks[..b];
      if IsPropertyBlock(blocks[b]) {
        var step := AddPropertyBlock(fill, property, blocks[b]);
        if step.Err? {
          PropertiesErrorSticks(fill, blocks, b + 1);
          return step;
        }
        property := step.value;
      }
      b := b + 1;
    }
    assert blocks[..|blocks|] == blocks;
    return Ok(property);
  }

  /** The body of the "Get attributes" loop for one non-property block: a
      fresh slice with an entry per `dt`, the k-th `dd`, cleaned, as the
      description of entry k. */
  method BlockAttributes(block: Element) returns (result: Result<seq<Attribute>, ScrapeError>)
    ensures result == AttributeStep(block)
  {
    var attributes: seq<Attribute> := [];
    var i := 0;
    while i < |block.dts|
      invariant 0 <= i <= |block.dts|
      invariant |attributes| == i
      invariant forall k :: 0 <= k < i ==> attributes[k] == Attribute(block.dts[k], "")
    {
      attributes := attributes + [Attribute(block.dts[i], "")];
      i := i + 1;
    }
    i := 0;
    while i < |block.dds|
      invariant 0 <= i <= |block.dds|
      invariant i <= |attributes| == |block.dts|
      invariant forall k :: 0 <= k < |attributes| ==>
        attributes[k] == Attribute(block.dts[k], if k < i then Clean(block.dds[k]) else "")
    {
      if i >= |attributes| {
        return Err(IndexOutOfRange(i, |attributes|));
      }
      var desc := CleanString(block.dds[i]);
      attributes := attributes[i := attributes[i].(desc := desc)];
      i := i + 1;
    }
    var expected := AttributeStep(block).value;
    assert attributes == expected by {
      forall k | 0 <= k < |attributes| ensures attributes[k] == expected[k] { }
    }
    return Ok(attributes);
  }

  /** The "Get attributes" loop: each non-property block replaces the
      return values with its own. */
  method CollectReturnValues(blocks: seq<Element>) returns (result: Result<seq<Attribute>, ScrapeError>)
    ensures result == ReturnValuesOf(blocks)
  {
    var returnValues: seq<Attribute> := [];
    var b := 0;
    while b < |blocks|
      invariant 0 <= b <= |blocks|
      invariant ReturnValuesOf(blocks[..b]) == Ok(returnValues)
    {
      assert blocks[..b + 1][..b] == blocks[..b];
      if !IsPropertyBlock(blocks[b]) {
        var attributes := BlockAttributes(blocks[b]);
        if attributes.Err? {
          ReturnValuesErrorSticks(blocks, b + 1);
          return attributes;
        }
        returnValues := attributes.value;
      }
      b := b + 1;
    }
    assert blocks[..|blocks|] == blocks;
    return Ok(returnValues);
  }

  /** After the `dd` loop, position k holds the fill from the k-th `dd`, and
      positions past the last `dd` are untouched. */
  lemma {:induction false} RefillAt(fill: Fill, props: seq<Property>, dds: seq<string>, k: nat)
    requires |dds| <= |props| && k < |props|
    ensures Refill(fill, props, dds)[k] == if k < |dds| then fill(props[k], dds[k]) else props[k]
  {
    if dds != [] && k != |dds| - 1 {
      RefillAt(fill, props, dds[..|dds| - 1], k);
      if k < |dds| - 1 {
        assert dds[..|dds| - 1][k] == dds[k];
      }
    }
  }

  /** A panic ends the property loop: later blocks do not change the outcome. */
  lemma {:induction false} PropertiesErrorSticks(fill: Fill, blocks: seq<Element>, n: nat)
    requires n <= |blocks|
    requires PropertiesOf(fill, blocks[..n]).Err?
    ensures PropertiesOf(fill, blocks) == PropertiesOf(fill, blocks[..n])
    decreases |blocks| - n
  {
    if n < |blocks| {
      var p := blocks[..|blocks| - 1];
      assert p[..n] == blocks[..n];
      PropertiesErrorSticks(fill, p, n);
    } else {
      assert blocks[..n] == blocks;
    }
  }

  lemma {:induction false} ReturnValuesErrorSticks(blocks: seq<Element>, n: nat)
    requires n <= |blocks|
    requires ReturnValuesOf(blocks[..n]).Err?
    ensures ReturnValuesOf(blocks) == ReturnValuesOf(blocks[..n])
    decreases |blocks| - n
  {
    if n < |blocks| {
      var p := blocks[..|blocks| - 1];
      assert p[..n] == blocks[..n];
      ReturnValuesErrorSticks(p, n);
    } else {
      assert blocks[..n] == blocks;
    }
  }

  // ---------------------------------------------------------------------
  // What the property loop computes

  /** The raw `dt` texts of all property blocks, in document order. */
  function PropertyTerms(blocks: seq<Element>): seq<string> {
    if blocks == [] then []
    else
      var block := blocks[|blocks| - 1];
      PropertyTerms(blocks[..|blocks| - 1]) + (if IsPropertyBlock(block) then block.dts else [])
  }

  /** The property blocks among `blocks`, in order. */
  function PropertyBlocks(blocks: seq<Element>): seq<Element> {
    if blocks == [] then []
    else
      var block := blocks[|blocks| - 1];
      PropertyBlocks(blocks[..|blocks| - 1]) + (if IsPropertyBlock(block) then [block] else [])
  }

  /** The other blocks among `blocks`, in order. */
  function AttributeBlocks(blocks: seq<Element>): seq<Element> {
    if blocks == [] then []
    else
      var block := blocks[|blocks| - 1];
      AttributeBlocks(blocks[..|blocks| - 1]) + (if IsPropertyBlock(block) then [] else [block])
  }

  /** Every `dd` of every property block has a slot: a block may not have more
      `dd`s than the entries accumulated up to and including it. */
  predicate PropertyBlocksFit(blocks: seq<Element>) {
    forall b :: 0 <= b < |blocks| && IsPropertyBlock(blocks[b]) ==>
      |blocks[b].dds| <= |PropertyTerms(blocks[..b + 1])|
  }

  /** The `dd` text that wrote entry k last: that of the last property block
      with more than k `dd`s, if any. */
  function LastDd(blocks: seq<Element>, k: nat): Option<string> {
    if blocks == [] then None
    else
      var block := blocks[|blocks| - 1];
      if IsPropertyBlock(block) && k < |block.dds| then Some(block.dds[k])
      else LastDd(blocks[..|blocks| - 1], k)
  }

  /** Property names are the raw `dt` texts of all property blocks, in
      document order, accumulated into one slice. */
  lemma {:induction false} PropertyNames(fill: Fill, blocks: seq<Element>)
    requires PropertiesOf(fill, blocks).Ok?
    ensures |PropertiesOf(fill, blocks).value| == |PropertyTerms(blocks)|
    ensures KeepsName(fill) ==> forall k :: 0 <= k < |PropertyTerms(blocks)| ==>
      PropertiesOf(fill, blocks).value[k].name == PropertyTerms(blocks)[k]
  {
    if blocks != [] {
      var p, x := blocks[..|blocks| - 1], blocks[|blocks| - 1];
      PropertyNames(fill, p);
      var before := PropertiesOf(fill, p).value;
      var terms := PropertyTerms(p);
      if IsPropertyBlock(x) {
        var grown := before + Blanks(x.dts);
        if |x.dds| <= |grown| {
          var after := Refill(fill, grown, x.dds);
          assert PropertyTerms(blocks) == terms + x.dts;
          if KeepsName(fill) {
            forall k | 0 <= k < |after|
              ensures after[k].name == (terms + x.dts)[k]
            {
              RefillAt(fill, grown, x.dds, k);
              if k < |before| {
                assert grown[k] == before[k];
              } else {
                assert grown[k] == Blank(x.dts[k - |before|]);
              }
            }
          }
        }
      } else {
        assert PropertyTerms(blocks) == terms + [];
      }
    }
  }

  /** Last writer wins: entry k is a blank entry filled from the last `dd`
      at position k of any property block (or left blank when there is none),
      and no `dd` position at or past the slice's length was ever written. */
  lemma {:induction false} PropertyFields(fill: Fill, blocks: seq<Element>, k: nat)
    requires KeepsName(fill) && Overwrites(fill)
    requires PropertiesOf(fill, blocks).Ok?
    ensures var ps := PropertiesOf(fill, blocks).value;
      k < |ps| ==> ps[k] == match LastDd(blocks, k)
        case None => Blank(ps[k].name)
        case Some(dd) => fill(Blank(ps[k].name), dd)
    ensures k >= |PropertiesOf(fill, blocks).value| ==> LastDd(blocks, k) == None
  {
    if blocks != [] {
      var p, x := blocks[..|blocks| - 1], blocks[|blocks| - 1];
      PropertyFields(fill, p, k);
      var before := PropertiesOf(fill, p).value;
      if IsPropertyBlock(x) {
        var grown := before + Blanks(x.dts);
        if k < |grown| {
          RefillAt(fill, grown, x.dds, k);
          if k < |x.dds| {
          }
        }
      }
    }
  }

  /** The property loop panics exactly when some property block has a `dd`
      without a slot. */
  lemma {:induction false} PropertiesFailIff(fill: Fill, blocks: seq<Element>)
    ensures PropertiesOf(fill, blocks).Err? <==> !PropertyBlocksFit(blocks)
  {
    if blocks != [] {
      var p, x := blocks[..|blocks| - 1], blocks[|blocks| - 1];
      PropertiesFailIff(fill, p);
      assert blocks[..|blocks|] == blocks;
      assert PropertyBlocksFit(blocks) <==>
        PropertyBlocksFit(p) && (IsPropertyBlock(x) ==> |x.dds| <= |PropertyTerms(blocks)|)
      by {
        forall b | 0 <= b < |p| ensures blocks[b] == p[b] && blocks[..b + 1] == p[..b + 1] { }
      }
      if PropertiesOf(fill, p).Ok? {
        PropertyNames(fill, p);
      }
    }
  }

  /** Only blocks whose text contains "Required:" take part in the property
      loop; the other blocks change nothing. */
  lemma {:induction false} PropertiesIgnoreOtherBlocks(fill: Fill, blocks: seq<Element>)
    ensures PropertiesOf(fill, blocks) == PropertiesOf(fill, PropertyBlocks(blocks))
  {
    if blocks != [] {
      var p, x := blocks[..|blocks| - 1], blocks[|blocks| - 1];
      PropertiesIgnoreOtherBlocks(fill, p);
      if IsPropertyBlock(x) {
        var q := PropertyBlocks(p) + [x];
        assert q[..|q| - 1] == PropertyBlocks(p);
      } else {
        assert PropertyBlocks(blocks) == PropertyBlocks(p) + [];
        assert PropertyBlocks(p) + [] == PropertyBlocks(p);
      }
    }
  }

  // ---------------------------------------------------------------------
  // What the attribute loop computes

  /** Every non-property block has no more `dd`s than `dt`s. */
  predicate AttributeBlocksFit(blocks: seq<Element>) {
    forall b :: 0 <= b < |blocks| && !IsPropertyBlock(blocks[b]) ==> |blocks[b].dds| <= |blocks[b].dts|
  }

  /** The last block that is not a property block, if any. */
  function LastAttributeBlock(blocks: seq<Element>): Option<Element> {
    if blocks == [] then None
    else
      var block := blocks[|blocks| - 1];
      if IsPropertyBlock(block) then LastAttributeBlock(blocks[..|blocks| - 1]) else Some(block)
  }

  /** The return values come from the last non-property block alone: its raw
      `dt` texts as names, its cleaned `dd` texts as descriptions by position
      ("" past the last `dd`); no such block gives none. */
  lemma {:induction false} ReturnValuesFromLastBlock(blocks: seq<Element>)
    requires ReturnValuesOf(blocks).Ok?
    ensures var attrs := ReturnValuesOf(blocks).value;
      match LastAttributeBlock(blocks)
      case None => attrs == []
      case Some(block) =>
        && |attrs| == |block.dts|
        && forall k :: 0 <= k < |attrs| ==>
             attrs[k] == Attribute(block.dts[k], if k < |block.dds| then Clean(block.dds[k]) else "")
  {
    if blocks != [] {
      var p, x := blocks[..|blocks| - 1], blocks[|blocks| - 1];
      if IsPropertyBlock(x) {
        ReturnValuesFromLastBlock(p);
      } else {
        assert LastAttributeBlock(blocks) == Some(x);
        assert ReturnValuesOf(blocks) == AttributeStep(x);
      }
    }
  }

  /** The attribute loop panics exactly when a non-property block has more
      `dd`s than `dt`s. */
  lemma {:induction false} ReturnValuesFailIff(blocks: seq<Element>)
    ensures ReturnValuesOf(blocks).Err? <==> !AttributeBlocksFit(blocks)
  {
    if blocks != [] {
      var p := blocks[..|blocks| - 1];
      ReturnValuesFailIff(p);
      assert AttributeBlocksFit(blocks) <==>
        AttributeBlocksFit(p) && (!IsPropertyBlock(blocks[|p|]) ==> |blocks[|p|].dds| <= |blocks[|p|].dts|)
      by {
        forall b | 0 <= b < |p| ensures blocks[b] == p[b] { }
      }
    }
  }

  /** Blocks whose text contains "Required:" never feed the return values. */
  lemma {:induction false} ReturnValuesIgnorePropertyBlocks(blocks: seq<Element>)
    ensures ReturnValuesOf(blocks) == ReturnValuesOf(AttributeBlocks(blocks))
  {
    if blocks != [] {
      var p, x := blocks[..|blocks| - 1], blocks[|blocks| - 1];
      ReturnValuesIgnorePropertyBlocks(p);
      if IsPropertyBlock(x) {
        assert AttributeBlocks(blocks) == AttributeBlocks(p) + [];
        assert AttributeBlocks(p) + [] == AttributeBlocks(p);
      } else {
        var q := AttributeBlocks(p) + [x];
        assert q[..|q| - 1] == AttributeBlocks(p);
      }
    }
  }
}
