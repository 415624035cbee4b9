/**
 * The `dd` loop of a property block writes `property[i]` with `i` counted
 * from 0 within the block, while `property` holds the entries of every
 * property block seen so far. On a page with two property blocks, the second
 * block's descriptions therefore land on the first block's entries and its
 * own entries stay blank. This module exhibits that, and defines the
 * pairing evidently intended — each `dd` fills the entry of its own
 * block's `dt` at the same position — with its property proved.
 */
module Pairing {
  import opened Wrappers
  import opened Records
  import opened Fields
  import opened Dom
  import opened Blocks

  /** As written: with two property blocks of one `dt` and one `dd` each, the
      first entry gets the second block's description and the second entry
      stays blank. */
  lemma {:induction false} RefillRestartsAtZero(fill: Fill, first: Element, second: Element)
    requires Overwrites(fill)
    requires IsPropertyBlock(first) && IsPropertyBlock(second)
    requires |first.dts| == |first.dds| == |second.dts| == |second.dds| == 1
    ensures PropertiesOf(fill, [first, second])
      == Ok([fill(Blank(first.dts[0]), second.dds[0]), Blank(second.dts[0])])
  {
    var a := fill(Blank(first.dts[0]), first.dds[0]);
    OneBlockAsWritten(fill, first);
    assert [first, second][..1] == [first];
    assert PropertiesOf(fill, [first, second]) == PropertyStep(fill, [a], second);
    var grown := [a] + Blanks(second.dts);
    var after := Refill(fill, grown, second.dds);
    RefillAt(fill, grown, second.dds, 0);
    RefillAt(fill, grown, second.dds, 1);
    assert after == [fill(Blank(first.dts[0]), second.dds[0]), Blank(second.dts[0])];
  }

  /** One `dt` and one `dd`: the blank entry is filled from the `dd`. */
  lemma {:induction false} OneBlockRefill(fill: Fill, x: Element)
    requires |x.dts| == |x.dds| == 1
    ensures Refill(fill, Blanks(x.dts), x.dds) == [fill(Blank(x.dts[0]), x.dds[0])]
  {
    var start := Blanks(x.dts);
    assert start == [Blank(x.dts[0])];
    RefillAt(fill, start, x.dds, 0);
  }

  lemma {:induction false} OneBlockAsWritten(fill: Fill, x: Element)
    requires IsPropertyBlock(x) && |x.dts| == |x.dds| == 1
    ensures PropertiesOf(fill, [x]) == Ok([fill(Blank(x.dts[0]), x.dds[0])])
  {
    assert [x][..0] == [];
    assert PropertiesOf(fill, [x]) == PropertyStep(fill, [], x);
    assert [] + Blanks(x.dts) == Blanks(x.dts);
    OneBlockRefill(fill, x);
  }

  lemma {:induction false} OneBlockOwn(fill: Fill, x: Element)
    requires |x.dts| == |x.dds| == 1
    ensures OwnProperties(fill, x) == Ok([fill(Blank(x.dts[0]), x.dds[0])])
  {
    OneBlockRefill(fill, x);
  }

  /** Corrected pairing for one property block: the k-th `dd` fills the
      block's own k-th entry. */
  function OwnProperties(fill: Fill, block: Element): Result<seq<Property>, ScrapeError> {
    if |block.dts| < |block.dds| then Err(IndexOutOfRange(|block.dts|, |block.dts|))
    else Ok(Refill(fill, Blanks(block.dts), block.dds))
  }

  /** Corrected property loop: every property block contributes its own,
      correctly paired entries. */
  function PairedPropertiesOf(fill: Fill, blocks: seq<Element>): Result<seq<Property>, ScrapeError> {
    if blocks == [] then Ok([])
    else
      match PairedPropertiesOf(fill, blocks[..|blocks| - 1])
      case Err(e) => Err(e)
      case Ok(props) =>
        var block := blocks[|blocks| - 1];
        if !IsPropertyBlock(block) then Ok(props)
        else
          match OwnProperties(fill, block)
          case Err(e) => Err(e)
          case Ok(own) => Ok(props + own)
  }

  /** Corrected: the two blocks of `RefillRestartsAtZero` each get their own
      description. */
  lemma {:induction false} PairedKeepsBlocksApart(fill: Fill, first: Element, second: Element)
    requires IsPropertyBlock(first) && IsPropertyBlock(second)
    requires |first.dts| == |first.dds| == |second.dts| == |second.dds| == 1
    ensures PairedPropertiesOf(fill, [first, second])
      == Ok([fill(Blank(first.dts[0]), first.dds[0]),
             fill(Blank(second.dts[0]), second.dds[0])])
  {
    var a := fill(Blank(first.dts[0]), first.dds[0]);
    var c := fill(Blank(second.dts[0]), second.dds[0]);
    OneBlockOwn(fill, first);
    OneBlockOwn(fill, second);
    PairedAppend(fill, [], first);
    assert [] + [first] == [first];
    assert [] + [a] == [a];
    assert PairedPropertiesOf(fill, [first]) == Ok([a]);
    PairedAppend(fill, [first], second);
    assert [first] + [second] == [first, second];
    assert [a] + [c] == [a, c];
  }

  /** One step of the corrected loop, for a property block. */
  lemma {:induction false} PairedAppend(fill: Fill, blocks: seq<Element>, x: Element)
    requires IsPropertyBlock(x)
    ensures PairedPropertiesOf(fill, blocks + [x])
      == match PairedPropertiesOf(fill, blocks)
         case Err(e) => Err(e)
         case Ok(props) =>
           match OwnProperties(fill, x)
           case Err(e) => Err(e)
           case Ok(own) => Ok(props + own)
  {
  }

  /** The intended pairing, proved: the entry of the j-th `dt` of property
      block b sits after the entries of the earlier property blocks, and is
      filled from the j-th `dd` of the same block (blank when there is none). */
  lemma {:induction false} PairedOwnDd(fill: Fill, blocks: seq<Element>, b: nat, j: nat)
    requires PairedPropertiesOf(fill, blocks).Ok?
    requires b < |blocks| && IsPropertyBlock(blocks[b]) && j < |blocks[b].dts|
    ensures var ps := PairedPropertiesOf(fill, blocks).value;
      var at := |PropertyTerms(blocks[..b])| + j;
      && at < |ps|
      && ps[at] == if j < |blocks[b].dds| then fill(Blank(blocks[b].dts[j]), blocks[b].dds[j])
                   else Blank(blocks[b].dts[j])
  {
    var p, x := blocks[..|blocks| - 1], blocks[|blocks| - 1];
    PairedLast(fill, blocks);
    var ps := PairedPropertiesOf(fill, blocks).value;
    var before := PairedPropertiesOf(fill, p).value;
    if b < |p| {
      assert blocks[b] == p[b] && blocks[..b] == p[..b];
      PairedOwnDd(fill, p, b, j);
      var at := |PropertyTerms(p[..b])| + j;
      assert ps[at] == ps[..|before|][at];
    } else {
      assert blocks[..b] == p && x == blocks[b];
      PairedNames(fill, p);
      var own := OwnProperties(fill, x).value;
      RefillAt(fill, Blanks(x.dts), x.dds, j);
      assert ps[|before| + j] == own[j];
    }
  }

  /** The last block of a successful corrected loop: the earlier blocks
      succeeded, their entries come first, and a property block appends its
      own entries after them. */
  lemma {:induction false} PairedLast(fill: Fill, blocks: seq<Element>)
    requires blocks != [] && PairedPropertiesOf(fill, blocks).Ok?
    ensures PairedPropertiesOf(fill, blocks[..|blocks| - 1]).Ok?
    ensures var ps := PairedPropertiesOf(fill, blocks).value;
      var before := PairedPropertiesOf(fill, blocks[..|blocks| - 1]).value;
      && |before| <= |ps| && ps[..|before|] == before
      && (IsPropertyBlock(blocks[|blocks| - 1]) ==>
            OwnProperties(fill, blocks[|blocks| - 1]).Ok?
            && ps == before + OwnProperties(fill, blocks[|blocks| - 1]).value)
  {
  }

  lemma {:induction false} NoPropertyBlocks(fill: Fill, blocks: seq<Element>)
    requires PropertyBlocks(blocks) == []
    ensures PropertiesOf(fill, blocks) == Ok([])
    ensures PairedPropertiesOf(fill, blocks) == Ok([])
  {
    if blocks != [] {
      NoPropertyBlocks(fill, blocks[..|blocks| - 1]);
    }
  }

  /** On a page with at most one property block the correction changes
      nothing: the two loops agree, errors included. */
  lemma {:induction false} PairingAgreesOnOneBlock(fill: Fill, blocks: seq<Element>)
    requires |PropertyBlocks(blocks)| <= 1
    ensures PairedPropertiesOf(fill, blocks) == PropertiesOf(fill, blocks)
  {
    if blocks != [] {
      var p, x := blocks[..|blocks| - 1], blocks[|blocks| - 1];
      if IsPropertyBlock(x) {
        NoPropertyBlocks(fill, p);
        assert [] + Blanks(x.dts) == Blanks(x.dts);
        if |x.dds| <= |x.dts| {
          assert [] + Refill(fill, Blanks(x.dts), x.dds) == Refill(fill, Blanks(x.dts), x.dds);
        }
      } else {
        PairingAgreesOnOneBlock(fill, p);
      }
    }
  }

  /** The corrected step is the as-written step started from an empty slice:
      the fix is to give each property block a slice of its own. */
  lemma {:induction false} OwnIsFreshStep(fill: Fill, x: Element)
    requires IsPropertyBlock(x)
    ensures OwnProperties(fill, x) == PropertyStep(fill, [], x)
  {
    assert [] + Blanks(x.dts) == Blanks(x.dts);
  }

  /** The corrected property loop: each property block's entries are built
      in a slice of their own and then appended. */
  method CollectPairedProperties(fill: Fill, blocks: seq<Element>)
    returns (result: Result<seq<Property>, ScrapeError>)
    ensures result == PairedPropertiesOf(fill, blocks)
  {
    var property: seq<Property> := [];
    var b := 0;
    while b < |blocks|
      invariant 0 <= b <= |blocks|
      invariant PairedPropertiesOf(fill, blocks[..b]) == Ok(property)
    {
      assert blocks[..b + 1][..b] == blocks[..b];
      if IsPropertyBlock(blocks[b]) {
        var own := AddPropertyBlock(fill, [], blocks[b]);
        OwnIsFreshStep(fill, blocks[b]);
        if own.Err? {
          PairedErrorSticks(fill, blocks, b + 1);
          return own;
        }
        property := property + own.value;
      }
      b := b + 1;
    }
    assert blocks[..|blocks|] == blocks;
    return Ok(property);
  }

  lemma {:induction false} PairedErrorSticks(fill: Fill, blocks: seq<Element>, n: nat)
    requires n <= |blocks|
    requires PairedPropertiesOf(fill, blocks[..n]).Err?
    ensures PairedPropertiesOf(fill, blocks) == PairedPropertiesOf(fill, blocks[..n])
    decreases |blocks| - n
  {
    if n < |blocks| {
      var p := blocks[..|blocks| - 1];
      assert p[..n] == blocks[..n];
      PairedErrorSticks(fill, p, n);
    } else {
      assert blocks[..n] == blocks;
    }
  }

  /** Every property block has no more `dd`s than `dt`s of its own. */
  predicate OwnBlocksFit(blocks: seq<Element>) {
    forall b :: 0 <= b < |blocks| && IsPropertyBlock(blocks[b]) ==> |blocks[b].dds| <= |blocks[b].dts|
  }

  /** The corrected loop fails exactly when some property block has a `dd`
      beyond its own `dt`s. */
  lemma {:induction false} PairedFailIff(fill: Fill, blocks: seq<Element>)
    ensures PairedPropertiesOf(fill, blocks).Err? <==> !OwnBlocksFit(blocks)
  {
    if blocks != [] {
      var p, x := blocks[..|blocks| - 1], blocks[|blocks| - 1];
      PairedFailIff(fill, p);
      assert OwnBlocksFit(blocks) <==> OwnBlocksFit(p) && (IsPropertyBlock(x) ==> |x.dds| <= |x.dts|)
      by {
        forall b | 0 <= b < |p| ensures blocks[b] == p[b] { }
      }
    }
  }

  /** With the correction the property names are still the raw `dt` texts of
      all property blocks, in document order. */
  lemma {:induction false} PairedNames(fill: Fill, blocks: seq<Element>)
    requires PairedPropertiesOf(fill, blocks).Ok?
    ensures |PairedPropertiesOf(fill, blocks).value| == |PropertyTerms(blocks)|
    ensures KeepsName(fill) ==> forall k :: 0 <= k < |PropertyTerms(blocks)| ==>
      PairedPropertiesOf(fill, blocks).value[k].name == PropertyTerms(blocks)[k]
  {
    if blocks != [] {
      var p, x := blocks[..|blocks| - 1], blocks[|blocks| - 1];
      PairedNames(fill, p);
      var before := PairedPropertiesOf(fill, p).value;
      var terms := PropertyTerms(p);
      if IsPropertyBlock(x) {
        var own := OwnProperties(fill, x).value;
        assert PropertyTerms(blocks) == terms + x.dts;
        if KeepsName(fill) {
          forall k | 0 <= k < |own|
            ensures own[k].name == x.dts[k]
          {
            RefillAt(fill, Blanks(x.dts), x.dds, k);
          }
        }
      } else {
        assert PropertyTerms(blocks) == terms + [];
      }
    }
  }

  /** A fill that never touches `Updates` leaves it "" in every entry. */
  lemma {:induction false} PairedUpdatesBlank(fill: Fill, blocks: seq<Element>)
    requires KeepsUpdates(fill) && PairedPropertiesOf(fill, blocks).Ok?
    ensures forall k :: 0 <= k < |PairedPropertiesOf(fill, blocks).value| ==>
      PairedPropertiesOf(fill, blocks).value[k].updates == ""
  {
    if blocks != [] {
      var p, x := blocks[..|blocks| - 1], blocks[|blocks| - 1];
      PairedUpdatesBlank(fill, p);
      if IsPropertyBlock(x) {
        var own := OwnProperties(fill, x).value;
        forall k | 0 <= k < |own|
          ensures own[k].updates == ""
        {
          RefillAt(fill, Blanks(x.dts), x.dds, k);
        }
      }
    }
  }
}
