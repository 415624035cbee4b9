/**
 * The already-parsed page the extractor reads, in place of goquery. Each
 * selector the scrapers use maps to the elements it matches, in document
 * order, and each element carries exactly what the scrapers read from it.
 */
module Dom {

  /**
   * One matched element: its `Text()`, the `Text()` of its next sibling
   * ("" when it has none), the texts of its `.programlisting` descendants,
   * and the texts of its `dt` and `dd` descendants, each in document order.
   */
  datatype Element = Element(
    text: string,
    nextText: string,
    listings: seq<string>,
    dts: seq<string>,
    dds: seq<string>)

  /** A page: selector (such as "#JSON" or ".variablelist") to its matches. */
  datatype Page = Page(select: map<string, seq<Element>>)

  /** `doc.Find(selector)`: a selector nothing matches gives no elements. */
  function Find(page: Page, selector: string): seq<Element> {
    if selector in page.select then page.select[selector] else []
  }
}
