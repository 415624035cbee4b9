/**
 * The records both scrapers produce, the configuration that tells the two
 * page types apart, and the errors an extraction can end in.
 */
module Records {

  /** One documented property of a resource (Go struct `Property`). The
      resource-property page type has no `Updates` field; there it stays "". */
  datatype Property = Property(
    name: string,
    description: string,
    fieldType: string,
    required: string,
    updates: string)

  /** One return value of `Fn::GetAtt` (Go struct `Attribute`). */
  datatype Attribute = Attribute(name: string, desc: string)

  /** The record of one page (Go struct `AwsResource`). `name` is
      `ResourceName` or `ResourcePropertyName`; the resource-property page
      type leaves every field after `properties` empty. */
  datatype Resource = Resource(
    name: string,
    properties: seq<Property>,
    json: string,
    yaml: string,
    doc: string,
    description: string,
    returnValues: seq<Attribute>)

  /**
   * How an extraction fails. `MissingName` and `MissingProperties` are the
   * errors the scrapers return; `IndexOutOfRange` stands for the Go runtime
   * panic raised when a `dd` position has no slot in the slice it writes to
   * (the index equals the slice's length when it happens).
   */
  datatype ScrapeError =
    | MissingName
    | MissingProperties(resource: string)
    | IndexOutOfRange(index: nat, length: nat)

  /** The decimal digits of `n`, as Go's `%d` and the runtime print it. */
  function Decimal(n: nat): (s: string)
    ensures |s| > 0
    ensures forall k :: 0 <= k < |s| ==> '0' <= s[k] <= '9'
    ensures n < 10 <==> |s| == 1
  {
    if n < 10 then ["0123456789"[n]] else Decimal(n / 10) + ["0123456789"[n % 10]]
  }

  const NameMessage := "Could not locate resource name"
  const PropertiesPrefix := "Could not locate properties of resource: "
  const PanicPrefix := "runtime error: index out of range ["

  /** The text each error carries: the two `errors.New` texts, and the Go
      runtime's text for a failed index expression. */
  function Message(e: ScrapeError): (m: string)
    ensures e.MissingName? <==> m == NameMessage
    ensures e.MissingProperties? ==> |PropertiesPrefix| <= |m| && m[..|PropertiesPrefix|] == PropertiesPrefix && m[|PropertiesPrefix|..] == e.resource
    ensures e.IndexOutOfRange? ==> |PanicPrefix| <= |m| && m[..|PanicPrefix|] == PanicPrefix
  {
    match e
    case MissingName => NameMessage
    case MissingProperties(resource) => PropertiesPrefix + resource
    case IndexOutOfRange(index, length) => PanicPrefix + Decimal(index) + "] with length " + Decimal(length)
  }

  /** A message tells which error it came from, and the missing-properties
      message gives back the resource's name. */
  lemma {:induction false} MessageIdentifies(e1: ScrapeError, e2: ScrapeError)
    requires Message(e1) == Message(e2)
    ensures e1.MissingName? <==> e2.MissingName?
    ensures e1.MissingProperties? <==> e2.MissingProperties?
    ensures e1.IndexOutOfRange? <==> e2.IndexOutOfRange?
    ensures e1.MissingProperties? ==> e1 == e2
  {
    var m := Message(e1);
    if e1.IndexOutOfRange? {
      assert m[0] == 'r';
    } else {
      assert m[0] == 'C';
    }
    if e1.MissingProperties? || e2.MissingProperties? {
      assert |m| > 17 && m[17] == 'p';
    }
  }

  /** `paraparser.Parse(text, labels)`: the text runs found under each label,
      plus the runs before the first label under "_rest". Its behaviour is
      not part of this model, so it is a parameter. */
  type Parser = (string, seq<string>) -> map<string, seq<string>>

  /**
   * What sets the two page types apart: the label set handed to the parser,
   * whether `fillProperties` fills `Updates`, whether the page's
   * description, source URL and JSON/YAML samples are kept, and whether
   * return values are extracted.
   */
  datatype Variant = Variant(
    labels: seq<string>,
    tracksUpdates: bool,
    withSamples: bool,
    withAttributes: bool)

  const RequiredLabel := "Required:"
  const TypeLabel := "Type:"
  const UpdateLabel := "Update requires:"
  /** The key under which the parser reports text before the first label. */
  const RestKey := "_rest"

  /** Template-resource reference pages (cfnTemplateResourceScraper.go). */
  const TemplateResource := Variant([RequiredLabel, TypeLabel, UpdateLabel], true, true, true)

  /** Resource-property reference pages (cfnResourcePropertyScraper.go). */
  const ResourceProperty := Variant([RequiredLabel, TypeLabel], false, false, false)
}
