/**
 * `fillProperties`: turning the parser's buckets for one `dd` text into the
 * fields of a property.
 */
module Fields {
  import opened Text
  import opened Records

  /** `strings.Join(parsed[key], "")`: a label the parser did not report is a
      nil slice in Go and joins to "". */
  function Bucket(parsed: map<string, seq<string>>, key: string): (r: string)
    ensures key !in parsed ==> r == ""
  {
    if key in parsed then Concat(parsed[key]) else ""
  }

  /** One field of a property: the cleaned join of its label's runs. */
  function Field(parsed: map<string, seq<string>>, key: string): string {
    Clean(Bucket(parsed, key))
  }

  /** A field is normalised, carries exactly the non-whitespace bytes of its
      label's runs in order, and is "" when the label was not reported. */
  lemma {:induction false} FieldMeaning(parsed: map<string, seq<string>>, key: string)
    ensures Normalised(Field(parsed, key))
    ensures Visible(Field(parsed, key)) == Visible(Bucket(parsed, key))
    ensures key !in parsed ==> Field(parsed, key) == ""
  {
    CleanNormalises(Bucket(parsed, key));
    CleanEmpty();
  }

  /**
   * `fillProperties`: parse the `dd` text with the variant's labels and
   * overwrite description (from "_rest"), `Required:` and `Type:` — and
   * `Update requires:` when the variant has that field. The name is kept.
   */
  function FillProperty(v: Variant, prop: Property, text: string, parse: Parser): (r: Property)
    ensures r.name == prop.name
    ensures var parsed := parse(text, v.labels);
      && r.description == Field(parsed, RestKey)
      && r.required == Field(parsed, RequiredLabel)
      && r.fieldType == Field(parsed, TypeLabel)
    ensures r.updates == if v.tracksUpdates then Field(parse(text, v.labels), UpdateLabel) else prop.updates
  {
    var parsed := parse(text, v.labels);
    prop.(
      description := Field(parsed, RestKey),
      required := Field(parsed, RequiredLabel),
      fieldType := Field(parsed, TypeLabel),
      updates := if v.tracksUpdates then Field(parsed, UpdateLabel) else prop.updates)
  }

  /** A fresh property entry, as appended for each `dt`. */
  function Blank(name: string): Property {
    Property(name, "", "", "", "")
  }

  /** Filling overwrites: what a property held before does not matter, only its
      name (and, when the variant has no `Updates` field, that field). So a
      second fill replaces the first one entirely. */
  lemma {:induction false} FillOverwrites(v: Variant, p: Property, text1: string, text2: string, parse: Parser)
    ensures FillProperty(v, FillProperty(v, p, text1, parse), text2, parse) == FillProperty(v, p, text2, parse)
    ensures FillProperty(v, p, text2, parse) == FillProperty(v, Blank(p.name).(updates := p.updates), text2, parse)
  {
  }

  // ---------------------------------------------------------------------
  // The property loops only rely on these laws of the fill they are given

  /** A way to fill a property entry from the text of a `dd`. */
  type Fill = (Property, string) -> Property

  /** Filling never renames an entry. */
  ghost predicate KeepsName(fill: Fill) {
    forall p, t :: fill(p, t).name == p.name
  }

  /** A later fill replaces an earlier one entirely. */
  ghost predicate Overwrites(fill: Fill) {
    forall p, a, b :: fill(fill(p, a), b) == fill(p, b)
  }

  /** Filling never touches the `Updates` field. */
  ghost predicate KeepsUpdates(fill: Fill) {
    forall p, t :: fill(p, t).updates == p.updates
  }

  /** `fillProperties` of one page type, with the page's parser. */
  function Filler(v: Variant, parse: Parser): Fill {
    (p, t) => FillProperty(v, p, t, parse)
  }

  /** `fillProperties` keeps names and overwrites; on resource-property
      pages it leaves `Updates` alone. */
  lemma {:induction false} FillerLaws(v: Variant, parse: Parser)
    ensures KeepsName(Filler(v, parse))
    ensures Overwrites(Filler(v, parse))
    ensures !v.tracksUpdates ==> KeepsUpdates(Filler(v, parse))
  {
  }
}
