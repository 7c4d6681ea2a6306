/**
 * The part of an XML document the sitemap builders produce: a root element
 * whose children are entries (`url` or `sitemap`), each entry holding a
 * sequence of leaf elements such as `<loc>...</loc>`.
 */
module Dom {
  import opened Wrappers

  /** The namespace both roots carry in their `xmlns` attribute. */
  const Namespace: string := "http://www.sitemaps.org/schemas/sitemap/0.9"

  /** The attributes `_build_xml` gives a fresh `urlset` or `sitemapindex`. */
  const RootAttributes: map<string, string> := map["xmlns" := Namespace]

  /**
   * The text node under a leaf element. `Decimal(x)` is the text `str(x)`
   * that Python prints for the float `x`.
   */
  datatype Content = Text(text: string) | Decimal(value: real)

  /** A leaf element `<tag>content</tag>`. */
  datatype Field = Field(tag: string, content: Content)

  /**
   * A child of the root. `Foreign` is a node that came from a parsed file
   * and is carried through unchanged.
   */
  datatype Element = Element(tag: string, children: seq<Field>) | Foreign(markup: string)

  /** The content of the first leaf with the given tag, as a reader of the document finds it. */
  function ValueOf(fields: seq<Field>, tag: string): (r: Option<Content>)
    ensures r.Some? <==> exists i :: 0 <= i < |fields| && fields[i].tag == tag
    ensures r.Some? ==> exists i :: 0 <= i < |fields| && fields[i] == Field(tag, r.value)
  {
    if fields == [] then None
    else if fields[0].tag == tag then Some(fields[0].content)
    else ValueOf(fields[1..], tag)
  }

  predicate DistinctTags(fields: seq<Field>) {
    forall i, j :: 0 <= i < j < |fields| ==> fields[i].tag != fields[j].tag
  }

  /** When tags are distinct, a reader finds exactly the leaf that was written. */
  lemma {:induction false} ValueOfDistinct(fields: seq<Field>, k: nat)
    requires DistinctTags(fields)
    requires k < |fields|
    ensures ValueOf(fields, fields[k].tag) == Some(fields[k].content)
  {
    if k > 0 {
      assert fields[0].tag != fields[k].tag;
      assert fields[1..][k - 1] == fields[k];
      ValueOfDistinct(fields[1..], k - 1);
    }
  }
}
