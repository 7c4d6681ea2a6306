/**
 * `SiteMapRoot` from sitemap.py: a `sitemapindex` document that grows one
 * `sitemap` element per `append`, each `append` also writing the referenced
 * sitemap as a gzip file.
 */
module SitemapIndex {
  import opened Wrappers
  import opened Dom
  import opened TimeFormat
  import opened Files

  /** The exception `append` raises: the gzip file could not be written. */
  datatype Error = WriteFailed

  /** The `loc` of an index entry: the domain, a slash and the file name, with no normalisation. */
  function RefLocation(domain: string, filename: string): string {
    domain + "/" + filename
  }

  /** A complete `sitemap` element: its `loc`, then its `lastmod` stamped at `now`. */
  function SitemapRef(domain: string, filename: string, now: DateTime): Element {
    Element("sitemap", [Field("loc", Text(RefLocation(domain, filename))), Field("lastmod", Text(FormatTimestamp(now)))])
  }

  /** A `sitemap` element `append` leaves: complete, or empty when the file write failed. */
  predicate IsSitemapRef(e: Element) {
    e.Element? && e.tag == "sitemap" &&
    (e.children == [] || (|e.children| == 2 && e.children[0].tag == "loc" && e.children[1].tag == "lastmod"))
  }

  /** `s` without the leading `prefix`, or `None` when `s` does not start with it. */
  function StripPrefix(prefix: string, s: string): (r: Option<string>)
    ensures r.Some? <==> prefix <= s
    ensures r.Some? ==> prefix + r.value == s
  {
    if prefix <= s then Some(s[|prefix|..]) else None
  }

  /**
   * Reading a complete entry back recovers what `append` was given: the file
   * name from its `loc` (after the domain and the slash) and the moment from
   * its `lastmod`.
   */
  lemma SitemapRefReadBack(domain: string, filename: string, now: DateTime)
    ensures var children := SitemapRef(domain, filename, now).children;
            ValueOf(children, "loc") == Some(Text(RefLocation(domain, filename))) &&
            StripPrefix(domain + "/", ValueOf(children, "loc").value.text) == Some(filename) &&
            ValueOf(children, "lastmod").Some? &&
            ParseTimestamp(ValueOf(children, "lastmod").value.text) == Some(now)
  {
    var loc := RefLocation(domain, filename);
    assert (domain + "/" + filename)[|domain + "/"|..] == filename;
    TimestampRoundTrip(now);
  }

  /** The index's children, the file system and what `append` raised, after one call. */
  datatype IndexStep = IndexStep(entries: seq<Element>, files: map<string, seq<byte>>, outcome: Outcome<Error>)

  /**
   * The effect of `append(filename, data)` at time `now`. The `sitemap`
   * element is attached before the file is written, so a failed write leaves
   * an empty `sitemap` behind.
   */
  function AppendSitemap(entries: seq<Element>, files: map<string, seq<byte>>, unwritable: set<string>,
                         domain: string, filename: string, data: seq<byte>, now: DateTime): (r: IndexStep)
    ensures |r.entries| == |entries| + 1 && r.entries[..|entries|] == entries
    ensures IsSitemapRef(r.entries[|entries|])
    ensures r.outcome.Pass? <==> filename !in unwritable
    ensures r.outcome.Pass? ==> r.entries[|entries|] == SitemapRef(domain, filename, now)
    ensures r.outcome.Fail? ==> r.entries[|entries|].children == []
    ensures r.outcome.Pass? ==> filename in r.files && r.files[filename] == data
    ensures r.outcome.Fail? ==> r.files == files
    ensures forall f :: f != filename ==> (f in r.files <==> f in files)
    ensures forall f :: f != filename && f in files ==> r.files[f] == files[f]
  {
    var entries' := entries + [Element("sitemap", [])];
    if filename in unwritable then IndexStep(entries', files, Fail(WriteFailed))
    else IndexStep(entries + [SitemapRef(domain, filename, now)], files[filename := data], Pass)
  }

  /** The `sitemapindex` element: its attributes and its children. */
  class SiteMapRoot {
    const domain: string
    const filePath: string
    const exist: bool
    const attributes: map<string, string>
    /** The children present when the index was created: none, or those of the loaded file. */
    ghost const preloaded: seq<Element>
    var entries: seq<Element>

    /** The preloaded children are still there, first; everything after them is a `sitemap` from `append`. */
    ghost predicate Valid()
      reads this
    {
      |preloaded| <= |entries| && entries[..|preloaded|] == preloaded &&
      forall i :: |preloaded| <= i < |entries| ==> IsSitemapRef(entries[i])
    }

    /** `SiteMapRoot(domain, file_path, False)`: `_build_xml` creates an empty `sitemapindex` with the 0.9 namespace. */
    constructor Fresh(domain: string, filePath: string)
      ensures Valid()
      ensures this.domain == domain && this.filePath == filePath && !exist
      ensures attributes == RootAttributes && entries == [] && preloaded == []
    {
      this.domain := domain;
      this.filePath := filePath;
      exist := false;
      attributes := RootAttributes;
      preloaded := [];
      entries := [];
    }

    /**
     * `SiteMapRoot(domain, file_path, True)`: continues the `sitemapindex`
     * element parsed from `file_path`, with its attributes and children as found.
     */
    constructor Load(domain: string, filePath: string, loadedAttributes: map<string, string>, loaded: seq<Element>)
      ensures Valid()
      ensures this.domain == domain && this.filePath == filePath && exist
      ensures attributes == loadedAttributes && entries == loaded && preloaded == loaded
    {
      this.domain := domain;
      this.filePath := filePath;
      exist := true;
      attributes := loadedAttributes;
      preloaded := loaded;
      entries := loaded;
    }

    /** Adding one `sitemap` element at the end keeps the invariant. */
    lemma ValidExtend(before: seq<Element>, e: Element)
      requires |preloaded| <= |before| && before[..|preloaded|] == preloaded
      requires forall i :: |preloaded| <= i < |before| ==> IsSitemapRef(before[i])
      requires IsSitemapRef(e)
      ensures var after := before + [e];
              |preloaded| <= |after| && after[..|preloaded|] == preloaded &&
              forall i :: |preloaded| <= i < |after| ==> IsSitemapRef(after[i])
    {
      assert (before + [e])[..|preloaded|] == before[..|preloaded|];
    }

    /** `appendChild` on the `sitemap` element at position `i` of the index. */
    method AddChild(i: nat, f: Field)
      requires i < |entries| && entries[i].Element?
      modifies this
      ensures entries == old(entries)[i := Element(old(entries)[i].tag, old(entries)[i].children + [f])]
    {
      entries := entries[i := Element(entries[i].tag, entries[i].children + [f])];
    }

    /**
     * `append(filename, data)` at time `now`: attaches a `sitemap` element,
     * writes `data` gzip-compressed to `filename`, then adds `loc` and `lastmod`.
     */
    method Append(filename: string, data: seq<byte>, now: DateTime, fs: FileSystem) returns (outcome: Outcome<Error>)
      requires Valid()
      modifies this, fs
      ensures Valid()
      ensures IndexStep(entries, fs.files, outcome)
              == AppendSitemap(old(entries), old(fs.files), fs.unwritable, domain, filename, data, now)
    {
      var i := |entries|;
      entries := entries + [Element("sitemap", [])];
      ValidExtend(old(entries), Element("sitemap", []));
      var ok := fs.WriteGzip(filename, data);
      if !ok {
        return Fail(WriteFailed);
      }
      var loc := Field("loc", Text(domain + "/" + filename));
      var lastMod := Field("lastmod", Text(FormatTimestamp(now)));
      AddChild(i, loc);
      assert [] + [loc] == [loc];
      assert entries == old(entries) + [Element("sitemap", [loc])];
      AddChild(i, lastMod);
      assert [loc] + [lastMod] == [loc, lastMod];
      assert entries == old(entries) + [SitemapRef(domain, filename, now)];
      ValidExtend(old(entries), SitemapRef(domain, filename, now));
      return Pass;
    }
  }
}
