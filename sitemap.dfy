/**
 * `SiteMap` from sitemap.py: an in-memory `urlset` document that grows one
 * `url` element per `append`, following the sitemaps.org protocol 0.9.
 */
module Sitemap {
  import opened Wrappers
  import opened Dom
  import opened TimeFormat

  /** The protocol's limit on the length of a `loc`. */
  const MaxLocLength := 2048

  /** The tokens `append` accepts for `change_freq`. */
  const ChangeFreqs: seq<string> := ["always", "hourly", "daily", "weekly", "monthly", "yearly", "never"]

  /** The exceptions `append` raises. */
  datatype Error =
    | LocTooLong          // the assertion on `len(loc)`
    | BadChangeFreq       // the assertion on the changefreq token
    | PriorityOutOfRange  // the assertion `0.0 <= priority <= 1.0`
    | PriorityNotNumeric  // `float()` failed, so comparing the raw value with 0.0 raises TypeError

  /** A Python float: a real number, or one of nan, inf, -inf (all of which fail the range check). */
  datatype PyFloat = Finite(value: real) | NonFinite

  /** The `last_mod` argument: `None`, a `datetime`, or a string inserted verbatim. */
  datatype LastModArg = NoLastMod | LastModDate(when: DateTime) | LastModText(text: string)

  /**
   * The `priority` argument: `None`, a number, or a string together with what
   * `float()` makes of it (`None` when `float()` raises ValueError).
   */
  datatype PriorityArg = NoPriority | PriorityNumber(number: PyFloat) | PriorityText(text: string, asFloat: Option<PyFloat>)

  // Python truthiness of each optional argument: a falsy argument produces no element.

  predicate LastModGiven(a: LastModArg) {
    match a
    case NoLastMod => false
    case LastModDate(_) => true
    case LastModText(t) => t != ""
  }

  predicate ChangeFreqGiven(c: Option<string>) {
    c.Some? && c.value != ""
  }

  predicate PriorityGiven(p: PriorityArg) {
    match p
    case NoPriority => false
    case PriorityNumber(Finite(x)) => x != 0.0
    case PriorityNumber(NonFinite) => true
    case PriorityText(t, _) => t != ""
  }

  /** The `lastmod` leaf's content, if one is written: a `datetime` as `YYYY-MM-DD`, a string as is. */
  function LastModValue(a: LastModArg): Option<Content> {
    match a
    case NoLastMod => None
    case LastModDate(t) => Some(Text(FormatDate(t)))
    case LastModText(t) => if t != "" then Some(Text(t)) else None
  }

  /**
   * A `datetime` is written as `YYYY-MM-DD` (it reads back as its date), a
   * non-empty string verbatim, and a falsy argument not at all.
   */
  lemma LastModRendering(a: LastModArg)
    ensures LastModValue(a).Some? <==> LastModGiven(a)
    ensures a.LastModDate? ==>
              LastModValue(a).value.Text? &&
              ParseDate(LastModValue(a).value.text) == Some(Date(a.when.year, a.when.month, a.when.day))
    ensures a.LastModText? && a.text != "" ==> LastModValue(a) == Some(Text(a.text))
  {
    if a.LastModDate? {
      DateRoundTrip(a.when);
    }
  }

  function ChangeFreqValue(c: Option<string>): Option<Content> {
    if ChangeFreqGiven(c) then Some(Text(c.value)) else None
  }

  /** `float(priority)`, or `None` when it raises ValueError. */
  function AsFloat(p: PriorityArg): Option<PyFloat>
    requires PriorityGiven(p)
  {
    match p
    case PriorityNumber(x) => Some(x)
    case PriorityText(_, f) => f
  }

  predicate InUnitRange(x: PyFloat) {
    x.Finite? && 0.0 <= x.value <= 1.0
  }

  /** The priority check: the `priority` leaf's content if one is written, or the error raised. */
  function CheckPriority(p: PriorityArg): (r: Result<Option<Content>, Error>)
    ensures r.Success? && r.value.None? <==> !PriorityGiven(p)
    ensures r.Success? && r.value.Some? ==> r.value.value.Decimal? && 0.0 <= r.value.value.value <= 1.0
    ensures r.Success? && r.value.Some? ==>
              PriorityGiven(p) && AsFloat(p).Some? && AsFloat(p).value.Finite? &&
              r.value.value == Decimal(AsFloat(p).value.value)
    ensures PriorityGiven(p) && AsFloat(p).Some? ==> (r.Success? <==> InUnitRange(AsFloat(p).value))
    ensures r.Failure? ==> PriorityGiven(p) && (r.error == PriorityNotNumeric <==> AsFloat(p).None?)
  {
    if !PriorityGiven(p) then Success(None)
    else match AsFloat(p)
      case None => Failure(PriorityNotNumeric)
      case Some(x) => if InUnitRange(x) then Success(Some(Decimal(x.value))) else Failure(PriorityOutOfRange)
  }

  /** Every check `append` makes passes. */
  predicate UrlArgsValid(loc: string, changeFreq: Option<string>, priority: PriorityArg) {
    |loc| <= MaxLocLength &&
    (ChangeFreqGiven(changeFreq) ==> changeFreq.value in ChangeFreqs) &&
    (PriorityGiven(priority) ==> AsFloat(priority).Some? && InUnitRange(AsFloat(priority).value))
  }

  /** A leaf for an optional value: one element when the value is present, none when it is absent. */
  function OptField(tag: string, v: Option<Content>): seq<Field> {
    if v.Some? then [Field(tag, v.value)] else []
  }

  /** The children of a `url` once `loc` and `lastmod` are added. */
  function LocAndLastMod(loc: string, lastMod: Option<Content>): seq<Field> {
    [Field("loc", Text(loc))] + OptField("lastmod", lastMod)
  }

  /** ... and `changefreq`. */
  function UpToChangeFreq(loc: string, lastMod: Option<Content>, changeFreq: Option<Content>): seq<Field> {
    LocAndLastMod(loc, lastMod) + OptField("changefreq", changeFreq)
  }

  /** ... and `priority`: all the children of a complete `url`. */
  function UrlChildren(loc: string, lastMod: Option<Content>, changeFreq: Option<Content>,
                       priority: Option<Content>): seq<Field> {
    UpToChangeFreq(loc, lastMod, changeFreq) + OptField("priority", priority)
  }

  function Url(children: seq<Field>): Element {
    Element("url", children)
  }

  /** The position of each `url` child in the fixed order loc, lastmod, changefreq, priority. */
  function Rank(tag: string): int {
    if tag == "loc" then 0
    else if tag == "lastmod" then 1
    else if tag == "changefreq" then 2
    else if tag == "priority" then 3
    else 4
  }

  /** Only the four `url` children, each at most once, in the fixed order. */
  predicate InCanonicalOrder(fields: seq<Field>) {
    (forall i :: 0 <= i < |fields| ==> Rank(fields[i].tag) < 4) &&
    (forall i, j :: 0 <= i < j < |fields| ==> Rank(fields[i].tag) < Rank(fields[j].tag))
  }

  /** What every `url` element, complete or left partial by a failed check, looks like. */
  predicate WellFormedUrl(e: Element) {
    e.Element? && e.tag == "url" && |e.children| >= 1 && e.children[0].tag == "loc" &&
    e.children[0].content.Text? && |e.children[0].content.text| <= MaxLocLength &&
    InCanonicalOrder(e.children)
  }

  /** The urlset and what `append` raised, after one call. */
  datatype UrlStep = UrlStep(urls: seq<Element>, outcome: Outcome<Error>)

  /**
   * The effect of `append` on the urlset's children. The `url` element is
   * attached right after the length check, so a failing changefreq or
   * priority check leaves a partial `url` behind.
   */
  function AppendUrl(urls: seq<Element>, loc: string, lastMod: LastModArg, changeFreq: Option<string>,
                     priority: PriorityArg): (r: UrlStep)
    ensures |urls| <= |r.urls| <= |urls| + 1 && r.urls[..|urls|] == urls
    ensures |r.urls| == |urls| <==> |loc| > MaxLocLength
    ensures r.outcome == Fail(LocTooLong) <==> |loc| > MaxLocLength
    ensures r.outcome == Fail(BadChangeFreq) <==>
              |loc| <= MaxLocLength && ChangeFreqGiven(changeFreq) && changeFreq.value !in ChangeFreqs
    ensures r.outcome == Fail(PriorityNotNumeric) <==>
              |loc| <= MaxLocLength && (ChangeFreqGiven(changeFreq) ==> changeFreq.value in ChangeFreqs) &&
              PriorityGiven(priority) && AsFloat(priority).None?
    ensures r.outcome.Pass? <==> UrlArgsValid(loc, changeFreq, priority)
  {
    if |loc| > MaxLocLength then UrlStep(urls, Fail(LocTooLong))
    else
      var lm := LastModValue(lastMod);
      if ChangeFreqGiven(changeFreq) && changeFreq.value !in ChangeFreqs then
        UrlStep(urls + [Url(LocAndLastMod(loc, lm))], Fail(BadChangeFreq))
      else
        var cf := ChangeFreqValue(changeFreq);
        match CheckPriority(priority)
        case Failure(e) => UrlStep(urls + [Url(UpToChangeFreq(loc, lm, cf))], Fail(e))
        case Success(pr) => UrlStep(urls + [Url(UrlChildren(loc, lm, cf, pr))], Pass)
  }

  /** The element `append` attached, whether or not a later check failed. */
  function Attached(r: UrlStep): Element
    requires |r.urls| > 0
  {
    r.urls[|r.urls| - 1]
  }

  lemma {:induction false} CanonicalConcat(a: seq<Field>, b: seq<Field>)
    requires InCanonicalOrder(a) && InCanonicalOrder(b)
    requires forall i, j :: 0 <= i < |a| && 0 <= j < |b| ==> Rank(a[i].tag) < Rank(b[j].tag)
    ensures InCanonicalOrder(a + b)
  {
    forall i, j | 0 <= i < j < |a + b| ensures Rank((a + b)[i].tag) < Rank((a + b)[j].tag) {
      if j < |a| {
      } else if i >= |a| {
        assert (a + b)[i] == b[i - |a|] && (a + b)[j] == b[j - |a|];
      } else {
        assert (a + b)[i] == a[i] && (a + b)[j] == b[j - |a|];
      }
    }
  }

  /** Appends an optional leaf whose rank is above every rank already present. */
  lemma CanonicalExtend(a: seq<Field>, tag: string, v: Option<Content>)
    requires InCanonicalOrder(a) && Rank(tag) < 4
    requires forall i :: 0 <= i < |a| ==> Rank(a[i].tag) < Rank(tag)
    ensures InCanonicalOrder(a + OptField(tag, v))
  {
    CanonicalConcat(a, OptField(tag, v));
  }

  /** Each stage of a `url`'s children keeps the fixed order and starts with `loc`. */
  lemma UrlStagesOrdered(loc: string, lastMod: Option<Content>, changeFreq: Option<Content>, priority: Option<Content>)
    ensures InCanonicalOrder(LocAndLastMod(loc, lastMod)) && LocAndLastMod(loc, lastMod)[0] == Field("loc", Text(loc))
    ensures InCanonicalOrder(UpToChangeFreq(loc, lastMod, changeFreq))
    ensures UpToChangeFreq(loc, lastMod, changeFreq)[0] == Field("loc", Text(loc))
    ensures InCanonicalOrder(UrlChildren(loc, lastMod, changeFreq, priority))
    ensures UrlChildren(loc, lastMod, changeFreq, priority)[0] == Field("loc", Text(loc))
  {
    var head := LocAndLastMod(loc, lastMod);
    var withFreq := UpToChangeFreq(loc, lastMod, changeFreq);
    CanonicalExtend([Field("loc", Text(loc))], "lastmod", lastMod);
    CanonicalExtend(head, "changefreq", changeFreq);
    CanonicalExtend(withFreq, "priority", priority);
  }

  /**
   * Every `url` element `append` attaches, complete or partial, starts with
   * `loc` and keeps its children in the order loc, lastmod, changefreq, priority.
   */
  lemma AppendUrlChildOrder(urls: seq<Element>, loc: string, lastMod: LastModArg, changeFreq: Option<string>,
                            priority: PriorityArg)
    requires |loc| <= MaxLocLength
    ensures var r := AppendUrl(urls, loc, lastMod, changeFreq, priority);
            WellFormedUrl(Attached(r)) && Attached(r).children[0] == Field("loc", Text(loc))
  {
    var pr := if CheckPriority(priority).Success? then CheckPriority(priority).value else None;
    UrlStagesOrdered(loc, LastModValue(lastMod), ChangeFreqValue(changeFreq), pr);
  }

  /** What a reader finds under `tag` in a leaf sequence with distinct tags. */
  lemma ReadBack(fields: seq<Field>, tag: string, v: Option<Content>)
    requires InCanonicalOrder(fields)
    requires v.Some? ==> exists k :: 0 <= k < |fields| && fields[k] == Field(tag, v.value)
    requires v.None? ==> forall k :: 0 <= k < |fields| ==> fields[k].tag != tag
    ensures ValueOf(fields, tag) == v
  {
    assert DistinctTags(fields);
    if v.Some? {
      var k :| 0 <= k < |fields| && fields[k] == Field(tag, v.value);
      ValueOfDistinct(fields, k);
    }
  }

  /** Reading the children of a complete `url` back gives each value that was written, and nothing else. */
  lemma UrlChildrenReadBack(loc: string, lastMod: Option<Content>, changeFreq: Option<Content>, priority: Option<Content>)
    ensures var children := UrlChildren(loc, lastMod, changeFreq, priority);
            ValueOf(children, "loc") == Some(Text(loc)) &&
            ValueOf(children, "lastmod") == lastMod &&
            ValueOf(children, "changefreq") == changeFreq &&
            ValueOf(children, "priority") == priority
  {
    var head := LocAndLastMod(loc, lastMod);
    var withFreq := UpToChangeFreq(loc, lastMod, changeFreq);
    var children := UrlChildren(loc, lastMod, changeFreq, priority);
    UrlStagesOrdered(loc, lastMod, changeFreq, priority);
    if lastMod.Some? { assert children[1] == Field("lastmod", lastMod.value); }
    if changeFreq.Some? { assert children[|head|] == Field("changefreq", changeFreq.value); }
    if priority.Some? { assert children[|withFreq|] == Field("priority", priority.value); }
    ReadBack(children, "loc", Some(Text(loc)));
    ReadBack(children, "lastmod", lastMod);
    ReadBack(children, "changefreq", changeFreq);
    ReadBack(children, "priority", priority);
  }

  /**
   * A successful `append` writes exactly the supplied values: reading the new
   * `url` back gives `loc`, the formatted `lastmod`, the `changefreq` token and
   * the parsed `priority`, and nothing for an argument that was falsy.
   */
  lemma AppendUrlReadBack(urls: seq<Element>, loc: string, lastMod: LastModArg, changeFreq: Option<string>,
                          priority: PriorityArg)
    requires UrlArgsValid(loc, changeFreq, priority)
    ensures var r := AppendUrl(urls, loc, lastMod, changeFreq, priority);
            var children := Attached(r).children;
            ValueOf(children, "loc") == Some(Text(loc)) &&
            ValueOf(children, "lastmod") == LastModValue(lastMod) &&
            ValueOf(children, "changefreq") == ChangeFreqValue(changeFreq) &&
            ValueOf(children, "priority") ==
              (if PriorityGiven(priority) then Some(Decimal(AsFloat(priority).value.value)) else None) &&
            (ValueOf(children, "lastmod").Some? <==> LastModGiven(lastMod)) &&
            (ValueOf(children, "changefreq").Some? <==> ChangeFreqGiven(changeFreq)) &&
            (ValueOf(children, "priority").Some? <==> PriorityGiven(priority))
  {
    UrlChildrenReadBack(loc, LastModValue(lastMod), ChangeFreqValue(changeFreq), CheckPriority(priority).value);
  }

  /**
   * A failed changefreq or priority check leaves a partial `url` behind: it
   * holds `loc`, `lastmod` if one was given and, when only the priority failed,
   * `changefreq` if one was given; it never holds a `priority`.
   */
  lemma AppendUrlPartial(urls: seq<Element>, loc: string, lastMod: LastModArg, changeFreq: Option<string>,
                         priority: PriorityArg)
    requires |loc| <= MaxLocLength && !UrlArgsValid(loc, changeFreq, priority)
    ensures var r := AppendUrl(urls, loc, lastMod, changeFreq, priority);
            var children := Attached(r).children;
            r.outcome.Fail? && r.outcome.error != LocTooLong &&
            ValueOf(children, "loc") == Some(Text(loc)) &&
            ValueOf(children, "lastmod") == LastModValue(lastMod) &&
            ValueOf(children, "changefreq") == (if r.outcome == Fail(BadChangeFreq) then None else ChangeFreqValue(changeFreq)) &&
            ValueOf(children, "priority") == None
  {
    var lm := LastModValue(lastMod);
    var r := AppendUrl(urls, loc, lastMod, changeFreq, priority);
    if r.outcome == Fail(BadChangeFreq) {
      assert LocAndLastMod(loc, lm) == UrlChildren(loc, lm, None, None);
      UrlChildrenReadBack(loc, lm, None, None);
    } else {
      var cf := ChangeFreqValue(changeFreq);
      assert UpToChangeFreq(loc, lm, cf) == UrlChildren(loc, lm, cf, None);
      UrlChildrenReadBack(loc, lm, cf, None);
    }
  }

  lemma ReplaceLast(s: seq<Element>, a: Element, b: Element)
    ensures (s + [a])[|s| := b] == s + [b]
  {
  }

  /** The `urlset` document: its `xmlns` attribute and its `url` children. */
  class SiteMap {
    const attributes: map<string, string>
    var urls: seq<Element>

    /** Every child of the urlset is a `url` element whose children are in the fixed order. */
    ghost predicate Valid()
      reads this
    {
      forall i :: 0 <= i < |urls| ==> WellFormedUrl(urls[i])
    }

    /** `SiteMap()` with no domain: `_build_xml` creates an empty `urlset` carrying the 0.9 namespace. */
    constructor Empty()
      ensures Valid()
      ensures attributes == RootAttributes && urls == []
    {
      attributes := RootAttributes;
      urls := [];
    }

    /**
     * `SiteMap(domain)`: a truthy domain is appended as a `url` with priority 1,
     * and its length check propagates out of the constructor.
     */
    static method New(domain: Option<string>) returns (r: Result<SiteMap, Error>)
      ensures r.Success? <==> (domain.Some? && domain.value != "" ==> |domain.value| <= MaxLocLength)
      ensures r.Failure? ==> r.error == LocTooLong
      ensures r.Success? ==> fresh(r.value) && r.value.Valid() && r.value.attributes == RootAttributes
      ensures r.Success? && (domain.None? || domain.value == "") ==> r.value.urls == []
      ensures r.Success? && domain.Some? && domain.value != "" ==>
                r.value.urls == [Url([Field("loc", Text(domain.value)), Field("priority", Decimal(1.0))])]
    {
      var m := new SiteMap.Empty();
      if domain.Some? && domain.value != "" {
        var outcome := m.Append(domain.value, NoLastMod, None, PriorityNumber(Finite(1.0)));
        if outcome.Fail? {
          return Failure(outcome.error);
        }
        assert UrlChildren(domain.value, None, None, Some(Decimal(1.0)))
            == [Field("loc", Text(domain.value)), Field("priority", Decimal(1.0))];
      }
      return Success(m);
    }

    /** `appendChild` on the `url` element at position `i` of the urlset. */
    method AddChild(i: nat, f: Field)
      requires i < |urls| && urls[i].Element?
      modifies this
      ensures urls == old(urls)[i := Element(old(urls)[i].tag, old(urls)[i].children + [f])]
    {
      urls := urls[i := Element(urls[i].tag, urls[i].children + [f])];
    }

    /**
     * `append(loc, last_mod, change_freq, priority)`: checks the length of
     * `loc`, attaches a new `url`, then adds its children one by one, checking
     * changefreq and priority on the way.
     */
    method Append(loc: string, lastMod: LastModArg, changeFreq: Option<string>, priority: PriorityArg)
      returns (outcome: Outcome<Error>)
      requires Valid()
      modifies this
      ensures Valid()
      ensures UrlStep(urls, outcome) == AppendUrl(old(urls), loc, lastMod, changeFreq, priority)
    {
      if |loc| > MaxLocLength {
        return Fail(LocTooLong);
      }
      AppendUrlChildOrder(urls, loc, lastMod, changeFreq, priority);
      var i := |urls|;
      urls := urls + [Url([])];
      AddChild(i, Field("loc", Text(loc)));
      assert [] + [Field("loc", Text(loc))] == [Field("loc", Text(loc))];
      ReplaceLast(old(urls), Url([]), Url([Field("loc", Text(loc))]));
      var lm := LastModValue(lastMod);
      if LastModGiven(lastMod) {
        AddChild(i, Field("lastmod", lm.value));
        ReplaceLast(old(urls), Url([Field("loc", Text(loc))]), Url(LocAndLastMod(loc, lm)));
      }
      assert !LastModGiven(lastMod) ==> LocAndLastMod(loc, lm) == [Field("loc", Text(loc))];
      assert urls == old(urls) + [Url(LocAndLastMod(loc, lm))];
      if ChangeFreqGiven(changeFreq) {
        if changeFreq.value !in ChangeFreqs {
          return Fail(BadChangeFreq);
        }
        AddChild(i, Field("changefreq", Text(changeFreq.value)));
        ReplaceLast(old(urls), Url(LocAndLastMod(loc, lm)), Url(UpToChangeFreq(loc, lm, ChangeFreqValue(changeFreq))));
      }
      ghost var cf := ChangeFreqValue(changeFreq);
      assert !ChangeFreqGiven(changeFreq) ==> UpToChangeFreq(loc, lm, cf) == LocAndLastMod(loc, lm);
      assert urls == old(urls) + [Url(UpToChangeFreq(loc, lm, cf))];
      if PriorityGiven(priority) {
        var value := AsFloat(priority);
        if value.None? {
          return Fail(PriorityNotNumeric);
        }
        if !InUnitRange(value.value) {
          return Fail(PriorityOutOfRange);
        }
        AddChild(i, Field("priority", Decimal(value.value.value)));
        ReplaceLast(old(urls), Url(UpToChangeFreq(loc, lm, cf)), Url(UrlChildren(loc, lm, cf, CheckPriority(priority).value)));
      }
      assert !PriorityGiven(priority) ==> UrlChildren(loc, lm, cf, None) == UpToChangeFreq(loc, lm, cf);
      assert urls == old(urls) + [Url(UrlChildren(loc, lm, cf, CheckPriority(priority).value))];
      return Pass;
    }
  }
}
