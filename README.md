# sitemaps — a Dafny model of the sitemap builders

This project models `sitemap.py`, a small library that builds documents in the
sitemaps.org Sitemap protocol 0.9:

- `SiteMap` holds a `urlset` document. Each `append(loc, last_mod, change_freq, priority)`
  checks its arguments and adds one `url` element. That element holds the children
  `loc`, `lastmod`, `changefreq` and `priority`, in that order, and leaves out
  every optional argument that is falsy.
- `SiteMapRoot` holds a `sitemapindex` document, either fresh or loaded from an
  existing index file. Each `append(filename, data)` writes `data` gzip-compressed
  to `filename`. It also adds a `sitemap` element whose `loc` is
  `domain + "/" + filename` and whose `lastmod` is the current time, formatted
  `YYYY-MM-DDTHH:MM:SSZ`.

The DOM is a sequence of `Element`s. Each element holds a sequence of leaf
`Field(tag, content)` children (`dom.dfy`). Both builders are classes whose
`append` methods change that sequence step by step, as the source does. The
methods are proved against pure functions (`AppendUrl`, `AppendSitemap`). The
lemmas state what those functions promise: the document grows only at its end,
children come in a fixed order, reading an element back gives the supplied
values, and a failed check leaves a partial element behind.

The source attaches the new `url` element before it checks `changefreq` and
`priority`. It also attaches the new `sitemap` element before it writes the
file. So a failure after that point leaves a partial element in the document.
The model follows the code here, not an idealised all-or-nothing append.

Files:

- `wrappers.dfy`: `Option`, `Result`, `Outcome`.
- `dom.dfy`: elements and leaves, the 0.9 namespace, and `ValueOf` (what a reader of the document finds under a tag).
- `time_format.dfy`: `datetime` values and the two `strftime` formats, each with a parser that reads it back.
- `file_store.dfy`: the file system as a map from file name to decompressed bytes.
- `sitemap.dfy`: `SiteMap`.
- `sitemap_index.dfy`: `SiteMapRoot`.

## Model

| member | source | states |
|---|---|---|
| `Sitemap.SiteMap.Empty` | sitemap.py:16-27 | A `SiteMap` without a domain is an empty `urlset` whose only attribute is `xmlns` = the sitemaps 0.9 namespace. |
| `Sitemap.SiteMap.New` | sitemap.py:12-21 | With a truthy domain, the `urlset` holds exactly one `url`: `loc` = domain, then `priority` 1.0, with no `lastmod` and no `changefreq`. With no domain or an empty one, the `urlset` is empty. A domain longer than 2048 characters makes the constructor raise. |
| `Sitemap.SiteMap.Append` | sitemap.py:29-82 | The step-by-step `append` (attach the `url`, then add each child) ends in the state and outcome `AppendUrl` describes, and keeps every `url` well formed. |
| `Sitemap.AppendUrl` | sitemap.py:45-82 | Earlier `url` elements never change, and at most one is added, at the end. Nothing is added exactly when `loc` is longer than 2048 characters, which raises `LocTooLong`. `BadChangeFreq` is raised exactly when the length is fine and a non-empty `change_freq` is not one of the seven tokens. `PriorityNotNumeric` is raised exactly when those pass and a truthy priority has no float value. The call succeeds exactly when every check passes. |
| `Sitemap.CheckPriority` | sitemap.py:73-81 | A falsy priority writes nothing. A written priority is exactly `float(priority)`, and it lies in [0.0, 1.0]. When `float()` succeeds, the priority is accepted exactly when that float is in [0.0, 1.0]. A failure happens only for a truthy priority, and it is `PriorityNotNumeric` exactly when `float()` raised. |
| `Sitemap.LastModRendering` | sitemap.py:58-61 | A `datetime` is written as a string that parses back to its year, month and day (`YYYY-MM-DD`). A non-empty string is written verbatim. `None` or `""` writes no `lastmod`. |
| `Sitemap.AppendUrlChildOrder` | sitemap.py:48-82 | Every `url` that `append` attaches, complete or partial, starts with `loc` = the given `loc`. Its `loc` is within the 2048 limit. Its children use only the four tags, each at most once, in the order loc, lastmod, changefreq, priority. |
| `Sitemap.UrlChildrenReadBack` | sitemap.py:51-82 | Reading back the children built from `loc` and three optional values gives exactly those values under `loc`, `lastmod`, `changefreq` and `priority`. |
| `Sitemap.AppendUrlReadBack` | sitemap.py:51-82 | After a successful `append`, the new `url` reads back as `loc`, the rendered `lastmod`, the `changefreq` token and `Decimal(float(priority))`. Each optional child is present exactly when its argument was truthy. |
| `Sitemap.AppendUrlPartial` | sitemap.py:48-81 | When the `changefreq` or `priority` check fails, the partial `url` left behind holds `loc` and `lastmod` (if given). It holds `changefreq` (if given) only when the priority check was the one that failed. It never holds `priority`. |
| `TimeFormat.FormatDate` | sitemap.py:59 | `%Y-%m-%d` yields 10 characters: digits, with `-` at positions 4 and 7. |
| `TimeFormat.PadRoundTrip` | sitemap.py:59 | A number below 10^width, zero-padded to `width` digits, reads back as itself. |
| `TimeFormat.DateRoundTrip` | sitemap.py:59 | The `%Y-%m-%d` text of a `datetime` reads back as its year, month and day. |
| `TimeFormat.FormatTimestamp` | sitemap.py:143 | `%Y-%m-%dT%H:%M:%SZ` yields 20 characters: the date text, `T`, `HH:MM:SS` digits, and a literal `Z`. |
| `TimeFormat.TimestampRoundTrip` | sitemap.py:143 | The index timestamp text reads back as the exact moment it was made from. |
| `TimeFormat.TimestampInjective` | sitemap.py:143 | Different moments never produce the same index `lastmod` text. |
| `Files.FileSystem.WriteGzip` | sitemap.py:133-135 | On success, the file holds exactly `data` (decompressed) and no other file changes. On failure, nothing changes. |
| `SitemapIndex.SiteMapRoot.Fresh` | sitemap.py:111-122 | A fresh index is an empty `sitemapindex` with `xmlns` = the sitemaps 0.9 namespace. |
| `SitemapIndex.SiteMapRoot.Load` | sitemap.py:114-116 | A loaded index continues with the attributes and children of the parsed element, as they were found. |
| `SitemapIndex.SiteMapRoot.Append` | sitemap.py:124-144 | The step-by-step `append` (attach the `sitemap`, write the file, add `loc` and `lastmod`) ends in the state `AppendSitemap` describes. It keeps the invariant: the preloaded children stay first and unchanged, and every later child is a `sitemap` entry. |
| `SitemapIndex.AppendSitemap` | sitemap.py:129-144 | Exactly one `sitemap` is added, at the end, and earlier entries (loaded ones included) are unchanged. It succeeds exactly when the file can be written. On success, the entry is `loc` = `domain + "/" + filename`, then `lastmod` = the timestamp, and the file holds `data`. On failure, the entry is empty and no file changes. No other file changes in either case. |
| `SitemapIndex.SitemapRefReadBack` | sitemap.py:137-144 | A complete entry reads back as the file name (its `loc` after `domain + "/"`) and the exact moment of the `append` (its `lastmod`). |

## Left out

- XML text output (`save_xml`, `to_string`, sitemap.py:84-96 and 146-148): this is minidom pretty-printing plus a file write. The model stops at the element tree.
- Parsing an existing index (`minidom.parse` and the `sitemapindex` lookup, sitemap.py:115-116): `SiteMapRoot.Load` takes the attributes and children of the found element as parameters. A missing or malformed file, or one without a `sitemapindex` element, raises in the source. The model has no such error. Nor does it model that the found element may sit deeper than the document root.
- gzip compression: the file system records the bytes a file decompresses to, not the compressed stream.
- Files.FileSystem.WriteGzip: a write fails exactly for the names in `unwritable`. A failure halfway through the write (a truncated file left on disk) is modelled as no change to the file system.
- `datetime.now()` is the parameter `now` of `SiteMapRoot.Append`. It is local time labelled `Z`, as in the source. Microseconds and time zone do not appear in either format.
- TimeFormat.FormatDate: a year below 1000 is zero-padded to four digits. Some platforms' `strftime("%Y")` print fewer digits.
- `str(float)` formatting: a `priority` leaf holds `Decimal(x)`, which stands for the text Python prints for the float `x`.
- `float()` parsing of a string priority: the string comes with what `float()` makes of it (`asFloat`). A number priority is taken as a float exactly. Rounding, and the `OverflowError` for integers too large for a float, are not modelled. nan and ±inf are one `NonFinite` value, which always fails the range check.
- Exception kinds: `LocTooLong`, `BadChangeFreq` and `PriorityOutOfRange` are the source's `AssertionError`s. `PriorityNotNumeric` is the `TypeError` from comparing the unconverted string with `0.0`: the `assert ValueError(...)` at sitemap.py:77 is always true and raises nothing.
- The checks are Python `assert` statements, and the model assumes they run. Under `python -O` none of them happen.
- Arguments of other Python types are not modelled: a non-string `loc` or `change_freq`, a `date` that is not a `datetime` as `last_mod`, or a `bool` priority.
- `SiteMap(domain)` is the static method `SiteMap.New`, because the source constructor can raise, and a Dafny constructor cannot return an error.
- Lengths: Python's `len` counts code points, and a Dafny `char` is a Unicode scalar value. The two agree except for lone surrogates.
- setup.py (packaging) and simple.py (an example script that calls the builders) are not part of this model.
