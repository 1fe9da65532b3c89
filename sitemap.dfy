/** The sitemap served at `/sitemap.xml`, in the sitemaps.org protocol 0.9:
    an XML declaration, a `<urlset>` element, then one `<url><loc>…</loc></url>`
    line per named URL pattern, in pattern order, with the absolute URI of the
    name inserted verbatim (no entity escaping). Every other path goes on. */
module Sitemap {
  import opened Http

  const SitemapPath: string := "/sitemap.xml"
  const Header: string := "<?xml version=\"1.0\" encoding=\"UTF-8\"?>\n<urlset xmlns=\"http://www.sitemaps.org/schemas/sitemap/0.9\">\n"
  const Footer: string := "</urlset>"
  const Open: string := "<url><loc>"
  const Close: string := "</loc></url>\n"
  const XmlContentType: string := "application/xml"

  /** `[url.name for url in patterns if url.name]`: the names that are present
      and non-empty, in order. */
  function NamedPatterns(patterns: seq<Option<string>>): (r: seq<string>)
    ensures |r| <= |patterns|
    ensures forall i :: 0 <= i < |r| ==> r[i] != ""
    ensures forall i :: 0 <= i < |r| ==> Some(r[i]) in patterns
  {
    if patterns == [] then []
    else
      var rest := NamedPatterns(patterns[1..]);
      assert forall x :: x in patterns[1..] ==> x in patterns;
      if Truthy(patterns[0]) then [patterns[0].value] + rest else rest
  }

  /** Selecting names distributes over concatenation of pattern lists. */
  lemma {:induction false} NamedPatternsAppend(a: seq<Option<string>>, b: seq<Option<string>>)
    ensures NamedPatterns(a + b) == NamedPatterns(a) + NamedPatterns(b)
    decreases |a|
  {
    if a == [] {
      assert a + b == b;
    } else {
      assert (a + b)[1..] == a[1..] + b;
      NamedPatternsAppend(a[1..], b);
    }
  }

  /** The locations of the names, as `build_absolute_uri` gives them. */
  function Locations(names: seq<string>, absoluteUri: string -> string): (r: seq<string>)
    ensures |r| == |names|
    ensures forall i :: 0 <= i < |r| ==> r[i] == absoluteUri(names[i])
  {
    seq(|names|, i requires 0 <= i < |names| => absoluteUri(names[i]))
  }

  function UrlLine(loc: string): string
  {
    Open + loc + Close
  }

  /** The lines for the locations, grown at the end as the loop grows them. */
  function UrlLines(locs: seq<string>): string
  {
    if locs == [] then "" else UrlLines(locs[..|locs| - 1]) + UrlLine(locs[|locs| - 1])
  }

  function SitemapDocument(locs: seq<string>): string
  {
    Header + UrlLines(locs) + Footer
  }

  /** The middleware; the resolver's URL patterns (their optional names) and
      `build_absolute_uri` are inputs. */
  method Call(request: Request, patterns: seq<Option<string>>, absoluteUri: string -> string) returns (step: Step)
    ensures request.path != SitemapPath ==> step == Forward(request)
    ensures request.path == SitemapPath ==>
      step == Reply(TextResponse(SitemapDocument(Locations(NamedPatterns(patterns), absoluteUri)), 200, XmlContentType))
  {
    if request.path == "/sitemap.xml" {
      var urls := NamedPatterns(patterns);
      ghost var locs := Locations(urls, absoluteUri);
      var sitemap := Header;
      for i := 0 to |urls|
        invariant sitemap == Header + UrlLines(locs[..i])
      {
        assert locs[..i + 1][..i] == locs[..i];
        sitemap := sitemap + "<url><loc>" + absoluteUri(urls[i]) + "</loc></url>\n";
      }
      assert locs[..|urls|] == locs;
      sitemap := sitemap + "</urlset>";
      return Reply(TextResponse(sitemap, 200, XmlContentType));
    }
    step := Forward(request);
  }

  /** The lines of two location lists are the lines of each, in order. */
  lemma {:induction false} UrlLinesAppend(a: seq<string>, b: seq<string>)
    ensures UrlLines(a + b) == UrlLines(a) + UrlLines(b)
    decreases |b|
  {
    if b == [] {
      assert a + b == a;
    } else {
      var b0 := b[..|b| - 1];
      assert (a + b)[..|a + b| - 1] == a + b0;
      assert (a + b)[|a + b| - 1] == b[|b| - 1];
      UrlLinesAppend(a, b0);
    }
  }

  /** The same lines, read from the front. */
  lemma UrlLinesCons(x: string, rest: seq<string>)
    ensures UrlLines([x] + rest) == UrlLine(x) + UrlLines(rest)
  {
    UrlLinesAppend([x], rest);
    assert [x][..0] == [];
  }

  /** The document opens with the declaration and `<urlset>` line and closes
      with `</urlset>`; with no named pattern it is those two and nothing
      else. */
  lemma DocumentFrame(locs: seq<string>)
    ensures StartsWith(SitemapDocument(locs), Header)
    ensures EndsWith(SitemapDocument(locs), Footer)
    ensures locs == [] ==> SitemapDocument(locs) == Header + Footer
  {
    var d := SitemapDocument(locs);
    assert d == (Header + UrlLines(locs)) + Footer;
    assert d[|d| - |Footer|..] == Footer;
  }

  /** Reading the lines back: each is the opening tags, a location up to the
      next `<`, and the closing tags. */
  function ParseUrls(s: string): Option<seq<string>>
    decreases |s|
  {
    if s == [] then Some([])
    else if !(Open <= s) then None
    else
      var body := s[|Open|..];
      if '<' !in body then None
      else
        var i := FirstIndex(body, '<');
        var after := body[i..];
        if !(Close <= after) then None
        else match ParseUrls(after[|Close|..])
          case None => None
          case Some(rest) => Some([body[..i]] + rest)
  }

  /** Reading a whole document back to its locations. */
  function ParseSitemap(doc: string): Option<seq<string>>
  {
    if |doc| >= |Header| + |Footer| && StartsWith(doc, Header) && EndsWith(doc, Footer) then
      ParseUrls(doc[|Header|..|doc| - |Footer|])
    else None
  }

  lemma FirstIndexAfter(x: string, y: string)
    requires '<' !in x && y != [] && y[0] == '<'
    ensures FirstIndex(x + y, '<') == |x|
  {
    assert (x + y)[|x|] == '<';
  }

  /** The lines read back to their locations, as long as no location holds a
      `<` (nothing is escaped, so one that does would end its `<loc>` early). */
  lemma {:induction false} ParseUrlLines(locs: seq<string>)
    requires forall i :: 0 <= i < |locs| ==> '<' !in locs[i]
    ensures ParseUrls(UrlLines(locs)) == Some(locs)
    decreases |locs|
  {
    if locs != [] {
      var x := locs[0];
      var rest := locs[1..];
      assert locs == [x] + rest;
      UrlLinesCons(x, rest);
      var s := UrlLines(locs);
      var tail := UrlLines(rest);
      assert s == Open + (x + (Close + tail));
      var body := s[|Open|..];
      assert body == x + (Close + tail);
      FirstIndexAfter(x, Close + tail);
      assert body[..|x|] == x;
      assert body[|x|..] == Close + tail;
      assert (Close + tail)[|Close|..] == tail;
      ParseUrlLines(rest);
    }
  }

  /** Round trip of the whole document. */
  lemma ParseSitemapDocument(locs: seq<string>)
    requires forall i :: 0 <= i < |locs| ==> '<' !in locs[i]
    ensures ParseSitemap(SitemapDocument(locs)) == Some(locs)
  {
    var d := SitemapDocument(locs);
    DocumentFrame(locs);
    assert d[|Header|..|d| - |Footer|] == UrlLines(locs);
    ParseUrlLines(locs);
  }
}
