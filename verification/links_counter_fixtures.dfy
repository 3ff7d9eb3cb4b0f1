/** Worked pages for the link classifier, in the shape of the cases of
    pkg/scraper/links_counter_test.go: a page whose anchors are three
    external and two internal links, and a page where some anchors carry
    malformed references. The HTML fixture files themselves are not part of
    this model; the trees below are written to match the counts those cases
    expect. */
module LinksCounterFixtures {
  import opened Wrappers
  import opened Web
  import opened LinksCounter

  function Anchor(href: string): Node {
    Node(ElementNode, "a", [Attribute("href", href)], [Node(TextNode, "link", [], [])])
  }

  function Page(body: seq<Node>): Node {
    Node(DocumentNode, "", [], [
      Node(ElementNode, "html", [], [
        Node(ElementNode, "head", [], []),
        Node(ElementNode, "body", [], body)])])
  }

  const Google := Url("https", "www.google.com", "www.google.com", "", "https://www.google.com")
  const Facebook := Url("https", "www.facebook.com", "www.facebook.com", "/codefi", "https://www.facebook.com/codefi")
  const GitHub := Url("https", "github.com:443", "github.com", "/", "https://github.com:443/")
  const About := Url("", "", "", "/about", "/about")
  const Contact := Url("http", "localhost.com", "localhost.com", "/contact", "http://localhost.com/contact")

  /** The parser's answers for the references used below; `None` for the
      ones it rejects. */
  function FixtureParse(s: string): Option<Url> {
    if s == Google.text then Some(Google)
    else if s == Facebook.text then Some(Facebook)
    else if s == GitHub.text then Some(GitHub)
    else if s == About.text then Some(About)
    else if s == Contact.text then Some(Contact)
    else None
  }

  const SuccessPage := Url("http", "localhost.com", "localhost.com", "/", "http://localhost.com/")

  const SuccessBody := [
    Anchor(Google.text),
    Anchor(Facebook.text),
    Anchor(GitHub.text),
    Anchor(About.text),
    Anchor(Contact.text),
    Node(ElementNode, "p", [], [Node(TextNode, "no links here", [], [])])]

  /** Three links to other hosts, one relative link and one to the page's
      own host: 3 external, 2 internal. */
  lemma SuccessPageCounts()
    ensures NodeCounts(SuccessPage, Page(SuccessBody), FixtureParse) == Counts(3, 2)
  {
    SuccessKind(External);
    SuccessKind(Internal);
  }

  lemma SuccessKind(k: LinkKind)
    ensures NodeKind(SuccessPage, Page(SuccessBody), FixtureParse, k) == if k == External then 3 else 2
  {
    var p, b := SuccessPage, SuccessBody;
    DocKind(p, b, k);
    assert b[6..] == [];
    Step(p, b, 5, k);
    Step(p, b, 4, k);
    Step(p, b, 3, k);
    Step(p, b, 2, k);
    Step(p, b, 1, k);
    Step(p, b, 0, k);
    assert b[0..] == b;
    AnchorKind(p, Google.text, k);
    AnchorKind(p, Facebook.text, k);
    AnchorKind(p, GitHub.text, k);
    AnchorKind(p, About.text, k);
    AnchorKind(p, Contact.text, k);
  }

  const MalformedPage := Url("http", "localhost", "localhost", "/", "http://localhost/")

  const MalformedBody := [
    Anchor(Google.text),
    Anchor("http://[::1"),
    Anchor(Facebook.text),
    Node(ElementNode, "a", [Attribute("href", "%zz"), Attribute("href", About.text)], []),
    Anchor(""),
    Node(ElementNode, "a", [Attribute("class", "nav")], []),
    Anchor(About.text)]

  /** Malformed references and empty or missing hrefs add nothing, and a
      malformed reference hides the hrefs after it on the same anchor only:
      2 external, 1 internal. */
  lemma MalformedPageCounts()
    ensures NodeCounts(MalformedPage, Page(MalformedBody), FixtureParse) == Counts(2, 1)
  {
    MalformedKind(External);
    MalformedKind(Internal);
  }

  lemma MalformedKind(k: LinkKind)
    ensures NodeKind(MalformedPage, Page(MalformedBody), FixtureParse, k) == if k == External then 2 else 1
  {
    var p, b := MalformedPage, MalformedBody;
    DocKind(p, b, k);
    assert b[7..] == [];
    Step(p, b, 6, k);
    Step(p, b, 5, k);
    Step(p, b, 4, k);
    Step(p, b, 3, k);
    Step(p, b, 2, k);
    Step(p, b, 1, k);
    Step(p, b, 0, k);
    assert b[0..] == b;
    MalformedMembers(k);
  }

  /** What each member of the malformed page's body adds. */
  lemma MalformedMembers(k: LinkKind)
    ensures var p, b := MalformedPage, MalformedBody;
      && NodeKind(p, b[0], FixtureParse, k) == (if k == External then 1 else 0)
      && NodeKind(p, b[1], FixtureParse, k) == 0
      && NodeKind(p, b[2], FixtureParse, k) == (if k == External then 1 else 0)
      && NodeKind(p, b[3], FixtureParse, k) == 0
      && NodeKind(p, b[4], FixtureParse, k) == 0
      && NodeKind(p, b[5], FixtureParse, k) == 0
      && NodeKind(p, b[6], FixtureParse, k) == (if k == Internal then 1 else 0)
  {
  }

  /** The anchor whose first href is malformed counts nothing, not even the
      well-formed href after it. */
  lemma MalformedFirst(page: Url, k: LinkKind)
    ensures NodeKind(page, MalformedBody[3], FixtureParse, k) == 0
  {
  }

  lemma NoHrefAnchor(page: Url, k: LinkKind)
    ensures NodeKind(page, MalformedBody[5], FixtureParse, k) == 0
  {
    var n := MalformedBody[5];
    assert n.attrs[1..] == [];
    assert ScanKind(page, n.attrs, FixtureParse, k) == 0;
  }

  /** The walk of a page built by `Page` is the walk of its body. */
  lemma DocKind(page: Url, body: seq<Node>, k: LinkKind)
    ensures NodeKind(page, Page(body), FixtureParse, k) == ForestKind(page, body, FixtureParse, k)
  {
    var doc := Page(body);
    var html := doc.children[0];
    var head := html.children[0];
    var b := html.children[1];
    assert html.children[1..][0] == b && html.children[1..][1..] == [];
    assert doc.children[1..] == [];
    assert NodeKind(page, head, FixtureParse, k) == 0;
    assert NodeKind(page, b, FixtureParse, k) == ForestKind(page, body, FixtureParse, k);
    assert ForestKind(page, html.children[1..], FixtureParse, k) == NodeKind(page, b, FixtureParse, k);
    assert NodeKind(page, html, FixtureParse, k) == ForestKind(page, body, FixtureParse, k);
  }

  /** The walk of one anchor built by `Anchor`: its href, and nothing from
      its text child. */
  lemma AnchorKind(page: Url, h: string, k: LinkKind)
    ensures NodeKind(page, Anchor(h), FixtureParse, k) ==
      if h != "" && FixtureParse(h).Some? && KindOf(page, FixtureParse(h).value) == k then 1 else 0
  {
    var a := Anchor(h);
    assert a.attrs[1..] == [] && a.children[1..] == [];
    assert ForestKind(page, a.children, FixtureParse, k) == 0;
    assert NodeKind(page, a, FixtureParse, k) == ScanKind(page, a.attrs, FixtureParse, k);
  }

  /** One unfolding of the walk of a suffix of a list of siblings. */
  lemma Step(page: Url, ns: seq<Node>, i: nat, k: LinkKind)
    requires i < |ns|
    ensures ForestKind(page, ns[i..], FixtureParse, k) == NodeKind(page, ns[i], FixtureParse, k) + ForestKind(page, ns[i + 1..], FixtureParse, k)
  {
  }
}
