/** The link classifier of pkg/scraper/links_counter.go: a depth-first walk
    over an HTML tree that counts the `href` targets of `<a>` elements as
    internal or external to the page's host. */
module LinksCounter {
  import opened Wrappers
  import opened Web

  /** External and internal link counts. */
  datatype Counts = Counts(external: nat, internal: nat) {
    function Plus(other: Counts): Counts {
      Counts(external + other.external, internal + other.internal)
    }

    function Total(): nat {
      external + internal
    }
  }

  const Zero := Counts(0, 0)

  /** Only element nodes with tag `a` are looked at for links. */
  predicate IsAnchor(n: Node) {
    n.kind == ElementNode && n.data == "a"
  }

  /** An attribute that carries a link: key `href` and a non-empty value. */
  predicate IsHref(a: Attribute) {
    a.key == "href" && a.val != ""
  }

  /** An href attribute whose value the URL parser rejects. */
  predicate IsMalformed(a: Attribute, parse: Parser) {
    IsHref(a) && parse(a.val).None?
  }

  /** The classification rule: same hostname as the page, or no hostname but
      a non-empty path (a relative link). */
  predicate IsInternal(page: Url, href: Url) {
    href.hostname == page.hostname || (href.hostname == "" && href.path != "")
  }

  datatype LinkKind = External | Internal

  function KindOf(page: Url, href: Url): LinkKind {
    if IsInternal(page, href) then Internal else External
  }

  /** How many links of one kind the attribute scan of an anchor counts:
      every parsable href is classified, the first malformed href ends the
      scan. */
  function ScanKind(page: Url, attrs: seq<Attribute>, parse: Parser, kind: LinkKind): nat {
    if |attrs| == 0 then 0
    else if !IsHref(attrs[0]) then ScanKind(page, attrs[1..], parse, kind)
    else match parse(attrs[0].val)
      case None => 0
      case Some(u) => (if KindOf(page, u) == kind then 1 else 0) + ScanKind(page, attrs[1..], parse, kind)
  }

  /** How many links of one kind a node adds by itself, before its children
      are visited. */
  function OwnKind(page: Url, n: Node, parse: Parser, kind: LinkKind): nat {
    if IsAnchor(n) then ScanKind(page, n.attrs, parse, kind) else 0
  }

  /** Reference definition of the walk: the links of one kind a node adds,
      plus those of every node below it. */
  function NodeKind(page: Url, n: Node, parse: Parser, kind: LinkKind): nat
    decreases n, 1
  {
    OwnKind(page, n, parse, kind) + ForestKind(page, n.children, parse, kind)
  }

  function ForestKind(page: Url, ns: seq<Node>, parse: Parser, kind: LinkKind): nat
    decreases ns, 0
  {
    if |ns| == 0 then 0
    else NodeKind(page, ns[0], parse, kind) + ForestKind(page, ns[1..], parse, kind)
  }

  function ScanCounts(page: Url, attrs: seq<Attribute>, parse: Parser): Counts {
    Counts(ScanKind(page, attrs, parse, External), ScanKind(page, attrs, parse, Internal))
  }

  function NodeCounts(page: Url, n: Node, parse: Parser): Counts {
    Counts(NodeKind(page, n, parse, External), NodeKind(page, n, parse, Internal))
  }

  function ForestCounts(page: Url, ns: seq<Node>, parse: Parser): Counts {
    Counts(ForestKind(page, ns, parse, External), ForestKind(page, ns, parse, Internal))
  }

  // ---------------------------------------------------------------------
  // The walk as the source performs it
  // ---------------------------------------------------------------------

  /** The closure `f`: adds the counts of `n` and its subtree to `acc`,
      scanning attributes with the source's `break` and `continue`, then
      visiting the children from first to last. */
  method Walk(page: Url, n: Node, parse: Parser, acc: Counts) returns (r: Counts)
    ensures r == acc.Plus(NodeCounts(page, n, parse))
    decreases n
  {
    r := acc;
    if n.kind == ElementNode && n.data == "a" {
      var i := 0;
      while i < |n.attrs|
        invariant 0 <= i <= |n.attrs|
        invariant r.Plus(ScanCounts(page, n.attrs[i..], parse)) == acc.Plus(ScanCounts(page, n.attrs, parse))
      {
        var attr := n.attrs[i];
        assert n.attrs[i..][1..] == n.attrs[i + 1..];
        if attr.key == "href" && attr.val != "" {
          var href := parse(attr.val);
          if href.None? {
            assert r == acc.Plus(ScanCounts(page, n.attrs, parse));
            break;
          }
          if href.value.hostname == page.hostname || (href.value.hostname == "" && href.value.path != "") {
            r := r.(internal := r.internal + 1);
            i := i + 1;
            continue;
          }
          r := r.(external := r.external + 1);
        }
        i := i + 1;
      }
      assert r == acc.Plus(ScanCounts(page, n.attrs, parse));
    }
    ghost var own := r;
    var j := 0;
    while j < |n.children|
      invariant 0 <= j <= |n.children|
      invariant r == own.Plus(ForestCounts(page, n.children[..j], parse))
    {
      ForestAppend(page, n.children[..j], [n.children[j]], parse);
      ForestSingleton(page, n.children[j], parse);
      assert n.children[..j + 1] == n.children[..j] + [n.children[j]];
      r := Walk(page, n.children[j], parse, r);
      j := j + 1;
    }
    assert n.children[..j] == n.children;
  }

  /** `CountLinks`: walks the whole document. The error result is never
      assigned in the source (the `err` inside the walk shadows it), so it
      is always `None`. */
  method CountLinks(page: Url, document: Node, parse: Parser) returns (external: nat, internal: nat, err: Option<string>)
    ensures err == None
    ensures Counts(external, internal) == NodeCounts(page, document, parse)
    ensures external + internal == CountableHrefs(document, parse) <= TreeHrefs(document)
  {
    var c := Walk(page, document, parse, Zero);
    assert c == NodeCounts(page, document, parse);
    external, internal, err := c.external, c.internal, None;
    TotalIsCountable(page, document, parse);
    CountableBelowHrefs(document, parse);
  }

  // ---------------------------------------------------------------------
  // Independent counts of href attributes
  // ---------------------------------------------------------------------

  /** Number of href attributes in a list. */
  function HrefsIn(attrs: seq<Attribute>): nat {
    if |attrs| == 0 then 0
    else (if IsHref(attrs[0]) then 1 else 0) + HrefsIn(attrs[1..])
  }

  /** Index of the first malformed href, or `|attrs|` when there is none. */
  function FirstMalformed(attrs: seq<Attribute>, parse: Parser): (k: nat)
    ensures k <= |attrs|
    ensures k < |attrs| ==> IsMalformed(attrs[k], parse)
  {
    if |attrs| == 0 then 0
    else if IsMalformed(attrs[0], parse) then 0
    else 1 + FirstMalformed(attrs[1..], parse)
  }

  /** The hrefs the scan of one anchor reaches: those before the first
      malformed one. */
  function ReachedHrefs(attrs: seq<Attribute>, parse: Parser): nat {
    HrefsIn(attrs[..FirstMalformed(attrs, parse)])
  }

  /** Number of href attributes on anchor elements in a tree. */
  function TreeHrefs(n: Node): nat
    decreases n, 1
  {
    (if IsAnchor(n) then HrefsIn(n.attrs) else 0) + ForestHrefs(n.children)
  }

  function ForestHrefs(ns: seq<Node>): nat
    decreases ns, 0
  {
    if |ns| == 0 then 0 else TreeHrefs(ns[0]) + ForestHrefs(ns[1..])
  }

  /** Number of anchor hrefs in a tree that the walk reaches. */
  function CountableHrefs(n: Node, parse: Parser): nat
    decreases n, 1
  {
    (if IsAnchor(n) then ReachedHrefs(n.attrs, parse) else 0) + ForestCountable(n.children, parse)
  }

  function ForestCountable(ns: seq<Node>, parse: Parser): nat
    decreases ns, 0
  {
    if |ns| == 0 then 0 else CountableHrefs(ns[0], parse) + ForestCountable(ns[1..], parse)
  }

  // ---------------------------------------------------------------------
  // Properties
  // ---------------------------------------------------------------------


  lemma {:induction false} HrefsInAppend(a: seq<Attribute>, b: seq<Attribute>)
    ensures HrefsIn(a + b) == HrefsIn(a) + HrefsIn(b)
  {
    if |a| == 0 {
      assert a + b == b;
    } else {
      var ab := a + b;
      assert ab[0] == a[0] && ab[1..] == a[1..] + b;
      HrefsInAppend(a[1..], b);
    }
  }

  /** Every href the scan reaches is counted exactly once: the links of
      both kinds on one anchor add up to the number of hrefs before its
      first malformed one. */
  lemma {:induction false} ScanCountsReachedHrefs(page: Url, attrs: seq<Attribute>, parse: Parser)
    ensures ScanCounts(page, attrs, parse).Total() == ReachedHrefs(attrs, parse)
  {
    if |attrs| == 0 {
    } else if IsMalformed(attrs[0], parse) {
      assert attrs[..0] == [];
    } else {
      ScanCountsReachedHrefs(page, attrs[1..], parse);
      var k := FirstMalformed(attrs[1..], parse);
      assert attrs[..1 + k] == [attrs[0]] + attrs[1..][..k];
      HrefsInAppend([attrs[0]], attrs[1..][..k]);
      assert HrefsIn([attrs[0]]) == if IsHref(attrs[0]) then 1 else 0 by {
        assert [attrs[0]][1..] == [];
      }
    }
  }

  lemma {:induction false} ReachedBelowHrefs(attrs: seq<Attribute>, parse: Parser)
    ensures ReachedHrefs(attrs, parse) <= HrefsIn(attrs)
  {
    var k := FirstMalformed(attrs, parse);
    assert attrs == attrs[..k] + attrs[k..];
    HrefsInAppend(attrs[..k], attrs[k..]);
  }

  /** The total of the walk is the number of anchor hrefs it reaches. */
  lemma {:induction false} TotalIsCountable(page: Url, n: Node, parse: Parser)
    ensures NodeCounts(page, n, parse).Total() == CountableHrefs(n, parse)
    decreases n, 1
  {
    if IsAnchor(n) {
      ScanCountsReachedHrefs(page, n.attrs, parse);
    }
    ForestTotalIsCountable(page, n.children, parse);
  }

  lemma {:induction false} ForestTotalIsCountable(page: Url, ns: seq<Node>, parse: Parser)
    ensures ForestCounts(page, ns, parse).Total() == ForestCountable(ns, parse)
    decreases ns, 0
  {
    if |ns| > 0 {
      TotalIsCountable(page, ns[0], parse);
      ForestTotalIsCountable(page, ns[1..], parse);
    }
  }

  /** The walk never counts more links than there are anchor hrefs. */
  lemma {:induction false} CountableBelowHrefs(n: Node, parse: Parser)
    ensures CountableHrefs(n, parse) <= TreeHrefs(n)
    decreases n, 1
  {
    if IsAnchor(n) {
      ReachedBelowHrefs(n.attrs, parse);
    }
    ForestCountableBelowHrefs(n.children, parse);
  }

  lemma {:induction false} ForestCountableBelowHrefs(ns: seq<Node>, parse: Parser)
    ensures ForestCountable(ns, parse) <= ForestHrefs(ns)
    decreases ns, 0
  {
    if |ns| > 0 {
      CountableBelowHrefs(ns[0], parse);
      ForestCountableBelowHrefs(ns[1..], parse);
    }
  }

  /** The href values of anchors in a tree. */
  function HrefValues(n: Node): set<string>
    decreases n, 1
  {
    (if IsAnchor(n) then set a | a in n.attrs && IsHref(a) :: a.val else {}) + ForestHrefValues(n.children)
  }

  function ForestHrefValues(ns: seq<Node>): set<string>
    decreases ns, 0
  {
    if |ns| == 0 then {} else HrefValues(ns[0]) + ForestHrefValues(ns[1..])
  }

  /** With no malformed href on any anchor, every anchor href is counted. */
  lemma AllHrefsCountedWhenWellFormed(page: Url, n: Node, parse: Parser)
    requires forall h | h in HrefValues(n) :: parse(h).Some?
    ensures NodeCounts(page, n, parse).Total() == TreeHrefs(n)
  {
    TotalIsCountable(page, n, parse);
    WellFormedCountable(n, parse);
  }

  lemma {:induction false} WellFormedCountable(n: Node, parse: Parser)
    requires forall h | h in HrefValues(n) :: parse(h).Some?
    ensures CountableHrefs(n, parse) == TreeHrefs(n)
    decreases n, 1
  {
    if IsAnchor(n) {
      var k := FirstMalformed(n.attrs, parse);
      if k < |n.attrs| {
        assert n.attrs[k].val in HrefValues(n);
        assert false;
      }
      assert n.attrs[..k] == n.attrs;
    }
    ForestWellFormedCountable(n.children, parse);
  }

  lemma {:induction false} ForestWellFormedCountable(ns: seq<Node>, parse: Parser)
    requires forall h | h in ForestHrefValues(ns) :: parse(h).Some?
    ensures ForestCountable(ns, parse) == ForestHrefs(ns)
    decreases ns, 0
  {
    if |ns| > 0 {
      WellFormedCountable(ns[0], parse);
      ForestWellFormedCountable(ns[1..], parse);
    }
  }

  /** Attributes other than non-empty hrefs add nothing. */
  lemma {:induction false} NoHrefNoCount(page: Url, attrs: seq<Attribute>, parse: Parser, kind: LinkKind)
    requires forall i | 0 <= i < |attrs| :: !IsHref(attrs[i])
    ensures ScanKind(page, attrs, parse, kind) == 0
  {
    if |attrs| > 0 {
      NoHrefNoCount(page, attrs[1..], parse, kind);
    }
  }

  /** A malformed href ends the scan of its node: nothing after it counts. */
  lemma {:induction false} ScanStopsAtMalformed(page: Url, attrs: seq<Attribute>, k: nat, parse: Parser, kind: LinkKind)
    requires k < |attrs| && IsMalformed(attrs[k], parse)
    ensures ScanKind(page, attrs, parse, kind) == ScanKind(page, attrs[..k], parse, kind)
  {
    if k > 0 {
      assert attrs[..k][0] == attrs[0] && attrs[..k][1..] == attrs[1..][..k - 1];
      if !IsMalformed(attrs[0], parse) {
        ScanStopsAtMalformed(page, attrs[1..], k - 1, parse, kind);
      }
    }
  }

  /** A malformed href on an anchor stops only that anchor's attribute scan:
      the node counts its hrefs up to the malformed one, and all of its
      subtree. */
  lemma MalformedKeepsChildren(page: Url, n: Node, k: nat, parse: Parser)
    requires IsAnchor(n) && k < |n.attrs| && IsMalformed(n.attrs[k], parse)
    ensures NodeCounts(page, n, parse) == ScanCounts(page, n.attrs[..k], parse).Plus(ForestCounts(page, n.children, parse))
  {
    ScanStopsAtMalformed(page, n.attrs, k, parse, External);
    ScanStopsAtMalformed(page, n.attrs, k, parse, Internal);
  }

  /** Nodes that are not anchors add nothing themselves; their children are
      still visited. */
  lemma NonAnchorCountsChildren(page: Url, n: Node, parse: Parser)
    requires !IsAnchor(n)
    ensures NodeCounts(page, n, parse) == ForestCounts(page, n.children, parse)
  {
  }

  /** A tree without anchor hrefs has no links. */
  lemma NoAnchorsNoLinks(page: Url, n: Node, parse: Parser)
    requires TreeHrefs(n) == 0
    ensures NodeCounts(page, n, parse) == Zero
  {
    TotalIsCountable(page, n, parse);
    CountableBelowHrefs(n, parse);
  }

  /** One anchor with one href: it counts once when it parses and not at
      all when it does not, and it is internal exactly when its hostname is
      the page's, or it has no hostname but a path. */
  lemma SingleAnchor(page: Url, v: string, parse: Parser)
    requires v != ""
    ensures var c := NodeCounts(page, Node(ElementNode, "a", [Attribute("href", v)], []), parse);
      && (parse(v).None? ==> c == Zero)
      && (parse(v).Some? ==>
            && c.Total() == 1
            && (c.internal == 1 <==>
                  parse(v).value.hostname == page.hostname
                  || (parse(v).value.hostname == "" && parse(v).value.path != "")))
  {
    var attrs := [Attribute("href", v)];
    var a := Node(ElementNode, "a", attrs, []);
    assert attrs[1..] == [];
    assert NodeKind(page, a, parse, External) == ScanKind(page, attrs, parse, External);
    assert NodeKind(page, a, parse, Internal) == ScanKind(page, attrs, parse, Internal);
  }

  /** A reference with neither hostname nor path (a fragment or a query
      only) counts as external on a page that has a hostname. */
  lemma FragmentOnlyIsExternal(page: Url, v: string, parse: Parser)
    requires v != "" && page.hostname != ""
    requires parse(v).Some? && parse(v).value.hostname == "" && parse(v).value.path == ""
    ensures NodeCounts(page, Node(ElementNode, "a", [Attribute("href", v)], []), parse) == Counts(1, 0)
  {
    var attrs := [Attribute("href", v)];
    var a := Node(ElementNode, "a", attrs, []);
    assert attrs[1..] == [];
    assert NodeKind(page, a, parse, External) == ScanKind(page, attrs, parse, External);
    assert NodeKind(page, a, parse, Internal) == ScanKind(page, attrs, parse, Internal);
  }

  lemma {:induction false} ForestKindAppend(page: Url, a: seq<Node>, b: seq<Node>, parse: Parser, kind: LinkKind)
    ensures ForestKind(page, a + b, parse, kind) == ForestKind(page, a, parse, kind) + ForestKind(page, b, parse, kind)
  {
    if |a| == 0 {
      assert a + b == b;
    } else {
      var ab := a + b;
      assert ab[0] == a[0] && ab[1..] == a[1..] + b;
      ForestKindAppend(page, a[1..], b, parse, kind);
    }
  }

  lemma ForestAppend(page: Url, a: seq<Node>, b: seq<Node>, parse: Parser)
    ensures ForestCounts(page, a + b, parse) == ForestCounts(page, a, parse).Plus(ForestCounts(page, b, parse))
  {
    ForestKindAppend(page, a, b, parse, External);
    ForestKindAppend(page, a, b, parse, Internal);
  }

  lemma ForestSingleton(page: Url, n: Node, parse: Parser)
    ensures ForestCounts(page, [n], parse) == NodeCounts(page, n, parse)
  {
    assert [n][0] == n && [n][1..] == [];
    assert ForestKind(page, [n], parse, External) == NodeKind(page, n, parse, External) + ForestKind(page, [], parse, External);
    assert ForestKind(page, [n], parse, Internal) == NodeKind(page, n, parse, Internal) + ForestKind(page, [], parse, Internal);
  }

  /** The links of a list of siblings do not depend on their order. */
  lemma {:induction false} ForestKindPermutation(page: Url, ns: seq<Node>, ms: seq<Node>, parse: Parser, kind: LinkKind)
    requires multiset(ns) == multiset(ms)
    ensures ForestKind(page, ns, parse, kind) == ForestKind(page, ms, parse, kind)
    decreases |ns|
  {
    if |ns| == 0 {
      assert |ms| == |multiset(ms)| == 0;
    } else {
      var x := ns[0];
      assert x in multiset(ms);
      var j :| 0 <= j < |ms| && ms[j] == x;
      var pre, post := ms[..j], ms[j + 1..];
      PermutationTail(ns, ms, j);
      ForestKindPermutation(page, ns[1..], pre + post, parse, kind);
      ForestKindAppend(page, pre, post, parse, kind);
      assert ms == pre + ([x] + post);
      ForestKindAppend(page, pre, [x] + post, parse, kind);
      assert ([x] + post)[0] == x && ([x] + post)[1..] == post;
    }
  }

  lemma PermutationTail<T>(ns: seq<T>, ms: seq<T>, j: nat)
    requires multiset(ns) == multiset(ms) && |ns| > 0 && j < |ms| && ms[j] == ns[0]
    ensures multiset(ns[1..]) == multiset(ms[..j] + ms[j + 1..])
  {
    var x := ns[0];
    var a, b := multiset(ns[1..]), multiset(ms[..j] + ms[j + 1..]);
    assert ns == [x] + ns[1..];
    assert multiset(ns) == multiset([x]) + a;
    assert ms == ms[..j] + [x] + ms[j + 1..];
    assert multiset(ms) == multiset(ms[..j]) + multiset([x]) + multiset(ms[j + 1..]);
    assert b == multiset(ms[..j]) + multiset(ms[j + 1..]);
    assert multiset([x]) == multiset{x};
    calc {
      a + multiset{x};
      multiset(ns);
      multiset(ms);
      multiset(ms[..j]) + multiset{x} + multiset(ms[j + 1..]);
      b + multiset{x};
    }
    assert a == (a + multiset{x}) - multiset{x};
    assert b == (b + multiset{x}) - multiset{x};
  }

  /** Reordering the children of a node leaves its counts unchanged. */
  lemma ReorderChildren(page: Url, n: Node, ms: seq<Node>, parse: Parser)
    requires multiset(ms) == multiset(n.children)
    ensures NodeCounts(page, n.(children := ms), parse) == NodeCounts(page, n, parse)
  {
    var m := n.(children := ms);
    ForestKindPermutation(page, ms, n.children, parse, External);
    ForestKindPermutation(page, ms, n.children, parse, Internal);
    assert OwnKind(page, m, parse, External) == OwnKind(page, n, parse, External);
    assert OwnKind(page, m, parse, Internal) == OwnKind(page, n, parse, Internal);
    assert NodeKind(page, m, parse, External) == NodeKind(page, n, parse, External);
    assert NodeKind(page, m, parse, Internal) == NodeKind(page, n, parse, Internal);
  }
}
