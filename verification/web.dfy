/** The library values the core reads: a parsed URL (Go's `net/url.URL`) and
    a parsed HTML tree (`golang.org/x/net/html.Node`). Both libraries are
    foreign code; the model keeps only the fields the core looks at and takes
    the URL parser as a parameter. */
module Web {
  import opened Wrappers

  /** A parsed URL. `host` may carry a port; `hostname` is `host` without it
      (what `URL.Hostname()` returns); `text` is `URL.String()`. */
  datatype Url = Url(scheme: string, host: string, hostname: string, path: string, text: string)

  /** `url.Parse`: `None` stands for a non-nil error. */
  type Parser = string -> Option<Url>

  datatype NodeType = ErrorNode | TextNode | DocumentNode | ElementNode | CommentNode | DoctypeNode | RawNode

  datatype Attribute = Attribute(key: string, val: string)

  /** An HTML node with its children in document order (the `FirstChild` /
      `NextSibling` chain). `data` is the tag name of an element node. */
  datatype Node = Node(kind: NodeType, data: string, attrs: seq<Attribute>, children: seq<Node>)
}
