/** URL list ingestion of pkg/helpers/urls.go: every line of the input must
    be an absolute URL; the first line that is not fails the whole list. The
    input arrives already split into lines. */
module Helpers {
  import opened Wrappers
  import opened Web

  /** Why a line was refused, with its 1-based line number: the parser
      rejected it, or it parsed without a scheme or a host (`url` is the
      parsed URL's text, which the message quotes). */
  datatype UrlError = ParseFailed(line: int) | InvalidUrl(line: int, url: string)

  /** An absolute URL: non-empty scheme and non-empty host. */
  predicate IsAbsolute(u: Url) {
    u.scheme != "" && u.host != ""
  }

  /** `validateUrl`: parse one line and insist on a scheme and a host. */
  function ValidateUrl(text: string, line: int, parse: Parser): (r: Result<Url, UrlError>)
    ensures r.Ok? <==> parse(text).Some? && IsAbsolute(parse(text).value)
    ensures r.Ok? ==> parse(text) == Some(r.value)
    ensures r.Err? ==> r.error.line == line
    ensures r.Err? ==> (r.error.ParseFailed? <==> parse(text).None?)
  {
    match parse(text)
    case None => Err(ParseFailed(line))
    case Some(u) =>
      if u.scheme == "" || u.host == "" then Err(InvalidUrl(line, u.text)) else Ok(u)
  }

  /** `GatherUrls`: all lines validated, in order, or the error of the first
      line that fails; nothing after that line is looked at. */
  method GatherUrls(lines: seq<string>, parse: Parser) returns (r: Result<seq<Url>, UrlError>)
    ensures r.Ok? <==> forall i | 0 <= i < |lines| :: ValidateUrl(lines[i], i + 1, parse).Ok?
    ensures r.Ok? ==> |r.value| == |lines|
    ensures r.Ok? ==> forall i | 0 <= i < |lines| :: parse(lines[i]) == Some(r.value[i])
    ensures r.Ok? ==> forall u | u in r.value :: IsAbsolute(u)
    ensures r.Err? ==>
      && 1 <= r.error.line <= |lines|
      && (forall i | 0 <= i < r.error.line - 1 :: ValidateUrl(lines[i], i + 1, parse).Ok?)
      && ValidateUrl(lines[r.error.line - 1], r.error.line, parse) == Err(r.error)
    ensures r == Gather(lines, parse, 1)
  {
    var urls: seq<Url> := [];
    var line := 1;
    assert lines[line - 1..] == lines;
    PrependNothing(Gather(lines, parse, 1));
    while line <= |lines|
      invariant 1 <= line <= |lines| + 1
      invariant |urls| == line - 1
      invariant forall i | 0 <= i < line - 1 :: ValidateUrl(lines[i], i + 1, parse) == Ok(urls[i])
      invariant Gather(lines, parse, 1) == Prepend(urls, Gather(lines[line - 1..], parse, line))
    {
      assert lines[line - 1..][0] == lines[line - 1] && lines[line - 1..][1..] == lines[line..];
      var validated := ValidateUrl(lines[line - 1], line, parse);
      if validated.Err? {
        return Err(validated.error);
      }
      PrependTwice(urls, validated.value, Gather(lines[line..], parse, line + 1));
      urls := urls + [validated.value];
      line := line + 1;
    }
    assert lines[line - 1..] == [];
    assert urls + [] == urls;
    return Ok(urls);
  }

  /** A method cannot be called from a lemma, so the ingestion facts that
      relate several inputs are stated about this functional twin of the
      loop, proved equal to it below. */
  function Gather(lines: seq<string>, parse: Parser, line: int): Result<seq<Url>, UrlError>
    decreases |lines|
  {
    if |lines| == 0 then Ok([])
    else match ValidateUrl(lines[0], line, parse)
      case Err(e) => Err(e)
      case Ok(u) =>
        match Gather(lines[1..], parse, line + 1)
        case Err(e) => Err(e)
        case Ok(us) => Ok([u] + us)
  }

  /** Puts already validated URLs in front of the outcome for the rest of
      the lines. */
  function Prepend(urls: seq<Url>, rest: Result<seq<Url>, UrlError>): Result<seq<Url>, UrlError> {
    match rest
    case Err(e) => Err(e)
    case Ok(us) => Ok(urls + us)
  }

  lemma PrependNothing(rest: Result<seq<Url>, UrlError>)
    ensures Prepend([], rest) == rest
  {
    if rest.Ok? {
      assert [] + rest.value == rest.value;
    }
  }

  lemma PrependTwice(urls: seq<Url>, u: Url, rest: Result<seq<Url>, UrlError>)
    ensures Prepend(urls, Prepend([u], rest)) == Prepend(urls + [u], rest)
  {
    if rest.Ok? {
      assert urls + ([u] + rest.value) == urls + [u] + rest.value;
    }
  }

  /** Lines after the first failing one are never examined: replacing them
      changes nothing. */
  lemma {:induction false} LaterLinesIgnored(lines: seq<string>, more: seq<string>, k: nat, parse: Parser, line: int)
    requires k < |lines| && ValidateUrl(lines[k], line + k, parse).Err?
    ensures Gather(lines, parse, line) == Gather(lines[..k + 1] + more, parse, line)
  {
    var other := lines[..k + 1] + more;
    assert other[0] == lines[0];
    if k > 0 {
      assert other[1..] == lines[1..][..k] + more;
      LaterLinesIgnored(lines[1..], more, k - 1, parse, line + 1);
    }
  }

  /** The empty input gives the empty list. */
  lemma EmptyInput(parse: Parser)
    ensures Gather([], parse, 1) == Ok([])
  {
  }

  /** One bad line anywhere makes the whole list fail, whatever the other
      lines are. */
  lemma {:induction false} OneBadLineFails(lines: seq<string>, k: nat, parse: Parser, line: int)
    requires k < |lines| && ValidateUrl(lines[k], line + k, parse).Err?
    ensures Gather(lines, parse, line).Err?
    ensures line <= Gather(lines, parse, line).error.line <= line + k
  {
    if k > 0 && ValidateUrl(lines[0], line, parse).Ok? {
      OneBadLineFails(lines[1..], k - 1, parse, line + 1);
    }
  }

  /** A line that parses as a bare path has no scheme or host and is
      refused at line 1, with the parsed URL's text in the error. */
  lemma NotAnUrl()
    ensures var parse := (s: string) => if s == "not an url" then Some(Url("", "", "", s, "not%20an%20url")) else None;
      Gather(["not an url"], parse, 1) == Err(InvalidUrl(1, "not%20an%20url"))
  {
  }
}
