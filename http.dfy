/** The record responder's fixed HTTP/1.1 response, and a reader for the
    framing a client relies on: header lines ended by CRLF, an empty line,
    then exactly `Content-Length` bytes of body. */
module Http {
  import opened Wrappers
  import opened Decimal

  const CRLF: string := "\r\n"
  const STATUS_LINE: string := "HTTP/1.1 200 OK"
  const CONTENT_TYPE: string := "Content-Type: text/plain"
  const LENGTH_FIELD: string := "Content-Length"
  const CONNECTION: string := "Connection: close"

  /** The response served to every client: status line, three header lines,
      an empty line, and the record text as body; the `Content-Length` value is
      the decimal byte length of the record text. */
  function Response(enr: string): string
  {
    STATUS_LINE + CRLF + CONTENT_TYPE + CRLF + LENGTH_FIELD + ": " + NatToString(|enr|) + CRLF
    + CONNECTION + CRLF + CRLF + enr
  }

  /** The status line and header lines of the response for a body of `n` bytes. */
  function ResponseHead(n: nat): seq<string>
  {
    [STATUS_LINE, CONTENT_TYPE, LENGTH_FIELD + ": " + NatToString(n), CONNECTION]
  }

  /** Head lines, each ended by CRLF, followed by the empty line. */
  function HeadText(lines: seq<string>): string
  {
    if |lines| == 0 then CRLF else lines[0] + CRLF + HeadText(lines[1..])
  }

  /** Takes the text up to the first CRLF; `None` when there is no CRLF. */
  function ReadLine(s: string): (r: Option<(string, string)>)
    ensures r.Some? ==> s == r.value.0 + CRLF + r.value.1
  {
    if |s| < 2 then None
    else if s[0] == '\r' && s[1] == '\n' then Some(([], s[2..]))
    else
      match ReadLine(s[1..])
      case None => None
      case Some((line, rest)) => Some(([s[0]] + line, rest))
  }

  /** Reads head lines up to and including the empty line; gives the lines
      and the text after the empty line. */
  function ParseHead(s: string): (r: Option<(seq<string>, string)>)
    ensures r.Some? ==> s == HeadText(r.value.0) + r.value.1
    decreases |s|
  {
    match ReadLine(s)
    case None => None
    case Some((line, rest)) =>
      if line == [] then Some(([], rest))
      else
        match ParseHead(rest)
        case None => None
        case Some((lines, body)) => Some(([line] + lines, body))
  }

  predicate HasPrefix(s: string, p: string)
  {
    |p| <= |s| && s[..|p|] == p
  }

  /** The value of the first header line `name: value`. */
  function HeaderValue(lines: seq<string>, name: string): (v: Option<string>)
    ensures v.Some? ==> exists k :: 0 <= k < |lines| && lines[k] == name + ": " + v.value
  {
    if |lines| == 0 then None
    else if HasPrefix(lines[0], name + ": ") then
      assert lines[0] == name + ": " + lines[0][|name| + 2..];
      Some(lines[0][|name| + 2..])
    else
      var v := HeaderValue(lines[1..], name);
      if v.Some? then
        ghost var k :| 0 <= k < |lines[1..]| && lines[1..][k] == name + ": " + v.value;
        assert lines[k + 1] == name + ": " + v.value;
        v
      else v
  }

  /** What a client reading by `Content-Length` takes as the body: `None` when
      the head is malformed, the header is missing or not a number, or fewer
      bytes than announced follow the head. */
  function ReadBody(s: string): (r: Option<string>)
  {
    var head := ParseHead(s);
    if head.None? then None else FramedBody(head.value.0, head.value.1)
  }

  /** The body announced by the head `lines` (status line first), taken from
      the text `rest` that follows the head. */
  function FramedBody(lines: seq<string>, rest: string): (r: Option<string>)
    ensures r.Some? ==> |r.value| <= |rest| && r.value == rest[..|r.value|]
  {
    if |lines| == 0 then None
    else
      var v := HeaderValue(lines[1..], LENGTH_FIELD);
      if v.None? then None
      else
        var n := ParseDecimal(v.value);
        if n.None? || n.value > |rest| then None else Some(rest[..n.value])
  }

  predicate NoCR(line: string)
  {
    '\r' !in line
  }

  lemma {:induction false} ReadLineOf(line: string, rest: string)
    requires NoCR(line)
    ensures ReadLine(line + CRLF + rest) == Some((line, rest))
  {
    var s := line + CRLF + rest;
    if |line| > 0 {
      assert s[0] == line[0] && line[0] != '\r';
      assert s[1..] == line[1..] + CRLF + rest;
      ReadLineOf(line[1..], rest);
      assert [line[0]] + line[1..] == line;
    } else {
      assert s[2..] == rest;
    }
  }

  /** Reading the head written by `HeadText` gives the lines and the body
      back, when no line is empty or holds a carriage return. */
  lemma {:induction false} ParseHeadText(lines: seq<string>, body: string)
    requires forall k :: 0 <= k < |lines| ==> lines[k] != [] && NoCR(lines[k])
    ensures ParseHead(HeadText(lines) + body) == Some((lines, body))
  {
    if |lines| == 0 {
      ReadLineOf([], body);
      assert HeadText(lines) + body == [] + CRLF + body;
    } else {
      var rest := HeadText(lines[1..]) + body;
      assert HeadText(lines) + body == lines[0] + CRLF + rest;
      ReadLineOf(lines[0], rest);
      ParseHeadText(lines[1..], body);
      assert [lines[0]] + lines[1..] == lines;
    }
  }

  /** Four head lines written out one after the other are their `HeadText`. */
  lemma HeadTextOfFour(a: string, b: string, c: string, d: string, body: string)
    ensures a + CRLF + b + CRLF + c + CRLF + d + CRLF + CRLF + body == HeadText([a, b, c, d]) + body
  {
    var h := [a, b, c, d];
    assert h[1..] == [b, c, d] && h[2..] == [c, d] && h[3..] == [d] && h[4..] == [];
    assert HeadText(h[4..]) == CRLF;
    assert HeadText(h[3..]) == d + CRLF + CRLF;
    assert HeadText(h[2..]) == c + CRLF + (d + CRLF + CRLF);
    assert HeadText(h[1..]) == b + CRLF + (c + CRLF + (d + CRLF + CRLF));
    assert HeadText(h) == a + CRLF + (b + CRLF + (c + CRLF + (d + CRLF + CRLF)));
  }

  /** The response is the head of `ResponseHead` followed by the record text. */
  lemma ResponseIsHeadAndBody(enr: string)
    ensures Response(enr) == HeadText(ResponseHead(|enr|)) + enr
  {
    var length := LENGTH_FIELD + ": " + NatToString(|enr|);
    assert Response(enr) == STATUS_LINE + CRLF + CONTENT_TYPE + CRLF + length + CRLF + CONNECTION + CRLF + CRLF + enr;
    HeadTextOfFour(STATUS_LINE, CONTENT_TYPE, length, CONNECTION, enr);
  }

  /** Every line of the response head is non-empty and free of carriage returns. */
  lemma ResponseHeadLines(n: nat)
    ensures forall k :: 0 <= k < 4 ==> ResponseHead(n)[k] != [] && NoCR(ResponseHead(n)[k])
  {
    var h := ResponseHead(n);
    NoNonDigit(n, '\r');
    assert NoCR(h[2]) by {
      var cl := LENGTH_FIELD + ": ";
      assert h[2] == cl + NatToString(n);
      assert '\r' !in cl;
    }
  }

  /** The `Content-Length` header of the response head announces `n`. */
  lemma ResponseContentLength(n: nat)
    ensures HeaderValue(ResponseHead(n)[1..], LENGTH_FIELD) == Some(NatToString(n))
  {
    var h := ResponseHead(n);
    var name := LENGTH_FIELD + ": ";
    assert !HasPrefix(h[1], name) by {
      assert h[1][8] != name[8];
    }
    assert h[1..][1..] == h[2..];
    assert h[2][..|name|] == name;
    assert h[2][|name|..] == NatToString(n);
  }

  /** The response reads back as the fixed head followed by the record text. */
  lemma ResponseHeadRoundTrip(enr: string)
    ensures ParseHead(Response(enr)) == Some((ResponseHead(|enr|), enr))
  {
    ResponseHeadLines(|enr|);
    ResponseIsHeadAndBody(enr);
    ParseHeadText(ResponseHead(|enr|), enr);
  }

  /** A head whose `Content-Length` reads as the length of the text after it
      frames exactly that text. */
  lemma ReadBodyOf(s: string, lines: seq<string>, rest: string, v: string)
    requires ParseHead(s) == Some((lines, rest)) && |lines| >= 1
    requires HeaderValue(lines[1..], LENGTH_FIELD) == Some(v)
    requires ParseDecimal(v) == Some(|rest|)
    ensures ReadBody(s) == Some(rest)
  {
    assert rest[..|rest|] == rest;
  }

  /** Header/body round trip: the response reads back as the fixed head and a
      body equal to the record text, and the `Content-Length` value, read as
      a number, is the byte length of that body. */
  lemma ResponseFraming(enr: string)
    ensures ParseHead(Response(enr)) == Some((ResponseHead(|enr|), enr))
    ensures HeaderValue(ResponseHead(|enr|)[1..], LENGTH_FIELD) == Some(NatToString(|enr|))
    ensures ParseDecimal(NatToString(|enr|)) == Some(|enr|)
    ensures ReadBody(Response(enr)) == Some(enr)
  {
    ResponseHeadRoundTrip(enr);
    ResponseContentLength(|enr|);
    ParseNatToString(|enr|);
    ReadBodyOf(Response(enr), ResponseHead(|enr|), enr, NatToString(|enr|));
  }
}
