/**
 AWS Signature Version 4 for any list of headers, as its own document defines it,
 and the proof that the signer's three templates compute it for the request it signs.
 */
module SigV4 {
  import opened Bytes
  import opened Hashing
  import opened SigningSpec

  datatype Header = Header(name: Text, value: Text)

  // The signature of a request with any headers

  function Line(h: Header): Text { h.name + Ascii(":") + h.value + Ascii("\n") }

  function Lines(hs: seq<Header>): Text {
    if hs == [] then [] else Line(hs[0]) + Lines(hs[1..])
  }

  function Join(texts: seq<Text>, separator: Text): Text {
    if texts == [] then []
    else if |texts| == 1 then texts[0]
    else texts[0] + separator + Join(texts[1..], separator)
  }

  function Names(hs: seq<Header>): seq<Text> { seq(|hs|, i requires 0 <= i < |hs| => hs[i].name) }

  function SignedNames(hs: seq<Header>): Text { Join(Names(hs), Ascii(";")) }

  /** Method, path, query, header lines, signed names and body hash, one below the other. */
  function Canonical(verb: Text, path: Text, query: Text, hs: seq<Header>, bodyHash: Text): Text {
    Join([verb, path, query, Lines(hs), SignedNames(hs), bodyHash], Ascii("\n"))
  }

  /** One keyed hash a link, each under the key the one before it made. */
  function Chained(sha: Sha, key: Text, links: seq<Text>): Text
    decreases |links|
  {
    if links == [] then key else Chained(sha, Hmac(sha, key, links[0]), links[1..])
  }

  const ALGORITHM := Ascii("AWS4-HMAC-SHA256")

  function ToSign(time: Text, scope: seq<Text>, requestHash: Text): Text {
    Join([ALGORITHM, time, Join(scope, Ascii("/")), requestHash], Ascii("\n"))
  }

  function Authorization(accessKeyID: Text, scope: seq<Text>, names: Text, signature: Text): Text {
    ALGORITHM + Ascii(" Credential=") + Join([accessKeyID] + scope, Ascii("/"))
    + Ascii(", SignedHeaders=") + names + Ascii(", Signature=") + signature
  }

  // The request that is signed

  /** The headers a GetItem request carries. */
  function RequestHeaders(a: Account, body: Text, long: Text): seq<Header> {
    [Header(Ascii("accept-encoding"), Ascii("identity")),
     Header(Ascii("content-length"), Decimal(|body|)),
     Header(Ascii("content-type"), Ascii("application/x-amz-json-1.0")),
     Header(Ascii("host"), a.host),
     Header(Ascii("x-amz-date"), long)]
    + (if a.credentials.sessionToken == [] then []
       else [Header(Ascii("x-amz-security-token"), a.credentials.sessionToken)])
    + [Header(Ascii("x-amz-target"), Ascii("DynamoDB_20120810.GetItem"))]
  }

  function ScopeOf(a: Account, short: Text): seq<Text> {
    [short, a.region, Ascii("dynamodb"), Ascii("aws4_request")]
  }

  // Templates render piece by piece

  lemma RenderNothing(values: map<Tag, Text>)
    ensures Render([], values) == []
  {}

  lemma RenderSnoc(t: seq<Part>, p: Part, values: map<Tag, Text>)
    ensures Render(t + [p], values) == Render(t, values) + RenderPart(p, values)
  {
    assert (t + [p])[..|t|] == t;
  }

  lemma RenderOne(p: Part, values: map<Tag, Text>)
    ensures Render([p], values) == RenderPart(p, values)
  {
    RenderSnoc([], p, values);
    assert [] + [p] == [p] && Render([], values) == [];
    assert [] + RenderPart(p, values) == RenderPart(p, values);
  }

  lemma {:induction false} RenderAppend(a: seq<Part>, b: seq<Part>, values: map<Tag, Text>)
    ensures Render(a + b, values) == Render(a, values) + Render(b, values)
  {
    hide Render, RenderPart;
    if b == [] {
      RenderNothing(values);
      assert a + b == a && Render(a, values) + [] == Render(a, values);
    } else {
      var front, p := b[..|b| - 1], b[|b| - 1];
      RenderAppend(a, front, values);
      assert b == front + [p] && a + b == (a + front) + [p];
      RenderSnoc(a + front, p, values);
      RenderSnoc(front, p, values);
      Rebracket(Render(a, values), Render(front, values), RenderPart(p, values));
    }
  }

  /** A list of lines renders as the list of rendered lines. */
  function Rendered(lines: seq<seq<Part>>, values: map<Tag, Text>): seq<Text> {
    seq(|lines|, i requires 0 <= i < |lines| => Render(lines[i], values))
  }

  lemma {:induction false} RenderLines(lines: seq<seq<Part>>, values: map<Tag, Text>)
    ensures Render(Flatten(lines), values) == Flatten(Rendered(lines, values))
  {
    hide Render, Flatten;
    if lines == [] {
      FlattenNone<Part>();
      FlattenNone<byte>();
      RenderNothing(values);
      assert Rendered(lines, values) == [];
    } else {
      var x, rest := lines[0], lines[1..];
      RenderLines(rest, values);
      assert lines == [x] + rest && Rendered(lines, values) == [Render(x, values)] + Rendered(rest, values);
      FlattenCons(x, rest);
      FlattenCons(Render(x, values), Rendered(rest, values));
      RenderAppend(x, Flatten(rest), values);
    }
  }

  lemma {:induction false} LinesAreFlat(hs: seq<Header>, texts: seq<Text>)
    requires |texts| == |hs| && forall i :: 0 <= i < |hs| ==> texts[i] == Line(hs[i])
    ensures Lines(hs) == Flatten(texts)
  {
    if hs != [] {
      LinesAreFlat(hs[1..], texts[1..]);
    }
  }

  lemma {:induction false} JoinIsFlat(names: seq<Text>, separator: Text, texts: seq<Text>)
    requires |texts| == |names| > 0
    requires forall i :: 0 <= i < |names| - 1 ==> texts[i] == names[i] + separator
    requires texts[|names| - 1] == names[|names| - 1]
    ensures Join(names, separator) == Flatten(texts)
  {
    if |names| == 1 {
      assert texts == [names[0]] && Flatten(texts) == names[0] + Flatten([]);
    } else {
      JoinIsFlat(names[1..], separator, texts[1..]);
    }
  }

  lemma AsciiAppend(s: string, t: string)
    ensures Ascii(s + t) == Ascii(s) + Ascii(t)
  {}

  /** Where the literal text comes from: it is the letters themselves. */
  lemma AsciiLetters(s: string, i: nat)
    requires i < |s| && s[i] as int < 128
    ensures |Ascii(s)| == |s| && Ascii(s)[i] == s[i] as int
  {}

  // The header lines

  lemma HoleLine(name: string, tag: Tag, values: map<Tag, Text>)
    requires tag in values
    ensures Render([Literal(Ascii(name + ":")), Hole(tag), Literal(Ascii("\n"))], values)
            == Line(Header(Ascii(name), values[tag]))
  {
    hide Render, Ascii;
    var start, hole, end := Literal(Ascii(name + ":")), Hole(tag), Literal(Ascii("\n"));
    assert [start, hole, end] == ([start] + [hole]) + [end];
    RenderOne(start, values);
    RenderSnoc([start], hole, values);
    RenderSnoc([start] + [hole], end, values);
    AsciiAppend(name, ":");
  }

  lemma TextLine(name: string, value: Text, values: map<Tag, Text>)
    ensures Render([Literal(Ascii(name + ":") + value + Ascii("\n"))], values) == Line(Header(Ascii(name), value))
  {
    hide Render, Ascii;
    RenderOne(Literal(Ascii(name + ":") + value + Ascii("\n")), values);
    AsciiAppend(name, ":");
  }

  lemma FixedLine(name: string, value: string, values: map<Tag, Text>)
    ensures Render([Literal(Ascii(name + ":" + value + "\n"))], values) == Line(Header(Ascii(name), Ascii(value)))
  {
    hide Render, Ascii;
    RenderOne(Literal(Ascii(name + ":" + value + "\n")), values);
    AsciiAppend(name, ":");
    AsciiAppend(name + ":", value);
    AsciiAppend(name + ":" + value, "\n");
  }

  lemma FixedLines()
    ensures "accept-encoding:identity\n" == "accept-encoding" + ":" + "identity" + "\n"
    ensures "content-length:" == "content-length" + ":"
    ensures "host:" == "host" + ":"
    ensures "x-amz-date:" == "x-amz-date" + ":"
    ensures "x-amz-security-token:" == "x-amz-security-token" + ":"
  {}

  lemma ContentTypeLine()
    ensures "content-type:application/x-amz-json-1.0\n" == "content-type" + ":" + "application/x-amz-json-1.0" + "\n"
  {}

  lemma TargetLine()
    ensures "x-amz-target:DynamoDB_20120810.GetItem\n" == "x-amz-target" + ":" + "DynamoDB_20120810.GetItem" + "\n"
  {}

  lemma HeaderLines(a: Account, body: Text, long: Text, values: map<Tag, Text>)
    requires ContentLength in values && values[ContentLength] == Decimal(|body|)
    requires TimeLong in values && values[TimeLong] == long
    ensures Render(Flatten(LinesTemplate(a.host, a.credentials.sessionToken)), values)
            == Lines(RequestHeaders(a, body, long))
  {
    hide Render, Flatten, Ascii, Decimal, Lines, Line;
    var lines, hs := LinesTemplate(a.host, a.credentials.sessionToken), RequestHeaders(a, body, long);
    FixedLines();
    ContentTypeLine();
    TargetLine();
    FixedLine("accept-encoding", "identity", values);
    HoleLine("content-length", ContentLength, values);
    FixedLine("content-type", "application/x-amz-json-1.0", values);
    TextLine("host", a.host, values);
    HoleLine("x-amz-date", TimeLong, values);
    TextLine("x-amz-security-token", a.credentials.sessionToken, values);
    FixedLine("x-amz-target", "DynamoDB_20120810.GetItem", values);
    RenderLines(lines, values);
    LinesAreFlat(hs, Rendered(lines, values));
  }

  // The signed names

  function Pieces(template: seq<Part>, values: map<Tag, Text>): seq<Text> {
    seq(|template|, i requires 0 <= i < |template| => RenderPart(template[i], values))
  }

  lemma {:induction false} RenderPieces(template: seq<Part>, values: map<Tag, Text>)
    ensures Render(template, values) == Flatten(Pieces(template, values))
  {
    hide RenderPart, Flatten;
    if template == [] {
      FlattenNone<byte>();
      assert Pieces(template, values) == [];
    } else {
      var front, p := template[..|template| - 1], template[|template| - 1];
      RenderPieces(front, values);
      assert Pieces(template, values) == Pieces(front, values) + [RenderPart(p, values)];
      FlattenSnoc(Pieces(front, values), RenderPart(p, values));
    }
  }

  lemma NamePieces()
    ensures "accept-encoding;" == "accept-encoding" + ";" && "content-length;" == "content-length" + ";"
    ensures "content-type;" == "content-type" + ";" && "host;" == "host" + ";"
    ensures "x-amz-date;" == "x-amz-date" + ";" && "x-amz-security-token;" == "x-amz-security-token" + ";"
  {}

  lemma HeaderNames(a: Account, body: Text, long: Text, values: map<Tag, Text>)
    ensures Render(NamesTemplate(a.credentials.sessionToken), values) == SignedNames(RequestHeaders(a, body, long))
  {
    hide Render, Flatten, Ascii, Decimal, Join;
    var template, hs := NamesTemplate(a.credentials.sessionToken), RequestHeaders(a, body, long);
    NamePieces();
    AsciiAppend("accept-encoding", ";");
    AsciiAppend("content-length", ";");
    AsciiAppend("content-type", ";");
    AsciiAppend("host", ";");
    AsciiAppend("x-amz-date", ";");
    AsciiAppend("x-amz-security-token", ";");
    RenderPieces(template, values);
    JoinIsFlat(Names(hs), Ascii(";"), Pieces(template, values));
  }

  // The canonical request

  lemma JoinCons(x: Text, rest: seq<Text>, separator: Text)
    requires rest != []
    ensures Join([x] + rest, separator) == x + (separator + Join(rest, separator))
  {
    assert ([x] + rest)[1..] == rest;
    Rebracket(x, separator, Join(rest, separator));
  }

  lemma JoinOne(x: Text, separator: Text)
    ensures Join([x], separator) == x
  {}

  lemma FirstLines()
    ensures Ascii("POST\n/\n\n") == Ascii("POST") + (Ascii("\n") + (Ascii("/") + (Ascii("\n") + Ascii("\n"))))
  {}

  lemma UnderHead(x: Text)
    ensures Ascii("POST\n/\n\n") + x
            == Ascii("POST") + (Ascii("\n") + (Ascii("/") + (Ascii("\n") + ([] + (Ascii("\n") + x)))))
  {
    hide Ascii;
    FirstLines();
    var verb, slash, end := Ascii("POST"), Ascii("/"), Ascii("\n");
    assert [] + (end + x) == end + x;
    Rebracket(verb, end + (slash + (end + end)), x);
    Rebracket(end, slash + (end + end), x);
    Rebracket(slash, end + end, x);
    Rebracket(end, end, x);
  }

  lemma CanonicalJoin(lines: Text, names: Text, hash: Text)
    ensures Join([Ascii("POST"), Ascii("/"), [], lines, names, hash], Ascii("\n"))
            == Ascii("POST\n/\n\n") + (lines + (Ascii("\n") + (names + (Ascii("\n") + hash))))
  {
    hide Ascii, Join;
    var end := Ascii("\n");
    JoinOne(hash, end);
    JoinCons(names, [hash], end);
    JoinCons(lines, [names, hash], end);
    JoinCons([], [lines, names, hash], end);
    JoinCons(Ascii("/"), [[], lines, names, hash], end);
    JoinCons(Ascii("POST"), [Ascii("/"), [], lines, names, hash], end);
    assert [names] + [hash] == [names, hash] && [lines] + [names, hash] == [lines, names, hash];
    assert [[]] + [lines, names, hash] == [[], lines, names, hash];
    assert [Ascii("/")] + [[], lines, names, hash] == [Ascii("/"), [], lines, names, hash];
    assert [Ascii("POST")] + [Ascii("/"), [], lines, names, hash]
           == [Ascii("POST"), Ascii("/"), [], lines, names, hash];
    UnderHead(lines + (end + (names + (end + hash))));
  }

  lemma RightNested<T>(a: seq<T>, b: seq<T>, c: seq<T>, d: seq<T>, e: seq<T>)
    ensures (((a + b) + c) + d) + e == a + (b + (c + (d + e)))
  {
    Rebracket((a + b) + c, d, e);
    Rebracket(a + b, c, d + e);
    Rebracket(a, b, c + (d + e));
  }

  lemma RenderFive(a: seq<Part>, b: seq<Part>, c: seq<Part>, d: seq<Part>, e: seq<Part>, values: map<Tag, Text>)
    ensures Render(a + b + c + d + e, values)
            == Render(a, values)
               + (Render(b, values) + (Render(c, values) + (Render(d, values) + Render(e, values))))
  {
    hide Render;
    RenderAppend(a + b + c + d, e, values);
    RenderAppend(a + b + c, d, values);
    RenderAppend(a + b, c, values);
    RenderAppend(a, b, values);
    RightNested(Render(a, values), Render(b, values), Render(c, values), Render(d, values), Render(e, values));
  }

  lemma RenderTwo(p: Part, q: Part, values: map<Tag, Text>)
    ensures Render([p, q], values) == RenderPart(p, values) + RenderPart(q, values)
  {
    hide Render, RenderPart;
    assert [p, q] == [p] + [q];
    RenderOne(p, values);
    RenderSnoc([p], q, values);
  }

  /** The rendered template is the canonical request for the headers that are sent, token or no token. */
  lemma CanonicalRequestIsCanonical(a: Account, body: Text, long: Text)
    ensures CanonicalRequest(a, body, long)
            == Canonical(Ascii("POST"), Ascii("/"), [], RequestHeaders(a, body, long), Hex(Digest(a.sha, body)))
  {
    hide Render, Ascii, Decimal, Hex, Join, Lines, LinesTemplate, NamesTemplate, SignedNames, RequestHeaders, Flatten;
    var token, hash := a.credentials.sessionToken, Hex(Digest(a.sha, body));
    var values := map[ContentLength := Decimal(|body|), TimeLong := long, PayloadHash := hash];
    var hs, end := RequestHeaders(a, body, long), Literal(Ascii("\n"));
    RenderFive([Literal(Ascii("POST\n/\n\n"))], Flatten(LinesTemplate(a.host, token)), [end],
               NamesTemplate(token), [end, Hole(PayloadHash)], values);
    RenderOne(Literal(Ascii("POST\n/\n\n")), values);
    HeaderLines(a, body, long, values);
    RenderOne(end, values);
    HeaderNames(a, body, long, values);
    RenderTwo(end, Hole(PayloadHash), values);
    CanonicalJoin(Lines(hs), SignedNames(hs), hash);
  }

  // The string to sign

  lemma ScopeText()
    ensures Ascii("/dynamodb/aws4_request")
            == Ascii("/") + (Ascii("dynamodb") + (Ascii("/") + Ascii("aws4_request")))
  {}

  lemma ScopeJoin(a: Account, short: Text)
    ensures Join(ScopeOf(a, short), Ascii("/")) == short + Scope(a.region)
  {
    hide Ascii, Join;
    var slash, service, end := Ascii("/"), Ascii("dynamodb"), Ascii("aws4_request");
    ScopeText();
    JoinOne(end, slash);
    JoinCons(service, [end], slash);
    JoinCons(a.region, [service, end], slash);
    JoinCons(short, [a.region, service, end], slash);
    assert [service] + [end] == [service, end] && [a.region] + [service, end] == [a.region, service, end];
    assert [short] + [a.region, service, end] == ScopeOf(a, short);
    Rebracket(slash, a.region, slash + (service + (slash + end)));
  }

  lemma AlgorithmLine()
    ensures Ascii("AWS4-HMAC-SHA256\n") == ALGORITHM + Ascii("\n")
  {
    assert "AWS4-HMAC-SHA256\n" == "AWS4-HMAC-SHA256" + "\n";
    AsciiAppend("AWS4-HMAC-SHA256", "\n");
  }

  lemma RenderSix(p: Part, q: Part, r: Part, s: Part, t: Part, u: Part, values: map<Tag, Text>)
    ensures Render([p, q, r, s, t, u], values)
            == RenderPart(p, values) + RenderPart(q, values) + RenderPart(r, values) + RenderPart(s, values)
               + RenderPart(t, values) + RenderPart(u, values)
  {
    hide Render, RenderPart;
    RenderTwo(p, q, values);
    RenderSnoc([p, q], r, values);
    RenderSnoc([p, q, r], s, values);
    RenderSnoc([p, q, r, s], t, values);
    RenderSnoc([p, q, r, s, t], u, values);
    assert [p, q] + [r] == [p, q, r] && [p, q, r] + [s] == [p, q, r, s];
    assert [p, q, r, s] + [t] == [p, q, r, s, t] && [p, q, r, s, t] + [u] == [p, q, r, s, t, u];
  }

  lemma ToSignFlat(time: Text, short: Text, scope: Text, hash: Text, end: Text)
    ensures Join([ALGORITHM, time, short + scope, hash], end)
            == (ALGORITHM + end) + time + end + short + (scope + end) + hash
  {
    hide Join;
    JoinOne(hash, end);
    JoinCons(short + scope, [hash], end);
    JoinCons(time, [short + scope, hash], end);
    JoinCons(ALGORITHM, [time, short + scope, hash], end);
    assert [short + scope] + [hash] == [short + scope, hash];
    assert [time] + [short + scope, hash] == [time, short + scope, hash];
    assert [ALGORITHM] + [time, short + scope, hash] == [ALGORITHM, time, short + scope, hash];
    RightNested(ALGORITHM + end, time, end, short, (scope + end) + hash);
    Rebracket((ALGORITHM + end) + time + end + short, scope + end, hash);
    Rebracket(scope, end, hash);
    Rebracket(short, scope, end + hash);
    Rebracket(ALGORITHM, end, time + (end + (short + (scope + (end + hash)))));
  }

  /** Algorithm, time, scope and the hash of the canonical request, in this order. */
  lemma StringToSignIsToSign(a: Account, body: Text, long: Text, short: Text)
    ensures StringToSign(a, body, long, short)
            == ToSign(long, ScopeOf(a, short), Hex(Digest(a.sha, CanonicalRequest(a, body, long))))
  {
    hide Render, Ascii, Hex, Join, CanonicalRequest, ScopeOf, Scope, ALGORITHM;
    var hash := Hex(Digest(a.sha, CanonicalRequest(a, body, long)));
    var values := map[TimeLong := long, TimeShort := short, RequestHash := hash];
    RenderSix(Literal(Ascii("AWS4-HMAC-SHA256\n")), Hole(TimeLong), Literal(Ascii("\n")), Hole(TimeShort),
              Literal(Scope(a.region) + Ascii("\n")), Hole(RequestHash), values);
    AlgorithmLine();
    ScopeJoin(a, short);
    ToSignFlat(long, short, Scope(a.region), hash, Ascii("\n"));
  }

  // The key and the authorization header

  /** The key is the secret hashed with the parts of the credential scope, one after the other. */
  lemma SigningKeyIsChained(a: Account, short: Text)
    ensures SigningKey(a, short) == Chained(a.sha, Ascii("AWS4") + a.credentials.secretAccessKey, ScopeOf(a, short))
  {
    hide Hmac, Ascii;
    var sha, key, scope := a.sha, Ascii("AWS4") + a.credentials.secretAccessKey, ScopeOf(a, short);
    var date := Hmac(sha, key, scope[0]);
    var region := Hmac(sha, date, scope[1]);
    var service := Hmac(sha, region, scope[2]);
    assert scope[1..] == [a.region, Ascii("dynamodb"), Ascii("aws4_request")];
    assert scope[1..][1..] == [Ascii("dynamodb"), Ascii("aws4_request")];
    assert Chained(sha, date, scope[1..]) == Chained(sha, region, scope[1..][1..]);
    assert scope[1..][1..][1..] == [Ascii("aws4_request")];
    assert Chained(sha, service, [Ascii("aws4_request")]) == Hmac(sha, service, Ascii("aws4_request")) by {
      assert [Ascii("aws4_request")][1..] == [];
    }
  }

  lemma CredentialText()
    ensures Ascii("AWS4-HMAC-SHA256 Credential=") == ALGORITHM + Ascii(" Credential=")
  {
    assert "AWS4-HMAC-SHA256 Credential=" == "AWS4-HMAC-SHA256" + " Credential=";
    AsciiAppend("AWS4-HMAC-SHA256", " Credential=");
  }

  lemma RenderThree(p: Part, q: Part, r: Part, values: map<Tag, Text>)
    ensures Render([p, q, r], values) == RenderPart(p, values) + RenderPart(q, values) + RenderPart(r, values)
  {
    hide Render, RenderPart;
    RenderTwo(p, q, values);
    RenderSnoc([p, q], r, values);
    assert [p, q] + [r] == [p, q, r];
  }

  lemma CredentialJoin(id: Text, a: Account, short: Text)
    ensures Join([id] + ScopeOf(a, short), Ascii("/")) == id + (Ascii("/") + (short + Scope(a.region)))
  {
    hide Join, Ascii, Scope;
    JoinCons(id, ScopeOf(a, short), Ascii("/"));
    ScopeJoin(a, short);
  }

  lemma AuthorizationFlat(alg: Text, kind: Text, id: Text, slash: Text, short: Text, scope: Text, signed: Text,
                          names: Text, sig: Text, value: Text)
    ensures ((alg + kind) + id + slash + short + (scope + signed)) + names + (sig + value)
            == alg + kind + (id + (slash + (short + scope))) + signed + names + sig + value
  {
    var start := (alg + kind) + id + slash + short;
    Rebracket(start, scope, signed);
    RightNested(alg + kind, id, slash, short, scope);
    Rebracket((start + (scope + signed)) + names, sig, value);
  }

  /** The authorization header names just the headers that are sent, and carries the signature given. */
  lemma HeaderIsAuthorization(a: Account, body: Text, long: Text, short: Text, signature: Text)
    ensures Render(AuthHeaderTemplate(a.region, a.credentials), map[TimeShort := short, Signature := signature])
            == Authorization(a.credentials.accessKeyID, ScopeOf(a, short),
                             SignedNames(RequestHeaders(a, body, long)), signature)
  {
    hide Render, Ascii, Join, ScopeOf, Scope, ALGORITHM, NamesTemplate, SignedNames, RequestHeaders;
    var values := map[TimeShort := short, Signature := signature];
    var id, token, scope := a.credentials.accessKeyID, a.credentials.sessionToken, Scope(a.region);
    var first := Literal(Ascii("AWS4-HMAC-SHA256 Credential=") + id + Ascii("/"));
    var third := Literal(scope + Ascii(", SignedHeaders="));
    var sig := Literal(Ascii(", Signature="));
    RenderAppend([first, Hole(TimeShort), third] + NamesTemplate(token), [sig, Hole(Signature)], values);
    RenderAppend([first, Hole(TimeShort), third], NamesTemplate(token), values);
    RenderThree(first, Hole(TimeShort), third, values);
    RenderTwo(sig, Hole(Signature), values);
    HeaderNames(a, body, long, values);
    CredentialText();
    CredentialJoin(id, a, short);
    AuthorizationFlat(ALGORITHM, Ascii(" Credential="), id, Ascii("/"), short, scope, Ascii(", SignedHeaders="),
                      SignedNames(RequestHeaders(a, body, long)), Ascii(", Signature="), signature);
  }

  /** What a service that follows the standard expects for a GetItem request with these headers. */
  function Expected(a: Account, body: Text, long: Text, short: Text): Text {
    var hs, scope := RequestHeaders(a, body, long), ScopeOf(a, short);
    var canonical := Canonical(Ascii("POST"), Ascii("/"), [], hs, Hex(Digest(a.sha, body)));
    var key := Chained(a.sha, Ascii("AWS4") + a.credentials.secretAccessKey, scope);
    var signature := Hex(Hmac(a.sha, key, ToSign(long, scope, Hex(Digest(a.sha, canonical)))));
    Authorization(a.credentials.accessKeyID, scope, SignedNames(hs), signature)
  }

  /**
   The signed request is one the service accepts: the authorization is what
   the standard makes of the headers the request carries, and the time and
   the token sent are the ones among those headers.
   */
  lemma SignedAsExpected(a: Account, body: Text, long: Text, short: Text)
    ensures var signed, hs := Signed(a, body, long, short), RequestHeaders(a, body, long);
            && signed.authorization == Expected(a, body, long, short)
            && Header(Ascii("x-amz-date"), signed.date) in hs
            && (signed.token.None? <==> a.credentials.sessionToken == [])
            && (signed.token.Some? ==> Header(Ascii("x-amz-security-token"), signed.token.value) in hs)
            && |hs| == if signed.token.Some? then 7 else 6
  {
    hide Render, Ascii, Decimal, Hex, Hmac, Canonical, ToSign, Authorization, ScopeOf, SigningKey, SignedNames;
    hide StringToSign, CanonicalRequest;
    CanonicalRequestIsCanonical(a, body, long);
    StringToSignIsToSign(a, body, long, short);
    SigningKeyIsChained(a, short);
    HeaderIsAuthorization(a, body, long, short, RequestSignature(a, body, long, short));
    var hs := RequestHeaders(a, body, long);
    assert hs[4] == Header(Ascii("x-amz-date"), long);
    if a.credentials.sessionToken != [] {
      assert hs[5] == Header(Ascii("x-amz-security-token"), a.credentials.sessionToken);
    }
  }

  // The order the standard asks for

  /** Byte by byte, a prefix first. */
  ghost predicate Before(s: Text, t: Text) {
    exists k :: 0 <= k <= |s| && k < |t| && s[..k] == t[..k] && (k == |s| || s[k] < t[k])
  }

  lemma BeforeAt(s: Text, t: Text, k: nat)
    requires k < |s| && k < |t| && s[..k] == t[..k] && s[k] < t[k]
    ensures Before(s, t)
  {}

  lemma ContentOrder()
    ensures Before(Ascii("accept-encoding"), Ascii("content-length"))
    ensures Before(Ascii("content-length"), Ascii("content-type"))
    ensures Before(Ascii("content-type"), Ascii("host"))
    ensures Before(Ascii("host"), Ascii("x-amz-date"))
  {
    BeforeAt(Ascii("accept-encoding"), Ascii("content-length"), 0);
    BeforeAt(Ascii("content-length"), Ascii("content-type"), 8);
    BeforeAt(Ascii("content-type"), Ascii("host"), 0);
    BeforeAt(Ascii("host"), Ascii("x-amz-date"), 0);
  }

  lemma AmzOrder()
    ensures Before(Ascii("x-amz-date"), Ascii("x-amz-security-token"))
    ensures Before(Ascii("x-amz-security-token"), Ascii("x-amz-target"))
    ensures Before(Ascii("x-amz-date"), Ascii("x-amz-target"))
  {
    BeforeAt(Ascii("x-amz-date"), Ascii("x-amz-security-token"), 6);
    BeforeAt(Ascii("x-amz-security-token"), Ascii("x-amz-target"), 6);
    BeforeAt(Ascii("x-amz-date"), Ascii("x-amz-target"), 6);
  }

  /** The headers are signed in the order of their names, each once. */
  lemma HeadersSorted(a: Account, body: Text, long: Text)
    ensures var hs := RequestHeaders(a, body, long);
            forall i :: 0 <= i < |hs| - 1 ==> Before(hs[i].name, hs[i + 1].name)
  {
    hide Ascii, Before;
    ContentOrder();
    AmzOrder();
  }
}
