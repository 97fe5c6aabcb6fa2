/** What AWS Signature Version 4 makes of one DynamoDB GetItem request. */
module SigningSpec {
  import opened Bytes
  import opened Hashing

  function Ascii(s: string): Text { seq(|s|, i requires 0 <= i < |s| => AsciiChar(s[i])) }

  function AsciiChar(c: char): byte { if c as int < 128 then c as int else 0 }

  datatype Credentials = Credentials(accessKeyID: Text, secretAccessKey: Text, sessionToken: Text)

  // Numbers and hexadecimal text

  function Decimal(n: nat): Text {
    if n < 10 then [n + 48] else Decimal(n / 10) + [n % 10 + 48]
  }

  /** The number a row of digits stands for. */
  function Value(digits: seq<int>): int {
    if digits == [] then 0 else Value(digits[..|digits| - 1]) * 10 + (digits[|digits| - 1] - 48)
  }

  /** Digits only, no zero in front, and they read back. */
  lemma {:induction false} DecimalRoundTrip(n: nat)
    ensures Value(Decimal(n)) == n && Decimal(n) != []
    ensures forall c <- Decimal(n) :: 48 <= c < 58
    ensures n > 0 ==> Decimal(n)[0] != 48
  {
    if n < 10 {
      assert Decimal(n)[..0] == [];
    } else {
      DecimalRoundTrip(n / 10);
      assert Decimal(n)[..|Decimal(n)| - 1] == Decimal(n / 10);
    }
  }

  function HexDigit(d: nat): byte
    requires d < 16
  {
    if d < 10 then d + 48 else d + 87
  }

  function Hex(s: Text): Text {
    if s == [] then []
    else
      var b := s[|s| - 1];
      Hex(s[..|s| - 1]) + [HexDigit(b / 16), HexDigit(b % 16)]
  }

  function DigitValue(c: byte): nat { if c < 58 then (if c < 48 then 0 else c - 48) else if c < 87 then 0 else c - 87 }

  function Unhex(s: Text): (t: seq<int>) {
    if |s| < 2 then []
    else Unhex(s[..|s| - 2]) + [DigitValue(s[|s| - 2]) * 16 + DigitValue(s[|s| - 1])]
  }

  /** The sixteen digits in order, in lower case, as the standard demands. */
  lemma HexDigits(d: nat)
    requires d < 16
    ensures HexDigit(d) == "0123456789abcdef"[d] as int
  {}

  lemma DigitRoundTrip(d: nat)
    requires d < 16
    ensures DigitValue(HexDigit(d)) == d
  {}

  lemma UnhexSnoc(front: Text, hi: byte, lo: byte)
    ensures Unhex(front + [hi, lo]) == Unhex(front) + [DigitValue(hi) * 16 + DigitValue(lo)]
  {
    assert (front + [hi, lo])[..|front|] == front;
  }

  /** Hexadecimal text keeps every byte: two digits each, and they read back. */
  lemma {:induction false} HexRoundTrip(s: Text)
    ensures |Hex(s)| == 2 * |s| && Unhex(Hex(s)) == s
  {
    hide HexDigit, DigitValue, Unhex;
    if s == [] {
      assert Unhex([]) == [] by { UnhexNothing(); }
    } else {
      var front, b := s[..|s| - 1], s[|s| - 1];
      HexRoundTrip(front);
      UnhexSnoc(Hex(front), HexDigit(b / 16), HexDigit(b % 16));
      DigitRoundTrip(b / 16);
      DigitRoundTrip(b % 16);
      assert s == front + [b];
    }
  }

  lemma UnhexNothing()
    ensures Unhex([]) == []
  {}

  // Templates

  datatype Tag = ContentLength | TimeLong | TimeShort | PayloadHash | RequestHash | Signature
  datatype Part = Literal(text: Text) | Hole(tag: Tag)

  function RenderPart(p: Part, values: map<Tag, Text>): Text {
    match p
    case Literal(text) => text
    case Hole(tag) => if tag in values then values[tag] else []
  }

  function Render(template: seq<Part>, values: map<Tag, Text>): Text {
    if template == [] then []
    else Render(template[..|template| - 1], values) + RenderPart(template[|template| - 1], values)
  }

  /** The names of the signed headers, the token's only where there is one. */
  function NamesTemplate(token: Text): seq<Part> {
    [Literal(Ascii("accept-encoding;")), Literal(Ascii("content-length;")), Literal(Ascii("content-type;")),
     Literal(Ascii("host;")), Literal(Ascii("x-amz-date;"))]
    + (if token == [] then [] else [Literal(Ascii("x-amz-security-token;"))])
    + [Literal(Ascii("x-amz-target"))]
  }

  /** The header lines of the canonical request. */
  function LinesTemplate(host: Text, token: Text): seq<seq<Part>> {
    [[Literal(Ascii("accept-encoding:identity\n"))],
     [Literal(Ascii("content-length:")), Hole(ContentLength), Literal(Ascii("\n"))],
     [Literal(Ascii("content-type:application/x-amz-json-1.0\n"))],
     [Literal(Ascii("host:") + host + Ascii("\n"))],
     [Literal(Ascii("x-amz-date:")), Hole(TimeLong), Literal(Ascii("\n"))]]
    + (if token == [] then [] else [[Literal(Ascii("x-amz-security-token:") + token + Ascii("\n"))]])
    + [[Literal(Ascii("x-amz-target:DynamoDB_20120810.GetItem\n"))]]
  }

  function CanonicalTemplate(host: Text, token: Text): seq<Part> {
    [Literal(Ascii("POST\n/\n\n"))] + Flatten(LinesTemplate(host, token)) + [Literal(Ascii("\n"))]
    + NamesTemplate(token) + [Literal(Ascii("\n")), Hole(PayloadHash)]
  }

  function Scope(region: Text): Text { Ascii("/") + region + Ascii("/dynamodb/aws4_request") }

  function StringToSignTemplate(region: Text): seq<Part> {
    [Literal(Ascii("AWS4-HMAC-SHA256\n")), Hole(TimeLong), Literal(Ascii("\n")), Hole(TimeShort),
     Literal(Scope(region) + Ascii("\n")), Hole(RequestHash)]
  }

  function AuthHeaderTemplate(region: Text, credentials: Credentials): seq<Part> {
    [Literal(Ascii("AWS4-HMAC-SHA256 Credential=") + credentials.accessKeyID + Ascii("/")), Hole(TimeShort),
     Literal(Scope(region) + Ascii(", SignedHeaders="))]
    + NamesTemplate(credentials.sessionToken) + [Literal(Ascii(", Signature=")), Hole(Signature)]
  }

  // The signature

  datatype Account = Account(sha: Sha, region: Text, host: Text, credentials: Credentials)
  datatype Headers = Headers(date: Text, authorization: Text, token: Option<Text>)

  function CanonicalRequest(a: Account, body: Text, long: Text): Text {
    Render(CanonicalTemplate(a.host, a.credentials.sessionToken),
           map[ContentLength := Decimal(|body|), TimeLong := long, PayloadHash := Hex(Digest(a.sha, body))])
  }

  function StringToSign(a: Account, body: Text, long: Text, short: Text): Text {
    Render(StringToSignTemplate(a.region),
           map[TimeLong := long, TimeShort := short,
               RequestHash := Hex(Digest(a.sha, CanonicalRequest(a, body, long)))])
  }

  /** Depends on the day, not on the time or the request. */
  function SigningKey(a: Account, short: Text): Text {
    var date := Hmac(a.sha, Ascii("AWS4") + a.credentials.secretAccessKey, short);
    var region := Hmac(a.sha, date, a.region);
    var service := Hmac(a.sha, region, Ascii("dynamodb"));
    Hmac(a.sha, service, Ascii("aws4_request"))
  }

  function RequestSignature(a: Account, body: Text, long: Text, short: Text): Text {
    Hex(Hmac(a.sha, SigningKey(a, short), StringToSign(a, body, long, short)))
  }

  function Signed(a: Account, body: Text, long: Text, short: Text): Headers {
    Headers(
      long,
      Render(AuthHeaderTemplate(a.region, a.credentials),
             map[TimeShort := short, Signature := RequestSignature(a, body, long, short)]),
      if a.credentials.sessionToken == [] then None else Some(a.credentials.sessionToken))
  }
}
