/** The request signer: shared scratch buffers, overwritten many times per request, and a cached day key. */
module Signer {
  import opened Bytes
  import opened Hashing
  import opened SigningSpec

  // Writing into buffers

  ghost predicate Readable(b: map<Tag, Slice>, out: Buffer)
    reads out
  {
    forall t <- b :: InBounds(b[t]) && b[t].arr != out.data
  }

  ghost function Texts(b: map<Tag, Slice>): map<Tag, Text>
    requires forall t <- b :: InBounds(b[t])
    reads set t <- b :: b[t].arr
  {
    map t <- b :: TextOf(b[t])
  }

  lemma RenderSnoc(template: seq<Part>, i: nat, values: map<Tag, Text>)
    requires i < |template|
    ensures Render(template[..i + 1], values) == Render(template[..i], values) + RenderPart(template[i], values)
  {
    assert template[..i + 1][..i] == template[..i];
  }

  /** Fills the template's holes; whatever the buffer held is gone. */
  method Execute(out: Buffer, template: seq<Part>, b: map<Tag, Slice>) returns (r: Slice)
    requires out.Valid() && Readable(b, out)
    modifies out, out.data
    ensures out.Valid() && r == Slice(out.data, out.len)
    ensures TextOf(r) == Render(template, old(Texts(b)))
    ensures out.data == old(out.data) || fresh(out.data)
  {
    hide Render;
    ghost var values := Texts(b);
    out.Resize(0);
    var i := 0;
    assert out.Contents() == Render(template[..0], values) by { RenderNothing(values); }
    while i < |template|
      invariant i <= |template|
      invariant out.Valid() && Readable(b, out) && Texts(b) == values
      invariant out.data == old(out.data) || fresh(out.data)
      invariant out.Contents() == Render(template[..i], values)
    {
      RenderSnoc(template, i, values);
      match template[i] {
        case Literal(text) =>
          out.Append(text);
        case Hole(tag) =>
          if tag in b {
            assert values[tag] == TextOf(b[tag]);
            out.Append(b[tag].arr[..b[tag].len]);
          }
      }
      i := i + 1;
    }
    assert template[..i] == template;
    r := out.View();
  }

  lemma RenderNothing(values: map<Tag, Text>)
    ensures Render([], values) == []
  {}

  /** Two digits a byte, read from one array and written to another. */
  method HexToBuffer(data: Slice, buffer: Buffer) returns (r: Slice)
    requires InBounds(data) && buffer.Valid() && data.arr != buffer.data
    modifies buffer, buffer.data
    ensures buffer.Valid() && r == Slice(buffer.data, buffer.len) && TextOf(r) == Hex(TextOf(data))
    ensures buffer.data == old(buffer.data) || fresh(buffer.data)
  {
    buffer.Resize(2 * data.len);
    var i := 0;
    assert buffer.data[..0] == Hex(data.arr[..0]);
    while i < data.len
      invariant i <= data.len && buffer.len == 2 * data.len <= buffer.data.Length
      invariant buffer.data == old(buffer.data) || fresh(buffer.data)
      invariant data.arr != buffer.data && TextOf(data) == old(TextOf(data))
      invariant buffer.data[..2 * i] == Hex(data.arr[..i])
    {
      ghost var before := buffer.data[..2 * i];
      buffer.data[2 * i] := HexDigit(data.arr[i] / 16);
      buffer.data[2 * i + 1] := HexDigit(data.arr[i] % 16);
      assert buffer.data[..2 * i] == before;
      assert data.arr[..i + 1][..i] == data.arr[..i];
      i := i + 1;
    }
    r := buffer.View();
  }

  /** One link of the chain: the key is the buffer's own contents, which the link overwrites. */
  method Link(hasher: Hasher, key: Slice, text: Text, buffer: Buffer) returns (r: Slice)
    requires hasher.Valid() && InBounds(key) && key.arr != hasher.ipad && key.arr != hasher.opad
    requires buffer.Valid() && buffer != hasher.sumBuffer && !hasher.Private(buffer.data)
    modifies hasher, hasher.ipad, hasher.opad, hasher.sumBuffer, hasher.sumBuffer.data, buffer, buffer.data
    ensures hasher.Valid() && buffer.Valid() && !hasher.Private(buffer.data)
    ensures r == Slice(buffer.data, buffer.len) && TextOf(r) == Hmac(hasher.sha, old(TextOf(key)), text)
    ensures buffer.data == old(buffer.data) || fresh(buffer.data)
    ensures hasher.sumBuffer.data == old(hasher.sumBuffer.data) || fresh(hasher.sumBuffer.data)
  {
    hide Hmac;
    var data := FromText(text);
    r := hasher.HmacSha256(key, data, buffer);
  }

  /** The day's signing key, through one buffer. */
  method DayKey(hasher: Hasher, account: Account, day: Slice, buffer: Buffer) returns (r: Slice)
    requires hasher.Valid() && hasher.sha == account.sha && InBounds(day) && !hasher.Private(day.arr)
    requires buffer.Valid() && buffer != hasher.sumBuffer && !hasher.Private(buffer.data)
    modifies hasher, hasher.ipad, hasher.opad, hasher.sumBuffer, hasher.sumBuffer.data, buffer, buffer.data
    ensures hasher.Valid() && buffer.Valid() && !hasher.Private(buffer.data)
    ensures r == Slice(buffer.data, buffer.len) && TextOf(r) == SigningKey(account, old(TextOf(day)))
    ensures buffer.data == old(buffer.data) || fresh(buffer.data)
    ensures hasher.sumBuffer.data == old(hasher.sumBuffer.data) || fresh(hasher.sumBuffer.data)
  {
    hide Hmac, Ascii;
    var secret := FromText(Ascii("AWS4") + account.credentials.secretAccessKey);
    r := hasher.HmacSha256(secret, day, buffer);
    r := Link(hasher, r, account.region, buffer);
    r := Link(hasher, r, Ascii("dynamodb"), buffer);
    r := Link(hasher, r, Ascii("aws4_request"), buffer);
  }

  class Signer {
    const account: Account
    const hasher: Hasher
    /** The signing key of the day in keyDate; both are copies in arrays of their own. */
    var key: array<byte>
    var keyDate: array<byte>

    const hashBuffer: Buffer
    const hexEncodeBuffer: Buffer
    const templateBuffer: Buffer
    const timeLong: Buffer
    const timeShort: Buffer

    ghost predicate DistinctBuffers() {
      && hashBuffer != hexEncodeBuffer
      && templateBuffer !in {hashBuffer, hexEncodeBuffer}
      && timeLong !in {hashBuffer, hexEncodeBuffer, templateBuffer}
      && timeShort !in {hashBuffer, hexEncodeBuffer, templateBuffer, timeLong}
      && hasher.sumBuffer !in {hashBuffer, hexEncodeBuffer, templateBuffer, timeLong, timeShort}
    }

    ghost predicate DistinctArrays()
      reads this, hasher, hasher.sumBuffer, hashBuffer, hexEncodeBuffer, templateBuffer, timeLong, timeShort
    {
      && Apart(hashBuffer.data) && hexEncodeBuffer.data != hashBuffer.data
      && Apart(hexEncodeBuffer.data)
      && Apart(templateBuffer.data) && templateBuffer.data !in {hashBuffer.data, hexEncodeBuffer.data}
      && Apart(timeLong.data) && timeLong.data !in {hashBuffer.data, hexEncodeBuffer.data, templateBuffer.data}
      && Apart(timeShort.data)
      && timeShort.data !in {hashBuffer.data, hexEncodeBuffer.data, templateBuffer.data, timeLong.data}
      && !hasher.Private(key) && !hasher.Private(keyDate) && key != keyDate
    }

    ghost predicate Apart(arr: array<byte>)
      reads this, hasher, hasher.sumBuffer
    {
      !hasher.Private(arr) && arr != key && arr != keyDate
    }

    ghost predicate Shaped()
      reads this, hasher, hasher.sumBuffer, hashBuffer, hexEncodeBuffer, templateBuffer, timeLong, timeShort
    {
      && DistinctBuffers() && DistinctArrays()
      && hasher.Valid() && hasher.sha == account.sha
      && hashBuffer.Valid() && hexEncodeBuffer.Valid() && templateBuffer.Valid()
      && timeLong.Valid() && timeShort.Valid()
    }

    ghost function Footprint(): set<object>
      reads this, hasher, hasher.sumBuffer, hashBuffer, hexEncodeBuffer, templateBuffer, timeLong, timeShort
    {
      {this, hasher, hasher.ipad, hasher.opad, hasher.sumBuffer, hasher.sumBuffer.data, hashBuffer, hashBuffer.data,
       hexEncodeBuffer, hexEncodeBuffer.data, templateBuffer, templateBuffer.data, timeLong, timeLong.data,
       timeShort, timeShort.data}
    }

    /** The cached key belongs to the cached day. */
    ghost predicate Cached()
      reads this, key, keyDate
    {
      keyDate[..] != [] ==> key[..] == SigningKey(account, keyDate[..])
    }

    ghost predicate Valid()
      reads this, hasher, hasher.sumBuffer, hashBuffer, hexEncodeBuffer, templateBuffer, timeLong, timeShort
      reads key, keyDate
    {
      Shaped() && Cached()
    }

    constructor (account: Account)
      ensures Valid() && this.account == account
      ensures fresh(hasher) && fresh(hasher.ipad) && fresh(hasher.opad) && fresh(hasher.sumBuffer)
      ensures fresh(hasher.sumBuffer.data) && fresh(hashBuffer) && fresh(hashBuffer.data)
      ensures fresh(hexEncodeBuffer) && fresh(hexEncodeBuffer.data) && fresh(templateBuffer)
      ensures fresh(templateBuffer.data) && fresh(timeLong) && fresh(timeLong.data)
      ensures fresh(timeShort) && fresh(timeShort.data) && fresh(key) && fresh(keyDate)
    {
      this.account := account;
      hasher := new Hasher(account.sha);
      key := new byte[0];
      keyDate := new byte[0];
      hashBuffer := new Buffer();
      hexEncodeBuffer := new Buffer();
      templateBuffer := new Buffer();
      timeLong := new Buffer();
      timeShort := new Buffer();
    }

    /** Copies the derived key and the day out of the buffers the next call overwrites. */
    method CopyKey() returns (copiedKey: array<byte>, copiedDay: array<byte>)
      requires Shaped()
      modifies hasher, hasher.ipad, hasher.opad, hasher.sumBuffer, hasher.sumBuffer.data, hashBuffer, hashBuffer.data
      ensures Shaped() && fresh(copiedKey) && fresh(copiedDay) && copiedKey != copiedDay
      ensures copiedKey !in {hashBuffer.data, hasher.sumBuffer.data}
      ensures copiedDay !in {hashBuffer.data, hasher.sumBuffer.data}
      ensures copiedDay[..] == timeShort.Contents() && copiedKey[..] == SigningKey(account, timeShort.Contents())
      ensures hashBuffer.data == old(hashBuffer.data) || fresh(hashBuffer.data)
      ensures hasher.sumBuffer.data == old(hasher.sumBuffer.data) || fresh(hasher.sumBuffer.data)
    {
      hide SigningKey;
      var short := timeShort.View();
      var last := DayKey(hasher, account, short, hashBuffer);
      var copied := FromText(last.arr[..last.len]);
      var day := FromText(short.arr[..short.len]);
      copiedKey, copiedDay := copied.arr, day.arr;
      assert copiedKey[..] == TextOf(copied) && copiedDay[..] == TextOf(day);
    }

    method DeriveKey()
      requires Shaped()
      modifies hasher, hasher.ipad, hasher.opad, hasher.sumBuffer, hasher.sumBuffer.data, hashBuffer, hashBuffer.data
      modifies `key, `keyDate
      ensures Shaped() && keyDate[..] == timeShort.Contents() && key[..] == SigningKey(account, timeShort.Contents())
      ensures fresh(key) && fresh(keyDate)
      ensures hashBuffer.data == old(hashBuffer.data) || fresh(hashBuffer.data)
      ensures hasher.sumBuffer.data == old(hasher.sumBuffer.data) || fresh(hasher.sumBuffer.data)
    {
      hide SigningKey;
      var k, d := CopyKey();
      key, keyDate := k, d;
    }

    method SetTimes(long: Text, short: Text)
      requires Shaped()
      modifies timeLong, timeLong.data, timeShort, timeShort.data
      ensures Shaped() && timeLong.Contents() == long && timeShort.Contents() == short
      ensures timeLong.data == old(timeLong.data) || fresh(timeLong.data)
      ensures timeShort.data == old(timeShort.data) || fresh(timeShort.data)
    {
      timeLong.Resize(0);
      timeShort.Resize(0);
      timeLong.Append(long);
      timeShort.Append(short);
    }

    /** The data may lie in the template buffer, or in a buffer that is overwritten here. */
    method HashToHex(data: Slice) returns (r: Slice)
      requires Shaped() && InBounds(data)
      modifies hasher, hashBuffer, hashBuffer.data, hexEncodeBuffer, hexEncodeBuffer.data
      ensures Shaped() && r == Slice(hexEncodeBuffer.data, hexEncodeBuffer.len)
      ensures TextOf(r) == Hex(Digest(account.sha, old(TextOf(data))))
      ensures hashBuffer.data == old(hashBuffer.data) || fresh(hashBuffer.data)
      ensures hexEncodeBuffer.data == old(hexEncodeBuffer.data) || fresh(hexEncodeBuffer.data)
    {
      hide Hex;
      var sum := hasher.Sha256(data, hashBuffer);
      r := HexToBuffer(sum, hexEncodeBuffer);
    }

    method BuildCanonicalString(payloadHash: Slice, contentLength: nat) returns (r: Slice)
      requires Shaped() && payloadHash == Slice(hexEncodeBuffer.data, hexEncodeBuffer.len)
      modifies templateBuffer, templateBuffer.data
      ensures Shaped() && r == Slice(templateBuffer.data, templateBuffer.len)
      ensures TextOf(r) == Render(CanonicalTemplate(account.host, account.credentials.sessionToken),
                                  map[ContentLength := Decimal(contentLength), TimeLong := timeLong.Contents(),
                                      PayloadHash := hexEncodeBuffer.Contents()])
      ensures templateBuffer.data == old(templateBuffer.data) || fresh(templateBuffer.data)
    {
      hide Render, CanonicalTemplate, Decimal;
      var digits := FromText(Decimal(contentLength));
      var time := timeLong.View();
      var b := map[ContentLength := digits, TimeLong := time, PayloadHash := payloadHash];
      assert Texts(b) == map[ContentLength := Decimal(contentLength), TimeLong := timeLong.Contents(),
                             PayloadHash := hexEncodeBuffer.Contents()];
      r := Execute(templateBuffer, CanonicalTemplate(account.host, account.credentials.sessionToken), b);
    }

    method BuildStringToSign(requestHash: Slice) returns (r: Slice)
      requires Shaped() && requestHash == Slice(hexEncodeBuffer.data, hexEncodeBuffer.len)
      modifies templateBuffer, templateBuffer.data
      ensures Shaped() && r == Slice(templateBuffer.data, templateBuffer.len)
      ensures TextOf(r) == Render(StringToSignTemplate(account.region),
                                  map[TimeLong := timeLong.Contents(), TimeShort := timeShort.Contents(),
                                      RequestHash := hexEncodeBuffer.Contents()])
      ensures templateBuffer.data == old(templateBuffer.data) || fresh(templateBuffer.data)
    {
      hide Render, StringToSignTemplate;
      var long := timeLong.View();
      var short := timeShort.View();
      var b := map[TimeLong := long, TimeShort := short, RequestHash := requestHash];
      assert Texts(b) == map[TimeLong := timeLong.Contents(), TimeShort := timeShort.Contents(),
                             RequestHash := hexEncodeBuffer.Contents()];
      r := Execute(templateBuffer, StringToSignTemplate(account.region), b);
    }

    method BuildAuthHeader(signature: Slice) returns (r: Slice)
      requires Shaped() && signature == Slice(hexEncodeBuffer.data, hexEncodeBuffer.len)
      modifies templateBuffer, templateBuffer.data
      ensures Shaped() && r == Slice(templateBuffer.data, templateBuffer.len)
      ensures TextOf(r) == Render(AuthHeaderTemplate(account.region, account.credentials),
                                  map[TimeShort := timeShort.Contents(), Signature := hexEncodeBuffer.Contents()])
      ensures templateBuffer.data == old(templateBuffer.data) || fresh(templateBuffer.data)
    {
      hide Render, AuthHeaderTemplate;
      var short := timeShort.View();
      var b := map[TimeShort := short, Signature := signature];
      assert Texts(b) == map[TimeShort := timeShort.Contents(), Signature := hexEncodeBuffer.Contents()];
      r := Execute(templateBuffer, AuthHeaderTemplate(account.region, account.credentials), b);
    }

    /** Signs with the cached key, after replacing it if it is of another day. */
    method BuildSignature(strToSign: Slice) returns (r: Slice)
      requires Valid() && strToSign == Slice(templateBuffer.data, templateBuffer.len)
      requires timeShort.Contents() != []
      modifies `key, `keyDate
      modifies hasher, hasher.ipad, hasher.opad, hasher.sumBuffer, hasher.sumBuffer.data
      modifies hashBuffer, hashBuffer.data, hexEncodeBuffer, hexEncodeBuffer.data
      ensures Valid() && r == Slice(hexEncodeBuffer.data, hexEncodeBuffer.len)
      ensures TextOf(r) == Hex(Hmac(account.sha, SigningKey(account, timeShort.Contents()), templateBuffer.Contents()))
      ensures key == old(key) || fresh(key)
      ensures keyDate == old(keyDate) || fresh(keyDate)
      ensures hashBuffer.data == old(hashBuffer.data) || fresh(hashBuffer.data)
      ensures hexEncodeBuffer.data == old(hexEncodeBuffer.data) || fresh(hexEncodeBuffer.data)
      ensures hasher.sumBuffer.data == old(hasher.sumBuffer.data) || fresh(hasher.sumBuffer.data)
    {
      hide Hex, Hmac, SigningKey;
      if timeShort.data[..timeShort.len] != keyDate[..] {
        DeriveKey();
      }
      assert key[..] == SigningKey(account, timeShort.Contents());
      r := SignWithKey(strToSign);
    }

    method SignWithKey(strToSign: Slice) returns (r: Slice)
      requires Valid() && strToSign == Slice(templateBuffer.data, templateBuffer.len)
      modifies hasher, hasher.ipad, hasher.opad, hasher.sumBuffer, hasher.sumBuffer.data
      modifies hashBuffer, hashBuffer.data, hexEncodeBuffer, hexEncodeBuffer.data
      ensures Valid() && r == Slice(hexEncodeBuffer.data, hexEncodeBuffer.len)
      ensures TextOf(r) == Hex(Hmac(account.sha, key[..], templateBuffer.Contents()))
      ensures hashBuffer.data == old(hashBuffer.data) || fresh(hashBuffer.data)
      ensures hexEncodeBuffer.data == old(hexEncodeBuffer.data) || fresh(hexEncodeBuffer.data)
      ensures hasher.sumBuffer.data == old(hasher.sumBuffer.data) || fresh(hasher.sumBuffer.data)
    {
      hide Hex, Hmac, SigningKey;
      var k := Slice(key, key.Length);
      assert TextOf(k) == key[..];
      var sum := hasher.HmacSha256(k, strToSign, hashBuffer);
      r := HexToBuffer(sum, hexEncodeBuffer);
    }

    method CanonicalHash(body: Slice) returns (r: Slice)
      requires Shaped() && InBounds(body)
      modifies hasher, hashBuffer, hashBuffer.data, hexEncodeBuffer, hexEncodeBuffer.data
      modifies templateBuffer, templateBuffer.data
      ensures Shaped() && r == Slice(hexEncodeBuffer.data, hexEncodeBuffer.len)
      ensures TextOf(r) == Hex(Digest(account.sha, CanonicalRequest(account, old(TextOf(body)), timeLong.Contents())))
      ensures hashBuffer.data == old(hashBuffer.data) || fresh(hashBuffer.data)
      ensures hexEncodeBuffer.data == old(hexEncodeBuffer.data) || fresh(hexEncodeBuffer.data)
      ensures templateBuffer.data == old(templateBuffer.data) || fresh(templateBuffer.data)
    {
      hide Render, CanonicalTemplate, Decimal, Hex;
      ghost var text := TextOf(body);
      var payloadHash := HashToHex(body);
      var canonical := BuildCanonicalString(payloadHash, body.len);
      assert TextOf(canonical) == CanonicalRequest(account, text, timeLong.Contents());
      r := HashToHex(canonical);
    }

    method TextToSign(body: Slice) returns (r: Slice)
      requires Shaped() && InBounds(body)
      modifies hasher, hashBuffer, hashBuffer.data, hexEncodeBuffer, hexEncodeBuffer.data
      modifies templateBuffer, templateBuffer.data
      ensures Shaped() && r == Slice(templateBuffer.data, templateBuffer.len)
      ensures TextOf(r) == StringToSign(account, old(TextOf(body)), timeLong.Contents(), timeShort.Contents())
      ensures hashBuffer.data == old(hashBuffer.data) || fresh(hashBuffer.data)
      ensures hexEncodeBuffer.data == old(hexEncodeBuffer.data) || fresh(hexEncodeBuffer.data)
      ensures templateBuffer.data == old(templateBuffer.data) || fresh(templateBuffer.data)
    {
      hide Render, CanonicalRequest, StringToSignTemplate, Hex;
      var requestHash := CanonicalHash(body);
      r := BuildStringToSign(requestHash);
    }

    method RequestSigned(body: Slice) returns (r: Slice)
      requires Valid() && InBounds(body) && timeShort.Contents() != []
      modifies `key, `keyDate
      modifies hasher, hasher.ipad, hasher.opad, hasher.sumBuffer, hasher.sumBuffer.data
      modifies hashBuffer, hashBuffer.data, hexEncodeBuffer, hexEncodeBuffer.data, templateBuffer, templateBuffer.data
      ensures Valid() && r == Slice(hexEncodeBuffer.data, hexEncodeBuffer.len)
      ensures TextOf(r) == RequestSignature(account, old(TextOf(body)), timeLong.Contents(), timeShort.Contents())
      ensures key == old(key) || fresh(key)
      ensures keyDate == old(keyDate) || fresh(keyDate)
      ensures hashBuffer.data == old(hashBuffer.data) || fresh(hashBuffer.data)
      ensures hexEncodeBuffer.data == old(hexEncodeBuffer.data) || fresh(hexEncodeBuffer.data)
      ensures templateBuffer.data == old(templateBuffer.data) || fresh(templateBuffer.data)
      ensures hasher.sumBuffer.data == old(hasher.sumBuffer.data) || fresh(hasher.sumBuffer.data)
    {
      hide StringToSign, SigningKey, Hex, Hmac;
      var strToSign := TextToSign(body);
      assert key[..] == old(key[..]) && keyDate[..] == old(keyDate[..]);
      r := BuildSignature(strToSign);
    }

    /**
     Whatever earlier calls left in the buffers and whichever day's key is
     cached, the headers depend only on the account, the body and the time.
     The body must not lie in the two time buffers, which are written first.
     */
    method SignRequest(body: Slice, long: Text, short: Text) returns (headers: Headers)
      requires Valid() && InBounds(body) && body.arr != timeLong.data && body.arr != timeShort.data
      requires short != []
      modifies Footprint()
      ensures Valid() && headers == Signed(account, old(TextOf(body)), long, short)
      ensures fresh(Footprint() - old(Footprint()))
    {
      hide Render, AuthHeaderTemplate, SigningKey, RequestSignature;
      ghost var text := TextOf(body);
      SetTimes(long, short);
      assert key[..] == old(key[..]) && keyDate[..] == old(keyDate[..]) && TextOf(body) == text;
      var authorization := Authorize(body);
      headers := Headers(
        timeLong.data[..timeLong.len],
        authorization.arr[..authorization.len],
        if account.credentials.sessionToken == [] then None else Some(account.credentials.sessionToken));
    }

    method Authorize(body: Slice) returns (r: Slice)
      requires Valid() && InBounds(body) && timeShort.Contents() != []
      modifies `key, `keyDate
      modifies hasher, hasher.ipad, hasher.opad, hasher.sumBuffer, hasher.sumBuffer.data
      modifies hashBuffer, hashBuffer.data, hexEncodeBuffer, hexEncodeBuffer.data, templateBuffer, templateBuffer.data
      ensures Valid() && r == Slice(templateBuffer.data, templateBuffer.len)
      ensures TextOf(r) == Signed(account, old(TextOf(body)), timeLong.Contents(), timeShort.Contents()).authorization
      ensures hashBuffer.data == old(hashBuffer.data) || fresh(hashBuffer.data)
      ensures hexEncodeBuffer.data == old(hexEncodeBuffer.data) || fresh(hexEncodeBuffer.data)
      ensures templateBuffer.data == old(templateBuffer.data) || fresh(templateBuffer.data)
      ensures hasher.sumBuffer.data == old(hasher.sumBuffer.data) || fresh(hasher.sumBuffer.data)
    {
      hide Render, AuthHeaderTemplate, SigningKey, RequestSignature;
      var signature := RequestSigned(body);
      r := BuildAuthHeader(signature);
    }
  }

  datatype Request = Request(body: Text, long: Text, short: Text)

  /** Any sequence of requests, over any days, on a signer in any state. */
  method SignAll(signer: Signer, requests: seq<Request>) returns (headers: seq<Headers>)
    requires signer.Valid() && forall q <- requests :: q.short != []
    modifies signer.Footprint()
    ensures signer.Valid() && |headers| == |requests|
    ensures forall i :: 0 <= i < |requests| ==>
              headers[i] == Signed(signer.account, requests[i].body, requests[i].long, requests[i].short)
  {
    hide Signed, Signer.Valid;
    headers := [];
    for i := 0 to |requests|
      invariant signer.Valid() && fresh(signer.Footprint() - old(signer.Footprint()))
      invariant |headers| == i
      invariant forall k :: 0 <= k < i ==>
                  headers[k] == Signed(signer.account, requests[k].body, requests[k].long, requests[k].short)
    {
      var q := requests[i];
      assert q in requests;
      var body := FromText(q.body);
      var h := signer.SignRequest(body, q.long, q.short);
      headers := headers + [h];
    }
  }
}
