/**
 The TLS ClientHello parser: handshake bytes gathered from records, then one
 message body read field by field.  Input that is cut short is never mistaken
 for input that is wrong.
 */
module ClientHello {
  import opened Wrappers

  type Byte = x: int | 0 <= x < 256
  type Bytes = seq<Byte>

  const MAX_HELLO: nat := 0x10000
  const MAX_RECORD: nat := 18432

  /** What is observable of a hello: version, first cipher, server name, first protocol. */
  datatype Context = Context(version: nat, cipher: nat, sni: Bytes, alpn: Bytes)

  datatype Outcome = Incomplete | Invalid | Parsed(context: Context)

  function U16(high: Byte, low: Byte): (n: nat)
    ensures n < 0x10000
  {
    high * 256 + low
  }

  function U24(high: Byte, middle: Byte, low: Byte): nat {
    high * 0x10000 + middle * 0x100 + low
  }

  // ------------------------------------------------------------ the records

  /** What the gathered handshake bytes say; `Incomplete` asks for another record. */
  function Message(h: Bytes): Outcome {
    if |h| < 4 then Incomplete
    else if h[0] != 1 then Invalid
    else
      var length := U24(h[1], h[2], h[3]);
      if length < 34 || length + 4 > MAX_HELLO then Invalid
      else if |h| < length + 4 then Incomplete
      else Body(h[4..length + 4])
  }

  function Records(data: Bytes, gathered: Bytes): Outcome {
    if |data| < 5 then Incomplete
    else if data[0] != 22 || data[1] != 3 || data[2] > 4 then Invalid
    else
      var length := U16(data[3], data[4]);
      if length == 0 || length > MAX_RECORD || |gathered| + length > MAX_HELLO then Invalid
      else if |data| - 5 < length then Incomplete
      else
        var h := gathered + data[5..5 + length];
        if Message(h) == Incomplete then Records(data[5 + length..], h) else Message(h)
  }

  // --------------------------------------------------------------- the body

  function Body(hello: Bytes): (o: Outcome)
    ensures o != Incomplete
  {
    if |hello| < 35 then Invalid
    else SessionPart(hello[34..], U16(hello[0], hello[1]))
  }

  /** From the session id on; each part receives what is left of the message. */
  function SessionPart(rest: Bytes, version: nat): (o: Outcome)
    requires |rest| >= 1
    ensures o != Incomplete
  {
    var length := rest[0];
    if length > 32 || |rest| - 1 < length + 2 then Invalid
    else CipherPart(rest[1 + length..], version)
  }

  function CipherPart(rest: Bytes, version: nat): (o: Outcome)
    requires |rest| >= 2
    ensures o != Incomplete
  {
    var length := U16(rest[0], rest[1]);
    if length < 2 || length % 2 != 0 || |rest| - 2 < length + 1 then Invalid
    else CompressionPart(rest[2 + length..], Context(version, U16(rest[2], rest[3]), [], []))
  }

  function CompressionPart(rest: Bytes, c: Context): (o: Outcome)
    requires |rest| >= 1
    ensures o != Incomplete
  {
    var length := rest[0];
    if length == 0 || |rest| - 1 < length then Invalid
    else ExtensionPart(rest[1 + length..], c)
  }

  function ExtensionPart(rest: Bytes, c: Context): (o: Outcome)
    ensures o != Incomplete
  {
    if |rest| == 0 then Parsed(c)
    else if |rest| < 2 || U16(rest[0], rest[1]) != |rest| - 2 then Invalid
    else
      var d := Extensions(rest[2..], c);
      if d.None? then Invalid else Parsed(d.value)
  }

  function Extensions(rest: Bytes, c: Context): Option<Context> {
    if |rest| == 0 then Some(c)
    else if |rest| < 4 then None
    else
      var length := U16(rest[2], rest[3]);
      if length > |rest| - 4 then None
      else
        var d := Extension(U16(rest[0], rest[1]), rest[4..4 + length], c);
        if d.None? then None else Extensions(rest[4 + length..], d.value)
  }

  function Extension(typ: nat, body: Bytes, c: Context): Option<Context> {
    if typ == 0 then
      if |body| < 2 || U16(body[0], body[1]) != |body| - 2 then None
      else
        var sni := Names(body[2..], c.sni);
        if sni.None? then None else Some(c.(sni := sni.value))
    else if typ == 16 then
      if |body| < 2 || U16(body[0], body[1]) != |body| - 2 then None
      else
        var alpn := Protocols(body[2..], c.alpn);
        if alpn.None? then None else Some(c.(alpn := alpn.value))
    else if typ == 43 then
      if |body| < 3 || body[0] != |body| - 1 || body[0] % 2 != 0 then None
      else Some(c.(version := Versions(body[1..], c.version)))
    else Some(c)
  }

  /** A host name the parser keeps: the right type, not too long, without a zero byte. */
  predicate Acceptable(typ: Byte, name: Bytes) {
    typ == 0 && |name| <= 253 && 0 !in name
  }

  function Names(rest: Bytes, sni: Bytes): Option<Bytes> {
    if |rest| == 0 then Some(sni)
    else if |rest| < 3 then None
    else
      var length := U16(rest[1], rest[2]);
      if length == 0 || length > |rest| - 3 then None
      else Names(rest[3 + length..], if sni == [] && Acceptable(rest[0], rest[3..3 + length]) then rest[3..3 + length]
                 else sni)
  }

  function Protocols(rest: Bytes, alpn: Bytes): Option<Bytes> {
    if |rest| == 0 then Some(alpn)
    else
      var length := rest[0];
      if length == 0 || length > |rest| - 1 then None
      else Protocols(rest[1 + length..], if alpn == [] then rest[1..1 + length] else alpn)
  }

  function Versions(offered: Bytes, version: nat): nat
    requires |offered| % 2 == 0
  {
    if |offered| == 0 then version
    else Versions(offered[2..], if U16(offered[0], offered[1]) == 0x0304 then 0x0304 else version)
  }

  // -------------------------------------------------------------- the parser

  /** `ParseTLSClientHello` */
  method ParseTLSClientHello(data: Bytes) returns (r: Outcome)
    ensures r == Records(data, [])
  {
    hide Message;
    var handshake: Bytes, position := [], 0;
    while position < |data|
      invariant 0 <= position <= |data|
      invariant Records(data, []) == Records(data[position..], handshake)
      decreases |data| - position
    {
      ghost var rest := data[position..];
      if |data| - position < 5 { return Incomplete; }
      var header := data[position..position + 5];
      assert header == rest[..5];
      if header[0] != 22 || header[1] != 3 || header[2] > 4 { return Invalid; }
      var recordLength := U16(header[3], header[4]);
      if recordLength == 0 || recordLength > MAX_RECORD || |handshake| + recordLength > MAX_HELLO { return Invalid; }
      position := position + 5;
      if |data| - position < recordLength { return Incomplete; }
      assert data[position..position + recordLength] == rest[5..5 + recordLength];
      assert rest[5 + recordLength..] == data[position + recordLength..];
      handshake := handshake + data[position..position + recordLength];
      position := position + recordLength;
      r := ParseMessage(handshake);
      if r != Incomplete { return; }
    }
    r := Incomplete;
  }

  /** The check of the gathered bytes after each record. */
  method ParseMessage(handshake: Bytes) returns (r: Outcome)
    ensures r == Message(handshake)
  {
    hide Body;
    if |handshake| < 4 { return Incomplete; }
    if handshake[0] != 1 { return Invalid; }
    var helloLength := U24(handshake[1], handshake[2], handshake[3]);
    if helloLength < 34 || helloLength + 4 > MAX_HELLO { return Invalid; }
    if |handshake| < helloLength + 4 { return Incomplete; }
    r := ParseBody(handshake[4..helloLength + 4]);
  }

  /** `parseClientHelloBody`, whose position moves through the message part by part. */
  method ParseBody(hello: Bytes) returns (r: Outcome)
    ensures r == Body(hello)
  {
    hide SessionPart;
    if |hello| < 35 { return Invalid; }
    r := ParseSession(hello, 34, U16(hello[0], hello[1]));
  }

  method ParseSession(hello: Bytes, start: nat, version: nat) returns (r: Outcome)
    requires start < |hello|
    ensures r == SessionPart(hello[start..], version)
  {
    hide CipherPart;
    var sessionLength := hello[start];
    var position := start + 1;
    if sessionLength > 32 || |hello| - position < sessionLength + 2 { return Invalid; }
    assert hello[start..][1 + sessionLength..] == hello[position + sessionLength..];
    r := ParseCiphers(hello, position + sessionLength, version);
  }

  method ParseCiphers(hello: Bytes, start: nat, version: nat) returns (r: Outcome)
    requires start + 2 <= |hello|
    ensures r == CipherPart(hello[start..], version)
  {
    hide CompressionPart;
    var ciphersLength := U16(hello[start], hello[start + 1]);
    var position := start + 2;
    if ciphersLength < 2 || ciphersLength % 2 != 0 || |hello| - position < ciphersLength + 1 { return Invalid; }
    assert hello[start..][2 + ciphersLength..] == hello[position + ciphersLength..];
    r := ParseCompression(hello, position + ciphersLength,
                          Context(version, U16(hello[position], hello[position + 1]), [], []));
  }

  method ParseCompression(hello: Bytes, start: nat, context: Context) returns (r: Outcome)
    requires start < |hello|
    ensures r == CompressionPart(hello[start..], context)
  {
    hide Extensions;
    var compressionLength := hello[start];
    var position := start + 1;
    if compressionLength == 0 || |hello| - position < compressionLength { return Invalid; }
    position := position + compressionLength;
    ghost var rest := hello[start..][1 + compressionLength..];
    assert rest == hello[position..];
    if position == |hello| { return Parsed(context); }
    if |hello| - position < 2 { return Invalid; }
    var extensionsLength := U16(hello[position], hello[position + 1]);
    position := position + 2;
    if extensionsLength != |hello| - position { return Invalid; }
    assert rest[2..] == hello[position..];
    var parsed := ParseExtensions(hello[position..], context);
    r := if parsed.None? then Invalid else Parsed(parsed.value);
  }

  method ParseExtensions(block: Bytes, initial: Context) returns (r: Option<Context>)
    ensures r == Extensions(block, initial)
  {
    var extensions, context := block, initial;
    while |extensions| > 0
      invariant Extensions(block, initial) == Extensions(extensions, context)
      decreases |extensions|
    {
      if |extensions| < 4 { return None; }
      var typ, length := U16(extensions[0], extensions[1]), U16(extensions[2], extensions[3]);
      ghost var all := extensions;
      extensions := extensions[4..];
      if length > |extensions| { return None; }
      var body := extensions[..length];
      extensions := extensions[length..];
      assert body == all[4..4 + length] && extensions == all[4 + length..];
      match typ {
        case 0 =>
          if |body| < 2 || U16(body[0], body[1]) != |body| - 2 { return None; }
          var sni := ParseNames(body[2..], context.sni);
          if sni.None? { return None; }
          context := context.(sni := sni.value);
        case 16 =>
          if |body| < 2 || U16(body[0], body[1]) != |body| - 2 { return None; }
          var alpn := ParseProtocols(body[2..], context.alpn);
          if alpn.None? { return None; }
          context := context.(alpn := alpn.value);
        case 43 =>
          if |body| < 3 || body[0] != |body| - 1 || body[0] % 2 != 0 { return None; }
          var version := ParseVersions(body[1..], context.version);
          context := context.(version := version);
        case _ =>
      }
    }
    r := Some(context);
  }

  method ParseNames(list: Bytes, initial: Bytes) returns (r: Option<Bytes>)
    ensures r == Names(list, initial)
  {
    var names, sni := list, initial;
    while |names| > 0
      invariant Names(list, initial) == Names(names, sni)
      decreases |names|
    {
      if |names| < 3 { return None; }
      var typ, length := names[0], U16(names[1], names[2]);
      ghost var all := names;
      names := names[3..];
      if length == 0 || length > |names| { return None; }
      assert names[..length] == all[3..3 + length] && names[length..] == all[3 + length..];
      if typ == 0 && sni == [] && length <= 253 && 0 !in names[..length] { sni := names[..length]; }
      names := names[length..];
    }
    r := Some(sni);
  }

  method ParseProtocols(list: Bytes, initial: Bytes) returns (r: Option<Bytes>)
    ensures r == Protocols(list, initial)
  {
    var protocols, alpn := list, initial;
    while |protocols| > 0
      invariant Protocols(list, initial) == Protocols(protocols, alpn)
      decreases |protocols|
    {
      var length := protocols[0];
      ghost var all := protocols;
      protocols := protocols[1..];
      if length == 0 || length > |protocols| { return None; }
      assert protocols[..length] == all[1..1 + length] && protocols[length..] == all[1 + length..];
      if alpn == [] { alpn := protocols[..length]; }
      protocols := protocols[length..];
    }
    r := Some(alpn);
  }

  method ParseVersions(list: Bytes, initial: nat) returns (version: nat)
    requires |list| % 2 == 0
    ensures version == Versions(list, initial)
  {
    var offered := list;
    version := initial;
    while |offered| > 0
      invariant |offered| % 2 == 0
      invariant Versions(list, initial) == Versions(offered, version)
      decreases |offered|
    {
      if U16(offered[0], offered[1]) == 0x0304 { version := 0x0304; }
      offered := offered[2..];
    }
  }
}
