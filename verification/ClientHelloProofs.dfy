/**
 The parser read against encoders: every well-formed hello, however it is cut
 into records, is read back; and an answer once given is never revised.
 */
module ClientHelloProofs {
  import opened Wrappers
  import opened ClientHello

  // ----------------------------------------------------------- never revised

  /** More handshake bytes do not change an answer. */
  lemma MessageMonotone(h: Bytes, more: Bytes)
    requires Message(h) != Incomplete
    ensures Message(h + more) == Message(h)
  {
    if h[0] == 1 {
      var length := U24(h[1], h[2], h[3]);
      if 34 <= length && length + 4 <= MAX_HELLO { assert (h + more)[4..length + 4] == h[4..length + 4]; }
    }
  }

  /** More input does not change an answer. */
  lemma {:induction false} PrefixMonotone(data: Bytes, more: Bytes, gathered: Bytes)
    requires Records(data, gathered) != Incomplete
    ensures Records(data + more, gathered) == Records(data, gathered)
    decreases |data|
  {
    hide Message;
    var all, length := data + more, U16(data[3], data[4]);
    assert all[..5] == data[..5];
    assert all[0] == data[0] && all[1] == data[1] && all[2] == data[2] && all[3] == data[3] && all[4] == data[4];
    if data[0] == 22 && data[1] == 3 && data[2] <= 4
       && length != 0 && length <= MAX_RECORD && |gathered| + length <= MAX_HELLO {
      assert all[5..5 + length] == data[5..5 + length];
      var h := gathered + data[5..5 + length];
      if Message(h) == Incomplete {
        assert all[5 + length..] == data[5 + length..] + more;
        PrefixMonotone(data[5 + length..], more, h);
      }
    }
  }

  // --------------------------------------------------------------- splitting

  function B16(n: nat): Bytes
    requires n < 0x10000
  {
    [n / 256, n % 256]
  }

  datatype Record = Record(minor: Byte, payload: Bytes)

  predicate ValidRecord(r: Record) {
    r.minor <= 4 && 1 <= |r.payload| <= MAX_RECORD
  }

  function EncodeRecords(rs: seq<Record>): Bytes
    requires forall r :: r in rs ==> ValidRecord(r)
  {
    if |rs| == 0 then []
    else
      assert rs[0] in rs;
      assert ValidRecord(rs[0]) && MAX_RECORD < 0x10000;
      [22, 3, rs[0].minor] + B16(|rs[0].payload|) + rs[0].payload + EncodeRecords(rs[1..])
  }

  function Payload(rs: seq<Record>): Bytes {
    if |rs| == 0 then [] else rs[0].payload + Payload(rs[1..])
  }

  /** No record that begins before the answer is known ends past the limit. */
  predicate Fits(rs: seq<Record>, gathered: Bytes) {
    |rs| == 0 ||
    var h := gathered + rs[0].payload;
    |h| <= MAX_HELLO && (Message(h) == Incomplete ==> Fits(rs[1..], h))
  }

  /**
   Record boundaries are invisible, for any amount of input: the answer is that
   of the joined payload, unless a record overruns the limit.
   */
  lemma {:induction false} SplitInvisible(rs: seq<Record>, gathered: Bytes)
    requires forall r :: r in rs ==> ValidRecord(r)
    requires Message(gathered) == Incomplete
    ensures Records(EncodeRecords(rs), gathered) ==
            if Fits(rs, gathered) then Message(gathered + Payload(rs)) else Invalid
  {
    hide Message;
    if |rs| == 0 {
      assert gathered + Payload(rs) == gathered;
    } else {
      var r, p := rs[0], rs[0].payload;
      assert r in rs;
      var header, tail := [22, 3, r.minor] + B16(|p|), EncodeRecords(rs[1..]);
      var data := header + p + tail;
      assert EncodeRecords(rs) == data;
      assert data[0] == 22 && data[1] == 3 && data[2] == r.minor && U16(data[3], data[4]) == |p|;
      assert data[5..5 + |p|] == p && data[5 + |p|..] == tail;
      assert gathered + Payload(rs) == gathered + p + Payload(rs[1..]);
      if Message(gathered + p) == Incomplete {
        SplitInvisible(rs[1..], gathered + p);
      } else {
        MessageMonotone(gathered + p, Payload(rs[1..]));
      }
    }
  }

  /** Input within the limit always fits. */
  lemma {:induction false} SmallFits(rs: seq<Record>, gathered: Bytes)
    requires |gathered| + |Payload(rs)| <= MAX_HELLO
    ensures Fits(rs, gathered)
  {
    if |rs| > 0 { SmallFits(rs[1..], gathered + rs[0].payload); }
  }

  /**
   Two ways to cut one payload disagree exactly when one fits, the other does
   not, and the payload is not refused anyway.
   */
  lemma SplitsAgree(rs: seq<Record>, ss: seq<Record>)
    requires forall r :: r in rs + ss ==> ValidRecord(r)
    requires Payload(rs) == Payload(ss)
    ensures (forall r :: r in rs ==> ValidRecord(r)) && (forall r :: r in ss ==> ValidRecord(r))
    ensures Records(EncodeRecords(rs), []) == Records(EncodeRecords(ss), []) <==>
            (Fits(rs, []) <==> Fits(ss, [])) || Message(Payload(rs)) == Invalid
  {
    hide Fits, Records, EncodeRecords;
    assert forall r :: r in rs || r in ss ==> r in rs + ss;
    SplitInvisible(rs, []);
    SplitInvisible(ss, []);
    assert [] + Payload(rs) == Payload(rs);
  }

  /** A hello that declares more than the limit is refused however it is cut. */
  lemma DeclaredTooLong(rs: seq<Record>)
    requires forall r :: r in rs ==> ValidRecord(r)
    requires var p := Payload(rs); |p| >= 4 && p[0] == 1 && U24(p[1], p[2], p[3]) + 4 > MAX_HELLO
    ensures Records(EncodeRecords(rs), []) == Invalid
  {
    SplitInvisible(rs, []);
    assert [] + Payload(rs) == Payload(rs);
  }

  lemma {:induction false} PayloadAppend(rs: seq<Record>, ss: seq<Record>)
    ensures Payload(rs + ss) == Payload(rs) + Payload(ss)
  {
    if |rs| == 0 {
      assert rs + ss == ss;
    } else {
      assert (rs + ss)[1..] == rs[1..] + ss;
      PayloadAppend(rs[1..], ss);
    }
  }

  /** Records that leave the answer open hand their bytes on. */
  lemma {:induction false} FitsAppend(rs: seq<Record>, ss: seq<Record>, gathered: Bytes)
    requires Message(gathered + Payload(rs)) == Incomplete && |gathered| + |Payload(rs)| <= MAX_HELLO
    ensures Fits(rs + ss, gathered) <==> Fits(ss, gathered + Payload(rs))
  {
    hide Message;
    if |rs| == 0 {
      assert rs + ss == ss && gathered + Payload(rs) == gathered;
    } else {
      var h := gathered + rs[0].payload;
      assert (rs + ss)[1..] == rs[1..] + ss && h + Payload(rs[1..]) == gathered + Payload(rs);
      if Message(h) != Incomplete { MessageMonotone(h, Payload(rs[1..])); }
      FitsAppend(rs[1..], ss, h);
    }
  }

  // --------------------------------------------------------------- encoding

  datatype ServerName = ServerName(typ: Byte, name: Bytes)

  datatype Ext =
    | Sni(names: seq<ServerName>)
    | Alpn(protocols: seq<Bytes>)
    | Supported(versions: seq<nat>)
    | Other(typ: nat, body: Bytes)

  datatype Hello = Hello(version: nat, random: Bytes, session: Bytes, ciphers: seq<nat>, compression: Bytes,
                         extensions: Option<seq<Ext>>)

  predicate Words(ws: seq<nat>) {
    forall i :: 0 <= i < |ws| ==> ws[i] < 0x10000
  }

  function EncWords(ws: seq<nat>): (r: Bytes)
    requires Words(ws)
    ensures |r| == 2 * |ws|
  {
    if |ws| == 0 then []
    else B16(ws[0]) + EncWords(ws[1..])
  }

  predicate ValidNames(names: seq<ServerName>) {
    forall n :: n in names ==> 1 <= |n.name| < 0x10000
  }

  function EncNames(names: seq<ServerName>): Bytes
    requires ValidNames(names)
  {
    if |names| == 0 then []
    else assert names[0] in names; [names[0].typ] + B16(|names[0].name|) + names[0].name + EncNames(names[1..])
  }

  predicate ValidProtocols(ps: seq<Bytes>) {
    forall p :: p in ps ==> 1 <= |p| < 256
  }

  function EncProtocols(ps: seq<Bytes>): Bytes
    requires ValidProtocols(ps)
  {
    if |ps| == 0 then []
    else assert ps[0] in ps; [|ps[0]|] + ps[0] + EncProtocols(ps[1..])
  }

  predicate ValidExt(e: Ext) {
    match e
    case Sni(names) => ValidNames(names) && |EncNames(names)| + 2 < 0x10000
    case Alpn(ps) => ValidProtocols(ps) && |EncProtocols(ps)| + 2 < 0x10000
    case Supported(vs) => Words(vs) && 1 <= |vs| <= 127
    case Other(typ, body) => typ !in {0, 16, 43} && typ < 0x10000 && |body| < 0x10000
  }

  function TypeOf(e: Ext): nat {
    match e
    case Sni(_) => 0
    case Alpn(_) => 16
    case Supported(_) => 43
    case Other(typ, _) => typ
  }

  function BodyOf(e: Ext): (b: Bytes)
    requires ValidExt(e)
    ensures |b| < 0x10000
  {
    match e
    case Sni(names) => B16(|EncNames(names)|) + EncNames(names)
    case Alpn(ps) => B16(|EncProtocols(ps)|) + EncProtocols(ps)
    case Supported(vs) => [2 * |vs|] + EncWords(vs)
    case Other(_, body) => body
  }

  predicate ValidExts(es: seq<Ext>) {
    forall e :: e in es ==> ValidExt(e)
  }

  function EncExts(es: seq<Ext>): Bytes
    requires ValidExts(es)
  {
    if |es| == 0 then []
    else assert es[0] in es; B16(TypeOf(es[0])) + B16(|BodyOf(es[0])|) + BodyOf(es[0]) + EncExts(es[1..])
  }

  /** The sizes section 4.1.2 of RFC 8446 gives the fields. */
  predicate ValidHello(h: Hello) {
    && h.version < 0x10000 && |h.random| == 32 && |h.session| <= 32
    && Words(h.ciphers) && 1 <= |h.ciphers| < 0x8000 && 1 <= |h.compression| < 256
    && (h.extensions.Some? ==> ValidExts(h.extensions.value) && |EncExts(h.extensions.value)| < 0x10000)
  }

  function EncBody(h: Hello): Bytes
    requires ValidHello(h)
  {
    B16(h.version) + h.random + EncSession(h)
  }

  function EncSession(h: Hello): Bytes
    requires ValidHello(h)
  {
    [|h.session|] + h.session + EncCiphers(h)
  }

  function EncCiphers(h: Hello): Bytes
    requires ValidHello(h)
  {
    B16(2 * |h.ciphers|) + EncWords(h.ciphers) + EncCompression(h)
  }

  function EncCompression(h: Hello): Bytes
    requires ValidHello(h)
  {
    [|h.compression|] + h.compression + EncBlock(h)
  }

  function EncBlock(h: Hello): Bytes
    requires ValidHello(h)
  {
    if h.extensions.None? then []
    else B16(|EncExts(h.extensions.value)|) + EncExts(h.extensions.value)
  }

  /** The handshake message: type, three length bytes, body. */
  function EncMessage(h: Hello): Bytes
    requires ValidHello(h) && |EncBody(h)| < 0x1000000
  {
    var n := |EncBody(h)|;
    [1, n / 0x10000, n / 0x100 % 0x100, n % 0x100] + EncBody(h)
  }

  // ----------------------------------------------------------------- meaning

  /** The first host name the parser accepts, empty if none is. */
  function FirstHost(names: seq<ServerName>): Bytes {
    if |names| == 0 then []
    else if Acceptable(names[0].typ, names[0].name) then names[0].name
    else FirstHost(names[1..])
  }

  function FirstProtocol(ps: seq<Bytes>): Bytes {
    if |ps| == 0 then [] else ps[0]
  }

  function AllNames(es: seq<Ext>): seq<ServerName> {
    if |es| == 0 then [] else (if es[0].Sni? then es[0].names else []) + AllNames(es[1..])
  }

  function AllProtocols(es: seq<Ext>): seq<Bytes> {
    if |es| == 0 then [] else (if es[0].Alpn? then es[0].protocols else []) + AllProtocols(es[1..])
  }

  function AllVersions(es: seq<Ext>): seq<nat> {
    if |es| == 0 then [] else (if es[0].Supported? then es[0].versions else []) + AllVersions(es[1..])
  }

  function Exts(h: Hello): seq<Ext> {
    if h.extensions.Some? then h.extensions.value else []
  }

  /** What a hello announces, read off the hello itself. */
  function Announced(h: Hello): Context
    requires |h.ciphers| > 0
  {
    Context(if 0x0304 in AllVersions(Exts(h)) then 0x0304 else h.version, h.ciphers[0],
            FirstHost(AllNames(Exts(h))), FirstProtocol(AllProtocols(Exts(h))))
  }

  // -------------------------------------------------------- lists are read

  function Else(first: Bytes, second: Bytes): Bytes {
    if first != [] then first else second
  }

  lemma {:induction false} NamesRead(names: seq<ServerName>, sni: Bytes)
    requires ValidNames(names)
    ensures Names(EncNames(names), sni) == Some(Else(sni, FirstHost(names)))
  {
    if |names| > 0 {
      var n, tail := names[0], EncNames(names[1..]);
      assert n in names;
      var data := [n.typ] + B16(|n.name|) + n.name + tail;
      assert EncNames(names) == data;
      assert data[0] == n.typ && U16(data[1], data[2]) == |n.name|;
      assert data[3..3 + |n.name|] == n.name && data[3 + |n.name|..] == tail;
      NamesRead(names[1..], if sni == [] && Acceptable(n.typ, n.name) then n.name else sni);
    }
  }

  lemma {:induction false} ProtocolsRead(ps: seq<Bytes>, alpn: Bytes)
    requires ValidProtocols(ps)
    ensures Protocols(EncProtocols(ps), alpn) == Some(Else(alpn, FirstProtocol(ps)))
  {
    if |ps| > 0 {
      var p, tail := ps[0], EncProtocols(ps[1..]);
      assert p in ps;
      var data := [|p|] + p + tail;
      assert EncProtocols(ps) == data;
      assert data[0] == |p| && data[1..1 + |p|] == p && data[1 + |p|..] == tail;
      ProtocolsRead(ps[1..], if alpn == [] then p else alpn);
    }
  }

  lemma {:induction false} VersionsRead(vs: seq<nat>, version: nat)
    requires Words(vs)
    ensures Versions(EncWords(vs), version) == if 0x0304 in vs then 0x0304 else version
  {
    if |vs| > 0 {
      var data := B16(vs[0]) + EncWords(vs[1..]);
      assert EncWords(vs) == data && U16(data[0], data[1]) == vs[0] && data[2..] == EncWords(vs[1..]);
      VersionsRead(vs[1..], if vs[0] == 0x0304 then 0x0304 else version);
      assert vs == [vs[0]] + vs[1..];
    }
  }

  function Applied(e: Ext, c: Context): Context {
    match e
    case Sni(names) => c.(sni := Else(c.sni, FirstHost(names)))
    case Alpn(ps) => c.(alpn := Else(c.alpn, FirstProtocol(ps)))
    case Supported(vs) => c.(version := if 0x0304 in vs then 0x0304 else c.version)
    case Other(_, _) => c
  }

  /** A list behind its own two-byte length. */
  lemma Framed(list: Bytes)
    requires |list| < 0x10000
    ensures var body := B16(|list|) + list;
            |body| >= 2 && U16(body[0], body[1]) == |body| - 2 && body[2..] == list
  {
  }

  lemma SniRead(names: seq<ServerName>, c: Context)
    requires ValidExt(Sni(names))
    ensures Extension(0, BodyOf(Sni(names)), c) == Some(Applied(Sni(names), c))
  {
    hide EncNames, Names;
    Framed(EncNames(names));
    NamesRead(names, c.sni);
  }

  lemma AlpnRead(ps: seq<Bytes>, c: Context)
    requires ValidExt(Alpn(ps))
    ensures Extension(16, BodyOf(Alpn(ps)), c) == Some(Applied(Alpn(ps), c))
  {
    hide EncProtocols, Protocols;
    Framed(EncProtocols(ps));
    ProtocolsRead(ps, c.alpn);
  }

  lemma SupportedRead(vs: seq<nat>, c: Context)
    requires ValidExt(Supported(vs))
    ensures Extension(43, BodyOf(Supported(vs)), c) == Some(Applied(Supported(vs), c))
  {
    hide EncWords, Versions;
    var body := BodyOf(Supported(vs));
    assert body[0] == 2 * |vs| && body[1..] == EncWords(vs);
    VersionsRead(vs, c.version);
  }

  lemma ExtensionRead(e: Ext, c: Context)
    requires ValidExt(e)
    ensures Extension(TypeOf(e), BodyOf(e), c) == Some(Applied(e, c))
  {
    match e
    case Sni(names) => SniRead(names, c);
    case Alpn(ps) => AlpnRead(ps, c);
    case Supported(vs) => SupportedRead(vs, c);
    case Other(_, _) => OtherRead(e, c);
  }

  lemma OtherRead(e: Ext, c: Context)
    requires ValidExt(e) && e.Other?
    ensures Extension(TypeOf(e), BodyOf(e), c) == Some(Applied(e, c))
  {
  }

  function AppliedAll(es: seq<Ext>, c: Context): Context {
    if |es| == 0 then c else AppliedAll(es[1..], Applied(es[0], c))
  }

  lemma {:induction false} ExtensionsRead(es: seq<Ext>, c: Context)
    requires ValidExts(es)
    ensures Extensions(EncExts(es), c) == Some(AppliedAll(es, c))
  {
    if |es| > 0 {
      hide ValidExt, BodyOf, TypeOf, Extension, Applied;
      var e := es[0];
      assert e in es;
      ExtensionHead(es, c);
      ExtensionRead(e, c);
      ExtensionsRead(es[1..], Applied(e, c));
    }
  }

  lemma ExtensionHead(es: seq<Ext>, c: Context)
    requires ValidExts(es) && |es| > 0 && ValidExt(es[0])
    ensures ValidExts(es[1..])
    ensures Extensions(EncExts(es), c) ==
            var d := Extension(TypeOf(es[0]), BodyOf(es[0]), c);
            if d.None? then None else Extensions(EncExts(es[1..]), d.value)
  {
    hide ValidExt, Extension, BodyOf;
    assert TypeOf(es[0]) < 0x10000 by { TypeSmall(es[0]); }
    hide TypeOf;
    var body, tail := BodyOf(es[0]), EncExts(es[1..]);
    var data := B16(TypeOf(es[0])) + B16(|body|) + body + tail;
    assert EncExts(es) == data;
    assert U16(data[0], data[1]) == TypeOf(es[0]) && U16(data[2], data[3]) == |body|;
    assert data[4..4 + |body|] == body && data[4 + |body|..] == tail;
  }

  lemma TypeSmall(e: Ext)
    requires ValidExt(e)
    ensures TypeOf(e) < 0x10000
  {
  }

  /** First of everything, extension after extension, is first of the whole list. */
  lemma {:induction false} FirstHostAppend(a: seq<ServerName>, b: seq<ServerName>)
    requires ValidNames(a)
    ensures FirstHost(a + b) == Else(FirstHost(a), FirstHost(b))
  {
    if |a| == 0 {
      assert a + b == b;
    } else {
      assert a[0] in a && (a + b)[1..] == a[1..] + b;
      FirstHostAppend(a[1..], b);
    }
  }

  lemma {:induction false} AppliedAllMeans(es: seq<Ext>, c: Context)
    requires ValidExts(es)
    ensures AppliedAll(es, c) ==
            Context(if 0x0304 in AllVersions(es) then 0x0304 else c.version, c.cipher,
                    Else(c.sni, FirstHost(AllNames(es))), Else(c.alpn, FirstProtocol(AllProtocols(es))))
  {
    if |es| > 0 {
      var e := es[0];
      assert e in es;
      AppliedAllMeans(es[1..], Applied(e, c));
      assert [] + AllNames(es[1..]) == AllNames(es[1..]);
      assert [] + AllProtocols(es[1..]) == AllProtocols(es[1..]);
      assert [] + AllVersions(es[1..]) == AllVersions(es[1..]);
      if e.Sni? { FirstHostAppend(e.names, AllNames(es[1..])); }
      if e.Alpn? {
        ProtocolsNonEmpty(e.protocols);
        assert FirstProtocol(e.protocols + AllProtocols(es[1..])) ==
            Else(FirstProtocol(e.protocols), FirstProtocol(AllProtocols(es[1..]))) by {
          if e.protocols == [] { assert e.protocols + AllProtocols(es[1..]) == AllProtocols(es[1..]); }
        }
      }
    }
  }

  lemma ProtocolsNonEmpty(ps: seq<Bytes>)
    requires ValidProtocols(ps)
    ensures FirstProtocol(ps) == [] <==> ps == []
  {
    if |ps| > 0 { assert ps[0] in ps; }
  }

  // ---------------------------------------------------------- bodies are read

  lemma BlockRead(h: Hello, c: Context)
    requires ValidHello(h)
    ensures ExtensionPart(EncBlock(h), c) == Parsed(AppliedAll(Exts(h), c))
  {
    if h.extensions.Some? {
      var es := h.extensions.value;
      var data := B16(|EncExts(es)|) + EncExts(es);
      assert U16(data[0], data[1]) == |data| - 2 && data[2..] == EncExts(es);
      ExtensionsRead(es, c);
    }
  }

  lemma CompressionRead(h: Hello, c: Context)
    requires ValidHello(h)
    ensures |EncCompression(h)| >= 1 && CompressionPart(EncCompression(h), c) == Parsed(AppliedAll(Exts(h), c))
  {
    hide EncBlock, ExtensionPart, ValidHello;
    var data := [|h.compression|] + h.compression + EncBlock(h);
    assert EncCompression(h) == data && data[1 + |h.compression|..] == EncBlock(h);
    assert 1 <= |h.compression| < 256 by { SizesOf(h); }
    BlockRead(h, c);
  }

  lemma SizesOf(h: Hello)
    requires ValidHello(h)
    ensures h.version < 0x10000 && |h.random| == 32 && |h.session| <= 32
    ensures Words(h.ciphers) && 1 <= |h.ciphers| < 0x8000 && 1 <= |h.compression| < 256 && h.ciphers[0] < 0x10000
  {
    assert h.ciphers[0] in h.ciphers;
  }

  lemma CiphersRead(h: Hello)
    requires ValidHello(h)
    ensures |EncCiphers(h)| >= 2
    ensures CipherPart(EncCiphers(h), h.version) ==
            Parsed(AppliedAll(Exts(h), Context(h.version, h.ciphers[0], [], [])))
  {
    hide EncCompression, CompressionPart, ValidHello, AppliedAll;
    SizesOf(h);
    var ws, tail := EncWords(h.ciphers), EncCompression(h);
    var data := B16(2 * |h.ciphers|) + ws + tail;
    CompressionRead(h, Context(h.version, h.ciphers[0], [], []));
    assert EncCiphers(h) == data && data[2 + |ws|..] == tail;
    assert U16(data[0], data[1]) == |ws|;
    assert ws == B16(h.ciphers[0]) + EncWords(h.ciphers[1..]);
    assert data[2] == ws[0] && data[3] == ws[1];
    assert U16(data[2], data[3]) == h.ciphers[0];
  }

  lemma SessionRead(h: Hello)
    requires ValidHello(h)
    ensures |EncSession(h)| >= 1
    ensures SessionPart(EncSession(h), h.version) ==
            Parsed(AppliedAll(Exts(h), Context(h.version, h.ciphers[0], [], [])))
  {
    hide EncCiphers, CipherPart, ValidHello, AppliedAll;
    SizesOf(h);
    CiphersRead(h);
    var data := [|h.session|] + h.session + EncCiphers(h);
    assert EncSession(h) == data && data[1 + |h.session|..] == EncCiphers(h);
  }

  /** Every well-formed body is read back as what it announces. */
  lemma BodyRead(h: Hello)
    requires ValidHello(h)
    ensures Body(EncBody(h)) == Parsed(Announced(h))
  {
    hide EncSession, SessionPart, ValidHello, AppliedAll;
    SizesOf(h);
    SessionRead(h);
    var data := B16(h.version) + h.random + EncSession(h);
    assert EncBody(h) == data && data[34..] == EncSession(h) && U16(data[0], data[1]) == h.version;
    AnnouncedMeans(h);
  }

  lemma AnnouncedMeans(h: Hello)
    requires ValidHello(h)
    ensures AppliedAll(Exts(h), Context(h.version, h.ciphers[0], [], [])) == Announced(h)
  {
    AppliedAllMeans(Exts(h), Context(h.version, h.ciphers[0], [], []));
  }

  lemma MessageRead(h: Hello)
    requires ValidHello(h) && |EncBody(h)| + 4 <= MAX_HELLO
    ensures Message(EncMessage(h)) == Parsed(Announced(h))
  {
    hide Body, ValidHello, EncBody, Announced;
    BodyRead(h);
    BodyLong(h);
    var n, m := |EncBody(h)|, EncMessage(h);
    assert U24(m[1], m[2], m[3]) == n by { Digits(n); }
    assert m[4..n + 4] == EncBody(h);
  }

  lemma Digits(n: nat)
    requires n < 0x1000000
    ensures n / 0x10000 * 0x10000 + n / 0x100 % 0x100 * 0x100 + n % 0x100 == n
  {
    assert n / 0x100 == n / 0x10000 * 0x100 + n / 0x100 % 0x100;
  }

  lemma BodyLong(h: Hello)
    requires ValidHello(h)
    ensures |EncBody(h)| >= 35
  {
    SessionRead(h);
  }

  /**
   Any hello of at most 64 KiB, cut into records in any way, yields the first
   acceptable host name, the first offered protocol, the first cipher and the
   version it announces; any longer one is refused.
   */
  lemma HelloRead(h: Hello, rs: seq<Record>)
    requires ValidHello(h) && |EncBody(h)| < 0x1000000
    requires (forall r :: r in rs ==> ValidRecord(r)) && Payload(rs) == EncMessage(h)
    ensures Records(EncodeRecords(rs), []) == if |EncBody(h)| + 4 <= MAX_HELLO then Parsed(Announced(h)) else Invalid
  {
    hide EncBody, Announced, ValidHello, EncodeRecords, Fits, Message;
    MessageSize(h);
    if |EncBody(h)| + 4 <= MAX_HELLO {
      MessageRead(h);
      SmallFits(rs, []);
      EmptyWaits();
      SplitInvisible(rs, []);
      assert [] + Payload(rs) == Payload(rs);
    } else {
      DeclaredTooLong(rs);
    }
  }

  lemma MessageSize(h: Hello)
    requires ValidHello(h) && |EncBody(h)| < 0x1000000
    ensures var m := EncMessage(h); |m| == |EncBody(h)| + 4 && m[0] == 1 && U24(m[1], m[2], m[3]) == |EncBody(h)|
  {
    Digits(|EncBody(h)|);
  }

  /** A hello that is not all there leaves the answer open. */
  lemma PartWaits(h: Hello, part: Bytes, rest: Bytes)
    requires ValidHello(h) && |EncBody(h)| + 4 <= MAX_HELLO && EncMessage(h) == part + rest && rest != []
    ensures Message(part) == Incomplete
  {
    hide EncBody, ValidHello, EncMessage;
    MessageSize(h);
    BodyLong(h);
    var m := EncMessage(h);
    if |part| >= 4 { assert part[0] == m[0] && part[1] == m[1] && part[2] == m[2] && part[3] == m[3]; }
  }

  /**
   The limit makes a cut visible: bytes that follow a hello are harmless in a
   record of their own, and refuse the hello when they share its last record
   and run past the limit.
   */
  lemma OverrunRefuses(h: Hello, init: seq<Record>, y: Bytes, x: Bytes)
    requires ValidHello(h) && |EncBody(h)| + 4 <= MAX_HELLO < |EncBody(h)| + 4 + |x|
    requires (forall r :: r in init ==> ValidRecord(r)) && y != [] && x != [] && |y + x| <= MAX_RECORD
    requires EncMessage(h) == Payload(init) + y
    ensures var apart := init + [Record(1, y), Record(1, x)];
            var joined := init + [Record(1, y + x)];
            && (forall r :: r in apart ==> ValidRecord(r)) && (forall r :: r in joined ==> ValidRecord(r))
            && Payload(apart) == Payload(joined)
            && Records(EncodeRecords(apart), []) == Parsed(Announced(h))
            && Records(EncodeRecords(joined), []) == Invalid
  {
    hide EncBody, Announced, ValidHello, EncodeRecords, Message, Records, EncMessage;
    var apart, joined := init + [Record(1, y), Record(1, x)], init + [Record(1, y + x)];
    var m, p := EncMessage(h), Payload(init);
    MessageSize(h);
    MessageRead(h);
    PartWaits(h, p, y);
    assert [] + p == p && [Record(1, y), Record(1, x)][1..] == [Record(1, x)];
    PairPayload(y, x);
    PayloadAppend(init, [Record(1, y), Record(1, x)]);
    PayloadAppend(init, [Record(1, y + x)]);
    assert p + (y + x) == m + x;
    FitsAppend(init, [Record(1, y), Record(1, x)], []);
    FitsAppend(init, [Record(1, y + x)], []);
    assert p + (y + x) == m + x && |p + (y + x)| > MAX_HELLO;
    EmptyWaits();
    SplitInvisible(apart, []);
    SplitInvisible(joined, []);
    MessageMonotone(m, x);
    assert [] + Payload(apart) == m + x;
  }

  lemma EmptyWaits()
    ensures Message([]) == Incomplete
  {
  }

  lemma PairPayload(y: Bytes, x: Bytes)
    ensures Payload([Record(1, y), Record(1, x)]) == y + x && Payload([Record(1, y + x)]) == y + x
  {
    assert [Record(1, y), Record(1, x)][1..] == [Record(1, x)] && [Record(1, x)][1..] == []
        && [Record(1, y + x)][1..] == [];
    assert Payload([Record(1, x)]) == x + [];
    assert Payload([Record(1, y + x)]) == y + x + [];
  }

  function Zeros(n: nat): Bytes {
    seq(n, i => 0)
  }

  /** One cipher and 65000 bytes of padding. */
  const PADDED := Hello(0x0303, Zeros(32), [], [0x1301], [0], Some([Other(21, Zeros(65000))]))

  lemma PaddedSize()
    ensures ValidHello(PADDED) && |EncBody(PADDED)| == 65047
  {
    var es := [Other(21, Zeros(65000))];
    assert es[1..] == [] && EncExts([]) == [] && BodyOf(es[0]) == Zeros(65000);
    assert EncExts(es) == B16(21) + B16(65000) + Zeros(65000) + [];
    assert ValidHello(PADDED);
    var ws := [0x1301];
    assert ws[1..] == [] && EncWords(ws) == B16(0x1301) + [];
  }

  /** A concrete hello of 65051 bytes and 1000 more, cut in two ways. */
  lemma CutWitness() returns (apart: seq<Record>, joined: seq<Record>)
    ensures (forall r :: r in apart ==> ValidRecord(r)) && (forall r :: r in joined ==> ValidRecord(r))
    ensures Payload(apart) == Payload(joined)
    ensures Records(EncodeRecords(apart), []).Parsed? && Records(EncodeRecords(joined), []) == Invalid
  {
    hide EncBody, Announced, ValidHello, EncodeRecords, Message, Records, EncMessage;
    PaddedSize();
    MessageSize(PADDED);
    var m := EncMessage(PADDED);
    var a, b, c, y := m[..18432], m[18432..36864], m[36864..55296], m[55296..];
    var init := [Record(1, a)] + [Record(1, b)] + [Record(1, c)];
    ThreePayload(a, b, c);
    assert a + b + c + y == m;
    OverrunRefuses(PADDED, init, y, Zeros(1000));
    apart, joined := init + [Record(1, y), Record(1, Zeros(1000))], init + [Record(1, y + Zeros(1000))];
  }

  lemma ThreePayload(a: Bytes, b: Bytes, c: Bytes)
    ensures Payload([Record(1, a)] + [Record(1, b)] + [Record(1, c)]) == a + b + c
  {
    PairPayload(a, b);
    PayloadAppend([Record(1, a)] + [Record(1, b)], [Record(1, c)]);
    assert [Record(1, a)] + [Record(1, b)] == [Record(1, a), Record(1, b)];
    assert [Record(1, c)][1..] == [] && Payload([Record(1, c)]) == c + [];
  }
}
