/** parseCsr (relay/certs.js): the certificate requests the relay forwards are exactly one
    CommonName and one dNSName for the asked name, on an acceptable key that signed it. */
module Csr {
  import opened Common
  import opened Der

  /** What node's crypto and text decoders decide, given as functions. */
  datatype World = World(
    keyOk: Bytes -> bool,                              // a readable P-256 or RSA >= 2048 key
    verifies: (seq<nat>, Bytes, Bytes, Bytes) -> bool, // algorithm, signed bytes, key, signature
    utf8Lower: Bytes -> string)

  // --- object identifiers ---------------------------------------------------------------

  /** oidOf after its first octet: base-128 digits, a digit below 128 closing an arc. */
  function Arcs(body: Bytes, v: nat): seq<nat> {
    if body == [] then []
    else
      var v' := v * 128 + body[0] % 128;
      if body[0] < 128 then [v'] + Arcs(body[1..], 0) else Arcs(body[1..], v')
  }

  function OidOf(body: Bytes): seq<nat> {
    if body == [] then [] else [body[0] / 40, body[0] % 40] + Arcs(body[1..], 0)
  }

  /** oidOf as the source runs it. */
  method OidLoop(body: Bytes) returns (parts: seq<nat>)
    requires body != []
    ensures parts == OidOf(body)
  {
    parts := [body[0] / 40, body[0] % 40];
    var v: nat := 0;
    for i := 1 to |body|
      invariant parts + Arcs(body[i..], v) == OidOf(body)
    {
      assert body[i..][1..] == body[i + 1..];
      v := v * 128 + body[i] % 128;
      if body[i] < 128 {
        assert (parts + [v]) + Arcs(body[i + 1..], 0) == parts + ([v] + Arcs(body[i + 1..], 0));
        parts := parts + [v];
        v := 0;
      }
    }
  }

  const COMMON_NAME: seq<nat> := [2, 5, 4, 3]
  const SUBJECT_ALT_NAME: seq<nat> := [2, 5, 29, 17]
  const EXTENSION_REQUEST: seq<nat> := [1, 2, 840, 113549, 1, 9, 14]
  const ECDSA_SHA256: seq<nat> := [1, 2, 840, 10045, 4, 3, 2]
  const ECDSA_SHA384: seq<nat> := [1, 2, 840, 10045, 4, 3, 3]
  const RSA_SHA256: seq<nat> := [1, 2, 840, 113549, 1, 1, 11]
  const RSA_SHA384: seq<nat> := [1, 2, 840, 113549, 1, 1, 12]

  // --- the parser ---------------------------------------------------------------------------

  predicate OidIs(buf: Bytes, t: Tlv, oid: seq<nat>)
    requires Within(t, buf)
  {
    t.tag == 0x06 && OidOf(Body(buf, t)) == oid
  }

  function Children(buf: Bytes, t: Tlv, depth: nat): (r: Result<seq<Tlv>>)
    requires Within(t, buf)
    ensures r.Ok? ==> AllWithin(r.value, buf)
  {
    if Kids(buf, t, depth).Ok? then KidsInside(buf, t.start, t.end); Kids(buf, t, depth) else Kids(buf, t, depth)
  }

  lemma KidsInside(buf: Bytes, off: nat, end: nat)
    requires off <= end <= |buf| && KidsFrom(buf, off, end, 0).Ok?
    ensures AllWithin(KidsFrom(buf, off, end, 0).value, buf)
  {
    KidsTile(buf, off, end, 0);
  }

  /** Exactly one RDN holding exactly one AVA, a CommonName spelling the name. */
  function ParseSubject(der: Bytes, subject: Tlv, name: string, w: World): Result<()>
    requires Within(subject, der)
  {
    var isSequence := subject.tag == 0x30;
    :- Require(isSequence, "bad subject");
    var rdns :- Children(der, subject, 2);
    :- Require(|rdns| == 1 && rdns[0].tag == 0x31, "subject must be exactly CN=<name>");
    var avas :- Children(der, rdns[0], 3);
    :- Require(|avas| == 1 && avas[0].tag == 0x30, "subject must be exactly CN=<name>");
    var ava :- Children(der, avas[0], 4);
    :- Require(|ava| >= 2 && OidIs(der, ava[0], COMMON_NAME), "subject must be exactly CN=<name>");
    :- Require(ava[1].tag in {0x0c, 0x13, 0x16}, "CN must be a UTF8/Printable/IA5 string");
    :- Require(w.utf8Lower(Body(der, ava[1])) == name, "CN is not the name");
    Ok(())
  }

  /** The subjectAltName value: a buffer of its own, one GeneralNames holding one dNSName. */
  function ParseSan(val: Bytes, name: string): Result<()> {
    var gn :- ReadTlv(val, 0);
    :- Require(gn.tag == 0x30 && gn.end == |val|, "bad GeneralNames");
    var names :- Children(val, gn, 7);
    :- Require(|names| == 1 && names[0].tag == 0x82, "subjectAltName must be exactly one dNSName");
    :- Require(AsciiLower(Body(val, names[0])) == name, "SAN is not the name");
    Ok(())
  }

  /** The one extension: subjectAltName, an optional critical flag, its OCTET STRING. */
  function ParseExtension(der: Bytes, ext: Tlv, name: string): Result<()>
    requires Within(ext, der)
  {
    var parts :- Children(der, ext, 6);
    :- Require(|parts| >= 1 && OidIs(der, parts[0], SUBJECT_ALT_NAME), "the only extension must be subjectAltName");
    var last := parts[|parts| - 1];
    :- Require(last.tag == 0x04 && |parts| <= 3, "bad subjectAltName extension");
    :- Require(|parts| == 3 ==> parts[1].tag == 0x01, "bad subjectAltName extension");
    ParseSan(Body(der, last), name)
  }

  /** The value set of extensionRequest: one Extensions sequence of one extension. */
  function ParseExtensions(der: Bytes, aSet: Tlv, name: string): Result<()>
    requires Within(aSet, der)
  {
    var extsList :- Children(der, aSet, 4);
    :- Require(|extsList| == 1 && extsList[0].tag == 0x30, "extensionRequest must hold one Extensions sequence");
    var exts :- Children(der, extsList[0], 5);
    :- Require(|exts| == 1 && exts[0].tag == 0x30, "csr must request exactly one extension: subjectAltName");
    ParseExtension(der, exts[0], name)
  }

  function ParseAttributes(der: Bytes, attrs: Tlv, name: string): Result<()>
    requires Within(attrs, der)
  {
    var isContext := attrs.tag == 0xa0;
    :- Require(isContext, "attributes must be [0]");
    var list :- Children(der, attrs, 2);
    :- Require(|list| == 1 && list[0].tag == 0x30, "csr must carry exactly one attribute: extensionRequest");
    var attr :- Children(der, list[0], 3);
    :- Require(|attr| >= 2 && OidIs(der, attr[0], EXTENSION_REQUEST) && attr[1].tag == 0x31,
               "the only attribute must be extensionRequest");
    ParseExtensions(der, attr[1], name)
  }

  function Raw(buf: Bytes, t: Tlv): Bytes
    requires Within(t, buf)
  {
    buf[t.off..t.end]
  }

  function ParseSignature(der: Bytes, cri: Tlv, spki: Tlv, sigAlg: Tlv, sigBits: Tlv, w: World): Result<()>
    requires Within(cri, der) && Within(spki, der) && Within(sigAlg, der) && Within(sigBits, der)
  {
    var alg :- Children(der, sigAlg, 1);
    var oid := if |alg| >= 1 && alg[0].tag == 0x06 then OidOf(Body(der, alg[0])) else [];
    var bits := Body(der, sigBits);
    :- Require(|bits| > 1 && bits[0] == 0, "bad signature BIT STRING");
    :- Require(oid in {ECDSA_SHA256, ECDSA_SHA384, RSA_SHA256, RSA_SHA384}, "signature algorithm is not accepted");
    :- Require(w.verifies(oid, Raw(der, cri), Raw(der, spki), bits[1..]), "csr self-signature does not verify");
    Ok(())
  }

  /** CertificationRequestInfo: version 0, subject, key, attributes; the key comes back. */
  function ParseInfo(der: Bytes, info: Tlv, name: string, w: World): (r: Result<Tlv>)
    requires Within(info, der)
    ensures r.Ok? ==> Within(r.value, der)
  {
    var cri :- Children(der, info, 1);
    :- Require(|cri| == 4, "CertificationRequestInfo must be version, subject, key, attributes");
    :- Require(cri[0].tag == 0x02 && Body(der, cri[0]) == [0], "csr version must be 0");
    var subjectOk :- ParseSubject(der, cri[1], name, w);
    :- Require(cri[2].tag == 0x30 && w.keyOk(Raw(der, cri[2])), "unreadable public key");
    var attributesOk :- ParseAttributes(der, cri[3], name);
    Ok(cri[2])
  }

  /** parseCsrUnsafe from the decoded DER on; `Ok` carries the raw SubjectPublicKeyInfo. */
  function ParseCsr(der: Bytes, name: string, w: World): Result<Bytes> {
    var size := |der|;
    :- Require(0 < size <= 8192, "csr is empty or oversized");
    var top :- ReadTlv(der, 0);
    :- Require(top.tag == 0x30 && top.end == |der|, "csr is not one DER SEQUENCE");
    var parts :- Children(der, top, 0);
    :- Require(|parts| >= 3 && parts[0].tag == 0x30 && parts[1].tag == 0x30 && parts[2].tag == 0x03,
               "csr is not a CertificationRequest");
    var spki :- ParseInfo(der, parts[0], name, w);
    var signatureOk :- ParseSignature(der, parts[0], spki, parts[1], parts[2], w);
    Ok(Raw(der, spki))
  }

  // --- what an acceptable request is, independently of any offset -----------------------------

  /** subject ::= SEQUENCE OF exactly { SET OF exactly { SEQUENCE { CommonName, string, ... } } } */
  ghost predicate SubjectNames(body: Bytes, name: string, w: World) {
    exists rdn: Item, ava: Item, xs: seq<Item> ::
      && Holds(body, [rdn]) && rdn.tag == 0x31 && Holds(rdn.body, [ava]) && ava.tag == 0x30
      && Holds(ava.body, xs) && |xs| >= 2 && xs[0].tag == 0x06 && OidOf(xs[0].body) == COMMON_NAME
      && xs[1].tag in {0x0c, 0x13, 0x16} && w.utf8Lower(xs[1].body) == name
  }

  ghost predicate SanNames(val: Bytes, name: string) {
    exists gn: Item, san: Item ::
      && Writable(gn) && val == Encode(gn) && gn.tag == 0x30
      && Holds(gn.body, [san]) && san.tag == 0x82 && AsciiLower(san.body) == name
  }

  /** Extension ::= SEQUENCE { id-ce-subjectAltName, optional critical flag, OCTET STRING } */
  ghost predicate ExtensionParts(body: Bytes, parts: seq<Item>, name: string) {
    && Holds(body, parts) && 2 <= |parts| <= 3
    && parts[0].tag == 0x06 && OidOf(parts[0].body) == SUBJECT_ALT_NAME
    && (|parts| == 3 ==> parts[1].tag == 0x01)
    && parts[|parts| - 1].tag == 0x04 && SanNames(parts[|parts| - 1].body, name)
  }

  ghost predicate ExtensionNames(body: Bytes, name: string) {
    exists parts: seq<Item> :: ExtensionParts(body, parts, name)
  }

  ghost predicate ExtensionsName(body: Bytes, name: string) {
    exists exts: Item, ext: Item ::
      Holds(body, [exts]) && exts.tag == 0x30 && Holds(exts.body, [ext]) && ext.tag == 0x30 && ExtensionNames(ext.body, name)
  }

  ghost predicate AttributesName(body: Bytes, name: string) {
    exists attr: Item, xs: seq<Item> ::
      && Holds(body, [attr]) && attr.tag == 0x30
      && Holds(attr.body, xs) && |xs| >= 2 && xs[0].tag == 0x06 && OidOf(xs[0].body) == EXTENSION_REQUEST
      && xs[1].tag == 0x31 && ExtensionsName(xs[1].body, name)
  }

  /** CertificationRequestInfo (RFC 2986, section 4.1) for this name and this key. */
  ghost predicate InfoNames(body: Bytes, spki: Item, name: string, w: World) {
    exists cri: seq<Item> ::
      && Holds(body, cri) && |cri| == 4 && cri[0] == Item(0x02, [0])
      && cri[1].tag == 0x30 && SubjectNames(cri[1].body, name, w)
      && cri[2] == spki && spki.tag == 0x30 && Writable(spki) && w.keyOk(Encode(spki))
      && cri[3].tag == 0xa0 && AttributesName(cri[3].body, name)
  }

  ghost predicate Algorithm(body: Bytes, xs: seq<Item>) {
    Holds(body, xs) && |xs| >= 1 && xs[0].tag == 0x06
    && OidOf(xs[0].body) in {ECDSA_SHA256, ECDSA_SHA384, RSA_SHA256, RSA_SHA384}
  }

  ghost predicate SignedBy(cri: Bytes, spki: Bytes, alg: Bytes, bits: Bytes, w: World) {
    exists xs: seq<Item> ::
      Algorithm(alg, xs) && |bits| > 1 && bits[0] == 0 && w.verifies(OidOf(xs[0].body), cri, spki, bits[1..])
  }

  /** A PKCS#10 request for this one name, signed by the holder of the key it carries. */
  ghost predicate IsRequest(der: Bytes, spki: Item, name: string, w: World) {
    exists top: Item, parts: seq<Item> ::
      && |der| <= 8192 && Writable(top) && der == Encode(top) && top.tag == 0x30
      && Holds(top.body, parts) && |parts| >= 3 && parts[0].tag == 0x30 && parts[1].tag == 0x30 && parts[2].tag == 0x03
      && InfoNames(parts[0].body, spki, name, w)
      && Writable(parts[0]) && Writable(spki)
      && SignedBy(Encode(parts[0]), Encode(spki), parts[1].body, parts[2].body, w)
  }

  // --- the parser accepts exactly those --------------------------------------------------------

  /** Opening an element succeeds exactly on a short list of canonical encodings. */
  lemma Opens(buf: Bytes, t: Tlv, depth: nat, xs: seq<Item>)
    requires Within(t, buf) && depth <= MAX_DEPTH
    ensures var r := Children(buf, t, depth);
            && (Holds(Body(buf, t), xs) <==> r.Ok? && View(buf, r.value) == xs)
            && (r.Ok? ==> Holds(Body(buf, t), View(buf, r.value)))
  {
    KidsExactly(buf, t, depth, xs);
  }

  /** The same for an element that must hold a single one. */
  lemma OpensOne(buf: Bytes, t: Tlv, depth: nat, x: Item)
    requires Within(t, buf) && depth <= MAX_DEPTH
    ensures var r := Children(buf, t, depth);
            && (Holds(Body(buf, t), [x]) <==> r.Ok? && |r.value| == 1 && Item(r.value[0].tag, Body(buf, r.value[0])) == x)
            && (r.Ok? && |r.value| == 1 ==> Holds(Body(buf, t), [Item(r.value[0].tag, Body(buf, r.value[0]))]))
  {
    Opens(buf, t, depth, [x]);
    var r := Children(buf, t, depth);
    if r.Ok? && |r.value| == 1 { assert View(buf, r.value) == [Item(r.value[0].tag, Body(buf, r.value[0]))]; }
  }

  function AsItem(buf: Bytes, t: Tlv): Item
    requires Within(t, buf)
  {
    Item(t.tag, Body(buf, t))
  }

  /** A child's raw bytes are its item's encoding. */
  lemma {:induction false} RawIsEncoded(buf: Bytes, off: nat, end: nat, have: nat, i: nat)
    requires off <= end <= |buf| && KidsFrom(buf, off, end, have).Ok? && i < |KidsFrom(buf, off, end, have).value|
    ensures var c := KidsFrom(buf, off, end, have).value[i];
            Within(c, buf) && Writable(AsItem(buf, c)) && Raw(buf, c) == Encode(AsItem(buf, c))
    decreases end - off
  {
    hide ReadTlv, Encode, Writable;
    var c := ReadTlv(buf, off).value;
    if i == 0 {
      ReadIsWritten(buf, off);
    } else {
      RawIsEncoded(buf, c.end, end, have + 1, i - 1);
    }
  }

  lemma SubjectAccepted(der: Bytes, t: Tlv, name: string, w: World)
    requires Within(t, der) && ParseSubject(der, t, name, w).Ok?
    ensures t.tag == 0x30 && SubjectNames(Body(der, t), name, w)
  {
    hide Children, View, Holds, OidOf;
    var rdn := Children(der, t, 2).value[0];
    OpensOne(der, t, 2, AsItem(der, rdn));
    var ava := Children(der, rdn, 3).value[0];
    OpensOne(der, rdn, 3, AsItem(der, ava));
    Opens(der, ava, 4, View(der, Children(der, ava, 4).value));
  }

  lemma SubjectWritten(der: Bytes, t: Tlv, name: string, w: World)
    requires Within(t, der) && t.tag == 0x30 && SubjectNames(Body(der, t), name, w)
    ensures ParseSubject(der, t, name, w).Ok?
  {
    hide Children, View, Holds, OidOf;
    var rdn: Item, ava: Item, xs: seq<Item> :|
      && Holds(Body(der, t), [rdn]) && rdn.tag == 0x31 && Holds(rdn.body, [ava]) && ava.tag == 0x30
      && Holds(ava.body, xs) && |xs| >= 2 && xs[0].tag == 0x06 && OidOf(xs[0].body) == COMMON_NAME
      && xs[1].tag in {0x0c, 0x13, 0x16} && w.utf8Lower(xs[1].body) == name;
    OpensOne(der, t, 2, rdn);
    var r := Children(der, t, 2).value[0];
    OpensOne(der, r, 3, ava);
    Opens(der, Children(der, r, 3).value[0], 4, xs);
  }

  lemma SubjectExactly(der: Bytes, t: Tlv, name: string, w: World)
    requires Within(t, der)
    ensures ParseSubject(der, t, name, w).Ok? <==> t.tag == 0x30 && SubjectNames(Body(der, t), name, w)
  {
    hide ParseSubject, SubjectNames;
    if ParseSubject(der, t, name, w).Ok? { SubjectAccepted(der, t, name, w); }
    if t.tag == 0x30 && SubjectNames(Body(der, t), name, w) { SubjectWritten(der, t, name, w); }
  }

  lemma SanExactly(val: Bytes, name: string)
    ensures ParseSan(val, name).Ok? <==> SanNames(val, name)
  {
    hide Children, Holds, ReadTlv, Encode;
    if ParseSan(val, name).Ok? {
      var gn := ReadTlv(val, 0).value;
      ReadIsWritten(val, 0);
      assert val[0..gn.end] == val;
      OpensOne(val, gn, 7, AsItem(val, Children(val, gn, 7).value[0]));
    }
    if SanNames(val, name) {
      var gn: Item, san: Item :|
        && Writable(gn) && val == Encode(gn) && gn.tag == 0x30
        && Holds(gn.body, [san]) && san.tag == 0x82 && AsciiLower(san.body) == name;
      assert [] + Encode(gn) + [] == val;
      WrittenReads([], gn, []);
      OpensOne(val, ReadTlv(val, 0).value, 7, san);
    }
  }

  lemma ExtensionAccepted(der: Bytes, t: Tlv, name: string)
    requires Within(t, der) && ParseExtension(der, t, name).Ok?
    ensures ExtensionParts(Body(der, t), View(der, Children(der, t, 6).value), name)
  {
    hide Children, View, Holds, ParseSan, SanNames, OidOf;
    var cs := Children(der, t, 6).value;
    Opens(der, t, 6, View(der, cs));
    SanExactly(Body(der, cs[|cs| - 1]), name);
  }

  lemma ExtensionWritten(der: Bytes, t: Tlv, name: string, parts: seq<Item>)
    requires Within(t, der) && ExtensionParts(Body(der, t), parts, name)
    ensures ParseExtension(der, t, name).Ok?
  {
    hide Children, View, Holds, ParseSan, SanNames, OidOf;
    Opens(der, t, 6, parts);
    SanExactly(parts[|parts| - 1].body, name);
  }

  lemma ExtensionExactly(der: Bytes, t: Tlv, name: string)
    requires Within(t, der)
    ensures ParseExtension(der, t, name).Ok? <==> ExtensionNames(Body(der, t), name)
  {
    hide ParseExtension, ExtensionParts;
    if ParseExtension(der, t, name).Ok? { ExtensionAccepted(der, t, name); }
    if ExtensionNames(Body(der, t), name) {
      var parts: seq<Item> :| ExtensionParts(Body(der, t), parts, name);
      ExtensionWritten(der, t, name, parts);
    }
  }

  lemma ExtensionsExactly(der: Bytes, t: Tlv, name: string)
    requires Within(t, der)
    ensures ParseExtensions(der, t, name).Ok? <==> ExtensionsName(Body(der, t), name)
  {
    hide Children, Holds, ParseExtension, ExtensionNames;
    if ParseExtensions(der, t, name).Ok? {
      var exts := Children(der, t, 4).value[0];
      OpensOne(der, t, 4, AsItem(der, exts));
      var ext := Children(der, exts, 5).value[0];
      OpensOne(der, exts, 5, AsItem(der, ext));
      ExtensionExactly(der, ext, name);
    }
    if ExtensionsName(Body(der, t), name) {
      var exts: Item, ext: Item :|
        Holds(Body(der, t), [exts]) && exts.tag == 0x30 && Holds(exts.body, [ext]) && ext.tag == 0x30
        && ExtensionNames(ext.body, name);
      OpensOne(der, t, 4, exts);
      var e := Children(der, t, 4).value[0];
      OpensOne(der, e, 5, ext);
      ExtensionExactly(der, Children(der, e, 5).value[0], name);
    }
  }

  lemma AttributesExactly(der: Bytes, t: Tlv, name: string)
    requires Within(t, der)
    ensures ParseAttributes(der, t, name).Ok? <==> t.tag == 0xa0 && AttributesName(Body(der, t), name)
  {
    hide Children, View, Holds, ParseExtensions, ExtensionsName;
    if ParseAttributes(der, t, name).Ok? {
      var attr := Children(der, t, 2).value[0];
      OpensOne(der, t, 2, AsItem(der, attr));
      var cs := Children(der, attr, 3).value;
      Opens(der, attr, 3, View(der, cs));
      ExtensionsExactly(der, cs[1], name);
    }
    if t.tag == 0xa0 && AttributesName(Body(der, t), name) {
      var attr: Item, xs: seq<Item> :|
        && Holds(Body(der, t), [attr]) && attr.tag == 0x30
        && Holds(attr.body, xs) && |xs| >= 2 && xs[0].tag == 0x06 && OidOf(xs[0].body) == EXTENSION_REQUEST
        && xs[1].tag == 0x31 && ExtensionsName(xs[1].body, name);
      OpensOne(der, t, 2, attr);
      var a := Children(der, t, 2).value[0];
      Opens(der, a, 3, xs);
      ExtensionsExactly(der, Children(der, a, 3).value[1], name);
    }
  }

  /** A child opened from an element carries its own canonical encoding. */
  lemma RawChild(buf: Bytes, t: Tlv, depth: nat, i: nat)
    requires Within(t, buf) && Children(buf, t, depth).Ok? && i < |Children(buf, t, depth).value|
    ensures var c := Children(buf, t, depth).value[i];
            Writable(AsItem(buf, c)) && Raw(buf, c) == Encode(AsItem(buf, c))
  {
    RawIsEncoded(buf, t.start, t.end, 0, i);
  }

  lemma InfoAccepted(der: Bytes, t: Tlv, name: string, w: World)
    requires Within(t, der) && ParseInfo(der, t, name, w).Ok?
    ensures var k := ParseInfo(der, t, name, w).value;
            && Writable(AsItem(der, k)) && Raw(der, k) == Encode(AsItem(der, k))
            && InfoNames(Body(der, t), AsItem(der, k), name, w)
  {
    hide Children, View, Holds, ParseSubject, SubjectNames, ParseAttributes, AttributesName, Encode, Writable;
    var cs := Children(der, t, 1).value;
    Opens(der, t, 1, View(der, cs));
    SubjectExactly(der, cs[1], name, w);
    AttributesExactly(der, cs[3], name);
    RawChild(der, t, 1, 2);
  }

  lemma InfoWritten(der: Bytes, t: Tlv, name: string, w: World, spki: Item)
    requires Within(t, der) && InfoNames(Body(der, t), spki, name, w)
    ensures ParseInfo(der, t, name, w).Ok? && AsItem(der, ParseInfo(der, t, name, w).value) == spki
  {
    hide Children, View, Holds, SubjectNames, AttributesName, Encode, Writable, ParseInfo;
    var cri: seq<Item> :|
      && Holds(Body(der, t), cri) && |cri| == 4 && cri[0] == Item(0x02, [0])
      && cri[1].tag == 0x30 && SubjectNames(cri[1].body, name, w)
      && cri[2] == spki && spki.tag == 0x30 && Writable(spki) && w.keyOk(Encode(spki))
      && cri[3].tag == 0xa0 && AttributesName(cri[3].body, name);
    Opens(der, t, 1, cri);
    var cs := Children(der, t, 1).value;
    assert AsItem(der, cs[0]) == cri[0] && AsItem(der, cs[1]) == cri[1];
    assert AsItem(der, cs[2]) == cri[2] && AsItem(der, cs[3]) == cri[3];
    RawChild(der, t, 1, 2);
    InfoParsed(der, t, name, w, cs);
  }

  lemma InfoParsed(der: Bytes, t: Tlv, name: string, w: World, cs: seq<Tlv>)
    requires Within(t, der) && Children(der, t, 1) == Ok(cs) && |cs| == 4
    requires cs[0].tag == 0x02 && Body(der, cs[0]) == [0]
    requires cs[1].tag == 0x30 && SubjectNames(Body(der, cs[1]), name, w)
    requires cs[2].tag == 0x30 && w.keyOk(Raw(der, cs[2]))
    requires cs[3].tag == 0xa0 && AttributesName(Body(der, cs[3]), name)
    ensures ParseInfo(der, t, name, w) == Ok(cs[2])
  {
    hide Children, SubjectNames, AttributesName, ParseSubject, ParseAttributes, Raw, Body;
    SubjectExactly(der, cs[1], name, w);
    AttributesExactly(der, cs[3], name);
  }

  lemma InfoExactly(der: Bytes, t: Tlv, name: string, w: World, spki: Item)
    requires Within(t, der)
    ensures var r := ParseInfo(der, t, name, w);
            && (InfoNames(Body(der, t), spki, name, w) <==> r.Ok? && AsItem(der, r.value) == spki)
            && (r.Ok? ==> Writable(AsItem(der, r.value)) && Raw(der, r.value) == Encode(AsItem(der, r.value)))
  {
    hide ParseInfo, InfoNames, Encode, Writable;
    if ParseInfo(der, t, name, w).Ok? { InfoAccepted(der, t, name, w); }
    if InfoNames(Body(der, t), spki, name, w) { InfoWritten(der, t, name, w, spki); }
  }

  lemma SignatureExactly(der: Bytes, cri: Tlv, spki: Tlv, alg: Tlv, bits: Tlv, w: World)
    requires Within(cri, der) && Within(spki, der) && Within(alg, der) && Within(bits, der)
    ensures ParseSignature(der, cri, spki, alg, bits, w).Ok?
            <==> SignedBy(Raw(der, cri), Raw(der, spki), Body(der, alg), Body(der, bits), w)
  {
    hide Children, View, Holds;
    if ParseSignature(der, cri, spki, alg, bits, w).Ok? {
      Opens(der, alg, 1, View(der, Children(der, alg, 1).value));
    }
    if SignedBy(Raw(der, cri), Raw(der, spki), Body(der, alg), Body(der, bits), w) {
      var xs: seq<Item> :| Algorithm(Body(der, alg), xs)
        && |Body(der, bits)| > 1 && Body(der, bits)[0] == 0
        && w.verifies(OidOf(xs[0].body), Raw(der, cri), Raw(der, spki), Body(der, bits)[1..]);
      Opens(der, alg, 1, xs);
    }
  }

  // --- main results --------------------------------------------------------------------------------

  /** The relay accepts a request exactly when it is one: one CommonName and one dNSName,
      both the asked name, every length canonical, signed by the key it certifies. */
  lemma AcceptsExactlyRequests(der: Bytes, spki: Item, name: string, w: World)
    requires Writable(spki)
    ensures IsRequest(der, spki, name, w) <==> ParseCsr(der, name, w) == Ok(Encode(spki))
    ensures ParseCsr(der, name, w).Ok? ==> exists k: Item :: Writable(k) && IsRequest(der, k, name, w)
  {
    hide Children, View, Holds, ReadTlv, Encode, Writable, ParseInfo, InfoNames, ParseSignature, SignedBy;
    if ParseCsr(der, name, w).Ok? {
      var top := ReadTlv(der, 0).value;
      ReadIsWritten(der, 0);
      assert der[0..top.end] == der;
      var cs := Children(der, top, 0).value;
      Opens(der, top, 0, View(der, cs));
      var k := ParseInfo(der, cs[0], name, w).value;
      InfoExactly(der, cs[0], name, w, AsItem(der, k));
      SignatureExactly(der, cs[0], k, cs[1], cs[2], w);
      RawChild(der, top, 0, 0);
      assert IsRequest(der, AsItem(der, k), name, w);
      if Encode(spki) == Encode(AsItem(der, k)) { EncodeInjective(spki, AsItem(der, k)); }
    }
    if IsRequest(der, spki, name, w) {
      var top: Item, parts: seq<Item> :|
        && |der| <= 8192 && Writable(top) && der == Encode(top) && top.tag == 0x30
        && Holds(top.body, parts) && |parts| >= 3 && parts[0].tag == 0x30 && parts[1].tag == 0x30 && parts[2].tag == 0x03
        && InfoNames(parts[0].body, spki, name, w)
        && Writable(parts[0]) && Writable(spki)
        && SignedBy(Encode(parts[0]), Encode(spki), parts[1].body, parts[2].body, w);
      assert [] + Encode(top) + [] == der;
      WrittenReads([], top, []);
      var t := ReadTlv(der, 0).value;
      Opens(der, t, 0, parts);
      var cs := Children(der, t, 0).value;
      InfoExactly(der, cs[0], name, w, spki);
      RawChild(der, t, 0, 0);
      SignatureExactly(der, cs[0], ParseInfo(der, cs[0], name, w).value, cs[1], cs[2], w);
    }
  }

  lemma EncodeInjective(x: Item, y: Item)
    requires Writable(x) && Writable(y) && Encode(x) == Encode(y)
    ensures x == y
  {
    assert [] + Encode(x) + [] == Encode(x) && [] + Encode(y) + [] == Encode(y);
    WrittenReads([], x, []);
    WrittenReads([], y, []);
  }

  // --- the request writer of supervisor.js --------------------------------------------------------

  function Digits128(x: nat): Bytes {
    if x == 0 then [] else Digits128(x / 128) + [128 + x % 128]
  }

  function ArcBytes(arcs: seq<nat>): Bytes {
    if arcs == [] then [] else Digits128(arcs[0] / 128) + [arcs[0] % 128] + ArcBytes(arcs[1..])
  }

  /** derOid's contents. */
  function OidBody(oid: seq<nat>): Bytes
    requires |oid| >= 2 && oid[0] <= 2 && oid[1] < 40
  {
    [40 * oid[0] + oid[1]] + ArcBytes(oid[2..])
  }

  lemma {:induction false} DigitsRead(x: nat, rest: Bytes)
    ensures Arcs(Digits128(x) + rest, 0) == Arcs(rest, x)
  {
    if x == 0 {
      assert [] + rest == rest;
    } else {
      var d: Bytes := [128 + x % 128];
      assert Digits128(x) + rest == Digits128(x / 128) + (d + rest);
      DigitsRead(x / 128, d + rest);
      assert (d + rest)[1..] == rest;
    }
  }

  lemma {:induction false} ArcsRoundTrip(arcs: seq<nat>)
    ensures Arcs(ArcBytes(arcs), 0) == arcs
  {
    if arcs != [] {
      var rest := ArcBytes(arcs[1..]);
      var tail: Bytes := [arcs[0] % 128] + rest;
      assert ArcBytes(arcs) == Digits128(arcs[0] / 128) + tail;
      DigitsRead(arcs[0] / 128, tail);
      assert tail[1..] == rest;
      ArcsRoundTrip(arcs[1..]);
    }
  }

  /** A written identifier reads back as its arcs. */
  lemma OidRoundTrip(oid: seq<nat>)
    requires |oid| >= 2 && oid[0] <= 2 && oid[1] < 40
    ensures OidOf(OidBody(oid)) == oid
  {
    ArcsRoundTrip(oid[2..]);
    assert OidBody(oid)[1..] == ArcBytes(oid[2..]);
    assert oid == [oid[0], oid[1]] + oid[2..];
  }

  lemma EncodedSize(x: Item)
    requires Writable(x)
    ensures |Encode(x)| <= |x.body| + 6
  {
    if |x.body| >= 128 { ShortBytes(|x.body|); }
  }

  /** An upper bound on the bytes a list of elements takes. */
  function Total(parts: seq<Item>): nat {
    if parts == [] then 0 else |parts[0].body| + 6 + Total(parts[1..])
  }

  /** The bytes `b` stand somewhere in `a`. */
  ghost predicate Inside(a: Bytes, b: Bytes) { exists pre: Bytes, post: Bytes :: a == pre + b + post }

  lemma InsideTwice(a: Bytes, b: Bytes, c: Bytes)
    requires Inside(a, b) && Inside(b, c)
    ensures Inside(a, c)
  {
    var p, q: Bytes :| a == p + b + q;
    var r, s: Bytes :| b == r + c + s;
    assert a == (p + r) + c + (s + q);
  }

  lemma BodyInside(x: Item)
    requires Writable(x)
    ensures Inside(Encode(x), x.body)
  {
    var n := |Encode(x)| - |x.body|;
    assert Encode(x)[n..] == x.body;
    assert Encode(x) == Encode(x)[..n] + x.body + [];
  }

  /** What stands in a part stands in the element that holds it. */
  lemma {:induction false} PartInside(body: Bytes, parts: seq<Item>, i: nat, b: Bytes)
    requires Holds(body, parts) && i < |parts| && Inside(parts[i].body, b)
    ensures Inside(body, b)
  {
    hide Encode;
    BodyInside(parts[i]);
    InsideTwice(Encode(parts[i]), parts[i].body, b);
    EncodedInside(parts, i);
    InsideTwice(body, Encode(parts[i]), b);
  }

  lemma {:induction false} EncodedInside(parts: seq<Item>, i: nat)
    requires i < |parts| && AllWritable(parts)
    ensures Inside(EncodeAll(parts), Encode(parts[i]))
  {
    hide Encode;
    assert parts == [parts[0]] + parts[1..];
    EncodeCons(parts[0], parts[1..]);
    var rest := EncodeAll(parts[1..]);
    if i == 0 {
      assert EncodeAll(parts) == [] + Encode(parts[0]) + rest;
    } else {
      EncodedInside(parts[1..], i - 1);
      assert EncodeAll(parts) == Encode(parts[0]) + rest + [];
      InsideTwice(EncodeAll(parts), rest, Encode(parts[i]));
    }
  }

  /** derTlv: an element holding the given ones. */
  method DerTlv(tag: byte, parts: seq<Item>) returns (r: Item)
    requires |parts| <= MAX_KIDS && Total(parts) < LEN_LIMIT
    ensures r.tag == tag && Holds(r.body, parts) && |r.body| <= Total(parts)
  {
    TotalBounds(parts);
    r := Item(tag, EncodeAll(parts));
  }

  lemma {:induction false} TotalBounds(parts: seq<Item>)
    requires Total(parts) < LEN_LIMIT
    ensures AllWritable(parts) && |EncodeAll(parts)| <= Total(parts)
  {
    hide Encode;
    if parts != [] {
      TotalBounds(parts[1..]);
      EncodedSize(parts[0]);
      EncodeCons(parts[0], parts[1..]);
      assert parts == [parts[0]] + parts[1..];
    }
  }

  lemma TotalOfFew(a: Item, b: Item, c: Item, d: Item)
    ensures Total([a]) == |a.body| + 6
    ensures Total([a, b]) == |a.body| + |b.body| + 12
    ensures Total([a, b, c]) == |a.body| + |b.body| + |c.body| + 18
    ensures Total([a, b, c, d]) == |a.body| + |b.body| + |c.body| + |d.body| + 24
  {
    assert [d][1..] == [] && [c][1..] == [] && [b][1..] == [] && [a][1..] == [];
    assert [a, b][1..] == [b] && [b, c][1..] == [c] && [c, d][1..] == [d];
    assert Total([d]) == |d.body| + 6 && Total([c]) == |c.body| + 6 && Total([b]) == |b.body| + 6;
    assert [a, b, c][1..] == [b, c] && [b, c, d][1..] == [c, d];
    assert [a, b, c, d][1..] == [b, c, d];
    assert Total([c, d]) == |c.body| + |d.body| + 12;
    assert Total([b, c, d]) == |b.body| + |c.body| + |d.body| + 18;
  }

  lemma ShortDigits(x: nat)
    requires x < 2097152
    ensures |Digits128(x)| <= 3
  {
    var a, b, c := x / 128, x / 128 / 128, x / 128 / 128 / 128;
    assert c == 0;
    assert |Digits128(b)| <= 1;
    assert |Digits128(a)| <= 2;
  }

  /** Arcs below 2^28, as every registered identifier here has. */
  predicate ShortOid(oid: seq<nat>) {
    2 <= |oid| <= 8 && oid[0] <= 2 && oid[1] < 40 && forall i | 2 <= i < |oid| :: oid[i] < 268435456
  }

  lemma {:induction false} ArcsSize(arcs: seq<nat>)
    requires forall i | 0 <= i < |arcs| :: arcs[i] < 268435456
    ensures |ArcBytes(arcs)| <= 4 * |arcs|
  {
    if arcs != [] {
      ShortDigits(arcs[0] / 128);
      ArcsSize(arcs[1..]);
    }
  }

  function OidItem(oid: seq<nat>): (r: Item)
    requires ShortOid(oid)
    ensures Writable(r) && |r.body| <= 25 && r.tag == 0x06 && OidOf(r.body) == oid
  {
    OidRoundTrip(oid);
    ArcsSize(oid[2..]);
    Item(0x06, OidBody(oid))
  }

  predicate IsLowerAscii(name: string) { forall c <- name :: c as int < 128 && LowerChar(c) == c }

  function CharByte(c: char): byte { if c as int < 128 then c as int else 63 }

  function AsciiBytes(name: string): Bytes {
    seq(|name|, i requires 0 <= i < |name| => CharByte(name[i]))
  }

  lemma AsciiReads(name: string)
    requires IsLowerAscii(name)
    ensures AsciiLower(AsciiBytes(name)) == name
  {
    forall i | 0 <= i < |name| ensures AsciiLower(AsciiBytes(name))[i] == name[i] {
      assert name[i] in name;
    }
  }

  predicate Name(name: string, w: World) {
    IsLowerAscii(name) && |name| <= 253 && w.utf8Lower(AsciiBytes(name)) == name
  }

  predicate Key(spki: Item, w: World) {
    spki.tag == 0x30 && |spki.body| <= 4096 && w.keyOk(Encode(spki))
  }

  /** GeneralNames holding the one dNSName, as the octets of the extension value. */
  method WriteSan(dns: Bytes, name: string) returns (val: Bytes)
    requires AsciiLower(dns) == name && |name| <= 253
    ensures |val| <= 265 && SanNames(val, name) && Inside(val, dns)
  {
    hide Encode, Total, Holds, Inside;
    var san := Item(0x82, dns);
    TotalOfFew(san, san, san, san);
    var gn := DerTlv(0x30, [san]);
    EncodedSize(gn);
    val := Encode(gn);
    ItselfInside(dns);
    PartInside(gn.body, [san], 0, dns);
    BodyInside(gn);
    InsideTwice(val, gn.body, dns);
  }

  lemma ItselfInside(b: Bytes)
    ensures Inside(b, b)
  {
    assert b == [] + b + [];
  }

  method WriteAttributes(dns: Bytes, name: string) returns (r: Item)
    requires AsciiLower(dns) == name && |name| <= 253
    ensures r.tag == 0xa0 && |r.body| <= 700 && AttributesName(r.body, name) && Inside(r.body, dns)
  {
    hide Encode, Total, Holds, SanNames, OidOf, Inside;
    var val := WriteSan(dns, name);
    var octets := Item(0x04, val);
    var sanOid, reqOid := OidItem(SUBJECT_ALT_NAME), OidItem(EXTENSION_REQUEST);
    TotalOfFew(sanOid, octets, octets, octets);
    var ext := DerTlv(0x30, [sanOid, octets]);
    assert ExtensionParts(ext.body, [sanOid, octets], name);
    hide ExtensionNames;
    TotalOfFew(ext, ext, ext, ext);
    var exts := DerTlv(0x30, [ext]);
    TotalOfFew(exts, ext, ext, ext);
    var values := DerTlv(0x31, [exts]);
    assert ExtensionsName(values.body, name);
    hide ExtensionsName;
    TotalOfFew(reqOid, values, ext, ext);
    var attr := DerTlv(0x30, [reqOid, values]);
    TotalOfFew(attr, ext, ext, ext);
    r := DerTlv(0xa0, [attr]);
    PartInside(ext.body, [sanOid, octets], 1, dns);
    PartInside(exts.body, [ext], 0, dns);
    PartInside(values.body, [exts], 0, dns);
    PartInside(attr.body, [reqOid, values], 1, dns);
    PartInside(r.body, [attr], 0, dns);
  }

  method WriteSubject(name: string, w: World) returns (r: Item)
    requires Name(name, w)
    ensures r.tag == 0x30 && |r.body| <= 400 && SubjectNames(r.body, name, w)
  {
    hide Encode, Total, Holds, OidOf;
    var oid, cn := OidItem(COMMON_NAME), Item(0x0c, AsciiBytes(name));
    TotalOfFew(oid, cn, cn, cn);
    var ava := DerTlv(0x30, [oid, cn]);
    TotalOfFew(ava, cn, cn, cn);
    var rdn := DerTlv(0x31, [ava]);
    TotalOfFew(rdn, cn, cn, cn);
    r := DerTlv(0x30, [rdn]);
  }

  /** The part that is signed. */
  method WriteInfo(dns: Bytes, name: string, spki: Item, w: World) returns (r: Item)
    requires Name(name, w) && Key(spki, w) && AsciiLower(dns) == name
    ensures r.tag == 0x30 && |r.body| <= 5300 && InfoNames(r.body, spki, name, w) && Inside(r.body, dns)
  {
    hide Encode, Total, Holds, SubjectNames, AttributesName, InfoNames, Inside;
    var subject := WriteSubject(name, w);
    var attrs := WriteAttributes(dns, name);
    var version := Item(0x02, [0]);
    TotalOfFew(version, subject, spki, attrs);
    r := DerTlv(0x30, [version, subject, spki, attrs]);
    InfoOf(r.body, subject, spki, attrs, name, w);
    PartInside(r.body, [version, subject, spki, attrs], 3, dns);
  }

  lemma InfoOf(body: Bytes, subject: Item, spki: Item, attrs: Item, name: string, w: World)
    requires Holds(body, [Item(0x02, [0]), subject, spki, attrs]) && Key(spki, w)
    requires subject.tag == 0x30 && SubjectNames(subject.body, name, w) && attrs.tag == 0xa0 && AttributesName(attrs.body, name)
    ensures InfoNames(body, spki, name, w)
  {
    hide Encode, Holds, SubjectNames, AttributesName;
  }

  method WriteAlgorithm() returns (alg: Item)
    ensures alg.tag == 0x30 && |alg.body| <= 100
    ensures exists oid: Item :: oid.tag == 0x06 && Holds(alg.body, [oid]) && OidOf(oid.body) == ECDSA_SHA256
  {
    hide Encode, Total, Holds, OidOf;
    var oid := OidItem(ECDSA_SHA256);
    TotalOfFew(oid, oid, oid, oid);
    alg := DerTlv(0x30, [oid]);
  }

  lemma SignedOf(info: Bytes, spki: Bytes, alg: Item, sig: Bytes, w: World)
    requires exists oid: Item :: oid.tag == 0x06 && Holds(alg.body, [oid]) && OidOf(oid.body) == ECDSA_SHA256
    requires 0 < |sig| && w.verifies(ECDSA_SHA256, info, spki, sig)
    ensures SignedBy(info, spki, alg.body, [0] + sig, w)
  {
    hide Holds, OidOf;
    var oid: Item :| oid.tag == 0x06 && Holds(alg.body, [oid]) && OidOf(oid.body) == ECDSA_SHA256;
    assert Algorithm(alg.body, [oid]);
    assert ([0] + sig)[1..] == sig;
  }

  /** A request whose dNSName has the given octets. */
  method WriteCsr(dns: Bytes, name: string, spki: Item, sign: Bytes -> Bytes, w: World) returns (der: Bytes)
    requires Name(name, w) && Key(spki, w) && AsciiLower(dns) == name
    requires forall m: Bytes :: 0 < |sign(m)| <= 1024 && w.verifies(ECDSA_SHA256, m, Encode(spki), sign(m))
    ensures ParseCsr(der, name, w) == Ok(Encode(spki)) && Inside(der, dns)
  {
    hide Encode, Total, Holds, InfoNames, OidOf, ParseCsr, SignedBy, IsRequest, IsLowerAscii, Inside;
    var info := WriteInfo(dns, name, spki, w);
    var sig := sign(Encode(info));
    var bits := Item(0x03, [0] + sig);
    var alg := WriteAlgorithm();
    SignedOf(Encode(info), Encode(spki), alg, sig, w);
    TotalOfFew(info, alg, bits, info);
    var top := DerTlv(0x30, [info, alg, bits]);
    EncodedSize(top);
    der := Encode(top);
    WrittenIsRequest(top, info, alg, bits, spki, name, w);
    AcceptsExactlyRequests(der, spki, name, w);
    PartInside(top.body, [info, alg, bits], 0, dns);
    BodyInside(top);
    InsideTwice(der, top.body, dns);
  }

  /** buildCsr: what a box writes for one name with its key, the relay accepts, and hands on
      exactly that key. `sign` is the box's own signature over the bytes it is given. */
  method BuildCsr(name: string, spki: Item, sign: Bytes -> Bytes, w: World) returns (der: Bytes)
    requires Name(name, w) && Key(spki, w)
    requires forall m: Bytes :: 0 < |sign(m)| <= 1024 && w.verifies(ECDSA_SHA256, m, Encode(spki), sign(m))
    ensures ParseCsr(der, name, w) == Ok(Encode(spki)) && Inside(der, AsciiBytes(name))
  {
    hide Encode, Inside, ParseCsr, IsLowerAscii;
    assert Name(name, w);
    AsciiReads(name);
    der := WriteCsr(AsciiBytes(name), name, spki, sign, w);
  }

  lemma WrittenIsRequest(top: Item, info: Item, alg: Item, bits: Item, spki: Item, name: string, w: World)
    requires Writable(top) && Writable(info) && Writable(spki) && |Encode(top)| <= 8192 && top.tag == 0x30
    requires Holds(top.body, [info, alg, bits]) && info.tag == 0x30 && alg.tag == 0x30 && bits.tag == 0x03
    requires InfoNames(info.body, spki, name, w) && SignedBy(Encode(info), Encode(spki), alg.body, bits.body, w)
    ensures IsRequest(Encode(top), spki, name, w)
  {
    hide Encode, Holds, InfoNames, SignedBy;
  }

  /** "Exactly this dNSName" holds byte for byte only for 7-bit names: the text decoder
      drops the high bit first, so a differing byte string can pass for the name. */
  lemma SanBytesExactly(san: Bytes, name: string)
    requires IsLowerAscii(name) && AsciiLower(san) == name
    ensures (forall i | 0 <= i < |san| :: LowerChar(san[i] as char) == name[i]) <==> (forall i | 0 <= i < |san| :: san[i] < 128)
  {
    assert forall i | 0 <= i < |san| :: AsciiLower(san)[i] == name[i];
    assert forall i | 0 <= i < |san| :: name[i] in name;
  }

  /** Such a request, for any name and key: its one dNSName is not the name's bytes, and it is
      accepted for the name. */
  method HighBitSanAccepted(name: string, spki: Item, sign: Bytes -> Bytes, w: World) returns (dns: Bytes, der: Bytes)
    requires Name(name, w) && name != "" && Key(spki, w)
    requires forall m: Bytes :: 0 < |sign(m)| <= 1024 && w.verifies(ECDSA_SHA256, m, Encode(spki), sign(m))
    ensures |dns| == |name| && dns[0] >= 128 && dns != AsciiBytes(name) && Inside(der, dns)
    ensures ParseCsr(der, name, w) == Ok(Encode(spki))
  {
    hide Encode, Inside, ParseCsr;
    AsciiReads(name);
    var plain := AsciiBytes(name);
    assert name[0] in name;
    dns := plain[0 := plain[0] + 128];
    assert AsciiLower(dns) == AsciiLower(plain);
    der := WriteCsr(dns, name, spki, sign, w);
  }
}
