/**
 * QMI messages and their type-length-value lists: what the builders of fibocom-dial/src/QMIThread.c:99-244,
 * 491-643 intend, how it looks in bytes, and what the finders of QMIThread.c:67-89 and
 * fibo_qmimsg_server.c:756-771 mean on it.
 */
module TlvModel {
  import opened Options

  type byte = n: int | 0 <= n < 256

  datatype Tlv = Tlv(kind: byte, value: seq<byte>)

  const TLV_HEADER := 3
  const HEADERS := 13      // QCQMI_HDR, QCQMUX_HDR and QCQMUX_MSG_HDR: 6 + 3 + 4
  const BUFFER_SIZE := 256
  const BY_INDEX := 0x1000

  function Low(n: int): byte { n % 256 }

  function High(n: int): byte { n / 256 % 256 }

  function Le16(low: byte, high: byte): nat { low + 256 * high }

  lemma Le16Back(n: nat)
    requires n < 65536
    ensures Le16(Low(n), High(n)) == n
  {
  }

  lemma Le16Only(low: byte, high: byte)
    ensures Low(Le16(low, high)) == low && High(Le16(low, high)) == high
  {
  }

  predicate Short(t: Tlv) { |t.value| < 65536 }

  function One(t: Tlv): seq<byte> {
    [t.kind, Low(|t.value|), High(|t.value|)] + t.value
  }

  function Encode(ts: seq<Tlv>): seq<byte> {
    if ts == [] then [] else One(ts[0]) + Encode(ts[1..])
  }

  predicate AllShort(ts: seq<Tlv>) { forall i :: 0 <= i < |ts| ==> Short(ts[i]) }

  // Reading a list back, or None where a header or a value is cut off.
  function Walk(bytes: seq<byte>): Option<seq<Tlv>> {
    if bytes == [] then Some([])
    else if |bytes| < TLV_HEADER then None
    else
      var size := Le16(bytes[1], bytes[2]);
      if |bytes| < TLV_HEADER + size then None
      else match Walk(bytes[TLV_HEADER + size..])
        case None => None
        case Some(rest) => Some([Tlv(bytes[0], bytes[TLV_HEADER..TLV_HEADER + size])] + rest)
  }

  // ---- the list a message is meant to carry ----

  datatype Credentials = Credentials(user: Option<seq<byte>>, password: Option<seq<byte>>, auth: int)
  datatype Profile = Profile(apn: Option<seq<byte>>, login: Credentials, pdp: int, pdpIndex: int,
                             ipFamily: int, ipv4: bool, ipv6: bool)

  function Ascii(s: string): seq<byte> {
    seq(|s|, i requires 0 <= i < |s| => s[i] as int % 256)
  }

  predicate Blank(s: Option<seq<byte>>) { s.None? || s.value == [] }

  // On a CDMA network with no credentials of its own the profile uses the carrier's.
  function Login(l: Credentials, cdma: bool): Credentials {
    if cdma && Blank(l.user) && Blank(l.password)
    then Credentials(Some(Ascii("ctnet@mycdma.cn")), Some(Ascii("vnet.mobi")), 2)
    else l
  }

  function Optional(kind: byte, s: Option<seq<byte>>): seq<Tlv> {
    if s.None? then [] else [Tlv(kind, s.value)]
  }

  function Auth(kind: byte, l: Credentials): seq<Tlv> {
    if l.user.None? || l.password.None? then [] else [Tlv(kind, [Low(l.auth)])]
  }

  function StartHead(p: Profile, cdma: bool): seq<Tlv> {
    var l := Login(p.login, cdma);
    [Tlv(0x30, [if cdma then 2 else 1])]
      + (if cdma then [] else Optional(0x14, p.apn))
      + Optional(0x17, l.user) + Optional(0x18, l.password) + Auth(0x16, l)
  }

  function StartList(p: Profile, cdma: bool): seq<Tlv> {
    StartHead(p, cdma)
      + [Tlv(0x19, [Low(p.ipFamily)])]
      + (if p.pdp != 0 && !cdma then [Tlv(0x31, [Low(p.pdpIndex)])] else [])
  }

  function PdpType(p: Profile): byte { if p.ipv4 && p.ipv6 then 3 else if p.ipv6 then 2 else 0 }

  // What create and modify say after their first value: 0x01 with the profile type, and its index in modify.
  function SettingsList(p: Profile): seq<Tlv> {
    [Tlv(0x11, [PdpType(p)])] + Optional(0x14, p.apn)
      + Optional(0x1B, p.login.user) + Optional(0x1C, p.login.password) + Auth(0x1D, p.login)
  }

  function CreateList(p: Profile): seq<Tlv> { [Tlv(0x01, [0])] + SettingsList(p) }

  function ModifyList(p: Profile): seq<Tlv> { [Tlv(0x01, [0, Low(p.pdpIndex)])] + SettingsList(p) }

  // ---- the whole message ----

  datatype Head = Head(qmiType: byte, client: byte, transaction: nat, message: nat)

  function Headers(h: Head, size: nat): seq<byte> {
    [1, Low(size + 12), High(size + 12), 0, h.qmiType, h.client,
     0, Low(h.transaction), High(h.transaction),
     Low(h.message), High(h.message), Low(size), High(size)]
  }

  function Message(h: Head, ts: seq<Tlv>): seq<byte> {
    Headers(h, |Encode(ts)|) + Encode(ts)
  }

  // ---- looking a value up ----

  // The first of that kind, or the length of the list.
  function First(ts: seq<Tlv>, kind: int): (i: nat)
    ensures i <= |ts|
    ensures i < |ts| ==> ts[i].kind == kind
    ensures forall j :: 0 <= j < i ==> ts[j].kind != kind
  {
    if ts == [] || ts[0].kind == kind then 0 else 1 + First(ts[1..], kind)
  }

  function Offset(ts: seq<Tlv>, i: nat): nat
    requires i <= |ts|
  {
    |Encode(ts[..i])|
  }

  // Which value is wanted: by kind, or by position from BY_INDEX + 1 on.
  function Wanted(ts: seq<Tlv>, want: int): nat {
    if want > BY_INDEX then want - BY_INDEX - 1 else First(ts, want)
  }

  // What GetTLV points at in the payload, as an offset.
  function Got(ts: seq<Tlv>, want: int): Option<nat> {
    var i := Wanted(ts, want);
    if i < |ts| then Some(Offset(ts, i)) else None
  }

  // What qmi_find_tlv points at when `tail` follows the list.
  function Found(ts: seq<Tlv>, tail: seq<byte>, kind: byte): Option<nat> {
    var i := First(ts, kind);
    if i < |ts| then Some(Offset(ts, i))
    else if tail != [] && tail[0] == kind then Some(|Encode(ts)|)
    else None
  }

  // The value of the first of that kind.
  function Lookup(ts: seq<Tlv>, kind: byte): Option<seq<byte>> {
    var i := First(ts, kind);
    if i < |ts| then Some(ts[i].value) else None
  }

  // ---- lists and bytes ----

  lemma {:induction false} EncodeAppend(a: seq<Tlv>, b: seq<Tlv>)
    ensures Encode(a + b) == Encode(a) + Encode(b)
  {
    if a == [] {
      assert a + b == b;
    } else {
      assert (a + b)[1..] == a[1..] + b;
      EncodeAppend(a[1..], b);
    }
  }

  // Where the i-th value of a list sits among its bytes.
  lemma EncodeAt(ts: seq<Tlv>, i: nat)
    requires i < |ts|
    ensures Encode(ts) == Encode(ts[..i]) + One(ts[i]) + Encode(ts[i + 1..])
    ensures Offset(ts, i + 1) == Offset(ts, i) + |One(ts[i])|
  {
    assert ts == ts[..i] + ts[i..];
    EncodeAppend(ts[..i], ts[i..]);
    assert ts[..i + 1] == ts[..i] + [ts[i]];
    EncodeAppend(ts[..i], [ts[i]]);
    assert Encode([ts[i]]) == One(ts[i]) + Encode([]);
  }

  lemma OneReads(t: Tlv, rest: seq<byte>)
    requires Short(t)
    ensures var b := One(t) + rest;
      && |b| >= TLV_HEADER && b[0] == t.kind && Le16(b[1], b[2]) == |t.value|
      && |b| >= TLV_HEADER + |t.value| && b[TLV_HEADER..TLV_HEADER + |t.value|] == t.value
      && b[TLV_HEADER + |t.value|..] == rest
  {
    Le16Back(|t.value|);
  }

  // Walking the bytes of a list gives the list back, and nothing else does.
  lemma {:induction false} WalkEncode(ts: seq<Tlv>)
    requires AllShort(ts)
    ensures Walk(Encode(ts)) == Some(ts)
  {
    if ts != [] {
      WalkEncode(ts[1..]);
      OneReads(ts[0], Encode(ts[1..]));
      assert ts == [ts[0]] + ts[1..];
    }
  }

  lemma {:induction false} EncodeWalk(bytes: seq<byte>)
    requires Walk(bytes).Some?
    ensures AllShort(Walk(bytes).value) && Encode(Walk(bytes).value) == bytes
  {
    if bytes != [] {
      var size := Le16(bytes[1], bytes[2]);
      var rest := bytes[TLV_HEADER + size..];
      EncodeWalk(rest);
      WalkedOne(bytes, size, Tlv(bytes[0], bytes[TLV_HEADER..TLV_HEADER + size]), rest);
      EncodeHead(Tlv(bytes[0], bytes[TLV_HEADER..TLV_HEADER + size]), Walk(rest).value);
    }
  }

  lemma WalkedOne(bytes: seq<byte>, size: nat, t: Tlv, rest: seq<byte>)
    requires |bytes| >= TLV_HEADER + size && size == Le16(bytes[1], bytes[2])
    requires t == Tlv(bytes[0], bytes[TLV_HEADER..TLV_HEADER + size]) && rest == bytes[TLV_HEADER + size..]
    ensures Short(t) && One(t) + rest == bytes
  {
    Le16Only(bytes[1], bytes[2]);
  }

  lemma EncodeHead(t: Tlv, ts: seq<Tlv>)
    ensures Encode([t] + ts) == One(t) + Encode(ts)
    ensures Short(t) && AllShort(ts) ==> AllShort([t] + ts)
  {
    assert ([t] + ts)[1..] == ts;
  }

  lemma HeadersAt(h: Head, size: nat)
    ensures var b := Headers(h, size);
      && |b| == HEADERS && b[1] == Low(size + 12) && b[2] == High(size + 12)
      && b[11] == Low(size) && b[12] == High(size)
  {
  }

  // A message says its own size twice, and both are right.
  lemma MessageLengths(h: Head, ts: seq<Tlv>)
    requires HEADERS + |Encode(ts)| <= BUFFER_SIZE
    ensures var m := Message(h, ts);
      && |m| >= HEADERS && Le16(m[1], m[2]) + 1 == |m|
      && Le16(m[11], m[12]) == |Encode(ts)| == |m| - HEADERS
      && m[HEADERS..] == Encode(ts)
  {
    var size := |Encode(ts)|;
    HeadersAt(h, size);
    Le16Back(size);
    Le16Back(size + 12);
    Joined(Headers(h, size), Encode(ts));
  }

  lemma Joined(a: seq<byte>, b: seq<byte>)
    ensures |a + b| == |a| + |b| && (a + b)[|a|..] == b
    ensures forall k :: 0 <= k < |a| ==> (a + b)[k] == a[k]
  {
  }

  // No value of the list is of that kind, and a stray byte after it passes for one.
  predicate Misleads(ts: seq<Tlv>, tail: seq<byte>, kind: byte) {
    tail != [] && tail[0] == kind && forall i :: 0 <= i < |ts| ==> ts[i].kind != kind
  }

  // The two finders agree on a kind if and only if no stray byte after the list passes for it.
  lemma FindersAgree(ts: seq<Tlv>, tail: seq<byte>, kind: byte)
    ensures Found(ts, tail, kind) == Got(ts, kind) <==> !Misleads(ts, tail, kind)
  {
    if First(ts, kind) < |ts| {
      assert ts[First(ts, kind)].kind == kind;
    }
  }

  lemma WantedIs(ts: seq<Tlv>, i: nat, want: int)
    requires i < |ts|
    requires want == BY_INDEX + 1 + i || (want == ts[i].kind && forall j :: 0 <= j < i ==> ts[j].kind != want)
    ensures Wanted(ts, want) == i
  {
    if want <= BY_INDEX {
      var f := First(ts, want);
      assert f <= i;
    }
  }

  // Lookup by kind lands on the first of that kind; lookup by position i on the i-th.
  lemma GotReads(ts: seq<Tlv>, i: nat, want: int)
    requires AllShort(ts) && i < |ts|
    requires want == BY_INDEX + 1 + i || (want == ts[i].kind && forall j :: 0 <= j < i ==> ts[j].kind != want)
    ensures var at := Got(ts, want);
      && at.Some? && at.value + TLV_HEADER + |ts[i].value| <= |Encode(ts)|
      && Encode(ts)[at.value] == ts[i].kind
      && Encode(ts)[at.value + TLV_HEADER..at.value + TLV_HEADER + |ts[i].value|] == ts[i].value
  {
    WantedIs(ts, i, want);
    EncodeAt(ts, i);
    OneReads(ts[i], Encode(ts[i + 1..]));
    Shift(Encode(ts[..i]), One(ts[i]), Encode(ts[i + 1..]), Encode(ts), |ts[i].value|);
  }

  lemma Shift(before: seq<byte>, one: seq<byte>, after: seq<byte>, all: seq<byte>, size: nat)
    requires all == before + one + after && |one| == TLV_HEADER + size
    ensures all[|before|..] == one + after
    ensures all[|before|] == (one + after)[0]
    ensures all[|before| + TLV_HEADER..|before| + TLV_HEADER + size] == (one + after)[TLV_HEADER..TLV_HEADER + size]
  {
    assert all == before + (one + after);
  }

  // ---- what a profile's message says ----

  lemma {:induction false} LookupAppend(a: seq<Tlv>, b: seq<Tlv>, kind: byte)
    ensures Lookup(a + b, kind) == if Lookup(a, kind).Some? then Lookup(a, kind) else Lookup(b, kind)
  {
    if a == [] {
      assert a + b == b;
    } else {
      assert (a + b)[1..] == a[1..] + b;
      LookupAppend(a[1..], b, kind);
    }
  }

  lemma LookupParts(kind: byte, a: seq<Tlv>, b: seq<Tlv>, c: seq<Tlv>, d: seq<Tlv>, e: seq<Tlv>)
    ensures Lookup(a + b + c + d + e, kind) ==
            if Lookup(a, kind).Some? then Lookup(a, kind)
            else if Lookup(b, kind).Some? then Lookup(b, kind)
            else if Lookup(c, kind).Some? then Lookup(c, kind)
            else if Lookup(d, kind).Some? then Lookup(d, kind)
            else Lookup(e, kind)
  {
    LookupAppend(a + b + c + d, e, kind);
    LookupAppend(a + b + c, d, kind);
    LookupAppend(a + b, c, kind);
    LookupAppend(a, b, kind);
  }

  function AuthValue(l: Credentials): Option<seq<byte>> {
    if l.user.None? || l.password.None? then None else Some([Low(l.auth)])
  }

  lemma StartHeadSays(p: Profile, cdma: bool, kind: byte)
    ensures var l := Login(p.login, cdma);
      Lookup(StartHead(p, cdma), kind) ==
      if kind == 0x30 then Some([if cdma then 2 else 1])
      else if kind == 0x14 then (if cdma then None else p.apn)
      else if kind == 0x17 then l.user
      else if kind == 0x18 then l.password
      else if kind == 0x16 then AuthValue(l)
      else None
  {
    var l := Login(p.login, cdma);
    LookupParts(kind, [Tlv(0x30, [if cdma then 2 else 1])], if cdma then [] else Optional(0x14, p.apn),
                Optional(0x17, l.user), Optional(0x18, l.password), Auth(0x16, l));
  }

  // Every field of the profile that applies is in the start request, as it was, and no other is.
  lemma StartSays(p: Profile, cdma: bool, kind: byte)
    ensures Lookup(StartList(p, cdma), kind) ==
      if kind == 0x19 then Some([Low(p.ipFamily)])
      else if kind == 0x31 then (if p.pdp != 0 && !cdma then Some([Low(p.pdpIndex)]) else None)
      else if kind == 0x30 then Some([if cdma then 2 else 1])
      else if kind == 0x14 then (if cdma then None else p.apn)
      else if kind == 0x17 then Login(p.login, cdma).user
      else if kind == 0x18 then Login(p.login, cdma).password
      else if kind == 0x16 then AuthValue(Login(p.login, cdma))
      else None
  {
    var family := [Tlv(0x19, [Low(p.ipFamily)])];
    var index := if p.pdp != 0 && !cdma then [Tlv(0x31, [Low(p.pdpIndex)])] else [];
    LookupAppend(StartHead(p, cdma) + family, index, kind);
    LookupAppend(StartHead(p, cdma), family, kind);
    StartHeadSays(p, cdma, kind);
  }

  // The same for the profile settings that create and modify share.
  lemma SettingsSay(p: Profile, kind: byte)
    ensures Lookup(SettingsList(p), kind) ==
      if kind == 0x11 then Some([PdpType(p)])
      else if kind == 0x14 then p.apn
      else if kind == 0x1B then p.login.user
      else if kind == 0x1C then p.login.password
      else if kind == 0x1D then AuthValue(p.login)
      else None
  {
    LookupParts(kind, [Tlv(0x11, [PdpType(p)])], Optional(0x14, p.apn), Optional(0x1B, p.login.user),
                Optional(0x1C, p.login.password), Auth(0x1D, p.login));
  }

  // A profile's message read back from its bytes: walking them gives the intended list.
  lemma MessageRoundTrip(h: Head, ts: seq<Tlv>)
    requires AllShort(ts) && HEADERS + |Encode(ts)| <= BUFFER_SIZE
    ensures |Message(h, ts)| >= HEADERS && Walk(Message(h, ts)[HEADERS..]) == Some(ts)
  {
    MessageLengths(h, ts);
    WalkEncode(ts);
  }

  // ---- room in the buffer ----

  predicate IsText(t: Tlv) { t.kind == 0x14 || t.kind == 0x17 || t.kind == 0x18 || t.kind == 0x1B || t.kind == 0x1C }

  // The list fits the buffer, with room for the terminator that a text writes behind itself.
  predicate Fits(ts: seq<Tlv>) {
    HEADERS + |Encode(ts)| + (if ts != [] && IsText(ts[|ts| - 1]) then 1 else 0) <= BUFFER_SIZE
  }

  lemma FitsPrefix(a: seq<Tlv>, b: seq<Tlv>)
    requires Fits(a + b)
    ensures Fits(a)
  {
    EncodeAppend(a, b);
    if b == [] {
      assert a + b == a;
    } else {
      assert |Encode(b)| >= |One(b[0])| >= TLV_HEADER;
    }
  }

  lemma {:induction false} FitsShort(ts: seq<Tlv>)
    requires |Encode(ts)| < 65536
    ensures AllShort(ts)
  {
    if ts != [] { FitsShort(ts[1..]); }
  }
}
