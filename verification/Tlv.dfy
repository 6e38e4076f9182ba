/**
 * Building and searching QMI messages in place (fibocom-dial/src/QMIThread.c:67-244, 491-643 and
 * fibo_qmimsg_server.c:756-771).
 */
module TlvCode {
  import opened TlvModel
  import opened Options

  const TYPE_AT := 9
  const LENGTH_AT := 11

  // `len` bytes of values after the headers, and they are this list.
  ghost predicate Built(b: seq<byte>, pre: seq<byte>, len: nat, ts: seq<Tlv>) {
    HEADERS + len <= |b| && b[..HEADERS] == pre && b[HEADERS..HEADERS + len] == Encode(ts)
  }

  lemma BuiltNext(b: seq<byte>, c: seq<byte>, pre: seq<byte>, len: nat, ts: seq<Tlv>, t: Tlv)
    requires Built(b, pre, len, ts)
    requires |c| == |b| >= HEADERS + len + |One(t)|
    requires c[..HEADERS + len + |One(t)|] == b[..HEADERS + len] + One(t)
    ensures Built(c, pre, len + |One(t)|, ts + [t])
  {
    EncodeAppend(ts, [t]);
    assert Encode([t]) == One(t) + Encode([]);
    var n := HEADERS + len + |One(t)|;
    assert c[..HEADERS] == c[..n][..HEADERS] == b[..HEADERS];
    assert c[HEADERS..n] == c[..n][HEADERS..] == b[HEADERS..HEADERS + len] + One(t);
  }

  // The bytes of the text and its terminator.
  method QStrCpy(buf: array<byte>, at: nat, text: seq<byte>)
    requires at + |text| < buf.Length
    modifies buf
    ensures buf[..at + |text|] == old(buf[..at]) + text && buf[at + |text|] == 0
  {
    var i := 0;
    while i < |text|
      invariant i <= |text|
      invariant buf[..at + i] == old(buf[..at]) + text[..i]
    {
      buf[at + i] := text[i];
      i := i + 1;
    }
    buf[at + i] := 0;
  }

  method PutText(buf: array<byte>, len: nat, kind: byte, text: seq<byte>, ghost pre: seq<byte>, ghost ts: seq<Tlv>)
    returns (next: nat)
    requires buf.Length == BUFFER_SIZE && Built(buf[..], pre, len, ts)
    requires IsText(Tlv(kind, text)) && Fits(ts + [Tlv(kind, text)])
    modifies buf
    ensures Built(buf[..], pre, next, ts + [Tlv(kind, text)])
  {
    RoomFor(buf[..], pre, len, ts, Tlv(kind, text));
    ghost var was := buf[..];
    var at := HEADERS + len;
    buf[at] := kind;
    buf[at + 1] := Low(|text|);
    buf[at + 2] := High(|text|);
    assert buf[..at + TLV_HEADER] == was[..at] + [kind, Low(|text|), High(|text|)];
    QStrCpy(buf, at + TLV_HEADER, text);
    assert was[..at] + [kind, Low(|text|), High(|text|)] + text == was[..at] + One(Tlv(kind, text));
    BuiltNext(was, buf[..], pre, len, ts, Tlv(kind, text));
    next := len + TLV_HEADER + |text|;
  }

  lemma RoomFor(b: seq<byte>, pre: seq<byte>, len: nat, ts: seq<Tlv>, t: Tlv)
    requires Built(b, pre, len, ts) && Fits(ts + [t])
    ensures HEADERS + len + TLV_HEADER + |t.value| + (if IsText(t) then 1 else 0) <= BUFFER_SIZE
  {
    EncodeAppend(ts, [t]);
    assert Encode([t]) == One(t) + Encode([]);
  }

  method PutByte(buf: array<byte>, len: nat, kind: byte, value: int, ghost pre: seq<byte>, ghost ts: seq<Tlv>)
    returns (next: nat)
    requires buf.Length == BUFFER_SIZE && Built(buf[..], pre, len, ts)
    requires Fits(ts + [Tlv(kind, [Low(value)])])
    modifies buf
    ensures Built(buf[..], pre, next, ts + [Tlv(kind, [Low(value)])])
  {
    RoomFor(buf[..], pre, len, ts, Tlv(kind, [Low(value)]));
    ghost var was := buf[..];
    var at := HEADERS + len;
    buf[at] := kind;
    buf[at + 1] := Low(1);
    buf[at + 2] := High(1);
    buf[at + 3] := Low(value);
    assert buf[..at + 4] == was[..at] + One(Tlv(kind, [Low(value)]));
    BuiltNext(was, buf[..], pre, len, ts, Tlv(kind, [Low(value)]));
    next := len + 4;
  }

  // The block that every builder repeats for a text the profile may not have.
  method PutOptional(buf: array<byte>, len: nat, kind: byte, text: Option<seq<byte>>, ghost pre: seq<byte>,
                     ghost ts: seq<Tlv>)
    returns (next: nat)
    requires buf.Length == BUFFER_SIZE && Built(buf[..], pre, len, ts)
    requires IsText(Tlv(kind, [])) && Fits(ts + Optional(kind, text))
    modifies buf
    ensures Built(buf[..], pre, next, ts + Optional(kind, text))
  {
    next := len;
    assert ts + [] == ts;
    if text.Some? {
      next := PutText(buf, len, kind, text.value, pre, ts);
    }
  }

  method PutAuth(buf: array<byte>, len: nat, kind: byte, l: Credentials, ghost pre: seq<byte>, ghost ts: seq<Tlv>)
    returns (next: nat)
    requires buf.Length == BUFFER_SIZE && Built(buf[..], pre, len, ts)
    requires Fits(ts + Auth(kind, l))
    modifies buf
    ensures Built(buf[..], pre, next, ts + Auth(kind, l))
  {
    next := len;
    assert ts + [] == ts;
    if l.user.Some? && l.password.Some? {
      next := PutByte(buf, len, kind, l.auth, pre, ts);
    }
  }

  // A builder's promise: the list in the payload, its size plus the four bytes of type and length, and
  // nothing before the length field touched.
  ghost predicate Filled(was: seq<byte>, b: seq<byte>, size: nat, ts: seq<Tlv>) {
    && |was| == |b| == BUFFER_SIZE && size == 4 + |Encode(ts)| && HEADERS + |Encode(ts)| <= BUFFER_SIZE
    && b[..LENGTH_AT] == was[..LENGTH_AT]
    && b[HEADERS..HEADERS + |Encode(ts)|] == Encode(ts)
  }

  lemma FillsFrom(was: seq<byte>, pre: seq<byte>, b: seq<byte>, len: nat, ts: seq<Tlv>)
    requires |was| == |b| == BUFFER_SIZE && |pre| == HEADERS && pre[..LENGTH_AT] == was[..LENGTH_AT]
    requires Built(b, pre, len, ts)
    ensures Filled(was, b, 4 + len, ts)
  {
    assert b[..LENGTH_AT] == b[..HEADERS][..LENGTH_AT];
  }

  lemma FitsParts(a: seq<Tlv>, b: seq<Tlv>, c: seq<Tlv>, d: seq<Tlv>, e: seq<Tlv>)
    requires Fits(a + b + c + d + e)
    ensures Fits(a) && Fits(a + b) && Fits(a + b + c) && Fits(a + b + c + d)
  {
    FitsPrefix(a + b + c + d, e);
    FitsPrefix(a + b + c, d);
    FitsPrefix(a + b, c);
    FitsPrefix(a, b);
  }

  method ChooseLogin(login: Credentials, cdma: bool) returns (l: Credentials)
    ensures l == Login(login, cdma)
  {
    var user, password, auth := login.user, login.password, login.auth;
    if cdma && (user.None? || user.value == []) && (password.None? || password.value == []) {
      user, password, auth := Some(Ascii("ctnet@mycdma.cn")), Some(Ascii("vnet.mobi")), 2;
    }
    l := Credentials(user, password, auth);
  }

  method BuildStartHead(buf: array<byte>, p: Profile, cdma: bool, ghost pre: seq<byte>) returns (len: nat)
    requires buf.Length == BUFFER_SIZE && Fits(StartHead(p, cdma)) && Built(buf[..], pre, 0, [])
    modifies buf
    ensures Built(buf[..], pre, len, StartHead(p, cdma))
  {
    var l := ChooseLogin(p.login, cdma);
    ghost var a, b := [Tlv(0x30, [if cdma then 2 else 1])], if cdma then [] else Optional(0x14, p.apn);
    ghost var c, d := Optional(0x17, l.user), Optional(0x18, l.password);
    FitsParts(a, b, c, d, Auth(0x16, l));
    assert [] + a == a;
    len := PutByte(buf, 0, 0x30, if cdma then 2 else 1, pre, []);
    assert a + [] == a;
    if !cdma {
      len := PutOptional(buf, len, 0x14, p.apn, pre, a);
    }
    len := PutOptional(buf, len, 0x17, l.user, pre, a + b);
    len := PutOptional(buf, len, 0x18, l.password, pre, a + b + c);
    len := PutAuth(buf, len, 0x16, l, pre, a + b + c + d);
  }

  method WdsStartNwInterfaceReq(buf: array<byte>, p: Profile, cdma: bool) returns (size: nat)
    requires buf.Length == BUFFER_SIZE && Fits(StartList(p, cdma))
    modifies buf
    ensures Filled(old(buf[..]), buf[..], size, StartList(p, cdma))
  {
    buf[LENGTH_AT], buf[LENGTH_AT + 1] := 0, 0;
    ghost var pre := buf[..HEADERS];
    ghost var family, index := [Tlv(0x19, [Low(p.ipFamily)])],
      if p.pdp != 0 && !cdma then [Tlv(0x31, [Low(p.pdpIndex)])] else [];
    ghost var head := StartHead(p, cdma);
    FitsPrefix(head + family, index);
    FitsPrefix(head, family);
    var len := BuildStartHead(buf, p, cdma, pre);
    len := PutByte(buf, len, 0x19, p.ipFamily, pre, head);
    assert head + family + [] == head + family;
    if p.pdp != 0 && !cdma {
      len := PutByte(buf, len, 0x31, p.pdpIndex, pre, head + family);
    }
    FillsFrom(old(buf[..]), pre, buf[..], len, StartList(p, cdma));
    size := 4 + len;
  }

  // The values that create and modify share, after the `first` one.
  method BuildSettings(buf: array<byte>, p: Profile, len0: nat, ghost pre: seq<byte>, ghost first: seq<Tlv>)
    returns (len: nat)
    requires buf.Length == BUFFER_SIZE && Fits(first + SettingsList(p)) && Built(buf[..], pre, len0, first)
    modifies buf
    ensures Built(buf[..], pre, len, first + SettingsList(p))
  {
    ghost var a, b := first + [Tlv(0x11, [PdpType(p)])], Optional(0x14, p.apn);
    ghost var c, d := Optional(0x1B, p.login.user), Optional(0x1C, p.login.password);
    assert first + SettingsList(p) == a + b + c + d + Auth(0x1D, p.login);
    FitsParts(a, b, c, d, Auth(0x1D, p.login));
    var kind := 0;
    if p.ipv4 && p.ipv6 {
      kind := 3;
    } else if p.ipv6 {
      kind := 2;
    }
    len := PutByte(buf, len0, 0x11, kind, pre, first);
    len := PutOptional(buf, len, 0x14, p.apn, pre, a);
    len := PutOptional(buf, len, 0x1B, p.login.user, pre, a + b);
    len := PutOptional(buf, len, 0x1C, p.login.password, pre, a + b + c);
    len := PutAuth(buf, len, 0x1D, p.login, pre, a + b + c + d);
  }

  method WdsCreateProfileSettingsReq(buf: array<byte>, p: Profile) returns (size: nat)
    requires buf.Length == BUFFER_SIZE && Fits(CreateList(p))
    modifies buf
    ensures Filled(old(buf[..]), buf[..], size, CreateList(p))
  {
    buf[LENGTH_AT], buf[LENGTH_AT + 1] := 4, 0;
    ghost var pre := buf[..HEADERS];
    buf[HEADERS], buf[HEADERS + 1], buf[HEADERS + 2], buf[HEADERS + 3] := 0x01, 1, 0, 0;
    assert buf[HEADERS..HEADERS + 4] == One(Tlv(0x01, [0])) == Encode([Tlv(0x01, [0])]);
    var len := BuildSettings(buf, p, 4, pre, [Tlv(0x01, [0])]);
    FillsFrom(old(buf[..]), pre, buf[..], len, CreateList(p));
    size := 4 + len;
  }

  method WdsModifyProfileSettingsReq(buf: array<byte>, p: Profile) returns (size: nat)
    requires buf.Length == BUFFER_SIZE && Fits(ModifyList(p))
    modifies buf
    ensures Filled(old(buf[..]), buf[..], size, ModifyList(p))
  {
    buf[LENGTH_AT], buf[LENGTH_AT + 1] := 5, 0;
    ghost var pre := buf[..HEADERS];
    buf[HEADERS], buf[HEADERS + 1], buf[HEADERS + 2], buf[HEADERS + 3] := 0x01, 2, 0, 0;
    buf[HEADERS + 4] := Low(p.pdpIndex);
    ghost var first := [Tlv(0x01, [0, Low(p.pdpIndex)])];
    assert buf[HEADERS..HEADERS + 5] == One(first[0]) == Encode(first);
    var len := BuildSettings(buf, p, 5, pre, first);
    FillsFrom(old(buf[..]), pre, buf[..], len, ModifyList(p));
    size := 4 + len;
  }

  // ---- the whole message ----

  datatype Request = Start(p: Profile, cdma: bool) | Create(p: Profile) | Modify(p: Profile) | Bare

  function ListOf(r: Request): seq<Tlv> {
    match r
    case Start(p, cdma) => StartList(p, cdma)
    case Create(p) => CreateList(p)
    case Modify(p) => ModifyList(p)
    case Bare => []
  }

  class Composer {
    var transactionId: nat
    var clientIds: seq<int>

    constructor (clientIds: seq<int>)
      ensures transactionId == 0 && this.clientIds == clientIds
    {
      transactionId := 0;
      this.clientIds := clientIds;
    }

    method GetTransactionId() returns (id: nat)
      requires transactionId <= 0xFFFF
      modifies `transactionId
      ensures id == transactionId == if old(transactionId) < 0xFFFF then old(transactionId) + 1 else 1
    {
      transactionId := transactionId + 1;
      if transactionId > 0xFFFF {
        transactionId := 1;
      }
      id := transactionId;
    }

    // The message, or null where the service has no client id: then nothing is numbered either.
    method Compose(qmiType: byte, message: nat, r: Request) returns (m: array?<byte>)
      requires qmiType < |clientIds| && transactionId <= 0xFFFF && Fits(ListOf(r))
      modifies `transactionId
      ensures m == null <==> clientIds[qmiType] == 0
      ensures m == null ==> transactionId == old(transactionId)
      ensures m != null ==> fresh(m) && 0 < transactionId <= 0xFFFF && transactionId != old(transactionId)
      ensures m != null ==>
                m[..] == Message(Head(qmiType, Low(clientIds[qmiType]), transactionId, message), ListOf(r))
    {
      var buf := new byte[BUFFER_SIZE](_ => 0);
      if clientIds[qmiType] == 0 {
        return null;
      }
      var id := GetTransactionId();
      var h := Head(qmiType, Low(clientIds[qmiType]), id, message);
      WriteHeaders(buf, h);
      ghost var was := buf[..];
      var size := Fill(buf, r);
      BegunKept(was, buf[..], h, size + 4, ListOf(r));
      SealHeaders(buf, size, h, ListOf(r));
      m := CopyOut(buf, size + HEADERS);
    }
  }

  // Every header but the two lengths.
  ghost predicate Begun(b: seq<byte>, h: Head) {
    && |b| == BUFFER_SIZE && b[0] == 1 && b[3] == 0 && b[4] == h.qmiType && b[5] == h.client && b[6] == 0
    && b[7] == Low(h.transaction) && b[8] == High(h.transaction)
    && b[9] == Low(h.message) && b[10] == High(h.message)
  }

  lemma BegunKept(was: seq<byte>, b: seq<byte>, h: Head, size: nat, ts: seq<Tlv>)
    requires Begun(was, h) && Filled(was, b, size, ts)
    ensures Begun(b, h)
  {
    assert forall k :: 0 <= k < LENGTH_AT ==> b[k] == b[..LENGTH_AT][k] == was[..LENGTH_AT][k];
  }

  method WriteHeaders(buf: array<byte>, h: Head)
    requires buf.Length == BUFFER_SIZE
    modifies buf
    ensures Begun(buf[..], h)
  {
    buf[0], buf[3], buf[4], buf[5] := 1, 0, h.qmiType, h.client;
    buf[6] := 0;
    buf[7], buf[8] := Low(h.transaction), High(h.transaction);
    buf[TYPE_AT], buf[TYPE_AT + 1] := Low(h.message), High(h.message);
  }

  // The builder that the request names, or a bare message of no values.
  method Fill(buf: array<byte>, r: Request) returns (size: nat)
    requires buf.Length == BUFFER_SIZE && Fits(ListOf(r))
    modifies buf
    ensures Filled(old(buf[..]), buf[..], size + 4, ListOf(r))
  {
    var built := 4;
    match r {
      case Start(p, cdma) => built := WdsStartNwInterfaceReq(buf, p, cdma);
      case Create(p) => built := WdsCreateProfileSettingsReq(buf, p);
      case Modify(p) => built := WdsModifyProfileSettingsReq(buf, p);
      case Bare =>
    }
    size := built - 4;
  }

  // Both lengths, written last.
  method SealHeaders(buf: array<byte>, size: nat, ghost h: Head, ghost ts: seq<Tlv>)
    requires buf.Length == BUFFER_SIZE && size == |Encode(ts)| && HEADERS + size <= BUFFER_SIZE
    requires buf[HEADERS..HEADERS + size] == Encode(ts)
    requires Begun(buf[..], h)
    modifies buf
    ensures buf[..HEADERS + size] == Message(h, ts)
  {
    ghost var payload := buf[HEADERS..HEADERS + size];
    buf[LENGTH_AT], buf[LENGTH_AT + 1] := Low(size), High(size);
    buf[1], buf[2] := Low(size + 12), High(size + 12);
    assert buf[..HEADERS] == Headers(h, size);
    assert buf[HEADERS..HEADERS + size] == payload;
    assert buf[..HEADERS + size] == buf[..HEADERS] + buf[HEADERS..HEADERS + size];
  }

  method CopyOut(buf: array<byte>, n: nat) returns (m: array<byte>)
    requires n <= buf.Length
    ensures fresh(m) && m[..] == buf[..n]
  {
    m := new byte[n](_ => 0);
    var i := 0;
    while i < n
      invariant i <= n && m[..i] == buf[..i]
    {
      m[i] := buf[i];
      i := i + 1;
    }
  }

  // ---- the two finders ----

  // From `at` on the buffer holds this list and then the tail, and `size` is their length.
  ghost predicate Holds(b: seq<byte>, at: nat, size: nat, ts: seq<Tlv>, tail: seq<byte>) {
    && AllShort(ts) && |tail| < TLV_HEADER && size == |Encode(ts)| + |tail| < 65536
    && at + size <= |b| && b[at..at + size] == Encode(ts) + tail
  }

  // The header of the i-th value, and where the next one is.
  lemma HeaderAt(b: seq<byte>, at: nat, size: nat, ts: seq<Tlv>, tail: seq<byte>, i: nat)
    requires Holds(b, at, size, ts, tail) && i < |ts|
    ensures var o := Offset(ts, i);
      && o + TLV_HEADER <= |Encode(ts)| && b[at + o] == ts[i].kind
      && Le16(b[at + o + 1], b[at + o + 2]) == |ts[i].value|
      && Offset(ts, i + 1) == o + TLV_HEADER + |ts[i].value| <= |Encode(ts)|
  {
    EncodeAt(ts, i);
    OneReads(ts[i], Encode(ts[i + 1..]) + tail);
    var o := Offset(ts, i);
    var rest := One(ts[i]) + (Encode(ts[i + 1..]) + tail);
    var m := b[at..at + size];
    Regroup(Encode(ts[..i]), One(ts[i]), Encode(ts[i + 1..]), tail);
    Within(b, at, size, Encode(ts[..i]), rest);
  }

  // The first bytes of what lies `|before|` bytes into a slice.
  lemma Within(b: seq<byte>, at: nat, size: nat, before: seq<byte>, rest: seq<byte>)
    requires at + size <= |b| && b[at..at + size] == before + rest && |rest| >= TLV_HEADER
    ensures at + |before| + 2 < |b| && b[at + |before|] == rest[0]
    ensures b[at + |before| + 1] == rest[1] && b[at + |before| + 2] == rest[2]
  {
    var m, o := b[at..at + size], |before|;
    assert m[o] == rest[0] && m[o + 1] == rest[1] && m[o + 2] == rest[2];
  }

  lemma Regroup(a: seq<byte>, b: seq<byte>, c: seq<byte>, d: seq<byte>)
    ensures a + b + c + d == a + (b + (c + d))
  {
  }

  // While values are left there are bytes for a header; when none is left only the tail remains.
  lemma Remaining(b: seq<byte>, at: nat, size: nat, ts: seq<Tlv>, tail: seq<byte>, i: nat)
    requires Holds(b, at, size, ts, tail) && i <= |ts|
    ensures i < |ts| <==> size - Offset(ts, i) >= TLV_HEADER
    ensures i == |ts| ==> Offset(ts, i) == |Encode(ts)|
  {
    OffsetEnds(ts);
    if i < |ts| { HeaderAt(b, at, size, ts, tail, i); }
  }

  lemma OffsetEnds(ts: seq<Tlv>)
    ensures Offset(ts, 0) == 0 && Offset(ts, |ts|) == |Encode(ts)|
  {
    assert ts[..|ts|] == ts;
  }

  // Subtraction of 16-bit unsigned values.
  function Less16(a: nat, b: nat): (r: nat)
    ensures b <= a < 65536 ==> r == a - b
  {
    (a - b) % 65536
  }

  // The kind of the i-th value, and how far it is to the next one.
  method ReadHeader(buf: array<byte>, pos: nat, ghost at: nat, ghost size: nat, ghost ts: seq<Tlv>,
                    ghost tail: seq<byte>, ghost i: nat)
    returns (kind: byte, step: nat)
    requires Holds(buf[..], at, size, ts, tail) && i < |ts| && pos == at + Offset(ts, i)
    ensures kind == ts[i].kind && step >= TLV_HEADER && Offset(ts, i + 1) == Offset(ts, i) + step
    ensures pos + TLV_HEADER <= buf.Length && kind == buf[pos] && step == Le16(buf[pos + 1], buf[pos + 2]) + TLV_HEADER
  {
    HeaderAt(buf[..], at, size, ts, tail, i);
    kind := buf[pos];
    step := Le16(buf[pos + 1], buf[pos + 2]) + TLV_HEADER;
  }

  // GetTLV on the message header at `header`: where the value starts, or -1.
  method GetTlv(buf: array<byte>, header: nat, want: int, ghost ts: seq<Tlv>, ghost tail: seq<byte>)
    returns (at: int)
    requires header + 4 <= buf.Length
    requires Holds(buf[..], header + 4, Le16(buf[header + 2], buf[header + 3]), ts, tail)
    ensures at == if Got(ts, want).Some? then header + 4 + Got(ts, want).value else -1
  {
    var find := 0;
    var size: nat := Le16(buf[header + 2], buf[header + 3]);
    ghost var whole := size;
    var pos := header + 4;
    ghost var b := buf[..];
    OffsetEnds(ts);
    Remaining(b, header + 4, whole, ts, tail, 0);
    while size >= TLV_HEADER
      invariant find <= |ts| && pos == header + 4 + Offset(ts, find) && size == whole - Offset(ts, find)
      invariant size >= TLV_HEADER <==> find < |ts|
      invariant find <= Wanted(ts, want)
    {
      var kind, step := ReadHeader(buf, pos, header + 4, whole, ts, tail, find);
      find := find + 1;
      if want > BY_INDEX {
        if find + BY_INDEX == want {
          return pos;
        }
      } else if kind == want {
        return pos;
      }
      Remaining(b, header + 4, whole, ts, tail, find);
      size := Less16(size, step);
      pos := pos + step;
    }
    at := -1;
  }

  // Where a finder's answer is in a whole message.
  function Place(found: Option<nat>): int { if found.Some? then HEADERS + found.value else -1 }

  // qmi_find_tlv on a whole message: where the value starts, or -1. A stray last byte is taken for a
  // header, so the memory behind it must be readable.
  method QmiFindTlv(buf: array<byte>, kind: byte, ghost ts: seq<Tlv>, ghost tail: seq<byte>) returns (at: int)
    requires HEADERS <= buf.Length
    requires Holds(buf[..], HEADERS, Le16(buf[LENGTH_AT], buf[LENGTH_AT + 1]), ts, tail)
    requires tail != [] ==> HEADERS + |Encode(ts)| + TLV_HEADER <= buf.Length
    ensures at == Place(Found(ts, tail, kind))
    ensures at == Place(Got(ts, kind)) <==> !Misleads(ts, tail, kind)
  {
    FindersAgree(ts, tail, kind);
    var length := 0;
    ghost var i := 0;
    ghost var whole := |Encode(ts)| + |tail|;
    OffsetEnds(ts);
    Remaining(buf[..], HEADERS, whole, ts, tail, 0);
    while length < Le16(buf[LENGTH_AT], buf[LENGTH_AT + 1])
      invariant i <= |ts| && (length == Offset(ts, i) || (i == |ts| && length >= |Encode(ts)| + TLV_HEADER))
      invariant length > Offset(ts, i) ==> tail != [] && tail[0] != kind
      invariant i <= First(ts, kind)
      invariant i < |ts| <==> length < |Encode(ts)|
      decreases Le16(buf[LENGTH_AT], buf[LENGTH_AT + 1]) - length
    {
      var pos := HEADERS + length;
      if i < |ts| {
        NextHeader(buf[..], HEADERS, whole, ts, tail, i);
      } else {
        TailAt(buf[..], HEADERS, whole, ts, tail);
      }
      if buf[pos] == kind {
        return pos;
      }
      length := length + Le16(buf[pos + 1], buf[pos + 2]) + TLV_HEADER;
      i := if i < |ts| then i + 1 else i;
    }
    at := -1;
  }

  // The header of the i-th value leads to the next one, or to the end of the list.
  lemma NextHeader(b: seq<byte>, at: nat, size: nat, ts: seq<Tlv>, tail: seq<byte>, i: nat)
    requires Holds(b, at, size, ts, tail) && i < |ts|
    ensures var pos := at + Offset(ts, i);
      && pos + 2 < |b| && b[pos] == ts[i].kind
      && Offset(ts, i) + Le16(b[pos + 1], b[pos + 2]) + TLV_HEADER == Offset(ts, i + 1)
    ensures i + 1 < |ts| <==> Offset(ts, i + 1) < |Encode(ts)|
    ensures Offset(ts, i) < |Encode(ts)|
  {
    HeaderAt(b, at, size, ts, tail, i);
    OffsetEnds(ts);
    if i + 1 < |ts| { HeaderAt(b, at, size, ts, tail, i + 1); }
  }

  lemma TailAt(b: seq<byte>, at: nat, size: nat, ts: seq<Tlv>, tail: seq<byte>)
    requires Holds(b, at, size, ts, tail) && tail != []
    ensures b[at + |Encode(ts)|] == tail[0]
  {
    assert (Encode(ts) + tail)[|Encode(ts)|] == b[at..at + size][|Encode(ts)|];
  }
}
