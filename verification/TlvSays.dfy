/**
 * What the bytes of a message say, field by field (fibocom-dial/src/QMIThread.c:99-244, 491-643), and where the
 * second finder is misled (fibo_qmimsg_server.c:756-771).
 */
module TlvSays {
  import opened Options
  import opened TlvModel

  // ---- the headers ----

  // The thirteen bytes before the list: the frame's mark, its length without the mark, the control byte, service
  // and client; then the request flag, the transaction, the message and the length of the list.
  lemma HeadersSay(h: Head, ts: seq<Tlv>)
    requires HEADERS + |Encode(ts)| <= BUFFER_SIZE
    ensures var m := Message(h, ts);
      && |m| == 13 + |Encode(ts)| && m[0] == 1 && m[3] == 0 && m[6] == 0
      && Le16(m[1], m[2]) == |m| - 1 && Le16(m[11], m[12]) == |m| - 13
      && m[4] == h.qmiType && m[5] == h.client
      && Le16(m[7], m[8]) == h.transaction % 65536 && Le16(m[9], m[10]) == h.message % 65536
  {
    MessageLengths(h, ts);
    HeaderBytes(h, |Encode(ts)|, Encode(ts));
    TwoBytes(h.transaction);
    TwoBytes(h.message);
  }

  lemma HeaderBytes(h: Head, size: nat, rest: seq<byte>)
    ensures var m := Headers(h, size) + rest;
      && m[0] == 1 && m[3] == 0 && m[6] == 0 && m[4] == h.qmiType && m[5] == h.client
      && m[7] == Low(h.transaction) && m[8] == High(h.transaction)
      && m[9] == Low(h.message) && m[10] == High(h.message)
  {
    var head := Headers(h, size);
    assert |head| == 13;
    assert (head + rest)[..13] == head;
  }

  lemma TwoBytes(n: nat)
    ensures Le16(Low(n), High(n)) == n % 65536
  {
  }

  // ---- the settings ----

  // Both families make a dual profile, IPv6 alone the second kind, anything else plain IPv4.
  lemma FamilySays(p: Profile)
    ensures Lookup(SettingsList(p), 0x11) == Some([if p.ipv6 then if p.ipv4 then 3 else 2 else 0])
  {
    SettingsSay(p, 0x11);
  }

  // A new profile is of the first type; a changed one is named by its type and its index.
  lemma CreateSays(p: Profile, kind: byte)
    ensures Lookup(CreateList(p), kind) == if kind == 1 then Some([0]) else Lookup(SettingsList(p), kind)
  {
    LookupAppend([Tlv(0x01, [0])], SettingsList(p), kind);
  }

  lemma ModifySays(p: Profile, kind: byte)
    ensures Lookup(ModifyList(p), kind)
         == if kind == 1 then Some([0, p.pdpIndex % 256]) else Lookup(SettingsList(p), kind)
  {
    LookupAppend([Tlv(0x01, [0, Low(p.pdpIndex)])], SettingsList(p), kind);
  }

  // ---- the credentials ----

  predicate Missing(s: Option<seq<byte>>) { s == None || s == Some([]) }

  // "ctnet@mycdma.cn" and "vnet.mobi".
  const CARRIER_USER: seq<byte> := [99, 116, 110, 101, 116, 64, 109, 121, 99, 100, 109, 97, 46, 99, 110]
  const CARRIER_PASSWORD: seq<byte> := [118, 110, 101, 116, 46, 109, 111, 98, 105]

  lemma CarrierTexts()
    ensures Ascii("ctnet@mycdma.cn") == CARRIER_USER && Ascii("vnet.mobi") == CARRIER_PASSWORD
  {
  }

  // A start on a CDMA network without a user and a password carries the carrier's, with CHAP; every other start
  // carries the profile's own, and says how to authenticate only where it has both.
  lemma CredentialsSay(p: Profile, cdma: bool)
    ensures var l, list := p.login, StartList(p, cdma);
      if cdma && Missing(l.user) && Missing(l.password)
      then && Lookup(list, 0x17) == Some(CARRIER_USER) && Lookup(list, 0x18) == Some(CARRIER_PASSWORD)
           && Lookup(list, 0x16) == Some([2])
      else && Lookup(list, 0x17) == l.user && Lookup(list, 0x18) == l.password
           && Lookup(list, 0x16) == if l.user != None && l.password != None then Some([l.auth % 256]) else None
  {
    CarrierTexts();
    StartSays(p, cdma, 0x17);
    StartSays(p, cdma, 0x18);
    StartSays(p, cdma, 0x16);
  }

  // ---- the second finder ----

  // A stray byte that passes for the type sends it behind the whole list.
  lemma MisledBehindList(ts: seq<Tlv>, tail: seq<byte>, kind: byte)
    requires Misleads(ts, tail, kind)
    ensures Found(ts, tail, kind) == Some(|Encode(ts)|)
  {
    assert First(ts, kind) == |ts|;
  }
}
