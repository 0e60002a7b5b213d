/** Hardware addresses as text, and the routing-table scan, of src/eth_dev_param.cpp. */
module Mac {
  import opened Wrappers
  import opened Text

  function HexChar(d: nat): (c: char)
    requires d < 16
    ensures IsHex(c) && !('A' <= c <= 'F') && HexDigit(c) == d
  {
    if d < 10 then '0' + d as char else 'a' + (d - 10) as char
  }

  predicate IsHex(c: char) {
    '0' <= c <= '9' || 'a' <= c <= 'f' || 'A' <= c <= 'F'
  }

  function HexDigit(c: char): (d: nat)
    requires IsHex(c)
    ensures d < 16
  {
    if c <= '9' then c as int - '0' as int
    else if c <= 'F' then c as int - 'A' as int + 10
    else c as int - 'a' as int + 10
  }

  /** The digits themselves: one of sixteen when printing, in either case when reading. */
  lemma HexDigits(c: char, d: nat)
    requires d < 16
    ensures HexChar(d) == "0123456789abcdef"[d]
    ensures IsHex(c) && HexDigit(c) == d <==> c == "0123456789abcdef"[d] || c == "0123456789ABCDEF"[d]
  {
  }

  function LowerHex(c: char): (l: char)
    requires IsHex(c)
    ensures l == HexChar(HexDigit(c))
  {
    if 'A' <= c <= 'F' then (c as int + 32) as char else c
  }

  type Byte = b: int | 0 <= b < 256
  type SignedChar = c: int | -128 <= c < 128

  // ------------------------------------------------- printing

  /** %02x */
  function Hex2(b: Byte): (s: string)
    ensures |s| == 2
  {
    [HexChar(b / 16), HexChar(b % 16)]
  }

  /** Bytes as %02x fields with colons between them. */
  function MacText(bytes: seq<Byte>): (s: string)
    ensures |s| == if bytes == [] then 0 else 3 * |bytes| - 1
  {
    if bytes == [] then ""
    else if |bytes| == 1 then Hex2(bytes[0])
    else Hex2(bytes[0]) + ":" + MacText(bytes[1..])
  }

  /** Byte i is on places 3i and 3i + 1, high half first, with a colon behind it unless it is the last. */
  lemma {:induction false} MacTextAt(bytes: seq<Byte>, i: nat)
    requires i < |bytes|
    ensures MacText(bytes)[3 * i] == "0123456789abcdef"[bytes[i] / 16]
    ensures MacText(bytes)[3 * i + 1] == "0123456789abcdef"[bytes[i] % 16]
    ensures i + 1 < |bytes| ==> MacText(bytes)[3 * i + 2] == ':'
  {
    hide HexChar;
    HexDigits('0', bytes[i] / 16);
    HexDigits('0', bytes[i] % 16);
    if i > 0 {
      MacTextAt(bytes[1..], i - 1);
      hide Hex2;
      assert MacText(bytes) == Hex2(bytes[0]) + ":" + MacText(bytes[1..]);
    }
  }

  // ------------------------------------------------- sscanf "%x:%x:..."

  function HexPrefix(s: string): (d: string)
    ensures |d| <= |s| && d == s[..|d|] && forall c | c in d :: IsHex(c)
  {
    if s != [] && IsHex(s[0]) then [s[0]] + HexPrefix(s[1..]) else []
  }

  function HexValue(s: string): nat
    requires forall c | c in s :: IsHex(c)
  {
    if s == [] then 0 else 16 * HexValue(s[..|s| - 1]) + HexDigit(s[|s| - 1])
  }

  const ULONG_MAX := 0xFFFF_FFFF_FFFF_FFFF

  /** What one %x conversion reads, and the text behind it. */
  datatype Field = Field(value: int, rest: string) | NoField

  predicate Signed(t: string) {
    t != [] && (t[0] == '+' || t[0] == '-')
  }

  /** Text behind 0x, if it begins so. */
  function Unprefixed(u: string): string {
    if |u| >= 2 && u[0] == '0' && (u[1] == 'x' || u[1] == 'X') then u[2..] else u
  }

  /** Blanks are skipped; a sign and 0x may precede the digits. A field without digits fails. */
  function ScanHex(s: string): Field {
    var t := SkipSpaces(s);
    var v := Unprefixed(if Signed(t) then t[1..] else t);
    var digits := HexPrefix(v);
    if digits == [] then NoField
    else Field(Clamped(HexValue(digits), Signed(t) && t[0] == '-'), v[|digits|..])
  }

  /** strtoul, up to a multiple of the word size. */
  function Clamped(magnitude: nat, negative: bool): int {
    if magnitude > ULONG_MAX then ULONG_MAX else if negative then 0 - magnitude else magnitude
  }

  /** The values of up to n fields with colons between them; it stops at the first field or colon
      that is missing. */
  function ScanFields(s: string, n: nat): (f: seq<int>)
    ensures |f| <= n
    decreases n
  {
    if n == 0 then []
    else
      match ScanHex(s)
      case NoField => []
      case Field(v, rest) =>
        [v] + if rest != [] && rest[0] == ':' then ScanFields(rest[1..], n - 1) else []
  }

  /** int to signed char */
  function ToSignedChar(v: int): SignedChar {
    if v % 256 >= 128 then v % 256 - 256 else v % 256
  }

  /** A signed char read as uint8_t. */
  function ToByte(c: SignedChar): Byte {
    if c < 0 then c + 256 else c
  }

  /** What set_hwaddr leaves in the six bytes: every field that is read, modulo 256; the other
      places get what the local array, which is not initialised, happened to hold. */
  function StoredBytes(text: string, tmpMac: seq<int>): (b: seq<Byte>)
    requires |tmpMac| == 6
  {
    var f := ScanFields(text, 6);
    seq(6, i requires 0 <= i < 6 => (if i < |f| then f[i] else tmpMac[i]) % 256)
  }

  const ARPHRD_ETHER := 1
  const ARPHRD_NONE := 0xFFFE

  /** The hardware address part of _ifr: sa_data is an array of char, which is signed. */
  class HardwareAddress {
    var family: int
    var saData: seq<SignedChar>

    ghost predicate Valid()
      reads this
    {
      |saData| == 6
    }

    constructor ()
      ensures Valid() && family == ARPHRD_NONE
    {
      family, saData := ARPHRD_NONE, [0, 0, 0, 0, 0, 0];
    }

    function Bytes(): (b: seq<Byte>)
      reads this
    {
      var data := saData;
      seq(|data|, i requires 0 <= i < |data| => ToByte(data[i]))
    }

    /** set_hwaddr up to its ioctl: text of any other length than 17 changes nothing. */
    method SetHwaddr(isOpen: bool, hwaddr: string, tmpMac: seq<int>) returns (ok: bool)
      requires Valid() && |tmpMac| == 6
      modifies this
      ensures Valid() && (ok <==> isOpen && |hwaddr| == 17)
      ensures !ok ==> family == old(family) && Bytes() == old(Bytes())
      ensures ok ==> family == 1 && Bytes() == StoredBytes(hwaddr, tmpMac)
    {
      if !isOpen || |hwaddr| != 17 { return false; }
      hide ScanFields;
      var fields := ScanFields(hwaddr, 6);
      var mac := fields + tmpMac[|fields|..];
      family := ARPHRD_ETHER;
      for i := 0 to 6
        invariant Valid() && family == ARPHRD_ETHER
        invariant forall j | 0 <= j < i :: saData[j] == ToSignedChar(mac[j])
      {
        saData := saData[i := ToSignedChar(mac[i])];
      }
      ok := true;
      assert forall j | 0 <= j < 6 :: Bytes()[j] == ToByte(saData[j]) == mac[j] % 256;
    }

    /** get_hwaddr after its ioctl. */
    method GetHwaddr() returns (text: Option<string>)
      requires Valid()
      ensures text == if family == 1 then Some(MacText(Bytes())) else None
      ensures text.Some? ==> |text.value| + 1 <= 20
    {
      if family != ARPHRD_ETHER { return None; }
      text := Some(MacText(Bytes()));
    }
  }

  // ------------------------------------------------- round trips

  /** Two digits, of which the rest is no continuation. */
  lemma HexPrefixOf(c: char, d: char, rest: string)
    requires IsHex(c) && IsHex(d) && (rest == [] || !IsHex(rest[0]))
    ensures HexPrefix([c, d] + rest) == [c, d]
    ensures HexValue([c, d]) == 16 * HexDigit(c) + HexDigit(d)
  {
    var s := [c, d] + rest;
    assert s[1..] == [d] + rest && s[1..][1..] == rest;
    assert HexPrefix(rest) == [];
    assert [c, d][..1] == [c] && [c][..0] == [];
    assert HexValue([c]) == HexDigit(c);
  }

  lemma ScanHexOf(c: char, d: char, rest: string)
    requires IsHex(c) && IsHex(d) && (rest == [] || !IsHex(rest[0]))
    ensures ScanHex([c, d] + rest) == Field(16 * HexDigit(c) + HexDigit(d), rest)
  {
    HexPrefixOf(c, d, rest);
    PlainStart(c, d, rest);
    hide HexPrefix, HexValue, IsHex, SkipSpaces, HexDigit;
    var s := [c, d] + rest;
    assert s[2..] == rest;
  }

  /** No blanks, no sign and no 0x in front. */
  lemma PlainStart(c: char, d: char, rest: string)
    requires IsHex(c) && IsHex(d)
    ensures SkipSpaces([c, d] + rest) == [c, d] + rest
    ensures c != '+' && c != '-' && d != 'x' && d != 'X'
  {
  }

  lemma {:induction false} HexEnds(d: string, rest: string)
    requires (forall c | c in d :: IsHex(c)) && (rest != [] ==> !IsHex(rest[0]))
    ensures HexPrefix(d + rest) == d
  {
    hide IsHex;
    if d == [] {
      assert d + rest == rest;
    } else {
      HexEnds(d[1..], rest);
      assert d[0] in d && d == [d[0]] + d[1..];
      assert (d + rest)[1..] == d[1..] + rest;
    }
  }

  /** What one %x reads: blanks, a sign or none, 0x or not, and digits; the rest is left. */
  lemma ScanHexReads(blanks: string, sign: string, prefix: string, digits: string, rest: string)
    requires (forall c | c in blanks :: IsSpace(c)) && sign in {"", "+", "-"} && prefix in {"", "0x", "0X"}
    requires digits != "" && (forall c | c in digits :: IsHex(c)) && (rest != [] ==> !IsHex(rest[0]))
    requires prefix == "" && digits == "0" && rest != [] ==> rest[0] != 'x' && rest[0] != 'X'
    ensures ScanHex(blanks + sign + prefix + digits + rest) == Field(Clamped(HexValue(digits), sign == "-"), rest)
  {
    var v := digits + rest;
    var t := sign + (prefix + v);
    assert blanks + sign + prefix + digits + rest == blanks + t;
    PrefixGone(prefix, digits, rest);
    SignGone(sign, prefix + v);
    hide IsHex, IsSpace, Unprefixed, Signed;
    BlanksSkipped(blanks, t);
    HexEnds(digits, rest);
    hide HexPrefix, HexValue, SkipSpaces;
    assert v[|digits|..] == rest;
  }

  lemma SignGone(sign: string, u: string)
    requires sign in {"", "+", "-"} && u != [] && u[0] != '+' && u[0] != '-' && !IsSpace(u[0])
    ensures var t := sign + u;
            && !IsSpace(t[0]) && (Signed(t) && t[0] == '-' <==> sign == "-")
            && (if Signed(t) then t[1..] else t) == u
  {
  }

  lemma PrefixGone(prefix: string, digits: string, rest: string)
    requires prefix in {"", "0x", "0X"} && digits != "" && (forall c | c in digits :: IsHex(c))
    requires prefix == "" && digits == "0" && rest != [] ==> rest[0] != 'x' && rest[0] != 'X'
    ensures Unprefixed(prefix + (digits + rest)) == digits + rest
    ensures var c := (prefix + (digits + rest))[0]; !IsSpace(c) && c != '+' && c != '-'
  {
    var v := digits + rest;
    assert digits[0] in digits && v[0] == digits[0];
    assert |v| >= 2 ==> v[1] == if |digits| > 1 then digits[1] else rest[0];
    assert |digits| > 1 ==> digits[1] in digits;
    if prefix == "" {
      assert prefix + v == v;
    } else {
      assert (prefix + v)[2..] == v;
    }
  }

  /** What one field contributes. */
  lemma ScanOne(c: char, d: char, rest: string, n: nat)
    requires IsHex(c) && IsHex(d) && (rest == [] || rest[0] == ':') && n > 0
    ensures ScanFields([c, d] + rest, n) ==
            [16 * HexDigit(c) + HexDigit(d)] + if rest != [] then ScanFields(rest[1..], n - 1) else []
  {
    ScanHexOf(c, d, rest);
    hide ScanHex, HexDigit;
  }

  /** Two-digit hexadecimal fields in either case, with colons between them. */
  predicate MacShaped(s: string, n: nat)
    requires n > 0
  {
    |s| >= 2 && IsHex(s[0]) && IsHex(s[1])
    && if n == 1 then |s| == 2 else |s| >= 3 && s[2] == ':' && MacShaped(s[3..], n - 1)
  }

  function LowerChar(c: char): char {
    if IsHex(c) then LowerHex(c) else c
  }

  function Lower(s: string): string {
    seq(|s|, i requires 0 <= i < |s| => LowerChar(s[i]))
  }

  lemma HexPair(b: Byte) returns (c: char, d: char)
    ensures Hex2(b) == [c, d] && IsHex(c) && IsHex(d) && 16 * HexDigit(c) + HexDigit(d) == b
  {
    c, d := HexChar(b / 16), HexChar(b % 16);
  }

  lemma MacTextCons(b: Byte, more: seq<Byte>)
    ensures MacText([b] + more) == Hex2(b) + if more == [] then "" else ":" + MacText(more)
  {
    hide Hex2;
    assert ([b] + more)[1..] == more;
  }

  /** Reading printed bytes gives the bytes. */
  lemma {:induction false} BytesRoundTrip(bytes: seq<Byte>)
    ensures ScanFields(MacText(bytes), |bytes|) == bytes
  {
    hide ScanFields, MacText, Hex2, HexDigit, IsHex;
    if bytes != [] {
      var more := bytes[1..];
      BytesRoundTrip(more);
      var rest := if more == [] then "" else ":" + MacText(more);
      var c, d := HexPair(bytes[0]);
      ScanOne(c, d, rest, |bytes|);
      MacTextCons(bytes[0], more);
      assert bytes == [bytes[0]] + more;
      assert more != [] ==> rest[1..] == MacText(more);
    }
  }

  lemma ShapedParts(s: string, n: nat)
    requires n > 0 && MacShaped(s, n)
    ensures |s| >= 2 && IsHex(s[0]) && IsHex(s[1])
    ensures n == 1 <==> |s| == 2
    ensures n > 1 ==> |s| >= 3 && s[2] == ':' && MacShaped(s[3..], n - 1)
  {
  }

  lemma LowerCons(c: char, d: char, rest: string)
    requires IsHex(c) && IsHex(d) && (rest == [] || rest[0] == ':')
    ensures Lower([c, d] + rest) == [LowerHex(c), LowerHex(d)] + if rest == [] then "" else ":" + Lower(rest[1..])
  {
  }

  /** Printing what was read from n two-digit fields gives their lower-case form. */
  lemma {:induction false} TextRoundTrip(s: string, n: nat) returns (bytes: seq<Byte>)
    requires n > 0 && MacShaped(s, n)
    ensures |s| == 3 * n - 1
    ensures bytes == ScanFields(s, n) && |bytes| == n && MacText(bytes) == Lower(s)
  {
    hide ScanFields, MacText, Lower, MacShaped, HexDigit, IsHex, LowerHex, Hex2;
    ShapedParts(s, n);
    var c, d, rest := s[0], s[1], s[2..];
    assert s == [c, d] + rest;
    var more: seq<Byte> := [];
    if n > 1 {
      assert rest[1..] == s[3..];
      more := TextRoundTrip(s[3..], n - 1);
    }
    ScanOne(c, d, rest, n);
    TwoDigits(c, d);
    bytes := [16 * HexDigit(c) + HexDigit(d)] + more;
    MacTextCons(bytes[0], more);
    LowerCons(c, d, rest);
  }

  lemma TwoDigits(c: char, d: char)
    requires IsHex(c) && IsHex(d)
    ensures Hex2(16 * HexDigit(c) + HexDigit(d)) == [LowerHex(c), LowerHex(d)]
  {
    hide HexDigit, HexChar, LowerHex, IsHex;
    Nibbles(HexDigit(c), HexDigit(d));
  }

  lemma Nibbles(h: nat, l: nat)
    requires h < 16 && l < 16
    ensures (16 * h + l) / 16 == h && (16 * h + l) % 16 == l
  {
  }

  /** Six bytes: the printed text passes the length check and is stored as the same bytes. */
  lemma PrintThenStore(bytes: seq<Byte>, tmpMac: seq<int>)
    requires |bytes| == |tmpMac| == 6
    ensures |MacText(bytes)| == 17
    ensures StoredBytes(MacText(bytes), tmpMac) == bytes
  {
    hide ScanFields, MacText;
    BytesRoundTrip(bytes);
  }

  /** Six two-digit fields in either case: what is printed is the same text in lower case. */
  lemma StoreThenPrint(text: string, tmpMac: seq<int>)
    requires MacShaped(text, 6) && |tmpMac| == 6
    ensures |text| == 17
    ensures MacText(StoredBytes(text, tmpMac)) == Lower(text)
  {
    hide ScanFields, MacShaped, MacText, Lower;
    var bytes := TextRoundTrip(text, 6);
    assert StoredBytes(text, tmpMac) == bytes;
  }

  // ------------------------------------------------- get_gateway

  /** A line of the routing table: the eleven fields of which the first and third matter, or a line
      from which sscanf does not read all of them. */
  datatype Row = Row(device: string, gateway: nat) | Malformed

  /** get_gateway after the header line: the gateway of the first row of the device, unless the scan
      ends at a malformed row before. */
  method GetGateway(rows: seq<Row>, device: string) returns (gateway: Option<nat>)
    ensures gateway.Some? <==>
      exists i :: 0 <= i < |rows| && rows[i].Row? && rows[i].device == device && forall j | 0 <= j < i :: rows[j].Row?
    ensures gateway.Some? ==>
      exists i :: 0 <= i < |rows| && rows[i].Row? && rows[i].device == device
                  && gateway.value == rows[i].gateway % 0x1_0000_0000
                  && forall j | 0 <= j < i :: rows[j].Row? && rows[j].device != device
  {
    for i := 0 to |rows|
      invariant forall j | 0 <= j < i :: rows[j].Row? && rows[j].device != device
    {
      if rows[i].Malformed? { return None; }
      if rows[i].device == device {
        return Some(rows[i].gateway % 0x1_0000_0000);
      }
    }
    gateway := None;
  }
}
