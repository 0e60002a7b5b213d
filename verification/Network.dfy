/** Which address the service gives a client: the interface registers of src/eth_dev_param.cpp and
    the scan of src/ServiceContext.cpp. */
module Network {
  import opened Wrappers
  import opened Text
  import opened Bits

  /** An IPv4 address or mask, first octet first: as it lies in memory, and as a host-order number. */
  type Address = w: Word | |w| == 32 witness Zeros(32)

  /** An interface and what its registers answer; None for an ioctl that fails. */
  datatype Interface = Interface(isOpen: bool, addr: Option<Address>, dst: Option<Address>, netmask: Option<Address>)

  /** What the local variables of the caller hold when a read fails: they are not initialised. */
  datatype Leftover = Leftover(ip: Address, mask: Address, text: string)

  /** A register loaded as a uint32_t. */
  function Load(isOpen: bool, register: Option<Address>, littleEndian: bool, left: Address): Address {
    if isOpen && register.Some? then Hton(register.value, littleEndian) else left
  }

  // ------------------------------------------------- dotted quads

  function Octet(a: Address, k: nat): (n: nat)
    requires k < 4
    ensures n < 256
  {
    ValueBound(a[8 * k..8 * k + 8]);
    assert Pow2(8) == 256;
    Value(a[8 * k..8 * k + 8])
  }

  lemma ValueBound(w: Word)
    ensures Value(w) < Pow2(|w|)
  {
    ValueOfCons(false, w);
  }

  /** inet_ntop */
  function DottedQuad(a: Address): string {
    Decimal(Octet(a, 0)) + "." + Decimal(Octet(a, 1)) + "." + Decimal(Octet(a, 2)) + "." + Decimal(Octet(a, 3))
  }

  predicate QuadChars(s: string) {
    s != [] && forall c | c in s :: IsDigit(c) || c == '.'
  }

  /** The text fits INET_ADDRSTRLEN and holds only digits and dots. */
  lemma QuadShape(a: Address)
    ensures |DottedQuad(a)| <= 15 && QuadChars(DottedQuad(a))
    ensures QuadChars("127.0.0.1")
  {
    hide Octet, Decimal;
    assert Pow10(3) == 1000;
    DecimalLength(Octet(a, 0), 3);
    DecimalLength(Octet(a, 1), 3);
    DecimalLength(Octet(a, 2), 3);
    DecimalLength(Octet(a, 3), 3);
  }

  /** The parts of a text between the marks. */
  function CutAt(s: string, mark: char): (parts: seq<string>)
    ensures parts != []
  {
    if s == [] then [""]
    else
      var parts, c := CutAt(s[..|s| - 1], mark), s[|s| - 1];
      if c == mark then parts + [""] else parts[..|parts| - 1] + [parts[|parts| - 1] + [c]]
  }

  function Join(parts: seq<string>, mark: char): string
    requires parts != []
  {
    if |parts| == 1 then parts[0] else Join(parts[..|parts| - 1], mark) + [mark] + parts[|parts| - 1]
  }

  lemma CutNil(mark: char)
    ensures CutAt("", mark) == [""]
  {
  }

  lemma CutMark(s: string, mark: char)
    ensures CutAt(s + [mark], mark) == CutAt(s, mark) + [""]
  {
    assert (s + [mark])[..|s|] == s;
  }

  lemma CutSnoc(s: string, c: char, mark: char)
    requires c != mark
    ensures var parts := CutAt(s, mark);
            CutAt(s + [c], mark) == parts[..|parts| - 1] + [parts[|parts| - 1] + [c]]
  {
    assert (s + [c])[..|s|] == s;
  }

  /** Text without a mark goes to the last part. */
  lemma {:induction false} CutMore(s: string, more: string, mark: char)
    requires mark !in more
    ensures var parts := CutAt(s, mark);
            CutAt(s + more, mark) == parts[..|parts| - 1] + [parts[|parts| - 1] + more]
  {
    hide CutAt;
    var parts := CutAt(s, mark);
    if more == [] {
      assert s + more == s && parts[|parts| - 1] + more == parts[|parts| - 1];
    } else {
      var front, c := more[..|more| - 1], more[|more| - 1];
      CutMore(s, front, mark);
      assert more == front + [c] && s + more == (s + front) + [c];
      CutSnoc(s + front, c, mark);
      assert (parts[|parts| - 1] + front) + [c] == parts[|parts| - 1] + more;
    }
  }

  /** The cut loses nothing, and no part holds a mark. */
  lemma {:induction false} CutJoins(s: string, mark: char)
    ensures Join(CutAt(s, mark), mark) == s
    ensures forall part | part in CutAt(s, mark) :: mark !in part
  {
    if s != [] {
      var front, c := s[..|s| - 1], s[|s| - 1];
      CutJoins(front, mark);
      assert s == front + [c];
      var parts := CutAt(front, mark);
      var last := parts[|parts| - 1];
      assert last in parts;
      if c == mark {
        assert (parts + [""])[..|parts|] == parts;
      } else if |parts| > 1 {
        assert (parts[..|parts| - 1] + [last + [c]])[..|parts| - 1] == parts[..|parts| - 1];
        assert s == Join(parts[..|parts| - 1], mark) + [mark] + (last + [c]);
      }
    }
  }

  /** Between its dots the text has four numerals below 256, whose values, most significant first, are
      the address. */
  ghost predicate IsQuadOf(text: string, a: Address) {
    var parts := CutAt(text, '.');
    && |parts| == 4
    && (forall k | 0 <= k < 4 :: IsNumeral(parts[k]) && DigitsValue(parts[k]) < 256)
    && Value(a) == ((DigitsValue(parts[0]) * 256 + DigitsValue(parts[1])) * 256 + DigitsValue(parts[2])) * 256
                   + DigitsValue(parts[3])
  }

  lemma OctetsValue(a: Address)
    ensures Value(a) == ((Octet(a, 0) * 256 + Octet(a, 1)) * 256 + Octet(a, 2)) * 256 + Octet(a, 3)
  {
    hide Value;
    assert Pow2(8) == 256;
    assert a[..16] == a[0..8] + a[8..16] && a[..24] == a[..16] + a[16..24] && a == a[..24] + a[24..32];
    ValueOfConcat(a[0..8], a[8..16]);
    ValueOfConcat(a[..16], a[16..24]);
    ValueOfConcat(a[..24], a[24..32]);
  }

  lemma NoDot(n: nat)
    ensures '.' !in Decimal(n)
  {
    hide Decimal;
    assert !IsDigit('.');
  }

  /** One more number behind a dot. */
  lemma CutNumber(s: string, n: nat)
    ensures CutAt(s + "." + Decimal(n), '.') == CutAt(s, '.') + [Decimal(n)]
  {
    hide CutAt, Decimal;
    NoDot(n);
    CutMark(s, '.');
    CutMore(s + ".", Decimal(n), '.');
    assert "" + Decimal(n) == Decimal(n);
  }

  lemma QuadParts(a: Address)
    ensures CutAt(DottedQuad(a), '.') ==
            [Decimal(Octet(a, 0)), Decimal(Octet(a, 1)), Decimal(Octet(a, 2)), Decimal(Octet(a, 3))]
  {
    hide CutAt, Decimal, Octet;
    NoDot(Octet(a, 0));
    CutNil('.');
    CutMore("", Decimal(Octet(a, 0)), '.');
    assert "" + Decimal(Octet(a, 0)) == Decimal(Octet(a, 0));
    CutNumber(Decimal(Octet(a, 0)), Octet(a, 1));
    CutNumber(Decimal(Octet(a, 0)) + "." + Decimal(Octet(a, 1)), Octet(a, 2));
    CutNumber(Decimal(Octet(a, 0)) + "." + Decimal(Octet(a, 1)) + "." + Decimal(Octet(a, 2)), Octet(a, 3));
  }

  /** Numbers to the base 256 have one reading. */
  lemma SameQuad(a: nat, b: nat, c: nat, d: nat, p: nat, q: nat, r: nat, s: nat)
    requires b < 256 && c < 256 && d < 256 && q < 256 && r < 256 && s < 256
    requires ((a * 256 + b) * 256 + c) * 256 + d == ((p * 256 + q) * 256 + r) * 256 + s
    ensures a == p && b == q && c == r && d == s
  {
  }

  lemma JoinFour(p: seq<string>)
    requires |p| == 4
    ensures Join(p, '.') == p[0] + "." + p[1] + "." + p[2] + "." + p[3]
  {
    assert p[..3][..2] == p[..2] && p[..2][..1] == p[..1];
    assert Join(p[..1], '.') == p[0];
    assert Join(p[..2], '.') == p[0] + "." + p[1];
    assert Join(p[..3], '.') == p[0] + "." + p[1] + "." + p[2];
  }

  lemma QuadReads(a: Address)
    ensures IsQuadOf(DottedQuad(a), a)
  {
    OctetsValue(a);
    QuadParts(a);
    NumeralUnique(Decimal(Octet(a, 0)), Octet(a, 0));
    NumeralUnique(Decimal(Octet(a, 1)), Octet(a, 1));
    NumeralUnique(Decimal(Octet(a, 2)), Octet(a, 2));
    NumeralUnique(Decimal(Octet(a, 3)), Octet(a, 3));
    hide Octet, Decimal, DigitsValue, Value, CutAt, IsNumeral;
  }

  lemma QuadOnly(text: string, a: Address)
    requires IsQuadOf(text, a)
    ensures text == DottedQuad(a)
  {
    OctetsValue(a);
    CutJoins(text, '.');
    hide Octet, Decimal, DigitsValue, Value, CutAt, Join;
    var p := CutAt(text, '.');
    SameQuad(Octet(a, 0), Octet(a, 1), Octet(a, 2), Octet(a, 3),
             DigitsValue(p[0]), DigitsValue(p[1]), DigitsValue(p[2]), DigitsValue(p[3]));
    NumeralUnique(p[0], Octet(a, 0));
    NumeralUnique(p[1], Octet(a, 1));
    NumeralUnique(p[2], Octet(a, 2));
    NumeralUnique(p[3], Octet(a, 3));
    JoinFour(p);
  }

  /** A text is the one of an address exactly when its four numbers are ... */
  lemma QuadMeaning(text: string, a: Address)
    ensures text == DottedQuad(a) <==> IsQuadOf(text, a)
  {
    hide DottedQuad, IsQuadOf;
    QuadReads(a);
    if IsQuadOf(text, a) { QuadOnly(text, a); }
  }

  /** ... so it determines the address. */
  lemma QuadDetermines(a: Address, b: Address)
    ensures DottedQuad(a) == DottedQuad(b) <==> a == b
  {
    QuadMeaning(DottedQuad(a), a);
    QuadMeaning(DottedQuad(a), b);
    hide DottedQuad;
    if DottedQuad(a) == DottedQuad(b) { ValueDetermines(a, b); }
  }

  /** get_ip(char*): the text of SIOCGIFADDR, or what the buffer held. */
  function AddrText(f: Interface, left: Leftover): string {
    if f.isOpen && f.addr.Some? then DottedQuad(f.addr.value) else left.text
  }

  /** get_mask_prefix: independent of the machine's byte order. */
  method GetMaskPrefix(f: Interface, littleEndian: bool) returns (prefix: nat)
    ensures prefix == if f.isOpen && f.netmask.Some? then PrefixLength(f.netmask.value) else 0
  {
    var mask := Load(f.isOpen, f.netmask, littleEndian, Zeros(32));
    mask := Hton(mask, littleEndian);
    prefix := CountShifts(mask);
    if f.isOpen && f.netmask.Some? {
      ByteOrder(f.netmask.value, f.netmask.value, littleEndian);
    } else {
      SwapZeros(32);
    }
  }

  lemma SwapZeros(n: nat)
    requires n % 8 == 0
    ensures Swap(Zeros(n)) == Zeros(n) && PrefixLength(Zeros(n)) == 0
  {
    forall i | 0 <= i < n ensures !Swap(Zeros(n))[i] {
      SwapAt(Zeros(n), i);
    }
  }

  // ------------------------------------------------- the scan

  /** The test of the scan, on uint32_t values in network byte order. */
  predicate Matches(f: Interface, left: Leftover, client: Address, littleEndian: bool): (matches: bool)
    ensures !f.isOpen || (f.dst == None && f.netmask == None) ==>
      (matches <==> And(left.ip, left.mask) == And(client, left.mask))
  {
    var ip := Load(f.isOpen, f.dst, littleEndian, left.ip);
    var mask := Load(f.isOpen, f.netmask, littleEndian, left.mask);
    And(ip, mask) == And(client, mask)
  }

  /** Index of the first interface that passes, or the number of interfaces. */
  function FirstMatch(ifs: seq<Interface>, left: seq<Leftover>, client: Address, littleEndian: bool): (k: nat)
    requires |left| == |ifs|
    ensures k <= |ifs| && (k < |ifs| ==> Matches(ifs[k], left[k], client, littleEndian))
    ensures forall i | 0 <= i < k :: !Matches(ifs[i], left[i], client, littleEndian)
  {
    hide Matches;
    if ifs == [] then 0
    else
      var n := |ifs| - 1;
      assert forall i | 0 <= i < n :: ifs[..n][i] == ifs[i] && left[..n][i] == left[i];
      var k := FirstMatch(ifs[..n], left[..n], client, littleEndian);
      if k == n && !Matches(ifs[n], left[n], client, littleEndian) then |ifs| else k
  }

  function ServerIp(ifs: seq<Interface>, left: seq<Leftover>, client: Address, littleEndian: bool): string
    requires |left| == |ifs|
  {
    if |ifs| == 1 then AddrText(ifs[0], left[0])
    else
      var k := FirstMatch(ifs, left, client, littleEndian);
      if k < |ifs| then AddrText(ifs[k], left[k]) else "127.0.0.1"
  }

  /** The text says the address of the interface, or is what the buffer held when it cannot be read. */
  ghost predicate Tells(text: string, f: Interface, left: Leftover) {
    if f.isOpen && f.addr.Some? then IsQuadOf(text, f.addr.value) else text == left.text
  }

  /** What the client is to be told, from the registers: the address of the sole interface, else of the
      match of lowest index, else localhost. */
  ghost predicate IsAnswer(ifs: seq<Interface>, left: seq<Leftover>, client: Address, littleEndian: bool, text: string)
    requires |left| == |ifs|
  {
    && (|ifs| == 1 ==> Tells(text, ifs[0], left[0]))
    && (forall k | 0 <= k < |ifs| != 1 && Matches(ifs[k], left[k], client, littleEndian)
                   && (forall j | 0 <= j < k :: !Matches(ifs[j], left[j], client, littleEndian)) ::
          Tells(text, ifs[k], left[k]))
    && (|ifs| != 1 && (forall k | 0 <= k < |ifs| :: !Matches(ifs[k], left[k], client, littleEndian)) ==>
          text == "127.0.0.1")
  }

  lemma AddrTells(f: Interface, left: Leftover)
    ensures Tells(AddrText(f, left), f, left)
  {
    hide IsQuadOf, DottedQuad;
    if f.isOpen && f.addr.Some? { QuadMeaning(DottedQuad(f.addr.value), f.addr.value); }
  }

  lemma ServerIpAnswers(ifs: seq<Interface>, left: seq<Leftover>, client: Address, littleEndian: bool)
    requires |left| == |ifs|
    ensures IsAnswer(ifs, left, client, littleEndian, ServerIp(ifs, left, client, littleEndian))
  {
    hide Tells, Matches, AddrText, FirstMatch;
    forall k | 0 <= k < |ifs| ensures Tells(AddrText(ifs[k], left[k]), ifs[k], left[k]) {
      AddrTells(ifs[k], left[k]);
    }
  }

  /** Index of the interface whose address is the answer, or the number of interfaces for localhost. */
  function Chosen(ifs: seq<Interface>, left: seq<Leftover>, client: Address, littleEndian: bool): (k: nat)
    requires |left| == |ifs|
    ensures k <= |ifs|
  {
    if |ifs| == 1 then 0 else FirstMatch(ifs, left, client, littleEndian)
  }

  /** The address of that interface can be read, or none is asked for. */
  predicate AnswerReadable(ifs: seq<Interface>, left: seq<Leftover>, client: Address, littleEndian: bool)
    requires |left| == |ifs|
  {
    var k := Chosen(ifs, left, client, littleEndian);
    k < |ifs| ==> ifs[k].isOpen && ifs[k].addr.Some?
  }

  /** The sole interface when there is one, else the lowest-index match, else localhost; the text is cut
      at its dots into four numerals whose values are the address, most significant first. */
  method GetServerIpFromClientIp(ifs: seq<Interface>, left: seq<Leftover>, client: Address, littleEndian: bool)
    returns (ip: string)
    requires |left| == |ifs|
    ensures ip == ServerIp(ifs, left, client, littleEndian)
    ensures IsAnswer(ifs, left, client, littleEndian, ip)
  {
    hide IsAnswer;
    ServerIpAnswers(ifs, left, client, littleEndian);
    if |ifs| == 1 {
      return AddrText(ifs[0], left[0]);
    }
    for i := 0 to |ifs|
      invariant forall j | 0 <= j < i :: !Matches(ifs[j], left[j], client, littleEndian)
    {
      var ifIp := Load(ifs[i].isOpen, ifs[i].dst, littleEndian, left[i].ip);
      var ifMask := Load(ifs[i].isOpen, ifs[i].netmask, littleEndian, left[i].mask);
      if And(ifIp, ifMask) == And(client, ifMask) {
        assert Matches(ifs[i], left[i], client, littleEndian);
        assert FirstMatch(ifs, left, client, littleEndian) == i;
        return AddrText(ifs[i], left[i]);
      }
    }
    ip := "127.0.0.1";
  }

  // ------------------------------------------------- what the scan decides

  predicate Readable(f: Interface) {
    f.isOpen && f.dst.Some? && f.netmask.Some?
  }

  /** Two host-order addresses agree on the top bits that the mask of the interface covers. */
  predicate InSubnet(f: Interface, host: Address)
    requires Readable(f)
  {
    var p := PrefixLength(f.netmask.value);
    f.dst.value[..p] == host[..p]
  }

  /** Masking in network byte order decides the same as masking in host order ... */
  lemma MatchesInHostOrder(f: Interface, left: Leftover, host: Address, littleEndian: bool)
    requires Readable(f)
    ensures Matches(f, left, Hton(host, littleEndian), littleEndian) <==>
            SameNet(f.dst.value, host, f.netmask.value)
  {
    hide PrefixLength, Hton, And;
    var a, m := f.dst.value, f.netmask.value;
    ByteOrder(a, m, littleEndian);
    ByteOrder(host, m, littleEndian);
    ByteOrder(And(a, m), m, littleEndian);
    ByteOrder(And(host, m), m, littleEndian);
  }

  /** ... and, for all addresses exactly when the mask is contiguous, as comparing prefixes. */
  lemma MatchesIffInSubnet(mask: Address, littleEndian: bool)
    ensures Contiguous(mask) <==>
            forall f: Interface, left, host: Address | Readable(f) && f.netmask.value == mask ::
              Matches(f, left, Hton(host, littleEndian), littleEndian) <==> InSubnet(f, host)
  {
    hide PrefixLength, Hton, And, Contiguous, SameNet, Matches, InSubnet;
    if Contiguous(mask) {
      forall f: Interface, left, host: Address | Readable(f) && f.netmask.value == mask
        ensures Matches(f, left, Hton(host, littleEndian), littleEndian) <==> InSubnet(f, host)
      {
        PrefixDecides(f, left, host, littleEndian);
      }
    } else {
      HoleMatches(mask, littleEndian);
    }
  }

  lemma PrefixDecides(f: Interface, left: Leftover, host: Address, littleEndian: bool)
    requires Readable(f) && Contiguous(f.netmask.value)
    ensures Matches(f, left, Hton(host, littleEndian), littleEndian) <==> InSubnet(f, host)
  {
    hide PrefixLength, Hton, And, Contiguous, SameNet, Matches;
    MatchesInHostOrder(f, left, host, littleEndian);
    ContiguousDecides(f.dst.value, host, f.netmask.value);
  }

  lemma HoleMatches(mask: Address, littleEndian: bool)
    requires !Contiguous(mask)
    ensures exists f: Interface, left, host: Address :: Readable(f) && f.netmask.value == mask
              && Matches(f, left, Hton(host, littleEndian), littleEndian) && !InSubnet(f, host)
  {
    hide PrefixLength, Hton, And, Contiguous, SameNet, Matches;
    var a, host := HoleSeparates(mask);
    var f, left := Interface(true, None, Some(a), Some(mask)), Leftover(a, a, "");
    MatchesInHostOrder(f, left, host, littleEndian);
    assert Matches(f, left, Hton(host, littleEndian), littleEndian) && !InSubnet(f, host);
  }

  ghost predicate AllReadable(ifs: seq<Interface>) {
    forall i | 0 <= i < |ifs| :: Readable(ifs[i]) && Contiguous(ifs[i].netmask.value) && ifs[i].addr.Some?
  }

  /** With readable registers and contiguous masks the client is told the address of the interface
      of lowest index whose subnet it is in, and localhost exactly when it is in none, unless there
      is just one interface. */
  lemma ServerIpBySubnet(ifs: seq<Interface>, left: seq<Leftover>, host: Address, littleEndian: bool)
    requires |left| == |ifs| && AllReadable(ifs)
    ensures |ifs| == 1 ==> ServerIp(ifs, left, Hton(host, littleEndian), littleEndian) == DottedQuad(ifs[0].addr.value)
    ensures |ifs| != 1 ==>
      forall k | 0 <= k < |ifs| && InSubnet(ifs[k], host) && (forall j | 0 <= j < k :: !InSubnet(ifs[j], host)) ::
        ServerIp(ifs, left, Hton(host, littleEndian), littleEndian) == DottedQuad(ifs[k].addr.value)
    ensures |ifs| != 1 && (forall k | 0 <= k < |ifs| :: !InSubnet(ifs[k], host)) ==>
      ServerIp(ifs, left, Hton(host, littleEndian), littleEndian) == "127.0.0.1"
  {
    hide PrefixLength, Hton, And, Contiguous, Matches, InSubnet, DottedQuad, FirstMatch;
    var client := Hton(host, littleEndian);
    forall i | 0 <= i < |ifs|
      ensures Matches(ifs[i], left[i], client, littleEndian) <==> InSubnet(ifs[i], host)
    {
      PrefixDecides(ifs[i], left[i], host, littleEndian);
    }
  }

  /** Whatever the registers of all other interfaces hold: unless the address of the chosen one cannot
      be read, the answer consists of digits and dots. */
  lemma ServerIpChars(ifs: seq<Interface>, left: seq<Leftover>, client: Address, littleEndian: bool)
    requires |left| == |ifs| && AnswerReadable(ifs, left, client, littleEndian)
    ensures QuadChars(ServerIp(ifs, left, client, littleEndian))
  {
    hide DottedQuad, FirstMatch, QuadChars;
    var k := Chosen(ifs, left, client, littleEndian);
    QuadShape(client);
    if k < |ifs| { QuadShape(ifs[k].addr.value); }
  }

  /** The same leftovers but for the text buffer. */
  function WithText(left: seq<Leftover>, text: string): (r: seq<Leftover>)
    ensures |r| == |left|
  {
    seq(|left|, i requires 0 <= i < |left| => left[i].(text := text))
  }

  /** The text buffer has no say in the choice. */
  lemma {:induction false} ChoiceIgnoresText(ifs: seq<Interface>, left: seq<Leftover>, text: string,
                                             client: Address, littleEndian: bool)
    requires |left| == |ifs|
    ensures FirstMatch(ifs, WithText(left, text), client, littleEndian) == FirstMatch(ifs, left, client, littleEndian)
    ensures Chosen(ifs, WithText(left, text), client, littleEndian) == Chosen(ifs, left, client, littleEndian)
  {
    hide And, Load;
    if ifs != [] {
      var n := |ifs| - 1;
      ChoiceIgnoresText(ifs[..n], left[..n], text, client, littleEndian);
      assert WithText(left, text)[..n] == WithText(left[..n], text);
    }
  }

  /** When that address cannot be read, the answer is what the buffer held. */
  lemma UnreadableAnswer(ifs: seq<Interface>, left: seq<Leftover>, text: string, client: Address, littleEndian: bool)
    requires |left| == |ifs|
    ensures AnswerReadable(ifs, WithText(left, text), client, littleEndian) <==>
            AnswerReadable(ifs, left, client, littleEndian)
    ensures !AnswerReadable(ifs, left, client, littleEndian) ==>
            ServerIp(ifs, WithText(left, text), client, littleEndian) == text
  {
    hide FirstMatch;
    ChoiceIgnoresText(ifs, left, text, client, littleEndian);
  }
}
