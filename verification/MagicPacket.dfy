/**
 The wake packet parser and builder (app/parser.py) and the command built from what it accepts
 (app/fortigate.py).
 */
module MagicPacket {
  import opened Basics

  newtype byte = x: int | 0 <= x < 256

  datatype Result<+T> = Ok(value: T) | Invalid(error: string)

  datatype Packet = Packet(macAddress: string, length: nat)

  const MAC_LENGTH: nat := 6
  const REPEATS: nat := 16

  function Repeat(s: seq<byte>, n: nat): (r: seq<byte>)
    ensures |r| == n * |s|
  {
    if n == 0 then [] else s + Repeat(s, n - 1)
  }

  function Header(): seq<byte> {
    [255, 255, 255, 255, 255, 255]
  }

  // ----------------------------------------------------------- hexadecimal

  const DIGITS := "0123456789ABCDEF"

  function Hex(b: byte): string {
    [DIGITS[b as int / 16], DIGITS[b as int % 16]]
  }

  /** The bytes in upper-case hexadecimal, joined by colons. */
  function MacText(mac: seq<byte>): string {
    if mac == [] then ""
    else if |mac| == 1 then Hex(mac[0])
    else Hex(mac[0]) + ":" + MacText(mac[1..])
  }

  // ------------------------------------------------------- parser, builder

  function Parse(data: seq<byte>): Result<Packet> {
    if |data| != 102 then Invalid("magic packet must be exactly 102 bytes")
    else if data[..6] != Header() then Invalid("invalid magic packet header")
    else if data[6..] != Repeat(data[6..12], REPEATS) then Invalid("destination MAC is not repeated 16 times")
    else Ok(Packet(MacText(data[6..12]), |data|))
  }

  function Build(mac: seq<byte>): Result<seq<byte>> {
    if |mac| != MAC_LENGTH then Invalid("MAC must contain exactly 6 bytes")
    else Ok(Header() + Repeat(mac, REPEATS))
  }

  /** Parsing a built packet gives back the MAC's text, for every MAC. */
  lemma ParseBuilt(mac: seq<byte>)
    requires |mac| == MAC_LENGTH
    ensures Parse(Build(mac).value) == Ok(Packet(MacText(mac), 102))
  {
    var data := Build(mac).value;
    assert data[6..] == Repeat(mac, REPEATS);
    assert Repeat(mac, REPEATS)[..6] == mac;
    assert data[6..12] == mac;
  }

  /** The parser accepts exactly the packets the builder makes. */
  lemma AcceptedIffBuilt(data: seq<byte>)
    ensures Parse(data).Ok? <==> exists mac: seq<byte> :: |mac| == MAC_LENGTH && Build(mac) == Ok(data)
  {
    if Parse(data).Ok? {
      assert data == data[..6] + data[6..];
      assert |data[6..12]| == MAC_LENGTH && Build(data[6..12]) == Ok(data);
    }
    if mac: seq<byte> :| |mac| == MAC_LENGTH && Build(mac) == Ok(data) {
      ParseBuilt(mac);
    }
  }

  lemma DigitsDiffer(i: nat, j: nat)
    requires i < 16 && j < 16 && DIGITS[i] == DIGITS[j]
    ensures i == j
  {
  }

  lemma HexInjective(a: byte, b: byte)
    requires Hex(a) == Hex(b)
    ensures a == b
  {
    assert Hex(a)[0] == Hex(b)[0] && Hex(a)[1] == Hex(b)[1];
    DigitsDiffer(a as int / 16, b as int / 16);
    DigitsDiffer(a as int % 16, b as int % 16);
  }

  lemma {:induction false} MacTextInjective(a: seq<byte>, b: seq<byte>)
    requires |a| == |b| && MacText(a) == MacText(b)
    ensures a == b
  {
    if a != [] {
      var ta, tb := MacText(a), MacText(b);
      assert ta[..2] == Hex(a[0]) && tb[..2] == Hex(b[0]);
      HexInjective(a[0], b[0]);
      if |a| > 1 {
        assert ta[3..] == MacText(a[1..]) && tb[3..] == MacText(b[1..]);
        MacTextInjective(a[1..], b[1..]);
      }
      assert a == [a[0]] + a[1..] && b == [b[0]] + b[1..];
    }
  }

  /** Distinct accepted packets name distinct MAC addresses. */
  lemma AcceptedPacketsDiffer(a: seq<byte>, b: seq<byte>)
    requires Parse(a).Ok? && Parse(b).Ok?
    requires Parse(a).value.macAddress == Parse(b).value.macAddress
    ensures a == b
  {
    MacTextInjective(a[6..12], b[6..12]);
    assert a == a[..6] + a[6..] && b == b[..6] + b[6..];
  }

  // ------------------------------------------------ said of the bytes alone

  /** The value of a hexadecimal digit, from its character code. */
  function DigitValue(c: char): int {
    if c <= '9' then c as int - 48 else c as int - 55
  }

  lemma HexReads(b: byte)
    ensures 16 * DigitValue(Hex(b)[0]) + DigitValue(Hex(b)[1]) == b as int
  {
    assert forall k :: 0 <= k < 16 ==> DigitValue(DIGITS[k]) == k;
  }

  lemma {:induction false} MacTextReads(mac: seq<byte>, k: nat)
    requires k < |mac|
    ensures |MacText(mac)| == 3 * |mac| - 1
    ensures 16 * DigitValue(MacText(mac)[3 * k]) + DigitValue(MacText(mac)[3 * k + 1]) == mac[k] as int
  {
    HexReads(mac[0]);
    if |mac| > 1 {
      MacTextReads(mac[1..], if k == 0 then 0 else k - 1);
    }
  }

  /** The parsed MAC names the machine the packet is for: its digits read back as bytes 6 to 11. */
  lemma ParsedMacReads(data: seq<byte>, k: nat)
    requires Parse(data).Ok? && k < 6
    ensures var text := Parse(data).value.macAddress;
      |text| == 17 && 16 * DigitValue(text[3 * k]) + DigitValue(text[3 * k + 1]) == data[6 + k] as int
    ensures Parse(data).value.length == 102
  {
    MacTextReads(data[6..12], k);
  }

  lemma {:induction false} RepeatAt(s: seq<byte>, n: nat, i: nat)
    requires |s| == 6 && i < 6 * n
    ensures Repeat(s, n)[i] == s[i % 6]
  {
    if i >= 6 {
      RepeatAt(s, n - 1, i - 6);
    }
  }

  /** A packet is accepted exactly when it is 102 bytes: six of 255, then six bytes sixteen times. */
  lemma AcceptedIffBytes(data: seq<byte>)
    ensures Parse(data).Ok?
       <==> |data| == 102 && (forall i :: 0 <= i < 6 ==> data[i] == 255)
            && (forall i :: 6 <= i < 102 ==> data[i] == data[6 + i % 6])
  {
    if |data| == 102 {
      var mac := data[6..12];
      forall i | 0 <= i < 96 ensures Repeat(mac, REPEATS)[i] == data[6 + i % 6] {
        RepeatAt(mac, REPEATS, i);
      }
      assert forall i :: 6 <= i < 102 ==> i % 6 == (i - 6) % 6;
      if forall i :: 6 <= i < 102 ==> data[i] == data[6 + i % 6] {
        assert data[6..] == Repeat(mac, REPEATS);
      }
      if data[6..] == Repeat(mac, REPEATS) {
        forall i | 6 <= i < 102 ensures data[i] == data[6 + i % 6] {
          assert data[i] == data[6..][i - 6];
        }
      }
    }
  }

  // --------------------------------------------------------------- command

  predicate IsHexDigit(c: char) {
    '0' <= c <= '9' || 'A' <= c <= 'F'
  }

  /** The command builder's check of a MAC address. */
  predicate MacPattern(s: string) {
    |s| == 17 && forall i :: 0 <= i < 17 ==> if i % 3 == 2 then s[i] == ':' else IsHexDigit(s[i])
  }

  predicate InterfacePattern(s: string) {
    s != "" && forall i :: 0 <= i < |s| ==>
      ('A' <= s[i] <= 'Z' || 'a' <= s[i] <= 'z' || '0' <= s[i] <= '9' || s[i] in "_.-")
  }

  /** `ip` is the gateway address as the address library writes it, None when it is not one. */
  function BuildCommand(interface: string, mac: string, ip: Option<string>): Result<string> {
    if !InterfacePattern(interface) then Invalid("invalid FortiGate interface")
    else if !MacPattern(mac) then Invalid("invalid MAC address")
    else if ip.None? then Invalid("invalid gateway IP")
    else Ok("execute wake-on-lan " + interface + " " + mac + " 2 9 " + ip.value)
  }

  lemma {:induction false} MacTextShape(mac: seq<byte>)
    requires mac != []
    ensures |MacText(mac)| == 3 * |mac| - 1
    ensures forall i :: 0 <= i < |MacText(mac)| ==>
      if i % 3 == 2 then MacText(mac)[i] == ':' else IsHexDigit(MacText(mac)[i])
  {
    var text := MacText(mac);
    assert forall k :: 0 <= k < 16 ==> IsHexDigit(DIGITS[k]);
    assert IsHexDigit(text[0]) && IsHexDigit(text[1]);
    if |mac| > 1 {
      MacTextShape(mac[1..]);
      forall i | 3 <= i < |text| ensures if i % 3 == 2 then text[i] == ':' else IsHexDigit(text[i]) {
        assert text[i] == MacText(mac[1..])[i - 3];
      }
    }
  }

  /** Every accepted packet's MAC passes the command builder's check. */
  lemma AcceptedMacPasses(data: seq<byte>)
    requires Parse(data).Ok?
    ensures MacPattern(Parse(data).value.macAddress)
  {
    MacTextShape(data[6..12]);
  }

  lemma SplitAtSpace(a: string, x: string, b: string, y: string)
    requires ' ' !in a && ' ' !in b
    requires a + " " + x == b + " " + y
    ensures a == b && x == y
  {
    var s := a + " " + x;
    assert s[|a|] == ' ' && s[|b|] == ' ';
    forall k | 0 <= k < |a| ensures s[k] != ' ' {
      assert s[k] == a[k] && a[k] in a;
    }
    forall k | 0 <= k < |b| ensures s[k] != ' ' {
      assert s[k] == b[k] && b[k] in b;
    }
    assert |a| == |b|;
    assert s[..|a|] == a && s[..|b|] == b;
    assert s[|a| + 1..] == x && s[|b| + 1..] == y;
  }

  lemma NoSpaceInside(interface: string, mac: string)
    ensures InterfacePattern(interface) ==> ' ' !in interface
    ensures MacPattern(mac) ==> ' ' !in mac
  {
  }

  /** The command text determines interface, MAC and address. */
  lemma CommandDetermines(interface: string, mac: string, ip: Option<string>,
                          interface': string, mac': string, ip': Option<string>)
    requires BuildCommand(interface, mac, ip).Ok?
    requires BuildCommand(interface, mac, ip) == BuildCommand(interface', mac', ip')
    ensures interface == interface' && mac == mac' && ip == ip'
  {
    NoSpaceInside(interface, mac);
    NoSpaceInside(interface', mac');
    var prefix := "execute wake-on-lan ";
    var tail, tail' := mac + " " + ("2 9 " + ip.value), mac' + " " + ("2 9 " + ip'.value);
    var text, text' := BuildCommand(interface, mac, ip).value, BuildCommand(interface', mac', ip').value;
    assert text == prefix + (interface + " " + tail);
    assert text' == prefix + (interface' + " " + tail');
    assert text[|prefix|..] == interface + " " + tail && text'[|prefix|..] == interface' + " " + tail';
    SplitAtSpace(interface, tail, interface', tail');
    SplitAtSpace(mac, "2 9 " + ip.value, mac', "2 9 " + ip'.value);
    assert ("2 9 " + ip.value)[4..] == ip.value && ("2 9 " + ip'.value)[4..] == ip'.value;
  }

  /** The words between single spaces. */
  function Words(s: string): seq<string> {
    if s == "" then [""]
    else
      var rest := Words(s[1..]);
      if s[0] == ' ' then [""] + rest else [[s[0]] + rest[0]] + rest[1..]
  }

  lemma {:induction false} WordsSplit(a: string, x: string)
    requires ' ' !in a
    ensures Words(a + " " + x) == [a] + Words(x)
  {
    var s := a + " " + x;
    if a == "" {
      assert s[1..] == x;
    } else {
      assert s[1..] == a[1..] + " " + x;
      WordsSplit(a[1..], x);
      assert a == [a[0]] + a[1..];
    }
  }

  lemma {:induction false} OneWord(a: string)
    requires ' ' !in a
    ensures Words(a) == [a]
  {
    if a != "" {
      OneWord(a[1..]);
      assert [a[0]] + a[1..] == a && [a[1..]][1..] == [];
    }
  }

  /** The command is refused exactly for a bad interface, MAC or address; else these are its words. */
  lemma CommandWords(interface: string, mac: string, ip: Option<string>)
    requires ip.Some? ==> ' ' !in ip.value
    ensures BuildCommand(interface, mac, ip).Ok? <==> InterfacePattern(interface) && MacPattern(mac) && ip.Some?
    ensures BuildCommand(interface, mac, ip).Ok? ==>
      Words(BuildCommand(interface, mac, ip).value) == ["execute", "wake-on-lan", interface, mac, "2", "9", ip.value]
  {
    if BuildCommand(interface, mac, ip).Ok? {
      NoSpaceInside(interface, mac);
      var tail := mac + " " + ("2" + " " + ("9" + " " + ip.value));
      CommandShape(interface, mac, ip);
      WordsSplit("execute", "wake-on-lan" + " " + (interface + " " + tail));
      WordsSplit("wake-on-lan", interface + " " + tail);
      WordsSplit(interface, tail);
      TailWords(mac, ip.value);
    }
  }

  lemma CommandShape(interface: string, mac: string, ip: Option<string>)
    requires BuildCommand(interface, mac, ip).Ok?
    ensures BuildCommand(interface, mac, ip).value
         == "execute" + " " + ("wake-on-lan" + " "
            + (interface + " " + (mac + " " + ("2" + " " + ("9" + " " + ip.value)))))
  {
  }

  lemma TailWords(mac: string, ip: string)
    requires ' ' !in mac && ' ' !in ip
    ensures Words(mac + " " + ("2" + " " + ("9" + " " + ip))) == [mac, "2", "9", ip]
  {
    WordsSplit(mac, "2" + " " + ("9" + " " + ip));
    WordsSplit("2", "9" + " " + ip);
    WordsSplit("9", ip);
    OneWord(ip);
  }
}
