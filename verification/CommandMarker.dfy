/**
 The marker that ties an audit entry to the command that wrote it: the UTF-8 bytes
 of the command id in unpadded base64url, between a fixed opening and a bracket.
 */
module CommandMarker {

  type Byte = b: nat | b < 256
  type CommandId = seq<Byte>

  const OPENING := "[seedrop-command:"

  function Symbol(n: nat): (c: char)
    requires n < 64
    ensures c != ']'
  {
    if n < 26 then 'A' + n as char
    else if n < 52 then 'a' + (n - 26) as char
    else if n < 62 then '0' + (n - 52) as char
    else if n == 62 then '-'
    else '_'
  }

  lemma SymbolInjective(m: nat, n: nat)
    requires m < 64 && n < 64 && Symbol(m) == Symbol(n)
    ensures m == n
  {
  }

  type Sextet = n: nat | n < 64

  /** Three bytes become four sextets; a tail of one or two bytes becomes two or three, without padding. */
  function Sextets(bytes: seq<Byte>): (r: seq<Sextet>)
    ensures |r| == 4 * (|bytes| / 3) + (if |bytes| % 3 == 0 then 0 else |bytes| % 3 + 1)
  {
    if |bytes| == 0 then []
    else if |bytes| == 1 then
      [bytes[0] / 4, bytes[0] % 4 * 16]
    else if |bytes| == 2 then
      [bytes[0] / 4, bytes[0] % 4 * 16 + bytes[1] / 16, bytes[1] % 16 * 4]
    else
      [bytes[0] / 4, bytes[0] % 4 * 16 + bytes[1] / 16, bytes[1] % 16 * 4 + bytes[2] / 64, bytes[2] % 64]
      + Sextets(bytes[3..])
  }

  function Base64Url(bytes: seq<Byte>): (text: string) {
    var s := Sextets(bytes);
    seq(|s|, i requires 0 <= i < |s| => Symbol(s[i]))
  }

  lemma FirstByte(a0: Byte, a1: Byte, b0: Byte, b1: Byte)
    requires a0 / 4 == b0 / 4 && a0 % 4 * 16 + a1 / 16 == b0 % 4 * 16 + b1 / 16
    ensures a0 == b0 && a1 / 16 == b1 / 16
  {
  }

  lemma SecondByte(a1: Byte, a2: Byte, b1: Byte, b2: Byte)
    requires a1 / 16 == b1 / 16 && a1 % 16 * 4 + a2 / 64 == b1 % 16 * 4 + b2 / 64
    ensures a1 == b1 && a2 / 64 == b2 / 64
  {
  }

  lemma {:induction false} SextetsInjective(a: seq<Byte>, b: seq<Byte>)
    requires Sextets(a) == Sextets(b)
    ensures a == b
  {
    assert |a| == |b|;
    if |a| > 0 {
      var s, t := Sextets(a), Sextets(b);
      assert s[0] == t[0] && s[1] == t[1];
      if |a| > 1 {
        FirstByte(a[0], a[1], b[0], b[1]);
        assert s[2] == t[2];
        if |a| > 2 {
          SecondByte(a[1], a[2], b[1], b[2]);
          assert s[3] == t[3];
          assert Sextets(a[3..]) == s[4..] && Sextets(b[3..]) == t[4..];
          SextetsInjective(a[3..], b[3..]);
          assert a == a[..3] + a[3..] && b == b[..3] + b[3..];
        }
      }
    }
  }

  /** The encoding loses nothing: equal texts come from equal byte sequences. */
  lemma Base64UrlInjective(a: seq<Byte>, b: seq<Byte>)
    ensures Base64Url(a) == Base64Url(b) <==> a == b
  {
    if Base64Url(a) == Base64Url(b) {
      var s, t := Sextets(a), Sextets(b);
      assert |s| == |Base64Url(a)| == |t|;
      forall i | 0 <= i < |s| ensures s[i] == t[i] {
        assert Base64Url(a)[i] == Base64Url(b)[i];
        SymbolInjective(s[i], t[i]);
      }
      assert s == t;
      SextetsInjective(a, b);
    }
  }

  /** The number written by three bytes, and by four sextets. */
  function Bytes(a: int, b: int, c: int): int {
    a * 0x10000 + b * 0x100 + c
  }

  function Bits(a: int, b: int, c: int, d: int): int {
    a * 0x40000 + b * 0x1000 + c * 0x40 + d
  }

  /** Four sextets hold the 24 bits of their three bytes, high bits first. */
  lemma {:induction false} SextetsKeepBits(bytes: seq<Byte>, i: nat)
    requires 3 * i + 3 <= |bytes|
    ensures var s := Sextets(bytes);
      && 4 * i + 4 <= |s|
      && Bits(s[4 * i], s[4 * i + 1], s[4 * i + 2], s[4 * i + 3])
           == Bytes(bytes[3 * i], bytes[3 * i + 1], bytes[3 * i + 2])
  {
    if i > 0 {
      SextetsKeepBits(bytes[3..], i - 1);
    }
  }

  /** A tail of one or two bytes is held in two or three sextets, the bits left over being zero. */
  lemma {:induction false} SextetsKeepTail(bytes: seq<Byte>)
    ensures var s := Sextets(bytes);
      match |bytes| % 3
      case 0 => true
      case 1 => Bits(s[|s| - 2], s[|s| - 1], 0, 0) == Bytes(bytes[|bytes| - 1], 0, 0)
      case 2 => Bits(s[|s| - 3], s[|s| - 2], s[|s| - 1], 0) == Bytes(bytes[|bytes| - 2], bytes[|bytes| - 1], 0)
  {
    if |bytes| >= 3 {
      SextetsKeepTail(bytes[3..]);
    }
  }

  function Marker(id: CommandId): string {
    OPENING + Base64Url(id) + "]"
  }

  /** The examples of section 9 of RFC 4648, in the alphabet for URLs and without padding. */
  lemma ExamplesAreEncoded()
    ensures Base64Url([0x14, 0xFB, 0x9C, 0x03, 0xD9, 0x7E]) == "FPucA9l-"
    ensures Base64Url([0x14, 0xFB, 0x9C, 0x03, 0xD9]) == "FPucA9k"
    ensures Base64Url([0x14, 0xFB, 0x9C, 0x03]) == "FPucAw"
  {
    hide Base64Url;
    ThreeMore([0x03, 0xD9, 0x7E]);
    ThreeMore([0x03, 0xD9]);
    ThreeMore([0x03]);
    TailsAreEncoded();
    assert [0x14, 0xFB, 0x9C] + [0x03, 0xD9, 0x7E] == [0x14, 0xFB, 0x9C, 0x03, 0xD9, 0x7E];
    assert [0x14, 0xFB, 0x9C] + [0x03, 0xD9] == [0x14, 0xFB, 0x9C, 0x03, 0xD9];
    assert [0x14, 0xFB, 0x9C] + [0x03] == [0x14, 0xFB, 0x9C, 0x03];
  }

  lemma TailsAreEncoded()
    ensures Base64Url([0x03, 0xD9, 0x7E]) == "A9l-" && Base64Url([0x03, 0xD9]) == "A9k" && Base64Url([0x03]) == "Aw"
  {
    assert [0x03, 0xD9, 0x7E][3..] == [];
    assert Sextets([0x03, 0xD9, 0x7E]) == [0, 61, 37, 62];
    assert Sextets([0x03, 0xD9]) == [0, 61, 36] && Sextets([0x03]) == [0, 48];
  }

  lemma ThreeMore(rest: seq<Byte>)
    ensures Base64Url([0x14, 0xFB, 0x9C] + rest) == "FPuc" + Base64Url(rest)
  {
    var all := [0x14, 0xFB, 0x9C] + rest;
    assert all[3..] == rest;
    assert Sextets(all) == [5, 15, 46, 28] + Sextets(rest);
  }

  lemma LastSymbolsAsWritten()
    ensures Marker([0xFF]) == "[seedrop-command:_w]"
  {
    assert Base64Url([0xFF]) == "_w";
  }

  /** The notes of an entry: the marker alone, or the marker, a space and the caller's text when that is not empty. */
  function Notes(id: CommandId, text: string): string {
    if text == "" then Marker(id) else Marker(id) + " " + text
  }

  predicate CarriesMarker(notes: string, id: CommandId) {
    Marker(id) <= notes
  }

  /** Two texts free of `stop`, each followed by it: one continued is a prefix of the other only when they are equal. */
  lemma DelimitedPrefix(p: string, q: string, stop: char, rest: string)
    requires stop !in p && stop !in q
    requires p + [stop] <= q + [stop] + rest
    ensures p == q
  {
    var m, n := p + [stop], q + [stop] + rest;
    assert m == n[..|m|];
    assert m[|p|] == stop && n[|q|] == stop;
    assert p == m[..|p|] == n[..|q|] == q;
  }

  /** Notes written for one command carry another's marker only when the two ids are the same. */
  lemma MarkerIdentifiesCommand(a: CommandId, b: CommandId, text: string)
    ensures CarriesMarker(Notes(b, text), a) <==> a == b
  {
    var p, q := Base64Url(a), Base64Url(b);
    var rest := if text == "" then "" else " " + text;
    assert Notes(b, text) == OPENING + (q + [']'] + rest);
    assert Marker(a) == OPENING + (p + [']']);
    if CarriesMarker(Notes(b, text), a) {
      assert p + [']'] == Marker(a)[|OPENING|..];
      assert q + [']'] + rest == Notes(b, text)[|OPENING|..];
      DelimitedPrefix(p, q, ']', rest);
      Base64UrlInjective(a, b);
    }
  }
}
