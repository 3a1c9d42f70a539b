/**
 * The basic Base64 alphabet with padding, section 4 of RFC 4648, as
 * `java.util.Base64.getEncoder().encodeToString` writes it, with the
 * matching decoder as its inverse.
 */
module Base64 {
  import opened Common

  /** The character for a 6-bit value: 'A'-'Z', 'a'-'z', '0'-'9', '+', '/'. */
  function Char(v: nat): (c: char)
    requires v < 64
  {
    if v < 26 then ('A' as int + v) as char
    else if v < 52 then ('a' as int + (v - 26)) as char
    else if v < 62 then ('0' as int + (v - 52)) as char
    else if v == 62 then '+'
    else '/'
  }

  predicate IsAlphabet(c: char) {
    ('A' <= c <= 'Z') || ('a' <= c <= 'z') || ('0' <= c <= '9') || c == '+' || c == '/'
  }

  /** The 6-bit value of an alphabet character. */
  function Value(c: char): (v: nat)
    requires IsAlphabet(c)
    ensures v < 64
  {
    if 'A' <= c <= 'Z' then c as int - 'A' as int
    else if 'a' <= c <= 'z' then c as int - 'a' as int + 26
    else if '0' <= c <= '9' then c as int - '0' as int + 52
    else if c == '+' then 62
    else 63
  }

  /** Every 6-bit value has its own character, and reading it back gives the value. */
  lemma CharValue(v: nat)
    requires v < 64
    ensures IsAlphabet(Char(v)) && Value(Char(v)) == v
  {
  }

  /** Three bytes as four characters. */
  function Quad(b0: byte, b1: byte, b2: byte): string {
    [Char(b0 as nat / 4),
     Char((b0 as nat % 4) * 16 + b1 as nat / 16),
     Char((b1 as nat % 16) * 4 + b2 as nat / 64),
     Char(b2 as nat % 64)]
  }

  /** The last group of an encoding: one or two bytes, padded with '=' to four characters. */
  function Final(data: seq<byte>): (r: string)
    requires |data| < 3
    ensures r == [] <==> data == []
  {
    if |data| == 0 then ""
    else if |data| == 1 then
      [Char(data[0] as nat / 4), Char((data[0] as nat % 4) * 16), '=', '=']
    else
      [Char(data[0] as nat / 4),
       Char((data[0] as nat % 4) * 16 + data[1] as nat / 16),
       Char((data[1] as nat % 16) * 4),
       '=']
  }

  /** Encoding of the input, three bytes at a time, with '=' padding for a final group of one or two bytes. */
  function Encode(data: seq<byte>): (r: string)
    ensures r == [] <==> data == []
    decreases |data|
  {
    if |data| < 3 then Final(data)
    else Quad(data[0], data[1], data[2]) + Encode(data[3..])
  }

  /** Four characters for every started group of three bytes. */
  lemma {:induction false} EncodeLength(data: seq<byte>)
    ensures |Encode(data)| == 4 * ((|data| + 2) / 3)
    decreases |data|
  {
    if |data| >= 3 {
      EncodeLength(data[3..]);
      assert (|data| + 2) / 3 == (|data[3..]| + 2) / 3 + 1;
    }
  }

  /** Every character of an encoding is in the alphabet or is '='. */
  lemma {:induction false} EncodeAlphabet(data: seq<byte>)
    ensures forall i :: 0 <= i < |Encode(data)| ==> IsAlphabet(Encode(data)[i]) || Encode(data)[i] == '='
    decreases |data|
  {
    if |data| >= 3 {
      EncodeAlphabet(data[3..]);
      forall v: nat | v < 64 ensures IsAlphabet(Char(v)) {
        CharValue(v);
      }
    }
  }

  /** The bytes of one group of four characters, where '=' ends the group early. */
  function DecodeQuad(q: string): Option<seq<byte>>
    requires |q| == 4
  {
    if !IsAlphabet(q[0]) || !IsAlphabet(q[1]) then None
    else
      var v0, v1 := Value(q[0]), Value(q[1]);
      var b0 := (v0 * 4 + v1 / 16) as byte;
      if q[2] == '=' && q[3] == '=' then Some([b0])
      else if !IsAlphabet(q[2]) then None
      else
        var v2 := Value(q[2]);
        var b1 := ((v1 % 16) * 16 + v2 / 4) as byte;
        if q[3] == '=' then Some([b0, b1])
        else if !IsAlphabet(q[3]) then None
        else
          var v3 := Value(q[3]);
          Some([b0, b1, ((v2 % 4) * 64 + v3) as byte])
  }

  /** Decoding of padded Base64 text; `None` for text that is not a well-formed encoding. */
  function Decode(s: string): Option<seq<byte>>
    decreases |s|
  {
    if s == [] then Some([])
    else if |s| < 4 then None
    else
      match DecodeQuad(s[..4])
      case None => None
      case Some(head) =>
        if |head| < 3 && |s| > 4 then None
        else
          match Decode(s[4..])
          case None => None
          case Some(tail) => Some(head + tail)
  }

  lemma QuadDecodes(b0: byte, b1: byte, b2: byte)
    ensures DecodeQuad(Quad(b0, b1, b2)) == Some([b0, b1, b2])
  {
    var q := Quad(b0, b1, b2);
    QuadValues(b0, b1, b2);
    QuadArith(b0 as nat, b1 as nat, b2 as nat);
    FullQuadDecodes(q);
  }

  /** A group of four alphabet characters decodes to three bytes. */
  lemma FullQuadDecodes(q: string)
    requires |q| == 4 && IsAlphabet(q[0]) && IsAlphabet(q[1]) && IsAlphabet(q[2]) && IsAlphabet(q[3])
    ensures var v0, v1, v2, v3 := Value(q[0]), Value(q[1]), Value(q[2]), Value(q[3]);
      DecodeQuad(q) == Some([(v0 * 4 + v1 / 16) as byte, ((v1 % 16) * 16 + v2 / 4) as byte, ((v2 % 4) * 64 + v3) as byte])
  {
  }

  /** The four characters of a group are alphabet characters standing for the four 6-bit pieces. */
  lemma QuadValues(b0: byte, b1: byte, b2: byte)
    ensures var q := Quad(b0, b1, b2);
      var x0, x1, x2 := b0 as nat, b1 as nat, b2 as nat;
      && IsAlphabet(q[0]) && IsAlphabet(q[1]) && IsAlphabet(q[2]) && IsAlphabet(q[3])
      && Value(q[0]) == x0 / 4 && Value(q[1]) == (x0 % 4) * 16 + x1 / 16
      && Value(q[2]) == (x1 % 16) * 4 + x2 / 64 && Value(q[3]) == x2 % 64
  {
    var x0, x1, x2 := b0 as nat, b1 as nat, b2 as nat;
    CharValue(x0 / 4);
    CharValue((x0 % 4) * 16 + x1 / 16);
    CharValue((x1 % 16) * 4 + x2 / 64);
    CharValue(x2 % 64);
  }

  /** The 6-bit pieces of three bytes put back together give the bytes. */
  lemma QuadArith(x0: nat, x1: nat, x2: nat)
    requires x0 < 256 && x1 < 256 && x2 < 256
    ensures var v0, v1, v2, v3 := x0 / 4, (x0 % 4) * 16 + x1 / 16, (x1 % 16) * 4 + x2 / 64, x2 % 64;
      && v0 * 4 + v1 / 16 == x0
      && (v1 % 16) * 16 + v2 / 4 == x1
      && (v2 % 4) * 64 + v3 == x2
  {
    Combine16(x0 % 4, x1 / 16);
    Combine4(x1 % 16, x2 / 64);
  }

  /** A digit below 16 placed after `a` in base 16 is read back by division and remainder. */
  lemma Combine16(a: nat, b: nat)
    requires b < 16
    ensures (a * 16 + b) / 16 == a && (a * 16 + b) % 16 == b
  {
  }

  /** A digit below 4 placed after `a` in base 4 is read back by division and remainder. */
  lemma Combine4(a: nat, b: nat)
    requires b < 4
    ensures (a * 4 + b) / 4 == a && (a * 4 + b) % 4 == b
  {
  }

  lemma SingleDecodes(b0: byte)
    ensures DecodeQuad([Char(b0 as nat / 4), Char((b0 as nat % 4) * 16), '=', '=']) == Some([b0])
  {
    var x0 := b0 as nat;
    CharValue(x0 / 4);
    CharValue((x0 % 4) * 16);
    assert (x0 / 4) * 4 + ((x0 % 4) * 16) / 16 == x0;
  }

  lemma PairDecodes(b0: byte, b1: byte)
    ensures DecodeQuad([Char(b0 as nat / 4), Char((b0 as nat % 4) * 16 + b1 as nat / 16), Char((b1 as nat % 16) * 4), '='])
      == Some([b0, b1])
  {
    var x0, x1 := b0 as nat, b1 as nat;
    var v0, v1, v2 := x0 / 4, (x0 % 4) * 16 + x1 / 16, (x1 % 16) * 4;
    CharValue(v0);
    CharValue(v1);
    CharValue(v2);
    Combine16(x0 % 4, x1 / 16);
    Combine4(x1 % 16, 0);
    PaddedPairDecodes([Char(v0), Char(v1), Char(v2), '=']);
  }

  /** Three alphabet characters and one '=' decode to two bytes. */
  lemma PaddedPairDecodes(q: string)
    requires |q| == 4 && IsAlphabet(q[0]) && IsAlphabet(q[1]) && IsAlphabet(q[2]) && q[3] == '='
    ensures var v0, v1, v2 := Value(q[0]), Value(q[1]), Value(q[2]);
      DecodeQuad(q) == Some([(v0 * 4 + v1 / 16) as byte, ((v1 % 16) * 16 + v2 / 4) as byte])
  {
  }

  /** A single group decodes to what its four characters stand for. */
  lemma DecodeSingle(q: string)
    requires |q| == 4
    ensures Decode(q) == DecodeQuad(q)
  {
    assert q[..4] == q && q[4..] == [];
    match DecodeQuad(q)
    case None =>
    case Some(h) => assert h + [] == h;
  }

  /** A full group followed by more text decodes group by group. */
  lemma DecodeCons(q: string, rest: string, h: seq<byte>, t: seq<byte>)
    requires |q| == 4 && DecodeQuad(q) == Some(h) && |h| == 3
    requires Decode(rest) == Some(t)
    ensures Decode(q + rest) == Some(h + t)
  {
    assert (q + rest)[..4] == q && (q + rest)[4..] == rest;
  }

  lemma EncodeCons(data: seq<byte>)
    requires |data| >= 3
    ensures Encode(data) == Quad(data[0], data[1], data[2]) + Encode(data[3..])
  {
  }

  lemma DecodeQuadCons(b0: byte, b1: byte, b2: byte, rest: string, t: seq<byte>)
    requires Decode(rest) == Some(t)
    ensures Decode(Quad(b0, b1, b2) + rest) == Some([b0, b1, b2] + t)
  {
    QuadDecodes(b0, b1, b2);
    DecodeCons(Quad(b0, b1, b2), rest, [b0, b1, b2], t);
  }

  /** A leading group of three bytes is decoded back, whatever the rest decodes to. */
  lemma DecodeEncodeGroup(data: seq<byte>)
    requires |data| >= 3
    requires Decode(Encode(data[3..])) == Some(data[3..])
    ensures Decode(Encode(data)) == Some([data[0], data[1], data[2]] + data[3..])
  {
    EncodeCons(data);
    DecodeQuadCons(data[0], data[1], data[2], Encode(data[3..]), data[3..]);
  }

  /** A text of at least three bytes is its first three bytes followed by the rest. */
  lemma GroupSplit(data: seq<byte>)
    requires |data| >= 3
    ensures [data[0], data[1], data[2]] + data[3..] == data
  {
  }

  /** Decoding undoes encoding, so the encoding loses nothing. */
  lemma {:induction false} DecodeEncode(data: seq<byte>)
    ensures Decode(Encode(data)) == Some(data)
    decreases |data|
  {
    if |data| < 3 {
      DecodeEncodeShort(data);
    } else {
      DecodeEncode(data[3..]);
      DecodeEncodeGroup(data);
      GroupSplit(data);
    }
  }

  /** A final group of fewer than three bytes is decoded back. */
  lemma DecodeEncodeShort(data: seq<byte>)
    requires |data| < 3
    ensures Decode(Encode(data)) == Some(data)
  {
    if |data| == 1 {
      DecodeEncodeOne(data);
    } else if |data| == 2 {
      DecodeEncodeTwo(data);
    }
  }

  /** One byte is encoded as a padded group that decodes back to it. */
  lemma DecodeEncodeOne(data: seq<byte>)
    requires |data| == 1
    ensures Decode(Encode(data)) == Some(data)
  {
    SingleDecodes(data[0]);
    DecodeSingle(Encode(data));
    assert data == [data[0]];
  }

  /** Two bytes are encoded as a padded group that decodes back to them. */
  lemma DecodeEncodeTwo(data: seq<byte>)
    requires |data| == 2
    ensures Decode(Encode(data)) == Some(data)
  {
    var b0, b1 := data[0], data[1];
    var q := [Char(b0 as nat / 4), Char((b0 as nat % 4) * 16 + b1 as nat / 16), Char((b1 as nat % 16) * 4), '='];
    PairDecodes(b0, b1);
    assert Encode(data) == q;
    DecodeSingle(q);
    assert [b0, b1] == data;
  }

  /** Different byte strings have different encodings. */
  lemma EncodeInjective(a: seq<byte>, b: seq<byte>)
    requires Encode(a) == Encode(b)
    ensures a == b
  {
    DecodeEncode(a);
    DecodeEncode(b);
  }
}
