/**
 * Base 64 encoding as in section 4 of RFC 4648 (the alphabet of Table 1, `=`
 * padding), which `Buffer.prototype.toString('base64')` produces, with a
 * decoder for the same alphabet.
 */
module Base64 {
  import opened Outcomes
  import opened Bytes

  type Sextet = v: int | 0 <= v < 64

  /** Table 1 of RFC 4648: `A`-`Z`, `a`-`z`, `0`-`9`, `+`, `/`. */
  function Letter(v: Sextet): (c: char)
    ensures c != '='
  {
    if v < 26 then ('A' as int + v) as char
    else if v < 52 then ('a' as int + v - 26) as char
    else if v < 62 then ('0' as int + v - 52) as char
    else if v == 62 then '+'
    else '/'
  }

  function ValueOf(c: char): Option<Sextet> {
    if 'A' <= c <= 'Z' then Some(c as int - 'A' as int)
    else if 'a' <= c <= 'z' then Some(c as int - 'a' as int + 26)
    else if '0' <= c <= '9' then Some(c as int - '0' as int + 52)
    else if c == '+' then Some(62)
    else if c == '/' then Some(63)
    else None
  }

  lemma ValueOfLetter(v: Sextet)
    ensures ValueOf(Letter(v)) == Some(v)
  {
  }

  /** Three octets as four letters. */
  function EncodeGroup(b0: Byte, b1: Byte, b2: Byte): string {
    [Letter(b0 / 4), Letter((b0 % 4) * 16 + b1 / 16), Letter((b1 % 16) * 4 + b2 / 64), Letter(b2 % 64)]
  }

  /** The encoding: whole groups of three octets, then a padded final quantum. */
  function Encode(b: seq<Byte>): (s: string)
    ensures |s| == 4 * ((|b| + 2) / 3)
    decreases |b|
  {
    if |b| >= 3 then EncodeGroup(b[0], b[1], b[2]) + Encode(b[3..])
    else if |b| == 2 then [Letter(b[0] / 4), Letter((b[0] % 4) * 16 + b[1] / 16), Letter((b[1] % 16) * 4), '=']
    else if |b| == 1 then [Letter(b[0] / 4), Letter((b[0] % 4) * 16), '=', '=']
    else []
  }

  /** The octets that a run of sextets carries. */
  function First(v0: Sextet, v1: Sextet): Byte {
    (v0 as int) * 4 + (v1 as int) / 16
  }

  function Second(v1: Sextet, v2: Sextet): Byte {
    ((v1 as int) % 16) * 16 + (v2 as int) / 4
  }

  function Third(v2: Sextet, v3: Sextet): Byte {
    ((v2 as int) % 4) * 64 + (v3 as int)
  }

  /** Four letters without padding as three octets. */
  function DecodeGroup(q: string): Option<seq<Byte>>
    requires |q| == 4
  {
    match (ValueOf(q[0]), ValueOf(q[1]), ValueOf(q[2]), ValueOf(q[3]))
    case (Some(v0), Some(v1), Some(v2), Some(v3)) =>
      Some([First(v0, v1), Second(v1, v2), Third(v2, v3)])
    case _ => None
  }

  /** The last quantum, which may carry one or two `=`. */
  function DecodeFinal(q: string): Option<seq<Byte>>
    requires |q| == 4
  {
    if q[2] == '=' && q[3] == '=' then
      match (ValueOf(q[0]), ValueOf(q[1]))
      case (Some(v0), Some(v1)) => Some([First(v0, v1)])
      case _ => None
    else if q[3] == '=' then
      match (ValueOf(q[0]), ValueOf(q[1]), ValueOf(q[2]))
      case (Some(v0), Some(v1), Some(v2)) => Some([First(v0, v1), Second(v1, v2)])
      case _ => None
    else DecodeGroup(q)
  }

  function Decode(s: string): Option<seq<Byte>>
    decreases |s|
  {
    if s == [] then Some([])
    else if |s| < 4 then None
    else if |s| == 4 then DecodeFinal(s)
    else
      match (DecodeGroup(s[..4]), Decode(s[4..]))
      case (Some(g), Some(rest)) => Some(g + rest)
      case _ => None
  }

  /** The first octet comes back from the first two sextets of its group. */
  lemma FirstOf(b0: Byte, b1: Byte)
    ensures First(b0 / 4, (b0 % 4) * 16 + b1 / 16) == b0
  {
    assert ((b0 % 4) * 16 + b1 / 16) / 16 == b0 % 4;
  }

  /** The second octet comes back from the middle sextets, whatever the high bits `hi` of the first. */
  lemma SecondOf(hi: int, b1: Byte, b2: Byte)
    requires 0 <= hi < 4
    ensures Second(hi * 16 + b1 / 16, (b1 % 16) * 4 + b2 / 64) == b1
  {
    assert (hi * 16 + b1 / 16) % 16 == b1 / 16;
    assert ((b1 % 16) * 4 + b2 / 64) / 4 == b1 % 16;
  }

  lemma ThirdOf(b1: Byte, b2: Byte)
    ensures Third((b1 % 16) * 4 + b2 / 64, b2 % 64) == b2
  {
    assert ((b1 % 16) * 4 + b2 / 64) % 4 == b2 / 64;
  }

  lemma GroupRoundTrip(b0: Byte, b1: Byte, b2: Byte)
    ensures DecodeGroup(EncodeGroup(b0, b1, b2)) == Some([b0, b1, b2])
  {
    ValueOfLetter(b0 / 4);
    ValueOfLetter((b0 % 4) * 16 + b1 / 16);
    ValueOfLetter((b1 % 16) * 4 + b2 / 64);
    ValueOfLetter(b2 % 64);
    FirstOf(b0, b1);
    SecondOf(b0 % 4, b1, b2);
    ThirdOf(b1, b2);
  }

  lemma FinalPairRoundTrip(b0: Byte, b1: Byte)
    ensures Decode(Encode([b0, b1])) == Some([b0, b1])
  {
    var v0, v1, v2 := b0 / 4, (b0 % 4) * 16 + b1 / 16, (b1 % 16) * 4;
    var q := [Letter(v0), Letter(v1), Letter(v2), '='];
    assert Encode([b0, b1]) == q;
    ValueOfLetter(v0);
    ValueOfLetter(v1);
    ValueOfLetter(v2);
    assert DecodeFinal(q) == Some([First(v0, v1), Second(v1, v2)]);
    FirstOf(b0, b1);
    SecondOf(b0 % 4, b1, 0);
  }

  lemma FinalOctetRoundTrip(b0: Byte)
    ensures Decode(Encode([b0])) == Some([b0])
  {
    var v0, v1 := b0 / 4, (b0 % 4) * 16;
    var q := [Letter(v0), Letter(v1), '=', '='];
    assert Encode([b0]) == q;
    ValueOfLetter(v0);
    ValueOfLetter(v1);
    assert DecodeFinal(q) == Some([First(v0, v1)]);
    FirstOf(b0, 0);
  }

  /** Decoding an encoding gives the octets back. */
  lemma {:induction false} DecodeEncode(b: seq<Byte>)
    ensures Decode(Encode(b)) == Some(b)
    decreases |b|
  {
    if |b| >= 3 {
      var g := EncodeGroup(b[0], b[1], b[2]);
      var s := Encode(b);
      GroupRoundTrip(b[0], b[1], b[2]);
      assert s[..4] == g && s[4..] == Encode(b[3..]);
      if |b| == 3 {
        assert s == g;
        assert [b[0], b[1], b[2]] == b;
      } else {
        DecodeEncode(b[3..]);
        assert [b[0], b[1], b[2]] + b[3..] == b;
      }
    } else if |b| == 2 {
      FinalPairRoundTrip(b[0], b[1]);
      assert [b[0], b[1]] == b;
    } else if |b| == 1 {
      FinalOctetRoundTrip(b[0]);
      assert [b[0]] == b;
    }
  }

  /** Splitting the octets after a multiple of three encodes each part on its own. */
  lemma {:induction false} EncodeConcatAligned(a: seq<Byte>, b: seq<Byte>)
    requires |a| % 3 == 0
    ensures Encode(a + b) == Encode(a) + Encode(b)
    decreases |a|
  {
    if a == [] {
      assert a + b == b;
    } else {
      assert (a + b)[3..] == a[3..] + b;
      assert (a + b)[..3] == a[..3];
      EncodeConcatAligned(a[3..], b);
    }
  }

  /**
   * Encoding each chunk on its own is not the same: two one-octet chunks give
   * eight letters where their concatenation gives four.
   */
  lemma PerChunkEncodingDiffers()
    ensures Encode([0]) + Encode([0]) != Encode([0, 0])
  {
  }
}
