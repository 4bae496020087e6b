/** The standard Base64 alphabet and padding (section 4 of RFC 4648), in which the
    pending-release record carries the previous environment. */
module Base64 {
  import opened Common

  function Digit(v: int): (c: char)
    requires 0 <= v < 64
    ensures Value(c) == Some(v) && c != '='
  {
    if v < 26 then 'A' + v as char
    else if v < 52 then 'a' + (v - 26) as char
    else if v < 62 then '0' + (v - 52) as char
    else if v == 62 then '+' else '/'
  }

  function Value(c: char): (v: Option<int>)
    ensures v.Some? ==> 0 <= v.value < 64
  {
    if 'A' <= c <= 'Z' then Some(c as int - 'A' as int)
    else if 'a' <= c <= 'z' then Some(c as int - 'a' as int + 26)
    else if '0' <= c <= '9' then Some(c as int - '0' as int + 52)
    else if c == '+' then Some(62)
    else if c == '/' then Some(63)
    else None
  }

  function EncodeTail(b: seq<Byte>): string
    requires |b| <= 2
  {
    if |b| == 0 then []
    else
      var x := b[0] as int;
      if |b| == 1 then [Digit(x / 4), Digit(x % 4 * 16), '=', '=']
      else
        var y := b[1] as int;
        [Digit(x / 4), Digit(x % 4 * 16 + y / 16), Digit(y % 16 * 4), '=']
  }

  /** Three bytes in four digits, from which the bytes can be read back. */
  function EncodeGroup(x: Byte, y: Byte, z: Byte): (group: string)
    ensures |group| == 4 && group[3] != '=' && DecodeGroup(group) == Some([x, y, z])
  {
    GroupRoundTrip(x, y, z);
    [Digit(x as int / 4), Digit(x as int % 4 * 16 + y as int / 16), Digit(y as int % 16 * 4 + z as int / 64), Digit(z as int % 64)]
  }

  /** base64.b64encode */
  function Encode(b: seq<Byte>): (text: string)
    decreases |b|
  {
    if |b| < 3 then EncodeTail(b) else EncodeGroup(b[0], b[1], b[2]) + Encode(b[3..])
  }

  /** Four characters without padding. */
  function DecodeGroup(text: string): Option<seq<Byte>>
    requires |text| == 4
  {
    match (Value(text[0]), Value(text[1]), Value(text[2]), Value(text[3]))
    case (Some(p), Some(q), Some(r), Some(s)) =>
      Some([(p * 4 + q / 16) as Byte, (q % 16 * 16 + r / 4) as Byte, (r % 4 * 64 + s) as Byte])
    case _ => None
  }

  function DecodeLast(text: string): Option<seq<Byte>>
    requires |text| == 4
  {
    if text[3] != '=' then DecodeGroup(text)
    else
      match (Value(text[0]), Value(text[1]))
      case (Some(p), Some(q)) =>
        if text[2] == '=' then Some([(p * 4 + q / 16) as Byte])
        else (match Value(text[2])
              case Some(r) => Some([(p * 4 + q / 16) as Byte, (q % 16 * 16 + r / 4) as Byte])
              case None => None)
      case _ => None
  }

  /** base64.b64decode(..., validate=True) */
  function Decode(text: string): (b: Option<seq<Byte>>)
    decreases |text|
  {
    if |text| == 0 then Some([])
    else if |text| < 4 then None
    else if |text| == 4 then DecodeLast(text)
    else
      match (DecodeGroup(text[..4]), Decode(text[4..]))
      case (Some(head), Some(rest)) => Some(head + rest)
      case _ => None
  }

  lemma GroupRoundTrip(x: Byte, y: Byte, z: Byte)
    ensures
      DecodeGroup([Digit(x as int / 4), Digit(x as int % 4 * 16 + y as int / 16),
                   Digit(y as int % 16 * 4 + z as int / 64), Digit(z as int % 64)]) == Some([x, y, z])
  {
    var x', y', z' := x as int, y as int, z as int;
    var p, q, r, s := x' / 4, x' % 4 * 16 + y' / 16, y' % 16 * 4 + z' / 64, z' % 64;
    GroupArithmetic(x', y', z');
    assert [(p * 4 + q / 16) as Byte, (q % 16 * 16 + r / 4) as Byte, (r % 4 * 64 + s) as Byte] == [x, y, z];
  }

  lemma GroupArithmetic(x: int, y: int, z: int)
    requires 0 <= x < 256 && 0 <= y < 256 && 0 <= z < 256
    ensures
      var (p, q, r, s) := (x / 4, x % 4 * 16 + y / 16, y % 16 * 4 + z / 64, z % 64);
      p * 4 + q / 16 == x && q % 16 * 16 + r / 4 == y && r % 4 * 64 + s == z
  {
  }

  lemma TailRoundTrip(b: seq<Byte>)
    requires |b| <= 2
    ensures Decode(EncodeTail(b)) == Some(b)
  {
    if |b| == 2 {
      var x', y' := b[0] as int, b[1] as int;
      var p, q, r := x' / 4, x' % 4 * 16 + y' / 16, y' % 16 * 4;
      assert p * 4 + q / 16 == x' && q % 16 * 16 + r / 4 == y';
      assert b == [b[0], b[1]];
    } else if |b| == 1 {
      var x' := b[0] as int;
      var p, q := x' / 4, x' % 4 * 16;
      assert p * 4 + q / 16 == x';
      assert b == [b[0]];
    }
  }

  /** Decoding takes a full first group off any text whose rest decodes. */
  lemma DecodeStep(group: string, rest: string, b: seq<Byte>)
    requires |group| == 4 && group[3] != '=' && DecodeGroup(group).Some? && Decode(rest) == Some(b)
    ensures Decode(group + rest) == Some(DecodeGroup(group).value + b)
  {
    var text := group + rest;
    if |rest| == 0 {
      assert text == group;
      assert DecodeGroup(group).value + b == DecodeGroup(group).value;
    } else {
      assert text[..4] == group && text[4..] == rest;
    }
  }

  /** Every environment survives the record. */
  lemma {:induction false} RoundTrip(b: seq<Byte>)
    ensures Decode(Encode(b)) == Some(b)
    decreases |b|
  {
    if |b| < 3 {
      TailRoundTrip(b);
    } else {
      RoundTrip(b[3..]);
      DecodeStep(EncodeGroup(b[0], b[1], b[2]), Encode(b[3..]), b[3..]);
      assert b == [b[0], b[1], b[2]] + b[3..];
    }
  }
}
