/** Standard base64 with padding, section 4 of RFC 4648. Bytes become symbols, 64 alphabet
    positions and the padding sign, and symbols become characters. */
module Base64 {
  import opened Common

  type Byte = b: int | 0 <= b < 256

  const PAD: int := 64
  const INVALID: int := 65

  type Symbol = d: int | 0 <= d <= PAD

  function Digit(d: Symbol): char {
    if d < 26 then 'A' + d as char
    else if d < 52 then 'a' + (d - 26) as char
    else if d < 62 then '0' + (d - 52) as char
    else if d == 62 then '+'
    else if d == 63 then '/'
    else '='
  }

  function Value(c: char): int {
    if 'A' <= c <= 'Z' then (c - 'A') as int
    else if 'a' <= c <= 'z' then (c - 'a') as int + 26
    else if '0' <= c <= '9' then (c - '0') as int + 52
    else if c == '+' then 62
    else if c == '/' then 63
    else if c == '=' then PAD
    else INVALID
  }

  /*** Symbols ***/

  function Symbols(bytes: seq<Byte>): seq<Symbol> {
    if bytes == [] then []
    else if |bytes| == 1 then
      [bytes[0] / 4, bytes[0] % 4 * 16, PAD, PAD]
    else if |bytes| == 2 then
      [bytes[0] / 4, bytes[0] % 4 * 16 + bytes[1] / 16, bytes[1] % 16 * 4, PAD]
    else
      [bytes[0] / 4, bytes[0] % 4 * 16 + bytes[1] / 16, bytes[1] % 16 * 4 + bytes[2] / 64, bytes[2] % 64]
      + Symbols(bytes[3..])
  }

  predicate Digits(v: seq<int>) {
    forall i :: 0 <= i < |v| ==> 0 <= v[i] < PAD
  }

  /** A strict reading of symbols: padding only in the last group, unused bits zero. */
  function Bytes(v: seq<int>): Option<seq<Byte>> {
    if v == [] then Some([])
    else if |v| < 4 then None
    else if Digits(v[..4]) then
      match Bytes(v[4..])
      case None => None
      case Some(rest) => Some([v[0] * 4 + v[1] / 16, v[1] % 16 * 16 + v[2] / 4, v[2] % 4 * 64 + v[3]] + rest)
    else if Digits(v[..3]) && v[3..] == [PAD] && v[2] % 4 == 0 then
      Some([v[0] * 4 + v[1] / 16, v[1] % 16 * 16 + v[2] / 4])
    else if Digits(v[..2]) && v[2..] == [PAD, PAD] && v[1] % 16 == 0 then
      Some([v[0] * 4 + v[1] / 16])
    else None
  }

  lemma SextetArithmetic(x: Byte, y: Byte, z: Byte)
    ensures x / 4 * 4 + (x % 4 * 16 + y / 16) / 16 == x
    ensures (x % 4 * 16 + y / 16) % 16 * 16 + (y % 16 * 4 + z / 64) / 4 == y
    ensures (y % 16 * 4 + z / 64) % 4 * 64 + z % 64 == z
  {
  }

  lemma OneByte(x: Byte)
    ensures Bytes([x / 4, x % 4 * 16, PAD, PAD]) == Some([x])
  {
    var v := [x / 4, x % 4 * 16, PAD, PAD];
    assert v[..4][3] == PAD && v[..3][2] == PAD;
    assert v[2..] == [PAD, PAD];
  }

  lemma TwoBytes(x: Byte, y: Byte)
    ensures Bytes([x / 4, x % 4 * 16 + y / 16, y % 16 * 4, PAD]) == Some([x, y])
  {
    var v := [x / 4, x % 4 * 16 + y / 16, y % 16 * 4, PAD];
    assert v[..4][3] == PAD;
    assert v[3..] == [PAD];
    SextetArithmetic(x, y, 0);
  }

  lemma ThreeBytes(x: Byte, y: Byte, z: Byte, v: seq<int>, rest: seq<Byte>)
    requires Bytes(v) == Some(rest)
    ensures Bytes([x / 4, x % 4 * 16 + y / 16, y % 16 * 4 + z / 64, z % 64] + v) == Some([x, y, z] + rest)
  {
    var group := [x / 4, x % 4 * 16 + y / 16, y % 16 * 4 + z / 64, z % 64];
    assert (group + v)[..4] == group && (group + v)[4..] == v;
    SextetArithmetic(x, y, z);
  }

  lemma {:induction false} BytesOfSymbols(bytes: seq<Byte>)
    ensures Bytes(Symbols(bytes)) == Some(bytes)
  {
    if |bytes| == 1 {
      OneByte(bytes[0]);
      assert bytes == [bytes[0]];
    } else if |bytes| == 2 {
      TwoBytes(bytes[0], bytes[1]);
      assert bytes == [bytes[0], bytes[1]];
    } else if |bytes| > 2 {
      BytesOfSymbols(bytes[3..]);
      ThreeBytes(bytes[0], bytes[1], bytes[2], Symbols(bytes[3..]), bytes[3..]);
      assert bytes == [bytes[0], bytes[1], bytes[2]] + bytes[3..];
    }
  }

  /** The four values of one whole group. */
  function Group(x: Byte, y: Byte, z: Byte): seq<int> {
    [x / 4, x % 4 * 16 + y / 16, y % 16 * 4 + z / 64, z % 64]
  }

  lemma SymbolsUnfold(bytes: seq<Byte>)
    requires |bytes| > 2
    ensures Symbols(bytes) == Group(bytes[0], bytes[1], bytes[2]) + Symbols(bytes[3..])
  {
  }

  lemma SymbolsExtend(a: seq<Byte>, b: seq<Byte>)
    requires |a| > 2
    ensures Symbols(a + b) == Group(a[0], a[1], a[2]) + Symbols(a[3..] + b)
  {
    assert (a + b)[3..] == a[3..] + b;
    SymbolsUnfold(a + b);
  }

  lemma Associative<T>(a: seq<T>, b: seq<T>, c: seq<T>)
    ensures a + (b + c) == a + b + c
  {
  }

  lemma {:induction false} SymbolsConcat(a: seq<Byte>, b: seq<Byte>)
    requires |a| % 3 == 0
    ensures Symbols(a + b) == Symbols(a) + Symbols(b)
  {
    if a == [] {
      assert a + b == b;
    } else {
      SymbolsConcat(a[3..], b);
      SymbolsExtend(a, b);
      SymbolsUnfold(a);
      Associative(Group(a[0], a[1], a[2]), Symbols(a[3..]), Symbols(b));
    }
  }

  /*** Text ***/

  function Encode(bytes: seq<Byte>): seq<char> {
    var v := Symbols(bytes);
    seq(|v|, i requires 0 <= i < |v| => Digit(v[i]))
  }

  function Decode(text: seq<char>): Option<seq<Byte>> {
    Bytes(seq(|text|, i requires 0 <= i < |text| => Value(text[i])))
  }

  lemma DecodeEncode(bytes: seq<Byte>)
    ensures Decode(Encode(bytes)) == Some(bytes)
  {
    var text := Encode(bytes);
    assert seq(|text|, i requires 0 <= i < |text| => Value(text[i])) == Symbols(bytes);
    BytesOfSymbols(bytes);
  }

  lemma EncodeConcat(a: seq<Byte>, b: seq<Byte>)
    requires |a| % 3 == 0
    ensures Encode(a + b) == Encode(a) + Encode(b)
  {
    SymbolsConcat(a, b);
  }

  /** Encoded text never contains the characters that delimit it in a line. */
  lemma EncodePlain(bytes: seq<Byte>)
    ensures '"' !in Encode(bytes) && '\n' !in Encode(bytes)
  {
  }

  /*** The alphabet and the groups in numbers ***/

  /** Table 1 of RFC 4648: three runs of characters, two signs, and the padding. */
  lemma AlphabetShape(d: int)
    ensures Digit(0) == 'A' && Digit(25) == 'Z' && Digit(26) == 'a' && Digit(51) == 'z'
    ensures Digit(52) == '0' && Digit(61) == '9' && Digit(62) == '+' && Digit(63) == '/' && Digit(64) == '='
    ensures 0 <= d < 61 && d != 25 && d != 51 ==> Digit(d + 1) as int == Digit(d) as int + 1
  {
  }

  /** Three bytes are 24 bits, cut into four digits of six bits each, the first bits first. */
  lemma GroupIs(x: Byte, y: Byte, z: Byte)
    ensures var g := Group(x, y, z);
            && |g| == 4 && (forall i :: 0 <= i < 4 ==> 0 <= g[i] < 64)
            && g[0] * 262_144 + g[1] * 4_096 + g[2] * 64 + g[3] == x * 65_536 + y * 256 + z
  {
    assert x == x / 4 * 4 + x % 4 && y == y / 16 * 16 + y % 16 && z == z / 64 * 64 + z % 64;
  }

  /** One or two bytes at the end are filled up with zero bits, and the missing digits with padding. */
  lemma OneByteEnd(x: Byte)
    ensures Symbols([x]) == Group(x, 0, 0)[..2] + [64, 64]
  {
  }

  lemma TwoByteEnd(x: Byte, y: Byte)
    ensures Symbols([x, y]) == Group(x, y, 0)[..3] + [64]
  {
  }

  /** A test vector of section 10 of RFC 4648: "foob" encodes to "Zm9vYg==". */
  lemma TestVector()
    ensures Encode([102, 111, 111, 98]) == "Zm9vYg=="
  {
    var bytes: seq<Byte> := [102, 111, 111, 98];
    assert bytes[3..] == [98];
    assert Symbols([98]) == [24, 32, 64, 64];
    assert Symbols(bytes) == [25, 38, 61, 47] + Symbols([98]);
  }
}
