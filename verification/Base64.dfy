/** Unpadded standard base64 (RFC 4648, sections 3.2 and 4), as Go's RawStdEncoding reads and writes it. */
module Base64 {
  import opened Types

  type Byte = b: nat | b < 256

  type Bytes = seq<Byte>

  type Sextet = v: nat | v < 64

  // ---- characters ----

  function Digit(v: Sextet): char {
    if v < 26 then 'A' + v as char
    else if v < 52 then 'a' + (v - 26) as char
    else if v < 62 then '0' + (v - 52) as char
    else if v == 62 then '+'
    else '/'
  }

  predicate IsDigit(c: char) {
    'A' <= c <= 'Z' || 'a' <= c <= 'z' || '0' <= c <= '9' || c == '+' || c == '/'
  }

  function Value(c: char): Sextet
    requires IsDigit(c)
  {
    if 'A' <= c <= 'Z' then (c - 'A') as nat
    else if 'a' <= c <= 'z' then (c - 'a') as nat + 26
    else if '0' <= c <= '9' then (c - '0') as nat + 52
    else if c == '+' then 62
    else 63
  }

  lemma DigitHasItsValue(v: Sextet)
    ensures IsDigit(Digit(v)) && Value(Digit(v)) == v
  {
  }

  predicate AllDigits(s: string) {
    forall i | 0 <= i < |s| :: IsDigit(s[i])
  }

  function Digits(values: seq<Sextet>): (s: string)
    ensures |s| == |values| && forall i | 0 <= i < |s| :: s[i] == Digit(values[i])
  {
    seq(|values|, i requires 0 <= i < |values| => Digit(values[i]))
  }

  function Values(s: string): (values: seq<Sextet>)
    requires AllDigits(s)
    ensures |values| == |s| && forall i | 0 <= i < |s| :: values[i] == Value(s[i])
  {
    seq(|s|, i requires 0 <= i < |s| => Value(s[i]))
  }

  // ---- bits ----

  function Weigh(a: nat, b: nat, c: nat): nat {
    a * 0x1_0000 + b * 0x100 + c
  }

  function Pack(a: Byte, b: Byte, c: Byte): (bits: nat)
    ensures bits < 0x100_0000
  {
    Weigh(a, b, c)
  }

  function Sextets(bits: nat): (v: seq<Sextet>)
    requires bits < 0x100_0000
    ensures |v| == 4
  {
    [bits / 0x4_0000, bits / 0x1000 % 64, bits / 64 % 64, bits % 64]
  }

  function Unpack(bits: nat): (b: Bytes)
    requires bits < 0x100_0000
    ensures |b| == 3
  {
    [bits / 0x1_0000, bits / 0x100 % 0x100, bits % 0x100]
  }

  function Join(a: Sextet, b: Sextet, c: Sextet, d: Sextet): (bits: nat)
    ensures bits < 0x100_0000
  {
    a as int * 0x4_0000 + b as int * 0x1000 + c as int * 64 + d as int
  }

  // ---- encoding and decoding ----

  function EncodeBytes(data: Bytes): seq<Sextet> {
    if data == [] then []
    else if |data| == 1 then Sextets(Pack(data[0], 0, 0))[..2]
    else if |data| == 2 then Sextets(Pack(data[0], data[1], 0))[..3]
    else Sextets(Pack(data[0], data[1], data[2])) + EncodeBytes(data[3..])
  }

  /** A lone last character is an error; bits left over in a short last group are ignored. */
  function DecodeSextets(v: seq<Sextet>): Option<Bytes> {
    if v == [] then Some([])
    else if |v| == 1 then None
    else if |v| == 2 then Some(Unpack(Join(v[0], v[1], 0, 0))[..1])
    else if |v| == 3 then Some(Unpack(Join(v[0], v[1], v[2], 0))[..2])
    else
      match DecodeSextets(v[4..])
      case None => None
      case Some(rest) => Some(Unpack(Join(v[0], v[1], v[2], v[3])) + rest)
  }

  function Encode(data: Bytes): string {
    Digits(EncodeBytes(data))
  }

  function DropNewlines(s: string): string {
    if s == [] then []
    else if s[0] == '\r' || s[0] == '\n' then DropNewlines(s[1..])
    else [s[0]] + DropNewlines(s[1..])
  }

  /** Line breaks are skipped; any other foreign character is an error. */
  function Decode(s: string): Option<Bytes> {
    var digits := DropNewlines(s);
    if AllDigits(digits) then DecodeSextets(Values(digits)) else None
  }

  // ---- round trip ----

  lemma SextetsJoin(bits: nat)
    requires bits < 0x100_0000
    ensures var v := Sextets(bits); Join(v[0], v[1], v[2], v[3]) == bits
  {
    assert bits / 0x1000 == bits / 64 / 64;
    assert bits / 0x4_0000 == bits / 0x1000 / 64;
  }

  lemma WeighedDigits(a: nat, b: nat, c: nat)
    requires a < 256 && b < 256 && c < 256
    ensures Weigh(a, b, c) / 0x1_0000 == a && Weigh(a, b, c) / 0x100 % 0x100 == b && Weigh(a, b, c) % 0x100 == c
  {
    assert Weigh(a, b, c) / 0x100 == a * 0x100 + b;
  }

  lemma PackUnpacks(a: Byte, b: Byte, c: Byte)
    ensures Unpack(Pack(a, b, c)) == [a, b, c]
  {
    WeighedDigits(a, b, c);
  }

  /** The sextets a short group leaves unwritten are zero. */
  lemma ShortWeights(a: nat, b: nat)
    ensures Weigh(a, b, 0) % 64 == 0 && Weigh(a, 0, 0) / 64 % 64 == 0
  {
    assert Weigh(a, b, 0) == 64 * (a * 1024 + b * 4);
    MultipleOf64(a * 1024 + b * 4);
    assert Weigh(a, 0, 0) == 64 * (64 * (a * 16));
    MultipleOf64(64 * (a * 16));
    MultipleOf64(a * 16);
  }

  lemma MultipleOf64(q: nat)
    ensures 64 * q % 64 == 0 && 64 * q / 64 == q
  {
  }

  lemma OneByte(a: Byte)
    ensures DecodeSextets(EncodeBytes([a])) == Some([a])
  {
    var bits := Pack(a, 0, 0);
    var w := Sextets(bits);
    assert w[2] == 0 && w[3] == 0 by { ShortWeights(a, 0); }
    assert Join(w[0], w[1], 0, 0) == bits by { SextetsJoin(bits); }
    assert Unpack(bits)[..1] == [a] by { PackUnpacks(a, 0, 0); }
    assert EncodeBytes([a]) == [w[0], w[1]];
  }

  lemma TwoBytes(a: Byte, b: Byte)
    ensures DecodeSextets(EncodeBytes([a, b])) == Some([a, b])
  {
    var bits := Pack(a, b, 0);
    var w := Sextets(bits);
    assert w[3] == 0 by { ShortWeights(a, b); }
    assert Join(w[0], w[1], w[2], 0) == bits by { SextetsJoin(bits); }
    assert Unpack(bits)[..2] == [a, b] by { PackUnpacks(a, b, 0); }
    assert EncodeBytes([a, b]) == [w[0], w[1], w[2]];
  }

  lemma {:induction false} SextetsRoundTrip(data: Bytes)
    ensures DecodeSextets(EncodeBytes(data)) == Some(data)
  {
    if |data| == 1 {
      OneByte(data[0]);
      assert data == [data[0]];
    } else if |data| == 2 {
      TwoBytes(data[0], data[1]);
      assert data == [data[0], data[1]];
    } else if |data| >= 3 {
      SextetsRoundTrip(data[3..]);
      FullGroup(data[0], data[1], data[2], data[3..]);
      assert data == [data[0], data[1], data[2]] + data[3..];
    }
  }

  lemma FullGroup(a: Byte, b: Byte, c: Byte, rest: Bytes)
    requires DecodeSextets(EncodeBytes(rest)) == Some(rest)
    ensures DecodeSextets(EncodeBytes([a, b, c] + rest)) == Some([a, b, c] + rest)
  {
    var data, group := [a, b, c] + rest, Sextets(Pack(a, b, c));
    assert data[3..] == rest;
    SextetsJoin(Pack(a, b, c));
    PackUnpacks(a, b, c);
    assert EncodeBytes(data)[4..] == EncodeBytes(rest);
    assert EncodeBytes(data)[..4] == group;
  }

  lemma EncodeIsDigits(data: Bytes)
    ensures AllDigits(Encode(data)) && Values(Encode(data)) == EncodeBytes(data)
  {
    forall i | 0 <= i < |Encode(data)|
      ensures IsDigit(Encode(data)[i]) && Value(Encode(data)[i]) == EncodeBytes(data)[i]
    {
      DigitHasItsValue(EncodeBytes(data)[i]);
    }
  }

  lemma {:induction false} DigitsHaveNoNewlines(s: string)
    requires AllDigits(s)
    ensures DropNewlines(s) == s
  {
    if s != [] {
      assert IsDigit(s[0]);
      DigitsHaveNoNewlines(s[1..]);
    }
  }

  /** What is encoded decodes to itself. */
  lemma RoundTrip(data: Bytes)
    ensures Decode(Encode(data)) == Some(data)
  {
    EncodeIsDigits(data);
    DigitsHaveNoNewlines(Encode(data));
    SextetsRoundTrip(data);
  }

  /** Decoding fails exactly on foreign characters and on a last group of a single character. */
  lemma DecodeFails(s: string)
    ensures Decode(s).None? <==> !AllDigits(DropNewlines(s)) || LastGroup(|DropNewlines(s)|) == 1
  {
    if AllDigits(DropNewlines(s)) {
      LoneSextetFails(Values(DropNewlines(s)));
    }
  }

  lemma {:induction false} LoneSextetFails(v: seq<Sextet>)
    ensures DecodeSextets(v).None? <==> LastGroup(|v|) == 1
  {
    if |v| >= 4 {
      LoneSextetFails(v[4..]);
    } else if |v| == 2 {
      assert DecodeSextets(v).Some?;
    }
  }

  /** How many characters the last, short group has. */
  function LastGroup(n: nat): (r: nat)
    ensures r < 4 && exists q: nat :: n == 4 * q + r
  {
    if n < 4 then assert n == 4 * 0 + n; n
    else
      var r := LastGroup(n - 4);
      assert exists q: nat :: n == 4 * q + r by {
        var q: nat :| n - 4 == 4 * q + r;
        assert n == 4 * (q + 1) + r;
      }
      r
  }
}
