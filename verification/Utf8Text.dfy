/** Valid byte strings are exactly the encodings of texts. */
module Utf8Text {
  import opened Utf8
  import Unicode

  /** The bytes of a character: section 3 of RFC 3629. */
  function Encoded(c: char): (r: seq<byte>)
    ensures |r| == Unicode.Width(c)
  {
    var n := c as int;
    if n < 0x80 then [n]
    else if n < 0x800 then [0xC0 + n / 0x40, 0x80 + n % 0x40]
    else if n < 0x10000 then [0xE0 + n / 0x1000, 0x80 + n / 0x40 % 0x40, 0x80 + n % 0x40]
    else [0xF0 + n / 0x40000, 0x80 + n / 0x1000 % 0x40, 0x80 + n / 0x40 % 0x40, 0x80 + n % 0x40]
  }

  function Encode(s: string): seq<byte> {
    if s == "" then [] else Encoded(s[0]) + Encode(s[1..])
  }

  lemma EncodedIsValid(c: char)
    ensures ValidChar(Encoded(c)) && |Encoded(c)| == Width(Encoded(c)[0])
  {
    var n := c as int;
    if n >= 0x10000 {
      assert n / 0x40000 * 0x40000 <= n < (n / 0x40000 + 1) * 0x40000;
      assert n < 0x110000;
      assert n / 0x40000 == 0 ==> n / 0x1000 % 0x40 >= 0x10;
      assert n / 0x40000 == 4 ==> n / 0x1000 % 0x40 < 0x10;
    } else if n >= 0x800 {
      assert n / 0x1000 == 0 ==> n / 0x40 % 0x40 >= 0x20;
      assert n / 0x1000 == 0xD ==> n / 0x40 % 0x40 < 0x20;
    }
  }

  function Digit(b: byte): int {
    b as int - 0x80
  }

  /** The number that well-formed bytes stand for. */
  function Number(b: seq<byte>): int
    requires ValidChar(b)
  {
    if |b| == 1 then b[0] as int
    else if |b| == 2 then (b[0] as int - 0xC0) * 0x40 + Digit(b[1])
    else if |b| == 3 then (b[0] as int - 0xE0) * 0x1000 + Digit(b[1]) * 0x40 + Digit(b[2])
    else (b[0] as int - 0xF0) * 0x40000 + Digit(b[1]) * 0x1000 + Digit(b[2]) * 0x40 + Digit(b[3])
  }

  lemma NumberIsScalar(b: seq<byte>)
    requires ValidChar(b)
    ensures 0 <= Number(b) < 0xD800 || 0xE000 <= Number(b) < 0x110000
    ensures |b| == if Number(b) < 0x80 then 1 else if Number(b) < 0x800 then 2 else if Number(b) < 0x10000 then 3 else 4
  {
    assert forall k :: 1 <= k < |b| ==> 0 <= Digit(b[k]) < 0x40;
  }

  function Decoded(b: seq<byte>): char
    requires ValidChar(b)
  {
    NumberIsScalar(b);
    Number(b) as char
  }

  lemma LastDigit(a: int, d: int)
    requires 0 <= d < 0x40
    ensures (a * 0x40 + d) / 0x40 == a && (a * 0x40 + d) % 0x40 == d
  {
  }

  lemma TwiceDivided(n: int)
    requires n >= 0
    ensures n / 0x40 / 0x40 == n / 0x1000 && n / 0x1000 / 0x40 == n / 0x40000
  {
  }

  lemma DecodedIsEncoded(b: seq<byte>)
    requires ValidChar(b)
    ensures Encoded(Decoded(b)) == b
  {
    NumberIsScalar(b);
    var n := Number(b);
    if |b| == 2 {
      LastDigit(b[0] as int - 0xC0, Digit(b[1]));
    } else if |b| == 3 {
      var x := (b[0] as int - 0xE0) * 0x40 + Digit(b[1]);
      LastDigit(b[0] as int - 0xE0, Digit(b[1]));
      LastDigit(x, Digit(b[2]));
      TwiceDivided(n);
      assert n == x * 0x40 + Digit(b[2]);
    } else if |b| == 4 {
      var x := (b[0] as int - 0xF0) * 0x40 + Digit(b[1]);
      var y := x * 0x40 + Digit(b[2]);
      LastDigit(b[0] as int - 0xF0, Digit(b[1]));
      LastDigit(x, Digit(b[2]));
      LastDigit(y, Digit(b[3]));
      TwiceDivided(n);
      assert n == y * 0x40 + Digit(b[3]);
    }
  }

  lemma {:induction false} EncodeIsValid(s: string)
    ensures Valid(Encode(s))
  {
    if s != "" {
      var c, rest := Encoded(s[0]), Encode(s[1..]);
      EncodeIsValid(s[1..]);
      EncodedIsValid(s[0]);
      hide Encoded;
      hide ValidChar;
      hide Width;
      assert (c + rest)[..|c|] == c && (c + rest)[|c|..] == rest;
      assert (c + rest)[0] == c[0];
    }
  }

  lemma ValidFirst(b: seq<byte>)
    requires Valid(b) && b != []
    ensures var w := Width(b[0]); 0 < w <= |b| && ValidChar(b[..w]) && Valid(b[w..])
  {
    hide ValidChar;
    hide Width;
  }

  lemma {:induction false} ValidIsEncoded(b: seq<byte>) returns (s: string)
    requires Valid(b)
    ensures b == Encode(s)
    decreases |b|
  {
    if b == [] {
      s := "";
    } else {
      hide *;
      ValidFirst(b);
      var w := Width(b[0]);
      var rest := ValidIsEncoded(b[w..]);
      DecodedIsEncoded(b[..w]);
      s := [Decoded(b[..w])] + rest;
      EncodeFirst(Decoded(b[..w]), rest);
      assert b == b[..w] + b[w..];
    }
  }

  lemma EncodeFirst(c: char, rest: string)
    ensures Encode([c] + rest) == Encoded(c) + Encode(rest)
  {
    hide Encoded;
    assert ([c] + rest)[1..] == rest;
  }

  /** The bytes accepted as text are those of some text. */
  lemma ValidExactly(b: seq<byte>)
    ensures Valid(b) <==> exists s :: b == Encode(s)
  {
    if Valid(b) {
      var s := ValidIsEncoded(b);
    }
    if s :| b == Encode(s) {
      EncodeIsValid(s);
    }
    hide Valid;
    hide Encode;
  }

  /** Sizes of texts are those of their encodings. */
  lemma {:induction false} ByteLenIsEncoded(s: string)
    ensures Unicode.ByteLen(s) == |Encode(s)|
  {
    if s != "" {
      ByteLenIsEncoded(s[1..]);
    }
  }
}
