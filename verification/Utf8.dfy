/** UTF-8 byte strings, as defined in sections 3 and 4 of RFC 3629.
    A Rust `str` is a byte sequence that satisfies `Valid`; slicing it anywhere but on a
    `CharBoundary` panics. */
module Utf8 {

  type byte = b: int | 0 <= b < 256

  predicate IsContinuation(b: byte) {
    0x80 <= b < 0xC0
  }

  /** Number of bytes of the character that starts with `lead`; 0 if none does. */
  function Width(lead: byte): nat {
    if lead < 0x80 then 1
    else if 0xC2 <= lead < 0xE0 then 2
    else if 0xE0 <= lead < 0xF0 then 3
    else if 0xF0 <= lead < 0xF5 then 4
    else 0
  }

  /** One encoded character. */
  predicate ValidChar(c: seq<byte>) {
    && c != []
    && |c| == Width(c[0])
    && (forall k :: 1 <= k < |c| ==> IsContinuation(c[k]))
    && (c[0] == 0xE0 ==> 0xA0 <= c[1])
    && (c[0] == 0xED ==> c[1] < 0xA0)
    && (c[0] == 0xF0 ==> 0x90 <= c[1])
    && (c[0] == 0xF4 ==> c[1] < 0x90)
  }

  predicate Valid(s: seq<byte>)
    decreases |s|
  {
    s == [] ||
    (var w := Width(s[0]);
     && 0 < w <= |s|
     && ValidChar(s[..w])
     && Valid(s[w..]))
  }

  predicate CharBoundary(s: seq<byte>, i: nat)
    requires i <= |s|
  {
    i == 0 || i == |s| || !IsContinuation(s[i])
  }

  lemma {:induction false} ValidConcat(a: seq<byte>, b: seq<byte>)
    requires Valid(a) && Valid(b)
    ensures Valid(a + b)
    decreases |a|
  {
    hide ValidChar;
    if a == [] {
      assert a + b == b;
    } else {
      var w := Width(a[0]);
      ValidConcat(a[w..], b);
      hide Width;
      assert (a + b)[..w] == a[..w];
      assert (a + b)[w..] == a[w..] + b;
    }
  }

  lemma CutTwice(s: seq<byte>, w: nat, i: nat)
    requires w <= i <= |s|
    ensures s[w..][..i - w] == s[..i][w..]
    ensures s[w..][i - w..] == s[i..]
    ensures s[..i][..w] == s[..w]
  {
  }

  /** A valid string can be cut at any character boundary. */
  lemma {:induction false} ValidSplit(s: seq<byte>, i: nat)
    requires Valid(s) && i <= |s| && CharBoundary(s, i)
    ensures Valid(s[..i]) && Valid(s[i..])
    decreases |s|
  {
    if i == 0 {
      assert s[i..] == s;
    } else if i == |s| {
      assert s[..i] == s;
    } else {
      var w := Width(s[0]);
      assert forall k :: 1 <= k < w ==> s[k] == s[..w][k];
      assert w <= i;
      assert i - w == 0 || s[w..][i - w] == s[i];
      ValidSplit(s[w..], i - w);
      CutTwice(s, w, i);
    }
  }

  /** Valid strings form a prefix code: what follows a valid prefix is itself valid. */
  lemma {:induction false} ValidStrip(a: seq<byte>, b: seq<byte>)
    requires Valid(a) && Valid(a + b)
    ensures Valid(b)
    decreases |a|
  {
    if a == [] {
      assert a + b == b;
    } else {
      var w := Width(a[0]);
      assert (a + b)[w..] == a[w..] + b;
      ValidStrip(a[w..], b);
    }
  }

  lemma ValidStartsWithLead(s: seq<byte>)
    requires Valid(s) && s != []
    ensures Width(s[0]) > 0 && !IsContinuation(s[0])
  {
  }

  /** Self-synchronisation: wherever a non-empty valid string occurs inside a valid string, as
      bytes, it begins and ends on character boundaries, and so does the text after it. */
  lemma OccurrenceOnBoundaries(text: seq<byte>, needle: seq<byte>, i: nat)
    requires Valid(text) && Valid(needle) && needle != []
    requires i + |needle| <= |text| && text[i..i + |needle|] == needle
    ensures CharBoundary(text, i) && CharBoundary(text, i + |needle|)
    ensures Valid(text[..i]) && Valid(text[i + |needle|..])
  {
    var rest := text[i + |needle|..];
    assert CharBoundary(text, i) by {
      ValidStartsWithLead(needle);
      assert text[i] == text[i..i + |needle|][0];
    }
    ValidSplit(text, i);
    assert Valid(rest) by {
      assert text[i..] == needle + rest;
      ValidStrip(needle, rest);
    }
    if rest != [] {
      ValidStartsWithLead(rest);
    }
  }

  /** A cut right after a newline byte is a character boundary. */
  lemma NewlineEndsChar(s: seq<byte>, i: nat)
    requires Valid(s) && i < |s| && s[i] == 0x0A
    ensures CharBoundary(s, i + 1) && Valid(s[..i + 1]) && Valid(s[i + 1..])
  {
    OccurrenceOnBoundaries(s, [0x0A], i);
    ValidSplit(s, i + 1);
  }
}
