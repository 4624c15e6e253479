/** UTF-8 as Python's `str.encode('utf-8')` and `bytes.decode('utf-8')`
    (strict errors) apply it, after sections 3 and 4 of RFC 3629: one to
    four bytes per character, no overlong forms, no surrogates, nothing
    above U+10FFFF. Commands go out through the encoder; every chunk the
    control socket receives goes through the decoder. */
module Utf8 {
  import opened Common

  /** A byte of the form `10xxxxxx`. */
  predicate IsContinuation(b: byte) {
    0x80 <= b < 0xC0
  }

  /** The length of the sequence a lead byte starts, or 0 for a byte no
      well-formed sequence starts with (a continuation byte, 0xC0, 0xC1,
      0xF5 and above). */
  function SequenceLength(lead: byte): (n: nat)
    ensures n <= 4
  {
    if lead < 0x80 then 1
    else if 0xC2 <= lead < 0xE0 then 2
    else if 0xE0 <= lead < 0xF0 then 3
    else if 0xF0 <= lead < 0xF5 then 4
    else 0
  }

  /** The smallest code point that needs `n` bytes. */
  function MinCodePoint(n: nat): int {
    if n <= 1 then 0 else if n == 2 then 0x80 else if n == 3 then 0x800 else 0x1_0000
  }

  predicate IsScalar(v: int) {
    0 <= v < 0xD800 || 0xE000 <= v < 0x11_0000
  }

  /** The bytes of one character. */
  function EncodeChar(c: char): (bs: seq<byte>)
    ensures 1 <= |bs| <= 4 && SequenceLength(bs[0]) == |bs|
    ensures |bs| > 1 ==> forall i :: 1 <= i < |bs| ==> IsContinuation(bs[i])
  {
    var v := c as int;
    if v < 0x80 then [v as byte]
    else if v < 0x800 then [(0xC0 + v / 64) as byte, (0x80 + v % 64) as byte]
    else if v < 0x1_0000 then
      [(0xE0 + v / 4096) as byte, (0x80 + v / 64 % 64) as byte, (0x80 + v % 64) as byte]
    else
      [(0xF0 + v / 0x4_0000) as byte, (0x80 + v / 4096 % 64) as byte,
       (0x80 + v / 64 % 64) as byte, (0x80 + v % 64) as byte]
  }

  /** `s.encode('utf-8')`. */
  function Encode(s: string): seq<byte>
    decreases |s|
  {
    if s == [] then [] else EncodeChar(s[0]) + Encode(s[1..])
  }

  /** The code point the bits of a complete sequence spell. */
  function Bits(bs: seq<byte>): int
    requires 1 <= |bs| <= 4
  {
    var n := |bs|;
    var lead := if n == 1 then bs[0] as int
      else if n == 2 then bs[0] as int - 0xC0
      else if n == 3 then bs[0] as int - 0xE0
      else bs[0] as int - 0xF0;
    if n == 1 then lead
    else if n == 2 then lead * 64 + (bs[1] as int - 0x80)
    else if n == 3 then (lead * 64 + (bs[1] as int - 0x80)) * 64 + (bs[2] as int - 0x80)
    else ((lead * 64 + (bs[1] as int - 0x80)) * 64 + (bs[2] as int - 0x80)) * 64 + (bs[3] as int - 0x80)
  }

  /** One character from exactly the bytes its lead byte announces, or
      `None` for a malformed sequence. */
  function DecodeChar(bs: seq<byte>): (r: Option<char>)
    requires 1 <= |bs| == SequenceLength(bs[0])
  {
    if |bs| > 1 && exists i :: 1 <= i < |bs| && !IsContinuation(bs[i]) then None
    else
      var v := Bits(bs);
      if v < MinCodePoint(|bs|) || !IsScalar(v) then None else Some(v as char)
  }

  /** A decoding that stopped: the text of the complete characters read,
      and the bytes of an unfinished last character, if any. */
  datatype Partial = Partial(text: string, tail: seq<byte>)

  /** Decoding as far as the bytes go: complete characters become text,
      a last sequence cut short is kept as the tail, and a malformed
      sequence is an error (`None`). */
  function DecodePrefix(bs: seq<byte>): (r: Option<Partial>)
    ensures r.Some? ==> |r.value.tail| < 4
    decreases |bs|
  {
    if bs == [] then Some(Partial([], []))
    else
      var n := SequenceLength(bs[0]);
      if n == 0 then None
      else if |bs| < n then Some(Partial([], bs))
      else match DecodeChar(bs[..n])
        case None => None
        case Some(c) =>
          match DecodePrefix(bs[n..])
          case None => None
          case Some(p) => Some(Partial([c] + p.text, p.tail))
  }

  /** `bs.decode('utf-8')`: `None` where Python raises
      UnicodeDecodeError, including when the bytes end inside a
      character. */
  function Decode(bs: seq<byte>): Option<string> {
    match DecodePrefix(bs)
    case Some(p) => if p.tail == [] then Some(p.text) else None
    case None => None
  }

  /** Bytes that decode in full to nothing are no bytes at all: a
      non-empty chunk that decodes always holds a character. */
  lemma DecodedNonEmpty(bs: seq<byte>)
    requires bs != [] && Decode(bs).Some?
    ensures Decode(bs).value != []
  {
    var n := SequenceLength(bs[0]);
    assert n != 0 && |bs| >= n;
  }

  lemma DivMod64(v: int)
    requires v >= 0
    ensures v == v / 64 * 64 + v % 64
    ensures v / 4096 == v / 64 / 64 && v / 0x4_0000 == v / 4096 / 64
  {
  }

  /** A character's bytes decode back to the character. */
  lemma DecodeEncodeChar(c: char)
    ensures DecodeChar(EncodeChar(c)) == Some(c)
  {
    var v := c as int;
    var bs := EncodeChar(c);
    DivMod64(v);
    DivMod64(v / 64);
    DivMod64(v / 4096);
    assert Bits(bs) == v;
  }

  /** Decoding undoes encoding: `s.encode('utf-8').decode('utf-8') == s`. */
  lemma {:induction false} DecodeEncode(s: string)
    ensures DecodePrefix(Encode(s)) == Some(Partial(s, []))
    ensures Decode(Encode(s)) == Some(s)
    decreases |s|
  {
    if s != [] {
      var e, rest := EncodeChar(s[0]), Encode(s[1..]);
      var bs := e + rest;
      assert bs[..|e|] == e && bs[|e|..] == rest && bs[0] == e[0];
      DecodeEncodeChar(s[0]);
      DecodeEncode(s[1..]);
      assert [s[0]] + s[1..] == s;
    }
  }

  /** Encoding distributes over concatenation. */
  lemma {:induction false} EncodeAppend(s: string, t: string)
    ensures Encode(s + t) == Encode(s) + Encode(t)
    decreases |s|
  {
    if s != [] {
      assert (s + t)[0] == s[0] && (s + t)[1..] == s[1..] + t;
      EncodeAppend(s[1..], t);
      assert Encode(s + t) == EncodeChar(s[0]) + Encode(s[1..] + t);
      assert EncodeChar(s[0]) + (Encode(s[1..]) + Encode(t)) == Encode(s) + Encode(t);
    } else {
      assert s + t == t;
    }
  }

  /** Decoding `b` after a decoding that stopped at `p`: the tail is
      decoded again with `b` behind it, and the texts are joined. */
  function Continue(r: Option<Partial>, b: seq<byte>): Option<Partial> {
    match r
    case None => None
    case Some(p) =>
      match DecodePrefix(p.tail + b)
      case None => None
      case Some(q) => Some(Partial(p.text + q.text, q.tail))
  }

  /** Decoding a stream in two pieces, carrying the unfinished tail of the
      first into the second, reads what decoding it whole reads: an error
      in the first piece is an error of the whole, and otherwise the texts
      join and the last tail is the whole's. */
  lemma {:induction false} DecodePrefixAppend(a: seq<byte>, b: seq<byte>)
    ensures DecodePrefix(a + b) == Continue(DecodePrefix(a), b)
    decreases |a|
  {
    if a == [] {
      assert a + b == b;
      if DecodePrefix(b).Some? {
        assert [] + DecodePrefix(b).value.text == DecodePrefix(b).value.text;
      }
    } else {
      var n := SequenceLength(a[0]);
      assert (a + b)[0] == a[0];
      if n != 0 && |a| < n {
        if DecodePrefix(a + b).Some? {
          assert [] + DecodePrefix(a + b).value.text == DecodePrefix(a + b).value.text;
        }
      } else if n != 0 {
        DecodePrefixAppend(a[n..], b);
        DecodeCharThenAppend(a, b, n);
      }
    }
  }

  /** The step of `DecodePrefixAppend` past one complete character. */
  lemma DecodeCharThenAppend(a: seq<byte>, b: seq<byte>, n: nat)
    requires a != [] && n == SequenceLength(a[0]) && 0 < n <= |a|
    requires DecodePrefix(a[n..] + b) == Continue(DecodePrefix(a[n..]), b)
    ensures DecodePrefix(a + b) == Continue(DecodePrefix(a), b)
  {
    assert (a + b)[0] == a[0];
    AppendSlices(a, b, n);
    if DecodeChar(a[..n]).Some? && DecodePrefix(a[n..]).Some? {
      var c, p := DecodeChar(a[..n]).value, DecodePrefix(a[n..]).value;
      if DecodePrefix(p.tail + b).Some? {
        AppendAssoc([c], p.text, DecodePrefix(p.tail + b).value.text);
      }
    }
  }
}
