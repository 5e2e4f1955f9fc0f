/** `decodeURIComponent`, which `getCookie` applies to a cookie's value:
    every `%XY` escape is read as a byte, bytes from 0x80 up must form one
    well-formed UTF-8 sequence of escapes, and anything else is a URIError
    (None here). */
module UriDecoding {
  import opened Wrappers
  import opened JsStrings

  /** The byte written as `%XY` at the front of `s`, if `s` starts with one. */
  function EscapedByte(s: string): (b: Option<nat>)
    ensures b.Some? ==> |s| >= 3 && s[0] == '%' && b.value < 256
  {
    if |s| >= 3 && s[0] == '%' && IsHexDigit(s[1]) && IsHexDigit(s[2])
    then Some(DigitValue(s[1]) * 16 + DigitValue(s[2]))
    else None
  }

  /** Reads `count` continuation escapes (each a byte 10xxxxxx) from the
      front of `s`, shifting their low six bits into `acc`. */
  function Continuations(s: string, count: nat, acc: nat): (r: Option<nat>)
    ensures r.Some? ==> |s| >= 3 * count
    decreases count
  {
    if count == 0 then Some(acc)
    else
      match EscapedByte(s)
      case None => None
      case Some(b) =>
        if 0x80 <= b < 0xC0 then Continuations(s[3..], count - 1, acc * 64 + (b - 0x80))
        else None
  }

  /** Number of bytes of the UTF-8 sequence a lead byte announces (its count
      of leading one bits): 0 for ASCII, 1 for a stray continuation byte and
      5 for 0xF8 and above, the last two being errors. */
  function SequenceLength(b: nat): nat {
    if b < 0x80 then 0
    else if b < 0xC0 then 1
    else if b < 0xE0 then 2
    else if b < 0xF0 then 3
    else if b < 0xF8 then 4
    else 5
  }

  /** Decodes the escape (or UTF-8 run of escapes) at the front of `s`,
      giving the code point and the number of characters it spans. Overlong
      forms, surrogates and values past U+10FFFF are rejected, as UTF-8
      requires. */
  function DecodeEscape(s: string): (r: Option<(char, nat)>)
    ensures r.Some? ==> 3 <= r.value.1 <= |s|
  {
    match EscapedByte(s)
    case None => None
    case Some(b) =>
      var n := SequenceLength(b);
      if n == 0 then Some((b as char, 3))
      else if n == 1 || n == 5 then None
      else
        var lead := if n == 2 then b - 0xC0 else if n == 3 then b - 0xE0 else b - 0xF0;
        match Continuations(s[3..], n - 1, lead)
        case None => None
        case Some(v) =>
          var least := if n == 2 then 0x80 else if n == 3 then 0x800 else 0x10000;
          if v < least || v > 0x10FFFF || 0xD800 <= v <= 0xDFFF then None
          else Some((v as char, 3 * n))
  }

  /** `decodeURIComponent(s)`; None stands for the URIError it throws. */
  function UriDecode(s: string): (r: Option<string>)
    ensures r.Some? ==> |r.value| <= |s|
    decreases |s|
  {
    if s == [] then Some([])
    else if s[0] != '%' then
      match UriDecode(s[1..])
      case None => None
      case Some(t) => Some([s[0]] + t)
    else
      match DecodeEscape(s)
      case None => None
      case Some(e) =>
        match UriDecode(s[e.1..])
        case None => None
        case Some(t) => Some([e.0] + t)
  }

  /** A value without `%` decodes to itself. */
  lemma {:induction false} UriDecodeNoEscapes(s: string)
    requires '%' !in s
    ensures UriDecode(s) == Some(s)
    decreases |s|
  {
    if s != [] {
      UriDecodeNoEscapes(s[1..]);
      assert s == [s[0]] + s[1..];
    }
  }

  /** The first `%` of a value, at position `k`, with fewer than two hex
      digits after it makes the whole decode a URIError, whatever comes
      before or after it. */
  lemma {:induction false} BrokenEscapeFails(s: string, k: nat)
    requires k < |s| && s[k] == '%' && '%' !in s[..k]
    requires |s| < k + 3 || !IsHexDigit(s[k + 1]) || !IsHexDigit(s[k + 2])
    ensures UriDecode(s) == None
    decreases k
  {
    if k > 0 {
      assert s[0] == s[..k][0];
      assert s[1..][..k - 1] == s[..k][1..];
      BrokenEscapeFails(s[1..], k - 1);
    }
  }

  /** The upper-case hex digit of `d`, as `encodeURIComponent` writes it. */
  function HexChar(d: nat): (c: char)
    requires d < 16
    ensures IsHexDigit(c) && DigitValue(c) == d
  {
    if d < 10 then DigitChar(d) else ('A' as int + d - 10) as char
  }

  /** Every character of `t`, all below U+0080, written as a `%XY` escape. */
  function EscapeAscii(t: string): (e: string)
    requires forall i :: 0 <= i < |t| ==> t[i] < '\U{80}'
    ensures |e| == 3 * |t|
  {
    if t == [] then []
    else ['%', HexChar(t[0] as int / 16), HexChar(t[0] as int % 16)] + EscapeAscii(t[1..])
  }

  /** Any text below U+0080, fully percent-encoded, decodes back to itself:
      each single-byte escape stands for the character with that code. */
  lemma {:induction false} UriDecodeEscapeAscii(t: string)
    requires forall i :: 0 <= i < |t| ==> t[i] < '\U{80}'
    ensures UriDecode(EscapeAscii(t)) == Some(t)
    decreases |t|
  {
    if t != [] {
      var s := EscapeAscii(t);
      assert EscapedByte(s) == Some(t[0] as int);
      assert DecodeEscape(s) == Some((t[0], 3));
      assert s[3..] == EscapeAscii(t[1..]);
      UriDecodeEscapeAscii(t[1..]);
      assert t == [t[0]] + t[1..];
    }
  }

  /** The two-byte UTF-8 form of `á` (U+00E1) decodes to that one letter. */
  lemma DecodesTwoByteSequence()
    ensures UriDecode("%C3%A1") == Some("\U{E1}")
  {
    var s := "%C3%A1";
    assert EscapedByte(s) == Some(0xC3);
    assert s[3..] == "%A1";
    assert EscapedByte(s[3..]) == Some(0xA1);
    assert Continuations(s[3..][3..], 0, 3 * 64 + 0x21) == Some(0xE1);
    assert Continuations(s[3..], 1, 3) == Some(0xE1);
    assert DecodeEscape(s) == Some(('\U{E1}', 6));
    assert s[6..] == [];
    assert UriDecode(s[6..]) == Some([]);
    assert UriDecode(s) == Some(['\U{E1}'] + []);
    assert ['\U{E1}'] + [] == "\U{E1}";
  }
}
