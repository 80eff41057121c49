/**
 * The string encoders behind the donation link: UTF-8 (RFC 3629), the
 * application/x-www-form-urlencoded serializer that URLSearchParams.toString
 * runs (WHATWG URL Standard, section 5.2), and ECMAScript's
 * encodeURIComponent (ECMA-262, section 19.2.6.5).  Each encoder has a
 * decoder beside it and a proof that the decoder undoes it.
 */
module UrlEncoding {

  datatype Option<T> = None | Some(value: T)

  newtype byte = x: int | 0 <= x < 256

  // ------------------------------------------------------------------ UTF-8

  /** How many bytes the UTF-8 sequence that starts with b has (RFC 3629, section 4); 0 if b cannot start one. */
  function SequenceLength(b: byte): nat
  {
    if b < 0x80 then 1
    else if 0xC2 <= b < 0xE0 then 2
    else if 0xE0 <= b < 0xF0 then 3
    else if 0xF0 <= b < 0xF5 then 4
    else 0
  }

  predicate IsContinuation(b: byte)
  {
    0x80 <= b < 0xC0
  }

  /** The continuation byte that carries the low six bits of n. */
  function Continuation(n: nat): byte
  {
    (0x80 + n % 64) as byte
  }

  /** The UTF-8 encoding of one Unicode scalar value (RFC 3629, section 3). */
  function CharToUtf8(c: char): (r: seq<byte>)
    ensures 1 <= |r| <= 4 && SequenceLength(r[0]) == |r|
    ensures forall i :: 1 <= i < |r| ==> IsContinuation(r[i])
    ensures |r| == 1 <==> c as int < 0x80
    ensures |r| == 1 ==> r[0] as int == c as int
  {
    var n := c as int;
    if n < 0x80 then [n as byte]
    else if n < 0x800 then [(0xC0 + n / 64) as byte, Continuation(n)]
    else if n < 0x1_0000 then [(0xE0 + n / 64 / 64) as byte, Continuation(n / 64), Continuation(n)]
    else [(0xF0 + n / 64 / 64 / 64) as byte, Continuation(n / 64 / 64), Continuation(n / 64), Continuation(n)]
  }

  function Utf8Encode(s: string): seq<byte>
  {
    if s == [] then [] else CharToUtf8(s[0]) + Utf8Encode(s[1..])
  }

  /** The value a k-byte sequence spells, six bits per continuation byte. */
  function ScalarOf(bs: seq<byte>, k: nat): int
    requires 1 <= k <= 4 && k <= |bs|
  {
    if k == 1 then bs[0] as int
    else if k == 2 then (bs[0] as int - 0xC0) * 64 + (bs[1] as int - 0x80)
    else if k == 3 then ((bs[0] as int - 0xE0) * 64 + (bs[1] as int - 0x80)) * 64 + (bs[2] as int - 0x80)
    else (((bs[0] as int - 0xF0) * 64 + (bs[1] as int - 0x80)) * 64 + (bs[2] as int - 0x80)) * 64 + (bs[3] as int - 0x80)
  }

  /** v is a scalar value that needs exactly k bytes: no overlong form, no surrogate, nothing past U+10FFFF. */
  predicate IsShortestScalar(v: int, k: nat)
  {
    || (k == 1 && 0 <= v < 0x80)
    || (k == 2 && 0x80 <= v < 0x800)
    || (k == 3 && 0x800 <= v < 0x1_0000 && !(0xD800 <= v < 0xE000))
    || (k == 4 && 0x1_0000 <= v < 0x11_0000)
  }

  /** The first character of bs and how many bytes it took, or None if bs does not start with well-formed UTF-8. */
  function DecodeFirstChar(bs: seq<byte>): (r: Option<(char, nat)>)
    requires |bs| > 0
    ensures r.Some? ==> 1 <= r.value.1 <= |bs|
  {
    var k := SequenceLength(bs[0]);
    if k == 0 || |bs| < k then None
    else if (k >= 2 && !IsContinuation(bs[1])) || (k >= 3 && !IsContinuation(bs[2])) || (k == 4 && !IsContinuation(bs[3])) then None
    else
      var v := ScalarOf(bs, k);
      if IsShortestScalar(v, k) then Some((v as char, k)) else None
  }

  /** Strict UTF-8 decoding: None on any ill-formed sequence. */
  function Utf8Decode(bs: seq<byte>): Option<string>
    decreases |bs|
  {
    if bs == [] then Some([])
    else
      match DecodeFirstChar(bs)
      case None => None
      case Some(first) =>
        match Utf8Decode(bs[first.1..])
        case None => None
        case Some(rest) => Some([first.0] + rest)
  }

  lemma {:induction false} DecodeFirstCharOfEncoding(c: char, rest: seq<byte>)
    ensures DecodeFirstChar(CharToUtf8(c) + rest) == Some((c, |CharToUtf8(c)|))
  {
    var n := c as int;
    var e := CharToUtf8(c);
    var bs := e + rest;
    assert bs[0] == e[0];
    assert forall i :: 0 <= i < |e| ==> bs[i] == e[i];
    if n < 0x80 {
    } else if n < 0x800 {
      assert ScalarOf(bs, 2) == n;
    } else if n < 0x1_0000 {
      assert ScalarOf(bs, 3) == (n / 64 / 64 * 64 + n / 64 % 64) * 64 + n % 64;
      assert ScalarOf(bs, 3) == n;
    } else {
      assert ScalarOf(bs, 4) == ((n / 64 / 64 / 64 * 64 + n / 64 / 64 % 64) * 64 + n / 64 % 64) * 64 + n % 64;
      assert ScalarOf(bs, 4) == n;
    }
  }

  /** Decoding the UTF-8 encoding of a string gives the string back. */
  lemma {:induction false} Utf8RoundTrip(s: string)
    ensures Utf8Decode(Utf8Encode(s)) == Some(s)
  {
    if s != [] {
      var e := CharToUtf8(s[0]);
      var rest := Utf8Encode(s[1..]);
      DecodeFirstCharOfEncoding(s[0], rest);
      assert (e + rest)[|e|..] == rest;
      Utf8RoundTrip(s[1..]);
      assert [s[0]] + s[1..] == s;
    }
  }

  // ------------------------------------------------------- percent-encoding

  predicate IsAsciiAlphanumeric(c: int)
  {
    0x30 <= c <= 0x39 || 0x41 <= c <= 0x5A || 0x61 <= c <= 0x7A
  }

  /** A digit or one of the upper-case letters A to F. */
  predicate IsUpperHexDigit(c: char)
  {
    '0' <= c <= '9' || 'A' <= c <= 'F'
  }

  /** An upper-case hexadecimal digit for 0 <= d < 16. */
  function HexDigit(d: int): char
    requires 0 <= d < 16
  {
    if d < 10 then ('0' as int + d) as char else ('A' as int + d - 10) as char
  }

  /** The value of a hexadecimal digit of either case. */
  function HexValue(c: char): (r: Option<int>)
    ensures r.Some? ==> 0 <= r.value < 16
  {
    if '0' <= c <= '9' then Some(c as int - '0' as int)
    else if 'A' <= c <= 'F' then Some(c as int - 'A' as int + 10)
    else if 'a' <= c <= 'f' then Some(c as int - 'a' as int + 10)
    else None
  }

  /** A byte written as "%" and two upper-case hexadecimal digits (RFC 3986, section 2.1). */
  function PercentEncode(b: byte): (r: string)
    ensures |r| == 3 && r[0] == '%'
    ensures IsAsciiAlphanumeric(r[1] as int) && IsAsciiAlphanumeric(r[2] as int)
    ensures IsUpperHexDigit(r[1]) && IsUpperHexDigit(r[2])
    ensures HexValue(r[1]).Some? && HexValue(r[2]).Some?
    ensures HexValue(r[1]).value * 16 + HexValue(r[2]).value == b as int
  {
    ['%', HexDigit(b as int / 16), HexDigit(b as int % 16)]
  }

  // ---------------------------------- application/x-www-form-urlencoded

  // The percent-encode sets of the WHATWG URL Standard, section 1.3, each
  // built from the one before it; c is a code point (here: a byte value).

  predicate InC0ControlPercentEncodeSet(c: int)
  {
    0 <= c <= 0x1F || c > 0x7E
  }

  predicate InQueryPercentEncodeSet(c: int)
  {
    InC0ControlPercentEncodeSet(c) || c == 0x20 || c == 0x22 || c == 0x23 || c == 0x3C || c == 0x3E
  }

  predicate InPathPercentEncodeSet(c: int)
  {
    InQueryPercentEncodeSet(c) || c == 0x3F || c == 0x5E || c == 0x60 || c == 0x7B || c == 0x7D
  }

  predicate InUserinfoPercentEncodeSet(c: int)
  {
    InPathPercentEncodeSet(c) || c == 0x2F || c == 0x3A || c == 0x3B || c == 0x3D || c == 0x40
    || (0x5B <= c <= 0x5E) || c == 0x7C
  }

  predicate InComponentPercentEncodeSet(c: int)
  {
    InUserinfoPercentEncodeSet(c) || (0x24 <= c <= 0x26) || c == 0x2B || c == 0x2C
  }

  predicate InFormPercentEncodeSet(c: int)
  {
    InComponentPercentEncodeSet(c) || c == 0x21 || (0x27 <= c <= 0x29) || c == 0x7E
  }

  /** The form set leaves exactly the ASCII letters, the digits and * - . _ alone. */
  lemma FormSetSparesOnly(b: byte)
    ensures !InFormPercentEncodeSet(b as int)
        <==> IsAsciiAlphanumeric(b as int) || b == 0x2A || b == 0x2D || b == 0x2E || b == 0x5F
  {
  }

  /** The characters the form serializer can produce. */
  predicate IsFormOutputChar(c: char)
  {
    IsAsciiAlphanumeric(c as int) || c == '*' || c == '-' || c == '.' || c == '_' || c == '+' || c == '%'
  }

  /** One byte under "percent-encode after encoding" with the form set and spaceAsPlus. */
  function FormEncodeByte(b: byte): string
  {
    if b == 0x20 then "+"
    else if InFormPercentEncodeSet(b as int) then PercentEncode(b)
    else [b as int as char]
  }

  function FormEncodeBytes(bs: seq<byte>): (r: string)
    ensures forall i :: 0 <= i < |r| ==> IsFormOutputChar(r[i])
  {
    if bs == [] then [] else FormEncodeByte(bs[0]) + FormEncodeBytes(bs[1..])
  }

  /** A name or a value as the urlencoded serializer writes it: UTF-8 first, then byte by byte. */
  function FormUrlEncode(s: string): (r: string)
    ensures forall i :: 0 <= i < |r| ==> IsFormOutputChar(r[i])
  {
    FormEncodeBytes(Utf8Encode(s))
  }

  /**
   * The byte half of the urlencoded parser (WHATWG URL Standard, section 5.1):
   * '+' is a space, "%HH" one byte, a '%' without two hexadecimal digits after
   * it stays a '%', and any other character stands for its UTF-8 bytes.
   */
  function FormPercentDecode(s: string): seq<byte>
    decreases |s|
  {
    if s == [] then []
    else if s[0] == '+' then [0x20 as byte] + FormPercentDecode(s[1..])
    else if s[0] == '%' && |s| >= 3 && HexValue(s[1]).Some? && HexValue(s[2]).Some? then
      [(HexValue(s[1]).value * 16 + HexValue(s[2]).value) as byte] + FormPercentDecode(s[3..])
    else CharToUtf8(s[0]) + FormPercentDecode(s[1..])
  }

  function FormUrlDecode(s: string): Option<string>
  {
    Utf8Decode(FormPercentDecode(s))
  }

  lemma {:induction false} FormPercentDecodeEncoded(bs: seq<byte>)
    ensures FormPercentDecode(FormEncodeBytes(bs)) == bs
  {
    if bs != [] {
      var b := bs[0];
      var head := FormEncodeByte(b);
      var tail := FormEncodeBytes(bs[1..]);
      var s := head + tail;
      if b == 0x20 {
        assert s[0] == '+' && s[1..] == tail;
      } else if InFormPercentEncodeSet(b as int) {
        assert s[0] == '%' && s[1] == head[1] && s[2] == head[2];
        assert s[3..] == tail;
      } else {
        assert s[0] == b as int as char && s[1..] == tail;
        assert CharToUtf8(s[0]) == [b];
      }
      FormPercentDecodeEncoded(bs[1..]);
      assert [b] + bs[1..] == bs;
    }
  }

  /** The form decoder undoes the form encoder, for every string. */
  lemma FormUrlRoundTrip(s: string)
    ensures FormUrlDecode(FormUrlEncode(s)) == Some(s)
  {
    FormPercentDecodeEncoded(Utf8Encode(s));
    Utf8RoundTrip(s);
  }

  // ------------------------------------------------------ encodeURIComponent

  /** The characters encodeURIComponent leaves alone: letters, digits and - _ . ! ~ * ' ( ) (ECMA-262, section 19.2.6). */
  predicate IsUriUnreserved(c: char)
  {
    IsAsciiAlphanumeric(c as int) || c == '-' || c == '_' || c == '.' || c == '!' || c == '~'
    || c == '*' || c == '\'' || c == '(' || c == ')'
  }

  function PercentEncodeAll(bs: seq<byte>): (r: string)
    ensures forall i :: 0 <= i < |r| ==> IsAsciiAlphanumeric(r[i] as int) || r[i] == '%'
  {
    if bs == [] then [] else PercentEncode(bs[0]) + PercentEncodeAll(bs[1..])
  }

  /** encodeURIComponent: unreserved characters as they are, every other character as its UTF-8 bytes in %HH form. */
  function EncodeUriComponent(s: string): (r: string)
    ensures forall i :: 0 <= i < |r| ==> IsUriUnreserved(r[i]) || r[i] == '%'
  {
    if s == [] then []
    else
      (if IsUriUnreserved(s[0]) then [s[0]] else PercentEncodeAll(CharToUtf8(s[0])))
      + EncodeUriComponent(s[1..])
  }

  function PrependBytes(p: seq<byte>, r: Option<seq<byte>>): Option<seq<byte>>
  {
    match r
    case None => None
    case Some(t) => Some(p + t)
  }

  /** "%HH" is one byte, any other character its UTF-8 bytes; a '%' without two hexadecimal digits is an error. */
  function UriPercentDecode(s: string): Option<seq<byte>>
    decreases |s|
  {
    if s == [] then Some([])
    else if s[0] == '%' then
      if |s| >= 3 && HexValue(s[1]).Some? && HexValue(s[2]).Some? then
        PrependBytes([(HexValue(s[1]).value * 16 + HexValue(s[2]).value) as byte], UriPercentDecode(s[3..]))
      else None
    else PrependBytes(CharToUtf8(s[0]), UriPercentDecode(s[1..]))
  }

  /** The inverse of EncodeUriComponent, in the manner of decodeURIComponent: None where that throws a URIError. */
  function DecodeUriComponent(s: string): Option<string>
  {
    match UriPercentDecode(s)
    case None => None
    case Some(bs) => Utf8Decode(bs)
  }

  lemma {:induction false} UriPercentDecodeAll(bs: seq<byte>, rest: string)
    ensures UriPercentDecode(PercentEncodeAll(bs) + rest) == PrependBytes(bs, UriPercentDecode(rest))
  {
    if bs == [] {
      assert PercentEncodeAll(bs) + rest == rest;
      PrependBytesTwice([], [], UriPercentDecode(rest));
    } else {
      var more := PercentEncodeAll(bs[1..]) + rest;
      assert PercentEncodeAll(bs) + rest == PercentEncode(bs[0]) + more;
      calc {
        UriPercentDecode(PercentEncodeAll(bs) + rest);
        { UriPercentDecodeByte(bs[0], more); }
        PrependBytes([bs[0]], UriPercentDecode(more));
        { UriPercentDecodeAll(bs[1..], rest); }
        PrependBytes([bs[0]], PrependBytes(bs[1..], UriPercentDecode(rest)));
        { PrependBytesTwice([bs[0]], bs[1..], UriPercentDecode(rest)); assert [bs[0]] + bs[1..] == bs; }
        PrependBytes(bs, UriPercentDecode(rest));
      }
    }
  }

  lemma PrependBytesTwice(a: seq<byte>, b: seq<byte>, r: Option<seq<byte>>)
    ensures PrependBytes(a, PrependBytes(b, r)) == PrependBytes(a + b, r)
    ensures PrependBytes([], r) == r
  {
    match r {
      case None =>
      case Some(t) =>
        assert a + (b + t) == (a + b) + t;
        assert [] + t == t;
    }
  }

  /** One "%HH" escape decodes to its byte. */
  lemma UriPercentDecodeByte(b: byte, more: string)
    ensures UriPercentDecode(PercentEncode(b) + more) == PrependBytes([b], UriPercentDecode(more))
  {
    var head := PercentEncode(b);
    var s := head + more;
    assert s[0] == '%' && s[1] == head[1] && s[2] == head[2];
    assert s[3..] == more;
  }

  lemma {:induction false} UriPercentDecodeEncoded(s: string)
    ensures UriPercentDecode(EncodeUriComponent(s)) == Some(Utf8Encode(s))
  {
    if s != [] {
      var c := s[0];
      var tail := EncodeUriComponent(s[1..]);
      UriPercentDecodeEncoded(s[1..]);
      if IsUriUnreserved(c) {
        var e := [c] + tail;
        assert e[0] == c && e[1..] == tail;
      } else {
        UriPercentDecodeAll(CharToUtf8(c), tail);
      }
    }
  }

  /** decodeURIComponent undoes encodeURIComponent, for every string. */
  lemma UriRoundTrip(s: string)
    ensures DecodeUriComponent(EncodeUriComponent(s)) == Some(s)
  {
    UriPercentDecodeEncoded(s);
    Utf8RoundTrip(s);
  }

  // ------------------------------------- encoding character by character

  lemma {:induction false} Utf8EncodeAppend(a: string, b: string)
    ensures Utf8Encode(a + b) == Utf8Encode(a) + Utf8Encode(b)
  {
    if a == [] {
      assert a + b == b;
    } else {
      assert (a + b)[0] == a[0] && (a + b)[1..] == a[1..] + b;
      Utf8EncodeAppend(a[1..], b);
    }
  }

  lemma {:induction false} FormEncodeBytesAppend(a: seq<byte>, b: seq<byte>)
    ensures FormEncodeBytes(a + b) == FormEncodeBytes(a) + FormEncodeBytes(b)
  {
    if a == [] {
      assert a + b == b;
    } else {
      assert (a + b)[0] == a[0] && (a + b)[1..] == a[1..] + b;
      FormEncodeBytesAppend(a[1..], b);
    }
  }

  /** The form encoder works character by character: it distributes over concatenation. */
  lemma FormUrlEncodeAppend(a: string, b: string)
    ensures FormUrlEncode(a + b) == FormUrlEncode(a) + FormUrlEncode(b)
  {
    Utf8EncodeAppend(a, b);
    FormEncodeBytesAppend(Utf8Encode(a), Utf8Encode(b));
  }

  /** Letters, digits and * - . _ pass through the form encoder unchanged. */
  lemma {:induction false} FormUrlEncodeSpares(s: string)
    requires forall i :: 0 <= i < |s| ==> IsAsciiAlphanumeric(s[i] as int) || s[i] in "*-._"
    ensures FormUrlEncode(s) == s
  {
    if s != [] {
      assert s == [s[0]] + s[1..];
      FormUrlEncodeAppend([s[0]], s[1..]);
      FormUrlEncodeSpares(s[1..]);
      FormUrlEncodeSpareChar(s[0]);
    }
  }

  lemma FormUrlEncodeSpareChar(c: char)
    requires IsAsciiAlphanumeric(c as int) || c in "*-._"
    ensures FormUrlEncode([c]) == [c]
  {
    var b := c as int as byte;
    assert Utf8Encode([c]) == [b];
    assert [b][1..] == [];
    assert FormEncodeBytes([b]) == FormEncodeByte(b);
  }

  /** encodeURIComponent works character by character: it distributes over concatenation. */
  lemma {:induction false} EncodeUriComponentAppend(a: string, b: string)
    ensures EncodeUriComponent(a + b) == EncodeUriComponent(a) + EncodeUriComponent(b)
  {
    if a == [] {
      assert a + b == b;
    } else {
      assert (a + b)[0] == a[0] && (a + b)[1..] == a[1..] + b;
      EncodeUriComponentAppend(a[1..], b);
    }
  }

  /** Unreserved characters pass through encodeURIComponent unchanged. */
  lemma {:induction false} EncodeUriComponentSpares(s: string)
    requires forall i :: 0 <= i < |s| ==> IsUriUnreserved(s[i])
    ensures EncodeUriComponent(s) == s
  {
    if s != [] {
      EncodeUriComponentSpares(s[1..]);
      assert [s[0]] + s[1..] == s;
    }
  }

  // ----------------------------------------------------- query serializing

  function PairText(p: (string, string)): string
  {
    FormUrlEncode(p.0) + "=" + FormUrlEncode(p.1)
  }

  /** The urlencoded serializer (WHATWG URL Standard, section 5.2): name=value for each pair, joined by '&'. */
  function SerializeQuery(pairs: seq<(string, string)>): string
  {
    if pairs == [] then ""
    else if |pairs| == 1 then PairText(pairs[0])
    else PairText(pairs[0]) + "&" + SerializeQuery(pairs[1..])
  }

  /** s cut at every sep; the pieces, joined again by sep, give s back. */
  function Split(s: string, sep: char): (r: seq<string>)
    ensures |r| >= 1
    decreases |s|
  {
    if s == [] then [""]
    else
      var rest := Split(s[1..], sep);
      if s[0] == sep then [""] + rest else [[s[0]] + rest[0]] + rest[1..]
  }

  /** The position of the first c in s, |s| if there is none. */
  function IndexOf(s: string, c: char): (i: nat)
    ensures i <= |s|
    ensures forall j :: 0 <= j < i ==> s[j] != c
    ensures i < |s| ==> s[i] == c
  {
    if s == [] then 0 else if s[0] == c then 0 else 1 + IndexOf(s[1..], c)
  }

  /** One "name=value" piece, cut at its first '='; a piece without '=' is a name with an empty value. */
  function ParsePair(piece: string): Option<(string, string)>
  {
    var i := IndexOf(piece, '=');
    var value := if i < |piece| then piece[i + 1..] else "";
    match (FormUrlDecode(piece[..i]), FormUrlDecode(value))
    case (Some(name), Some(v)) => Some((name, v))
    case _ => None
  }

  function ParsePieces(pieces: seq<string>): Option<seq<(string, string)>>
  {
    if pieces == [] then Some([])
    else if pieces[0] == "" then ParsePieces(pieces[1..])
    else
      match (ParsePair(pieces[0]), ParsePieces(pieces[1..]))
      case (Some(p), Some(ps)) => Some([p] + ps)
      case _ => None
  }

  /** The urlencoded parser (WHATWG URL Standard, section 5.1), strict about UTF-8: empty pieces are skipped. */
  function ParseQuery(q: string): Option<seq<(string, string)>>
  {
    ParsePieces(Split(q, '&'))
  }

  lemma {:induction false} SplitWithout(a: string, sep: char)
    requires forall i :: 0 <= i < |a| ==> a[i] != sep
    ensures Split(a, sep) == [a]
  {
    if a != [] {
      SplitWithout(a[1..], sep);
      assert [a[0]] + a[1..] == a;
    }
  }

  lemma {:induction false} SplitAtFirst(a: string, sep: char, b: string)
    requires forall i :: 0 <= i < |a| ==> a[i] != sep
    ensures Split(a + [sep] + b, sep) == [a] + Split(b, sep)
  {
    var s := a + [sep] + b;
    if a == [] {
      assert s[0] == sep && s[1..] == b;
    } else {
      assert s[0] == a[0] && s[1..] == a[1..] + [sep] + b;
      SplitAtFirst(a[1..], sep, b);
      assert [a[0]] + a[1..] == a;
    }
  }

  lemma ParsePairText(p: (string, string))
    ensures ParsePair(PairText(p)) == Some(p)
  {
    var name := FormUrlEncode(p.0);
    var value := FormUrlEncode(p.1);
    var piece := PairText(p);
    assert piece == name + ['='] + value;
    assert piece[|name|] == '=';
    assert IndexOf(piece, '=') == |name| by {
      var i := IndexOf(piece, '=');
      assert forall j :: 0 <= j < |name| ==> piece[j] == name[j] && IsFormOutputChar(name[j]);
    }
    assert piece[..|name|] == name;
    assert piece[|name| + 1..] == value;
    FormUrlRoundTrip(p.0);
    FormUrlRoundTrip(p.1);
  }

  /** One serialized pair is a non-empty piece without '&' that parses back to the pair. */
  lemma PairTextPiece(p: (string, string))
    ensures PairText(p) != "" && ParsePair(PairText(p)) == Some(p)
    ensures forall i :: 0 <= i < |PairText(p)| ==> PairText(p)[i] != '&'
  {
    var first := PairText(p);
    assert first[|FormUrlEncode(p.0)|] == '=';
    assert forall i :: 0 <= i < |first| ==> first[i] == '=' || IsFormOutputChar(first[i]);
    ParsePairText(p);
  }

  lemma ParseEmpty()
    ensures ParsePieces(Split("", '&')) == Some([])
  {
    assert Split("", '&') == [""];
  }

  lemma ParseSingle(p: (string, string))
    ensures ParsePieces(Split(PairText(p), '&')) == Some([p])
  {
    var first := PairText(p);
    PairTextPiece(p);
    SplitWithout(first, '&');
    assert [first][1..] == [];
    assert ParsePieces([]) == Some([]);
    assert [p] + [] == [p];
  }

  lemma {:induction false} ParseSerialized(pairs: seq<(string, string)>)
    ensures ParsePieces(Split(SerializeQuery(pairs), '&')) == Some(pairs)
  {
    if pairs == [] {
      ParseEmpty();
    } else if |pairs| == 1 {
      assert SerializeQuery(pairs) == PairText(pairs[0]);
      ParseSingle(pairs[0]);
      assert [pairs[0]] == pairs;
    } else {
      var rest := SerializeQuery(pairs[1..]);
      calc {
        ParsePieces(Split(SerializeQuery(pairs), '&'));
        { SerializeCons(pairs); }
        ParsePieces(Split(PairText(pairs[0]) + ['&'] + rest, '&'));
        { ParseSerialized(pairs[1..]); ParseCons(pairs[0], rest, pairs[1..]); }
        Some([pairs[0]] + pairs[1..]);
        { assert [pairs[0]] + pairs[1..] == pairs; }
        Some(pairs);
      }
    }
  }

  lemma SerializeCons(pairs: seq<(string, string)>)
    requires |pairs| >= 2
    ensures SerializeQuery(pairs) == PairText(pairs[0]) + ['&'] + SerializeQuery(pairs[1..])
  {
  }

  /** A serialized pair, '&' and a query that parses: the pair comes first in what parses. */
  lemma ParseCons(p: (string, string), rest: string, parsed: seq<(string, string)>)
    requires ParsePieces(Split(rest, '&')) == Some(parsed)
    ensures ParsePieces(Split(PairText(p) + ['&'] + rest, '&')) == Some([p] + parsed)
  {
    var first := PairText(p);
    PairTextPiece(p);
    SplitAtFirst(first, '&', rest);
    var pieces := [first] + Split(rest, '&');
    assert pieces[0] == first && pieces[1..] == Split(rest, '&');
  }

  /** Parsing what the serializer wrote gives back the pairs, in order. */
  lemma QueryRoundTrip(pairs: seq<(string, string)>)
    ensures ParseQuery(SerializeQuery(pairs)) == Some(pairs)
  {
    ParseSerialized(pairs);
  }
}
