/**
 * The query-string encoder `objToQuery` and the `encodeURIComponent` it applies
 * to every value.  `encodeURIComponent` (section 15.1.3.4 of ECMA-262 5.1) keeps
 * letters, digits and - _ . ! ~ * ' ( ) and writes every other character as the
 * percent-escaped bytes of its UTF-8 encoding, with upper-case hex digits.
 * `Decode` (decodeURIComponent, section 15.1.3.2) and `ParseQuery` are the
 * inverses against which the encoder is proved.
 */
module Query {
  import opened Wrappers
  import opened Text

  newtype byte = x: int | 0 <= x < 256

  /** One enumerated property of the parameter object: its name and its value as a string. */
  datatype Pair = Pair(name: string, value: string)

  /** The characters `encodeURIComponent` leaves unescaped. */
  predicate Unreserved(c: char)
  {
    ('A' <= c <= 'Z') || ('a' <= c <= 'z') || ('0' <= c <= '9') ||
    c == '-' || c == '_' || c == '.' || c == '!' || c == '~' ||
    c == '*' || c == '\'' || c == '(' || c == ')'
  }

  /** The characters an encoded string may hold. */
  predicate EncodedChar(c: char)
  {
    Unreserved(c) || c == '%'
  }

  // ---------------------------------------------------------------- UTF-8

  /** The number of bytes in the UTF-8 encoding of a code point. */
  function Utf8Length(cp: int): nat
  {
    if cp < 0x80 then 1 else if cp < 0x800 then 2 else if cp < 0x1_0000 then 3 else 4
  }

  /** The UTF-8 encoding of one character (RFC 3629, section 3). */
  function Utf8(c: char): (bs: seq<byte>)
    ensures |bs| == Utf8Length(c as int)
  {
    var cp := c as int;
    if cp < 0x80 then [cp as byte]
    else if cp < 0x800 then [(0xC0 + cp / 64) as byte, (0x80 + cp % 64) as byte]
    else if cp < 0x1_0000 then
      [(0xE0 + cp / 4096) as byte, (0x80 + cp / 64 % 64) as byte, (0x80 + cp % 64) as byte]
    else
      [(0xF0 + cp / 262144) as byte, (0x80 + cp / 4096 % 64) as byte,
       (0x80 + cp / 64 % 64) as byte, (0x80 + cp % 64) as byte]
  }

  /** The length of the sequence a lead byte opens; 0 when it cannot open one. */
  function LeadLength(b: byte): nat
  {
    if b < 0x80 then 1
    else if 0xC0 <= b < 0xE0 then 2
    else if 0xE0 <= b < 0xF0 then 3
    else if 0xF0 <= b < 0xF8 then 4
    else 0
  }

  predicate IsContinuation(b: byte)
  {
    0x80 <= b < 0xC0
  }

  /** The code point a well-formed lead byte and its continuation bytes carry. */
  function CodePoint(bs: seq<byte>): int
    requires 1 <= |bs| <= 4
  {
    if |bs| == 1 then bs[0] as int
    else if |bs| == 2 then (bs[0] as int - 0xC0) * 64 + (bs[1] as int - 0x80)
    else if |bs| == 3 then
      (bs[0] as int - 0xE0) * 4096 + (bs[1] as int - 0x80) * 64 + (bs[2] as int - 0x80)
    else
      (bs[0] as int - 0xF0) * 262144 + (bs[1] as int - 0x80) * 4096
        + (bs[2] as int - 0x80) * 64 + (bs[3] as int - 0x80)
  }

  /** A code point that is a Unicode scalar value, i.e. a Dafny `char`. */
  predicate IsScalar(cp: int)
  {
    (0 <= cp < 0xD800) || (0xE000 <= cp < 0x11_0000)
  }

  lemma Utf8Shape(c: char)
    ensures LeadLength(Utf8(c)[0]) == |Utf8(c)|
    ensures forall k :: 1 <= k < |Utf8(c)| ==> IsContinuation(Utf8(c)[k])
    ensures CodePoint(Utf8(c)) == c as int
  {
    var cp := c as int;
    if cp >= 0x800 && cp < 0x1_0000 {
      ThreeByteDigits(cp);
    } else if cp >= 0x1_0000 {
      FourByteDigits(cp);
    }
  }

  /** A code point is the sum of its three 6-bit-aligned digits. */
  lemma ThreeByteDigits(cp: nat)
    ensures cp / 4096 * 4096 + cp / 64 % 64 * 64 + cp % 64 == cp
  {
    assert cp / 64 == cp / 4096 * 64 + cp / 64 % 64;
  }

  /** A code point is the sum of its four 6-bit-aligned digits. */
  lemma FourByteDigits(cp: nat)
    ensures cp / 262144 * 262144 + cp / 4096 % 64 * 4096 + cp / 64 % 64 * 64 + cp % 64 == cp
  {
    assert cp / 4096 == cp / 262144 * 64 + cp / 4096 % 64;
    ThreeByteDigits(cp);
  }

  // ---------------------------------------------------------------- percent-escapes

  function HexDigit(d: nat): (c: char)
    requires d < 16
  {
    if d < 10 then (48 + d) as char else (55 + d) as char
  }

  /** The value of a hex digit of either case. */
  function HexValue(c: char): (r: Option<nat>)
    ensures r.Some? ==> r.value < 16
  {
    if '0' <= c <= '9' then Some(c as int - 48)
    else if 'A' <= c <= 'F' then Some(c as int - 55)
    else if 'a' <= c <= 'f' then Some(c as int - 87)
    else None
  }

  /** `%XX` for one byte. */
  function Escape(b: byte): string
  {
    ['%', HexDigit(b as int / 16), HexDigit(b as int % 16)]
  }

  function EscapeAll(bs: seq<byte>): (r: string)
    ensures |r| == 3 * |bs|
    ensures forall k :: 0 <= k < |r| ==> EncodedChar(r[k])
  {
    if |bs| == 0 then [] else Escape(bs[0]) + EscapeAll(bs[1..])
  }

  /** `encodeURIComponent` for one character. */
  function EncodeChar(c: char): string
  {
    if Unreserved(c) then [c] else EscapeAll(Utf8(c))
  }

  /** `encodeURIComponent(s)`: the result holds only unreserved characters and '%'. */
  function Encode(s: string): (r: string)
    ensures forall k :: 0 <= k < |r| ==> EncodedChar(r[k])
  {
    if |s| == 0 then "" else EncodeChar(s[0]) + Encode(s[1..])
  }

  lemma {:induction false} EncodeAppend(a: string, b: string)
    ensures Encode(a + b) == Encode(a) + Encode(b)
    decreases |a|
  {
    if |a| > 0 {
      assert (a + b)[1..] == a[1..] + b;
      EncodeAppend(a[1..], b);
    } else {
      assert a + b == b;
    }
  }

  /** A string of unreserved characters is left as it is. */
  lemma {:induction false} EncodeUnreserved(s: string)
    requires forall k :: 0 <= k < |s| ==> Unreserved(s[k])
    ensures Encode(s) == s
    decreases |s|
  {
    if |s| > 0 {
      EncodeUnreserved(s[1..]);
      assert [s[0]] + s[1..] == s;
    }
  }

  // ---------------------------------------------------------------- decoding

  /** The byte a `%XX` escape at the start of `s` stands for. */
  function EscapedByte(s: string): Option<byte>
  {
    if |s| < 3 || s[0] != '%' then None
    else match (HexValue(s[1]), HexValue(s[2]))
      case (Some(h), Some(l)) => Some((16 * h + l) as byte)
      case _ => None
  }

  /** Reads `k` escaped continuation bytes from the start of `s`. */
  function Continuations(s: string, k: nat): (r: Option<seq<byte>>)
    ensures r.Some? ==> |r.value| == k && 3 * k <= |s|
    decreases k
  {
    if k == 0 then Some([])
    else match EscapedByte(s)
      case None => None
      case Some(b) =>
        if !IsContinuation(b) then None
        else match Continuations(s[3..], k - 1)
          case None => None
          case Some(rest) => Some([b] + rest)
  }

  /** The smallest code point that needs `n` bytes; a shorter one is an overlong encoding. */
  function MinCodePoint(n: nat): int
  {
    if n <= 1 then 0 else if n == 2 then 0x80 else if n == 3 then 0x800 else 0x1_0000
  }

  /** Decodes the escaped UTF-8 sequence at the start of `s` into one character and its length. */
  function ReadChar(s: string): (r: Option<(char, nat)>)
    ensures r.Some? ==> 3 <= r.value.1 <= |s|
  {
    match EscapedByte(s)
    case None => None
    case Some(b0) =>
      var n := LeadLength(b0);
      if n == 0 then None
      else match Continuations(s[3..], n - 1)
        case None => None
        case Some(rest) =>
          var cp := CodePoint([b0] + rest);
          if cp < MinCodePoint(n) || !IsScalar(cp) then None
          else Some((cp as char, 3 * n))
  }

  /** `decodeURIComponent(s)`; `None` where it throws a URIError. */
  function Decode(s: string): Option<string>
    decreases |s|
  {
    if |s| == 0 then Some("")
    else if s[0] != '%' then
      match Decode(s[1..])
      case None => None
      case Some(t) => Some([s[0]] + t)
    else match ReadChar(s)
      case None => None
      case Some((c, n)) =>
        match Decode(s[n..])
        case None => None
        case Some(t) => Some([c] + t)
  }

  lemma HexRoundTrip(d: nat)
    requires d < 16
    ensures HexValue(HexDigit(d)) == Some(d)
  {
  }

  lemma EscapedByteRoundTrip(b: byte, rest: string)
    ensures EscapedByte(Escape(b) + rest) == Some(b)
  {
    HexRoundTrip(b as int / 16);
    HexRoundTrip(b as int % 16);
  }

  lemma {:induction false} ContinuationsRoundTrip(bs: seq<byte>, rest: string)
    requires forall k :: 0 <= k < |bs| ==> IsContinuation(bs[k])
    ensures Continuations(EscapeAll(bs) + rest, |bs|) == Some(bs)
    decreases |bs|
  {
    if |bs| > 0 {
      var s := EscapeAll(bs) + rest;
      assert s == Escape(bs[0]) + (EscapeAll(bs[1..]) + rest);
      EscapedByteRoundTrip(bs[0], EscapeAll(bs[1..]) + rest);
      assert s[3..] == EscapeAll(bs[1..]) + rest;
      ContinuationsRoundTrip(bs[1..], rest);
      assert [bs[0]] + bs[1..] == bs;
    }
  }

  /** An escaped character, followed by anything, is read back as that character. */
  lemma ReadCharRoundTrip(c: char, rest: string)
    requires !Unreserved(c)
    ensures ReadChar(EncodeChar(c) + rest) == Some((c, |EncodeChar(c)|))
  {
    var u := Utf8(c);
    var s := EncodeChar(c) + rest;
    Utf8Shape(c);
    assert s == Escape(u[0]) + (EscapeAll(u[1..]) + rest);
    EscapedByteRoundTrip(u[0], EscapeAll(u[1..]) + rest);
    assert s[3..] == EscapeAll(u[1..]) + rest;
    ContinuationsRoundTrip(u[1..], rest);
    assert [u[0]] + u[1..] == u;
  }

  /** decodeURIComponent(encodeURIComponent(s)) == s for every string. */
  lemma {:induction false} DecodeEncode(s: string)
    ensures Decode(Encode(s)) == Some(s)
    decreases |s|
  {
    if |s| > 0 {
      var e := Encode(s);
      var head := EncodeChar(s[0]);
      assert e == head + Encode(s[1..]);
      DecodeEncode(s[1..]);
      if Unreserved(s[0]) {
        assert e[0] == s[0] && e[1..] == Encode(s[1..]);
      } else {
        ReadCharRoundTrip(s[0], Encode(s[1..]));
        assert e[0] == '%';
        assert e[|head|..] == Encode(s[1..]);
      }
      assert [s[0]] + s[1..] == s;
    }
  }

  // ---------------------------------------------------------------- the query string

  /** `[name, encodeURIComponent(value)].join("=")`. */
  function Part(p: Pair): string
  {
    Join([p.name, Encode(p.value)], "=")
  }

  /** A part is the name, '=' and the encoded value. */
  lemma PartText(p: Pair)
    ensures Part(p) == p.name + "=" + Encode(p.value)
  {
    JoinTwo(p.name, Encode(p.value), "=");
  }

  /** The parts `objToQuery` pushes, one per enumerated key, in enumeration order. */
  function Parts(ps: seq<Pair>): (r: seq<string>)
  {
    seq(|ps|, i requires 0 <= i < |ps| => Part(ps[i]))
  }

  /** `objToQuery`: every enumerated key is kept, as `name=value`, joined by '&'. */
  function ObjToQuery(ps: seq<Pair>): (q: string)
    ensures q == "" <==> ps == []
  {
    var q := Join(Parts(ps), "&");
    assert |ps| > 0 ==> q[..|Part(ps[0])|] == Part(ps[0]) && |Part(ps[0])| > 0
      by { if |ps| > 1 { assert q == Part(ps[0]) + "&" + Join(Parts(ps)[1..], "&"); } }
    q
  }

  /** The part at position `k` is the `k`-th pair's name, '=' and encoded value. */
  lemma PartAt(ps: seq<Pair>, k: nat)
    requires k < |ps|
    ensures Parts(ps)[k] == ps[k].name + "=" + Encode(ps[k].value)
  {
    PartText(ps[k]);
  }

  predicate PlainName(name: string)
  {
    '&' !in name && '=' !in name
  }

  /** Reads one `name=value` part; the value is percent-decoded. */
  function ParsePart(s: string): Option<Pair>
  {
    var fields := Split(s, '=');
    if |fields| != 2 then None
    else match Decode(fields[1])
      case None => None
      case Some(v) => Some(Pair(fields[0], v))
  }

  function ParseParts(parts: seq<string>): Option<seq<Pair>>
  {
    if |parts| == 0 then Some([])
    else match (ParsePart(parts[0]), ParseParts(parts[1..]))
      case (Some(p), Some(rest)) => Some([p] + rest)
      case _ => None
  }

  /** Reads a query string back into its pairs, in order. */
  function ParseQuery(q: string): Option<seq<Pair>>
  {
    if q == "" then Some([]) else ParseParts(Split(q, '&'))
  }

  lemma PartRoundTrip(p: Pair)
    requires PlainName(p.name)
    ensures ParsePart(Part(p)) == Some(p)
  {
    var e := Encode(p.value);
    JoinTwo(p.name, e, "=");
    SplitAtFirst(p.name, '=', e);
    SplitWithout(e, '=');
    DecodeEncode(p.value);
  }

  lemma {:induction false} PartsRoundTrip(ps: seq<Pair>)
    requires forall i :: 0 <= i < |ps| ==> PlainName(ps[i].name)
    ensures ParseParts(Parts(ps)) == Some(ps)
    decreases |ps|
  {
    if |ps| > 0 {
      PartRoundTrip(ps[0]);
      assert Parts(ps)[1..] == Parts(ps[1..]);
      PartsRoundTrip(ps[1..]);
      assert [ps[0]] + ps[1..] == ps;
    }
  }

  /** No part holds a '&': names are plain and encoded values have none. */
  lemma PartsWithoutAmpersand(ps: seq<Pair>)
    requires forall i :: 0 <= i < |ps| ==> PlainName(ps[i].name)
    ensures forall i :: 0 <= i < |ps| ==> '&' !in Parts(ps)[i]
  {
    forall i | 0 <= i < |ps|
      ensures '&' !in Parts(ps)[i]
    {
      var e := Encode(ps[i].value);
      JoinTwo(ps[i].name, e, "=");
    }
  }

  /** A character that is neither a separator nor escaped output, and no name holds, is not in the query. */
  lemma QueryWithout(ps: seq<Pair>, c: char)
    requires c != '&' && c != '=' && !EncodedChar(c)
    requires forall i :: 0 <= i < |ps| ==> c !in ps[i].name
    ensures c !in ObjToQuery(ps)
  {
    forall i | 0 <= i < |ps|
      ensures c !in Parts(ps)[i]
    {
      JoinTwo(ps[i].name, Encode(ps[i].value), "=");
    }
    JoinWithout(Parts(ps), '&', c);
  }

  /**
   * The query string carries exactly the pairs it was made from, in order:
   * one `name=value` part per key, values recovered by decodeURIComponent.
   */
  lemma QueryRoundTrip(ps: seq<Pair>)
    requires forall i :: 0 <= i < |ps| ==> PlainName(ps[i].name)
    ensures ParseQuery(ObjToQuery(ps)) == Some(ps)
  {
    if |ps| > 0 {
      PartsWithoutAmpersand(ps);
      SplitJoin(Parts(ps), '&');
      PartsRoundTrip(ps);
    }
  }

  /** A non-empty query holds one '&' fewer than it has keys. */
  lemma QueryAmpersands(ps: seq<Pair>)
    requires |ps| >= 1
    requires forall i :: 0 <= i < |ps| ==> PlainName(ps[i].name)
    ensures multiset(ObjToQuery(ps))['&'] == |ps| - 1
  {
    PartsWithoutAmpersand(ps);
    JoinSeparatorCount(Parts(ps), '&');
  }
}
