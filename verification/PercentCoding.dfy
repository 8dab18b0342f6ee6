/**
 encodeURIComponent and decodeURIComponent over Unicode scalar values: percent-encoded UTF-8 (RFC 3986 section 2.1, RFC
 3629 section 3).
 */
module PercentCoding {
  import opened Options

  predicate Unreserved(c: char) {
    'a' <= c <= 'z' || 'A' <= c <= 'Z' || '0' <= c <= '9' || c in "-_.!~*'()"
  }

  // ---------------------------------------------------------------- UTF-8

  function Utf8(c: char): seq<nat> {
    var v := c as int;
    if v < 0x80 then [v]
    else if v < 0x800 then [0xC0 + v / 64, 0x80 + v % 64]
    else if v < 0x10000 then [0xE0 + v / 4096, 0x80 + v / 64 % 64, 0x80 + v % 64]
    else [0xF0 + v / 262144, 0x80 + v / 4096 % 64, 0x80 + v / 64 % 64, 0x80 + v % 64]
  }

  /** How many octets a lead octet announces; 0 for an octet that cannot lead. */
  function Announced(lead: nat): nat {
    if lead < 0x80 then 1
    else if lead < 0xC0 then 0
    else if lead < 0xE0 then 2
    else if lead < 0xF0 then 3
    else if lead < 0xF8 then 4
    else 0
  }

  predicate Continues(octet: nat) { 0x80 <= octet < 0xC0 }

  function Scalar(v: nat): Option<char> {
    if v < 0xD800 || 0xE000 <= v < 0x110000 then Some(v as char) else None
  }

  /** The scalar value of an octet group; overlong forms, surrogates and values past the last plane are refused. */
  function Combine(octets: seq<nat>): Option<char> {
    if |octets| == 1 && octets[0] < 0x80 then Scalar(octets[0])
    else if |octets| == 2 && 0xC0 <= octets[0] && Continues(octets[1]) then
      var v := (octets[0] - 0xC0) * 64 + (octets[1] - 0x80);
      if v < 0x80 then None else Scalar(v)
    else if |octets| == 3 && 0xE0 <= octets[0] && Continues(octets[1]) && Continues(octets[2]) then
      var v := (octets[0] - 0xE0) * 4096 + (octets[1] - 0x80) * 64 + (octets[2] - 0x80);
      if v < 0x800 then None else Scalar(v)
    else if |octets| == 4 && 0xF0 <= octets[0] && Continues(octets[1]) && Continues(octets[2])
            && Continues(octets[3]) then
      var v := (octets[0] - 0xF0) * 262144 + (octets[1] - 0x80) * 4096 + (octets[2] - 0x80) * 64 + (octets[3] - 0x80);
      if v < 0x10000 then None else Scalar(v)
    else None
  }

  lemma CombineUtf8(c: char)
    ensures Combine(Utf8(c)) == Some(c)
    ensures |Utf8(c)| == Announced(Utf8(c)[0]) && forall k | 0 <= k < |Utf8(c)| :: Utf8(c)[k] < 256
  {
    var v := c as int;
    Digits64(v);
    if v < 0x80 {
    } else if v < 0x800 {
    } else if v < 0x10000 {
      assert Utf8(c) == [0xE0 + v / 4096, 0x80 + v / 64 % 64, 0x80 + v % 64];
    } else {
      assert Utf8(c) == [0xF0 + v / 262144, 0x80 + v / 4096 % 64, 0x80 + v / 64 % 64, 0x80 + v % 64];
    }
  }

  /** A group that its lead octet announces is accepted exactly when it is the encoding of a scalar value. */
  lemma CombineExactly(octets: seq<nat>)
    requires octets != [] && |octets| == Announced(octets[0])
    ensures Combine(octets).Some? <==> exists c :: Utf8(c) == octets
    ensures Combine(octets).Some? ==> Utf8(Combine(octets).value) == octets
  {
    if c :| Utf8(c) == octets { CombineUtf8(c); }
    if Combine(octets).Some? { EncodesBack(octets, Combine(octets).value); }
  }

  lemma EncodesBack(octets: seq<nat>, c: char)
    requires octets != [] && |octets| == Announced(octets[0]) && Combine(octets) == Some(c)
    ensures Utf8(c) == octets
  {
    if |octets| == 2 {
      TwoOctets(octets[0] - 0xC0, octets[1] - 0x80);
    } else if |octets| == 3 {
      ThreeOctets(octets[0] - 0xE0, octets[1] - 0x80, octets[2] - 0x80);
    } else if |octets| == 4 {
      FourOctets(octets[0] - 0xF0, octets[1] - 0x80, octets[2] - 0x80, octets[3] - 0x80);
    }
  }

  lemma TwoOctets(a: nat, b: nat)
    requires b < 64
    ensures var v := a * 64 + b; v / 64 == a && v % 64 == b
  {}

  lemma ThreeOctets(a: nat, b: nat, c: nat)
    requires b < 64 && c < 64
    ensures var v := a * 4096 + b * 64 + c; v / 4096 == a && v / 64 % 64 == b && v % 64 == c
  {
    var v := a * 4096 + b * 64 + c;
    assert v == (a * 64 + b) * 64 + c;
    TwoOctets(a * 64 + b, c);
    TwoOctets(a, b);
    Digits64(v);
  }

  lemma FourOctets(a: nat, b: nat, c: nat, d: nat)
    requires b < 64 && c < 64 && d < 64
    ensures var v := a * 262144 + b * 4096 + c * 64 + d;
            v / 262144 == a && v / 4096 % 64 == b && v / 64 % 64 == c && v % 64 == d
  {
    var v := a * 262144 + b * 4096 + c * 64 + d;
    assert v == (a * 4096 + b * 64 + c) * 64 + d;
    TwoOctets(a * 4096 + b * 64 + c, d);
    ThreeOctets(a, b, c);
    Digits64(v);
  }

  /** Which octets lead, and how many they announce, by their leading bits. */
  lemma AnnouncedBits(lead: nat)
    requires lead < 256
    ensures Announced(lead) == if lead / 128 == 0 then 1 else if lead / 32 == 6 then 2 else if lead / 16 == 14 then 3
                               else if lead / 8 == 30 then 4 else 0
    ensures Continues(lead) <==> lead / 64 == 2
  {}

  /** The characters encodeURIComponent leaves alone. */
  lemma UnreservedExactly(c: char)
    ensures Unreserved(c) <==> 65 <= c as int <= 90 || 97 <= c as int <= 122 || 48 <= c as int <= 57
                               || c in {'-', '_', '.', '!', '~', '*', '\'', '(', ')'}
  {}

  /** Hexadecimal digits are read in either case, and nothing else is. */
  lemma HexValueExactly(c: char)
    ensures HexValue(c).Some? <==> c in "0123456789ABCDEFabcdef"
    ensures forall d | 0 <= d < 16 :: HexValue("0123456789ABCDEF"[d]) == Some(d) == HexValue("0123456789abcdef"[d])
  {}

  /** The base-64 digits of a number below 2^24. */
  lemma Digits64(v: nat)
    ensures v == v / 64 * 64 + v % 64
    ensures v / 64 == v / 4096 * 64 + v / 64 % 64
    ensures v / 4096 == v / 262144 * 64 + v / 4096 % 64
  {}

  // ---------------------------------------------------------------- percent triplets

  function HexChar(d: nat): char
    requires d < 16
  {
    "0123456789ABCDEF"[d]
  }

  function HexValue(c: char): Option<nat> {
    if '0' <= c <= '9' then Some(c as int - '0' as int)
    else if 'A' <= c <= 'F' then Some(c as int - 'A' as int + 10)
    else if 'a' <= c <= 'f' then Some(c as int - 'a' as int + 10)
    else None
  }

  function Triplet(octet: nat): (s: string)
    requires octet < 256
    ensures |s| == 3 && s[0] == '%'
  {
    ['%', HexChar(octet / 16), HexChar(octet % 16)]
  }

  function ReadTriplet(s: string): Option<nat> {
    if |s| >= 3 && s[0] == '%' && HexValue(s[1]).Some? && HexValue(s[2]).Some?
    then Some(16 * HexValue(s[1]).value + HexValue(s[2]).value)
    else None
  }

  function Triplets(octets: seq<nat>): string
    requires forall k | 0 <= k < |octets| :: octets[k] < 256
  {
    if octets == [] then "" else Triplet(octets[0]) + Triplets(octets[1..])
  }

  function ReadTriplets(s: string, n: nat): Option<seq<nat>> {
    if n == 0 then Some([])
    else if |s| < 3 || ReadTriplet(s).None? || ReadTriplets(s[3..], n - 1).None? then None
    else Some([ReadTriplet(s).value] + ReadTriplets(s[3..], n - 1).value)
  }

  lemma ReadWrittenTriplet(octet: nat, rest: string)
    requires octet < 256
    ensures ReadTriplet(Triplet(octet) + rest) == Some(octet)
  {
    assert octet == 16 * (octet / 16) + octet % 16;
    HexDigits(octet / 16);
    HexDigits(octet % 16);
  }

  lemma HexDigits(d: nat)
    requires d < 16
    ensures HexValue(HexChar(d)) == Some(d) && Unreserved(HexChar(d))
  {}

  lemma {:induction false} ReadWrittenTriplets(octets: seq<nat>, rest: string)
    requires forall k | 0 <= k < |octets| :: octets[k] < 256
    ensures |Triplets(octets)| == 3 * |octets|
    ensures ReadTriplets(Triplets(octets) + rest, |octets|) == Some(octets)
  {
    hide Triplet, ReadTriplet;
    if octets != [] {
      ReadWrittenTriplets(octets[1..], rest);
      var tail := Triplets(octets[1..]) + rest;
      ReadWrittenTriplet(octets[0], tail);
      assert Triplets(octets) + rest == Triplet(octets[0]) + tail;
      assert (Triplet(octets[0]) + tail)[3..] == tail;
      assert octets == [octets[0]] + octets[1..];
    }
  }

  // ---------------------------------------------------------------- whole strings

  function EncodeChar(c: char): string {
    CombineUtf8(c);
    if Unreserved(c) then [c] else Triplets(Utf8(c))
  }

  /** encodeURIComponent */
  function Encode(s: string): string {
    if s == "" then "" else EncodeChar(s[0]) + Encode(s[1..])
  }

  /** decodeURIComponent; None is the URIError. */
  function Decode(s: string): Option<string> {
    if s == "" then Some("")
    else if s[0] != '%' then
      var rest := Decode(s[1..]);
      if rest.None? then None else Some([s[0]] + rest.value)
    else
      var lead := ReadTriplet(s);
      var n := if lead.Some? then Announced(lead.value) else 0;
      if n == 0 || |s| < 3 * n then None
      else
        var octets := ReadTriplets(s, n);
        var c := if octets.Some? then Combine(octets.value) else None;
        var rest := Decode(s[3 * n..]);
        if c.None? || rest.None? then None else Some([c.value] + rest.value)
  }

  lemma DecodeGroup(s: string, octets: seq<nat>, c: char, tail: string)
    requires s != "" && s[0] == '%' && octets != [] && ReadTriplet(s) == Some(octets[0])
    requires Announced(octets[0]) == |octets| && |s| >= 3 * |octets| && s[3 * |octets|..] == tail
    requires ReadTriplets(s, |octets|) == Some(octets) && Combine(octets) == Some(c)
    ensures Decode(s) == match Decode(tail) case None => None case Some(rest) => Some([c] + rest)
  {
    hide Combine, Announced, ReadTriplet, ReadTriplets;
  }

  lemma FirstTriplet(octets: seq<nat>, tail: string)
    requires octets != [] && forall k | 0 <= k < |octets| :: octets[k] < 256
    ensures ReadTriplet(Triplets(octets) + tail) == Some(octets[0]) && (Triplets(octets) + tail)[0] == '%'
  {
    hide ReadTriplet, Triplet;
    var rest := Triplets(octets[1..]) + tail;
    ReadWrittenTriplet(octets[0], rest);
    assert Triplets(octets) + tail == Triplet(octets[0]) + rest;
  }

  /** Decoding consumes exactly what one encoded character wrote. */
  lemma DecodeStep(c: char, tail: string)
    ensures Decode(EncodeChar(c) + tail) == match Decode(tail) case None => None case Some(rest) => Some([c] + rest)
  {
    hide Combine, Utf8, Announced, ReadTriplet, ReadTriplets, Triplets;
    if Unreserved(c) {
      assert ([c] + tail)[1..] == tail;
    } else {
      CombineUtf8(c);
      SomeOctets(c);
      ReadWrittenTriplets(Utf8(c), tail);
      FirstTriplet(Utf8(c), tail);
      DecodeGroup(Triplets(Utf8(c)) + tail, Utf8(c), c, tail);
    }
  }

  lemma SomeOctets(c: char)
    ensures |Utf8(c)| > 0
  {}

  /** Every string comes back. */
  lemma {:induction false} DecodeEncode(s: string)
    ensures Decode(Encode(s)) == Some(s)
  {
    if s != "" {
      DecodeStep(s[0], Encode(s[1..]));
      DecodeEncode(s[1..]);
      assert s == [s[0]] + s[1..];
    }
  }

  predicate Plain(s: string) {
    forall k | 0 <= k < |s| :: Unreserved(s[k]) || s[k] == '%'
  }

  lemma {:induction false} TripletsPlain(octets: seq<nat>)
    requires forall k | 0 <= k < |octets| :: octets[k] < 256
    ensures Plain(Triplets(octets))
  {
    if octets != [] {
      HexDigits(octets[0] / 16);
      HexDigits(octets[0] % 16);
      TripletsPlain(octets[1..]);
    }
  }

  lemma PlainEmpty()
    ensures Plain("")
  {}

  lemma PlainOne(c: char)
    requires Unreserved(c)
    ensures Plain([c])
  {}

  lemma PlainConcat(a: string, b: string)
    requires Plain(a) && Plain(b)
    ensures Plain(a + b)
  {}

  lemma PlainNoSlash(s: string)
    requires Plain(s)
    ensures '/' !in s
  {}

  /** Nothing but unreserved characters and percent signs is written, so no separator is. */
  lemma {:induction false} EncodePlain(s: string)
    ensures Plain(Encode(s)) && '/' !in Encode(s)
    ensures Encode(s) == "" <==> s == ""
  {
    hide Utf8, Announced, Combine, Triplets, Plain, Unreserved;
    if s == "" {
      PlainEmpty();
    } else {
      EncodePlain(s[1..]);
      if Unreserved(s[0]) { PlainOne(s[0]); }
      CombineUtf8(s[0]);
      SomeOctets(s[0]);
      if !Unreserved(s[0]) {
        TripletsPlain(Utf8(s[0]));
        ReadWrittenTriplets(Utf8(s[0]), "");
      }
      PlainConcat(EncodeChar(s[0]), Encode(s[1..]));
    }
    PlainNoSlash(Encode(s));
  }
}
