/** The two foreign string functions that carry a search from the navigation
    bar to the home page: ECMAScript's `encodeURIComponent` (ECMA-262,
    section 19.2.6.5 together with the Encode operation of section 19.2.6.1.1)
    and the `URLSearchParams` query parser, which is the
    application/x-www-form-urlencoded parser of the WHATWG URL Standard
    (section 5.1) with percent-decoding (section 1.3) and the UTF-8 decoder
    of the WHATWG Encoding Standard (section 8.1.1) in replacement mode.
    Dafny characters are Unicode scalar values, so the lone surrogates on
    which `encodeURIComponent` throws cannot occur. */
module Uri {
  import opened Wrappers

  type Byte = x: int | 0 <= x < 256

  predicate IsScalar(n: int) {
    0 <= n < 0xD800 || 0xE000 <= n <= 0x10FFFF
  }

  /* ---------- UTF-8 encoding (RFC 3629, section 3) ---------- */

  /** The one to four octets of a code point. */
  function Utf8(c: char): (bs: seq<Byte>)
    ensures 1 <= |bs| <= 4
    ensures (|bs| == 1) == (c as int < 0x80)
    ensures |bs| == 1 ==> bs[0] == c as int
    ensures |bs| > 1 ==> forall k :: 0 <= k < |bs| ==> 0x80 <= bs[k]
  {
    var n := c as int;
    if n < 0x80 then [n]
    else if n < 0x800 then [0xC0 + n / 64, 0x80 + n % 64]
    else if n < 0x10000 then [0xE0 + n / 4096, 0x80 + n / 64 % 64, 0x80 + n % 64]
    else [0xF0 + n / 262144, 0x80 + n / 4096 % 64, 0x80 + n / 64 % 64, 0x80 + n % 64]
  }

  function Utf8Encode(s: string): seq<Byte> {
    if s == [] then [] else Utf8(s[0]) + Utf8Encode(s[1..])
  }

  lemma {:induction false} Utf8EncodeAppend(a: string, b: string)
    ensures Utf8Encode(a + b) == Utf8Encode(a) + Utf8Encode(b)
  {
    if a != [] {
      assert (a + b)[0] == a[0];
      assert (a + b)[1..] == a[1..] + b;
      Utf8EncodeAppend(a[1..], b);
    } else {
      assert a + b == b;
    }
  }

  /** An ASCII string encodes to its own character codes, one byte each. */
  lemma {:induction false} Utf8EncodeAscii(s: string)
    requires forall i :: 0 <= i < |s| ==> s[i] as int < 0x80
    ensures |Utf8Encode(s)| == |s|
    ensures forall i :: 0 <= i < |s| ==> Utf8Encode(s)[i] == s[i] as int
  {
    if s != [] {
      Utf8EncodeAscii(s[1..]);
    }
  }

  /* ---------- encodeURIComponent ---------- */

  /** The characters `encodeURIComponent` leaves alone: ASCII letters and
      digits and `-_.!~*'()`. */
  predicate IsUnreserved(c: char) {
    'A' <= c <= 'Z' || 'a' <= c <= 'z' || '0' <= c <= '9' || c in "-_.!~*'()"
  }

  /** Every character of an encoded component is unreserved or `%`. */
  ghost predicate IsEncoded(s: string) {
    forall i :: 0 <= i < |s| ==> IsUnreserved(s[i]) || s[i] == '%'
  }

  /** Upper-case hexadecimal digit. */
  function HexDigit(d: int): (c: char)
    requires 0 <= d < 16
    ensures '0' <= c <= '9' || 'A' <= c <= 'F'
    ensures IsUnreserved(c)
  {
    "0123456789ABCDEF"[d]
  }

  /** `%XY` for each octet. */
  function PercentEscapes(bs: seq<Byte>): (r: string)
    ensures |r| == 3 * |bs|
    ensures IsEncoded(r)
  {
    if bs == [] then [] else ['%', HexDigit(bs[0] / 16), HexDigit(bs[0] % 16)] + PercentEscapes(bs[1..])
  }

  function EncodeChar(c: char): (r: string)
    ensures IsEncoded(r)
  {
    if IsUnreserved(c) then [c] else PercentEscapes(Utf8(c))
  }

  /** `encodeURIComponent(s)`. */
  function EncodeURIComponent(s: string): (r: string)
    ensures IsEncoded(r)
    ensures (forall i :: 0 <= i < |s| ==> IsUnreserved(s[i])) ==> r == s
  {
    if s == [] then [] else EncodeChar(s[0]) + EncodeURIComponent(s[1..])
  }

  /* ---------- percent-decoding (URL Standard, section 1.3) ---------- */

  /** An ASCII hex digit of either case. */
  predicate IsHexByte(b: Byte) {
    0x30 <= b <= 0x39 || 0x41 <= b <= 0x46 || 0x61 <= b <= 0x66
  }

  function HexValue(b: Byte): (d: int)
    requires IsHexByte(b)
    ensures 0 <= d < 16
  {
    if b <= 0x39 then b - 0x30 else if b <= 0x46 then b - 0x41 + 10 else b - 0x61 + 10
  }

  lemma HexDigitValue(d: int)
    requires 0 <= d < 16
    ensures IsHexByte(HexDigit(d) as int) && HexValue(HexDigit(d) as int) == d
  {
  }

  /** A `%` followed by two hex digits becomes the octet they spell; any
      other byte, a lone `%` included, is kept. */
  function PercentDecode(bs: seq<Byte>): seq<Byte> {
    if bs == [] then []
    else if bs[0] == 0x25 && |bs| >= 3 && IsHexByte(bs[1]) && IsHexByte(bs[2]) then
      [HexValue(bs[1]) * 16 + HexValue(bs[2])] + PercentDecode(bs[3..])
    else [bs[0]] + PercentDecode(bs[1..])
  }

  /* ---------- UTF-8 decoding (Encoding Standard, section 8.1.1) ---------- */

  const REPLACEMENT: char := '\U{FFFD}'

  /** The decoder's state: between characters, or part-way through one that
      needs `needed` continuation bytes, `seen` of which have arrived, the
      next one to lie within `lower`..`upper`. */
  datatype DecoderState =
    | Ready
    | Pending(codePoint: int, seen: nat, needed: nat, lower: int, upper: int)

  function Pow64(k: nat): nat
    requires k <= 3
  {
    if k == 0 then 1 else if k == 1 then 64 else if k == 2 then 4096 else 262144
  }

  /** Whatever continuation bytes the boundaries let through, the code point
      being assembled ends up a scalar value. */
  ghost predicate Sound(st: DecoderState) {
    st.Pending? ==>
      0x80 <= st.lower <= st.upper <= 0xBF && st.seen < st.needed <= 3 &&
      var r := st.needed - st.seen;
      var lo := st.codePoint * Pow64(r) + (st.lower - 0x80) * Pow64(r - 1);
      var hi := st.codePoint * Pow64(r) + (st.upper - 0x80 + 1) * Pow64(r - 1) - 1;
      0 <= lo && hi <= 0x10FFFF && (hi < 0xD800 || 0xDFFF < lo)
  }

  /** The state after a lead byte, which every lead byte leaves sound. */
  function LeadState(b: Byte): (st: DecoderState)
    requires 0xC2 <= b <= 0xF4
    ensures Sound(st) && st.Pending?
  {
    if b <= 0xDF then Pending(b - 0xC0, 0, 1, 0x80, 0xBF)
    else if b <= 0xEF then Pending(b - 0xE0, 0, 2, if b == 0xE0 then 0xA0 else 0x80, if b == 0xED then 0x9F else 0xBF)
    else Pending(b - 0xF0, 0, 3, if b == 0xF0 then 0x90 else 0x80, if b == 0xF4 then 0x8F else 0xBF)
  }

  /** An accepted continuation byte keeps the state sound, and the last one
      completes a scalar value. */
  lemma ContinueSound(st: DecoderState, b: int)
    requires Sound(st) && st.Pending? && st.lower <= b <= st.upper
    ensures st.seen + 1 == st.needed ==> IsScalar(st.codePoint * 64 + (b - 0x80))
    ensures st.seen + 1 < st.needed ==>
      Sound(Pending(st.codePoint * 64 + (b - 0x80), st.seen + 1, st.needed, 0x80, 0xBF))
  {
    var r := st.needed - st.seen;
    assert r == 1 || r == 2 || r == 3;
  }

  /** The decoder from a given state; every error yields U+FFFD. A byte
      outside the boundaries ends the pending character with an error and is
      then decoded afresh. */
  function Utf8DecodeFrom(st: DecoderState, bs: seq<Byte>): string
    requires Sound(st)
    decreases |bs|, if st.Pending? then 1 else 0
  {
    if bs == [] then (if st.Pending? then [REPLACEMENT] else [])
    else
      var b := bs[0];
      match st
      case Ready =>
        if b <= 0x7F then [b as char] + Utf8DecodeFrom(Ready, bs[1..])
        else if 0xC2 <= b <= 0xF4 then Utf8DecodeFrom(LeadState(b), bs[1..])
        else [REPLACEMENT] + Utf8DecodeFrom(Ready, bs[1..])
      case Pending(cp, seen, needed, lower, upper) =>
        if b < lower || upper < b then [REPLACEMENT] + Utf8DecodeFrom(Ready, bs)
        else
          ContinueSound(st, b);
          var next := cp * 64 + (b - 0x80);
          if seen + 1 == needed then [next as char] + Utf8DecodeFrom(Ready, bs[1..])
          else Utf8DecodeFrom(Pending(next, seen + 1, needed, 0x80, 0xBF), bs[1..])
  }

  /** UTF-8 decode without BOM. */
  function Utf8Decode(bs: seq<Byte>): string {
    Utf8DecodeFrom(Ready, bs)
  }

  lemma DivSplit(n: int)
    requires 0 <= n
    ensures n / 4096 == n / 64 / 64
    ensures n / 262144 == n / 4096 / 64
  {
  }

  /* One decoder step at a time, so that each unfolding stays small. */

  lemma LeadStep(b: Byte, rest: seq<Byte>)
    requires 0xC2 <= b <= 0xF4
    ensures Utf8DecodeFrom(Ready, [b] + rest) == Utf8DecodeFrom(LeadState(b), rest)
  {
    assert ([b] + rest)[1..] == rest;
  }

  lemma ContinueStep(st: DecoderState, b: Byte, rest: seq<Byte>)
    requires Sound(st) && st.Pending? && st.lower <= b <= st.upper && st.seen + 1 < st.needed
    ensures Sound(Pending(st.codePoint * 64 + (b - 0x80), st.seen + 1, st.needed, 0x80, 0xBF))
    ensures Utf8DecodeFrom(st, [b] + rest)
         == Utf8DecodeFrom(Pending(st.codePoint * 64 + (b - 0x80), st.seen + 1, st.needed, 0x80, 0xBF), rest)
  {
    ContinueSound(st, b);
    assert ([b] + rest)[1..] == rest;
  }

  lemma FinishStep(st: DecoderState, b: Byte, rest: seq<Byte>)
    requires Sound(st) && st.Pending? && st.lower <= b <= st.upper && st.seen + 1 == st.needed
    ensures IsScalar(st.codePoint * 64 + (b - 0x80))
    ensures Utf8DecodeFrom(st, [b] + rest) == [(st.codePoint * 64 + (b - 0x80)) as char] + Utf8DecodeFrom(Ready, rest)
  {
    ContinueSound(st, b);
    assert ([b] + rest)[1..] == rest;
  }

  lemma DecodeTwo(c: char, rest: seq<Byte>)
    requires 0x80 <= c as int < 0x800
    ensures Utf8DecodeFrom(Ready, Utf8(c) + rest) == [c] + Utf8DecodeFrom(Ready, rest)
  {
    var n := c as int;
    var b0, b1 := 0xC0 + n / 64, 0x80 + n % 64;
    assert Utf8(c) + rest == [b0] + ([b1] + rest);
    LeadStep(b0, [b1] + rest);
    FinishStep(LeadState(b0), b1, rest);
    assert n / 64 * 64 + n % 64 == n;
  }

  lemma DecodeThree(c: char, rest: seq<Byte>)
    requires 0x800 <= c as int < 0x10000
    ensures Utf8DecodeFrom(Ready, Utf8(c) + rest) == [c] + Utf8DecodeFrom(Ready, rest)
  {
    var n := c as int;
    DivSplit(n);
    var b0, b1, b2 := 0xE0 + n / 4096, 0x80 + n / 64 % 64, 0x80 + n % 64;
    assert Utf8(c) + rest == [b0] + ([b1] + ([b2] + rest));
    LeadStep(b0, [b1] + ([b2] + rest));
    var st1 := LeadState(b0);
    assert st1.codePoint == n / 4096 && st1.lower <= b1 <= st1.upper;
    ContinueStep(st1, b1, [b2] + rest);
    assert n / 4096 * 64 + n / 64 % 64 == n / 64;
    FinishStep(Pending(n / 64, 1, 2, 0x80, 0xBF), b2, rest);
    assert n / 64 * 64 + n % 64 == n;
  }

  lemma DecodeFour(c: char, rest: seq<Byte>)
    requires 0x10000 <= c as int
    ensures Utf8DecodeFrom(Ready, Utf8(c) + rest) == [c] + Utf8DecodeFrom(Ready, rest)
  {
    var n := c as int;
    DivSplit(n);
    var b0, b1, b2, b3 := 0xF0 + n / 262144, 0x80 + n / 4096 % 64, 0x80 + n / 64 % 64, 0x80 + n % 64;
    assert Utf8(c) + rest == [b0] + ([b1] + ([b2] + ([b3] + rest)));
    LeadStep(b0, [b1] + ([b2] + ([b3] + rest)));
    var st1 := LeadState(b0);
    assert st1.codePoint == n / 262144 && st1.lower <= b1 <= st1.upper;
    ContinueStep(st1, b1, [b2] + ([b3] + rest));
    assert n / 262144 * 64 + n / 4096 % 64 == n / 4096;
    ContinueStep(Pending(n / 4096, 1, 3, 0x80, 0xBF), b2, [b3] + rest);
    assert n / 4096 * 64 + n / 64 % 64 == n / 64;
    FinishStep(Pending(n / 64, 2, 3, 0x80, 0xBF), b3, rest);
    assert n / 64 * 64 + n % 64 == n;
  }

  /** The decoder reads back exactly the character whose octets it is given. */
  lemma DecodeChar(c: char, rest: seq<Byte>)
    ensures Utf8DecodeFrom(Ready, Utf8(c) + rest) == [c] + Utf8DecodeFrom(Ready, rest)
  {
    var n := c as int;
    if n < 0x80 {
      assert (Utf8(c) + rest)[1..] == rest;
    } else if n < 0x800 {
      DecodeTwo(c, rest);
    } else if n < 0x10000 {
      DecodeThree(c, rest);
    } else {
      DecodeFour(c, rest);
    }
  }

  lemma {:induction false} Utf8RoundTrip(s: string)
    ensures Utf8Decode(Utf8Encode(s)) == s
  {
    if s != [] {
      DecodeChar(s[0], Utf8Encode(s[1..]));
      Utf8RoundTrip(s[1..]);
    }
  }

  /* ---------- application/x-www-form-urlencoded (URL Standard, section 5.1) ---------- */

  const AMPERSAND: Byte := 0x26
  const EQUALS: Byte := 0x3D
  const PLUS: Byte := 0x2B
  const SPACE: Byte := 0x20

  /** Splitting on a byte; empty pieces are kept. */
  function Split(bs: seq<Byte>, sep: Byte): (r: seq<seq<Byte>>)
    ensures |r| >= 1
    ensures forall k :: 0 <= k < |r| ==> sep !in r[k]
  {
    if bs == [] then [[]]
    else
      var rest := Split(bs[1..], sep);
      if bs[0] == sep then [[]] + rest else [[bs[0]] + rest[0]] + rest[1..]
  }

  lemma {:induction false} SplitWithoutSeparator(bs: seq<Byte>, sep: Byte)
    requires sep !in bs
    ensures Split(bs, sep) == [bs]
  {
    if bs != [] {
      SplitWithoutSeparator(bs[1..], sep);
      assert [bs[0]] + bs[1..] == bs;
    }
  }

  /** Position of the first `b`, or the length when there is none. */
  function IndexOf(bs: seq<Byte>, b: Byte): (i: nat)
    ensures i <= |bs|
    ensures b !in bs[..i]
    ensures i < |bs| ==> bs[i] == b
  {
    if bs == [] then 0
    else if bs[0] == b then 0
    else
      var j := IndexOf(bs[1..], b);
      assert bs[..j + 1] == [bs[0]] + bs[1..][..j];
      j + 1
  }

  function PlusToSpace(bs: seq<Byte>): (r: seq<Byte>)
    ensures |r| == |bs|
    ensures forall k :: 0 <= k < |bs| ==> r[k] == if bs[k] == PLUS then SPACE else bs[k]
  {
    seq(|bs|, k requires 0 <= k < |bs| => if bs[k] == PLUS then SPACE else bs[k])
  }

  /** `+` to space, percent-decode, UTF-8 decode. */
  function DecodeFormComponent(bs: seq<Byte>): string {
    Utf8Decode(PercentDecode(PlusToSpace(bs)))
  }

  /** One `name=value` sequence; without `=` the whole is the name. */
  function ParsePair(bs: seq<Byte>): (string, string) {
    var i := IndexOf(bs, EQUALS);
    (DecodeFormComponent(bs[..i]), DecodeFormComponent(if i < |bs| then bs[i + 1..] else []))
  }

  /** The name/value list, in order, skipping empty sequences. */
  function ParseSequences(pieces: seq<seq<Byte>>): seq<(string, string)> {
    if pieces == [] then []
    else if pieces[0] == [] then ParseSequences(pieces[1..])
    else [ParsePair(pieces[0])] + ParseSequences(pieces[1..])
  }

  /** `new URLSearchParams(init)`: a leading `?` is dropped and the rest is
      parsed as the UTF-8 bytes of the string. */
  function SearchParams(init: string): (params: seq<(string, string)>)
    ensures init == "" || init == "?" ==> params == []
  {
    var query := if |init| > 0 && init[0] == '?' then init[1..] else init;
    var empty: seq<seq<Byte>> := [[]];
    assert query == "" ==> Split(Utf8Encode(query), AMPERSAND) == empty && empty[1..] == [];
    ParseSequences(Split(Utf8Encode(query), AMPERSAND))
  }

  /** `params.get(name)`: the value of the first pair with that name. */
  function Get(params: seq<(string, string)>, name: string): (r: Option<string>)
    ensures r.Some? <==> exists k :: 0 <= k < |params| && params[k].0 == name
    ensures r.Some? ==> exists k :: 0 <= k < |params| && params[k] == (name, r.value)
                                    && forall j :: 0 <= j < k ==> params[j].0 != name
  {
    if params == [] then None
    else if params[0].0 == name then Some(params[0].1)
    else
      var r := Get(params[1..], name);
      assert forall k :: 1 <= k < |params| ==> params[k] == params[1..][k - 1];
      if r.Some? then FirstPairShift(params, name, r.value); r else r
  }

  /** The first pair named `name` after a head of another name is the first in the whole list. */
  lemma FirstPairShift(params: seq<(string, string)>, name: string, v: string)
    requires params != [] && params[0].0 != name
    requires exists k :: 0 <= k < |params[1..]| && params[1..][k] == (name, v)
                         && forall j :: 0 <= j < k ==> params[1..][j].0 != name
    ensures exists k :: 0 <= k < |params| && params[k] == (name, v)
                        && forall j :: 0 <= j < k ==> params[j].0 != name
  {
    var k :| 0 <= k < |params[1..]| && params[1..][k] == (name, v)
             && forall j :: 0 <= j < k ==> params[1..][j].0 != name;
    assert params[k + 1] == (name, v);
    assert forall j :: 1 <= j < k + 1 ==> params[j] == params[1..][j - 1];
  }

  /* ---------- the round trip ---------- */

  /** An encoded component holds ASCII only, and no `&`, `=` or `+`. */
  lemma EncodedIsPlain(s: string)
    requires IsEncoded(s)
    ensures forall i :: 0 <= i < |s| ==> s[i] as int < 0x80 && s[i] !in "&=+"
  {
    forall i | 0 <= i < |s|
      ensures s[i] as int < 0x80 && s[i] !in "&=+"
    {
      assert IsUnreserved(s[i]) || s[i] == '%';
    }
  }

  /** Hence its bytes hold no separator and no `+`. */
  lemma EncodedBytes(s: string)
    requires IsEncoded(s)
    ensures AMPERSAND !in Utf8Encode(s) && EQUALS !in Utf8Encode(s)
    ensures PlusToSpace(Utf8Encode(s)) == Utf8Encode(s)
  {
    EncodedIsPlain(s);
    Utf8EncodeAscii(s);
    var bs := Utf8Encode(s);
    assert forall k :: 0 <= k < |bs| ==> bs[k] != AMPERSAND && bs[k] != EQUALS && bs[k] != PLUS by {
      forall k | 0 <= k < |bs|
        ensures bs[k] != AMPERSAND && bs[k] != EQUALS && bs[k] != PLUS
      {
        assert bs[k] == s[k] as int;
        assert s[k] !in "&=+";
      }
    }
    assert PlusToSpace(bs) == bs;
  }

  /** The three characters `%XY` of one octet, as bytes. */
  lemma EscapeBytes(b: Byte)
    ensures Utf8Encode(PercentEscapes([b])) == [0x25, HexDigit(b / 16) as int, HexDigit(b % 16) as int]
  {
    var e := PercentEscapes([b]);
    assert e == ['%', HexDigit(b / 16), HexDigit(b % 16)];
    Utf8EncodeAscii(e);
  }

  lemma DecodeOneEscape(b: Byte, rest: seq<Byte>)
    ensures PercentDecode([0x25, HexDigit(b / 16) as int, HexDigit(b % 16) as int] + rest) == [b] + PercentDecode(rest)
  {
    HexDigitValue(b / 16);
    HexDigitValue(b % 16);
    assert ([0x25, HexDigit(b / 16) as int, HexDigit(b % 16) as int] + rest)[3..] == rest;
  }

  lemma {:induction false} DecodeEscapes(bs: seq<Byte>, rest: seq<Byte>)
    ensures PercentDecode(Utf8Encode(PercentEscapes(bs)) + rest) == bs + PercentDecode(rest)
  {
    if bs != [] {
      var b := bs[0];
      var tail := PercentEscapes(bs[1..]);
      assert PercentEscapes(bs) == PercentEscapes([b]) + tail;
      Utf8EncodeAppend(PercentEscapes([b]), tail);
      EscapeBytes(b);
      var head := [0x25, HexDigit(b / 16) as int, HexDigit(b % 16) as int];
      assert Utf8Encode(PercentEscapes(bs)) + rest == head + (Utf8Encode(tail) + rest);
      DecodeOneEscape(b, Utf8Encode(tail) + rest);
      DecodeEscapes(bs[1..], rest);
      calc {
        PercentDecode(Utf8Encode(PercentEscapes(bs)) + rest);
        PercentDecode(head + (Utf8Encode(tail) + rest));
        [b] + PercentDecode(Utf8Encode(tail) + rest);
        [b] + (bs[1..] + PercentDecode(rest));
        { assert bs == [b] + bs[1..]; }
        bs + PercentDecode(rest);
      }
    } else {
      assert Utf8Encode(PercentEscapes(bs)) + rest == rest;
    }
  }

  lemma DecodeEncodedChar(c: char, rest: seq<Byte>)
    ensures PercentDecode(Utf8Encode(EncodeChar(c)) + rest) == Utf8(c) + PercentDecode(rest)
  {
    if IsUnreserved(c) {
      assert Utf8Encode([c]) == Utf8(c);
      assert (Utf8(c) + rest)[1..] == rest;
    } else {
      DecodeEscapes(Utf8(c), rest);
    }
  }

  /** Percent-decoding undoes the percent layer: what remains is the UTF-8 of the original. */
  lemma {:induction false} PercentRoundTrip(s: string)
    ensures PercentDecode(Utf8Encode(EncodeURIComponent(s))) == Utf8Encode(s)
  {
    if s != [] {
      Utf8EncodeAppend(EncodeChar(s[0]), EncodeURIComponent(s[1..]));
      DecodeEncodedChar(s[0], Utf8Encode(EncodeURIComponent(s[1..])));
      PercentRoundTrip(s[1..]);
    } else {
      assert Utf8Encode([]) == [];
    }
  }

  /** Decoding an encoded component gives back the original string. */
  lemma ComponentRoundTrip(s: string)
    ensures DecodeFormComponent(Utf8Encode(EncodeURIComponent(s))) == s
  {
    EncodedBytes(EncodeURIComponent(s));
    PercentRoundTrip(s);
    Utf8RoundTrip(s);
  }

  /** A sequence with an `=` splits at the first one. */
  lemma ParsePairAt(nb: seq<Byte>, vb: seq<Byte>)
    requires EQUALS !in nb
    ensures ParsePair(nb + [EQUALS] + vb) == (DecodeFormComponent(nb), DecodeFormComponent(vb))
  {
    var bs := nb + [EQUALS] + vb;
    assert forall k :: 0 <= k < |nb| ==> bs[k] == nb[k];
    var i := IndexOf(bs, EQUALS);
    assert bs[|nb|] == EQUALS;
    assert i == |nb|;
    assert bs[..i] == nb;
    assert bs[i + 1..] == vb;
  }

  lemma PairBytes(n: string, v: string)
    ensures Utf8Encode(n + "=" + v) == Utf8Encode(n) + [EQUALS] + Utf8Encode(v)
  {
    Utf8EncodeAppend(n + "=", v);
    Utf8EncodeAppend(n, "=");
  }

  /** A query of one encoded pair yields that value for that name, whatever
      characters either holds. */
  lemma QueryRoundTrip(name: string, value: string)
    ensures Get(SearchParams("?" + EncodeURIComponent(name) + "=" + EncodeURIComponent(value)), name) == Some(value)
  {
    var n := EncodeURIComponent(name);
    var v := EncodeURIComponent(value);
    var init := "?" + n + "=" + v;
    assert init[1..] == n + "=" + v;
    EncodedBytes(n);
    EncodedBytes(v);
    PairBytes(n, v);
    var bs := Utf8Encode(n) + [EQUALS] + Utf8Encode(v);
    assert AMPERSAND !in bs;
    SplitWithoutSeparator(bs, AMPERSAND);
    ParsePairAt(Utf8Encode(n), Utf8Encode(v));
    ComponentRoundTrip(name);
    ComponentRoundTrip(value);
    assert ParseSequences([bs]) == [(name, value)];
  }

  /** The same for a name that needs no escaping, as written in a literal query. */
  lemma QueryRoundTripPlain(name: string, value: string)
    requires forall i :: 0 <= i < |name| ==> IsUnreserved(name[i])
    ensures Get(SearchParams("?" + name + "=" + EncodeURIComponent(value)), name) == Some(value)
  {
    QueryRoundTrip(name, value);
  }
}
