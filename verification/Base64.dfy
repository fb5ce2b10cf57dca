/** The hand-written base64 decoder for wasm event attributes, against the encoding of
    section 4 of RFC 4648. */
module Base64 {
  import opened Wrappers
  import opened Bytes

  const PAD: byte := 61

  // ---- RFC 4648, section 4 ----

  type Sextet = v: nat | v < 64

  /** The base64 alphabet. */
  function Symbol(v: Sextet): (c: byte)
    ensures c < 128 && c != PAD && Value(c) == Some(v)
  {
    if v < 26 then v + 65
    else if v < 52 then v - 26 + 97
    else if v < 62 then v - 52 + 48
    else if v == 62 then 43
    else 47
  }

  // The four six-bit fields of a quantum of three bytes.

  function Sextet0(b0: byte): Sextet { b0 / 4 }

  function Sextet1(b0: byte, b1: byte): Sextet { b0 % 4 * 16 + b1 / 16 }

  function Sextet2(b1: byte, b2: byte): Sextet { b1 % 16 * 4 + b2 / 64 }

  function Sextet3(b2: byte): Sextet { b2 % 64 }

  /** Quantum of one, two or three bytes as four characters; the last two may be padding. */
  function EncodeQuantum(x: seq<byte>): (q: seq<byte>)
    requires 1 <= |x| <= 3
    ensures |q| == 4
  {
    if |x| == 1 then [Symbol(Sextet0(x[0])), Symbol(Sextet1(x[0], 0)), PAD, PAD]
    else if |x| == 2 then [Symbol(Sextet0(x[0])), Symbol(Sextet1(x[0], x[1])), Symbol(Sextet2(x[1], 0)), PAD]
    else [Symbol(Sextet0(x[0])), Symbol(Sextet1(x[0], x[1])), Symbol(Sextet2(x[1], x[2])), Symbol(Sextet3(x[2]))]
  }

  function EncodeBytes(x: seq<byte>): seq<byte> {
    if x == [] then []
    else if |x| <= 3 then EncodeQuantum(x)
    else EncodeQuantum(x[..3]) + EncodeBytes(x[3..])
  }

  /** Number of padding characters at the end of the encoding. */
  function PadCount(x: seq<byte>): (n: nat)
    ensures n <= |EncodeBytes(x)|
  {
    if x == [] then 0 else if |x| <= 3 then 3 - |x| else PadCount(x[3..])
  }

  /** The encoding as text, with its padding or with it left off. */
  function Encode(x: seq<byte>, padded: bool): string {
    var q := EncodeBytes(x);
    Text(if padded then q else q[..|q| - PadCount(x)])
  }

  /** ASCII bytes as text. */
  function Text(b: seq<byte>): (s: string)
    ensures |s| == |b|
  {
    seq(|b|, i requires 0 <= i < |b| => b[i] as char)
  }

  // ---- The decoder ----

  /** Unicode White_Space, as `str::trim` uses it. */
  predicate IsWhitespace(c: char) {
    var u := c as int;
    || 0x9 <= u <= 0xD || u == 0x20 || u == 0x85 || u == 0xA0 || u == 0x1680
    || 0x2000 <= u <= 0x200A || u == 0x2028 || u == 0x2029 || u == 0x202F || u == 0x205F || u == 0x3000
  }

  function TrimStart(s: string): string {
    if s != "" && IsWhitespace(s[0]) then TrimStart(s[1..]) else s
  }

  function TrimEnd(s: string): string {
    if s != "" && IsWhitespace(s[|s| - 1]) then TrimEnd(s[..|s| - 1]) else s
  }

  function Utf8Char(c: char): seq<byte> {
    var u := c as int;
    if u < 0x80 then [u]
    else if u < 0x800 then [0xC0 + u / 0x40, 0x80 + u % 0x40]
    else if u < 0x1_0000 then [0xE0 + u / 0x1000, 0x80 + u / 0x40 % 0x40, 0x80 + u % 0x40]
    else [0xF0 + u / 0x4_0000 % 8, 0x80 + u / 0x1000 % 0x40, 0x80 + u / 0x40 % 0x40, 0x80 + u % 0x40]
  }

  function Utf8(s: string): seq<byte> {
    if s == "" then [] else Utf8Char(s[0]) + Utf8(s[1..])
  }

  function Value(c: byte): Option<Sextet> {
    if 65 <= c <= 90 then Some(c - 65)
    else if 97 <= c <= 122 then Some(c - 97 + 26)
    else if 48 <= c <= 57 then Some(c - 48 + 52)
    else if c == 43 then Some(62)
    else if c == 47 then Some(63)
    else None
  }

  // The 8-bit left shifts drop the high bits; the two fields or-ed together are disjoint.

  function FirstByte(a: Sextet, c: Sextet): byte { a * 4 + c / 16 }

  function SecondByte(c: Sextet, d: Sextet): byte { c % 16 * 16 + d / 4 }

  function ThirdByte(d: Sextet, e: Sextet): byte { d % 4 * 64 + e }

  /** One group of four characters. */
  function DecodeGroup(g: seq<byte>): Option<seq<byte>>
    requires |g| == 4
  {
    var pad2, pad3 := g[2] == PAD, g[3] == PAD;
    if pad2 && !pad3 then None
    else
      var a, c := Value(g[0]), Value(g[1]);
      var d := if pad2 then Some(0) else Value(g[2]);
      var e := if pad3 then Some(0) else Value(g[3]);
      if a.None? || c.None? || d.None? || e.None? then None
      else
        var b0, b1, b2 := FirstByte(a.value, c.value), SecondByte(c.value, d.value), ThirdByte(d.value, e.value);
        Some(if pad2 then [b0] else if pad3 then [b0, b1] else [b0, b1, b2])
  }

  /** A leftover of fewer than four characters never occurs behind `PadToGroup`. */
  function DecodeGroups(b: seq<byte>): Option<seq<byte>> {
    if b == [] then Some([])
    else if |b| < 4 then None
    else
      match (DecodeGroup(b[..4]), DecodeGroups(b[4..]))
      case (Some(first), Some(rest)) => Some(first + rest)
      case _ => None
  }

  /** Fill the last group with padding characters. */
  function PadToGroup(b: seq<byte>): (p: seq<byte>)
    ensures |p| % 4 == 0
  {
    b + seq((4 - |b| % 4) % 4, _ => PAD)
  }

  function Decode(s: string): Option<seq<byte>> {
    var t := TrimEnd(TrimStart(s));
    if t == "" then None else DecodeGroups(PadToGroup(Utf8(t)))
  }

  method FillGroup(raw: seq<byte>) returns (b: seq<byte>)
    ensures b == PadToGroup(raw)
  {
    b := raw;
    while |b| % 4 != 0
      invariant |raw| <= |b| <= |PadToGroup(raw)|
      invariant b == raw + seq(|b| - |raw|, _ => PAD)
      decreases |PadToGroup(raw)| - |b|
    {
      b := b + [PAD];
    }
  }

  /** One group of the padded text, read at an index that is always in range. */
  method ReadGroup(b: seq<byte>, i: nat) returns (r: Option<seq<byte>>)
    requires i + 4 <= |b|
    ensures r == DecodeGroup(b[i..i + 4])
  {
    ghost var g := b[i..i + 4];
    assert g[0] == b[i] && g[1] == b[i + 1] && g[2] == b[i + 2] && g[3] == b[i + 3];
    var pad2, pad3 := b[i + 2] == PAD, b[i + 3] == PAD;
    if pad2 && !pad3 {
      return None;
    }
    var a, c := Value(b[i]), Value(b[i + 1]);
    var d := if pad2 then Some(0) else Value(b[i + 2]);
    var e := if pad3 then Some(0) else Value(b[i + 3]);
    if a.None? || c.None? || d.None? || e.None? {
      return None;
    }
    var out := [FirstByte(a.value, c.value)];
    if !pad2 {
      out := out + [SecondByte(c.value, d.value)];
    }
    if !pad3 {
      out := out + [ThirdByte(d.value, e.value)];
    }
    assert out == DecodeGroup(g).value;
    r := Some(out);
  }

  /** The decoder's loop: never reads past the padded text, and computes `Decode`. */
  method StdBase64Decode(s: string) returns (r: Option<seq<byte>>)
    ensures r == Decode(s)
  {
    hide DecodeGroup, TrimStart, TrimEnd, Utf8;
    var t := TrimEnd(TrimStart(s));
    if t == "" {
      return None;
    }
    var b := FillGroup(Utf8(t));
    var out: seq<byte> := [];
    var i := 0;
    ghost var left := |b| / 4;
    assert b[i..] == b;
    PrependNothing(DecodeGroups(b));
    while i < |b|
      invariant |b| == i + 4 * left && left >= 0
      invariant Prepend(out, DecodeGroups(b[i..])) == DecodeGroups(b)
    {
      var group := ReadGroup(b, i);
      assert b[i..][..4] == b[i..i + 4] && b[i..][4..] == b[i + 4..];
      if group.None? {
        return None;
      }
      GroupsStep(b[i..], group.value);
      PrependAssoc(out, group.value, DecodeGroups(b[i + 4..]));
      out := out + group.value;
      i := i + 4;
      left := left - 1;
    }
    assert b[i..] == [] && out + [] == out;
    r := Some(out);
  }

  function Prepend(x: seq<byte>, r: Option<seq<byte>>): Option<seq<byte>> {
    if r.Some? then Some(x + r.value) else None
  }

  lemma PrependNothing(r: Option<seq<byte>>)
    ensures Prepend([], r) == r
  {
    if r.Some? { assert [] + r.value == r.value; }
  }

  lemma PrependAssoc(x: seq<byte>, y: seq<byte>, r: Option<seq<byte>>)
    ensures Prepend(x + y, r) == Prepend(x, Prepend(y, r))
  {
    if r.Some? { assert (x + y) + r.value == x + (y + r.value); }
  }

  lemma GroupsStep(b: seq<byte>, first: seq<byte>)
    requires |b| >= 4 && DecodeGroup(b[..4]) == Some(first)
    ensures DecodeGroups(b) == Prepend(first, DecodeGroups(b[4..]))
  {
  }

  // ---- Round trip ----

  lemma GroupOfSymbols(a: Sextet, c: Sextet, d: Sextet, e: Sextet)
    ensures DecodeGroup([Symbol(a), Symbol(c), PAD, PAD]) == Some([FirstByte(a, c)])
    ensures DecodeGroup([Symbol(a), Symbol(c), Symbol(d), PAD]) == Some([FirstByte(a, c), SecondByte(c, d)])
    ensures DecodeGroup([Symbol(a), Symbol(c), Symbol(d), Symbol(e)])
            == Some([FirstByte(a, c), SecondByte(c, d), ThirdByte(d, e)])
  {
  }

  /** A quantum of one, two or three bytes comes back from its four characters. */
  lemma QuantumRoundTrip(x: seq<byte>)
    requires 1 <= |x| <= 3
    ensures DecodeGroup(EncodeQuantum(x)) == Some(x)
  {
    hide *;
    if |x| == 1 {
      QuantumOfThree(x[0], 0, 0);
      assert x == [x[0]];
    } else if |x| == 2 {
      QuantumOfThree(x[0], x[1], 0);
      assert x == [x[0], x[1]];
    } else {
      QuantumOfThree(x[0], x[1], x[2]);
      assert x == [x[0], x[1], x[2]];
    }
  }

  lemma QuantumOfThree(b0: byte, b1: byte, b2: byte)
    ensures DecodeGroup(EncodeQuantum([b0, b1, b2])) == Some([b0, b1, b2])
    ensures b2 == 0 ==> DecodeGroup(EncodeQuantum([b0, b1])) == Some([b0, b1])
    ensures b1 == b2 == 0 ==> DecodeGroup(EncodeQuantum([b0])) == Some([b0])
  {
    FieldsRejoin(b0, b1, b2);
    GroupOfSymbols(Sextet0(b0), Sextet1(b0, b1), Sextet2(b1, b2), Sextet3(b2));
  }

  lemma FieldsRejoin(b0: byte, b1: byte, b2: byte)
    ensures FirstByte(Sextet0(b0), Sextet1(b0, b1)) == b0
    ensures SecondByte(Sextet1(b0, b1), Sextet2(b1, b2)) == b1
    ensures ThirdByte(Sextet2(b1, b2), Sextet3(b2)) == b2
  {
  }

  lemma GroupsCons(g: seq<byte>, first: seq<byte>, rest: seq<byte>)
    requires |g| == 4 && DecodeGroup(g) == Some(first)
    ensures DecodeGroups(g + rest) == Prepend(first, DecodeGroups(rest))
  {
    assert (g + rest)[..4] == g && (g + rest)[4..] == rest;
    GroupsStep(g + rest, first);
  }

  lemma OneGroup(g: seq<byte>, first: seq<byte>)
    requires |g| == 4 && DecodeGroup(g) == Some(first)
    ensures DecodeGroups(g) == Some(first)
  {
    GroupsCons(g, first, []);
    assert g + [] == g && first + [] == first;
  }

  lemma {:induction false} BytesRoundTrip(x: seq<byte>)
    ensures DecodeGroups(EncodeBytes(x)) == Some(x)
  {
    if 0 < |x| <= 3 {
      QuantumRoundTrip(x);
      OneGroup(EncodeQuantum(x), x);
    } else if x != [] {
      QuantumRoundTrip(x[..3]);
      BytesRoundTrip(x[3..]);
      GroupsCons(EncodeQuantum(x[..3]), x[..3], EncodeBytes(x[3..]));
      assert x[..3] + x[3..] == x;
    }
  }

  predicate Base64Char(c: byte) {
    Value(c).Some? || c == PAD
  }

  lemma {:induction false} EncodingAlphabet(x: seq<byte>)
    ensures forall k :: 0 <= k < |EncodeBytes(x)| ==> Base64Char(EncodeBytes(x)[k])
  {
    if |x| > 3 { EncodingAlphabet(x[3..]); }
  }

  lemma QuantumPadding(x: seq<byte>)
    requires 1 <= |x| <= 3
    ensures EncodeQuantum(x)[1 + |x|..] == seq(3 - |x|, _ => PAD)
  {
  }

  /** The encoding is whole groups, and ends in exactly the padding that its length calls for. */
  lemma {:induction false} EncodingPadding(x: seq<byte>)
    ensures |EncodeBytes(x)| % 4 == 0 && PadCount(x) <= 2
    ensures EncodeBytes(x)[|EncodeBytes(x)| - PadCount(x)..] == seq(PadCount(x), _ => PAD)
  {
    hide EncodeQuantum;
    if 0 < |x| <= 3 {
      QuantumPadding(x);
    } else if |x| > 3 {
      EncodingPadding(x[3..]);
      var rest := EncodeBytes(x[3..]);
      assert EncodeBytes(x)[|EncodeBytes(x)| - PadCount(x)..] == rest[|rest| - PadCount(x)..];
    }
  }

  lemma PadArithmetic(len: nat, n: nat)
    requires len % 4 == 0 && n <= 2 && n <= len
    ensures (4 - (len - n) % 4) % 4 == n && (4 - len % 4) % 4 == 0
  {
  }

  lemma {:induction false} UnpaddedLength(x: seq<byte>)
    ensures 4 * |x| <= 3 * (|EncodeBytes(x)| - PadCount(x)) <= 4 * |x| + 2
  {
    if |x| > 3 { UnpaddedLength(x[3..]); }
  }

  /** Leaving the padding off and filling the last group again gives the padded encoding. */
  lemma RefillPadding(x: seq<byte>)
    ensures PadToGroup(EncodeBytes(x)) == EncodeBytes(x)
    ensures PadToGroup(EncodeBytes(x)[..|EncodeBytes(x)| - PadCount(x)]) == EncodeBytes(x)
  {
    hide EncodeBytes, PadCount;
    EncodingPadding(x);
    var q, n := EncodeBytes(x), PadCount(x);
    PadArithmetic(|q|, n);
    assert q == q[..|q| - n] + q[|q| - n..];
  }

  lemma {:induction false} AsciiUtf8(b: seq<byte>)
    requires forall k :: 0 <= k < |b| ==> b[k] < 128
    ensures Utf8(Text(b)) == b
  {
    if b != [] {
      assert Text(b)[1..] == Text(b[1..]);
      AsciiUtf8(b[1..]);
      assert b == [b[0]] + b[1..];
    }
  }

  lemma TrimNothing(b: seq<byte>)
    requires forall k :: 0 <= k < |b| ==> Base64Char(b[k])
    ensures TrimEnd(TrimStart(Text(b))) == Text(b)
  {
  }

  lemma DecodeText(b: seq<byte>)
    requires b != [] && forall k :: 0 <= k < |b| ==> Base64Char(b[k])
    ensures Decode(Text(b)) == DecodeGroups(PadToGroup(b))
  {
    TrimNothing(b);
    AsciiUtf8(b);
  }

  /** The decoder inverts the RFC 4648 encoding of every nonempty byte string, with the trailing
      padding or without it. */
  lemma DecodeInvertsEncode(x: seq<byte>, padded: bool)
    requires x != []
    ensures Decode(Encode(x, padded)) == Some(x)
  {
    UnpaddedLength(x);
    EncodingAlphabet(x);
    RefillPadding(x);
    BytesRoundTrip(x);
    hide EncodeBytes, PadCount, DecodeGroups, PadToGroup, Decode;
    var q := EncodeBytes(x);
    DecodeText(if padded then q else q[..|q| - PadCount(x)]);
  }

  // ---- Which texts are encodings ----

  /** The bits that a padded group leaves over are zero. */
  predicate UnusedBitsZero(g: seq<byte>)
    requires |g| == 4
  {
    if g[2] == PAD then Value(g[1]).Some? && Value(g[1]).value % 16 == 0
    else g[3] == PAD ==> Value(g[2]).Some? && Value(g[2]).value % 4 == 0
  }

  /** Padding only in the last group, and nothing in the bits it leaves over. */
  predicate Canonical(c: seq<byte>)
    requires c != [] && |c| % 4 == 0
  {
    (forall i :: 0 <= i < |c| - 4 ==> c[i] != PAD) && UnusedBitsZero(c[|c| - 4..])
  }

  lemma SymbolOfValue(c: byte)
    requires Value(c).Some?
    ensures c != PAD && Symbol(Value(c).value) == c
  {
  }

  lemma FieldsSplit(a: Sextet, c: Sextet, d: Sextet, e: Sextet)
    ensures Sextet0(FirstByte(a, c)) == a
    ensures Sextet1(FirstByte(a, c), SecondByte(c, d)) == c
    ensures Sextet2(SecondByte(c, d), ThirdByte(d, e)) == d
    ensures Sextet3(ThirdByte(d, e)) == e
  {
  }

  lemma LeftoverFields(a: Sextet, c: Sextet, d: Sextet)
    ensures Sextet1(FirstByte(a, c), 0) == c <==> c % 16 == 0
    ensures Sextet2(SecondByte(c, d), 0) == d <==> d % 4 == 0
  {
    assert (a * 4 + c / 16) % 4 == c / 16;
    assert (c % 16 * 16 + d / 4) % 16 == d / 4;
  }

  /** A group decodes to one to three bytes; encoding those gives it back exactly when its leftover
      bits are zero. */
  lemma GroupInverse(g: seq<byte>, y: seq<byte>)
    requires |g| == 4 && DecodeGroup(g) == Some(y)
    ensures 1 <= |y| <= 3 && (|y| == 3 <==> g[3] != PAD) && g[0] != PAD && g[1] != PAD && (|y| == 3 ==> g[2] != PAD)
    ensures EncodeQuantum(y) == g <==> UnusedBitsZero(g)
  {
    SymbolOfValue(g[0]);
    SymbolOfValue(g[1]);
    var a, c := Value(g[0]).value, Value(g[1]).value;
    if g[2] == PAD {
      FieldsSplit(a, c, 0, 0);
      LeftoverFields(a, c, 0);
      SymbolsApart(Sextet1(FirstByte(a, c), 0), c);
      assert EncodeQuantum(y) == [g[0], Symbol(Sextet1(y[0], 0)), PAD, PAD];
      assert g == [g[0], g[1], PAD, PAD];
    } else if g[3] == PAD {
      SymbolOfValue(g[2]);
      var d := Value(g[2]).value;
      FieldsSplit(a, c, d, 0);
      LeftoverFields(a, c, d);
      SymbolsApart(Sextet2(SecondByte(c, d), 0), d);
      assert EncodeQuantum(y) == [g[0], g[1], Symbol(Sextet2(y[1], 0)), PAD];
      assert g == [g[0], g[1], g[2], PAD];
    } else {
      SymbolOfValue(g[2]);
      SymbolOfValue(g[3]);
      FieldsSplit(a, c, Value(g[2]).value, Value(g[3]).value);
      assert g == [g[0], g[1], g[2], g[3]];
    }
  }

  lemma SymbolsApart(v: Sextet, w: Sextet)
    ensures Symbol(v) == Symbol(w) <==> v == w
  {
    assert Value(Symbol(v)) == Some(v) && Value(Symbol(w)) == Some(w);
  }

  lemma EncodedHead(x: seq<byte>)
    requires x != []
    ensures |x| <= 3 ==> EncodeBytes(x) == EncodeQuantum(x)
    ensures |x| > 3 ==>
              && EncodeBytes(x) == EncodeQuantum(x[..3]) + EncodeBytes(x[3..])
              && EncodeBytes(x)[3] != PAD
  {
  }

  lemma DecodedHead(c: seq<byte>)
    requires |c| >= 4 && DecodeGroups(c).Some?
    ensures DecodeGroup(c[..4]).Some? && DecodeGroups(c[4..]).Some?
    ensures DecodeGroups(c).value == DecodeGroup(c[..4]).value + DecodeGroups(c[4..]).value
    ensures |c| == 4 ==> DecodeGroups(c[4..]).value == []
  {
  }

  lemma CanonicalTail(c: seq<byte>)
    requires |c| >= 4 && |c| % 4 == 0
    ensures |c| == 4 ==> (Canonical(c) <==> UnusedBitsZero(c))
    ensures |c| > 4 && c[3] == PAD ==> !Canonical(c)
    ensures |c| > 4 && (forall i :: 0 <= i < 4 ==> c[i] != PAD) ==> (Canonical(c) <==> Canonical(c[4..]))
  {
    hide UnusedBitsZero;
    assert c[|c| - 4..][..4] == c[|c| - 4..];
    if |c| == 4 {
      assert c[0..] == c;
    } else {
      var rest := c[4..];
      assert rest[|rest| - 4..] == c[|c| - 4..];
      assert forall i :: 4 <= i < |c| - 4 ==> c[i] == rest[i - 4];
      assert forall i :: 0 <= i < |rest| - 4 ==> rest[i] == c[i + 4];
    }
  }

  /** Among the texts that decode, exactly the canonical ones are the encoding of what they decode to. */
  lemma {:induction false} CanonicalIff(c: seq<byte>, x: seq<byte>)
    requires c != [] && |c| % 4 == 0 && DecodeGroups(c) == Some(x)
    ensures x != [] && (EncodeBytes(x) == c <==> Canonical(c))
    decreases |c|
  {
    hide DecodeGroups, DecodeGroup, EncodeBytes, EncodeQuantum, Canonical, UnusedBitsZero;
    var g, rest := c[..4], c[4..];
    DecodedHead(c);
    var y, z := DecodeGroup(g).value, DecodeGroups(rest).value;
    GroupInverse(g, y);
    EncodedHead(x);
    CanonicalTail(c);
    if |c| == 4 {
      assert g == c && x == y;
    } else {
      CanonicalIff(rest, z);
      if |y| == 3 {
        assert x[..3] == y && x[3..] == z;
        FullGroupCanonical(g);
        SplitEqual(EncodeQuantum(y), EncodeBytes(z), g, rest);
      }
    }
  }

  lemma FullGroupCanonical(g: seq<byte>)
    requires |g| == 4 && g[2] != PAD && g[3] != PAD
    ensures UnusedBitsZero(g)
  {
  }

  lemma SplitEqual(a: seq<byte>, b: seq<byte>, c: seq<byte>, d: seq<byte>)
    requires |a| == |c|
    ensures a + b == c + d <==> a == c && b == d
  {
    if a + b == c + d {
      assert a == (a + b)[..|a|] && c == (c + d)[..|c|] && b == (a + b)[|a|..] && d == (c + d)[|c|..];
    }
  }

  /** The padded text that the decoder's loop runs over. */
  function PaddedText(s: string): seq<byte> {
    PadToGroup(Utf8(TrimEnd(TrimStart(s))))
  }

  /** A text that the decoder accepts is, up to trimming and trailing padding, the encoding of the
      result exactly when it is canonical. */
  lemma DecodedTextIsEncodingIff(s: string)
    requires Decode(s).Some?
    ensures PaddedText(s) != []
    ensures EncodeBytes(Decode(s).value) == PaddedText(s) <==> Canonical(PaddedText(s))
  {
    var t := TrimEnd(TrimStart(s));
    hide DecodeGroups, EncodeBytes, Canonical;
    assert |Utf8Char(t[0])| > 0;
    CanonicalIff(PaddedText(s), Decode(s).value);
  }

  /** So a text that decodes like a canonical one is that text exactly when it is canonical too. */
  lemma DecodeAlikeIff(s: string, t: string)
    requires Decode(s).Some? && Decode(s) == Decode(t)
    ensures PaddedText(s) != [] && PaddedText(t) != []
    ensures Canonical(PaddedText(s)) ==> (PaddedText(t) == PaddedText(s) <==> Canonical(PaddedText(t)))
  {
    hide Decode, PaddedText, Canonical, EncodeBytes;
    DecodedTextIsEncodingIff(s);
    DecodedTextIsEncodingIff(t);
  }

  lemma TextDecodes(b: seq<byte>, x: seq<byte>)
    requires b != [] && |b| % 4 == 0 && (forall k :: 0 <= k < |b| ==> Base64Char(b[k])) && DecodeGroups(b) == Some(x)
    ensures Decode(Text(b)) == Some(x)
  {
    hide DecodeGroups, Decode;
    DecodeText(b);
    assert PadToGroup(b) == b;
  }

  /** Two texts that differ only in leftover bits decode to the same byte. */
  lemma LeftoverBitsIgnored()
    ensures Decode("QQ==") == Decode("QR==") == Some([0x41])
  {
    var a, b: seq<byte> := [81, 81, PAD, PAD], [81, 82, PAD, PAD];
    OneGroup(a, [0x41]);
    OneGroup(b, [0x41]);
    hide DecodeGroups, DecodeGroup, Decode;
    TextDecodes(a, [0x41]);
    TextDecodes(b, [0x41]);
    assert Text(a) == "QQ==" && Text(b) == "QR==";
  }

  /** Padding inside a text is accepted. */
  lemma InnerPaddingAccepted()
    ensures Decode("QQ==QQ==") == Some([0x41, 0x41])
  {
    var a: seq<byte>, one: seq<byte> := [81, 81, PAD, PAD], [0x41];
    assert DecodeGroup(a) == Some(one);
    hide DecodeGroups, DecodeGroup, Decode;
    OneGroup(a, one);
    GroupsCons(a, one, a);
    assert one + one == [0x41, 0x41];
    var b: seq<byte> := [81, 81, PAD, PAD, 81, 81, PAD, PAD];
    assert a + a == b;
    TextDecodes(b, one + one);
    assert Text(b) == "QQ==QQ==";
  }

  // ---- Attribute normalisation ----

  const WASM_CLOSE_KEYS: seq<string> := [
    "action", "cell_id", "closer", "earned_zat", "remainder_zat", "settle",
    "accrual_commitment", "open_header_hash", "close_header_hash", "_contract_address"]

  predicate Printable(b: seq<byte>) {
    forall i :: 0 <= i < |b| ==> 0x20 <= b[i] <= 0x7e
  }

  /** Decoded text, kept only when it is nonempty printable ASCII (which is always valid UTF-8). */
  function Base64Ascii(s: string): Option<string> {
    match Decode(s)
    case None => None
    case Some(raw) => if raw == [] || !Printable(raw) then None else Some(Text(raw))
  }

  function NormalizeWasmAttr(k: string, v: string): (string, string) {
    if k in WASM_CLOSE_KEYS then (k, v)
    else
      match Base64Ascii(k)
      case Some(dk) =>
        if dk in WASM_CLOSE_KEYS
        then (dk, match Base64Ascii(v) case Some(dv) => dv case None => v)
        else (k, v)
      case None => (k, v)
  }

  /** Every close key either holds an underscore, which base64 never does, or has six characters,
      which encodes no close key. */
  lemma EncodedKeyIsNoKey(k: seq<byte>, padded: bool)
    requires Printable(k) && Text(k) in WASM_CLOSE_KEYS
    ensures Encode(k, padded) !in WASM_CLOSE_KEYS
  {
    hide EncodeBytes, PadCount;
    EncodingAlphabet(k);
    EncodingPadding(k);
    UnpaddedLength(k);
    var e := Encode(k, padded);
    assert |k| == |Text(k)| && |k| != 4;
    assert forall i :: 0 <= i < |e| ==> e[i] != '_';
    assert |e| != 6;
    assert "cell_id"[4] == '_' && "earned_zat"[6] == '_' && "remainder_zat"[9] == '_';
    assert "accrual_commitment"[7] == '_' && "open_header_hash"[4] == '_';
    assert "close_header_hash"[5] == '_' && "_contract_address"[0] == '_';
  }

  lemma EmptyText(padded: bool)
    ensures Encode([], padded) == "" == Text([]) && Decode("").None?
  {
  }

  /** A close attribute sent in base64, with or without padding, normalises to the plain one. */
  lemma WrappedCloseAttrNormalises(k: seq<byte>, v: seq<byte>, padKey: bool, padValue: bool)
    requires Printable(k) && Text(k) in WASM_CLOSE_KEYS
    requires Printable(v)
    ensures NormalizeWasmAttr(Encode(k, padKey), Encode(v, padValue)) == (Text(k), Text(v))
    ensures NormalizeWasmAttr(Text(k), Text(v)) == (Text(k), Text(v))
  {
    hide Decode, EncodeBytes, PadCount;
    EncodedKeyIsNoKey(k, padKey);
    assert Text(k) != "";
    DecodeInvertsEncode(k, padKey);
    if v == [] {
      EmptyText(padValue);
    } else {
      DecodeInvertsEncode(v, padValue);
    }
  }

  /** Exactly which attributes are rewritten: those whose key is no close key but decodes to one. */
  lemma NormalisesIff(k: string, v: string)
    ensures var (nk, nv) := NormalizeWasmAttr(k, v);
            var wrapped := && k !in WASM_CLOSE_KEYS && Decode(k).Some? && Decode(k).value != []
                           && Printable(Decode(k).value) && Text(Decode(k).value) in WASM_CLOSE_KEYS;
            && (nk != k ==> wrapped)
            && (wrapped ==> nk == Text(Decode(k).value))
            && (!wrapped ==> nv == v)
            && (wrapped ==> nv == if Decode(v).Some? && Decode(v).value != [] && Printable(Decode(v).value)
                                  then Text(Decode(v).value) else v)
  {
    hide Decode;
  }

  predicate AllBlank(s: string) {
    forall i :: 0 <= i < |s| ==> IsWhitespace(s[i])
  }

  lemma {:induction false} TrimStartBlank(a: string, s: string)
    requires AllBlank(a)
    ensures TrimStart(a + s) == TrimStart(s)
    decreases |a|
  {
    if a == "" {
      assert a + s == s;
    } else {
      assert (a + s)[1..] == a[1..] + s;
      TrimStartBlank(a[1..], s);
    }
  }

  lemma {:induction false} TrimEndBlank(s: string, b: string)
    requires AllBlank(b)
    ensures TrimEnd(s + b) == TrimEnd(s)
    decreases |b|
  {
    if b == "" {
      assert s + b == s;
    } else {
      var n := |b| - 1;
      assert (s + b)[..|s + b| - 1] == s + b[..n];
      TrimEndBlank(s, b[..n]);
    }
  }

  lemma {:induction false} TrimStartSplit(s: string, b: string)
    ensures TrimStart(s) != "" ==> TrimStart(s + b) == TrimStart(s) + b
    ensures TrimStart(s) == "" ==> AllBlank(s)
    decreases |s|
  {
    if s != "" && IsWhitespace(s[0]) {
      assert (s + b)[1..] == s[1..] + b;
      TrimStartSplit(s[1..], b);
      assert forall i :: 1 <= i < |s| ==> s[i] == s[1..][i - 1];
    }
  }

  /** White space around a text makes no difference. */
  lemma BlanksIgnored(a: string, s: string, b: string)
    requires AllBlank(a) && AllBlank(b)
    ensures Decode(a + s + b) == Decode(s)
  {
    hide DecodeGroups, PadToGroup, Utf8, IsWhitespace;
    assert a + s + b == a + (s + b);
    TrimStartBlank(a, s + b);
    TrimStartSplit(s, b);
    if TrimStart(s) == "" {
      TrimStartBlank(s, b);
      TrimStartBlank(b, "");
      assert b + "" == b;
    } else {
      TrimEndBlank(TrimStart(s), b);
    }
  }
}
