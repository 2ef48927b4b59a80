/** Base64 without padding (section 4 of RFC 4648) and the Ed25519 public-key blob (section 4 of
    RFC 8709 in the string format of section 5 of RFC 4251). */
module PublicKeys {
  import opened Prelude

  type Bytes = seq<Byte>

  const MAX_PUBLIC_KEY_BYTES := 16 * 1024
  const PAD: Byte := 0x3D

  /** The base64 alphabet. */
  function Symbol(v: nat): Byte
    requires v < 64
  {
    if v < 26 then v + 0x41
    else if v < 52 then v - 26 + 0x61
    else if v < 62 then v - 52 + 0x30
    else if v == 62 then 0x2B else 0x2F
  }

  /** `base64_value`. */
  function DigitOf(c: Byte): (v: Option<nat>)
    ensures v.Some? ==> v.value < 64 && Symbol(v.value) == c
    ensures v.None? ==> forall d | 0 <= d < 64 :: Symbol(d) != c
  {
    if 0x41 <= c <= 0x5A then Some(c - 0x41)
    else if 0x61 <= c <= 0x7A then Some(c - 0x61 + 26)
    else if 0x30 <= c <= 0x39 then Some(c - 0x30 + 52)
    else if c == 0x2B then Some(62)
    else if c == 0x2F then Some(63)
    else None
  }

  // ---- Groups of 24 bits -------------------------------------------------------------------------

  predicate AreDigits(ds: seq<nat>) { forall i | 0 <= i < |ds| :: ds[i] < 64 }

  function At(xs: seq<nat>, i: nat): nat { if i < |xs| then xs[i] else 0 }

  /** The number three bytes stand for; missing ones count as zero. */
  function BytesValue(b: seq<nat>): nat { At(b, 0) * 0x1_0000 + At(b, 1) * 0x100 + At(b, 2) }

  /** The number four digits stand for; missing ones count as zero. */
  function DigitsValue(ds: seq<nat>): nat { At(ds, 0) * 0x4_0000 + At(ds, 1) * 0x1000 + At(ds, 2) * 0x40 + At(ds, 3) }

  /** One to three bytes and one digit more stand for the same 24 bits. */
  predicate IsGroup(b: Bytes, ds: seq<nat>) {
    1 <= |b| <= 3 && |ds| == |b| + 1 && AreDigits(ds) && BytesValue(b) == DigitsValue(ds)
  }

  /** `x` cut into the part above `2^n` and the part below. */
  method Cut(x: nat, n: nat) returns (high: nat, low: nat)
    requires n in {0, 2, 4, 6}
    ensures n == 0 ==> high == x && low == 0
    ensures n == 2 ==> x == high * 4 + low && low < 4
    ensures n == 4 ==> x == high * 16 + low && low < 16
    ensures n == 6 ==> x == high * 64 + low && low < 64
  {
    var power := if n == 0 then 1 else if n == 2 then 4 else if n == 4 then 16 else 64;
    high, low := x / power, x % power;
  }

  lemma SomeDigits(b: Bytes)
    requires 1 <= |b| <= 3
    ensures exists ds :: IsGroup(b, ds)
  {
    var a: int, c: int, e: int := b[0], At(b, 1), At(b, 2);
    SpreadBits(a, c, e);
    var ds: seq<nat> := [a / 4, a % 4 * 16 + c / 16, c % 16 * 4 + e / 64, e % 64];
    assert IsGroup(b, ds[..|b| + 1]);
  }

  lemma SpreadBits(a: int, c: int, e: int)
    requires 0 <= a < 256 && 0 <= c < 256 && 0 <= e < 256
    ensures var p, q, r, s := a / 4, a % 4 * 16 + c / 16, c % 16 * 4 + e / 64, e % 64;
      && 0 <= p < 64 && 0 <= q < 64 && 0 <= r < 64 && 0 <= s < 64
      && a * 0x1_0000 + c * 0x100 + e == p * 0x4_0000 + q * 0x1000 + r * 0x40 + s
      && (e == 0 ==> s == 0) && (e == 0 && c == 0 ==> r == 0)
  {
  }

  lemma OneGroup(b: Bytes, ds: seq<nat>, other: seq<nat>)
    requires IsGroup(b, ds) && IsGroup(b, other)
    ensures ds == other
  {
    assert At(ds, 0) == At(other, 0) && At(ds, 1) == At(other, 1) && At(ds, 2) == At(other, 2)
      && At(ds, 3) == At(other, 3);
    forall i | 0 <= i < |ds| ensures ds[i] == other[i] { assert At(ds, i) == At(other, i); }
  }

  lemma SameBytes(b: Bytes, other: Bytes, ds: seq<nat>)
    requires IsGroup(b, ds) && IsGroup(other, ds)
    ensures b == other
  {
    assert At(b, 0) == At(other, 0) && At(b, 1) == At(other, 1) && At(b, 2) == At(other, 2);
    forall i | 0 <= i < |b| ensures b[i] == other[i] { assert At(b, i) == At(other, i); }
  }

  /** The digits of a chunk. */
  ghost function ChunkDigits(b: Bytes): (ds: seq<nat>)
    requires 1 <= |b| <= 3
    ensures IsGroup(b, ds)
  {
    SomeDigits(b);
    var ds :| IsGroup(b, ds);
    ds
  }

  // ---- Encoding ------------------------------------------------------------------------------

  function Symbols(ds: seq<nat>): (r: Bytes)
    requires AreDigits(ds)
    ensures |r| == |ds| && forall i | 0 <= i < |ds| :: r[i] == Symbol(ds[i])
  {
    seq(|ds|, i requires 0 <= i < |ds| => Symbol(ds[i]))
  }

  /** Where the last chunk of `n` bytes begins. */
  function LastChunk(n: nat): (k: nat)
    requires n > 0
    ensures k < n <= k + 3 && k % 3 == 0
  {
    n - (if n % 3 == 0 then 3 else n % 3)
  }

  /** Section 4 of RFC 4648, with the zero pad bits of section 3.5 and no padding characters. */
  ghost function Encode(b: Bytes): (r: Bytes) {
    if b == [] then [] else
      var n := LastChunk(|b|);
      Encode(b[..n]) + Symbols(ChunkDigits(b[n..]))
  }

  lemma EncodeUnfolds(b: Bytes, k: nat)
    requires k < |b| <= k + 3 && k % 3 == 0
    ensures Encode(b) == Encode(b[..k]) + Symbols(ChunkDigits(b[k..]))
  {
    assert LastChunk(|b|) == k;
  }

  lemma EncodeSnoc(b: Bytes, k: nat, ds: seq<nat>)
    requires k < |b| <= k + 3 && k % 3 == 0 && IsGroup(b[k..], ds)
    ensures Encode(b) == Encode(b[..k]) + Symbols(ds)
  {
    EncodeUnfolds(b, k);
    OneGroup(b[k..], ds, ChunkDigits(b[k..]));
  }

  /** The digits pushed for one chunk. */
  method PushChunk(chunk: Bytes) returns (digits: seq<nat>)
    requires 1 <= |chunk| <= 3
    ensures IsGroup(chunk, digits)
  {
    var second := if |chunk| > 1 then chunk[1] else 0;
    var third := if |chunk| > 2 then chunk[2] else 0;
    var a, b := Cut(chunk[0], 2);
    var c, d := Cut(second, 4);
    var e, f := Cut(third, 6);
    digits := [a, b * 16 + c];
    if |chunk| > 1 { digits := digits + [d * 4 + e]; }
    if |chunk| > 2 { digits := digits + [f]; }
  }

  method EncodeBase64NoPadding(b: Bytes) returns (r: Bytes)
    ensures r == Encode(b)
  {
    r := [];
    var k := 0;
    while k < |b|
      invariant k <= |b| && (k % 3 == 0 || k == |b|) && r == Encode(b[..k])
    {
      var end := if k + 3 <= |b| then k + 3 else |b|;
      var digits := PushChunk(b[k..end]);
      assert b[..end][..k] == b[..k] && b[..end][k..] == b[k..end];
      EncodeSnoc(b[..end], k, digits);
      r := r + Symbols(digits);
      k := end;
    }
    assert b[..k] == b;
  }

  // ---- What an encoding looks like ----------------------------------------------------------------

  predicate AllDigits(s: Bytes) { forall i | 0 <= i < |s| :: DigitOf(s[i]).Some? }

  function Values(s: Bytes): (ds: seq<nat>)
    ensures |ds| == |s| && AreDigits(ds)
    ensures AllDigits(s) ==> Symbols(ds) == s && forall i | 0 <= i < |s| :: DigitOf(s[i]) == Some(ds[i])
  {
    seq(|s|, i requires 0 <= i < |s| => if DigitOf(s[i]).Some? then DigitOf(s[i]).value else 0)
  }

  lemma SymbolsAreDigits(ds: seq<nat>)
    requires AreDigits(ds)
    ensures AllDigits(Symbols(ds)) && Values(Symbols(ds)) == ds && PAD !in Symbols(ds)
  {
    var c := Symbols(ds);
    forall i | 0 <= i < |ds| ensures DigitOf(c[i]) == Some(ds[i]) && c[i] != PAD { }
  }

  /** An encoding is digits only and never leaves a single digit over. */
  lemma {:induction false} EncodedShape(b: Bytes)
    ensures AllDigits(Encode(b)) && PAD !in Encode(b)
    ensures |Encode(b)| == |b| / 3 * 4 + (if |b| % 3 == 0 then 0 else |b| % 3 + 1)
    decreases |b|
  {
    if b != [] {
      var n := LastChunk(|b|);
      EncodedShape(b[..n]);
      SymbolsAreDigits(ChunkDigits(b[n..]));
    }
  }

  /** Different bytes have different encodings. */
  lemma {:induction false} EncodeInjective(a: Bytes, b: Bytes)
    requires Encode(a) == Encode(b)
    ensures a == b
    decreases |a|
  {
    EncodedShape(a);
    EncodedShape(b);
    assert |a| == |b|;
    if a != [] {
      var n := LastChunk(|a|);
      EncodedShape(a[..n]);
      EncodedShape(b[..n]);
      SplitEqual(Encode(a[..n]), Symbols(ChunkDigits(a[n..])), Encode(b[..n]), Symbols(ChunkDigits(b[n..])));
      EncodeInjective(a[..n], b[..n]);
      SymbolsAreDigits(ChunkDigits(a[n..]));
      SymbolsAreDigits(ChunkDigits(b[n..]));
      SameBytes(a[n..], b[n..], ChunkDigits(a[n..]));
      assert a == a[..n] + a[n..] && b == b[..n] + b[n..];
    }
  }

  lemma SplitEqual(a: Bytes, x: Bytes, b: Bytes, y: Bytes)
    requires a + x == b + y && |a| == |b|
    ensures a == b && x == y
  {
    assert a == (a + x)[..|a|] && b == (b + y)[..|a|];
    assert x == (a + x)[|a|..] && y == (b + y)[|a|..];
  }

  // ---- Decoding -----------------------------------------------------------------------------

  ghost predicate IsEncoding(s: Bytes) { exists b :: s == Encode(b) }

  /** The one value a canonical text stands for. */
  ghost function Decode(s: Bytes): (r: Option<Bytes>)
    ensures r.Some? <==> s != [] && |s| <= MAX_PUBLIC_KEY_BYTES && IsEncoding(s)
    ensures r.Some? ==> s == Encode(r.value)
  {
    if s != [] && |s| <= MAX_PUBLIC_KEY_BYTES && IsEncoding(s) then
      var b :| s == Encode(b);
      Some(b)
    else None
  }

  lemma EncodeDecodes(b: Bytes)
    requires b != [] && |Encode(b)| <= MAX_PUBLIC_KEY_BYTES
    ensures Decode(Encode(b)) == Some(b)
  {
    EncodedShape(b);
    assert IsEncoding(Encode(b));
    EncodeInjective(b, Decode(Encode(b)).value);
  }

  /** The decoder after `s`: `m` whole groups are out; of the next group `j` digits are in, and
      what its bytes do not hold waits in the accumulator. */
  ghost predicate Fed(s: Bytes, m: nat, j: nat, output: Bytes, accumulator: nat, bits: nat) {
    && |s| == 4 * m + j && j < 4 && AllDigits(s)
    && |output| == 3 * m + (if j >= 2 then j - 1 else 0)
    && Encode(output[..3 * m]) == s[..4 * m]
    && Rest(Values(s[4 * m..]), output[3 * m..], accumulator, bits)
  }

  /** The digits of an unfinished group, and how they are spread. */
  predicate Rest(ds: seq<nat>, out: seq<nat>, accumulator: nat, bits: nat) {
    if |ds| == 0 then accumulator == 0 && bits == 0
    else if |ds| == 1 then accumulator == ds[0] && bits == 6
    else if |ds| == 2 then
      bits == 4 && accumulator < 16 && |out| == 1 && ds[0] * 64 + ds[1] == out[0] * 16 + accumulator
    else
      |ds| == 3 && bits == 2 && accumulator < 4 && |out| == 2
      && ds[0] * 4096 + ds[1] * 64 + ds[2] == out[0] * 1024 + out[1] * 4 + accumulator
  }

  /** One digit more that does not complete a group. */
  lemma RestGrows(ds: seq<nat>, out: seq<nat>, accumulator: nat, bits: nat, v: nat, out': seq<nat>, accumulator': nat,
      bits': nat)
    requires |ds| < 3 && AreDigits(ds) && v < 64 && Rest(ds, out, accumulator, bits)
    requires |ds| == 0 ==> out' == out && accumulator' == v && bits' == 6
    requires |ds| == 1 ==>
      && out == [] && |out'| == 1 && accumulator * 64 + v == out'[0] * 16 + accumulator'
      && accumulator' < 16 && bits' == 4
    requires |ds| == 2 ==>
      && |out'| == 2 && out'[0] == out[0] && accumulator * 64 + v == out'[1] * 4 + accumulator'
      && accumulator' < 4 && bits' == 2
    ensures Rest(ds + [v], out', accumulator', bits')
  {
  }

  /** The fourth digit completes the group. */
  lemma RestCompletes(ds: seq<nat>, out: Bytes, accumulator: nat, bits: nat, v: nat, last: Byte)
    requires |ds| == 3 && AreDigits(ds) && v < 64 && Rest(ds, out, accumulator, bits) && last == accumulator * 64 + v
    ensures IsGroup(out + [last], ds + [v])
  {
  }

  /** What one more digit `v` does to the decoder after `j` digits of a group. */
  predicate Pushes(j: nat, accumulator: nat, v: nat, more: Bytes, accumulator': nat, bits': nat) {
    if j == 0 then more == [] && accumulator' == v && bits' == 6
    else
      && |more| == 1
      && (j == 1 ==> accumulator * 64 + v == more[0] as int * 16 + accumulator' && accumulator' < 16 && bits' == 4)
      && (j == 2 ==> accumulator * 64 + v == more[0] as int * 4 + accumulator' && accumulator' < 4 && bits' == 2)
      && (j == 3 ==> accumulator * 64 + v == more[0] && accumulator' == 0 && bits' == 0)
  }

  lemma Slices(s: Bytes, c: Byte, m: nat, output: Bytes, more: Bytes)
    requires 4 * m <= |s| && 3 * m <= |output|
    ensures (s + [c])[4 * m..] == s[4 * m..] + [c] && (s + [c])[..4 * m] == s[..4 * m]
    ensures (output + more)[..3 * m] == output[..3 * m] && (output + more)[3 * m..] == output[3 * m..] + more
  {
  }

  lemma ValuesSnoc(s: Bytes, c: Byte)
    requires AllDigits(s) && DigitOf(c).Some?
    ensures Values(s + [c]) == Values(s) + [DigitOf(c).value]
  {
  }

  /** One digit more that does not complete its group. */
  lemma FedStep(s: Bytes, c: Byte, m: nat, j: nat, output: Bytes, accumulator: nat, bits: nat,
                more: Bytes, accumulator': nat, bits': nat)
    requires Fed(s, m, j, output, accumulator, bits) && j < 3
    requires DigitOf(c).Some? && Pushes(j, accumulator, DigitOf(c).value, more, accumulator', bits')
    ensures Fed(s + [c], m, j + 1, output + more, accumulator', bits')
  {
    Slices(s, c, m, output, more);
    ValuesSnoc(s[4 * m..], c);
    RestGrows(Values(s[4 * m..]), output[3 * m..], accumulator, bits, DigitOf(c).value, output[3 * m..] + more,
      accumulator', bits');
  }

  lemma GroupEncodes(output: Bytes, k: nat, last: Byte, ds: seq<nat>, accumulator: nat, bits: nat, v: nat)
    requires k % 3 == 0 && |output| == k + 2 && |ds| == 3 && AreDigits(ds) && v < 64
    requires Rest(ds, output[k..], accumulator, bits) && last == accumulator * 64 + v
    ensures Encode(output + [last]) == Encode(output[..k]) + Symbols(ds + [v])
  {
    RestCompletes(ds, output[k..], accumulator, bits, v, last);
    var all := output + [last];
    assert all[k..] == output[k..] + [last] && all[..k] == output[..k];
    EncodeSnoc(all, k, ds + [v]);
  }

  /** The digit that completes its group. */
  lemma FedGroup(s: Bytes, c: Byte, m: nat, output: Bytes, accumulator: nat, bits: nat, more: Bytes)
    requires Fed(s, m, 3, output, accumulator, bits)
    requires DigitOf(c).Some? && Pushes(3, accumulator, DigitOf(c).value, more, 0, 0)
    ensures Fed(s + [c], m + 1, 0, output + more, 0, 0)
  {
    var ds := Values(s[4 * m..]);
    var v := DigitOf(c).value;
    Slices(s, c, m, output, more);
    ValuesSnoc(s[4 * m..], c);
    assert more == [more[0]];
    GroupEncodes(output, 3 * m, more[0], ds, accumulator, bits, v);
    CompleteGroup(s + [c], output + more, m);
  }

  lemma CompleteGroup(t: Bytes, output: Bytes, m: nat)
    requires |t| == 4 * m + 4 && |output| == 3 * m + 3 && AllDigits(t)
    requires Encode(output) == t[..4 * m] + Symbols(Values(t[4 * m..]))
    ensures Fed(t, m + 1, 0, output, 0, 0)
  {
    Rejoin(t, 4 * m, output);
    WholeGroups(t, output, m + 1);
  }

  lemma WholeGroups(t: Bytes, output: Bytes, m: nat)
    requires |t| == 4 * m && |output| == 3 * m && AllDigits(t) && Encode(output) == t
    ensures Fed(t, m, 0, output, 0, 0)
  {
    assert output[..3 * m] == output && t[..4 * m] == t;
  }

  lemma Rejoin(t: Bytes, k: nat, output: Bytes)
    requires k <= |t| && AllDigits(t) && Encode(output) == t[..k] + Symbols(Values(t[k..]))
    ensures Encode(output) == t
  {
    assert t == t[..k] + t[k..];
  }

  lemma FedBounds(s: Bytes, m: nat, j: nat, output: Bytes, accumulator: nat, bits: nat)
    requires Fed(s, m, j, output, accumulator, bits)
    ensures bits == (if j == 0 then 0 else if j == 1 then 6 else if j == 2 then 4 else 2)
    ensures accumulator < (if j == 0 then 1 else if j == 1 then 64 else if j == 2 then 16 else 4)
  {
  }

  lemma FedNext(s: Bytes, c: Byte, m: nat, j: nat, output: Bytes, accumulator: nat, bits: nat,
                more: Bytes, accumulator': nat, bits': nat) returns (m': nat, j': nat)
    requires Fed(s, m, j, output, accumulator, bits)
    requires DigitOf(c).Some? && Pushes(j, accumulator, DigitOf(c).value, more, accumulator', bits')
    ensures Fed(s + [c], m', j', output + more, accumulator', bits')
  {
    if j == 3 {
      FedGroup(s, c, m, output, accumulator, bits, more);
      m', j' := m + 1, 0;
    } else {
      FedStep(s, c, m, j, output, accumulator, bits, more, accumulator', bits');
      m', j' := m, j + 1;
    }
  }

  /** With no spare bit set, the bytes of an unfinished group stand for its digits. */
  lemma RestIsGroup(ds: seq<nat>, out: Bytes, bits: nat)
    requires 2 <= |ds| <= 3 && AreDigits(ds) && Rest(ds, out, 0, bits)
    ensures IsGroup(out, ds)
  {
  }

  lemma TailEncodes(s: Bytes, n: nat, output: Bytes, k: nat, ds: seq<nat>)
    requires k % 3 == 0 && k <= |output| && n <= |s| && IsGroup(output[k..], ds)
    requires Encode(output[..k]) == s[..n] && s[n..] == Symbols(ds)
    ensures Encode(output) == s
  {
    EncodeSnoc(output, k, ds);
    assert s == s[..n] + s[n..];
  }

  /** Digits without a set spare bit are the encoding of the bytes they yield. */
  lemma FedReencodes(s: Bytes, m: nat, j: nat, output: Bytes, bits: nat)
    requires Fed(s, m, j, output, 0, bits) && j != 1
    ensures Encode(output) == s
  {
    if j == 0 {
      assert output[..3 * m] == output && s[..4 * m] == s;
    } else {
      RestIsGroup(Values(s[4 * m..]), output[3 * m..], bits);
      TailEncodes(s, 4 * m, output, 3 * m, Values(s[4 * m..]));
    }
  }

  /** In an encoding no bit is left over. */
  lemma EncodedLeavesNothing(b: Bytes, m: nat, j: nat, output: Bytes, accumulator: nat, bits: nat)
    requires Fed(Encode(b), m, j, output, accumulator, bits)
    ensures j != 1 && accumulator == 0
  {
    var s := Encode(b);
    EncodedShape(b);
    if j >= 2 {
      var n := 3 * m;
      assert |b| == n + j - 1 && LastChunk(|b|) == n;
      EncodedShape(b[..n]);
      SplitEqual(Encode(b[..n]), Symbols(ChunkDigits(b[n..])), s[..4 * m], s[4 * m..]);
      SymbolsAreDigits(ChunkDigits(b[n..]));
      NoSpareBits(b[n..], Values(s[4 * m..]), output[n..], accumulator, bits);
    }
  }

  lemma NoSpareBits(b: Bytes, ds: seq<nat>, out: Bytes, accumulator: nat, bits: nat)
    requires 1 <= |b| <= 2 && IsGroup(b, ds) && Rest(ds, out, accumulator, bits)
    ensures accumulator == 0
  {
    if |b| == 1 {
      var x: int, y: int := b[0], out[0];
      assert x * 16 == y * 16 + accumulator;
    } else {
      var x: int, y: int := b[0], out[0];
      var z: int, w: int := b[1], out[1];
      assert x * 1024 + z * 4 == y * 1024 + w * 4 + accumulator;
    }
  }

  /** `decode_base64` accepts exactly the unpadded canonical encodings of at most 16384 characters:
      even the padded forms with the right amount of padding are refused. */
  method DecodeBase64(s: Bytes) returns (r: Option<Bytes>)
    ensures r == Decode(s)
    ensures r.Some? <==> s != [] && |s| <= MAX_PUBLIC_KEY_BYTES && IsEncoding(s)
    ensures r.Some? ==> s == Encode(r.value)
  {
    if s == [] || |s| > MAX_PUBLIC_KEY_BYTES {
      return None;
    }
    var padding := 0;
    while padding < |s| && s[|s| - padding - 1] == PAD
      invariant padding <= |s| && (padding > 0 ==> PAD in s)
    {
      padding := padding + 1;
    }
    if PAD in s || |s| % 4 == 1 { PaddedNeverEncoded(s); }
    var body := s[..|s| - padding];
    assert (PAD in body ==> PAD in s) && (padding == 0 ==> body == s);
    if padding > 2 || PAD in body || (padding > 0 && |s| % 4 != 0) || |body| % 4 == 1 {
      return None;
    }
    var output := DecodeDigits(body);
    var remainder := |body| % 4;
    if output.None? {
      return None;
    }
    if (remainder, padding) in {(0, 1), (0, 2), (2, 0), (2, 1), (3, 0), (3, 2)} {
    } else if remainder != 0 || padding != 0 {
      return None;
    }
    assert padding == 0 && body == s;
    EncodeDecodes(output.value);
    return output;
  }

  lemma NoForeignSymbol(s: Bytes, k: nat)
    requires k < |s| && DigitOf(s[k]).None?
    ensures !IsEncoding(s)
  {
    forall b ensures s != Encode(b) { EncodedShape(b); }
  }

  lemma SpareBitsNeverEncoded(s: Bytes, m: nat, j: nat, output: Bytes, accumulator: nat, bits: nat)
    requires Fed(s, m, j, output, accumulator, bits) && accumulator != 0
    ensures !IsEncoding(s)
  {
    forall b ensures s != Encode(b) {
      if s == Encode(b) { EncodedLeavesNothing(b, m, j, output, accumulator, bits); }
    }
  }

  lemma RemainderOf(n: nat, m: nat, j: nat)
    requires n == 4 * m + j && j < 4
    ensures n % 4 == j
  {
  }

  lemma FedRemainder(s: Bytes, m: nat, j: nat, output: Bytes, accumulator: nat, bits: nat)
    requires Fed(s, m, j, output, accumulator, bits)
    ensures |s| % 4 == j
  {
    RemainderOf(|s|, m, j);
  }

  /** After the last digit the check for spare bits decides. */
  lemma FedDecides(s: Bytes, m: nat, j: nat, output: Bytes, accumulator: nat, bits: nat)
    requires Fed(s, m, j, output, accumulator, bits) && j != 1
    ensures if accumulator == 0 then s == Encode(output) else !IsEncoding(s)
  {
    if accumulator == 0 {
      FedReencodes(s, m, j, output, bits);
    } else {
      SpareBitsNeverEncoded(s, m, j, output, accumulator, bits);
    }
  }

  lemma PaddedNeverEncoded(s: Bytes)
    requires PAD in s || |s| % 4 == 1
    ensures !IsEncoding(s)
  {
    forall b ensures s != Encode(b) { EncodedShape(b); }
  }

  /** Shifts one digit in; at most one byte becomes complete. */
  method PushDigit(ghost j: nat, accumulator: nat, bits: nat, v: nat)
      returns (more: Bytes, accumulator': nat, bits': nat)
    requires v < 64
    requires j < 4 && bits == (if j == 0 then 0 else if j == 1 then 6 else if j == 2 then 4 else 2)
    requires accumulator < (if j == 0 then 1 else if j == 1 then 64 else if j == 2 then 16 else 4)
    ensures Pushes(j, accumulator, v, more, accumulator', bits')
  {
    more, accumulator', bits' := [], accumulator * 64 + v, bits + 6;
    if bits' >= 8 {
      bits' := bits' - 8;
      var high, low := Cut(accumulator', bits');
      more, accumulator' := [high % 256], low;
    }
  }

  /** One turn of the loop over the digits. */
  method FeedDigit(ghost s: Bytes, c: Byte, ghost m: nat, ghost j: nat, output: Bytes, accumulator: nat, bits: nat)
    returns (ok: bool, output': Bytes, accumulator': nat, bits': nat, ghost m': nat, ghost j': nat)
    requires Fed(s, m, j, output, accumulator, bits)
    ensures if ok then Fed(s + [c], m', j', output', accumulator', bits') else DigitOf(c).None?
  {
    var value := DigitOf(c);
    ok, output', accumulator', bits', m', j' := value.Some?, output, accumulator, bits, m, j;
    if !ok {
      return;
    }
    FedBounds(s, m, j, output, accumulator, bits);
    var more;
    more, accumulator', bits' := PushDigit(j, accumulator, bits, value.value);
    m', j' := FedNext(s, c, m, j, output, accumulator, bits, more, accumulator', bits');
    output' := output + more;
  }

  lemma FedNothing()
    ensures Fed([], 0, 0, [], 0, 0)
  {
  }

  lemma OneByteMore(s: Bytes, k: nat)
    requires k < |s|
    ensures s[..k + 1] == s[..k] + [s[k]]
  {
  }

  /** The loop over the digits. */
  method FeedDigits(body: Bytes)
      returns (ok: bool, output: Bytes, accumulator: nat, bits: nat, ghost m: nat, ghost j: nat)
    ensures if ok then Fed(body, m, j, output, accumulator, bits) else !IsEncoding(body)
  {
    ok, output, accumulator, bits, m, j := true, [], 0, 0, 0, 0;
    var k := 0;
    FedNothing();
    assert body[..k] == [];
    while k < |body|
      invariant ok && k <= |body| && Fed(body[..k], m, j, output, accumulator, bits)
    {
      ok, output, accumulator, bits, m, j := FeedDigit(body[..k], body[k], m, j, output, accumulator, bits);
      if !ok {
        NoForeignSymbol(body, k);
        return;
      }
      OneByteMore(body, k);
      k := k + 1;
    }
    assert body[..k] == body;
  }

  /** The digits, and the check that no spare bit is set. */
  method DecodeDigits(body: Bytes) returns (r: Option<Bytes>)
    requires |body| % 4 != 1
    ensures r.Some? ==> body == Encode(r.value)
    ensures r.None? ==> !IsEncoding(body)
  {
    var ok, output, accumulator, bits, m, j := FeedDigits(body);
    if !ok {
      return None;
    }
    FedRemainder(body, m, j, output, accumulator, bits);
    FedDecides(body, m, j, output, accumulator, bits);
    return if accumulator != 0 then None else Some(output);
  }

  // ---- The Ed25519 blob ----------------------------------------------------------------------------

  const ALGORITHM: Bytes := [0x73, 0x73, 0x68, 0x2D, 0x65, 0x64, 0x32, 0x35, 0x35, 0x31, 0x39]

  /** A `uint32` in network byte order. */
  function Uint32(n: nat): Bytes
    requires n < 0x1_0000_0000
  {
    var p, q, r := n / 256 / 256 / 256, n / 256 / 256, n / 256;
    [p, q % 256, r % 256, n % 256]
  }

  /** A string of section 5 of RFC 4251. */
  function SshString(b: Bytes): Bytes
    requires |b| < 0x1_0000_0000
  {
    Uint32(|b|) + b
  }

  function ReadUint32(b: Bytes): nat
    requires |b| == 4
  {
    var (p, q, r, s) := (b[0] as int, b[1] as int, b[2] as int, b[3] as int);
    p * 0x100_0000 + q * 0x1_0000 + r * 256 + s
  }

  /** `read_ssh_string`: the string at the cursor, and the cursor behind it. */
  function ReadSshString(input: Bytes, cursor: nat): (r: Option<(Bytes, nat)>)
    ensures r.Some? ==> cursor < r.value.1 <= |input|
  {
    if cursor + 4 > |input| then None else
      var length := ReadUint32(input[cursor..cursor + 4]);
      if cursor + 4 + length > |input| then None
      else Some((input[cursor + 4..cursor + 4 + length], cursor + 4 + length))
  }

  lemma Uint32RoundTrip(b: Bytes)
    requires |b| == 4
    ensures Uint32(ReadUint32(b)) == b
  {
    var (p, q, r, s) := (b[0] as int, b[1] as int, b[2] as int, b[3] as int);
    Uint32Parts(p, q, r, s);
  }

  lemma Uint32Parts(p: int, q: int, r: int, s: int)
    requires 0 <= p < 256 && 0 <= q < 256 && 0 <= r < 256 && 0 <= s < 256
    ensures var n := p * 0x100_0000 + q * 0x1_0000 + r * 256 + s;
      && 0 <= n < 0x1_0000_0000 && n / 256 == p * 0x1_0000 + q * 256 + r && n % 256 == s
      && n / 256 / 256 == p * 256 + q && n / 256 % 256 == r && n / 256 / 256 / 256 == p && n / 256 / 256 % 256 == q
  {
    var n := p * 0x100_0000 + q * 0x1_0000 + r * 256 + s;
    LastByte(p * 0x1_0000 + q * 256 + r, s);
    LastByte(p * 256 + q, r);
    LastByte(p, q);
  }

  lemma LastByte(x: int, y: int)
    requires 0 <= y < 256
    ensures (x * 256 + y) / 256 == x && (x * 256 + y) % 256 == y
  {
  }

  lemma StringReads(input: Bytes, cursor: nat, value: Bytes)
    requires cursor <= |input| && |value| < 0x1_0000_0000 && SshString(value) <= input[cursor..]
    ensures ReadSshString(input, cursor) == Some((value, cursor + 4 + |value|))
  {
    var rest := input[cursor..];
    var n := |value|;
    assert rest[..4] == input[cursor..cursor + 4];
    assert SshString(value)[..4] == Uint32(n) && rest[..4] == SshString(value)[..4];
    LengthReads(n);
    assert rest[4..4 + n] == input[cursor + 4..cursor + 4 + n];
    assert SshString(value)[4..4 + n] == value && rest[4..4 + n] == SshString(value)[4..4 + n];
  }

  lemma LengthReads(n: nat)
    requires n < 0x1_0000_0000
    ensures ReadUint32(Uint32(n)) == n
  {
    var p, q, r := n / 256 / 256 / 256, n / 256 / 256, n / 256;
    assert n == r * 256 + n % 256;
    assert r == q * 256 + r % 256;
    assert q == p * 256 + q % 256;
  }

  lemma ReadIsPrefix(input: Bytes, cursor: nat, value: Bytes)
    requires cursor <= |input| && ReadSshString(input, cursor) == Some((value, cursor + 4 + |value|))
      && |value| < 0x1_0000_0000
    ensures SshString(value) <= input[cursor..]
  {
    var n := |value|;
    Uint32RoundTrip(input[cursor..cursor + 4]);
    assert input[cursor..][..4 + n] == input[cursor..cursor + 4] + input[cursor + 4..cursor + 4 + n];
  }

  /** Reading succeeds exactly when a string of the format is there. */
  lemma ReadIsString(input: Bytes, cursor: nat, value: Bytes)
    requires cursor <= |input| && |value| < 0x1_0000_0000
    ensures ReadSshString(input, cursor) == Some((value, cursor + 4 + |value|)) <==> SshString(value) <= input[cursor..]
  {
    if SshString(value) <= input[cursor..] { StringReads(input, cursor, value); }
    if ReadSshString(input, cursor) == Some((value, cursor + 4 + |value|)) { ReadIsPrefix(input, cursor, value); }
  }

  /** `validate_ed25519_payload`. */
  ghost function ValidatePayload(payload: Bytes): Option<Bytes> {
    var decoded := Decode(payload);
    if decoded.None? then None else
      var blob := decoded.value;
      var algorithm := ReadSshString(blob, 0);
      if algorithm.None? then None else
        var key := ReadSshString(blob, algorithm.value.1);
        if key.None? || algorithm.value.0 != ALGORITHM || |key.value.0| != 32 || key.value.1 != |blob| then None
        else Some(blob)
  }

  method ValidateEd25519Payload(payload: Bytes) returns (r: Option<Bytes>)
    ensures r == ValidatePayload(payload)
  {
    var blob := DecodeBase64(payload);
    if blob.None? {
      return None;
    }
    var cursor := 0;
    var algorithm := ReadSshString(blob.value, cursor);
    if algorithm.None? {
      return None;
    }
    cursor := algorithm.value.1;
    var key := ReadSshString(blob.value, cursor);
    if key.None? {
      return None;
    }
    cursor := key.value.1;
    if algorithm.value.0 != ALGORITHM || |key.value.0| != 32 || cursor != |blob.value| {
      return None;
    }
    return blob;
  }

  /** The 51 bytes of an Ed25519 public key. */
  function KeyBlob(key: Bytes): (r: Bytes)
    requires |key| == 32
    ensures |r| == 51
  {
    SshString(ALGORITHM) + SshString(key)
  }

  lemma BlobReads(blob: Bytes, key: Bytes)
    requires |key| == 32
    ensures blob == KeyBlob(key) <==>
      && ReadSshString(blob, 0) == Some((ALGORITHM, 15))
      && ReadSshString(blob, 15) == Some((key, 51)) && |blob| == 51
  {
    if |blob| == 51 {
      ReadIsString(blob, 0, ALGORITHM);
      ReadIsString(blob, 15, key);
      assert blob[0..] == blob && blob == blob[..15] + blob[15..];
      assert blob == KeyBlob(key) ==> blob[15..] == SshString(key) && blob[..15] == SshString(ALGORITHM);
    }
  }

  /** A payload validates exactly when it is the unpadded encoding of an Ed25519 key blob. */
  lemma PayloadIsEncodedKey(payload: Bytes)
    ensures ValidatePayload(payload).Some? <==> exists key :: |key| == 32 && payload == Encode(KeyBlob(key))
    ensures ValidatePayload(payload).Some? ==> payload == Encode(ValidatePayload(payload).value)
  {
    if ValidatePayload(payload).Some? {
      var blob := ValidatePayload(payload).value;
      var key := ReadSshString(blob, 15).value.0;
      BlobReads(blob, key);
    }
    forall key | |key| == 32 && payload == Encode(KeyBlob(key)) ensures ValidatePayload(payload).Some? {
      EncodedShape(KeyBlob(key));
      EncodeDecodes(KeyBlob(key));
      BlobReads(KeyBlob(key), key);
    }
  }
}
