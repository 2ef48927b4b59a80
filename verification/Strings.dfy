/** The string operations the repository relies on: Unicode trimming, ASCII case folding
    and UTF-8 lengths. */
module Strings {

  /** `char::is_whitespace`: the White_Space property. */
  predicate IsWhitespace(c: char) {
    var n := c as int;
    || 0x09 <= n <= 0x0D || n == 0x20 || n == 0x85 || n == 0xA0 || n == 0x1680
    || 0x2000 <= n <= 0x200A || n == 0x2028 || n == 0x2029 || n == 0x202F || n == 0x205F || n == 0x3000
  }

  /** `char::is_control`: general category Cc. */
  predicate IsControl(c: char) {
    c as int <= 0x1F || 0x7F <= c as int <= 0x9F
  }

  predicate IsAlphanumeric(c: char) {
    'a' <= c <= 'z' || 'A' <= c <= 'Z' || '0' <= c <= '9'
  }

  predicate IsHexDigit(c: char) {
    'a' <= c <= 'f' || 'A' <= c <= 'F' || '0' <= c <= '9'
  }

  /** `i` is where the leading whitespace of `s` ends. */
  predicate TextStart(s: string, i: nat) {
    i <= |s| && (forall k | 0 <= k < i :: IsWhitespace(s[k])) && (i < |s| ==> !IsWhitespace(s[i]))
  }

  /** `j` is where the trailing whitespace of `s` begins, not before `i`. */
  predicate TextEnd(s: string, i: nat, j: nat) {
    i <= j <= |s| && (forall k | j <= k < |s| :: IsWhitespace(s[k])) && (i < j ==> !IsWhitespace(s[j - 1]))
  }

  lemma {:induction false} TextStartExists(s: string, from: nat)
    requires from <= |s| && forall k | 0 <= k < from :: IsWhitespace(s[k])
    ensures exists i: nat :: TextStart(s, i)
    decreases |s| - from
  {
    if from < |s| && IsWhitespace(s[from]) { TextStartExists(s, from + 1); } else { assert TextStart(s, from); }
  }

  lemma {:induction false} TextEndExists(s: string, i: nat, from: nat)
    requires i <= from <= |s| && forall k | from <= k < |s| :: IsWhitespace(s[k])
    ensures exists j: nat :: TextEnd(s, i, j)
    decreases from
  {
    if i < from && IsWhitespace(s[from - 1]) { TextEndExists(s, i, from - 1); } else { assert TextEnd(s, i, from); }
  }

  function TrimStart(s: string): (r: nat)
    ensures TextStart(s, r)
  {
    TextStartExists(s, 0);
    var i: nat :| TextStart(s, i);
    i
  }

  function TrimEnd(s: string, i: nat): (r: nat)
    requires i <= |s|
    ensures TextEnd(s, i, r)
  {
    TextEndExists(s, i, |s|);
    var j: nat :| TextEnd(s, i, j);
    j
  }

  /** `str::trim`. */
  function Trim(s: string): (r: string)
    ensures r == [] || (!IsWhitespace(r[0]) && !IsWhitespace(r[|r| - 1]))
  {
    var i := TrimStart(s);
    s[i..TrimEnd(s, i)]
  }

  /** Trimming brings in no character and never lengthens. */
  lemma TrimShrinks(s: string)
    ensures Utf8Len(Trim(s)) <= Utf8Len(s)
    ensures forall c | c in Trim(s) :: c in s
  {
    var i := TrimStart(s);
    var j := TrimEnd(s, i);
    Utf8LenConcat(s[..i], s[i..j]);
    Utf8LenConcat(s[..j], s[j..]);
    assert s[..j] == s[..i] + s[i..j] && s == s[..j] + s[j..];
  }

  lemma TrimOfTrimmed(s: string)
    requires s == [] || (!IsWhitespace(s[0]) && !IsWhitespace(s[|s| - 1]))
    ensures Trim(s) == s
  {
  }

  function Utf8Width(c: char): (w: nat)
    ensures 1 <= w <= 4
  {
    if c as int < 0x80 then 1 else if c as int < 0x800 then 2 else if c as int < 0x10000 then 3 else 4
  }

  /** `str::len`. */
  function Utf8Len(s: string): (n: nat)
    ensures n >= |s|
  {
    if s == [] then 0 else Utf8Width(s[0]) + Utf8Len(s[1..])
  }

  lemma {:induction false} Utf8LenConcat(a: string, b: string)
    ensures Utf8Len(a + b) == Utf8Len(a) + Utf8Len(b)
  {
    if a == [] {
      assert a + b == b;
    } else {
      assert (a + b)[1..] == a[1..] + b;
      Utf8LenConcat(a[1..], b);
    }
  }

  lemma {:induction false} Utf8LenAscii(s: string)
    requires forall i | 0 <= i < |s| :: s[i] as int < 0x80
    ensures Utf8Len(s) == |s|
  {
    if s != [] { Utf8LenAscii(s[1..]); }
  }

  function LowerChar(c: char): (l: char)
  {
    if 'A' <= c <= 'Z' then (c as int + 32) as char else c
  }

  /** `to_ascii_lowercase`. */
  function Lower(s: string): (r: string)
    ensures |r| == |s|
    ensures forall i | 0 <= i < |s| :: r[i] == LowerChar(s[i])
  {
    seq(|s|, i requires 0 <= i < |s| => LowerChar(s[i]))
  }

  predicate EqIgnoreCase(a: string, b: string) { Lower(a) == Lower(b) }

  lemma LowerIdempotent(s: string)
    ensures Lower(Lower(s)) == Lower(s)
  {
  }

  function NatToString(n: nat): (s: string)
    ensures s != [] && forall c | c in s :: '0' <= c <= '9'
  {
    var digit := [('0' as int + n % 10) as char];
    if n < 10 then digit else NatToString(n / 10) + digit
  }
}
