/** The incremental UTF-8 decoder between a PTY reader and the browser.

    Text is kept as the bytes that encode it, so a well-formed part of the stream decodes
    to itself and an ill-formed part decodes to the three bytes of U+FFFD. */
module Utf8Stream {
  import opened Prelude

  type Text = seq<Byte>

  const REPLACEMENT: Text := [0xEF, 0xBF, 0xBD]

  // ---- Section 4 of RFC 3629 -------------------------------------------------------------

  predicate IsTail(b: Byte) { 0x80 <= b <= 0xBF }

  /** The bytes that may follow the leading byte of a multi-byte character. */
  predicate SecondByte(lead: Byte, b: Byte) {
    match lead
    case 0xE0 => 0xA0 <= b <= 0xBF
    case 0xED => 0x80 <= b <= 0x9F
    case 0xF0 => 0x90 <= b <= 0xBF
    case 0xF4 => 0x80 <= b <= 0x8F
    case _ => IsTail(b)
  }

  /** `c` is one UTF8-char: UTF8-1, UTF8-2, UTF8-3 or UTF8-4. */
  predicate WellFormed(c: Text) {
    || (|c| == 1 && c[0] <= 0x7F)
    || (|c| == 2 && 0xC2 <= c[0] <= 0xDF && IsTail(c[1]))
    || (|c| == 3 && 0xE0 <= c[0] <= 0xEF && SecondByte(c[0], c[1]) && IsTail(c[2]))
    || (|c| == 4 && 0xF0 <= c[0] <= 0xF4 && SecondByte(c[0], c[1]) && IsTail(c[2]) && IsTail(c[3]))
  }

  /** More bytes could still complete `p` to one well-formed character. */
  ghost predicate Unfinished(p: Text) {
    p != [] && exists c :: WellFormed(c) && p < c
  }

  ghost predicate StartsWell(s: Text) {
    exists k :: 1 <= k <= |s| && WellFormed(s[..k])
  }

  /** The first `n` bytes of `s` are one maximal ill-formed part. */
  ghost predicate IllFormedPart(s: Text, n: nat) {
    && 1 <= n <= |s|
    && !StartsWell(s)
    && (n == 1 || Unfinished(s[..n]))
    && (n == |s| || !Unfinished(s[..n + 1]))
  }

  /** `out` is the lossy decoding of `s`: every well-formed character kept, every maximal
      ill-formed part replaced by one U+FFFD. */
  ghost predicate LossyDecodes(s: Text, out: Text)
    decreases |s|
  {
    if s == [] then out == [] else
      exists n | 1 <= n <= |s| ::
        || (WellFormed(s[..n]) && s[..n] <= out && LossyDecodes(s[n..], out[n..]))
        || (IllFormedPart(s, n) && REPLACEMENT <= out && LossyDecodes(s[n..], out[3..]))
  }

  // ---- The scanner behind the standard library's UTF-8 check -----------------------------

  datatype Scan = Char(n: nat) | Invalid(n: nat) | Incomplete

  function LeadWidth(b: Byte): (w: nat)
  {
    if b <= 0x7F then 1
    else if 0xC2 <= b <= 0xDF then 2
    else if 0xE0 <= b <= 0xEF then 3
    else if 0xF0 <= b <= 0xF4 then 4
    else 0
  }

  /** Classifies the front of a non-empty input the way a byte-wise validator does. */
  function ScanChar(s: Text): (r: Scan)
    requires s != []
    ensures r.Char? ==> 1 <= r.n <= |s| && r.n <= 4
    ensures r.Invalid? ==> 1 <= r.n <= |s| && r.n <= 3
    ensures r.Incomplete? ==> |s| <= 3
  {
    var w := LeadWidth(s[0]);
    if w == 0 then Invalid(1)
    else if w == 1 then Char(1)
    else if |s| < 2 then Incomplete
    else if !SecondByte(s[0], s[1]) then Invalid(1)
    else if w == 2 then Char(2)
    else if |s| < 3 then Incomplete
    else if !IsTail(s[2]) then Invalid(2)
    else if w == 3 then Char(3)
    else if |s| < 4 then Incomplete
    else if !IsTail(s[3]) then Invalid(3)
    else Char(4)
  }

  /** The finite table equivalent of `Unfinished`. */
  predicate UnfinishedTable(p: Text) {
    && 1 <= |p| < LeadWidth(p[0])
    && (|p| >= 2 ==> SecondByte(p[0], p[1]))
    && (|p| >= 3 ==> IsTail(p[2]))
  }

  function SomeSecond(lead: Byte): (b: Byte)
    ensures SecondByte(lead, b)
  {
    if lead == 0xE0 then 0xA0 else if lead == 0xF0 then 0x90 else 0x80
  }

  lemma UnfinishedIsTable(p: Text)
    ensures Unfinished(p) <==> UnfinishedTable(p)
  {
    if UnfinishedTable(p) {
      var w := LeadWidth(p[0]);
      var c1 := if |p| == 1 then p + [SomeSecond(p[0])] else p;
      var c2 := if |c1| == 2 && w >= 3 then c1 + [0x80] else c1;
      var c3 := if |c2| == 3 && w == 4 then c2 + [0x80] else c2;
      assert WellFormed(c3) && p < c3;
    }
  }

  /** The scanner agrees with the grammar: a character is a well-formed prefix, an
      incomplete input is one that some character extends, and an invalid input yields
      its maximal ill-formed part. */
  lemma ScanCharMeetsGrammar(s: Text)
    requires s != []
    ensures var r := ScanChar(s);
      match r
      case Char(n) => WellFormed(s[..n])
      case Invalid(n) => IllFormedPart(s, n) && !Unfinished(s)
      case Incomplete => Unfinished(s) && IllFormedPart(s, |s|)
    ensures StartsWell(s) <==> ScanChar(s).Char?
    ensures Unfinished(s) <==> ScanChar(s).Incomplete?
  {
    UnfinishedIsTable(s);
    var r := ScanChar(s);
    if r.Char? {
      assert WellFormed(s[..r.n]);
    } else {
      forall k | 1 <= k <= |s| ensures !WellFormed(s[..k]) { }
      var n := if r.Invalid? then r.n else |s|;
      UnfinishedIsTable(s[..n]);
      if n < |s| { UnfinishedIsTable(s[..n + 1]); }
    }
  }

  /** At most one way to split off the front of an input. */
  lemma FrontIsUnique(s: Text, n: nat)
    requires s != [] && 1 <= n <= |s|
    ensures WellFormed(s[..n]) ==> ScanChar(s) == Char(n)
    ensures IllFormedPart(s, n) ==>
      ScanChar(s) == Invalid(n) || (ScanChar(s) == Incomplete && n == |s|)
  {
    ScanCharMeetsGrammar(s);
    if IllFormedPart(s, n) {
      UnfinishedIsTable(s[..n]);
      if n < |s| { UnfinishedIsTable(s[..n + 1]); }
    }
  }

  /** More input never changes a decision already taken. */
  lemma ScanCharStable(a: Text, b: Text)
    requires a != [] && !ScanChar(a).Incomplete?
    ensures ScanChar(a + b) == ScanChar(a)
  {
  }

  /** The reference decoding as a function. */
  function Lossy(s: Text): (out: Text)
    decreases |s|
  {
    if s == [] then [] else
      match ScanChar(s)
      case Char(n) => s[..n] + Lossy(s[n..])
      case Invalid(n) => REPLACEMENT + Lossy(s[n..])
      case Incomplete => REPLACEMENT
  }

  /** One step of `Lossy`: how much is consumed and what replaces it. */
  lemma LossyStep(s: Text) returns (n: nat, front: Text)
    requires s != []
    ensures 1 <= n <= |s|
    ensures Lossy(s) == front + Lossy(s[n..])
    ensures (WellFormed(s[..n]) && front == s[..n]) || (IllFormedPart(s, n) && front == REPLACEMENT)
    ensures forall k | 1 <= k <= |s| && (WellFormed(s[..k]) || IllFormedPart(s, k)) :: k == n
    ensures WellFormed(s[..n]) ==> !IllFormedPart(s, n)
  {
    ScanCharMeetsGrammar(s);
    var r := ScanChar(s);
    n := if r.Incomplete? then |s| else r.n;
    front := if r.Char? then s[..n] else REPLACEMENT;
    forall k | 1 <= k <= |s| && (WellFormed(s[..k]) || IllFormedPart(s, k)) ensures k == n {
      FrontIsUnique(s, k);
    }
  }

  /** `Lossy` is the one and only lossy decoding the grammar allows. */
  lemma {:induction false} LossyIsTheDecoding(s: Text, out: Text)
    ensures LossyDecodes(s, out) <==> out == Lossy(s)
    decreases |s|
  {
    if s != [] {
      var n, front := LossyStep(s);
      var w := |front|;
      if front <= out {
        LossyIsTheDecoding(s[n..], out[w..]);
        assert out == front + out[w..];
      }
    }
  }

  // ---- Streaming -------------------------------------------------------------------------

  datatype Drained = Drained(out: Text, rest: Text)

  /** Decodes everything already decided and keeps an unfinished tail. */
  function Drain(s: Text): (d: Drained)
    decreases |s|
  {
    if s == [] then Drained([], []) else
      match ScanChar(s)
      case Char(n) => var d := Drain(s[n..]); Drained(s[..n] + d.out, d.rest)
      case Invalid(n) => var d := Drain(s[n..]); Drained(REPLACEMENT + d.out, d.rest)
      case Incomplete => Drained([], s)
  }

  function Flush(rest: Text): (out: Text) { if rest == [] then [] else REPLACEMENT }

  lemma {:induction false} DrainThenFlush(s: Text)
    ensures Lossy(s) == Drain(s).out + Flush(Drain(s).rest)
    ensures var r := Drain(s).rest; r == [] || (ScanChar(r) == Incomplete && Unfinished(r) && |r| <= 3)
    decreases |s|
  {
    if s != [] {
      var r := ScanChar(s);
      ScanCharMeetsGrammar(s);
      if !r.Incomplete? { DrainThenFlush(s[r.n..]); }
    }
  }

  /** Draining in two reads equals draining once: read boundaries do not matter. */
  lemma {:induction false} DrainSplit(a: Text, b: Text)
    ensures var d := Drain(a); var e := Drain(d.rest + b);
      Drain(a + b) == Drained(d.out + e.out, e.rest)
    decreases |a|
  {
    if a == [] {
      assert a + b == b && [] + b == b;
    } else {
      var r := ScanChar(a);
      if r.Incomplete? {
        assert Drain(a) == Drained([], a);
      } else {
        ScanCharStable(a, b);
        assert (a + b)[..r.n] == a[..r.n] && (a + b)[r.n..] == a[r.n..] + b;
        DrainSplit(a[r.n..], b);
      }
    }
  }

  // ---- `str::from_utf8` ------------------------------------------------------------------

  datatype Check = AllValid | InvalidAt(validUpTo: nat, errorLen: Option<nat>)

  /** The length of the longest well-formed prefix. */
  function ValidUpTo(s: Text): (v: nat)
    ensures v <= |s|
    decreases |s|
  {
    if s != [] && ScanChar(s).Char? then ScanChar(s).n + ValidUpTo(s[ScanChar(s).n..]) else 0
  }

  function FromUtf8(s: Text): (c: Check) {
    var v := ValidUpTo(s);
    if v == |s| then AllValid else
      match ScanChar(s[v..])
      case Invalid(n) => InvalidAt(v, Some(n))
      case _ => InvalidAt(v, None)
  }

  /** The well-formed prefix decodes to itself, and the check stops only where no
      character can be read. */
  lemma {:induction false} ValidPrefixDrains(s: Text) returns (head: Text, tail: Text)
    ensures s == head + tail && |head| == ValidUpTo(s)
    ensures Drain(s) == Drained(head + Drain(tail).out, Drain(tail).rest)
    ensures tail != [] ==> !ScanChar(tail).Char?
    decreases |s|
  {
    head, tail := [], s;
    if s != [] && ScanChar(s).Char? {
      var n := ScanChar(s).n;
      var h, t := ValidPrefixDrains(s[n..]);
      Assoc(s[..n], h, Drain(t).out);
      Rejoined(s, n, h, t);
      head, tail := s[..n] + h, t;
    }
  }

  lemma Rejoined(s: Text, n: nat, h: Text, t: Text)
    requires n <= |s| && s[n..] == h + t
    ensures s == (s[..n] + h) + t
  {
    Assoc(s[..n], h, t);
  }

  /** The text put out so far, followed by what is pending, decodes all input. */
  ghost predicate Progress(all: Text, output: seq<Text>, pending: Text) {
    && Drain(all) == Drained(Flatten(output) + Drain(pending).out, Drain(pending).rest)
    && forall t | t in output :: t != []
  }

  lemma Assoc(a: Text, b: Text, c: Text)
    ensures a + (b + c) == (a + b) + c
  {
  }

  /** Appending one chunk to the output and taking it off the front of what follows. */
  lemma Emits(output: seq<Text>, head: Text, x: Text)
    ensures Flatten(output + [head]) + x == Flatten(output) + (head + x)
  {
    FlattenSnoc(output, head);
    Assoc(Flatten(output), head, x);
  }

  lemma EmitsHead(all: Text, output: seq<Text>, pending: Text, head: Text, tail: Text)
    requires Progress(all, output, pending)
    requires Drain(pending) == Drained(head + Drain(tail).out, Drain(tail).rest)
    ensures Progress(all, if head != [] then output + [head] else output, tail)
  {
    Emits(output, head, Drain(tail).out);
    if head == [] { assert head + Drain(tail).out == Drain(tail).out; }
  }

  lemma EmitsReplacement(all: Text, output: seq<Text>, pending: Text, n: nat)
    requires Progress(all, output, pending)
    requires pending != [] && ScanChar(pending) == Invalid(n)
    ensures Progress(all, output + [REPLACEMENT], pending[n..])
  {
    Emits(output, REPLACEMENT, Drain(pending[n..]).out);
  }

  lemma StopsDrained(all: Text, output: seq<Text>, pending: Text)
    requires Progress(all, output, pending)
    requires pending == [] || ScanChar(pending).Incomplete?
    ensures Drain(all) == Drained(Flatten(output), pending)
    ensures pending == [] || (Unfinished(pending) && |pending| <= 3)
  {
    DrainThenFlush(pending);
    assert Flatten(output) + [] == Flatten(output);
  }

  class Utf8StreamDecoder {
    var pending: Text

    constructor ()
      ensures pending == []
    {
      pending := [];
    }

    /** Between reads only an unfinished character may be held back. */
    ghost predicate Valid()
      reads this
    {
      pending == [] || (Unfinished(pending) && ScanChar(pending) == Incomplete && |pending| <= 3)
    }

    method Push(bytes: Text) returns (output: seq<Text>)
      requires Valid()
      modifies this
      ensures Valid()
      ensures Drain(old(pending) + bytes) == Drained(Flatten(output), pending)
      ensures forall t | t in output :: t != []
    {
      pending := pending + bytes;
      output := [];
      ghost var all := pending;
      while true
        invariant Progress(all, output, pending)
        decreases |pending|
      {
        ghost var head, tail := ValidPrefixDrains(pending);
        EmitsHead(all, output, pending, head, tail);
        match FromUtf8(pending) {
          case AllValid =>
            assert pending == head && tail == [];
            if pending != [] {
              output := output + [pending];
            }
            pending := [];
            break;
          case InvalidAt(valid, invalid) =>
            assert pending[..valid] == head && pending[valid..] == tail;
            if valid > 0 {
              output := output + [pending[..valid]];
              pending := pending[valid..];
            }
            if invalid.None? { break; }
            EmitsReplacement(all, output, pending, invalid.value);
            output := output + [REPLACEMENT];
            pending := pending[invalid.value..];
        }
      }
      StopsDrained(all, output, pending);
    }

    method Finish() returns (output: Option<Text>)
      requires Valid()
      modifies this
      ensures pending == []
      ensures output == if old(pending) == [] then None else Some(Flush(old(pending)))
    {
      if pending == [] {
        output := None;
      } else {
        output := Some(REPLACEMENT);
        pending := [];
      }
    }
  }
}
