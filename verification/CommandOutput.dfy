/** The bounded output of a background command: chunks are decoded one by one and appended until
    the limit, where the text is cut between characters and a marker is put behind it. */
module CommandOutput {
  import opened Prelude
  import opened Utf8Stream

  const OUTPUT_LIMIT := 1024 * 1024
  const MARKER_TEXT := "\n[RemoteDeck: output truncated at 1 MiB]"

  function AsciiByte(c: char): Byte { if c as int < 0x80 then c as int else 0x3F }

  /** The bytes of an ASCII string. */
  function Ascii(s: string): (r: Text)
    ensures |r| == |s| && forall i | 0 <= i < |s| :: r[i] == AsciiByte(s[i])
  {
    seq(|s|, i requires 0 <= i < |s| => AsciiByte(s[i]))
  }

  const MARKER: Text := Ascii(MARKER_TEXT)

  const CONTENT_LIMIT: nat := OUTPUT_LIMIT - |MARKER|

  // ---- Text and its character boundaries -------------------------------------------------------

  /** `s` is a sequence of well-formed characters. */
  predicate IsText(s: Text) {
    s == [] || (ScanChar(s).Char? && IsText(s[ScanChar(s).n..]))
  }

  /** `str::is_char_boundary`. */
  predicate IsBoundary(s: Text, k: nat) {
    k == 0 || k == |s| || (k < |s| && !IsTail(s[k]))
  }

  /** The largest boundary that is not beyond `k`. */
  function FloorBoundary(s: Text, k: nat): (e: nat)
    ensures e <= k && IsBoundary(s, e) && forall j | e < j <= k :: !IsBoundary(s, j)
  {
    if IsBoundary(s, k) then k else FloorBoundary(s, k - 1)
  }

  /** Inside the first character there is no boundary. */
  lemma NoBoundaryInside(s: Text, k: nat)
    requires s != [] && ScanChar(s).Char? && 0 < k < ScanChar(s).n
    ensures !IsBoundary(s, k)
  {
  }

  lemma FrontStaysChar(a: Text, b: Text)
    requires a != [] && ScanChar(a).Char?
    ensures ScanChar(a + b) == ScanChar(a)
    ensures (a + b)[ScanChar(a).n..] == a[ScanChar(a).n..] + b
  {
    ScanCharStable(a, b);
  }

  lemma {:induction false} TextConcat(a: Text, b: Text)
    requires IsText(a) && IsText(b)
    ensures IsText(a + b)
  {
    if a == [] {
      assert a + b == b;
    } else {
      FrontStaysChar(a, b);
      TextConcat(a[ScanChar(a).n..], b);
    }
  }

  /** Text cut at a boundary is text on both sides. */
  lemma {:induction false} CutIsText(s: Text, k: nat)
    requires IsText(s) && k <= |s| && IsBoundary(s, k)
    ensures IsText(s[..k]) && IsText(s[k..])
    decreases |s|
  {
    if 0 < k < |s| {
      var n := ScanChar(s).n;
      if k < n { NoBoundaryInside(s, k); }
      var t := s[n..];
      CutIsText(t, k - n);
      CharIsText(s, k);
      assert s[..k][n..] == t[..k - n] && s[k..] == t[k - n..];
    } else if k == 0 {
      assert s[0..] == s;
    } else {
      assert s[..k] == s && s[k..] == [];
    }
  }

  lemma CharIsText(s: Text, k: nat)
    requires s != [] && ScanChar(s).Char? && ScanChar(s).n <= k <= |s|
    ensures ScanChar(s[..k]) == ScanChar(s)
  {
  }

  /** A boundary is never more than three bytes away. */
  lemma {:induction false} BoundaryIsNear(s: Text, k: nat)
    requires IsText(s) && k <= |s|
    ensures k - FloorBoundary(s, k) <= 3
    decreases |s|
  {
    if s != [] {
      var n := ScanChar(s).n;
      if k >= n {
        BoundaryIsNear(s[n..], k - n);
        var e := FloorBoundary(s[n..], k - n);
        assert IsBoundary(s, e + n) by { if e > 0 && e < |s[n..]| { assert s[n..][e] == s[e + n]; } }
      }
    }
  }

  lemma {:induction false} AsciiIsText(s: string)
    ensures IsText(Ascii(s))
  {
    if s != [] {
      AsciiIsText(s[1..]);
      assert Ascii(s)[1..] == Ascii(s[1..]);
    }
  }

  lemma {:induction false} LossyIsText(s: Text)
    ensures IsText(Lossy(s))
    decreases |s|
  {
    if s != [] {
      var n, front := LossyStep(s);
      LossyIsText(s[n..]);
      OneCharIsText(front);
      TextConcat(front, Lossy(s[n..]));
    }
  }

  lemma OneCharIsText(c: Text)
    requires WellFormed(c) || c == REPLACEMENT
    ensures IsText(c)
  {
    FrontIsUnique(c, |c|);
    assert c[..|c|] == c && c[|c|..] == [];
  }

  // ---- append_bounded --------------------------------------------------------------------------

  datatype Output = Output(text: Text, truncated: bool)

  function Min(a: nat, b: nat): nat { if a < b then a else b }

  /** Where the old text is cut once the limit is passed. */
  function KeptEnd(text: Text): (k: nat)
    ensures k <= |text| && k <= CONTENT_LIMIT
  {
    FloorBoundary(text, Min(|text|, CONTENT_LIMIT))
  }

  /** How much of the new text still fits behind it. */
  function AddedEnd(text: Text, value: Text): (k: nat)
    ensures k <= |value| && KeptEnd(text) + k <= CONTENT_LIMIT
  {
    FloorBoundary(value, Min(CONTENT_LIMIT - KeptEnd(text), |value|))
  }

  function CutContent(text: Text, value: Text): (c: Text)
    ensures |c| <= CONTENT_LIMIT
  {
    text[..KeptEnd(text)] + value[..AddedEnd(text, value)]
  }

  function AppendBounded(o: Output, data: Text): Output {
    if data == [] || o.truncated then o else
      var value := Lossy(data);
      if |o.text| + |value| <= OUTPUT_LIMIT then Output(o.text + value, false)
      else Output(CutContent(o.text, value) + MARKER, true)
  }

  /** One captured stream of a job. */
  class CapturedStream {
    var text: Text
    var truncated: bool

    constructor ()
      ensures Value() == Output([], false)
    {
      text, truncated := [], false;
    }

    function Value(): Output
      reads this
    {
      Output(text, truncated)
    }

    method Append(data: Text) returns (changed: bool)
      modifies this
      ensures Value() == AppendBounded(old(Value()), data)
      ensures changed == (data != [] && !old(truncated))
    {
      if data == [] || truncated {
        return false;
      }
      var value := Lossy(data);
      if |text| + |value| <= OUTPUT_LIMIT {
        text := text + value;
        return true;
      }
      var kept := Floor(text, Min(|text|, CONTENT_LIMIT));
      var remaining := CONTENT_LIMIT - kept;
      var end := Floor(value, Min(remaining, |value|));
      text := text[..kept] + value[..end] + MARKER;
      truncated := true;
      return true;
    }
  }

  /** The loop that backs off to a character boundary. */
  method Floor(s: Text, limit: nat) returns (e: nat)
    requires limit <= |s|
    ensures e == FloorBoundary(s, limit)
  {
    e := limit;
    while e > 0 && !IsBoundary(s, e)
      invariant e <= limit && FloorBoundary(s, limit) == FloorBoundary(s, e)
    {
      e := e - 1;
    }
  }

  /** A captured stream stays valid UTF-8 within the limit. */
  lemma AppendStaysText(o: Output, data: Text)
    requires IsText(o.text) && |o.text| <= OUTPUT_LIMIT
    ensures var r := AppendBounded(o, data); IsText(r.text) && |r.text| <= OUTPUT_LIMIT
  {
    var value := Lossy(data);
    LossyIsText(data);
    TextConcat(o.text, value);
    CutIsText(o.text, KeptEnd(o.text));
    CutIsText(value, AddedEnd(o.text, value));
    AsciiIsText(MARKER_TEXT);
    TextConcat(o.text[..KeptEnd(o.text)], value[..AddedEnd(o.text, value)]);
    TextConcat(CutContent(o.text, value), MARKER);
  }

  // ---- What is kept ------------------------------------------------------------------------------

  /** The end of the first character is a boundary. */
  lemma FirstEndIsBoundary(s: Text)
    requires s != [] && IsText(s)
    ensures IsBoundary(s, ScanChar(s).n)
  {
    var n := ScanChar(s).n;
    if n < |s| { assert s[n..] != [] && s[n..][0] == s[n]; }
  }

  /** Backing off ends at the start exactly when the first character does not fit. */
  lemma FloorIsStart(s: Text, limit: nat)
    requires s != [] && IsText(s) && limit <= |s|
    ensures FloorBoundary(s, limit) == 0 <==> limit < ScanChar(s).n
  {
    FirstEndIsBoundary(s);
    forall k | 0 < k < ScanChar(s).n ensures !IsBoundary(s, k) { NoBoundaryInside(s, k); }
  }

  /** Text with no boundary up to `limit` starts with a character wider than that, so no text within
      `limit` starts it. */
  lemma NoHeadWithin(s: Text, limit: nat, head: Text)
    requires IsText(s) && limit < |s| && forall k | 0 < k <= limit :: !IsBoundary(s, k)
    requires IsText(head) && head != [] && |head| <= limit
    ensures s[..|head|] != head
  {
    FirstEndIsBoundary(s);
    if s[..|head|] == head {
      assert s == head + s[|head|..];
      FrontStaysChar(head, s[|head|..]);
    }
  }

  lemma SameHead(head: Text, a: Text, b: Text)
    ensures head + a == head + b <==> a == b
  {
    if head + a == head + b { assert a == (head + a)[|head|..] == (head + b)[|head|..] == b; }
  }

  lemma PrefixAtCut(text: Text, value: Text, k: nat, e: nat)
    requires k + e <= |text| && e <= |value|
    ensures text[..k] + value[..e] <= text + value <==> value[..e] == text[k..k + e]
  {
    var whole := (text + value)[..k + e];
    assert whole == text[..k] + text[k..k + e];
    SameHead(text[..k], value[..e], text[k..k + e]);
  }

  /** What is added behind the cut never repeats what was cut off. */
  lemma AddedDiffers(text: Text, value: Text, k: nat, e: nat)
    requires IsText(text) && IsText(value) && k + e <= CONTENT_LIMIT < |text| && 0 < e <= |value|
    requires IsBoundary(text, k) && IsBoundary(value, e) && forall j | k < j <= CONTENT_LIMIT :: !IsBoundary(text, j)
    ensures value[..e] != text[k..k + e]
  {
    CutIsText(text, k);
    CutIsText(value, e);
    BoundariesBehind(text, k, CONTENT_LIMIT);
    NoHeadWithin(text[k..], CONTENT_LIMIT - k, value[..e]);
    assert text[k..][..e] == text[k..k + e];
  }

  lemma BoundariesBehind(s: Text, k: nat, limit: nat)
    requires k <= limit < |s| && forall j | k < j <= limit :: !IsBoundary(s, j)
    ensures forall j | 0 < j <= limit - k :: !IsBoundary(s[k..], j)
  {
    forall j | 0 < j <= limit - k ensures !IsBoundary(s[k..], j) {
      assert !IsBoundary(s, k + j) && s[k..][j] == s[k + j];
    }
  }

  /** When the limit is passed, the content kept is a prefix of the whole output exactly when the old
      text fit the content limit, or can be cut there, or the first character of the new text is
      wider than the room behind the cut. */
  lemma CutIsPrefix(text: Text, value: Text)
    requires IsText(text) && IsText(value) && |text| + |value| > OUTPUT_LIMIT
    ensures CutContent(text, value) <= text + value <==>
      || |text| <= CONTENT_LIMIT
      || IsBoundary(text, CONTENT_LIMIT)
      || (value != [] ==> ScanChar(value).n > CONTENT_LIMIT - KeptEnd(text))
  {
    var k, e := KeptEnd(text), AddedEnd(text, value);
    if |text| <= CONTENT_LIMIT {
      assert k == |text| && text[..k] == text;
      assert CutContent(text, value) == (text + value)[..|text| + e];
    } else {
      PrefixAtCut(text, value, k, e);
      if e > 0 { AddedDiffers(text, value, k, e); }
      if value != [] { FloorIsStart(value, Min(CONTENT_LIMIT - k, |value|)); }
    }
  }

  /** At most three bytes of the new text can be spliced in behind the cut. */
  lemma SpliceIsShort(text: Text, value: Text)
    requires IsText(text) && |text| > CONTENT_LIMIT
    ensures AddedEnd(text, value) <= 3
  {
    BoundaryIsNear(text, CONTENT_LIMIT);
  }

  /** The splice does happen: the cut falls inside a character, and the new text starts with ASCII. */
  lemma SpliceHappens(text: Text, value: Text)
    requires IsText(text) && |text| > CONTENT_LIMIT && !IsBoundary(text, CONTENT_LIMIT)
    requires IsText(value) && |text| + |value| > OUTPUT_LIMIT && value != [] && value[0] < 0x80
    ensures !(CutContent(text, value) <= text + value)
  {
    CutIsPrefix(text, value);
  }

  // ---- Whole streams -----------------------------------------------------------------------------

  function AppendAll(chunks: seq<Text>): Output {
    if chunks == [] then Output([], false)
    else AppendBounded(AppendAll(chunks[..|chunks| - 1]), chunks[|chunks| - 1])
  }

  /** The unbounded output: every chunk decoded for itself. */
  function Whole(chunks: seq<Text>): Text {
    if chunks == [] then [] else Whole(chunks[..|chunks| - 1]) + Lossy(chunks[|chunks| - 1])
  }

  /** `text` is a prefix of `whole` but for at most three bytes at its end, then the marker. */
  ghost predicate CutFrom(text: Text, whole: Text) {
    exists content: Text, good: nat ::
      && text == content + MARKER && good <= |content| <= good + 3 && |content| <= CONTENT_LIMIT
      && content[..good] <= whole
  }

  /** For every sequence of chunks: the capture is valid UTF-8 of at most 1 MiB; it is everything
      while that fits, and it is marked and cut as soon as it does not. */
  lemma {:induction false} CaptureOfStream(chunks: seq<Text>)
    ensures var o := AppendAll(chunks);
      && IsText(o.text) && |o.text| <= OUTPUT_LIMIT
      && (o.truncated <==> |Whole(chunks)| > OUTPUT_LIMIT)
      && (if o.truncated then CutFrom(o.text, Whole(chunks)) else o.text == Whole(chunks))
  {
    if chunks != [] {
      var init, data := chunks[..|chunks| - 1], chunks[|chunks| - 1];
      CaptureOfStream(init);
      var o := AppendAll(init);
      AppendStaysText(o, data);
      if o.truncated {
        CutFromMore(o.text, Whole(init), Lossy(data));
      } else if |o.text| + |Lossy(data)| > OUTPUT_LIMIT {
        LossyIsText(data);
        CutsNow(o.text, Lossy(data));
      }
    }
  }

  lemma CutFromMore(text: Text, whole: Text, more: Text)
    requires CutFrom(text, whole)
    ensures CutFrom(text, whole + more)
  {
    var content: Text, good: nat :|
      && text == content + MARKER && good <= |content| <= good + 3 && |content| <= CONTENT_LIMIT
      && content[..good] <= whole;
    assert content[..good] <= whole + more;
  }

  lemma CutsNow(text: Text, value: Text)
    requires IsText(text) && IsText(value) && |text| + |value| > OUTPUT_LIMIT
    ensures CutFrom(CutContent(text, value) + MARKER, text + value)
  {
    var content := CutContent(text, value);
    var good := if |text| <= CONTENT_LIMIT then |content| else KeptEnd(text);
    if |text| <= CONTENT_LIMIT { CutIsPrefix(text, value); } else { SpliceIsShort(text, value); }
    GoodHead(text, value, good);
    assert content + MARKER == content + MARKER && good <= |content| <= good + 3;
  }

  lemma GoodHead(text: Text, value: Text, good: nat)
    requires good <= |CutContent(text, value)|
    requires CutContent(text, value) <= text + value || good == KeptEnd(text)
    ensures CutContent(text, value)[..good] <= text + value
  {
    if good == KeptEnd(text) { assert CutContent(text, value)[..good] == text[..good]; }
  }

  /** Backing off to a boundary leaves all but three bytes of the room, or all of the text. */
  lemma CutKeepsMost(text: Text, value: Text)
    requires IsText(text) && IsText(value) && |text| + |value| > OUTPUT_LIMIT
    ensures |CutContent(text, value)| + 3 >= CONTENT_LIMIT
  {
    BoundaryIsNear(text, Min(|text|, CONTENT_LIMIT));
    BoundaryIsNear(value, Min(CONTENT_LIMIT - KeptEnd(text), |value|));
    if |text| <= CONTENT_LIMIT { assert KeptEnd(text) == |text|; }
  }

  /** For every sequence of chunks: output of at most 1048576 bytes is kept as it is; of more, all but the
      last three bytes of that room are used, the marker at the end included. */
  lemma {:induction false} CaptureUsesTheRoom(chunks: seq<Text>)
    ensures var o := AppendAll(chunks);
      if |Whole(chunks)| <= 1048576 then o == Output(Whole(chunks), false)
      else o.truncated && 1048573 <= |o.text| <= 1048576
           && o.text[|o.text| - 40..] == Ascii("\n[RemoteDeck: output truncated at 1 MiB]")
  {
    CaptureOfStream(chunks);
    if chunks != [] {
      var init, data := chunks[..|chunks| - 1], chunks[|chunks| - 1];
      CaptureUsesTheRoom(init);
      CaptureOfStream(init);
      var o := AppendAll(init);
      LossyIsText(data);
      if !o.truncated && |o.text| + |Lossy(data)| > OUTPUT_LIMIT {
        CutKeepsMost(o.text, Lossy(data));
        MarkerBehind(CutContent(o.text, Lossy(data)));
      }
    }
  }

  lemma MarkerBehind(content: Text)
    ensures |MARKER| == 40 && (content + MARKER)[|content + MARKER| - 40..] == MARKER
  {
    assert |MARKER_TEXT| == 40;
  }
}
