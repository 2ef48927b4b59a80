/** The bounded replay log of one terminal, and a browser socket that joins it to the live
    broadcast. */
module TerminalReplay {
  import opened Prelude
  import opened Retention

  const MAX_REPLAY_BYTES := 1024 * 1024
  const REPLAY_LIMITS := Limits(None, MAX_REPLAY_BYTES)
  const CHANNEL := 512

  datatype Event = Event(kind: string, data: Option<seq<Byte>>)

  datatype Frame = Frame(sequence: nat, event: Event)

  /** Every event of one generation; the event at index `k` has sequence number `k + 1`. */
  type History = seq<Event>

  function BytesOf(e: Event): nat { if e.data.Some? then |e.data.value| else 0 }

  /** How many of the oldest events the log has dropped, and thus the last dropped sequence. */
  function DroppedThrough(h: History): (k: nat)
    ensures k <= |h|
  {
    FirstKept(h, BytesOf, REPLAY_LIMITS)
  }

  function FrameOf(h: History, k: nat): Frame
    requires k < |h|
  {
    Frame(k + 1, h[k])
  }

  function Marker(droppedThrough: nat): Frame { Frame(droppedThrough, Event("replayTruncated", None)) }

  /** The frames of the events at indices `a` up to `b`. */
  function Slice(h: History, a: nat, b: nat): (r: seq<Frame>)
    requires b <= |h|
    ensures |r| == if a <= b then b - a else 0
    ensures forall i | 0 <= i < |r| :: r[i] == FrameOf(h, a + i)
  {
    if a <= b then seq(b - a, i requires 0 <= i < b - a => FrameOf(h, a + i)) else []
  }

  function Wanted(since: Option<nat>): nat { if since.Some? then since.value else 0 }

  function Max(a: nat, b: nat): nat { if a < b then b else a }

  predicate IsTruncated(h: History, since: Option<nat>) {
    DroppedThrough(h) > 0 && (since.None? || since.value < DroppedThrough(h))
  }

  /** Where the events sent to an attachment start: behind what was dropped, or behind what the
      client has, but never beyond what exists. */
  function StartOf(h: History, since: Option<nat>): (k: nat)
    ensures k <= |h|
  {
    if IsTruncated(h, since) then DroppedThrough(h)
    else if Wanted(since) < |h| then Wanted(since) else |h|
  }

  function Opening(h: History, since: Option<nat>): seq<Frame> {
    if IsTruncated(h, since) then [Marker(DroppedThrough(h))] else []
  }

  /** What an attachment is due once the events of `h` up to `n` are out: the marker, if any, and
      then the events from the start on. */
  function Due(h0: History, since: Option<nat>, h: History, n: nat): seq<Frame>
    requires n <= |h|
  {
    Opening(h0, since) + Slice(h, StartOf(h0, since), n)
  }

  /** The log holds the events of `h` from index `first` on. */
  ghost predicate Logs(h: History, first: nat, next: nat, entries: seq<Frame>, bytes: nat, dropped: Option<nat>) {
    && next == |h| && Mirrors(h, BytesOf, first, entries, bytes)
    && dropped == (if first == 0 then None else Some(first))
    && forall i | 0 <= i < |entries| :: entries[i] == FrameOf(h, first + i)
  }

  lemma LogsAppend(h: History, first: nat, next: nat, entries: seq<Frame>, bytes: nat, dropped: Option<nat>, e: Event)
    requires Logs(h, first, next, entries, bytes, dropped)
    ensures Logs(h + [e], first, next + 1, entries + [Frame(next + 1, e)], bytes + BytesOf(e), dropped)
  {
    MirrorsAppend(h, BytesOf, first, entries, bytes, e, Frame(next + 1, e));
  }

  lemma LogsPop(h: History, first: nat, next: nat, entries: seq<Frame>, bytes: nat, dropped: Option<nat>)
    requires Logs(h, first, next, entries, bytes, dropped) && bytes > MAX_REPLAY_BYTES
    ensures entries != [] && (Overfull(h, BytesOf, REPLAY_LIMITS, first) ==>
      Overfull(h, BytesOf, REPLAY_LIMITS, first + 1))
    ensures BytesOf(entries[0].event) <= bytes
    ensures Logs(h, first + 1, next, entries[1..], bytes - BytesOf(entries[0].event), Some(entries[0].sequence))
  {
    MirrorsPop(h, BytesOf, REPLAY_LIMITS, first, entries, bytes);
  }

  class TerminalEventStream {
    var replay: seq<Frame>
    var replayBytes: nat
    var nextSequence: nat
    var droppedThrough: Option<nat>
    ghost var history: History

    constructor ()
      ensures Valid() && history == []
    {
      replay, replayBytes, nextSequence, droppedThrough, history := [], 0, 0, None, [];
    }

    /** The log keeps the longest recent stretch within its limit and remembers the last
        sequence it dropped; its counter is the sum over what it keeps. */
    ghost predicate Valid()
      reads this
    {
      Logs(history, DroppedThrough(history), nextSequence, replay, replayBytes, droppedThrough)
    }

    method Publish(e: Event) returns (f: Frame)
      requires Valid()
      modifies this
      ensures Valid() && history == old(history) + [e] && f == FrameOf(history, |history| - 1)
      ensures replayBytes <= MAX_REPLAY_BYTES
    {
      ghost var before := history;
      ghost var first := DroppedThrough(before);
      LogsAppend(before, first, nextSequence, replay, replayBytes, droppedThrough, e);
      OverfullAppend(before, BytesOf, REPLAY_LIMITS, first, e);
      history := history + [e];
      nextSequence := nextSequence + 1;
      f := Frame(nextSequence, e);
      replayBytes := replayBytes + BytesOf(e);
      replay := replay + [f];
      Evict(first);
    }

    method Evict(ghost start: nat)
      requires Logs(history, start, nextSequence, replay, replayBytes, droppedThrough)
      requires Overfull(history, BytesOf, REPLAY_LIMITS, start)
      modifies this`replay, this`replayBytes, this`droppedThrough
      ensures Valid() && replayBytes <= MAX_REPLAY_BYTES
    {
      ghost var first := start;
      while replayBytes > MAX_REPLAY_BYTES
        invariant Logs(history, first, nextSequence, replay, replayBytes, droppedThrough)
        invariant Overfull(history, BytesOf, REPLAY_LIMITS, first)
        decreases |replay|
      {
        LogsPop(history, first, nextSequence, replay, replayBytes, droppedThrough);
        var removed := replay[0];
        replay := replay[1..];
        replayBytes := replayBytes - BytesOf(removed.event);
        droppedThrough := Some(removed.sequence);
        first := first + 1;
      }
      FirstKeptUnique(history, BytesOf, REPLAY_LIMITS, first);
    }

    /** The retained events behind `after`. */
    method RetainedAfter(after: nat) returns (frames: seq<Frame>)
      requires Valid()
      ensures frames == Slice(history, Max(after, DroppedThrough(history)), |history|)
    {
      ghost var first := DroppedThrough(history);
      var k := 0;
      frames := [];
      while k < |replay|
        invariant k <= |replay|
        invariant frames == Slice(history, Max(after, first), first + k)
      {
        if replay[k].sequence > after { frames := frames + [replay[k]]; }
        k := k + 1;
      }
    }

    /** The replay, and the sequence number the live receiver will deliver next. */
    method Attach(since: Option<nat>) returns (frames: seq<Frame>, next: nat)
      requires Valid()
      ensures next == |history| + 1
      ensures frames == Due(history, since, history, |history|)
    {
      next := nextSequence + 1;
      var truncated := droppedThrough.Some? && (since.None? || since.value < droppedThrough.value);
      frames := if truncated then [Marker(droppedThrough.value)] else [];
      var rest := RetainedAfter(if since.Some? then since.value else 0);
      frames := frames + rest;
    }
  }

  /** The event at index `k` is behind what the client has, and gone from the log. */
  predicate WantedButDropped(h: History, since: Option<nat>, k: nat) { Wanted(since) <= k < DroppedThrough(h) }

  /** The marker is sent exactly when an event the client wanted was dropped. */
  lemma MarkerIffWantedDropped(h: History, since: Option<nat>)
    ensures IsTruncated(h, since) <==> exists k: nat | k < |h| :: WantedButDropped(h, since, k)
  {
    if IsTruncated(h, since) { assert WantedButDropped(h, since, Wanted(since)); }
  }

  /** Without a marker, all that the client wanted and that exists is still there. */
  lemma NothingWantedMissing(h: History, since: Option<nat>)
    requires !IsTruncated(h, since)
    ensures DroppedThrough(h) <= StartOf(h, since) || StartOf(h, since) == |h|
    ensures since.Some? && since.value <= |h| ==> StartOf(h, since) == since.value
    ensures since.None? ==> StartOf(h, since) == 0
    ensures since.Some? && since.value > |h| ==> StartOf(h, since) == |h|
  {
  }

  // ---- The socket loop -----------------------------------------------------------------------

  /** `unsent` is the rest of the replay; `next` is the receiver's next sequence number. */
  datatype Socket = Socket(unsent: seq<Frame>, next: nat, sequence: nat, sent: seq<Frame>, lagged: bool)

  function Attached(h: History, since: Option<nat>): Socket {
    Socket(Due(h, since, h, |h|), |h| + 1, 0, [], false)
  }

  /** One turn: a replay frame, or a live event unless it was sent already, or the end after a lag. */
  function Turn(h: History, s: Socket): Socket {
    if s.lagged then s
    else if s.unsent != [] then
      s.(unsent := s.unsent[1..], sequence := s.unsent[0].sequence, sent := s.sent + [s.unsent[0]])
    else if s.next + CHANNEL <= |h| then s.(lagged := true)
    else if 1 <= s.next <= |h| then
      if s.next <= s.sequence then s.(next := s.next + 1)
      else s.(next := s.next + 1, sequence := s.next, sent := s.sent + [FrameOf(h, s.next - 1)])
    else s
  }

  class TerminalSocket {
    var unsent: seq<Frame>
    var next: nat
    var sequence: nat
    var lagged: bool
    ghost var sent: seq<Frame>

    ghost function Value(): Socket
      reads this
    {
      Socket(unsent, next, sequence, sent, lagged)
    }

    constructor (stream: TerminalEventStream, since: Option<nat>)
      requires stream.Valid()
      ensures Value() == Attached(stream.history, since)
    {
      var frames, from := stream.Attach(since);
      unsent, next, sequence, lagged, sent := frames, from, 0, false, [];
    }

    method SendReplay()
      requires !lagged
      modifies this
      ensures unsent == [] && !lagged && next == old(next)
      ensures sent == old(sent) + old(unsent)
      ensures sequence == if old(unsent) == [] then old(sequence) else old(unsent)[|old(unsent)| - 1].sequence
    {
      ghost var all := unsent;
      ghost var k := 0;
      while unsent != []
        invariant k <= |all| && unsent == all[k..] && sent == old(sent) + all[..k]
        invariant !lagged && next == old(next)
        invariant sequence == if k == 0 then old(sequence) else all[k - 1].sequence
        decreases |unsent|
      {
        sequence := unsent[0].sequence;
        sent := sent + [unsent[0]];
        assert all[..k + 1] == all[..k] + [all[k]];
        unsent := unsent[1..];
        k := k + 1;
      }
      assert all[..k] == all;
    }

    /** What the receiver yields from the events `h` published so far. */
    method Receive(h: History) returns (frame: Option<Frame>)
      requires !lagged && unsent == []
      modifies this
      ensures Value() == Turn(h, old(Value()))
      ensures sent == old(sent) + (if frame.Some? then [frame.value] else [])
    {
      if next + CHANNEL <= |h| {
        lagged := true;
        return None;
      }
      if !(1 <= next <= |h|) {
        return None;
      }
      var f := FrameOf(h, next - 1);
      next := next + 1;
      if f.sequence <= sequence {
        return None;
      }
      sequence := f.sequence;
      sent := sent + [f];
      return Some(f);
    }
  }

  // ---- Replay and live output join without a seam ------------------------------------------------

  datatype World = World(history: History, socket: Socket)

  datatype Step = Publish(event: Event) | SocketTurn

  function Next(w: World, step: Step): World {
    match step
    case Publish(e) => w.(history := w.history + [e])
    case SocketTurn => w.(socket := Turn(w.history, w.socket))
  }

  function Exec(w: World, steps: seq<Step>): World
    decreases |steps|
  {
    if steps == [] then w else Exec(Next(w, steps[0]), steps[1..])
  }

  /** Everything sent and still to be sent from the replay is the marker, if any, and then the
      events from the start on, without a hole or a repeat. */
  ghost predicate Seamless(h0: History, since: Option<nat>, w: World) {
    var s := w.socket;
    && h0 <= w.history && |h0| < s.next <= |w.history| + 1
    && s.sequence < s.next
    && (s.unsent != [] ==> s.next == |h0| + 1)
    && (forall i | 0 <= i < |s.unsent| :: s.unsent[i].sequence <= |h0|)
    && s.sent + s.unsent == Due(h0, since, w.history, s.next - 1)
  }

  lemma AttachedSeamless(h: History, since: Option<nat>)
    ensures Seamless(h, since, World(h, Attached(h, since)))
  {
  }

  lemma SliceGrows(h: History, h': History, a: nat, b: nat)
    requires h <= h' && b <= |h|
    ensures Slice(h', a, b) == Slice(h, a, b)
  {
  }

  lemma DueGrows(h0: History, since: Option<nat>, h: History, n: nat)
    requires |h0| <= n < |h|
    ensures Due(h0, since, h, n + 1) == Due(h0, since, h, n) + [FrameOf(h, n)]
  {
    assert Slice(h, StartOf(h0, since), n + 1) == Slice(h, StartOf(h0, since), n) + [FrameOf(h, n)];
  }

  lemma SendsOne(s: Socket, due: seq<Frame>)
    requires s.unsent != [] && s.sent + s.unsent == due
    ensures (s.sent + [s.unsent[0]]) + s.unsent[1..] == due
    ensures forall i | 0 <= i < |s.unsent[1..]| :: s.unsent[1..][i] == s.unsent[i + 1]
  {
  }

  lemma SendsLive(s: Socket, due: seq<Frame>, f: Frame)
    requires s.unsent == [] && s.sent + s.unsent == due
    ensures (s.sent + [f]) + s.unsent == due + [f]
  {
  }

  lemma ReplayTurnKeeps(h0: History, since: Option<nat>, w: World)
    requires Seamless(h0, since, w) && !w.socket.lagged && w.socket.unsent != []
    ensures Seamless(h0, since, Next(w, SocketTurn))
  {
    SendsOne(w.socket, Due(h0, since, w.history, w.socket.next - 1));
  }

  lemma LiveTurn(h: History, s: Socket)
    requires !s.lagged && s.unsent == [] && 1 <= s.next <= |h| < s.next + CHANNEL && s.sequence < s.next
    ensures Next(World(h, s), SocketTurn)
      == World(h, s.(next := s.next + 1, sequence := s.next, sent := s.sent + [FrameOf(h, s.next - 1)]))
  {
  }

  lemma LiveFrameKeeps(h0: History, since: Option<nat>, h: History, s: Socket)
    requires Seamless(h0, since, World(h, s)) && s.unsent == [] && s.next <= |h|
    ensures Seamless(h0, since, World(h, s.(next := s.next + 1, sequence := s.next,
      sent := s.sent + [FrameOf(h, s.next - 1)])))
  {
    DueGrows(h0, since, h, s.next - 1);
    SendsLive(s, Due(h0, since, h, s.next - 1), FrameOf(h, s.next - 1));
  }

  lemma LiveTurnKeeps(h0: History, since: Option<nat>, w: World)
    requires Seamless(h0, since, w) && !w.socket.lagged && w.socket.unsent == []
    requires w.socket.next <= |w.history| < w.socket.next + CHANNEL
    ensures Seamless(h0, since, Next(w, SocketTurn))
  {
    var (h, s) := (w.history, w.socket);
    assert w == World(h, s);
    LiveTurn(h, s);
    LiveFrameKeeps(h0, since, h, s);
  }

  lemma TurnKeeps(h0: History, since: Option<nat>, w: World)
    requires Seamless(h0, since, w)
    ensures Seamless(h0, since, Next(w, SocketTurn))
  {
    var s := w.socket;
    if !s.lagged {
      if s.unsent != [] { ReplayTurnKeeps(h0, since, w); }
      else if s.next <= |w.history| < s.next + CHANNEL { LiveTurnKeeps(h0, since, w); }
    }
  }

  lemma NextKeeps(h0: History, since: Option<nat>, w: World, step: Step)
    requires Seamless(h0, since, w)
    ensures Seamless(h0, since, Next(w, step))
  {
    match step
    case Publish(e) => SliceGrows(w.history, w.history + [e], StartOf(h0, since), w.socket.next - 1);
    case SocketTurn => TurnKeeps(h0, since, w);
  }

  lemma {:induction false} ExecKeeps(h0: History, since: Option<nat>, w: World, steps: seq<Step>)
    requires Seamless(h0, since, w)
    ensures Seamless(h0, since, Exec(w, steps))
    decreases |steps|
  {
    if steps != [] {
      NextKeeps(h0, since, w, steps[0]);
      ExecKeeps(h0, since, Next(w, steps[0]), steps[1..]);
    }
  }

  /** However publishing and the socket interleave: what was sent is a beginning of the marker
      (if one was due) followed by the events right behind the start, and once the replay is
      through, all of them up to the receiver's position. */
  lemma ReplayJoinsLive(h: History, since: Option<nat>, steps: seq<Step>)
    ensures var w := Exec(World(h, Attached(h, since)), steps); var s := w.socket;
      && |h| < s.next <= |w.history| + 1
      && s.sent <= Due(h, since, w.history, s.next - 1)
      && (s.unsent == [] ==> s.sent == Due(h, since, w.history, s.next - 1))
  {
    AttachedSeamless(h, since);
    ExecKeeps(h, since, World(h, Attached(h, since)), steps);
  }
}
