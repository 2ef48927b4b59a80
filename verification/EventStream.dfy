/** The global event stream: an evicting log, a lossy broadcast and a filter per connection. */
module EventStream {
  import opened Prelude
  import opened Retention

  const MAX_ENTRIES := 512
  const MAX_BYTES := 8 * 1024 * 1024
  const LOG_LIMITS := Limits(Some(MAX_ENTRIES), MAX_BYTES)
  const CHANNEL := 256

  datatype Payload = Payload(kind: Option<string>, body: string)

  /** `size` is the length of the serialised envelope. */
  datatype Published = Published(event: string, payload: Payload, size: nat)

  datatype Envelope = Envelope(sequence: nat, event: string, payload: Payload)

  /** Everything ever published; the event at index `k` has sequence number `k + 1`. */
  type History = seq<Published>

  function EnvelopeOf(h: History, k: nat): Envelope
    requires k < |h|
  {
    Envelope(k + 1, h[k].event, h[k].payload)
  }

  function Resync(sequence: nat): Envelope { Envelope(sequence, "resync", Payload(None, "")) }

  /** Terminal bytes never enter the global stream. */
  predicate IsTerminalBytes(p: Published) {
    p.event == "terminal-event" && p.payload.kind in {Some("output"), Some("replayTruncated")}
  }

  // ---- The log --------------------------------------------------------------------------------

  function SizeOf(p: Published): nat { p.size }

  /** How many of the oldest events the log has dropped. */
  function Dropped(h: History): (k: nat)
    ensures k <= |h|
  {
    FirstKept(h, SizeOf, LOG_LIMITS)
  }

  function SaturatingSub(a: nat, b: nat): nat { if a < b then 0 else a - b }

  datatype Entry = Entry(envelope: Envelope, size: nat)

  /** The log holds the events of `h` from index `first` on. */
  ghost predicate Logs(h: History, first: nat, sequence: nat, entries: seq<Entry>, bytes: nat) {
    && sequence == |h| && Mirrors(h, SizeOf, first, entries, bytes)
    && forall i | 0 <= i < |entries| :: entries[i] == Entry(EnvelopeOf(h, first + i), h[first + i].size)
  }

  lemma LogsAppend(h: History, first: nat, sequence: nat, entries: seq<Entry>, bytes: nat, p: Published)
    requires Logs(h, first, sequence, entries, bytes)
    ensures Logs(h + [p], first, sequence + 1, entries + [Entry(EnvelopeOf(h + [p], |h|), p.size)], bytes + p.size)
  {
    MirrorsAppend(h, SizeOf, first, entries, bytes, p, Entry(EnvelopeOf(h + [p], |h|), p.size));
  }

  lemma LogsPop(h: History, first: nat, sequence: nat, entries: seq<Entry>, bytes: nat)
    requires Logs(h, first, sequence, entries, bytes) && (|entries| > MAX_ENTRIES || bytes > MAX_BYTES)
    ensures entries != [] && (Overfull(h, SizeOf, LOG_LIMITS, first) ==> Overfull(h, SizeOf, LOG_LIMITS, first + 1))
    ensures entries[0].size <= bytes && Logs(h, first + 1, sequence, entries[1..], bytes - entries[0].size)
  {
    MirrorsPop(h, SizeOf, LOG_LIMITS, first, entries, bytes);
  }

  class EventHub {
    var sequence: nat
    var entries: seq<Entry>
    var bytes: nat
    ghost var history: History

    constructor ()
      ensures Valid() && history == []
    {
      sequence, entries, bytes, history := 0, [], 0, [];
    }

    /** The log holds the longest recent stretch of the history within its limits, and nothing else. */
    ghost predicate Valid()
      reads this
    {
      Logs(history, Dropped(history), sequence, entries, bytes)
    }

    method Publish(p: Published) returns (sent: Option<Envelope>)
      requires Valid()
      modifies this
      ensures Valid()
      ensures history ==
        if p.event == "terminal-event"
           && (p.payload.kind == Some("output") || p.payload.kind == Some("replayTruncated"))
        then old(history) else old(history) + [p]
      ensures sent == if IsTerminalBytes(p) then None else Some(EnvelopeOf(history, |history| - 1))
    {
      if p.event == "terminal-event" && (p.payload.kind == Some("output")
        || p.payload.kind == Some("replayTruncated")) {
        return None;
      }
      ghost var before := history;
      ghost var first := Dropped(before);
      history := history + [p];
      sequence := sequence + 1;
      var item := Envelope(sequence, p.event, p.payload);
      LogsAppend(before, first, sequence - 1, entries, bytes, p);
      bytes := bytes + p.size;
      entries := entries + [Entry(item, p.size)];
      OverfullAppend(before, SizeOf, LOG_LIMITS, first, p);
      Evict(first);
      return Some(item);
    }

    /** Drops the oldest entries until both limits hold. */
    method Evict(ghost start: nat)
      requires Logs(history, start, sequence, entries, bytes) && Overfull(history, SizeOf, LOG_LIMITS, start)
      modifies this`entries, this`bytes
      ensures Valid()
    {
      ghost var first := start;
      while |entries| > MAX_ENTRIES || bytes > MAX_BYTES
        invariant Logs(history, first, sequence, entries, bytes)
        invariant Overfull(history, SizeOf, LOG_LIMITS, first)
        decreases |entries|
      {
        LogsPop(history, first, sequence, entries, bytes);
        bytes := SaturatingSub(bytes, entries[0].size);
        entries := entries[1..];
        first := first + 1;
      }
      FirstKeptUnique(history, SizeOf, LOG_LIMITS, first);
    }

    method Cursor() returns (n: nat)
      requires Valid()
      ensures n == |history|
    {
      n := sequence;
    }

    /** The retained events behind `since`. */
    method RetainedAfter(since: nat) returns (items: seq<Envelope>)
      requires Valid()
      ensures items == Slice(history, Max(since, Dropped(history)), |history|)
    {
      ghost var first := Dropped(history);
      var k := 0;
      items := [];
      while k < |entries|
        invariant k <= |entries|
        invariant items == Slice(history, Max(since, first), first + k)
      {
        if entries[k].envelope.sequence > since { items := items + [entries[k].envelope]; }
        k := k + 1;
      }
    }

    method Initial(since: Option<nat>) returns (items: seq<Envelope>)
      requires Valid()
      ensures items == InitialItems(history, since)
      ensures since.Some? && Dropped(history) <= since.value <= |history| ==>
        && |items| == |history| - since.value
        && forall i | 0 <= i < |items| :: items[i] == EnvelopeOf(history, since.value + i)
      ensures NeedsResync(history, since) ==> items == [Resync(|history|)]
    {
      if since.Some? && since.value <= sequence && (entries == [] || since.value + 1 >= entries[0].envelope.sequence) {
        items := RetainedAfter(since.value);
        return items;
      }
      return [Resync(sequence)];
    }
  }

  function Max(a: nat, b: nat): nat { if a < b then b else a }

  /** The envelopes of the events at indices `a` up to `b`. */
  function Slice(h: History, a: nat, b: nat): (r: seq<Envelope>)
    requires b <= |h|
    ensures |r| == if a <= b then b - a else 0
    ensures forall i | 0 <= i < |r| :: r[i] == EnvelopeOf(h, a + i)
  {
    if a <= b then seq(b - a, i requires 0 <= i < b - a => EnvelopeOf(h, a + i)) else []
  }

  /** The client comes without a position or from beyond the last event, or the log has dropped an
      event it wants and is not empty. */
  predicate NeedsResync(h: History, since: Option<nat>) {
    since.None? || since.value > |h| || since.value < Dropped(h) < |h|
  }

  /** What a new connection is sent first. */
  function InitialItems(h: History, since: Option<nat>): seq<Envelope> {
    if since.Some? && since.value <= |h| && (Dropped(h) == |h| || since.value >= Dropped(h))
    then Slice(h, Max(since.value, Dropped(h)), |h|)
    else [Resync(|h|)]
  }

  /** A start that misses nothing: all events after `since`, or one resync. */
  ghost predicate HonestStart(h: History, since: Option<nat>) {
    || InitialItems(h, since) == [Resync(|h|)]
    || (since.Some? && since.value <= |h| && InitialItems(h, since) == Slice(h, since.value, |h|))
  }

  /** A start hides a gap exactly when the client is behind and the last event alone is over
      the byte limit: the log is then empty, which the code takes for "nothing missed". */
  lemma StartIsHonest(h: History, since: Option<nat>)
    ensures HonestStart(h, since) <==> !(since.Some? && since.value < |h| && h[|h| - 1].size > MAX_BYTES)
  {
    KeepsNothing(h, SizeOf, LOG_LIMITS);
    if since.Some? && since.value < |h| && h[|h| - 1].size > MAX_BYTES {
      assert InitialItems(h, since) == [];
      assert Slice(h, since.value, |h|) != [];
    }
  }

  // ---- One connection ----------------------------------------------------------------------------

  datatype Phase = Unsubscribed | Subscribed | Streaming

  /** `next` is the sequence number of the next message in the broadcast receiver. */
  datatype Connection = Connection(since: Option<nat>, phase: Phase, next: nat, pending: seq<Envelope>,
                                   last: nat, lagged: bool, out: seq<Envelope>)

  datatype World = World(history: History, connection: Connection)

  /** Publishing, subscribing, taking the initial items, taking one item from the stream and
      answering a lag are the atomic steps; they interleave freely. */
  datatype Step = Publish(event: Published) | Subscribe | Start | Receive | AnswerLag

  /** The filter in front of the client. */
  function Deliver(c: Connection, item: Envelope): Connection {
    if item.sequence <= c.last && item.event != "resync" then c
    else c.(last := item.sequence, out := c.out + [item])
  }

  function ReceiveNext(h: History, c: Connection): Connection {
    if c.pending != [] then Deliver(c.(pending := c.pending[1..]), c.pending[0])
    else if c.next + CHANNEL <= |h| then c.(lagged := true, next := |h| - CHANNEL + 1)
    else if 1 <= c.next <= |h| then Deliver(c.(next := c.next + 1), EnvelopeOf(h, c.next - 1))
    else c
  }

  /** The state of one response stream, changed by each turn of its loop. */
  class EventConnection {
    var next: nat
    var pending: seq<Envelope>
    var last: nat
    var lagged: bool
    ghost var since: Option<nat>
    ghost var out: seq<Envelope>

    ghost function Value(): Connection
      reads this
    {
      Connection(since, Streaming, next, pending, last, lagged, out)
    }

    /** A receiver subscribed before `items` were taken from the log. */
    constructor (since: Option<nat>, next: nat, items: seq<Envelope>)
      ensures Value() == Connection(since, Streaming, next, items, if since.Some? then since.value else 0, false, [])
    {
      this.since, this.next, pending, lagged, out := since, next, items, false, [];
      last := if since.Some? then since.value else 0;
    }

    method Filter(item: Envelope) returns (line: Option<Envelope>)
      modifies this`last, this`out
      ensures Value() == Deliver(old(Value()), item)
      ensures out == old(out) + (if line.Some? then [line.value] else [])
    {
      if item.sequence <= last && item.event != "resync" {
        return None;
      }
      last := item.sequence;
      out := out + [item];
      return Some(item);
    }

    /** One turn of the loop that does not have to answer a lag. */
    method Receive(h: History) returns (line: Option<Envelope>)
      requires !lagged
      modifies this
      ensures Value() == ReceiveNext(h, old(Value()))
      ensures out == old(out) + (if line.Some? then [line.value] else [])
    {
      line := None;
      if pending != [] {
        var item := pending[0];
        pending := pending[1..];
        line := Filter(item);
      } else if next + CHANNEL <= |h| {
        lagged, next := true, |h| - CHANNEL + 1;
      } else if 1 <= next <= |h| {
        var item := EnvelopeOf(h, next - 1);
        next := next + 1;
        line := Filter(item);
      }
    }

    method AnswerLag(hub: EventHub) returns (line: Option<Envelope>)
      requires lagged && hub.Valid()
      modifies this
      ensures Value() == Deliver(old(Value()).(lagged := false), Resync(|hub.history|))
      ensures out == old(out) + (if line.Some? then [line.value] else [])
    {
      var cursor := hub.Cursor();
      lagged := false;
      line := Filter(Resync(cursor));
    }
  }

  function Next(w: World, step: Step): World {
    var c := w.connection;
    match step
    case Publish(p) => if IsTerminalBytes(p) then w else w.(history := w.history + [p])
    case Subscribe => if c.phase.Unsubscribed? then w.(connection := c.(phase := Subscribed, next := |w.history| + 1))
      else w
    case Start =>
      if c.phase.Subscribed? then
        w.(connection := c.(phase := Streaming, pending := InitialItems(w.history, c.since),
                            last := if c.since.Some? then c.since.value else 0))
      else w
    case Receive => if c.phase.Streaming? && !c.lagged then w.(connection := ReceiveNext(w.history, c)) else w
    case AnswerLag =>
      if c.phase.Streaming? && c.lagged then w.(connection := Deliver(c.(lagged := false), Resync(|w.history|))) else w
  }

  function Exec(w: World, steps: seq<Step>): World
    decreases |steps|
  {
    if steps == [] then w else Exec(Next(w, steps[0]), steps[1..])
  }

  // ---- No gap without a resync ---------------------------------------------------------------------

  /** An ordinary line is the published event right behind the line before it, the first one
      right behind `since`. */
  ghost predicate InOrder(h: History, since: Option<nat>, out: seq<Envelope>, i: nat)
    requires i < |out|
  {
    out[i].event != "resync" ==>
      && 1 <= out[i].sequence <= |h| && out[i] == EnvelopeOf(h, out[i].sequence - 1)
      && (if i == 0 then since.Some? && out[0].sequence == since.value + 1
          else out[i].sequence == out[i - 1].sequence + 1)
  }

  ghost predicate GapFree(h: History, since: Option<nat>, out: seq<Envelope>) {
    forall i | 0 <= i < |out| :: InOrder(h, since, out, i)
  }

  /** Where the client stands: at its last line, or at the `since` it came with. */
  ghost predicate Positioned(c: Connection) {
    if c.out == [] then (c.since.Some? && c.last == c.since.value) || c.last == 0
    else c.last == c.out[|c.out| - 1].sequence
  }

  /** The pending items, and behind them the receiver, continue where the client stands. */
  ghost predicate Continues(h: History, c: Connection) {
    || (c.pending == [] && c.lagged && c.next <= |h| + 1)
    || (!c.lagged && exists s: nat :: s <= |h| && c.pending == [Resync(s)] && c.next <= s + 1)
    || (!c.lagged && c.last + |c.pending| <= |h| && c.next <= c.last + |c.pending| + 1
        && c.pending == Slice(h, c.last, c.last + |c.pending|) && (c.out == [] ==> c.since == Some(c.last)))
  }

  ghost predicate Inv(w: World) {
    var c := w.connection;
    && GapFree(w.history, c.since, c.out)
    && match c.phase
       case Unsubscribed => c.out == [] && !c.lagged
       case Subscribed => c.out == [] && !c.lagged && 1 <= c.next <= |w.history| + 1
       case Streaming => 1 <= c.next && Positioned(c) && Continues(w.history, c)
  }

  lemma GapFreeGrows(h: History, p: Published, since: Option<nat>, out: seq<Envelope>)
    requires GapFree(h, since, out)
    ensures GapFree(h + [p], since, out)
  {
    forall i | 0 <= i < |out| ensures InOrder(h + [p], since, out, i) {
      assert InOrder(h, since, out, i);
    }
  }

  lemma PublishKeeps(w: World, p: Published)
    requires Inv(w)
    ensures Inv(Next(w, Publish(p)))
  {
    var c := w.connection;
    GapFreeGrows(w.history, p, c.since, c.out);
    if c.phase.Streaming? && !c.lagged && c.last + |c.pending| <= |w.history| {
      assert Slice(w.history + [p], c.last, c.last + |c.pending|) == Slice(w.history, c.last, c.last + |c.pending|);
    }
  }

  /** A resync, or the event right behind the last line, keeps the output gap-free. */
  lemma DeliverKeeps(h: History, c: Connection, item: Envelope)
    requires GapFree(h, c.since, c.out) && Positioned(c)
    requires item.event != "resync" && item.sequence > c.last ==>
               && 1 <= item.sequence <= |h| && item == EnvelopeOf(h, item.sequence - 1)
               && item.sequence == c.last + 1 && (c.out == [] ==> c.since == Some(c.last))
    ensures var c' := Deliver(c, item); GapFree(h, c.since, c'.out) && Positioned(c')
  {
    var c' := Deliver(c, item);
    forall i | 0 <= i < |c'.out| ensures InOrder(h, c.since, c'.out, i) {
      if i < |c.out| { assert InOrder(h, c.since, c.out, i); }
    }
  }

  /** Taking a pending item: the rest continues behind it. */
  lemma PendingKeeps(h: History, c: Connection)
    requires GapFree(h, c.since, c.out) && Positioned(c) && Continues(h, c) && c.pending != []
    ensures var c' := Deliver(c.(pending := c.pending[1..]), c.pending[0]);
      GapFree(h, c.since, c'.out) && Positioned(c') && Continues(h, c')
  {
    var c' := Deliver(c.(pending := c.pending[1..]), c.pending[0]);
    DeliverKeeps(h, c.(pending := c.pending[1..]), c.pending[0]);
    assert c'.pending == Slice(h, c'.last, c'.last + |c'.pending|);
  }

  /** Taking a message from the receiver: the next one is never beyond the line behind it. */
  lemma MessageKeeps(h: History, c: Connection)
    requires GapFree(h, c.since, c.out) && Positioned(c) && Continues(h, c)
    requires c.pending == [] && !c.lagged && 1 <= c.next <= |h|
    ensures var c' := Deliver(c.(next := c.next + 1), EnvelopeOf(h, c.next - 1));
      GapFree(h, c.since, c'.out) && Positioned(c') && Continues(h, c')
  {
    var c' := Deliver(c.(next := c.next + 1), EnvelopeOf(h, c.next - 1));
    DeliverKeeps(h, c.(next := c.next + 1), EnvelopeOf(h, c.next - 1));
    assert c'.pending == Slice(h, c'.last, c'.last);
  }

  lemma ReceiveKeeps(w: World)
    requires Inv(w)
    ensures Inv(Next(w, Receive))
  {
    var h, c := w.history, w.connection;
    if c.phase.Streaming? && !c.lagged {
      if c.pending != [] { PendingKeeps(h, c); }
      else if 1 <= c.next <= |h| && c.next + CHANNEL > |h| { MessageKeeps(h, c); }
    }
  }

  lemma AnswerLagKeeps(w: World)
    requires Inv(w)
    ensures Inv(Next(w, AnswerLag))
  {
    var h, c := w.history, w.connection;
    if c.phase.Streaming? && c.lagged {
      DeliverKeeps(h, c.(lagged := false), Resync(|h|));
      assert [] == Slice(h, |h|, |h|);
    }
  }

  lemma NextKeeps(w: World, step: Step)
    requires Inv(w) && (step.Start? ==> HonestStart(w.history, w.connection.since))
    ensures Inv(Next(w, step))
  {
    match step
    case Publish(p) => PublishKeeps(w, p);
    case Receive => ReceiveKeeps(w);
    case AnswerLag => AnswerLagKeeps(w);
    case Subscribe =>
    case Start =>
  }

  /** At every start the client is not behind an oversized last event. */
  ghost predicate StartsHonestly(w: World, steps: seq<Step>)
    decreases |steps|
  {
    steps != [] ==>
      && (steps[0].Start? ==> HonestStart(w.history, w.connection.since))
      && StartsHonestly(Next(w, steps[0]), steps[1..])
  }

  lemma {:induction false} ExecKeeps(w: World, steps: seq<Step>)
    requires Inv(w) && StartsHonestly(w, steps)
    ensures Inv(Exec(w, steps))
    decreases |steps|
  {
    if steps != [] {
      NextKeeps(w, steps[0]);
      ExecKeeps(Next(w, steps[0]), steps[1..]);
    }
  }

  function NewConnection(since: Option<nat>): Connection {
    Connection(since, Unsubscribed, 0, [], 0, false, [])
  }

  /** For every interleaving with publishers, no ordinary event ever follows a gap that no
      resync announced; and a client that has taken everything stands at the latest event. */
  lemma NoHiddenGap(h: History, since: Option<nat>, steps: seq<Step>)
    requires StartsHonestly(World(h, NewConnection(since)), steps)
    ensures var w := Exec(World(h, NewConnection(since)), steps); var c := w.connection;
      && GapFree(w.history, since, c.out)
      && (c.phase.Streaming? && !c.lagged && c.pending == [] && c.next > |w.history| ==> c.last == |w.history|)
  {
    var w := World(h, NewConnection(since));
    ExecKeeps(w, steps);
    SinceKept(w, steps);
  }

  lemma {:induction false} SinceKept(w: World, steps: seq<Step>)
    ensures Exec(w, steps).connection.since == w.connection.since
    decreases |steps|
  {
    if steps != [] { SinceKept(Next(w, steps[0]), steps[1..]); }
  }

  predicate AllSmall(h: History) { forall p | p in h :: p.size <= MAX_BYTES }

  predicate StepsSmall(steps: seq<Step>) { forall s | s in steps && s.Publish? :: s.event.size <= MAX_BYTES }

  /** Events of at most 8 MiB always leave every start honest. */
  lemma {:induction false} SmallEventsStartHonestly(w: World, steps: seq<Step>)
    requires AllSmall(w.history) && StepsSmall(steps)
    ensures StartsHonestly(w, steps)
    decreases |steps|
  {
    if steps != [] {
      StartIsHonest(w.history, w.connection.since);
      assert steps[0] in steps;
      SmallEventsStartHonestly(Next(w, steps[0]), steps[1..]);
    }
  }

  /** Between two resyncs the lines are numbered without a hole, each the event published
      under that number. */
  lemma {:induction false} SegmentIsContiguous(h: History, since: Option<nat>, out: seq<Envelope>, i: nat, j: nat)
    requires GapFree(h, since, out) && i <= j < |out|
    requires forall k | i < k <= j :: out[k].event != "resync"
    ensures out[j].sequence == out[i].sequence + (j - i)
    ensures i < j ==> 1 <= out[j].sequence <= |h| && out[j] == EnvelopeOf(h, out[j].sequence - 1)
    decreases j
  {
    if i < j {
      SegmentIsContiguous(h, since, out, i, j - 1);
      assert InOrder(h, since, out, j);
    }
  }

  /** The hidden gap: behind an oversized event, the client is sent the next event as if
      nothing lay between. */
  lemma OversizedEventHidesGap(h: History, since: nat, p: Published)
    requires since < |h| && h[|h| - 1].size > MAX_BYTES
    requires !IsTerminalBytes(p) && p.event != "resync"
    ensures var w := Exec(World(h, NewConnection(Some(since))), [Subscribe, Start, Publish(p), Receive]);
      w.connection.out == [EnvelopeOf(h + [p], |h|)] && !GapFree(w.history, Some(since), w.connection.out)
  {
    KeepsNothing(h, SizeOf, LOG_LIMITS);
    var w0 := World(h, NewConnection(Some(since)));
    var w1 := Next(w0, Subscribe);
    var w2 := Next(w1, Start);
    assert w2.connection.pending == [];
    var w3 := Next(w2, Publish(p));
    var w4 := Next(w3, Receive);
    var steps := [Subscribe, Start, Publish(p), Receive];
    assert steps[1..] == [Start, Publish(p), Receive] && steps[1..][1..] == [Publish(p), Receive];
    assert steps[1..][1..][1..] == [Receive] && steps[1..][1..][1..][1..] == [];
    assert Exec(w0, steps) == Exec(w1, steps[1..]) == Exec(w2, steps[1..][1..]) == Exec(w3, [Receive]) == Exec(w4, []);
    assert !InOrder(w4.history, Some(since), w4.connection.out, 0);
  }
}
