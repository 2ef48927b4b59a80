/** What the event stream does deliver: what the log has dropped, what a start answers, and that a client
    that keeps up is sent every event behind its position, once and in order. */
module EventReplay {
  import opened Prelude
  import opened Retention
  import opened EventStream

  /** The log holds at most 512 events and 8 MiB, and drops no event that would still fit. */
  lemma DroppedExactly(h: History)
    ensures var k := Dropped(h);
      && |h| - k <= 512 && Weight(h[k..], SizeOf) <= 8388608
      && forall j | 0 <= j < k :: |h| - j > 512 || Weight(h[j..], SizeOf) > 8388608
  {
  }

  /** The last event was published under the name of a resync. */
  predicate LooksLikeResync(h: History, since: Option<nat>) {
    |h| > 0 && since == Some(|h| - 1) && Dropped(h) < |h| && EnvelopeOf(h, |h| - 1) == Resync(|h|)
  }

  /** A start is answered with the events behind `since`, each once and in order, if the log still has
      all of them; with one resync if and only if the client has no position, or comes from beyond the
      last event, or an event it wants was dropped and the log is not empty; and with nothing if the
      log has been emptied. */
  lemma StartAnswers(h: History, since: Option<nat>)
    ensures var items := InitialItems(h, since);
      && (since.Some? && Dropped(h) <= since.value <= |h| ==>
            && |items| == |h| - since.value
            && forall i | 0 <= i < |items| :: items[i] == EnvelopeOf(h, since.value + i))
      && (items == [Resync(|h|)] <==> NeedsResync(h, since) || LooksLikeResync(h, since))
      && (items == [] <==> since.Some? && since.value <= |h| && (since.value == |h| || Dropped(h) == |h|))
  {
    var items := InitialItems(h, since);
    if |items| == 1 {
      assert items == [Resync(|h|)] <==> items[0] == Resync(|h|);
    }
    if LooksLikeResync(h, since) { assert |items| == 1 && items[0] == EnvelopeOf(h, |h| - 1); }
  }

  // ---- A client that keeps up -----------------------------------------------------------------------

  /** The log still has what the client wants when it starts, and fewer than 256 messages wait whenever
      it takes one. */
  ghost predicate KeepsUp(w: World, steps: seq<Step>)
    decreases |steps|
  {
    steps != [] ==>
      var c := w.connection;
      && (steps[0].Start? && c.phase.Subscribed? ==>
           c.since.Some? && Dropped(w.history) <= c.since.value <= |w.history|)
      && (steps[0].Receive? && c.phase.Streaming? && c.pending == [] ==> |w.history| < c.next + 256)
      && KeepsUp(Next(w, steps[0]), steps[1..])
  }

  /** An event named like a resync is published at an index from `from` up to `to`. */
  predicate ResyncWithin(h: History, from: int, to: int) {
    exists k :: from <= k < to && 0 <= k < |h| && h[k].event == "resync"
  }

  /** Between the subscription and the start no resync was published. */
  ghost predicate StartsPlain(w: World, steps: seq<Step>)
    decreases |steps|
  {
    steps != [] ==>
      var c := w.connection;
      && (steps[0].Start? && c.phase.Subscribed? ==> !ResyncWithin(w.history, c.next - 1, |w.history|))
      && StartsPlain(Next(w, steps[0]), steps[1..])
  }

  /** The client has the events behind `since` up to where it stands, and what waits for it follows. */
  ghost predicate Shape(h: History, c: Connection) {
    && c.since.Some? && 1 <= c.next && c.since.value <= c.last && c.last + |c.pending| <= |h|
    && c.next <= c.last + |c.pending| + 1
    && c.out == Slice(h, c.since.value, c.last) && c.pending == Slice(h, c.last, c.last + |c.pending|)
  }

  /** A resync that is among the answered events will come again. */
  ghost predicate Echoes(h: History, c: Connection) { ResyncWithin(h, c.next - 1, c.last + |c.pending|) }

  /** A line does not go on from the line before it. */
  predicate BackAt(since: nat, out: seq<Envelope>, i: int) {
    0 <= i < |out| && out[i].sequence <= if i == 0 then since else out[i - 1].sequence
  }

  ghost predicate StepsBack(since: nat, out: seq<Envelope>) { exists i :: BackAt(since, out, i) }

  ghost predicate Early(w: World) {
    var c := w.connection;
    !c.lagged && c.out == [] && (c.phase.Subscribed? ==> 1 <= c.next <= |w.history| + 1)
  }

  ghost predicate Complete(w: World) {
    var (h, c) := (w.history, w.connection);
    if c.phase.Streaming? then !c.lagged && Shape(h, c) && !Echoes(h, c) else Early(w)
  }

  ghost predicate Doubled(w: World) {
    var (h, c) := (w.history, w.connection);
    c.phase.Streaming? && !c.lagged && c.since.Some?
      && (StepsBack(c.since.value, c.out) || (Shape(h, c) && Echoes(h, c)))
  }

  lemma SliceGrows(h: History, p: Published, a: nat, b: nat)
    requires b <= |h|
    ensures Slice(h + [p], a, b) == Slice(h, a, b)
  {
  }

  lemma SliceMore(h: History, a: nat, b: nat)
    requires a <= b < |h|
    ensures Slice(h, a, b) + [EnvelopeOf(h, b)] == Slice(h, a, b + 1)
  {
  }

  lemma SliceSteps(h: History, a: nat, b: nat)
    requires a <= b <= |h|
    ensures !StepsBack(a, Slice(h, a, b))
  {
  }

  lemma ResyncWithinGrows(h: History, p: Published, from: int, to: int)
    requires to <= |h|
    ensures ResyncWithin(h + [p], from, to) <==> ResyncWithin(h, from, to)
  {
    var more := h + [p];
    if ResyncWithin(h, from, to) {
      var k :| from <= k < to && 0 <= k < |h| && h[k].event == "resync";
      assert more[k] == h[k];
    }
    if ResyncWithin(more, from, to) {
      var k :| from <= k < to && 0 <= k < |more| && more[k].event == "resync";
      assert more[k] == h[k];
    }
  }

  lemma PublishShape(h: History, p: Published, c: Connection)
    requires Shape(h, c)
    ensures Shape(h + [p], c) && (Echoes(h + [p], c) <==> Echoes(h, c))
  {
    SliceGrows(h, p, c.since.value, c.last);
    SliceGrows(h, p, c.last, c.last + |c.pending|);
    ResyncWithinGrows(h, p, c.next - 1, c.last + |c.pending|);
  }

  /** Taking an item that waits. */
  lemma PendingShape(h: History, c: Connection)
    requires Shape(h, c) && c.pending != []
    ensures var c' := ReceiveNext(h, c); Shape(h, c') && c'.lagged == c.lagged && (Echoes(h, c') <==> Echoes(h, c))
  {
    SliceMore(h, c.since.value, c.last);
    assert c.pending[0] == EnvelopeOf(h, c.last);
    assert c.pending[1..] == Slice(h, c.last + 1, c.last + |c.pending|);
  }

  /** Taking a message: it is skipped, or the next event, or a resync that comes again. */
  lemma MessageShape(h: History, c: Connection)
    requires Shape(h, c) && c.pending == [] && c.next <= |h| < c.next + 256
    ensures var c' := ReceiveNext(h, c);
      if c.next <= c.last && h[c.next - 1].event == "resync"
      then c'.out == c.out + [EnvelopeOf(h, c.next - 1)] && c'.lagged == c.lagged && c'.since == c.since
      else Shape(h, c') && c'.lagged == c.lagged && (Echoes(h, c') <==> Echoes(h, c))
  {
    var k := c.next - 1;
    if c.next > c.last {
      SliceMore(h, c.since.value, c.last);
      assert Slice(h, c.last + 1, c.last + 1) == [];
    } else if h[k].event != "resync" {
      EchoesLater(h, c.next, c.last);
    }
  }

  lemma EchoesLater(h: History, next: nat, last: nat)
    requires 1 <= next <= |h| && h[next - 1].event != "resync"
    ensures ResyncWithin(h, next - 1, last) <==> ResyncWithin(h, next, last)
  {
    if ResyncWithin(h, next - 1, last) {
      var k :| next - 1 <= k < last && 0 <= k < |h| && h[k].event == "resync";
      assert next <= k;
    }
  }

  lemma ShapeEnds(h: History, c: Connection)
    requires Shape(h, c)
    ensures |c.out| == c.last - c.since.value
    ensures c.last == if c.out == [] then c.since.value else c.out[|c.out| - 1].sequence
  {
  }

  lemma StepsBackGrows(since: nat, out: seq<Envelope>, item: Envelope)
    ensures StepsBack(since, out) ==> StepsBack(since, out + [item])
    ensures item.sequence <= (if out == [] then since else out[|out| - 1].sequence) ==> StepsBack(since, out + [item])
  {
    var more := out + [item];
    assert more[|out|] == item;
    assert BackAt(since, more, |out|) <==> item.sequence <= if out == [] then since else out[|out| - 1].sequence;
    if StepsBack(since, out) {
      var i :| BackAt(since, out, i);
      assert BackAt(since, more, i);
    }
  }

  lemma StartShape(w: World)
    requires Early(w) && w.connection.phase.Subscribed? && w.connection.since.Some?
    requires Dropped(w.history) <= w.connection.since.value <= |w.history|
    ensures var w' := Next(w, Start); var c' := w'.connection;
      && c'.phase.Streaming? && !c'.lagged && w'.history == w.history && Shape(w.history, c')
      && (Echoes(w.history, c') <==> ResyncWithin(w.history, w.connection.next - 1, |w.history|))
  {
    var since := w.connection.since.value;
    assert Slice(w.history, since, since) == [];
  }

  /** A start is plain or not, and nothing else decides whether events come twice. */
  lemma CompleteNext(w: World, step: Step)
    requires Complete(w) && KeepsUp(w, [step])
    ensures if StartsPlain(w, [step]) then Complete(Next(w, step)) else Doubled(Next(w, step))
  {
    var (h, c) := (w.history, w.connection);
    assert [step][1..] == [] && StartsPlain(Next(w, step), []);
    match step
    case Publish(p) => if c.phase.Streaming? { PublishShape(h, p, c); }
    case Start => if c.phase.Subscribed? { StartShape(w); }
    case Receive => if c.phase.Streaming? { ReceiveComplete(h, c); }
    case _ =>
  }

  lemma ReceiveComplete(h: History, c: Connection)
    requires !c.lagged && Shape(h, c) && !Echoes(h, c) && (c.pending == [] ==> |h| < c.next + 256)
    ensures var c' := ReceiveNext(h, c); !c'.lagged && Shape(h, c') && !Echoes(h, c')
  {
    if c.pending != [] { PendingShape(h, c); }
    else if c.next <= |h| {
      assert c.next <= c.last && h[c.next - 1].event == "resync" ==> Echoes(h, c);
      MessageShape(h, c);
    }
  }

  lemma DoubledNext(w: World, step: Step)
    requires Doubled(w) && KeepsUp(w, [step])
    ensures Doubled(Next(w, step))
  {
    var (h, c) := (w.history, w.connection);
    match step
    case Publish(p) => if Shape(h, c) && Echoes(h, c) { PublishShape(h, p, c); }
    case Receive => ReceiveDoubled(h, c);
    case _ =>
  }

  lemma ReceiveDoubled(h: History, c: Connection)
    requires !c.lagged && c.since.Some? && (StepsBack(c.since.value, c.out) || (Shape(h, c) && Echoes(h, c)))
    requires c.pending == [] ==> |h| < c.next + 256
    ensures var c' := ReceiveNext(h, c);
      !c'.lagged && c'.since == c.since && (StepsBack(c.since.value, c'.out) || (Shape(h, c') && Echoes(h, c')))
  {
    forall item: Envelope ensures StepsBack(c.since.value, c.out) ==> StepsBack(c.since.value, c.out + [item]) {
      StepsBackGrows(c.since.value, c.out, item);
    }
    if !StepsBack(c.since.value, c.out) {
      if c.pending != [] { PendingShape(h, c); }
      else if c.next <= |h| {
        MessageShape(h, c);
        ShapeEnds(h, c);
        StepsBackGrows(c.since.value, c.out, EnvelopeOf(h, c.next - 1));
      }
    }
  }

  lemma {:induction false} ExecDoubled(w: World, steps: seq<Step>)
    requires Doubled(w) && KeepsUp(w, steps)
    ensures Doubled(Exec(w, steps))
    decreases |steps|
  {
    if steps != [] {
      OneKeepsUp(w, steps);
      DoubledNext(w, steps[0]);
      ExecDoubled(Next(w, steps[0]), steps[1..]);
    }
  }

  lemma OneKeepsUp(w: World, steps: seq<Step>)
    requires KeepsUp(w, steps) && steps != []
    ensures KeepsUp(w, [steps[0]])
    ensures StartsPlain(w, steps) <==> StartsPlain(w, [steps[0]]) && StartsPlain(Next(w, steps[0]), steps[1..])
  {
    assert [steps[0]][1..] == [];
  }

  lemma {:induction false} ExecComplete(w: World, steps: seq<Step>)
    requires Complete(w) && KeepsUp(w, steps)
    ensures if StartsPlain(w, steps) then Complete(Exec(w, steps)) else Doubled(Exec(w, steps))
    decreases |steps|
  {
    if steps != [] {
      OneKeepsUp(w, steps);
      CompleteNext(w, steps[0]);
      if StartsPlain(w, [steps[0]]) { ExecComplete(Next(w, steps[0]), steps[1..]); }
      else { ExecDoubled(Next(w, steps[0]), steps[1..]); }
    }
  }

  /** The events behind `since` up to index `to`, once and in order. */
  ghost predicate Once(h: History, since: nat, to: nat, out: seq<Envelope>) {
    since <= to <= |h| && |out| == to - since && forall i | 0 <= i < |out| :: out[i] == EnvelopeOf(h, since + i)
  }

  /** In every interleaving with publishers, for a client that keeps up: if no resync was published
      between its subscription and its start, it has been sent exactly the events behind `since` up to
      where it stands, once and in order; and a client that has taken everything has been sent every
      event once if and only if that was so. */
  lemma DeliversOnce(h: History, since: nat, steps: seq<Step>)
    requires KeepsUp(World(h, NewConnection(Some(since))), steps)
    ensures var w0 := World(h, NewConnection(Some(since))); var w := Exec(w0, steps); var c := w.connection;
      c.phase.Streaming? ==>
        && (StartsPlain(w0, steps) ==> Once(w.history, since, c.last, c.out))
        && (c.pending == [] && c.next > |w.history| ==>
             (Once(w.history, since, |w.history|, c.out) <==> StartsPlain(w0, steps)))
  {
    var w0 := World(h, NewConnection(Some(since)));
    ExecComplete(w0, steps);
    SinceKept(w0, steps);
    var w := Exec(w0, steps);
    if w.connection.phase.Streaming? && !StartsPlain(w0, steps)
      && Once(w.history, since, |w.history|, w.connection.out) {
      assert w.connection.out == Slice(w.history, since, |w.history|);
      SliceSteps(w.history, since, |w.history|);
    }
  }

  // ---- Nothing is left behind -------------------------------------------------------------------------

  /** How many turns of the stream take all that waits for the client. */
  function Waiting(w: World): nat {
    |w.connection.pending| + (if w.connection.next <= |w.history| then |w.history| + 1 - w.connection.next else 0)
  }

  function Turns(n: nat): (r: seq<Step>)
    ensures |r| == n && forall k | 0 <= k < n :: r[k] == Receive
  {
    seq(n, _ => Receive)
  }

  /** A turn takes an item or a message, if there is one. */
  lemma TurnTakes(w: World)
    requires Complete(w) && w.connection.phase.Streaming? && |w.history| < w.connection.next + 256
    ensures var w' := Next(w, Receive);
      && Complete(w') && w'.connection.phase.Streaming? && |w'.history| < w'.connection.next + 256
      && w'.history == w.history && w'.connection.since == w.connection.since
      && Waiting(w') == (if Waiting(w) == 0 then 0 else Waiting(w) - 1)
  {
    ReceiveComplete(w.history, w.connection);
    if w.connection.pending != [] { PendingShape(w.history, w.connection); }
  }

  lemma {:induction false} TurnsTakeAll(w: World, n: nat)
    requires Complete(w) && w.connection.phase.Streaming? && |w.history| < w.connection.next + 256
    requires Waiting(w) <= n
    ensures var w' := Exec(w, Turns(n));
      && Complete(w') && w'.connection.phase.Streaming? && Waiting(w') == 0 && w'.history == w.history
      && w'.connection.since == w.connection.since
    decreases n
  {
    if n > 0 {
      TurnTakes(w);
      TurnsTakeAll(Next(w, Receive), n - 1);
      assert Turns(n)[1..] == Turns(n - 1);
    }
  }

  /** The client streams and keeps up, and `n` turns are enough for all that waits. */
  predicate Enough(w: World, n: nat) {
    w.connection.phase.Streaming? && |w.history| < w.connection.next + 256 && Waiting(w) <= n
  }

  /** In every interleaving, a plainly started client that keeps up needs only as many turns as there are
      items and messages waiting to have every event behind `since`, once and in order. */
  lemma CatchesUp(h: History, since: nat, steps: seq<Step>, n: nat)
    requires KeepsUp(World(h, NewConnection(Some(since))), steps)
    requires StartsPlain(World(h, NewConnection(Some(since))), steps)
    requires Enough(Exec(World(h, NewConnection(Some(since))), steps), n)
    ensures var w := Exec(World(h, NewConnection(Some(since))), steps);
      Once(w.history, since, |w.history|, Exec(w, Turns(n)).connection.out)
  {
    var w0 := World(h, NewConnection(Some(since)));
    var w := Exec(w0, steps);
    ExecComplete(w0, steps);
    SinceKept(w0, steps);
    TurnsTakeAll(w, n);
    var w' := Exec(w, Turns(n));
    assert Shape(w'.history, w'.connection);
  }
}
