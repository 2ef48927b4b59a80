/** What an attached terminal socket does send: exactly what the log has dropped, what each turn of the
    socket adds, and that it catches up with the live output. */
module TerminalDelivery {
  import opened Prelude
  import opened Retention
  import opened TerminalReplay

  /** The log keeps the longest recent stretch of at most 1 MiB of output. */
  lemma KeepsExactly(h: History)
    ensures var k := DroppedThrough(h);
      && Weight(h[k..], BytesOf) <= 1048576 && forall j | 0 <= j < k :: Weight(h[j..], BytesOf) > 1048576
  {
  }

  /** The frames are those of the events at the indices from `from` on. */
  predicate FramesFrom(frames: seq<Frame>, h: History, from: nat) {
    |frames| == (if from < |h| then |h| - from else 0)
    && forall i | 0 <= i < |frames| :: frames[i] == Frame(from + i + 1, h[from + i])
  }

  /** What a client that has the events up to `since` is due: if an event it wants was dropped, the marker
      and then all events that were not; else all events it wants, each once and in order. */
  lemma DueMeans(h: History, since: nat)
    ensures var due := Due(h, Some(since), h, |h|); var dropped := DroppedThrough(h);
      if since < dropped then
        due != [] && due[0] == Frame(dropped, Event("replayTruncated", None)) && FramesFrom(due[1..], h, dropped)
      else FramesFrom(due, h, since)
  {
    var rest := Slice(h, StartOf(h, Some(since)), |h|);
    if since < DroppedThrough(h) {
      assert Due(h, Some(since), h, |h|) == [Marker(DroppedThrough(h))] + rest;
      assert ([Marker(DroppedThrough(h))] + rest)[1..] == rest;
    } else {
      assert Due(h, Some(since), h, |h|) == rest;
    }
  }

  /** A client without a position is due what one that has nothing is due. */
  lemma DueWithoutPosition(h: History)
    ensures Due(h, None, h, |h|) == Due(h, Some(0), h, |h|)
  {
  }

  /** All that the attachment is due by now. */
  function AllDue(h0: History, since: Option<nat>, h: History): seq<Frame> { Due(h0, since, h, |h|) }

  lemma DueStarts(h0: History, since: Option<nat>, h: History, n: nat)
    requires h0 <= h && |h0| <= n <= |h|
    ensures Due(h0, since, h, n) <= AllDue(h0, since, h)
    ensures |AllDue(h0, since, h)| == |Due(h0, since, h, n)| + |h| - n
  {
    var a := StartOf(h0, since);
    var short, long := Slice(h, a, n), Slice(h, a, |h|);
    assert a <= |h0|;
    assert long[..|short|] == short;
  }

  lemma OneMore(sent: seq<Frame>, f: Frame, due: seq<Frame>)
    requires sent + [f] <= due
    ensures |sent| < |due| && sent <= due && due[..|sent| + 1] == sent + [f]
  {
    assert due[..|sent| + 1] == (sent + [f])[..|sent| + 1];
  }

  lemma FirstUnsent(sent: seq<Frame>, unsent: seq<Frame>, due: seq<Frame>)
    requires unsent != [] && sent + unsent <= due
    ensures sent <= due && |sent| < |due| && due[..|sent| + 1] == sent + [unsent[0]]
  {
    assert (sent + unsent)[..|sent| + 1] == sent + [unsent[0]];
    OneMore(sent, unsent[0], due);
  }

  lemma ReplayEffect(h: History, s: Socket)
    requires !s.lagged && s.unsent != []
    ensures !Turn(h, s).lagged && Turn(h, s).sent == s.sent + [s.unsent[0]]
  {
  }

  lemma ReplayTurn(h0: History, since: Option<nat>, w: World)
    requires Seamless(h0, since, w) && !w.socket.lagged && w.socket.unsent != []
    ensures var s := w.socket; var s' := Next(w, SocketTurn).socket; var due := AllDue(h0, since, w.history);
      !s'.lagged && s.sent <= due && |s.sent| < |due| && s'.sent == due[..|s.sent| + 1]
  {
    DueStarts(h0, since, w.history, w.socket.next - 1);
    ReplayEffect(w.history, w.socket);
    FirstUnsent(w.socket.sent, w.socket.unsent, AllDue(h0, since, w.history));
  }

  lemma LiveSends(h0: History, since: Option<nat>, w: World)
    requires Seamless(h0, since, w) && !w.socket.lagged && w.socket.unsent == []
    requires w.socket.next <= |w.history| < w.socket.next + 512
    ensures var s := w.socket; var s' := Next(w, SocketTurn).socket; var due := AllDue(h0, since, w.history);
      !s'.lagged && s.sent <= due && |s.sent| < |due| && s'.sent == due[..|s.sent| + 1]
  {
    var (h, s) := (w.history, w.socket);
    LiveTurn(h, s);
    assert w == World(h, s);
    DueGrows(h0, since, h, s.next - 1);
    DueStarts(h0, since, h, s.next);
    OneMore(s.sent, FrameOf(h, s.next - 1), AllDue(h0, since, h));
  }

  lemma IdleTurn(h0: History, since: Option<nat>, w: World)
    requires Seamless(h0, since, w) && !w.socket.lagged && w.socket.unsent == []
    requires w.socket.next > |w.history| || |w.history| >= w.socket.next + 512
    ensures var s := w.socket; var s' := Next(w, SocketTurn).socket; var due := AllDue(h0, since, w.history);
      && s.sent <= due && s'.sent == s.sent
      && (s'.lagged <==> |w.history| >= s.next + 512) && (!s'.lagged ==> |s.sent| == |due|)
  {
    DueStarts(h0, since, w.history, w.socket.next - 1);
  }

  /** A turn sends the next frame that is due, if there is one; but the socket ends once the replay is
      through and more than 512 events are waiting for it. */
  lemma TurnMeans(h0: History, since: Option<nat>, w: World)
    requires Seamless(h0, since, w) && !w.socket.lagged
    ensures var s := w.socket; var s' := Next(w, SocketTurn).socket; var due := AllDue(h0, since, w.history);
      && (s'.lagged <==> s.unsent == [] && |w.history| + 1 - s.next > 512)
      && s.sent <= due
      && s'.sent == if s'.lagged || |s.sent| == |due| then s.sent else due[..|s.sent| + 1]
  {
    var (h, s) := (w.history, w.socket);
    if s.unsent != [] { ReplayTurn(h0, since, w); }
    else if s.next <= |h| < s.next + 512 { LiveSends(h0, since, w); }
    else { IdleTurn(h0, since, w); }
  }

  // ---- Catching up ------------------------------------------------------------------------------------------

  /** At most 512 events wait behind the replay. */
  predicate InReach(w: World) { !w.socket.lagged && |w.history| < w.socket.next + 512 }

  function Turns(n: nat): (r: seq<Step>)
    ensures |r| == n && forall k | 0 <= k < n :: r[k] == SocketTurn
  {
    seq(n, _ => SocketTurn)
  }

  lemma TurnStaysInReach(h0: History, since: Option<nat>, w: World)
    requires Seamless(h0, since, w) && InReach(w)
    ensures InReach(Next(w, SocketTurn)) && Next(w, SocketTurn).history == w.history
  {
  }

  lemma {:induction false} TurnsSendAll(h0: History, since: Option<nat>, w: World, n: nat)
    requires Seamless(h0, since, w) && InReach(w)
    requires |w.socket.sent| + n >= |AllDue(h0, since, w.history)|
    ensures Exec(w, Turns(n)).socket.sent == AllDue(h0, since, w.history)
    decreases n
  {
    TurnMeans(h0, since, w);
    var due := AllDue(h0, since, w.history);
    if n == 0 {
      assert w.socket.sent == due;
    } else {
      TurnKeeps(h0, since, w);
      TurnStaysInReach(h0, since, w);
      assert |Next(w, SocketTurn).socket.sent| + n - 1 >= |due|;
      TurnsSendAll(h0, since, Next(w, SocketTurn), n - 1);
      assert Turns(n)[1..] == Turns(n - 1);
    }
  }

  /** In every interleaving, a socket for which at most 512 events wait needs only as many turns as there
      are frames left to have sent all that is due: the marker, if any, and every event behind the start,
      once and in order. */
  lemma CatchesUp(h: History, since: Option<nat>, steps: seq<Step>, n: nat)
    requires var w := Exec(World(h, Attached(h, since)), steps);
      InReach(w) && |w.socket.sent| + n >= |AllDue(h, since, w.history)|
    ensures var w := Exec(World(h, Attached(h, since)), steps);
      Exec(w, Turns(n)).socket.sent == AllDue(h, since, w.history)
  {
    AttachedSeamless(h, since);
    ExecKeeps(h, since, World(h, Attached(h, since)), steps);
    TurnsSendAll(h, since, Exec(World(h, Attached(h, since)), steps), n);
  }
}
