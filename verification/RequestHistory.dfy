/** How long a request is remembered: over whole runs, the work for a key is started at most once in
    thirty minutes, and whoever repeats the request in that time is given the same answer. */
module RequestHistory {
  import opened Prelude
  import opened Pruning
  import opened RequestAdmission

  // ---- One claim -------------------------------------------------------------------------------------------

  /** A record answers for half an hour, and in any case as long as its result is not there. */
  predicate StillAnswers(r: Record, results: Results, now: nat) {
    now < r.started + 1800 || (r.channel in results && results[r.channel].None?)
  }

  /** The keys that are in use. */
  function Used(records: Records, results: Results, now: nat): set<string> {
    set k | k in records && StillAnswers(records[k], results, now)
  }

  /** A malformed key changes nothing. Otherwise exactly the records in use are kept; a key in use is
      answered by its record if the arguments are the same and conflicts if they are not; any other key
      gets a record of its own while fewer than 1024 are in use. */
  lemma ClaimMeans(records: Records, results: Results, now: nat, key: string, isUuid: bool, digest: string,
      channel: nat)
    ensures var (after, claim) := ClaimKey(records, results, now, key, isUuid, digest, channel);
      var used := Used(records, results, now);
      if !isUuid then (after, claim) == (records, Malformed) else
        && claim == (if key in used then (if records[key].digest == digest then Existing(records[key].channel)
             else Conflict)
                     else if |used| < 1024 then New(channel) else Full)
        && after.Keys == (if claim.New? then used + {key} else used)
        && (forall k | k in used :: after[k] == records[k])
        && (claim.New? ==> after[key] == Record(digest, now, channel))
  {
    assert Retained(records, results, now).Keys == Used(records, results, now);
    assert |Retained(records, results, now)| == |Retained(records, results, now).Keys|;
  }

  // ---- Whole runs ------------------------------------------------------------------------------------------

  /** A claim that was answered with a new record. */
  datatype Started = Started(key: string, digest: string, time: nat, channel: nat)

  function AnswerTo(w: World, step: Step): Claim
    requires step.ClaimStep?
  {
    ClaimKey(w.records, w.results, w.now, step.key, step.isUuid, step.digest, w.nextChannel).1
  }

  /** What a step adds to the claims that were answered with a new record. */
  function Made(w: World, step: Step): seq<Started> {
    if step.ClaimStep? && AnswerTo(w, step).New? then [Started(step.key, step.digest, w.now, w.nextChannel)] else []
  }

  /** All claims of a run that were answered with a new record, in order. */
  function NewClaims(w: World, steps: seq<Step>): seq<Started>
    decreases |steps|
  {
    if steps == [] then [] else Made(w, steps[0]) + NewClaims(Next(w, steps[0]), steps[1..])
  }

  /** Each claim has its own channel, and claims of one key lie half an hour apart. */
  predicate Apart(news: seq<Started>) {
    forall i, j | 0 <= i < j < |news| ::
      news[i].channel < news[j].channel && (news[i].key == news[j].key ==> news[i].time + 1800 <= news[j].time)
  }

  predicate HasRecord(records: Records, s: Started) {
    s.key in records && records[s.key] == Record(s.digest, s.time, s.channel)
  }

  /** A claim younger than half an hour still has its record. */
  ghost predicate Remembers(w: World, news: seq<Started>) {
    && (forall i | 0 <= i < |news| :: news[i].time <= w.now && news[i].channel < w.nextChannel)
    && (forall i | 0 <= i < |news| && w.now < news[i].time + 1800 :: HasRecord(w.records, news[i]))
  }

  predicate IsChannel(news: seq<Started>, c: nat) { exists i :: 0 <= i < |news| && news[i].channel == c }

  /** Work is started for claims answered with a new record only. */
  ghost predicate FromClaims(w: World, news: seq<Started>) {
    forall c | c in w.claimers || c in w.started :: IsChannel(news, c)
  }

  ghost predicate History(w: World, news: seq<Started>) { Apart(news) && Remembers(w, news) && FromClaims(w, news) }

  lemma ChannelMore(news: seq<Started>, s: Started)
    ensures IsChannel(news + [s], s.channel) && forall c | IsChannel(news, c) :: IsChannel(news + [s], c)
  {
    var more := news + [s];
    assert more[|news|] == s;
    forall c | IsChannel(news, c) ensures IsChannel(more, c) {
      var i :| 0 <= i < |news| && news[i].channel == c;
      assert more[i] == news[i];
    }
  }

  /** What a claim leaves of the records that are younger than half an hour. */
  lemma ClaimLeaves(w: World, key: string, isUuid: bool, digest: string, s: Started)
    requires HasRecord(w.records, s) && w.now < s.time + 1800
    ensures HasRecord(ClaimWorld(w, key, isUuid, digest).records, s)
    ensures ClaimKey(w.records, w.results, w.now, key, isUuid, digest, w.nextChannel).1.New? ==> key != s.key
  {
    ClaimMeans(w.records, w.results, w.now, key, isUuid, digest, w.nextChannel);
    assert StillAnswers(w.records[s.key], w.results, w.now);
  }

  lemma ClaimChanges(w: World, key: string, isUuid: bool, digest: string)
    ensures var (w', claim) := (ClaimWorld(w, key, isUuid, digest),
                                ClaimKey(w.records, w.results, w.now, key, isUuid, digest, w.nextChannel).1);
      && w'.now == w.now && w'.started == w.started
      && w'.claimers == (if claim.New? then w.claimers + {w.nextChannel} else w.claimers)
      && w'.nextChannel == (if claim.New? then w.nextChannel + 1 else w.nextChannel)
      && (claim.New? ==> HasRecord(w'.records, Started(key, digest, w.now, w.nextChannel)))
  {
  }

  lemma ApartMore(w: World, news: seq<Started>, s: Started)
    requires Apart(news) && Remembers(w, news) && s.time == w.now && s.channel == w.nextChannel
    requires forall i | 0 <= i < |news| && w.now < news[i].time + 1800 :: news[i].key != s.key
    ensures Apart(news + [s])
  {
  }

  lemma ClaimKeeps(w: World, news: seq<Started>, step: Step)
    requires History(w, news) && step.ClaimStep?
    ensures History(Next(w, step), news + Made(w, step))
  {
    var ClaimStep(key, isUuid, digest) := step;
    ClaimChanges(w, key, isUuid, digest);
    forall i | 0 <= i < |news| && w.now < news[i].time + 1800
      ensures HasRecord(Next(w, step).records, news[i]) && (AnswerTo(w, step).New? ==> news[i].key != key)
    {
      ClaimLeaves(w, key, isUuid, digest, news[i]);
    }
    if AnswerTo(w, step).New? {
      var s := Started(key, digest, w.now, w.nextChannel);
      ApartMore(w, news, s);
      ChannelMore(news, s);
    } else {
      assert news + [] == news;
    }
  }

  lemma OtherKeeps(w: World, news: seq<Started>, step: Step)
    requires History(w, news) && !step.ClaimStep?
    ensures History(Next(w, step), news + Made(w, step))
  {
    assert news + [] == news;
  }

  lemma StepKeeps(w: World, news: seq<Started>, step: Step)
    requires History(w, news)
    ensures History(Next(w, step), news + Made(w, step))
  {
    if step.ClaimStep? { ClaimKeeps(w, news, step); } else { OtherKeeps(w, news, step); }
  }

  lemma {:induction false} RunRemembers(w: World, news: seq<Started>, steps: seq<Step>)
    requires History(w, news)
    ensures History(Exec(w, steps), news + NewClaims(w, steps))
    decreases |steps|
  {
    if steps == [] {
      assert news + NewClaims(w, steps) == news;
    } else {
      StepKeeps(w, news, steps[0]);
      RunRemembers(Next(w, steps[0]), news + Made(w, steps[0]), steps[1..]);
      Regrouped(news, Made(w, steps[0]), NewClaims(Next(w, steps[0]), steps[1..]));
    }
  }

  lemma Regrouped(a: seq<Started>, b: seq<Started>, c: seq<Started>)
    ensures (a + b) + c == a + (b + c)
  {
  }

  lemma EveryHistory(steps: seq<Step>)
    ensures History(Exec(INITIAL, steps), NewClaims(INITIAL, steps))
  {
    RunRemembers(INITIAL, [], steps);
    assert [] + NewClaims(INITIAL, steps) == NewClaims(INITIAL, steps);
  }

  /** In every run, for less than half an hour after a claim was answered with a new record, every
      well-formed claim of the same key is given the channel of that record if the arguments are the same,
      and conflicts if they are not. */
  lemma RepeatedRequestJoins(steps: seq<Step>, i: nat, digest: string)
    requires i < |NewClaims(INITIAL, steps)|
    ensures var w := Exec(INITIAL, steps); var first := NewClaims(INITIAL, steps)[i];
      w.now < first.time + 1800 ==>
        ClaimKey(w.records, w.results, w.now, first.key, true, digest, w.nextChannel).1
        == if digest == first.digest then Existing(first.channel) else Conflict
  {
    EveryHistory(steps);
    var w := Exec(INITIAL, steps);
    ClaimMeans(w.records, w.results, w.now, NewClaims(INITIAL, steps)[i].key, true, digest, w.nextChannel);
  }

  /** The only claim that was given the channel. */
  predicate ClaimOf(news: seq<Started>, i: int, c: nat) {
    0 <= i < |news| && news[i].channel == c && forall k | 0 <= k < |news| && k != i :: news[k].channel != c
  }

  predicate DifferentRequests(a: Started, b: Started) {
    a != b && (a.key == b.key ==> a.time + 1800 <= b.time || b.time + 1800 <= a.time)
  }

  /** The two channels were given to different requests, those of one key half an hour apart. */
  ghost predicate GivenApart(news: seq<Started>, c: nat, d: nat) {
    exists i, j :: ClaimOf(news, i, c) && ClaimOf(news, j, d) && DifferentRequests(news[i], news[j])
  }

  /** In every run, two new records for one key lie at least half an hour apart. Work is started only for
      claims answered with a new record, and once for each: so the work for a key is started at most once
      in any half an hour of claims. */
  lemma WorkStartsOnce(steps: seq<Step>, a: nat, b: nat)
    requires a < b < |Exec(INITIAL, steps).started|
    ensures var (started, news) := (Exec(INITIAL, steps).started, NewClaims(INITIAL, steps));
      GivenApart(news, started[a], started[b])
  {
    EveryHistory(steps);
    EveryRun(steps);
    var (started, news) := (Exec(INITIAL, steps).started, NewClaims(INITIAL, steps));
    assert started[a] in started && started[b] in started && IsChannel(news, started[a]) && IsChannel(news, started[b]);
    TwoClaims(news, started[a], started[b]);
  }

  lemma OneClaim(news: seq<Started>, c: nat) returns (i: int)
    requires Apart(news) && IsChannel(news, c)
    ensures ClaimOf(news, i, c)
  {
    i :| 0 <= i < |news| && news[i].channel == c;
  }

  lemma TwoClaims(news: seq<Started>, c: nat, d: nat)
    requires Apart(news) && IsChannel(news, c) && IsChannel(news, d) && c != d
    ensures GivenApart(news, c, d)
  {
    var i := OneClaim(news, c);
    var j := OneClaim(news, d);
    assert DifferentRequests(news[i], news[j]);
  }

  /** A record whose result is there, and that is half an hour old, no longer answers: in every run a claim
      of its key starts a new one, or is refused because 1024 are in use. */
  lemma OldRecordIsForgotten(steps: seq<Step>, key: string, digest: string)
    requires var w := Exec(INITIAL, steps);
      key in w.records && w.records[key].started + 1800 <= w.now && IsResolved(w, w.records[key].channel)
    ensures var w := Exec(INITIAL, steps); var claim :=
      ClaimKey(w.records, w.results, w.now, key, true, digest, w.nextChannel).1;
      if |Used(w.records, w.results, w.now)| < 1024 then claim == New(w.nextChannel) else claim == Full
  {
    var w := Exec(INITIAL, steps);
    ClaimMeans(w.records, w.results, w.now, key, true, digest, w.nextChannel);
  }

  // ---- One spawn -------------------------------------------------------------------------------------------

  /** A claimed request is started if and only if admission is open and fewer than 128 tasks are
      registered; otherwise whoever waits for it is told at once that admission is closed. */
  lemma SpawnMeans(steps: seq<Step>, c: nat)
    requires c in Exec(INITIAL, steps).claimers
    ensures var w := Exec(INITIAL, steps); var w' := Next(w, Spawn(c));
      if !w.closed && |w.tasks| < 128
      then w'.started == w.started + [c] && c in w'.tasks && w'.results == w.results && IsUnresolved(w'.results, c)
      else w'.started == w.started && w'.tasks == w.tasks && w'.results == w.results[c := Some("admission_closed")]
  {
    OutcomesStay(INITIAL, steps);
  }

  /** The first answer of a registered task is what everybody who joined the request is given. */
  lemma AnswerReaches(steps: seq<Step>, c: nat, outcome: string, key: string)
    requires var w := Exec(INITIAL, steps);
      c in w.tasks && c in w.phases && w.phases[c].Working? && key in w.records && w.records[key].channel == c
    ensures var w := Exec(INITIAL, steps); var w' := Next(w, Answer(c, outcome));
      && IsUnresolved(w.results, c) && w'.results == w.results[c := Some(outcome)]
      && key in w'.records && w'.records[key].channel == c
  {
    OutcomesStay(INITIAL, steps);
  }
}
