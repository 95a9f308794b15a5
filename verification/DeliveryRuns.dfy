/** Whole runs of the delivery queue: what every run keeps, when conservation and the retry bound hold,
    what a flush reports, and when the queue drains. */
module DeliveryRuns {
  import opened Sorting
  import opened DeliveryQueue

  datatype Event = Submitted(e: Envelope) | Flushed(now: real, env: nat -> Turn) | Destroyed

  /** A step of the client; a destroyed client refuses to enqueue or flush. */
  function Step(cfg: Config, s: State, ev: Event): State
    requires cfg.Valid()
  {
    match ev
    case Submitted(e) => if s.destroyed then s else Enqueue(cfg, s, e)
    case Flushed(now, env) => if s.destroyed then s else Flush(cfg, s, now, env)
    case Destroyed => Destroy(s)
  }

  function Run(cfg: Config, events: seq<Event>): State
    requires cfg.Valid()
    decreases |events|
  {
    if events == [] then START else Step(cfg, Run(cfg, events[..|events| - 1]), events[|events| - 1])
  }

  // ---------------------------------------------------------------- every run against every transport

  /** Every run, whatever the transport does, keeps the queue within its bound and in enqueue order, and
      drops only envelopes older than all that wait. */
  lemma {:induction false} RunsKeepOrder(cfg: Config, events: seq<Event>)
    requires cfg.Valid()
    ensures Orderly(cfg, Run(cfg, events))
    decreases |events|
  {
    hide InOrder;
    if events == [] {
      StartsSound(cfg);
    } else {
      var s := Run(cfg, events[..|events| - 1]);
      RunsKeepOrder(cfg, events[..|events| - 1]);
      match events[|events| - 1]
      case Submitted(e) => if !s.destroyed { EnqueueKeepsOrder(cfg, s, e); }
      case Flushed(now, env) => if !s.destroyed { FlushKeepsOrder(cfg, s, now, env); }
      case Destroyed => DestroyKeepsOrder(cfg, s);
    }
  }

  /** What one step doubles. */
  ghost function Again(cfg: Config, s: State, ev: Event): multiset<nat> {
    if ev.Flushed? && !s.destroyed then Repeated(cfg, s, ev.now, ev.env) else multiset{}
  }

  /** What the run has doubled so far. */
  ghost function AllAgain(cfg: Config, events: seq<Event>): multiset<nat>
    requires cfg.Valid()
    decreases |events|
  {
    if events == [] then multiset{}
    else AllAgain(cfg, events[..|events| - 1]) + Again(cfg, Run(cfg, events[..|events| - 1]), events[|events| - 1])
  }

  lemma {:induction false} RunHoldings(cfg: Config, events: seq<Event>)
    requires cfg.Valid()
    ensures var s := Run(cfg, events); Holdings(s.queue, s.ledger) == multiset(Everyone(s.ledger.enqueued)) + AllAgain(cfg, events)
    decreases |events|
  {
    hide Step, Again, Holdings;
    if events == [] {
      NothingHeld();
    } else {
      RunHoldings(cfg, events[..|events| - 1]);
      StepHoldings(cfg, Run(cfg, events[..|events| - 1]), events[|events| - 1]);
      var s, s' := Run(cfg, events[..|events| - 1]), Run(cfg, events);
      Cancel(Holdings(s.queue, s.ledger), Holdings(s'.queue, s'.ledger), multiset(Everyone(s.ledger.enqueued)), multiset(Everyone(s'.ledger.enqueued)),
             AllAgain(cfg, events[..|events| - 1]), Again(cfg, s, events[|events| - 1]));
    }
  }

  lemma Cancel(h: multiset<nat>, h': multiset<nat>, e: multiset<nat>, e': multiset<nat>, a: multiset<nat>, b: multiset<nat>)
    requires h == e + a && h' + e == h + e' + b
    ensures h' == e' + (a + b)
  {
    forall x ensures h'[x] == (e' + (a + b))[x] { assert (h' + e)[x] == (h + e' + b)[x]; }
  }

  lemma NothingHeld()
    ensures Holdings(START.queue, START.ledger) == multiset(Everyone(START.ledger.enqueued))
  {
    assert Serials([]) == [] && Everyone(0) == [];
  }

  /** One step adds what it enqueues and what it doubles. */
  lemma StepHoldings(cfg: Config, s: State, ev: Event)
    requires cfg.Valid()
    ensures var s' := Step(cfg, s, ev);
      Holdings(s'.queue, s'.ledger) + multiset(Everyone(s.ledger.enqueued))
        == Holdings(s.queue, s.ledger) + multiset(Everyone(s'.ledger.enqueued)) + Again(cfg, s, ev)
  {
    hide Enqueue, Flush, Repeated, Holdings, Everyone;
    match ev
    case Submitted(e) => if !s.destroyed { EnqueueHoldings(cfg, s, e); EveryoneNext(s.ledger.enqueued); EnqueueCounts(cfg, s, e); }
    case Flushed(now, env) => if !s.destroyed { FlushHoldings(cfg, s, now, env); }
    case Destroyed => DestroyHoldings(s);
  }

  lemma RunNothing(cfg: Config)
    requires cfg.Valid()
    ensures Run(cfg, []) == START
  {
  }

  /** The number of places that hold this serial. */
  function Places(s: State, serial: nat): nat {
    multiset(Serials(s.queue))[serial] + multiset(s.ledger.delivered)[serial] + multiset(s.ledger.dead)[serial]
    + multiset(s.ledger.overflowed)[serial] + multiset(s.ledger.discarded)[serial]
  }

  /** Nothing is ever lost or invented: in every run, against any transport, an envelope is in some place
      exactly if it was enqueued, and it is in more than one only as often as a flush that escaped had
      already settled it. */
  lemma PlacesInRun(cfg: Config, events: seq<Event>, serial: nat)
    requires cfg.Valid()
    ensures var s := Run(cfg, events);
      && Places(s, serial) == (if serial < s.ledger.enqueued then 1 else 0) + AllAgain(cfg, events)[serial]
      && (Places(s, serial) > 0 <==> serial < s.ledger.enqueued)
  {
    hide Run;
    RunHoldings(cfg, events);
    var s := Run(cfg, events);
    EveryoneCounts(s.ledger.enqueued, serial);
    assert Places(s, serial) == Holdings(s.queue, s.ledger)[serial];
    if serial >= s.ledger.enqueued { AgainEnqueued(cfg, events, serial); }
  }

  lemma {:induction false} EveryoneCounts(n: nat, serial: nat)
    ensures multiset(Everyone(n))[serial] == if serial < n then 1 else 0
  {
    if n == 0 {
      assert Everyone(0) == [];
    } else {
      EveryoneCounts(n - 1, serial);
      EveryoneNext(n - 1);
    }
  }

  /** Only envelopes that were enqueued are ever doubled. */
  lemma {:induction false} AgainEnqueued(cfg: Config, events: seq<Event>, serial: nat)
    requires cfg.Valid() && serial >= Run(cfg, events).ledger.enqueued
    ensures AllAgain(cfg, events)[serial] == 0
    decreases |events|
  {
    hide Enqueue, Flush, Destroy, Repeated;
    if events != [] {
      var init, ev := events[..|events| - 1], events[|events| - 1];
      var s := Run(cfg, init);
      StepEnqueues(cfg, s, ev);
      AgainEnqueued(cfg, init, serial);
      RunHoldings(cfg, init);
      EveryoneCounts(s.ledger.enqueued, serial);
      assert Holdings(s.queue, s.ledger)[serial] == 0;
      if ev.Flushed? && !s.destroyed { RepeatedWereQueued(cfg, s, ev.now, ev.env, serial); }
    }
  }

  lemma StepEnqueues(cfg: Config, s: State, ev: Event)
    requires cfg.Valid()
    ensures Step(cfg, s, ev).ledger.enqueued >= s.ledger.enqueued
  {
    hide PassOver, Holdings, Repeated;
    match ev
    case Flushed(now, env) => if !s.destroyed { FlushHoldings(cfg, s, now, env); }
    case _ =>
  }

  // ---------------------------------------------------------------- when conservation holds

  /** The n-th event is a flush that doubles something. */
  ghost predicate RepeatsAt(cfg: Config, events: seq<Event>, n: nat)
    requires cfg.Valid() && n < |events|
  {
    var s := Run(cfg, events[..n]);
    events[n].Flushed? && !s.destroyed && Repeats(cfg, s.queue, events[n].now, events[n].env)
  }

  ghost predicate EscapesAt(cfg: Config, events: seq<Event>, n: nat)
    requires cfg.Valid() && n < |events|
  {
    var s := Run(cfg, events[..n]);
    events[n].Flushed? && !s.destroyed && EscapeIn(s.queue, events[n].now, events[n].env, |s.queue|)
  }

  lemma {:induction false} AgainIff(cfg: Config, events: seq<Event>)
    requires cfg.Valid()
    ensures AllAgain(cfg, events) == multiset{} <==> forall n: nat :: n < |events| ==> !RepeatsAt(cfg, events, n)
    decreases |events|
  {
    hide Repeated, Repeats, Step;
    if events != [] {
      var init, ev := events[..|events| - 1], events[|events| - 1];
      AgainIff(cfg, init);
      forall n: nat | n < |init| ensures RepeatsAt(cfg, events, n) <==> RepeatsAt(cfg, init, n) {
        assert init[..n] == events[..n];
      }
      if ev.Flushed? { RepeatedIff(cfg, Run(cfg, init), ev.now, ev.env); }
      assert RepeatsAt(cfg, events, |init|) <==> Again(cfg, Run(cfg, init), ev) != multiset{};
    }
  }

  /** A run ends with every envelope in exactly one place if and only if none of its flushes escaped
      after it had settled something. */
  lemma RunConservesIff(cfg: Config, events: seq<Event>)
    requires cfg.Valid()
    ensures var s := Run(cfg, events);
      Conserved(s.queue, s.ledger) <==> forall n: nat :: n < |events| ==> !RepeatsAt(cfg, events, n)
  {
    hide Run, RepeatsAt, AllAgain;
    RunHoldings(cfg, events);
    AgainIff(cfg, events);
    var all, again := multiset(Everyone(Run(cfg, events).ledger.enqueued)), AllAgain(cfg, events);
    assert |all + again| == |all| + |again|;
  }

  /** A run keeps the whole invariant at every step, retry bound and waiting times included, if and only
      if none of its flushes escapes. */
  lemma RunsKeepInvariantIff(cfg: Config, events: seq<Event>)
    requires cfg.Valid()
    ensures (forall n: nat :: n <= |events| ==> Invariant(cfg, Run(cfg, events[..n])))
      <==> forall n: nat :: n < |events| ==> !EscapesAt(cfg, events, n)
  {
    hide Invariant, Run, EscapesAt;
    if forall n: nat :: n < |events| ==> !EscapesAt(cfg, events, n) {
      forall n: nat | n <= |events| ensures Invariant(cfg, Run(cfg, events[..n])) { QuietKeeps(cfg, events, n); }
    } else {
      var n: nat :| n < |events| && EscapesAt(cfg, events, n);
      if Invariant(cfg, Run(cfg, events[..n])) {
        EscapeBreaks(cfg, events, n);
        assert !Invariant(cfg, Run(cfg, events[..n + 1]));
      }
    }
  }

  lemma RunNext(cfg: Config, events: seq<Event>, n: nat)
    requires cfg.Valid() && n < |events|
    ensures Run(cfg, events[..n + 1]) == Step(cfg, Run(cfg, events[..n]), events[n])
  {
    assert events[..n + 1][..n] == events[..n];
  }

  lemma EscapeBreaks(cfg: Config, events: seq<Event>, n: nat)
    requires cfg.Valid() && n < |events| && Invariant(cfg, Run(cfg, events[..n])) && EscapesAt(cfg, events, n)
    ensures !Invariant(cfg, Run(cfg, events[..n + 1]))
  {
    hide Invariant, Run, Flush, EscapeIn;
    RunNext(cfg, events, n);
    FlushKeepsIff(cfg, Run(cfg, events[..n]), events[n].now, events[n].env);
  }

  lemma {:induction false} QuietKeeps(cfg: Config, events: seq<Event>, n: nat)
    requires cfg.Valid() && n <= |events| && forall m: nat :: m < n ==> !EscapesAt(cfg, events, m)
    ensures Invariant(cfg, Run(cfg, events[..n]))
  {
    hide Invariant, Run, Enqueue, Flush, Destroy, EscapeIn;
    if n == 0 {
      StartsSound(cfg);
      RunNothing(cfg);
    } else {
      var s := Run(cfg, events[..n - 1]);
      QuietKeeps(cfg, events, n - 1);
      RunNext(cfg, events, n - 1);
      assert !EscapesAt(cfg, events, n - 1);
      match events[n - 1]
      case Submitted(e) => if !s.destroyed { EnqueueKeeps(cfg, s, e); }
      case Flushed(now, env) => if !s.destroyed { FlushKeepsIff(cfg, s, now, env); }
      case Destroyed => DestroyKeeps(cfg, s);
    }
  }

  /** A transport that never rejects with nothing, and dates within range: what a caller can arrange. */
  ghost predicate Calm(events: seq<Event>) {
    forall ev :: ev in events && ev.Flushed? ==> CalmFlush(ev.now, ev.env)
  }

  ghost predicate CalmFlush(now: real, env: nat -> Turn) {
    Datable(now) && forall i: nat :: !env(i).answer.ThrownNothing?
  }

  /** With a calm transport every envelope ever enqueued is in exactly one of: waiting, delivered,
      dead-lettered, dropped for room, discarded; and it has been posted at most maxRetries + 1 times. */
  lemma ExactlyOnePlace(cfg: Config, events: seq<Event>, serial: nat)
    requires cfg.Valid() && Calm(events)
    ensures var s := Run(cfg, events);
      && Places(s, serial) == (if serial < s.ledger.enqueued then 1 else 0)
      && Count(s.ledger.posts, serial) <= cfg.maxRetries + 1
  {
    hide Run, Holdings, InOrder, Waited;
    CalmKeeps(cfg, events);
    var s := Run(cfg, events);
    EveryoneCounts(s.ledger.enqueued, serial);
    assert Places(s, serial) == Holdings(s.queue, s.ledger)[serial] by { PlacesAreHoldings(s, serial); }
  }

  lemma PlacesAreHoldings(s: State, serial: nat)
    ensures Places(s, serial) == Holdings(s.queue, s.ledger)[serial]
  {
  }

  lemma CalmKeeps(cfg: Config, events: seq<Event>)
    requires cfg.Valid() && Calm(events)
    ensures Invariant(cfg, Run(cfg, events))
  {
    hide Invariant, Run, CalmFlush;
    forall n: nat | n < |events| ensures !EscapesAt(cfg, events, n) {
      if events[n].Flushed? { CalmDoesNotEscape(Run(cfg, events[..n]).queue, events[n].now, events[n].env); }
    }
    QuietKeeps(cfg, events, |events|);
    assert events[..|events|] == events;
  }

  lemma CalmDoesNotEscape(q: seq<Item>, now: real, env: nat -> Turn)
    requires CalmFlush(now, env)
    ensures !EscapeIn(q, now, env, |q|)
  {
  }

  /** The shortest run that doubles an envelope: the first of two is delivered, then the transport rejects
      with nothing. The first envelope is then both delivered and waiting, and the transport reads as sending. */
  lemma DeliveredAndWaiting(cfg: Config, a: Envelope, b: Envelope)
    requires cfg.Valid() && cfg.maxQueueSize >= 2
    ensures var env := (i: nat) => Turn(false, if i == 0 then Http(200, true) else ThrownNothing);
      var s := Run(cfg, [Submitted(a), Submitted(b), Flushed(0.0, env)]);
      && s.queue == [Item(0, a, 0, 0.0), Item(1, b, 0, 0.0)] && s.ledger.delivered == [0]
      && Places(s, 0) == 2 && s.transport == Sending && !Conserved(s.queue, s.ledger)
  {
    hide RetryDelay, Conserved;
    var env := (i: nat) => Turn(false, if i == 0 then Http(200, true) else ThrownNothing);
    var events := [Submitted(a), Submitted(b), Flushed(0.0, env)];
    var two := Run(cfg, events[..2]);
    TwoSubmitted(cfg, a, b, events);
    assert events[..3] == events;
    RunNext(cfg, events, 2);
    RoundsStart(cfg, 0.0, env, two.queue, Begin(two));
    RoundsNext(cfg, 0.0, env, two.queue, 0, Begin(two));
    RoundsNext(cfg, 0.0, env, two.queue, 1, Begin(two));
    var s := Run(cfg, events);
    assert Serials(s.queue) == [0, 1];
    EveryoneCounts(2, 0);
    PlacesAreHoldings(s, 0);
    if Conserved(s.queue, s.ledger) { ConservedOnce(s, 0); }
  }

  lemma ConservedOnce(s: State, serial: nat)
    requires Conserved(s.queue, s.ledger)
    ensures Places(s, serial) <= 1
  {
    EveryoneCounts(s.ledger.enqueued, serial);
    PlacesAreHoldings(s, serial);
  }

  lemma TwoSubmitted(cfg: Config, a: Envelope, b: Envelope, events: seq<Event>)
    requires cfg.Valid() && cfg.maxQueueSize >= 2 && |events| >= 2 && events[0] == Submitted(a) && events[1] == Submitted(b)
    ensures var s := Run(cfg, events[..2]);
      s.queue == [Item(0, a, 0, 0.0), Item(1, b, 0, 0.0)] && s.ledger == START.ledger.(enqueued := 2) && !s.destroyed
  {
    RunNext(cfg, events, 0);
    RunNext(cfg, events, 1);
    RunNothing(cfg);
    assert events[..0] == [];
    assert Serials([]) == [];
  }

  // ---------------------------------------------------------------- the counts a flush reports

  /** sent, failed and remaining of a flush that returns account for the queue it started with. */
  lemma {:induction false} FlushCountsAgree(cfg: Config, s: State, now: real, env: nat -> Turn, n: nat)
    requires n <= |s.queue| && !Rounds(cfg, now, env, s.queue, n, Begin(s)).escaped
    ensures var p := Rounds(cfg, now, env, s.queue, n, Begin(s));
      && s.ledger.delivered <= p.ledger.delivered && s.ledger.dead <= p.ledger.dead
      && p.sent == |p.ledger.delivered| - |s.ledger.delivered|
      && p.sent + (|p.ledger.dead| - |s.ledger.dead|) + |p.survivors| == n
      && p.sent + p.failed == |p.ledger.posts| - |s.ledger.posts|
      && p.failed >= |p.ledger.dead| - |s.ledger.dead|
      && p.ledger.enqueued == s.ledger.enqueued && p.ledger.overflowed == s.ledger.overflowed && p.ledger.discarded == s.ledger.discarded
  {
    hide Round;
    if n > 0 {
      var p := Rounds(cfg, now, env, s.queue, n - 1, Begin(s));
      RoundEscapes(cfg, now, p, s.queue[n - 1], env(n - 1));
      FlushCountsAgree(cfg, s, now, env, n - 1);
      RoundPrefix(cfg, now, p, s.queue[n - 1], env(n - 1));
      RoundCounts(cfg, now, p, s.queue[n - 1], env(n - 1));
    }
  }

  lemma RoundCounts(cfg: Config, now: real, p: Pass, item: Item, turn: Turn)
    requires !Round(cfg, now, p, item, turn).escaped
    ensures var p' := Round(cfg, now, p, item, turn);
      var sent, dead := |p'.ledger.delivered| - |p.ledger.delivered|, |p'.ledger.dead| - |p.ledger.dead|;
      && p'.sent == p.sent + sent && sent + dead + |p'.survivors| == |p.survivors| + 1
      && p'.sent + p'.failed - p.sent - p.failed == |p'.ledger.posts| - |p.ledger.posts| && p'.failed - p.failed >= dead
  {
    hide RetryDelay, Classify;
  }

  /** A success without a body is dead-lettered on its first answer, with no failure class; when it is the
      last of the queue, a flush that lost it still leaves the transport idle. */
  lemma EmptySuccessIsDropped(cfg: Config, s: State, now: real, env: nat -> Turn, status: int)
    requires s.queue != [] && !PassOver(cfg, s, now, env).escaped && 200 <= status < 300
    requires var k := |s.queue| - 1; Due(s.queue[k], now, env(k)) && env(k).answer == Http(status, false)
    ensures var x, s' := s.queue[|s.queue| - 1], Flush(cfg, s, now, env);
      && s'.ledger.dead != [] && s'.ledger.dead[|s'.ledger.dead| - 1] == x.serial
      && s'.lastFailure == NoFailure && s'.transport == Idle
      && s'.queue == Rounds(cfg, now, env, s.queue, |s.queue| - 1, Begin(s)).survivors
  {
    hide RetryDelay;
    RoundsNext(cfg, now, env, s.queue, |s.queue| - 1, Begin(s));
  }

  // ---------------------------------------------------------------- retries run out

  /** Posts still allowed to the waiting envelopes. */
  function Potential(cfg: Config, q: seq<Item>): int {
    if q == [] then 0 else Potential(cfg, q[..|q| - 1]) + (cfg.maxRetries + 1 - q[|q| - 1].attempts)
  }

  lemma PotentialStep(cfg: Config, q: seq<Item>, x: Item)
    ensures Potential(cfg, q + [x]) == Potential(cfg, q) + (cfg.maxRetries + 1 - x.attempts)
  {
    assert (q + [x])[..|q|] == q;
  }

  ghost predicate AttemptsBounded(cfg: Config, q: seq<Item>) { forall x :: x in q ==> x.attempts <= cfg.maxRetries }

  /** Every post of a flush that does not escape uses up at least one of the posts still allowed. */
  lemma {:induction false} FlushSpendsPotential(cfg: Config, s: State, now: real, env: nat -> Turn, n: nat)
    requires n <= |s.queue| && AttemptsBounded(cfg, s.queue) && !Rounds(cfg, now, env, s.queue, n, Begin(s)).escaped
    ensures var p := Rounds(cfg, now, env, s.queue, n, Begin(s));
      Potential(cfg, p.survivors) <= Potential(cfg, s.queue[..n]) - (|p.ledger.posts| - |s.ledger.posts|)
  {
    hide RetryDelay, Classify, Round;
    if n > 0 {
      var x := s.queue[n - 1];
      assert x in s.queue;
      var p := Rounds(cfg, now, env, s.queue, n - 1, Begin(s));
      RoundEscapes(cfg, now, p, x, env(n - 1));
      FlushSpendsPotential(cfg, s, now, env, n - 1);
      assert s.queue[..n] == s.queue[..n - 1] + [x];
      PotentialStep(cfg, s.queue[..n - 1], x);
      RoundSpends(cfg, now, p, x, env(n - 1));
    }
  }

  lemma RoundSpends(cfg: Config, now: real, p: Pass, x: Item, turn: Turn)
    requires x.attempts <= cfg.maxRetries && !Round(cfg, now, p, x, turn).escaped
    ensures var p' := Round(cfg, now, p, x, turn);
      Potential(cfg, p'.survivors) <= Potential(cfg, p.survivors) + Potential(cfg, [x]) - (|p'.ledger.posts| - |p.ledger.posts|)
  {
    hide RetryDelay, Classify;
    PotentialStep(cfg, [], x);
    PotentialStep(cfg, p.survivors, x);
    PotentialStep(cfg, p.survivors, Retried(cfg, now, x));
    assert [] + [x] == [x];
  }

  // ---------------------------------------------------------------- the queue drains

  datatype Visit = Visit(now: real, env: nat -> Turn)

  function FlushAll(cfg: Config, s: State, visits: seq<Visit>): State
    decreases |visits|
  {
    if visits == [] then s else FlushAll(cfg, Flush(cfg, s, visits[0].now, visits[0].env), visits[1..])
  }

  const LONGEST_DELAY := MAX_BACKOFF + 249.0

  /** Flushes the caller does not abort, over a calm transport, from the given time on and never closer
      together than the longest delay. */
  ghost predicate Scheduled(visits: seq<Visit>, from: real)
    decreases |visits|
  {
    visits == [] ||
    (visits[0].now >= from && CalmFlush(visits[0].now, visits[0].env) && (forall i: nat :: !visits[0].env(i).aborted)
     && Scheduled(visits[1..], visits[0].now + LONGEST_DELAY))
  }

  ghost predicate DueBy(q: seq<Item>, at: real) { forall x :: x in q ==> x.nextAttemptAt <= at }

  ghost predicate AttemptsAtLeast(q: seq<Item>, k: nat) { forall x :: x in q ==> x.attempts >= k }

  /** A flush that finds every item due ages all that it keeps, and they are due again after the longest delay. */
  lemma {:induction false} DueRoundsAge(cfg: Config, s: State, now: real, env: nat -> Turn, n: nat, k: nat)
    requires n <= |s.queue| && AttemptsAtLeast(s.queue, k) && DueBy(s.queue, now)
    requires CalmFlush(now, env) && forall i: nat :: !env(i).aborted
    ensures var p := Rounds(cfg, now, env, s.queue, n, Begin(s));
      !p.escaped && AttemptsAtLeast(p.survivors, k + 1) && AttemptsBounded(cfg, p.survivors) && DueBy(p.survivors, now + LONGEST_DELAY)
  {
    hide RetryDelay, Classify, Round;
    if n > 0 {
      DueRoundsAge(cfg, s, now, env, n - 1, k);
      assert s.queue[n - 1] in s.queue;
      RoundFate(cfg, now, Rounds(cfg, now, env, s.queue, n - 1, Begin(s)), s.queue[n - 1], env(n - 1));
    }
  }

  lemma {:induction false} Drains(cfg: Config, s: State, visits: seq<Visit>, k: nat, from: real)
    requires cfg.Valid() && AttemptsBounded(cfg, s.queue) && AttemptsAtLeast(s.queue, k) && DueBy(s.queue, from)
    requires Scheduled(visits, from) && |visits| + k >= cfg.maxRetries + 1
    ensures FlushAll(cfg, s, visits).queue == []
    decreases |visits|
  {
    hide Rounds, CalmFlush;
    if visits == [] {
      if s.queue != [] { var x := SomeMember(s.queue); }
    } else {
      var v := visits[0];
      DueRoundsAge(cfg, s, v.now, v.env, |s.queue|, k);
      Drains(cfg, Flush(cfg, s, v.now, v.env), visits[1..], k + 1, v.now + LONGEST_DELAY);
    }
  }

  /** The time of the latest flush, or zero. */
  function Latest(events: seq<Event>): real {
    if events == [] then 0.0
    else
      var before, ev := Latest(events[..|events| - 1]), events[|events| - 1];
      if ev.Flushed? && ev.now > before then ev.now else before
  }

  lemma {:induction false} RoundsWait(cfg: Config, s: State, now: real, env: nat -> Turn, n: nat, at: real)
    requires n <= |s.queue| && DueBy(s.queue, at) && now + LONGEST_DELAY <= at
    ensures var p := Rounds(cfg, now, env, s.queue, n, Begin(s)); DueBy(p.visited, at) && DueBy(p.survivors, at)
  {
    hide RetryDelay, Classify, Round;
    if n > 0 {
      RoundsWait(cfg, s, now, env, n - 1, at);
      assert s.queue[n - 1] in s.queue;
      RoundDueBy(cfg, now, Rounds(cfg, now, env, s.queue, n - 1, Begin(s)), s.queue[n - 1], env(n - 1), at);
    }
  }

  lemma RoundDueBy(cfg: Config, now: real, p: Pass, x: Item, turn: Turn, at: real)
    requires DueBy(p.visited, at) && DueBy(p.survivors, at) && x.nextAttemptAt <= at && now + LONGEST_DELAY <= at
    ensures var p' := Round(cfg, now, p, x, turn); DueBy(p'.visited, at) && DueBy(p'.survivors, at)
  {
    hide RetryDelay, Classify;
  }

  /** In every run, whatever waits is due at the latest one longest delay after the latest flush. */
  lemma {:induction false} RunsWait(cfg: Config, events: seq<Event>)
    requires cfg.Valid()
    ensures DueBy(Run(cfg, events).queue, Latest(events) + LONGEST_DELAY) && Latest(events) >= 0.0
    decreases |events|
  {
    hide Rounds;
    if events != [] {
      var s, ev := Run(cfg, events[..|events| - 1]), events[|events| - 1];
      RunsWait(cfg, events[..|events| - 1]);
      if ev.Flushed? { RoundsWait(cfg, s, ev.now, ev.env, |s.queue|, Latest(events) + LONGEST_DELAY); }
    }
  }

  /** Whatever a calm transport answers, maxRetries + 1 flushes that are not aborted, the first one longest
      delay after the latest flush of the run and each one longest delay after the one before, empty the
      queue of any calm run. */
  lemma QueueDrains(cfg: Config, events: seq<Event>, visits: seq<Visit>)
    requires cfg.Valid() && Calm(events)
    requires Scheduled(visits, Latest(events) + LONGEST_DELAY) && |visits| >= cfg.maxRetries + 1
    ensures FlushAll(cfg, Run(cfg, events), visits).queue == []
  {
    hide Run, Calm, Scheduled, FlushAll, DueBy, InOrder, Conserved, Waited;
    CalmKeeps(cfg, events);
    RunsWait(cfg, events);
    Drains(cfg, Run(cfg, events), visits, 0, Latest(events) + LONGEST_DELAY);
  }
}
