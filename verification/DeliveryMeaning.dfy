/** The turns of a delivery pass by what a caller sees: abort flag, due time, status, failure and attempts left. */
module DeliveryMeaning {
  import opened Optional
  import opened DeliveryQueue
  import opened SdkClient

  // ---------------------------------------------------------------- turns without a post

  /** An aborted turn, or one before the item is due, posts nothing and leaves the item waiting as it is. */
  lemma NoPostWhileAborted(cfg: Config, now: real, p: Pass, item: Item, turn: Turn)
    requires !p.escaped && (turn.aborted || item.nextAttemptAt > now)
    ensures Round(cfg, now, p, item, turn) == p.(visited := p.visited + [item], survivors := p.survivors + [item])
  {
  }

  /** Every turn from k on is aborted, or finds its item not yet due. */
  ghost predicate QuietFrom(q: seq<Item>, now: real, env: nat -> Turn, k: nat) {
    forall i: nat :: k <= i < |q| ==> env(i).aborted || q[i].nextAttemptAt > now
  }

  lemma {:induction false} QuietRounds(cfg: Config, s: State, now: real, env: nat -> Turn, k: nat, n: nat)
    requires k <= n <= |s.queue| && QuietFrom(s.queue, now, env, k)
    ensures var p, q := Rounds(cfg, now, env, s.queue, k, Begin(s)), Rounds(cfg, now, env, s.queue, n, Begin(s));
      && q.ledger == p.ledger && q.sent == p.sent && q.failed == p.failed && q.escaped == p.escaped
      && q.lastSuccessAt == p.lastSuccessAt && q.lastFailure == p.lastFailure
      && q.visited == p.visited + s.queue[k..n]
      && q.survivors == if p.escaped then p.survivors else p.survivors + s.queue[k..n]
  {
    hide Begin, Answered;
    if n > k {
      QuietRounds(cfg, s, now, env, k, n - 1);
      assert s.queue[k..n] == s.queue[k..n - 1] + [s.queue[n - 1]];
      var mid := Rounds(cfg, now, env, s.queue, n - 1, Begin(s));
      if !mid.escaped { NoPostWhileAborted(cfg, now, mid, s.queue[n - 1], env(n - 1)); }
    } else {
      assert s.queue[k..n] == [];
    }
  }

  /** From the first turn on which the flag stays up, no post is made, nothing settles, and whatever was not yet
      visited is kept as it is. */
  lemma AbortStopsPosting(cfg: Config, s: State, now: real, env: nat -> Turn, k: nat)
    requires k <= |s.queue| && forall i: nat :: i >= k ==> env(i).aborted
    ensures var p, s' := Rounds(cfg, now, env, s.queue, k, Begin(s)), Flush(cfg, s, now, env);
      && s'.ledger == p.ledger
      && s'.queue == (if p.escaped then p.visited else p.survivors) + s.queue[k..]
  {
    hide Begin, Rounds;
    QuietRounds(cfg, s, now, env, k, |s.queue|);
    assert s.queue[k..|s.queue|] == s.queue[k..];
  }

  /** A flush whose turns are all aborted, or whose items are all not yet due, leaves queue and ledger as they were. */
  lemma QuietFlush(cfg: Config, s: State, now: real, env: nat -> Turn)
    requires QuietFrom(s.queue, now, env, 0)
    ensures Flush(cfg, s, now, env) == s.(transport := if s.lastFailure == NoFailure then Idle else Error)
    ensures PassOver(cfg, s, now, env).sent == PassOver(cfg, s, now, env).failed == 0
  {
    QuietRounds(cfg, s, now, env, 0, |s.queue|);
    RoundsStart(cfg, now, env, s.queue, Begin(s));
    hide Rounds, QuietFrom;
    assert s.queue[0..|s.queue|] == s.queue && [] + s.queue == s.queue;
  }

  // ---------------------------------------------------------------- turns with a post

  /** The turn posts: the flag is down and the item due. */
  predicate Posts(p: Pass, item: Item, now: real, turn: Turn) { !p.escaped && !turn.aborted && item.nextAttemptAt <= now }

  /** 30 seconds, or the base doubled once per attempt so far if that is less, and up to 249 ms from the key. */
  function Delay(cfg: Config, item: Item): real {
    var backoff := cfg.retryBaseMs * Pow2(item.attempts);
    (if backoff < 30000.0 then backoff else 30000.0) + (cfg.keyHash(item.envelope.eventId) % 250) as real
  }

  lemma PowersOfTwo(n: nat)
    ensures Pow2(0) == 1.0 && Pow2(1) == 2.0 && Pow2(n + 1) == 2.0 * Pow2(n)
  {
  }

  /** The record of the post. */
  function Posted(cfg: Config, now: real, item: Item): Post { Post(item.serial, item.attempts + 1, now, Delay(cfg, item)) }

  /** The item is dropped as a dead letter, its failure kept as the last one. */
  predicate DeadLetters(p: Pass, p': Pass, item: Item, failure: Failure) {
    && p'.survivors == p.survivors && p'.sent == p.sent && p'.failed == p.failed + 1 && !p'.escaped
    && p'.lastFailure == failure && p'.lastSuccessAt == p.lastSuccessAt
    && p'.ledger.dead == p.ledger.dead + [item.serial] && p'.ledger.delivered == p.ledger.delivered
    && p'.visited == p.visited + [item.(attempts := item.attempts + 1)]
  }

  /** The item waits for its next attempt. */
  predicate WaitsAgain(cfg: Config, now: real, p: Pass, p': Pass, item: Item, failure: Failure) {
    var again := item.(attempts := item.attempts + 1, nextAttemptAt := now + Delay(cfg, item));
    && p'.survivors == p.survivors + [again] && p'.visited == p.visited + [again]
    && p'.sent == p.sent && p'.failed == p.failed + 1 && !p'.escaped
    && p'.lastFailure == failure && p'.lastSuccessAt == p.lastSuccessAt
    && p'.ledger.dead == p.ledger.dead && p'.ledger.delivered == p.ledger.delivered
  }

  /** The item waits again while attempts are left, and is a dead letter after that. */
  predicate Retries(cfg: Config, now: real, p: Pass, p': Pass, item: Item, failure: Failure) {
    if item.attempts + 1 <= cfg.maxRetries then WaitsAgain(cfg, now, p, p', item, failure) else DeadLetters(p, p', item, failure)
  }

  predicate Delivers(now: real, p: Pass, p': Pass, item: Item) {
    && p'.survivors == p.survivors && p'.visited == p.visited + [item] && p'.sent == p.sent + 1 && p'.failed == p.failed && !p'.escaped
    && p'.lastFailure == NoFailure && p'.lastSuccessAt == Some(now)
    && p'.ledger.delivered == p.ledger.delivered + [item.serial] && p'.ledger.dead == p.ledger.dead
  }

  /** Each due item is posted once per flush, and the post is recorded. */
  lemma OnePost(cfg: Config, now: real, p: Pass, item: Item, turn: Turn)
    requires Posts(p, item, now, turn)
    ensures var l, l' := p.ledger, Round(cfg, now, p, item, turn).ledger;
      l'.posts == l.posts + [Posted(cfg, now, item)] && l'.enqueued == l.enqueued && l'.overflowed == l.overflowed && l'.discarded == l.discarded
  {
  }

  /** What an HTTP answer leads to, by its status. */
  lemma StatusDecides(cfg: Config, now: real, p: Pass, item: Item, turn: Turn)
    requires Posts(p, item, now, turn) && turn.answer.Http?
    ensures var p', status, body := Round(cfg, now, p, item, turn), turn.answer.status, turn.answer.body;
      && (200 <= status <= 299 && body && -8640000000000000.0 <= now <= 8640000000000000.0 ==> Delivers(now, p, p', item))
      && (200 <= status <= 299 && body && !(-8640000000000000.0 <= now <= 8640000000000000.0) ==>
            p'.escaped && p'.sent == p.sent + 1 && p'.ledger.delivered == p.ledger.delivered + [item.serial] && p'.lastFailure == p.lastFailure)
      && (200 <= status <= 299 && !body ==> DeadLetters(p, p', item, NoFailure))
      && (status == 429 ==> Retries(cfg, now, p, p', item, RateLimited))
      && (status >= 500 ==> Retries(cfg, now, p, p', item, ServerError))
      && (status < 200 || (300 <= status < 500 && status != 429) ==> DeadLetters(p, p', item, Rejected))
  {
    assert Delay(cfg, item) == RetryDelay(cfg, item.envelope.eventId, item.attempts + 1);
    hide RetryDelay, Delay;
  }

  /** What a thrown failure leads to, by its name. */
  lemma FailureDecides(cfg: Config, now: real, p: Pass, item: Item, turn: Turn)
    requires Posts(p, item, now, turn) && !turn.answer.Http?
    ensures var p', a := Round(cfg, now, p, item, turn), turn.answer;
      && (a == Thrown("timeout") ==> Retries(cfg, now, p, p', item, Timeout))
      && (a == Thrown("aborted") ==> DeadLetters(p, p', item, DeliveryQueue.Aborted))
      && (a.Thrown? && a.failure != "timeout" && a.failure != "aborted" ==> Retries(cfg, now, p, p', item, Network))
      && (a.ThrownNothing? ==>
            p'.escaped && p'.visited == p.visited + [item] && p'.sent == p.sent && p'.failed == p.failed
            && p'.ledger.delivered == p.ledger.delivered && p'.ledger.dead == p.ledger.dead && p'.lastFailure == p.lastFailure)
  {
    assert Delay(cfg, item) == RetryDelay(cfg, item.envelope.eventId, item.attempts + 1);
    hide RetryDelay, Delay;
  }

  // ---------------------------------------------------------------- flushes, enqueueing, configuration

  /** A flush that returns leaves the survivors, and the transport idle exactly when the last failure was cleared. */
  lemma ReturningFlush(cfg: Config, s: State, now: real, env: nat -> Turn)
    ensures var p, s' := PassOver(cfg, s, now, env), Flush(cfg, s, now, env);
      && s'.destroyed == s.destroyed && s'.ledger == p.ledger && s'.lastFailure == p.lastFailure && s'.lastSuccessAt == p.lastSuccessAt
      && (!p.escaped ==> s'.queue == p.survivors && (s'.transport == Idle <==> p.lastFailure == NoFailure) && (s'.transport == Error <==> p.lastFailure != NoFailure))
      && (p.escaped ==> s'.queue == p.visited && s'.transport == Sending)
  {
  }

  /** A new envelope goes last, fresh and due at once; beyond the bound the oldest are dropped and recorded. */
  lemma EnqueueKeepsNewest(cfg: Config, s: State, e: Envelope)
    requires cfg.Valid() && |s.queue| <= cfg.maxQueueSize
    ensures var item, s' := Item(s.ledger.enqueued, e, 0, 0.0), Enqueue(cfg, s, e);
      && (|s.queue| < cfg.maxQueueSize ==> s'.queue == s.queue + [item] && s'.ledger.overflowed == s.ledger.overflowed)
      && (|s.queue| == cfg.maxQueueSize ==>
            s'.queue == s.queue[1..] + [item] && s'.ledger.overflowed == s.ledger.overflowed + [s.queue[0].serial])
      && s'.ledger.enqueued == s.ledger.enqueued + 1 && s'.ledger.posts == s.ledger.posts
      && s'.transport == s.transport && s'.lastFailure == s.lastFailure && s'.lastSuccessAt == s.lastSuccessAt
  {
    var q := s.queue + [Item(s.ledger.enqueued, e, 0, 0.0)];
    assert q[0..] == q && Serials(q[..0]) == [];
    if |s.queue| == cfg.maxQueueSize {
      assert q[1..] == s.queue[1..] + [q[|q| - 1]];
      assert Serials(q[..1]) == [q[0].serial];
    }
  }

  /** The items that submissions make, numbered on from what was enqueued before. */
  function Items(from: nat, es: seq<Envelope>, n: nat): seq<Item>
    requires n <= |es|
  {
    seq(n, i requires 0 <= i < n => Item(from + i, es[i], 0, 0.0))
  }

  /** Several envelopes are enqueued in the order given, and of everything waiting the newest stay. */
  lemma {:induction false} EnqueuedInOrder(cfg: Config, s: State, es: seq<Envelope>, n: nat)
    requires cfg.Valid() && n <= |es| && |s.queue| <= cfg.maxQueueSize
    ensures var q, all := EnqueueAll(cfg, s, es, n).queue, s.queue + Items(s.ledger.enqueued, es, n);
      && |q| == (if |all| <= cfg.maxQueueSize then |all| else cfg.maxQueueSize)
      && q == all[|all| - |q|..]
    ensures EnqueueAll(cfg, s, es, n).ledger.enqueued == s.ledger.enqueued + n
  {
    hide Enqueue;
    var all := s.queue + Items(s.ledger.enqueued, es, n);
    if n == 0 {
      assert all == s.queue && all[0..] == all;
    } else {
      EnqueuedInOrder(cfg, s, es, n - 1);
      var s' := EnqueueAll(cfg, s, es, n - 1);
      var before := s.queue + Items(s.ledger.enqueued, es, n - 1);
      EnqueueKeepsNewest(cfg, s', es[n - 1]);
      assert all == before + [Item(s'.ledger.enqueued, es[n - 1], 0, 0.0)];
    }
  }

  /** Destroying empties the queue. */
  lemma DestroyEmpties(s: State)
    ensures Destroy(s).queue == [] && Destroy(s).destroyed && Destroy(s).ledger.discarded == s.ledger.discarded + Serials(s.queue)
  {
  }

  /** Defaults: 8 seconds, four retries, 500 waiting envelopes, 250 ms base; what is given replaces them. */
  lemma DefaultSettings(o: Options, keyHash: string -> nat)
    ensures var cfg := Settings(o, keyHash);
      && cfg.keyHash == keyHash
      && cfg.maxQueueSize == (match o.maxQueueSize case None => 500 case Some(n) => n)
      && cfg.maxRetries == (match o.maxRetries case None => 4 case Some(n) => n)
      && cfg.retryBaseMs == (match o.retryBaseMs case None => 250.0 case Some(x) => x)
    ensures ConfigFault(o) == None <==>
      && o.endpoint != "" && o.applicationId != "" && o.subjectId != ""
      && (o.timeoutMs != None ==> o.timeoutMs.value > 0)
      && (o.maxQueueSize != None ==> o.maxQueueSize.value > 0)
      && (o.maxRetries != None ==> o.maxRetries.value >= 0)
    ensures o.endpoint == "" ==> ConfigFault(o) == Some("endpoint")
    ensures o.endpoint != "" && o.applicationId == "" ==> ConfigFault(o) == Some("applicationId")
    ensures o.endpoint != "" && o.applicationId != "" && o.subjectId == "" ==> ConfigFault(o) == Some("subjectId")
  {
  }

  /** A client may enqueue while it is not destroyed and holds two credentials that are not empty. */
  lemma LiveIff(c: Client)
    ensures c.Live() <==>
      && !c.destroyed && c.token != None && c.token != Some("") && c.installationId != None && c.installationId != Some("")
    ensures forall s: string :: Client.Present(Some(s)) <==> s != ""
    ensures !Client.Present(None)
  {
  }

  /** Credentials: those given with the call, else the configured ones, else those already held. */
  lemma CredentialsFallBack(a: string, b: Option<string>, c: Option<string>)
    ensures FirstGiven(Some(a), b, c) == Some(a) && FirstGiven(None, Some(a), c) == Some(a) && FirstGiven(None, None, c) == c
  {
  }
}
