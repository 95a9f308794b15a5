/** The offline delivery queue of the SDK as a state machine: what each step does, and what every run keeps. */
module DeliveryQueue {
  import opened Optional

  datatype Envelope = Envelope(eventId: string, body: string)

  /** A waiting envelope. `serial` is its place in the order of all enqueues; only proofs look at it. */
  datatype Item = Item(serial: nat, envelope: Envelope, attempts: nat, nextAttemptAt: real)

  datatype Failure = NoFailure | ClassifierUnavailable | Network | Timeout | Aborted | Rejected | RateLimited | ServerError

  /** What a post comes back with: a status and whether the JSON body is there, a thrown failure, or a
      rejection with null or undefined, which has no failure to read. */
  datatype Answer = Http(status: int, body: bool) | Thrown(failure: string) | ThrownNothing

  /** The environment's part in one loop round: the abort flag as read then, and the answer if a post is made. */
  datatype Turn = Turn(aborted: bool, answer: Answer)

  datatype Config = Config(maxQueueSize: int, maxRetries: int, retryBaseMs: real, keyHash: string -> nat) {
    predicate Valid() { maxQueueSize > 0 && maxRetries >= 0 }
  }

  datatype Post = Post(serial: nat, attempt: nat, at: real, retryAfter: real)

  /** What has become of envelopes so far; only proofs look at it. */
  datatype Ledger = Ledger(enqueued: nat, delivered: seq<nat>, dead: seq<nat>, overflowed: seq<nat>, discarded: seq<nat>, posts: seq<Post>)

  datatype Transport = Idle | Sending | Error

  datatype State = State(queue: seq<Item>, destroyed: bool, transport: Transport, lastSuccessAt: Option<real>, lastFailure: Failure, ledger: Ledger)

  const START := State([], false, Idle, None, NoFailure, Ledger(0, [], [], [], [], []))

  // ---------------------------------------------------------------- enqueue, destroy

  function Serials(items: seq<Item>): seq<nat> {
    seq(|items|, i requires 0 <= i < |items| => items[i].serial)
  }

  function Over(cfg: Config, n: nat): (k: nat)
    requires cfg.Valid()
    ensures k <= n
  {
    if n > cfg.maxQueueSize then n - cfg.maxQueueSize else 0
  }

  /** Append, then drop the oldest beyond the bound. */
  function Enqueue(cfg: Config, s: State, e: Envelope): State
    requires cfg.Valid()
  {
    var q := s.queue + [Item(s.ledger.enqueued, e, 0, 0.0)];
    var over := Over(cfg, |q|);
    s.(queue := q[over..],
       ledger := s.ledger.(enqueued := s.ledger.enqueued + 1, overflowed := s.ledger.overflowed + Serials(q[..over])))
  }

  function Destroy(s: State): State {
    s.(queue := [], destroyed := true, ledger := s.ledger.(discarded := s.ledger.discarded + Serials(s.queue)))
  }

  // ---------------------------------------------------------------- flush

  /** Whether an answer yields a receipt, and else the failure class. A success without a body is neither. */
  datatype Verdict = Verdict(receipt: bool, failure: Failure)

  function Classify(a: Answer): Verdict
    requires !a.ThrownNothing?
  {
    match a
    case Http(status, body) =>
      if 200 <= status < 300 then Verdict(body, NoFailure)
      else if status == 429 then Verdict(false, RateLimited)
      else if status >= 500 then Verdict(false, ServerError)
      else Verdict(false, Rejected)
    case Thrown(f) => Verdict(false, if f == "timeout" then Timeout else if f == "aborted" then Aborted else Network)
  }

  predicate Retryable(f: Failure) { f.Network? || f.Timeout? || f.RateLimited? || f.ServerError? }

  function Pow2(n: nat): real { if n == 0 then 1.0 else 2.0 * Pow2(n - 1) }

  const MAX_BACKOFF := 30000.0

  /** Exponential backoff with a cap, plus jitter derived from the key. */
  function RetryDelay(cfg: Config, key: string, attempt: nat): (d: real)
    requires attempt >= 1
    ensures d <= MAX_BACKOFF + 249.0
  {
    var backoff := cfg.retryBaseMs * Pow2(attempt - 1);
    (if backoff < MAX_BACKOFF then backoff else MAX_BACKOFF) + (cfg.keyHash(key) % 250) as real
  }

  /** Times that have a date: within a hundred million days of the epoch. */
  const MAX_DATE := 8640000000000000.0

  predicate Datable(now: real) { -MAX_DATE <= now <= MAX_DATE }

  /** A flush in progress. `visited` are the queue's items as this flush has left them; once an
      exception has escaped, nothing further happens. */
  datatype Pass = Pass(
    visited: seq<Item>, survivors: seq<Item>, sent: nat, failed: nat,
    lastSuccessAt: Option<real>, lastFailure: Failure, ledger: Ledger, escaped: bool)

  predicate Due(item: Item, now: real, turn: Turn) { !turn.aborted && item.nextAttemptAt <= now }

  function PostOf(cfg: Config, now: real, item: Item): Post {
    Post(item.serial, item.attempts + 1, now, RetryDelay(cfg, item.envelope.eventId, item.attempts + 1))
  }

  function Tried(item: Item): Item { item.(attempts := item.attempts + 1) }

  function Retried(cfg: Config, now: real, item: Item): Item {
    Tried(item).(nextAttemptAt := now + RetryDelay(cfg, item.envelope.eventId, item.attempts + 1))
  }

  /** A post that was made and answered: the delivery, the dead letter or the retry it leads to. */
  function Answered(cfg: Config, now: real, p: Pass, item: Item, v: Verdict): Pass {
    if v.receipt then
      var sent := p.(visited := p.visited + [item], sent := p.sent + 1, ledger := p.ledger.(delivered := p.ledger.delivered + [item.serial]));
      if Datable(now) then sent.(lastSuccessAt := Some(now), lastFailure := NoFailure) else sent.(escaped := true)
    else if !Retryable(v.failure) || item.attempts + 1 > cfg.maxRetries then
      p.(visited := p.visited + [Tried(item)], failed := p.failed + 1, lastFailure := v.failure,
         ledger := p.ledger.(dead := p.ledger.dead + [item.serial]))
    else
      p.(visited := p.visited + [Retried(cfg, now, item)], survivors := p.survivors + [Retried(cfg, now, item)],
         failed := p.failed + 1, lastFailure := v.failure)
  }

  /** One item of the queue during a flush. */
  function Round(cfg: Config, now: real, p: Pass, item: Item, turn: Turn): Pass {
    if p.escaped then p.(visited := p.visited + [item])
    else if !Due(item, now, turn) then p.(visited := p.visited + [item], survivors := p.survivors + [item])
    else
      var posted := p.(ledger := p.ledger.(posts := p.ledger.posts + [PostOf(cfg, now, item)]));
      if turn.answer.ThrownNothing? then posted.(visited := p.visited + [item], escaped := true)
      else Answered(cfg, now, posted, item, Classify(turn.answer))
  }

  // The turns of a flush, one by one.

  lemma RoundWaits(cfg: Config, now: real, p: Pass, item: Item, turn: Turn)
    requires !p.escaped && !Due(item, now, turn)
    ensures Round(cfg, now, p, item, turn) == p.(visited := p.visited + [item], survivors := p.survivors + [item])
  {
  }

  lemma RoundThrowsNothing(cfg: Config, now: real, p: Pass, item: Item, turn: Turn)
    requires !p.escaped && Due(item, now, turn) && turn.answer.ThrownNothing?
    ensures Round(cfg, now, p, item, turn) ==
      p.(visited := p.visited + [item], ledger := p.ledger.(posts := p.ledger.posts + [PostOf(cfg, now, item)]), escaped := true)
  {
    hide PostOf;
  }

  lemma RoundDelivers(cfg: Config, now: real, p: Pass, item: Item, turn: Turn)
    requires !p.escaped && Due(item, now, turn) && !turn.answer.ThrownNothing? && Classify(turn.answer).receipt
    ensures Round(cfg, now, p, item, turn) ==
      p.(visited := p.visited + [item], sent := p.sent + 1,
         lastSuccessAt := if Datable(now) then Some(now) else p.lastSuccessAt, lastFailure := if Datable(now) then NoFailure else p.lastFailure,
         ledger := p.ledger.(posts := p.ledger.posts + [PostOf(cfg, now, item)], delivered := p.ledger.delivered + [item.serial]),
         escaped := !Datable(now))
  {
    hide PostOf, Classify, Datable;
  }

  lemma RoundFails(cfg: Config, now: real, p: Pass, item: Item, turn: Turn)
    requires !p.escaped && Due(item, now, turn) && !turn.answer.ThrownNothing? && !Classify(turn.answer).receipt
    ensures var failure := Classify(turn.answer).failure; var again := Retryable(failure) && item.attempts + 1 <= cfg.maxRetries;
      Round(cfg, now, p, item, turn) ==
      p.(visited := p.visited + [if again then Retried(cfg, now, item) else Tried(item)],
         survivors := if again then p.survivors + [Retried(cfg, now, item)] else p.survivors,
         failed := p.failed + 1, lastFailure := failure,
         ledger := p.ledger.(posts := p.ledger.posts + [PostOf(cfg, now, item)], dead := if again then p.ledger.dead else p.ledger.dead + [item.serial]))
  {
    hide PostOf, Classify, Retryable, Retried;
  }

  function Rounds(cfg: Config, now: real, env: nat -> Turn, queue: seq<Item>, n: nat, start: Pass): Pass
    requires n <= |queue|
  {
    if n == 0 then start else Round(cfg, now, Rounds(cfg, now, env, queue, n - 1, start), queue[n - 1], env(n - 1))
  }

  lemma RoundsStart(cfg: Config, now: real, env: nat -> Turn, queue: seq<Item>, start: Pass)
    ensures Rounds(cfg, now, env, queue, 0, start) == start
  {
  }

  lemma RoundsNext(cfg: Config, now: real, env: nat -> Turn, queue: seq<Item>, n: nat, start: Pass)
    requires n < |queue|
    ensures Rounds(cfg, now, env, queue, n + 1, start) == Round(cfg, now, Rounds(cfg, now, env, queue, n, start), queue[n], env(n))
  {
  }

  function Begin(s: State): Pass { Pass([], [], 0, 0, s.lastSuccessAt, s.lastFailure, s.ledger, false) }

  function PassOver(cfg: Config, s: State, now: real, env: nat -> Turn): Pass {
    Rounds(cfg, now, env, s.queue, |s.queue|, Begin(s))
  }

  /** After an escape the queue is the old list, its items as changed so far, and the transport still reads as sending. */
  function Flush(cfg: Config, s: State, now: real, env: nat -> Turn): State {
    var p := PassOver(cfg, s, now, env);
    if p.escaped then State(p.visited, s.destroyed, Sending, p.lastSuccessAt, p.lastFailure, p.ledger)
    else State(p.survivors, s.destroyed, if p.lastFailure == NoFailure then Idle else Error, p.lastSuccessAt, p.lastFailure, p.ledger)
  }

  /** Failures worth another attempt: the transport itself failed, or the server was busy or broken. */
  predicate Transient(a: Answer) {
    match a
    case Http(status, _) => status == 429 || status >= 500
    case Thrown(f) => f != "aborted"
    case ThrownNothing => false
  }

  predicate Receipt(a: Answer) { a.Http? && 200 <= a.status < 300 && a.body }

  /** The item's turn ends in an exception that leaves the flush: there is no failure to read, or a
      receipt arrives at a time without a date. */
  predicate Escapes(item: Item, now: real, turn: Turn) {
    Due(item, now, turn) && (turn.answer.ThrownNothing? || (Receipt(turn.answer) && !Datable(now)))
  }

  /** The item's turn delivers or dead-letters it. */
  predicate Settles(cfg: Config, item: Item, now: real, turn: Turn) {
    Due(item, now, turn) && !turn.answer.ThrownNothing?
    && (Receipt(turn.answer) || !(Transient(turn.answer) && item.attempts < cfg.maxRetries))
  }

  /** What one post decides: delivered on a 2xx answer with a body; otherwise waiting again exactly after a
      transient failure with attempts to spare, and dead-lettered in every other case that is answered at all. */
  lemma RoundFate(cfg: Config, now: real, p: Pass, item: Item, turn: Turn)
    requires !p.escaped && Due(item, now, turn)
    ensures var p', a := Round(cfg, now, p, item, turn), turn.answer;
      var delivered := Receipt(a);
      var again := Transient(a) && item.attempts < cfg.maxRetries;
      && p'.ledger.delivered == (if delivered then p.ledger.delivered + [item.serial] else p.ledger.delivered)
      && p'.survivors == (if again then p.survivors + [Retried(cfg, now, item)] else p.survivors)
      && p'.ledger.dead == (if Settles(cfg, item, now, turn) && !delivered then p.ledger.dead + [item.serial] else p.ledger.dead)
      && p'.ledger.posts == p.ledger.posts + [PostOf(cfg, now, item)]
      && p'.visited == p.visited + [if again then Retried(cfg, now, item) else if a.ThrownNothing? || delivered then item else Tried(item)]
      && (p'.escaped <==> Escapes(item, now, turn))
      && (delivered && !p'.escaped ==> p'.lastSuccessAt == Some(now) && p'.lastFailure == NoFailure)
  {
    hide RetryDelay;
  }

  /** Each further attempt on one key waits twice the backoff, up to the cap, plus the same jitter under 250 ms. */
  lemma BackoffDoubles(cfg: Config, key: string, attempt: nat) returns (jitter: int)
    requires attempt >= 1 && cfg.retryBaseMs >= 0.0
    ensures 0 <= jitter < 250
    ensures var d, d' := RetryDelay(cfg, key, attempt) - jitter as real, RetryDelay(cfg, key, attempt + 1) - jitter as real;
      0.0 <= d <= MAX_BACKOFF && d' == (if 2.0 * d < MAX_BACKOFF then 2.0 * d else MAX_BACKOFF)
    ensures attempt == 1 && cfg.retryBaseMs < MAX_BACKOFF ==> RetryDelay(cfg, key, 1) == cfg.retryBaseMs + jitter as real
  {
    jitter := cfg.keyHash(key) % 250;
    PowPositive(attempt - 1);
  }

  lemma {:induction false} PowPositive(n: nat)
    ensures Pow2(n) >= 1.0
  {
    if n > 0 { PowPositive(n - 1); }
  }

  // ---------------------------------------------------------------- what a step keeps

  function Count(posts: seq<Post>, serial: nat): nat {
    if posts == [] then 0
    else Count(posts[..|posts| - 1], serial) + if posts[|posts| - 1].serial == serial then 1 else 0
  }

  /** Waiting envelopes stand in the order they were enqueued, after every one dropped for room. */
  ghost predicate InOrder(q: seq<Item>, l: Ledger) {
    && (forall i, j :: 0 <= i < j < |q| ==> q[i].serial < q[j].serial)
    && (forall i :: 0 <= i < |q| ==> q[i].serial < l.enqueued)
    && (forall o :: 0 <= o < |l.overflowed| ==> l.overflowed[o] < l.enqueued)
    && forall o, i :: 0 <= o < |l.overflowed| && 0 <= i < |q| ==> l.overflowed[o] < q[i].serial
  }

  function Everyone(n: nat): seq<nat> { seq(n, i requires 0 <= i < n => i) }

  /** Every place an envelope can be in, taken together. */
  ghost function Holdings(q: seq<Item>, l: Ledger): multiset<nat> {
    multiset(Serials(q)) + multiset(l.delivered) + multiset(l.dead) + multiset(l.overflowed) + multiset(l.discarded)
  }

  /** Each envelope ever enqueued is in exactly one place. */
  ghost predicate Conserved(q: seq<Item>, l: Ledger) { Holdings(q, l) == multiset(Everyone(l.enqueued)) }

  /** Attempts count posts; nobody is posted more than maxRetries + 1 times. */
  ghost predicate Counted(cfg: Config, q: seq<Item>, l: Ledger) {
    && (forall x :: x in q ==> Count(l.posts, x.serial) == x.attempts <= cfg.maxRetries)
    && (forall serial: nat :: Count(l.posts, serial) <= cfg.maxRetries + 1)
    && forall serial: nat :: serial >= l.enqueued ==> Count(l.posts, serial) == 0
  }

  /** posts[i] came no earlier than the delay its predecessor earned. */
  ghost predicate WaitedFor(posts: seq<Post>, i: int, j: int)
    requires 0 <= i < |posts|
  {
    0 <= j < i && posts[j].serial == posts[i].serial && posts[j].attempt == posts[i].attempt - 1
    && posts[j].at + posts[j].retryAfter <= posts[i].at
  }

  ghost predicate Earned(posts: seq<Post>, item: Item, j: int) {
    0 <= j < |posts| && posts[j].serial == item.serial && posts[j].attempt == item.attempts
    && item.nextAttemptAt == posts[j].at + posts[j].retryAfter
  }

  /** Every retry waited out its delay, and no delay exceeds the cap plus jitter. */
  ghost predicate Waited(q: seq<Item>, l: Ledger) {
    && (forall i :: 0 <= i < |l.posts| ==> l.posts[i].attempt >= 1 && l.posts[i].retryAfter <= MAX_BACKOFF + 249.0)
    && (forall i :: 0 <= i < |l.posts| && l.posts[i].attempt > 1 ==> exists j :: WaitedFor(l.posts, i, j))
    && forall x :: x in q && x.attempts > 0 ==> exists j :: Earned(l.posts, x, j)
  }

  ghost predicate Sound(cfg: Config, q: seq<Item>, l: Ledger) {
    InOrder(q, l) && Conserved(q, l) && Counted(cfg, q, l) && Waited(q, l)
  }

  /** What even an escape cannot break: the bound and the order of the queue. */
  ghost predicate Orderly(cfg: Config, s: State) {
    InOrder(s.queue, s.ledger) && |s.queue| <= cfg.maxQueueSize && (s.destroyed ==> s.queue == [])
  }

  ghost predicate Invariant(cfg: Config, s: State) { Sound(cfg, s.queue, s.ledger) && Orderly(cfg, s) }

  lemma StartsSound(cfg: Config)
    requires cfg.Valid()
    ensures Invariant(cfg, START)
  {
    assert Serials([]) == [] && Everyone(0) == [];
  }

  // Removing, or retrying, the item behind the survivors.

  lemma SerialsConcat(a: seq<Item>, b: seq<Item>)
    ensures Serials(a + b) == Serials(a) + Serials(b)
  {
  }

  lemma CountStep(posts: seq<Post>, p: Post, serial: nat)
    ensures Count(posts + [p], serial) == Count(posts, serial) + if p.serial == serial then 1 else 0
  {
    assert (posts + [p])[..|posts|] == posts;
  }

  /** The rest of the queue has other serials. */
  lemma OthersDiffer(before: seq<Item>, item: Item, after: seq<Item>, l: Ledger)
    requires InOrder(before + [item] + after, l)
    ensures forall x :: x in before + after ==> x in before + [item] + after && x.serial != item.serial
  {
    var q := before + [item] + after;
    var k := |before|;
    assert q[k] == item;
    forall x | x in before + after ensures x in q && x.serial != item.serial {
      var i :| 0 <= i < |before + after| && (before + after)[i] == x;
      if i < k { assert q[i] == x; } else { assert q[i + 1] == x; }
    }
  }

  /** A post for the item: whether it leaves the queue or stays for a retry, counts and waits stay right. */
  lemma PostKeeps(cfg: Config, now: real, before: seq<Item>, item: Item, after: seq<Item>, l: Ledger)
    requires Counted(cfg, before + [item] + after, l) && Waited(before + [item] + after, l) && InOrder(before + [item] + after, l)
    requires item.nextAttemptAt <= now
    ensures var l' := l.(posts := l.posts + [PostOf(cfg, now, item)]);
      && Counted(cfg, before + after, l') && Waited(before + after, l')
      && (item.attempts < cfg.maxRetries ==>
            var r := Retried(cfg, now, item); Counted(cfg, before + [r] + after, l') && Waited(before + [r] + after, l'))
  {
    var q, p := before + [item] + after, PostOf(cfg, now, item);
    var posts := l.posts + [p];
    assert item in q && q[|before|] == item;
    OthersDiffer(before, item, after, l);
    forall serial: nat ensures Count(posts, serial) == Count(l.posts, serial) + if serial == item.serial then 1 else 0 {
      CountStep(l.posts, p, serial);
    }
    PostWaits(q, |before|, p, l, now);
    var r := Retried(cfg, now, item);
    assert Earned(posts, r, |l.posts|);
    forall x | x in before + after && x.attempts > 0 ensures exists j :: Earned(posts, x, j) {
      var j :| Earned(l.posts, x, j);
      assert Earned(posts, x, j);
    }
    forall x | x in before + [r] + after ensures x == r || x in before + after {}
  }

  lemma OrderKept(before: seq<Item>, item: Item, r: Item, after: seq<Item>, l: Ledger)
    requires InOrder(before + [item] + after, l) && r.serial == item.serial
    ensures InOrder(before + after, l) && InOrder(before + [r] + after, l)
  {
    var q, gone, kept := before + [item] + after, before + after, before + [r] + after;
    var k := |before|;
    assert forall i :: 0 <= i < |gone| ==> gone[i] == q[if i < k then i else i + 1];
    assert forall i :: 0 <= i < |kept| ==> kept[i].serial == q[i].serial;
  }

  lemma PostWaits(q: seq<Item>, k: nat, p: Post, l: Ledger, now: real)
    requires k < |q| && Waited(q, l) && q[k].nextAttemptAt <= now
    requires p.serial == q[k].serial && p.attempt == q[k].attempts + 1 && p.at == now && p.retryAfter <= MAX_BACKOFF + 249.0
    ensures var posts := l.posts + [p];
      && (forall i :: 0 <= i < |posts| ==> posts[i].attempt >= 1 && posts[i].retryAfter <= MAX_BACKOFF + 249.0)
      && forall i :: 0 <= i < |posts| && posts[i].attempt > 1 ==> exists j :: WaitedFor(posts, i, j)
  {
    var posts := l.posts + [p];
    forall i | 0 <= i < |posts| && posts[i].attempt > 1 ensures exists j :: WaitedFor(posts, i, j) {
      if i < |l.posts| {
        var j :| WaitedFor(l.posts, i, j);
        assert WaitedFor(posts, i, j);
      } else {
        var j :| Earned(l.posts, q[k], j);
        assert WaitedFor(posts, i, j);
      }
    }
  }

  /** Until something escapes, one round keeps the survivors so far together with the rest of the queue sound. */
  lemma RoundKeeps(cfg: Config, now: real, p: Pass, item: Item, turn: Turn, after: seq<Item>)
    requires Sound(cfg, p.survivors + [item] + after, p.ledger)
    requires !p.escaped && !Escapes(item, now, turn)
    ensures var p' := Round(cfg, now, p, item, turn); Sound(cfg, p'.survivors + after, p'.ledger)
  {
    var p' := Round(cfg, now, p, item, turn);
    if !Due(item, now, turn) {
      assert p'.survivors + after == p.survivors + [item] + after;
    } else {
      hide Counted, Waited, InOrder, RetryDelay, Conserved, Holdings, Classify, Escapes;
      RoundFate(cfg, now, p, item, turn);
      PostKeeps(cfg, now, p.survivors, item, after, p.ledger);
      OrderKept(p.survivors, item, Retried(cfg, now, item), after, p.ledger);
      RoundMoves(cfg, now, p, item, turn, after);
      RoundPrefix(cfg, now, p, item, turn);
      hide Round;
      StillConserved(p.survivors + [item] + after, p.ledger, p'.survivors + after, p'.ledger);
      PostsOnly(cfg, p'.survivors + after, p.ledger, p'.ledger, p.ledger.posts + [PostOf(cfg, now, item)]);
    }
  }

  lemma StillConserved(q: seq<Item>, l: Ledger, q': seq<Item>, l': Ledger)
    requires Conserved(q, l) && Holdings(q', l') == Holdings(q, l) && l'.enqueued == l.enqueued
    ensures Conserved(q', l')
  {
  }

  /** Order, counts and waits read only these parts of the ledger. */
  lemma PostsOnly(cfg: Config, q: seq<Item>, l: Ledger, l': Ledger, posts: seq<Post>)
    requires l'.posts == posts && l'.enqueued == l.enqueued && l'.overflowed == l.overflowed
    ensures InOrder(q, l) ==> InOrder(q, l')
    ensures Counted(cfg, q, l.(posts := posts)) ==> Counted(cfg, q, l')
    ensures Waited(q, l.(posts := posts)) ==> Waited(q, l')
  {
  }

  lemma SerialsAround(before: seq<Item>, item: Item, after: seq<Item>)
    ensures multiset(Serials(before + [item] + after)) == multiset(Serials(before + after)) + multiset{item.serial}
  {
    SerialsConcat(before, [item]);
    SerialsConcat(before + [item], after);
    SerialsConcat(before, after);
    assert Serials([item]) == [item.serial];
  }

  /** An item that is not stopped by an escape moves to exactly one place. */
  lemma RoundMoves(cfg: Config, now: real, p: Pass, item: Item, turn: Turn, after: seq<Item>)
    requires !p.escaped && !Escapes(item, now, turn)
    ensures var p' := Round(cfg, now, p, item, turn);
      Holdings(p'.survivors + after, p'.ledger) == Holdings(p.survivors + [item] + after, p.ledger)
  {
    if Due(item, now, turn) {
      hide Serials, Settles, Transient, Receipt;
      RoundFate(cfg, now, p, item, turn);
      RoundPrefix(cfg, now, p, item, turn);
      FateIsOne(cfg, item, now, turn);
      SerialsAround(p.survivors, item, after);
      SerialsAround(p.survivors, Retried(cfg, now, item), after);
      hide Round, RetryDelay;
    }
  }

  lemma FateIsOne(cfg: Config, item: Item, now: real, turn: Turn)
    requires Due(item, now, turn) && !Escapes(item, now, turn)
    ensures Settles(cfg, item, now, turn) <==> !(Transient(turn.answer) && item.attempts < cfg.maxRetries)
    ensures Receipt(turn.answer) ==> Settles(cfg, item, now, turn)
  {
  }

  // ---------------------------------------------------------------- flushes that escape

  /** Some turn of the flush ends in an escape. */
  predicate EscapeIn(q: seq<Item>, now: real, env: nat -> Turn, n: int)
    requires n <= |q|
  {
    exists k :: 0 <= k < n && Escapes(q[k], now, env(k))
  }

  lemma {:induction false} EscapedIff(cfg: Config, s: State, now: real, env: nat -> Turn, n: nat)
    requires n <= |s.queue|
    ensures Rounds(cfg, now, env, s.queue, n, Begin(s)).escaped <==> EscapeIn(s.queue, now, env, n)
  {
    hide RetryDelay, Classify, Escapes;
    if n > 0 {
      EscapedIff(cfg, s, now, env, n - 1);
      RoundEscapes(cfg, now, Rounds(cfg, now, env, s.queue, n - 1, Begin(s)), s.queue[n - 1], env(n - 1));
    }
  }

  lemma RoundEscapes(cfg: Config, now: real, p: Pass, item: Item, turn: Turn)
    ensures Round(cfg, now, p, item, turn).escaped <==> p.escaped || Escapes(item, now, turn)
  {
    hide RetryDelay;
  }

  /** Whatever happens, the items visited are those of the queue, and the ledger only grows. */
  lemma {:induction false} RoundsGrow(cfg: Config, s: State, now: real, env: nat -> Turn, n: nat)
    requires n <= |s.queue|
    ensures var p, l := Rounds(cfg, now, env, s.queue, n, Begin(s)), s.ledger;
      && Serials(p.visited) == Serials(s.queue[..n]) && |p.survivors| <= n
      && l.delivered <= p.ledger.delivered && l.dead <= p.ledger.dead
      && p.ledger.overflowed == l.overflowed && p.ledger.discarded == l.discarded && p.ledger.enqueued == l.enqueued
  {
    hide Round, Serials;
    if n == 0 {
      assert s.queue[..0] == [];
    } else {
      RoundsGrow(cfg, s, now, env, n - 1);
      RoundVisits(cfg, now, Rounds(cfg, now, env, s.queue, n - 1, Begin(s)), s.queue[n - 1], env(n - 1));
      RoundPrefix(cfg, now, Rounds(cfg, now, env, s.queue, n - 1, Begin(s)), s.queue[n - 1], env(n - 1));
      SerialsConcat(s.queue[..n - 1], [s.queue[n - 1]]);
      assert s.queue[..n] == s.queue[..n - 1] + [s.queue[n - 1]];
    }
  }

  lemma RoundPrefix(cfg: Config, now: real, p: Pass, item: Item, turn: Turn)
    ensures var p' := Round(cfg, now, p, item, turn); var l, l' := p.ledger, p'.ledger;
      && |p'.survivors| <= |p.survivors| + 1
      && (l'.delivered == l.delivered || l'.delivered == l.delivered + [item.serial])
      && (l'.dead == l.dead || l'.dead == l.dead + [item.serial])
      && l'.enqueued == l.enqueued && l'.overflowed == l.overflowed && l'.discarded == l.discarded
  {
    hide RetryDelay, Classify;
  }

  lemma RoundVisits(cfg: Config, now: real, p: Pass, item: Item, turn: Turn)
    ensures Serials(Round(cfg, now, p, item, turn).visited) == Serials(p.visited) + Serials([item])
  {
    hide RetryDelay;
    SerialsConcat(p.visited, [item]);
    SerialsConcat(p.visited, [Tried(item)]);
    SerialsConcat(p.visited, [Retried(cfg, now, item)]);
    assert Serials([item]) == Serials([Tried(item)]) == Serials([Retried(cfg, now, item)]);
  }

  /** What the flush had delivered or dead-lettered, if something escaped and left it in the queue as well. */
  ghost function Repeated(cfg: Config, s: State, now: real, env: nat -> Turn): multiset<nat> {
    var l, l' := s.ledger, PassOver(cfg, s, now, env).ledger;
    RoundsGrow(cfg, s, now, env, |s.queue|);
    if EscapeIn(s.queue, now, env, |s.queue|)
    then multiset(l'.delivered[|l.delivered|..]) + multiset(l'.dead[|l.dead|..]) else multiset{}
  }

  lemma {:induction false} RoundsMove(cfg: Config, s: State, now: real, env: nat -> Turn, n: nat)
    requires n <= |s.queue| && !EscapeIn(s.queue, now, env, n)
    ensures var p := Rounds(cfg, now, env, s.queue, n, Begin(s));
      Holdings(p.survivors + s.queue[n..], p.ledger) == Holdings(s.queue, s.ledger)
  {
    hide Holdings, Escapes;
    var q := s.queue;
    if n == 0 {
      assert [] + q[0..] == q;
    } else {
      assert forall k :: 0 <= k < n ==> !Escapes(q[k], now, env(k));
      RoundsMove(cfg, s, now, env, n - 1);
      EscapedIff(cfg, s, now, env, n - 1);
      var p := Rounds(cfg, now, env, q, n - 1, Begin(s));
      assert p.survivors + q[n - 1..] == p.survivors + [q[n - 1]] + q[n..];
      RoundMoves(cfg, now, p, q[n - 1], env(n - 1), q[n..]);
    }
  }

  /** The law of conservation for any flush against any transport: nothing is ever lost, and an escape
      doubles exactly what had been settled before it. */
  lemma FlushHoldings(cfg: Config, s: State, now: real, env: nat -> Turn)
    ensures var s' := Flush(cfg, s, now, env);
      Holdings(s'.queue, s'.ledger) == Holdings(s.queue, s.ledger) + Repeated(cfg, s, now, env) && s'.ledger.enqueued == s.ledger.enqueued
  {
    hide Rounds, EscapeIn;
    var n, p := |s.queue|, PassOver(cfg, s, now, env);
    EscapedIff(cfg, s, now, env, n);
    RoundsGrow(cfg, s, now, env, n);
    if p.escaped {
      assert s.queue[..n] == s.queue;
      assert p.ledger.delivered == s.ledger.delivered + p.ledger.delivered[|s.ledger.delivered|..];
      assert p.ledger.dead == s.ledger.dead + p.ledger.dead[|s.ledger.dead|..];
    } else {
      RoundsMove(cfg, s, now, env, n);
      assert p.survivors + s.queue[n..] == p.survivors;
    }
  }

  /** Only waiting envelopes are doubled. */
  lemma RepeatedWereQueued(cfg: Config, s: State, now: real, env: nat -> Turn, serial: nat)
    requires Holdings(s.queue, s.ledger)[serial] == 0
    ensures Repeated(cfg, s, now, env)[serial] == 0
  {
    hide Rounds, EscapeIn;
    RoundsGrow(cfg, s, now, env, |s.queue|);
    assert serial !in Serials(s.queue);
    SettledWereQueued(cfg, s, now, env, |s.queue|, serial);
    var l, l' := s.ledger, PassOver(cfg, s, now, env).ledger;
    assert l'.delivered == l.delivered + l'.delivered[|l.delivered|..] && l'.dead == l.dead + l'.dead[|l.dead|..];
  }

  lemma {:induction false} SettledWereQueued(cfg: Config, s: State, now: real, env: nat -> Turn, n: nat, serial: nat)
    requires n <= |s.queue| && serial !in Serials(s.queue)
    ensures var l, l' := s.ledger, Rounds(cfg, now, env, s.queue, n, Begin(s)).ledger;
      multiset(l'.delivered)[serial] == multiset(l.delivered)[serial] && multiset(l'.dead)[serial] == multiset(l.dead)[serial]
  {
    hide Round;
    if n > 0 {
      SettledWereQueued(cfg, s, now, env, n - 1, serial);
      RoundPrefix(cfg, now, Rounds(cfg, now, env, s.queue, n - 1, Begin(s)), s.queue[n - 1], env(n - 1));
      assert Serials(s.queue)[n - 1] == s.queue[n - 1].serial;
    }
  }

  /** The turn is reached: nothing before it escapes. */
  predicate Reached(q: seq<Item>, now: real, env: nat -> Turn, j: int)
    requires j <= |q|
  {
    !EscapeIn(q, now, env, j)
  }

  predicate SettlesBy(cfg: Config, q: seq<Item>, now: real, env: nat -> Turn, n: int)
    requires n <= |q|
  {
    exists j :: 0 <= j < n && Reached(q, now, env, j) && Settles(cfg, q[j], now, env(j))
  }

  lemma {:induction false} GrownIff(cfg: Config, s: State, now: real, env: nat -> Turn, n: nat)
    requires n <= |s.queue|
    ensures var l' := Rounds(cfg, now, env, s.queue, n, Begin(s)).ledger;
      && (|l'.delivered| + |l'.dead| > |s.ledger.delivered| + |s.ledger.dead| <==> SettlesBy(cfg, s.queue, now, env, n))
      && |l'.delivered| + |l'.dead| >= |s.ledger.delivered| + |s.ledger.dead|
  {
    hide RetryDelay, Classify, Reached, Settles, Round;
    if n > 0 {
      GrownIff(cfg, s, now, env, n - 1);
      EscapedIff(cfg, s, now, env, n - 1);
      ReachedIff(s.queue, now, env, n - 1);
      RoundGrows(cfg, now, Rounds(cfg, now, env, s.queue, n - 1, Begin(s)), s.queue[n - 1], env(n - 1));
    }
  }

  lemma ReachedIff(q: seq<Item>, now: real, env: nat -> Turn, j: nat)
    requires j <= |q|
    ensures Reached(q, now, env, j) <==> !EscapeIn(q, now, env, j)
  {
  }

  lemma RoundGrows(cfg: Config, now: real, p: Pass, item: Item, turn: Turn)
    ensures var l' := Round(cfg, now, p, item, turn).ledger;
      |l'.delivered| + |l'.dead| == |p.ledger.delivered| + |p.ledger.dead| + (if !p.escaped && Settles(cfg, item, now, turn) then 1 else 0)
  {
    hide RetryDelay;
  }

  /** The flush doubles something: some turn escapes, and by then some turn has settled its item. */
  predicate Repeats(cfg: Config, q: seq<Item>, now: real, env: nat -> Turn) {
    EscapeIn(q, now, env, |q|) && SettlesBy(cfg, q, now, env, |q|)
  }

  lemma RepeatedIff(cfg: Config, s: State, now: real, env: nat -> Turn)
    ensures Repeated(cfg, s, now, env) != multiset{} <==> Repeats(cfg, s.queue, now, env)
  {
    hide Rounds, EscapeIn, SettlesBy;
    var l, l' := s.ledger, PassOver(cfg, s, now, env).ledger;
    RoundsGrow(cfg, s, now, env, |s.queue|);
    GrownIff(cfg, s, now, env, |s.queue|);
    var newly := multiset(l'.delivered[|l.delivered|..]) + multiset(l'.dead[|l.dead|..]);
    assert |newly| == |l'.delivered| - |l.delivered| + |l'.dead| - |l.dead|;
  }

  /** A flush keeps each envelope in exactly one place if and only if no turn escapes, or nothing had been settled by then. */
  lemma FlushConservesIff(cfg: Config, s: State, now: real, env: nat -> Turn)
    requires Conserved(s.queue, s.ledger)
    ensures var s' := Flush(cfg, s, now, env); Conserved(s'.queue, s'.ledger) <==> !Repeats(cfg, s.queue, now, env)
  {
    hide Flush, Repeated, Repeats, Holdings;
    FlushHoldings(cfg, s, now, env);
    RepeatedIff(cfg, s, now, env);
    var all, again := multiset(Everyone(s.ledger.enqueued)), Repeated(cfg, s, now, env);
    assert |all + again| == |all| + |again|;
  }

  // ---------------------------------------------------------------- the invariant across a flush

  lemma {:induction false} RoundsKeep(cfg: Config, s: State, now: real, env: nat -> Turn, n: nat)
    requires n <= |s.queue| && Sound(cfg, s.queue, s.ledger) && !EscapeIn(s.queue, now, env, n)
    ensures var p := Rounds(cfg, now, env, s.queue, n, Begin(s)); !p.escaped && Sound(cfg, p.survivors + s.queue[n..], p.ledger)
  {
    hide Sound, Escapes;
    var q := s.queue;
    EscapedIff(cfg, s, now, env, n);
    if n == 0 {
      assert [] + q[0..] == q;
    } else {
      assert forall k :: 0 <= k < n ==> !Escapes(q[k], now, env(k));
      RoundsKeep(cfg, s, now, env, n - 1);
      var p := Rounds(cfg, now, env, q, n - 1, Begin(s));
      assert p.survivors + q[n - 1..] == p.survivors + [q[n - 1]] + q[n..];
      RoundKeeps(cfg, now, p, q[n - 1], env(n - 1), q[n..]);
    }
  }

  /** After an escape the rest of the queue is left as it was. */
  lemma {:induction false} EscapedFreezes(cfg: Config, s: State, now: real, env: nat -> Turn, m: nat, n: nat)
    requires m <= n <= |s.queue| && Rounds(cfg, now, env, s.queue, m, Begin(s)).escaped
    ensures var p := Rounds(cfg, now, env, s.queue, m, Begin(s));
      Rounds(cfg, now, env, s.queue, n, Begin(s)) == p.(visited := p.visited + s.queue[m..n])
  {
    hide RetryDelay, Classify;
    if m < n {
      EscapedFreezes(cfg, s, now, env, m, n - 1);
      assert s.queue[m..n] == s.queue[m..n - 1] + [s.queue[n - 1]];
    } else {
      assert s.queue[m..n] == [];
    }
  }

  lemma FirstEscape(q: seq<Item>, now: real, env: nat -> Turn, n: nat) returns (k: nat)
    requires n <= |q| && EscapeIn(q, now, env, n)
    ensures k < n && Escapes(q[k], now, env(k)) && !EscapeIn(q, now, env, k)
  {
    hide Escapes;
    k :| 0 <= k < n && Escapes(q[k], now, env(k));
    if EscapeIn(q, now, env, k) { k := FirstEscape(q, now, env, k); }
  }

  /** The item whose turn escapes stays in the queue with a post that its attempts do not count. */
  lemma EscapeMiscounts(cfg: Config, s: State, now: real, env: nat -> Turn)
    requires Sound(cfg, s.queue, s.ledger) && EscapeIn(s.queue, now, env, |s.queue|)
    ensures !Counted(cfg, Flush(cfg, s, now, env).queue, Flush(cfg, s, now, env).ledger)
  {
    hide InOrder, Conserved, Waited, RetryDelay, EscapeIn, Counted, Rounds;
    var q := s.queue;
    var k := FirstEscape(q, now, env, |q|);
    RoundsKeep(cfg, s, now, env, k);
    var p := Rounds(cfg, now, env, q, k, Begin(s));
    RoundsNext(cfg, now, env, q, k, Begin(s));
    RoundsGrow(cfg, s, now, env, k);
    RoundsGrow(cfg, s, now, env, |q|);
    RoundFate(cfg, now, p, q[k], env(k));
    EscapedFreezes(cfg, s, now, env, k + 1, |q|);
    var end := PassOver(cfg, s, now, env);
    assert end.visited[|p.visited|] == q[k];
    assert (p.survivors + q[k..])[|p.survivors|] == q[k];
    PostUncounted(cfg, p.survivors + q[k..], end.visited, q[k], p.ledger, end.ledger, PostOf(cfg, now, q[k]));
  }

  lemma PostUncounted(cfg: Config, before: seq<Item>, after: seq<Item>, x: Item, l: Ledger, l': Ledger, p: Post)
    requires Counted(cfg, before, l) && x in before && x in after && l'.posts == l.posts + [p] && p.serial == x.serial
    ensures !Counted(cfg, after, l')
  {
    CountStep(l.posts, p, x.serial);
    assert Count(l.posts, x.serial) == x.attempts;
  }

  /** A flush keeps the whole invariant if and only if none of its turns escapes. */
  lemma FlushKeepsIff(cfg: Config, s: State, now: real, env: nat -> Turn)
    requires Invariant(cfg, s) && !s.destroyed
    ensures Invariant(cfg, Flush(cfg, s, now, env)) <==> !EscapeIn(s.queue, now, env, |s.queue|)
  {
    hide InOrder, Conserved, Waited, Counted, EscapeIn;
    if EscapeIn(s.queue, now, env, |s.queue|) {
      EscapeMiscounts(cfg, s, now, env);
    } else {
      RoundsKeep(cfg, s, now, env, |s.queue|);
      RoundsGrow(cfg, s, now, env, |s.queue|);
      var p := PassOver(cfg, s, now, env);
      assert p.survivors + s.queue[|s.queue|..] == p.survivors;
    }
  }

  /** Bound and order survive every flush. */
  lemma FlushKeepsOrder(cfg: Config, s: State, now: real, env: nat -> Turn)
    requires Orderly(cfg, s) && !s.destroyed
    ensures Orderly(cfg, Flush(cfg, s, now, env))
  {
    hide Rounds, InOrder;
    var p, n := PassOver(cfg, s, now, env), |s.queue|;
    RoundsGrow(cfg, s, now, env, n);
    assert s.queue[..n] == s.queue;
    SameSerials(s.queue, p.visited, s.ledger, p.ledger);
    if !p.escaped {
      RoundsKeepOrder(cfg, s, now, env, n);
      assert p.survivors + s.queue[n..] == p.survivors;
      SameSerials(p.survivors, p.survivors, s.ledger, p.ledger);
    }
  }

  lemma FlushEnqueues(cfg: Config, s: State, now: real, env: nat -> Turn)
    ensures Flush(cfg, s, now, env).ledger.enqueued == s.ledger.enqueued
  {
    hide Holdings, Repeated, PassOver;
    FlushHoldings(cfg, s, now, env);
  }

  /** A round that escapes ends the flush: the rest of the queue stays as it was. */
  lemma EscapedRest(cfg: Config, s: State, now: real, env: nat -> Turn, n: nat, queue: seq<Item>)
    requires n <= |s.queue| == |queue| && Rounds(cfg, now, env, s.queue, n, Begin(s)).escaped
    requires queue[..n] == Rounds(cfg, now, env, s.queue, n, Begin(s)).visited && queue[n..] == s.queue[n..]
    ensures PassOver(cfg, s, now, env) == Rounds(cfg, now, env, s.queue, n, Begin(s)).(visited := queue)
  {
    hide Rounds;
    EscapedFreezes(cfg, s, now, env, n, |s.queue|);
    assert s.queue[n..|s.queue|] == s.queue[n..];
    assert queue[..n] + queue[n..] == queue;
  }

  lemma FlushIs(cfg: Config, s: State, now: real, env: nat -> Turn)
    ensures var p, s' := PassOver(cfg, s, now, env), Flush(cfg, s, now, env);
      s' == State(if p.escaped then p.visited else p.survivors, s.destroyed,
                  if p.escaped then Sending else if p.lastFailure == NoFailure then Idle else Error, p.lastSuccessAt, p.lastFailure, p.ledger)
  {
    hide PassOver;
  }

  lemma SameSerials(q: seq<Item>, q': seq<Item>, l: Ledger, l': Ledger)
    requires Serials(q) == Serials(q') && l'.enqueued == l.enqueued && l'.overflowed == l.overflowed
    ensures InOrder(q, l) ==> InOrder(q', l')
    ensures |q| == |q'|
  {
    assert |Serials(q)| == |q| && |Serials(q')| == |q'|;
    forall i | 0 <= i < |q'| ensures q'[i].serial == q[i].serial { assert Serials(q')[i] == Serials(q)[i]; }
  }

  lemma {:induction false} RoundsKeepOrder(cfg: Config, s: State, now: real, env: nat -> Turn, n: nat)
    requires n <= |s.queue| && InOrder(s.queue, s.ledger) && !Rounds(cfg, now, env, s.queue, n, Begin(s)).escaped
    ensures var p := Rounds(cfg, now, env, s.queue, n, Begin(s)); InOrder(p.survivors + s.queue[n..], s.ledger)
  {
    hide InOrder, Round, Rounds;
    var q := s.queue;
    if n == 0 {
      RoundsStart(cfg, now, env, q, Begin(s));
      assert Begin(s).survivors + q[n..] == q;
    } else {
      var p := Rounds(cfg, now, env, q, n - 1, Begin(s));
      RoundsNext(cfg, now, env, q, n - 1, Begin(s));
      RoundEscapes(cfg, now, p, q[n - 1], env(n - 1));
      RoundsKeepOrder(cfg, s, now, env, n - 1);
      assert p.survivors + q[n - 1..] == p.survivors + [q[n - 1]] + q[n..];
      RoundKeepsOrder(cfg, now, p, q[n - 1], env(n - 1), q[n..], s.ledger);
    }
  }

  lemma RoundKeepsOrder(cfg: Config, now: real, p: Pass, item: Item, turn: Turn, after: seq<Item>, l: Ledger)
    requires InOrder(p.survivors + [item] + after, l)
    ensures InOrder(Round(cfg, now, p, item, turn).survivors + after, l)
  {
    hide InOrder, RetryDelay, Classify;
    OrderKept(p.survivors, item, Retried(cfg, now, item), after, l);
  }

  // ---------------------------------------------------------------- enqueue and destroy

  lemma EveryoneNext(n: nat)
    ensures multiset(Everyone(n + 1)) == multiset(Everyone(n)) + multiset{n}
  {
    assert Everyone(n + 1) == Everyone(n) + [n];
  }

  /** Enqueueing adds exactly the new envelope, whatever it drops for room. */
  lemma EnqueueHoldings(cfg: Config, s: State, e: Envelope)
    requires cfg.Valid()
    ensures var s' := Enqueue(cfg, s, e); Holdings(s'.queue, s'.ledger) == Holdings(s.queue, s.ledger) + multiset{s.ledger.enqueued}
  {
    var n, l' := s.ledger.enqueued, Enqueue(cfg, s, e).ledger;
    var item := Item(n, e, 0, 0.0);
    var q := s.queue + [item];
    var over := Over(cfg, |q|);
    assert q == q[..over] + q[over..];
    SerialsConcat(s.queue, [item]);
    SerialsConcat(q[..over], q[over..]);
    assert Serials([item]) == [n];
    assert multiset(Serials(q)) == multiset(Serials(s.queue)) + multiset{n};
    assert multiset(Serials(q)) == multiset(Serials(q[..over])) + multiset(Serials(q[over..]));
    assert multiset(l'.overflowed) == multiset(s.ledger.overflowed) + multiset(Serials(q[..over]));
    ghost var others := multiset(l'.delivered) + multiset(l'.dead) + multiset(l'.discarded);
    MoveAcross(multiset(Serials(s.queue)), multiset(Serials(q[over..])), multiset(Serials(q[..over])),
               multiset(s.ledger.overflowed), others, Holdings(s.queue, s.ledger), n);
  }

  lemma MoveAcross(a: multiset<nat>, r: multiset<nat>, d: multiset<nat>, o: multiset<nat>, others: multiset<nat>, all: multiset<nat>, n: nat)
    requires a + multiset{n} == d + r && a + o + others == all
    ensures r + (o + d) + others == all + multiset{n}
  {
    forall x ensures (r + (o + d) + others)[x] == (all + multiset{n})[x] {
      assert (a + multiset{n})[x] == (d + r)[x] && (a + o + others)[x] == all[x];
    }
  }

  lemma EnqueueCounts(cfg: Config, s: State, e: Envelope)
    requires cfg.Valid()
    ensures Enqueue(cfg, s, e).ledger.enqueued == s.ledger.enqueued + 1
  {
  }

  lemma EnqueueKeepsOrder(cfg: Config, s: State, e: Envelope)
    requires cfg.Valid() && Orderly(cfg, s) && !s.destroyed
    ensures Orderly(cfg, Enqueue(cfg, s, e))
  {
    var q := s.queue + [Item(s.ledger.enqueued, e, 0, 0.0)];
    DropKeepsOrder(q, Over(cfg, |q|), s.ledger.(enqueued := s.ledger.enqueued + 1));
  }

  lemma DropKeepsOrder(q: seq<Item>, over: nat, l: Ledger)
    requires InOrder(q, l) && over <= |q|
    ensures InOrder(q[over..], l.(overflowed := l.overflowed + Serials(q[..over])))
  {
    var dropped := l.overflowed + Serials(q[..over]);
    forall o, i | 0 <= o < |dropped| && 0 <= i < |q[over..]| ensures dropped[o] < q[over..][i].serial {
      if o >= |l.overflowed| { assert dropped[o] == q[o - |l.overflowed|].serial; }
      assert q[over..][i] == q[over + i];
    }
  }

  lemma EnqueueKeepsPosts(cfg: Config, s: State, e: Envelope)
    requires cfg.Valid() && Counted(cfg, s.queue, s.ledger) && Waited(s.queue, s.ledger)
    ensures var s' := Enqueue(cfg, s, e); Counted(cfg, s'.queue, s'.ledger) && Waited(s'.queue, s'.ledger)
  {
    var item := Item(s.ledger.enqueued, e, 0, 0.0);
    assert Count(s.ledger.posts, s.ledger.enqueued) == 0;
    forall x | x in Enqueue(cfg, s, e).queue ensures x in s.queue || x == item {}
  }

  lemma EnqueueKeeps(cfg: Config, s: State, e: Envelope)
    requires cfg.Valid() && Invariant(cfg, s) && !s.destroyed
    ensures Invariant(cfg, Enqueue(cfg, s, e))
  {
    hide InOrder, Holdings, Counted, Waited;
    EnqueueHoldings(cfg, s, e);
    EveryoneNext(s.ledger.enqueued);
    EnqueueKeepsOrder(cfg, s, e);
    EnqueueKeepsPosts(cfg, s, e);
  }

  /** Destroying moves every waiting envelope to the discarded ones, and only those. */
  lemma DestroyHoldings(s: State)
    ensures Holdings(Destroy(s).queue, Destroy(s).ledger) == Holdings(s.queue, s.ledger)
    ensures multiset(Destroy(s).ledger.discarded) == multiset(s.ledger.discarded) + multiset(Serials(s.queue))
  {
    assert Serials([]) == [];
  }

  lemma DestroyKeepsOrder(cfg: Config, s: State)
    requires cfg.Valid() && Orderly(cfg, s)
    ensures Orderly(cfg, Destroy(s))
  {
  }

  lemma DestroyKeeps(cfg: Config, s: State)
    requires cfg.Valid() && Invariant(cfg, s)
    ensures Invariant(cfg, Destroy(s))
  {
    hide Holdings;
    DestroyHoldings(s);
  }
}
