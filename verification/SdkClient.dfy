/** The SDK client object: private mutable state, and methods that refine the delivery-queue machine. */
module SdkClient {
  import opened Optional
  import opened DeliveryQueue

  datatype Options = Options(
    endpoint: string, applicationId: string, subjectId: string,
    installationToken: Option<string>, installationId: Option<string>,
    timeoutMs: Option<int>, maxRetries: Option<int>, maxQueueSize: Option<int>, retryBaseMs: Option<real>)

  function OrElse<T>(o: Option<T>, d: T): T { if o.Some? then o.value else d }

  /** a ?? b ?? c */
  function FirstGiven(a: Option<string>, b: Option<string>, c: Option<string>): Option<string> {
    if a.Some? then a else if b.Some? then b else c
  }

  /** The first configuration field the factory rejects. */
  function ConfigFault(o: Options): Option<string> {
    if o.endpoint == "" then Some("endpoint")
    else if o.applicationId == "" then Some("applicationId")
    else if o.subjectId == "" then Some("subjectId")
    else if OrElse(o.timeoutMs, 8000) <= 0 then Some("timeoutMs")
    else if OrElse(o.maxQueueSize, 500) <= 0 then Some("maxQueueSize")
    else if OrElse(o.maxRetries, 4) < 0 then Some("maxRetries")
    else None
  }

  function Settings(o: Options, keyHash: string -> nat): Config {
    Config(OrElse(o.maxQueueSize, 500), OrElse(o.maxRetries, 4), OrElse(o.retryBaseMs, 250.0), keyHash)
  }

  datatype Installation = Unregistered | Active | Gone

  /** Escaped is an exception of any other kind that leaves the method. */
  datatype Outcome<T> = Ok(value: T) | StateError(reason: string) | ConfigError(field: string) | Escaped

  datatype FlushReport = FlushReport(sent: nat, failed: nat, remaining: nat)

  /** What the injected classifier makes of the content: envelopes to send, already minimized and signed. */
  datatype Classification = NoClassifier | BadContent | Threw | Signals(envelopes: seq<Envelope>)

  function EnqueueAll(cfg: Config, s: State, es: seq<Envelope>, n: nat): State
    requires cfg.Valid() && n <= |es|
  {
    if n == 0 then s else Enqueue(cfg, EnqueueAll(cfg, s, es, n - 1), es[n - 1])
  }

  lemma SameRest<T>(a: seq<T>, b: seq<T>, i: nat)
    requires i < |a| == |b| && a[i..] == b[i..]
    ensures a[i] == b[i] && a[i + 1..] == b[i + 1..]
  {
    assert a[i] == a[i..][0] && b[i] == b[i..][0];
    assert a[i + 1..] == a[i..][1..] && b[i + 1..] == b[i..][1..];
  }

  lemma UpdatedRest<T>(a: seq<T>, i: nat, x: T)
    requires i < |a|
    ensures a[i := x][i + 1..] == a[i + 1..] && a[i := x][..i] == a[..i]
  {
  }

  class Client {
    const cfg: Config
    const configuredToken: Option<string>
    const configuredId: Option<string>
    var token: Option<string>
    var installationId: Option<string>
    var queue: seq<Item>
    var installation: Installation
    var transportState: Transport
    var lastSuccessAt: Option<real>
    var lastFailureClass: Failure
    var destroyed: bool
    var nextSerial: nat
    ghost var ledger: Ledger

    ghost function Abs(): State reads this {
      State(queue, destroyed, transportState, lastSuccessAt, lastFailureClass, ledger)
    }

    ghost predicate Valid() reads this {
      && cfg.Valid() && nextSerial == ledger.enqueued && Orderly(cfg, Abs())
      && (destroyed ==> token == None && installationId == None && installation == Gone)
    }

    static predicate Present(s: Option<string>) { s.Some? && s.value != "" }

    predicate Live() reads this { !destroyed && Present(token) && Present(installationId) }

    constructor (o: Options, keyHash: string -> nat)
      requires ConfigFault(o) == None
      ensures Valid() && Abs() == START && cfg == Settings(o, keyHash)
      ensures token == configuredToken == o.installationToken && installationId == configuredId == o.installationId
      ensures installation == if Present(o.installationToken) && Present(o.installationId) then Active else Unregistered
    {
      cfg := Settings(o, keyHash);
      configuredToken, configuredId := o.installationToken, o.installationId;
      token, installationId := o.installationToken, o.installationId;
      queue, transportState, lastSuccessAt, lastFailureClass := [], Idle, None, NoFailure;
      destroyed, nextSerial, ledger := false, 0, START.ledger;
      installation := if Present(o.installationToken) && Present(o.installationId) then Active else Unregistered;
      new;
      StartsSound(cfg);
    }

    method RegisterInstallation(givenToken: Option<string>, givenId: Option<string>) returns (r: Outcome<string>)
      requires Valid()
      modifies this`token, this`installationId, this`installation
      ensures Valid() && Abs() == old(Abs())
      ensures var t := FirstGiven(givenToken, configuredToken, old(token));
              var id := FirstGiven(givenId, configuredId, old(installationId));
        if old(destroyed) then r == StateError("destroyed") && unchanged(this)
        else if !Present(t) || !Present(id) then r == StateError("registration_requires_installation_credentials") && unchanged(this)
        else r == Ok(id.value) && token == t && installationId == id && installation == Active
    {
      if destroyed { return StateError("destroyed"); }
      var t := FirstGiven(givenToken, configuredToken, token);
      var id := FirstGiven(givenId, configuredId, installationId);
      if !Present(t) || !Present(id) { return StateError("registration_requires_installation_credentials"); }
      token, installationId, installation := t, id, Active;
      r := Ok(id.value);
    }

    method EnqueueOne(envelope: Envelope)
      requires Valid() && !destroyed
      modifies this`queue, this`nextSerial, this`ledger
      ensures Valid() && Abs() == Enqueue(cfg, old(Abs()), envelope)
    {
      hide Orderly;
      EnqueueKeepsOrder(cfg, Abs(), envelope);
      ghost var s := Abs();
      queue := queue + [Item(nextSerial, envelope, 0, 0.0)];
      if |queue| > cfg.maxQueueSize { queue := queue[|queue| - cfg.maxQueueSize..]; }
      nextSerial := nextSerial + 1;
      ledger := Enqueue(cfg, s, envelope).ledger;
    }

    method SubmitSafetySignal(envelope: Envelope) returns (r: Outcome<()>)
      requires Valid()
      modifies this`queue, this`nextSerial, this`ledger
      ensures Valid()
      ensures r == if old(destroyed) then StateError("destroyed") else if !old(Live()) then StateError("not_registered") else Ok(())
      ensures Abs() == if old(Live()) then Enqueue(cfg, old(Abs()), envelope) else old(Abs())
    {
      hide Orderly;
      if destroyed { return StateError("destroyed"); }
      if !Live() { return StateError("not_registered"); }
      EnqueueOne(envelope);
      r := Ok(());
    }

    method EvaluateContent(c: Classification) returns (r: Outcome<nat>)
      requires Valid()
      modifies this`queue, this`nextSerial, this`ledger, this`lastFailureClass
      ensures Valid()
      ensures old(destroyed) ==> r == StateError("destroyed") && Abs() == old(Abs())
      ensures !old(destroyed) && !old(Live()) ==> r == StateError("not_registered") && Abs() == old(Abs())
      ensures old(Live()) && c.NoClassifier? ==> r == StateError("classifier_unavailable") && Abs() == old(Abs())
      ensures old(Live()) && c.BadContent? ==> r == ConfigError("content") && Abs() == old(Abs())
      ensures old(Live()) && c.Threw? ==> r == StateError("classifier_failed") && Abs() == old(Abs()).(lastFailure := ClassifierUnavailable)
      ensures old(Live()) && c.Signals? ==> r == Ok(|c.envelopes|) && Abs() == EnqueueAll(cfg, old(Abs()), c.envelopes, |c.envelopes|)
    {
      hide InOrder, Enqueue;
      if destroyed { return StateError("destroyed"); }
      if !Live() { return StateError("not_registered"); }
      if c.NoClassifier? { return StateError("classifier_unavailable"); }
      if c.BadContent? { return ConfigError("content"); }
      if c.Threw? {
        lastFailureClass := ClassifierUnavailable;
        return StateError("classifier_failed");
      }
      for i := 0 to |c.envelopes|
        invariant Valid() && !destroyed && Abs() == EnqueueAll(cfg, old(Abs()), c.envelopes, i)
      {
        EnqueueOne(c.envelopes[i]);
      }
      r := Ok(|c.envelopes|);
    }

    /** After a failed post: the item counts the attempt, and either waits for its next one or is dead-lettered. */
    method CountFailure(i: nat, failure: Failure, now: real) returns (again: bool)
      requires i < |queue|
      modifies this`queue, this`lastFailureClass, this`ledger
      ensures lastFailureClass == failure && (again <==> Retryable(failure) && old(queue[i]).attempts + 1 <= cfg.maxRetries)
      ensures queue == old(queue)[i := if again then Retried(cfg, now, old(queue[i])) else Tried(old(queue[i]))]
      ensures ledger == if again then old(ledger) else old(ledger).(dead := old(ledger).dead + [old(queue[i]).serial])
    {
      hide RetryDelay;
      var item := queue[i];
      lastFailureClass := failure;
      item := item.(attempts := item.attempts + 1);
      again := Retryable(failure) && item.attempts <= cfg.maxRetries;
      if again {
        item := item.(nextAttemptAt := now + RetryDelay(cfg, item.envelope.eventId, item.attempts));
      } else {
        ledger := ledger.(dead := ledger.dead + [item.serial]);
      }
      queue := queue[i := item];
    }

    /** One turn of a delivery pass: the item is left waiting, or posted and answered, in place. */
    method TakeTurn(i: nat, now: real, turn: Turn, kept: seq<Item>, sentBefore: nat, failedBefore: nat)
      returns (survivors: seq<Item>, sent: nat, failed: nat, escaped: bool)
      requires i < |queue|
      modifies this`queue, this`lastSuccessAt, this`lastFailureClass, this`ledger
      ensures |queue| == |old(queue)| && queue[i + 1..] == old(queue[i + 1..])
      ensures Pass(queue[..i + 1], survivors, sent, failed, lastSuccessAt, lastFailureClass, ledger, escaped)
        == Round(cfg, now, old(Pass(queue[..i], kept, sentBefore, failedBefore, lastSuccessAt, lastFailureClass, ledger, false)), old(queue[i]), turn)
    {
      hide RetryDelay, Classify, Round, Retryable, PostOf, Datable, Retried, Tried;
      ghost var p := Pass(queue[..i], kept, sentBefore, failedBefore, lastSuccessAt, lastFailureClass, ledger, false);
      var item := queue[i];
      assert queue[..i + 1] == queue[..i] + [item];
      survivors, sent, failed, escaped := kept, sentBefore, failedBefore, false;
      if turn.aborted || item.nextAttemptAt > now {
        RoundWaits(cfg, now, p, item, turn);
        survivors := survivors + [item];
        return;
      }
      ledger := ledger.(posts := ledger.posts + [PostOf(cfg, now, item)]);
      if turn.answer.ThrownNothing? {
        RoundThrowsNothing(cfg, now, p, item, turn);
        escaped := true;
        return;
      }
      var v := Classify(turn.answer);
      if v.receipt {
        RoundDelivers(cfg, now, p, item, turn);
        sent := sent + 1;
        ledger := ledger.(delivered := ledger.delivered + [item.serial]);
        if !Datable(now) {
          escaped := true;
          return;
        }
        lastSuccessAt, lastFailureClass := Some(now), NoFailure;
      } else {
        RoundFails(cfg, now, p, item, turn);
        UpdatedRest(queue, i, if Retryable(v.failure) && item.attempts + 1 <= cfg.maxRetries then Retried(cfg, now, item) else Tried(item));
        var again := CountFailure(i, v.failure, now);
        if again { survivors := survivors + [queue[i]]; }
        failed := failed + 1;
        assert queue[..i + 1] == queue[..i] + [queue[i]];
      }
    }

    /** One delivery pass: every due item is posted once, in order, and changed in place as it is answered.
        An exception that escapes leaves the queue as it stands then. */
    method FlushPendingSignals(now: real, env: nat -> Turn) returns (r: Outcome<FlushReport>)
      requires Valid()
      modifies this`queue, this`transportState, this`lastSuccessAt, this`lastFailureClass, this`ledger
      ensures Valid()
      ensures old(destroyed) ==> r == StateError("destroyed") && Abs() == old(Abs())
      ensures !old(destroyed) ==>
        var p := PassOver(cfg, old(Abs()), now, env);
        Abs() == Flush(cfg, old(Abs()), now, env) && r == if p.escaped then Escaped else Ok(FlushReport(p.sent, p.failed, |queue|))
    {
      hide Orderly, Rounds, Round, Flush;
      if destroyed { return StateError("destroyed"); }
      ghost var s := Abs();
      FlushKeepsOrder(cfg, s, now, env);
      FlushEnqueues(cfg, s, now, env);
      FlushIs(cfg, s, now, env);
      ghost var start := Begin(s);
      var sent: nat, failed: nat := 0, 0;
      transportState := Sending;
      var survivors: seq<Item> := [];
      RoundsStart(cfg, now, env, s.queue, start);
      hide Begin;
      for i := 0 to |queue|
        invariant |queue| == |s.queue| && queue[i..] == s.queue[i..]
        invariant transportState == Sending && !destroyed
        invariant Pass(queue[..i], survivors, sent, failed, lastSuccessAt, lastFailureClass, ledger, false) == Rounds(cfg, now, env, s.queue, i, start)
      {
        SameRest(queue, s.queue, i);
        RoundsNext(cfg, now, env, s.queue, i, start);
        var escaped: bool;
        survivors, sent, failed, escaped := TakeTurn(i, now, env(i), survivors, sent, failed);
        if escaped {
          EscapedRest(cfg, s, now, env, i + 1, queue);
          return Escaped;
        }
      }
      assert queue[..|queue|] == queue;
      queue := survivors;
      transportState := if lastFailureClass == NoFailure then Idle else Error;
      r := Ok(FlushReport(sent, failed, |queue|));
    }

    method DestroyClient()
      requires Valid()
      modifies this
      ensures Valid() && Abs() == Destroy(old(Abs())) && destroyed && queue == []
      ensures token == None && installationId == None && installation == Gone
    {
      hide Orderly;
      DestroyKeepsOrder(cfg, Abs());
      ledger := Destroy(Abs()).ledger;
      destroyed, installation, queue := true, Gone, [];
      token, installationId := None, None;
    }
  }
}
