/** Exactly-once effect from at-least-once delivery, for idempotent and commuting handlers. */
module ExactlyOnce {
  import opened Event
  import opened Routing
  import opened Registry
  import opened Delivery
  import opened DeliveryGuarantees

  ghost predicate Idempotent<S(!new)>(cfg: Config<S>, c: ConsumerId) {
    forall x: S, e: Event :: cfg.handle(c, cfg.handle(c, x, e), e) == cfg.handle(c, x, e)
  }

  ghost predicate Commutes<S(!new)>(cfg: Config<S>, c: ConsumerId) {
    forall x: S, e1: Event, e2: Event ::
      cfg.handle(c, cfg.handle(c, x, e1), e2) == cfg.handle(c, cfg.handle(c, x, e2), e1)
  }

  // ---------------------------------------------------------------- folding a set of messages

  /** The handler folded in stream order over the first n messages that are in `ms`. */
  function Fold<S>(cfg: Config<S>, c: ConsumerId, stream: seq<Message>, ms: set<nat>, n: nat): S
    requires n <= |stream|
  {
    if n == 0 then cfg.init(c)
    else
      var before := Fold(cfg, c, stream, ms, n - 1);
      if n - 1 in ms && stream[n - 1].body.Envelope?
      then cfg.handle(c, before, stream[n - 1].body.event) else before
  }

  lemma {:induction false} FoldAgrees<S>(cfg: Config<S>, c: ConsumerId, a: seq<Message>, b: seq<Message>,
        xs: set<nat>, ys: set<nat>, n: nat)
    requires n <= |a| && n <= |b| && a[..n] == b[..n]
    requires forall i: nat | i < n :: i in xs <==> i in ys
    ensures Fold(cfg, c, a, xs, n) == Fold(cfg, c, b, ys, n)
  {
    if n > 0 {
      assert a[n - 1] == a[..n][n - 1] && b[n - 1] == b[..n][n - 1];
      assert a[..n - 1] == a[..n][..n - 1] && b[..n - 1] == b[..n][..n - 1];
      FoldAgrees(cfg, c, a, b, xs, ys, n - 1);
    }
  }

  /** Applying the handler to a message puts it into the folded set, wherever in the stream the
      message is and whether or not its effect was there before. */
  lemma {:induction false} FoldInsert<S(!new)>(cfg: Config<S>, c: ConsumerId, stream: seq<Message>, ms: set<nat>,
        n: nat, i: nat)
    requires Idempotent(cfg, c) && Commutes(cfg, c)
    requires i < n <= |stream| && stream[i].body.Envelope?
    ensures cfg.handle(c, Fold(cfg, c, stream, ms, n), stream[i].body.event) ==
            Fold(cfg, c, stream, ms + {i}, n)
  {
    var before, e := Fold(cfg, c, stream, ms, n - 1), stream[i].body.event;
    if i == n - 1 {
      FoldAgrees(cfg, c, stream, stream, ms, ms + {i}, n - 1);
    } else {
      FoldInsert(cfg, c, stream, ms, n - 1, i);
      if n - 1 in ms && stream[n - 1].body.Envelope? {
        var e' := stream[n - 1].body.event;
        assert cfg.handle(c, cfg.handle(c, before, e'), e) == cfg.handle(c, cfg.handle(c, before, e), e');
      }
    }
  }

  // ---------------------------------------------------------------- what every step keeps

  /** An instance that may serve the filter routes the message to the consumer. */
  ghost predicate RoutesTo<S>(cfg: Config<S>, filter: string, body: Wire, c: ConsumerId) {
    exists i :: MayServe(cfg, i, filter) && c in TargetsAt(cfg, i, body)
  }

  /** Some durable receives the message, and an instance that may serve it has the consumer for it. */
  ghost predicate Due<S>(cfg: Config<S>, s: State<S>, c: ConsumerId, m: nat) {
    m < |s.stream| &&
    exists d :: 0 <= d < |s.durables| && Matches(s.durables[d].filter, s.stream[m].subject) &&
                RoutesTo(cfg, s.durables[d].filter, s.stream[m].body, c)
  }

  /** Durables are bound, and their messages attempted, only by instances that may serve them. */
  ghost predicate ServedInv<S>(cfg: Config<S>, s: State<S>) {
    && (forall d | 0 <= d < |s.durables| ::
          s.durables[d].holder.HeldBy? ==> MayServe(cfg, s.durables[d].holder.inst, s.durables[d].filter))
    && (forall k | k in s.attempts ::
          k.dur < |s.durables| && MayServe(cfg, s.attempts[k].inst, s.durables[k.dur].filter))
  }

  lemma HoldersServe<S>(cfg: Config<S>, s: State<S>, step: Step)
    requires ServedInv(cfg, s) && Enabled(cfg, s, step)
    ensures var t := Do(cfg, s, step);
            forall d | 0 <= d < |t.durables| ::
              t.durables[d].holder.HeldBy? ==> MayServe(cfg, t.durables[d].holder.inst, t.durables[d].filter)
  {
    match step
    case Subscribe(_, _, _) =>
    case _ =>
  }

  lemma AttemptsServe<S>(cfg: Config<S>, s: State<S>, step: Step, t: State<S>)
    requires ServedInv(cfg, s) && Shape(s, step, t) && AttemptShape(s, step, t)
    ensures forall k | k in t.attempts ::
              k.dur < |t.durables| && MayServe(cfg, t.attempts[k].inst, t.durables[k.dur].filter)
  {
    forall k | k in t.attempts
      ensures k.dur < |t.durables| && MayServe(cfg, t.attempts[k].inst, t.durables[k.dur].filter)
    {
      AttemptServes(cfg, s, step, t, k);
    }
  }

  lemma AttemptServes<S>(cfg: Config<S>, s: State<S>, step: Step, t: State<S>, k: Key)
    requires ServedInv(cfg, s) && Shape(s, step, t) && AttemptShape(s, step, t) && k in t.attempts
    ensures k.dur < |t.durables| && MayServe(cfg, t.attempts[k].inst, t.durables[k.dur].filter)
  {
    if k in NewKey(s, step) {
      assert t.attempts[k].inst == s.durables[k.dur].holder.inst;
    } else {
      assert t.attempts[k].inst == s.attempts[k].inst;
    }
    assert t.durables[k.dur].filter == s.durables[k.dur].filter;
  }

  lemma ServedKept<S>(cfg: Config<S>, s: State<S>, step: Step)
    requires Inv(cfg, s) && ServedInv(cfg, s) && Enabled(cfg, s, step)
    ensures ServedInv(cfg, Do(cfg, s, step))
  {
    StepKeepsInv(cfg, s, step);
    HoldersServe(cfg, s, step);
    AttemptsServe(cfg, s, step, Do(cfg, s, step));
  }

  /** Every target that returned without error had its effect applied. */
  ghost predicate OutcomesApplied<S>(cfg: Config<S>, s: State<S>, c: ConsumerId) {
    forall k, j: nat | k in s.attempts && j < |s.attempts[k].outcomes| && j < |TargetsOf(cfg, s, k)| ::
      s.attempts[k].outcomes[j] == Ok && TargetsOf(cfg, s, k)[j] == c ==> k.msg in AppliedTo(s.applied, c)
  }

  /** The consumer's state is the fold over the messages applied to it, all of them received and
      routed to it. */
  ghost predicate EffectInv<S>(cfg: Config<S>, s: State<S>, c: ConsumerId) {
    && Current(cfg, s.world, c) == Fold(cfg, c, s.stream, AppliedTo(s.applied, c), |s.stream|)
    && (forall m | m in AppliedTo(s.applied, c) :: Due(cfg, s, c, m))
    && OutcomesApplied(cfg, s, c)
    && ServedInv(cfg, s)
  }

  /** The effect of one step on the consumer's own state. */
  predicate Applies<S>(cfg: Config<S>, s: State<S>, step: Step, c: ConsumerId) {
    step.Invoke? && Enabled(cfg, s, step) && (step.outcome == Ok || step.effect) &&
    TargetsOf(cfg, s, step.key)[|s.attempts[step.key].outcomes|] == c
  }

  lemma StepEffect<S>(cfg: Config<S>, s: State<S>, step: Step, c: ConsumerId)
    requires Enabled(cfg, s, step)
    ensures var t := Do(cfg, s, step);
            if Applies(cfg, s, step, c) then
              s.stream[step.key.msg].body.Envelope? && t.stream == s.stream &&
              AppliedTo(t.applied, c) == AppliedTo(s.applied, c) + {step.key.msg} &&
              Current(cfg, t.world, c) ==
                cfg.handle(c, Current(cfg, s.world, c), s.stream[step.key.msg].body.event)
            else
              AppliedTo(t.applied, c) == AppliedTo(s.applied, c) &&
              Current(cfg, t.world, c) == Current(cfg, s.world, c)
  {
    match step
    case Invoke(_, _, _) =>
    case _ =>
  }

  lemma FoldKept<S(!new)>(cfg: Config<S>, s: State<S>, step: Step, c: ConsumerId)
    requires Idempotent(cfg, c) && Commutes(cfg, c)
    requires Inv(cfg, s) && EffectInv(cfg, s, c) && Enabled(cfg, s, step)
    ensures var t := Do(cfg, s, step);
            Current(cfg, t.world, c) == Fold(cfg, c, t.stream, AppliedTo(t.applied, c), |t.stream|)
  {
    var t := Do(cfg, s, step);
    StepEffect(cfg, s, step, c);
    var ms := AppliedTo(s.applied, c);
    if Applies(cfg, s, step, c) {
      FoldInsert(cfg, c, s.stream, ms, |s.stream|, step.key.msg);
    } else {
      if step.Publish? {
        assert |s.stream| !in ms;
        assert t.stream[..|s.stream|] == s.stream[..|s.stream|];
        FoldAgrees(cfg, c, s.stream, t.stream, ms, ms, |s.stream|);
      }
    }
  }

  lemma DueKept<S>(cfg: Config<S>, s: State<S>, step: Step, t: State<S>, c: ConsumerId, m: nat)
    requires Due(cfg, s, c, m) && Shape(s, step, t)
    ensures Due(cfg, t, c, m)
  {
    var d :| 0 <= d < |s.durables| && Matches(s.durables[d].filter, s.stream[m].subject) &&
             RoutesTo(cfg, s.durables[d].filter, s.stream[m].body, c);
    assert t.durables[d].filter == s.durables[d].filter && t.stream[m] == s.stream[m];
  }

  function NewlyApplied<S>(cfg: Config<S>, s: State<S>, step: Step, c: ConsumerId): set<nat> {
    if Applies(cfg, s, step, c) then {step.key.msg} else {}
  }

  lemma AttemptFacts<S>(cfg: Config<S>, s: State<S>, k: Key)
    requires Inv(cfg, s) && k in s.attempts
    ensures k.msg < |s.stream| && AttemptOk(cfg, s, k) && k.dur < |s.durables|
    ensures Matches(s.durables[k.dur].filter, s.stream[k.msg].subject)
    ensures TargetsOf(cfg, s, k) == TargetsAt(cfg, s.attempts[k].inst, s.stream[k.msg].body)
    ensures s.attempts[k].inst < |cfg.instances|
  {
    KeyBounds(cfg, s, k);
    assert AttemptOk(cfg, s, k);
  }

  lemma InvokedIsTarget<S>(cfg: Config<S>, s: State<S>, step: Step, c: ConsumerId)
    requires Inv(cfg, s) && ServedInv(cfg, s) && Applies(cfg, s, step, c)
    ensures step.key.msg < |s.stream|
    ensures Due(cfg, s, c, step.key.msg)
  {
    var k := step.key;
    AttemptFacts(cfg, s, k);
    assert MayServe(cfg, s.attempts[k].inst, s.durables[k.dur].filter);
    assert c in TargetsAt(cfg, s.attempts[k].inst, s.stream[k.msg].body);
  }

  lemma AppliedKept<S>(cfg: Config<S>, s: State<S>, step: Step, t: State<S>, c: ConsumerId, ms: set<nat>)
    requires Shape(s, step, t) && forall m | m in ms :: Due(cfg, s, c, m)
    ensures forall m | m in ms :: Due(cfg, t, c, m)
  {
    forall m | m in ms ensures Due(cfg, t, c, m) {
      DueKept(cfg, s, step, t, c, m);
    }
  }

  lemma OutcomesKept<S>(cfg: Config<S>, s: State<S>, step: Step, t: State<S>, c: ConsumerId, k: Key, j: nat)
    requires k in s.attempts && k.msg < |s.stream| && s.stream <= t.stream && k in t.attempts
    requires t.attempts[k] == NextAttempt(s, step, k) && Enabled(cfg, s, step)
    requires (j < |s.attempts[k].outcomes| && j < |TargetsOf(cfg, s, k)| &&
              s.attempts[k].outcomes[j] == Ok && TargetsOf(cfg, s, k)[j] == c)
             ==> k.msg in AppliedTo(s.applied, c)
    requires AppliedTo(t.applied, c) == AppliedTo(s.applied, c) + NewlyApplied(cfg, s, step, c)
    requires j < |t.attempts[k].outcomes| && j < |TargetsOf(cfg, t, k)|
    requires t.attempts[k].outcomes[j] == Ok && TargetsOf(cfg, t, k)[j] == c
    ensures k.msg in AppliedTo(t.applied, c)
  {
    TargetsKept(cfg, s, step, t, k);
    if j >= |s.attempts[k].outcomes| { assert Applies(cfg, s, step, c); }
  }

  lemma OutcomesAppliedKept<S>(cfg: Config<S>, s: State<S>, step: Step, t: State<S>, c: ConsumerId)
    requires Inv(cfg, s) && OutcomesApplied(cfg, s, c) && Enabled(cfg, s, step)
    requires s.stream <= t.stream && AttemptShape(s, step, t)
    requires AppliedTo(t.applied, c) == AppliedTo(s.applied, c) + NewlyApplied(cfg, s, step, c)
    ensures OutcomesApplied(cfg, t, c)
  {
    forall k, j: nat | k in t.attempts && j < |t.attempts[k].outcomes| && j < |TargetsOf(cfg, t, k)| &&
                       t.attempts[k].outcomes[j] == Ok && TargetsOf(cfg, t, k)[j] == c
      ensures k.msg in AppliedTo(t.applied, c)
    {
      assert k !in NewKey(s, step);
      AttemptFacts(cfg, s, k);
      OutcomesKept(cfg, s, step, t, c, k, j);
    }
  }

  lemma EffectKeptBy<S>(cfg: Config<S>, s: State<S>, step: Step, t: State<S>, c: ConsumerId)
    requires Inv(cfg, s) && EffectInv(cfg, s, c) && Enabled(cfg, s, step)
    requires Shape(s, step, t) && AttemptShape(s, step, t)
    requires AppliedTo(t.applied, c) == AppliedTo(s.applied, c) + NewlyApplied(cfg, s, step, c)
    requires Current(cfg, t.world, c) == Fold(cfg, c, t.stream, AppliedTo(t.applied, c), |t.stream|)
    requires ServedInv(cfg, t)
    ensures EffectInv(cfg, t, c)
  {
    if Applies(cfg, s, step, c) { InvokedIsTarget(cfg, s, step, c); }
    AppliedKept(cfg, s, step, t, c, AppliedTo(t.applied, c));
    OutcomesAppliedKept(cfg, s, step, t, c);
  }

  lemma EffectKept<S(!new)>(cfg: Config<S>, s: State<S>, step: Step, c: ConsumerId)
    requires Idempotent(cfg, c) && Commutes(cfg, c)
    requires Inv(cfg, s) && EffectInv(cfg, s, c) && Enabled(cfg, s, step)
    ensures EffectInv(cfg, Do(cfg, s, step), c)
  {
    StepKeepsInv(cfg, s, step);
    FoldKept(cfg, s, step, c);
    AppliedGrows(cfg, s, step, c);
    ServedKept(cfg, s, step);
    EffectKeptBy(cfg, s, step, Do(cfg, s, step), c);
  }

  lemma AppliedGrows<S>(cfg: Config<S>, s: State<S>, step: Step, c: ConsumerId)
    requires Enabled(cfg, s, step)
    ensures AppliedTo(Do(cfg, s, step).applied, c) ==
            AppliedTo(s.applied, c) + NewlyApplied(cfg, s, step, c)
  {
    StepEffect(cfg, s, step, c);
  }

  lemma {:induction false} RunKeepsEffect<S(!new)>(cfg: Config<S>, s: State<S>, steps: seq<Step>, t: State<S>,
        c: ConsumerId)
    requires Idempotent(cfg, c) && Commutes(cfg, c)
    requires Inv(cfg, s) && EffectInv(cfg, s, c) && Run(cfg, s, steps, t)
    ensures EffectInv(cfg, t, c)
    decreases |steps|
  {
    if steps == [] {
    } else {
      StepKeepsInv(cfg, s, steps[0]);
      EffectKept(cfg, s, steps[0], c);
      RunKeepsEffect(cfg, Do(cfg, s, steps[0]), steps[1..], t, c);
    }
  }

  // ---------------------------------------------------------------- the theorem

  ghost predicate AllAcked<S>(s: State<S>) {
    forall d: nat, m: nat | HasCell(s, d, m) ::
      s.durables[d].cells[m].status == Unmatched || s.durables[d].cells[m].status == Acked
  }

  /** The instances that may serve the filter agree whether the message is for c. */
  ghost predicate AgreeOn<S>(cfg: Config<S>, filter: string, body: Wire, c: ConsumerId) {
    forall i: nat, j: nat | MayServe(cfg, i, filter) && MayServe(cfg, j, filter) ::
      c in TargetsAt(cfg, i, body) ==> c in TargetsAt(cfg, j, body)
  }

  /** On every durable, the instances that may serve it agree about c for what it receives. */
  ghost predicate ServersAgree<S>(cfg: Config<S>, s: State<S>, c: ConsumerId) {
    forall d, m | 0 <= d < |s.durables| && 0 <= m < |s.stream| &&
                  Matches(s.durables[d].filter, s.stream[m].subject) ::
      AgreeOn(cfg, s.durables[d].filter, s.stream[m].body, c)
  }

  /** The consumer's events: the messages of the durables that some instance with the consumer for
      them may serve. */
  ghost function EventsOf<S>(cfg: Config<S>, s: State<S>, c: ConsumerId): set<nat> {
    set m: nat | m < |s.stream| && Due(cfg, s, c, m)
  }

  lemma AckedApplied<S>(cfg: Config<S>, s: State<S>, c: ConsumerId, m: nat)
    requires Inv(cfg, s) && EffectInv(cfg, s, c) && AllAcked(s) && ServersAgree(cfg, s, c)
    requires Due(cfg, s, c, m)
    ensures m in AppliedTo(s.applied, c)
  {
    var d: nat :| d < |s.durables| && Matches(s.durables[d].filter, s.stream[m].subject) &&
                  RoutesTo(cfg, s.durables[d].filter, s.stream[m].body, c);
    CellFacts(cfg, s, d, m);
    assert AnsweredWith(s, d, m, Ack);
    var k :| k in s.attempts && k.dur == d && k.msg == m && s.attempts[k].phase == Answered(Ack);
    AttemptFacts(cfg, s, k);
    assert AgreeOn(cfg, s.durables[d].filter, s.stream[m].body, c);
    assert MayServe(cfg, s.attempts[k].inst, s.durables[d].filter);
    AckedTargetApplied(cfg, s, c, k);
  }

  lemma AckedTargetApplied<S>(cfg: Config<S>, s: State<S>, c: ConsumerId, k: Key)
    requires k in s.attempts && k.msg < |s.stream| && AttemptOk(cfg, s, k) && EffectInv(cfg, s, c)
    requires s.attempts[k].phase == Answered(Ack) && c in TargetsOf(cfg, s, k)
    ensures k.msg in AppliedTo(s.applied, c)
  {
    var ts := TargetsOf(cfg, s, k);
    var j: nat :| j < |ts| && ts[j] == c;
    assert s.attempts[k].outcomes[j] in s.attempts[k].outcomes;
  }

  /** Exactly-once effect: when a run has acknowledged every matching message on every durable, an
      idempotent and commuting consumer's state is its handler folded over its events in stream
      order, once each, whatever the redeliveries, crashes, lost answers, reorderings and double
      subscription matches on the way. A failed attempt may have had no effect or the full one.
      Instances that never serve one durable may have different consumers. */
  lemma ExactlyOnceEffect<S(!new)>(cfg: Config<S>, steps: seq<Step>, t: State<S>, c: ConsumerId)
    requires Idempotent(cfg, c) && Commutes(cfg, c)
    requires Run(cfg, Initial(), steps, t) && AllAcked(t) && ServersAgree(cfg, t, c)
    ensures Current(cfg, t.world, c) == Fold(cfg, c, t.stream, EventsOf(cfg, t, c), |t.stream|)
  {
    RunKeepsInv(cfg, Initial(), steps, t);
    RunKeepsEffect(cfg, Initial(), steps, t, c);
    forall m | m in EventsOf(cfg, t, c) ensures m in AppliedTo(t.applied, c) {
      AckedApplied(cfg, t, c, m);
    }
    assert EventsOf(cfg, t, c) == AppliedTo(t.applied, c);
  }

  /** Instances with the same registrations agree. */
  lemma OneRegistryAgrees<S>(cfg: Config<S>, log: seq<Registration>, s: State<S>, c: ConsumerId)
    requires OneRegistry(cfg, log)
    ensures ServersAgree(cfg, s, c)
  {
  }
}
