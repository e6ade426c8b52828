/** Runs of the delivery protocol that show its limits: what goes wrong for handlers that are not
    idempotent or do not commute, and how a message is exhausted without ever being terminated.
    All of them have one any-scope instance with one consumer. */
module Witnesses {
  import opened Event
  import opened Routing
  import opened Registry
  import opened Delivery
  import opened DeliveryGuarantees
  import opened ExactlyOnce

  function Single<S>(init: S, handle: (S, Event) -> S, kinds: seq<string>): Config<S> {
    Config([Instance("", [Registration(0, kinds)])], _ => init, (_, x, e) => handle(x, e))
  }

  /** The one instance routes the message to the one consumer, once. */
  predicate RoutedOnce<S>(cfg: Config<S>, m: Message) {
    |cfg.instances| == 1 && m.body.Envelope? && Targets(cfg.instances[0].log, m.body.event) == [0]
  }

  /** The broker and the instance once everything is published and subscribed to. */
  function Bound<S>(ms: seq<Message>, cells: seq<Cell>, attempts: map<Key, Attempt>, mail: set<Key>,
        world: map<ConsumerId, S>, applied: map<ConsumerId, set<nat>>): State<S>
  {
    State(ms, [Durable(DurableName(SUBJECT_ALL), SUBJECT_ALL, cells, HeldBy(0))], attempts, mail, world, applied)
  }

  // ---------------------------------------------------------------- one delivery

  /** One delivery of message i, handled with the given outcome and taking effect, then answered. */
  function OneDelivery(i: nat, n: nat, outcome: Outcome): seq<Step> {
    var k := Key(0, i, n);
    [Deliver(0, i), Invoke(k, outcome, true), Finish(k, true), Receive(k)]
  }

  function AfterAnswer(outcome: Outcome, n: nat): Cell {
    Cell(if outcome == Ok then Acked else Outstanding(true), n)
  }

  lemma OneDeliver<S>(cfg: Config<S>, s: State<S>, ms: seq<Message>, cells: seq<Cell>, i: nat)
    requires s == Bound(ms, cells, s.attempts, {}, s.world, s.applied)
    requires i < |cells| && Deliverable(cells[i])
    ensures Enabled(cfg, s, Deliver(0, i))
    ensures var n := cells[i].count + 1;
            Do(cfg, s, Deliver(0, i)) ==
            Bound(ms, cells[i := Cell(Outstanding(false), n)],
                  s.attempts[Key(0, i, n) := Attempt(0, [], Running)], {}, s.world, s.applied)
  {
  }

  lemma OneInvoke<S>(cfg: Config<S>, s: State<S>, ms: seq<Message>, cells: seq<Cell>, k: Key, outcome: Outcome)
    returns (t: State<S>)
    requires s == Bound(ms, cells, s.attempts, {}, s.world, s.applied)
    requires k.msg < |ms| && RoutedOnce(cfg, ms[k.msg])
    requires k in s.attempts && s.attempts[k] == Attempt(0, [], Running)
    ensures Enabled(cfg, s, Invoke(k, outcome, true)) && t == Do(cfg, s, Invoke(k, outcome, true))
    ensures t == Bound(ms, cells, s.attempts[k := Attempt(0, [outcome], Running)], {}, t.world, t.applied)
    ensures Current(cfg, t.world, 0) == cfg.handle(0, Current(cfg, s.world, 0), ms[k.msg].body.event)
  {
    assert TargetsOf(cfg, s, k) == [0];
    assert [] + [outcome] == [outcome];
    t := Do(cfg, s, Invoke(k, outcome, true));
  }

  lemma OneFinish<S>(cfg: Config<S>, s: State<S>, ms: seq<Message>, cells: seq<Cell>, k: Key, outcome: Outcome)
    requires s == Bound(ms, cells, s.attempts, {}, s.world, s.applied)
    requires k.msg < |ms| && RoutedOnce(cfg, ms[k.msg]) && k.count < MAX_DELIVER
    requires k in s.attempts && s.attempts[k] == Attempt(0, [outcome], Running)
    ensures Enabled(cfg, s, Finish(k, true))
    ensures var v := if outcome == Ok then Ack else Nak;
            Do(cfg, s, Finish(k, true)) ==
            Bound(ms, cells, s.attempts[k := Attempt(0, [outcome], Answered(v))], {k}, s.world, s.applied)
  {
    assert TargetsOf(cfg, s, k) == [0];
    assert outcome in [outcome];
    assert {} + {k} == {k};
  }

  lemma OneReceive<S>(cfg: Config<S>, s: State<S>, ms: seq<Message>, cells: seq<Cell>, i: nat, outcome: Outcome)
    requires i < |cells| && cells[i].status == Outstanding(false) && cells[i].count < MAX_DELIVER
    requires s == Bound(ms, cells, s.attempts, {Key(0, i, cells[i].count)}, s.world, s.applied)
    requires Key(0, i, cells[i].count) in s.attempts
    requires s.attempts[Key(0, i, cells[i].count)].phase == Answered(if outcome == Ok then Ack else Nak)
    ensures Enabled(cfg, s, Receive(Key(0, i, cells[i].count)))
    ensures Do(cfg, s, Receive(Key(0, i, cells[i].count))) ==
            Bound(ms, cells[i := AfterAnswer(outcome, cells[i].count)], s.attempts, {}, s.world, s.applied)
  {
    var k := Key(0, i, cells[i].count);
    assert {k} - {k} == {};
  }

  lemma RunFour<S>(cfg: Config<S>, s: State<S>, a: Step, b: Step, c: Step, d: Step)
    requires Enabled(cfg, s, a) && Enabled(cfg, Do(cfg, s, a), b)
    requires Enabled(cfg, Do(cfg, Do(cfg, s, a), b), c)
    requires Enabled(cfg, Do(cfg, Do(cfg, Do(cfg, s, a), b), c), d)
    ensures Run(cfg, s, [a, b, c, d], Do(cfg, Do(cfg, Do(cfg, Do(cfg, s, a), b), c), d))
  {
    assert [a, b, c, d][1..] == [b, c, d] && [b, c, d][1..] == [c, d];
    RunTwo(cfg, Do(cfg, Do(cfg, s, a), b), c, d);
  }

  lemma DeliveryTakesEffect<S>(cfg: Config<S>, s: State<S>, ms: seq<Message>, cells: seq<Cell>, i: nat,
        outcome: Outcome)
    returns (t: State<S>)
    requires s == Bound(ms, cells, s.attempts, {}, s.world, s.applied) && |ms| == |cells|
    requires i < |ms| && RoutedOnce(cfg, ms[i]) && Deliverable(cells[i]) && cells[i].count < MAX_DELIVER - 1
    ensures Run(cfg, s, OneDelivery(i, cells[i].count + 1, outcome), t)
    ensures t == Bound(ms, cells[i := AfterAnswer(outcome, cells[i].count + 1)], t.attempts, {}, t.world, t.applied)
    ensures Current(cfg, t.world, 0) == cfg.handle(0, Current(cfg, s.world, 0), ms[i].body.event)
  {
    var n := cells[i].count + 1;
    var k, steps, cells1 := Key(0, i, n), OneDelivery(i, n, outcome), cells[i := Cell(Outstanding(false), n)];
    OneDeliver(cfg, s, ms, cells, i);
    var s1 := Do(cfg, s, steps[0]);
    var s2 := OneInvoke(cfg, s1, ms, cells1, k, outcome);
    OneFinish(cfg, s2, ms, cells1, k, outcome);
    var s3 := Do(cfg, s2, steps[2]);
    OneReceive(cfg, s3, ms, cells1, i, outcome);
    t := Do(cfg, s3, steps[3]);
    assert cells1[i := AfterAnswer(outcome, n)] == cells[i := AfterAnswer(outcome, n)];
    RunFour(cfg, s, steps[0], steps[1], steps[2], steps[3]);
  }

  // ---------------------------------------------------------------- publishing and subscribing

  function Published<S>(ms: seq<Message>): State<S> { State(ms, [], map[], {}, map[], map[]) }

  function Publishes(ms: seq<Message>): seq<Step> {
    seq(|ms|, i requires 0 <= i < |ms| => Publish(ms[i]))
  }

  predicate AllEvents(ms: seq<Message>) { forall m | m in ms :: Matches(SUBJECT_ALL, m.subject) }

  lemma {:induction false} PublishAll<S>(cfg: Config<S>, ms: seq<Message>)
    requires AllEvents(ms)
    ensures Run(cfg, Initial<S>(), Publishes(ms), Published<S>(ms))
    decreases |ms|
  {
    if ms == [] {
    } else {
      var before, m := ms[..|ms| - 1], ms[|ms| - 1];
      PublishAll<S>(cfg, before);
      assert before + [m] == ms && Publishes(ms) == Publishes(before) + [Publish(m)];
      var s := Published<S>(before);
      assert Do(cfg, s, Publish(m)) == Published<S>(ms);
      assert [Publish(m)][1..] == [];
      RunConcat(cfg, Initial<S>(), Publishes(before), s, [Publish(m)], Published<S>(ms));
    }
  }

  function Fresh(n: nat): seq<Cell> { seq(n, _ => Cell(Undelivered, 0)) }

  function Ready<S>(ms: seq<Message>): State<S> { Bound(ms, Fresh(|ms|), map[], {}, map[], map[]) }

  function Preparation(ms: seq<Message>): seq<Step> { Publishes(ms) + [Subscribe(0, SUBJECT_ALL, 0)] }

  /** Publishing some messages and then subscribing to everything. */
  lemma Prepared<S>(cfg: Config<S>, ms: seq<Message>)
    requires |cfg.instances| == 1 && cfg.instances[0].scope == "" && AllEvents(ms)
    ensures Run(cfg, Initial<S>(), Preparation(ms), Ready<S>(ms))
  {
    PublishAll<S>(cfg, ms);
    var s, step := Published<S>(ms), Subscribe(0, SUBJECT_ALL, 0);
    assert SUBJECT_ALL in SubjectsForWorkflow("");
    var t := Do(cfg, s, step);
    assert t.durables[0].cells == Fresh(|ms|);
    assert t == Ready<S>(ms);
    assert [step][1..] == [];
    RunConcat(cfg, Initial<S>(), Publishes(ms), s, [step], Ready<S>(ms));
  }

  // ---------------------------------------------------------------- routing and folding

  lemma RoutesOne(log: seq<Registration>, e: Event, kinds: seq<string>)
    requires log == [Registration(0, kinds)] && Repeat(0, kinds, e.kind) == [0]
    ensures Targets(log, e) == [0]
  {
    assert log[1..] == [];
    var none: seq<ConsumerId> := [];
    assert ByKind([], e.kind) == none;
    assert ByKind(log, e.kind) == [0] + none == [0];
    assert AllConsumers(log) == [0];
  }

  lemma RepeatOne(kind: string)
    ensures Repeat(0, [kind], kind) == [0]
  {
    assert [kind][1..] == [];
    var none: seq<ConsumerId> := [];
    assert Repeat(0, [], kind) == none && [0] + none == [0];
  }

  /** Once every message is acknowledged, all of them are the consumer's events. */
  lemma AllAreEvents<S>(cfg: Config<S>, t: State<S>, ms: seq<Message>, cells: seq<Cell>)
    requires t == Bound(ms, cells, t.attempts, {}, t.world, t.applied) && |cells| == |ms| && AllEvents(ms)
    requires forall i | 0 <= i < |ms| :: cells[i].status == Acked && RoutedOnce(cfg, ms[i])
    requires |cfg.instances| == 1 && cfg.instances[0].scope == ""
    ensures AllAcked(t)
    ensures forall i: nat | i < |ms| :: i in EventsOf(cfg, t, 0)
  {
    forall i: nat | i < |ms| ensures i in EventsOf(cfg, t, 0) {
      assert ms[i] in ms && Matches(t.durables[0].filter, t.stream[i].subject);
      assert RoutedOnce(cfg, ms[i]) && 0 in TargetsAt(cfg, 0, t.stream[i].body);
      assert MayServe(cfg, 0, t.durables[0].filter);
      assert RoutesTo(cfg, t.durables[0].filter, t.stream[i].body, 0);
    }
  }

  // ---------------------------------------------------------------- idempotence is needed

  /** Where idempotence fails, so does the guarantee: a first attempt that takes effect but reports
      a failure is retried, every message ends acknowledged, and the effect is there twice. */
  lemma IdempotenceIsNeeded<S>(init: S, handle: (S, Event) -> S, m: Message)
    returns (cfg: Config<S>, steps: seq<Step>, t: State<S>)
    requires Matches(SUBJECT_ALL, m.subject) && m.body.Envelope?
    requires handle(handle(init, m.body.event), m.body.event) != handle(init, m.body.event)
    ensures Run(cfg, Initial(), steps, t) && AllAcked(t) && ServersAgree(cfg, t, 0)
    ensures Current(cfg, t.world, 0) != Fold(cfg, 0, t.stream, EventsOf(cfg, t, 0), |t.stream|)
  {
    var e := m.body.event;
    cfg := Single(init, handle, [e.kind]);
    RepeatOne(e.kind);
    RoutesOne(cfg.instances[0].log, e, [e.kind]);
    var cells;
    steps, t, cells := Retried(cfg, m);
    OneRegistryAgrees(cfg, cfg.instances[0].log, t, 0);
    AllAreEvents(cfg, t, [m], cells);
    assert 0 in EventsOf(cfg, t, 0);
    assert Fold(cfg, 0, t.stream, EventsOf(cfg, t, 0), 0) == init;
  }

  lemma Retried<S>(cfg: Config<S>, m: Message) returns (steps: seq<Step>, t: State<S>, cells: seq<Cell>)
    requires RoutedOnce(cfg, m) && cfg.instances[0].scope == "" && Matches(SUBJECT_ALL, m.subject)
    ensures Run(cfg, Initial(), steps, t)
    ensures t == Bound([m], cells, t.attempts, {}, t.world, t.applied) && cells == [Cell(Acked, 2)]
    ensures Current(cfg, t.world, 0) == cfg.handle(0, cfg.handle(0, cfg.init(0), m.body.event), m.body.event)
  {
    Prepared(cfg, [m]);
    var s0, cells0 := Ready<S>([m]), Fresh(1);
    var s1 := DeliveryTakesEffect(cfg, s0, [m], cells0, 0, Failed);
    var cells1 := cells0[0 := AfterAnswer(Failed, 1)];
    t := DeliveryTakesEffect(cfg, s1, [m], cells1, 0, Ok);
    cells := cells1[0 := AfterAnswer(Ok, 2)];
    RunConcat(cfg, Initial(), Preparation([m]), s0, OneDelivery(0, 1, Failed), s1);
    RunConcat(cfg, Initial(), Preparation([m]) + OneDelivery(0, 1, Failed), s1, OneDelivery(0, 2, Ok), t);
    steps := Preparation([m]) + OneDelivery(0, 1, Failed) + OneDelivery(0, 2, Ok);
  }

  // ---------------------------------------------------------------- commuting is needed

  /** The types of two events, each once. */
  function KindsOf(e: Event, f: Event): seq<string> {
    if e.kind == f.kind then [e.kind] else [e.kind, f.kind]
  }

  lemma RepeatTwo(e: Event, f: Event)
    ensures Repeat(0, KindsOf(e, f), e.kind) == [0] && Repeat(0, KindsOf(e, f), f.kind) == [0]
  {
    RepeatOne(e.kind);
    RepeatOne(f.kind);
    var none: seq<ConsumerId> := [];
    assert [e.kind, f.kind][1..] == [f.kind] && [f.kind][1..] == [];
    assert Repeat(0, [], e.kind) == none && [0] + none == [0] && none + [0] == [0];
  }

  /** Where two events do not commute, the guarantee fails too: they are delivered in reverse order,
      each once, every message ends acknowledged, and the effect is not that of the stream order. */
  lemma CommutingIsNeeded<S>(init: S, handle: (S, Event) -> S, m: Message, l: Message)
    returns (cfg: Config<S>, steps: seq<Step>, t: State<S>)
    requires Matches(SUBJECT_ALL, m.subject) && m.body.Envelope?
    requires Matches(SUBJECT_ALL, l.subject) && l.body.Envelope?
    requires handle(handle(init, l.body.event), m.body.event) != handle(handle(init, m.body.event), l.body.event)
    ensures Run(cfg, Initial(), steps, t) && AllAcked(t) && ServersAgree(cfg, t, 0)
    ensures Current(cfg, t.world, 0) != Fold(cfg, 0, t.stream, EventsOf(cfg, t, 0), |t.stream|)
  {
    var e, f := m.body.event, l.body.event;
    cfg := Single(init, handle, KindsOf(e, f));
    RepeatTwo(e, f);
    RoutesOne(cfg.instances[0].log, e, KindsOf(e, f));
    RoutesOne(cfg.instances[0].log, f, KindsOf(e, f));
    var cells;
    steps, t, cells := Reversed(cfg, m, l);
    OneRegistryAgrees(cfg, cfg.instances[0].log, t, 0);
    AllAreEvents(cfg, t, [m, l], cells);
    FoldOfTwo(cfg, t, m, l);
  }

  lemma FoldOfTwo<S>(cfg: Config<S>, t: State<S>, m: Message, l: Message)
    requires t.stream == [m, l] && m.body.Envelope? && l.body.Envelope?
    requires forall i: nat | i < 2 :: i in EventsOf(cfg, t, 0)
    ensures Fold(cfg, 0, t.stream, EventsOf(cfg, t, 0), |t.stream|) ==
            cfg.handle(0, cfg.handle(0, cfg.init(0), m.body.event), l.body.event)
  {
    var events := EventsOf(cfg, t, 0);
    assert 0 in events && 1 in events;
    assert Fold(cfg, 0, t.stream, events, 0) == cfg.init(0);
    assert Fold(cfg, 0, t.stream, events, 1) == cfg.handle(0, cfg.init(0), m.body.event);
  }

  lemma Reversed<S>(cfg: Config<S>, m: Message, l: Message)
    returns (steps: seq<Step>, t: State<S>, cells: seq<Cell>)
    requires RoutedOnce(cfg, m) && RoutedOnce(cfg, l) && cfg.instances[0].scope == ""
    requires Matches(SUBJECT_ALL, m.subject) && Matches(SUBJECT_ALL, l.subject)
    ensures Run(cfg, Initial(), steps, t)
    ensures t == Bound([m, l], cells, t.attempts, {}, t.world, t.applied)
    ensures cells == [Cell(Acked, 1), Cell(Acked, 1)]
    ensures Current(cfg, t.world, 0) == cfg.handle(0, cfg.handle(0, cfg.init(0), l.body.event), m.body.event)
  {
    var ms := [m, l];
    Prepared(cfg, ms);
    var s0, cells0 := Ready<S>(ms), Fresh(2);
    var s1 := DeliveryTakesEffect(cfg, s0, ms, cells0, 1, Ok);
    var cells1 := cells0[1 := AfterAnswer(Ok, 1)];
    t := DeliveryTakesEffect(cfg, s1, ms, cells1, 0, Ok);
    cells := cells1[0 := AfterAnswer(Ok, 1)];
    RunConcat(cfg, Initial(), Preparation(ms), s0, OneDelivery(1, 1, Ok), s1);
    RunConcat(cfg, Initial(), Preparation(ms) + OneDelivery(1, 1, Ok), s1, OneDelivery(0, 1, Ok), t);
    steps := Preparation(ms) + OneDelivery(1, 1, Ok) + OneDelivery(0, 1, Ok);
  }

  // ---------------------------------------------------------------- resuming after a crash

  /** One target that succeeds takes effect, and the delivery is acknowledged. */
  lemma HandleOne<S>(cfg: Config<S>, s: State<S>, k: Key, i: nat, c: ConsumerId) returns (steps: seq<Step>, t: State<S>)
    requires InHand(s, i, k) && k.msg < |s.stream| && s.stream[k.msg].body.Envelope?
    requires TargetsAt(cfg, i, s.stream[k.msg].body) == [c]
    ensures Run(cfg, s, steps, t) && HasStatus(t, k.dur, k.msg, Acked)
    ensures t.durables[k.dur].cells[k.msg].count == k.count
    ensures Current(cfg, t.world, c) == cfg.handle(c, Current(cfg, s.world, c), s.stream[k.msg].body.event)
    ensures k.msg in AppliedTo(t.applied, c)
  {
    assert TargetsOf(cfg, s, k) == [c];
    var s1 := Do(cfg, s, Invoke(k, Ok, false));
    assert [] + [Ok] == [Ok];
    assert TargetsOf(cfg, s1, k) == [c];
    var s2 := Do(cfg, s1, Finish(k, true));
    RunTwo(cfg, s, Invoke(k, Ok, false), Finish(k, true));
    t := Received(cfg, s2, k);
    RunConcat(cfg, s, [Invoke(k, Ok, false), Finish(k, true)], s2, [Receive(k)], t);
    steps := [Invoke(k, Ok, false), Finish(k, true)] + [Receive(k)];
  }

  /** An instance crashes holding a message that no target has handled; another instance binds the
      durable, is delivered the message a second time, and handles it. */
  lemma CrashResumes<S>(cfg: Config<S>, i: nat, j: nat, filter: string, m: Message, c: ConsumerId)
    returns (handling: seq<Step>, t: State<S>)
    requires MayServe(cfg, i, filter) && MayServe(cfg, j, filter) && Matches(filter, m.subject)
    requires m.body.Envelope? && TargetsAt(cfg, j, m.body) == [c]
    ensures Run(cfg, Initial(), FirstDelivery(m, filter, i) + [Crash(i)] +
                                [Subscribe(j, filter, 0), Expire(0, 0), Deliver(0, 0)] + handling, t)
    ensures HasStatus(t, 0, 0, Acked) && t.durables[0].cells[0].count == 2
    ensures Current(cfg, t.world, c) == cfg.handle(c, cfg.init(c), m.body.event) && 0 in AppliedTo(t.applied, c)
  {
    var a, resume := FirstDelivery(m, filter, i), [Subscribe(j, filter, 0), Expire(0, 0), Deliver(0, 0)];
    var s1 := DeliverTo(cfg, m, filter, i);
    RunKeepsInv(cfg, Initial(), a, s1);
    LossIsLocal(cfg, s1, i, Crash(i));
    RunOne(cfg, s1, Crash(i));
    StepKeepsInv(cfg, s1, Crash(i));
    var s2 := Do(cfg, s1, Crash(i));
    RunConcat(cfg, Initial(), a, s1, [Crash(i)], s2);
    var s3 := ResumeRedelivers(cfg, s2, j, 0, 0);
    RunConcat(cfg, Initial(), a + [Crash(i)], s2, resume, s3);
    handling, t := HandleOne(cfg, s3, Key(0, 0, 2), j, c);
    RunConcat(cfg, Initial(), a + [Crash(i)] + resume, s3, handling, t);
  }

  // ---------------------------------------------------------------- agreement is needed

  /** One message on one durable, held by instance j. */
  function Held<S>(m: Message, filter: string, j: nat, c: Cell, attempts: map<Key, Attempt>, mail: set<Key>,
        world: map<ConsumerId, S>, applied: map<ConsumerId, set<nat>>): State<S>
  {
    State([m], [Durable(DurableName(filter), filter, [c], HeldBy(j))], attempts, mail, world, applied)
  }

  function FirstDelivery(m: Message, filter: string, j: nat): seq<Step> {
    [Publish(m), Subscribe(j, filter, 0), Deliver(0, 0)]
  }

  lemma DeliverTo<S>(cfg: Config<S>, m: Message, filter: string, j: nat) returns (t: State<S>)
    requires MayServe(cfg, j, filter) && Matches(filter, m.subject)
    ensures Run(cfg, Initial<S>(), FirstDelivery(m, filter, j), t)
    ensures t == Held(m, filter, j, Cell(Outstanding(false), 1), map[Key(0, 0, 1) := Attempt(j, [], Running)],
                      {}, map[], map[])
  {
    SubscribedIsEvent(cfg.instances[j].scope, filter, m.subject);
    var s1 := Do(cfg, Initial<S>(), Publish(m));
    assert s1 == State([m], [], map[], {}, map[], map[]);
    var s2 := Do(cfg, s1, Subscribe(j, filter, 0));
    assert s2.durables[0].cells == [Cell(Undelivered, 0)];
    assert s2 == Held(m, filter, j, Cell(Undelivered, 0), map[], {}, map[], map[]);
    t := Do(cfg, s2, Deliver(0, 0));
    assert t.durables[0].cells == [Cell(Outstanding(false), 1)];
    RunThree(cfg, Initial<S>(), Publish(m), Subscribe(j, filter, 0), Deliver(0, 0));
  }

  lemma AckIt<S>(cfg: Config<S>, s: State<S>, m: Message, filter: string, j: nat) returns (t: State<S>)
    requires s == Held(m, filter, j, Cell(Outstanding(false), 1), s.attempts, {Key(0, 0, 1)}, s.world, s.applied)
    requires Key(0, 0, 1) in s.attempts && s.attempts[Key(0, 0, 1)].phase == Answered(Ack)
    ensures Run(cfg, s, [Receive(Key(0, 0, 1))], t)
    ensures t == Held(m, filter, j, Cell(Acked, 1), s.attempts, {}, s.world, s.applied)
  {
    var k := Key(0, 0, 1);
    t := Do(cfg, s, Receive(k));
    assert {k} - {k} == {};
    assert [Receive(k)][1..] == [];
    assert t.durables[0].cells == [Cell(Acked, 1)];
  }

  /** A message that instance j handles and acknowledges, whatever other instances would do. */
  lemma HandledBy<S>(cfg: Config<S>, m: Message, filter: string, j: nat, c: ConsumerId)
    returns (steps: seq<Step>, t: State<S>)
    requires MayServe(cfg, j, filter) && Matches(filter, m.subject) && m.body.Envelope?
    requires c !in TargetsAt(cfg, j, m.body)
    ensures Run(cfg, Initial(), steps, t)
    ensures t == Held(m, filter, j, Cell(Acked, 1), t.attempts, {}, t.world, t.applied)
    ensures Current(cfg, t.world, c) == cfg.init(c)
  {
    var k := Key(0, 0, 1);
    var s1 := DeliverTo(cfg, m, filter, j);
    var oks := seq(|TargetsOf(cfg, s1, k)|, _ => Ok);
    assert TargetsOf(cfg, s1, k) == TargetsAt(cfg, j, m.body);
    var s2 := CallbackIsRun(cfg, s1, k, oks, true);
    assert [] + oks == oks && {} + {k} == {k};
    t := AckIt(cfg, s2, m, filter, j);
    var callback := CallbackSteps(k, oks, true);
    RunConcat(cfg, Initial(), FirstDelivery(m, filter, j), s1, callback, s2);
    RunConcat(cfg, Initial(), FirstDelivery(m, filter, j) + callback, s2, [Receive(k)], t);
    steps := FirstDelivery(m, filter, j) + callback + [Receive(k)];
  }

  /** Where two instances that may serve one durable disagree about a consumer, it can miss an event
      altogether: the instance without the consumer is delivered the message and acknowledges it. */
  lemma AgreementIsNeeded<S>(cfg: Config<S>, c: ConsumerId, i: nat, j: nat, filter: string, m: Message)
    returns (steps: seq<Step>, t: State<S>)
    requires MayServe(cfg, i, filter) && MayServe(cfg, j, filter) && Matches(filter, m.subject)
    requires c in TargetsAt(cfg, i, m.body) && c !in TargetsAt(cfg, j, m.body)
    requires cfg.handle(c, cfg.init(c), m.body.event) != cfg.init(c)
    ensures Run(cfg, Initial(), steps, t) && AllAcked(t) && t.stream == [m]
    ensures Current(cfg, t.world, c) == cfg.init(c)
    ensures Current(cfg, t.world, c) != Fold(cfg, c, t.stream, EventsOf(cfg, t, c), |t.stream|)
  {
    steps, t := HandledBy(cfg, m, filter, j, c);
    assert RoutesTo(cfg, t.durables[0].filter, t.stream[0].body, c);
    assert 0 in EventsOf(cfg, t, c);
    assert Fold(cfg, c, t.stream, EventsOf(cfg, t, c), 0) == cfg.init(c);
  }

  /** Exactly-once effect in every fully acknowledged run. */
  ghost predicate AlwaysExactlyOnce<S(!new)>(cfg: Config<S>, c: ConsumerId) {
    forall steps, t | Run(cfg, Initial(), steps, t) && AllAcked(t) ::
      Current(cfg, t.world, c) == Fold(cfg, c, t.stream, EventsOf(cfg, t, c), |t.stream|)
  }

  /** The instances that may serve a filter agree about c on whatever the filter matches. */
  ghost predicate AlwaysAgree<S>(cfg: Config<S>, c: ConsumerId) {
    forall filter, m: Message | Matches(filter, m.subject) :: AgreeOn(cfg, filter, m.body, c)
  }

  lemma DisagreementShows<S(!new)>(cfg: Config<S>, c: ConsumerId, filter: string, m: Message)
    requires forall e: Event :: cfg.handle(c, cfg.init(c), e) != cfg.init(c)
    requires Matches(filter, m.subject) && !AgreeOn(cfg, filter, m.body, c)
    ensures !AlwaysExactlyOnce(cfg, c)
  {
    var i: nat, j: nat :| MayServe(cfg, i, filter) && MayServe(cfg, j, filter) &&
                          c in TargetsAt(cfg, i, m.body) && c !in TargetsAt(cfg, j, m.body);
    var steps, t := AgreementIsNeeded(cfg, c, i, j, filter, m);
  }

  lemma AgreementSuffices<S(!new)>(cfg: Config<S>, c: ConsumerId)
    requires Idempotent(cfg, c) && Commutes(cfg, c) && AlwaysAgree(cfg, c)
    ensures AlwaysExactlyOnce(cfg, c)
  {
    forall steps, t | Run(cfg, Initial(), steps, t) && AllAcked(t)
      ensures Current(cfg, t.world, c) == Fold(cfg, c, t.stream, EventsOf(cfg, t, c), |t.stream|)
    {
      assert ServersAgree(cfg, t, c);
      ExactlyOnceEffect(cfg, steps, t, c);
    }
  }

  /** For an idempotent, commuting consumer that notices every event when it has seen none, the
      effect is exactly once in every fully acknowledged run iff the instances that may serve one
      durable agree about the consumer. */
  lemma ExactlyOnceIffAgreed<S(!new)>(cfg: Config<S>, c: ConsumerId)
    requires Idempotent(cfg, c) && Commutes(cfg, c)
    requires forall e: Event :: cfg.handle(c, cfg.init(c), e) != cfg.init(c)
    ensures AlwaysExactlyOnce(cfg, c) <==> AlwaysAgree(cfg, c)
  {
    if AlwaysAgree(cfg, c) {
      AgreementSuffices(cfg, c);
    } else {
      var filter, m: Message :| Matches(filter, m.subject) && !AgreeOn(cfg, filter, m.body, c);
      DisagreementShows(cfg, c, filter, m);
    }
  }

  /** Two instances scoped to different workflows, each with its own consumer. */
  function TwoScopes<S>(v: string, w: string, init: S, handle: (S, Event) -> S): Config<S> {
    Config([Instance(v, [Registration(0, [])]), Instance(w, [Registration(1, [])])],
           _ => init, (_, x, e) => handle(x, e))
  }

  lemma BothMayServe<S>(v: string, w: string, init: S, handle: (S, Event) -> S, e: Event)
    requires v != "" && w != "" && Encodable(e) && e.kind == BROADCAST_TYPE
    ensures var cfg := TwoScopes(v, w, init, handle);
            forall i: nat | i < 2 ::
              MayServe(cfg, i, BROADCAST_SUBJECT) && TargetsAt(cfg, i, Envelope(e)) == [i]
    ensures Matches(BROADCAST_SUBJECT, SubjectFor(e).subject)
  {
    BroadcastSubjectMatch(e);
    var cfg := TwoScopes(v, w, init, handle);
    forall i: nat | i < 2
      ensures MayServe(cfg, i, BROADCAST_SUBJECT) && TargetsAt(cfg, i, Envelope(e)) == [i]
    {
      assert SubjectsForWorkflow(cfg.instances[i].scope)[1] == BROADCAST_SUBJECT;
      assert AllConsumers(cfg.instances[i].log) == [i];
    }
  }

  /** The broadcast durable is one for all scopes. A broadcast is meant for every consumer, but one
      instance's acknowledgement closes it: the other instance's consumer never sees it. */
  lemma BroadcastMissesConsumer<S>(v: string, w: string, init: S, handle: (S, Event) -> S, e: Event)
    returns (steps: seq<Step>, t: State<S>)
    requires v != "" && w != "" && Encodable(e) && e.kind == BROADCAST_TYPE && handle(init, e) != init
    ensures var cfg := TwoScopes(v, w, init, handle);
            && Run(cfg, Initial(), steps, t) && AllAcked(t)
            && t.stream == [Message(SubjectFor(e).subject, Envelope(e))]
            && 1 in TargetsAt(cfg, 1, Envelope(e))
            && Current(cfg, t.world, 1) == init
            && Current(cfg, t.world, 1) != Fold(cfg, 1, t.stream, EventsOf(cfg, t, 1), |t.stream|)
  {
    BothMayServe(v, w, init, handle, e);
    var cfg := TwoScopes(v, w, init, handle);
    var m := Message(SubjectFor(e).subject, Envelope(e));
    steps, t := AgreementIsNeeded(cfg, 1, 1, 0, BROADCAST_SUBJECT, m);
  }

  // ---------------------------------------------------------------- exhausted, never terminated

  /** n failed deliveries, each answered with a Nak that arrives. */
  function FailedDeliveries(n: nat): seq<Step> {
    if n == 0 then [] else FailedDeliveries(n - 1) + OneDelivery(0, n, Failed)
  }

  function AfterFailures(n: nat): Cell { if n == 0 then Cell(Undelivered, 0) else AfterAnswer(Failed, n) }

  ghost predicate FailedTimes<S>(s: State<S>, m: Message, n: nat) {
    s == Bound([m], [AfterFailures(n)], s.attempts, {}, s.world, s.applied)
  }

  lemma FailAgain<S>(cfg: Config<S>, s: State<S>, m: Message, n: nat) returns (t: State<S>)
    requires RoutedOnce(cfg, m) && n < MAX_DELIVER - 1 && FailedTimes(s, m, n)
    ensures Run(cfg, s, OneDelivery(0, n + 1, Failed), t) && FailedTimes(t, m, n + 1)
  {
    var cells := [AfterFailures(n)];
    t := DeliveryTakesEffect(cfg, s, [m], cells, 0, Failed);
    assert cells[0 := AfterAnswer(Failed, n + 1)] == [AfterFailures(n + 1)];
  }

  lemma {:induction false} FailedRun<S>(cfg: Config<S>, s: State<S>, m: Message, n: nat) returns (t: State<S>)
    requires RoutedOnce(cfg, m) && n < MAX_DELIVER && FailedTimes(s, m, 0)
    ensures Run(cfg, s, FailedDeliveries(n), t) && FailedTimes(t, m, n)
  {
    if n == 0 {
      t := s;
    } else {
      var before := FailedRun(cfg, s, m, n - 1);
      t := FailAgain(cfg, before, m, n - 1);
      RunConcat(cfg, s, FailedDeliveries(n - 1), before, OneDelivery(0, n, Failed), t);
    }
  }

  function LastDelivery(): seq<Step> { [Deliver(0, 0)] + [Crash(0), Expire(0, 0)] }

  function CrashRun(m: Message): seq<Step> {
    Preparation([m]) + FailedDeliveries(MAX_DELIVER - 1) + LastDelivery()
  }

  /** From the start to an exhausted message: four deliveries fail and are handed back, and the
      instance crashes during the fifth. No attempt ever gave the message up. */
  lemma CrashExhausts<S>(init: S, handle: (S, Event) -> S, m: Message)
    returns (cfg: Config<S>, t: State<S>)
    requires Matches(SUBJECT_ALL, m.subject) && m.body.Envelope?
    ensures Run(cfg, Initial(), CrashRun(m), t) && MetadataReadable(CrashRun(m))
    ensures HasStatus(t, 0, 0, Exhausted) && !AnsweredWith(t, 0, 0, Term)
    ensures Key(0, 0, MAX_DELIVER) in t.attempts && t.attempts[Key(0, 0, MAX_DELIVER)].phase == Lost
  {
    var e := m.body.event;
    cfg := Single(init, handle, [e.kind]);
    RepeatOne(e.kind);
    RoutesOne(cfg.instances[0].log, e, [e.kind]);
    Prepared(cfg, [m]);
    assert Fresh(1) == [AfterFailures(0)];
    var s := FailedRun(cfg, Ready<S>([m]), m, MAX_DELIVER - 1);
    RunConcat(cfg, Initial(), Preparation([m]), Ready<S>([m]), FailedDeliveries(MAX_DELIVER - 1), s);
    var before := Preparation([m]) + FailedDeliveries(MAX_DELIVER - 1);
    RunKeepsInv(cfg, Initial(), before, s);
    t := CrashDuringFifth(cfg, s, m);
    RunConcat(cfg, Initial(), before, s, LastDelivery(), t);
    CrashRunReadable(m);
  }

  lemma CrashDuringFifth<S>(cfg: Config<S>, s: State<S>, m: Message) returns (t: State<S>)
    requires Inv(cfg, s) && m.body.Envelope?
    requires s == Bound([m], [AfterAnswer(Failed, MAX_DELIVER - 1)], s.attempts, {}, s.world, s.applied)
    ensures Run(cfg, s, LastDelivery(), t)
    ensures HasStatus(t, 0, 0, Exhausted) && !AnsweredWith(t, 0, 0, Term)
    ensures Key(0, 0, MAX_DELIVER) in t.attempts && t.attempts[Key(0, 0, MAX_DELIVER)].phase == Lost
  {
    var k := Key(0, 0, MAX_DELIVER);
    OneDeliver(cfg, s, [m], [AfterAnswer(Failed, MAX_DELIVER - 1)], 0);
    var s1 := Do(cfg, s, Deliver(0, 0));
    StepKeepsInv(cfg, s, Deliver(0, 0));
    t := CrashOnLastDelivery(cfg, s1, k);
    assert [Deliver(0, 0)][1..] == [];
    RunConcat(cfg, s, [Deliver(0, 0)], s1, [Crash(0), Expire(0, 0)], t);
  }

  lemma CrashRunReadable(m: Message)
    ensures MetadataReadable(CrashRun(m))
  {
    FailedReadable(MAX_DELIVER - 1);
    assert forall step | step in Publishes([m]) :: step.Publish?;
  }

  lemma {:induction false} FailedReadable(n: nat)
    ensures MetadataReadable(FailedDeliveries(n))
  {
    if n > 0 { FailedReadable(n - 1); }
  }
}
