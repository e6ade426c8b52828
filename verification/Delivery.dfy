/** The delivery protocol (internal/bus Subscribe / Close over a JetStream broker): an append-only
    stream, durables that outlive the instances bound to them, and the attempts made to handle
    each delivery. One value of `State` is the broker together with every instance's memory. */
module Delivery {
  import opened Event
  import opened Routing
  import opened Registry

  // ---------------------------------------------------------------- states

  datatype Message = Message(subject: string, body: Wire)

  /** What the broker keeps for one message on one durable. `due` marks an outstanding message
      that may be delivered again. */
  datatype Status = Unmatched | Undelivered | Outstanding(due: bool) | Acked | Terminated | Exhausted

  datatype Cell = Cell(status: Status, count: nat)

  datatype Holder = Unheld | HeldBy(inst: nat)

  /** Broker state is keyed by durable, not by instance: it survives the holder. */
  datatype Durable = Durable(name: string, filter: string, cells: seq<Cell>, holder: Holder)

  /** The count-th delivery of message `msg` on durable `dur`. */
  datatype Key = Key(dur: nat, msg: nat, count: nat)

  datatype Phase = Running | Answered(verdict: Verdict) | Lost

  /** One delivery in an instance's hands: the outcomes of the targets invoked so far. */
  datatype Attempt = Attempt(inst: nat, outcomes: seq<Outcome>, phase: Phase)

  /** An instance: its scope and its registration log, the same after every restart. */
  datatype Instance = Instance(scope: string, log: seq<Registration>)

  /** A handler's successful effect on its consumer's own state. */
  datatype Config<!S> = Config(
    instances: seq<Instance>,
    init: ConsumerId -> S,
    handle: (ConsumerId, S, Event) -> S)

  /** `mail` holds the answers on their way to the broker; `applied` records for each consumer the
      messages whose effect has reached its state. */
  datatype State<S> = State(
    stream: seq<Message>,
    durables: seq<Durable>,
    attempts: map<Key, Attempt>,
    mail: set<Key>,
    world: map<ConsumerId, S>,
    applied: map<ConsumerId, set<nat>>)

  function Initial<S>(): State<S> { State([], [], map[], {}, map[], map[]) }

  function Current<S>(cfg: Config<S>, world: map<ConsumerId, S>, c: ConsumerId): S {
    if c in world then world[c] else cfg.init(c)
  }

  function AppliedTo(applied: map<ConsumerId, set<nat>>, c: ConsumerId): set<nat> {
    if c in applied then applied[c] else {}
  }

  function NewCell(filter: string, m: Message): Cell {
    Cell(if Matches(filter, m.subject) then Undelivered else Unmatched, 0)
  }

  function TargetsAt<S>(cfg: Config<S>, inst: nat, body: Wire): seq<ConsumerId> {
    if inst < |cfg.instances| && body.Envelope? then Targets(cfg.instances[inst].log, body.event)
    else []
  }

  function TargetsOf<S>(cfg: Config<S>, s: State<S>, k: Key): seq<ConsumerId> {
    if k in s.attempts && k.msg < |s.stream|
    then TargetsAt(cfg, s.attempts[k].inst, s.stream[k.msg].body)
    else []
  }

  // ---------------------------------------------------------------- steps

  datatype Step =
    | Publish(m: Message)
    | Subscribe(inst: nat, subject: string, dur: nat)
    | Deliver(dur: nat, msg: nat)
    | Invoke(key: Key, outcome: Outcome, effect: bool)
    | Finish(key: Key, metaOk: bool)
    | Receive(key: Key)
    | Lose(key: Key)
    | Expire(dur: nat, msg: nat)
    | Close(inst: nat)
    | Crash(inst: nat)

  predicate Deliverable(c: Cell) {
    c.status == Undelivered || (c.status == Outstanding(true) && c.count < MAX_DELIVER)
  }

  predicate HasCell<S>(s: State<S>, d: nat, m: nat) {
    d < |s.durables| && m < |s.durables[d].cells|
  }

  predicate RunningAt<S>(s: State<S>, k: Key) {
    k in s.attempts && s.attempts[k].phase == Running && k.msg < |s.stream|
  }

  /** Subscribing binds the durable of that name if the broker has it, for the same filter and
      not bound by anyone else, and creates it otherwise. */
  predicate CanSubscribe<S>(cfg: Config<S>, s: State<S>, inst: nat, subject: string, d: nat) {
    && inst < |cfg.instances|
    && subject in SubjectsForWorkflow(cfg.instances[inst].scope)
    && d <= |s.durables|
    && (d < |s.durables| ==>
          s.durables[d].name == DurableName(subject) && s.durables[d].filter == subject &&
          s.durables[d].holder == Unheld)
    && (d == |s.durables| ==>
          forall i | 0 <= i < |s.durables| :: s.durables[i].name != DurableName(subject))
  }

  /** The instance is scoped to subscribe to the filter. */
  predicate MayServe<S>(cfg: Config<S>, i: nat, filter: string) {
    i < |cfg.instances| && filter in SubjectsForWorkflow(cfg.instances[i].scope)
  }

  predicate Enabled<S>(cfg: Config<S>, s: State<S>, step: Step) {
    match step
    case Publish(m) => Matches(SUBJECT_ALL, m.subject)
    case Subscribe(inst, subject, d) => CanSubscribe(cfg, s, inst, subject, d)
    case Deliver(d, m) =>
      HasCell(s, d, m) && s.durables[d].holder.HeldBy? && Deliverable(s.durables[d].cells[m])
    case Invoke(k, _, _) =>
      RunningAt(s, k) && |s.attempts[k].outcomes| < |TargetsOf(cfg, s, k)|
    case Finish(k, _) =>
      RunningAt(s, k) && |s.attempts[k].outcomes| == |TargetsOf(cfg, s, k)|
    case Receive(k) => k in s.mail && k in s.attempts && HasCell(s, k.dur, k.msg)
    case Lose(k) => k in s.mail
    case Expire(d, m) => HasCell(s, d, m) && s.durables[d].cells[m].status.Outstanding?
    case Close(inst) => true
    case Crash(inst) => true
  }

  function SetCell(ds: seq<Durable>, d: nat, m: nat, c: Cell): seq<Durable>
    requires d < |ds| && m < |ds[d].cells|
  {
    ds[d := ds[d].(cells := ds[d].cells[m := c])]
  }

  /** No further delivery after the last one: the message is exhausted. */
  function Redue(c: Cell): Cell {
    c.(status := if c.count >= MAX_DELIVER then Exhausted else Outstanding(true))
  }

  /** What an answer, to whichever delivery, does to an outstanding message; nothing changes a
      message that is no longer outstanding. */
  function Answer(c: Cell, v: Verdict): Cell {
    if !c.status.Outstanding? then c
    else match v
      case Ack => c.(status := Acked)
      case Term => c.(status := Terminated)
      case Nak => Redue(c)
  }

  /** The durables once an instance's connection is gone. */
  function Unbound(ds: seq<Durable>, inst: nat): seq<Durable> {
    seq(|ds|, i requires 0 <= i < |ds| =>
      if ds[i].holder == HeldBy(inst) then ds[i].(holder := Unheld) else ds[i])
  }

  function Do<S>(cfg: Config<S>, s: State<S>, step: Step): State<S>
    requires Enabled(cfg, s, step)
  {
    match step
    case Publish(m) =>
      s.(stream := s.stream + [m],
         durables := seq(|s.durables|, i requires 0 <= i < |s.durables| =>
           s.durables[i].(cells := s.durables[i].cells + [NewCell(s.durables[i].filter, m)])))
    case Subscribe(inst, subject, d) =>
      if d < |s.durables| then s.(durables := s.durables[d := s.durables[d].(holder := HeldBy(inst))])
      else s.(durables := s.durables + [Durable(DurableName(subject), subject,
             seq(|s.stream|, i requires 0 <= i < |s.stream| => NewCell(subject, s.stream[i])),
             HeldBy(inst))])
    case Deliver(d, m) =>
      var n := s.durables[d].cells[m].count + 1;
      s.(durables := SetCell(s.durables, d, m, Cell(Outstanding(false), n)),
         attempts := s.attempts[Key(d, m, n) := Attempt(s.durables[d].holder.inst, [], Running)])
    case Invoke(k, outcome, effect) =>
      var a := s.attempts[k];
      var c := TargetsOf(cfg, s, k)[|a.outcomes|];
      var s1 := s.(attempts := s.attempts[k := a.(outcomes := a.outcomes + [outcome])]);
      if outcome == Ok || effect then
        s1.(world := s.world[c := cfg.handle(c, Current(cfg, s.world, c), s.stream[k.msg].body.event)],
            applied := s.applied[c := AppliedTo(s.applied, c) + {k.msg}])
      else s1
    case Finish(k, metaOk) =>
      var a := s.attempts[k];
      var v := Decide(s.stream[k.msg].body, exists o :: o in a.outcomes && o != Ok, metaOk, k.count);
      s.(attempts := s.attempts[k := a.(phase := Answered(v))], mail := s.mail + {k})
    case Receive(k) =>
      var c := s.durables[k.dur].cells[k.msg];
      var c' := match s.attempts[k].phase
        case Answered(v) => Answer(c, v)
        case _ => c;
      s.(durables := SetCell(s.durables, k.dur, k.msg, c'), mail := s.mail - {k})
    case Lose(k) => s.(mail := s.mail - {k})
    case Expire(d, m) =>
      s.(durables := SetCell(s.durables, d, m, Redue(s.durables[d].cells[m])))
    case Close(inst) => s.(durables := Unbound(s.durables, inst))
    case Crash(inst) =>
      s.(durables := Unbound(s.durables, inst),
         attempts := map k | k in s.attempts ::
           if s.attempts[k].inst == inst && s.attempts[k].phase == Running
           then s.attempts[k].(phase := Lost) else s.attempts[k])
  }

  /** `t` is reached from `s` by taking the steps one after the other. */
  ghost predicate Run<S>(cfg: Config<S>, s: State<S>, steps: seq<Step>, t: State<S>)
    decreases |steps|
  {
    if steps == [] then s == t
    else Enabled(cfg, s, steps[0]) && Run(cfg, Do(cfg, s, steps[0]), steps[1..], t)
  }

  lemma {:induction false} RunConcat<S>(cfg: Config<S>, s: State<S>, a: seq<Step>, mid: State<S>, b: seq<Step>,
        t: State<S>)
    requires Run(cfg, s, a, mid) && Run(cfg, mid, b, t)
    ensures Run(cfg, s, a + b, t)
    decreases |a|
  {
    if a == [] {
      assert a + b == b;
    } else {
      assert (a + b)[1..] == a[1..] + b;
      RunConcat(cfg, Do(cfg, s, a[0]), a[1..], mid, b, t);
    }
  }

  ghost predicate Reachable<S>(cfg: Config<S>, s: State<S>) {
    exists steps :: Run(cfg, Initial(), steps, s)
  }

  // ---------------------------------------------------------------- what every step keeps

  predicate AllOk(os: seq<Outcome>) { forall o | o in os :: o == Ok }

  predicate CellOk(filter: string, m: Message, c: Cell) {
    && (c.status == Unmatched <==> !Matches(filter, m.subject))
    && c.count <= MAX_DELIVER
    && (c.status == Unmatched || c.status == Undelivered <==> c.count == 0)
    && (c.status == Exhausted ==> c.count == MAX_DELIVER)
  }

  predicate DurableOk(d: Durable, stream: seq<Message>) {
    && d.name == DurableName(d.filter)
    && |d.cells| == |stream|
    && forall m | 0 <= m < |stream| :: CellOk(d.filter, stream[m], d.cells[m])
  }

  ghost predicate BrokerInv<S>(s: State<S>) {
    && (forall d | 0 <= d < |s.durables| :: DurableOk(s.durables[d], s.stream))
    && (forall d, e | 0 <= d < e < |s.durables| :: s.durables[d].name != s.durables[e].name)
  }

  /** An attempt exists for each delivery counted by the broker, and for no other. */
  ghost predicate KeysInv<S>(s: State<S>) {
    forall k: Key :: k in s.attempts <==>
      HasCell(s, k.dur, k.msg) && 1 <= k.count <= s.durables[k.dur].cells[k.msg].count
  }

  /** An answer tells how the targets fared. */
  predicate AnswerOk(body: Wire, complete: bool, os: seq<Outcome>, v: Verdict, count: nat) {
    && complete
    && (v == Ack <==> body.Envelope? && AllOk(os))
    && (v == Term ==> body.Garbled? || (count == MAX_DELIVER && !AllOk(os)))
    && (body.Garbled? ==> v == Term)
  }

  predicate AttemptOk<S>(cfg: Config<S>, s: State<S>, k: Key)
    requires k in s.attempts && k.msg < |s.stream|
  {
    var a, ts, body := s.attempts[k], TargetsOf(cfg, s, k), s.stream[k.msg].body;
    && a.inst < |cfg.instances|
    && |a.outcomes| <= |ts|
    && (a.phase.Answered? ==> AnswerOk(body, |a.outcomes| == |ts|, a.outcomes, a.phase.verdict, k.count))
  }

  ghost predicate AttemptsInv<S>(cfg: Config<S>, s: State<S>) {
    && (forall d | 0 <= d < |s.durables| ::
          s.durables[d].holder.HeldBy? ==> s.durables[d].holder.inst < |cfg.instances|)
    && (forall k | k in s.attempts :: k.msg < |s.stream| && AttemptOk(cfg, s, k))
    && (forall k | k in s.mail :: k in s.attempts && s.attempts[k].phase.Answered?)
  }

  ghost predicate AnsweredWith<S>(s: State<S>, d: nat, m: nat, v: Verdict) {
    exists k :: k in s.attempts && k.dur == d && k.msg == m && s.attempts[k].phase == Answered(v)
  }

  /** A message is closed by an answer only if some attempt gave that answer. */
  ghost predicate ClosedInv<S>(s: State<S>) {
    forall d: nat, m: nat | HasCell(s, d, m) ::
      && (s.durables[d].cells[m].status == Acked ==> AnsweredWith(s, d, m, Ack))
      && (s.durables[d].cells[m].status == Terminated ==> AnsweredWith(s, d, m, Term))
  }

  ghost predicate Inv<S>(cfg: Config<S>, s: State<S>) {
    BrokerInv(s) && KeysInv(s) && AttemptsInv(cfg, s) && ClosedInv(s)
  }

  // ---------------------------------------------------------------- how one step changes a cell

  /** What a step makes of the cell at (d, m); a cell that is not there yet starts fresh. */
  function NextCell<S>(s: State<S>, step: Step, d: nat, m: nat, unseen: Cell): Cell {
    if !HasCell(s, d, m) then unseen
    else
      var c := s.durables[d].cells[m];
      match step
      case Deliver(d1, m1) =>
        if d1 == d && m1 == m then Cell(Outstanding(false), c.count + 1) else c
      case Expire(d1, m1) => if d1 == d && m1 == m then Redue(c) else c
      case Receive(k) =>
        if k.dur == d && k.msg == m && k in s.attempts && s.attempts[k].phase.Answered?
        then Answer(c, s.attempts[k].phase.verdict) else c
      case _ => c
  }

  ghost predicate Sized<S>(s: State<S>) {
    forall d | 0 <= d < |s.durables| :: |s.durables[d].cells| == |s.stream|
  }

  ghost predicate Shape<S>(s: State<S>, step: Step, t: State<S>) {
    && s.stream <= t.stream && |s.durables| <= |t.durables| && Sized(t)
    && (forall d | 0 <= d < |s.durables| ::
          t.durables[d].name == s.durables[d].name && t.durables[d].filter == s.durables[d].filter)
    && (forall d: nat, m: nat | HasCell(t, d, m) && m < |t.stream| ::
          t.durables[d].cells[m] == NextCell(s, step, d, m, NewCell(t.durables[d].filter, t.stream[m])))
  }

  lemma PublishShape<S>(cfg: Config<S>, s: State<S>, step: Step)
    requires Sized(s) && Enabled(cfg, s, step) && step.Publish?
    ensures Shape(s, step, Do(cfg, s, step))
  {
    assert s.stream <= s.stream + [step.m];
  }

  lemma SubscribeShape<S>(cfg: Config<S>, s: State<S>, step: Step)
    requires Sized(s) && Enabled(cfg, s, step) && step.Subscribe?
    ensures Shape(s, step, Do(cfg, s, step))
  {
  }

  lemma UnbindShape<S>(cfg: Config<S>, s: State<S>, step: Step)
    requires Sized(s) && Enabled(cfg, s, step) && (step.Close? || step.Crash?)
    ensures Shape(s, step, Do(cfg, s, step))
  {
    forall i | 0 <= i < |s.durables|
      ensures Do(cfg, s, step).durables[i].cells == s.durables[i].cells
    {
    }
  }

  lemma SetCellShape<S>(cfg: Config<S>, s: State<S>, step: Step, d: nat, m: nat, c: Cell)
    requires Sized(s) && Enabled(cfg, s, step) && HasCell(s, d, m)
    requires Do(cfg, s, step).durables == SetCell(s.durables, d, m, c)
    requires Do(cfg, s, step).stream == s.stream
    requires forall unseen :: NextCell(s, step, d, m, unseen) == c
    requires forall e: nat, n: nat, unseen | HasCell(s, e, n) && (e != d || n != m) ::
               NextCell(s, step, e, n, unseen) == s.durables[e].cells[n]
    ensures Shape(s, step, Do(cfg, s, step))
  {
  }

  lemma StepShape<S>(cfg: Config<S>, s: State<S>, step: Step)
    requires Sized(s) && Enabled(cfg, s, step)
    ensures Shape(s, step, Do(cfg, s, step))
  {
    match step
    case Publish(_) => PublishShape(cfg, s, step);
    case Subscribe(_, _, _) => SubscribeShape(cfg, s, step);
    case Close(_) => UnbindShape(cfg, s, step);
    case Crash(_) => UnbindShape(cfg, s, step);
    case Deliver(d, m) =>
      SetCellShape(cfg, s, step, d, m, Cell(Outstanding(false), s.durables[d].cells[m].count + 1));
    case Expire(d, m) => SetCellShape(cfg, s, step, d, m, Redue(s.durables[d].cells[m]));
    case Receive(k) =>
      var c := s.durables[k.dur].cells[k.msg];
      SetCellShape(cfg, s, step, k.dur, k.msg,
        if s.attempts[k].phase.Answered? then Answer(c, s.attempts[k].phase.verdict) else c);
    case Invoke(_, _, _) =>
    case Finish(_, _) =>
    case Lose(_) =>
  }

  lemma BrokerKept<S>(cfg: Config<S>, s: State<S>, step: Step)
    requires BrokerInv(s) && Enabled(cfg, s, step)
    ensures BrokerInv(Do(cfg, s, step))
  {
    var t := Do(cfg, s, step);
    StepShape(cfg, s, step);
    forall d | 0 <= d < |t.durables| ensures DurableOk(t.durables[d], t.stream) {
      forall m | 0 <= m < |t.stream| ensures CellOk(t.durables[d].filter, t.stream[m], t.durables[d].cells[m]) {
        assert HasCell(t, d, m);
        if HasCell(s, d, m) { assert DurableOk(s.durables[d], s.stream); }
      }
      if d < |s.durables| { assert DurableOk(s.durables[d], s.stream); }
    }
    NamesKept(cfg, s, step);
  }

  lemma NamesKept<S>(cfg: Config<S>, s: State<S>, step: Step)
    requires BrokerInv(s) && Enabled(cfg, s, step)
    ensures var t := Do(cfg, s, step);
            forall d, e | 0 <= d < e < |t.durables| :: t.durables[d].name != t.durables[e].name
  {
    match step
    case Subscribe(_, _, _) =>
    case _ =>
  }

  // ---------------------------------------------------------------- how one step changes an attempt

  /** What a step makes of an attempt already there. */
  function NextAttempt<S>(s: State<S>, step: Step, k: Key): Attempt
    requires k in s.attempts
  {
    var a := s.attempts[k];
    match step
    case Invoke(k1, o, _) => if k1 == k then a.(outcomes := a.outcomes + [o]) else a
    case Finish(k1, metaOk) =>
      if k1 == k && k.msg < |s.stream| then
        a.(phase := Answered(Decide(s.stream[k.msg].body,
             exists o :: o in a.outcomes && o != Ok, metaOk, k.count)))
      else a
    case Crash(inst) => if a.inst == inst && a.phase == Running then a.(phase := Lost) else a
    case _ => a
  }

  function NewKey<S>(s: State<S>, step: Step): set<Key> {
    match step
    case Deliver(d, m) => if HasCell(s, d, m) then {Key(d, m, s.durables[d].cells[m].count + 1)} else {}
    case _ => {}
  }

  ghost predicate AttemptShape<S>(s: State<S>, step: Step, t: State<S>) {
    && (forall k :: k in t.attempts <==> k in s.attempts || k in NewKey(s, step))
    && (forall k | k in s.attempts && k !in NewKey(s, step) :: t.attempts[k] == NextAttempt(s, step, k))
    && (forall k | k in NewKey(s, step) ::
          k.dur < |s.durables| && s.durables[k.dur].holder.HeldBy? &&
          t.attempts[k] == Attempt(s.durables[k.dur].holder.inst, [], Running))
  }

  lemma StepAttempts<S>(cfg: Config<S>, s: State<S>, step: Step)
    requires Enabled(cfg, s, step)
    ensures AttemptShape(s, step, Do(cfg, s, step))
  {
    match step
    case Crash(_) =>
    case Deliver(_, _) =>
    case _ =>
  }

  lemma CountKept<S>(s: State<S>, step: Step, t: State<S>, d: nat, m: nat)
    requires Sized(s) && Shape(s, step, t) && HasCell(s, d, m)
    ensures HasCell(t, d, m)
    ensures t.durables[d].cells[m].count ==
            s.durables[d].cells[m].count + (if step == Deliver(d, m) then 1 else 0)
  {
    assert |t.durables[d].cells| == |t.stream|;
    var unseen := NewCell(t.durables[d].filter, t.stream[m]);
    assert t.durables[d].cells[m] == NextCell(s, step, d, m, unseen);
    match step
    case Deliver(d1, m1) => assert step == Deliver(d, m) <==> d1 == d && m1 == m;
    case Expire(_, _) => assert step != Deliver(d, m);
    case Receive(_) => assert step != Deliver(d, m);
    case _ =>
  }

  lemma FreshCount<S>(s: State<S>, step: Step, t: State<S>, d: nat, m: nat)
    requires Shape(s, step, t) && !HasCell(s, d, m) && HasCell(t, d, m)
    ensures t.durables[d].cells[m].count == 0
  {
    assert |t.durables[d].cells| == |t.stream|;
  }

  lemma KeyKept<S>(s: State<S>, step: Step, t: State<S>, k: Key)
    requires Sized(s) && Shape(s, step, t) && AttemptShape(s, step, t)
    requires k in s.attempts <==>
             HasCell(s, k.dur, k.msg) && 1 <= k.count <= s.durables[k.dur].cells[k.msg].count
    ensures k in t.attempts <==>
            HasCell(t, k.dur, k.msg) && 1 <= k.count <= t.durables[k.dur].cells[k.msg].count
  {
    if HasCell(s, k.dur, k.msg) {
      CountKept(s, step, t, k.dur, k.msg);
      assert k in NewKey(s, step) <==>
        step == Deliver(k.dur, k.msg) && k.count == s.durables[k.dur].cells[k.msg].count + 1;
    } else if HasCell(t, k.dur, k.msg) {
      FreshCount(s, step, t, k.dur, k.msg);
    }
  }

  lemma KeysKept<S>(s: State<S>, step: Step, t: State<S>)
    requires Sized(s) && KeysInv(s) && Shape(s, step, t) && AttemptShape(s, step, t)
    ensures KeysInv(t)
  {
    forall k: Key
      ensures k in t.attempts <==>
              HasCell(t, k.dur, k.msg) && 1 <= k.count <= t.durables[k.dur].cells[k.msg].count
    {
      KeyKept(s, step, t, k);
    }
  }

  lemma TargetsKept<S>(cfg: Config<S>, s: State<S>, step: Step, t: State<S>, k: Key)
    requires k in s.attempts && k.msg < |s.stream| && s.stream <= t.stream && k in t.attempts
    requires t.attempts[k].inst == s.attempts[k].inst
    ensures TargetsOf(cfg, t, k) == TargetsOf(cfg, s, k) && t.stream[k.msg] == s.stream[k.msg]
  {
  }

  /** Finishing an attempt answers in accordance with what its targets did. */
  lemma FinishAnswers(body: Wire, os: seq<Outcome>, metaOk: bool, count: nat)
    requires count <= MAX_DELIVER
    ensures AnswerOk(body, true, os, Decide(body, exists o :: o in os && o != Ok, metaOk, count), count)
  {
  }

  lemma AttemptKept<S>(cfg: Config<S>, s: State<S>, step: Step, t: State<S>, k: Key)
    requires k in s.attempts && k.msg < |s.stream| && s.stream <= t.stream && k in t.attempts
    requires AttemptOk(cfg, s, k) && k.count <= MAX_DELIVER
    requires t.attempts[k] == NextAttempt(s, step, k) && Enabled(cfg, s, step)
    ensures AttemptOk(cfg, t, k)
  {
    TargetsKept(cfg, s, step, t, k);
    match step
    case Finish(_, metaOk) =>
      FinishAnswers(s.stream[k.msg].body, s.attempts[k].outcomes, metaOk, k.count);
    case _ =>
  }

  lemma AttemptsKept<S>(cfg: Config<S>, s: State<S>, step: Step, t: State<S>)
    requires BrokerInv(s) && KeysInv(s) && AttemptsInv(cfg, s) && Enabled(cfg, s, step)
    requires Shape(s, step, t) && AttemptShape(s, step, t)
    ensures forall k | k in t.attempts :: k.msg < |t.stream| && AttemptOk(cfg, t, k)
  {
    forall k | k in t.attempts ensures k.msg < |t.stream| && AttemptOk(cfg, t, k) {
      if k in NewKey(s, step) {
        assert k.msg < |s.stream|;
      } else {
        assert DurableOk(s.durables[k.dur], s.stream);
        assert CellOk(s.durables[k.dur].filter, s.stream[k.msg], s.durables[k.dur].cells[k.msg]);
        AttemptKept(cfg, s, step, t, k);
      }
    }
  }

  lemma HoldersKept<S>(cfg: Config<S>, s: State<S>, step: Step)
    requires AttemptsInv(cfg, s) && Enabled(cfg, s, step)
    ensures var t := Do(cfg, s, step);
            forall d | 0 <= d < |t.durables| ::
              t.durables[d].holder.HeldBy? ==> t.durables[d].holder.inst < |cfg.instances|
  {
    match step
    case Subscribe(_, _, _) =>
    case _ =>
  }

  lemma MailKept<S>(cfg: Config<S>, s: State<S>, step: Step, t: State<S>)
    requires KeysInv(s) && AttemptsInv(cfg, s) && Enabled(cfg, s, step)
    requires t == Do(cfg, s, step) && AttemptShape(s, step, t)
    ensures forall k | k in t.mail :: k in t.attempts && t.attempts[k].phase.Answered?
  {
    forall k | k in t.mail ensures k in t.attempts && t.attempts[k].phase.Answered? {
      if k in s.mail { AnswerStays(cfg, s, step, t, k); }
    }
  }

  lemma ClosedKept<S>(cfg: Config<S>, s: State<S>, step: Step, t: State<S>)
    requires Inv(cfg, s) && Enabled(cfg, s, step) && Shape(s, step, t) && AttemptShape(s, step, t)
    ensures ClosedInv(t)
  {
    forall d: nat, m: nat | HasCell(t, d, m)
      ensures t.durables[d].cells[m].status == Acked ==> AnsweredWith(t, d, m, Ack)
      ensures t.durables[d].cells[m].status == Terminated ==> AnsweredWith(t, d, m, Term)
    {
      CloseKept(cfg, s, step, t, d, m, Acked, Ack);
      CloseKept(cfg, s, step, t, d, m, Terminated, Term);
    }
  }

  lemma CloseKept<S>(cfg: Config<S>, s: State<S>, step: Step, t: State<S>, d: nat, m: nat, st: Status, v: Verdict)
    requires KeysInv(s) && Sized(s) && Enabled(cfg, s, step) && HasCell(t, d, m)
    requires Shape(s, step, t) && AttemptShape(s, step, t)
    requires (st, v) == (Acked, Ack) || (st, v) == (Terminated, Term)
    requires HasCell(s, d, m) && s.durables[d].cells[m].status == st ==> AnsweredWith(s, d, m, v)
    ensures t.durables[d].cells[m].status == st ==> AnsweredWith(t, d, m, v)
  {
    if t.durables[d].cells[m].status == st {
      if s.durables[d].cells[m].status == st {
        var k :| k in s.attempts && k.dur == d && k.msg == m && s.attempts[k].phase == Answered(v);
        AnswerStays(cfg, s, step, t, k);
      } else {
        AnswerStays(cfg, s, step, t, step.key);
      }
    }
  }

  lemma AnswerStays<S>(cfg: Config<S>, s: State<S>, step: Step, t: State<S>, k: Key)
    requires KeysInv(s) && AttemptShape(s, step, t) && Enabled(cfg, s, step)
    requires k in s.attempts && s.attempts[k].phase.Answered?
    ensures k in t.attempts && t.attempts[k].phase == s.attempts[k].phase
  {
    assert k !in NewKey(s, step);
    match step
    case Finish(_, _) =>
    case _ =>
  }

  // ---------------------------------------------------------------- every reachable state

  lemma StepKeepsInv<S>(cfg: Config<S>, s: State<S>, step: Step)
    requires Inv(cfg, s) && Enabled(cfg, s, step)
    ensures Inv(cfg, Do(cfg, s, step))
    ensures Shape(s, step, Do(cfg, s, step)) && AttemptShape(s, step, Do(cfg, s, step))
  {
    var t := Do(cfg, s, step);
    assert Sized(s) by {
      forall d | 0 <= d < |s.durables| ensures |s.durables[d].cells| == |s.stream| {
        assert DurableOk(s.durables[d], s.stream);
      }
    }
    StepShape(cfg, s, step);
    StepAttempts(cfg, s, step);
    BrokerKept(cfg, s, step);
    KeysKept(s, step, t);
    AttemptsKept(cfg, s, step, t);
    HoldersKept(cfg, s, step);
    MailKept(cfg, s, step, t);
    ClosedKept(cfg, s, step, t);
  }

  lemma {:induction false} RunKeepsInv<S>(cfg: Config<S>, s: State<S>, steps: seq<Step>, t: State<S>)
    requires Inv(cfg, s) && Run(cfg, s, steps, t)
    ensures Inv(cfg, t)
    decreases |steps|
  {
    if steps == [] {
    } else {
      StepKeepsInv(cfg, s, steps[0]);
      RunKeepsInv(cfg, Do(cfg, s, steps[0]), steps[1..], t);
    }
  }

  lemma ReachableInv<S>(cfg: Config<S>, s: State<S>)
    requires Reachable(cfg, s)
    ensures Inv(cfg, s)
  {
    var steps :| Run(cfg, Initial(), steps, s);
    RunKeepsInv(cfg, Initial(), steps, s);
  }
}
