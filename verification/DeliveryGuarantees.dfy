/** What the delivery protocol guarantees over every run: conservation, what an acknowledgement
    means, permanence of closed messages, the invocation bound and the end of redelivery. */
module DeliveryGuarantees {
  import opened Event
  import opened Routing
  import opened Registry
  import opened Delivery

  // ---------------------------------------------------------------- conservation

  predicate Closed(st: Status) { st == Acked || st == Terminated || st == Exhausted }

  lemma CellFacts<S>(cfg: Config<S>, s: State<S>, d: nat, m: nat)
    requires Inv(cfg, s) && d < |s.durables| && m < |s.stream|
    ensures HasCell(s, d, m) && CellOk(s.durables[d].filter, s.stream[m], s.durables[d].cells[m])
  {
    assert DurableOk(s.durables[d], s.stream);
  }

  lemma AnswerFacts<S>(cfg: Config<S>, s: State<S>, d: nat, m: nat, v: Verdict)
    requires Inv(cfg, s) && HasCell(s, d, m) && m < |s.stream| && AnsweredWith(s, d, m, v)
    ensures v == Ack ==> s.stream[m].body.Envelope?
    ensures v == Term && s.stream[m].body.Envelope? ==>
              Key(d, m, MAX_DELIVER) in s.attempts &&
              !AllOk(s.attempts[Key(d, m, MAX_DELIVER)].outcomes)
  {
    var k :| k in s.attempts && k.dur == d && k.msg == m && s.attempts[k].phase == Answered(v);
    assert AttemptOk(cfg, s, k);
    assert k == Key(d, m, k.count);
  }

  /** Nothing is silently dropped: on every durable, a matching message is undelivered, or
      outstanding after one to five counted deliveries, or closed for a stated reason. A message
      that decodes is terminated only after five deliveries with a failing target on the last,
      one that does not is never acknowledged, and the broker counts exactly the attempts made. */
  lemma Conservation<S>(cfg: Config<S>, s: State<S>, d: nat, m: nat)
    requires Reachable(cfg, s) && d < |s.durables| && m < |s.stream|
    ensures HasCell(s, d, m)
    ensures var c, body := s.durables[d].cells[m], s.stream[m].body;
            && (c.status == Unmatched <==> !Matches(s.durables[d].filter, s.stream[m].subject))
            && (c.status == Undelivered ==> c.count == 0)
            && (c.status.Outstanding? ==> 1 <= c.count <= 5)
            && (forall n: nat :: Key(d, m, n) in s.attempts <==> 1 <= n <= c.count)
            && (c.status == Terminated && body.Envelope? ==>
                  c.count == 5 && !AllOk(s.attempts[Key(d, m, 5)].outcomes))
            && (c.status == Acked ==> body.Envelope?)
            && (c.status == Exhausted ==> c.count == 5)
  {
    ReachableInv(cfg, s);
    CellFacts(cfg, s, d, m);
    var c := s.durables[d].cells[m];
    if c.status == Terminated { AnswerFacts(cfg, s, d, m, Term); }
    if c.status == Acked { AnswerFacts(cfg, s, d, m, Ack); }
  }

  /** An acknowledged message had a delivery that decoded and on which every target of the
      instance in charge returned without error or panic. */
  lemma AckedWasHandled<S>(cfg: Config<S>, s: State<S>, d: nat, m: nat)
    requires Reachable(cfg, s) && HasCell(s, d, m) && s.durables[d].cells[m].status == Acked
    ensures m < |s.stream| && s.stream[m].body.Envelope?
    ensures exists k :: k in s.attempts && k.dur == d && k.msg == m &&
              s.attempts[k].inst < |cfg.instances| &&
              |s.attempts[k].outcomes| ==
                |Targets(cfg.instances[s.attempts[k].inst].log, s.stream[m].body.event)| &&
              AllOk(s.attempts[k].outcomes)
  {
    ReachableInv(cfg, s);
    var k :| k in s.attempts && k.dur == d && k.msg == m && s.attempts[k].phase == Answered(Ack);
    assert AttemptOk(cfg, s, k);
  }

  // ---------------------------------------------------------------- giving up is explicit

  /** Every finished callback could read its delivery count. */
  predicate MetadataReadable(steps: seq<Step>) {
    forall step | step in steps :: step.Finish? ==> step.metaOk
  }

  ghost predicate NaksAreEarly<S>(s: State<S>) {
    forall k | k in s.attempts && s.attempts[k].phase == Answered(Nak) :: k.count < MAX_DELIVER
  }

  lemma {:induction false} NaksStayEarly<S>(cfg: Config<S>, s: State<S>, steps: seq<Step>, t: State<S>)
    requires Run(cfg, s, steps, t) && NaksAreEarly(s) && MetadataReadable(steps)
    ensures NaksAreEarly(t)
    decreases |steps|
  {
    if steps == [] {
    } else {
      var step := steps[0];
      StepAttempts(cfg, s, step);
      assert step in steps && forall x | x in steps[1..] :: x in steps;
      NaksStayEarly(cfg, Do(cfg, s, step), steps[1..], t);
    }
  }

  // ---------------------------------------------------------------- closed for good

  lemma ClosedStep<S>(cfg: Config<S>, s: State<S>, step: Step, d: nat, m: nat)
    requires Inv(cfg, s) && Enabled(cfg, s, step)
    requires HasCell(s, d, m) && Closed(s.durables[d].cells[m].status)
    ensures step != Deliver(d, m)
    ensures HasCell(Do(cfg, s, step), d, m)
    ensures Do(cfg, s, step).durables[d].cells[m] == s.durables[d].cells[m]
  {
    var t := Do(cfg, s, step);
    StepKeepsInv(cfg, s, step);
    assert DurableOk(s.durables[d], s.stream);
    CountKept(s, step, t, d, m);
    assert t.durables[d].cells[m] == NextCell(s, step, d, m, NewCell(t.durables[d].filter, t.stream[m]));
  }

  /** A closed message stays as it is through crashes and restarts, and is never delivered again;
      in particular the acknowledged messages only grow. */
  lemma {:induction false} ClosedForever<S>(cfg: Config<S>, s: State<S>, steps: seq<Step>, t: State<S>, d: nat, m: nat)
    requires Inv(cfg, s) && Run(cfg, s, steps, t)
    requires HasCell(s, d, m) && Closed(s.durables[d].cells[m].status)
    ensures Deliver(d, m) !in steps
    ensures HasCell(t, d, m) && t.durables[d].cells[m] == s.durables[d].cells[m]
    decreases |steps|
  {
    if steps == [] {
    } else {
      ClosedStep(cfg, s, steps[0], d, m);
      StepKeepsInv(cfg, s, steps[0]);
      ClosedForever(cfg, Do(cfg, s, steps[0]), steps[1..], t, d, m);
      assert steps == [steps[0]] + steps[1..];
    }
  }

  // ---------------------------------------------------------------- how a message is closed

  predicate HasStatus<S>(s: State<S>, d: nat, m: nat, st: Status) {
    HasCell(s, d, m) && s.durables[d].cells[m].status == st
  }

  predicate IsOutstanding<S>(s: State<S>, d: nat, m: nat) {
    HasCell(s, d, m) && s.durables[d].cells[m].status.Outstanding?
  }

  /** An answer reaches the broker while its message is outstanding. */
  predicate InTime<S>(s: State<S>, step: Step, k: Key) {
    step == Receive(k) && k in s.attempts && IsOutstanding(s, k.dur, k.msg)
  }

  predicate Closes<S>(s: State<S>, step: Step, d: nat, m: nat, v: Verdict) {
    step.Receive? && InTime(s, step, step.key) && step.key.dur == d && step.key.msg == m &&
    s.attempts[step.key].phase == Answered(v)
  }

  /** The ack wait of the fifth delivery runs out. */
  predicate TimesOut<S>(s: State<S>, step: Step, d: nat, m: nat) {
    step == Expire(d, m) && IsOutstanding(s, d, m) && s.durables[d].cells[m].count == MAX_DELIVER
  }

  /** A Nak reaches the broker while the fifth delivery is outstanding. */
  predicate NakOnLast<S>(s: State<S>, step: Step, d: nat, m: nat) {
    Closes(s, step, d, m, Nak) && s.durables[d].cells[m].count == MAX_DELIVER
  }

  /** The broker gives up on the message. */
  predicate GivesUp<S>(s: State<S>, step: Step, d: nat, m: nat) {
    TimesOut(s, step, d, m) || NakOnLast(s, step, d, m)
  }

  ghost predicate ClosedBy<S>(cfg: Config<S>, s: State<S>, steps: seq<Step>, d: nat, m: nat, v: Verdict)
    decreases |steps|
  {
    steps != [] && Enabled(cfg, s, steps[0]) &&
    (Closes(s, steps[0], d, m, v) || ClosedBy(cfg, Do(cfg, s, steps[0]), steps[1..], d, m, v))
  }

  ghost predicate GaveUp<S>(cfg: Config<S>, s: State<S>, steps: seq<Step>, d: nat, m: nat)
    decreases |steps|
  {
    steps != [] && Enabled(cfg, s, steps[0]) &&
    (GivesUp(s, steps[0], d, m) || GaveUp(cfg, Do(cfg, s, steps[0]), steps[1..], d, m))
  }

  ghost predicate ReceivedInTime<S>(cfg: Config<S>, s: State<S>, steps: seq<Step>, k: Key)
    decreases |steps|
  {
    steps != [] && Enabled(cfg, s, steps[0]) &&
    (InTime(s, steps[0], k) || ReceivedInTime(cfg, Do(cfg, s, steps[0]), steps[1..], k))
  }

  lemma StatusStepBy<S>(s: State<S>, step: Step, t: State<S>, d: nat, m: nat, c: Cell)
    requires HasCell(s, d, m) && c == s.durables[d].cells[m] && c.count <= MAX_DELIVER
    requires HasCell(t, d, m) && t.durables[d].cells[m] == NextCell(s, step, d, m, c)
    requires step == Deliver(d, m) ==> !Closed(c.status)
    requires step == Expire(d, m) ==> c.status.Outstanding?
    ensures HasStatus(t, d, m, Acked) <==> c.status == Acked || Closes(s, step, d, m, Ack)
    ensures HasStatus(t, d, m, Terminated) <==> c.status == Terminated || Closes(s, step, d, m, Term)
    ensures HasStatus(t, d, m, Exhausted) <==> c.status == Exhausted || GivesUp(s, step, d, m)
  {
    match step
    case Receive(k) =>
    case Expire(_, _) =>
    case _ =>
  }

  ghost predicate StatusMoves<S>(s: State<S>, step: Step, t: State<S>, d: nat, m: nat) {
    && (HasStatus(t, d, m, Acked) <==> HasStatus(s, d, m, Acked) || Closes(s, step, d, m, Ack))
    && (HasStatus(t, d, m, Terminated) <==> HasStatus(s, d, m, Terminated) || Closes(s, step, d, m, Term))
    && (HasStatus(t, d, m, Exhausted) <==> HasStatus(s, d, m, Exhausted) || GivesUp(s, step, d, m))
  }

  lemma StatusShape<S>(cfg: Config<S>, s: State<S>, step: Step, t: State<S>, d: nat, m: nat)
    requires Enabled(cfg, s, step) && Sized(s) && Shape(s, step, t)
    requires HasCell(s, d, m) ==> s.durables[d].cells[m].count <= MAX_DELIVER
    ensures StatusMoves(s, step, t, d, m)
  {
    if HasCell(s, d, m) {
      CountKept(s, step, t, d, m);
      assert HasCell(t, d, m) && m < |t.stream|;
      StatusStepBy(s, step, t, d, m, s.durables[d].cells[m]);
    }
  }

  lemma StatusStep<S>(cfg: Config<S>, s: State<S>, step: Step, d: nat, m: nat)
    requires Inv(cfg, s) && Enabled(cfg, s, step)
    ensures StatusMoves(s, step, Do(cfg, s, step), d, m)
  {
    StepKeepsInv(cfg, s, step);
    InvSized(cfg, s);
    StatusShape(cfg, s, step, Do(cfg, s, step), d, m);
  }

  lemma InvSized<S>(cfg: Config<S>, s: State<S>)
    requires Inv(cfg, s)
    ensures Sized(s)
    ensures forall d: nat, m: nat | HasCell(s, d, m) :: s.durables[d].cells[m].count <= MAX_DELIVER
  {
    forall d | 0 <= d < |s.durables| ensures |s.durables[d].cells| == |s.stream| {
      assert DurableOk(s.durables[d], s.stream);
    }
    forall d: nat, m: nat | HasCell(s, d, m) ensures s.durables[d].cells[m].count <= MAX_DELIVER {
      CellFacts(cfg, s, d, m);
    }
  }

  /** What closed a message: a final answer that came in time, or else the end of its fifth delivery,
      when the ack wait runs out or a Nak arrives. */
  lemma {:induction false} RunStatus<S>(cfg: Config<S>, s: State<S>, steps: seq<Step>, t: State<S>, d: nat, m: nat)
    requires Inv(cfg, s) && Run(cfg, s, steps, t)
    ensures HasStatus(t, d, m, Acked) <==> HasStatus(s, d, m, Acked) || ClosedBy(cfg, s, steps, d, m, Ack)
    ensures HasStatus(t, d, m, Terminated) <==>
            HasStatus(s, d, m, Terminated) || ClosedBy(cfg, s, steps, d, m, Term)
    ensures HasStatus(t, d, m, Exhausted) <==> HasStatus(s, d, m, Exhausted) || GaveUp(cfg, s, steps, d, m)
    decreases |steps|
  {
    if steps == [] {
    } else {
      StatusStep(cfg, s, steps[0], d, m);
      StepKeepsInv(cfg, s, steps[0]);
      RunStatus(cfg, Do(cfg, s, steps[0]), steps[1..], t, d, m);
    }
  }

  lemma EarlyStep<S>(cfg: Config<S>, s: State<S>, steps: seq<Step>)
    requires steps != [] && Enabled(cfg, s, steps[0]) && NaksAreEarly(s) && MetadataReadable(steps)
    ensures NaksAreEarly(Do(cfg, s, steps[0])) && MetadataReadable(steps[1..])
  {
    assert [steps[0]][1..] == [] && steps[0] in steps && forall x | x in steps[1..] :: x in steps;
    NaksStayEarly(cfg, s, [steps[0]], Do(cfg, s, steps[0]));
  }

  lemma {:induction false} AnswerKept<S>(cfg: Config<S>, s: State<S>, steps: seq<Step>, t: State<S>, k: Key)
    requires Inv(cfg, s) && Run(cfg, s, steps, t) && k in s.attempts && s.attempts[k].phase.Answered?
    ensures k in t.attempts && t.attempts[k].phase == s.attempts[k].phase
    decreases |steps|
  {
    if steps == [] {
    } else {
      StepKeepsInv(cfg, s, steps[0]);
      AnswerStays(cfg, s, steps[0], Do(cfg, s, steps[0]), k);
      AnswerKept(cfg, Do(cfg, s, steps[0]), steps[1..], t, k);
    }
  }

  lemma {:induction false} FifthReceivedCloses<S>(cfg: Config<S>, s: State<S>, steps: seq<Step>, t: State<S>, k: Key)
    requires Inv(cfg, s) && Run(cfg, s, steps, t) && NaksAreEarly(s) && MetadataReadable(steps)
    requires k.count == MAX_DELIVER && ReceivedInTime(cfg, s, steps, k)
    ensures k in t.attempts && t.attempts[k].phase.Answered? && t.attempts[k].phase.verdict != Nak
    ensures ClosedBy(cfg, s, steps, k.dur, k.msg, t.attempts[k].phase.verdict)
    decreases |steps|
  {
    if InTime(s, steps[0], k) {
      AnswerKept(cfg, s, steps, t, k);
      assert Closes(s, steps[0], k.dur, k.msg, s.attempts[k].phase.verdict);
    } else {
      StepKeepsInv(cfg, s, steps[0]);
      EarlyStep(cfg, s, steps);
      FifthReceivedCloses(cfg, Do(cfg, s, steps[0]), steps[1..], t, k);
    }
  }

  /** The fifth delivery of an event is never handed back for more: its callback acknowledges it if
      every target succeeded and terminates it otherwise. An answer that comes in time closes the
      message accordingly; the message is exhausted iff first the ack wait ran out or a Nak of an
      earlier delivery arrived, and then the fifth attempt is unfinished, lost in a crash, or
      answered but not heard in time. */
  lemma LastDeliveryDecides<S>(cfg: Config<S>, steps: seq<Step>, t: State<S>, k: Key)
    requires Run(cfg, Initial(), steps, t) && MetadataReadable(steps)
    requires k in t.attempts && k.count == 5
    ensures k.msg < |t.stream| && HasCell(t, k.dur, k.msg)
    ensures t.attempts[k].phase.Answered? ==>
              t.attempts[k].phase.verdict ==
              if t.stream[k.msg].body.Envelope? && AllOk(t.attempts[k].outcomes) then Ack else Term
    ensures ReceivedInTime(cfg, Initial(), steps, k) ==>
              t.attempts[k].phase.Answered? &&
              HasStatus(t, k.dur, k.msg, if t.attempts[k].phase.verdict == Ack then Acked else Terminated)
    ensures HasStatus(t, k.dur, k.msg, Exhausted) <==> GaveUp(cfg, Initial(), steps, k.dur, k.msg)
    ensures HasStatus(t, k.dur, k.msg, Exhausted) ==> !ReceivedInTime(cfg, Initial(), steps, k)
  {
    RunKeepsInv(cfg, Initial(), steps, t);
    NaksStayEarly(cfg, Initial(), steps, t);
    FifthAnswer(cfg, t, k);
    RunStatus(cfg, Initial(), steps, t, k.dur, k.msg);
    if ReceivedInTime(cfg, Initial(), steps, k) { FifthReceivedCloses(cfg, Initial(), steps, t, k); }
  }

  lemma FifthAnswer<S>(cfg: Config<S>, t: State<S>, k: Key)
    requires Inv(cfg, t) && NaksAreEarly(t) && k in t.attempts && k.count == MAX_DELIVER
    ensures k.msg < |t.stream| && HasCell(t, k.dur, k.msg)
    ensures t.attempts[k].phase.Answered? ==>
              t.attempts[k].phase.verdict ==
              if t.stream[k.msg].body.Envelope? && AllOk(t.attempts[k].outcomes) then Ack else Term
  {
    KeyBounds(cfg, t, k);
    assert AttemptOk(cfg, t, k);
  }

  // ---------------------------------------------------------------- redelivery ends

  /** The deliveries a cell may still see. */
  function Left(c: Cell): nat {
    if Closed(c.status) || c.status == Unmatched || c.count >= MAX_DELIVER then 0
    else MAX_DELIVER - c.count
  }

  function CellsLeft(cells: seq<Cell>): nat {
    if cells == [] then 0 else Left(cells[0]) + CellsLeft(cells[1..])
  }

  function Budget(ds: seq<Durable>): nat {
    if ds == [] then 0 else CellsLeft(ds[0].cells) + Budget(ds[1..])
  }

  lemma {:induction false} CellsLeftUpdate(cells: seq<Cell>, m: nat, c: Cell)
    requires m < |cells|
    ensures CellsLeft(cells[m := c]) == CellsLeft(cells) - Left(cells[m]) + Left(c)
  {
    if m == 0 {
      assert cells[0 := c][1..] == cells[1..];
    } else {
      CellsLeftUpdate(cells[1..], m - 1, c);
      assert cells[m := c][1..] == cells[1..][m - 1 := c];
    }
  }

  lemma {:induction false} BudgetUpdate(ds: seq<Durable>, d: nat, x: Durable)
    requires d < |ds|
    ensures Budget(ds[d := x]) == Budget(ds) - CellsLeft(ds[d].cells) + CellsLeft(x.cells)
  {
    if d == 0 {
      assert ds[0 := x][1..] == ds[1..];
    } else {
      BudgetUpdate(ds[1..], d - 1, x);
      assert ds[d := x][1..] == ds[1..][d - 1 := x];
    }
  }

  lemma BudgetSetCell(ds: seq<Durable>, d: nat, m: nat, c: Cell)
    requires d < |ds| && m < |ds[d].cells|
    ensures Budget(SetCell(ds, d, m, c)) == Budget(ds) - Left(ds[d].cells[m]) + Left(c)
  {
    CellsLeftUpdate(ds[d].cells, m, c);
    BudgetUpdate(ds, d, ds[d].(cells := ds[d].cells[m := c]));
  }

  lemma {:induction false} BudgetSame(ds: seq<Durable>, es: seq<Durable>)
    requires |ds| == |es| && forall i | 0 <= i < |ds| :: ds[i].cells == es[i].cells
    ensures Budget(ds) == Budget(es)
  {
    if ds == [] {
    } else {
      BudgetSame(ds[1..], es[1..]);
    }
  }

  /** Steps that leave the stream and the set of durables alone. */
  predicate Settled<S>(s: State<S>, step: Step) {
    !step.Publish? && (step.Subscribe? ==> step.dur < |s.durables|)
  }

  lemma BudgetAnswer(ds: seq<Durable>, d: nat, m: nat, c: Cell)
    requires d < |ds| && m < |ds[d].cells| && Left(c) <= Left(ds[d].cells[m])
    ensures Budget(SetCell(ds, d, m, c)) <= Budget(ds)
  {
    BudgetSetCell(ds, d, m, c);
  }

  lemma BudgetDeliver<S>(cfg: Config<S>, s: State<S>, d: nat, m: nat)
    requires Inv(cfg, s) && Enabled(cfg, s, Deliver(d, m))
    ensures Budget(Do(cfg, s, Deliver(d, m)).durables) + 1 <= Budget(s.durables)
  {
    InvSized(cfg, s);
    BudgetSetCell(s.durables, d, m, Cell(Outstanding(false), s.durables[d].cells[m].count + 1));
  }

  lemma BudgetHolders<S>(cfg: Config<S>, s: State<S>, step: Step)
    requires Enabled(cfg, s, step) && Settled(s, step) && (step.Subscribe? || step.Close? || step.Crash?)
    ensures Budget(Do(cfg, s, step).durables) == Budget(s.durables)
  {
    BudgetSame(s.durables, Do(cfg, s, step).durables);
  }

  lemma BudgetReceive<S>(cfg: Config<S>, s: State<S>, k: Key)
    requires Enabled(cfg, s, Receive(k))
    ensures Budget(Do(cfg, s, Receive(k)).durables) <= Budget(s.durables)
  {
    var c := s.durables[k.dur].cells[k.msg];
    BudgetAnswer(s.durables, k.dur, k.msg,
      if s.attempts[k].phase.Answered? then Answer(c, s.attempts[k].phase.verdict) else c);
  }

  lemma BudgetExpire<S>(cfg: Config<S>, s: State<S>, d: nat, m: nat)
    requires Enabled(cfg, s, Expire(d, m))
    ensures Budget(Do(cfg, s, Expire(d, m)).durables) <= Budget(s.durables)
  {
    BudgetAnswer(s.durables, d, m, Redue(s.durables[d].cells[m]));
  }

  lemma DurablesUntouched<S>(cfg: Config<S>, s: State<S>, step: Step)
    requires Enabled(cfg, s, step) && (step.Invoke? || step.Finish? || step.Lose?)
    ensures Do(cfg, s, step).durables == s.durables
  {
  }

  /** Every delivery uses up the budget, and no other settled step adds to it. */
  lemma BudgetStep<S>(cfg: Config<S>, s: State<S>, step: Step)
    requires Inv(cfg, s) && Enabled(cfg, s, step) && Settled(s, step)
    ensures Budget(Do(cfg, s, step).durables) + (if step.Deliver? then 1 else 0) <= Budget(s.durables)
  {
    match step
    case Subscribe(_, _, _) => BudgetHolders(cfg, s, step);
    case Close(_) => BudgetHolders(cfg, s, step);
    case Crash(_) => BudgetHolders(cfg, s, step);
    case Deliver(d, m) => BudgetDeliver(cfg, s, d, m);
    case Receive(k) => BudgetReceive(cfg, s, k);
    case Expire(d, m) => BudgetExpire(cfg, s, d, m);
    case _ => DurablesUntouched(cfg, s, step);
  }

  ghost predicate SettledRun<S>(cfg: Config<S>, s: State<S>, steps: seq<Step>)
    decreases |steps|
  {
    steps == [] ||
    (Settled(s, steps[0]) && Enabled(cfg, s, steps[0]) && SettledRun(cfg, Do(cfg, s, steps[0]), steps[1..]))
  }

  function Deliveries(steps: seq<Step>): nat {
    if steps == [] then 0 else (if steps[0].Deliver? then 1 else 0) + Deliveries(steps[1..])
  }

  /** For a fixed stream and set of durables deliveries stop: a run, crashes and restarts
      included, holds no more of them than the budget it starts with. */
  lemma {:induction false} DeliveriesEnd<S>(cfg: Config<S>, s: State<S>, steps: seq<Step>, t: State<S>)
    requires Inv(cfg, s) && Run(cfg, s, steps, t) && SettledRun(cfg, s, steps)
    ensures Deliveries(steps) + Budget(t.durables) <= Budget(s.durables)
    decreases |steps|
  {
    if steps == [] {
    } else {
      BudgetStep(cfg, s, steps[0]);
      StepKeepsInv(cfg, s, steps[0]);
      DeliveriesEnd(cfg, Do(cfg, s, steps[0]), steps[1..], t);
    }
  }

  // ---------------------------------------------------------------- the invocation bound

  /** Consumer c as the next target of attempt k. */
  predicate Invokes<S>(cfg: Config<S>, s: State<S>, step: Step, c: ConsumerId, d: nat, m: nat) {
    step.Invoke? && step.key.dur == d && step.key.msg == m && Enabled(cfg, s, step) &&
    TargetsOf(cfg, s, step.key)[|s.attempts[step.key].outcomes|] == c
  }

  /** How often a run invokes c for message m on durable d. */
  function Invocations<S>(cfg: Config<S>, s: State<S>, steps: seq<Step>, c: ConsumerId, d: nat, m: nat): nat
    decreases |steps|
  {
    if steps == [] || !Enabled(cfg, s, steps[0]) then 0
    else (if Invokes(cfg, s, steps[0], c, d, m) then 1 else 0) +
         Invocations(cfg, Do(cfg, s, steps[0]), steps[1..], c, d, m)
  }

  function Done<S>(cfg: Config<S>, s: State<S>, c: ConsumerId, k: Key): nat {
    if k in s.attempts && |s.attempts[k].outcomes| <= |TargetsOf(cfg, s, k)|
    then multiset(TargetsOf(cfg, s, k)[..|s.attempts[k].outcomes|])[c]
    else 0
  }

  /** The invocations recorded by the first n attempts. */
  function DoneUpTo<S>(cfg: Config<S>, s: State<S>, c: ConsumerId, d: nat, m: nat, n: nat): nat {
    if n == 0 then 0 else Done(cfg, s, c, Key(d, m, n)) + DoneUpTo(cfg, s, c, d, m, n - 1)
  }

  lemma DoneStep<S>(cfg: Config<S>, s: State<S>, step: Step, c: ConsumerId, k: Key)
    requires Inv(cfg, s) && Enabled(cfg, s, step)
    ensures Done(cfg, Do(cfg, s, step), c, k) ==
            Done(cfg, s, c, k) +
            (if Invokes(cfg, s, step, c, k.dur, k.msg) && step.key == k then 1 else 0)
  {
    var t := Do(cfg, s, step);
    StepKeepsInv(cfg, s, step);
    if k in s.attempts {
      assert AttemptOk(cfg, s, k);
      assert t.attempts[k] == NextAttempt(s, step, k);
      DoneStepAt(cfg, s, step, t, c, k);
    }
  }

  lemma DoneStepAt<S>(cfg: Config<S>, s: State<S>, step: Step, t: State<S>, c: ConsumerId, k: Key)
    requires k in s.attempts && k.msg < |s.stream| && s.stream <= t.stream && k in t.attempts
    requires AttemptOk(cfg, s, k) && Enabled(cfg, s, step) && t.attempts[k] == NextAttempt(s, step, k)
    ensures Done(cfg, t, c, k) ==
            Done(cfg, s, c, k) +
            (if Invokes(cfg, s, step, c, k.dur, k.msg) && step.key == k then 1 else 0)
  {
    TargetsKept(cfg, s, step, t, k);
    var ts, n := TargetsOf(cfg, s, k), |s.attempts[k].outcomes|;
    if step.Invoke? && step.key == k { assert ts[..n + 1] == ts[..n] + [ts[n]]; }
  }

  lemma {:induction false} DoneUpToStep<S>(cfg: Config<S>, s: State<S>, step: Step, c: ConsumerId, d: nat, m: nat,
        n: nat)
    requires Inv(cfg, s) && Enabled(cfg, s, step)
    ensures DoneUpTo(cfg, Do(cfg, s, step), c, d, m, n) ==
            DoneUpTo(cfg, s, c, d, m, n) +
            (if Invokes(cfg, s, step, c, d, m) && 1 <= step.key.count <= n then 1 else 0)
  {
    if n == 0 {
    } else {
      DoneStep(cfg, s, step, c, Key(d, m, n));
      DoneUpToStep(cfg, s, step, c, d, m, n - 1);
    }
  }

  /** Every invocation of a run is recorded by one of the five possible attempts. */
  lemma {:induction false} InvocationsRecorded<S>(cfg: Config<S>, s: State<S>, steps: seq<Step>, t: State<S>,
        c: ConsumerId, d: nat, m: nat)
    requires Inv(cfg, s) && Run(cfg, s, steps, t)
    ensures DoneUpTo(cfg, t, c, d, m, MAX_DELIVER) ==
            DoneUpTo(cfg, s, c, d, m, MAX_DELIVER) + Invocations(cfg, s, steps, c, d, m)
    decreases |steps|
  {
    if steps == [] {
    } else {
      var step := steps[0];
      StepKeepsInv(cfg, s, step);
      DoneUpToStep(cfg, s, step, c, d, m, MAX_DELIVER);
      if step.Invoke? { KeyBounds(cfg, s, step.key); }
      InvocationsRecorded(cfg, Do(cfg, s, step), steps[1..], t, c, d, m);
    }
  }

  lemma KeyBounds<S>(cfg: Config<S>, s: State<S>, k: Key)
    requires Inv(cfg, s) && k in s.attempts
    ensures HasCell(s, k.dur, k.msg) && 1 <= k.count <= MAX_DELIVER
    ensures Matches(s.durables[k.dur].filter, s.stream[k.msg].subject)
  {
    assert DurableOk(s.durables[k.dur], s.stream);
    assert CellOk(s.durables[k.dur].filter, s.stream[k.msg], s.durables[k.dur].cells[k.msg]);
  }

  /** A bound on how often c occurs in the target list of a message, whichever instance runs it. */
  ghost predicate OccursAtMost<S>(cfg: Config<S>, body: Wire, c: ConsumerId, mult: nat) {
    forall i: nat :: multiset(TargetsAt(cfg, i, body))[c] <= mult
  }

  lemma {:induction false} DoneBound<S>(cfg: Config<S>, s: State<S>, c: ConsumerId, d: nat, m: nat, n: nat, mult: nat)
    requires Inv(cfg, s) && m < |s.stream| && OccursAtMost(cfg, s.stream[m].body, c, mult)
    ensures DoneUpTo(cfg, s, c, d, m, n) <= n * mult
  {
    if n == 0 {
    } else {
      DoneBound(cfg, s, c, d, m, n - 1, mult);
      var k := Key(d, m, n);
      if k in s.attempts {
        assert AttemptOk(cfg, s, k);
        DoneAtMost(cfg, s, c, k, mult);
      }
      assert (n - 1) * mult + mult == n * mult;
    }
  }

  lemma DoneAtMost<S>(cfg: Config<S>, s: State<S>, c: ConsumerId, k: Key, mult: nat)
    requires k in s.attempts && k.msg < |s.stream| && AttemptOk(cfg, s, k)
    requires OccursAtMost(cfg, s.stream[k.msg].body, c, mult)
    ensures Done(cfg, s, c, k) <= mult
  {
    var ts, i := TargetsOf(cfg, s, k), |s.attempts[k].outcomes|;
    assert ts == ts[..i] + ts[i..];
    assert ts == TargetsAt(cfg, s.attempts[k].inst, s.stream[k.msg].body);
  }

  /** One durable invokes c at most five times per occurrence in the target list, and not at all
      for a message its filter does not match. */
  lemma InvocationBound<S>(cfg: Config<S>, steps: seq<Step>, t: State<S>, c: ConsumerId, d: nat, m: nat, mult: nat)
    requires Run(cfg, Initial(), steps, t) && m < |t.stream|
    requires OccursAtMost(cfg, t.stream[m].body, c, mult)
    ensures Invocations(cfg, Initial(), steps, c, d, m) <=
            if d < |t.durables| && Matches(t.durables[d].filter, t.stream[m].subject)
            then 5 * mult else 0
  {
    RunKeepsInv(cfg, Initial(), steps, t);
    InvocationsRecorded(cfg, Initial(), steps, t, c, d, m);
    DoneNothing<S>(cfg, c, d, m, MAX_DELIVER);
    DoneBound(cfg, t, c, d, m, MAX_DELIVER, mult);
    if !(d < |t.durables| && Matches(t.durables[d].filter, t.stream[m].subject)) {
      DoneUnmatched(cfg, t, c, d, m, MAX_DELIVER);
    }
  }

  lemma {:induction false} DoneNothing<S>(cfg: Config<S>, c: ConsumerId, d: nat, m: nat, n: nat)
    ensures DoneUpTo(cfg, Initial(), c, d, m, n) == 0
  {
    if n > 0 { DoneNothing<S>(cfg, c, d, m, n - 1); }
  }

  lemma {:induction false} DoneUnmatched<S>(cfg: Config<S>, s: State<S>, c: ConsumerId, d: nat, m: nat, n: nat)
    requires Inv(cfg, s) && m < |s.stream|
    requires !(d < |s.durables| && Matches(s.durables[d].filter, s.stream[m].subject))
    ensures DoneUpTo(cfg, s, c, d, m, n) == 0
  {
    if n > 0 {
      DoneUnmatched(cfg, s, c, d, m, n - 1);
      if Key(d, m, n) in s.attempts { KeyBounds(cfg, s, Key(d, m, n)); }
    }
  }

  /** The durable kept for a filter, or one past the last if there is none. */
  function DurableFor(ds: seq<Durable>, filter: string): (d: nat)
    ensures d <= |ds| && (d < |ds| ==> ds[d].filter == filter)
    ensures d == |ds| ==> forall e | 0 <= e < |ds| :: ds[e].filter != filter
  {
    if ds == [] then 0 else if ds[0].filter == filter then 0 else 1 + DurableFor(ds[1..], filter)
  }

  /** There is one durable per filter: restarted instances share it. */
  lemma DurableIsShared<S>(cfg: Config<S>, s: State<S>, d: nat)
    requires Reachable(cfg, s) && d < |s.durables|
    ensures DurableFor(s.durables, s.durables[d].filter) == d
  {
    ReachableInv(cfg, s);
    var e := DurableFor(s.durables, s.durables[d].filter);
    assert DurableOk(s.durables[d], s.stream);
    if e < |s.durables| { assert DurableOk(s.durables[e], s.stream); }
  }

  function MatchCount(filters: seq<string>, subject: string): (n: nat)
    ensures n <= |filters|
  {
    if filters == [] then 0
    else (if Matches(filters[0], subject) then 1 else 0) + MatchCount(filters[1..], subject)
  }

  /** How often a run invokes c for message m on the durables of some filters. */
  function InvocationsOn<S>(cfg: Config<S>, steps: seq<Step>, t: State<S>, c: ConsumerId, m: nat,
        filters: seq<string>): nat
  {
    if filters == [] then 0
    else Invocations(cfg, Initial<S>(), steps, c, DurableFor(t.durables, filters[0]), m) +
         InvocationsOn(cfg, steps, t, c, m, filters[1..])
  }

  lemma {:induction false} InvocationsOnBound<S>(cfg: Config<S>, steps: seq<Step>, t: State<S>, c: ConsumerId,
        m: nat, filters: seq<string>, mult: nat)
    requires Run(cfg, Initial(), steps, t) && m < |t.stream|
    requires OccursAtMost(cfg, t.stream[m].body, c, mult)
    ensures InvocationsOn(cfg, steps, t, c, m, filters) <=
            MAX_DELIVER * MatchCount(filters, t.stream[m].subject) * mult
  {
    if filters == [] {
    } else {
      InvocationsOnBound(cfg, steps, t, c, m, filters[1..], mult);
      InvocationBound(cfg, steps, t, c, DurableFor(t.durables, filters[0]), m, mult);
      OneMore(MatchCount(filters[1..], t.stream[m].subject), mult);
    }
  }

  lemma OneMore(n: nat, mult: nat)
    ensures MAX_DELIVER * (n + 1) * mult == MAX_DELIVER * n * mult + MAX_DELIVER * mult
  {
  }

  /** For an instance of any scope: over a whole run, crashes and restarts included, an event
      invokes consumer c on the instance's durables at most five times per matching subscription
      (none to two of them) and per occurrence of c in the event's target list. */
  lemma ScopedInvocationBound<S>(cfg: Config<S>, steps: seq<Step>, t: State<S>, w: string, c: ConsumerId, m: nat,
        mult: nat)
    requires Run(cfg, Initial(), steps, t) && m < |t.stream|
    requires OccursAtMost(cfg, t.stream[m].body, c, mult)
    ensures InvocationsOn(cfg, steps, t, c, m, SubjectsForWorkflow(w)) <=
            5 * MatchCount(SubjectsForWorkflow(w), t.stream[m].subject) * mult
    ensures MatchCount(SubjectsForWorkflow(w), t.stream[m].subject) <= 2
  {
    InvocationsOnBound(cfg, steps, t, c, m, SubjectsForWorkflow(w), mult);
  }

  /** Every instance runs the same binary with the same registrations. */
  ghost predicate OneRegistry<S>(cfg: Config<S>, log: seq<Registration>) {
    forall i | 0 <= i < |cfg.instances| :: cfg.instances[i].log == log
  }

  /** With one set of registrations the bound is five times the matching subscriptions times the
      number of times c declared the event's type or, for a broadcast, was registered. */
  lemma RegisteredInvocationBound<S>(cfg: Config<S>, steps: seq<Step>, t: State<S>, w: string, c: ConsumerId,
        m: nat, log: seq<Registration>)
    requires Run(cfg, Initial(), steps, t) && m < |t.stream| && t.stream[m].body.Envelope?
    requires OneRegistry(cfg, log)
    ensures var e := t.stream[m].body.event;
            InvocationsOn(cfg, steps, t, c, m, SubjectsForWorkflow(w)) <=
            5 * MatchCount(SubjectsForWorkflow(w), t.stream[m].subject) *
              (if e.kind == BROADCAST_TYPE then Registered(log, c) else Declared(log, c, e.kind))
  {
    var e := t.stream[m].body.event;
    TargetMultiplicity(log, e, c);
    ScopedInvocationBound(cfg, steps, t, w, c, m, multiset(Targets(log, e))[c]);
  }

  lemma RunTwo<S>(cfg: Config<S>, s: State<S>, a: Step, b: Step)
    requires Enabled(cfg, s, a) && Enabled(cfg, Do(cfg, s, a), b)
    ensures Run(cfg, s, [a, b], Do(cfg, Do(cfg, s, a), b))
  {
    assert [a, b][1..] == [b] && [b][1..] == [];
  }

  lemma RunThree<S>(cfg: Config<S>, s: State<S>, a: Step, b: Step, c: Step)
    requires Enabled(cfg, s, a) && Enabled(cfg, Do(cfg, s, a), b)
    requires Enabled(cfg, Do(cfg, Do(cfg, s, a), b), c)
    ensures Run(cfg, s, [a, b, c], Do(cfg, Do(cfg, Do(cfg, s, a), b), c))
  {
    assert [a, b, c][1..] == [b, c];
    RunTwo(cfg, Do(cfg, s, a), b, c);
  }

  // ---------------------------------------------------------------- the callback as a run

  function CallbackSteps(k: Key, outcomes: seq<Outcome>, metaOk: bool): seq<Step> {
    if outcomes == [] then [Finish(k, metaOk)]
    else [Invoke(k, outcomes[0], false)] + CallbackSteps(k, outcomes[1..], metaOk)
  }

  /** The Subscribe callback's whole behaviour on a delivery, its targets ending as given, is a run
      of the protocol: it records those outcomes in order and sends the verdict it decides, and it
      touches no other consumer. */
  lemma {:induction false} CallbackIsRun<S>(cfg: Config<S>, s: State<S>, k: Key, rest: seq<Outcome>, metaOk: bool)
    returns (t: State<S>)
    requires RunningAt(s, k) && |s.attempts[k].outcomes| + |rest| == |TargetsOf(cfg, s, k)|
    ensures Run(cfg, s, CallbackSteps(k, rest, metaOk), t)
    ensures k in t.attempts && t.mail == s.mail + {k}
    ensures t.stream == s.stream && t.durables == s.durables
    ensures forall c | c !in TargetsOf(cfg, s, k) :: Current(cfg, t.world, c) == Current(cfg, s.world, c)
    ensures var os := s.attempts[k].outcomes + rest;
            t.attempts[k] == Attempt(s.attempts[k].inst, os, Answered(
              Decide(s.stream[k.msg].body, exists o :: o in os && o != Ok, metaOk, k.count)))
    decreases |rest|
  {
    var steps := CallbackSteps(k, rest, metaOk);
    if rest == [] {
      assert s.attempts[k].outcomes + rest == s.attempts[k].outcomes;
      t := Do(cfg, s, steps[0]);
      assert steps[1..] == [];
    } else {
      var s1 := Do(cfg, s, steps[0]);
      assert steps[1..] == CallbackSteps(k, rest[1..], metaOk);
      assert TargetsOf(cfg, s1, k) == TargetsOf(cfg, s, k);
      assert s1.attempts[k].outcomes + rest[1..] == s.attempts[k].outcomes + rest;
      t := CallbackIsRun(cfg, s1, k, rest[1..], metaOk);
    }
  }

  // ---------------------------------------------------------------- resuming

  /** A durable that exists can be bound by an instance scoped to it iff nobody is bound to it, whatever
      became of its messages; one that does not exist can be created iff its name is free. */
  lemma BindIff<S>(cfg: Config<S>, s: State<S>, i: nat, filter: string, d: nat)
    requires Inv(cfg, s) && MayServe(cfg, i, filter) && d <= |s.durables|
    ensures d < |s.durables| && s.durables[d].filter == filter ==>
              (Enabled(cfg, s, Subscribe(i, filter, d)) <==> s.durables[d].holder == Unheld)
    ensures d == |s.durables| ==>
              (Enabled(cfg, s, Subscribe(i, filter, d)) <==>
               forall e | 0 <= e < d :: DurableName(s.durables[e].filter) != DurableName(filter))
  {
    forall e | 0 <= e < |s.durables| ensures s.durables[e].name == DurableName(s.durables[e].filter) {
      assert DurableOk(s.durables[e], s.stream);
    }
  }

  /** Binding changes nothing but the binding; a new durable holds every message published so far that
      its filter matches, undelivered. */
  lemma BindEffect<S>(cfg: Config<S>, s: State<S>, i: nat, filter: string, d: nat)
    requires Inv(cfg, s) && Enabled(cfg, s, Subscribe(i, filter, d))
    ensures var t := Do(cfg, s, Subscribe(i, filter, d));
            && t == s.(durables := t.durables) && |t.durables| == (if d < |s.durables| then |s.durables| else d + 1)
            && (forall e | 0 <= e < |s.durables| && e != d :: t.durables[e] == s.durables[e])
            && t.durables[d].holder == HeldBy(i) && t.durables[d].filter == filter
            && (d < |s.durables| ==> t.durables[d].cells == s.durables[d].cells)
            && (d == |s.durables| ==>
                  |t.durables[d].cells| == |s.stream| &&
                  forall m | 0 <= m < |s.stream| ::
                    t.durables[d].cells[m] ==
                    Cell(if Matches(filter, s.stream[m].subject) then Undelivered else Unmatched, 0))
  {
  }

  /** A close or a crash frees what the instance is bound to and nothing else; a crash also loses the
      instance's running attempts, and only those. */
  lemma LossIsLocal<S>(cfg: Config<S>, s: State<S>, i: nat, step: Step)
    requires step == Close(i) || step == Crash(i)
    ensures Enabled(cfg, s, step)
    ensures var t := Do(cfg, s, step);
            && t == s.(durables := t.durables, attempts := t.attempts) && |t.durables| == |s.durables|
            && (forall d | 0 <= d < |s.durables| ::
                  t.durables[d] == s.durables[d].(holder :=
                    if s.durables[d].holder == HeldBy(i) then Unheld else s.durables[d].holder))
            && (forall k :: k in t.attempts <==> k in s.attempts)
            && (forall k | k in s.attempts ::
                  t.attempts[k] ==
                  if step.Crash? && s.attempts[k].inst == i && s.attempts[k].phase == Running
                  then s.attempts[k].(phase := Lost) else s.attempts[k])
  {
  }

  /** When the broker can deliver a message, and when a delivery can run out. */
  lemma BrokerEnabledIff<S>(cfg: Config<S>, s: State<S>, d: nat, m: nat)
    requires HasCell(s, d, m)
    ensures var c := s.durables[d].cells[m];
            && (Enabled(cfg, s, Deliver(d, m)) <==>
                  s.durables[d].holder.HeldBy? &&
                  (c.status == Undelivered || (c.status == Outstanding(true) && c.count < 5)))
            && (Enabled(cfg, s, Expire(d, m)) <==> c.status.Outstanding?)
  {
  }

  /** When an instance can go on with a delivery, and that an answer under way can always arrive or be
      lost. */
  lemma HandlingEnabledIff<S>(cfg: Config<S>, s: State<S>, k: Key, o: Outcome, flag: bool)
    requires k in s.attempts ==> HasCell(s, k.dur, k.msg) && k.msg < |s.stream|
    requires k in s.mail ==> k in s.attempts
    ensures Enabled(cfg, s, Receive(k)) <==> k in s.mail
    ensures Enabled(cfg, s, Lose(k)) <==> k in s.mail
    ensures var running := k in s.attempts && s.attempts[k].phase == Running;
            && (Enabled(cfg, s, Invoke(k, o, flag)) <==> running && |s.attempts[k].outcomes| < |TargetsOf(cfg, s, k)|)
            && (Enabled(cfg, s, Finish(k, flag)) <==> running && |s.attempts[k].outcomes| == |TargetsOf(cfg, s, k)|)
  {
  }

  /** In every state of the protocol attempts and answers belong to messages that are there. */
  lemma AttemptPlaced<S>(cfg: Config<S>, s: State<S>, k: Key)
    requires Inv(cfg, s)
    ensures k in s.attempts ==> HasCell(s, k.dur, k.msg) && k.msg < |s.stream|
    ensures k in s.mail ==> k in s.attempts && s.attempts[k].phase.Answered?
  {
    if k in s.attempts { KeyBounds(cfg, s, k); }
  }

  /** An invocation calls the next target in the list of the attempt's own instance: it records the
      outcome, and acts on that consumer's state exactly if it succeeds or fails with an effect. */
  lemma InvokeEffect<S>(cfg: Config<S>, s: State<S>, k: Key, o: Outcome, effect: bool)
    requires Inv(cfg, s) && Enabled(cfg, s, Invoke(k, o, effect))
    ensures k.msg < |s.stream| && s.stream[k.msg].body.Envelope? && s.attempts[k].inst < |cfg.instances|
    ensures var t := Do(cfg, s, Invoke(k, o, effect));
            var a, e := s.attempts[k], s.stream[k.msg].body.event;
            var ts := Targets(cfg.instances[a.inst].log, e);
            && |a.outcomes| < |ts|
            && t == s.(attempts := s.attempts[k := a.(outcomes := a.outcomes + [o])],
                       world := t.world, applied := t.applied)
            && forall c :: Current(cfg, t.world, c) ==
                 if c == ts[|a.outcomes|] && (o == Ok || effect) then cfg.handle(c, Current(cfg, s.world, c), e)
                 else Current(cfg, s.world, c)
  {
    assert AttemptOk(cfg, s, k);
  }

  /** An answer is received or lost, and the others stay under way; receiving it changes at most its own
      message. */
  lemma MailEffect<S>(cfg: Config<S>, s: State<S>, k: Key, step: Step)
    requires Enabled(cfg, s, step) && (step == Receive(k) || step == Lose(k))
    ensures var t := Do(cfg, s, step);
            && t == s.(mail := s.mail - {k}, durables := t.durables) && |t.durables| == |s.durables|
            && (step.Lose? ==> t.durables == s.durables)
            && forall d, m | 0 <= d < |s.durables| && 0 <= m < |s.durables[d].cells| && (d != k.dur || m != k.msg) ::
                 HasCell(t, d, m) && t.durables[d].cells[m] == s.durables[d].cells[m]
  {
  }

  /** Publishing is always possible, and adds the message, undelivered on exactly the durables whose
      filter matches it. */
  lemma PublishEffect<S>(cfg: Config<S>, s: State<S>, m: Message)
    requires Inv(cfg, s) && Matches(SUBJECT_ALL, m.subject)
    ensures Enabled(cfg, s, Publish(m))
    ensures var t := Do(cfg, s, Publish(m));
            && t == s.(stream := s.stream + [m], durables := t.durables) && |t.durables| == |s.durables|
            && forall d | 0 <= d < |s.durables| ::
                 t.durables[d] == s.durables[d].(cells := s.durables[d].cells +
                   [Cell(if Matches(s.durables[d].filter, m.subject) then Undelivered else Unmatched, 0)])
  {
  }

  /** An unacknowledged message of a durable that nobody is bound to is redelivered to the next instance
      that binds it, once the ack wait has run out. */
  lemma ResumeRedelivers<S>(cfg: Config<S>, s: State<S>, i: nat, d: nat, m: nat) returns (t: State<S>)
    requires Inv(cfg, s) && HasCell(s, d, m) && s.durables[d].holder == Unheld
    requires MayServe(cfg, i, s.durables[d].filter)
    requires IsOutstanding(s, d, m) && s.durables[d].cells[m].count < 5
    ensures Run(cfg, s, [Subscribe(i, s.durables[d].filter, d), Expire(d, m), Deliver(d, m)], t)
    ensures var n := s.durables[d].cells[m].count + 1;
            && HasCell(t, d, m) && t.durables[d].cells[m] == Cell(Outstanding(false), n)
            && Key(d, m, n) in t.attempts && t.attempts[Key(d, m, n)] == Attempt(i, [], Running)
            && t.stream == s.stream && t.world == s.world && t.applied == s.applied && t.mail == s.mail
  {
    var bind := Subscribe(i, s.durables[d].filter, d);
    BindIff(cfg, s, i, s.durables[d].filter, d);
    BindEffect(cfg, s, i, s.durables[d].filter, d);
    var s1 := Do(cfg, s, bind);
    t := Redeliver(cfg, s1, i, d, m);
    assert [bind, Expire(d, m), Deliver(d, m)][1..] == [Expire(d, m), Deliver(d, m)];
  }

  lemma Redeliver<S>(cfg: Config<S>, s: State<S>, i: nat, d: nat, m: nat) returns (t: State<S>)
    requires IsOutstanding(s, d, m) && s.durables[d].holder == HeldBy(i) && s.durables[d].cells[m].count < 5
    ensures Run(cfg, s, [Expire(d, m), Deliver(d, m)], t)
    ensures var n := s.durables[d].cells[m].count + 1;
            && HasCell(t, d, m) && t.durables[d].cells[m] == Cell(Outstanding(false), n)
            && Key(d, m, n) in t.attempts && t.attempts[Key(d, m, n)] == Attempt(i, [], Running)
            && t.stream == s.stream && t.world == s.world && t.applied == s.applied && t.mail == s.mail
  {
    RunTwo(cfg, s, Expire(d, m), Deliver(d, m));
    t := Do(cfg, Do(cfg, s, Expire(d, m)), Deliver(d, m));
  }

  lemma RunOne<S>(cfg: Config<S>, s: State<S>, step: Step)
    requires Enabled(cfg, s, step)
    ensures Run(cfg, s, [step], Do(cfg, s, step))
  {
    assert [step][1..] == [];
  }

  /** Whoever is bound to the durable makes way for instance i. */
  lemma FreeAndBind<S>(cfg: Config<S>, s: State<S>, i: nat, d: nat) returns (steps: seq<Step>, t: State<S>)
    requires Inv(cfg, s) && d < |s.durables| && MayServe(cfg, i, s.durables[d].filter)
    ensures Run(cfg, s, steps, t) && Inv(cfg, t) && t.stream == s.stream && d < |t.durables|
    ensures t.durables[d] == s.durables[d].(holder := HeldBy(i))
  {
    var s1, bind := s, Subscribe(i, s.durables[d].filter, d);
    steps := [];
    if s.durables[d].holder.HeldBy? {
      var close := Close(s.durables[d].holder.inst);
      LossIsLocal(cfg, s, s.durables[d].holder.inst, close);
      RunOne(cfg, s, close);
      StepKeepsInv(cfg, s, close);
      s1, steps := Do(cfg, s, close), [close];
    }
    BindIff(cfg, s1, i, s.durables[d].filter, d);
    BindEffect(cfg, s1, i, s.durables[d].filter, d);
    RunOne(cfg, s1, bind);
    StepKeepsInv(cfg, s1, bind);
    t := Do(cfg, s1, bind);
    RunConcat(cfg, s, steps, s1, [bind], t);
    steps := steps + [bind];
  }

  predicate CanGoOn(c: Cell) { (c.status == Undelivered || c.status.Outstanding?) && c.count < 5 }

  /** An outstanding delivery runs out, and the message is delivered to instance i. */
  lemma DueAndDeliver<S>(cfg: Config<S>, s: State<S>, i: nat, d: nat, m: nat) returns (steps: seq<Step>, t: State<S>)
    requires Inv(cfg, s) && HasCell(s, d, m) && s.durables[d].holder == HeldBy(i) && CanGoOn(s.durables[d].cells[m])
    ensures Run(cfg, s, steps, t) && Inv(cfg, t) && t.stream == s.stream
    ensures InHand(t, i, Key(d, m, s.durables[d].cells[m].count + 1))
  {
    if s.durables[d].cells[m].status.Outstanding? {
      t := Redeliver(cfg, s, i, d, m);
      steps := [Expire(d, m), Deliver(d, m)];
    } else {
      RunOne(cfg, s, Deliver(d, m));
      t := Do(cfg, s, Deliver(d, m));
      steps := [Deliver(d, m)];
    }
    RunKeepsInv(cfg, s, steps, t);
  }

  /** The delivery has just reached the instance. */
  predicate InHand<S>(s: State<S>, i: nat, k: Key) {
    && HasCell(s, k.dur, k.msg) && s.durables[k.dur].cells[k.msg] == Cell(Outstanding(false), k.count)
    && k in s.attempts && s.attempts[k] == Attempt(i, [], Running)
  }

  lemma BringTo<S>(cfg: Config<S>, s: State<S>, i: nat, d: nat, m: nat) returns (steps: seq<Step>, t: State<S>)
    requires Inv(cfg, s) && HasCell(s, d, m) && MayServe(cfg, i, s.durables[d].filter)
    requires CanGoOn(s.durables[d].cells[m])
    ensures Run(cfg, s, steps, t) && Inv(cfg, t) && t.stream == s.stream
    ensures InHand(t, i, Key(d, m, s.durables[d].cells[m].count + 1))
  {
    var a, s1 := FreeAndBind(cfg, s, i, d);
    var b, s2 := DueAndDeliver(cfg, s1, i, d, m);
    RunConcat(cfg, s, a, s1, b, s2);
    steps, t := a + b, s2;
  }

  /** The targets of the delivery all succeed, and its answer is received. */
  lemma HandleWell<S>(cfg: Config<S>, s: State<S>, i: nat, k: Key) returns (steps: seq<Step>, t: State<S>)
    requires InHand(s, i, k) && k.msg < |s.stream|
    ensures Run(cfg, s, steps, t) && t.stream == s.stream && HasCell(t, k.dur, k.msg)
    ensures t.durables[k.dur].cells[k.msg] ==
            Cell(if s.stream[k.msg].body.Envelope? then Acked else Terminated, k.count)
    ensures k in t.attempts && t.attempts[k].inst == i
    ensures t.attempts[k].outcomes == seq(|TargetsAt(cfg, i, s.stream[k.msg].body)|, _ => Ok)
  {
    var oks := seq(|TargetsOf(cfg, s, k)|, _ => Ok);
    assert TargetsOf(cfg, s, k) == TargetsAt(cfg, i, s.stream[k.msg].body);
    var s1 := CallbackIsRun(cfg, s, k, oks, true);
    assert [] + oks == oks;
    t := Received(cfg, s1, k);
    RunConcat(cfg, s, CallbackSteps(k, oks, true), s1, [Receive(k)], t);
    steps := CallbackSteps(k, oks, true) + [Receive(k)];
  }

  /** No message is ever stuck: whatever happened before, as long as it is not closed and has been
      delivered fewer than five times, any instance scoped to its durable can still be brought to
      handle it, and if its targets succeed the message is acknowledged, or terminated if it does not
      decode. */
  lemma CanStillComplete<S>(cfg: Config<S>, s: State<S>, i: nat, d: nat, m: nat)
    returns (steps: seq<Step>, t: State<S>)
    requires Inv(cfg, s) && HasCell(s, d, m) && MayServe(cfg, i, s.durables[d].filter)
    requires s.durables[d].cells[m].status == Undelivered || s.durables[d].cells[m].status.Outstanding?
    requires s.durables[d].cells[m].count < 5
    ensures Run(cfg, s, steps, t) && m < |s.stream| && HasCell(t, d, m)
    ensures var n := s.durables[d].cells[m].count + 1;
            && t.durables[d].cells[m] == Cell(if s.stream[m].body.Envelope? then Acked else Terminated, n)
            && Key(d, m, n) in t.attempts && t.attempts[Key(d, m, n)].inst == i
            && t.attempts[Key(d, m, n)].outcomes == seq(|TargetsAt(cfg, i, s.stream[m].body)|, _ => Ok)
  {
    InvSized(cfg, s);
    var a, s1 := BringTo(cfg, s, i, d, m);
    var b, s2 := HandleWell(cfg, s1, i, Key(d, m, s.durables[d].cells[m].count + 1));
    RunConcat(cfg, s, a, s1, b, s2);
    steps, t := a + b, s2;
  }

  lemma Received<S>(cfg: Config<S>, s: State<S>, k: Key) returns (t: State<S>)
    requires HasCell(s, k.dur, k.msg) && s.durables[k.dur].cells[k.msg] == Cell(Outstanding(false), k.count)
    requires k in s.attempts && k in s.mail && s.attempts[k].phase.Answered? && s.attempts[k].phase.verdict != Nak
    ensures Run(cfg, s, [Receive(k)], t) && t.stream == s.stream && t.attempts == s.attempts
    ensures t.world == s.world && t.applied == s.applied && HasCell(t, k.dur, k.msg)
    ensures t.durables[k.dur].cells[k.msg] ==
            Cell(if s.attempts[k].phase.verdict == Ack then Acked else Terminated, k.count)
  {
    RunOne(cfg, s, Receive(k));
    t := Do(cfg, s, Receive(k));
  }

  /** A crash during the fifth delivery leaves the message exhausted without any Term: the broker
      gives up on an event that no instance ever gave up on. */
  lemma CrashOnLastDelivery<S>(cfg: Config<S>, s: State<S>, k: Key) returns (t: State<S>)
    requires Inv(cfg, s) && RunningAt(s, k) && k.count == 5
    requires HasCell(s, k.dur, k.msg) && s.durables[k.dur].cells[k.msg].status.Outstanding?
    requires s.stream[k.msg].body.Envelope?
    ensures Run(cfg, s, [Crash(s.attempts[k].inst), Expire(k.dur, k.msg)], t)
    ensures HasStatus(t, k.dur, k.msg, Exhausted) && !AnsweredWith(t, k.dur, k.msg, Term)
    ensures k in t.attempts && t.attempts[k].phase == Lost
  {
    var s1 := CrashLoses(cfg, s, k);
    t := Do(cfg, s1, Expire(k.dur, k.msg));
    ExpireExhausts(cfg, s1, k);
    StepKeepsInv(cfg, s1, Expire(k.dur, k.msg));
    NoTermFrom(cfg, t, k);
    RunTwo(cfg, s, Crash(s.attempts[k].inst), Expire(k.dur, k.msg));
  }

  lemma CrashLoses<S>(cfg: Config<S>, s: State<S>, k: Key) returns (s1: State<S>)
    requires Inv(cfg, s) && RunningAt(s, k) && HasCell(s, k.dur, k.msg)
    ensures s1 == Do(cfg, s, Crash(s.attempts[k].inst)) && Inv(cfg, s1)
    ensures k in s1.attempts && s1.attempts[k].phase == Lost && s1.stream == s.stream
    ensures HasCell(s1, k.dur, k.msg) && s1.durables[k.dur].cells == s.durables[k.dur].cells
  {
    var inst := s.attempts[k].inst;
    s1 := Do(cfg, s, Crash(inst));
    StepKeepsInv(cfg, s, Crash(inst));
    KeepsCells(s.durables, inst, k.dur);
  }

  lemma KeepsCells(ds: seq<Durable>, inst: nat, d: nat)
    requires d < |ds|
    ensures |Unbound(ds, inst)| == |ds| && Unbound(ds, inst)[d].cells == ds[d].cells
  {
  }

  lemma ExpireExhausts<S>(cfg: Config<S>, s: State<S>, k: Key)
    requires Inv(cfg, s) && k in s.attempts && k.count == MAX_DELIVER && HasCell(s, k.dur, k.msg)
    requires s.durables[k.dur].cells[k.msg].status.Outstanding?
    ensures Enabled(cfg, s, Expire(k.dur, k.msg))
    ensures var t := Do(cfg, s, Expire(k.dur, k.msg));
            HasCell(t, k.dur, k.msg) && t.durables[k.dur].cells[k.msg].status == Exhausted &&
            t.attempts == s.attempts && t.stream == s.stream
  {
    KeyBounds(cfg, s, k);
    CellFacts(cfg, s, k.dur, k.msg);
  }

  lemma NoTermFrom<S>(cfg: Config<S>, t: State<S>, k: Key)
    requires Inv(cfg, t) && k in t.attempts && t.attempts[k].phase == Lost && k.count == MAX_DELIVER
    requires k.msg < |t.stream| && t.stream[k.msg].body.Envelope?
    ensures !AnsweredWith(t, k.dur, k.msg, Term)
  {
    forall j | j in t.attempts && j.dur == k.dur && j.msg == k.msg ensures t.attempts[j].phase != Answered(Term) {
      assert AttemptOk(cfg, t, j);
    }
  }
}
