/** The consumer registry (internal/consumer) and the delivery callback of the bus adapter
    (internal/bus): the index kept by Register, the isolated fan-out of dispatch, and the
    Ack / Nak / Term decision. */
module Registry {
  import opened Event

  type ConsumerId = nat

  /** One Register call: a consumer with all of its event types. */
  datatype Registration = Registration(consumer: ConsumerId, kinds: seq<string>)

  /** How one Handle call ends. */
  datatype Outcome = Ok | Failed | Panicked

  // ---------------------------------------------------------------- the registration log

  function Repeat(c: ConsumerId, kinds: seq<string>, kind: string): seq<ConsumerId> {
    if kinds == [] then []
    else (if kinds[0] == kind then [c] else []) + Repeat(c, kinds[1..], kind)
  }

  /** The log filtered by a type: in registration order, with multiplicity. */
  function ByKind(log: seq<Registration>, kind: string): seq<ConsumerId> {
    if log == [] then []
    else Repeat(log[0].consumer, log[0].kinds, kind) + ByKind(log[1..], kind)
  }

  function AllConsumers(log: seq<Registration>): seq<ConsumerId> {
    seq(|log|, i requires 0 <= i < |log| => log[i].consumer)
  }

  function Targets(log: seq<Registration>, e: Event): seq<ConsumerId> {
    if e.kind == BROADCAST_TYPE then AllConsumers(log) else ByKind(log, e.kind)
  }

  lemma {:induction false} RepeatConcat(c: ConsumerId, a: seq<string>, b: seq<string>, kind: string)
    ensures Repeat(c, a + b, kind) == Repeat(c, a, kind) + Repeat(c, b, kind)
  {
    if a == [] {
      assert a + b == b;
    } else {
      var first := if a[0] == kind then [c] else [];
      RepeatConcat(c, a[1..], b, kind);
      calc {
        Repeat(c, a + b, kind);
        { assert (a + b)[0] == a[0] && (a + b)[1..] == a[1..] + b; }
        first + Repeat(c, a[1..] + b, kind);
        (first + Repeat(c, a[1..], kind)) + Repeat(c, b, kind);
      }
    }
  }

  lemma RepeatSnoc(c: ConsumerId, kinds: seq<string>, i: nat, kind: string)
    requires i < |kinds|
    ensures Repeat(c, kinds[..i + 1], kind) ==
            Repeat(c, kinds[..i], kind) + (if kinds[i] == kind then [c] else [])
  {
    assert kinds[..i + 1] == kinds[..i] + [kinds[i]];
    RepeatConcat(c, kinds[..i], [kinds[i]], kind);
    assert [kinds[i]][1..] == [];
  }

  lemma ByKindSnoc(log: seq<Registration>, r: Registration, kind: string)
    ensures ByKind(log + [r], kind) == ByKind(log, kind) + Repeat(r.consumer, r.kinds, kind)
  {
    ByKindConcat(log, [r], kind);
    assert [r][1..] == [];
  }

  lemma {:induction false} ByKindConcat(a: seq<Registration>, b: seq<Registration>, kind: string)
    ensures ByKind(a + b, kind) == ByKind(a, kind) + ByKind(b, kind)
  {
    if a == [] {
      assert a + b == b;
    } else {
      assert (a + b)[1..] == a[1..] + b;
      ByKindConcat(a[1..], b, kind);
    }
  }

  lemma {:induction false} RepeatCount(c: ConsumerId, kinds: seq<string>, kind: string, d: ConsumerId)
    ensures multiset(Repeat(c, kinds, kind))[d] == if c == d then multiset(kinds)[kind] else 0
  {
    if kinds == [] {
    } else {
      RepeatCount(c, kinds[1..], kind, d);
      assert kinds == [kinds[0]] + kinds[1..];
    }
  }

  /** How often a consumer declared a type, over all its registrations. */
  function Declared(log: seq<Registration>, c: ConsumerId, kind: string): nat {
    if log == [] then 0
    else (if log[0].consumer == c then multiset(log[0].kinds)[kind] else 0) +
         Declared(log[1..], c, kind)
  }

  /** How often a consumer was registered. */
  function Registered(log: seq<Registration>, c: ConsumerId): nat {
    if log == [] then 0 else (if log[0].consumer == c then 1 else 0) + Registered(log[1..], c)
  }

  lemma {:induction false} ByKindCount(log: seq<Registration>, c: ConsumerId, kind: string)
    ensures multiset(ByKind(log, kind))[c] == Declared(log, c, kind)
  {
    if log == [] {
    } else {
      ByKindCount(log[1..], c, kind);
      RepeatCount(log[0].consumer, log[0].kinds, kind, c);
    }
  }

  lemma {:induction false} AllCount(log: seq<Registration>, c: ConsumerId)
    ensures multiset(AllConsumers(log))[c] == Registered(log, c)
  {
    if log == [] {
    } else {
      AllCount(log[1..], c);
      assert AllConsumers(log) == [log[0].consumer] + AllConsumers(log[1..]);
    }
  }

  /** A consumer occurs in the target list once per declaration of the type; for a broadcast, once
      per registration, whether or not it also declared the broadcast type. */
  lemma TargetMultiplicity(log: seq<Registration>, e: Event, c: ConsumerId)
    ensures multiset(Targets(log, e))[c] ==
            if e.kind == BROADCAST_TYPE then Registered(log, c) else Declared(log, c, e.kind)
  {
    ByKindCount(log, c, e.kind);
    AllCount(log, c);
  }

  lemma {:induction false} RepeatIs(c: ConsumerId, kinds: seq<string>, kind: string)
    ensures Repeat(c, kinds, kind) == seq(multiset(kinds)[kind], _ => c)
  {
    if kinds == [] {
    } else {
      RepeatIs(c, kinds[1..], kind);
      assert kinds == [kinds[0]] + kinds[1..];
    }
  }

  /** The order of the target list: each registration adds its consumer at the end, once for every
      time it declared the type, or once if the event is a broadcast. */
  lemma TargetOrder(log: seq<Registration>, r: Registration, e: Event)
    ensures Targets([], e) == []
    ensures Targets(log + [r], e) ==
            Targets(log, e) + seq(if e.kind == "@broadcast" then 1 else multiset(r.kinds)[e.kind], _ => r.consumer)
  {
    ByKindSnoc(log, r, e.kind);
    RepeatIs(r.consumer, r.kinds, e.kind);
  }

  // ---------------------------------------------------------------- fan-out

  /** A handler acts on the surrounding world `W`, which also stands for whatever makes it
      nondeterministic, and ends with an outcome. */
  type Behaviour<!W> = (W, ConsumerId, Event) -> (W, Outcome)

  /** Running a list of targets one after the other, whatever each of them does. */
  function RunTargets<W>(behave: Behaviour<W>, w: W, targets: seq<ConsumerId>, e: Event): (r: (W, seq<Outcome>))
    ensures |r.1| == |targets|
    decreases |targets|
  {
    if targets == [] then (w, [])
    else
      var (w1, o) := behave(w, targets[0], e);
      var (w2, os) := RunTargets(behave, w1, targets[1..], e);
      (w2, [o] + os)
  }

  lemma {:induction false} RunTargetsConcat<W>(behave: Behaviour<W>, w: W, a: seq<ConsumerId>, b: seq<ConsumerId>,
        e: Event)
    ensures var (w1, os1) := RunTargets(behave, w, a, e);
            var (w2, os2) := RunTargets(behave, w1, b, e);
            RunTargets(behave, w, a + b, e) == (w2, os1 + os2)
    decreases |a|
  {
    if a == [] {
      assert a + b == b;
      assert RunTargets(behave, w, b, e).1 == [] + RunTargets(behave, w, b, e).1;
    } else {
      assert (a + b)[1..] == a[1..] + b;
      var (w1, o) := behave(w, a[0], e);
      RunTargetsConcat(behave, w1, a[1..], b, e);
      var (wa, osa) := RunTargets(behave, w1, a[1..], e);
      var (wb, osb) := RunTargets(behave, wa, b, e);
      assert [o] + (osa + osb) == ([o] + osa) + osb;
    }
  }

  /** The consumers `ts` are called with the event one after the other: the i-th call takes the world
      from ws[i] to ws[i + 1] and ends with os[i]. */
  ghost predicate Calls<W>(behave: Behaviour<W>, e: Event, ts: seq<ConsumerId>, ws: seq<W>, os: seq<Outcome>) {
    |ws| == |ts| + 1 && |os| == |ts| &&
    forall i | 0 <= i < |ts| :: behave(ws[i], ts[i], e) == (ws[i + 1], os[i])
  }

  lemma {:induction false} RunTargetsCalls<W>(behave: Behaviour<W>, w: W, ts: seq<ConsumerId>, e: Event)
    returns (ws: seq<W>)
    ensures var (next, os) := RunTargets(behave, w, ts, e);
            Calls(behave, e, ts, ws, os) && ws[0] == w && ws[|ts|] == next
    decreases |ts|
  {
    if ts == [] {
      ws := [w];
    } else {
      var (w1, o) := behave(w, ts[0], e);
      var rest := RunTargetsCalls(behave, w1, ts[1..], e);
      ws := [w] + rest;
      var os := RunTargets(behave, w, ts, e).1;
      forall i | 0 <= i < |ts| ensures behave(ws[i], ts[i], e) == (ws[i + 1], os[i]) {
        if i > 0 { assert ts[i] == ts[1..][i - 1] && os[i] == os[1..][i - 1]; }
      }
    }
  }

  function Failures(os: seq<Outcome>): nat {
    if os == [] then 0
    else Failures(os[..|os| - 1]) + if os[|os| - 1] == Ok then 0 else 1
  }

  lemma FailuresStep(os: seq<Outcome>, o: Outcome)
    ensures Failures(os + [o]) == Failures(os) + if o == Ok then 0 else 1
  {
    assert (os + [o])[..|os|] == os;
  }

  lemma {:induction false} NoFailuresIff(os: seq<Outcome>)
    ensures Failures(os) > 0 <==> exists o :: o in os && o != Ok
  {
    if os == [] {
    } else {
      var init, last := os[..|os| - 1], os[|os| - 1];
      NoFailuresIff(init);
      assert os == init + [last];
      assert last in os && forall o :: o in init ==> o in os;
      forall o | o in os && o != Ok ensures Failures(os) > 0 { assert o == last || o in init; }
    }
  }

  lemma {:induction false} FailuresCount(os: seq<Outcome>)
    ensures Failures(os) == |os| - multiset(os)[Ok]
  {
    if os == [] {
    } else {
      FailuresCount(os[..|os| - 1]);
      assert os == os[..|os| - 1] + [os[|os| - 1]];
    }
  }

  datatype HandlerError = None | Returned | RecoveredPanic

  /** safeHandle: a panic is recovered into an error. */
  method SafeHandle<W>(behave: Behaviour<W>, w: W, c: ConsumerId, e: Event)
    returns (next: W, outcome: Outcome, err: HandlerError)
    ensures (next, outcome) == behave(w, c, e)
    ensures err == None <==> outcome == Ok
    ensures err == RecoveredPanic <==> outcome == Panicked
  {
    var r := behave(w, c, e);
    next, outcome := r.0, r.1;
    match outcome {
      case Ok => err := None;
      case Failed => err := Returned;
      case Panicked => err := RecoveredPanic;
    }
  }

  // ---------------------------------------------------------------- the callback's decision

  const MAX_DELIVER := 5

  /** The JSON envelope: decoding inverts encoding and fails on anything else. */
  datatype Wire = Envelope(event: Event) | Garbled

  datatype Verdict = Ack | Nak | Term

  /** What becomes of a delivery whose handler failed or not, when the delivery count is readable
      or not. */
  function Decide(body: Wire, failed: bool, metaOk: bool, delivered: nat): (v: Verdict)
    ensures v == Ack <==> body.Envelope? && !failed
    ensures v == Nak <==> body.Envelope? && failed && !(metaOk && delivered >= 5)
  {
    if body.Garbled? then Term
    else if !failed then Ack
    else if metaOk && delivered >= MAX_DELIVER then Term
    else Nak
  }

  type Index = map<string, seq<ConsumerId>>

  /** Reading the index: a missing key is the empty list. */
  function Lookup(m: Index, kind: string): seq<ConsumerId> {
    if kind in m then m[kind] else []
  }

  /** The index while Register has gone through some of the consumer's types. */
  ghost predicate IndexedUpTo(m: Index, log: seq<Registration>, c: ConsumerId, done: seq<string>) {
    forall kind :: Lookup(m, kind) == ByKind(log, kind) + Repeat(c, done, kind)
  }

  lemma IndexStepAt(m: Index, before: seq<ConsumerId>, c: ConsumerId, kinds: seq<string>, i: nat, kind: string)
    requires i < |kinds|
    ensures Lookup(m, kind) == before + Repeat(c, kinds[..i], kind) ==>
            Lookup(m[kinds[i] := Lookup(m, kinds[i]) + [c]], kind) == before + Repeat(c, kinds[..i + 1], kind)
  {
    RepeatSnoc(c, kinds, i, kind);
  }

  lemma IndexStep(m: Index, log: seq<Registration>, c: ConsumerId, kinds: seq<string>, i: nat)
    requires i < |kinds| && IndexedUpTo(m, log, c, kinds[..i])
    ensures IndexedUpTo(m[kinds[i] := Lookup(m, kinds[i]) + [c]], log, c, kinds[..i + 1])
  {
    forall kind { IndexStepAt(m, ByKind(log, kind), c, kinds, i, kind); }
  }

  lemma IndexDone(m: Index, log: seq<Registration>, c: ConsumerId, kinds: seq<string>)
    requires IndexedUpTo(m, log, c, kinds)
    ensures forall kind :: Lookup(m, kind) == ByKind(log + [Registration(c, kinds)], kind)
  {
    forall kind { ByKindSnoc(log, Registration(c, kinds), kind); }
  }

  class Registry {
    var byKind: Index
    var all: seq<ConsumerId>
    /** Every Register call so far, in order. */
    ghost var log: seq<Registration>

    /** The index agrees with the log; a missing key reads as the empty list. */
    ghost predicate Valid()
      reads this
    {
      all == AllConsumers(log) && forall kind :: Lookup(byKind, kind) == ByKind(log, kind)
    }

    constructor ()
      ensures Valid() && log == []
    {
      byKind := map[];
      all := [];
      log := [];
    }

    method Register(c: ConsumerId, kinds: seq<string>)
      requires Valid()
      modifies this
      ensures Valid() && log == old(log) + [Registration(c, kinds)]
    {
      for i := 0 to |kinds|
        invariant all == old(all) && log == old(log)
        invariant IndexedUpTo(byKind, log, c, kinds[..i])
      {
        IndexStep(byKind, log, c, kinds, i);
        byKind := byKind[kinds[i] := Lookup(byKind, kinds[i]) + [c]];
      }
      assert kinds[..|kinds|] == kinds;
      IndexDone(byKind, log, c, kinds);
      all := all + [c];
      log := log + [Registration(c, kinds)];
    }

    /** Calls exactly the targets of the event, in order and with the event as it is, whatever earlier
        ones did; it reports an error iff some target failed or panicked, with the number that did. */
    method Dispatch<W>(behave: Behaviour<W>, w: W, e: Event)
      returns (next: W, outcomes: seq<Outcome>, failed: nat)
      requires Valid()
      ensures (next, outcomes) == RunTargets(behave, w, Targets(log, e), e)
      ensures exists ws :: Calls(behave, e, Targets(log, e), ws, outcomes) && ws[0] == w && ws[|ws| - 1] == next
      ensures failed == Failures(outcomes) == |outcomes| - multiset(outcomes)[Ok]
      ensures failed > 0 <==> exists o :: o in outcomes && o != Ok
    {
      var targets: seq<ConsumerId>;
      if e.kind == BROADCAST_TYPE {
        targets := all;
      } else {
        targets := Lookup(byKind, e.kind);
      }
      next, outcomes, failed := w, [], 0;
      for i := 0 to |targets|
        invariant (next, outcomes) == RunTargets(behave, w, targets[..i], e)
        invariant failed == Failures(outcomes)
      {
        var before := next;
        var o, err;
        next, o, err := SafeHandle(behave, next, targets[i], e);
        assert targets[..i + 1] == targets[..i] + [targets[i]];
        RunTargetsConcat(behave, w, targets[..i], [targets[i]], e);
        assert [targets[i]][1..] == [];
        assert RunTargets(behave, next, [], e) == (next, []);
        assert RunTargets(behave, before, [targets[i]], e) == (next, [o] + []);
        assert [o] + [] == [o];
        FailuresStep(outcomes, o);
        outcomes := outcomes + [o];
        if err != None {
          failed := failed + 1;
        }
      }
      assert targets[..|targets|] == targets;
      NoFailuresIff(outcomes);
      FailuresCount(outcomes);
      var ws := RunTargetsCalls(behave, w, targets, e);
    }

    /** The Subscribe callback on one delivery: nothing runs for an undecodable message. */
    method OnMessage<W>(behave: Behaviour<W>, w: W, body: Wire, metaOk: bool, delivered: nat)
      returns (next: W, outcomes: seq<Outcome>, verdict: Verdict)
      requires Valid()
      ensures body.Garbled? ==> next == w && outcomes == []
      ensures body.Envelope? ==>
                (next, outcomes) == RunTargets(behave, w, Targets(log, body.event), body.event)
      ensures body.Envelope? ==>
                exists ws :: Calls(behave, body.event, Targets(log, body.event), ws, outcomes) &&
                             ws[0] == w && ws[|ws| - 1] == next
      ensures verdict == Decide(body, exists o :: o in outcomes && o != Ok, metaOk, delivered)
      ensures verdict == Ack <==> body.Envelope? && forall o :: o in outcomes ==> o == Ok
      ensures verdict == Nak <==>
              body.Envelope? && (exists o :: o in outcomes && o != Ok) && !(metaOk && delivered >= 5)
    {
      next, outcomes := w, [];
      if body.Garbled? {
        return next, outcomes, Term;
      }
      var failed: nat;
      next, outcomes, failed := Dispatch(behave, w, body.event);
      if failed > 0 {
        if metaOk && delivered >= MAX_DELIVER {
          return next, outcomes, Term;
        }
        return next, outcomes, Nak;
      }
      verdict := Ack;
    }
  }
}
