/** Bounded replay (JetStreamBus.Replay in internal/bus): reading the stream back while others may
    extend it. Position p of the stream holds the message of sequence number p + 1. */
module Replay {
  import opened Event
  import opened Routing
  import opened Registry

  datatype Stored = Stored(subject: string, body: Wire, time: int)

  /** The broker's test of a subject against the subscription's filter. */
  type Filter = string -> bool

  datatype Since = FromStart | From(time: int)

  /** What surrounds one call. `view(0)` is the stream when the snapshot is taken, `view(1)` when
      the ephemeral consumer is created, and `view(k + 2)` when NextMsg is called for the k-th
      time, counting from 0; the other members decide which calls fail. */
  datatype Environment = Environment(
    view: nat -> seq<Stored>,
    infoFails: bool,
    subscribeFails: bool,
    live: nat -> bool,
    nextFails: nat -> bool,
    handlerFails: (nat, Event) -> bool)

  datatype Exit =
    | SubjectRequired | InfoError | SubscribeError | Cancelled | NextError | HandlerError | Finished

  predicate Extends(env: Environment, i: nat, j: nat) { env.view(i) <= env.view(j) }

  /** Streams are append-only. */
  ghost predicate Growing(env: Environment) {
    forall i: nat, j: nat | i <= j :: Extends(env, i, j)
  }

  // ---------------------------------------------------------------- positions and events

  /** The first position at or after `from` whose subject matches, or the length of the stream. */
  function NextMatch(stream: seq<Stored>, wants: Filter, from: nat): (p: nat)
    requires from <= |stream|
    ensures from <= p <= |stream|
    ensures p < |stream| ==> wants(stream[p].subject)
    ensures forall i | from <= i < p :: !wants(stream[i].subject)
    decreases |stream| - from
  {
    if from == |stream| || wants(stream[from].subject) then from
    else NextMatch(stream, wants, from + 1)
  }

  /** The first position whose time is at or after `since`, or the length of the stream. */
  function StartPosition(stream: seq<Stored>, since: Since, from: nat): (p: nat)
    requires from <= |stream|
    ensures from <= p <= |stream|
    ensures since.From? ==> forall i | from <= i < p :: stream[i].time < since.time
    ensures since.From? && p < |stream| ==> stream[p].time >= since.time
    ensures since.FromStart? ==> p == from
    decreases |stream| - from
  {
    if from == |stream| || since.FromStart? || stream[from].time >= since.time then from
    else StartPosition(stream, since, from + 1)
  }

  function EventAt(m: Stored, wants: Filter): seq<Event> {
    if wants(m.subject) && m.body.Envelope? then [m.body.event] else []
  }

  /** The decodable matching events at positions lo to hi, in stream order. */
  function Matching(stream: seq<Stored>, wants: Filter, lo: nat, hi: nat): seq<Event>
    requires hi <= |stream|
    decreases hi
  {
    if hi <= lo then [] else Matching(stream, wants, lo, hi - 1) + EventAt(stream[hi - 1], wants)
  }

  lemma {:induction false} MatchingSplit(stream: seq<Stored>, wants: Filter, lo: nat, mid: nat, hi: nat)
    requires lo <= mid <= hi <= |stream|
    ensures Matching(stream, wants, lo, hi) ==
            Matching(stream, wants, lo, mid) + Matching(stream, wants, mid, hi)
    decreases hi
  {
    if mid == hi {
    } else {
      MatchingSplit(stream, wants, lo, mid, hi - 1);
    }
  }

  lemma {:induction false} MatchingNone(stream: seq<Stored>, wants: Filter, lo: nat, hi: nat)
    requires hi <= |stream| && forall i | lo <= i < hi :: !wants(stream[i].subject)
    ensures Matching(stream, wants, lo, hi) == []
    decreases hi
  {
    if hi > lo { MatchingNone(stream, wants, lo, hi - 1); }
  }

  lemma {:induction false} MatchingPrefix(a: seq<Stored>, b: seq<Stored>, wants: Filter, lo: nat, hi: nat)
    requires a <= b && hi <= |a|
    ensures Matching(a, wants, lo, hi) == Matching(b, wants, lo, hi)
    decreases hi
  {
    if hi > lo { MatchingPrefix(a, b, wants, lo, hi - 1); }
  }

  predicate Wanted(m: Stored, wants: Filter) { wants(m.subject) && m.body.Envelope? }

  /** The positions of a range that hold a wanted and decodable message. */
  ghost predicate Positions(stream: seq<Stored>, wants: Filter, lo: nat, hi: nat, ps: seq<nat>)
    requires hi <= |stream|
  {
    && (forall i, j | 0 <= i < j < |ps| :: ps[i] < ps[j])
    && (forall i | 0 <= i < |ps| :: lo <= ps[i] < hi && Wanted(stream[ps[i]], wants))
    && (forall p | lo <= p < hi && Wanted(stream[p], wants) :: p in ps)
  }

  lemma PositionsSnoc(stream: seq<Stored>, wants: Filter, lo: nat, hi: nat, ps: seq<nat>)
    requires lo < hi <= |stream| && Positions(stream, wants, lo, hi - 1, ps)
    ensures Positions(stream, wants, lo, hi, ps + if Wanted(stream[hi - 1], wants) then [hi - 1] else [])
  {
    var qs := ps + if Wanted(stream[hi - 1], wants) then [hi - 1] else [];
    forall p | lo <= p < hi && Wanted(stream[p], wants) ensures p in qs {
      if p < hi - 1 { assert p in ps; } else { assert qs[|ps|] == p; }
    }
  }

  function EventsAt(stream: seq<Stored>, ps: seq<nat>): seq<Event>
    requires forall i | 0 <= i < |ps| :: ps[i] < |stream| && stream[ps[i]].body.Envelope?
  {
    seq(|ps|, i requires 0 <= i < |ps| => stream[ps[i]].body.event)
  }

  lemma EventsAtSnoc(stream: seq<Stored>, ps: seq<nat>, p: nat)
    requires forall i | 0 <= i < |ps| :: ps[i] < |stream| && stream[ps[i]].body.Envelope?
    requires p < |stream| && stream[p].body.Envelope?
    ensures EventsAt(stream, ps + [p]) == EventsAt(stream, ps) + [stream[p].body.event]
  {
  }

  /** The events of a range are exactly those of its wanted and decodable messages, in stream order. */
  lemma {:induction false} MatchingPositions(stream: seq<Stored>, wants: Filter, lo: nat, hi: nat)
    returns (ps: seq<nat>)
    requires hi <= |stream|
    ensures Positions(stream, wants, lo, hi, ps) && EventsAt(stream, ps) == Matching(stream, wants, lo, hi)
    decreases hi
  {
    if hi <= lo {
      ps := [];
    } else {
      ps := MatchingPositions(stream, wants, lo, hi - 1);
      PositionsSnoc(stream, wants, lo, hi, ps);
      if Wanted(stream[hi - 1], wants) {
        EventsAtSnoc(stream, ps, hi - 1);
        ps := ps + [hi - 1];
      } else {
        assert ps + [] == ps;
      }
    }
  }

  // ---------------------------------------------------------------- what a replay delivers

  function Top(start: nat, lastSeq: nat): nat { if start > lastSeq then start else lastSeq }

  /** The snapshot's last message is itself among those to replay. */
  predicate SnapshotEndMatches(stream: seq<Stored>, wants: Filter, start: nat, lastSeq: nat)
    requires lastSeq <= |stream|
  {
    start < lastSeq && wants(stream[lastSeq - 1].subject)
  }

  /** Where a replay ends that read the stream up to this view. */
  function End(stream: seq<Stored>, wants: Filter, start: nat, lastSeq: nat): (e: nat)
    requires start <= |stream| && lastSeq <= |stream|
    ensures e <= |stream|
  {
    if SnapshotEndMatches(stream, wants, start, lastSeq) then lastSeq
    else
      var next := NextMatch(stream, wants, Top(start, lastSeq));
      if next < |stream| then next + 1 else next
  }

  function Delivered(stream: seq<Stored>, wants: Filter, start: nat, lastSeq: nat): seq<Event>
    requires start <= |stream| && lastSeq <= |stream|
  {
    Matching(stream, wants, start, End(stream, wants, start, lastSeq))
  }

  /** A replay delivers the history, read from the snapshot alone, and at most one event past the
      snapshot: the first match at or beyond it. There is none when the message at the snapshot's
      last sequence number is itself replayed. */
  lemma DeliveredIsHistoryAndOneMore(snapshot: seq<Stored>, stream: seq<Stored>, wants: Filter, start: nat)
    requires snapshot <= stream && start <= |stream|
    ensures var lastSeq := |snapshot|;
            var history := Matching(snapshot, wants, start, lastSeq);
            var next := NextMatch(stream, wants, Top(start, lastSeq));
            Delivered(stream, wants, start, lastSeq) ==
            history +
            (if SnapshotEndMatches(stream, wants, start, lastSeq) || next == |stream| then []
             else EventAt(stream[next], wants))
  {
    var lastSeq := |snapshot|;
    var top := Top(start, lastSeq);
    var next := NextMatch(stream, wants, top);
    MatchingPrefix(snapshot, stream, wants, start, lastSeq);
    if !SnapshotEndMatches(stream, wants, start, lastSeq) {
      MatchingSplit(stream, wants, start, top, next);
      MatchingNone(stream, wants, top, next);
    }
  }

  /** A snapshot grown by copies of one message, far enough for a replay to start. */
  function Grown(snapshot: seq<Stored>, start: nat, m: Stored): seq<Stored> {
    snapshot + seq(Top(start, |snapshot|) - |snapshot| + 1, _ => m)
  }

  lemma GrownReadsOneMore(snapshot: seq<Stored>, wants: Filter, start: nat, m: Stored)
    requires wants(m.subject) && m.body.Envelope?
    requires !SnapshotEndMatches(snapshot, wants, start, |snapshot|)
    ensures var stream := Grown(snapshot, start, m);
            snapshot <= stream && start <= |stream| &&
            Delivered(stream, wants, start, |snapshot|) ==
            Matching(snapshot, wants, start, |snapshot|) + [m.body.event]
  {
    var stream, top := Grown(snapshot, start, m), Top(start, |snapshot|);
    assert stream[..|snapshot|] == snapshot;
    assert stream[top] == m;
    assert NextMatch(stream, wants, top) == top;
    DeliveredIsHistoryAndOneMore(snapshot, stream, wants, start);
  }

  /** Whether a replay is exactly the history of its snapshot, however the stream grows meanwhile,
      is settled when the snapshot is taken: iff the message at its last sequence number is itself
      among those to replay. Otherwise one event published after the call began can be read. */
  lemma ExactHistoryIff(snapshot: seq<Stored>, wants: Filter, start: nat, m: Stored)
    requires wants(m.subject) && m.body.Envelope?
    ensures (forall stream | snapshot <= stream && start <= |stream| ::
               Delivered(stream, wants, start, |snapshot|) == Matching(snapshot, wants, start, |snapshot|))
            <==> SnapshotEndMatches(snapshot, wants, start, |snapshot|)
  {
    if SnapshotEndMatches(snapshot, wants, start, |snapshot|) {
      forall stream | snapshot <= stream && start <= |stream|
        ensures Delivered(stream, wants, start, |snapshot|) == Matching(snapshot, wants, start, |snapshot|)
      {
        DeliveredIsHistoryAndOneMore(snapshot, stream, wants, start);
      }
    } else {
      GrownReadsOneMore(snapshot, wants, start, m);
      assert |Delivered(Grown(snapshot, start, m), wants, start, |snapshot|)| ==
             |Matching(snapshot, wants, start, |snapshot|)| + 1;
    }
  }

  /** In a stream whose times do not decrease, the positions a replay starts from are exactly those
      at or after `since`. */
  lemma StartIsExact(stream: seq<Stored>, since: Since, i: nat)
    requires i < |stream| && forall j, k | 0 <= j <= k < |stream| :: stream[j].time <= stream[k].time
    ensures i >= StartPosition(stream, since, 0) <==> since.FromStart? || stream[i].time >= since.time
  {
    var p := StartPosition(stream, since, 0);
    if since.From? && i >= p { assert stream[p].time <= stream[i].time; }
  }

  lemma PrefixUpTo(stream: seq<Stored>, wants: Filter, start: nat, mid: nat, hi: nat)
    requires start <= mid <= hi <= |stream|
    ensures Matching(stream, wants, start, mid) <= Matching(stream, wants, start, hi)
  {
    MatchingSplit(stream, wants, start, mid, hi);
  }

  lemma PrefixOfDelivered(stream: seq<Stored>, wants: Filter, start: nat, lastSeq: nat, cursor: nat)
    requires start <= cursor <= |stream| && lastSeq <= |stream|
    requires cursor == start || cursor < lastSeq
    ensures Matching(stream, wants, start, cursor) <= Delivered(stream, wants, start, lastSeq)
  {
    PrefixUpTo(stream, wants, start, cursor, End(stream, wants, start, lastSeq));
  }

  /** The next match is delivered, and ends the replay if it is at or past the boundary. */
  lemma EndAtOrAfter(stream: seq<Stored>, wants: Filter, start: nat, lastSeq: nat, cursor: nat)
    requires start <= cursor <= |stream| && lastSeq <= |stream|
    requires cursor == start || cursor < lastSeq
    requires NextMatch(stream, wants, cursor) < |stream|
    ensures var p, e := NextMatch(stream, wants, cursor), End(stream, wants, start, lastSeq);
            p + 1 <= e && (p + 1 >= lastSeq ==> e == p + 1)
  {
    var p, top := NextMatch(stream, wants, cursor), Top(start, lastSeq);
    var next := NextMatch(stream, wants, top);
    if p >= top { assert next == p; }
    if p + 1 == lastSeq { assert SnapshotEndMatches(stream, wants, start, lastSeq); }
  }

  lemma NothingLeft(stream: seq<Stored>, wants: Filter, start: nat, lastSeq: nat, cursor: nat)
    requires start <= cursor <= |stream| && lastSeq <= |stream|
    requires cursor == start || cursor < lastSeq
    requires NextMatch(stream, wants, cursor) == |stream|
    ensures Matching(stream, wants, start, cursor) == Delivered(stream, wants, start, lastSeq)
  {
    var e := End(stream, wants, start, lastSeq);
    MatchingSplit(stream, wants, start, cursor, e);
    MatchingNone(stream, wants, cursor, e);
  }

  /** The loop's progress: everything up to the cursor has been handled, and the cursor has not
      passed the snapshot boundary. */
  ghost predicate Progress(stream: seq<Stored>, wants: Filter, start: nat, lastSeq: nat, cursor: nat,
        handled: seq<Event>)
  {
    start <= cursor <= |stream| && lastSeq <= |stream| && (cursor == start || cursor < lastSeq) &&
    handled == Matching(stream, wants, start, cursor)
  }

  lemma GrowsNext(env: Environment, calls: nat)
    requires Growing(env)
    ensures env.view(calls + 1) <= env.view(calls + 2)
  {
    assert Extends(env, calls + 1, calls + 2);
  }

  lemma ProgressStart(stream: seq<Stored>, wants: Filter, start: nat, lastSeq: nat)
    requires start <= |stream| && lastSeq <= |stream|
    ensures Progress(stream, wants, start, lastSeq, start, [])
  {
  }

  lemma ProgressGrows(a: seq<Stored>, b: seq<Stored>, wants: Filter, start: nat, lastSeq: nat, cursor: nat,
        handled: seq<Event>)
    requires a <= b && Progress(a, wants, start, lastSeq, cursor, handled)
    ensures Progress(b, wants, start, lastSeq, cursor, handled)
  {
    MatchingPrefix(a, b, wants, start, cursor);
  }

  lemma ReadNext(stream: seq<Stored>, wants: Filter, start: nat, cursor: nat)
    requires start <= cursor <= |stream| && NextMatch(stream, wants, cursor) < |stream|
    ensures var p := NextMatch(stream, wants, cursor);
            Matching(stream, wants, start, p + 1) ==
            Matching(stream, wants, start, cursor) + EventAt(stream[p], wants)
  {
    var p := NextMatch(stream, wants, cursor);
    MatchingSplit(stream, wants, start, cursor, p);
    MatchingNone(stream, wants, cursor, p);
  }

  /** Handling the next match stays within what is delivered, and completes it at the boundary. */
  lemma ProgressStep(stream: seq<Stored>, wants: Filter, start: nat, lastSeq: nat, cursor: nat)
    requires start <= cursor <= |stream| && lastSeq <= |stream|
    requires cursor == start || cursor < lastSeq
    requires NextMatch(stream, wants, cursor) < |stream|
    ensures var p := NextMatch(stream, wants, cursor);
            && Matching(stream, wants, start, p + 1) <= Delivered(stream, wants, start, lastSeq)
            && (p + 1 >= lastSeq ==>
                  Matching(stream, wants, start, p + 1) == Delivered(stream, wants, start, lastSeq))
  {
    var p := NextMatch(stream, wants, cursor);
    EndAtOrAfter(stream, wants, start, lastSeq, cursor);
    PrefixUpTo(stream, wants, start, p + 1, End(stream, wants, start, lastSeq));
  }

  lemma ProgressWithin(stream: seq<Stored>, wants: Filter, start: nat, lastSeq: nat, cursor: nat,
        handled: seq<Event>)
    requires Progress(stream, wants, start, lastSeq, cursor, handled)
    ensures handled <= Delivered(stream, wants, start, lastSeq)
  {
    PrefixOfDelivered(stream, wants, start, lastSeq, cursor);
  }

  lemma ProgressAtEnd(stream: seq<Stored>, wants: Filter, start: nat, lastSeq: nat, cursor: nat, handled: seq<Event>)
    requires Progress(stream, wants, start, lastSeq, cursor, handled)
    requires NextMatch(stream, wants, cursor) == |stream|
    ensures handled == Delivered(stream, wants, start, lastSeq)
  {
    NothingLeft(stream, wants, start, lastSeq, cursor);
  }

  /** Having handled the message at p, the next match after `handled`. */
  ghost predicate TookNext(stream: seq<Stored>, wants: Filter, start: nat, lastSeq: nat, cursor: nat,
        handled: seq<Event>, p: nat, more: seq<Event>)
  {
    && Progress(stream, wants, start, lastSeq, cursor, handled)
    && p == NextMatch(stream, wants, cursor) < |stream|
    && more == handled + EventAt(stream[p], wants)
  }

  lemma TookWithin(stream: seq<Stored>, wants: Filter, start: nat, lastSeq: nat, cursor: nat,
        handled: seq<Event>, p: nat, more: seq<Event>)
    requires TookNext(stream, wants, start, lastSeq, cursor, handled, p, more)
    ensures more <= Delivered(stream, wants, start, lastSeq)
    ensures p + 1 >= lastSeq ==> more == Delivered(stream, wants, start, lastSeq)
  {
    ReadNext(stream, wants, start, cursor);
    ProgressStep(stream, wants, start, lastSeq, cursor);
  }

  lemma TookProgress(stream: seq<Stored>, wants: Filter, start: nat, lastSeq: nat, cursor: nat,
        handled: seq<Event>, p: nat, more: seq<Event>)
    requires TookNext(stream, wants, start, lastSeq, cursor, handled, p, more) && p + 1 < lastSeq
    ensures Progress(stream, wants, start, lastSeq, p + 1, more)
  {
    ReadNext(stream, wants, start, cursor);
  }

  /** The rounds of the loop so far, each with the event it handled, if any. */
  datatype Rounds = Begin | Then(before: Rounds, got: Took)

  datatype Took = Nothing | Handled(event: Event)

  function Count(r: Rounds): nat { if r.Begin? then 0 else Count(r.before) + 1 }

  /** The events of the rounds, in order. */
  function Total(r: Rounds): seq<Event> {
    match r
    case Begin => []
    case Then(before, Nothing) => Total(before)
    case Then(before, Handled(e)) => Total(before) + [e]
  }

  /** In every round the context was live and neither NextMsg nor the handler failed. */
  ghost predicate Smooth(env: Environment, r: Rounds) {
    r.Then? ==>
      && Smooth(env, r.before) && env.live(Count(r.before)) && !env.nextFails(Count(r.before))
      && (r.got.Handled? ==> !env.handlerFails(Count(r.before), r.got.event))
  }

  /** Which round is the i-th. */
  function RoundAt(r: Rounds, i: nat): Took
    requires i < Count(r)
  {
    if i == Count(r.before) then r.got else RoundAt(r.before, i)
  }

  lemma {:induction false} SmoothMeans(env: Environment, r: Rounds, i: nat)
    requires Smooth(env, r) && i < Count(r)
    ensures env.live(i) && !env.nextFails(i)
    ensures RoundAt(r, i).Handled? ==> !env.handlerFails(i, RoundAt(r, i).event)
  {
    if i < Count(r.before) { SmoothMeans(env, r.before, i); }
  }

  /** How the loop ended with these rounds: an error in the last one, a context done after it, or no error
      at all, after at least one round. */
  ghost predicate EndedAs(env: Environment, exit: Exit, r: Rounds) {
    match exit
    case Finished => r.Then? && Smooth(env, r)
    case Cancelled => Smooth(env, r) && !env.live(Count(r))
    case NextError =>
      && r.Then? && Smooth(env, r.before) && env.live(Count(r.before))
      && r.got == Nothing && env.nextFails(Count(r.before))
    case HandlerError =>
      && r.Then? && Smooth(env, r.before) && env.live(Count(r.before)) && !env.nextFails(Count(r.before))
      && r.got.Handled? && env.handlerFails(Count(r.before), r.got.event)
    case _ => false
  }

  /** What the rounds have handled, measured against the last view read: a prefix of what is to be
      delivered, or all of it. */
  ghost predicate Within(stream: seq<Stored>, wants: Filter, start: nat, lastSeq: nat, r: Rounds, all: bool) {
    && start <= |stream| && lastSeq <= |stream|
    && Total(r) <= Delivered(stream, wants, start, lastSeq)
    && (all ==> Total(r) == Delivered(stream, wants, start, lastSeq))
  }

  ghost predicate Reading(stream: seq<Stored>, wants: Filter, start: nat, lastSeq: nat, cursor: nat, r: Rounds) {
    Progress(stream, wants, start, lastSeq, cursor, Total(r))
  }

  lemma ReadingOn(env: Environment, wants: Filter, start: nat, lastSeq: nat, cursor: nat, r: Rounds, i: nat, j: nat)
    requires Growing(env) && i <= j && Reading(env.view(i), wants, start, lastSeq, cursor, r)
    ensures Reading(env.view(j), wants, start, lastSeq, cursor, r)
  {
    assert Extends(env, i, j);
    ProgressGrows(env.view(i), env.view(j), wants, start, lastSeq, cursor, Total(r));
  }

  lemma NothingTaken(stream: seq<Stored>, wants: Filter, start: nat, lastSeq: nat, cursor: nat, r: Rounds)
    requires Reading(stream, wants, start, lastSeq, cursor, r)
    ensures Within(stream, wants, start, lastSeq, r, NextMatch(stream, wants, cursor) == |stream|)
  {
    ProgressWithin(stream, wants, start, lastSeq, cursor, Total(r));
    if NextMatch(stream, wants, cursor) == |stream| {
      ProgressAtEnd(stream, wants, start, lastSeq, cursor, Total(r));
    }
  }

  function Decoded(body: Wire): Took { if body.Envelope? then Handled(body.event) else Nothing }

  lemma OneTaken(stream: seq<Stored>, wants: Filter, start: nat, lastSeq: nat, cursor: nat, r: Rounds, p: nat)
    requires Reading(stream, wants, start, lastSeq, cursor, r)
    requires p == NextMatch(stream, wants, cursor) < |stream|
    ensures var r1 := Then(r, Decoded(stream[p].body));
            && Within(stream, wants, start, lastSeq, r1, p + 1 >= lastSeq)
            && (p + 1 < lastSeq ==> Reading(stream, wants, start, lastSeq, p + 1, r1))
  {
    var more := Total(Then(r, Decoded(stream[p].body)));
    assert more == Total(r) + EventAt(stream[p], wants);
    TookWithin(stream, wants, start, lastSeq, cursor, Total(r), p, more);
    if p + 1 < lastSeq { TookProgress(stream, wants, start, lastSeq, cursor, Total(r), p, more); }
  }

  datatype Turn = Stop(exit: Exit) | Continue(cursor: nat)

  /** NextMsg and what follows it, when the stream has grown to `stream`. NextMsg is taken to time out
      only when no matching message is available. */
  method TakeNext(env: Environment, stream: seq<Stored>, wants: Filter, start: nat, lastSeq: nat, cursor: nat,
        r: Rounds)
    returns (turn: Turn, got: Took)
    requires Reading(stream, wants, start, lastSeq, cursor, r)
    ensures turn == Stop(NextError) <==> env.nextFails(Count(r))
    ensures turn == Stop(HandlerError) <==>
            !env.nextFails(Count(r)) && got.Handled? && env.handlerFails(Count(r), got.event)
    ensures turn == Stop(NextError) ==> got == Nothing
    ensures turn.Stop? ==>
              && (turn.exit.NextError? || turn.exit.HandlerError? || turn.exit.Finished?)
              && Within(stream, wants, start, lastSeq, Then(r, got), turn.exit.Finished?)
    ensures turn.Continue? ==>
              cursor < turn.cursor < lastSeq &&
              Reading(stream, wants, start, lastSeq, turn.cursor, Then(r, got))
  {
    var call := Count(r);
    NothingTaken(stream, wants, start, lastSeq, cursor, r);
    if env.nextFails(call) {
      return Stop(NextError), Nothing;
    }
    var p := NextMatch(stream, wants, cursor);
    if p == |stream| {
      return Stop(Finished), Nothing;
    }
    got := Decoded(stream[p].body);
    OneTaken(stream, wants, start, lastSeq, cursor, r, p);
    if got.Handled? && env.handlerFails(call, got.event) {
      return Stop(HandlerError), got;
    }
    turn := if p + 1 >= lastSeq then Stop(Finished) else Continue(p + 1);
  }

  /** The same measured against the view that the rounds have read. */
  ghost predicate WithinView(env: Environment, wants: Filter, start: nat, lastSeq: nat, r: Rounds, all: bool) {
    Within(env.view(Count(r) + 1), wants, start, lastSeq, r, all)
  }

  ghost predicate ReadingView(env: Environment, wants: Filter, start: nat, lastSeq: nat, cursor: nat, r: Rounds) {
    Reading(env.view(Count(r) + 1), wants, start, lastSeq, cursor, r)
  }

  lemma StopsWithin(env: Environment, wants: Filter, start: nat, lastSeq: nat, cursor: nat, r: Rounds)
    requires ReadingView(env, wants, start, lastSeq, cursor, r)
    ensures WithinView(env, wants, start, lastSeq, r, false)
  {
    NothingTaken(env.view(Count(r) + 1), wants, start, lastSeq, cursor, r);
  }

  lemma TurnAt(env: Environment, wants: Filter, start: nat, lastSeq: nat, r: Rounds, got: Took, turn: Turn)
    requires turn.Stop? ==> Within(env.view(Count(r) + 2), wants, start, lastSeq, Then(r, got), turn.exit.Finished?)
    requires turn.Continue? ==> Reading(env.view(Count(r) + 2), wants, start, lastSeq, turn.cursor, Then(r, got))
    ensures turn.Stop? ==> WithinView(env, wants, start, lastSeq, Then(r, got), turn.exit.Finished?)
    ensures turn.Continue? ==> ReadingView(env, wants, start, lastSeq, turn.cursor, Then(r, got))
  {
    assert Count(Then(r, got)) + 1 == Count(r) + 2;
  }

  /** One turn of the loop with a live context. */
  method ReadOne(env: Environment, wants: Filter, start: nat, lastSeq: nat, cursor: nat, r: Rounds)
    returns (turn: Turn, got: Took)
    requires Growing(env) && ReadingView(env, wants, start, lastSeq, cursor, r)
    ensures turn == Stop(NextError) <==> env.nextFails(Count(r))
    ensures turn == Stop(HandlerError) <==>
            !env.nextFails(Count(r)) && got.Handled? && env.handlerFails(Count(r), got.event)
    ensures turn == Stop(NextError) ==> got == Nothing
    ensures turn.Stop? ==>
              && (turn.exit.NextError? || turn.exit.HandlerError? || turn.exit.Finished?)
              && WithinView(env, wants, start, lastSeq, Then(r, got), turn.exit.Finished?)
    ensures turn.Continue? ==>
              cursor < turn.cursor < lastSeq && ReadingView(env, wants, start, lastSeq, turn.cursor, Then(r, got))
  {
    ReadingOn(env, wants, start, lastSeq, cursor, r, Count(r) + 1, Count(r) + 2);
    turn, got := TakeNext(env, env.view(Count(r) + 2), wants, start, lastSeq, cursor, r);
    TurnAt(env, wants, start, lastSeq, r, got, turn);
  }

  /** The loop. An error ends it in the turn in which it occurs, and nothing else does but the context
      and the end of the history. */
  method ReadLoop(env: Environment, wants: Filter, start: nat, lastSeq: nat) returns (exit: Exit, r: Rounds)
    requires Growing(env) && start <= |env.view(1)| && lastSeq <= |env.view(1)|
    ensures EndedAs(env, exit, r)
    ensures WithinView(env, wants, start, lastSeq, r, exit.Finished?)
  {
    r := Begin;
    var cursor := start;
    while true
      invariant Smooth(env, r) && ReadingView(env, wants, start, lastSeq, cursor, r)
      decreases lastSeq - cursor
    {
      if !env.live(Count(r)) {
        StopsWithin(env, wants, start, lastSeq, cursor, r);
        return Cancelled, r;
      }
      var turn, got := ReadOne(env, wants, start, lastSeq, cursor, r);
      r := Then(r, got);
      if turn.Stop? {
        return turn.exit, r;
      }
      cursor := turn.cursor;
    }
  }

  function FilterOf(filter: string): (f: Filter)
    ensures forall subject :: f(subject) <==> Matches(filter, subject)
  {
    subject => Matches(filter, subject)
  }

  /** No call of the environment fails and the context stays live. */
  ghost predicate Untroubled(env: Environment) {
    && !env.infoFails && !env.subscribeFails
    && (forall i: nat :: env.live(i) && !env.nextFails(i))
    && forall i: nat, e: Event :: !env.handlerFails(i, e)
  }

  /** The whole call, with its rounds. On a normal return the handled events, `Total(r)`, are exactly
      those delivered for the last view read, `view(Count(r) + 1)`; every other exit has handled a
      prefix of them, and is taken exactly when its error occurs. */
  method Replay(env: Environment, filter: string, since: Since) returns (exit: Exit, r: Rounds)
    requires Growing(env)
    ensures exit == SubjectRequired <==> filter == ""
    ensures exit == InfoError <==> filter != "" && env.infoFails
    ensures exit == SubscribeError <==> filter != "" && !env.infoFails && env.view(0) != [] && env.subscribeFails
    ensures exit.SubjectRequired? || exit.InfoError? || exit.SubscribeError? || env.view(0) == [] ==> r == Begin
    ensures filter != "" && !env.infoFails && env.view(0) == [] ==> exit == Finished
    ensures filter != "" && Untroubled(env) ==> exit == Finished
    ensures exit.Cancelled? || exit.NextError? || exit.HandlerError? || (exit.Finished? && env.view(0) != []) ==>
              EndedAs(env, exit, r)
    ensures var start := StartPosition(env.view(1), since, 0);
            WithinView(env, FilterOf(filter), start, |env.view(0)|, r, exit == Finished && env.view(0) != [])
  {
    assert Extends(env, 0, 1);
    assert Matching(env.view(1), FilterOf(filter), 0, 0) == [];
    if filter == "" { return SubjectRequired, Begin; }
    if env.infoFails { return InfoError, Begin; }
    var lastSeq := |env.view(0)|;
    if lastSeq == 0 { return Finished, Begin; }
    if env.subscribeFails { return SubscribeError, Begin; }
    exit, r := ReadLoop(env, FilterOf(filter), StartPosition(env.view(1), since, 0), lastSeq);
  }
}
