/** Any number of requests in flight at once, in any order of arrival and completion,
    with any clock readings. */
module Schedules {
  import opened Text
  import opened Ranking
  import opened EventLog
  import opened Collector
  import opened Server
  import G = GhUrl

  /** What happens next: a request arrives and is served, or a pending one finishes.
      `page` is what the status page would show, and `taken` how much of the text of a
      denial the client takes. */
  datatype Move =
    | Arrives(req: HttpRequest, page: seq<Op>, mono: int, taken: nat)
    | Finishes(which: nat, later: int, at: int)

  // ---- what a schedule amounts to ----

  /** A move as the books see it: a request that is recorded, one on the status path that
      is answered at once, or a finish. */
  datatype Entering = Enters(d: Decision) | Asks(answer: seq<Op>) | Leaves(which: nat)

  function Judged(cfg: Config, move: Move): Entering {
    match move
    case Arrives(req, page, _, taken) =>
      if IsStatusPath(cfg, req.path) then Asks(StatusAnswer(cfg, req, page, Min(taken, 19)))
      else Enters(Decide(cfg, req))
    case Finishes(which, _, _) => Leaves(which)
  }

  ghost predicate AllJudged(cfg: Config, schedule: seq<Move>, moves: seq<Entering>) {
    && |moves| == |schedule|
    && forall i {:trigger Judged(cfg, schedule[i])} :: 0 <= i < |moves| ==> moves[i] == Judged(cfg, schedule[i])
  }

  /** The moves of a schedule, with every request decided. */
  function JudgedAll(cfg: Config, schedule: seq<Move>): (moves: seq<Entering>)
    ensures AllJudged(cfg, schedule, moves)
  {
    seq(|schedule|, i requires 0 <= i < |schedule| => Judged(cfg, schedule[i]))
  }

  function Without<T>(s: seq<T>, i: nat): (r: seq<T>)
    requires i < |s|
    ensures |r| == |s| - 1
    ensures forall k :: 0 <= k < |r| ==> r[k] == s[if k < i then k else k + 1]
  {
    s[..i] + s[i + 1..]
  }

  /** The decisions on pending requests, and on finished ones in the order they finish;
      and what was answered on the status path. */
  datatype Books = Books(pending: seq<Decision>, finished: seq<Decision>, shown: seq<seq<Op>>)

  function Finished(b: Books, which: nat): Books
    requires which < |b.pending|
  {
    b.(pending := Without(b.pending, which), finished := b.finished + [b.pending[which]])
  }

  /** A finish for no pending request is no move. */
  function Turned(b: Books, move: Entering): Books {
    match move
    case Enters(d) => b.(pending := b.pending + [d])
    case Asks(answer) => b.(shown := b.shown + [answer])
    case Leaves(which) => if which < |b.pending| then Finished(b, which) else b
  }

  function Played(moves: seq<Entering>): Books {
    if moves == [] then Books([], [], []) else Turned(Played(moves[..|moves| - 1]), moves[|moves| - 1])
  }

  /** The decisions on all recorded requests, in the order they arrive. */
  function Arrived(moves: seq<Entering>): seq<Decision> {
    if moves == [] then [] else Arrived(moves[..|moves| - 1]) + ArrivedBy(moves[|moves| - 1])
  }

  function ArrivedBy(move: Entering): seq<Decision> { if move.Enters? then [move.d] else [] }

  lemma OneMove(moves: seq<Entering>, i: nat)
    requires i < |moves|
    ensures Played(moves[..i + 1]) == Turned(Played(moves[..i]), moves[i])
    ensures Arrived(moves[..i + 1]) == Arrived(moves[..i]) + ArrivedBy(moves[i])
  {
    assert moves[..i + 1][..i] == moves[..i];
  }

  lemma WithoutOne<T>(s: seq<T>, i: nat)
    requires i < |s|
    ensures multiset(s) == multiset(Without(s, i)) + multiset{s[i]}
  {
    assert s == s[..i] + [s[i]] + s[i + 1..];
  }

  function Held(b: Books): multiset<Decision> { multiset(b.pending) + multiset(b.finished) }

  lemma TurnedHeld(b: Books, move: Entering)
    ensures Held(Turned(b, move)) == Held(b) + multiset(ArrivedBy(move))
  {
    if move.Leaves? && move.which < |b.pending| {
      WithoutOne(b.pending, move.which);
    }
  }

  /** Main result: every request that arrives is either finished, once, or pending. */
  lemma {:induction false} EachOnce(moves: seq<Entering>)
    ensures Held(Played(moves)) == multiset(Arrived(moves))
  {
    if moves == [] {
    } else {
      EachOnce(moves[..|moves| - 1]);
      TurnedHeld(Played(moves[..|moves| - 1]), moves[|moves| - 1]);
    }
  }

  /** What is handed over to the proxy for decisions in a row. */
  function AllHandedOver(ds: seq<Decision>): seq<(G.Target, string)> {
    if ds == [] then [] else AllHandedOver(ds[..|ds| - 1]) + HandedOver(ds[|ds| - 1])
  }

  lemma HandedOverOne(ds: seq<Decision>, d: Decision)
    ensures AllHandedOver(ds + [d]) == AllHandedOver(ds) + HandedOver(d)
  {
    assert (ds + [d])[..|ds|] == ds;
  }

  /** How many of some decisions go to the proxy. */
  function Forwards(ds: seq<Decision>): nat { |AllHandedOver(ds)| }

  lemma {:induction false} ForwardsConcat(a: seq<Decision>, b: seq<Decision>)
    ensures Forwards(a + b) == Forwards(a) + Forwards(b)
  {
    if b == [] {
      assert a + b == a;
    } else {
      var init := b[..|b| - 1];
      assert (a + b)[..|a + b| - 1] == a + init;
      ForwardsConcat(a, init);
    }
  }

  lemma ForwardsWithout(ds: seq<Decision>, i: nat)
    requires i < |ds|
    ensures Forwards(ds) == Forwards(Without(ds, i)) + |HandedOver(ds[i])|
  {
    var front, back := ds[..i], ds[i + 1..];
    assert ds == front + [ds[i]] + back;
    ForwardsConcat(front + [ds[i]], back);
    HandedOverOne(front, ds[i]);
    ForwardsConcat(front, back);
  }

  lemma TurnedForwards(b: Books, move: Entering)
    ensures
      var c := Turned(b, move);
      Forwards(c.pending) + Forwards(c.finished) ==
      Forwards(b.pending) + Forwards(b.finished) + Forwards(ArrivedBy(move))
  {
    match move {
      case Enters(d) => ForwardsConcat(b.pending, [d]);
      case Asks(_) =>
      case Leaves(which) =>
        if which < |b.pending| {
          ForwardsWithout(b.pending, which);
          HandedOverOne(b.finished, b.pending[which]);
        }
    }
  }

  lemma {:induction false} ForwardsAddUp(moves: seq<Entering>)
    ensures Forwards(Played(moves).pending) + Forwards(Played(moves).finished) == Forwards(Arrived(moves))
  {
    if moves == [] {
    } else {
      var before, move := moves[..|moves| - 1], moves[|moves| - 1];
      ForwardsAddUp(before);
      TurnedForwards(Played(before), move);
      ForwardsConcat(Arrived(before), ArrivedBy(move));
    }
  }

  // ---- the run ----

  /** A request that has been served as decided and has not finished yet. */
  datatype Ticket = Ticket(d: Decision, rec: Recorder, cw: CountingWriter)

  function DecisionsOf(pending: seq<Ticket>): (ds: seq<Decision>)
    ensures |ds| == |pending| && forall i :: 0 <= i < |ds| ==> ds[i] == pending[i].d
  {
    seq(|pending|, i requires 0 <= i < |pending| => pending[i].d)
  }

  /** Entry by entry, the log reports the decisions. */
  predicate ReportsAll(log: Log, ds: seq<Decision>) {
    |log| == |ds| && forall i :: 0 <= i < |log| ==> Reports(log[i], ds[i])
  }

  /** Exactly the forwards among finished requests count as proxied. */
  lemma {:induction false} ProxiedAreForwards(log: Log, ds: seq<Decision>)
    requires ReportsAll(log, ds) && forall d :: d in ds ==> Countable(d)
    ensures CountOutcome(log, Proxied) == Forwards(ds)
  {
    if log == [] {
    } else {
      var n := |log| - 1;
      ProxiedAreForwards(Init(log), ds[..n]);
      assert Reports(log[n], ds[n]) && ds[n] in ds;
    }
  }

  /** What every decision of the pipeline satisfies, as far as accounting goes. */
  predicate Countable(d: Decision) {
    match d
    case Deny(reason) => reason != ""
    case Preflight(t) => NamesItself(t)
    case Forward(t, _) => NamesItself(t)
  }

  /** Everything open is pending, and every entry comes from the pipeline. */
  ghost predicate Balanced(m: Metrics, pending: seq<Ticket>)
    reads m
  {
    AllShaped(m.log) && m.repeats == 0 && |m.open| == |pending|
  }

  ghost predicate InFlight(open: set<Recorder>, t: Ticket)
    reads t.rec, t.cw
  {
    t.rec in open && t.cw.Valid() && Settled(t.rec, t.d) && Countable(t.d)
  }

  ghost predicate AllInFlight(open: set<Recorder>, pending: seq<Ticket>)
    reads set t | t in pending :: t.rec, set t | t in pending :: t.cw
  {
    && (forall i :: 0 <= i < |pending| ==> InFlight(open, pending[i]))
    && forall i, j :: 0 <= i < j < |pending| ==> pending[i].rec != pending[j].rec
  }

  /** A request arrives. */
  method Arrive(h: Handler, pending: seq<Ticket>, req: HttpRequest, mono: int, taken: nat) returns (t: Ticket)
    requires h.metrics != null && h.metrics.Valid() && Balanced(h.metrics, pending) && taken <= 19
    modifies h, h.metrics
    ensures h.metrics.Valid() && Balanced(h.metrics, pending + [t])
    ensures fresh(t.rec) && fresh(t.cw) && InFlight(h.metrics.open, t) && t.d == Decide(h.cfg, req)
    ensures h.metrics.open == old(h.metrics.open) + {t.rec}
    ensures h.metrics.log == old(h.metrics.log) && h.metrics.started == old(h.metrics.started) + 1
    ensures h.forwarded == old(h.forwarded) + HandedOver(t.d)
  {
    var rec, cw, panicked := h.Begin(req, mono, taken);
    t := Ticket(Decide(h.cfg, req), rec, cw);
    DecisionNamed(h.cfg, req);
  }

  /** A pending request finishes. */
  method Depart(h: Handler, pending: seq<Ticket>, which: nat, later: int, at: int)
    requires h.metrics != null && h.metrics.Valid() && Balanced(h.metrics, pending)
    requires which < |pending| && InFlight(h.metrics.open, pending[which])
    modifies h.metrics, h.metrics.recent, h.metrics.history
    ensures h.metrics.Valid() && Balanced(h.metrics, Without(pending, which))
    ensures h.metrics.open == old(h.metrics.open) - {pending[which].rec}
    ensures h.metrics.log != [] && Init(h.metrics.log) == old(h.metrics.log)
    ensures Reports(Last(h.metrics.log), pending[which].d)
    ensures h.metrics.started == old(h.metrics.started)
  {
    var t := pending[which];
    ghost var was := h.metrics.log;
    ghost var e := t.rec.EntryAt(RecordedStatus(t.cw.ops), BytesOf(t.cw.ops), later, at);
    h.End(t.rec, t.cw, later, at);
    EntryShaped(was, e, t.d);
    Extend(was, e);
  }

  lemma EntryShaped(log: Log, e: Entry, d: Decision)
    requires AllShaped(log) && Reports(e, d) && Countable(d)
    ensures AllShaped(log + [e])
  {
  }

  lemma TicketAdded(open: set<Recorder>, pending: seq<Ticket>, t: Ticket)
    requires AllInFlight(open, pending) && t.rec !in open && InFlight(open + {t.rec}, t)
    ensures AllInFlight(open + {t.rec}, pending + [t])
  {
    var more := pending + [t];
    forall i | 0 <= i < |more| ensures InFlight(open + {t.rec}, more[i]) {
      if i < |pending| { assert InFlight(open, pending[i]); }
    }
    forall i, j | 0 <= i < j < |more| ensures more[i].rec != more[j].rec {
      assert InFlight(open, pending[i]);
    }
  }

  lemma TicketRemoved(open: set<Recorder>, pending: seq<Ticket>, which: nat)
    requires AllInFlight(open, pending) && which < |pending|
    ensures AllInFlight(open - {pending[which].rec}, Without(pending, which))
  {
    var fewer := Without(pending, which);
    forall i | 0 <= i < |fewer| ensures InFlight(open - {pending[which].rec}, fewer[i]) {
      var k := if i < which then i else i + 1;
      assert InFlight(open, pending[k]);
    }
  }

  /** How things stand: the pending requests, the log, the number of requests started,
      what the proxy was given, and what was answered on the status path. */
  datatype Standing = Standing(pending: seq<Ticket>, log: Log, started: nat, forwarded: seq<(G.Target, string)>,
                               shown: seq<seq<Op>>)

  ghost function StandingOf(h: Handler, pending: seq<Ticket>, shown: seq<seq<Op>>): Standing
    requires h.metrics != null
    reads h, h.metrics
  {
    Standing(pending, h.metrics.log, h.metrics.started, h.forwarded, shown)
  }

  ghost predicate Entered(d: Decision, s: Standing, t: Standing) {
    && |t.pending| == |s.pending| + 1 && t.pending[..|s.pending|] == s.pending && t.pending[|s.pending|].d == d
    && t.log == s.log && t.started == s.started + 1 && t.forwarded == s.forwarded + HandedOver(d)
    && t.shown == s.shown
  }

  ghost predicate Left(which: nat, s: Standing, t: Standing)
    requires which < |s.pending|
  {
    && t.pending == Without(s.pending, which) && t.log != [] && Init(t.log) == s.log
    && Reports(Last(t.log), s.pending[which].d)
    && t.started == s.started && t.forwarded == s.forwarded && t.shown == s.shown
  }

  /** What one move does. */
  ghost predicate Moved(move: Entering, s: Standing, t: Standing) {
    match move
    case Enters(d) => Entered(d, s, t)
    case Asks(answer) => t == s.(shown := s.shown + [answer])
    case Leaves(which) => if which < |s.pending| then Left(which, s, t) else t == s
  }

  /** One step of a schedule. */
  method Step(h: Handler, pending: seq<Ticket>, ghost shown: seq<seq<Op>>, schedule: seq<Move>, i: nat,
              ghost moves: seq<Entering>)
    returns (next: seq<Ticket>, ghost nextShown: seq<seq<Op>>)
    requires h.metrics != null && h.metrics.Valid() && Balanced(h.metrics, pending)
    requires AllInFlight(h.metrics.open, pending)
    requires AllJudged(h.cfg, schedule, moves) && i < |schedule|
    modifies h, h.metrics, h.metrics.recent, h.metrics.history
    ensures h.metrics.Valid() && Balanced(h.metrics, next) && AllInFlight(h.metrics.open, next)
    ensures Moved(moves[i], old(StandingOf(h, pending, shown)), StandingOf(h, next, nextShown))
  {
    next, nextShown := pending, shown;
    assert moves[i] == Judged(h.cfg, schedule[i]);
    match schedule[i] {
      case Arrives(req, page, mono, taken) =>
        if h.OnStatusPath(req.path) {
          var cw := new CountingWriter();
          h.ServeStatus(cw, req, page, Min(taken, 19));
          nextShown := shown + [cw.ops];
        } else {
          next := Enter(h, pending, shown, req, mono, Min(taken, 19));
        }
      case Finishes(which, later, at) =>
        if which < |pending| {
          next := Leave(h, pending, shown, which, later, at);
        }
    }
  }

  /** The step of a request that is recorded. */
  method Enter(h: Handler, pending: seq<Ticket>, ghost shown: seq<seq<Op>>, req: HttpRequest, mono: int, taken: nat)
    returns (next: seq<Ticket>)
    requires h.metrics != null && h.metrics.Valid() && Balanced(h.metrics, pending) && taken <= 19
    requires AllInFlight(h.metrics.open, pending)
    modifies h, h.metrics
    ensures h.metrics.Valid() && Balanced(h.metrics, next) && AllInFlight(h.metrics.open, next)
    ensures Entered(Decide(h.cfg, req), old(StandingOf(h, pending, shown)), StandingOf(h, next, shown))
  {
    ghost var open := h.metrics.open;
    var t := Arrive(h, pending, req, mono, taken);
    TicketAdded(open, pending, t);
    next := pending + [t];
  }

  /** The step of a request that finishes. */
  method Leave(h: Handler, pending: seq<Ticket>, ghost shown: seq<seq<Op>>, which: nat, later: int, at: int)
    returns (next: seq<Ticket>)
    requires h.metrics != null && h.metrics.Valid() && Balanced(h.metrics, pending) && which < |pending|
    requires AllInFlight(h.metrics.open, pending)
    modifies h.metrics, h.metrics.recent, h.metrics.history
    ensures h.metrics.Valid() && Balanced(h.metrics, next) && AllInFlight(h.metrics.open, next)
    ensures Left(which, old(StandingOf(h, pending, shown)), StandingOf(h, next, shown))
  {
    ghost var open := h.metrics.open;
    Depart(h, pending, which, later, at);
    TicketRemoved(open, pending, which);
    next := Without(pending, which);
  }

  /** How things stand agrees with the books and the arrivals. */
  ghost predicate Agrees(b: Books, arrived: seq<Decision>, s: Standing) {
    && DecisionsOf(s.pending) == b.pending && ReportsAll(s.log, b.finished)
    && s.started == |arrived| && s.forwarded == AllHandedOver(arrived) && s.shown == b.shown
  }

  lemma EnteredAgrees(b: Books, arrived: seq<Decision>, d: Decision, s: Standing, t: Standing)
    requires Agrees(b, arrived, s) && Entered(d, s, t)
    ensures Agrees(b.(pending := b.pending + [d]), arrived + [d], t)
  {
    HandedOverOne(arrived, d);
    DecisionsGrow(s.pending, t.pending, d);
  }

  lemma DecisionsGrow(pending: seq<Ticket>, next: seq<Ticket>, d: Decision)
    requires |next| == |pending| + 1 && next[..|pending|] == pending && next[|pending|].d == d
    ensures DecisionsOf(next) == DecisionsOf(pending) + [d]
  {
    assert forall i | 0 <= i < |pending| :: next[i] == next[..|pending|][i];
  }

  lemma LeftAgrees(b: Books, arrived: seq<Decision>, which: nat, s: Standing, t: Standing)
    requires Agrees(b, arrived, s) && which < |s.pending| && Left(which, s, t)
    ensures Agrees(Finished(b, which), arrived, t)
  {
    assert DecisionsOf(t.pending) == Without(DecisionsOf(s.pending), which);
    assert forall i | 0 <= i < |s.log| :: t.log[i] == s.log[i];
  }

  lemma MovedAgrees(moves: seq<Entering>, i: nat, s: Standing, t: Standing)
    requires i < |moves| && Moved(moves[i], s, t)
    requires Agrees(Played(moves[..i]), Arrived(moves[..i]), s)
    ensures Agrees(Played(moves[..i + 1]), Arrived(moves[..i + 1]), t)
  {
    OneMove(moves, i);
    AgreesOn(Played(moves[..i]), Arrived(moves[..i]), moves[i], s, t);
  }

  lemma AgreesOn(b: Books, arrived: seq<Decision>, move: Entering, s: Standing, t: Standing)
    requires Agrees(b, arrived, s) && Moved(move, s, t)
    ensures Agrees(Turned(b, move), arrived + ArrivedBy(move), t)
  {
    match move {
      case Enters(d) => EnteredAgrees(b, arrived, d, s, t);
      case Asks(_) => assert arrived + [] == arrived;
      case Leaves(which) =>
        assert arrived + [] == arrived;
        if which < |s.pending| {
          LeftAgrees(b, arrived, which, s, t);
        }
    }
  }

  lemma GaugeIsPending(m: Metrics, pending: seq<Ticket>)
    requires m.Valid() && Balanced(m, pending)
    ensures m.inFlight == |pending| && m.started == |m.log| + |pending|
  {
  }

  /** With every entry from the pipeline, the kinds count what was not denied. */
  lemma KindsBalance(m: Metrics)
    requires m.Valid() && AllShaped(m.log)
    ensures SumOf(m.kinds) == m.proxied + m.preflight
  {
    KindsAddUp(m.log);
    IndexIs(m.view, m.log);
    MapAgrees(m.log, KindColumn);
    TotalsAgree(m.log);
  }

  /** What the books say of the counters. */
  lemma BooksBalance(moves: seq<Entering>, s: Standing)
    requires Agrees(Played(moves), Arrived(moves), s)
    requires forall d :: d in Played(moves).finished ==> Countable(d)
    ensures multiset(DecisionsOf(s.pending)) + multiset(Played(moves).finished) == multiset(Arrived(moves))
    ensures |s.forwarded| == CountOutcome(s.log, Proxied) + Forwards(DecisionsOf(s.pending))
  {
    EachOnce(moves);
    ForwardsAddUp(moves);
    ProxiedAreForwards(s.log, Played(moves).finished);
  }

  /** Main result: in a snapshot of what the pipeline logged, the kinds add up to what
      was not denied. */
  lemma SnapshotKinds(s: Snapshot, log: Log, started: nat)
    requires Shows(s, log, started) && AllShaped(log)
    ensures SumPairs(s.kinds) == s.proxied + s.preflight
  {
    RankedList(s.kinds, ByCount, Tally(log, KindColumn));
    KindsAddUp(log);
  }

  /** Main result: whatever the interleaving, the log reports exactly the decisions on
      the requests that have finished, in that order; the rest of those that arrived off
      the status path are pending and make up the gauge; as many were started; the proxy
      was given exactly the forwards among them, in the order of arrival; and requests on
      the status path were answered and left no other trace. */
  method RunSchedule(h: Handler, schedule: seq<Move>) returns (pending: seq<Ticket>, ghost shown: seq<seq<Op>>)
    requires h.metrics != null && h.metrics.Valid() && h.forwarded == []
    requires h.metrics.log == [] && h.metrics.started == 0 && h.metrics.open == {} && h.metrics.repeats == 0
    modifies h, h.metrics, h.metrics.recent, h.metrics.history
    ensures h.metrics.Valid() && AllShaped(h.metrics.log)
    ensures
      var moves := JudgedAll(h.cfg, schedule);
      && Agrees(Played(moves), Arrived(moves), StandingOf(h, pending, shown))
      && multiset(DecisionsOf(pending)) + multiset(Played(moves).finished) == multiset(Arrived(moves))
    ensures h.metrics.inFlight == |pending| && h.metrics.started == |h.metrics.log| + |pending|
    ensures |h.forwarded| == CountOutcome(h.metrics.log, Proxied) + Forwards(DecisionsOf(pending))
    ensures SumOf(h.metrics.kinds) == h.metrics.proxied + h.metrics.preflight
  {
    pending, shown := [], [];
    ghost var moves := JudgedAll(h.cfg, schedule);
    for i := 0 to |schedule|
      invariant h.metrics.Valid() && Balanced(h.metrics, pending) && AllInFlight(h.metrics.open, pending)
      invariant Agrees(Played(moves[..i]), Arrived(moves[..i]), StandingOf(h, pending, shown))
    {
      ghost var was := StandingOf(h, pending, shown);
      pending, shown := Step(h, pending, shown, schedule, i, moves);
      MovedAgrees(moves, i, was, StandingOf(h, pending, shown));
    }
    assert moves[..|schedule|] == moves;
    GaugeIsPending(h.metrics, pending);
    KindsBalance(h.metrics);
    BooksBalance(moves, StandingOf(h, pending, shown));
  }
}
