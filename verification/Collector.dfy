/** The in-memory metrics collector (internal/metrics/metrics.go). Every method is one
    critical section, so any interleaving of requests is a sequence of calls. Clock
    readings are taken before the lock and are therefore arbitrary arguments. */
module Collector {
  import opened Text
  import opened Ranking
  import opened EventLog

  /** One request's outcome as it becomes known. */
  class Recorder {
    const start: int // monotonic nanoseconds
    const verb: string
    var kind: string
    var repo: string
    var reason: string
    var options: bool

    constructor (verb: string, start: int)
      ensures this.verb == verb && this.start == start
      ensures kind == "" && repo == "" && reason == "" && !options
    {
      this.verb, this.start := verb, start;
      kind, repo, reason, options := "", "", "", false;
    }

    method Deny(reason: string)
      modifies this`reason
      ensures this.reason == reason
    {
      this.reason := reason;
    }

    method Target(kind: string, repo: string)
      modifies this`kind, this`repo
      ensures this.kind == kind && this.repo == repo
    {
      this.kind, this.repo := kind, repo;
    }

    method Preflight()
      modifies this`options
      ensures options
    {
      options := true;
    }

    /** The log entry this recorder finishes as. */
    function EntryAt(status: int, bytes: int, mono: int, at: int): Entry
      reads this
    {
      var d := mono - start;
      Entry(Event(at, verb, kind, repo, status, Max(0, bytes), Quot(d, 1000), reason), d, options)
    }
  }

  /** The log entry of a finished request, said of the arguments: its clock reading and
      status, its bytes with none below zero, its duration, and that in whole
      microseconds, rounded down. */
  ghost predicate Tells(e: Entry, r: Recorder, status: int, bytes: int, mono: int, at: int)
    reads r
  {
    && (e.event.at, e.event.verb, e.event.kind, e.event.repo) == (at, r.verb, r.kind, r.repo)
    && (e.event.status, e.event.reason, e.options) == (status, r.reason, r.options)
    && e.event.bytes == (if bytes < 0 then 0 else bytes) && e.nanos == mono - r.start
    && (mono >= r.start ==> e.event.micros * 1000 <= mono - r.start < e.event.micros * 1000 + 1000)
  }

  lemma EntryTells(r: Recorder, status: int, bytes: int, mono: int, at: int)
    ensures Tells(r.EntryAt(status, bytes, mono, at), r, status, bytes, mono, at)
  {
    QuotIs(mono - r.start, 1000);
  }

  /** `Snapshot`, with times in whole seconds and latencies in microseconds. */
  datatype Snapshot = Snapshot(
    version: string, startedAt: int, now: int, uptime: int,
    inFlight: int, total: nat, proxied: nat, denied: nat, preflight: nat, bytes: nat,
    avgMicros: int, maxMicros: int,
    status: seq<Pair>, reasons: seq<Pair>, kinds: seq<Pair>, topRepos: seq<Pair>,
    recent: seq<Event>, history: seq<Bucket>)

  /** A snapshot that shows exactly a log of finished requests out of those started. */
  ghost predicate Shows(s: Snapshot, log: Log, started: nat) {
    TotalsOf(s) == TotalsOfLog(log, started)
    && ShowsCounters(s.status, s.reasons, s.kinds, s.topRepos, log) && ShowsViews(s.recent, s.history, s.now, log)
  }

  datatype Totals = Totals(inFlight: int, total: nat, proxied: nat, denied: nat, preflight: nat, bytes: nat,
                           avgMicros: int, maxMicros: int)

  function TotalsOf(s: Snapshot): Totals {
    Totals(s.inFlight, s.total, s.proxied, s.denied, s.preflight, s.bytes, s.avgMicros, s.maxMicros)
  }

  function TotalsOfLog(log: Log, started: nat): Totals {
    Totals(started - |log|, |log|, CountOutcome(log, Proxied), CountOutcome(log, Denied),
           CountOutcome(log, Preflighted), SumBytes(log),
           AverageMicros(SumNanos(log), CountOutcome(log, Proxied)), Quot(MaxNanos(log), 1000))
  }

  function Assembled(version: string, startedAt: int, now: int, t: Totals, byStatus: seq<Pair>, byReason: seq<Pair>,
                     byKind: seq<Pair>, byRepo: seq<Pair>, recent: seq<Event>, history: seq<Bucket>): (s: Snapshot)
    ensures TotalsOf(s) == t && (s.version, s.startedAt, s.now, s.uptime) == (version, startedAt, now, now - startedAt)
    ensures (s.status, s.reasons, s.kinds, s.topRepos, s.recent, s.history) ==
            (byStatus, byReason, byKind, byRepo, recent, history)
  {
    Snapshot(version, startedAt, now, now - startedAt, t.inFlight, t.total, t.proxied, t.denied, t.preflight, t.bytes,
             t.avgMicros, t.maxMicros, byStatus, byReason, byKind, byRepo, recent, history)
  }

  /** A list is the sorted form of a counter map, however the map is walked. */
  ghost predicate Ranks(list: seq<Pair>, order: Order, m: map<string, nat>) {
    forall p :: Enumerates(p, m) ==> list == SortedSeq(order, p)
  }

  ghost predicate ShowsCounters(status: seq<Pair>, reasons: seq<Pair>, kinds: seq<Pair>, topRepos: seq<Pair>,
                                log: Log) {
    && Ranks(status, ByName, Tally(log, StatusColumn)) && Ranks(reasons, ByCount, Tally(log, ReasonColumn))
    && Ranks(kinds, ByCount, Tally(log, KindColumn))
    && forall p :: Enumerates(p, RepoTable(log)) ==> topRepos == Truncated(SortedSeq(ByCount, p))
  }

  ghost predicate ShowsViews(recent: seq<Event>, history: seq<Bucket>, now: int, log: Log) {
    && recent == RecentOf(log)
    && |history| == HISTORY_MINUTES
    && forall i :: 0 <= i < HISTORY_MINUTES ==>
         history[i] == ShownFor(log, Quot(now, 60) - (HISTORY_MINUTES - 1) + i)
  }

  class Metrics {
    const version: string
    const startedAt: int

    var inFlight: int
    var total: nat
    var proxied: nat
    var denied: nat
    var preflight: nat
    var bytes: nat
    var durSum: int
    var durMax: int
    var status: map<string, nat>
    var reasons: map<string, nat>
    var kinds: map<string, nat>
    var repos: map<string, nat>
    const recent: array<Event>
    var recentN: nat
    const history: array<Bucket>

    ghost var log: Log // every finished request, in the order of the lock
    ghost var view: Index // the counters and views as one value
    ghost var started: nat
    ghost var finished: nat
    ghost var open: set<Recorder> // started and not yet finished
    ghost var repeats: nat // calls of Finish on a recorder that is not open

    ghost predicate Valid()
      reads this, recent, history
    {
      GaugeValid() && IndexValid() && finished == |log|
    }

    ghost predicate GaugeValid()
      reads this`inFlight, this`started, this`finished, this`open, this`repeats
    {
      inFlight == started - finished && inFlight == |open| - repeats
    }

    ghost predicate IndexValid()
      reads this`total, this`bytes, this`proxied, this`denied, this`preflight, this`durSum, this`durMax
      reads this`status, this`reasons, this`kinds, this`repos, this`recentN, recent, history, this`view, this`log
    {
      && recent.Length == RECENT_CAP && history.Length == HISTORY_MINUTES
      && Kept(view) && IsIndexOf(view, log)
    }

    /** The fields are the parts of an index. */
    ghost predicate Kept(x: Index)
      reads this`total, this`bytes, this`proxied, this`denied, this`preflight, this`durSum, this`durMax
      reads this`status, this`reasons, this`kinds, this`repos, this`recentN, recent, history
    {
      x == Index(total, proxied, denied, preflight, bytes, durSum, durMax, status, reasons, kinds, repos,
                 recent[..], recentN, history[..])
    }

    /** `New`. */
    constructor (version: string, startedAt: int)
      ensures Valid() && fresh(recent) && fresh(history)
      ensures log == [] && started == 0 && open == {} && repeats == 0
    {
      this.version, this.startedAt := version, startedAt;
      inFlight, total, proxied, denied, preflight, bytes := 0, 0, 0, 0, 0, 0;
      durSum, durMax, recentN := 0, 0, 0;
      status, reasons, kinds, repos := map[], map[], map[], map[];
      recent := new Event[RECENT_CAP](_ => NO_EVENT);
      history := new Bucket[HISTORY_MINUTES](_ => Bucket(0, 0, 0));
      log, started, finished, open, repeats, view := [], 0, 0, {}, 0, NoIndex();
      new;
      NoEntries();
      assert recent[..] == NoIndex().recent && history[..] == NoIndex().history;
    }

    method Start(verb: string, mono: int) returns (r: Recorder)
      requires Valid()
      modifies this`inFlight, this`started, this`open
      ensures Valid() && fresh(r)
      ensures r.verb == verb && r.start == mono && r.kind == "" && r.repo == "" && r.reason == "" && !r.options
      ensures log == old(log) && started == old(started) + 1
      ensures open == old(open) + {r} && repeats == old(repeats)
    {
      r := new Recorder(verb, mono);
      Open(r);
    }

    method Open(r: Recorder)
      requires GaugeValid() && r !in open
      modifies this`inFlight, this`started, this`open
      ensures GaugeValid() && started == old(started) + 1 && open == old(open) + {r}
    {
      inFlight := inFlight + 1;
      started, open := started + 1, open + {r};
    }

    /** `Finish`. A clock before the epoch can index the wheel out of range; the
        panic leaves every other counter updated. */
    method Finish(r: Recorder, status: int, bytes: int, mono: int, at: int) returns (panicked: bool)
      requires Valid()
      modifies this, recent, history
      ensures Valid()
      ensures log == old(log) + [r.EntryAt(status, bytes, mono, at)] && started == old(started)
      ensures Tells(r.EntryAt(status, bytes, mono, at), r, status, bytes, mono, at)
      ensures open == old(open) - {r} && repeats == old(repeats) + if r in old(open) then 0 else 1
      ensures panicked <==> log != [] && SlotOf(Last(log)) < 0
    {
      var e := r.EntryAt(status, bytes, mono, at);
      Close(r);
      panicked := Record(e);
      EntryTells(r, status, bytes, mono, at);
    }

    method Record(e: Entry) returns (panicked: bool)
      requires IndexValid()
      modifies this`total, this`bytes, this`proxied, this`denied, this`preflight, this`durSum, this`durMax
      modifies this`status, this`reasons, this`kinds, this`repos, this`recentN, recent, history, this`view, this`log
      ensures IndexValid() && log == old(log) + [e] && |log| == old(|log|) + 1
      ensures panicked <==> log != [] && SlotOf(Last(log)) < 0
    {
      ghost var now := Step(view, e);
      OneEntry(view, log, e, now);
      panicked := Add(e, view, now);
      log, view := log + [e], now;
    }

    /** All counters and views take one entry. */
    method Add(e: Entry, ghost was: Index, ghost now: Index) returns (panicked: bool)
      requires Sized(was) && Kept(was) && now == Step(was, e)
      modifies this`total, this`bytes, this`proxied, this`denied, this`preflight, this`durSum, this`durMax
      modifies this`status, this`reasons, this`kinds, this`repos, this`recentN, recent, history
      ensures Kept(now)
      ensures panicked <==> SlotOf(e) < 0
    {
      ghost var x := StepTotals(was, e);
      ghost var y := StepMaps(x, e);
      AddToTotals(e, was, x);
      AddToMaps(e, x, y);
      panicked := AddToViews(e, y, now);
    }

    /** The gauge goes down whether or not the recorder was still open. */
    method Close(r: Recorder)
      requires GaugeValid()
      modifies this`inFlight, this`finished, this`open, this`repeats
      ensures GaugeValid() && finished == old(finished) + 1 && open == old(open) - {r}
      ensures repeats == old(repeats) + if r in old(open) then 0 else 1
    {
      inFlight := inFlight - 1;
      finished := finished + 1;
      if r !in open {
        repeats := repeats + 1;
        assert open - {r} == open;
      }
      open := open - {r};
    }

    method AddToTotals(e: Entry, ghost was: Index, ghost now: Index)
      requires Kept(was) && now == StepTotals(was, e)
      modifies this`total, this`bytes, this`proxied, this`denied, this`preflight, this`durSum, this`durMax
      ensures Kept(now)
    {
      total := total + 1;
      bytes := bytes + e.event.bytes;
      if e.event.reason != "" {
        denied := denied + 1;
      } else if e.options {
        preflight := preflight + 1;
      } else {
        AddDuration(e.nanos);
      }
    }

    method AddDuration(nanos: int)
      modifies this`proxied, this`durSum, this`durMax
      ensures (proxied, durSum, durMax) == (old(proxied) + 1, old(durSum) + nanos, Max(old(durMax), nanos))
    {
      proxied := proxied + 1;
      durSum := durSum + nanos;
      if nanos > durMax {
        durMax := nanos;
      }
    }

    method AddToMaps(e: Entry, ghost was: Index, ghost now: Index)
      requires Kept(was) && now == StepMaps(was, e)
      modifies this`status, this`reasons, this`kinds, this`repos
      ensures Kept(now)
    {
      status := Bump(status, Some(StatusClass(e.event.status)));
      if e.event.reason != "" {
        reasons := Bump(reasons, Some(e.event.reason));
      }
      if e.event.kind != "" {
        kinds := Bump(kinds, Some(e.event.kind));
      }
      AddRepo(e.event.repo);
    }

    method AddRepo(repo: string)
      modifies this`repos
      ensures repos == Admit(old(repos), repo)
    {
      if repo != "" {
        if repo in repos || |repos| < REPOS_CAP {
          repos := Bump(repos, Some(repo));
        }
      }
    }

    method AddToViews(e: Entry, ghost was: Index, ghost now: Index) returns (panicked: bool)
      requires Sized(was) && Kept(was) && now == StepViews(was, e)
      modifies this`recentN, recent, history
      ensures Kept(now)
      ensures panicked <==> SlotOf(e) < 0
    {
      recent[recentN % RECENT_CAP] := e.event;
      recentN := recentN + 1;
      var minute := Quot(e.event.at, 60);
      RemIsMod(minute);
      var k := Rem(minute, HISTORY_MINUTES);
      if k < 0 {
        return true;
      }
      if history[k].minute != minute {
        history[k] := Bucket(minute, 0, 0);
      }
      history[k] := history[k].(requests := history[k].requests + 1);
      history[k] := history[k].(bytes := history[k].bytes + e.event.bytes);
      panicked := false;
    }

    lemma TotalsFollow()
      requires Valid()
      ensures Totals(inFlight, total, proxied, denied, preflight, bytes,
                     AverageMicros(durSum, proxied), Quot(durMax, 1000)) == TotalsOfLog(log, started)
    {
      IndexIs(view, log);
      TotalsAgree(log);
    }

    /** The two wheels hold what the log says they should. */
    ghost predicate RingFor(l: Log)
      reads this`recentN, recent
    {
      recent.Length == RECENT_CAP && recentN == |l|
      && forall slot: nat :: slot < RECENT_CAP ==> recent[slot] == RingSlot(l, slot)
    }

    ghost predicate WheelFor(l: Log)
      reads history
    {
      history.Length == HISTORY_MINUTES && forall k: nat :: k < HISTORY_MINUTES ==> history[k] == Slot(l, k)
    }

    lemma ViewsFollow()
      requires Valid()
      ensures RingFor(log) && WheelFor(log)
    {
      IndexIs(view, log);
      TotalsAgree(log);
      RingAgrees(log);
      WheelAgrees(log);
      assert forall slot: nat | slot < RECENT_CAP :: recent[slot] == view.recent[slot];
      assert forall k: nat | k < HISTORY_MINUTES :: history[k] == view.history[k];
    }

    /** `recentEvents`: unrolls the ring, newest first. */
    method RecentEvents() returns (out: seq<Event>)
      requires RingFor(log)
      ensures out == RecentOf(log)
    {
      var n := recentN;
      if n > RECENT_CAP {
        n := RECENT_CAP;
      }
      out := [];
      for i := 1 to n + 1
        invariant |out| == i - 1
        invariant forall k :: 0 <= k < i - 1 ==> out[k] == RecentOf(log)[k]
      {
        RingHolds(log, |log| - i);
        out := out + [recent[(recentN - i) % RECENT_CAP]];
      }
    }

    /** `historyFrom`: the hour that ends with the current minute, oldest first. */
    method HistoryFrom(now: int) returns (out: seq<Bucket>)
      requires WheelFor(log)
      ensures |out| == HISTORY_MINUTES
      ensures forall i :: 0 <= i < HISTORY_MINUTES ==>
                out[i] == ShownFor(log, Quot(now, 60) - (HISTORY_MINUTES - 1) + i)
    {
      var cur := Quot(now, 60);
      out := [];
      var i := HISTORY_MINUTES - 1;
      while i >= 0
        invariant -1 <= i < HISTORY_MINUTES && |out| == HISTORY_MINUTES - 1 - i
        invariant forall k :: 0 <= k < |out| ==> out[k] == ShownFor(log, cur - (HISTORY_MINUTES - 1) + k)
      {
        var b := BucketOf(cur - i);
        out := out + [b];
        i := i - 1;
      }
    }

    /** The bucket of one minute, empty where the slot holds another. */
    method BucketOf(minute: int) returns (b: Bucket)
      requires WheelFor(log)
      ensures b == ShownFor(log, minute)
    {
      WrappedIndex(minute);
      b := history[Rem(Rem(minute, HISTORY_MINUTES) + HISTORY_MINUTES, HISTORY_MINUTES)];
      if b.minute != minute {
        b := Bucket(minute, 0, 0);
      }
      b := Bucket(minute, b.requests, b.bytes);
    }

    /** The pairs of a counter map, sorted. */
    static method SortedPairs(order: Order, m: map<string, nat>) returns (out: seq<Pair>)
      ensures Ranks(out, order, m)
    {
      var a := Pairs(m);
      ghost var p := a[..];
      SortInPlace(order, a);
      out := a[..];
      forall q | Enumerates(q, m) ensures out == SortedSeq(order, q) {
        OrderIndependent(order, p, q, m);
      }
    }

    /** `Snapshot`. */
    method TakeSnapshot(now: int) returns (s: Snapshot)
      requires Valid()
      ensures Shows(s, log, started) && ListsOrdered(s)
      ensures (s.version, s.startedAt, s.now, s.uptime) == (version, startedAt, now, now - startedAt)
    {
      var t := ReadTotals();
      var recentEvents, hour := Views(now);
      var byStatus, byReason, byKind, byRepo := SortedCounters();
      s := Assembled(version, startedAt, now, t, byStatus, byReason, byKind, byRepo, recentEvents, hour);
      SnapshotOrdered(s, log, started);
    }

    /** The plain numbers of a snapshot. */
    method ReadTotals() returns (t: Totals)
      requires Valid()
      ensures t == TotalsOfLog(log, started)
    {
      TotalsFollow();
      var avg := 0;
      if proxied > 0 {
        avg := Quot(Quot(durSum, proxied), 1000);
      }
      t := Totals(inFlight, total, proxied, denied, preflight, bytes, avg, Quot(durMax, 1000));
    }

    /** The recent list and the chart of a snapshot. */
    method Views(now: int) returns (recentEvents: seq<Event>, hour: seq<Bucket>)
      requires Valid()
      ensures ShowsViews(recentEvents, hour, now, log)
    {
      ViewsFollow();
      recentEvents := RecentEvents();
      hour := HistoryFrom(now);
    }

    /** The four sorted lists of a snapshot. */
    method SortedCounters() returns (byStatus: seq<Pair>, byReason: seq<Pair>, byKind: seq<Pair>, byRepo: seq<Pair>)
      requires Valid()
      ensures ShowsCounters(byStatus, byReason, byKind, byRepo, log)
    {
      IndexIs(view, log);
      MapAgrees(log, StatusColumn);
      MapAgrees(log, ReasonColumn);
      MapAgrees(log, KindColumn);
      ReposAgree(log);
      byStatus := SortedPairs(ByName, status);
      byReason := SortedPairs(ByCount, reasons);
      byKind := SortedPairs(ByCount, kinds);
      byRepo := SortedPairs(ByCount, repos);
      if |byRepo| > 10 {
        byRepo := byRepo[..10];
      }
    }
  }

  /** Go's double remainder is the mathematical one. */
  lemma WrappedIndex(minute: int)
    ensures Rem(Rem(minute, HISTORY_MINUTES) + HISTORY_MINUTES, HISTORY_MINUTES) == minute % HISTORY_MINUTES
  {
    RemIsMod(minute);
    var r := Rem(minute, HISTORY_MINUTES);
    assert minute == HISTORY_MINUTES * Quot(minute, HISTORY_MINUTES) + r;
  }

  /** A ranked list shows every entry once and in order. */
  lemma RankedList(list: seq<Pair>, order: Order, m: map<string, nat>)
    requires Ranks(list, order, m)
    ensures Enumerates(list, m) && SumPairs(list) == SumOf(m)
    ensures if order.ByCount? then OrderedByCount(list) else OrderedByName(list)
  {
    var p := SomeEnumeration(m);
    SortEnumerates(order, p, m);
    SortSorts(order, p);
    SortedIs(order, list);
    SumEnumerated(list, m);
  }

  /** Main result: all the numbers of one snapshot agree with each other. */
  lemma SnapshotConserves(s: Snapshot, log: Log, started: nat)
    requires Shows(s, log, started)
    ensures started == s.total + s.inFlight
    ensures s.total == s.proxied + s.denied + s.preflight == SumPairs(s.status)
    ensures s.denied == SumPairs(s.reasons)
    ensures s.bytes == SumBytes(log)
    ensures s.avgMicros <= s.maxMicros
    ensures |s.recent| == Min(25, s.total) && |s.history| == 60
    ensures |s.topRepos| == Min(10, Min(1000, |Names(log)|))
  {
    Conservation(log);
    RankedList(s.status, ByName, Tally(log, StatusColumn));
    RankedList(s.reasons, ByCount, Tally(log, ReasonColumn));
    AverageBelowMax(log);
    var p := SomeEnumeration(RepoTable(log));
    TopTen(p, RepoTable(log));
    RepoTableExact(log);
  }

  /** The reasons, kinds and repositories are ordered by count and then by name, the
      status classes by name. */
  ghost predicate ListsOrdered(s: Snapshot) {
    && OrderedByName(s.status) && OrderedByCount(s.reasons) && OrderedByCount(s.kinds) && OrderedByCount(s.topRepos)
  }

  /** Main result: so are the lists of every snapshot. */
  lemma SnapshotOrdered(s: Snapshot, log: Log, started: nat)
    requires Shows(s, log, started)
    ensures ListsOrdered(s)
  {
    RankedList(s.status, ByName, Tally(log, StatusColumn));
    RankedList(s.reasons, ByCount, Tally(log, ReasonColumn));
    RankedList(s.kinds, ByCount, Tally(log, KindColumn));
    var p := SomeEnumeration(RepoTable(log));
    TopTen(p, RepoTable(log));
  }

  lemma {:induction false} SomeEnumeration(m: map<string, nat>) returns (p: seq<Pair>)
    ensures Enumerates(p, m)
    decreases |m|
  {
    if m == map[] {
      p := [];
    } else {
      var name :| name in m;
      assert (m - {name}).Keys == m.Keys - {name};
      var q := SomeEnumeration(m - {name});
      p := q + [Pair(name, m[name])];
      forall other | other in m ensures Pair(other, m[other]) in p {
        assert other == name || Pair(other, (m - {name})[other]) in q;
      }
    }
  }

  /** Main result: every repository shown is shown with its full count. */
  lemma TopReposExact(s: Snapshot, log: Log, started: nat, i: nat)
    requires Shows(s, log, started) && i < |s.topRepos|
    ensures s.topRepos[i].count == Count(log, RepoColumn, s.topRepos[i].name) > 0
    ensures s.topRepos[i].name in Admitted(log)
  {
    var p := SomeEnumeration(RepoTable(log));
    TopTen(p, RepoTable(log));
    RepoTableExact(log);
    AdmittedNamed(log, s.topRepos[i].name);
    NamesDistinct(log);
  }

  /** Main result: with timestamps within the hour and a snapshot clock at or past the
      latest, the whole chart is true. */
  lemma ChartExact(s: Snapshot, log: Log, started: nat, i: nat)
    requires Shows(s, log, started) && i < HISTORY_MINUTES
    requires WithinTheHour(log) && AtOrPast(log, Quot(s.now, 60))
    ensures s.history[i] == TrueBucket(log, Quot(s.now, 60) - (HISTORY_MINUTES - 1) + i)
  {
    HistoryExact(log, Quot(s.now, 60), Quot(s.now, 60) - (HISTORY_MINUTES - 1) + i);
  }
}
