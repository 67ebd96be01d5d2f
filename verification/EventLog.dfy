/** The plain log of finished requests, and what every view of the collector is as a
    function of it (internal/metrics/metrics.go). */
module EventLog {
  import opened Text
  import opened Ranking

  const RECENT_CAP := 25
  const REPOS_CAP := 1000
  const HISTORY_MINUTES := 60

  // ---- Go's integer division, which truncates toward zero ----

  function Quot(a: int, b: int): int
    requires b > 0
  {
    if a >= 0 then a / b else -((-a) / b)
  }

  function Rem(a: int, b: int): int
    requires b > 0
  {
    a - b * Quot(a, b)
  }

  lemma QuotIs(a: int, b: int)
    requires b > 0
    ensures a >= 0 ==> b * Quot(a, b) <= a < b * Quot(a, b) + b
    ensures a <= 0 ==> b * Quot(a, b) - b < a <= b * Quot(a, b)
  {
    if a >= 0 {
      assert a == b * (a / b) + a % b;
    } else {
      assert -a == b * ((-a) / b) + (-a) % b;
      assert b * (-((-a) / b)) == -(b * ((-a) / b));
    }
  }

  // ---- entries ----

  /** One finished request as shown; `at` is in Unix seconds. */
  datatype Event = Event(at: int, verb: string, kind: string, repo: string, status: int, bytes: nat,
                         micros: int, reason: string)

  /** An event with what only the counters see of it. */
  datatype Entry = Entry(event: Event, nanos: int, options: bool)

  type Log = seq<Entry>

  datatype Outcome = Proxied | Denied | Preflighted

  function OutcomeOf(e: Entry): Outcome {
    if e.event.reason != "" then Denied else if e.options then Preflighted else Proxied
  }

  function StatusClass(status: int): string {
    match Quot(status, 100)
    case 1 => "1xx"
    case 2 => "2xx"
    case 3 => "3xx"
    case 4 => "4xx"
    case 5 => "5xx"
    case _ => "other"
  }

  function MinuteOf(e: Entry): int { Quot(e.event.at, 60) }

  /** The class of a status is told by its range. */
  lemma StatusClassIs(status: int)
    ensures StatusClass(status) == "1xx" <==> 100 <= status <= 199
    ensures StatusClass(status) == "2xx" <==> 200 <= status <= 299
    ensures StatusClass(status) == "3xx" <==> 300 <= status <= 399
    ensures StatusClass(status) == "4xx" <==> 400 <= status <= 499
    ensures StatusClass(status) == "5xx" <==> 500 <= status <= 599
    ensures StatusClass(status) == "other" <==> status < 100 || status >= 600
  {
    QuotIs(status, 100);
    assert "1xx"[0] == '1' && "2xx"[0] == '2' && "3xx"[0] == '3' && "4xx"[0] == '4' && "5xx"[0] == '5';
    assert "other"[0] == 'o';
  }

  /** A minute holds the sixty seconds from its start. */
  lemma MinuteIs(e: Entry)
    requires e.event.at >= 0
    ensures 60 * MinuteOf(e) <= e.event.at < 60 * MinuteOf(e) + 60
  {
    QuotIs(e.event.at, 60);
  }

  // ---- named counters ----

  datatype Column = StatusColumn | ReasonColumn | KindColumn | RepoColumn

  function NonEmpty(s: string): Option<string> { if s == "" then None else Some(s) }

  /** The counter an entry is counted under, if any. */
  function KeyOf(col: Column, e: Entry): Option<string> {
    match col
    case StatusColumn => Some(StatusClass(e.event.status))
    case ReasonColumn => NonEmpty(e.event.reason)
    case KindColumn => NonEmpty(e.event.kind)
    case RepoColumn => NonEmpty(e.event.repo)
  }

  /** What each column counts: the class of the status, and the reason, the kind and the
      repository where there is one. */
  lemma KeyIs(e: Entry, name: string)
    ensures KeyOf(StatusColumn, e) == Some(name) <==> StatusClass(e.event.status) == name
    ensures KeyOf(ReasonColumn, e) == Some(name) <==> e.event.reason == name && name != ""
    ensures KeyOf(KindColumn, e) == Some(name) <==> e.event.kind == name && name != ""
    ensures KeyOf(RepoColumn, e) == Some(name) <==> e.event.repo == name && name != ""
  {
  }

  function Init(log: Log): Log
    requires log != []
  {
    log[..|log| - 1]
  }

  function Last(log: Log): Entry
    requires log != []
  {
    log[|log| - 1]
  }

  /** `next` is `log` with one more entry. */
  predicate Extends(next: Log, log: Log, e: Entry) { next != [] && Init(next) == log && Last(next) == e }

  lemma Extend(log: Log, e: Entry)
    ensures Extends(log + [e], log, e)
  {
  }

  lemma ExtendsIs(next: Log, log: Log, e: Entry)
    ensures Extends(next, log, e) <==> next == log + [e]
  {
    if Extends(next, log, e) {
      assert next == next[..|next| - 1] + [next[|next| - 1]];
    }
  }

  /** How many entries are counted under a name. */
  function Count(log: Log, col: Column, name: string): nat {
    if log == [] then 0
    else Count(Init(log), col, name) + if KeyOf(col, Last(log)) == Some(name) then 1 else 0
  }

  /** How many entries are counted under any name. */
  function CountKeyed(log: Log, col: Column): nat {
    if log == [] then 0 else CountKeyed(Init(log), col) + if KeyOf(col, Last(log)).Some? then 1 else 0
  }

  function CountOutcome(log: Log, o: Outcome): nat {
    if log == [] then 0 else CountOutcome(Init(log), o) + if OutcomeOf(Last(log)) == o then 1 else 0
  }

  function SumBytes(log: Log): nat {
    if log == [] then 0 else SumBytes(Init(log)) + Last(log).event.bytes
  }

  /** Durations are taken of proxied requests only. */
  function SumNanos(log: Log): int {
    if log == [] then 0
    else SumNanos(Init(log)) + if OutcomeOf(Last(log)).Proxied? then Last(log).nanos else 0
  }

  function MaxNanos(log: Log): int {
    if log == [] then 0
    else if OutcomeOf(Last(log)).Proxied? then Max(MaxNanos(Init(log)), Last(log).nanos)
    else MaxNanos(Init(log))
  }

  function Bump(m: map<string, nat>, key: Option<string>): map<string, nat> {
    match key
    case None => m
    case Some(name) => m[name := 1 + if name in m then m[name] else 0]
  }

  /** A counter map kept entry by entry. */
  function Tally(log: Log, col: Column): map<string, nat> {
    if log == [] then map[] else Bump(Tally(Init(log), col), KeyOf(col, Last(log)))
  }

  /** A tally holds exactly the names that occur, each with its full count. */
  lemma {:induction false} TallyCounts(log: Log, col: Column)
    ensures forall name :: name in Tally(log, col) <==> Count(log, col, name) > 0
    ensures forall name :: name in Tally(log, col) ==> Tally(log, col)[name] == Count(log, col, name)
  {
    if log == [] {
    } else {
      TallyCounts(Init(log), col);
    }
  }

  lemma BumpSum(m: map<string, nat>, key: Option<string>)
    ensures SumOf(Bump(m, key)) == SumOf(m) + if key.Some? then 1 else 0
  {
    if key.Some? {
      var name := key.value;
      var b := Bump(m, key);
      SumWithout(b, name);
      assert b - {name} == m - {name};
      if name in m {
        SumWithout(m, name);
      } else {
        assert m - {name} == m;
      }
    }
  }

  lemma {:induction false} TallySum(log: Log, col: Column)
    ensures SumOf(Tally(log, col)) == CountKeyed(log, col)
  {
    if log == [] {
      assert Tally(log, col) == map[];
    } else {
      TallySum(Init(log), col);
      BumpSum(Tally(Init(log), col), KeyOf(col, Last(log)));
    }
  }

  /** Main result: every request is counted once under an outcome and once under a
      status class, and every denial once under a reason. */
  lemma {:induction false} Conservation(log: Log)
    ensures CountOutcome(log, Proxied) + CountOutcome(log, Denied) + CountOutcome(log, Preflighted) == |log|
    ensures SumOf(Tally(log, StatusColumn)) == |log|
    ensures SumOf(Tally(log, ReasonColumn)) == CountOutcome(log, Denied)
  {
    TallySum(log, StatusColumn);
    TallySum(log, ReasonColumn);
    OutcomesAddUp(log);
  }

  lemma {:induction false} OutcomesAddUp(log: Log)
    ensures CountOutcome(log, Proxied) + CountOutcome(log, Denied) + CountOutcome(log, Preflighted) == |log|
    ensures CountKeyed(log, StatusColumn) == |log|
    ensures CountKeyed(log, ReasonColumn) == CountOutcome(log, Denied)
  {
    if log == [] {
    } else {
      OutcomesAddUp(Init(log));
    }
  }

  // ---- durations ----

  /** The shown average, in whole microseconds. */
  function AverageMicros(sum: int, proxied: nat): int {
    if proxied == 0 then 0 else Quot(Quot(sum, proxied), 1000)
  }

  lemma QuotMonotone(a: int, b: int, d: int)
    requires d > 0 && a <= b
    ensures Quot(a, d) <= Quot(b, d)
  {
    if a >= 0 {
      DivMonotone(a, b, d);
    } else if b < 0 {
      DivMonotone(-b, -a, d);
    } else {
      DivNat(-a, d);
      DivNat(b, d);
    }
  }

  lemma DivNat(a: nat, d: nat)
    requires d > 0
    ensures a / d >= 0
  {
  }

  lemma DivMonotone(a: nat, b: nat, d: nat)
    requires d > 0 && a <= b
    ensures a / d <= b / d
  {
    var q, p := a / d, b / d;
    assert a == d * q + a % d && b == d * p + b % d;
    if q > p { MulMonotone(d, p + 1, q); }
  }

  lemma MulMonotone(d: nat, a: int, b: int)
    requires a <= b
    ensures d * a <= d * b
  {
  }

  lemma {:induction false} SumBelowMax(log: Log)
    ensures MaxNanos(log) >= 0
    ensures SumNanos(log) <= CountOutcome(log, Proxied) * MaxNanos(log)
  {
    if log == [] {
    } else {
      SumBelowMax(Init(log));
      var n, m := CountOutcome(Init(log), Proxied), MaxNanos(Init(log));
      MulMonotone(n, m, MaxNanos(log));
      if OutcomeOf(Last(log)).Proxied? {
        assert (n + 1) * MaxNanos(log) == n * MaxNanos(log) + MaxNanos(log);
      }
    }
  }

  lemma MeanBelow(sum: int, n: nat, m: nat)
    requires n > 0 && sum <= n * m
    ensures Quot(sum, n) <= m
  {
    QuotMonotone(sum, n * m, n);
    assert n * m / n == m by { DivExact(m, n); }
    assert n * m >= 0;
  }

  lemma DivExact(m: nat, n: nat)
    requires n > 0
    ensures n * m / n == m
  {
    var q := n * m / n;
    assert n * m == n * q + n * m % n;
    if q < m { MulMonotone(n, q + 1, m); }
    if q > m { MulMonotone(n, m + 1, q); }
  }

  /** Main result: the shown average never exceeds the shown maximum. */
  lemma AverageBelowMax(log: Log)
    ensures AverageMicros(SumNanos(log), CountOutcome(log, Proxied)) <= Quot(MaxNanos(log), 1000)
  {
    SumBelowMax(log);
    var n := CountOutcome(log, Proxied);
    if n > 0 {
      MeanBelow(SumNanos(log), n, MaxNanos(log));
      QuotMonotone(Quot(SumNanos(log), n), MaxNanos(log), 1000);
    } else {
      QuotMonotone(0, MaxNanos(log), 1000);
    }
  }

  /** The sum of durations a reader gets back from the shown average. */
  function RebuiltNanos(sum: int, proxied: nat): int { AverageMicros(sum, proxied) * 1000 * proxied }

  lemma DivTwice(sum: nat, n: nat)
    requires n > 0
    ensures
      var q := sum / n / 1000;
      0 <= sum - q * 1000 * n < n * 1000
  {
    var a := sum / n;
    var q := a / 1000;
    assert sum == n * a + sum % n && a == 1000 * q + a % 1000;
    assert n * a == n * (1000 * q) + n * (a % 1000);
    MulMonotone(n, a % 1000, 999);
    assert n * (1000 * q) == q * 1000 * n;
  }

  /** Durations are differences of monotonic readings. */
  ghost predicate DurationsNotNegative(log: Log) { forall i :: 0 <= i < |log| ==> log[i].nanos >= 0 }

  lemma {:induction false} SumNotNegative(log: Log)
    requires DurationsNotNegative(log)
    ensures SumNanos(log) >= 0 && (CountOutcome(log, Proxied) == 0 ==> SumNanos(log) == 0)
  {
    if log == [] {
    } else {
      assert Last(log) == log[|log| - 1];
      assert forall i | 0 <= i < |Init(log)| :: Init(log)[i] == log[i];
      SumNotNegative(Init(log));
    }
  }

  /** Main result: the sum rebuilt from the shown average is at most the true one, and
      below it by less than a microsecond a request. */
  lemma RebuiltClose(log: Log)
    requires DurationsNotNegative(log)
    ensures
      var n, sum := CountOutcome(log, Proxied), SumNanos(log);
      if n == 0 then RebuiltNanos(sum, n) == sum == 0 else 0 <= sum - RebuiltNanos(sum, n) < n * 1000
  {
    SumNotNegative(log);
    if CountOutcome(log, Proxied) > 0 {
      RebuiltBelow(SumNanos(log), CountOutcome(log, Proxied));
    }
  }

  lemma RebuiltBelow(sum: nat, n: nat)
    requires n > 0
    ensures 0 <= sum - RebuiltNanos(sum, n) < n * 1000
  {
    DivNat(sum, n);
    DivTwice(sum, n);
  }

  // ---- the recent list ----

  /** The last events, newest first. */
  function RecentOf(log: Log): seq<Event> {
    seq(Min(RECENT_CAP, |log|), i requires 0 <= i < Min(RECENT_CAP, |log|) => log[|log| - 1 - i].event)
  }

  const NO_EVENT := Event(0, "", "", "", 0, 0, 0, "")

  /** What a slot of the ring holds: the last event whose number falls on it. */
  function RingSlot(log: Log, slot: nat): Event {
    if log == [] then NO_EVENT
    else if (|log| - 1) % RECENT_CAP == slot then Last(log).event
    else RingSlot(Init(log), slot)
  }

  /** Main result: the ring still holds each of the last events in its slot. */
  lemma {:induction false} RingHolds(log: Log, i: nat)
    requires i < |log| && |log| - RECENT_CAP <= i
    ensures RingSlot(log, i % RECENT_CAP) == log[i].event
  {
    if i == |log| - 1 {
    } else {
      RingHolds(Init(log), i);
      assert i % RECENT_CAP != (|log| - 1) % RECENT_CAP;
    }
  }

  // ---- repositories ----

  /** The distinct non-empty repository names, in the order they first finished. */
  function Names(log: Log): seq<string> {
    if log == [] then []
    else
      var names := Names(Init(log));
      var repo := Last(log).event.repo;
      if repo == "" || repo in names then names else names + [repo]
  }

  /** Only the first thousand names are admitted. */
  function Admitted(log: Log): seq<string> { Names(log)[..Min(REPOS_CAP, |Names(log)|)] }

  /** The exact counts, restricted to the admitted names. */
  function TrueTable(log: Log): map<string, nat> {
    map name | name in Admitted(log) :: Count(log, RepoColumn, name)
  }

  /** What one more finished request does to the table that is kept. */
  function Admit(table: map<string, nat>, repo: string): map<string, nat> {
    if repo != "" && (repo in table || |table| < REPOS_CAP) then Bump(table, Some(repo)) else table
  }

  /** The table kept entry by entry. */
  function RepoTable(log: Log): map<string, nat> {
    if log == [] then map[] else Admit(RepoTable(Init(log)), Last(log).event.repo)
  }

  predicate Distinct(names: seq<string>) {
    forall i, j :: 0 <= i < j < |names| ==> names[i] != names[j]
  }

  lemma {:induction false} NamesDistinct(log: Log)
    ensures Distinct(Names(log)) && "" !in Names(log)
    ensures forall name :: name != "" ==> (name in Names(log) <==> Count(log, RepoColumn, name) > 0)
  {
    if log == [] {
    } else {
      NamesDistinct(Init(log));
      var names, repo := Names(Init(log)), Last(log).event.repo;
      assert forall name :: name in names + [repo] <==> name in names || name == repo;
    }
  }

  lemma {:induction false} DistinctSize(names: seq<string>, keys: set<string>)
    requires Distinct(names) && forall name :: name in keys <==> name in names
    ensures |keys| == |names|
    decreases |names|
  {
    if names == [] {
      assert keys == {};
    } else {
      var init, x := names[..|names| - 1], names[|names| - 1];
      assert names == init + [x];
      assert x !in init;
      DistinctSize(init, keys - {x});
    }
  }

  lemma TrueTableSize(log: Log)
    ensures |TrueTable(log)| == Min(REPOS_CAP, |Names(log)|)
  {
    NamesDistinct(log);
    DistinctSize(Admitted(log), TrueTable(log).Keys);
  }

  lemma CountStep(log: Log, e: Entry, name: string)
    ensures Count(log + [e], RepoColumn, name) ==
            Count(log, RepoColumn, name) + if name != "" && e.event.repo == name then 1 else 0
  {
    assert Init(log + [e]) == log && Last(log + [e]) == e;
  }

  lemma AdmitKeys(log: Log, e: Entry)
    ensures TrueTable(log + [e]).Keys == Admit(TrueTable(log), e.event.repo).Keys
  {
    var table, repo := TrueTable(log), e.event.repo;
    AdmittedStep(log, e);
    TrueTableSize(log);
    assert forall name :: name in Admitted(log) + [repo] <==> name in Admitted(log) || name == repo;
  }

  lemma AdmitValue(log: Log, e: Entry, name: string)
    requires name in TrueTable(log + [e]) && name in Admit(TrueTable(log), e.event.repo)
    ensures TrueTable(log + [e])[name] == Admit(TrueTable(log), e.event.repo)[name]
  {
    CountStep(log, e, name);
    AdmittedNamed(log + [e], name);
    if name !in TrueTable(log) {
      AdmittedStep(log, e);
      NamesDistinct(log);
    }
  }

  lemma AdmittedNamed(log: Log, name: string)
    requires name in TrueTable(log)
    ensures name != "" && TrueTable(log)[name] == Count(log, RepoColumn, name)
  {
    NamesDistinct(log);
    assert name in Admitted(log);
  }

  lemma TrueTableStep(log: Log, e: Entry)
    ensures TrueTable(log + [e]) == Admit(TrueTable(log), e.event.repo)
  {
    AdmitKeys(log, e);
    forall name | name in TrueTable(log + [e]).Keys
      ensures TrueTable(log + [e])[name] == Admit(TrueTable(log), e.event.repo)[name]
    {
      assert name in Admit(TrueTable(log), e.event.repo).Keys;
      AdmitValue(log, e, name);
    }
  }

  /** A new name is admitted exactly when it is among the first thousand. */
  lemma AdmittedStep(log: Log, e: Entry)
    ensures
      var repo := e.event.repo;
      Admitted(log + [e]) ==
        if repo == "" || repo in Names(log) || |Names(log)| >= REPOS_CAP then Admitted(log)
        else Admitted(log) + [repo]
    ensures |Names(log)| < REPOS_CAP ==> Admitted(log) == Names(log)
    ensures |Names(log)| >= REPOS_CAP ==> |TrueTable(log)| == REPOS_CAP
  {
    assert Init(log + [e]) == log && Last(log + [e]) == e;
    TrueTableSize(log);
  }

  /** Main result: the table kept entry by entry is exactly the true counts of the
      first thousand names, and never holds more than a thousand. */
  lemma {:induction false} RepoTableExact(log: Log)
    ensures RepoTable(log) == TrueTable(log)
    ensures |RepoTable(log)| == Min(REPOS_CAP, |Names(log)|)
  {
    TrueTableSize(log);
    if log == [] {
      assert TrueTable(log) == map[];
    } else {
      RepoTableExact(Init(log));
      TrueTableStep(Init(log), Last(log));
      ExtendsIs(log, Init(log), Last(log));
    }
  }

  // ---- the minute wheel ----

  datatype Bucket = Bucket(minute: int, requests: nat, bytes: nat)

  /** The wheel slot an event goes to; a minute before the epoch may have none. */
  function SlotOf(e: Entry): int { Rem(MinuteOf(e), HISTORY_MINUTES) }

  function Counted(b: Bucket, bytes: nat): Bucket { b.(requests := b.requests + 1, bytes := b.bytes + bytes) }

  /** What a slot holds: a bucket of another minute is started afresh. */
  function Slot(log: Log, k: nat): Bucket {
    if log == [] then Bucket(0, 0, 0)
    else
      var b, e := Slot(Init(log), k), Last(log);
      if SlotOf(e) == k then Turn(b, e) else b
  }

  function Turn(b: Bucket, e: Entry): Bucket {
    Counted(if b.minute == MinuteOf(e) then b else Bucket(MinuteOf(e), 0, 0), e.event.bytes)
  }

  /** The true totals of a minute. */
  function TrueBucket(log: Log, minute: int): Bucket {
    if log == [] then Bucket(minute, 0, 0)
    else
      var b := TrueBucket(Init(log), minute);
      if MinuteOf(Last(log)) == minute then Counted(b, Last(log).event.bytes) else b
  }

  /** What the page shows for a minute: a slot of another minute shows as empty. */
  function Shown(b: Bucket, minute: int): Bucket {
    if b.minute == minute then b else Bucket(minute, 0, 0)
  }

  /** The bucket the page shows for a minute, after a log. */
  function ShownFor(log: Log, minute: int): Bucket { Shown(Slot(log, minute % HISTORY_MINUTES), minute) }

  lemma RemIsMod(m: int)
    ensures m >= 0 ==> Rem(m, HISTORY_MINUTES) == m % HISTORY_MINUTES
    ensures m < 0 ==> Rem(m, HISTORY_MINUTES) <= 0
    ensures Rem(m, HISTORY_MINUTES) >= 0 ==> Rem(m, HISTORY_MINUTES) == m % HISTORY_MINUTES
    ensures -HISTORY_MINUTES < Rem(m, HISTORY_MINUTES) < HISTORY_MINUTES
  {
  }

  predicate AtMost(a: Bucket, b: Bucket) { a.minute == b.minute && a.requests <= b.requests && a.bytes <= b.bytes }

  /** Main result: whatever the order of timestamps, no bucket is ever shown with more
      than the true total of its minute. */
  lemma {:induction false} NeverTooMuch(log: Log, minute: int)
    ensures AtMost(ShownFor(log, minute), TrueBucket(log, minute))
  {
    if log == [] {
    } else {
      NeverTooMuch(Init(log), minute);
      RemIsMod(MinuteOf(Last(log)));
    }
  }

  /** An event of another minute has taken over the slot of a minute already counted. */
  ghost predicate Displaced(log: Log, minute: int) {
    exists i, j :: 0 <= i < j < |log| && MinuteOf(log[i]) == minute && MinuteOf(log[j]) != minute
                   && SlotOf(log[j]) == minute % HISTORY_MINUTES
  }

  ghost predicate Occurs(log: Log, minute: int) { exists i :: 0 <= i < |log| && MinuteOf(log[i]) == minute }

  lemma {:induction false} OccursCounts(log: Log, minute: int)
    ensures Occurs(log, minute) <==> TrueBucket(log, minute).requests > 0
  {
    if log == [] {
    } else {
      OccursCounts(Init(log), minute);
      if Occurs(log, minute) {
        var i :| 0 <= i < |log| && MinuteOf(log[i]) == minute;
        assert i < |log| - 1 ==> Init(log)[i] == log[i];
      }
      if Occurs(Init(log), minute) {
        var i :| 0 <= i < |Init(log)| && MinuteOf(Init(log)[i]) == minute;
        assert log[i] == Init(log)[i];
      }
    }
  }

  lemma DisplacedStep(log: Log, minute: int)
    requires log != []
    ensures Displaced(log, minute) <==>
              Displaced(Init(log), minute)
              || (Occurs(Init(log), minute) && MinuteOf(Last(log)) != minute
                  && SlotOf(Last(log)) == minute % HISTORY_MINUTES)
  {
    var init := Init(log);
    if Displaced(log, minute) {
      var i, j :| 0 <= i < j < |log| && MinuteOf(log[i]) == minute && MinuteOf(log[j]) != minute
                  && SlotOf(log[j]) == minute % HISTORY_MINUTES;
      assert init[i] == log[i];
      assert j < |log| - 1 ==> init[j] == log[j];
    }
    if Displaced(init, minute) {
      var i, j :| 0 <= i < j < |init| && MinuteOf(init[i]) == minute && MinuteOf(init[j]) != minute
                  && SlotOf(init[j]) == minute % HISTORY_MINUTES;
      assert log[i] == init[i] && log[j] == init[j];
    }
    if Occurs(init, minute) {
      var i :| 0 <= i < |init| && MinuteOf(init[i]) == minute;
      assert log[i] == init[i] && log[|log| - 1] == Last(log);
    }
  }

  /** The slot of a minute that was counted and not displaced is exactly its total;
      a displaced one has lost requests. */
  lemma {:induction false} SlotState(log: Log, minute: int)
    requires minute >= 0
    ensures !Displaced(log, minute) && Occurs(log, minute) ==>
              Slot(log, minute % HISTORY_MINUTES) == TrueBucket(log, minute)
    ensures Displaced(log, minute) ==> ShownFor(log, minute).requests < TrueBucket(log, minute).requests
  {
    if log == [] {
    } else {
      var e := Last(log);
      SlotState(Init(log), minute);
      DisplacedStep(log, minute);
      OccursCounts(log, minute);
      OccursCounts(Init(log), minute);
      NeverTooMuch(Init(log), minute);
      EmptyTotal(Init(log), minute);
      RemIsMod(MinuteOf(e));
    }
  }

  lemma {:induction false} EmptyTotal(log: Log, minute: int)
    ensures TrueBucket(log, minute).minute == minute
    ensures TrueBucket(log, minute).requests == 0 ==> TrueBucket(log, minute).bytes == 0
  {
    if log == [] {
    } else {
      EmptyTotal(Init(log), minute);
    }
  }

  /** Main result: a bucket is shown with its true totals exactly when no event of
      another minute has since taken over its slot. */
  lemma ExactUnlessDisplaced(log: Log, minute: int)
    requires minute >= 0
    ensures ShownFor(log, minute) == TrueBucket(log, minute) <==> !Displaced(log, minute)
  {
    SlotState(log, minute);
    OccursCounts(log, minute);
    EmptyTotal(log, minute);
    NeverTooMuch(log, minute);
  }

  /** An event that lags by an hour, in the slot of a minute already counted: that
      minute is shown as empty. */
  lemma LateEventDisplaces(first: Entry, late: Entry)
    requires first.event.at == 3600 && late.event.at == 0
    ensures
      var log := [first, late];
      TrueBucket(log, 60) == Bucket(60, 1, first.event.bytes) && ShownFor(log, 60) == Bucket(60, 0, 0)
  {
    var log := [first, late];
    assert Init(log) == [first] && Last(log) == late;
    assert Init([first]) == [] && Last([first]) == first;
    assert TrueBucket([first], 60) == Slot([first], 0) == Bucket(60, 1, first.event.bytes);
    assert Slot(log, 0) == Bucket(0, 1, late.event.bytes);
  }

  /** One second and a minute before the epoch there is no slot. */
  lemma BeforeTheEpoch(e: Entry)
    requires e.event.at == -61
    ensures SlotOf(e) == -1
  {
  }

  /** Timestamps may arrive out of order, but none lags an earlier one by an hour. */
  ghost predicate WithinTheHour(log: Log) {
    && (forall i :: 0 <= i < |log| ==> MinuteOf(log[i]) >= 0)
    && forall i, j :: 0 <= i < j < |log| ==> MinuteOf(log[j]) > MinuteOf(log[i]) - HISTORY_MINUTES
  }

  ghost predicate AtOrPast(log: Log, cur: int) { forall i :: 0 <= i < |log| ==> MinuteOf(log[i]) <= cur }

  /** Two different minutes that share a slot are at least an hour apart. */
  lemma SameSlotApart(a: int, b: int)
    requires a >= 0 && b >= 0 && a != b && a % HISTORY_MINUTES == b % HISTORY_MINUTES
    ensures a >= b + HISTORY_MINUTES || b >= a + HISTORY_MINUTES
  {
  }

  /** Within the hour, a minute is displaced only by one at least an hour later. */
  lemma DisplacedByLater(log: Log, minute: int) returns (j: nat)
    requires WithinTheHour(log) && Displaced(log, minute)
    ensures j < |log| && MinuteOf(log[j]) >= minute + HISTORY_MINUTES && SlotOf(log[j]) == minute % HISTORY_MINUTES
    ensures minute >= 0
  {
    var i, k :| 0 <= i < k < |log| && MinuteOf(log[i]) == minute && MinuteOf(log[k]) != minute
                && SlotOf(log[k]) == minute % HISTORY_MINUTES;
    RemIsMod(MinuteOf(log[k]));
    SameSlotApart(MinuteOf(log[k]), minute);
    j := k;
  }

  lemma NoneBeforeEpoch(log: Log, minute: int)
    requires WithinTheHour(log) && minute < 0
    ensures ShownFor(log, minute) == TrueBucket(log, minute)
  {
    OccursCounts(log, minute);
    EmptyTotal(log, minute);
    NeverTooMuch(log, minute);
  }

  /** Main result: within the hour, all sixty buckets shown at or past the latest
      minute are the true totals. */
  lemma HistoryExact(log: Log, cur: int, minute: int)
    requires WithinTheHour(log) && AtOrPast(log, cur) && cur - HISTORY_MINUTES < minute <= cur
    ensures ShownFor(log, minute) == TrueBucket(log, minute)
  {
    if minute < 0 {
      NoneBeforeEpoch(log, minute);
    } else {
      if Displaced(log, minute) {
        var j := DisplacedByLater(log, minute);
      }
      ExactUnlessDisplaced(log, minute);
    }
  }

  /** Within the hour a slot holds the latest minute it was given. */
  lemma {:induction false} SlotLatest(log: Log, k: nat)
    requires WithinTheHour(log) && k < HISTORY_MINUTES
    ensures forall i :: 0 <= i < |log| && SlotOf(log[i]) == k ==> MinuteOf(log[i]) <= Slot(log, k).minute
    ensures
      || Slot(log, k) == Bucket(0, 0, 0)
      || exists i :: 0 <= i < |log| && MinuteOf(log[i]) == Slot(log, k).minute && SlotOf(log[i]) == k
  {
    if log == [] {
    } else {
      var init, e := Init(log), Last(log);
      assert forall i | 0 <= i < |init| :: init[i] == log[i];
      SlotLatest(init, k);
      assert log[|log| - 1] == e;
      if SlotOf(e) == k {
        forall i | 0 <= i < |log| && SlotOf(log[i]) == k ensures MinuteOf(log[i]) <= MinuteOf(e) {
          RemIsMod(MinuteOf(e));
          RemIsMod(MinuteOf(log[i]));
          if i < |log| - 1 && MinuteOf(log[i]) != MinuteOf(e) {
            SameSlotApart(MinuteOf(log[i]), MinuteOf(e));
          }
        }
      }
    }
  }

  /** Main result: within the hour, a bucket shown for any minute, even of an earlier
      snapshot clock, is the true total or empty. */
  lemma HistoryExactOrEmpty(log: Log, minute: int)
    requires WithinTheHour(log)
    ensures ShownFor(log, minute) == TrueBucket(log, minute) || ShownFor(log, minute) == Bucket(minute, 0, 0)
  {
    if minute < 0 {
      NoneBeforeEpoch(log, minute);
    } else {
      ExactUnlessDisplaced(log, minute);
      if Displaced(log, minute) {
        var j := DisplacedByLater(log, minute);
        SlotLatest(log, minute % HISTORY_MINUTES);
      }
    }
  }

  // ---- all that is kept, entry by entry ----

  /** Every counter and view of the collector, as one value. */
  datatype Index = Index(
    total: nat, proxied: nat, denied: nat, preflight: nat, bytes: nat, durSum: int, durMax: int,
    status: map<string, nat>, reasons: map<string, nat>, kinds: map<string, nat>, repos: map<string, nat>,
    recent: seq<Event>, recentN: nat, history: seq<Bucket>)

  predicate Sized(x: Index) { |x.recent| == RECENT_CAP && |x.history| == HISTORY_MINUTES }

  function Repeat<T>(n: nat, x: T): (s: seq<T>)
    ensures |s| == n && forall i :: 0 <= i < n ==> s[i] == x
  {
    if n == 0 then [] else Repeat(n - 1, x) + [x]
  }

  function NoIndex(): (x: Index)
    ensures Sized(x)
  {
    Index(0, 0, 0, 0, 0, 0, 0, map[], map[], map[], map[],
          Repeat(RECENT_CAP, NO_EVENT), 0, Repeat(HISTORY_MINUTES, Bucket(0, 0, 0)))
  }

  /** What one finished request does to the counters. */
  function StepTotals(x: Index, e: Entry): Index {
    var y := x.(total := x.total + 1, bytes := x.bytes + e.event.bytes);
    match OutcomeOf(e)
    case Denied => y.(denied := y.denied + 1)
    case Preflighted => y.(preflight := y.preflight + 1)
    case Proxied => y.(proxied := y.proxied + 1, durSum := y.durSum + e.nanos, durMax := Max(y.durMax, e.nanos))
  }

  function StepMaps(x: Index, e: Entry): Index {
    x.(status := Bump(x.status, KeyOf(StatusColumn, e)), reasons := Bump(x.reasons, KeyOf(ReasonColumn, e)),
       kinds := Bump(x.kinds, KeyOf(KindColumn, e)), repos := Admit(x.repos, e.event.repo))
  }

  function StepViews(x: Index, e: Entry): (y: Index)
    requires Sized(x)
    ensures Sized(y)
  {
    RemIsMod(MinuteOf(e));
    var k := SlotOf(e);
    x.(recent := x.recent[x.recentN % RECENT_CAP := e.event], recentN := x.recentN + 1,
       history := if k < 0 then x.history else x.history[k := Turn(x.history[k], e)])
  }

  function Step(x: Index, e: Entry): (y: Index)
    requires Sized(x)
    ensures Sized(y)
  {
    StepViews(StepMaps(StepTotals(x, e), e), e)
  }

  function IndexOfLog(log: Log): (x: Index)
    ensures Sized(x)
  {
    if log == [] then NoIndex() else Step(IndexOfLog(Init(log)), Last(log))
  }

  ghost predicate Follows(x: Index, e: Entry, y: Index) { Sized(x) && y == Step(x, e) }

  /** The states the collector goes through, one after each entry. */
  ghost predicate IsRun(run: seq<Index>, log: Log) {
    && |run| == |log| + 1 && run[0] == NoIndex()
    && forall i :: 0 <= i < |log| ==> Follows(run[i], log[i], run[i + 1])
  }

  /** The state after all entries. */
  ghost predicate IsIndexOf(x: Index, log: Log) {
    Sized(x) && exists run :: IsRun(run, log) && run[|log|] == x
  }

  lemma NoEntries()
    ensures IsIndexOf(NoIndex(), [])
  {
    assert IsRun([NoIndex()], []);
  }

  lemma OneEntry(x: Index, log: Log, e: Entry, y: Index)
    requires IsIndexOf(x, log) && Follows(x, e, y)
    ensures IsIndexOf(y, log + [e])
  {
    var run :| IsRun(run, log) && run[|log|] == x;
    RunGrows(run, log, e, y);
  }

  lemma RunGrows(run: seq<Index>, log: Log, e: Entry, y: Index)
    requires IsRun(run, log) && Follows(run[|log|], e, y)
    ensures IsRun(run + [y], log + [e])
  {
    var more, next := run + [y], log + [e];
    forall i | 0 <= i < |next| ensures Follows(more[i], next[i], more[i + 1]) {
      if i < |log| {
        assert Follows(run[i], log[i], run[i + 1]);
      }
    }
  }

  lemma IndexStep(next: Log, log: Log, e: Entry)
    requires Extends(next, log, e)
    ensures IndexOfLog(next) == Step(IndexOfLog(log), e)
  {
  }

  lemma {:induction false} RunIs(run: seq<Index>, log: Log, k: nat)
    requires IsRun(run, log) && k <= |log|
    ensures run[k] == IndexOfLog(log[..k])
  {
    if k == 0 {
    } else {
      RunIs(run, log, k - 1);
      assert Follows(run[k - 1], log[k - 1], run[k]);
      assert Extends(log[..k], log[..k - 1], log[k - 1]);
      IndexStep(log[..k], log[..k - 1], log[k - 1]);
    }
  }

  lemma IndexIs(x: Index, log: Log)
    requires IsIndexOf(x, log)
    ensures x == IndexOfLog(log)
  {
    var run :| IsRun(run, log) && run[|log|] == x;
    RunIs(run, log, |log|);
    assert log[..|log|] == log;
  }

  lemma StepTotalsOnly(x: Index, e: Entry)
    requires Sized(x)
    ensures
      var y, z := Step(x, e), StepTotals(x, e);
      && (y.total, y.bytes, y.proxied, y.denied, y.preflight, y.durSum, y.durMax) ==
         (z.total, z.bytes, z.proxied, z.denied, z.preflight, z.durSum, z.durMax)
      && y.recentN == x.recentN + 1
  {
  }

  lemma {:induction false} TotalsAgree(log: Log)
    ensures
      var x := IndexOfLog(log);
      && x.total == x.recentN == |log| && x.bytes == SumBytes(log)
      && x.proxied == CountOutcome(log, Proxied) && x.denied == CountOutcome(log, Denied)
      && x.preflight == CountOutcome(log, Preflighted)
      && x.durSum == SumNanos(log) && x.durMax == MaxNanos(log)
  {
    if log == [] {
    } else {
      TotalsAgree(Init(log));
      StepTotalsOnly(IndexOfLog(Init(log)), Last(log));
    }
  }

  /** The counter map of an index for a column. */
  function MapOf(x: Index, col: Column): map<string, nat> {
    match col
    case StatusColumn => x.status
    case ReasonColumn => x.reasons
    case KindColumn => x.kinds
    case RepoColumn => x.repos
  }

  lemma StepMap(x: Index, e: Entry, col: Column)
    requires Sized(x) && !col.RepoColumn?
    ensures MapOf(Step(x, e), col) == Bump(MapOf(x, col), KeyOf(col, e))
  {
  }

  lemma {:induction false} MapAgrees(log: Log, col: Column)
    requires !col.RepoColumn?
    ensures MapOf(IndexOfLog(log), col) == Tally(log, col)
  {
    if log == [] {
    } else {
      StepMap(IndexOfLog(Init(log)), Last(log), col);
      MapAgrees(Init(log), col);
    }
  }

  lemma StepRepos(x: Index, e: Entry)
    requires Sized(x)
    ensures Step(x, e).repos == Admit(x.repos, e.event.repo)
  {
  }

  lemma {:induction false} ReposAgree(log: Log)
    ensures IndexOfLog(log).repos == RepoTable(log)
  {
    if log == [] {
    } else {
      StepRepos(IndexOfLog(Init(log)), Last(log));
      ReposAgree(Init(log));
    }
  }

  lemma StepRing(x: Index, e: Entry)
    requires Sized(x)
    ensures Step(x, e).recent == x.recent[x.recentN % RECENT_CAP := e.event]
  {
  }

  lemma {:induction false} RingAgrees(log: Log)
    ensures forall slot: nat :: slot < RECENT_CAP ==> IndexOfLog(log).recent[slot] == RingSlot(log, slot)
  {
    if log == [] {
    } else {
      RingAgrees(Init(log));
      TotalsAgree(Init(log));
      StepRing(IndexOfLog(Init(log)), Last(log));
    }
  }

  lemma StepWheel(x: Index, e: Entry)
    requires Sized(x)
    ensures
      var k := SlotOf(e);
      k < HISTORY_MINUTES
      && Step(x, e).history == if k < 0 then x.history else x.history[k := Turn(x.history[k], e)]
  {
    RemIsMod(MinuteOf(e));
  }

  lemma {:induction false} WheelAgrees(log: Log)
    ensures forall k: nat :: k < HISTORY_MINUTES ==> IndexOfLog(log).history[k] == Slot(log, k)
  {
    if log == [] {
    } else {
      WheelAgrees(Init(log));
      StepWheel(IndexOfLog(Init(log)), Last(log));
    }
  }
}
