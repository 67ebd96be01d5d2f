/** The credential taken from an authenticated `gh` (internal/ghcli/ghcli.go): the
    hosts.yml scanner and the cached token. */
module GhCli {
  import opened Text

  datatype FetchError = NotRun | NoFile | ScanFailed | NoToken | EmptyToken | IllegalToken

  // ---- the token itself ----

  /** A character that may stand in an Authorization header. */
  predicate IsPrintable(c: char) { '!' <= c <= '~' }

  predicate IsUsable(token: string) { token != "" && forall i :: 0 <= i < |token| ==> IsPrintable(token[i]) }

  /** `clean`. */
  function Clean(raw: string): (r: Result<string, FetchError>)
    ensures r.Ok? <==> IsUsable(TrimSpace(raw))
    ensures r.Ok? ==> r.value == TrimSpace(raw)
  {
    var token := TrimSpace(raw);
    if token == "" then Err(EmptyToken)
    else if exists i :: 0 <= i < |token| && !IsPrintable(token[i]) then Err(IllegalToken)
    else Ok(token)
  }

  // ---- lines of hosts.yml ----

  function TrimQuotes(s: string): string { TrimQuotesRight(TrimQuotesLeft(s)) }

  predicate IsQuote(c: char) { c == '"' || c == '\'' }

  function TrimQuotesLeft(s: string): string {
    if s != "" && IsQuote(s[0]) then TrimQuotesLeft(s[1..]) else s
  }

  function TrimQuotesRight(s: string): string {
    if s != "" && IsQuote(s[|s| - 1]) then TrimQuotesRight(s[..|s| - 1]) else s
  }

  function DropColon(s: string): string {
    if s != "" && s[|s| - 1] == ':' then s[..|s| - 1] else s
  }

  /** What one line is: blank or a comment; at column zero, where it opens a host's
      block; an indented "oauth_token: ..." at any depth; or anything else. */
  datatype Line = Silent | Header(name: string) | Token(value: string) | Other

  function ReadLine(line: string): Line {
    var trimmed := TrimSpace(line);
    if trimmed == "" || StartsWith(trimmed, '#') then Silent
    else if !StartsWith(line, ' ') && !StartsWith(line, '\t') then Header(DropColon(trimmed))
    else Field(Cut(trimmed, ':'))
  }

  function Field(cut: Cutting): Line {
    if cut.found && TrimSpace(cut.before) == "oauth_token" then Token(TrimQuotes(TrimSpace(cut.after))) else Other
  }

  /** What each line reads as. */
  ghost predicate Reads(lines: seq<string>, ls: seq<Line>) {
    |ls| == |lines| && forall k {:trigger ReadLine(lines[k])} :: 0 <= k < |ls| ==> ls[k] == ReadLine(lines[k])
  }

  function ReadLines(lines: seq<string>): (ls: seq<Line>)
    ensures Reads(lines, ls)
  {
    seq(|lines|, k requires 0 <= k < |lines| => ReadLine(lines[k]))
  }

  // ---- what the file means ----

  /** The header nearest above a line, or -1. */
  function HeaderAbove(ls: seq<Line>, i: nat): (h: int)
    requires i <= |ls|
    ensures -1 <= h < i && (h >= 0 ==> ls[h].Header?)
    ensures forall k :: h < k < i ==> !ls[k].Header?
  {
    if i == 0 then -1 else if ls[i - 1].Header? then i - 1 else HeaderAbove(ls, i - 1)
  }

  predicate Opens(l: Line, host: string) { l.Header? && EqualFold(l.name, host) }

  /** The line stands in a block of the host. */
  predicate InBlock(ls: seq<Line>, host: string, i: nat)
    requires i <= |ls|
  {
    HeaderAbove(ls, i) >= 0 && Opens(ls[HeaderAbove(ls, i)], host)
  }

  predicate IsCandidate(ls: seq<Line>, host: string, i: nat)
    requires i < |ls|
  {
    ls[i].Token? && InBlock(ls, host, i)
  }

  /** Line by line, the credential each gives the host. */
  function Credentials(ls: seq<Line>, host: string): (c: seq<Option<string>>)
    ensures |c| == |ls|
    ensures forall i :: 0 <= i < |c| ==> c[i] == if IsCandidate(ls, host, i) then Some(ls[i].value) else None
  {
    seq(|ls|, i requires 0 <= i < |ls| => if IsCandidate(ls, host, i) then Some(ls[i].value) else None)
  }

  /** The credential the file gives a host, cleaned. */
  function Meaning(ls: seq<Line>, host: string, scanOk: bool): Result<string, FetchError> {
    match First(Credentials(ls, host))
    case Some(value) => Clean(value)
    case None => Err(if scanOk then NoToken else ScanFailed)
  }

  /** The value is the one on the first token line whose nearest header above names the
      host; without such a line there is none. */
  lemma FirstTokenLine(ls: seq<Line>, host: string, scanOk: bool, n: nat)
    requires n <= |ls| && forall k :: 0 <= k < n ==> !IsCandidate(ls, host, k)
    ensures n < |ls| && IsCandidate(ls, host, n) ==> Meaning(ls, host, scanOk) == Clean(ls[n].value)
    ensures n == |ls| ==> Meaning(ls, host, scanOk) == Err(if scanOk then NoToken else ScanFailed)
  {
    FirstAt(Credentials(ls, host), n);
  }

  /** Main result: `fromHostsFile` finds just that. */
  method FromHostsFile(lines: seq<string>, scanOk: bool, host: string) returns (r: Result<string, FetchError>)
    ensures r == Meaning(ReadLines(lines), host, scanOk)
  {
    r := Scan(lines, ReadLines(lines), scanOk, host);
  }

  /** The scan: one pass over the lines, with one flag. */
  method Scan(lines: seq<string>, ghost ls: seq<Line>, scanOk: bool, host: string)
    returns (r: Result<string, FetchError>)
    requires Reads(lines, ls)
    ensures r == Meaning(ls, host, scanOk)
  {
    var inHost := false;
    for n := 0 to |lines|
      invariant inHost <==> InBlock(ls, host, n)
      invariant forall k :: 0 <= k < n ==> !IsCandidate(ls, host, k)
    {
      var l := LineAt(lines, n, ls);
      match l {
        case Silent =>
        case Header(name) => inHost := EqualFold(name, host);
        case Token(value) =>
          if inHost {
            FirstTokenLine(ls, host, scanOk, n);
            return Clean(value);
          }
        case Other =>
      }
    }
    FirstTokenLine(ls, host, scanOk, |ls|);
    return Err(if scanOk then NoToken else ScanFailed);
  }

  /** The tests on the text of one line, in the order of the scan. */
  method LineAt(lines: seq<string>, n: nat, ghost ls: seq<Line>) returns (l: Line)
    requires Reads(lines, ls) && n < |lines|
    ensures l == ls[n]
  {
    var line := lines[n];
    var trimmed := TrimSpace(line);
    assert ls[n] == ReadLine(line);
    if trimmed == "" || StartsWith(trimmed, '#') {
      return Silent;
    }
    if !StartsWith(line, ' ') && !StartsWith(line, '\t') {
      return Header(DropColon(trimmed));
    }
    var cut := Cut(trimmed, ':');
    if !cut.found || TrimSpace(cut.before) != "oauth_token" {
      return Other;
    }
    return Token(TrimQuotes(TrimSpace(cut.after)));
  }

  // ---- other hosts do not matter ----

  /** Whole blocks of other hosts: a header first, and none that opens the host. */
  ghost predicate OtherBlocks(block: seq<Line>, host: string) {
    block != [] && block[0].Header? && forall i :: 0 <= i < |block| ==> !Opens(block[i], host)
  }

  /** Nothing but silent lines before the first header. */
  ghost predicate AtBoundary(rest: seq<Line>) {
    forall i :: 0 <= i < |rest| && HeaderAbove(rest, i) == -1 && !rest[i].Header? ==> rest[i].Silent?
  }

  lemma {:induction false} HeaderAboveFront(a: seq<Line>, b: seq<Line>, i: nat)
    requires i <= |a|
    ensures HeaderAbove(a + b, i) == HeaderAbove(a, i)
  {
    if i == 0 {
    } else {
      HeaderAboveFront(a, b, i - 1);
    }
  }

  lemma {:induction false} HeaderAboveBack(a: seq<Line>, b: seq<Line>, i: nat)
    requires i <= |b|
    ensures HeaderAbove(a + b, |a| + i) ==
            if HeaderAbove(b, i) >= 0 then |a| + HeaderAbove(b, i) else HeaderAbove(a, |a|)
  {
    if i == 0 {
      HeaderAboveFront(a, b, |a|);
    } else {
      HeaderAboveBack(a, b, i - 1);
    }
  }

  lemma CandidateFront(a: seq<Line>, b: seq<Line>, host: string, i: nat)
    requires i < |a|
    ensures IsCandidate(a + b, host, i) == IsCandidate(a, host, i)
  {
    HeaderAboveFront(a, b, i);
  }

  /** Past a block boundary the lines above do not matter. */
  lemma CandidateBack(a: seq<Line>, b: seq<Line>, host: string, i: nat)
    requires i < |b| && AtBoundary(b)
    ensures IsCandidate(a + b, host, |a| + i) == IsCandidate(b, host, i)
  {
    HeaderAboveBack(a, b, i);
  }

  /** A file cut at a block boundary gives what its two parts give. */
  lemma CredentialsConcat(a: seq<Line>, b: seq<Line>, host: string)
    requires AtBoundary(b)
    ensures Credentials(a + b, host) == Credentials(a, host) + Credentials(b, host)
  {
    forall i | 0 <= i < |a + b|
      ensures Credentials(a + b, host)[i] == (Credentials(a, host) + Credentials(b, host))[i]
    {
      if i < |a| {
        CandidateFront(a, b, host, i);
      } else {
        CandidateBack(a, b, host, i - |a|);
      }
    }
  }

  /** Blocks of other hosts give nothing. */
  lemma NoCredential(block: seq<Line>, host: string)
    requires OtherBlocks(block, host)
    ensures AtBoundary(block) && forall i :: 0 <= i < |block| ==> Credentials(block, host)[i] == None
  {
    assert forall k | 0 < k <= |block| :: HeaderAbove(block, k) >= 0;
  }

  /** Main result: whole blocks of other hosts can be put in, or taken out, at any block
      boundary without changing what the file means. */
  lemma OtherBlocksIgnored(a: seq<Line>, block: seq<Line>, b: seq<Line>, host: string, scanOk: bool)
    requires OtherBlocks(block, host) && AtBoundary(b)
    ensures Meaning(a + block + b, host, scanOk) == Meaning(a + b, host, scanOk)
  {
    var c, n, d := Credentials(a, host), Credentials(block, host), Credentials(b, host);
    NoCredential(block, host);
    CredentialsConcat(a, b, host);
    CredentialsConcat(a + block, b, host);
    CredentialsConcat(a, block, host);
    FirstConcat(c + n, d);
    FirstConcat(c, n);
    FirstConcat(c, d);
    FirstAt(n, |n|);
  }

  // ---- a file as text ----

  /** Printable ASCII without the space. */
  lemma UsableIs(token: string)
    ensures IsUsable(token) <==> token != "" && forall i :: 0 <= i < |token| ==> 33 <= token[i] as int <= 126
  {
  }

  /** A text that no trimming touches and that is no comment. */
  predicate IsWord(s: string) { s != "" && !IsSpace(s[0]) && !IsSpace(s[|s| - 1]) && s[0] != '#' }

  lemma HeaderText(host: string, line: string)
    requires IsWord(host) && line == host + [':']
    ensures ReadLine(line) == Header(host)
  {
    assert line[0] == host[0] && line[|line| - 1] == ':';
    assert TrimSpace(line) == line;
    assert line[..|line| - 1] == host;
  }

  lemma IndentTrimmed(line: string, s: string)
    requires IsWord(s) && line == [' '] + ([' '] + ([' '] + ([' '] + s)))
    ensures TrimSpace(line) == s
  {
    LeadingSpace([' '] + ([' '] + ([' '] + s)));
    LeadingSpace([' '] + ([' '] + s));
    LeadingSpace([' '] + s);
    LeadingSpace(s);
    assert TrimLeft(s) == s && TrimRight(s) == s;
  }

  lemma LeadingSpace(s: string)
    ensures TrimLeft([' '] + s) == TrimLeft(s)
  {
    assert ([' '] + s)[1..] == s;
  }

  lemma Unquoted(v: string, q: char)
    requires v != "" && IsQuote(q) && !IsQuote(v[0]) && !IsQuote(v[|v| - 1])
    ensures TrimQuotes([q] + v + [q]) == v
  {
    var s := [q] + v + [q];
    var w := v + [q];
    assert s[0] == q && s[1..] == w && w[0] == v[0];
    assert TrimQuotesLeft(w) == w;
    assert w[..|w| - 1] == v && w[|w| - 1] == q;
    assert TrimQuotesRight(v) == v;
  }

  lemma IndentedReads(line: string, body: string)
    requires line == [' '] + ([' '] + ([' '] + ([' '] + body))) && IsWord(body)
    ensures ReadLine(line) == Field(Cut(body, ':'))
  {
    IndentTrimmed(line, body);
    assert line[0] == ' ';
  }

  /** An indented field "<key>: <value>", with the value in quotes. */
  lemma FieldText(line: string, body: string, key: string, v: string, q: char)
    requires line == [' '] + ([' '] + ([' '] + ([' '] + body))) && body == key + [':'] + ([' '] + ([q] + v + [q]))
    requires IsWord(key) && ':' !in key && IsQuote(q) && v != "" && !IsQuote(v[0]) && !IsQuote(v[|v| - 1])
    ensures ReadLine(line) == if key == "oauth_token" then Token(v) else Other
  {
    var value := [q] + v + [q];
    assert body[0] == key[0] && body[|body| - 1] == q;
    IndentedReads(line, body);
    CutBody(key, [' '] + value, body);
    FieldValue(Cutting(key, [' '] + value, true), key, value);
    Unquoted(v, q);
  }

  lemma CutBody(key: string, after: string, body: string)
    requires ':' !in key && body == key + [':'] + after
    ensures Cut(body, ':') == Cutting(key, after, true)
  {
    FindAt(key, ':', after);
  }

  lemma FieldValue(c: Cutting, key: string, value: string)
    requires c == Cutting(key, [' '] + value, true) && IsWord(key)
    requires value != "" && !IsSpace(value[0]) && !IsSpace(value[|value| - 1])
    ensures Field(c) == if key == "oauth_token" then Token(TrimQuotes(value)) else Other
  {
    LeadingSpace(value);
    assert TrimLeft(value) == value && TrimRight(value) == value;
  }

  /** Main result: a file with the host's name and a colon at column zero, and under it an
      indented oauth_token in quotes, gives the text between the quotes; with another key
      it gives nothing. */
  lemma FileText(lines: seq<string>, host: string, body: string, key: string, v: string, q: char, scanOk: bool)
    requires |lines| == 2 && lines[0] == host + [':']
    requires lines[1] == [' '] + ([' '] + ([' '] + ([' '] + body))) && body == key + [':'] + ([' '] + ([q] + v + [q]))
    requires IsWord(host) && IsWord(key) && ':' !in key
    requires IsQuote(q) && IsUsable(v) && !IsQuote(v[0]) && !IsQuote(v[|v| - 1])
    ensures Meaning(ReadLines(lines), host, scanOk) ==
            if key == "oauth_token" then Ok(v) else Err(if scanOk then NoToken else ScanFailed)
  {
    var ls := ReadLines(lines);
    HeaderText(host, lines[0]);
    FieldText(lines[1], body, key, v, q);
    assert ls[0] == ReadLine(lines[0]) && ls[1] == ReadLine(lines[1]);
    TwoLines(ls, host, scanOk, v);
    UsableClean(v);
  }

  lemma UsableClean(v: string)
    requires IsUsable(v)
    ensures Clean(v) == Ok(v)
  {
    assert !IsSpace(v[0]) && !IsSpace(v[|v| - 1]);
    assert TrimSpace(v) == v;
  }

  lemma TwoLines(ls: seq<Line>, host: string, scanOk: bool, v: string)
    requires |ls| == 2 && ls[0] == Header(host) && (ls[1] == Token(v) || ls[1] == Other)
    ensures Meaning(ls, host, scanOk) ==
            if ls[1] == Token(v) then Clean(v) else Err(if scanOk then NoToken else ScanFailed)
  {
    assert HeaderAbove(ls, 0) == -1 && HeaderAbove(ls, 1) == 0;
    FirstTokenLine(ls, host, scanOk, if ls[1] == Token(v) then 1 else 2);
  }

  // ---- the cached credential ----

  /** One attempt to fetch: the binary when it is runnable, the file otherwise. */
  datatype Attempt =
    | ByBinary(ran: bool, output: string)
    | ByFile(readable: bool, lines: seq<string>, scanOk: bool)

  class Source {
    const host: string
    var token: string

    constructor (host: string)
      ensures this.host == host && token == ""
    {
      this.host := host;
      token := "";
    }

    /** `fetch`. */
    method Fetch(attempt: Attempt) returns (r: Result<string, FetchError>)
      ensures r == Fetched(host, attempt)
      ensures r.Ok? ==> IsUsable(r.value)
    {
      match attempt {
        case ByBinary(ran, output) =>
          if !ran {
            return Err(NotRun);
          }
          r := Clean(output);
        case ByFile(readable, lines, scanOk) =>
          if !readable {
            return Err(NoFile);
          }
          r := FromHostsFile(lines, scanOk, host);
      }
    }

    /** `store`. */
    method Store(fetched: string) returns (changed: bool)
      modifies this
      ensures token == fetched && changed == (old(token) != fetched)
    {
      changed := token != fetched;
      token := fetched;
    }

    /** `Load`: the start-up probe. */
    method Load(attempt: Attempt) returns (r: Result<string, FetchError>)
      modifies this
      ensures r == Fetched(host, attempt)
      ensures r.Ok? ==> token == r.value && IsUsable(token)
      ensures r.Err? ==> token == old(token)
    {
      r := Fetch(attempt);
      if r.Ok? {
        var changed := Store(r.value);
      }
    }

    /** `Refresh`: one attempt a tick, and how often the credential changed. */
    method Refresh(ticks: seq<Attempt>) returns (changes: nat)
      modifies this
      ensures token == LastGood(old(token), Results(host, ticks))
      ensures changes == Changes(old(token), Results(host, ticks))
    {
      changes := 0;
      ghost var results := Results(host, ticks);
      for i := 0 to |ticks|
        invariant token == LastGood(old(token), results[..i]) && changes == Changes(old(token), results[..i])
      {
        var changed := Tick(ticks, i, results);
        OneMore(results[..i], results[i], old(token));
        assert results[..i + 1] == results[..i] + [results[i]];
        if changed {
          changes := changes + 1;
        }
      }
      assert results[..|ticks|] == results;
    }

    /** One tick: a failed attempt keeps the credential in hand. */
    method Tick(ticks: seq<Attempt>, i: nat, ghost results: seq<Result<string, FetchError>>) returns (changed: bool)
      requires AllFetched(host, ticks, results) && i < |ticks|
      modifies this
      ensures token == After(old(token), results[i]) && changed == (token != old(token))
    {
      changed := false;
      var r := Fetch(ticks[i]);
      assert results[i] == Fetched(host, ticks[i]);
      if r.Ok? {
        changed := Store(r.value);
      }
    }
  }

  ghost predicate AllFetched(host: string, ticks: seq<Attempt>, results: seq<Result<string, FetchError>>) {
    && |results| == |ticks|
    && forall i {:trigger Fetched(host, ticks[i])} :: 0 <= i < |ticks| ==> results[i] == Fetched(host, ticks[i])
  }

  /** The results of a run of attempts. */
  function Results(host: string, ticks: seq<Attempt>): (results: seq<Result<string, FetchError>>)
    ensures AllFetched(host, ticks, results)
  {
    seq(|ticks|, i requires 0 <= i < |ticks| => Fetched(host, ticks[i]))
  }

  lemma OneMore(results: seq<Result<string, FetchError>>, r: Result<string, FetchError>, initial: string)
    ensures LastGood(initial, results + [r]) == After(LastGood(initial, results), r)
    ensures Changes(initial, results + [r]) == Changes(initial, results)
            + if After(LastGood(initial, results), r) != LastGood(initial, results) then 1 else 0
  {
    assert (results + [r])[..|results|] == results;
  }

  /** The credential after an attempt. */
  function After(token: string, r: Result<string, FetchError>): string {
    if r.Ok? then r.value else token
  }

  /** What an attempt yields. */
  function Fetched(host: string, attempt: Attempt): Result<string, FetchError> {
    match attempt
    case ByBinary(ran, output) => if ran then Clean(output) else Err(NotRun)
    case ByFile(readable, lines, scanOk) => if readable then Meaning(ReadLines(lines), host, scanOk) else Err(NoFile)
  }

  function LastGood(initial: string, results: seq<Result<string, FetchError>>): string {
    if results == [] then initial else After(LastGood(initial, results[..|results| - 1]), results[|results| - 1])
  }

  /** How often an attempt replaced the credential by a different one. */
  function Changes(initial: string, results: seq<Result<string, FetchError>>): nat {
    if results == [] then 0
    else
      var before := LastGood(initial, results[..|results| - 1]);
      Changes(initial, results[..|results| - 1])
      + if After(before, results[|results| - 1]) != before then 1 else 0
  }

  /** Main result: what was loaded once stays fit for an Authorization header. */
  lemma StaysUsable(host: string, ticks: seq<Attempt>, initial: string)
    requires IsUsable(initial)
    ensures IsUsable(LastGood(initial, Results(host, ticks)))
  {
    var results := Results(host, ticks);
    forall i | 0 <= i < |results| && results[i].Ok? ensures IsUsable(results[i].value) {
      FetchedUsable(host, ticks[i]);
    }
    LastGoodIs(initial, results);
  }

  lemma FetchedUsable(host: string, attempt: Attempt)
    ensures Fetched(host, attempt).Ok? ==> IsUsable(Fetched(host, attempt).value)
  {
  }

  /** The attempt that succeeded last. */
  ghost predicate IsLastSuccess(results: seq<Result<string, FetchError>>, i: nat) {
    i < |results| && results[i].Ok? && forall k :: i < k < |results| ==> results[k].Err?
  }

  /** Main result: after any run, the credential is that of the attempt that succeeded
      last, or the initial one if all failed. */
  lemma {:induction false} LastGoodIs(initial: string, results: seq<Result<string, FetchError>>)
    ensures
      || (LastGood(initial, results) == initial && forall k :: 0 <= k < |results| ==> results[k].Err?)
      || exists i: nat :: IsLastSuccess(results, i) && results[i] == Ok(LastGood(initial, results))
  {
    if results == [] {
    } else if results[|results| - 1].Ok? {
      assert IsLastSuccess(results, |results| - 1);
    } else {
      var init := results[..|results| - 1];
      LastGoodIs(initial, init);
      assert forall k | 0 <= k < |init| :: results[k] == init[k];
      if i: nat :| IsLastSuccess(init, i) && init[i] == Ok(LastGood(initial, init)) {
        assert IsLastSuccess(results, i);
      }
    }
  }
}
