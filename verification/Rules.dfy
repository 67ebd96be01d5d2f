/** Allow and deny lists: parsing, printing and matching (internal/ghurl/rule.go). */
module Rules {
  import opened Text

  /** An empty `repo` means "any repo of this owner". */
  datatype Rule = Rule(owner: string, repo: string)

  datatype RuleError = EmptyOwner(field: string) | ExtraSlash(field: string)

  // ---- what the parser does, as functions ----

  predicate IsSeparator(c: char) { c == ',' || c == ' ' || c == '\t' || c == '\r' }

  /** The length of the longest separator-free prefix. */
  function WordLength(s: string): (n: nat)
    ensures n <= |s| && forall i :: 0 <= i < n ==> !IsSeparator(s[i])
    ensures n < |s| ==> IsSeparator(s[n])
  {
    if s == "" || IsSeparator(s[0]) then 0 else 1 + WordLength(s[1..])
  }

  /** `strings.FieldsFunc`: the maximal separator-free runs, in order. */
  function Fields(s: string): seq<string>
    decreases |s|
  {
    if s == "" then []
    else if IsSeparator(s[0]) then Fields(s[1..])
    else [s[..WordLength(s)]] + Fields(s[WordLength(s)..])
  }

  function StripComment(line: string): string { line[..Find(line, '#')] }

  function LineFields(lines: seq<string>): seq<string> {
    if lines == [] then []
    else Fields(StripComment(lines[0])) + LineFields(lines[1..])
  }

  function ParseField(field: string): Result<Rule, RuleError> {
    var c := Cut(field, '/');
    if c.before == "" then Err(EmptyOwner(field))
    else if '/' in c.after then Err(ExtraSlash(field))
    else Ok(Rule(c.before, c.after))
  }

  /** The rules of all fields, or the error of the first bad one. */
  function ParseFields(fields: seq<string>): Result<seq<Rule>, RuleError> {
    if fields == [] then Ok([])
    else match ParseField(fields[0])
      case Err(e) => Err(e)
      case Ok(rule) =>
        match ParseFields(fields[1..])
        case Err(e) => Err(e)
        case Ok(rules) => Ok([rule] + rules)
  }

  function ParseText(s: string): Result<seq<Rule>, RuleError> {
    ParseFields(LineFields(Split(s, '\n')))
  }

  function Chain(a: Result<seq<Rule>, RuleError>, b: Result<seq<Rule>, RuleError>)
    : Result<seq<Rule>, RuleError>
  {
    match a
    case Err(_) => a
    case Ok(x) => match b case Err(_) => b case Ok(y) => Ok(x + y)
  }

  lemma {:induction false} ParseFieldsConcat(a: seq<string>, b: seq<string>)
    ensures ParseFields(a + b) == Chain(ParseFields(a), ParseFields(b))
  {
    if a == [] {
      assert a + b == b;
      assert forall y: seq<Rule> :: [] + y == y;
    } else {
      assert (a + b)[1..] == a[1..] + b;
      ParseFieldsConcat(a[1..], b);
      assert forall r: Rule, x: seq<Rule>, y: seq<Rule> :: [r] + (x + y) == [r] + x + y;
    }
  }

  lemma {:induction false} LineFieldsConcat(a: seq<string>, b: seq<string>)
    ensures LineFields(a + b) == LineFields(a) + LineFields(b)
  {
    if a == [] {
      assert a + b == b;
    } else {
      assert (a + b)[1..] == a[1..] + b;
      LineFieldsConcat(a[1..], b);
    }
  }

  /** `ParseRules`: nested loops over lines and fields with an early return. */
  method ParseRules(s: string) returns (r: Result<seq<Rule>, RuleError>)
    ensures r == ParseText(s)
  {
    var out: seq<Rule> := [];
    var lines := Split(s, '\n');
    for i := 0 to |lines|
      invariant ParseFields(LineFields(lines[..i])) == Ok(out)
    {
      var line := lines[i];
      var hash := Find(line, '#');
      if hash < |line| {
        line := line[..hash];
      }
      assert line == StripComment(lines[i]);
      var fields := Fields(line);
      ghost var before := LineFields(lines[..i]);
      LineStep(lines, i);
      for j := 0 to |fields|
        invariant ParseFields(before + fields[..j]) == Ok(out)
      {
        FieldStep(before, fields, j, out);
        var cut := Cut(fields[j], '/');
        if cut.before == "" {
          FailureEnds(lines, i, j);
          return Err(EmptyOwner(fields[j]));
        }
        if '/' in cut.after {
          FailureEnds(lines, i, j);
          return Err(ExtraSlash(fields[j]));
        }
        out := out + [Rule(cut.before, cut.after)];
      }
      assert fields[..|fields|] == fields;
    }
    assert lines[..|lines|] == lines;
    return Ok(out);
  }

  lemma LineStep(lines: seq<string>, i: nat)
    requires i < |lines|
    ensures LineFields(lines[..i + 1]) == LineFields(lines[..i]) + Fields(StripComment(lines[i]))
    ensures LineFields(lines[..i]) + Fields(StripComment(lines[i]))[..0] == LineFields(lines[..i])
  {
    assert lines[..i + 1] == lines[..i] + [lines[i]];
    LineFieldsConcat(lines[..i], [lines[i]]);
    assert LineFields([lines[i]]) == Fields(StripComment(lines[i])) + LineFields([]);
  }

  lemma OneField(field: string)
    ensures ParseFields([field]) ==
            match ParseField(field) case Err(e) => Err(e) case Ok(rule) => Ok([rule])
  {
    assert [field][1..] == [];
    assert forall rule: Rule :: [rule] + [] == [rule];
  }

  lemma FieldStep(before: seq<string>, fields: seq<string>, j: nat, out: seq<Rule>)
    requires j < |fields| && ParseFields(before + fields[..j]) == Ok(out)
    ensures ParseFields(before + fields[..j + 1]) ==
            match ParseField(fields[j]) case Err(e) => Err(e) case Ok(rule) => Ok(out + [rule])
  {
    assert before + fields[..j + 1] == before + fields[..j] + [fields[j]];
    ParseFieldsConcat(before + fields[..j], [fields[j]]);
    OneField(fields[j]);
  }

  /** Once a field is bad the rest of the text no longer matters. */
  lemma FailureEnds(lines: seq<string>, i: nat, j: nat)
    requires i < |lines| && j < |Fields(StripComment(lines[i]))|
    requires ParseFields(LineFields(lines[..i]) + Fields(StripComment(lines[i]))[..j + 1]).Err?
    ensures ParseFields(LineFields(lines)) ==
            ParseFields(LineFields(lines[..i]) + Fields(StripComment(lines[i]))[..j + 1])
  {
    var fields := Fields(StripComment(lines[i]));
    var front, a, b := LineFields(lines[..i]), fields[..j + 1], fields[j + 1..];
    var later := LineFields(lines[i + 1..]);
    LinesAround(lines, i);
    assert fields == a + b;
    Regroup(front, a, b, later);
    ParseFieldsConcat(front + a, b + later);
  }

  lemma LinesAround(lines: seq<string>, i: nat)
    requires i < |lines|
    ensures LineFields(lines) == LineFields(lines[..i]) + Fields(StripComment(lines[i])) + LineFields(lines[i + 1..])
  {
    assert lines == lines[..i] + lines[i..];
    LineFieldsConcat(lines[..i], lines[i..]);
    assert lines[i..][1..] == lines[i + 1..];
    Assoc(LineFields(lines[..i]), Fields(StripComment(lines[i])), LineFields(lines[i + 1..]));
  }

  lemma Regroup<T>(a: seq<T>, b: seq<T>, c: seq<T>, d: seq<T>)
    ensures a + (b + c) + d == a + b + (c + d)
  {
  }

  // ---- printing ----

  function RuleText(r: Rule): string {
    if r.repo == "" then r.owner else r.owner + "/" + r.repo
  }

  function RuleTexts(rs: seq<Rule>): (parts: seq<string>)
    ensures |parts| == |rs| && forall i :: 0 <= i < |rs| ==> parts[i] == RuleText(rs[i])
  {
    seq(|rs|, i requires 0 <= i < |rs| => RuleText(rs[i]))
  }

  function Print(rs: seq<Rule>): string { Join(RuleTexts(rs), ',') }

  /** `RuleSet.String`: fills a slice of parts, then joins it. */
  method RuleSetString(rs: seq<Rule>) returns (s: string)
    ensures s == Print(rs)
  {
    var parts := new string[|rs|](_ => "");
    for i := 0 to |rs|
      invariant forall k :: 0 <= k < i ==> parts[k] == RuleText(rs[k])
    {
      parts[i] := if rs[i].repo == "" then rs[i].owner else rs[i].owner + "/" + rs[i].repo;
    }
    assert parts[..] == RuleTexts(rs);
    return Join(parts[..], ',');
  }

  // ---- the printed form reads back ----

  predicate IsClean(c: char) { !IsSeparator(c) && c != '\n' && c != '#' }

  predicate CleanText(s: string) { forall i :: 0 <= i < |s| ==> IsClean(s[i]) }

  predicate AllClean(parts: seq<string>) {
    forall i :: 0 <= i < |parts| ==> CleanText(parts[i])
  }

  /** A rule the syntax can spell: a non-empty owner, one slash at most, and no
      character that separates entries or starts a comment. */
  predicate Spellable(r: Rule) {
    r.owner != "" && CleanText(r.owner) && CleanText(r.repo) && '/' !in r.owner && '/' !in r.repo
  }

  predicate AllSpellable(rs: seq<Rule>) { forall i :: 0 <= i < |rs| ==> Spellable(rs[i]) }

  lemma {:induction false} FieldsClean(s: string)
    requires '\n' !in s && '#' !in s
    ensures AllClean(Fields(s))
    decreases |s|
  {
    if s == "" {
    } else if IsSeparator(s[0]) {
      FieldsClean(s[1..]);
    } else {
      FieldsClean(s[WordLength(s)..]);
    }
  }

  lemma {:induction false} LineFieldsClean(lines: seq<string>)
    requires AllWithout(lines, '\n')
    ensures AllClean(LineFields(lines))
  {
    if lines == [] {
    } else {
      FieldsClean(StripComment(lines[0]));
      LineFieldsClean(lines[1..]);
    }
  }

  lemma FieldSpellable(field: string)
    requires CleanText(field)
    ensures ParseField(field).Ok? ==> Spellable(ParseField(field).value)
  {
    var c := Cut(field, '/');
    assert c.found ==> forall i | 0 <= i < |c.after| :: c.after[i] == field[|c.before| + 1 + i];
    assert forall i | 0 <= i < |c.before| :: c.before[i] == field[i];
  }

  lemma {:induction false} ParsedSpellable(fields: seq<string>)
    requires AllClean(fields)
    ensures ParseFields(fields).Ok? ==> AllSpellable(ParseFields(fields).value)
  {
    if fields == [] {
    } else if ParseFields(fields).Ok? {
      FieldSpellable(fields[0]);
      ParsedSpellable(fields[1..]);
    }
  }

  /** Whatever text is accepted, every rule read from it is spellable. */
  lemma AcceptedSpellable(s: string)
    ensures ParseText(s).Ok? ==> AllSpellable(ParseText(s).value)
  {
    SplitPieces(s, '\n');
    LineFieldsClean(Split(s, '\n'));
    ParsedSpellable(LineFields(Split(s, '\n')));
  }

  lemma RuleTextReads(r: Rule)
    requires Spellable(r)
    ensures RuleText(r) != "" && CleanText(RuleText(r)) && ParseField(RuleText(r)) == Ok(r)
  {
    if r.repo == "" {
      FindNone(r.owner, '/');
    } else {
      FindAt(r.owner, '/', r.repo);
    }
  }

  lemma WordOf(word: string, rest: string)
    requires CleanText(word)
    requires rest == "" || IsSeparator(rest[0])
    ensures WordLength(word + rest) == |word|
  {
    var s := word + rest;
    var n := WordLength(s);
    assert forall k | 0 <= k < |word| :: s[k] == word[k];
    assert forall k | 0 <= k < |rest| :: s[|word| + k] == rest[k];
  }

  predicate AllWords(parts: seq<string>) {
    forall i :: 0 <= i < |parts| ==> parts[i] != "" && CleanText(parts[i])
  }

  lemma FieldsStep(word: string, rest: string)
    requires word != "" && CleanText(word)
    ensures Fields(word) == [word]
    ensures Fields(word + ([','] + rest)) == [word] + Fields(rest)
  {
    WordOf(word, "");
    assert word + "" == word;
    WordOf(word, [','] + rest);
    var s := word + ([','] + rest);
    assert s[0] == word[0] && s[..|word|] == word && s[|word|..] == [','] + rest;
    assert ([','] + rest)[1..] == rest;
  }

  lemma {:induction false} FieldsOfJoin(parts: seq<string>)
    requires AllWords(parts)
    ensures Fields(Join(parts, ',')) == parts
    ensures '\n' !in Join(parts, ',') && '#' !in Join(parts, ',')
  {
    if parts == [] {
    } else if |parts| == 1 {
      FieldsStep(parts[0], "");
    } else {
      var rest := Join(parts[1..], ',');
      FieldsOfJoin(parts[1..]);
      FieldsStep(parts[0], rest);
      assert Join(parts, ',') == parts[0] + ([','] + rest);
      assert parts == [parts[0]] + parts[1..];
    }
  }

  lemma {:induction false} ParseFieldsOfTexts(rs: seq<Rule>)
    requires AllSpellable(rs)
    ensures ParseFields(RuleTexts(rs)) == Ok(rs)
  {
    if rs == [] {
    } else {
      ParseFieldsOfTexts(rs[1..]);
      var texts := RuleTexts(rs);
      assert texts[1..] == RuleTexts(rs[1..]);
      assert ParseField(texts[0]) == Ok(rs[0]) by { RuleTextReads(rs[0]); }
      assert rs == [rs[0]] + rs[1..];
    }
  }

  lemma PrintedReads(rs: seq<Rule>)
    requires AllSpellable(rs)
    ensures ParseText(Print(rs)) == Ok(rs)
  {
    var parts := RuleTexts(rs);
    forall i | 0 <= i < |parts| ensures parts[i] != "" && CleanText(parts[i]) {
      RuleTextReads(rs[i]);
    }
    FieldsOfJoin(parts);
    OneLine(Print(rs));
    ParseFieldsOfTexts(rs);
  }

  lemma OneLine(s: string)
    requires '\n' !in s && '#' !in s
    ensures LineFields(Split(s, '\n')) == Fields(s)
  {
    FindNone(s, '\n');
    FindNone(s, '#');
    assert Split(s, '\n') == [s] && StripComment(s) == s;
    assert [s][1..] == [] && Fields(s) + [] == Fields(s);
  }

  /** Main result: printing is undone by parsing exactly for spellable lists ... */
  lemma PrintParse(rs: seq<Rule>)
    ensures ParseText(Print(rs)) == Ok(rs) <==> AllSpellable(rs)
  {
    AcceptedSpellable(Print(rs));
    if AllSpellable(rs) {
      PrintedReads(rs);
    }
  }

  /** ... so for every accepted text the printed rules read back as themselves. */
  lemma ParsePrintParse(s: string)
    ensures ParseText(s).Ok? ==> ParseText(Print(ParseText(s).value)) == ParseText(s)
  {
    AcceptedSpellable(s);
    if ParseText(s).Ok? {
      PrintedReads(ParseText(s).value);
    }
  }

  /** Two texts on lines of their own parse to the two lists in a row, and the
      error reported is that of the first bad text. */
  lemma ParseConcat(a: string, b: string)
    ensures ParseText(a + "\n" + b) == Chain(ParseText(a), ParseText(b))
  {
    assert a + "\n" + b == a + ['\n'] + b;
    SplitConcat(a, '\n', b);
    LineFieldsConcat(Split(a, '\n'), Split(b, '\n'));
    ParseFieldsConcat(LineFields(Split(a, '\n')), LineFields(Split(b, '\n')));
  }

  // ---- matching ----

  /** `Rule.Match`: "*" as the owner is any owner, names compare without case. */
  predicate Covers(r: Rule, owner: string, repo: string) {
    (r.owner == "*" || EqualFold(r.owner, owner)) && (r.repo == "" || EqualFold(r.repo, repo))
  }

  predicate AnyCovers(rs: seq<Rule>, owner: string, repo: string) {
    exists i :: 0 <= i < |rs| && Covers(rs[i], owner, repo)
  }

  /** `RuleSet.Match`: a loop that stops at the first rule that covers the pair. */
  method RuleSetMatch(rs: seq<Rule>, owner: string, repo: string) returns (found: bool)
    ensures found == AnyCovers(rs, owner, repo)
  {
    for i := 0 to |rs|
      invariant forall k :: 0 <= k < i ==> !Covers(rs[k], owner, repo)
    {
      if rs[i].owner != "*" && !EqualFold(rs[i].owner, owner) {
        continue;
      }
      if rs[i].repo == "" || EqualFold(rs[i].repo, repo) {
        return true;
      }
    }
    return false;
  }

  /** A printed and re-read list admits the same repositories, whatever the case
      in which they are asked for. */
  lemma ReprintedCoversSame(s: string, owner: string, repo: string)
    requires ParseText(s).Ok?
    ensures ParseText(Print(ParseText(s).value)).Ok?
    ensures AnyCovers(ParseText(Print(ParseText(s).value)).value, owner, repo) ==
            AnyCovers(ParseText(s).value, ToLower(owner), ToLower(repo))
  {
    ParsePrintParse(s);
    assert ToLower(ToLower(owner)) == ToLower(owner) && ToLower(ToLower(repo)) == ToLower(repo);
    var rs := ParseText(s).value;
    assert forall i | 0 <= i < |rs| ::
        Covers(rs[i], owner, repo) == Covers(rs[i], ToLower(owner), ToLower(repo));
  }

  // ---- what a list means, on texts ----

  /** A word of a rule list: no separator, comment mark, line end or slash in it. */
  predicate IsWord(s: string) { s != "" && CleanText(s) && '/' !in s }

  /** One rule as text: an owner, or an owner and a repository. */
  lemma RuleReads(o: string, r: string)
    requires IsWord(o) && IsWord(r)
    ensures ParseText(o) == Ok([Rule(o, "")]) && ParseText(o + "/" + r) == Ok([Rule(o, r)])
  {
    PrintsAs(Rule(o, ""), o);
    PrintsAs(Rule(o, r), o + "/" + r);
  }

  lemma PrintsAs(r: Rule, s: string)
    requires Spellable(r) && s == RuleText(r)
    ensures ParseText(s) == Ok([r])
  {
    PrintParse([r]);
    assert Print([r]) == s;
  }

  /** Which pairs a rule covers: its owner or any, and its repository or any. */
  lemma CoversExactly(r: Rule, owner: string, repo: string)
    ensures Covers(r, owner, repo) <==>
              (r.owner == "*" || SameLetters(r.owner, owner)) && (r.repo == "" || SameLetters(r.repo, repo))
  {
    EqualFoldIs(r.owner, owner);
    EqualFoldIs(r.repo, repo);
  }

  /** Main result: the text of an owner and a repository covers that one, that of an owner
      alone all of its repositories, and that of a star and a repository all of that name,
      in any letter case. */
  lemma TextsCover(o: string, r: string, owner: string, repo: string)
    requires IsWord(o) && IsWord(r) && o != "*"
    ensures ParseText(o + "/" + r).Ok? && ParseText(o).Ok? && ParseText("*" + "/" + r).Ok?
    ensures AnyCovers(ParseText(o + "/" + r).value, owner, repo) <==> SameLetters(o, owner) && SameLetters(r, repo)
    ensures AnyCovers(ParseText(o).value, owner, repo) <==> SameLetters(o, owner)
    ensures AnyCovers(ParseText("*" + "/" + r).value, owner, repo) <==> SameLetters(r, repo)
  {
    StarIsWord();
    RuleReads(o, r);
    RuleReads("*", r);
    OneCovers(Rule(o, r), owner, repo);
    OneCovers(Rule(o, ""), owner, repo);
    OneCovers(Rule("*", r), owner, repo);
  }

  lemma StarIsWord()
    ensures IsWord("*")
  {
  }

  lemma OneCovers(r: Rule, owner: string, repo: string)
    ensures AnyCovers([r], owner, repo) <==>
              (r.owner == "*" || SameLetters(r.owner, owner)) && (r.repo == "" || SameLetters(r.repo, repo))
  {
    CoversExactly(r, owner, repo);
    assert [r][0] == r;
  }

  /** Main result: what follows a comment mark on a line says nothing, and what stands
      before it is read. */
  lemma CommentIgnored(a: string, c: string)
    requires '#' !in a && '\n' !in a && '\n' !in c
    ensures ParseText(a + "#" + c) == ParseText(a)
  {
    var s := a + ['#'] + c;
    assert a + "#" + c == s;
    FindAt(a, '#', c);
    FindNone(a, '#');
    assert s[..|a|] == a && a[..|a|] == a;
    assert StripComment(s) == a && StripComment(a) == a;
    assert '\n' !in s;
    OnlyLine(s);
    OnlyLine(a);
  }

  lemma OnlyLine(s: string)
    requires '\n' !in s
    ensures ParseText(s) == ParseFields(Fields(StripComment(s)))
  {
    FindNone(s, '\n');
    var fields := Fields(StripComment(s));
    assert [s][1..] == [] && LineFields([]) == [];
    assert LineFields([s]) == fields + [];
    assert fields + [] == fields;
  }

  lemma FieldsParted(a: string, c: char, b: string)
    requires IsWord(a) && IsWord(b) && IsSeparator(c)
    ensures Fields(a + ([c] + b)) == [a] + [b]
  {
    FieldsStep(b, "");
    WordOf(a, [c] + b);
    var s := a + ([c] + b);
    assert s[0] == a[0] && s[..|a|] == a && s[|a|..] == [c] + b;
    assert ([c] + b)[1..] == b;
  }

  /** Each of the four separators parts two rules. */
  lemma SeparatorParts(a: string, c: char, b: string)
    requires IsWord(a) && IsWord(b) && c in {',', ' ', '\t', '\r'}
    ensures ParseText(a + ([c] + b)) == Ok([Rule(a, "")] + [Rule(b, "")])
  {
    var s := a + ([c] + b);
    FieldsParted(a, c, b);
    OnlyLine(s);
    FindNone(s, '#');
    assert s[..|s|] == s;
    RuleTextReads(Rule(a, ""));
    RuleTextReads(Rule(b, ""));
    TwoFields(a, b, Rule(a, ""), Rule(b, ""));
  }

  lemma TwoFields(a: string, b: string, x: Rule, y: Rule)
    requires ParseField(a) == Ok(x) && ParseField(b) == Ok(y)
    ensures ParseFields([a] + [b]) == Ok([x] + [y])
  {
    OneRule(b, y);
    assert ([a] + [b])[1..] == [b];
  }

  lemma OneRule(b: string, y: Rule)
    requires ParseField(b) == Ok(y)
    ensures ParseFields([b]) == Ok([y])
  {
    assert [b][1..] == [] && ParseFields([]) == Ok([]);
    assert [y] + [] == [y];
  }
}
