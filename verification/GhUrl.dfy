/** Which GitHub URLs the proxy forwards, and in what normal form
    (internal/ghurl/ghurl.go). The functions say what is computed; the class `URL`
    and the methods after it do it in place, as the program does. */
module GhUrl {
  import opened Text
  import opened NetUrl

  datatype Kind = Release | Blob | Git | Tags | Raw | Gist

  function KindName(k: Kind): string {
    match k
    case Release => "release"
    case Blob => "blob"
    case Git => "git"
    case Tags => "tags"
    case Raw => "raw"
    case Gist => "gist"
  }

  /** No two kinds are counted under one name. */
  lemma KindNamesDiffer(a: Kind, b: Kind)
    ensures KindName(a) == KindName(b) <==> a == b
  {
    assert |"release"| == 7 && |"blob"| == |"tags"| == |"gist"| == 4 && |"git"| == |"raw"| == 3;
    assert "blob"[0] == 'b' && "tags"[0] == 't' && "gist"[0] == 'g' && "git"[0] == 'g' && "raw"[0] == 'r';
  }

  /** `repo` is empty for gists, which have no repository name. */
  datatype Target = Target(kind: Kind, owner: string, repo: string, url: Url)

  // ---- scheme repair ----

  /** A text that was percent-encoded from its scheme on. */
  predicate LooksEncoded(s: string) { "https%3a" <= ToLower(s) || "http%3a" <= ToLower(s) }

  function DecodeWhole(s: string): string {
    if LooksEncoded(s) && Unescape(s).Some? then Unescape(s).value else s
  }

  function PutScheme(s: string): string {
    var low := ToLower(s);
    if "https://" <= low || "http://" <= low then s
    else if "https:/" <= low then "https://" + s[7..]
    else if "http:/" <= low then "http://" + s[6..]
    else if "https:" <= low then "https://" + s[6..]
    else if "http:" <= low then "http://" + s[5..]
    else "https://" + s
  }

  function RepairedScheme(raw: string): string {
    var s := TrimSpace(raw);
    if s == "" then s else PutScheme(DecodeWhole(s))
  }

  // ---- hosts ----

  datatype HostShapes = HostShapes(canonical: string, kinds: seq<Kind>)

  /** The whole host allow list. */
  function HostCandidates(host: string): Option<HostShapes> {
    if host == "github.com" || host == "www.github.com" then
      Some(HostShapes("github.com", [Release, Blob, Git, Tags]))
    else if host == "raw.githubusercontent.com" || host == "raw.github.com" then Some(HostShapes(host, [Raw]))
    else if host == "gist.github.com" || host == "gist.githubusercontent.com" then Some(HostShapes(host, [Gist]))
    else None
  }

  predicate IsKnownHost(host: string) { HostCandidates(ToLower(host)).Some? }

  /** A dot or a colon tells a spelled-out host from an owner name. */
  predicate NamesAHost(u: Url) { IsKnownHost(Hostname(u)) || '.' in u.host || ':' in u.host }

  /** The URL as the path it would have been without a host. */
  function Hostless(u: Url): string {
    var s := u.host + EscapedPath(u) + if u.rawQuery != "" then "?" + u.rawQuery else "";
    if StartsWith(s, '/') then s[1..] else s
  }

  // ---- path shapes, on the decoded path ----

  function FirstSegment(p: string): Option<(string, string)> {
    if !StartsWith(p, '/') then None
    else
      var c := Cut(p[1..], '/');
      if c.before == "" || !c.found then None else Some((c.before, c.after))
  }

  /** Owner, repository and a rest that is not empty. */
  function OwnerRepo(p: string): Option<(string, string, string)> {
    match FirstSegment(p)
    case None => None
    case Some(first) =>
      var c := Cut(first.1, '/');
      if c.before == "" || !c.found || c.after == "" then None else Some((first.0, c.before, c.after))
  }

  /** What each kind wants after the owner and the repository. */
  predicate FitsRest(kind: Kind, rest: string) {
    var c := Cut(rest, '/');
    match kind
    case Release => (c.before == "releases" || c.before == "archive") && c.after != ""
    case Blob => (c.before == "blob" || c.before == "raw") && c.after != ""
    case Git => rest == "info/refs" || rest == "git-upload-pack" || rest == "git-receive-pack"
    case Tags => c.before == "tags"
    case Raw => c.after != ""
    case Gist => false
  }

  /** The owner and repository a path of this kind names. */
  function MatchPath(kind: Kind, p: string): Option<(string, string)> {
    if kind.Gist? then
      match FirstSegment(p)
      case None => None
      case Some(first) => if Cut(first.1, '/').after != "" then Some((first.0, "")) else None
    else
      match OwnerRepo(p)
      case None => None
      case Some(split) => if FitsRest(kind, split.2) then Some((split.0, split.1)) else None
  }

  /** The first of the kinds whose shape fits, with what it captures. */
  function FirstMatch(kinds: seq<Kind>, p: string): Option<(Kind, string, string)> {
    if kinds == [] then None
    else match MatchPath(kinds[0], p)
      case Some(m) => Some((kinds[0], m.0, m.1))
      case None => FirstMatch(kinds[1..], p)
  }

  // ---- blob to raw ----

  /** The first "/blob/" of the escaped path becomes "/raw/". */
  function BlobToRaw(u: Url): Url {
    var esc := EscapedPath(u);
    if IndexOf(esc, "/blob/") == |esc| then u
    else match Parse(ReplaceFirst(esc, "/blob/", "/raw/"))
      case None => u
      case Some(pu) => u.(path := pu.path, rawPath := pu.rawPath)
  }

  // ---- preparing, matching, defaults ----

  /** Only web URLs pass; they lose their user information and become https. */
  function Normalized(parsed: Option<Url>): Option<Url> {
    match parsed
    case None => None
    case Some(u) =>
      if u.scheme != "http" && u.scheme != "https" then None else Some(u.(user := None, scheme := "https"))
  }

  /** The normalized URL of a request remainder, not yet known to be forwardable. */
  function Prepared(raw: string): Option<Url> { Normalized(Parse(RepairedScheme(raw))) }

  /** What `match` makes of a URL: the URL as it leaves it, and the target if any.
      The host is made canonical even where no path shape fits. */
  function Matched(u: Url): (Url, Option<Target>) {
    match HostCandidates(ToLower(Hostname(u)))
    case None => (u, None)
    case Some(c) => MatchedAt(u.(host := c.canonical), c.kinds)
  }

  /** The same at a canonical host, with the kinds it serves. */
  function MatchedAt(v: Url, kinds: seq<Kind>): (Url, Option<Target>) {
    match FirstMatch(kinds, v.path)
    case None => (v, None)
    case Some(m) =>
      var w := if m.0.Blob? then BlobToRaw(v) else v;
      (w, Some(Target(m.0, m.1, m.2, w)))
  }

  function MatchedOf(prepared: Option<Url>): Option<Target> {
    match prepared
    case None => None
    case Some(v) => Matched(v).1
  }

  /** The target a default host makes of a URL that names none. */
  function Attempt(host: string, u: Url): Option<Target> { MatchedOf(Prepared(host + "/" + Hostless(u))) }

  function FirstAttempt(defaults: seq<string>, u: Url): Option<Target> {
    if defaults == [] then None
    else match Attempt(defaults[0], u)
      case Some(t) => Some(t)
      case None => FirstAttempt(defaults[1..], u)
  }

  function ResolveUrl(prepared: Option<Url>, defaults: seq<string>): Option<Target> {
    match prepared
    case None => None
    case Some(u) => OrDefaults(Matched(u), defaults)
  }

  /** A URL that did not match goes to the defaults, unless it names a host. */
  function OrDefaults(m: (Url, Option<Target>), defaults: seq<string>): Option<Target> {
    if m.1.Some? then m.1
    else if NamesAHost(m.0) then None
    else FirstAttempt(defaults, m.0)
  }

  /** `ParseWithDefaults`; `None` stands for `ErrNoMatch`. */
  function Resolve(raw: string, defaults: seq<string>): Option<Target> {
    ResolveUrl(Prepared(raw), defaults)
  }

  // ---- the same, in place ----

  /** `*url.URL`. */
  class URL {
    var scheme: string
    var opaquePart: string
    var user: Option<string>
    var host: string
    var path: string
    var rawPath: string
    var forceQuery: bool
    var rawQuery: string
    var fragment: string

    ghost function View(): Url
      reads this
    {
      Url(scheme, opaquePart, user, host, path, rawPath, forceQuery, rawQuery, fragment)
    }

    constructor (u: Url)
      ensures View() == u
    {
      scheme, opaquePart, user, host, path := u.scheme, u.opaquePart, u.user, u.host, u.path;
      rawPath, forceQuery, rawQuery, fragment := u.rawPath, u.forceQuery, u.rawQuery, u.fragment;
    }

    method Copy() returns (u: Url)
      ensures u == View()
    {
      u := Url(scheme, opaquePart, user, host, path, rawPath, forceQuery, rawQuery, fragment);
    }
  }

  /** `Target` as the program passes it on: the URL is the object that was matched. */
  datatype TargetRef = TargetRef(kind: Kind, owner: string, repo: string, url: URL)

  ghost predicate Refers(t: Option<TargetRef>, spec: Option<Target>)
    reads if t.Some? then {t.value.url} else {}
  {
    t.Some? == spec.Some?
    && (t.Some? ==> spec.value == Target(t.value.kind, t.value.owner, t.value.repo, t.value.url.View()))
  }

  method RepairScheme(raw: string) returns (s: string)
    ensures s == RepairedScheme(raw)
  {
    s := TrimSpace(raw);
    if s == "" {
      return;
    }
    if LooksEncoded(s) {
      var dec := Unescape(s);
      if dec.Some? {
        s := dec.value;
      }
    }
    s := SwitchScheme(s);
  }

  /** The switch that ends `RepairScheme`. */
  method SwitchScheme(s: string) returns (r: string)
    ensures r == PutScheme(s)
  {
    var low := ToLower(s);
    if "https://" <= low || "http://" <= low { return s; }
    if "https:/" <= low { return "https://" + s[7..]; }
    if "http:/" <= low { return "http://" + s[6..]; }
    if "https:" <= low { return "https://" + s[6..]; }
    if "http:" <= low { return "http://" + s[5..]; }
    return "https://" + s;
  }

  method Prepare(raw: string) returns (u: URL?)
    ensures u == null <==> Prepared(raw) == None
    ensures u != null ==> fresh(u) && u.View() == Prepared(raw).value
  {
    var s := RepairScheme(raw);
    u := Normalize(Parse(s));
  }

  /** The part of `prepare` after `url.Parse`. */
  method Normalize(parsed: Option<Url>) returns (u: URL?)
    ensures u == null <==> Normalized(parsed) == None
    ensures u != null ==> fresh(u) && u.View() == Normalized(parsed).value
  {
    if parsed == None {
      return null;
    }
    u := new URL(parsed.value);
    if u.scheme != "http" && u.scheme != "https" {
      return null;
    }
    u.user := None;
    u.scheme := "https";
  }

  method RewriteBlobToRaw(u: URL)
    modifies u
    ensures u.View() == BlobToRaw(old(u.View()))
  {
    var v := u.Copy();
    var esc := EscapedPath(v);
    var i := IndexOf(esc, "/blob/");
    if i == |esc| {
      return;
    }
    esc := esc[..i] + "/raw/" + esc[i + 6..];
    var pu := Parse(esc);
    if pu.Some? {
      u.path := pu.value.path;
      u.rawPath := pu.value.rawPath;
    }
  }

  method Match(u: URL) returns (t: Option<TargetRef>)
    modifies u
    ensures u.View() == Matched(old(u.View())).0
    ensures Refers(t, Matched(old(u.View())).1) && (t.Some? ==> t.value.url == u)
  {
    t := None;
    var v := u.Copy();
    var c := HostCandidates(ToLower(Hostname(v)));
    if c == None {
      return;
    }
    u.host := c.value.canonical;
    var kinds := c.value.kinds;
    for i := 0 to |kinds|
      invariant t == None && u.View() == v.(host := c.value.canonical)
      invariant FirstMatch(kinds, u.path) == FirstMatch(kinds[i..], u.path)
    {
      var m := MatchPath(kinds[i], u.path);
      if m.Some? {
        t := Some(TargetRef(kinds[i], m.value.0, m.value.1, u));
        break;
      }
    }
    if t.Some? && t.value.kind.Blob? {
      RewriteBlobToRaw(u);
    }
  }

  method ParseWithDefaults(raw: string, defaults: seq<string>) returns (t: Option<TargetRef>)
    ensures Refers(t, Resolve(raw, defaults)) && (t.Some? ==> fresh(t.value.url))
  {
    var u := Prepare(raw);
    if u == null {
      return None;
    }
    t := Match(u);
    if t.Some? {
      return;
    }
    var v := u.Copy();
    if NamesAHost(v) {
      return None;
    }
    t := TryDefaults(v, defaults);
  }

  /** The loop that ends `ParseWithDefaults`. */
  method TryDefaults(v: Url, defaults: seq<string>) returns (t: Option<TargetRef>)
    ensures Refers(t, FirstAttempt(defaults, v)) && (t.Some? ==> fresh(t.value.url))
  {
    for i := 0 to |defaults|
      invariant FirstAttempt(defaults, v) == FirstAttempt(defaults[i..], v)
    {
      t := TryDefault(v, defaults[i]);
      assert defaults[i..][0] == defaults[i] && defaults[i..][1..] == defaults[i + 1..];
      if t.Some? {
        return;
      }
    }
    return None;
  }

  method TryDefault(v: Url, host: string) returns (t: Option<TargetRef>)
    ensures Refers(t, Attempt(host, v)) && (t.Some? ==> fresh(t.value.url))
  {
    var u2 := Prepare(host + "/" + Hostless(v));
    if u2 == null {
      return None;
    }
    t := Match(u2);
  }
}
