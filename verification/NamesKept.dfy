/** The names the access lists judge against the path that is forwarded. */
module NamesKept {
  import opened Text
  import opened NetUrl
  import opened GhUrl
  import opened PathShapes
  import opened HostMeaning

  /** The forwarded path names the owner and the repository of the target. */
  predicate KeepsNames(t: Target) { MatchPath(t.kind, t.url.path) == Some((t.owner, t.repo)) }

  /** The first "/blob/" comes too early to be the one behind the names. */
  predicate EarlyBlob(u: Url) {
    var esc := EscapedPath(u);
    IndexOf(esc, "/blob/") < |esc| && DecodedIndex(esc) < 3
  }

  predicate BlobNamed(t: Target) { t.kind.Blob? && (t.owner == "blob" || t.repo == "blob") }

  /** An early "/blob/" is one of the names. */
  lemma EarlyIsName(u: Url)
    requires PlainPath(u) && MatchPath(Blob, u.path).Some? && EarlyBlob(u)
    ensures MatchPath(Blob, u.path).value.0 == "blob" || MatchPath(Blob, u.path).value.1 == "blob"
  {
    var esc := EscapedPath(u);
    BlobSpelling();
    var a, b := Around(esc, "/blob/");
    CutOut(a, "/blob/", b);
    DecodedReplace(a, b, "blob", "raw");
    SplitAround(Unescape(a).value, "blob", Unescape(b).value);
    ShapeBySegments(Blob, u.path);
  }

  lemma BlobNames(v: Url)
    requires PlainPath(v) && MatchPath(Blob, v.path).Some?
    ensures MatchPath(Blob, BlobToRaw(v).path) == MatchPath(Blob, v.path) <==> !EarlyBlob(v)
  {
    if IndexOf(EscapedPath(v), "/blob/") < |EscapedPath(v)| {
      RewriteKeepsNames(v);
    }
  }

  /** What `match` makes of a URL keeps the names, but for an early "/blob/". */
  lemma MatchedNames(u: Url)
    requires WellFormed(u) && Matched(u).1.Some?
    ensures
      var t := Matched(u).1.value;
      && (KeepsNames(t) <==> !(t.kind.Blob? && EarlyBlob(u)))
      && (t.kind.Blob? && EarlyBlob(u) ==> BlobNamed(t))
  {
    var c := HostCandidates(ToLower(Hostname(u)));
    FirstMatchIs(c.value.kinds, u.path);
    var m := FirstMatch(c.value.kinds, u.path).value;
    var v := u.(host := c.value.canonical);
    MatchedPlainPath(u, m.0);
    assert EscapedPath(v) == EscapedPath(u);
    if m.0.Blob? {
      BlobNames(v);
      if EarlyBlob(v) {
        EarlyIsName(v);
      }
    }
  }

  // ---- at the entry point ----

  /** The prepared URL of the first default that takes a target without host. */
  ghost function FirstTaken(defaults: seq<string>, u: Url): Option<Url> {
    if defaults == [] then None
    else if Attempt(defaults[0], u).Some? then Prepared(defaults[0] + "/" + Hostless(u))
    else FirstTaken(defaults[1..], u)
  }

  ghost function TakenOr(prepared: Option<Url>, m: (Url, Option<Target>), defaults: seq<string>): Option<Url> {
    if m.1.Some? then prepared else FirstTaken(defaults, m.0)
  }

  /** The prepared URL that an accepted text was matched as: its own, or that of the
      default that took it. */
  ghost function MatchedAs(raw: string, defaults: seq<string>): Option<Url> {
    match Prepared(raw)
    case None => None
    case Some(u) => TakenOr(Some(u), Matched(u), defaults)
  }

  ghost predicate Yields(source: Option<Url>, t: Target) {
    source.Some? && WellFormed(source.value) && Matched(source.value).1 == Some(t)
  }

  lemma AttemptYields(h: string, u: Url)
    ensures Attempt(h, u).Some? ==> Yields(Prepared(h + "/" + Hostless(u)), Attempt(h, u).value)
  {
    PreparedWellFormed(h + "/" + Hostless(u));
  }

  lemma {:induction false} FirstTakenYields(defaults: seq<string>, u: Url)
    ensures FirstAttempt(defaults, u).Some? ==> Yields(FirstTaken(defaults, u), FirstAttempt(defaults, u).value)
  {
    if defaults == [] {
    } else {
      AttemptYields(defaults[0], u);
      FirstTakenYields(defaults[1..], u);
    }
  }

  lemma TakenYields(u: Url, m: (Url, Option<Target>), defaults: seq<string>)
    requires WellFormed(u) && m == Matched(u)
    ensures OrDefaults(m, defaults).Some? ==> Yields(TakenOr(Some(u), m, defaults), OrDefaults(m, defaults).value)
  {
    FirstTakenYields(defaults, m.0);
  }

  lemma MatchedAsYields(raw: string, defaults: seq<string>)
    ensures Resolve(raw, defaults).Some? ==> Yields(MatchedAs(raw, defaults), Resolve(raw, defaults).value)
  {
    PreparedWellFormed(raw);
    if Prepared(raw).Some? {
      TakenYields(Prepared(raw).value, Matched(Prepared(raw).value), defaults);
    }
  }

  lemma YieldedNames(source: Option<Url>, t: Target)
    requires Yields(source, t)
    ensures KeepsNames(t) <==> !(t.kind.Blob? && EarlyBlob(source.value))
    ensures KeepsNames(t) || BlobNamed(t)
  {
    MatchedNames(source.value);
  }

  /** Main result: an accepted target's path names the owner and the repository of the
      target exactly when it was not matched as a blob with an early "/blob/". */
  lemma NamesKeptExactly(raw: string, defaults: seq<string>)
    ensures
      Resolve(raw, defaults).Some? ==>
        var t := Resolve(raw, defaults).value;
        MatchedAs(raw, defaults).Some?
        && (KeepsNames(t) <==> !(t.kind.Blob? && EarlyBlob(MatchedAs(raw, defaults).value)))
  {
    MatchedAsYields(raw, defaults);
    if Resolve(raw, defaults).Some? {
      YieldedNames(MatchedAs(raw, defaults), Resolve(raw, defaults).value);
    }
  }

  /** Main result: so what the access lists judge is what the forwarded path spells,
      unless a blob's owner or repository is called "blob". */
  lemma AcceptedNames(raw: string, defaults: seq<string>)
    ensures
      Resolve(raw, defaults).Some? ==>
        KeepsNames(Resolve(raw, defaults).value) || BlobNamed(Resolve(raw, defaults).value)
  {
    MatchedAsYields(raw, defaults);
    if Resolve(raw, defaults).Some? {
      YieldedNames(MatchedAs(raw, defaults), Resolve(raw, defaults).value);
    }
  }
}
