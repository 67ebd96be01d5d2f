/** The query of a request, from its text to the target that is forwarded. */
module Queries {
  import opened Text
  import opened NetUrl
  import opened GhUrl
  import opened PathShapes
  import opened SchemeRepair
  import opened HostMeaning
  import opened ShortForm

  lemma MatchedAtQuery(v: Url, kinds: seq<Kind>)
    requires forall kind :: MatchPath(kind, v.path).Some? ==> PlainPath(v)
    ensures MatchedAt(v, kinds).1.Some? ==> MatchedAt(v, kinds).1.value.url.rawQuery == v.rawQuery
  {
    FirstMatchIs(kinds, v.path);
    if FirstMatch(kinds, v.path).Some? {
      BlobRewriteText(v);
    }
  }

  lemma MatchedQuery(u: Url)
    requires WellFormed(u)
    ensures Matched(u).1.Some? ==> Matched(u).1.value.url.rawQuery == u.rawQuery
  {
    var c := HostCandidates(ToLower(Hostname(u)));
    if c.Some? {
      var v := u.(host := c.value.canonical);
      forall kind | MatchPath(kind, v.path).Some? ensures PlainPath(v) {
        MatchedPlainPath(u, kind);
        RehostEscaped(u, c.value.canonical);
      }
      MatchedAtQuery(v, c.value.kinds);
    }
  }

  lemma MatchedOfQuery(prepared: Option<Url>, query: string)
    requires prepared.Some? ==> WellFormed(prepared.value) && prepared.value.rawQuery == query
    ensures MatchedOf(prepared).Some? ==> MatchedOf(prepared).value.url.rawQuery == query
  {
    if prepared.Some? {
      MatchedQuery(prepared.value);
    }
  }

  lemma AttemptQuery(h: string, u: Url)
    requires IsKnownHost(h) && WellFormed(u) && '#' !in u.rawQuery && !HasControl(u.rawQuery)
    ensures Attempt(h, u).Some? ==> Attempt(h, u).value.url.rawQuery == TrimRight(u.rawQuery)
  {
    HostlessTrimmed(u);
    HostlessClean(u);
    PreparedAtHost(h, Hostless(u));
    PreparedWellFormed(h + "/" + Hostless(u));
    MatchedOfQuery(Prepared(h + "/" + Hostless(u)), TrimRight(u.rawQuery));
  }

  lemma {:induction false} FirstAttemptQuery(defaults: seq<string>, u: Url)
    requires forall i :: 0 <= i < |defaults| ==> IsKnownHost(defaults[i])
    requires WellFormed(u) && '#' !in u.rawQuery && !HasControl(u.rawQuery)
    ensures FirstAttempt(defaults, u).Some? ==> FirstAttempt(defaults, u).value.url.rawQuery == TrimRight(u.rawQuery)
  {
    if defaults == [] {
    } else {
      AttemptQuery(defaults[0], u);
      FirstAttemptQuery(defaults[1..], u);
    }
  }

  lemma ResolveUrlQuery(u: Url, defaults: seq<string>)
    requires forall i :: 0 <= i < |defaults| ==> IsKnownHost(defaults[i])
    requires WellFormed(u) && '#' !in u.rawQuery && !HasControl(u.rawQuery) && TrimRight(u.rawQuery) == u.rawQuery
    ensures ResolveUrl(Some(u), defaults).Some? ==> ResolveUrl(Some(u), defaults).value.url.rawQuery == u.rawQuery
  {
    MatchedQuery(u);
    NamesSameHost(u);
    if !NamesAHost(u) {
      FirstAttemptQuery(defaults, u);
    }
  }

  /** The query of a text without fragment: all behind its first question mark. */
  function QueryIn(t: string): string { Cut(TrimRight(t), '?').after }

  lemma PreparedQuery(scheme: string, t: string)
    requires IsWebScheme(scheme) && '#' !in t
    ensures Prepared(scheme + "://" + t).Some? ==> Prepared(scheme + "://" + t).value.rawQuery == QueryIn(t)
  {
    PreparedWhole(scheme, t);
    assert '#' !in TrimRight(t) by { assert TrimRight(t) <= t; }
    WebQueryIs(TrimRight(t));
  }

  lemma WebQueryIs(t: string)
    requires '#' !in t
    ensures ParseWeb("https", t).Some? ==> ParseWeb("https", t).value.rawQuery == Cut(t, '?').after
  {
    WebNoFragment(t);
    NetPathQuery(QueryOnly("https", t), Cut(t, '?').before);
  }

  /** Main result: a URL without fragment that is accepted, on its own host or on a
      default one, is forwarded with exactly the query it was given. */
  lemma QueryArrives(scheme: string, t: string, defaults: seq<string>)
    requires IsWebScheme(scheme) && '#' !in t
    requires forall i :: 0 <= i < |defaults| ==> IsGitHubHost(ToLower(defaults[i]))
    ensures Resolve(scheme + "://" + t, defaults).Some? ==>
              Resolve(scheme + "://" + t, defaults).value.url.rawQuery == QueryIn(t)
  {
    var raw := scheme + "://" + t;
    PreparedQuery(scheme, t);
    PreparedWellFormed(raw);
    PreparedQueryClean(raw);
    QueryEnd(TrimRight(t));
    forall i | 0 <= i < |defaults| ensures IsKnownHost(defaults[i]) {
      HostTable(ToLower(defaults[i]));
    }
    if Prepared(raw).Some? {
      ResolveUrlQuery(Prepared(raw).value, defaults);
    }
  }
}
