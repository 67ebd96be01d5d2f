/** Scheme repair: what front ends and clients do to an embedded URL is undone. */
module SchemeRepair {
  import opened Text
  import opened NetUrl
  import opened GhUrl

  // ---- the switch over the spelled scheme ----

  /** The first characters of a text in lower case. */
  lemma LowPrefix(scheme: string, mark: string, t: string)
    requires IsWebScheme(scheme)
    ensures ToLower(scheme + mark + t) == ToLower(scheme) + ToLower(mark) + ToLower(t)
    ensures ToLower("://") == "://" && ToLower(":/") == ":/" && ToLower(":") == ":"
  {
  }

  lemma KeepsWhole(scheme: string, t: string)
    requires IsWebScheme(scheme)
    ensures PutScheme(scheme + "://" + t) == scheme + "://" + t
  {
    LowPrefix(scheme, "://", t);
    assert "http" + "://" == "http://" && "https" + "://" == "https://";
  }

  predicate CharIs(s: string, k: nat, c: char) { k < |s| && s[k] == c }

  lemma PutHttp(s: string)
    requires |s| >= 5 && ToLower(s)[..5] == "http:" && !CharIs(ToLower(s), 5, '/')
    ensures PutScheme(s) == "http://" + s[5..]
  {
    assert ToLower(s)[4] == ToLower(s)[..5][4] == ':';
  }

  lemma PutHttpSlash(s: string)
    requires |s| >= 6 && ToLower(s)[..6] == "http:/" && !CharIs(ToLower(s), 6, '/')
    ensures PutScheme(s) == "http://" + s[6..]
  {
    assert ToLower(s)[4] == ToLower(s)[..6][4] == ':';
  }

  lemma PutHttps(s: string)
    requires |s| >= 6 && ToLower(s)[..6] == "https:" && !CharIs(ToLower(s), 6, '/')
    ensures PutScheme(s) == "https://" + s[6..]
  {
    assert ToLower(s)[4] == ToLower(s)[..6][4] == 's';
  }

  lemma PutHttpsSlash(s: string)
    requires |s| >= 7 && ToLower(s)[..7] == "https:/" && !CharIs(ToLower(s), 7, '/')
    ensures PutScheme(s) == "https://" + s[7..]
  {
    assert ToLower(s)[4] == ToLower(s)[..7][4] == 's';
  }

  /** What follows a front that ends just before `t`. */
  lemma LowFront(front: string, t: string)
    requires !StartsWith(t, '/')
    ensures ToLower(front + t)[..|front|] == ToLower(front) && (front + t)[|front|..] == t
    ensures !CharIs(ToLower(front + t), |front|, '/')
  {
  }

  lemma RepairsOneSlash(scheme: string, t: string)
    requires IsWebScheme(scheme) && !StartsWith(t, '/')
    ensures PutScheme(scheme + ":/" + t) == ToLower(scheme) + "://" + t
  {
    LowFront(scheme + ":/", t);
    LowPrefix(scheme, ":/", "");
    assert scheme + ":/" + "" == scheme + ":/" && ToLower(scheme) + ":/" + "" == ToLower(scheme) + ":/";
    SchemeSpellings();
    if ToLower(scheme) == "http" { PutHttpSlash(scheme + ":/" + t); } else { PutHttpsSlash(scheme + ":/" + t); }
  }

  lemma RepairsNoSlash(scheme: string, t: string)
    requires IsWebScheme(scheme) && !StartsWith(t, '/')
    ensures PutScheme(scheme + ":" + t) == ToLower(scheme) + "://" + t
  {
    LowFront(scheme + ":", t);
    LowPrefix(scheme, ":", "");
    assert scheme + ":" + "" == scheme + ":" && ToLower(scheme) + ":" + "" == ToLower(scheme) + ":";
    SchemeSpellings();
    if ToLower(scheme) == "http" { PutHttp(scheme + ":" + t); } else { PutHttps(scheme + ":" + t); }
  }

  lemma SchemeSpellings()
    ensures "http" + ":" == "http:" && "http" + ":/" == "http:/" && "http" + "://" == "http://"
    ensures "https" + ":" == "https:" && "https" + ":/" == "https:/" && "https" + "://" == "https://"
  {
  }

  /** A text that spells out a scheme, slashes or not, or an encoded one. */
  predicate SpellsScheme(t: string) {
    "http:" <= ToLower(t) || "https:" <= ToLower(t) || LooksEncoded(t)
  }

  lemma PrefixOfPrefix(a: string, b: string, s: string)
    requires a <= b <= s
    ensures a <= s
  {
    assert a == b[..|a|] == s[..|b|][..|a|];
  }

  lemma RepairsBare(t: string)
    requires !SpellsScheme(t)
    ensures PutScheme(t) == "https://" + t && DecodeWhole(t) == t
  {
    var low := ToLower(t);
    if "https://" <= low { PrefixOfPrefix("https:", "https://", low); }
    if "http://" <= low { PrefixOfPrefix("http:", "http://", low); }
    if "https:/" <= low { PrefixOfPrefix("https:", "https:/", low); }
    if "http:/" <= low { PrefixOfPrefix("http:", "http:/", low); }
  }

  lemma NotEncoded(scheme: string, rest: string)
    requires IsWebScheme(scheme)
    ensures !LooksEncoded(scheme + ":" + rest)
  {
    LowPrefix(scheme, ":", rest);
    var low := ToLower(scheme + ":" + rest);
    assert low[4] == if |scheme| == 4 then ':' else 's';
    assert low[|scheme|] == ':';
  }

  /** Space around a text that starts with a scheme is trailing space. */
  lemma TrimAfter(front: string, t: string)
    requires front != "" && !IsSpace(front[0]) && !IsSpace(front[|front| - 1])
    ensures TrimSpace(front + t) == front + TrimRight(t)
  {
    assert (front + t)[0] == front[0];
    if TrimRight(t) == "" {
      TrimRightBlank(front, t);
      assert front + "" == front;
    } else {
      TrimRightConcat(front, t);
    }
  }

  /** `front` is a scheme, a colon and any number of slashes. */
  predicate IsFront(front: string, scheme: string, slashes: string) {
    IsWebScheme(scheme) && front == scheme + ":" + slashes && forall i :: 0 <= i < |slashes| ==> slashes[i] == '/'
  }

  lemma RepairsSpelled(front: string, scheme: string, slashes: string, t: string)
    requires IsFront(front, scheme, slashes)
    ensures RepairedScheme(front + t) == PutScheme(front + TrimRight(t))
  {
    WebSchemeChars(scheme);
    assert front[0] == scheme[0];
    assert front[|front| - 1] == if slashes == "" then ':' else '/';
    TrimAfter(front, t);
    Assoc(scheme + ":", slashes, TrimRight(t));
    NotEncoded(scheme, slashes + TrimRight(t));
  }

  lemma Fronts(scheme: string)
    requires IsWebScheme(scheme)
    ensures IsFront(scheme + "://", scheme, "//") && IsFront(scheme + ":/", scheme, "/")
    ensures IsFront(scheme + ":", scheme, "")
  {
  }

  // ---- repairing twice ----

  lemma PutSchemeShape(s: string) returns (scheme: string, t: string)
    ensures IsWebScheme(scheme) && PutScheme(s) == scheme + "://" + t
  {
    var low := ToLower(s);
    assert ToLower("https") == "https" && ToLower("http") == "http";
    if "https://" <= low {
      scheme, t := s[..5], s[8..];
      assert low[..8] == "https://" && ToLower(scheme) == low[..8][..5];
      assert s[5] == low[..8][5] && s[6] == low[..8][6] && s[7] == low[..8][7];
      assert s == scheme + "://" + t;
    } else if "http://" <= low {
      scheme, t := s[..4], s[7..];
      assert low[..7] == "http://" && ToLower(scheme) == low[..7][..4];
      assert s[4] == low[..7][4] && s[5] == low[..7][5] && s[6] == low[..7][6];
      assert s == scheme + "://" + t;
    } else if "https:/" <= low {
      scheme, t := "https", s[7..];
      assert "https" + "://" == "https://";
    } else if "http:/" <= low {
      scheme, t := "http", s[6..];
      assert "http" + "://" == "http://";
    } else if "https:" <= low {
      scheme, t := "https", s[6..];
      assert "https" + "://" == "https://";
    } else if "http:" <= low {
      scheme, t := "http", s[5..];
      assert "http" + "://" == "http://";
    } else {
      scheme, t := "https", s;
      assert "https" + "://" == "https://";
    }
  }

  /** Main result: a second repair does no more than trim. */
  lemma RepairTwice(raw: string)
    ensures RepairedScheme(RepairedScheme(raw)) == TrimSpace(RepairedScheme(raw))
  {
    var s := TrimSpace(raw);
    if s != "" {
      var scheme, t := PutSchemeShape(DecodeWhole(s));
      WebSchemeChars(scheme);
      Fronts(scheme);
      TrimAfter(scheme + "://", t);
      RepairsSpelled(scheme + "://", scheme, "//", t);
      KeepsWhole(scheme, TrimRight(t));
    }
  }

  // ---- every spelling of the scheme prepares the same URL ----

  /** A prepared URL depends only on what follows "//". */
  lemma NormalizedWeb(scheme: string, t: string)
    requires IsWebScheme(scheme)
    ensures Normalized(Parse(scheme + "://" + t)) == Normalized(ParseWeb("https", t))
  {
    ParseWebUrl(scheme, t);
    var low := ToLower(scheme);
    assert low != "" && "https" != "";
    ParseWebScheme(low, "https", t);
    ParseWebScheme(low, low, t);
    ParseWebScheme("https", "https", t);
  }

  /** What a request text prepares to, given what follows the repaired "//". */
  lemma PreparedAs(raw: string, scheme: string, t: string)
    requires IsWebScheme(scheme) && RepairedScheme(raw) == scheme + "://" + t
    ensures Prepared(raw) == Normalized(ParseWeb("https", t))
  {
    NormalizedWeb(scheme, t);
  }

  lemma HttpsIsWeb()
    ensures IsWebScheme("https") && "https" + "://" == "https://"
    ensures forall scheme | IsWebScheme(scheme) :: IsWebScheme(ToLower(scheme))
  {
    assert ToLower("https") == "https" && ToLower("http") == "http";
  }

  lemma PreparedWhole(scheme: string, t: string)
    requires IsWebScheme(scheme)
    ensures Prepared(scheme + "://" + t) == Normalized(ParseWeb("https", TrimRight(t)))
  {
    Fronts(scheme);
    RepairsSpelled(scheme + "://", scheme, "//", t);
    KeepsWhole(scheme, TrimRight(t));
    PreparedAs(scheme + "://" + t, scheme, TrimRight(t));
  }

  lemma PreparedOneSlash(scheme: string, t: string)
    requires IsWebScheme(scheme) && !StartsWith(TrimRight(t), '/')
    ensures Prepared(scheme + ":/" + t) == Normalized(ParseWeb("https", TrimRight(t)))
  {
    Fronts(scheme);
    HttpsIsWeb();
    RepairsSpelled(scheme + ":/", scheme, "/", t);
    RepairsOneSlash(scheme, TrimRight(t));
    PreparedAs(scheme + ":/" + t, ToLower(scheme), TrimRight(t));
  }

  lemma PreparedNoSlash(scheme: string, t: string)
    requires IsWebScheme(scheme) && !StartsWith(TrimRight(t), '/')
    ensures Prepared(scheme + ":" + t) == Normalized(ParseWeb("https", TrimRight(t)))
  {
    Fronts(scheme);
    HttpsIsWeb();
    RepairsSpelled(scheme + ":", scheme, "", t);
    RepairsNoSlash(scheme, TrimRight(t));
    PreparedAs(scheme + ":" + t, ToLower(scheme), TrimRight(t));
  }

  lemma PreparedBare(t: string)
    requires t != "" && !IsSpace(t[0]) && !SpellsScheme(TrimRight(t))
    ensures Prepared(t) == Normalized(ParseWeb("https", TrimRight(t)))
  {
    HttpsIsWeb();
    RepairsBare(TrimRight(t));
    PreparedAs(t, "https", TrimRight(t));
  }

  /** Main result: collapsed slashes, a missing scheme, "http" for "https" and any
      letter case make no difference to what a request resolves to. */
  lemma SpellingsAgree(scheme: string, t: string, defaults: seq<string>)
    requires IsWebScheme(scheme)
    requires t != "" && !IsSpace(t[0]) && t[0] != '/' && !SpellsScheme(TrimRight(t))
    ensures Resolve(scheme + "://" + t, defaults) == Resolve(t, defaults)
    ensures Resolve(scheme + ":/" + t, defaults) == Resolve(t, defaults)
    ensures Resolve(scheme + ":" + t, defaults) == Resolve(t, defaults)
  {
    PreparedWhole(scheme, t);
    PreparedOneSlash(scheme, t);
    PreparedNoSlash(scheme, t);
    PreparedBare(t);
    SamePrepared(scheme + "://" + t, t, defaults);
    SamePrepared(scheme + ":/" + t, t, defaults);
    SamePrepared(scheme + ":" + t, t, defaults);
  }

  lemma SamePrepared(a: string, b: string, defaults: seq<string>)
    requires Prepared(a) == Prepared(b)
    ensures Resolve(a, defaults) == Resolve(b, defaults)
  {
  }

  // ---- a URL encoded as a whole ----

  /** Main result: however a web URL is percent-encoded as a whole, scheme included, it
      resolves as the URL itself. */
  lemma EncodedAgrees(s: string, scheme: string, t: string, defaults: seq<string>)
    requires TrimSpace(s) == s && LooksEncoded(s) && TrimRight(t) == t
    requires IsWebScheme(scheme) && Unescape(s) == Some(scheme + "://" + t)
    ensures Resolve(s, defaults) == Resolve(scheme + "://" + t, defaults)
  {
    EncodedPrepared(s, scheme, t);
    PreparedWhole(scheme, t);
    SamePrepared(s, scheme + "://" + t, defaults);
  }

  lemma EncodedPrepared(s: string, scheme: string, t: string)
    requires TrimSpace(s) == s && LooksEncoded(s)
    requires IsWebScheme(scheme) && Unescape(s) == Some(scheme + "://" + t)
    ensures Prepared(s) == Normalized(ParseWeb("https", t))
  {
    EncodedDecodes(s, scheme, t);
    NormalizedWeb(scheme, t);
  }

  /** A trimmed encoding that starts with an encoded scheme is decoded exactly. */
  lemma EncodedDecodes(s: string, scheme: string, t: string)
    requires TrimSpace(s) == s && LooksEncoded(s)
    requires IsWebScheme(scheme) && Unescape(s) == Some(scheme + "://" + t)
    ensures RepairedScheme(s) == scheme + "://" + t
  {
    KeepsWhole(scheme, t);
  }

  lemma {:induction false} ComponentClean(s: string)
    ensures forall i :: 0 <= i < |Escape(ComponentMode, s)| ==> !IsSpace(Escape(ComponentMode, s)[i])
  {
    if s == "" {
    } else {
      ComponentClean(s[1..]);
      var e := EscapeChar(ComponentMode, s[0]);
      assert forall i | 0 <= i < |e| :: !IsSpace(e[i]);
    }
  }

  lemma {:induction false} EscapeLetters(s: string)
    requires forall i :: 0 <= i < |s| ==> IsLetter(s[i])
    ensures Escape(ComponentMode, s) == s
  {
    if s == "" {
    } else {
      EscapeLetters(s[1..]);
      assert s == [s[0]] + s[1..];
    }
  }

  lemma EscapeMark(t: string)
    ensures "%3A" <= Escape(ComponentMode, "://" + t)
  {
    var s := "://" + t;
    assert s[0] == ':' && (':' as int) == 58;
    assert EscapeChar(ComponentMode, ':') == "%3A";
  }

  /** Main result: any web URL sent percent-encoded as a whole comes out as it was. */
  lemma EncodeRepair(scheme: string, t: string)
    requires IsWebScheme(scheme)
    ensures RepairedScheme(Escape(ComponentMode, scheme + "://" + t)) == scheme + "://" + t
  {
    WebSchemeChars(scheme);
    var x := scheme + "://" + t;
    var e := Escape(ComponentMode, x);
    UnescapeEscape(ComponentMode, x);
    ComponentClean(x);
    Assoc(scheme, "://", t);
    EscapeConcat(ComponentMode, scheme, "://" + t);
    EscapeLetters(scheme);
    EscapeMark(t);
    var tail := Escape(ComponentMode, "://" + t);
    EncodedScheme(scheme, tail);
    EncodedDecodes(e, scheme, t);
  }

  lemma EncodedScheme(scheme: string, tail: string)
    requires IsWebScheme(scheme) && "%3A" <= tail
    ensures LooksEncoded(scheme + tail)
  {
    ToLowerConcat(scheme, tail);
    assert tail[..3] == "%3A";
    var low := ToLower(tail);
    assert low[..3] == "%3a";
    assert ToLower(scheme) + low == ToLower(scheme) + "%3a" + low[3..];
    assert "http" + "%3a" == "http%3a" && "https" + "%3a" == "https%3a";
  }
}
