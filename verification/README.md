# A model of the GitHub proxy

These files model one request's life in a GitHub accelerator proxy, and prove what the
program promises about it: the request target is cut down to an embedded URL, the token
is checked, the URL is recognised as one of a few GitHub path shapes, the request is sent
upstream and redirects are followed, the answer is handed back, and the outcome is
counted for the status page.

| file | models |
|---|---|
| `Text.dfy` | the string operations the program uses: cut, split, replace, trim, case |
| `NetUrl.dfy` | the part of `net/url` the program relies on (sections 2.1 and 3.1-3.4 of RFC 3986) |
| `GhUrl.dfy` | `internal/ghurl/ghurl.go`: functions, and the same in place on a class `URL` |
| `PathShapes.dfy` | path shapes and the blob rewrite, seen as segments |
| `SchemeRepair.dfy` | laws of scheme repair |
| `HostMeaning.dfy` | what an accepted target can be |
| `NamesKept.dfy` | the names the access lists judge, against the path that is forwarded |
| `DotSegments.dfy` | what dot segments do to those names |
| `ShortForm.dfy` | targets without a host, and the defaults |
| `Queries.dfy` | the query from a request to its target |
| `Rules.dfy` | `internal/ghurl/rule.go` |
| `Auth.dfy` | `internal/auth/auth.go`, and `selfBase` |
| `Redirects.dfy` | `internal/proxy/redirect.go` |
| `Forwarding.dfy` | `rewrite`, `modifyResponse`, `redirectOversized` of `internal/proxy/proxy.go` |
| `Journeys.dfy` | from the text of a request to the last hop of its redirects |
| `Ranking.dfy`, `EventLog.dfy`, `Collector.dfy` | `internal/metrics/metrics.go` |
| `Server.dfy` | `internal/server/server.go` |
| `Admission.dfy` | who and what the pipeline lets through, said of the request |
| `Schedules.dfy` | any interleaving of requests through the pipeline |
| `GhCli.dfy` | `internal/ghcli/ghcli.go` |
| `Deviations.dfy` | inputs at the edge of the conditions below, and inputs the laws apply to |

Code that changes state is modelled by classes and methods that change the same fields;
each method is proved equal to a function of its inputs or old state, and the laws are
proved about that function. What a definition decides (who is let in, which host is
followed, which field is sent, which name comes first) is also stated once without it, by
a lemma, mostly one whose name ends in `Exactly` or `Is`.

## How the parts fit

* **Collector.** A ghost log holds every finished request in the order of the lock. The
  counters, the ring, the minute wheel and the repository table are proved to be
  functions of that log (`Metrics.Valid`). The clock is read before the lock, so
  timestamps are arbitrary arguments.
* **Redirects.** The upstream is an arbitrary function of the requests sent so far. The
  contract of `RoundTrip` ties the whole trace (requests, drained and closed bodies) to
  that function, and the safety properties are lemmas about any such trace.
* **URLs.** `Resolve` is `ParseWithDefaults`. As in the program, `match` makes the host
  canonical even where no path shape fits, and the later host test reads that host.
* **Pipeline.** `Decide` is the decision on a request; the handler writes it to the
  client and into the recorder.

## Where the code and its documentation part

The model follows the code. Each entry names the exact condition and an input.

* A `/raw/` path is rewritten when it holds a later `/blob/`
  (`PathShapes.UntouchedWithoutBlob`; `Deviations.RawPathRewritten`).
* A blob's owner or repository named `blob` is itself rewritten, so that the access lists
  judge one name and another is requested (`NamesKept.NamesKeptExactly`;
  `Deviations.BlobOwnerBecomesRaw`).
* Dot segments are kept, so that the path may name another repository once a server
  removes them (`DotSegments.NamesSurviveExactly`; `Deviations.ClimbsOut`).
* Over the size limit the client is sent to the last URL of the chain, which is the one it
  supplied only where no redirect was followed, or where the last one led back to it
  (`Journeys.OversizedLocation`; `Journeys.OversizedShowsSignature`).
* A minute is shown with its true totals exactly when no event of another minute has
  taken over its slot; an event an hour or more late does so where it shares the slot of
  a minute already counted (`EventLog.ExactUnlessDisplaced`; `EventLog.LateEventDisplaces`).
* A clock before the epoch can index the wheel out of range; the panic leaves the other
  counters updated (`Collector.Metrics.Finish`; `EventLog.BeforeTheEpoch`).
* The counting writer records an informational status when one is written first
  (`Server.RecordedIsClientStatus`; `Server.EarlyHintsRecorded`).
* A redirect to `http` on the same host keeps the credential, although targets are always
  made `https` (`Redirects.CredentialByTls`; `Journeys.CredentialWithoutTls`).
* Without the length rule for tokens a token spelled like a scheme would be consumed from
  a followed redirect (`Auth.HeaderFollowUp`; `Auth.SchemeTokenEaten`).
* A single-label name such as `localhost` is an owner name, not a host
  (`ShortForm.OwnerNamesNoHost`).

## Model

| member | source | states |
|---|---|---|
| `EventLog.Conservation` | internal/metrics/metrics.go:139-161 | for every log, total = proxied + denied + preflight = sum of the status map, and denied = sum of the reasons map |
| `EventLog.TallyCounts` | internal/metrics/metrics.go:142-161 | a counter map kept entry by entry holds exactly the names that occur, each with its full count |
| `EventLog.StatusClassIs` | internal/metrics/metrics.go:337-352 | each class is told by its range of a hundred, and "other" is all outside 100 to 599 |
| `EventLog.AverageBelowMax` | internal/metrics/metrics.go:153-157 | the shown average never exceeds the shown maximum |
| `EventLog.RebuiltClose` | internal/status/status.go:148 | for every log with durations that are not negative, the duration sum rebuilt from the truncated average is at most the true sum and less than 1 µs a request below it |
| `EventLog.RepoTableExact` | internal/metrics/metrics.go:163-167 | after any log the table is the true count map of the first 1000 distinct names, so it holds min(1000, names) entries |
| `EventLog.AdmittedStep` | internal/metrics/metrics.go:163-167 | a new name is admitted exactly when it is non-empty, unseen and among the first 1000; below the cap all names are admitted |
| `EventLog.NeverTooMuch` | internal/metrics/metrics.go:181-187 | whatever the order of timestamps, a shown bucket never exceeds the true total of its minute |
| `EventLog.ExactUnlessDisplaced` | internal/metrics/metrics.go:181-187 | a shown bucket is the true total if and only if no later event of another minute took over its slot |
| `EventLog.LateEventDisplaces` | internal/metrics/metrics.go:181-187 | an event at 0 after one at 3600: minute 60 counts one request and is shown as empty |
| `EventLog.BeforeTheEpoch` | internal/metrics/metrics.go:181-182 | a clock of -61 seconds falls on slot -1 |
| `EventLog.HistoryExact` | internal/metrics/metrics.go:300-312 | if no event lags an earlier one by an hour, all 60 buckets at or past the latest minute are the true totals |
| `EventLog.HistoryExactOrEmpty` | internal/metrics/metrics.go:300-312 | under the same condition, for an earlier clock each bucket is the true total or empty |
| `EventLog.RingHolds` | internal/metrics/metrics.go:169-179 | the ring still holds each of the last 25 events in the slot of its number |
| `EventLog.TotalsAgree` | internal/metrics/metrics.go:139-157 | the plain counters after any run are the sums and counts of the log |
| `EventLog.MapAgrees` | internal/metrics/metrics.go:142-161 | the status, reason and kind maps after any run are the tallies of the log |
| `EventLog.WheelAgrees` | internal/metrics/metrics.go:181-187 | every slot of the wheel after any run is the slot function of the log, on which the chart theorems rest |
| `EventLog.RingAgrees` | internal/metrics/metrics.go:169-179 | every slot of the ring after any run is the last event whose number falls on it |
| `Collector.Metrics.Start` | internal/metrics/metrics.go:89-97 | one more started and open; the log and every view unchanged |
| `Collector.Metrics.Finish` | internal/metrics/metrics.go:127-188 | the log grows by exactly one entry, said of the arguments (clock, method, kind, repository, status, reason, clamped bytes, duration and its whole microseconds); every counter and view stays the function of the log, the gauge falls; it panics exactly on a negative wheel index |
| `Collector.Metrics.AddToTotals` | internal/metrics/metrics.go:139-157 | the counters change to those of the log with one more entry |
| `Collector.Metrics.AddToMaps` | internal/metrics/metrics.go:142-167 | the four maps change to those of the log with one more entry |
| `Collector.Metrics.AddToViews` | internal/metrics/metrics.go:169-187 | ring and wheel change in place to those of the log with one more entry |
| `Collector.Metrics.TakeSnapshot` | internal/metrics/metrics.go:243-282 | every number, list and chart of a snapshot is the stated function of the log, whatever order the maps are walked in; reasons, kinds and repositories come in descending count and then by name, status classes by name |
| `Collector.Metrics.RecentEvents` | internal/metrics/metrics.go:285-295 | the reverse of the last min(total, 25) events |
| `Collector.Metrics.HistoryFrom` | internal/metrics/metrics.go:300-312 | sixty buckets, oldest first, each what the log shows for its minute, for any clock and with Go's signed remainder |
| `Collector.Metrics.SortedPairs` | internal/metrics/metrics.go:314-335 | the list equals the sorted form of every enumeration of the map |
| `Collector.SnapshotConserves` | internal/metrics/metrics.go:243-272 | in one snapshot: started = total + in flight, total = proxied + denied + preflight = sum of status, denied = sum of reasons, bytes = sum of event bytes, average at most maximum, at most 25 events, 60 buckets, and ten of at most 1000 repositories |
| `Collector.SnapshotOrdered` | internal/metrics/metrics.go:322-335 | in the lists of every snapshot the earlier of two entries has more requests, or as many and a name with the smaller character at the first difference; status classes go by name alone |
| `Schedules.SnapshotKinds` | internal/metrics/metrics.go:146-162 | in a snapshot of a log the pipeline wrote, the kinds shown add up to proxied + preflight |
| `Collector.TopReposExact` | internal/metrics/metrics.go:274-280 | each repository shown has its full count in the log and is among the first 1000 |
| `Collector.ChartExact` | internal/metrics/metrics.go:247-272 | within the hour the whole chart of a snapshot is true |
| `Ranking.OrderIndependent` | internal/metrics/metrics.go:314-335 | sorting any two enumerations of one map gives one list |
| `Ranking.TopTen` | internal/metrics/metrics.go:274-280 | the truncated list has min(10, size) entries of the map; the earlier of two has more requests, or as many and a name that comes first; and so stands each against all that is left out |
| `Ranking.StringLessIs` | internal/metrics/metrics.go:322-335 | a name comes first exactly when at the first difference it ends or has the smaller character |
| `Ranking.SortedUnique` | internal/metrics/metrics.go:322-335 | a multiset has only one sequence in (count descending, name ascending) or name order |
| `Ranking.Pairs` | internal/metrics/metrics.go:314-320 | the walk yields each entry of the map once, in any order |
| `Ranking.SortInPlace` | internal/metrics/metrics.go:322-335 | the array ends as the sorted form of what it held |
| `Redirects.RoundTrip` | internal/proxy/redirect.go:25-67 | at most max+1 calls; each further one is a permitted redirect of the one before; why it stopped, for a refused redirect in terms of its Location; what GET or HEAD gets is no redirect, or lacks a usable Location, or is response max+1; every body but the returned one is drained and closed once, none left open on error; a method other than GET and HEAD makes one call |
| `Redirects.Follow` | internal/proxy/redirect.go:39-66 | the loop keeps the trace a chain and ends it for a stated reason |
| `Redirects.HopsDisciplined` | internal/proxy/redirect.go:53-82 | every call after the first goes to an http or https URL whose lower-cased hostname is listed as true, same method, no body, same header but for the credential |
| `Redirects.RedirectExactly` | internal/proxy/redirect.go:39-63 | within the bound a redirected GET or HEAD ends in the error for a scheme exactly when the Location has a foreign one, in the error for a host exactly when its hostname is absent or false, and does not end otherwise |
| `Redirects.FollowedExactly` | internal/proxy/redirect.go:39-63 | each further request goes to the URL that a response with one of the five codes led to, on a listed host |
| `Redirects.CredentialDiscipline` | internal/proxy/redirect.go:75-81 | hop k carries Authorization if and only if the first did and hops 0..k all have the first host up to case; it is then the same value |
| `Redirects.CredentialByTls` | internal/proxy/redirect.go:49-81 | every hop that carries the credential is https if and only if every hop made while still on the first host is |
| `Redirects.ChainDetermined` | internal/proxy/redirect.go:25-67 | two chains from one request over one upstream agree as far as both go |
| `Forwarding.Outgoing.Rewrite` | internal/proxy/proxy.go:141-168 | only URL, host and header change; of the client's fields all go out, unchanged, but Authorization, Cookie, X-Proxy-Token, X-Real-Ip, Forwarded, Referer and the canonical X-Forwarded-* ones; Authorization goes out exactly when the proxy has a credential, and is that |
| `Forwarding.Outgoing.DeleteForwarded` | internal/proxy/proxy.go:157-161 | whatever order the header is walked in, exactly the canonical names of X-Forwarded-* fields go |
| `Forwarding.ForwardedStripped` | internal/proxy/proxy.go:157-161 | a field that starts with x-forwarded- in any case is stripped if and only if its name is in canonical form |
| `Forwarding.CanonicalExactly` | internal/proxy/proxy.go:157-161 | a legal name is canonical if and only if it has no small letter at the start or after a hyphen and no capital elsewhere |
| `Forwarding.LowerCaseSurvives` | internal/proxy/proxy.go:157-161 | a field stored as x-forwarded-for goes out |
| `Forwarding.OnlyOwnCredential` | internal/proxy/proxy.go:149-167 | for every field by name, whether it goes out and with what value |
| `Forwarding.ChainCarriesNothing` | internal/proxy/proxy.go:149-167 | on no hop of a redirect chain is there a Cookie, X-Proxy-Token, X-Real-Ip, Forwarded or Referer field or a canonical X-Forwarded-* one; the credential is the proxy's, up to the first change of host; the rest is the client's |
| `Journeys.NoClientCredential` | internal/auth/auth.go:43-97 | whoever checks the header of a hop for a client's credential finds only what the proxy put there |
| `Journeys.TokenStaysOnGitHub` | internal/proxy/redirect.go:69-83 | for every text, defaults and upstream, the only credential on any hop is the proxy's own, and a hop that carries it goes to the target's own host, one of the five canonical ones |
| `Journeys.CredentialWithoutTls` | internal/proxy/redirect.go:49-81 | a chain of two requests, the second to http on the same host with the credential |
| `Forwarding.Incoming.Modify` | internal/proxy/proxy.go:177-234 | over the size limit the answer is a 302 with three fields and a closed body; within it the client gets all fields but Set-Cookie, the two policies and Clear-Site-Data, with the marks that are added and the Location as stated |
| `GhUrl.ParseWithDefaults` | internal/ghurl/ghurl.go:74-100 | the in-place code with its early returns finds the target of `Resolve`, about which the laws below are proved |
| `GhUrl.TryDefaults` | internal/ghurl/ghurl.go:90-99 | the loop yields the target of the first default that takes the path |
| `GhUrl.Prepare` | internal/ghurl/ghurl.go:105-119 | a fresh URL, https and without user, or null exactly when the text cannot be one |
| `GhUrl.Match` | internal/ghurl/ghurl.go:121-146 | the URL is changed in place as `Matched` says: the host made canonical even where no shape fits |
| `GhUrl.RewriteBlobToRaw` | internal/ghurl/ghurl.go:332-343 | the fields of the URL end as those of `BlobToRaw` |
| `GhUrl.RepairScheme` | internal/ghurl/ghurl.go:352-376 | decoding, trimming and the switch give `RepairedScheme` |
| `PathShapes.ShapeBySegments` | internal/ghurl/ghurl.go:225-328 | a path is accepted as a kind if and only if its list of segments has the shape, and what is captured are whole segments |
| `PathShapes.ReplaceBySegments` | internal/ghurl/ghurl.go:332-338 | replacing the text "/x/" replaces exactly the first inner segment x |
| `PathShapes.BlobRewrite` | internal/ghurl/ghurl.go:332-343 | the rewrite changes exactly the first escaped segment "blob" that is followed by a slash; the rest stays byte for byte, and no other field changes |
| `PathShapes.RewritesTheThird` | internal/ghurl/ghurl.go:140-144 | of a matched URL, the third escaped segment, where a slash follows it, is the one rewritten, with owner and repository kept, if and only if it is spelled "blob" and neither name is |
| `PathShapes.UntouchedWithoutBlob` | internal/ghurl/ghurl.go:332-343 | the URL stays as it is if and only if its escaped path holds no "/blob/" |
| `PathShapes.RewriteKeepsNames` | internal/ghurl/ghurl.go:140-144 | the rewritten path still matches as the same owner and repository if and only if at least three decoded segments stand before the rewritten one |
| `NamesKept.NamesKeptExactly` | internal/ghurl/ghurl.go:121-146 | for every text and defaults, the path of an accepted target names its owner and repository, under its kind, if and only if it was not matched as a blob with an early "/blob/" |
| `NamesKept.AcceptedNames` | internal/ghurl/ghurl.go:121-146 | so the forwarded path as it is spelled names what was judged, unless a blob's owner or repository is called "blob" |
| `DotSegments.NamesSurviveExactly` | internal/ghurl/ghurl.go:225-343 | for every accepted target the names survive the removal of dot segments if and only if the segment after the path was last at the root is the owner and, but for gists, the one after it was last one deep is the repository |
| `DotSegments.BelowSurvives` | internal/ghurl/ghurl.go:225-343 | names that the path keeps survive where it never climbs back to them |
| `Deviations.ClimbsOut` | internal/ghurl/ghurl.go:225-343 | https://github.com/o/r/blob/../../../c/d/f is accepted for o/r, and without dot segments its path is c/d/f |
| `Deviations.BlobOwnerBecomesRaw` | internal/ghurl/ghurl.go:140-144 | https://github.com/blob/r/blob/f is accepted as owner blob and forwarded to owner raw |
| `Deviations.RawPathRewritten` | internal/ghurl/ghurl.go:246-249 | https://github.com/o/r/raw/blob/y is forwarded as /o/r/raw/raw/y |
| `SchemeRepair.RepairTwice` | internal/ghurl/ghurl.go:352-376 | a second repair does no more than trim, for every text |
| `SchemeRepair.SpellingsAgree` | internal/ghurl/ghurl.go:345-376 | for a text that is not blank, starts with no space or slash and spells no scheme itself: with "https://", "https:/", "https:", the http forms, any letter case, and no scheme at all it resolves alike, with any defaults |
| `SchemeRepair.EncodedAgrees` | internal/ghurl/ghurl.go:357-361 | any percent-encoding of a whole web URL, scheme included, resolves as that URL, where neither has space around it |
| `SchemeRepair.EncodeRepair` | internal/ghurl/ghurl.go:357-361 | the standard encoding of any web URL is repaired to exactly that URL |
| `HostMeaning.AcceptedForwardable` | internal/ghurl/ghurl.go:105-162 | every accepted target is https, without user, on one of the five canonical hosts, of a kind of that host, with a non-empty owner, a repository for all kinds but gists, and no slash in either |
| `HostMeaning.NamedHostKept` | internal/ghurl/ghurl.go:82-99 | of every text: on one of the six hosts, by name, it resolves to that host's canonical form or not at all, whatever the defaults; any other host with a dot or a colon is rejected; and only one with neither is left to the defaults |
| `HostMeaning.MatchedExactly` | internal/ghurl/ghurl.go:121-162 | a URL is accepted as a kind, with two names, if and only if it is on one of the six hosts, the host serves the kind, and the segments of its path have the shape |
| `HostMeaning.HostTable` | internal/ghurl/ghurl.go:151-162 | the six hosts, what they become, and which kinds each serves |
| `Deviations.GitLabRejected` | internal/ghurl/ghurl.go:82-89 | https://gitlab.com/o/blob/x is rejected, whatever the defaults |
| `HostMeaning.DefaultsOnlyAdd` | internal/ghurl/ghurl.go:72-99 | with further defaults a text resolves as before if it did, and otherwise as with the further ones alone |
| `ShortForm.LeastDefaultWins` | internal/ghurl/ghurl.go:90-99 | a target whose host is none of the six and has no dot or colon resolves to exactly what the first default whose shapes take its path makes of it, on that host, and is rejected if and only if none does |
| `ShortForm.OwnerNamesNoHost` | internal/ghurl/ghurl.go:171-184 | a name of letters, digits and hyphens never names a host |
| `ShortForm.ShortEqualsLong` | internal/ghurl/ghurl.go:66-99 | with one default host, the short form is accepted if and only if the full URL on that host is, with the same kind, owner, repository, path, escaped path and query |
| `Queries.QueryArrives` | internal/ghurl/ghurl.go:186-199 | a URL without fragment that is accepted, on its own host or on a default one, is forwarded with exactly the query it was given |
| `NetUrl.UnescapeEscape` | internal/ghurl/ghurl.go:191-199 | percent-encoding is undone by decoding, in every mode |
| `NetUrl.SetPathEscaped` | internal/ghurl/ghurl.go:330-343 | after setting a path, the escaped path is that text where validly encoded, and always decodes to the same |
| `Rules.ParseRules` | internal/ghurl/rule.go:61-81 | the nested loops with early error return parse the text as `ParseText` does |
| `Rules.RuleSetString` | internal/ghurl/rule.go:51-57 | the filled array joined is the printed list |
| `Rules.AcceptedSpellable` | internal/ghurl/rule.go:61-81 | every parsed rule has a non-empty owner and neither half holds a separator, '#', newline or slash |
| `Rules.PrintParse` | internal/ghurl/rule.go:19-24 | parsing a printed list gives the list back if and only if every rule can be spelled |
| `Rules.ParsePrintParse` | internal/ghurl/rule.go:51-81 | for every accepted text the printed rules read back as themselves |
| `Rules.ParseConcat` | internal/ghurl/rule.go:61-81 | two texts on lines of their own parse to the two lists in a row, and fail when either fails |
| `Rules.RuleSetMatch` | internal/ghurl/rule.go:27-48 | the loop finds a covering rule if and only if there is one |
| `Rules.ReprintedCoversSame` | internal/ghurl/rule.go:27-57 | a printed and re-read list covers the same pairs, in any letter case |
| `Rules.TextsCover` | internal/ghurl/rule.go:27-35 | which owners and repositories the texts of the three forms of a rule cover, letter by letter |
| `Rules.CommentIgnored` | internal/ghurl/rule.go:63-66 | a text cut at a comment mark parses as what stands before it |
| `Rules.SeparatorParts` | internal/ghurl/rule.go:67-69 | comma, space, tab and carriage return each part two rules |
| `Auth.LetInExactly` | internal/auth/auth.go:43-113 | a request is let in if and only if the proxy is open, or the non-empty token is its first path segment or the decoding of it, its X-Proxy-Token, the text of a bearer or token credential in any case, or either half of a decoded basic one; only a token in the path is taken off |
| `Admission.DeniedExactly` | internal/server/server.go:106-131 | what is not denied brings the token or the proxy is open, and of requests with a served method under the prefix exactly those that do not are denied for that reason |
| `Admission.WrongBearerDenied` | internal/auth/auth.go:84-85 | a bearer value that is not the token is denied |
| `Auth.SelfBaseFixpoint` | internal/server/server.go:208-214 | for every authenticated request base and remainder make up the target, and a web URL behind that base authenticates, comes out whole and has the same base, for path, encoded path, header and no authentication |
| `Auth.HeaderFollowUp` | internal/auth/auth.go:43-71 | with the token in a header, a web URL comes out whole if and only if the token is not its scheme with the colon |
| `Auth.WebIsNoToken` | internal/config/config.go:135-138 | the start-up rules on tokens rule that out for every web URL |
| `Auth.SchemeTokenEaten` | internal/auth/auth.go:57-71 | without them a token spelled like a scheme is consumed |
| `Server.DecisionNamed` | internal/server/server.go:106-155 | what is not denied is an accepted target that both lists allow under names that are those of the forwarded path, unless a blob's owner or repository is called "blob"; only OPTIONS skips the proxy; a denial has a reason |
| `Admission.ServedExactly` | internal/server/server.go:107-112 | exactly GET, HEAD, POST and OPTIONS are served |
| `Admission.ListsExactly` | internal/server/server.go:142-154 | a target is let through if and only if the allow list is empty or names it, letter by letter, and the deny list does not; OPTIONS is then answered without the proxy |
| `Admission.RecordedName` | internal/server/server.go:157-165 | the recorded name has the owner as its only segment for a gist, and else the owner and the repository |
| `Admission.PageExactly` | internal/server/server.go:182-196 | the status page is for everyone where it or the proxy is open, and else for those with the token in a header or in the query |
| `Admission.StatusPathExactly` | internal/server/server.go:167-172 | only the configured path and what a slash separates from it |
| `Server.FollowUpDecision` | internal/server/server.go:123-154 | a client that follows a redirect through `selfBase` is authenticated again and judged on exactly the URL behind it |
| `Server.RelayedFollowUp` | internal/proxy/proxy.go:177-234 | of whatever the upstream answers, a redirect within the size limit leaves with a Location that, requested in the same way, is judged on exactly the URL the upstream redirected to; over the limit the client is sent to the upstream URL itself |
| `Journeys.OversizedLocation` | internal/proxy/proxy.go:205-234 | over the size limit the Location is the text of the last URL of the chain, and that of the URL asked for if and only if no redirect was followed or the last one led to a URL of the same text |
| `Journeys.OversizedShowsSignature` | internal/proxy/proxy.go:205-234 | after one followed redirect to a signed URL, an answer over the limit hands that URL to the client |
| `Server.RecordedIsClientStatus` | internal/server/server.go:244-263 | the recorded status is the one the client sees if and only if nothing informational is written first |
| `Server.EarlyHintsRecorded` | internal/server/server.go:244-263 | after 103 and 200 the record says 103 and the client sees 200 |
| `Server.KindsAddUp` | internal/metrics/metrics.go:146-162 | in every run of the pipeline the kinds add up to proxied + preflight, and so do the named repositories before the cap |
| `Server.ReportedShape` | internal/server/server.go:90-155 | an entry that reports a decision counts under that decision's outcome only |
| `Server.Handler.DenyRequest` | internal/server/server.go:231-239 | a 404 and its text, the reason recorded, kind and repository untouched |
| `Server.Handler.Authenticate` | internal/server/server.go:114-131 | the three checks yield the remainder or the reason of `Authenticated`; a remainder only where the request brings the token or needs none |
| `Server.Handler.Serve` | internal/server/server.go:106-155 | exactly one decision is written to the client, as a 404 with its text or a 204 where the proxy is not called, and into the recorder; the proxy is called once for a forward and never for a denial |
| `Server.Handler.ServeHTTP` | internal/server/server.go:90-104 | a request off the status path is started once, leaves the gauge as it was, and adds exactly one entry, with its decision and the status and bytes written; one on it adds nothing and gets the page or the same 404 |
| `Schedules.Step` | internal/server/server.go:90-155 | an arrival off the status path adds one pending request with its decision, starts one recording and hands over a forward; one on the status path is answered and changes nothing else; a finish moves one pending request into the log as an entry that reports its decision; any other finish changes nothing |
| `Schedules.EachOnce` | internal/server/server.go:98-104 | over any sequence of arrivals, status requests and finishes, the decisions on finished and on pending requests are together exactly those on the arrivals off the status path |
| `Schedules.RunSchedule` | internal/server/server.go:90-104 | in every interleaving the log reports, entry by entry, the decisions on the finished requests of the schedule; the others that arrived off the status path are pending and make up the gauge; as many were started; the proxy was given exactly the forwards among them, in order of arrival; the kinds add up; and requests on the status path got the page or the 404 and left no other trace |
| `GhCli.Clean` | internal/ghcli/ghcli.go:262-271 | succeeds if and only if the trimmed text is non-empty printable ASCII, and yields that |
| `GhCli.FromHostsFile` | internal/ghcli/ghcli.go:228-257 | one pass over the lines with a flag finds the declarative meaning of the file |
| `GhCli.LineAt` | internal/ghcli/ghcli.go:231-253 | the tests on the text of a line, in the order of the scan, tell silent lines, headers, token lines and others apart |
| `GhCli.FirstTokenLine` | internal/ghcli/ghcli.go:228-257 | that meaning is the first token line whose nearest header above names the host; without one there is an error |
| `GhCli.FileText` | internal/ghcli/ghcli.go:228-257 | a line with the host's name and a colon and under it an indented oauth_token in quotes give the text between the quotes; with another key they give nothing |
| `GhCli.OtherBlocksIgnored` | internal/ghcli/ghcli.go:228-257 | whole blocks of other hosts put in at a block boundary change nothing |
| `GhCli.Source.Load` | internal/ghcli/ghcli.go:105-115 | on success the credential is what was fetched, usable; on failure it is unchanged |
| `GhCli.Source.Refresh` | internal/ghcli/ghcli.go:125-157 | after any run of ticks the credential is the last that was fetched, and the changes logged are the true ones |
| `GhCli.Source.Tick` | internal/ghcli/ghcli.go:135-145 | a failed attempt keeps the credential; a successful one replaces it and reports whether it differs |
| `GhCli.LastGoodIs` | internal/ghcli/ghcli.go:131-147 | it is that of the attempt that succeeded last, or the one loaded if all failed |
| `GhCli.StaysUsable` | internal/ghcli/ghcli.go:136-141 | a credential that was usable stays usable over any run of refreshes |

## Left out

- Sockets, TLS, the reverse proxy's copying, flushing, signals and shutdown: no invariant visible in this code.
- Reference resolution (section 5.2 of RFC 3986) and `URL.String`: arbitrary functions.
- `net/url`: addresses in brackets are parsed without zones; fragments are kept undecoded; relative references other than paths are not parsed.
- Characters: letter case and white space are ASCII, and one character stands for one byte; characters beyond a byte are never percent-encoded.
- Base64 decoding is an arbitrary partial function, and constant-time comparison is equality.
- Counters are unbounded naturals, so wrap-around of counters and of the ring's index does not occur.
- Latencies are whole nanoseconds and microseconds; the floating-point form shown on the page is not modelled.
- `sort.Slice` is modelled as an insertion sort in place; the result does not depend on the algorithm.
- The mutex is modelled by atomic methods; a run is any sequence of them.
- Durations are taken not to be negative where `EventLog.RebuiltClose` needs it, as they are differences of monotonic readings.
- Long functions are split into methods: `RoundTrip` at its loop and at the checks in it, `Finish` and `Snapshot` by group of fields, `serve` after authentication and after parsing, `ServeHTTP` at its deferred call.
- The scanner of hosts.yml gets the text of its lines as a sequence; reading them from the file is not modelled.
- A base transport serves one chain at a time; the context that carries target and base is a parameter.
- Header names arrive in canonical form from the server's own parser; `Forwarding.ForwardedStripped` says what becomes of others.
- Header fields set on denials and preflight answers; log lines; the gh binary's environment and timeout.
- The status page, its JSON and Prometheus forms; a page is an arbitrary sequence of writes.
- Configuration loading: only the token rules are used, as `Auth.Configured`; that default hosts are known is a condition of the laws that need it.
- ShortForm.ShortEqualsLong: for owners of letters, digits and hyphens and without a fragment, because other names can spell a host or be re-encoded on the way.
- Dot segments are looked for in the decoded path, on which the program judges names; what a server removes is not part of this model.
- PathShapes.RewriteKeepsNames: about URLs that hold "/blob/"; the others are not changed at all.
