# Starlogz: a verified model

Starlogz keeps versioned insights in PostgreSQL and issues OAuth tokens for the tools that read
and write them. This project models the parts of it that have to be right under concurrency, with
proofs that they are, for the Dafny verifier (4.11). `dafny verify dfyconfig.toml` checks it all.

The modules, by what they are about:

- **Insights.** `InsightLog` says what the store means: for each insight, an append-only history of
  snapshots, and which calls extend it. `InsightStore` is the store itself, three tables (rows,
  revisions, link index) changed statement by statement, with other transactions committing in
  between; each operation is proved to be one step of the log, the tables agreeing with the log and
  the link index with a recomputation from the content. `Keyset` is keyset pagination over tables
  that change between pages, and `InsightReads` brings the two together.
- **Refresh tokens.** `GrantStore` holds the transactions on grants, retired tokens and revocations;
  `RefreshGrant` the handlers, cut where they wait; `RefreshProtocol` any number of requests, logins,
  logouts and operator revocations interleaved at every transaction; `RefreshTrace` where each grant's
  contents come from, and what each request and answer leads to.
- **Authorization codes.** `Scopes`, `AuthState` and `AuthFlow` are the scope rules, the single-use
  tables and the handlers; `AuthProtocol` interleaves authorizations, callbacks, confirmations and
  token requests, and follows each access token back to where it came from (sections 4.1.2 and 4.1.3
  of RFC 6749, section 4.6 of RFC 7636); `AuthTrace` adds what GitHub had answered.
- **Cursors.** `Utf8`, `Json` and `Canonical` build the bytes that `Filters` proves injective across
  list, history and search; `Cursor` writes and reads the opaque cursors themselves.
- **The rest.** `LinkScanner` (insight links in Markdown), `Telemetry` over `Aggregates` (the
  operations snapshot), `Migrations` (runs that fail at any statement), `WebSession` (idle and
  absolute expiry), `RedirectQuery` (the response appended to a redirect URI; section 2 of RFC 9207),
  `Privacy` (the log filter) and `Calendar` (the activity grid).

Code that changes state step by step is a class here, with methods proved against a function of the
old state or against the log; the theorems are about those functions and about whole runs. What each
main operation stores, shows or answers is also said outright, in terms of its request and the
history, not of the functions it is computed with. Time is an
integer count of nanoseconds shared by application and database, which reads and keeps whole
microseconds (`Clock`); tokens and ids are fresh values, and what another system answers is any value
at all.

Things the proofs bring out, which a reader of the source may not expect:

- A grace retry works only while the *immediate* successor is live and unexpired, which need not
  last as long as the grace period: rotating the successor in turn ends it (`GraceRetryIsExact`).
  Configured to be as long as grace, retention is too short by one instant (`GraceIsRetained`).
- GitHub's new tokens are lost, and the spent one stays in the row, if after a refresh the user
  cannot be read from GitHub or stored here (`SpentTokenStaysExactly`). The client is told of a server
  error, and its next attempt presents the spent token.
- A request whose GitHub call fails cannot hurt a rotation that has already committed
  (`LoserCannotDeleteWinner`). If its teardown commits first, the other request finds the grant gone
  and fails too (`RotationSucceedsExactly`).
- The schema check compares two numbers. It is exact when releases only add higher versions
  (`CheckIsExact`). Otherwise it passes with a migration missing exactly if the release adds a lower
  version while its last one is already recorded (`CheckMissesExactly`, `LowerVersionGoesUnnoticed`).
- Redirect URIs of a metadata client are compared as decoded, so an escaped slash matches a plain
  one (`EscapedSlashMatches`); which differences are tolerated is `RedirectMeaning`.
- A listing that is read page by page while others write is complete after a bounded number of
  pages although a transaction's stamp is the time it began, so that changes can still turn up below
  the cursor: one insight per transaction committed meanwhile at most (`EveryUnmodifiedIsListed`).
- Where no clients are registered or resolved, a client_id over 2048 bytes gets through the whole
  flow, and then costs its user the code (`IssuedExactly`).
- The hour between touches shortens the idle lifetime a session can count on by exactly an hour
  (`VisitedSessionSurvives`, `OneNanosecondMoreIsTooMuch`).
- Cursors carry microseconds: a time that is not a whole number of them comes back cut down
  (`RoundTrip`).

## Model

| member | source | states |
|---|---|---|
| InsightLog.RunIsGood | internal/store/postgres/store.go:2107-2298 | after any interleaving of creates, keyed writes, updates, deletes and restores every history runs gap-free from revision 1, keeps one key, starts with a create, and no two live insights of a project share a key |
| InsightLog.CommitKeepsGood | internal/store/postgres/store.go:1335-1367 | the same for one committed or refused mutation of any kind |
| InsightLog.CommitTouchesOne | internal/store/postgres/store.go:1471-1564 | a mutation appends at most one snapshot to at most one insight, extends nothing else, and a refused one changes nothing |
| InsightLog.RunOnlyExtends | internal/store/postgres/store.go:1548-1564 | over a whole run histories are only ever extended |
| InsightLog.RevisionsAreImmutable | internal/store/postgres/store.go:1548-1564 | a committed revision reads the same for ever, under the key the insight has always had |
| InsightLog.KeyNeverChanges | internal/store/postgres/store.go:1471-1512 | every snapshot of a history carries the key of the first |
| InsightLog.PreconditionHonoured | internal/store/postgres/store.go:1566-1571 | a mutation naming revision r succeeds only at r and ends at r (nothing changed) or r + 1; r = 0 only by creating the insight |
| InsightLog.NoLostUpdate | internal/store/postgres/store.go:2123-2154 | of all mutations of an insight naming the same revision at most one changes it, whatever runs in between |
| InsightLog.WriteStores | internal/store/postgres/store.go:1471-1546 | a successful write leaves a live insight that says exactly what was written, defaults for what was not given, under the key's holder if there was one and else under a new id; author, time and operation of the new revision; no revision exactly if nothing differs |
| InsightLog.EditStores | internal/store/postgres/store.go:2107-2172 | an edit stores what is given and keeps every other field; no revision exactly if nothing differs |
| InsightLog.RemoveMarks | internal/store/postgres/store.go:2185-2220 | a deletion keeps the fields, marks the time and author, and always is a new revision |
| InsightLog.RecoverRestores | internal/store/postgres/store.go:2222-2298 | a successful restore makes the insight live with exactly the fields of the revision it names, by the caller and at that time; no revision exactly if it is live and has them already |
| InsightLog.WarnsExactly | internal/store/postgres/store.go:1369-1440 | a reply warns of a link to the own key and of each link whose target no live insight of the project holds, and of nothing else |
| InsightLog.OverwritesAnswer | internal/store/postgres/store.go:1471-1512 | what a write to a held key is answered: the revision named must be the current one; a value outside the known ones is rejected |
| InsightLog.CreationsAnswer | internal/store/postgres/store.go:1335-1361 | what a write without a holder is answered: only revision 0 may be named |
| InsightLog.EditsAnswer | internal/store/postgres/store.go:2107-2182 | an edit or a deletion reaches exactly the live insights of the caller's organization, at the revision named |
| InsightLog.RestoresAnswer | internal/store/postgres/store.go:2222-2285 | what a restore is answered, each refusal with its cause |
| InsightLog.KeyConflictExactly | internal/store/postgres/store.go:2271-2285 | a restore meets a key conflict if and only if the insight is deleted and another live insight has since taken its key |
| InsightLog.NoOtherHolder | internal/store/postgres/store.go:1346-1366 | a keyed write that is not refused finds no second live holder of its key |
| InsightStore.Store.WriteInsight | internal/store/postgres/store.go:1335-1367 | the keyed write with its insert race, other transactions committing between its statements: it takes effect at one instant of the log, tables and index in agreement before and after; NotFound only for a race lost twice |
| InsightStore.Store.CreateOrUpdate | internal/store/postgres/store.go:1346-1366 | the part of it after no live insight was found: insert, and update the winner if the insert lost |
| InsightStore.Store.CreateInsight | internal/store/postgres/store.go:1514-1546 | an insert commits a one-revision history, and yields no row exactly because a live insight holds the key |
| InsightStore.Store.UpdateByKey | internal/store/postgres/store.go:1471-1512 | an update of the locked row is one committed step of the log, a no-op included |
| InsightStore.Store.UpdateInsight | internal/store/postgres/store.go:2107-2172 | update by id commits one step of the log, tag-only updates leaving the index right although they skip the sync |
| InsightStore.Store.DeleteInsight | internal/store/postgres/store.go:2185-2220 | soft delete commits one step of the log and leaves the index entries in place |
| InsightStore.Store.RestoreInsight | internal/store/postgres/store.go:2222-2298 | restore commits one step of the log or is refused for the reason the log gives |
| InsightStore.Store.Reinstate | internal/store/postgres/store.go:2262-2298 | the update of a restore, rejected by the unique live-key index exactly when another live insight holds the key |
| InsightStore.Store.GetForUpdate | internal/store/postgres/store.go:2174-2182 | finds exactly the live insights of the caller's organization |
| InsightStore.Store.GetByKeyForUpdate | internal/store/postgres/store.go:1462-1469 | finds a live holder of the key, or there is none |
| InsightStore.Store.SyncContent | internal/store/postgres/store.go:1369-1460 | afterwards the index rows of this source are the targets of its content other than its own key, every other source's rows untouched; the warnings name a self link and the unresolved targets, once each, by target and then code |
| InsightStore.AddUnresolved | internal/store/postgres/store.go:1392-1406 | the loop and sort behind those warnings |
| InsightStore.FilterInPlace | internal/store/postgres/store.go:1369-1390 | the filter that writes through an alias of the slice it reads keeps, in order, everything but the own key |
| InsightStore.Store.ContestedRows | internal/store/postgres/store.go:2271-2285 | the unique index on live keys rejects what the log calls contested, and nothing else |
| InsightStore.Store.GetInsight | internal/store/postgres/store.go:1225-1333 | a live insight of the project as its last snapshot has it, with bounded, ordered forward links and backlinks; counts are those of the whole index and the truncation flags say whether the lists are shorter |
| InsightStore.Store.ForwardLinks | internal/store/postgres/store.go:1253-1290 | the first targets in C collation, each resolved exactly if a live insight holds that key, with the full count |
| InsightStore.Store.Backlinks | internal/store/postgres/store.go:1290-1327 | the first live sources linking here, newest first, with the full count |
| InsightStore.Store.ListInsights | internal/store/postgres/store.go:1779-1819 | a page shows only live insights of the project, with the tag if one is given, in order behind the cursor; every such insight is on it or behind the cursor it gives, and it gives one only if more follow |
| InsightStore.ListedExactly | internal/store/postgres/store.go:1779-1799 | which insights a listing holds, and where each stands in it |
| InsightStore.Store.ListInsightHistory | internal/store/postgres/store.go:1573-1660 | one page of an insight's revisions, newest first, with their snapshots |
| InsightReads.LinksAreShown | internal/store/postgres/store.go:1253-1290 | the links shown are targets the content names other than its own key, each resolved to the live insight that holds it, if any; all of them unless cut |
| InsightReads.BacklinksAreShown | internal/store/postgres/store.go:1290-1327 | the backlinks shown are the live insights of the project whose content names the key; all of them unless cut |
| InsightReads.LinksAreDual | internal/store/postgres/store.go:1253-1327 | with neither list cut short, live A shows a resolved link to live B if and only if B's backlinks show A |
| InsightReads.WrittenIsRead | internal/store/postgres/store.go:1225-1660 | over a run, what a write wrote is what reads by id, the listings of its project and tags, and the head of its history show, until something else about it is changed |
| InsightReads.UnmodifiedIsListedOnce | internal/store/postgres/store.go:1779-1819 | a listing walk that comes to its end while writers run lists every live insight of the project, with the tag if one is given, that is not modified meanwhile exactly once, whichever way the others move |
| InsightReads.OnlyWantedAreListed | internal/store/postgres/store.go:1779-1819 | and it lists nothing that was not such an insight at one of its pages |
| InsightReads.QuietWalkIsListing | internal/store/postgres/store.go:1779-1819 | while nobody writes, the first page and those behind it hold exactly the insights asked for, once each, in order |
| InsightReads.ListingWalkFinishes | internal/store/postgres/store.go:1779-1819 | whoever writes what, a walk comes to its end in as many pages as the first listing fills together with the changes stamped no later than some insight |
| InsightReads.LateChangesAreCommits | internal/store/postgres/store.go:1779-1819 | over a run there are no more of those than transactions committed between the pages |
| InsightReads.EveryUnmodifiedIsListed | internal/store/postgres/store.go:1779-1819 | so over any run, and nothing said about its clock, reading pages enough for the first listing and for one insight per transaction committed meanwhile lists every unmodified insight exactly once |
| InsightReads.HistoryWalkIsWholeHistory | internal/store/postgres/store.go:1573-1660 | paging through a history while it grows, pages enough for what was there at the first, yields exactly the revisions from the one then current down to 1 |
| Keyset.ListPage | internal/store/postgres/store.go:1779-1819 | a page is the first rows below the cursor in descending order, with a cursor exactly when more follow |
| Keyset.SelectDesc | internal/store/postgres/store.go:1693-1719 | the first rows of a table in descending key order |
| Keyset.PageFacts | internal/store/postgres/store.go:1752-1764 | a page is descending, no longer than the limit, and its cursor is its last row |
| Keyset.NextPageResumes | internal/store/postgres/store.go:1752-1764 | what is left below the cursor is what the page did not return |
| Keyset.WalkIsWholeList | internal/store/postgres/store.go:1693-1764 | following the cursors to the end concatenates to the whole ordered list below the starting point |
| Keyset.WalkFromStart | internal/store/postgres/store.go:1693-1764 | from the first page that is the whole ordered list |
| Keyset.WalkDescends | internal/store/postgres/store.go:1779-1819 | over tables that change between pages the walk still descends, so no row comes twice |
| Keyset.WalkReturnsStableRows | internal/store/postgres/store.go:1779-1819 | a row present in every table of a walk that comes to its end is returned exactly once |
| Keyset.WalkFinishes | internal/store/postgres/store.go:1693-1764 | a walk comes to its end in as many pages as the rows below its start fill, together with the rows that writers put in its way, that is not above all others |
| Keyset.WalkListsInsightOnce | internal/store/postgres/store.go:1779-1819 | an insight whose timestamp only grows is listed at most once |
| Keyset.HistoryWalk | internal/store/postgres/store.go:1573-1660 | over histories that only grow the walk is the countdown from the first page's current revision, given pages enough for that |
| Keyset.HistoryWalkFinishes | internal/store/postgres/store.go:1573-1660 | a history walk comes to its end if and only if it reads as many pages as the revisions current at its first page fill |
| Keyset.LessTotal | internal/store/postgres/store.go:1719 | row comparison is a total order |
| GrantStore.FindByToken | internal/store/postgres/store.go:574-585 | the grant carrying a refresh token, or proof that none does |
| GrantStore.Store.RotateGrant | internal/store/postgres/store.go:714-813 | the row that still carries the old token becomes its successor, the old jti is revoked and the old token retired, all or nothing |
| GrantStore.Store.DeleteGrant | internal/store/postgres/store.go:816-836 | removes and retires the grant only if it still carries the jti |
| GrantStore.Store.RevokeOAuthGrantById | internal/store/postgres/store.go:838-892 | operator revocation: grant, revocation and retirement in one step |
| GrantStore.Store.UpsertGrant | internal/store/postgres/store.go:494-557 | a grant stored, replacing one of the same jti but for its id and user, and the expired siblings of the same user and client gone; nothing stored for a token another grant carries or without a GitHub token |
| GrantStore.Store.InsertRetired | internal/store/postgres/store.go:652-709 | records a retired token and prunes those past retention |
| GrantStore.Store.GetGrantByRefreshToken | internal/store/postgres/store.go:574-585 | reads the grant carrying the token |
| GrantStore.Store.RevokeToken | internal/store/postgres/store.go:1174-1189 | revocation inserts once and prunes only what expired |
| GrantStore.Store.IsTokenRevoked | internal/store/postgres/store.go:1192-1202 | a jti counts as revoked until its recorded expiry |
| RefreshGrant.ResolveDurations | internal/oidc/server.go:192-209 | a configuration is accepted only with grace within 0 to 60 s and a positive retention no shorter; defaults 30 s and 24 h |
| RefreshGrant.StoredExpiryKeepsSecond | internal/oidc/server.go:319-343 | an expiry read back at microsecond precision still names the second the token carries, which is what keeps revocations as long as their tokens |
| RefreshGrant.Server.ReadGrant | internal/oidc/handlers.go:353-420 | what the refresh handler decides before GitHub is asked, a grant that cannot be decrypted included |
| RefreshGrant.Server.TakeAnswer | internal/oidc/handlers.go:420-520 | what it does with each answer of GitHub, a new pair that cannot be finished with included |
| RefreshGrant.Server.RevokeAccess | internal/oidc/handlers.go:69-78 | teardown, first transaction: the access token is revoked |
| RefreshGrant.Server.DropGrant | internal/oidc/handlers.go:69-91 | teardown, second transaction: the grant is deleted by its old jti |
| RefreshGrant.Server.ReadRetired | internal/oidc/handlers.go:542-604 | what a retry is told from the retired record |
| RefreshGrant.Server.ReadReplacement | internal/oidc/handlers.go:605-673 | what a retry is told from the replacement grant, one that cannot be decrypted included |
| RefreshGrant.Server.VerifyJwt | internal/oidc/server.go:234-270 | a token passes if and only if it is before its whole-second expiry and its jti is not revoked |
| RefreshProtocol.StepKeepsInv | internal/oidc/handlers.go:324-540 | every step of any interleaving keeps rows, tokens, rotation chain, retired records, revocations and requests in flight consistent |
| RefreshProtocol.RunKeepsInv | internal/oidc/handlers.go:324-673 | the invariant holds in every reachable state |
| RefreshProtocol.RevocationIsPermanent | internal/store/postgres/store.go:1174-1202 | once a jti is revoked by rotation, teardown, logout or operator, no token carrying it is accepted at any later time, although revocations are pruned |
| RefreshProtocol.PruningIsSafe | internal/store/postgres/store.go:1174-1189 | pruning drops a revocation only after its token has expired |
| RefreshProtocol.NeverLiveAndRetired | internal/store/postgres/store.go:714-813 | no refresh token is both live and retired |
| RefreshProtocol.OneLiveTokenPerGrant | internal/store/postgres/store.go:714-813 | a grant never has two live tokens |
| RefreshProtocol.ChainNeverMerges | internal/store/postgres/store.go:714-813 | rotation never merges: each token has at most one predecessor at any distance |
| RefreshProtocol.LeadsAcrossGenerations | internal/store/postgres/store.go:714-813 | every rotation adds a generation within the same grant, so no token leads back to itself |
| RefreshProtocol.ChainHasOneHead | internal/store/postgres/store.go:714-813 | following the successors of any refresh token ends, at the one token of its grant that was not rotated away; a live row of the grant, if any, is that token's |
| RefreshProtocol.RotationSucceedsExactly | internal/oidc/handlers.go:420-520 | a request holding GitHub's new pair rotates if and only if the grant it read still stands; otherwise it changes nothing |
| RefreshProtocol.RotatedAtMostOnce | internal/store/postgres/store.go:714-813 | over a whole run at most one request rotates a given token |
| RefreshProtocol.LoserCannotDeleteWinner | internal/oidc/handlers.go:69-78 | once a token is rotated, tearing down on its behalf leaves the winner's grant, every record and every other access token alone |
| RefreshProtocol.RetryIsExact | internal/oidc/handlers.go:542-604 | the first lookup passes exactly the retries by the same client that find the record within the window and retained, on to the token's successor |
| RefreshProtocol.GraceIsRetained | internal/oidc/handlers.go:542-604 | retention is no shorter than grace, so strictly within the window the record is there and lets its client through; at the closing instant exactly if the retention outlasts the grace by a microsecond of the database's |
| RefreshProtocol.GraceRetryIsExact | internal/oidc/handlers.go:542-673 | over a run, for every retry that reaches the second lookup, whatever steps come before, between and after the two: its first lookup fell within the grace window, for the same client; it gets the immediate successor's token, jti and stored expiry if and only if that successor is live, readable and not past its expiry, and is refused for just that reason otherwise |
| RefreshProtocol.NoRetryOtherwise | internal/oidc/handlers.go:542-673 | over a run, a retry after the window, of another client, or of a token never rotated is refused at its first lookup and stays refused |
| RefreshTrace.RowsAreTraced | internal/oidc/handlers.go:420-520 | over a run, every row's refresh token and GitHub's token and expiry are those given when its jti was issued, by the login or in the answer that rotation stored; its user, client and scope are those of the login the chain began with |
| RefreshTrace.SpentTokenNeverReturns | internal/oidc/handlers.go:460-520 | if GitHub gives each token once: once it has answered with a new pair that could be stored, the token it was asked with is in no row again |
| RefreshTrace.SpentTokenStaysExactly | internal/oidc/handlers.go:427-478 | right after a new pair the spent token is left in a row exactly if the grant still stood and its user could not be read or stored, or the pair lacked a refresh token |
| RefreshTrace.BeginsAnswer | internal/oidc/handlers.go:353-422 | which refresh requests go on to GitHub, which tear the grant down, which may be retries, and what the others are told |
| RefreshTrace.AnswersDecide | internal/oidc/handlers.go:427-520 | which answers tear the grant down, which change nothing, and what the row holds after a rotation |
| RefreshTrace.RetriesAnswer | internal/oidc/handlers.go:542-604 | what a retry is told at its first lookup, by what became of its token and when |
| RefreshTrace.TeardownEnds | internal/oidc/handlers.go:69-91 | over a run, after a teardown the grant it was for is in no row again |
| RefreshTrace.DropEnds | internal/store/postgres/store.go:816-836 | the second half of a teardown removes that row only and remembers its token with the reason for the whole retention |
| RefreshTrace.LoginEnters | internal/store/postgres/store.go:494-557 | a login enters its grant and drops exactly the expired ones of the same user and client |
| RefreshTrace.OperatorEndsGrant | internal/store/postgres/store.go:838-892 | an operator's revocation ends the grant it names and no other, and its token is remembered |
| RefreshTrace.AcceptedExactly | internal/oidc/server.go:234-270 | over a run, a token is accepted exactly before the second it expires and while no rotation, teardown, logout or operator has revoked its jti |
| Scopes.GrantedExactly | internal/oidc/handlers.go:914-935 | a scope is granted as a whole or not at all, exactly when every word is supported and, for a known client, registered; it is what was asked for without repeats in order of first appearance, or where nothing was asked for what the client registered (reading and writing by default), or reading; the refusal names an offending word |
| Scopes.NormalizedKeepsWords | internal/oidc/scopes.go:26-42 | normalising keeps the set of words, without repeats, and is never empty |
| Scopes.NormalizeIsIdempotent | internal/oidc/scopes.go:26-42 | normalising twice is normalising once |
| Scopes.NormalizeScope | internal/oidc/scopes.go:26-42 | the loop over seen words yields the words in order of first appearance |
| Scopes.FirstOutside | internal/oidc/scopes.go:53-64 | the scan finds the first word not allowed |
| Scopes.GrantScope | internal/oidc/handlers.go:914-935 | the authorization handler's scope decision |
| AuthState.Store.StorePendingAuth | internal/store/postgres/store.go:908-941 | inserts a ten-minute row unless the state exists, and prunes what expired |
| AuthState.Store.ConsumePendingAuth | internal/store/postgres/store.go:945-964 | takes an unexpired row away and returns it, else changes nothing |
| AuthState.Store.StoreAuthorizationConfirmation | internal/store/postgres/store.go:967-999 | inserts a ten-minute confirmation unless its digest exists |
| AuthState.Store.CompleteAuthorizationConfirmation | internal/store/postgres/store.go:1002-1050 | one transaction: the confirmation goes, and on approval its five-minute code comes; a code that exists undoes both |
| AuthState.Store.StoreAuthCode | internal/store/postgres/store.go:1054-1091 | inserts a five-minute code unless it exists |
| AuthState.Store.ConsumeAuthCode | internal/store/postgres/store.go:1121-1170 | takes an unexpired code away and returns it, else changes nothing; a code whose tokens cannot be decrypted is gone all the same |
| AuthFlow.RedirectMatchesAny | internal/oidc/clients.go:122-129 | the scan with early return finds a match if there is one |
| AuthFlow.RedirectMeaning | internal/oidc/clients.go:131-168 | a registered client must name the redirect URI exactly; under a metadata document two URIs match if and only if they are equal or both parse to one loopback http URL without user, up to the port, the escapes that path and fragment are written with, and a bare question mark |
| AuthFlow.RedirectClasses | internal/oidc/clients.go:131-168 | matching is symmetric and transitive: an allowed URI stands for a class of addresses |
| AuthFlow.EscapedSlashMatches | internal/oidc/clients.go:147-168 | an allowed path with an escaped slash lets the path with a plain slash through |
| AuthFlow.ResolvedExactly | internal/oidc/clients.go:52-120 | who the client is and whether the redirect URI is its own: registered clients first, and exactly; then metadata documents |
| AuthFlow.AuthorizedExactly | internal/oidc/handlers.go:865-961 | which authorization requests are accepted, and the bindings, scope and refresh right they are stored with |
| AuthFlow.CallbackStores | internal/oidc/handlers.go:773-860 | what each answer of GitHub leads to, and what the code or the confirmation carries of it |
| AuthFlow.Server.ResolveClient | internal/oidc/clients.go:52-120 | registered clients come before metadata documents, and the redirect URI is checked against the client found |
| AuthFlow.Server.HandleAuthorize | internal/oidc/handlers.go:865-961 | the authorization handler stores a pending row for exactly the requests its checks accept, in the order of those checks |
| AuthFlow.Server.TakeState | internal/oidc/handlers.go:762-771 | the callback consumes the state before GitHub is asked |
| AuthFlow.Server.FinishCallback | internal/oidc/handlers.go:773-860 | after GitHub: a confirmation if the client needs one, else a code, else nothing; the subject is the stored user's id, or GitHub's number for the user where no users are stored |
| AuthFlow.Server.HandleTokenRequest | internal/oidc/handlers.go:217-322 | the token handler: the code is consumed before its tokens are decrypted and before client, redirect URI and PKCE are checked, the token is signed before its grant is stored; a refresh token is handed out if and only if grants are stored, GitHub gave both tokens, the client may refresh or no clients are known, the subject parses and no other grant has the token; tokens that do not decrypt, or a client_id too long to sign, cost the code |
| AuthProtocol.StepKeepsInv | internal/oidc/handlers.go:749-961 | every step of any interleaving keeps tables and history in agreement, and the history is never rewritten |
| AuthProtocol.RunKeepsInv | internal/oidc/handlers.go:217-322 | the invariant holds in every reachable state |
| AuthProtocol.TokenTracesToRequest | internal/oidc/handlers.go:217-273 | every access token goes back to one authorization request with the same client, redirect URI, scope and challenge and the user GitHub identified for it, and to an approval of that code unless the client is the dashboard |
| AuthProtocol.TokenIsWithinClient | internal/oidc/handlers.go:914-935 | its scope was registered for the client its request named, its redirect URI is one of that client's, and a refresh token comes only if that client registered for it |
| AuthTrace.RefreshableExactly | internal/oidc/handlers.go:282-316 | over a run, a token is refreshable if and only if grants are stored, GitHub gave both tokens at its request's callback, and the client that request named allows it (or no clients are known); its subject is the user of that answer |
| AuthTrace.ScopeAsAskedFor | internal/oidc/handlers.go:914-935 | a token's scope is what its request asked for, or what its client registered, in order and without repeats |
| AuthTrace.GrantIsOfRequest | internal/oidc/handlers.go:282-316 | over a run, the grant behind a refresh token is its request's: client, scope, and the user and GitHub's refresh token of the answer |
| AuthTrace.OutcomeHasAnswer | internal/oidc/handlers.go:773-860 | what a callback recorded of a user is what GitHub answered it |
| AuthProtocol.TokensAreInjective | internal/oidc/handlers.go:217-322 | no two access tokens go back to the same authorization request |
| AuthProtocol.OneCodePerRequest | internal/store/postgres/store.go:1002-1091 | a request hands out one code at most, directly or by approval |
| AuthProtocol.ConsumedOnce | internal/store/postgres/store.go:945-1170 | over a whole run a state, a confirmation and a code are each consumed at most once |
| AuthProtocol.OpenExactly | internal/store/postgres/store.go:908-1170 | a row can be consumed exactly if it was stored, never consumed and is within its lifetime; pruning never shows |
| AuthProtocol.IssuedExactly | internal/oidc/handlers.go:224-273 | a token is issued if and only if a code is presented for the first time, within five minutes, with the client, redirect URI and verifier it is bound to, GitHub's tokens in it (if any) can be decrypted, and the client_id fits the claim that carries it (2048 bytes) |
| AuthTrace.PresentedCodeAnswers | internal/oidc/handlers.go:217-273 | what every token request is answered, in terms of the authorization request its code goes back to |
| AuthProtocol.OnePresentation | internal/oidc/handlers.go:230-273 | after one presentation of a code, successful or not, every further one is refused and changes nothing |
| AuthProtocol.ExchangeIsLogin | internal/oidc/handlers.go:272-315 | the grant behind a new access token can be stored, and storing it is the login with which the refresh protocol begins |
| AuthProtocol.PendingEchoes | internal/oidc/handlers.go:937-961 | a pending row repeats its request, and requires confirmation exactly for clients other than the dashboard |
| Utf8.EncodeInjective | internal/server/cursor.go:68-76 | different texts have different UTF-8 bytes |
| Utf8.PrefixCode | internal/store/postgres/store.go:1767-1777 | the next scalar can be read off the bytes: no encoding begins another |
| Utf8.StartsAreOffsets | internal/store/postgres/store.go:1773-1775 | the rune starts are exactly the bytes where a scalar begins |
| Utf8.TruncateUtf8 | internal/store/postgres/store.go:1767-1777 | the loop cuts at the last rune start that leaves room for the ellipsis |
| Utf8.TruncatedText | internal/store/postgres/store.go:1767-1777 | on UTF-8 the result is UTF-8, at most the limit, and the longest run of whole scalars that fits with the ellipsis |
| Canonical.CanonIffSameSet | internal/server/cursor.go:188-201 | two lists have the same canonical form exactly when they are equal as sets |
| Canonical.CanonAscends | internal/server/cursor.go:188-201 | sorting and compacting gives a strictly ascending list of the same elements |
| Json.QuotedPrefixCode | internal/server/cursor.go:203-220 | a quoted JSON string tells where it ends, whatever it contains |
| Json.ItemsPrefixCode | internal/server/cursor.go:203-220 | so does an array of them |
| Filters.UuidTextInjective | internal/server/cursor.go:203-220 | different ids have different texts |
| Filters.SearchTextsExactly | internal/server/cursor.go:203-220 | two search filters have the same digest text exactly when they agree with tags and exclusions as sets |
| Filters.KindsApart | internal/server/cursor.go:68-113 | preimages of list, history and search filters are never equal |
| Filters.PreimagesExactly | internal/server/cursor.go:68-220 | preimages are equal exactly for filters that do not differ |
| Cursor.AcceptedForOneFilter | internal/server/cursor.go:92-186 | a cursor accepted for two filters is of one kind and the filters do not differ, unless the digest collides |
| Cursor.SharedBySameFilters | internal/server/cursor.go:188-220 | filters equal up to order and repetition accept the same cursors |
| Cursor.RoundTrip | internal/server/cursor.go:44-146 | reading back a cursor gives the same position with its time cut to the microsecond; it is refused exactly for a nil id, a rank negative or not finite, or a revision out of range |
| Cursor.CursorLength | internal/server/cursor.go:164-170 | no cursor written exceeds the length that is read |
| LinkScanner.Reader.Parse | internal/insightlinks/extension.go:49-98 | the scanner's result on a line, and how far the reader moves |
| LinkScanner.PrintedIsRead | internal/insightlinks/extension.go:49-98 | a link written with a target, perhaps a caption, and any blanks around them reads back as that target and caption (the target, for want of one), taking exactly the link whatever follows on the line |
| LinkScanner.ReadWasPrinted | internal/insightlinks/extension.go:49-98 | whatever the line, a link read from it was written so: nonempty trimmed target without bar, bracket or line break |
| LinkScanner.ConsumesWithinLine | internal/insightlinks/extension.go:55-98 | the scanner takes at least the prefix and never the line ending |
| LinkScanner.TextOtherwise | internal/insightlinks/extension.go:60-85 | what is no link is taken as text up to the end of the line, to a lone bracket, or to the closing brackets of an inadmissible body |
| LinkScanner.Targets | internal/insightlinks/extension.go:153-168 | the targets of a text, once each, in order |
| LinkScanner.TargetsAreUnique | internal/insightlinks/extension.go:153-168 | that list does not depend on the order of the walk or of the map |
| LinkScanner.TrimOf | internal/insightlinks/extension.go:100-102 | trimming takes exactly the blanks around a trimmed text away |
| Telemetry.BuildSnapshot | internal/operations/telemetry.go:224-318 | a snapshot is built exactly when every row is valid, and then describes the rows: one entry per hour, tool, flow and failure, with the sums of just its rows, sorted |
| Telemetry.SnapshotCounts | internal/operations/telemetry.go:224-318 | the numbers of a snapshot are the calls and events that the rows report with that outcome, in all and for each hour, tool and flow; its lists are in order |
| Telemetry.AggregateTools | internal/operations/telemetry.go:230-263 | the tool loop accumulates totals, hours and tools, seeded hours included |
| Telemetry.AggregateFlows | internal/operations/telemetry.go:276-306 | the flow loop accumulates flows, logins and failures with reasons |
| Telemetry.SeedBuckets | internal/operations/telemetry.go:226-229 | an empty bucket for every hour of the window |
| Telemetry.TwentyFiveHours | internal/operations/telemetry.go:226-229 | a day always touches twenty-five hours |
| Telemetry.OrderDoesNotMatter | internal/operations/telemetry.go:308-359 | snapshots of the same rows are equal whatever the order of rows and of map iteration |
| Telemetry.CallsAreConserved | internal/operations/telemetry.go:241-263 | totals of calls and of failures are the sums over the hours and over the tools |
| Telemetry.FailuresAreConserved | internal/operations/telemetry.go:296-306 | failures with reasons add up to each flow's failures, and all to all |
| Telemetry.CloudWatch.Get | internal/operations/telemetry.go:114-161 | nothing older than a minute is served, a younger snapshot is served again, and a failure keeps what was there |
| Aggregates.PartsMakeWhole | internal/operations/telemetry.go:241-306 | sums per key add up to the whole |
| Aggregates.PartOfPermutation | internal/operations/telemetry.go:241-306 | a sum per key does not depend on the order of rows |
| Aggregates.SortedUnique | internal/operations/telemetry.go:337-359 | a list whose order tells its elements apart has one sorted arrangement |
| Migrations.LoadMigrations | internal/store/postgres/migrations.go:78-117 | the embedded files that are migrations, ordered by version |
| Migrations.Database.RunMigrations | internal/store/postgres/migrations.go:42-75 | from any recorded set whose entries are true, gaps included: however a run ends no version is lost and gaps are filled from below, so a prefix stays a prefix; success means all are recorded, and a run in which nothing fails succeeds |
| Migrations.Database.RunMigration | internal/store/postgres/migrations.go:150-183 | one migration: at most its own version is recorded, and only with what it stands for |
| Migrations.Database.RunConcurrentIndexMigration | internal/store/postgres/migrations.go:185-213 | an invalid index is dropped and rebuilt, and the version is recorded only with a valid one |
| Migrations.Database.CheckSchema | internal/store/postgres/store.go:70-89 | compares the highest recorded version with the highest embedded one |
| Migrations.CheckIsExact | internal/store/postgres/store.go:70-89 | when releases only add higher versions the check passes if and only if every embedded migration is recorded, also under a newer release |
| Migrations.NewReleaseKeepsInv | internal/store/postgres/migrations.go:115-117 | a release that only adds higher versions takes over where the last one was |
| Migrations.CheckMissesExactly | internal/store/postgres/store.go:70-89 | the check passes with a migration missing if and only if the last embedded version is already recorded and the release adds a version the database was not migrated with |
| Migrations.SoundForOtherRelease | internal/store/postgres/migrations.go:42-75 | what a release recorded is still true for any release that keeps its files, wherever the new versions lie, so a run then applies what is missing |
| Migrations.PassedCheckMeansReady | internal/store/postgres/store.go:70-89 | a server that passed the check finds every index it was built against valid and every SQL file in effect, also under a newer release |
| Migrations.LowerVersionGoesUnnoticed | internal/store/postgres/store.go:70-89 | a witness: version 2 added to 1 and 3 goes unnoticed; with version 4 beside it the check tells |
| WebSession.ResolveConfig | internal/server/server.go:70-80 | only configurations whose idle lifetime is within the whole lifetime are accepted |
| WebSession.Store.CreateWebSession | internal/store/postgres/store.go:215-242 | dead rows make way, every other row stays, and no row idles longer than it lives |
| WebSession.Store.GetWebSession | internal/store/postgres/store.go:244-267 | returns exactly the live sessions |
| WebSession.Store.TouchWebSession | internal/store/postgres/store.go:269-282 | extends the idle expiry of a live session, never beyond its absolute expiry |
| WebSession.Store.RevokeWebSession | internal/store/postgres/store.go:284-295 | marks a session revoked once |
| WebSession.Authenticate | internal/server/ui_auth.go:187-200 | who is let in, and when a touch is due |
| WebSession.RunKeepsInv | internal/server/ui_auth.go:187-211 | idle expiry is what the last touch (or login) read plus the idle lifetime, as stored, capped by the absolute expiry, in every reachable state |
| WebSession.RevokedForever | internal/store/postgres/store.go:284-295 | a revoked session never validates again, whatever touches were in flight and whatever is pruned |
| WebSession.UsableExactly | internal/store/postgres/store.go:244-267 | over a run, a session is let in if and only if it was not revoked, its lifetime is not over and no idle lifetime has passed since its last touch; pruning does not show |
| WebSession.VisitedSessionSurvives | internal/server/ui_auth.go:187-211 | with rows in whole microseconds: visits at most an idle lifetime (so cut) less an hour and less the delay of a touch apart keep a session that is not revoked valid until its absolute expiry |
| WebSession.OneNanosecondMoreIsTooMuch | internal/server/ui_auth.go:199 | a gap one nanosecond longer can lose the session |
| RedirectQuery.EscapeRoundTrip | internal/oidc/confirmation.go:299-312 | what is percent-encoded reads back unchanged |
| RedirectQuery.PreservedQuery | internal/oidc/confirmation.go:318-339 | the loop keeps, in order, the parameters that are none of the response's, or fails if a name is malformed |
| RedirectQuery.Rewrite | internal/oidc/confirmation.go:294-316 | the rewritten query is those parameters and the response's |
| RedirectQuery.RewrittenReads | internal/oidc/confirmation.go:294-316 | the client reads its own parameters unchanged and in order, then those of the response |
| RedirectQuery.OwnReads | internal/oidc/confirmation.go:299-311 | the response's parameters read back as code or error, issuer, and state if there is one, with the values given |
| RedirectQuery.ResponseIsUnmistakable | internal/oidc/confirmation.go:318-348 | one issuer, one code or one error, and the state exactly when one was sent, whatever the redirect URI already said |
| RedirectQuery.SplitJoin | internal/oidc/confirmation.go:322-334 | joined parameters split into the same parameters |
| Privacy.PrivacySafeAttr | internal/logattr/privacy.go:89-108 | the recursive loop drops what is prohibited and groups left empty |
| Privacy.SafeFiltersLines | internal/logattr/privacy.go:89-108 | filtering an attribute removes exactly the lines with a prohibited key on their path |
| Privacy.ChainFiltersOps | internal/logattr/privacy.go:65-87 | a chain of attributes and groups passes on exactly the clean lines and stops at the first prohibited group |
| Privacy.FilterIsExact | internal/logattr/privacy.go:52-87 | what is logged behind the filter is what would be without it, less the lines with a prohibited key on their path, in the same order |
| Privacy.NothingProhibitedGetsThrough | internal/logattr/privacy.go:52-116 | no line that gets through has a prohibited key at any depth or in any group |
| Calendar.BuildCells | ui/routes/overview/activity_calendar.tsx:41-69 | 365 cells and one for each day of this week before today, each with its date, column, row and count |
| Calendar.GridShape | ui/routes/overview/activity_calendar.tsx:45-66 | each day is in the row of its weekday, within 53 columns, from the first Sunday of the window to today |
| Calendar.TotalIsConserved | ui/routes/overview/activity_calendar.tsx:71-84 | the grid's total is that of the buckets dated in its window, whatever others there are |
| Calendar.ComputeStats | ui/routes/overview/activity_calendar.tsx:71-92 | total, active days, the last busiest day, and the streak |
| Calendar.CountStreak | ui/routes/overview/activity_calendar.tsx:84-91 | the loop ends, with the maximal run up to today, or yesterday if today has none |
| Calendar.CellsCountBuckets | ui/routes/overview/activity_calendar.tsx:83 | the cells count what the buckets count, within the window |
| Calendar.MonthLabels | ui/routes/overview/activity_calendar.tsx:125-141 | the loop that pushes and pops labels, tied to the function whose labels LabelsAreSpaced is about |
| Calendar.LabelsAreSpaced | ui/routes/overview/activity_calendar.tsx:125-141 | adjacent labels are at least three columns apart and every month that begins on the grid has its label at its first Sunday |
| Calendar.OnlyFirstMakesWay | ui/routes/overview/activity_calendar.tsx:136-137 | a label only makes way if it is the first, of a partial leading month |
| Calendar.FourSundays | ui/routes/overview/activity_calendar.tsx:136-137 | a month has at least four Sundays |

## Left out

- HTTP, cookies, templates, logging of outcomes, rate limits, the MCP tools and the generated API: presentation around the decisions modelled.
- GitHub, client metadata and logo fetching, CloudWatch: their answers are arbitrary values; a client metadata document may differ at every request.
- JWT signing, secretbox and base64 are not modelled; VerifyJWT's signature, issuer, audience and claim-type checks are taken as passed, only expiry and revocation are decided here.
- SHA-256 of tokens is an injective constructor; for cursor filters collisions are allowed and named in the theorem.
- PostgreSQL isolation, row locks and unique indexes are assumed: a transaction's statements are one step, except the insert race of a keyed write, which is modelled by other transactions committing in between.
- Database errors that handlers log and ignore (in tearDownGrant, UpsertGrant and logout): the store is taken to succeed, except where its own constraints refuse.
- Markdown: the parser that calls the inline scanner, and so which links a whole text contains, is a function of the text; LinkScanner models the scanner itself and the collection of targets.
- Full-text search: rank is a given part of the key, ts_headline and the tag filters of a search are not modelled.
- InsightStore: audit columns other than author and time, hard deletes and their cascades, and the migration that gave old insights their first revision are not modelled.
- WebSession: a session's id and its token digest are one key here, and creating a session reads one clock, although the application and the database each read theirs.
- Telemetry: counts are unbounded integers, and durations are reals; parsing of numbers and times from text is part of the row.
- Migrations: the check of a file's first line for an index directive is part of the entry; a migration's own SQL is taken to record its version and to leave concurrently built indexes alone.
- Filters: that sorting ids by their bytes is sorting them by their text, and strings by UTF-8 bytes by code point, is used without proof; only the set of elements matters to the claims.
- Privacy: the limit on how often a lazy value is resolved is left out; letters whose lower case is not ASCII stay as they are, which no prohibited key notices.
- Calendar: colour levels, label texts and the component itself; a date's key is identified with its day.
- UpsertUser, organizations, projects, dynamic client registration, the dashboard's counts and the audit log: state without an invariant of its own.
