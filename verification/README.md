# Verified model of the authorization server

This project models the token state machine of an OAuth 2 authorization server and the algorithms it
rests on, and proves properties of whole runs of it.

The server keeps five growing tables: users with their lockout columns, clients, authorization codes,
refresh-token rows linked by `replaced_by_id`, and login audits; external identities link Telegram and
Google accounts to users. Its steps are the grants of the token endpoint, revocation, the authorization
endpoint, federated login, the edits of the admin API, and the bootstrap that runs at every start.

## How the model is built

| layer | modules |
|---|---|
| strings and encodings | `Text`, `Utf8`, `Base64`, `UrlParts`, `Urls`, `Escapes`, `Scopes`, `GrantedScopes`, `Pkce`, `TelegramWidget`, `CheckStrings`, `Clock` |
| tables and request functions | `Store`, `Steps`, `Machine` |
| the server as an object whose methods update its tables | `Service` |
| what one event can do | `Effects`, and the first part of `Codes`, `Lockout`, `Emails`, `Federation`, `Clients`, `Eligibility` |
| what each request is answered, row by row | `Answers`, `FederatedLogins`, `AuthorizeAnswers`, and parts of `Introspection`, `Revocation`, `AdminEdits` |
| properties of runs | `Chains`, `Codes`, `Ledger`, `Lockout`, `Emails`, `Federation`, `TelegramIds`, `ScopeRuns`, `AdminGate`, `BrowserLogins`, `Introspection`, `Clients`, `Eligibility`, `Invariants`, `Restarts`, `Redirects`, `Revocation`, `Flows`, `FreshServer`, `Storefront` |

`Steps` gives each request as a function from the tables to an outcome: the new tables and the reply.
`Service.AuthServer` carries out the same requests by assigning to its fields, in the order of the source,
with loops where the source has loops; every method is proved equal to its request function, and every
endpoint keeps `Valid()`, which contains all invariants (`Invariants.Consistent`). `Machine.Run` composes
requests into runs; the main theorems are about all runs. What a request comes to is stated apart from these
functions as well, by the rows it concerns and in the numbers and words of the deployment.

Times are microseconds since the epoch, as Python's clock has them; the claims of tokens are whole seconds.
Rows are identified by their position, and `births` is a history of the run, not a column: it records when
and how each refresh row was made.

## Assumptions

- One request is one atomic step at one instant. The code takes no row locks, so nothing is claimed for
  overlapping requests.
- The clock never goes backwards.
- An OAuth error is an ordinary reply, and what was changed before it is committed
  (`src/routers/oauth/router.py:170-178`, `src/middlewares/database.py:73-74`). An unhandled exception rolls
  the request back (`src/middlewares/database.py:78-81`); the model has it for a clash in a unique index, for
  `compare_digest` on text that is not ASCII and for a redirect URI that `urlparse` refuses, and replies
  `ServerError`.
- SHA-256, HMAC, Argon2, lower-casing and `int()` are functions of the configuration. No injectivity of
  SHA-256 is assumed: tables are keyed by digests, and a digest that is already stored is a clash. Statements
  that need a collision-free HMAC say so.
- Lower-casing leaves its own results and whitespace alone and never makes whitespace (`Text.CaseTableOk`).
- A signed token is an ideal record that says what it was minted with, and is not the text of a stored
  refresh token. It decodes between its `iat` and its `exp`.
- An access token lives at least one second, so that the federated endpoints can read back the token they
  have just minted.
- The cookie of an authorization request may hold any claims, except in `BrowserLogins`, where this server has signed
  it earlier in the run.
- Random values (`raw`), password hashes of new rows and verified Google claims are inputs of a request, and
  any request may carry any of them.
- Who may call the admin API is not modelled: any admin edit may happen at any time. Every invariant holds
  all the same; what a token needs to pass the admin check is a theorem of its own.
- Nothing is assumed of the entries of an allowed list; a client may be given any strings. Whether scopes are
  stable and bounded depends on the list, and the conditions are exact: `Scopes.StableExactly` (changing roles),
  `Scopes.RegrantedExactly` (same roles), `Scopes.UserScopeWithinIff`, `Scopes.ClientScopeWithinIff`. Lists of
  scope-tokens (section 3.3 of RFC 6749: not empty, no whitespace) meet all of them.
- The configuration stays the same during a run, restarts included. With a shorter refresh lifetime after a
  restart, expiry could go back along a chain.
- `urlparse` and `urlunparse` are those of Python 3.13, the version the repository runs on (`README.md:46`,
  `docker/Dockerfile:4`); older versions also print `//` before a relative path. Of the checks of an authority, IP addresses in brackets and Unicode normalisation are
  a function of the configuration.

## Where the code differs from what one may expect

- A code exchange that is refused because the user is locked has already consumed the code
  (`src/auth/oauth_logic.py:569-578`). The ledger therefore counts such refusals
  (`Ledger.ConsumedCodesAccountedFor`).
- A rotated refresh token that is presented again is refused, and its family stays alive
  (`Flows.RotationFlow`).
- Revoking a refresh token that has been rotated changes nothing and leaves its family alive; revoking the newest one
  ends the family (`Revocation.RevokeExactly`, `Revocation.RevocationEndsFamily`).
- A hint restricts introspection: section 2.1 of RFC 7662 would have the search extended when a hint is wrong
  (`Introspection.IntrospectExactly`).
- Rotation is not gated by the lock of the user, only by its activity (`Eligibility.MintsOnlyForEligible`).
- The regular expression for verifiers ends in `$`, which also admits one trailing newline
  (`Pkce.TrailingNewlineMatches`); section 4.1 of RFC 7636 does not.
- Two Telegram accounts can come to share a user, exactly by way of an admin edit that gives a user with a
  Telegram account the free address made up for another account that is not linked yet
  (`Federation.ApartStepExactly`, `Federation.DistinctTelegramUsers`, `Federation.MergingEditMerges`).
- A registered redirect URI does not always come back as it is written: `http:/cb` is printed as `http:///cb`,
  `myapp:///cb` as `myapp:/cb`, and a lone `;` at the end of a path is dropped. Its components are kept
  (`Urls.AppendedQuery`), and `Urls.BaseKeptExactly` says for which URIs the text is kept.
- Some allowed lists are not stable: an entry with whitespace in it is granted by default, read back as
  several scopes, and may be lost at the next grant (`Scopes.StabilityNeedsTokens`).
- A value in a Telegram payload may hold a line that reads as the pair of a later key, and the check string then
  fits another payload as well. Payloads that hide no such line are determined by it
  (`CheckStrings.ReadBackExactly`, `CheckStrings.HidesNothingExactly`). At the endpoint a first name or later field
  that spells the line of another id gives a signature that is good for both ids, and these are the only such
  requests (`TelegramIds.HashNamesIdExactly`, `TelegramIds.SpelledIdLogsIn`).
- A client's allowed list need not hold `admin` for its tokens to pass the admin check: under the list
  `["read admin"]` every user is granted `read admin` by default (`Scopes.EntrySpellsAdmin`,
  `AdminGate.DefaultPasses`). The lists that never yield it are characterised exactly
  (`Scopes.UserAdminExactly`, `Scopes.ClientAdminExactly`).
- Replacing roles fails for a repeated name, and an unknown name leaves the names before it granted
  (`AdminEdits.ReplacedRoles`, `Service.AuthServer.DoReplaceRoles`).

## Model

| member | source | states |
|---|---|---|
| Chains.ReachableForest | src/auth/oauth_logic.py:376-409 | After every run the refresh rows form a forest: a replaced row is revoked and its replacement is a later row of the same user and client that was born from it while it was live; hashes are distinct. |
| Chains.OnePredecessor | src/auth/oauth_logic.py:407-409 | No row replaces two rows. |
| Chains.Acyclic | src/auth/oauth_logic.py:407-409 | Following `replaced_by_id` never runs in a circle. |
| Chains.ReachesKeeps | src/auth/oauth_logic.py:397-406 | Along a chain the user and the client stay, and neither minting time nor expiry goes back. |
| Chains.ChainOwner | src/auth/oauth_logic.py:399-406 | All rows of a chain have one user, never none, and one client. |
| Chains.OneUnrevokedPerChain | src/auth/oauth_logic.py:396-409 | At most one row of a chain is unrevoked; by `UnrevokedIsTail` it is the tail. |
| Chains.LiveIsYoung | src/auth/oauth_logic.py:376 | A row live at time t was minted within the refresh lifetime before t. |
| Chains.RunEvolves | src/auth/oauth_logic.py:583-590 | In every run `revoked_at` and `replaced_by_id` are write-once, all other columns of a row are constant, and only an unrevoked row in time is ever replaced. |
| Chains.DeadChainStaysDead | src/auth/oauth_logic.py:376-409 | If the tail of a chain is revoked or expired, no continuation of the run has a live row in it or extends it. |
| Chains.IdleChainDies | src/auth/oauth_logic.py:397-398 | A chain not rotated for longer than the refresh lifetime is dead in every continuation. |
| Codes.ReachableCodesBound | src/auth/oauth_logic.py:549-580 | After every run each code started at most one chain, whose first row has the code's client and user, was minted when the code was consumed and no later than its expiry, for the registered redirect URI and a matching verifier. |
| Codes.CodesEvolve | src/auth/oauth_logic.py:569 | `consumed_at` is write-once and the rest of a code is constant, in every run. |
| Codes.SpentCodeStaysSpent | src/auth/oauth_logic.py:549-550 | A consumed or expired code is the origin of no further row in any continuation. |
| Ledger.RowsMatchAudits | src/auth/oauth_logic.py:332-350 | Refresh rows and successful audits agree entry by entry in user and client, so also in number per user and client. |
| Ledger.ReplacedMatchRefreshAudits | src/auth/oauth_logic.py:399-421 | Replaced rows are as many as successful `refresh_token` audits, and chain roots as many as all other successful audits. |
| Ledger.ConsumedCodesAccountedFor | src/auth/oauth_logic.py:569-578 | Consumed codes are as many as successful `authorization_code` audits and exchanges refused as locked together. |
| Codes.RefusedAsLockedExactly | src/auth/oauth_logic.py:569-578 | The exchanges the ledger counts as refused, defined by the checks they pass and the lock, are exactly those answered with `access_denied`. |
| Lockout.LockStep | src/auth/oauth_logic.py:223-232 | Every event: a wrong password adds one failure and from the fifth on locks for 15 minutes, a login clears both, nothing else touches them, and the first two happen only while no lock is active. |
| Lockout.LocksOkRun | src/auth/oauth_logic.py:229-231 | In every run a user has five or more failures exactly while `locked_until` is set, and no lock reaches further than 15 minutes ahead. |
| Lockout.GuessRate | src/auth/oauth_logic.py:295-321 | In a stretch of length T without a login of the user at most 5 + floor(T / 15 min) wrong passwords are checked. |
| Lockout.ReachableGuessRate | src/auth/oauth_logic.py:295-321 | The same for every stretch of every run from an empty database. |
| Lockout.GuessRateReached | src/auth/oauth_logic.py:229-231 | The bound is exact: for every n some run of n times 15 minutes has 5 + n wrong passwords checked. |
| Lockout.ActiveLockHolds | src/auth/oauth_logic.py:445-449 | Until a lock has run out, in every run it keeps its value, no password is compared and no login of the user succeeds. |
| Answers.WrongCheckExactly | src/auth/oauth_logic.py:283-308 | What the lockout counts are exactly the requests with a wrong password for an active, unlocked user, by a client that may take passwords. |
| Answers.PasswordTokensExactly | src/auth/oauth_logic.py:260-359 | With distinct addresses and identifiers, a password request gets tokens if and only if a proved client that may take passwords names an active, unlocked user, in any spelling, with the right password, and the new token is fresh; then the tokens are for that user, the lock is clean, and one row and one audit are added. |
| Answers.PasswordOf | src/auth/oauth_logic.py:283-359 | The answer, the audit and the lock columns for an inactive user, a locked one, a wrong password and the right one. |
| Answers.PasswordOfNobody | src/auth/oauth_logic.py:283-293 | An attempt at an unknown address is audited without a user and refused. |
| Answers.PasswordNotTaken | src/auth/oauth_logic.py:270-275 | Which requests are refused before a user is looked for, with which error, and that nothing is recorded. |
| Answers.CredentialsOf | src/auth/oauth_logic.py:200-220 | A proved client gets a token for itself exactly if it may use the grant; no table changes. |
| Answers.RefreshOf | src/auth/oauth_logic.py:362-429 | The answer and the tables after a stored token is presented: refused, or rotated into exactly one new row for the same user, whether locked or not. |
| Answers.RefreshOfNothing | src/auth/oauth_logic.py:373-377 | A token that is no stored row's changes nothing, with the error for it. |
| Answers.CodeOf | src/auth/oauth_logic.py:532-580 | The answer and the tables after a code is presented: every refusal, the spending of the code before the lock is looked at, and the tokens. |
| Scopes.UserScopeCanonical | src/auth/oauth_logic.py:54-64 | If what the list grants by default consists of tokens, every granted user scope is canonical: it splits into allowed scopes, sorted, joined by single spaces, not empty unless nothing is allowed. |
| Scopes.ReissuedScope | src/auth/oauth_logic.py:388 | Granting a canonical scope again gives the same string, plus `admin` for a user who holds the role where the client may have it. |
| Scopes.WithAdminSettles | src/auth/oauth_logic.py:58-59 | `admin` is gained at most once, for every scope string, and a canonical scope stays canonical. |
| Scopes.StabilityNeedsTokens | src/auth/oauth_logic.py:60-64 | A family of allowed lists with an entry of two words for which the scope changes at the second grant. |
| Scopes.RegrantedExactly | src/auth/oauth_logic.py:54-64 | For an arbitrary allowed list, granting a scope again to the same user never changes it if and only if the default grant consists of tokens or none of its words is itself an allowed entry. |
| Scopes.StableExactly | src/auth/oauth_logic.py:388 | For an arbitrary allowed list, a granted scope is granted again unchanged, plus `admin` for holders of that role, for all requests and all roles before and after, if and only if the list is stable. |
| Scopes.UserScopeWithinIff | src/auth/oauth_logic.py:54-64 | For an arbitrary allowed list, user scopes stay within it for all requests and roles if and only if its default grant does. |
| Scopes.ClientScopeWithinIff | src/auth/oauth_logic.py:207-209 | For an arbitrary allowed list, client scopes stay within it for all requests if and only if the default of a client does. |
| Scopes.IntersectWithinIff | src/auth/oauth_logic.py:45-51 | The same for intersected scopes and their fallback, the least entry. |
| Scopes.UserAdminExactly | src/auth/oauth_logic.py:54-64 | For an arbitrary allowed list, no request and no roles give a user `admin` if and only if it is not listed and none of the three least entries has it as a word, unless a standard scope is listed. |
| Scopes.ClientAdminExactly | src/auth/oauth_logic.py:207-209 | For an arbitrary allowed list, no request gives a client `admin` if and only if it is not listed and the default of a client does not spell it. |
| Scopes.EntrySpellsAdmin | src/auth/oauth_logic.py:60-64 | A list whose one entry is any scope-token, a space and `admin` lacks `admin` and grants it by default. |
| GrantedScopes.UserScopeExactly | src/auth/oauth_logic.py:54-64 | The words of a user scope are those of the granted entries: the requested allowed ones and `admin` for its holders; else the allowed ones of `openid profile email`; else the three least entries. |
| GrantedScopes.UserScopeSorted | src/auth/oauth_logic.py:64 | A user scope of scope-tokens is written in ascending order without repetition. |
| GrantedScopes.ClientScopeExactly | src/auth/oauth_logic.py:45-51 | The scope of a client is the allowed words of its request, in order and as often as they stand there; else the least allowed entry; if that is empty, all entries in order. |
| ScopeRuns.RefreshScopeStable | src/auth/oauth_logic.py:388-406 | While a stable allowed list stands, every row a row is rotated into, through any run and any role changes, carries its scope string exactly or has gained `admin`. |
| ScopeRuns.CodeScopeStable | src/auth/oauth_logic.py:513-578 | The same from the scope fixed at code registration, through the exchange and all rotations. |
| ScopeRuns.NewScopesGranted | src/auth/oauth_logic.py:323-338 | While any allowed list stands, every scope newly stored for the client was granted under it, which is what the two stability results ask for. |
| ScopeRuns.NewScopesCanonical | src/auth/oauth_logic.py:323-338 | If moreover the default grant consists of tokens, these scopes are canonical. |
| AdminGate.MintedBounded | src/auth/oauth_logic.py:207-214 | Every scope in an access token is on its client's list at mint time, for exactly the lists that bound what they grant, and the reply tells the token's true scope. |
| AdminGate.MintWithoutAdmin | src/auth/jwt_tokens.py:86-114 | A token minted while its client's list cannot yield `admin`, by the two exact conditions, never passes the admin check at any time; nor does a browser-login token. |
| AdminGate.DefaultPasses | src/auth/deps.py:25-29 | Conversely, under a list that spells `admin` by default without listing it, every password login that asks for no scope gets a token that passes, whatever the roles of the user. |
| AdminGate.AdminNeedsAllowedScope | src/auth/deps.py:25-29 | Every token of a run that ever passes the admin check is an access token minted at a step at which its client's list could yield `admin`, listed or spelled by default. |
| BrowserLogins.CodesComeFromLogins | src/auth/oauth_logic.py:126-156 | In every run whose cookies this server signed, the user of each stored code had a successful federated login earlier in the run, less than the lifetime of a browser login before the code was stored. |
| BrowserLogins.CodeTokensComeFromLogins | src/auth/oauth_logic.py:549-580 | A refresh row minted for a code belongs to a user who logged in that way, less than the lifetimes of a browser login and a code together before it was minted. |
| Introspection.RefreshAgreesWithGrant | src/auth/oauth_logic.py:620-659 | Without a hint a refresh token is active if and only if the row gate of the refresh grant passes, and client and subject are those of the token a rotation mints. |
| Introspection.IntrospectExactly | src/auth/oauth_logic.py:643-659 | The answer for every token under every hint: `refresh_token` looks only among stored rows, `access_token` only at signed records, any other hint counts as none; a row is reported with its scope, client and subject exactly while neither revoked nor expired, an access token with its claims exactly while in time. |
| Introspection.HintSpelling | src/auth/oauth_logic.py:650 | Letter case and outer whitespace of a hint do not matter. |
| Revocation.RevokeExactly | src/auth/oauth_logic.py:583-590 | A revocation sets `revoked_at` of the row of the token to now, or leaves it as it was, and touches nothing else; an empty or unknown token changes nothing. |
| Revocation.RevokedForGood | src/auth/oauth_logic.py:583-590 | In every continuation of a run a revoked token is inactive under every hint, and whoever presents it is refused and changes nothing. |
| Revocation.RevocationEndsFamily | src/auth/oauth_logic.py:583-590 | Revoking the unrevoked token of a family ends the family for good: no live row and no new one in any continuation. |
| Introspection.IssuedTokenIntrospects | src/auth/oauth_logic.py:632-640 | A refresh token just handed out introspects with the scope, client and subject of the access token beside it. |
| Introspection.SpentTokenStaysInactive | src/auth/oauth_logic.py:628-629 | A revoked, rotated or expired refresh token is inactive and refused in every continuation. |
| Introspection.AccessReportsClaims | src/auth/oauth_logic.py:593-617 | Without a hint an access token reports exactly the claims it was minted with, up to its expiry second and not after. |
| Introspection.BrowserLoginInactive | src/auth/oauth_logic.py:599-600 | A browser-login token is inactive under every hint. |
| Emails.ReachableEmails | src/routers/admin/actions.py:35-44 | After every run stored e-mail addresses are pairwise distinct and in strip-lower normal form. |
| Emails.SpellingFindsUser | src/auth/oauth_logic.py:277-281 | Every spelling that differs in case and outer whitespace finds exactly the one user. |
| Emails.SyntheticIsNormal | src/auth/federated_login.py:20-21 | The address made up for a Telegram account is in normal form. |
| Text.NormalIdempotent | src/auth/federated_login.py:134 | Normalising an address is idempotent. |
| Federation.LinkIsStable | src/auth/federated_login.py:56-67 | A linked external identity stays linked to the same user, in every run. |
| Federation.LinkedLoginReachesUser | src/auth/federated_login.py:148-156 | After any continuation a login with a linked identity is a login of that user, whatever address it presents, and creates neither user nor link. |
| Federation.LoginLinks | src/auth/federated_login.py:64-101 | A successful login leaves its identity linked to the user it logged in. |
| Federation.TwoLoginsOneUser | src/auth/federated_login.py:56-67 | Any two successful logins with one identity, with anything in between, are logins of the same user. |
| Federation.AtMostOneUserCreated | src/auth/federated_login.py:84-99 | Any number of logins with one identity creates at most one user. |
| Federation.LinksOnlyCustomers | src/auth/federated_login.py:24-27 | A link is only made to a user who is, and if not new was, a customer. |
| FederatedLogins.LoginOfKnown | src/auth/federated_login.py:56-111 | What a verified login of a known user comes to: staff refused, a customer linked, inactive and locked accounts refused with the link kept, all others logged in with tokens and cookie. |
| FederatedLogins.LoginOfNewcomer | src/auth/federated_login.py:84-111 | The first login of somebody unknown adds exactly one active, unlocked customer without failures and roles, of the presented address, links it, and logs it in at once. |
| FederatedLogins.FederatedTokensExactly | src/auth/federated_login.py:114-199 | A verified login through a public client gets tokens if and only if its token is fresh and the identity belongs to an active, unlocked customer or to nobody yet. |
| FederatedLogins.LoginRefused | src/auth/federated_login.py:39-52 | What an assertion that is not verified, or a client that is not public, is answered; nothing changes. |
| Federation.ApartStepExactly | src/auth/federated_login.py:54-99 | One event keeps Telegram users apart if and only if it is no merging edit: a patch that gives a Telegram user the free address of another id that is not linked yet. |
| Federation.DistinctTelegramUsers | src/auth/federated_login.py:54-99 | In runs without merging edits, all other e-mail edits included, different Telegram ids are linked to different users. |
| Federation.MergingEditMerges | src/routers/admin/actions.py:70-75 | After a merging edit, and with anything in between that leaves the address and does not log that id in, its first login that links it, with tokens issued or refused, links it to the same user as the other identity. |
| Federation.EmailEditMergesAccounts | src/routers/admin/actions.py:70-75 | The same for identities of any provider: an e-mail edit followed by a login merges two identities, for all such states. |
| Text.DecimalInjective | src/auth/federated_login.py:54-55 | Printing an integer in decimal is injective. |
| Text.DecimalReadsBack | src/auth/federated_login.py:54-55 | A printed integer reads back from left to right, and has no leading zero. |
| Clients.DistinctIdsRun | src/routers/admin/actions.py:156-172 | Client identifiers stay pairwise distinct through creation, edits and bootstraps. |
| Clients.TokensOnlyToProvenClients | src/routers/oauth/router.py:121-160 | Tokens go only to a client that proved itself and may use the grant, the access token names it, and passwords pass only through confidential clients allowed to take them. |
| Eligibility.MintsOnlyForEligible | src/auth/oauth_logic.py:443-446 | Access tokens are minted only for active users, never for a locked one except by rotation, and by federated login only for customers. |
| Eligibility.StepAccounts | src/routers/admin/actions.py:65-92 | Only admin edits of a user change activity, kind and password, to exactly what the edit says, and a refused edit changes nothing. |
| Eligibility.DeactivatedMintsNothing | src/auth/oauth_logic.py:381-387 | Once deactivated, and until reactivated, a user gets no further access token by any grant in any run. |
| Redirects.AuthorizeLocation | src/auth/oauth_logic.py:90-171 | Every redirect goes to a registered URI with its scheme, authority, path, fragment and own query parameters kept, returns the state verbatim, and carries a code exactly if one was stored, for the active unlocked customer of the login cookie and a public client. |
| AuthorizeAnswers.AuthorizeOf | src/auth/oauth_logic.py:90-171 | Every request of a known client: which error and description are sent, in which order they are looked for, and, if there is none, the one row that is stored and the code that is sent. |
| AuthorizeAnswers.AuthorizeOfNobody | src/routers/oauth/router.py:67-99 | A request of an unknown client is refused without a redirect, and nothing changes. |
| AuthorizeAnswers.MethodExactly | src/auth/oauth_logic.py:118-119 | The only challenge method accepted is S256, in any letter case. |
| Flows.CodeFlow | src/routers/oauth/router.py:67-180 | End to end: a code handed out can be exchanged at any time in its life by its client with its verifier, for the cookie's user and with the scope fixed at registration, and exactly once. |
| Flows.CodeFlowRun | src/routers/oauth/router.py:67-180 | With any run between redirect and exchange, the client gets tokens for its code, with the verifier it was requested for, if and only if code, client and user are still good at that moment. |
| Flows.RotationFlowRun | src/auth/oauth_logic.py:373-429 | With any run after a rotation, the old token is refused to every client and changes nothing, and the new one is accepted if and only if it is live, the client allowed the grant, and the user active. |
| Flows.RotationFlow | src/auth/oauth_logic.py:373-429 | After a rotation the old token is refused and nothing changes, and the new token is accepted throughout its life. |
| Storefront.FirstLoginFlow | src/routers/oauth/federated_router.py:86-103 | From nothing to tokens: the first login of an identity makes an account, its cookie, while it lives, gets a code, and the code is exchanged within its life exactly once. |
| Urls.AppendedQuery | src/auth/oauth_urls.py:8-14 | Parsing the result gives the same scheme, authority, path, path parameters and fragment, and exactly the old query parameters, last duplicate winning, overridden by the new ones; it fails exactly for URLs that do not parse. |
| Urls.BaseKeptExactly | src/auth/oauth_urls.py:10-14 | The text before the query comes out as it went in if and only if the URL is tidy. |
| UrlParts.PrintedAgain | src/auth/oauth_urls.py:10-14 | Printing the components before the query and splitting again yields the same components. |
| UrlParts.FrontKeptExactly | src/auth/oauth_urls.py:14 | The printed text is the written one if and only if the scheme is in lower case, `//` stands exactly where it is printed, and no lone semicolon ends the path. |
| Urls.PrintedQueryParses | src/auth/oauth_urls.py:11-13 | Parsing undoes printing for every parameter map, and the printed query holds no `#`. |
| Urls.AppendIdempotent | src/auth/oauth_urls.py:8-14 | Appending the same parameters again is the identity. |
| Urls.AppendTwice | src/auth/oauth_urls.py:8-14 | Appending twice is appending the combined parameters once. |
| Urls.DecodeQuoted | src/auth/oauth_urls.py:12-13 | Percent-decoding undoes percent-encoding for every string. |
| Escapes.TripletIsOctet | src/auth/oauth_urls.py:11 | A percent triplet stands for the octet of its two digits, in either letter case and inside any text. |
| Escapes.TripletIsCharacter | src/auth/oauth_urls.py:11 | For octets below 128 the same for the characters that are read from a field of any characters. |
| Escapes.LonePercent | src/auth/oauth_urls.py:11 | A percent sign that no two hexadecimal digits follow stands for itself. |
| Escapes.CaseOfTriplets | src/auth/oauth_urls.py:8-14 | URLs whose queries differ only in the letter case of triplets have the same parameters and come out alike. |
| Escapes.SegmentsRead | src/auth/oauth_urls.py:11 | A query is read segment by segment between ampersands, and empty segments are skipped. |
| Escapes.SegmentRead | src/auth/oauth_urls.py:11 | A segment is read as the name and value around its first equals sign, or as a name with an empty value. |
| Escapes.LastCounts | src/auth/oauth_urls.py:11 | Of several values for one name the last one counts. |
| Escapes.QuotedInCapitals | src/auth/oauth_urls.py:13 | What is printed is in the normal form of RFC 3986: all triplets in capitals. |
| Escapes.QuotedUnchanged | src/auth/oauth_urls.py:13 | Exactly the texts of unreserved characters are printed as they are. |
| Utf8.Utf8RoundTrip | src/auth/oauth_urls.py:12-13 | UTF-8 decoding undoes encoding for every string. |
| Utf8.DecodeOneExactly | src/auth/oauth_urls.py:11 | For any octets: a whole encoding is read as its character; otherwise one replacement character stands for the longest start of an encoding, or for one octet. |
| TelegramWidget.Verify | src/auth/federated_verify.py:16-42 | The method with its early exits decides exactly the specified verdict. |
| TelegramWidget.CollectPairs | src/auth/federated_verify.py:31-39 | The loop over all sorted keys prints the check string of the signed pairs. |
| CheckStrings.ReadBackExactly | src/auth/federated_verify.py:31-39 | From every check string a payload over the same keys can be read that hides nothing and prints it again; it is the signed payload if and only if that hides nothing. |
| CheckStrings.CheckStringDetermines | src/auth/federated_verify.py:31-39 | For payloads of any size, line breaks included, check strings are equal if and only if they read the same; for payloads that hide nothing, if and only if the payloads are equal. |
| CheckStrings.HidesNothingExactly | src/auth/federated_verify.py:38-39 | A payload hides nothing if and only if no other payload with its check string does. |
| CheckStrings.HidingCollides | src/auth/federated_verify.py:38-39 | Every payload that hides the pair of a later key has the check string of a different payload over the same keys. |
| CheckStrings.SignatureBindsPayload | src/auth/federated_verify.py:40-42 | With a collision-free HMAC, a signature is good for exactly the payloads whose check string reads the same; among those that hide nothing, for exactly one. |
| TelegramIds.HashNamesIdExactly | src/routers/oauth/federated_router.py:41-58 | With a collision-free HMAC, the hash of an accepted request is accepted for a second id, then or later, if and only if its first name, or its fields after the id, spell another id in the stated form. |
| TelegramIds.SpelledIdLogsIn | src/auth/federated_login.py:41-54 | A request that spells another id is accepted exactly when one for that id with the same hash is, and that one is a login of the other account. |
| TelegramIds.HashBindsId | src/auth/federated_login.py:54-55 | With a collision-free HMAC, an accepted hash stands for one id and one date among all requests whose first name spells no other id. |
| TelegramIds.HashBindsPayload | src/routers/oauth/federated_router.py:41-58 | With a collision-free HMAC, an accepted hash is accepted for exactly the same id, date and profile among requests that hide nothing. |
| TelegramIds.VerdictReads | src/auth/federated_verify.py:19-42 | A request is accepted exactly if its hash is the code of its signed text and its date at most a day old; when the comparison raises is stated as well. |
| Pkce.OwnChallengeMatches | src/auth/oauth_logic.py:32-42 | Every verifier of the grammar matches its own challenge, whatever `=` padding and outer whitespace it was sent with, also after being stored. |
| Pkce.AcceptedExactly | src/auth/oauth_logic.py:32-42 | Acceptance means that the trimmed challenge is the 43-letter encoding of the verifier's digest; when the comparison raises is stated as well. |
| Pkce.ChallengeBinds | src/auth/oauth_logic.py:36-42 | Verifiers accepted for one challenge have one digest. |
| Pkce.TrailingNewlineMatches | src/auth/oauth_logic.py:29 | A verifier with one trailing newline is outside the grammar and still accepted. |
| Pkce.RegexExactly | src/auth/oauth_logic.py:29 | The regular expression lets through the grammar, and beyond it one newline at the end and nothing else. |
| Pkce.GrammarExactly | src/auth/oauth_logic.py:29 | The grammar in characters: 43 to 128 of the base64url alphabet, the dot and the tilde. |
| Base64.B64uRoundTrip | src/auth/jwt_tokens.py:67-70 | For n > 0 decoding gives n back, and no shorter octet string holds n. |
| Base64.B64uInjective | src/auth/jwt_tokens.py:67-70 | The encoding of integers is injective. |
| Base64.OctetLengthMinimal | src/auth/jwt_tokens.py:68 | `(bit_length + 7) // 8` octets are the fewest that hold n. |
| Base64.DecodeUnpadded | src/auth/jwt_tokens.py:70 | Decoding undoes unpadded base64url for octet strings of every length. |
| Base64.LettersSpell | src/auth/jwt_tokens.py:70 | Read as digits to the base of 64 the letters spell the number of the octets, filled up with zero bits. |
| Base64.LettersExactly | src/auth/jwt_tokens.py:70 | Each letter stands for its position in the alphabet of RFC 4648, section 5, and no other character for anything. |
| Restarts.BootstrapIdempotent | src/auth/bootstrap.py:11-16 | A second bootstrap changes nothing, from every state. |
| Restarts.BootstrapKeeps | src/auth/bootstrap.py:51-86 | Bootstrap keeps users, tokens and clients; it only appends to the two lists of the public client and adds missing rows. |
| Restarts.PublicClientCompleted | src/auth/bootstrap.py:51-86 | After a start an existing public client has both grants and every configured redirect URI, and nothing else was added to its lists. |
| FreshServer.AdminLogsIn | src/auth/bootstrap.py:19-107 | On a server without its operators a start makes them, and the administrator can log in at once through the client of the deployment and gets a token that passes the admin check. |
| FreshServer.PublicClientMade | src/auth/bootstrap.py:51-72 | A start makes the missing public client with the configured URIs, for codes and refresh tokens and the standard scopes. |
| FreshServer.CreatedUserLogsIn | src/routers/admin/actions.py:33-50 | A user is created exactly if the address is free, and can then log in at once with any spelling of it. |
| FreshServer.PatchedUserLogsIn | src/routers/admin/actions.py:65-83 | A new address and password are taken exactly if the address is the user's own or free, and the user can then log in with both unless locked. |
| FreshServer.CreatedClientGetsToken | src/routers/admin/actions.py:156-172 | A client is created exactly if its identifier is free; without lists it may do everything, and gets a token for itself with its secret, for the scope `email`. |
| AdminEdits.ReplacedRoles | src/routers/admin/actions.py:95-108 | Replacing roles succeeds exactly for distinct known names, then grants exactly those, and touches nothing else. |
| AdminEdits.AddedRoles | src/routers/admin/actions.py:111-126 | Adding roles succeeds exactly for known names, then adds exactly those, and never loses a role. |
| AdminEdits.RolesUpTo | src/routers/admin/actions.py:95-126 | Replacing and adding stop at the first unknown name with the names before it in effect; a repetition before that point fails the replacement and changes nothing. |
| AdminEdits.PatchedClient | src/routers/admin/actions.py:187-207 | A client patch sets each given column and no other, and never fails for a known client. |
| Invariants.ReachableConsistent | src/routers/oauth/router.py:102-189 | All invariants hold together after every sequence of requests, admin edits and restarts. |
| Service.AuthServer.BumpFailedLogin | src/auth/oauth_logic.py:223-232 | Adds one failure to the user of this address and locks at the fifth; other users keep their rows. |
| Service.AuthServer.StartChain | src/auth/oauth_logic.py:320-359 | The reset, the new row and the audit in place, and a reply that says whether the hash clashes. |
| Service.AuthServer.IssueTokensForUser | src/auth/oauth_logic.py:432-486 | The gated issue in place: nothing if it is refused, otherwise all of its changes. |
| Service.AuthServer.DoGrantPassword | src/auth/oauth_logic.py:260-359 | The password grant in place equals its function, with every refusal, audit and bump; on a clash it leaves what the endpoint rolls back. |
| Service.AuthServer.DoGrantRefresh | src/auth/oauth_logic.py:362-429 | The rotation, written as three updates of two rows, equals its function; on a clash it leaves the row revoked and the successor unlinked. |
| Service.AuthServer.DoGrantCode | src/auth/oauth_logic.py:532-580 | The exchange in place equals its function, with the code consumed before the issue is gated; on an exception it leaves what was done until then. |
| Service.AuthServer.PostToken | src/routers/oauth/router.py:102-180 | The token endpoint performs its step of the machine, rolls back on a clash, and keeps all invariants. |
| Service.AuthServer.PostRevoke | src/auth/oauth_logic.py:583-590 | Revocation performs its step and keeps all invariants. |
| Service.AuthServer.RegisterAuthorizationCode | src/auth/oauth_logic.py:489-529 | Stores exactly the specified row, or refuses with the specified error and stores nothing. |
| Service.AuthServer.GetAuthorize | src/routers/oauth/router.py:67-99 | The authorization endpoint performs its step and keeps all invariants. |
| Service.AuthServer.LinkOrCreate | src/auth/federated_login.py:56-101 | Linking or creating in place equals the resolution function. |
| Service.AuthServer.LoginWithTelegram | src/auth/federated_login.py:30-111 | The Telegram endpoint performs its step and keeps all invariants. |
| Service.AuthServer.LoginWithGoogle | src/auth/federated_login.py:114-199 | The Google endpoint performs its step and keeps all invariants. |
| Service.AuthServer.AdminCreateUser | src/routers/admin/actions.py:33-50 | Performs its step and keeps all invariants. |
| Service.AuthServer.AdminPatchUser | src/routers/admin/actions.py:65-83 | Performs its step and keeps all invariants. |
| Service.AuthServer.AdminDeleteUser | src/routers/admin/actions.py:86-92 | Performs its step and keeps all invariants. |
| Service.AuthServer.DoReplaceRoles | src/routers/admin/actions.py:95-108 | The loop that re-grants roles one by one equals its function, with the roll-back on a repeated name and the partial change before an unknown one. |
| Service.AuthServer.AdminReplaceRoles | src/routers/admin/actions.py:95-108 | Performs its step, unknown users included, and keeps all invariants. |
| Service.AuthServer.DoAddRoles | src/routers/admin/actions.py:111-126 | The loop that adds missing roles equals its function. |
| Service.AuthServer.AdminAddRoles | src/routers/admin/actions.py:111-126 | Performs its step, unknown users included, and keeps all invariants. |
| Service.AuthServer.AdminCreateClient | src/routers/admin/actions.py:156-172 | Performs its step and keeps all invariants. |
| Service.AuthServer.AdminPatchClient | src/routers/admin/actions.py:187-207 | Performs its step and keeps all invariants. |
| Service.MergeInto | src/auth/bootstrap.py:73-83 | The merge loop computes the merged list, and its flag says whether the list changed. |
| Service.AuthServer.DoEnsureMarketClient | src/auth/bootstrap.py:51-86 | Creates the public client or completes its lists in place. |
| Service.AuthServer.RunBootstrap | src/auth/bootstrap.py:11-16 | The bootstrap performs its step and keeps all invariants. |
| Service.AuthServer.Advance | src/auth/oauth_logic.py:376 | Time that passes between requests keeps all invariants. |

## Left out

- Overlapping requests: the code takes no row locks, so single use and rotation are not claimed for them.
- Client deletion and the cascades of the database: they remove rows, and what they remove is defined by the ORM.
- FastAPI routing, OpenAPI, error envelopes, CORS, metrics, health checks, Redis, configuration loading and session tracking.
- Cryptography and I/O: Argon2, RSA signatures, SHA-256, HMAC, the fetch of Google's keys, and the loading and caching of the signing key.
- Who may call the admin API, and the listing endpoints and `/oauth/userinfo`, which only read.
- Columns nothing depends on: creation times, addresses and user agents of audits, and the second-factor flag.
- Column lengths: a value too long for its column fails in the database.
- Zero or negative lifetimes in the configuration.
- Lower-casing of a final sigma, which depends on its neighbours; the model lower-cases character by character.
- Strings with lone surrogates, which cannot be encoded or stored.
- Changes of the configuration between restarts.
