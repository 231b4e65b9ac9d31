# ga-water: a verified model of the request guard, account approval, data import and analytics logic

ga-water is a web application for browsing Georgia's public drinking-water data. The data comes from SDWIS, the federal Safe Drinking Water Information System. The application runs on Next.js with a hosted Postgres backend. Most of it is markup around backend queries. The parts that decide something are modelled here, one Dafny module per source file:

- **RouteGuard** (`middleware.ts`): the request guard. It classifies paths by prefix or exact match. It sends anonymous users away from guarded pages and signed-in users away from the login pages. On guarded pages it consults the account's profile: approval status comes before role, a missing profile counts as pending, and any other lookup failure lets the request through.
- **EdgeMiddleware** (`src/middleware.ts`): a fixed-window counter of 100 requests per 15 minutes per client, kept in a process-wide map, and a user-agent block list. It is a class whose map field is updated in place; the time is a parameter.
- **Security** (`src/lib/security.ts`): `sanitizeInput`, the `RateLimiter` class (`isAllowed`, `cleanup`) and the PWSID, email and phone validators. The regular expressions are written out as predicates over characters. The `javascript:` and `on\w+=` replacements make a single pass, so deleting a match can join its neighbours into a new one (`StripJavascriptReforms`).
- **Permissions** (`src/lib/auth.tsx`): the role-to-permission table, `hasPermission`, `hasRole` and the two gating components.
- **UserManagement** (`src/lib/repository/user-management.ts`): the first-row rule of the profile lookups, the admin and approval checks, the listing defaults and the user statistics.
- **AuthState** (`src/lib/contexts/AuthContext.tsx`): the auth context as a class holding user, session and profile. It models the derived flags, `signOut`, `refreshProfile`, `refreshSession` and the effect that clears the profile when the user goes away.
- **AdminDashboard** (`src/app/admin/page.tsx`): the user filter, the approve and reject handlers with their guards, the rejection dialog, and the rule that only pending accounts get row actions.
- **LoginPage** (`src/app/auth/login/page.tsx`): the field validators and the order in which they are reported. It models the login, sign-up and password-reset handlers. Every sign-up is forced to `pending_approval`.
- **DataImport** (`src/lib/data-import.ts`): the `|| null` mapping, `parseDate`, `parseNumber`, `validateCSVStructure`, and the batch loop of `importViolations`. The batch loop sends upserts of 1000 rows, and the backend's answer to each upsert is an oracle.
- **AnalyticsRepo** (`src/lib/repository/analytics.ts`): the month-by-category grouping, the per-system counts and the top-k selection. It also models the per-county roll-up and the geographic distribution.
- **AnalyticsPage** (`src/app/analytics/page.tsx`): the category totals, the rounded percentages, the ordering, and the cut to ten counties and six months.
- **DataDictionary** (`src/lib/data-dictionary.ts`): the thirteen code tables with the `'Unknown'` fallback, the health-based test and the two colour classifiers.
- **MapComponent** (`src/components/map-component.tsx`): the violation-count buckets and the county table with its FULTON fallback. It also models the 32-bit string hash that places markers without a county, and what the component renders.

Three helper modules carry the host language's semantics:
- **Wrappers**: `Option` and `Result`.
- **JsString**: JavaScript strings as sequences of UTF-16 code units. It covers `trim` with the ECMAScript white-space set, ASCII case mapping, `includes`, `split`, `padStart`, `ToInt32` and the truncating `%`.
- **OrderedMap**: insertion-ordered maps, which is how a JavaScript `Map` or plain object enumerates its entries, plus a stable descending sort.

Every backend call becomes an input saying what the call answered: rows, an error, or an exception. Where the source updates state in place, the model is a class with `modifies` clauses: the rate-limit map, the React state of the auth context, the dashboard and the login form, and the page state of the analytics page. Where the source runs a loop (the batch loop of data-import.ts, the `reduce` and `forEach` accumulators of analytics.ts, and the analytics page's nested `forEach`), the model is a method with loop invariants, proved equal to a recursive specification function. The two folds that only compute a value, the id hash of the map component and the page's `totalViolations` sum, are recursive functions. The properties are then lemmas about that function.

Two properties follow from the code rather than from its comments:
- `AuthState.AuthProvider.SignOut` clears the user, session and profile whenever the backend call returns, even with an error. Only an exception leaves the state intact, because the returned error is never inspected (`src/lib/contexts/AuthContext.tsx:59-67`).
- The `MM-DD-YYYY` branch of `parseDate` can never be reached (`DataImport.DashedBranchUnreachable`).

## Model

| member | source | states |
|---|---|---|
| JsString.Trim | src/lib/data-import.ts:298 | `trim()` leaves no white space at either end and never lengthens the string |
| JsString.TrimAtLeastTwo | src/app/auth/login/page.tsx:52-58 | a string trims to two or more characters exactly when it holds two characters that are not white space |
| JsString.Split | src/lib/data-import.ts:305 | `split` on one character gives at least one part, no part holds the separator, joining the parts gives the string back, and one part exactly when the separator is absent |
| JsString.SplitConcat | src/lib/data-import.ts:305 | splitting `a + sep + b` yields `a` and then the parts of `b` |
| JsString.PadStart | src/lib/data-import.ts:306 | `padStart` keeps a long enough string and otherwise fills on the left up to the width, ending with the string |
| JsString.ToInt32 | src/components/map-component.tsx:177 | `a & a` lands in the signed 32-bit range and agrees with its argument modulo 2^32 |
| JsString.Remainder | src/components/map-component.tsx:180-181 | `%` truncates: the remainder has the dividend's sign and is smaller than the divisor in magnitude |
| RouteGuard.ProfileCheck | middleware.ts:51-79 | a fetched profile can only allow the request or redirect to pending-approval, account-rejected, account-suspended or settings, never with a `redirectTo` |
| RouteGuard.Decide | middleware.ts:29-86 | the only outcomes are "allow" or a redirect to login, settings, pending-approval, account-rejected or account-suspended; only the login redirect carries `redirectTo`, and it is the requested path |
| RouteGuard.ProtectedByPrefix | middleware.ts:15-21 | any path that starts with `/settings` or `/admin`, whatever follows, is protected |
| RouteGuard.IsProtected | middleware.ts:19-21 | no contract; `startsWith` on a protected route, stated by ProtectedByPrefix and PrefixExamples |
| RouteGuard.IsAuthRoute | middleware.ts:22-24 | no contract; `startsWith` on an auth route, stated by AuthRoutesApart and SignedInAuthRoute |
| RouteGuard.IsPublic | middleware.ts:25-27 | no contract; exact equality with a public route, stated by PrefixExamples |
| RouteGuard.PrefixExamples | middleware.ts:19-27 | `/settingsX` and `/administrator` are protected; public routes match only exactly, so `/analytics/` is not public |
| RouteGuard.AnonymousProtected | middleware.ts:30-34 | an anonymous request to a protected path redirects to `/auth/login` with `redirectTo` set to the path, whatever the lookup would say |
| RouteGuard.AuthRoutesApart | middleware.ts:15-24 | an auth path is neither protected nor public |
| RouteGuard.SignedInAuthRoute | middleware.ts:37-39 | a signed-in request to a path starting with `/auth/login` or `/auth/signup` redirects to `/settings` before any lookup, whatever the account status |
| RouteGuard.LookupIrrelevant | middleware.ts:42-86 | the profile result changes the decision only when a session exists and the path is protected or exactly public |
| RouteGuard.OtherSignedInAllowed | middleware.ts:42-86 | a signed-in request to any other path is allowed |
| RouteGuard.StatusBeforeRole | middleware.ts:61-73 | `pending_approval`, `rejected` and `suspended` redirect to their pages whatever the role and the path |
| RouteGuard.AdminGate | middleware.ts:76-78 | on an `/admin` path an account not blocked by its status is allowed iff its role is `admin`, else redirected to `/settings` |
| RouteGuard.FailOpen | middleware.ts:51-86 | error code `PGRST116` redirects to pending-approval; any other error, no row, or a thrown exception allows the request |
| EdgeMiddleware.OrElse | src/middleware.ts:12-14 | `a \|\| b` on a header: a present, non-empty value is kept, a missing or empty one falls through |
| EdgeMiddleware.ClientKey | src/middleware.ts:12-14 | the client key `x-forwarded-for \|\| x-real-ip \|\| 'unknown'` is never empty |
| EdgeMiddleware.Throttle | src/middleware.ts:19-28 | the counter step keeps every other key's record unchanged and leaves the requesting key in the store |
| EdgeMiddleware.Respond | src/middleware.ts:19-50 | 429 exactly when the counter refuses; 403 exactly when it admits and the user agent matches a pattern; the store is the counter's in every case; a passed request carries the three security headers |
| EdgeMiddleware.SameAsRateLimiter | src/middleware.ts:16-28 | the middleware's counter is `RateLimiter.isAllowed` with 100 requests per 900000 ms (src/lib/security.ts:39-53) |
| EdgeMiddleware.FreshWindow | src/middleware.ts:26-28 | an absent or expired record becomes count 1 with `resetTime = now + 900000`, and the request is not rate-limited |
| EdgeMiddleware.OverLimit | src/middleware.ts:21-24 | within a live window, a request at count 100 or more gets 429 and leaves the store unchanged, even with a blocked user agent |
| EdgeMiddleware.BlockedAgentConsumesQuota | src/middleware.ts:19-48 | under the limit, a blocked user agent gets 403 but its request is still counted |
| EdgeMiddleware.SuspiciousIff | src/middleware.ts:37-46 | a user agent is blocked iff its ASCII-lowered form contains `bot`, `crawler`, `spider`, `scraper`, `curl` or `wget` |
| EdgeMiddleware.IsSuspicious | src/middleware.ts:36-46 | no contract; one of the six case-insensitive patterns matches the agent, stated by SuspiciousIff, MissingAgentPasses and MixedCaseBlocked |
| EdgeMiddleware.MissingAgentPasses | src/middleware.ts:36 | a missing user agent is checked as `''` and is not blocked |
| EdgeMiddleware.MixedCaseBlocked | src/middleware.ts:38-44 | matching ignores case: `CURL/8.0` is blocked |
| EdgeMiddleware.RespondBounded | src/middleware.ts:17-28 | if every stored count is between 1 and 100, it still is after a request |
| EdgeMiddleware.Middleware.constructor | src/middleware.ts:5 | the store starts empty |
| EdgeMiddleware.Middleware.Handle | src/middleware.ts:8-51 | the response and the new store are those of `Respond`; other keys' records are unchanged; the 1..100 bound on counts is preserved |
| Security.StripAngles | src/lib/security.ts:29 | the result holds no `<` or `>`, and every other character keeps its multiplicity |
| Security.StripJavascript | src/lib/security.ts:30 | the result is never longer, and what is removed comes in whole 11-character matches |
| Security.StripJavascriptMultiset | src/lib/security.ts:30 | deleting the matches of `javascript:` only removes characters |
| Security.StripJavascriptNoMatch | src/lib/security.ts:30 | a string in which no position starts a case-insensitive `javascript:` comes back unchanged |
| Security.StripJavascriptKeep | src/lib/security.ts:30 | characters before the first match are copied unchanged |
| Security.StripJavascriptLeftmost | src/lib/security.ts:30 | with the leftmost match at `p`, the result is the text before `p`, then the replacement applied to what follows the match: leftmost, non-overlapping, global deletion |
| Security.StripJavascriptReforms | src/lib/security.ts:30 | a single pass over a match nested in another after its fourth character, such as `javajavascript:script:`, leaves a match |
| Security.WordRunEnd | src/lib/security.ts:31 | the greedy `\w+` run starting at `i` ends at the first non-word character |
| Security.HandlerMatch | src/lib/security.ts:31 | a match of `on\w+=` at the start is at least four characters long and ends with `=` |
| Security.StripHandlers | src/lib/security.ts:31 | the result is never longer than the input |
| Security.StripHandlersMultiset | src/lib/security.ts:31 | deleting the matches of `on\w+=` only removes characters |
| Security.StripHandlersNoMatch | src/lib/security.ts:31 | a string in which no position starts an `on\w+=` match comes back unchanged |
| Security.StripHandlersKeep | src/lib/security.ts:31 | characters before the first match are copied unchanged |
| Security.StripHandlersSkip | src/lib/security.ts:31 | a match at the start is deleted whole and the scan resumes after it |
| Security.StripHandlersLeftmost | src/lib/security.ts:31 | with the leftmost match at `p`, the result is the text before `p`, then the replacement applied to what follows the whole match |
| Security.Prefix | src/lib/security.ts:32 | `substring(0, n)` is a prefix of at most `n` characters |
| Security.SanitizeInput | src/lib/security.ts:26-33 | the output has at most 1000 characters, contains no `<` or `>`, and uses no character more often than the input |
| Security.StripAnglesNoop | src/lib/security.ts:29 | a string without `<` or `>` passes the bracket removal unchanged |
| Security.SanitizeClean | src/lib/security.ts:26-33 | an input already trimmed, at most 1000 characters long, and free of angle brackets, `javascript:` and `on\w+=` matches comes back unchanged |
| Security.TrimMultiset | src/lib/security.ts:28 | trimming only removes characters |
| Security.Allowed | src/lib/security.ts:43-52 | `isAllowed` refuses iff a record exists, its window is live (`now < resetTime`) and its count is at least `maxRequests` |
| Security.AfterRequest | src/lib/security.ts:43-50 | only the caller's record changes; an absent or expired record becomes `{count: 1, resetTime: now + windowMs}`; a live window keeps its `resetTime` |
| Security.AfterRequestBounded | src/lib/security.ts:39-50 | with a fixed limit of at least 1, stored counts stay between 1 and the limit |
| Security.ZeroLimitStoresOne | src/lib/security.ts:43-50 | with `maxRequests` 0 a first request is still admitted and stores count 1, above the limit |
| Security.Run | src/lib/security.ts:39-53 | a run of calls answers once per call |
| Security.RunInWindow | src/lib/security.ts:43-47 | inside one live window with count `c`, the `i`-th further call is admitted iff `c + i < maxRequests`, and the window's end does not move |
| Security.Burst | src/lib/security.ts:43-50 | for a burst inside the window its first call opens, exactly the first `maxRequests` calls are admitted (always the first) |
| Security.RateLimiter.constructor | src/lib/security.ts:37 | the store starts empty |
| Security.RateLimiter.IsAllowed | src/lib/security.ts:39-53 | the answer is `Allowed` and the new store is `AfterRequest` of the old one |
| Security.RateLimiter.IsAllowedByDefault | src/lib/security.ts:39 | with the arguments omitted, the limit is 100 requests and the window 900000 ms: the answer is `Allowed` and the new store `AfterRequest` under those defaults |
| Security.RateLimiter.Cleanup | src/lib/security.ts:55-62 | exactly the entries with `now > resetTime` are deleted; the rest are unchanged |
| Security.CleanupBoundary | src/lib/security.ts:43-58 | a record with `now == resetTime` survives `cleanup` although `isAllowed` already treats it as expired |
| Security.ValidatePwsid | src/lib/security.ts:66-68 | true iff the string has length 9 and every character is in A–Z or 0–9 |
| Security.ValidateEmail | src/lib/security.ts:70-72 | true iff the string splits as local `@` host `.` last with all three parts non-empty and free of white space and `@` |
| Security.EmailSound | src/lib/security.ts:71 | a single `@` after a non-empty local part, no white space and a `.` strictly inside the domain give a match |
| Security.EmailPattern | src/lib/security.ts:71 | no contract; some split as local `@` host `.` last, stated by ValidateEmail, EmailSound and EmailComplete |
| Security.EmailComplete | src/lib/security.ts:71 | a match has exactly one `@`, no white space, and a `.` strictly inside the domain |
| Security.StripPhonePunct | src/lib/security.ts:75 | the stripped number holds no white space, `-`, `(` or `)` |
| Security.PhoneDigits | src/lib/security.ts:75 | `[\+]?` removes exactly one leading `+`, if there is one |
| Security.ValidatePhone | src/lib/security.ts:74-76 | true iff the number with spaces, dashes and parentheses removed is an optional `+`, then a digit 1–9, then at most 15 further digits |
| Security.PhonePatternShape | src/lib/security.ts:75 | the pattern, read as "drop one leading `+`, then 1–9 and up to 15 digits", accepts exactly the strings of the two-case shape, in both directions |
| Security.PhonePattern | src/lib/security.ts:75 | no contract; one optional `+`, then 1–9 and at most 15 digits, stated by PhonePatternShape |
| Security.StripNoPunct | src/lib/security.ts:75 | a string of digits and `+` has nothing removed by the punctuation replacement |
| Security.PhoneLengthLimit | src/lib/security.ts:75 | sixteen digits with a non-zero first digit are accepted with or without `+`; seventeen or more digits never are |
| Security.PhoneFirstDigit | src/lib/security.ts:75 | a leading zero is refused, after `+` too, and a `+` anywhere but first is refused |
| Security.StripPhonePunctConcat | src/lib/security.ts:75 | stripping distributes over concatenation |
| Security.PhoneIgnoresPunct | src/lib/security.ts:74-76 | inserting a space, `-`, `(` or `)` anywhere does not change the verdict |
| Permissions.PermissionsOf | src/lib/auth.tsx:163-172 | `rolePermissions[role] \|\| []`: a role in the table gets its list, any other role the empty list |
| Permissions.HasPermission | src/lib/auth.tsx:159-174 | true iff a profile exists and the permission is in its role's list |
| Permissions.HasRole | src/lib/auth.tsx:177-179 | true iff a profile exists and its role equals the argument |
| Permissions.RequirePermission | src/lib/auth.tsx:211-227 | the children when `hasPermission` passes, the fallback otherwise |
| Permissions.RequireRole | src/lib/auth.tsx:230-246 | the children when `hasRole` passes, the fallback otherwise |
| Permissions.NoProfileNoAccess | src/lib/auth.tsx:159-179 | with no profile, `hasPermission` and `hasRole` are false for every argument |
| Permissions.PublicData | src/lib/auth.tsx:164-170 | every role in the table grants `read_public_data`, and `public` grants nothing else |
| Permissions.AdminSuperset | src/lib/auth.tsx:164-170 | any permission some role grants, `admin` grants too |
| Permissions.ExclusivePermissions | src/lib/auth.tsx:164-170 | `manage_users` and `manage_system` belong to `admin` alone, `import_data` to `epd_staff` and `admin` alone, `view_analytics` to every listed role except `public` |
| Permissions.UnknownRoleGrantsNothing | src/lib/auth.tsx:172-173 | a role missing from the table grants nothing |
| Permissions.ActiveFlagIgnored | src/lib/auth.tsx:159-174 | flipping `is_active` never changes `hasPermission` |
| Permissions.GatesRenderChildrenIff | src/lib/auth.tsx:211-246 | each wrapper renders its children iff its check is true |
| UserManagement.GetUserProfile | src/lib/repository/user-management.ts:44-61 | a procedure error becomes a thrown error with the `Failed to fetch user profile: ` prefix; otherwise the first row, or none when there are no rows |
| UserManagement.GetCurrentUserProfile | src/lib/repository/user-management.ts:66-76 | none when nobody is signed in, else the profile lookup for the signed-in user |
| UserManagement.IsCurrentUserAdmin | src/lib/repository/user-management.ts:81-89 | true iff the lookup succeeded with a profile whose role is `admin` and whose status is `approved` |
| UserManagement.IsCurrentUserApproved | src/lib/repository/user-management.ts:94-102 | true iff the lookup succeeded with a profile whose status is `approved` |
| UserManagement.AdminIsApproved | src/lib/repository/user-management.ts:81-102 | admin implies approved; both checks are false with no profile or when the lookup throws |
| UserManagement.StringOr | src/lib/repository/user-management.ts:134-135 | `x \|\| null` on a filter: a missing or empty string becomes null |
| UserManagement.NumberOr | src/lib/repository/user-management.ts:136-137 | `x \|\| d` on a number: missing and 0 both become the default |
| UserManagement.GetAllUsersArgs | src/lib/repository/user-management.ts:133-138 | the procedure never receives an empty status or role filter, nor a limit of 0 |
| UserManagement.ListDefaults | src/lib/repository/user-management.ts:134-137 | no filters send null status and role, limit 50 and offset 0; a limit of 0 also becomes 50 |
| UserManagement.GetAllUsers | src/lib/repository/user-management.ts:130-150 | a procedure error is thrown with the `Failed to fetch users: ` prefix; otherwise the rows, or none for a null answer |
| UserManagement.Count | src/lib/repository/user-management.ts:261-269 | a count of the users with a given status or role never exceeds the number of users |
| UserManagement.GetUserStats | src/lib/repository/user-management.ts:249-278 | fails exactly when the listing fails; `total` is the number of users fetched |
| UserManagement.StatsListArgs | src/lib/repository/user-management.ts:257 | the statistics list with limit 1000, offset 0 and no filters |
| UserManagement.StatusBuckets | src/lib/repository/user-management.ts:261-263 | pending, approved, rejected and suspended together never exceed the users, and equal them iff every status is one of the four |
| UserManagement.StatsBucketsBounded | src/lib/repository/user-management.ts:259-263 | `pending + approved + rejected`, plus the suspended users that no bucket counts, is at most `total` |
| UserManagement.RoleBuckets | src/lib/repository/user-management.ts:264-270 | the five role counts together never exceed the users, and equal them iff every role is one of the five |
| UserManagement.StatsByRoleSum | src/lib/repository/user-management.ts:264-270 | when every role is one of the five, the `byRole` counts sum to `total` |
| AuthState.DeriveFlags | src/lib/contexts/AuthContext.tsx:113-116 | `isAuthenticated` iff a user; `isApproved` iff a profile with status `approved`; `isAdmin` iff also role `admin`; `userRole` is the profile's role, or null without a profile or for an empty role |
| AuthState.FlagsChain | src/lib/contexts/AuthContext.tsx:114-116 | `isAdmin` implies `isApproved`, which implies a profile; no profile gives a null `userRole` |
| AuthState.FlagsAgreeWithRepository | src/lib/contexts/AuthContext.tsx:114-115 | the context's `isAdmin` and `isApproved` agree with `isCurrentUserAdmin` and `isCurrentUserApproved` (src/lib/repository/user-management.ts:84,97) on the same profile |
| AuthState.UserOf | src/lib/contexts/AuthContext.tsx:91 | `session?.user ?? null` is a user iff there is a session |
| AuthState.RefreshedProfile | src/lib/contexts/AuthContext.tsx:45-57 | with no user, or when the lookup throws, the profile becomes null; otherwise it is what the lookup returned |
| AuthState.AuthProvider.constructor | src/lib/contexts/AuthContext.tsx:25-28 | starts with no user, session or profile, and loading |
| AuthState.AuthProvider.RefreshProfile | src/lib/contexts/AuthContext.tsx:45-57 | stores `RefreshedProfile` and changes nothing else; afterwards no user implies no profile |
| AuthState.AuthProvider.UserChanged | src/lib/contexts/AuthContext.tsx:99-106 | after a change of user the profile is reloaded, or cleared when the user is null; a null user that stays null runs nothing |
| AuthState.AuthProvider.SignOut | src/lib/contexts/AuthContext.tsx:59-68 | when the call returns, user, session and profile become null; when it throws, nothing changes |
| AuthState.AuthProvider.RefreshSession | src/lib/contexts/AuthContext.tsx:31-43 | adopts the returned session and its user, then the profile is what refreshProfile stores for that user (unchanged when no user becomes no user); an error answer or an exception changes nothing |
| AuthState.AuthProvider.LoadInitialSession | src/lib/contexts/AuthContext.tsx:72-82 | adopts the returned session, an error answer signs out, and in both cases the profile is what refreshProfile stores for the new user (unchanged when no user becomes no user); only an exception keeps the state; loading stops in every case |
| AuthState.AuthProvider.AuthStateChanged | src/lib/contexts/AuthContext.tsx:87-106 | adopts the new session and its user and stops loading; the profile becomes what refreshProfile stores for the new user, cleared for a null user, and is untouched when no user becomes no user |
| AdminDashboard.FilteredUsers | src/app/admin/page.tsx:96-106 | a user is listed iff it is one of `allUsers` and passes the search and both filters; the list is no longer than `allUsers` |
| AdminDashboard.FilterConcat | src/app/admin/page.tsx:96 | filtering distributes over concatenation, so the kept users stay in their original relative order |
| AdminDashboard.NoFiltersKeepAll | src/app/admin/page.tsx:96-106 | an empty search term, status filter and role filter list every user, in order |
| AdminDashboard.KeptSatisfyFilters | src/app/admin/page.tsx:102-103 | a listed user has `status == statusFilter` and `role == roleFilter` whenever those filters are set |
| AdminDashboard.SearchIff | src/app/admin/page.tsx:97-100 | a non-empty term matches iff its lowercase form occurs in the lowercased `full_name`, `email` or `organization` |
| AdminDashboard.MatchesSearch | src/app/admin/page.tsx:97-100 | no contract; the empty term or a lowercase occurrence in one of three fields, stated by SearchIff and SearchIgnoresCase |
| AdminDashboard.MatchesFilter | src/app/admin/page.tsx:102-103 | no contract; an unset filter or equality, stated by KeptSatisfyFilters and NoFiltersKeepAll |
| AdminDashboard.SearchIgnoresCase | src/app/admin/page.tsx:97-100 | upper-casing the term never changes the match |
| AdminDashboard.ProfileFromApproval | src/app/admin/page.tsx:259-269 | the pending list's Reject button selects the entry's user with status `pending_approval` |
| AdminDashboard.RowActionsOnlyForPending | src/app/admin/page.tsx:374-396 | with a status filter other than pending no listed row shows Approve or Reject; an entry selected from the pending list always qualifies |
| AdminDashboard.View | src/app/admin/page.tsx:139-150 | the dashboard is shown iff loading is over and the viewer is an admin, a spinner otherwise |
| AdminDashboard.RedirectTarget | src/app/admin/page.tsx:43-47 | a non-admin is sent to `/settings` exactly once loading is over |
| AdminDashboard.Dashboard.constructor | src/app/admin/page.tsx:27-41 | empty lists, no statistics, empty search and filters, no selection, empty reason, dialog closed |
| AdminDashboard.Dashboard.LoadData | src/app/admin/page.tsx:55-69 | the three answers are stored together, or nothing changes when any call fails |
| AdminDashboard.Dashboard.OpenReject | src/app/admin/page.tsx:387-390 | selects the user and opens the dialog, which is then on screen; the reason, the loaded data, the search term and the filters are unchanged |
| AdminDashboard.Dashboard.SetReason | src/app/admin/page.tsx:421 | the reason becomes the typed text; the selection, the dialog flag, the loaded data, the search term and the filters are unchanged |
| AdminDashboard.Dashboard.Cancel | src/app/admin/page.tsx:435-439 | closes the dialog and clears the reason and the selection; the loaded data, the search term and the filters are unchanged |
| AdminDashboard.Dashboard.HandleApprove | src/app/admin/page.tsx:71-80 | no signed-in user issues no call; otherwise `approveUser(userId, user.id)`, and after a completed call the pending list, the users and the stats are the reloaded ones, or unchanged when the call or the reload fails; the dialog, the search term and the filters are unchanged |
| AdminDashboard.Dashboard.HandleReject | src/app/admin/page.tsx:82-94 | no user or a reason that trims to empty issues no call and changes nothing; otherwise the untrimmed reason is sent, and after a completed call the dialog closes, the reason and selection are cleared and the pending list, the users and the stats are the reloaded ones (unchanged when the reload fails); a failed call keeps the dialog and the data; the search term and the filters never change |
| AdminDashboard.Dashboard.Visible | src/app/admin/page.tsx:352 | no contract; the table's rows, `filteredUsers`; LoadData sets it to the filter of the loaded users, and OpenReject, SetReason and Cancel keep it |
| AdminDashboard.Dashboard.RejectEnabled | src/app/admin/page.tsx:428 | no contract; the dialog's button is enabled iff the reason is not blank; HandleReject issues its call exactly when it holds and a user is signed in |
| AdminDashboard.Dashboard.CloseAndReload | src/app/admin/page.tsx:87-90 | closes the dialog, clears the reason and the selection, then stores the reloaded data or keeps the old data when the reload fails; the search term and the filters are unchanged |
| LoginPage.RoleOptionsFacts | src/app/auth/login/page.tsx:396-418 | the selectors offer exactly `researcher`, `regulator`, `consultant` and `public`; never `admin` |
| LoginPage.ValidNameIff | src/app/auth/login/page.tsx:52-58 | a name or organisation is valid iff it holds two characters that are not white space |
| LoginPage.ValidName | src/app/auth/login/page.tsx:52-58 | no contract; `trim().length >= 2` for the name and the organisation, stated by ValidNameIff |
| LoginPage.ValidPassword | src/app/auth/login/page.tsx:48-50 | no contract; at least 8 characters, stated by LoginCheck and SignUpCheck |
| LoginPage.RedirectTo | src/app/auth/login/page.tsx:41 | `redirectTo` is the query parameter, or `/settings` when it is absent or empty |
| LoginPage.LoginCheck | src/app/auth/login/page.tsx:67-77 | login passes iff the email and the password (at least 8 characters) are valid; a bad email is reported before a short password |
| LoginPage.SignUpCheck | src/app/auth/login/page.tsx:114-136 | sign-up passes iff email, password, name and organisation are all valid |
| LoginPage.SignUpCheckOrder | src/app/auth/login/page.tsx:114-136 | sign-up reports the email, then the password, then the name, then the organisation, the first failure only |
| LoginPage.LoginErrorMessage | src/app/auth/login/page.tsx:85-94 | the first contained phrase of `Invalid login credentials`, `Email not confirmed`, `User not found` picks the friendly message; any other message is shown as is |
| LoginPage.LoginForm.constructor | src/app/auth/login/page.tsx:24-34 | empty fields, role `public`, no messages, not loading, sign-in mode |
| LoginPage.LoginForm.SelectRole | src/app/auth/login/page.tsx:386-390 | the role becomes an offered value, the messages are cleared and the fields are kept |
| LoginPage.LoginForm.PickTestRole | src/app/auth/login/page.tsx:410-419 | the test dropdown sets the role to an offered value and changes nothing else, messages included |
| LoginPage.LoginForm.HandleLogin | src/app/auth/login/page.tsx:60-106 | a failed check is reported and nothing is sent; otherwise the credentials are sent, success navigates to `redirectTo`, an error shows its friendly message, an exception the generic one; loading ends |
| LoginPage.LoginForm.HandleSignUp | src/app/auth/login/page.tsx:108-194 | after the four checks the account is registered with status `pending_approval` whatever role was chosen, the role is never `admin`, and the profile row carries the same fields and status |
| LoginPage.LoginForm.Register | src/app/auth/login/page.tsx:138-193 | a sign-up error is shown as is; a created account inserts its profile, and unless the insert throws shows the success message, clears the form, resets the role to `public` and leaves sign-up mode; a failed insert is not shown |
| LoginPage.LoginForm.HandlePasswordReset | src/app/auth/login/page.tsx:196-223 | an invalid email is reported and nothing is sent; otherwise the reset mail is requested and success leaves reset mode |
| DataImport.Field | src/lib/data-import.ts:128-166 | `row.X` is the row's cell, or reads like `null` when the row lacks the key |
| DataImport.OrNull | src/lib/data-import.ts:129-132 | `cell \|\| null` is `null` exactly for a falsy cell (`null`, `""`, `0`) and the cell itself otherwise |
| DataImport.Text | src/lib/data-import.ts:298 | `String(cell)` of a string cell is the string itself |
| DataImport.ParseTrimmed | src/lib/data-import.ts:299-320 | an empty string gives nothing; a slash rearranges the `split('/')` parts; else a dash keeps the string; else nothing |
| DataImport.ParseDate | src/lib/data-import.ts:295-324 | a falsy or blank cell gives nothing; otherwise the trimmed text of the cell is parsed |
| DataImport.TrimNoSpaceEnds | src/lib/data-import.ts:298 | a string without white space at its ends is its own trim |
| DataImport.SlashCell | src/lib/data-import.ts:304-307 | a string cell with a slash is rearranged from its `/` parts |
| DataImport.SlashDate | src/lib/data-import.ts:304-307 | `M/D/Y` becomes `Y-MM-DD`, month and day padded to two characters when they are shorter |
| DataImport.SplitThree | src/lib/data-import.ts:305 | `M/D/Y` splits into exactly its three parts |
| DataImport.MissingYear | src/lib/data-import.ts:305-306 | `M/D` with no year renders the year as `undefined` |
| DataImport.DashedBranchUnreachable | src/lib/data-import.ts:310-318 | every `MM-DD-YYYY` string is returned unchanged by the dash branch, so the reordering branch is never reached |
| DataImport.ParseNumber | src/lib/data-import.ts:329-334 | nothing exactly for a falsy cell; a non-zero integer cell is that number |
| DataImport.MapViolation | src/lib/data-import.ts:128-167 | the record has the 38 `violations_enforcement` columns in order |
| DataImport.MappingSendsFalsyToNull | src/lib/data-import.ts:128-167 | a text column is `null` exactly for a falsy or missing cell and the cell otherwise; a falsy date is missing; a number is missing exactly for a falsy cell |
| DataImport.MissingFields | src/lib/data-import.ts:348 | the missing fields are exactly the required fields the first row lacks |
| DataImport.MissingFieldsInOrder | src/lib/data-import.ts:348 | the missing fields keep the order of `requiredFields` (the filter distributes over concatenation) |
| DataImport.ValidateCsvStructure | src/lib/data-import.ts:339-358 | no rows gives `CSV data is empty`; otherwise valid iff every required field is a key of the first row, and otherwise the one error is `Missing required fields: ` followed by the missing fields joined with `, `, in the required order; valid iff no errors |
| DataImport.OnlyFirstRowChecked | src/lib/data-import.ts:347-348 | the rows after the first never change the verdict |
| DataImport.BatchEnd | src/lib/data-import.ts:125-126 | a batch holds at most 1000 rows, at least one, and stops at the end of the data |
| DataImport.MapBatch | src/lib/data-import.ts:128 | one record per row of the batch |
| DataImport.BatchNumber | src/lib/data-import.ts:177 | the batch starting at `1000 * k` is reported as batch `k + 1` |
| DataImport.Batches | src/lib/data-import.ts:125-126 | every batch is non-empty and holds at most 1000 rows |
| DataImport.BatchesPartition | src/lib/data-import.ts:125-126 | the batches, concatenated, are the rows in order |
| DataImport.ImportViolations | src/lib/data-import.ts:111-192 | the loop returns the result of the batch recursion, sends the mapped records of the batches in order, and sends them all unless an upsert threw |
| DataImport.StoredRows | src/lib/data-import.ts:179 | the stored rows never exceed the rows left |
| DataImport.RunAccounting | src/lib/data-import.ts:125-189 | a loop that finishes adds exactly the stored rows and keeps its errors iff every batch was stored, only appending errors; a loop that stops early met a batch that was not stored |
| DataImport.ImportSucceedsIff | src/lib/data-import.ts:183-185 | `success` iff every batch was stored, and then every row counts as inserted |
| DataImport.ImportViolationsResult | src/lib/data-import.ts:180-191 | no contract; the result the batch recursion leads to, stated by ImportViolations, ImportSucceedsIff, ImportCounts and AllStoredCountsAll |
| DataImport.ImportCounts | src/lib/data-import.ts:183-189 | inserted never exceeds processed; without a throw every row is processed and the inserted rows are those of the stored batches |
| DataImport.AllStoredCountsAll | src/lib/data-import.ts:179 | when every batch is stored, the stored rows are all the rows |
| AnalyticsRepo.MonthOf | src/lib/repository/analytics.ts:68-69 | a row has a month exactly when its date is present and non-empty; the month is the date's first seven characters, or the whole of a shorter date |
| AnalyticsRepo.CategoryOf | src/lib/repository/analytics.ts:70 | the category code, or `Unknown` when it is missing or empty |
| AnalyticsRepo.GroupTrends | src/lib/repository/analytics.ts:67-77 | the `reduce` loop ends with the month-by-category accumulator of the rows |
| AnalyticsRepo.BumpCount | src/lib/repository/analytics.ts:72-75 | `acc[m][c]++` adds one to that count and leaves every other count alone |
| AnalyticsRepo.BumpKeys | src/lib/repository/analytics.ts:72 | a new month is appended to the month keys, an existing one keeps its place |
| AnalyticsRepo.TrendCounts | src/lib/repository/analytics.ts:67-77 | each month-and-category count is the number of rows with that month and category |
| AnalyticsRepo.TrendMonths | src/lib/repository/analytics.ts:67-77 | a month is a key exactly when some row has that month |
| AnalyticsRepo.InnerWellFormed | src/lib/repository/analytics.ts:72 | the categories of any month of a well-formed accumulator are well formed |
| AnalyticsRepo.PutCategoryWellFormed | src/lib/repository/analytics.ts:73-75 | bumping a category keeps the keys distinct and every count at least 1 |
| AnalyticsRepo.PutMonthWellFormed | src/lib/repository/analytics.ts:72 | storing well-formed categories under a month keeps the accumulator well formed |
| AnalyticsRepo.BumpWellFormed | src/lib/repository/analytics.ts:72-75 | one bump keeps the accumulator well formed |
| AnalyticsRepo.TrendsOfWellFormed | src/lib/repository/analytics.ts:67-77 | the grouped trends have distinct months, distinct categories per month and counts of at least 1 |
| AnalyticsRepo.BumpTotal | src/lib/repository/analytics.ts:75 | one bump raises the sum of all counts by one |
| AnalyticsRepo.TrendTotal | src/lib/repository/analytics.ts:67-77 | the counts add up to the number of dated rows |
| AnalyticsRepo.AsMonthTrends | src/lib/repository/analytics.ts:79-82 | one `{ month, categories }` per month key, in key order |
| AnalyticsRepo.GetViolationTrendsByCategory | src/lib/repository/analytics.ts:49-87 | a query error is rethrown with its prefix; otherwise the trends of the rows fetched, no rows giving none |
| AnalyticsRepo.PwsidsOf | src/lib/repository/analytics.ts:226 | the pwsid of each violation row, in order |
| AnalyticsRepo.CountViolations | src/lib/repository/analytics.ts:226-229 | the counting loop ends with the count table of the pwsids |
| AnalyticsRepo.CountsAreOccurrences | src/lib/repository/analytics.ts:226-229 | each pwsid's count is its number of occurrences, and the keys are exactly the pwsids seen |
| AnalyticsRepo.CountGet | src/lib/repository/analytics.ts:227 | a pwsid's count is its number of occurrences |
| AnalyticsRepo.CountKeys | src/lib/repository/analytics.ts:227 | a pwsid is a key exactly when it occurs |
| AnalyticsRepo.CountsDistinct | src/lib/repository/analytics.ts:226-229 | the count table has no repeated key |
| AnalyticsRepo.TopPwsids | src/lib/repository/analytics.ts:232-235 | at most `limit` pwsids are chosen |
| AnalyticsRepo.TopPwsidsDominate | src/lib/repository/analytics.ts:232-235 | every chosen pwsid occurs and has at least as many violations as every fetched pwsid left out |
| AnalyticsRepo.GetTopViolatingSystems | src/lib/repository/analytics.ts:209-262 | either query's error is rethrown with its prefix; no chosen pwsid gives an empty list and no details query; otherwise one entry per fetched system whose `violation_count` is that system's number of violations |
| AnalyticsRepo.AreaEntries | src/lib/repository/analytics.ts:302 | one `[pwsid, county_served]` pair per area row, in order |
| AnalyticsRepo.CountyMap | src/lib/repository/analytics.ts:138 | a failed areas query gives an empty map; otherwise each pwsid maps to the `county_served` of its last area row, as `new Map` keeps the last entry for a key |
| AnalyticsRepo.CountyOf | src/lib/repository/analytics.ts:314 | the area's non-empty county, else the non-empty city, else `Unknown` |
| AnalyticsRepo.AddToGet | src/lib/repository/analytics.ts:315-322 | adding a system to a county changes only that county, adds the pwsid to its set and adds its violations and population |
| AnalyticsRepo.GroupByCounty | src/lib/repository/analytics.ts:311-323 | the `forEach` loop ends with the county roll-up of the systems |
| AnalyticsRepo.InCountyStep | src/lib/repository/analytics.ts:313-320 | the last system joins exactly the set of its own county |
| AnalyticsRepo.CountyMembers | src/lib/repository/analytics.ts:311-323 | a county has an entry exactly when some system falls in it, and its set is the pwsids of those systems |
| AnalyticsRepo.InCountyNonEmpty | src/lib/repository/analytics.ts:314-320 | a county's set is non-empty exactly when some system's county is that county |
| AnalyticsRepo.AddToDistinct | src/lib/repository/analytics.ts:315-317 | adding a system keeps the county keys distinct |
| AnalyticsRepo.AddToTotals | src/lib/repository/analytics.ts:321-322 | adding a system raises the violation and population sums by its own |
| AnalyticsRepo.RollUpDistinct | src/lib/repository/analytics.ts:311-323 | each county appears once |
| AnalyticsRepo.RollUpTotals | src/lib/repository/analytics.ts:311-323 | the counties' violations and populations add up to those of all the systems |
| AnalyticsRepo.CountyStatsOf | src/lib/repository/analytics.ts:326-332 | one entry per county with the size of its set and its two sums |
| AnalyticsRepo.GetCountyStatistics | src/lib/repository/analytics.ts:267-339 | the systems and violations errors are rethrown with their prefixes, a failed areas query only drops counties; the result is at most 20 entries, sorted by systems descending, drawn from the county list |
| AnalyticsRepo.TakeSortedDesc | src/lib/repository/analytics.ts:333-334 | a prefix of a descending list is descending and a sub-multiset of it |
| AnalyticsRepo.Unique | src/lib/repository/analytics.ts:109 | `[...new Set(ps)]` holds exactly the pwsids seen, no more of them than `ps` |
| AnalyticsRepo.UniqueEmpty | src/lib/repository/analytics.ts:109-111 | there are no distinct pwsids exactly when there are no violations |
| AnalyticsRepo.DistinctHasNoRepeats | src/lib/repository/analytics.ts:109 | the distinct pwsids have no repeats |
| AnalyticsRepo.SystemEntries | src/lib/repository/analytics.ts:137 | one `[pwsid, system]` pair per system row, in order |
| AnalyticsRepo.GeoEntry | src/lib/repository/analytics.ts:140-148 | the entry keeps the pwsid, is health-based iff the indicator is `Y`, takes its city and state from the system with that pwsid (none without one), and takes the non-empty county, else the system's city |
| AnalyticsRepo.GetGeographicViolationDistribution | src/lib/repository/analytics.ts:92-154 | a failed violations or systems query is rethrown with its prefix; no violations gives an empty list; otherwise one entry per violation, in order, each the GeoEntry of that violation over the systems' map and the county map |
| AnalyticsPage.TallyCategories | src/app/analytics/page.tsx:87-93 | the nested `forEach` loops end with the category totals of the months |
| AnalyticsPage.AddEntriesGet | src/app/analytics/page.tsx:89-92 | one month's pass adds that month's count of `c` to the total of `c` |
| AnalyticsPage.AddEntriesKeys | src/app/analytics/page.tsx:89-92 | after one month's pass a category is a key exactly when it was one before or the month names it |
| AnalyticsPage.AddEntriesDistinct | src/app/analytics/page.tsx:89-92 | one month's pass keeps the map's keys distinct |
| AnalyticsPage.AddEntriesTotal | src/app/analytics/page.tsx:89-92 | one month's pass raises the sum of the map by the month's total |
| AnalyticsPage.TallyGet | src/app/analytics/page.tsx:88-93 | the outer loop adds each month's count of `c` to the total of `c` |
| AnalyticsPage.TallyKeys | src/app/analytics/page.tsx:88-93 | after the outer loop a category is a key exactly when it was one before or some month names it |
| AnalyticsPage.TallyDistinct | src/app/analytics/page.tsx:88-93 | the outer loop keeps the keys distinct |
| AnalyticsPage.TallyTotal | src/app/analytics/page.tsx:88-93 | the outer loop raises the sum by the sum of all months |
| AnalyticsPage.CategoryTotalsMeaning | src/app/analytics/page.tsx:87-93 | each category's total is the sum of its monthly counts, the keys are exactly the categories named, and each appears once |
| AnalyticsPage.TotalIsAllCounts | src/app/analytics/page.tsx:95 | `totalViolations` is the sum of every monthly count |
| AnalyticsPage.TotalViolations | src/app/analytics/page.tsx:95 | no contract; the sum of the category totals, stated by TotalIsAllCounts and TotalOfRepositoryTrends |
| AnalyticsPage.MonthsTotalOfTrends | src/app/analytics/page.tsx:83-84 | converting the repository's trends to month entries keeps their total |
| AnalyticsPage.TotalOfRepositoryTrends | src/app/analytics/page.tsx:83-95 | the page's total over the repository's trends is the number of dated violation rows |
| AnalyticsPage.Percentage | src/app/analytics/page.tsx:99 | no total gives 0; otherwise the integer nearest `100 * count / total`, halves rounded up |
| AnalyticsPage.PercentageBounds | src/app/analytics/page.tsx:99 | a count between 0 and the total gives a percentage between 0 and 100 |
| AnalyticsPage.ScaleMonotone | src/app/analytics/page.tsx:99 | scaling by a non-negative factor keeps order (used for the bounds) |
| AnalyticsPage.CategoryEntries | src/app/analytics/page.tsx:96-99 | one entry per category of the map, in order, with its count and percentage |
| AnalyticsPage.CategoryList | src/app/analytics/page.tsx:96-100 | the list is sorted by count descending and is a permutation of the entries |
| AnalyticsPage.CategoryListEntries | src/app/analytics/page.tsx:95-100 | the list has one entry per category, and an entry is listed exactly when it is a category of the map with its count and percentage |
| AnalyticsPage.CategoryPercentagesBounded | src/app/analytics/page.tsx:95-100 | with non-negative counts every listed percentage lies between 0 and 100 |
| AnalyticsPage.ShownTrends | src/app/analytics/page.tsx:373 | `slice(-6)` shows the last six trend rows, or all when there are fewer |
| AnalyticsPage.Analytics.constructor | src/app/analytics/page.tsx:55-60 | no stats, empty lists, loading, no error |
| AnalyticsPage.Analytics.View | src/app/analytics/page.tsx:164-193 | the spinner iff loading; the error box iff not loading and an error is set, showing that error |
| AnalyticsPage.Analytics.LoadAnalyticsData | src/app/analytics/page.tsx:69-114 | loading ends; the error is set, to the fixed message, iff some call threw; each result is stored iff it and every call before it succeeded, the categories as the sorted list of totals and the counties cut to 10 |
| DataDictionary.EntryFacts | src/lib/data-dictionary.ts:4-137 | a table has an entry for exactly its listed codes, and no entry is empty |
| DataDictionary.PwsTypeFacts | src/lib/data-dictionary.ts:6-10 | `pws_type` has entries for exactly its listed codes, none empty, each code starting upper-case or with a digit |
| DataDictionary.PwsActivityFacts | src/lib/data-dictionary.ts:13-19 | the same for `pws_activity` |
| DataDictionary.ViolationCategoryFacts | src/lib/data-dictionary.ts:22-30 | the same for `violation_category` |
| DataDictionary.ViolationStatusFacts | src/lib/data-dictionary.ts:33-38 | the same for `violation_status` |
| DataDictionary.PrimarySourceFacts | src/lib/data-dictionary.ts:41-48 | the same for `primary_source` |
| DataDictionary.OwnerTypeFacts | src/lib/data-dictionary.ts:51-58 | the same for `owner_type` |
| DataDictionary.WaterTypeFacts | src/lib/data-dictionary.ts:61-65 | the same for `water_type` |
| DataDictionary.AvailabilityFacts | src/lib/data-dictionary.ts:68-75 | the same for `availability` |
| DataDictionary.AreaTypeFacts | src/lib/data-dictionary.ts:78-84 | the same for `area_type` |
| DataDictionary.EvaluationFacts | src/lib/data-dictionary.ts:87-95 | the same for `evaluation` |
| DataDictionary.ResultSignFacts | src/lib/data-dictionary.ts:98-101 | the same for `result_sign` |
| DataDictionary.RuleFamilyFacts | src/lib/data-dictionary.ts:104-110 | the same for `rule_family` |
| DataDictionary.RuleCodesListed | src/lib/data-dictionary.ts:113-136 | `rule_code` has entries for exactly its 22 listed codes |
| DataDictionary.RuleCodesNonEmpty | src/lib/data-dictionary.ts:113-136 | no `rule_code` entry is empty |
| DataDictionary.CodesDistinct | src/lib/data-dictionary.ts:4-137 | no table lists a code twice |
| DataDictionary.RuleCodesDistinct | src/lib/data-dictionary.ts:113-136 | the rule codes are distinct |
| DataDictionary.DescriptionMeaning | src/lib/data-dictionary.ts:140-190 | a listed code gets its own non-empty entry, any other code `Unknown` |
| DataDictionary.Description | src/lib/data-dictionary.ts:140-190 | no contract; the corrected `table[code] \|\| 'Unknown'` lookup, stated by DescriptionMeaning |
| DataDictionary.DescribeAll | src/lib/data-dictionary.ts:193-195 | one `(code, description)` pair per code, in order, each with the lookup's description |
| DataDictionary.AllDescriptions | src/lib/data-dictionary.ts:193-195 | `getAllDescriptions` has exactly the table's codes, once each, with the descriptions the lookups return |
| DataDictionary.AvailabilityUnknownAmbiguous | src/lib/data-dictionary.ts:68-75 | the listed `U` and the unlisted `Q` both describe as `Unknown` |
| DataDictionary.RuleCodeDescriptionsNotInjective | src/lib/data-dictionary.ts:126-129 | the distinct codes `330` and `333` share the description `Inorganic Chemicals` |
| DataDictionary.InorganicChemicals330 | src/lib/data-dictionary.ts:126 | rule code `330` describes as `Inorganic Chemicals` |
| DataDictionary.InorganicChemicals333 | src/lib/data-dictionary.ts:129 | rule code `333` describes as `Inorganic Chemicals` |
| DataDictionary.HealthBasedAreCategories | src/lib/data-dictionary.ts:198-200 | health-based iff `TT`, `MRDL` or `MCL`, each a violation category |
| DataDictionary.IsHealthBasedViolation | src/lib/data-dictionary.ts:198-200 | no contract; `includes` over the health-based categories, stated by HealthBasedAreCategories |
| DataDictionary.ViolationStatusColor | src/lib/data-dictionary.ts:203-216 | green iff `Resolved`, yellow iff `Addressed`, red iff `Unaddressed`, gray for everything else |
| DataDictionary.StatusColorsAreStatuses | src/lib/data-dictionary.ts:203-216 | every coloured status is a listed status; `Archived` is gray |
| DataDictionary.EvaluationColor | src/lib/data-dictionary.ts:219-234 | red iff `S` or `D`, yellow iff `M`, blue iff `R`, green iff `N`, gray otherwise |
| DataDictionary.EvaluationColorsAreEvaluations | src/lib/data-dictionary.ts:219-234 | every coloured code is an evaluation code; the listed `X` and `Z` stay gray |
| DataDictionary.DescriptionAsWritten | src/lib/data-dictionary.ts:140-190 | the lookup as written agrees with the own-entry lookup on every code that is not an inherited member name |
| DataDictionary.CodesStartUpperOrDigit | src/lib/data-dictionary.ts:4-137 | every listed code starts with an upper-case letter or a digit |
| DataDictionary.RuleCodesStartWithDigit | src/lib/data-dictionary.ts:113-136 | every rule code starts with a digit |
| DataDictionary.InheritedStartLower | src/lib/data-dictionary.ts:140-190 | every inherited member name starts with a lower-case letter or `_` |
| DataDictionary.InheritedNamesUnlisted | src/lib/data-dictionary.ts:4-137 | no table lists an inherited member name |
| DataDictionary.AsWrittenDiffersOnInherited | src/lib/data-dictionary.ts:140-190 | the lookup as written differs from the intended one exactly on the inherited names, where it returns the inherited member instead of `Unknown` |
| DataDictionary.InheritedNameIsNotText | src/lib/data-dictionary.ts:140-142 | `getPwsTypeDescription('toString')` returns a function, where `Unknown` is intended |
| MapComponent.ClassifiersAgree | src/components/map-component.tsx:192-208 | `getMarkerIcon`, `getViolationStatusText` and `getViolationStatusColor` split the counts the same way: each gives a bucket's icon, label or colour exactly when the count is in that bucket |
| MapComponent.MarkerIcon | src/components/map-component.tsx:192-196 | no contract; green for 0, yellow up to 2, red otherwise, stated by ClassifiersAgree |
| MapComponent.StatusText | src/components/map-component.tsx:198-202 | no contract; `Compliant`, `Minor Issues` or `Major Issues` on the same split, stated by ClassifiersAgree |
| MapComponent.StatusColor | src/components/map-component.tsx:204-208 | no contract; the green, yellow or red badge class on the same split, stated by ClassifiersAgree |
| MapComponent.MinorBucketIncludesNegatives | src/components/map-component.tsx:192-202 | the label is `Minor Issues` exactly for a non-zero count below three, so a negative count is a minor issue with a yellow marker |
| MapComponent.CountyKey | src/components/map-component.tsx:163 | the key is the upper-cased city name, or `FULTON` when the name is missing or empty; never empty |
| MapComponent.SelectedCentre | src/components/map-component.tsx:152 | the table's centre for the key, or FULTON's when the key is not in the table |
| MapComponent.CountyCentre | src/components/map-component.tsx:54-136 | no contract; the `GEORGIA_COUNTIES` table, stated by SelectedCentreInTable, CityNameMissesTable, MisspelledCountyMissesTable and DekalbSharesFultonCentre |
| MapComponent.SelectedCentreInTable | src/components/map-component.tsx:151-153 | the map is always centred on some county of the table, FULTON without a city name |
| MapComponent.SelectedCentreIgnoresCase | src/components/map-component.tsx:151-152 | names that upper-case alike centre the map alike |
| MapComponent.CityNameMissesTable | src/components/map-component.tsx:151-152 | the table is keyed by county but looked up by city: `Atlanta` misses it and falls back to FULTON |
| MapComponent.MisspelledCountyMissesTable | src/components/map-component.tsx:54-136 | `Bleckley` misses the table, which spells the county `BLEECKLEY` |
| MapComponent.DekalbSharesFultonCentre | src/components/map-component.tsx:55-58 | DEKALB carries exactly FULTON's coordinates |
| MapComponent.HashFrom | src/components/map-component.tsx:175-178 | after at least one character the accumulator is a signed 32-bit value |
| MapComponent.Hash | src/components/map-component.tsx:175-178 | `systemHash` is a signed 32-bit value |
| MapComponent.HashStepWraps | src/components/map-component.tsx:176-177 | `((a << 5) - a) + c`, then `a & a`, is `31 * a + c` wrapped into 32 bits |
| MapComponent.HornerCongruent | src/components/map-component.tsx:175-178 | accumulators equal modulo 2^32 give folds equal modulo 2^32 |
| MapComponent.HashFromIsHorner | src/components/map-component.tsx:175-178 | wrapping at every step equals wrapping the unbounded fold once |
| MapComponent.HashIsPolynomial | src/components/map-component.tsx:175-178 | `systemHash` is the base-31 polynomial of the character codes, wrapped into 32 bits |
| MapComponent.OffsetsAsWritten | src/components/map-component.tsx:180-181 | the offsets as written use the truncating remainder, so each lies in (-0.15, 0.05) degrees, not within the ±0.05 promised |
| MapComponent.OffsetsAsWrittenLeaveBand | src/components/map-component.tsx:175-181 | id `zzzzzz` gets latitude offset -0.1164 degrees |
| MapComponent.HashOfSixZs | src/components/map-component.tsx:175-178 | the hash of `zzzzzz` overflows to -685785664 |
| MapComponent.FallbackOffsets | src/components/map-component.tsx:180-181 | with a non-negative remainder both offsets lie in [-0.05, 0.05) degrees |
| MapComponent.ModuloIsShiftedRemainder | src/components/map-component.tsx:180-181 | the non-negative remainder exceeds the truncating one by 1000 exactly when that one is negative |
| MapComponent.FallbackOffsetsCorrectAsWritten | src/components/map-component.tsx:180-181 | the intended offsets differ from the written ones by a tenth of a degree exactly when the written remainder is negative, and agree for a non-negative hash |
| MapComponent.Place | src/components/map-component.tsx:161-184 | a marker goes near its county exactly when the key is in the table; otherwise it is offset from the state centre by the corrected offsets of the id's hash, which are the source's own offsets whenever the hash is non-negative |
| MapComponent.MissingCityPlacedInFulton | src/components/map-component.tsx:163-166 | a system without a city name is placed in FULTON |
| MapComponent.PlaceDependsOnIdAndCityOnly | src/components/map-component.tsx:161-184 | the placement depends on the id and the county key only |
| MapComponent.Render | src/components/map-component.tsx:186-360 | no results renders the empty view; otherwise one marker per result, in order, once the map is ready; a blue marker for the selection iff ready and selected; the view is centred on the selection's county iff one is selected |
| MapComponent.ResultMarkersShowBuckets | src/components/map-component.tsx:249-257 | a result marker is never blue, and is green exactly for a compliant system |

## Left out

- Backend calls (RPCs, table queries, `auth.getSession`, `signUp`, `signInWithPassword`, `resetPasswordForEmail`, `upsert`, profile inserts) are inputs that say how each call ended. The database procedures behind them are not part of this model.
- The `emailRedirectTo` and `redirectTo` URLs built from `window.location.origin` are not modelled; they depend on the browser.
- Asynchrony is not modelled: awaited calls run in program order, and the auth-state listener, `setTimeout` redirects and console logging are left out.
- `Date.now()` is a parameter. The 30-day month in the trend query's date cut-off is the backend's filter and is not modelled.
- Floating-point numbers are not modelled. This covers `Number()` coercion in `parseNumber` (a string cell stays symbolic, so its `isNaN` test is not modelled), the `Number(...) || 0` conversions, `toFixed`, `formatNumber` and `toLocaleString`. The analytics percentage is modelled with exact rounding of halves upward.
- `getComplianceTrends` and `getSystemPerformanceMetrics` only convert backend numbers with `Number`, and the compliance rate is a float. They are left out, and the page receives their results as inputs.
- `importWaterSystems`, `importFacilities` and `importReferenceCodes` are one-call variants of the import with no loop; only `importViolations` is modelled. `parseDate` is modelled once for all of them.
- DataImport.ValidateCsvStructure: checks the first row's own keys. The source's `field in firstRow` also sees members inherited from `Object.prototype`, so a required field named `toString` would count as present.
- Permissions.PermissionsOf: a role named like an `Object.prototype` member is treated as unknown and grants nothing. In the source such a role reads an inherited function and its `includes` call would throw.
- The thin user-management wrappers (`approveUser`, `rejectUser`, `getPendingApprovals`, `updateUserProfile`, `createUserProfile`) only forward their arguments to a procedure. They are left out.
- Strings are sequences of UTF-16 code units. Case mapping is ASCII only; non-ASCII case mapping and characters outside the Basic Multilingual Plane are not modelled.
- Objects whose keys look like array indices enumerate them before other keys. OrderedMap uses insertion order for every key, so a category, month or pwsid consisting only of digits is not ordered as the engine would order it.
- OrderedMap.SortDesc: the sort is proved descending and a permutation. Its stability, which the engine guarantees, is not stated.
- Security.AfterRequestBounded: the bound on stored counts is proved for a limit of at least 1. With a limit of 0 the first request still stores count 1 (`Security.ZeroLimitStoresOne`).
- The zod schemas in `src/lib/security.ts` are library semantics and are not modelled.
- The map's random jitter around a county centre (`Math.random`), the float coordinates, the Leaflet rendering, popups, badges and the marker key strings are not modelled. Coordinates are integers in 1/10000 degree.
- MapComponent.Place: a marker off the state centre uses the corrected offsets `FallbackOffsets` of the finding on `map-component.tsx:180-181`, not the truncating `%` the source applies. For an id with a negative hash, such as `zzzzzz`, the source's marker sits up to 0.1 degree further south and west than the model's; `OffsetsAsWritten` gives the source's offsets.
- MapComponent.Render: its markers inherit the corrected placement of `MapComponent.Place`, so for an id with a negative hash they are not where the source draws them.
- The `/admin` redirect in `next.config.ts` runs before the guard and is not part of this model.
- The other repositories, API routes, scripts and UI pages hold no decision logic of their own and are not part of this model.

## Findings

| source | as written | input that shows it | evidently intended | confidence | as-written member | corrected member |
|---|---|---|---|---|---|---|
| src/components/map-component.tsx:180-181 | `(systemHash % 1000) / 10000 - 0.05` uses the truncating `%` on a signed 32-bit hash, so a negative hash gives an offset down to -0.1499 degrees | id `zzzzzz`: its hash overflows to -685785664, giving latitude offset -0.1164 degrees | offsets within ±0.05 degrees, as the comments say, by taking a non-negative remainder | not executed | MapComponent.OffsetsAsWritten, MapComponent.OffsetsAsWrittenLeaveBand | MapComponent.FallbackOffsets, MapComponent.FallbackOffsetsCorrectAsWritten |
| src/lib/data-dictionary.ts:140-190 | `DATA_DICTIONARY.table[code] \|\| 'Unknown'` also finds members inherited from `Object.prototype`, which are truthy | `getPwsTypeDescription('toString')` returns `Object.prototype.toString`, a function, instead of a string | `'Unknown'` for every code the table does not list | not executed | DataDictionary.DescriptionAsWritten, DataDictionary.InheritedNameIsNotText | DataDictionary.Description, DataDictionary.DescriptionMeaning |
