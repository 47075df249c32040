# Urler core, modelled in Dafny

Urler is a URL shortener: a Spring backend stores short codes, redirects them and counts
clicks, and a Next.js frontend creates codes, shows the user's links and follows their click
counts live over STOMP. This project models the logic at the centre of both halves:

- `url_service.dfy` (module `UrlService`): the short-code table as an object holding the `Url`
  rows, the click log and the published click messages; alias allocation (custom or 8 random
  chars), redirect counting with Java `int` wrap-around, the per-day click statistics, and
  `RedirectController.redirect` on top of it.
- `exception_handler.dfy`: `GlobalExceptionHandler` as one total function from exception kind
  to `ResponseEntity<ErrorResponse>`, the `uri=` stripping and the validation-detail loop.
- `jwt_utils.dfy`: `getJwtFromHeader` and the comma-joined `roles` claim.
- `auth.dfy`: the client's token store over `localStorage` and its `Authorization` header,
  with the round trip through `getJwtFromHeader`.
- `url_list.dfy`, `use_web_socket.dfy`, `topics.dfy`: the pointwise click update, the ids
  passed to the hook, the hook's subscription map and `onConnect` loop, and the topic name
  shared by publisher and subscriber.
- `url_shortener_form.dfy`, `auth_form.dfy`, `client_types.dfy`: field rules, request
  construction and the state steps of the two forms.
- `text.dfy`, `time.dfy`, `wrappers.dfy`: Java `trim`, JavaScript `trim` and `.`, decimal
  rendering of ids, days as integers, `Option`/`Result`.

`LocalDateTime.now()` and `java.util.Random` are parameters (an instant in nanoseconds, and
the eight draws of `nextInt(62)`). The API's answer to a form is a parameter too. Days are
integers. An instant falls on day `t / 86_400_000_000_000`, rounding down.

`useWebSocket` only ever adds entries to its subscription map; it never removes one.

## Model

| member | source | states |
|---|---|---|
| UrlService.IncrementClicks | backend-sb/src/main/java/com/urler/service/UrlService.java:108 | `clicks + 1` on a Java `int`: one more below the largest value, and wraps to the smallest at it |
| UrlService.CharactersAreAlphanumeric | backend-sb/src/main/java/com/urler/service/UrlService.java:63 | the code alphabet has 62 chars, each an ASCII letter or digit |
| UrlService.GenerateShortUrl | backend-sb/src/main/java/com/urler/service/UrlService.java:62-72 | the loop builds the code from the 8 draws, and the code has exactly 8 chars, each a letter or digit |
| UrlService.FindByShortenedUrl | backend-sb/src/main/java/com/urler/repository/UrlRepository.java:12 | the lookup finds the first row carrying the code; it finds nothing exactly when no row carries it |
| UrlService.UrlsOf | backend-sb/src/main/java/com/urler/repository/UrlRepository.java:13 | `findByUser` returns only rows owned by the user, and every row the user owns |
| UrlService.UrlsOfAppend | backend-sb/src/main/java/com/urler/repository/UrlRepository.java:13 | the owned rows of two tables in a row are those of the first followed by those of the second, and a one-row table yields its row exactly when the user owns it: so in the model the result keeps table order and each owned row's multiplicity (the query itself fixes no order; see Left out) |
| UrlService.ChosenAlias | backend-sb/src/main/java/com/urler/service/UrlService.java:33 | the alias is used exactly when it is present and has a char above U+0020 (not blank after Java's `trim()`), and is then used verbatim |
| UrlService.UrlService.CreateShortUrl | backend-sb/src/main/java/com/urler/service/UrlService.java:31-49 | a taken non-blank alias fails with the alias-taken message and saves nothing; otherwise one row with the next id, the request's URL, the owner, zero clicks and the alias verbatim (or the generated code) is appended, and the result is its DTO (`convertToDto`, lines 51-60: id, URL, code, clicks, creation time, the owner's username and no alias); in the model's table order, the new row comes last in its owner's list and every other user's list is unchanged; the custom path keeps codes unique; the click log and messages are untouched |
| UrlService.GeneratedCodesMayCollide | backend-sb/src/main/java/com/urler/service/UrlService.java:38-40 | the random path never consults the table: two creations with the same draws store the same code twice |
| UrlService.UrlService.GetUrlsByUser | backend-sb/src/main/java/com/urler/service/UrlService.java:74-78 | one DTO (`convertToDto`) per row of `findByUser`, at the same position, so in the order `findByUser` gives, which the model takes to be table order (see `UrlsOfAppend` and Left out) |
| UrlService.ClickUpdateKeepsRows | backend-sb/src/main/java/com/urler/service/UrlService.java:108-109 | saving the row with a new count keeps every id and every code of the table |
| UrlService.UrlService.GetOriginalUrl | backend-sb/src/main/java/com/urler/service/UrlService.java:105-124 | a known code raises that row's clicks by one and changes no other row, logs one click for it, and publishes one message with the new count to its topic; an unknown code returns null and changes nothing; unique codes stay unique |
| UrlService.UrlService.Redirect | backend-sb/src/main/java/com/urler/controller/RedirectController.java:19-28 | a known code answers 302 with `Location` equal to the stored URL, exactly one more click, and exactly one published message carrying the URL's id, its new count and the time, on the URL's click topic; an unknown code answers 404 without `Location` and changes nothing; only counts ever change |
| UrlService.ClickDaysBetween | backend-sb/src/main/java/com/urler/repository/ClicksRepository.java:13-14 | every click on an asked-for URL whose time lies in the window, ends included, contributes its day; every returned day lies between the window's days; no more days than clicks |
| UrlService.ClickDaysBetweenCounts | backend-sb/src/main/java/com/urler/repository/ClicksRepository.java:13-14 | each day occurs among the returned days exactly as often as there are clicks in the log on an asked-for URL, inside the window, on that day |
| UrlService.WholeDaySelected | backend-sb/src/main/java/com/urler/service/UrlService.java:99 | a window that covers all of a day selects every click of that day on an asked-for URL |
| UrlService.CountByDay | backend-sb/src/main/java/com/urler/service/UrlService.java:101 | `groupingBy(toLocalDate, counting())`: the keys are exactly the days that occur, each mapped to its number of occurrences, so at least one |
| UrlService.AddClickDates | backend-sb/src/main/java/com/urler/service/UrlService.java:86 | counting one click keeps the days of the list distinct and adds the click's day |
| UrlService.AddClickExisting | backend-sb/src/main/java/com/urler/service/UrlService.java:86 | a click on a listed day raises that day's count by one and no other |
| UrlService.AddClickNew | backend-sb/src/main/java/com/urler/service/UrlService.java:86 | a click on a new day appends that day with count one |
| UrlService.TotalAddClick | backend-sb/src/main/java/com/urler/service/UrlService.java:86 | counting one click raises the total by one |
| UrlService.GroupByDateDays | backend-sb/src/main/java/com/urler/service/UrlService.java:85-94 | the grouped list (`GroupByDate`) holds each day that has a click once, and no other day |
| UrlService.GroupByDateTotal | backend-sb/src/main/java/com/urler/service/UrlService.java:85-94 | the counts of the grouped list sum to the number of clicks |
| UrlService.GroupByDateCounts | backend-sb/src/main/java/com/urler/service/UrlService.java:85-94 | each entry counts exactly the clicks on its day, so at least one |
| UrlService.GroupByDateAgreesWithCountByDay | backend-sb/src/main/java/com/urler/service/UrlService.java:86-101 | the list form and the map form of `groupingBy(counting())` have the same days and counts |
| UrlService.UrlService.GetClickEventsByDate | backend-sb/src/main/java/com/urler/service/UrlService.java:80-95 | an unknown code fails with the not-found message before clicks are read; otherwise one entry per distinct day with clicks in the window, each counting that day's clicks (at least one), equal to the number of clicks on the URL in the window on that day, the counts summing to the clicks in the window |
| UrlService.TotalClicksByDay | backend-sb/src/main/java/com/urler/service/UrlService.java:97-102 | as written, with the window from the start of `start` to the start of the day after `end`, both included: a day is a key exactly when some click on one of the user's URLs inside that window falls on it, and maps to the number of such clicks; for the days `start` to `end` those are all the day's clicks, and the day after `end` can hold only clicks at its first instant |
| UrlService.MidnightAfterEndIsCounted | backend-sb/src/main/java/com/urler/service/UrlService.java:99 | as written, a click at midnight after `end` shows up under the day after `end` |
| UrlService.TotalClicksByDayHalfOpen | backend-sb/src/main/java/com/urler/service/UrlService.java:97-102 | corrected window: a day is a key exactly when it lies in `[start, end]` and has a click on one of the user's URLs, and maps to the number of those clicks |
| UrlService.UrlService.GetTotalClicksByUserAndDate | backend-sb/src/main/java/com/urler/service/UrlService.java:97-102 | a day is a key exactly when it lies in `[start, end]` and the click log has a click on one of the user's URLs on it, and maps to the number of those clicks (corrected window, see Findings) |
| Time.DayOfWindow | backend-sb/src/main/java/com/urler/service/UrlService.java:99 | an instant's `toLocalDate()` is `d` exactly when it lies in `[d.atStartOfDay(), (d+1).atStartOfDay())` |
| Text.DecimalString | backend-sb/src/main/java/com/urler/service/UrlService.java:120 | an id is rendered as one or more decimal digits |
| Text.DecimalStringInjective | backend-sb/src/main/java/com/urler/service/UrlService.java:120 | distinct ids render to distinct strings |
| Topics.ClickTopicInjective | frontend/lib/useWebSocket.ts:34 | distinct URL ids get distinct click topics, on the server and the client alike |
| ExceptionHandler.Handle | backend-sb/src/main/java/com/urler/exception/GlobalExceptionHandler.java:33-193 | the status and label of each kind (409 Conflict, 404 Not Found, 400 Validation Failed, 403 Forbidden, 401 Unauthorized, 400 Bad Request, 500 Internal Server Error); body status equals HTTP status; only alias-taken, not-found and illegal-argument echo the exception's message, validation, access-denied, bad-credentials and the catch-all each use their own fixed text; only validation sets `details`; the path is the stripped description |
| ExceptionHandler.HiddenMessagesDoNotLeak | backend-sb/src/main/java/com/urler/exception/GlobalExceptionHandler.java:128-193 | the catch-all and bad-credentials responses do not depend on the exception's message |
| ExceptionHandler.ValidationDetails | backend-sb/src/main/java/com/urler/exception/GlobalExceptionHandler.java:84-87 | one detail per field error, in order, each `field: defaultMessage` |
| ExceptionHandler.CollectValidationDetails | backend-sb/src/main/java/com/urler/exception/GlobalExceptionHandler.java:84-87 | the accumulation loop yields exactly those details, each starting with its field name and `: ` |
| ExceptionHandler.HandleValidationErrors | backend-sb/src/main/java/com/urler/exception/GlobalExceptionHandler.java:79-99 | the loop-based handler answers as the validation case of `Handle`, with as many details as field errors |
| ExceptionHandler.RemoveUriMarkers | backend-sb/src/main/java/com/urler/exception/GlobalExceptionHandler.java:201-203 | the path is never longer than the description |
| ExceptionHandler.GetRequestPath | backend-sb/src/main/java/com/urler/exception/GlobalExceptionHandler.java:201-203 | the path is never longer than the description, and a description without `uri=` is the path itself |
| ExceptionHandler.RemoveUriMarkersWithout | backend-sb/src/main/java/com/urler/exception/GlobalExceptionHandler.java:201-203 | a description without `uri=` is returned unchanged |
| ExceptionHandler.RequestPathOfUriDescription | backend-sb/src/test/java/com/urler/exception/GlobalExceptionHandlerTest.java:207-219 | `uri=` followed by a path yields the path |
| ExceptionHandler.RemovalCanLeaveMarker | backend-sb/src/main/java/com/urler/exception/GlobalExceptionHandler.java:202 | one left-to-right pass: `uriuri==` becomes `uri=` |
| JwtUtils.GetJwtFromHeader | backend-sb/src/main/java/com/urler/security/jwt/JwtUtils.java:28-34 | a token comes back exactly when the header is present and starts with `Bearer `, and the header is then `Bearer ` followed by it |
| JwtUtils.ExtractsBearerToken | backend-sb/src/main/java/com/urler/security/jwt/JwtUtils.java:30-31 | `Bearer ` + t yields exactly t |
| JwtUtils.BearerPrefixEdgeCases | backend-sb/src/main/java/com/urler/security/jwt/JwtUtils.java:29-33 | a missing header, `bearer x` and `Bearerx` yield null; `Bearer ` alone yields the empty string |
| JwtUtils.SplitAfterPiece | backend-sb/src/main/java/com/urler/security/jwt/JwtUtils.java:49-51 | a comma-free piece before a comma is split off whole |
| JwtUtils.JoinRolesRoundTrip | backend-sb/src/main/java/com/urler/security/jwt/JwtUtils.java:49-51 | a non-empty list of comma-free authority names is recovered, in order, from the claim `JoinRoles` builds by joining them with commas |
| JwtUtils.SplitOnComma | backend-sb/src/main/java/com/urler/security/jwt/JwtUtils.java:49-51 | the reading of the joined claim: a split at every comma that keeps empty pieces, so never an empty list |
| Auth.AuthHeaderFor | frontend/lib/auth.ts:34-37 | a truthy token gives exactly `{Authorization: "Bearer " + t}`, anything else an empty record |
| Auth.AuthHeaderRoundTrip | frontend/lib/auth.ts:36 | the server reads the client's header back as the same non-empty token |
| Auth.TokenStore.SaveToken | frontend/lib/auth.ts:7-11 | in a browser the token is stored under `urler_token` and `getToken` returns it; without a window nothing changes; no other key changes |
| Auth.TokenStore.GetToken | frontend/lib/auth.ts:14-19 | the stored token in a browser, null without a window or without a stored token |
| Auth.TokenStore.RemoveToken | frontend/lib/auth.ts:22-26 | afterwards `getToken` is null and `isAuthenticated` false; only the one key is removed |
| Auth.TokenStore.IsAuthenticated | frontend/lib/auth.ts:29-31 | `!!getToken()`: true exactly when a browser holds a non-empty token under `urler_token` |
| Auth.TokenStore.GetAuthHeader | frontend/lib/auth.ts:29-37 | the header record built from the stored token: `{}` or exactly the one `Authorization` entry; present exactly when authenticated (a non-null, non-empty token), and carrying that token |
| Auth.SaveThenAuthorize | frontend/lib/auth.ts:7-37 | after saving a non-empty token in a browser the user is authenticated and the server extracts that token from the header |
| UrlList.ApplyClickUpdate | frontend/components/UrlList.tsx:41-47 | same length; entries with the message's id get the message's count and nothing else changes; all other entries are unchanged |
| UrlList.UrlIds | frontend/components/UrlList.tsx:50 | the ids of the list, in list order |
| UrlList.UpdateKeepsIds | frontend/components/UrlList.tsx:43-50 | an update leaves the subscribed ids unchanged |
| UrlList.UpdateIdempotent | frontend/components/UrlList.tsx:44 | applying the same message twice equals applying it once |
| UrlList.LaterUpdateWins | frontend/components/UrlList.tsx:44 | of two messages for one URL the later decides its count |
| UrlList.UpdatesForDifferentUrlsCommute | frontend/components/UrlList.tsx:43-45 | messages for different URLs can arrive in either order |
| UrlList.UpdateShowsCount | frontend/components/UrlList.tsx:44 | the matching entry shows the message's count, and the click date is ignored |
| UseWebSocket.NewIdsAreFresh | frontend/lib/useWebSocket.ts:32-41 | the ids the loop subscribes (`NewIds`) are distinct and are exactly the given ids not already in the map |
| UseWebSocket.NewIdsCount | frontend/lib/useWebSocket.ts:33-39 | duplicates give one subscribe call per distinct new id |
| UseWebSocket.TopicsOf | frontend/lib/useWebSocket.ts:34 | each id is subscribed under `/topic/clicks/` followed by the id |
| UseWebSocket.WebSocketSession.constructor | frontend/lib/useWebSocket.ts:18 | the first render: an empty map, no client, no subscription issued yet, and the session invariant holds |
| UseWebSocket.WebSocketSession.Subscribe | frontend/lib/useWebSocket.ts:34-38 | the client's `subscribe` returns a subscription on the current client with the given topic and callback, whose handle differs from every earlier subscription's and every handle in the map; it is recorded in the issue log and the invariant is kept |
| UseWebSocket.WebSocketSession.OnConnect | frontend/lib/useWebSocket.ts:28-42 | afterwards the keys are the old keys plus the given ids; old entries are kept; each new entry has its id's topic, the current client and the current callback; the subscribe calls are exactly the topics of the new ids, in order; earlier issued subscriptions stay in the log; the invariant is kept |
| UseWebSocket.WebSocketSession.RunEffect | frontend/lib/useWebSocket.ts:20-49 | a re-run makes a new current client and keeps the map |
| UseWebSocket.WebSocketSession.Cleanup | frontend/lib/useWebSocket.ts:51-55 | cleanup deactivates the client and leaves the map as it is |
| UseWebSocket.WebSocketSession.Deliver | frontend/lib/useWebSocket.ts:34-37 | a frame for a live id reaches a callback that was passed to `subscribe` for that id's topic on the current client |
| UseWebSocket.StaleAfterRerun | frontend/lib/useWebSocket.ts:32-56 | as written, after one re-run of the effect an id subscribed before is no longer live, with one subscribe call in all |
| UseWebSocket.WebSocketSession.CleanupClearing | frontend/lib/useWebSocket.ts:51-55 | corrected cleanup: the client is deactivated and the map emptied |
| UseWebSocket.RerunWithClearing | frontend/lib/useWebSocket.ts:32-56 | with the corrected cleanup the id is live again after the re-run, with a second subscribe call |
| UseWebSocket.RerunWithClearingKeepsAllLive | frontend/lib/useWebSocket.ts:32-56 | with the corrected cleanup every id is live after any re-run and reaches the new callback |
| UrlShortenerForm.UrlFieldError | frontend/components/UrlShortenerForm.tsx:75-81 | no error exactly when the URL is non-empty and starts with `http://` or `https://` in any case followed by a non-line-break char; `URL is required` or the pattern message otherwise |
| UrlShortenerForm.UrlPatternExamples | frontend/components/UrlShortenerForm.tsx:75-81 | `HTTPS://x` passes; `http://`, `http://` with a line break, `ftp://x` and the empty value fail with the right message |
| UrlShortenerForm.AliasFieldError | frontend/components/UrlShortenerForm.tsx:91-96 | no error exactly when the alias is empty or has 3 to 20 chars from `[a-zA-Z0-9_-]` |
| UrlShortenerForm.BuildShortenRequest | frontend/components/UrlShortenerForm.tsx:32-37 | the URL is sent unchanged; the alias is included exactly when its trim is non-empty, and then trimmed |
| UrlShortenerForm.ValidAliasReachesService | frontend/components/UrlShortenerForm.tsx:35-37 | a valid non-empty alias is sent as typed and the service takes its custom path with it; an empty alias makes the service generate a code |
| UrlShortenerForm.GeneratedCodeIsValidAlias | frontend/components/UrlShortenerForm.tsx:93 | every code the backend generates passes the alias rule |
| UrlShortenerForm.ShortLink | frontend/components/UrlShortenerForm.tsx:58 | the link is the origin, a slash and the code, which can be read back from it |
| UrlShortenerForm.ShortenerForm.Submit | frontend/components/UrlShortenerForm.tsx:27-54 | invalid fields stop the submission; otherwise the request is sent, loading goes on then off, success stores the result, empties the fields and notifies the parent once, any other end leaves no result |
| AuthForm.Toggled | frontend/components/AuthForm.tsx:71-74 | the toggle always changes the mode |
| AuthForm.ToggleTwice | frontend/components/AuthForm.tsx:71-74 | toggling twice restores the mode |
| AuthForm.FirstIndexOf | frontend/components/AuthForm.tsx:107 | the first position of a char, or none exactly when it does not occur |
| AuthForm.LastIndexOf | frontend/components/AuthForm.tsx:107 | the last position of a char, or none exactly when it does not occur |
| AuthForm.IsEmailAgreesWithPattern | frontend/components/AuthForm.tsx:104-110 | cutting at the first `@` and the last `.` accepts exactly the addresses the pattern matches |
| AuthForm.EmailExamples | frontend/components/AuthForm.tsx:107 | `a@b.co` matches; `a@b.c` and `@b.co` do not |
| AuthForm.AuthFieldErrors | frontend/components/AuthForm.tsx:92-128 | username required; in register mode email required and then the pattern; password required and then at least 6 chars; the messages of each case |
| AuthForm.BuildAuthRequest | frontend/components/AuthForm.tsx:32-52 | login sends only username and password; register adds the email |
| AuthForm.AuthFormState.constructor | frontend/components/AuthForm.tsx:17-18 | the form starts in login mode, not loading |
| AuthForm.AuthFormState.ToggleMode | frontend/components/AuthForm.tsx:71-74 | the other mode, with the fields emptied; loading, requests, navigations unchanged |
| AuthForm.AuthFormState.Submit | frontend/components/AuthForm.tsx:28-69 | invalid fields stop the submission; otherwise the mode's request is sent and loading goes on then off; a successful login saves the token and goes to `/dashboard`; a successful registration switches to login and empties the fields; invalid fields also leave the fields and loading flag as they were; a failure and a successful login leave the fields as typed; a failure changes neither mode nor storage |

## Left out

- UrlService.UrlService.GetTotalClicksByUserAndDate: uses the corrected half-open window. The inclusive window of the code is `UrlService.TotalClicksByDay` (see Findings).
- UrlService.UrlsOf / UrlService.UrlService.GetUrlsByUser: `findByUser` has no `ORDER BY`, so the database may return the rows in any order; the model returns rows in table order, and the order facts of `UrlsOfAppend` and `CreateShortUrl` are about that choice.
- UrlService.UrlService.CreateShortUrl, UrlService.UrlService.GetOriginalUrl and UrlService.UrlService.Redirect: requests are modelled one at a time. Concurrent redirects can lose a click increment (a read-modify-write with no lock), and concurrent creations with one alias can both pass the check (no unique constraint on the code is visible), so "exactly one more click" and "the custom path keeps codes unique" hold only for requests served one after another.
- UrlService.UrlsOf: owners are compared as whole `User` values (id and username), where JPA's `findByUser` compares the owner's id; the two agree as long as one id always carries one username.
- UrlService.FindByShortenedUrl: when several rows share a code, the model returns the first one. Spring Data would throw `IncorrectResultSizeDataAccessException` there, and that error path is not modelled.
- `groupingBy` into a `HashMap` has no defined order. The list form lists days in order of first click, and the map form has no order.
- `Long` ids are unbounded naturals. Id exhaustion is not modelled.
- Timestamps are integers in nanoseconds with no time zone. `LocalDateTime` parsing and formatting are not modelled, and neither is the ISO date parsing in `UrlController`.
- JPA, Spring Security wiring, `JwtAuthenticationFilter`, JWT signing, parsing, keys and expiry arithmetic are left out. They depend on libraries and the system clock. Only the header extraction and the roles join are modelled.
- JwtUtils.JoinRolesRoundTrip: holds only for a non-empty list of comma-free names, because the joined claim cannot tell an empty list from one empty name, or a comma inside a name.
- The STOMP/SockJS lifecycle is left out: activation, connection timing, reconnect delay, heartbeats and `onStompError`. Connecting is the explicit `OnConnect` call, and the broker is reduced to the `Live` predicate.
- `JSON.parse` of a frame body is not modelled. A frame is delivered as the message it carries.
- react-hook-form, React state and rendering are reduced to the fields and setters the handlers use. Toasts, JSX, the clipboard and `window.location` are left out.
- `minLength` and the `{3,20}` bound count UTF-16 code units, while the model counts chars. The two differ only outside the Basic Multilingual Plane.
- `/i` is modelled as ASCII case folding. This matches JavaScript's non-Unicode case folding for these patterns.
- `frontend/lib/api.ts` is not part of this model. Each API call is represented by its outcome, passed as a parameter.
- UrlShortenerForm.ShortenerForm.Submit and AuthForm.AuthFormState.Submit: the intermediate `isLoading == true` is recorded only in `loadingHistory`. Concurrent submissions are not modelled.

## Findings

| source | as written | input that shows it | evidently intended | confidence | as-written member | corrected member |
|---|---|---|---|---|---|---|
| backend-sb/src/main/java/com/urler/service/UrlService.java:99 | the upper bound `end.plusDays(1).atStartOfDay()` goes to a `Between` query, which includes both ends | a click at exactly 00:00 on the day after `end` is returned and counted under that day | only clicks on the days `start` to `end` | not executed | UrlService.MidnightAfterEndIsCounted | UrlService.TotalClicksByDayHalfOpen |
| frontend/lib/useWebSocket.ts:18,33,51-55 | cleanup deactivates the client but keeps `subscriptionsRef`, and the next client's `onConnect` skips every id already in it | any re-render of `UrlList` builds a new `urlIds` array, and the effect re-runs; the id subscribed on the old client gets no subscription on the new one | each new client subscribes every listed id | not executed | UseWebSocket.StaleAfterRerun | UseWebSocket.RerunWithClearing |
