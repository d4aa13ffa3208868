# Verified model of the nestJsStarter core

This project is a Dafny model of the decision logic of a NestJS
authentication and notification starter and of its small Next.js client.
Each core source file has one Dafny module, and the model keeps the
source's own form:

- The auth service is a class whose methods change its user table and
  its next id.
- The notification service is a class whose one field, the Firebase app,
  is fixed by its constructor; its methods change nothing.
  `sendNotification` builds its list of sends with a loop over the device
  tokens.
- The request guard writes `req.user` on a request object.
- The two forms are classes whose setters re-run the validation effect.
- The password score is accumulated step by step.
- The error and response shaping code is pure functions.

Every stateful method is proved against specification functions. Lemmas
prove the properties the code promises about those functions.

Modules:

- Shared: `Wrappers` (Option, Result), `Strings`, `JsValue` and `Http`.
  - `Strings` covers `startsWith`, `indexOf`, `includes`, `split`, `join`
    and `trim`, and the whitespace class of `trim` and of `\s`.
  - `JsValue` is a JavaScript value with its truthiness.
  - `Http` holds the framework's exception kinds and their status codes.
- Backend: `PrismaExceptions`, `ApiResponse`, `ApiResponseInterceptor`,
  `ApiExceptionFilter`, `JwtAuthGuard`, `SwaggerDocsGuard`, `Notification`
  and `Auth`.
- Client: `BasicAuth` holds the credential splitting shared by both `/docs`
  guards. The other client modules are `DocsMiddleware`, `PasswordField`,
  `EmailPattern`, `SignUpForm` and `SignInForm`.

Several foreign calls are parameters of the model:

- the database (`db`: the error every query throws, or none);
- bcrypt `hash` and `compare`;
- JWT `sign` and `verify`;
- Base64 decoding;
- the clock (`now`);
- the settled outcome of each send.

Two behaviours of `sendNotification` are worth stating outright.

- When push is requested and Firebase is not configured, the call throws
  'Push notification not configured on server'
  (notification.service.ts:58-62). The e-mail send has already been started
  by then, and no push send is started. `Issued` records this, and
  `NotConfiguredFails` states it.
- A request with neither an e-mail nor a push part returns
  'Notifications processed' with an empty `results` list (`EmptyRequest`).

## Model

| member | source | states |
|---|---|---|
| PrismaExceptions.MapPrismaError | backend/src/prisma/prisma-exceptions.ts:10-37 | total: always one of Conflict, ServiceUnavailable, InternalServerError; Conflict 'Email already in use' iff the code is P2002; ServiceUnavailable 'Database is not available' iff the code is not P2002 and it is P1000/P1001/P1008/P1017 or the message/name test holds; otherwise 'Something went wrong' |
| PrismaExceptions.CodeDecidesFirst | backend/src/prisma/prisma-exceptions.ts:14-24 | two errors with the same recognised code map to the same exception, whatever their message and name |
| PrismaExceptions.FragmentMeansUnavailable | backend/src/prisma/prisma-exceptions.ts:26-35 | without a recognised code, a message containing any of the four fragments maps to ServiceUnavailable |
| PrismaExceptions.NullishIsInternal | backend/src/prisma/prisma-exceptions.ts:26-36 | null/undefined, and an error with no code, no (or an empty) message and not named PrismaClientInitializationError, map to InternalServerError |
| ApiResponse.ToJson | backend/src/api-response/index.ts:1-5 | the object sent always has `success`; it has `data` iff data is present, `error` iff an error is present, and no other key |
| ApiResponse.JsonRoundTrip | backend/src/api-response/index.ts:1-13 | every envelope is read back unchanged from the object sent for it |
| ApiResponse.Ok | backend/src/api-response/index.ts:7-9 | a success carrying the data and no error, sent as an object with exactly the keys `success` and `data` |
| ApiResponse.Fail | backend/src/api-response/index.ts:11-13 | a failure carrying the message and no data, sent as an object with exactly the keys `success` and `error` |
| ApiResponse.OkShape | backend/src/api-response/index.ts:7-9 | `ok(d)` has success true, data d, no error; its object has exactly the keys `success` and `data` |
| ApiResponse.FailShape | backend/src/api-response/index.ts:11-13 | `fail(m)` has success false, error m, no data; its object has exactly the keys `success` and `error` |
| ApiResponse.OkFailDisjoint | backend/src/api-response/index.ts:7-13 | no `ok` object equals a `fail` object |
| ApiResponseInterceptor.Intercept | backend/src/api-response/api-response.interceptor.ts:10-14 | a truthy object with a `success` key is returned unchanged; anything else is sent as an object that reads back as `ok(data)` |
| ApiResponseInterceptor.AlwaysEnvelopeLike | backend/src/api-response/api-response.interceptor.ts:11-14 | every result leaves as a truthy object with a `success` key |
| ApiResponseInterceptor.FalsyIsWrapped | backend/src/api-response/api-response.interceptor.ts:11 | falsy results (null, undefined, 0, '', false) are wrapped |
| ApiResponseInterceptor.Idempotent | backend/src/api-response/api-response.interceptor.ts:11-14 | applying the mapping to its own output returns that output |
| ApiResponseInterceptor.StatusIgnored | backend/src/api-response/api-response.interceptor.ts:12-14 | the status code read at line 13 does not affect the output |
| ApiExceptionFilter.ErrorText | backend/src/api-response/api-exception.filter.ts:22-27 | a string response is used verbatim; an array message is joined with ', '; a non-empty string message is used as it is; a missing or empty message gives the fallback; an object response never gives empty text when the fallback is non-empty |
| ApiExceptionFilter.Catch | backend/src/api-response/api-exception.filter.ts:16-37 | the reply status equals the body's statusCode and success is false; an HttpException keeps its status and gets the derived message; anything else gives 500 'Something went wrong' |
| ApiExceptionFilter.TextResponseVerbatim | backend/src/api-response/api-exception.filter.ts:22-24 | a string response is the error text unchanged |
| ApiExceptionFilter.ManyMessagesJoined | backend/src/api-response/api-exception.filter.ts:25-26 | an array message is joined with ', ' |
| ApiExceptionFilter.OwnMessageUsed | backend/src/api-response/api-exception.filter.ts:27 | a response object with a non-empty `message` reaches the client with that message as its error text |
| ApiExceptionFilter.MissingMessageFallsBack | backend/src/api-response/api-exception.filter.ts:27 | a missing or empty message falls back to the exception's own message |
| ApiExceptionFilter.UnexpectedLeaksNothing | backend/src/api-response/api-exception.filter.ts:32-37 | the reply to a non-HTTP exception does not depend on the exception |
| ApiExceptionFilter.BuiltInExceptionReply | backend/src/api-response/api-exception.filter.ts:16-29 | a built-in exception thrown with a message reaches the client with its kind's status and that message |
| ApiExceptionFilter.DatabaseFailureReply | backend/src/api-response/api-exception.filter.ts:16-29 | every mapped database failure reaches the client as 409, 503 or 500 |
| JwtAuthGuard.AuthorizationHeader | backend/src/auth/guards/jwt-auth.guard.ts:15 | the header is 'authorization' when that is truthy, otherwise exactly 'Authorization' (or none when that is absent); the result is truthy iff either header is |
| JwtAuthGuard.BearerToken | backend/src/auth/guards/jwt-auth.guard.ts:16-22 | a missing, empty or multi-valued header gives 'Missing Authorization header'; a present single header that is refused gives 'Invalid Authorization format'; an accepted token is non-empty and has no space; every refusal is Unauthorized |
| JwtAuthGuard.BearerAccepted | backend/src/auth/guards/jwt-auth.guard.ts:19-22 | `Bearer <token>` followed by nothing or by a space and more text yields that token |
| JwtAuthGuard.OnlyBearerAccepted | backend/src/auth/guards/jwt-auth.guard.ts:19-22 | an accepted header is exactly `Bearer`, one space and the token, then nothing or a space and more text (converse of BearerAccepted) |
| JwtAuthGuard.DoubleSpaceRefused | backend/src/auth/guards/jwt-auth.guard.ts:19-21 | `Bearer  x` is refused with 'Invalid Authorization format' |
| JwtAuthGuard.OtherSchemeRefused | backend/src/auth/guards/jwt-auth.guard.ts:19-21 | any first piece other than `Bearer` is refused with 'Invalid Authorization format' |
| JwtAuthGuard.LowerCaseSchemeRefused | backend/src/auth/guards/jwt-auth.guard.ts:20-21 | the scheme is case-sensitive: `bearer` is refused |
| JwtAuthGuard.ExtraPiecesIgnored | backend/src/auth/guards/jwt-auth.guard.ts:19 | `Bearer a b` yields the token `a` |
| JwtAuthGuard.CanActivate | backend/src/auth/guards/jwt-auth.guard.ts:13-30 | never returns false; succeeds iff the token parses and verifies; `req.user` becomes the verified payload; a header error is passed on; a verify failure gives 'Invalid or expired token'; every failure leaves `req.user` unchanged |
| BasicAuth.EnvOr | client/middleware.ts:3-4 | an unset or empty variable gives the fallback, otherwise its value; a non-empty fallback gives a non-empty result |
| BasicAuth.SplitCredentials | client/middleware.ts:11-13 | with a ':' the text is user, ':', pass, and user has no ':'; without one, both are '' |
| BasicAuth.SplitJoined | client/middleware.ts:11-13 | splitting `user:pass` gives back user and pass whenever user has no ':' (pass may contain ':') |
| BasicAuth.NoColonNeverMatches | client/middleware.ts:12-13 | text without ':' never matches a non-empty user |
| BasicAuth.ConfiguredNonEmpty | client/middleware.ts:3-4 | the expected credentials are never empty |
| DocsMiddleware.DecodeBasicAuth | client/middleware.ts:6-18 | a null header or one not starting with 'Basic ' gives null; a 'Basic ' header gives a pair iff its payload decodes, and the pair is always the `SplitCredentials` of the decoded text |
| DocsMiddleware.Middleware | client/middleware.ts:20-34 | a path outside '/docs' passes; on '/docs' it passes iff the decoded credentials equal the expected ones; every refusal is 401 'Authentication required' with `Basic realm="Swagger"` |
| DocsMiddleware.NotBasicRefused | client/middleware.ts:25-33 | on '/docs' a missing header or one without the 'Basic ' prefix is refused |
| DocsMiddleware.GrantedIff | client/middleware.ts:25-28 | on '/docs' access is granted exactly when the decoded text splits into the expected user and password |
| DocsMiddleware.DecodedPairGranted | client/middleware.ts:11-28 | decoded `user:pass` is granted iff user and pass equal the expected ones |
| DocsMiddleware.NoColonRefused | client/middleware.ts:11-28 | decoded text without ':' is always refused |
| SwaggerDocsGuard.Guard | backend/src/main.ts:15-33 | a missing header or one without 'Basic ' gives 401 'Authentication required'; otherwise the result is next() or 401 'Access denied', both refusals with the realm header |
| SwaggerDocsGuard.NextIff | backend/src/main.ts:22-27 | next() is called exactly when the decoded text splits into the configured user and password |
| SwaggerDocsGuard.ExpectedGranted | backend/src/main.ts:22-27 | sending exactly `user:pass` (user without ':') is accepted |
| SwaggerDocsGuard.DefaultsApply | backend/src/main.ts:13-14 | with the variables unset or empty, `chat2mail:a8a8a8a8` is accepted |
| SwaggerDocsGuard.SameDecisionAsClient | backend/src/main.ts:15-33 | the server closure lets through exactly the '/docs' requests that client/middleware.ts lets through |
| Notification.Credentials | backend/src/notification/notification.service.ts:18-26 | a service account exists iff all three FIREBASE_* settings are present and non-empty, and it carries those three values |
| Notification.Issued | backend/src/notification/notification.service.ts:46-89 | the sends started are a prefix of the planned sends (e-mail, then one push per token); all of them when push is configured or not asked for, only e-mail sends when push is asked for but unconfigured |
| Notification.Dispatch | backend/src/notification/notification.service.ts:58-116 | fails with 'Push notification not configured on server' iff push is asked for but unconfigured; otherwise 'Notifications processed' with one entry per outcome, entry k being outcome k's |
| Notification.NotificationService.constructor | backend/src/notification/notification.service.ts:13-40 | `firebaseApp` is set iff the credentials are complete; it is the existing default app if there is one, else a new app with those credentials |
| Notification.NotificationService.SendNotification | backend/src/notification/notification.service.ts:42-121 | the sends started are `Issued` (e-mail first, then one push per token; only the e-mail when push is unconfigured) and the reply is `Dispatch` of the outcomes |
| Notification.EmailSentFirst | backend/src/notification/notification.service.ts:46-56 | an e-mail part gives exactly one send, the first, carrying from, to, subject, text, templatePath and templateData unchanged; every later send is a push |
| Notification.PushSendsInTokenOrder | backend/src/notification/notification.service.ts:63-89 | k tokens add exactly k sends after the e-mail; the i-th carries token i, title, body = message and imageUrl = image |
| Notification.PushSendsAt | backend/src/notification/notification.service.ts:64-72 | the i-th push send is the message for the i-th token |
| Notification.NotConfiguredFails | backend/src/notification/notification.service.ts:58-62 | push requested while unconfigured: the call fails with 'Push notification not configured on server' and no push send is started |
| Notification.ReportMatchesSends | backend/src/notification/notification.service.ts:108-116 | one entry per issued send; entry i is 'fulfilled' with outcome i's value and no error, or 'rejected' with its reason and no value |
| Notification.FaultIsolation | backend/src/notification/notification.service.ts:110-115 | changing one outcome changes no other entry |
| Notification.EmptyRequest | backend/src/notification/notification.service.ts:44-116 | a request with neither part gives 'Notifications processed' with no results |
| Notification.NotificationService.TestPushNotification | backend/src/notification/notification.service.ts:123-147 | fails when unconfigured; otherwise sends one message with the fixed title and body to the token and returns its message id, or fails with the provider's error |
| Auth.Find | backend/src/auth/auth.service.ts:31-33 | the index of the first row whose email (or id, lines 81-84) is the key, or -1 exactly when no row has it |
| Auth.Authenticate | backend/src/auth/auth.service.ts:54-63 | accepts iff the email exists, its stored password is non-empty and compare succeeds; an unknown email, a missing password and a wrong password all give the same 'Invalid credentials' |
| Auth.CeilDiv | backend/src/auth/auth.service.ts:169 | the least page count covering total: pages times limit is at least total, and one page fewer is not |
| Auth.Ordered | backend/src/auth/auth.service.ts:160-162 | ascending keeps creation order; descending lists row k as the k-th newest |
| Auth.Paginate | backend/src/auth/auth.service.ts:148-181 | defaults 10/1/ASC; at most limit rows, exactly min(limit, total - skip) when skip is below total; row k is ordered row skip + k; totalPages is the integer ceiling; hasPrev iff page > 1 |
| Auth.HasNextIff | backend/src/auth/auth.service.ts:169-178 | hasNext iff page times limit is below total |
| Auth.RowOnItsPage | backend/src/auth/auth.service.ts:149-164 | ordered row j is entry j mod limit of page j / limit + 1 |
| Auth.NewestFirst | backend/src/auth/auth.service.ts:160-164 | a 'DESC' first page starts with the newest row |
| Auth.AuthService.constructor | backend/src/auth/auth.service.ts:21-24 | the service starts over an empty, well-formed user table whose next id is 1 (the database handle of the source is this table) |
| Auth.AuthService.Register | backend/src/auth/auth.service.ts:26-50 | mismatch gives BadRequest 'Passwords do not match'; a database fault is mapped; a taken email gives Conflict 'Email already in use'; each failure leaves the table unchanged; success appends one row (new id, name null, hashed password) and returns it without the password |
| Auth.AuthService.Login | backend/src/auth/auth.service.ts:52-77 | succeeds iff Authenticate accepts; otherwise 'Invalid credentials' (or the mapped fault) and no change; success changes only that row's lastLoginAt/updatedAt and returns sign(id, email) with {id, email, name} |
| Auth.AuthService.ChangePassword | backend/src/auth/auth.service.ts:79-104 | an unknown id or a user without password gives 'User not found'; otherwise only that row's password (and updatedAt) changes, the password to the hash of the new one |
| Auth.AuthService.UpdateUser | backend/src/auth/auth.service.ts:106-144 | an unknown id gives 'User not found'; an email held by another user gives Conflict 'Email already in use'; otherwise only the given fields of that row change |
| Auth.AuthService.GetUsers | backend/src/auth/auth.service.ts:146-185 | a database fault is mapped; otherwise the reply is `Paginate` of the current table (so every property proved of `Paginate` holds of it), whose total is the table size |
| PasswordField.GetPasswordStrength | client/components/molecules/PasswordField.tsx:18-34 | the score is the number of the five criteria met, at most 5; label and colour are those at the score's index, or 'Very Weak'/'text-red-500' |
| PasswordField.ScoreMonotone | client/components/molecules/PasswordField.tsx:19-24 | appending characters never lowers the score |
| PasswordField.LabelsByScore | client/components/molecules/PasswordField.tsx:26-32 | scores 0 to 4 get the label and colour at their own index (the two literal ends are shown as documentation) |
| PasswordField.FullScoreLabelledVeryWeak | client/components/molecules/PasswordField.tsx:26-32 | a password meeting all five criteria scores 5 and is labelled 'Very Weak' in red while its bar is green |
| PasswordField.StrongExample | client/components/molecules/PasswordField.tsx:19-32 | example, not a property: 'Abcdefg1!' is one instance of FullScoreLabelledVeryWeak |
| PasswordField.BarColor | client/components/molecules/PasswordField.tsx:85-90 | red for score at most 1, orange for 2, yellow for 3, blue for 4, green for 5 |
| PasswordField.StrengthShown | client/components/molecules/PasswordField.tsx:48 | the strength is computed iff showStrength is set and the value is non-empty |
| EmailPattern.Matches | client/components/organisms/SignUpForm.tsx:27-28 | a match has at least five characters, contains '@', and neither starts nor ends with '@' |
| EmailPattern.MatchesIff | client/components/organisms/SignUpForm.tsx:27-28 | the pattern matches iff there is no whitespace, exactly one '@' with a non-empty part before it, and a '.' in the domain that is neither its first nor its last character |
| EmailPattern.TwoAtSignsRefused | client/components/organisms/SignUpForm.tsx:27-28 | an address with two '@' never matches |
| SignUpForm.FormValid | client/components/organisms/SignUpForm.tsx:27-30 | the form is valid iff the email is a well-formed address, the password has at least 8 characters and the confirmation equals it |
| SignUpForm.EmailError | client/components/organisms/SignUpForm.tsx:32 | the email error is set iff the email is non-empty and not a well-formed address |
| SignUpForm.PasswordError | client/components/organisms/SignUpForm.tsx:33-37 | the password error is set iff the password is non-empty and shorter than 8 |
| SignUpForm.ConfirmError | client/components/organisms/SignUpForm.tsx:38-42 | the confirmation error is set iff the confirmation is non-empty and differs from the password |
| SignUpForm.ValidFormShowsNoError | client/components/organisms/SignUpForm.tsx:26-45 | a valid form shows no error |
| SignUpForm.EmptyFormIsQuiet | client/components/organisms/SignUpForm.tsx:26-45 | the empty form is invalid and shows no error |
| SignUpForm.InvalidWithoutError | client/components/organisms/SignUpForm.tsx:26-45 | a form with an empty confirmation is invalid but shows no error |
| SignUpForm.Form.constructor | client/components/organisms/SignUpForm.tsx:18-24 | the fields start empty, with no errors and an invalid form, which is the effect's result on empty fields |
| SignUpForm.Form.Revalidate | client/components/organisms/SignUpForm.tsx:26-45 | the errors and the validity flag are recomputed from the three fields, which stay as they are |
| SignUpForm.Form.SetEmail | client/components/organisms/SignUpForm.tsx:72 | the email changes, the other fields stay, and the derived state is recomputed |
| SignUpForm.Form.SetPassword | client/components/organisms/SignUpForm.tsx:82 | the password changes, the other fields stay, and the derived state is recomputed |
| SignUpForm.Form.SetConfirmPassword | client/components/organisms/SignUpForm.tsx:92 | the confirmation changes, the other fields stay, and the derived state is recomputed |
| SignUpForm.Form.HandleSubmit | client/components/organisms/SignUpForm.tsx:47-52 | onSubmit is called iff the email is well formed, the password has at least 8 characters, the confirmation equals it and nothing is loading; the three values are passed unchanged |
| SignInForm.FormValid | client/components/organisms/SignInForm.tsx:26-28 | the form is valid iff the email is a well-formed address and the password is non-empty |
| SignInForm.NoMinimumLength | client/components/organisms/SignInForm.tsx:28 | a non-empty password shorter than 8 is enough to sign in, though sign-up refuses it |
| SignInForm.SignUpImpliesSignIn | client/components/organisms/SignInForm.tsx:26-31 | whatever can be signed up with can be signed in with |
| SignInForm.Form.constructor | client/components/organisms/SignInForm.tsx:20-23 | both fields start empty, with no email error and an invalid form |
| SignInForm.Form.Revalidate | client/components/organisms/SignInForm.tsx:25-32 | the email error (the same as sign-up's) and the validity flag are recomputed; the fields stay |
| SignInForm.Form.SetEmail | client/components/organisms/SignInForm.tsx:59 | the email changes, the password stays, and the derived state is recomputed |
| SignInForm.Form.SetPassword | client/components/organisms/SignInForm.tsx:69 | the password changes, the email stays, and the derived state is recomputed |
| SignInForm.Form.HandleSubmit | client/components/organisms/SignInForm.tsx:34-39 | onSubmit is called iff the email is well formed, the password is non-empty and nothing is loading, with both values unchanged |

## Left out

- The concurrency of `Promise.allSettled` and of the async sends. The outcome of each send is an input, given in submission order.
- Logging (`Logger`, `console.error`) has no effect on results and is not modelled.
- Firebase Admin, the mail service, bcrypt, JWT sign and verify, and Prisma are not modelled. They are parameters, or, for the database, the user table held in the service.
- Base64 decoding (`Buffer.from(..., 'base64')`) is a parameter. It returns `None` when it throws.
- The NestJS and Next.js wiring is not modelled: modules, controllers, Swagger setup, the validation pipe and rendering. The DTO constraints appear only as preconditions (`ValidQuery`).
- Auth.Paginate: `limit` and `page` are integers. The DTO admits any number of at least 1, and a fractional value is not modelled.
- Auth.Ordered: ordering by `createdAt` is modelled as insertion order. This assumes the clock does not run backwards. Ties are broken by insertion order, which the database does not promise.
- Auth.AuthService.Login: `updatedAt` is assumed to be an `@updatedAt` column, refreshed by every update (the schema is not part of this model). The same holds for ChangePassword and UpdateUser.
- Auth.AuthService.UpdateUser: a JSON `null` for `email` or `name` is not modelled. Fields are present or absent.
- A database fault is modelled as the first query of an operation failing. A failure of a later query, or a race between two requests, is not modelled.
- Notification: `deviceTokens` is assumed to be an array. An e-mail without any body field is handed to the mail service unchanged.
- PasswordField: the width percentage `(score / 5) * 100` is floating point and is not modelled. Neither is the `Math.random` input id.
- String lengths are counted in Unicode characters, not in UTF-16 code units. The two differ only outside the Basic Multilingual Plane.
- Whitespace for `trim` and `\s` is the ECMAScript WhiteSpace and LineTerminator set, written out as concrete characters.
- JsValue: numbers are integers here; NaN and fractional numbers are not modelled. NaN is falsy, so the interceptor would wrap it like the other falsy values.
- `hash` is a deterministic function parameter, but bcrypt salts every hash at random. No property here depends on two hashes of the same password being equal.
