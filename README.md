# cbweb in Dafny

This project models the core of cbweb, a Go toolkit for fasthttp web applications. The model covers:

- **Template registry** (`templates/template.go`). Registering a template strips a first-line `{{ extends "layout" }}` directive. Execution compiles a template with one level of layout, together with every other registered template, and caches the result under `executeTemplate:<name>`.
- **Flash store** (`flash.go`). Message lists are grouped by name, and reading a group consumes it.
- **View model** (`viewmodel.go`). This covers the recursive filtering of navigation items by permission, and the ten include kinds.
- **Form container** (`cbform/form.go`). Fields are looked up by name, and error texts are title-cased.
- **Middleware chain** (`middleware.go`). Handlers run in order until one refuses; errors go to an optional error handler; then the final handler runs.
- **Auth container and ACL** (`cbwebauth/auth.go`, `cbwebauth/acl.go`). The container tries providers in order and dispatches by provider name. The ACL matches permissions case-insensitively, using a `LoggedOut` base permission.
- **Basic-auth provider** (`cbwebauth/basicauth/basicauth.go`). This covers the `Authorization: Basic` header and credential lookup.
- **Database provider** (`cbwebauth/dbauth/dbauth.go`). Login tokens come from the `dbauthtoken` query argument or the `cbauth` cookie. It also covers login, registration and password-change validation, and the password update.
- **Common module** (`module/cbwebcommon/module.go`). This covers the default template functions, the cache-busting URL, the global templates, assembly of the template registry from page files, and the static file server.
- **Generator** (`cb_auto_generate/generate.go`). It embeds each global template file as a `[]byte` literal in a Go source file.

**Modelling choices**

- Go strings are modelled as Dafny strings whose characters are bytes. Template content is `seq<byte>`.
- Go's nil maps, pointers and function values become `Option` or `null`.
- Libraries the code calls are oracle parameters, given as function-typed values. These are html/template parsing and execution, JWT signing and parsing, bcrypt, checkmail, base64 and the file system.
- Provider behaviour on one request is a record of that provider's answers.
- Go map iteration order is an explicit `order` parameter, which is any enumeration of the keys.

**Notable behaviour of the code**

- A first line such as `{{extends "x"}}{{define ...}}` is stripped as a whole by `AddTemplate`, so the `define` is lost.
- The 10-byte length guard in `AddTemplate` can never change the outcome, because the directive is at least 15 bytes long (`Templates.LengthGuardIsRedundant`).
- `GenerateTemplate` passes a merged `FuncMap` to `NewInheritanceMultiTemplate`, which takes a `Dependencies` record. The model builds `Dependencies(merged, false, null)`: no caching and no cache provider.
- The `Provider` interface in auth.go:12 and :14 declares `Login` and `Register` as returning `(bool, []error)`. The basic and database providers return `(bool, map[string]error)` (basicauth.go:65 and :76, dbauth.go:192 and :269), so as written neither satisfies the interface. The model's `AuthContainer.Answer(ok, errors)` carries a list of error texts, and the providers' maps are bridged to it.

## Model

| member | source | states |
|---|---|---|
| ExtendsDirective.DecodeRune | templates/template.go:66 | a multi-byte read consumes 1 to 4 bytes, all at or above 0x80, and an invalid sequence reads as one byte of `RuneError` |
| ExtendsDirective.ReadRune | templates/template.go:66-67 | end of input exactly at the end; otherwise at least one byte; it reads `\n` exactly when the current byte is `\n`, and no other read swallows a `\n` |
| ExtendsDirective.FirstLine | templates/template.go:62-74 | the first line is never longer than the content |
| ExtendsDirective.FirstLineAtNewline | templates/template.go:62-74 | when the first `\n` is at k, the first line is the content up to and including it |
| ExtendsDirective.FirstLineWithoutNewline | templates/template.go:62-74 | content without `\n` is all first line |
| ExtendsDirective.FirstLineShape | templates/template.go:62-74 | the first line is a prefix, holds no `\n` before its last byte, ends in `\n` whenever it is shorter than the content |
| ExtendsDirective.ScanFirstLine | templates/template.go:62-74 | the rune-reading loop returns exactly `FirstLine(content)` |
| ExtendsDirective.DirectiveLength | templates/template.go:18 | every text the extends pattern matches is at least 15 bytes long and lies inside the input |
| ExtendsDirective.SpaceRunFacts | templates/template.go:18 | the run of spaces at i is made of spaces and is maximal |
| ExtendsDirective.LazyCaptureEnd | templates/template.go:18 | the lazy `(.+?)` capture ends at the first closing `" *}}` after at least one byte, not crossing a newline |
| ExtendsDirective.MatchAtSound | templates/template.go:18 | every match the matcher returns at p is an occurrence of the directive pattern at p |
| ExtendsDirective.MatchAtComplete | templates/template.go:18 | wherever the pattern occurs at p the matcher finds a match at p, no longer than that occurrence's name |
| ExtendsDirective.MatchAtShortest | templates/template.go:18 | the captured name is the shortest name of any occurrence at p and a prefix of each |
| ExtendsDirective.FindFromSpec | templates/template.go:82 | the search from p fails exactly when no position from p on matches, and otherwise returns the leftmost match |
| ExtendsDirective.FindExtendsLeftmost | templates/template.go:82 | `FindSubmatch` fails exactly when no position matches, and otherwise returns the leftmost match |
| ExtendsDirective.FindExtendsIsDirective | templates/template.go:82-83 | a layout name is found if and only if the line contains an occurrence of the directive |
| ExtendsDirective.FindExtendsName | templates/template.go:82-83 | a found layout name is non-empty and holds no newline, and the line is at least 15 bytes |
| ExtendsDirective.ShortLineNeverMatches | templates/template.go:76-79 | a line shorter than 10 bytes never matches |
| Templates.ParseTemplateFileSpec | templates/template.go:58-87 | a registered file either keeps the whole content with no layout, or has the captured layout and the content after the first line |
| Templates.LengthGuardIsRedundant | templates/template.go:76-85 | registration gives the same file with or without the 10-byte guard |
| Templates.NoDirectiveKeepsContent | templates/template.go:76-87 | without a directive on the first line, the content is stored unchanged with no layout |
| Templates.RegisterTwice | templates/template.go:51-56 | with caching on, the first registration of a name wins; with caching off, the last wins |
| Templates.Others | templates/template.go:124-127 | the other templates are exactly the enumerated names other than the target |
| Templates.OthersPassSuccess | templates/template.go:124-141 | a successful pass over the others parses each one's source after its layout, in enumeration order, and each one's layout exists |
| Templates.OthersPassErrorSticks | templates/template.go:128-140 | once a layout is missing or a parse fails, later templates do not change the error |
| Templates.InheritanceMultiTemplate.CompileNamed | templates/template.go:103-142 | the compilation on a cache miss yields exactly `Compile`: the missing template or layout, the first parse error in iteration order, or the compiled set |
| Templates.CompileSuccess | templates/template.go:103-141 | a successful compile means the name and every layout exist; the result is the target's source then the others' sources, parsed in order |
| Templates.EnumerationCovers | templates/template.go:124 | an enumeration of the registry visits every registered name |
| Templates.MissingLayoutFails | templates/template.go:109-113 | a missing layout of any registered template makes execution fail |
| Templates.CacheProvider.Get | dependencies.go:46-50 | a lookup answers the stored value, or nothing |
| Templates.CacheProvider.Set | dependencies.go:46-50 | stores the value and TTL under the key, leaving other keys alone |
| Templates.CacheProvider.Delete | dependencies.go:46-50 | removes exactly the key |
| Templates.InheritanceMultiTemplate.constructor | templates/template.go:42-49 | an empty registry with the given functions, cache flag and cache provider |
| Templates.InheritanceMultiTemplate.AddTemplate | templates/template.go:51-90 | never fails, and the registry becomes `Added(old registry, cache, name, content)` |
| Templates.InheritanceMultiTemplate.ExecuteTemplate | templates/template.go:92-149 | on a cache hit it runs the cached set; otherwise it compiles, stores the result for 24 hours under `executeTemplate:<name>` when a provider exists, and runs it; the error texts are the source's, and the registry is unchanged |
| FlashStore.AddAppends | flash.go:12-17 | adding puts the message last in its group and leaves other groups unchanged |
| FlashStore.AddThenHasAndGet | flash.go:12-37 | after an add the group has messages, and reading it yields them in order |
| FlashStore.GetConsumes | flash.go:19-29 | reading a group empties that group only |
| FlashStore.NilHasNothing | flash.go:31-34 | a store with a nil map has no messages |
| FlashStore.Flash.constructor | flash.go:8-10 | a new store has a nil map |
| FlashStore.Flash.AddMessage | flash.go:12-17 | the store becomes `WithMessage(old store, group, message)` |
| FlashStore.Flash.GetMessages | flash.go:19-29 | returns the group's list, and the store becomes a non-nil map without the group |
| FlashStore.Flash.HasMessages | flash.go:31-37 | the answer is `Has` of the current messages: true exactly when the map is non-nil and the group's list is non-empty |
| FlashStore.AddReadRead | flash.go:12-37 | add, then read twice: the store has the message, the first read returns it, the second returns nothing |
| ViewModel.Kept | viewmodel.go:44-63 | an item contributes at most one item |
| ViewModel.Filter | viewmodel.go:44-63 | filtering never lengthens the list |
| ViewModel.FilterConcat | viewmodel.go:44-63 | filtering works item by item: it distributes over concatenation |
| ViewModel.FilterLeaf | viewmodel.go:47-50 | a leaf is kept exactly when it is permitted |
| ViewModel.FilterBranch | viewmodel.go:51-59 | a parent is kept, with its filtered children, exactly when some child survives; its own flag does not matter |
| ViewModel.FilterIsFiltered | viewmodel.go:44-63 | every surviving leaf is permitted and every surviving parent has surviving children |
| ViewModel.FilterFixesFiltered | viewmodel.go:44-63 | an already-filtered tree is left as it is |
| ViewModel.FilterIdempotent | viewmodel.go:40-63 | filtering twice is filtering once |
| ViewModel.FilterPermitted | viewmodel.go:40-63 | the loop returns exactly `Filter(navItems)` |
| ViewModel.GetFlash | viewmodel.go:108-113 | the view model's flash if set, otherwise a fresh empty one |
| ViewModel.KindsDistinct | viewmodel.go:7-18 | the ten include kinds are pairwise distinct |
| ViewModel.EachTestMatchesOneKind | viewmodel.go:115-153 | each `Is...` test accepts exactly its own include kind among the ten |
| Form.LastNamed | cbform/form.go:21-29 | none exactly when no field has the name; otherwise the last field with that name |
| Form.GetField | cbform/form.go:31-38 | the stored field, or a blank field for an unknown name |
| Form.New | cbform/form.go:21-29 | for every name, the container answers the last field passed with that name, or the blank field |
| Form.TitleChar | cbform/form.go:66 | lower-case ASCII letters become upper case and every other character is unchanged |
| Form.TitleFrom | cbform/form.go:66 | each character after a separator is title-cased and the rest are copied; the length is kept |
| Form.Title | cbform/form.go:66 | the first character and every character after a separator are title-cased, all others copied |
| Form.TitleIdempotent | cbform/form.go:66 | title-casing twice is title-casing once |
| Form.GetError | cbform/form.go:64-70 | empty without an error, the title-cased error text otherwise |
| Form.HasError | cbform/form.go:72-74 | true exactly when the field carries an error, whatever its message |
| Form.ErrorTextAndHasError | cbform/form.go:64-74 | a non-empty error text implies `HasError`, and with an error the text is empty only for an empty message |
| Form.UnknownFieldIsBlank | cbform/form.go:31-38 | an unknown field has no error, no name and no value |
| Http.Redirect | cbwebauth/auth.go:55-57 | a redirect sets the location and status and keeps the request's URI, headers and content type |
| Middleware.AddMiddlewareReplaces | middleware.go:36-40 | `AddMiddleware` replaces the list (it does not append) and keeps the rest |
| Middleware.SetFinalReplaces | middleware.go:42-46 | `SetFinal` replaces the final handler and keeps the list |
| Middleware.Reported | middleware.go:50-55 | at most one error per handler run, and none without an error handler |
| Middleware.Handle | middleware.go:48-64 | runs handlers in order until the first refusal; reports the errors of the handlers it called; runs the final handler exactly when none refused and one is set |
| Middleware.HtmlMiddleware | middleware.go:66-70 | always passes with no error; the content type becomes `text/html` and every other part of the request and response is kept |
| Middleware.HtmlChainPasses | middleware.go:48-70 | a chain of HTML middlewares never refuses and reports nothing |
| AuthContainer.FirstAccepting | cbwebauth/auth.go:44-53 | the first provider that is authenticated or whose login succeeds, and none earlier |
| AuthContainer.Tried | cbwebauth/auth.go:44-53 | the number of providers tried never exceeds their number |
| AuthContainer.UnauthenticatedMembers | cbwebauth/auth.go:44-53 | login is attempted exactly on the tried providers that were not authenticated |
| AuthContainer.AuthMiddleware | cbwebauth/auth.go:39-60 | passes with no providers; otherwise passes exactly when some provider accepts; never errors; attempts logins as `Unauthenticated` says; redirects with 302 on refusal when a URI is set |
| AuthContainer.FirstAcceptingIs | cbwebauth/auth.go:44-53 | the first accepting provider is the k whose predecessors all refuse, and the middleware consults k+1 providers (all of them when none accepts) |
| AuthContainer.UnauthenticatedInOrder | cbwebauth/auth.go:44 | login attempts happen in provider order |
| AuthContainer.LoginOnlyWhenNeeded | cbwebauth/auth.go:45-48 | login is attempted only on a provider that was not authenticated |
| AuthContainer.FirstNamed | cbwebauth/auth.go:66-72 | the first provider with the name, and none earlier |
| AuthContainer.Find | cbwebauth/auth.go:66-72 | the provider search returns exactly `FirstNamed` |
| AuthContainer.FirstNamedIs | cbwebauth/auth.go:66-72 | the first provider with the name is the k whose predecessors all have other names |
| AuthContainer.GetUniqueIdentifier | cbwebauth/auth.go:62-74 | the no-providers error, the named provider's identifier, or the not-found error |
| AuthContainer.IsAuthenticated | cbwebauth/auth.go:76-88 | true with the no-providers error, the named provider's answer, or false with the not-found error |
| AuthContainer.Login | cbwebauth/auth.go:90-103 | the no-providers error, the named provider's login result and errors, or the not-found error |
| AuthContainer.Register | cbwebauth/auth.go:105-118 | the no-providers error, the named provider's registration result and errors, or the not-found error |
| AuthContainer.Logout | cbwebauth/auth.go:120-138 | the no-providers error, the named provider's logout result, with a redirect to the logout URI whenever one is set, whatever the provider's answer, or the not-found error |
| AuthContainer.EarlierNameShadows | cbwebauth/auth.go:66-72 | with duplicate names, the earlier provider is the one dispatched to |
| Acl.Permitted | cbwebauth/acl.go:55-65 | true exactly when some allowed permission equals some user permission after lower-casing |
| Acl.IntersectsSymmetric | cbwebauth/acl.go:55-65 | the match is symmetric, and an empty list matches nothing |
| Acl.IntersectsAppend | cbwebauth/acl.go:47 | the list of a prefix plus the provider's permissions matches exactly when one of the two does |
| Acl.PermittedCtx | cbwebauth/acl.go:34-53 | permitted without an auth container; otherwise exactly when some provider's permissions, after the base list, match |
| Acl.NoProvidersDenies | cbwebauth/acl.go:46-52 | a container with no providers permits nothing |
| Acl.BaseGrantsLoggedOut | cbwebauth/acl.go:39-49 | an unauthenticated request gets the `LoggedOut` permission; once any provider authenticates, only provider permissions count |
| Acl.DeniedRedirect | cbwebauth/acl.go:27 | a redirect without the placeholder is kept as it is, and the placeholder alone becomes the request URI |
| Acl.DeniedRedirectWithoutPlaceholder | cbwebauth/acl.go:27 | a redirect without the placeholder is used as it is |
| Acl.DeniedRedirectToRequest | cbwebauth/acl.go:27 | the placeholder alone redirects back to the request URI |
| Acl.DeniedRedirectReplacesFirst | cbwebauth/acl.go:27 | every placeholder is replaced: the text before the first one is kept, that one becomes the request URI, and the rest is treated the same way |
| Acl.Middleware | cbwebauth/acl.go:16-32 | passes without an auth container or when permitted; otherwise refuses, redirecting with 302 to the redirect with the placeholder replaced, when a redirect is set |
| BasicAuth.GetCredentials | cbwebauth/basicauth/basicauth.go:84-97 | empty pair unless the header starts with `Basic ` and decodes; otherwise the text before the first colon and the text after it, or empty when there is no colon |
| BasicAuth.CredentialsRoundTrip | cbwebauth/basicauth/basicauth.go:84-97 | encoding `user:pass` behind `Basic ` gives back the user and password, for a user without a colon |
| BasicAuth.SchemeIsCaseSensitive | cbwebauth/basicauth/basicauth.go:86 | a lower-case `basic ` scheme gives no credentials |
| BasicAuth.GetUniqueIdentifier | cbwebauth/basicauth/basicauth.go:31-35 | the identifier is exactly the user part of the decoded credentials, which holds no colon |
| BasicAuth.FirstWithUsername | cbwebauth/basicauth/basicauth.go:41-45 | the first credential with the user name, and none earlier |
| BasicAuth.UserPermissions | cbwebauth/basicauth/basicauth.go:37-49 | the first credential with the user name gives its permissions followed by `LoggedIn`; an empty or unknown user gets none |
| BasicAuth.GetPermissions | cbwebauth/basicauth/basicauth.go:37-49 | the search loop returns exactly `UserPermissions` of the decoded user |
| BasicAuth.FirstWithUsernameIs | cbwebauth/basicauth/basicauth.go:41-45 | the first credential with the user name is the k whose predecessors all have other names |
| BasicAuth.Challenge | cbwebauth/basicauth/basicauth.go:59-60 | status 401 with `WWW-Authenticate: Basic realm=Restricted`, the rest of the response unchanged |
| BasicAuth.IsAuthenticated | cbwebauth/basicauth/basicauth.go:51-63 | true exactly when some credential has the user name and its hash accepts the password; otherwise the response becomes the challenge |
| BasicAuth.Login | cbwebauth/basicauth/basicauth.go:65-67 | always succeeds with no errors |
| BasicAuth.Register | cbwebauth/basicauth/basicauth.go:76-78 | always succeeds with no errors |
| BasicAuth.ChangePassword | cbwebauth/basicauth/basicauth.go:80-82 | always succeeds with no errors |
| BasicAuth.Logout | cbwebauth/basicauth/basicauth.go:69-74 | always fails, and the response becomes the 401 challenge with `WWW-Authenticate: Basic realm=Restricted`, the rest of the response unchanged |
| BasicAuth.AsProvider | cbwebauth/basicauth/basicauth.go:27-82 | to the container, basic auth is named `basicauth`, its login and registration always succeed with no errors and its logout always fails; its identifier is GetUniqueIdentifier's, it is authenticated exactly when the decoded user and password match a credential, and its permissions are UserPermissions of the decoded user |
| BasicAuth.BasicProviderAlwaysAccepts | cbwebauth/basicauth/basicauth.go:65-67 | because its login always succeeds, the container accepts at or before a basic provider |
| DbAuth.UserRecord.constructor | cbwebauth/dbauth/dbauth.go:35-42 | a record with the given email, password and permissions |
| DbAuth.UserRecord.SetPassword | cbwebauth/dbauth/dbauth.go:35-42 | sets the password |
| DbAuth.New | cbwebauth/dbauth/dbauth.go:63-81 | fails with `missing GetUserRecordsFunc` first, then `missing GenerateAuthHashFunc`; otherwise succeeds with those functions and with the secret, save function and work factor copied unchanged |
| DbAuth.ClaimedUser | cbwebauth/dbauth/dbauth.go:94-101 | the first user whose email equals the claim's ignoring case and whose auth hash equals the claim's, and none earlier |
| DbAuth.GetUserFromLoginToken | cbwebauth/dbauth/dbauth.go:83-116 | the loop returns exactly `TokenUser`: nothing for an invalid token, else the claimed user |
| DbAuth.GetUniqueIdentifier | cbwebauth/dbauth/dbauth.go:137-156 | the email of a valid query token's user; otherwise that of a valid cookie's user; otherwise empty |
| DbAuth.GetPermissions | cbwebauth/dbauth/dbauth.go:158-177 | the request user's permissions followed by `LoggedIn`, or nothing |
| DbAuth.IsAuthenticated | cbwebauth/dbauth/dbauth.go:179-190 | with a query token, whether it is valid; otherwise whether a non-empty cookie is valid |
| DbAuth.InvalidTokenShadowsCookie | cbwebauth/dbauth/dbauth.go:137-190 | with an invalid query token and a valid cookie, the request's user (which gives the identifier and the permissions) is the cookie's user |
| DbAuth.LoginValidation | cbwebauth/dbauth/dbauth.go:195-207 | the email error is there when the email is missing or badly formed, with the valid-email message winning when the format check fails; the password error is there exactly when it is missing |
| DbAuth.FirstEmail | cbwebauth/dbauth/dbauth.go:213-214 | the first user whose email equals the given one ignoring case, and none earlier |
| DbAuth.FirstEmailIs | cbwebauth/dbauth/dbauth.go:213-214 | the first such user is the k whose predecessors all differ |
| DbAuth.FindByEmail | cbwebauth/dbauth/dbauth.go:213-214 | the loop over the users stops at exactly the user `FirstEmail` names, or finds none when it names none |
| DbAuth.Login | cbwebauth/dbauth/dbauth.go:192-240 | validation errors; otherwise the first email match decides between the cookie, `invalid password` and `user not found`; then the token branch; otherwise `invalid request`; success always sets a cookie with no errors |
| DbAuth.PasswordFormValidation | cbwebauth/dbauth/dbauth.go:275-295 | the email, password and confirmation errors with their conditions and messages (`please provide a password` for a missing password), the mismatch message winning for the confirmation |
| DbAuth.ValidatePasswordForm | cbwebauth/dbauth/dbauth.go:275-295 | the checks produce exactly `PasswordFormValidation` |
| DbAuth.Register | cbwebauth/dbauth/dbauth.go:269-313 | `invalid request` without a form; then the validation errors; then the unresolvable-host error; otherwise success |
| DbAuth.LastLowered | cbwebauth/dbauth/dbauth.go:353-358 | the last user whose lower-cased email equals the posted email exactly, and none later |
| DbAuth.FindLastLowered | cbwebauth/dbauth/dbauth.go:353-358 | the loop over the users keeps exactly the user `LastLowered` names |
| DbAuth.ChangePassword | cbwebauth/dbauth/dbauth.go:315-379 | the error cases in source order; on success exactly the chosen user's password becomes the new hash, and no other record changes |
| DbAuth.ChangePasswordIsCaseSensitive | cbwebauth/dbauth/dbauth.go:355 | a posted email holding an upper-case letter never finds a user |
| DbAuth.LoginIgnoresCase | cbwebauth/dbauth/dbauth.go:214 | login finds a user by the lower-cased form of the stored email |
| WebCommon.DefaultTemplateFuncs | module/cbwebcommon/module.go:167-174 | the four default helper names |
| WebCommon.MergeTemplateFuncs | module/cbwebcommon/module.go:125-128 | the map loop gives the defaults overridden by the custom functions |
| WebCommon.CustomFuncsOverride | module/cbwebcommon/module.go:125-128 | a custom function wins over a default of the same name; other defaults stay; the names are the union |
| WebCommon.FirstFailure | module/cbwebcommon/module.go:142-154 | the first page file that cannot be opened or read, and none earlier |
| WebCommon.FirstFailureIs | module/cbwebcommon/module.go:142-154 | the first failure is the k whose predecessors all read |
| WebCommon.WithFilesLastWins | module/cbwebcommon/module.go:142-160 | a page file registered twice keeps its last content; other entries are unchanged |
| WebCommon.AddGlobalTemplates | module/cbwebcommon/module.go:132-137 | the registry holds exactly the global templates, parsed, and no error is reported |
| WebCommon.AddPageFiles | module/cbwebcommon/module.go:139-162 | the first file that cannot be opened or read gives its error; otherwise every file is registered in order, the last one of a name winning |
| WebCommon.GenerateTemplate | module/cbwebcommon/module.go:124-165 | no file names gives nil and `no fileNames provided`; a failing file gives nil with that error; otherwise the registry of the global and page templates |
| WebCommon.DefaultCdnUrl | module/cbwebcommon/module.go:180-187 | the URL, a `?`, then the version, or in `dev` the current Unix time exactly as `strconv.Itoa` writes it (digits, no leading zero), which parses back to the time |
| WebCommon.CdnUrlIgnoresClock | module/cbwebcommon/module.go:180-187 | outside `dev` the URL does not depend on the clock |
| WebCommon.GetGlobalTemplates | module/cbwebcommon/module.go:79-86 | exactly four entries, each named under `-global-/cbwebcommon/`, with the master, nav, flash and input-text bytes each under its own name |
| WebCommon.TruncatePath | module/cbwebcommon/module.go:93-96 | the path is the prefix of the URI before its first `?`, or the whole URI without one |
| WebCommon.DefaultFileServer | module/cbwebcommon/module.go:92-122 | a missing file gives the 404 page; another open error or a stat error is reported and gives the 500 page; otherwise the truncated path is served |
| WebCommon.FileServerOutcomes | module/cbwebcommon/module.go:92-112 | a served path holds no `?` and is a prefix of the URI; the 404 page reports nothing; a reported error always comes with the 500 page |
| WebCommon.MissingFileMessages | module/cbwebcommon/module.go:99 | both "file does not exist" and "no such file or directory" anywhere in the message count as missing |
| AutoGenerate.Decimals | cb_auto_generate/generate.go:78-80 | one decimal per byte, each parsing back to its byte, holding no comma, non-empty and without a leading zero, as `strconv.Itoa` writes it |
| AutoGenerate.EncodeBytes | cb_auto_generate/generate.go:76-80 | the loop yields exactly `Decimals(fileBytes)` |
| AutoGenerate.ByteArrayRoundTrip | cb_auto_generate/generate.go:78-93 | the joined literal has one comma between neighbours, and splitting it and parsing each piece gives back the bytes; an empty file gives an empty literal |
| AutoGenerate.LiteralsHaveNoBrace | cb_auto_generate/generate.go:82-89 | the template's text outside the placeholders holds no `{` except the two Go braces |
| AutoGenerate.Pairs | cb_auto_generate/generate.go:90-93 | every placeholder passed to the replacer is non-empty |
| AutoGenerate.SourceShape | cb_auto_generate/generate.go:82-104 | the generated source is the template with each placeholder replaced once by its value, values not rescanned, Go braces kept |
| AutoGenerate.Output | cb_auto_generate/generate.go:82-94 | the file is written to the entry's output path, and its source is the header, package name, do-not-edit notice, file name, regenerate notice, function name, signature and the byte array literal of the read bytes, in that order |
| AutoGenerate.Generate | cb_auto_generate/generate.go:70-97 | files are processed in table order; each success writes the expected source; the first read or write failure ends the run |
| GoStrings.ToLower | cbwebauth/dbauth/dbauth.go:95 | ASCII upper-case letters are lowered, everything else is kept, and the length is preserved |
| GoStrings.EqualFoldIsEquivalence | cbwebauth/acl.go:58 | comparing after lower-casing is reflexive, symmetric and transitive |
| GoStrings.PairAt | cb_auto_generate/generate.go:101-104 | the replacer picks the first pair, in argument order, whose pattern starts here |
| GoStrings.ReplaceNoOccurrence | cbwebauth/acl.go:27 | text where no pattern starts is left unchanged |
| GoStrings.ReplaceCopies | cb_auto_generate/generate.go:101-104 | a character where no pattern starts is copied |
| GoStrings.ReplaceCopiesPrefix | cbwebauth/acl.go:27 | a prefix at none of whose positions a pattern starts is copied, and the pass goes on after it |
| GoStrings.ReplaceSubstitutes | cb_auto_generate/generate.go:101-104 | a chosen pattern becomes its text, and scanning resumes after the pattern |
| GoStrings.ReplaceSkipsLiteral | cb_auto_generate/generate.go:101-104 | text free of the patterns' first character is copied unchanged |
| GoStrings.JoinLength | cb_auto_generate/generate.go:93 | joining n parts without the separator puts n-1 separators; zero parts join to "" |
| GoStrings.Split | module/cbwebcommon/module.go:95 | splitting always yields at least one piece |
| GoStrings.SplitJoin | cb_auto_generate/generate.go:93 | splitting a join of separator-free parts gives back the parts |
| GoStrings.IndexOf | module/cbwebcommon/module.go:94-95 | the first occurrence of the character |
| GoStrings.CountZero | module/cbwebcommon/module.go:94-95 | a character occurs zero times exactly when it is absent |
| GoStrings.ContainsChar | module/cbwebcommon/module.go:94 | containing the one-character string means containing the character |
| GoStrings.SplitFirst | module/cbwebcommon/module.go:95 | the first piece is the text before the first separator, or the whole text without one |
| GoStrings.Decimal | cb_auto_generate/generate.go:79 | `strconv.Itoa` of a natural number: digits only, no leading zero |
| GoStrings.ParseDecimal | module/cbwebcommon/module.go:182 | a value exactly for non-empty digit strings |
| GoStrings.ParseDecimalOfDecimal | cb_auto_generate/generate.go:79 | parsing a decimal rendering gives back the number |
| GoStrings.DecimalHasNoComma | cb_auto_generate/generate.go:79-93 | a decimal rendering holds no comma |

## Left out

- html/template parsing and execution are oracles. Template syntax, `define` blocks and the helper functions' behaviour inside templates are not modelled.
- Cache entries never expire in the model. The 24-hour TTL is recorded but not enforced.
- Concurrency is not modelled, because the model has no goroutines.
- Go slice aliasing from `append` is not modelled. The layout content appended to a template is treated as a fresh sequence, and so is `LoggedIn` appended to a credential's permissions.
- Templates.InheritanceMultiTemplate.ExecuteTemplate: takes an explicit `order` of the registry keys instead of Go's unspecified map order. Every order is allowed.
- Provider side effects on the response inside the container and ACL loops are not modelled: basic auth's `IsAuthenticated` sets 401 while the container or the ACL iterates. Each provider's answers on one request are given as fixed values.
- The JWT library (`ParseWithClaims`, `SignedString`, and expiry, issuer and clock) is an oracle. So are bcrypt and checkmail.
- DbAuth: `GenerateLoginToken` and `SetAuthCookie` are one oracle that gives the cookie value. Cookie expiry, HttpOnly and path are not modelled.
- DbAuth: `Logout` only sets an expired cookie and returns true, so it is not modelled.
- DbAuth: a nil `SaveUserRecordFunc` panics in Go. The model always has one.
- DbAuth.ChangePassword and DbAuth.GetUserFromLoginToken: the `GenerateAuthHashFunc` and `SaveUserRecordFunc` oracles see only the record's identity, not its current password. In Go they receive the record and may read `GetPassword()`, so after a password change the model's auth hash of a record, and the save's answer, cannot depend on the new password.
- DbAuth.Register: Go returns a nil map on success. The model returns the empty map.
- DbAuth: `PostArgs` is modelled as optional, so the nil check is visible.
- Form.Title, Acl.Permitted and the DbAuth email lookups (DbAuth.ClaimedUser, DbAuth.GetUserFromLoginToken, DbAuth.FirstEmail, DbAuth.LastLowered, DbAuth.Login, DbAuth.ChangePassword): `strings.Title`, `strings.ToLower` and `strings.EqualFold` are modelled on ASCII only (GoStrings.ToLower). Unicode letters, digits and case mapping are not covered.
- The plain getters of `Field` and of `DefaultMasterViewModel` are datatype fields, so they are not separate members.
- `getDefaultCdnUrlTemplateUrl`, `getDefaultVersionString` and `getDefaultBrandName` only delegate or return a field. They appear as helper ids in `DefaultTemplateFuncs`.
- WebCommon.DefaultCdnUrl: the wall clock is a parameter `now`, a `nat`. Go's `time.Now().Unix()` is a signed int64, so a clock before 1970 (a negative time, written with a `-`) is not modelled.
- Http.Redirect: fasthttp's `ctx.Redirect` resolves a relative URI against the request URI and writes an absolute `Location`. The model stores the redirect string as given.
- DefaultFileServer: streaming, `If-Modified-Since`, `Cache-Control`, the MIME type and the content length are not modelled. So are custom `FourOFourError` and `FiveHundredError` handlers: the default pages are modelled.
- The error handlers' stack formatting (`DefaultErrorHandler.Error`) is not modelled. A report is the error text.
- The contents of the generated global templates are parameters of `GetGlobalTemplates`.
- `basicauth.New` and `cbwebauth.New` only copy their arguments into a record, so they are datatype constructors.
- The texts of `LoggedIn` and `LoggedOut` are defined in a file that is not part of this model. They are constants without a value.
- `limiter.go`, `datatable.go`, `routes.go` and `web.go` are not part of this model.
- AutoGenerate.Generate: a panic is the index of the failing entry. Go's permission bits for the output file are not modelled.
