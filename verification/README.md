# Tour package app: authentication and rating core in Dafny

This project models the logic of the tour-package REST service: its stateless JSON Web Token
authentication (RFC 7519) and its two stores, the user table and the tour-rating table. The
infrastructure around that logic is not modelled. The model covers:

- **Tokens.** `JwtTokenProvider` builds the claim set (`sub`, `iat`, `exp` and the custom
  `AUTH_GROUP` claim of "ROLE_"-prefixed labels). It signs with HS512 (section 3.2 of RFC 7518)
  under a Base64-encoded key (section 4 of RFC 4648). It also turns the parser's verdict into
  results and exceptions. The jjwt builder and parser are a `Codec` of two function values. The
  round trip the library provides is the predicate `Lawful`, a hypothesis of the lemmas that use it.
- **The filter.** `JwtTokenFilter` runs once per request. It is a class whose methods update a
  `RequestContext` object: the security context, the request attributes (`jwt_error`) and a
  count of filter-chain calls. Each method is proved equal to a function of the old state, and
  the lemmas about the filter are stated over those functions.
- **Principals.** `CsrUserDetailsService` builds a principal from a store lookup (the
  `CsrUserPrincipal` of a stored user) or from the claims of a token (a Spring Security `User`).
- **Boundary handlers.** `RestAuthenticationEntryPoint`, `RestAccessDeniedHandler` and
  `GlobalExceptionHandlerController` are functions from a failure, and the request attributes, to
  the response.
- **Users.** `UserService` holds the user table as a sequence field. It signs users in and
  registers them. The password encoder and its matcher are function values.
- **Ratings.** `TourRatingService` holds the rating table as a sequence field. It creates,
  bulk-creates, updates, partially updates and deletes ratings, and computes a tour's average.
  `TourRating`'s constructor supplies the default comment. Each operation runs in one
  transaction, so an operation that throws leaves its table unchanged. Each method is proved
  against a specification function, which returns a `Step`: the result and the new table.
- **Enums.** The three enums have case-insensitive `findByLabel` searches, and each has a JPA
  converter that maps it to its column text and back.

Time is a parameter. Each of the token parses within one request gets its own instant. Where
the code's behaviour is surprising, the model follows the code:

- **Method names.** The filter and the details service call `getUserNameFromToken` and
  `getAuthGroupsFromToken`. The provider defines these as `getUserName` and `getAuthGroups`,
  and the model treats them as the same functions.
- **The secret key.** The secret-key `@Value` placeholder is followed by a stray `)`. The
  injected secret is therefore the configured text followed by `)`, and the stored key is
  never empty. Nothing rejects an empty configured secret.
- **Validation failures.** A token that fails `validateToken` after a successful username
  extraction throws out of the filter, and the chain is not called
  (`JwtFilter.ValidationFailureThrows`).
- **Expiry.** A token is refused as expired only once the current instant is after its
  expiration. The expiration is truncated to whole seconds, as a NumericDate claim carries it.
- **Status codes.** The access-denied handler answers 401, not 403.
- **Usernames.** The user table has no unique constraint on `username`, and `findByUsername` is
  a single-result query. A name stored twice makes every lookup by it throw
  `IncorrectResultSizeDataAccessException`: sign-in, registration, `getUser` and
  `loadUserByUsername` alike.
- **Null enums.** The converters call `getLabel()` on the attribute, so writing a null enum
  throws `NullPointerException`, although reading a null column gives null.

## Model

| member | source | states |
|---|---|---|
| Labels.FindFirst | src/main/java/com/jt/tours/security/domain/AuthUserGroupEnum.java:18-26 | null exactly when no constant's label equals the query ignoring case; otherwise a matching constant with no earlier match in declaration order |
| AuthUserGroups.Values | src/main/java/com/jt/tours/security/domain/AuthUserGroupEnum.java:10 | the three constants, each at its ordinal |
| AuthUserGroups.FindByLabel | src/main/java/com/jt/tours/security/domain/AuthUserGroupEnum.java:18-26 | the result's label equals the argument ignoring case; null iff the argument is null or matches no label; no earlier constant matches |
| AuthUserGroups.LabelsDistinct | src/main/java/com/jt/tours/security/domain/AuthUserGroupEnum.java:10 | the labels are pairwise different ignoring case |
| AuthUserGroups.FindByOwnLabel | src/main/java/com/jt/tours/security/domain/AuthUserGroupEnum.java:10-28 | findByLabel(g.getLabel()) == g for every constant |
| AuthUserGroups.FindByLabelExamples | src/main/java/com/jt/tours/security/domain/AuthUserGroupEnum.java:18-26 | "csr_user" finds CSR_USER, "Viewer" finds VIEWER, "ROLE_CSR_USER" and null find nothing |
| AuthUserGroupConverter.ConvertToDatabaseColumn | src/main/java/com/jt/tours/security/domain/AuthUserGroupConverter.java:15-17 | NullPointerException iff the attribute is null; otherwise column text that converts back to the same constant |
| AuthUserGroupConverter.ConvertToEntityAttribute | src/main/java/com/jt/tours/security/domain/AuthUserGroupConverter.java:20-22 | a constant whose label equals the column ignoring case; null iff the column is null or matches no label |
| AuthUserGroupConverter.EntityColumnRoundTrip | src/main/java/com/jt/tours/security/domain/AuthUserGroupConverter.java:15-22 | toEntity(toColumn(g)) == g |
| AuthUserGroupConverter.ColumnNormalised | src/main/java/com/jt/tours/security/domain/AuthUserGroupConverter.java:15-22 | a recognised column is written back as the canonical label, which reads back to the same constant |
| AuthUserGroupConverter.ConverterExamples | src/main/java/com/jt/tours/security/domain/AuthUserGroupConverter.java:15-22 | "csr_admin" reads as CSR_ADMIN and is written back as "CSR_ADMIN"; "ADMIN" reads as null, which cannot be written back |
| Difficulties.Values | src/main/java/com/jt/tours/domain/DifficultyEnum.java:9 | the four constants, each at its ordinal |
| Difficulties.FindByLabel | src/main/java/com/jt/tours/domain/DifficultyEnum.java:17-25 | label equal ignoring case; null iff null or unmatched; first match in declaration order |
| Difficulties.LabelsDistinct | src/main/java/com/jt/tours/domain/DifficultyEnum.java:9 | the labels are pairwise different ignoring case |
| Difficulties.FindByOwnLabel | src/main/java/com/jt/tours/domain/DifficultyEnum.java:9-29 | findByLabel(d.getLabel()) == d for every constant |
| Difficulties.FindByLabelIgnoresCase | src/main/java/com/jt/tours/domain/DifficultyEnum.java:17-25 | "HARD" finds Hard |
| Difficulties.FindByLabelUnknown | src/main/java/com/jt/tours/domain/DifficultyEnum.java:17-25 | "Difficult" and null find nothing |
| DifficultyConverter.ConvertToDatabaseColumn | src/main/java/com/jt/tours/domain/DifficultyConverter.java:14-16 | NullPointerException iff the attribute is null; otherwise column text that converts back to the same constant |
| DifficultyConverter.ConvertToEntityAttribute | src/main/java/com/jt/tours/domain/DifficultyConverter.java:19-21 | a constant matching the column ignoring case; null iff null or unmatched |
| DifficultyConverter.EntityColumnRoundTrip | src/main/java/com/jt/tours/domain/DifficultyConverter.java:14-21 | toEntity(toColumn(d)) == d |
| DifficultyConverter.ColumnNormalised | src/main/java/com/jt/tours/domain/DifficultyConverter.java:14-21 | a recognised column is written back as the canonical label |
| DifficultyConverter.ConverterExamples | src/main/java/com/jt/tours/domain/DifficultyConverter.java:14-21 | "medium" reads as Medium and is written back as "Medium"; "Extreme" reads as null, which cannot be written back |
| Regions.Values | src/main/java/com/jt/tours/domain/RegionEnum.java:10-12 | the three constants, each at its ordinal |
| Regions.FindByLabel | src/main/java/com/jt/tours/domain/RegionEnum.java:20-28 | label equal ignoring case; null iff null or unmatched; first match in declaration order |
| Regions.LabelsDistinct | src/main/java/com/jt/tours/domain/RegionEnum.java:10-12 | the spaced labels are pairwise different ignoring case |
| Regions.FindByOwnLabel | src/main/java/com/jt/tours/domain/RegionEnum.java:10-32 | findByLabel(r.getLabel()) == r for every constant |
| Regions.FindByLabelIgnoresCase | src/main/java/com/jt/tours/domain/RegionEnum.java:20-28 | "west coast" finds West_Coast |
| Regions.FindByConstantName | src/main/java/com/jt/tours/domain/RegionEnum.java:10-27 | the constant name "East_Coast" finds nothing, since the label has a space |
| Regions.FindByLabelNull | src/main/java/com/jt/tours/domain/RegionEnum.java:20-28 | null finds nothing |
| RegionConverter.ConvertToDatabaseColumn | src/main/java/com/jt/tours/domain/RegionConverter.java:14-16 | NullPointerException iff the attribute is null; otherwise the spaced label, which converts back to the same constant |
| RegionConverter.ConvertToEntityAttribute | src/main/java/com/jt/tours/domain/RegionConverter.java:19-21 | a constant matching the column ignoring case; null iff null or unmatched |
| RegionConverter.EntityColumnRoundTrip | src/main/java/com/jt/tours/domain/RegionConverter.java:14-21 | toEntity(toColumn(r)) == r |
| RegionConverter.ColumnNormalised | src/main/java/com/jt/tours/domain/RegionConverter.java:14-21 | a recognised column is written back as the canonical label |
| RegionConverter.ConstantNameColumn | src/main/java/com/jt/tours/domain/RegionConverter.java:19-21 | a column holding "East_Coast" converts to null, which cannot be written back |
| RegionConverter.UpperCaseColumn | src/main/java/com/jt/tours/domain/RegionConverter.java:14-21 | "CENTRAL COAST" reads as Central_Coast, written back as "Central Coast" |
| Principals.CsrUserPrincipal.GetAuthorities | src/main/java/com/jt/tours/security/domain/CsrUserPrincipal.java:36-47 | empty for a null group set; otherwise exactly the group labels, with no "ROLE_" prefix; no more authorities than groups, and at most three |
| Principals.CsrUserPrincipal.IsAccountNonExpired | src/main/java/com/jt/tours/security/domain/CsrUserPrincipal.java:60-62 | always true |
| Principals.CsrUserPrincipal.IsAccountNonLocked | src/main/java/com/jt/tours/security/domain/CsrUserPrincipal.java:65-67 | always true |
| Principals.CsrUserPrincipal.IsCredentialsNonExpired | src/main/java/com/jt/tours/security/domain/CsrUserPrincipal.java:70-72 | always true |
| Principals.CsrUserPrincipal.IsEnabled | src/main/java/com/jt/tours/security/domain/CsrUserPrincipal.java:75-77 | always true |
| Principals.CredentialsOfUser | src/main/java/com/jt/tours/security/domain/CsrUserPrincipal.java:50-57 | username and password are the wrapped user's |
| Principals.SameGroupTwice | src/main/java/com/jt/tours/security/domain/CsrUserPrincipal.java:42-46 | two group rows of the same constant give a single authority |
| Base64.DecodeEncode | src/main/java/com/jt/tours/security/jwt/JwtTokenProvider.java:41 | decoding the Base64 text gives back exactly the encoded bytes |
| Text.WrapLong | src/main/java/com/jt/tours/security/jwt/JwtTokenProvider.java:64 | long addition: the exact sum reduced modulo 2^64 into the long range, unchanged when it fits |
| JwtProvider.NewJwtTokenProvider | src/main/java/com/jt/tours/security/jwt/JwtTokenProvider.java:38-43 | the stored key decodes to the UTF-8 bytes of the configured secret followed by ")"; it is never empty; the validity is stored as given |
| JwtProvider.NumericDate | src/main/java/com/jt/tours/security/jwt/JwtTokenProvider.java:71-73 | a date as the claim carries it: whole seconds, within a second of the original |
| JwtProvider.RoleAuthorities | src/main/java/com/jt/tours/security/jwt/JwtTokenProvider.java:57-60 | exactly the set of "ROLE_" + label over the groups; every element starts with "ROLE_"; no more elements than groups |
| JwtProvider.BuildJws | src/main/java/com/jt/tours/security/jwt/JwtTokenProvider.java:52-76 | subject is the username, AUTH_GROUP the role set, issued now, expiring now + validity in long arithmetic, HS512 under the stored key |
| JwtProvider.CreateToken | src/main/java/com/jt/tours/security/jwt/JwtTokenProvider.java:52-77 | a null group set fails with NullPointerException; otherwise the signed token of that claim set |
| JwtProvider.ValidateToken | src/main/java/com/jt/tours/security/jwt/JwtTokenProvider.java:84-96 | never false; true iff the token parses; expired gives CustomException(401, "JWT token has expired."), every other failure CustomException(500, "Invalid JWT token.") |
| JwtProvider.GetUserName | src/main/java/com/jt/tours/security/jwt/JwtTokenProvider.java:103-106 | the subject of a token that parses; the parser's failure otherwise |
| JwtProvider.GetAuthGroups | src/main/java/com/jt/tours/security/jwt/JwtTokenProvider.java:113-123 | the AUTH_GROUP authorities of a token that parses; NullPointerException without the claim; the parser's failure otherwise |
| JwtProvider.UserNameRoundTrip | src/main/java/com/jt/tours/security/jwt/JwtTokenProvider.java:52-106 | getUserName(createToken(u, gs)) == u until the token expires |
| JwtProvider.AuthGroupsRoundTrip | src/main/java/com/jt/tours/security/jwt/JwtTokenProvider.java:52-123 | getAuthGroups(createToken(u, gs)) is the role set written at creation, until expiry |
| JwtProvider.ValidateCreatedToken | src/main/java/com/jt/tours/security/jwt/JwtTokenProvider.java:52-96 | a created token validates until it expires, and afterwards gives the 401 CustomException |
| JwtProvider.FreshTokenValid | src/main/java/com/jt/tours/security/jwt/JwtTokenProvider.java:63-64 | without overflow, a token is valid when issued and expires within a second before issue time + validity |
| JwtProvider.OverflowedValidityExpired | src/main/java/com/jt/tours/security/jwt/JwtTokenProvider.java:63-64 | when issue time + validity overflows a long, the expiration is negative and the token is expired when issued |
| JwtProvider.EmptyTokenInvalid | src/main/java/com/jt/tours/security/jwt/JwtTokenProvider.java:84-96 | the empty token is refused with the parser's message, and validateToken reports it as the 500 CustomException |
| UserDetailsService.FindByUsername | src/main/java/com/jt/tours/repository/UserRepository.java:23 | a stored user of that name; none iff no stored user has it; IncorrectResultSize(1, n), n at least 2, iff two rows carry the name |
| UserDetailsService.FindStoredUser | src/main/java/com/jt/tours/repository/UserRepository.java:23 | when no other row shares a stored user's name, the lookup finds exactly that row |
| UserDetailsService.LoadUserByUsername | src/main/java/com/jt/tours/security/CsrUserDetailsService.java:48-60 | UsernameNotFoundException("User <name> do not exist.") iff no user has the name; IncorrectResultSize iff two users have it; otherwise a principal wrapping the stored user and exactly its stored groups |
| UserDetailsService.LoadUserByJwtToken | src/main/java/com/jt/tours/security/CsrUserDetailsService.java:68-83 | on success always a present value: username the token's subject, authorities the token's groups, password "", all four account flags true; a failed subject parse gives its JwtException, a failed AUTH_GROUP read its exception; a null subject gives IllegalArgumentException("username cannot be null"), an empty one IllegalArgumentException("Cannot pass null or empty values to constructor"); the store is not a parameter |
| UserDetailsService.TokenPathOfCreatedToken | src/main/java/com/jt/tours/security/CsrUserDetailsService.java:68-83 | for a created token read before expiry: that user with the "ROLE_" authorities |
| UserDetailsService.LoginPathFindsStoredUser | src/main/java/com/jt/tours/security/CsrUserDetailsService.java:51-59 | when no other row shares a stored user's name, the login path wraps exactly that user |
| JwtFilter.GetBearerToken | src/main/java/com/jt/tours/security/filters/JwtTokenFilter.java:71-78 | present iff the header starts with "Bearer"; then the header with every "Bearer" removed and trimmed, shorter than the header by at least six |
| JwtFilter.JwtTokenFilter.DoFilterInternal | src/main/java/com/jt/tours/security/filters/JwtTokenFilter.java:50-63 | the new request state and the exception thrown are those of DoFilter on the old state |
| JwtFilter.JwtTokenFilter.ProcessAuthenticationStep | src/main/java/com/jt/tours/security/filters/JwtTokenFilter.java:86-105 | the new request state and the exception thrown are those of ProcessAuthentication on the old state |
| JwtFilter.JwtTokenFilter.GetUserNameFromToken | src/main/java/com/jt/tours/security/filters/JwtTokenFilter.java:115-130 | the new request state and the username are those of UserNameFromToken on the old state |
| JwtFilter.NoBearerPassesThrough | src/main/java/com/jt/tours/security/filters/JwtTokenFilter.java:57-77 | without a "Bearer" header the request is forwarded once and context and attributes are unchanged |
| JwtFilter.ChainCalledOnceUnlessThrown | src/main/java/com/jt/tours/security/filters/JwtTokenFilter.java:57-62 | the chain is called exactly once when nothing is thrown, never otherwise |
| JwtFilter.PrincipalOnlyFromToken | src/main/java/com/jt/tours/security/filters/JwtTokenFilter.java:86-105 | a principal is present only if the username was non-null, validateToken was true and the token path built it; credentials "" and the token's authorities; a prior principal never survives |
| JwtFilter.ExtractionFailureRecordsError | src/main/java/com/jt/tours/security/filters/JwtTokenFilter.java:115-130 | a refused token records the parser's message under jwt_error, empties the context, keeps other attributes and forwards the request |
| JwtFilter.ValidationFailureThrows | src/main/java/com/jt/tours/security/filters/JwtTokenFilter.java:91-94 | a validateToken exception propagates: chain not called, context empty |
| JwtFilter.BearerHeaderToken | src/main/java/com/jt/tours/security/filters/JwtTokenFilter.java:71-78 | "Bearer " + t yields t for a trimmed t without "Bearer" inside |
| JwtFilter.CreatedTokenAuthenticates | src/main/java/com/jt/tours/security/filters/JwtTokenFilter.java:50-105 | a created token presented before expiry installs its user with credentials "" and the "ROLE_" authorities, and forwards the request |
| JwtFilter.ExpiredTokenRecordsError | src/main/java/com/jt/tours/security/filters/JwtTokenFilter.java:115-128 | an expired created token records the expiry message, leaves the context empty and forwards the request |
| JwtFilter.BearerWithoutSpace | src/main/java/com/jt/tours/security/filters/JwtTokenFilter.java:74-75 | "BearerX" yields "X" |
| JwtFilter.BearerInsideTokenRemoved | src/main/java/com/jt/tours/security/filters/JwtTokenFilter.java:74-75 | "Bearer abBearercd" yields "abcd" |
| JwtFilter.BearerCaseSensitive | src/main/java/com/jt/tours/security/filters/JwtTokenFilter.java:74 | "bearer x" yields nothing |
| JwtFilter.BareBearerHeader | src/main/java/com/jt/tours/security/filters/JwtTokenFilter.java:71-130 | a bare "Bearer" header gives the empty token, whose parser message is recorded |
| RestHandlers.ExpiredMessage | src/main/java/com/jt/tours/security/filters/RestAuthenticationEntryPoint.java:27-29 | the jwt_error attribute when the request has it, "" otherwise; never null |
| RestHandlers.Commence | src/main/java/com/jt/tours/security/filters/RestAuthenticationEntryPoint.java:25-33 | status 401, result unset, message the recorded token error; "Unauthorized access." only if that is the recorded text |
| RestHandlers.HandleAccessDenied | src/main/java/com/jt/tours/security/filters/RestAccessDeniedHandler.java:25-29 | status 401 and not 403, message "Access Denied", result unset |
| RestHandlers.AccessDeniedIgnoresInput | src/main/java/com/jt/tours/security/filters/RestAccessDeniedHandler.java:25-29 | the response depends on neither the request nor the exception |
| RestHandlers.EntryPointReportsTokenError | src/main/java/com/jt/tours/security/filters/RestAuthenticationEntryPoint.java:27-33 | after the filter refused a token, the 401 response carries the parser's message |
| RestHandlers.EntryPointWithoutTokenError | src/main/java/com/jt/tours/security/filters/RestAuthenticationEntryPoint.java:27-33 | with no token error recorded, the message is "" |
| GlobalExceptionHandler.ErrorResponse | src/main/java/com/jt/tours/web/rest/exceptions/GlobalExceptionHandlerController.java:128-130 | the response has the given status and the message as body |
| GlobalExceptionHandler.HandleException | src/main/java/com/jt/tours/web/rest/exceptions/GlobalExceptionHandlerController.java:50-119 | CustomException: its status and message; NoSuchElement/UsernameNotFound: 404 and message; HttpServerError: 403 and message; Authentication: 401 "Authentication failed."; java.nio AccessDenied: 403 "Access denied."; every other modelled exception kind 500 "Server cannot process the request" |
| GlobalExceptionHandler.UnhandledHidesMessage | src/main/java/com/jt/tours/web/rest/exceptions/GlobalExceptionHandlerController.java:116-119 | the general handler's response is the same for every unhandled exception, so it never echoes a message |
| GlobalExceptionHandler.ServerErrorStatusIgnored | src/main/java/com/jt/tours/web/rest/exceptions/GlobalExceptionHandlerController.java:50-53 | the status an HttpServerErrorException carries is ignored; the answer is 403 |
| GlobalExceptionHandler.SecurityAccessDeniedIsServerError | src/main/java/com/jt/tours/web/rest/exceptions/GlobalExceptionHandlerController.java:18-97 | Spring Security's AccessDeniedException is a 500, the java.nio one a 403 |
| GlobalExceptionHandler.StatusesUsed | src/main/java/com/jt/tours/web/rest/exceptions/GlobalExceptionHandlerController.java:50-119 | for the modelled exception kinds, besides a CustomException's own status only 401, 403, 404 and 500 occur |
| GlobalExceptionHandler.ErrorAttributes | src/main/java/com/jt/tours/web/rest/exceptions/GlobalExceptionHandlerController.java:36-40 | the default map without "exception": every other key kept with its value, one entry fewer exactly when "exception" was present |
| GlobalExceptionHandler.ErrorAttributesIdempotent | src/main/java/com/jt/tours/web/rest/exceptions/GlobalExceptionHandlerController.java:36-40 | removing the entry twice is removing it once |
| UserServices.FindByAuthGroup | src/main/java/com/jt/tours/service/impl/UserService.java:109 | the one row of the group; null for a null group or when none; IncorrectResultSize when several |
| UserServices.FindCsrUserLabel | src/main/java/com/jt/tours/service/impl/UserService.java:33-109 | findByLabel("CSR_USER") is CSR_USER |
| UserServices.Signin | src/main/java/com/jt/tours/service/impl/UserService.java:60-86 | an empty result iff no user has the name; IncorrectResultSize iff two users have it |
| UserServices.UserService.SignIn | src/main/java/com/jt/tours/service/impl/UserService.java:60-86 | the result is Signin of the stored table; the table is not changed |
| UserServices.SigninUnknownUser | src/main/java/com/jt/tours/service/impl/UserService.java:65-85 | an unknown username gives an empty result, no exception, no token |
| UserServices.SigninWrongPassword | src/main/java/com/jt/tours/service/impl/UserService.java:72-83 | a stored user whose password does not match gets CustomException(403, "User authentication failed.") |
| UserServices.SigninMatchingPassword | src/main/java/com/jt/tours/service/impl/UserService.java:72-78 | a matching password gives the token of the name and the stored groups |
| UserServices.UserService.Register | src/main/java/com/jt/tours/service/impl/UserService.java:98-124 | a name stored twice: the lookup's IncorrectResultSize, table unchanged; a name stored once: empty result, table unchanged; otherwise exactly one user appended with the encoded password and the CSR_USER group row, found by name afterwards; a missing CSR_USER row gives NullPointerException and several give IncorrectResultSize, table unchanged; usernames that were distinct stay distinct |
| UserServices.UserService.GetUser | src/main/java/com/jt/tours/service/impl/UserService.java:132-136 | a stored user of that name, none iff there is none, IncorrectResultSize iff two users have it; read only |
| UserServices.UserService.GetAll | src/main/java/com/jt/tours/service/impl/UserService.java:143-147 | every stored user in table order; read only |
| UserServices.AppendNewUsername | src/main/java/com/jt/tours/service/impl/UserService.java:107-120 | after appending a user with an unseen name, the lookup finds exactly that user; distinct names stay distinct |
| UserServices.RegisterThenSignin | src/main/java/com/jt/tours/service/impl/UserService.java:60-124 | a newly registered user signing in with the raw password gets the token for its name and the CSR_USER group, whose claim is {"ROLE_CSR_USER"} |
| TourRatings.ToCommentExamples | src/main/java/com/jt/tours/domain/TourRating.java:59-68 | 3 gives "Fair", 0 gives "0", 10 gives "10" |
| TourRatings.ToCommentInjective | src/main/java/com/jt/tours/domain/TourRating.java:59-68 | different scores get different default comments |
| TourRatings.NewTourRating | src/main/java/com/jt/tours/domain/TourRating.java:45-51 | tour, customer and score stored as given; a non-null comment kept verbatim; a null one replaced by toComment(score); NullPointerException iff both score and comment are null |
| TourRatingServices.FindTourRating | src/main/java/com/jt/tours/service/impl/TourRatingService.java:219-222 | the position of the only rating of that tour and customer; NoSuchElementException("Tour rating does not exist for tourId(…) for customer( …)") iff there is none; IncorrectResultSize only when there are at least two |
| TourRatingServices.CreateNewRating | src/main/java/com/jt/tours/service/impl/TourRatingService.java:48-57 | unknown tour: NoSuchElementException("Tour does not exist <id>"), table unchanged; success iff the tour is known and the score non-null, appending one rating with that tour, customer, score and the defaulted comment |
| TourRatingServices.CreateNewRatings | src/main/java/com/jt/tours/service/impl/TourRatingService.java:67-84 | unknown tour: empty list, table unchanged, no error; otherwise the list appended is Batch: one rating per customer id in input order, with the tour, the score and its default comment; a null score throws with the table unchanged |
| TourRatingServices.Batch | src/main/java/com/jt/tours/service/impl/TourRatingService.java:74-80 | one rating per customer, in order, each with the score and its score-derived comment |
| TourRatingServices.UpdateRating | src/main/java/com/jt/tours/service/impl/TourRatingService.java:137-146 | the lookup's failure when the rating is absent; otherwise only the matched row changes, getting the new score and comment (a null comment stays null); a null score is refused, table unchanged |
| TourRatingServices.UpdateSomeRating | src/main/java/com/jt/tours/service/impl/TourRatingService.java:158-170 | the lookup's error when there is no single match; otherwise only the matched row changes: the score only if non-null and positive, the comment only if non-null, tour and customer kept; a found row fails only when its patched score is null (NotNullViolation), so with all scores present it succeeds iff the lookup does |
| TourRatingServices.Delete | src/main/java/com/jt/tours/service/impl/TourRatingService.java:180-183 | exactly the matched row removed; fails iff the lookup does, with the lookup's error (NoSuchElementException or IncorrectResultSize) and the table unchanged |
| TourRatingServices.AverageRatingScore | src/main/java/com/jt/tours/service/impl/TourRatingService.java:192-197 | null iff the tour has no ratings, whether or not the tour exists; with no null scores stored it never throws; a present average has a positive count |
| TourRatingServices.CreateThenFind | src/main/java/com/jt/tours/service/impl/TourRatingService.java:48-57 | a rating created for a new pair is the one the lookup finds |
| TourRatingServices.DuplicateCreateBreaksLookup | src/main/java/com/jt/tours/service/impl/TourRatingService.java:48-57 | creation does not check duplicates: a second rating for a pair makes its lookup fail with IncorrectResultSize |
| TourRatingServices.DeleteLeavesNoMatch | src/main/java/com/jt/tours/service/impl/TourRatingService.java:180-183 | after a delete the pair has no rating and the table is one shorter |
| TourRatingServices.UpdateSomeRatingKeepsLookup | src/main/java/com/jt/tours/service/impl/TourRatingService.java:158-170 | after a partial update the lookup finds the same row |
| TourRatingServices.UpdateSomeRatingIdempotent | src/main/java/com/jt/tours/service/impl/TourRatingService.java:158-170 | applying the same partial update twice is applying it once |
| TourRatingServices.EmptyPatchChangesNothing | src/main/java/com/jt/tours/service/impl/TourRatingService.java:158-170 | with no positive score and no comment, the table is unchanged |
| TourRatingServices.SumBounds | src/main/java/com/jt/tours/service/impl/TourRatingService.java:195 | scores between lo and hi sum to between lo and hi times their number |
| TourRatingServices.AverageWithinBounds | src/main/java/com/jt/tours/service/impl/TourRatingService.java:192-197 | with every stored score between lo and hi, the average lies between lo and hi |
| TourRatingServices.TourRatingService.CreateNewRatingOf | src/main/java/com/jt/tours/service/impl/TourRatingService.java:48-57 | result and new table are CreateNewRating of the old table; no null score is stored |
| TourRatingServices.TourRatingService.CreateNewRatingsOf | src/main/java/com/jt/tours/service/impl/TourRatingService.java:67-84 | result and new table are CreateNewRatings of the old table, built by the loop over the customer ids |
| TourRatingServices.TourRatingService.UpdateRatingOf | src/main/java/com/jt/tours/service/impl/TourRatingService.java:137-146 | result and new table are UpdateRating of the old table |
| TourRatingServices.TourRatingService.UpdateSomeRatingOf | src/main/java/com/jt/tours/service/impl/TourRatingService.java:158-170 | result and new table are UpdateSomeRating of the old table |
| TourRatingServices.TourRatingService.DeleteOf | src/main/java/com/jt/tours/service/impl/TourRatingService.java:180-183 | result and new table are Delete of the old table |
| TourRatingServices.TourRatingService.GetAverageRatingScore | src/main/java/com/jt/tours/service/impl/TourRatingService.java:192-197 | never throws on a valid table; null iff the tour has no ratings; equals AverageRatingScore; read only |

## Left out

- The jjwt library is not modelled: HMAC-SHA512, JSON claim serialisation and the compact encoding. The codec is two function values, and `Lawful` states the round trip as a hypothesis. The model also does not tell `parse` (used by `validateToken`) from `parseClaimsJws` (used by the getters): both are one parse function, so an unsigned token accepted by one and refused by the other is not represented.
- `new Date()` and the wall clock are replaced by explicit instants.
- `SecurityContextHolder`'s thread-local storage and concurrent requests are not modelled. One request's context is a field of `RequestContext`.
- Exceptions thrown out of the filter are returned as `thrown`. How the servlet container then answers is not modelled.
- WebSecurityConfiguration.java (routes, CSRF, sessions, filter registration, BCrypt cost) and its `SimpleAuthorityMapper` are not part of this model. No claim is made that login-path and token-path authorities agree; they do not (bare labels against "ROLE_" labels).
- BCrypt and `AuthenticationManager.authenticate` are abstract. Encoding is a deterministic function value, so salting is not modelled. Authentication is the DAO provider's check: the user loaded by name, account checks that always pass, and `matches(raw, stored)`.
- Controllers, `RatingAssembler`, `TourRatingMapper`, Swagger and the application class are HTTP and framework glue, and are not part of this model.
- The `ObjectMapper`/`OutputStream` writes in the two security handlers are I/O and are left out. Only the `ApiResponse` they write is modelled.
- `searchRatingById`, `searchAllRatings` and the paged `getTourRatings` are single repository reads over pagination, and are not part of this model.
- Generated ids of users, group rows and ratings are left out. A rating is identified by its tour and customer.
- JwtProvider.NewJwtTokenProvider: `secretKey.getBytes()` uses the platform's default charset. The model fixes it to UTF-8, so a non-ASCII secret under another default charset yields key bytes the model does not represent.
- UserDetailsService.FindByUsername, UserServices.FindByAuthGroup, TourRatingServices.FindTourRating: the `IncorrectResultSize` of a repeated match records the number of matching rows as its actual size. Spring's translated `IncorrectResultSizeDataAccessException` reports -1 there. No response depends on the number, since the general handler answers 500 either way.
- `equalsIgnoreCase` folds ASCII letters only. Unicode case folding is not modelled, and every label is ASCII.
- GlobalExceptionHandler.HandleException: the controller extends `ResponseEntityExceptionHandler`, whose inherited handlers answer Spring MVC's own exceptions (unsupported method 405, unsupported media type 415, unreadable or invalid request 400, async timeout 503 and the rest) with empty bodies. Those exception kinds are not modelled, so the 500 fallback and `StatusesUsed` speak only of the modelled kinds.
- GlobalExceptionHandler.HandleException: `handleAuthenticationException` is registered for `AuthenticationException` but declares an `ExpiredJwtException` parameter. The model follows the registration, and does not model how Spring would fail to bind an argument of the wrong type.
- JwtProvider.GetAuthGroups: the claim is modelled as the set of authority strings. The JSON list of maps it travels as is not modelled, and neither is `SimpleGrantedAuthority`'s refusal of an empty or null text.
- The 500-character limit of the comment column and the bean-validation annotations are not enforced.
- Ids and scores (`Long`, `Integer`) are unbounded integers. Only the expiry arithmetic, where overflow changes the outcome, is modelled with 64-bit wrap-around.
- TourRatingServices.AverageRatingScore: the floating-point average is represented exactly, as a sum and a count, and rounding is not modelled.
- Transaction isolation is not modelled. Rollback is modelled only as "an operation that throws leaves its table unchanged".
- Logging is left out.
