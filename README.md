# Restructuring: authentication, authorization and domain rules in Dafny

This project models the core of the *restructuring* application. The application has two Spring Boot
backends and two React frontends. It helps a user manage insurance and a personal plan after losing a job.
The model covers the following parts.

- **Request authentication.** `JwtAuthenticationFilter` reads a `Bearer` token (section 2.1 of RFC 6750) and
  decodes it with the configured key. It checks the token's `userId` claim against the user store and
  installs an identity on the security context, or leaves the request anonymous. The security context is a
  class with a nullable authentication field, and the user store is a map.
- **Route policy.** `SecurityConfig` is an ordered table in which the first matching rule decides. Each rule
  maps a method and path to a requirement: public, authenticated or role ADMIN. A fixed JSON body answers
  a 401.
- **Keys and claims.** `JwtConfiguration` turns the secret into a key. It decodes the secret as Base64
  (section 4 of RFC 4648) and needs at least 32 bytes (section 3.2 of RFC 7518). Its Base64url fallback
  (section 5) sits behind a catch clause that the decoder's exception never matches, so a text the Base64
  decoder rejects aborts startup. The fallback is modelled separately, as a corrected reading. `JwtUtil`
  and `JwtEncoder` build the claim sets of RFC 7519. Signing is an ideal MAC: a token verifies under the key
  that signed it, until it expires, and under no other key. `UserPrincipal` and `UserEntity` turn role
  strings into `ROLE_` authorities.
- **Accounts.** `AuthServiceImpl` registers and logs in. `AdminUserController` lists, promotes and demotes
  users. `UserApplicationService` updates a user's details. `UserUpdateRequestDto` holds the field
  constraints. All of them work on a user store held in a class.
- **Domain rules.**
  - The plan upsert, with its per-phase diary map and needs codec.
  - The coverage-loss and coverage-gap tables.
  - Snapshot replacement, and the insurance profile with its source parsing.
  - The XML request template, and both insurance-request factories, one with the pre-persist hook.
  - The paginated admin user list.
  - The formatting and sort orders of the profile PDF.
  - The frontend log endpoint's sanitising and truncation.
- **Frontend logic.**
  - Base64url decoding and the JWT expiry of the authentication hook, with its token storage and
    redirects.
  - The HTTP client's header, body and error rules in both frontends.
  - The localStorage draft sync.
  - The environment flags.
  - The Content-Disposition file name parser (section 4.3 of RFC 6266, section 3.2 of RFC 8187).
  - The login form's submit handler and the feedback it sets, and the profile hook.
  - The zod form schemas.
  - The navigation sections and the initials of the main layout.
  - The admin and protected route guards, with encodeURIComponent and its inverse decodeURIComponent.

Some things the source reaches through foreign code are abstract parameters of the model:

- JSON parsing and serialisation.
- Password hashing and matching, and the e-mail check.
- Databases and the network.
- Clock readings and random identifiers.

Where the source mutates state, the model uses classes with `modifies` clauses. Examples are the security
context, the user and plan stores, the entities, the localStorage store, the draft-sync API and the
profile hook. Each method's `ensures` ties the new state to specification functions, and lemmas state what
the source promises about those functions.

The shared foundation is in `wrappers.dfy`, `text.dfy`, `json.dfy`, `base64.dfy` and `sequences.dfy`:

- option and result types;
- ASCII whitespace, case, trim, split and join;
- parsed JSON values;
- the RFC 4648 codecs, with their round trip.

## Model

| member | source | states |
|---|---|---|
| JwtEncoder.EncodedClaims | backend/src/main/java/io/ltj/restructuring/security/JwtEncoder.java:24-36 | an encoded token carries jti, sub = the principal's username, iat = now, exp = now + the configured duration, and the id under "uid"; it has no "userId" claim |
| JwtEncoder.DefaultLifetime | backend/src/main/java/io/ltj/restructuring/security/JwtEncoder.java:26 | with default properties the token lives 24 hours, the same lifetime JwtUtil gives |
| JwtEncoder.EncodedWithUserIdClaims | backend/src/main/java/io/ltj/restructuring/security/JwtEncoder.java:33 | the corrected encoder writes the id under "userId", so it reads back where the filter looks for it; all other claims are as encode writes them |
| JwtEncoder.DefaultProperties | backend/src/main/java/io/ltj/restructuring/security/JwtProperties.java:10-11 | a fresh JwtProperties: no secret and 24 hours |
| JwtEncoder.ExpirationMs | backend/src/main/java/io/ltj/restructuring/security/JwtProperties.java:29-31 | getExpiration: Duration.ofHours(expirationHours) in milliseconds |
| JwtEncoder.Encode | backend/src/main/java/io/ltj/restructuring/security/JwtEncoder.java:24-36 | encode as written: jti = the random UUID, subject = the principal's username, iat = now, exp = now + the configured duration, the id under "uid" (no claim for a null id), signed HS256 |
| JwtEncoder.EncodeWithUserId | backend/src/main/java/io/ltj/restructuring/security/JwtEncoder.java:33 | the corrected encode: the same token with the id under "userId", the claim JwtUtil writes and the filter reads |
| JwtUtil.ExpiresAtMs | backend/src/main/java/io/ltj/restructuring/security/JwtUtil.java:25-35 | the exp claim of a token issued at now denotes now + 86 400 000 ms, truncated to whole seconds |
| JwtUtil.GeneratedClaims | backend/src/main/java/io/ltj/restructuring/security/JwtUtil.java:25-35 | a generated token's subject is the email, its userId claim reads back as the id, and it lives 86 400 s |
| JwtUtil.DecodeGenerated | backend/src/main/java/io/ltj/restructuring/security/JwtUtil.java:25-46 | round trip: under the same key a generated token decodes to its claims until it expires and is rejected afterwards; under any other key it is always rejected |
| JwtUtil.DecodeExpiredIff | backend/src/main/java/io/ltj/restructuring/security/JwtUtil.java:40-50 | decode reports expiry exactly when isTokenExpired holds for the token's exp |
| JwtUtil.GenerateToken | backend/src/main/java/io/ltj/restructuring/security/JwtUtil.java:25-35 | generateToken: subject = email, the userId claim, iat = now and exp = now + 24 h in whole seconds, signed HS256 with the configured key |
| JwtUtil.Decode | backend/src/main/java/io/ltj/restructuring/security/JwtUtil.java:40-46 | decode: the token verified with the configured key; a bad signature or an expired token is a JwtException |
| JwtUtil.IsTokenExpired | backend/src/main/java/io/ltj/restructuring/security/JwtUtil.java:48-50 | isTokenExpired: Date.before, so an expiry equal to now is not expired |
| JwtConfiguration.DecodeSecretAsWritten | backend/src/main/java/io/ltj/restructuring/config/JwtConfiguration.java:40-53 | the Base64 decoder's bytes exactly when it accepts the text; otherwise the decoder's own exception, which neither catch clause matches, so Base64url is never tried |
| JwtConfiguration.DecodeSecret | backend/src/main/java/io/ltj/restructuring/config/JwtConfiguration.java:40-53 | the corrected reading: the Base64 decoder's bytes when it accepts the text, only otherwise the Base64url decoder's, and the "Invalid JWT secret" error when both reject |
| JwtConfiguration.KeyOf | backend/src/main/java/io/ltj/restructuring/config/JwtConfiguration.java:18-38 | around any decoding: a missing or blank secret fails before decoding, a decoding error is passed on, a key shorter than 32 bytes fails, and otherwise the key is the decoded bytes |
| JwtConfiguration.JwtSecretKey | backend/src/main/java/io/ltj/restructuring/config/JwtConfiguration.java:18-53 | as written: a missing or blank secret fails, a text the Base64 decoder rejects aborts with the decoder's exception, a key shorter than 32 bytes fails, the key is otherwise the Base64 bytes, and the "Invalid JWT secret" error never occurs |
| JwtConfiguration.JwtSecretKeyCorrected | backend/src/main/java/io/ltj/restructuring/config/JwtConfiguration.java:18-53 | the same checks over the decoding with the Base64url fallback; the decoder's exception never escapes |
| JwtConfiguration.ReadingsAgreeOnBase64 | backend/src/main/java/io/ltj/restructuring/config/JwtConfiguration.java:40-53 | wherever the Base64 decoder accepts the secret, both readings load the same key or fail alike |
| JwtConfiguration.EncodingNotBlank | backend/src/main/java/io/ltj/restructuring/config/JwtConfiguration.java:21 | the encoding of at least one byte is never blank, so the blank check never refuses a real key |
| JwtConfiguration.StandardSecretLoads | backend/src/main/java/io/ltj/restructuring/config/JwtConfiguration.java:18-38 | the standard Base64 encoding of 32 or more bytes loads as exactly those bytes, in both readings |
| JwtConfiguration.ShortSecretRejected | backend/src/main/java/io/ltj/restructuring/config/JwtConfiguration.java:31-35 | a secret that decodes to fewer than 32 bytes never loads, however it is encoded |
| JwtConfiguration.UrlTextUnderStandard | backend/src/main/java/io/ltj/restructuring/config/JwtConfiguration.java:40-53 | a Base64url text that the standard decoder also accepts decodes to the same sextets under both alphabets |
| JwtConfiguration.UrlEncodingUnderStandard | backend/src/main/java/io/ltj/restructuring/config/JwtConfiguration.java:40-53 | the standard decoder reads a Base64url encoding either not at all or as the same bytes, so the fallback order never changes a key |
| JwtConfiguration.UrlSecretLoads | backend/src/main/java/io/ltj/restructuring/config/JwtConfiguration.java:44-46 | with the fallback, the Base64url encoding of 32 or more bytes also loads as exactly those bytes |
| JwtConfiguration.UrlCharacterRefused | backend/src/main/java/io/ltj/restructuring/config/JwtConfiguration.java:42 | the Base64 decoder refuses every text that holds a '-' or a '_' |
| JwtConfiguration.UrlSecretAbortsAsWritten | backend/src/main/java/io/ltj/restructuring/config/JwtConfiguration.java:40-53 | as written, a Base64url secret of 32 or more bytes that holds '-' or '_' aborts startup with the decoder's exception, while the corrected reading loads exactly its bytes |
| JwtConfiguration.Message | backend/src/main/java/io/ltj/restructuring/config/JwtConfiguration.java:21-51 | the messages of the three IllegalStateExceptions: missing secret, not Base64 or Base64URL, shorter than 32 bytes |
| Jwt.Verify | backend/src/main/java/io/ltj/restructuring/security/JwtUtil.java:40-46 | parseSignedClaims after verifyWith: a signature under another key fails first; an exp strictly before now fails as expired; otherwise the claims |
| Jwt.SignThenVerify | backend/src/main/java/io/ltj/restructuring/security/JwtUtil.java:25-46 | signing and verifying are an ideal pair: a token verifies under its own key until it expires, and never under another key |
| Jwt.Sign | backend/src/main/java/io/ltj/restructuring/security/JwtUtil.java:28-34 | signWith(key, HS256): the token carries the algorithm, the claims and a tag over exactly that key, algorithm and claims |
| Jwt.EpochSeconds | backend/src/main/java/io/ltj/restructuring/security/JwtUtil.java:31-32 | a java.util.Date written as a NumericDate: the milliseconds divided by 1000, truncated toward zero, so the remainder is below one second in the sign of the input |
| Jwt.ExpiredAt | backend/src/main/java/io/ltj/restructuring/security/JwtUtil.java:40-46 | the parser's expiry check: the token has an exp, and now lies strictly after it |
| Jwt.GetLong | backend/src/main/java/io/ltj/restructuring/security/JwtAuthenticationFilter.java:52 | claims.get(name, Long.class): null when the claim is absent, the number when it is one, a RequiredTypeException exactly when it is present and not a number |
| Base64.AlphabetsValid | backend/src/main/java/io/ltj/restructuring/config/JwtConfiguration.java:42-46 | the standard and the URL-safe alphabets each have 64 distinct characters, none of them '=' |
| Base64.Sextets | backend/src/main/java/io/ltj/restructuring/config/JwtConfiguration.java:42-46 | one sextet per character of the text when it succeeds |
| Base64.SextetsExactly | backend/src/main/java/io/ltj/restructuring/config/JwtConfiguration.java:42-46 | a failure exactly when some character is outside the alphabet, and otherwise each character's position in it |
| Base64.Unpad | backend/src/main/java/io/ltj/restructuring/config/JwtConfiguration.java:42-46 | a prefix of the text without its trailing padding |
| Base64.Decode | backend/src/main/java/io/ltj/restructuring/config/JwtConfiguration.java:42-46 | when it succeeds the length never leaves a lone character, and the bytes are those the sextets of the unpadded text denote |
| Base64.DecodeAccepts | backend/src/main/java/io/ltj/restructuring/config/JwtConfiguration.java:42-46 | accepted exactly when the padding completes the last quantum, no lone character remains and every other character is in the alphabet |
| Base64.ForeignCharacterRejected | backend/src/main/java/io/ltj/restructuring/config/JwtConfiguration.java:42-46 | one character outside the alphabet before the padding makes decoding fail |
| Base64.Encode | backend/src/main/java/io/ltj/restructuring/config/JwtConfiguration.java:42-46 | a padded encoding whose length is a multiple of four |
| Base64.UnpadEncode | backend/src/main/java/io/ltj/restructuring/config/JwtConfiguration.java:42-46 | an encoding without its padding is exactly its alphabet characters, never of a length that leaves a lone character |
| Base64.RoundTrip | backend/src/main/java/io/ltj/restructuring/config/JwtConfiguration.java:42-46 | decoding the encoding of any byte string gives the bytes back |
| JwtAuthenticationFilter.BearerToken | backend/src/main/java/io/ltj/restructuring/security/JwtAuthenticationFilter.java:44-47 | a token is taken exactly when the header is present and starts with "Bearer "; the header is then that prefix followed by the token |
| JwtAuthenticationFilter.Installed | backend/src/main/java/io/ltj/restructuring/security/JwtAuthenticationFilter.java:69-80 | the installed identity holds the claimed id and the stored email, no credentials and an empty authority list |
| JwtAuthenticationFilter.Outcome | backend/src/main/java/io/ltj/restructuring/security/JwtAuthenticationFilter.java:44-94 | the context afterwards is the one before, or a new identity installed into an empty context from a decoded bearer token whose user exists and whose stored email it carries |
| JwtAuthenticationFilter.DoFilterInternal | backend/src/main/java/io/ltj/restructuring/security/JwtAuthenticationFilter.java:38-97 | the context afterwards is Outcome of the one before; the rest of the chain runs exactly once on every path, and the decoder sees exactly the bearer token |
| JwtAuthenticationFilter.NoBearerUnchanged | backend/src/main/java/io/ltj/restructuring/security/JwtAuthenticationFilter.java:46 | a missing header, or one without the exact "Bearer " prefix, leaves the context as it was |
| JwtAuthenticationFilter.DecodeFailureUnchanged | backend/src/main/java/io/ltj/restructuring/security/JwtAuthenticationFilter.java:89-93 | a decoder exception is swallowed and nothing is installed |
| JwtAuthenticationFilter.ExistingKept | backend/src/main/java/io/ltj/restructuring/security/JwtAuthenticationFilter.java:57 | an identity already present is never replaced |
| JwtAuthenticationFilter.InstalledIff | backend/src/main/java/io/ltj/restructuring/security/JwtAuthenticationFilter.java:46-87 | an identity is installed exactly when a bearer token decodes, carries a numeric userId and a subject, the context is empty, the user exists and its stored email equals the subject ignoring case |
| JwtAuthenticationFilter.StaleTokenAnonymous | backend/src/main/java/io/ltj/restructuring/security/JwtAuthenticationFilter.java:59-67 | a token whose user is gone, or that has no subject, leaves the request anonymous |
| JwtAuthenticationFilter.GeneratedTokenAuthenticates | backend/src/main/java/io/ltj/restructuring/security/JwtAuthenticationFilter.java:44-87 | end to end: a JwtUtil token for a stored user, sent as a bearer header before it expires to a decoder with the same key, installs exactly that user's id and email |
| JwtAuthenticationFilter.RejectedTokenAnonymous | backend/src/main/java/io/ltj/restructuring/security/JwtAuthenticationFilter.java:49-93 | the same token decoded under another key, or after its expiry, leaves the request anonymous |
| JwtAuthenticationFilter.EncoderTokenAnonymous | backend/src/main/java/io/ltj/restructuring/security/JwtAuthenticationFilter.java:52-56 | a token from JwtEncoder, valid or not, never authenticates: its id sits under "uid", so the userId read is null |
| JwtAuthenticationFilter.CorrectedEncoderTokenAuthenticates | backend/src/main/java/io/ltj/restructuring/security/JwtAuthenticationFilter.java:44-87 | a token from the corrected encoder authenticates its principal's user until it expires |
| JwtAuthenticationFilter.OutcomeWithRoles | backend/src/main/java/io/ltj/restructuring/security/JwtAuthenticationFilter.java:69-80 | the corrected filter installs the user's ROLE_ authority, as UserPrincipal computes it from the stored role |
| JwtAuthenticationFilter.OutcomeWithRolesAgrees | backend/src/main/java/io/ltj/restructuring/security/JwtAuthenticationFilter.java:46-87 | the corrected filter installs an identity exactly when the original does, for the same user |
| JwtAuthenticationFilter.SecurityContext.constructor | backend/src/main/java/io/ltj/restructuring/security/JwtAuthenticationFilter.java:57 | a request starts with no authentication in its security context |
| JwtAuthenticationFilter.EmailMatches | backend/src/main/java/io/ltj/restructuring/security/JwtAuthenticationFilter.java:60 | email.equalsIgnoreCase(stored email): a null stored email never matches |
| JwtAuthenticationFilter.Accepts | backend/src/main/java/io/ltj/restructuring/security/JwtAuthenticationFilter.java:52-60 | the conditions under which the filter installs an identity: a numeric userId claim, a subject, a stored user under that id, and a stored email equal to the subject ignoring case |
| UserPrincipal.Principal.Authorities | backend/src/main/java/io/ltj/restructuring/security/userdetails/UserPrincipal.java:30-34 | exactly one authority, always starting with "ROLE_" |
| UserPrincipal.FromEntity | backend/src/main/java/io/ltj/restructuring/security/userdetails/UserPrincipal.java:18-23 | the principal carries the entity's id, its email as username and its password hash; the role is null mapped to "USER" and otherwise upper-cased |
| UserPrincipal.Authority | backend/src/main/java/io/ltj/restructuring/security/userdetails/UserPrincipal.java:31-32 | the authority is the upper-cased role, with "ROLE_" put in front unless it is already there |
| UserPrincipal.AuthorityIdempotent | backend/src/main/java/io/ltj/restructuring/security/userdetails/UserPrincipal.java:31-32 | feeding an authority back in as a role gives the same authority: the prefix is never doubled |
| UserPrincipal.AdminAuthority | backend/src/main/java/io/ltj/restructuring/security/userdetails/UserPrincipal.java:31-32 | the authority is ROLE_ADMIN exactly when the role is "admin" or "role_admin" in some letter case |
| UserPrincipal.AccountAlwaysUsable | backend/src/main/java/io/ltj/restructuring/security/userdetails/UserPrincipal.java:46-64 | every account-status flag is true, whatever the entity |
| UserPrincipal.Principal.Username | backend/src/main/java/io/ltj/restructuring/security/userdetails/UserPrincipal.java:42-44 | getUsername: the email |
| UserPrincipal.Principal.Password | backend/src/main/java/io/ltj/restructuring/security/userdetails/UserPrincipal.java:37-39 | getPassword: the stored hash |
| UserPrincipal.Principal.IsAccountNonExpired | backend/src/main/java/io/ltj/restructuring/security/userdetails/UserPrincipal.java:47-49 | always true |
| UserPrincipal.Principal.IsAccountNonLocked | backend/src/main/java/io/ltj/restructuring/security/userdetails/UserPrincipal.java:52-54 | always true |
| UserPrincipal.Principal.IsCredentialsNonExpired | backend/src/main/java/io/ltj/restructuring/security/userdetails/UserPrincipal.java:57-59 | always true |
| UserPrincipal.Principal.IsEnabled | backend/src/main/java/io/ltj/restructuring/security/userdetails/UserPrincipal.java:62-64 | always true |
| Users.NormalizeRoleIdempotent | backend/src/main/java/io/ltj/restructuring/domain/user/UserEntity.java:119-121 | setting a role that setRole already produced changes nothing |
| Users.PersistRole | backend/src/main/java/io/ltj/restructuring/domain/user/UserEntity.java:57-59 | the role onCreate leaves is never null or blank, and a non-blank role is kept as it is |
| Users.UserEntity.constructor | backend/src/main/java/io/ltj/restructuring/domain/user/UserEntity.java:43-45 | a new entity has every field null except the role, which starts as "USER" |
| Users.UserEntity.WithCredentials | backend/src/main/java/io/ltj/restructuring/domain/user/UserEntity.java:47-50 | a new entity with the given email and password; every other field as the default constructor leaves it |
| Users.UserEntity.Load | backend/src/main/java/io/ltj/restructuring/domain/user/UserEntity.java:12-41 | an entity materialised from a stored row holds exactly that row |
| Users.UserEntity.OnCreate | backend/src/main/java/io/ltj/restructuring/domain/user/UserEntity.java:52-60 | createdAt and updatedAt both become now; the role gets the onCreate rule; nothing else changes |
| Users.UserEntity.OnUpdate | backend/src/main/java/io/ltj/restructuring/domain/user/UserEntity.java:62-65 | only updatedAt changes, to now |
| Users.UserEntity.SetEmail | backend/src/main/java/io/ltj/restructuring/domain/user/UserEntity.java:75-77 | only the email changes |
| Users.UserEntity.SetPassword | backend/src/main/java/io/ltj/restructuring/domain/user/UserEntity.java:83-85 | only the password changes |
| Users.UserEntity.SetFirstName | backend/src/main/java/io/ltj/restructuring/domain/user/UserEntity.java:91-93 | only the first name changes |
| Users.UserEntity.SetLastName | backend/src/main/java/io/ltj/restructuring/domain/user/UserEntity.java:99-101 | only the last name changes |
| Users.UserEntity.SetSsn | backend/src/main/java/io/ltj/restructuring/domain/user/UserEntity.java:107-109 | only the ssn changes |
| Users.UserEntity.SetPhone | backend/src/main/java/io/ltj/restructuring/domain/user/UserEntity.java:123-125 | only the phone changes |
| Users.UserEntity.SetRole | backend/src/main/java/io/ltj/restructuring/domain/user/UserEntity.java:119-121 | only the role changes: null becomes "USER", anything else is stored upper-cased |
| Users.UserEntity.SetCreatedAt | backend/src/main/java/io/ltj/restructuring/domain/user/UserEntity.java:135-137 | only createdAt changes |
| Users.UserEntity.SetUpdatedAt | backend/src/main/java/io/ltj/restructuring/domain/user/UserEntity.java:139-141 | only updatedAt changes |
| Users.UserRepository.constructor | backend/src/main/java/io/ltj/restructuring/domain/user/UserEntity.java:7-9 | an empty table that satisfies the table invariant |
| Users.UserRepository.FindById | backend/src/main/java/io/ltj/restructuring/security/JwtAuthenticationFilter.java:59 | a row is found exactly when one is stored under the id, and it is that row |
| Users.UserRepository.FindByEmail | backend/src/main/java/io/ltj/restructuring/domain/user/UserEntity.java:7-17 | nothing exactly when no row has the email; otherwise the stored row under its own id, with that email |
| Users.Written | backend/src/main/java/io/ltj/restructuring/domain/user/UserEntity.java:34-35 | the constrained columns an insert writes carry the role as onCreate leaves it; an update writes the row as it is |
| Users.UpdateWrite | backend/src/main/java/io/ltj/restructuring/domain/user/UserEntity.java:37-38 | an update keeps the stored createdAt, because the column is not updatable, and writes every other column from the entity |
| Users.InsertableIgnoresTimestamps | backend/src/main/java/io/ltj/restructuring/domain/user/UserEntity.java:16-41 | whether a row may be written does not depend on its timestamps |
| Users.UserRepository.Save | backend/src/main/java/io/ltj/restructuring/domain/user/UserEntity.java:12-65 | a row with a null email, password or role, a value longer than its column (email 320, names 100, ssn 20, phone 32, role 30) or an email held by another row stores nothing; a new entity gets the next id after onCreate; a known one is written back with the stored createdAt, after onUpdate when another column changed; the table invariant is kept |
| Users.NormalizeRole | backend/src/main/java/io/ltj/restructuring/domain/user/UserEntity.java:119-121 | setRole's rule for the value it stores: a null role becomes "USER", any other role is upper-cased |
| Users.UserEntity.Row | backend/src/main/java/io/ltj/restructuring/domain/user/UserEntity.java:12-41 | the entity's ten fields as one row value: what a save writes and a getter reads |
| Users.Fits | backend/src/main/java/io/ltj/restructuring/domain/user/UserEntity.java:16-35 | a value fits a column of a declared length when it is null or no longer than that length |
| Users.FitsColumns | backend/src/main/java/io/ltj/restructuring/domain/user/UserEntity.java:16-35 | email, password and role are not null, and email, names, ssn, phone and role fit their declared lengths 320, 100, 20, 32 and 30 |
| Users.Insertable | backend/src/main/java/io/ltj/restructuring/domain/user/UserEntity.java:7-38 | a write succeeds when the row it writes satisfies the column constraints and no other stored row has the same email (the unique index) |
| Users.ValidRows | backend/src/main/java/io/ltj/restructuring/domain/user/UserEntity.java:7-38 | the table's invariant: every row is stored under its own generated id, below the next identity value, satisfies the column constraints, and no two rows share an email |
| Users.UserRepository.ExistsByEmail | backend/src/main/java/io/ltj/restructuring/application/auth/AuthServiceImpl.java:94 | existsByEmail: some stored row has exactly this email |
| AuthService.Login | backend/src/main/java/io/ltj/restructuring/application/auth/AuthServiceImpl.java:47-85 | rejected credentials issue nothing; accepted ones whose email has no stored row fail with USER_NOT_FOUND; otherwise the response holds a JwtUtil token for the stored id and email, type "Bearer", 86 400 s and the stored names |
| AuthService.NewUserRow | backend/src/main/java/io/ltj/restructuring/application/auth/AuthServiceImpl.java:102-108 | the new row has the request email, the encoder's hash of the password, the optional names, no id and role "USER" |
| AuthService.NewUserRowFits | backend/src/main/java/io/ltj/restructuring/domain/user/UserEntity.java:16-35 | the new user's row fits the table exactly when the email has at most 320 characters and each name at most 100 |
| AuthService.Register | backend/src/main/java/io/ltj/restructuring/application/auth/AuthServiceImpl.java:91-123 | an email already stored is refused and the table is unchanged; an email or a name longer than its column makes the insert fail and the table is unchanged; otherwise exactly one row is added under the next id and the response echoes its id, email and names |
| AuthService.FitsColumns | backend/src/main/java/io/ltj/restructuring/domain/user/UserEntity.java:16-26 | what a registration request must satisfy for its row to be written: an email of at most 320 characters and names of at most 100 |
| SecurityConfig.FirstMatch | backend/src/main/java/io/ltj/restructuring/config/SecurityConfig.java:53-99 | the index of the first rule matching the method and path, or nothing when none matches |
| SecurityConfig.RequirementFor | backend/src/main/java/io/ltj/restructuring/config/SecurityConfig.java:53-99 | the requirement of a matching rule before which no rule matches: first match wins |
| SecurityConfig.Decide | backend/src/main/java/io/ltj/restructuring/config/SecurityConfig.java:44-99 | a request is allowed exactly when the governing rule permits all, or needs an identity and has one, or needs a role whose ROLE_ authority the identity holds; a refused anonymous request is a 401, a refused authenticated one a 403 |
| SecurityConfig.PublicRulesMatch | backend/src/main/java/io/ltj/restructuring/config/SecurityConfig.java:58-68 | the favicon, hello, health and actuator-health rules match exactly their paths, for every method |
| SecurityConfig.PathRulesMatch | backend/src/main/java/io/ltj/restructuring/config/SecurityConfig.java:58-68 | the public path rules hold for every method |
| SecurityConfig.MethodRulesMatch | backend/src/main/java/io/ltj/restructuring/config/SecurityConfig.java:71-81 | the log, plan, login, register and OPTIONS rules match only their own method |
| SecurityConfig.AdminRulesMatch | backend/src/main/java/io/ltj/restructuring/config/SecurityConfig.java:86-94 | the admin tree, system path and actuator rules match exactly their paths |
| SecurityConfig.GovernedBy | backend/src/main/java/io/ltj/restructuring/config/SecurityConfig.java:53-99 | a rule that matches after no earlier one did governs the request |
| SecurityConfig.EarlyMatchPublic | backend/src/main/java/io/ltj/restructuring/config/SecurityConfig.java:58-81 | a request one of the first seven rules matches is public |
| SecurityConfig.PublicPaths | backend/src/main/java/io/ltj/restructuring/config/SecurityConfig.java:58-68 | the probe and greeting endpoints are public for every method |
| SecurityConfig.OptionsPublic | backend/src/main/java/io/ltj/restructuring/config/SecurityConfig.java:81 | a preflight request is public on every path, the admin and actuator trees included |
| SecurityConfig.OtherApiPathsAuthenticated | backend/src/main/java/io/ltj/restructuring/config/SecurityConfig.java:99 | every other /api/ path needs an identity and nothing more, for every method but OPTIONS |
| SecurityConfig.MethodSpecificPublic | backend/src/main/java/io/ltj/restructuring/config/SecurityConfig.java:71-78 | POST /api/log, GET /api/plan/me and POST login and register are public; any other method on them needs an identity |
| SecurityConfig.AdminTreeNeedsAdmin | backend/src/main/java/io/ltj/restructuring/config/SecurityConfig.java:86 | outside OPTIONS the /api/admin tree needs role ADMIN |
| SecurityConfig.SystemEndpointsNeedAdmin | backend/src/main/java/io/ltj/restructuring/config/SecurityConfig.java:88-92 | outside OPTIONS /api/config, /api/dbinfo and /api/dbversion need role ADMIN |
| SecurityConfig.ActuatorNeedsAdmin | backend/src/main/java/io/ltj/restructuring/config/SecurityConfig.java:94 | outside OPTIONS the actuator tree other than health needs role ADMIN |
| SecurityConfig.HealthBeforeActuator | backend/src/main/java/io/ltj/restructuring/config/SecurityConfig.java:65-68 | the health probe paths are public although the later actuator rule also matches them |
| SecurityConfig.OtherPathsAuthenticated | backend/src/main/java/io/ltj/restructuring/config/SecurityConfig.java:99 | paths outside /api/ and /actuator, other than the favicon, need only an identity |
| SecurityConfig.AnonymousRefusedUnlessPublic | backend/src/main/java/io/ltj/restructuring/config/SecurityConfig.java:44-50 | an anonymous request on a path that is not public is refused with the JSON 401 |
| SecurityConfig.FilterIdentityNeverAdmin | backend/src/main/java/io/ltj/restructuring/config/SecurityConfig.java:86-102 | the identity the filter installs has no authorities, so outside OPTIONS every role rule refuses it with 403 |
| SecurityConfig.CorrectedFilterAdminAllowed | backend/src/main/java/io/ltj/restructuring/config/SecurityConfig.java:86-102 | with the corrected filter a user whose stored role is ADMIN in any letter case passes every role rule |
| SecurityConfig.PatternMatches | backend/src/main/java/io/ltj/restructuring/config/SecurityConfig.java:58-94 | how a request matcher pattern matches a path: an exact path only itself, p/** p itself and every path below p/, and /** every path |
| SecurityConfig.AnyPatternMatches | backend/src/main/java/io/ltj/restructuring/config/SecurityConfig.java:58-62 | a matcher over several patterns matches when one of them does |
| SecurityConfig.RuleMatches | backend/src/main/java/io/ltj/restructuring/config/SecurityConfig.java:58-99 | a rule matches a request when it names no method or the request's method, and one of its patterns matches the path |
| SecurityConfig.RoleAuthority | backend/src/main/java/io/ltj/restructuring/config/SecurityConfig.java:86 | hasRole(role) looks for the authority "ROLE_" followed by the role |
| SecurityConfig.IdentityOf | backend/src/main/java/io/ltj/restructuring/config/SecurityConfig.java:102 | the authorities of the identity the JWT filter, run before the authorization table, leaves in the context; nothing for an anonymous request |
| AdminUserController.FromRow | backend/src/main/java/io/ltj/restructuring/api/admin/AdminUserController.java:29 | the DTO carries the entity's id, email, names and role and nothing else |
| AdminUserController.GetUsers | backend/src/main/java/io/ltj/restructuring/api/admin/AdminUserController.java:25-31 | one DTO per stored user, each exactly once, in some order |
| AdminUserController.ListRows | backend/src/main/java/io/ltj/restructuring/api/admin/AdminUserController.java:27-30 | the listing loop gives one DTO per row stored under its own id, each exactly once |
| AdminUserController.ListingStep | backend/src/main/java/io/ltj/restructuring/api/admin/AdminUserController.java:27-30 | listing one more stored row keeps the list an exact listing of the rows seen so far |
| AdminUserController.GetUser | backend/src/main/java/io/ltj/restructuring/api/admin/AdminUserController.java:36-42 | the DTO of the stored user, or the "User not found: id" error when there is none |
| AdminUserController.WithRole | backend/src/main/java/io/ltj/restructuring/api/admin/AdminUserController.java:52-53 | after setRole and save the stored role is the normalised one, and updatedAt is stamped only when that changed the row |
| AdminUserController.ChangeRole | backend/src/main/java/io/ltj/restructuring/api/admin/AdminUserController.java:49-53 | an unknown id fails with the not-found message and changes nothing; a role longer than the 30-character column fails the write and changes nothing; otherwise only that user's row changes, to WithRole |
| AdminUserController.PromoteToAdmin | backend/src/main/java/io/ltj/restructuring/api/admin/AdminUserController.java:47-54 | the user's stored role becomes "ADMIN"; an unknown id changes nothing |
| AdminUserController.DemoteToUser | backend/src/main/java/io/ltj/restructuring/api/admin/AdminUserController.java:59-66 | the user's stored role becomes "USER"; an unknown id changes nothing |
| AdminUserController.StoredRoles | backend/src/main/java/io/ltj/restructuring/api/admin/AdminUserController.java:52-64 | promoting stores exactly "ADMIN" and demoting exactly "USER" |
| AdminUserController.ChangeRoleIdempotent | backend/src/main/java/io/ltj/restructuring/api/admin/AdminUserController.java:47-66 | promoting or demoting twice stores the same row as once, whatever the second clock reading |
| AdminUserController.RoleAuthorities | backend/src/main/java/io/ltj/restructuring/api/admin/AdminUserController.java:52-64 | a promoted user's principal carries ROLE_ADMIN and a demoted one's ROLE_USER |
| AdminUserController.NotFoundMessage | backend/src/main/java/io/ltj/restructuring/api/admin/AdminUserController.java:39 | the IllegalArgumentException message: "User not found: " followed by the id in decimal |
| UserUpdateRequest.Violations | backend/src/main/java/io/ltj/restructuring/api/dto/user/UserUpdateRequestDto.java:7-19 | each constraint's message key is present exactly when it is violated: required for a null or blank value, tooLong for a name over 100 characters, invalid for an ssn that is not eleven digits; no other key occurs |
| UserUpdateRequest.ValidIff | backend/src/main/java/io/ltj/restructuring/api/dto/user/UserUpdateRequestDto.java:7-19 | a request passes exactly when both names are present, not blank and at most 100 characters and the ssn is eleven digits |
| UserUpdateRequest.DigitsNotBlank | backend/src/main/java/io/ltj/restructuring/api/dto/user/UserUpdateRequestDto.java:16-17 | a value the ssn pattern accepts is never blank |
| UserUpdateRequest.EmptySsnTwoViolations | backend/src/main/java/io/ltj/restructuring/api/dto/user/UserUpdateRequestDto.java:16-17 | an empty ssn breaks two constraints at once: ssn.required and ssn.invalid |
| UserUpdateRequest.Blank | backend/src/main/java/io/ltj/restructuring/api/dto/user/UserUpdateRequestDto.java:8 | what NotBlank rejects: null, empty or whitespace only |
| UserUpdateRequest.TooLong | backend/src/main/java/io/ltj/restructuring/api/dto/user/UserUpdateRequestDto.java:9 | what Size(max) rejects: a non-null string longer than the bound; null passes |
| UserUpdateRequest.ElevenDigits | backend/src/main/java/io/ltj/restructuring/api/dto/user/UserUpdateRequestDto.java:17 | the pattern ^\d{11}$ over the whole value: exactly eleven ASCII digits |
| UserUpdateRequest.SsnMismatch | backend/src/main/java/io/ltj/restructuring/api/dto/user/UserUpdateRequestDto.java:17 | what Pattern rejects: a non-null value that is not eleven digits; null passes |
| UserUpdateRequest.ValidName | backend/src/main/java/io/ltj/restructuring/api/dto/user/UserUpdateRequestDto.java:8-13 | a name passing both of its constraints: present, not blank, at most 100 characters |
| UserApplicationService.MapToDto | backend/src/main/java/io/ltj/restructuring/application/user/UserApplicationService.java:66-74 | the DTO carries id, email, names and ssn; password, phone, role and timestamps are not exposed |
| UserApplicationService.Save | backend/src/main/java/io/ltj/restructuring/application/user/UserApplicationService.java:29-36 | createdAt is stamped only when missing and updatedAt always, then the repository saves; a new entity's hook replaces both stamps; a stored entity's returned createdAt is its own, while the table keeps the createdAt it holds |
| UserApplicationService.FindByEmail | backend/src/main/java/io/ltj/restructuring/application/user/UserApplicationService.java:38-40 | nothing exactly when no user has the email; otherwise the stored user with exactly that email |
| UserApplicationService.ExistsByEmail | backend/src/main/java/io/ltj/restructuring/application/user/UserApplicationService.java:42-44 | true exactly when findById can return a user with that email |
| UserApplicationService.FindById | backend/src/main/java/io/ltj/restructuring/application/user/UserApplicationService.java:46-48 | empty exactly when no user has the id, otherwise that user's DTO |
| UserApplicationService.InfoUpdated | backend/src/main/java/io/ltj/restructuring/application/user/UserApplicationService.java:54-59 | the stored row takes names and ssn from the request, nulls included, and a new updatedAt; every other field is kept |
| UserApplicationService.ValidRequestFits | backend/src/main/java/io/ltj/restructuring/api/dto/user/UserUpdateRequestDto.java:8-18 | a request that passes its validation fits the name and ssn columns |
| UserApplicationService.UpdateUserInfo | backend/src/main/java/io/ltj/restructuring/application/user/UserApplicationService.java:50-64 | a missing id is ResourceNotFoundException "User not found: id" and saves nothing; a name over 100 characters or an ssn over 20 fails the write and saves nothing; otherwise the row becomes InfoUpdated and its DTO is returned |
| UserApplicationService.UpdateKeepsAccount | backend/src/main/java/io/ltj/restructuring/application/user/UserApplicationService.java:54-57 | updating the profile keeps email, password, phone, role and createdAt, so the user's login and authority |
| UserApplicationService.NotFoundMessage | backend/src/main/java/io/ltj/restructuring/application/exception/ResourceNotFoundException.java:10-11 | the exception's message: the resource name, " not found: " and the identifier in decimal |
| UserApplicationService.Stamped | backend/src/main/java/io/ltj/restructuring/application/user/UserApplicationService.java:30-34 | createdAt set to the clock's instant only when it was null, updatedAt set to it always, every other field kept |
| UserApplicationService.FitsColumns | backend/src/main/java/io/ltj/restructuring/domain/user/UserEntity.java:22-29 | first and last name fit their 100-character columns and the ssn its 20-character column |
| InsuranceSnapshots.Without | backend/src/main/java/io/ltj/restructuring/application/insurance/InsuranceSnapshotService.java:20 | the rows of every other user, in their order, and no row of the given user |
| InsuranceSnapshots.FindByUser | backend/src/main/java/io/ltj/restructuring/application/insurance/InsuranceSnapshotService.java:35 | the first stored row of the user, or nothing when the user has none |
| InsuranceSnapshots.SnapshotRepository.constructor | backend/src/main/java/io/ltj/restructuring/application/insurance/InsuranceSnapshotService.java:12 | an empty, well-formed table |
| InsuranceSnapshots.SnapshotRepository.FindByUserId | backend/src/main/java/io/ltj/restructuring/application/insurance/InsuranceSnapshotService.java:35 | the user's stored row, or nothing |
| InsuranceSnapshots.SnapshotRepository.DeleteByUserId | backend/src/main/java/io/ltj/restructuring/application/insurance/InsuranceSnapshotService.java:20 | every row of the user is removed and the others stay in order |
| InsuranceSnapshots.SnapshotRepository.Insert | backend/src/main/java/io/ltj/restructuring/application/insurance/InsuranceSnapshotService.java:30 | the new row gets the next identity value and is appended |
| InsuranceSnapshots.SaveSnapshot | backend/src/main/java/io/ltj/restructuring/application/insurance/InsuranceSnapshotService.java:18-31 | the user's old snapshot is replaced by one with the request's source, types and uncertain flag; a missing source breaks the not-null column and the transaction leaves the table as it was |
| InsuranceSnapshots.GetSnapshot | backend/src/main/java/io/ltj/restructuring/application/insurance/InsuranceSnapshotService.java:33-36 | the user's snapshot, or null |
| InsuranceSnapshots.SaveThenGet | backend/src/main/java/io/ltj/restructuring/application/insurance/InsuranceSnapshotService.java:18-36 | after a save, getSnapshot returns the saved row |
| InsuranceSnapshots.SaveKeepsOthers | backend/src/main/java/io/ltj/restructuring/application/insurance/InsuranceSnapshotService.java:18-31 | a save for one user leaves every other user's snapshot as it was |
| InsuranceSnapshots.ReplacedHasOne | backend/src/main/java/io/ltj/restructuring/application/insurance/InsuranceSnapshotService.java:18-31 | after one or more saves a user has exactly one stored snapshot |
| InsuranceSnapshots.SaveTwice | backend/src/main/java/io/ltj/restructuring/application/insurance/InsuranceSnapshotService.java:18-31 | saving the same request twice leaves one snapshot with the request's content; only its id and timestamp come from the second save |
| InsuranceSnapshots.WellFormed | backend/src/main/java/io/ltj/restructuring/application/insurance/InsuranceSnapshotService.java:18-31 | the table invariant: every id is below the next identity value, and rows that share an id or a user are the same row (saveSnapshot deletes before it inserts) |
| InsuranceSnapshots.Replaced | backend/src/main/java/io/ltj/restructuring/application/insurance/InsuranceSnapshotService.java:18-31 | the reference definition of saveSnapshot's effect: the user's old rows deleted, then the new row appended |
| CoverageGapAnalysis.Recommend | backend/src/main/java/io/ltj/restructuring/application/insurance/CoverageGapAnalysisService.java:33-37 | a recommendation carries the product's id, its name and its provider's name |
| CoverageGapAnalysis.RecommendAll | backend/src/main/java/io/ltj/restructuring/application/insurance/CoverageGapAnalysisService.java:31-38 | one recommendation per product, in order |
| CoverageGapAnalysis.Limit | backend/src/main/java/io/ltj/restructuring/application/insurance/CoverageGapAnalysisService.java:28 | the first min(3, n) elements |
| CoverageGapAnalysis.Analyze | backend/src/main/java/io/ltj/restructuring/application/insurance/CoverageGapAnalysisService.java:20-54 | private disability cover gives no gap; otherwise exactly one CRITICAL income gap whose recommendations are the first three income-protection products |
| CoverageGapAnalysis.OnlyDisabilityMatters | backend/src/main/java/io/ltj/restructuring/application/insurance/CoverageGapAnalysisService.java:23 | two requests that agree on hasPrivateDisability get the same analysis |
| CoverageLossAnalysis.LossMapCovers | backend/src/main/java/io/ltj/restructuring/application/insurance/CoverageLossAnalysisService.java:86-119 | the loss map has an entry for every insurance type, with that type's severity |
| CoverageLossAnalysis.Analyze | backend/src/main/java/io/ltj/restructuring/application/insurance/CoverageLossAnalysisService.java:26-84 | the losses for the user's snapshot, with its types visited in their set's iteration order |
| CoverageLossAnalysis.TypeLossesExact | backend/src/main/java/io/ltj/restructuring/application/insurance/CoverageLossAnalysisService.java:57-63 | every type yields exactly its map entry, in the order visited |
| CoverageLossAnalysis.NoSnapshotOneMedium | backend/src/main/java/io/ltj/restructuring/application/insurance/CoverageLossAnalysisService.java:29-37 | with no snapshot the result is the single MEDIUM "no data" loss |
| CoverageLossAnalysis.PrivateOneLow | backend/src/main/java/io/ltj/restructuring/application/insurance/CoverageLossAnalysisService.java:41-47 | private cover gives the single LOW loss, whatever the types and the uncertain flag |
| CoverageLossAnalysis.OtherSourceLosses | backend/src/main/java/io/ltj/restructuring/application/insurance/CoverageLossAnalysisService.java:48-73 | employer or unknown cover gives one loss per type, or the MEDIUM "no types" loss when there are none, then the uncertainty loss when the user is unsure |
| CoverageLossAnalysis.CountOfTypes | backend/src/main/java/io/ltj/restructuring/application/insurance/CoverageLossAnalysisService.java:48-73 | with employer or unknown cover there are max(number of types, 1) losses, plus one when the user is unsure |
| CoverageLossAnalysis.NeverEmptyNoFallback | backend/src/main/java/io/ltj/restructuring/application/insurance/CoverageLossAnalysisService.java:75-81 | the result is never empty, so the LOW "nothing found" fallback never appears |
| CoverageLossAnalysis.OrderIrrelevant | backend/src/main/java/io/ltj/restructuring/application/insurance/CoverageLossAnalysisService.java:58 | any two iteration orders of the type set give the same losses as a multiset |
| CoverageLossAnalysis.SameTypeLosses | backend/src/main/java/io/ltj/restructuring/application/insurance/CoverageLossAnalysisService.java:58-63 | two enumerations of one type set give type losses with equal multisets |
| CoverageLossAnalysis.TypeLossesDistinct | backend/src/main/java/io/ltj/restructuring/application/insurance/CoverageLossAnalysisService.java:86-119 | distinct types have distinct losses, so no loss appears twice |
| CoverageLossAnalysis.TypeSeverity | backend/src/main/java/io/ltj/restructuring/application/insurance/CoverageLossAnalysisService.java:86-119 | the severity lossMap gives each type: INCOME critical; TREATMENT, DISABILITY and LIFE high; PENSION and UNKNOWN medium |
| CoverageLossAnalysis.TypeLosses | backend/src/main/java/io/ltj/restructuring/application/insurance/CoverageLossAnalysisService.java:57-63 | the forEach over the types: the mapped loss of each type in iteration order, where a type without an entry adds nothing |
| CoverageLossAnalysis.Losses | backend/src/main/java/io/ltj/restructuring/application/insurance/CoverageLossAnalysisService.java:26-84 | the reference definition of analyze: no snapshot gives the one no-data loss; private cover the one private loss; otherwise the no-types loss or the type losses, then the uncertainty loss when flagged; an empty result becomes the one nothing-found loss |
| CoverageLossAnalysis.Enumerates | backend/src/main/java/io/ltj/restructuring/application/insurance/CoverageLossAnalysisService.java:58 | the order in which a set's forEach visits it: every type of the set exactly once, and nothing else |
| CoverageLossAnalysis.LossMapInjective | backend/src/main/java/io/ltj/restructuring/application/insurance/CoverageLossAnalysisService.java:86-119 | lossMap gives distinct types distinct losses |
| UserInsuranceProfiles.ParseSource | backend/src/main/java/io/ltj/restructuring/application/insurance/UserInsuranceProfileService.java:59-68 | a null value is "source is required"; otherwise the upper-cased value must name a source, else "Invalid source: " followed by the original value |
| UserInsuranceProfiles.ParseSourceName | backend/src/main/java/io/ltj/restructuring/application/insurance/UserInsuranceProfileService.java:64 | every source's name parses back to that source, and so does its lower-case spelling |
| UserInsuranceProfiles.ToDto | backend/src/main/java/io/ltj/restructuring/application/insurance/UserInsuranceProfileService.java:46-57 | every field of the profile, with the source rendered as its name |
| UserInsuranceProfiles.NewestFirst | backend/src/main/java/io/ltj/restructuring/application/insurance/UserInsuranceProfileService.java:40 | the user's rows, and only those, from newest to oldest |
| UserInsuranceProfiles.NewestFirstDescending | backend/src/main/java/io/ltj/restructuring/application/insurance/UserInsuranceProfileService.java:40 | with ids ascending in the store, the user's rows come out by id descending |
| UserInsuranceProfiles.ProfileRepository.constructor | backend/src/main/java/io/ltj/restructuring/application/insurance/UserInsuranceProfileService.java:15 | an empty table |
| UserInsuranceProfiles.ProfileRepository.Insert | backend/src/main/java/io/ltj/restructuring/application/insurance/UserInsuranceProfileService.java:34 | the new profile gets the next identity value and is appended |
| UserInsuranceProfiles.ProfileRepository.FindByUserIdOrderByIdDesc | backend/src/main/java/io/ltj/restructuring/application/insurance/UserInsuranceProfileService.java:40 | the user's profiles newest first |
| UserInsuranceProfiles.Register | backend/src/main/java/io/ltj/restructuring/application/insurance/UserInsuranceProfileService.java:23-35 | an unparseable source fails with its message before anything is saved; otherwise exactly one active profile with the request's fields is appended |
| UserInsuranceProfiles.GetForUser | backend/src/main/java/io/ltj/restructuring/application/insurance/UserInsuranceProfileService.java:39-44 | the user's profiles as responses, newest first |
| UserInsuranceProfiles.MapDto | backend/src/main/java/io/ltj/restructuring/application/insurance/UserInsuranceProfileService.java:41-43 | one response per profile, in order |
| UserInsuranceProfiles.RegisterThenList | backend/src/main/java/io/ltj/restructuring/application/insurance/UserInsuranceProfileService.java:23-44 | after a registration the new, active profile heads the user's list and the older profiles follow |
| UserInsuranceProfiles.RegisterKeepsOthers | backend/src/main/java/io/ltj/restructuring/application/insurance/UserInsuranceProfileService.java:23-44 | a registration leaves every other user's list as it was |
| UserInsuranceProfiles.SourceName | backend/src/main/java/io/ltj/restructuring/domain/insurance/UserInsuranceProfile.java:107-111 | Source.name(): the constant's own upper-case name |
| UserInsuranceProfiles.Ascending | backend/src/main/java/io/ltj/restructuring/application/insurance/UserInsuranceProfileService.java:34 | the table's rows in increasing id order, every id below the next identity value |
| UserInsuranceProfiles.Descending | backend/src/main/java/io/ltj/restructuring/application/insurance/UserInsuranceProfileService.java:40 | ids strictly decreasing, the order findByUserIdOrderByIdDesc returns |
| UserInsuranceProfiles.NewProfile | backend/src/main/java/io/ltj/restructuring/domain/insurance/UserInsuranceProfile.java:44-61 | the constructor's profile: the user, the source and the request's fields, with active set to true |
| InsuranceXml.FormatIsoLocalDateTime | backend/backend/src/main/java/io/ltj/restructuring/domain/insurance/InsuranceXmlGenerator.java:14 | for a four-digit year and no fraction: nineteen characters, uuuu-MM-ddTHH:mm:ss, each field's digits denoting that field's value |
| InsuranceXml.FormatYear | backend/backend/src/main/java/io/ltj/restructuring/domain/insurance/InsuranceXmlGenerator.java:14 | a year from 0 to 9999 is four digits denoting it |
| InsuranceXml.TwoDigits | backend/backend/src/main/java/io/ltj/restructuring/domain/insurance/InsuranceXmlGenerator.java:14 | two digits denoting the value |
| InsuranceXml.FormatFraction | backend/backend/src/main/java/io/ltj/restructuring/domain/insurance/InsuranceXmlGenerator.java:14 | empty exactly for zero nanoseconds, otherwise '.' and one to nine digits not ending in 0 |
| InsuranceXml.Sanitize | backend/backend/src/main/java/io/ltj/restructuring/domain/insurance/InsuranceXmlGenerator.java:43-45 | null becomes the empty string and any other value is kept |
| InsuranceXml.Generate | backend/backend/src/main/java/io/ltj/restructuring/domain/insurance/InsuranceXmlGenerator.java:32-41 | a null user fails with "user must not be null"; otherwise the template filled with the sanitised names and identity number and the clock's time |
| InsuranceXml.DocumentLines | backend/backend/src/main/java/io/ltj/restructuring/domain/insurance/InsuranceXmlGenerator.java:15-24 | with values free of line breaks the document splits into the nine template lines, each value verbatim between its tags and an empty last part |
| InsuranceXml.NullFieldsEmpty | backend/backend/src/main/java/io/ltj/restructuring/domain/insurance/InsuranceXmlGenerator.java:35-37 | null name and identity fields render exactly as empty ones |
| InsuranceXml.FixedTimestamp | restructuring-backend/src/test/java/io/ltj/restructuring/domain/insurance/InsuranceXmlGeneratorTest.java:14-15 | the fixed clock renders as 2024-01-15T10:15:30 |
| InsuranceXml.GeneratesAllUserFields | restructuring-backend/src/test/java/io/ltj/restructuring/domain/insurance/InsuranceXmlGeneratorTest.java:19-38 | John Doe with identity number 12345678901 at the fixed clock gives exactly the expected document |
| InsuranceXml.ReplacesNullUserFields | restructuring-backend/src/test/java/io/ltj/restructuring/domain/insurance/InsuranceXmlGeneratorTest.java:40-59 | a user whose three fields are null gives the document with empty elements |
| InsuranceXml.ValidDateTime | backend/backend/src/main/java/io/ltj/restructuring/domain/insurance/InsuranceXmlGenerator.java:38 | the ranges of a LocalDateTime's fields: year within ±999999999, month 1-12, day 1-31, hour, minute, second and nano in range |
| InsuranceXml.TemplateLines | backend/backend/src/main/java/io/ltj/restructuring/domain/insurance/InsuranceXmlGenerator.java:15-24 | the text block's eight lines with common indentation stripped and the four values in the %s places, unescaped |
| InsuranceXml.Fill | backend/backend/src/main/java/io/ltj/restructuring/domain/insurance/InsuranceXmlGenerator.java:40 | XML_TEMPLATE.formatted: the template lines, each followed by a line break |
| InsuranceRequests.Submitted | backend/src/main/java/io/ltj/restructuring/domain/insurance/InsuranceRequest.java:34-46 | status SENT, no identity yet, user, XML and submission time as given, creation time from the clock |
| InsuranceRequests.CreatedAtFromClock | backend/src/main/java/io/ltj/restructuring/domain/insurance/InsuranceRequest.java:42 | the creation time does not depend on the submission time passed in, and differs from it when that time is not now |
| AuditedInsuranceRequests.AuditFilled | backend/backend/src/main/java/io/ltj/restructuring/domain/insurance/InsuranceRequest.java:42-50 | both audit fields end up set; a present value is kept, a null creation time becomes now and a null status SENT; the other fields are untouched |
| AuditedInsuranceRequests.AuditFilledIdempotent | backend/backend/src/main/java/io/ltj/restructuring/domain/insurance/InsuranceRequest.java:42-50 | running the hook twice equals running it once, whatever the second clock reading |
| AuditedInsuranceRequests.AuditFilledFixedPoint | backend/backend/src/main/java/io/ltj/restructuring/domain/insurance/InsuranceRequest.java:42-50 | the hook changes nothing exactly when both audit fields are already set |
| AuditedInsuranceRequests.SubmittedThenPersisted | backend/backend/src/main/java/io/ltj/restructuring/domain/insurance/InsuranceRequest.java:33-50 | a request from the factory keeps its fields on persist, except that a null creation time becomes now |
| AuditedInsuranceRequests.InsuranceRequest.constructor | backend/backend/src/main/java/io/ltj/restructuring/domain/insurance/InsuranceRequest.java:13-31 | every field is null |
| AuditedInsuranceRequests.InsuranceRequest.SetUserId | backend/backend/src/main/java/io/ltj/restructuring/domain/insurance/InsuranceRequest.java:12 | only the user id changes |
| AuditedInsuranceRequests.InsuranceRequest.SetCreatedAt | backend/backend/src/main/java/io/ltj/restructuring/domain/insurance/InsuranceRequest.java:12 | only the creation time changes |
| AuditedInsuranceRequests.InsuranceRequest.SetStatus | backend/backend/src/main/java/io/ltj/restructuring/domain/insurance/InsuranceRequest.java:12 | only the status changes |
| AuditedInsuranceRequests.InsuranceRequest.SetXmlContent | backend/backend/src/main/java/io/ltj/restructuring/domain/insurance/InsuranceRequest.java:12 | only the XML content changes |
| AuditedInsuranceRequests.InsuranceRequest.Submitted | backend/backend/src/main/java/io/ltj/restructuring/domain/insurance/InsuranceRequest.java:33-40 | a fresh entity holding the user, the creation time and the XML as given, status SENT and no id |
| AuditedInsuranceRequests.InsuranceRequest.EnsureAuditFields | backend/backend/src/main/java/io/ltj/restructuring/domain/insurance/InsuranceRequest.java:42-50 | the new state is the hook applied to the old state |
| AuditedInsuranceRequests.SubmittedState | backend/backend/src/main/java/io/ltj/restructuring/domain/insurance/InsuranceRequest.java:33-40 | the state the factory submitted leaves: the user, creation time and XML as given, status SENT, and no identity yet |
| AuditedInsuranceRequests.InsuranceRequest.State | backend/backend/src/main/java/io/ltj/restructuring/domain/insurance/InsuranceRequest.java:13-31 | the entity's five fields as one state value, which the setters and the PrePersist hook are stated against |
| SystemInfoAdmin.Summaries | backend/src/main/java/io/ltj/restructuring/application/system/SystemInfoAdminController.java:100-104 | as many summaries as rows |
| SystemInfoAdmin.SummariesAt | backend/src/main/java/io/ltj/restructuring/application/system/SystemInfoAdminController.java:100-104 | the summary at each position holds the six selected columns of the row there |
| SystemInfoAdmin.SummariesPrefix | backend/src/main/java/io/ltj/restructuring/application/system/SystemInfoAdminController.java:100-112 | summarising the first n rows gives the first n summaries, so dropping the extra fetched row drops its summary |
| SystemInfoAdmin.SafeOffset | backend/src/main/java/io/ltj/restructuring/application/system/SystemInfoAdminController.java:91-94 | never negative; 0 when the parameter is missing, a negative offset becomes 0 |
| SystemInfoAdmin.SafeLimit | backend/src/main/java/io/ltj/restructuring/application/system/SystemInfoAdminController.java:92-95 | between 1 and 200; 50 when missing, a limit in range is kept, one below is 1, one above is 200 |
| SystemInfoAdmin.Window | backend/src/main/java/io/ltj/restructuring/application/system/SystemInfoAdminController.java:103-106 | the rows from the offset on, at most limit of them, none when the offset is past the end |
| SystemInfoAdmin.ListUsers | backend/src/main/java/io/ltj/restructuring/application/system/SystemInfoAdminController.java:89-127 | a failing query gives the server error "Kunne ikke hente brukere: " and the message; otherwise the page |
| SystemInfoAdmin.ListUsersPage | backend/src/main/java/io/ltj/restructuring/application/system/SystemInfoAdminController.java:94-122 | the response echoes the clamped offset and limit, counts every row, lists the rows from the offset up to the limit, and says more follow exactly when rows remain after them |
| SystemInfoAdmin.PagesCoverRest | backend/src/main/java/io/ltj/restructuring/application/system/SystemInfoAdminController.java:103-111 | cutting the rows from an offset into pages of the limit loses and repeats nothing |
| SystemInfoAdmin.WalkIsPages | backend/src/main/java/io/ltj/restructuring/application/system/SystemInfoAdminController.java:103-111 | the walk is the summaries of those pages |
| SystemInfoAdmin.WalkFollowsPages | backend/src/main/java/io/ltj/restructuring/application/system/SystemInfoAdminController.java:94-122 | each step of the walk is the page listUsers returns at that offset, followed by the walk from the offset moved on by the limit exactly while listUsers reports more rows |
| SystemInfoAdmin.WalkCoversRest | backend/src/main/java/io/ltj/restructuring/application/system/SystemInfoAdminController.java:103-111 | following the pages from an offset by the limit lists every row from that offset on, once each and in id order |
| SystemInfoAdmin.SummariesAppend | backend/src/main/java/io/ltj/restructuring/application/system/SystemInfoAdminController.java:100-104 | summarising a concatenation is concatenating the summaries |
| SystemInfoAdmin.WalkFromStart | backend/src/main/java/io/ltj/restructuring/application/system/SystemInfoAdminController.java:103-111 | from offset 0 the pages together list the whole table |
| SystemInfoAdmin.Summary | backend/src/main/java/io/ltj/restructuring/application/system/SystemInfoAdminController.java:100-102 | one row of the query: id, email, first_name, last_name, ssn and role of the stored user, nothing else |
| SystemInfoAdmin.Pages | backend/src/main/java/io/ltj/restructuring/application/system/SystemInfoAdminController.java:100-111 | the rows from an offset on, cut into consecutive pages of one size: what LIMIT and OFFSET give page after page |
| SystemInfoAdmin.Walk | backend/src/main/java/io/ltj/restructuring/application/system/SystemInfoAdminController.java:94-122 | following the pages: the users listUsers returns at the offset and, while hasMore says more rows follow, those of the next page at offset + limit |
| UserProfilePdf.OrDash | backend/src/main/java/io/ltj/restructuring/application/system/UserProfilePdfService.java:287-293 | never blank; "-" for a null or blank value, otherwise the value |
| UserProfilePdf.OrDashNumber | backend/src/main/java/io/ltj/restructuring/application/system/UserProfilePdfService.java:287-293 | never blank; "-" for null, otherwise the number's decimal form |
| UserProfilePdf.PatternYear | backend/src/main/java/io/ltj/restructuring/application/system/UserProfilePdfService.java:36-37 | no 'T'; a year from 1 to 9999 is four digits denoting it |
| UserProfilePdf.DisplayTimestamp | backend/src/main/java/io/ltj/restructuring/application/system/UserProfilePdfService.java:37 | the yyyy-MM-dd HH:mm text holds no 'T' |
| UserProfilePdf.FileTimestamp | backend/src/main/java/io/ltj/restructuring/application/system/UserProfilePdfService.java:36 | twelve digits for a four-digit year |
| UserProfilePdf.FormatDate | backend/src/main/java/io/ltj/restructuring/application/system/UserProfilePdfService.java:295-308 | never a 'T'; "-" for null or blank, the display pattern of the first parser that accepts the text, else the text with each 'T' replaced by a space |
| UserProfilePdf.ParseDiaryMap | backend/src/main/java/io/ltj/restructuring/application/system/UserProfilePdfService.java:251-261 | the empty map for null or blank text or a JSON null, the map read when the text is one, else the whole text under "Notat" |
| UserProfilePdf.DiaryLines | backend/src/main/java/io/ltj/restructuring/application/system/UserProfilePdfService.java:130-137 | one "key: value" line per entry, by key ascending |
| UserProfilePdf.UnreadableDiaryLine | backend/src/main/java/io/ltj/restructuring/application/system/UserProfilePdfService.java:251-261 | an unreadable diary shows as the single line "Notat: " and the raw text |
| UserProfilePdf.BulletElements | backend/src/main/java/io/ltj/restructuring/application/system/UserProfilePdfService.java:274-285 | no element for an empty list, else one list holding the lines |
| UserProfilePdf.JournalLines | backend/src/main/java/io/ltj/restructuring/application/system/UserProfilePdfService.java:156-166 | one line per entry, taken from the entries sorted by creation text descending |
| UserProfilePdf.JournalSection | backend/src/main/java/io/ltj/restructuring/application/system/UserProfilePdfService.java:143-170 | the heading, then "Ingen journalinnslag." for no entries, else the sorted lines, then a spacer |
| UserProfilePdf.JournalNewestFirst | backend/src/main/java/io/ltj/restructuring/application/system/UserProfilePdfService.java:156-159 | the listed entries are the entries, each once, by creation text descending with ties in their order, the ones without a time last |
| UserProfilePdf.RequestLines | backend/src/main/java/io/ltj/restructuring/application/system/UserProfilePdfService.java:185-192 | one line per request, taken from the requests sorted by creation text descending |
| UserProfilePdf.RequestsSection | backend/src/main/java/io/ltj/restructuring/application/system/UserProfilePdfService.java:172-196 | the heading, then "Ingen forespørsler." for no requests, else the sorted lines, then a spacer |
| UserProfilePdf.RequestsNewestFirst | backend/src/main/java/io/ltj/restructuring/application/system/UserProfilePdfService.java:186-188 | the requests are listed as the journal is: each once, newest first, stable, the ones without a time last |
| UserProfilePdf.YesNo | backend/src/main/java/io/ltj/restructuring/application/system/UserProfilePdfService.java:217-240 | "Ja" exactly for a Boolean that is TRUE, "Nei" otherwise, null included |
| UserProfilePdf.InsuranceLines | backend/src/main/java/io/ltj/restructuring/application/system/UserProfilePdfService.java:211-221 | one line per insurance, in the order given |
| UserProfilePdf.InsurancesSection | backend/src/main/java/io/ltj/restructuring/application/system/UserProfilePdfService.java:198-225 | the heading, then "Ingen registrerte forsikringer." for none, else one line each |
| UserProfilePdf.SnapshotLinesOf | backend/src/main/java/io/ltj/restructuring/application/system/UserProfilePdfService.java:237-245 | four lines (id, source, uncertainty, creation), and a fifth with the types when there are any |
| UserProfilePdf.SnapshotLines | backend/src/main/java/io/ltj/restructuring/application/system/UserProfilePdfService.java:237-245 | the list built line by line is the snapshot's lines |
| UserProfilePdf.SnapshotSection | backend/src/main/java/io/ltj/restructuring/application/system/UserProfilePdfService.java:227-248 | the heading, then "Ingen snapshot registrert." without a snapshot, else the bullet list of its lines |
| UserProfilePdf.Document.constructor | backend/src/main/java/io/ltj/restructuring/application/system/UserProfilePdfService.java:79 | an empty document |
| UserProfilePdf.Document.Add | backend/src/main/java/io/ltj/restructuring/application/system/UserProfilePdfService.java:88 | the element is appended |
| UserProfilePdf.Document.AddBulletList | backend/src/main/java/io/ltj/restructuring/application/system/UserProfilePdfService.java:274-285 | the bullet elements of the lines are appended |
| UserProfilePdf.AddUserSection | backend/src/main/java/io/ltj/restructuring/application/system/UserProfilePdfService.java:103-112 | the user section is appended |
| UserProfilePdf.AddPlanSection | backend/src/main/java/io/ltj/restructuring/application/system/UserProfilePdfService.java:114-141 | the plan section is appended |
| UserProfilePdf.AddJournalSection | backend/src/main/java/io/ltj/restructuring/application/system/UserProfilePdfService.java:143-170 | the journal section is appended |
| UserProfilePdf.AddRequestsSection | backend/src/main/java/io/ltj/restructuring/application/system/UserProfilePdfService.java:172-196 | the requests section is appended |
| UserProfilePdf.AddInsurancesSection | backend/src/main/java/io/ltj/restructuring/application/system/UserProfilePdfService.java:198-225 | the insurances section is appended |
| UserProfilePdf.AddSnapshotSection | backend/src/main/java/io/ltj/restructuring/application/system/UserProfilePdfService.java:227-248 | the snapshot section is appended |
| UserProfilePdf.RenderPdf | backend/src/main/java/io/ltj/restructuring/application/system/UserProfilePdfService.java:77-100 | the document holds the title, the generation time, a spacer and the six sections in order |
| UserProfilePdf.FetchUserProfile | backend/src/main/java/io/ltj/restructuring/application/system/UserProfilePdfService.java:61-75 | no row, null or blank text and a JSON null give no profile; a failed query or unreadable text gives "Feil ved henting av brukerprofil" |
| UserProfilePdf.FileName | backend/src/main/java/io/ltj/restructuring/application/system/UserProfilePdfService.java:54 | "user_profile_", the id and "_", then the twelve-digit time and ".pdf" |
| UserProfilePdf.GenerateUserProfilePdf | backend/src/main/java/io/ltj/restructuring/application/system/UserProfilePdfService.java:48-59 | a missing profile is "Fant ikke brukerprofil.", a fetch error propagates, else the rendered document under its file name |
| UserProfilePdf.EmptyProfileSentences | backend/src/main/java/io/ltj/restructuring/application/system/UserProfilePdfService.java:151-233 | a profile without journal, requests, insurances or snapshot gets each section's fixed sentence |
| UserProfilePdf.IdText | backend/src/main/java/io/ltj/restructuring/application/system/UserProfilePdfService.java:161 | an id as string concatenation renders it: "null" for a null Long, else its decimal digits |
| UserProfilePdf.Two | backend/src/main/java/io/ltj/restructuring/application/system/UserProfilePdfService.java:37 | a two-digit field of the display patterns: two digits denoting the value, no 'T' among them |
| UserProfilePdf.UserLines | backend/src/main/java/io/ltj/restructuring/application/system/UserProfilePdfService.java:106-110 | the three user lines: id, email (each "-" when missing) and the formatted creation time |
| UserProfilePdf.UserSection | backend/src/main/java/io/ltj/restructuring/application/system/UserProfilePdfService.java:103-112 | the "Bruker" heading, the bullet list of the user lines and a spacer |
| UserProfilePdf.NeedsText | backend/src/main/java/io/ltj/restructuring/application/system/UserProfilePdfService.java:125 | "-" for no needs, else the needs joined with ", " |
| UserProfilePdf.PlanLines | backend/src/main/java/io/ltj/restructuring/application/system/UserProfilePdfService.java:118-128 | the six plan lines: id, persona, phase, needs split from the column, creation and update times |
| UserProfilePdf.PlanSection | backend/src/main/java/io/ltj/restructuring/application/system/UserProfilePdfService.java:114-141 | the "Plan" heading, the plan lines, the diary elements and a spacer |
| UserProfilePdf.DiaryElements | backend/src/main/java/io/ltj/restructuring/application/system/UserProfilePdfService.java:130-138 | nothing for an empty diary map, else the "Dagbok" paragraph and the bullet list of its lines |
| UserProfilePdf.JournalKey | backend/src/main/java/io/ltj/restructuring/application/system/UserProfilePdfService.java:158 | the sort key: the creation text, "" when null |
| UserProfilePdf.JournalLine | backend/src/main/java/io/ltj/restructuring/application/system/UserProfilePdfService.java:160-164 | "ID", the id, the phase ("-" when missing) and the formatted time in parentheses, ":" and a line break, then the content or "-" |
| UserProfilePdf.RequestKey | backend/src/main/java/io/ltj/restructuring/application/system/UserProfilePdfService.java:187 | the sort key: the creation text, "" when null |
| UserProfilePdf.RequestLine | backend/src/main/java/io/ltj/restructuring/application/system/UserProfilePdfService.java:189-191 | "ID", the id, the status in brackets ("-" when missing) and the formatted time |
| UserProfilePdf.NotesSuffix | backend/src/main/java/io/ltj/restructuring/application/system/UserProfilePdfService.java:219 | the notes after a bar and the label "Notat: " when they are present and not blank, else nothing |
| UserProfilePdf.InsuranceLine | backend/src/main/java/io/ltj/restructuring/application/system/UserProfilePdfService.java:212-220 | id and source, provider and product ("-" when missing), "Ja"/"Nei" for active, the validity period and the notes suffix |
| UserProfilePdf.Rendered | backend/src/main/java/io/ltj/restructuring/application/system/UserProfilePdfService.java:77-100 | the title, "Generert: " with the formatted time, a spacer, then the six sections in order |
| FrontendLogEntries.Meta | backend/src/main/java/io/ltj/restructuring/logging/FrontendLogEntry.java:19-21 | never null: the entries sent, or none when meta is missing |
| FrontendLogEntries.Message | backend/src/main/java/io/ltj/restructuring/logging/FrontendLogEntry.java:23-32 | never blank: the message when it has a visible character, else the event when that has one, else "Frontend event" |
| FrontendLogEntries.DefaultedLevel | backend/backend/src/main/java/io/ltj/restructuring/logging/FrontendLogEntry.java:17-20 | the level sent, INFO when none was sent |
| FrontendLogEntries.ValidMessageBound | backend/src/main/java/io/ltj/restructuring/logging/FrontendLogEntry.java:10-18 | on an entry passing its size constraints the message has at most 2000 characters and meta at most 50 entries |
| FrontendLogEntries.MessageIgnoresEvent | backend/src/main/java/io/ltj/restructuring/logging/FrontendLogEntry.java:25-27 | a non-blank message is used whatever the event is |
| FrontendLogEntries.ValidLevelsAgree | backend/src/main/java/io/ltj/restructuring/logging/FrontendLogEntry.java:13 | a valid entry has a level, so both record versions report the level sent |
| FrontendLogEntries.Present | backend/src/main/java/io/ltj/restructuring/logging/FrontendLogEntry.java:25-28 | the test message() applies to message and event: not null and not blank |
| FrontendLogEntries.SizeAtMost | backend/src/main/java/io/ltj/restructuring/logging/FrontendLogEntry.java:11-17 | @Size(max): a null value passes, any other value has at most max characters |
| FrontendLogEntries.Valid | backend/src/main/java/io/ltj/restructuring/logging/FrontendLogEntry.java:10-18 | the bean-validation constraints: context and event at most 200 characters, a level, a message of at most 2000, at most 50 meta entries, a timestamp of at most 64 |
| FrontendLogController.Flatten | backend/src/main/java/io/ltj/restructuring/logging/FrontendLogController.java:67 | same length, no carriage return or line feed left, every other character in place |
| FrontendLogController.FlattenBlank | backend/src/main/java/io/ltj/restructuring/logging/FrontendLogController.java:67 | flattening keeps a value blank exactly when it was blank |
| FrontendLogController.TrimNoLineBreaks | backend/src/main/java/io/ltj/restructuring/logging/FrontendLogController.java:67 | trimming a value without line breaks leaves none |
| FrontendLogController.Sanitize | backend/src/main/java/io/ltj/restructuring/logging/FrontendLogController.java:65-72 | null stays null; otherwise the flattened, trimmed value, cut to maxLen characters followed by "..." when longer; never a line break, at most maxLen + 3 characters, blank exactly when the input was |
| FrontendLogController.SanitizeIdempotent | backend/src/main/java/io/ltj/restructuring/logging/FrontendLogController.java:65-72 | a value that fits comes back unchanged from a second sanitize |
| FrontendLogController.WithoutKey | backend/src/main/java/io/ltj/restructuring/logging/FrontendLogController.java:57-62 | the entries without key k, and all of them when k does not occur |
| FrontendLogController.SafeEntry | backend/src/main/java/io/ltj/restructuring/logging/FrontendLogController.java:55-63 | a sanitised meta value has no line breaks and at most 503 characters |
| FrontendLogController.SafeMeta | backend/src/main/java/io/ltj/restructuring/logging/FrontendLogController.java:55-63 | distinct keys, the same key set, empty exactly when meta is, every value without line breaks and at most 503 characters |
| FrontendLogController.SafeMetaOfMap | backend/src/main/java/io/ltj/restructuring/logging/FrontendLogController.java:55-63 | for a map's entries every entry stays in its place with its value sanitised to 500 characters |
| FrontendLogController.IfPresent | backend/src/main/java/io/ltj/restructuring/logging/FrontendLogController.java:74-79 | the key with its sanitised value exactly when the value is non-null and not blank |
| FrontendLogController.ErrorDetails | backend/src/main/java/io/ltj/restructuring/logging/FrontendLogController.java:81-88 | nothing without an error, else at most its message, name and stack |
| FrontendLogController.MetaKeyValue | backend/src/main/java/io/ltj/restructuring/logging/FrontendLogController.java:45-48 | a "meta" key-value holding the safe meta exactly when meta is not empty |
| FrontendLogController.Receive | backend/src/main/java/io/ltj/restructuring/logging/FrontendLogController.java:26-53 | refused exactly when the entry fails validation or has more than 25 meta entries, as an invalid payload exactly in the first case |
| FrontendLogController.AllSafeAppend | backend/src/main/java/io/ltj/restructuring/logging/FrontendLogController.java:40-50 | two safe key-value lists make a safe one |
| FrontendLogController.AllSafeEach | backend/src/main/java/io/ltj/restructuring/logging/FrontendLogController.java:40-50 | a list is safe exactly when each value is |
| FrontendLogController.IfPresentSafe | backend/src/main/java/io/ltj/restructuring/logging/FrontendLogController.java:74-79 | what addIfPresent adds is safe |
| FrontendLogController.ReceivedEventSafe | backend/src/main/java/io/ltj/restructuring/logging/FrontendLogController.java:26-53 | an accepted entry logs at the level sent, with "source" first, every key-value on one line and bounded, and the message its own text flattened and trimmed, never cut and never blank |
| FrontendLogController.KeyValuesSafe | backend/src/main/java/io/ltj/restructuring/logging/FrontendLogController.java:40-50 | with at most 25 meta entries the first key-value is the source and every one is safe |
| FrontendLogController.HeaderSafe | backend/src/main/java/io/ltj/restructuring/logging/FrontendLogController.java:40-43 | the source, context, event and timestamp key-values are safe |
| FrontendLogController.MetaSafe | backend/src/main/java/io/ltj/restructuring/logging/FrontendLogController.java:45-48 | the meta key-value is safe |
| FrontendLogController.ErrorDetailsSafe | backend/src/main/java/io/ltj/restructuring/logging/FrontendLogController.java:81-88 | the error key-values are safe |
| FrontendLogController.RejectedOnlyForMeta | backend/src/main/java/io/ltj/restructuring/logging/FrontendLogController.java:30-32 | a valid entry is refused exactly when it has more than 25 meta entries, and then with "meta has too many entries" |
| FrontendLogController.LogEventBuilder.constructor | backend/src/main/java/io/ltj/restructuring/logging/FrontendLogController.java:34-38 | a builder at the given level with no key-values and nothing logged |
| FrontendLogController.LogEventBuilder.AddKeyValue | backend/src/main/java/io/ltj/restructuring/logging/FrontendLogController.java:40 | the key-value is appended and nothing else changes |
| FrontendLogController.LogEventBuilder.Log | backend/src/main/java/io/ltj/restructuring/logging/FrontendLogController.java:52 | the message is logged and the key-values stay |
| FrontendLogController.AddIfPresent | backend/src/main/java/io/ltj/restructuring/logging/FrontendLogController.java:74-79 | the builder's key-values grow by what IfPresent gives |
| FrontendLogController.AddErrorDetails | backend/src/main/java/io/ltj/restructuring/logging/FrontendLogController.java:81-88 | the builder's key-values grow by what ErrorDetails gives |
| FrontendLogController.ReceiveFrontendLog | backend/src/main/java/io/ltj/restructuring/logging/FrontendLogController.java:26-53 | a refused entry logs nothing; an accepted one gives a fresh builder at its level holding exactly the key-values and message Receive describes |
| FrontendLogController.KeyValues | backend/src/main/java/io/ltj/restructuring/logging/FrontendLogController.java:40-50 | the key-values receiveFrontendLog adds, in order: source = frontend, then context, event and timestamp when present, then meta when non-empty, then the error details |
| UserPlanService.Sanitized | backend/backend/src/main/java/io/ltj/restructuring/application/plan/UserPlanApplicationService.java:86 | one entry per need, the need with each comma turned into a space, so no comma is left |
| UserPlanService.Cleaned | backend/backend/src/main/java/io/ltj/restructuring/application/plan/UserPlanApplicationService.java:96-97 | at most as many parts, each non-empty and already trimmed |
| UserPlanService.JoinNeeds | backend/backend/src/main/java/io/ltj/restructuring/application/plan/UserPlanApplicationService.java:81-88 | null exactly for a null or empty list; otherwise one string that splits at ',' back into the sanitised needs |
| UserPlanService.SplitNeeds | backend/backend/src/main/java/io/ltj/restructuring/application/plan/UserPlanApplicationService.java:90-99 | nothing for a null or blank column; every part non-empty and free of commas |
| UserPlanService.CleanedKeepsSeparatorFree | backend/backend/src/main/java/io/ltj/restructuring/application/plan/UserPlanApplicationService.java:94-98 | trimming and dropping parts keeps them free of a separator they lacked |
| UserPlanService.NeedsRoundTrip | backend/backend/src/main/java/io/ltj/restructuring/application/plan/UserPlanApplicationService.java:81-99 | reading back stored needs gives the needs with commas replaced, trimmed, and the empty ones dropped |
| UserPlanService.ParseDiaryMap | backend/backend/src/main/java/io/ltj/restructuring/application/plan/UserPlanApplicationService.java:101-119 | the empty map for a null or blank column or a JSON null, the object read when it is one, else the whole text under the current phase when it is named, and nothing otherwise |
| UserPlanService.SerializeDiaryMap | backend/backend/src/main/java/io/ltj/restructuring/application/plan/UserPlanApplicationService.java:121-135 | null exactly for an empty map |
| UserPlanService.DiaryRoundTrip | backend/backend/src/main/java/io/ltj/restructuring/application/plan/UserPlanApplicationService.java:101-135 | for a codec that reads back what it writes, writing a diary map and reading it gives the same map, the empty one included |
| UserPlanService.PutDiary | backend/backend/src/main/java/io/ltj/restructuring/application/plan/UserPlanApplicationService.java:46-51 | the requested phase's entry becomes the diary when the phase is named and the diary given; otherwise the map is unchanged |
| UserPlanService.ToDto | backend/backend/src/main/java/io/ltj/restructuring/application/plan/UserPlanApplicationService.java:62-79 | persona, phase and timestamps copied, needs split, diaries parsed, and the current phase's diary exactly when the map has that phase |
| UserPlanService.NewPlan | backend/backend/src/main/java/io/ltj/restructuring/application/plan/UserPlanApplicationService.java:42 | the user's new plan: phase "", no persona, needs, diary or timestamps |
| UserPlanService.Upserted | backend/backend/src/main/java/io/ltj/restructuring/application/plan/UserPlanApplicationService.java:44-56 | phase, persona and needs taken from the request even when null, the diary written back after the request's entry is put, the rest kept |
| UserPlanService.PlanRepository.constructor | backend/src/main/java/io/ltj/restructuring/domain/user/UserPlanEntity.java:7-41 | an empty table |
| UserPlanService.PlanRepository.FindByUserId | backend/backend/src/main/java/io/ltj/restructuring/application/plan/UserPlanApplicationService.java:35 | the user's plan exactly when one is stored |
| UserPlanService.PlanRepository.Save | backend/src/main/java/io/ltj/restructuring/domain/user/UserPlanEntity.java:21-65 | a null phase breaks the not-null column and stores nothing; a new plan gets both timestamps before save returns it; a stored plan is returned as it is, and the commit stamps a changed one with a new update time and leaves an unchanged one as it is |
| UserPlanService.GetPlanForUser | backend/backend/src/main/java/io/ltj/restructuring/application/plan/UserPlanApplicationService.java:33-36 | the stored plan as a response exactly when there is one |
| UserPlanService.UpsertPlanForUser | backend/backend/src/main/java/io/ltj/restructuring/application/plan/UserPlanApplicationService.java:38-60 | the stored or new plan, upserted and saved; only that user's row changes; a new plan's response carries the persist time in both timestamps, and an existing plan's response is the upserted entity with the timestamps it had before, because the update hook runs at commit |
| UserPlanService.UpsertPutsDiary | backend/backend/src/main/java/io/ltj/restructuring/application/plan/UserPlanApplicationService.java:44-56 | after an upsert naming a phase and a diary, that phase's diary is the new one and every other phase keeps its entry |
| UserPlanService.UpsertKeepsDiaries | backend/backend/src/main/java/io/ltj/restructuring/application/plan/UserPlanApplicationService.java:49 | an upsert without a named phase or without a diary leaves the diary map as it was read |
| UserPlanService.LegacyDiaryKept | backend/backend/src/main/java/io/ltj/restructuring/application/plan/UserPlanApplicationService.java:112-117 | a diary column holding plain text survives an upsert as the entry of the phase it was written under |
| UserPlanService.Trimmed | backend/backend/src/main/java/io/ltj/restructuring/application/plan/UserPlanApplicationService.java:96-97 | a part as split needs keep it: non-empty and equal to its own trim |
| UserPlanService.TrimmedPart | backend/backend/src/main/java/io/ltj/restructuring/application/plan/UserPlanApplicationService.java:96-97 | nothing exactly when the part is blank; otherwise the single trimmed part, which is Trimmed |
| UserPlanService.NamedPhase | backend/backend/src/main/java/io/ltj/restructuring/application/plan/UserPlanApplicationService.java:49 | the requested phase is present and not blank |
| UserPlanService.Codec | backend/backend/src/main/java/io/ltj/restructuring/application/plan/UserPlanApplicationService.java:107-127 | the assumption made of the JSON mapper: reading what it wrote gives the map back, and what it writes is not blank |
| StringOrder.LessIrreflexive | backend/src/main/java/io/ltj/restructuring/application/system/UserProfilePdfService.java:134 | no string is before itself under compareTo |
| StringOrder.LessAsymmetric | backend/src/main/java/io/ltj/restructuring/application/system/UserProfilePdfService.java:134 | two strings are never each before the other |
| StringOrder.LessTotal | backend/src/main/java/io/ltj/restructuring/application/system/UserProfilePdfService.java:134 | of two different strings one is before the other |
| StringOrder.LessTransitive | backend/src/main/java/io/ltj/restructuring/application/system/UserProfilePdfService.java:134 | the order is transitive |
| StringOrder.NotLessTransitive | backend/src/main/java/io/ltj/restructuring/application/system/UserProfilePdfService.java:157-159 | not-before is transitive too, so sorting by it is well defined |
| StringOrder.EmptyFirst | backend/src/main/java/io/ltj/restructuring/application/system/UserProfilePdfService.java:157-159 | the empty string is before every other string |
| StringOrder.Least | backend/src/main/java/io/ltj/restructuring/application/system/UserProfilePdfService.java:134 | a non-empty set's element that every other element follows |
| StringOrder.SortedKeys | backend/src/main/java/io/ltj/restructuring/application/system/UserProfilePdfService.java:134 | the keys of a set, each once, in ascending order |
| StringOrder.SortDescending | backend/src/main/java/io/ltj/restructuring/application/system/UserProfilePdfService.java:157-159 | a permutation of the input |
| StringOrder.SortDescendingSorted | backend/src/main/java/io/ltj/restructuring/application/system/UserProfilePdfService.java:157-159 | the sorted list runs from the greatest key to the least |
| StringOrder.SortDescendingStable | backend/src/main/java/io/ltj/restructuring/application/system/UserProfilePdfService.java:157-159 | elements sharing a key keep their relative order |
| StringOrder.EmptyKeysLast | backend/src/main/java/io/ltj/restructuring/application/system/UserProfilePdfService.java:158 | with a descending key, elements whose key is empty come after all others |
| ApiClient.Client.constructor | frontend/src/utils/api.ts:9 | the configuration starts empty: no token source, no unauthorized handler |
| ApiClient.Client.Configure | frontend/src/utils/api.ts:16-18 | the given configuration replaces the old one |
| ApiClient.Client.FetchJson | frontend/src/utils/api.ts:81-99 | the exchange is the one fetchJson makes under the configuration in force |
| ApiClient.BearerToken | frontend/src/utils/api.ts:131-135 | a token exactly when getToken is configured and returns a non-empty string, and then that string |
| ApiClient.BuildHeaders | frontend/src/utils/api.ts:125-139 | the caller's headers plus Content-Type, application/json unless the caller set it, plus Authorization "Bearer " and the token over any caller value unless auth is skipped or there is no token |
| ApiClient.SerializeBody | frontend/src/utils/api.ts:141-147 | undefined, null, strings and form data pass through as they are; any other value is sent as its JSON text |
| ApiClient.ParseResponse | frontend/src/utils/api.ts:149-163 | the JSON body when the content type mentions application/json, else the text; null when reading fails |
| ApiClient.ExtractErrorMessage | frontend/src/utils/api.ts:165-176 | the message field when the data is an object whose message is a string, else "Request failed with status " and the status |
| ApiClient.Fetch | frontend/src/utils/api.ts:81-123 | the request goes to base URL + path with the built headers and body; a network failure is the status-0 error "Klarte ikke å kontakte serveren"; a success returns the parsed data; a failure throws its message, status and data, and calls onUnauthorized exactly for 401 when configured |
| ApiClient.UnauthorizedOnlyFor401 | frontend/src/utils/api.ts:90-93 | onUnauthorized runs only on a 401 failure, and only when configured |
| ApiClient.SkipAuthIgnoresToken | frontend/src/utils/api.ts:131 | with skipAuth the headers do not depend on the configuration at all |
| ApiClient.GetErrorMessage | frontend/src/utils/api.ts:43-60 | no error gives the fallback or "Ukjent feil"; an ApiError or Error gives its non-empty message, then a non-empty fallback, then "Feil: " and the status or "Ukjent feil"; an object with a string message gives that message |
| ApiClient.FetchErrorMessage | frontend/src/utils/api.ts:95-175 | a thrown message is empty only when the server's object carried an empty message |
| ApiClient.ResponseOk | frontend/src/utils/api.ts:90 | response.ok: the status lies in 200 to 299 |
| ApiClient.ContentType | frontend/src/utils/api.ts:150-153 | the Content-Type header, or "" when the response has none |
| RestructuringApiClient.FetchJson | restructuring-frontend/src/utils/api.ts:81-152 | the request goes to base URL + path with the options' method |
| RestructuringApiClient.SameRequest | restructuring-frontend/src/utils/api.ts:82-110 | the inline copy sends the same URL, method, headers and body as the shared client |
| RestructuringApiClient.SameAsApiClient | restructuring-frontend/src/utils/api.ts:81-152 | the inline copy makes the same request, reaches the same outcome and calls onUnauthorized alike on every input |
| LocalStorage.Storage.constructor | frontend/src/utils/draftSync.ts:44 | the store holds the given items |
| LocalStorage.Storage.GetItem | frontend/src/utils/draftSync.ts:44 | the stored value exactly when the key is present, null otherwise |
| LocalStorage.Storage.SetItem | frontend/src/utils/draftSync.ts:55 | the key now maps to the value and nothing else changes |
| LocalStorage.Storage.RemoveItem | frontend/src/utils/draftSync.ts:64 | the key is gone and nothing else changes |
| LocalStorage.Falsy | frontend/src/utils/draftSync.ts:115 | !localStorage.getItem(key): the key is missing or holds the empty string |
| DraftSync.Endpoint.constructor | frontend/src/utils/draftSync.ts:130-151 | nothing received yet |
| DraftSync.Endpoint.Send | frontend/src/utils/draftSync.ts:130-151 | the body is appended to what the server received, and the answer is the server's verdict on that request |
| DraftSync.ReadJson | frontend/src/utils/draftSync.ts:41-50 | nothing for a missing or empty item, otherwise what JSON.parse gives, nothing when it throws |
| Json.Lookup | frontend/src/utils/draftSync.ts:136 | undefined exactly when no field has the key; otherwise the value of the last field with it, as JSON.parse keeps the last of repeated keys |
| Json.Truthy | frontend/src/utils/draftSync.ts:118 | JavaScript truthiness of a parsed value: null, false, 0 and "" are falsy, every other value is truthy |
| Json.Get | frontend/src/utils/draftSync.ts:124-126 | property access value[key]: the value of the key in an object, undefined for a missing key or a value that is not an object |
| DraftSync.Diaries | frontend/src/utils/draftSync.ts:78-80 | the stored diaries, or {} when none can be read |
| DraftSync.PropertyOr | frontend/src/utils/draftSync.ts:124-125 | the draft's property, or the fallback when it is missing or null |
| DraftSync.Needs | frontend/src/utils/draftSync.ts:126 | always an array: the draft's needs when they are one, else [] |
| DraftSync.DiaryRequests | frontend/src/utils/draftSync.ts:141-152 | at most one request per diary entry |
| DraftSync.DiaryRequestsShape | frontend/src/utils/draftSync.ts:141-152 | every diary request carries the draft's persona and needs and a truthy diary |
| DraftSync.DiaryRequestsAppend | frontend/src/utils/draftSync.ts:141 | the requests for two runs of entries are the two runs' requests in order |
| DraftSync.PlanRequests | frontend/src/utils/draftSync.ts:130-152 | the main plan with the current phase's diary comes first, then the diary requests |
| DraftSync.Sent | frontend/src/utils/draftSync.ts:128-159 | what reaches the server is at most the requests |
| DraftSync.SentPrefix | frontend/src/utils/draftSync.ts:128-159 | what is sent is a prefix of the requests, and all of them unless one was rejected |
| DraftSync.SentCons | frontend/src/utils/draftSync.ts:128-159 | the first request is sent, the rest only after it is accepted |
| DraftSync.SentAll | frontend/src/utils/draftSync.ts:128-159 | when every request is accepted, all are sent |
| DraftSync.SentUntilRejected | frontend/src/utils/draftSync.ts:157-159 | the first rejected request is the last one sent |
| DraftSync.DiaryStep | frontend/src/utils/draftSync.ts:141-152 | one more entry adds its request exactly when its diary is truthy |
| DraftSync.DiaryRejectedAt | frontend/src/utils/draftSync.ts:141-159 | a rejection at a diary entry ends the sending there, and the run is not fully accepted |
| DraftSync.SendDiaries | frontend/src/utils/draftSync.ts:141-152 | the server receives the diary requests up to and including the first rejected one; the result says whether all were accepted |
| DraftSync.SendPlan | frontend/src/utils/draftSync.ts:128-159 | the main request and then the diary requests, stopping at the first rejection |
| DraftSync.FirstRejected | frontend/src/utils/draftSync.ts:128-159 | a rejected main request is the only one sent, and the sync is not complete |
| DraftSync.FirstAccepted | frontend/src/utils/draftSync.ts:128-159 | after an accepted main request, what is sent is the main request followed by the diary run |
| DraftSync.AcceptedCons | frontend/src/utils/draftSync.ts:128-159 | every request is accepted exactly when the main one is and every diary request after it is |
| DraftSync.SyncPlanDraft | frontend/src/utils/draftSync.ts:114-160 | nothing without the flag; only the flag is cleared without a draft; else the requests go out in turn, and the three plan keys are removed only when every one was accepted |
| DraftSync.RemoveThree | frontend/src/utils/draftSync.ts:154-156 | removing the three plan keys one after another removes exactly those three |
| DraftSync.FailedPlanSyncReplays | frontend/src/utils/draftSync.ts:157-159 | a sync that did not get through leaves the store as it was, so the next sync sends the whole draft again |
| DraftSync.CompletedPlanSyncIsFinal | frontend/src/utils/draftSync.ts:154-156 | after a sync that got through, the next sync sends nothing |
| DraftSync.InsuranceSyncRequests | frontend/src/utils/draftSync.ts:162-182 | at most one request |
| DraftSync.SyncInsuranceDraft | frontend/src/utils/draftSync.ts:162-182 | the same pattern with one request, clearing the flag and the draft only when it was accepted |
| DraftSync.SyncAnonymousDrafts | frontend/src/utils/draftSync.ts:108-112 | nothing without storage; otherwise both syncs run, each on what the store held before, since they touch different keys |
| DraftSync.PlanSyncKeepsInsuranceDraft | frontend/src/utils/draftSync.ts:111 | the plan sync does not change what the insurance sync sends |
| DraftSync.MarkPendingSync | frontend/src/utils/draftSync.ts:94-102 | the flag is set to "1" when there is storage |
| DraftSync.MarkedPlanSyncs | frontend/src/utils/draftSync.ts:94-152 | once marked, a stored truthy draft is sent in full by the next sync |
| DraftSync.WriteJson | frontend/src/utils/draftSync.ts:52-59 | the value's JSON text is stored under the key when there is storage |
| DraftSync.WrittenDraftRead | frontend/src/utils/draftSync.ts:41-59 | a written draft is read back as it was, for a parse that inverts stringify |
| DraftSync.Persona | frontend/src/utils/draftSync.ts:124 | draft.persona ?? 'Annet': the draft's persona, or "Annet" when it is missing or null |
| DraftSync.Phase | frontend/src/utils/draftSync.ts:125 | draft.phase ?? DEFAULT_PHASE: the draft's phase, or the default phase when it is missing or null |
| DraftSync.DiaryEntries | frontend/src/utils/draftSync.ts:141 | Object.entries of the diaries: the fields of an object of diaries in their order, nothing for any other value |
| DraftSync.MainDiary | frontend/src/utils/draftSync.ts:136 | diaries[phase]: the diary stored under the phase, for an object of diaries and a string phase; nothing otherwise |
| DraftSync.PlanSyncRequests | frontend/src/utils/draftSync.ts:114-152 | the requests syncPlanDraft wants to make: none without the pending flag or without a truthy draft, otherwise the main plan request followed by the diary requests |
| DraftSync.AllAccepted | frontend/src/utils/draftSync.ts:128-159 | every request from the start-th on, for count requests, is accepted by the server: the condition under which the try block reaches its removeKey calls |
| DraftSync.PlanSyncItems | frontend/src/utils/draftSync.ts:114-160 | the store after syncPlanDraft: unchanged without the flag; only the flag removed without a truthy draft; the flag, the draft and the diaries removed when every request was accepted; unchanged when one was rejected |
| DraftSync.InsuranceSyncItems | frontend/src/utils/draftSync.ts:162-182 | the store after syncInsuranceDraft: unchanged without the flag; only the flag removed without a truthy draft; the flag and the draft removed when the request was accepted; unchanged otherwise |
| FrontendConfig.ReadEnv | frontend/src/utils/config.ts:26-35 | nothing exactly for a missing, non-string or blank value; otherwise the trimmed, non-empty value |
| FrontendConfig.ReadEnvTrimmed | frontend/src/utils/config.ts:33-34 | a value read back is already trimmed |
| FrontendConfig.BooleanWord | frontend/src/utils/config.ts:46-47 | true exactly for 1, true, yes, on; false exactly for 0, false, no, off |
| FrontendConfig.ReadBoolEnv | frontend/src/utils/config.ts:41-50 | the fallback when nothing is read; otherwise the word's meaning after lower-casing, or the fallback for any other word |
| FrontendConfig.ReadBoolEnvIgnoresCase | frontend/src/utils/config.ts:41-50 | two values equal after trimming and lower-casing read alike |
| FrontendConfig.AppEnv | frontend/src/utils/config.ts:59 | VITE_APP_ENV when set, else "development" |
| FrontendConfig.AppName | frontend/src/utils/config.ts:64 | VITE_APP_NAME when set, else "Restructuring Frontend" |
| FrontendConfig.ResolveApiBaseUrl | frontend/src/utils/config.ts:74-85 | an explicit VITE_API_BASE_URL first; else the local URL in development or test, the remote one otherwise |
| FrontendConfig.EmptyEnvDefaults | frontend/src/utils/config.ts:59-99 | with nothing set the app is in development, uses http://localhost:8080/api and has debug logging on |
| FrontendConfig.DebugLogger | frontend/src/utils/config.ts:96-99 | an explicit flag word decides; without one, logging is on everywhere but production |
| RestructuringConfig.ReadEnv | restructuring-frontend/src/utils/config.ts:24-27 | a value read is present, a string, non-empty and trimmed |
| RestructuringConfig.ReadEnvAgrees | restructuring-frontend/src/utils/config.ts:24-27 | both frontends' readEnv read the same value for every variable |
| RestructuringConfig.ParseBoolean | restructuring-frontend/src/utils/config.ts:32-40 | nothing for an absent or empty value; otherwise the meaning of the trimmed, lower-cased word, or nothing |
| RestructuringConfig.ParseBooleanMatchesReadBoolEnv | restructuring-frontend/src/utils/config.ts:32-40 | parsing what was read and supplying the fallback equals the other frontend's readBoolEnv |
| RestructuringConfig.GetApiBaseUrl | restructuring-frontend/src/utils/config.ts:48-55 | an explicit URL first, else the local URL in a DEV build and https://restructuring-compound-ws.onrender.com/api otherwise |
| RestructuringConfig.AppEnv | restructuring-frontend/src/utils/config.ts:62 | VITE_APP_ENV when set, else Vite's MODE when defined, else "development" |
| RestructuringConfig.AppName | restructuring-frontend/src/utils/config.ts:64 | VITE_APP_NAME when set, else "Restructuring Frontend" |
| RestructuringConfig.DebugLogger | restructuring-frontend/src/utils/config.ts:73-78 | an explicit flag decides, else DEV |
| RestructuringConfig.DebugLoggersAgreeOnExplicitFlag | restructuring-frontend/src/utils/config.ts:73-78 | both frontends decide an explicit flag alike |
| RestructuringConfig.ExplicitBaseUrlAgrees | restructuring-frontend/src/utils/config.ts:48-50 | an explicit base URL is used as it is by both frontends |
| UseAuth.Normalized | restructuring-frontend/src/hooks/useAuth.tsx:64 | same length, each '-' turned into '+' and each '_' into '/', every other character kept |
| UseAuth.PaddingNeeded | restructuring-frontend/src/hooks/useAuth.tsx:65 | below four, and completing the length to a multiple of four |
| UseAuth.PaddingNeededUnique | restructuring-frontend/src/hooks/useAuth.tsx:65 | it is the only count below four that does so |
| UseAuth.Pad | restructuring-frontend/src/hooks/useAuth.tsx:66 | exactly that many '=' characters |
| UseAuth.BinaryString | restructuring-frontend/src/hooks/useAuth.tsx:69 | one character per decoded byte, with the byte's code |
| UseAuth.WithoutWhitespace | restructuring-frontend/src/hooks/useAuth.tsx:69 | never longer than the text |
| UseAuth.Atob | restructuring-frontend/src/hooks/useAuth.tsx:69 | a result exactly when the text without its ASCII whitespace is valid base64, and then one character per decoded byte |
| UseAuth.AtobIgnoresWhitespace | restructuring-frontend/src/hooks/useAuth.tsx:69 | inserting a run of ASCII whitespace anywhere does not change what atob gives |
| UseAuth.WhitespaceRunRemoved | restructuring-frontend/src/hooks/useAuth.tsx:69 | removing whitespace deletes an inserted run of whitespace and nothing around it |
| UseAuth.WithoutWhitespaceAppend | restructuring-frontend/src/hooks/useAuth.tsx:69 | removing whitespace distributes over concatenation |
| UseAuth.AllWhitespaceRemoved | restructuring-frontend/src/hooks/useAuth.tsx:69 | a text of whitespace only becomes empty |
| UseAuth.NoWhitespaceKept | restructuring-frontend/src/hooks/useAuth.tsx:69 | a text without whitespace is kept as it is |
| UseAuth.EncodingHasNoWhitespace | restructuring-frontend/src/hooks/useAuth.tsx:69 | a standard base64 encoding holds no whitespace |
| UseAuth.DecodeBase64Url | restructuring-frontend/src/hooks/useAuth.tsx:63-70 | atob applied to the normalised text padded to a multiple of four |
| UseAuth.NormalizedSegment | restructuring-frontend/src/hooks/useAuth.tsx:64 | a base64url segment normalises to the standard characters of its bytes |
| UseAuth.PaddedSegment | restructuring-frontend/src/hooks/useAuth.tsx:64-66 | normalised and padded, an unpadded base64url segment is the standard padded encoding of its bytes |
| UseAuth.DecodeSegment | restructuring-frontend/src/hooks/useAuth.tsx:63-70 | every unpadded base64url segment decodes to the bytes it encodes |
| UseAuth.ParseJwt | restructuring-frontend/src/hooks/useAuth.tsx:79-89 | nothing with fewer than two '.'-separated parts or when the second does not decode; otherwise JSON.parse of the decoded payload |
| UseAuth.ExtractExpiration | restructuring-frontend/src/hooks/useAuth.tsx:91-97 | a value exactly when the payload's exp is a non-zero number, and then exp times 1000 |
| UseAuth.ExpirationOfToken | restructuring-frontend/src/hooks/useAuth.tsx:79-97 | a header.payload.signature token whose payload encodes an object with a non-zero exp expires at exp seconds, in milliseconds |
| UseAuth.SplitTwo | restructuring-frontend/src/hooks/useAuth.tsx:81-84 | the second part of a.b.c is b when a and b hold no '.' |
| UseAuth.StoredTokenOf | restructuring-frontend/src/hooks/useAuth.tsx:99-114 | a token exactly when a non-empty one is stored and has not expired, with its expiry, which is then unknown or after now |
| UseAuth.ItemsAfterLoad | restructuring-frontend/src/hooks/useAuth.tsx:105-107 | an expired token is removed and nothing else changes |
| UseAuth.LoadStoredToken | restructuring-frontend/src/hooks/useAuth.tsx:99-114 | storage that throws gives null; otherwise the stored token as StoredTokenOf says and the store as ItemsAfterLoad says |
| UseAuth.LoadIdempotent | restructuring-frontend/src/hooks/useAuth.tsx:99-114 | loading again at the same moment finds the same token and changes nothing more |
| UseAuth.TokenWithoutExpiryKept | restructuring-frontend/src/hooks/useAuth.tsx:104-110 | a token without an exp claim is kept with no expiry, however late it is |
| UseAuth.AuthSession.constructor | restructuring-frontend/src/hooks/useAuth.tsx:121-127 | token and expiry from the stored token, no user, and loading exactly when a non-empty token was stored |
| UseAuth.AuthSession.UserId | restructuring-frontend/src/hooks/useAuth.tsx:298 | the user's id exactly when there is a user |
| UseAuth.AuthSession.ClearAuth | restructuring-frontend/src/hooks/useAuth.tsx:129-140 | token, expiry and user are cleared, and token, myPlan and personaLabel are removed from storage |
| UseAuth.AuthSession.PersistAuth | restructuring-frontend/src/hooks/useAuth.tsx:152-160 | the new token and its expiry are held and the token is stored; the user is untouched |
| UseAuth.AuthSession.HandleUnauthorized | restructuring-frontend/src/hooks/useAuth.tsx:142-150 | the session is cleared, and the user is sent to /login with the path and query to come back to, unless already on /login |
| UseAuth.PersistThenLoad | restructuring-frontend/src/hooks/useAuth.tsx:99-160 | a token just stored is found again on reload with its expiry, unless it has expired by then |
| UseAuth.ClearThenLoad | restructuring-frontend/src/hooks/useAuth.tsx:99-140 | after clearAuth no token survives a reload |
| UseAuth.LoginRedirect | restructuring-frontend/src/hooks/useAuth.tsx:267-270 | the caller's redirectTo, else where the user came from unless that was /login, else /insurance |
| UseAuth.LoginNeverBackToLogin | restructuring-frontend/src/hooks/useAuth.tsx:267-270 | without an explicit target login never sends the user to /login |
| UseAuth.LogoutRedirect | restructuring-frontend/src/hooks/useAuth.tsx:287 | the caller's redirectTo, else /login |
| UseAuth.IsAsciiWhitespace | restructuring-frontend/src/hooks/useAuth.tsx:69 | the characters atob skips: tab, line feed, form feed, carriage return and space |
| UseAuth.NoWhitespace | restructuring-frontend/src/hooks/useAuth.tsx:69 | a text holding none of the characters atob skips |
| UseAuth.Segment | restructuring-frontend/src/hooks/useAuth.tsx:84 | the JWT payload segment a producer writes: the bytes in base64url without padding |
| UseAuth.Expired | restructuring-frontend/src/hooks/useAuth.tsx:104-105 | expiresAt && expiresAt <= Date.now(): the token's expiry is known and not after now |
| UseAuth.AuthSession.IsAuthenticated | restructuring-frontend/src/hooks/useAuth.tsx:299 | isAuthenticated: Boolean(token), a non-empty token whether or not the user has loaded |
| UseInsurance.TakeWhile | frontend/src/hooks/useInsurance.ts:9 | the longest prefix whose characters all pass the test: every taken character passes and the next one does not |
| UseInsurance.MatchHere | frontend/src/hooks/useInsurance.ts:9 | a match at the start of the text begins with one of the two literals (letters in any case) and captures a non-empty name |
| UseInsurance.FirstSomeNone | frontend/src/hooks/useInsurance.ts:9 | String.match finds nothing exactly when no position matches |
| UseInsurance.FirstSomeAt | frontend/src/hooks/useInsurance.ts:9 | String.match takes the leftmost position that matches |
| UseInsurance.ExtractFilename | frontend/src/hooks/useInsurance.ts:7-24 | the default name insurance_request.xml when nothing matches, and the quoted capture for filename=; the filename*=UTF-8'' case is stated by UseInsurance.EncodedFilename and UseInsurance.EncodedFilenameRoundTrip |
| UseInsurance.DefaultWithoutFilename | frontend/src/hooks/useInsurance.ts:8-12 | without a Content-Disposition header, or with one no position of which matches, the file gets the default name |
| UseInsurance.NoMatchBefore | frontend/src/hooks/useInsurance.ts:9 | no match starts inside a prefix holding no letter f |
| UseInsurance.PlainFilename | frontend/src/hooks/useInsurance.ts:9-23 | filename="x" and filename=x give x, which ends at the first quote or semicolon |
| UseInsurance.PlainMatch | frontend/src/hooks/useInsurance.ts:9 | the plain alternative matched at the start captures the name up to its first quote or semicolon |
| UseInsurance.EncodedFilenameRoundTrip | frontend/src/hooks/useInsurance.ts:9-21 | a name written with encodeURIComponent after filename*=UTF-8'' is given back exactly |
| UseInsurance.EncodedOnOneLine | frontend/src/hooks/useInsurance.ts:9 | escaped text holds no line terminator, so the encoded alternative takes all of it |
| UseInsurance.EncodedFilename | frontend/src/hooks/useInsurance.ts:9-21 | filename*=UTF-8''x gives decodeURIComponent(x), or x where decoding throws |
| UseInsurance.TakeWhilePrefix | frontend/src/hooks/useInsurance.ts:9 | a run of passing characters followed by a failing one is taken exactly |
| UseInsurance.AttachmentFilename | frontend/src/hooks/__tests__/useInsurance.test.tsx:83 | the header the download test sends names the file insurance.xml |
| UseInsurance.EnsureAuthenticated | frontend/src/hooks/useInsurance.ts:82-86 | an ApiError with status 401 and the log-in message unless authenticated with a non-empty token |
| UseInsurance.JsonMessage | frontend/src/hooks/useInsurance.ts:91-98 | the message field of a parsed object body, only when it is a string |
| UseInsurance.ExtractErrorMessageAsWritten | frontend/src/hooks/useInsurance.ts:88-111 | the JSON message when there is one, otherwise the status message, since the body text can no longer be read once json() consumed it |
| UseInsurance.ExtractErrorMessage | frontend/src/hooks/useInsurance.ts:88-111 | the JSON message, else the non-empty body text, else the status message |
| UseInsurance.TextBodyLost | frontend/src/hooks/useInsurance.ts:88-111 | a non-empty plain-text error body never reaches the user as written, and does when the body is read once |
| UseInsurance.ErrorMessagesAgree | frontend/src/hooks/useInsurance.ts:88-111 | the two readings agree whenever the body holds a JSON message or is empty |
| UseInsurance.Send | frontend/src/hooks/useInsurance.ts:41-73 | the guard's error before anything else with the error state untouched; success exactly for a 2xx response, resolving with the file name and the fixed message and clearing the error state; a non-ok response or a network failure throws and leaves the thrown error's message as the error state |
| UseInsurance.SendInsurance | frontend/src/hooks/useInsurance.ts:41-73 | success exactly for a 2xx response; a non-ok response throws an ApiError with its status and the message extractErrorMessage gives as written |
| UseInsurance.SendInsuranceCorrected | frontend/src/hooks/useInsurance.ts:41-73 | the same, with the message extractErrorMessage evidently means, which includes a plain-text body |
| UseInsurance.FailedRequestThrows | frontend/src/hooks/useInsurance.ts:54-69 | a non-ok response throws an ApiError with its status and the JSON message of its body, or else the status message, and a message that is not empty becomes the error state |
| UseInsurance.PlainTextFailure | frontend/src/hooks/useInsurance.ts:54-69 | a non-ok response with a plain-text body leaves the status message as the error state as written, and the body itself once the body is read only once |
| UseInsurance.SendReadingsAgree | frontend/src/hooks/useInsurance.ts:41-111 | the two readings end every request alike when no response has a plain-text body |
| UseInsurance.IsLineTerminator | frontend/src/hooks/useInsurance.ts:9 | the characters the '.' of (.+) does not match: line feed, carriage return, line and paragraph separator |
| UseInsurance.StartsWithLiteral | frontend/src/hooks/useInsurance.ts:9 | the text starts with the literal, letters compared without regard to case, as the /i flag does |
| UseInsurance.MatchAt | frontend/src/hooks/useInsurance.ts:9 | the pattern tried at position i of the header: the match at the start of the text from i on |
| UseInsurance.FirstSome | frontend/src/hooks/useInsurance.ts:9 | the first position from i below n where the pattern matches, and its match |
| UseInsurance.FirstMatch | frontend/src/hooks/useInsurance.ts:9 | String.prototype.match: the match at the leftmost position of the header where the pattern matches, nothing when it matches nowhere |
| UseInsurance.StatusMessage | frontend/src/hooks/useInsurance.ts:110 | the fallback text "Request failed with status " followed by the status in decimal |
| UseInsurance.StatusMessageNotEmpty | frontend/src/hooks/useInsurance.ts:110 | the fallback text is never empty |
| UseLoginForm.RedirectTo | frontend/src/hooks/useLoginForm.tsx:13-33 | the page the login came from when it is non-empty, else /plan |
| UseLoginForm.LoginFeedback | frontend/src/hooks/useLoginForm.tsx:35-81 | rejected credentials for 401; unknown user with a link to /register for 404; for a status of 500 or more, rejected credentials when the message names invalid credentials in any letter case, else a generic failure with a link to /register; the error's own message, with 'Innlogging feilet.' as fallback, for anything else |
| UseLoginForm.RegisterLinkCases | frontend/src/hooks/useLoginForm.tsx:44-74 | an ApiError gets a link to /register exactly for 404 and for server errors that are not about the credentials |
| UseLoginForm.ServerErrorAboutCredentials | frontend/src/hooks/useLoginForm.tsx:56-63 | a server error whose message contains 'Invalid Email or Password' reads as rejected credentials |
| UseLoginForm.LowerCredentialsPhrase | frontend/src/hooks/useLoginForm.tsx:57 | lower-casing the capitalised phrase gives the phrase the handler looks for |
| UseLoginForm.FeedbackAfterSubmit | frontend/src/hooks/useLoginForm.tsx:30-82 | no feedback after a successful login; the failure's feedback otherwise |
| UseLoginForm.ShownBySubmit | frontend/src/hooks/useLoginForm.tsx:27-82 | a submit first clears the feedback, and the last value it sets is the feedback of its own outcome, whatever was shown before |
| UseLoginForm.LoginFormHook.constructor | frontend/src/hooks/useLoginForm.tsx:12-17 | no feedback yet, and the redirect target taken from the page the user came from |
| UseLoginForm.LoginFormHook.SetFeedback | frontend/src/hooks/useLoginForm.tsx:17 | the feedback is the value given, recorded after the earlier ones |
| UseLoginForm.LoginFormHook.Submit | frontend/src/hooks/useLoginForm.tsx:25-85 | values the login schema refuses call nothing and change nothing; otherwise login is called with the entered credentials and the redirect target or /plan, the feedback is cleared and then set from the outcome alone |
| UseUserProfile.Trimmed | frontend/src/hooks/useUserProfile.ts:57-61 | each of the three fields trimmed, the others untouched |
| UseUserProfile.IncompleteError | frontend/src/hooks/useUserProfile.ts:63-65 | an ApiError 400 with the fill-in message exactly when some field is empty once trimmed |
| UseUserProfile.TrimmedPayloadComplete | frontend/src/hooks/useUserProfile.ts:57-89 | a form that passes the guard becomes a trimmed profile that needs no more information, and trimming again changes nothing |
| UseUserProfile.ResponseField | frontend/src/hooks/useUserProfile.ts:40-42 | the field's string, or '' where it is null or missing |
| UseUserProfile.LoadAfterSave | frontend/src/hooks/useUserProfile.ts:39-61 | a response holding the saved strings loads back as the saved profile |
| UseUserProfile.NullResponseNeedsInfo | frontend/src/hooks/useUserProfile.ts:39-89 | a response of nulls loads as an empty profile, which needs information |
| UseUserProfile.SaveError | frontend/src/hooks/useUserProfile.ts:77 | an error state exactly when something was thrown, holding an ApiError's non-empty message |
| UseUserProfile.ProfileHook.constructor | frontend/src/hooks/useUserProfile.ts:20-27 | an empty profile, loading, not saving, no error, and nothing sent yet |
| UseUserProfile.ProfileHook.SaveProfile | frontend/src/hooks/useUserProfile.ts:55-84 | an incomplete form throws the 400 error and changes nothing; otherwise the trimmed payload is sent and, when the request succeeds, becomes the profile and refreshUser runs; what either throws is rethrown and stored as the error; saving ends false |
| UseUserProfile.ProfileHook.Send | frontend/src/hooks/useUserProfile.ts:67-81 | the request step of a save with its outcome on profile, refreshes, thrown value and error |
| UseUserProfile.ProfileHook.LoadProfile | frontend/src/hooks/useUserProfile.ts:29-49 | a visitor only settles the flags; a signed-in user's profile is requested and taken from the response fields, or the error message is stored; loading ends false |
| UseUserProfile.SavedProfileComplete | frontend/src/hooks/useUserProfile.ts:55-89 | after a save that went through, needsInfo is false |
| UseUserProfile.NeedsInfo | frontend/src/hooks/useUserProfile.ts:86-89 | needsInfo: first name, last name or ssn is empty once trimmed |
| UseUserProfile.ProfileOf | frontend/src/hooks/useUserProfile.ts:38-43 | the profile set from the /user/me response: each of the three fields as a string, '' where it is null or missing |
| UseUserProfile.ProfileHook.ProfileNeedsInfo | frontend/src/hooks/useUserProfile.ts:86-89 | needsInfo over the hook's current profile |
| AuthSchemas.Check | frontend/src/utils/validation/authSchemas.ts:8-10 | no issue exactly when the check holds, else its one issue on its field |
| AuthSchemas.RegisterIssues | frontend/src/utils/validation/authSchemas.ts:6-15 | accepted exactly when the address is valid, both passwords have at least six characters and they are equal; a mismatch is the last issue, on repeatPassword; issues only on the three fields |
| AuthSchemas.LoginIssues | frontend/src/utils/validation/authSchemas.ts:22-25 | accepted exactly when the address is valid and the password has at least six characters; at most two issues, on email and password |
| AuthSchemas.ForgotPasswordIssues | frontend/src/utils/validation/authSchemas.ts:32-34 | accepted exactly when the address is valid |
| AuthSchemas.ResetPasswordIssues | frontend/src/utils/validation/authSchemas.ts:41-50 | accepted exactly for a non-empty token and two equal passwords of at least six characters; a missing token is the first issue and a mismatch the last, on confirm |
| AuthSchemas.RegisteredCredentialsLogIn | frontend/src/utils/validation/authSchemas.ts:6-34 | credentials accepted at registration are accepted at login, and their address by the forgot-password form |
| AuthSchemas.RegisterAndResetAgreeOnPasswords | frontend/src/utils/validation/authSchemas.ts:6-50 | registration and reset accept the same password pairs |
| AuthSchemas.ShortEqualPasswords | frontend/src/utils/validation/authSchemas.ts:9-15 | two equal short passwords give one length issue each and no mismatch |
| AuthSchemas.EmailIssues | frontend/src/utils/validation/authSchemas.ts:8 | no issue exactly when the address passes zod's e-mail check; otherwise the one issue "Ugyldig e-postadresse" on email |
| AuthSchemas.PasswordIssues | frontend/src/utils/validation/authSchemas.ts:9 | no issue exactly when the password has at least 6 characters; otherwise the one issue "Passord må være minst 6 tegn" on that field |
| InsuranceSchemas.AfterPlus | frontend/src/utils/validation/insuranceSchemas.ts:13 | the text after an optional leading '+' |
| InsuranceSchemas.PhoneAsWrittenRejectsNumbers | frontend/src/utils/validation/insuranceSchemas.ts:13 | the pattern as written refuses every optional '+' followed by 8 to 15 digits |
| InsuranceSchemas.PhoneAsWrittenAcceptsLetters | frontend/src/utils/validation/insuranceSchemas.ts:13 | the pattern as written accepts a backslash and eight letters d and refuses 12345678 |
| InsuranceSchemas.PhoneMatchesExactly | frontend/src/utils/validation/insuranceSchemas.ts:13 | the intended pattern accepts 8 to 15 digits with or without a leading '+' |
| InsuranceSchemas.PhoneRejectsOtherCharacters | frontend/src/utils/validation/insuranceSchemas.ts:13 | the intended pattern refuses a non-digit anywhere after the first character |
| InsuranceSchemas.BasicIssues | frontend/src/utils/validation/insuranceSchemas.ts:7-9 | no issue exactly for non-empty names and an eleven-digit number; at most three |
| InsuranceSchemas.InsuranceProfileIssuesAsWritten | frontend/src/utils/validation/insuranceSchemas.ts:6-14 | accepted exactly for non-empty names, an eleven-digit number and a phone matching the pattern as written |
| InsuranceSchemas.AsWrittenRefusesRealNumbers | frontend/src/utils/validation/insuranceSchemas.ts:13 | no form with a real phone number passes the schema as written; it always carries the phone format issue |
| InsuranceSchemas.InsuranceProfileIssues | frontend/src/utils/validation/insuranceSchemas.ts:6-14 | accepted exactly for non-empty names, an eleven-digit number and a phone of 8 to 15 digits after an optional '+'; an empty phone gets both phone issues |
| InsuranceSchemas.SchemasDifferOnlyInPhoneFormat | frontend/src/utils/validation/insuranceSchemas.ts:6-14 | the two readings agree on every form whose phone both patterns judge alike |
| InsuranceSchemas.BasicProfileIssues | restructuring-frontend/src/utils/validation/insuranceSchemas.ts:6-10 | accepted exactly for non-empty names and an eleven-digit number; issues only on those three fields |
| InsuranceSchemas.BasicSchemaIsPrefix | restructuring-frontend/src/utils/validation/insuranceSchemas.ts:6-10 | the four-field schema reports the three-field schema's issues and then the phone's |
| InsuranceSchemas.IsSsn | frontend/src/utils/validation/insuranceSchemas.ts:9 | /^\d{11}$/: exactly eleven ASCII digits with nothing before or after |
| InsuranceSchemas.PhoneMatchesAsWritten | frontend/src/utils/validation/insuranceSchemas.ts:13 | the phone pattern as the literal is written: the doubled backslash is a literal backslash, so after an optional '+' it wants a backslash and then 8 to 15 letters d |
| InsuranceSchemas.PhoneMatches | frontend/src/utils/validation/insuranceSchemas.ts:13 | the phone pattern as its message describes it: an optional '+' and then 8 to 15 digits |
| InsuranceSchemas.PhoneIssues | frontend/src/utils/validation/insuranceSchemas.ts:10-13 | no issue exactly when the phone is non-empty and matches the pattern; at most two issues, both on phone, the required issue first for an empty phone |
| MainLayout.FindIndex | frontend/src/layouts/MainLayout.tsx:28 | the position of the first link with the path, or the length when there is none |
| MainLayout.Find | frontend/src/layouts/MainLayout.tsx:28-45 | nothing exactly when no link has the path, else the first link that has it |
| MainLayout.PresentPaths | frontend/src/layouts/MainLayout.tsx:27-36 | the wanted paths some link has, and every one of them |
| MainLayout.Pick | frontend/src/layouts/MainLayout.tsx:27-42 | for each wanted path some link has, in the wanted order, the first link with that path |
| MainLayout.Filter | frontend/src/layouts/MainLayout.tsx:48 | the links whose path is wanted, every one of them, each one a configured link |
| MainLayout.PickHasNoDuplicatePaths | frontend/src/layouts/MainLayout.tsx:27-42 | a section never repeats a path, even when the configuration does |
| MainLayout.PresentPathsDistinct | frontend/src/layouts/MainLayout.tsx:27-42 | distinct wanted paths stay distinct |
| MainLayout.NavSections | frontend/src/layouts/MainLayout.tsx:25-64 | HOVEDMENY and SYSTEM first with their picked links; then PROFIL with the /me link for a signed-in user who has one, nothing more for one who has none, and AUTENTISERING with the login and register links for a visitor |
| MainLayout.NameSource | frontend/src/layouts/MainLayout.tsx:81-85 | the first non-empty of fullName, name, displayName and email, nothing when all are empty |
| MainLayout.DisplayName | frontend/src/layouts/MainLayout.tsx:80-81 | that name, or 'Ikke pålogget' without a user or a name; never empty |
| MainLayout.NonBlank | frontend/src/layouts/MainLayout.tsx:88 | the parts that are not blank once trimmed, all of them and only them |
| MainLayout.Letters | frontend/src/layouts/MainLayout.tsx:89-90 | the upper-cased first letters of the first two trimmed words |
| MainLayout.Initials | frontend/src/layouts/MainLayout.tsx:83-92 | '--' without a user or without a word; otherwise one or two letters from the words before the first '@' |
| MainLayout.InitialsIgnoreDomain | frontend/src/layouts/MainLayout.tsx:86 | the domain of an e-mail address plays no part in the initials |
| MainLayout.BeforeFirstAt | frontend/src/layouts/MainLayout.tsx:86 | splitting at '@' keeps what precedes the first '@' |
| MainLayout.InitialsFromDisplayedName | frontend/src/layouts/MainLayout.tsx:80-92 | the initials come from the name the badge shows |
| MainLayout.Truthy | frontend/src/layouts/MainLayout.tsx:81 | the truthiness the or-chain tests on a name field: present and not the empty string |
| MainLayout.NonBlankAppend | frontend/src/layouts/MainLayout.tsx:88 | filter keeps order: the non-blank parts of two runs are those of the first run followed by those of the second |
| MainLayout.NonBlankKeepsAll | frontend/src/layouts/MainLayout.tsx:88 | a run of parts none of which is blank passes the filter whole and in order |
| MainLayout.Words | frontend/src/layouts/MainLayout.tsx:86-88 | the words initials are taken from: the space-separated parts of what precedes the first '@', without the blank ones, in order |
| MainLayout.FirstLetter | frontend/src/layouts/MainLayout.tsx:90 | p.trim().charAt(0).toUpperCase(): the first character of the trimmed word, upper-cased |
| RouteGuards.ContextValue | frontend/src/hooks/useAuth.tsx:208-224 | authenticated exactly for a non-empty token, admin exactly when the user holds ROLE_ADMIN, userId the user's id when there is a user, and the other fields passed through |
| RouteGuards.BoolProperty | frontend/src/hooks/useAuth.tsx:33-47 | a value only for the four boolean fields the context has; isLoadingUser reads the loading flag |
| RouteGuards.SafeRedirect | frontend/src/app/AdminLayout.tsx:24-25 | the location when it starts with '/', else '/'; always a path on this site |
| RouteGuards.LoginRedirect | frontend/src/app/AdminLayout.tsx:24-27 | the login address /login?redirect= followed by the encoded location |
| RouteGuards.LoginRedirectIsOneParameter | frontend/src/app/AdminLayout.tsx:26-27 | the encoded location holds no '&', '#' or '?', so it travels as one query value |
| RouteGuards.LocalLocationKept | frontend/src/app/AdminLayout.tsx:24-27 | a location on this site goes along whole, query and fragment included |
| RouteGuards.AdminLayout | frontend/src/app/AdminLayout.tsx:13-37 | nothing while the user loads; login for a visitor; home for a non-admin; the page exactly for a loaded, authenticated admin |
| RouteGuards.AdminPagesNeedAdminRole | frontend/src/app/AdminLayout.tsx:13-37 | over the provider's value, only a loaded user with a non-empty token and ROLE_ADMIN reaches an admin page |
| RouteGuards.Protected | frontend/src/app/ProtectedLayout.tsx:13-37 | the placeholder while loading, else login for a visitor, else the page |
| RouteGuards.ProtectedLayoutAsWritten | frontend/src/app/ProtectedLayout.tsx:14-18 | the decision taken on isLoading, a field the context value does not have |
| RouteGuards.LoadingPlaceholderUnreachable | frontend/src/app/ProtectedLayout.tsx:14-22 | as written the placeholder never shows, and a signed-in user sees the page while the user still loads |
| RouteGuards.ProtectedLayout | frontend/src/app/ProtectedLayout.tsx:13-37 | the placeholder while the user loads, login for a visitor, the page for a signed-in user |
| RouteGuards.AdminPagesAreProtected | frontend/src/app/AdminLayout.tsx:13-37 | every admin page is shown by the protected layout too, which sends a visitor to the same login address, and matches the layout as written once the user has loaded |
| RouteGuards.Truthy | frontend/src/app/ProtectedLayout.tsx:18 | `if (isLoading)` on a property that may be undefined: only true passes |
| Uri.HexDigit | frontend/src/app/AdminLayout.tsx:26 | an upper-case hex digit |
| Uri.Utf8 | frontend/src/app/AdminLayout.tsx:26 | one to four bytes, a single byte equal to the code for ASCII |
| Uri.PercentBytes | frontend/src/app/AdminLayout.tsx:26 | three characters per byte, each an escape character, starting with '%' |
| Uri.EncodeChar | frontend/src/app/AdminLayout.tsx:26 | an unreserved character is kept; anything else becomes at least one %XX escape |
| Uri.EncodeUriComponent | frontend/src/app/AdminLayout.tsx:26 | only unreserved characters, '%' and hex digits; never shorter than the input; the input itself exactly when it needs no escaping, else at least two characters longer |
| Uri.EncodeIsIdentityExactly | frontend/src/app/AdminLayout.tsx:26 | encoding leaves the text unchanged exactly when every character is unreserved |
| Uri.EncodedHasNoSeparators | frontend/src/app/AdminLayout.tsx:26-27 | '&', '#', '=', '/' and '?' never survive encoding |
| Uri.NotEncoded | frontend/src/app/AdminLayout.tsx:26 | a character outside the escape alphabet never appears in the output |
| Uri.EncodeSlash | frontend/src/app/AdminLayout.tsx:26 | '/' becomes %2F |
| Uri.HexValue | frontend/src/hooks/useInsurance.ts:17 | the value of a hex digit, in either letter case, below 16 |
| Uri.HexValueOfDigit | frontend/src/app/AdminLayout.tsx:26 | an upper-case digit written for a value reads back as that value |
| Uri.EscapedByte | frontend/src/hooks/useInsurance.ts:17 | a byte below 256 from a '%' and two hex digits at the start of the text |
| Uri.EscapedBytes | frontend/src/hooks/useInsurance.ts:17 | the given number of escaped bytes, which take three characters each |
| Uri.SequenceLength | frontend/src/hooks/useInsurance.ts:17 | at most four bytes in a UTF-8 sequence |
| Uri.Utf8Scalar | frontend/src/hooks/useInsurance.ts:17 | a character only for a sequence whose length its first byte announces and whose other bytes are continuation bytes |
| Uri.DecodeUriComponent | frontend/src/hooks/useInsurance.ts:17 | never longer than the text, and the text itself when it holds no '%' |
| Uri.EscapedBytesOfPercent | frontend/src/app/AdminLayout.tsx:26 | the escapes written for a run of bytes read back as those bytes, leaving what follows |
| Uri.Utf8RoundTrip | frontend/src/app/AdminLayout.tsx:26 | the UTF-8 form of every character announces its own length and decodes to the character |
| Uri.Utf8Two | frontend/src/app/AdminLayout.tsx:26 | a two-byte form has a two-byte lead and a continuation byte, and recombines to the code point |
| Uri.Utf8Three | frontend/src/app/AdminLayout.tsx:26 | a three-byte form has a three-byte lead and continuation bytes, and recombines to the code point |
| Uri.Utf8Four | frontend/src/app/AdminLayout.tsx:26 | a four-byte form has a four-byte lead and continuation bytes, and recombines to the code point |
| Uri.DecodeEncodedChar | frontend/src/app/AdminLayout.tsx:26 | decoding reads one character's escapes back to the character and goes on with the rest |
| Uri.DecodeEncode | frontend/src/app/AdminLayout.tsx:26 | decodeURIComponent gives back every text encodeURIComponent encoded |

## Left out

- Base64.Decode: is stricter than jjwt's decoder, which the model does not follow. That decoder trims characters outside its alphabet from both ends of the text, drops a lone final character and reads '=' inside the text as zero. The decoder's source is not part of this model. JwtConfiguration.UrlSecretAbortsAsWritten therefore holds for the library only when the '-' or '_' is not at either end of the text.
- HMAC-SHA256, the compact JWS serialisation and jjwt's parser are replaced by an ideal signature. BCrypt hashing and matching are a parameter. Only the key check and the expiry check are stated.
- Spring's filter chain, SecurityContextHolder's thread-local storage, AuthenticationManager and the full Ant/MVC path matcher are not modelled. Rules match exact paths and `/**` prefixes only. The CORS bean is constant data and is not modelled. Per-request isolation and concurrency are left to the framework.
- JPA repositories, JdbcTemplate SQL and the Postgres functions are replaced by class-held maps and id-ordered sequences. UserRepository.java is not part of this model, so Spring Data's derived-query semantics are assumed (`findByEmail`, `existsByEmail`).
- AdminUserController.GetUsers: does not fix the order of `findAll`, because the repository states none. Any order of the stored users is allowed.
- Jackson, `JSON.parse` and `JSON.stringify` are function parameters that may fail. Their internal behaviour is not modelled.
- Date-time formatting is modelled: ISO_LOCAL_DATE_TIME by InsuranceXml.FormatIsoLocalDateTime, and the PDF service's two patterns by UserProfilePdf.DisplayTimestamp and UserProfilePdf.FileTimestamp. Only the PDF service's parsing, `OffsetDateTime.parse` and then `LocalDateTime.parse`, is a function parameter. The model assumes only that it yields a valid date-time.
- UseAuth.DecodeBase64Url: always takes the `atob` branch. `atob` is modelled as the forgiving-base64 decode of the HTML standard. The `Buffer.from(…, 'base64')` fallback, taken where `atob` is missing, is not modelled, and neither is the final throw.
- UserPlanService.SerializeDiaryMap: does not model the fallback taken when Jackson's writer throws. The model's serialiser always succeeds.
- Column lengths of the plan table, null elements inside the needs list and the surrogate plan id are not modelled.
- The users table is taken to have the lengths its entity declares. The migrations that create it are not part of this model. The password column declares no length, and the provider's default length is not modelled.
- The meta entries of a frontend log entry are a list of pairs, which admits repeated keys, which the map Jackson reads a JSON object into never holds. SafeMeta is defined on such lists too. FrontendLogController.SafeMetaOfMap states what it does on the distinct keys of a real map.
- Whitespace is the six ASCII whitespace characters, and case mapping is ASCII only. Java's trim of other control characters, Unicode whitespace, Unicode case mapping, UTF-16 string lengths and lone surrogates are not modelled. StringOrder compares code points where Java's compareTo compares UTF-16 code units, so the two rank a character above U+FFFF differently against one from U+E000 to U+FFFF.
- OpenPDF rendering into bytes, DocumentException and the HTTP headers of the PDF endpoint are not modelled. Only the lines each section holds and their sort orders are stated.
- The health and database-info endpoints of SystemInfoAdminController, and its getUserProfile, are I/O and are not modelled. Only listUsers' clamping and paging are.
- InsuranceXml: only the `%s` conversions of the template are modelled.
- A null userId on an InsuranceRequest and the status enum's own file are not part of this model. The status is the one constant the factories set.
- The FrontendLogLevel enum's file is not part of this model; its values are taken from the controller's switch. `String.valueOf` of non-string meta values is a rendering parameter. The copy of FrontendLogController in restructuring-backend forwards unsanitised and is not modelled.
- CoverageGap: a product with a null provider is not modelled. Snapshot types that are null are read back as the empty list.
- Clocks, random UUIDs and OTP codes are parameters. No property of the random jti is stated.
- Network I/O, `loadUser`, React effects, timers (such as the auto-logout timer), DOM downloads (`downloadBlob`), `debugLog`, structured logging and `sendBeacon` are not modelled. HTTP header names are compared exactly, without case folding.
- DraftSync: the interleaving of `Promise.allSettled` is modelled as the plan sync followed by the insurance sync. The body of `saveInsuranceSnapshot` is not part of this model; one request per snapshot is assumed.
- The key order of `Object.entries` is the order the parsed object lists its fields. JavaScript lists integer-like keys first, in ascending order, and lists a repeated key only once; neither is modelled. Json.Lookup does follow JSON.parse in taking the last value of a repeated key.
- DraftSync.MainDiary: finds a main diary only in an object of diaries under a string phase. draftSync.ts also indexes an array or a string of diaries, and turns a phase that is not a string into a property name. For those inputs the model sends the main request without a diary.
- DraftSync.DiaryEntries: lists nothing for an array or a string of diaries, where `Object.entries` lists one entry per index or character.
- zod's e-mail check is a parameter. The refinements are modelled as zod v3 runs them on a dirty (not aborted) object.
- MainLayout.NavSections: does not model menuOpen, the menu's click handling or the rendering of the sections.
- RouteGuards.Protected: the rendering of the loading placeholder is not modelled, only that it is shown.
- Json.JNumber: holds only integers. `JSON.parse` gives IEEE doubles, so fractional numbers are not represented, and an integer beyond 2^53, which a double rounds, is kept exact.
- UseAuth.ExtractExpiration: models only an integer `exp`. A fractional `exp`, which `JSON.parse` gives as a double and `exp * 1000` scales without rounding, is not modelled.
- Floating point (the ResourcesPage calculators, and JSON numbers beyond the integers above) is not part of this model.
- The form hooks that only call the network (register, forgot and reset password, useInsurancePage), and the plumbing of the context in frontend/src/hooks/useAuth.tsx, are not modelled. The exception is the value the context provides.
- The pass-through controllers and services are not modelled, and neither are the DTO records.

## Findings

| source | as written | input that shows it | evidently intended | confidence | as-written member | corrected member |
|---|---|---|---|---|---|---|
| backend/src/main/java/io/ltj/restructuring/config/JwtConfiguration.java:43 | the fallback is guarded by `catch (IllegalArgumentException ...)`, but the Base64 decoder signals a rejected text with jjwt's DecodingException, which is not an IllegalArgumentException | the Base64url secret `AA-_` ten times followed by `AA8=`, the Base64url encoding of the bytes 00 0F BF repeated to 32 bytes, aborts startup with a DecodingException instead of loading | the Base64url fallback that the comment at line 44 describes, with the "Invalid JWT secret" error when both decoders reject | medium, not executed | JwtConfiguration.UrlSecretAbortsAsWritten | JwtConfiguration.JwtSecretKeyCorrected |
| frontend/src/utils/validation/insuranceSchemas.ts:13 | the string `\\d` inside the regular expression literal is a literal backslash followed by `d{8,15}` | phone `12345678` is refused; `\dddddddd` is accepted | an optional `+` and then 8 to 15 digits, as the message says | high, not executed | InsuranceSchemas.AsWrittenRefusesRealNumbers | InsuranceSchemas.InsuranceProfileIssues |
| backend/src/main/java/io/ltj/restructuring/security/JwtEncoder.java:33 | the user id is written under the claim `uid` | any token from JwtEncoder: the filter reads `userId`, finds null and leaves the request anonymous | the claim `userId`, which the filter and JwtUtil use | medium, not executed | JwtAuthenticationFilter.EncoderTokenAnonymous | JwtEncoder.EncodedWithUserIdClaims |
| backend/src/main/java/io/ltj/restructuring/security/JwtAuthenticationFilter.java:72 | the installed authentication has an empty authority list | a stored user with role ADMIN requesting `GET /api/admin/users` with a valid token gets 403 | the user's `ROLE_` authority, as UserPrincipal computes it | medium, not executed | SecurityConfig.FilterIdentityNeverAdmin | SecurityConfig.CorrectedFilterAdminAllowed |
| frontend/src/app/ProtectedLayout.tsx:14 | it reads `isLoading`, which the context value does not have | a signed-in user whose profile is still loading sees the page, and the placeholder never shows | the context's `isLoadingUser` flag | high, not executed | RouteGuards.LoadingPlaceholderUnreachable | RouteGuards.ProtectedLayout |
| frontend/src/hooks/useInsurance.ts:88-111 | `response.text()` is called after `response.json()` has consumed the body | a 500 response with the plain-text body `boom` yields `Request failed with status 500` | the body text when it is not a JSON message | high, not executed | UseInsurance.TextBodyLost | UseInsurance.ExtractErrorMessage |
