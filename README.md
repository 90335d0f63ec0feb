# Profile API: upsert rule and request guards

A Dafny model of the two pieces of logic in the profile API of a small Spring
service: the profile service's check-then-act upsert (`ProfileService`) and the
guard chains of the two HTTP handlers (`ProfileController`).

- `Profiles` (`profile_service.dfy`): a `Profile` row, the table as a
  `map<int, Profile>` keyed by user id, and the clock as a counter that every
  reading advances. `GetProfile` is the lookup with its unconditional unwrap:
  its result is a nullable profile (`Option`, `None` for `null`) that is never
  `None`, and a user without a row gets `NoSuchElementException` instead.
  `Upsert` is the value-level meaning of `updateProfile`; the class
  `ProfileService` holds the table and the clock as fields, and its method
  `UpdateProfile` does the work step by step (existence check, setters, two or
  one clock readings, `save`, the catch) and is proved to end in `Upsert`'s state
  and message. Lemmas: the table invariant (rows under their own user id, stamped
  in order, never in the future) is preserved; a lookup after an update sees the
  arguments; repeating an update keeps the fields and `createdAt` and moves
  `updatedAt` strictly forward; the upsert reads only the caller's row.
- `ProfileController` (`profile_controller.dfy`): `Authenticate` is the guard
  both endpoints share (400 for a missing or non-bearer header, 401 for a token
  that fails validation, claims only of a validated token); `ViewProfile` and
  `UpdateProfile` are the handlers as functions of the header, the request, the
  token service and the service state. An uncaught exception is a `Raised` reply.
- `JavaStrings` (`java_strings.dfy`): `startsWith`, `replace` and `trim` as Java
  defines them, over `seq<char>`.
- `Wrappers` (`wrappers.dfy`): `Option` and `Result`.

Two quirks of the handlers are modelled as they are and proved, not fixed:
the view handler keeps its `null` branch (401 "User tidak ditemukan"), which can
never fire, because `getProfile` raises rather than returning `null`
(`ViewNeverReportsUserNotFound`); and the update
handler parses the date before it looks at the header, then answers 200 with the
service's message even when that message is an `"Error: ..."` text
(`ProfileController.UpdateProfile`).

Three behaviours of the code are kept as they are:
- on a first update the code reads the clock twice (once for `created_at`, once
  for `updated_at`), so the two stamps need not be equal; the model proves
  `createdAt <= updatedAt` (with the counter clock they differ by one);
- a user with a valid token and no profile gets an uncaught
  `NoSuchElementException` from the view handler, not a 401 "User tidak
  ditemukan";
- a failed `save` is reported as a 200 response whose message starts with
  `"Error: "`, not as an error status.

## Model

| member | source | states |
|---|---|---|
| `JavaStrings.Replace` | src/main/java/com/bni/bni/controller/ProfileController.java:35 | replacing with a string no longer than the target never lengthens the header |
| `JavaStrings.ReplaceAbsent` | src/main/java/com/bni/bni/controller/ProfileController.java:35 | a string that does not contain the target is returned unchanged |
| `JavaStrings.ReplaceFirstOccurrence` | src/main/java/com/bni/bni/controller/ProfileController.java:35 | when `a` plus all but the last character of the target holds no occurrence, `a + target + b` becomes `a`, the replacement, then the replaced rest `b`: the leftmost occurrence is replaced and the scan continues after it, so occurrence after occurrence is removed |
| `JavaStrings.ReplaceTwoOccurrences` | src/main/java/com/bni/bni/controller/ProfileController.java:35 | a target, a piece `x`, a second target and a piece `y` free of the target: both occurrences are replaced and the pieces are kept |
| `JavaStrings.TrimStart` | src/main/java/com/bni/bni/controller/ProfileController.java:35 | the result is the suffix of the input after a run of characters at most U+0020, and does not itself start with one |
| `JavaStrings.TrimEnd` | src/main/java/com/bni/bni/controller/ProfileController.java:35 | the result is the prefix of the input before a run of characters at most U+0020, and does not itself end with one |
| `JavaStrings.Trim` | src/main/java/com/bni/bni/controller/ProfileController.java:35 | the result is a contiguous slice of the input with no padding at either end, and everything dropped on both sides is padding |
| `JavaStrings.TrimCutsOneSlice` | src/main/java/com/bni/bni/controller/ProfileController.java:35 | dropping leading and then trailing padding leaves one slice of the header, unpadded, with only padding cut on either side |
| `JavaStrings.TrimUnpadded` | src/main/java/com/bni/bni/controller/ProfileController.java:35 | trimming a string without padding leaves it unchanged |
| `Profiles.GetProfile` | src/main/java/com/bni/bni/service/ProfileService.java:20-23 | succeeds exactly when the user has a row and then returns that row, never `null`; otherwise fails with `NoSuchElementException` instead of a value |
| `Profiles.Upsert` | src/main/java/com/bni/bni/service/ProfileService.java:27-52 | success message or `"Error: "` plus the exception (table unchanged), never a throw; no other user's row changes; insert adds exactly one row keyed by the user id with the arguments and `createdAt <= updatedAt` from fresh clock readings; update overwrites the four fields, restamps `updatedAt` and keeps `userId` and `createdAt` |
| `Profiles.UpsertPreservesWellFormed` | src/main/java/com/bni/bni/service/ProfileService.java:29-47 | every row stays under its own user id with `createdAt <= updatedAt <=` the clock |
| `Profiles.UpsertThenGet` | src/main/java/com/bni/bni/service/ProfileService.java:29-47 | after a normal return, in either branch, `getProfile` for the user yields a row whose four fields equal the arguments |
| `Profiles.UpsertTwice` | src/main/java/com/bni/bni/service/ProfileService.java:39-47 | repeating an update with identical arguments changes only the user's `updatedAt`, which strictly increases |
| `Profiles.UpsertReadsOnlyOwnRow` | src/main/java/com/bni/bni/service/ProfileService.java:29-46 | two tables that agree on the caller's row give the same message, clock and new row |
| `Profiles.ProfileService.Now` | src/main/java/com/bni/bni/service/ProfileService.java:36-37 | each clock reading is one later than the previous and changes nothing else |
| `Profiles.ProfileService.Save` | src/main/java/com/bni/bni/service/ProfileService.java:38 | writes the row under its user id, or on a fault leaves the table as it was |
| `Profiles.ProfileService.UpdateProfile` | src/main/java/com/bni/bni/service/ProfileService.java:27-52 | the step-by-step update keeps the table invariant and ends with exactly `Upsert`'s message, table and clock |
| `ProfileController.ExtractToken` | src/main/java/com/bni/bni/controller/ProfileController.java:35 | the token is no longer than the header and has no padding at either end |
| `ProfileController.Authenticate` | src/main/java/com/bni/bni/controller/ProfileController.java:29-44 | 400 with "Authorization header missing or invalid" exactly when the header is absent or lacks the case-sensitive "Bearer " prefix; 401 with "Token tidak valid atau expired" exactly when the prefix is there and the extracted token fails validation; otherwise the claims of that token |
| `ProfileController.ViewProfile` | src/main/java/com/bni/bni/controller/ProfileController.java:25-64 | 400 / 401 as the guard says; with a valid token, 200 with the token's subject and every field of the row stored under the claimed user id, or an escaping `NoSuchElementException` when there is no row; the 401 "User tidak ditemukan" branch for a `null` profile is kept |
| `ProfileController.UpdateProfile` | src/main/java/com/bni/bni/controller/ProfileController.java:66-96 | an unparseable date raises before any header check and leaves the state alone; a failed guard answers 400 / 401 with the state unchanged; otherwise the upsert runs for the claimed user id and the answer is 200 with its message verbatim, error text included |
| `ProfileController.BearerTokenExtracted` | src/main/java/com/bni/bni/controller/ProfileController.java:35 | for the header "Bearer " followed by an unpadded token that does not contain "Bearer ", that token is what validation receives |
| `ProfileController.InnerBearerRemoved` | src/main/java/com/bni/bni/controller/ProfileController.java:35 | a second "Bearer " inside the header is removed too: "Bearer " + x + "Bearer " + y passes the header check and yields the token x + y |
| `ProfileController.HeaderCheckedFirst` | src/main/java/com/bni/bni/controller/ProfileController.java:29-41 | with a bad header the outcome is 400 whatever the token service says |
| `ProfileController.ValidationBeforeClaims` | src/main/java/com/bni/bni/controller/ProfileController.java:37-44 | a rejected request's outcome does not depend on the token's claims |
| `ProfileController.BadHeaderOnBothEndpoints` | src/main/java/com/bni/bni/controller/ProfileController.java:74-78 | a missing or non-bearer header gives the same 400 response on both endpoints and the update endpoint leaves the table alone |
| `ProfileController.ViewNeverReportsUserNotFound` | src/main/java/com/bni/bni/controller/ProfileController.java:46-52 | the view handler never answers "User tidak ditemukan": its `null` branch is dead |
| `ProfileController.UpdateThenView` | src/main/java/com/bni/bni/controller/ProfileController.java:43-63 | after a successful update, a view with the same token answers 200 with the token's subject and the fields just written |

## Left out

- ExtractToken: its own contract gives only the length bound and the unpadded
  result; which text is removed is stated by `BearerTokenExtracted` and
  `InnerBearerRemoved` for one and two occurrences of "Bearer ", and by
  `ReplaceFirstOccurrence` one occurrence at a time.
- Token signature and expiry checks and claim decoding: the token service is a
  parameter (`validateToken`, `claimsOf`); the `(Integer)` cast of the `user_id`
  claim is not modelled, claims arrive typed.
- Date parsing (`LocalDate.parse`): a parameter that either gives a date or
  fails; a date is an abstract year/month/day record with no calendar rules.
- Persistence: the repository interface and JPA's `save` are the in-memory map;
  transactions and the existence of a separate primary key are not modelled.
- Faults: only `save` is modelled as able to raise (the `saveFault` parameter);
  exceptions from `existsByUserId` or `findByUserId` are not modelled, nor does
  the model say whether the clock was read before such a fault.
- Concurrency: the race between two first updates for the same user is outside
  a sequential model.
- The wall clock and time zones: `OffsetDateTime.now()` is a natural-number
  counter that every reading advances by one. The strict increase of
  `updatedAt` in `UpsertTwice`, and `createdAt` lying after the old clock in
  `Upsert`, hold for that counter; the real clock can return the same reading
  twice, and then those stamps are only non-decreasing.
- HTTP routing, JSON binding, null fields in the request body, and the
  framework's answer to an uncaught exception (the model stops at `Raised`).
- Java `Long` user ids are unbounded integers.
