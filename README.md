# EncuentraPet backend, modelled in Dafny

EncuentraPet is a lost-pet service. Each pet is registered with a code `PET_…` printed as
a QR tag. Scanning the tag opens the pet's public page and records a scan. A finder can
report where the pet was found. The owner is then notified by e-mail and WhatsApp. The
backend is an Express application over one SQLite database.

This project models that backend core:

- **Database.** The six SQLite tables (`users`, `pets`, `qr_scans`, `pet_locations`,
  `vaccines`, `vaccination_records`) are the `seq` fields of one class,
  `Schema.Database`. Each table has its AUTOINCREMENT counter, and `Database.Valid()` holds
  the CHECK, UNIQUE, NOT NULL and FOREIGN KEY constraints of the schema.
- **Handlers.** Every handler that writes a table is a method on that database. Its
  `modifies` clause names only the tables it writes. Its `ensures` gives the HTTP reply
  and the new contents of each table for every branch: not found, refused by a
  constraint, and accepted. Read-only handlers are functions over the tables.
- **JavaScript values.** Request bodies and rows hold `JsValues.Val`: undefined, null,
  booleans, numbers carried by their printed text, and strings. JavaScript truthiness,
  `||` and `String(v)` are defined there. Each value written to SQLite goes through
  node-sqlite3's binding rules (`Schema.Bind`) and then one of the column affinities: TEXT (`Schema.TextColumn`), or INTEGER, REAL and NUMERIC (`Schema.NumericColumn`). The DATE columns vaccination_date and next_dose_date have NUMERIC affinity.
- **Constraint refusals.** A write that breaks a constraint does not change the table.
  It takes the handler's `catch` path, as SQLite's refusal does.
- **Outside services.** Everything outside the process is a parameter whose outcome is
  given: `jwt.verify` and `jwt.sign`, bcrypt, nodemailer, the WhatsApp Cloud API reply, the
  clock, `Date.now()` and `Math.random()`.
- **Notifications.** The notification service builds its list of `{type, success, …}`
  entries step by step, as the source does, and is proved equal to a function that
  states which entries appear and in which order.

Files: `wrappers`, `js_values`, `js_strings`, `radix` (Number.prototype.toString(radix)
of ECMA-262 section 21.1.3.6), `ordering`, `http`, `schema`, `seed`, `pet_identity`,
`pet_controller`, `user_controller`, `location_controller`, `validate`, `auth_controller`,
`auth_middleware`, `notification`, `whatsapp`.

## Model

| member | source | states |
|---|---|---|
| Radix.ParseToRadix | src/backend/controllers/pet.controller.js:107 | the base-36 rendering of a timestamp reads back as that timestamp |
| Radix.ToRadixInjective | src/backend/controllers/pet.controller.js:107 | two timestamps with the same base-36 rendering are equal |
| PetIdentity.PetCodeShape | src/backend/controllers/pet.controller.js:105-110 | a generated code is `PET_`, then the upper-case base-36 timestamp, then at most 4 upper-case base-36 characters of the random part, and the timestamp part reads back as the timestamp |
| PetIdentity.PetCodeDeterminesParts | src/backend/controllers/pet.controller.js:105-110 | two equal codes whose timestamp parts have the same length come from the same timestamp and the same upper-cased random part |
| PetIdentity.BaseUrl | src/backend/controllers/pet.controller.js:136 | the base is BASE_URL when set and non-empty, `http://localhost:3000` otherwise |
| PetIdentity.CodeOfUrl | src/backend/controllers/pet.controller.js:136 | a code read back from a URL rebuilds exactly that URL |
| PetIdentity.CodeOfPetUrl | src/backend/controllers/pet.controller.js:136 | the lookup URL `{base}/pet/{code}` gives back its code |
| PetIdentity.TagLeadsToPet | src/backend/controllers/pet.controller.js:136-147 | scanning a pet's tag leads back to that pet's code |
| PetController.OptionalText | src/backend/controllers/pet.controller.js:150-175 | a falsy optional text field is stored as NULL, any other as TEXT |
| PetController.OptionalNumber | src/backend/controllers/pet.controller.js:170 | a falsy value is stored as NULL; a decimal integer text is stored as the Number it denotes; any other value as it binds |
| PetController.FormAgeIsStoredAsNumber | src/backend/controllers/pet.controller.js:170 | the form text "3" for age_years is stored, and answered, as the Number 3 |
| PetController.PaddedAgeIsStoredAsNumber | src/backend/controllers/pet.controller.js:170 | the form text "07" is stored as the Number 7 |
| PetController.WordAgeStaysText | src/backend/controllers/pet.controller.js:170 | a text that is no number stays text in the INTEGER column |
| PetController.NormalizeSterilizedExactly | src/backend/controllers/pet.controller.js:386 | `is_sterilized` counts as set exactly for true, 'true', 1 and '1' |
| PetController.NewPetRow | src/backend/controllers/pet.controller.js:150-175 | a new pet keeps the caller, code and QR image, is active and not lost, and is stamped now |
| PetController.NewPetRowColumns | src/backend/controllers/pet.controller.js:150-175 | `sterilized` is set only by the string 'true', falsy optional fields are NULL, and species and name are kept |
| PetController.UpdatedPetRow | src/backend/controllers/pet.controller.js:402-445 | an update never changes id, owner, pet_code, qr_code, is_lost, is_active, photo_url or created_at; it stamps updated_at and normalises sterilized |
| PetController.UpdateKeepsEmptyBreed | src/backend/controllers/pet.controller.js:402-445 | an empty breed stays an empty string on update but becomes NULL on register |
| PetController.OwnedPet | src/backend/controllers/pet.controller.js:389-399 | finds a row with that id and that owner, and finds none exactly when no such row exists |
| PetController.PetById | src/backend/controllers/pet.controller.js:671-674 | finds a row with that id, or none exactly when no row has it |
| PetController.OwnedIsById | src/backend/controllers/pet.controller.js:646-674 | in a valid table the owned row and the row `WHERE id = ?` reaches are the same row |
| PetController.UserById | src/backend/controllers/user.controller.js:7-10 | finds a user with that id, or none exactly when no user has it |
| PetController.ActivePetWithOwner | src/backend/controllers/pet.controller.js:203-215 | a hit is an active pet with the code, joined with its owner |
| PetController.ActivePetWithOwnerFound | src/backend/controllers/pet.controller.js:203-215 | in a valid database an active pet with the code is always found |
| PetController.PetByCode | src/backend/controllers/pet.controller.js:283 | finds a pet with that code, active or not, or none exactly when no pet has it |
| PetController.ScanLookupIgnoresActive | src/backend/controllers/pet.controller.js:283 | deactivating a pet does not change what the scan lookup finds |
| PetController.PublicViewOf | src/backend/controllers/pet.controller.js:235-265 | the public view carries the owner's name, phone and WhatsApp and the lost flag |
| PetController.PublicViewRedacts | src/backend/controllers/pet.controller.js:235-265 | the view does not depend on the pet's id, owner id or code, nor on the owner's id, e-mail, password or address |
| PetController.OwnerNameShape | src/backend/controllers/pet.controller.js:258 | the owner's name is the first name, a space, and the last name |
| PetController.ScansOf | src/backend/controllers/pet.controller.js:60-80 | exactly the scans of that pet |
| PetController.Latest | src/backend/controllers/pet.controller.js:60-67 | `MAX(scanned_at)`: NULL for no scans, otherwise a scan time no other exceeds |
| PetController.RecentScansOf | src/backend/controllers/pet.controller.js:70-80 | min(10, n) of the pet's scans, newest first: a prefix of those scans sorted by scanned_at descending, so a sub-multiset of them with no scan repeated beyond its count |
| PetController.RecentScansAreLatest | src/backend/controllers/pet.controller.js:70-80 | no scan left out of the ten is newer than one kept |
| PetController.GetPetScans | src/backend/controllers/pet.controller.js:41-99 | 404 unless the pet is the caller's; otherwise the scan count, the distinct days, last_scan as MAX(scanned_at) of this pet's scans, and recent_scans as its ten newest scans, newest first |
| PetController.RegisterPet | src/backend/controllers/pet.controller.js:113-195 | when the QR drawing rejects, changes nothing and answers 500 with its message; otherwise appends exactly the new active row with the generated code and tag and answers 201, or changes nothing and answers 500 with the driver's message |
| PetController.GetPublicPetInfo | src/backend/controllers/pet.controller.js:198-274 | an unknown or inactive code gives 404 and no scan; an active one appends exactly one scan and answers the redacted view |
| PetController.RegisterScan | src/backend/controllers/pet.controller.js:277-318 | any pet with the code, active or not, gets exactly one scan with its coordinates or NULL; an unknown code gives 404 and no scan |
| PetController.UpdatePet | src/backend/controllers/pet.controller.js:367-461 | 404 and no change unless the pet is the caller's; otherwise that row alone becomes the updated row, or 500 and no change if a constraint refuses it |
| PetController.DeletePet | src/backend/controllers/pet.controller.js:464-493 | clears `is_active` on the caller's pet; 404 exactly when no row is the caller's pet, so deleting twice succeeds twice |
| PetController.WithLostFlag | src/backend/controllers/pet.controller.js:501-533 | the UPDATE changes only the caller's pet with that id, and nothing when there is none |
| PetController.SetLostFlag | src/backend/controllers/pet.controller.js:501-533 | the pets table becomes the one with the flag set on the caller's pet |
| PetController.MarkAsLost | src/backend/controllers/pet.controller.js:496-518 | sets is_lost on the caller's pet and reports success even when no row matched |
| PetController.MarkAsFound | src/backend/controllers/pet.controller.js:521-543 | clears is_lost on the caller's pet and reports success even when no row matched |
| PetController.NewVaccinationRow | src/backend/controllers/pet.controller.js:569-579 | the record belongs to the pet and is stamped now; a falsy dose number becomes 1; vaccine_id, dose_number, vaccination_date and next_dose_date are stored under numeric affinity; vaccination_date is NULL exactly when the form leaves it undefined or null |
| PetController.YearDateIsStoredAsNumber | src/backend/controllers/pet.controller.js:569-579 | a vaccination_date of "2024" is stored in the DATE column as the Number 2024 |
| PetController.IsoDateStaysText | src/backend/controllers/pet.controller.js:569-579 | an ISO date such as "2024-01-15" is no number and stays text in the DATE column |
| PetController.AddVaccination | src/backend/controllers/pet.controller.js:546-593 | 404 and no record unless the pet is the caller's; otherwise exactly one record, or 500 and no change when a constraint refuses it |
| PetController.RegenerateQR | src/backend/controllers/pet.controller.js:640-688 | 404 unless the pet is the caller's; a rejected QR drawing changes nothing and answers 500; otherwise only that row's qr_code changes, to the tag of the stored code |
| PetController.RegeneratedQrLeadsToPet | src/backend/controllers/pet.controller.js:659-668 | the regenerated tag still leads to the pet's unchanged code |
| UserController.GetProfile | src/backend/controllers/user.controller.js:5-15 | 200 with the selected columns of the caller's row, or with no user when none has the id |
| UserController.ProfileHidesPassword | src/backend/controllers/user.controller.js:7-10 | the profile is the same whatever the password, address and role |
| UserController.FirstIndexSameAnswers | src/backend/controllers/user.controller.js:7-10 | the lookup by id depends only on the ids of the rows |
| UserController.ActivePetsOf | src/backend/controllers/user.controller.js:27-30 | exactly the caller's active pets |
| UserController.GetUserPets | src/backend/controllers/user.controller.js:25-39 | a permutation of the caller's active pets, newest created_at first |
| UserController.UserPetsExactly | src/backend/controllers/user.controller.js:27-30 | a pet is listed if and only if it is the caller's and active |
| UserController.PetJoinRows | src/backend/controllers/user.controller.js:48-49 | a pet joins once with each of its scans, or once with NULLs when it has none |
| UserController.JoinRows | src/backend/controllers/user.controller.js:48-50 | the LEFT JOIN is empty exactly when no pet qualifies |
| UserController.JoinPetIds | src/backend/controllers/user.controller.js:45 | the distinct pet ids of the join are the ids of the qualifying pets |
| UserController.JoinScanIds | src/backend/controllers/user.controller.js:47 | the distinct scan ids of the join are the scans of the qualifying pets |
| UserController.LostSumAppend | src/backend/controllers/user.controller.js:46 | the lost sum adds up over concatenated rows |
| UserController.LostSumOfOnePet | src/backend/controllers/user.controller.js:46 | one pet's rows add their number if it is lost, nothing otherwise |
| UserController.JoinLostSum | src/backend/controllers/user.controller.js:46-49 | the lost sum counts a lost pet once per scan, and once if it has none |
| UserController.UserStatsAsWritten | src/backend/controllers/user.controller.js:41-57 | total_pets counts the caller's active pets, total_scans their scans, and lost_pets weighs each lost pet by its join rows, or is NULL for no active pet |
| UserController.LostPetsOvercount | src/backend/controllers/user.controller.js:46-49 | one lost pet scanned twice gives lost_pets 2 with total_pets 1 |
| UserController.IntendedLostBounded | src/backend/controllers/user.controller.js:43-51 | counted per pet, lost_pets never exceeds total_pets |
| UserController.RescanAddsWeight | src/backend/controllers/user.controller.js:46-49 | over pets in id order, one more scan of an already scanned lost pet adds one to the per-row lost sum |
| UserController.RescanOvercounts | src/backend/controllers/user.controller.js:43-51 | one more scan of an already scanned lost pet raises lost_pets as written by one, while the per-pet count stays the same |
| UserController.UserStubs | src/backend/controllers/user.controller.js:17-23 | updateProfile, changePassword and deleteAccount all answer 200 with the placeholder and take no table |
| LocationController.Reading | src/backend/controllers/location.controller.js:33-35 | a missing or falsy coordinate is NULL; a decimal integer text becomes a Number; any other value is stored as it binds |
| LocationController.ReportTarget | src/backend/controllers/location.controller.js:9-15 | a hit is an active pet with the given code |
| LocationController.ReportRowColumns | src/backend/controllers/location.controller.js:25-39 | the row is `reported`, a falsy message is NULL, a null or undefined phone is NULL, and latitude, longitude and accuracy are each NULL exactly when the location is missing or that reading is falsy |
| LocationController.ReportAcceptedExactly | src/backend/controllers/location.controller.js:25-39 | the INSERT is accepted exactly when both coordinates are truthy and a finder phone is given |
| LocationController.MissingLocationBreaksLatitude | src/backend/controllers/location.controller.js:33-34 | a report with no location fails NOT NULL on latitude |
| LocationController.ReportFoundPet | src/backend/controllers/location.controller.js:4-57 | an unknown or inactive code gives 404 and no row; otherwise exactly one `reported` row, or 500 and no change; only pet_locations is written |
| LocationController.LocationStubs | src/backend/controllers/location.controller.js:72-81 | the exports in force for getPetLocations, verifyLocation and markReunited give the same placeholder success and take no table |
| Validate.PatternIsValidEmail | src/backend/middlewares/validate.middleware.js:4-7 | segments without spaces and `@` joined as `a@b.c` form a valid e-mail |
| Validate.ValidEmailIsPattern | src/backend/middlewares/validate.middleware.js:4-7 | a string without spaces, with one `@` not first and a `.` inside the domain, matches the pattern |
| Validate.IsValidEmailMatchesPattern | src/backend/middlewares/validate.middleware.js:4-7 | the regular expression and its structural reading agree on every string |
| Validate.TrimCrash | src/backend/middlewares/validate.middleware.js:19-24 | `.trim()` throws exactly on a truthy value that is not a string |
| Validate.Texts | src/backend/middlewares/validate.middleware.js:55-60 | one message per error, in the same order |
| Validate.PushWhen | src/backend/middlewares/validate.middleware.js:19-53 | a failed check appends its error, a passed one appends nothing |
| Validate.PushMembers | src/backend/middlewares/validate.middleware.js:19-53 | after a push an error is present exactly if it was before or is the one the failed check adds |
| Validate.PushKeepsOrder | src/backend/middlewares/validate.middleware.js:19-53 | pushing in check order keeps the list in check order |
| Validate.Decide | src/backend/middlewares/validate.middleware.js:55-62 | a crash is 500, errors are 400 with their messages joined by `. `, and `next` runs exactly when there are neither |
| Validate.RegisterListInOrder | src/backend/middlewares/validate.middleware.js:19-53 | the register errors come in the order of the checks |
| Validate.RegisterListMembers | src/backend/middlewares/validate.middleware.js:19-53 | an error is listed exactly when its check fails |
| Validate.RegisterCrash | src/backend/middlewares/validate.middleware.js:19-45 | the register validator throws exactly when first name, last name or address is truthy and not a string |
| Validate.ValidateRegister | src/backend/middlewares/validate.middleware.js:10-63 | the step-by-step validator gives the verdict of the error list |
| Validate.RegisterErrorsExactly | src/backend/middlewares/validate.middleware.js:19-53 | each of the nine errors is present exactly when its check fails |
| Validate.RegisterErrorsInOrder | src/backend/middlewares/validate.middleware.js:19-53 | first name, last name, e-mail, phone, password, mismatch, address, city, department |
| Validate.RegisterPasses | src/backend/middlewares/validate.middleware.js:19-62 | `next` runs exactly when names trim to 2 or more, the e-mail is valid, the phone has 8 or more, the password has 8 or more and is strictly equal to the confirmation, the address trims to 5 or more, and city and department are given |
| Validate.AbsentPasswordsMatch | src/backend/middlewares/validate.middleware.js:35-41 | with both passwords absent there is no mismatch error but a short-password error |
| Validate.PhoneIsNotTrimmed | src/backend/middlewares/validate.middleware.js:31 | eight spaces pass the phone check while a trimmed name of one letter fails |
| Validate.NumericNameThrows | src/backend/middlewares/validate.middleware.js:19 | a numeric first name ends in a 500, not a 400 |
| Validate.ValidateLogin | src/backend/middlewares/validate.middleware.js:66-87 | the step-by-step validator gives the verdict of the error list |
| Validate.LoginErrorsExactly | src/backend/middlewares/validate.middleware.js:71-79 | an e-mail error exactly for an invalid e-mail, a password error exactly for a falsy password, in that order |
| Validate.LoginRejects | src/backend/middlewares/validate.middleware.js:71-86 | login is rejected with 400 exactly when the e-mail is invalid or the password absent |
| Validate.PetCrash | src/backend/middlewares/validate.middleware.js:95-103 | the pet validator throws exactly when name or color is truthy and not a string |
| Validate.ValidatePet | src/backend/middlewares/validate.middleware.js:90-115 | the step-by-step validator gives the verdict of the error list |
| Validate.PetErrorsExactly | src/backend/middlewares/validate.middleware.js:95-106 | name, species and color errors appear exactly when their checks fail, in that order |
| Validate.PetPasses | src/backend/middlewares/validate.middleware.js:95-114 | `next` runs exactly for a trimmed name of 2 or more, a species, and a trimmed color of 2 or more |
| AuthController.LowerEmail | src/backend/controllers/auth.controller.js:26 | a string e-mail is lower-cased; any other throws |
| AuthController.EmailRow | src/backend/controllers/auth.controller.js:24-27 | finds an account with the e-mail, or none exactly when no account has it |
| AuthController.NewUserColumns | src/backend/controllers/auth.controller.js:41-57 | the new account stores the lower-cased e-mail and the hash, has whatsapp equal to phone, country Bolivia, role user, and is active |
| AuthController.RegisterSucceedsExactly | src/backend/controllers/auth.controller.js:16-90 | registration succeeds exactly when the lower-cased e-mail is new, the hash succeeds and the NOT NULL fields are given |
| AuthController.RegisterEffect | src/backend/controllers/auth.controller.js:29-81 | a refusal (400 or 500) changes nothing; a success appends exactly the new account and answers 201 with its id and token |
| AuthController.RegisteredEmailBlocksVariants | src/backend/controllers/auth.controller.js:24-34 | after a registration, the same e-mail in any case is refused with 400 and no insert |
| AuthController.RegisterAccepted | src/backend/controllers/auth.controller.js:41-81 | an accepted registration answers 201 and stores the new account with last_login set |
| AuthController.Register | src/backend/controllers/auth.controller.js:16-90 | the users table and the reply are those of the registration outcome |
| AuthController.LoginFailuresLookAlike | src/backend/controllers/auth.controller.js:104-127 | an unknown e-mail and a wrong password get the same 401 and change nothing |
| AuthController.InactiveRefusedBeforePassword | src/backend/controllers/auth.controller.js:112-120 | a deactivated account gets 403 whatever bcrypt would answer |
| AuthController.LoginIgnoresEmailCase | src/backend/controllers/auth.controller.js:101 | the e-mail's case does not change the login outcome |
| AuthController.LoginEffect | src/backend/controllers/auth.controller.js:93-159 | a failure (401, 403 or 500) changes nothing; a success stamps last_login on the matched account only and answers its token and names |
| AuthController.RegisterThenLogin | src/backend/controllers/auth.controller.js:16-159 | logging in with the registered password and the e-mail in any case succeeds for the new account |
| AuthController.Login | src/backend/controllers/auth.controller.js:93-159 | the users table and the reply are those of the login outcome |
| AuthController.VerifyTokenSkipsActiveCheck | src/backend/controllers/auth.controller.js:162-208 | verifyToken accepts what authenticate accepts plus deactivated accounts, naming the same account |
| AuthController.VerifyTokenRejections | src/backend/controllers/auth.controller.js:164-206 | a missing token and any jwt error give 401 |
| AuthController.ForgotPasswordRevealsNothing | src/backend/controllers/auth.controller.js:221-255 | the reply does not depend on the users table, and is 200 for every string e-mail |
| AuthController.PlaceholdersConfirm | src/backend/controllers/auth.controller.js:211-277 | logout and resetPassword answer 200 with their fixed messages |
| AuthMiddleware.Request.constructor | src/backend/middlewares/auth.middleware.js:45 | a new request has no user |
| AuthMiddleware.HeaderToken | src/backend/middlewares/auth.middleware.js:9 | a token is a non-empty word of the header |
| AuthMiddleware.AnySchemeGivesToken | src/backend/middlewares/auth.middleware.js:9 | the word after the first space is the token whatever the scheme word |
| AuthMiddleware.BareTokenIsMissing | src/backend/middlewares/auth.middleware.js:9-16 | a header without a space gives no token |
| AuthMiddleware.Selected | src/backend/middlewares/auth.middleware.js:26 | a column the SELECT does not name reads as undefined |
| AuthMiddleware.AuthenticateSeesActive | src/backend/middlewares/auth.middleware.js:26-37 | authenticate's SELECT sees is_active exactly as stored |
| AuthMiddleware.UserOfToken | src/backend/middlewares/auth.middleware.js:25-28 | the user with the decoded id, or none exactly when no user has it |
| AuthMiddleware.AuthenticationAdmits | src/backend/middlewares/auth.middleware.js:6-53 | the request is admitted exactly for a token that decodes to an active user, with that user's columns |
| AuthMiddleware.AuthenticationRefusals | src/backend/middlewares/auth.middleware.js:9-74 | no token 401, JsonWebTokenError 401, TokenExpiredError 401, other errors 500, unknown user 404, inactive user 403 |
| AuthMiddleware.Authenticate | src/backend/middlewares/auth.middleware.js:6-76 | sets req.user and proceeds exactly when admitted, otherwise refuses and leaves req.user alone |
| AuthMiddleware.IsAdmin | src/backend/middlewares/auth.middleware.js:79-88 | passes exactly role admin, refuses with 403 otherwise |
| AuthMiddleware.IsVet | src/backend/middlewares/auth.middleware.js:91-100 | passes exactly roles vet and admin, refuses with 403 otherwise |
| AuthMiddleware.RolesNest | src/backend/middlewares/auth.middleware.js:79-100 | isAdmin implies isVet; a vet passes only isVet; a plain user or no user passes neither |
| AuthMiddleware.OptionalAuthNeverSetsUser | src/backend/middlewares/auth.middleware.js:113-118 | with is_active left out of the SELECT, no request gets a user |
| AuthMiddleware.OptionalAuthIntended | src/backend/middlewares/auth.middleware.js:103-126 | selecting is_active, an admitted token gives the same user as authenticate |
| AuthMiddleware.OptionalAuth | src/backend/middlewares/auth.middleware.js:103-134 | always proceeds and leaves req.user as it was |
| Schema.Bind | src/backend/config/database.js:244-250 | a bound value is a SQLite value, undefined becomes NULL, and truthiness is kept |
| Schema.TextColumn | src/backend/config/database.js:244-250 | a TEXT parameter is a string or NULL, NULL exactly for null or undefined |
| Schema.IntegerTextRoundTrip | src/backend/config/database.js:74-76 | reading back a printed integer within 2^53 - 1 gives the integer |
| Schema.NumericColumn | src/backend/config/database.js:74-76 | under INTEGER, REAL or NUMERIC affinity a decimal integer text becomes a Number of the same value, and other text stays text |
| Schema.FirstIndex | src/backend/config/database.js:253-259 | `getOne`: the first row that matches, or none exactly when no row does |
| Schema.FirstIndexAgrees | src/backend/config/database.js:253-259 | two tables that agree on which rows match give the same first row |
| Schema.Database.constructor | src/backend/config/database.js:35-196 | the new database has six empty tables, counters at 1, and is valid |
| Schema.UserInsertChecked | src/backend/config/database.js:35-53 | a user insert passes NOT NULL, CHECK(role) and UNIQUE(email) exactly when the table with it stays valid |
| Schema.UserUpdateKeepsValid | src/backend/config/database.js:35-53 | stamping a user row keeps the table valid and its ids |
| Schema.PetInsertChecked | src/backend/config/database.js:64-98 | a pet insert passes the NOT NULL, CHECK, UNIQUE and FOREIGN KEY constraints exactly when the table with it stays valid |
| Schema.PetUpdateChecked | src/backend/config/database.js:64-98 | a pet update passes the constraints exactly when the updated table stays valid |
| Schema.PetFlagsKeepValid | src/backend/config/database.js:64-98 | changing flags or the image of a pet keeps the table valid and its ids |
| Schema.UserIdsAppend | src/backend/config/database.js:35-53 | an appended user adds its id to the ids |
| Schema.UserIdsUpdate | src/backend/config/database.js:35-53 | an update keeping the id keeps the ids |
| Schema.PetIdsAppend | src/backend/config/database.js:64-98 | an appended pet adds its id to the ids |
| Schema.PetIdsUpdate | src/backend/config/database.js:64-98 | an update keeping the id keeps the ids |
| Schema.PetsValidWiderParents | src/backend/config/database.js:97 | more users never break a pet's foreign key |
| Schema.ChildrenValidWiderParents | src/backend/config/database.js:147-196 | more pets never break a scan's, a location's or a record's foreign key |
| Schema.LocationInsertChecked | src/backend/config/database.js:160-176 | a location insert passes NOT NULL, CHECK(status) and the foreign key exactly when the table with it stays valid |
| Schema.RecordInsertChecked | src/backend/config/database.js:131-149 | a vaccination insert passes NOT NULL and both foreign keys exactly when the table with it stays valid |
| Schema.ScanInsertChecked | src/backend/config/database.js:187-196 | a scan insert passes the foreign key exactly when the table with it stays valid |
| Schema.VaccineIdsGrow | src/backend/config/database.js:109-119 | a vaccines table that only grows keeps every id |
| Seed.InsertOrIgnore | src/backend/config/database.js:231-238 | after one INSERT OR IGNORE the pair is present, and an already present pair changes nothing |
| Seed.InsertOrIgnoreKeepsValid | src/backend/config/database.js:118-238 | INSERT OR IGNORE keeps UNIQUE(name, species) and only extends the table |
| Seed.SeedAllKeepsValid | src/backend/config/database.js:215-241 | seeding keeps the table valid and only extends it |
| Seed.InsertOrIgnoreKeepsPairs | src/backend/config/database.js:231-238 | a pair present before an insert is still present after it |
| Seed.SeedAllPresent | src/backend/config/database.js:215-241 | after seeding every listed pair is present |
| Seed.SeedAllPresentIsIdentity | src/backend/config/database.js:215-241 | seeding a table that has every pair changes nothing |
| Seed.SeedIdempotent | src/backend/config/database.js:215-241 | running the seeding twice equals running it once |
| Seed.ReseedKeepsRows | src/backend/config/database.js:215-241 | whatever the AUTOINCREMENT counter is, running the seeding again leaves the rows of the first run |
| Seed.SeedAllFresh | src/backend/config/database.js:215-241 | with all pairs new and distinct, the rows are appended in list order with consecutive ids |
| Seed.FreshSeed | src/backend/config/database.js:216-238 | on an empty table the nine vaccines get ids 1 to 9 in list order |
| Seed.InsertDefaultVaccines | src/backend/config/database.js:215-241 | the forEach loop leaves the vaccines table as the seeding function says, and the database valid |
| WhatsApp.CleanNumber | src/backend/services/whatsapp.service.js:15 | a string keeps exactly its digits; any other value throws |
| WhatsApp.ToStringCall | src/backend/services/whatsapp.service.js:67-68 | `toString()` throws exactly on undefined and null |
| WhatsApp.ErrorText | src/backend/services/whatsapp.service.js:44 | the provider's message when truthy, the error's own otherwise |
| WhatsApp.Deliver | src/backend/services/whatsapp.service.js:17-46 | the post goes to the API URL with the Bearer token; success carries the provider's data, failure the error text |
| WhatsApp.SendTextMessage | src/backend/services/whatsapp.service.js:7-48 | unconfigured: nothing posted and `WhatsApp no configurado`; otherwise a text payload to the cleaned number with the message and preview_url |
| WhatsApp.SendLocationMessage | src/backend/services/whatsapp.service.js:50-92 | unconfigured: nothing posted; otherwise the coordinates as strings and the default name and address for falsy ones |
| WhatsApp.LanguageCode | src/backend/services/whatsapp.service.js:94 | the language defaults to `es` only when no argument is given |
| WhatsApp.SendTemplateMessage | src/backend/services/whatsapp.service.js:94-135 | unconfigured: nothing posted; otherwise a template payload with the name and language code |
| WhatsApp.FailuresCarryAMessage | src/backend/services/whatsapp.service.js:38-46 | a send never throws: it succeeds with data or fails with a message |
| WhatsApp.CleanedDestinationIsStable | src/backend/services/whatsapp.service.js:15 | sending to the cleaned number posts the same as sending to the raw one |
| WhatsApp.SeparatorsDoNotMatter | src/backend/services/whatsapp.service.js:15-28 | numbers with the same digits get the same post and result |
| WhatsApp.LocationCarriesCoordinates | src/backend/services/whatsapp.service.js:62-72 | present coordinates are posted as their printed strings with the default name and address |
| JsStrings.TrimIsSlice | src/backend/middlewares/validate.middleware.js:19 | `trim()` is a slice with whitespace outside it |
| JsStrings.TrimIdempotent | src/backend/middlewares/validate.middleware.js:19 | trimming twice equals trimming once |
| JsStrings.DigitsOnlyCounts | src/backend/services/whatsapp.service.js:15 | cleaning keeps every digit as often as it occurs and no other character |
| JsStrings.DigitsOnlyFixedPoints | src/backend/services/whatsapp.service.js:15 | a string is left unchanged exactly when it has only digits |
| JsStrings.DigitsOnlyIdempotent | src/backend/services/whatsapp.service.js:15 | cleaning twice equals cleaning once |
| JsStrings.JoinSplit | src/backend/middlewares/auth.middleware.js:9 | joining the pieces of `split(' ')` gives back the header |
| JsStrings.LowerCaseIdempotent | src/backend/controllers/auth.controller.js:26 | lower-casing twice equals lower-casing once |
| JsStrings.Substring | src/backend/controllers/pet.controller.js:108 | `substring` clamps its bounds and is the slice when they are in range |
| Ordering.SortDesc | src/backend/controllers/user.controller.js:28 | `ORDER BY … DESC` is a permutation sorted newest first |
| Ordering.TakeKeepsLargest | src/backend/controllers/pet.controller.js:70-80 | on a sorted list the first n are at least every one left out |
| Notification.SendEmailNotification | src/backend/services/notification.service.js:17-38 | without SMTP_USER nothing is sent and `Email no configurado` is returned; otherwise success carries the messageId and a transport error its message |
| Notification.MapLink | src/backend/services/notification.service.js:53-55 | a map link exists exactly when both coordinates are truthy |
| Notification.NotifyQRScan | src/backend/services/notification.service.js:40-138 | the step-by-step pushes give exactly the scan notification list |
| Notification.NotifyLocationReport | src/backend/services/notification.service.js:141-243 | the step-by-step pushes give exactly the report notification list |
| Notification.AssembleOrder | src/backend/services/notification.service.js:102-133 | entries come as email, then whatsapp_text, then whatsapp_location, each at most once |
| Notification.ScanEntries | src/backend/services/notification.service.js:52-137 | email exactly when owner.email is truthy; text exactly when owner.whatsapp is; location exactly when also both coordinates are truthy |
| Notification.ReportEntries | src/backend/services/notification.service.js:156-242 | the same rule for a location report |
| Notification.ReportDefaults | src/backend/services/notification.service.js:144-146 | falsy finder name, phone and message become `Alguien`, `No proporcionado` and `Sin mensaje adicional` |
| Notification.AnonymousReportSubject | src/backend/services/notification.service.js:99-203 | an anonymous report's subject differs from the scan subject only in its first emoji |
| Notification.ScanMailLink | src/backend/services/notification.service.js:53-101 | the mail goes to owner.email with the scan subject, and contains the map link when both coordinates are truthy |
| Notification.LocationSendIndependent | src/backend/services/notification.service.js:118-134 | the location send's outcome changes only the location entry |
| Notification.UnconfiguredChannels | src/backend/services/notification.service.js:19-22 | with no channel configured nothing is sent and every entry reports failure |
| Notification.OwnerWithBothChannels | test-notifications.js:9-28 | the test owner and scan get email, whatsapp_text and whatsapp_location |
| Notification.TestNumberIsClean | test-notifications.js:16 | the test number is already digits only |
| Notification.OwnerWithBothChannelsText | test-notifications.js:9-28 | the text goes to the test number |
| Notification.OwnerWithBothChannelsLocationTo | test-notifications.js:14-23 | the location is posted to the test number |
| Notification.OwnerWithBothChannelsLocation | test-notifications.js:20-23 | the location post carries -16.5 and -68.15 |

## Left out

- Photo upload and `updatePhoto`: multer disk storage, the 5 MB limit and the file removal are file-system I/O.
- The QR image itself: `QRCode.toDataURL` is a foreign call. The model keeps the URL it encodes and the drawing options. Whether it rejects, and with which message, is a parameter of `RegisterPet` and `RegenerateQR`.
- SQLite and the promise wrappers `runQuery`, `getOne` and `getAll` are not modelled. The tables are modelled directly, and `getOne` is "first row in table order" (`Schema.FirstIndex`).
- bcrypt, jsonwebtoken, nodemailer and axios are foreign calls. Their outcomes are parameters: a hash or its failure, a compare answer, a verify outcome, a signed token, a mail outcome, a provider reply.
- The clock, `CURRENT_TIMESTAMP`, `Date.now()` and `Math.random()` are parameters. `toLocaleString('es-BO')` is a given string.
- HTML e-mail bodies are modelled only up to the presence of the map link. The WhatsApp texts are modelled in full; the mail HTML is not.
- Floating point: coordinates and weights are numbers carried by their printed text, and they are compared only for truthiness.
- PetController.OptionalNumber: the INTEGER columns (age_years, age_months, dose_number, vaccine_id), the REAL ones (weight, latitude, longitude, accuracy) and the NUMERIC DATE ones (vaccination_date, next_dose_date) convert a decimal integer text to a number, through `Schema.NumericColumn`. SQLite also converts text with a fraction or an exponent, text with surrounding spaces, and integers beyond 2^53 - 1. This model keeps those as text.
- PetController.NewVaccinationRow: the DATE columns vaccination_date and next_dose_date get the same integer-text conversion. SQLite's NUMERIC affinity would also turn text like "2024.5" or "1e3" into a number; this model keeps it as text.
- `JsValues.Val`: request-body fields that are JSON arrays or objects are not modelled. For example, `email: ["a@b.co"]` would pass `isValidEmail` through `String()` and then throw in `toLowerCase`.
- `getPetById` and `getVaccinations` are read-only handlers outside the modelled core.
- `JsStrings.ToLowerCase` maps the ASCII and Latin-1 capitals, and `JsStrings.ToUpperCase` maps the ASCII letters only. The rest of JavaScript's Unicode case mapping is not modelled.
- `AuthController.Register`: the INSERT and the following UPDATE of last_login are modelled as one write of the stamped row. No other request can run between them in this model.
- Console logging, and the token lifetime policy inside jwt, are left out.
- The notification service is not called by any controller in the source. `reportFoundPet` and the scan handlers send nothing, and the model follows that.
- Route wiring, middleware order, rate limiting, helmet, CORS and server start-up are framework plumbing.
- The earlier definitions of `getPetLocations`, `verifyLocation` and `markReunited` (src/backend/controllers/location.controller.js:59-70) are overwritten by the later exports, so only the later ones are modelled.
- Route parameters arrive as already parsed numbers. A string id that SQLite would coerce is not modelled.
- Seed.InsertOrIgnore: assumes an ignored INSERT OR IGNORE leaves the AUTOINCREMENT counter of `vaccines` (src/backend/config/database.js:110) where it was. SQLite does not promise this; it only promises ids that never go down.
- Seed.SeedIdempotent: its equality includes the counter, so it rests on the assumption above. Seed.ReseedKeepsRows states the rows part without it. The ids that `Seed.InsertDefaultVaccines` gives new seeds in a partly seeded table rest on the same assumption; on an empty table (`Seed.FreshSeed`) no insert is ignored.

## Findings

| source | as written | input that shows it | evidently intended | confidence | as-written member | corrected member |
|---|---|---|---|---|---|---|
| src/backend/middlewares/auth.middleware.js:113-118 | the SELECT omits `is_active`, so `user.is_active` is undefined and `req.user` is never set | any valid token of an active user | set `req.user` for an active user, as `authenticate` does | not executed | AuthMiddleware.OptionalAuthNeverSetsUser | AuthMiddleware.OptionalAuthIntended |
| src/backend/controllers/user.controller.js:46-49 | `SUM(CASE WHEN p.is_lost …)` runs over LEFT JOIN rows, so a lost pet counts once per scan | one active lost pet with two scans gives lost_pets 2 and total_pets 1 | count each lost pet once, so lost_pets ≤ total_pets | not executed | UserController.LostPetsOvercount | UserController.IntendedLostBounded |
