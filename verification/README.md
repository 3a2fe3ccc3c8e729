# Food-app credential lifecycle and client state, in Dafny

This project models the small, sequential logic underneath a food-ordering web
application: the server's account handlers (signup, login, e-mail
verification, forgot/reset password, session check, profile update) together
with the verification-code generator, the session-cookie issuer and the
request guard, and the client's state transforms (cart, restaurant search and
cuisine filter, six-box code entry, toast queue, the forgot-password,
reset-password, register, login, restaurant and menu-edit forms, and the zod
rule sets behind them).

Everything is functional. The user collection is a sequence of records in
which `findOne` picks the first match. A handler takes the store, the request
fields and the clock and returns the reply, the new store and an ordered trace
of effects: record writes, mails, cookie changes. Randomness, bcrypt, JWT
signing and verification, the image upload and mail delivery are parameters.
A bcrypt digest has its own type, so a stored password can never be a
plaintext. Client handlers are pure transitions on immutable form records. A
timer is returned as a flag or as the value its callback captures, and the
callback is a separate function.

Modules: `Wrappers` (Option, Result, JavaScript truthiness of strings), `Seqs`
(filter, subsequence), `Text` (characters, trim, lower case, split/join, the
two `\D` replacements), `VerificationCode`, `ResetToken`, `SessionToken`,
`SessionGuard`, `UserStore`, `UserController`, `CredentialLifecycle`
(properties across several requests), `Cart`, `Search`, `Filters`, `Otp`,
`EmailPattern`, `ForgotPasswordForm`, `ResetPasswordForm`, `UserSchema`,
`FormErrors`, `RegisterForm`, `LoginForm`, `RestaurantForm`, `EditMenu`,
`Toast`.

Two behaviours of the code worth knowing:
- `forgotPassword` answers an unknown e-mail with 400 "User doesn't exist".
- E-mail lookups compare the address exactly as sent. There is no case folding.

Strings are sequences of Unicode characters. Where the code measures a string
with `.length` or a zod `.min(n)`, the model counts UTF-16 code units
(`Text.Utf16Length`), so a character outside the Basic Multilingual Plane
counts twice, as it does in JavaScript.

## Model

| member | source | states |
|---|---|---|
| VerificationCode.Generate | server/src/utils/generateVerificationCode.ts:1-13 | one character per draw; a zero or negative length gives the empty code; the loop builds exactly the reference spelling of the draws |
| VerificationCode.Spell | server/src/utils/generateVerificationCode.ts:8-10 | the code is as long as the draws, and character i is the alphabet character at draw i |
| VerificationCode.AlphabetIsAlphanumeric | server/src/utils/generateVerificationCode.ts:3 | every alphabet character is an ASCII letter or digit, and every ASCII letter and digit is in the alphabet |
| VerificationCode.AlphabetDistinct | server/src/utils/generateVerificationCode.ts:3 | the 62 alphabet characters are pairwise distinct |
| VerificationCode.SpellAlphanumeric | server/src/utils/generateVerificationCode.ts:3-10 | every generated character is a letter or digit |
| VerificationCode.SpellInjective | server/src/utils/generateVerificationCode.ts:3-10 | different draw sequences spell different codes |
| VerificationCode.LetterDraw | server/src/utils/generateVerificationCode.ts:3 | draws below 52 pick letters, never digits |
| ResetToken.Hex | server/src/controllers/userController.ts:177 | the hex text has two lower-case digits per byte, high nibble first |
| ResetToken.UnhexHex | server/src/controllers/userController.ts:177 | decoding the hex text gives the bytes back |
| ResetToken.HexInjective | server/src/controllers/userController.ts:177 | different random bytes give different reset tokens |
| ResetToken.TokenShape | server/src/controllers/userController.ts:177 | a reset token is 80 lower-case hexadecimal characters |
| SessionToken.ExpiresIn | server/src/utils/generateToken.ts:14 | the configured expiry when it is a non-empty string, otherwise "1d" |
| SessionToken.GenerateToken | server/src/utils/generateToken.ts:11-46 | fails exactly when the secret is missing, before signing; otherwise signs userId and email and sets cookie "token" holding the returned token, httpOnly, sameSite strict, a week for exactly "7d" and a day otherwise, secure exactly in production |
| SessionToken.MaxAge | server/src/utils/generateToken.ts:35 | a week exactly for the literal "7d", a day for every other expiry |
| SessionToken.MaxAgeExamples | server/src/utils/generateToken.ts:35 | unset, empty, "2h" and "30d" expiries all give a one-day cookie |
| SessionGuard.CatchAsWritten | server/src/middlewares/isAuthenticated.ts:54-74 | every jsonwebtoken error, expiry included, is "Invalid token", any other error "Internal server error", and "Token expired" is never the answer |
| SessionGuard.CatchCorrected | server/src/middlewares/isAuthenticated.ts:54-74 | with the expiry test first: "Token expired" exactly for an expired token, "Invalid token" for the other jsonwebtoken errors, 500 for anything else |
| SessionGuard.Guard | server/src/middlewares/isAuthenticated.ts:14-76 | no cookie gives 401 before the secret is read; a missing secret gives 500 "Server configuration error"; a thrown error is answered by the catch block; no payload or no userId gives 401 "Invalid token"; a payload with a userId calls next exactly once with req.id set to it; next is never called otherwise |
| SessionGuard.IsAuthenticated | server/src/middlewares/isAuthenticated.ts:14-76 | as written: no cookie 401, no secret 500; JsonWebTokenError, TokenExpiredError and NotBeforeError all give 401 "Invalid token"; any other error gives 500; a payload with a userId passes with that identity; "Token expired" is never among the replies |
| SessionGuard.IsAuthenticatedCorrected | server/src/middlewares/isAuthenticated.ts:54-75 | with the expiry test first, an expired token gets 401 "Token expired", the other jsonwebtoken errors 401 "Invalid token", any other error 500; every request whose verification does not throw an expiry is decided exactly as in the code as written |
| SessionGuard.ExpiredBranchUnreachable | server/src/middlewares/isAuthenticated.ts:56-68 | no request ever gets "Token expired", and an expired token is answered "Invalid token" |
| SessionGuard.NoCookieIgnoresSecret | server/src/middlewares/isAuthenticated.ts:17-25 | without a cookie the decision depends on neither the secret nor the verifier |
| SessionGuard.MissingUserIdIsInvalid | server/src/middlewares/isAuthenticated.ts:39-47 | a payload decoded without a userId is rejected with 401 "Invalid token" |
| UserStore.FindFirst | server/src/controllers/userController.ts:24 | the lowest index whose record matches, or none when no record matches |
| UserStore.Put | server/src/controllers/userController.ts:180-182 | saving a record replaces it in place and changes no other record |
| UserStore.PutKeepsValid | server/src/controllers/userController.ts:180-182 | a save that keeps the id and e-mail keeps ids and e-mails unique |
| UserController.Signup | server/src/controllers/userController.ts:11-69 | a missing field or a taken e-mail gives 400 with the store unchanged; otherwise one record is appended with the request's name, e-mail and contact, the digest, the generated code and expiry now + 86,400,000, and no address, city, country, picture or last login; with a secret the effects are the write, the session cookie and the verification mail carrying the code, in that order, and without one only the write; a missing secret or failed mail gives 500 with the record kept; 201 carries the record without password |
| UserController.Login | server/src/controllers/userController.ts:71-122 | missing fields give 400; an unknown e-mail and a wrong password give the same 400 reply; correct credentials succeed exactly when a secret is configured, and without one give 500 with nothing changed; success changes only lastLogin, to now, greets the user by name, and sets the session cookie before saving |
| UserController.VerifyEmail | server/src/controllers/userController.ts:123-152 | fails with 400 exactly when no record holds the code with expiry strictly after now; success raises isVerified, clears code and expiry, then saves the record and sends the welcome mail to its address and name, and keeps the write if the mail fails |
| UserController.Logout | server/src/controllers/userController.ts:153-163 | clears the cookie, answers 200 and leaves the store alone |
| UserController.ForgotPassword | server/src/controllers/userController.ts:165-195 | an unknown e-mail gives 400 and changes nothing; otherwise the reset token and expiry now + 3,600,000 overwrite any earlier ones, the write precedes the mail carrying the link, and a failed mail gives 500 with the token kept |
| UserController.ResetPassword | server/src/controllers/userController.ts:197-226 | fails with 400 exactly when no record holds the token with expiry strictly after now; success replaces the digest and clears token and expiry, then saves the record and sends the reset-success mail to its address |
| UserController.CheckAuth | server/src/controllers/userController.ts:228-246 | 404 for an unknown id, else 200 with the record without password; nothing changes |
| UserController.UpdateProfile | server/src/controllers/userController.ts:248-305 | a failed upload gives 400 before any write; an unknown id gives 404; otherwise the update succeeds with one write; success writes the five request fields, and the picture only after an upload; password, contact, tokens, isVerified and lastLogin never change |
| CredentialLifecycle.VerifiedRecordNeverMatchesAgain | server/src/controllers/userController.ts:127-138 | a verified record no longer matches any code at any time |
| CredentialLifecycle.VerificationCodeSingleUse | server/src/controllers/userController.ts:127-138 | the same code fails a second time when no other record holds it |
| CredentialLifecycle.ExpiredCodeFails | server/src/controllers/userController.ts:127 | a code whose expiry is not strictly after now fails, even at the exact expiry instant |
| CredentialLifecycle.SignupThenVerify | server/src/controllers/userController.ts:36-47 | the code stored at signup verifies the new account strictly before 24 hours have passed and fails from then on |
| CredentialLifecycle.ForgotPasswordSupersedesOldToken | server/src/controllers/userController.ts:177-182 | after a new request the earlier reset token no longer matches the account |
| CredentialLifecycle.FreshResetTokenWorks | server/src/controllers/userController.ts:177-213 | the newly issued token resets the password at any time before its expiry |
| CredentialLifecycle.ResetTokenSingleUse | server/src/controllers/userController.ts:201-213 | reusing a reset token fails |
| CredentialLifecycle.LoginFailuresIndistinguishable | server/src/controllers/userController.ts:84-99 | the unknown-e-mail reply and the wrong-password reply are equal |
| CredentialLifecycle.SignupKeepsValid | server/src/controllers/userController.ts:24-47 | with a fresh id, signup keeps ids and e-mails unique |
| CredentialLifecycle.CredentialHandlersKeepValid | server/src/controllers/userController.ts:71-226 | login, verification, forgot and reset password keep ids and e-mails unique |
| CredentialLifecycle.VerifyOnlyRaisesFlag | server/src/controllers/userController.ts:135-138 | verification never lowers a flag and raises exactly the matched record's |
| CredentialLifecycle.UpdateProfileKeepsValid | server/src/controllers/userController.ts:251-291 | a profile update keeps ids and e-mails unique when no other account holds the requested e-mail |
| CredentialLifecycle.UpdateProfileCanDuplicateEmail | server/src/controllers/userController.ts:251-291 | a profile update can give a second account an e-mail already in use |
| Cart.Increment | client/src/components/Cart.tsx:41-47 | every item with the id gains one; the others, the order and the length are unchanged |
| Cart.Decrement | client/src/components/Cart.tsx:49-57 | every item with the id loses one only when above one; all else unchanged |
| Cart.Remove | client/src/components/Cart.tsx:59-61 | every item without the id remains as often as it was there, no item with the id remains, and the order is kept |
| Cart.ClearAll | client/src/components/Cart.tsx:63-65 | the cleared cart is empty and totals 0 |
| Cart.Total | client/src/components/Cart.tsx:67 | the sum of price × quantity over the cart |
| Cart.TotalNonNegative | client/src/components/Cart.tsx:67 | with non-negative prices and quantities the reduced total is never negative |
| Cart.QuantitiesStayPositive | client/src/components/Cart.tsx:41-57 | positive quantities stay positive under both buttons |
| Cart.DecrementUndoesIncrement | client/src/components/Cart.tsx:41-57 | with positive quantities, decrement after increment on one id restores the cart |
| Cart.IncrementTotal | client/src/components/Cart.tsx:41-67 | increment raises the total by the prices of the items with that id |
| Cart.TotalConcat | client/src/components/Cart.tsx:67 | the total of two parts is the sum of their totals |
| Cart.RemoveUnknownId | client/src/components/Cart.tsx:59-61 | removing an absent id changes nothing |
| Cart.RemoveTotal | client/src/components/Cart.tsx:59-67 | removing an id lowers the total by exactly that id's price times quantity |
| Search.Search | client/src/components/SearchPage.tsx:77-94 | an order-preserving subsequence; with filters every result has an applied cuisine; with a non-blank query every result matches the lower-cased query; every restaurant meeting both tests is kept |
| Search.SearchCounts | client/src/components/SearchPage.tsx:77-94 | every restaurant passing both tests appears in the result as often as in the list, and no other does |
| Search.NoCriteriaShowsAll | client/src/components/SearchPage.tsx:77-92 | no filter and a blank query show the whole list in order |
| Search.RemoveFilter | client/src/components/SearchPage.tsx:99-101 | every copy of the value goes, every other filter stays as often as it was applied, in order |
| Filters.Toggle | client/src/components/FilterPage.tsx:23-27 | the value is present afterwards exactly when it was absent; a present value loses every copy, an absent one is appended |
| Filters.Reset | client/src/components/FilterPage.tsx:28-30 | after reset the list is empty and no box is checked |
| Filters.Checked | client/src/components/FilterPage.tsx:43 | a box is checked exactly when its label is in the applied list |
| Filters.ToggleAfterReset | client/src/components/FilterPage.tsx:23-30 | after a reset, ticking a box applies exactly that cuisine and checks only that box |
| Filters.ToggleFlipsOneBox | client/src/components/FilterPage.tsx:23-43 | a toggle flips the toggled box and no other |
| Filters.ToggleKeepsNoDuplicates | client/src/components/FilterPage.tsx:23-27 | a toggle keeps a duplicate-free list duplicate-free |
| Filters.ToggleTwiceRestores | client/src/components/FilterPage.tsx:23-27 | toggling an absent value twice restores the list |
| Otp.Initial | client/src/auth/VerifyEmail.tsx:8 | six empty boxes |
| Otp.HandleChange | client/src/auth/VerifyEmail.tsx:16-32 | only the first non-digit is deleted, the first remaining character fills the box, an empty remainder clears it; other boxes are unchanged; focus advances only after an entry and only below the last box |
| Otp.SingleCharacterEntry | client/src/auth/VerifyEmail.tsx:16-27 | one typed digit fills the box, one typed non-digit clears it |
| Otp.TwoLettersKeepSecond | client/src/auth/VerifyEmail.tsx:17 | for the two-character value "ab" the handler leaves "b" in the box |
| Otp.HandleKeyDown | client/src/auth/VerifyEmail.tsx:34-50 | Backspace clears a filled box without moving, and in an empty box moves back unless at the first; the left arrow moves back and the right arrow on, never out of 0..5; any other key does nothing |
| Otp.ArrowsUndoEachOther | client/src/auth/VerifyEmail.tsx:46-49 | right then left comes back to the same box |
| Otp.BackspaceTwice | client/src/auth/VerifyEmail.tsx:35-45 | in a filled box the first Backspace clears it and the second moves to the previous box |
| Otp.HandlePaste | client/src/auth/VerifyEmail.tsx:52-61 | six or more digits fill all boxes with the first six digits, focus the last and cancel the browser's paste; with fewer the handler changes no box and does not cancel the paste |
| Otp.PasteOnPage | client/src/auth/VerifyEmail.tsx:52-108 | a paste with six or more digits is the handler's; a shorter one acts as typing its first character into the focused box, which only an empty box accepts; every other box is unchanged |
| Otp.ShortPasteTypesFirstCharacter | client/src/auth/VerifyEmail.tsx:52-108 | pasting "1Ab2C3" into the empty first box leaves "1" there and moves focus to the second |
| Otp.JoinedLength | client/src/auth/VerifyEmail.tsx:66-67 | the joined text has six characters exactly when every box is filled |
| Otp.HandleVerify | client/src/auth/VerifyEmail.tsx:63-76 | the error appears exactly when some box is empty |
| Otp.LetterCodeCannotBePasted | client/src/auth/VerifyEmail.tsx:52-61 | for a server code holding a letter the handler changes no box and leaves the browser's one-character paste to run |
| Otp.DigitCodePastes | client/src/auth/VerifyEmail.tsx:52-58 | an all-digit server code pastes whole |
| Otp.HandlePasteAlphanumeric | client/src/auth/VerifyEmail.tsx:52-61 | corrected paste: six or more letters and digits fill the boxes and cancel the browser's paste; with fewer the handler changes no box |
| Otp.GeneratedCodePastes | client/src/auth/VerifyEmail.tsx:53 | every code the server generates pastes whole into the corrected handler, which cancels the browser's paste |
| Text.DeleteFirstNonDigit | client/src/auth/VerifyEmail.tsx:17 | the text with only its first non-digit removed |
| Text.Digits | client/src/auth/VerifyEmail.tsx:53 | only digits remain, every digit stays as often as it occurs, and their order is kept |
| Text.Trim | client/src/components/SearchPage.tsx:85 | the trimmed text is no longer than the original and neither starts nor ends with white space |
| Text.TrimStripsBlankEnds | client/src/components/SearchPage.tsx:85 | trimming removes a white-space prefix and a white-space suffix and nothing else |
| Text.Utf16Length | client/src/auth/ResetPassword.tsx:19 | `.length` lies between the number of characters and twice that number |
| Text.Utf16LengthIsLength | client/src/auth/ResetPassword.tsx:19 | `.length` equals the number of characters exactly when every character lies in the Basic Multilingual Plane |
| Text.TrimEmptyIffBlank | client/src/components/SearchPage.tsx:85 | the trimmed query is empty exactly when the query is all white space |
| Text.Split | client/src/admin/Restaurant.tsx:145 | one piece more than there are separators, and no piece holds a separator |
| Text.JoinSplit | client/src/admin/Restaurant.tsx:141-145 | joining the pieces of a split gives the text back |
| Text.SplitJoin | client/src/admin/Restaurant.tsx:141-145 | splitting a join of one or more separator-free pieces gives the pieces back |
| EmailPattern.EmailRegex | client/src/auth/ForgatPassword.tsx:16 | the regular expression itself, anchored at both ends, with its domain repetition unrolled |
| EmailPattern.EmailRegexIffAccepts | client/src/auth/ForgatPassword.tsx:16 | the regular expression accepts exactly one "@" between a non-empty local part and a domain of two or more dot-separated labels, the last of 2 to 4 characters |
| EmailPattern.DomainRegexIffShape | client/src/auth/ForgatPassword.tsx:16 | the domain part of the expression matches exactly the dot-split shape |
| EmailPattern.AcceptedExample | client/src/auth/ForgatPassword.tsx:16 | "a@b.co" is accepted |
| EmailPattern.TwoLabelAddress | client/src/auth/ForgatPassword.tsx:16 | with one dot in the domain, an address passes exactly when the local part is a run of word characters, `-` or `.`, the first label a run of word characters or `-`, and the last label such a run of two to four characters |
| EmailPattern.EndingLengthRejected | client/src/auth/ForgatPassword.tsx:16 | "a@b.c" and "a@b.abcde" are rejected: the last label must have two to four characters |
| EmailPattern.MissingDotRejected | client/src/auth/ForgatPassword.tsx:16 | "a@b" is rejected |
| EmailPattern.SecondAtRejected | client/src/auth/ForgatPassword.tsx:16 | "a@b@c.co" is rejected |
| EmailPattern.EmptyLocalRejected | client/src/auth/ForgatPassword.tsx:16 | "@b.co" is rejected |
| ForgotPasswordForm.Initial | client/src/auth/ForgatPassword.tsx:8-11 | empty address, not loading, not sent, no error |
| ForgotPasswordForm.Submit | client/src/auth/ForgatPassword.tsx:13-25 | the timer starts exactly for addresses the regular expression matches; any other address sets the error and leaves loading and sent alone |
| ForgotPasswordForm.Settle | client/src/auth/ForgatPassword.tsx:21-24 | loading stops and the confirmation shows |
| ForgotPasswordForm.EmptyTestRedundant | client/src/auth/ForgatPassword.tsx:16 | the empty address already fails the regular expression |
| ForgotPasswordForm.SubmitThenSettle | client/src/auth/ForgatPassword.tsx:16-24 | a matching address ends sent, not loading, without error |
| ResetPasswordForm.Check | client/src/auth/ResetPassword.tsx:16-26 | the password error exactly for fewer than 6 UTF-16 code units, the mismatch error exactly for differing fields; no errors exactly when both rules hold |
| ResetPasswordForm.Submit | client/src/auth/ResetPassword.tsx:16-35 | the errors are always replaced; the timer starts with loading on exactly when both rules hold |
| ResetPasswordForm.Settle | client/src/auth/ResetPassword.tsx:29-34 | both fields cleared, loading off, success shown |
| ResetPasswordForm.SurrogatePairsCountTwice | client/src/auth/ResetPassword.tsx:19 | a password of three emoji is six code units long and passes the length rule |
| ResetPasswordForm.RuleExamples | client/src/auth/ResetPassword.tsx:19-26 | a short equal pair is refused; a long mismatched pair gets only the mismatch error; a short mismatched pair gets both |
| UserSchema.RegisterIssues | client/src/schema/userSchema.ts:4-21 | each field message appears exactly when its rule is broken, lengths counted in UTF-16 code units; a missing address gives "Required"; the mismatch appears exactly when the address is present and the passwords differ; no issue outside these nine is ever reported; every issue names one field |
| UserSchema.FieldReports | client/src/schema/userSchema.ts:5-17 | the field checks alone report each broken rule exactly, never the mismatch |
| UserSchema.RegisterIssuesEmptyIff | client/src/schema/userSchema.ts:4-21 | validation succeeds exactly when every register rule holds |
| UserSchema.MissingAddressHidesMismatch | client/src/schema/userSchema.ts:11-21 | without an address, "Required" is reported and the mismatch never is |
| UserSchema.LoginIssues | client/src/schema/userSchema.ts:25-28 | an e-mail issue exactly for a rejected address, a password issue exactly below 6 UTF-16 code units; none exactly when both rules hold |
| FormErrors.Collect | client/src/auth/Register.tsx:66-71 | the error object's keys are exactly the first path elements that occur |
| FormErrors.LastIssueWins | client/src/auth/Register.tsx:66-71 | a key holds the message of the last issue stored under it |
| FormErrors.PathlessIgnored | client/src/auth/Register.tsx:68 | issues without a path change nothing |
| FormErrors.CollectWhen | client/src/auth/Register.tsx:66-71 | visiting a rule's issue stores its message under its field exactly when the rule is broken |
| FormErrors.EmptyIffNoKeyedIssue | client/src/auth/Register.tsx:66-71 | the error object is empty exactly when no issue has a path |
| RegisterForm.Initial | client/src/auth/Register.tsx:31-38 | all text fields empty, terms unchecked, no address, not loading, no errors |
| RegisterForm.Change | client/src/auth/Register.tsx:44-58 | the checkbox sets only the terms flag, any other input sets only its own field, and all errors are cleared |
| RegisterForm.RegisterErrorMap | client/src/auth/Register.tsx:64-72 | the collected register errors hold, under each field, the message of its broken rule and nothing else; under confirmPassword the mismatch message wins over the length message |
| RegisterForm.MismatchHidesShortConfirmation | client/src/schema/userSchema.ts:9-21 | a confirmation that is both short and different shows "Passwords do not match" |
| RegisterForm.Submit | client/src/auth/Register.tsx:60-74 | failure stores the collected schema errors and keeps loading; success turns loading on and starts the timer exactly when every register rule holds |
| RegisterForm.Settle | client/src/auth/Register.tsx:75-88 | the timer restores the initial state |
| RegisterForm.PageNeverSetsAddress | client/src/auth/Register.tsx:115-251 | no input on the page ever sets the address |
| RegisterForm.NoAddressNoSubmit | client/src/auth/Register.tsx:63-74 | without an address submit fails and stores an error under the address key |
| RegisterForm.RegistrationUnreachable | client/src/auth/Register.tsx:31-74 | no sequence of edits on the page leads to a passing submit |
| RegisterForm.InitialWithAddress | client/src/auth/Register.tsx:31-38 | corrected initial state: the address starts as the empty string |
| RegisterForm.FilledInInput | client/src/auth/Register.tsx:44-58 | on the intended page, the seven edits leave exactly the typed values in the form |
| RegisterForm.IntendedPageRegisters | client/src/auth/Register.tsx:31-88 | with an address input, filling every field correctly passes submit |
| LoginForm.Initial | client/src/auth/Login.tsx:11-14 | empty fields, not loading, no errors |
| LoginForm.Change | client/src/auth/Login.tsx:19-25 | only the named field changes and all errors are cleared |
| LoginForm.Submit | client/src/auth/Login.tsx:27-46 | failure stores the collected errors and keeps loading; the timer starts with loading on exactly when both login rules hold; the input never changes |
| LoginForm.Settle | client/src/auth/Login.tsx:42-45 | loading stops, input and errors stay |
| LoginForm.FailedSubmitErrors | client/src/auth/Login.tsx:30-38 | after a failed submit, the error object has exactly one entry per broken rule, with that rule's message |
| LoginForm.LoginErrorMap | client/src/auth/Login.tsx:30-38 | the collected login errors are the e-mail message when the address is rejected plus the password message when it is short |
| RestaurantForm.Initial | client/src/admin/Restaurant.tsx:12-19 | empty texts, zero delivery time, no cuisines, no file, no errors, no restaurant |
| RestaurantForm.ParseCuisines | client/src/admin/Restaurant.tsx:142-146 | one cuisine more than there are commas, none holding a comma, and cuisine i is the i-th comma-separated piece trimmed |
| RestaurantForm.Change | client/src/admin/Restaurant.tsx:27-30 | each event sets its one field: raw text, the number for the delivery time, the parsed list for cuisines, the chosen file |
| RestaurantForm.Submit | client/src/admin/Restaurant.tsx:32-50 | invalid input replaces the errors and starts nothing; valid input turns loading on and starts a timer carrying a copy of the input |
| RestaurantForm.Settle | client/src/admin/Restaurant.tsx:45-49 | the copy becomes the current restaurant and loading stops |
| RestaurantForm.LoadDemo | client/src/admin/Restaurant.tsx:52-67 | the demo record becomes both restaurant and input |
| RestaurantForm.ButtonLabel | client/src/admin/Restaurant.tsx:177-187 | "Please wait" while loading, else "Update Your Restaurant" exactly when a restaurant is present, else "Add Your Restaurant" |
| RestaurantForm.CuisinesRoundTrip | client/src/admin/Restaurant.tsx:141-146 | a non-empty list of trimmed, comma-free names reads back from its display unchanged |
| RestaurantForm.EmptyCuisinesDoNotRoundTrip | client/src/admin/Restaurant.tsx:141-146 | the empty list displays as "" and reads back as one empty name |
| RestaurantForm.StoredCopyIsSubmitTimeInput | client/src/admin/Restaurant.tsx:45-49 | edits made while the timer runs do not reach the stored restaurant, and the button then reads "Update Your Restaurant" |
| EditMenu.TextOr | client/src/admin/EditMenu.tsx:77-78 | a present text is kept, a missing one becomes "" |
| EditMenu.PriceOr | client/src/admin/EditMenu.tsx:79 | a present price is kept, a missing one becomes 0 |
| EditMenu.Init | client/src/admin/EditMenu.tsx:74-83 | a selected item fills name, description and price with "" and 0 defaults and no new file; no selection leaves the input |
| EditMenu.Change | client/src/admin/EditMenu.tsx:44-47 | each event sets its one field: raw text, the number for the price, the chosen file |
| EditMenu.Merge | client/src/admin/EditMenu.tsx:60-67 | the selected item's id is kept, name, description and price come from the input, the image changes only for a new file |
| EditMenu.Submit | client/src/admin/EditMenu.tsx:49-72 | invalid input sets errors, tells the parent nothing and keeps the dialog open; valid input hands over the merged item first, then closes the dialog |
| EditMenu.SaveWithoutEdits | client/src/admin/EditMenu.tsx:60-83 | saving an opened item unedited keeps its id, name, price and image |
| Toast.Initial | client/src/context/toast.tsx:52 | the queue starts empty |
| Toast.Push | client/src/context/toast.tsx:64-66 | the new entry goes behind all waiting ones |
| Toast.Expire | client/src/context/toast.tsx:54-62 | with a timer armed only the oldest entry leaves; with an empty queue nothing happens |
| Toast.Render | client/src/context/toast.tsx:68-74 | the container shows the messages in queue order |
| Toast.FirstInFirstOut | client/src/context/toast.tsx:52-74 | departed entries followed by waiting ones are exactly the entries added, in order |
| Toast.StepKeepsOrder | client/src/context/toast.tsx:54-66 | one push or expiry appends at most the pushed entry to departed-then-waiting |

## Left out

- Mail delivery, bcrypt, `jwt.sign`/`jwt.verify`, `crypto.randomBytes`, `Math.random`, the clock, the image upload and `URL.createObjectURL` are parameters. Their own behaviour is not modelled.
- Express wiring, the database connection, routes and the order controller are not part of this model. Neither are the outbound mail templates.
- The zod e-mail check is a parameter. The restaurant and menu schemas are not part of this model, so their verdicts are parameters too.
- The User model file and its defaults are not part of this model. Fields the handlers never set are `None`.
- `Number(...)`, floating point and `NaN`: prices, quantities and delivery times are integers, and string-to-number conversion is a parameter.
- UserController.Signup: stores `contact` as the string sent rather than as `Number(contact)`, because numeric parsing is not modelled.
- Text.ToLower: lower-cases ASCII letters only. Unicode case mapping is not modelled.
- Concurrency: requests are handled one at a time. Two signups racing on one e-mail are not modelled.
- Exceptions thrown by `next()`, by a database call or by `user.save()` are not modelled. The catch-all 500 replies are modelled only where a parameter can fail: a missing secret, a failed mail, and an error other than a jsonwebtoken one thrown by `jwt.verify` in the guard.
- Timers, focus objects and rendering are modelled as returned flags, captured values and focus indices only. Delays are named constants.
- Presentation-only components are not modelled: navigation bar, hero, footer, profile page, checkout, restaurant detail, available menu, orders, app shell and toast context.
- Otp.PasteOnPage: the browser's default paste is modelled only for a collapsed caret: the focused box takes the first pasted character when it is empty and nothing when it is filled. A selection inside a filled box, and a first character outside the Basic Multilingual Plane, are not modelled.
- Otp.HandleChange: typed letters are handled exactly as written. There is no corrected typing handler, only a corrected paste handler.
- Otp.HandleChange: `replace(/\D/, "")` and `value[0]` work on UTF-16 code units, and the model works on characters. A typed character outside the Basic Multilingual Plane is one non-digit in the model, so it is deleted whole and the box is cleared. In the code only its first surrogate is deleted, and the second surrogate stays in the box. Dafny strings cannot hold a lone surrogate, so this case is not modelled.

## Findings

| source | as written | input that shows it | evidently intended | confidence | as-written member | corrected member |
|---|---|---|---|---|---|---|
| server/src/middlewares/isAuthenticated.ts:56-68 | the catch block tests `JsonWebTokenError` before `TokenExpiredError`, and the latter is a subclass of the former | an expired session token: `jwt.verify` throws `TokenExpiredError` and the reply is 401 "Invalid token" | an expired token answered 401 "Token expired" | high, not executed | SessionGuard.ExpiredBranchUnreachable | SessionGuard.IsAuthenticatedCorrected |
| client/src/auth/Register.tsx:31-38 | the form state has no address and the page has no address input, but the schema requires an address of 5 or more characters | any sequence of edits followed by submit: validation reports "Required" under `address` and the submit never proceeds | an address input whose value starts as "" | high, not executed | RegisterForm.RegistrationUnreachable | RegisterForm.IntendedPageRegisters |
| client/src/auth/VerifyEmail.tsx:53 | the paste handler keeps digits only, while the server mails codes over letters and digits | pasting a mailed code such as "A1b2C3": three digits remain, the handler fills no box, and the browser's own paste at most types the first character | a code entry that accepts every character the server can generate | high, not executed | Otp.LetterCodeCannotBePasted | Otp.GeneratedCodePastes |
