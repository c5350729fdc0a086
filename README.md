# Clinical records backend: a Dafny model

This project models the identity and records layer of a small clinical
records application with four roles (ADMIN, DOCTOR, NURSE, PATIENT). It
covers a TypeScript backend and a few pieces of its React frontend. The
model covers:

- the field cipher that stores personal data as
  `hex(iv):hex(ciphertext):hex(tag)`;
- the audit writer, which never throws;
- the password-reset flow and the login gate with its 30-day password
  rotation;
- the administrator, doctor, nurse and patient services, including the
  administrator's audit-log pagination handler;
- the request-body schemas;
- the HTTP log-level classifier;
- the frontend route guard, the create-patient form and the admin
  dashboard's pager.

How it is put together:

- **Store.** The store is `Store.Database`, a class with one field per
  table. Each method is one store query, and each is specified by an
  operation on `Store.Tables`, the value of the whole store.
- **Services.** Every service has two parts:
  - a pure specification `XSpec(tables, ctx, args): Step<T>`, which gives
    the tables after the call and its result or the error it throws;
  - an imperative method `X(db, ctx, args)` that makes the same calls in
    the same order. It is proved to leave `db` in `XSpec`'s tables and to
    return `XSpec`'s result.

  The lemmas about every path's outcome (its result, its writes, its audit
  rows) are proved about the specification.
- **Context.** `Env.Context` holds what a call sees besides the store:
  the clock in milliseconds, the client's ip and user agent, the cipher
  key and AEAD, bcrypt, the nonces returned by `crypto.randomBytes`,
  bcrypt's salt, the draw behind `crypto.randomInt`, and whether the store
  accepts each audit row.
- **Library primitives.** AES-256-GCM and bcrypt stay abstract. The
  lemmas that need them assume the properties those libraries promise,
  `FieldCipher.Correct` and `Primitives.Sound`, as hypotheses.
- **Byte formats.** The hex and UTF-8 conversions of Node's `Buffer` are
  written out for strings of Unicode scalar values. A Dafny string cannot
  hold an unpaired UTF-16 surrogate, so Node's replacement of one by
  `EF BF BD` is not modelled.
- **`maskEmail`.** doctor.service.ts has its own copy of `maskEmail`,
  identical to the one in auth.service.ts. The model defines it once, as
  `AuthService.MaskEmail`.

## Model

| member | source | states |
|---|---|---|
| Common.Filter | frontend/src/components/CreatePatientForm.tsx:54-59 | `Array.filter` keeps exactly the elements that pass, in order |
| Common.FilterAppend | frontend/src/components/CreatePatientForm.tsx:54-59 | filtering a concatenation is concatenating the filtered halves |
| Common.FilterDistinct | backend/src/services/admin.service.ts:335-337 | removing rows keeps a key unique |
| Common.MapResult | backend/src/services/patient.service.ts:63-90 | `Array.map` with a callback that may throw: it returns exactly when no call throws, one result per element, and otherwise throws the first error |
| Common.SortDescBy | backend/src/services/patient.service.ts:37 | `orderBy: desc` keeps the number of rows |
| Common.SortDescByCorrect | backend/src/services/patient.service.ts:37 | `orderBy: desc` gives the rows newest first, a permutation of them |
| Common.SortedUnique | backend/src/services/admin.service.ts:373 | two newest-first orders of the same rows are the same order when rows with equal keys are equal |
| Common.WindowsTile | backend/src/services/admin.service.ts:371-376 | two adjacent windows of one size are the window twice as long |
| Common.TiesEqualPermutation | backend/src/services/admin.service.ts:373 | reordering rows keeps rows with equal keys equal |
| Common.Window | backend/src/services/admin.service.ts:372-376 | `skip` and `take` give the slice after the skipped rows, at most `take` long, drawn from the rows; a negative `take` counts from the end |
| Common.WindowSorted | backend/src/services/admin.service.ts:372-376 | a window of rows sorted newest first is sorted newest first |
| Common.Split | backend/src/utils/encryptor.ts:31 | `String.split` gives at least one part, none of them holding the separator |
| Common.JoinSplit | backend/src/utils/encryptor.ts:24-31 | joining the parts of a split gives the string back |
| Common.SplitJoin | backend/src/utils/encryptor.ts:24-31 | splitting parts joined by a separator they lack gives the parts back |
| Common.SplitAppend | backend/src/utils/encryptor.ts:31 | splitting at a separator splits each side |
| Common.TrimEmptyIff | frontend/src/components/CreatePatientForm.tsx:55 | `trim()` gives "" exactly for a text of white space only |
| Common.Utf16LengthBounds | backend/src/types/createPatient.type.ts:4 | a string's `length` counts one or two code units per character |
| Common.NatToDecimal | backend/src/middleware/logger.middleware.ts:13 | a number prints as at least one decimal digit |
| Common.DecimalValueOfNatToDecimal | backend/src/middleware/logger.middleware.ts:13 | the printed digits read back as the number |
| Common.ToUpperAscii | frontend/src/components/protectedRoute.tsx:12 | `toUpperCase` upper-cases each character and keeps the length |
| Hex.HexDigit | backend/src/utils/encryptor.ts:21-23 | a nibble becomes a lower-case hex character whose value is that nibble |
| Hex.HexValue | backend/src/utils/encryptor.ts:35-37 | a hex character's value is below 16 |
| Hex.Encode | backend/src/utils/encryptor.ts:21-23 | `Buffer.toString("hex")` gives two characters per byte |
| Hex.Decode | backend/src/utils/encryptor.ts:35-37 | `Buffer.from(s, "hex")` yields at most one byte per two characters |
| Hex.EncodeDigits | backend/src/utils/encryptor.ts:21-23 | every character of an encoding is a hex digit |
| Hex.EncodeHasNoColon | backend/src/utils/encryptor.ts:20-24 | an encoding never contains the `:` separator |
| Hex.DecodeEncode | backend/src/utils/encryptor.ts:21-37 | decoding an encoding gives back every byte buffer |
| Utf8.EncodeChar | backend/src/utils/encryptor.ts:15 | a code point takes one to four UTF-8 bytes |
| Utf8.DecodeOne | backend/src/utils/encryptor.ts:46 | one decoding step consumes one to as many bytes as remain |
| Utf8.DecodeTwoBytes | backend/src/utils/encryptor.ts:46 | a two-byte sequence decodes to its code point |
| Utf8.DecodeThreeBytes | backend/src/utils/encryptor.ts:46 | a three-byte sequence decodes to its code point |
| Utf8.DecodeFourBytes | backend/src/utils/encryptor.ts:46 | a four-byte sequence decodes to its code point |
| Utf8.DecodeOneEncodeChar | backend/src/utils/encryptor.ts:15-46 | decoding the bytes of one character, whatever follows, gives that character and its length |
| Utf8.DecodeEncode | backend/src/utils/encryptor.ts:15-46 | `toString("utf8")` undoes `update(text, "utf8")` on every string of Unicode scalar values |
| Utf8.EncodeEmpty | backend/src/utils/encryptor.ts:15 | only the empty text encodes to no bytes |
| FieldCipher.LoadKey | backend/src/utils/encryptor.ts:4-8 | the module loads exactly when the key is 32 bytes, and otherwise throws its message |
| FieldCipher.DecryptAbsent | backend/src/utils/encryptor.ts:27-30 | null, undefined and "" decrypt to "" |
| FieldCipher.DecryptMissingField | backend/src/utils/encryptor.ts:31-34 | a missing or empty iv, ciphertext or tag field gives "" without throwing |
| FieldCipher.DecryptPlaintext | backend/src/utils/encryptor.ts:31-34 | a stored text without `:` decrypts to "" |
| FieldCipher.EncryptSplits | backend/src/utils/encryptor.ts:20-24 | splitting a ciphertext on `:` gives exactly the hex of the iv, the ciphertext and the tag |
| FieldCipher.EncryptFields | backend/src/utils/encryptor.ts:11-24 | under a correct cipher there are exactly three fields: the 24-digit hex of the nonce, a ciphertext of two digits per UTF-8 byte of the text, and a 32-digit tag |
| FieldCipher.EncryptHasColon | backend/src/utils/encryptor.ts:20-24 | every ciphertext contains `:` |
| FieldCipher.DecryptThreeFields | backend/src/utils/encryptor.ts:31-46 | three non-empty fields are hex-decoded and handed to the cipher; its failure is thrown, its plaintext UTF-8 decoded |
| FieldCipher.DecryptEncrypt | backend/src/utils/encryptor.ts:10-47 | under a correct cipher `decrypt(encrypt(x)) == x` for every string of Unicode scalar values, "" included |
| FieldCipher.EncryptDependsOnNonce | backend/src/utils/encryptor.ts:11-24 | two different nonces give two different ciphertexts of the same text |
| FieldCipher.DecryptIgnoresExtraFields | backend/src/utils/encryptor.ts:31 | fields after the third `:` do not change what `decrypt` returns |
| Audit.WriteAuditLog | backend/src/utils/audit.ts:3-19 | the call returns normally and the new store is the old one with the row appended when the store accepts it, unchanged otherwise |
| Audit.AppendEffect | backend/src/utils/audit.ts:14-18 | an accepted write appends exactly the given row; a refused one changes nothing; no other table is touched |
| Audit.AppendOnly | backend/src/utils/audit.ts:3-19 | the old log is a prefix of the new one, which is at most one row longer |
| Primitives.RandomInt | backend/src/services/auth.service.ts:47 | `crypto.randomInt(min, max)` lies in [min, max), the upper bound excluded |
| Primitives.RandomIntCovers | backend/src/services/auth.service.ts:47 | every value of [min, max) is some draw's result |
| FieldCipher.Encrypt | backend/src/utils/encryptor.ts:10-25 | `encrypt`: the UTF-8 bytes sealed under a fresh 12-byte nonce, printed as `iv:ciphertext:tag` in hex; FieldCipher.EncryptFields and FieldCipher.EncryptSplits state its format, FieldCipher.DecryptEncrypt its inverse |
| FieldCipher.Decrypt | backend/src/utils/encryptor.ts:27-47 | `decrypt`: "" for a missing value or a missing field, else the opened plaintext or the cipher's error; FieldCipher.DecryptAbsent, FieldCipher.DecryptMissingField and FieldCipher.DecryptThreeFields state its cases |
| Store.FindByEmail | backend/src/services/auth.service.ts:25 | a user found has that e-mail and is in the table; none is found exactly when no user has it |
| Store.FindById | backend/src/services/patient.service.ts:17-20 | a user found has that id and is in the table; none is found exactly when no user has it |
| Store.RecordOf | backend/src/services/doctor.service.ts:60-68 | a record found belongs to the patient and is in the table; none exactly when the patient has no record |
| Store.WithPassword | backend/src/services/auth.service.ts:120-123 | only the rows with that id take the new hash |
| Store.FindByEmailWithPassword | backend/src/services/auth.service.ts:120-123 | after a password update the same user is found by e-mail, with the new hash when it is the one updated |
| Store.FindByEmailAppend | backend/src/services/admin.service.ts:19-37 | a user created with a free e-mail is the one found by it afterwards |
| Store.AddUserValid | backend/src/services/admin.service.ts:19-37 | creating a user with a free e-mail keeps ids and e-mails unique |
| Store.AddPatientRows | backend/src/services/doctor.service.ts:171-199 | the nested create adds one user and one record for it, with one note per given note and one unchecked medication per given medication, and touches no other table |
| Store.AddPatientValid | backend/src/services/doctor.service.ts:159-199 | creating a patient with a free e-mail keeps ids, e-mails and one record per patient unique |
| Store.DropAssignmentsValid | backend/src/services/admin.service.ts:335 | deleting a doctor's assignments keeps the store's constraints |
| Store.DropRecordsValid | backend/src/services/admin.service.ts:336 | deleting a doctor's records keeps the store's constraints |
| Store.DropUserValid | backend/src/services/admin.service.ts:337 | deleting a user keeps the store's constraints |
| Store.Database.CreateUser | backend/src/services/admin.service.ts:29-37 | `user.create` appends the draft with the next id and returns it |
| Store.Database.UpsertResetCode | backend/src/services/auth.service.ts:50-54 | the user's reset code is set, created or replaced |
| Store.Database.DeleteResetCode | backend/src/services/auth.service.ts:125 | the user's reset code is removed |
| Store.Database.UpdatePassword | backend/src/services/auth.service.ts:120-123 | the user's password hash is replaced |
| Store.Database.CreateAssignment | backend/src/services/admin.service.ts:107-112 | one assignment is appended |
| Store.Database.DeleteAssignmentsOf | backend/src/services/admin.service.ts:335 | every assignment of the doctor is removed, the others kept in order |
| Store.Database.DeleteRecordsOf | backend/src/services/admin.service.ts:336 | every record of the doctor is removed, the others kept in order |
| Store.Database.DeleteUser | backend/src/services/admin.service.ts:337 | the user with that id is removed |
| Store.Database.CreatePatient | backend/src/services/doctor.service.ts:171-199 | the nested create's new store, user and record are those of `AddPatient` |
| Store.Database.CreateAuditRow | backend/src/utils/audit.ts:15 | one audit row is appended |
| Env.DecEnc | backend/src/utils/encryptor.ts:1-47 | under a correct cipher a call's `decrypt` undoes its k-th `encrypt` |
| Env.WriteLog | backend/src/utils/audit.ts:3-19 | the new store is that of `Log`: the row with this call's time appended when the store accepts it |
| Env.Caught | backend/src/services/admin.service.ts:52-65 | the catch block rethrows the same result and writes nothing on success |
| Env.CatchLog | backend/src/services/admin.service.ts:52-65 | on an error the catch block writes its audit; on success it writes nothing |
| Env.LogEffect | backend/src/utils/audit.ts:3-19 | an audit write appends its row when the store is up, keeps the old log as a prefix and touches no other table |
| Store.Valid | backend/src/services/doctor.service.ts:229-231 | the store's constraints: unique ids, unique e-mails (the violation `P2002` reports), ids below the next one, and at most one record per patient; Store.AddUserValid, Store.AddPatientValid, Store.DropUserValid and the other `Valid` lemmas state that each write keeps it |
| AuthService.MaskEmailShape | backend/src/services/auth.service.ts:13-16 | `local@domain` masks to the first character of `local`, `***@`, then `domain` |
| AuthService.MaskEmailDropsRest | backend/src/services/auth.service.ts:13-16 | text after a second `@` is dropped from the mask |
| AuthService.MaskOfParts | backend/src/services/auth.service.ts:14-15 | the mask is built from the first two parts of `split("@")` |
| AuthService.MaskEmailDegenerate | backend/src/services/auth.service.ts:13-16 | without `@` the domain prints as `undefined`, and an empty local part prints its first character as `undefined` |
| AuthService.ResetCodeShape | backend/src/services/auth.service.ts:47 | a reset code is six decimal digits denoting 100000 to 999998; 999999 is never issued because the upper bound is exclusive |
| AuthService.RequestPasswordReset | backend/src/services/auth.service.ts:18-71 | the new store and the result are those of `RequestPasswordResetSpec` |
| AuthService.RequestResetUnknownEmail | backend/src/services/auth.service.ts:27-45 | an unknown e-mail raises NotFound, touches no table but the audit log, and appends one failed audit by `UNKNOWN` with reason `EMAIL_NOT_FOUND` |
| AuthService.RequestResetKnownEmail | backend/src/services/auth.service.ts:47-68 | a known user gets a six-digit code in [100000, 999998] expiring at now + 900000 ms; no other user's code changes, the users are unchanged, and one success audit is appended |
| AuthService.ResetPassword | backend/src/services/auth.service.ts:73-142 | the new store and the result are those of `ResetPasswordSpec` |
| AuthService.ResetUnknownEmail | backend/src/services/auth.service.ts:84-90 | an unknown e-mail raises NotFound and writes nothing, not even an audit |
| AuthService.ResetInvalidCode | backend/src/services/auth.service.ts:96-112 | a missing or different code raises Unauthorized, leaves password and code in place, and appends one failed `INVALID_CODE` audit |
| AuthService.ResetExpired | backend/src/services/auth.service.ts:114-117 | a matching code with `expiresAt < now` raises Unauthorized and writes nothing at all |
| AuthService.ResetSucceeds | backend/src/services/auth.service.ts:119-141 | a matching, unexpired code (expiry equal to now included) sets exactly that user's password to the hash of the new one, nothing else in any user changes (`passwordUpdatedAt` included), and the result is the success message |
| AuthService.ResetFindsUser | backend/src/services/auth.service.ts:119-123 | after a successful reset the e-mail finds the same user with the new hash |
| AuthService.ResetConsumesCode | backend/src/services/auth.service.ts:125-139 | a successful reset deletes exactly that user's code and appends one success audit |
| AuthService.ResetTables | backend/src/services/auth.service.ts:119-139 | a successful reset is password update, then code delete, then audit, in that order |
| AuthService.ResetCodeSingleUse | backend/src/services/auth.service.ts:96-125 | after a successful reset the same code is refused as invalid |
| AuthService.RequestThenReset | backend/src/services/auth.service.ts:47-123 | the code a request issues resets the password until 15 minutes have passed, and is refused as expired after |
| AuthService.Login | backend/src/services/auth.service.ts:143-236 | the new store and the result are those of `LoginSpec`, the catch block's audit included |
| AuthService.LoginAttempt | backend/src/services/auth.service.ts:151-219 | the try block: on success the store is `LoginSpec`'s; on an error it is `LoginSpec`'s minus the catch block's audit |
| AuthService.LoginOnlyAudits | backend/src/services/auth.service.ts:143-236 | login changes nothing but the audit log, and only appends to it |
| AuthService.LoginUnknownEmail | backend/src/services/auth.service.ts:157-234 | an unknown e-mail raises Unauthorized after two audits: `EMAIL_NOT_FOUND` and the catch block's error |
| AuthService.LoginStale | backend/src/services/auth.service.ts:174-234 | a password never stamped or older than 30 days raises the change-password error with one audit, the catch block's, before any comparison |
| AuthService.ThirtyDayBoundary | backend/src/services/auth.service.ts:153-177 | a password exactly 30 days old is not stale; one millisecond more is |
| AuthService.LoginBadPassword | backend/src/services/auth.service.ts:183-234 | a wrong password raises Unauthorized after two audits, the first naming the user with `INVALID_PASSWORD` |
| AuthService.LoginSucceeds | backend/src/services/auth.service.ts:183-219 | under a sound bcrypt, a fresh password that hashes to the stored one returns the user unchanged with one success audit |
| AuthService.RequestIgnoresAuditStore | backend/src/services/auth.service.ts:18-71 | whether the audit store is up changes neither a reset request's result nor any table but the audit log |
| AuthService.ResetIgnoresAuditStore | backend/src/services/auth.service.ts:73-142 | the same for a reset |
| AuthService.LoginIgnoresAuditStore | backend/src/services/auth.service.ts:143-236 | the same for a login's result |
| AuthService.StaleUserLockedOutAfterReset | backend/src/services/auth.service.ts:120-181 | as written: a user whose password is stale stays locked out after a successful reset, because the reset does not stamp `passwordUpdatedAt` |
| AuthService.WithPasswordTime | backend/src/services/auth.service.ts:120-123 | stamping `passwordUpdatedAt` changes that one user and nothing else |
| AuthService.FindByEmailWithPasswordTime | backend/src/services/auth.service.ts:82 | the stamp does not change which user an e-mail finds |
| AuthService.StampedResetUnlocksLogin | backend/src/services/auth.service.ts:120-183 | corrected: with the stamp, logging in with the new password within 30 days of the reset succeeds |
| AuthService.MaskEmail | backend/src/services/auth.service.ts:13-16 | `maskEmail`; AuthService.MaskEmailShape, AuthService.MaskEmailDropsRest and AuthService.MaskEmailDegenerate state its output |
| AuthService.RequestPasswordResetSpec | backend/src/services/auth.service.ts:18-71 | `requestPasswordReset`'s outcome and writes on every path; AuthService.RequestResetUnknownEmail and AuthService.RequestResetKnownEmail state them |
| AuthService.ResetPasswordSpec | backend/src/services/auth.service.ts:73-142 | `resetPassword`'s outcome and writes on every path; AuthService.ResetUnknownEmail, AuthService.ResetInvalidCode, AuthService.ResetExpired and AuthService.ResetSucceeds state them |
| AuthService.PasswordStale | backend/src/services/auth.service.ts:173-180 | a password never stamped or stamped more than 30 days before `now`; AuthService.ThirtyDayBoundary states the boundary |
| AuthService.LoginSpec | backend/src/services/auth.service.ts:143-236 | `login`'s outcome and audit rows on every path; AuthService.LoginUnknownEmail, AuthService.LoginStale, AuthService.LoginBadPassword and AuthService.LoginSucceeds state them |
| AdminService.CreateDoctor | backend/src/services/admin.service.ts:8-66 | the new store and the result are those of `CreateDoctorSpec`, the catch block's audit included |
| AdminService.CreateDoctorEmailTaken | backend/src/services/admin.service.ts:19-65 | a used e-mail raises AppError 400 "Email already in use", creates no user, and appends exactly the catch block's failure audit |
| AdminService.CreateDoctorSucceeds | backend/src/services/admin.service.ts:27-51 | a free e-mail adds exactly one user at the end: a DOCTOR with the plaintext e-mail, `passwordUpdatedAt = now` and the next id, found by that e-mail; assignments and records are untouched |
| AdminService.CreateDoctorCredentials | backend/src/services/admin.service.ts:27-33 | the stored name decrypts to the given name and the stored hash accepts the given password |
| AdminService.CreateDoctorAudited | backend/src/services/admin.service.ts:39-48 | the create keeps the store's invariants and appends one `CREATE_DOCTOR` audit targeting the new doctor |
| AdminService.CreatedDoctorCanLogIn | backend/src/services/admin.service.ts:27-37 | a doctor just created logs in with the given password for 30 days |
| AdminService.CreateNurse | backend/src/services/admin.service.ts:68-147 | the new store and the result are those of `CreateNurseSpec`, the catch block's audit included |
| AdminService.CreateNurseNeedsDoctor | backend/src/services/admin.service.ts:80-146 | a missing or non-DOCTOR `doctorId` raises NotFound before the e-mail check, creates nothing, and appends the catch block's audit |
| AdminService.CreateNurseEmailTaken | backend/src/services/admin.service.ts:88-93 | with a doctor, a used e-mail raises AppError 400 and touches no table but the audit log |
| AdminService.CreateNurseSucceeds | backend/src/services/admin.service.ts:95-132 | success adds one NURSE user and exactly one assignment (nurse, doctor), keeps the store's invariants, and appends one audit naming the nurse with `{ doctorId }` |
| AdminService.RecordIdsOf | backend/src/services/admin.service.ts:177-181 | one id per record of the doctor |
| AdminService.DoctorViewKeeps | backend/src/services/admin.service.ts:185-188 | a doctor's view keeps the id, the stored e-mail and the role |
| AdminService.GetAllDoctors | backend/src/services/admin.service.ts:149-229 | the new store and the result are those of `GetAllDoctorsSpec` |
| AdminService.GetAllDoctorsShape | backend/src/services/admin.service.ts:157-197 | one view per DOCTOR user in store order, with its id, stored e-mail and role; the only error is a `decrypt` that throws |
| AdminService.GetAllDoctorsWritesOnlyAudit | backend/src/services/admin.service.ts:199-227 | the listing writes nothing but audit rows |
| AdminService.DoctorListingBlanksNurseEmail | backend/src/services/admin.service.ts:194 | as written: a nurse e-mail stored in plaintext without `:` is listed as "" |
| AdminService.CorrectedListingKeepsNurseEmail | backend/src/services/admin.service.ts:189-196 | corrected: every nurse of every doctor is listed with the e-mail as stored |
| AdminService.SafeDecryptCases | backend/src/services/admin.service.ts:264-274 | a value without `:` or not of exactly three fields is returned unchanged; under a correct cipher an `encrypt` result comes back as its plaintext |
| AdminService.SafeDecryptFailure | backend/src/services/admin.service.ts:267-271 | when `decrypt` throws, the value is returned unchanged |
| AdminService.GetAllNurses | backend/src/services/admin.service.ts:231-320 | the new store and the result are those of `GetAllNursesSpec` |
| AdminService.GetAllNursesShape | backend/src/services/admin.service.ts:239-305 | success, one view per NURSE user in store order, with one doctor per assignment of that nurse whose doctor exists, in order; nothing but the audit is written |
| AdminService.DeleteDoctor | backend/src/services/admin.service.ts:322-366 | the new store and the result are those of `DeleteDoctorSpec` |
| AdminService.DeleteDoctorNotFound | backend/src/services/admin.service.ts:331-365 | a missing or non-DOCTOR id raises NotFound, removes nothing, and appends one failure audit |
| AdminService.DeleteDoctorCascade | backend/src/services/admin.service.ts:335-351 | success removes exactly the doctor, the assignments and the records with that `doctorId`, keeps every other user, row and reset code |
| AdminService.DeleteDoctorAudited | backend/src/services/admin.service.ts:339-348 | the delete keeps the store's invariants and appends one `DELETE_DOCTOR` audit |
| AdminService.GetAllAuditLogs | backend/src/services/admin.service.ts:368-381 | the result is `GetAllAuditLogsSpec` of the store, and nothing is written |
| AdminService.AuditPageShape | backend/src/services/admin.service.ts:368-381 | a page is refused exactly when `(page - 1) * limit` is negative; otherwise it echoes page and limit, counts every row, and holds at most `abs(limit)` rows, newest first, each a row of the log |
| AdminService.SpecIsPageAt | backend/src/services/admin.service.ts:369 | the service skips `(page - 1) * limit` rows |
| AdminService.PageAtShape | backend/src/services/admin.service.ts:371-380 | the same shape for any skip |
| AdminService.AuditFirstPage | backend/src/services/admin.service.ts:368 | without arguments the page is the newest 50 rows, page 1, limit 50 |
| AdminService.AuditPagesTile | backend/src/services/admin.service.ts:369-376 | two consecutive pages together are the contiguous slice of the newest-first log they cover |
| AdminService.NumberedPagesTile | backend/src/services/admin.service.ts:369-376 | pages `p` and `p + 1`, each skipping `(p - 1) * limit` rows for its own number, together are the slice of the newest-first log they cover |
| AdminService.ConsecutivePages | backend/src/services/admin.service.ts:371-376 | two adjacent windows of the sorted log concatenate to one window |
| AdminService.AuditPagesTileAnyOrder | backend/src/services/admin.service.ts:371-376 | when rows with equal timestamps are equal, a page skipping `lo` rows and the next one, each cut from its own newest-first order of the log, together are the slice of the log they cover |
| AdminService.NewestUnique | backend/src/services/admin.service.ts:373 | when rows with equal timestamps are equal, every newest-first order of the log is the model's |
| AdminService.AuditNegativeLimit | backend/src/services/admin.service.ts:374-375 | page 1 with a negative limit returns the last `-limit` rows, as the store reads a negative `take` |
| AdminService.CreateDoctorSpec | backend/src/services/admin.service.ts:8-66 | `createDoctor`'s outcome and writes; AdminService.CreateDoctorEmailTaken and AdminService.CreateDoctorSucceeds state them |
| AdminService.CreateNurseSpec | backend/src/services/admin.service.ts:68-147 | `createNurse`'s outcome and writes; AdminService.CreateNurseNeedsDoctor, AdminService.CreateNurseEmailTaken and AdminService.CreateNurseSucceeds state them |
| AdminService.GetAllDoctorsSpec | backend/src/services/admin.service.ts:149-229 | `getAllDoctors`'s listing and audit row; AdminService.GetAllDoctorsShape and AdminService.GetAllDoctorsWritesOnlyAudit state them |
| AdminService.SafeDecrypt | backend/src/services/admin.service.ts:264-274 | `safeDecrypt`: the decrypted value, or the stored value itself when `decrypt` throws; AdminService.SafeDecryptCases and AdminService.SafeDecryptFailure state its cases |
| AdminService.GetAllNursesSpec | backend/src/services/admin.service.ts:231-320 | `getAllNurses`'s listing and audit row; AdminService.GetAllNursesShape states them |
| AdminService.DeleteDoctorSpec | backend/src/services/admin.service.ts:322-366 | `deleteDoctor`'s outcome and cascade; AdminService.DeleteDoctorNotFound, AdminService.DeleteDoctorCascade and AdminService.DeleteDoctorAudited state them |
| AdminService.GetAllAuditLogsSpec | backend/src/services/admin.service.ts:368-381 | `getAllAuditLogs`: a newest-first window of the log with its total; AdminService.AuditPageShape, AdminService.AuditFirstPage and AdminService.AuditPagesTile state it |
| AdminController.DigitRun | backend/src/controllers/admin.controller.ts:135-136 | the longest prefix of digits that `parseInt` reads |
| AdminController.DigitRunPrefix | backend/src/controllers/admin.controller.ts:135-136 | digits followed by a non-digit are read up to the non-digit |
| AdminController.RunValueDecimal | backend/src/controllers/admin.controller.ts:135-136 | a run of decimal digits is read at its decimal value |
| AdminController.NatToDecimalLeading | backend/src/controllers/admin.controller.ts:135-136 | a positive number prints without a leading zero, so `parseInt` does not see a `0x` prefix |
| AdminController.ParseUnsignedDecimal | backend/src/controllers/admin.controller.ts:135-136 | an unsigned decimal, whatever non-digit follows, reads as its value |
| AdminController.ParseIntDecimal | backend/src/controllers/admin.controller.ts:135-136 | `parseInt` of a printed number, with any trailing non-digit text, gives that number |
| AdminController.ParseIntNegative | backend/src/controllers/admin.controller.ts:135-136 | a leading `-` negates the value |
| AdminController.ParseIntLenient | backend/src/controllers/admin.controller.ts:135-136 | leading white space is skipped and trailing text ignored: `" 7"` is 7 and `"12abc"` is 12 |
| AdminController.ParseIntHex | backend/src/controllers/admin.controller.ts:135-136 | a `0x` prefix reads hexadecimal, and `"0x"` alone is NaN |
| AdminController.ParseIntNaN | backend/src/controllers/admin.controller.ts:135-136 | no digits at all give NaN |
| AdminController.QueryNumber | backend/src/controllers/admin.controller.ts:135-136 | `parseInt(x) \|\| k` is never 0 for a non-zero default, and is either the default or the parsed number |
| AdminController.QueryNumberDefaults | backend/src/controllers/admin.controller.ts:135-136 | a missing, empty, non-numeric or zero query gives the default; a positive number gives itself |
| AdminController.CeilDiv | backend/src/controllers/admin.controller.ts:143 | `Math.ceil(total / limit)`: the least page count whose pages hold `total` rows, for either sign of `limit` |
| AdminController.ErrorReplyMapping | backend/src/controllers/admin.controller.ts:30-129 | an AppError replies with its own status and message; any other error with 500 "Internal server error" |
| AdminController.CreateDoctorReplies | backend/src/controllers/admin.controller.ts:6-36 | a used e-mail replies 400 "Email already in use"; otherwise 201 with the new doctor |
| AdminController.CreateNurseReplies | backend/src/controllers/admin.controller.ts:38-69 | no doctor replies 404; a used e-mail 400; otherwise 201 "Nurse created and assigned successfully" |
| AdminController.DeleteDoctorReplies | backend/src/controllers/admin.controller.ts:107-131 | no doctor replies 404 "Doctor not found"; otherwise 200 "Doctor deleted successfully" |
| AdminController.ListingReplies | backend/src/controllers/admin.controller.ts:71-105 | the doctor listing replies 200 exactly when its service succeeds and 500 otherwise, AppError included; the nurse listing always replies 200 |
| AdminController.AuditLogsDefaults | backend/src/controllers/admin.controller.ts:133-144 | without a query: 200, page 1, limit 50, the newest 50 rows, `totalPages = ceil(total / 50)` |
| AdminController.AuditLogsPageRange | backend/src/controllers/admin.controller.ts:133-144 | for positive page and limit queries: 200, echoed meta, at most `limit` rows, and rows exactly while `page <= totalPages` |
| AdminController.PageRange | backend/src/controllers/admin.controller.ts:138-144 | the same for the numbers once parsed |
| AdminController.PageHasRows | backend/src/controllers/admin.controller.ts:143 | `page <= ceil(n / limit)` exactly when the page's skip is below `n` |
| AdminController.AuditLogsNegativePage | backend/src/controllers/admin.controller.ts:135-148 | `page=-1` passes the default, the store refuses the negative skip, and the reply is 500 |
| AdminController.ParseInt | backend/src/controllers/admin.controller.ts:135-136 | `parseInt` with no radix; AdminController.ParseIntDecimal, AdminController.ParseIntNegative, AdminController.ParseIntLenient, AdminController.ParseIntHex and AdminController.ParseIntNaN state what it reads |
| AdminController.ErrorReply | backend/src/controllers/admin.controller.ts:30-34 | an AppError's own status and message, anything else a 500; AdminController.ErrorReplyMapping states the statuses |
| DoctorService.NoteViewKeeps | backend/src/services/doctor.service.ts:113-117 | a note's view exists exactly when its text and its doctor's name decrypt, and keeps its id, time and doctor with the decrypted text |
| DoctorService.GetDoctorPatients | backend/src/services/doctor.service.ts:18-149 | the new store and the result are those of `GetDoctorPatientsSpec` |
| DoctorService.GetDoctorPatientsUnknown | backend/src/services/doctor.service.ts:30-43 | a missing doctor raises NotFound after one failure audit by `UNKNOWN` with reason `DOCTOR_NOT_FOUND`, and nothing else is written |
| DoctorService.GetDoctorPatientsNotDoctor | backend/src/services/doctor.service.ts:45-58 | a user of another role raises Unauthorized after one failure audit carrying that role and `USER_NOT_DOCTOR` |
| DoctorService.PatientsOfExactly | backend/src/services/doctor.service.ts:60-68 | the patients listed are exactly the PATIENT users whose record names the doctor |
| DoctorService.PatientViewKeeps | backend/src/services/doctor.service.ts:106-128 | a patient's view keeps id, record id and the numbers of notes and medications; a null or empty diagnosis stays null, any other is decrypted |
| DoctorService.ListPatientsOutcome | backend/src/services/doctor.service.ts:60-148 | for a doctor: the views and one success audit counting them, or a cipher error and nothing written |
| DoctorService.GetDoctorPatientsLists | backend/src/services/doctor.service.ts:60-148 | one view per listed patient, in order, with the patient's record; one audit whose `count` is the number returned; a throwing `decrypt` writes nothing |
| DoctorService.ListingBlanksPatientEmail | backend/src/services/doctor.service.ts:109 | as written: a patient e-mail stored in plaintext without `:` is listed as "" |
| DoctorService.CorrectedListingKeepsPatientEmail | backend/src/services/doctor.service.ts:106-110 | corrected: every patient is listed with the e-mail as stored |
| DoctorService.NoteCiphers | backend/src/services/doctor.service.ts:184-187 | one ciphertext per note |
| DoctorService.NoteCiphersAt | backend/src/services/doctor.service.ts:184-187 | note i is the encryption of the i-th note, after name and diagnosis |
| DoctorService.MedicationCiphers | backend/src/services/doctor.service.ts:191-195 | one encrypted medication per medication |
| DoctorService.MedicationCiphersAt | backend/src/services/doctor.service.ts:191-195 | medication j's name, dosage and schedule are encrypted in that order, after the notes |
| DoctorService.CreatePatient | backend/src/services/doctor.service.ts:151-235 | the new store and the result are those of `CreatePatientSpec` |
| DoctorService.CreatePatientAttempt | backend/src/services/doctor.service.ts:168-227 | the try block's store and result are those of `CreatePatientTry` |
| DoctorService.InsertPatient | backend/src/services/doctor.service.ts:169-227 | the nested create followed by the audit and the returned view, as `InsertStep` |
| DoctorService.FinishCreate | backend/src/services/doctor.service.ts:210-227 | the audit and then the decrypted view, as `AuditedCreate` |
| DoctorService.CreatePatientGates | backend/src/services/doctor.service.ts:164-166 | a missing doctor raises NotFound and a non-DOCTOR Unauthorized, before any write and with no audit |
| DoctorService.CreatePatientEmailTaken | backend/src/services/doctor.service.ts:229-231 | a used e-mail (the store's unique-email violation) becomes ConflictError with nothing written |
| DoctorService.CreatePatientTryOutcome | backend/src/services/doctor.service.ts:169-227 | with a free e-mail the try block inserts, audits, and returns the decrypted view or a cipher error |
| DoctorService.CreatePatientIsTry | backend/src/services/doctor.service.ts:228-234 | for a doctor and a free e-mail the catch block rethrows unchanged: the call is its try block, whose only error is a cipher error |
| DoctorService.CreatePatientStores | backend/src/services/doctor.service.ts:171-178 | one user is appended: a PATIENT with the next id, plaintext e-mail, encrypted name and diagnosis ("Not provided" when absent), the password's hash and `passwordUpdatedAt = now`; earlier users, records, assignments and codes are kept |
| DoctorService.CreatePatientEffects | backend/src/services/doctor.service.ts:171-227 | one user and one record are added, one `CREATE_PATIENT` audit naming the new patient is appended, and the reply holds that user and record |
| DoctorService.CreatePatientKeepsValid | backend/src/services/doctor.service.ts:171-208 | the create keeps the store's key and reference invariants |
| DoctorService.CreatedRows | backend/src/services/doctor.service.ts:171-220 | the create is the nested insert followed by the audit; the record names the new patient |
| DoctorService.CreatePatientRecord | backend/src/services/doctor.service.ts:179-188 | the record names the patient and the doctor and holds one note per input note, encrypted, by the doctor, at now |
| DoctorService.CreatePatientMedications | backend/src/services/doctor.service.ts:189-196 | the record holds one medication per input medication, its texts encrypted and no checks |
| DoctorService.NoteCiphersDecrypt | backend/src/services/doctor.service.ts:184-187 | under a correct cipher each stored note decrypts to its input |
| DoctorService.MedicationCiphersDecrypt | backend/src/services/doctor.service.ts:191-195 | under a correct cipher each stored medication text decrypts to its input |
| DoctorService.CreatePatientStoresPlaintext | backend/src/services/doctor.service.ts:173-175 | under a correct cipher the stored name and diagnosis decrypt to the input, "Not provided" for an absent diagnosis |
| DoctorService.CreatePatientNotesRoundTrip | backend/src/services/doctor.service.ts:182-188 | absent notes create none; otherwise each stored note decrypts to its input |
| DoctorService.CreatePatientMedicationsRoundTrip | backend/src/services/doctor.service.ts:189-196 | absent medications create none; otherwise each stored text decrypts to its input |
| DoctorService.CreatePatientReturns | backend/src/services/doctor.service.ts:222-227 | under a correct cipher the reply shows the new id, the plaintext name and diagnosis, and an e-mail without `:` as "" |
| DoctorService.GetDoctorPatientsSpec | backend/src/services/doctor.service.ts:18-149 | `getDoctorPatients`'s outcome and audit rows; DoctorService.GetDoctorPatientsUnknown, DoctorService.GetDoctorPatientsNotDoctor and DoctorService.GetDoctorPatientsLists state them |
| DoctorService.CreatePatientSpec | backend/src/services/doctor.service.ts:151-235 | `createPatient`'s outcome and writes; DoctorService.CreatePatientGates, DoctorService.CreatePatientEmailTaken and DoctorService.CreatePatientEffects state them |
| NurseService.AssignedDoctorIds | backend/src/services/nurse.service.ts:46-51 | an id is listed exactly when some assignment links the nurse to that doctor |
| NurseService.GetAssignedPatients | backend/src/services/nurse.service.ts:6-99 | the new store and the result are those of `GetAssignedPatientsSpec` |
| NurseService.GetAssignedPatientsUnknown | backend/src/services/nurse.service.ts:18-30 | a missing nurse raises NotFound after one failure audit by `UNKNOWN` with `NURSE_NOT_FOUND` |
| NurseService.GetAssignedPatientsNotNurse | backend/src/services/nurse.service.ts:32-44 | a user of another role raises Unauthorized after one failure audit carrying that role and `USER_NOT_NURSE` |
| NurseService.AssignedRecordsExactly | backend/src/services/nurse.service.ts:46-62 | a record is listed exactly when its doctor is assigned to the nurse |
| NurseService.CheckedExactly | backend/src/services/nurse.service.ts:59-78 | a medication is `checked` exactly when this nurse has checked it at least once; its other fields are copied |
| NurseService.GetAssignedPatientsLists | backend/src/services/nurse.service.ts:46-98 | one view per assigned record, in order, with name, e-mail, diagnosis, doctor name and medication texts copied without decryption; one audit whose `count` is the number returned |
| NurseService.ListingShowsCiphertext | backend/src/services/nurse.service.ts:67 | as written: under a correct cipher a patient name stored encrypted is never listed as the name itself, as long as the name has no `:` |
| NurseService.DecryptedViewShowsPlaintext | backend/src/services/nurse.service.ts:67 | corrected: the name stored encrypted reaches the nurse in plaintext |
| NurseService.DecryptedViewKeeps | backend/src/services/nurse.service.ts:64-78 | corrected: ids, e-mail and each medication's `checked` are those of the listing as written |
| NurseService.DecryptedViewMedications | backend/src/services/nurse.service.ts:72-78 | corrected: the view's medications are the record's, each decrypted |
| NurseService.DecryptedMedicationKeepsCheck | backend/src/services/nurse.service.ts:77 | corrected: decryption keeps a medication's `checked` |
| NurseService.CorrectedListingSameRecords | backend/src/services/nurse.service.ts:53-64 | corrected: the same records, in the same order, as the listing as written |
| NurseService.CorrectedListingAudits | backend/src/services/nurse.service.ts:87-96 | corrected: success writes the audit of the listing as written; a throwing `decrypt` writes nothing |
| NurseService.DecryptedViewKeepsId | backend/src/services/nurse.service.ts:65 | corrected: a view names its record |
| NurseService.GetAssignedPatientsSpec | backend/src/services/nurse.service.ts:6-99 | `getAssignedPatients`'s outcome and audit rows; NurseService.GetAssignedPatientsUnknown, NurseService.GetAssignedPatientsNotNurse and NurseService.GetAssignedPatientsLists state them |
| PatientService.GetPatientRecords | backend/src/services/patient.service.ts:7-105 | the new store and the result are those of `GetPatientRecordsSpec` |
| PatientService.GetPatientRecordsGates | backend/src/services/patient.service.ts:17-23 | a missing user raises NotFound "Patient not found", a user of another role raises Unauthorized "Forbidden", neither writes anything; the store changes only on a call by a PATIENT that succeeds |
| PatientService.OwnRecordsExactly | backend/src/services/patient.service.ts:25-26 | a record is returned exactly when it is in the store and belongs to the patient |
| PatientService.NotesKeepOrder | backend/src/services/patient.service.ts:75-79 | decrypting notes sorted newest first keeps their order, ids and times |
| PatientService.DetailNotesNewestFirst | backend/src/services/patient.service.ts:36-44 | a record's notes are listed newest first, one per stored note, a permutation of them |
| PatientService.DetailNotes | backend/src/services/patient.service.ts:75-79 | the listed notes are the stored notes, sorted newest first, each decrypted |
| PatientService.MedicationChecks | backend/src/services/patient.service.ts:80-88 | a medication's checks are its stored checks, sorted newest first, each with the nurse's name decrypted |
| PatientService.MedicationChecksNewestFirst | backend/src/services/patient.service.ts:51-58 | a medication's checks are listed newest first, one per stored check, a permutation of them, keeping ids and nurses |
| PatientService.DetailDecrypts | backend/src/services/patient.service.ts:63-90 | a detail keeps the record, patient and doctor ids and the doctor's e-mail, and holds the decryptions of the patient's name and diagnosis and the doctor's name |
| PatientService.DetailShowsPlaintext | backend/src/services/patient.service.ts:65-69 | under a correct cipher the patient sees the name and diagnosis that were encrypted |
| PatientService.DetailPatient | backend/src/services/patient.service.ts:65-69 | the detail's patient is the stored patient with name and diagnosis decrypted |
| PatientService.GetPatientRecordsOutcome | backend/src/services/patient.service.ts:25-104 | for a PATIENT: when every record decrypts, the details and one audit with the record count; otherwise the decryption error and no write |
| PatientService.GetPatientRecordsLists | backend/src/services/patient.service.ts:25-104 | for a PATIENT: only the audit table changes; on success one detail per own record, in order, and exactly one appended audit when the store is up; a failure is a cipher error with nothing written |
| PatientService.GetPatientRecordsSpec | backend/src/services/patient.service.ts:7-105 | `getPatientRecords`'s outcome and audit rows; PatientService.GetPatientRecordsGates and PatientService.GetPatientRecordsLists state them |
| CreatePatientSchema.PasswordIssues | backend/src/types/createPatient.type.ts:6-14 | one message per failed password check |
| CreatePatientSchema.FailedRuleExact | backend/src/types/createPatient.type.ts:6-14 | a check is reported exactly when the password fails it, and its message is among the issues |
| CreatePatientSchema.PasswordIssuesExact | backend/src/types/createPatient.type.ts:6-14 | a password is accepted exactly when it has 8 to 128 UTF-16 code units, a lower-case letter, an upper-case letter, a digit, a special character and no white space |
| CreatePatientSchema.StrongPasswordLength | backend/src/types/createPatient.type.ts:8-14 | an accepted password has 4 to 128 characters, none of them white space |
| CreatePatientSchema.Utf16LengthPositive | backend/src/types/createPatient.type.ts:20 | `min(1)` on a string means it is not empty |
| CreatePatientSchema.AcceptedBody | backend/src/types/createPatient.type.ts:3-34 | an accepted body has a name of 2 to 30 characters, a present diagnosis of at least 2, non-empty notes and non-empty medication fields |
| CreatePatientSchema.EmptyDiagnosisRejected | backend/src/types/createPatient.type.ts:15 | a present empty diagnosis is refused whatever the rest of the body |
| LoginSchema.ResetPasswordsLogIn | backend/src/types/login.type.ts:3-6 | every password a reset accepts is accepted at login |
| LoginSchema.AnyEightCharacters | backend/src/types/login.type.ts:5 | any eight characters of the BMP pass the login password check |
| LoginSchema.WeakPasswordLogsIn | backend/src/types/login.type.ts:5 | login accepts a password the create-patient rules refuse |
| ResetPasswordSchema.CodeOfSixCharacters | backend/src/types/resetPassword.type.ts:5 | any six characters of the BMP pass the code check |
| ResetPasswordSchema.CodeDigitsNotEnforced | backend/src/types/resetPassword.type.ts:5 | the schema accepts a code that is not digits |
| ResetPasswordSchema.CodeLength | backend/src/types/resetPassword.type.ts:5 | an accepted code has 3 to 6 characters |
| ResetPasswordSchema.AcceptsExactly | backend/src/types/resetPassword.type.ts:3-18 | a body is accepted exactly when the e-mail passes, the code has six code units and the new password passes every check of the create-patient rule |
| CreatePatientSchema.Accepts | backend/src/types/createPatient.type.ts:3-34 | the create-patient schema's verdict on a body; CreatePatientSchema.AcceptedBody and CreatePatientSchema.EmptyDiagnosisRejected state it |
| LoginSchema.Accepts | backend/src/types/login.type.ts:3-6 | the login schema's verdict: a valid e-mail and a password of 8 to 128 code units; LoginSchema.AnyEightCharacters and LoginSchema.ResetPasswordsLogIn state it |
| ResetPasswordSchema.Accepts | backend/src/types/resetPassword.type.ts:3-18 | the reset schema's verdict; ResetPasswordSchema.AcceptsExactly states it |
| LoggerMiddleware.LogLevelBands | backend/src/middleware/logger.middleware.ts:6-11 | `error` exactly for a status of 500 or more or an error, `warn` exactly for 400 to 499 without one, `info` otherwise |
| LoggerMiddleware.LogLevelMonotone | backend/src/middleware/logger.middleware.ts:6-11 | a higher status, or an error, never lowers the level |
| LoggerMiddleware.SuccessMessage | backend/src/middleware/logger.middleware.ts:12-14 | the message starts with `Request completed: ` and goes on after it |
| LoggerMiddleware.SuccessMessageNamesStatus | backend/src/middleware/logger.middleware.ts:12-14 | what follows the prefix is the status in decimal digits |
| LoggerMiddleware.SuccessMessageLength | backend/src/middleware/logger.middleware.ts:12-14 | a three-digit status gives a message of 22 characters |
| ProtectedRoute.GuardRendersExactly | frontend/src/components/protectedRoute.tsx:8-16 | the children render exactly when token and role are non-empty and the upper-cased role is allowed |
| ProtectedRoute.GuardRedirects | frontend/src/components/protectedRoute.tsx:12-14 | a missing token, a missing role or no allowed roles redirect to `/login` |
| ProtectedRoute.ToUpperAsciiIdempotent | frontend/src/components/protectedRoute.tsx:12 | upper-casing twice is upper-casing once |
| ProtectedRoute.GuardIgnoresCase | frontend/src/components/protectedRoute.tsx:12 | two roles equal up to case get the same outcome |
| ProtectedRoute.LowerCaseRoleAdmitted | frontend/src/components/protectedRoute.tsx:12 | a stored role `doctor` opens a route for `DOCTOR` |
| LoggerMiddleware.LogLevel | backend/src/middleware/logger.middleware.ts:6-11 | `customLogLevel`; LoggerMiddleware.LogLevelBands and LoggerMiddleware.LogLevelMonotone state its bands |
| ProtectedRoute.Guard | frontend/src/components/protectedRoute.tsx:8-16 | `ProtectedRoute`'s render or redirect; ProtectedRoute.GuardRendersExactly, ProtectedRoute.GuardRedirects and ProtectedRoute.GuardIgnoresCase state it |
| CreatePatientForm.Form.constructor | frontend/src/components/CreatePatientForm.tsx:7-14 | the form starts empty, with one blank note and one blank medication |
| CreatePatientForm.Form.NoteChange | frontend/src/components/CreatePatientForm.tsx:65-69 | only the note at the index takes the new text |
| CreatePatientForm.Form.AddNote | frontend/src/components/CreatePatientForm.tsx:71-72 | one blank note is added at the end, nothing else changes |
| CreatePatientForm.Form.MedicationChange | frontend/src/components/CreatePatientForm.tsx:74-85 | only the named field of the medication at the index takes the new text |
| CreatePatientForm.Form.AddMedication | frontend/src/components/CreatePatientForm.tsx:87-94 | one blank medication is added at the end, nothing else changes |
| CreatePatientForm.Form.Reset | frontend/src/components/CreatePatientForm.tsx:23-30 | after a created patient the form is back to its initial state |
| CreatePatientForm.Form.Submit | frontend/src/components/CreatePatientForm.tsx:48-63 | the body sent is `Submission` of the current form, which is left unchanged |
| CreatePatientForm.SubmissionKeepsFields | frontend/src/components/CreatePatientForm.tsx:52-53 | name, e-mail and password are sent as typed, and the diagnosis is sent even when empty |
| CreatePatientForm.SubmittedNotesExactly | frontend/src/components/CreatePatientForm.tsx:54-56 | a note is sent exactly when it is in the form and has a non-white-space character |
| CreatePatientForm.SubmittedMedicationsExactly | frontend/src/components/CreatePatientForm.tsx:57-59 | a medication is sent exactly when it is in the form and one of its fields is filled |
| CreatePatientForm.AddingBlankFieldsSendsTheSame | frontend/src/components/CreatePatientForm.tsx:54-94 | adding a blank note or a blank medication does not change what is sent |
| CreatePatientForm.NoteChangeKeepsOthers | frontend/src/components/CreatePatientForm.tsx:65-69 | editing a note keeps the number of notes and every other note |
| CreatePatientForm.MedicationChangeKeepsOthers | frontend/src/components/CreatePatientForm.tsx:74-85 | editing one field keeps the other medications and the other two fields |
| CreatePatientForm.EmptyDiagnosisBlocksSubmission | frontend/src/components/CreatePatientForm.tsx:11-62 | as written: a form whose diagnosis is left empty sends a body the create-patient schema refuses |
| CreatePatientForm.CorrectedSubmissionAcceptsEmptyDiagnosis | frontend/src/components/CreatePatientForm.tsx:52-60 | corrected: an empty diagnosis is left out, which the schema allows; any other form is sent as before |
| CreatePatientForm.CorrectedSubmissionAccepted | frontend/src/components/CreatePatientForm.tsx:52-60 | corrected: the schema accepts the form's body exactly when the name, e-mail and password are valid, the diagnosis is empty or at least three code units long, and every medication with a field filled in has all of them filled in; notes never block it |
| AdminDashboard.Pager.constructor | frontend/src/pages/AdminDashboard.tsx:39 | the dashboard starts on page 1 with no logs |
| AdminDashboard.Pager.LogsLoaded | frontend/src/pages/AdminDashboard.tsx:66-71 | loading logs sets their count and keeps the page |
| AdminDashboard.Pager.ClickPrevious | frontend/src/pages/AdminDashboard.tsx:330-333 | Previous moves one page back, never below 1, and does nothing on page 1 |
| AdminDashboard.Pager.ClickNext | frontend/src/pages/AdminDashboard.tsx:341-344 | Next moves one page on, never past the last, and does nothing on the last page |
| AdminDashboard.TotalPagesCeiling | frontend/src/pages/AdminDashboard.tsx:40-71 | the page count is the ceiling of the log count over 10; zero exactly for no logs; at most 5 for the 50 logs fetched |
| AdminDashboard.PreviousNeverBelowOne | frontend/src/pages/AdminDashboard.tsx:331 | the previous page is at least 1, and one less from page 2 on |
| AdminDashboard.NextNeverPastLast | frontend/src/pages/AdminDashboard.tsx:342 | the next page is at most the last, and one more before it |
| AdminDashboard.ClicksStayInRange | frontend/src/pages/AdminDashboard.tsx:330-344 | from a page between 1 and the last, both buttons stay between 1 and the last |
| AdminDashboard.EmptyLogNextGoesToZero | frontend/src/pages/AdminDashboard.tsx:337-344 | with no logs there are zero pages, and Next on page 1 shows page 0 |
| CreatePatientForm.Submission | frontend/src/components/CreatePatientForm.tsx:52-60 | the body `handleSubmit` posts; CreatePatientForm.SubmissionKeepsFields, CreatePatientForm.SubmittedNotesExactly and CreatePatientForm.SubmittedMedicationsExactly state it |
| AdminDashboard.TotalPages | frontend/src/pages/AdminDashboard.tsx:40-71 | `Math.ceil(auditLogs.length / pageSize)` with a page size of 10; AdminDashboard.TotalPagesCeiling states it |
| AdminDashboard.PreviousPage | frontend/src/pages/AdminDashboard.tsx:331 | `Math.max(p - 1, 1)`; AdminDashboard.PreviousNeverBelowOne states it |
| AdminDashboard.NextPage | frontend/src/pages/AdminDashboard.tsx:342 | `Math.min(p + 1, totalPages)`; AdminDashboard.NextNeverPastLast states it |

## Left out

- Cryptographic internals: AES-256-GCM, bcrypt and the randomness of `crypto.randomBytes` and `crypto.randomInt` are library code. They appear as abstract functions, and their promised properties are lemma hypotheses.
- Primitives.Sound: it states only that a hash accepts the password it was made from. bcrypt reads only the first 72 bytes of a password, so a hash can also accept other passwords. No lemma relies on a hash rejecting a password.
- FieldCipher.DecryptEncrypt: the round trip holds for strings of Unicode scalar values only. A JavaScript string may hold an unpaired surrogate, which Node's UTF-8 encoding writes as `EF BF BD`, so decryption returns U+FFFD in its place. Dafny strings cannot hold such a character.
- Utf8.DecodeEncode: as for FieldCipher.DecryptEncrypt, unpaired surrogates are outside the model.
- AdminService.AuditPagesTile: the pages tile the log for the model's fixed order among equal timestamps. The store promises no such order, and ties are common: every row written in one call shares its `now`, and a failed login writes two rows. Each page query may break ties its own way, so pages can then overlap or skip rows. AdminService.AuditPagesTileAnyOrder proves the tiling for any two orders when rows with equal timestamps are equal.
- AdminService.ConsecutivePages: the same fixed tie order as AdminService.AuditPagesTile.
- AdminService.NumberedPagesTile: the same fixed tie order as AdminService.AuditPagesTile.
- Timestamps kept by the store: the records' `createdAt` (doctor.service.ts:77, patient.service.ts:29) and the doctors' and nurses' `createdAt` and `updatedAt` (admin.service.ts:164-165, 246-247) are not modelled, so the listings omit them.
- The nurse listing's `...nurse` spread: the listing spreads the whole nurse row, so the reply also carries the raw `nurseAssignments` (admin.service.ts:277-289), whose doctors' names are still encrypted. The model's view keeps only `assignedDoctors`.
- AdminController.QueryNumber: a query parameter given more than once, as in `?page=1&page=2`, reaches `parseInt` as an array, which reads as "1,2" and gives 1. The model takes one optional string per parameter.
- Store semantics beyond the tables. Prisma's transactions, upsert atomicity and query planning are not modelled. The generated cuid/uuid identifiers are drawn from a counter instead. Store failures other than a refused audit row are not modelled.
- DoctorService.CreatePatientEmailTaken: the store's unique-email violation (`P2002` on `email`) is modelled as a check for an existing e-mail made at the point of the insert. Any other store error in that try block is not modelled.
- AdminController.ListingReplies: the nurse listing cannot fail in the model, because the store does not fail. Its handler's 500 path is therefore never taken.
- Concurrency between requests: the store is sequential.
- `logger.*` and `console.*` output is not modelled. That includes the reset code printed to the console and the pino-http serializers.
- backend/src/utils/errors.ts is not part of this model. The error classes are taken to carry the HTTP statuses their names conventionally carry: 404, 401, 409 and 403.
- The wall clock: the time of a call is the integer `now` in milliseconds, fixed for the call.
- `z.email()`: e-mail validity is an abstract predicate passed to the schemas.
- Common.ToUpperAscii: it upper-cases ASCII letters only. JavaScript's `toUpperCase` also maps other letters, and role names are ASCII.
- Transport: Express setup, routing, the auth, doctor, nurse and patient controllers, the validation and rate-limit middleware, token signing, and e-mail sending are not modelled. No login one-time code exists in the code.
- The database seed and wipe scripts are not modelled.
- React rendering, navigation, `localStorage` and the axios clients: the route guard takes the stored token and role as arguments. The form and the pager are modelled as their state and its updates.
- The pino-http `serializers` are not modelled. They only select fields for the log output.

## Findings

| source | as written | input that shows it | evidently intended | confidence | as-written member | corrected member |
|---|---|---|---|---|---|---|
| backend/src/services/auth.service.ts:120-123 | a successful reset updates the password hash but not `passwordUpdatedAt` | a user whose `passwordUpdatedAt` is more than 30 days old resets with a valid code, then logs in with the new password | the reset stamps `passwordUpdatedAt = now`, so the new password logs in for 30 days | not executed | AuthService.StaleUserLockedOutAfterReset | AuthService.StampedResetUnlocksLogin |
| frontend/src/components/CreatePatientForm.tsx:52-60 | the form sends `diagnosis: ""` when the field is left empty | any form with an empty diagnosis | an empty diagnosis is left out, since the schema makes it optional | not executed | CreatePatientForm.EmptyDiagnosisBlocksSubmission | CreatePatientForm.CorrectedSubmissionAccepted |
| backend/src/services/admin.service.ts:194 | nurse e-mails, stored in plaintext, go through `decrypt` | a nurse with e-mail `n@x.io` is listed with e-mail "" | the e-mail is listed as stored | not executed | AdminService.DoctorListingBlanksNurseEmail | AdminService.CorrectedListingKeepsNurseEmail |
| backend/src/services/doctor.service.ts:109 | patient e-mails, stored in plaintext, go through `decrypt` | a patient with e-mail `p@x.io` is listed to the doctor with e-mail "" | the e-mail is listed as stored | not executed | DoctorService.ListingBlanksPatientEmail | DoctorService.CorrectedListingKeepsPatientEmail |
| backend/src/services/nurse.service.ts:67 | the patient name, stored encrypted, is returned without `decrypt` | a patient created with name `Alice` is listed to the nurse as the `iv:ciphertext:tag` string | the name is decrypted as in the doctor and patient listings | not executed | NurseService.ListingShowsCiphertext | NurseService.DecryptedViewShowsPlaintext |
