# Legal case management: a verified model of the request logic

This project models, in Dafny, the decision logic of a legal
case-management system for advocates of the Kerala High Court. The system
has three parts:

- a FastAPI backend: accounts, cases, documents, direct-to-S3 uploads, PDF
  text extraction and an AI case analysis;
- an older Flask monolith with JSON-file stores;
- a Next.js webapp: edge middleware, a cron-triggered OCR job, document
  classification, case bundles and small display helpers.

What the code decides is modelled. What it delegates is not: S3, the PDF
readers, bcrypt, JWT, the language model, the database engine and the
clock. Each of those is a parameter, either as a value or as a function
oracle. Database tables are sequences of rows. Code that changes rows in
place becomes a method on a class holding those tables, specified against
pure functions that describe the new state. Queries and checks become
functions whose contracts state what they return.

One Dafny module per source file or component:

| module | file | models |
|---|---|---|
| `Common` | common.dfy | Option/Result, failures, filters, counting, ASCII strings, JSON values |
| `Order` | order.dfy | sort keys with NULL placement, a sort proved sorted and a permutation, offset/limit paging |
| `Upload` | upload.dfy | backend/app/api/v1/endpoints/upload.py |
| `FlaskApp` | flask_app.dfy | backend/app.py |
| `Schemas` | schemas.dfy | backend/app/db/schemas.py |
| `Models` | models.dfy | backend/app/db/models.py |
| `CaseEndpoints` | cases.dfy | backend/app/api/v1/endpoints/cases.py |
| `DocumentEndpoints` | documents.dfy | backend/app/api/v1/endpoints/documents.py |
| `AuthEndpoints` | auth.dfy | backend/app/api/v1/endpoints/auth.py |
| `OcrEndpoint` | ocr.dfy | backend/app/api/v1/endpoints/ocr.py |
| `AiService` | ai_service.dfy | backend/app/services/ai_service.py |
| `Middleware` | middleware.dfy | webapp/src/middleware.ts |
| `CronRoute` | cron.dfy | webapp/src/app/api/cron/process-documents/route.ts |
| `WebModels` | web_models.dfy | the webapp's Prisma rows |
| `ProcessDocuments` | process_documents.dfy | webapp/src/lib/jobs/process-documents.ts |
| `DocumentClassifier` | classifier.dfy | webapp/src/lib/ai/core/document-classifier-ocr.ts |
| `CaseBundles` | bundle.dfy | case-bundle-processor.ts and the two bundle-builder.ts files |
| `WebUtils` | web_utils.dfy | webapp/src/lib/utils/file.ts, date.ts, format.ts |
| `AnalysisTypes` | analysis_types.dfy | webapp/src/types/analysis.ts |

## Model

| member | source | states |
|---|---|---|
| Upload.S3Key | backend/app/api/v1/endpoints/upload.py:210 | the object key is `{khc_advocate_id}/{case_number}/{document_id}.pdf`: it starts with the advocate's id and a slash, ends in `.pdf` whatever the content type, and is six characters longer than its three parts |
| Upload.NumPartsIsCeiling | backend/app/api/v1/endpoints/upload.py:300 | for a positive chunk size, `num_parts` is the ceiling of size over chunk: `(n-1)*chunk < size <= n*chunk` |
| Upload.DefaultChunkingHasThreeParts | backend/app/api/v1/endpoints/upload.py:63-68 | a file over the 15,000,000-byte multipart threshold, cut into the default 5,242,880-byte chunks, has at least three parts |
| Upload.GetPresignedUrl | backend/app/api/v1/endpoints/upload.py:148-245 | a non-positive size is refused by the schema (422) before any S3 request; otherwise one presign request for the key with a 900 s expiry, and the reply carries that URL, the key, `PUT`, 900 and the Content-Type header, or a 500 "Failed to generate upload URL: ..." when S3 fails |
| Upload.InitiateMultipartUpload | backend/app/api/v1/endpoints/upload.py:247-333 | sizes up to 15,000,000 are a 422 from the schema and the handler's own 400 is never produced; otherwise S3 is asked first to initiate; a success carries the upload id, the key, the part URLs and `num_parts`, presigned with a 3600 s expiry; no path aborts; the reply is Ok iff the size is above the threshold, S3 initiates, the chunk size is not 0 and pre-signing succeeds; an S3 failure is a 500 "Failed to initiate multipart upload: ..." after one or two requests |
| Upload.ExactThresholdRejected | backend/app/api/v1/endpoints/upload.py:67 | exactly 15,000,000 bytes is refused (422) although the handler's message says ">= 15MB" |
| Upload.ZeroChunkLeavesUploadOpen | backend/app/api/v1/endpoints/upload.py:289-333 | a zero chunk size ends in a 500 after S3 has initiated the upload, and the only S3 request made is that initiation (no abort) |
| Upload.NegativeChunkGivesNegativeParts | backend/app/api/v1/endpoints/upload.py:68 | every negative chunk size is accepted: when S3 answers, the reply is a success announcing zero or fewer parts |
| Upload.InitiateMultipartUploadChecked | backend/app/api/v1/endpoints/upload.py:247-333 | corrected initiation: a non-positive chunk size is a 400 with no S3 request; a success announces `n >= 1` parts with `(n-1)*chunk < size <= n*chunk`; a failure after S3 requests comes from S3; the reply is Ok iff the size is above the threshold, the chunk size is positive and both S3 requests succeed, and each S3 failure gives its 500 |
| Upload.AdjacentIffStrictlyAscending | backend/app/api/v1/endpoints/upload.py:366-371 | comparing neighbours, as the loop does, decides exactly whether the part numbers strictly increase along the whole list (S3's ordering rule for CompleteMultipartUpload) |
| Upload.CheckPartOrder | backend/app/api/v1/endpoints/upload.py:366-371 | the loop with early exit accepts exactly the strictly ascending lists, including the empty and one-element lists |
| Upload.CompleteMultipartUpload | backend/app/api/v1/endpoints/upload.py:335-428 | a PartNumber below 1 is a 422; an unsorted or duplicated list is a 400 with no S3 request and no abort; otherwise one completion request, and on success "completed" with Location and ETag defaulting to ""; on failure one abort attempt then a 500, whatever the abort did |
| Upload.AbortMultipartUpload | backend/app/api/v1/endpoints/upload.py:430-469 | exactly one abort request for the key and upload id; "aborted" with the upload id on success, a 500 "Failed to abort multipart upload: ..." otherwise |
| Upload.KeyIndependentOfContentType | backend/app/api/v1/endpoints/upload.py:283 | the standard and the multipart endpoints derive the same key from the same case and document |
| FlaskApp.AllowedFile | backend/app.py:452-453 | true exactly when some '.' in the name is followed by an allowed extension (pdf, png, jpg, jpeg, any case) and no later '.' |
| FlaskApp.AllowedAfterLastDot | backend/app.py:452-453 | the `rsplit('.', 1)` reading (text after the last '.', lower-cased, in the set) is the same test as the positional one |
| FlaskApp.RegisterCheck | backend/app.py:467-479 | on string fields: accepted iff the stripped email and full name are non-empty and the password has at least 6 characters; the email is stripped and lower-cased; a missing field gives the "required" 400 before the length 400 |
| FlaskApp.RegisterBody | backend/app.py:467-479 | on the JSON body: a null email, full name or firm makes `.strip()` raise, a 500, and nothing else does; a null or absent password is the "required" 400; otherwise `RegisterCheck` on the fields read as strings |
| FlaskApp.LoginCheck | backend/app.py:490-498 | on string fields: accepted iff the stripped email and the password are non-empty; the email is normalised; otherwise the 400 "Email and password are required" |
| FlaskApp.LoginBody | backend/app.py:490-498 | on the JSON body: a null email is a 500 and nothing else is; a null or absent password is the "required" 400; otherwise `LoginCheck` on the fields read as strings |
| FlaskApp.UserDB.constructor | backend/app.py:47-59 | the user store starts empty |
| FlaskApp.UserDB.CreateUser | backend/app.py:61-79 | an existing email gives "User already exists" and no change; otherwise exactly one entry is added, with the hash and no last login, and the returned user has no password hash |
| FlaskApp.UserDB.VerifyUser | backend/app.py:82-103 | succeeds iff the email is known and the password checks against its hash; unknown email and wrong password give the same "Invalid credentials" and no change; success changes only that user's `last_login` |
| FlaskApp.UserDB.GetUser | backend/app.py:106-112 | present iff the email is stored; the view is the record without `password_hash` |
| FlaskApp.Register | backend/app.py:467-487 | the input check is `RegisterBody`; its errors leave the store unchanged; a duplicate normalised email is a 400 with no change; otherwise the new user is stored under the normalised email and a session is returned |
| FlaskApp.Login | backend/app.py:490-505 | the input check is `LoginBody` (a 500 or a 400); good credentials return a session and stamp `last_login`; anything else is a 401 with no change |
| FlaskApp.IndexOf | backend/app.py:161-167 | the position of the first entry with the id, or -1 when no entry has it |
| FlaskApp.Find | backend/app.py:161-167 | a stored case is found iff some entry of the bucket has the id |
| FlaskApp.Put | backend/app.py:139-143 | storing under an id keeps ids distinct, makes the id find the new data, leaves every other id as it was, and grows the bucket only for a new id |
| FlaskApp.PutAll | backend/app.py:176-177 | replacing an existing entry in place or appending a new one has the same lookup behaviour as a Python dict assignment |
| FlaskApp.Values | backend/app.py:150-151 | the bucket's cases in bucket order |
| FlaskApp.ApplyCaseUpdate | backend/app.py:170-181 | the keys are the old keys, the updated keys and `updated_at`; supplied values win except `updated_at`, which is always the current time; other values stay |
| FlaskApp.UpdateCanRewriteOwnerField | backend/app.py:175-177 | for every stored case and every update, a supplied `id` or `user_email` replaces the stored one, and `updated_at` is the current time even when the update supplies it |
| FlaskApp.CasesDB.constructor | backend/app.py:116-128 | the case store starts empty |
| FlaskApp.CasesDB.CreateCase | backend/app.py:130-145 | the stored case is the input with `id` and `user_email` set; it is found under the caller's email; other users' buckets and the caller's other cases are unchanged; a new user gets a one-entry bucket |
| FlaskApp.CasesDB.GetUserCases | backend/app.py:148-158 | an empty list for an unknown user; otherwise the sort succeeds iff every case has `created_at` and, with two or more cases, all of them are strings or all numbers (booleans count as numbers); then a permutation of that user's cases sorted by `created_at`, newest first; otherwise the sort raises |
| FlaskApp.CasesDB.ListCases | backend/app.py:528-533 | `GET /api/cases`: the guard's 401 first; then the sorted cases, or, when the sort raises inside the decorator's `try`, the 401 "Token validation failed"; every error is a 401 |
| FlaskApp.CasesDB.GetCase | backend/app.py:161-167 | a case is returned iff it is stored under the caller's own email |
| FlaskApp.CasesDB.UpdateCase | backend/app.py:170-181 | a missing case gives "Case not found" and no change; otherwise the merged case is stored in place and returned |
| FlaskApp.BearerToken | backend/app.py:213-214 | a leading `Bearer ` (case-sensitive, 7 characters) is removed; any other header is used as it is |
| FlaskApp.TokenRequired | backend/app.py:204-226 | a missing or empty header is a 401 "Token required"; access is granted iff the verifier decodes the stripped token, with its email; every refusal is a 401 |
| FlaskApp.OtherSchemeNotStripped | backend/app.py:213-214 | a header under any other spelling of the scheme, such as `bearer ` or `BEARER `, is passed to the verifier unstripped, although auth-scheme names are case-insensitive (section 2.1 of RFC 7235) |
| FlaskApp.JoinPages | backend/app.py:331-334 | the sampled pages' text exists iff no page extraction raises |
| FlaskApp.JoinPagesSnoc | backend/app.py:331-334 | reading one more page appends its text to what was read, and any page whose extraction raises makes the whole read fail |
| FlaskApp.SelectTool | backend/app.py:323-348 | non-PDF input gets `tesseract_image`; a PDF gets `pypdf_text_extract` iff the first min(3, pages) pages hold more than 100 characters once stripped, and `pdf2image_tesseract` otherwise or on any read error |
| FlaskApp.Process | backend/app.py:386-395 | each of the three tool names runs its extractor; any other name raises "Unknown OCR tool: ..." |
| FlaskApp.SelectedToolIsDispatched | backend/app.py:323-395 | every tool `select_tool` picks is one `process` knows |
| FlaskApp.EmptyPdfUsesImageOcr | backend/app.py:329-341 | a PDF with no pages is sent to page-image OCR |
| FlaskApp.FirstCaseTypeFrom | backend/app.py:255-260 | the first keyword from a position on that occurs in the text, with none before it |
| FlaskApp.CaseType | backend/app.py:254-260 | absent iff no keyword occurs in the lower-cased text; otherwise the label of the first keyword in list order that occurs |
| FlaskApp.Distinct | backend/app.py:272-273 | the distinct values of the matches, without repeats |
| FlaskApp.DistinctUpTo | backend/app.py:272-279 | no repeats, only values that matched, and exactly min(limit, number of distinct matches) of them |
| FlaskApp.ExtractBasicInfo | backend/app.py:233-283 | the case type from the keyword scan, at most 5 distinct acts and at most 10 distinct sections, the party and court matches as given |
| Schemas.Check | backend/app/db/schemas.py:86-93 | a field's error map holds that field exactly when it has a violation, and no other field |
| Schemas.LengthError | backend/app/db/schemas.py:15-16 | no error iff `min_length <= len <= max_length`; too short reports the minimum, too long the maximum |
| Schemas.PasswordRule | backend/app/db/schemas.py:37-45 | `validate_password` accepts iff at least 8 characters, a digit and an upper-case letter; the failure named is the first of length, digit, upper case |
| Schemas.UserCreatePasswordError | backend/app/db/schemas.py:33-45 | `UserCreate.password` is valid iff 8..100 characters with a digit and an upper-case letter; the field bound reports length before the validator runs, so its own length message never appears |
| Schemas.ValidateUserCreate | backend/app/db/schemas.py:13-45 | no errors iff `EmailStr` accepts the e-mail, `khc_advocate_id` has 5..50 characters, `khc_advocate_name` 2..255 and the password passes; each field's error appears iff that field fails |
| Schemas.ValidateUserBase | backend/app/db/schemas.py:13-16 | the `UserBase` fields: no errors iff the e-mail is accepted and the two KHC fields are within their bounds, field by field |
| Schemas.EmailError | backend/app/db/schemas.py:14 | an `EmailStr` field fails iff the e-mail validator rejects the address |
| Schemas.ValidateUserRegister | backend/app/db/schemas.py:23-31 | `UserRegister` accepts an e-mail `EmailStr` accepts and any password of at least 8 characters, with no digit or upper-case rule; each field's error appears iff it fails |
| Schemas.RegisterWeakerThanCreate | backend/app/db/schemas.py:23-45 | for every accepted e-mail, advocate id and name, every password of 8 to 100 characters without a digit is accepted at registration and refused by `UserCreate` with the digit message alone |
| Schemas.LetterPasswordHasNoDigit | backend/app/db/schemas.py:41-42 | `abcdefgh` is such a password: 8 characters, none a digit |
| Schemas.CaseYearError | backend/app/db/schemas.py:90 | `case_year` is valid iff it is in [2000, 2100], with the bound it breaks |
| Schemas.PartyRoleError | backend/app/db/schemas.py:91 | `party_role` is valid iff it is exactly `petitioner` or `respondent` |
| Schemas.ValidateCaseBase | backend/app/db/schemas.py:86-93 | no errors iff e-filing number has at least 5 characters, case type 2, year in range, role allowed and both party names 2; each field's error appears iff it fails |
| Schemas.CaseIdentityErrors | backend/app/db/schemas.py:87-90 | the e-filing number, case type and year bounds, field by field |
| Schemas.CasePartyErrors | backend/app/db/schemas.py:91-93 | the party role and the two name bounds, field by field |
| Schemas.PartyRoleNarrowerThanEnum | backend/app/db/schemas.py:91 | every role the schema accepts is a model enum value, but `appellant` and `defendant` (backend/app/db/models.py:35-40) are refused |
| Schemas.FileSizeError | backend/app/db/schemas.py:145 | a document's `file_size` is valid iff positive |
| Schemas.ValidateDocumentCreate | backend/app/db/schemas.py:135-145 | no errors iff title length is 1..255 and size is positive, field by field |
| Schemas.ValidateDocumentUpdate | backend/app/db/schemas.py:164-166 | an absent title is fine; a supplied one must have 1..255 characters |
| Models.CaseStatusFromName | backend/app/db/models.py:27-33 | parsing a stored status name inverts `Name()`: it finds exactly the status with that name |
| Models.PartyRoleFromName | backend/app/db/models.py:35-40 | parsing a party role inverts `Name()` |
| Models.CategoryFromName | backend/app/db/models.py:42-48 | parsing a document category inverts `Name()` |
| Models.UrgencyFromName | backend/app/db/models.py:80-85 | parsing an urgency level inverts `Name()` |
| Models.NewUser | backend/app/db/models.py:92-120 | a new user is an advocate, active, not verified, never logged in, with empty preferences and equal creation and update times |
| Models.NewCase | backend/app/db/models.py:127-175 | a new case is `filed`, visible, sync status `pending`, with no hearing date |
| Models.NewDocument | backend/app/db/models.py:184-229 | a new document is upload-pending, OCR not required, unlocked, `application/pdf`, in bucket `lawmate-case-pdfs`, not yet uploaded |
| Models.NewAnalysis | backend/app/db/models.py:267-299 | a new analysis is pending, retry count 0, model version `claude-3.5-sonnet`, with no result and no error |
| Models.DeleteCase | backend/app/db/models.py:179-181 | refused (the commit fails) iff a history row of another case names one of the deleted documents; otherwise removes exactly that case and its documents, history and analysis, keeps users, and keeps every uniqueness and reference constraint |
| Models.DeleteCaseConsistent | backend/app/db/models.py:179-181 | the filtered tables still satisfy every uniqueness and foreign-key constraint |
| Models.DeleteCaseRows | backend/app/db/models.py:179-181 | after the cascade the case, document, history and analysis tables keep their unique columns |
| Models.DeleteCaseLinks | backend/app/db/models.py:258 | after the cascade every remaining row points at remaining parents, and every `order_document_id` still names a remaining document |
| Models.DeleteUser | backend/app/db/models.py:123-124 | refused iff a history row outside the user's cases names one of their documents; otherwise removes exactly that user, their cases, those cases' documents and history, and the analyses of either; the constraints still hold |
| Models.DeleteUserConsistent | backend/app/db/models.py:123-124 | the filtered tables still satisfy every uniqueness and foreign-key constraint |
| Models.DeleteUserUsers | backend/app/db/models.py:99-104 | removing a user keeps the id, email, advocate-id and non-null mobile columns of the user table unique |
| Models.DeleteUserRows | backend/app/db/models.py:123-124 | after the cascade the case, document, history and analysis tables keep their unique columns |
| Models.DeleteUserLinks | backend/app/db/models.py:123-124 | after the cascade every remaining case points at a remaining user, and every remaining document, history row and analysis at a remaining case (and user) |
| Models.KeptOrderDocuments | backend/app/db/models.py:258 | when no remaining history row names a removed document, every remaining `order_document_id` names a remaining document |
| Models.FindCase | backend/app/db/models.py:131 | a case is found iff its id is in the table, and the row found has that id |
| Models.FindDocument | backend/app/db/models.py:188 | a document is found iff some row has the id |
| Models.FindUserByEmail | backend/app/db/models.py:99 | a user is found iff some row has the email |
| Models.Database.constructor | backend/app/db/models.py:92-303 | the session starts holding the given tables |
| CaseEndpoints.GetCases | backend/app/api/v1/endpoints/cases.py:30-85 | refused iff the page bounds fail (`page >= 1`, `1 <= per_page <= 100`; a 422) or the status filter names no case status (PostgreSQL refuses the enum literal; a 500); otherwise at most `per_page` rows, each the caller's own, visible, and passing the status (absent or "all" = off), type, year and ILIKE search filters |
| CaseEndpoints.GetCasesSorted | backend/app/api/v1/endpoints/cases.py:75-79 | each page is sorted by the requested column (any of the record's columns, enums by declaration order), descending iff `order == "desc"`; an unknown column sorts by `updated_at` |
| CaseEndpoints.MatchingCorrect | backend/app/api/v1/endpoints/cases.py:47-79 | before paging, the result holds exactly the caller's visible cases passing the filters, sorted |
| CaseEndpoints.MatchingSorted | backend/app/api/v1/endpoints/cases.py:75-79 | the matching cases are in the requested order before paging |
| CaseEndpoints.EveryMatchOnSomePage | backend/app/api/v1/endpoints/cases.py:82-83 | paging by `offset((page-1)*per_page).limit(per_page)` loses nothing: every matching case is on some page |
| CaseEndpoints.IndexOnItsPage | backend/app/api/v1/endpoints/cases.py:81-83 | the match at position k is returned on page k / per_page + 1, at position k mod per_page |
| CaseEndpoints.MatchingHas | backend/app/api/v1/endpoints/cases.py:47-79 | every visible case of the caller that passes the filters is among the rows the listing pages through |
| CaseEndpoints.GetCasesIsPage | backend/app/api/v1/endpoints/cases.py:82-85 | a valid query returns the requested slice of the sorted matches |
| CaseEndpoints.DeletedNeverListed | backend/app/api/v1/endpoints/cases.py:47-50 | a soft-deleted case never appears in a listing |
| CaseEndpoints.SearchCases | backend/app/api/v1/endpoints/cases.py:88-115 | a query under 2 characters is refused; otherwise the caller's visible cases where one of number, e-filing number and party names matches `%q%` under ILIKE (so `%` and `_` in the query are wildcards), exactly min(50, matches) of them |
| CaseEndpoints.LiteralSearch | backend/app/api/v1/endpoints/cases.py:64-71 | for a term without `%`, `_` or `\\`, the ILIKE search is plain case-insensitive substring search on the four columns, in both directions |
| CaseEndpoints.Authorize | backend/app/api/v1/endpoints/cases.py:126-139 | 404 iff no case has the id; otherwise 403 "Not authorized to <action> this case" iff its advocate is someone else; otherwise the first row with that id |
| CaseEndpoints.GetCase | backend/app/api/v1/endpoints/cases.py:117-162 | the 404/403 gate without any visibility check; the case's documents exactly, its history newest event first, and its analysis iff one exists |
| CaseEndpoints.DocumentsOfCase | backend/app/api/v1/endpoints/cases.py:141-143 | the filter keeps exactly the documents of that case |
| CaseEndpoints.HistorySorted | backend/app/api/v1/endpoints/cases.py:145-147 | the history is a rearrangement of the case's events with `event_date` descending |
| CaseEndpoints.NewStatus | backend/app/api/v1/endpoints/cases.py:190-191 | an unset status keeps the old one; a supplied status is stored iff it names a case status, and NULL or an unknown name is refused by the database |
| CaseEndpoints.ApplyUpdate | backend/app/api/v1/endpoints/cases.py:190-193 | only supplied columns change; id, owner, e-filing number, parties, visibility and creation time stay; `updated_at` becomes the current time |
| CaseEndpoints.ReplaceCaseKeepsConsistent | backend/app/db/models.py:131-138 | rewriting a case row with the same id, owner and e-filing number keeps every constraint |
| CaseEndpoints.UpdateCase | backend/app/api/v1/endpoints/cases.py:165-197 | the 404/403 gate with no change; a refused status, or a supplied value longer than its VARCHAR column (backend/app/db/models.py:137-154), is a 500 with no change; otherwise only that row is replaced by the updated one; constraints are kept |
| CaseEndpoints.DeleteCase | backend/app/api/v1/endpoints/cases.py:200-233 | the 404/403 gate with no change; otherwise only `is_visible` becomes false and `updated_at` is refreshed, and no row is removed |
| CaseEndpoints.SoftDeletedStillReadable | backend/app/api/v1/endpoints/cases.py:126-139 | after a soft delete the owner can still open the case by id, though no listing shows it |
| CaseEndpoints.UpcomingHearings | backend/app/api/v1/endpoints/cases.py:238-259 | `days` must be 1..90; exactly the caller's visible cases with a hearing in [now, now + days], soonest first |
| CaseEndpoints.UpcomingCorrect | backend/app/api/v1/endpoints/cases.py:250-255 | the sorted hearings are a rearrangement of exactly the qualifying cases |
| CaseEndpoints.OwnedVisible | backend/app/api/v1/endpoints/cases.py:273-276 | the rows the statistics count are the caller's visible cases |
| CaseEndpoints.ByStatus | backend/app/api/v1/endpoints/cases.py:300-307 | the group-by holds a status iff some counted case has it, with its count |
| CaseEndpoints.ByType | backend/app/api/v1/endpoints/cases.py:309-316 | the group-by holds a case type iff some counted case has it, with its count |
| CaseEndpoints.TypesOccur | backend/app/api/v1/endpoints/cases.py:309-316 | a type has a positive count iff some counted case has that type |
| CaseEndpoints.RecentOwned | backend/app/api/v1/endpoints/cases.py:317-324 | the trend counts exactly the caller's cases created in the last 180 days, hidden ones included |
| CaseEndpoints.MonthName | backend/app/api/v1/endpoints/cases.py:329 | `%b` is the three-letter name of the month the index falls in |
| CaseEndpoints.InsertMonth | backend/app/api/v1/endpoints/cases.py:325 | adding a month to an ascending list of distinct months keeps it ascending and adds exactly that month |
| CaseEndpoints.MonthsOf | backend/app/api/v1/endpoints/cases.py:319-325 | `GROUP BY year, month ORDER BY year, month`: ascending, and a month is listed iff some case was created in it |
| CaseEndpoints.MonthRows | backend/app/api/v1/endpoints/cases.py:327-330 | one row per listed month, in order, named by `%b` |
| CaseEndpoints.MonthlyTrend | backend/app/api/v1/endpoints/cases.py:317-330 | one entry per month in which a recent case was created |
| CaseEndpoints.MonthlyTrendMonths | backend/app/api/v1/endpoints/cases.py:317-330 | the trend is oldest month first and lists a month, by its `%b` name, iff a recent case was created in it |
| CaseEndpoints.MonthlyTrendCounts | backend/app/api/v1/endpoints/cases.py:319-330 | each row counts that month's recent cases, and no count is zero |
| CaseEndpoints.MonthlyTrendTotal | backend/app/api/v1/endpoints/cases.py:317-330 | the counts add up to the number of the caller's cases created in the last 180 days |
| CaseEndpoints.MonthRowCounts | backend/app/api/v1/endpoints/cases.py:319-322 | each row's count is the number of cases created in its month |
| CaseEndpoints.RowsTotal | backend/app/api/v1/endpoints/cases.py:319-325 | over distinct months covering every case, each case is counted exactly once |
| CaseEndpoints.NoRowsCounted | backend/app/api/v1/endpoints/cases.py:319-325 | with no cases every month's count is zero |
| CaseEndpoints.RowsCons | backend/app/api/v1/endpoints/cases.py:319-325 | one more case adds one to the total iff its month is listed |
| CaseEndpoints.CaseStatsAsWritten | backend/app/api/v1/endpoints/cases.py:264-339 | as written: totals over visible cases, but the upcoming count covers every owned case, hidden ones included; `monthly_trend` has one entry per recent month |
| CaseEndpoints.StatsCountHiddenHearing | backend/app/api/v1/endpoints/cases.py:293-297 | a hidden case with a hearing tomorrow is counted by the dashboard and absent from the upcoming-hearings list |
| CaseEndpoints.GetCaseStats | backend/app/api/v1/endpoints/cases.py:264-339 | corrected: the upcoming count is the length of the 7-day upcoming-hearings list; the per-status counts sum to `total_cases`; types present iff counted; `monthly_trend` is as written, its counts positive and summing to the caller's cases of the last 180 days |
| CaseEndpoints.CountStatusCons | backend/app/api/v1/endpoints/cases.py:300-307 | counting a status splits over the first case and the rest |
| CaseEndpoints.ByStatusTotal | backend/app/api/v1/endpoints/cases.py:300-307 | the map's total is the sum of the five status counts |
| CaseEndpoints.StatusPartition | backend/app/api/v1/endpoints/cases.py:300-307 | every case has exactly one status, so the per-status counts add up to the number of cases |
| DocumentEndpoints.AuthorizeBy | backend/app/api/v1/endpoints/documents.py:94-107 | 404 iff no document matches; otherwise the first match, refused with the given 403 message iff its case belongs to someone else; on a consistent database no other error arises |
| DocumentEndpoints.ParentCaseExists | backend/app/db/models.py:191 | on a consistent database every document's case row exists |
| DocumentEndpoints.Authorize | backend/app/api/v1/endpoints/documents.py:61-75 | 404 "Document not found" iff no document has the id, then the 403 for another advocate's case; success names the caller's own document with that id |
| DocumentEndpoints.GetDocuments | backend/app/api/v1/endpoints/documents.py:22-50 | refused iff the bounds fail (`skip >= 0`, `1 <= limit <= 100`; a 422) or a category filter names no category (a 500); otherwise exactly the `skip`/`limit` window of the caller's filtered documents sorted newest first |
| DocumentEndpoints.ListingCorrect | backend/app/api/v1/endpoints/documents.py:34-48 | the listing is sorted newest first and holds a document iff it belongs to one of the caller's cases and passes the case and category filters |
| DocumentEndpoints.EveryDocumentInSomeWindow | backend/app/api/v1/endpoints/documents.py:46-48 | every document the listing holds is returned by some valid `skip` with the same `limit` |
| DocumentEndpoints.SortedMembers | backend/app/api/v1/endpoints/documents.py:46 | ordering by `created_at` descending rearranges the rows and loses none |
| DocumentEndpoints.GetDocumentsNewestFirst | backend/app/api/v1/endpoints/documents.py:46-48 | the returned window is sorted newest first |
| DocumentEndpoints.GetDocumentsByCase | backend/app/api/v1/endpoints/documents.py:233-261 | fails iff the case gate fails, with the gate's own error (404 for no case, 403 "Not authorized to access this case"); then exactly the documents of that case, newest first |
| DocumentEndpoints.GetDocument | backend/app/api/v1/endpoints/documents.py:53-77 | the document with that id, only when its case is the caller's; fails iff the document gate fails, with the gate's own error (404 "Document not found" or the 403) |
| DocumentEndpoints.GetPresignedUrl | backend/app/api/v1/endpoints/documents.py:80-116 | `expires_in` outside 60..86400 is refused; in range, it fails exactly when the key lookup does: 404 for an unknown key, 403 "Not authorized to access this document" when the first document with that key is in another advocate's case; success is `https://{bucket}.s3.amazonaws.com/{s3_key}?expires={expires_in}` for the caller's own document |
| Common.IntText | backend/app/api/v1/endpoints/documents.py:111 | the decimal text of a number is a non-empty string of digits with no leading zero |
| Common.IntegerText | backend/app/services/ai_service.py:98 | an integer's text carries a minus sign exactly when it is negative, followed by the digits of its magnitude |
| DocumentEndpoints.ApplyUpdate | backend/app/api/v1/endpoints/documents.py:145-148 | only supplied columns change, plus `updated_at`; a NULL title or an unknown category is refused by the database |
| DocumentEndpoints.ReplaceDocumentKeepsConsistent | backend/app/db/models.py:184-200 | rewriting a document with the same id, case and key keeps every constraint |
| DocumentEndpoints.UpdateDocument | backend/app/api/v1/endpoints/documents.py:119-152 | a bad title is a 422 with no change; then the 404/403 gate with no change; otherwise only that row is replaced; constraints are kept |
| DocumentEndpoints.RemoveAt | backend/app/api/v1/endpoints/documents.py:186 | removing one row keeps the others in order |
| DocumentEndpoints.RemoveDocumentKeepsConsistent | backend/app/db/models.py:184-200 | removing a document no history row names keeps every constraint, including the `order_document_id` foreign key |
| DocumentEndpoints.DeleteDocument | backend/app/api/v1/endpoints/documents.py:155-193 | 404, then 403, then 423 for a locked document, then a 500 when a history row names it in `order_document_id` (the foreign key at backend/app/db/models.py:258 has no ON DELETE), each with no change; otherwise exactly that row is removed |
| DocumentEndpoints.LockedNeverDeleted | backend/app/api/v1/endpoints/documents.py:179-184 | a locked document is either refused by the gate or found locked: no request deletes it (423 Locked, section 11.3 of RFC 4918) |
| DocumentEndpoints.Confirmed | backend/app/api/v1/endpoints/documents.py:224-225 | confirmation sets `upload_status` completed and `uploaded_at`, and changes nothing else but `updated_at` |
| DocumentEndpoints.ConfirmTwice | backend/app/api/v1/endpoints/documents.py:224-225 | confirming again leaves the status completed and only moves the timestamps |
| DocumentEndpoints.ConfirmUpload | backend/app/api/v1/endpoints/documents.py:196-230 | the 404/403 gate with no change; otherwise only that row becomes confirmed |
| DocumentEndpoints.ByCategory | backend/app/api/v1/endpoints/documents.py:286-293 | a category is present iff some document has it, with its count and total size |
| DocumentEndpoints.ByUploadStatus | backend/app/api/v1/endpoints/documents.py:295-301 | an upload status is present iff some document has it, with its count |
| DocumentEndpoints.AllCategoriesListed | backend/app/db/models.py:42-48 | the category list used for the counts names every category |
| DocumentEndpoints.AllUploadStatusesListed | backend/app/db/models.py:50-55 | the status list used for the counts names every upload status |
| DocumentEndpoints.GetDocumentStats | backend/app/api/v1/endpoints/documents.py:264-322 | all zeros for a caller with no cases; otherwise the total is the number of the caller's documents, the storage is the sum of their sizes (0 when none), and the per-category and per-status maps count them |
| DocumentEndpoints.CategoryTotalCounts | backend/app/api/v1/endpoints/documents.py:310-319 | the per-category counts add up to the total number of documents |
| DocumentEndpoints.CategoryEntry | backend/app/api/v1/endpoints/documents.py:310-316 | each category's entry counts exactly the documents of that category, and a category without documents has no entry |
| DocumentEndpoints.CountCategoryCons | backend/app/api/v1/endpoints/documents.py:286-293 | counting a category splits over the first document and the rest |
| DocumentEndpoints.CategoryPartition | backend/app/api/v1/endpoints/documents.py:286-293 | every document has exactly one category, so the per-category counts add up to the number of documents |
| AuthEndpoints.LoginUserIndex | backend/app/api/v1/endpoints/auth.py:60-74 | 401 iff no user has the e-mail or the password does not check against the first such user's hash; 403 iff it checks but the account is inactive; otherwise the index of that first, active user |
| AuthEndpoints.FirstIsFirstIndex | backend/app/api/v1/endpoints/auth.py:60-62 | the first-match index and the e-mail lookup agree: none iff no index, else the row at the index |
| AuthEndpoints.LoggedIn | backend/app/api/v1/endpoints/auth.py:84 | the last-login time becomes `now`; every other field except `updated_at` is unchanged |
| AuthEndpoints.ReplaceUserKeepsConsistent | backend/app/db/models.py:99-104 | replacing a user row by one with the same id, e-mail, KHC id and mobile keeps every uniqueness constraint |
| AuthEndpoints.Login | backend/app/api/v1/endpoints/auth.py:58-97 | an e-mail `EmailStr` rejects is a 422 with no change; otherwise the normalised e-mail is looked up; on refusal the error and an unchanged database; on success only that user's last-login changes, and the answer carries one token (as access and refresh token) for the user's id, "bearer" and the user summary; consistency is preserved |
| AuthEndpoints.NewRegistration | backend/app/api/v1/endpoints/auth.py:112-153 | 422 for an invalid request (e-mail included); otherwise a row iff the normalised e-mail, KHC id, id and mobile are all new and every value fits its VARCHAR column (backend/app/db/models.py:99-106); 400 "Email already registered" iff the e-mail is taken; the row holds the normalised e-mail, the request's fields, the hashed password, role advocate, active and not verified |
| AuthEndpoints.AppendUserKeepsConsistent | backend/app/db/models.py:99-104 | appending a user whose id, e-mail, KHC id and mobile are new keeps every uniqueness constraint |
| AuthEndpoints.Register | backend/app/api/v1/endpoints/auth.py:112-153 | the result is `NewRegistration`'s; on error the database is unchanged, on success exactly that row is appended; consistency is preserved |
| AuthEndpoints.RegisteredCanLogIn | backend/app/api/v1/endpoints/auth.py:60-74 | after a successful registration, logging in with the same e-mail and password finds the new row: both normalise the e-mail the same way (when checking accepts what hashing produced) |
| AuthEndpoints.NoEarlierEmail | backend/app/api/v1/endpoints/auth.py:115-123 | a row appended with an e-mail no earlier row has is the one the e-mail lookup finds |
| OcrEndpoint.Joined | backend/app/api/v1/endpoints/ocr.py:28-31 | every page contributes its text and a blank-line separator, so the text is at least two characters per page |
| OcrEndpoint.ConcatPages | backend/app/api/v1/endpoints/ocr.py:28-31 | the loop builds exactly the joined page texts |
| OcrEndpoint.JoinedBlankIffPagesBlank | backend/app/api/v1/endpoints/ocr.py:33 | the joined text is blank iff every page's text is blank |
| OcrEndpoint.AllSpaceConcat | backend/app/api/v1/endpoints/ocr.py:33 | a concatenation is blank iff both parts are |
| OcrEndpoint.ExtractTextAsWritten | backend/app/api/v1/endpoints/ocr.py:19-43 | as written: 400 for a name not ending in ".pdf"; 500 "OCR failed: …" when reading fails; 500 "OCR failed: 400: No text found …" exactly when every page is blank; otherwise the joined text, the page count and the file name |
| OcrEndpoint.ScannedPdfIsServerError | backend/app/api/v1/endpoints/ocr.py:33-43 | as written, a PDF whose pages are all blank gives 500 "OCR failed: 400: No text found …" instead of the 400 |
| OcrEndpoint.ExtractTextOutcome | backend/app/api/v1/endpoints/ocr.py:19-43 | corrected: 400 for a non-PDF name; 500 "OCR failed: …" when reading fails; 400 "No text found …" when the text is blank; otherwise the joined text, the page count and the file name |
| OcrEndpoint.ExtractText | backend/app/api/v1/endpoints/ocr.py:12-43 | the endpoint, with its page loop, gives `ExtractTextAsWritten` |
| OcrEndpoint.AsWrittenDiffersOnlyOnBlankPdf | backend/app/api/v1/endpoints/ocr.py:33-43 | the as-written and corrected endpoints agree on every input but a readable PDF with blank text |
| AiService.ExtractWithPypdf | backend/app/services/ai_service.py:147-165 | the loop returns the non-empty texts of the first ten pages, each followed by a newline, and "" for a PDF the reader cannot open |
| AiService.LaterPagesIgnored | backend/app/services/ai_service.py:156 | pages after the tenth never change the extracted text |
| AiService.PageLinesEmptyIff | backend/app/services/ai_service.py:156-161 | the extracted text is empty iff every page read is empty |
| AiService.Sections | backend/app/services/ai_service.py:124-143 | there is at most one section per document |
| AiService.SectionsAreContributors | backend/app/services/ai_service.py:126-143 | the sections are exactly as many as the documents whose download succeeded with more than 50 non-blank-stripped characters, and each is such a document's text under its title header |
| AiService.ExtractTextFromDocuments | backend/app/services/ai_service.py:120-145 | the loop returns the contributing sections joined by blank lines, in document order |
| AiService.DocumentSection | backend/app/services/ai_service.py:127-143 | one document yields a section exactly when its download succeeds and its text has more than 50 characters once stripped; the section is the headed text |
| AiService.SectionsSnoc | backend/app/services/ai_service.py:126-139 | the next document in the loop adds its section exactly when it contributes, after the sections of the earlier documents |
| AiService.AnalyzeWithClaude | backend/app/services/ai_service.py:167-228 | a failed invocation gives the "Analysis failed" result with the error; a reply without JSON gives its first 500 characters as summary, "medium" urgency and empty issue and deadline lists; a parsed object gets `_meta` with the summed token usage; a fenced or braced block that does not parse gives the failure result with the parser's message; a whole reply that parses to a list, string, number, boolean or null fails on the `_meta` assignment with Python's TypeError text; `_meta` is present iff the reply was an object or had no JSON |
| AiService.StartRow | backend/app/services/ai_service.py:50-65 | the case's row is set to processing, or a new processing row is created with this service's model id and no retries |
| AiService.AnalysedDocuments | backend/app/services/ai_service.py:70-73 | exactly min(5, number of completed uploads of the case) documents, each a completed upload of this case; so the list is empty, and the analysis fails with "No documents available", iff the case has no completed upload (which five is left open: the query has no ORDER BY) |
| AiService.FinishAnalysis | backend/app/services/ai_service.py:75-107 | failed "No documents available" without documents, failed "Insufficient text extracted" below 50 stripped characters; a committed row is completed or failed, keeps its id, case, advocate, retry count, model version and creation time, with `updated_at` now; with enough text the outcome is `StoreAnalysis` of the reply's result (which gives every column of the completed row), so when completed it holds the result and the `processed_at` time; with enough text the commit is refused iff the urgency is not a level or the summary is a list or object |
| AiService.StoreAnalysis | backend/app/services/ai_service.py:96-104 | with a numeric token count, the commit of the result is refused iff the urgency is not a level or the summary is a list or object; a committed row is completed at `now`, holds the result, and holds the urgency, summary and token count columns the result's values give; every other column (id, case, advocate, model version, error message, retry count, creation time) is kept |
| AiService.SummaryColumn | backend/app/services/ai_service.py:98 | the text column takes a string as is, null as NULL, a number or boolean as its text, and refuses a list or object (`case_summary` is a `Text` column, backend/app/db/models.py:286) |
| AiService.TokenCountIsNumber | backend/app/services/ai_service.py:101 | the token count read from the result is always a number |
| AiService.ScalarSummaryStoredAsText | backend/app/services/ai_service.py:96-104 | a reply object with a numeric or boolean `case_summary` and a valid urgency completes, storing the value's text |
| AiService.FallbacksCompleteAsMedium | backend/app/services/ai_service.py:96-98 | with enough text, an unreachable model or a reply without JSON still completes the analysis with "medium" urgency |
| AiService.FailedResultColumns | backend/app/services/ai_service.py:96-102 | the failure result gives the row "medium" urgency, the summary "Analysis failed" and token count 0, since it has no `_meta` |
| AiService.NoJsonColumns | backend/app/services/ai_service.py:96-102 | the no-JSON result gives the row "medium" urgency, a string summary and the summed token usage as its token count |
| AiService.CompletedTokenCount | backend/app/services/ai_service.py:102 | a completed analysis of a parsed object stores the reported input plus output tokens |
| AiService.ReplaceAnalysisKeepsConsistent | backend/app/db/models.py:274 | updating the case's analysis row in place keeps one analysis per case and every reference |
| AiService.AppendAnalysisKeepsConsistent | backend/app/db/models.py:274 | inserting the first analysis of an existing case keeps one analysis per case and every reference |
| AiService.AnalyzeCase | backend/app/services/ai_service.py:41-118 | exactly the case's analysis row is stored, as started and then finished; an insert that cannot be made, or a reply value a column cannot hold, ends in an exception with the row left processing; consistency is preserved |
| AiService.StoreKeepsConsistent | backend/app/db/models.py:181 | storing the case's analysis row, in place of its existing one or as an insertable new one with the same case, keeps every constraint, including one analysis per case |
| AiService.CompletedKeepsEarlierError | backend/app/services/ai_service.py:96-104 | a completed row keeps the `error_message` it had before (a retry after a failure does not clear it) |
| AiService.ChatPreamble | backend/app/services/ai_service.py:312-329 | the conversation opens with two messages: the user-role document context, then the assistant's fixed acknowledgement |
| AiService.ChatMessageList | backend/app/services/ai_service.py:309-342 | the document context and the acknowledgement, then the last five history messages, then the question: `3 + min(5, |history|)` messages |
| AiService.ChatMessages | backend/app/services/ai_service.py:309-342 | the loop builds exactly that message list |
| AiService.ChatWithDocument | backend/app/services/ai_service.py:280-360 | "Document not found" for an unknown id; an apology for a failed download; "Could not extract text from document" below 50 stripped characters; otherwise the model's answer (or an apology) to that message list |
| Middleware.ClaimHeader | webapp/src/middleware.ts:32-34 | a header set from a token claim holds the claim, or "undefined" when the claim is missing |
| Middleware.AuthPageNotApi | webapp/src/middleware.ts:13-14 | no path is both a sign-in page and an API route |
| Middleware.Decide | webapp/src/middleware.ts:7-51 | sign-in pages: a signed-in user goes to `/dashboard`, others pass; `/api` outside `/api/auth`: 401 without a token, else passes with `x-user-id`/`x-user-role` from the token (and only there); an anonymous request anywhere else goes to `/auth/signin` with the path as `callbackUrl`; a signed-in one passes |
| Middleware.Route | webapp/src/middleware.ts:53-62 | a path outside the six matcher entries passes untouched; a matched one is decided by the middleware |
| Middleware.RootChars | webapp/src/middleware.ts:53-62 | a path matched by `/x/:path*` begins with `/x` |
| Middleware.AuthPageIsAuthEntry | webapp/src/middleware.ts:13 | among matched paths, "starts with /auth" is exactly the `/auth/:path*` entry |
| Middleware.NoAnonymousAccess | webapp/src/middleware.ts:26-48 | no matched path other than a sign-in page lets an anonymous request through |
| Middleware.AnonymousAuthApiRedirected | webapp/src/middleware.ts:26-48 | as written, every path beginning with `/api/auth` (a bare prefix test, so `/api/authors` too) is matched; anonymous, it is redirected to `/auth/signin` rather than refused with 401; signed in, it passes without the user headers |
| Middleware.SignedInLeavesAuthPages | webapp/src/middleware.ts:17-21 | a signed-in user opening any sign-in page is redirected to `/dashboard` |
| Middleware.DecideWithPublicApi | webapp/src/middleware.ts:16-41 | `/api/auth` requests pass whether or not there is a session; every other request is decided as the written middleware decides it |
| Middleware.RouteWithPublicApi | webapp/src/middleware.ts:53-62 | the same matcher in front of the corrected decision |
| Middleware.PublicApiAdmitsSignIn | webapp/src/middleware.ts:16-48 | corrected: anonymous requests reach the next-auth routes, and every other matched path except the sign-in pages still stops them |
| Middleware.PublicApiOnlyChangesAnonymous | webapp/src/middleware.ts:16-48 | the written and corrected middleware differ exactly on anonymous requests to `/api/auth` |
| CronRoute.Get | webapp/src/app/api/cron/process-documents/route.ts:5-28 | 401 iff `CRON_SECRET` is unset or empty or the header is not exactly "Bearer " + secret; 200 with success, the message and the timestamp iff authorised and the job completed; otherwise 500 with the error's message, or "Unknown error" for a thrown non-`Error` |
| CronRoute.Post | webapp/src/app/api/cron/process-documents/route.ts:31-33 | POST answers exactly as GET does |
| CronRoute.UnsetSecretRefusesAll | webapp/src/app/api/cron/process-documents/route.ts:10-12 | with no secret, or an empty one, every request gets 401 whatever its header |
| CronRoute.OnlyExactBearerAccepted | webapp/src/app/api/cron/process-documents/route.ts:10 | with a secret set, a header opens the route iff it is "Bearer " followed by exactly the secret |
| CronRoute.OtherSchemeRefused | webapp/src/app/api/cron/process-documents/route.ts:10 | the scheme is case-sensitive: any other 7-character scheme, such as `bearer ` or `BEARER `, followed by the right secret is refused |
| DocumentClassifier.FirstRule | webapp/src/lib/ai/core/document-classifier-ocr.ts:106-119 | a rule table read first match first gives OTHER or the type of one of its rules |
| DocumentClassifier.FilenameType | webapp/src/lib/ai/core/document-classifier-ocr.ts:104-119 | the filename rules never give DAILY_ORDER, EVIDENCE or CORRESPONDENCE |
| DocumentClassifier.FilenameTypeIsFirstRule | webapp/src/lib/ai/core/document-classifier-ocr.ts:104-119 | the if/else chain on the lower-cased name is the priority-ordered keyword table (petition/writ, counter/affidavit, rejoinder, order, judgment, annex) read first match first |
| DocumentClassifier.RuleStep | webapp/src/lib/ai/core/document-classifier-ocr.ts:106-119 | a table's first rule decides when one of its keywords occurs; otherwise the rest of the table does |
| DocumentClassifier.TwoKeywords | webapp/src/lib/ai/core/document-classifier-ocr.ts:107 | a two-keyword rule fires iff either keyword occurs |
| DocumentClassifier.OneKeyword | webapp/src/lib/ai/core/document-classifier-ocr.ts:111 | a one-keyword rule fires iff the keyword occurs |
| DocumentClassifier.Fallback | webapp/src/lib/ai/core/document-classifier-ocr.ts:99-129 | the type of the first matching filename rule, the file name as title, the text, confidence 0.6 and empty metadata |
| DocumentClassifier.ClassifyDocument | webapp/src/lib/ai/core/document-classifier-ocr.ts:37-97 | under 100 characters: OTHER with confidence 0.3 and empty metadata; otherwise the model's type and confidence, its title or the file name, its metadata or `{}`; when the model call or parse fails, the filename fallback |
| DocumentClassifier.ShortTextIgnoresModel | webapp/src/lib/ai/core/document-classifier-ocr.ts:43-52 | a short text is classified the same whatever the model would reply |
| DocumentClassifier.ClassifyBatch | webapp/src/lib/ai/core/document-classifier-ocr.ts:131-150 | one result per document, in input order, each that document's classification; one pause between consecutive chunks of five |
| ProcessDocuments.ErrorText | webapp/src/lib/jobs/process-documents.ts:119 | a thrown `Error` is recorded by its message, anything else as "Processing failed" |
| ProcessDocuments.Selected | webapp/src/lib/jobs/process-documents.ts:20-28 | exactly min(10, number eligible) documents, each one with upload COMPLETED, OCR PENDING and no text, oldest upload first; when ten or fewer are eligible, all of them (with `SelectedAreOldest`: the ten oldest) |
| ProcessDocuments.EligibleSorted | webapp/src/lib/jobs/process-documents.ts:20-28 | ordering the eligible rows by upload time keeps exactly those rows and sorts them |
| ProcessDocuments.SelectedAreOldest | webapp/src/lib/jobs/process-documents.ts:26-27 | no eligible document left out was uploaded before one that was picked |
| ProcessDocuments.Outcome | webapp/src/lib/jobs/process-documents.ts:48-121 | success iff a body came back whose text has at least 50 characters and the classifier answered, and then the text and the classifier's confidence and metadata; otherwise the S3 error's message, "Empty S3 response", "Insufficient text extracted from PDF" or the classifier's error |
| ProcessDocuments.ExtractorFailureFails | webapp/src/lib/jobs/process-documents.ts:69-79 | a failing extractor is swallowed and the empty text then fails the length check |
| ProcessDocuments.MarkProcessing | webapp/src/lib/jobs/process-documents.ts:43-46 | only the OCR status changes, to PROCESSING |
| ProcessDocuments.Settle | webapp/src/lib/jobs/process-documents.ts:90-98 | the row ends COMPLETED with the text, confidence and metadata, or FAILED with the error message; id and case are kept |
| ProcessDocuments.UpdateById | webapp/src/lib/jobs/process-documents.ts:43-46 | exactly the rows with that id are changed |
| ProcessDocuments.ExpireInsights | webapp/src/lib/jobs/process-documents.ts:101-104 | every insight of the case, and only those, expires at `now` |
| ProcessDocuments.DocsAfter | webapp/src/lib/jobs/process-documents.ts:38-123 | processing keeps the number of document rows |
| ProcessDocuments.InsightsAfter | webapp/src/lib/jobs/process-documents.ts:100-104 | processing keeps the number of insight rows |
| ProcessDocuments.EverySelectedSettled | webapp/src/lib/jobs/process-documents.ts:38-123 | after the run no selected document is left PROCESSING: each is COMPLETED or FAILED, and every other row is unchanged |
| ProcessDocuments.InsightsExpiredExactly | webapp/src/lib/jobs/process-documents.ts:100-104 | the insights of exactly the cases with a successfully processed document are expired |
| ProcessDocuments.CountSnoc | webapp/src/lib/jobs/process-documents.ts:106 | the success count grows by one exactly for a successful document |
| ProcessDocuments.Attempt | webapp/src/lib/jobs/process-documents.ts:48-98 | one document's attempt ends as `Outcome` says |
| ProcessDocuments.AfterSnoc | webapp/src/lib/jobs/process-documents.ts:38-123 | processing one more selected document applies the PROCESSING update, then the settling update, to the table left by the earlier ones, and expires the case's insights only when that document succeeded |
| ProcessDocuments.ProcessOne | webapp/src/lib/jobs/process-documents.ts:39-122 | one iteration reports success exactly when the document's outcome succeeded, leaves its row settled by that outcome after the PROCESSING mark, and expires the case's insights only on success |
| ProcessDocuments.ProcessUnprocessedDocuments | webapp/src/lib/jobs/process-documents.ts:16-127 | `processed` counts the selected documents that succeeded and `processed + failed` is the number selected; `skipped` stays 0; the tables end as `DocsAfter` and `InsightsAfter` describe |
| CaseBundles.FirstIsFirstOfType | webapp/src/lib/ai/core/case-bundle-processor.ts:46-48 | `find` gives nothing iff no document has the type, otherwise the earliest one that has it |
| CaseBundles.OrganizeBundle | webapp/src/lib/ai/core/case-bundle-processor.ts:42-54 | empty case id and the documents unchanged; the first petition, counter affidavit and rejoinder; exactly the annexures, and exactly the interim and daily orders |
| CaseBundles.UnslottedDocumentsStayOut | webapp/src/lib/ai/core/case-bundle-processor.ts:46-52 | a document of no slotted type lands in no slot |
| CaseBundles.OrganizeAppend | webapp/src/lib/ai/core/case-bundle-processor.ts:46-52 | a document added at the end only fills an empty first-match slot and is appended to its list slot, so the slots keep input order |
| CaseBundles.FilterAppend | webapp/src/lib/ai/core/case-bundle-processor.ts:49-52 | filtering a list with one more document appends it iff it passes |
| CaseBundles.FirstAppend | webapp/src/lib/ai/core/case-bundle-processor.ts:46-48 | `find` on a list with one more document changes only when nothing matched before and the new one does |
| CaseBundles.BundleContext | webapp/src/lib/ai/core/case-bundle-processor.ts:87-110 | the context always begins with the "# Case Bundle Context" header |
| CaseBundles.ContextIgnoresUnsectionedFields | webapp/src/lib/ai/core/case-bundle-processor.ts:87-110 | the case id, the document list and the annexures never affect the context |
| CaseBundles.EmptyBundleContext | webapp/src/lib/ai/core/case-bundle-processor.ts:88-109 | with no petition, counter affidavit, rejoinder or order the context is the bare header |
| CaseBundles.BuildBundleContext | webapp/src/lib/ai/core/case-bundle-processor.ts:87-110 | the appends build exactly the header, the present slot sections and the orders section |
| CaseBundles.AppendOrderEntries | webapp/src/lib/ai/core/case-bundle-processor.ts:104-106 | the `forEach` appends one title-and-text entry per order, in order |
| CaseBundles.FromUpload | webapp/src/lib/ai/utils/bundle-builder.ts:5-12 | id and file name kept; text or ""; type OTHER iff the classification or its type is missing (or is OTHER); confidence 0 and metadata `{}` without a classification; with one, its confidence, its non-empty type, and its metadata when truthy, otherwise `{}` |
| CaseBundles.MapUploads | webapp/src/lib/ai/utils/bundle-builder.ts:5-12 | one classified document per upload, in order |
| CaseBundles.BundleFromUploads | webapp/src/lib/ai/utils/bundle-builder.ts:4-25 | the documents are exactly the uploads mapped one by one (`MapUploads`), so each keeps its id, file name, type, text and confidence; the case id of the first upload, or "" |
| CaseBundles.UploadSlotsMatchOrganize | webapp/src/lib/ai/utils/bundle-builder.ts:14-24 | its slots are exactly those `organizeBundl` assigns to the same documents |
| CaseBundles.CategoryToType | webapp/src/lib/utils/bundle-builder.ts:45-71 | case files become petition, counter affidavit or rejoinder by title; annexures stay annexures; orders become interim orders; judgments and miscellany become OTHER; never a daily order, judgment, evidence or correspondence |
| CaseBundles.FromStored | webapp/src/lib/utils/bundle-builder.ts:23-30 | id and title kept; the type from the category and title; text or ""; confidence 1.0 iff the stored one is missing, 0 or 1.0, and any other stored confidence kept; stored metadata kept when truthy, otherwise `{}` |
| CaseBundles.MapStored | webapp/src/lib/utils/bundle-builder.ts:23-30 | one classified document per stored row, in order |
| CaseBundles.BundleRows | webapp/src/lib/utils/bundle-builder.ts:7-17 | exactly the case's completed documents, oldest upload first |
| CaseBundles.BundleForCase | webapp/src/lib/utils/bundle-builder.ts:6-43 | "Case not found" iff the case does not exist; otherwise the case id and its completed documents mapped in upload order |
| CaseBundles.StoredSlotsMatchOrganize | webapp/src/lib/utils/bundle-builder.ts:32-42 | its slots are exactly those `organizeBundl` assigns |
| CaseBundles.StoredJudgmentsUnslotted | webapp/src/lib/utils/bundle-builder.ts:65 | a stored judgment becomes OTHER and lands in no slot |
| Order.SortByCorrect | backend/app/api/v1/endpoints/cases.py:75-79 | ordering by a column keeps exactly the rows (a permutation) and sorts them ascending or descending, NULLs last when ascending |
| Order.Page | backend/app/api/v1/endpoints/cases.py:82-83 | `OFFSET skip LIMIT limit`: at most `limit` rows, `min(limit, n - skip)` of them when `skip <= n`, the i-th being row `skip + i` |
| Order.PageSorted | backend/app/api/v1/endpoints/cases.py:74-83 | a page of a sorted listing is sorted |
| Order.PageCovers | backend/app/api/v1/endpoints/cases.py:81-83 | a row whose index lies in the window `[offset, offset + limit)` appears on that page, at its index minus the offset |
| Common.PercentMatchesAll | backend/app/api/v1/endpoints/cases.py:66 | a LIKE pattern of a lone `%` matches every string |
| Common.LiteralThenPercent | backend/app/api/v1/endpoints/cases.py:66 | for a literal prefix, `w%` matches exactly the strings starting with `w` |
| Common.SurroundedLiteral | backend/app/api/v1/endpoints/cases.py:66-71 | for a literal `w`, `%w%` matches exactly the strings containing `w` |
| Common.IlikeLiteral | backend/app/api/v1/endpoints/cases.py:66-71 | for a term without wildcards or escapes, ILIKE against `%term%` is case-insensitive containment |
| WebModels.WebDatabase.constructor | webapp/src/lib/jobs/process-documents.ts:20-28 | a new database handle holds exactly the given cases, documents and insights |
| WebUtils.ToUint32 | webapp/src/lib/utils/file.ts:12 | `>>> 0` gives a value in `[0, 2^32)`, keeps such values and maps -1 and -2 to 2^32-1 and 2^32-2 |
| WebUtils.SliceFrom | webapp/src/lib/utils/file.ts:12 | `slice(start)` is "" past the end, otherwise the suffix from `start` |
| WebUtils.FileExtension | webapp/src/lib/utils/file.ts:11-13 | the extension is always a suffix of the name |
| WebUtils.FileExtensionCases | webapp/src/lib/utils/file.ts:11-13 | the text after the last '.', or "" when there is no '.' or the only '.' starts the name; it never contains a '.' |
| WebUtils.ValidatePdf | webapp/src/lib/utils/file.ts:15-27 | valid iff the type is `application/pdf` and the size is at most 50 MiB, and an error is present iff invalid: "File must be a PDF" first, then "File size must not exceed 50MB" |
| WebUtils.DaysUntil | webapp/src/lib/utils/date.ts:26-31 | the ceiling of the distance in days: `(r - 1)` days `<` target `- now <= r` days |
| WebUtils.DaysUntilUnique | webapp/src/lib/utils/date.ts:30 | the day count is the only integer within those bounds |
| WebUtils.DaysUntilNearNow | webapp/src/lib/utils/date.ts:30 | less than a day in the past counts as 0 days; one millisecond ahead counts as 1 day |
| WebUtils.DaysUntilMonotone | webapp/src/lib/utils/date.ts:26-31 | a later target never gives fewer days |
| WebUtils.UpcomingWindow | webapp/src/lib/utils/date.ts:33-36 | upcoming within `days` iff the target is after `now` minus one day and no later than `now` plus `days` days |
| WebUtils.LabelAsWritten | webapp/src/lib/utils/format.ts:13 | as written, `map[key] \|\| key` gives the label for a listed key, an inherited function for an `Object.prototype` member name, and the key otherwise |
| WebUtils.FormatDocumentCategoryAsWritten | webapp/src/lib/utils/format.ts:18-28 | as written, the five categories get their labels |
| WebUtils.ConstructorCategoryIsAFunction | webapp/src/lib/utils/format.ts:27 | as written, "constructor" yields a function and "\_\_proto\_\_" the prototype object, not a string |
| WebUtils.Label | webapp/src/lib/utils/format.ts:13 | own keys only: the label for a listed key, the key itself for anything else |
| WebUtils.LabelAgreesAwayFromPrototype | webapp/src/lib/utils/format.ts:13 | the written and corrected lookups agree on every key that is listed or is not an inherited member name |
| WebUtils.FormatCaseStatus | webapp/src/lib/utils/format.ts:4-14 | corrected: the five upper-case statuses get their labels; anything else is returned unchanged (on the `CaseStatus` values its type admits, the written lookup agrees, by `LabelAgreesAwayFromPrototype`) |
| WebUtils.FormatDocumentCategory | webapp/src/lib/utils/format.ts:18-28 | corrected: the five upper-case categories get their labels; anything else is returned unchanged |
| WebUtils.FormatUploadStatus | webapp/src/lib/utils/format.ts:30-39 | corrected: the four upper-case statuses get their labels; anything else is returned unchanged |
| WebUtils.LowerCaseNamesPassThrough | webapp/src/lib/utils/format.ts:5-11 | the lookups are case-sensitive: any name holding a lower-case letter, such as the backend's `case_file`, passes through all three unchanged |
| WebUtils.LabelsNonEmpty | webapp/src/lib/utils/format.ts:5-36 | every label is non-empty, so the `\|\| key` fallback never replaces a listed label |
| AnalysisTypes.GuardShape | webapp/src/types/analysis.ts:128-136 | the guard holds iff the value is an object with both `caseTypeClassification` and `keyLegalIssues`, the latter an array |
| AnalysisTypes.GuardIgnoresOtherFields | webapp/src/types/analysis.ts:128-136 | only the two keys are inspected: changing any other field keeps the verdict |
| AnalysisTypes.ParseAnalysisContent | webapp/src/types/analysis.ts:138-154 | the stored value itself iff it passes the guard, otherwise null |
| AnalysisTypes.FalsyHasNoContent | webapp/src/types/analysis.ts:139 | a falsy stored value gives no content |
| AnalysisTypes.ToJsonValue | webapp/src/types/analysis.ts:165-167 | stored content passes the guard and parses back to itself |
| AnalysisTypes.ParseAiAnalysis | webapp/src/types/analysis.ts:157-162 | every other column copied; `analysis` present iff the stored value passes the guard, and then that value |
| AnalysisTypes.StoredContentRoundTrip | webapp/src/types/analysis.ts:157-167 | content written with `toJsonValue` reads back unchanged through `parseAIAnalysis` |

## Left out

- CaseEndpoints.GetCases: response serialisation is not modelled. `CaseResponse` declares `efiling_date: str` and `next_hearing_date: Optional[str]` (backend/app/db/schemas.py:94-96), but both columns are `TIMESTAMP` (backend/app/db/models.py:147, 158) and load as `datetime`, which Pydantic's `str` refuses. So the route's `response_model` check turns every non-empty page into a 500; the model returns the page the handler builds.
- CaseEndpoints.GetCase: the same `str`/`TIMESTAMP` mismatch fails `CaseDetailResponse` validation, so every authorised case is a 500 over HTTP; the model returns the dictionary the handler builds.
- CaseEndpoints.UpdateCase: the same mismatch fails the `CaseResponse` check after the commit, so over HTTP the caller gets a 500 although the update is stored; the model returns the updated row with the new state.
- AiService.FinishAnalysis: `processing_time_seconds` (backend/app/services/ai_service.py:101) is not stored; the clock is one parameter `now`, so the elapsed time is not modelled.
- FlaskApp.CasesDB.CreateCase: the source reads the clock twice (backend/app.py:135-136), so `created_at` and `updated_at` may differ by the time between the two reads; the model passes one `now` to both.
- Route order: `get_document_stats` (documents.py:264), `get_upcoming_hearings` (cases.py:238) and `get_case_stats` (cases.py:264) are declared after the `/{document_id}` and `/{case_id}` routes (documents.py:53, cases.py:117), whose UUID path parameter rejects `stats` and `upcoming-hearings`, so over HTTP these three paths answer 422. Path dispatch is not modelled; `DocumentEndpoints.GetDocumentStats`, `CaseEndpoints.UpcomingHearings` and `CaseEndpoints.GetCaseStats` give each handler's behaviour when it is invoked.
- S3, pypdf, pytesseract and pdf2image, bcrypt, JWT signing and decoding, Bedrock, the classifier's language model, UUID generation and the clock are not modelled. Their results are parameters: request outcomes, page texts, a password-check oracle, token claims, parsed replies, fresh ids and `now`.
- The SQL engine is not modelled. Tables are sequences, and a query is a filter, order and slice over them. A commit or query fails (a 500) only in the ways the model names: an enum literal that is not a label (the case status and document category filters, a case or document update), a value longer than its VARCHAR column (registration, case update), an AI analysis reply whose urgency is not a level or whose summary is a list or an object, a uniqueness clash, and a referenced document (the `order_document_id` foreign key, which has no ON DELETE). Other database errors are not modelled.
- Strings sort by code point. PostgreSQL's collation is not modelled.
- `CaseEndpoints.SortKey`: covers every column of the case record. Attributes of `Case` that are not columns of the record (the relationships, `efiling_details`, `khc_source_url`, `last_synced_at`, `search_vector`, the `transferred_*` columns and SQLAlchemy's own attributes) are treated like unknown names, which sort by `updated_at`.
- `CaseEndpoints.UpdateCase`: `next_hearing_date` arrives as a time. A string PostgreSQL cannot parse, which would also be a 500, is not modelled.
- `CaseEndpoints.GetCaseStats`: the calendar is a parameter. `monthIndex` gives the month of a `created_at` value as the database's session time zone sees it. `%b` is taken in the C locale.
- `Models.DeleteCase`: the order in which the session flushes its DELETEs is not modelled. A history row of the same case that names one of that case's documents is treated as removed together with it.
- `Schemas.EmailCheck`: the e-mail validator behind `EmailStr` (syntax, length and normalisation) is an oracle parameter. The model fixes only that one address is accepted or refused, and normalised, the same way everywhere.
- `FlaskApp.RegisterBody`: body fields that are neither absent, null nor strings (numbers, lists, objects), and a body that is not a JSON object, are not modelled.
- `FlaskApp.LoginBody`: the same restriction (backend/app.py:490-494): numeric, list or object fields, and a body that is not a JSON object, are not modelled.
- `FlaskApp.CasesDB.GetUserCases`: floats are not modelled. A bucket whose `created_at` values are all JSON arrays is modelled as raising, while Python would compare such lists element by element.
- Regular-expression extraction is not modelled: the parties, court, acts and sections in `extract_basic_info` (backend/app.py:246-277) and the JSON-in-markdown search in `_analyze_with_claude` (backend/app/services/ai_service.py:195-201). The matches arrive as inputs; the keyword scan and the 5/10 dedupe limits are modelled.
- Prompt texts are not modelled, apart from the chat context message. No decision depends on them.
- Floating point and display are not modelled: `formatFileSize`, the MB/GB rounding in the statistics, date-fns formatting and `calculateMD5` (no digest in the model).
- `WebUtils.DaysUntil`: JavaScript's floating-point division is modelled as an exact integer ceiling on integer milliseconds.
- Strings are sequences of characters. Case folding, `strip` and `isdigit`/`isupper` are ASCII only, with no Unicode tables.
- Webapp rows carry only the columns the webapp code reads or writes. The Prisma schema is not part of this model.
- The Flask app's JSON files and uploads on disk are not modelled. Its stores are kept in memory.
- `AiService.AnalyzeCase`: the handler's retry increment (backend/app/services/ai_service.py:109-118) runs but is never committed. The failures modelled are refused commits. After one, reading `retry_count` or committing again fails too, so the exception reaches the caller.
- `AiService.SummaryColumn`: a list is treated as refused. The database driver would send it as an array, which PostgreSQL might store in the text column as its text.
- `ProcessDocuments.ProcessUnprocessedDocuments`: Prisma updates do not fail. The case in which the failure-marking update itself throws, leaving a document PROCESSING, is outside the model.
- `DocumentClassifier.ClassifyBatch`: the calls within a chunk run concurrently in the source. The model classifies them one after another, which gives the same results because each call depends only on its own document.
- `Middleware.Route`: models webapp/src/middleware.ts only, its `middleware` function (lines 7-51) and its `config` matcher (lines 53-62). The separate file webapp/middleware.ts, which re-exports next-auth's default middleware with a matcher of its own (adding `/search` and `/settings`), is not part of this model, nor is the commented-out older middleware at lines 63-115 of webapp/src/middleware.ts.
- webapp/src/lib/ai/core/document-classifier.ts is not part of this model. The OCR job's call into it is a parameter.
- The columns of an `AIAnalysis` row other than `analysis` are one opaque map in `AnalysisTypes`.

## Findings

| source | as written | input that shows it | evidently intended | confidence | as-written member | corrected member |
|---|---|---|---|---|---|---|
| backend/app/api/v1/endpoints/upload.py:289-333 | the S3 multipart upload is initiated before `num_parts` divides by the unchecked `chunk_size`; the resulting error becomes a 500 and nothing aborts the upload | `file_size` 20000000, `chunk_size` 0: S3 initiates, then division by zero, 500, upload left open | reject a non-positive chunk size with 400 before any S3 request | not executed; high | Upload.ZeroChunkLeavesUploadOpen | Upload.InitiateMultipartUploadChecked |
| backend/app/api/v1/endpoints/cases.py:293-297 | the dashboard's upcoming-hearings count does not filter on `is_visible` | a soft-deleted case with a hearing tomorrow: the stats handler counts 1 in `upcoming_hearings`, while the upcoming-hearings handler lists nothing for the same week (the two handlers disagree; over HTTP both routes are declared after `/{case_id}`, so route order is not what this row is about) | count exactly the hearings the upcoming-hearings list shows | not executed; high | CaseEndpoints.StatsCountHiddenHearing | CaseEndpoints.GetCaseStats |
| backend/app/api/v1/endpoints/ocr.py:33-43 | the "No text found" 400 is raised inside the `try` and caught by `except Exception` | a PDF whose pages have no text: the client gets 500 "OCR failed: 400: No text found …" | the 400 reaches the client | not executed; high | OcrEndpoint.ScannedPdfIsServerError | OcrEndpoint.ExtractTextOutcome |
| webapp/src/lib/utils/format.ts:13-38 | `map[key] \|\| key` on an object literal also finds members inherited from `Object.prototype` | `formatDocumentCategory("constructor")` returns the `Object` function, not a string | own keys only: a label for the five names, the input otherwise | not executed; high | WebUtils.ConstructorCategoryIsAFunction | WebUtils.LabelAgreesAwayFromPrototype |
| webapp/src/middleware.ts:16-48 | `/api/auth` is exempt only from the 401; an anonymous request there falls through to the sign-in redirect | POST `/api/auth/callback/credentials` without a session is redirected to `/auth/signin` | let the public next-auth routes through, as the comment on line 16 says | not executed; medium | Middleware.AnonymousAuthApiRedirected | Middleware.PublicApiAdmitsSignIn |
