# wave_backend core, modelled in Dafny

This project models the decision and data logic of the wave_backend
service: the Express/Mongoose backend of a home-services marketplace in
which users book sub-services, partners deliver them and admins run the
catalogue. The model covers:

- the per-booking real-time chat with its status gate;
- the booking, review and chat schemas: enums, bounds, defaults and required fields;
- the admin bearer-token middleware;
- the admin handlers for partner status, KYC verdicts, booking completion, the user list and the dashboard counts;
- the service-catalogue handlers: categories, services, sub-services, icons and analytics;
- partner onboarding: the one-time-password login, profile completion, category and service selection, KYC submission and profile edits;
- the banner handlers.

The database is a `Store.Database` object whose collections are fields.
Collections searched by a field other than the id (partners, admins,
chats, banners) are sequences in insertion order, so `findOne` means the
first match. Collections reached only by id are maps.

Handlers that write take one of two forms:

- Methods on `Database`:
  - `CreateService`, `UpdateService`, `UpdateSubService`, `DeleteService` and `DeleteSubService`;
  - `CompleteBooking`;
  - `UploadBanner` and `DeleteBanner`;
  - `SendLoginOTP`, `ResendOTP`, `VerifyLoginOTP`, `CompleteProfile`, `CompleteKYC` and `UpdateProfile`;
  - the socket handlers and `VerifyAdmin`.

  Each method lists the collections it changes in its `modifies` clause. Its
  `ensures` states the new collections, in most cases as a specification
  function of the old ones; for example, `VerifyLoginOTP` is specified by
  `VerifyLogin`.
- Functions from the old collections to a reply and the new collections,
  for the other writing handlers: `CreateAdmin`, `VerifyPartnerKyc`,
  `UpdatePartnerStatus`, the category handlers, `AddSubService`,
  `CreateSubService`, `UpdateServiceFlag`, `SelectCategoryAndServices` and
  `UpdateBanner`.

The split does not follow the kind of Mongoose call. Each of these calls
replaces stored documents in one step: `save()` on a new or fetched document,
`findByIdAndUpdate`, `findOneAndUpdate` and `findByIdAndDelete`. `save()` and
`findByIdAndDelete` occur on both sides, `findByIdAndUpdate` only among the
functions, and `findOneAndUpdate` only among the methods. A handler is written
as a function where lemmas about it need to mention its result directly; as a
method it would only add the store of that result into the field.

JavaScript semantics are written out in `Common` and `Text`:

- truthiness (`!x`, `x || y`);
- `indexOf`/`includes`;
- `split(c).pop()` and `split(sep)[1]`;
- `replace` with a string pattern, which replaces only the first occurrence;
- ASCII `toLowerCase`, `trim` and `\s+`;
- decimal `toString`.

The environment is passed in as parameters:

- the clock is an integer number of milliseconds;
- `Math.random` becomes a bounded integer draw;
- `jwt.verify` and `bcrypt` become function-valued parameters;
- the outcome of a file deletion becomes a boolean.

Three properties stand out:

- The chat gate compares the booking status with `"Accepted"`, but the booking schema admits only lowercase `"accepted"`. So for every well-formed booking, joining and sending always answer with the gate error (`ChatSockets.GateAlwaysClosed`).
- A one-time password works once. After a successful login it is cleared, so any reuse fails at the expiry check (`PartnerAuthController.OtpSingleUse`).
- The service-count check of `selectCategoryAndServices` passes exactly when every requested id is a service of the sub-category and no id repeats (`PartnerAuthController.ServiceCountCheck`).

## Model

| member | source | states |
|---|---|---|
| ChatSchema.NewMessage | models/chat.js:8-11 | a message carries the given sender, receiver and text; its timestamp defaults to the creation time |
| ChatSchema.NewChat | models/chat.js:3-15 | a new chat belongs to the booking, holds no messages and has both timestamps set to the creation time |
| ChatSchema.Touched | models/chat.js:15 | saving a chat moves only `updatedAt` |
| ChatSockets.History | Sockets/chatSockets.js:44-47 | a booking's history is empty when it has no chat, else the messages of its first chat |
| ChatSockets.Gateway.JoinChat | Sockets/chatSockets.js:14-23 | when the booking exists with status exactly "Accepted", the socket joins the booking's room and nothing is emitted; otherwise the caller gets the gate error and the rooms are unchanged |
| ChatSockets.Gateway.SendMessage | Sockets/chatSockets.js:25-42 | gate as for joining, with no room membership needed; when open, the message is appended to the booking's chat (find-or-create) and the room receives the whole updated history; when closed, the chats are unchanged |
| ChatSockets.Gateway.GetMessages | Sockets/chatSockets.js:44-47 | no gate and no change; returns the stored history, or [] without a chat |
| ChatSockets.AppendAtEnd | Sockets/chatSockets.js:38 | after a send, the booking's history is the old history plus the new message at the end |
| ChatSockets.OtherHistoriesUnchanged | Sockets/chatSockets.js:32-39 | a send leaves every other booking's history unchanged |
| ChatSockets.AppendedKeepsOneChat | Sockets/chatSockets.js:32-36 | find-or-create keeps at most one chat per booking |
| ChatSockets.AppendedCreatesWhenMissing | Sockets/chatSockets.js:32-38 | a booking without a chat gets one new chat holding exactly the sent message; otherwise the number of chats is unchanged |
| ChatSockets.GateStatusNotAdmitted | Sockets/chatSockets.js:16 | "Accepted" is not among the booking statuses, while "accepted" is |
| ChatSockets.GateAlwaysClosed | Sockets/chatSockets.js:16-28 | when all bookings are well formed, the gate is closed for every booking id |
| BookingSchema.Validate | models/booking.js:3-113 | a booking is accepted iff it has no violations, and the error is exactly the violated paths; an accepted booking is well formed; status and paymentStatus default to "pending" and landmark to ""; both timestamps are the save time |
| BookingSchema.ValidateRoundTrip | models/booking.js:18-113 | re-validating a stored booking succeeds iff it is well formed, and then gives it back with fresh timestamps |
| BookingSchema.RequiredFields | models/booking.js:20-57 | an accepted booking had a user, sub-service, date, time, location with address, amount and payment mode |
| ReviewSchema.Validate | models/Review.js:3-43 | a review is accepted iff it has no violations: user required, rating 1..5, comment length 5..500, status in the enum; status defaults to "pending" and createdAt to now |
| ReviewSchema.ValidateRoundTrip | models/Review.js:3-43 | a stored review re-validates to itself iff it is well formed |
| ReviewSchema.CommentBounds | models/Review.js:33-38 | comments of length 4 and 501 are refused; lengths 5 and 500 are accepted |
| AuthMiddleware.ExtractToken | middleware/authMiddleware.js:7 | no header gives no token; the token is the header with its first "Bearer " removed wherever it occurs |
| AuthMiddleware.Classify | middleware/authMiddleware.js:4-28 | every refusal is 401; an empty or missing token gives "No token, authorization denied"; an invalid token gives "Token is not valid"; a valid token without an adminId, or with one that names no admin, gives "Admin not found"; authorised iff the decoded adminId names an admin, who is then the admin found |
| AuthMiddleware.ExtractTokenAnywhere | middleware/authMiddleware.js:7 | "Bearer " is removed even when it is not a prefix |
| AuthMiddleware.BareBearerRefused | middleware/authMiddleware.js:7-10 | the header "Bearer " yields an empty token and is refused as having none |
| AuthMiddleware.Request.VerifyAdmin | middleware/authMiddleware.js:4-28 | on success it sets req.admin and calls next exactly once; otherwise it sets the 401 response and never calls next |
| AdminController.LoginAdmin | controllers/adminController.js:12-33 | refusals are 401 "Invalid credentials"; an unknown email is refused; for the admin found by email, login succeeds iff the password checks, and the session then names that admin with a token signed over its id |
| AdminController.CreateAdmin | controllers/adminController.js:41-78 | a non-super_admin requester gets 403 and a duplicate email 400; otherwise 201 and the new admin, with role "admin", is appended; unique emails are preserved |
| AdminController.BumpProps | controllers/adminController.js:89-96 | counting one more key raises the total by one, raises only that key's count, and keeps the keys distinct |
| AdminController.GroupCountProps | controllers/adminController.js:89-106 | a `$group` count has distinct keys, its total is the number of documents, and each key's count is its multiplicity |
| AdminController.DashboardTotals | controllers/adminController.js:89-176 | both partner totals equal the number of partners; the count for each status equals the number of partners with it |
| AdminController.DashboardKycCounts | controllers/adminController.js:140-187 | verified and pending are the numbers of partners whose KYC flag is true or false; their sum is at most the total |
| AdminController.KycFlagsCount | controllers/adminController.js:140-184 | the grouped KYC flags count the verified and pending partners |
| AdminController.KycVerdict | controllers/adminController.js:276-283 | approved maps to kycStatus "verified" with isVerified true, rejected to "rejected" with false; remarks default to ""; verifier and time are recorded; nothing else changes |
| AdminController.VerifyPartnerKyc | controllers/adminController.js:255-290 | a status other than approved or rejected gives 400, an unknown partner 404, otherwise 200 with the verdict applied to that partner only |
| AdminController.NormaliseStatus | controllers/adminController.js:367 | the normalised status is the words of the lower-cased input (its maximal runs of non-white-space characters) joined with "_"; it has no white space and no upper-case letters |
| AdminController.NormalisePadded | controllers/adminController.js:367 | a one-word status with any white space around it, in any case, normalises to its lower-case form |
| AdminController.NormaliseTwoWords | controllers/adminController.js:367 | two words separated by any non-empty run of white space normalise to the lower-case words joined by one "_" |
| AdminController.NormalisePaddedExample | controllers/adminController.js:367 | " Approved " normalises to "approved" |
| AdminController.NormaliseSpacedExample | controllers/adminController.js:367 | "UNDER   REVIEW" normalises to "under_review" |
| AdminController.NormaliseIdentity | controllers/adminController.js:367 | a status already without spaces or capitals is unchanged |
| AdminController.NormaliseIdempotent | controllers/adminController.js:367 | normalising twice equals normalising once |
| AdminController.AcceptedStatusesNormal | controllers/adminController.js:367-371 | each accepted status is a fixed point of the normalisation |
| AdminController.NormaliseUnderReview | controllers/adminController.js:366-367 | "Under Review" normalises to "under_review" |
| AdminController.ApprovalCheck | controllers/adminController.js:388-406 | approval passes iff KYC is verified and the profile is complete; the KYC check comes first |
| AdminController.StatusChange | controllers/adminController.js:409-416 | sets status, remarks (default ""), time and admin, and nothing else |
| AdminController.UpdatePartnerStatus | controllers/adminController.js:361-422 | a status that normalises outside the five values gives 400 and an unknown partner 404; for a found partner, approval failing the check gets exactly the check's 400 reply; every other valid request for a found partner gets 200 with the change applied to that partner; refusals leave the partners unchanged |
| AdminController.ChangeFound | controllers/adminController.js:388-416 | for the partner found: approval failing the check answers the check's reply with no change; otherwise 200 and the status change |
| AdminController.KycVerdictGovernsApproval | controllers/adminController.js:388-394 | after an approved KYC verdict a complete partner can be approved; after a rejected one, approval is refused |
| AdminController.CompleteTransition | controllers/adminController.js:815-833 | completed and cancelled bookings are refused with their 400 messages; any other status becomes "completed" with completedAt and updatedAt set to the time, and nothing else changes |
| AdminController.CompleteTwiceRejected | controllers/adminController.js:816-821 | completing twice is refused; completion keeps a booking well formed |
| AdminController.CompleteBooking | controllers/adminController.js:802-839 | 404 for an unknown booking; otherwise the stored booking becomes the transition's result, or stays as it was on refusal |
| AdminController.GetAllUsers | controllers/adminController.js:701-741 | one row per user in order; slNo = (page-1)*limit+index+1; noOfBookings is the user's grouped count, or 0; address defaults to "N/A" |
| AdminController.CountMapLast | controllers/adminController.js:725-728 | the map holds exactly the grouped keys, and with distinct keys each value is that key's count |
| AdminController.RowBookingsAreCounts | controllers/adminController.js:719-738 | a row's booking number is the number of that user's bookings, 0 when there are none |
| AdminController.SerialNumbersDistinct | controllers/adminController.js:732 | serial numbers are positive and differ across rows and pages |
| AdminServiceController.CreateService | controllers/adminServiceController.js:42-75 | 400 for missing fields or file, 404 for an unknown sub-category, all with no change; otherwise the service is stored and its id appended at the end of the sub-category's list; the service-to-sub-category linkage is preserved |
| AdminServiceController.AddSubServiceAsWritten | controllers/adminServiceController.js:152-217 | the same three refusals; on every accepted request the sub-service is stored and linked, yet the reply is 500 "populatedSubService is not defined" |
| AdminServiceController.AddSubService | controllers/adminServiceController.js:152-217 | 400 "All fields are required", then 400 "Icon file is required", then 404 "Parent service not found", each with no change; otherwise 201 "Sub-service added successfully", the trimmed sub-service is stored with its icon's base name and status "active", and its id is appended to the service |
| AdminServiceController.AddSubServiceAsWrittenFails | controllers/adminServiceController.js:192-217 | on an accepted request the code as written and the corrected handler make the same writes, but answer 500 and 201 |
| AdminServiceController.AddSubServiceAsWrittenExample | controllers/adminServiceController.js:213-217 | a concrete request answered 500 |
| AdminServiceController.UpdateServiceCategory | controllers/adminServiceController.js:236-261 | 404 for an unknown category; otherwise only a truthy name and an uploaded icon's base name are set |
| AdminServiceController.DeleteServiceCategory | controllers/adminServiceController.js:274-298 | 404 for a missing category and 400 while an active service references it, both with no deletion; otherwise exactly that category is removed |
| AdminServiceController.CreateCategory | controllers/adminServiceController.js:352-393 | the icon is checked first, then name and description; a missing subtitle gives 500; otherwise the trimmed, active category is stored |
| AdminServiceController.NormaliseIcon | controllers/adminServiceController.js:411-420 | an icon without "/" is returned unchanged |
| AdminServiceController.IconUploadRule | controllers/adminServiceController.js:414-415 | a local upload URL yields the text that starts right after the first "/uploads/", holds no "/uploads/", has no "/uploads/" starting inside it (even one overlapping its end) and is followed by the next one or by the end |
| AdminServiceController.IconHostRule | controllers/adminServiceController.js:416-417 | another local URL yields the text that starts right after the first host prefix, holds no host prefix, has none starting inside it and is followed by the next one or by the end |
| Text.SecondFieldPinned | controllers/adminServiceController.js:415 | these clauses determine the result: any text after the first separator that has no separator starting inside it and is followed by one or by the end is exactly `split(sep)[1]` |
| AdminServiceController.IconSegmentRule | controllers/adminServiceController.js:418-420 | any other path yields its last segment, which contains no "/"; a bare name is unchanged |
| AdminServiceController.ListCategories | controllers/adminServiceController.js:407-428 | one view per category, in order, with only the icon normalised |
| AdminServiceController.ServiceAnalytics | controllers/adminServiceController.js:324-333 | the total is the number of bookings and the revenue the sum of their amounts; the completed, cancelled and pending counts are the multiplicities of those statuses among the bookings; each count, and the sum of the three, is at most the total |
| AdminServiceController.StatusCount | controllers/adminServiceController.js:330-332 | counting the bookings with one status gives that status's multiplicity among the bookings' statuses |
| AdminServiceController.StatusCountsWithinTotal | controllers/adminServiceController.js:330-332 | the completed, cancelled and pending counts add up to at most the number of bookings |
| AdminServiceController.RevenueAppend | controllers/adminServiceController.js:326 | revenue is additive over a split of the bookings |
| AdminServiceController.FormatSubService | controllers/adminServiceController.js:469-479 | each present field is shown as stored and each missing or empty one as its placeholder; isActive is true only when stored true; the service name is the parent's name when it resolves and is non-empty, else "No Service Name" |
| AdminServiceController.CreateSubService | controllers/adminServiceController.js:512-551 | checks fields, then price, then the id's form, then the service, then the icon, with no change on refusal; success iff all pass; the stored sub-service has a one-element icon list and isActive true |
| AdminServiceController.UpdatedService | controllers/adminServiceController.js:580-589 | each field takes a truthy new value or keeps its old one; the icon changes only with a file; nothing else changes |
| AdminServiceController.UpdatedServiceIdempotent | controllers/adminServiceController.js:580-589 | repeating an update changes nothing further |
| AdminServiceController.UpdateService | controllers/adminServiceController.js:565-598 | 404 for an unknown service; otherwise the stored service becomes its updated form |
| AdminServiceController.UpdatedSubService | controllers/adminServiceController.js:665-673 | as for services; an uploaded icon replaces the list with its one base name |
| AdminServiceController.UpdateSubService | controllers/adminServiceController.js:642-681 | 404 for an unknown service, then for an unknown sub-service; otherwise the stored sub-service is updated, whether or not it belongs to the service |
| AdminServiceController.RemoveAll | controllers/adminServiceController.js:715-717 | no occurrence of the id is left; every other id is kept with its multiplicity |
| AdminServiceController.RemoveAllAppend | controllers/adminServiceController.js:715-717 | the filter distributes over concatenation, so the other ids keep their order |
| AdminServiceController.RemoveAllAbsent | controllers/adminServiceController.js:715-717 | a list without the id is unchanged |
| AdminServiceController.RemoveAllIdempotent | controllers/adminServiceController.js:715-717 | filtering twice equals filtering once |
| AdminServiceController.DeleteSubService | controllers/adminServiceController.js:692-723 | 404 for an unknown service, then for an unknown sub-service, with no change; otherwise the sub-service is deleted and its id is filtered out of the service's list |
| AdminServiceController.PullService | controllers/adminServiceController.js:622-626 | no category lists the service afterwards; each category's list loses only that id |
| AdminServiceController.DeleteService | controllers/adminServiceController.js:609-631 | 404 for an unknown service; otherwise it is deleted and pulled from every category; sub-category lists are not touched |
| AdminServiceController.UpdateServiceFlag | controllers/adminServiceController.js:734-803 | a non-boolean value gives 400 before the lookup and an unknown service 404; otherwise only the one flag of that service is set |
| PartnerAuthController.IssueOtp | controllers/partnerAuthController.js:35 | the code is six decimal digits whose value is in 100000..999999 |
| PartnerAuthController.Registered | controllers/partnerAuthController.js:26-32 | afterwards the phone has a partner; an existing partner is left in place, otherwise one is created at the end |
| PartnerAuthController.IssueOtpTo | controllers/partnerAuthController.js:39-48 | the phone's first partner gets the code and its expiry; all other partners and all phones are unchanged |
| PartnerAuthController.SendLoginOTP | controllers/partnerAuthController.js:14-60 | 400 without a phone; otherwise find-or-create and a fresh code expiring ten minutes later |
| PartnerAuthController.ResendOTP | controllers/partnerAuthController.js:134-176 | like sending, but an unknown phone gives 404 and is not registered |
| PartnerAuthController.VerifyLogin | controllers/partnerAuthController.js:75-108 | refusals in order: missing fields, unknown partner, missing or past expiry, wrong code, each with no change; success iff all pass, and it clears the code and its expiry |
| PartnerAuthController.VerifyLoginOTP | controllers/partnerAuthController.js:71-115 | the in-place handler has exactly the outcome and new partners of the specification |
| PartnerAuthController.OtpSingleUse | controllers/partnerAuthController.js:94-108 | after a successful login, every further attempt for that phone is refused as expired |
| PartnerAuthController.IssuedOtpAccepted | controllers/partnerAuthController.js:94-101 | an issued code is accepted until its expiry and refused after it; while it is valid, any other code is refused as invalid |
| PartnerAuthController.ProfileCompleted | controllers/partnerAuthController.js:213-226 | the profile is replaced and the completion flag drops to false; absent fields are kept; the picture becomes the upload's path, or null without one |
| PartnerAuthController.CompleteProfile | controllers/partnerAuthController.js:189-233 | name and email are required; the partner is found by contact number and never created, so an unknown number gives 404 |
| PartnerAuthController.ServiceCountCheck | controllers/partnerAuthController.js:271-287 | the count comparison holds iff every id is a service of the sub-category and no id repeats |
| PartnerAuthController.Selected | controllers/partnerAuthController.js:290-300 | sets category, subcategory, services and mode, and marks the profile complete |
| PartnerAuthController.SelectCategoryAndServices | controllers/partnerAuthController.js:243-306 | success iff all fields are present, the category exists, the sub-category belongs to it, every id is well formed and names a distinct service of the sub-category, and the partner exists; no change otherwise |
| PartnerAuthController.CompleteKYC | controllers/partnerAuthController.js:443-506 | the four bank fields and three documents are required, and an unknown partner gives 404; otherwise documents and bank details are stored and both verification fields become "pending" |
| PartnerAuthController.EditedProfile | controllers/partnerAuthController.js:624-634 | each field and the picture change only when a truthy value is given |
| PartnerAuthController.EditIdempotent | controllers/partnerAuthController.js:624-634 | repeating an edit changes nothing further |
| PartnerAuthController.UpdateProfile | controllers/partnerAuthController.js:597-636 | 404 without a profile document; otherwise the stored profile becomes its edited form |
| BannerController.GetFilename | controllers/bannerController.js:6-13 | null for a missing or empty path; a path without "/" is unchanged; otherwise the text after the last "/", which contains no "/" |
| BannerController.GetFilenameIdempotent | controllers/bannerController.js:27-40 | applied to its own non-empty result, the helper changes nothing |
| BannerController.GetFilenameTrailingSlash | controllers/bannerController.js:7-11 | a path ending in "/" gives "", which a second application turns into null |
| BannerController.UploadBanner | controllers/bannerController.js:17-46 | 400 without a file, with nothing saved; otherwise an active banner with order defaulting to 0 is appended and returned with its stored name |
| BannerController.InsertSorted | controllers/bannerController.js:60 | insertion keeps a list sorted by order and adds exactly the one banner |
| BannerController.SortByOrder | controllers/bannerController.js:60 | the result is in ascending order and is a permutation of the input |
| BannerController.Select | controllers/bannerController.js:85 | keeps exactly the banners that are active, or all of them |
| BannerController.Listing | controllers/bannerController.js:58-93 | each selected banner appears once, with its image cleaned, in ascending order; the active listing holds only active banners |
| BannerController.Edited | controllers/bannerController.js:113-118 | each key given in the body is set; an uploaded file's name overrides any image in the body |
| BannerController.UpdateBanner | controllers/bannerController.js:110-140 | 404 for an unknown banner; otherwise that banner is updated and returned with a cleaned image |
| BannerController.DeleteBanner | controllers/bannerController.js:152-179 | 404 for an unknown banner; otherwise it is removed and 200 is answered, whether or not deleting its image file fails |

## Left out

- JavaScript files not listed in the table (models/Partner.js, models/Service.js and the other schemas, utils/sendOTP.js, the upload middleware) are not part of this model. Their documents are records in `Store` with the fields the handlers read and write, and their schema casts and validators are not modelled.
- Read-and-return handlers are not modelled, because they contain only a query. These are: getAllServices, getAllServiceCategories, getServicesByCategory, getRecommendedServices, getMostBookedServices, getAllCategoriesWithDetails, getPendingKYC, getPartnerKYC, getAllPartners, getPartnerDetails, getUserBookings, getProfile and getAllPartnerProfile.
- controllers/adminController.js:447-647 (createServiceCategory, createService, addSubService) are not modelled. They are a second copy of the catalogue handlers, and the adminServiceController.js versions are the ones modelled.
- updateKYC and updateBankDetails (controllers/partnerAuthController.js:320-440) are not modelled. They write KYC fields to the separate profile document, in the same way as `CompleteKYC`.
- Query selection, sorting, `skip`/`limit`, `$regex` search and `$dateToString` are not modelled; the handlers' inputs are the query results. This covers the analytics query on `service.category` over the last 30 days, and the user page with its search and status filters.
- Floating point is not modelled: averageRating, avgVerificationTime and `Math.ceil` for page counts.
- `Number(...)`, `parseInt` and `parseFloat` are not modelled. Prices, durations and experience stay strings, and page and limit are integers.
- The dashboard's recent registrations and daily trend are left out, because they depend on dates.
- jwt and bcrypt are function parameters, and the login token is not part of the reply.
- SMS delivery, multer uploads and `fs.unlink` are left out as I/O. Uploads arrive as optional paths or names, and a file deletion failure is a boolean.
- The socket.io transport is left out: delivery to room members and disconnects. The race between two concurrent first sends, which the missing unique index on `bookingId` would let create two chats, is also left out, because calls run one at a time here.
- Mongoose behaviour is not modelled: cast errors on malformed ids (treated as not found), `runValidators` on updates and failed `save` validation. Keys whose value is `undefined` are taken to be dropped from `$set`.
- Automatic timestamps are modelled on chats and bookings only. Partners, admins, services, categories, sub-services and banners carry none in the model, because no modelled handler reads them.
- Only ASCII letters are lower-cased.
- `path.basename` is modelled as the text after the last `/`. Trailing separators and backslashes are not modelled.
- `ObjectId.isValid` is modelled as 24 hexadecimal digits or any 12-character string. Newer driver versions refuse the latter, and which version the repository uses is not known.
- The only form of `service` modelled in selectCategoryAndServices is an array; a JSON string passed through `JSON.parse` is not modelled.
- Response bodies are not modelled beyond their status and message.
- BannerController.Listing: the database's sort on equal orders is not stable, but the model uses a stable insertion sort. It also cleans images before sorting, which is equivalent because cleaning does not change the order key.
- AdminServiceController.ServiceAnalytics: does not model averageRating, because it is floating point; totalRevenue is a sum of integers, because booking amounts are integers in the model.
- BookingSchema.Validate: amount and review.rating are JavaScript numbers, which may be fractional; the model takes them as integers, so a fractional rating between 1 and 5 is not modelled.
- ReviewSchema.Validate: rating is taken as an integer, as above. The comment length bounds count characters (Unicode scalar values), while Mongoose counts UTF-16 code units, so comments with characters outside the Basic Multilingual Plane are measured differently.
- AdminServiceController.FormatSubService: price and duration are not coerced to numbers, and the createdAt/updatedAt fallbacks to the current date are left out.
- AdminServiceController.CreateSubService: the numeric price test is a parameter, `positive`, because `isNaN` and the comparison on a string depend on JavaScript number coercion.

## Findings

| source | as written | input that shows it | evidently intended | confidence | as-written member | corrected member |
|---|---|---|---|---|---|---|
| controllers/adminServiceController.js:213-217 | after saving the sub-service and linking it to its service, the reply refers to `populatedSubService`, whose definition is commented out; the ReferenceError is caught and answered 500 | service "s1" exists; body name "Sofa", description "Sofa cleaning", basePrice "499", duration "60"; icon uploaded at "uploads/sofa.png" | answer 201 "Sub-service added successfully" for the saved sub-service | not executed | AdminServiceController.AddSubServiceAsWritten | AdminServiceController.AddSubService |
