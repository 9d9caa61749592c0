# A verified model of the B2B marketplace's lead, chat, catalogue and account handlers

The marketplace lets buyers post requirements and lets sellers contact them.
Sellers pay for each contact: buying a lead opens a conversation with the
buyer. The system is a set of Node.js services and a legacy Mongo monolith.
This project models their request handlers as Dafny functions and methods
over the tables and collections they read and write, and proves what each
handler promises.

The model has one module per source file:

- `LeadStore`, `ShadowUsers`, `LeadRepository`, `LeadController` model the
  lead service, which is the centre of the model. Its tables are shadow
  `users`, `requirements` and `leads`, with the schema's foreign keys and the
  `UNIQUE (requirement_id, seller_id)` constraint as an invariant. The
  handlers cover:
  - creating, listing, editing and deleting requirements;
  - buying a lead, inside a transaction that rolls back when the chat call
    fails;
  - closing a requirement and cancelling a lead;
  - seller statistics;
  - the buyer selecting one seller.

  Each handler is a function that gives the response code and the resulting
  database, plus a method that runs the handler's steps on the live database
  and is proved to end where the function says.
- `ChatController` models the chat service: conversations found by id or by
  their (requirement, seller, buyer) triple, and messages appended to them.
- `LegacyStore`, `LegacyLeadController`, `RequirementController` and
  `MessageController` model the monolith's lead purchase, requirement and
  message handlers over its Mongo collections.
- `UserModel`, `SellerProfileModel`, `AccountStore`, `UserController` and
  `AdminController` model:
  - the user and seller-profile schemas and their validators;
  - the address book;
  - contact-detail updates;
  - the admin user listing and moderation.
- `CategoryNames` and `ProductController` model the monolith's category-name
  standardisation and product formatting.
- `ProductRepository` and `ProductServiceController` model the product
  service.
- `AdminService` models the admin service's main and sub-category catalogue.
- `Common`, `Text`, `Patterns` and `Tables` are shared helpers:
  - optional values;
  - JavaScript `trim` and ASCII case mapping;
  - single-character-class regular expressions;
  - filtering, counting and ordering rows of a table.

Remote calls are parameters of the handlers that make them. This covers
user-service lookups and the chat POST. A parameter gives the fetched record,
or None when the call fails. The product service's main-category lookup is a
parameter too, because product-service/repositories/categoryRepository.js is
not part of this model. Fresh ids
and the clock are parameters too.

Behaviour worth knowing, as the code does it:

- `buyLead` in the lead service posts to the chat service before committing.
  A chat failure therefore rolls the lead back and answers 500.
- `ensureUserExists` never fetches the user remotely. It inserts a stub row,
  and a failed seller lookup in `buyLead` is a 404.
- `cancelLead` always reopens the requirement, whatever other leads it has.
- The product service's `create` ignores the `businessCategory` its
  controller passes (`ProductRepository.BusinessCategoryNotStored`).
- The product-service controller defaults a new product to `draft`, while the
  repository's own default is `published`.
- Category standardisation splits on single spaces, so runs of spaces
  survive as empty words.
- A user stored without a status is listed as `active`, and `findById` loads
  them with the schema default `active`, so the first toggle suspends them
  (`AdminController.ToggleFlipsShownStatus`).
- The product service's `updateProduct` cannot change `brand` or `isPublic`.

## Model

| member | source | states |
|---|---|---|
| LeadStore.LeadDb.constructor | lead-service/db/migrations/20251127120000_create_lead_service_tables.js:7-108 | a freshly migrated database has three empty tables and satisfies every foreign key and the unique contact constraint |
| LeadStore.ContactsOf | lead-service/db/migrations/20251127120000_create_lead_service_tables.js:107 | exactly the leads of one seller on one requirement, the pair the unique constraint covers |
| LeadStore.AtMostOneContact | lead-service/db/migrations/20251127120000_create_lead_service_tables.js:107 | under `UNIQUE (requirement_id, seller_id)` a seller and a requirement share at most one lead |
| LeadStore.InsertContactKeepsValid | lead-service/db/migrations/20251127120000_create_lead_service_tables.js:87-107 | inserting the first lead of a known seller on a known requirement keeps the foreign keys and the unique constraint |
| LeadStore.SetRequirementStatus | lead-service/controllers/leadController.js:447-453 | an update by id changes only that requirement's status; every other row and the key set stay |
| LeadStore.SetStatusOfLeadsOf | lead-service/controllers/leadController.js:455-460 | a bulk update by requirement id sets the status of exactly that requirement's leads and leaves the rest as they were |
| LeadStore.SetStatusOfContact | lead-service/controllers/leadController.js:609-617 | an update filtered by requirement and seller sets the status of exactly that seller's lead on the requirement |
| LeadStore.SetLeadStatus | lead-service/controllers/leadController.js:500-505 | an update by lead id changes only that lead's status |
| LeadStore.StatusChangeKeepsValid | lead-service/db/migrations/20251127120000_create_lead_service_tables.js:87-107 | changing statuses alone, with owners and pairs kept, preserves every constraint |
| LeadStore.DeleteRequirements | lead-service/db/migrations/20251127120000_create_lead_service_tables.js:91-95 | deleting requirements removes exactly those rows and, by `ON DELETE CASCADE`, exactly their leads; users stay and the constraints hold afterwards |
| ShadowUsers.Stub | lead-service/helpers/ensureUserExists.js:16-23 | the stub row is named 'Unknown User', has email `<userId>@stub.local` and the given role |
| ShadowUsers.WithStub | lead-service/helpers/ensureUserExists.js:8-23 | a falsy id changes nothing; an existing row is kept unchanged; otherwise exactly one stub row is added, and afterwards the id is present |
| ShadowUsers.WithStubIdempotent | lead-service/helpers/ensureUserExists.js:11-12 | a second call, with any role, leaves the table the first call produced |
| ShadowUsers.WithStubKeepsValid | lead-service/helpers/ensureUserExists.js:16-23 | adding a shadow user never breaks a constraint of the lead-service tables |
| ShadowUsers.EnsureUserExists | lead-service/helpers/ensureUserExists.js:8-24 | the users table afterwards is `WithStub` of the one before, and no other table is touched |
| LeadController.NewRequirement | lead-service/controllers/leadController.js:50-68 | the inserted row belongs to the caller, has status 'Open', the trimmed product name, and `quantity`, `location_preference` and `city` taken from the body or null when falsy |
| LeadController.CreateRequirementResult | lead-service/controllers/leadController.js:19-84 | 401 without a caller, 400 for a blank `product_requirement`, both writing nothing; otherwise the stub buyer is ensured and exactly the new row is inserted (201), or 500 when its id is taken; leads never change |
| LeadController.CreateRequirement | lead-service/controllers/leadController.js:19-84 | performs the handler's steps on the database and ends in the state and code `CreateRequirementResult` gives, returning the row on 201 |
| LeadController.GetRequirements | lead-service/controllers/leadController.js:115-136 | when the original URL, query string included, ends with `/requirements/me` the call needs a caller (401) and lists exactly the caller's requirements of every status; any other URL gives the public listing matching the status, 'Open' by default, ignoring case; both newest first without repeats |
| LeadController.IsOwnListingUrl | lead-service/controllers/leadController.js:120 | the own-listing branch is taken exactly when the URL's last characters are `/requirements/me` |
| LeadController.QueryStringListsPublic | lead-service/controllers/leadController.js:120-128 | `/leads/requirements/me?status=Closed` takes the public branch: 200 without a caller, listing every requirement whose status is 'closed' ignoring case |
| LeadController.PublicListingDefaultsToOpen | lead-service/controllers/leadController.js:126-128 | with no status filter every listed requirement's status is 'open' ignoring case |
| LeadController.UpdateDataOf | lead-service/controllers/leadController.js:150-166 | the update data holds exactly the whitelisted fields the body defines, with the body's values |
| LeadController.BuildUpdateData | lead-service/controllers/leadController.js:150-166 | the copying loop produces `UpdateDataOf(body)` and never a key outside the whitelist |
| LeadController.UpdateRequirementResult | lead-service/controllers/leadController.js:142-189 | 401 without a caller, 400 when no whitelisted field is present, 404 unless the caller owns the row, all unchanged; on 200 only that row changes, by the update data |
| LeadController.UpdateKeepsUnsentFields | lead-service/controllers/leadController.js:160-176 | after a successful update the owner is unchanged, unsent fields keep their values and a sent status is stored as given |
| LeadController.UpdateRequirement | lead-service/controllers/leadController.js:142-189 | ends in the state and code `UpdateRequirementResult` gives and returns the updated row exactly on 200 |
| LeadController.DeleteRequirementResult | lead-service/controllers/leadController.js:194-217 | 401 without a caller, 404 unless the caller owns the row, unchanged; on 204 the row and, by cascade, its leads are gone |
| LeadController.DeleteNothing | lead-service/repositories/leadRepository.js:61-68 | a delete that matches no row leaves the database as it was |
| LeadController.DeleteRequirement | lead-service/controllers/leadController.js:194-217 | ends in the state and code `DeleteRequirementResult` gives |
| LeadController.DeleteAllRequirementsResult | lead-service/controllers/leadController.js:401-418 | 401 without a caller, 404 when the caller owns nothing; on 200 exactly the caller's requirements and their leads are deleted and none of the caller's remain |
| LeadController.DeleteAllRequirements | lead-service/controllers/leadController.js:401-418 | ends where `DeleteAllRequirementsResult` says and reports, on 200, the positive number of the caller's requirements |
| LeadController.StatusText | lead-service/controllers/leadController.js:245 | a present status prints as itself; a NULL column prints as "null" |
| LeadController.NewLead | lead-service/controllers/leadController.js:334-342 | the inserted lead has status 'Processing', the requirement's buyer as `buyer_id`, and the given requirement and seller |
| LeadController.BuyLeadResult | lead-service/controllers/leadController.js:222-380 | the refusals in the handler's order, each exactly when the earlier checks pass and its own fails: 400 for a missing seller, requirement id or blank message, writing nothing; 404 for an unknown requirement; 409 for a requirement closed ignoring case; 404 for a failed seller lookup; 403 for a role other than 'seller'; 404 for a failed buyer lookup; 409 when the seller already has a lead on it; 500 for a taken lead id or a refused chat POST; 200 when all pass, with exactly one 'Processing' lead added; on every other code the leads are unchanged; requirements never change; the seller stub, committed once the seller passes its checks, stays on every later outcome |
| LeadController.BuyLead | lead-service/controllers/leadController.js:222-380 | performs the checks in the handler's order, ensures the seller stub outside the transaction, commits only after the chat POST, and ends where `BuyLeadResult` says, returning the new lead id exactly on 200 |
| LeadController.SecondBuyConflicts | lead-service/controllers/leadController.js:298-311 | after a successful contact the same seller's second contact never succeeds, adds no lead, and with a valid message and the same lookups is refused with 409 |
| LeadController.ContactedRefusesBuying | lead-service/controllers/leadController.js:299-311 | once the seller has a lead on the requirement, contacting it again never succeeds and leaves the leads unchanged, and when the earlier checks pass the answer is 409 |
| LeadController.StubSurvivesRollback | lead-service/controllers/leadController.js:347-377 | when the chat POST fails the handler does not answer 200 and keeps no new lead, yet the seller's shadow users row remains |
| LeadController.CloseRequirementResult | lead-service/controllers/leadController.js:421-473 | 401 without a caller, 404 unless the caller owns the requirement and its status is exactly 'Open' or 'Processing'; on 200 the requirement and every lead on it become 'Closed', each such lead otherwise unchanged, and other leads are untouched |
| LeadController.CloseRequirement | lead-service/controllers/leadController.js:421-473 | ends in the state and code `CloseRequirementResult` gives |
| LeadController.CancelLeadResult | lead-service/controllers/leadController.js:477-525 | 401 without a caller, 404 unless the lead is the caller's and exactly 'Processing'; on 200 only that lead becomes 'Cancelled' and its requirement becomes 'Open' |
| LeadController.CancelLead | lead-service/controllers/leadController.js:477-525 | ends in the state and code `CancelLeadResult` gives |
| LeadController.CloseThenCancelRefused | lead-service/controllers/leadController.js:455-460 | after a close no lead of that requirement can be cancelled (404, nothing changes) |
| LeadController.CancelledSellerCannotRecontact | lead-service/controllers/leadController.js:507-512 | cancelling reopens the requirement, but the cancelled lead still blocks the same seller's new contact |
| LeadController.LeadsOfSeller | lead-service/controllers/leadController.js:538-541 | exactly the seller's leads |
| LeadController.DisjointStatusCounts | lead-service/controllers/leadController.js:543-561 | the four status counts together never exceed the seller's total |
| LeadController.GetSellerLeadsStats | lead-service/controllers/leadController.js:530-575 | None (401) without the header; otherwise total counts the seller's leads, accepted its 'Processing' leads, and open, closed and cancelled exactly its leads with status 'Open', 'Closed' and 'Cancelled'; the figures sum to at most the total |
| LeadController.AcceptedAgreesWithRepository | lead-service/controllers/leadController.js:549-567 | the handler's accepted figure equals the repository's accepted figure |
| LeadController.LeadsOfRequirementIn | lead-service/controllers/leadController.js:609-617 | exactly the requirement's leads whose status is the given text |
| LeadController.SelectSellerResult | lead-service/controllers/leadController.js:579-640 | 400 for a missing requirement or seller id; 500 when the caller's id is absent, since the undefined binding makes the query throw; 403 unless the caller owns the requirement; 404 when the chosen seller has no lead; all unchanged; on 200 the requirement becomes 'closed', the chosen seller's lead becomes 'accepted' and the requirement's other leads 'rejected', each otherwise unchanged, and other requirements' leads are untouched |
| LeadController.AcceptOnlyTheSelected | lead-service/db/migrations/20251127120000_create_lead_service_tables.js:107 | reject-all then accept-one leaves exactly one accepted lead on the requirement, each lead otherwise unchanged, using the unique constraint |
| LeadController.SelectSellerForRequirement | lead-service/controllers/leadController.js:579-640 | performs the two bulk updates, rolls back on 404, and ends where `SelectSellerResult` says |
| LeadController.SelectionEndsTheRequirement | lead-service/controllers/leadController.js:245 | the lower-case 'closed' written by selection makes every later contact fail (409 for a valid request) and makes closeRequirement answer 404 (see also lines 436, 626-630) |
| LeadController.ClosedRefusesBuying | lead-service/controllers/leadController.js:245-250 | a requirement whose status is 'closed' ignoring case is never contacted, and with a seller, a requirement id and a message present the answer is 409 |
| LeadController.ClosedForBuying | lead-service/controllers/leadController.js:245 | a requirement is closed for buying when its status text, lower-cased, is 'closed' (used by `ClosedRefusesBuying` and `BuyLeadResult`) |
| LeadRepository.CreateRequirement | lead-service/repositories/leadRepository.js:12-22 | nothing is inserted without a buyer or when the insert is refused (taken id, unknown buyer); otherwise exactly the given row is inserted and returned; constraints hold |
| LeadRepository.NewerOrSameIsPreorder | lead-service/repositories/leadRepository.js:38 | `ORDER BY created_at DESC` compares by a total preorder |
| LeadRepository.FindRequirements | lead-service/repositories/leadRepository.js:27-39 | exactly the rows whose status equals the filter ignoring case and whose buyer equals the buyer filter, each once, newest first |
| LeadRepository.StatusFilterIgnoresCase | lead-service/repositories/leadRepository.js:30-32 | a status filter and its lower-cased spelling find the same rows |
| LeadRepository.ApplyUpdate | lead-service/repositories/leadRepository.js:52-59 | an update never changes the owner or the creation time |
| LeadRepository.UpdateRequirement | lead-service/repositories/leadRepository.js:52-59 | updates and returns the row only when both id and buyer match, leaving every other row; otherwise nothing changes |
| LeadRepository.RemoveRequirement | lead-service/repositories/leadRepository.js:64-68 | deletes one row (and its leads) exactly when id and buyer match, reporting 1, else 0 and nothing changes |
| LeadRepository.OwnedBy | lead-service/repositories/leadRepository.js:78-80 | exactly the buyer's requirements |
| LeadRepository.RemoveAllLeavesOthers | lead-service/repositories/leadRepository.js:73-81 | after the bulk delete none of the buyer's requirements remain, everyone else's do, and the count drops by the number deleted |
| LeadRepository.RemoveAllRequirementsByBuyer | lead-service/repositories/leadRepository.js:73-81 | throws (None) without a buyer and changes nothing; otherwise deletes exactly that buyer's requirements with their leads and returns their number |
| LeadRepository.OpenRequirements | lead-service/repositories/leadRepository.js:110-112 | exactly the requirements whose status is 'Open', whoever owns them |
| LeadRepository.SellerLeadsIn | lead-service/repositories/leadRepository.js:114-119 | exactly the seller's leads with the given status |
| LeadRepository.GetSellerLeadStats | lead-service/repositories/leadRepository.js:105-126 | zeros without a seller; otherwise open counts all 'Open' requirements, accepted counts the seller's 'Processing' leads, and total is their sum |
| LeadRepository.OpenIsNotSellerScoped | lead-service/repositories/leadRepository.js:110-112 | every seller sees the same open figure |
| LeadRepository.Synced | lead-service/repositories/leadRepository.js:175-180 | the synced row is named 'Synced User', has role 'buyer' and email `synced_<id>@example.com` |
| LeadRepository.SyncUserToLocalDB | lead-service/repositories/leadRepository.js:169-188 | None for a falsy id; an existing row is returned unchanged; otherwise the synced row is inserted and returned; afterwards the row exists |
| LeadRepository.RepositorySelectLeads | lead-service/repositories/leadRepository.js:204-218 | every other lead of the requirement becomes 'Rejected' and the selected lead 'Accepted', each otherwise unchanged, and leads of other requirements stay as they were |
| LeadRepository.SelectByIdCrossesRequirements | lead-service/repositories/leadRepository.js:212-213 | a selected lead of another requirement is accepted while every lead of the closed requirement is rejected |
| LeadRepository.SelectSellerForRequirement | lead-service/repositories/leadRepository.js:193-222 | the requirement becomes 'Closed' and the leads become `RepositorySelectLeads`; returns the accepted lead, or None when no lead has that id, committing either way |
| ChatController.ChatDb.constructor | chat-service/db/migrations/20251222120936_add_unique_conversation_index.js:13-16 | a new chat database is empty and satisfies the unique triple index and the message foreign key |
| ChatController.OrdersArePreorders | chat-service/controllers/chatController.js:47-91 | `updated_at DESC` and `created_at ASC` compare by total preorders |
| ChatController.GetConversations | chat-service/controllers/chatController.js:13-58 | 401 without the header, 400 without the path id, 403 when they differ; otherwise exactly the conversations where the caller is buyer or seller, each once, most recently updated first |
| ChatController.GetConversationDetail | chat-service/controllers/chatController.js:63-101 | 401, 400, then 403 unless the caller is buyer or seller of that conversation; otherwise exactly its messages, oldest first |
| ChatController.WithTriple | chat-service/controllers/chatController.js:143-149 | exactly the conversations of one (requirement, seller, buyer) triple |
| ChatController.AtMostOnePerTriple | chat-service/db/migrations/20251222120936_add_unique_conversation_index.js:13-16 | under the unique index a triple's conversation is the only one |
| ChatController.NewConversation | chat-service/controllers/chatController.js:154-163 | a new conversation has the sender as seller, the recipient as buyer, the given requirement, and seller name 'Seller' unless one is given |
| ChatController.Deliver | chat-service/controllers/chatController.js:169-187 | inserts exactly one message into the conversation and touches its `updated_at` (201), or 500 with nothing changed when the message id is taken; the index and foreign key hold |
| ChatController.NewTripleKeepsValid | chat-service/db/migrations/20251222120936_add_unique_conversation_index.js:13-16 | inserting a conversation for a triple that has none keeps the unique index |
| ChatController.Locate | chat-service/controllers/chatController.js:122-167 | a named conversation is used as is or gives 404; otherwise 400 exactly when requirement id or name is missing, the triple's conversation is reused, or a new one is inserted, equal to `NewConversation` of the request (seller name 'Seller' by default), with 500 exactly when the triple has none and the new id is taken; no existing conversation and no message changes |
| ChatController.PostMessageResult | chat-service/controllers/chatController.js:106-195 | 400 exactly for a missing sender or recipient, a blank message, or no conversation id without requirement id and name, and 404 for an unknown named conversation, both changing nothing; 500 exactly when, past those checks, the message id is taken or a needed new conversation's id is; on 201 exactly one message is added to the chosen conversation, whose triple matches the request when none was named; a created conversation is `NewConversation` of the request; every other conversation and message is unchanged |
| ChatController.FreshFirstMessageDelivered | chat-service/controllers/chatController.js:136-187 | a first message with sender, recipient, text, requirement id and name, and fresh generated ids is answered 201 |
| ChatController.PostMessage | chat-service/controllers/chatController.js:106-195 | runs the lookup, insert and touch step by step and ends where `PostMessageResult` says |
| ChatController.FirstMessageReusesConversation | chat-service/controllers/chatController.js:143-149 | a first message whose triple has a conversation goes into it and creates none |
| ChatController.RepeatedFirstMessagesShareConversation | chat-service/controllers/chatController.js:136-167 | two first messages for the same triple land in the same conversation |
| ChatController.PostByIdSkipsParticipantCheck | chat-service/controllers/chatController.js:125-133 | a named existing conversation accepts a message from any sender |
| ChatController.NewConversationSurvivesFailedMessage | chat-service/controllers/chatController.js:154-178 | with no transaction, a conversation created by a call whose message insert fails stays |
| ChatController.FirstMessageVisibleToBoth | chat-service/controllers/chatController.js:31-91 | after a first message both parties list the conversation and see the message in its thread |
| LegacyStore.MongoDb.constructor | controllers/leadController.js:2-5 | the empty collections satisfy the document invariants |
| LegacyStore.PostInto | controllers/leadController.js:38-57 | the message id is appended to the first conversation holding both participants and the product, or to a new conversation with participants [a, b] |
| LegacyStore.PostIntoKeepsValid | controllers/leadController.js:38-61 | a fresh message keeps ids unique and every listed message stored, is listed exactly once and in the reported conversation, which holds both participants; at most one conversation is added |
| LegacyStore.PostAgainReuses | controllers/leadController.js:38-41 | a second post between the same two users about the same product goes to the first post's conversation and adds none |
| LegacyLeadController.PlaceholderName | controllers/leadController.js:26 | the saved name wraps the product name as `Inquiry for "<name>"` |
| LegacyLeadController.PlaceholderNameDiffers | controllers/leadController.js:23-26 | the saved placeholder name never equals the product name it was made from |
| LegacyLeadController.Placeholder | controllers/leadController.js:25-34 | the placeholder has the wrapped name, the description prefix, category 'Lead', the seller's name as brand, status draft, stock 0 and the placeholder flag |
| LegacyLeadController.Contact | controllers/leadController.js:38-61 | the message is posted by `PostInto`, the seller is appended to `contactedSellers`, the message stored, the products as given; 200 and the invariants hold |
| LegacyLeadController.BuyLeadWith | controllers/leadController.js:7-76 | 404 exactly for an unknown requirement, 409 exactly for a seller already listed, 500 exactly when no placeholder is found and the seller has no name (the new placeholder fails validation), all writing nothing; on 200 the seller is recorded, the message stored, the placeholder reused when the lookup finds one and appended otherwise, and at most one conversation added |
| LegacyLeadController.BuyLead | controllers/leadController.js:7-76 | performs the lookups, creations, pushes and saves in order and ends where `BuyLeadResult` (the lookup under the requested product name) says |
| LegacyLeadController.SecondBuyConflicts | controllers/leadController.js:17-59 | after a successful call the same seller's next call on the requirement is 409 and writes nothing |
| LegacyLeadController.NewPlaceholderNotFound | controllers/leadController.js:23-26 | a placeholder saved under its wrapped name never answers the lookup by the plain product name |
| LegacyLeadController.RepeatBuyDuplicatesPlaceholder | controllers/leadController.js:23-36 | as written, a seller's second lead on the same product name saves a second placeholder with the same name and starts a new conversation |
| LegacyLeadController.ProductFor | controllers/leadController.js:23-36 | the product used is the found placeholder, or the new one when the lookup finds none |
| LegacyLeadController.BuyIsContact | controllers/leadController.js:23-61 | a successful call is the contact step on the product `ProductFor` names |
| LegacyLeadController.LookupFindsUsedProduct | controllers/leadController.js:23-36 | with the lookup under the saved name, the next lookup finds the product the call used |
| LegacyLeadController.ContactReusesConversation | controllers/leadController.js:38-48 | a second contact between the same seller and buyer about the same product reuses the conversation |
| LegacyLeadController.IntendedBuyReusesConversation | controllers/leadController.js:23-48 | with the lookup under the saved name, a second lead on the same product name to the same buyer reuses both the placeholder and the conversation |
| LegacyLeadController.IntendedBuyLeadResult | controllers/leadController.js:23-36 | the purchase with the placeholder looked up under the name it is saved as, `Inquiry for "<productName>"`; being `BuyLeadWith` with that name, every code and state property stated for `BuyLeadWith` holds for it |
| RequirementController.NewerOrSameIsPreorder | controllers/requirementController.js:25-63 | `sort({ createdAt: -1 })` compares by a total preorder |
| RequirementController.NewestFirst | controllers/requirementController.js:23-63 | exactly the requirements satisfying the filter, each once, newest first |
| RequirementController.GetBuyerRequirements | controllers/requirementController.js:18-32 | 401 without a user; otherwise exactly the caller's requirements, newest first |
| RequirementController.Flag | controllers/requirementController.js:65-71 | `isContacted` is true exactly when the caller is in `contactedSellers` |
| RequirementController.IdsOf | controllers/requirementController.js:65-71 | the list keeps the requirements' order, one entry per requirement |
| RequirementController.GetAvailableLeads | controllers/requirementController.js:56-78 | exactly the 'Open' requirements the caller does not own, newest first, each flagged contacted exactly when the caller is listed |
| RequirementController.UpdateRequirementStatusResult | controllers/requirementController.js:81-108 | 400 for a status other than 'Open' or 'Closed' before any lookup, then 404 for an unknown id, 403 for a non-owner, all unchanged; on 200 only that requirement's status changes |
| RequirementController.UpdateRequirementStatus | controllers/requirementController.js:81-108 | assigns the status and saves, ending where `UpdateRequirementStatusResult` says |
| RequirementController.StatusDecidesAvailability | controllers/requirementController.js:58-100 | after a status change a requirement is among a viewer's available leads exactly when it is 'Open' and the viewer is not its buyer |
| RequirementController.BoughtLeadShowsContacted | controllers/leadController.js:59 | after a successful legacy buyLead the requirement shows as contacted to that seller (see also controllers/requirementController.js line 69) |
| MessageController.ProductOf | controllers/messageController.js:57-63 | the query matches the given product, or conversations without one when none is given |
| MessageController.PostMessageResult | controllers/messageController.js:52-92 | 201; the message is stored in a conversation holding both users about exactly the given product (or none), listed there once and nowhere else; at most one conversation is added, others are untouched; that an existing matching conversation is reused is stated by `PostInto` and `PostAgainReuses` |
| MessageController.PostMessage | controllers/messageController.js:52-92 | builds the query, finds or creates, pushes and saves, ending where `PostMessageResult` says |
| MessageController.PostStaysWithinProduct | controllers/messageController.js:57-65 | a reused conversation has both users and exactly the requested product, or none when none was given |
| MessageController.RepeatedPostsShareConversation | controllers/messageController.js:65-73 | two posts between the same users about the same product share one conversation |
| MessageController.SentEarlierIsPreorder | controllers/messageController.js:34 | `sort({ createdAt: 1 })` compares by a total preorder |
| MessageController.GetConversationDetail | controllers/messageController.js:24-50 | 404 for an unknown conversation, 403 for a non-participant, else exactly its stored messages, oldest first |
| MessageController.PostedMessageVisible | controllers/messageController.js:41-82 | a posted message shows in its conversation's thread for both sender and recipient |
| Patterns.Repeat | models/User.js:44 | `k{n}` is n copies of the class |
| Patterns.MatchesExactly | models/User.js:44 | an anchored match consumes the string one character per class, each in its class (see also models/SellerProfile.js line 46) |
| Patterns.MatchesWhenInClass | models/User.js:44 | a string of the pattern's length with every character in class matches (see also models/SellerProfile.js line 46) |
| UserModel.ContactNumberShape | models/User.js:38-48 | the contact-number pattern accepts exactly the strings of ten decimal digits |
| UserModel.IsContactNumber | models/User.js:44 | the contact-number validator's anchored ten-digit pattern (characterised by `ContactNumberShape`) |
| UserModel.ValidUser | models/User.js:21-67 | a saved user has a name, an email, a ten-digit contact number, a role and a status from their enums, and valid addresses |
| UserModel.Trimmed | models/User.js:25-41 | the `trim` setter keeps presence, never lengthens, and yields "" exactly for whitespace |
| UserModel.StoredEmail | models/User.js:27-33 | the email setters keep presence |
| UserModel.StoredEmailNormal | models/User.js:31-32 | trimming and lower-casing commute, and a stored email is stored unchanged again |
| UserModel.NewAddress | models/User.js:5-19 | a new address keeps its type and details and is default only when given true |
| UserModel.Build | models/User.js:54-66 | `status` defaults to 'active', `onboardingComplete` to false, and every address is built by `NewAddress` |
| UserModel.BuildAccepted | models/User.js:21-67 | the built document passes validation exactly when the input meets every schema rule (required, trimmed, contact number, enums, address kinds) |
| UserModel.CreateUser | models/User.js:21-67 | saving succeeds exactly when name and email are not blank, the trimmed contact number is ten digits, the role is buyer/seller/admin, a given status is active/suspended and every address has a Billing/Shipping type and details; the stored user is valid, with trimmed name, trimmed lower-cased email and the defaults |
| UserModel.InputOf | models/User.js:66 | the rebuilt input has one address per stored address |
| UserModel.AddressIds | models/User.js:66 | the subdocument ids in order |
| UserModel.CreatedUserIsStable | models/User.js:21-67 | a created user, built and saved again, is stored unchanged |
| SellerProfileModel.GstPatternPositions | models/SellerProfile.js:46 | the pattern has fifteen positions with the classes `GstClass` names |
| SellerProfileModel.GstNumberShape | models/SellerProfile.js:41-50 | the GSTIN pattern accepts exactly the fifteen-character strings of 2 digits, 5 capitals, 4 digits, a capital, a capital or digit, 'Z', a capital or digit |
| SellerProfileModel.IsGstNumber | models/SellerProfile.js:46 | the GSTIN validator's anchored pattern (characterised by `GstNumberShape`) |
| SellerProfileModel.AcceptedGstNumber | models/SellerProfile.js:46 | every accepted number has length 15, 'Z' at index 13 and two leading digits |
| SellerProfileModel.LowercaseRejected | models/SellerProfile.js:46 | any lower-case letter makes the number invalid |
| SellerProfileModel.CreateProfile | models/SellerProfile.js:4-87 | saving succeeds exactly when every required path is present (company name and address not blank) and the GST number matches; the stored profile has a 15-character GST number, a trimmed company name, and `gstVerified` false unless given true |
| SellerProfileModel.SavedProfileValid | models/SellerProfile.js:4-87 | a stored profile passes validation again when every required path is non-empty and the GST number matches |
| SellerProfileModel.CreatedProfileRevalidates | models/SellerProfile.js:4-87 | a profile that was created, with a non-empty user id, passes validation again on a later save |
| SellerProfileModel.Insert | models/SellerProfile.js:5-10 | the unique `userId` index refuses a second profile for a user (and a taken id); otherwise the profile is added and is the user's only one |
| AccountStore.WithoutProfileOf | controllers/adminController.js:189-191 | `deleteOne({ userId })` removes exactly the user's profile, if any, and keeps the rest |
| AccountStore.WithCompanyName | controllers/userController.js:95-100 | the user's profile, if any, gets the company name; every other profile and the key set stay |
| AccountStore.AccountDb.constructor | models/SellerProfile.js:5-10 | the empty collections satisfy the one-profile-per-user index |
| UserController.Find | controllers/userController.js:294-301 | `addresses.id(addressId)` finds a position holding that id, and finds none exactly when no address has it |
| UserController.Added | controllers/userController.js:284-291 | `add` appends one address with the body's type and details, the default exactly when the list was empty, and keeps the others |
| UserController.Updated | controllers/userController.js:293-298 | `update` replaces only that address's type and details; its id and default flag and every other address stay |
| UserController.Removed | controllers/userController.js:300-310 | `delete` removes that address, keeps the order of the rest, and when it was the default promotes the first remaining one |
| UserController.DefaultOnly | controllers/userController.js:312-316 | `default` sets each address's flag to whether its id is the one named, changing nothing else |
| UserController.Edit | controllers/userController.js:281-316 | an edit fails exactly for `update` or `delete` of an unknown address |
| UserController.ManageAddressResult | controllers/userController.js:271-328 | 404 for an unknown user or an unknown address on update/delete, 400 for an unknown action, 500 when the edited document fails validation, all saving nothing; on 200 only the user's address list changes: `get` answers it unchanged, and every other action stores exactly the list `Edit` gives for it (the default set on the first add, type and details updated, the default promoted on delete, one default chosen), and the saved user is valid |
| UserController.ManageAddress | controllers/userController.js:271-328 | edits a copy of the list (append, splice and promote, the `forEach` loop over the addresses) and saves it, ending where `ManageAddressResult` says |
| UserController.EditAddresses | controllers/userController.js:284-315 | the in-place switch over add, update, delete and default (including the `forEach` that moves the default flag) yields exactly the list `Edit` describes, or nothing when the address id is unknown |
| UserController.AddedKeepsWellFormed | controllers/userController.js:284-291 | adding an address with a fresh id keeps ids distinct and at most one default |
| UserController.UpdatedKeepsWellFormed | controllers/userController.js:293-298 | updating keeps ids distinct and at most one default |
| UserController.RemovedKeepsWellFormed | controllers/userController.js:300-310 | deleting, with the promotion, keeps ids distinct and at most one default |
| UserController.DefaultOnlyKeepsWellFormed | controllers/userController.js:312-316 | setting the default leaves at most one default |
| UserController.ManageAddressKeepsWellFormed | controllers/userController.js:271-328 | every action keeps the address book's ids distinct and at most one address default |
| UserController.EditKeepsWellFormed | controllers/userController.js:284-315 | each editing action on a well-formed address book with a fresh new id gives a well-formed book |
| UserController.PrimaryAddress | controllers/userController.js:239 | the first default address, else the first address, else none exactly for an empty list |
| UserController.ShownAddress | controllers/userController.js:239-247 | the profile shows the primary address's details, or 'Not provided' for an empty list |
| UserController.ChosenDefaultIsShown | controllers/userController.js:239-316 | after `default` names an address of the book, the profile shows that address |
| UserController.FirstAddressIsShown | controllers/userController.js:239-287 | the first address added to an empty book is the default and is shown |
| UserController.UpdateContactDetailsResult | controllers/userController.js:82-100 | 404 for an unknown user; on 200 a truthy name or contact number replaces the stored one (trimmed), nothing else of any user changes, the user is valid, and a seller's new name becomes their profile's company name; a document that fails validation is 400 with nothing saved |
| UserController.UpdateUserContactDetails | controllers/userController.js:82-100 | assigns the truthy fields, saves and updates the profile, ending where `UpdateContactDetailsResult` says |
| UserController.UpdatedContactNumberIsTenDigits | models/User.js:38-47 | a contact number accepted by the update is stored as exactly ten digits |
| ProductController.CategoryDb.constructor | controllers/productController.js:53-58 | the category collection starts empty |
| ProductController.FindCategory | controllers/productController.js:53 | the anchored case-insensitive lookup finds a category equal to the name ignoring case, and finds none exactly when no category is |
| ProductController.FindOrCreateCategoryResult | controllers/productController.js:43-65 | null exactly for a missing or empty name; otherwise a name equal to the standardised name ignoring case; the categories either stay or gain exactly the standardised name when none matched; when the database works the returned name is stored |
| ProductController.FindOrCreateCategory | controllers/productController.js:43-65 | looks up, then creates, ending where `FindOrCreateCategoryResult` says |
| ProductController.FindOrCreateKeepsDistinct | controllers/productController.js:53-59 | the collection never holds two names equal ignoring case |
| ProductController.SameCategoryTwice | controllers/productController.js:43-65 | two names that standardise alike ignoring case get the same category and the second call stores nothing |
| ProductController.ProfileOf | controllers/productController.js:23 | the seller profile of that user, or none exactly when the user has no profile |
| ProductController.Format | controllers/productController.js:13-37 | the product is kept; the seller id is flattened when the seller exists, else null; the location is "<city>, <state>" and the GST flag is shown exactly when the seller exists and has a profile with a city, else the location is not available |
| ProductController.PopulateAndFormat | controllers/productController.js:8-41 | a single product is wrapped into a list; one formatted product per product, in the same order |
| ProductController.FindProduct | controllers/productController.js:72 | `findById` finds a product with that id, and finds none exactly when no product has it (see also lines 188, 218) |
| ProductController.GetPublicProductById | controllers/productController.js:69-86 | 200 with the formatted product exactly when the product exists and is published, else 404 with nothing |
| ProductController.Patched | controllers/productController.js:207 | each path the body gives takes the given value, every other path keeps its value, and the `_id` never changes |
| ProductController.UpdateProductResult | controllers/productController.js:185-213 | 404 for an unknown product and 403 for a caller who is not its seller, changing nothing; on 200 only that product changes: name, description, brand, seller id, status, stock quantity and placeholder flag take the body's value when sent and keep the stored one otherwise, a truthy category becomes the name `FindOrCreateCategoryResult` gives and the category collection becomes its collection, while any other category is copied as sent and the collection stays, and an uploaded file replaces the image while an image in the body is dropped |
| ProductController.UpdateProduct | controllers/productController.js:185-213 | checks, resolves the category, replaces the image and updates, ending where `UpdateProductResult` says |
| ProductController.UpdateKeepsDistinctIds | controllers/productController.js:207 | an update keeps product ids unique |
| ProductController.DeleteProductResult | controllers/productController.js:215-228 | 404 for an unknown product and 403 for a caller who is not its seller, changing nothing; on 200 exactly that product is gone, every other one remains, and ids stay unique |
| ProductController.WithoutKeepsOthers | controllers/productController.js:222 | removing one product keeps ids unique, removes every product with its id and keeps every product with another id |
| ProductController.DeleteProduct | controllers/productController.js:215-228 | finds, checks and deletes, ending where `DeleteProductResult` says |
| AdminController.Sanitise | controllers/adminController.js:42-51 | the row keeps the user's id, never shows an empty name, email, role or status, and shows onboarding complete exactly when it is stored as true |
| AdminController.ValidUserShownAsStored | controllers/adminController.js:42-51 | a user that passes the schema is listed with its own name, email and role, a role and status from the allowed values, and status "active" when none is stored (see also models/User.js lines 38-47) |
| AdminController.GetAllUsers | controllers/adminController.js:39-57 | one row for every user and no other, each the sanitised user |
| AdminController.UpdateProductStatusResult | controllers/adminController.js:69-85 | 400 exactly for a status other than draft or published, checked before the lookup; 404 exactly for an unknown product; on 200 only that product's status changes |
| AdminController.UpdateProductStatus | controllers/adminController.js:69-85 | ends where `UpdateProductStatusResult` says |
| AdminController.ModerationDecidesVisibility | controllers/adminController.js:76 | after a successful status update the public product lookup answers 200 exactly when the new status is published (see also controllers/productController.js lines 77-79) |
| AdminController.VerifyGstResult | controllers/adminController.js:117-135 | 404 exactly for an unknown profile; 500 exactly when the flag cannot be cast to a Boolean or the stored profile fails its schema on save; with either nothing changes; on 200 only that profile's GST flag changes, to the cast value, an absent value reading as not verified; the accounts stay consistent |
| AdminController.VerifyGst | controllers/adminController.js:117-135 | casts the flag, saves, and ends where `VerifyGstResult` says |
| AdminController.CastBoolean | models/SellerProfile.js:51-54 | Mongoose's Boolean cast: a boolean is itself, 'true', '1', 'yes' and 'false', '0', 'no' cast, and nothing else does |
| AdminController.VerifiedFlagShownOnProducts | controllers/adminController.js:125-126 | after the admin sets the flag on a profile that passes its schema, each of that seller's products with a location shows that flag (see also controllers/productController.js lines 26-28) |
| AdminController.Toggled | controllers/adminController.js:162 | the stored status is suspended exactly when it was active, and active otherwise |
| AdminController.LoadedStatus | models/User.js:54-58 | the loaded document's status is the stored one, or the schema default 'active' when none is stored |
| AdminController.ToggleUserStatusResult | controllers/adminController.js:155-180 | 404 exactly for an unknown user; 500 exactly when the toggled user fails the schema on save; with either, nothing changes; on 200 only that user's status changes, to 'suspended' exactly when the loaded status, 'active' by default when none is stored, was 'active' |
| AdminController.ToggleUserStatus | controllers/adminController.js:155-163 | loads the user with the default status, toggles and saves, ending where `ToggleUserStatusResult` says |
| AdminController.ToggleFlipsShownStatus | controllers/adminController.js:47 | for a valid user the toggle succeeds and flips active and suspended as listed, a user without a stored status included, who is suspended; a second toggle restores the accounts when the status was stored, and otherwise leaves it stored as 'active' (see also lines 158-163) |
| AdminController.DeleteUserResult | controllers/adminController.js:182-198 | 404 exactly for an unknown user with nothing changed; on 200 the user is removed, a seller's profile with them, another role's profile stays, no other profile changes, and the accounts stay consistent |
| AdminController.DeleteUser | controllers/adminController.js:182-198 | deletes the profile then the user, ending where `DeleteUserResult` says |
| AdminController.DeletedSellerProductsUnlocated | controllers/adminController.js:189-192 | once a seller is deleted, their products list no seller, no location and no GST flag (see also controllers/productController.js lines 34-35) |
| ProductRepository.ProductDb.constructor | product-service/repositories/productRepository.js:5 | the products table starts empty |
| ProductRepository.FindPublicProducts | product-service/repositories/productRepository.js:10-14 | exactly the published rows, unchanged |
| ProductRepository.FindPublicProductsByMainCategory | product-service/repositories/productRepository.js:16-21 | exactly the published rows of that main category, unchanged |
| ProductRepository.FindPublicProductById | product-service/repositories/productRepository.js:23-27 | the row with that id exactly when it exists and is published |
| ProductRepository.FindProductsBySellerId | product-service/repositories/productRepository.js:33-37 | exactly the rows of that seller, whatever their status |
| ProductRepository.PublicFindersAgree | product-service/repositories/productRepository.js:10-27 | the by-id finder returns a row exactly when the list finder lists its id |
| ProductRepository.NewId | product-service/repositories/productRepository.js:60 | the given id when truthy, else the freshly generated one |
| ProductRepository.CreateDefaults | product-service/repositories/productRepository.js:71-80 | without status, visibility, stock or image the row is published, public, with stock 0 and no images, and the public finder returns it |
| ProductRepository.BusinessCategoryNotStored | product-service/repositories/productRepository.js:58-81 | payloads that differ only in businessCategory store the same row |
| ProductRepository.Create | product-service/repositories/productRepository.js:56-85 | the insert fails, writing nothing, exactly when the key is taken; otherwise it stores and returns the new row under that key and nothing else changes |
| ProductRepository.UpdatedColumns | product-service/repositories/productRepository.js:91-115 | a column given in the payload takes the given value and every other column, and always the seller, keeps its value |
| ProductRepository.UpdateIsIdempotent | product-service/repositories/productRepository.js:91-120 | applying a payload twice is the same as once |
| ProductRepository.Update | product-service/repositories/productRepository.js:91-123 | an empty update exactly for a payload with no field, which knex refuses; no row exactly for a non-empty payload and an unknown id; with either nothing changes; otherwise only that row changes, to the updated row, which is returned |
| ProductRepository.Remove | product-service/repositories/productRepository.js:129-133 | the row is gone, the others stay, and the count is 1 exactly when it existed |
| ProductRepository.CountAllPublic | product-service/repositories/productRepository.js:139-146 | the number of rows the public finder lists |
| ProductRepository.CountByStatus | product-service/repositories/productRepository.js:148-158 | the fold over the status groups ends with, for each status present, the number of rows with that status |
| ProductRepository.StatusCountsCoverAll | product-service/repositories/productRepository.js:148-158 | the per-status counts add up to the number of rows |
| ProductRepository.CountLowStock | product-service/repositories/productRepository.js:160-167 | the number of rows whose stock is at most the threshold, 5 when none is given, and never more than the rows |
| ProductRepository.CountBySeller | product-service/repositories/productRepository.js:197-223 | the seller's total, low-stock count at 5 and per-status counts, each over the seller's rows only |
| ProductRepository.SellerCountsConsistent | product-service/repositories/productRepository.js:197-223 | a seller's low-stock count is at most the total and the per-status counts add up to the total |
| ProductServiceController.HeaderDecidesSeller | product-service/controllers/productController.js:27-31 | once a role header is sent, the caller is a seller exactly when the header equals "seller" ignoring case, whatever the user service says |
| ProductServiceController.IsSellerUser | product-service/controllers/productController.js:27-31 | a sent role header decides, compared ignoring case with 'seller'; without one the fetched user's role must be exactly 'seller' |
| ProductServiceController.FirstMissing | product-service/controllers/productController.js:160-169 | none exactly when name, description, brand, mainCategoryId and subCategory are all present and not blank; otherwise the first missing or blank one in that order |
| ProductServiceController.NonZero | product-service/controllers/productController.js:271 | a number is passed on exactly when it is given and not zero |
| ProductServiceController.CreatePayloadOf | product-service/controllers/productController.js:175-188 | the payload carries the caller as seller, no id and no visibility, and always a status, a stock quantity and an image list |
| ProductServiceController.CreatedRow | product-service/controllers/productController.js:156-188 | the stored row belongs to the caller, keeps the body's text fields and categories, is a draft unless a status is given, is public, and has stock 0 and no images unless given (see also product-service/repositories/productRepository.js lines 58-81) |
| ProductServiceController.CreateProductResult | product-service/controllers/productController.js:134-202 | 401 exactly without a caller id; 403 exactly for a caller who is not a seller; 400 exactly for a missing field (named in the message) or an unknown main category; 500 when the insert fails; nothing changes except on 201, which adds exactly the created row under the fresh id |
| ProductServiceController.CreateProduct | product-service/controllers/productController.js:134-202 | runs the checks in order and inserts, ending where `CreateProductResult` says |
| ProductServiceController.CreatedDraftIsHidden | product-service/controllers/productController.js:182 | a product created without a status is listed for its seller but returned by neither public finder (see also product-service/repositories/productRepository.js lines 10-14, 23-27) |
| ProductServiceController.DraftIsHidden | product-service/repositories/productRepository.js:10-27 | a draft row is listed for its seller but returned by neither public finder |
| ProductServiceController.UpdatePayloadOf | product-service/controllers/productController.js:246-277 | the payload never sets brand or visibility, and passes the stock quantity only when it is given and not zero |
| ProductServiceController.OwnerCheck | product-service/controllers/productController.js:237-302 | 404 exactly when the row is missing, 200 exactly when it belongs to the caller, else 403 |
| ProductServiceController.UpdateProductResult | product-service/controllers/productController.js:224-284 | 401 exactly without a caller id; 403 exactly for a caller who is not a seller or not the owner; 404 exactly for a seller naming a missing product; 400 exactly for a category id that is not found; 500 exactly when the body sets no column, so the empty update throws; nothing changes unless 200; on 200 the caller owns the row, only that row changes, to the repository update with the payload, and its brand, visibility and seller stay |
| ProductServiceController.UpdateProduct | product-service/controllers/productController.js:224-284 | runs the checks in order, answers 500 when the repository reports an empty update, and otherwise ends where `UpdateProductResult` says |
| ProductServiceController.ZeroStockIgnored | product-service/controllers/productController.js:271 | as written, a successful update asking for stock 0 leaves a stock of 7 at 7 |
| ProductServiceController.ZeroStockAloneFails | product-service/controllers/productController.js:271 | a body whose only field is `stockQuantity: 0` answers 500 as written, because the payload is empty, and 200 with the correction |
| ProductServiceController.IntendedUpdateProductResult | product-service/controllers/productController.js:224-284 | the same refusals as the update as written; 500 exactly when the corrected payload is empty; nothing changes unless 200; on 200 only that row changes, with the stock quantity passed whenever the body gives one |
| ProductServiceController.IntendedUpdateSetsStock | product-service/controllers/productController.js:271 | with the correction, a requested stock quantity, zero included, is stored, and the row is otherwise the as-written payload's update |
| ProductServiceController.DeleteProductResult | product-service/controllers/productController.js:289-310 | 401 exactly without a caller id; 404 exactly for a caller naming a missing row; 403 exactly for another seller's existing row; nothing changes unless 200; on 200 the row existed and exactly it is removed |
| ProductServiceController.DeleteProduct | product-service/controllers/productController.js:289-310 | checks, then removes, ending where `DeleteProductResult` says |
| ProductServiceController.OthersCannotTouch | product-service/controllers/productController.js:242-302 | a caller who does not own a row leaves every row as it was, by update or by delete |
| AdminService.CatalogDb.constructor | admin-service/db/migrations/20251127120000_create_admin_settings_table.js:6-12 | the category tables start empty and satisfy the name, pair and foreign-key constraints (see also admin-service/db/migrations/20251223120000_create_sub_categories.js lines 6-19) |
| AdminService.VerifyAdmin | admin-service/controllers/adminController.js:12-22 | the caller is an admin exactly when an id is given and the fetched user's role is exactly 'admin'; a failed fetch is not an admin |
| AdminService.CreateMainCategoryResult | admin-service/controllers/adminController.js:41-73 | 403 exactly for a caller who is not an admin; 400 exactly for a blank name; 409 exactly when a category has the trimmed name ignoring case; 500 exactly when otherwise the new id is taken; nothing changes unless 201, which stores exactly the trimmed, non-empty name as active under the new id; the constraints keep holding |
| AdminService.CreateMainCategory | admin-service/controllers/adminController.js:41-73 | checks, looks for a clash, then inserts, ending where `CreateMainCategoryResult` says |
| AdminService.CreateKeepsNamesDistinct | admin-service/controllers/adminController.js:53-66 | main-category names never become equal ignoring case through this handler |
| AdminService.SecondCreateConflicts | admin-service/controllers/adminController.js:53-59 | once a name is created, creating any name whose trimmed form equals it ignoring case is a 409 |
| AdminService.TakenNameConflicts | admin-service/controllers/adminController.js:53-59 | creating a name whose trimmed form matches an existing main category ignoring case is a 409 |
| AdminService.LexTotal | admin-service/controllers/adminController.js:80 | any two names are ordered one way or the other by the ascending name order (see also line 162) |
| AdminService.LexTransitive | admin-service/controllers/adminController.js:80 | the ascending name order is transitive (see also line 162) |
| AdminService.NameOrdersArePreorders | admin-service/controllers/adminController.js:80 | ordering categories by name is a total preorder, so sorting by it is well defined (see also line 162) |
| AdminService.GetMainCategories | admin-service/controllers/adminController.js:76-87 | exactly the active categories, each once, in ascending name order |
| AdminService.ToggleMainCategoryStatusResult | admin-service/controllers/adminController.js:90-123 | 403 exactly for a non-admin, 400 exactly for a missing boolean, 404 exactly for an unknown id, changing nothing; on 200 only that category's flag changes, to the given value |
| AdminService.ToggleMainCategoryStatus | admin-service/controllers/adminController.js:90-123 | ends where `ToggleMainCategoryStatusResult` says |
| AdminService.ToggleDecidesListing | admin-service/controllers/adminController.js:78-112 | after an admin sets the flag, the category is listed exactly when the flag is true |
| AdminService.DeleteMainCategoryResult | admin-service/controllers/adminController.js:126-145 | 403 exactly for a non-admin, 404 exactly for an unknown id, changing nothing; on 200 the category and, by the cascade, exactly its sub-categories are gone (see also admin-service/db/migrations/20251223120000_create_sub_categories.js lines 15-18) |
| AdminService.DeleteMainCategory | admin-service/controllers/adminController.js:126-145 | ends where `DeleteMainCategoryResult` says |
| AdminService.GetSubCategories | admin-service/controllers/adminController.js:152-169 | exactly the active sub-categories of that main category, each once, in ascending name order |
| AdminService.FindPair | admin-service/controllers/adminController.js:197-202 | the one sub-category with that main category and name, or none exactly when there is none |
| AdminService.CreateSubCategoryResult | admin-service/controllers/adminController.js:172-209 | 400 exactly for a blank name; 200 with the existing row exactly when the pair exists; 500 when the main category is unknown or the new id is taken; nothing changes unless 201, which stores exactly the trimmed name as active; the constraints keep holding |
| AdminService.CreateSubCategory | admin-service/controllers/adminController.js:172-209 | ends where `CreateSubCategoryResult` says |
| AdminService.SubCategoryCreatedOnce | admin-service/controllers/adminController.js:181-204 | after a pair is created, creating it again with the same trimmed name returns that row with 200 and stores nothing |
| CategoryNames.Split | controllers/productController.js:48 | at least one piece, none holding a space |
| CategoryNames.PiecesOf | controllers/productController.js:48 | every character of a piece is a character of the string |
| CategoryNames.Capitalise | controllers/productController.js:49 | the same length, the first character upper-cased and the rest unchanged |
| CategoryNames.CapitaliseAll | controllers/productController.js:49 | each word capitalised, in order |
| CategoryNames.JoinSplit | controllers/productController.js:48-50 | joining the pieces again gives back the string |
| CategoryNames.SplitJoin | controllers/productController.js:48-50 | splitting joined space-free pieces gives back the pieces |
| CategoryNames.StandardiseShape | controllers/productController.js:45-50 | standardising changes only letter case of the trimmed name, and its words are the name's words each with the first character upper-cased |
| CategoryNames.StandardiseIdempotent | controllers/productController.js:45-50 | standardising twice is the same as once |
| CategoryNames.Standardise | controllers/productController.js:45-50 | trim, lower-case, split on single spaces, capitalise each word and join again (characterised by `StandardiseShape`) |
| Text.Trim | admin-service/controllers/adminController.js:49-54 | `trim()` removes exactly the surrounding whitespace: the result neither starts nor ends with whitespace, and it is empty exactly when the string is all whitespace |
| Text.TrimIdempotent | admin-service/controllers/adminController.js:54-63 | trimming twice is the same as once |
| Text.Lower | controllers/productController.js:47 | `toLowerCase()` keeps the length and lower-cases each character |
| Text.TrimLower | controllers/productController.js:46-47 | trimming and lower-casing commute |

## Left out

- Real-time sockets: the connection registry and every emit, including the forced logout of a suspended user and the new-lead notification, are transport, not state.
- Outbound HTTP: each remote lookup is a parameter holding the record or None. This covers user-service lookups, the chat POST, admin and seller checks, and the pincode API. Retries and the localhost fallback are not modelled.
- Authentication, passwords, tokens, e-mail and the authentication middleware: the caller's id and role are inputs.
- File and image storage (Cloudinary, S3, `req.file`): an upload is an optional reference, and deleting the old image is not modelled.
- Floating point: prices are opaque text, and `parseFloat`/`parseInt` are not modelled.
- Clocks and id generation: timestamps are a clock reading given to each call, and ids come from a fresh-id supply.
- Opaque payloads: JSON `details` of a requirement and product `image` lists are values that are stored and returned unchanged.
- `$regex` and `whereILike` matching is modelled as case-insensitive equality, so regular-expression and wildcard characters in names are not given their special meaning.
- Case mapping is ASCII only. `toLowerCase`/`toUpperCase` on other Unicode letters is not modelled, and `trim` uses the JavaScript whitespace set.
- Database concurrency and isolation: each handler is one atomic step. The unique constraints are invariants rather than the outcome of racing writers.
- SQL `ORDER BY name` is code-point order, not the database's collation. Ties under an `ORDER BY` are left unspecified.
- Mongo `CastError`s on malformed ids and other driver errors are not modelled. In the legacy `buyLead` and `postMessage` the final saves are taken to succeed.
- Postgres type errors: the ids of the lead, chat, admin and product services are `uuid` columns, and their `string()` columns are `varchar(255)`. A malformed id or an over-long name, city or product name makes the query fail, and the handler answers 500. The model treats ids and texts as free strings, so there it answers as for an unknown row or stores the text.
- LeadController.SelectSellerResult: a request with no `req.user` object throws at lead-service/controllers/leadController.js:578, before any response is sent. The model covers a `req.user` without an id, which the handler answers with 500.
- A requirement's `quantity` is modelled as the text it is stored as. A JSON number 0 in a body is falsy and stored as null, while the text "0" is kept; the model sees only the text.
- The `users.email` UNIQUE constraint of the lead service is not part of `LeadStore.Valid`. A stub whose `<id>@stub.local` address is already taken makes the insert fail, and the calling handler answers 500; the model always adds the stub.
- ProductController.Patched, ProductController.UpdateProductResult: the legacy product leaves out `price`, `unit` and `isFeatured` (models/Product.js lines 7-8 and 16), which `updateProduct` copies from the body like every other path; the model does not say what they become.
- Mongoose subdocument `remove` and the document-level hooks are replaced by the list operations they perform.
- `populateAndFormatProducts` mutates the product objects it is given. The model returns new formatted values, which does not capture that the caller's objects change.
- `getAllUsers` returns rows in the collection's natural order. The model keeps only the set of rows (`AdminController.GetAllUsers`).
- Handlers outside the modelled core are not modelled. In the lead service these are `getRequirementById` and `getSellerContactedRequirements`, and in its repository `findRequirementById`, `updateRequirementStatus` and `findContactedRequirementsBySeller`. In the product service they are the public read handlers, `uploadProductImage`, `findProductsBySellerIdAndMainCategory`, `countByBrand` and `countByCategory`. In the monolith they are the message `getConversations`, `getRequirementDetails`, `adminDeleteProduct`, the GST and requirement listings, and the buyer and seller dashboards.
- The admin dashboard, the gst-service, the seller-service, the verification mock, migrations other than their constraints, seeds, import scripts and server bootstraps are not modelled.
- ProductRepository.UpdatedColumns: a field sent as an explicit `null` is not told apart from a value, so the `|| []` fallback for a null image is not modelled.
- ProductServiceController.CreateProductResult: a 500 is modelled only for an insert whose generated id is taken. Other database failures are not modelled.
- AdminService.CreateMainCategoryResult: a 500 is modelled only for a taken id. A name equal byte for byte to a stored one is already a 409, so the unique index never fires.

## Findings

| source | as written | input that shows it | evidently intended | confidence | as-written member | corrected member |
|---|---|---|---|---|---|---|
| controllers/leadController.js:23-36 | the placeholder product is looked up with `name: productName` but saved as `Inquiry for "<productName>"`, so the lookup never finds a saved placeholder | one seller buys two leads with the same product name (two requirements of the same buyer): the second call saves a second placeholder and starts a second conversation | the lookup uses the name the placeholder is saved under, so the second lead reuses the placeholder and its conversation | medium; not executed | LegacyLeadController.RepeatBuyDuplicatesPlaceholder | LegacyLeadController.IntendedBuyReusesConversation |
| product-service/controllers/productController.js:271 | `stockQuantity ? parseInt(stockQuantity) : undefined` treats a requested quantity of 0 as absent | a product with stock 7 and an update whose body has `stockQuantity: 0` together with another field, such as a new name: the name changes and the stock stays 7 (with no other field the update is empty and answers 500, `ProductServiceController.ZeroStockAloneFails`) | a quantity given in the body, zero included, is stored | medium; not executed | ProductServiceController.ZeroStockIgnored | ProductServiceController.IntendedUpdateSetsStock |

The handler methods `LegacyLeadController.BuyLead` and
`ProductServiceController.UpdateProduct` model the code as written. The
corrected behaviour is `LegacyLeadController.IntendedBuyLeadResult` and
`ProductServiceController.IntendedUpdateProductResult`, and the lemmas in
the last column are proved about these.
