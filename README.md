# CardDAV contact sync: a verified model

This project models the logic behind the CardDAV sync plugin for the
Buteo sync framework (nemomobile). The plugin keeps the device's contacts
in step with the addressbooks of a CardDAV server. The model has four parts.

- **Reply interpreter** (`Replies`, with `VTree`). The server's multistatus
  XML is an element tree here, and `elementToVMap` turns it into nested
  variant maps. The `parse*` functions read typed results from those maps:
  - the current-user-principal answer;
  - the addressbook home;
  - the addressbooks, with the acceptance rule on their propstat statuses;
  - the rows of a sync-token delta and of a metadata report, with the
    deletions inferred from the membership table;
  - the UID-to-guid mapping of fetched contacts.
- **CardDAV engine** (`CardDavEngine.CardDav`, with `Discovery`,
  `Downsync`, `Upsync` and `EngineTypes`):
  - the discovery stage machine of RFC 6764, section 6.5;
  - the ctag and sync-token decision for each addressbook;
  - splitting report rows into additions, modifications and deletions;
  - recording fetched contacts and applying deletions to the identity
    tables;
  - the guid and uri a local addition receives;
  - the two outstanding-request counters that act as barriers and signal
    `remoteChanges` and `upsyncCompleted`.
- **vCard converter** (`VCardConverter.CardDavVCardConverter`). An
  allow-list decides which vCard properties the contacts framework
  handles. The converter caches the other properties on import and
  stitches them back in before `END:VCARD` on export.
- **Reconciliation glue** (`SyncerFlow`, over the tables of
  `SyncState.Syncer`):
  - the account-provenance check;
  - choosing the addressbook that receives local additions;
  - routing local changes by addressbook membership;
  - the decision whether and where to upsync;
  - recording local ids after the store;
  - reporting errors;
  - the clean-sync pre-population;
  - loading and storing the per-account tables, which drops empty strings.

The engine and the syncer are classes whose methods update their fields,
as in the source. Each method is proved against a function on values that
states the same step: a `Downsync`, `Partition`, `Recorded`, `Removal` or
`Upsync` record. The lemmas about those functions carry the properties.
- A request sent to the server is an entry in `requests`.
- A reply is a call of the matching response method.
- A call queued with a zero-delay timer is an entry in `pending`, and
  `RunDeferred` runs it.
- The signals emitted are appended to `emitted` (engine) and `signals`
  (syncer).
- Whether a request can be built is the parameter `canBuild`.

`QMap` iterates in key order. So a map's "first key" is its least key, and
loops over a map's keys follow `OrderedKeys.Sorted`. Where the source reads
a missing entry through the non-const `operator[]`, the model inserts an
empty entry, as `QMap` does.

## Model

| member | source | states |
|---|---|---|
| ParserTypes.Ordinal | src/replyparser_p.h:50-55 | the four modification types are numbered 0 to 3, and 0 is exactly `Uninitialized` |
| ParserTypes.FromOrdinal | src/replyparser_p.h:50-55 | an integer names a modification type exactly when it lies in 0..3, and then it is that type's number |
| ParserTypes.OrdinalRoundTrip | src/replyparser_p.h:50-56 | the numbering is a bijection onto 0..3: converting a type to its number and back gives the type |
| ParserTypes.WithGuid | src/replyparser.cpp:641-654 | saving a guid detail makes the contact's guid the new value and keeps its local id |
| ParserTypes.WithGuidKeepsOtherDetails | src/replyparser.cpp:641-654 | saving a guid keeps every non-guid detail in place; it adds one detail only when the contact had no guid |
| VTree.ElementToVMap | src/replyparser.cpp:60-103 | the in-place loop builds exactly the element's map as the recursive definition gives it |
| VTree.XmlToVMap | src/replyparser.cpp:105-114 | the document's map holds each root element's map under the root's name |
| VTree.SingleRoot | src/replyparser.cpp:105-114 | a reply with one root element is that element's map under its name |
| VTree.AttributeEntry | src/replyparser.cpp:64-69 | an attribute name is a key exactly when the element has that attribute, and the key holds the value of its last occurrence |
| VTree.ChildEntry | src/replyparser.cpp:78-97 | with no child of a name, the attribute entry of that name stays as it was; one child with no same-named attribute is stored as its map; otherwise the entry is the list of all such children in document order |
| VTree.TextEntry | src/replyparser.cpp:71-77 | the text key is present exactly when the element has a non-empty character chunk, and it holds the last one |
| VTree.ContentMapKeys | src/replyparser.cpp:60-103 | an element's keys are exactly its attribute names, its child names and, when it has non-empty text, the text key |
| VTree.TokensMention | src/replyparser.cpp:205-222 | a start tag in the token stream is the name of some element of the tree |
| Replies.ParseUserPrincipal | src/replyparser.cpp:126-178 | the answer is addressbook information exactly when `response` is a list, or when the status is "200 OK" with an empty principal href and a non-empty ctag; addressbook information carries "" and a principal answer carries the href |
| Replies.SeveralResponsesAreAddressbookInformation | src/replyparser.cpp:153-158 | two or more `response` children always mean addressbook information with an empty path |
| Replies.OneResponseIsReadFromItsPropstat | src/replyparser.cpp:160-177 | with one response, OK status, empty href and a ctag mean addressbook information; anything else is a principal answer with the href, even when the status is not OK |
| Replies.ReplyParser.ParseAddressbookHome | src/replyparser.cpp:180-223 | the token loop returns the home path that the scan over the document's tokens defines |
| Replies.HomeIgnoresStatus | src/replyparser.cpp:205-221 | the status text never changes the home path: it is only logged |
| Replies.HomeUnsetWithoutHomeSet | src/replyparser.cpp:205-222 | with no `addressbook-home-set` start tag ahead, the home path stays as it was |
| Replies.LastHomeSetWins | src/replyparser.cpp:205-222 | when the next start element after an `addressbook-home-set` start tag, past any character data, is an `href` whose text is read without error, and no home-set follows, that text is the home path |
| Replies.SpacedHomeSetWins | src/replyparser.cpp:205-222 | a home-set separated from its `href` by whitespace, with no home-set or status before it and no home-set after it, yields the href's text |
| Replies.IndentedHomeSet | src/replyparser.cpp:182-222 | the indented reply the parser documents yields its home-set href, not the response's own href |
| Replies.NoHomeSetNoHome | src/replyparser.cpp:205-222 | a document with no `addressbook-home-set` element yields the empty home path |
| Replies.ReplyParser.ParseAddressbookInformation | src/replyparser.cpp:225-376 | the nested loops return exactly the accepted responses' addressbooks, in document order |
| Replies.ReplyParser.ScanResponse | src/replyparser.cpp:256-364 | the propstat loop of one response produces that response's row, or none when the response is rejected |
| Replies.ReplyParser.ScanPropstats | src/replyparser.cpp:282-347 | scanning the propstats in order leaves the scan state the propstat fold defines |
| Replies.FoldStatuses | src/replyparser.cpp:295-345 | the resourcetype status is that of the last propstat holding a resourcetype and a status; the resource type stays unknown exactly when no propstat holds a resourcetype |
| Replies.AcceptanceRule | src/replyparser.cpp:350-364 | a response is accepted exactly when the last resourcetype status is 2xx, or it has one propstat with no resourcetype and a 2xx status; ctag and sync-token play no part |
| Replies.FoldFields | src/replyparser.cpp:285-293 | ctag, sync-token and display name come from the last propstat that reports them, or are empty; the url is the response's href |
| Replies.AddressbookRowsMembers | src/replyparser.cpp:366-372 | an addressbook is returned exactly when some response is accepted with it; there are never more rows than responses |
| Replies.AddressbookRow | src/replyparser.cpp:256-364 | the definition of one response's addressbook: its propstats scanned in order, the addressbook kept only when the acceptance test at lines 350-364 passes; `AcceptanceRule` and `AddressbookRowsMembers` state what it keeps |
| Replies.CalendarAcceptedAsWritten | src/replyparser.cpp:295-364 | a calendar collection with a 2xx resourcetype status is accepted as written and rejected by the corrected rule |
| Replies.CorrectedAcceptsOnlyAddressbooks | src/replyparser.cpp:295-364 | under the corrected rule, no accepted resource has a resourcetype that is explicitly not an addressbook |
| Replies.ReplyParser.ParseSyncTokenDelta | src/replyparser.cpp:378-458 | the new sync token is the multistatus `sync-token` text, and the rows are the responses classified against the uri table, in order |
| Replies.GuidForUri | src/replyparser.cpp:432-437 | the guid a row receives is the greatest non-empty guid whose stored uri is the row's uri, or "" when there is none |
| Replies.DeltaRowMeaning | src/replyparser.cpp:413-454 | a "200 OK" row is kept exactly when its uri ends in ".vcf"; it is a Modification exactly when some guid maps to its uri, otherwise an Addition with an empty guid; "404 Not Found" is a Deletion; any other status gives an `Uninitialized` row |
| Replies.DeltaRow | src/replyparser.cpp:428-454 | the definition of one delta row: uri, etag, the last guid mapped to the uri, and the status decide the row; `DeltaRowMeaning` states the classification |
| Replies.DeltaRowsMembers | src/replyparser.cpp:413-454 | the rows returned are exactly the rows the responses classify to, never more than the responses |
| Replies.DeltaIgnoresResponseStatus | src/replyparser.cpp:401-438 | a response with no propstat, as a deleted member is reported, comes out `Uninitialized` and not as a Deletion |
| Replies.DeletedMemberLost | src/replyparser.cpp:401-438 | the concrete deleted-member response is `Uninitialized` as written and a Deletion when corrected |
| Replies.CorrectedDeltaReadsResponseStatus | src/replyparser.cpp:438-452 | corrected, a 404 status directly under the response is a Deletion, and a response without such a status is classified as before |
| Replies.ReplyParser.ParseContactMetadata | src/replyparser.cpp:460-561 | the rows are the report's additions and modifications and then the inferred deletions; the uri, etag and membership tables gain exactly the keys that `operator[]` reads |
| Replies.ReplyParser.ScanMetadata | src/replyparser.cpp:502-541 | the response loop yields the classified rows and the set of seen uris, and reads the etags of known guids |
| Replies.ReplyParser.MetadataStep | src/replyparser.cpp:503-536 | one response gives its classified row and whether its uri counts as seen, and the etag table after its stored etag is read |
| Replies.ReplyParser.InferDeletions | src/replyparser.cpp:543-558 | the membership loop yields one deletion row for each guid whose stored uri was not seen |
| Replies.MetadataRowMeaning | src/replyparser.cpp:502-541 | non-.vcf or non-OK rows are dropped; an OK row with an unknown uri is an Addition; a known one is a Modification exactly when its stored etag differs |
| Replies.MetadataRow | src/replyparser.cpp:503-536 | the definition of one metadata row: unknown uri an addition, known uri with a changed etag a modification, otherwise nothing; `MetadataRowMeaning` states it for every input |
| Replies.DeletionRowsMembers | src/replyparser.cpp:543-558 | a deletion row is inferred exactly for a membership guid whose stored uri is unseen, and it carries that guid's stored uri and etag |
| Replies.DeletionCount | src/replyparser.cpp:543-558 | an unseen guid yields one deletion per occurrence in the membership list, and a seen one yields none |
| Replies.TouchAllKeys | src/replyparser.cpp:545-550 | reading keys through `operator[]` adds exactly those keys |
| Replies.ReplyParser.ParseContactData | src/replyparser.cpp:563-666 | the contacts and the uid table are those of filing each multiget response in turn |
| Replies.ContactDataStepRule | src/replyparser.cpp:624-662 | a response that fails to convert or has no UID is skipped; otherwise the contact is filed under its uri with its etag and cached properties, and the contact's guid is the least local guid of its UID or the new "<accountId>:<UID>", which is then recorded; no other uri changes |
| Replies.ContactDataStep | src/replyparser.cpp:618-662 | the definition of one multiget response: skipped without a conversion or a UID, otherwise filed under its uri; `ContactDataStepRule` states both cases |
| Replies.GuidForUidMeaning | src/replyparser.cpp:638-653 | a known UID gets the least guid that maps to it; an unknown UID gets "<accountId>:<UID>" |
| Replies.ContactDataInvariant | src/replyparser.cpp:624-662 | every filed contact's guid is mapped by the uid table; the table only grows, and every new or changed key has the account's prefix; the result is keyed by the responses' uris |
| OrderedKeys.LastGuidForUri | src/replyparser.cpp:432-437 | the loop over the uri table keeps the last match in key order, which is the greatest guid mapped to the uri |
| OrderedKeys.FirstGuidForUid | src/replyparser.cpp:639-648 | the loop over the uid table stops at its first match, which is the least guid mapped to the UID |
| OrderedKeys.SortKeys | src/syncer.cpp:263-270 | the keys of a map in the order `QMap` iterates them |
| OrderedKeys.LeastKey | src/syncer.cpp:226-233 | `keys().first()` is the least key |
| VCardConverter.SupportedPropertyNamesShape | src/carddav.cpp:79-92 | the allow-list has 17 distinct upper-case names |
| VCardConverter.SupportIgnoresCase | src/carddav.cpp:193-203 | a property name and its upper-cased form are allowed alike |
| VCardConverter.IsSupported | src/carddav.cpp:193-207 | the definition of the allow-list test on the upper-cased name; `SupportIgnoresCase` and `PropertyCaching` state its use |
| VCardConverter.PropertyStringBetweenMarkers | src/carddav.cpp:165-187 | the cached text is the trimmed text strictly between the first "VERSION:3.0" and the first "END:VCARD"; it is empty when either marker is missing, the header is at the very start, or that first footer does not come after the header (even if a later one does) |
| VCardConverter.ConvertPropertyToString | src/carddav.cpp:165-187 | the definition of the cached text of a written property; `PropertyStringBetweenMarkers` states what it is for every input |
| VCardConverter.PropertyCaching | src/carddav.cpp:193-215 | PHOTO and allow-listed properties cache nothing; an unsupported property is cached as its text and its details are cleared |
| VCardConverter.CardDavVCardConverter.PropertyProcessed | src/carddav.cpp:189-216 | the hook always claims the property, hands back its handled details and appends the property's cached text |
| VCardConverter.CardDavVCardConverter.DocumentProcessed | src/carddav.cpp:218-230 | the cached texts are filed under the contact's UID, or dropped when the UID is empty; the temporary cache is emptied |
| VCardConverter.CardDavVCardConverter.ImportDocument | src/carddav.cpp:109-121 | one imported document gives the imported details, and its cached properties are filed under the contact's UID |
| VCardConverter.CardDavVCardConverter.ConvertVCardToContact | src/carddav.cpp:94-134 | the import succeeds exactly for one vCard document; the contact has every detail modifiable, and the unsupported list is the one cached under its UID, or empty when the UID is empty |
| VCardConverter.MarkModifiable | src/carddav.cpp:126-130 | every detail is kept in order and marked modifiable |
| VCardConverter.MarkModifiableKeepsGuid | src/carddav.cpp:122-130 | marking details modifiable keeps the contact's UID |
| VCardConverter.CardDavVCardConverter.DetailProcessed | src/carddav.cpp:236-248 | the backwards removal loop keeps exactly the allow-listed properties, in order |
| VCardConverter.SupportedOnlyMembers | src/carddav.cpp:240-247 | export emits exactly the allow-listed properties it was given |
| VCardConverter.CardDavVCardConverter.ConvertContactToVCard | src/carddav.cpp:136-163 | the insertion loop produces the stitched vCard |
| VCardConverter.StitchPlacesBeforeEnd | src/carddav.cpp:150-157 | when the last "END:VCARD" is at index e > 0, every cached property plus CRLF sits just before it, in the original order; otherwise the export is unchanged |
| VCardConverter.InsertKeepsLastEnd | src/carddav.cpp:151-156 | inserting text before the last "END:VCARD" keeps that marker the last one |
| SyncState.TouchRule | src/replyparser.cpp:432-437 | reading a missing key through `operator[]` adds it with an empty value and changes no value |
| SyncState.RemoveOneCount | src/carddav.cpp:791 | `removeOne` removes one occurrence and nothing else |
| SyncState.RemoveOneAt | src/carddav.cpp:917 | `removeOne` removes the first occurrence and keeps the rest in order |
| SyncState.Syncer.constructor | src/syncer.cpp:56-79 | a new syncer has the account id and empty tables, counters and signals |
| Discovery.RequestUrlRule | src/carddav.cpp:336-341 | the first request never goes to an empty or "/" path, which becomes the well-known path on the same scheme and host; other URLs are requested as they are |
| Discovery.RequestUrl | src/carddav.cpp:336-341 | the definition of the URL requested; `RequestUrlRule` states it |
| Discovery.RetryRequestsItsUrl | src/carddav.cpp:376-398 | a retry's stored URL is the URL the retried request goes to |
| Discovery.ErrorRetriesDecrease | src/carddav.cpp:376-402 | a failed reply is retried only in the first stage on 404 or 405, and each retry leaves fewer retries; otherwise it fails with its status |
| Discovery.Decide | src/carddav.cpp:371-423 | the definition of what a reply leads to (retry, failure, or parsing the body); `ErrorRetriesDecrease`, `RedirectRule` and `ParseOnlyPlainReplies` state each case |
| Discovery.RedirectRule | src/carddav.cpp:404-426 | a redirect is followed exactly when it leaves a well-known path for a different path, and the stage becomes redirected; otherwise it fails with 301 |
| Discovery.ParseOnlyPlainReplies | src/carddav.cpp:367-449 | the body is parsed exactly for a reply with neither an error nor a redirect |
| CardDavEngine.CardDav.constructor | src/carddav.cpp:250-263 | a new engine starts discovery with no requests, no pending calls, zero counters and an idle converter |
| CardDavEngine.CardDav.Send | src/carddav.cpp:342-346 | a request is recorded when it can be built, otherwise `error()` is emitted |
| CardDavEngine.CardDav.FetchUserInformation | src/carddav.cpp:308-353 | the well-known rewrite is stored, and the principal request goes to that URL |
| CardDavEngine.CardDav.UserInformationResponse | src/carddav.cpp:367-449 | the reply is retried, followed, failed or parsed as the discovery decision says, and the principal outcome follows from the body |
| CardDavEngine.CardDav.UserPrincipalBody | src/carddav.cpp:428-448 | a principal path is fetched for its home set, addressbook information goes to the ctag and sync-token decision, and an empty path is an error |
| CardDavEngine.CardDav.FetchAddressbookUrls | src/carddav.cpp:451-462 | the home-set request is issued, or `error()` is emitted |
| CardDavEngine.CardDav.AddressbookUrlsResponse | src/carddav.cpp:464-485 | a failed reply emits its status, a reply with no home emits `error()`, otherwise the addressbooks under the home are requested |
| CardDavEngine.CardDav.FetchAddressbooksInformation | src/carddav.cpp:487-498 | the addressbook-information request is issued, or `error()` is emitted |
| CardDavEngine.CardDav.AddressbooksInformationResponse | src/carddav.cpp:500-521 | a failed reply emits its status, an empty list emits `error()`, otherwise every listed addressbook is decided on |
| CardDavEngine.CardDav.DownsyncAddressbookContent | src/carddav.cpp:523-581 | the loop makes the decision for each addressbook in turn |
| CardDavEngine.CardDav.DownsyncAddressbook | src/carddav.cpp:525-578 | one addressbook's decision, with the stored token read through the reference into the table |
| Downsync.CtagDecision | src/carddav.cpp:533-551 | without a sync token, a first-seen or changed ctag is stored and a metadata report requested, and an equal ctag queues the completion |
| Downsync.TokenDecision | src/carddav.cpp:552-578 | with a sync token, the ctag is stored only when non-empty and the new token always; no old token means a metadata report, a different old token a delta report, an equal one the queued completion |
| Downsync.DecisionIsLocal | src/carddav.cpp:525-578 | a decision changes no other addressbook's ctag or token |
| Downsync.DefaultAddressbookRule | src/carddav.cpp:529-531 | the default addressbook is set only while empty: it is the first non-empty among the old value and the addressbooks' urls |
| Downsync.AddressbookStepBalance | src/carddav.cpp:525-578 | each decision adds one unit of work and counts it, or emits `error()` and counts nothing |
| Downsync.AddressbookStep | src/carddav.cpp:527-579 | the definition of one addressbook's decision; `AddressbookStepBalance`, `DefaultAddressbookRule`, `CtagDecision`, `TokenDecision` and `DecisionIsLocal` state its effect |
| Downsync.DownsyncFoldBalance | src/carddav.cpp:523-581 | over a whole report the counter rises by exactly the work it waits for, and by one per addressbook when every request can be built |
| Downsync.DeltaAskedWithNewToken | src/carddav.cpp:555-571 | as written, an addressbook whose token moved is asked for the changes since the new token, never the stored one |
| Downsync.CorrectedDeltaUsesStoredToken | src/carddav.cpp:569-571 | corrected, the delta report carries the stored token and everything else is as before |
| CardDavEngine.CardDav.FetchImmediateDelta | src/carddav.cpp:583-599 | the delta request is issued and counted, or `error()` is emitted |
| CardDavEngine.CardDav.FetchContactMetadata | src/carddav.cpp:622-635 | the metadata request is issued and counted, or `error()` is emitted |
| CardDavEngine.CardDav.ImmediateDeltaResponse | src/carddav.cpp:601-620 | a failed delta falls back to a metadata report counted again; otherwise the reported token is stored and the counter stays level with the work |
| Downsync.FallBackLeaks | src/carddav.cpp:595-631 | as written, the fall-back raises the counter one above the work it waits for; corrected, the two stay level |
| Downsync.FallBack | src/carddav.cpp:606-613 | the definition of the fall-back, as written; `FallBackLeaks` states its effect on the counter |
| Downsync.FallBackBlocksRemoteChanges | src/carddav.cpp:809-817 | after the fall-back, completing every outstanding piece of work leaves the counter at 1, and `remoteChanges` is never emitted |
| Downsync.FallBackCorrectedSignals | src/carddav.cpp:809-817 | with the fall-back corrected, the counter equals the outstanding work, and completing it emits `remoteChanges` exactly once |
| CardDavEngine.CardDav.ContactMetadataResponse | src/carddav.cpp:637-653 | a failed report emits its status and changes no counter; otherwise the counter stays level with the work |
| CardDavEngine.CardDav.PartitionRows | src/carddav.cpp:659-677 | the addressbook's lists and index maps become those of partitioning the rows, and the uris to fetch are returned |
| Downsync.PartitionContents | src/carddav.cpp:661-677 | each list receives exactly the rows of its type, in order; the fetch list exactly the additions' and modifications' uris; `Uninitialized` rows go nowhere |
| Downsync.PartitionStep | src/carddav.cpp:661-675 | the definition of one row of the partition; `PartitionContents` and `PartitionIndices` state what the rows give |
| Downsync.PartitionIndices | src/carddav.cpp:661-677 | every indexed uri names the position of a row with that uri, and every addition or modification is indexed |
| CardDavEngine.CardDav.FetchContacts | src/carddav.cpp:655-700 | the rows are partitioned; a non-empty fetch list is one multiget request; an empty one applies the deletions at once and queues the completion |
| CardDavEngine.CardDav.RequestOrComplete | src/carddav.cpp:682-697 | listed uris become one multiget request, or an error when it cannot be built; no uris means the deletions are applied and the completion queued; either way the barrier gains one token unless an error was emitted |
| CardDavEngine.CardDav.ContactsResponse | src/carddav.cpp:702-764 | a failed multiget emits its status; otherwise the completion is queued and the counter stays level with the work |
| CardDavEngine.CardDav.RecordContacts | src/carddav.cpp:714-757 | the fetched contacts are recorded in uri order, and no other addressbook's rows or membership change |
| CardDavEngine.CardDav.RecordAndComplete | src/carddav.cpp:714-763 | the fetched contacts are recorded in the order of the keys, and the addressbook's deletions then run over the tables that recording left: the addition rows and reported additions and modifications are those of the recording fold, and the removal tables those of the removal fold started from the recorded uris, etags, cached properties and membership |
| CardDavEngine.CardDav.RecordAll | src/carddav.cpp:714-757 | the loop over the keys records the fetched contacts as the record fold states, keeping the index maps in range and other addressbooks' rows and membership |
| CardDavEngine.CardDav.RecordContact | src/carddav.cpp:723-754 | one fetched contact is recorded as the value-level step states |
| Downsync.WithLocalId | src/carddav.cpp:731-749 | a fetched contact gets the local id recorded for its guid, if any, and keeps its guid and details |
| Downsync.RecordStepEffect | src/carddav.cpp:723-754 | a fetched addition fills in its row's guid and records the etag, uri, unsupported properties and membership; a modification records etag and properties only; an unknown uri changes nothing |
| Downsync.RecordStep | src/carddav.cpp:723-754 | the definition of one fetched contact's recording; its ensures keeps the number of addition rows, and `RecordStepEffect` states the effect |
| Downsync.RecordFoldAdded | src/carddav.cpp:716-756 | the contacts reported as added are exactly those under uris indexed as additions, in uri order, each with its local id |
| Downsync.RecordFoldModified | src/carddav.cpp:716-756 | the contacts reported as modified are exactly those under uris indexed only as modifications |
| Downsync.RecordFoldMembers | src/carddav.cpp:716-756 | the membership list gains exactly the additions' guids |
| Downsync.RecordFoldFrame | src/carddav.cpp:716-756 | only each addition row's guid changes, and the tables change only under fetched contacts' guids |
| CardDavEngine.CardDav.ContactAddModsComplete | src/carddav.cpp:766-803 | the addressbook's deletions are applied to the tables, no other membership changes, and one completion is queued |
| CardDavEngine.CardDav.RemoveLocally | src/carddav.cpp:772-792 | one deletion row is applied to the tables and the removal list as the removal step states, touching no other addressbook's membership |
| Downsync.Doomed | src/carddav.cpp:774-784 | the contact reported for a removal carries exactly the guid and the local id |
| Downsync.RemovalFoldForgets | src/carddav.cpp:771-793 | after the deletions every table has lost exactly the entries of guids with a local id, and guids without one remain |
| Downsync.RemovalStep | src/carddav.cpp:772-792 | the definition of one deletion row; `RemovalFoldForgets`, `RemovalFoldReports` and `RemovalFoldMembers` state the effect of the rows |
| Downsync.RemovalFoldMembers | src/carddav.cpp:771-793 | the membership list loses one occurrence of each guid with a local id and nothing else |
| Downsync.DoomedOrderLists | src/carddav.cpp:771-793 | the removal order lists each guid with a local id exactly once |
| Downsync.RemovalFoldReports | src/carddav.cpp:771-793 | one contact is reported per guid with a local id, in the order of the deletion rows |
| CardDavEngine.CardDav.DownsyncComplete | src/carddav.cpp:805-818 | the counter goes down by one, and `remoteChanges` is emitted exactly when it reaches zero |
| CardDavEngine.CardDav.UpsyncComplete | src/carddav.cpp:961-969 | the counter goes down by one, and `upsyncCompleted` is emitted exactly when it reaches zero |
| CardDavEngine.CardDav.RunDeferred | src/carddav.cpp:806-817 | running a queued completion keeps each counter level with its work; with the counter level, the signal comes exactly when the last piece of work completes |
| EngineTypes.IssueAddsToken | src/carddav.cpp:595-631 | issuing a request adds one token to its own barrier and none to the other |
| EngineTypes.ReplyTakesToken | src/carddav.cpp:809-817 | handling a reply takes exactly its request's token |
| EngineTypes.RunTakesToken | src/carddav.cpp:809-817 | running a queued call takes exactly its token |
| EngineTypes.DrainSignalsOnce | src/carddav.cpp:809-817 | a counter started at n signals exactly once, at the n-th completion |
| EngineTypes.LeakedBarrierNeverSignals | src/carddav.cpp:809-817 | a counter one above its tokens never reaches zero |
| CardDavEngine.CardDav.UpsyncUpdates | src/carddav.cpp:820-925 | the engine's new state is the value-level upload of the additions, modifications and removals, stopping at the first request that cannot be built |
| CardDavEngine.CardDav.UploadAdditions | src/carddav.cpp:833-864 | the addition loop is the value-level fold of the additions |
| CardDavEngine.CardDav.UploadAddition | src/carddav.cpp:834-863 | one addition is uploaded as the value-level step states |
| CardDavEngine.CardDav.UploadModifications | src/carddav.cpp:866-899 | the modification loop is the value-level fold of the modifications |
| CardDavEngine.CardDav.UploadModification | src/carddav.cpp:866-899 | one modification is uploaded as the value-level step states |
| CardDavEngine.CardDav.SendModification | src/carddav.cpp:881-898 | a modification with a uid is stitched with its cached properties and sent to its stored uri with its stored etag, as the value-level send states |
| CardDavEngine.CardDav.UploadRemovals | src/carddav.cpp:901-925 | the removal loop is the value-level fold of the removals |
| CardDavEngine.CardDav.UploadRemoval | src/carddav.cpp:902-925 | one removal is sent as the value-level step states |
| Upsync.StripUuid | src/carddav.cpp:837 | stripping punctuation never lengthens the text |
| Upsync.StripUuidRemovesPunctuation | src/carddav.cpp:837 | the uid keeps every other character of the UUID text and none of '-', '{', '}' |
| Upsync.AdditionMintsIdentity | src/carddav.cpp:836-856 | a local addition gets a punctuation-free uid, the guid "<accountId>:<uid>" and the uri "<addressbookUrl>/<uid>.vcf"; uid, uri and local id are recorded; the upload carries the contact under its uid with no etag |
| Upsync.AddStep | src/carddav.cpp:835-863 | the definition of one local addition; `AdditionMintsIdentity` states its effect |
| Upsync.ModificationRule | src/carddav.cpp:866-899 | a modification is sent exactly when its guid has a stored uid, to the stored uri with the stored etag and cached properties; otherwise nothing is issued or counted; the id and membership tables are untouched |
| Upsync.ModStep | src/carddav.cpp:868-898 | the definition of one local modification; `ModificationRule` and `ModificationKeepsTables` state its effect |
| Upsync.ModificationKeepsTables | src/carddav.cpp:866-899 | the uid, uri, etag and cached-property lookups read the same for every guid after a modification: the `operator[]` reads only insert defaults |
| Upsync.RemovalKeepsUnsupported | src/carddav.cpp:912-917 | a sent removal forgets the guid's etag, uri, id and uid and one membership occurrence; as written its unsupported properties survive |
| Upsync.RemoveStep | src/carddav.cpp:903-922 | the definition of one local removal, as written; `RemovalKeepsUnsupported` states its effect |
| Upsync.CorrectedRemovalForgetsAll | src/carddav.cpp:912-917 | corrected, a sent removal leaves nothing under the guid and changes nothing else |
| Upsync.NothingToSendDefers | src/carddav.cpp:825-831 | with nothing to send, the only effect is one counted, queued completion |
| Upsync.UpsyncBalance | src/carddav.cpp:820-925 | every path through the upload raises the counter by exactly the completions it arranges |
| Upsync.AllBuiltAddFold | src/carddav.cpp:833-864 | with every request buildable, each addition issues one counted request and nothing is emitted |
| Upsync.AllBuiltRemoveFold | src/carddav.cpp:901-925 | with every request buildable, each removal issues one counted request and nothing is emitted |
| Upsync.AddFoldStopped | src/carddav.cpp:853-856 | once an addition's request cannot be built, the later additions do nothing |
| Upsync.StoppedModificationsDoNothing | src/carddav.cpp:888-891 | once stopped, modifications do nothing |
| Upsync.StoppedRemovalsDoNothing | src/carddav.cpp:907-910 | once stopped, removals do nothing |
| CardDavEngine.CardDav.UpsyncResponse | src/carddav.cpp:927-959 | a failed reply emits its status; a success stores the reported etag and brings the counter down, and `upsyncCompleted` comes exactly when the last upload is answered |
| CardDavEngine.CardDav.FindEtag | src/carddav.cpp:945-950 | the header loop finds the etag header's value |
| Upsync.EtagHeaderIsFirstMatch | src/carddav.cpp:945-950 | the etag is the value of the first header whose lower-cased name contains "etag", or "" when there is none |
| Upsync.UpsyncResponseTakesToken | src/carddav.cpp:927-959 | a reply takes its request's token and hands it on to the completion only when it succeeded |
| Upsync.UpsyncResponseEtag | src/carddav.cpp:941-955 | a reply changes at most the uploaded contact's etag, to the reported one when the reply succeeded and reported one |
| SyncerFlow.ProvenanceIdentifiesAccount | src/syncer.cpp:71-74 | a guid minted "<a>:<rest>" passes the provenance test of account b exactly when a = b |
| SyncerFlow.AddedContactsAddressbookRule | src/syncer.cpp:222-237 | the additions go to the default addressbook when there is one, else to the least ctag key, else to the least sync-token key, else to none |
| SyncerFlow.ChooseAddressbook | src/syncer.cpp:222-237 | the method picks that target |
| SyncerFlow.RoutedToMembers | src/syncer.cpp:243-258 | a contact is routed to an addressbook exactly when its guid is in that addressbook's membership list |
| SyncerFlow.RoutedToNowhere | src/syncer.cpp:243-258 | an addressbook with no members receives no modified or deleted contact |
| SyncerFlow.AffectedUrlsRule | src/syncer.cpp:238-258 | an addressbook is affected exactly when it is the target of some addition or receives some routed change |
| SyncerFlow.Route | src/syncer.cpp:243-258 | the nested loops route each contact to every addressbook listing its guid, and collect exactly those addressbooks |
| SyncerFlow.SegmentLocalChanges | src/syncer.cpp:238-258 | the segments are the additions for the target and the routed changes, and the url set is the affected addressbooks |
| SyncerFlow.SendUpdates | src/syncer.cpp:263-270 | one upload per url in order, each with that addressbook's segments |
| SyncerFlow.SendUpdate | src/syncer.cpp:263-266 | one upload of an addressbook's additions, routed modifications and routed deletions advances the upload state exactly as the value-level upload of those segments does |
| SyncerFlow.UpsyncEachBalance | src/syncer.cpp:263-270 | however many uploads run, the upsync counter stays level with the work it waits for |
| SyncerFlow.UpsyncLocalChanges | src/syncer.cpp:206-272 | with no target the sync fails; with no affected addressbook it finishes; otherwise one upload per affected url in key order |
| SyncerFlow.FailureSignals | src/syncer.cpp:154-161 | an error ends in `syncFailed` and always purges the sync state; credentials are flagged exactly on 401 |
| SyncerFlow.CardDavError | src/syncer.cpp:154-161 | the method emits exactly those signals |
| SyncerFlow.SyncFinished | src/syncer.cpp:274-286 | the tables are stored; the sync succeeds when the store succeeded and fails otherwise |
| SyncerFlow.ContinueSync | src/syncer.cpp:163-204 | a failed store or a contact without an id fails the sync; a sync from the server only finishes; otherwise the local changes are sent |
| SyncerFlow.RecordLocalIds | src/syncer.cpp:178-187 | the loop records ids as the value-level recording does, and stops at the first contact with no id |
| SyncerFlow.RecordIdsSucceeds | src/syncer.cpp:178-187 | the session goes on exactly when every stored contact has an id |
| SyncerFlow.RecordIdsValues | src/syncer.cpp:178-187 | after a successful recording each guid maps to the id of its last stored contact, and other entries are kept |
| SyncerFlow.ReadExtraStateData | src/syncer.cpp:330-490 | a failed fetch loads nothing and fails; otherwise the tables are loaded, and a clean sync also pre-populates from the existing contacts, failing when they cannot be read |
| SyncerFlow.LoadAll | src/syncer.cpp:348-450 | all eight tables are replaced by the tables their own blobs define, the ones `TablesRoundTrip` shows a store gives back |
| SyncerFlow.PrePopulate | src/syncer.cpp:452-486 | the previous remote contacts are exactly the existing contacts of this account, the exported ids are theirs, and their ids are recorded |
| SyncerFlow.OwnContactsMembers | src/syncer.cpp:473-482 | exactly the contacts with the account's prefix are kept, in order |
| SyncerFlow.CleanSyncRecordsOwnGuids | src/syncer.cpp:475-482 | a clean sync adds to the id table exactly the guids of the account's existing contacts |
| SyncerFlow.LoadStringTable | src/syncer.cpp:367-376 | the load loop builds the string table the stored object defines |
| SyncerFlow.LoadListTable | src/syncer.cpp:348-365 | the load loop builds the list table the stored object defines |
| SyncerFlow.LoadList | src/syncer.cpp:353-361 | a loaded list keeps the non-empty texts of the stored array, in order |
| SyncerFlow.StoreExtraStateData | src/syncer.cpp:493-583 | the values stored are exactly the tables encoded under their keys |
| SyncerFlow.StoreStringTable | src/syncer.cpp:504-511 | the store loop encodes a string table as its object |
| SyncerFlow.StoreListTable | src/syncer.cpp:495-502 | the store loop encodes a list table as its object |
| SyncerFlow.StringArrayLoads | src/syncer.cpp:353-361 | a stored list loads back without its empty strings |
| SyncerFlow.NonEmptyMembers | src/syncer.cpp:353-361 | the loaded list keeps exactly the non-empty strings, so a list without empty strings loads unchanged |
| SyncerFlow.StringTableRoundTrip | src/syncer.cpp:367-376 | a string table stored and loaded is unchanged |
| SyncerFlow.ListTableRoundTrip | src/syncer.cpp:348-365 | a list table stored and loaded loses exactly its empty strings |
| SyncerFlow.StoredListBlobs | src/syncer.cpp:565-574 | each list table is stored under its own key |
| SyncerFlow.StoredStringBlobs | src/syncer.cpp:565-574 | each string table is stored under its own key |
| SyncerFlow.TablesRoundTrip | src/syncer.cpp:330-576 | storing then loading all tables is the identity up to the dropped empty list entries |
| SyncerFlow.LoadedTablesAreStable | src/syncer.cpp:330-576 | loaded tables survive a store and a load unchanged |

## Left out

- XML tokenising: a reply is an element tree (`VTree.Element`) or, for `parseAddressbookHome`, the tree's start-tag, text and end-tag tokens. `QXmlStreamReader`'s byte-level parsing and its error recovery are not modelled.
- `QUrl::fromPercentEncoding` is taken as the identity, and a URL is a record of scheme, host, port and path. QUrl parsing is not modelled.
- vCard reading, writing, importing and exporting belong to the QVersit library, and avatar extraction to `SeasidePropertyHandler`. The model keeps only the converter's hooks, the allow-list and the string stitching. What the library produces is taken as input: the documents it reads (the `read` parameter), the details a property yields, and the text it writes (the `write` parameter).
- Networking: request building by `RequestGenerator` is the `canBuild` parameter, a reply is a `Reply` value, and SSL errors and signal/slot wiring are not modelled. A zero-delay `QTimer::singleShot` is a queued entry that `RunDeferred` runs.
- `QUuid::createUuid` is nondeterministic, so the UUID text of each addition is a parameter.
- Persistence and accounts: the `QJsonDocument` binary encoding and the out-of-band fetch, store and remove calls are not modelled. The fetched values, and whether storing succeeded, are parameters. Accounts::Manager, Auth sign-in and `purgeAccount` are not modelled.
- The contacts-database calls (`storeRemoteChanges`, `determineLocalChanges`, `fetchSyncContacts`) are represented by their results, which `ContinueSync`, `UpsyncLocalChanges` and `ReadExtraStateData` take as parameters.
- `QSet` iteration order is unspecified; the model iterates the affected addressbooks in sorted order.
- For the list tables (membership, unsupported properties, server row lists and index maps), an absent key and a key holding an empty list are treated alike. `operator[]` inserting an empty list is therefore not tracked for them; it is tracked for the string tables.
- `error()` emitted without a status code reaches `cardDavError` with no code, which is not 401.
- `debugDumpData` and all logging are left out.
- Strings.ToUpper, Strings.ToLower: map only the ASCII letters, and so do `EqualsIgnoreCase`, `EndsWithIgnoreCase`, the allow-list test `VCardConverter.IsSupported` and the etag-header match built on them. `QString::toUpper`, `toLower` and `Qt::CaseInsensitive` use full Unicode case mapping, so a property name such as "tıtle" (dotless i), which Qt upper-cases to "TITLE" and keeps as supported, is cached as unsupported here. The model carries no Unicode case tables.
- Strings.StrLt: orders strings by code point, while `QString`'s `operator<` compares UTF-16 code units. The two orders differ only between characters above U+FFFF and those from U+E000 to U+FFFF, so the key orders of `SortKeys`, `LeastKey`, `LastGuidForUri` and `FirstGuidForUid` agree with Qt's for all other text.
- The header declares `parseUserPrinciple` (src/replyparser_p.h:73), while src/replyparser.cpp:126 defines `parseUserPrincipal` with a `ResponseType*` out-parameter. Also, src/syncer.cpp:143-144 passes an extra `addressbookPath` argument to the constructors at src/carddav.cpp:250-279. The model follows the .cpp bodies.
- The syncer's `d->clear()` of `m_serverAdditions` and the other per-sync lists between syncs is not modelled: each sync starts from the constructor's empty state.
- SyncerFlow.ContinueSync: on the path that sends local changes it states the outcome through `LocalChangesSent`, the same predicate `UpsyncLocalChanges` ensures. It does not restate the upload state.
- CardDavEngine.CardDav.ImmediateDeltaResponse: on success it states the stored token, the index invariant and the counter balance, but not the partitioned rows and tables, which `FetchContacts` states.
- CardDavEngine.CardDav.DeltaBody: states the stored token and the counter balance, not the partition, which `FetchContacts` states.
- CardDavEngine.CardDav.ContactMetadataResponse: on success it states the counter balance and the index invariant. The rows are those `Replies.ReplyParser.ParseContactMetadata` states.
- CardDavEngine.CardDav.MetadataBody: states the counter balance only; the rows and the partition are stated by `ParseContactMetadata` and `FetchContacts`.
- CardDavEngine.CardDav.ContactsResponse: on success it states the queued completion and the counter balance. The recorded tables are those that `Replies.ReplyParser.ParseContactData` states for the parse and `RecordAndComplete` for the recording followed by the deletions.
- CardDavEngine.CardDav.ContactsBody: states the queued completion and the invariants; the parse is stated by `Replies.ReplyParser.ParseContactData` and the recording followed by the deletions by `RecordAndComplete`, whose keys it passes in ascending order. The composition of the parse with the recording is not restated here.
- CardDavEngine.CardDav.UserInformationResponse: addressbook information arriving in the principal reply is decided on through `PrincipalOutcome`. The principal body's own three-way split into home-set fetch, decision and error is stated on `UserPrincipalBody`.

## Findings

| source | as written | input that shows it | evidently intended | confidence | as-written member | corrected member |
|---|---|---|---|---|---|---|
| src/carddav.cpp:555-571 | the old sync token is held as a `const QString &` into `m_addressbookSyncTokens`; the table entry is then overwritten with the new token, so the delta request carries the new token | an addressbook with stored token "t0" reported with token "t1" | the delta report asks for the changes since "t0", as the comment at line 570 says | not executed | Downsync.DeltaAskedWithNewToken | Downsync.CorrectedDeltaUsesStoredToken |
| src/carddav.cpp:595-631 | a failed delta report falls back to `fetchContactMetadata`, which counts again, while the delta's own count is never released | one addressbook whose delta report fails and whose metadata report succeeds | the fall-back replaces the delta's count, so `remoteChanges` is emitted when all work is done | not executed | Downsync.FallBackBlocksRemoteChanges | Downsync.FallBackCorrectedSignals |
| src/replyparser.cpp:401-438 | the status of a delta row is read only from inside `propstat` | a response `<href>/ab/x.vcf</href><status>HTTP/1.1 404 Not Found</status>` with no propstat | that response is a Deletion | not executed | Replies.DeletedMemberLost | Replies.CorrectedDeltaReadsResponseStatus |
| src/carddav.cpp:912-917 | an upsync removal clears the etag, uri, id, uid and membership of the guid, but not its unsupported properties; the downsync removal at line 791 clears them too | a removed contact whose guid has cached unsupported properties | nothing is left under the removed guid | not executed | Upsync.RemovalKeepsUnsupported | Upsync.CorrectedRemovalForgetsAll |
| src/replyparser.cpp:295-364 | the resourcetype test records an explicitly non-addressbook type (line 308), but the acceptance test at line 350 accepts any 2xx resourcetype status, and the one at line 354 only compares the recorded type with unknown, so the explicit "no" never rejects | a response with one propstat, resourcetype {collection, calendar} and status "HTTP/1.1 200 OK" | only addressbook collections are accepted | not executed | Replies.CalendarAcceptedAsWritten | Replies.CorrectedAcceptsOnlyAddressbooks |
