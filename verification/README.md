# Verified models of asker's core

asker is a personal search engine: connectors pull documents from mailboxes,
calendars, buckets and chat exports into an index, a Kafka pipeline carries
them, a control plane stores connector instances and tenants' data, and a
tenant cipher keeps credentials. This project models the parts whose
correctness depends on more than one function and proves what they promise over
every input, every interleaving and every sequence of operations and failures.

`dafny verify dfyconfig.toml` checks everything.

| file | models |
|---|---|
| `GmailFold`, `GmailCursor`, `GmailSource`, `GmailProtocol`, `GmailProgress`, `GmailRestart`, `GmailSync` | the Gmail connector: folding history pages, cursors, the backfill and replay protocol against a changing mailbox, where an interrupted backfill goes on, and full syncs begun on a stale index |
| `KeyProtocol`, `KeyShred`, `KeyFile`, `TenantCipher` | lazy first-writer-wins key provisioning by any number of workers and processes, crypto-shredding, hard-link file creation |
| `KafkaConsumer`, `KafkaDelivery`, `KafkaRedelivery` | the at-least-once consumer: retry, quarantine, commit, restart, and what redelivery leaves in the index |
| `ICalText`, `ICalParse`, `ICalCase`, `ICalRoundTrip` | the iCalendar parser, its indifference to case, and a printer it undoes |
| `ICalEvent`, `ICalFeed`, `ICalFeedWitness` | documents made from events, syncing a calendar feed by difference, and feeds on which it falls short |
| `S3Sync`, `S3Convergence` | S3 backfill with checkpoints, and reconciliation |
| `WhatsAppParse`, `WhatsAppRoundTrip`, `WhatsAppSync`, `WhatsAppCollisions` | parsing WhatsApp exports and a printer the parser undoes, syncing them, document ids and when they collide |
| `Store`, `MemStore`, `ErasureTraffic`, `Erasure` | the control-plane store, and the GDPR erasure cascade amid the tenant's traffic |
| `Utf8`, `IMessage`, `OnlineModel` | UTF-8 truncation, the iMessage agent's high-water mark, the online ranker |
| `Common`, `Strings`, `Text`, `StringOrder`, `Documents` | shared definitions: options and maps, Go string functions, string order, the index a connector maintains |

Protocols are state machines: a `State`, the steps enabled in it, and theorems
over every sequence of steps, with failures, crashes and racing changes as steps
like any other. Code that updates things in place is a class or a method with
loops, proved against specification functions, and the theorems are about those.
Automatic induction is off on every lemma: each proof is the one written out.

Sources are modelled by their contracts: a Gmail listing covers every message
present throughout it, history pages hold exactly the events after the start id,
S3 lists keys in ascending order, SQLite gives new rows larger ROWIDs. SHA-256 is
free of collisions, AES-GCM is an ideal AEAD (section 2 of RFC 5116), fresh keys
and UUIDs are new. Clocks, ids and failures are
parameters: a contract says what happens for each failure, and that without one
the call succeeds.

Where comments and code disagree the model follows the code:

- The cascade's comment says that verification re-reads the key store
  (`services/control-plane/delete.go:56`, `157`); the code re-reads only Postgres, and
  `TenantResidue` does not look at sync states although its interface comment
  lists them (`services/control-plane/store.go:180-184`). The first matters: a token
  stored while the cascade runs can leave a fresh key behind a true VerifiedEmpty
  (`Erasure.LateTokenLeavesAKey`; `Erasure.VerifiedMeansErased` says exactly when the
  report is true). The second does not (`Store.ResidueIsExact`).
- Forget is said to ensure that no cached key keeps decrypting
  (`platform/crypto/cipher.go:93-97`); a call that had already unwrapped the key puts it
  back (`KeyShred.ForgetIsNotEnough`, exactly when: `KeyShred.ShredIsFinal`).
- `versionEtag` is said to change if and only if the event changed
  (`connectors/ical/event.go:112`); an edit that leaves SEQUENCE alone keeps it
  (`ICalFeedWitness.HiddenChangeIsMissed`), and two events of one uid share one
  entry of the cursor (`ICalFeedWitness.OverrideFeedIsLost`).
- runSync's comment says that the mark reported after a failed upload does not pass
  unsent messages (`connectors/imessage-agent/run.go:80-83`); it can when chats
  interleave (`IMessage.FailureMarkExact`).
- `nativeID`'s comment calls the separators unambiguous and the chat name enough to
  keep chats apart (`connectors/whatsapp-export/document.go:45-47`). A sender containing
  the separator makes two messages of one export collide
  (`WhatsAppCollisions.SeparatorInSenderCollides`, exactly when:
  `WhatsAppSync.ExportIdsCollideExactly`), a chat name containing it two messages of
  different chats (`WhatsAppCollisions.ChatNamesCollide`, exactly when:
  `WhatsAppCollisions.ChatsCollideExactly`).

## Model

| member | source | states |
|---|---|---|
| `GmailFold.StableSortSorts` | connectors/gmail/sync.go:247 | sorting by record id is ascending, loses nothing and keeps records with equal ids in list order |
| `GmailFold.StableSortUnique` | connectors/gmail/sync.go:247 | a stable ascending arrangement is unique, so pages arriving in any order sort to the same list |
| `GmailFold.FoldRefinesReplay` | connectors/gmail/sync.go:246-282 | applying the folded changes to any live set equals applying every event one by one |
| `GmailFold.LastEventDecides` | connectors/gmail/sync.go:246-282 | replaying events leaves a message live if and only if its last event adds it, and as it was without an event |
| `GmailFold.LastOnlyIsDistinct` | connectors/gmail/sync.go:257-264 | each mentioned message appears exactly once among the folded changes |
| `GmailFold.LastOnlyIsLast` | connectors/gmail/sync.go:252-266 | an event is kept exactly when it is the last event of its message, with its kind and record id |
| `GmailFold.LastOnlyInOrder` | connectors/gmail/sync.go:280-281 | the kept events are ordered by the position of that last event |
| `GmailFold.Note` | connectors/gmail/sync.go:252-266 | the entry found through the map is overwritten in place and stays the record of its message's last event |
| `GmailFold.NoteAll` | connectors/gmail/sync.go:267-278 | one inner loop notes exactly the events of the non-nil references, in order |
| `GmailFold.FoldHistory` | connectors/gmail/sync.go:246-282 | for any records the result is exactly the last events of the stably sorted list, deletions before additions within a record |
| `GmailFold.EventsAreNamed` | connectors/gmail/sync.go:253-255 | no event with an empty message id survives |
| `GmailFold.EventsExactly` | connectors/gmail/sync.go:252-279 | the events are exactly the named references of the records, deleted or added as listed, each with the id of its record |
| `GmailFold.FoldedAreReferences` | connectors/gmail/sync.go:246-282 | so every folded change carries the history id of a record that names its message with that kind |
| `GmailCursor.ParseCursorExact` | connectors/gmail/cursor.go:40-63 | parseCursor accepts exactly the two documented shapes and returns exactly what they spell |
| `GmailCursor.CursorRoundTrip` | connectors/gmail/cursor.go:28-63 | every uint64 history id and every non-empty page token, whatever its characters, survives printing and parsing, shape included |
| `GmailCursor.CursorsAreDistinct` | connectors/gmail/cursor.go:28-35 | a steady-state text is never a checkpoint text, and each text determines its contents |
| `GmailSource.UntouchedIsUnchanged` | connectors/gmail/sync.go:205-239 | a message no record concerns is as it was |
| `GmailSource.EventsTellTheTruth` | connectors/gmail/sync.go:205-239 | the events after a history id name exactly the messages touched since, and a message whose last event is a deletion is gone |
| `GmailSource.FoldTellsTheTruth` | connectors/gmail/sync.go:205-246 | whatever the order of the pages, the fold yields one change per touched message, and a deletion among them is true |
| `GmailProtocol.StepKeepsInv` | connectors/gmail/sync.go:20-239 | every step of a backfill or replay, every racing mailbox change, drift or crash keeps the sync invariant |
| `GmailProtocol.RunKeepsInv` | connectors/gmail/sync.go:20-239 | so does every sequence of steps whose full syncs start clean |
| `GmailProtocol.Convergence` | connectors/gmail/sync.go:20-239 | from an empty index, whatever changes race and wherever passes fail: once the steady-state cursor exists, the index agrees with the mailbox on each message or the log holds a record for it newer than the cursor |
| `GmailProtocol.QuietPassConverges` | connectors/gmail/sync.go:167-239 | a replay over a quiet source ends with index = mailbox and the cursor at the current history id |
| `GmailProtocol.CursorNeverMovesBack` | connectors/gmail/sync.go:78-94 | no step moves the persisted history id back, and a steady-state cursor never becomes a checkpoint again |
| `GmailProgress.ResumeContinues` | connectors/gmail/sync.go:134-139 | for every history id and token, a checkpoint of them is resumed by listing with exactly that id and token |
| `GmailProgress.BackfillContinues` | connectors/gmail/sync.go:42-94 | over every run from a full sync to the steady state, with any crashes, resumptions and mailbox changes: each listing call carries the captured id and the token of the last completed page, the persisted cursor names them, and the listing has shown exactly the completed pages and the one in hand |
| `GmailRestart.HauntedRun` | connectors/gmail/sync.go:20-94 | a message indexed but gone before a full sync starts stays indexed, whatever happens, until the mailbox touches it again |
| `GmailRestart.RunMends` | connectors/gmail/sync.go:20-239 | the same run on two indexes that differ in vanished messages only: they keep agreeing elsewhere, and a vanished message that is touched again is emitted before any cursor passes it |
| `GmailRestart.CleanStartExact` | connectors/sdk/connector.go:125-129 | a full sync begun on any index and carried to the steady state, whatever the mailbox does meanwhile, ends covered if and only if the mailbox has since touched every indexed message that was gone at the start |
| `GmailRestart.UncleanStartIsReachable` | connectors/gmail/sync.go:42-94 | such a start needs no expired cursor: a failure within the first page of the first backfill, and the mailbox deleting that message, lead to it |
| `GmailSync.Sync.EmitPage` | connectors/gmail/sync.go:57-76 | fetching and emitting a page are enabled steps of the protocol; it ends with the page done if and only if every call was answered, else with the pass over and the cursor untouched |
| `GmailSync.Sync.Backfill` | connectors/gmail/sync.go:42-94 | the listing calls made carry the given history id, the first the given token and each later one the token the call before returned; a cursor is returned only after the last page, is the steady-state one and is persisted, and none only if a call failed or the context ended |
| `GmailSync.Sync.FullSync` | connectors/gmail/sync.go:20-36 | on any index: the history id is captured before the first page, listing starts at the first page, and the steady-state cursor names that id; if the full syncs so far started clean, the index is covered since then; without a failed call the sync succeeds |
| `GmailSync.Sync.ReadHistory` | connectors/gmail/sync.go:173-203 | the paging loop of replayHistory ends with the fold of all pages ready to emit, unless a call fails, and reports expiry exactly when the source had pruned the position |
| `GmailSync.Sync.ReplayHistory` | connectors/gmail/sync.go:167-239 | every folded change is emitted before the cursor is returned; that one is at or beyond where the source stood, and a failed pass leaves the old one |
| `GmailSync.Sync.IncrementalSync` | connectors/gmail/sync.go:116-142 | for every history id and token, a checkpoint of them makes the listing calls start at that token, under that id, to the last page; a steady-state cursor makes none and replays the history; a cursor that does not parse is expired without effect; a run whose full syncs started clean stays one and is covered |
| `GmailSync.OnePageIsHonest` | connectors/gmail/sync.go:42-94 | the promises made of the source can be kept: one that answers in single pages keeps them |
| `KeyProtocol.StoreIsStable` | platform/crypto/dekstore.go:18-41 | without Delete a stored key never changes, whatever the Puts |
| `KeyProtocol.UnwrapExactly` | platform/crypto/cipher.go:136-149 | a wrapped key opens for the tenant it was wrapped for and no other |
| `KeyProtocol.PutLeaves` | platform/crypto/dekstore.go:18-41 | whatever a Put returns, the store holds the key that was there, else the new one unless the Put failed before storing |
| `KeyProtocol.RestartForgets` | platform/crypto/cipher.go:106-132 | a restarted process has no cached key and no call under way; the others and the store are untouched |
| `KeyProtocol.StepKeepsAgree` | platform/crypto/cipher.go:43-174 | every step of any worker in any process keeps every cached, held and used key equal to the stored one |
| `KeyProtocol.DekAgreement` | platform/crypto/cipher.go:43-174 | in every interleaving without Delete, whichever outcome each Put has, all ciphertexts of a tenant are under one key and every cached key is the unwrapped stored one |
| `KeyProtocol.DecryptNeverFails` | platform/crypto/cipher.go:66-91 | a Decrypt of a ciphertext some process produced is never turned away; only a fault stops it |
| `KeyProtocol.AnyProcessDecrypts` | platform/crypto/cipher.go:66-91 | any ciphertext any process produced opens in every process |
| `KeyShred.RunKeepsFresh` | platform/crypto/cipher.go:156-174 | in every run a generated key waiting for its Put is known to nobody else |
| `KeyShred.ShredIsFinal` | platform/crypto/cipher.go:93-102 | in every reachable state after Delete and Forget: in all continuations, with new Encrypts, restarts and calls already under way, no ciphertext sealed before opens unless it was open already, if and only if no call is about to cache an old key or to open such a ciphertext with the key it holds |
| `KeyShred.InFlightCallRevives` | platform/crypto/cipher.go:106-132 | a call that had already unwrapped the key puts it back into the cache and the old ciphertext opens |
| `KeyShred.ForgetIsNotEnough` | platform/crypto/cipher.go:93-132 | for any tenant and process a run from the empty store after which the key is deleted and forgotten and an old ciphertext can still be opened |
| `KeyFile.FirstWriterStays` | platform/crypto/kek.go:135-177 | once visible the key file never changes, and only a link makes it visible |
| `KeyFile.LinkIsPut` | services/connector-hub/dekstore.go:63-96 | linking is exactly a first-writer-wins Put of the writer's whole content |
| `KeyFile.OneKey` | platform/crypto/kek.go:135-177 | however creators race and die, everyone who gets a key gets the same whole one, and it stays |
| `KeyFile.NewcomerGetsTheKey` | platform/crypto/kek.go:135-177 | whatever happened before, a newcomer that is left alone gets the one key by its own steps, and makes its own visible if there is none |
| `KeyFile.AloneFinishes` | platform/crypto/kek.go:135-177 | so does everyone under way who has not failed, from any stage, losers of the race included |
| `TenantCipher.MemDEKStore.constructor` | platform/crypto/dekstore.go:51-53 | a new store is empty |
| `TenantCipher.MemDEKStore.GetWrappedDEK` | platform/crypto/dekstore.go:56-71 | the stored key, not-found, or an error for the empty tenant |
| `TenantCipher.MemDEKStore.PutWrappedDEK` | platform/crypto/dekstore.go:76-95 | first writer wins for this tenant only; empty tenants and keys are refused without effect |
| `TenantCipher.MemDEKStore.Delete` | platform/crypto/dekstore.go:99-110 | idempotent, and touches no other tenant |
| `TenantCipher.Cipher.ProvisionDEK` | platform/crypto/cipher.go:156-174 | after any outcome of its Put the call holds what the store holds, and it fails only by a fault |
| `TenantCipher.Cipher.LoadDEK` | platform/crypto/cipher.go:136-149 | the stored key, or a provisioned one only when the call may create; without a fault and with a key stored or creation allowed it succeeds |
| `TenantCipher.Cipher.AeadFor` | platform/crypto/cipher.go:106-132 | the key returned is the one in the cache, which is the stored one; without a fault there is one |
| `TenantCipher.Cipher.Encrypt` | platform/crypto/cipher.go:43-60 | amid any interference the ciphertext is of this plaintext, for this tenant, under the tenant's one stored key; without a fault it succeeds |
| `TenantCipher.Cipher.Decrypt` | platform/crypto/cipher.go:66-91 | whatever is returned is the plaintext under the stored key; of a ciphertext some process produced it always is, unless a fault strikes |
| `KafkaConsumer.Quarantine` | platform/kafkautil/consumer.go:186-220 | the dead letter keeps key, value and headers and adds the error with its cause and the origin topic; a failed produce is not committed; a record of docs.deadletter is not quarantined again |
| `KafkaConsumer.TenantIsFirst` | platform/kafkautil/consumer.go:240-247 | the tenant is t if and only if the first header named tenant_id says t and t is valid; no other header matters |
| `KafkaConsumer.ProducedIsAddressed` | platform/kafkautil/producer.go:60-72 | what the producer writes for a document of a valid tenant is read as addressed to that tenant, and so is its dead letter |
| `KafkaConsumer.ProcessRecord` | platform/kafkautil/consumer.go:142-180 | the handler sees the document if and only if the first tenant_id header names its tenant, a valid one, then under that tenant and at most three times; exactly which outcome, how many calls and whether a commit follow from what the handler, the produce and the commit do |
| `KafkaDelivery.StepKeepsInv` | platform/kafkautil/consumer.go:107-230 | every delivery, produce, commit, rebalance or restart keeps all committed offsets settled and every dead letter in its log |
| `KafkaDelivery.CommitSafety` | platform/kafkautil/consumer.go:107-230 | over every run a committed offset means each earlier record was handled, quarantined, or was itself a dead letter; every delivery obeyed processRecord, and every quarantined record's intact copy is found in the log it was produced to |
| `KafkaDelivery.FollowsInOrder` | platform/kafkautil/consumer.go:126-135 | deliveries made one after the other are recorded in fetch order, each at the offset after the earlier ones of its partition, and move no other member |
| `KafkaDelivery.FollowsAdvances` | platform/kafkautil/consumer.go:126-135 | once they are all settled the member is positioned behind exactly those records |
| `KafkaDelivery.RestartsAtCommitted` | platform/kafkautil/consumer.go:222-230 | a member that restarts holds only what it is assigned, from the committed offset on |
| `KafkaDelivery.Broker.ProcessNext` | platform/kafkautil/consumer.go:128-135 | one delivery of the member's next record of a partition, going as the environment's script says |
| `KafkaDelivery.Broker.Run` | platform/kafkautil/consumer.go:107-137 | the fetched records are delivered in order, each as its script says, all of them or up to and including the first that is not settled |
| `KafkaRedelivery.SameRuns` | platform/kafkautil/consumer.go:107-230 | the runs with an index are exactly the consumers' runs, with any choice of which failing handler calls still wrote |
| `KafkaRedelivery.MoveConverges` | platform/kafkautil/consumer.go:107-230 | every step of any member keeps the index equal, up to writes still to be redone, to an ordered replay up to the committed offset and up to the holder's position |
| `KafkaRedelivery.RedeliveryConverges` | platform/kafkautil/consumer.go:107-230 | over every run of any members with crashes, rebalances, failed attempts and failed commits: once the one holder of a partition reaches its end, with no acceptable record of it settled unhandled, the index has for every key of that partition what one ordered replay gives |
| `KafkaRedelivery.QuarantineLosesTheWrite` | platform/kafkautil/consumer.go:186-220 | the condition on records is needed: any document whose record is quarantined after three failures is committed and missing from the index |
| `KafkaRedelivery.TwoHoldersDiverge` | platform/kafkautil/consumer.go:107-137 | so is the one holder: with two, an older version overwrites a newer one after the end was reached |
| `ICalText.Unfold` | connectors/ical/parse.go:147-165 | the loop computes the unfolded lines |
| `ICalText.UnfoldUndoesFolding` | connectors/ical/parse.go:147-165 | lines folded at any points with CRLF and a blank unfold to the original lines (section 3.1 of RFC 5545) |
| `ICalText.UnescapeText` | connectors/ical/parse.go:240-263 | the loop computes the unescaped text |
| `ICalText.UnescapeUndoesEscape` | connectors/ical/parse.go:240-263 | escaping by section 3.3.11 of RFC 5545 and unescaping is the identity on every text |
| `ICalText.UnescapeExactly` | connectors/ical/parse.go:240-263 | plain runs stand for themselves, an escaped n or N for a newline, any other escaped character for itself, a lone backslash at the end for itself |
| `ICalText.UnquotedIndex` | connectors/ical/parse.go:267-279 | the first occurrence outside double quotes, or -1 when there is none |
| `ICalText.UnquotedAfterPlain` | connectors/ical/parse.go:267-279 | a head with balanced quotes and no unquoted separator ends at the separator, whatever follows |
| `ICalText.SplitUnquotedLoop` | connectors/ical/parse.go:284-303 | the loop cuts exactly at the unquoted separators |
| `ICalParse.SplitLine` | connectors/ical/parse.go:171-187 | name, parameter segment and value of a content line |
| `ICalParse.SplitExactly` | connectors/ical/parse.go:171-187 | any line is cut at its first unquoted colon, if it has one, and its head at the first semicolon, if any |
| `ICalParse.ParseParams` | connectors/ical/parse.go:205-226 | the loop collects the parameters, unquoted, by upper-cased name |
| `ICalParse.ParseProperty` | connectors/ical/parse.go:192-201 | the property a content line denotes |
| `ICalParse.ParseEvents` | connectors/ical/parse.go:94-141 | the stack loop returns the events of the specification machine, whose laws are the rows below |
| `ICalParse.JoinedSplits` | connectors/ical/parse.go:94-141 | the raw text of an event is its lines with one newline between any two |
| `ICalCase.NamesAreCapital` | connectors/ical/parse.go:94-226 | whatever the body, every property and parameter name of every event parsed is in capitals |
| `ICalRoundTrip.HeadIsCut` | connectors/ical/parse.go:171-187 | the head of a printed line ends at the value's colon, whatever the parameters and the value contain |
| `ICalRoundTrip.PropRoundTrip` | connectors/ical/parse.go:192-234 | a printed property reads back with its name, parameters and original text |
| `ICalRoundTrip.NodeIsSkipped` | connectors/ical/parse.go:94-141 | a component nested in a VEVENT leaves no trace, however deep |
| `ICalRoundTrip.DirectItemsAreCollected` | connectors/ical/parse.go:94-141 | inside a VEVENT exactly its direct property lines are collected, in order |
| `ICalRoundTrip.NodeIsParsed` | connectors/ical/parse.go:94-141 | outside any VEVENT a component contributes exactly its VEVENTs |
| `ICalRoundTrip.RoundTrip` | connectors/ical/parse.go:94-303 | every well-nested calendar without a VEVENT inside a VEVENT, with keywords and names in any case, parameters quoted or not, bare or empty, printed and folded at any points, parses to exactly its VEVENTs in document order |
| `ICalRoundTrip.CaseDoesNotMatter` | connectors/ical/parse.go:94-226 | two calendars that differ only in the case of BEGIN and END, of component, property and parameter names, printed and folded in any way, parse to the same events |
| `ICalFeed.BuildCursorState` | connectors/ical/cursor.go:48-64 | the loop computes body hash, latest stamp and the etag of every uid |
| `ICalEvent.VersionShows` | connectors/ical/event.go:46-124 | documents of live events with different versions differ, since the version_etag is one of their fields |
| `ICalEvent.IdentityIs` | connectors/ical/event.go:46-124 | uid, cancellation and version of an event are those of its first UID, STATUS (in any case), and SEQUENCE, else LAST-MODIFIED, else the raw text |
| `ICalEvent.DtstampIs` | connectors/ical/event.go:262-270 | the stamp is the first DTSTAMP, else LAST-MODIFIED, else CREATED |
| `ICalEvent.TextIs` | connectors/ical/event.go:46-240 | title, body and times are those of the first SUMMARY, DESCRIPTION, LOCATION, CREATED and LAST-MODIFIED, with the stated defaults |
| `ICalEvent.MetadataIs` | connectors/ical/event.go:197-221 | a metadata key has a value if and only if the property it is named for says so, or the event lasts whole days |
| `ICalEvent.OneMoreParticipant` | connectors/ical/event.go:142-175 | every ATTENDEE adds its participant at the end with its role, the first ORGANIZER one in front, and no other property any |
| `ICalEvent.ActorIs` | connectors/ical/event.go:163-175 | a participant has the trimmed CN and the address, and there is none without either |
| `ICalEvent.MailtoIs` | connectors/ical/event.go:178-194 | the address is what follows mailto: in any case, trimmed, and empty without it |
| `ICalFeed.FullSync` | connectors/ical/sync.go:19-54 | the rendered document, or tombstone, of each event with a uid, in feed order, up to the first failing call; success, and the cursor of the feed, if and only if none fails |
| `ICalFeed.SortedUids` | connectors/ical/cursor.go:105-112 | exactly the keys, sorted |
| `ICalFeed.Changed` | connectors/ical/sync.go:93-123 | the first loop emits exactly the new, changed and cancelled events and records every uid seen, up to the first failing call, and succeeds if and only if none fails |
| `ICalFeed.Vanished` | connectors/ical/sync.go:126-136 | the second loop emits tombstones for exactly the cursor's uids not seen, in order, up to the first failing one |
| `ICalFeed.IncrementalSync` | connectors/ical/sync.go:68-141 | nothing for an identical body, else the difference and the new cursor; the emissions end at the first failing call and the pass succeeds if and only if there is none |
| `ICalFeed.PassIsPrefix` | connectors/ical/sync.go:93-136 | wherever a pass fails it has emitted the beginning of the difference |
| `ICalFeed.StartIsImage` | connectors/ical/sync.go:19-54 | a full sync into an empty index leaves the document of the last event of every uid, nothing where that one is cancelled |
| `ICalFeed.DiffExact` | connectors/ical/sync.go:83-141 | for any feed, uids repeated or not, and whatever the index was: applying the difference makes it the image of the feed if and only if it agreed wherever the difference says nothing and no emitted event is followed by a different, silent one of its uid |
| `ICalFeed.DiffConvergesExactly` | connectors/ical/sync.go:83-141 | from the image of one feed, the difference leads to the image of the next if and only if no uid whose last event is live and keeps its version_etag has a changed document or an event of another version |
| `ICalFeed.FeedConverges` | connectors/ical/sync.go:19-141 | over any sequence of feeds the index is the image of the latest one at all times if and only if each changed feed meets that condition |
| `ICalFeed.OverrideIsLost` | connectors/ical/cursor.go:53-59 | two live events of one uid and different versions: after a full sync the second is indexed, a sync of another text with the same two emits just the first again |
| `ICalFeed.FailedPassHarmless` | connectors/ical/sync.go:95-136 | a pass that failed after any part of its emissions does no harm to a later pass that speaks of every uid it spoke of |
| `ICalFeed.WithdrawnChangeSticks` | connectors/ical/sync.go:83-87 | otherwise it does: for any two events of a uid, a change emitted by a failed pass and withdrawn before the next stays in the index |
| `ICalFeedWitness.FeedIsRead` | connectors/ical/parse.go:94-141 | parsing the printed one-event feed returns that event, for any SEQUENCE and SUMMARY |
| `ICalFeedWitness.HiddenChangeIsMissed` | connectors/ical/event.go:112-124 | for any two summaries with different titles, two feed texts with equal SEQUENCE: syncing the second after the first leaves the old document indexed |
| `ICalFeedWitness.OverrideFeedIsLost` | connectors/ical/sync.go:93-123 | two feed texts with an event and its override, differing in PRODID only: the second sync puts the overridden event back |
| `ICalFeedWitness.WithdrawnFeedSticks` | connectors/ical/sync.go:68-141 | three feed texts, the second one's pass failing after its emission and the third equal to the first: every later sync of it emits nothing and the withdrawn event stays |
| `S3Sync.Instance.Backfill` | connectors/s3/sync.go:45-90 | from any seed: the emitted objects are the listing up to the first failing call, the persisted checkpoint carries all progress up to it and lags by at most 200 objects, its maximum is the latest modification among the seed and the objects behind it; it succeeds, and persists the completed cursor, if and only if no call fails |
| `S3Sync.Instance.Reconcile` | connectors/s3/sync.go:132-185 | it succeeds if and only if no call fails, and then emits exactly the newer objects and a tombstone per vanished key and records the listing and the latest modification seen; failure leaves the cursor alone and emits only true changes |
| `S3Sync.Instance.Sync` | connectors/s3/sync.go:17-126 | no cursor starts a backfill, a checkpoint resumes it, a completed cursor reconciles; it succeeds if and only if no call of that pass fails |
| `S3Sync.MaxIsLatest` | connectors/s3/sync.go:66-70 | the running maximum is one of the values and none is later |
| `S3Convergence.ListResumes` | connectors/s3/client.go:36-45 | a listing resumed after the n-th key lists exactly the rest |
| `S3Convergence.RenderedResumes` | connectors/s3/cursor.go:50-71 | progress carried by a checkpoint is as good as having listed everything in one go: sorted keyset and maximum included |
| `S3Convergence.InterruptedBackfillConverges` | connectors/s3/sync.go:45-126 | over a fixed bucket, interrupted and resumed any number of times: once a pass succeeds, the cursor holds the bucket's keys and its latest modification, as after an uninterrupted backfill, the index is the bucket, and both stay so |
| `S3Convergence.SteadyPollIsSilent` | connectors/s3/sync.go:152-155 | polling an unchanged bucket emits nothing and leaves the cursor as it is |
| `S3Convergence.ReconcileExact` | connectors/s3/sync.go:132-185 | whatever the index and cursor were, a completed pass leaves index = bucket if and only if it agreed on every key the pass does not speak of |
| `S3Convergence.ReconcileConvergesExactly` | connectors/s3/sync.go:132-185 | from index = bucket, the next completed pass lands on the new bucket if and only if every object not strictly newer than the recorded maximum is unchanged |
| `S3Convergence.ReconcileCursor` | connectors/s3/cursor.go:53-60 | a completed pass records exactly the listed keys, in order, and the latest modification seen so far |
| `S3Convergence.ReconcilesConverge` | connectors/s3/sync.go:132-185 | over any sequence of buckets, every completed pass leaves index = bucket if and only if every object new or changed since the bucket before is later than everything seen before it |
| `S3Convergence.FailedPassHarmless` | connectors/s3/sync.go:143-180 | a failed pass does no harm to a later pass that speaks of every key it spoke of |
| `S3Convergence.GlimpsedObjectStays` | connectors/s3/sync.go:169-180 | otherwise it does: an object only a failed pass ever saw stays in the index, since it is in no recorded keyset |
| `StringOrder.SortSorts` | connectors/s3/cursor.go:54 | sort.Strings returns a sorted permutation |
| `StringOrder.SortedUnique` | connectors/s3/cursor.go:54 | there is only one sorted permutation |
| `WhatsAppParse.ParseLine` | connectors/whatsapp-export/parser.go:103-131 | a header line starts a message, another line continues the last one or is dropped before any, as the specification function says |
| `WhatsAppParse.ParseExport` | connectors/whatsapp-export/parser.go:92-134 | the line loop and the numbering compute the parsed messages, whose laws are the rows below |
| `WhatsAppRoundTrip.RoundTrip` | connectors/whatsapp-export/parser.go:92-149 | every export that can be printed reads back exactly: any list of messages and notices, in either header form, with texts of any number of lines, any invisible marks, any preamble, and either line end, parses to its messages, numbered |
| `WhatsAppRoundTrip.HeaderExactly` | connectors/whatsapp-export/parser.go:171-260 | a line is no header if and only if it has none of the two shapes with a stamp some layout accepts |
| `Text.TrimExactly` | connectors/whatsapp-export/parser.go:248-260 | trimming takes the blanks at both ends and nothing else, whatever is in between |
| `WhatsAppParse.AssignOccurrences` | connectors/whatsapp-export/parser.go:142-149 | each message is numbered by the number of exact duplicates before it |
| `WhatsAppParse.LinesConcat` | connectors/whatsapp-export/parser.go:93-99 | the lines of a grown export are the old lines and then the new ones, whichever line ends are used |
| `WhatsAppParse.EarlierAreFinal` | connectors/whatsapp-export/parser.go:103-131 | later lines only ever change the last message |
| `WhatsAppParse.AppendKeepsMessages` | connectors/whatsapp-export/parser.go:92-149 | an export that ends a line and grows by text starting with a header keeps every parsed message, occurrence numbers included, and gains at least one |
| `WhatsAppSync.MakeCursor` | connectors/whatsapp-export/cursor.go:38-49 | the loop pins the first n messages, or all when there are fewer |
| `WhatsAppSync.EmitRange` | connectors/whatsapp-export/whatsapp.go:286-297 | exactly the documents from a position on, up to the first failing emission |
| `WhatsAppSync.FullSync` | connectors/whatsapp-export/whatsapp.go:208-231 | all documents in order and the cursor pinning them, up to the first failing call; success if and only if none fails |
| `WhatsAppSync.IncrementalSync` | connectors/whatsapp-export/whatsapp.go:242-283 | expired exactly when the cursor no longer describes the beginning; else only the tail is emitted, up to the first failing emission, and the cursor advances |
| `WhatsAppSync.EtagTells` | connectors/whatsapp-export/document.go:68-76 | an etag determines sender, timestamp and text, the text arbitrary |
| `WhatsAppSync.ExpiredExactly` | connectors/whatsapp-export/whatsapp.go:258-269 | a cursor is expired exactly when a pinned message was changed, removed or moved |
| `WhatsAppSync.ResumedEqualsFull` | connectors/whatsapp-export/whatsapp.go:208-297 | whenever a pass does not report expiry, importing the old list and then the difference yields the ids and the cursor of one full import |
| `WhatsAppSync.AppendEqualsFull` | connectors/whatsapp-export/whatsapp.go:208-297 | for an export that was only appended to, the two passes emit the very documents of one full import |
| `WhatsAppSync.ReimportIsExact` | connectors/whatsapp-export/whatsapp.go:242-283 | any later export against the cursor of an earlier one: expired if and only if the earlier messages are no longer its beginning, else equal to one full import |
| `WhatsAppSync.IdsCollideExactly` | connectors/whatsapp-export/document.go:45-62 | two messages of one numbered list share an id if and only if one is the other with a piece that ends at a bar moved from the front of its text to the end of its sender |
| `WhatsAppSync.IdsAreUnique` | connectors/whatsapp-export/document.go:48-62 | all messages of one numbered list whose senders lack the bar have distinct ids, exact duplicates included |
| `WhatsAppSync.ExportIdsCollideExactly` | connectors/whatsapp-export/document.go:45-62 | the same condition for the messages parsed from any export |
| `WhatsAppSync.ExportIdsAreUnique` | connectors/whatsapp-export/document.go:48-62 | all messages of any export none of whose senders contains a vertical bar have distinct ids |
| `WhatsAppSync.IdsAreStable` | connectors/whatsapp-export/document.go:27-43 | inserting or deleting a message anywhere leaves the id of every message with another identity alone |
| `WhatsAppCollisions.SeparatorInSenderCollides` | connectors/whatsapp-export/document.go:45-57 | an export text of two header lines, by senders "a<bar>b" and "a" for any a and b, parses to two different messages that share an id |
| `WhatsAppCollisions.CollidingExport` | connectors/whatsapp-export/document.go:45-57 | the collision for senders "a<bar>b" and "a", under any stamp a layout accepts |
| `WhatsAppCollisions.ChatsCollideExactly` | connectors/whatsapp-export/document.go:45-57 | messages of two different chats share an id if and only if one name is the other's, a bar and more, and the rest of the fields shifts to match |
| `WhatsAppCollisions.ChatsAreApart` | connectors/whatsapp-export/document.go:45-57 | chats whose names lack the bar never share an id |
| `WhatsAppCollisions.ChatNamesCollide` | connectors/whatsapp-export/document.go:45-57 | two export texts of chats "c" and "c<bar>stamp" whose messages share an id |
| `WhatsAppCollisions.CollidingChats` | connectors/whatsapp-export/document.go:45-57 | the collision for any two stamps of which the second has no colon followed by a blank |
| `Store.OpIsSafe` | services/control-plane/store_mem.go:48-461 | every operation keeps every sync row and token attached to an instance of the same tenant and every row registered, and changes nothing another tenant can read |
| `Store.TenantReads` | services/control-plane/store_mem.go:48-60 | a tenant is registered once, with the time of its first write |
| `Store.TokenReads` | services/control-plane/store_mem.go:128-217 | a token stored for an owned instance is the one read back, and none after it or its instance is deleted; no other token changes |
| `Store.SyncReads` | services/control-plane/store_mem.go:128-177 | a sync state stored for an owned instance is the one read back, under the caller's tenant; before any it is PENDING |
| `Store.StatusReads` | services/control-plane/store_mem.go:373-389 | afterwards every instance of the tenant has the status, and only those that did not are stamped |
| `Store.CreateReads` | services/control-plane/store_mem.go:62-92 | below the quota the instance is read back with its id and times and the tenant is registered; at the quota nothing changes |
| `Store.DeleteReads` | services/control-plane/store_mem.go:128-142 | a deleted instance is not found and no other changes |
| `Store.PreferencesRead` | services/control-plane/store_mem.go:402-418 | preferences are read back, one version on and at least one |
| `Store.LearningReads` | services/control-plane/store_mem.go:420-461 | feedback is appended, weights are replaced, and a reset forgets both |
| `Store.ReachableIsSound` | services/control-plane/store_mem.go:48-461 | hence every state reachable from the empty store |
| `Store.OthersAreInvisible` | services/control-plane/store_mem.go:48-461 | any number of operations by others leaves everything a tenant can read as it was |
| `Store.QuotaHolds` | services/control-plane/store_mem.go:62-92 | over any sequence of operations a fixed positive quota is never exceeded |
| `Store.ResidueIsExact` | services/control-plane/store_mem.go:283-312 | TenantResidue's answer is true exactly when no row is left in any table, the sync states it never inspects included |
| `Store.PurgeLeavesNothing` | services/control-plane/store_mem.go:256-281 | PurgeTenant leaves no row of the tenant in any of the seven tables |
| `Store.PurgeIsIdempotent` | services/control-plane/store_mem.go:256-281 | purging an absent tenant changes nothing |
| `MemStore.MemStore.EnsureTenant` | services/control-plane/store_mem.go:48-60 | registers once; the first creation time survives |
| `MemStore.MemStore.CreateConnectorInstance` | services/control-plane/store_mem.go:62-92 | refused exactly at the quota and without effect, else stored and readable by its tenant |
| `MemStore.MemStore.DeleteConnectorInstance` | services/control-plane/store_mem.go:128-142 | the instance with its sync state and token, or not-found for another tenant's |
| `MemStore.MemStore.GetSyncState` | services/control-plane/store_mem.go:144-162 | the stored row, a synthesized PENDING one, or not-found |
| `MemStore.MemStore.SetSyncState` | services/control-plane/store_mem.go:164-177 | stores the row under the calling tenant, only on its own instance |
| `MemStore.MemStore.PutToken` | services/control-plane/store_mem.go:179-190 | stores the token only on the tenant's own instance |
| `MemStore.MemStore.DeleteToken` | services/control-plane/store_mem.go:205-217 | deletes the tenant's own token, else not-found |
| `MemStore.MemStore.CountConnectorInstances` | services/control-plane/store_mem.go:241-254 | the loop counts exactly the tenant's instances |
| `MemStore.MemStore.PurgeInstances` | services/control-plane/store_mem.go:262-274 | the loop that deletes from the maps it walks removes exactly the tenant's instances, their sync states and tokens, and counts them |
| `MemStore.MemStore.PurgeTenant` | services/control-plane/store_mem.go:256-281 | the whole purge and its counts |
| `MemStore.MemStore.TenantResidue` | services/control-plane/store_mem.go:283-312 | the two loops decide the residue predicate |
| `MemStore.MemStore.SetTenantConnectorStatus` | services/control-plane/store_mem.go:373-389 | every instance of the tenant and no other gets the status; those that differed are counted |
| `MemStore.MemStore.PutPreferences` | services/control-plane/store_mem.go:402-418 | registers the tenant and raises the version by one, from at least one |
| `MemStore.MemStore.AppendFeedback` | services/control-plane/store_mem.go:420-431 | registers the tenant and appends |
| `MemStore.MemStore.UpdateLearnedWeights` | services/control-plane/store_mem.go:433-449 | the update of the current weights is stored, or only the registration stays when it fails |
| `MemStore.MemStore.ResetLearning` | services/control-plane/store_mem.go:451-461 | weights and feedback are gone; the feedback is counted |
| `Erasure.ControlPlane.PurgeAuthoritative` | services/control-plane/delete.go:87-117 | suspend, shred and purge with any call failing half way and traffic after each step, as the specification says; a PutToken with the key cached provisions none |
| `Erasure.ControlPlane.PurgeStores` | services/control-plane/delete.go:119-155 | Vespa and blobs must be clean to go on, the blobs found are counted, the cache is best effort and its failure is remembered, under the same traffic |
| `Erasure.ControlPlane.CascadeDelete` | services/control-plane/delete.go:72-187 | the whole cascade, its effect on every store and its report, is the specification the lemmas below are about |
| `Erasure.ReportExactly` | services/control-plane/delete.go:72-187 | there is a report if and only if every call that had to succeed did and Postgres was empty at the verification |
| `Erasure.PausedBeforePurge` | services/control-plane/delete.go:87-96 | past the suspension, every connector is PAUSED when the key is shredded and when the rows are purged, unless traffic creates one or sets a status |
| `Erasure.ReportFigures` | services/control-plane/delete.go:97-176 | each flag of a report is set if and only if its store is configured and its purge succeeded; instances and tokens are those the purge of Postgres found |
| `Erasure.UndisturbedFigures` | services/control-plane/delete.go:107-138 | without stragglers the report counts the tenant's instances, tokens and blobs |
| `Erasure.ReportTraces` | services/control-plane/delete.go:72-187 | after a report, what each store holds of the tenant is exactly what traffic after the store's own step put there and did not remove again; a key is stored exactly when a PutToken found none cached, or a provisioning under way finished, since the Delete |
| `Erasure.VerifiedMeansErased` | services/control-plane/delete.go:157-175 | with VerifiedEmpty, nothing of the tenant is left in Postgres, any configured store or the cipher's cache if and only if traffic left nothing there after the store's step |
| `Erasure.LateTokenLeavesAKey` | services/control-plane/server.go:265-289 | the condition is needed: a PutToken that encrypts after the shred, for an instance already purged, leaves a new key in the key store behind a true VerifiedEmpty |
| `Erasure.CachedTokenIsHarmless` | services/control-plane/server.go:265-289 | not every straggler does harm: a PutToken between Delete and Forget that finds the key cached leaves nothing, and the report is true |
| `Erasure.LateConnectorIsNoticed` | services/control-plane/delete.go:157-168 | a connector created after the purge is noticed by the verification: the cascade then reports nothing |
| `Erasure.UnverifiedMeansCache` | services/control-plane/delete.go:140-175 | a report without it means that exactly the cache purge failed, and the other stores are clean if and only if traffic left nothing there after their steps |
| `Erasure.CascadeInOrder` | services/control-plane/delete.go:87-155 | without stragglers no instance goes before the key and no other store before Postgres, wherever the cascade fails, and the report counts the tenant's instances |
| `Erasure.CascadeSpares` | services/control-plane/delete.go:72-187 | whatever fails and whatever the tenant's traffic writes, no other tenant loses or gains anything in any store |
| `Erasure.FaultlessErases` | services/control-plane/delete.go:72-187 | without faults and stragglers the tenant is erased everywhere and the report says so |
| `Erasure.OthersAreSpared` | services/control-plane/delete.go:72-187 | over any sequence of attempts, with traffic of the tenant in between, no other tenant loses or gains anything |
| `Erasure.RetriedErasureConverges` | services/control-plane/delete.go:58-61 | any number of attempts failing and raced in any way, with traffic in between, then one without fault and straggler, erase the tenant everywhere and spare the others |
| `Utf8.TruncateUtf8` | connectors/upload/upload.go:231-244 | for any bytes: a prefix of at most max bytes, the whole input when it fits, at most three bytes shorter than the cut |
| `Utf8.DecodeIsExact` | connectors/upload/upload.go:237 | the decoder accepts exactly the well-formed encodings of section 4 of RFC 3629 |
| `Utf8.PartIsNoticed` | connectors/upload/upload.go:236-242 | a cut inside a rune is noticed, wherever it is and whatever rune precedes it |
| `Utf8.TruncatesToWholeRunes` | connectors/upload/upload.go:228-244 | for every valid UTF-8 text and every limit: exactly the longest prefix of whole runes that fits |
| `IMessage.GroupByChat` | connectors/imessage-agent/rows.go:109-122 | the loop with its index map computes the groups |
| `IMessage.GroupsPartition` | connectors/imessage-agent/rows.go:106-122 | one group per chat, holding exactly the chat's rows in order |
| `IMessage.FirstSeenOrder` | connectors/imessage-agent/rows.go:106-122 | groups come in the order their chats were first seen |
| `IMessage.MaxRowId` | connectors/imessage-agent/rows.go:132-140 | the largest ROWID, or 0 |
| `IMessage.Agent.RunSync` | connectors/imessage-agent/run.go:39-98 | the chats before the failing one were uploaded and no others, and the mark is the largest ROWID among them; it succeeds if and only if neither the read nor an upload fails |
| `IMessage.Agent.Upload` | connectors/imessage-agent/run.go:66-92 | the groups are uploaded in order up to the first failing one, and the mark is the largest ROWID of those |
| `IMessage.Agent.RealMain` | connectors/imessage-agent/main.go:80-129 | only rows read are uploaded; the mark is persisted only after a clean pass, and then is exactly the largest ROWID read, all of them uploaded; the run succeeds if and only if no step fails |
| `IMessage.StepKeepsInv` | connectors/imessage-agent/main.go:80-129 | the database changing keeps everything at or below the mark uploaded; a run, with or without --since, keeps it if and only if it moves no mark or starts above rows already sent |
| `IMessage.SkipsExactly` | connectors/imessage-agent/main.go:80-129 | over any sequence of runs with any --since flags, every message at or below the persisted mark has been uploaded at all times if and only if every run that moved the mark started above messages already sent |
| `IMessage.NothingIsSkipped` | connectors/imessage-agent/main.go:80-129 | hence always when no run uses --since |
| `IMessage.SinceSkips` | connectors/imessage-agent/main.go:80-129 | with it a message can be skipped: two rows and a run from the first one's ROWID |
| `IMessage.FailureMarkExact` | connectors/imessage-agent/run.go:78-86 | the mark of a failed runSync stays below every unsent row, whichever chat fails, if and only if no chat is interrupted by another |
| `IMessage.InterleavedChats` | connectors/imessage-agent/run.go:78-86 | two chats taking turns are enough to break it |
| `OnlineModel.LearnedModel.Predict` | platform/personalization/model.go:43-49 | the loop computes the sigmoid of bias plus coefficients |
| `OnlineModel.LearnedModel.Update` | platform/personalization/model.go:56-75 | one clamped step of bias and features, in order, and one more sample |
| `OnlineModel.UpdateExactly` | platform/personalization/model.go:56-75 | the error times the learning rate, 0.3 unless a positive one is given, is added to the bias once and to a feature's coefficient once per occurrence, each clamped to between -6 and 6; no other coefficient moves |
| `OnlineModel.TimesIs` | platform/personalization/model.go:67-72 | a feature listed n times moves by n steps |
| `OnlineModel.SumAdds` | platform/personalization/model.go:43-49 | the score adds up over the features |
| `OnlineModel.SumOne` | platform/personalization/model.go:43-49 | one feature scores its coefficient, zero when never seen |
| `OnlineModel.MovedExactly` | platform/personalization/model.go:67-72 | clamping at every occurrence of a feature is clamping once after all of them |
| `OnlineModel.TrainedIsBounded` | platform/personalization/model.go:56-75 | over any updates all coefficients and the bias stay between -6 and 6, and samples counts them |
| `OnlineModel.FromZero` | platform/personalization/model.go:56-75 | so it is from the zero model |
| `OnlineModel.UpdateIsMonotone` | platform/personalization/model.go:63-72 | an update towards a label above the prediction lowers no prediction for any features, one towards a label below raises none |
| `OnlineModel.FeedbackHelps` | platform/personalization/model.go:56-75 | label 1 never lowers and label 0 never raises the prediction for the same features, duplicates and empty keys included |
| `OnlineModel.PositiveFeedbackRises` | platform/personalization/model.go:200-209 | label 1 strictly raises it if and only if not all of the bias and the features sit at the upper clamp |
| `OnlineModel.NegativeFeedbackLowers` | platform/personalization/model.go:200-209 | label 0 strictly lowers it if and only if not all of them sit at the lower clamp |

## Left out

- HTTP and API clients, OAuth, JSON, base64 and protobuf coding, logging, telemetry and configuration.
- The other connectors (drive, calendar, Outlook, Teams, Jira, Slack), the gateway, the query service and the indexing stages.
- `store_pg.go`, and the Vespa, MinIO and Redis calls of the cascade: the model has the in-memory store and abstract stores whose purges may break off half way. A purge or status change of Postgres takes effect whole or not at all.
- Writes after the cascade's verification, such as Kafka records of the tenant still in flight: the cascade lemmas are about the stores as the verification finds them.
- What the hub does about an expired Gmail cursor, registerWatch and webhooks. `GmailProtocol.Convergence` is about runs whose full syncs start clean, that is, with every indexed message still in the mailbox; an ordinary failure in the first page of a backfill is enough to miss that (`GmailRestart.UncleanStartIsReachable`), and `GmailRestart.CleanStartExact` says exactly when such a sync converges.
- Gmail page tokens are opaque names of a listing in progress; calls that fail do so for any reason.
- GmailSync.Sync: its methods are ghost, since their state is the protocol state; loops are bounded by a count of pages instead of a context; the calls' outcomes, the source's answers and the changes that race them are a function of the call's number.
- TenantCipher.Cipher: its methods are ghost for the same reason; AES-GCM framing, nonces and the wrapping format are not modelled.
- KafkaConsumer.ProcessRecord: what the environment does during one delivery is a script; back-off durations are not modelled.
- KafkaDelivery.Broker.Run: runs over a given list of fetches instead of polling forever, and does not tell an error from a shutdown; fetch errors are only logged by the source and have no effect here.
- Case folding and blanks in the calendar parser are ASCII; characters stand for themselves, not for bytes.
- ICalEvent: how a date-time parses is a parameter, as time.Parse is not modelled; lower-casing of roles is ASCII; the fields of a document that do not depend on the event, and the fields of a tombstone, are left out.
- S3 bodies: the index holds the listing's view of an object; a body fetch that fails degrades the document only.
- KafkaRedelivery.RedeliveryConverges: the group coordinator is represented by its promise of one holder per partition, keyed partitioning by no other partition holding a record of the keys in question; the index keeps the last write per tenant and document.
- WhatsApp trimming takes blanks to be the ASCII ones, where Go's TrimSpace knows Unicode's.
- WhatsApp timestamps: whether a stamp parses is a parameter, as time.Parse and its layouts are not modelled; invalid UTF-8 and the textual form of cursors are left out.
- MemStore.MemStore.PutPreferences: versions are unbounded, without the 64-bit wrap-around.
- Listings of the store (ListConnectorInstances, ListAll, ListTenants) and usage sums are not modelled.
- OnlineModel: arithmetic is over the reals; floating-point rounding, NaN and infinities are not modelled. Feature keys and labels for actions are plain string work.
- The iMessage agent's rendering, state file format and SQLite reader.
