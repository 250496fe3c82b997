# PaperBuddy: chats, times and the library catalogue

PaperBuddy keeps its chats in one DynamoDB table and answers several requests at once. This project models the
chat service, the texts its keys and index are made of, the script that synchronises the library catalogue, and
the copies of server state the browser keeps, and proves what each of them promises.

## How it is built

| modules | what they model |
|---|---|
| `Store`, `History`, `World`, `Protocol` | the chat service as a state machine: any number of start, continue, rename and delete requests interleave on one table; a step is one clock reading, one generated answer, one read or one atomic write, and every schedule, clock, answer, failure and page boundary is covered |
| `Guarantees` | what holds over every run of that machine |
| `Leftovers`, `Overlaps` | what one delete, and what several that overlap, leave behind, exactly |
| `Witnesses` | runs that show what is not promised |
| `Text`, `Time`, `Uuids`, `Citations`, `Encoding` | fixed-width UTC texts over real Gregorian fields (date-time of RFC 3339, section 5.6), identifiers, keys, items, citation metadata |
| `Sorting`, `Database`, `Representation`, `Repository` | the string-keyed table with its conditional writes and paged queries; the repository's methods proved to perform the machine's atomic actions |
| `Schedules`, `Verdicts` | the steps of one request in a schedule, and what start, continue and rename answer and leave behind, as decision tables on the tables they meet, their inputs and the clock |
| `Domain`, `UseCases`, `Deletion` | the aggregate as a mutable object; start, continue, rename and delete as sequences of effects with arbitrary interference in between, each proved to be a run of the machine that keeps to its decision table |
| `Reading`, `Readers` | queries whose pages are read at different moments, with other requests in between, and what their readers are given |
| `Batches`, `Catalog` | the library catalogue sync |
| `StableSort`, `LibraryListing`, `Library` | the listing of indexed files, and what it shows after a sync |
| `Client`, `Sessions` | the browser's re-sorts, its chat list, its expiry test and its grouping by day; its requests as runs of the machine |

The machine works on structured keys and rows. `Representation.Represents` says which strings stand for them, and
every repository method is specified by the structured table its items represent, so a theorem about the machine is
a theorem about the strings.

`World.World.logs` is a history variable: for every chat the events that wrote its row. An exchange puts back the
row it loaded, so its event records how long the history was at that load; replaying a history gives the row.

## What is assumed of the environment

- A transaction of conditional puts is carried out as a whole or not at all; each condition is evaluated on the
  item with the same (pk, sk).
- Single reads and queries that are not on the index are strongly consistent. The index is caught up when it is read.
- A batch of deletes or writes is carried out request by request, in any order, and may stop anywhere; one with
  more than 25 requests or a repeated key is refused.
- A new chat id is one never handed out before.
- A failed write of a chat request has written nothing. Clock readings, generated answers and failures are inputs.
- The digest behind source ids, the reading of bucket timestamps and the collation of bucket keys are parameters;
  that source ids do not collide is a hypothesis where it is used.

## Where code and documentation differ

`docs/backend/specification/usecases/chat/continue_chat.md:16` says that a chat can be continued when less than 24
hours have passed. The code (`backend/src/domain/entities/chat/chat.py:230`) and the rest of that document accept
exactly 24 hours, and so does the model. The browser refuses exactly 24 hours; `Client.ExpiryAgreement` gives the
whole difference.

## Model

| member | source | states |
|---|---|---|
| Guarantees.TurnsFormChain | backend/src/application/use_cases/chat/continue_chat/continue_chat.py:66-109 | in every reachable state, under any clocks, the committed turns of a chat form a chain: each question is at or after the previous committed answer, at most 24 hours after it, and at or before its own answer; each turn is one user/llm pair of the chat with a common request |
| Guarantees.OneWinnerPerVersion | backend/src/infrastructure/repositories/chat/dynamodb_chat_repository.py:92-145 | over a whole run, of the continuations that loaded a chat at one version at most one commits |
| Guarantees.RowSummarisesTurns | backend/src/domain/entities/chat/chat.py:208-216 | in every reachable state the stored version is the number of committed exchanges and the stored last_updated_at is the time of the last committed answer |
| Guarantees.RowsEvolve | backend/src/infrastructure/repositories/chat/dynamodb_chat_repository.py:111-123 | between any two states of a run version and last_updated_at never decrease, equal versions mean equal last_updated_at, and owner, session, creation time and id never change |
| Guarantees.CommitIsAllOrNothing | backend/src/infrastructure/repositories/chat/dynamodb_chat_repository.py:104-145 | a continuation commits if and only if there is no fault, its citations can be stored, the stored row has the loaded version and owner, and both message keys are unused; it then changes exactly those three rows, and otherwise nothing |
| Guarantees.FailuresWriteNothing | backend/src/application/use_cases/chat/continue_chat/continue_chat.py:100-109 | a request that failed changed no row in any step of its run, unless it is a delete that failed while removing rows |
| Guarantees.RemovalsFailAsDeletes | backend/src/infrastructure/repositories/chat/dynamodb_chat_repository.py:189-211 | a request that failed otherwise than as a delete never came to remove a row |
| Guarantees.Conservation | backend/src/infrastructure/repositories/chat/dynamodb_chat_repository.py:61-79 | until its owner's delete begins, a chat's partition is its row and 2 * (version + 1) messages: for every committed turn the pair that was committed |
| Guarantees.MessagesPersist | backend/src/infrastructure/repositories/chat/dynamodb_chat_repository.py:104-137 | between any two states of a run a stored message is neither lost nor overwritten before its chat's delete begins |
| Guarantees.GoneStaysGone | backend/src/infrastructure/repositories/chat/dynamodb_chat_repository.py:175-205 | once a chat row is gone it stays gone, no step of any process adds a row to its partition, and what remains there only shrinks |
| Guarantees.DeleteDoneMeansGone | backend/src/infrastructure/repositories/chat/dynamodb_chat_repository.py:180-205 | whatever other deletes run, when a delete reports success the chat row is gone and any row left in the partition is a message of an exchange committed after the delete's own load |
| Leftovers.LeftBehind | backend/src/infrastructure/repositories/chat/dynamodb_chat_repository.py:180-205 | when nobody else takes rows of the chat away, a successful delete leaves exactly the rows its pages missed and the messages of exchanges committed since its last page |
| Leftovers.LeavesNothing | backend/src/infrastructure/repositories/chat/dynamodb_chat_repository.py:180-205 | it leaves nothing if and only if its pages missed nothing and no exchange was committed since its last page; a query of one page misses nothing |
| Leftovers.EveryDeleteQueries | backend/src/infrastructure/repositories/chat/dynamodb_chat_repository.py:180-188 | every successful delete of every run has the first and the last page that the two results above speak of |
| Leftovers.RestIsSettled | backend/src/infrastructure/repositories/chat/dynamodb_chat_repository.py:175-179 | once the chat row is gone and no delete of the chat is underway, what is left in its partition never changes again, whatever is requested |
| Overlaps.NothingMissed | backend/src/infrastructure/repositories/chat/dynamodb_chat_repository.py:180-188 | when every tie in time of the committed turns is ordered by request id, no page of a delete's query has missed a row, however many pages and commits there were |
| Overlaps.CleanWhenQuiet | backend/src/infrastructure/repositories/chat/dynamodb_chat_repository.py:180-205 | then a successful delete that no other joins leaves nothing if and only if no exchange was committed since its last page |
| Overlaps.LeftTogether | backend/src/infrastructure/repositories/chat/dynamodb_chat_repository.py:180-205 | any number of overlapping deletes of a chat with ordered ties that have all succeeded leave, of all the chat has had, exactly what none of them listed |
| Overlaps.NothingLeftTogether | backend/src/infrastructure/repositories/chat/dynamodb_chat_repository.py:180-205 | they leave nothing if and only if one of them took its last page after the last exchange had been committed |
| Guarantees.DeleteAlone | backend/src/infrastructure/repositories/chat/dynamodb_chat_repository.py:175-205 | a delete that reports success with no other process at work has removed exactly the chat's partition and nothing else |
| Guarantees.OthersUntouched | backend/src/infrastructure/repositories/chat/dynamodb_chat_repository.py:164-179 | any step issued for one user leaves every row in every partition owned by another user as it was |
| Guarantees.StoredTitle | backend/src/infrastructure/repositories/chat/dynamodb_chat_repository.py:108-125 | in every reachable state the stored title is the one its source event wrote, and that source is the latest rename if and only if no exchange committed since had loaded the chat before it |
| Guarantees.CommitPutsBackTitle | backend/src/infrastructure/repositories/chat/dynamodb_chat_repository.py:108-125 | a committed exchange stores the title read at its load, and the title stored just before survives if and only if no rename committed between that load and the commit |
| Guarantees.ListingIsHistory | backend/src/infrastructure/repositories/chat/dynamodb_chat_repository.py:239-277 | in every reachable state, listing a chat that is not being deleted gives its messages once each by ascending time, and gives user, llm, user, llm in commit order if and only if every answer that ties in time with the next question has the smaller request id |
| Witnesses.RenameLost | backend/src/infrastructure/repositories/chat/dynamodb_chat_repository.py:110-110 | a run in which a rename and then a continuation both succeed and the stored title is the one from before the rename |
| Witnesses.ListedOutOfOrder | backend/src/infrastructure/repositories/chat/dynamodb_chat_repository.py:333-336 | a run with equal times in which the second turn has the smaller request id and the listing is not in commit order |
| Witnesses.MessagesLeftBehind | backend/src/infrastructure/repositories/chat/dynamodb_chat_repository.py:180-205 | a run in which a delete and a continuation both succeed, the chat row is gone and the two messages of the continuation remain |
| Protocol.RunKeeps | backend/src/infrastructure/repositories/chat/dynamodb_chat_repository.py:55-211 | the invariant holds in every state any schedule reaches: history and table agree, every process's snapshot is a state the chat was in, every delete has listed what it passed |
| Protocol.StepKeeps | backend/src/infrastructure/repositories/chat/dynamodb_chat_repository.py:55-211 | one step of any request, with any clock, answer, fault or page boundary, keeps the invariant and only moves the world forward |
| Protocol.RunAdvances | backend/src/infrastructure/repositories/chat/dynamodb_chat_repository.py:55-211 | however a run goes on, histories only grow, gone chats stay gone and new rows of known chats are messages of newly committed turns |
| Protocol.ReactIsSound | backend/src/application/use_cases/chat/continue_chat/continue_chat.py:66-109 | each action of each process performs only writes its code has earned, and leaves the process knowing what its next action relies on |
| World.LegalWritesKeep | backend/src/infrastructure/repositories/chat/dynamodb_chat_repository.py:55-205 | each kind of write (start, exchange, rename, removal) keeps the agreement of table and history |
| History.GoodLogsChain | backend/src/domain/entities/chat/chat.py:208-231 | the domain checks plus the version check make the turns of a history a chain |
| History.VersionDeterminesTurns | backend/src/infrastructure/repositories/chat/dynamodb_chat_repository.py:110-123 | within a chat's history equal versions mean the same committed turns and the same last_updated_at |
| History.VersionCountsTurns | backend/src/domain/entities/chat/chat.py:215-216 | the version after a history is the number of its turns minus one |
| History.LoadedVersionsDiffer | backend/src/infrastructure/repositories/chat/dynamodb_chat_repository.py:110-123 | two committed exchanges of one history never loaded the same version |
| History.TitleLaw | backend/src/infrastructure/repositories/chat/dynamodb_chat_repository.py:108-125 | the title stored after a history comes from its latest rename if and only if no later exchange had loaded before that rename |
| UseCases.ContinueChat.Execute | backend/src/application/use_cases/chat/continue_chat/continue_chat.py:50-127 | whatever runs in between, the call is one continuation of the state machine, with exactly its steps and inputs; without a client failure its outcome and the table it leaves are those of a decision table on the chat as loaded and the table at its save: not found, more than 24 hours after the last update, no answer, question before the last update or answer before the question, unstorable citations, conflict, or the row advanced by one version and the question and the answer stored, field by field; alone, both tables are the one it began with; on an error it changed no row |
| UseCases.ContinueChat.Exchange | backend/src/application/use_cases/chat/continue_chat/continue_chat.py:67-127 | the same for the part after the load |
| UseCases.ContinueChat.Ask | backend/src/application/use_cases/chat/continue_chat/continue_chat.py:67-82 | the limit is checked on the loaded chat at the moment read from the clock, and an expired chat ends the process |
| UseCases.ContinueChat.RecordAnswer | backend/src/application/use_cases/chat/continue_chat/continue_chat.py:84-108 | the turn is the prompt at its time and the answer at its own; it is accepted exactly when the question is not before the last update and the answer not before the question, and then advances the loaded chat; otherwise the process ends |
| UseCases.ContinueChat.GetOwnedChat | backend/src/application/use_cases/chat/continue_chat/continue_chat.py:129-160 | a missing chat and another user's chat give the same failure; otherwise the object holds the stored row |
| UseCases.ContinueChat.Save | backend/src/application/use_cases/chat/continue_chat/continue_chat.py:100-120 | saving is the commit of the process: on success the stored row is the advanced chat and the last event its turn |
| UseCases.StartChat.Execute | backend/src/application/use_cases/chat/start_chat/start_chat.py:46-115 | whatever runs in between, the call is one start of the state machine, with exactly its steps and inputs; without a client failure it fails exactly for no answer, a blank session, an answer before the question or unstorable citations, and otherwise stores the chat, titled with the first ten characters of the prompt, the prompt itself as the question and the answer, field by field; a client failure is reported as a save failure |
| UseCases.StartChat.Save | backend/src/application/use_cases/chat/start_chat/start_chat.py:92-108 | saving is the commit of the process: on success the stored row is the new chat and the last event its turn |
| UseCases.RenameChat.Execute | backend/src/application/use_cases/chat/rename_chat/rename_chat.py:20-44 | whatever runs in between, the call is one rename of the state machine, arrive and commit; without a client failure it is not found exactly when the user had no such row at that moment, and otherwise that row gets the title and nothing else changes |
| Verdicts.ContinuationAlone | backend/src/application/use_cases/chat/continue_chat/continue_chat.py:66-127 | in any state of any run, a continuation that runs alone without a client failure ends with the exchange done exactly when the chat is the user's, last update <= asked <= last update + 24 hours, asked <= answered, the answer can be stored and both message keys are unused, whatever the chat's age and version; it ends out of order exactly when, within the 24 hours and with an answer, one of the two time comparisons fails; every other outcome and the table left are decided too |
| Verdicts.StartAlone | backend/src/application/use_cases/chat/start_chat/start_chat.py:46-115 | a start that runs alone with a new chat id and without a client failure fails exactly for the four reasons above, and otherwise leaves the chat, the prompt as the question of the user, and the answer |
| Verdicts.RenameAlone | backend/src/application/use_cases/chat/rename_chat/rename_chat.py:20-44 | a rename that runs alone without a client failure changes the title of the owner's row and nothing else, or is not found |
| Verdicts.BlankIsWhiteSpace | backend/src/domain/entities/chat/chat.py:149-150 | a session id is blank exactly when every character of it is one of the 29 white-space code points |
| Deletion.ChatDeletionRepository.DeleteChat | backend/src/infrastructure/repositories/chat/dynamodb_chat_repository.py:175-211 | with other requests running between any two of its effects, the call is one delete of the state machine and terminates; it fails exactly when the client failed and is refused exactly when the owner had no such row at its start; on success it found distinct keys of the partition in order and asked for exactly these, in order and in batches of 25, the last of 1 to 25; alone, it found exactly the partition and leaves exactly the rows of other chats |
| Deletion.ChatDeletionRepository.CheckOwner | backend/src/infrastructure/repositories/chat/dynamodb_chat_repository.py:176-179 | a missing row and another user's row both end the delete as not found, before anything is removed |
| Deletion.ChatDeletionRepository.QueryPartition | backend/src/infrastructure/repositories/chat/dynamodb_chat_repository.py:180-188 | pages read at different moments give distinct keys of the partition in ascending order, exactly those the process's page steps found, and alone exactly the partition; the paging ends whatever is added meanwhile |
| Deletion.ChatDeletionRepository.DeleteInBatches | backend/src/infrastructure/repositories/chat/dynamodb_chat_repository.py:189-205 | the listed keys are requested in order in batches of 25, the last of 1 to 25, and the first incomplete batch ends the delete with an error |
| Deletion.ChatDeletionRepository.DeleteBatch | backend/src/infrastructure/repositories/chat/dynamodb_chat_repository.py:192-205 | the deletes of a batch are carried out one by one in any order, with other requests in between, each as one removal of the state machine |
| Deletion.PageIsKeys | backend/src/infrastructure/repositories/chat/dynamodb_chat_repository.py:289-299 | a page of the query on strings is the ordered keys of the structured partition between its two cursors |
| Deletion.FoundOnce | backend/src/infrastructure/repositories/chat/dynamodb_chat_repository.py:180-201 | the texts of the keys found are pairwise different |
| Domain.ChatObject.RecordTurn | backend/src/domain/entities/chat/chat.py:191-216 | a turn is accepted exactly when both messages are of this chat and one request, by the user and the model, the question is not before last_updated_at and the answer not before the question; then last_updated_at is the time of the answer and the version one more; otherwise the object stays as it was, and a bad pair and a bad order are told apart |
| Encoding.SortKeyOrder | backend/src/infrastructure/repositories/chat/dynamodb_chat_repository.py:321-336 | within a partition, string order on sort keys holds if and only if the order on (instant, request id, user before llm) holds, the chat row first; equal strings mean equal triples |
| Encoding.EncodeInjective | backend/src/infrastructure/repositories/chat/dynamodb_chat_repository.py:440-446 | different keys have different (pk, sk) texts, different chats different pk texts |
| Encoding.IndexSortKeyOrder | backend/src/infrastructure/repositories/chat/dynamodb_chat_repository.py:314-317 | string order on gsi1sk holds if and only if the order on (last_updated_at, chat id) holds |
| Encoding.KeyTexts | backend/src/infrastructure/repositories/chat/dynamodb_chat_repository.py:313-336 | the exact texts of every primary key and index key: CHAT#id with CHAT or MESSAGE#time#request#0 for the user and #1 for the model, USER#id, UPDATED#time#id |
| Text.LexMeaning | backend/src/infrastructure/repositories/chat/dynamodb_chat_repository.py:333-336 | the order of texts is decided at the first character where they differ, a text before its extensions |
| Encoding.ChatAttributes | backend/src/infrastructure/repositories/chat/dynamodb_chat_repository.py:302-318 | every attribute of a stored chat holds what it is named for, and the two index keys are made of the others |
| Encoding.MessageAttributes | backend/src/infrastructure/repositories/chat/dynamodb_chat_repository.py:321-344 | every attribute of a stored message holds what it is named for, the sender as "user" or "llm" |
| Encoding.ChatRoundTrip | backend/src/infrastructure/repositories/chat/dynamodb_chat_repository.py:302-318 | a stored chat item is read back as the chat that was written |
| Repository.RecordRoundTrip | backend/src/infrastructure/repositories/chat/dynamodb_chat_repository.py:321-344 | a message that can be stored is read back with its request id, content and time unchanged, its sender as "user" or "llm", and its citations in normal form |
| Time.TextOrderIsTimeOrder | backend/src/infrastructure/repositories/chat/dynamodb_chat_repository.py:449-454 | formatted instants have one width and sort as text exactly as they sort in time; equal texts mean equal instants |
| Time.ParseFormat | backend/src/infrastructure/repositories/chat/dynamodb_chat_repository.py:449-458 | parsing a formatted instant gives the instant back |
| Time.StoredForm | backend/src/infrastructure/repositories/chat/dynamodb_chat_repository.py:449-454 | the stored text is the UTC fields of the instant, four digits for the year, six for the fraction and two for the others, with - - T : : . and Z between and after them |
| Time.Calendar | backend/src/infrastructure/repositories/chat/dynamodb_chat_repository.py:449-454 | which years are leap years, and the length of every month |
| Time.OffsetsNormalisedAway | backend/src/infrastructure/repositories/chat/dynamodb_chat_repository.py:449-458 | two aware date-times are stored alike if and only if they denote the same instant, whatever their offsets, and are read back as that instant |
| Time.FieldsOrder | backend/src/infrastructure/repositories/chat/dynamodb_chat_repository.py:449-454 | Gregorian fields compare as the microsecond counts they denote |
| Time.FieldsRoundTrip | backend/src/infrastructure/repositories/chat/dynamodb_chat_repository.py:449-458 | every valid calendar date-time converts to an instant and back to itself |
| Uuids.UuidTextOrder | backend/src/infrastructure/repositories/chat/dynamodb_chat_repository.py:333-336 | identifier texts sort as the 128-bit numbers they write, and differ when these differ |
| Uuids.ParseUuidText | backend/src/infrastructure/repositories/chat/dynamodb_chat_repository.py:425-438 | parsing the text of an identifier gives the identifier back |
| Uuids.UuidForm | backend/src/infrastructure/repositories/chat/dynamodb_chat_repository.py:333-336 | the text is the 32 hexadecimal digits cut 8-4-4-4-12 |
| Citations.StoredValue | backend/src/infrastructure/repositories/chat/dynamodb_chat_repository.py:36-47 | a metadata value can be stored if and only if it holds no infinity and no NaN, dropped entries aside, and reading it back gives its normal form: decimals for numbers, the one str writes for a float, lists for tuples, string keys only, at every depth |
| Citations.NormalIdempotent | backend/src/infrastructure/repositories/chat/dynamodb_chat_repository.py:36-47 | normal forms are fixed points |
| Citations.SurvivesStorage | backend/src/infrastructure/repositories/chat/dynamodb_chat_repository.py:36-47 | a value that can be stored comes back equal, numbers compared by the exact value they stand for, if and only if at every depth it has no tuple, no entry without a string key, and no float other than the decimal str writes for it |
| Citations.TenthIsChanged | backend/src/infrastructure/repositories/chat/dynamodb_chat_repository.py:36-38 | 0.1 does not come back equal, 0.5 does |
| Citations.CitationsReadBack | backend/src/infrastructure/repositories/chat/dynamodb_chat_repository.py:346-422 | storing and loading citations that can be stored keeps text, spans, content, location type and uri, and puts the metadata in normal form |
| Citations.AnyCitationsRead | backend/src/infrastructure/repositories/chat/dynamodb_chat_repository.py:366-422 | from any stored attribute: nothing unless it is a list, one citation for each map in it and nothing for anything else, each made of those of its attributes that have the right kind, numbers cut towards zero |
| Citations.NormalForms | backend/src/infrastructure/repositories/chat/dynamodb_chat_repository.py:36-47 | the normal form of each kind of value, element by element; entries keep their order |
| Representation.PutRepresents | backend/src/infrastructure/repositories/chat/dynamodb_chat_repository.py:302-344 | writing an encoded row under its encoded key is writing the row |
| Representation.StartConditions | backend/src/infrastructure/repositories/chat/dynamodb_chat_repository.py:61-79 | the three conditional puts of save_started_chat pass if and only if the chat row and both message keys are unused and distinct |
| Representation.ExchangeConditions | backend/src/infrastructure/repositories/chat/dynamodb_chat_repository.py:104-137 | the conditional puts of save_exchange pass if and only if the row has the previous version and the same owner and both message keys are unused and distinct |
| Representation.TurnPuts | backend/src/infrastructure/repositories/chat/dynamodb_chat_repository.py:61-79 | three accepted puts leave the items that represent the table with the chat row and both messages put |
| Representation.PartitionAnswer | backend/src/infrastructure/repositories/chat/dynamodb_chat_repository.py:180-188 | a partition query on strings answers every matching row once, in the order of the structured keys |
| Representation.IndexAgreement | backend/src/infrastructure/repositories/chat/dynamodb_chat_repository.py:213-237 | the gsi1 query for a user answers exactly the chat rows of that user, by descending (last_updated_at, chat id) |
| Representation.RenameRepresents | backend/src/infrastructure/repositories/chat/dynamodb_chat_repository.py:154-169 | updating the title attribute leaves the items that represent the row with the new title, index keys included |
| Representation.RemovalRepresents | backend/src/infrastructure/repositories/chat/dynamodb_chat_repository.py:189-205 | deleting items by key is deleting the rows they stand for |
| Readers.EveryStateIsStorable | backend/src/infrastructure/repositories/chat/dynamodb_chat_repository.py:302-344 | every reachable table is represented by some items, so the agreements of index and partition hold in every reachable state |
| Readers.OpenChatsAreListed | backend/src/infrastructure/repositories/chat/dynamodb_chat_repository.py:213-237 | in every reachable state a chat not being deleted is in its starter's gsi1 listing, under the time of its last committed answer |
| Readers.ReadersSeeHistory | backend/src/infrastructure/repositories/chat/dynamodb_chat_repository.py:239-277 | however many pages a read takes and whatever is committed between them, the reader of an open chat is given its whole history as of the last page, turn by turn in commit order, record 2i said by "user" with the content and time of the question and record 2i+1 by "llm" with those of the answer, if and only if ties in time are ordered by request id |
| Readers.ReadIsCommitted | backend/src/infrastructure/repositories/chat/dynamodb_chat_repository.py:239-277 | every record read of an open chat is one of its committed messages as stored, and every message stored when the read began is among them |
| Readers.ListedOnce | backend/src/infrastructure/repositories/chat/dynamodb_chat_repository.py:213-237 | no chat is listed twice, although it may have been updated between the pages |
| Readers.SettledChatsAreListed | backend/src/infrastructure/repositories/chat/dynamodb_chat_repository.py:213-237 | a chat whose index entry is the same when the read begins and when it ends is listed with that entry, whatever happens to other chats |
| Readers.QuietListIsExact | backend/src/infrastructure/repositories/chat/dynamodb_chat_repository.py:213-237 | with nothing running in between, the list is exactly the user's chats, latest first |
| Repository.ChatRepository.SaveStartedChat | backend/src/infrastructure/repositories/chat/dynamodb_chat_repository.py:55-81 | without a client failure it succeeds if and only if the start is acceptable and its citations can be stored; success means the turn was put, an error that nothing was written |
| Repository.ChatRepository.SaveExchange | backend/src/infrastructure/repositories/chat/dynamodb_chat_repository.py:92-145 | success means the exchange was acceptable and the turn was put, a conflict that it was not acceptable, a save error that the client failed or the citations cannot be stored; after either error nothing was written |
| Repository.ChatRepository.GetChat | backend/src/infrastructure/repositories/chat/dynamodb_chat_repository.py:83-90 | the stored chat, or not found exactly when there is no row |
| Repository.ChatRepository.UpdateTitle | backend/src/infrastructure/repositories/chat/dynamodb_chat_repository.py:147-173 | success means the owner's row got the title and nothing else; not found means there is no such row for this user |
| Reading.ChatQueryRepository.QueryAll | backend/src/infrastructure/repositories/chat/dynamodb_chat_repository.py:289-299 | pages read at different moments, with other requests in between, add up to hits in order, each with the item it had at its own moment, these moments in order; of what is stored at the last page only what came in behind the pages is missing; the paging ends whatever is added meanwhile |
| Reading.ChatQueryRepository.ListChatsByUserId | backend/src/infrastructure/repositories/chat/dynamodb_chat_repository.py:213-237 | summaries by descending last update, each with the id, title and times of a chat as stored at its own moment; only entries that came in ahead of the pages are missing; not found means that the last page left nothing to list |
| Reading.ChatQueryRepository.ListMessagesByChatId | backend/src/infrastructure/repositories/chat/dynamodb_chat_repository.py:239-277 | records by ascending time, each with sender "user" or "llm", request id, content, time and normal citations of a message as stored at its own moment; only messages that came in behind the pages are missing; not found for a missing chat, another user's chat and a chat without messages |
| Catalog.Convergence | infra/scripts/library-catalog.ts:65-96 | after any history of syncs interrupted anywhere, against any listings, one complete sync yields exactly the catalogue of its own listing, given collision-free source ids |
| Catalog.Resumable | infra/scripts/sync-library-catalog-dev.ts:57-84 | rerunning the sync from the table left by any partial application, against the same listing, reaches the table of an uninterrupted run |
| Catalog.InterruptedSync | infra/scripts/sync-library-catalog-dev.ts:57-84 | after any partial application every key that held a current PDF still holds one, every row is as it was or as the catalogue has it, and the table still fits the listing |
| Catalog.CurrentPdfsKept | infra/scripts/sync-library-catalog-dev.ts:57-84 | with canonical keys and collision-free source ids no partial application loses a stored PDF that is still current: it stays under its key |
| Catalog.PdfSurvives | infra/scripts/sync-library-catalog-dev.ts:57-84 | without these hypotheses a current PDF keeps a row through every partial application if and only if it had one under a key that the catalogue gives to no other PDF |
| Catalog.PdfLost | infra/scripts/sync-library-catalog-dev.ts:57-84 | tables that fit their listing in which a partial application loses a current PDF |
| Catalog.SyncIsExact | infra/scripts/library-catalog.ts:65-96 | applying the whole plan yields exactly the catalogue if and only if every stored row that is still current is under a catalogue key and no stale row is |
| Catalog.ListingBecomesCatalogue | infra/scripts/library-catalog.ts:36-96 | from a table with canonical keys and a listing of distinct keys, the sync leaves exactly one row for every PDF listed, under the key of its source id, and its plan names no key twice |
| Catalog.ListedPdfsHaveRows | infra/scripts/library-catalog.ts:65-96 | and the row of each PDF is under SOURCE# and its source id, holds the item built from it and is not indexed |
| Catalog.SyncTwice | infra/scripts/library-catalog.ts:65-96 | a second sync against the same listing changes nothing |
| Catalog.PlanNamesKeysOnce | infra/scripts/library-catalog.ts:65-96 | the plan names no key twice if and only if no stale row is under a key of the catalogue |
| Catalog.ItemOfPath | infra/scripts/library-catalog.ts:39-61 | for every PDF key: the category is the first piece of the path, before the file, that is not empty, the title the file name without its extension, in any case, the status "uploaded"; a PDF without such a piece, and only that, has no item |
| Catalog.PathOfPieces | infra/scripts/library-catalog.ts:42-43 | every key is the path of its pieces between slashes, so the previous row speaks of every PDF key |
| Catalog.PdfKeysAre | infra/scripts/library-catalog.ts:163-165 | a key is a PDF's exactly when it begins with documents/ and ends with .pdf in any case |
| Catalog.CatalogueBuilt | infra/scripts/library-catalog.ts:36-63 | the listing is unusable exactly when some PDF in it has no item; otherwise the items are those built from its PDFs, all of them and no others, by bucket key in the order of the collation |
| Catalog.BuiltItems | infra/scripts/library-catalog.ts:36-63 | the items are those of the PDFs listed, with their source ids, whatever the collation; distinct keys stay distinct |
| Catalog.Sync | infra/scripts/sync-library-catalog-dev.ts:35-84 | success means the table is as if the whole plan had been applied in order; otherwise some of the plan was applied, and with a usable listing, no failure and a plan that names no key twice it succeeds |
| Catalog.ApplyInBatches | infra/scripts/sync-library-catalog-dev.ts:57-84 | the same for a given plan, which is written in order in batches of 25, the last of 1 to 25 |
| Catalog.OrderIrrelevant | infra/scripts/sync-library-catalog-dev.ts:68-78 | requests for different keys give the same table in whatever order they are carried out |
| Catalog.CountUnprocessed | infra/scripts/sync-library-catalog-dev.ts:129-134 | the count is the number of requests handed back, in all lists together |
| Catalog.LibraryTable.BatchWrite | infra/scripts/sync-library-catalog-dev.ts:68-78 | a batch of more than 25 requests or with a repeated key is refused; otherwise some of its requests are carried out in any order, and when none is handed back the table is as after the whole batch |
| Batches.ChunkRequests | infra/scripts/library-catalog.ts:155-161 | the list in order, cut into batches of 1 to size requests, all but the last full |
| LibraryListing.LibraryFiles.ScanAll | backend/src/infrastructure/repositories/library/dynamodb_indexed_file_query_repository.py:45-68 | every stored row once, for every page split; an error exactly when a request failed |
| LibraryListing.LibraryFiles.ReadFiles | backend/src/infrastructure/repositories/library/dynamodb_indexed_file_query_repository.py:24-43 | every row converted, in order: paper_title as the name, category, s3_key and status as they are, the readings of the other three attributes; an access error exactly when a request failed or some row lacks an attribute or has one that cannot be read |
| LibraryListing.LibraryFiles.ListIndexedFiles | backend/src/application/use_cases/library/list_indexed_files/list_indexed_files.py:34-72 | an arrangement of the files of all stored rows by category, then name, those alike in both in stored order; no rows give an empty list |
| LibraryListing.ConversionShows | backend/src/infrastructure/repositories/library/dynamodb_indexed_file_query_repository.py:71-99 | a row is converted exactly when only its indexing date may be missing and its identifier and dates can be read, and to the one file whose fields show its attributes |
| Library.SyncedLibraryIsListed | backend/src/infrastructure/repositories/library/dynamodb_indexed_file_query_repository.py:24-43 | after a complete sync of a listing, whatever the table held under canonical keys and in whatever order it keeps its rows, the library lists every PDF of the bucket once, with the title and the category of its path, as uploaded and not indexed, and nothing else |
| LibraryListing.StorageOrderIrrelevant | backend/src/application/use_cases/library/list_indexed_files/list_indexed_files.py:54-59 | the listing is the same for every storage order when (category, name) pairs are distinct |
| StableSort.SortOrdered | backend/src/application/use_cases/library/list_indexed_files/list_indexed_files.py:56-59 | a stable sort by a weak order gives an ordered sequence |
| StableSort.SortIsStable | backend/src/application/use_cases/library/list_indexed_files/list_indexed_files.py:56-59 | elements with equal keys keep their given order |
| StableSort.SortIsIdentity | frontend/src/lib/chat-api.ts:95-105 | sorting what is in order changes nothing |
| Client.ExpiryAgreement | frontend/src/features/chat/utils/chat-data.ts:3-13 | the backend accepts up to and including 24 hours; when the client says not expired the backend accepts; they disagree exactly at an age of 24 hours, or less than a millisecond short of it when cutting to milliseconds rounds the age up |
| Client.FetchKeepsChats | frontend/src/lib/chat-api.ts:95-106 | the client's millisecond re-sort leaves the backend's list of chats as it came, however many pages it was read in |
| Client.QuietFetch | frontend/src/lib/chat-api.ts:89-106 | what the client shows after a fetch during which nothing else runs is the user's chats as stored |
| Client.FetchKeepsMessages | frontend/src/lib/chat-api.ts:120-132 | the client's millisecond re-sort leaves the backend's list of messages as it came, however many pages it was read in |
| Client.MessagesByTime | frontend/src/lib/chat-api.ts:120-132 | the re-sort of any list of messages gives the same ones by ascending millisecond, those of one millisecond as they came |
| Client.ChatsByTime | frontend/src/lib/chat-api.ts:95-105 | the re-sort of any list of chats gives the same ones by descending millisecond, those of one millisecond as they came |
| Client.ListStaysFresh | frontend/src/features/chat/containers/ChatThreadsContainer.tsx:86-111 | for a single client that begins with a fetch, after any sequence of successful starts, continuations, renames and deletes with ever later answers, its list equals a fresh fetch |
| Sessions.RequestIsCarried | frontend/src/features/chat/containers/ChatThreadsContainer.tsx:86-111 | a request that runs alone in the state machine and succeeds does to the table exactly what the client follows |
| Sessions.SessionStaysFresh | frontend/src/features/chat/containers/ChatThreadsContainer.tsx:86-111 | through a session of such requests with ever later answers, the list that began with a fetch is what a fresh fetch would give in the reached state |
| Client.FetchMirrors | frontend/src/lib/chat-api.ts:89-106 | a fresh fetch shows exactly the user's chats as stored, latest first |
| Client.FollowMirrors | frontend/src/features/chat/containers/ChatThreadsContainer.tsx:86-111 | each kind of request keeps the list a mirror of the table |
| Client.ChatThreads.HandleUpsertChat | frontend/src/features/chat/containers/ChatThreadsContainer.tsx:106-111 | a list that showed the table before a start or continuation shows it afterwards |
| Client.ChatThreads.HandleRenameChat | frontend/src/features/chat/containers/ChatThreadsContainer.tsx:86-95 | a list that showed the table before the rename shows it afterwards; without a selected chat or when the rename fails nothing changes |
| Client.ChatThreads.HandleDeleteChat | frontend/src/features/chat/containers/ChatThreadsContainer.tsx:97-104 | a list that showed the table before the delete shows it afterwards; without a selected chat or when the delete fails nothing changes |
| Client.GroupsRejoin | frontend/src/features/chat/utils/chat-data.ts:36-46 | of a list in descending order the three groups are consecutive pieces: put together they are the list |
| Client.GroupChatsByUpdatedAt | frontend/src/features/chat/utils/chat-data.ts:20-49 | a chat is in the first group exactly when it was updated at or after the start of today, in the second when before that but at or after seven days ago, in the third otherwise; every chat is in one group |

## Left out

- Repository.ChatRepository.SaveExchange: a client error other than a failed condition, and the type error for citations that cannot be stored, are one failure; a transaction that succeeds while its caller is told otherwise is not modelled.
- Citations.StoredValue: the 38-digit limit of the serializer and values it has no type for are not modelled; a number that is not finite is refused whether by the serializer or by the table.
- LibraryListing.LibraryFiles.ReadFiles: how Python reads an identifier or an ISO 8601 text is a parameter.
- The JSON of the command line tools and the temporary files of the sync script; its scan is one read of the whole table.
- ISO 8601 forms of chat times other than the stored one, which the program never writes.
- Naive date-times: the clock is always aware, so their rejection is not modelled.
- The external generator: it is an arbitrary answer with citations, or a failure, after an arbitrary delay.
- Prompt validation and trimming: a prompt is a text that was accepted.
- Staleness of the index, retries, and errors of the database client beyond "some failure".
- The use case classes for deleting and listing chats, which only call the repository and log.
- SHA-1 and the bytes of version 5 identifiers.
- HTTP, authentication, logging, React rendering and timers, and the CDK stacks.
