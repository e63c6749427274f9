# Scam-list moderation bot — a verified model

`bot.py` is a Telegram bot that keeps two public registries for a community.
One is a **white list** of trusted users; the other is a **scam list** of handles reported as scammers.

- Users fill in three guided conversations:
  - a white-list application: activity → city → link → description → proofs → confirm;
  - a scam report: handle → description → proofs → confirm;
  - an appeal against a scam-list entry: handle → explanation → proofs → confirm.
- Reviewers (the users in `ADMIN_IDS`) approve or reject each submission from buttons.
- A reviewer may also ask a submitter for more information; only the addressed user can answer.
- Everything is kept in an SQLite store with six tables:
  - white-list applications, scam reports and appeals, each `pending` / `approved` / `rejected`;
  - `white_list`;
  - `scam_list`, whose rows are `active` or `removed` (removal is a soft delete);
  - `info_requests`, each `pending` / `completed`.

The model is split into one module per concern:

| module | file | what it holds |
|---|---|---|
| `Options` | `options.dfy` | the optional-value datatype |
| `Files` | `files.dfy` | attachments and the `kind:fileId,kind:fileId` text form in which files are stored and parsed back |
| `Paging` | `paging.dfy` | five-rows-a-page listing arithmetic and the back/forward keyboard |
| `Tables` | `tables.dfy` | a table as a sequence of rows with auto-increment ids; insert, lookup, select, status update |
| `Store` | `store.dfy` | the store as a class `Database` whose six table fields its methods update in place |
| `Conversation` | `conversation.dfy` | the three submission workflows as a step function over a user's session dictionary |
| `Moderation` | `moderation.dfy` | what the reviewer-side handlers and the info-request protocol do to the store and the session, as functions from the state before to the state after |
| `Handlers` | `bot.dfy` | the running bot, a class holding the store and every user's session, with one method per handler, each proved equal to its specification |

How the model represents the source:

- **Conversation state.** The framework holds each conversation's state and passes it to the handlers. The model makes it explicit as `Conversation.Conv`, and `Conversation.Code` gives the integer constants of `bot.py:28-36`.
- **Missing session key.** A handler that reads a missing session key raises. The model gives the outcome `Raised`, which changes nothing.
- **Message routing.** Which handler receives a message follows the registration order in `main()` (`bot.py:1995-2016`):
  - `/start`, `/admin` and the ten menu-button texts are registered first, so they are answered by their own handlers at every step of every conversation; none of those handlers touches the session, and the conversation stays where it was;
  - the white-list, report and appeal conversations come next, in that order, and the info-request conversations after them (`bot.py:2010-2016`). A conversation's entry button therefore starts that conversation even while the user is inside one registered later; the later one never sees the text and stays at its step. Pressed inside its own conversation, an entry button is an ordinary answer;
  - then, inside a conversation, text steps take text that is not a bot command (a '/' followed by a letter, a digit or '_') and proof steps take any text or file (`bot.py:1911-1991`);
  - the cancel keyword and `/cancel` are the fallbacks.
- **Inputs that stand for I/O.** Several parameters stand for outside events:
  - `storeOk` says whether the store accepted a write that the source wraps in a `try`;
  - `delivered` says whether a message to a user went through.
  - `handle` is the sender's display handle, their username or else their first name (bot.py:719-724); only the white-list entry point stores it.

## Model

| member | source | states |
|---|---|---|
| Files.KindFromName | bot.py:836-840 | a stored kind name is recognised exactly when it is one of the four kind names, and then names that kind |
| Files.FilesToForward | bot.py:836-840 | every forwarded file id holds neither separator, and there are at most as many files as ','-pieces |
| Files.ParsedIdsAreClean | bot.py:836-840 | an id split out of a piece that holds no ',' holds neither ',' nor ':' |
| Files.Encode | bot.py:636-652 | the stored text is empty exactly when there are no files; one file is stored as its `kind:fileId` token |
| Files.Attachments | bot.py:640-651 | a message's attachments, in photo, document, video, audio order; empty exactly when the message carries no file |
| Files.HandleFiles | bot.py:636-652 | the stored token is empty exactly when the message carries no file, and holds no ',' when the file id has none |
| Files.Split | bot.py:836-838 | `str.split`: at least one piece, no piece holds the separator, and joining the pieces gives the string back |
| Files.SplitJoin | bot.py:836-838 | splitting a join of separator-free pieces gives the pieces back |
| Files.TokenHalves | bot.py:836-838 | splitting a `kind:fileId` token on ':' gives exactly the kind name and the id |
| Files.ParseTokens | bot.py:836-840 | parsing the tokens of a list of files gives back every file, in order |
| Files.EncodeRoundTrip | bot.py:836-840 | joining tokens with ',' and forwarding recovers every (kind, fileId) pair, in order |
| Files.HandleFilesEncodesFirst | bot.py:636-652 | handle_files stores the token of the first attachment only (first match wins), and "" when there is none |
| Files.ForwardedProofIsFirstAttachment | bot.py:636-652 | forwarding what a proof message stored yields exactly its first attachment |
| Paging.TotalPages | bot.py:679 | total_pages is the ceiling of count/5: enough pages for every row and no empty last page |
| Paging.PageOf | bot.py:201-214 | a page holds at most five rows; from page 1 on it is exactly the rows from offset (page-1)*5 on, as many as there are up to five |
| Paging.KeyboardButtons | bot.py:594-600 | back is offered iff page > 1, forward iff page < total_pages, at most these two, and no keyboard exactly when neither applies |
| Paging.RowOnItsPage | bot.py:201-214 | row i of a listing is shown on page i/5+1 at position i mod 5 |
| Paging.PageNonEmptyIffInRange | bot.py:676-696 | a page from 1 on shows rows iff it is at most total_pages |
| Paging.NavigationMatchesRows | bot.py:594-600 | forward appears iff the next page has rows; back appears iff the previous page is a real page |
| Paging.NavigationStaysInRange | bot.py:594-600 | from a page in range every button leads to a page in range |
| Tables.InsertKeepsPositional | bot.py:409-433 | an insert keeps ids equal to positions and gives a fresh id larger than every existing one |
| Tables.Find | bot.py:278-285 | `WHERE id = ?`: a found row is in the table with that id; None means no row has it |
| Tables.FindPositional | bot.py:278-285 | with positional ids, a lookup succeeds exactly for 1..n and returns the row at id-1 |
| Tables.Select | bot.py:269-276 | `WHERE status = ?`: exactly the rows with that status |
| Tables.SelectAppend | bot.py:269-276 | selecting after an append adds the new row at the end iff it has the status |
| Tables.InsertSelected | bot.py:409-433 | a row inserted with a status is the last of the rows selected by it, under the next id |
| Tables.Count | bot.py:216-222 | `COUNT(*) WHERE status = ?` equals the number of rows selected by that status |
| Tables.SetStatus | bot.py:287-303 | the row with the id gets the status, and the notes only when non-empty; every other row is unchanged |
| Tables.SetStatusKeepsPositional | bot.py:287-303 | a status update keeps ids positional |
| Tables.Insert | bot.py:409-433 | an insert keeps every row and appends one whose id is its position, with the given data and status and no notes |
| Store.ActiveCount | bot.py:481-487 | the count is positive iff some row of the handle is active |
| Store.Listed | bot.py:481-487 | a handle is listed iff some row of it is active |
| Store.SoftRemove | bot.py:489-499 | every row of the handle is kept and marked removed; others untouched |
| Store.SoftRemoveDelists | bot.py:489-499 | after removal the handle is no longer listed; ids and contents of every row stay |
| Store.SoftRemoveKeepsOthers | bot.py:489-499 | removing one handle leaves every other handle's listing as it was |
| Store.Answer | bot.py:537-546 | the request with the id gets the response text and files and becomes completed; every other request is unchanged |
| Store.LatestWaiting | bot.py:524-535 | the user's pending request (of the type, if given) with the highest id; None iff there is none |
| Store.FirstWaitingFor | bot.py:557-565 | a pending request of that type and submission, or None iff there is none |
| Store.Newest | bot.py:201-214 | `ORDER BY created_at DESC`: the rows reversed |
| Store.Database.constructor | bot.py:44-175 | a new store has six empty tables and positional ids |
| Store.Database.AddToWhiteList | bot.py:176-199 | on success a row is appended as approved under the next id; on failure the list is unchanged |
| Store.Database.AddToScamList | bot.py:224-244 | on success a row is appended as active under the next id; on failure the list is unchanged |
| Store.Database.IsUserInScamList | bot.py:481-487 | true iff some row of the handle is active |
| Store.Database.RemoveFromScamList | bot.py:489-499 | on success every row of the handle is marked removed and the handle is no longer listed |
| Store.Database.GetWhiteList | bot.py:201-214 | at most five approved rows of the white list; from page 1 on, exactly that page of the approved rows taken newest first, non-empty iff the page is within the page count |
| Store.Database.GetWhiteListCount | bot.py:216-222 | the number of approved rows the listing pages through |
| Store.Database.GetScamList | bot.py:246-259 | at most five active rows of the scam list; from page 1 on, exactly that page of the active rows taken newest first, non-empty iff the page is within the page count |
| Store.Database.GetScamListCount | bot.py:261-267 | the number of active rows the listing pages through |
| Store.Database.AddWhiteListApplication | bot.py:409-433 | returns an id > 0 iff the store accepted it and every field the insert reads is present; then a pending row is appended under that id, otherwise nothing changes and 0 is returned |
| Store.Database.AddScamReport | bot.py:435-456 | as above for scam reports |
| Store.Database.AddAppeal | bot.py:458-479 | as above for appeals |
| Store.Database.GetApplication | bot.py:278-285 | found exactly for ids 1..n, and then the row at that position |
| Store.Database.GetReport | bot.py:314-321 | found exactly for ids 1..n, and then the row at that position |
| Store.Database.GetAppeal | bot.py:350-357 | found exactly for ids 1..n, and then the row at that position |
| Store.Database.GetPendingApplications | bot.py:269-276 | exactly the pending applications |
| Store.Database.GetPendingReports | bot.py:305-312 | exactly the pending reports |
| Store.Database.GetPendingAppeals | bot.py:341-348 | exactly the pending appeals |
| Store.Database.UpdateApplicationStatus | bot.py:287-303 | only the row with the id changes its status (and its notes when given) |
| Store.Database.UpdateReportStatus | bot.py:323-339 | only the row with the id changes its status (and its notes when given) |
| Store.Database.UpdateAppealStatus | bot.py:359-375 | only the row with the id changes its status (and its notes when given) |
| Store.Database.AddInfoRequest | bot.py:501-522 | on success a pending request with no response, for the given type, submission and user, is appended under the returned id; otherwise 0 and no change |
| Store.Database.GetInfoRequest | bot.py:548-555 | found exactly for ids 1..n, and then the row at that position |
| Store.Database.GetActiveInfoRequest | bot.py:524-535 | the user's pending request with the highest id, or None iff the user has none |
| Store.Database.GetInfoRequestByTypeId | bot.py:557-565 | a pending request about that submission, or None iff there is none |
| Store.Database.UpdateInfoRequestResponse | bot.py:537-546 | the request gets the response and becomes completed; nothing else changes |
| Conversation.CodesDistinct | bot.py:28-36 | no two conversation states share an integer code |
| Conversation.CodeRanges | bot.py:28-32 | the application steps use 0-5, the report steps 6-9, the appeal steps 10-13 |
| Conversation.ConfirmationTexts | bot.py:805 | a text passes the confirm gate iff it is the keyword with any of its letters possibly capitalised |
| Conversation.CancelIsNotConfirmation | bot.py:805 | the cancel keyword never counts as a confirmation |
| Conversation.StripAt | bot.py:880 | the handle has no '@' left, and is unchanged when it had none |
| Conversation.KindOfType | bot.py:1499-1505 | a request-type string maps to the kind it names, and to none when it names no kind |
| Conversation.Begin | bot.py:719-734 | each entry point starts at a step of its own workflow; the application entry records the user's id and handle with no answers yet; report and appeal entries leave the session as it was; the info-request keys are kept |
| Conversation.Advance | bot.py:736-1114 | the cancel keyword ends every step with an empty session; a form is handed over only at a confirm step on a confirmation, and of that step's workflow; a step stays put only at a confirm step, with the session unchanged and a reminder; otherwise it moves to its successor and asks that step's question, or ends only when an appeal names an unlisted handle; the info-request keys are kept |
| Conversation.ConfirmationIsAnswer | bot.py:801-806 | a confirmation is not empty, not a command, not the cancel keyword and not a menu-button text, so it reaches the confirm step's handler |
| Conversation.AcceptedTexts | bot.py:1911-1921 | the cancel keyword and a confirmation reach every step's own handler; `/cancel` and a message with only a file reach it only at the proof steps |
| Conversation.CommandForIsCommand | bot.py:1995-1996 | a `/name` command, in any letter case, is a command |
| Conversation.EntryOfButton | bot.py:1911-1947 | a text triggers a submission conversation's entry point exactly when it is that conversation's button (with at most one trailing line break), and no other conversation's |
| Conversation.EntryTextsAreAnswers | bot.py:1911-1947 | an entry button is an ordinary text answer: no command, no menu button, not the cancel keyword, `/cancel` or a confirmation, so only the registration order keeps it from a later conversation's step |
| Conversation.EarlierEntryStartsOther | bot.py:2010-2012 | inside the report or appeal conversation, the entry button of one registered earlier starts that one at its first step with the session its entry point gives, while this one stays at its step with its answers; both are left consistent |
| Conversation.AnswerReachesStep | bot.py:1911-1947 | a text answer that is no earlier conversation's entry button is handled by the step itself |
| Conversation.MainHandlersTakeCommandsAndMenus | bot.py:1995-2007 | the main handlers take only commands and menu-button texts, so any other text reaches the conversation |
| Conversation.CancelNotTakenByMainHandlers | bot.py:1995-2007 | neither the cancel keyword nor `/cancel` is taken by `/start`, `/admin` or a menu button, and `/cancel` is a command |
| Conversation.Handle | bot.py:1995-2016 | `/start`, `/admin` and the menu buttons are answered by the main handlers and leave step and session as they are; the entry button of a conversation registered earlier leaves the step and this workflow's draft as they are and replies with a question of that other conversation; the cancel keyword, and `/cancel` outside the proof steps, end the conversation with an empty session; a form is handed over only at a confirm step on a confirmation, of that step's workflow; a conversation moves only to the next step of its workflow, staying put for any other reason leaves the session unchanged, and it ends with a session left only when an appeal names an unlisted handle |
| Conversation.CancelAnywhere | bot.py:1116-1119 | the cancel keyword ends any step with an empty session; `/cancel` does so at every step but the proof steps, where it is stored as the proofs text |
| Conversation.BeginIsConsistent | bot.py:719-734 | each entry point starts its own workflow's first step with a session holding no answers yet |
| Conversation.AdvanceKeepsConsistent | bot.py:736-1114 | from a consistent session a step never raises, lands on a consistent step, and hands over only a complete form of its own workflow |
| Conversation.HandleKeepsConsistent | bot.py:1911-1951 | the same for a delivered message |
| Conversation.SuccessorIsNextCode | bot.py:28-32 | the next step of a workflow has the next state code and stays in the workflow |
| Conversation.StepOrder | bot.py:736-1114 | each step moves to the next one; an unlisted handle ends an appeal at its first step with the session unchanged; a confirm step stays put on anything but the keyword and hands over the form on it |
| Conversation.ConfirmHandsOverForm | bot.py:801-866 | a confirmation hands over the form exactly as collected and pops its session key; other keys are kept |
| Conversation.TextStepStoresOnlyItsField | bot.py:736-775 | a text step stores the message as its own field and changes no other field, file id or info-request key |
| Conversation.ProofsStepStores | bot.py:777-799 | proofs are the text or the files-only marker; file ids change only when the message has a file; no other field changes |
| Conversation.HandleKeepsInfoKeys | bot.py:736-1119 | a submission step keeps the info-request session keys unless a cancel clears the whole session |
| Conversation.RunSubmitsOnlyCompleteForms | bot.py:736-1119 | whatever the user sends, a conversation hands over at most one form, complete and of its own kind |
| Conversation.WrongConfirmationsKeepForm | bot.py:801-806 | any number of texts that neither cancel, nor confirm, nor press an earlier conversation's entry button leave the confirm step and the session unchanged, and store nothing |
| Conversation.WrongConfirmationStays | bot.py:801-806 | one such text at a confirm step leaves the step and the session as they were |
| Conversation.ConfirmAccepted | bot.py:801-866 | a confirmation with the form in the session ends the conversation and hands over that form |
| Conversation.ApplicationRoundTrip | bot.py:719-866 | an application answered in full and confirmed hands over exactly one form carrying the user's answers, and pops it from the session |
| Moderation.SubmitAddsPending | bot.py:409-479 | a stored form becomes the last pending submission of its kind under the next id, and nothing else changes; an incomplete form or a failed insert stores nothing |
| Moderation.Submit | bot.py:409-479 | a failed insert or an incomplete form changes nothing; otherwise the form's kind gains exactly one pending submission, at the end; the registries, the requests and the other kinds never change |
| Moderation.Owner | bot.py:1398-1466 | a submission has an owner iff it exists |
| Moderation.OpenRequest | bot.py:1394-1466 | the store and the providing key never change; only a non-reviewer is denied; the question state is entered only for a reviewer, targeting the named submission |
| Moderation.SendQuestion | bot.py:1558-1600 | a non-reviewer changes nothing; a reviewer's question always ends the conversation and drops the requesting key; exactly when the session still targets a submission and the store accepts, one pending request for that user, with the message as its text, is appended; otherwise the store is unchanged |
| Moderation.AskingHandle | bot.py:1949-1971 | `/start`, `/admin` and the menu buttons change nothing; each of the three entry buttons starts its submission conversation, as its entry point does, and leaves the store and this state as they are; `/cancel` ends with an empty session; the store changes only for a reviewer's non-command text that is not a menu button, which is no entry button and becomes the new request's text |
| Moderation.StartAnswer | bot.py:1469-1505 | the store and the requesting key never change; an answer state is entered only for an existing request addressed to the caller and a known type, and the session then remembers that request |
| Moderation.AnswerInfo | bot.py:1688-1780 | the conversation ends and the providing key is dropped; only the request table changes, keeping its length, and only at the remembered request, which becomes completed; with no remembered request nothing changes |
| Moderation.AnsweringHandle | bot.py:1974-1991 | `/start`, `/admin` and the menu buttons change nothing; each of the three entry buttons starts its submission conversation, as its entry point does, and leaves the store, the remembered request and this state as they are; any other message that starts no transition changes nothing; the store changes only for a text or a file, no entry button, while a request is remembered |
| Moderation.CloseAnswer | bot.py:1507-1525 | the store is unchanged, the conversation ends, and the session no longer claims any request |
| Moderation.NonAdminChangesNothing | bot.py:1280-1391 | a caller outside ADMIN_IDS is denied and changes nothing, whatever the button |
| Moderation.ApproveApplication | bot.py:1280-1309 | a caller is denied iff outside ADMIN_IDS; the application is approved iff a reviewer names an existing one and the white-list insert succeeds, and then the white list grows by one; otherwise nothing changes; reports, appeals, scam list and requests never change |
| Moderation.ApproveReport | bot.py:1324-1349 | a caller is denied iff outside ADMIN_IDS; the report is approved iff a reviewer names an existing one and the scam-list insert succeeds, and then the scam list grows by one; otherwise nothing changes; applications, appeals, white list and requests never change |
| Moderation.ApproveAppeal | bot.py:1364-1379 | a caller is denied iff outside ADMIN_IDS; the appeal is approved iff a reviewer names an existing one, whatever the removal does; the scam list keeps its length and is untouched when the removal fails; the other tables never change |
| Moderation.Reject | bot.py:1311-1321 | a non-reviewer is denied and changes nothing; a reviewer always gets the rejected reply, even for an unknown id; the registries, the requests and the other kinds' statuses are untouched |
| Moderation.ApprovalCopiesApplication | bot.py:1280-1309 | approval appends an approved white-list row with the application's fields and marks the application approved; an unknown id or a failed insert changes nothing |
| Moderation.ReapprovalDuplicates | bot.py:1280-1309 | approving the same application twice lists it twice, under two ids |
| Moderation.ApprovalListsScammer | bot.py:1324-1349 | report approval appends an active scam-list row for the reported handle, which is then listed, and marks the report approved |
| Moderation.AppealApprovalDelists | bot.py:1364-1379 | appeal approval marks the appeal approved and delists the handle, keeping every row and every other handle's listing |
| Moderation.RejectSetsOnlyStatus | bot.py:1311-1321 | reject sets that one submission's status to rejected and changes nothing else |
| Moderation.ApproveApplicationKeepsValid | bot.py:1280-1309 | approving an application keeps every table's ids positional |
| Moderation.ApproveReportKeepsValid | bot.py:1324-1349 | approving a report keeps every table's ids positional |
| Moderation.ApproveAppealKeepsValid | bot.py:1364-1379 | approving an appeal keeps every table's ids positional |
| Moderation.RejectKeepsValid | bot.py:1311-1321 | rejecting keeps every table's ids positional |
| Moderation.OpenRequestTargetsOwner | bot.py:1394-1466 | a request opens iff a reviewer asks about an existing submission, and the session then targets that submission's owner |
| Moderation.QuestionCreatesWaitingRequest | bot.py:1558-1600 | a stored question is a new pending request for that submission and user, and becomes that user's latest pending request |
| Moderation.StartAnswerChecksOwner | bot.py:1469-1505 | a provide attempt on a missing request or on another user's request is refused and changes nothing |
| Moderation.AnswerCompletesOnlyTheRequest | bot.py:1688-1780 | an answer completes that request with the text and file token; no other request, submission, status or registry changes |
| Moderation.OwnedByKept | bot.py:1469-1505 | a session's ownership of its request survives any change that keeps request ids and users |
| Moderation.OpenRequestKeepsOwnership | bot.py:1394-1466 | opening a request keeps the ownership invariant |
| Moderation.AskingKeepsOwnership | bot.py:1558-1686 | sending a question keeps the ownership invariant |
| Moderation.StartAnswerKeepsOwnership | bot.py:1469-1505 | starting an answer keeps the ownership invariant |
| Moderation.AnsweringKeepsOwnership | bot.py:1688-1780 | answering keeps the ownership invariant |
| Moderation.CloseAnswerKeepsOwnership | bot.py:1507-1525 | closing an answer keeps the ownership invariant |
| Moderation.OnlyAddresseeAnswers | bot.py:1479-1483 | under the ownership invariant, only requests addressed to the sender are changed by an answer |
| Handlers.Bot.constructor | bot.py:39-42 | a new bot has no sessions and a valid store |
| Handlers.Bot.StartSubmission | bot.py:719-734 | the session is started as its workflow's entry point says, consistent with its first step |
| Handlers.Bot.Step | bot.py:736-1119 | one message does to the session what the step function says; a confirmation stores the form and replies with its id, or reports failure, and the session key is popped either way |
| Handlers.Bot.StoreForm | bot.py:409-479 | the add_* call stores the form as the submission specification says, returning an id > 0 iff it was complete and accepted |
| Handlers.Bot.ApproveApplication | bot.py:1280-1309 | the store and the reply are exactly those of the approval specification |
| Handlers.Bot.ApproveReport | bot.py:1324-1349 | the store and the reply are exactly those of the report-approval specification |
| Handlers.Bot.ApproveAppeal | bot.py:1364-1379 | the store and the reply are exactly those of the appeal-approval specification |
| Handlers.Bot.Reject | bot.py:1311-1321 | the store and the reply are exactly those of the reject specification |
| Handlers.Bot.OpenRequest | bot.py:1394-1466 | store, session, next state and reply are those of the request-opening specification |
| Handlers.Bot.AskQuestion | bot.py:1558-1686 | store, session, next state and reply are those of the question specification |
| Handlers.Bot.StartAnswer | bot.py:1469-1505 | store, session, next state and reply are those of the provide specification |
| Handlers.Bot.ProvideAnswer | bot.py:1688-1780 | store, session, next state and reply are those of the answer specification, and only requests addressed to the sender change |
| Handlers.Bot.ForwardAnswer | bot.py:1688-1780 | with a request remembered, store, session and reply are those of the answer step, and only requests addressed to the sender change |
| Handlers.Bot.SubmissionStillExists | bot.py:1705-1714 | the reviewers are alerted exactly when the request type names a kind and the submission it refers to still exists |
| Handlers.Bot.CloseAnswer | bot.py:1507-1525 | the providing key is dropped and the conversation ends |

Every `Handlers.Bot` method also keeps the bot's invariant `Valid()`:
- every table's ids are its positions;
- every session that is about to answer an info request holds a request addressed to its own user.

### Behaviour worth noting

- **No rate limiter or content filter.** No handler in `bot.py` limits how often a user may submit or filters what they write; every text is stored as sent.
- **No status check on decisions.** Approve and reject do not look at a submission's current status. Re-approving an application therefore appends a second white-list row (`Moderation.ReapprovalDuplicates`), and the model has no "already decided" outcome.
- **Appeal removal result ignored.** Approving an appeal does not look at the result of the scam-list removal; the reply is the same either way.
- **Entry buttons cut across conversations.** A user in the middle of a report who presses "✉️ Подать заявку в белый список" starts a white-list application, and the report stays at its step with its answers (`Conversation.EarlierEntryStartsOther`). A reviewer typing a question, or a user typing an answer, who presses any of the three submission buttons starts that submission instead (`Moderation.AskingHandle`, `Moderation.AnsweringHandle`).
- **No status check on provide.** The provide button checks that the request exists and belongs to the caller, not that it is still pending.

## Left out

- Telegram I/O is not modelled: sending and editing messages, keyboards as UI objects, and forwarding files to reviewers. Which reply a handler produces is modelled, as a `Reply` value.
- Delivery to reviewers is not modelled: the fan-out to every reviewer and its per-reviewer exception handling (bot.py:812-849, 1728-1770) are I/O. The `delivered` parameter stands for the one delivery the reply depends on.
- The store's failures are reduced to a flag: SQLite connections, SQL text, and the exceptions the `add_*` methods catch become the `storeOk` parameter.
- `update_*_status` and `update_info_request_response` have no `try` in `bot.py` and are modelled as always succeeding. `remove_from_scam_list` does catch its errors; its failure is the `storeOk` flag of `Store.Database.RemoveFromScamList` and of `Moderation.ApproveAppeal`, where the result is ignored (bot.py:1364-1379).
- `Store.Newest`: timestamps are left out, and `ORDER BY created_at DESC` is modelled as newest-inserted first.
- `action_logs`, `bot_users`, `settings` and logging are left out. What `/start`, `/admin` and the ten menu handlers display (lists, rules, about, statistics, the admin stubs) is not modelled either; that they take their messages ahead of every conversation without touching the session is (`Conversation.TakenByMainHandlers`).
- `Conversation.IsCommandFor` and `Conversation.IsCommand`: commands are recognised from the text alone. A bot command is '/' followed by a letter, a digit or '_'; `/name` matches in any letter case when followed by the end of the text or a character that cannot continue a name. Telegram's entity parsing and the framework's check that a `/name@bot` suffix names this bot are not modelled.
- `main()` is not modelled as code. Its handler registration is reflected in the routing of `Conversation.Handle`, `Moderation.AskingHandle` and `Moderation.AnsweringHandle`, including the entry buttons of conversations registered earlier. What happens afterwards, with two conversations of the same user active at once, is not modelled: the model follows one conversation at a time, and the conversation started from inside another is represented only by its first reply and the session its entry point leaves (`Conversation.Begin`).
- Callback-data parsing is not modelled (`int(data.split('_')[-1])`, and the exceptions `handle_callback` catches). The handlers take the kind and the id already parsed.
- Rendering is not modelled: the paging branches of `handle_callback` and the text of `show_white_list` / `show_scam_list` / the admin lists. The arithmetic under them is in `Paging`, and the data in `GetWhiteList` / `GetScamList`.
- `Conversation.IsConfirmation`: lower-casing covers ASCII and the basic Cyrillic block only; every other character is left as it is. The keyword is Cyrillic, so the gate is exact for it.
- `Files.Attachments`: a photo is represented by the file id of its largest size, which is the one the source keeps.
- `Files.FilesToForward`: a stored piece that does not split into exactly two parts makes the source raise. The model returns None for it and does not model the exception's handling.
