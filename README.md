# eircc core, modelled in Dafny

This project models the core of eircc, an IRC client for the Eclipse workbench.
It covers six parts:

- **The per-channel transcript** (`IrcLog`, module `IrcLogs`).
  - It is a class with a growable list of messages and running counters (`charLength`, `lineIndex`).
  - It tracks the last chat, last read and last saved message indices.
  - It has a dirty marker (`firstUpdatedMessageIndex`, with `NOTHING_SAVED = -1`).
  - It holds the backing document as a string that the flush cuts and appends to in place.
  - Its methods are proved against value functions in `IrcRecords`:
    - `FlushAsWritten` / `FlushCorrected` for `ensureAllSaved`;
    - `LastDecisive` for the matcher scan of `replaceOrAppendMessage`;
    - `Hottest` / `HottestUnread` for `getHottestMessage`;
    - `Written` / `Lines` for the cumulative record offsets.
- **Message records** (`IrcMessage`, in `IrcLogs`).
  - A new record takes the log's current counters as its own offset and line index.
  - It takes the author's nick and colour index from the user, if there is one.
  - It memoises its notification level.
- **The session controller** (`IrcController`, module `IrcControllers`).
  - It holds a map from account id to network client.
  - It connects or reuses clients, joins and parts channels, routes commands versus chat, and quits.
  - It reconciles departures against the account's accepted nick.
  - The network client is a stand-in class that only remembers whether it is connected and the calls made on it.
- **The account registry** (`IrcModel`, module `IrcModels`).
  - It keeps the accounts sorted by label, in the order of `String.compareTo`, with a cached array.
  - It has a copy-on-write listener list and a fault-isolated `fire`.
  - It also covers:
    - the split of an account file name into uuid and label;
    - the proposal of the next account;
    - the per-state statistics.
- **Command detection** (`IrcUtils.getInitialCommand` / `getRawCommand`, module `IrcUtils`).
  - These are pure functions over the input line.
  - The IRC command names, in the sense of section 3 of RFC 2812, are an abstract set of upper-case names.
- **Styled append buffers** (`StyledWrapper`, module `StyledWrappers`).
  - Each is an append-only buffer whose `append` answers the length before the append.
  - The collector also gathers ordered style ranges.

`IrcEntities` holds minimal stand-ins for the collaborators the core reads and updates: the account, the server, the user and the channel. Their source is not part of this model. `Wrappers` holds `Option` and `Result`.

Error paths are results, not preconditions:

- `IllegalArgumentException` in `addAccount` is `Err`.
- A failed connect (`IrcException`) is `Err` carrying the error.
- The `BadLocationException` of a truncation outside the document is `ok == false`.
- `nextToken()` on a delimiter-only string is `None`.

I/O is a parameter:

- the connect outcome (`failure`);
- the clock (`now`);
- the UUID (`id`);
- `System.getProperty("user.name")` and the real user name;
- `IrcClient.DEFAULT_PORT`;
- `IrcUiMessages.Account` (`accountWord`);
- the account file extension.

Three defects in the source are logged under "## Findings". Each has an as-written member and a corrected member.

## Model

Source paths are relative to the repository root.

| member | source | states |
|---|---|---|
| IrcUtils.TokenEnd | org.l2x6.eircc.ui/src/org/l2x6/eircc/core/util/IrcUtils.java:69 | the end of the first token is the first delimiter (space, tab, LF, CR) at or after the start, or the end of the string |
| IrcUtils.NextToken | org.l2x6.eircc.ui/src/org/l2x6/eircc/core/util/IrcUtils.java:69 | StringTokenizer.nextToken: None exactly when every character is a delimiter, otherwise the first maximal run of non-delimiters of the input (from the first non-delimiter up to the next delimiter or the end) |
| IrcUtils.GetInitialCommand | org.l2x6.eircc.ui/src/org/l2x6/eircc/core/util/IrcUtils.java:67-74 | None for messages of length at most 2 or not starting with '/'; otherwise a command exactly when the upper-cased first token minus the marker is a known name, and then it is that name |
| IrcUtils.GetRawCommand | org.l2x6.eircc.ui/src/org/l2x6/eircc/core/util/IrcUtils.java:82-84 | drops exactly the first character: length one less, and the marker followed by the result is the input |
| IrcUtils.TokenEndIgnoresCase | org.l2x6.eircc.ui/src/org/l2x6/eircc/core/util/IrcUtils.java:69-71 | inputs equal up to ASCII case have their first token end at the same place |
| IrcUtils.CommandDetectionIgnoresCase | org.l2x6.eircc.ui/src/org/l2x6/eircc/core/util/IrcUtils.java:69-71 | inputs equal up to ASCII case detect the same command or none (English-locale upper-casing) |
| IrcUtils.TokenEndOfPrefix | org.l2x6.eircc.ui/src/org/l2x6/eircc/core/util/IrcUtils.java:69 | the first token of a delimiter-free prefix followed by a delimiter ends where the prefix ends |
| IrcUtils.TextAfterFirstTokenIgnored | org.l2x6.eircc.ui/src/org/l2x6/eircc/core/util/IrcUtils.java:69 | text after the first delimiter has no influence on the command detected |
| IrcUtils.RawCommandStartsWithCommand | org.l2x6.eircc.ui/src/org/l2x6/eircc/core/util/IrcUtils.java:67-84 | the raw command sent for a detected command starts with that command, up to case |
| IrcUtils.WhoisIsCommand | org.l2x6.eircc.ui/src/org/l2x6/eircc/core/util/IrcUtils.java:67-74 | "/whois bob" is detected as WHOIS when WHOIS is a known command |
| IrcUtils.MarkerNotFirstIsChat | org.l2x6.eircc.ui/src/org/l2x6/eircc/core/util/IrcUtils.java:68 | "hello /slash" is not a command |
| IrcRecords.WrittenAppend | org.l2x6.eircc.ui/src/org/l2x6/eircc/core/model/IrcLog.java:199-203 | writing two runs of records in turn writes their concatenation |
| IrcRecords.ContiguousAt | org.l2x6.eircc.ui/src/org/l2x6/eircc/core/model/IrcLog.java:139-140 | in a log built by appends, each record's offset and line index are the length and line count of everything written before it |
| IrcRecords.ContiguousAppend | org.l2x6.eircc.ui/src/org/l2x6/eircc/core/model/IrcLog.java:134-140 | a record appended at the current end keeps offsets cumulative and extends the written text and line count by exactly that record |
| IrcRecords.RewriteFrom | org.l2x6.eircc.ui/src/org/l2x6/eircc/core/model/IrcLog.java:192-203 | cutting a document that holds the saved records at record k's offset and writing the records from k on gives exactly all records |
| IrcRecords.AppendFrom | org.l2x6.eircc.ui/src/org/l2x6/eircc/core/model/IrcLog.java:199-203 | the saved prefix followed by the unsaved suffix written in order is all records |
| IrcRecords.FlushCorrectedWritesAll | org.l2x6.eircc.ui/src/org/l2x6/eircc/core/model/IrcLog.java:167-205 | with `<=` at the truncation test, a flush always succeeds on a consistent log: the document holds exactly the records, everything counts as saved, the marker is cleared, and a second flush changes nothing |
| IrcRecords.FlushAsWrittenRightUnlessLastSavedUpdated | org.l2x6.eircc.ui/src/org/l2x6/eircc/core/model/IrcLog.java:185-205 | the flush as written yields exactly the records, with everything saved, whenever no record is marked updated (the first flush included) or the first updated record is not the last saved one |
| IrcRecords.FlushSavedIsNoOp | org.l2x6.eircc.ui/src/org/l2x6/eircc/core/model/IrcLog.java:170-172 | when every record is saved and none is marked updated, the flush returns at once, and a consistent document already holds all the records |
| IrcRecords.FlushCutWritesAll | org.l2x6.eircc.ui/src/org/l2x6/eircc/core/model/IrcLog.java:189-205 | when the first updated record lies strictly before the last saved one, the flush cuts the document at its offset and rewrites from it, ending with exactly the records, everything saved and the marker cleared |
| IrcRecords.FlushAppendWritesAll | org.l2x6.eircc.ui/src/org/l2x6/eircc/core/model/IrcLog.java:185-205 | when no saved record is marked updated and some record is unsaved, the flush (from an empty document on the first flush) appends the unsaved records, ending with exactly the records and everything saved; the marker is kept |
| IrcRecords.FlushReadyAppend | org.l2x6.eircc.ui/src/org/l2x6/eircc/core/model/IrcLog.java:134-140 | a record appended at the running counters keeps the records contiguous and the saved document consistent with them, so the flush lemmas still apply |
| IrcRecords.FlushAsWrittenKeepsMarker | org.l2x6.eircc.ui/src/org/l2x6/eircc/core/model/IrcLog.java:189-196 | as written, a flush with the marker at or after the last saved record keeps the marker, so the next flush is not a no-op and rewrites again |
| IrcRecords.FlushAsWrittenKeepsStaleRecord | org.l2x6.eircc.ui/src/org/l2x6/eircc/core/model/IrcLog.java:189 | a concrete log whose last saved record was replaced keeps the old text after the flush as written |
| IrcRecords.LastDecisive | org.l2x6.eircc.ui/src/org/l2x6/eircc/core/model/IrcLog.java:88-103 | the newest non-CONTINUE answer, with only CONTINUE answers after it, or None when all are CONTINUE |
| IrcRecords.Hottest | org.l2x6.eircc.ui/src/org/l2x6/eircc/core/model/IrcLog.java:225-249 | None exactly when no CHAT message lies in the window; otherwise a CHAT message of maximal level that is the newest among those of that level |
| IrcRecords.ScanStepKeepsHottest | org.l2x6.eircc.ui/src/org/l2x6/eircc/core/model/IrcLog.java:236-239 | one backward step that takes a CHAT message only when strictly hotter keeps the hottest-and-newest of the part scanned |
| IrcRecords.MeNamedStaysHottest | org.l2x6.eircc.ui/src/org/l2x6/eircc/core/model/IrcLog.java:240-243 | a ME_NAMED message hottest among the newer ones is hottest among all, which justifies the early return |
| IrcRecords.HottestIsUnique | org.l2x6.eircc.ui/src/org/l2x6/eircc/core/model/IrcLog.java:236-239 | at most one message is hottest-and-newest in a window |
| IrcRecords.HottestUnreadIs | org.l2x6.eircc.ui/src/org/l2x6/eircc/core/model/IrcLog.java:227-248 | a hottest CHAT message after the last read one is the answer when the log has unread chat |
| IrcLogs.RecordFor | org.l2x6.eircc.ui/src/org/l2x6/eircc/core/model/IrcMessage.java:37-39 | the record's offset and line index are the given counters; its nick is missing exactly when there is no user; the colour index is the channel's index for the nick, or -1 without a user |
| IrcLogs.CountedAppend | org.l2x6.eircc.ui/src/org/l2x6/eircc/core/model/IrcLog.java:139-140 | a record created at the counters and appended keeps the counters at the end of the written records |
| IrcLogs.ReadyAppend | org.l2x6.eircc.ui/src/org/l2x6/eircc/core/model/IrcLog.java:134-140 | a record created at the running counters and appended keeps the counters at the end of the written records and the saved document consistent for the next flush |
| IrcLogs.FlushSteps | org.l2x6.eircc.ui/src/org/l2x6/eircc/core/model/IrcLog.java:170-205 | the steps of the flush (no-op, first flush, truncation, writes, marker update) produce exactly FlushAsWritten's outcome |
| IrcLogs.WriteFrom | org.l2x6.eircc.ui/src/org/l2x6/eircc/core/model/IrcLog.java:199-203 | the loop writing records from an index leaves the document followed by those records, in order |
| IrcLogs.CandidatesOf | org.l2x6.eircc.ui/src/org/l2x6/eircc/core/model/IrcLog.java:236-237 | each message is seen as whether it is CHAT and its notification level |
| IrcLogs.LastOthersChatAppend | org.l2x6.eircc.ui/src/org/l2x6/eircc/core/model/IrcLog.java:136-138 | after the append, lastChatMessageIndex is still the last CHAT message not from me, or -1 |
| IrcLogs.FixOffsets | org.l2x6.eircc.ui/src/org/l2x6/eircc/core/model/IrcLog.java:123-127 | each later message is replaced by a fresh copy with the same log and the fixed record, in order |
| IrcLogs.IrcMessage.constructor | org.l2x6.eircc.ui/src/org/l2x6/eircc/core/model/IrcMessage.java:35-42 | the record starts at the log's charLength and lineIndex; nick and colour index come from the user; the log is remembered; the level is not yet asked for |
| IrcLogs.IrcMessage.WithAcceptedNick | org.l2x6.eircc.ui/src/org/l2x6/eircc/core/model/IrcMessage.java:31-33 | as the full constructor, with my nick taken from the account's accepted nick |
| IrcLogs.IrcMessage.Fixed | org.l2x6.eircc.ui/src/org/l2x6/eircc/core/model/IrcLog.java:125 | the fixed copy keeps the log and user and carries the fixed record |
| IrcLogs.IrcMessage.GetNotificationLevel | org.l2x6.eircc.ui/src/org/l2x6/eircc/core/model/IrcMessage.java:54-59 | the provider is asked on the first call only; every call answers the memoised level |
| IrcLogs.IrcLog.Load | org.l2x6.eircc.ui/src/org/l2x6/eircc/core/model/IrcLog.java:290-324 | a non-empty document's parsed messages are appended in order without events; afterwards everything counts as saved and read, the level is none, and the counters are consistent |
| IrcLogs.IrcLog.AppendAllLoaded | org.l2x6.eircc.ui/src/org/l2x6/eircc/core/model/IrcLog.java:299-306 | the parsed messages become the log's messages, in order, keeping the counters and the last chat index consistent |
| IrcLogs.IrcLog.AppendLoaded | org.l2x6.eircc.ui/src/org/l2x6/eircc/core/model/IrcLog.java:304 | one parsed message goes last, without an event, keeping the counters consistent |
| IrcLogs.IrcLog.AppendMessage | org.l2x6.eircc.ui/src/org/l2x6/eircc/core/model/IrcLog.java:134-144 | the message goes last; the counters advance by its length and line count; lastChatMessageIndex becomes the new last index exactly when it is CHAT and not from me; NEW_MESSAGE is fired only when asked; a message created at the counters keeps the counters and the saved document consistent for the next flush |
| IrcLogs.IrcLog.ReplaceMessage | org.l2x6.eircc.ui/src/org/l2x6/eircc/core/model/IrcLog.java:112-132 | length unchanged; earlier messages untouched; the replacement at index is built at the replaced record's offset and line; later messages are fixed copies; the marker moves back to index unless already before it; the counters reset to the replaced record's |
| IrcLogs.IrcLog.Rebuilt | org.l2x6.eircc.ui/src/org/l2x6/eircc/core/model/IrcLog.java:113-127 | the list after the replacement: the prefix kept, the replacement at index, fixed copies after it |
| IrcLogs.IrcLog.AppendSteps | org.l2x6.eircc.ui/src/org/l2x6/eircc/core/model/IrcLog.java:134-144 | the field updates of appendMessage in source order: the message goes last, the counters advance by its length and line count, the last chat index moves to it exactly when it is CHAT and not from me, NEW_MESSAGE is fired only when asked, and nothing else changes |
| IrcLogs.IrcLog.AppendNew | org.l2x6.eircc.ui/src/org/l2x6/eircc/core/model/IrcLog.java:104 | the append branch: exactly one fresh message, built from the replacer's new message at the counters as they stood, is appended, with every effect of appendMessage and nothing else changed |
| IrcLogs.IrcLog.ReplaceOrAppendMessage | org.l2x6.eircc.ui/src/org/l2x6/eircc/core/model/IrcLog.java:87-105 | the newest MATCH with only CONTINUE after it is replaced and nothing is appended; a STOP or exhausting the list appends exactly one new message, which becomes the last chat message exactly when it is CHAT and not from me, with the read index, level, document and markers unchanged; messages older than the decisive one are never shown to the matcher |
| IrcLogs.IrcLog.ScanBack | org.l2x6.eircc.ui/src/org/l2x6/eircc/core/model/IrcLog.java:88-103 | the backward scan stops at LastDecisive of the matcher's answers and shows the matcher exactly the messages from the newest back to that one |
| IrcLogs.IrcLog.EnsureAllSaved | org.l2x6.eircc.ui/src/org/l2x6/eircc/core/model/IrcLog.java:167-215 | the document and saved/updated markers become FlushAsWritten of the old ones; nothing else changes; every successful flush leaves everything saved; on a consistent log with no updated record, or one other than the last saved, the flush succeeds and the document holds exactly the records |
| IrcLogs.IrcLog.GetHottestMessage | org.l2x6.eircc.ui/src/org/l2x6/eircc/core/model/IrcLog.java:225-249 | null when the log is empty or has no unread chat; otherwise the newest CHAT message after the last read one whose level is at least every other's; only memoised levels change |
| IrcLogs.IrcLog.ConsiderMessage | org.l2x6.eircc.ui/src/org/l2x6/eircc/core/model/IrcLog.java:236-244 | a CHAT message takes over exactly when there is no answer yet or its level is strictly higher |
| IrcLogs.IrcLog.SetNotificationLevel | org.l2x6.eircc.ui/src/org/l2x6/eircc/core/model/IrcLog.java:326-332 | the level is set; LOG_STATE_CHANGED is fired exactly when it changes |
| IrcLogs.IrcLog.UpdateNotificationLevel | org.l2x6.eircc.ui/src/org/l2x6/eircc/core/model/IrcLog.java:334-340 | the level becomes that of the hottest unread message, or none when there is none; LOG_STATE_CHANGED only on a change; the messages, counters, read and chat indices, document and both save markers stay |
| IrcLogs.IrcLog.AllRead | org.l2x6.eircc.ui/src/org/l2x6/eircc/core/model/IrcLog.java:73-76 | every message counts as read, the level is none, and no hottest unread message is left |
| IrcControllers.IrcController.GetClientOrConnect | org.l2x6.eircc.ui/src/org/l2x6/eircc/core/IrcController.java:70-87 | a connected registered client is returned with clients unchanged; a stale one is closed first; a new client is registered only when connect succeeds; on failure the account goes offline with the error, which is returned, and clients are unchanged |
| IrcControllers.IrcController.JoinChannel | org.l2x6.eircc.ui/src/org/l2x6/eircc/core/IrcController.java:128-143 | nothing for a joined channel; otherwise a client is obtained first; then a p2p channel is set joined locally and any other channel is joined through the client; on success a reusable client is kept and gets exactly that call, otherwise a fresh client gets the connect and then the call, a stale disconnected client is closed, every other registration stays and the account is unchanged |
| IrcControllers.IrcController.PartChannel | org.l2x6.eircc.ui/src/org/l2x6/eircc/core/IrcController.java:158-171 | nothing for an unjoined channel; a p2p channel is unjoined and unlisted locally; any other is parted through the client obtained first, which is kept and gets exactly that call when reusable and is otherwise a fresh client with the connect and then the call; other registrations, the channel and the account stay; the accepted nick never changes |
| IrcControllers.IrcController.PostMessage | org.l2x6.eircc.ui/src/org/l2x6/eircc/core/IrcController.java:178-188 | with a client obtained, a detected command is sent raw without its marker; anything else is posted to the channel; a reusable client is kept and gets exactly that call, otherwise a fresh client gets the connect and then the call and a stale one is closed; other registrations and the account stay |
| IrcControllers.IrcController.Quit | org.l2x6.eircc.ui/src/org/l2x6/eircc/core/IrcController.java:190-196 | the account's client is unregistered and told to quit only if it was connected |
| IrcControllers.IrcController.QuitAll | org.l2x6.eircc.ui/src/org/l2x6/eircc/core/IrcController.java:198-206 | as written: only clients that are not connected are told to quit; connected clients stay connected; nothing is unregistered |
| IrcControllers.IrcController.QuitAllConnected | org.l2x6.eircc.ui/src/org/l2x6/eircc/core/IrcController.java:198-206 | as intended: every connected client is told to quit, so no registered client stays connected |
| IrcControllers.IrcController.Dispose | org.l2x6.eircc.ui/src/org/l2x6/eircc/core/IrcController.java:56-58 | as written, through quitAll: connected clients stay connected, and only clients that are no longer connected are told to quit |
| IrcControllers.IrcController.DisposeCorrected | org.l2x6.eircc.ui/src/org/l2x6/eircc/core/IrcController.java:56-58 | with quitAll as intended: every connected client is told to quit, so no registered client stays connected |
| IrcControllers.IrcController.UserLeft | org.l2x6.eircc.ui/src/org/l2x6/eircc/core/IrcController.java:221-231 | my accepted nick unjoins the channel; another nick is removed, and its departure recorded, only when present |
| IrcControllers.IrcController.UserQuit | org.l2x6.eircc.ui/src/org/l2x6/eircc/core/IrcController.java:233-245 | my accepted nick sets the account offline and touches no channel; another nick leaves every joined channel, and unjoined channels are untouched |
| IrcControllers.IrcController.GetOrCreateUser | org.l2x6.eircc.ui/src/org/l2x6/eircc/core/IrcController.java:114-122 | the server's user with the nick; an existing one is returned unchanged, otherwise a new one is added under the nick |
| IrcControllers.IrcController.GetOrCreateAccountChannel | org.l2x6.eircc.ui/src/org/l2x6/eircc/core/IrcController.java:89-97 | the account's channel with the name, created when missing, and listed in any case |
| IrcControllers.IrcController.GetOrCreateP2pChannel | org.l2x6.eircc.ui/src/org/l2x6/eircc/core/IrcController.java:103-112 | the peer's account's p2p channel with the peer, created when missing, and listed in any case; the account's state and accepted nick stay |
| IrcControllers.IrcController.GetOrCreateUserTwice | org.l2x6.eircc.ui/src/org/l2x6/eircc/core/IrcController.java:114-122 | idempotence: a repeat call returns the same user and adds nothing |
| IrcControllers.IrcController.GetOrCreateAccountChannelTwice | org.l2x6.eircc.ui/src/org/l2x6/eircc/core/IrcController.java:89-97 | idempotence: a repeat call returns the same channel and lists nothing more |
| IrcModels.LabelLessIrreflexive | org.l2x6.eircc.ui/src/org/l2x6/eircc/core/model/IrcModel.java:48 | no label sorts before itself |
| IrcModels.LabelLessTransitive | org.l2x6.eircc.ui/src/org/l2x6/eircc/core/model/IrcModel.java:48 | label order is transitive |
| IrcModels.LabelLessTotal | org.l2x6.eircc.ui/src/org/l2x6/eircc/core/model/IrcModel.java:48 | two labels differ exactly when one sorts before the other, never both ways |
| IrcModels.Lookup | org.l2x6.eircc.ui/src/org/l2x6/eircc/core/model/IrcModel.java:110-112 | TreeMap.get by label: an account with that label, or None when no account has it |
| IrcModels.Put | org.l2x6.eircc.ui/src/org/l2x6/eircc/core/model/IrcModel.java:66 | TreeMap.put adds no account other than the new one |
| IrcModels.PutIsMapUpdate | org.l2x6.eircc.ui/src/org/l2x6/eircc/core/model/IrcModel.java:66 | after put, the label finds the new account and every other label finds what it found before |
| IrcModels.PutKeepsAscending | org.l2x6.eircc.ui/src/org/l2x6/eircc/core/model/IrcModel.java:66 | put keeps the accounts in strictly ascending label order |
| IrcModels.RemoveLabel | org.l2x6.eircc.ui/src/org/l2x6/eircc/core/model/IrcModel.java:232 | removal by label adds no account |
| IrcModels.RemoveLabelIsMapRemoval | org.l2x6.eircc.ui/src/org/l2x6/eircc/core/model/IrcModel.java:232 | after removal the label finds nothing and every other label finds what it found before |
| IrcModels.RemoveLabelKeepsAscending | org.l2x6.eircc.ui/src/org/l2x6/eircc/core/model/IrcModel.java:232 | removal keeps the ascending label order |
| IrcModels.DeliveriesReachEveryListener | org.l2x6.eircc.ui/src/org/l2x6/eircc/core/model/IrcModel.java:96-104 | fire hands the event to every listener, one call each, in registration order |
| IrcModels.FailuresAreTheThrowingListeners | org.l2x6.eircc.ui/src/org/l2x6/eircc/core/model/IrcModel.java:98-102 | exactly the listeners that throw have an exception logged |
| IrcModels.RemoveFirstOfAbsent | org.l2x6.eircc.ui/src/org/l2x6/eircc/core/model/IrcModel.java:237-241 | removing a listener that is not registered leaves the list as it is |
| IrcModels.RemoveFirstDropsFirstOccurrence | org.l2x6.eircc.ui/src/org/l2x6/eircc/core/model/IrcModel.java:237-241 | removal drops exactly the first occurrence and keeps the order of the rest |
| IrcModels.LastIndexOf | org.l2x6.eircc.ui/src/org/l2x6/eircc/core/model/IrcModel.java:188 | String.lastIndexOf: the index of the last occurrence, or -1 when there is none |
| IrcModels.ParseAccountFileName | org.l2x6.eircc.ui/src/org/l2x6/eircc/core/model/IrcModel.java:186-192 | a file name is used only when it ends in the extension and its bare name contains '-'; the uuid is before the last '-' and the label, free of '-', after it |
| IrcModels.AccountFileNameRoundTrip | org.l2x6.eircc.ui/src/org/l2x6/eircc/core/model/IrcModel.java:186-192 | uuid + "-" + label + extension parses back to that uuid and label when the label has no '-' |
| IrcModels.DecimalString | org.l2x6.eircc.ui/src/org/l2x6/eircc/core/model/IrcModel.java:203 | the decimal text of a count is non-empty and made of digits |
| IrcModels.DecimalRoundTrip | org.l2x6.eircc.ui/src/org/l2x6/eircc/core/model/IrcModel.java:203 | the decimal text reads back as the number |
| IrcModels.FirstLatest | org.l2x6.eircc.ui/src/org/l2x6/eircc/core/model/IrcModel.java:215-221 | the pick is created last, and every account before it in label order was created strictly earlier |
| IrcModels.LatestCreated | org.l2x6.eircc.ui/src/org/l2x6/eircc/core/model/IrcModel.java:215-221 | the loop finds the first account in label order among those created last |
| IrcModels.LogCountsAppend | org.l2x6.eircc.ui/src/org/l2x6/eircc/core/model/IrcModel.java:144-158 | the channel counts of one more channel add that channel's count |
| IrcModels.StatisticsOfPrefix | org.l2x6.eircc.ui/src/org/l2x6/eircc/core/model/IrcModel.java:130-160 | the statistics of one more account add that account's counts |
| IrcModels.EachLogCountedOnce | org.l2x6.eircc.ui/src/org/l2x6/eircc/core/model/IrcModel.java:146-157 | every channel with a log is counted in at most one of ME_NAMED or UNREAD_MESSAGES, and channels touch no account-state count |
| IrcModels.EachAccountCountedOnce | org.l2x6.eircc.ui/src/org/l2x6/eircc/core/model/IrcModel.java:131-143 | every account is counted in at most one of ONLINE, OFFLINE or OFFLINE_AFTER_ERROR, and the log counts never exceed the number of channels |
| IrcModels.LogStates | org.l2x6.eircc.ui/src/org/l2x6/eircc/core/model/IrcModel.java:144-146 | one entry per listed channel: its log's state, or none when it has no log |
| IrcModels.Views | org.l2x6.eircc.ui/src/org/l2x6/eircc/core/model/IrcModel.java:130-131 | what the statistics read of each account, one entry per account, in order |
| IrcModels.CountAccount | org.l2x6.eircc.ui/src/org/l2x6/eircc/core/model/IrcModel.java:131-159 | the counting loop for one account equals that account's counts |
| IrcModels.CountAccounts | org.l2x6.eircc.ui/src/org/l2x6/eircc/core/model/IrcModel.java:130-162 | the counting loop over every account equals the statistics of all accounts |
| IrcModels.IrcModel.AddAccount | org.l2x6.eircc.ui/src/org/l2x6/eircc/core/model/IrcModel.java:61-69 | an account of another model is refused with nothing changed; otherwise it is stored under its label, replacing any same-label entry, the cache is nulled and ACCOUNT_ADDED is fired to every listener |
| IrcModels.IrcModel.RemoveAccount | org.l2x6.eircc.ui/src/org/l2x6/eircc/core/model/IrcModel.java:231-235 | as written: handing the account object to the label-keyed TreeMap throws ClassCastException whenever an account is registered (always, when IrcAccount is not Comparable); then nothing changes, the cache is kept and no event is fired; a registered account stays registered |
| IrcModels.IrcModel.RemoveAccountByLabel | org.l2x6.eircc.ui/src/org/l2x6/eircc/core/model/IrcModel.java:231-235 | as intended: the account's label finds nothing afterwards, order is kept, the cache is nulled and ACCOUNT_REMOVED is fired |
| IrcModels.IrcModel.GetAccounts | org.l2x6.eircc.ui/src/org/l2x6/eircc/core/model/IrcModel.java:117-122 | the accounts in ascending label order; a cached array is reused, and it is rebuilt only after it was nulled |
| IrcModels.IrcModel.Dispose | org.l2x6.eircc.ui/src/org/l2x6/eircc/core/model/IrcModel.java:86-91 | the cache is nulled |
| IrcModels.IrcModel.AddModelEventListener | org.l2x6.eircc.ui/src/org/l2x6/eircc/core/model/IrcModel.java:71-76 | a new list with the listener appended |
| IrcModels.IrcModel.RemoveModelEventListener | org.l2x6.eircc.ui/src/org/l2x6/eircc/core/model/IrcModel.java:237-241 | a new list without the listener's first occurrence |
| IrcModels.IrcModel.Fire | org.l2x6.eircc.ui/src/org/l2x6/eircc/core/model/IrcModel.java:96-104 | every registered listener handles the event in order; the exceptions of those that throw are logged and the rest are still called |
| IrcModels.IrcModel.GetAccountsStatistics | org.l2x6.eircc.ui/src/org/l2x6/eircc/core/model/IrcModel.java:124-163 | the per-state counts over every account and every channel log |
| IrcModels.IrcModel.ProposeNextAccount | org.l2x6.eircc.ui/src/org/l2x6/eircc/core/model/IrcModel.java:202-229 | label "Account#(n+1)", the default host and port, the user name, auto-connect; the name and preferred nick come from the account created last (first in label order on ties), and the name only when it is set |
| StyledWrappers.OrderedAppend | org.l2x6.eircc.ui/src/org/l2x6/eircc/ui/misc/StyledWrapper.java:102-108 | a non-empty range at or after the end keeps the ranges ordered, non-overlapping and inside the window |
| StyledWrappers.OrderedWiden | org.l2x6.eircc.ui/src/org/l2x6/eircc/ui/misc/StyledWrapper.java:91-95 | growing the buffer keeps the collected ranges inside the window |
| StyledWrappers.StyledStringWrapper.Append | org.l2x6.eircc.ui/src/org/l2x6/eircc/ui/misc/StyledWrapper.java:39-43 | answers the length before; the token goes at the end and the length grows by its length |
| StyledWrappers.StyledStringWrapper.AppendStyled | org.l2x6.eircc.ui/src/org/l2x6/eircc/ui/misc/StyledWrapper.java:50-57 | nothing for a null or empty token; otherwise the token is appended and exactly its characters are styled, only when a style is given |
| StyledWrappers.StylesCollector.constructor | org.l2x6.eircc.ui/src/org/l2x6/eircc/ui/misc/StyledWrapper.java:78-85 | the initial length is the document's, 0 without a document; nothing is collected |
| StyledWrappers.StylesCollector.Append | org.l2x6.eircc.ui/src/org/l2x6/eircc/ui/misc/StyledWrapper.java:91-95 | answers the previous initialLength + buffer length; the token goes into the buffer; the ranges stay ordered |
| StyledWrappers.StylesCollector.AppendStyled | org.l2x6.eircc.ui/src/org/l2x6/eircc/ui/misc/StyledWrapper.java:102-108 | nothing for a null or empty token, whatever the style; otherwise exactly one range of the token's offset and length is added, and the ranges stay ordered, non-overlapping and within [initialLength, getLength()) |
| StyledWrappers.TextViewerWrapper.Append | org.l2x6.eircc.ui/src/org/l2x6/eircc/ui/misc/StyledWrapper.java:151-160 | the token is inserted at the document's end; the answer is the old length |
| StyledWrappers.TextViewerWrapper.AppendStyled | org.l2x6.eircc.ui/src/org/l2x6/eircc/ui/misc/StyledWrapper.java:167-173 | nothing for a null or empty token, with or without a document or a style; otherwise the token is appended and one style range covering exactly it is set |

## Left out

- I/O and the environment are left out, or become parameters:
  - the document provider's `aboutToChange`, `saveDocument` and `changed`;
  - file listing, and the accounts' `load`, `save` and `dispose`;
  - `UUID.fromString` and `UUID.randomUUID`;
  - `System.getProperty`, `System.currentTimeMillis` and `getRealUserName`;
  - the traffic logger.
- Concurrency is left out: the `synchronized (lock)` blocks of the log and the UI-thread assertions. The flush is modelled as a sequential method.
- The log reader that `load` parses the document with is left out. Its output is the given sequence `stored`, whose messages are appended without events. `IrcLogReaderException` and `IOException` on loading are left out.
- Several collaborators are given as function values:
  - `PlainIrcMessage.write`, `getRecordLenght`, `getLineCount` and `isFromMe` form a `RecordFormat`;
  - the record length is the length of the written text;
  - `fixOffsets` and `IrcMessageReplacer`'s `match`, `createNewMessage` and `createReplacementMessage` form a `Replacer`;
  - the notification level provider is a function of the record.
- The BidiIterator cursors are left out.
- IrcLogs.IrcMessage: the notification level provider's answer is fixed when the message is created, because the model cannot see what the provider depends on.
- The notification levels are ranked NO_NOTIFICATION < UNREAD_MESSAGES < ME_NAMED. IrcNotificationLevel is not part of this model, so any intermediate level it has is left out.
- IrcLogs.InvalidColorIndex: `Colors.INVALID_INDEX` is taken to be -1, because Colors is not part of this model.
- IrcLogs.IrcLog.EnsureAllSaved: a `CoreException` from `saveDocument` is not modelled. The flush is not atomic on failure: when the truncation throws, the markers keep what was set before it, as the source does.
- IrcLogs.IrcLog.ReplaceMessage: `fixOffsets` is an opaque function. No claim is made that the rebuilt records stay contiguous, so the flush lemmas are tied to the log through appends only (AppendMessage).
- The loop of `IrcModel.load` (IrcModel.java:182-200) is left out beyond the file-name split: it lists files and calls `account.load`, which are I/O.
- IrcControllers.IrcController.Dispose: models the program as written. The evidently intended behaviour is DisposeCorrected, which calls QuitAllConnected.
- The event sinks are simple fields:
  - the log's events (NEW_MESSAGE, MESSAGE_REPLACED, LOG_STATE_CHANGED) are recorded in a sequence on the log rather than delivered through the model;
  - IrcModel.java and IrcLog.java use event types from different revisions, so the two kinds of event are kept apart.
- Listener reentrancy is left out: a listener that changes the model while handling an event.
- IrcControllers.IrcController.GetClientOrConnect: what a successful `connect` does to the account's state belongs to IrcClient and IrcAccount, which are not part of this model. Only the failure path (`setOffline`) is modelled.
- IrcControllers.IrcController.GetOrCreateP2pChannel: a new p2p channel is named after the peer's nick. `createP2pChannel` is not part of this model.
- IrcControllers.IrcController.QuitAll: the clients are visited as the set of registered clients. QuitAll, QuitAllConnected, Dispose and DisposeCorrected require `Valid`, which makes them distinct, so each is visited once, but the HashMap iteration order is not modelled.
- `connect` (IrcController.java:51-54) only calls `getClientOrConnect` and is covered by GetClientOrConnect. Some operations are not modelled:
  - `listChannels` and `getAccountChannel`, which are not part of the named core;
  - `resolveNicks`, an empty stub.
- IrcUtils.GetInitialCommand: upper-casing in the English locale covers ASCII letters only. `IRCCommand.fastValueOf` is membership in an abstract set of upper-case names.
- IrcModels.LabelLess: compares characters as Unicode scalar values. `String.compareTo` compares UTF-16 code units, which differs only for characters outside the Basic Multilingual Plane.
- IrcModels.IrcModel.RemoveAccount: whether IrcAccount implements Comparable is not known, because its source is not part of this model. It is the parameter `accountComparable`. The model takes the Comparable case to have a `compareTo` that throws when handed a String label, as the bridge method of a `Comparable<IrcAccount>` does.
- IrcModels.IrcModel.ProposeNextAccount: `IrcUiMessages.Account`, `IrcClient.DEFAULT_PORT`, the id, the clock, the user name and the real user name are parameters. A real name that cannot be read is None.
- IrcModels.ParseAccountFileName: `IrcAccount.FILE_EXTENSION` is a parameter. The `isFile` test and the UUID syntax check are left out.
- StyledWrappers.StyledStringWrapper.AppendStyled: `StyledString.setStyle` is recorded as a list of requests. The styler is an opaque style.
- StyledWrappers.StylesCollector.AppendStyled: a non-empty token with a null style throws NullPointerException in the source. The model requires a style in that case only.
- StyledWrappers.TextViewerWrapper.Append: a viewer without a document throws NullPointerException in the source. The model requires a document.
- StyledWrappers.TextViewerWrapper.AppendStyled: a non-empty token without a document or a style throws NullPointerException in the source. The model requires both in that case only.
- `StylesCollector.apply` is left out, because it writes to the SWT widget and prints timing output.
- The account, server, user and channel classes are stand-ins with only the state the core touches (module IrcEntities). Their own source is not part of this model. The stand-in `findChannel` and `findP2pChannel` search only the listed channels, so the case of a channel found but not listed does not arise in GetOrCreateAccountChannel and GetOrCreateP2pChannel.

## Findings

| source | as written | input that shows it | evidently intended | confidence | as-written member | corrected member |
|---|---|---|---|---|---|---|
| org.l2x6.eircc.ui/src/org/l2x6/eircc/core/model/IrcLog.java:189 | the document is cut only when `firstUpdatedMessageIndex < lastSavedMessageIndex` | a log of one saved record "old" that is replaced by "new" (lastSaved = firstUpdated = 0); the flush leaves "old" in the document and keeps the marker | `<=`, so a replaced last-saved record is rewritten too | not executed | IrcRecords.FlushAsWrittenKeepsStaleRecord | IrcRecords.FlushCorrectedWritesAll |
| org.l2x6.eircc.ui/src/org/l2x6/eircc/core/IrcController.java:202 | `quitAndClose` is called on clients that are NOT connected, and dispose calls this quitAll | one registered client that is connected: quitAll, and so dispose, leave it connected | quit every client that is connected (QuitAllConnected, and DisposeCorrected through it) | not executed | IrcControllers.IrcController.QuitAll | IrcControllers.IrcController.QuitAllConnected |
| org.l2x6.eircc.ui/src/org/l2x6/eircc/core/model/IrcModel.java:232 | `accounts.remove(account)` passes the account object to a map keyed by label | removing any registered account: TreeMap.remove throws ClassCastException, so the account stays, the cache is kept and ACCOUNT_REMOVED is never fired | `accounts.remove(account.getLabel())` | not executed | IrcModels.IrcModel.RemoveAccount | IrcModels.IrcModel.RemoveAccountByLabel |
