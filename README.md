# Custos moderation bot: the persistence layer and its helpers, in Dafny

Custos is a Discord moderation bot. It has no database. It keeps three dictionaries in memory:
- per-server, per-user warning lists;
- per-server punishment records;
- per-server settings.

It saves them as JSON messages posted to a Discord channel, and rebuilds them from that channel's recent history when it restarts. This project models that layer and proves properties of it:

- **Saving** (`save_database`, module `Envelope`).
  - A short document is posted as one fenced message.
  - A longer one is cut into 1900-character slices, each posted as a numbered "Part i/n" message.
- **Debouncing** (`batch_save_database`, module `SaveScheduler`). A pending flag and the time of the last save. A request made while one is pending does nothing. A save runs only when the last one is at least 30 seconds old.
- **Loading** (`load_database`, modules `Reconstruct` and `SnapshotCodec`, and the class `Store.ModerationState`).
  - Only the bot's own messages among the last 50 are considered, newest first.
  - The first single message holding a snapshot is loaded.
  - Failing that, every part message is joined in part-number order.
  - Failing that, the store starts empty.
  - Decoding is defensive, entry by entry.
- **The store** (`get_user_warnings`, `add_warning`, `add_punishment`, `/clearwarnings`, `/setlogchannel`, class `Store.ModerationState`), and the sweep that lifts expired temporary bans (`check_temporary_bans`).
- **Text helpers** (module `Durations`): `parse_duration`, `format_duration_friendly`, `get_warning_level_emoji`.
- **AI moderation state** (module `AiModeration`, class `AIModeration`):
  - the per-guild config map;
  - the per-user two-second rate limit;
  - the choice of rules text in `analyze_server_rules`;
  - the code-fence clean-up of the model's reply.

Discord, JSON text and the clock become parameters:
- A channel's history is a sequence of `(author, createdAt, content)` messages.
- A save is the list of strings it posts.
- `json.loads` is an arbitrary partial function `string -> Option<Json>` onto an abstract JSON value.
- `datetime.fromisoformat` is an arbitrary function onto instants in seconds.
- The outcome of `guild.unban` is a parameter.

Python's dict iteration order is left to the methods that iterate: they return the order they used, and their contracts hold for every order.

The model follows the code, including where it departs from what a storage layer of this kind would be expected to do:
- A single-message snapshot anywhere among the candidates is loaded in preference to a newer multi-part save.
- Part messages are not grouped by save. Their completeness is not checked, and the total in "Part i/n" is never used. Parts with equal numbers keep their newest-first order.
- Each part's extracted text keeps the newline the envelope puts at each end of the slice (see "## Findings").
- Clearing a user's warnings deletes the entry rather than storing an empty list.
- The hash written with a save is never checked on load.
- An `AIModeration` built without an API key never creates its two dictionaries. Every later call that touches them fails. The model returns `false`/`None` for these calls.

## Model

| member | source | states |
|---|---|---|
| Envelope.ChunkProperties | main.py:317-319 | a document longer than 1900 characters is cut into ceil(len/1900) >= 2 non-empty slices of at most 1900, all but the last exactly 1900, which concatenate back to the document |
| Envelope.ChunksConcat | main.py:319 | the slices of any document concatenate back to it |
| Envelope.SingleMessageRoundTrip | main.py:145-147 | the single-message envelope of main.py:338 gives back the document whenever the document has no surrounding whitespace |
| Envelope.PartMessageIsNotSingle | main.py:145 | a part message (it starts with "**Part") never passes the single-message test |
| Envelope.MarkerOfPartMessage | main.py:212-215 | the marker search on the message for slice i of n yields (i+1, n) |
| Envelope.FragmentOfPartMessage | main.py:217-220 | extraction from a part message yields its slice with a newline at each end |
| Envelope.PartOfPartMessage | main.py:210-221 | a part message is recognised and yields (i+1, "\n" + slice + "\n") |
| Envelope.EmptyMessageIsIgnored | main.py:142-143 | the text-less message posted before the parts is neither a snapshot nor a part |
| SnapshotCodec.DecodeKeyedKeys | main.py:172-180 | a decoded map has a key exactly when some entry's key is accepted by int() and its value has the expected type |
| SnapshotCodec.DecodeKeyedLastWins | main.py:174-178 | when two keys spell the same int, the last usable entry gives the value |
| SnapshotCodec.SkipsUnusable | main.py:175-180 | an entry with a bad key or a value of the wrong type is skipped and leaves everything decoded so far unchanged |
| SnapshotCodec.IntKeysReload | main.py:156-158 | every int key that json.dumps writes as a string reads back through int() as the same int |
| SnapshotCodec.DecodeFields | main.py:174-178 | serialising an int-keyed map in any iteration order and decoding it gives the same map |
| SnapshotCodec.DecodeSerialised | main.py:301-311 | decoding a saved document, whatever its metadata, restores all three maps exactly |
| SnapshotCodec.WarningsReload | main.py:154-170 | the warnings section reloads as the saved two-level map |
| Text.ParseIntOfIntToString | main.py:158 | int() of str(k) is k for every integer k |
| Reconstruct.RecentHistory | main.py:135 | the history read is the last min(50, n) messages, newest first |
| Reconstruct.CandidatesAreOwn | main.py:135-137 | the candidates are exactly the bot's own messages among those read |
| Reconstruct.CandidatesNewestFirst | main.py:139 | the candidates are ordered by creation time, newest first |
| Reconstruct.CandidatesKeepReadOrder | main.py:139 | candidates with the same creation time keep the order they were read in (the sort is stable) |
| Reconstruct.FirstSnapshotAt | main.py:141-196 | the first candidate that holds a snapshot is the one loaded |
| Reconstruct.FirstSnapshotNone | main.py:141-203 | no single-message snapshot is found exactly when no candidate holds one |
| Reconstruct.FirstSnapshotIgnoresOlder | main.py:196 | once a snapshot is found, no older message is consulted |
| Reconstruct.SingleSnapshotWins | main.py:141-205 | any single-message snapshot among the candidates is loaded ahead of every part message |
| Reconstruct.EmptyWhenNothingDecodes | main.py:122-127 | a missing channel, a read that raised, or a history holding nothing decodable leaves all three maps empty |
| Reconstruct.ReassembleAnyOrder | main.py:226-228 | whatever order the parts were gathered in, they are joined in part-number order |
| Reconstruct.EqualNumbersKeepOrder | main.py:227 | parts with the same number, from different saves, keep their newest-first order |
| Reconstruct.LonePartIsReassembled | main.py:226-228 | a lone part is accepted without any completeness check |
| Reconstruct.TotalIsIgnored | main.py:215 | the total in "Part i/n" does not affect what a part message yields |
| Reconstruct.GatherPosted | main.py:207-224 | the messages of one multi-part save, read in posting order, yield parts 1..n with their padded slices |
| Reconstruct.PaddedRejoinIsNotTheDocument | main.py:217-228 | as written, a multi-part save rejoins to a text 2n characters longer than the document it saved |
| Reconstruct.UnpaddedRejoinIsTheDocument | main.py:332 | with the envelope's newlines taken off, the parts of a save in any order rejoin to exactly the saved document |
| Reconstruct.SaveThenLoadSingle | main.py:116-196 | after saving a short document newer than every message in the channel, loading restores the saved maps |
| Reconstruct.SaveThenLoadParts | main.py:205-233 | after a multi-part save, with no older own message holding a snapshot or part, loading gives the parse of the padded rejoining; the corrected loader gives back the saved maps |
| Store.UserEntryChangesNoWarnings | main.py:45-51 | get_user_warnings creates both entry levels and changes no warning list |
| Store.WarningAppended | main.py:53-59 | add_warning appends at the end of that user's list and changes no other list |
| Store.PunishmentAppended | main.py:61-65 | add_punishment appends at the end of that server's list and changes no other list |
| Store.ClearRemovesOnlyThatUser | main.py:1035-1037 | clearing deletes that user's entry only, and a later lookup finds an empty list |
| Store.LogChannelSet | main.py:1062-1065 | setting the log channel sets that key of that server and nothing else |
| Store.ModerationState.constructor | main.py:39-41 | the store starts with all three maps empty |
| Store.ModerationState.GetUserWarnings | main.py:45-51 | returns the user's list, empty for unknown ids, and creates the entries it looked up |
| Store.ModerationState.AddWarning | main.py:53-59 | the warnings map becomes the one with the record appended; the other maps are unchanged |
| Store.ModerationState.AddPunishment | main.py:61-65 | the punishments map becomes the one with the record appended; the other maps are unchanged |
| Store.ModerationState.ClearWarnings | main.py:1035-1037 | deletes the entry and returns how many warnings it held, or nothing when there was no entry |
| Store.ModerationState.SetLogChannel | main.py:1062-1065 | the settings map becomes the one with "log_channel_id" set |
| Store.ModerationState.FillFrom | main.py:153-190 | filling the emptied maps from a snapshot object leaves exactly its defensive decoding |
| Store.ModerationState.FillWarnings | main.py:156-170 | the server loop leaves exactly the decoded warnings section |
| Store.ModerationState.FillUsers | main.py:161-168 | the user loop stores exactly the decoded users under the server just created |
| Store.ModerationState.FillPunishments | main.py:172-180 | the punishment loop leaves exactly the decoded punishments section |
| Store.ModerationState.FillSettings | main.py:182-190 | the settings loop leaves exactly the decoded settings section |
| Store.ModerationState.Load | main.py:116-291 | the three maps end as the loader's result for what the channel returned |
| Store.LocateSnapshot | main.py:133-224 | returns the fields the loader decodes: the first whole snapshot among the bot's messages, newest first, else the parts put back together when they parse as a snapshot, else none |
| Store.CollectOwn | main.py:135-137 | collects exactly the bot's own messages, in read order |
| Store.ScanForSnapshot | main.py:141-203 | returns the first candidate's snapshot, or none |
| Store.CollectParts | main.py:207-224 | collects exactly the part messages, in candidate order |
| Store.OnlyExpiredBansResolve | main.py:1090-1103 | a record is resolved only if it is a ban, not yet unbanned, with an expiry that parsed to an instant no later than now |
| Store.ResolvedStaysResolved | main.py:1109-1110 | resolving sets "unbanned" and "unbanned_at", keeps every other field, and a resolved record is skipped by every later sweep |
| Store.SweepRecordsChanges | main.py:1090-1136 | a sweep changes only records it resolved, exactly as resolution says |
| Store.AbortSticks | main.py:1100-1136 | once an exception escapes the loop (a record that is not an object, a naive expiry time, an unexpected unban error), the records after it are left alone; the whole sweep ends there, and with it the loop task, so no later sweep runs until `on_ready` starts it again |
| Store.SweepKeepsServers | main.py:1085-1089 | the sweep keeps the set of servers with punishments, and leaves untouched the list of every server the bot has left or the order does not name |
| Store.ModerationState.SweepInOrder | main.py:1085-1089 | the outer loop leaves the punishments, the saves requested and the abort flag as `SweepServers` computes for the order given; warnings and settings are unchanged |
| Store.ModerationState.SweepTemporaryBans | main.py:1080-1138 | visits every server once, in the order it returns, and leaves the punishments as `SweepServers` computes for that order, with the verdicts `VerdictOf` gives; warnings and settings are unchanged |
| Store.ModerationState.SweepServer | main.py:1090-1136 | the inner loop over one server's list leaves it, the saves requested and the abort flag as `SweepRecords` computes over the whole list |
| SaveScheduler.Woken | main.py:110-114 | after the sleep the flag is always cleared; a save runs only if the last one is at least 30 seconds old, and only then is the last-save time updated |
| SaveScheduler.RequestWhilePending | main.py:106 | a request made while a save is pending changes nothing and starts nothing |
| SaveScheduler.RequestWhenIdle | main.py:106-107 | otherwise a request sets only the flag and starts a task |
| SaveScheduler.RequestsCoalesce | main.py:102-108 | any number of requests in a row start one task and save nothing |
| SaveScheduler.BurstSavesOnce | main.py:102-114 | a burst of requests followed by the wake-up saves at most once, and exactly once when the last save is old enough |
| SaveScheduler.LastSaveIsLatestFinish | main.py:112 | the last-save time is the finish time of the latest save, or the initial value |
| SaveScheduler.SavesAreSpaced | main.py:110 | every save starts at least 30 seconds after the previous one finished |
| SaveScheduler.Scheduler.RequestSave | main.py:106-108 | the flag and the answer are those of `Requested`, so a request while pending does nothing (RequestWhilePending) |
| SaveScheduler.Scheduler.WakeAndSave | main.py:110-114 | the state becomes that of `Woken`: flag cleared, a save (and a new last-save time) only when the last one is 30 seconds old |
| Durations.WarningLevelEmoji | main.py:67-76 | the emoji is one of green, yellow, orange, red |
| Durations.WarningLevels | main.py:67-76 | red exactly for counts other than 0, 1 and 2, which each get their own colour |
| Durations.ParseDuration | main.py:355-378 | empty text gives no duration; a parsed duration is a whole number of minutes below the `timedelta` bound of 10^9 days |
| Durations.ParseDurationText | main.py:360-370 | every duration written as optional days, hours and minutes parses to its number of seconds, or raises `OverflowError` once that reaches 10^9 days |
| Durations.OverflowBound | main.py:366-370 | "1000000000d" raises `OverflowError` and "999999999d" is accepted |
| Durations.FallbackIsCovered | main.py:372-377 | whatever the simple pattern accepts, the first pattern has already accepted with the same value |
| Durations.NoDigitsNoDuration | main.py:364 | text without digits never parses |
| Durations.FriendlyNamesTheParsedGroups | main.py:86-100 | for every written duration the friendly text names exactly the parsed groups, with plurals, joined by ", " |
| Durations.FriendlyWithoutDigits | main.py:80-100 | text without digits comes back unchanged, except "permanent", which becomes "Permanent" |
| AiModeration.AIModeration.constructor | ai_moderation.py:14-36 | without an API key the module is disabled and holds no state |
| AiModeration.AIModeration.IsAiEnabled | ai_moderation.py:38-42 | false whenever the module is disabled or the guild has no entry, otherwise the guild's flag |
| AiModeration.EnablingKeepsRules | ai_moderation.py:44-48 | enabling creates the default entry if absent and changes only that guild's flag, keeping its rules and analysed mark |
| AiModeration.AIModeration.SetAiEnabled | ai_moderation.py:44-48 | the config becomes the one with the flag set, or the call fails when the module holds no state |
| AiModeration.StoringRulesKeepsEnabled | ai_moderation.py:103-107 | storing rules creates the default entry if absent, sets the rules and the analysed mark, and keeps the flag |
| AiModeration.AIModeration.AnalyzeServerRules | ai_moderation.py:51-109 | returns the chosen rules text and stores it for the guild, or fails when the module holds no state |
| AiModeration.RulesChannelChoice | ai_moderation.py:62-70 | the rules channel is a readable channel with "rule" in its name, the first named "rules" or "server-rules" if any, and none only when no channel qualifies |
| AiModeration.ChannelMessagesFirst | ai_moderation.py:76-80 | when the rules channel has a message with content, its messages with content, oldest first and joined by blank lines, are the rules |
| AiModeration.DescriptionSecond | ai_moderation.py:86-87 | otherwise a non-empty guild description is the rules |
| AiModeration.DefaultLast | ai_moderation.py:91-100 | otherwise the built-in default rules are used |
| AiModeration.CooldownDecides | ai_moderation.py:210-216 | a check less than 2 seconds after the last one is refused and records nothing; any other is allowed and records now |
| AiModeration.UnseenUser | ai_moderation.py:210 | a user never checked counts as last checked at time 0 |
| AiModeration.CheckIsLocal | ai_moderation.py:204-216 | a check changes no other user's or guild's recorded time |
| AiModeration.SecondCheckRefused | ai_moderation.py:212-215 | of two checks on the same user less than 2 seconds apart, the second is refused |
| AiModeration.AIModeration.ShouldCheckMessage | ai_moderation.py:204-216 | answers and updates the cooldown map as `Checked` does (see CooldownDecides and CheckIsLocal), or fails when the module holds no state |
| AiModeration.FencedJsonReply | ai_moderation.py:167-177 | a reply fenced as "```json" gives back its body, stripped |
| AiModeration.FencedReply | ai_moderation.py:172-177 | a reply fenced with a bare "```" gives back its body, stripped |
| AiModeration.UnfencedReply | ai_moderation.py:167-177 | a reply with no fence and no surrounding whitespace is unchanged |

## Left out

- Discord I/O is not modelled: sending, reading history, embeds, DMs, bans and timeouts, presence, command registration. History is an input sequence and a save is the list of strings it posts. A send that fails part-way is a number of delivered messages.
- JSON text is not modelled. `json.dumps` output is an uninterpreted document text, and `json.loads` is an arbitrary partial function onto the abstract JSON value. The round trips assume it reads back what was serialised.
- The md5 hash and the contents of the metadata are left out. The hash is only displayed; the metadata is an arbitrary JSON value.
- Dates and times are integer seconds. `datetime.fromisoformat` is a parameter returning an instant, a malformed text, or a naive time that cannot be compared. `isoformat()` of the sweep time is an input text.
- Concurrency is not modelled. The `asyncio` tasks, the 5-second sleep and the 5-minute loop become explicit request and wake-up steps, so the sleep's length plays no part. The model covers one sweep: an exception escaping it also stops the `tasks.loop` (main.py:1080) until `on_ready` calls `start()` again (main.py:1156), and that restart is not modelled.
- Python's Unicode behaviour is reduced to ASCII: `str.lower()`, `\d` and `int()` handle ASCII letters and digits only, and `int()`'s 4300-digit limit is left out.
- The Gemini call, the prompt, the JSON parsing of the reply and `handle_violation` are left out: they are an external service and Discord output.
- Logging and embed wording are left out.
- AiModeration.AIModeration.AnalyzeServerRules: only `Forbidden` is modelled as a failed read of the rules channel; other exceptions from the history read would propagate out of the call.
- AiModeration.AIModeration.ShouldCheckMessage: the clock reading is a parameter in seconds, a real number as `time.time()` returns.
- Durations.ParseDuration: its own contract states only the range of the result. Exact values, and the overflow, are stated by Durations.ParseDurationText, Durations.OverflowBound and Durations.NoDigitsNoDuration.
- JSON numbers are integers or floats, and a float is an exact real. NaN, the infinities and floating-point rounding are not represented. No member reads a float: the loader ignores the metadata that holds `save_timestamp`, and a float `unbanned` flag is only tested for truth.

## Findings

| source | as written | input that shows it | evidently intended | confidence | as-written member | corrected member |
|---|---|---|---|---|---|---|
| main.py:217-228 | each part's text is taken from just after "```json" to the last "```", so it keeps the newline the envelope of main.py:332 adds on each side of the slice. Joining the parts inserts two characters per part into the document. | any document longer than 1900 characters: the rejoined text is 2n characters longer. A slice boundary inside a JSON string puts a raw newline in that string, so `json.loads` rejects it and the load starts empty. | the parts rejoin to exactly the saved document | not executed; high that the text differs, medium that real saves fail to load | Reconstruct.PaddedRejoinIsNotTheDocument | Reconstruct.UnpaddedRejoinIsTheDocument |
