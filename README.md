# TuxTwitchTalker message dispatcher in Dafny

A model of the chat-message core of TuxTwitchTalker, a Twitch chat bot written in JavaScript.
Every chat line the bot receives goes through `onMessageHandler`, which runs these steps in order:

1. It drops messages from ignored users.
2. It sanitises the text and splits it into pieces.
3. It greets a user the first time it sees them this session.
4. It routes a `!!` message to the admin commands and any other `!` message to the user commands.
5. It runs four scans over the message: forbidden phrases, triggered messages, random-line commands and GIPHY image links.

The model is made of seven modules:

- `Wrappers`: `Option`, plus `Outcome`, which is a value or a thrown exception.
- `Text`: the JavaScript string operations the bot uses. These are the character filter and `trim`, `split(/(\s+)/)`, `split(c)`, `split(/\r?\n/)`, first-occurrence `replace`, `includes`, `toLowerCase` and integer `Number`/`toString`.
- `Names`: the two name sanitisers, `getCounterName` and `getAudioFileName`.
- `Settings`: the configuration as a typed value, the feature flags, and the choice of greeting by a priority of configuration keys.
- `Responder`: the templating in `sendChat` and `playMedia`.
- `Commands`: the pure meaning of every step of the dispatcher. For each step it says what the step emits and how it changes state, as a function of the configuration, the flags and the message.
- `Dispatch`: the class `Bot`. Its fields are the process state:
  - the configuration and the flags;
  - the seen-users list;
  - the counter files and the first-time-chatter ledger file;
  - every `client.say` line;
  - every media action;
  - the popup page;
  - the reactions waiting on `setTimeout`;
  - the live `setInterval` registrations and their handle list;
  - whether the process exited.

  Its methods carry out the steps statement by statement. They are proved against the `Commands` functions, and the class invariant `Valid` keeps the periodic timers in step with their handle list.

Regular expressions that come from the configuration are an oracle, `matcher(pattern, text)`. It returns the whole match followed by the groups, or nothing. `Math.random` becomes a draw:
- methods draw an index with `:|`;
- the functions that specify them take the drawn index as a parameter.

A greeting whose lookup throws (a missing `default`, `default_mod` or `default_vip` entry) is modelled as an exception. It abandons the rest of the handler, as it does in the code.

The bot greets through the corrected media lookup, `Settings.GreetingMedia` (see "## Findings"). The code as written, `Settings.GreetingMediaAsWritten`, throws for every VIP who reaches its VIP branch. `Settings.GreetingMediaAsWrittenVersusCorrected` proves that this is the only place where the two lookups differ.

## Model

| member | source | states |
|---|---|---|
| Text.Filter | TuxTwitchTalker.js:145 | the character filter keeps only characters that pass the test, in order, and never lengthens the text; a one-character text is kept exactly when it passes |
| Text.FilterIdempotent | TuxTwitchTalker.js:145 | filtering a second time changes nothing |
| Text.FilterConcat | TuxTwitchTalker.js:145 | filtering works character by character: the filter of a concatenation is the concatenation of the filters, so exactly the characters outside the class are removed |
| Text.Trim | TuxTwitchTalker.js:145 | `trim` gives a slice of the text with only white space before and after it, and no white space at either end of the slice; an already trimmed text is left alone |
| Text.Sanitize | TuxTwitchTalker.js:145 | the command text holds only characters 0x20-0x7E; it is the filtered message with only white space cut from each end, and has no leading or trailing space |
| Text.Tokenize | TuxTwitchTalker.js:147 | `split(/(\s+)/)` gives an odd number of pieces, at least one |
| Text.TokenizeConcat | TuxTwitchTalker.js:147 | the pieces joined back in order are exactly the command text |
| Text.TokenizeAlternates | TuxTwitchTalker.js:147 | the pieces alternate between words and runs of white space |
| Text.TokenizeShape | TuxTwitchTalker.js:147 | even-index pieces hold no white space; odd-index pieces are non-empty runs of white space |
| Text.TokenizeWords | TuxTwitchTalker.js:145-147 | for a trimmed non-empty text, the word pieces are all non-empty |
| Text.TokenizeTrimmed | TuxTwitchTalker.js:145-147 | on a trimmed non-empty command text, every even-index piece is non-empty |
| Text.Split | TuxTwitchTalker.js:186 | `split(" ")` gives at least one piece, no piece holds the separator, and there are two or more pieces exactly when the separator occurs |
| Text.JoinSplit | TuxTwitchTalker.js:186 | joining the pieces of `split` with the separator gives the text back |
| Text.SplitLines | TuxTwitchTalker.js:654 | `split(/\r?\n/)` gives at least one line, and no line holds a newline |
| Text.StripCRs | TuxTwitchTalker.js:654 | every line but the last loses a final `\r`; the last line, which no `\n` ends, is kept whole |
| Text.SplitLinesJoin | TuxTwitchTalker.js:654 | for a text without CR characters, the lines joined with `\n` give the text back |
| Text.SplitLinesLastLine | TuxTwitchTalker.js:654 | a text without `\n` is one line, even when it ends with `\r` |
| Text.SplitLinesCRLF | TuxTwitchTalker.js:654 | a CRLF ending is removed together with its `\n` |
| Text.IndexFrom | TuxTwitchTalker.js:635 | the search finds the first occurrence at or after a position, and reports none only when there is none |
| Text.IndexOf | TuxTwitchTalker.js:635 | `includes`/`indexOf` finds an occurrence exactly when one exists, and it is the first one |
| Text.ReplaceFirstSpec | TuxTwitchTalker.js:552 | a string-pattern `replace` leaves text without the pattern alone, and splices the replacement in at the first occurrence |
| Text.ReplaceFirstAt | TuxTwitchTalker.js:552 | with the first occurrence at `i`, the result is the text before `i`, then the replacement, then the text after the pattern |
| Text.ReplaceFirstSplice | TuxTwitchTalker.js:558 | replacing in `pre + p + post` yields `pre + rep + post` when `pre` cannot start the pattern |
| Text.ReplaceFirstPrefix | TuxTwitchTalker.js:552 | a text that starts with the pattern has just that occurrence replaced |
| Text.ToLower | TuxTwitchTalker.js:140 | `toLowerCase` keeps the length and lower-cases each character (ASCII) |
| Text.NatToString | TuxTwitchTalker.js:758 | `toString` of a natural number is a non-empty string of digits |
| Text.DigitsOfNat | TuxTwitchTalker.js:758 | the digits written for a number read back as that number |
| Text.ParseIntToString | TuxTwitchTalker.js:751-758 | `Number(value.toString())` gives back every integer the counter file stores |
| Text.ParseNumber | TuxTwitchTalker.js:365-369 | `Number` of a digit string is its decimal value (0 for the empty string), a leading `-` negates it, and NaN only comes from a text with a non-digit |
| Names.CounterName | TuxTwitchTalker.js:767-770 | `getCounterName` keeps only `[a-zA-Z0-9_-]` |
| Names.CounterNameIdempotent | TuxTwitchTalker.js:767-770 | applying `getCounterName` twice changes nothing |
| Names.AudioFileName | TuxTwitchTalker.js:772-774 | `getAudioFileName` keeps only `[.a-zA-Z0-9_-]`, so no `/` |
| Names.StripAudioServed | TuxTwitchTalker.js:773 | the first replacement strips a leading `/audio/` and nothing more |
| Names.StripDirectoriesNoSlash | TuxTwitchTalker.js:773 | the directory-stripping replacement leaves a name without `/` unchanged |
| Names.AudioFileNameRoundTrip | TuxTwitchTalker.js:772-782 | the name `playMedia` publishes resolves to itself when it is served back as `/audio/<name>` |
| Settings.Choose | TuxTwitchTalker.js:541-548 | a drawn entry of a list is an element of the list; a plain string is used as it is |
| Settings.ChooseAt | TuxTwitchTalker.js:543-545 | a draw in range picks that very element |
| Settings.PeriodicEntry | TuxTwitchTalker.js:404-408 | the periodic message looked up by key is the configured entry with that key |
| Settings.FirstWithChat | TuxTwitchTalker.js:497-505 | the key found is the first of the candidates whose entry has CHAT; with none, no candidate has CHAT |
| Settings.FirstWithChatWhen | TuxTwitchTalker.js:497-505 | a candidate that is only consulted under a condition (mod, VIP, first-timer) is skipped when the condition is false |
| Settings.GreetingChat | TuxTwitchTalker.js:497-509 | the greeting chat throws only without a `default` entry, is the user's own CHAT when they have one, and is always some configured entry's CHAT |
| Settings.GreetingChatByPriority | TuxTwitchTalker.js:497-508 | the greeting chat is the CHAT of the first key with one in the order own name, `default_mod` (mods), `default_vip` (VIPs), `first_time_chatter` (first-timers), else `default`'s; a missing `default` throws |
| Settings.VipMediaThrowsAsWritten | TuxTwitchTalker.js:518 | as written, a VIP without their own media, with a `default_vip` media configured, makes the greeting throw |
| Settings.GreetingMediaAsWritten | TuxTwitchTalker.js:513-523 | as written, a VIP without their own truthy MEDIA (and not a moderator with a truthy `default_mod` MEDIA) makes the media lookup throw; for anyone else, and whenever it does not throw, it agrees with the corrected lookup |
| Settings.GreetingMedia | TuxTwitchTalker.js:513-523 | the corrected greeting media: the user's own truthy MEDIA when there is one, `default_vip`'s for a VIP who has none, and always some configured entry's; it throws only when a needed `default`, `default_mod` or `default_vip` entry is missing |
| Settings.VipMediaCorrected | TuxTwitchTalker.js:518 | with the lookup corrected, the VIP gets the `default_vip` media, where the code as written throws |
| Settings.FirstWithMedia | TuxTwitchTalker.js:514-521 | the key found is the first candidate that offers media; with none, no candidate does |
| Settings.GreetingMediaByPriority | TuxTwitchTalker.js:513-523 | with no needed entry missing, the corrected greeting media is that of the first candidate in the order own name, `default_mod` (mods), `default_vip` (VIPs), each with a truthy MEDIA, `first_time_chatter` (first-timers) with any MEDIA key; else `default`'s truthy MEDIA; else none |
| Settings.GreetingMediaAsWrittenVersusCorrected | TuxTwitchTalker.js:513-523 | the lookup as written throws exactly where a VIP reaches the VIP branch, and elsewhere equals the corrected lookup |
| Responder.ChatLines | TuxTwitchTalker.js:540-564 | `sendChat` sends at most one line; it sends one exactly when the target and the message are non-empty, and a drawn line comes from the list |
| Responder.MediaPositionalNoOp | TuxTwitchTalker.js:592-596 | the positional loop of `playMedia` replaces `_<file>_` inside `file`, which can never occur, so it changes nothing |
| Responder.MediaEffects | TuxTwitchTalker.js:577-621 | `playMedia` takes one action exactly when the media is non-empty and a sink (audio path or player command) is configured; a published audio name has no `/` |
| Responder.PositionalOneCapture | TuxTwitchTalker.js:557-559 | with one non-empty capture, the positional loop replaces the first `_1_` and stops |
| Responder.RenderOneCapture | TuxTwitchTalker.js:551-559 | the rendered line replaces the first USERNAME and then the first `_1_` |
| Responder.RenderExample | TuxTwitchTalker.js:551-559 | "…USERNAME…_1_…" with captures ["", c] for a user gives the name and `c` in place |
| Responder.RenderFirstUsernameOnly | TuxTwitchTalker.js:551-553 | only the first USERNAME is replaced |
| Responder.PositionalStops | TuxTwitchTalker.js:557 | from an index whose capture is missing or empty, the positional loop replaces nothing |
| Responder.PositionalIgnoresLater | TuxTwitchTalker.js:555-559 | captures after the first missing or empty one are never used |
| Responder.RenderStopsAtEmptyCapture | TuxTwitchTalker.js:551-559 | for any user name, when capture `k` is missing or empty only `_1_` to `_{k-1}_` are filled in: rendering with all captures equals rendering with the first `k`; with no first capture only USERNAME is replaced |
| Responder.RenderReexpandsUserName | TuxTwitchTalker.js:551-559 | a user name containing `_1_` is itself expanded by the positional loop |
| Commands.GreetingShoutOut | TuxTwitchTalker.js:529-531 | at most one shout-out, due in 5000 ms, scheduled exactly when the user's own greeting entry has SHOUTOUT |
| Commands.GreetingReaction | TuxTwitchTalker.js:494-533 | `greetUser` with the corrected media lookup emits nothing without GREETINGS or with the greetings flag off; otherwise at most one chat line, one media action and one shout-out (the user's own); no media or shout-out when it throws |
| Commands.GreetingThrows | TuxTwitchTalker.js:494-523 | the greeting throws only with greetings on and a needed `default`, `default_mod` (mods) or `default_vip` (VIPs) entry missing; a plain user with no CHAT of their own and no `default` entry does make it throw |
| Commands.GreetingShoutOutOnlyOwnEntry | TuxTwitchTalker.js:529-531 | a greeting that goes through schedules a shout-out exactly when the user's own entry has SHOUTOUT |
| Commands.GreetingChatLine | TuxTwitchTalker.js:497-509 | the greeting line sent is the rendered CHAT of the first key in priority order, and none when that CHAT is empty |
| Commands.SeenAfter | TuxTwitchTalker.js:319-333 | a non-broadcaster whose lower-cased name is not yet seen is appended once; otherwise the list is unchanged |
| Commands.SeenOnce | TuxTwitchTalker.js:331-338 | after one message a user is no longer new, and a second message leaves the list unchanged |
| Commands.LedgerAfter | TuxTwitchTalker.js:632-641 | a name not contained in the ledger (or no ledger file) appends `name\n`; a contained one leaves it alone |
| Commands.LedgerRemembers | TuxTwitchTalker.js:632-641 | after a check the name is in the ledger, so a second check says "not first time" |
| Commands.SecondWord | TuxTwitchTalker.js:186 | `split(" ")[1]` holds no space |
| Commands.ParseAdmin | TuxTwitchTalker.js:177-208 | the admin chain: each of `!!clearSeen`, `!!exit`, `!!reload`, `!!greetingsOn` and `!!greetingsOff` is recognised exactly on that text; `!!delSeen `, `!!addSeen ` and `!!testGreeting ` exactly on texts with that prefix, taking the second word (without its first `@` for `!!testGreeting`); anything else is unknown |
| Commands.DelSeenResult | TuxTwitchTalker.js:187-191 | the splice-in-loop never lengthens the seen list |
| Commands.DelSeenMultiset | TuxTwitchTalker.js:187-191 | one or two steps of the loop, counted as multisets |
| Commands.DelSeenShrinks | TuxTwitchTalker.js:187-191 | `!!delSeen` adds no entry |
| Commands.DelSeenKeepsOthers | TuxTwitchTalker.js:187-191 | `!!delSeen` keeps every other name with its count |
| Commands.DelSeenRemovesAll | TuxTwitchTalker.js:187-191 | without two adjacent copies, every copy of the name is removed |
| Commands.DelSeenSkipsAdjacent | TuxTwitchTalker.js:187-191 | of two adjacent copies only the first is removed, because the loop index skips the entry shifted into place |
| Commands.ParseUser | TuxTwitchTalker.js:216-232 | the user chain picks at most one built-in: `!audio` exactly on that text, `!dice` exactly on that text with its flag, `!timer` exactly on texts starting `!timer `, and each counter command exactly on texts with its prefix when the counter flag is set |
| Commands.CounterNameOf | TuxTwitchTalker.js:703 | the counter name is a sanitised name |
| Commands.CounterValue | TuxTwitchTalker.js:702-739 | increment adds the offset (1 when the argument is NaN); decrement subtracts it and floors at 0; set takes the argument or 0; query keeps the value |
| Commands.CountersAfter | TuxTwitchTalker.js:702-765 | every command but a query stores the announced value under its name; no other counter changes |
| Commands.CountersAfterStores | TuxTwitchTalker.js:702-739 | `!+name n` stores the old value plus `n` (or 1), `!-name n` the old value minus `n` (or 1) floored at 0, `!=name n` stores `n` (or 0), and `!?name` stores nothing; a counter never written reads as 0 |
| Commands.CounterAnnouncedIsStored | TuxTwitchTalker.js:708-758 | the announced value is the value read back, and the file text parses back to it |
| Commands.TimerReaction | TuxTwitchTalker.js:359-386 | `!timer` does nothing with the flag off; with a bad length it sends only the error line; otherwise it sends "Starting timer '<name>' for <ms>ms" and schedules one alert after `minutes * 60000` ms under the joined name |
| Commands.TimerMinutes | TuxTwitchTalker.js:365-369 | a timer length is accepted only from a present, non-empty third piece that `Number` parses, and then is that number |
| Commands.TimerAlertReaction | TuxTwitchTalker.js:375-384 | a due alert emits nothing without TIMER_ALERT; otherwise at most its CHAT, with the first TIMERNAME replaced, and its MEDIA |
| Commands.ForbiddenExempt | TuxTwitchTalker.js:285-290 | the broadcaster is always exempt from the forbidden-phrase scan; moderators and VIPs are exempt exactly when the "forbiddenForModsVIPs" flag is off; nobody else is |
| Commands.ForbiddenRuleLines | TuxTwitchTalker.js:297-308 | a matching rule sends at most three lines, and none to an empty target |
| Commands.ForbiddenRuleOrder | TuxTwitchTalker.js:297-308 | a rule with CHAT, TIMEOUT and BAN sends exactly its chat, `/timeout <user> <secs>` and `/ban <user>`, in that order |
| Commands.ForbiddenLines | TuxTwitchTalker.js:292-310 | the scan sends at most three lines per rule |
| Commands.ForbiddenLinesSnoc | TuxTwitchTalker.js:292-310 | one more rule adds its lines after the earlier rules' lines, and only when it matches |
| Commands.ForbiddenRuleBans | TuxTwitchTalker.js:306-307 | a matching rule with BAN sends the ban line |
| Commands.ForbiddenBans | TuxTwitchTalker.js:292-310 | every matching rule with BAN bans the sender, wherever it is in the list |
| Commands.ForbiddenNoMatchSilent | TuxTwitchTalker.js:292-295 | rules that do not match send nothing |
| Commands.TriggerGate | TuxTwitchTalker.js:237 | the triggered-message scan is cut short exactly for a `!!` message from a named sender who is not an admin |
| Commands.TriggerRuleReaction | TuxTwitchTalker.js:244-257 | a matching trigger schedules a shout-out with the captures exactly when it has SHOUTOUT |
| Commands.TriggerReaction | TuxTwitchTalker.js:235-259 | at most one line, one media action and one shout-out per rule |
| Commands.TriggerReactionSnoc | TuxTwitchTalker.js:235-259 | one more rule adds its reaction after the earlier rules', and only when it matches |
| Commands.TriggerNoMatchSilent | TuxTwitchTalker.js:241-244 | triggers that do not match emit nothing |
| Commands.MatchesLinkOneLine | TuxTwitchTalker.js:265 | a text the anchored link pattern matches holds no line terminator |
| Commands.IsGiphyLink | TuxTwitchTalker.js:265 | a GIPHY link is at least as long as its fixed parts, ends in "gif" (its dot matching any character) and holds no line terminator |
| Commands.RandomLine | TuxTwitchTalker.js:350-355 | a line is sent exactly when the message is a configured command whose file exists, and it is a line of that file |
| Commands.RandomLineAt | TuxTwitchTalker.js:649-660 | a draw in range sends that very line |
| Commands.PeriodicReaction | TuxTwitchTalker.js:402-410 | a periodic message sends at most its CHAT to the channel and plays at most its MEDIA, scheduling nothing |
| Commands.PeriodicKeepsUserName | TuxTwitchTalker.js:405 | sent with no user, a periodic CHAT goes out unchanged, USERNAME included |
| Commands.ScanReaction | TuxTwitchTalker.js:161-170 | the scans emit at most `3·forbidden + triggers + 1` lines and at most one media action and shout-out per trigger |
| Commands.ScanReactionParts | TuxTwitchTalker.js:161-170 | the scans emit the forbidden lines, then the triggered reaction, then the random line, in that order |
| Commands.ScanQuietWithoutMatches | TuxTwitchTalker.js:161-170 | a message that matches no pattern and is no random-line command gets no reaction from the scans |
| Dispatch.ClearHandle | TuxTwitchTalker.js:391-393 | after `clearInterval(h)`, no interval with handle `h` is alive and no interval was added |
| Dispatch.ClearHandleAbsent | TuxTwitchTalker.js:391-393 | clearing a handle that no interval has changes nothing |
| Dispatch.ClearHandleHead | TuxTwitchTalker.js:391-393 | clearing the first interval's unique handle drops only that interval |
| Dispatch.PeriodicIntervals | TuxTwitchTalker.js:398-412 | one interval per periodic message, in order, with consecutive fresh handles and a period of `INTERVAL * 60000` ms |
| Dispatch.FeatureToggle | TuxTwitchTalker.js:666-676 | after enabling a flag it is on; after disabling it it is off; every other flag reads as before |
| Dispatch.Bot.constructor | TuxTwitchTalker.js:84-85 | start-up loads the configuration and registers its periodic messages, with empty lists and a valid state |
| Dispatch.Bot.SendChat | TuxTwitchTalker.js:540-564 | `sendChat` appends exactly `ChatLines` to the outbox, the loop being proved to render as `Render` does |
| Dispatch.Bot.PlayMedia | TuxTwitchTalker.js:577-621 | `playMedia` appends exactly `MediaEffects` |
| Dispatch.Bot.SendShoutOut | TuxTwitchTalker.js:567-571 | `sendShoutOut` schedules exactly one shout-out in 5000 ms |
| Dispatch.Bot.GreetUser | TuxTwitchTalker.js:494-533 | `greetUser` (with the corrected media lookup) emits exactly `GreetingReaction` and throws exactly when `GreetingThrows` |
| Dispatch.Bot.IsFirstTimeChatter | TuxTwitchTalker.js:625-646 | returns whether the lower-cased name is absent from the ledger, appends it when it is, and leaves it present |
| Dispatch.Bot.RunFirstSeen | TuxTwitchTalker.js:315-339 | a newly seen sender is added once, checked against the ledger once and greeted once (with the corrected media lookup); anyone else changes nothing and emits nothing |
| Dispatch.Bot.EnableFeature | TuxTwitchTalker.js:670-672 | sets the flag to "true", so it is enabled |
| Dispatch.Bot.DisableFeature | TuxTwitchTalker.js:674-676 | sets the flag to "false", so it is disabled |
| Dispatch.Bot.ClearPeriodicTimers | TuxTwitchTalker.js:390-394 | clearing every listed handle leaves no interval alive and an empty list |
| Dispatch.Bot.RegisterPeriodicMessages | TuxTwitchTalker.js:397-412 | exactly one interval per configured periodic message, its handle pushed onto the list |
| Dispatch.Bot.RunPeriodicMessages | TuxTwitchTalker.js:389-413 | afterwards exactly one interval per configured message is alive, none of the earlier ones survives, and the state stays valid (so running it twice never doubles a timer) |
| Dispatch.Bot.Reload | TuxTwitchTalker.js:679-699 | `!!reload`: a loaded file replaces the configuration and its flags and re-registers the periodic messages; a failed load keeps everything and reports to the channel, or stops the bot when there is no channel |
| Dispatch.Bot.DelSeenLoop | TuxTwitchTalker.js:187-191 | the splice loop leaves exactly `DelSeenResult` |
| Dispatch.Bot.RunAdminCommand | TuxTwitchTalker.js:175-213 | a non-admin changes nothing at all; an admin's command changes exactly what `AdminApplied` says, and `!!testGreeting` greets a badge-less user without touching the seen list |
| Dispatch.Bot.ApplyAdmin | TuxTwitchTalker.js:177-208 | clear, exit, reload, delSeen, addSeen (not lower-cased) and the greeting toggles change just their part of the state |
| Dispatch.Bot.RollDice | TuxTwitchTalker.js:342-346 | the roll is between 1 and 6 and is announced |
| Dispatch.Bot.RunTimer | TuxTwitchTalker.js:359-386 | `runTimer` emits exactly `TimerReaction` |
| Dispatch.Bot.CounterWrite | TuxTwitchTalker.js:756-765 | stores the value, and pushes `counter_<name>_update` only with the webserver flag on |
| Dispatch.Bot.RunCounter | TuxTwitchTalker.js:702-743 | the counter store becomes `CountersAfter`, and the announced value is `CounterValue` of the old value |
| Dispatch.Bot.RunUserCommand | TuxTwitchTalker.js:216-232 | exactly the one built-in that `ParseUser` selects runs, with its effect as `UserCommandApplied` says |
| Dispatch.Bot.RunForbiddenPhrases | TuxTwitchTalker.js:281-311 | an exempt sender gets nothing; otherwise the outbox grows by exactly `ForbiddenLines` |
| Dispatch.Bot.ForbiddenRule | TuxTwitchTalker.js:297-308 | the body of the loop sends exactly `ForbiddenRuleLines` |
| Dispatch.Bot.RunTriggeredMessages | TuxTwitchTalker.js:234-260 | a `!!` message from a non-admin with any trigger configured emits nothing; otherwise the scan emits exactly `TriggerReaction` |
| Dispatch.Bot.TriggerStep | TuxTwitchTalker.js:241-258 | one rule emits its reaction when it matches and nothing otherwise |
| Dispatch.Bot.RunRandomFileLine | TuxTwitchTalker.js:350-355 | sends exactly `RandomLine` |
| Dispatch.Bot.RunImageLink | TuxTwitchTalker.js:262-278 | the popup page shows the link exactly when the imagelink flag is on and the whole message is a GIPHY link |
| Dispatch.Bot.RunScans | TuxTwitchTalker.js:161-170 | the four scans emit exactly `ScanReaction` and update the popup as `runImageLink` does |
| Dispatch.Bot.ScanStep | TuxTwitchTalker.js:161-170 | the scans only add output, and set the popup as `runImageLink` does |
| Dispatch.Bot.GreetStep | TuxTwitchTalker.js:150 | the first-seen step updates the seen list as `SeenAfter` says; the ledger changes only for a newly seen sender; only such a greeting throws |
| Dispatch.Bot.AdminStep | TuxTwitchTalker.js:154-155 | only an admin changes anything, and only `!!exit` or a failed `!!reload` without a channel stops the bot |
| Dispatch.Bot.UserStep | TuxTwitchTalker.js:156-157 | the user branch only adds output, and changes a counter only for a counter command |
| Dispatch.Bot.RunCommand | TuxTwitchTalker.js:154-158 | `!!` goes to the admin branch only; a non-admin cannot stop the bot or change the configuration, flags, timers or seen list; a counter changes only for a non-`!!` counter command |
| Dispatch.Bot.RunCommandAndScans | TuxTwitchTalker.js:154-170 | the command step, then the scans unless it threw or exited |
| Dispatch.Bot.Respond | TuxTwitchTalker.js:147-170 | first-seen, then the command step, then the scans; a non-admin only adds themselves to the seen list |
| Dispatch.Bot.HandleMessage | TuxTwitchTalker.js:139-171 | an ignored sender changes nothing; output is only ever appended; only an admin's `!!exit` or failed `!!reload` stops the bot; a non-admin leaves the configuration, flags and timers alone and changes the seen list only by themselves; the ledger changes only for a newly seen user; a counter changes only for a counter command; an exception or exit abandons the scans |
| Dispatch.Bot.FireInterval | TuxTwitchTalker.js:402-410 | a firing periodic timer emits exactly the `PeriodicReaction` of its entry in the current configuration |
| Dispatch.Bot.FirePending | TuxTwitchTalker.js:375-384 | a due reaction leaves the pending list; a shout-out goes through `sendChat`, and a timer alert emits `TimerAlertReaction` under the configuration current at firing time |

## Left out

- The chat transport: the tmi.js client, `connect` and `say` (TuxTwitchTalker.js:88-104). `say` is modelled only as an append to `outbox`.
- The `uncaughtException` handler (TuxTwitchTalker.js:106-111), which reports "technical difficulties" to the channel after a greeting throws. In the model a thrown greeting only abandons the rest of the handler.
- The HTTP and socket.io server, the audio and browser-source pages and `updateMediaBrowserWithAudio` (TuxTwitchTalker.js:116-129, 417-489). This is network I/O. Media actions are recorded as `Effect` values instead.
- The `exec` of the media player (TuxTwitchTalker.js:604-614): the command string is recorded but not run.
- The `fs.writeFile` of the popup page (TuxTwitchTalker.js:269-275): it is a field.
- Real file I/O: the counter files, the ledger, the random-line files and `getAudioFilePath`'s existence check (TuxTwitchTalker.js:779-791). The first three are fields; the existence check is not modelled.
- `loadConfigFile` (TuxTwitchTalker.js:679-699) reads the configuration with `require`, and its first call at start-up exits on failure. The outcome of a reload is a `LoadResult` parameter; start-up takes the configuration as a value.
- `Math.random`: modelled as a nondeterministic draw.
- Real timing: `setTimeout` and `setInterval` are the `pending` and `intervals` lists, fired explicitly by `FirePending` and `FireInterval`.
- Regular expressions from the configuration: an oracle.
- JavaScript replacement patterns (`$&`, `$1` and so on) in replacement strings: values are inserted literally.
- `Number()` on non-integer or exponent forms: only optionally signed decimal integers parse.
- `toLowerCase` beyond ASCII.
- `readRandomLine` on a missing file (TuxTwitchTalker.js:661-663) would `say` the value `undefined`. The model sends nothing.
- Key order of configuration objects is the order of the sequences in `Config`. JavaScript's ordering of integer-like keys first is not modelled.
- A missing or non-object `badges` value, and the `try`/`catch` around it (TuxTwitchTalker.js:319-329): `broadcaster` is a boolean.
- A user object with no `username` in the ignore and first-seen gates: the name is a string, possibly empty.
- Dispatch.Bot.GreetUser: greets through the corrected media lookup. A VIP who reaches the VIP media branch gets `default_vip`'s media and a shout-out, and the handler goes on. The code as written (TuxTwitchTalker.js:518) throws a ReferenceError there, after the chat line: no media, no shout-out, and the command and the scans are abandoned.
- Commands.GreetingReaction: the same corrected media lookup as `GreetUser`, so it does not state the ReferenceError of TuxTwitchTalker.js:518 for a VIP.
- Commands.GreetingThrows: throws for a missing `default_vip` entry (corrected lookup), not for every VIP who reaches the VIP media branch as the code at TuxTwitchTalker.js:518 does.
- Dispatch.Bot.RunFirstSeen: greets with `GreetUser`, so it inherits the corrected VIP media lookup; `GreetStep`, `Respond` and `HandleMessage` inherit it in turn.
- Dispatch.Bot.RunUserCommand: `!audio` always records `PlayAudio`. In the code `updateMediaBrowserWithAudio` (TuxTwitchTalker.js:218, 471) calls `socketServer.emit`, and `socketServer` exists only when the webserver flag was on at start-up (TuxTwitchTalker.js:116-122). Without it a TypeError abandons the handler. The model does not track whether the server was started.
- Dispatch.Bot.PlayMedia: with AUDIO_FILE_PATH set it records `PlayAudio` (TuxTwitchTalker.js:599-600), where the code throws the same TypeError when the server was never started.
- Dispatch.Bot.CounterWrite: records `CounterUpdate` whenever the webserver flag is on (TuxTwitchTalker.js:762-763). If the flag was turned on only by a later reload, the server does not exist and the code throws.
- Settings.IsAdmin: a configuration without ADMIN_USERS counts as an empty admin list. The code throws a TypeError instead: at TuxTwitchTalker.js:176 for every `!!` message from a named sender, and at TuxTwitchTalker.js:237 for such a message when any trigger is configured. `Commands.TriggerGate` and `Dispatch.Bot.RunAdminCommand` inherit this.
- Dispatch.Bot.EnableFeature and Dispatch.Bot.DisableFeature: without a COMMANDS_FEATURE_FLAGS section the code throws (TuxTwitchTalker.js:671, 675). The model creates the entry.
- Commands.CounterValue: counters, offsets and timer lengths are unbounded integers. In JavaScript they are doubles, so above 2^53 an addition can be lost to rounding. `Dispatch.Bot.RunCounter` and `Commands.TimerReaction` inherit this.
- Dispatch.Bot.HandleMessage: the postcondition summarises each step (only-appended output, gating, the state each step may change). The exact reactions are stated on the step methods `RunFirstSeen`, `RunAdminCommand`, `RunUserCommand` and `RunScans`, and on the `Commands` functions they are proved against. This keeps the proof of the whole handler within the verifier's budget.
- Dispatch.Bot.Respond, Dispatch.Bot.RunCommandAndScans and Dispatch.Bot.RunCommand: the same summaries as `HandleMessage`, for the same reason.
- Dispatch.Bot.GreetStep, Dispatch.Bot.AdminStep, Dispatch.Bot.UserStep and Dispatch.Bot.ScanStep: these summarise `RunFirstSeen`, `RunAdminCommand`, `RunUserCommand` and `RunScans`, whose postconditions give the exact effect.

Where the code's behaviour differs from what its documentation promises, the model follows the code, except for the VIP media lookup of "## Findings":

- Substitution is re-entrant. A user name that contains `_1_` is itself expanded by the positional loop (`RenderReexpandsUserName`).
- Only decrement clamps a counter at 0. A negative increment offset, or `!=` with a negative value, stores a negative count.
- `!timer` accepts a length of zero or a negative length: only a missing or non-numeric length is rejected.
- The positional loop of `playMedia` never substitutes (`MediaPositionalNoOp`).
- A non-admin `!!` message stops the triggered-message scan at its first rule, so it emits nothing when any trigger is configured, even for triggers that do not start with `!!`.
- A greeting that throws (a missing `default` or `default_mod` entry, or with the corrected lookup a missing `default_vip` entry) aborts the whole handler, including the command and the scans.

## Findings

| source | as written | input that shows it | evidently intended | confidence | as-written member | corrected member |
|---|---|---|---|---|---|---|
| TuxTwitchTalker.js:518 | the VIP media branch reads `GREETINGS[cDEFAULT_VIP][cMEDIA]`, an undeclared global, so it throws a ReferenceError | a VIP user "ann" with no greeting entry of their own, GREETINGS = { default: {}, default_vip: { MEDIA: "vip.mp3" } } | read `env[cGREETINGS][cDEFAULT_VIP][cMEDIA]`, like the moderator branch | high, not executed | Settings.VipMediaThrowsAsWritten | Settings.VipMediaCorrected |
