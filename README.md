# mcbridge relay core in Dafny

mcbridge (`index.js`) relays between a Discord server and a Minecraft server.
- From Discord to the game: a human message in the configured channel becomes one `/say <user> text` command given to the game session. In the text, custom-emoji references (`<:name:id>`, `<a:name:id>`) are collapsed to `:name:`, and attachment names are appended as `[name]`.
- From the game to Discord: joins, leaves, chat lines, whispers, kicks, crashes, disconnects and the first spawn become notifications in that channel.
- Control: three slash commands. `/online` lists the roster. `/command` sends a line to the game, only for holders of the configured role. `/terminator` is meant to toggle an attack mode that hits the nearest player, at most once every 500 ms. As written it reads its option with a getter the option resolver does not have, so with a session it throws before the mode is set (see "## Findings"); the rest of the model uses the intended toggle.
- Supervision: the bridge connects only when the status lookup reports somebody online. Otherwise, and on any lookup error, it tries again ten seconds later, forever.

The model has these modules:
- `Bridge.Relayer` holds the module-level state of the script (`bot`, `spawned`, `players`, `killaura`, the channel handle and the per-session `lastAttackTime` and one-shot listeners). It is a class with one method per event handler.
- Each method's contract states the handler's whole new state. Messages posted to the channel are appended to `outbox`, lines given to the game session to `commands`, and every other request (status lookup, session creation, timers, attacks) to `effects`.
- The formatting and decisions the handlers use are pure functions in `Text`, `Emoji`, `Relay`, `Replies`, `Roster`, `Supervisor` and `Killaura`. Lemmas beside them prove what the texts and rosters mean.

Behaviour of `index.js` worth knowing, each proved or stated in the model:
- `/terminator` needs a live session, the same as `/command`, and is not role-gated (`Bridge.Relayer.OnTerminator`).
- A kick does not clear the session state. It only notifies and starts a reconnect. The clearing, and a second reconnect, come with the `end` event that follows (`Bridge.Relayer.OnKicked`, `Bridge.Relayer.OnEnd`). So between a kick and its `end`, `/online` still shows the old roster.
- A crash does not start a reconnect itself. It asks the session to end, and the reconnect follows from that session's `end` event.
- The attack rule is `now - lastAttackTime >= 500`, and only an attack moves `lastAttackTime`. So movements every 100 ms over 1.1 s attack three times, at 0, 500 and 1000 ms (`Killaura.HundredMsExample`), and movements every 600 ms attack twice (`Killaura.SixHundredMsExample`).

## Model

| member | source | states |
|---|---|---|
| Bridge.Relayer.constructor | index.js:98-100 | At start-up there is no channel, no session, spawn flag or roster, terminator mode is off, and nothing has been posted, sent or requested |
| Bridge.Relayer.OnReady | index.js:13-15 | The ready handler makes the channel available; every later notification is posted |
| Bridge.Relayer.Reconnect | index.js:197-199 | Starting a reconnect issues exactly one status lookup for the configured host and port |
| Bridge.Relayer.CreateBot | index.js:101-114 | A new session is the latest one created; it has not spawned, the roster is empty, exactly one "Connecting" notice is posted (when the channel exists) and one session request with the configured host, port, user and forge flag is made; terminator mode is kept |
| Bridge.Relayer.OnLookup | index.js:199-210 | A lookup answering with more than zero players creates a session (the new state of `CreateBot`); a zero count or a failed lookup schedules exactly one retry after 10000 ms and changes nothing else |
| Bridge.Relayer.OnPlayerJoined | index.js:116-119 | The name is appended at the end of the roster; a notice is posted iff the session has spawned; with no roster the handler throws and nothing changes |
| Bridge.Relayer.OnPlayerLeft | index.js:121-124 | The roster loses every entry with that name and keeps the others in order; a notice is posted iff the session has spawned; with no roster the handler throws and nothing changes |
| Bridge.Relayer.OnChat | index.js:126-129 | A chat line is relayed iff a session exists and the speaker is not the session itself; without a session the handler throws |
| Bridge.Relayer.OnWhisper | index.js:144-146 | Every whisper is relayed with its sender and text |
| Bridge.Relayer.OnKicked | index.js:131-136 | A kick posts one notice with the reason (the formatted text when the reason is structured) and starts one reconnect; the session state is untouched |
| Bridge.Relayer.OnEnd | index.js:138-142 | A disconnect posts one notice, makes session, spawn flag and roster undefined, so that `/online` answers "not connected", and starts one reconnect |
| Bridge.Relayer.OnSpawn | index.js:148-152 | Only the first spawn of a session posts the notice and marks it spawned; later ones change nothing |
| Bridge.Relayer.OnError | index.js:154-159 | Only the first error of a session posts the crash notice; it asks the session to end and clears session, spawn flag and roster, or throws without clearing when no session exists |
| Bridge.Relayer.OnDeath | index.js:161-165 | A death schedules one respawn after 1000 ms |
| Bridge.Relayer.OnEntityMoved | index.js:178-194 | A player's movement makes the session look at the nearest player; it attacks iff terminator mode is on, the target is in range and 500 ms have passed since the last attack, and only an attack moves the last-attack time |
| Bridge.Relayer.OnMessage | index.js:50-56 | A message is forwarded iff it is in the configured channel from a human and a session exists, as exactly the `/say` command `Relay.SayCommand` gives |
| Bridge.Relayer.OnOnline | index.js:63-72 | The `/online` reply is the one `Replies.OnlineReply` gives for the current roster |
| Bridge.Relayer.OnCommand | index.js:73-84 | The command reaches the game iff a session exists and the member holds the configured role; otherwise the reply is the role refusal or "not connected" and nothing is sent |
| Bridge.Relayer.OnTerminator | index.js:85-94 | With a session anyone sets terminator mode and gets the matching reply; without one the mode is unchanged and the reply is "not connected" |
| Bridge.Relayer.OnTerminatorAsWritten | index.js:85-94 | `/terminator` as written: with a session it throws before setting the mode or replying, and without one it replies "not connected"; it never changes terminator mode |
| Bridge.TerminatorNeverArms | index.js:87 | With a session, `/terminator` with `enabled` set leaves terminator mode off as written and turns it on as intended |
| Bridge.Relayer.TerminatorRun | index.js:179-191 | Over a run of player movements with a session, terminator mode on and a nearest player each time, the session attacks at exactly the times `Killaura.Attacks` gives, ends with the last-attack time `Killaura.LastAttack` gives, and looks at the target on every movement |
| Bridge.Relayer.ActivityTick | index.js:37-47 | The activity shown every ten seconds is the one `Replies.Activity` gives for the current roster |
| Bridge.Relayer.RetryUntilConnected | index.js:197-211 | Running the retry loop over a series of lookup outcomes creates a session at exactly the lookup `Supervisor.FirstConnect` names, after one lookup and one ten-second retry per earlier outcome; with no such lookup it creates none and leaves one lookup and one retry per outcome |
| Bridge.Post | index.js:105 | A send through the optional channel keeps everything posted before and adds exactly the one notice at the end once the channel exists, and nothing before |
| Replies.OnlineReply | index.js:63-72 | "Not connected" iff there is no roster, "No players" iff the roster is empty, otherwise the prefix and the names joined with ", " |
| Replies.NoticeText | index.js:105-155 | Every notification is non-empty, and game chat and whispers are exactly the notifications that start with `*` |
| Replies.ChatCannotPassForStatus | index.js:126-155 | A chat line or whisper from the game can never read the same as a status notification (join, leave, kick, crash, disconnect, spawn, connecting) |
| Replies.KickReason | index.js:132 | A reason starting with `{` is shown as its formatted text, any other as it is |
| Replies.Activity | index.js:38-46 | The activity is "an empty server" iff there is no roster or it is empty |
| Replies.OnlineReplyReadable | index.js:63-72 | The `/online` reply can be read back to the exact roster state: undefined, empty, or every name in order |
| Replies.ActivityCount | index.js:37-47 | The activity announces exactly the roster size; it is "an empty server" iff there is no roster or it is empty |
| Supervisor.Decide | index.js:199-210 | A session is created iff the lookup answered with more than zero players; otherwise a retry after 10000 ms |
| Relay.ShouldForward | index.js:51 | A message from a bot author, or from any channel but the configured one, is never forwarded |
| Relay.AttachmentList | index.js:53 | The attachment list is empty iff there are no attachments |
| Relay.AttachmentListFirst | index.js:53 | A non-empty attachment list starts with the first name in brackets |
| Relay.SayCommand | index.js:52-55 | The command always starts `/say <user> `, and is no longer than that prefix, the message text and, when there are attachments, one space and the list |
| Supervisor.FirstConnect | index.js:197-211 | Over a run of lookups the first session is created at the first lookup that reports somebody online, and every earlier lookup scheduled a retry; with nobody ever online no session is created |
| Relay.SayWithoutAttachments | index.js:52-55 | Without attachments the command is `/say <user> ` followed by the collapsed text and nothing else |
| Relay.SayWithAttachments | index.js:52-55 | With attachments the bracketed list follows the collapsed text after exactly one space |
| Relay.SayOfWrittenMessage | index.js:52-55 | A message of plain text and emoji references reaches the game with each reference shown as `:name:` and the plain text unchanged |
| Emoji.MatchRef | index.js:52 | A reference recognised at the start of the text is at least five characters long and lies within the text |
| Emoji.MatchRefSound | index.js:52 | Whatever `MatchRef` recognises is `<:name:id>` or `<a:name:id>` with a non-empty name of letters, digits and underscores and a non-empty digit id, of exactly the reported name and length |
| Emoji.MatchRefIff | index.js:52 | A reference is recognised at the start of the text iff one starts there |
| Emoji.IdTextIsAllDigits | index.js:52 | The id test used by matching holds exactly for strings of digits (`\d+` without its length) |
| Emoji.CollapseNoReference | index.js:52 | Where no reference starts, the first character, `<` included, is kept and the scan moves on by one |
| Emoji.CollapseKeeps | index.js:52 | Text at none of whose positions a reference starts is kept unchanged, whatever follows it |
| Emoji.CollapseLoneAngle | index.js:52 | A `<` that opens no reference, followed by text without `<`, is kept together with that text |
| Emoji.StrayHeart | index.js:52 | `<3` is kept as it is |
| Emoji.EmptyId | index.js:52 | `<:a:>`, which has no id, is kept as it is |
| Emoji.Collapse | index.js:52 | Collapsing never makes the text longer |
| Emoji.MatchReference | index.js:52 | A well-formed reference is recognised at its start, whatever follows, with its own name and full length |
| Emoji.CollapseNoAngle | index.js:52 | Text without `<` is left unchanged |
| Emoji.CollapseReference | index.js:52 | A reference at the front becomes `:name:` and the scan resumes right after it |
| Emoji.CollapseWritten | index.js:52 | Collapsing a written message gives exactly its shown form |
| Roster.Without | index.js:122 | After a leave the name is absent, the roster is no longer than before, and every remaining name was there before |
| Roster.WithoutCounts | index.js:122 | A leave removes every occurrence of the name and keeps every other name as often as before |
| Roster.WithoutAppend | index.js:122 | The leave filter keeps the kept names in their old order |
| Roster.WithoutAbsent | index.js:122 | A leave for an absent name changes nothing |
| Roster.ReplayCount | index.js:116-124 | After any run of joins and leaves, a name is present as many times as it joined since its last leave, plus its initial count if it never left |
| Killaura.MayAttack | index.js:187 | An attack is allowed only on an in-range target and only 500 ms or more after the last attack |
| Killaura.MayAttackLater | index.js:187 | Waiting never withdraws permission to attack a target that stays in range |
| Killaura.AttacksSpaced | index.js:184-190 | Attacks are at least 500 ms apart, the first at least 500 ms after the starting last-attack time, and each on an in-range movement |
| Killaura.LastAttackIsLastAttack | index.js:187-190 | After a run of movements the last-attack time is the time of the run's last attack, or the starting time when the run attacked nothing |
| Killaura.AttacksInWindow | index.js:184-190 | Movements within a window of `w` ms attack at most `w / 500 + 1` times |
| Killaura.HundredMsExample | index.js:184-190 | Movements every 100 ms over 1.1 s attack at 0, 500 and 1000 ms |
| Killaura.SixHundredMsExample | index.js:184-190 | Movements every 600 ms over 1.1 s attack twice |
| Text.SplitJoin | index.js:68 | Names without commas joined with ", " split back into the same names |
| Text.Decimal | index.js:42 | A count prints as digits only, never empty, with no leading zero except for 0 |
| Text.ParseDecimalInverse | index.js:42 | The printed count reads back as the same number |

## Left out

- The Discord client: login, command registration, guild and channel fetching, `setActivity`, and the `cleanContent` mention resolution. These are library calls and network I/O. `cleanContent`'s output is the `cleaned` input of `Relay.SayCommand`, and channel sends are appended to `outbox`.
- The game client and the forge negotiation: session creation, `lookAt`, `nearestEntity`, `attack`, `respawn`, `end`. These are foreign library behaviour and are recorded only as `effects`.
- The status lookup is a network call. Its outcome is the `Supervisor.Probe` input of `Bridge.Relayer.OnLookup`.
- `setTimeout` and `setInterval` are real timers. A timer is recorded as a `Schedule` effect. The ten-second activity refresh is `Bridge.Relayer.ActivityTick`, run whenever the interval fires.
- Bridge.Relayer.OnKicked: the structured reason's formatting (`format` after `JSON.parse`) comes from a library and enters as the `formatted` input. A reason that starts with `{` but is not valid JSON makes the handler throw, and that case is not modelled.
- Bridge.Relayer.OnEntityMoved: the floating-point distance test enters as the `inRange` boolean, and the clock reading as the `now` input.
- Bridge.Relayer.OnChat: the session's own user name is read from the library and enters as the `selfName` input.
- The death and bleeding relay (index.js:167-176) depends entirely on the library's `format` of structured messages.
- The SIGINT handler (index.js:213-216) and the start-up sequence (index.js:218-225) are process I/O. The model's events can be applied in any order the runtime delivers them.
- Console logging (index.js:14, 134, 150, 156, 201, 204, 208, 223), including the logged lookup failure, is not modelled: it changes no state the bridge reads.
- Asynchronous sends are not modelled: a notification counts as posted when `send` is called, and a failed send is not modelled.
- Events from a session that has since been replaced are not told apart from the current session's events. The script's handlers act on the module-level state either way. Only `lastAttackTime` and the one-shot listeners belong to one session, and the model resets them when a session is created.
- Bridge.Relayer.OnTerminatorAsWritten: what the runtime does with the handler's rejected promise after the throw (it may end the process) is not modelled.
- Emoji.CollapseWritten: plain runs are taken without `<`; text with a `<` that opens no reference is covered by `Emoji.CollapseKeeps` and `Emoji.CollapseNoReference` instead.
- A kick followed by its `end` starts two lookups, and both may create a session. The model allows this (`pendingLookups` counts them) but proves nothing about the superseded session.

## Findings

| source | as written | input that shows it | evidently intended | confidence | as-written member | corrected member |
|---|---|---|---|---|---|---|
| index.js:87 | the `enabled` option is read with `getBool`, which the discord.js option resolver does not provide (its boolean getter is `getBoolean`), so the call throws before `killaura` is set or a reply is sent | any `/terminator` command while a session exists, e.g. with `enabled` true | read the option with `getBoolean`, set terminator mode to it and reply | not executed; rests on the discord.js option-resolver API, which is not part of this model | Bridge.Relayer.OnTerminatorAsWritten, Bridge.TerminatorNeverArms | Bridge.Relayer.OnTerminator |
