# Zabbix to WhatsApp alert bridge: a Dafny model

This project models the core of a small Node.js service, `index.js`. The service
forwards monitoring alerts to WhatsApp chats and lets the recipient act on them
from the chat. It covers:

- **the alert store** (`activeAlerts`): a map from chat address to the alerts raised
  for it, oldest first (`alert_store.dfy`);
- **the two ingestion routes**, `/simulate-alert` and `/zabbix-alert`: their parameter
  checks, the catalog choice, the chart file name, the outbound notification, and
  the record they append when delivery succeeds (`gateway.dfy`);
- **the inbound filter**: only one-to-one messages whose raw body starts with `#` are
  handled (`gateway.dfy`);
- **`handleCommand`**: normalisation (`toLowerCase().trim()`), the switch over `#help`,
  `#commands`, `#status`, `#acknowledge`, `#resolve`, `#history` and the default
  case, the store updates, the separate resolution notification, and every reply
  text (`interpreter.dfy`, `messages.dfy`);
- **the static tables** `COMMANDS` and `ALERT_TYPES`, and the subject-to-catalog
  lookup (`catalog.dfy`);
- **the chart path helpers**: the raise chart name built in `generateGraph` and the
  resolution chart path derived in `simulateResolution` (`graph_paths.dfy`);
- **the JavaScript string operations** these depend on, each defined once with its
  meaning: `trim`, `toLowerCase`, `startsWith`, `includes`/`indexOf`, `replace`
  with a string pattern and a replacement without `$` (first occurrence only), global character replacement and
  removal, and decimal rendering of numbers (`js_text.dfy`);
- **end-to-end scenarios** (lemmas): raise an alert, acknowledge it, resolve it and
  review the history from the same chat (`scenarios.dfy`).

Everything is pure functions over immutable values. Outside effects become inputs:
- the clock (`Date.now()`, ISO time and localized time);
- whether the chat client exists;
- whether the chart renderer succeeded;
- whether the send succeeded;
- the index the random catalog choice produced.

An HTTP response is reduced to a status, and a command's effects to an `Outcome`:
the new store, the optional separate notification, and the optional reply.

Behaviours of the code a reader may not expect, modelled as written:

- `#resolve` on an alert whose chart is missing marks nothing and sends nothing,
  not even a reply. The chart is missing when `/zabbix-alert` could not render
  one, so `graphPath` is `null`, and `null.replace(...)` throws inside
  `handleCommand`.
  - A renderer failure during `#resolve` has the same effect, since the rejected
    promise aborts the handler.
  - On `/simulate-alert`, a renderer failure aborts the route with status 500 before
    anything is sent.
  - See `Interpreter.ResolveFailureChangesNothing` and
    `Gateway.ChartlessAlertCannotBeResolved`.
  - The model stops at the aborted handler. The rejection itself is not caught
    anywhere in index.js: the `onMessage` callback awaits it (index.js:84-87),
    and under Node's default handling an unhandled rejection may end the
    process, taking every chat's in-memory alerts with it. That is not modelled.
- Leading white space is not ignored. The filter tests `startsWith('#')` on the raw
  body, before `trim`, so `" #help"` is never handled. Trailing white space and
  letter case are ignored. See `Gateway.LeadingSpaceNotDispatched` and
  `Gateway.TrailingSpaceAndCaseIgnored`.
- The resolution chart path replaces the first `.png` in the whole path. If the
  graphs directory's own name contains `.png`, the resolution chart lands
  elsewhere. `GraphPaths.ResolutionOfGraphPath` states the intended shape for
  directories without `.png`. `GraphPaths.ResolutionPath` models the replacement
  as written, for every path.

## Model

| member | source | states |
|---|---|---|
| JsText.IsSpace | index.js:109 | the characters `trim` removes: the ECMAScript white space and line terminators (a predicate; `Trim` and the padding lemmas state its use) |
| JsText.Trim | index.js:109 | the trimmed text has no white space at either end, and it is the input with only white space removed around it |
| JsText.LeadingSpaces | index.js:109 | the count of leading characters removed by trim: all of them are white space, and the next character is not |
| JsText.TrailingSpaces | index.js:109 | the count of trailing characters removed by trim: all of them are white space, and the character before them is not |
| JsText.TrimOfPadded | index.js:109 | any white space around a trimmed core trims back to exactly that core |
| JsText.TrimIgnoresPadding | index.js:109 | adding white space on either side of a text never changes its trimmed form |
| JsText.TrimIdempotent | index.js:109 | trimming twice is trimming once |
| JsText.ToLower | index.js:109 | lower-casing keeps the length and maps every character on its own (ASCII letters down, the rest unchanged) |
| JsText.ToLowerIdempotent | index.js:109 | lower-casing twice is lower-casing once |
| JsText.ToLowerConcat | index.js:109 | lower-casing distributes over concatenation |
| JsText.StartsWith | index.js:85 | `startsWith`: the text begins with the prefix (a predicate; `LeadingSpaceNotDispatched` and `TokenMessageDispatched` state its use) |
| JsText.Includes | index.js:679 | `includes` is true exactly when the pattern occurs at some index of the text |
| JsText.IndexOf | index.js:679 | `indexOf` returns an occurrence and no earlier one exists; when it finds none there is no occurrence anywhere |
| JsText.IndexOfFirst | index.js:430 | at the first occurrence of the pattern, `indexOf` returns exactly that index |
| JsText.ReplaceFirst | index.js:430 | a text without the pattern comes back unchanged; otherwise the replacement is spliced in at one occurrence |
| JsText.ReplaceFirstAt | index.js:430 | the replacement happens at the FIRST occurrence and nowhere else |
| JsText.ReplaceChar | index.js:283 | every space becomes `_`, every other character is kept, and the length is the same |
| JsText.RemoveChars | index.js:282 | no removed character survives, and every other character occurs in the result exactly as often as in the input |
| JsText.RemoveCharsOfChar | index.js:282 | on one character, removal drops it when it is in the set and keeps it otherwise |
| JsText.RemoveCharsConcat | index.js:282 | removal distributes over concatenation, so the kept characters stay in their order |
| JsText.RemoveCharsNoop | index.js:282 | a text holding none of the removed characters is left intact |
| JsText.DecimalString | index.js:132 | a number below 10^21 renders as a non-empty string of decimal digits without a leading zero |
| JsText.DecimalRoundTrip | index.js:132 | reading the decimal rendering back gives the number |
| JsText.DecimalInjective | index.js:644 | distinct numbers render distinctly, so distinct `Date.now()` readings give distinct alert ids |
| Catalog.FindFrom | index.js:679 | `ALERT_TYPES.find(...)` from index `k` on: the first entry whose name occurs in the subject, or none exactly when no entry from `k` on is named |
| Catalog.AlertTypesTable | index.js:231-277 | the `ALERT_TYPES` table (`Catalog.AlertTypes`): five entries, all of severity `High` with a positive threshold, each on a different host |
| Catalog.CommandsTable | index.js:15-22 | the `COMMANDS` table (`Catalog.Commands`): six rows, `#help` first and `#commands` last, every token `#` and a word, no token twice |
| Catalog.ChooseIndex | index.js:679 | the chosen entry is the first in table order whose name occurs in the subject; when no name occurs, it is entry 0 and no entry matches |
| Catalog.ChooseForSubject | index.js:679 | the chosen type is a catalog entry; if its name is absent from the subject, it is the default first entry |
| Catalog.ChoiceFollowsTableOrder | index.js:679 | the choice comes no later in the table than any entry the subject names, and the subject names the chosen entry |
| Catalog.EarlierEntryWins | index.js:679 | a subject naming "Memory Usage" before "CPU Usage" still gets "CPU Usage", the earlier table entry |
| Catalog.ChoiceFallsBackToFirst | index.js:679 | a subject naming no catalog entry gets the first entry |
| Catalog.CatalogNamesHaveNoDot | index.js:231-277 | no catalog name contains a dot |
| Catalog.CatalogNamesDistinct | index.js:231-277 | the catalog names are pairwise distinct |
| GraphPaths.StampToken | index.js:282 | the timestamp token holds neither `:` nor `.`, and every other character of the ISO time as often as the ISO time does |
| GraphPaths.StampTokenConcat | index.js:282 | the token of a concatenation is the tokens of its parts, in order |
| GraphPaths.StampTokenOfIso | index.js:282 | for `<day>:<mm>:<ss>.<fraction>` the token is the four parts joined, in order |
| GraphPaths.GraphFileName | index.js:283 | the chart file name: the base name followed by `.png` (`ResolutionOfGraphPath` and `ResolutionPathIsNewFile` state what follows) |
| GraphPaths.GraphBaseName | index.js:282-283 | the chart name before `.png`: the alert name lower-cased with spaces turned into `_`, then `_` and the timestamp token (`GraphBaseNameHasNoDot` states its property) |
| GraphPaths.GraphPath | index.js:282-284 | the chart path: the graphs directory, `/`, the base name and `.png` (`ResolutionOfGraphPath` and `ResolutionPathIsNewFile` state what follows) |
| GraphPaths.ResolutionPath | index.js:430 | a path without `.png` is unchanged; otherwise `_resolved` is inserted just before its first `.png` and nothing else changes |
| GraphPaths.ResolutionSplice | index.js:430 | replacing the first `.png` by `_resolved.png` is the same as inserting `_resolved` before it |
| GraphPaths.GraphBaseNameHasNoDot | index.js:282-283 | a chart base name built from a dot-free alert name has no dot |
| GraphPaths.ResolutionOfGraphPath | index.js:430 | for a chart under a directory without `.png`, the resolution chart is the same directory and base name with `_resolved.png` |
| GraphPaths.ResolutionPathIsNewFile | index.js:430 | the resolution chart path never equals the raise chart path |
| AlertStore.NewAlert | index.js:643-653 | a new record is neither acknowledged nor resolved, has no status times or resolution chart, and satisfies the flag/time invariant |
| AlertStore.HasAlert | index.js:137 | the guard of `#acknowledge`, `#resolve` and `#history`: the recipient has at least one alert |
| AlertStore.Count | index.js:131 | the count is the number of the recipient's alerts, 0 for an unknown recipient, and positive exactly when the command guard holds |
| AlertStore.Latest | index.js:137-139 | there is a latest alert exactly when the guard holds, and it is the last one pushed |
| AlertStore.Record | index.js:640-653 | pushing appends exactly one record for the recipient and leaves every other recipient's list unchanged |
| AlertStore.AcknowledgeLatest | index.js:139-141 | only the latest record changes: it becomes acknowledged at the given time, and nothing else moves |
| AlertStore.ResolveLatest | index.js:156-164 | only the latest record changes: it becomes resolved with the given time and chart |
| AlertStore.SliceFromEnd | index.js:178 | `slice(-k)` gives the last `min(k, n)` elements in order, and the whole list when `k` is 0 |
| AlertStore.HistoryWindow | index.js:178 | the history window is the last `min(5, n)` alerts, oldest first |
| AlertStore.GrowsTransitive | index.js:31 | the "store only grows" relation composes across successive events |
| AlertStore.RecordGrows | index.js:640-653 | ingestion keeps every earlier record and preserves the flag/time invariant |
| AlertStore.AcknowledgeGrows | index.js:139-141 | acknowledgement never removes, reorders or reopens an alert, and preserves the invariant |
| AlertStore.ResolveGrows | index.js:162-164 | resolution never removes, reorders or reopens an alert, and preserves the invariant |
| AlertStore.AcknowledgeTwice | index.js:136-141 | acknowledging twice equals acknowledging once at the later time; no record is added |
| AlertStore.RecordThenLatest | index.js:643 | right after ingestion, the new record is the latest and the last entry of the history window |
| Messages.AlertMessage | index.js:574-576 | the raise notification text (`AlertMessageMentions` states its content) |
| Messages.ResolutionMessage | index.js:579-581 | the resolution notification text (`ResolutionMessageMentions` states its content) |
| Messages.ReplyText | index.js:116-199 | the text of every `handleCommand` reply (the `Messages` lemmas state their content) |
| Messages.AlertMessageMentions | index.js:574-576 | the raise notification names the alert, host, problem, severity and time, and both `#acknowledge` and `#resolve` |
| Messages.ResolutionMessageMentions | index.js:579-581 | the resolution notification names the alert, host, problem and time |
| Messages.HelpListsTableInOrder | index.js:116-121 | the help reply holds one line per command-table row, each at its own offset, in table order |
| Messages.HistoryBlock | index.js:186-190 | one numbered history entry: name, host, status, confirmation and time (`HistoryListsEntriesInOrder` states its place in the reply) |
| Messages.HistoryListsEntriesInOrder | index.js:180-191 | the history reply holds one block per entry, in entry order |
| Messages.AckReplyConfirms | index.js:143-147 | the acknowledgement reply contains "confirmado", the host, the problem and the acknowledgement time |
| Messages.ResolutionNoticeIsNotTheReply | index.js:167-170 | the resolution notification differs from the `#resolve` reply |
| Messages.StatusReplyReportsCount | index.js:131-132 | the status reply carries the count in decimal right after its label |
| Messages.StatusReplyDeterminesCount | index.js:131-133 | two status replies with the same text and time report the same count |
| Interpreter.Classify | index.js:115-199 | the `switch`: a text is recognised exactly when it is one of the six `case` labels, and anything else falls to the default case; it is `Help` exactly for `#help` and its alias `#commands` |
| Interpreter.CommandsIsHelp | index.js:115-117 | `#commands` and `#help` parse to the same command, `Help` |
| Interpreter.Parse | index.js:109-115 | the command of a message body: the `switch` applied to the normalised text (`ParseIgnoresCaseAndPadding` and `TokenParses` state its properties) |
| Interpreter.Normalize | index.js:109 | the normalised text has no white space at either end |
| Interpreter.NormalizeIgnoresCaseAndPadding | index.js:109 | surrounding white space and letter case do not change the normalised text |
| Interpreter.ParseIgnoresCaseAndPadding | index.js:109-115 | surrounding white space and letter case never change the recognised command |
| Interpreter.ParseIgnoresTrailingSpaceAndCase | index.js:109-115 | a body with trailing white space parses like its lower-case form |
| Interpreter.NormalFormIsFixed | index.js:109 | a lower-case text without surrounding white space is its own normal form |
| Interpreter.Token | index.js:115-176 | the canonical spelling of each command is a `case` label that the switch maps back to that command |
| Interpreter.TokenParses | index.js:115-176 | each `case` token parses to its own command, never to the default case |
| Interpreter.TableTokensAreRecognised | index.js:15-22 | every token the help reply advertises is accepted by the switch |
| Interpreter.ResolutionChart | index.js:159 | a resolution chart exists exactly when the alert has a chart and the renderer succeeded, and it is the derived path |
| Interpreter.AcknowledgeCommand | index.js:136-151 | `#acknowledge` changes at most the latest record, sends no notification, and always replies |
| Interpreter.ResolveCommand | index.js:153-174 | `#resolve` changes at most the latest record; with no reply nothing changed; a notification comes with the confirmation reply |
| Interpreter.HistoryCommand | index.js:176-195 | `#history` changes nothing, sends no notification, and always replies |
| Interpreter.HandleCommand | index.js:108-204 | only the latest record of the sender can change, and only under `#acknowledge` or `#resolve`; no reply means no change; only `#resolve` sends a notification |
| Interpreter.Sent | index.js:168-203 | handling one command sends at most two messages |
| Interpreter.ReadOnlyCommands | index.js:115-134 | help, status, history and unrecognised text leave the store unchanged and send one reply: the command table, the sender's alert count, or the guidance text |
| Interpreter.NoAlertIsInformational | index.js:136-174 | with no alert, `#acknowledge` and `#resolve` answer "nothing to act on" and change nothing |
| Interpreter.AcknowledgeMarksLatest | index.js:136-147 | `#acknowledge` marks the latest alert, and only it, keeping its resolution state; the reply names its host and problem |
| Interpreter.AcknowledgeTwiceIsOnce | index.js:136-141 | two `#acknowledge` leave the store as one at the later time |
| Interpreter.ResolveCommandMarksLatest | index.js:153-170 | a successful `#resolve` marks the latest alert resolved with the derived chart, then sends the notification with the chart and the confirmation reply, in that order, as two different texts |
| Interpreter.ResolveMarksLatest | index.js:153-170 | the same as above, for any spelling of `#resolve` |
| Interpreter.ResolveFailureChangesNothing | index.js:159 | when the latest alert has no chart or rendering fails, `#resolve` changes nothing and sends nothing |
| Interpreter.WindowEntries | index.js:181-190 | numbering the window from 1 shows each of its alerts at its position |
| Interpreter.HistoryCommandShowsWindow | index.js:176-195 | `#history` lists the last `min(5, n)` alerts, oldest first, numbered from 1, or answers "empty history" when there are none |
| Interpreter.HistoryShowsRecentWindow | index.js:176-195 | the same through the switch, and the store is unchanged |
| Interpreter.HandleCommandGrows | index.js:108-204 | no command removes, reorders or reopens an alert, and the flag/time invariant is preserved |
| Gateway.OnMessage | index.js:84-88 | an undispatched message gets no answer and changes nothing; a dispatched one is handled as its parsed command |
| Gateway.GroupMessagesIgnored | index.js:85 | group messages are never answered |
| Gateway.LeadingSpaceNotDispatched | index.js:85 | a body starting with white space is never dispatched |
| Gateway.TrailingSpaceAndCaseIgnored | index.js:85-109 | a one-to-one body starting with `#` is dispatched, and with trailing white space it gets the same outcome as its lower-case form |
| Gateway.SameCommandSameOutcome | index.js:85-115 | two dispatched messages from one sender that parse to the same command have the same outcome |
| Gateway.TokenMessageDispatched | index.js:85-115 | a one-to-one message holding a command token followed by any white space passes the filter and parses to that token's command |
| Gateway.TokenMessageOutcome | index.js:84-115 | such a message gets exactly the outcome of its command |
| Gateway.Dispatched | index.js:85 | the inbound filter: one-to-one and the raw body starts with `#` (`GroupMessagesIgnored`, `LeadingSpaceNotDispatched` and `TokenMessageDispatched` state its effect) |
| Gateway.ChatId | index.js:636 | the chat address starts with the phone number |
| Gateway.ChatIdInjective | index.js:640 | distinct phone numbers get distinct store keys |
| Gateway.Truthy | index.js:669 | JavaScript truthiness of a request parameter: present and not empty (the routes' contracts state its use) |
| Gateway.AlertId | index.js:644 | the alert id is `alert_` followed by at least one character, the millisecond reading in decimal |
| Gateway.AlertIdInjective | index.js:644 | alerts raised at distinct milliseconds get distinct ids |
| Gateway.SimulateAlert | index.js:614-663 | the route accepts exactly when the phone is given, the client exists, and the chart renders and is delivered; otherwise the store is unchanged; a message is sent exactly when the phone is given, the client exists and the chart renders, and it is the raise notification of the picked type with the chart rendered for that type's name and this ISO time attached; on acceptance exactly one fresh record of the picked type, with this id and time, is appended for that phone, and its chart is the one that was sent |
| Gateway.ZabbixAlert | index.js:666-717 | the route accepts exactly when phone, subject and message are given, the client exists and delivery succeeds; the caller's text is forwarded; the chart is attached exactly when rendered, and it is the one rendered for the subject's catalog type and this ISO time; a message is sent exactly when the parameters are given and the client exists; on acceptance exactly one fresh record of the subject's catalog type, with this id and time, is appended, and its chart is the one attached to the sent message |
| Gateway.SimulateAlertGrows | index.js:638-653 | the simulation route only appends, and it preserves the invariant |
| Gateway.ZabbixAlertGrows | index.js:692-707 | the real-ingestion route only appends, and it preserves the invariant |
| Gateway.ChartlessAlertCannotBeResolved | index.js:682-690 | an alert accepted without a chart can never be resolved: `#resolve` from its chat changes nothing and sends nothing |
| Scenarios.RaiseFirstAlert | index.js:614-653 | simulating "CPU Usage" for a new phone accepts and creates exactly its one record |
| Scenarios.AcknowledgeOnlyAlert | index.js:136-147 | `#acknowledge`, with any trailing white space, on a chat with one alert gives the acknowledged alert and the confirmation reply |
| Scenarios.ResolveOnlyAlert | index.js:153-170 | `#resolve`, with any trailing white space, on a chat with one charted alert gives the resolved alert, the notification with the resolution chart, and the reply |
| Scenarios.ReviewOnlyAlert | index.js:176-191 | `#history`, with any trailing white space, on a chat with one alert lists exactly that alert as entry 1 |
| Scenarios.Lifecycle | index.js:108-204 | raise, then send `#acknowledge`, `#resolve` and `#history` (each with any trailing white space): the exact outcome of every step |
| Scenarios.LifecycleAsSeen | index.js:108-204 | along the way, the acknowledgement reply contains "confirmado", the resolution chart goes out in its own message, and the history lists one entry marked resolved and acknowledged |

## Left out

- WhatsApp session start-up, QR handling, reconnection (`onStateChange`, `useHere`), and the Express server wiring: these are transport set-up with no store logic.
- The `/` and `/status` routes: they only report service metadata and the transport's connection state.
- The JSON response bodies of the routes: reduced to a `RouteStatus` and the message the route tried to send.
- The chart renderer (`exec` of the Python scripts, on-demand script creation, the scripts themselves): reduced to a success flag, because it is a foreign process.
- `Math.random()` in `/simulate-alert`: replaced by the index it produced (`pick`).
- Sending itself (`sendText`, `sendImage`): a send is the `Outbound` value. `sendWhatsAppMessage` attaches the image only when the file exists (`fs.existsSync`); the model records the requested attachment, because file-system state is not modelled.
- Concurrency: the model treats each event as atomic. The source interleaves `await`s, so two events for one chat could interleave.
- Interpreter.ResolveFailureChangesNothing: stops at the aborted handler and does not model the uncaught rejection that follows, which may end the process and lose every chat's alerts.
- AlertStore.HasAlert: treats `activeAlerts` as a map without inherited keys, because chat ids end in `@c.us` and never name an `Object.prototype` member such as `constructor`, for which `in` would hold on the plain object.
- JsText.DecimalString: renders every number in decimal digits, because JavaScript's exponent form from 10^21 on is never reached by counts, positions or millisecond readings.
- JsText.ToLower: maps only the ASCII letters, because full Unicode case mapping (including mappings that change length) is not modelled.
- GraphPaths.GraphPath: joins with a plain `/`, because `path.join` (index.js:284) uses the platform separator (`\` on Windows) and normalises `.` and `..` segments, which is not modelled.
- Gateway.SimulateAlert: takes `phone` as an optional string, because a repeated or bracketed query parameter, which Express delivers as an array or object and `phone + '@c.us'` coerces to a string, is not modelled.
- Gateway.ZabbixAlert: takes the body fields as optional strings, because non-string JSON values (numbers, objects), which JavaScript would coerce, are not modelled.
- Interpreter.ResolveCommand: uses one time reading for `resolutionTime` and for the resolution notification, whereas the source reads the clock twice. The same holds for the raise notification and the record time in the routes.
- JsText.ReplaceFirst: requires a replacement without `$`, because JavaScript's expansion of `$&`, `$$`, `` $` `` and `$'` in a replacement string is not modelled; the one use, `'_resolved.png'`, has no `$`.
- Gateway.AlertId: ids come from millisecond time and can collide; no uniqueness is claimed across alerts raised in the same millisecond.
- Logging (`console.log`, `console.error`) has no observable effect on the model.
