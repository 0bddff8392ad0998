# linkover, modelled in Dafny

linkover is a small desktop relay for Pushover notifications. A background
`PushoverClient` keeps a WebSocket to the provider open. Each `!` frame it
receives triggers one fetch-and-deliver round:

- fetch the queued messages;
- drop those at or below the in-memory watermark, except in the very first
  round, which delivers everything;
- hand the remaining batch to a callback, with an `is_initial` flag;
- ask the provider to purge up to the highest id fetched.

A tray front end receives each batch. It keeps the ten most recent messages,
shows a notification per message, opens a message's link when auto-open
allows it, and shows the recent messages in its menu. There are three tray
front ends: macOS, Linux, and an older Linux one that the entry point no
longer imports. First-run setup derives the device name from the host name.

The model has ten modules:

- `Text`: the few Python string built-ins the code relies on.
- `Messages` and `Config`: the message record, the outcome of a fetch, and
  the configuration dictionary with Python truthiness.
- `Frames`: `str.strip`, the signal decoder and the login frame.
- `Delivery`: one round as a pure transition over the two client fields
  `_is_first_fetch` and `_last_seen_id`, replayed over many rounds.
- `Client`: the `PushoverClient` class. Its methods change those two fields
  in place and record what they do to the outside world as a sequence of
  events. Each method is tied to the `Delivery` functions and to trace
  functions for one connection and for a whole run.
- `Links`: the logic the three trays share. This covers link detection,
  notification text, the bounded recent list, the effects of handling a
  message, and the recent part of the menu.
- `TrayMac`, `TrayLinux` and `TrayLegacy`: one class per tray. Each keeps
  `_recent` and the menu, updated in place. The macOS and Linux trays also
  keep the auto-open switch and the configuration, and the macOS tray keeps
  the pending queue. The legacy tray has no auto-open switch and opens
  every link it receives.
- `Setup`: the pure parts of first-run setup in `__main__.py`.

The network, the sleep between reconnects, the callback, the purge request,
notifications, browser launches and configuration saves are never performed.
The model records each of them as an event, in order, and the contracts say
exactly which events happen.

Three facts about the delivery rounds that the whole model relies on:

- The watermark `_last_seen_id` lives in memory only. It starts at 0 for
  every client and is never saved (linkover/client.py:32).
- There is no fetch at startup. The first `!` round is the initial one.
- The initial round delivers the whole batch without filtering
  (linkover/client.py:97-101).

## Model

| member | source | states |
|---|---|---|
| Text.StartsWith | linkover/tray_mac.py:49 | `s.startswith(p)`: `p` is no longer than `s` and equals its first `len(p)` characters. |
| Text.Take | linkover/tray_mac.py:134 | Python's `s[:n]`: the first `n` characters, or all of them when there are fewer. |
| Text.Before | linkover/__main__.py:43 | `split(c)[0]`: the longest prefix without `c`, which is followed by `c` whenever it is shorter than the text. |
| Text.BeforeFirst | linkover/__main__.py:43 | Splitting `a + c + b` on `c` gives back `a` when `a` holds no `c`. |
| Text.Contains | linkover/__main__.py:34 | Python's `needle in s` holds exactly when some position of `s` starts with the needle. |
| Text.ContainsPrefixOfNeedle | linkover/__main__.py:34 | A text that contains a longer needle also contains each of that needle's prefixes. |
| Config.Get | linkover/__main__.py:62 | `cfg.get(key)`: the stored value, or null when the key is absent. What setup concludes from it is stated by `Setup.NeedsSetupIff`. |
| Config.Truthy | linkover/__main__.py:62 | Python truthiness of a stored value: null, `False`, `0` and `""` are false, and every other value is true. `Setup.NeedsSetup` and `Links.AutoOpenSetting` read the stored values through it. |
| Frames.IsSpace | linkover/client.py:56 | The characters Python's `str.isspace` accepts, which `strip()` removes: tab to carriage return, the separators 0x1C-0x1F, space, 0x85, no-break space and the Unicode space characters. |
| Frames.Strip | linkover/client.py:56 | `signal.strip()`: drops whitespace from both ends, one character at a time. `StripShape` states what it keeps. |
| Frames.StripShape | linkover/client.py:56 | `strip()` leaves a contiguous slice of the frame that neither starts nor ends with whitespace, and only whitespace lies outside that slice. |
| Frames.StripDropsLead | linkover/client.py:56 | Leading whitespace does not change the stripped frame. |
| Frames.StripDropsTrail | linkover/client.py:56 | Trailing whitespace does not change the stripped frame. |
| Frames.StripIgnoresPadding | linkover/client.py:56 | Whitespace on both sides does not change the stripped frame. |
| Frames.Decode | linkover/client.py:54-65 | `on_message`'s choice: strip the frame, then `!` starts a fetch round, `R` or `E` closes the socket, and anything else is ignored. `SignalIff` restates this in terms of the raw frame. |
| Frames.DecodeIgnoresPadding | linkover/client.py:55-65 | The decoder's action depends on the stripped frame alone. |
| Frames.StripChar | linkover/client.py:56 | A single non-blank character strips to itself. |
| Frames.StripIsChar | linkover/client.py:56-57 | A frame strips to the single character `c` exactly when it is `c` surrounded by whitespace only. |
| Frames.SignalIff | linkover/client.py:54-65 | A frame starts a fetch round iff it is a padded `!`, and closes the socket iff it is a padded `R` or `E`. Every other frame does nothing. All three directions are proved. |
| Frames.BareSignals | linkover/client.py:57-65 | `!` fetches, `R` and `E` close the socket, and `#` (the heartbeat) and the empty frame do nothing. |
| Frames.SignalWithLineEnding | linkover/client.py:56-65 | A signal followed by `\n` or `\r\n` decodes like the bare signal. |
| Frames.LoginFrame | linkover/client.py:52 | The frame `on_open` sends: `login:`, the device id, `:`, the secret and a newline. `LoginRoundTrip` is its partner. |
| Frames.LoginRoundTrip | linkover/client.py:52 | The login frame `login:{device_id}:{secret}\n` can be read back into both credentials whenever the device id has no `:` in it. |
| Delivery.Step | linkover/client.py:82-117 | One `_fetch_and_deliver` round as a transition of the two fields, with the `is_initial` flag, the batch given to the callback and the purge argument. The lemmas below state what it guarantees. |
| Delivery.Replay | linkover/client.py:82-117 | The rounds a client goes through for a history of fetch outcomes, one round per outcome. |
| Delivery.After | linkover/client.py:82-117 | The two fields after a history of rounds. |
| Delivery.MaxId | linkover/client.py:95 | `max(m["id"] for m in messages)`: no fetched id is above the result, and some fetched message has that id. |
| Delivery.Unseen | linkover/client.py:105 | The filtered batch is no longer than the fetch and holds only ids above the watermark. |
| Delivery.UnseenIsFilter | linkover/client.py:105 | The filter keeps the fetched messages above the watermark in their fetched order, each with its full multiplicity, and drops all others. |
| Delivery.UnseenFrom | linkover/client.py:105 | Everything the filter keeps was fetched. |
| Delivery.NothingUnseen | linkover/client.py:105 | When every fetched id is at or below the watermark, nothing passes the filter. |
| Delivery.FlagConsumed | linkover/client.py:83-84 | Every round, failed or empty ones included, reports the old first-fetch flag as `is_initial` and leaves the flag cleared. |
| Delivery.NothingFetched | linkover/client.py:86-93 | A failed or empty fetch leaves the watermark unchanged. It makes no callback and no purge. |
| Delivery.InitialRound | linkover/client.py:95-101 | The initial round delivers the whole fetch unfiltered and in fetched order. Its new watermark is the largest fetched id. |
| Delivery.LaterRound | linkover/client.py:102-106 | A later round delivers exactly the fetched messages above the old watermark, in order and with their multiplicities. Its new watermark is `max(old, highest)`, so it does not decrease. |
| Delivery.CallbackOnlyWithMessages | linkover/client.py:108-112 | The callback gets a non-empty batch, only after a successful fetch, and with that round's `is_initial`. |
| Delivery.PurgeNamesHighest | linkover/client.py:92-117 | After any non-empty fetch the purge is requested exactly once, with the highest fetched id rather than the watermark. The new watermark is at least that id. |
| Delivery.DeliveredBelowWatermark | linkover/client.py:97-106 | Every message a round delivers has an id at or below the watermark that round leaves. |
| Delivery.RefetchDeliversNothing | linkover/client.py:103-106 | If the purge failed and the next fetch returns some of the same messages, that round delivers nothing and keeps the watermark. It still asks for the purge again. |
| Delivery.InitialExactlyOnce | linkover/client.py:83-84 | Over any history of fetch outcomes, `is_initial` holds for a fresh client's first round and for no later round. |
| Delivery.LaterRoundsNotInitial | linkover/client.py:83-84 | Once the flag is cleared, no later round is initial. |
| Delivery.WatermarkNeverDecreases | linkover/client.py:106 | From the first round on, the watermark never moves backwards over any number of rounds. |
| Delivery.LaterDeliveriesAbove | linkover/client.py:105 | Every message delivered after a point has an id above the watermark at that point. |
| Delivery.DeliveredIdsIncrease | linkover/client.py:97-110 | At most once across rounds: every id delivered in a later round is strictly above every id delivered in an earlier round, so no message is delivered twice. |
| Delivery.TwoRoundScenario | linkover/client.py:82-117 | Ids 1 and 2 are delivered as the initial batch, and watermark 2 is kept. Refetching ids 2 and 3 then delivers only id 3 and moves the watermark to 3. |
| Client.Signalled | linkover/client.py:54-65 | The fetch outcomes a connection consumes: one per `!` frame, up to the first `R` or `E`. |
| Client.RoundEvents | linkover/client.py:108-117 | What one round does outside the client, in order: the callback with the batch and its flag, if there is a batch, then the purge, if there is one. `Client.SessionIsRounds` ties a session to these events. |
| Client.Session | linkover/client.py:54-65 | The events `on_message` causes over one connection: each `!` frame's round events, and a close at the first `R` or `E`. `SessionIsRounds` is its partner. |
| Client.ConnectTrace | linkover/client.py:49-80 | The events of one `_connect`: a new socket; once it is open, the login frame and the session; and a stop and a close when `stop()` comes meanwhile. `ConnectShape` is its partner. |
| Client.RunTrace | linkover/client.py:39-47 | The events of `run`: each attempt's connection, then a 5 s sleep unless stopped, and a stop during the sleep ends the loop. `RunBacksOff`, `RunStopEndsRun` and `RunStopsIff` are its partners. |
| Client.AttemptsMade | linkover/client.py:39-47 | `run` makes attempts up to and including the first one a stop interrupts. |
| Client.PushoverClient.constructor | linkover/client.py:19-32 | A new client starts with the first-fetch flag set, watermark 0, no stop, no socket and no events. |
| Client.PushoverClient.Stop | linkover/client.py:34-37 | `stop()` sets the flag, then closes the current socket if one exists. |
| Client.PushoverClient.FetchAndDeliver | linkover/client.py:82-117 | One round updates both fields as `Delivery.Step` says, and its round is the next round of the replayed history. The whole round is recorded: the callback, when there is a batch, then the purge, when something was fetched. |
| Client.PushoverClient.OnMessage | linkover/client.py:54-65 | A `!` frame runs exactly one round. `R` or `E` closes the socket and changes nothing else. Any other frame changes nothing. |
| Client.PushoverClient.Listen | linkover/client.py:73-80 | Handling a connection's frames yields exactly that connection's session events, and logs one fetch per `!` frame up to the first close. |
| Client.PushoverClient.Connect | linkover/client.py:49-80 | `_connect` makes a new socket. Once it is open, the client sends the login frame and then listens. A stop during the connection ends it with the stop request and a close. |
| Client.PushoverClient.RunOnce | linkover/client.py:40-47 | One pass of the loop: connect, then sleep 5 s unless stopped, and stop if asked to during that sleep. |
| Client.PushoverClient.Run | linkover/client.py:39-47 | `run` makes exactly the attempts up to the first stop. Its events are the run trace and its fetches the run's fetches. A client already stopped does nothing at all. |
| Client.SessionIsRounds | linkover/client.py:54-65 | A connection's events are the replayed rounds' callback and purge events, followed by a close if the server asked for one. |
| Client.SessionTraffic | linkover/client.py:54-65 | Nothing but callbacks, purges and the close happens on an open socket. |
| Client.ConnectShape | linkover/client.py:49-80 | A connection starts with a new socket, sends the login frame first once open, and holds no sleep and no second socket. It holds a stop request exactly when `stop()` came during it, and then only just before the final close. |
| Client.RunBacksOff | linkover/client.py:39-47 | Every reconnection in a run comes right after a 5-second sleep. |
| Client.RunStopEndsRun | linkover/client.py:34-47 | Once a stop is requested the run ends: the stop is the next-to-last event and a socket close is the last. |
| Client.RunStopsIff | linkover/client.py:39-47 | A run holds a stop request exactly when some attempt of it is interrupted by `stop()`. |
| Links.IsUrl | linkover/tray_mac.py:48-49 | `_is_url`: the text starts with `http://` or `https://`. The same function appears at linkover/tray_linux.py:25-26 and linkover/tray.py:23-24. |
| Links.UrlScheme | linkover/tray_mac.py:48-49 | A text is a link exactly when it is `http`, then an optional `s`, then `://`. |
| Links.UrlIsLong | linkover/tray_mac.py:113 | A link is never empty, so `if target` means the same as "a target exists". |
| Links.UrlExamples | linkover/tray_mac.py:48-49 | The scheme test is exact and case-sensitive: `HTTPS://`, `ftp://`, `http:/x` and a bare host are not links. |
| Links.Target | linkover/tray_mac.py:101-105 | A target exists iff the url or the body is a link. The url is preferred, then the body, and the result is always a link. |
| Links.TargetText | linkover/tray_mac.py:134 | `target` as text inside the `or` chain: the link, or the empty string when there is none, so that the chain moves on to the body. |
| Links.DisplayBody | linkover/tray_mac.py:106 | The notification body is the url unless the url is empty, and then it is the message body. |
| Links.NotifyTitle | linkover/tray_mac.py:103 | The notification title is the message title, or "Linkover" when the title is empty. It is never empty. |
| Links.FirstNonEmpty | linkover/tray_mac.py:134 | Python's `a or b or ...` over strings: the first non-empty candidate, or the empty string. `Links.FirstNonEmptyIs` states its meaning. |
| Links.FirstNonEmptyIs | linkover/tray_mac.py:134 | Python's `a or b or ...` on strings is empty iff every candidate is. Otherwise it is the first non-empty candidate. |
| Links.Label | linkover/tray_mac.py:134 | A menu label is between 1 and 60 characters long. |
| Links.LabelIsFirstNonEmpty | linkover/tray_mac.py:134 | The label is the first non-empty of title, target, body and "Unknown", cut to 60 characters. |
| Links.LabelOfTitled | linkover/tray_mac.py:134 | A titled message is labelled by its title: the whole title when it is short enough, and its first 60 characters otherwise. |
| Links.PushRecent | linkover/tray_mac.py:108-109 | `appendleft` on the bounded deque puts the message in front and keeps the old entries behind it in order. The list grows by one until it reaches 10, and after that the oldest entry is dropped. |
| Links.PushAll | linkover/tray_mac.py:96-109 | The recent list after a batch is handled message by message, each pushed with `PushRecent`. |
| Links.PushAllIs | linkover/tray_mac.py:96-109 | After a batch is handled, the recent list is the batch newest first, followed by the old list, cut to 10. |
| Links.PushAllBounded | linkover/tray_mac.py:66 | The recent list never holds more than 10 messages. |
| Links.PushAllNewestFirst | linkover/tray_mac.py:109 | Position `k` of the list holds the `k`-th newest message of the batch. |
| Links.Notice | linkover/tray_mac.py:100-115 | Handling a message makes one notification, with its title and display body. It opens the message's target exactly when opening is allowed and a target exists. |
| Links.Notices | linkover/tray_mac.py:96-115 | The effects of handling a tagged batch in order. A message may open its link only when auto-open is on and the message was not initial. |
| Links.Tagged | linkover/tray_mac.py:84 | The pairs `(msg, is_initial)` queued for a batch, one per message in its order. `Links.TaggedPointwise` states its contents. |
| Links.TaggedPointwise | linkover/tray_mac.py:84 | Queuing pairs every message, in its place, with the batch's `is_initial`. |
| Links.Untagged | linkover/tray_mac.py:96 | The messages of queued pairs, in queue order. `Links.UntaggedPointwise` and `Links.UntagTagged` state its contents. |
| Links.UntaggedPointwise | linkover/tray_mac.py:96 | Draining reads each queued message back in its place. |
| Links.UntagTagged | linkover/tray_mac.py:84-96 | Taking the messages back out of a queued batch gives the batch. |
| Links.NoticesOpen | linkover/tray_mac.py:96-115 | A link is opened while a queue is handled exactly when some queued message has it as its target, auto-open is on, and that message was not initial. |
| Links.BatchOpens | linkover/tray_linux.py:66-90 | For one batch, a link is opened exactly when auto-open is on, the batch is not initial, and one of its messages has that link as its target. |
| Links.InitialBatchOpensNothing | linkover/tray_mac.py:97 | The initial batch opens nothing, whatever the switch says. |
| Links.NoticesNotifyEach | linkover/tray_mac.py:96-111 | Every handled message is notified exactly once, in handling order, whatever is opened. |
| Links.AutoOpenSetting | linkover/tray_mac.py:64 | Auto-open is on when the key is absent. Otherwise it follows the truthiness of the stored value. `Links.SavedAutoOpen` states that a saved switch reads back unchanged. |
| Links.SavedAutoOpen | linkover/tray_mac.py:117-120 | Writing the switch back stores it under `auto_open`, so reading it again gives the same setting. Every other key is unchanged. |
| Links.Entry | linkover/tray_mac.py:130-142 | A recent message's entry is labelled by `Label` and is clickable exactly when the message has a target, which the click opens. `Links.RecentSectionShape` places these entries in the menu. |
| Links.Entries | linkover/tray_mac.py:129-142 | The menu entries of the recent list, one `Entry` per message in list order. `Links.EntriesPointwise` states its contents. |
| Links.EntriesPointwise | linkover/tray_mac.py:129-142 | The menu holds one entry per recent message, in list order. |
| Links.BuildRecentSection | linkover/tray_linux.py:112-128 | The menu-building loop produces exactly the recent section: one entry per message, or the placeholder alone when the list is empty. |
| Links.RecentSection | linkover/tray_mac.py:129-144 | The recent part of the menu: one entry per message, or the inert placeholder when the list is empty. |
| Links.RecentSectionShape | linkover/tray_linux.py:112-128 | The empty list shows only the inert "No links yet" placeholder. Otherwise entry `k` has message `k`'s label and is clickable iff that message has a target. |
| TrayMac.MacMenu | linkover/tray_mac.py:127-153 | The macOS menu: the recent section, a separator, the auto-open check item, a separator, and Quit. |
| TrayMac.TrayApp.constructor | linkover/tray_mac.py:61-73 | The app starts with auto-open as configured (on when unset), nothing recent, nothing queued and the menu built. It establishes `Valid`: the menu is current, the list is bounded, and the configuration read back gives the switch. |
| TrayMac.TrayApp.OnMessages | linkover/tray_mac.py:82-84 | `on_messages` appends one `(msg, is_initial)` pair per message to the queue, in order, and changes nothing else. |
| TrayMac.TrayApp.DrainPending | linkover/tray_mac.py:90-98 | Draining an empty queue changes nothing, not even the menu. Otherwise the queue is emptied, and every queued message is handled once in FIFO order, each allowed to open iff the switch is on and it was not initial. The menu is then rebuilt. |
| TrayMac.TrayApp.HandleBatch | linkover/tray_mac.py:96-97 | The drain loop pushes every queued message onto the recent list and appends each one's effects, in queue order. |
| TrayMac.TrayApp.HandleMessage | linkover/tray_mac.py:100-115 | The message goes to the front of the bounded recent list and gets its notification. Its link is opened iff that is allowed and a link exists. |
| TrayMac.TrayApp.OnAutoOpenToggled | linkover/tray_mac.py:117-121 | Toggling flips the switch, stores the new value under `auto_open`, saves the configuration and rebuilds the menu. It keeps the class invariant `Valid`, so reading the saved configuration back gives the new switch. |
| TrayMac.TrayApp.RebuildMenu | linkover/tray_mac.py:123-156 | The menu is the recent section, a separator, the auto-open check item showing the switch, a separator, and Quit. |
| TrayLinux.LinuxMenu | linkover/tray_linux.py:106-150 | The Linux menu: the recent section, then Clear recent, the auto-open check item and Quit, between separators. |
| TrayLinux.SetChecked | linkover/tray_linux.py:97-100 | The menu as GTK shows it after the user sets the check item: every check item ticked to the new state, every other item unchanged. `TrayLinux.SetCheckedPointwise` and `TrayLinux.SetCheckedMenu` state its effect. |
| TrayLinux.SetCheckedPointwise | linkover/tray_linux.py:97-100 | Ticking keeps the menu's length and changes only the check items, each in its place. |
| TrayLinux.SetCheckedMenu | linkover/tray_linux.py:97-100 | The menu GTK shows after the user ticks the check item is the menu built with the new setting. This is why the toggle handler does not need to rebuild the menu. |
| TrayLinux.TrayApp.constructor | linkover/tray_linux.py:48-60 | The app starts with auto-open as configured (on when unset), nothing recent and the menu built. It establishes `Valid`, including that the configuration read back gives the switch. |
| TrayLinux.TrayApp.OnMessages | linkover/tray_linux.py:66-69 | Every message of the batch is handled in order, each allowed to open iff the switch is on and the batch is not initial. A menu refresh is then queued. |
| TrayLinux.TrayApp.HandleMessage | linkover/tray_linux.py:75-90 | The message goes to the front of the recent list and gets its notification. Its link is scheduled for opening iff allowed and one exists. |
| TrayLinux.TrayApp.ClearRecentList | linkover/tray_linux.py:92-95 | Clearing empties the recent list and queues a refresh. |
| TrayLinux.TrayApp.OnAutoOpenToggled | linkover/tray_linux.py:97-100 | The switch takes the check item's state, which is stored under `auto_open` and saved. It keeps `Valid`: reading the saved configuration back gives the new switch, and the shown menu stays consistent without a rebuild. |
| TrayLinux.TrayApp.RefreshMenu | linkover/tray_linux.py:102-150 | The menu is rebuilt as the recent section plus Clear recent, the auto-open check item and Quit, between separators. |
| TrayLegacy.LegacyMenu | linkover/tray.py:92-123 | The older tray's menu: the recent section, a separator and Quit. |
| TrayLegacy.TrayApp.constructor | linkover/tray.py:46-56 | The app starts with nothing recent and the menu built. |
| TrayLegacy.TrayApp.OnMessages | linkover/tray.py:62-65 | Every message is handled once, in order, with opening always allowed. A refresh is then queued. |
| TrayLegacy.TrayApp.HandleMessage | linkover/tray.py:71-86 | The message goes to the front of the recent list and gets its notification. Its link, if any, is scheduled for opening. |
| TrayLegacy.TrayApp.RefreshMenu | linkover/tray.py:88-123 | The menu is the recent section, a separator and Quit. |
| TrayLegacy.EveryLinkOpened | linkover/tray.py:62-86 | Without a switch, every message of a batch that has a target has it opened. |
| Setup.NameChar | linkover/__main__.py:44 | The character class `[a-zA-Z0-9_-]`, over ASCII. |
| Setup.Sanitize | linkover/__main__.py:44 | `re.sub(r"[^a-zA-Z0-9_-]", "-", s)` replaces characters one for one: allowed characters stay in place and every other character becomes `-`. |
| Setup.SanitizeIdempotent | linkover/__main__.py:44 | The result has only allowed characters. Sanitizing twice is sanitizing once, and an already clean name is unchanged. |
| Setup.ShortHostname | linkover/__main__.py:43 | The short host name is the host name up to its first dot, and holds no dot. |
| Setup.ShortHostnameIs | linkover/__main__.py:43 | A dotted host keeps its first label, and a host without a dot is kept whole. |
| Setup.DeviceName | linkover/__main__.py:43-44 | The device name has at most 25 characters, all in `[a-zA-Z0-9_-]`. Its length is exactly `9 + len(host)` capped at 25, and it starts with `linkover-`. |
| Setup.DeviceNameKeepsHost | linkover/__main__.py:44 | Each host character that fits within 25 appears at position `9 + i`: itself when allowed, `-` otherwise. |
| Setup.NeedsSetup | linkover/__main__.py:62 | `not cfg.get("secret") or not cfg.get("device_id")`, with Python truthiness. |
| Setup.NeedsSetupIff | linkover/__main__.py:62 | Setup runs exactly when `secret` or `device_id` is missing or falsy. For string values, that means missing or empty. |
| Setup.SetupConfig | linkover/__main__.py:53 | The saved configuration has exactly the keys `secret` and `device_id`, holding the given values. `Setup.SetupCompletes` states that the next start then skips setup. |
| Setup.SetupCompletes | linkover/__main__.py:53-63 | After setup is saved, the next start skips setup exactly when both saved values are non-empty. |
| Setup.Lower | linkover/__main__.py:33 | Lower-casing maps each ASCII capital to its small letter and keeps every other character. |
| Setup.WantsTwoFactor | linkover/__main__.py:33-34 | The retry test: the lower-cased error text contains `two`, `twofa` or `2fa`. |
| Setup.TwoFactorNeedles | linkover/__main__.py:33-34 | The two-factor retry is triggered iff the lower-cased error contains "two" or "2fa". The "twofa" test adds nothing. |

## Left out

- Network and threads. The WebSocket library, HTTP calls, threads, locks,
  the rumps timer and GLib idle callbacks are not modelled. Connection
  outcomes and fetch outcomes are inputs, and each callback is a method call.
- Time. The sleep between reconnects is a recorded `Sleep(5)` event.
- Raised exceptions. The code catches every exception from the callback and
  from the purge and only logs it, so their outcomes are not inputs; both
  calls are recorded as events. An exception escaping `_connect` ends the
  attempt like a dropped connection, and is covered by that attempt's frames.
- Bytes frames. A frame that arrives as bytes is decoded as UTF-8 first.
  Frames are modelled as text only.
- Client.PushoverClient.Connect: a `stop()` from the tray thread during a
  connection is taken to come after that connection's frames. A stop that
  interleaves with frame handling is not modelled.
- The watermark's persistence across restarts, and a fetch at startup
  independent of a `!` frame. The code has neither.
- `linkover/api.py`. It is a thin HTTP wrapper: `fetch_messages` is the
  `Fetch` input and `delete_messages` is the recorded `Purge` event.
  `login`, `register_device` and `acknowledge` are not part of this model.
- `linkover/config.py`. It only does file I/O. `config.save` is the recorded
  `SaveConfig` effect.
- Message fields. Non-string values and missing ids are not modelled:
  `Msg` has an integer id and string fields, and a field the provider
  leaves out or sends as null is the empty string.
- Links.AutoOpenSetting: an `auto_open` that is not a boolean is read by its
  truthiness throughout. The macOS tray keeps the raw value, and
  linkover/tray_mac.py:149 sets the check item to `int()` of it. For `null`
  or a non-numeric string that raises, and the tray fails to start. A
  numeric string such as "0" is truthy, so links open, but `int("0")` shows
  the item unchecked. The model shows the item at the value's truthiness.
- TrayMac.TrayApp.constructor: for an `auto_open` of `null` or a
  non-numeric string the code raises during the first menu build
  (linkover/tray_mac.py:73, 149). The model does not raise; it starts with
  the switch at the value's truthiness.
- Config.Value: JSON values are null, booleans, integers and strings only.
  Floats, lists and objects, which `json.load` can also return, are not
  modelled.
- GUI widgets. Icon drawing, notifications, browser launching and the
  widgets themselves are not modelled. Menus are lists of items, and opening
  a link is an effect. On Linux and in the older tray, an open is recorded
  when it is scheduled.
- Deferred menu refresh. The refresh queued on the GLib main loop is the
  `refreshPending` flag plus the `RefreshMenu` method.
- The GTK check item's own change of state when clicked is modelled by
  `TrayLinux.SetChecked`.
- The wiring in `main`. `TrayApp()` at linkover/__main__.py:65 has no
  configuration argument, while both trays' constructors require one, so it
  is not modelled.
- The older tray's `on_messages` takes no `is_initial`, although the client
  calls the callback with two arguments. That tray is not imported, and it
  is modelled with its own one-argument signature.
- Interactive setup. `input`, `getpass`, `gethostname`, `sys.exit`, the login
  calls and device registration are not modelled. The host name and the
  error text are parameters.
- Setup.Lower: only ASCII capitals are lower-cased, while Python's `lower()`
  also maps other capitals. None of those becomes a letter of "two", "twofa"
  or "2fa", so the two-factor test decides as the code does.
- Logging has no effect on behaviour and is not modelled.
