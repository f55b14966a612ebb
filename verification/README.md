# Twitch chat overlay — Dafny model

This project models the browser script of a small Twitch chat overlay. The
script connects anonymously to Twitch's IRC-over-WebSocket endpoint and joins
one channel. It answers the server's keep-alive `PING` with a `PONG`. It turns
every `PRIVMSG` line into a rendered message box, trims the oldest boxes so that
the chat never overflows its container, and reconnects one second after the
socket closes. At start-up it also chooses a dark or light theme.

The model has five modules:

- `JsString` (`js_string.dfy`) gives the JavaScript string operations the
  script relies on, with their clamping and not-found cases. `indexOf` of one character
  answers -1 when the character is absent. `substring` clamps both arguments
  into the string and swaps them when they are out of order. `includes` is
  substring containment.
- `LineParser` (`line_parser.dfy`) is `parseMessage`, built from those
  operations in the order the script composes them.
- `ChatDisplay` (`chat_display.dfy`) is `limitMessage`. The chat container is
  the sequence of its message boxes, oldest first, each reduced to its rendered
  height. The container's visible height is a fixed capacity.
- `ChatSession` (`chat_session.dfy`) is `connect` with its four socket
  handlers, written as a pure function from events (`Opened`, `LineReceived`,
  `Closed`, `Errored`, `TimerFired`) to actions. The actions are `OpenSocket`,
  `Send`, `Render`, `LimitDisplay` and `ScheduleReconnect`. A small `Session`
  record (socket phase, timer armed) says which events the environment can
  deliver next. It is used to state properties of whole traces.
- `Theme` (`theme.dfy`) is the decision `setTheme` takes. It sees the query
  string and the browser's dark-scheme preference, and answers whether the
  `dark` class ends up on the root element.

## Model

| member | source | states |
|---|---|---|
| JsString.IndexOfSpec | script.js:52-54 | `indexOf` gives -1 exactly when the character is absent; otherwise it gives a position holding the character, with no earlier occurrence |
| JsString.SubstringSpec | script.js:54 | `substring(a, b)` equals `substring(b, a)`; with both arguments in range it is the slice between them; an argument below 0 reads as 0 and one past the end as the length (so `substring(a, b)` with `a <= 0 <= b` is the prefix up to `b`, and with `a` in range and `b` past the end the tail from `a`); two arguments on the same side of the string give the empty string; the result is always a contiguous piece of the string |
| JsString.SubstringFromSpec | script.js:52-53 | `substring(a)` is the whole string for `a <= 0`, empty from the length on, the tail from `a` in between, and always a suffix |
| JsString.IncludesIff | script.js:22-26 | `includes(t)` holds exactly when some window of the string spells `t` (both directions) |
| LineParser.ParseMessagePieces | script.js:50-56 | parsing never fails on any line; the message is always a suffix of the line and the username a contiguous piece of it |
| LineParser.ParseFormatted | script.js:50-56 | round trip: for a line `:nick!ident PRIVMSG #channel :body`, the parser returns exactly `body` and `nick`, for every body, provided the nick has no `!` or `#`, the ident no `#`, and the channel no `:` |
| LineParser.ParseBodyAfterChannel | script.js:52-53 | the message is everything after the first `:` at or after the first `#` |
| LineParser.ParseBodyWithoutColon | script.js:52-53 | with a `#` but no `:` after the first one, the message is the whole command part from that `#` to the end (`:a!b PRIVMSG #c` gives `#c`) |
| LineParser.ParseUsernameBeforeBang | script.js:54 | when the first `!` sits at position 1 or later, the username is what lies between position 1 and it |
| LineParser.ParseWithoutChannel | script.js:52-53 | with no `#`, the whole line stands for the command part: the message is what follows the first `:`, or the entire line when there is none |
| LineParser.ParseUsernameDegenerate | script.js:54 | with no `!` the username is the first character of the line (empty for an empty line); with a leading `!` it is `"!"` |
| LineParser.ParseKeepsEmbeddedColon | script.js:52-53 | `:a!b PRIVMSG #c :hello: world` parses to message `hello: world` and username `a` |
| ChatDisplay.LimitMessages | script.js:76-85 | the boxes left are a suffix of the display in the same order and their height fits the capacity; when anything was removed, the box removed last overflowed together with them, so with `OverflowGrows` no longer suffix fits and this is the longest fitting one; a display that does not overflow loses nothing |
| ChatDisplay.OverflowGrows | script.js:80 | a run of newest boxes that overflows still overflows with older boxes in front of it, so the eviction loop's test is monotone in how many boxes remain |
| ChatDisplay.ShowMessage | script.js:28-31 | after rendering a box and trimming, the result is a fitting suffix of the display with the new box appended; when older boxes were evicted, the newest of them overflowed together with the ones kept, so (with `OverflowGrows`) the result is the longest fitting suffix; the new box survives exactly when it fits by itself, and it is then the newest box |
| ChatSession.HandleLine | script.js:20-33 | a line containing `PING` sends exactly one `PONG :tmi.twitch.tv`, renders nothing and trims nothing; otherwise a line containing `PRIVMSG` renders its parsed form once, every render is followed by a trim and there are as many trims as renders; any other line does nothing; no line opens a socket or arms a timer |
| ChatSession.Respond | script.js:6-45 | opening sends `PASS oauth:`, `NICK justinfan123`, `JOIN #dirtex808` in that order and nothing else; closing arms one reconnect after 1000 ms and nothing else; an error does nothing; only the timer opens a socket; only a received line trims the display |
| ChatSession.RunKeepsConsistent | script.js:35-39 | over any deliverable trace, a reconnect timer is armed exactly while there is no socket |
| ChatSession.RunSocketBalance | script.js:1-39 | over any deliverable trace, live sockets at the start plus sockets opened equal sockets closed plus live sockets at the end |
| ChatSession.AtMostOneLiveSocket | script.js:1-39 | from start-up, the sockets ever opened exceed the closes by the one live socket, if any: there is never more than one |
| ChatSession.RunReconnects | script.js:35-39 | over any trace, each close arms exactly one reconnect, always with the 1000 ms delay |
| ChatSession.RunOpens | script.js:1-39 | over any trace, the sockets opened are exactly the timer expiries |
| ChatSession.RunPongs | script.js:20-25 | over any trace, the `PONG` replies sent are exactly as many as the received lines containing `PING` |
| ChatSession.RespondRenders | script.js:20-33 | an event renders something only when it is a received line with `PRIVMSG` and no `PING`, and then it renders that line's parsed form |
| ChatSession.RunRendersChatLines | script.js:20-33 | over any trace, the display receives exactly the parsed chat lines, in arrival order |
| ChatSession.FormattedIsChatLine | script.js:26 | every line of the form `:nick!ident PRIVMSG #channel :body` contains the `PRIVMSG` token |
| ChatSession.ChatLineRendered | script.js:26-31 | a well-formed channel message without `PING` renders its body under its sender's nick, and the display is then trimmed |
| ChatSession.ReconnectCycle | script.js:35-39 | from a joined socket, a close followed by the timer arms one 1000 ms reconnect, opens one new socket, and returns to the connecting phase |
| ChatSession.SessionLifecycle | script.js:6-39 | for any received line, opening, receiving the line, closing and the timer is a deliverable trace; it produces the sign-in lines, that line's handling, one reconnect and one new socket, in that order |
| Theme.DarkTheme | script.js:88-114 | the dark theme is chosen exactly when some window of the query spells `theme=dark`, or no window spells `theme=light` and the system prefers dark |
| Theme.DarkWinsOverLight | script.js:91-100 | a query naming both settings, in either order (`?theme=light&theme=dark`), gets the dark theme whatever the system prefers |
| Theme.OverrideIgnoresSystem | script.js:90-100 | when the query names a theme, the result is the same whatever the system preference |

## Left out

- JsString: strings are sequences of Unicode code points, while JavaScript's
  `indexOf` and `substring` count UTF-16 code units. The delimiters the parser
  searches for are ASCII, so the pieces cut at the positions `indexOf` finds
  are the same in both. Only the fixed start position 1 of the username can
  differ: when the line's first character lies outside the Basic Multilingual
  Plane (an emoji, say), the script cuts that character's surrogate pair in
  half and the username holds a lone surrogate (for `😀 PRIVMSG`, with no `!`,
  the high surrogate alone), while the model keeps or drops the whole
  character.
- The WebSocket object, its URL and the transport. Sending a line, opening a
  socket and arming a timer are actions the handlers return; nothing performs
  them.
- Console logging in every handler and in `setTheme`. It has no effect on the
  chat.
- The DOM. `renderMessage` becomes a `Render` action. For `limitMessage`, each
  message box is reduced to its rendered height. The content height is the sum
  of the box heights and the visible height is a fixed capacity. Layout,
  margins and fonts are not modelled.
- Timing. `setTimeout(connect, 1000)` becomes `ScheduleReconnect(1000)`. Its
  later expiry is the `TimerFired` event, and that event's response is the new
  socket `connect` opens. Real time is not modelled.
- The `Session` record. The script keeps no state of its own, so `Session` is
  bookkeeping added on top of it. `Enabled` states what the browser is assumed
  to deliver: `open` only on a socket that is connecting, messages only once it
  is joined, `close`/`error` only on a live socket, and the timer only once
  armed. The trace properties hold under that assumption.
- A floor of one kept message. The script's loop removes the oldest box for as long as the content overflows. So a single
  message taller than the container is removed too, and the display can end up
  empty. The model follows the script.
- A guarantee of a non-empty username. The script does not give one. A line whose first `!` is at position 1 yields an empty username,
  and a line without `!` yields its first character. The model states what the
  script computes.
- The two calls at the bottom of the script (`setTheme()` then `connect()`).
  Their effect is the `Launched` starting state with its single `OpenSocket`
  action.
