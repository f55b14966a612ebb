/**
 `connect` and its four socket handlers as a pure transition system. Each
 callback the browser would run becomes an `Event`; everything a handler does to
 the outside world (sending a line, rendering a message, trimming the display,
 arming the reconnect timer, opening a new socket) becomes an `Action`.

 The handlers keep no state of their own, so `Respond` depends on the event
 alone. `Session` is bookkeeping layered on top: which phase the current socket
 is in and whether a reconnect timer is armed. It tells which events the
 environment can deliver next (`Enabled`) and lets the trace lemmas speak about
 live sockets.
 */
module ChatSession {
  import opened JsString
  import opened LineParser

  const PassLine := "PASS oauth:"
  const NickLine := "NICK justinfan123"
  const JoinLine := "JOIN #dirtex808"
  const PongLine := "PONG :tmi.twitch.tv"
  const PingToken := "PING"
  const PrivmsgToken := "PRIVMSG"
  /** Milliseconds between a close and the next connection attempt. */
  const ReconnectDelay: nat := 1000

  datatype Event =
    | Opened
    | LineReceived(text: string)
    | Closed
    | Errored
    | TimerFired

  datatype Action =
    | OpenSocket
    | Send(line: string)
    | Render(message: string, username: string)
    | LimitDisplay
    | ScheduleReconnect(ms: nat)

  datatype Phase = Disconnected | Connecting | Joined

  datatype Session = Session(phase: Phase, timerPending: bool)

  /** The line an action sends, if it is a send. */
  function SentBy(a: Action): seq<string> {
    if a.Send? then [a.line] else []
  }

  /** The message an action renders, if it is a render. */
  function RenderedBy(a: Action): seq<ParsedMessage> {
    if a.Render? then [ParsedMessage(a.message, a.username)] else []
  }

  /** The delay an action arms the reconnect timer with, if it does. */
  function ReconnectBy(a: Action): seq<nat> {
    if a.ScheduleReconnect? then [a.ms] else []
  }

  /** The socket an action opens, if it opens one. */
  function OpenedBy(a: Action): seq<Action> {
    if a.OpenSocket? then [a] else []
  }

  /** The display trim an action performs, if it is one. */
  function TrimmedBy(a: Action): seq<Action> {
    if a.LimitDisplay? then [a] else []
  }

  /** What one kind of observer sees of a run of actions, in order. */
  function Collect<T>(f: Action -> seq<T>, acts: seq<Action>): seq<T> {
    if |acts| == 0 then [] else f(acts[0]) + Collect(f, acts[1..])
  }

  /** The lines sent over the socket, in order. */
  function Sends(acts: seq<Action>): seq<string> {
    Collect(SentBy, acts)
  }

  /** The messages handed to the display, in order. */
  function Rendered(acts: seq<Action>): seq<ParsedMessage> {
    Collect(RenderedBy, acts)
  }

  /** The reconnect delays requested, in order. */
  function Reconnects(acts: seq<Action>): seq<nat> {
    Collect(ReconnectBy, acts)
  }

  /** The number of sockets opened. */
  function Opens(acts: seq<Action>): nat {
    |Collect(OpenedBy, acts)|
  }

  /** The number of times the display is trimmed. */
  function Trims(acts: seq<Action>): nat {
    |Collect(TrimmedBy, acts)|
  }

  /** Observers distribute over concatenation. */
  lemma {:induction false} CollectAppend<T>(f: Action -> seq<T>, a: seq<Action>, b: seq<Action>)
    ensures Collect(f, a + b) == Collect(f, a) + Collect(f, b)
    decreases |a|
  {
    if |a| == 0 {
      assert a + b == b;
    } else {
      assert (a + b)[1..] == a[1..] + b;
      CollectAppend(f, a[1..], b);
    }
  }

  /** An observer of one action sees what that action shows it. */
  lemma CollectOne<T>(f: Action -> seq<T>, a: Action)
    ensures Collect(f, [a]) == f(a)
  {
    assert [a][1..] == [];
    assert f(a) + [] == f(a);
  }

  /** What the observers see of a one-action sequence. */
  lemma ObserveOne(a: Action)
    ensures Sends([a]) == SentBy(a) && Rendered([a]) == RenderedBy(a)
    ensures Reconnects([a]) == ReconnectBy(a)
    ensures Opens([a]) == |OpenedBy(a)| && Trims([a]) == |TrimmedBy(a)|
  {
    CollectOne(SentBy, a);
    CollectOne(RenderedBy, a);
    CollectOne(ReconnectBy, a);
    CollectOne(OpenedBy, a);
    CollectOne(TrimmedBy, a);
  }

  /** The observers distribute over a leading action. */
  lemma ObserveCons(a: Action, rest: seq<Action>)
    ensures Sends([a] + rest) == SentBy(a) + Sends(rest)
    ensures Rendered([a] + rest) == RenderedBy(a) + Rendered(rest)
    ensures Reconnects([a] + rest) == ReconnectBy(a) + Reconnects(rest)
    ensures Opens([a] + rest) == |OpenedBy(a)| + Opens(rest)
    ensures Trims([a] + rest) == |TrimmedBy(a)| + Trims(rest)
  {
    assert ([a] + rest)[0] == a && ([a] + rest)[1..] == rest;
  }

  /** `onmessage`: a keep-alive probe is answered first; otherwise a chat line is
      parsed, rendered and the display trimmed; anything else is ignored. Both
      checks are plain substring containment. */
  function HandleLine(text: string): (acts: seq<Action>)
    ensures Sends(acts) == if Includes(text, PingToken) then [PongLine] else []
    ensures Rendered(acts) ==
      if !Includes(text, PingToken) && Includes(text, PrivmsgToken) then [ParseMessage(text)] else []
    ensures !Includes(text, PingToken) && !Includes(text, PrivmsgToken) ==> acts == []
    ensures forall i :: 0 <= i < |acts| && acts[i].Render? ==> i + 1 < |acts| && acts[i + 1] == LimitDisplay
    ensures Trims(acts) == |Rendered(acts)|
    ensures Opens(acts) == 0 && Reconnects(acts) == []
  {
    if Includes(text, PingToken) then
      ObserveOne(Send(PongLine));
      [Send(PongLine)]
    else if Includes(text, PrivmsgToken) then
      var parsed := ParseMessage(text);
      ObserveOne(LimitDisplay);
      ObserveCons(Render(parsed.message, parsed.username), [LimitDisplay]);
      [Render(parsed.message, parsed.username), LimitDisplay]
    else
      []
  }

  /** What the handler for an event does. `onopen` authenticates anonymously and
      joins the channel, `onclose` arms the reconnect timer, `onerror` only logs,
      and the timer calls `connect` again, which opens a new socket. */
  function Respond(e: Event): (acts: seq<Action>)
    ensures match e
      case Opened =>
        Sends(acts) == [PassLine, NickLine, JoinLine] && Rendered(acts) == []
        && Reconnects(acts) == [] && Opens(acts) == 0 && Trims(acts) == 0
      case LineReceived(text) => acts == HandleLine(text)
      case Closed =>
        Reconnects(acts) == [ReconnectDelay] && Sends(acts) == [] && Rendered(acts) == []
        && Opens(acts) == 0 && Trims(acts) == 0
      case Errored => acts == []
      case TimerFired =>
        Opens(acts) == 1 && Sends(acts) == [] && Rendered(acts) == [] && Reconnects(acts) == []
        && Trims(acts) == 0
  {
    match e
    case Opened =>
      ObserveOne(Send(JoinLine));
      ObserveCons(Send(NickLine), [Send(JoinLine)]);
      ObserveCons(Send(PassLine), [Send(NickLine), Send(JoinLine)]);
      [Send(PassLine), Send(NickLine), Send(JoinLine)]
    case LineReceived(text) => HandleLine(text)
    case Closed =>
      ObserveOne(ScheduleReconnect(ReconnectDelay));
      [ScheduleReconnect(ReconnectDelay)]
    case Errored => []
    case TimerFired =>
      ObserveOne(OpenSocket);
      [OpenSocket]
  }

  /** The bookkeeping a handler implies: the socket opens, closes, or the timer
      replaces it with a new one; lines and errors change nothing. */
  function Next(s: Session, e: Event): Session {
    match e
    case Opened => s.(phase := Joined)
    case LineReceived(_) => s
    case Closed => Session(Disconnected, true)
    case Errored => s
    case TimerFired => Session(Connecting, false)
  }

  /** The events the environment can deliver: a socket opens only while it is
      connecting, lines arrive only once joined, a live socket can error or close,
      and the timer fires only once armed. */
  predicate Enabled(s: Session, e: Event) {
    match e
    case Opened => s.phase == Connecting
    case LineReceived(_) => s.phase == Joined
    case Closed => s.phase != Disconnected
    case Errored => s.phase != Disconnected
    case TimerFired => s.timerPending
  }

  /** A timer is armed exactly while there is no socket. */
  predicate Consistent(s: Session) {
    s.timerPending <==> s.phase == Disconnected
  }

  /** Sockets that are open or opening: zero or one. */
  function Live(s: Session): nat {
    if s.phase == Disconnected then 0 else 1
  }

  /** The state and actions right after start-up, which calls `connect` once. */
  const Launched := Session(Connecting, false)
  const LaunchActions := [OpenSocket]

  /** Processes events one at a time, in delivery order. */
  function Run(s: Session, events: seq<Event>): (Session, seq<Action>)
    decreases |events|
  {
    if |events| == 0 then (s, [])
    else
      var rest := Run(Next(s, events[0]), events[1..]);
      (rest.0, Respond(events[0]) + rest.1)
  }

  /** Every event of the sequence is enabled in the state it reaches. */
  predicate ValidTrace(s: Session, events: seq<Event>)
    decreases |events|
  {
    |events| == 0 || (Enabled(s, events[0]) && ValidTrace(Next(s, events[0]), events[1..]))
  }

  /** The number of close events in a trace. */
  function Closes(events: seq<Event>): nat {
    if |events| == 0 then 0 else (if events[0].Closed? then 1 else 0) + Closes(events[1..])
  }

  /** The number of timer expiries in a trace. */
  function TimerFirings(events: seq<Event>): nat {
    if |events| == 0 then 0 else (if events[0].TimerFired? then 1 else 0) + TimerFirings(events[1..])
  }

  /** Whether an event is a received line containing the keep-alive token. */
  predicate IsProbe(e: Event) {
    e.LineReceived? && Includes(e.text, PingToken)
  }

  /** The number of received lines that contain the keep-alive token. */
  function PingCount(events: seq<Event>): nat {
    if |events| == 0 then 0 else (if IsProbe(events[0]) then 1 else 0) + PingCount(events[1..])
  }

  /** The number of `PONG` replies among the lines sent. */
  function PongCount(lines: seq<string>): nat {
    if |lines| == 0 then 0 else (if lines[0] == PongLine then 1 else 0) + PongCount(lines[1..])
  }

  /** The parsed message of a received chat line: one carrying `PRIVMSG` but not `PING`. */
  function ChatMessageOf(e: Event): seq<ParsedMessage> {
    if e.LineReceived? && !Includes(e.text, PingToken) && Includes(e.text, PrivmsgToken)
    then [ParseMessage(e.text)] else []
  }

  /** The parsed chat lines of a trace, in order. */
  function ChatMessages(events: seq<Event>): seq<ParsedMessage> {
    if |events| == 0 then [] else ChatMessageOf(events[0]) + ChatMessages(events[1..])
  }

  lemma {:induction false} PongCountAppend(a: seq<string>, b: seq<string>)
    ensures PongCount(a + b) == PongCount(a) + PongCount(b)
    decreases |a|
  {
    if |a| == 0 {
      assert a + b == b;
    } else {
      assert (a + b)[1..] == a[1..] + b;
      PongCountAppend(a[1..], b);
    }
  }

  /** One step of a run: the first event's response, then the rest. */
  lemma RunCons(s: Session, events: seq<Event>)
    requires |events| > 0
    ensures Run(s, events).1 == Respond(events[0]) + Run(Next(s, events[0]), events[1..]).1
    ensures Run(s, events).0 == Run(Next(s, events[0]), events[1..]).0
  {
  }

  /** Every enabled event keeps the timer armed exactly while there is no socket. */
  lemma {:induction false} RunKeepsConsistent(s: Session, events: seq<Event>)
    requires Consistent(s) && ValidTrace(s, events)
    ensures Consistent(Run(s, events).0)
    decreases |events|
  {
    if |events| > 0 {
      RunKeepsConsistent(Next(s, events[0]), events[1..]);
    }
  }

  /** Socket accounting: sockets live at the start plus sockets opened equal
      sockets closed plus sockets live at the end. A new socket is opened only
      by the timer, which is armed only by a close, so two sockets are never
      live at once. */
  lemma {:induction false} RunSocketBalance(s: Session, events: seq<Event>)
    requires Consistent(s) && ValidTrace(s, events)
    ensures Live(s) + Opens(Run(s, events).1) == Closes(events) + Live(Run(s, events).0)
    decreases |events|
  {
    if |events| > 0 {
      var e := events[0];
      RunSocketBalance(Next(s, e), events[1..]);
      CollectAppend(OpenedBy, Respond(e), Run(Next(s, e), events[1..]).1);
    }
  }

  /** Over any valid trace from start-up, at most one socket is open or opening
      at any time: the sockets opened outnumber the closes by exactly the live one. */
  lemma AtMostOneLiveSocket(events: seq<Event>)
    requires ValidTrace(Launched, events)
    ensures var (final, acts) := Run(Launched, events);
      Opens(LaunchActions + acts) == Closes(events) + Live(final) <= Closes(events) + 1
  {
    var acts := Run(Launched, events).1;
    RunSocketBalance(Launched, events);
    CollectAppend(OpenedBy, LaunchActions, acts);
    ObserveOne(OpenSocket);
  }

  /** Each close arms exactly one reconnect, always with the fixed delay. */
  lemma {:induction false} RunReconnects(s: Session, events: seq<Event>)
    ensures Reconnects(Run(s, events).1) == seq(Closes(events), _ => ReconnectDelay)
    decreases |events|
  {
    if |events| > 0 {
      var e := events[0];
      var rest := Run(Next(s, e), events[1..]).1;
      RunReconnects(Next(s, e), events[1..]);
      CollectAppend(ReconnectBy, Respond(e), rest);
      assert Reconnects(Respond(e)) == if e.Closed? then [ReconnectDelay] else [];
    }
  }

  /** Each timer expiry opens exactly one socket, and nothing else opens one. */
  lemma {:induction false} RunOpens(s: Session, events: seq<Event>)
    ensures Opens(Run(s, events).1) == TimerFirings(events)
    decreases |events|
  {
    if |events| > 0 {
      var e := events[0];
      RunOpens(Next(s, e), events[1..]);
      CollectAppend(OpenedBy, Respond(e), Run(Next(s, e), events[1..]).1);
    }
  }

  /** One `PONG` is sent per received line containing `PING`, and no other event sends it. */
  lemma {:induction false} RunPongs(s: Session, events: seq<Event>)
    ensures PongCount(Sends(Run(s, events).1)) == PingCount(events)
    decreases |events|
  {
    if |events| > 0 {
      var e := events[0];
      var rest := Run(Next(s, e), events[1..]).1;
      RunPongs(Next(s, e), events[1..]);
      CollectAppend(SentBy, Respond(e), rest);
      PongCountAppend(Sends(Respond(e)), Sends(rest));
      assert PongCount(Sends(Respond(e))) == if IsProbe(e) then 1 else 0 by {
        if e.Opened? {
          assert Sends(Respond(e)) == [PassLine] + [NickLine] + [JoinLine];
          PongCountAppend([PassLine] + [NickLine], [JoinLine]);
          PongCountAppend([PassLine], [NickLine]);
        }
      }
    }
  }

  /** Only a received chat line renders anything, and then its parsed form. */
  lemma RespondRenders(e: Event)
    ensures Rendered(Respond(e)) == ChatMessageOf(e)
  {
    if e.LineReceived? {
      assert Respond(e) == HandleLine(e.text);
    }
  }

  /** The display receives exactly the parsed chat lines, in the order they arrived;
      a line containing both `PING` and `PRIVMSG` is never rendered. */
  lemma {:induction false} RunRendersChatLines(s: Session, events: seq<Event>)
    ensures Rendered(Run(s, events).1) == ChatMessages(events)
    decreases |events|
  {
    if |events| > 0 {
      var e := events[0];
      RunRendersChatLines(Next(s, e), events[1..]);
      CollectAppend(RenderedBy, Respond(e), Run(Next(s, e), events[1..]).1);
      RespondRenders(e);
    }
  }

  /** A formatted channel message carries the `PRIVMSG` token. */
  lemma FormattedIsChatLine(nick: string, ident: string, channel: string, body: string)
    ensures Includes(FormatPrivmsg(nick, ident, channel, body), PrivmsgToken)
  {
    var line := FormatPrivmsg(nick, ident, channel, body);
    var at := |nick| + |ident| + 3;
    assert line == ":" + nick + "!" + ident + " " + PrivmsgToken + " #" + channel + " :" + body;
    assert line[at..at + |PrivmsgToken|] == PrivmsgToken;
    IncludesWindow(line, PrivmsgToken, at);
  }

  /** A run of one event is that event's response and step. */
  lemma RunOne(s: Session, e: Event)
    ensures Run(s, [e]) == (Next(s, e), Respond(e))
    ensures ValidTrace(s, [e]) == Enabled(s, e)
  {
    assert [e][0] == e && [e][1..] == [];
    RunCons(s, [e]);
    assert Run(s, [e]).1 == Respond(e) + [] == Respond(e);
    assert Run(s, [e]).0 == Next(s, e);
  }

  /** Losing a joined socket arms one reconnect with the fixed delay, and the
      timer then opens exactly one new socket, back in the connecting phase. */
  lemma ReconnectCycle()
    ensures ValidTrace(Session(Joined, false), [Closed, TimerFired])
    ensures Run(Session(Joined, false), [Closed, TimerFired])
      == (Launched, [ScheduleReconnect(ReconnectDelay), OpenSocket])
  {
    var joined, waiting := Session(Joined, false), Session(Disconnected, true);
    var events := [Closed, TimerFired];
    assert events[0] == Closed && events[1..] == [TimerFired];
    assert Next(joined, Closed) == waiting && Next(waiting, TimerFired) == Launched;
    RunOne(waiting, TimerFired);
    RunCons(joined, events);
    assert Respond(Closed) + Respond(TimerFired) == [ScheduleReconnect(ReconnectDelay), OpenSocket];
  }

  /** Opening the socket signs in, then the session goes on joined. */
  lemma RunOpenedFirst(events: seq<Event>)
    requires |events| > 0 && events[0] == Opened
    ensures Run(Launched, events).0 == Run(Session(Joined, false), events[1..]).0
    ensures Run(Launched, events).1
      == [Send(PassLine), Send(NickLine), Send(JoinLine)] + Run(Session(Joined, false), events[1..]).1
  {
    assert Next(Launched, Opened) == Session(Joined, false);
    assert Respond(Opened) == [Send(PassLine), Send(NickLine), Send(JoinLine)];
    RunCons(Launched, events);
  }

  /** A joined session handles one line, then loses and regains its socket. */
  lemma RunLineThenReconnect(line: string)
    ensures Run(Session(Joined, false), [LineReceived(line), Closed, TimerFired]).0 == Launched
    ensures Run(Session(Joined, false), [LineReceived(line), Closed, TimerFired]).1
      == HandleLine(line) + [ScheduleReconnect(ReconnectDelay), OpenSocket]
    ensures ValidTrace(Session(Joined, false), [LineReceived(line), Closed, TimerFired])
  {
    var joined := Session(Joined, false);
    var tail := [LineReceived(line), Closed, TimerFired];
    assert tail[0] == LineReceived(line) && tail[1..] == [Closed, TimerFired];
    assert Next(joined, LineReceived(line)) == joined;
    assert Respond(LineReceived(line)) == HandleLine(line);
    ReconnectCycle();
    RunCons(joined, tail);
  }

  /** Concatenation regroups freely. */
  lemma AppendAssoc<T>(a: seq<T>, b: seq<T>, c: seq<T>)
    ensures a + (b + c) == a + b + c
  {
  }

  /** The whole life of a session: open and sign in, receive one line, lose the
      socket, and reconnect when the timer fires. */
  lemma SessionLifecycle(line: string)
    ensures var events := [Opened, LineReceived(line), Closed, TimerFired];
      && ValidTrace(Launched, events)
      && Run(Launched, events) == (Launched,
        [Send(PassLine), Send(NickLine), Send(JoinLine)] + HandleLine(line)
        + [ScheduleReconnect(ReconnectDelay), OpenSocket])
  {
    var events := [Opened, LineReceived(line), Closed, TimerFired];
    var tail := [LineReceived(line), Closed, TimerFired];
    assert events[0] == Opened && events[1..] == tail;
    RunOpenedFirst(events);
    RunLineThenReconnect(line);
    var opening := [Send(PassLine), Send(NickLine), Send(JoinLine)];
    var closing := [ScheduleReconnect(ReconnectDelay), OpenSocket];
    var r := Run(Launched, events);
    assert r.0 == Launched;
    assert r.1 == opening + (HandleLine(line) + closing);
    AppendAssoc(opening, HandleLine(line), closing);
    assert ValidTrace(Launched, events) by {
      assert Enabled(Launched, Opened) && Next(Launched, Opened) == Session(Joined, false);
    }
  }

  /** A well-formed channel message without a `PING` in it is rendered as its
      body under its sender's nickname, and the display is trimmed after it. */
  lemma ChatLineRendered(nick: string, ident: string, channel: string, body: string)
    requires Parseable(nick, ident, channel)
    requires !Includes(FormatPrivmsg(nick, ident, channel, body), PingToken)
    ensures HandleLine(FormatPrivmsg(nick, ident, channel, body)) == [Render(body, nick), LimitDisplay]
  {
    ParseFormatted(nick, ident, channel, body);
    FormattedIsChatLine(nick, ident, channel, body);
  }
}
