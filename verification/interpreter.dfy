/** The chat command interpreter (`handleCommand`): it normalises the
    message text, recognises one of the command tokens, acts on the sender's
    most recent alert, and answers. The resolution chart renderer is an input
    outcome: `rendered` says whether the renderer process succeeded. */
module Interpreter {
  import opened Wrappers
  import opened JsText
  import opened Catalog
  import opened AlertStore
  import opened GraphPaths
  import opened Messages

  datatype Command = Help | Status | Acknowledge | Resolve | History | Unrecognized

  /** `message.body.toLowerCase().trim()`. */
  function Normalize(body: string): (t: string)
    ensures IsTrimmed(t)
  {
    Trim(ToLower(body))
  }

  /** The `switch` on the normalised text. */
  function Parse(body: string): Command {
    Classify(Normalize(body))
  }

  /** The `case` labels of the `switch`; any other text is unrecognised. */
  function Classify(t: string): (c: Command)
    ensures c != Unrecognized <==> t in {"#help", "#commands", "#status", "#acknowledge", "#resolve", "#history"}
    ensures c == Help <==> t == "#help" || t == "#commands"
  {
    if t == "#help" || t == "#commands" then Help
    else if t == "#status" then Status
    else if t == "#acknowledge" then Acknowledge
    else if t == "#resolve" then Resolve
    else if t == "#history" then History
    else Unrecognized
  }

  /** The canonical spelling of a command: its `case` label (`#help` for help). */
  function Token(c: Command): (t: string)
    requires c != Unrecognized
    ensures Classify(t) == c
  {
    match c
    case Help => "#help"
    case Status => "#status"
    case Acknowledge => "#acknowledge"
    case Resolve => "#resolve"
    case History => "#history"
  }

  /** Surrounding white space and letter case do not change the normalised text. */
  lemma NormalizeIgnoresCaseAndPadding(w1: string, body: string, w2: string)
    requires AllSpace(w1) && AllSpace(w2)
    ensures Normalize(w1 + body + w2) == Normalize(body)
    ensures Normalize(ToLower(body)) == Normalize(body)
  {
    ToLowerConcat(w1 + body, w2);
    ToLowerConcat(w1, body);
    ToLowerOfSpace(w1);
    ToLowerOfSpace(w2);
    assert ToLower(w1 + body + w2) == w1 + ToLower(body) + w2;
    TrimIgnoresPadding(w1, ToLower(body), w2);
    ToLowerIdempotent(body);
  }

  /** Letter case and surrounding white space never change the command. */
  lemma ParseIgnoresCaseAndPadding(w1: string, body: string, w2: string)
    requires AllSpace(w1) && AllSpace(w2)
    ensures Parse(w1 + body + w2) == Parse(body)
    ensures Parse(ToLower(body)) == Parse(body)
  {
    NormalizeIgnoresCaseAndPadding(w1, body, w2);
  }

  lemma ParseIgnoresTrailingSpaceAndCase(body: string, w: string)
    requires AllSpace(w)
    ensures Parse(body + w) == Parse(ToLower(body))
  {
    EmptyPrefix(body);
    ParseIgnoresCaseAndPadding([], body, w);
  }

  /** A lower-case text without surrounding space is its own normal form. */
  lemma NormalFormIsFixed(t: string)
    requires forall i :: 0 <= i < |t| ==> !('A' <= t[i] <= 'Z')
    requires IsTrimmed(t)
    ensures Normalize(t) == t
  {
    ToLowerOfLower(t);
    TrimOfTrimmed(t);
  }

  /** A command-table token parses to the command it names. */
  lemma TokenParses(t: string, c: Command)
    requires t in {"#help", "#commands", "#status", "#acknowledge", "#resolve", "#history"}
    requires c == Classify(t)
    ensures Parse(t) == c != Unrecognized
  {
    TokenIsNormal(t);
    NormalFormIsFixed(t);
  }

  lemma TokenIsNormal(t: string)
    requires t in {"#help", "#commands", "#status", "#acknowledge", "#resolve", "#history"}
    ensures forall i :: 0 <= i < |t| ==> !('A' <= t[i] <= 'Z')
    ensures IsTrimmed(t) && Classify(t) != Unrecognized
  {
    assert forall i :: 0 <= i < |t| ==> t[i] == '#' || 'a' <= t[i] <= 'z';
  }

  /** `#commands` is an alias of `#help`: both fall into the same `case`. */
  lemma CommandsIsHelp()
    ensures Parse("#commands") == Parse("#help") == Help
  {
    TokenParses("#commands", Help);
    TokenParses("#help", Help);
  }

  /** Every token the help reply advertises is one the interpreter accepts. */
  lemma TableTokensAreRecognised()
    ensures forall i :: 0 <= i < |Commands| ==> Parse(Commands[i].token) != Unrecognized
  {
    forall i | 0 <= i < |Commands|
      ensures Parse(Commands[i].token) != Unrecognized
    {
      var t := Commands[i].token;
      assert t in {"#help", "#commands", "#status", "#acknowledge", "#resolve", "#history"};
      TokenParses(t, Classify(t));
    }
  }

  /** The resolution chart `#resolve` obtains for an alert raised with chart
      `graphPath`: none when the alert has no chart (the path derivation
      fails on `null`) or when the renderer fails. */
  function ResolutionChart(graphPath: Option<string>, rendered: bool): (r: Option<string>)
    ensures r.Some? <==> graphPath.Some? && rendered
    ensures r.Some? ==> r.value == ResolutionPath(graphPath.value)
  {
    if graphPath.None? || !rendered then None else Some(ResolutionPath(graphPath.value))
  }

  /** The result of handling one command: the new store, the separate
      resolution notification (only `#resolve` sends one), and the reply.
      No reply at all means the handler failed before replying. */
  datatype Outcome = Outcome(store: Store, notice: Option<Outbound>, reply: Option<Reply>)

  /** One line of `#history` for the alert at 1-based `position`. */
  function EntryOf(position: nat, a: Alert): HistoryEntry {
    HistoryEntry(position, a.alertType.name, a.alertType.host, a.resolved, a.acknowledged, a.time)
  }

  function HistoryEntries(alerts: seq<Alert>): (es: seq<HistoryEntry>)
    ensures |es| == |alerts|
  {
    seq(|alerts|, i requires 0 <= i < |alerts| => EntryOf(i + 1, alerts[i]))
  }

  /** The `#acknowledge` case. */
  function AcknowledgeCommand(store: Store, sender: Recipient, now: string): (out: Outcome)
    ensures OnlyLatestChanged(store, out.store, sender)
    ensures out.notice.None? && out.reply.Some?
  {
    if HasAlert(store, sender) then
      var a := Latest(store, sender).value;
      Outcome(AcknowledgeLatest(store, sender, now), None, Some(AckReply(a.alertType.host, a.alertType.description, now)))
    else
      Outcome(store, None, Some(NoAlertToAcknowledge))
  }

  /** The `#resolve` case: the chart is obtained before anything changes, so
      a failure there leaves the store as it was and sends nothing. */
  function ResolveCommand(store: Store, sender: Recipient, now: string, rendered: bool): (out: Outcome)
    ensures OnlyLatestChanged(store, out.store, sender)
    ensures out.reply.None? ==> out.store == store && out.notice.None?
    ensures out.notice.Some? ==> out.reply == Some(ResolveReply)
  {
    if HasAlert(store, sender) then
      var a := Latest(store, sender).value;
      match ResolutionChart(a.graphPath, rendered)
      case None => Outcome(store, None, None)
      case Some(chart) =>
        Outcome(ResolveLatest(store, sender, now, chart),
                Some(Outbound(sender, ResolutionMessage(a.alertType, now), Some(chart))),
                Some(ResolveReply))
    else
      Outcome(store, None, Some(NoAlertToResolve))
  }

  /** The `#history` case. */
  function HistoryCommand(store: Store, sender: Recipient): (out: Outcome)
    ensures out.store == store && out.notice.None? && out.reply.Some?
  {
    if HasAlert(store, sender) then
      Outcome(store, None, Some(HistoryReply(HistoryEntries(HistoryWindow(store, sender)))))
    else
      Outcome(store, None, Some(EmptyHistory))
  }

  /** `handleCommand` once the message text has been normalised and matched
      to `cmd`, for `sender` at local time `now`. */
  function HandleCommand(store: Store, sender: Recipient, cmd: Command, now: string, rendered: bool): (out: Outcome)
    ensures OnlyLatestChanged(store, out.store, sender)
    ensures cmd != Acknowledge && cmd != Resolve ==> out.store == store
    ensures out.reply.None? ==> out.store == store && out.notice.None?
    ensures out.notice.Some? ==> cmd == Resolve && out.reply == Some(ResolveReply)
  {
    match cmd
    case Help => Outcome(store, None, Some(HelpReply(Commands)))
    case Status => Outcome(store, None, Some(StatusReply(Count(store, sender), now)))
    case Acknowledge => AcknowledgeCommand(store, sender, now)
    case Resolve => ResolveCommand(store, sender, now, rendered)
    case History => HistoryCommand(store, sender)
    case Unrecognized => Outcome(store, None, Some(UnknownCommand))
  }

  /** The messages handling a command sends, in order: the resolution
      notification first, then the reply as plain text. */
  function Sent(out: Outcome, sender: Recipient): (msgs: seq<Outbound>)
    ensures |msgs| <= 2
  {
    (if out.notice.Some? then [out.notice.value] else [])
    + (if out.reply.Some? then [Outbound(sender, ReplyText(out.reply.value), None)] else [])
  }

  /** Help, status, history and unrecognised text only read the store, and
      always answer with exactly one message. */
  lemma ReadOnlyCommands(store: Store, sender: Recipient, cmd: Command, now: string, rendered: bool)
    requires cmd in {Help, Status, History, Unrecognized}
    ensures var out := HandleCommand(store, sender, cmd, now, rendered);
      && out.store == store && out.notice.None? && out.reply.Some?
      && (cmd == Help ==> out.reply.value == HelpReply(Commands))
      && (cmd == Status ==> out.reply.value == StatusReply(|AlertsOf(store, sender)|, now))
      && (cmd == Unrecognized ==> out.reply.value == UnknownCommand)
      && |Sent(out, sender)| == 1
  {
  }

  /** With no alert for the sender, `#acknowledge` and `#resolve` answer
      that there is nothing to act on and change nothing. */
  lemma NoAlertIsInformational(store: Store, sender: Recipient, cmd: Command, now: string, rendered: bool)
    requires !HasAlert(store, sender)
    requires cmd == Acknowledge || cmd == Resolve
    ensures var out := HandleCommand(store, sender, cmd, now, rendered);
      && out.store == store && out.notice.None?
      && out.reply == Some(if cmd == Acknowledge then NoAlertToAcknowledge else NoAlertToResolve)
  {
  }

  /** `#acknowledge` on a sender with alerts flags the latest one, and only it,
      whatever its resolution state, and the reply names its host and problem. */
  lemma AcknowledgeMarksLatest(store: Store, sender: Recipient, cmd: Command, now: string, rendered: bool)
    requires HasAlert(store, sender) && cmd == Acknowledge
    ensures var out := HandleCommand(store, sender, cmd, now, rendered);
      var a := AlertsOf(store, sender)[Count(store, sender) - 1];
      && OnlyLatestChanged(store, out.store, sender)
      && Latest(out.store, sender) == Some(a.(acknowledged := true, ackTime := Some(now)))
      && Latest(out.store, sender).value.resolved == a.resolved
      && out.notice.None?
      && out.reply == Some(AckReply(a.alertType.host, a.alertType.description, now))
  {
    assert HandleCommand(store, sender, cmd, now, rendered) == AcknowledgeCommand(store, sender, now);
  }

  /** Acknowledging twice leaves the store as acknowledging once at the later
      time: the flag stays set and no record is added. */
  lemma AcknowledgeTwiceIsOnce(store: Store, sender: Recipient, cmd: Command, t1: string, t2: string, rendered: bool)
    requires HasAlert(store, sender) && cmd == Acknowledge
    ensures var s1 := HandleCommand(store, sender, cmd, t1, rendered).store;
      HandleCommand(s1, sender, cmd, t2, rendered).store == HandleCommand(store, sender, cmd, t2, rendered).store
  {
    AcknowledgeTwice(store, sender, t1, t2);
  }

  lemma ResolveCommandMarksLatest(store: Store, sender: Recipient, now: string)
    requires HasAlert(store, sender)
    requires AlertsOf(store, sender)[Count(store, sender) - 1].graphPath.Some?
    ensures var out := ResolveCommand(store, sender, now, true);
      var a := AlertsOf(store, sender)[Count(store, sender) - 1];
      var chart := ResolutionPath(a.graphPath.value);
      && OnlyLatestChanged(store, out.store, sender)
      && Latest(out.store, sender) == Some(a.(resolved := true, resolutionTime := Some(now), resolutionGraph := Some(chart)))
      && out.notice == Some(Outbound(sender, ResolutionMessage(a.alertType, now), Some(chart)))
      && out.reply == Some(ResolveReply)
      && Sent(out, sender) == [out.notice.value, Outbound(sender, ReplyText(ResolveReply), None)]
      && out.notice.value.text != ReplyText(ResolveReply)
  {
    var a := AlertsOf(store, sender)[Count(store, sender) - 1];
    ResolutionNoticeIsNotTheReply(a.alertType, now);
  }

  /** `#resolve` on a sender with alerts, when the latest alert has a chart
      and the renderer succeeds: that alert becomes resolved with the derived
      resolution chart, a separate notification carries the chart, and the
      reply confirms. */
  lemma ResolveMarksLatest(store: Store, sender: Recipient, cmd: Command, now: string)
    requires HasAlert(store, sender) && cmd == Resolve
    requires AlertsOf(store, sender)[Count(store, sender) - 1].graphPath.Some?
    ensures var out := HandleCommand(store, sender, cmd, now, true);
      var a := AlertsOf(store, sender)[Count(store, sender) - 1];
      var chart := ResolutionPath(a.graphPath.value);
      && OnlyLatestChanged(store, out.store, sender)
      && Latest(out.store, sender) == Some(a.(resolved := true, resolutionTime := Some(now), resolutionGraph := Some(chart)))
      && out.notice == Some(Outbound(sender, ResolutionMessage(a.alertType, now), Some(chart)))
      && out.reply == Some(ResolveReply)
      && Sent(out, sender) == [out.notice.value, Outbound(sender, ReplyText(ResolveReply), None)]
      && out.notice.value.text != ReplyText(ResolveReply)
  {
    assert HandleCommand(store, sender, cmd, now, true) == ResolveCommand(store, sender, now, true);
    ResolveCommandMarksLatest(store, sender, now);
  }

  /** When the renderer fails, or the latest alert has no chart to derive a
      resolution chart from, `#resolve` fails before any change: nothing is
      marked and nothing is sent. */
  lemma ResolveFailureChangesNothing(store: Store, sender: Recipient, cmd: Command, now: string, rendered: bool)
    requires HasAlert(store, sender) && cmd == Resolve
    requires !rendered || AlertsOf(store, sender)[Count(store, sender) - 1].graphPath.None?
    ensures HandleCommand(store, sender, cmd, now, rendered) == Outcome(store, None, None)
  {
    assert HandleCommand(store, sender, cmd, now, rendered) == ResolveCommand(store, sender, now, rendered);
  }

  /** The history window as `#history` shows it: the last `min(5, n)`
      alerts, oldest first, numbered from 1. */
  ghost predicate ShowsWindow(es: seq<HistoryEntry>, all: seq<Alert>) {
    && |es| == Min(HistoryLimit, |all|)
    && forall i :: 0 <= i < |es| ==> es[i] == EntryOf(i + 1, all[|all| - |es| + i])
  }

  lemma HistoryCommandShowsWindow(store: Store, sender: Recipient)
    ensures var out := HistoryCommand(store, sender);
      var all := AlertsOf(store, sender);
      && (|all| == 0 ==> out.reply == Some(EmptyHistory))
      && (|all| > 0 ==> out.reply.Some? && out.reply.value.HistoryReply? && ShowsWindow(out.reply.value.entries, all))
  {
    if HasAlert(store, sender) {
      WindowEntries(HistoryWindow(store, sender), AlertsOf(store, sender));
    }
  }

  /** Numbering the last `min(5, n)` alerts gives the window as shown. */
  lemma WindowEntries(w: seq<Alert>, all: seq<Alert>)
    requires |w| == Min(HistoryLimit, |all|) && w == all[|all| - |w|..]
    ensures ShowsWindow(HistoryEntries(w), all)
  {
    var es := HistoryEntries(w);
    forall i | 0 <= i < |es|
      ensures es[i] == EntryOf(i + 1, all[|all| - |es| + i])
    {
      assert w[i] == all[|all| - |w| + i];
    }
  }

  /** `#history` lists the last `min(5, n)` alerts of the sender, oldest first,
      numbered from 1; with no alerts it answers with the empty-history text.
      It changes nothing. */
  lemma HistoryShowsRecentWindow(store: Store, sender: Recipient, cmd: Command, now: string, rendered: bool)
    requires cmd == History
    ensures var out := HandleCommand(store, sender, cmd, now, rendered);
      var all := AlertsOf(store, sender);
      && out.store == store && out.notice.None?
      && (|all| == 0 ==> out.reply == Some(EmptyHistory))
      && (|all| > 0 ==> out.reply.Some? && out.reply.value.HistoryReply? && ShowsWindow(out.reply.value.entries, all))
  {
    assert HandleCommand(store, sender, cmd, now, rendered) == HistoryCommand(store, sender);
    HistoryCommandShowsWindow(store, sender);
  }

  /** Handling a command never removes or reorders alerts, never reopens an
      acknowledged or resolved one, and keeps the flag/time pairing. */
  lemma HandleCommandGrows(store: Store, sender: Recipient, cmd: Command, now: string, rendered: bool)
    ensures Grows(store, HandleCommand(store, sender, cmd, now, rendered).store)
    ensures WellFormed(store) ==> WellFormed(HandleCommand(store, sender, cmd, now, rendered).store)
  {
    var out := HandleCommand(store, sender, cmd, now, rendered);
    if out.store == store {
      GrowsReflexive(store);
    } else if cmd == Acknowledge {
      AcknowledgeGrows(store, sender, now);
    } else {
      var a := Latest(store, sender).value;
      ResolveGrows(store, sender, now, ResolutionChart(a.graphPath, rendered).value);
    }
  }
}
