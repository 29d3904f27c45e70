/** End-to-end scenarios (lemmas) of the bridge: an alert raised for a recipient and then
    acknowledged, resolved and reviewed from that recipient's chat. */
module Scenarios {
  import opened Wrappers
  import opened JsText
  import opened Catalog
  import opened AlertStore
  import opened GraphPaths
  import opened Messages
  import opened Interpreter
  import opened Gateway

  /** `#acknowledge`, with any trailing white space, from a chat with one alert. */
  lemma AcknowledgeOnlyAlert(r: Recipient, a: Alert, w: string, now: string)
    requires AllSpace(w)
    ensures OnMessage(map[r := [a]], InboundMessage(r, Token(Acknowledge) + w, false), now, true)
      == Outcome(map[r := [a.(acknowledged := true, ackTime := Some(now))]], None,
                 Some(AckReply(a.alertType.host, a.alertType.description, now)))
  {
    TokenMessageOutcome(map[r := [a]], r, Acknowledge, w, now, true);
    AcknowledgeSingle(r, a, now);
  }

  lemma AcknowledgeSingle(r: Recipient, a: Alert, now: string)
    ensures HandleCommand(map[r := [a]], r, Acknowledge, now, true)
      == Outcome(map[r := [a.(acknowledged := true, ackTime := Some(now))]], None,
                 Some(AckReply(a.alertType.host, a.alertType.description, now)))
  {
    SetLatestOfSingle(r, a, a.(acknowledged := true, ackTime := Some(now)));
  }

  /** `#resolve`, with any trailing white space, from a chat with one alert that has a chart. */
  lemma ResolveOnlyAlert(r: Recipient, a: Alert, w: string, now: string)
    requires AllSpace(w)
    requires a.graphPath.Some?
    ensures var chart := ResolutionPath(a.graphPath.value);
      OnMessage(map[r := [a]], InboundMessage(r, Token(Resolve) + w, false), now, true)
      == Outcome(map[r := [a.(resolved := true, resolutionTime := Some(now), resolutionGraph := Some(chart))]],
                 Some(Outbound(r, ResolutionMessage(a.alertType, now), Some(chart))),
                 Some(ResolveReply))
  {
    TokenMessageOutcome(map[r := [a]], r, Resolve, w, now, true);
    ResolveSingle(r, a, now);
  }

  lemma ResolveSingle(r: Recipient, a: Alert, now: string)
    requires a.graphPath.Some?
    ensures var chart := ResolutionPath(a.graphPath.value);
      HandleCommand(map[r := [a]], r, Resolve, now, true)
      == Outcome(map[r := [a.(resolved := true, resolutionTime := Some(now), resolutionGraph := Some(chart))]],
                 Some(Outbound(r, ResolutionMessage(a.alertType, now), Some(chart))),
                 Some(ResolveReply))
  {
    var chart := ResolutionPath(a.graphPath.value);
    SetLatestOfSingle(r, a, a.(resolved := true, resolutionTime := Some(now), resolutionGraph := Some(chart)));
  }

  /** `#history`, with any trailing white space, from a chat with one alert. */
  lemma ReviewOnlyAlert(r: Recipient, a: Alert, w: string, now: string)
    requires AllSpace(w)
    ensures OnMessage(map[r := [a]], InboundMessage(r, Token(History) + w, false), now, true)
      == Outcome(map[r := [a]], None, Some(HistoryReply([EntryOf(1, a)])))
  {
    TokenMessageOutcome(map[r := [a]], r, History, w, now, true);
    ReviewSingle(r, a, now);
  }

  lemma ReviewSingle(r: Recipient, a: Alert, now: string)
    ensures HandleCommand(map[r := [a]], r, History, now, true)
      == Outcome(map[r := [a]], None, Some(HistoryReply([EntryOf(1, a)])))
  {
    var store := map[r := [a]];
    assert HistoryWindow(store, r) == [a];
    assert HistoryEntries([a]) == [EntryOf(1, a)];
  }

  /** Simulating a "CPU Usage" alert for a phone with no alerts yet creates
      its one record. */
  lemma RaiseFirstAlert(phone: string, graphsDir: string, clock: Clock)
    requires phone != ""
    ensures var res := SimulateAlert(map[], Some(phone), true, 0, graphsDir, clock, true, true);
      && res.status == Accepted
      && res.store == map[ChatId(phone) := [NewAlert(AlertId(clock.millis), clock.local, AlertTypes[0],
                                                      Some(GraphPath(graphsDir, AlertTypes[0].name, clock.iso)))]]
  {
    var cpu := AlertTypes[0];
    var a0 := NewAlert(AlertId(clock.millis), clock.local, cpu, Some(GraphPath(graphsDir, cpu.name, clock.iso)));
    assert SimulateAlert(map[], Some(phone), true, 0, graphsDir, clock, true, true).store == Record(map[], ChatId(phone), a0);
  }

  /** Raise "CPU Usage" for a phone, then send `#acknowledge`, `#resolve` and
      `#history` (each with any trailing white space) from its chat: every
      step's outcome in full. */
  lemma Lifecycle(phone: string, graphsDir: string, clock: Clock,
                  w1: string, w2: string, w3: string, t1: string, t2: string, t3: string)
    requires phone != ""
    requires AllSpace(w1) && AllSpace(w2) && AllSpace(w3)
    ensures var r := ChatId(phone);
      var cpu := AlertTypes[0];
      var chart := GraphPath(graphsDir, cpu.name, clock.iso);
      var a0 := NewAlert(AlertId(clock.millis), clock.local, cpu, Some(chart));
      var a1 := a0.(acknowledged := true, ackTime := Some(t1));
      var a2 := a1.(resolved := true, resolutionTime := Some(t2), resolutionGraph := Some(ResolutionPath(chart)));
      var raised := SimulateAlert(map[], Some(phone), true, 0, graphsDir, clock, true, true);
      var acked := OnMessage(raised.store, InboundMessage(r, Token(Acknowledge) + w1, false), t1, true);
      var resolved := OnMessage(acked.store, InboundMessage(r, Token(Resolve) + w2, false), t2, true);
      var reviewed := OnMessage(resolved.store, InboundMessage(r, Token(History) + w3, false), t3, true);
      && raised.status == Accepted
      && raised.store == map[r := [a0]]
      && acked == Outcome(map[r := [a1]], None, Some(AckReply(cpu.host, cpu.description, t1)))
      && resolved == Outcome(map[r := [a2]], Some(Outbound(r, ResolutionMessage(cpu, t2), Some(ResolutionPath(chart)))),
                             Some(ResolveReply))
      && reviewed == Outcome(map[r := [a2]], None, Some(HistoryReply([EntryOf(1, a2)])))
  {
    var r := ChatId(phone);
    var cpu := AlertTypes[0];
    var chart := GraphPath(graphsDir, cpu.name, clock.iso);
    var a0 := NewAlert(AlertId(clock.millis), clock.local, cpu, Some(chart));
    var a1 := a0.(acknowledged := true, ackTime := Some(t1));
    RaiseFirstAlert(phone, graphsDir, clock);
    AcknowledgeOnlyAlert(r, a0, w1, t1);
    ResolveOnlyAlert(r, a1, w2, t2);
    ReviewOnlyAlert(r, a1.(resolved := true, resolutionTime := Some(t2), resolutionGraph := Some(ResolutionPath(chart))), w3, t3);
  }

  /** What the recipient sees along the way: the acknowledgement reply
      confirms, the resolution chart goes out in a separate message next to
      the original chart, and the history lists exactly the one alert,
      resolved and acknowledged. */
  lemma LifecycleAsSeen(phone: string, graphsDir: string, clock: Clock,
                        w1: string, w2: string, w3: string, t1: string, t2: string, t3: string)
    requires phone != ""
    requires !Includes(graphsDir, Extension)
    requires AllSpace(w1) && AllSpace(w2) && AllSpace(w3)
    ensures var r := ChatId(phone);
      var raised := SimulateAlert(map[], Some(phone), true, 0, graphsDir, clock, true, true);
      var acked := OnMessage(raised.store, InboundMessage(r, Token(Acknowledge) + w1, false), t1, true);
      var resolved := OnMessage(acked.store, InboundMessage(r, Token(Resolve) + w2, false), t2, true);
      var reviewed := OnMessage(resolved.store, InboundMessage(r, Token(History) + w3, false), t3, true);
      && acked.reply.Some? && Includes(ReplyText(acked.reply.value), "confirmado")
      && resolved.notice.Some?
      && resolved.notice.value.image == Some(graphsDir + "/" + GraphBaseName(AlertTypes[0].name, clock.iso) + ResolvedExtension)
      && reviewed.reply == Some(HistoryReply([HistoryEntry(1, AlertTypes[0].name, AlertTypes[0].host, true, true, clock.local)]))
  {
    var cpu := AlertTypes[0];
    Lifecycle(phone, graphsDir, clock, w1, w2, w3, t1, t2, t3);
    AckReplyConfirms(cpu.host, cpu.description, t1);
    CatalogNamesHaveNoDot();
    ResolutionOfGraphPath(graphsDir, cpu.name, clock.iso);
  }
}
