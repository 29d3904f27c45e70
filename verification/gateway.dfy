/** The boundary of the bridge: the inbound chat filter (`onMessage`) and
    the store updates of the two ingestion routes, `/simulate-alert` and
    `/zabbix-alert`. The transport and renderer are input outcomes: whether
    the chat client object exists (`clientReady`), whether the chart renderer
    succeeded, whether the send succeeded. HTTP response bodies are reduced to a status. */
module Gateway {
  import opened Wrappers
  import opened JsText
  import opened Catalog
  import opened AlertStore
  import opened GraphPaths
  import opened Messages
  import opened Interpreter

  /** An inbound chat message as the transport delivers it. */
  datatype InboundMessage = InboundMessage(from: Recipient, body: string, isGroupMsg: bool)

  /** `!message.isGroupMsg && message.body.startsWith('#')`: the test is on the
      raw body, before any trimming. */
  predicate Dispatched(m: InboundMessage) {
    !m.isGroupMsg && StartsWith(m.body, "#")
  }

  /** The `onMessage` handler: a dispatched message is handled as a command;
      anything else gets no answer and changes nothing. */
  function OnMessage(store: Store, m: InboundMessage, now: string, rendered: bool): (out: Outcome)
    ensures !Dispatched(m) ==> out == Outcome(store, None, None)
    ensures Dispatched(m) ==> out == HandleCommand(store, m.from, Parse(m.body), now, rendered)
  {
    if Dispatched(m) then HandleCommand(store, m.from, Parse(m.body), now, rendered) else Outcome(store, None, None)
  }

  /** Group messages are never answered, whatever they say. */
  lemma GroupMessagesIgnored(store: Store, from: Recipient, body: string, now: string, rendered: bool)
    ensures OnMessage(store, InboundMessage(from, body, true), now, rendered) == Outcome(store, None, None)
  {
  }

  /** A body that starts with white space is never dispatched, although the
      interpreter itself would have trimmed that space away. */
  lemma LeadingSpaceNotDispatched(store: Store, from: Recipient, w: string, body: string, now: string, rendered: bool)
    requires |w| > 0 && AllSpace(w)
    ensures OnMessage(store, InboundMessage(from, w + body, false), now, rendered) == Outcome(store, None, None)
  {
    var m := InboundMessage(from, w + body, false);
    assert !StartsWith(m.body, "#") by {
      assert m.body[0] == w[0];
      assert IsSpace(w[0]);
    }
  }

  /** Trailing white space and letter case never matter once a one-to-one
      message starts with `#`: the answer is the one to the lower-case text. */
  lemma TrailingSpaceAndCaseIgnored(store: Store, from: Recipient, body: string, w: string, now: string, rendered: bool)
    requires StartsWith(body, "#") && AllSpace(w)
    ensures var m := InboundMessage(from, body + w, false);
      && Dispatched(m)
      && OnMessage(store, m, now, rendered) == OnMessage(store, InboundMessage(from, ToLower(body), false), now, rendered)
  {
    var m1 := InboundMessage(from, body + w, false);
    var m2 := InboundMessage(from, ToLower(body), false);
    assert StartsWith(body + w, "#") by {
      assert (body + w)[..1] == body[..1];
    }
    LowerKeepsHashPrefix(body);
    ParseIgnoresTrailingSpaceAndCase(body, w);
    SameCommandSameOutcome(store, m1, m2, now, rendered);
  }

  lemma LowerKeepsHashPrefix(body: string)
    requires StartsWith(body, "#")
    ensures StartsWith(ToLower(body), "#")
  {
    assert ToLower(body)[..1] == [LowerChar(body[0])];
  }

  /** The handler sees a dispatched text only through the command it parses to. */
  lemma SameCommandSameOutcome(store: Store, m1: InboundMessage, m2: InboundMessage, now: string, rendered: bool)
    requires Dispatched(m1) && Dispatched(m2) && m1.from == m2.from
    requires Parse(m1.body) == Parse(m2.body)
    ensures OnMessage(store, m1, now, rendered) == OnMessage(store, m2, now, rendered)
  {
  }

  /** A one-to-one message holding a command token, with any trailing white
      space, is dispatched as the command the token names. */
  lemma TokenMessageDispatched(from: Recipient, t: string, w: string)
    requires t in {"#help", "#commands", "#status", "#acknowledge", "#resolve", "#history"}
    requires AllSpace(w)
    ensures Dispatched(InboundMessage(from, t + w, false))
    ensures Parse(t + w) == Classify(t) != Unrecognized
  {
    assert (t + w)[..1] == t[..1];
    TokenIsNormal(t);
    ToLowerOfLower(t);
    ParseIgnoresTrailingSpaceAndCase(t, w);
    TokenParses(t, Classify(t));
  }

  /** Such a message gets exactly the outcome of its command. */
  lemma TokenMessageOutcome(store: Store, from: Recipient, c: Command, w: string, now: string, rendered: bool)
    requires c != Unrecognized && AllSpace(w)
    ensures OnMessage(store, InboundMessage(from, Token(c) + w, false), now, rendered)
      == HandleCommand(store, from, c, now, rendered)
  {
    var t := Token(c);
    assert t in {"#help", "#commands", "#status", "#acknowledge", "#resolve", "#history"};
    TokenMessageDispatched(from, t, w);
  }

  /** The chat address of a phone number, as both routes build it. */
  function ChatId(phone: string): (r: Recipient)
    ensures StartsWith(r, phone)
  {
    phone + "@c.us"
  }

  /** Distinct phone numbers get distinct chat addresses. */
  lemma ChatIdInjective(p: string, q: string)
    requires ChatId(p) == ChatId(q)
    ensures p == q
  {
    assert |p| == |q|;
    assert p == ChatId(p)[..|p|];
  }

  /** JavaScript truthiness of a request parameter: present and non-empty. */
  predicate Truthy(v: Option<string>) {
    v.Some? && v.value != ""
  }

  /** The clock readings a route takes: `Date.now()` milliseconds, the ISO
      form (chart name) and the localized form (record time). */
  datatype Clock = Clock(millis: nat, iso: string, local: string)

  /** `alert_${Date.now()}`. Two alerts raised in the same millisecond share it. */
  function AlertId(millis: nat): (r: string)
    ensures StartsWith(r, "alert_") && |r| > |"alert_"|
  {
    "alert_" + DecimalString(millis)
  }

  /** Alerts raised at distinct milliseconds get distinct ids. */
  lemma AlertIdInjective(m: nat, n: nat)
    requires AlertId(m) == AlertId(n)
    ensures m == n
  {
    assert DecimalString(m) == AlertId(m)[|"alert_"|..];
    assert DecimalString(n) == AlertId(n)[|"alert_"|..];
    DecimalInjective(m, n);
  }

  datatype RouteStatus = BadRequest | Unavailable | InternalError | SendFailed | Accepted

  /** What a route did: the new store, its status, and the message it tried to send. */
  datatype RouteResult = RouteResult(store: Store, status: RouteStatus, sent: Option<Outbound>)

  /** `/simulate-alert?phone=...`. `pick` is the index the random choice
      produced; `rendered` and `delivered` are the renderer's and the send's
      outcomes. A renderer failure aborts the route before anything is sent. */
  function SimulateAlert(store: Store, phone: Option<string>, clientReady: bool, pick: nat,
                         graphsDir: string, clock: Clock, rendered: bool, delivered: bool): (res: RouteResult)
    requires pick < |AlertTypes|
    ensures res.status == Accepted <==> Truthy(phone) && clientReady && rendered && delivered
    ensures !Truthy(phone) ==> res.status == BadRequest
    ensures res.status != Accepted ==> res.store == store
    ensures res.sent.Some? <==> Truthy(phone) && clientReady && rendered
    ensures res.sent.Some? ==> res.sent.value.to == ChatId(phone.value) && res.sent.value.image.Some?
    ensures res.sent.Some? ==> res.sent.value.text == AlertMessage(AlertTypes[pick], clock.local)
    ensures res.sent.Some? ==> res.sent.value.image == Some(GraphPath(graphsDir, AlertTypes[pick].name, clock.iso))
    ensures res.status == Accepted ==>
      var key := ChatId(phone.value);
      && res.sent.Some?
      && (forall q :: q != key ==> AlertsOf(res.store, q) == AlertsOf(store, q))
      && |AlertsOf(res.store, key)| == |AlertsOf(store, key)| + 1
      && AlertsOf(res.store, key)[..|AlertsOf(store, key)|] == AlertsOf(store, key)
      && var a := AlertsOf(res.store, key)[|AlertsOf(store, key)|];
         && IsFresh(a) && a.alertType == AlertTypes[pick]
         && a.id == AlertId(clock.millis) && a.time == clock.local
         && a.graphPath == res.sent.value.image
  {
    if !Truthy(phone) then RouteResult(store, BadRequest, None)
    else if !clientReady then RouteResult(store, Unavailable, None)
    else
      var t := AlertTypes[pick];
      if !rendered then RouteResult(store, InternalError, None)
      else
        var key := ChatId(phone.value);
        var chart := GraphPath(graphsDir, t.name, clock.iso);
        var msg := Outbound(key, AlertMessage(t, clock.local), Some(chart));
        if delivered then
          RouteResult(Record(store, key, NewAlert(AlertId(clock.millis), clock.local, t, Some(chart))), Accepted, Some(msg))
        else
          RouteResult(store, SendFailed, Some(msg))
  }

  /** `/zabbix-alert` with body fields `phone`, `subject`, `message`. The
      catalog entry is chosen from the subject; the caller's own message text
      is forwarded; a renderer failure only drops the chart. */
  function ZabbixAlert(store: Store, phone: Option<string>, subject: Option<string>, message: Option<string>,
                       clientReady: bool, graphsDir: string, clock: Clock, rendered: bool, delivered: bool): (res: RouteResult)
    ensures res.status == Accepted <==> Truthy(phone) && Truthy(subject) && Truthy(message) && clientReady && delivered
    ensures !(Truthy(phone) && Truthy(subject) && Truthy(message)) ==> res.status == BadRequest && res.sent.None?
    ensures res.status != Accepted ==> res.store == store
    ensures res.sent.Some? <==> Truthy(phone) && Truthy(subject) && Truthy(message) && clientReady
    ensures res.sent.Some? ==> res.sent.value.to == ChatId(phone.value) && res.sent.value.text == message.value
    ensures res.sent.Some? ==> (res.sent.value.image.Some? <==> rendered)
    ensures res.sent.Some? && rendered ==>
      res.sent.value.image == Some(GraphPath(graphsDir, ChooseForSubject(subject.value).name, clock.iso))
    ensures res.status == Accepted ==>
      var key := ChatId(phone.value);
      && res.sent.Some?
      && (forall q :: q != key ==> AlertsOf(res.store, q) == AlertsOf(store, q))
      && |AlertsOf(res.store, key)| == |AlertsOf(store, key)| + 1
      && AlertsOf(res.store, key)[..|AlertsOf(store, key)|] == AlertsOf(store, key)
      && var a := AlertsOf(res.store, key)[|AlertsOf(store, key)|];
         && IsFresh(a)
         && a.alertType == ChooseForSubject(subject.value)
         && a.id == AlertId(clock.millis) && a.time == clock.local
         && a.graphPath == res.sent.value.image
         && (a.graphPath.Some? <==> rendered)
  {
    if !Truthy(phone) || !Truthy(subject) || !Truthy(message) then RouteResult(store, BadRequest, None)
    else if !clientReady then RouteResult(store, Unavailable, None)
    else
      var t := ChooseForSubject(subject.value);
      var chart := if rendered then Some(GraphPath(graphsDir, t.name, clock.iso)) else None;
      var key := ChatId(phone.value);
      var msg := Outbound(key, message.value, chart);
      if delivered then
        RouteResult(Record(store, key, NewAlert(AlertId(clock.millis), clock.local, t, chart)), Accepted, Some(msg))
      else
        RouteResult(store, SendFailed, Some(msg))
  }

  /** The simulation route only ever appends to the store and keeps its invariant. */
  lemma SimulateAlertGrows(store: Store, phone: Option<string>, clientReady: bool, pick: nat,
                           graphsDir: string, clock: Clock, rendered: bool, delivered: bool)
    requires pick < |AlertTypes|
    ensures var res := SimulateAlert(store, phone, clientReady, pick, graphsDir, clock, rendered, delivered);
      Grows(store, res.store) && (WellFormed(store) ==> WellFormed(res.store))
  {
    var res := SimulateAlert(store, phone, clientReady, pick, graphsDir, clock, rendered, delivered);
    if res.status == Accepted {
      var key := ChatId(phone.value);
      var t := AlertTypes[pick];
      var a := NewAlert(AlertId(clock.millis), clock.local, t, Some(GraphPath(graphsDir, t.name, clock.iso)));
      assert res.store == Record(store, key, a);
      RecordGrows(store, key, a);
    } else {
      GrowsReflexive(store);
    }
  }

  /** The real-ingestion route only ever appends to the store and keeps its invariant. */
  lemma ZabbixAlertGrows(store: Store, phone: Option<string>, subject: Option<string>, message: Option<string>,
                         clientReady: bool, graphsDir: string, clock: Clock, rendered: bool, delivered: bool)
    ensures var res := ZabbixAlert(store, phone, subject, message, clientReady, graphsDir, clock, rendered, delivered);
      Grows(store, res.store) && (WellFormed(store) ==> WellFormed(res.store))
  {
    var res := ZabbixAlert(store, phone, subject, message, clientReady, graphsDir, clock, rendered, delivered);
    if res.status == Accepted {
      var key := ChatId(phone.value);
      var t := ChooseForSubject(subject.value);
      var chart := if rendered then Some(GraphPath(graphsDir, t.name, clock.iso)) else None;
      var a := NewAlert(AlertId(clock.millis), clock.local, t, chart);
      assert res.store == Record(store, key, a);
      RecordGrows(store, key, a);
    } else {
      GrowsReflexive(store);
    }
  }

  /** An alert accepted by the real route without a chart can never be
      resolved: `#resolve` (in any accepted spelling) from its recipient fails
      before any change and sends nothing, however the renderer behaves. */
  lemma ChartlessAlertCannotBeResolved(store: Store, phone: string, subject: string, message: string,
                                       graphsDir: string, clock: Clock, body: string, now: string, rendered: bool)
    requires phone != "" && subject != "" && message != ""
    requires StartsWith(body, "#") && Parse(body) == Resolve
    ensures var res := ZabbixAlert(store, Some(phone), Some(subject), Some(message), true, graphsDir, clock, false, true);
      var m := InboundMessage(ChatId(phone), body, false);
      && res.status == Accepted
      && OnMessage(res.store, m, now, rendered) == Outcome(res.store, None, None)
  {
    var res := ZabbixAlert(store, Some(phone), Some(subject), Some(message), true, graphsDir, clock, false, true);
    var key := ChatId(phone);
    assert OnMessage(res.store, InboundMessage(key, body, false), now, rendered)
      == HandleCommand(res.store, key, Resolve, now, rendered);
    assert HasAlert(res.store, key);
    assert AlertsOf(res.store, key)[Count(res.store, key) - 1].graphPath.None?;
    ResolveFailureChangesNothing(res.store, key, Resolve, now, rendered);
  }
}
