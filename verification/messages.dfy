/** The texts the bridge sends: the alert and resolution notifications
    (`generateAlertMessage`, `generateResolutionMessage`) and the replies of
    the chat commands. Replies are first built as a `Reply` value and then
    rendered; the localized timestamps are opaque strings. */
module Messages {
  import opened Wrappers
  import opened JsText
  import opened Catalog
  import opened AlertStore

  /** An outbound chat message; `image` is the chart path asked to be attached. */
  datatype Outbound = Outbound(to: Recipient, text: string, image: Option<string>)

  /** The pieces of the raise notification's template, in order. */
  function AlertFragments(t: AlertType, now: string): seq<string> {
    [ "🚨 *ALERTA: ", t.name, "*\n\n*Host:* ", t.host, "\n*Problema:* ", t.description,
      "\n*Severidade:* ", t.severity, "\n*Horário:* ", now,
      "\n\nEnvie *", "#acknowledge", "* para confirmar ou *", "#resolve", "* para marcar como resolvido." ]
  }

  function AlertMessage(t: AlertType, now: string): string {
    Concat(AlertFragments(t, now))
  }

  /** The pieces of the resolution notification's template, in order. */
  function ResolutionFragments(t: AlertType, now: string): seq<string> {
    [ "✅ *RESOLVIDO: ", t.name, "*\n\n*Host:* ", t.host, "\n*Problema:* ", t.description,
      "\n*Horário da Resolução:* ", now, "\n\nO gráfico abaixo mostra a normalização da métrica." ]
  }

  function ResolutionMessage(t: AlertType, now: string): string {
    Concat(ResolutionFragments(t, now))
  }

  /** One line of the `#history` reply. */
  datatype HistoryEntry = HistoryEntry(
    position: nat,
    name: string,
    host: string,
    resolved: bool,
    acknowledged: bool,
    time: string)

  /** What a chat command answers, before rendering. */
  datatype Reply =
    | HelpReply(commands: seq<CommandInfo>)
    | StatusReply(activeCount: nat, checkedAt: string)
    | AckReply(host: string, problem: string, ackTime: string)
    | NoAlertToAcknowledge
    | ResolveReply
    | NoAlertToResolve
    | HistoryReply(entries: seq<HistoryEntry>)
    | EmptyHistory
    | UnknownCommand

  /** The concatenation of `parts`, in order. */
  function Concat(parts: seq<string>): string {
    if parts == [] then "" else parts[0] + Concat(parts[1..])
  }

  /** Where part `i` starts inside `Concat(parts)`. */
  function Offset(parts: seq<string>, i: nat): nat
    requires i <= |parts|
  {
    if i == 0 then 0 else |parts[0]| + Offset(parts[1..], i - 1)
  }

  /** Every part appears in the concatenation at its offset, and non-empty
      parts appear strictly in their order. */
  lemma {:induction false} ConcatPartAt(parts: seq<string>, i: nat)
    requires i < |parts|
    ensures OccursAt(Concat(parts), parts[i], Offset(parts, i))
  {
    if i > 0 {
      ConcatPartAt(parts[1..], i - 1);
      var rest := Concat(parts[1..]);
      var o := Offset(parts[1..], i - 1);
      assert Concat(parts) == parts[0] + rest;
      assert Concat(parts)[|parts[0]| + o..|parts[0]| + o + |parts[i]|] == rest[o..o + |parts[i]|];
    } else {
      assert Concat(parts) == parts[0] + Concat(parts[1..]);
    }
  }

  lemma {:induction false} OffsetIncreasing(parts: seq<string>, i: nat, j: nat)
    requires i < j <= |parts|
    requires forall k :: 0 <= k < |parts| ==> |parts[k]| > 0
    ensures Offset(parts, i) < Offset(parts, j)
  {
    if i > 0 {
      OffsetIncreasing(parts[1..], i - 1, j - 1);
    } else if j > 1 {
      OffsetIncreasing(parts[1..], 0, j - 1);
    }
  }

  lemma PartIncluded(parts: seq<string>, i: nat)
    requires i < |parts|
    ensures Includes(Concat(parts), parts[i])
  {
    ConcatPartAt(parts, i);
  }

  /** After a fixed header, each part sits at the header's length plus its
      offset, and non-empty parts follow one another in order. */
  lemma HeaderedConcat(header: string, parts: seq<string>)
    ensures forall i :: 0 <= i < |parts| ==> OccursAt(header + Concat(parts), parts[i], |header| + Offset(parts, i))
    ensures (forall k :: 0 <= k < |parts| ==> |parts[k]| > 0) ==>
      forall i, j :: 0 <= i < j < |parts| ==> Offset(parts, i) < Offset(parts, j)
  {
    var text := header + Concat(parts);
    forall i | 0 <= i < |parts|
      ensures OccursAt(text, parts[i], |header| + Offset(parts, i))
    {
      ConcatPartAt(parts, i);
      var o := Offset(parts, i);
      assert text[|header| + o..|header| + o + |parts[i]|] == Concat(parts)[o..o + |parts[i]|];
    }
    if forall k :: 0 <= k < |parts| ==> |parts[k]| > 0 {
      forall i, j | 0 <= i < j < |parts|
        ensures Offset(parts, i) < Offset(parts, j)
      {
        OffsetIncreasing(parts, i, j);
      }
    }
  }

  function HelpLine(c: CommandInfo): string {
    "*" + c.token + "*: " + c.description + "\n"
  }

  function HelpLines(cs: seq<CommandInfo>): (parts: seq<string>)
    ensures |parts| == |cs|
    ensures forall i :: 0 <= i < |cs| ==> parts[i] == HelpLine(cs[i])
  {
    seq(|cs|, i requires 0 <= i < |cs| => HelpLine(cs[i]))
  }

  const HelpHeader: string := "*Comandos Disponíveis:*\n\n"

  function StatusLine(s: bool): string {
    if s then "✅ Resolvido" else "⚠️ Ativo"
  }

  function AckLine(a: bool): string {
    if a then "✓ Confirmado" else "✗ Não confirmado"
  }

  function HistoryBlock(e: HistoryEntry): string {
    "*" + DecimalString(e.position) + ". " + e.name + "*\n"
    + "   Host: " + e.host + "\n"
    + "   Status: " + StatusLine(e.resolved) + "\n"
    + "   Confirmação: " + AckLine(e.acknowledged) + "\n"
    + "   Horário: " + e.time + "\n\n"
  }

  function HistoryBlocks(es: seq<HistoryEntry>): (parts: seq<string>)
    ensures |parts| == |es|
    ensures forall i :: 0 <= i < |es| ==> parts[i] == HistoryBlock(es[i])
  {
    seq(|es|, i requires 0 <= i < |es| => HistoryBlock(es[i]))
  }

  const StatusHeader: string :=
    "*Status do Sistema:*\n\n✅ *Zabbix*: Operacional\n✅ *WhatsApp*: Conectado\n✅ *Integração*: Funcionando\n\n"
  const ActiveLabel: string := "Alertas ativos: "
  const HistoryHeader: string := "*Histórico de Alertas:*\n\n"

  /** The pieces of the acknowledgement reply, in order. */
  function AckFragments(host: string, problem: string, at: string): seq<string> {
    [ "✅ *Alerta ", "confirmado", " com sucesso!*\n\n*Host:* ", host, "\n*Problema:* ", problem,
      "\n*Confirmado em:* ", at, "\n\nUma equipe técnica foi notificada e está analisando o problema." ]
  }

  const ResolveReplyText: string :=
    "✅ *Comando de resolução processado.*" + "\n\nO gráfico de resolução foi enviado em uma mensagem separada."

  /** The reply text `handleCommand` sends for `r`. */
  function ReplyText(r: Reply): string {
    match r
    case HelpReply(cs) => HelpHeader + Concat(HelpLines(cs))
    case StatusReply(n, at) => StatusHeader + ActiveLabel + DecimalString(n) + "\n" + "Último check: " + at
    case AckReply(host, problem, at) => Concat(AckFragments(host, problem, at))
    case NoAlertToAcknowledge => "❌ Não há alertas ativos para confirmar."
    case ResolveReply => ResolveReplyText
    case NoAlertToResolve => "❌ Não há alertas ativos para resolver."
    case HistoryReply(es) => HistoryHeader + Concat(HistoryBlocks(es))
    case EmptyHistory => "📝 *Histórico de Alertas Vazio*\n\nNenhum alerta foi registrado para este número."
    case UnknownCommand => "❓ *Comando não reconhecido*\n\n" + "Envie *#help* ou *#commands* para ver a lista de comandos disponíveis."
  }

  /** The help reply shows one line per table row, each at its own offset,
      in table order. */
  lemma HelpListsTableInOrder(cs: seq<CommandInfo>)
    ensures forall i :: 0 <= i < |cs| ==>
      OccursAt(ReplyText(HelpReply(cs)), HelpLines(cs)[i], |HelpHeader| + Offset(HelpLines(cs), i))
    ensures forall i, j :: 0 <= i < j < |cs| ==> Offset(HelpLines(cs), i) < Offset(HelpLines(cs), j)
  {
    var parts := HelpLines(cs);
    forall k | 0 <= k < |parts|
      ensures |parts[k]| > 0
    {
      assert |parts[k]| >= |"*"|;
    }
    assert ReplyText(HelpReply(cs)) == HelpHeader + Concat(parts);
    HeaderedConcat(HelpHeader, parts);
  }

  lemma HistoryBlocksNonEmpty(es: seq<HistoryEntry>)
    ensures forall k :: 0 <= k < |es| ==> |HistoryBlocks(es)[k]| > 0
  {
    forall k | 0 <= k < |es|
      ensures |HistoryBlocks(es)[k]| > 0
    {
      assert |HistoryBlock(es[k])| >= |"*"|;
    }
  }

  /** The history reply shows one block per entry, in entry order. */
  lemma HistoryListsEntriesInOrder(es: seq<HistoryEntry>)
    ensures forall i :: 0 <= i < |es| ==>
      OccursAt(ReplyText(HistoryReply(es)), HistoryBlocks(es)[i], |HistoryHeader| + Offset(HistoryBlocks(es), i))
    ensures forall i, j :: 0 <= i < j < |es| ==> Offset(HistoryBlocks(es), i) < Offset(HistoryBlocks(es), j)
  {
    var parts := HistoryBlocks(es);
    HistoryBlocksNonEmpty(es);
    assert ReplyText(HistoryReply(es)) == HistoryHeader + Concat(parts);
    HeaderedConcat(HistoryHeader, parts);
  }

  /** The raise notification names the alert, its host, problem, severity and
      time, and tells the operator the two commands that act on it. */
  lemma AlertMessageMentions(t: AlertType, now: string)
    ensures Includes(AlertMessage(t, now), t.name)
    ensures Includes(AlertMessage(t, now), t.host)
    ensures Includes(AlertMessage(t, now), t.description)
    ensures Includes(AlertMessage(t, now), t.severity)
    ensures Includes(AlertMessage(t, now), now)
    ensures Includes(AlertMessage(t, now), "#acknowledge")
    ensures Includes(AlertMessage(t, now), "#resolve")
  {
    var parts := AlertFragments(t, now);
    PartIncluded(parts, 1);
    PartIncluded(parts, 3);
    PartIncluded(parts, 5);
    PartIncluded(parts, 7);
    PartIncluded(parts, 9);
    PartIncluded(parts, 11);
    PartIncluded(parts, 13);
  }

  /** The resolution notification names the alert, its host, problem and time. */
  lemma ResolutionMessageMentions(t: AlertType, now: string)
    ensures Includes(ResolutionMessage(t, now), t.name)
    ensures Includes(ResolutionMessage(t, now), t.host)
    ensures Includes(ResolutionMessage(t, now), t.description)
    ensures Includes(ResolutionMessage(t, now), now)
  {
    var parts := ResolutionFragments(t, now);
    PartIncluded(parts, 1);
    PartIncluded(parts, 3);
    PartIncluded(parts, 5);
    PartIncluded(parts, 7);
  }

  /** The acknowledgement reply confirms, and names the host and the problem. */
  lemma AckReplyConfirms(host: string, problem: string, at: string)
    ensures Includes(ReplyText(AckReply(host, problem, at)), "confirmado")
    ensures Includes(ReplyText(AckReply(host, problem, at)), host)
    ensures Includes(ReplyText(AckReply(host, problem, at)), problem)
    ensures Includes(ReplyText(AckReply(host, problem, at)), at)
  {
    var parts := AckFragments(host, problem, at);
    PartIncluded(parts, 1);
    PartIncluded(parts, 3);
    PartIncluded(parts, 5);
    PartIncluded(parts, 7);
  }

  /** The resolution notification is a different message from the reply to
      `#resolve`. */
  lemma ResolutionNoticeIsNotTheReply(t: AlertType, now: string)
    ensures ResolutionMessage(t, now) != ReplyText(ResolveReply)
  {
    var parts := ResolutionFragments(t, now);
    var first := "✅ *RESOLVIDO: ";
    assert Concat(parts) == first + Concat(parts[1..]);
    assert ResolutionMessage(t, now)[3] == first[3] == 'R';
    assert ResolveReplyText[3] == 'C';
  }

  /** The status reply states the count in decimal right after its label,
      followed by a line break. */
  lemma StatusReplyReportsCount(n: nat, at: string)
    ensures OccursAt(ReplyText(StatusReply(n, at)), ActiveLabel + DecimalString(n) + "\n", |StatusHeader|)
  {
    var t := ActiveLabel + DecimalString(n) + "\n";
    assert ReplyText(StatusReply(n, at)) == StatusHeader + t + ("Último check: " + at);
  }

  /** Two status replies at the same time with the same text report the same count. */
  lemma StatusReplyDeterminesCount(m: nat, n: nat, at: string)
    requires ReplyText(StatusReply(m, at)) == ReplyText(StatusReply(n, at))
    ensures m == n
  {
    var dm := DecimalString(m);
    var dn := DecimalString(n);
    var k := |StatusHeader| + |ActiveLabel|;
    var tm := ReplyText(StatusReply(m, at));
    var tn := ReplyText(StatusReply(n, at));
    var rest := "\n" + "Último check: " + at;
    assert tm == StatusHeader + ActiveLabel + dm + rest;
    assert tn == StatusHeader + ActiveLabel + dn + rest;
    assert |dm| == |dn|;
    assert dm == tm[k..k + |dm|];
    assert dn == tn[k..k + |dn|];
    DecimalInjective(m, n);
  }
}
