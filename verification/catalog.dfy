/** The bridge's static reference data: the alert catalog (`ALERT_TYPES`),
    the chat command table (`COMMANDS`), and the lookup the real-ingestion
    route uses to pick a catalog entry from an alert's subject line. */
module Catalog {
  import opened Wrappers
  import opened JsText

  /** One catalog entry: a monitored condition with its threshold and host. */
  datatype AlertType = AlertType(
    name: string,
    description: string,
    severity: string,
    threshold: nat,
    unit: string,
    host: string,
    item: string)

  const AlertTypes: seq<AlertType> := [
    AlertType("CPU Usage", "High CPU usage detected", "High", 90, "%", "SRV-APP01", "CPU | Usage"),
    AlertType("Memory Usage", "High memory consumption", "High", 95, "%", "SRV-DB01", "Memory | Usage"),
    AlertType("Disk Space", "Low disk space available", "High", 90, "%", "SRV-STORAGE", "FS | Space Used, in %"),
    AlertType("Network Traffic", "Excessive network traffic", "High", 95, "Mbps", "ROUTER-MAIN", "Interface | Traffic"),
    AlertType("Database Connections", "Too many database connections", "High", 200, "connections", "DB-MASTER", "MySQL | Connections")
  ]

  /** One row of the command table: the token and its help text. */
  datatype CommandInfo = CommandInfo(token: string, description: string)

  /** The command table, in the order the help reply enumerates it. */
  const Commands: seq<CommandInfo> := [
    CommandInfo("#help", "Mostra a lista de comandos disponíveis"),
    CommandInfo("#status", "Verifica o status atual do sistema"),
    CommandInfo("#acknowledge", "Confirma o recebimento de um alerta"),
    CommandInfo("#resolve", "Marca um alerta como resolvido"),
    CommandInfo("#history", "Mostra os últimos 5 alertas"),
    CommandInfo("#commands", "Lista todos os comandos disponíveis")
  ]

  /** `types.find(...)` from index `k` on: the first entry whose name occurs
      in `subject`. */
  function FindFrom(types: seq<AlertType>, subject: string, k: nat): (r: Option<nat>)
    ensures r.Some? ==> k <= r.value < |types| && Includes(subject, types[r.value].name)
    ensures r.Some? ==> forall j :: k <= j < r.value ==> !Includes(subject, types[j].name)
    ensures r.None? ==> forall j :: k <= j < |types| ==> !Includes(subject, types[j].name)
    decreases |types| - k
  {
    if k >= |types| then None
    else if Includes(subject, types[k].name) then Some(k)
    else FindFrom(types, subject, k + 1)
  }

  /** The catalog index the real-ingestion route uses for `subject`: the first
      entry (in table order, not in subject order) whose name occurs in the
      subject, and entry 0 when no name occurs. */
  function ChooseIndex(types: seq<AlertType>, subject: string): (i: nat)
    requires |types| > 0
    ensures i < |types|
    ensures Includes(subject, types[i].name) ==> forall j :: 0 <= j < i ==> !Includes(subject, types[j].name)
    ensures !Includes(subject, types[i].name) ==> i == 0 && forall j :: 0 <= j < |types| ==> !Includes(subject, types[j].name)
  {
    match FindFrom(types, subject, 0)
    case Some(i) => i
    case None => 0
  }

  /** The entry chosen for `subject` from the bridge's own catalog. */
  function ChooseForSubject(subject: string): (t: AlertType)
    ensures t in AlertTypes
    ensures !Includes(subject, t.name) ==> t == AlertTypes[0]
  {
    AlertTypes[ChooseIndex(AlertTypes, subject)]
  }

  /** No catalog name holds a dot, so a graph file name built from one has
      its extension as its only dot. */
  lemma CatalogNamesHaveNoDot()
    ensures forall t :: t in AlertTypes ==> '.' !in t.name
  {
  }

  /** The catalog has five entries, every one of severity `High` with a
      positive threshold, each on its own host. */
  lemma AlertTypesTable()
    ensures |AlertTypes| == 5
    ensures forall i :: 0 <= i < |AlertTypes| ==> AlertTypes[i].severity == "High" && AlertTypes[i].threshold > 0
    ensures forall i, j :: 0 <= i < j < |AlertTypes| ==> AlertTypes[i].host != AlertTypes[j].host
  {
  }

  /** The command table has six rows, `#help` first and its alias `#commands`
      last; every token is `#` followed by a word, and no token repeats. */
  lemma CommandsTable()
    ensures |Commands| == 6
    ensures Commands[0].token == "#help" && Commands[5].token == "#commands"
    ensures forall i :: 0 <= i < |Commands| ==> |Commands[i].token| > 1 && Commands[i].token[0] == '#'
    ensures forall i, j :: 0 <= i < j < |Commands| ==> Commands[i].token != Commands[j].token
  {
  }

  /** Every catalog name is distinct, so the name identifies the entry. */
  lemma CatalogNamesDistinct()
    ensures forall i, j :: 0 <= i < j < |AlertTypes| ==> AlertTypes[i].name != AlertTypes[j].name
  {
  }

  /** Whatever else a subject names, the chosen entry is one it names and
      comes no later in the table than any entry it names. */
  lemma ChoiceFollowsTableOrder(subject: string, i: nat)
    requires i < |AlertTypes| && Includes(subject, AlertTypes[i].name)
    ensures ChooseIndex(AlertTypes, subject) <= i
    ensures Includes(subject, ChooseForSubject(subject).name)
  {
  }

  /** A subject naming "Memory Usage" before "CPU Usage" gets "CPU Usage",
      the earlier entry in the table. */
  lemma EarlierEntryWins(pre: string, mid: string, post: string)
    ensures ChooseForSubject(pre + AlertTypes[1].name + mid + AlertTypes[0].name + post) == AlertTypes[0]
  {
    var subject := pre + AlertTypes[1].name + mid + AlertTypes[0].name + post;
    IncludesInfix(pre + AlertTypes[1].name + mid, AlertTypes[0].name, post);
    ChoiceFollowsTableOrder(subject, 0);
  }

  /** A subject naming no catalog entry falls back to the first entry. */
  lemma ChoiceFallsBackToFirst(subject: string)
    requires forall t :: t in AlertTypes ==> !Includes(subject, t.name)
    ensures ChooseForSubject(subject) == AlertTypes[0]
  {
  }
}
