/** The per-recipient alert store (`activeAlerts`): each recipient key maps to
    the alerts raised for it, oldest first. Ingestion appends; the chat
    commands only ever rewrite the most recent record. */
module AlertStore {
  import opened Wrappers
  import opened Catalog

  /** A chat address such as `5511999990000@c.us`. */
  type Recipient = string

  /** One raised alert. Timestamps and the id are opaque strings; the
      graph path is absent when the raise chart could not be rendered. */
  datatype Alert = Alert(
    id: string,
    time: string,
    alertType: AlertType,
    graphPath: Option<string>,
    acknowledged: bool,
    resolved: bool,
    ackTime: Option<string>,
    resolutionTime: Option<string>,
    resolutionGraph: Option<string>)

  type Store = map<Recipient, seq<Alert>>

  /** The state every record is created in: neither acknowledged nor
      resolved, with all the status times and the resolution chart unset. */
  predicate IsFresh(a: Alert) {
    && !a.acknowledged && !a.resolved
    && a.ackTime.None? && a.resolutionTime.None? && a.resolutionGraph.None?
  }

  /** Each status flag is set exactly when its timestamp is, and a resolved
      alert carries its resolution chart. */
  predicate WellFormedAlert(a: Alert) {
    && (a.acknowledged <==> a.ackTime.Some?)
    && (a.resolved <==> a.resolutionTime.Some?)
    && (a.resolved <==> a.resolutionGraph.Some?)
  }

  ghost predicate WellFormed(store: Store) {
    forall r, i :: r in store && 0 <= i < |store[r]| ==> WellFormedAlert(store[r][i])
  }

  /** The record both ingestion routes push. */
  function NewAlert(id: string, time: string, t: AlertType, graphPath: Option<string>): (a: Alert)
    ensures IsFresh(a) && WellFormedAlert(a)
    ensures a.id == id && a.time == time && a.alertType == t && a.graphPath == graphPath
  {
    Alert(id, time, t, graphPath, false, false, None, None, None)
  }

  /** The recipient's alerts, or none for a recipient never seen. */
  function AlertsOf(store: Store, r: Recipient): seq<Alert> {
    if r in store then store[r] else []
  }

  /** The guard of `#acknowledge`, `#resolve` and `#history`:
      `sender in activeAlerts && activeAlerts[sender].length > 0`. */
  predicate HasAlert(store: Store, r: Recipient): (b: bool)
    ensures b <==> |AlertsOf(store, r)| > 0
  {
    r in store && |store[r]| > 0
  }

  /** `activeAlerts[sender]?.length || 0`. */
  function Count(store: Store, r: Recipient): (n: nat)
    ensures n == |AlertsOf(store, r)|
    ensures n > 0 <==> HasAlert(store, r)
  {
    if r in store then |store[r]| else 0
  }

  /** The most recent alert of the recipient, the one every command targets. */
  function Latest(store: Store, r: Recipient): (o: Option<Alert>)
    ensures o.Some? <==> HasAlert(store, r)
    ensures o.Some? ==> o.value == AlertsOf(store, r)[|AlertsOf(store, r)| - 1]
  {
    if HasAlert(store, r) then Some(store[r][|store[r]| - 1]) else None
  }

  /** Ingestion: push `a` onto the recipient's list, creating the list when
      the recipient has none. */
  function Record(store: Store, r: Recipient, a: Alert): (s': Store)
    ensures AlertsOf(s', r) == AlertsOf(store, r) + [a]
    ensures forall q :: q != r ==> AlertsOf(s', q) == AlertsOf(store, q)
    ensures s'.Keys == store.Keys + {r}
  {
    store[r := AlertsOf(store, r) + [a]]
  }

  /** `xs` with its last element replaced by `a`. */
  function WithLast(xs: seq<Alert>, a: Alert): (ys: seq<Alert>)
    requires |xs| > 0
    ensures |ys| == |xs| && ys[|ys| - 1] == a
    ensures forall i :: 0 <= i < |xs| - 1 ==> ys[i] == xs[i]
  {
    xs[..|xs| - 1] + [a]
  }

  /** `store'` differs from `store` at most in the last record of `r`: the
      same recipients, the same list lengths, every other record unchanged. */
  ghost predicate OnlyLatestChanged(store: Store, store': Store, r: Recipient) {
    && store'.Keys == store.Keys
    && (forall q :: q != r ==> AlertsOf(store', q) == AlertsOf(store, q))
    && |AlertsOf(store', r)| == |AlertsOf(store, r)|
    && (forall i :: 0 <= i < |AlertsOf(store, r)| - 1 ==> AlertsOf(store', r)[i] == AlertsOf(store, r)[i])
  }

  function SetLatest(store: Store, r: Recipient, a: Alert): (s': Store)
    requires HasAlert(store, r)
    ensures OnlyLatestChanged(store, s', r)
    ensures Latest(s', r) == Some(a)
  {
    store[r := WithLast(store[r], a)]
  }

  /** `#acknowledge` on a recipient with alerts: the latest record becomes
      acknowledged at `now`, whether or not it is already resolved. */
  function AcknowledgeLatest(store: Store, r: Recipient, now: string): (s': Store)
    requires HasAlert(store, r)
    ensures OnlyLatestChanged(store, s', r)
    ensures Latest(s', r) == Some(Latest(store, r).value.(acknowledged := true, ackTime := Some(now)))
  {
    var a := Latest(store, r).value;
    SetLatest(store, r, a.(acknowledged := true, ackTime := Some(now)))
  }

  /** `#resolve` on a recipient with alerts, once the resolution chart
      `graph` exists: the latest record becomes resolved at `now`. */
  function ResolveLatest(store: Store, r: Recipient, now: string, graph: string): (s': Store)
    requires HasAlert(store, r)
    ensures OnlyLatestChanged(store, s', r)
    ensures Latest(s', r) == Some(Latest(store, r).value.(resolved := true, resolutionTime := Some(now), resolutionGraph := Some(graph)))
  {
    var a := Latest(store, r).value;
    SetLatest(store, r, a.(resolved := true, resolutionTime := Some(now), resolutionGraph := Some(graph)))
  }

  function Min(a: nat, b: nat): nat {
    if a <= b then a else b
  }

  /** `xs.slice(-k)`: the last `k` elements in their original order. As in
      JavaScript, `-0` is `0`, so `k == 0` gives the whole list. */
  function SliceFromEnd(xs: seq<Alert>, k: nat): (ys: seq<Alert>)
    ensures |ys| <= |xs| && ys == xs[|xs| - |ys|..]
    ensures k > 0 ==> |ys| == Min(k, |xs|)
    ensures k == 0 ==> ys == xs
  {
    if k == 0 || k >= |xs| then xs else xs[|xs| - k..]
  }

  const HistoryLimit: nat := 5

  /** The window `#history` shows: at most five of the recipient's alerts,
      the most recent ones, oldest of them first. */
  function HistoryWindow(store: Store, r: Recipient): (h: seq<Alert>)
    ensures |h| == Min(HistoryLimit, Count(store, r))
    ensures h == AlertsOf(store, r)[Count(store, r) - |h|..]
  {
    SliceFromEnd(AlertsOf(store, r), HistoryLimit)
  }

  /** `b` is `a` at a later point of its life: the same raise, and any
      acknowledgement or resolution `a` had is kept. */
  predicate Extends(a: Alert, b: Alert) {
    && b.id == a.id && b.time == a.time && b.alertType == a.alertType && b.graphPath == a.graphPath
    && (a.acknowledged ==> b.acknowledged)
    && (a.resolved ==> b.resolved)
  }

  /** The store only grows: no recipient or record disappears or moves, and
      no acknowledged or resolved alert is reopened. */
  ghost predicate Grows(store: Store, store': Store) {
    && store.Keys <= store'.Keys
    && forall r :: r in store ==>
         && |store[r]| <= |AlertsOf(store', r)|
         && forall i :: 0 <= i < |store[r]| ==> Extends(store[r][i], AlertsOf(store', r)[i])
  }

  lemma GrowsReflexive(store: Store)
    ensures Grows(store, store)
  {
  }

  lemma {:induction false} GrowsTransitive(s1: Store, s2: Store, s3: Store)
    requires Grows(s1, s2) && Grows(s2, s3)
    ensures Grows(s1, s3)
  {
    forall r | r in s1
      ensures |s1[r]| <= |AlertsOf(s3, r)|
      ensures forall i :: 0 <= i < |s1[r]| ==> Extends(s1[r][i], AlertsOf(s3, r)[i])
    {
      assert r in s2;
      forall i | 0 <= i < |s1[r]|
        ensures Extends(s1[r][i], AlertsOf(s3, r)[i])
      {
        assert Extends(s1[r][i], s2[r][i]);
        assert Extends(s2[r][i], AlertsOf(s3, r)[i]);
      }
    }
  }

  /** Ingestion keeps every earlier record and the invariant of each. */
  lemma RecordGrows(store: Store, r: Recipient, a: Alert)
    ensures Grows(store, Record(store, r, a))
    ensures WellFormed(store) && WellFormedAlert(a) ==> WellFormed(Record(store, r, a))
  {
    var s' := Record(store, r, a);
    forall q | q in store
      ensures |store[q]| <= |AlertsOf(s', q)|
      ensures forall i :: 0 <= i < |store[q]| ==> Extends(store[q][i], AlertsOf(s', q)[i])
    {
      if q == r {
        assert AlertsOf(s', q)[..|store[q]|] == store[q];
      }
    }
    if WellFormed(store) && WellFormedAlert(a) {
      forall q, i | q in s' && 0 <= i < |s'[q]|
        ensures WellFormedAlert(s'[q][i])
      {
        if q == r && i == |s'[q]| - 1 {
          assert s'[q][i] == a;
        } else {
          assert s'[q][i] == AlertsOf(store, q)[i];
        }
      }
    }
  }

  /** Rewriting the latest record with an extension of it makes the store grow
      and keeps the invariant when the new record satisfies it. */
  lemma SetLatestGrows(store: Store, r: Recipient, a: Alert)
    requires HasAlert(store, r)
    requires Extends(Latest(store, r).value, a)
    ensures Grows(store, SetLatest(store, r, a))
    ensures WellFormed(store) && WellFormedAlert(a) ==> WellFormed(SetLatest(store, r, a))
  {
    var s' := SetLatest(store, r, a);
    var n := |store[r]|;
    forall q | q in store
      ensures |store[q]| <= |AlertsOf(s', q)|
      ensures forall i :: 0 <= i < |store[q]| ==> Extends(store[q][i], AlertsOf(s', q)[i])
    {
      if q == r {
        forall i | 0 <= i < n
          ensures Extends(store[q][i], AlertsOf(s', q)[i])
        {
          if i < n - 1 {
            assert AlertsOf(s', q)[i] == store[q][i];
          }
        }
      } else {
        assert AlertsOf(s', q) == store[q];
      }
    }
    if WellFormed(store) && WellFormedAlert(a) {
      forall q, i | q in s' && 0 <= i < |s'[q]|
        ensures WellFormedAlert(s'[q][i])
      {
        if q == r && i == n - 1 {
          assert s'[q][i] == a;
        } else {
          assert s'[q][i] == AlertsOf(store, q)[i];
        }
      }
    }
  }

  lemma AcknowledgeGrows(store: Store, r: Recipient, now: string)
    requires HasAlert(store, r)
    ensures Grows(store, AcknowledgeLatest(store, r, now))
    ensures WellFormed(store) ==> WellFormed(AcknowledgeLatest(store, r, now))
  {
    var a := Latest(store, r).value;
    var b := a.(acknowledged := true, ackTime := Some(now));
    assert AcknowledgeLatest(store, r, now) == SetLatest(store, r, b);
    if WellFormed(store) {
      assert WellFormedAlert(store[r][|store[r]| - 1]);
    }
    SetLatestGrows(store, r, b);
  }

  lemma ResolveGrows(store: Store, r: Recipient, now: string, graph: string)
    requires HasAlert(store, r)
    ensures Grows(store, ResolveLatest(store, r, now, graph))
    ensures WellFormed(store) ==> WellFormed(ResolveLatest(store, r, now, graph))
  {
    var a := Latest(store, r).value;
    var b := a.(resolved := true, resolutionTime := Some(now), resolutionGraph := Some(graph));
    assert ResolveLatest(store, r, now, graph) == SetLatest(store, r, b);
    if WellFormed(store) {
      assert WellFormedAlert(store[r][|store[r]| - 1]);
    }
    SetLatestGrows(store, r, b);
  }

  /** Acknowledging twice is acknowledging once: the second call only moves
      the acknowledgement time, and no record is added. */
  lemma AcknowledgeTwice(store: Store, r: Recipient, t1: string, t2: string)
    requires HasAlert(store, r)
    ensures HasAlert(AcknowledgeLatest(store, r, t1), r)
    ensures AcknowledgeLatest(AcknowledgeLatest(store, r, t1), r, t2) == AcknowledgeLatest(store, r, t2)
  {
    var s1 := AcknowledgeLatest(store, r, t1);
    var n := |store[r]|;
    assert HasAlert(s1, r);
    var s2 := AcknowledgeLatest(s1, r, t2);
    var s3 := AcknowledgeLatest(store, r, t2);
    assert s2.Keys == s3.Keys;
    assert s2[r] == s3[r] by {
      assert |s2[r]| == |s3[r]| == n;
      forall i | 0 <= i < n
        ensures s2[r][i] == s3[r][i]
      {
        if i < n - 1 {
          assert s2[r][i] == s1[r][i] == store[r][i] == s3[r][i];
        }
      }
    }
    forall q | q in s2
      ensures s2[q] == s3[q]
    {
      if q != r {
        assert AlertsOf(s2, q) == AlertsOf(store, q) == AlertsOf(s3, q);
      }
    }
  }

  /** For a recipient with a single alert, rewriting the latest one replaces it. */
  lemma SetLatestOfSingle(r: Recipient, a: Alert, b: Alert)
    ensures SetLatest(map[r := [a]], r, b) == map[r := [b]]
  {
    assert WithLast([a], b) == [b];
    assert SetLatest(map[r := [a]], r, b) == map[r := [a]][r := WithLast([a], b)];
  }

  /** After ingestion the new record is the latest one and closes the
      history window. */
  lemma RecordThenLatest(store: Store, r: Recipient, a: Alert)
    ensures Latest(Record(store, r, a), r) == Some(a)
    ensures var h := HistoryWindow(Record(store, r, a), r); |h| > 0 && h[|h| - 1] == a
  {
  }
}
