/** One pass of `monitor_loop`: for every tracked (chat, symbol) the signal is
    looked up, compared with the last alerted value, and on a transition the
    alert goes to the chat and then by SMS before the dedup store advances.

    The outside world is an oracle per visit (a `Probe`): the venue answers,
    whether the Telegram send returned normally, and whether the SMS went out.
    The SMS outcome never escapes `send_twilio_sms`, so it only shows in the
    attempt log; the chat outcome decides whether the store advances. */
module Monitor {
  import opened Types
  import SignalSource

  /** The dedup store `last_signals`. */
  type Store = map<Key, Classification>

  /** The subscriber registry `user_currency_pairs`. */
  type Registry = map<Chat, seq<Symbol>>

  /** What one alert message reports. */
  datatype Alert = Alert(chat: Chat, symbol: Symbol, signal: Classification, venue: Venue)

  datatype Channel = ChatMessage | Sms

  /** One attempted delivery and whether it went through. */
  datatype Attempt = Attempt(channel: Channel, alert: Alert, delivered: bool)

  /** What the outside world does during one visit of one (chat, symbol). */
  datatype Probe = Probe(chat: Chat, symbol: Symbol, answers: seq<Option<Classification>>,
                         chatOk: bool, smsOk: bool)

  /** State after a pass and, per visit in order, the deliveries attempted. */
  datatype Outcome = Outcome(last: Store, trace: seq<seq<Attempt>>)

  function KeyOf(p: Probe): Key {
    (p.chat, p.symbol)
  }

  predicate ValidProbe(p: Probe) {
    |p.answers| == |SignalSource.Exchanges|
  }

  predicate ValidProbes(probes: seq<Probe>) {
    forall i :: 0 <= i < |probes| ==> ValidProbe(probes[i])
  }

  /** Some visit of the pass is about key `k`. */
  predicate Probed(probes: seq<Probe>, k: Key) {
    exists i :: 0 <= i < |probes| && KeyOf(probes[i]) == k
  }

  /** The alert condition: a strong signal that differs from the stored one,
      where a missing entry differs from every signal. */
  predicate Triggers(last: Store, key: Key, c: Classification)
    ensures Triggers(last, key, c) <==>
              (c == StrongBuy || c == StrongSell) && (key !in last || last[key] != c)
  {
    IsStrong(c) && Get(last, key) != Some(c)
  }

  /** Invariant of the store: only strong signals are ever recorded. */
  predicate OnlyStrongStored(last: Store) {
    forall k :: k in last ==> IsStrong(last[k])
  }

  /** The recommendation a visit obtained, if any venue answered. */
  function Signal(p: Probe): (s: Option<Classification>)
    requires ValidProbe(p)

  {
    match SignalSource.GetSignal(p.answers)
    case Found(c, _) => Some(c)
    case NotFound => None
  }

  /** Body of the inner loop of `monitor_loop` for one symbol. A chat send
      that raises leaves through the per-symbol handler: no SMS, no update. */
  function Step(last: Store, p: Probe): (r: (Store, seq<Attempt>))
    requires ValidProbe(p)
    ensures forall k :: k != KeyOf(p) ==> Get(r.0, k) == Get(last, k)
    ensures OnlyStrongStored(last) ==> OnlyStrongStored(r.0)
    ensures forall i :: 0 <= i < |r.1| ==>
              r.1[i].alert.chat == p.chat && r.1[i].alert.symbol == p.symbol
              && Signal(p) == Some(r.1[i].alert.signal)
  {
    var key := KeyOf(p);
    match SignalSource.GetSignal(p.answers)
    case NotFound => (last, [])
    case Found(c, venue) =>
      if !Triggers(last, key, c) then (last, [])
      else
        var alert := Alert(p.chat, p.symbol, c, venue);
        if !p.chatOk then (last, [Attempt(ChatMessage, alert, false)])
        else (last[key := c], [Attempt(ChatMessage, alert, true), Attempt(Sms, alert, p.smsOk)])
  }

  /** A sweep over a snapshot of visits, as a fold of `Step`. */
  function Sweep(last: Store, probes: seq<Probe>): (r: Outcome)
    requires ValidProbes(probes)
    ensures |r.trace| == |probes|
    ensures forall k :: !Probed(probes, k) ==> Get(r.last, k) == Get(last, k)
    ensures OnlyStrongStored(last) ==> OnlyStrongStored(r.last)
    decreases |probes|
  {
    if |probes| == 0 then Outcome(last, [])
    else
      var (next, sent) := Step(last, probes[0]);
      var rest := Sweep(next, probes[1..]);
      assert forall k :: Probed(probes[1..], k) ==> Probed(probes, k) by {
        forall k | Probed(probes[1..], k) ensures Probed(probes, k) {
          var i :| 0 <= i < |probes[1..]| && KeyOf(probes[1..][i]) == k;
          assert KeyOf(probes[i + 1]) == k;
        }
      }
      Outcome(rest.last, [sent] + rest.trace)
  }

  /** A visit triggers exactly when a venue answered with a strong signal that
      differs from the stored one. */
  lemma StepTriggerIff(last: Store, p: Probe)
    requires ValidProbe(p)
    ensures |Step(last, p).1| > 0 <==> Signal(p).Some? && Triggers(last, KeyOf(p), Signal(p).value)
  {
  }

  /** No venue answered: nothing is sent and the store is untouched. */
  lemma StepNoData(last: Store, p: Probe)
    requires ValidProbe(p) && Signal(p).None?
    ensures Step(last, p) == (last, [])
  {
  }

  /** A non-strong signal (NEUTRAL, BUY, SELL or anything unrecognised) never
      touches the store and never resets it. */
  lemma StepWeakSignalInert(last: Store, p: Probe)
    requires ValidProbe(p) && Signal(p).Some? && !IsStrong(Signal(p).value)
    ensures Step(last, p) == (last, [])
  {
  }

  /** Replaying the signal already stored for the key never triggers. */
  lemma StepReplayInert(last: Store, p: Probe)
    requires ValidProbe(p) && Signal(p).Some? && Get(last, KeyOf(p)) == Signal(p)
    ensures Step(last, p) == (last, [])
  {
  }

  /** A trigger whose chat send succeeds records the new signal under the
      visited key, tries the SMS with the same alert whatever its outcome,
      and keeps every other key. */
  lemma StepDelivered(last: Store, p: Probe)
    requires ValidProbe(p) && SignalSource.GetSignal(p.answers).Found?
    requires Triggers(last, KeyOf(p), SignalSource.GetSignal(p.answers).signal)
    requires p.chatOk
    ensures var alert := Alert(p.chat, p.symbol, SignalSource.GetSignal(p.answers).signal,
                               SignalSource.GetSignal(p.answers).venue);
            Step(last, p) == (last[KeyOf(p) := alert.signal],
                              [Attempt(ChatMessage, alert, true), Attempt(Sms, alert, p.smsOk)])
  {
  }

  /** A trigger whose chat send raises: the SMS is not attempted and the store
      keeps its old value, so the same signal triggers again next time. */
  lemma StepChatFails(last: Store, p: Probe)
    requires ValidProbe(p) && SignalSource.GetSignal(p.answers).Found?
    requires Triggers(last, KeyOf(p), SignalSource.GetSignal(p.answers).signal)
    requires !p.chatOk
    ensures Step(last, p).0 == last
    ensures Step(last, p).1 == [Attempt(ChatMessage, Alert(p.chat, p.symbol,
               SignalSource.GetSignal(p.answers).signal, SignalSource.GetSignal(p.answers).venue), false)]
    ensures |Step(Step(last, p).0, p).1| > 0
  {
  }

  /** Two snapshots that differ only in SMS outcomes. */
  predicate SameButSms(a: seq<Probe>, b: seq<Probe>) {
    |a| == |b| &&
    forall i :: 0 <= i < |a| ==>
      a[i].chat == b[i].chat && a[i].symbol == b[i].symbol
      && a[i].answers == b[i].answers && a[i].chatOk == b[i].chatOk
  }

  /** SMS failures never change what the store becomes. */
  lemma {:induction false} SmsOutcomeIrrelevant(last: Store, a: seq<Probe>, b: seq<Probe>)
    requires ValidProbes(a) && ValidProbes(b) && SameButSms(a, b)
    ensures Sweep(last, a).last == Sweep(last, b).last
    decreases |a|
  {
    if |a| > 0 {
      assert Step(last, a[0]).0 == Step(last, b[0]).0;
      SmsOutcomeIrrelevant(Step(last, a[0]).0, a[1..], b[1..]);
    }
  }

  /** When no venue answers for any visit, the pass sends nothing and leaves
      the store unchanged. */
  lemma {:induction false} SweepNoData(last: Store, probes: seq<Probe>)
    requires ValidProbes(probes)
    requires forall i :: 0 <= i < |probes| ==> Signal(probes[i]).None?
    ensures Sweep(last, probes).last == last
    ensures forall i :: 0 <= i < |probes| ==> Sweep(last, probes).trace[i] == []
    decreases |probes|
  {
    if |probes| > 0 {
      SweepNoData(last, probes[1..]);
    }
  }

  /** A fault on one visit does not stop the pass: the rest of the snapshot
      is processed exactly as if the failed visit had not happened. */
  lemma FailedSendSkipsOnlyItsVisit(last: Store, p: Probe, rest: seq<Probe>)
    requires ValidProbe(p) && ValidProbes(rest) && !p.chatOk
    ensures Sweep(last, [p] + rest).last == Sweep(last, rest).last
    ensures Sweep(last, [p] + rest).trace[1..] == Sweep(last, rest).trace
  {
    assert ([p] + rest)[1..] == rest;
  }

  /** Running two snapshots one after the other is the fold over their
      concatenation; consecutive cycles compose. */
  lemma {:induction false} SweepAppend(last: Store, a: seq<Probe>, b: seq<Probe>)
    requires ValidProbes(a) && ValidProbes(b)
    ensures ValidProbes(a + b)
    ensures Sweep(last, a + b).last == Sweep(Sweep(last, a).last, b).last
    ensures Sweep(last, a + b).trace == Sweep(last, a).trace + Sweep(Sweep(last, a).last, b).trace
    decreases |a|
  {
    if |a| > 0 {
      assert (a + b)[1..] == a[1..] + b;
      SweepAppend(Step(last, a[0]).0, a[1..], b);
    } else {
      assert a + b == b;
    }
  }

  /** The visits of `probes` that concern key `k`, in order. */
  function OnKey(probes: seq<Probe>, k: Key): (r: seq<Probe>)
    ensures |r| <= |probes|
    ensures forall i :: 0 <= i < |r| ==> KeyOf(r[i]) == k
    ensures ValidProbes(probes) ==> ValidProbes(r)
  {
    if |probes| == 0 then []
    else if KeyOf(probes[0]) == k then [probes[0]] + OnKey(probes[1..], k)
    else OnKey(probes[1..], k)
  }

  /** Keys do not interfere: the value stored for `k` after a pass depends only
      on the visits for `k`, so the order in which chats are swept is
      irrelevant to any key. */
  lemma {:induction false} SweepPerKey(last: Store, probes: seq<Probe>, k: Key)
    requires ValidProbes(probes)
    ensures Get(Sweep(last, probes).last, k) == Get(Sweep(last, OnKey(probes, k)).last, k)
    decreases |probes|
  {
    if |probes| > 0 {
      var next := Step(last, probes[0]).0;
      SweepPerKey(next, probes[1..], k);
      var sub := OnKey(probes[1..], k);
      if KeyOf(probes[0]) == k {
        assert OnKey(probes, k) == [probes[0]] + sub;
        assert ([probes[0]] + sub)[1..] == sub;
      } else {
        // The head visit touches another key; it commutes with all of `sub`.
        StoreAgreesOn(last, next, sub, k);
      }
    }
  }

  /** Two stores that agree on `k` give the same value for `k` after visits
      that are all about `k`. */
  lemma {:induction false} StoreAgreesOn(s: Store, t: Store, probes: seq<Probe>, k: Key)
    requires ValidProbes(probes)
    requires forall i :: 0 <= i < |probes| ==> KeyOf(probes[i]) == k
    requires Get(s, k) == Get(t, k)
    ensures Get(Sweep(s, probes).last, k) == Get(Sweep(t, probes).last, k)
    decreases |probes|
  {
    if |probes| > 0 {
      var p := probes[0];
      assert Get(Step(s, p).0, k) == Get(Step(t, p).0, k);
      StoreAgreesOn(Step(s, p).0, Step(t, p).0, probes[1..], k);
    }
  }

  /** The pairs visited by one sweep: chats in dictionary order, each chat's
      symbols in list order, duplicates included. */
  function Visits(reg: Registry, order: seq<Chat>): (v: seq<Key>)
    requires forall i :: 0 <= i < |order| ==> order[i] in reg
    ensures forall j :: 0 <= j < |v| ==> v[j].0 in reg && v[j].1 in reg[v[j].0]
    ensures forall i, s :: 0 <= i < |order| && s in reg[order[i]] ==> (order[i], s) in v
  {
    if |order| == 0 then []
    else
      var c := order[0];
      var rest := Visits(reg, order[1..]);
      var v := seq(|reg[c]|, j requires 0 <= j < |reg[c]| => (c, reg[c][j])) + rest;
      assert forall i, s :: 0 <= i < |order| && s in reg[order[i]] ==> (order[i], s) in v by {
        forall i, s | 0 <= i < |order| && s in reg[order[i]]
          ensures (order[i], s) in v
        {
          if i == 0 {
            var j :| 0 <= j < |reg[c]| && reg[c][j] == s;
            assert v[j] == (c, s);
          } else {
            assert order[i] == order[1..][i - 1];
            assert (order[i], s) in rest;
          }
        }
      }
      v
  }

  /** One chat's visits are its symbols in list order, once per occurrence. */
  lemma VisitsOfChat(reg: Registry, c: Chat)
    requires c in reg
    ensures |Visits(reg, [c])| == |reg[c]|
    ensures forall j :: 0 <= j < |reg[c]| ==> Visits(reg, [c])[j] == (c, reg[c][j])
  {
    assert [c][1..] == [];
  }

  /** Chats are swept one after the other: the visits of a concatenated order
      are the visits of its first part followed by those of the second. */
  lemma {:induction false} VisitsAppend(reg: Registry, a: seq<Chat>, b: seq<Chat>)
    requires forall i :: 0 <= i < |a| ==> a[i] in reg
    requires forall i :: 0 <= i < |b| ==> b[i] in reg
    ensures forall i :: 0 <= i < |a + b| ==> (a + b)[i] in reg
    ensures Visits(reg, a + b) == Visits(reg, a) + Visits(reg, b)
    decreases |a|
  {
    if |a| == 0 {
      assert a + b == b;
    } else {
      assert (a + b)[1..] == a[1..] + b;
      VisitsAppend(reg, a[1..], b);
    }
  }

  /** `order` lists every registered chat exactly once: the iteration order of
      the registry dictionary, which a Dafny map does not record. */
  predicate IsIterationOrder(reg: Registry, order: seq<Chat>) {
    && (forall i, j :: 0 <= i < j < |order| ==> order[i] != order[j])
    && reg.Keys == set i | 0 <= i < |order| :: order[i]
  }

  /** The snapshot handed to a sweep is one probe per visit, in visit order. */
  predicate SnapshotOf(reg: Registry, order: seq<Chat>, probes: seq<Probe>)
    requires IsIterationOrder(reg, order)
  {
    var v := Visits(reg, order);
    |probes| == |v| && forall i :: 0 <= i < |probes| ==> KeyOf(probes[i]) == v[i]
  }

  /** A whole cycle only ever writes keys that are tracked at its start. */
  lemma CycleWritesOnlyTracked(reg: Registry, order: seq<Chat>, last: Store, probes: seq<Probe>, k: Key)
    requires IsIterationOrder(reg, order) && ValidProbes(probes) && SnapshotOf(reg, order, probes)
    requires Get(Sweep(last, probes).last, k) != Get(last, k)
    ensures k.0 in reg && k.1 in reg[k.0]
  {
    var v := Visits(reg, order);
    var i :| 0 <= i < |probes| && KeyOf(probes[i]) == k;
    assert v[i] == k;
  }
}
