/** Laws of the dedup store for a single (chat, symbol) key: how many alerts
    a run of observations raises, and the worked scenarios. */
module Dedup {
  import opened Types
  import SignalSource
  import opened Monitor

  /** The signals a run of visits obtained, `None` where every venue failed. */
  function Signals(probes: seq<Probe>): (s: seq<Option<Classification>>)
    requires ValidProbes(probes)
    ensures |s| == |probes|
    ensures forall i :: 0 <= i < |probes| ==> s[i] == Signal(probes[i])
  {
    if |probes| == 0 then [] else [Signal(probes[0])] + Signals(probes[1..])
  }

  /** The strong observations of a run, in order. */
  function StrongOnly(s: seq<Option<Classification>>): (t: seq<Classification>)
    ensures |t| <= |s|
    ensures forall i :: 0 <= i < |t| ==> IsStrong(t[i])
  {
    if |s| == 0 then []
    else if s[0].Some? && IsStrong(s[0].value) then [s[0].value] + StrongOnly(s[1..])
    else StrongOnly(s[1..])
  }

  /** Number of positions where `t` differs from its predecessor, `prev`
      standing before the first element (`None` makes the first one count). */
  function Changes(prev: Option<Classification>, t: seq<Classification>): nat
    decreases |t|
  {
    if |t| == 0 then 0
    else (if prev == Some(t[0]) then 0 else 1) + Changes(Some(t[0]), t[1..])
  }

  /** Number of visits that raised an alert. */
  function TriggerCount(trace: seq<seq<Attempt>>): (n: nat)
    ensures n <= |trace|
  {
    if |trace| == 0 then 0
    else (if |trace[0]| > 0 then 1 else 0) + TriggerCount(trace[1..])
  }

  /** Every visit is about `k` and every chat send succeeds. */
  predicate HealthyRunOn(probes: seq<Probe>, k: Key) {
    forall i :: 0 <= i < |probes| ==> KeyOf(probes[i]) == k && probes[i].chatOk
  }

  /** Over a run for one key with working chat delivery, the alerts raised are
      exactly the changes in the strong-only subsequence, measured from what
      the store held at the start. */
  lemma {:induction false} TriggersAreStrongChanges(last: Store, probes: seq<Probe>, k: Key)
    requires ValidProbes(probes) && HealthyRunOn(probes, k)
    ensures TriggerCount(Sweep(last, probes).trace)
            == Changes(Get(last, k), StrongOnly(Signals(probes)))
    decreases |probes|
  {
    if |probes| > 0 {
      var p := probes[0];
      var next := Step(last, p).0;
      TriggersAreStrongChanges(next, probes[1..], k);
      var r := Sweep(last, probes);
      assert r.trace == [Step(last, p).1] + Sweep(next, probes[1..]).trace;
      assert r.trace[1..] == Sweep(next, probes[1..]).trace;
      assert Signals(probes)[1..] == Signals(probes[1..]);
      match Signal(p)
      case None =>
      case Some(c) =>
        if IsStrong(c) && Get(last, k) != Some(c) {
          assert Get(next, k) == Some(c);
        }
    }
  }

  /** Corollary for a fresh key: the count equals the number of changes in
      the strong-only subsequence, its first element counting as a change. */
  lemma FreshKeyTriggers(probes: seq<Probe>, k: Key)
    requires ValidProbes(probes) && HealthyRunOn(probes, k)
    ensures TriggerCount(Sweep(map[], probes).trace) == Changes(None, StrongOnly(Signals(probes)))
  {
    TriggersAreStrongChanges(map[], probes, k);
  }

  /** Replaying a signal that has already been alerted never raises another
      alert, however often it is seen. */
  lemma {:induction false} ReplayIsIdempotent(last: Store, probes: seq<Probe>, k: Key, c: Classification)
    requires ValidProbes(probes) && Get(last, k) == Some(c)
    requires forall i :: 0 <= i < |probes| ==> KeyOf(probes[i]) == k && Signal(probes[i]) == Some(c)
    ensures Sweep(last, probes).last == last
    ensures TriggerCount(Sweep(last, probes).trace) == 0
    decreases |probes|
  {
    if |probes| > 0 {
      StepReplayInert(last, probes[0]);
      ReplayIsIdempotent(last, probes[1..], k, c);
      assert Sweep(last, probes).trace[1..] == Sweep(last, probes[1..]).trace;
    }
  }

  /** A visit for `k` on which only the given venue outcome matters: the first
      venue reports `c`, or every venue raises when `c` is `None`. */
  function Observe(k: Key, c: Option<Classification>): (p: Probe)
    ensures ValidProbe(p) && KeyOf(p) == k && p.chatOk
    ensures Signal(p) == c
  {
    var first := if c.Some? then Some(c.value) else None;
    var p := Probe(k.0, k.1, [first, None, None, None, None], true, true);
    assert c.Some? ==> SignalSource.GetSignal(p.answers) == SignalSource.Found(c.value, "OANDA") by {
      if c.Some? { SignalSource.FirstVenueAnswers(p.answers); }
    }
    p
  }

  /** Trace entry `i` of a pass is the step taken from the state the first
      `i` visits left behind. */
  lemma SweepTraceAt(last: Store, probes: seq<Probe>, i: nat)
    requires ValidProbes(probes) && i < |probes|
    ensures Sweep(last, probes).trace[i] == Step(Sweep(last, probes[..i]).last, probes[i]).1
    ensures Sweep(last, probes[..i + 1]).last == Step(Sweep(last, probes[..i]).last, probes[i]).0
    ensures i + 1 == |probes| ==> Sweep(last, probes).last == Step(Sweep(last, probes[..i]).last, probes[i]).0
  {
    var mid := Sweep(last, probes[..i]).last;
    SweepAppend(last, probes[..i], probes[i..]);
    assert probes[..i] + probes[i..] == probes;
    SweepAppend(last, probes[..i], [probes[i]]);
    assert probes[..i] + [probes[i]] == probes[..i + 1];
    assert Sweep(mid, probes[i..]).trace[0] == Step(mid, probes[i]).1;
  }

  /** Reference trigger policy for one key: an observation alerts when it
      is strong and differs from what the store holds. */
  predicate Fire(stored: Option<Classification>, o: Option<Classification>) {
    o.Some? && IsStrong(o.value) && stored != o
  }

  /** What the store holds after an observation, when alerts are delivered. */
  function After(stored: Option<Classification>, o: Option<Classification>): Option<Classification> {
    if Fire(stored, o) then o else stored
  }

  /** Which observations of a run alert, under the reference policy. */
  function Fires(stored: Option<Classification>, s: seq<Option<Classification>>): (f: seq<bool>)
    ensures |f| == |s|
    decreases |s|
  {
    if |s| == 0 then [] else [Fire(stored, s[0])] + Fires(After(stored, s[0]), s[1..])
  }

  /** Which visits of a pass sent anything. */
  function Alerted(trace: seq<seq<Attempt>>): (f: seq<bool>)
    ensures |f| == |trace|
    decreases |trace|
  {
    if |trace| == 0 then [] else [|trace[0]| > 0] + Alerted(trace[1..])
  }

  /** One visit with working chat delivery follows the reference policy. */
  lemma StepFollowsPolicy(last: Store, p: Probe)
    requires ValidProbe(p) && p.chatOk
    ensures |Step(last, p).1| > 0 <==> Fire(Get(last, KeyOf(p)), Signal(p))
    ensures Get(Step(last, p).0, KeyOf(p)) == After(Get(last, KeyOf(p)), Signal(p))
  {
  }

  /** With working chat delivery, a pass over one key alerts exactly where the
      reference policy says it should. */
  lemma {:induction false} SweepFollowsPolicy(last: Store, probes: seq<Probe>, k: Key)
    requires ValidProbes(probes) && HealthyRunOn(probes, k)
    ensures Alerted(Sweep(last, probes).trace) == Fires(Get(last, k), Signals(probes))
    decreases |probes|
  {
    if |probes| > 0 {
      var p := probes[0];
      var (next, sent) := Step(last, p);
      var rest := Sweep(next, probes[1..]);
      SweepFollowsPolicy(next, probes[1..], k);
      StepFollowsPolicy(last, p);
      assert Sweep(last, probes).trace == [sent] + rest.trace;
      assert ([sent] + rest.trace)[1..] == rest.trace;
      var sig := Signals(probes);
      assert sig == [Signal(p)] + Signals(probes[1..]);
      assert ([Signal(p)] + Signals(probes[1..]))[1..] == Signals(probes[1..]);
    }
  }

  /** The policy on NEUTRAL, STRONG_BUY, STRONG_BUY, NEUTRAL, STRONG_BUY,
      STRONG_SELL from an empty store. */
  lemma SixObservationPolicy()
    ensures Fires(None, [Some(Neutral), Some(StrongBuy), Some(StrongBuy), Some(Neutral),
                         Some(StrongBuy), Some(StrongSell)])
            == [false, true, false, false, false, true]
  {
    var n, b, x := Some(Neutral), Some(StrongBuy), Some(StrongSell);
    calc {
      Fires(None, [n, b, b, n, b, x]);
      [false] + Fires(None, [b, b, n, b, x]);
      [false, true] + Fires(b, [b, n, b, x]);
      [false, true, false] + Fires(b, [n, b, x]);
      [false, true, false, false] + Fires(b, [b, x]);
      [false, true, false, false, false] + Fires(b, [x]);
      [false, true, false, false, false, true] + Fires(x, []);
    }
  }

  /** NEUTRAL, STRONG_BUY, STRONG_BUY, NEUTRAL, STRONG_BUY, STRONG_SELL for a
      fresh key, whichever venues produced them, alerts at the second and the
      sixth observation only. */
  lemma SixObservationExample(probes: seq<Probe>, k: Key)
    requires ValidProbes(probes) && HealthyRunOn(probes, k)
    requires Signals(probes) == [Some(Neutral), Some(StrongBuy), Some(StrongBuy), Some(Neutral),
                                 Some(StrongBuy), Some(StrongSell)]
    ensures Alerted(Sweep(map[], probes).trace) == [false, true, false, false, false, true]
  {
    SweepFollowsPolicy(map[], probes, k);
    SixObservationPolicy();
  }

  /** A run of visits for `k` observing exactly `obs`, one visit each, the
      first venue answering whenever there is a value. */
  function Observations(k: Key, obs: seq<Option<Classification>>): (probes: seq<Probe>)
    ensures |probes| == |obs|
    ensures forall i :: 0 <= i < |probes| ==>
              ValidProbe(probes[i]) && KeyOf(probes[i]) == k && probes[i].chatOk
              && Signal(probes[i]) == obs[i]
  {
    if |obs| == 0 then [] else [Observe(k, obs[0])] + Observations(k, obs[1..])
  }

  /** The six-observation run is realisable: fed to a fresh key by visits
      that observe those values, it alerts at the second and sixth only. */
  lemma SixObservationRealised(k: Key)
    ensures var probes := Observations(k, [Some(Neutral), Some(StrongBuy), Some(StrongBuy),
                                           Some(Neutral), Some(StrongBuy), Some(StrongSell)]);
            ValidProbes(probes)
            && Alerted(Sweep(map[], probes).trace) == [false, true, false, false, false, true]
  {
    var obs := [Some(Neutral), Some(StrongBuy), Some(StrongBuy), Some(Neutral),
                Some(StrongBuy), Some(StrongSell)];
    var probes := Observations(k, obs);
    assert Signals(probes) == obs;
    SixObservationExample(probes, k);
  }
}
