/** The bot's shared state and the operations on it: the two Telegram
    handlers that edit the registry (`handle_pairs_input`, `stop`) and one
    cycle of the background monitor. */
module Bot {
  import opened Types
  import opened Monitor
  import PairParsing

  /** The two module-level dictionaries. */
  datatype BotState = BotState(pairs: Registry, lastSignals: Store)

  /** Which reply the handler sends back; the wording is not modelled. */
  datatype Reply = NowTracking(tracked: seq<Symbol>) | InvalidInput | Stopped | NotTracking

  /** Every registered list is non-empty and holds normalised pair codes,
      and the dedup store records only strong signals. */
  predicate Consistent(s: BotState) {
    && (forall c :: c in s.pairs ==> |s.pairs[c]| > 0)
    && (forall c, i :: c in s.pairs && 0 <= i < |s.pairs[c]| ==>
          PairParsing.WellFormedSymbol(s.pairs[c][i]) && ',' !in s.pairs[c][i])
    && OnlyStrongStored(s.lastSignals)
  }

  /** The state at start-up: no subscriber, no alert history. */
  function Initial(): (s: BotState)
    ensures Consistent(s)
    ensures s.pairs == map[] && s.lastSignals == map[]
  {
    BotState(map[], map[])
  }

  /** `handle_pairs_input`: a message replaces the sender's pair list when it
      parses to at least one pair; otherwise nothing changes. The dedup store
      is never touched, so history survives a replacement. */
  function HandlePairsInput(s: BotState, chat: Chat, text: string): (r: (BotState, Reply))
    ensures r.0.lastSignals == s.lastSignals
    ensures forall c :: c != chat ==> Get(r.0.pairs, c) == Get(s.pairs, c)
    ensures r.1.NowTracking? <==> |PairParsing.ParsePairs(text)| > 0
    ensures r.1.NowTracking? ==>
              r.1.tracked == PairParsing.ParsePairs(text) && Get(r.0.pairs, chat) == Some(r.1.tracked)
    ensures r.1.InvalidInput? ==> r.0 == s
    ensures |PairParsing.ParsePairs(text)| == 0 ==> r == (s, InvalidInput)
    ensures Consistent(s) ==> Consistent(r.0)
  {
    var parsed := PairParsing.ParsePairs(text);
    if |parsed| > 0 then (s.(pairs := s.pairs[chat := parsed]), NowTracking(parsed))
    else (s, InvalidInput)
  }

  /** `stop`: the sender's entry is removed when present; other entries and
      the dedup store stay as they are. */
  function Stop(s: BotState, chat: Chat): (r: (BotState, Reply))
    ensures chat !in r.0.pairs
    ensures forall c :: c != chat ==> Get(r.0.pairs, c) == Get(s.pairs, c)
    ensures r.0.lastSignals == s.lastSignals
    ensures r.1 == Stopped <==> chat in s.pairs
    ensures r.1 == NotTracking <==> r.0 == s
    ensures Consistent(s) ==> Consistent(r.0)
  {
    if chat in s.pairs then (s.(pairs := s.pairs - {chat}), Stopped)
    else (s, NotTracking)
  }

  /** One pass of `monitor_loop` over a snapshot of the registry. `order` is
      the dictionary's iteration order and `probes` what the outside world
      does at each visit. The registry is only read. */
  function Cycle(s: BotState, order: seq<Chat>, probes: seq<Probe>): (r: (BotState, seq<seq<Attempt>>))
    requires IsIterationOrder(s.pairs, order) && ValidProbes(probes)
    requires SnapshotOf(s.pairs, order, probes)
    ensures r.0.pairs == s.pairs
    ensures |r.1| == |probes|
    ensures forall k :: Get(r.0.lastSignals, k) != Get(s.lastSignals, k) ==>
              k.0 in s.pairs && k.1 in s.pairs[k.0]
    ensures Consistent(s) ==> Consistent(r.0)
  {
    var out := Sweep(s.lastSignals, probes);
    assert forall k :: Get(out.last, k) != Get(s.lastSignals, k) ==> k.0 in s.pairs && k.1 in s.pairs[k.0] by {
      forall k | Get(out.last, k) != Get(s.lastSignals, k)
        ensures k.0 in s.pairs && k.1 in s.pairs[k.0]
      {
        CycleWritesOnlyTracked(s.pairs, order, s.lastSignals, probes, k);
      }
    }
    (s.(lastSignals := out.last), out.trace)
  }

  /** Stopping never erases alert history: if the chat registers the same
      pairs again, a signal it was already alerted about stays suppressed. */
  lemma StopKeepsHistory(s: BotState, chat: Chat, text: string, k: Key)
    requires k.0 == chat && k in s.lastSignals
    ensures var (s1, _) := Stop(s, chat);
            var (s2, _) := HandlePairsInput(s1, chat, text);
            k in s2.lastSignals && s2.lastSignals[k] == s.lastSignals[k]
  {
  }

  /** A cycle over a registry with one chat tracking one pair is a single
      visit of that pair. */
  lemma SingleTrackCycle(s: BotState, chat: Chat, sym: Symbol, p: Probe)
    requires s.pairs == map[chat := [sym]] && ValidProbe(p) && KeyOf(p) == (chat, sym)
    ensures IsIterationOrder(s.pairs, [chat]) && ValidProbes([p]) && SnapshotOf(s.pairs, [chat], [p])
    ensures Cycle(s, [chat], [p]) == (s.(lastSignals := Step(s.lastSignals, p).0), [Step(s.lastSignals, p).1])
  {
    var order := [chat];
    assert order[0] == chat;
    var listed := set i | 0 <= i < |order| :: order[i];
    forall x | x in listed
      ensures x == chat
    {
      var i :| 0 <= i < |order| && order[i] == x;
    }
    assert chat in listed;
    assert s.pairs.Keys == listed;
    assert Visits(s.pairs, order) == [(chat, sym)];
    var (next, sent) := Step(s.lastSignals, p);
    assert [p][1..] == [];
    assert Sweep(s.lastSignals, [p]) == Outcome(next, [sent] + []);
    assert [sent] + [] == [sent];
  }

  /** A chat tracking EURUSD alone over four cycles with working delivery
      (each cycle is one visit, by `SingleTrackCycle`): STRONG_SELL from
      FOREXCOM alerts on both channels and is recorded; the same signal again
      sends nothing; a cycle where every venue fails sends nothing and changes
      nothing; STRONG_BUY alerts again and replaces the record. */
  lemma EurUsdScenario(chat: Chat)
    ensures var k := (chat, "EURUSD");
            var sell := Probe(chat, "EURUSD", [None, Some(StrongSell), None, None, None], true, true);
            var none := Probe(chat, "EURUSD", [None, None, None, None, None], true, true);
            var buy := Probe(chat, "EURUSD", [Some(StrongBuy), None, None, None, None], true, true);
            var a1 := Alert(chat, "EURUSD", StrongSell, "FOREXCOM");
            var a4 := Alert(chat, "EURUSD", StrongBuy, "OANDA");
            var (m1, t1) := Step(map[], sell);
            var (m2, t2) := Step(m1, sell);
            var (m3, t3) := Step(m2, none);
            var (m4, t4) := Step(m3, buy);
            && t1 == [Attempt(ChatMessage, a1, true), Attempt(Sms, a1, true)]
            && m1 == map[k := StrongSell]
            && t2 == [] && m2 == m1
            && t3 == [] && m3 == m2
            && t4 == [Attempt(ChatMessage, a4, true), Attempt(Sms, a4, true)]
            && m4 == map[k := StrongBuy]
  {
    var k := (chat, "EURUSD");
    var sell := Probe(chat, "EURUSD", [None, Some(StrongSell), None, None, None], true, true);
    var buy := Probe(chat, "EURUSD", [Some(StrongBuy), None, None, None, None], true, true);
    SignalSource.FirstAnswerWins(SignalSource.Exchanges, sell.answers, 1);
    SignalSource.FirstAnswerWins(SignalSource.Exchanges, buy.answers, 0);
    assert Signal(sell) == Some(StrongSell) && Signal(buy) == Some(StrongBuy);
    assert Signal(Probe(chat, "EURUSD", [None, None, None, None, None], true, true)).None?;
    assert map[k := StrongSell][k := StrongBuy] == map[k := StrongBuy];
  }
}
