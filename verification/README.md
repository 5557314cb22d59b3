# forex-bot decision core in Dafny

`script.py` of the forex-bot is a Telegram bot. It lets each chat register a
comma-separated list of currency pairs. A background loop then polls
TradingView for every registered pair and alerts the chat (and an SMS number)
when a pair's recommendation becomes `STRONG_BUY` or `STRONG_SELL`. The loop
remembers the last alerted value per (chat, pair). It does not repeat an alert
it delivered to the chat while the signal stays the same.

This project models the pure decision logic inside that plumbing:

- **SignalSource** (`signal_source.dfy`): `get_signal_for_pair`. It tries the
  venues `OANDA, FOREXCOM, FX_IDC, SAXO, CURRENCYCOM` in order and returns the
  first recommendation obtained without an exception, with its venue.
  - `NotFound` stands for the source's `(None, None)`.
  - The TradingView call is an oracle: `answers[i]` is what the call for venue
    `i` produced, and `None` means it raised.
- **Monitor** (`monitor.dfy`): the body of `monitor_loop`.
  - `Step` is one visit of one (chat, symbol): look up, compare with the
    `last_signals` store, send to the chat, send the SMS, record.
  - `Sweep` folds `Step` over a snapshot of visits.
  - Each visit's outside world is a `Probe`: the venue answers, whether the
    Telegram send returned normally (`chatOk`), and whether the SMS went out
    (`smsOk`).
  - The deliveries attempted are logged as `Attempt`s.
- **Dedup** (`dedup.dfy`): the per-key laws of the store.
  - Alert count equals the number of changes in the strong-only subsequence.
  - Replay is idempotent.
  - A reference trigger policy (`Fire`/`Fires`) is proved to match the sweep.
  - Worked example: the six-observation run.
- **PairParsing** (`pair_parsing.dfy`): the comprehension
  `[p.strip().upper() for p in text.split(",") if p.strip()]`.
  - `Split`, `Strip` and `ToUpper` are spelled out.
  - `FilterMap` is a generic filtering comprehension.
- **Bot** (`bot.dfy`): the two dictionaries as a `BotState` and the
  operations on them:
  - `handle_pairs_input`, `stop`, and one monitor cycle over the registry in
    its iteration order;
  - the end-to-end EURUSD scenario.
- **Types** (`types.dfy`): `Option`, the `Classification` enumeration, the key
  types and a map lookup `Get` playing `dict.get`.

### Behaviour worth knowing (the model follows the code)

- **Failed chat send.** The chat send (`script.py:96`) is awaited before the
  SMS (`script.py:97`) and the store update (`script.py:98`), and nothing
  around it catches a failure. When it raises, the per-symbol handler
  (`script.py:101-102`) takes over: no SMS is tried and `last_signals` is not
  advanced, so the same signal alerts again on the next cycle.
  - One might expect the two channels to be independent and the store to
    advance whatever the delivery outcome. Neither holds.
  - `Monitor.StepChatFails` and `Monitor.FailedSendSkipsOnlyItsVisit` state
    the code's behaviour.
  - An SMS failure is swallowed inside `send_twilio_sms` (`script.py:41-42`).
    It never affects the store (`Monitor.SmsOutcomeIrrelevant`).
- **Duplicates and order.** The pair list keeps duplicates and input order
  (`script.py:69`). It is a list, not a set of unique symbols.
- **What `upper()` and `strip()` do.** Stored symbols are upper-cased and
  stripped, but not checked to be alphanumeric; `"EUR/USD"` is accepted.
  `WellFormedSymbol` states the shape the model guarantees, with ASCII-only
  upper-casing: non-empty, no surrounding whitespace, no ASCII lower-case
  letter. The absence of commas is stated separately.
- **Recommendations outside the enumeration.** The provider's recommendation
  is stored as whatever string it is. Any value other than the five names is
  modelled as `Unrecognized`.
  - Such a value ends the venue fallback: the call did not raise.
  - Like `NEUTRAL`, it never triggers and never touches the store.
  - An empty recommendation string is falsy at `script.py:92`. It takes the
    "no data" branch, which has the same effect on state and deliveries.

## Model

| member | source | states |
|---|---|---|
| Types.Get | script.py:94 | the lookup finds a value exactly when the key is present, and then it is the stored value (`dict.get`) |
| SignalSource.FirstAnswered | script.py:45-56 | the index returned is the first venue whose call did not raise: every earlier call raised, and it answered unless all raised |
| SignalSource.Fallback | script.py:44-57 | the lookup is NotFound exactly when every venue raised; otherwise the returned signal and venue are those of a venue that answered, with all earlier venues having raised |
| SignalSource.QuerySignal | script.py:44-57 | the early-returning loop over the venues computes the same lookup as the first-answer characterisation |
| SignalSource.FirstAnswerWins | script.py:45-54 | if venue k answered and all before it raised, the result is venue k's signal and name |
| SignalSource.LaterVenuesNotConsulted | script.py:45-54 | answers of venues after the first one that answered cannot change the result |
| SignalSource.FirstVenueAnswers | script.py:44-54 | when OANDA answers, its recommendation is returned with venue "OANDA" |
| SignalSource.GetSignal | script.py:25-57 | over the venue list OANDA, FOREXCOM, FX_IDC, SAXO, CURRENCYCOM: NotFound exactly when all five calls raised, otherwise the signal and name of a venue that answered with every earlier one having raised |
| Monitor.Triggers | script.py:94 | the alert condition is: the signal is STRONG_BUY or STRONG_SELL, and the key is absent from the store or stores a different value |
| Monitor.Step | script.py:89-102 | a visit changes the store at most at its own key, keeps "only strong signals stored", and every attempted delivery carries the visited chat, symbol and the signal the venues produced |
| Monitor.Sweep | script.py:87-102 | a pass produces one trace entry per visit, leaves every key that no visit concerns unchanged, and keeps "only strong signals stored" |
| Monitor.StepTriggerIff | script.py:92-94 | a visit sends something iff a venue answered with a strong signal different from the stored one, a missing entry counting as different |
| Monitor.StepNoData | script.py:55-57 | when every venue raises, the visit sends nothing and the store is unchanged |
| Monitor.StepWeakSignalInert | script.py:94 | NEUTRAL, BUY, SELL or an unrecognised value neither sends nor modifies (or resets) the store |
| Monitor.StepReplayInert | script.py:94 | the signal already stored for the key never triggers |
| Monitor.StepDelivered | script.py:94-98 | a trigger whose chat send succeeds records the new signal for the key, keeps every other key, and tries the chat then the SMS with the same alert whatever the SMS outcome |
| Monitor.StepChatFails | script.py:96-102 | a trigger whose chat send raises attempts only the chat message, leaves the store as it was, and the same visit triggers again afterwards |
| Monitor.SmsOutcomeIrrelevant | script.py:33-42 | two passes that differ only in SMS outcomes leave the same store |
| Monitor.SweepNoData | script.py:87-100 | a pass in which no venue ever answers sends nothing at any visit and leaves the store unchanged |
| Monitor.FailedSendSkipsOnlyItsVisit | script.py:87-102 | a visit whose chat send raises does not stop the pass: the remaining visits end in the same store and attempt the same deliveries as without it |
| Monitor.SweepAppend | script.py:86-103 | a pass over two snapshots in sequence equals the pass over their concatenation, in final store and in trace, so consecutive cycles compose |
| Monitor.SweepPerKey | script.py:87-98 | the stored value for a key after a pass depends only on the visits for that key, whatever the interleaving with other keys |
| Monitor.StoreAgreesOn | script.py:94-98 | visits all about one key, started from stores that agree on that key, end agreeing on it |
| Monitor.Visits | script.py:87-88 | every visit is of a tracked (chat, symbol) pair and every tracked pair is visited |
| Monitor.VisitsOfChat | script.py:88 | one chat's visits are its symbols in list order, one visit per occurrence, duplicates included |
| Monitor.VisitsAppend | script.py:87 | chats are swept one after another: the visits of a concatenated chat order are the first part's visits followed by the second's |
| Monitor.CycleWritesOnlyTracked | script.py:87-98 | a cycle only ever changes the stored value of pairs tracked at its start |
| Dedup.TriggersAreStrongChanges | script.py:92-98 | over a run for one key with working chat delivery, the number of alerts equals the number of changes in the strong-only subsequence of observed signals, measured from the stored value |
| Dedup.FreshKeyTriggers | script.py:92-98 | for a key with no history, the first strong observation counts as a change |
| Dedup.ReplayIsIdempotent | script.py:94 | any number of visits all observing the already-stored signal send nothing and leave the store unchanged |
| Dedup.SweepTraceAt | script.py:87-102 | the i-th trace entry of a pass is the step taken from the store the first i visits left behind |
| Dedup.StepFollowsPolicy | script.py:92-98 | with working chat delivery, one visit alerts and updates the key exactly as the reference policy (strong and different from the stored value) says |
| Dedup.SweepFollowsPolicy | script.py:87-98 | with working chat delivery, which visits of a one-key pass alert is exactly the reference policy's answer for the observed signals |
| Dedup.SixObservationPolicy | script.py:94 | the reference policy on NEUTRAL, STRONG_BUY, STRONG_BUY, NEUTRAL, STRONG_BUY, STRONG_SELL from nothing alerts at positions 2 and 6 only |
| Dedup.SixObservationExample | script.py:87-98 | any run of visits for a fresh key producing those six signals alerts at visits 2 and 6 only, whichever venues answered |
| Dedup.Observations | script.py:87-98 | the run built for a key has one visit per value, each about that key, with a working chat send, and observing that value |
| Dedup.SixObservationRealised | script.py:87-98 | visits that really observe NEUTRAL, STRONG_BUY, STRONG_BUY, NEUTRAL, STRONG_BUY, STRONG_SELL for a fresh key alert at the second and sixth only |
| PairParsing.UpperChar | script.py:69 | an ASCII lower-case letter becomes the capital at the same alphabet position; every other character is unchanged; whitespace stays whitespace |
| PairParsing.ToUpper | script.py:69 | upper-casing keeps the length and upper-cases every position independently |
| PairParsing.LeadingSpace | script.py:69 | the leading run counted is all whitespace and is followed by a non-space character or the end |
| PairParsing.TrailingStart | script.py:69 | everything from the returned index on is whitespace, and the character before it is not |
| PairParsing.IsSpace | script.py:69 | the characters Python's `str.isspace` accepts, which `strip()` removes |
| PairParsing.Strip | script.py:69 | the result is the input's middle slice after removing a leading and a trailing whitespace run; it is empty iff the input is all whitespace, and otherwise starts and ends with non-whitespace |
| PairParsing.StripKeepsOut | script.py:69 | stripping never introduces a character absent from the input |
| PairParsing.Split | script.py:69 | splitting yields at least one piece and no piece contains the separator |
| PairParsing.JoinSplit | script.py:69 | joining the pieces with the separator gives back the text |
| PairParsing.SplitAppend | script.py:69 | the pieces of `a,b` are the pieces of `a` followed by those of `b` |
| PairParsing.SplitWithoutSep | script.py:69 | text without the separator is a single piece |
| PairParsing.SplitJoin | script.py:69 | any non-empty list of separator-free pieces is recovered by splitting its join |
| PairParsing.UpperWellFormed | script.py:69 | upper-casing a piece with non-space edges gives a well-formed symbol |
| PairParsing.UpperKeepsComma | script.py:69 | upper-casing contains a comma iff its input does |
| PairParsing.Normalize | script.py:69 | `strip().upper()` of a non-blank piece is non-empty, has no surrounding whitespace and no lower-case ASCII letter |
| PairParsing.NormalizeExample | script.py:69 | `" usdJpy\t".strip().upper()` is `"USDJPY"` |
| PairParsing.NormalizeCommaFree | script.py:69 | normalising a comma-free piece gives a comma-free symbol |
| PairParsing.Pick | script.py:69 | a piece is dropped iff it strips to nothing; a kept piece becomes its `strip().upper()`, which is a well-formed symbol |
| PairParsing.FilterMapAppend | script.py:69 | the filtering comprehension distributes over concatenation, keeping order and duplicates |
| PairParsing.FilterMapFrom | script.py:69 | every element of the comprehension's result comes from some input element |
| PairParsing.ParsePairs | script.py:69 | every parsed pair is well formed and contains no comma |
| PairParsing.ParseSingle | script.py:69 | a comma-free message parses to nothing if blank and otherwise to its own normalised form |
| PairParsing.ParseOverComma | script.py:69 | the pairs of `a,b` are the pairs of `a` followed by those of `b`, in order and with repetitions |
| Bot.Initial | script.py:28-29 | the start-up state has no subscriber, no history, and is consistent |
| Bot.HandlePairsInput | script.py:66-74 | a message that parses to at least one pair stores and reports exactly the parsed list as the sender's list; one that parses to nothing leaves the state unchanged and replies "invalid input"; other chats and the alert history are never touched; consistency is kept |
| Bot.Stop | script.py:76-82 | the sender's entry is gone afterwards, other entries and the alert history are untouched, and the reply says "stopped" iff the sender was tracking (otherwise the state is unchanged) |
| Bot.Cycle | script.py:85-103 | a cycle never modifies the registry, produces one trace entry per tracked pair, only changes history of tracked pairs, and keeps consistency |
| Bot.StopKeepsHistory | script.py:71-79 | stopping and re-registering keeps the alert history of the chat's pairs |
| Bot.SingleTrackCycle | script.py:87-102 | a cycle over a registry where one chat tracks one pair is exactly one visit of that pair |
| Bot.EurUsdScenario | script.py:87-100 | EURUSD over four cycles: STRONG_SELL from FOREXCOM alerts on both channels and is recorded, a repeat sends nothing, an all-venues-fail cycle changes nothing, STRONG_BUY alerts and replaces the record |

## Left out

- Telegram API calls, reply texts, the `/start` handler, handler registration and webhook setup (`script.py:60-64`, `106-136`): I/O. `Reply` only says which reply is sent.
- The Twilio client and `messages.create` (`script.py:30`, `35-40`): a foreign network call. Only its outcome is kept, as `Probe.smsOk`, and it never reaches the caller.
- `TA_Handler(...).get_analysis()` (`script.py:47-53`): an external library. It is replaced by the per-venue oracle `answers`.
- `while True`, `asyncio.sleep(300)` and `create_task` (`script.py:86`, `103`, `109`): timing and concurrency. One sweep is modelled as a terminating fold, and consecutive sweeps compose through `Monitor.SweepAppend`.
- Handlers running during the loop's `await` may resize `user_currency_pairs`. Python then raises `RuntimeError` from the `.items()` iteration, outside the per-symbol handler, and that ends the monitor task. This is concurrency, not modelled: a cycle works on a snapshot.
- A Python dict's iteration order is not recorded by a Dafny map. The cycle takes the order as an explicit parameter (`Monitor.IsIterationOrder`).
- Environment loading and `print` logging (`script.py:10-22`, `40`, `42`, `93`, `100`, `102`, `114`): no behaviour. The alert text (`script.py:95`) is reduced to the `Alert` record of chat, symbol, signal and venue.
- PairParsing.UpperChar: upper-cases ASCII letters only. Python's `str.upper()` also maps non-ASCII letters (and can lengthen a string, e.g. `ß`). The model leaves those characters as they are.
- Chat identifiers are unbounded integers. Telegram's 64-bit range is not modelled, because nothing in the logic depends on it.
