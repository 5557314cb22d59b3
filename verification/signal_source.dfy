/** Signal acquisition with venue fallback (`get_signal_for_pair`).
    The provider call for each venue is replaced by an oracle: `answers[i]`
    is what the call for `venues[i]` produced, `None` when it raised. */
module SignalSource {
  import opened Types

  /** The fixed venue priority list. */
  const Exchanges: seq<Venue> := ["OANDA", "FOREXCOM", "FX_IDC", "SAXO", "CURRENCYCOM"]

  /** Result of a lookup: the recommendation and the venue that gave it, or
      nothing when every venue failed (the source's `(None, None)`). */
  datatype Lookup = Found(signal: Classification, venue: Venue) | NotFound

  /** Index of the first venue whose call returned, or `|answers|` when every
      call raised. */
  function FirstAnswered(answers: seq<Option<Classification>>): (i: nat)
    ensures i <= |answers|
    ensures forall j :: 0 <= j < i ==> answers[j].None?
    ensures i < |answers| ==> answers[i].Some?
  {
    if |answers| == 0 then 0
    else if answers[0].Some? then 0
    else 1 + FirstAnswered(answers[1..])
  }

  /** The lookup over an arbitrary venue list. */
  function Fallback(venues: seq<Venue>, answers: seq<Option<Classification>>): (r: Lookup)
    requires |answers| == |venues|
    ensures r.NotFound? <==> forall j :: 0 <= j < |answers| ==> answers[j].None?
    ensures r.Found? ==>
              exists i :: 0 <= i < |venues| && venues[i] == r.venue && answers[i] == Some(r.signal)
                          && forall j :: 0 <= j < i ==> answers[j].None?
  {
    var i := FirstAnswered(answers);
    if i < |answers| then Found(answers[i].value, venues[i]) else NotFound
  }

  /** `get_signal_for_pair`: the lookup over the configured exchanges. */
  function GetSignal(answers: seq<Option<Classification>>): (r: Lookup)
    requires |answers| == |Exchanges|
    ensures r.NotFound? <==> forall j :: 0 <= j < |answers| ==> answers[j].None?
    ensures r.Found? ==>
              exists i :: 0 <= i < |Exchanges| && Exchanges[i] == r.venue && answers[i] == Some(r.signal)
                          && forall j :: 0 <= j < i ==> answers[j].None?
  {
    Fallback(Exchanges, answers)
  }

  /** The loop of `get_signal_for_pair`, one venue at a time, stopping at the
      first call that does not raise. */
  method QuerySignal(venues: seq<Venue>, answers: seq<Option<Classification>>) returns (r: Lookup)
    requires |answers| == |venues|
    ensures r == Fallback(venues, answers)
  {
    var k := 0;
    while k < |venues|
      invariant 0 <= k <= |venues|
      invariant forall j :: 0 <= j < k ==> answers[j].None?
    {
      if answers[k].Some? {
        return Found(answers[k].value, venues[k]);
      }
      k := k + 1;
    }
    return NotFound;
  }

  /** The winning venue is the first one in priority order that answered. */
  lemma FirstAnswerWins(venues: seq<Venue>, answers: seq<Option<Classification>>, k: nat)
    requires |answers| == |venues|
    requires k < |answers| && answers[k].Some?
    requires forall j :: 0 <= j < k ==> answers[j].None?
    ensures Fallback(venues, answers) == Found(answers[k].value, venues[k])
  {
    var i := FirstAnswered(answers);
  }

  /** Venues after the one that answered are never consulted: changing their
      answers cannot change the result. */
  lemma LaterVenuesNotConsulted(venues: seq<Venue>, a: seq<Option<Classification>>,
                                b: seq<Option<Classification>>, k: nat)
    requires |a| == |venues| && |b| == |venues|
    requires k < |a| && a[k].Some?
    requires a[..k + 1] == b[..k + 1]
    ensures Fallback(venues, a) == Fallback(venues, b)
  {
    var i := FirstAnswered(a);
    assert i <= k;
    forall j | 0 <= j <= i
      ensures a[j] == b[j]
    {
      assert a[j] == a[..k + 1][j];
    }
    FirstAnswerWins(venues, a, i);
    FirstAnswerWins(venues, b, i);
  }

  /** If the first venue answers, its answer is returned. */
  lemma FirstVenueAnswers(answers: seq<Option<Classification>>)
    requires |answers| == |Exchanges| && answers[0].Some?
    ensures GetSignal(answers) == Found(answers[0].value, "OANDA")
  {
    FirstAnswerWins(Exchanges, answers, 0);
  }
}
