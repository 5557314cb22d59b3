/** Shared vocabulary of the forex alert bot: the provider's recommendation
    classes, subscriber and symbol identities, and an Option type for venue
    answers and map lookups. */
module Types {

  /** An optional value: a venue answer that is `None` because the provider
      call raised, or a key missing from a dictionary. */
  datatype Option<+T> = None | Some(value: T)

  /** The recommendation strings the analysis provider reports. `Unrecognized`
      stands for any other value it might hand back (an empty string included):
      the monitor treats all of those like a non-strong recommendation. */
  datatype Classification =
    | StrongBuy
    | Buy
    | Neutral
    | Sell
    | StrongSell
    | Unrecognized

  /** Only the two strong recommendations may raise an alert. */
  predicate IsStrong(c: Classification) {
    c == StrongBuy || c == StrongSell
  }

  /** Telegram chat identifier of a subscriber. */
  type Chat = int

  /** A currency-pair code as typed by the subscriber, after normalisation. */
  type Symbol = string

  /** Name of an exchange the provider is asked about. */
  type Venue = string

  /** Key of the dedup store: one entry per (subscriber, symbol). */
  type Key = (Chat, Symbol)

  /** `dict.get` on a Dafny map. */
  function Get<K, V>(m: map<K, V>, k: K): (r: Option<V>)
    ensures r.Some? <==> k in m
    ensures r.Some? ==> r.value == m[k]
  {
    if k in m then Some(m[k]) else None
  }
}
