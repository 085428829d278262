/** The one shape every transcript parser produces. */
module Schema {

  datatype Option<+T> = None | Some(value: T)

  function OrZero(o: Option<int>): int { if o.Some? then o.value else 0 }

  /** One API call turn.  `at` counts nanoseconds from Go's zero time, so 0 is
      the instant for which IsZero holds. */
  datatype Event = Event(
    vendor: string, sessionID: string, requestID: string, parentID: string, at: int,
    model: string, input: int, cacheWrite: Option<int>, cacheRead: Option<int>, output: int)
  {
    /** Not the synthetic event that only carries tool counts. */
    predicate IsTurn() { !(model == "" && input == 0 && output == 0) }

    function Tokens(): int { input + OrZero(cacheWrite) + OrZero(cacheRead) + output }

    function Context(): int { input + OrZero(cacheRead) + OrZero(cacheWrite) }
  }

  /** The synthetic event told by its fields. */
  predicate OnlyCounts(e: Event) { e.model == "" && e.input == 0 && e.output == 0 }

  /** All four classes of tokens, one by one. */
  function AllTokens(e: Event): int {
    match e
    case Event(_, _, _, _, _, _, input, Some(written), Some(read), output) => input + written + read + output
    case Event(_, _, _, _, _, _, input, Some(written), None, output) => input + written + output
    case Event(_, _, _, _, _, _, input, None, Some(read), output) => input + read + output
    case Event(_, _, _, _, _, _, input, None, None, output) => input + output
  }

  /** A figure over the first n events. */
  function Total(es: seq<Event>, of: Event -> int, n: nat): int
    requires n <= |es|
  {
    if n == 0 then 0 else Total(es, of, n - 1) + of(es[n - 1])
  }

  function RealTotal(es: seq<Event>, of: Event -> real, n: nat): real
    requires n <= |es|
  {
    if n == 0 then 0.0 else RealTotal(es, of, n - 1) + of(es[n - 1])
  }

  function Input(): Event -> int { (e: Event) => e.input }
  function CacheWrite(): Event -> int { (e: Event) => if e.cacheWrite == None then 0 else e.cacheWrite.value }
  function CacheRead(): Event -> int { (e: Event) => if e.cacheRead == None then 0 else e.cacheRead.value }
  function Output(): Event -> int { (e: Event) => e.output }
  function One(): Event -> int { (_: Event) => 1 }

  /** The same figure, turns only. */
  function OfTurns(of: Event -> int): Event -> int { (e: Event) => if OnlyCounts(e) then 0 else of(e) }

  /** Only the events before n count. */
  lemma {:induction false} TotalOfPrefix(es: seq<Event>, of: Event -> int, m: nat, n: nat)
    requires n <= m <= |es|
    ensures Total(es[..m], of, n) == Total(es, of, n)
  {
    if n > 0 { TotalOfPrefix(es, of, m, n - 1); }
  }

  lemma {:induction false} RealTotalOfPrefix(es: seq<Event>, of: Event -> real, m: nat, n: nat)
    requires n <= m <= |es|
    ensures RealTotal(es[..m], of, n) == RealTotal(es, of, n)
  {
    if n > 0 { RealTotalOfPrefix(es, of, m, n - 1); }
  }
}
