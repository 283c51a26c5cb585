/** The preview's debounce delay: a step function of the document length. */
module PreviewDebounce {
  /** The contract is the case table itself; `DebounceDelayMonotone` and
      `DebounceDelayValues` are its properties. */
  function DebounceDelay(contentLength: nat): (ms: nat)
    ensures contentLength < 1000 ==> ms == 150
    ensures 1000 <= contentLength < 5000 ==> ms == 250
    ensures 5000 <= contentLength < 20000 ==> ms == 400
    ensures contentLength >= 20000 ==> ms == 600
  {
    if contentLength < 1000 then 150
    else if contentLength < 5000 then 250
    else if contentLength < 20000 then 400
    else 600
  }

  /** A longer document is never debounced for less time. */
  lemma DebounceDelayMonotone(a: nat, b: nat)
    requires a <= b
    ensures DebounceDelay(a) <= DebounceDelay(b)
  {
  }

  /** The delay takes exactly four values, each on a range of lengths. */
  lemma DebounceDelayValues(contentLength: nat)
    ensures DebounceDelay(contentLength) in {150, 250, 400, 600}
    ensures 150 <= DebounceDelay(contentLength) <= 600
  {
  }
}
