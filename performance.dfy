/** Size-based policies: when a document counts as large, and how long
    rendering waits after an edit. Lengths are character counts. */
module Performance {
  /** Documents strictly longer than this are large. */
  const LargeDocumentLength: nat := 10000

  /** The contract is the length test itself; `LargeDocumentsWaitLonger`
      relates it to the render delay. */
  function IsLargeDocument(content: string): (r: bool)
    ensures r <==> |content| > LargeDocumentLength
  {
    |content| > 10000
  }

  /** Render delay in milliseconds: a step function of the length. The
      contract is the case table itself; `RenderDelayMonotone` and
      `LargeDocumentsWaitLonger` are its properties. */
  function RenderDelay(len: nat): (ms: nat)
    ensures len < 5000 ==> ms == 100
    ensures 5000 <= len < 20000 ==> ms == 200
    ensures 20000 <= len < 50000 ==> ms == 300
    ensures len >= 50000 ==> ms == 500
  {
    if len < 5000 then 100
    else if len < 20000 then 200
    else if len < 50000 then 300
    else 500
  }

  function GetRenderDelay(content: string): (ms: nat)
    ensures ms in {100, 200, 300, 500}
    ensures ms == RenderDelay(|content|)
  {
    RenderDelay(|content|)
  }

  /** A longer document never waits less. */
  lemma RenderDelayMonotone(a: nat, b: nat)
    requires a <= b
    ensures RenderDelay(a) <= RenderDelay(b)
  {
  }

  /** Every large document waits at least 200 ms, and the shortest
      documents all wait the minimum. */
  lemma LargeDocumentsWaitLonger(content: string)
    ensures IsLargeDocument(content) ==> GetRenderDelay(content) >= 200
    ensures GetRenderDelay(content) == 100 <==> |content| < 5000
  {
  }
}
