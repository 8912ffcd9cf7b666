/** How long a refresh token may live beside a sweep that keeps rows for thirty days. */
module RefreshRetention {
  import opened RefreshExamples
  import opened RefreshFamilies
  import opened RefreshSweeps

  /** Sweeps stay invisible in every run if and only if a refresh token lives no longer than the
      retention: at the first instant after it a row may go, and by then the token must have expired. */
  lemma {:induction false} SweepsInvisibleIff(ttl: int)
    ensures SweepsInvisible(ttl) <==> ttl <= RETENTION + 1
  {
    if ttl <= RETENTION + 1 {
      forall ss, bs, steps, ts, n: nat | TimedRun(ttl, ss, bs, steps) && Unswept(ss, steps, ts) && n < |steps|
        ensures SameOutcome(ss[n], ts[n], steps[n])
      {
        SweepsChangeNoAnswer(ttl, ss, bs, steps, ts, n);
      }
    } else {
      var ss, bs := LateReuse(ttl);
      var ts := LateReuseUnswept(ttl, ss);
      assert !SameOutcome(ss[3], ts[3], LateSteps(ttl)[3]);
    }
  }
}
