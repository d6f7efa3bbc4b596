/** The consumer-side escalation policy: how many attempts a failing message gets and
    how long it waits between them. */
module DlqPolicy {

  datatype Policy = Policy(maxAttempts: int, baseMs: int, multiplier: int, maxMs: int) {
    /** What the policy's configuration promises about growth. */
    predicate Growing() { baseMs > 0 && multiplier >= 1 }
  }

  datatype Decision = Decision(park: bool, delayMs: int, nextRetries: int)

  function Min(a: int, b: int): int { if a <= b then a else b }
  function Max(a: int, b: int): int { if a <= b then b else a }

  function Pow(b: int, e: nat): int { if e == 0 then 1 else Pow(b, e - 1) * b }

  /** Closed form of the backoff: Base * Multiplier^hop, clamped to the ceiling. */
  function Backoff(hop: int, p: Policy): int {
    Min(p.baseMs * Pow(p.multiplier, Max(hop, 0)), p.maxMs)
  }

  lemma PowStep(p: Policy, e: nat)
    requires p.Growing()
    ensures Pow(p.multiplier, e) >= 1
    ensures p.baseMs * Pow(p.multiplier, e + 1) == p.baseMs * Pow(p.multiplier, e) * p.multiplier
    ensures p.baseMs * Pow(p.multiplier, e) <= p.baseMs * Pow(p.multiplier, e + 1)
  {
    if e > 0 { PowStep(p, e - 1); }
    var x := p.baseMs * Pow(p.multiplier, e);
    assert p.baseMs * (Pow(p.multiplier, e) * p.multiplier) == x * p.multiplier;
    assert x >= 0;
    assert x * 1 <= x * p.multiplier;
  }

  lemma {:induction false} PowGrows(p: Policy, e: nat, f: nat)
    requires p.Growing() && e <= f
    ensures p.baseMs * Pow(p.multiplier, e) <= p.baseMs * Pow(p.multiplier, f)
  {
    if e < f {
      PowGrows(p, e, f - 1);
      PowStep(p, f - 1);
    }
  }

  /** Go: multiply and clamp as it goes. `peak` is the largest intermediate product; it
      never leaves the range of one ceiling times the multiplier. */
  method BackoffMs(hop: int, p: Policy) returns (delay: int, ghost peak: int)
    requires p.Growing()
    ensures delay == Backoff(hop, p)
    ensures p.baseMs <= peak <= Max(p.baseMs, p.maxMs) * p.multiplier
  {
    delay := p.baseMs;
    peak := delay;
    assert p.baseMs * Pow(p.multiplier, 0) == p.baseMs;
    assert Max(p.baseMs, p.maxMs) * 1 <= Max(p.baseMs, p.maxMs) * p.multiplier;
    for i := 0 to Max(hop, 0)
      invariant delay == p.baseMs * Pow(p.multiplier, i)
      invariant 0 < delay <= Max(p.baseMs, p.maxMs)
      invariant p.baseMs <= peak <= Max(p.baseMs, p.maxMs) * p.multiplier
    {
      PowStep(p, i);
      assert delay * p.multiplier <= Max(p.baseMs, p.maxMs) * p.multiplier;
      delay := delay * p.multiplier;
      peak := Max(peak, delay);
      if delay >= p.maxMs {
        PowGrows(p, i + 1, Max(hop, 0));
        return p.maxMs, peak;
      }
    }
    if delay > p.maxMs {
      delay := p.maxMs;
    }
  }

  /** Python: the same loop, closed by min(). */
  method BackoffMsPython(hop: int, p: Policy) returns (delay: int)
    requires p.Growing()
    ensures delay == Backoff(hop, p)
  {
    delay := p.baseMs;
    assert p.baseMs * Pow(p.multiplier, 0) == p.baseMs;
    for i := 0 to Max(hop, 0)
      invariant delay == p.baseMs * Pow(p.multiplier, i)
    {
      PowStep(p, i);
      delay := delay * p.multiplier;
      if delay >= p.maxMs {
        PowGrows(p, i + 1, Max(hop, 0));
        return p.maxMs;
      }
    }
    delay := Min(delay, p.maxMs);
  }

  lemma BackoffMonotone(hop: int, later: int, p: Policy)
    requires p.Growing() && hop <= later
    ensures Backoff(hop, p) <= Backoff(later, p) <= p.maxMs
    ensures p.maxMs >= p.baseMs ==> p.baseMs <= Backoff(hop, p)
  {
    PowGrows(p, Max(hop, 0), Max(later, 0));
    PowGrows(p, 0, Max(hop, 0));
    assert p.baseMs * Pow(p.multiplier, 0) == p.baseMs;
  }

  function NextRetry(prior: int, p: Policy): Decision {
    if prior + 1 >= p.maxAttempts then Decision(true, 0, 0)
    else Decision(false, Backoff(prior, p), prior + 1)
  }

  /** Processing attempts a message that keeps failing gets, counting the one that parks it. */
  function AttemptsUntilParked(prior: int, p: Policy): nat
    decreases p.maxAttempts - prior
  {
    var d := NextRetry(prior, p);
    if d.park then 1 else 1 + AttemptsUntilParked(d.nextRetries, p)
  }

  /** A message that keeps failing is parked on exactly attempt MaxAttempts (on the
      first when the policy allows fewer than one). */
  lemma {:induction false} ParkedExactlyAtTheCap(prior: int, p: Policy)
    ensures AttemptsUntilParked(prior, p) == Max(1, p.maxAttempts - prior)
    decreases p.maxAttempts - prior
  {
    if !NextRetry(prior, p).park {
      ParkedExactlyAtTheCap(prior + 1, p);
    }
  }

  /** The delays a message that keeps failing is given, one per retry. */
  function Waits(prior: int, p: Policy): seq<int>
    decreases p.maxAttempts - prior
  {
    var d := NextRetry(prior, p);
    if d.park then [] else [d.delayMs] + Waits(d.nextRetries, p)
  }

  /** From a fresh message on, retry k waits Base * Multiplier^k or the ceiling, whichever is
      less, and there is one retry fewer than there are attempts. */
  lemma {:induction false} WaitsGrowToTheCeiling(prior: nat, p: Policy, k: nat)
    ensures |Waits(prior, p)| == AttemptsUntilParked(prior, p) - 1
    ensures k < |Waits(prior, p)| ==>
      var wait, grown := Waits(prior, p)[k], p.baseMs * Pow(p.multiplier, prior + k);
      wait <= grown && wait <= p.maxMs && (wait == grown || wait == p.maxMs)
    decreases p.maxAttempts - prior
  {
    if !NextRetry(prior, p).park {
      WaitsGrowToTheCeiling(prior + 1, p, if k == 0 then 0 else k - 1);
    }
  }
}
