/** The API client's request loop: a GET is attempted again after a transient
    failure, with growing pauses. */
module ApiClient {
  import opened AuthProtocol

  /** What one attempt meets: how `auth.fetch` came out, and whether the body of
      an answer is JSON. */
  datatype Attempt = Attempt(net: FetchResult, parses: bool)

  datatype Cause = Auth(error: ErrorCode) | Network | BadBody

  datatype Result =
    | Empty                   // resolved without a body
    | Body(status: int)       // resolved with the parsed body
    | Refusal(status: int)    // threw an ApiError
    | Rethrown(cause: Cause)  // threw what the attempt threw
    | ThrewUndefined          // fell out of the loop

  predicate IsOk(status: int) {
    200 <= status < 300
  }

  predicate Succeeded(a: Attempt) {
    a.net.Returned? && IsOk(a.net.status) && (a.net.status == 204 || a.parses)
  }

  predicate Refused(a: Attempt) {
    a.net.Returned? && !IsOk(a.net.status) && a.net.status < 500
  }

  /** Worth another attempt: no connection, no session, a server error, or a
      successful answer whose body cannot be read. */
  predicate Transient(a: Attempt) {
    !Succeeded(a) && !Refused(a)
  }

  /** What the caller sees of the last attempt. */
  function Report(a: Attempt): Result {
    match a.net
    case ThrewAuth(e) => Rethrown(Auth(e))
    case ThrewNetwork => Rethrown(Network)
    case Returned(status) =>
      if !IsOk(status) then Refusal(status)
      else if status == 204 then Empty
      else if a.parses then Body(status)
      else Rethrown(BadBody)
  }

  /** The first `n` attempts are the whole history of one request that ended in
      `result`. */
  ghost predicate Transcript(get: bool, retries: int, attempts: seq<Attempt>, n: nat, result: Result) {
    if retries < 0 then n == 0 && result == ThrewUndefined
    else
      && 1 <= n <= retries + 1 && n <= |attempts|
      && (n > 1 ==> get)
      && (forall i :: 0 <= i < n - 1 ==> Transient(attempts[i]))
      && (get && n <= retries ==> !Transient(attempts[n - 1]))
      && result == Report(attempts[n - 1])
  }

  /** What the server answers fixes how many attempts are made and the result. */
  lemma TranscriptIsUnique(get: bool, retries: int, script: seq<Attempt>,
                           m: nat, r: Result, n: nat, q: Result)
    requires Transcript(get, retries, script, m, r)
    requires Transcript(get, retries, script, n, q)
    ensures m == n && r == q
  {
  }

  /** The final `throw lastErr` is reached only with a negative `retries`. */
  lemma FinalThrowNeedsNegativeRetries(get: bool, retries: int, attempts: seq<Attempt>, n: nat, result: Result)
    requires Transcript(get, retries, attempts, n, result)
    ensures result == ThrewUndefined <==> retries < 0
    ensures retries >= 0 ==> 1 <= n <= retries + 1 && (!get ==> n == 1)
  {
    if retries >= 0 {
      match attempts[n - 1].net
      case Returned(status) => if IsOk(status) {}
      case ThrewAuth(_) =>
      case ThrewNetwork =>
    }
  }

  /** The same in statuses.  A GET is attempted again after a fetch that threw, a status
      from 500 up, or a success other than 204 whose body cannot be read; and what the
      caller gets is decided by the last attempt. */
  lemma TranscriptInStatuses(get: bool, retries: int, attempts: seq<Attempt>, n: nat, result: Result)
    requires Transcript(get, retries, attempts, n, result) && retries >= 0
    ensures forall i :: 0 <= i < n ==>
              var a := attempts[i];
              var again := !a.net.Returned? || a.net.status >= 500
                           || (200 <= a.net.status < 300 && a.net.status != 204 && !a.parses);
              (i + 1 < n <==> get && i < retries && again)
    ensures match attempts[n - 1].net
            case ThrewAuth(e) => result == Rethrown(Auth(e))
            case ThrewNetwork => result == Rethrown(Network)
            case Returned(status) =>
              && (status == 204 ==> result == Empty)
              && (200 <= status < 300 && status != 204 ==>
                    result == if attempts[n - 1].parses then Body(status) else Rethrown(BadBody))
              && (status < 200 || status >= 300 ==> result == Refusal(status))
  {
    forall i | 0 <= i < n
      ensures Transient(attempts[i]) <==>
                || !attempts[i].net.Returned? || attempts[i].net.status >= 500
                || (200 <= attempts[i].net.status < 300 && attempts[i].net.status != 204 && !attempts[i].parses)
    {
    }
  }

  // ---- Pauses ----

  function Pow2(n: nat): (p: nat)
    ensures p >= 1
  {
    if n == 0 then 1 else 2 * Pow2(n - 1)
  }

  function Floor(attempt: nat): nat {
    if 250 * Pow2(attempt) < 8000 then 250 * Pow2(attempt) else 8000
  }

  /** `random` is what Math.random gave, in [0, 1). */
  function BackoffMs(attempt: nat, random: real): real {
    Floor(attempt) as real + random * 100.0
  }

  ghost predicate Randoms(random: seq<real>) {
    forall i :: 0 <= i < |random| ==> 0.0 <= random[i] < 1.0
  }

  function SleptAfter(random: seq<real>, n: nat): real
    requires n <= |random|
  {
    if n == 0 then 0.0 else SleptAfter(random, n - 1) + BackoffMs(n - 1, random[n - 1])
  }

  /** The first six pauses double from 250 ms; every later one is 8 seconds. */
  function FloorSum(n: nat): nat {
    if n <= 6 then 250 * (Pow2(n) - 1) else 15750 + 8000 * (n - 6)
  }

  lemma {:induction false} PowAtSix(n: nat)
    ensures Pow2(6) == 64
    ensures n >= 6 ==> Pow2(n) >= 64
    ensures n < 5 ==> Pow2(n) <= 16
    ensures Pow2(5) == 32
  {
    assert Pow2(2) == 4 && Pow2(4) == 16;
    if n > 6 {
      PowAtSix(n - 1);
    }
  }

  function Total(random: seq<real>, n: nat): real
    requires n <= |random|
  {
    if n == 0 then 0.0 else Total(random, n - 1) + random[n - 1]
  }

  /** Every pause adds up to 100 ms at random, and no more. */
  lemma {:induction false} SleptBetween(random: seq<real>, n: nat)
    requires n <= |random| && Randoms(random)
    ensures SleptAfter(random, n) == FloorSum(n) as real + 100.0 * Total(random, n)
    ensures FloorSum(n) as real <= SleptAfter(random, n)
    ensures n > 0 ==> SleptAfter(random, n) < FloorSum(n) as real + 100.0 * n as real
  {
    if n > 0 {
      SleptBetween(random, n - 1);
      PowAtSix(n - 1);
      FloorSumStep(n - 1);
    }
  }

  lemma FloorSumStep(n: nat)
    ensures FloorSum(n + 1) == FloorSum(n) + Floor(n)
  {
    PowAtSix(n);
  }

  lemma {:induction false} FloorSumBound(n: nat)
    ensures FloorSum(n) <= 250 * (Pow2(n) - 1)
    ensures FloorSum(n) <= 8000 * n
  {
    if n > 0 {
      FloorSumBound(n - 1);
      FloorSumStep(n - 1);
    }
  }

  function Min(a: int, b: int): int {
    if a < b then a else b
  }

  lemma SleptBound(random: seq<real>, n: nat)
    requires 0 < n <= |random| && Randoms(random)
    ensures SleptAfter(random, n) < (Min(250 * (Pow2(n) - 1), 8000 * n) + 100 * n) as real
  {
    SleptBetween(random, n);
    FloorSumBound(n);
  }

  // ---- The loop ----

  /** `request`: attempt `i` meets `script[i]`, and the pause after it draws
      `random[i]`. */
  method Request(get: bool, retries: int, script: seq<Attempt>, random: seq<real>)
    returns (result: Result, fetches: nat, slept: real)
    requires |script| > retries && |random| > retries && Randoms(random)
    ensures Transcript(get, retries, script, fetches, result)
    ensures retries >= 0 ==> 1 <= fetches && forall i :: 0 <= i < fetches ==>
              var a := script[i];
              (i + 1 < fetches <==>
                 && get && i < retries
                 && (!a.net.Returned? || a.net.status >= 500
                     || (200 <= a.net.status < 300 && a.net.status != 204 && !a.parses)))
    ensures fetches <= 1 ==> slept == 0.0
    ensures fetches > 1 ==>
              var n := fetches - 1;
              && slept == SleptAfter(random, n)
              && slept < (Min(250 * (Pow2(n) - 1), 8000 * n) + 100 * n) as real
  {
    fetches, slept := 0, 0.0;
    var attempt := 0;
    while attempt <= retries
      invariant 0 <= attempt <= retries || attempt == 0
      invariant fetches == attempt && slept == SleptAfter(random, attempt)
      invariant attempt > 0 ==> get
      invariant forall i :: 0 <= i < attempt ==> Transient(script[i])
      decreases retries - attempt
    {
      if attempt > 0 {
        SleptBound(random, attempt);
      }
      var a := script[attempt];
      fetches := fetches + 1;
      var cause: Cause;
      match a.net {
        case Returned(status) =>
          if !IsOk(status) {
            if status >= 500 && get && attempt < retries {
              slept := slept + BackoffMs(attempt, random[attempt]);
              attempt := attempt + 1;
              continue;
            }
            return Refusal(status), fetches, slept;
          }
          if status == 204 {
            return Empty, fetches, slept;
          }
          if a.parses {
            return Body(status), fetches, slept;
          }
          cause := BadBody;
        case ThrewAuth(e) =>
          cause := Auth(e);
        case ThrewNetwork =>
          cause := Network;
      }
      if attempt < retries && get {
        slept := slept + BackoffMs(attempt, random[attempt]);
        attempt := attempt + 1;
        continue;
      }
      assert Rethrown(cause) == Report(a);
      return Rethrown(cause), fetches, slept;
    }
    result := ThrewUndefined;
  }
}
