/**
 * `retry_fetch_write` (src/utils.py:70-93): fetch one band with
 * `fetch_and_write`, falling back over coordinate systems on `ValueError`
 * and backing off exponentially on any other exception.
 *
 * `fetch_and_write` is an oracle: `fetch(n)` is how the n-th call (counting
 * from 0) of one run ends. Any environment, including one that reacts to the
 * geometry it is given, produces one such stream, because the loop itself is
 * deterministic. The geometry passed to a call is named by the coordinate
 * system it is expressed in; `time.sleep` is recorded as the delay it would
 * wait.
 */
module Retry {

  /** How one call of `fetch_and_write` ends. */
  datatype Outcome = Written | ValueErr | OtherErr

  /** Which geometry is passed: `geom` (primary code), `geom_l` (code - 1), `geom_r` (code + 1). */
  datatype Crs = Primary | Lower | Upper

  /** The loop variables `success`, `retries`, `epsg_tries` and `geom`. */
  datatype State = State(success: bool, retries: nat, epsgTries: nat, geom: Crs)

  /** What a run returns (`success`) and what it did: the geometry of each call and each wait. */
  datatype Trace = Trace(success: bool, tried: seq<Crs>, delays: seq<nat>)

  const Start := State(false, 0, 0, Primary)

  /** `retries = 10` in the source: any value above the ceiling ends the loop. */
  const GiveUp := 10

  /** The loop guard `not success and retries <= 3`. */
  predicate Running(s: State) {
    !s.success && s.retries <= 3
  }

  function Pow2(k: nat): (p: nat)
    ensures p >= 1
  {
    if k == 0 then 1 else 2 * Pow2(k - 1)
  }

  /** One pass through the body of the loop, after the call ended with `o`. */
  function Step(s: State, o: Outcome): State {
    match o
    case Written => s.(success := true)
    case ValueErr =>
      if s.epsgTries == 0 then s.(geom := Lower, epsgTries := 1)
      else if s.epsgTries == 1 then s.(geom := Upper, epsgTries := 2)
      else s.(retries := GiveUp)
    case OtherErr => s.(retries := s.retries + 1)
  }

  /** What the loop still has to spend: it shrinks on every pass that does not end the loop. */
  function Budget(s: State): nat {
    if !Running(s) then 0
    else 1 + (4 - s.retries) as nat + (if s.epsgTries < 2 then 2 - s.epsgTries else 0)
  }

  lemma StepShrinksBudget(s: State, o: Outcome)
    requires Running(s)
    ensures Budget(Step(s, o)) < Budget(s)
  {
  }

  /** The geometries recorded after one more call from `s`. */
  function TriedAfter(s: State, tried: seq<Crs>): seq<Crs> {
    tried + [s.geom]
  }

  /** The waits recorded after one more call from `s` ended with `o`: `time.sleep(2 ** retries)`. */
  function DelaysAfter(s: State, o: Outcome, delays: seq<nat>): seq<nat> {
    if o == OtherErr then delays + [Pow2(Step(s, o).retries)] else delays
  }

  /**
   * The loop as a recursive function: from state `s`, after the calls whose
   * geometries are `tried` and the waits `delays`.
   */
  function Loop(fetch: nat -> Outcome, s: State, tried: seq<Crs>, delays: seq<nat>): Trace
    decreases Budget(s)
  {
    if !Running(s) then Trace(s.success, tried, delays)
    else
      var o := fetch(|tried|);
      var s' := Step(s, o);
      StepShrinksBudget(s, o);
      Loop(fetch, s', TriedAfter(s, tried), DelaysAfter(s, o, delays))
  }

  /** The reference meaning of one `retry_fetch_write` call. */
  function Run(fetch: nat -> Outcome): Trace {
    Loop(fetch, Start, [], [])
  }

  /** The loop of src/utils.py:70-93, over the same four variables. */
  method RetryFetchWrite(fetch: nat -> Outcome) returns (success: bool, tried: seq<Crs>, delays: seq<nat>)
    ensures Trace(success, tried, delays) == Run(fetch)
  {
    success := false;
    var retries: nat := 0;
    var epsgTries: nat := 0;
    var geom := Primary;
    tried, delays := [], [];
    while !success && retries <= 3
      invariant Loop(fetch, State(success, retries, epsgTries, geom), tried, delays) == Run(fetch)
      decreases Budget(State(success, retries, epsgTries, geom))
    {
      ghost var before, triedBefore, delaysBefore := State(success, retries, epsgTries, geom), tried, delays;
      var outcome := fetch(|tried|);
      tried := tried + [geom];
      match outcome {
        case Written =>
          success := true;
        case ValueErr =>
          if epsgTries == 0 {
            geom := Lower;
            epsgTries := epsgTries + 1;
          } else if epsgTries == 1 {
            geom := Upper;
            epsgTries := epsgTries + 1;
          } else {
            retries := GiveUp;
          }
        case OtherErr =>
          retries := retries + 1;
          delays := delays + [Pow2(retries)];
      }
      assert State(success, retries, epsgTries, geom) == Step(before, outcome);
      assert tried == TriedAfter(before, triedBefore) && delays == DelaysAfter(before, outcome, delaysBefore);
      LoopStep(fetch, before, triedBefore, delaysBefore);
    }
  }

  /** One unfolding of `Loop` while the loop runs. */
  lemma LoopStep(fetch: nat -> Outcome, s: State, tried: seq<Crs>, delays: seq<nat>)
    requires Running(s)
    ensures Budget(Step(s, fetch(|tried|))) < Budget(s)
    ensures Loop(fetch, s, tried, delays)
         == Loop(fetch, Step(s, fetch(|tried|)), TriedAfter(s, tried), DelaysAfter(s, fetch(|tried|), delays))
  {
    StepShrinksBudget(s, fetch(|tried|));
  }

  // ---------------------------------------------------------------------
  // An independent description of a run, in terms of the outcomes alone

  /** How many of the first n calls ended with `o`. */
  function Count(fetch: nat -> Outcome, o: Outcome, n: nat): (c: nat)
    ensures c <= n
  {
    if n == 0 then 0 else Count(fetch, o, n - 1) + (if fetch(n - 1) == o then 1 else 0)
  }

  /** The geometry used after `c` ValueErrors: primary, then geom_l, then geom_r. */
  function FallbackAfter(c: nat): Crs {
    if c == 0 then Primary else if c == 1 then Lower else Upper
  }

  /** The geometries of the first n calls: each one chosen by the ValueErrors before it. */
  function Geometries(fetch: nat -> Outcome, n: nat): (gs: seq<Crs>)
    ensures |gs| == n
  {
    if n == 0 then [] else Geometries(fetch, n - 1) + [FallbackAfter(Count(fetch, ValueErr, n - 1))]
  }

  lemma {:induction false} GeometryOfCall(fetch: nat -> Outcome, n: nat, i: nat)
    requires i < n
    ensures Geometries(fetch, n)[i] == FallbackAfter(Count(fetch, ValueErr, i))
  {
    if i < n - 1 {
      GeometryOfCall(fetch, n - 1, i);
    }
  }

  /** The waits after k transient failures: 2, 4, ..., 2^k seconds. */
  function Backoff(k: nat): (ds: seq<nat>)
    ensures |ds| == k
  {
    if k == 0 then [] else Backoff(k - 1) + [Pow2(k)]
  }

  /**
   * Call n is the last one: it wrote the file, or it was the third
   * ValueError, or the fourth failure of any other kind.
   */
  predicate Stops(fetch: nat -> Outcome, n: nat) {
    match fetch(n)
    case Written => true
    case ValueErr => Count(fetch, ValueErr, n) == 2
    case OtherErr => Count(fetch, OtherErr, n) == 3
  }

  /**
   * `t` is what a run against `fetch` does: calls continue up to and
   * including the first one that stops the loop and no further; the result
   * is true exactly when that call wrote the file; call i uses the geometry
   * chosen by the ValueErrors before it; and one wait follows each transient
   * failure.
   */
  predicate Characterizes(fetch: nat -> Outcome, t: Trace) {
    && |t.tried| >= 1
    && Stops(fetch, |t.tried| - 1)
    && (forall i :: 0 <= i < |t.tried| - 1 ==> !Stops(fetch, i))
    && t.success == (fetch(|t.tried| - 1) == Written)
    && t.tried == Geometries(fetch, |t.tried|)
    && t.delays == Backoff(Count(fetch, OtherErr, |t.tried|))
  }

  /** What holds of the loop variables at the head of the loop. */
  predicate Consistent(fetch: nat -> Outcome, s: State, tried: seq<Crs>, delays: seq<nat>) {
    var n := |tried|;
    && Running(s)
    && s.retries == Count(fetch, OtherErr, n)
    && s.epsgTries == Count(fetch, ValueErr, n)
    && s.epsgTries <= 2
    && s.geom == FallbackAfter(s.epsgTries)
    && (forall i :: 0 <= i < n ==> !Stops(fetch, i))
    && tried == Geometries(fetch, n)
    && delays == Backoff(s.retries)
  }

  lemma CountStep(fetch: nat -> Outcome, o: Outcome, n: nat)
    ensures Count(fetch, o, n + 1) == Count(fetch, o, n) + (if fetch(n) == o then 1 else 0)
  {
  }

  /** A pass that does not end the loop keeps `Consistent`, and the call it made does not stop. */
  lemma StepKeepsConsistent(fetch: nat -> Outcome, s: State, tried: seq<Crs>, delays: seq<nat>)
    requires Consistent(fetch, s, tried, delays)
    requires Running(Step(s, fetch(|tried|)))
    ensures !Stops(fetch, |tried|)
    ensures Consistent(fetch, Step(s, fetch(|tried|)), TriedAfter(s, tried), DelaysAfter(s, fetch(|tried|), delays))
  {
    var n := |tried|;
    var o := fetch(n);
    var s' := Step(s, o);
    CountStep(fetch, ValueErr, n);
    CountStep(fetch, OtherErr, n);
  }

  /** A pass that ends the loop was made by a call that stops it, and the run is then fully described. */
  lemma LastStepCharacterized(fetch: nat -> Outcome, s: State, tried: seq<Crs>, delays: seq<nat>)
    requires Consistent(fetch, s, tried, delays)
    requires !Running(Step(s, fetch(|tried|)))
    ensures Characterizes(fetch, Trace(Step(s, fetch(|tried|)).success, TriedAfter(s, tried), DelaysAfter(s, fetch(|tried|), delays)))
  {
    var n := |tried|;
    var o := fetch(n);
    CountStep(fetch, ValueErr, n);
    CountStep(fetch, OtherErr, n);
    assert Stops(fetch, n);
  }

  lemma {:induction false} LoopCharacterized(fetch: nat -> Outcome, s: State, tried: seq<Crs>, delays: seq<nat>)
    requires Consistent(fetch, s, tried, delays)
    ensures Characterizes(fetch, Loop(fetch, s, tried, delays))
    decreases Budget(s)
  {
    var o := fetch(|tried|);
    var s' := Step(s, o);
    StepShrinksBudget(s, o);
    assert Loop(fetch, s, tried, delays) == Loop(fetch, s', TriedAfter(s, tried), DelaysAfter(s, o, delays));
    if Running(s') {
      StepKeepsConsistent(fetch, s, tried, delays);
      LoopCharacterized(fetch, s', TriedAfter(s, tried), DelaysAfter(s, o, delays));
    } else {
      LastStepCharacterized(fetch, s, tried, delays);
    }
  }

  /** Every run is described by `Characterizes`. */
  lemma RunCharacterized(fetch: nat -> Outcome)
    ensures Characterizes(fetch, Run(fetch))
  {
    LoopCharacterized(fetch, Start, [], []);
  }

  // ---------------------------------------------------------------------
  // Properties of a run

  lemma {:induction false} CountMonotone(fetch: nat -> Outcome, o: Outcome, i: nat, j: nat)
    requires i <= j
    ensures Count(fetch, o, i) <= Count(fetch, o, j)
    decreases j - i
  {
    if i < j {
      CountMonotone(fetch, o, i, j - 1);
    }
  }

  /** Every call ends in exactly one of the three ways. */
  lemma {:induction false} CountsAddUp(fetch: nat -> Outcome, n: nat)
    ensures Count(fetch, Written, n) + Count(fetch, ValueErr, n) + Count(fetch, OtherErr, n) == n
  {
    if n > 0 {
      CountsAddUp(fetch, n - 1);
    }
  }

  /** While no call has stopped the loop, no call wrote, at most two were ValueErrors and at most three other failures. */
  lemma {:induction false} CountsWhileRunning(fetch: nat -> Outcome, m: nat)
    requires forall i :: 0 <= i < m ==> !Stops(fetch, i)
    ensures Count(fetch, Written, m) == 0
    ensures Count(fetch, ValueErr, m) <= 2
    ensures Count(fetch, OtherErr, m) <= 3
  {
    if m > 0 {
      CountsWhileRunning(fetch, m - 1);
      assert !Stops(fetch, m - 1);
    }
  }

  /**
   * `retry_fetch_write` returns true exactly when some call of
   * `fetch_and_write` completed, and no call is made after that one.
   */
  lemma SucceedsIffSomeCallWrote(fetch: nat -> Outcome, t: Trace)
    requires Characterizes(fetch, t)
    ensures t.success <==> exists i :: 0 <= i < |t.tried| && fetch(i) == Written
    ensures forall i :: 0 <= i < |t.tried| && fetch(i) == Written ==> i == |t.tried| - 1
  {
    forall i | 0 <= i < |t.tried| - 1
      ensures fetch(i) != Written
    {
      assert !Stops(fetch, i);
    }
  }

  /** When call n - 1 is the first to stop the loop, at most six calls were made. */
  lemma CountsAtStop(fetch: nat -> Outcome, n: nat)
    requires n >= 1 && Stops(fetch, n - 1)
    requires forall i :: 0 <= i < n - 1 ==> !Stops(fetch, i)
    ensures n <= 6
    ensures Count(fetch, ValueErr, n) <= 3
    ensures Count(fetch, OtherErr, n) <= 4
  {
    CountsWhileRunning(fetch, n - 1);
    CountsAddUp(fetch, n - 1);
    CountStep(fetch, ValueErr, n - 1);
    CountStep(fetch, OtherErr, n - 1);
  }

  /** The number of calls, ValueErrors, other failures and waits in one run. */
  lemma CallBounds(fetch: nat -> Outcome, t: Trace)
    requires Characterizes(fetch, t)
    ensures 1 <= |t.tried| <= 6
    ensures Count(fetch, ValueErr, |t.tried|) <= 3
    ensures Count(fetch, OtherErr, |t.tried|) <= 4
    ensures |t.delays| == Count(fetch, OtherErr, |t.tried|)
  {
    CountsAtStop(fetch, |t.tried|);
  }

  /** The geometry the next call uses after a call on `g` ended with `o`. */
  function NextGeometry(g: Crs, o: Outcome): Crs {
    if o == ValueErr && g == Primary then Lower
    else if o == ValueErr && g == Lower then Upper
    else g
  }

  /** Before the last call, at most two ValueErrors have happened. */
  lemma ValueErrorsBefore(fetch: nat -> Outcome, t: Trace, i: nat)
    requires Characterizes(fetch, t)
    requires i < |t.tried|
    ensures Count(fetch, ValueErr, i) <= 2
    ensures t.tried[i] == FallbackAfter(Count(fetch, ValueErr, i))
  {
    GeometryOfCall(fetch, |t.tried|, i);
    CountsWhileRunning(fetch, |t.tried| - 1);
    CountMonotone(fetch, ValueErr, i, |t.tried| - 1);
  }

  /**
   * The coordinate-system fallback: the first call uses the primary
   * geometry; a ValueError on the primary moves to geom_l and one on geom_l
   * to geom_r; any other failure keeps the geometry.
   */
  lemma FallbackOrder(fetch: nat -> Outcome, t: Trace)
    requires Characterizes(fetch, t)
    ensures t.tried[0] == Primary
    ensures forall i :: 0 <= i < |t.tried| - 1 ==> t.tried[i + 1] == NextGeometry(t.tried[i], fetch(i))
  {
    ValueErrorsBefore(fetch, t, 0);
    forall i | 0 <= i < |t.tried| - 1
      ensures t.tried[i + 1] == NextGeometry(t.tried[i], fetch(i))
    {
      ValueErrorsBefore(fetch, t, i);
      ValueErrorsBefore(fetch, t, i + 1);
      CountStep(fetch, ValueErr, i);
    }
  }

  /** A ValueError on geom_r, the third, is the last call, and the run fails. */
  lemma ThirdValueErrorGivesUp(fetch: nat -> Outcome, t: Trace, i: nat)
    requires Characterizes(fetch, t)
    requires i < |t.tried| && t.tried[i] == Upper && fetch(i) == ValueErr
    ensures Count(fetch, ValueErr, i + 1) == 3
    ensures i == |t.tried| - 1 && !t.success
  {
    assert Stops(fetch, i) && Count(fetch, ValueErr, i + 1) == 3 by {
      ValueErrorsBefore(fetch, t, i);
      CountStep(fetch, ValueErr, i);
    }
    assert i == |t.tried| - 1;
    assert fetch(|t.tried| - 1) == ValueErr;
  }

  /** Once a fallback geometry is used, the primary one is never used again. */
  lemma NeverBackToPrimary(fetch: nat -> Outcome, t: Trace, i: nat, j: nat)
    requires Characterizes(fetch, t)
    requires i <= j < |t.tried| && t.tried[i] != Primary
    ensures t.tried[j] != Primary
  {
    ValueErrorsBefore(fetch, t, i);
    ValueErrorsBefore(fetch, t, j);
    CountMonotone(fetch, ValueErr, i, j);
  }

  lemma {:induction false} Pow2Increasing(i: nat, j: nat)
    requires i < j
    ensures Pow2(i) < Pow2(j)
    decreases j
  {
    if i < j - 1 {
      Pow2Increasing(i, j - 1);
    }
  }

  /**
   * The k-th transient failure (k = 1, 2, ...) is followed by a wait of 2^k
   * seconds, the last one included, so the waits strictly increase.
   */
  lemma {:induction false} BackoffDoubles(k: nat)
    ensures forall j :: 0 <= j < k ==> Backoff(k)[j] == Pow2(j + 1)
    ensures forall i, j :: 0 <= i < j < k ==> Backoff(k)[i] < Backoff(k)[j]
  {
    if k > 0 {
      BackoffDoubles(k - 1);
      assert Backoff(k)[..k - 1] == Backoff(k - 1);
    }
    forall i, j | 0 <= i < j < k
      ensures Backoff(k)[i] < Backoff(k)[j]
    {
      Pow2Increasing(i + 1, j + 1);
    }
  }

  /**
   * The waits of one run: the k-th transient failure is followed by a wait of
   * 2^k seconds, at most four waits in all (2, 4, 8, 16), strictly increasing.
   */
  lemma RunWaits(fetch: nat -> Outcome, t: Trace)
    requires Characterizes(fetch, t)
    ensures |t.delays| <= 4
    ensures forall j :: 0 <= j < |t.delays| ==> t.delays[j] == Pow2(j + 1)
    ensures forall i, j :: 0 <= i < j < |t.delays| ==> t.delays[i] < t.delays[j]
  {
    CallBounds(fetch, t);
    BackoffDoubles(Count(fetch, OtherErr, |t.tried|));
  }

  /**
   * The two counters move independently: a ValueError that does not end
   * the loop leaves `retries` alone, and a transient failure leaves
   * `epsg_tries` and the geometry alone.
   */
  lemma CountersIndependent(s: State, o: Outcome)
    ensures o == ValueErr && s.epsgTries < 2 ==>
              Step(s, o).retries == s.retries && Step(s, o).epsgTries == s.epsgTries + 1
    ensures o == ValueErr && s.epsgTries >= 2 ==> Step(s, o).epsgTries == s.epsgTries && !Running(Step(s, o))
    ensures o == OtherErr ==>
              Step(s, o).retries == s.retries + 1 && Step(s, o).epsgTries == s.epsgTries && Step(s, o).geom == s.geom
  {
  }

  /** `Characterizes` pins a run down completely: two traces it admits for one oracle are equal. */
  lemma CharacterizationUnique(fetch: nat -> Outcome, t: Trace, u: Trace)
    requires Characterizes(fetch, t) && Characterizes(fetch, u)
    ensures t == u
  {
    assert |t.tried| == |u.tried|;
  }

  // ---------------------------------------------------------------------
  // Scenarios

  /** Five transient failures in a row: four calls on the primary geometry, waits of 2, 4, 8 and 16 seconds, then false. */
  lemma TransientFailuresExhaustRetries()
    ensures Run(_ => OtherErr) == Trace(false, [Primary, Primary, Primary, Primary], [2, 4, 8, 16])
  {
    var fetch: nat -> Outcome := _ => OtherErr;
    var p1, p2, p3 := [Primary], [Primary, Primary], [Primary, Primary, Primary];
    var s1, s2, s3 := State(false, 1, 0, Primary), State(false, 2, 0, Primary), State(false, 3, 0, Primary);
    LoopStep(fetch, Start, [], []);
    assert Step(Start, OtherErr) == s1;
    LoopStep(fetch, s1, p1, [2]);
    assert Step(s1, OtherErr) == s2;
    LoopStep(fetch, s2, p2, [2, 4]);
    assert Step(s2, OtherErr) == s3;
    LoopStep(fetch, s3, p3, [2, 4, 8]);
    assert DelaysAfter(s3, OtherErr, [2, 4, 8]) == [2, 4, 8, 16];
    LoopStops(fetch, State(false, 4, 0, Primary), p3 + [Primary], [2, 4, 8, 16]);
  }

  /** A loop that no longer runs returns what it has. */
  lemma LoopStops(fetch: nat -> Outcome, s: State, tried: seq<Crs>, delays: seq<nat>)
    requires !Running(s)
    ensures Loop(fetch, s, tried, delays) == Trace(s.success, tried, delays)
  {
  }

  /** Two ValueErrors, then success: the primary geometry, geom_l, then geom_r, which writes the band. */
  lemma SecondFallbackSucceeds()
    ensures Run(n => if n < 2 then ValueErr else Written) == Trace(true, [Primary, Lower, Upper], [])
  {
    var fetch: nat -> Outcome := n => if n < 2 then ValueErr else Written;
    assert Run(fetch) == Loop(fetch, State(false, 0, 1, Lower), [Primary], []);
    assert Loop(fetch, State(false, 0, 1, Lower), [Primary], []) == Loop(fetch, State(false, 0, 2, Upper), [Primary, Lower], []);
  }

  /** The bound of six calls is reached: two ValueErrors, then four other failures. */
  lemma SixCallsReached()
    ensures |Run(n => if n < 2 then ValueErr else OtherErr).tried| == 6
  {
    var fetch: nat -> Outcome := n => if n < 2 then ValueErr else OtherErr;
    var t := Run(fetch);
    RunCharacterized(fetch);
    CallBounds(fetch, t);
    assert Count(fetch, ValueErr, 2) == 2;
    assert Count(fetch, OtherErr, 5) == 3 by {
      assert Count(fetch, OtherErr, 2) == 0;
    }
    forall i | 0 <= i < 5
      ensures !Stops(fetch, i)
    {
      assert Count(fetch, ValueErr, 2) == 2;
      if i >= 2 {
        CountMonotone(fetch, OtherErr, i, 5);
      }
      if i == 5 - 1 {
        assert Count(fetch, OtherErr, 4) == 2;
      }
    }
  }
}
