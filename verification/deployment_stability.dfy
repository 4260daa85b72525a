/**
 Deciding that a deployed control plane is stable: enough consecutive matching samples, over enough time.
 */
module DeploymentStability {

  datatype Alignment = Aligned | CliOutdated | OtherAlignment

  /** One diagnosis of the deployment; a diagnosis may also throw. */
  datatype Sample = Threw | Diagnosed(ok: bool, alignment: Alignment)

  datatype Verdict = Verified(attempt: nat) | Unverified | Aborted(attempt: nat)

  /** The milliseconds waited after each attempt but the last. */
  const DELAYS: seq<nat> := [
    1_000, 1_000, 1_000, 1_000, 1_000, 2_000, 4_000, 8_000, 16_000, 30_000, 30_000, 30_000, 30_000, 5_000, 5_000]

  const ATTEMPTS: nat := 16
  const MINIMUM_STABILITY: nat := 10_000
  const REQUIRED_MATCHES: nat := 3

  predicate Matches(s: Sample) { s.Diagnosed? && s.ok && s.alignment.Aligned? }

  predicate Outdated(s: Sample) { s.Diagnosed? && s.alignment.CliOutdated? }

  // ---------------------------------------------------------------- stability

  /** The time waited before the attempt. */
  function Elapsed(attempt: nat): nat
    requires attempt < ATTEMPTS
  {
    if attempt == 0 then 0 else Elapsed(attempt - 1) + DELAYS[attempt - 1]
  }

  ghost predicate AllMatch(samples: seq<Sample>, first: nat, last: nat)
    requires first <= last < |samples|
  {
    forall i :: first <= i <= last ==> Matches(samples[i])
  }

  /** Matching attempts from one to the other are enough of them and span enough time. */
  predicate LongEnough(first: nat, last: nat)
    requires first <= last < ATTEMPTS
  {
    last - first + 1 >= REQUIRED_MATCHES && Elapsed(last) - Elapsed(first) >= MINIMUM_STABILITY
  }

  /** Some stretch of matching samples ending at the attempt is long enough. */
  ghost predicate Stable(samples: seq<Sample>, attempt: nat)
    requires |samples| == ATTEMPTS && attempt < ATTEMPTS
  {
    exists first :: 0 <= first <= attempt && AllMatch(samples, first, attempt) && LongEnough(first, attempt)
  }

  /** No sample before the attempt ends the verification early. */
  ghost predicate Reaches(samples: seq<Sample>, attempt: nat)
    requires |samples| == ATTEMPTS && attempt < ATTEMPTS
  {
    forall i :: 0 <= i < attempt ==> !Outdated(samples[i]) && !samples[i].Threw? && !Stable(samples, i)
  }

  /** The verification succeeds at the attempt. */
  ghost predicate Verifies(samples: seq<Sample>, attempt: nat)
    requires |samples| == ATTEMPTS
  {
    attempt < ATTEMPTS && Reaches(samples, attempt) && Stable(samples, attempt)
  }

  lemma {:induction false} ElapsedGrows(first: nat, last: nat)
    requires first <= last < ATTEMPTS
    ensures Elapsed(first) <= Elapsed(last)
    decreases last
  {
    if first < last { ElapsedGrows(first, last - 1); }
  }

  /** What the counters hold, given the start of the longest stretch of matches, decides stability. */
  lemma StableByLongest(samples: seq<Sample>, first: nat, attempt: nat)
    requires |samples| == ATTEMPTS && first <= attempt < ATTEMPTS
    requires AllMatch(samples, first, attempt) && (first == 0 || !Matches(samples[first - 1]))
    ensures Stable(samples, attempt) <==> LongEnough(first, attempt)
  {
    if Stable(samples, attempt) {
      var other :| 0 <= other <= attempt && AllMatch(samples, other, attempt) && LongEnough(other, attempt);
      assert other >= first;
      ElapsedGrows(first, other);
    }
  }

  lemma CountersDecide(first: nat, last: nat, matches: int, milliseconds: int)
    requires first <= last < ATTEMPTS && matches == last - first + 1 && milliseconds == Elapsed(last) - Elapsed(first)
    ensures LongEnough(first, last) <==> matches >= REQUIRED_MATCHES && milliseconds >= MINIMUM_STABILITY
  {
  }

  lemma UnmatchedIsUnstable(samples: seq<Sample>, attempt: nat)
    requires |samples| == ATTEMPTS && attempt < ATTEMPTS && !Matches(samples[attempt])
    ensures !Stable(samples, attempt)
  {
  }

  /**
   Success comes exactly at the first attempt whose stretch of matches is long enough, unless a sample
   before it throws or finds the command line outdated.
   */
  method VerifyDeployedControlPlane(samples: seq<Sample>) returns (verdict: Verdict)
    requires |samples| == ATTEMPTS
    ensures forall attempt :: verdict == Verified(attempt) <==> Verifies(samples, attempt)
    ensures forall attempt :: 0 <= attempt < ATTEMPTS ==>
      (verdict == Aborted(attempt) <==> Reaches(samples, attempt) && samples[attempt].Threw?)
    ensures verdict.Aborted? ==> verdict.attempt < ATTEMPTS
  {
    hide Stable, LongEnough;
    var consecutiveMatches, stableMilliseconds := 0, 0;
    for index := 0 to ATTEMPTS
      invariant index < ATTEMPTS ==> Reaches(samples, index)
      invariant index == ATTEMPTS ==> Reaches(samples, index - 1) && !Stable(samples, index - 1) && !samples[index - 1].Threw?
      invariant consecutiveMatches <= index
      invariant forall i :: index - consecutiveMatches <= i < index ==> Matches(samples[i])
      invariant consecutiveMatches < index ==> !Matches(samples[index - consecutiveMatches - 1])
      invariant index < ATTEMPTS ==> stableMilliseconds == Elapsed(index) - Elapsed(index - consecutiveMatches)
    {
      var doctor := samples[index];
      if doctor.Threw? {
        UnmatchedIsUnstable(samples, index);
        return Aborted(index);
      }
      var matched := doctor.ok && doctor.alignment.Aligned?;
      if matched {
        StableByLongest(samples, index - consecutiveMatches, index);
        consecutiveMatches := consecutiveMatches + 1;
        CountersDecide(index + 1 - consecutiveMatches, index, consecutiveMatches, stableMilliseconds);
        if consecutiveMatches >= REQUIRED_MATCHES && stableMilliseconds >= MINIMUM_STABILITY {
          return Verified(index);
        }
      } else {
        UnmatchedIsUnstable(samples, index);
        consecutiveMatches, stableMilliseconds := 0, 0;
      }
      if doctor.alignment.CliOutdated? || index == ATTEMPTS - 1 {
        break;
      }
      if matched {
        stableMilliseconds := stableMilliseconds + DELAYS[index];
      }
    }
    return Unverified;
  }

  // ---------------------------------------------------------------- which stretches are long enough

  /** The first attempt at which a stretch of matches starting here can be long enough. */
  const FIRST_STABLE: seq<nat> := [7, 7, 8, 8, 8, 8, 8, 9, 10, 11, 12, 13, 14, 15]

  lemma ElapsedTable()
    ensures Elapsed(0) == 0 && Elapsed(1) == 1_000 && Elapsed(2) == 2_000 && Elapsed(3) == 3_000
    ensures Elapsed(4) == 4_000 && Elapsed(5) == 5_000 && Elapsed(6) == 7_000 && Elapsed(7) == 11_000
    ensures Elapsed(8) == 19_000 && Elapsed(9) == 35_000 && Elapsed(10) == 65_000 && Elapsed(11) == 95_000
    ensures Elapsed(12) == 125_000 && Elapsed(13) == 155_000 && Elapsed(14) == 160_000 && Elapsed(15) == 165_000
  {
    assert Elapsed(5) == 5_000;
    assert Elapsed(10) == 65_000;
  }

  lemma LongEnoughExactly(first: nat, last: nat)
    requires first <= last < ATTEMPTS
    ensures LongEnough(first, last) <==> first < |FIRST_STABLE| && FIRST_STABLE[first] <= last
  {
    ElapsedTable();
  }

  lemma {:induction false} EarliestStable(samples: seq<Sample>, attempt: nat)
    requires |samples| == ATTEMPTS && attempt < ATTEMPTS && Stable(samples, attempt)
    ensures exists n :: 0 <= n <= attempt && Stable(samples, n) && forall i :: 0 <= i < n ==> !Stable(samples, i)
    decreases attempt
  {
    if i :| 0 <= i < attempt && Stable(samples, i) { EarliestStable(samples, i); }
  }

  /** Matches from attempt 13 (155 seconds in) or earlier to the last attempt verify, unless cut short before. */
  lemma LateMatchesSuffice(samples: seq<Sample>, first: nat)
    requires |samples| == ATTEMPTS && first <= 13 && AllMatch(samples, first, ATTEMPTS - 1)
    requires forall i :: 0 <= i < first ==> !Outdated(samples[i]) && !samples[i].Threw?
    ensures exists attempt :: Verifies(samples, attempt)
  {
    LongEnoughExactly(first, ATTEMPTS - 1);
    assert Stable(samples, ATTEMPTS - 1);
    EarliestStable(samples, ATTEMPTS - 1);
    var n :| 0 <= n < ATTEMPTS && Stable(samples, n) && forall i :: 0 <= i < n ==> !Stable(samples, i);
    assert Verifies(samples, n);
  }

  /** Matches that only begin at attempt 14 never verify: after a mismatch at attempt 13 nothing does. */
  lemma LaterMatchesFail(samples: seq<Sample>, attempt: nat)
    requires |samples| == ATTEMPTS && !Matches(samples[13])
    requires Verifies(samples, attempt)
    ensures attempt < 13
  {
    var first :| 0 <= first <= attempt && AllMatch(samples, first, attempt) && LongEnough(first, attempt);
    LongEnoughExactly(first, attempt);
  }

  /** No verification succeeds before the eighth sample, eleven seconds in. */
  lemma NoEarlyVerification(samples: seq<Sample>, attempt: nat)
    requires |samples| == ATTEMPTS && Verifies(samples, attempt)
    ensures attempt >= 7 && Elapsed(attempt) >= 11_000
  {
    var first :| 0 <= first <= attempt && AllMatch(samples, first, attempt) && LongEnough(first, attempt);
    LongEnoughExactly(first, attempt);
    ElapsedTable();
    ElapsedGrows(7, attempt);
  }
}
