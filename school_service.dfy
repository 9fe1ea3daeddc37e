/**
 * The school service: the bounded retry around repository calls, and the ranking of a
 * fetched page of schools by their distance from the user.
 *
 * The repository is given as a script `outcome(k)`: what its k-th call (counting from 0)
 * returns or throws. The waits between attempts are recorded as a list of milliseconds
 * instead of being slept.
 */
module SchoolService {
  import opened Wrappers
  import opened Errors
  import opened Distance
  import opened SchoolRepository

  /* ----- isTransientError ----- */

  const MaxDbRetries: nat := 3

  const TransientErrorCodes: seq<string> := ["ECONNRESET", "ETIMEDOUT", "PROTOCOL_CONNECTION_LOST"]

  predicate IncludesAt(s: string, pat: string, k: nat) {
    k + |pat| <= |s| && s[k..k + |pat|] == pat
  }

  /** `s.includes(pat)`: `pat` is a slice of `s`, case included. */
  predicate Includes(s: string, pat: string) {
    exists k :: 0 <= k <= |s| - |pat| && IncludesAt(s, pat, k)
  }

  /** `isTransientError(error)` */
  predicate IsTransientError(error: AppError) {
    exists i :: 0 <= i < |TransientErrorCodes| && Includes(error.Message(), TransientErrorCodes[i])
  }

  /** A message that embeds one of the three codes anywhere marks its error transient. */
  lemma TransientCodeRecognised(error: AppError, x: string, i: nat, y: string)
    requires i < |TransientErrorCodes| && error.Message() == x + TransientErrorCodes[i] + y
    ensures IsTransientError(error)
  {
    var code := TransientErrorCodes[i];
    assert error.Message()[|x|..|x| + |code|] == code;
    assert IncludesAt(error.Message(), code, |x|);
  }

  /** Conversely, the message of a transient error splits around one of the three codes. */
  lemma TransientCodeLocated(error: AppError) returns (x: string, i: nat, y: string)
    requires IsTransientError(error)
    ensures i < |TransientErrorCodes| && error.Message() == x + TransientErrorCodes[i] + y
  {
    var m := error.Message();
    var j :| 0 <= j < |TransientErrorCodes| && Includes(m, TransientErrorCodes[j]);
    var code := TransientErrorCodes[j];
    var k :| 0 <= k <= |m| - |code| && IncludesAt(m, code, k);
    i := j;
    x, y := m[..k], m[k + |code|..];
    assert m[k..k + |code|] == code;
    SplitAround(m, k, k + |code|);
  }

  /** A string is its prefix, an infix and its suffix put back together. */
  lemma SplitAround(m: string, k: nat, n: nat)
    requires k <= n <= |m|
    ensures m == m[..k] + m[k..n] + m[n..]
  {
  }

  /** The errors the service retries: transient DatabaseErrors. */
  predicate Retryable(error: AppError) {
    error.DatabaseError? && IsTransientError(error)
  }

  /* ----- The retry loop ----- */

  /** What a retry loop ends with: the last outcome, the number of calls, the waits in between. */
  datatype Attempts<T> = Attempts(result: Result<T, AppError>, calls: nat, delays: seq<nat>)

  /** The attempts from the call numbered `retries` on. */
  function RetryFrom<T>(outcome: nat -> Result<T, AppError>, retries: nat): Attempts<T>
    requires retries < MaxDbRetries
    decreases MaxDbRetries - retries
  {
    var res := outcome(retries);
    if res.Err? && Retryable(res.error) && retries < MaxDbRetries - 1 then
      var rest := RetryFrom(outcome, retries + 1);
      Attempts(rest.result, rest.calls, [200 * (retries + 1)] + rest.delays)
    else
      Attempts(res, retries + 1, [])
  }

  /** One retry: the attempts from `retries` are the wait, then the attempts from the next call. */
  lemma RetryFromContinues<T>(outcome: nat -> Result<T, AppError>, retries: nat)
    requires retries < MaxDbRetries - 1 && outcome(retries).Err? && Retryable(outcome(retries).error)
    ensures var next := RetryFrom(outcome, retries + 1);
            RetryFrom(outcome, retries) == Attempts(next.result, next.calls, [200 * (retries + 1)] + next.delays)
  {
  }

  /** No retry: the attempts from `retries` end with that call. */
  lemma RetryFromStops<T>(outcome: nat -> Result<T, AppError>, retries: nat)
    requires retries < MaxDbRetries
    requires outcome(retries).Ok? || !Retryable(outcome(retries).error) || retries == MaxDbRetries - 1
    ensures RetryFrom(outcome, retries) == Attempts(outcome(retries), retries + 1, [])
  {
  }

  function Retry<T>(outcome: nat -> Result<T, AppError>): Attempts<T> {
    RetryFrom(outcome, 0)
  }

  lemma {:induction false} RetryFromFacts<T>(outcome: nat -> Result<T, AppError>, retries: nat)
    requires retries < MaxDbRetries
    ensures var a := RetryFrom(outcome, retries);
            retries < a.calls <= MaxDbRetries
            && |a.delays| == a.calls - 1 - retries
            && (forall k :: 0 <= k < |a.delays| ==> a.delays[k] == 200 * (retries + k + 1))
            && a.result == outcome(a.calls - 1)
            && (forall k :: retries <= k < a.calls - 1 ==> outcome(k).Err? && Retryable(outcome(k).error))
            && (a.result.Ok? || !Retryable(a.result.error) || a.calls == MaxDbRetries)
    decreases MaxDbRetries - retries
  {
    var res := outcome(retries);
    if res.Err? && Retryable(res.error) && retries < MaxDbRetries - 1 {
      RetryFromFacts(outcome, retries + 1);
    }
  }

  /**
   * The retry loop calls the repository at most three times and stops at the first success,
   * the first error that is not a transient DatabaseError, or the third failure. Every call
   * before the last failed with a transient DatabaseError, the wait before retry n is 200·n ms,
   * and the loop ends with exactly what its last call returned or threw.
   */
  lemma RetryCharacterised<T>(outcome: nat -> Result<T, AppError>)
    ensures var a := Retry(outcome);
            1 <= a.calls <= MaxDbRetries
            && a.result == outcome(a.calls - 1)
            && (forall k :: 0 <= k < a.calls - 1 ==> outcome(k).Err? && Retryable(outcome(k).error))
            && (a.result.Ok? || !Retryable(a.result.error) || a.calls == MaxDbRetries)
            && |a.delays| == a.calls - 1
            && (forall k :: 0 <= k < |a.delays| ==> a.delays[k] == 200 * (k + 1))
  {
    RetryFromFacts(outcome, 0);
  }

  /** A first call that succeeds, or that throws anything but a transient DatabaseError, is the only call. */
  lemma NoRetryAfterFinalOutcome<T>(outcome: nat -> Result<T, AppError>)
    requires outcome(0).Ok? || !Retryable(outcome(0).error)
    ensures Retry(outcome).calls == 1 && Retry(outcome).delays == [] && Retry(outcome).result == outcome(0)
  {
  }

  /** Three transient failures in a row end the loop with the third one, after waits of 200 and 400 ms. */
  lemma ThreeTransientFailures<T>(outcome: nat -> Result<T, AppError>)
    requires forall k :: 0 <= k < MaxDbRetries ==> outcome(k).Err? && Retryable(outcome(k).error)
    ensures Retry(outcome).calls == 3 && Retry(outcome).delays == [200, 400] && Retry(outcome).result == outcome(2)
  {
    assert outcome(0).Err? && Retryable(outcome(0).error);
    assert outcome(1).Err? && Retryable(outcome(1).error);
  }

  /** `addSchool(schoolData)`, with `outcome(k)` standing for the k-th `schoolRepository.create(schoolData)`. */
  method AddSchool(outcome: nat -> Result<School, AppError>) returns (r: Result<School, AppError>, calls: nat, delays: seq<nat>)
    ensures r == Retry(outcome).result && calls == Retry(outcome).calls && delays == Retry(outcome).delays
  {
    var retries: nat := 0;
    calls, delays := 0, [];
    while retries < MaxDbRetries
      invariant retries < MaxDbRetries && calls == retries
      invariant Retry(outcome).result == RetryFrom(outcome, retries).result
      invariant Retry(outcome).calls == RetryFrom(outcome, retries).calls
      invariant Retry(outcome).delays == delays + RetryFrom(outcome, retries).delays
      decreases MaxDbRetries - retries
    {
      var res := outcome(retries);
      calls := calls + 1;
      if res.Ok? {
        RetryFromStops(outcome, retries);
        assert delays + [] == delays;
        return res, calls, delays;
      }
      if res.error.DatabaseError? && retries < MaxDbRetries - 1 && IsTransientError(res.error) {
        RetryFromContinues(outcome, retries);
        ghost var rest := RetryFrom(outcome, retries + 1).delays;
        retries := retries + 1;
        assert delays + ([200 * retries] + rest) == (delays + [200 * retries]) + rest;
        delays := delays + [200 * retries];
        continue;
      }
      RetryFromStops(outcome, retries);
      assert delays + [] == delays;
      return res, calls, delays;
    }
    assert false;
  }

  /* ----- Ranking by distance ----- */

  /** `{ ...school, distance }` */
  datatype Ranked = Ranked(school: School, distance: real)

  /** The object `listSchoolsByDistance` resolves to. */
  datatype RankedPage = RankedPage(schools: seq<Ranked>, pagination: PageInfo)

  /** `result.schools.map(...)`: each row with its corrected distance from the user. */
  function AttachDistances(rows: seq<School>, userLat: real, userLng: real,
                           dist: (real, real, real, real) -> real): (ranked: seq<Ranked>)
    ensures |ranked| == |rows|
    ensures forall i :: 0 <= i < |rows| ==>
              ranked[i].school == rows[i]
              && ranked[i].distance == CalculateShortestDistance(dist, userLat, userLng, rows[i].latitude, rows[i].longitude)
  {
    if rows == [] then []
    else AttachDistances(rows[..|rows| - 1], userLat, userLng, dist)
         + [Ranked(rows[|rows| - 1], CalculateShortestDistance(dist, userLat, userLng, rows[|rows| - 1].latitude,
                                                               rows[|rows| - 1].longitude))]
  }

  /** `s` inserted `x` after every element whose distance is at most its own. */
  function InsertByDistance(s: seq<Ranked>, x: Ranked): (r: seq<Ranked>)
    ensures |r| == |s| + 1
  {
    if s == [] || s[|s| - 1].distance <= x.distance then s + [x]
    else InsertByDistance(s[..|s| - 1], x) + [s[|s| - 1]]
  }

  /** The stable ascending order by distance: insertion sort over the prefix. */
  function SortByDistance(s: seq<Ranked>): (r: seq<Ranked>)
    ensures |r| == |s|
  {
    if s == [] then [] else InsertByDistance(SortByDistance(s[..|s| - 1]), s[|s| - 1])
  }

  predicate SortedByDistance(s: seq<Ranked>) {
    forall i, j :: 0 <= i < j < |s| ==> s[i].distance <= s[j].distance
  }

  /** The elements of `s` at distance `d`, in order. */
  function AtDistance(s: seq<Ranked>, d: real): (r: seq<Ranked>)
    ensures |r| <= |s|
  {
    if s == [] then []
    else AtDistance(s[..|s| - 1], d) + (if s[|s| - 1].distance == d then [s[|s| - 1]] else [])
  }

  lemma {:induction false} InsertPermutes(s: seq<Ranked>, x: Ranked)
    ensures multiset(InsertByDistance(s, x)) == multiset(s) + multiset{x}
  {
    if !(s == [] || s[|s| - 1].distance <= x.distance) {
      var init, last := s[..|s| - 1], s[|s| - 1];
      InsertPermutes(init, x);
      assert s == init + [last];
    }
  }

  lemma {:induction false} InsertSorted(s: seq<Ranked>, x: Ranked)
    requires SortedByDistance(s)
    ensures SortedByDistance(InsertByDistance(s, x))
  {
    if !(s == [] || s[|s| - 1].distance <= x.distance) {
      var init, last := s[..|s| - 1], s[|s| - 1];
      InsertSorted(init, x);
      InsertPermutes(init, x);
      var t := InsertByDistance(init, x);
      forall i | 0 <= i < |t| ensures t[i].distance <= last.distance {
        assert t[i] in multiset(init) + multiset{x};
        if t[i] in multiset(init) {
          var k :| 0 <= k < |init| && init[k] == t[i];
          assert s[k] == init[k];
        }
      }
    }
  }

  lemma AtDistanceAppend(s: seq<Ranked>, x: Ranked, d: real)
    ensures AtDistance(s + [x], d) == AtDistance(s, d) + AtDistance([x], d)
  {
    assert (s + [x])[..|s + [x]| - 1] == s;
    assert AtDistance([x], d) == [] + (if x.distance == d then [x] else []);
  }

  lemma {:induction false} InsertStable(s: seq<Ranked>, x: Ranked, d: real)
    ensures AtDistance(InsertByDistance(s, x), d) == AtDistance(s, d) + AtDistance([x], d)
  {
    if s == [] || s[|s| - 1].distance <= x.distance {
      AtDistanceAppend(s, x, d);
    } else {
      var init, last := s[..|s| - 1], s[|s| - 1];
      InsertStable(init, x, d);
      AtDistanceAppend(InsertByDistance(init, x), last, d);
      AtDistanceAppend(init, last, d);
      assert s == init + [last];
      assert x.distance == d ==> AtDistance([last], d) == [] by {
        assert AtDistance([last], d) == [] + (if last.distance == d then [last] else []);
      }
      assert x.distance != d ==> AtDistance([x], d) == [] by {
        assert AtDistance([x], d) == [] + (if x.distance == d then [x] else []);
      }
    }
  }

  /** The sort is ascending by distance, */
  lemma {:induction false} SortByDistanceSorted(s: seq<Ranked>)
    ensures SortedByDistance(SortByDistance(s))
  {
    if s != [] {
      SortByDistanceSorted(s[..|s| - 1]);
      InsertSorted(SortByDistance(s[..|s| - 1]), s[|s| - 1]);
    }
  }

  /** a permutation of its input, */
  lemma {:induction false} SortByDistancePermutes(s: seq<Ranked>)
    ensures multiset(SortByDistance(s)) == multiset(s)
  {
    if s != [] {
      var init, last := s[..|s| - 1], s[|s| - 1];
      SortByDistancePermutes(init);
      InsertPermutes(SortByDistance(init), last);
      assert s == init + [last];
      assert multiset(s) == multiset(init) + multiset{last};
    }
  }

  /** and stable: the rows at any one distance keep their relative order. */
  lemma {:induction false} SortByDistanceStable(s: seq<Ranked>, d: real)
    ensures AtDistance(SortByDistance(s), d) == AtDistance(s, d)
  {
    if s != [] {
      var init, last := s[..|s| - 1], s[|s| - 1];
      SortByDistanceStable(init, d);
      InsertStable(SortByDistance(init), last, d);
      assert AtDistance([last], d) == [] + (if last.distance == d then [last] else []);
      assert AtDistance(s, d) == AtDistance(init, d) + (if last.distance == d then [last] else []);
    }
  }

  /** The three together. */
  lemma SortByDistanceCorrect(s: seq<Ranked>, d: real)
    ensures SortedByDistance(SortByDistance(s))
    ensures multiset(SortByDistance(s)) == multiset(s)
    ensures AtDistance(SortByDistance(s), d) == AtDistance(s, d)
  {
    SortByDistanceSorted(s);
    SortByDistancePermutes(s);
    SortByDistanceStable(s, d);
  }

  /** `schools.sort((a, b) => a.distance - b.distance)`, in place: insertion sort. */
  method SortInPlace(a: array<Ranked>)
    modifies a
    ensures a[..] == SortByDistance(old(a[..]))
  {
    ghost var s0 := a[..];
    var i := 0;
    while i < a.Length
      invariant 0 <= i <= a.Length
      invariant a[..i] == SortByDistance(s0[..i])
      invariant a[i..] == s0[i..]
    {
      InsertInPlace(a, i);
      assert s0[..i + 1][..i] == s0[..i];
      i := i + 1;
    }
    assert a[..] == a[..a.Length] && s0 == s0[..a.Length];
  }

  /** Moves `a[i]` left past every element of the sorted prefix `a[..i]` with a greater distance. */
  method InsertInPlace(a: array<Ranked>, i: nat)
    requires i < a.Length
    modifies a
    ensures a[..i + 1] == InsertByDistance(old(a[..i]), old(a[i]))
    ensures a[i + 1..] == old(a[i + 1..])
  {
    ghost var sorted, rest := a[..i], a[i + 1..];
    var x := a[i];
    var j := i;
    assert sorted[..j] == sorted && sorted[j..] == [];
    while j > 0 && a[j - 1].distance > x.distance
      invariant 0 <= j <= i
      invariant Gap(a[..], sorted, x, j, rest)
    {
      ghost var cur := a[..];
      a[j] := a[j - 1];
      assert a[..] == cur[j := cur[j - 1]];
      GapShift(cur, sorted, x, j, rest);
      j := j - 1;
    }
    ghost var cur := a[..];
    a[j] := x;
    assert a[..] == cur[j := x];
    GapClose(cur, sorted, x, j, rest);
  }

  /**
   * The state of the inner loop: the sorted prefix with a gap at `j`, the elements after the
   * gap shifted one place right, and `x` still to be placed at the gap.
   */
  ghost predicate Gap(cur: seq<Ranked>, sorted: seq<Ranked>, x: Ranked, j: nat, rest: seq<Ranked>) {
    |cur| == |sorted| + 1 + |rest| && j <= |sorted|
    && cur[..j] == sorted[..j] && cur[j + 1..|sorted| + 1] == sorted[j..] && cur[|sorted| + 1..] == rest
    && InsertByDistance(sorted, x) == InsertByDistance(sorted[..j], x) + sorted[j..]
  }

  /** One step of the inner loop: the element before the gap moves past `x`. */
  lemma GapShift(cur: seq<Ranked>, sorted: seq<Ranked>, x: Ranked, j: nat, rest: seq<Ranked>)
    requires Gap(cur, sorted, x, j, rest) && 0 < j && cur[j - 1].distance > x.distance
    ensures Gap(cur[j := cur[j - 1]], sorted, x, j - 1, rest)
  {
    var next := cur[j := cur[j - 1]];
    assert cur[j - 1] == sorted[j - 1];
    assert sorted[..j][..j - 1] == sorted[..j - 1];
    assert sorted[j - 1..] == [sorted[j - 1]] + sorted[j..];
    assert next[..j - 1] == sorted[..j - 1];
    assert next[j..|sorted| + 1] == [sorted[j - 1]] + cur[j + 1..|sorted| + 1];
    assert next[|sorted| + 1..] == cur[|sorted| + 1..];
  }

  /** Where the inner loop stops, `x` goes into the gap: the prefix is `sorted` with `x` inserted. */
  lemma GapClose(cur: seq<Ranked>, sorted: seq<Ranked>, x: Ranked, j: nat, rest: seq<Ranked>)
    requires Gap(cur, sorted, x, j, rest) && (j == 0 || cur[j - 1].distance <= x.distance)
    ensures cur[j := x][..|sorted| + 1] == InsertByDistance(sorted, x)
    ensures cur[j := x][|sorted| + 1..] == rest
  {
    var next := cur[j := x];
    assert j > 0 ==> cur[j - 1] == sorted[..j][j - 1];
    assert InsertByDistance(sorted[..j], x) == sorted[..j] + [x];
    UpdatedPrefix(cur, j, x, |sorted| + 1);
    UpdatedSuffix(cur, j, x, |sorted| + 1);
  }

  /** The first `n` elements after writing `x` at `j < n`. */
  lemma UpdatedPrefix(c: seq<Ranked>, j: nat, x: Ranked, n: nat)
    requires j < n <= |c|
    ensures c[j := x][..n] == c[..j] + [x] + c[j + 1..n]
  {
    var u := c[j := x][..n];
    var v := c[..j] + [x] + c[j + 1..n];
    assert |u| == |v|;
    forall m | 0 <= m < n ensures u[m] == v[m] {
      if m < j { assert v[m] == c[m]; }
      else if m == j { assert v[m] == x; }
      else { assert v[m] == c[j + 1..n][m - j - 1]; }
    }
  }

  /** The elements from `n` on are untouched by a write at `j < n`. */
  lemma UpdatedSuffix(c: seq<Ranked>, j: nat, x: Ranked, n: nat)
    requires j < n <= |c|
    ensures c[j := x][n..] == c[n..]
  {
  }

  /** `result.schools.map(...)` then `schools.sort(...)`: the rows ranked by distance from the user. */
  method RankByDistance(rows: seq<School>, userLat: real, userLng: real, dist: (real, real, real, real) -> real)
    returns (schools: seq<Ranked>)
    ensures schools == SortByDistance(AttachDistances(rows, userLat, userLng, dist))
  {
    var ranked := AttachDistances(rows, userLat, userLng, dist);
    var a := new Ranked[|ranked|](k requires 0 <= k < |ranked| => ranked[k]);
    assert a[..] == ranked;
    SortInPlace(a);
    schools := a[..];
  }

  /**
   * `listSchoolsByDistance(latitude, longitude, page, limit)` for numeric coordinates, with
   * `fetch(k)` standing for the k-th `schoolRepository.findAllPaginated(page, limit)`.
   */
  method ListSchoolsByDistance(latitude: real, longitude: real, fetch: nat -> Result<SchoolPage, AppError>,
                               dist: (real, real, real, real) -> real)
    returns (r: Result<RankedPage, AppError>, calls: nat, delays: seq<nat>)
    ensures calls == Retry(fetch).calls && delays == Retry(fetch).delays
    ensures r.Err? <==> Retry(fetch).result.Err?
    ensures r.Err? ==> r.error == Retry(fetch).result.error
    ensures r.Ok? ==>
              var page := Retry(fetch).result.value;
              r.value.schools == SortByDistance(AttachDistances(page.schools, latitude, longitude, dist))
              && r.value.pagination == page.pagination
  {
    var userLat, userLng := latitude, longitude;
    var retries: nat := 0;
    var result: Option<SchoolPage> := None;
    calls, delays := 0, [];
    while retries < MaxDbRetries
      invariant retries < MaxDbRetries && calls == retries && result.None?
      invariant Retry(fetch).result == RetryFrom(fetch, retries).result
      invariant Retry(fetch).calls == RetryFrom(fetch, retries).calls
      invariant Retry(fetch).delays == delays + RetryFrom(fetch, retries).delays
      decreases MaxDbRetries - retries
    {
      var res := fetch(retries);
      calls := calls + 1;
      if res.Ok? {
        RetryFromStops(fetch, retries);
        assert delays + [] == delays;
        result := Some(res.value);
        break;
      }
      if res.error.DatabaseError? && retries < MaxDbRetries - 1 && IsTransientError(res.error) {
        RetryFromContinues(fetch, retries);
        ghost var rest := RetryFrom(fetch, retries + 1).delays;
        retries := retries + 1;
        assert delays + ([200 * retries] + rest) == (delays + [200 * retries]) + rest;
        delays := delays + [200 * retries];
        continue;
      }
      RetryFromStops(fetch, retries);
      assert delays + [] == delays;
      return Err(res.error), calls, delays;
    }
    // The loop is left only by `break` with a page or by throwing: `result` is defined here.
    assert result.Some? && result.value == Retry(fetch).result.value;
    var schools := RankByDistance(result.value.schools, userLat, userLng, dist);
    r := Ok(RankedPage(schools, result.value.pagination));
  }

  /**
   * The ranked page holds the fetched rows, each with its own fields and its distance, sorted
   * ascending by distance, rows at equal distance in the order the page listed them.
   */
  lemma RankedPageCorrect(rows: seq<School>, userLat: real, userLng: real,
                          dist: (real, real, real, real) -> real, d: real)
    ensures var ranked := AttachDistances(rows, userLat, userLng, dist);
            var sorted := SortByDistance(ranked);
            SortedByDistance(sorted)
            && multiset(sorted) == multiset(ranked)
            && AtDistance(sorted, d) == AtDistance(ranked, d)
            && (forall i :: 0 <= i < |sorted| ==> sorted[i].school in rows)
  {
    var ranked := AttachDistances(rows, userLat, userLng, dist);
    var sorted := SortByDistance(ranked);
    SortByDistanceCorrect(ranked, d);
    forall i | 0 <= i < |sorted| ensures sorted[i].school in rows {
      assert sorted[i] in multiset(ranked);
      var k :| 0 <= k < |ranked| && ranked[k] == sorted[i];
      assert ranked[k].school == rows[k];
    }
  }
}
