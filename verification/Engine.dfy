/** The time a certinspect run is given before it is killed. */
module Engine {
  import opened Common
  import opened Models

  const REVOCATION_FETCH_BUDGET: real := 3.0 * 60.0
  const FETCH_LIMIT: real := 60.0
  const PROCESS_SLACK: real := 30.0

  function Connect(t: Target): real {
    if t.connectTimeout.None? then t.timeout else t.connectTimeout.value
  }

  function Read(t: Target): real {
    if t.readTimeout.None? then t.timeout else t.readTimeout.value
  }

  function Handshakes(t: Target): nat {
    if t.verify then 2 else 1
  }

  method SubprocessTimeout(t: Target) returns (budget: real)
    ensures budget == Budget(t)
    ensures Sensible(t) ==> forall run :: Legitimate(t, run) ==> Duration(run) <= budget
    ensures Sensible(t) ==> exists run :: Legitimate(t, run) && Duration(run) == budget
  {
    BudgetIsLeast(t);
    if t.isFile {
      return t.timeout + PROCESS_SLACK;
    }
    budget := Handshakes(t) as real * (t.retries + 1) as real * (Connect(t) + Read(t));
    if t.verify {
      budget := budget + REVOCATION_FETCH_BUDGET;
    }
    budget := budget + PROCESS_SLACK;
  }

  function Budget(t: Target): real {
    if t.isFile then t.timeout + PROCESS_SLACK
    else
      Handshakes(t) as real * (t.retries + 1) as real * (Connect(t) + Read(t))
      + (if t.verify then REVOCATION_FETCH_BUDGET else 0.0) + PROCESS_SLACK
  }

  // ---- What a run can take ----

  /** One try at a handshake: how long it connected and how long it waited for the answer. */
  datatype Attempt = Attempt(connecting: real, reading: real)

  /**
   * A run: the attempts of each handshake, the revocation downloads, and everything else. For a
   * file, `overhead` is the only phase besides `reading` it.
   */
  datatype Run = HostRun(handshakes: seq<seq<Attempt>>, downloads: seq<real>, overhead: real)
               | FileRun(reading: real, overhead: real)

  function AttemptsTime(attempts: seq<Attempt>): real {
    if attempts == [] then 0.0
    else attempts[0].connecting + attempts[0].reading + AttemptsTime(attempts[1..])
  }

  function HandshakesTime(handshakes: seq<seq<Attempt>>): real {
    if handshakes == [] then 0.0 else AttemptsTime(handshakes[0]) + HandshakesTime(handshakes[1..])
  }

  function Sum(times: seq<real>): real {
    if times == [] then 0.0 else times[0] + Sum(times[1..])
  }

  function Duration(run: Run): real {
    match run
    case HostRun(handshakes, downloads, overhead) => HandshakesTime(handshakes) + Sum(downloads) + overhead
    case FileRun(reading, overhead) => reading + overhead
  }

  /** The runs certinspect can legitimately make for a target. */
  ghost predicate Legitimate(t: Target, run: Run) {
    match run
    case FileRun(reading, overhead) =>
      t.isFile && 0.0 <= reading <= t.timeout && 0.0 <= overhead <= 30.0
    case HostRun(handshakes, downloads, overhead) =>
      && !t.isFile
      && |handshakes| <= (if t.verify then 2 else 1)
      && (forall i :: 0 <= i < |handshakes| ==> LegitimateHandshake(t, handshakes[i]))
      && |downloads| <= (if t.verify then 3 else 0)
      && (forall i :: 0 <= i < |downloads| ==> 0.0 <= downloads[i] <= 60.0)
      && 0.0 <= overhead <= 30.0
  }

  /** Nothing takes longer than its own limit, or than the general one if it has none of its own. */
  ghost predicate Within(duration: real, own: Option<real>, general: real) {
    0.0 <= duration && match own case Some(limit) => duration <= limit case None => duration <= general
  }

  ghost predicate LegitimateHandshake(t: Target, attempts: seq<Attempt>) {
    && |attempts| <= t.retries + 1
    && forall i :: 0 <= i < |attempts| ==>
         && Within(attempts[i].connecting, t.connectTimeout, t.timeout)
         && Within(attempts[i].reading, t.readTimeout, t.timeout)
  }

  /** The configured times are not negative. */
  ghost predicate Sensible(t: Target) {
    && t.timeout >= 0.0 && t.retries >= 0
    && (t.connectTimeout.Some? ==> t.connectTimeout.value >= 0.0)
    && (t.readTimeout.Some? ==> t.readTimeout.value >= 0.0)
  }

  /** n terms of x. */
  function Repeated(n: nat, x: real): real {
    if n == 0 then 0.0 else x + Repeated(n - 1, x)
  }

  lemma {:induction false} RepeatedIsProduct(n: nat, x: real)
    ensures Repeated(n, x) == n as real * x
  {
    if n == 0 {
    } else {
      RepeatedIsProduct(n - 1, x);
      Distribute((n - 1) as real, x);
      assert (n - 1) as real + 1.0 == n as real;
    }
  }

  lemma Distribute(a: real, x: real)
    ensures (a + 1.0) * x == a * x + x
  {
  }

  lemma {:induction false} RepeatedMonotone(m: nat, n: nat, x: real)
    requires m <= n && x >= 0.0
    ensures 0.0 <= Repeated(m, x) <= Repeated(n, x)
  {
    if m == n {
      if n > 0 {
        RepeatedMonotone(n - 1, n - 1, x);
      }
    } else {
      RepeatedMonotone(m, n - 1, x);
    }
  }

  lemma {:induction false} RepeatedMonotoneTerm(n: nat, x: real, y: real)
    requires x <= y
    ensures Repeated(n, x) <= Repeated(n, y)
  {
    if n == 0 {
    } else {
      RepeatedMonotoneTerm(n - 1, x, y);
    }
  }

  lemma {:induction false} AttemptsBound(t: Target, attempts: seq<Attempt>)
    requires forall i :: 0 <= i < |attempts| ==>
               attempts[i].connecting <= Connect(t) && attempts[i].reading <= Read(t)
    ensures AttemptsTime(attempts) <= Repeated(|attempts|, Connect(t) + Read(t))
  {
    if attempts == [] {
    } else {
      AttemptsBound(t, attempts[1..]);
    }
  }

  lemma {:induction false} HandshakesBound(t: Target, handshakes: seq<seq<Attempt>>)
    requires Sensible(t) && forall i :: 0 <= i < |handshakes| ==> LegitimateHandshake(t, handshakes[i])
    ensures HandshakesTime(handshakes) <= Repeated(|handshakes|, Repeated(t.retries + 1, Connect(t) + Read(t)))
  {
    if handshakes == [] {
    } else {
      AttemptsBound(t, handshakes[0]);
      RepeatedMonotone(|handshakes[0]|, t.retries + 1, Connect(t) + Read(t));
      HandshakesBound(t, handshakes[1..]);
    }
  }

  lemma {:induction false} SumBound(times: seq<real>, limit: real)
    requires forall i :: 0 <= i < |times| ==> times[i] <= limit
    ensures Sum(times) <= Repeated(|times|, limit)
  {
    if times == [] {
    } else {
      SumBound(times[1..], limit);
    }
  }

  /** The budget as a sum of repeated terms. */
  lemma BudgetRepeated(t: Target)
    requires t.retries >= 0 && !t.isFile
    ensures Budget(t) == Repeated(Handshakes(t), Repeated(t.retries + 1, Connect(t) + Read(t)))
                         + (if t.verify then REVOCATION_FETCH_BUDGET else 0.0) + PROCESS_SLACK
  {
    var attempt := Connect(t) + Read(t);
    RepeatedIsProduct(t.retries + 1, attempt);
    RepeatedIsProduct(Handshakes(t), Repeated(t.retries + 1, attempt));
    Associate(Handshakes(t) as real, (t.retries + 1) as real, attempt);
  }

  lemma Associate(a: real, b: real, c: real)
    ensures a * (b * c) == a * b * c
  {
  }

  /** No legitimate run takes longer than its budget: a slow but healthy target is never cut short. */
  lemma BudgetSuffices(t: Target, run: Run)
    requires Sensible(t) && Legitimate(t, run)
    ensures Duration(run) <= Budget(t)
  {
    match run
    case FileRun(_, _) =>
    case HostRun(handshakes, downloads, overhead) =>
      var each := Repeated(t.retries + 1, Connect(t) + Read(t));
      HandshakesBound(t, handshakes);
      RepeatedMonotone(0, t.retries + 1, Connect(t) + Read(t));
      RepeatedMonotone(|handshakes|, Handshakes(t), each);
      SumBound(downloads, FETCH_LIMIT);
      RepeatedMonotone(|downloads|, if t.verify then 3 else 0, FETCH_LIMIT);
      assert Repeated(3, FETCH_LIMIT) == REVOCATION_FETCH_BUDGET by {
        RepeatedIsProduct(3, FETCH_LIMIT);
      }
      BudgetRepeated(t);
  }

  function WorstHandshake(t: Target, n: nat): seq<Attempt> {
    if n == 0 then [] else [Attempt(Connect(t), Read(t))] + WorstHandshake(t, n - 1)
  }

  function WorstRun(t: Target): Run {
    if t.isFile then FileRun(t.timeout, PROCESS_SLACK)
    else
      var handshake := WorstHandshake(t, if t.retries < 0 then 0 else t.retries + 1);
      HostRun(if t.verify then [handshake, handshake] else [handshake],
              if t.verify then [FETCH_LIMIT, FETCH_LIMIT, FETCH_LIMIT] else [], PROCESS_SLACK)
  }

  lemma {:induction false} WorstHandshakeTime(t: Target, n: nat)
    requires Sensible(t)
    ensures AttemptsTime(WorstHandshake(t, n)) == Repeated(n, Connect(t) + Read(t))
    ensures |WorstHandshake(t, n)| == n
    ensures forall i :: 0 <= i < n ==> WorstHandshake(t, n)[i] == Attempt(Connect(t), Read(t))
  {
    if n == 0 {
    } else {
      WorstHandshakeTime(t, n - 1);
      assert WorstHandshake(t, n)[1..] == WorstHandshake(t, n - 1);
    }
  }

  /** The budget is tight: some legitimate run needs all of it. */
  lemma BudgetAttained(t: Target)
    requires Sensible(t)
    ensures Legitimate(t, WorstRun(t)) && Duration(WorstRun(t)) == Budget(t)
  {
    if !t.isFile {
      var handshake := WorstHandshake(t, t.retries + 1);
      WorstHandshakeTime(t, t.retries + 1);
      BudgetRepeated(t);
      assert LegitimateHandshake(t, handshake);
      HandshakesTimeOf(handshake);
      RepeatedTwice(AttemptsTime(handshake));
      SumOf(FETCH_LIMIT);
    }
  }

  /** So the budget is the least time that no legitimate run exceeds. */
  lemma BudgetIsLeast(t: Target)
    ensures Sensible(t) ==> forall run :: Legitimate(t, run) ==> Duration(run) <= Budget(t)
    ensures Sensible(t) ==> exists run :: Legitimate(t, run) && Duration(run) == Budget(t)
  {
    if Sensible(t) {
      BudgetAttained(t);
      forall run | Legitimate(t, run) ensures Duration(run) <= Budget(t) {
        BudgetSuffices(t, run);
      }
    }
  }

  lemma RepeatedTwice(x: real)
    ensures Repeated(1, x) == x && Repeated(2, x) == x + x
  {
    assert Repeated(1, x) == x + Repeated(0, x);
    assert Repeated(2, x) == x + Repeated(1, x);
  }

  lemma HandshakesTimeOf(h: seq<Attempt>)
    ensures HandshakesTime([h]) == AttemptsTime(h)
    ensures HandshakesTime([h, h]) == AttemptsTime(h) + AttemptsTime(h)
  {
    hide AttemptsTime;
    assert [h][1..] == [];
    assert [h, h][1..] == [h];
  }

  lemma SumOf(x: real)
    ensures Sum([]) == 0.0 && Sum([x, x, x]) == x + x + x
  {
    assert [x][1..] == [];
    assert Sum([x]) == x;
    assert [x, x][1..] == [x];
    assert Sum([x, x]) == x + x;
    assert [x, x, x][1..] == [x, x];
  }

  /** The second pair of limits allows all that the first does. */
  ghost predicate NoShorter(own: Option<real>, general: real, own': Option<real>, general': real) {
    forall duration :: Within(duration, own, general) ==> Within(duration, own', general')
  }

  lemma LimitGrows(own: Option<real>, general: real, own': Option<real>, general': real)
    requires NoShorter(own, general, own', general')
    requires general >= 0.0 && (own.Some? ==> own.value >= 0.0)
    ensures (if own.None? then general else own.value) <= if own'.None? then general' else own'.value
  {
    assert Within(if own.None? then general else own.value, own, general);
  }

  /** More retries or longer timeouts never shrink the budget. */
  lemma BudgetMonotone(t: Target, u: Target)
    requires Sensible(t) && t.isFile == u.isFile && t.verify == u.verify
    requires t.retries <= u.retries && t.timeout <= u.timeout
    requires NoShorter(t.connectTimeout, t.timeout, u.connectTimeout, u.timeout)
    requires NoShorter(t.readTimeout, t.timeout, u.readTimeout, u.timeout)
    ensures Budget(t) <= Budget(u)
  {
    if !t.isFile {
      LimitGrows(t.connectTimeout, t.timeout, u.connectTimeout, u.timeout);
      LimitGrows(t.readTimeout, t.timeout, u.readTimeout, u.timeout);
      BudgetRepeated(t);
      BudgetRepeated(u);
      RepeatedMonotone(t.retries + 1, u.retries + 1, Connect(t) + Read(t));
      RepeatedMonotoneTerm(u.retries + 1, Connect(t) + Read(t), Connect(u) + Read(u));
      RepeatedMonotoneTerm(Handshakes(t), Repeated(t.retries + 1, Connect(t) + Read(t)),
                           Repeated(u.retries + 1, Connect(u) + Read(u)));
    }
  }
}
