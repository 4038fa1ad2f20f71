/** The rate limiter over time: how many sends can pass it in any interval. */
module IpcQuota {
  import opened IpcRing

  /** A send attempt: when it reads the clock, and the limit in force by then. */
  datatype Attempt = Attempt(now: nat, limit: nat)

  /** Attempts in the order they were made never go back in time. */
  predicate Sorted(tries: seq<Attempt>) {
    forall i, j :: 0 <= i < j < |tries| ==> tries[i].now <= tries[j].now
  }

  /** No attempt is made under a limit above `most`. */
  predicate LimitedTo(tries: seq<Attempt>, most: nat) {
    forall i :: 0 <= i < |tries| ==> tries[i].limit <= most
  }

  function AdmitTry(q: Quota, t: Attempt): Admission {
    Admit(q.(limit := t.limit), t.now)
  }

  /** How many of the attempts that lie in `[a, b]` pass the limiter. */
  function Passed(q: Quota, tries: seq<Attempt>, a: nat, b: nat): nat
    decreases |tries|
  {
    if tries == [] then 0
    else
      var r := AdmitTry(q, tries[0]);
      (if r.passed && a <= tries[0].now <= b then 1 else 0) + Passed(r.quota, tries[1..], a, b)
  }

  /** How many windows can still open at or before `b` when the next may open at `reset`. */
  function Windows(reset: nat, b: nat): nat {
    if reset > b then 0 else (b - reset) / WINDOW + 1
  }

  lemma {:induction false} NoneAfter(q: Quota, tries: seq<Attempt>, a: nat, b: nat)
    requires Sorted(tries) && (tries != [] ==> tries[0].now > b)
    ensures Passed(q, tries, a, b) == 0
    decreases |tries|
  {
    if tries != [] {
      NoneAfter(AdmitTry(q, tries[0]).quota, tries[1..], a, b);
    }
  }

  lemma Times(limit: nat, n: nat, m: nat)
    requires n + 1 <= m
    ensures limit + limit * n <= limit * m
  {
    Distribute(limit, n + 1, m - n - 1);
    Distribute(limit, n, 1);
  }

  lemma Distribute(l: nat, n: nat, m: nat)
    ensures l * (n + m) == l * n + l * m && l * n >= 0 && l * m >= 0
  {
  }

  /** What is left of the current window plus a full quota for every window to come. */
  lemma {:induction false} PassedBound(q: Quota, tries: seq<Attempt>, most: nat, a: nat, b: nat)
    requires Sorted(tries) && LimitedTo(tries, most)
    ensures Passed(q, tries, a, b) <= q.remaining + most * Windows(q.reset, b)
    decreases |tries|
  {
    if tries == [] {
    } else if tries[0].now > b {
      NoneAfter(q, tries, a, b);
    } else {
      var t, r := tries[0].now, AdmitTry(q, tries[0]);
      PassedBound(r.quota, tries[1..], most, a, b);
      if t >= q.reset {
        Times(most, Windows(t + WINDOW, b), Windows(q.reset, b));
      }
    }
  }

  /** An attempt that opens a window leaves a full quota for it and each window to come. */
  lemma OpenedBound(q: Quota, tries: seq<Attempt>, most: nat, a: nat, b: nat, w: nat)
    requires Sorted(tries) && LimitedTo(tries, most) && tries != [] && q.reset <= tries[0].now <= b
    requires w == Windows(tries[0].now + WINDOW, b)
    ensures Passed(q, tries, a, b) <= most + most * w
  {
    var r := AdmitTry(q, tries[0]);
    assert r.quota.reset == tries[0].now + WINDOW;
    PassedBound(r.quota, tries[1..], most, a, b);
  }

  /** When the next attempt at or after `a` opens a window of its own. */
  lemma FreshWindowBound(q: Quota, tries: seq<Attempt>, most: nat, a: nat, b: nat, n: nat)
    requires Sorted(tries) && LimitedTo(tries, most) && a <= b && q.reset <= a && (tries != [] ==> a <= tries[0].now)
    requires n == (b - a) / WINDOW + 1
    ensures Passed(q, tries, a, b) <= most * n
  {
    if tries == [] {
    } else if tries[0].now > b {
      NoneAfter(q, tries, a, b);
    } else {
      var w := Windows(tries[0].now + WINDOW, b);
      OpenedBound(q, tries, most, a, b, w);
      LaterWindows(tries[0].now, a, b);
      Times(most, w, n);
    }
  }

  lemma LaterWindows(t: nat, a: nat, b: nat)
    requires a <= t <= b
    ensures Windows(t + WINDOW, b) <= (b - a) / WINDOW
  {
  }

  function CeilWindows(t: nat): nat {
    (t + WINDOW - 1) / WINDOW
  }

  /** The most sends that can pass in an interval of length `t`. */
  function Most(limit: nat, t: nat): int {
    if limit == 0 then 0
    else if t % 1000 == 0 then limit * (t / 1000 + 1)
    else limit * (t / 1000 + 2) - 1
  }

  /** The quota is what is left of a window of a limit up to `most`. */
  predicate Within(q: Quota, most: nat) {
    q.remaining < most || (most == 0 && q.remaining == 0)
  }

  lemma {:induction false} NoneOfZero(q: Quota, tries: seq<Attempt>, a: nat, b: nat)
    requires LimitedTo(tries, 0) && q.remaining == 0
    ensures Passed(q, tries, a, b) == 0
    decreases |tries|
  {
    if tries != [] {
      NoneOfZero(AdmitTry(q, tries[0]).quota, tries[1..], a, b);
    }
  }

  /** Whatever limits up to `most` are set on the way: once a window of such a limit has been
      entered (so the first, larger quota is gone), no interval of length `t` lets more than
      `Most` sends pass, wherever it starts and however the attempts fall. */
  lemma {:induction false} PassedAtMost(q: Quota, tries: seq<Attempt>, most: nat, a: nat, t: nat)
    requires Sorted(tries) && LimitedTo(tries, most) && Within(q, most)
    ensures Passed(q, tries, a, a + t) <= Most(most, t)
    decreases |tries|
  {
    if most == 0 {
      NoneOfZero(q, tries, a, a + t);
    } else if tries == [] {
      Scale(most, 1, t / WINDOW + 2);
    } else if tries[0].now < a {
      PassedAtMost(AdmitTry(q, tries[0]).quota, tries[1..], most, a, t);
    } else if q.reset <= a {
      FreshWindowBound(q, tries, most, a, a + t, t / WINDOW + 1);
      Distribute(most, t / WINDOW + 1, 1);
    } else {
      PassedBound(q, tries, most, a, a + t);
      Scale(most, Windows(q.reset, a + t), CeilWindows(t));
      Distribute(most, CeilWindows(t), 1);
    }
  }

  /** From any quota left over, such as the first one of a new channel, the bound holds for
      every interval that starts once the window it belongs to is over. */
  lemma {:induction false} PassedAfterFirstWindow(q: Quota, tries: seq<Attempt>, most: nat, a: nat, t: nat)
    requires Sorted(tries) && LimitedTo(tries, most) && q.reset <= a
    ensures Passed(q, tries, a, a + t) <= Most(most, t)
    decreases |tries|
  {
    if tries == [] || tries[0].now >= a {
      FreshWindowBound(q, tries, most, a, a + t, t / WINDOW + 1);
      Distribute(most, t / WINDOW + 1, 1);
    } else {
      var q' := AdmitTry(q, tries[0]).quota;
      if tries[0].now >= q.reset {
        PassedAtMost(q', tries[1..], most, a, t);
      } else {
        PassedAfterFirstWindow(q', tries[1..], most, a, t);
      }
    }
  }

  /** The same bound in round figures: one quota per started second, and one more. */
  lemma PassedPerSecond(q: Quota, tries: seq<Attempt>, most: nat, a: nat, t: nat)
    requires Sorted(tries) && LimitedTo(tries, most) && q.reset <= a
    ensures Passed(q, tries, a, a + t) <= most * ((t + 999) / 1000 + 1)
  {
    PassedAfterFirstWindow(q, tries, most, a, t);
    MostRounded(most, t);
  }

  lemma MostRounded(limit: nat, t: nat)
    ensures Most(limit, t) <= limit * (CeilWindows(t) + 1)
  {
    assert CeilWindows(t) == if t % WINDOW == 0 then t / WINDOW else t / WINDOW + 1;
  }

  lemma Scale(l: nat, n: nat, m: nat)
    requires n <= m
    ensures l * n <= l * m
  {
    Distribute(l, n, m - n);
  }

  // ---------------------------------------------------------------- attempts in a run

  /** The sends that a run actually starts, each with the limit in force. */
  function Attempts(w: World, steps: seq<Step>): seq<Attempt>
    decreases |steps|
  {
    if steps == [] then []
    else
      var rest := Attempts(Next(w, steps[0]), steps[1..]);
      if steps[0].Send? && w.p.PIdle? then [Attempt(steps[0].now, w.ch.quota.limit)] + rest else rest
  }

  /** How many sends started in `[a, b]` get past the limiter in a run. */
  function Admitted(w: World, steps: seq<Step>, a: nat, b: nat): nat
    decreases |steps|
  {
    if steps == [] then 0
    else
      var w' := Next(w, steps[0]);
      (if steps[0].Send? && w.p.PIdle? && w'.p.PReadTail? && a <= steps[0].now <= b then 1 else 0)
      + Admitted(w', steps[1..], a, b)
  }

  /** The limit in the quota matters only to the next attempt, which brings its own. */
  lemma PassedAnyLimit(q: Quota, limit: nat, tries: seq<Attempt>, a: nat, b: nat)
    ensures Passed(q.(limit := limit), tries, a, b) == Passed(q, tries, a, b)
  {
    if tries != [] {
      assert AdmitTry(q.(limit := limit), tries[0]) == AdmitTry(q, tries[0]);
    }
  }

  /** A run admits exactly the sends the limiter passes, whatever limits it sets. */
  lemma {:induction false} AdmittedIsPassed(w: World, steps: seq<Step>, a: nat, b: nat)
    ensures Admitted(w, steps, a, b) == Passed(w.ch.quota, Attempts(w, steps), a, b)
    decreases |steps|
  {
    if steps != [] {
      var w' := Next(w, steps[0]);
      var rest := Attempts(w', steps[1..]);
      AdmittedIsPassed(w', steps[1..], a, b);
      if steps[0].Send? && w.p.PIdle? {
        var t := Attempt(steps[0].now, w.ch.quota.limit);
        assert ([t] + rest)[1..] == rest;
        assert w.ch.quota.(limit := t.limit) == w.ch.quota;
      } else {
        PassedAnyLimit(w.ch.quota, w'.ch.quota.limit, rest, a, b);
      }
    }
  }

  /** The clock that the sends of a run read never goes back. */
  predicate Clocked(steps: seq<Step>) {
    forall i, j :: 0 <= i < j < |steps| && steps[i].Send? && steps[j].Send? ==> steps[i].now <= steps[j].now
  }

  lemma {:induction false} AttemptsAbove(w: World, steps: seq<Step>, t: nat)
    requires forall i :: 0 <= i < |steps| && steps[i].Send? ==> t <= steps[i].now
    ensures forall i :: 0 <= i < |Attempts(w, steps)| ==> t <= Attempts(w, steps)[i].now
    decreases |steps|
  {
    if steps != [] {
      AttemptsAbove(Next(w, steps[0]), steps[1..], t);
    }
  }

  lemma {:induction false} AttemptsSorted(w: World, steps: seq<Step>)
    requires Clocked(steps)
    ensures Sorted(Attempts(w, steps))
    decreases |steps|
  {
    if steps != [] {
      AttemptsSorted(Next(w, steps[0]), steps[1..]);
      if steps[0].Send? {
        AttemptsAbove(Next(w, steps[0]), steps[1..], steps[0].now);
      }
    }
  }

  /** The run sets no limit above `most`. */
  predicate SetsAtMost(steps: seq<Step>, most: nat) {
    forall i :: 0 <= i < |steps| && steps[i].SetLimit? ==> steps[i].limit <= most
  }

  lemma {:induction false} AttemptsLimited(w: World, steps: seq<Step>, most: nat)
    requires w.ch.quota.limit <= most && SetsAtMost(steps, most)
    ensures LimitedTo(Attempts(w, steps), most)
    decreases |steps|
  {
    if steps != [] {
      assert steps[0].SetLimit? ==> steps[0].limit <= most;
      AttemptsLimited(Next(w, steps[0]), steps[1..], most);
    }
  }

  /** Over every run of a channel under limits up to `most`, set at any time, in any
      interleaving with the receiver: no interval that starts after the current window admits
      more than `Most` sends. */
  lemma AdmittedAtMost(w: World, steps: seq<Step>, most: nat, a: nat, t: nat)
    requires Clocked(steps) && w.ch.quota.reset <= a && w.ch.quota.limit <= most && SetsAtMost(steps, most)
    ensures Admitted(w, steps, a, a + t) <= Most(most, t) <= most * ((t + 999) / 1000 + 1)
  {
    AdmittedIsPassed(w, steps, a, a + t);
    AttemptsSorted(w, steps);
    AttemptsLimited(w, steps, most);
    PassedAfterFirstWindow(w.ch.quota, Attempts(w, steps), most, a, t);
    MostRounded(most, t);
  }

  /** For a channel created at time `now` whose limit is never raised: from one second later
      on, at most 1000 sends per started second and 1000 more. */
  lemma CreatedAdmitsAtMost(nodes: Nodes, now: nat, steps: seq<Step>, a: nat, t: nat)
    requires Clocked(steps) && now + 1000 <= a && SetsAtMost(steps, 1000)
    ensures Admitted(Created(nodes, now), steps, a, a + t) <= 1000 * ((t + 999) / 1000 + 1)
  {
    AdmittedAtMost(Created(nodes, now), steps, 1000, a, t);
  }

  // ---------------------------------------------------------------- single windows

  function Min(a: nat, b: nat): nat {
    if a < b then a else b
  }

  /** While the window lasts, attempts pass until what is left of its quota is used up,
      whatever limits are set meanwhile. */
  lemma {:induction false} WindowPasses(q: Quota, tries: seq<Attempt>, a: nat, b: nat)
    requires forall i :: 0 <= i < |tries| ==> a <= tries[i].now <= b && tries[i].now < q.reset
    ensures Passed(q, tries, a, b) == Min(|tries|, q.remaining)
    decreases |tries|
  {
    if tries != [] {
      WindowPasses(AdmitTry(q, tries[0]).quota, tries[1..], a, b);
    }
  }

  /** The attempt that opens a window brings the limit in force; within the next second exactly
      that many pass. */
  lemma OpenedPasses(q: Quota, tries: seq<Attempt>, a: nat, b: nat)
    requires tries != [] && q.reset <= tries[0].now
    requires forall i :: 0 <= i < |tries| ==> a <= tries[i].now <= b && tries[i].now < tries[0].now + 1000
    ensures Passed(q, tries, a, b) == Min(|tries|, tries[0].limit)
  {
    WindowPasses(AdmitTry(q, tries[0]).quota, tries[1..], a, b);
  }

  predicate SendsIn(steps: seq<Step>, a: nat, b: nat) {
    forall i :: 0 <= i < |steps| && steps[i].Send? ==> a <= steps[i].now <= b
  }

  lemma {:induction false} AttemptsIn(w: World, steps: seq<Step>, a: nat, b: nat)
    requires SendsIn(steps, a, b)
    ensures forall i :: 0 <= i < |Attempts(w, steps)| ==> a <= Attempts(w, steps)[i].now <= b
    decreases |steps|
  {
    if steps != [] {
      assert steps[0].Send? ==> a <= steps[0].now <= b;
      AttemptsIn(Next(w, steps[0]), steps[1..], a, b);
    }
  }

  /** Of the sends that a new channel sees in its first second, the first 10000 pass, whatever
      limits are set meanwhile. */
  lemma FirstSecond(nodes: Nodes, now: nat, steps: seq<Step>)
    requires SendsIn(steps, now, now + 999)
    ensures var w := Created(nodes, now);
      Admitted(w, steps, now, now + 999) == Min(|Attempts(w, steps)|, 10000)
  {
    var w := Created(nodes, now);
    AttemptsIn(w, steps, now, now + 999);
    AdmittedIsPassed(w, steps, now, now + 999);
    WindowPasses(w.ch.quota, Attempts(w, steps), now, now + 999);
  }

  /** After `ipc_set_rate_limit` the current window goes on as it was, and the next one admits
      exactly the new limit. */
  lemma LimitTakesEffect(w: World, limit: nat, steps: seq<Step>, a: nat)
    requires SendsIn(steps, a, a + 999) && forall i :: 0 <= i < |steps| ==> !steps[i].SetLimit?
    ensures var w' := Next(w, SetLimit(limit));
      var n := |Attempts(w', steps)|;
      && (a + 999 < w.ch.quota.reset ==> Admitted(w', steps, a, a + 999) == Min(n, w.ch.quota.remaining))
      && (w.ch.quota.reset <= a && n > 0 && Attempts(w', steps)[0].now == a ==>
            Admitted(w', steps, a, a + 999) == Min(n, limit))
  {
    var w' := Next(w, SetLimit(limit));
    var tries := Attempts(w', steps);
    AttemptsIn(w', steps, a, a + 999);
    AdmittedIsPassed(w', steps, a, a + 999);
    AttemptsOf(w', steps);
    if a + 999 < w.ch.quota.reset {
      WindowPasses(w'.ch.quota, tries, a, a + 999);
    }
    if w.ch.quota.reset <= a && tries != [] && tries[0].now == a {
      OpenedPasses(w'.ch.quota, tries, a, a + 999);
    }
  }

  lemma {:induction false} AttemptsOf(w: World, steps: seq<Step>)
    requires forall i :: 0 <= i < |steps| ==> !steps[i].SetLimit?
    ensures forall i :: 0 <= i < |Attempts(w, steps)| ==> Attempts(w, steps)[i].limit == w.ch.quota.limit
    decreases |steps|
  {
    if steps != [] {
      AttemptsOf(Next(w, steps[0]), steps[1..]);
    }
  }

  /** A new channel's limit is 1000: its first window after the first second admits that many. */
  lemma SecondWindow(nodes: Nodes, now: nat, steps: seq<Step>, a: nat)
    requires now + 1000 <= a && SendsIn(steps, a, a + 999) && forall i :: 0 <= i < |steps| ==> !steps[i].SetLimit?
    requires var tries := Attempts(Created(nodes, now), steps); tries != [] && tries[0].now == a
    ensures var w := Created(nodes, now); Admitted(w, steps, a, a + 999) == Min(|Attempts(w, steps)|, 1000)
  {
    var w := Created(nodes, now);
    assert Next(w, SetLimit(1000)) == w;
    LimitTakesEffect(w, 1000, steps, a);
  }

  // ---------------------------------------------------------------- the bound is attained

  function Burst(t: nat, limit: nat, n: nat): seq<Attempt> {
    seq(n, _ => Attempt(t, limit))
  }

  /** `n` full bursts, one at each opening of a window from `t` on. */
  function FullWindows(t: nat, limit: nat, n: nat): seq<Attempt>
    decreases n
  {
    if n == 0 then [] else Burst(t, limit, limit) + FullWindows(t + WINDOW, limit, n - 1)
  }

  lemma {:induction false} BurstPasses(q: Quota, t: nat, limit: nat, n: nat, rest: seq<Attempt>, a: nat, b: nat)
    requires a <= t <= b && t < q.reset && n <= q.remaining
    ensures Passed(q, Burst(t, limit, n) + rest, a, b) == n + Passed(q.(remaining := q.remaining - n), rest, a, b)
    decreases n
  {
    if n == 0 {
      assert Burst(t, limit, 0) + rest == rest;
    } else {
      assert (Burst(t, limit, n) + rest)[1..] == Burst(t, limit, n - 1) + rest;
      var q' := AdmitTry(q, Attempt(t, limit)).quota;
      BurstPasses(q', t, limit, n - 1, rest, a, b);
      PassedAnyLimit(q.(remaining := q.remaining - n), limit, rest, a, b);
    }
  }

  lemma {:induction false} WindowsPass(limit: nat, t: nat, n: nat, a: nat, b: nat)
    requires limit > 0 && a <= t && (n > 0 ==> t + WINDOW * (n - 1) <= b)
    ensures Passed(Quota(limit, 0, t), FullWindows(t, limit, n), a, b) == limit * n
    decreases n
  {
    if n > 0 {
      var rest := FullWindows(t + WINDOW, limit, n - 1);
      var q := AdmitTry(Quota(limit, 0, t), Attempt(t, limit)).quota;
      assert (Burst(t, limit, limit) + rest)[1..] == Burst(t, limit, limit - 1) + rest;
      BurstPasses(q, t, limit, limit - 1, rest, a, b);
      WindowsPass(limit, t + WINDOW, n - 1, a, b);
      Distribute(limit, 1, n - 1);
    }
  }

  /** For every limit, interval length and start at least one window in, some state and
      some attempts let exactly `Most` sends pass. */
  lemma MostIsAttained(limit: nat, a: nat, t: nat) returns (q: Quota, tries: seq<Attempt>)
    ensures Within(q, limit) && Sorted(tries) && LimitedTo(tries, limit)
    ensures Passed(q, tries, a, a + t) == Most(limit, t)
  {
    var n, r := t / WINDOW + 1, t % WINDOW;
    if limit == 0 {
      q, tries := Quota(0, 0, a), [];
    } else if r == 0 {
      q, tries := Quota(limit, 0, a), FullWindows(a, limit, n);
      WindowsSorted(a, limit, n);
      WindowsPass(limit, a, n, a, a + t);
    } else {
      q, tries := PartWindow(limit, a, t, n, r);
      Distribute(limit, n, 1);
    }
  }

  /** The rest of an open window, then full ones. */
  lemma PartWindow(limit: nat, a: nat, t: nat, n: nat, r: nat) returns (q: Quota, tries: seq<Attempt>)
    requires limit > 0 && n == t / WINDOW + 1 && r == t % WINDOW
    ensures Within(q, limit) && Sorted(tries) && LimitedTo(tries, limit)
    ensures r > 0 ==> Passed(q, tries, a, a + t) == limit - 1 + limit * n
  {
    var rest := FullWindows(a + r, limit, n);
    q, tries := Quota(limit, limit - 1, a + r), Burst(a, limit, limit - 1) + rest;
    WindowsSorted(a + r, limit, n);
    SortedConcat(Burst(a, limit, limit - 1), rest, a);
    if r > 0 {
      PartPasses(limit, a, a + r, a + t, n, rest);
    }
  }

  lemma PartPasses(limit: nat, a: nat, c: nat, b: nat, n: nat, rest: seq<Attempt>)
    requires limit > 0 && a < c && a <= b && n > 0 && c + WINDOW * (n - 1) <= b && rest == FullWindows(c, limit, n)
    ensures Passed(Quota(limit, limit - 1, c), Burst(a, limit, limit - 1) + rest, a, b) == limit - 1 + limit * n
  {
    BurstPasses(Quota(limit, limit - 1, c), a, limit, limit - 1, rest, a, b);
    WindowsPass(limit, c, n, a, b);
  }

  lemma SortedConcat(x: seq<Attempt>, y: seq<Attempt>, t: nat)
    requires Sorted(x) && Sorted(y)
    requires (forall i :: 0 <= i < |x| ==> x[i].now <= t) && (forall j :: 0 <= j < |y| ==> t <= y[j].now)
    ensures Sorted(x + y)
  {
  }

  lemma {:induction false} WindowsSorted(t: nat, limit: nat, n: nat)
    ensures Sorted(FullWindows(t, limit, n)) && LimitedTo(FullWindows(t, limit, n), limit)
    ensures forall i :: 0 <= i < |FullWindows(t, limit, n)| ==> t <= FullWindows(t, limit, n)[i].now
    decreases n
  {
    if n > 0 {
      WindowsSorted(t + WINDOW, limit, n - 1);
      SortedConcat(Burst(t, limit, limit), FullWindows(t + WINDOW, limit, n - 1), t);
    }
  }
}
