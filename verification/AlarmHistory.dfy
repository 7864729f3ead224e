/** What an alarm with hysteresis means for a history of samples, without any engine state: the engine
    is proved to show exactly this. */
module AlarmHistory {
  import opened Basics

  datatype Severity = Warning | Critical

  /** What one evaluation says of a metric. */
  datatype Sample = Level(severity: Severity) | Clear | Neutral

  /** A sample and the time stamp of the measurement it was taken from, if that is known. */
  datatype Observed = Observed(sample: Sample, token: Option<int>)

  /** The last known measurement. */
  function LastToken(seen: seq<Observed>): Option<int> {
    if seen == [] then None
    else if seen[|seen| - 1].token.Some? then seen[|seen| - 1].token
    else LastToken(seen[..|seen| - 1])
  }

  /** The samples of distinct measurements: a repeated one says nothing new. */
  function Distinct(seen: seq<Observed>): seq<Sample> {
    if seen == [] then []
    else
      var front, last := seen[..|seen| - 1], seen[|seen| - 1];
      if last.token.Some? && last.token == LastToken(front) then Distinct(front) else Distinct(front) + [last.sample]
  }

  /** How many of the latest samples are `s`. */
  function Run(h: seq<Sample>, s: Sample): nat {
    if h == [] || h[|h| - 1] != s then 0 else Run(h[..|h| - 1], s) + 1
  }

  /** The severity of the open incident after a history: it opens at a level, or escalates, on `n`
      consecutive samples of that level and closes on `r` consecutive clear ones. */
  function Alarm(h: seq<Sample>, n: nat, r: nat): Option<Severity> {
    if h == [] then None
    else
      var before := Alarm(h[..|h| - 1], n, r);
      match h[|h| - 1]
      case Level(severity) =>
        if Run(h, h[|h| - 1]) < n || before == Some(Critical) then before else Some(severity)
      case Clear => if Run(h, Clear) < r then before else None
      case Neutral => before
  }

  /** The `n` samples before position `j` are all `s`. */
  predicate Window(h: seq<Sample>, j: nat, n: nat, s: Sample) {
    n <= j <= |h| && forall i :: j - n <= i < j ==> h[i] == s
  }

  lemma {:induction false} RunIsWindow(h: seq<Sample>, s: Sample, k: nat)
    ensures Run(h, s) >= k <==> Window(h, |h|, k, s)
    decreases |h|
  {
    if h != [] && h[|h| - 1] == s && k > 0 {
      var front := h[..|h| - 1];
      RunIsWindow(front, s, k - 1);
      assert forall i :: 0 <= i < |front| ==> front[i] == h[i];
    } else if k > 0 && h != [] {
      assert !Window(h, |h|, k, s);
    }
  }

  /** A level was reached at position `j` and no closing run of clear samples came after it. */
  predicate HeldSince(h: seq<Sample>, n: nat, r: nat, j: nat, s: Sample) {
    && Window(h, j, n, s)
    && forall k :: j < k <= |h| ==> !Window(h, k, r, Clear)
  }

  predicate Held(h: seq<Sample>, n: nat, r: nat, severity: Severity) {
    exists j :: 0 <= j <= |h| && HeldSince(h, n, r, j, Level(severity))
  }

  lemma WindowFront(h: seq<Sample>, j: nat, n: nat, s: Sample)
    requires h != [] && j < |h|
    ensures Window(h, j, n, s) <==> Window(h[..|h| - 1], j, n, s)
  {
    var front := h[..|h| - 1];
    assert forall i :: 0 <= i < |front| ==> front[i] == h[i];
  }

  /** One more sample keeps a held level unless it completes a closing run, and adds one when it completes
      a run of that level. */
  lemma HeldStep(h: seq<Sample>, n: nat, r: nat, severity: Severity)
    requires h != [] && n > 0 && r > 0
    ensures Held(h, n, r, severity) <==>
              (Held(h[..|h| - 1], n, r, severity) && !Window(h, |h|, r, Clear)) || Window(h, |h|, n, Level(severity))
  {
    var front, s := h[..|h| - 1], Level(severity);
    if Held(h, n, r, severity) {
      var j :| 0 <= j <= |h| && HeldSince(h, n, r, j, s);
      if j < |h| {
        WindowFront(h, j, n, s);
        forall k | j < k <= |front| ensures !Window(front, k, r, Clear) {
          WindowFront(h, k, r, Clear);
        }
        assert HeldSince(front, n, r, j, s);
      }
    }
    if Held(front, n, r, severity) && !Window(h, |h|, r, Clear) {
      var j :| 0 <= j <= |front| && HeldSince(front, n, r, j, s);
      WindowFront(h, j, n, s);
      forall k | j < k <= |h| ensures !Window(h, k, r, Clear) {
        if k < |h| {
          WindowFront(h, k, r, Clear);
        }
      }
      assert HeldSince(h, n, r, j, s);
    }
    if Window(h, |h|, n, s) {
      assert HeldSince(h, n, r, |h|, s);
    }
  }

  /** The whole law: an incident is open exactly when some run of `n` equal levels has not been followed
      by a run of `r` clear samples, and it is critical exactly when that holds of the critical level. */
  lemma {:induction false} AlarmLaw(h: seq<Sample>, n: nat, r: nat)
    requires n > 0 && r > 0
    ensures Alarm(h, n, r) == Some(Critical) <==> Held(h, n, r, Critical)
    ensures Alarm(h, n, r).Some? <==> Held(h, n, r, Critical) || Held(h, n, r, Warning)
    decreases |h|
  {
    if h != [] {
      var last := h[|h| - 1];
      AlarmLaw(h[..|h| - 1], n, r);
      HeldStep(h, n, r, Critical);
      HeldStep(h, n, r, Warning);
      RunIsWindow(h, Clear, r);
      RunIsWindow(h, Level(Critical), n);
      RunIsWindow(h, Level(Warning), n);
      match last
      case Level(severity) => assert severity == Critical || severity == Warning;
      case _ =>
    }
  }

  /** While an incident stays open its severity never drops. */
  lemma {:induction false} SeverityKept(h: seq<Sample>, n: nat, r: nat, i: nat)
    requires i <= |h| && Alarm(h[..i], n, r) == Some(Critical)
    requires forall k :: i <= k <= |h| ==> Alarm(h[..k], n, r).Some?
    ensures Alarm(h, n, r) == Some(Critical)
    decreases |h|
  {
    if i == |h| {
      assert h[..i] == h;
    } else {
      var front := h[..|h| - 1];
      assert front[..i] == h[..i];
      assert h[..|h|] == h;
      forall k | i <= k <= |front| ensures Alarm(front[..k], n, r).Some? {
        assert front[..k] == h[..k];
      }
      SeverityKept(front, n, r, i);
    }
  }
}
