/** The two health automata: ServerHealth of the Overwatch and BackendHealth of the agent. */
module Health {
  import opened Prelude

  datatype Status = Unknown | Healthy | Unhealthy

  datatype CheckResult = CheckResult(healthy: bool, latency: int, error: Option<string>, timestamp: int)

  // ---------------------------------------------------------------- the automata

  datatype Server = Server(status: Status, passes: nat, fails: nat)

  function ServerStep(pass: int, fail: int, s: Server, healthy: bool): Server {
    if healthy then
      Server(if s.status != Healthy && s.passes + 1 >= pass then Healthy else s.status, s.passes + 1, 0)
    else
      Server(if s.status != Unhealthy && s.fails + 1 >= fail then Unhealthy else s.status, 0, s.fails + 1)
  }

  function ServerRun(pass: int, fail: int, results: seq<bool>): Server {
    if results == [] then Server(Unknown, 0, 0)
    else ServerStep(pass, fail, ServerRun(pass, fail, results[..|results| - 1]), results[|results| - 1])
  }

  datatype Backend = Backend(healthy: bool, passes: nat, fails: nat)

  function BackendStep(pass: int, fail: int, b: Backend, healthy: bool): Backend {
    if healthy then Backend(b.healthy || b.passes + 1 >= pass, b.passes + 1, 0)
    else Backend(b.healthy && b.fails + 1 < fail, 0, b.fails + 1)
  }

  function BackendRun(pass: int, fail: int, results: seq<bool>): Backend {
    if results == [] then Backend(false, 0, 0)
    else BackendStep(pass, fail, BackendRun(pass, fail, results[..|results| - 1]), results[|results| - 1])
  }

  // ---------------------------------------------------------------- the objects

  class ServerHealth {
    const address: string
    const failThreshold: int
    const passThreshold: int
    var status: Status
    var lastCheck: int
    var lastHealthy: int
    var consecutiveFails: nat
    var consecutivePasses: nat
    var lastError: Option<string>
    var lastLatency: int

    constructor (address: string, failThreshold: int, passThreshold: int)
      ensures this.address == address
      ensures this.failThreshold == (if failThreshold < 1 then 3 else failThreshold) >= 1
      ensures this.passThreshold == (if passThreshold < 1 then 2 else passThreshold) >= 1
      ensures View() == Server(Unknown, 0, 0)
    {
      this.address := address;
      this.failThreshold := if failThreshold < 1 then 3 else failThreshold;
      this.passThreshold := if passThreshold < 1 then 2 else passThreshold;
      status, consecutiveFails, consecutivePasses := Unknown, 0, 0;
      lastCheck, lastHealthy, lastLatency, lastError := 0, 0, 0, None;
    }

    function View(): Server
      reads this
    {
      Server(status, consecutivePasses, consecutiveFails)
    }

    method RecordResult(result: CheckResult) returns (changed: bool)
      modifies this
      ensures View() == ServerStep(passThreshold, failThreshold, old(View()), result.healthy)
      ensures changed <==> status != old(status)
      ensures lastCheck == result.timestamp && lastLatency == result.latency
      ensures lastHealthy == (if result.healthy then result.timestamp else old(lastHealthy))
      ensures lastError == if result.healthy then None else result.error
    {
      lastCheck := result.timestamp;
      lastLatency := result.latency;
      var previous := status;
      if result.healthy {
        consecutiveFails := 0;
        consecutivePasses := consecutivePasses + 1;
        lastError := None;
        lastHealthy := result.timestamp;
        if status != Healthy && consecutivePasses >= passThreshold {
          status := Healthy;
        }
      } else {
        consecutivePasses := 0;
        consecutiveFails := consecutiveFails + 1;
        lastError := result.error;
        if status != Unhealthy && consecutiveFails >= failThreshold {
          status := Unhealthy;
        }
      }
      changed := status != previous;
    }
  }

  class BackendHealth {
    const failThreshold: int
    const passThreshold: int
    var healthy: bool
    var lastCheck: int
    var lastHealthy: int
    var consecutiveFails: nat
    var consecutivePasses: nat
    var lastError: Option<string>
    var lastLatency: int

    /** AddBackend replaces a zero threshold, and only that. */
    constructor (failThreshold: int, passThreshold: int)
      ensures this.failThreshold == if failThreshold == 0 then 3 else failThreshold
      ensures this.passThreshold == if passThreshold == 0 then 2 else passThreshold
      ensures View() == Backend(false, 0, 0)
    {
      this.failThreshold := if failThreshold == 0 then 3 else failThreshold;
      this.passThreshold := if passThreshold == 0 then 2 else passThreshold;
      healthy, consecutiveFails, consecutivePasses := false, 0, 0;
      lastCheck, lastHealthy, lastLatency, lastError := 0, 0, 0, None;
    }

    function View(): Backend
      reads this
    {
      Backend(healthy, consecutivePasses, consecutiveFails)
    }

    method RecordResult(result: CheckResult) returns (changed: bool)
      modifies this
      ensures View() == BackendStep(passThreshold, failThreshold, old(View()), result.healthy)
      ensures changed <==> healthy != old(healthy)
      ensures lastCheck == result.timestamp && lastLatency == result.latency
      ensures lastHealthy == (if result.healthy then result.timestamp else old(lastHealthy))
      ensures lastError == if result.healthy then None else result.error
    {
      lastCheck := result.timestamp;
      lastLatency := result.latency;
      var previous := healthy;
      if result.healthy {
        consecutiveFails := 0;
        consecutivePasses := consecutivePasses + 1;
        lastError := None;
        lastHealthy := result.timestamp;
        if !healthy && consecutivePasses >= passThreshold {
          healthy := true;
        }
      } else {
        consecutivePasses := 0;
        consecutiveFails := consecutiveFails + 1;
        lastError := result.error;
        if healthy && consecutiveFails >= failThreshold {
          healthy := false;
        }
      }
      changed := healthy != previous;
    }
  }

  // ---------------------------------------------------------------- counters

  /** The last k results are all `value`, and no more than k are. */
  ghost predicate EndsWithExactly(results: seq<bool>, k: nat, value: bool) {
    && k <= |results|
    && (forall i :: |results| - k <= i < |results| ==> results[i] == value)
    && (k < |results| ==> results[|results| - k - 1] != value)
  }

  /** Each counter is the length of the current all-pass or all-fail end of the history. */
  lemma {:induction false} CountersAreSuffixLengths(pass: int, fail: int, results: seq<bool>)
    ensures var s := ServerRun(pass, fail, results);
            EndsWithExactly(results, s.passes, true) && EndsWithExactly(results, s.fails, false)
  {
    if results != [] {
      CountersAreSuffixLengths(pass, fail, results[..|results| - 1]);
    }
  }

  // ---------------------------------------------------------------- what the status means

  /** `need` results in a row equal to `value`, the last of them the i-th. */
  ghost predicate Window(results: seq<bool>, i: int, need: int, value: bool) {
    1 <= need <= i <= |results| && forall k :: i - need <= k < i ==> results[k] == value
  }

  ghost predicate NoWindowAfter(results: seq<bool>, i: int, need: int, value: bool) {
    forall j :: Window(results, j, need, value) ==> j <= i
  }

  /** A window of this kind, after which no window of the other kind ends. */
  ghost predicate LatestDecision(results: seq<bool>, need: int, value: bool, needOther: int) {
    exists i :: Window(results, i, need, value) && NoWindowAfter(results, i, needOther, !value)
  }

  ghost predicate Undecided(results: seq<bool>, pass: int, fail: int) {
    NoWindowAfter(results, 0, pass, true) && NoWindowAfter(results, 0, fail, false)
  }

  lemma WindowAtEnd(pass: int, fail: int, results: seq<bool>)
    requires pass >= 1 && fail >= 1
    ensures Window(results, |results|, pass, true) <==> ServerRun(pass, fail, results).passes >= pass
    ensures Window(results, |results|, fail, false) <==> ServerRun(pass, fail, results).fails >= fail
  {
    CountersAreSuffixLengths(pass, fail, results);
    var n, s := |results|, ServerRun(pass, fail, results);
    assert s.passes < n ==> !results[n - s.passes - 1];
    assert s.fails < n ==> results[n - s.fails - 1];
  }

  /** One more result adds at most the window ending with it. */
  lemma WindowsExtend(results: seq<bool>, n: nat, need: int, value: bool)
    requires |results| == n + 1
    ensures forall i :: i <= n ==> Window(results, i, need, value) == Window(results[..n], i, need, value)
  {
  }

  /** One more result either completes a window now or leaves the latest decision. */
  lemma DecisionAfter(results: seq<bool>, n: nat, need: int, value: bool, needOther: int)
    requires |results| == n + 1
    ensures LatestDecision(results, need, value, needOther)
        == (|| Window(results, n + 1, need, value)
            || (LatestDecision(results[..n], need, value, needOther) && !Window(results, n + 1, needOther, !value)))
  {
    var before, other := results[..n], !value;
    WindowsExtend(results, n, need, value);
    WindowsExtend(results, n, needOther, other);
    if Window(results, n + 1, need, value) {
      assert NoWindowAfter(results, n + 1, needOther, other);
    } else {
      forall i | Window(before, i, need, value)
        ensures NoWindowAfter(results, i, needOther, other)
            == (NoWindowAfter(before, i, needOther, other) && !Window(results, n + 1, needOther, other))
      {
        assert i <= n;
        assert forall j :: Window(before, j, needOther, other) ==> Window(results, j, needOther, other);
      }
      assert forall i :: Window(results, i, need, value) == Window(before, i, need, value);
    }
  }

  /** The status is the verdict of the latest long enough streak: healthy after `pass` passes in a
      row with no `fail` failures in a row since, unhealthy the other way round, and unknown
      exactly while there has been no such streak at all. */
  lemma {:induction false} StatusIsTheLatestDecision(pass: int, fail: int, results: seq<bool>)
    requires pass >= 1 && fail >= 1
    ensures var s := ServerRun(pass, fail, results);
            && (s.status == Healthy <==> LatestDecision(results, pass, true, fail))
            && (s.status == Unhealthy <==> LatestDecision(results, fail, false, pass))
            && (s.status == Unknown <==> Undecided(results, pass, fail))
  {
    if results != [] {
      var n := |results| - 1;
      StatusIsTheLatestDecision(pass, fail, results[..n]);
      WindowAtEnd(pass, fail, results);
      DecisionAfter(results, n, pass, true, fail);
      DecisionAfter(results, n, fail, false, pass);
      UndecidedAfter(results, n, pass, fail);
    }
  }

  lemma UndecidedAfter(results: seq<bool>, n: nat, pass: int, fail: int)
    requires |results| == n + 1
    ensures Undecided(results, pass, fail)
        == (Undecided(results[..n], pass, fail)
            && !Window(results, n + 1, pass, true) && !Window(results, n + 1, fail, false))
  {
    WindowsExtend(results, n, pass, true);
    WindowsExtend(results, n, fail, false);
    var before := results[..n];
    assert forall j :: Window(before, j, pass, true) ==> Window(results, j, pass, true);
    assert forall j :: Window(before, j, fail, false) ==> Window(results, j, fail, false);
  }

  // ---------------------------------------------------------------- how often it can change

  /** Number of steps that end in `status` coming from another one. */
  function Transitions(pass: int, fail: int, results: seq<bool>, status: Status): nat {
    if results == [] then 0
    else
      var before := results[..|results| - 1];
      var here := if ServerRun(pass, fail, results).status == status
          && ServerRun(pass, fail, before).status != status then 1 else 0;
      Transitions(pass, fail, before, status) + here
  }

  /** Results not yet spent on a transition. */
  function Pending(s: Server): nat {
    match s.status
    case Unknown => if s.passes > s.fails then s.passes else s.fails
    case Healthy => s.fails
    case Unhealthy => s.passes
  }

  lemma OneMore(m: int, n: int)
    ensures m * (n + 1) == m * n + m
  {
  }

  /** Every change of mind costs a full streak of its own: H changes to healthy and U changes to
      unhealthy need at least pass * H + fail * U results. */
  lemma {:induction false} HysteresisBudget(pass: int, fail: int, results: seq<bool>)
    requires pass >= 1 && fail >= 1
    ensures var h, u := Transitions(pass, fail, results, Healthy), Transitions(pass, fail, results, Unhealthy);
            pass * h + fail * u + Pending(ServerRun(pass, fail, results)) <= |results|
  {
    if results != [] {
      var before := results[..|results| - 1];
      HysteresisBudget(pass, fail, before);
      var h, u := Transitions(pass, fail, before, Healthy), Transitions(pass, fail, before, Unhealthy);
      OneMore(pass, h);
      OneMore(fail, u);
    }
  }

  // ---------------------------------------------------------------- the two automata agree

  /** With equal thresholds the agent's flag says whether the Overwatch's status is healthy, after
      every prefix, and the counters are equal. */
  lemma {:induction false} AutomataAgree(pass: int, fail: int, results: seq<bool>)
    requires pass >= 1 && fail >= 1
    ensures var s, b := ServerRun(pass, fail, results), BackendRun(pass, fail, results);
            b.healthy == (s.status == Healthy) && b.passes == s.passes && b.fails == s.fails
  {
    if results != [] {
      AutomataAgree(pass, fail, results[..|results| - 1]);
    }
  }

  /** Their change reports differ in one case only: the first verdict being unhealthy. */
  lemma ReportsDifferOnlyOnFirstUnhealthy(pass: int, fail: int, results: seq<bool>, next: bool)
    requires pass >= 1 && fail >= 1
    ensures var s, b := ServerRun(pass, fail, results), BackendRun(pass, fail, results);
            var s', b' := ServerRun(pass, fail, results + [next]), BackendRun(pass, fail, results + [next]);
            (s'.status != s.status) != (b'.healthy != b.healthy) <==> s.status == Unknown && s'.status == Unhealthy
  {
    assert (results + [next])[..|results|] == results;
    AutomataAgree(pass, fail, results);
    AutomataAgree(pass, fail, results + [next]);
  }
}
