/**
 * The readiness prober of `handler`: up to 120 liveness requests to the
 * service's base address, one second apart, stopping at the first that
 * answers. `probe(i)` is whether the request of attempt `i` (from 0) answered
 * within its timeout.
 */
module Readiness {

  /** The attempt budget of the for/else loop. */
  const MaxProbes: nat := 120

  /** Text of the RuntimeError raised when the budget is spent. */
  const NotRespondingMessage: string := "ComfyUI not responding"

  datatype Status = Ready | NotResponding

  /** What a run of the loop did: its verdict and how many requests it sent. */
  datatype ProbeRun = ProbeRun(status: Status, attempts: nat)

  /** Reference definition of the loop, from attempt `k` on. */
  function ProbeFrom(probe: nat -> bool, k: nat): ProbeRun
    requires k <= MaxProbes
    decreases MaxProbes - k
  {
    if k == MaxProbes then ProbeRun(NotResponding, MaxProbes)
    else if probe(k) then ProbeRun(Ready, k + 1)
    else ProbeFrom(probe, k + 1)
  }

  /**
   * From attempt `k` on, the loop is ready exactly when some remaining attempt
   * answers, it stops at the first such attempt, and it gives up only after
   * the last attempt of the budget.
   */
  lemma {:induction false} ProbeFromStopsAtFirstSuccess(probe: nat -> bool, k: nat)
    requires k <= MaxProbes
    ensures var run := ProbeFrom(probe, k);
      && k <= run.attempts <= MaxProbes
      && (run.status == Ready <==> exists j :: k <= j < MaxProbes && probe(j))
      && (run.status == Ready ==> k < run.attempts && probe(run.attempts - 1) &&
                                  forall j :: k <= j < run.attempts - 1 ==> !probe(j))
      && (run.status == NotResponding ==> run.attempts == MaxProbes)
    decreases MaxProbes - k
  {
    if k < MaxProbes && !probe(k) {
      ProbeFromStopsAtFirstSuccess(probe, k + 1);
    }
  }

  /**
   * The `for _ in range(120): try/break except: sleep else: raise` loop.
   * Returns the verdict, the number of requests sent and the number of
   * one-second sleeps taken (one after every failed request, the last included).
   */
  method AwaitReadiness(probe: nat -> bool) returns (status: Status, attempts: nat, sleeps: nat)
    ensures 1 <= attempts <= MaxProbes
    ensures status == Ready ==> probe(attempts - 1) && forall j :: 0 <= j < attempts - 1 ==> !probe(j)
    ensures status == NotResponding <==> forall j :: 0 <= j < MaxProbes ==> !probe(j)
    ensures status == NotResponding ==> attempts == MaxProbes
    ensures sleeps == if status == Ready then attempts - 1 else MaxProbes
    ensures ProbeRun(status, attempts) == ProbeFrom(probe, 0)
  {
    attempts, sleeps := 0, 0;
    var answered := false;
    for i := 0 to MaxProbes
      invariant attempts == sleeps == i
      invariant forall j :: 0 <= j < i ==> !probe(j)
    {
      attempts := attempts + 1;
      if probe(i) {
        answered := true;
        break;
      }
      sleeps := sleeps + 1;
    }
    status := if answered then Ready else NotResponding;
    ProbeFromStopsAtFirstSuccess(probe, 0);
  }
}
