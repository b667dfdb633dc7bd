/**
 * The `pre.move` and `post.move` hook chains, run one callback after another
 * (`async.eachSeries`) and stopped by the first callback that reports an error.
 */
module Hooks {
  import opened Wrappers

  /** A registered callback, known by its identity; what it does is its outcome. */
  datatype Hook = Hook(name: string)

  datatype ChainRun = Completed | Aborted(at: nat, message: string)

  /**
   * Runs a chain whose callbacks report `outcomes`, in registration order:
   * it completes when every callback passes, and otherwise aborts with the
   * first error.
   */
  function RunChain(outcomes: seq<Outcome>): (r: ChainRun)
    ensures r.Completed? <==> forall i :: 0 <= i < |outcomes| ==> outcomes[i].Pass?
    ensures r.Aborted? ==> r.at < |outcomes| && outcomes[r.at] == Fail(r.message)
    ensures r.Aborted? ==> forall i :: 0 <= i < r.at ==> outcomes[i].Pass?
    decreases |outcomes|
  {
    if |outcomes| == 0 then Completed
    else match outcomes[0]
      case Fail(m) => Aborted(0, m)
      case Pass =>
        match RunChain(outcomes[1..])
        case Completed => Completed
        case Aborted(k, m) => Aborted(k + 1, m)
  }

  /** How many callbacks the chain invokes: each one only once its predecessor passed. */
  function Invoked(outcomes: seq<Outcome>): nat
    decreases |outcomes|
  {
    if |outcomes| == 0 then 0
    else if outcomes[0].Fail? then 1
    else 1 + Invoked(outcomes[1..])
  }

  /** The chain invokes every callback when it completes, and none after the one that aborted it. */
  lemma {:induction false} InvokedUpToAbort(outcomes: seq<Outcome>)
    ensures Invoked(outcomes) == match RunChain(outcomes)
                                 case Completed => |outcomes|
                                 case Aborted(k, _) => k + 1
    decreases |outcomes|
  {
    if |outcomes| > 0 && outcomes[0].Pass? {
      InvokedUpToAbort(outcomes[1..]);
    }
  }

  /** Two callbacks, the first failing: the second never runs. */
  lemma FirstFailureStopsSecond(m: string, second: Outcome)
    ensures RunChain([Fail(m), second]) == Aborted(0, m)
    ensures Invoked([Fail(m), second]) == 1
  {
  }
}
