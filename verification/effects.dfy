/** The file-system effects of a run, shared by the genre export and the
    playlist loop, and the error a run stops on. */
module Effects {
  import opened Wrappers
  import opened World
  import opened HashCache

  /** A file-system effect of the program. Copies and writes are best effort:
      their own failures are ignored and change nothing else. */
  datatype Action = Copy(from: string, to: string) | Write(to: string, text: string)

  /** The effects performed, the cache at the end (or at the panic, when the
      run aborted), and the error the run stopped on, if any. Effects before
      an abort are not rolled back. */
  datatype Run = Run(actions: seq<Action>, state: HashState, aborted: Option<Error>)

  /** The effects of a run and the error it stopped on, without the cache:
      what a cache-free reference computes. */
  datatype Plan = Plan(actions: seq<Action>, aborted: Option<Error>)

  /** The effects of `[x] + xs` are `x` and those of `xs`. */
  lemma InCons(x: Action, xs: seq<Action>)
    ensures forall a :: a in [x] + xs <==> a == x || a in xs
  {
  }

  function PlanOf(r: Run): Plan
  {
    Plan(r.actions, r.aborted)
  }
}
