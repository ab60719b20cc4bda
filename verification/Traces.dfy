/** Programs whose steps others' steps may come between. */
module Traces {

  /** A program's own first n steps, with whatever others do before each of them. */
  function Interleave<Step>(own: seq<Step>, others: nat -> seq<Step>, n: nat): seq<Step>
    requires n <= |own|
  {
    if n == 0 then [] else Interleave(own, others, n - 1) + others(n - 1) + [own[n - 1]]
  }
}
