/** Mentioning `Opened(Seal)` lets the verifier look inside a predicate stated under a seal;
    everywhere else the predicate is carried along unexamined. */
module Sealing {
  datatype Seal = Seal

  ghost predicate Opened(x: Seal) { true }
}
