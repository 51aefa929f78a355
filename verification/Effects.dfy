/** What can become of an operation on the outside world. */
module Effects {
  /** It took place, it failed, or the process died during it. */
  datatype Fate = Done | Refused | Died

  /** calm leaves nothing to go wrong: contracts use it to say when an operation must succeed. */
  method Chance(calm: bool) returns (fate: Fate)
    ensures calm ==> fate.Done?
  {
    fate := *;
    if calm {
      fate := Done;
    }
  }

  /** The same where a death needs no telling apart. */
  method Attempt(calm: bool) returns (ok: bool)
    ensures calm ==> ok
  {
    ok := *;
    if calm {
      ok := true;
    }
  }
}
