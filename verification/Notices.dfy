// What an application is told of multi-part operations.
module Notices {
  import opened Bytes
  import opened Multipart

  // START PROGRESS* DONE, over and over: Some(true) inside an operation, None for anything else.
  function Told(ns: seq<Notice>): Option<bool> {
    if ns == [] then Some(false)
    else
      match (Told(ns[..|ns| - 1]), ns[|ns| - 1])
      case (Some(false), Start) => Some(true)
      case (Some(true), Progress(_)) => Some(true)
      case (Some(true), Done(_)) => Some(false)
      case _ => None
  }

  lemma ToldNext(ns: seq<Notice>, n: Notice)
    requires Told(ns).Some?
    ensures Told(ns + [n]) ==
            match (Told(ns).value, n)
            case (false, Start) => Some(true)
            case (true, Progress(_)) => Some(true)
            case (true, Done(_)) => Some(false)
            case _ => None
  {
    assert (ns + [n])[..|ns|] == ns;
  }

  // The last thing told is the end of an operation, and this is how it ended.
  predicate Closed(ns: seq<Notice>, outcome: Outcome) {
    ns != [] && ns[|ns| - 1] == Done(outcome)
  }
}
