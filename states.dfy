/** The three operating modes of a circuit breaker and their printable names. */
module States {
  import opened Wrappers

  /** Closed lets every call through, Open blocks calls, HalfOpen admits a limited
      number of probe calls to test whether the guarded operation has recovered. */
  datatype State = Closed | Open | HalfOpen {

    /** The integer the source's enumeration assigns to the mode (declaration order, from 0). */
    function Code(): (c: int)
      ensures 0 <= c <= 2
    {
      match this
      case Closed => 0
      case Open => 1
      case HalfOpen => 2
    }
  }

  /** The mode an integer code denotes, if any. */
  function FromCode(code: int): (s: Option<State>)
    ensures s.Some? <==> 0 <= code <= 2
    ensures s.Some? ==> s.value.Code() == code
  {
    if code == 0 then Some(Closed)
    else if code == 1 then Some(Open)
    else if code == 2 then Some(HalfOpen)
    else None
  }

  /** The name of a mode given by its integer code; any code outside the
      enumeration is named "unknown". */
  function StateName(code: int): (name: string)
    ensures name == "unknown" <==> FromCode(code).None?
  {
    match FromCode(code)
    case Some(Closed) => "closed"
    case Some(Open) => "open"
    case Some(HalfOpen) => "half-open"
    case None => "unknown"
  }

  /** The name of a mode. */
  function String(s: State): (name: string)
    ensures name != "unknown"
  {
    StateName(s.Code())
  }

  /** Different modes have different names, so a name identifies its mode. */
  lemma StringInjective(a: State, b: State)
    ensures String(a) == String(b) <==> a == b
  {
  }

  /** Code and FromCode are inverse on the three modes. */
  lemma CodeRoundTrip(s: State)
    ensures FromCode(s.Code()) == Some(s)
  {
  }
}
