/** The status of a health outcome: one of the well-known codes or a caller-supplied one. */
module Statuses {
  import opened Hashing

  /** A status, identified by its code. `Custom` carries any other caller-supplied code. */
  datatype Status = Unknown | Up | Down | OutOfService | Custom(code: string)

  /**
   * The code by which a status is identified (and compared). A canonical status
   * carries one of the four well-known codes exactly when it is not `Custom`.
   */
  function Code(s: Status): (c: string)
    ensures Canonical(s) ==> (WellKnownCode(c) <==> !s.Custom?)
  {
    match s
    case Unknown => "UNKNOWN"
    case Up => "UP"
    case Down => "DOWN"
    case OutOfService => "OUT_OF_SERVICE"
    case Custom(c) => c
  }

  predicate WellKnownCode(code: string)
  {
    code == "UNKNOWN" || code == "UP" || code == "DOWN" || code == "OUT_OF_SERVICE"
  }

  /** A status in its canonical form: a well-known code is never spelled as `Custom`. */
  predicate Canonical(s: Status)
  {
    s.Custom? ==> !WellKnownCode(s.code)
  }

  /** The status a code names, so that the code "UP" resolves to `Up`. */
  function FromCode(code: string): (s: Status)
    ensures Code(s) == code
    ensures Canonical(s)
  {
    if code == "UNKNOWN" then Unknown
    else if code == "UP" then Up
    else if code == "DOWN" then Down
    else if code == "OUT_OF_SERVICE" then OutOfService
    else Custom(code)
  }

  /** Resolving the code of a canonical status gives that status back. */
  lemma FromCodeOfCode(s: Status)
    requires Canonical(s)
    ensures FromCode(Code(s)) == s
  {
  }

  /** Among canonical statuses, having the same code is being the same status. */
  lemma SameCodeIffSameStatus(a: Status, b: Status)
    requires Canonical(a) && Canonical(b)
    ensures Code(a) == Code(b) <==> a == b
  {
    FromCodeOfCode(a);
    FromCodeOfCode(b);
  }

  /** `Status.hashCode()`: the hash of the code, consistent with equality by code. */
  function HashCode(s: Status): (h: nat)
    ensures h < Modulus
    ensures h == Wrap(Polynomial(Code(s)))
  {
    StringHashIsPolynomial(Code(s));
    StringHash(Code(s))
  }
}
