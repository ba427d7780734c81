/**
 * `Health`, the immutable outcome of a health check (a status and a detail table),
 * and `Builder`, the mutable accumulator that produces it.
 */
module Health {
  import opened Wrappers
  import Statuses
  import opened DetailTables
  import Hashing

  /** A thrown exception, as far as a health detail sees it: its class name and message. */
  datatype Throwable = Throwable(className: string, message: string)

  /** The `IllegalArgumentException` thrown on a null argument. */
  datatype IllegalArgument = IllegalArgument(message: string)

  const StatusNullMessage := "Status must not be null"

  /** The detail key under which an exception is recorded. */
  const ErrorKey := "error"

  /** The detail an exception is recorded as: its class name, ": ", its message. */
  function ErrorValue(ex: Throwable): Value
  {
    Text(ex.className + ": " + ex.message)
  }

  /** A health outcome. Built once, never changed. */
  datatype Health = Health(status: Statuses.Status, details: Details)

  /**
   * `equals`: the statuses have the same code and the detail tables map the same
   * keys to the same values; the insertion order of the details does not matter.
   */
  predicate Equals(a: Health, b: Health)
  {
    Statuses.Code(a.status) == Statuses.Code(b.status) && a.details.entries == b.details.entries
  }

  /** `hashCode`: combines the status hash and the detail table's hash. */
  function HashCode(h: Health): (r: nat)
    ensures r < Hashing.Modulus
  {
    Hashing.Wrap(13 * Statuses.HashCode(h.status) + DetailTables.HashCode(h.details))
  }

  /** Equal outcomes are those with the same status code and the same lookup at every key. */
  lemma EqualsIffSameLookups(a: Health, b: Health)
    ensures Equals(a, b)
        <==> Statuses.Code(a.status) == Statuses.Code(b.status)
             && forall k :: Get(a.details, k) == Get(b.details, k)
  {
    if forall k :: Get(a.details, k) == Get(b.details, k) {
      forall k ensures k in a.details.entries <==> k in b.details.entries {
        assert Get(a.details, k) == Get(b.details, k);
      }
      assert a.details.entries.Keys == b.details.entries.Keys;
      forall k | k in a.details.entries ensures a.details.entries[k] == b.details.entries[k] {
        assert Get(a.details, k) == Get(b.details, k);
      }
    }
  }

  /** `equals` is an equivalence relation. */
  lemma EqualsIsEquivalence(a: Health, b: Health, c: Health)
    ensures Equals(a, a)
    ensures Equals(a, b) ==> Equals(b, a)
    ensures Equals(a, b) && Equals(b, c) ==> Equals(a, c)
  {
  }

  /** Equal health outcomes have equal hash codes, whatever order their details were added in. */
  lemma EqualsImpliesSameHash(a: Health, b: Health)
    requires Equals(a, b)
    ensures HashCode(a) == HashCode(b)
  {
    assert Statuses.HashCode(a.status) == Statuses.HashCode(b.status);
    DetailTables.HashCodeIgnoresOrder(a.details, b.details);
  }

  /** Outcomes whose details differ in some key are not equal. */
  lemma DetailsDifferNotEqual(a: Health, b: Health, k: string)
    requires Get(a.details, k) != Get(b.details, k)
    ensures !Equals(a, b)
  {
  }

  /** Adding two details in either order gives equal outcomes with equal hash codes. */
  lemma DetailOrderIrrelevant(s: Statuses.Status, t: Details, k1: string, v1: Value, k2: string, v2: Value)
    requires k1 != k2
    ensures Equals(Health(s, Put(Put(t, k1, v1), k2, v2)), Health(s, Put(Put(t, k2, v2), k1, v1)))
    ensures HashCode(Health(s, Put(Put(t, k1, v1), k2, v2))) == HashCode(Health(s, Put(Put(t, k2, v2), k1, v1)))
  {
    PutCommutes(t, k1, v1, k2, v2);
    EqualsImpliesSameHash(Health(s, Put(Put(t, k1, v1), k2, v2)), Health(s, Put(Put(t, k2, v2), k1, v1)));
  }

  /**
   * `Health.Builder`: holds the status set so far (none yet, for a builder created
   * without one) and the working detail table.
   */
  class Builder {
    var status: Option<Statuses.Status>
    var details: Details

    /** `new Builder()`: no status yet, no details. */
    constructor ()
      ensures status == None && details == Empty
    {
      status := None;
      details := Empty;
    }

    /**
     * `new Builder(status)` when `initial` is absent, `new Builder(status, details)`
     * otherwise: fails on a null status; else starts from that status and a copy of
     * the initial details, entry by entry in their order.
     */
    static method Create(status: Option<Statuses.Status>, initial: Option<Details>)
      returns (r: Result<Builder, IllegalArgument>)
      ensures status == None ==> r == Failure(IllegalArgument(StatusNullMessage))
      ensures status != None ==> r.Success? && fresh(r.value) && r.value.status == status
      ensures status != None ==> r.value.details == if initial == None then Empty else initial.value
    {
      if status == None {
        return Failure(IllegalArgument(StatusNullMessage));
      }
      var b := new Builder();
      b.status := status;
      if initial != None {
        b.details := PutAll(Empty, initial.value);
        PutAllIntoEmpty(initial.value);
      }
      return Success(b);
    }

    /** `status(Status)`: fails on null, leaving the builder as it was; else sets the status. */
    method SetStatus(s: Option<Statuses.Status>) returns (outcome: Outcome<IllegalArgument>)
      modifies this
      ensures s == None ==> outcome == Fail(IllegalArgument(StatusNullMessage)) && status == old(status)
      ensures s != None ==> outcome == Pass && status == s
      ensures details == old(details)
    {
      if s == None {
        return Fail(IllegalArgument(StatusNullMessage));
      }
      status := s;
      return Pass;
    }

    /** `status(String)`: fails on null; else sets the status the code names. */
    method SetStatusCode(code: Option<string>) returns (outcome: Outcome<IllegalArgument>)
      modifies this
      ensures code == None ==> outcome == Fail(IllegalArgument(StatusNullMessage)) && status == old(status)
      ensures code != None ==> outcome == Pass && status == Some(Statuses.FromCode(code.value))
      ensures details == old(details)
    {
      if code == None {
        return Fail(IllegalArgument(StatusNullMessage));
      }
      outcome := SetStatus(Some(Statuses.FromCode(code.value)));
    }

    /** `up()`. */
    method Up()
      modifies this
      ensures status == Some(Statuses.Up) && details == old(details)
    {
      status := Some(Statuses.Up);
    }

    /** `down()`. */
    method Down()
      modifies this
      ensures status == Some(Statuses.Down) && details == old(details)
    {
      status := Some(Statuses.Down);
    }

    /** `unknown()`. */
    method Unknown()
      modifies this
      ensures status == Some(Statuses.Unknown) && details == old(details)
    {
      status := Some(Statuses.Unknown);
    }

    /** `outOfService()`. */
    method OutOfService()
      modifies this
      ensures status == Some(Statuses.OutOfService) && details == old(details)
    {
      status := Some(Statuses.OutOfService);
    }

    /** `withDetail(key, value)`: inserts or overwrites one detail. */
    method WithDetail(k: string, v: Value)
      modifies this
      ensures details == Put(old(details), k, v) && status == old(status)
    {
      details := Put(details, k, v);
    }

    /** `withDetails(map)`: inserts or overwrites every entry of `d`, in `d`'s order. */
    method WithDetails(d: Details)
      modifies this
      ensures details == PutAll(old(details), d) && status == old(status)
    {
      details := PutAll(details, d);
    }

    /** `withException(ex)`: records the exception under the key "error". */
    method WithException(ex: Throwable)
      modifies this
      ensures details == Put(old(details), ErrorKey, ErrorValue(ex)) && status == old(status)
    {
      WithDetail(ErrorKey, ErrorValue(ex));
    }

    /**
     * `build()`: a snapshot of the status and details so far. The builder stays
     * usable; later changes to it cannot reach the snapshot, which is a value.
     */
    method Build() returns (h: Health)
      requires status != None
      ensures h.status == status.value && h.details == details
    {
      h := Health(status.value, details);
    }
  }

  /** `Health.status(Status)`: a builder with that status, or the null-status failure. */
  method Status(s: Option<Statuses.Status>) returns (r: Result<Builder, IllegalArgument>)
    ensures s == None ==> r == Failure(IllegalArgument(StatusNullMessage))
    ensures s != None ==> r.Success? && fresh(r.value) && r.value.status == s && r.value.details == Empty
  {
    r := Builder.Create(s, None);
  }

  /** `Health.status(String)`: a builder with the status the code names. */
  method StatusCode(code: Option<string>) returns (r: Result<Builder, IllegalArgument>)
    ensures code == None ==> r == Failure(IllegalArgument(StatusNullMessage))
    ensures code != None ==> r.Success? && fresh(r.value) && r.value.details == Empty
    ensures code != None ==> r.value.status == Some(Statuses.FromCode(code.value))
  {
    if code == None {
      return Failure(IllegalArgument(StatusNullMessage));
    }
    r := Status(Some(Statuses.FromCode(code.value)));
  }

  /** `Health.up()`. */
  method Up() returns (b: Builder)
    ensures fresh(b) && b.status == Some(Statuses.Up) && b.details == Empty
  {
    b := new Builder();
    b.Up();
  }

  /** `Health.down()`. */
  method Down() returns (b: Builder)
    ensures fresh(b) && b.status == Some(Statuses.Down) && b.details == Empty
  {
    b := new Builder();
    b.Down();
  }

  /** `Health.down(ex)`: status DOWN and the exception recorded under "error". */
  method DownWithException(ex: Throwable) returns (b: Builder)
    ensures fresh(b) && b.status == Some(Statuses.Down) && b.details == Put(Empty, ErrorKey, ErrorValue(ex))
  {
    b := Down();
    b.WithException(ex);
  }

  /** `Health.unknown()`. */
  method Unknown() returns (b: Builder)
    ensures fresh(b) && b.status == Some(Statuses.Unknown) && b.details == Empty
  {
    b := new Builder();
    b.Unknown();
  }

  /** `Health.outOfService()`. */
  method OutOfService() returns (b: Builder)
    ensures fresh(b) && b.status == Some(Statuses.OutOfService) && b.details == Empty
  {
    b := new Builder();
    b.OutOfService();
  }
}
