/**
 * The unit tests of `Health`, one method each: the method runs the test's calls on
 * the model and its postcondition is the test's assertions.
 */
module HealthTests {
  import opened Wrappers
  import Statuses
  import opened DetailTables
  import H = Health

  const RuntimeBang := H.Throwable("java.lang.RuntimeException", "bang")

  /** `Collections.singletonMap(k, v)`. */
  function Singleton(k: string, v: Value): (t: Details)
    ensures Get(t, k) == Some(v)
    ensures forall j :: j != k ==> Get(t, j) == None
  {
    Put(Empty, k, v)
  }

  /** Building with a null status fails with an illegal-argument error and its message. */
  method StatusMustNotBeNull() returns (r: Result<H.Builder, H.IllegalArgument>)
    ensures r.Failure? && r.error.message == "Status must not be null"
  {
    r := H.Builder.Create(None, None);
  }

  method CreateWithStatus() returns (h: H.Health)
    ensures h.status == Statuses.Up && IsEmpty(h.details)
  {
    var r := H.Status(Some(Statuses.Up));
    h := r.value.Build();
  }

  method CreateWithDetails() returns (h: H.Health)
    ensures h.status == Statuses.Up && Get(h.details, "a") == Some(Text("b"))
  {
    var r := H.Builder.Create(Some(Statuses.Up), Some(Singleton("a", Text("b"))));
    h := r.value.Build();
  }

  method EqualsAndHashCode() returns (h1: H.Health, h2: H.Health, h3: H.Health)
    ensures H.Equals(h1, h1) && H.Equals(h1, h2) && !H.Equals(h1, h3)
    ensures H.HashCode(h1) == H.HashCode(h2)
  {
    var r1 := H.Builder.Create(Some(Statuses.Up), Some(Singleton("a", Text("b"))));
    h1 := r1.value.Build();
    var r2 := H.Builder.Create(Some(Statuses.Up), Some(Singleton("a", Text("b"))));
    h2 := r2.value.Build();
    var r3 := H.Builder.Create(Some(Statuses.Up), None);
    h3 := r3.value.Build();
    H.EqualsIsEquivalence(h1, h2, h3);
    H.DetailsDifferNotEqual(h1, h3, "a");
    H.EqualsImpliesSameHash(h1, h2);
  }

  method WithException() returns (h: H.Health)
    ensures Get(h.details, "a") == Some(Text("b"))
    ensures Get(h.details, "error") == Some(Text("java.lang.RuntimeException: bang"))
  {
    var r := H.Builder.Create(Some(Statuses.Up), Some(Singleton("a", Text("b"))));
    var b := r.value;
    b.WithException(RuntimeBang);
    h := b.Build();
    assert "java.lang.RuntimeException" + ": " + "bang" == "java.lang.RuntimeException: bang";
  }

  method WithDetails() returns (h: H.Health)
    ensures Get(h.details, "a") == Some(Text("b")) && Get(h.details, "c") == Some(Text("d"))
  {
    var r := H.Builder.Create(Some(Statuses.Up), Some(Singleton("a", Text("b"))));
    var b := r.value;
    b.WithDetail("c", Text("d"));
    h := b.Build();
  }

  method WithDetailsMap() returns (h: H.Health)
    ensures Get(h.details, "a") == Some(Text("b")) && Get(h.details, "c") == Some(Text("d"))
  {
    var details := PutEach(Empty, [("a", Text("b")), ("c", Text("d"))]);
    var b := H.Up();
    b.WithDetails(details);
    h := b.Build();
    PutEachLastWins(Empty, [("a", Text("b")), ("c", Text("d"))], "a");
    PutEachLastWins(Empty, [("a", Text("b")), ("c", Text("d"))], "c");
  }

  method WithDetailsMapDuplicateKeys() returns (h: H.Health)
    ensures Get(h.details, "a") == Some(Text("e")) && Get(h.details, "c") == Some(Text("d"))
  {
    var puts := [("a", Text("b")), ("c", Text("d")), ("a", Text("e"))];
    var details := PutEach(Empty, puts);
    var b := H.Up();
    b.WithDetails(details);
    h := b.Build();
    PutEachLastWins(Empty, puts, "a");
    PutEachLastWins(Empty, puts, "c");
  }

  method WithMultipleDetailsMaps() returns (h: H.Health)
    ensures Get(h.details, "a") == Some(Text("b")) && Get(h.details, "c") == Some(Text("d"))
    ensures Get(h.details, "1") == Some(Text("2"))
  {
    var puts1 := [("a", Text("b")), ("c", Text("d"))];
    var details1 := PutEach(Empty, puts1);
    var details2 := PutEach(Empty, [("1", Text("2"))]);
    var b := H.Up();
    b.WithDetails(details1);
    b.WithDetails(details2);
    h := b.Build();
    PutEachLastWins(Empty, puts1, "a");
    PutEachLastWins(Empty, puts1, "c");
    PutEachLastWins(Empty, puts1, "1");
    PutEachLastWins(Empty, [("1", Text("2"))], "a");
    PutEachLastWins(Empty, [("1", Text("2"))], "c");
    PutEachLastWins(Empty, [("1", Text("2"))], "1");
  }

  method MixWithDetailsUsage() returns (h: H.Health)
    ensures Get(h.details, "a") == Some(Text("b")) && Get(h.details, "c") == Some(Text("d"))
  {
    var details := PutEach(Empty, [("a", Text("b"))]);
    var b := H.Up();
    b.WithDetails(details);
    b.WithDetail("c", Text("d"));
    h := b.Build();
    PutEachLastWins(Empty, [("a", Text("b"))], "a");
    PutEachLastWins(Empty, [("a", Text("b"))], "c");
  }

  method UnknownWithDetails() returns (h: H.Health)
    ensures h.status == Statuses.Unknown && Get(h.details, "a") == Some(Text("b"))
  {
    var b := new H.Builder();
    b.Unknown();
    b.WithDetail("a", Text("b"));
    h := b.Build();
  }

  method Unknown() returns (h: H.Health)
    ensures h.status == Statuses.Unknown && IsEmpty(h.details)
  {
    var b := new H.Builder();
    b.Unknown();
    h := b.Build();
  }

  method UpWithDetails() returns (h: H.Health)
    ensures h.status == Statuses.Up && Get(h.details, "a") == Some(Text("b"))
  {
    var b := new H.Builder();
    b.Up();
    b.WithDetail("a", Text("b"));
    h := b.Build();
  }

  method Up() returns (h: H.Health)
    ensures h.status == Statuses.Up && IsEmpty(h.details)
  {
    var b := new H.Builder();
    b.Up();
    h := b.Build();
  }

  method DownWithException() returns (h: H.Health)
    ensures h.status == Statuses.Down
    ensures Get(h.details, "error") == Some(Text("java.lang.RuntimeException: bang"))
  {
    var b := H.DownWithException(RuntimeBang);
    h := b.Build();
    assert "java.lang.RuntimeException" + ": " + "bang" == "java.lang.RuntimeException: bang";
  }

  method Down() returns (h: H.Health)
    ensures h.status == Statuses.Down && IsEmpty(h.details)
  {
    var b := H.Down();
    h := b.Build();
  }

  method OutOfService() returns (h: H.Health)
    ensures h.status == Statuses.OutOfService && IsEmpty(h.details)
  {
    var b := H.OutOfService();
    h := b.Build();
  }

  method StatusCode() returns (h: H.Health)
    ensures h.status == Statuses.Up && IsEmpty(h.details)
  {
    var r := H.StatusCode(Some("UP"));
    h := r.value.Build();
  }

  method Status() returns (h: H.Health)
    ensures h.status == Statuses.Up && IsEmpty(h.details)
  {
    var r := H.Status(Some(Statuses.Up));
    h := r.value.Build();
  }
}
