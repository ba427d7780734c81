# Health and Health.Builder of the Spring Boot actuator

This project models the value type at the centre of the Spring Boot actuator's
health reporting. `Health` is the immutable outcome of a health check: a
status and a table of named details. `Health.Builder` is the mutable
accumulator that produces it. The repository's unit test suite `HealthTests`
pins down how the two behave. `Health.java` and `Status.java` are not part of
this model, so the model follows the behaviour those tests assert, filled out
with the documented contract of the builder.

- `status.dfy` (module `Statuses`): a status is `Unknown`, `Up`, `Down`,
  `OutOfService` or a caller-supplied `Custom` code. Statuses are identified by
  their code, and `FromCode` resolves a code, so `"UP"` names `Up`.
- `details.dfy` (module `DetailTables`): the detail table is an
  insertion-ordered map, as a `LinkedHashMap` behaves. It holds the keys in
  order plus a map, and its type invariant says the order lists every mapped
  key exactly once. `Put`, `PutEach` (a run of puts) and `PutAll` (`putAll`)
  are modelled here, together with the JDK's `Map.hashCode` (the sum of
  key-hash xor value-hash).
- `health.dfy` (module `Health`): the `Health` value and its `equals` and
  `hashCode`. It also holds the `Builder` class and the static factories
  `Health.status(..)`, `Health.up()`, `Health.down()`, `Health.down(ex)`,
  `Health.unknown()` and `Health.outOfService()`.
  - The builder's fields are the status (absent until one is set) and the
    working detail table. Its methods change them in place and state the
    new state.
  - A null status is the one failure. It is modelled with `Option` arguments
    and a `Result`/`Outcome` carrying the `IllegalArgumentException` message
    "Status must not be null".
  - `build()` returns a value, so later changes to the builder cannot reach a
    Health that was already built.
- `health_tests.dfy` (module `HealthTests`): each JUnit test is one method.
  It makes the test's calls on the model, and its postcondition is the
  test's assertions.
- `hashing.dfy` (module `Hashing`): Java `int` arithmetic for hash codes.
  A Java `int` is modelled by the unsigned reading of its 32 bits, a `nat`
  below 2^32. Wrap-around is reduction modulo 2^32, and `String.hashCode` is
  written out.
- `wrappers.dfy` (module `Wrappers`): `Option`, `Result` and `Outcome`.

Design decisions:
- `equals` compares statuses by code and detail tables by their key-to-value
  mapping. The order of details does not matter, and neither does the way a
  status was written (a `Custom("UP")` equals `Up`).

## Model

| member | source | states |
|---|---|---|
| Statuses.Code | spring-boot-project/spring-boot-actuator/src/test/java/org/springframework/boot/actuate/health/HealthTests.java:206-218 | the code a status is identified by; a canonical status has one of the four well-known codes exactly when it is not a custom status |
| Statuses.HashCode | spring-boot-project/spring-boot-actuator/src/test/java/org/springframework/boot/actuate/health/HealthTests.java:72-73 | `Status.hashCode()` is the Java string hash of the code, a 32-bit value equal to the unwrapped hash polynomial of the code reduced modulo 2^32, so statuses with the same code hash alike |
| Hashing.StringHash | spring-boot-project/spring-boot-actuator/src/test/java/org/springframework/boot/actuate/health/HealthTests.java:72-73 | `String.hashCode()` with wrap-around after every step is a 32-bit value |
| Hashing.StringHashIsPolynomial | spring-boot-project/spring-boot-actuator/src/test/java/org/springframework/boot/actuate/health/HealthTests.java:72-73 | wrapping after every step gives the same 32 bits as reducing the whole polynomial s[0]*31^(n-1) + ... + s[n-1] modulo 2^32 once |
| Statuses.FromCode | spring-boot-project/spring-boot-actuator/src/test/java/org/springframework/boot/actuate/health/HealthTests.java:206-211 | the status a code names has exactly that code and is canonical, so the code "UP" resolves to `Up` |
| Statuses.FromCodeOfCode | spring-boot-project/spring-boot-actuator/src/test/java/org/springframework/boot/actuate/health/HealthTests.java:206-218 | resolving the code of any canonical status gives that status back (round trip) |
| Statuses.SameCodeIffSameStatus | spring-boot-project/spring-boot-actuator/src/test/java/org/springframework/boot/actuate/health/HealthTests.java:206-218 | two canonical statuses have the same code exactly when they are the same status, so `status("UP")` and `status(Status.UP)` agree |
| DetailTables.Get | spring-boot-project/spring-boot-actuator/src/test/java/org/springframework/boot/actuate/health/HealthTests.java:59 | `getDetails().get(k)`: a value is found exactly when `k` is among the listed keys; it is the value mapped to `k`, and absence stands for Java's null |
| DetailTables.IsEmpty | spring-boot-project/spring-boot-actuator/src/test/java/org/springframework/boot/actuate/health/HealthTests.java:51 | `getDetails().isEmpty()`: no key is mapped (no contract of its own; `DetailTables.IsEmptyIffNoKeys` relates it to the key order) |
| DetailTables.IsEmptyIffNoKeys | spring-boot-project/spring-boot-actuator/src/test/java/org/springframework/boot/actuate/health/HealthTests.java:51 | a detail table is empty exactly when it lists no key |
| DetailTables.Put | spring-boot-project/spring-boot-actuator/src/test/java/org/springframework/boot/actuate/health/HealthTests.java:97-99 | after a put the key maps to the new value and every other key is unchanged; an existing key keeps its position and a new key is appended at the end |
| DetailTables.PutCommutes | spring-boot-project/spring-boot-actuator/src/test/java/org/springframework/boot/actuate/health/HealthTests.java:63-71 | puts of two different keys give the same mapping in either order |
| DetailTables.PutEach | spring-boot-project/spring-boot-actuator/src/test/java/org/springframework/boot/actuate/health/HealthTests.java:97-99 | a run of `LinkedHashMap.put` calls applied in order, as the tests build their maps at lines 97-99, 111-114, 126-131 and 145-146 (no contract of its own; `DetailTables.PutEachLastWins`, `DetailTables.PutEachOrder` and `DetailTables.PutEachConcat` state what it does) |
| DetailTables.PutEachLastWins | spring-boot-project/spring-boot-actuator/src/test/java/org/springframework/boot/actuate/health/HealthTests.java:110-122 | after a run of puts, each key maps to the value of its last put, and a key never put keeps its old value |
| DetailTables.PutEachOrder | spring-boot-project/spring-boot-actuator/src/test/java/org/springframework/boot/actuate/health/HealthTests.java:111-114 | a run of puts keeps the old key order and appends each new key where it is first put; a repeated key does not move |
| DetailTables.PutEachConcat | spring-boot-project/spring-boot-actuator/src/test/java/org/springframework/boot/actuate/health/HealthTests.java:143-153 | two runs of puts one after the other have the same effect as their concatenation, so mixed chains of calls compose |
| DetailTables.PutAll | spring-boot-project/spring-boot-actuator/src/test/java/org/springframework/boot/actuate/health/HealthTests.java:124-141 | `putAll` gives the union of both tables with the added table winning on shared keys; old keys keep their positions and new ones follow in the added table's order |
| DetailTables.PutAllIntoEmpty | spring-boot-project/spring-boot-actuator/src/test/java/org/springframework/boot/actuate/health/HealthTests.java:54-60 | copying a table entry by entry into an empty one reproduces it exactly, keys and order included |
| DetailTables.HashCode | spring-boot-project/spring-boot-actuator/src/test/java/org/springframework/boot/actuate/health/HealthTests.java:72-73 | `Map.hashCode()`: a 32-bit value, 0 for an empty table (its partner `DetailTables.HashCodeIgnoresOrder` shows it depends only on the mapping) |
| DetailTables.HashCodeIgnoresOrder | spring-boot-project/spring-boot-actuator/src/test/java/org/springframework/boot/actuate/health/HealthTests.java:72-73 | two detail tables with the same mapping have the same `Map.hashCode`, whatever their insertion order |
| Health.Equals | spring-boot-project/spring-boot-actuator/src/test/java/org/springframework/boot/actuate/health/HealthTests.java:69-71 | `equals`: the same status code and the same key-to-value mapping; insertion order is ignored (no contract of its own; see `Health.EqualsIffSameLookups`) |
| Health.EqualsIffSameLookups | spring-boot-project/spring-boot-actuator/src/test/java/org/springframework/boot/actuate/health/HealthTests.java:69-71 | two outcomes are equal exactly when their status codes agree and every key looks up the same detail in both |
| Health.HashCode | spring-boot-project/spring-boot-actuator/src/test/java/org/springframework/boot/actuate/health/HealthTests.java:72-73 | `hashCode`: a 32-bit value (its partner `Health.EqualsImpliesSameHash` shows it agrees with `equals`) |
| Health.EqualsIsEquivalence | spring-boot-project/spring-boot-actuator/src/test/java/org/springframework/boot/actuate/health/HealthTests.java:69-70 | `equals` is reflexive, symmetric and transitive |
| Health.EqualsImpliesSameHash | spring-boot-project/spring-boot-actuator/src/test/java/org/springframework/boot/actuate/health/HealthTests.java:72-73 | equal Health values have equal hash codes |
| Health.DetailsDifferNotEqual | spring-boot-project/spring-boot-actuator/src/test/java/org/springframework/boot/actuate/health/HealthTests.java:68-71 | Health values whose details differ at some key are not equal |
| Health.DetailOrderIrrelevant | spring-boot-project/spring-boot-actuator/src/test/java/org/springframework/boot/actuate/health/HealthTests.java:63-73 | adding two details in either order gives equal Health values with equal hash codes |
| Health.Builder.constructor | spring-boot-project/spring-boot-actuator/src/test/java/org/springframework/boot/actuate/health/HealthTests.java:157 | a new builder has no status yet and no details |
| Health.Builder.Create | spring-boot-project/spring-boot-actuator/src/test/java/org/springframework/boot/actuate/health/HealthTests.java:40-60 | a null status fails with "Status must not be null"; otherwise the builder holds that status and exactly the initial details, in their order |
| Health.Builder.SetStatus | spring-boot-project/spring-boot-actuator/src/test/java/org/springframework/boot/actuate/health/HealthTests.java:213-218 | no test line calls this setter directly (the cited test uses the static `Health.status(Status)`); a null status fails and leaves the builder unchanged; otherwise the status is overwritten; the details never change |
| Health.Builder.SetStatusCode | spring-boot-project/spring-boot-actuator/src/test/java/org/springframework/boot/actuate/health/HealthTests.java:206-211 | no test line calls this setter directly (the cited test uses the static `Health.status(String)`); a null code fails and leaves the builder unchanged; otherwise the status becomes the one the code names; the details never change |
| Health.Builder.Up | spring-boot-project/spring-boot-actuator/src/test/java/org/springframework/boot/actuate/health/HealthTests.java:176-181 | the status becomes UP and the details are untouched |
| Health.Builder.Down | spring-boot-project/spring-boot-actuator/src/test/java/org/springframework/boot/actuate/health/HealthTests.java:192-197 | the status becomes DOWN and the details are untouched |
| Health.Builder.Unknown | spring-boot-project/spring-boot-actuator/src/test/java/org/springframework/boot/actuate/health/HealthTests.java:162-167 | the status becomes UNKNOWN and the details are untouched |
| Health.Builder.OutOfService | spring-boot-project/spring-boot-actuator/src/test/java/org/springframework/boot/actuate/health/HealthTests.java:199-204 | the status becomes OUT_OF_SERVICE and the details are untouched |
| Health.Builder.WithDetail | spring-boot-project/spring-boot-actuator/src/test/java/org/springframework/boot/actuate/health/HealthTests.java:87-93 | the working table becomes the old one with the key put, adding to the existing details; the status is unchanged |
| Health.Builder.WithDetails | spring-boot-project/spring-boot-actuator/src/test/java/org/springframework/boot/actuate/health/HealthTests.java:95-107 | the working table becomes the old one with every entry of the given map put in order; the status is unchanged |
| Health.Builder.WithException | spring-boot-project/spring-boot-actuator/src/test/java/org/springframework/boot/actuate/health/HealthTests.java:77-85 | the key "error" is put with class name, ": ", message; other details and the status are unchanged |
| Health.Builder.Build | spring-boot-project/spring-boot-actuator/src/test/java/org/springframework/boot/actuate/health/HealthTests.java:47-52 | the Health built carries exactly the builder's current status and details |
| Health.Status | spring-boot-project/spring-boot-actuator/src/test/java/org/springframework/boot/actuate/health/HealthTests.java:213-218 | `Health.status(Status)` fails on null; otherwise it gives a new builder with that status and no details |
| Health.StatusCode | spring-boot-project/spring-boot-actuator/src/test/java/org/springframework/boot/actuate/health/HealthTests.java:206-211 | `Health.status(String)` gives a new builder with the status the code names and no details |
| Health.Up | spring-boot-project/spring-boot-actuator/src/test/java/org/springframework/boot/actuate/health/HealthTests.java:101 | `Health.up()` gives a new builder with status UP and no details |
| Health.Down | spring-boot-project/spring-boot-actuator/src/test/java/org/springframework/boot/actuate/health/HealthTests.java:192-197 | `Health.down()` gives a new builder with status DOWN and no details |
| Health.DownWithException | spring-boot-project/spring-boot-actuator/src/test/java/org/springframework/boot/actuate/health/HealthTests.java:183-190 | `Health.down(ex)` gives a new builder with status DOWN and the single detail "error" describing the exception |
| Health.Unknown | spring-boot-project/spring-boot-actuator/src/test/java/org/springframework/boot/actuate/health/HealthTests.java:162-167 | no test line calls `Health.unknown()` directly (the cited test uses `new Health.Builder().unknown()`, which gives the same builder); `Health.unknown()` gives a new builder with status UNKNOWN and no details |
| Health.OutOfService | spring-boot-project/spring-boot-actuator/src/test/java/org/springframework/boot/actuate/health/HealthTests.java:199-204 | `Health.outOfService()` gives a new builder with status OUT_OF_SERVICE and no details |
| HealthTests.Singleton | spring-boot-project/spring-boot-actuator/src/test/java/org/springframework/boot/actuate/health/HealthTests.java:56 | `Collections.singletonMap(k, v)` maps `k` to `v` and nothing else |
| HealthTests.StatusMustNotBeNull | spring-boot-project/spring-boot-actuator/src/test/java/org/springframework/boot/actuate/health/HealthTests.java:40-45 | constructing a builder with a null status fails with an illegal-argument error whose message is "Status must not be null" |
| HealthTests.CreateWithStatus | spring-boot-project/spring-boot-actuator/src/test/java/org/springframework/boot/actuate/health/HealthTests.java:47-52 | the built Health has status UP and no details |
| HealthTests.CreateWithDetails | spring-boot-project/spring-boot-actuator/src/test/java/org/springframework/boot/actuate/health/HealthTests.java:54-60 | the built Health has status UP and detail a=b |
| HealthTests.EqualsAndHashCode | spring-boot-project/spring-boot-actuator/src/test/java/org/springframework/boot/actuate/health/HealthTests.java:62-73 | h1 equals itself and h2 and not h3, and h1 and h2 have equal hash codes |
| HealthTests.WithException | spring-boot-project/spring-boot-actuator/src/test/java/org/springframework/boot/actuate/health/HealthTests.java:77-85 | detail a=b survives and "error" is "java.lang.RuntimeException: bang" |
| HealthTests.WithDetails | spring-boot-project/spring-boot-actuator/src/test/java/org/springframework/boot/actuate/health/HealthTests.java:87-93 | the initial detail a=b and the added c=d are both present |
| HealthTests.WithDetailsMap | spring-boot-project/spring-boot-actuator/src/test/java/org/springframework/boot/actuate/health/HealthTests.java:95-107 | both entries of the added map are present |
| HealthTests.WithDetailsMapDuplicateKeys | spring-boot-project/spring-boot-actuator/src/test/java/org/springframework/boot/actuate/health/HealthTests.java:109-122 | the key put twice has its last value e, and c=d is untouched |
| HealthTests.WithMultipleDetailsMaps | spring-boot-project/spring-boot-actuator/src/test/java/org/springframework/boot/actuate/health/HealthTests.java:124-141 | every entry of both added maps is present |
| HealthTests.MixWithDetailsUsage | spring-boot-project/spring-boot-actuator/src/test/java/org/springframework/boot/actuate/health/HealthTests.java:143-153 | the entry from the map and the single added detail are both present |
| HealthTests.UnknownWithDetails | spring-boot-project/spring-boot-actuator/src/test/java/org/springframework/boot/actuate/health/HealthTests.java:155-160 | the built Health has status UNKNOWN and detail a=b |
| HealthTests.Unknown | spring-boot-project/spring-boot-actuator/src/test/java/org/springframework/boot/actuate/health/HealthTests.java:162-167 | the built Health has status UNKNOWN and no details |
| HealthTests.UpWithDetails | spring-boot-project/spring-boot-actuator/src/test/java/org/springframework/boot/actuate/health/HealthTests.java:169-174 | the built Health has status UP and detail a=b |
| HealthTests.Up | spring-boot-project/spring-boot-actuator/src/test/java/org/springframework/boot/actuate/health/HealthTests.java:176-181 | the built Health has status UP and no details |
| HealthTests.DownWithException | spring-boot-project/spring-boot-actuator/src/test/java/org/springframework/boot/actuate/health/HealthTests.java:183-190 | the built Health has status DOWN and "error" is "java.lang.RuntimeException: bang" |
| HealthTests.Down | spring-boot-project/spring-boot-actuator/src/test/java/org/springframework/boot/actuate/health/HealthTests.java:192-197 | the built Health has status DOWN and no details |
| HealthTests.OutOfService | spring-boot-project/spring-boot-actuator/src/test/java/org/springframework/boot/actuate/health/HealthTests.java:199-204 | the built Health has status OUT_OF_SERVICE and no details |
| HealthTests.StatusCode | spring-boot-project/spring-boot-actuator/src/test/java/org/springframework/boot/actuate/health/HealthTests.java:206-211 | building from the code "UP" gives status UP and no details |
| HealthTests.Status | spring-boot-project/spring-boot-actuator/src/test/java/org/springframework/boot/actuate/health/HealthTests.java:213-218 | building from `Status.UP` gives status UP and no details |

## Left out

- Health.Builder.Build: requires that a status has been set. A builder made with `new Builder()` and built before any status setter would get some default status, but the tests never do this and do not say which status it is.
- The hash-code inequality of `HealthTests.java:74` is not modelled. Unequal values may share a hash code, so only "equal implies equal hash code" is stated.
- Health.HashCode: `Health.java` is not part of this model. The way it combines the status hash and the details hash (13 times the status hash plus the details hash, wrapped to 32 bits) is this model's choice, and only its consistency with `equals` is proved.
- Health.Builder.Create: no test passes a null initial details map with a non-null status. The model's `None` for the initial details stands for the one-argument `new Builder(status)`, so what `new Builder(status, null)` does is not modelled.
- Health.StatusCode: no test passes a null code to `status(String)`. The model fails on it with the null-status message, but nothing in the source says so; the same holds for `Health.Builder.SetStatusCode`.
- Null keys, null detail values, a null map passed to `withDetails` and a null exception passed to `withException` are not modelled. The tests pass none of them, and the outcome is not stated.
- A status's description is not modelled. It does not take part in equality.
- Detail values other than strings are modelled as opaque objects with an identity. Their `hashCode` is taken to be that identity wrapped to 32 bits.
- `String.hashCode` sums Dafny characters, which are Unicode scalar values. Java sums UTF-16 code units, so the two differ for characters outside the Basic Multilingual Plane.
- Builder methods return the builder for chaining. Here a chain is written as successive calls on the same builder.
- Thread safety, serialization and the rest of the actuator (health indicators, aggregation, endpoints) are not part of this model.
