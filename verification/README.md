# Greeting counters and the name registry of gs-rest-service-cors

This project models, in Dafny, the state-keeping logic of the Spring "REST service with
CORS" guide:

- the initial project's `GreetingService`, a name-to-id registry: a `HashMap<String, Long>`
  and an `AtomicLong`; the first request for a name draws the next counter value and stores
  it, every later request for that name returns the stored id and changes nothing;
- the complete projects' `GreetingController`s, Java and Kotlin: one `AtomicLong` shared by
  the routes `/greeting` and `/greeting-javaconfig`; every call of either route increments it
  and returns `{ id, "Hello, <name>!" }`, with no memory of names.

Modules:

- `JavaLong` (`java_long.dfy`): the Java `long` type and `AtomicLong.incrementAndGet`, with the
  64-bit wrap-around written out (the largest `long` increments to the smallest).
- `Greetings` (`greetings.dfy`): the `Greeting` record, the default name "World", Kotlin's
  string template `Content(name)` and a reduced `String.format` (`Format`, conversions `%s`
  and `%%`) with the proof that the Java template "Hello, %s!" formats to the same text.
- `NameRegistry` (`name_registry.dfy`): the registry as a value (`Registry`, `GetOrAssign`,
  `Replay` for a history of calls) with its invariant and lemmas, and the class
  `GreetingService` whose method `GetGreeting` updates the map and the counter in place and is
  proved to follow `GetOrAssign`.
- `CorsController` (`cors_controller.dfy`): the behaviour common to both complete controllers
  as values (`Handle` for one call, `Serve` for any interleaving of the two routes) and its
  lemmas.
- `JavaCorsController` and `KotlinCorsController`: one class per source file, each with a
  `counter` field and the two route methods, proved to follow `Handle`. They differ only in
  how the content is built (`String.format` against the string template).

The initial project's `GreetingController` delegates both of its routes to one
`GreetingService` (its own counter is unused), so both routes are calls of
`GreetingService.GetGreeting` here.

A registry that is safe under concurrent requests needs the presence check and the
assignment to happen as one atomic step. The code does not make them one: it uses an
unsynchronised `HashMap` and a separate `containsKey`/`put`. The model follows the code and
describes calls one at a time.

In the Java complete project both routes are mapped to POST, and `/greeting` admits the origin
`http://localhost:8080` (lines 16-17 and 23 of the Java `GreetingController`),
while its integration tests send GET requests from `http://localhost:9000`. Those tests therefore
do not reach these handlers as written (an observation from reading the code, not executed). The
Kotlin project maps both routes to GET, matching its own tests. Neither difference affects the
counter or the content, which is all the model describes.

## Model

| member | source | states |
|---|---|---|
| `JavaLong.IncrementAndGet` | complete/src/main/java/com/example/restservicecors/GreetingController.java:14-20 | the new value is a `long` congruent to the old value + 1 modulo 2^64, and is exactly old + 1 below the largest `long` |
| `JavaLong.IncrementTwiceDiffers` | complete-kotlin/src/main/kotlin/com/example/restservicecors/GreetingController.kt:12-18 | two successive increments never yield the same value, even across the wrap-around |
| `Greetings.FormatPlainPrefix` | initial/src/main/java/hello/GreetingService.java:29 | formatting copies text without `%` through unchanged, ahead of the rest of the output |
| `Greetings.FormatSingleConversion` | complete/src/main/java/com/example/restservicecors/GreetingController.java:20 | a template with one `%s` between plain text, formatted with one argument, yields the text with the argument in place of the conversion |
| `Greetings.FormatTemplate` | initial/src/main/java/hello/GreetingService.java:14 | `String.format("Hello, %s!", name)` succeeds and equals "Hello, " + name + "!", the Kotlin template's text |
| `Greetings.ContentInjective` | complete-kotlin/src/main/kotlin/com/example/restservicecors/GreetingController.kt:18 | two greeting texts are equal if and only if the names are equal |
| `Greetings.DefaultGreetingContent` | complete-kotlin/src/main/kotlin/com/example/restservicecors/GreetingController.kt:16-18 | the content is "Hello, World!" if and only if the name parameter is absent, empty, or "World" (Spring substitutes the default for an absent and for an empty value) |
| `NameRegistry.GetOrAssignKeepsConsistent` | initial/src/main/java/hello/GreetingService.java:21-27 | one call keeps the invariant (counter = number of names, ids in 1..counter, pairwise distinct) and returns the id now stored for the name, at least 1 |
| `NameRegistry.GetOrAssignExtends` | initial/src/main/java/hello/GreetingService.java:21-27 | a call never changes or removes an existing entry |
| `NameRegistry.GetOrAssignTwice` | initial/src/main/java/hello/GreetingService.java:25-26 | a second call with the same name returns the same greeting and changes neither map nor counter |
| `NameRegistry.RecordsStep` | initial/src/main/java/hello/GreetingService.java:21-29 | after one more call the keys are the names seen, the counter has not outrun the calls, and every greeting so far still carries its name's stored id and its content |
| `NameRegistry.TracksStep` | initial/src/main/java/hello/GreetingService.java:17-30 | one more call keeps every earlier greeting's id equal to its name's stored id, the keys equal to the names seen, and the invariant |
| `NameRegistry.ReplayFromEmpty` | initial/src/main/java/hello/GreetingService.java:12-30 | after any history of calls on a fresh service the invariant holds, the keys are exactly the names asked for, and each greeting carries its name's final id and content |
| `NameRegistry.ReplaySameIdIffSameName` | initial/src/main/java/hello/GreetingService.java:21-27 | in any history two calls get the same id if and only if they asked for the same name; every id is positive |
| `NameRegistry.ReplayCountsNames` | initial/src/main/java/hello/GreetingService.java:12-23 | after any history the counter equals the number of distinct names asked for |
| `NameRegistry.GreetingService.constructor` | initial/src/main/java/hello/GreetingService.java:12-15 | a new service has an empty map, a zero counter, and satisfies the invariant |
| `NameRegistry.GreetingService.GetGreeting` | initial/src/main/java/hello/GreetingService.java:17-30 | new name: counter advanced by one and stored under the name, which is returned; known name: stored id returned, map and counter unchanged; content "Hello, name!"; entries kept; invariant preserved |
| `CorsController.ServeNumbersConsecutively` | complete-kotlin/src/main/kotlin/com/example/restservicecors/GreetingController.kt:12-25 | over any interleaving of both routes the i-th response is (counter + i + 1, "Hello, name_i!") and the counter advances by the number of calls |
| `CorsController.IdsIncreaseWithoutGaps` | complete/src/main/java/com/example/restservicecors/GreetingController.java:14-27 | ids across both routes are strictly increasing and consecutive: two responses differ by exactly the number of calls between them |
| `CorsController.FirstIdIsOne` | complete/src/main/java/com/example/restservicecors/GreetingController.java:14-20 | the first id a fresh controller returns is 1, however many requests follow |
| `CorsController.SameNameFreshId` | complete/src/main/java/com/example/restservicecors/GreetingController.java:18-26 | two successive calls with the same name, on either route, get the same content and different ids |
| `JavaCorsController.GreetingController.constructor` | complete/src/main/java/com/example/restservicecors/GreetingController.java:14 | the counter starts at 0 |
| `JavaCorsController.GreetingController.Greeting` | complete/src/main/java/com/example/restservicecors/GreetingController.java:16-21 | the counter is incremented and the response is (new counter, "Hello, name!"), as `Handle` says |
| `JavaCorsController.GreetingController.GreetingWithJavaconfig` | complete/src/main/java/com/example/restservicecors/GreetingController.java:23-27 | the same shared counter is incremented and the response is (new counter, "Hello, name!") |
| `KotlinCorsController.GreetingController.constructor` | complete-kotlin/src/main/kotlin/com/example/restservicecors/GreetingController.kt:12 | the counter starts at 0 |
| `KotlinCorsController.GreetingController.Greeting` | complete-kotlin/src/main/kotlin/com/example/restservicecors/GreetingController.kt:14-19 | the counter is incremented and the response is (new counter, "Hello, $name!"), as `Handle` says |
| `KotlinCorsController.GreetingController.GreetingWithJavaconfig` | complete-kotlin/src/main/kotlin/com/example/restservicecors/GreetingController.kt:21-25 | the same shared counter is incremented and the response is (new counter, "Hello, $name!") |

## Left out

- `complete/src/main/java/hello/SmartFilter.java`, the filter that runs the handler chain twice on wrapped requests and in-memory responses: it is disabled (its `@Component` is commented out) and consists of servlet wrappers and calls into a filter chain whose code is not part of this model.
- The initial project's `GreetingController`: both routes only delegate to `GreetingService.getGreeting`; its own counter is never used.
- The CORS configuration (`@CrossOrigin`, `addCorsMappings`), Spring bootstrap, HTTP method mappings, request binding and JSON serialisation: framework behaviour. The `name` parameter arrives as an optional string; `Greetings.ResolveName` models only the substitution of the default "World" for an absent or empty value.
- `println`/`System.out` logging in the handlers, and the browser scripts `hello.js`.
- Concurrency: the `AtomicLong`s and the unsynchronised `HashMap` under simultaneous requests; every call is modelled as happening alone, in sequence.
- `Greetings.Format`: only the `%s` and `%%` conversions of `java.util.Formatter`; any other conversion is reported as `UnknownFormatConversion`, and a null argument (printed "null" by Java) cannot occur because names are never null here.
- `NameRegistry.ReplayFromEmpty`, `NameRegistry.ReplaySameIdIffSameName`, `NameRegistry.ReplayCountsNames`, `NameRegistry.TracksStep`: stated for histories of at most 2^63 - 1 calls; past that many distinct names the `long` counter wraps to negative ids, which `JavaLong.IncrementAndGet` models but these lemmas do not cover.
- `NameRegistry.GetOrAssignKeepsConsistent`: stated for a known name or a counter below the largest `long`, for the same reason.
- `CorsController.ServeNumbersConsecutively`, `CorsController.IdsIncreaseWithoutGaps`: stated while the counter stays within `long`; past 2^63 - 1 calls the ids wrap (`CorsController.SameNameFreshId` and `CorsController.FirstIdIsOne` hold without that bound).
