/**
 * The Java `GreetingController` of the complete project: one `AtomicLong` shared by
 * both routes, and content built with `String.format("Hello, %s!", name)`.
 */
module JavaCorsController {
  import opened JavaLong
  import opened Greetings
  import opened CorsController

  class GreetingController {
    var counter: Long

    constructor ()
      ensures counter == 0
    {
      counter := 0;
    }

    /** `POST /greeting`. */
    method Greeting(name: string) returns (greeting: Greetings.Greeting)
      modifies this
      ensures (counter, greeting) == Handle(old(counter), Request(GreetingRoute, name))
      ensures counter == IncrementAndGet(old(counter)) && greeting.id == counter
      ensures greeting.content == Content(name)
    {
      counter := IncrementAndGet(counter);
      FormatTemplate(name);
      greeting := Greetings.Greeting(counter, Format(Template, [name]).value);
    }

    /** `POST /greeting-javaconfig`: the same counter, the same template. */
    method GreetingWithJavaconfig(name: string) returns (greeting: Greetings.Greeting)
      modifies this
      ensures (counter, greeting) == Handle(old(counter), Request(JavaconfigRoute, name))
      ensures counter == IncrementAndGet(old(counter)) && greeting.id == counter
      ensures greeting.content == Content(name)
    {
      counter := IncrementAndGet(counter);
      FormatTemplate(name);
      greeting := Greetings.Greeting(counter, Format(Template, [name]).value);
    }
  }

  /** Both routes called without a name on a fresh controller. */
  method DefaultNameScenario()
  {
    var controller := new GreetingController();
    var annotated := controller.Greeting(ResolveName(None));
    var javaconfig := controller.GreetingWithJavaconfig(ResolveName(None));
    assert annotated == Greetings.Greeting(1, "Hello, World!");
    assert javaconfig == Greetings.Greeting(2, "Hello, World!");
  }
}
