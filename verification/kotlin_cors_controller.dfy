/**
 * The Kotlin `GreetingController` of the complete-kotlin project: one `AtomicLong`
 * shared by both routes, and content built with the string template "Hello, $name!".
 */
module KotlinCorsController {
  import opened JavaLong
  import opened Greetings
  import opened CorsController

  class GreetingController {
    var counter: Long

    constructor ()
      ensures counter == 0
    {
      counter := 0;
    }

    /** `GET /greeting`. */
    method Greeting(name: string) returns (greeting: Greetings.Greeting)
      modifies this
      ensures (counter, greeting) == Handle(old(counter), Request(GreetingRoute, name))
      ensures counter == IncrementAndGet(old(counter)) && greeting.id == counter
      ensures greeting.content == Content(name)
    {
      counter := IncrementAndGet(counter);
      greeting := Greetings.Greeting(counter, "Hello, " + name + "!");
    }

    /** `GET /greeting-javaconfig`: the same counter, the same template. */
    method GreetingWithJavaconfig(name: string) returns (greeting: Greetings.Greeting)
      modifies this
      ensures (counter, greeting) == Handle(old(counter), Request(JavaconfigRoute, name))
      ensures counter == IncrementAndGet(old(counter)) && greeting.id == counter
      ensures greeting.content == Content(name)
    {
      counter := IncrementAndGet(counter);
      greeting := Greetings.Greeting(counter, "Hello, " + name + "!");
    }
  }

  /**
   * Both routes called without a name on a fresh controller, as this project's integration
   * tests do, then the same name twice: ids 1, 2, 3, 4 and "Hello, World!".
   */
  method DefaultNameScenario()
  {
    var controller := new GreetingController();
    var annotated := controller.Greeting(ResolveName(None));
    var javaconfig := controller.GreetingWithJavaconfig(ResolveName(None));
    assert annotated == Greetings.Greeting(1, "Hello, World!");
    assert javaconfig == Greetings.Greeting(2, "Hello, World!");
    var ada := controller.Greeting("Ada");
    var adaAgain := controller.Greeting("Ada");
    assert ada.id == 3 && adaAgain.id == 4 && ada.content == adaAgain.content;
  }
}
