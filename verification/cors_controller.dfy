/**
 * What the two complete `GreetingController`s (Java and Kotlin) do, stated once on
 * values. Each controller has one counter shared by its two routes, `/greeting` and
 * `/greeting-javaconfig`; every call of either route increments it and returns the
 * new value with "Hello, <name>!". There is no per-name memory.
 */
module CorsController {
  import opened JavaLong
  import opened Greetings

  datatype Route = GreetingRoute | JavaconfigRoute

  /** One request: the route it reached and its already-resolved `name` parameter. */
  datatype Request = Request(route: Route, name: string)

  /** One handler call on counter value `counter`: the new counter and the response. */
  function Handle(counter: Long, request: Request): (Long, Greeting)
  {
    var id := IncrementAndGet(counter);
    (id, Greeting(id, Content(request.name)))
  }

  /** Requests handled in order, on either route: the final counter and every response. */
  function Serve(counter: Long, requests: seq<Request>): (Long, seq<Greeting>)
    decreases |requests|
  {
    if requests == [] then (counter, [])
    else
      var before := Serve(counter, requests[..|requests| - 1]);
      var after := Handle(before.0, requests[|requests| - 1]);
      (after.0, before.1 + [after.1])
  }

  /**
   * Unless the counter would pass the largest `long`, the i-th response of any
   * interleaving of the two routes carries id counter + i + 1 and the greeting for the
   * i-th name, and the counter ends advanced by the number of requests.
   */
  lemma {:induction false} ServeNumbersConsecutively(counter: Long, requests: seq<Request>)
    requires counter + |requests| <= MaxLong
    ensures var (c, gs) := Serve(counter, requests);
      && c == counter + |requests|
      && |gs| == |requests|
      && forall i :: 0 <= i < |requests| ==> gs[i] == Greeting(counter + i + 1, Content(requests[i].name))
  {
    if requests != [] {
      var k := |requests| - 1;
      var prefix := requests[..k];
      ServeNumbersConsecutively(counter, prefix);
      var before := Serve(counter, prefix);
      var gs := Serve(counter, requests).1;
      assert gs == before.1 + [Handle(before.0, requests[k]).1];
      forall i | 0 <= i < |requests|
        ensures gs[i] == Greeting(counter + i + 1, Content(requests[i].name))
      {
        if i < k {
          assert requests[i] == prefix[i];
        }
      }
    }
  }

  /**
   * Ids are strictly increasing with no gaps: two responses are apart by exactly
   * the number of requests between them, so no id is ever returned twice.
   */
  lemma IdsIncreaseWithoutGaps(counter: Long, requests: seq<Request>, i: nat, j: nat)
    requires counter + |requests| <= MaxLong
    requires i < j < |requests|
    ensures var gs := Serve(counter, requests).1;
      |gs| == |requests| && gs[i].id < gs[j].id && gs[j].id - gs[i].id == j - i
  {
    ServeNumbersConsecutively(counter, requests);
  }

  /**
   * On a freshly constructed controller the first id returned is 1, however many
   * requests follow it.
   */
  lemma {:induction false} FirstIdIsOne(requests: seq<Request>)
    requires 0 < |requests|
    ensures var gs := Serve(0, requests).1;
      |gs| == |requests| && gs[0].id == 1
  {
    var k := |requests| - 1;
    var prefix := requests[..k];
    if k == 0 {
      assert Serve(0, prefix) == (0, []);
    } else {
      FirstIdIsOne(prefix);
      assert Serve(0, requests).1 == Serve(0, prefix).1 + [Handle(Serve(0, prefix).0, requests[k]).1];
    }
  }

  /**
   * Two successive calls with the same name, on either route, get different ids,
   * for every counter value, even across the wrap-around of the `long` counter.
   */
  lemma SameNameFreshId(counter: Long, first: Route, second: Route, name: string)
    ensures var (c1, g1) := Handle(counter, Request(first, name));
      var (c2, g2) := Handle(c1, Request(second, name));
      g1.content == g2.content && g1.id != g2.id
  {
    IncrementTwiceDiffers(counter);
  }
}
