/**
 * The name-to-id registry of the initial project's `GreetingService`: a map from
 * names to ids and one counter. The first request for a name draws the next counter
 * value and stores it under that name; every later request for the name returns the
 * stored id and changes nothing.
 *
 * The pure part states the service as a value (`Registry`) and one request as a
 * function on it (`GetOrAssign`); the class at the end is the service itself, whose
 * method updates its fields in place and is proved to follow `GetOrAssign`.
 */
module NameRegistry {
  import opened JavaLong
  import opened Greetings

  /** The service's state: `nameStore` and the value of `counter`. */
  datatype Registry = Registry(store: map<string, Long>, counter: Long)

  /** A freshly constructed service: an empty `HashMap` and a zero `AtomicLong`. */
  const Empty: Registry := Registry(map[], 0)

  /**
   * The registry invariant: the counter counts the stored names, every stored id
   * lies in 1..counter, and no two names share an id.
   */
  ghost predicate Consistent(r: Registry)
  {
    && |r.store| == r.counter
    && (forall n :: n in r.store ==> 1 <= r.store[n] <= r.counter)
    && (forall n, m :: n in r.store && m in r.store && n != m ==> r.store[n] != r.store[m])
  }

  /** `r'` keeps every entry of `r`: entries are never changed or removed. */
  ghost predicate Extends(r: Registry, r': Registry)
  {
    forall n :: n in r.store ==> n in r'.store && r'.store[n] == r.store[n]
  }

  /** One call of `getGreeting(name)`: the new state and the greeting returned. */
  function GetOrAssign(r: Registry, name: string): (Registry, Greeting)
  {
    if name !in r.store then
      var id := IncrementAndGet(r.counter);
      (Registry(r.store[name := id], id), Greeting(id, Content(name)))
    else
      (r, Greeting(r.store[name], Content(name)))
  }

  /**
   * A call keeps the invariant (unless a new name meets a counter that has reached
   * the largest `long`), returns the id now stored under the name, and that id is
   * at least 1.
   */
  lemma GetOrAssignKeepsConsistent(r: Registry, name: string)
    requires Consistent(r)
    requires name in r.store || r.counter < MaxLong
    ensures var (r', g) := GetOrAssign(r, name);
      && Consistent(r')
      && name in r'.store && g.id == r'.store[name]
      && 1 <= g.id <= r'.counter
  {
  }

  /** The map only grows: a call never overwrites or removes an entry. */
  lemma GetOrAssignExtends(r: Registry, name: string)
    ensures Extends(r, GetOrAssign(r, name).0)
  {
  }

  /**
   * Asking twice in a row for the same name returns the same greeting, and the
   * second call changes neither the map nor the counter.
   */
  lemma GetOrAssignTwice(r: Registry, name: string)
    ensures var (r1, g1) := GetOrAssign(r, name);
      GetOrAssign(r1, name) == (r1, g1)
  {
  }

  /** A sequence of `getGreeting` calls, in order: the final state and every greeting returned. */
  function Replay(r: Registry, names: seq<string>): (Registry, seq<Greeting>)
    decreases |names|
  {
    if names == [] then (r, [])
    else
      var (r1, gs) := Replay(r, names[..|names| - 1]);
      var (r2, g) := GetOrAssign(r1, names[|names| - 1]);
      (r2, gs + [g])
  }

  /** The set of names occurring in `names`. */
  ghost function Seen(names: seq<string>): set<string>
  {
    set i | 0 <= i < |names| :: names[i]
  }

  /** Adding one element to a sequence adds it to the set of names seen. */
  lemma SeenSnoc(prefix: seq<string>, name: string)
    ensures Seen(prefix + [name]) == Seen(prefix) + {name}
  {
    var names := prefix + [name];
    forall x | x in Seen(names) ensures x in Seen(prefix) + {name} {
      var i :| 0 <= i < |names| && names[i] == x;
      if i < |prefix| { assert prefix[i] == x; }
    }
    forall x | x in Seen(prefix) ensures x in Seen(names) {
      var i :| 0 <= i < |prefix| && prefix[i] == x;
      assert names[i] == x;
    }
    assert names[|prefix|] == name;
  }

  /**
   * What a history of calls records: the map holds exactly the names asked for,
   * the counter has not outrun the calls, and each greeting carries the id now
   * stored for its name and the content built from that name.
   */
  ghost predicate Records(names: seq<string>, r: Registry, gs: seq<Greeting>)
  {
    && r.store.Keys == Seen(names)
    && r.counter <= |names|
    && |gs| == |names|
    && (forall i :: 0 <= i < |names| ==> names[i] in r.store && gs[i].id == r.store[names[i]])
    && (forall i :: 0 <= i < |names| ==> gs[i].content == Content(names[i]))
  }

  /** What a history of calls leaves behind: the registry invariant and `Records`. */
  ghost predicate Tracks(names: seq<string>, r: Registry, gs: seq<Greeting>)
  {
    Consistent(r) && Records(names, r, gs)
  }

  /** One more call keeps `Records`: earlier greetings still carry their name's stored id. */
  lemma RecordsStep(prefix: seq<string>, name: string, r: Registry, gs: seq<Greeting>)
    requires Records(prefix, r, gs)
    ensures var (r', g) := GetOrAssign(r, name);
      Records(prefix + [name], r', gs + [g])
  {
    GetOrAssignExtends(r, name);
    SeenSnoc(prefix, name);
    var r' := GetOrAssign(r, name).0;
    var g := GetOrAssign(r, name).1;
    var names, gs' := prefix + [name], gs + [g];
    assert r'.store.Keys == r.store.Keys + {name};
    assert name in r'.store && g.id == r'.store[name] && g.content == Content(name);
    forall i | 0 <= i < |names|
      ensures names[i] in r'.store && gs'[i].id == r'.store[names[i]]
      ensures gs'[i].content == Content(names[i])
    {
      if i < |prefix| {
        assert names[i] == prefix[i] && gs'[i] == gs[i];
      }
    }
  }

  /** One more call keeps `Tracks`. */
  lemma TracksStep(prefix: seq<string>, name: string, r: Registry, gs: seq<Greeting>)
    requires Tracks(prefix, r, gs)
    requires |prefix| < MaxLong
    ensures var (r', g) := GetOrAssign(r, name);
      Tracks(prefix + [name], r', gs + [g])
  {
    GetOrAssignKeepsConsistent(r, name);
    RecordsStep(prefix, name, r, gs);
  }

  /** From a fresh service, after any sequence of calls, `Tracks` holds. */
  lemma {:induction false} ReplayFromEmpty(names: seq<string>)
    requires |names| <= MaxLong
    ensures var (r, gs) := Replay(Empty, names); Tracks(names, r, gs)
  {
    if names == [] {
      assert Seen(names) == {};
    } else {
      var k := |names| - 1;
      var prefix := names[..k];
      ReplayFromEmpty(prefix);
      var r1, gs1 := Replay(Empty, prefix).0, Replay(Empty, prefix).1;
      TracksStep(prefix, names[k], r1, gs1);
      assert prefix + [names[k]] == names;
      assert Replay(Empty, names).0 == GetOrAssign(r1, names[k]).0;
      assert Replay(Empty, names).1 == gs1 + [GetOrAssign(r1, names[k]).1];
    }
  }

  /**
   * Two calls in one history return the same id exactly when they asked for the
   * same name, and every id returned is positive.
   */
  lemma ReplaySameIdIffSameName(names: seq<string>, i: nat, j: nat)
    requires |names| <= MaxLong
    requires i < |names| && j < |names|
    ensures var gs := Replay(Empty, names).1;
      |gs| == |names| && 1 <= gs[i].id && (gs[i].id == gs[j].id <==> names[i] == names[j])
  {
    ReplayFromEmpty(names);
  }

  /** The counter equals the number of distinct names seen so far. */
  lemma ReplayCountsNames(names: seq<string>)
    requires |names| <= MaxLong
    ensures Replay(Empty, names).0.counter == |Seen(names)|
  {
    ReplayFromEmpty(names);
    var r := Replay(Empty, names).0;
    assert |r.store| == |r.store.Keys|;
  }

  /** The service object of `GreetingService.java`. */
  class GreetingService {
    var nameStore: map<string, Long>
    var counter: Long

    ghost function State(): Registry
      reads this
    {
      Registry(nameStore, counter)
    }

    ghost predicate Valid()
      reads this
    {
      Consistent(State())
    }

    constructor ()
      ensures State() == Empty && Valid()
    {
      nameStore := map[];
      counter := 0;
    }

    /** `getGreeting(name)`: look the name up, assigning the next id the first time. */
    method GetGreeting(name: string) returns (greeting: Greeting)
      modifies this
      ensures (State(), greeting) == GetOrAssign(old(State()), name)
      ensures old(name in nameStore) ==>
        nameStore == old(nameStore) && counter == old(counter) && greeting.id == old(nameStore[name])
      ensures old(name !in nameStore) ==>
        counter == IncrementAndGet(old(counter)) && nameStore == old(nameStore)[name := counter] && greeting.id == counter
      ensures greeting.content == Content(name)
      ensures Extends(old(State()), State())
      ensures old(Valid()) && (old(name in nameStore) || old(counter) < MaxLong) ==>
        Valid() && 1 <= greeting.id <= counter
    {
      var id: Long;
      if name !in nameStore {
        id := IncrementAndGet(counter);
        counter := id;
        nameStore := nameStore[name := id];
      } else {
        id := nameStore[name];
      }
      FormatTemplate(name);
      greeting := Greeting(id, Format(Template, [name]).value);
      GetOrAssignExtends(old(State()), name);
      if old(Valid()) && (old(name in nameStore) || old(counter) < MaxLong) {
        GetOrAssignKeepsConsistent(old(State()), name);
      }
    }
  }

  /** The request sequence Ada, Ada, Grace against a fresh service. */
  method AdaGraceScenario()
  {
    var service := new GreetingService();
    var first := service.GetGreeting("Ada");
    assert first == Greeting(1, "Hello, Ada!");
    var again := service.GetGreeting("Ada");
    assert again == Greeting(1, "Hello, Ada!");
    var grace := service.GetGreeting("Grace");
    assert grace == Greeting(2, "Hello, Grace!");
    assert service.counter == 2;
  }
}
