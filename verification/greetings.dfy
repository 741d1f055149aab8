/**
 * The value every greeting endpoint returns, `{ id, content }`, and the two ways the
 * source builds its content: Java's `String.format("Hello, %s!", name)` and Kotlin's
 * string template `"Hello, $name!"`. The request parameter `name` is optional and
 * defaults to "World".
 */
module Greetings {
  import opened JavaLong

  datatype Option<T> = None | Some(value: T)

  datatype Result<T, E> = Ok(value: T) | Err(error: E)

  /** The two `java.util.Formatter` failures the reduced formatter below can raise. */
  datatype FormatError =
    | MissingFormatArgument    // a `%s` with no argument left to consume
    | UnknownFormatConversion  // a `%` followed by something other than `s` or `%`, or by nothing

  /** The response body: the id drawn from a counter and the greeting text. */
  datatype Greeting = Greeting(id: Long, content: string)

  const DefaultName: string := "World"

  /** The Java format string shared by the Java sources. */
  const Template: string := "Hello, %s!"

  /**
   * `@RequestParam(required = false, defaultValue = "World") name`: the default
   * replaces a parameter that is absent and also one whose value is empty.
   */
  function ResolveName(param: Option<string>): string
  {
    match param
    case None => DefaultName
    case Some(name) => if name == "" then DefaultName else name
  }

  /** Kotlin's `"Hello, $name!"`: the greeting text for `name`. */
  function Content(name: string): string
  {
    "Hello, " + name + "!"
  }

  function Prepend(s: string, r: Result<string, FormatError>): Result<string, FormatError>
  {
    match r
    case Ok(t) => Ok(s + t)
    case Err(e) => Err(e)
  }

  /**
   * `String.format(template, args...)` restricted to the conversions `%s` (the next
   * argument, in order) and `%%` (a literal percent sign). Surplus arguments are
   * ignored, as Java does; a `%s` with no argument left fails.
   */
  function Format(template: string, args: seq<string>): Result<string, FormatError>
    decreases |template|
  {
    if template == [] then Ok([])
    else if template[0] != '%' then Prepend([template[0]], Format(template[1..], args))
    else if |template| == 1 then Err(UnknownFormatConversion)
    else if template[1] == '%' then Prepend("%", Format(template[2..], args))
    else if template[1] == 's' then
      if args == [] then Err(MissingFormatArgument)
      else Prepend(args[0], Format(template[2..], args[1..]))
    else Err(UnknownFormatConversion)
  }

  predicate PlainText(s: string)
  {
    forall i :: 0 <= i < |s| ==> s[i] != '%'
  }

  /** Text without a conversion is copied through unchanged, whatever the arguments. */
  lemma {:induction false} FormatPlainPrefix(p: string, t: string, args: seq<string>)
    requires PlainText(p)
    ensures Format(p + t, args) == Prepend(p, Format(t, args))
  {
    if p == [] {
      assert p + t == t;
      match Format(t, args)
      case Ok(s) => assert p + s == s;
      case Err(_) =>
    } else {
      assert (p + t)[0] == p[0] != '%';
      assert (p + t)[1..] == p[1..] + t;
      FormatPlainPrefix(p[1..], t, args);
      assert Format(p + t, args) == Prepend([p[0]], Format(p[1..] + t, args));
      match Format(t, args)
      case Ok(s) => assert [p[0]] + (p[1..] + s) == p + s;
      case Err(_) =>
    }
  }

  /**
   * A template with exactly one `%s` between two runs of plain text, formatted with
   * one argument, puts the argument in place of the conversion.
   */
  lemma FormatSingleConversion(p: string, q: string, arg: string)
    requires PlainText(p) && PlainText(q)
    ensures Format(p + "%s" + q, [arg]) == Ok(p + arg + q)
  {
    var conversion := "%s" + q;
    assert p + "%s" + q == p + conversion;
    FormatPlainPrefix(p, conversion, [arg]);
    assert conversion[2..] == q && [arg][1..] == [];
    assert Format(conversion, [arg]) == Prepend(arg, Format(q, []));
    assert q + [] == q;
    FormatPlainPrefix(q, [], []);
    assert p + (arg + q) == p + arg + q;
  }

  /**
   * The Java template and the Kotlin string template agree: formatting
   * "Hello, %s!" with the single argument `name` succeeds and yields `Content(name)`.
   */
  lemma FormatTemplate(name: string)
    ensures Format(Template, [name]) == Ok(Content(name))
  {
    assert Template == "Hello, " + "%s" + "!";
    FormatSingleConversion("Hello, ", "!", name);
  }

  /** Distinct names give distinct greeting texts, and equal names equal texts. */
  lemma ContentInjective(a: string, b: string)
    ensures Content(a) == Content(b) <==> a == b
  {
    if Content(a) == Content(b) {
      assert a == Content(a)[7..|Content(a)| - 1];
      assert b == Content(b)[7..|Content(b)| - 1];
    }
  }

  /**
   * "Hello, World!" is produced exactly when the parameter is absent, empty, or
   * itself "World".
   */
  lemma DefaultGreetingContent(param: Option<string>)
    ensures Content(ResolveName(param)) == "Hello, World!" <==>
      param == None || param == Some("") || param == Some(DefaultName)
  {
    assert Content(DefaultName) == "Hello, World!";
    ContentInjective(ResolveName(param), DefaultName);
  }
}
