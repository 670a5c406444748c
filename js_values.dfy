/** The few pieces of JavaScript value semantics that the HelloPCF control relies on:
    a `string | null` field that also starts out `undefined`, the nullish-coalescing
    operator `??`, loose (in)equality between a string and such a field, template-literal
    interpolation, truthiness, and the TypeError thrown by a property access on `null`. */
module JsValues {

  /** The bound input as the host delivers it: `string | null`. */
  datatype Option<+T> = None | Some(value: T)

  /** The `name` field: never assigned (`undefined`), assigned `null`, or a string. */
  datatype NameValue = Unset | Null | Str(s: string)

  /** How a call into the control ended: normally, or with an uncaught TypeError. */
  datatype Completion = Normal | Threw

  /** The value `name` takes when it is assigned the host's `raw` value. */
  function FromRaw(raw: Option<string>): (n: NameValue)
    ensures n != Unset
    ensures raw.Some? <==> n.Str?
    ensures raw.Some? ==> n.s == raw.value
  {
    match raw
    case None => Null
    case Some(s) => Str(s)
  }

  /** `n ?? ""`: the string itself, or the empty string for `null` and `undefined`. */
  function Coalesce(n: NameValue): (r: string)
    ensures n.Str? ==> r == n.s
    ensures !n.Str? ==> r == ""
    ensures n.Str? <==> LooseEquals(r, n)
  {
    match n
    case Str(s) => s
    case _ => ""
  }

  /** JavaScript's `t == n` for a string `t`: a string is loosely equal to a string with the
      same characters and never to `null` or `undefined`. */
  function LooseEquals(t: string, n: NameValue): (r: bool)
    ensures r <==> n == Str(t)
  {
    match n
    case Str(s) => s == t
    case _ => false
  }

  /** What `${n}` renders inside a template literal. */
  function Interpolate(n: NameValue): (r: string)
    ensures n == Unset ==> r == "undefined"
    ensures n == Null ==> r == "null"
    ensures n.Str? ==> r == n.s
  {
    match n
    case Unset => "undefined"
    case Null => "null"
    case Str(s) => s
  }

  /** JavaScript truthiness of a `string | null`: `null` and `""` are falsy. */
  function Truthy(raw: Option<string>): (b: bool)
    ensures raw == None ==> !b
    ensures raw == Some("") ==> !b
    ensures raw.Some? && raw.value != "" ==> b
  {
    raw.Some? && raw.value != ""
  }

  predicate IsLineBreak(c: char)
  {
    c == '\r' || c == '\n'
  }

  predicate NoLineBreaks(s: string)
  {
    forall i :: 0 <= i < |s| ==> !IsLineBreak(s[i])
  }

  /** The value an `<input type="text">` holds after `value = s`: the browser's value
      sanitization strips every carriage return and line feed and keeps all else in order. */
  function TextInputValue(s: string): (r: string)
    ensures NoLineBreaks(r)
    ensures |r| <= |s|
    ensures r == s <==> NoLineBreaks(s)
    decreases |s|
  {
    if s == [] then []
    else if IsLineBreak(s[0]) then TextInputValue(s[1..])
    else [s[0]] + TextInputValue(s[1..])
  }

  /** Stripping one character keeps it unless it is a line break. */
  lemma TextInputValueOfChar(c: char)
    ensures TextInputValue([c]) == if IsLineBreak(c) then [] else [c]
  {
  }

  /** Stripping works character by character: with `TextInputValueOfChar` this says the
      stored value is the assigned one with every CR and LF removed and all else kept in
      order. */
  lemma {:induction false} TextInputValueAppend(a: string, b: string)
    ensures TextInputValue(a + b) == TextInputValue(a) + TextInputValue(b)
    decreases |a|
  {
    if a != [] {
      assert (a + b)[0] == a[0];
      assert (a + b)[1..] == a[1..] + b;
      TextInputValueAppend(a[1..], b);
    } else {
      assert a + b == b;
    }
  }
}
