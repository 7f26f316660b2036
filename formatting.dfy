/** `str.format(**params)` restricted to plain `{name}` fields and the `{{` / `}}` escapes. */
module Formatting {
  import opened Base
  import opened Strings

  /** Puts `s` in front of a successful result; a failure is passed on. */
  function Prepend(s: string, r: Result<string, Error>): Result<string, Error> {
    match r
    case Success(v) => Success(s + v)
    case Failure(e) => Failure(e)
  }

  /** A position one further on, when there is one. */
  function Shift(r: Option<nat>): Option<nat> {
    match r
    case None => None
    case Some(i) => Some(i + 1)
  }

  /** The position of the `}` that closes a field, counting the braces nested in it; `depth`
      fields are open. */
  function Close(s: string, depth: nat): (r: Option<nat>)
    requires depth >= 1
    ensures r.Some? ==> r.value < |s| && s[r.value] == '}'
    decreases |s|
  {
    if s == [] then None
    else if s[0] == '}' then (if depth == 1 then Some(0) else Shift(Close(s[1..], depth - 1)))
    else if s[0] == '{' then Shift(Close(s[1..], depth + 1))
    else Shift(Close(s[1..], depth))
  }

  /** A field name of decimal digits asks for a positional argument. */
  predicate Positional(name: string) {
    forall i :: 0 <= i < |name| ==> '0' <= name[i] <= '9'
  }

  /** Fills a template left to right. `{{` and `}}` stand for single braces; a lone `}` or a `{`
      whose field is not closed is a ValueError. A field ends at the `}` that balances the
      braces inside it. A field whose name is empty or made of digits asks for a positional
      argument, of which there are none (IndexError); any other name that is not a parameter
      is a KeyError naming it. */
  function Format(t: string, params: map<string, string>): Result<string, Error>
    decreases |t|
  {
    if t == [] then Success([])
    else if t[0] == '{' then
      if |t| > 1 && t[1] == '{' then Prepend("{", Format(t[2..], params))
      else match Close(t[1..], 1)
        case None => Failure(ValueError)
        case Some(j) =>
          var name := t[1..j + 1];
          if Positional(name) then Failure(IndexError)
          else if name !in params then Failure(KeyError(name))
          else Prepend(params[name], Format(t[j + 2..], params))
    else if t[0] == '}' then
      if |t| > 1 && t[1] == '}' then Prepend("}", Format(t[2..], params))
      else Failure(ValueError)
    else Prepend([t[0]], Format(t[1..], params))
  }

  /** A field closed in `a` is closed at the same place in any extension of `a`. */
  lemma {:induction false} CloseAppend(a: string, b: string, depth: nat)
    requires depth >= 1 && Close(a, depth).Some?
    ensures Close(a + b, depth) == Close(a, depth)
    decreases |a|
  {
    assert (a + b)[0] == a[0] && (a + b)[1..] == a[1..] + b;
    if a[0] == '}' {
      if depth > 1 {
        CloseAppend(a[1..], b, depth - 1);
      }
    } else if a[0] == '{' {
      CloseAppend(a[1..], b, depth + 1);
    } else {
      CloseAppend(a[1..], b, depth);
    }
  }

  /** A name without braces is closed by the `}` that follows it. */
  lemma {:induction false} CloseName(name: string, rest: string)
    requires '{' !in name && '}' !in name
    ensures Close(name + "}" + rest, 1) == Some(|name|)
    decreases |name|
  {
    if name != [] {
      assert (name + "}" + rest)[0] == name[0];
      assert (name + "}" + rest)[1..] == name[1..] + "}" + rest;
      CloseName(name[1..], rest);
    }
  }

  /** A template without braces is its own expansion, whatever the parameters. */
  lemma {:induction false} FormatLiteral(t: string, params: map<string, string>)
    requires '{' !in t && '}' !in t
    ensures Format(t, params) == Success(t)
  {
    if t != [] {
      FormatLiteral(t[1..], params);
      assert [t[0]] + t[1..] == t;
    }
  }

  lemma PrependPrepend(s: string, t: string, r: Result<string, Error>)
    ensures Prepend(s, Prepend(t, r)) == Prepend(s + t, r)
  {
    if r.Success? {
      assert s + (t + r.value) == (s + t) + r.value;
    }
  }

  /** Expansion works piece by piece: once a prefix expands on its own, the whole template
      expands to that expansion followed by the expansion of the rest. */
  lemma {:induction false} FormatAppend(a: string, b: string, params: map<string, string>)
    requires Format(a, params).Success?
    ensures Format(a + b, params) == Prepend(Format(a, params).value, Format(b, params))
  {
    var fb := Format(b, params);
    if a == [] {
      assert a + b == b;
      if fb.Success? { assert [] + fb.value == fb.value; }
    } else if a[0] == '{' && |a| > 1 && a[1] == '{' {
      assert (a + b)[..2] == "{{" && (a + b)[2..] == a[2..] + b;
      FormatAppend(a[2..], b, params);
      PrependPrepend("{", Format(a[2..], params).value, fb);
    } else if a[0] == '{' {
      var j := Close(a[1..], 1).value;
      assert j + 2 <= |a|;
      assert (a + b)[0] == '{' && (|a + b| > 1 ==> (a + b)[1] != '{');
      assert (a + b)[1..] == a[1..] + b;
      CloseAppend(a[1..], b, 1);
      var name := a[1..j + 1];
      assert (a + b)[1..j + 1] == name;
      assert (a + b)[j + 2..] == a[j + 2..] + b;
      FormatAppend(a[j + 2..], b, params);
      PrependPrepend(params[name], Format(a[j + 2..], params).value, fb);
    } else if a[0] == '}' {
      assert (a + b)[..2] == "}}" && (a + b)[2..] == a[2..] + b;
      FormatAppend(a[2..], b, params);
      PrependPrepend("}", Format(a[2..], params).value, fb);
    } else {
      assert (a + b)[0] == a[0] && (a + b)[1..] == a[1..] + b;
      FormatAppend(a[1..], b, params);
      PrependPrepend([a[0]], Format(a[1..], params).value, fb);
    }
  }

  /** A field `{name}` is replaced by its parameter and the rest of the template follows. */
  lemma FormatField(name: string, rest: string, params: map<string, string>)
    requires !Positional(name) && '{' !in name && '}' !in name && name in params
    ensures Format("{" + name + "}" + rest, params) == Prepend(params[name], Format(rest, params))
  {
    var t := "{" + name + "}" + rest;
    assert t[1..] == name + "}" + rest;
    CloseName(name, rest);
    assert t[1..|name| + 1] == name;
    assert t[|name| + 2..] == rest;
  }

  /** A field naming no parameter is a KeyError that names it. */
  lemma FormatMissingField(name: string, rest: string, params: map<string, string>)
    requires !Positional(name) && '{' !in name && '}' !in name && name !in params
    ensures Format("{" + name + "}" + rest, params) == Failure(KeyError(name))
  {
    var t := "{" + name + "}" + rest;
    assert t[1..] == name + "}" + rest;
    CloseName(name, rest);
    assert t[1..|name| + 1] == name;
  }

  /** A field of digits, such as `{0}`, is an IndexError whatever the parameters, since the
      template is filled from keyword parameters only. */
  lemma FormatPositionalField(name: string, rest: string, params: map<string, string>)
    requires Positional(name) && '{' !in name && '}' !in name
    ensures Format("{" + name + "}" + rest, params) == Failure(IndexError)
  {
    var t := "{" + name + "}" + rest;
    assert t[1..] == name + "}" + rest;
    CloseName(name, rest);
    assert t[1..|name| + 1] == name;
  }

  /** Text without braces is copied and the rest of the template follows. */
  lemma FormatLiteralThen(text: string, rest: string, params: map<string, string>)
    requires '{' !in text && '}' !in text
    ensures Format(text + rest, params) == Prepend(text, Format(rest, params))
  {
    FormatLiteral(text, params);
    FormatAppend(text, rest, params);
  }
}
