/** Intra-site link placeholders in a content body.

    The body is held already split into the pieces the placeholder pattern finds: plain text,
    and quoted `href=` / `src=` attribute values of the form `|what|value`, each with the
    markup before it and its quote character. Rewriting replaces each placeholder by the text
    a resolver gives for it and keeps everything else. */
module Links {
  import opened Base
  import opened Formatting

  datatype Segment =
    | Verbatim(text: string)
    | Reference(markup: string, quote: char, what: string, value: string)

  /** The placeholder as it is written in the body: `|what|value`. */
  function Origin(what: string, value: string): string {
    "|" + what + "|" + value
  }

  /** A placeholder whose value is `text`, with its markup and quotes around it. */
  function Quoted(markup: string, quote: char, text: string): string {
    markup + [quote] + text + [quote]
  }

  /** The body text the segments stand for. */
  function Render(segments: seq<Segment>): string {
    if segments == [] then []
    else
      match segments[0]
      case Verbatim(text) => text + Render(segments[1..])
      case Reference(markup, quote, what, value) =>
        Quoted(markup, quote, Origin(what, value)) + Render(segments[1..])
  }

  /** One segment after substitution: text is kept, a placeholder becomes the resolver's text
      between its own markup and quotes. */
  function Piece(segment: Segment, resolve: (string, string) -> Result<string, Error>): Result<string, Error> {
    match segment
    case Verbatim(text) => Success(text)
    case Reference(markup, quote, what, value) =>
      var text :- resolve(what, value);
      Success(Quoted(markup, quote, text))
  }

  /** `re.sub` with a replacer: placeholders are handled left to right and the first one whose
      resolution raises ends the substitution with that error. */
  function Rewrite(segments: seq<Segment>, resolve: (string, string) -> Result<string, Error>): Result<string, Error> {
    if segments == [] then Success([])
    else
      var head :- Piece(segments[0], resolve);
      Prepend(head, Rewrite(segments[1..], resolve))
  }

  predicate References(segments: seq<Segment>, what: string, value: string) {
    exists i :: 0 <= i < |segments| && segments[i].Reference? && segments[i].what == what && segments[i].value == value
  }

  /** Rewriting works segment by segment: the rewrite of a concatenation is the rewrite of its
      first part followed by the rewrite of the second. */
  lemma {:induction false} RewriteAppend(a: seq<Segment>, b: seq<Segment>, resolve: (string, string) -> Result<string, Error>)
    requires Rewrite(a, resolve).Success?
    ensures Rewrite(a + b, resolve) == Prepend(Rewrite(a, resolve).value, Rewrite(b, resolve))
  {
    if a == [] {
      assert a + b == b;
      if Rewrite(b, resolve).Success? { assert [] + Rewrite(b, resolve).value == Rewrite(b, resolve).value; }
    } else {
      assert (a + b)[0] == a[0] && (a + b)[1..] == a[1..] + b;
      RewriteAppend(a[1..], b, resolve);
      PrependPrepend(Piece(a[0], resolve).value, Rewrite(a[1..], resolve).value, Rewrite(b, resolve));
    }
  }

  /** Text outside placeholders is never changed: a body without placeholders is its own
      rewrite, and a resolver that gives every placeholder back unchanged leaves the body as
      it is. */
  lemma {:induction false} RewriteIdentity(segments: seq<Segment>, resolve: (string, string) -> Result<string, Error>)
    requires forall what, value :: References(segments, what, value) ==> resolve(what, value) == Success(Origin(what, value))
    ensures Rewrite(segments, resolve) == Success(Render(segments))
  {
    if segments != [] {
      forall what, value | References(segments[1..], what, value)
        ensures References(segments, what, value)
      {
        var i :| 0 <= i < |segments[1..]| && segments[1..][i].Reference? && segments[1..][i].what == what && segments[1..][i].value == value;
        assert segments[i + 1] == segments[1..][i];
      }
      RewriteIdentity(segments[1..], resolve);
      if segments[0].Reference? {
        assert References(segments, segments[0].what, segments[0].value);
      }
    }
  }

  /** Only the placeholders decide the result: two resolvers that agree on every placeholder of
      the body rewrite it alike. */
  lemma {:induction false} RewriteDependsOnReferences(segments: seq<Segment>, f: (string, string) -> Result<string, Error>, g: (string, string) -> Result<string, Error>)
    requires forall what, value :: References(segments, what, value) ==> f(what, value) == g(what, value)
    ensures Rewrite(segments, f) == Rewrite(segments, g)
  {
    if segments != [] {
      forall what, value | References(segments[1..], what, value)
        ensures References(segments, what, value)
      {
        var i :| 0 <= i < |segments[1..]| && segments[1..][i].Reference? && segments[1..][i].what == what && segments[1..][i].value == value;
        assert segments[i + 1] == segments[1..][i];
      }
      RewriteDependsOnReferences(segments[1..], f, g);
      if segments[0].Reference? {
        assert References(segments, segments[0].what, segments[0].value);
      }
    }
  }

  /** A placeholder keeps its markup and its quotes; only the text between the quotes changes. */
  lemma RewriteSingle(markup: string, quote: char, what: string, value: string, resolve: (string, string) -> Result<string, Error>)
    ensures resolve(what, value).Success? ==>
      Rewrite([Reference(markup, quote, what, value)], resolve) == Success(Quoted(markup, quote, resolve(what, value).value))
    ensures resolve(what, value).Failure? ==>
      Rewrite([Reference(markup, quote, what, value)], resolve) == Failure(resolve(what, value).error)
  {
    var s := [Reference(markup, quote, what, value)];
    assert s[1..] == [];
    if resolve(what, value).Success? {
      var t := Quoted(markup, quote, resolve(what, value).value);
      assert t + [] == t;
    }
  }
}
