/** What `Page.__init__` computes: the merged metadata, the attributes it loads from it and
    the defaults it then fills in, one step after the other. The `Page` class in module
    `Contents` runs these steps; here they are pure functions over the attribute map. */
module Derivation {
  import opened Base
  import opened Strings
  import UrlWrappers

  /** `Page` and its two subclasses. */
  datatype Kind = PageKind | ArticleKind | QuoteKind

  function ClassName(kind: Kind): string {
    match kind
    case PageKind => "Page"
    case ArticleKind => "Article"
    case QuoteKind => "Quote"
  }

  /** `default_template`: `Quote` inherits the one of `Page`. */
  function DefaultTemplate(kind: Kind): string {
    match kind
    case ArticleKind => "article"
    case _ => "page"
  }

  /** `mandatory_properties`: `Quote` inherits the one of `Page`. */
  function MandatoryProperties(kind: Kind): seq<string> {
    match kind
    case ArticleKind => ["title", "date", "category"]
    case _ => ["title"]
  }

  // ---------------------------------------------------------------------------------------
  // Merging DEFAULT_METADATA with the item's metadata

  /** One element of the sequence given to `dict(...)`, as a key and a value: it must be a pair
      (a two-character string is a pair of characters) whose key can be hashed. */
  function Pair(item: Value): Result<(Value, Value), Error> {
    match item
    case Tuple(items) =>
      if |items| != 2 then Failure(ValueError)
      else if !Hashable(items[0]) then Failure(TypeError)
      else Success((items[0], items[1]))
    case Str(s) => if |s| == 2 then Success((Str([s[0]]), Str([s[1]]))) else Failure(ValueError)
    case Dict(entries) => if |entries| != 2 then Failure(ValueError) else Failure(TypeError)
    case _ => Failure(TypeError)
  }

  /** The elements given to `dict(items)`, turned into pairs from left to right: the first one
      that is not a pair ends it with its error. */
  function Pairs(items: seq<Value>): (r: Result<seq<(Value, Value)>, Error>)
    ensures r.Success? <==> forall i :: 0 <= i < |items| ==> Pair(items[i]).Success?
    ensures r.Success? ==> |r.value| == |items| && forall i :: 0 <= i < |items| ==> r.value[i] == Pair(items[i]).value
    ensures r.Failure? ==> exists i :: 0 <= i < |items| && Pair(items[i]) == Failure(r.error)
                                       && forall j :: 0 <= j < i ==> Pair(items[j]).Success?
    decreases |items|
  {
    if items == [] then Success([])
    else
      match Pair(items[0])
      case Failure(e) => Failure(e)
      case Success(first) =>
        var rest := Pairs(items[1..]);
        assert forall i :: 1 <= i < |items| ==> items[i] == items[1..][i - 1];
        match rest
        case Failure(e) =>
          var i :| 0 <= i < |items[1..]| && Pair(items[1..][i]) == Failure(e)
                   && forall j :: 0 <= j < i ==> Pair(items[1..][j]).Success?;
          assert Pair(items[i + 1]) == Failure(e);
          Failure(e)
        case Success(tail) => Success([first] + tail)
  }

  /** Pairs entered into `acc` from left to right: the value of a key is that of the last pair
      with that key, and a key no pair has keeps its value in `acc`. */
  function Insert(pairs: seq<(string, Value)>, acc: map<string, Value>): (r: map<string, Value>)
    ensures r.Keys == acc.Keys + set i | 0 <= i < |pairs| :: pairs[i].0
    ensures forall i | 0 <= i < |pairs| && (forall j | i < j < |pairs| :: pairs[j].0 != pairs[i].0) :: r[pairs[i].0] == pairs[i].1
    ensures forall k | k in acc && (forall i | 0 <= i < |pairs| :: pairs[i].0 != k) :: r[k] == acc[k]
    decreases |pairs|
  {
    if pairs == [] then acc
    else
      var r := Insert(pairs[1..], acc[pairs[0].0 := pairs[0].1]);
      assert forall i :: 1 <= i < |pairs| ==> pairs[i] == pairs[1..][i - 1];
      KeysOfTail(pairs);
      r
  }

  /** The keys of a non-empty list of pairs are its first key and the keys of the rest. */
  lemma KeysOfTail(pairs: seq<(string, Value)>)
    requires pairs != []
    ensures (set i | 0 <= i < |pairs| :: pairs[i].0) == {pairs[0].0} + (set i | 0 <= i < |pairs[1..]| :: pairs[1..][i].0)
  {
    assert forall i :: 1 <= i < |pairs| ==> pairs[i] == pairs[1..][i - 1];
  }

  /** `dict(settings.get('DEFAULT_METADATA', ()))`. Every key is lower-cased when the metadata
      is loaded, so a key that is not text ends construction with AttributeError on `lower`;
      the model reports it once the whole dict is built. */
  function DefaultMetadata(settings: map<string, Value>): Result<map<string, Value>, Error> {
    if "DEFAULT_METADATA" !in settings then Success(map[])
    else
      match settings["DEFAULT_METADATA"]
      case Dict(entries) => Success(entries)
      case Tuple(items) =>
        var pairs :- Pairs(items);
        if exists i :: 0 <= i < |pairs| && !pairs[i].0.Str? then Failure(AttributeError("lower"))
        else Success(Insert(seq(|pairs|, i requires 0 <= i < |pairs| => (pairs[i].0.s, pairs[i].1)), map[]))
      case Str(s) => if s == [] then Success(map[]) else Failure(ValueError)  // each character is one element
      case _ => Failure(TypeError)                                           // not iterable
  }

  /** `local_metadata`: the defaults, updated with the item's own metadata. */
  function Merge(settings: map<string, Value>, metadata: map<string, Value>): Result<map<string, Value>, Error> {
    var defaults :- DefaultMetadata(settings);
    Success(defaults + metadata)
  }

  /** The merged metadata holds every default and every explicit key; an explicit value wins
      over a default one. */
  lemma MergeExplicitWins(settings: map<string, Value>, metadata: map<string, Value>)
    requires DefaultMetadata(settings).Success?
    ensures Merge(settings, metadata).Success?
    ensures var merged := Merge(settings, metadata).value;
            var defaults := DefaultMetadata(settings).value;
            merged.Keys == defaults.Keys + metadata.Keys
            && (forall k :: k in metadata ==> merged[k] == metadata[k])
            && (forall k :: k in defaults && k !in metadata ==> merged[k] == defaults[k])
  {
  }

  // ---------------------------------------------------------------------------------------
  // Loading the merged metadata as attributes

  /** The names `setattr` refuses: class properties without a setter. */
  predicate ReadOnly(name: string) {
    name == "url" || name == "save_as" || name == "content" || name == "url_format" || name == "relative_dir"
  }

  /** `summary` is a property whose setter does nothing, so setting it stores nothing. */
  predicate Discarded(name: string) {
    name == "summary"
  }

  /** The attributes after `setattr(self, key.lower(), value)` for every merged key, in some
      order: each attribute is the value of a key with that lower-cased name, and every key
      whose lower-cased name is not discarded has one. When two keys lower to the same name,
      which one wins depends on the order the keys come in. */
  predicate Loaded(merged: map<string, Value>, attrs: map<string, Value>) {
    (forall k :: k in attrs ==> !Discarded(k) && exists m :: m in merged && Lower(m) == k && merged[m] == attrs[k])
    && (forall m :: m in merged && !Discarded(Lower(m)) ==> Lower(m) in attrs)
  }

  /** No two keys differ in case only. */
  predicate NoCaseCollision(merged: map<string, Value>) {
    forall m, n :: m in merged && n in merged && Lower(m) == Lower(n) ==> m == n
  }

  /** Without keys that differ in case only, each key's value is found under its lower-cased
      name, and the loaded attributes do not depend on the order of the keys. */
  lemma LoadedValue(merged: map<string, Value>, attrs: map<string, Value>, m: string)
    requires Loaded(merged, attrs) && NoCaseCollision(merged)
    requires m in merged && !Discarded(Lower(m))
    ensures Lower(m) in attrs && attrs[Lower(m)] == merged[m]
  {
    var n :| n in merged && Lower(n) == Lower(m) && merged[n] == attrs[Lower(m)];
  }

  lemma LoadedUnique(merged: map<string, Value>, a: map<string, Value>, b: map<string, Value>)
    requires Loaded(merged, a) && Loaded(merged, b) && NoCaseCollision(merged)
    ensures a == b
  {
    forall k | k in a
      ensures k in b && a[k] == b[k]
    {
      var m :| m in merged && Lower(m) == k && merged[m] == a[k];
      LoadedValue(merged, b, m);
    }
    forall k | k in b
      ensures k in a
    {
      var m :| m in merged && Lower(m) == k && merged[m] == b[k];
      LoadedValue(merged, a, m);
    }
  }

  // ---------------------------------------------------------------------------------------
  // The defaults filled in after loading, in the order `__init__` fills them in

  /** Python's `==` as far as the model needs it: a URLWrapper compares by its name, from
      either side. */
  predicate PyEquals(a: Value, b: Value, env: Env) {
    if a.Wrapper? then UrlWrappers.Equals(a.w, b, env)
    else if b.Wrapper? then UrlWrappers.Equals(b.w, a, env)
    else if Number(a).Some? && Number(b).Some? then Number(a) == Number(b)
    else a == b
  }

  /** The number an int or a bool stands for: `True == 1` and `False == 0`. */
  function Number(v: Value): Option<int> {
    match v
    case Int(i) => Some(i)
    case Bool(b) => Some(if b then 1 else 0)
    case _ => None
  }

  /** `v in items` for a tuple. */
  predicate InTuple(items: seq<Value>, v: Value, env: Env) {
    exists i :: 0 <= i < |items| && PyEquals(items[i], v, env)
  }

  /** `items[index]` for a tuple: an int or a bool indexes it, a negative index counting from
      the end; any other index is a TypeError. */
  function TupleItem(items: seq<Value>, index: Value): Result<Value, Error> {
    match Number(index)
    case None => Failure(TypeError)
    case Some(n) =>
      if 0 <= n < |items| then Success(items[n])
      else if -|items| <= n < 0 then Success(items[n + |items|])
      else Failure(IndexError)
  }

  /** `_get_template()`: the `template` attribute unless it is absent or None. */
  function TemplateOf(kind: Kind, attrs: map<string, Value>): Value {
    if "template" in attrs && attrs["template"] != Null then attrs["template"] else Str(DefaultTemplate(kind))
  }

  function WithTemplate(kind: Kind, attrs: map<string, Value>): map<string, Value> {
    attrs["template" := TemplateOf(kind, attrs)]
  }

  /** An absent author becomes the Author named by the AUTHOR setting, when there is one. */
  function WithAuthor(attrs: map<string, Value>, settings: map<string, Value>, env: Env): map<string, Value> {
    if "author" !in attrs && "AUTHOR" in settings then
      attrs["author" := Wrapper(UrlWrappers.New(AuthorKind, settings["AUTHOR"], settings, env))]
    else attrs
  }

  /** With DEFAULT_LANG, an absent lang becomes its lower-cased value and `in_default_lang`
      compares lang, as given, with it; without it, `in_default_lang` is true. */
  function WithLang(attrs: map<string, Value>, settings: map<string, Value>, env: Env): Result<map<string, Value>, Error> {
    if "DEFAULT_LANG" !in settings then Success(attrs["in_default_lang" := Bool(true)])
    else
      match settings["DEFAULT_LANG"]
      case Str(d) =>
        var defaultLang := Str(Lower(d));
        var withLang := if "lang" in attrs then attrs else attrs["lang" := defaultLang];
        Success(withLang["in_default_lang" := Bool(PyEquals(withLang["lang"], defaultLang, env))])
      case _ => Failure(AttributeError("lower"))
  }

  /** An absent slug is made from the title, when there is one. */
  function WithSlug(attrs: map<string, Value>, env: Env): map<string, Value> {
    if "slug" !in attrs && "title" in attrs then attrs["slug" := Str(env.slugify(Text(attrs["title"], env)))]
    else attrs
  }

  /** A non-empty `filename` argument is stored. */
  function WithFilename(attrs: map<string, Value>, filename: string): map<string, Value> {
    if filename != [] then attrs["filename" := Str(filename)] else attrs
  }

  /** The dict key a lang is found under: text is its own key, and a URLWrapper hashes and
      compares like its name. */
  function FormatKey(lang: Value): Option<string> {
    match lang
    case Str(l) => Some(l)
    case Wrapper(w) => Some(w.name)
    case _ => None
  }

  /** `self.lang in settings['DATE_FORMATS']`, and the format found there when it is. A dict is
      searched by key, a tuple by element and text by substring. The lookup that follows takes
      a dict's entry for the lang and a tuple's item at the lang used as an index (only an int
      or a bool can be one); text cannot be indexed by text. */
  function LangDateFormat(lang: Value, settings: map<string, Value>, env: Env): Result<Option<Value>, Error> {
    if "DATE_FORMATS" !in settings then Failure(KeyError("DATE_FORMATS"))
    else
      match settings["DATE_FORMATS"]
      case Dict(formats) =>
        if !Hashable(lang) then Failure(TypeError)
        else if FormatKey(lang).Some? && FormatKey(lang).value in formats then Success(Some(formats[FormatKey(lang).value]))
        else Success(None)
      case Tuple(items) =>
        if InTuple(items, lang, env) then
          var format :- TupleItem(items, lang);
          Success(Some(format))
        else Success(None)
      case Str(s) =>
        if !lang.Str? then Failure(TypeError)       // `in` on text needs text on its left
        else if Contains(s, lang.s) then Failure(TypeError) else Success(None)
      case _ => Failure(TypeError)                  // not a container
  }

  /** With a tuple of formats, a lang that is not among its items has no format of its own, and
      one that is among them is used as an index into the tuple. */
  lemma TupleDateFormat(lang: Value, items: seq<Value>, settings: map<string, Value>, env: Env)
    requires "DATE_FORMATS" in settings && settings["DATE_FORMATS"] == Tuple(items)
    ensures var r := LangDateFormat(lang, settings, env);
            var n := if lang.Int? then lang.i else if lang.Bool? && lang.b then 1 else 0;
            (!InTuple(items, lang, env) ==> r == Success(None))
            && (InTuple(items, lang, env) ==>
                  (!lang.Int? && !lang.Bool? ==> r == Failure(TypeError))
                  && ((lang.Int? || lang.Bool?) && 0 <= n < |items| ==> r == Success(Some(items[n])))
                  && ((lang.Int? || lang.Bool?) && -|items| <= n < 0 ==> r == Success(Some(items[|items| + n])))
                  && ((lang.Int? || lang.Bool?) && !(-|items| <= n < |items|) ==> r == Failure(IndexError)))
  {
  }

  /** `0 in (0, 'fmt')` holds and `(0, 'fmt')[0]` is `0`; `True` indexes item 1; `(1,)[1]`
      is out of range. */
  lemma TupleDateFormatExamples(env: Env)
    ensures LangDateFormat(Int(0), map["DATE_FORMATS" := Tuple([Int(0), Str("fmt")])], env) == Success(Some(Int(0)))
    ensures LangDateFormat(Bool(true), map["DATE_FORMATS" := Tuple([Bool(true), Str("fmt")])], env) == Success(Some(Str("fmt")))
    ensures LangDateFormat(Int(1), map["DATE_FORMATS" := Tuple([Int(1)])], env) == Failure(IndexError)
    ensures LangDateFormat(Str("en"), map["DATE_FORMATS" := Tuple([Str("en"), Str("fmt")])], env) == Failure(TypeError)
  {
    assert InTuple([Int(0), Str("fmt")], Int(0), env) by { assert PyEquals([Int(0), Str("fmt")][0], Int(0), env); }
    assert InTuple([Bool(true), Str("fmt")], Bool(true), env) by { assert PyEquals([Bool(true), Str("fmt")][0], Bool(true), env); }
    assert InTuple([Int(1)], Int(1), env) by { assert PyEquals([Int(1)][0], Int(1), env); }
    assert InTuple([Str("en"), Str("fmt")], Str("en"), env) by { assert PyEquals([Str("en"), Str("fmt")][0], Str("en"), env); }
  }

  /** The date format before reduction: explicit, else the one for the page's lang, else
      DEFAULT_DATE_FORMAT. */
  function DateFormatOf(attrs: map<string, Value>, settings: map<string, Value>, env: Env): Result<Value, Error> {
    if "date_format" in attrs then Success(attrs["date_format"])
    else
      var perLang :- if "lang" in attrs then LangDateFormat(attrs["lang"], settings, env) else Success(None);
      if perLang.Some? then Success(perLang.value)
      else if "DEFAULT_DATE_FORMAT" in settings then Success(settings["DEFAULT_DATE_FORMAT"])
      else Failure(KeyError("DEFAULT_DATE_FORMAT"))
  }

  /** A `(locale, format)` tuple is reduced to its format; the locale part only selects the
      process locale, which is not modelled. */
  function ReduceDateFormat(format: Value): Result<Value, Error> {
    match format
    case Tuple(items) => if |items| >= 2 then Success(items[1]) else Failure(IndexError)
    case _ => Success(format)
  }

  function WithDateFormat(attrs: map<string, Value>, settings: map<string, Value>, env: Env): Result<map<string, Value>, Error> {
    var format :- DateFormatOf(attrs, settings, env);
    var reduced :- ReduceDateFormat(format);
    Success(attrs["date_format" := reduced])
  }

  /** With a date, `locale_date` is the date formatted with the date format. */
  function WithLocaleDate(attrs: map<string, Value>, env: Env): Result<map<string, Value>, Error> {
    if "date" !in attrs then Success(attrs)
    else
      match attrs["date"]
      case Date(instant) =>
        (match GetAttr(attrs, "date_format", Null)
         case Str(format) => Success(attrs["locale_date" := Str(env.strftime(instant, format))])
         case _ => Failure(AttributeError("encode")))
      case _ => Failure(AttributeError("strftime"))
  }

  /** `self.date > now`; a datetime does not compare with other types. */
  function IsFuture(date: Value, now: int): Result<bool, Error> {
    match date
    case Date(instant) => Success(instant > now)
    case _ => Failure(TypeError)
  }

  /** An absent status becomes DEFAULT_STATUS, or 'draft' for a future date when
      WITH_FUTURE_DATES is false. */
  function WithStatus(attrs: map<string, Value>, settings: map<string, Value>, now: int): Result<map<string, Value>, Error> {
    if "status" in attrs then Success(attrs)
    else if "DEFAULT_STATUS" !in settings then Failure(KeyError("DEFAULT_STATUS"))
    else if "WITH_FUTURE_DATES" !in settings then Failure(KeyError("WITH_FUTURE_DATES"))
    else if Truthy(settings["WITH_FUTURE_DATES"]) || "date" !in attrs then Success(attrs["status" := settings["DEFAULT_STATUS"]])
    else
      var future :- IsFuture(attrs["date"], now);
      Success(attrs["status" := if future then Str("draft") else settings["DEFAULT_STATUS"]])
  }

  /** A `summary` key of the item's own metadata is kept as `_summary`. */
  function WithSummary(attrs: map<string, Value>, metadata: map<string, Value>): map<string, Value> {
    if "summary" in metadata then attrs["_summary" := metadata["summary"]] else attrs
  }

  /** The arguments of `__init__` that the steps read besides the attributes (settings already
      defaulted), with the clock and the collaborators. */
  datatype Init = Init(metadata: map<string, Value>, settings: map<string, Value>, filename: string, now: int, env: Env)

  /** Everything `__init__` does after loading the attributes, in its order; each `From...`
      function is the rest of the sequence from that step on. */
  function Derive(kind: Kind, loaded: map<string, Value>, init: Init): Result<map<string, Value>, Error> {
    FromAuthor(WithTemplate(kind, loaded), init)
  }

  function FromAuthor(attrs: map<string, Value>, init: Init): Result<map<string, Value>, Error> {
    FromLang(WithAuthor(attrs, init.settings, init.env), init)
  }

  function FromLang(attrs: map<string, Value>, init: Init): Result<map<string, Value>, Error> {
    var next :- WithLang(attrs, init.settings, init.env);
    FromSlug(next, init)
  }

  function FromSlug(attrs: map<string, Value>, init: Init): Result<map<string, Value>, Error> {
    FromDateFormat(WithFilename(WithSlug(attrs, init.env), init.filename), init)
  }

  function FromDateFormat(attrs: map<string, Value>, init: Init): Result<map<string, Value>, Error> {
    var withFormat :- WithDateFormat(attrs, init.settings, init.env);
    var withDate :- WithLocaleDate(withFormat, init.env);
    FromStatus(withDate, init)
  }

  function FromStatus(attrs: map<string, Value>, init: Init): Result<map<string, Value>, Error> {
    var next :- WithStatus(attrs, init.settings, init.now);
    Success(WithSummary(next, init.metadata))
  }

  // ---------------------------------------------------------------------------------------
  // Which keys each part of the sequence leaves alone

  /** `a` and `b` agree on key `k`. */
  predicate Agree(a: map<string, Value>, b: map<string, Value>, k: string) {
    (k in a <==> k in b) && (k in a ==> a[k] == b[k])
  }

  lemma FromStatusKeeps(attrs: map<string, Value>, init: Init, k: string)
    requires FromStatus(attrs, init).Success?
    requires k != "status" && k != "_summary"
    ensures Agree(attrs, FromStatus(attrs, init).value, k)
  {
  }

  lemma FromDateFormatKeeps(attrs: map<string, Value>, init: Init, k: string)
    requires FromDateFormat(attrs, init).Success?
    requires k != "date_format" && k != "locale_date" && k != "status" && k != "_summary"
    ensures Agree(attrs, FromDateFormat(attrs, init).value, k)
  {
    var withFormat := WithDateFormat(attrs, init.settings, init.env).value;
    var withDate := WithLocaleDate(withFormat, init.env).value;
    FromStatusKeeps(withDate, init, k);
  }

  lemma FromSlugKeeps(attrs: map<string, Value>, init: Init, k: string)
    requires FromSlug(attrs, init).Success?
    requires k !in {"slug", "filename", "date_format", "locale_date", "status", "_summary"}
    ensures Agree(attrs, FromSlug(attrs, init).value, k)
  {
    FromDateFormatKeeps(WithFilename(WithSlug(attrs, init.env), init.filename), init, k);
  }

  lemma FromLangKeeps(attrs: map<string, Value>, init: Init, k: string)
    requires FromLang(attrs, init).Success?
    requires k !in {"lang", "in_default_lang", "slug", "filename", "date_format", "locale_date", "status", "_summary"}
    ensures Agree(attrs, FromLang(attrs, init).value, k)
  {
    FromSlugKeeps(WithLang(attrs, init.settings, init.env).value, init, k);
  }

  lemma FromAuthorKeeps(attrs: map<string, Value>, init: Init, k: string)
    requires FromAuthor(attrs, init).Success?
    requires k !in {"author", "lang", "in_default_lang", "slug", "filename", "date_format", "locale_date", "status", "_summary"}
    ensures Agree(attrs, FromAuthor(attrs, init).value, k)
  {
    FromLangKeeps(WithAuthor(attrs, init.settings, init.env), init, k);
  }

  /** Keys that no step writes keep their loaded values: construction adds attributes and
      never drops one. */
  lemma DeriveKeeps(kind: Kind, loaded: map<string, Value>, init: Init, k: string)
    requires Derive(kind, loaded, init).Success?
    requires k !in {"template", "author", "lang", "in_default_lang", "slug", "filename", "date_format", "locale_date", "status", "_summary"}
    ensures Agree(loaded, Derive(kind, loaded, init).value, k)
  {
    FromAuthorKeeps(WithTemplate(kind, loaded), init, k);
  }

  /** Construction adds attributes and never drops a loaded one. */
  lemma {:induction false} DeriveAddsOnly(kind: Kind, loaded: map<string, Value>, init: Init)
    requires Derive(kind, loaded, init).Success?
    ensures loaded.Keys <= Derive(kind, loaded, init).value.Keys
  {
    forall k | k in loaded
      ensures k in Derive(kind, loaded, init).value
    {
      if k !in {"template", "author", "lang", "in_default_lang", "slug", "filename", "date_format", "locale_date", "status", "_summary"} {
        DeriveKeeps(kind, loaded, init, k);
      }
    }
  }

  // ---------------------------------------------------------------------------------------
  // What the derived attributes are

  /** The template is the loaded non-None `template`, else the class's default template. */
  lemma DeriveTemplate(kind: Kind, loaded: map<string, Value>, init: Init)
    requires Derive(kind, loaded, init).Success?
    ensures var a := Derive(kind, loaded, init).value;
            "template" in a
            && a["template"] == (if "template" in loaded && loaded["template"] != Null then loaded["template"]
                                 else Str(DefaultTemplate(kind)))
  {
    FromAuthorKeeps(WithTemplate(kind, loaded), init, "template");
  }

  /** A loaded author is kept; otherwise the author is the Author named by the AUTHOR setting,
      and there is none without that setting. */
  lemma DeriveAuthor(kind: Kind, loaded: map<string, Value>, init: Init)
    requires Derive(kind, loaded, init).Success?
    ensures var a := Derive(kind, loaded, init).value;
            var settings := init.settings;
            ("author" in loaded ==> "author" in a && a["author"] == loaded["author"])
            && ("author" !in loaded && "AUTHOR" in settings ==>
                  "author" in a && a["author"] == Wrapper(UrlWrappers.New(AuthorKind, settings["AUTHOR"], settings, init.env)))
            && ("author" !in loaded && "AUTHOR" !in settings ==> "author" !in a)
  {
    var a1 := WithTemplate(kind, loaded);
    FromLangKeeps(WithAuthor(a1, init.settings, init.env), init, "author");
  }

  /** Without DEFAULT_LANG the page is in the default language and its lang is as loaded. With
      it, an absent lang becomes the lower-cased default, and `in_default_lang` says whether
      the lang, as given, equals that lower-cased default. A DEFAULT_LANG that is not text has
      no `lower`. */
  lemma DeriveLang(kind: Kind, loaded: map<string, Value>, init: Init)
    requires Derive(kind, loaded, init).Success?
    ensures var a := Derive(kind, loaded, init).value;
            var settings := init.settings;
            "in_default_lang" in a
            && ("DEFAULT_LANG" !in settings ==> a["in_default_lang"] == Bool(true) && Agree(loaded, a, "lang"))
            && ("DEFAULT_LANG" in settings ==>
                  settings["DEFAULT_LANG"].Str?
                  && var defaultLang := Str(Lower(settings["DEFAULT_LANG"].s));
                     "lang" in a
                     && a["lang"] == (if "lang" in loaded then loaded["lang"] else defaultLang)
                     && a["in_default_lang"] == Bool(PyEquals(a["lang"], defaultLang, init.env)))
  {
    var a2 := WithAuthor(WithTemplate(kind, loaded), init.settings, init.env);
    var a3 := WithLang(a2, init.settings, init.env).value;
    FromSlugKeeps(a3, init, "lang");
    FromSlugKeeps(a3, init, "in_default_lang");
  }

  /** A loaded slug is kept; otherwise the slug is made from the title, and there is none
      without a title. */
  lemma DeriveSlug(kind: Kind, loaded: map<string, Value>, init: Init)
    requires Derive(kind, loaded, init).Success?
    ensures var a := Derive(kind, loaded, init).value;
            ("slug" in loaded ==> "slug" in a && a["slug"] == loaded["slug"])
            && ("slug" !in loaded && "title" in loaded ==>
                  "slug" in a && a["slug"] == Str(init.env.slugify(Text(loaded["title"], init.env))))
            && ("slug" !in loaded && "title" !in loaded ==> "slug" !in a)
  {
    var a1 := WithTemplate(kind, loaded);
    var a2 := WithAuthor(a1, init.settings, init.env);
    var a3 := WithLang(a2, init.settings, init.env).value;
    assert Agree(loaded, a1, "slug") && Agree(loaded, a1, "title");
    assert Agree(a1, a2, "slug") && Agree(a1, a2, "title");
    assert Agree(a2, a3, "slug") && Agree(a2, a3, "title");
    assert Derive(kind, loaded, init) == FromSlug(a3, init);
    var a5 := WithFilename(WithSlug(a3, init.env), init.filename);
    assert FromSlug(a3, init) == FromDateFormat(a5, init);
    FromDateFormatKeeps(a5, init, "slug");
  }

  /** A non-empty `filename` argument becomes the `filename` attribute; with an empty one a
      loaded `filename` is left as it was. */
  lemma DeriveFilename(kind: Kind, loaded: map<string, Value>, init: Init)
    requires Derive(kind, loaded, init).Success?
    ensures var a := Derive(kind, loaded, init).value;
            (init.filename != [] ==> "filename" in a && a["filename"] == Str(init.filename))
            && (init.filename == [] ==> Agree(loaded, a, "filename"))
  {
    var a1 := WithTemplate(kind, loaded);
    var a2 := WithAuthor(a1, init.settings, init.env);
    var a3 := WithLang(a2, init.settings, init.env).value;
    assert Agree(loaded, a1, "filename");
    assert Agree(a1, a2, "filename");
    assert Agree(a2, a3, "filename");
    assert Derive(kind, loaded, init) == FromSlug(a3, init);
    var a4 := WithSlug(a3, init.env);
    assert Agree(a3, a4, "filename");
    var a5 := WithFilename(a4, init.filename);
    assert FromSlug(a3, init) == FromDateFormat(a5, init);
    FromDateFormatKeeps(a5, init, "filename");
  }

  /** The steps before the date format write template, author, lang, in_default_lang, slug
      and filename only. */
  lemma EarlyStepsKeep(kind: Kind, loaded: map<string, Value>, init: Init, k: string)
    requires WithLang(WithAuthor(WithTemplate(kind, loaded), init.settings, init.env), init.settings, init.env).Success?
    requires k !in {"template", "author", "lang", "in_default_lang", "slug", "filename"}
    ensures var a3 := WithLang(WithAuthor(WithTemplate(kind, loaded), init.settings, init.env), init.settings, init.env).value;
            Agree(loaded, WithFilename(WithSlug(a3, init.env), init.filename), k)
  {
  }

  /** The stage the date-format step starts from agrees with the final attributes on lang and
      with the loaded ones on date_format, date, status, _summary and locale_date. */
  lemma BeforeDateFormat(kind: Kind, loaded: map<string, Value>, init: Init) returns (a5: map<string, Value>)
    requires Derive(kind, loaded, init).Success?
    ensures Derive(kind, loaded, init) == FromDateFormat(a5, init)
    ensures Agree(loaded, a5, "date_format") && Agree(loaded, a5, "date") && Agree(loaded, a5, "status")
    ensures Agree(loaded, a5, "_summary") && Agree(loaded, a5, "locale_date")
    ensures Agree(a5, Derive(kind, loaded, init).value, "lang")
  {
    var a1 := WithTemplate(kind, loaded);
    var a2 := WithAuthor(a1, init.settings, init.env);
    var a3 := WithLang(a2, init.settings, init.env).value;
    assert Derive(kind, loaded, init) == FromSlug(a3, init);
    a5 := WithFilename(WithSlug(a3, init.env), init.filename);
    EarlyStepsKeep(kind, loaded, init, "date_format");
    EarlyStepsKeep(kind, loaded, init, "date");
    EarlyStepsKeep(kind, loaded, init, "status");
    EarlyStepsKeep(kind, loaded, init, "_summary");
    EarlyStepsKeep(kind, loaded, init, "locale_date");
    FromDateFormatKeeps(a5, init, "lang");
  }

  /** The date format is the loaded one, else the DATE_FORMATS entry for the page's lang (a
      text lang, or a URLWrapper by its name), else DEFAULT_DATE_FORMAT; a `(locale, format)`
      pair becomes its format. A page with a lang and no date format of its own needs
      DATE_FORMATS. */
  lemma DeriveDateFormat(kind: Kind, loaded: map<string, Value>, init: Init)
    requires Derive(kind, loaded, init).Success?
    ensures var a := Derive(kind, loaded, init).value;
            var settings := init.settings;
            "date_format" in a
            && ("date_format" in loaded ==> ReduceDateFormat(loaded["date_format"]) == Success(a["date_format"]))
            && ("date_format" !in loaded && "lang" in a ==>
                  "DATE_FORMATS" in settings
                  && var formats := settings["DATE_FORMATS"];
                     var key := FormatKey(a["lang"]);
                     if formats.Dict? && key.Some? && key.value in formats.entries
                     then ReduceDateFormat(formats.entries[key.value]) == Success(a["date_format"])
                     else if formats.Tuple? && InTuple(formats.items, a["lang"], init.env)
                     then TupleItem(formats.items, a["lang"]).Success?
                          && ReduceDateFormat(TupleItem(formats.items, a["lang"]).value) == Success(a["date_format"])
                     else "DEFAULT_DATE_FORMAT" in settings
                          && ReduceDateFormat(settings["DEFAULT_DATE_FORMAT"]) == Success(a["date_format"]))
            && ("date_format" !in loaded && "lang" !in a ==>
                  "DEFAULT_DATE_FORMAT" in settings && ReduceDateFormat(settings["DEFAULT_DATE_FORMAT"]) == Success(a["date_format"]))
  {
    var a5 := BeforeDateFormat(kind, loaded, init);
    var a6 := WithDateFormat(a5, init.settings, init.env).value;
    var a7 := WithLocaleDate(a6, init.env).value;
    assert FromDateFormat(a5, init) == FromStatus(a7, init);
    FromStatusKeeps(a7, init, "date_format");
  }

  /** With a date, `locale_date` is that date formatted with the final (text) date format;
      without one there is no `locale_date` beyond a loaded one. */
  lemma DeriveLocaleDate(kind: Kind, loaded: map<string, Value>, init: Init)
    requires Derive(kind, loaded, init).Success?
    ensures var a := Derive(kind, loaded, init).value;
            ("date" in loaded ==>
               loaded["date"].Date? && a["date_format"].Str? && "locale_date" in a
               && a["locale_date"] == Str(init.env.strftime(loaded["date"].instant, a["date_format"].s)))
            && ("date" !in loaded ==> Agree(loaded, a, "locale_date"))
  {
    var a5 := BeforeDateFormat(kind, loaded, init);
    var a6 := WithDateFormat(a5, init.settings, init.env).value;
    var a7 := WithLocaleDate(a6, init.env).value;
    assert FromDateFormat(a5, init) == FromStatus(a7, init);
    assert Agree(a5, a6, "date") && Agree(a5, a6, "locale_date");
    FromStatusKeeps(a7, init, "date_format");
    FromStatusKeeps(a7, init, "locale_date");
  }

  /** A loaded status is never changed. Otherwise it is DEFAULT_STATUS, except that a page dated
      after `now` is a draft when WITH_FUTURE_DATES is false. */
  lemma DeriveStatus(kind: Kind, loaded: map<string, Value>, init: Init)
    requires Derive(kind, loaded, init).Success?
    ensures var a := Derive(kind, loaded, init).value;
            var settings := init.settings;
            "status" in a
            && ("status" in loaded ==> a["status"] == loaded["status"])
            && ("status" !in loaded ==>
                  "DEFAULT_STATUS" in settings && "WITH_FUTURE_DATES" in settings
                  && a["status"] == (if !Truthy(settings["WITH_FUTURE_DATES"]) && "date" in loaded
                                        && loaded["date"].Date? && loaded["date"].instant > init.now
                                     then Str("draft") else settings["DEFAULT_STATUS"]))
  {
    var a5 := BeforeDateFormat(kind, loaded, init);
    var a6 := WithDateFormat(a5, init.settings, init.env).value;
    var a7 := WithLocaleDate(a6, init.env).value;
    assert FromDateFormat(a5, init) == FromStatus(a7, init);
    assert Agree(a5, a7, "status") && Agree(a5, a7, "date");
    var a8 := WithStatus(a7, init.settings, init.now).value;
    assert Agree(a8, WithSummary(a8, init.metadata), "status");
  }

  /** Only a `summary` in the item's own metadata becomes the explicit summary; one that comes
      from DEFAULT_METADATA alone does not. */
  lemma DeriveSummary(kind: Kind, loaded: map<string, Value>, init: Init)
    requires Derive(kind, loaded, init).Success?
    ensures var a := Derive(kind, loaded, init).value;
            ("summary" in init.metadata ==> "_summary" in a && a["_summary"] == init.metadata["summary"])
            && ("summary" !in init.metadata ==> Agree(loaded, a, "_summary"))
  {
    var a5 := BeforeDateFormat(kind, loaded, init);
    var a6 := WithDateFormat(a5, init.settings, init.env).value;
    var a7 := WithLocaleDate(a6, init.env).value;
    assert FromDateFormat(a5, init) == FromStatus(a7, init);
    assert Agree(a5, a7, "_summary");
    var a8 := WithStatus(a7, init.settings, init.now).value;
    assert Agree(a7, a8, "_summary");
  }

  /** The attributes on which the success of construction depends, from the date format on:
      `b` has the lang, date format and status of `a`, and at most the date of `a`. */
  predicate SameOutcomeKeys(a: map<string, Value>, b: map<string, Value>) {
    Agree(a, b, "lang") && Agree(a, b, "date_format") && Agree(a, b, "status")
    && ("date" in b ==> "date" in a && a["date"] == b["date"])
  }

  lemma FromStatusSucceeds(a: map<string, Value>, b: map<string, Value>, init: Init)
    requires FromStatus(a, init).Success? && SameOutcomeKeys(a, b)
    ensures FromStatus(b, init).Success?
  {
  }

  lemma FromDateFormatSucceeds(a: map<string, Value>, b: map<string, Value>, init: Init)
    requires FromDateFormat(a, init).Success? && SameOutcomeKeys(a, b)
    ensures FromDateFormat(b, init).Success?
  {
    assert DateFormatOf(a, init.settings, init.env) == DateFormatOf(b, init.settings, init.env);
    var a5 := WithDateFormat(a, init.settings, init.env).value;
    var b5 := WithDateFormat(b, init.settings, init.env).value;
    assert SameOutcomeKeys(a5, b5);
    var a6 := WithLocaleDate(a5, init.env).value;
    var b6 := WithLocaleDate(b5, init.env).value;
    assert SameOutcomeKeys(a6, b6);
    FromStatusSucceeds(a6, b6, init);
  }

  lemma FromSlugSucceeds(a: map<string, Value>, b: map<string, Value>, init: Init)
    requires FromSlug(a, init).Success? && SameOutcomeKeys(a, b)
    ensures FromSlug(b, init).Success?
  {
    var a4 := WithFilename(WithSlug(a, init.env), init.filename);
    var b4 := WithFilename(WithSlug(b, init.env), init.filename);
    assert SameOutcomeKeys(a4, b4);
    FromDateFormatSucceeds(a4, b4, init);
  }

  lemma FromLangSucceeds(a: map<string, Value>, b: map<string, Value>, init: Init)
    requires FromLang(a, init).Success? && SameOutcomeKeys(a, b)
    ensures FromLang(b, init).Success?
  {
    var a3 := WithLang(a, init.settings, init.env).value;
    var b3 := WithLang(b, init.settings, init.env).value;
    assert SameOutcomeKeys(a3, b3);
    FromSlugSucceeds(a3, b3, init);
  }

  /** Whether construction succeeds depends on the lang, the date format, the status and the
      date alone: a page with the same ones, or without the date, is built too. */
  lemma DeriveSucceeds(kind: Kind, a: map<string, Value>, b: map<string, Value>, init: Init)
    requires Derive(kind, a, init).Success? && SameOutcomeKeys(a, b)
    ensures Derive(kind, b, init).Success?
  {
    var a2 := WithAuthor(WithTemplate(kind, a), init.settings, init.env);
    var b2 := WithAuthor(WithTemplate(kind, b), init.settings, init.env);
    assert SameOutcomeKeys(a2, b2);
    FromLangSucceeds(a2, b2, init);
  }

  /** Construction is lenient: a page that can be built can also be built without its title,
      its date or its category. A missing mandatory property is left to `check_properties`. */
  lemma DeriveLenient(kind: Kind, loaded: map<string, Value>, init: Init, property: string)
    requires Derive(kind, loaded, init).Success?
    requires property == "title" || property == "date" || property == "category"
    ensures Derive(kind, loaded - {property}, init).Success?
  {
    DeriveSucceeds(kind, loaded, loaded - {property}, init);
  }

  /** `in_default_lang` compares a text lang exactly as given: a lang differing from the
      lower-cased default only in case is not the default language. */
  lemma LangComparedAsGiven(kind: Kind, loaded: map<string, Value>, init: Init)
    requires Derive(kind, loaded, init).Success?
    requires "DEFAULT_LANG" in init.settings && "lang" in loaded && loaded["lang"].Str?
    ensures init.settings["DEFAULT_LANG"].Str?
    ensures Derive(kind, loaded, init).value["in_default_lang"]
            == Bool(loaded["lang"].s == Lower(init.settings["DEFAULT_LANG"].s))
  {
    DeriveLang(kind, loaded, init);
  }
}
