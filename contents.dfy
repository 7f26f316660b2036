/** The content object: a `Page` (or `Article`, or `Quote`) built from a body and metadata,
    validated on request, with urls computed from settings templates, links rewritten against
    the site-wide index, the rewritten body cached per site url, and a summary. */
module Contents {
  import opened Base
  import opened Strings
  import opened Formatting
  import opened Paths
  import opened Links
  import opened Derivation

  /** The site-wide state a page reads: the index from a source path, relative to PATH, to the
      url of the content built from it, and the local site url. */
  datatype Context = Context(filenames: map<string, string>, localSiteUrl: string)

  /** The index of the first property that is not an attribute. */
  function FirstMissing(props: seq<string>, attrs: map<string, Value>): (r: Option<nat>)
    ensures r.Some? ==> r.value < |props| && props[r.value] !in attrs
                        && forall i :: 0 <= i < r.value ==> props[i] in attrs
    ensures r.None? ==> forall i :: 0 <= i < |props| ==> props[i] in attrs
    decreases |props|
  {
    if props == [] then None
    else if props[0] !in attrs then Some(0)
    else
      match FirstMissing(props[1..], attrs)
      case None => None
      case Some(i) => Some(i + 1)
  }

  /** What `check_properties` does: it passes exactly when every property is present, and
      otherwise fails naming the first one missing. */
  function Check(props: seq<string>, attrs: map<string, Value>): (r: Outcome<Error>)
    ensures r == Pass <==> forall i :: 0 <= i < |props| ==> props[i] in attrs
    ensures r.Fail? ==> exists i :: 0 <= i < |props| && props[i] !in attrs && r.error == NameError(props[i])
                                    && forall j :: 0 <= j < i ==> props[j] in attrs
  {
    match FirstMissing(props, attrs)
    case None => Pass
    case Some(i) => Fail(NameError(props[i]))
  }

  /** The cache after a memoized call for `siteUrl` returned `r`: a result is stored the first
      time it is computed, and an exception stores nothing. */
  function Cached(cache: map<string, string>, siteUrl: string, r: Result<string, Error>): map<string, string> {
    if siteUrl in cache || r.Failure? then cache else cache[siteUrl := r.value]
  }

  /** A page keeps a reference to the generator's `context` dict, which the generator goes on
      filling after the page is built. Every operation that reads it is given its contents at
      the time of the call, as an `Option<Context>` that is `None` for a page built without one. */
  class Page {
    const kind: Kind
    const rawContent: seq<Segment>      // `_content`
    const settings: map<string, Value>
    const metadata: map<string, Value>
    const attrs: map<string, Value>     // the attributes set from metadata and by `__init__`
    const env: Env
    var cache: map<string, string>      // memoized `get_content`, by site url

    constructor (kind: Kind, rawContent: seq<Segment>, settings: map<string, Value>,
                 metadata: map<string, Value>, attrs: map<string, Value>, env: Env)
      ensures Holds(kind, rawContent, settings, metadata, attrs, env)
    {
      this.kind := kind;
      this.rawContent := rawContent;
      this.settings := settings;
      this.metadata := metadata;
      this.attrs := attrs;
      this.env := env;
      cache := map[];
    }

    ghost predicate Holds(kind: Kind, rawContent: seq<Segment>, settings: map<string, Value>,
                    metadata: map<string, Value>, attrs: map<string, Value>, env: Env)
      reads this
    {
      this.kind == kind && this.rawContent == rawContent && this.settings == settings
      && this.metadata == metadata && this.attrs == attrs && this.env == env && cache == map[]
    }

    /** `__init__`: the settings default to the defaults when empty; the merged metadata is
        loaded as lower-cased attributes one key at a time, in an order Python leaves open, and
        a key naming a read-only property raises AttributeError; then the defaults are filled
        in by `Derive`. `loaded` is the attribute map right after loading. */
    static method Create(kind: Kind, rawContent: seq<Segment>, metadata: map<string, Value>, settings: map<string, Value>,
                         filename: string, now: int, env: Env)
      returns (r: Result<Page, Error>, ghost loaded: map<string, Value>)
      ensures var s := EffectiveSettings(settings, env);
              Merge(s, metadata).Failure? ==> r == Failure(Merge(s, metadata).error)
      ensures var s := EffectiveSettings(settings, env);
              Merge(s, metadata).Success? && (exists m :: m in Merge(s, metadata).value && ReadOnly(Lower(m))) ==>
                r.Failure? && exists m :: m in Merge(s, metadata).value && ReadOnly(Lower(m)) && r.error == AttributeError(Lower(m))
      ensures var s := EffectiveSettings(settings, env);
              Merge(s, metadata).Success? && (forall m :: m in Merge(s, metadata).value ==> !ReadOnly(Lower(m))) ==>
                Loaded(Merge(s, metadata).value, loaded)
                && var derived := Derive(kind, loaded, Init(metadata, s, filename, now, env));
                   (derived.Failure? ==> r == Failure(derived.error))
                   && (derived.Success? ==>
                         r.Success? && fresh(r.value)
                         && r.value.Holds(kind, rawContent, s, Merge(s, metadata).value, derived.value, env))
    {
      loaded := map[];
      var s := EffectiveSettings(settings, env);
      var merging := Merge(s, metadata);
      if merging.Failure? {
        return Failure(merging.error), loaded;
      }
      var merged := merging.value;
      var attributes := map[];
      var todo := merged.Keys;
      while todo != {}
        invariant todo <= merged.Keys
        invariant forall m :: m in merged && m !in todo ==> !ReadOnly(Lower(m))
        invariant forall k :: k in attributes ==> !Discarded(k) && exists m :: m in merged && m !in todo && Lower(m) == k && merged[m] == attributes[k]
        invariant forall m :: m in merged && m !in todo && !Discarded(Lower(m)) ==> Lower(m) in attributes
        decreases todo
      {
        var m :| m in todo;
        var name := Lower(m);
        if ReadOnly(name) {
          return Failure(AttributeError(name)), loaded;
        }
        if !Discarded(name) {
          attributes := attributes[name := merged[m]];
        }
        todo := todo - {m};
      }
      loaded := attributes;
      var derived := Derive(kind, attributes, Init(metadata, s, filename, now, env));
      if derived.Failure? {
        return Failure(derived.error), loaded;
      }
      var page := new Page(kind, rawContent, s, merged, derived.value, env);
      return Success(page), loaded;
    }

    /** `check_properties`: the mandatory properties are checked in their declared order. */
    method CheckProperties() returns (r: Outcome<Error>)
      ensures r == Check(MandatoryProperties(kind), attrs)
    {
      var props := MandatoryProperties(kind);
      for i := 0 to |props|
        invariant forall j :: 0 <= j < i ==> props[j] in attrs
      {
        if props[i] !in attrs {
          return Fail(NameError(props[i]));
        }
      }
      return Pass;
    }

    // -------------------------------------------------------------------------------------
    // Urls

    /** `url_format`: the template parameters, with defaults. DEFAULT_CATEGORY is looked up
        even when the page has a category. */
    function UrlFormat(now: int): Result<map<string, Value>, Error> {
      if "DEFAULT_CATEGORY" !in settings then Failure(KeyError("DEFAULT_CATEGORY"))
      else Success(map[
        "slug" := GetAttr(attrs, "slug", Str("")),
        "lang" := GetAttr(attrs, "lang", Str("en")),
        "date" := GetAttr(attrs, "date", Date(now)),
        "author" := GetAttr(attrs, "author", Str("")),
        "category" := GetAttr(attrs, "category", settings["DEFAULT_CATEGORY"])])
    }

    /** `_expand_settings(key)`: the setting named by the class and the key, upper-cased, filled
        from `url_format`. A setting that is not text has no `format`. */
    function ExpandSettings(key: string, now: int): Result<string, Error> {
      var name := Upper(ClassName(kind) + "_" + key);
      if name !in settings then Failure(KeyError(name))
      else
        match settings[name]
        case Str(template) =>
          var values :- UrlFormat(now);
          Format(template, map k | k in values :: Text(values[k], env))
        case _ => Failure(AttributeError("format"))
    }

    /** `in_default_lang`, which construction always sets. */
    predicate InDefaultLang() {
      Truthy(GetAttr(attrs, "in_default_lang", Bool(true)))
    }

    /** `get_url_setting(key)`: outside the default language the key gets a `lang_` prefix. */
    function GetUrlSetting(key: string, now: int): Result<string, Error> {
      ExpandSettings(if InDefaultLang() then key else "lang_" + key, now)
    }

    function Url(now: int): Result<string, Error> {
      GetUrlSetting("url", now)
    }

    function SaveAs(now: int): Result<string, Error> {
      GetUrlSetting("save_as", now)
    }

    // -------------------------------------------------------------------------------------
    // Paths

    /** `self.filename`, which is a text path when present. */
    function FilenameAttr(): Result<string, Error> {
      if "filename" !in attrs then Failure(AttributeError("filename"))
      else if attrs["filename"].Str? then Success(attrs["filename"].s)
      else Failure(TypeError)
    }

    /** `self.settings['PATH']`, the content root. */
    function ContentRoot(): Result<string, Error> {
      if "PATH" !in settings then Failure(KeyError("PATH"))
      else if settings["PATH"].Str? then Success(settings["PATH"].s)
      else Failure(TypeError)
    }

    /** `get_relative_filename(filename)`: the path of `filename`, taken relative to the content
        root, as seen from that root; an empty argument means the page's own filename. */
    function GetRelativeFilename(filename: string): Result<string, Error> {
      var f :- if filename == [] then FilenameAttr() else Success(filename);
      var root :- ContentRoot();
      Success(RelPath(Join(root, f), root, env.cwd))
    }

    /** `relative_dir`: the directory of the page's own file, relative to the content root. */
    function RelativeDir(): Result<string, Error> {
      var f :- FilenameAttr();
      var root :- ContentRoot();
      Success(DirName(RelPath(f, root, env.cwd)))
    }

    // -------------------------------------------------------------------------------------
    // Links and content

    /** The index key a `filename` reference names: a leading `/` is dropped, anything else is
        taken from the page's own directory. */
    function Target(value: string): Result<string, Error> {
      if value != [] && value[0] == '/' then Success(value[1..])
      else
        var dir :- RelativeDir();
        GetRelativeFilename(Join(dir, value))
    }

    /** The replacer of `_update_content`: a `filename` reference found in the index becomes the
        url of its target; any other reference, and one the index lacks, is kept as written. */
    function Replacement(what: string, value: string, context: Option<Context>): Result<string, Error> {
      if what != "filename" then Success(Origin(what, value))
      else
        var target :- Target(value);
        match context
        case None => Failure(TypeError)
        case Some(c) => Success(if target in c.filenames then c.filenames[target] else Origin(what, value))
    }

    /** `_update_content(self._content, siteurl)`; the site url plays no part. */
    function UpdateContent(context: Option<Context>): Result<string, Error> {
      Rewrite(rawContent, (what, value) => Replacement(what, value, context))
    }

    /** What `get_content` computes against the context as it is; a `_get_content` attribute
        would be called, and a metadata value is not callable. */
    function Rewritten(context: Option<Context>): Result<string, Error> {
      if "_get_content" in attrs then Failure(TypeError) else UpdateContent(context)
    }

    /** Every body in `cache` is the body rewritten against the context as it is now. */
    predicate Current(cache: map<string, string>, context: Option<Context>) {
      forall s :: s in cache ==> Rewritten(context) == Success(cache[s])
    }

    /** What memoized `get_content(siteUrl)` returns: the body cached for `siteUrl`, however old
        it is, else the body rewritten against the context as it is now. */
    function Memo(cache: map<string, string>, siteUrl: string, context: Option<Context>): Result<string, Error> {
      if siteUrl in cache then Success(cache[siteUrl]) else Rewritten(context)
    }

    /** `get_content(siteurl)`, memoized: a cached body is returned as it is; otherwise the body
        is rewritten and, when that succeeds, cached under `siteUrl`. While the index does not
        change the cache stays current and the result is the rewritten body. */
    method GetContent(siteUrl: string, context: Option<Context>) returns (r: Result<string, Error>)
      modifies this
      ensures r == Memo(old(cache), siteUrl, context)
      ensures cache == Cached(old(cache), siteUrl, r)
      ensures Current(old(cache), context) ==> Current(cache, context) && r == Rewritten(context)
    {
      if siteUrl in cache {
        return Success(cache[siteUrl]);
      }
      r := Rewritten(context);
      if r.Success? {
        cache := cache[siteUrl := r.value];
      }
    }

    /** The `content` property's value: the memoized body for the local site url. */
    function ContentText(cache: map<string, string>, context: Option<Context>): Result<string, Error> {
      match context
      case None => Failure(TypeError)
      case Some(c) => Memo(cache, c.localSiteUrl, context)
    }

    /** `content`: `get_content(self._context['localsiteurl'])`. */
    method Content(context: Option<Context>) returns (r: Result<string, Error>)
      modifies this
      ensures r == ContentText(old(cache), context)
      ensures cache == if context.None? then old(cache) else Cached(old(cache), context.value.localSiteUrl, r)
      ensures Current(old(cache), context) ==> Current(cache, context)
    {
      if context.None? {
        return Failure(TypeError);
      }
      r := GetContent(context.value.localSiteUrl, context);
    }

    /** The `summary` property's value: the explicit summary, else the content, truncated to
        SUMMARY_MAX_LENGTH words when that setting is truthy. */
    function Summary(cache: map<string, string>, context: Option<Context>): Result<Value, Error> {
      if "_summary" in attrs then Success(attrs["_summary"])
      else if "SUMMARY_MAX_LENGTH" !in settings then Failure(KeyError("SUMMARY_MAX_LENGTH"))
      else
        var text :- ContentText(cache, context);
        var maxLength := settings["SUMMARY_MAX_LENGTH"];
        Success(Str(if Truthy(maxLength) then env.truncateHtmlWords(text, maxLength) else text))
    }

    /** `_get_summary`, which reads `content` only when there is no explicit summary. */
    method GetSummary(context: Option<Context>) returns (r: Result<Value, Error>)
      modifies this
      ensures r == Summary(old(cache), context)
      ensures "_summary" in attrs || "SUMMARY_MAX_LENGTH" !in settings || context.None? ==> cache == old(cache)
      ensures "_summary" !in attrs && "SUMMARY_MAX_LENGTH" in settings && context.Some? ==>
                cache == Cached(old(cache), context.value.localSiteUrl, ContentText(old(cache), context))
      ensures Current(old(cache), context) ==> Current(cache, context)
    {
      if "_summary" in attrs {
        return Success(attrs["_summary"]);
      }
      if "SUMMARY_MAX_LENGTH" !in settings {
        return Failure(KeyError("SUMMARY_MAX_LENGTH"));
      }
      var text := Content(context);
      if text.Failure? {
        return Failure(text.error);
      }
      var maxLength := settings["SUMMARY_MAX_LENGTH"];
      r := Success(Str(if Truthy(maxLength) then env.truncateHtmlWords(text.value, maxLength) else text.value));
    }

    /** `_set_summary`: assigning the summary does nothing. */
    method SetSummary(summary: Value)
      ensures unchanged(this)
    {
    }
  }

  /** `is_valid_content(content, f)`: true exactly when `check_properties` passes; the file
      name only appears in the log message. */
  method IsValidContent(content: Page) returns (valid: bool)
    ensures valid <==> forall i :: 0 <= i < |MandatoryProperties(content.kind)| ==> MandatoryProperties(content.kind)[i] in content.attrs
  {
    var outcome := content.CheckProperties();
    valid := outcome == Pass;
  }

  // ---------------------------------------------------------------------------------------
  // Validation

  /** An Article is checked for title, then date, then category; a Page or a Quote for its
      title only. */
  lemma ValidationOrder(attrs: map<string, Value>)
    ensures Check(MandatoryProperties(ArticleKind), attrs)
            == if "title" !in attrs then Fail(NameError("title"))
               else if "date" !in attrs then Fail(NameError("date"))
               else if "category" !in attrs then Fail(NameError("category"))
               else Pass
    ensures Check(MandatoryProperties(PageKind), attrs) == if "title" in attrs then Pass else Fail(NameError("title"))
    ensures Check(MandatoryProperties(QuoteKind), attrs) == Check(MandatoryProperties(PageKind), attrs)
  {
    var props := MandatoryProperties(ArticleKind);
    assert props[1..] == ["date", "category"] && props[1..][1..] == ["category"] && props[1..][1..][1..] == [];
    assert MandatoryProperties(PageKind)[1..] == [];
  }

  // ---------------------------------------------------------------------------------------
  // Urls

  /** The settings an Article's urls read: the class name, then `LANG` outside the default
      language, then `URL` or `SAVE_AS`. */
  lemma ArticleSettingNames()
    ensures Upper(ClassName(ArticleKind) + "_" + "url") == "ARTICLE_URL"
    ensures Upper(ClassName(ArticleKind) + "_" + ("lang_" + "url")) == "ARTICLE_LANG_URL"
    ensures Upper(ClassName(ArticleKind) + "_" + "save_as") == "ARTICLE_SAVE_AS"
    ensures Upper(ClassName(ArticleKind) + "_" + ("lang_" + "save_as")) == "ARTICLE_LANG_SAVE_AS"
  {
  }

  /** The same for a Page. */
  lemma PageSettingNames()
    ensures Upper(ClassName(PageKind) + "_" + "url") == "PAGE_URL"
    ensures Upper(ClassName(PageKind) + "_" + ("lang_" + "url")) == "PAGE_LANG_URL"
    ensures Upper(ClassName(PageKind) + "_" + "save_as") == "PAGE_SAVE_AS"
    ensures Upper(ClassName(PageKind) + "_" + ("lang_" + "save_as")) == "PAGE_LANG_SAVE_AS"
  {
  }

  /** The same for a Quote. */
  lemma QuoteSettingNames()
    ensures Upper(ClassName(QuoteKind) + "_" + "url") == "QUOTE_URL"
    ensures Upper(ClassName(QuoteKind) + "_" + "save_as") == "QUOTE_SAVE_AS"
  {
  }

  /** An Article's url is read from ARTICLE_URL in the default language and from
      ARTICLE_LANG_URL otherwise, and its `save_as` from ARTICLE_SAVE_AS or
      ARTICLE_LANG_SAVE_AS; a missing setting is a KeyError naming it, and a setting that is not
      text cannot be formatted. */
  lemma ArticleUrlSetting(p: Page, key: string, now: int)
    requires p.kind == ArticleKind && (key == "url" || key == "save_as")
    ensures var name := if key == "url" then (if p.InDefaultLang() then "ARTICLE_URL" else "ARTICLE_LANG_URL")
                        else (if p.InDefaultLang() then "ARTICLE_SAVE_AS" else "ARTICLE_LANG_SAVE_AS");
            (name !in p.settings ==> p.GetUrlSetting(key, now) == Failure(KeyError(name)))
            && (name in p.settings && !p.settings[name].Str? ==> p.GetUrlSetting(key, now) == Failure(AttributeError("format")))
  {
    ArticleSettingNames();
  }

  /** DEFAULT_CATEGORY is needed for any url built from a template, even when the page has its
      own category. */
  lemma DefaultCategoryRequired(p: Page, key: string, now: int)
    requires "DEFAULT_CATEGORY" !in p.settings
    requires var name := Upper(ClassName(p.kind) + "_" + (if p.InDefaultLang() then key else "lang_" + key));
             name in p.settings && p.settings[name].Str?
    ensures p.GetUrlSetting(key, now) == Failure(KeyError("DEFAULT_CATEGORY"))
  {
  }

  // The lemmas below hold for any key of `get_url_setting`, so for `url` and `save_as` alike:
  // `key` names the setting read, and the template is that setting's value.

  /** A template `{slug}` followed by brace-free text gives the page's text slug followed by
      that text: with ARTICLE_URL = "{slug}.html", an article with slug `foo` has url
      `foo.html`. */
  lemma SlugUrl(p: Page, key: string, ext: string, now: int)
    requires p.InDefaultLang() && "DEFAULT_CATEGORY" in p.settings
    requires Upper(ClassName(p.kind) + "_" + key) in p.settings
    requires p.settings[Upper(ClassName(p.kind) + "_" + key)] == Str("{slug}" + ext)
    requires '{' !in ext && '}' !in ext
    requires "slug" in p.attrs && p.attrs["slug"].Str?
    ensures p.GetUrlSetting(key, now) == Success(p.attrs["slug"].s + ext)
  {
    var values := p.UrlFormat(now).value;
    var params := map k | k in values :: Text(values[k], p.env);
    assert params["slug"] == p.attrs["slug"].s;
    FormatSlugThen(ext, params);
    assert "{" + "slug" + "}" + ext == "{slug}" + ext;
  }

  /** `save_as` is read like `url`: with ARTICLE_SAVE_AS = "{slug}.html" an article with slug
      `foo` is written to `foo.html`. */
  lemma SlugSaveAs(p: Page, ext: string, now: int)
    requires p.InDefaultLang() && "DEFAULT_CATEGORY" in p.settings
    requires Upper(ClassName(p.kind) + "_" + "save_as") in p.settings
    requires p.settings[Upper(ClassName(p.kind) + "_" + "save_as")] == Str("{slug}" + ext)
    requires '{' !in ext && '}' !in ext
    requires "slug" in p.attrs && p.attrs["slug"].Str?
    ensures p.SaveAs(now) == Success(p.attrs["slug"].s + ext)
  {
    SlugUrl(p, "save_as", ext, now);
  }

  /** Outside the default language `save_as` is read from the `LANG_SAVE_AS` setting: with
      ARTICLE_LANG_SAVE_AS = "{lang}/{slug}.html" the article is written to `<lang>/foo.html`. */
  lemma LangSlugSaveAs(p: Page, ext: string, now: int)
    requires !p.InDefaultLang() && "DEFAULT_CATEGORY" in p.settings
    requires Upper(ClassName(p.kind) + "_" + ("lang_" + "save_as")) in p.settings
    requires p.settings[Upper(ClassName(p.kind) + "_" + ("lang_" + "save_as"))] == Str("{lang}/{slug}" + ext)
    requires '{' !in ext && '}' !in ext
    requires "slug" in p.attrs && p.attrs["slug"].Str? && "lang" in p.attrs && p.attrs["lang"].Str?
    ensures p.SaveAs(now) == Success(p.attrs["lang"].s + "/" + p.attrs["slug"].s + ext)
  {
    LangSlugUrl(p, "save_as", ext, now);
  }

  lemma FormatSlugThen(ext: string, params: map<string, string>)
    requires '{' !in ext && '}' !in ext && "slug" in params
    ensures Format("{" + "slug" + "}" + ext, params) == Success(params["slug"] + ext)
  {
    assert "slug"[0] == 's';
    FormatField("slug", ext, params);
    FormatLiteral(ext, params);
  }

  /** `{first}/{slug}` followed by brace-free text expands to the first field, a slash, the slug
      and that text. */
  lemma FormatFieldSlug(first: string, ext: string, params: map<string, string>)
    requires first != [] && 'a' <= first[0] <= 'z' && '{' !in first && '}' !in first
    requires '{' !in ext && '}' !in ext && "slug" in params && first in params
    ensures Format("{" + first + "}" + ("/" + ("{" + "slug" + "}" + ext)), params)
            == Success(params[first] + "/" + params["slug"] + ext)
  {
    var slash := "/";
    var rest := "{" + "slug" + "}" + ext;
    var done := params["slug"] + ext;
    FormatSlugThen(ext, params);
    assert '{' !in slash && '}' !in slash;
    FormatLiteralThen(slash, rest, params);
    assert Format(slash + rest, params) == Success(slash + done);
    assert !Positional(first);
    FormatField(first, slash + rest, params);
    assert params[first] + (slash + done) == params[first] + "/" + params["slug"] + ext;
  }

  lemma LangSlugShape(ext: string)
    ensures "{lang}/{slug}" + ext == "{" + "lang" + "}" + ("/" + ("{" + "slug" + "}" + ext))
  {
  }

  lemma CategorySlugShape(ext: string)
    ensures "{category}/{slug}" + ext == "{" + "category" + "}" + ("/" + ("{" + "slug" + "}" + ext))
  {
  }

  /** Outside the default language a template `{lang}/{slug}` followed by brace-free text gives
      the lang, a slash and the slug: with ARTICLE_LANG_URL = "{lang}/{slug}.html" the url is
      `<lang>/foo.html`. */
  lemma LangSlugUrl(p: Page, key: string, ext: string, now: int)
    requires !p.InDefaultLang() && "DEFAULT_CATEGORY" in p.settings
    requires Upper(ClassName(p.kind) + "_" + ("lang_" + key)) in p.settings
    requires p.settings[Upper(ClassName(p.kind) + "_" + ("lang_" + key))] == Str("{lang}/{slug}" + ext)
    requires '{' !in ext && '}' !in ext
    requires "slug" in p.attrs && p.attrs["slug"].Str? && "lang" in p.attrs && p.attrs["lang"].Str?
    ensures p.GetUrlSetting(key, now) == Success(p.attrs["lang"].s + "/" + p.attrs["slug"].s + ext)
  {
    var values := p.UrlFormat(now).value;
    var params := map k | k in values :: Text(values[k], p.env);
    assert params["slug"] == p.attrs["slug"].s && params["lang"] == p.attrs["lang"].s;
    assert "lang"[0] == 'l';
    FormatFieldSlug("lang", ext, params);
    LangSlugShape(ext);
  }

  lemma AuthorSlugShape(ext: string)
    ensures "{author}/{slug}" + ext == "{" + "author" + "}" + ("/" + ("{" + "slug" + "}" + ext))
  {
  }

  lemma DateSlugShape(ext: string)
    ensures "{date}/{slug}" + ext == "{" + "date" + "}" + ("/" + ("{" + "slug" + "}" + ext))
  {
  }

  /** A template `{first}/{slug}` followed by brace-free text, in the default language, gives
      the text of the `first` template parameter, a slash, the slug (empty without one) and
      that text. */
  lemma FieldSlugUrl(p: Page, key: string, first: string, ext: string, now: int)
    requires p.InDefaultLang() && "DEFAULT_CATEGORY" in p.settings
    requires first != [] && 'a' <= first[0] <= 'z' && '{' !in first && '}' !in first
    requires first in p.UrlFormat(now).value
    requires Upper(ClassName(p.kind) + "_" + key) in p.settings
    requires p.settings[Upper(ClassName(p.kind) + "_" + key)] == Str("{" + first + "}" + ("/" + ("{" + "slug" + "}" + ext)))
    requires '{' !in ext && '}' !in ext
    requires "slug" !in p.attrs || p.attrs["slug"].Str?
    ensures p.GetUrlSetting(key, now) == Success(Text(p.UrlFormat(now).value[first], p.env) + "/"
                                  + (if "slug" in p.attrs then p.attrs["slug"].s else "") + ext)
  {
    var values := p.UrlFormat(now).value;
    var params := map k | k in values :: Text(values[k], p.env);
    assert params[first] == Text(values[first], p.env);
    assert params["slug"] == if "slug" in p.attrs then p.attrs["slug"].s else "";
    FormatFieldSlug(first, ext, params);
  }

  /** A page without a category is filed under DEFAULT_CATEGORY and one without a slug gets an
      empty slug: with ARTICLE_URL = "{category}/{slug}.html" such an article has url
      `<DEFAULT_CATEGORY>/.html`. */
  lemma CategoryDefaultUrl(p: Page, key: string, ext: string, now: int)
    requires p.InDefaultLang() && "DEFAULT_CATEGORY" in p.settings
    requires Upper(ClassName(p.kind) + "_" + key) in p.settings
    requires p.settings[Upper(ClassName(p.kind) + "_" + key)] == Str("{category}/{slug}" + ext)
    requires '{' !in ext && '}' !in ext
    requires "category" !in p.attrs && ("slug" !in p.attrs || p.attrs["slug"].Str?)
    ensures p.GetUrlSetting(key, now) == Success(Text(p.settings["DEFAULT_CATEGORY"], p.env) + "/"
                                  + (if "slug" in p.attrs then p.attrs["slug"].s else "") + ext)
  {
    CategorySlugShape(ext);
    assert "category"[0] == 'c';
    FieldSlugUrl(p, key, "category", ext, now);
  }

  /** A page without a lang is taken to be in English: with PAGE_URL = "{lang}/{slug}.html" a
      page without a lang has url `en/<slug>.html`. */
  lemma LangDefaultUrl(p: Page, key: string, ext: string, now: int)
    requires p.InDefaultLang() && "DEFAULT_CATEGORY" in p.settings
    requires Upper(ClassName(p.kind) + "_" + key) in p.settings
    requires p.settings[Upper(ClassName(p.kind) + "_" + key)] == Str("{lang}/{slug}" + ext)
    requires '{' !in ext && '}' !in ext
    requires "lang" !in p.attrs && ("slug" !in p.attrs || p.attrs["slug"].Str?)
    ensures p.GetUrlSetting(key, now) == Success("en" + "/" + (if "slug" in p.attrs then p.attrs["slug"].s else "") + ext)
  {
    LangSlugShape(ext);
    assert "lang"[0] == 'l';
    FieldSlugUrl(p, key, "lang", ext, now);
  }

  /** A page without an author has an empty author in its urls: with
      ARTICLE_URL = "{author}/{slug}.html" such an article has url `/<slug>.html`. */
  lemma AuthorDefaultUrl(p: Page, key: string, ext: string, now: int)
    requires p.InDefaultLang() && "DEFAULT_CATEGORY" in p.settings
    requires Upper(ClassName(p.kind) + "_" + key) in p.settings
    requires p.settings[Upper(ClassName(p.kind) + "_" + key)] == Str("{author}/{slug}" + ext)
    requires '{' !in ext && '}' !in ext
    requires "author" !in p.attrs && ("slug" !in p.attrs || p.attrs["slug"].Str?)
    ensures p.GetUrlSetting(key, now) == Success("/" + (if "slug" in p.attrs then p.attrs["slug"].s else "") + ext)
  {
    AuthorSlugShape(ext);
    assert "author"[0] == 'a';
    FieldSlugUrl(p, key, "author", ext, now);
    var slug := if "slug" in p.attrs then p.attrs["slug"].s else "";
    assert p.UrlFormat(now).value["author"] == Str("");
    assert "" + "/" + slug + ext == "/" + slug + ext;
  }

  /** A page without a date is dated at the time its url is computed: with
      ARTICLE_URL = "{date}/{slug}.html" such an article's url starts with the text of `now`. */
  lemma DateDefaultUrl(p: Page, key: string, ext: string, now: int)
    requires p.InDefaultLang() && "DEFAULT_CATEGORY" in p.settings
    requires Upper(ClassName(p.kind) + "_" + key) in p.settings
    requires p.settings[Upper(ClassName(p.kind) + "_" + key)] == Str("{date}/{slug}" + ext)
    requires '{' !in ext && '}' !in ext
    requires "date" !in p.attrs && ("slug" !in p.attrs || p.attrs["slug"].Str?)
    ensures p.GetUrlSetting(key, now) == Success(Text(Date(now), p.env) + "/"
                                  + (if "slug" in p.attrs then p.attrs["slug"].s else "") + ext)
  {
    DateSlugShape(ext);
    assert "date"[0] == 'd';
    FieldSlugUrl(p, key, "date", ext, now);
  }

  // ---------------------------------------------------------------------------------------
  // Paths relative to the content root

  /** A relative path of plain segments is its own path relative to the content root. */
  lemma RelativeFilenameOfPlain(p: Page, segments: seq<string>)
    requires "PATH" in p.settings && p.settings["PATH"].Str?
    requires segments != [] && AllPlain(segments)
    ensures p.GetRelativeFilename(JoinSegments(segments)) == Success(JoinSegments(segments))
  {
    JoinEndsPlain(segments);
    RelPathOfJoin(p.settings["PATH"].s, segments, p.env.cwd);
  }

  /** Without an argument the page's own filename is used: a page stored at
      `<PATH>/d1/.../name` under an absolute PATH has relative filename `d1/.../name`. */
  lemma OwnFilenameRelative(p: Page, segments: seq<string>)
    requires "PATH" in p.settings && p.settings["PATH"].Str?
    requires p.settings["PATH"].s != [] && p.settings["PATH"].s[0] == '/'
    requires segments != [] && AllPlain(segments)
    requires "filename" in p.attrs && p.attrs["filename"] == Str(Join(p.settings["PATH"].s, JoinSegments(segments)))
    ensures p.GetRelativeFilename([]) == Success(JoinSegments(segments))
  {
    var root := p.settings["PATH"].s;
    var f := Join(root, JoinSegments(segments));
    JoinStart(segments);
    assert Plain(segments[0]);
    assert f[0] == '/';
    assert Join(root, f) == f;
    RelPathOfJoin(root, segments, p.env.cwd);
  }

  /** A page stored at `<PATH>/d1/.../dn/name` has relative directory `d1/.../dn` (empty for a
      page directly under the content root). */
  lemma RelativeDirOf(p: Page, segments: seq<string>)
    requires "PATH" in p.settings && p.settings["PATH"].Str?
    requires segments != [] && AllPlain(segments)
    requires "filename" in p.attrs && p.attrs["filename"] == Str(Join(p.settings["PATH"].s, JoinSegments(segments)))
    ensures p.RelativeDir() == Success(JoinSegments(segments[..|segments| - 1]))
  {
    RelPathOfJoin(p.settings["PATH"].s, segments, p.env.cwd);
    JoinEndsPlain(segments);
    DirNameOfPlain(segments);
  }

  // ---------------------------------------------------------------------------------------
  // Link rewriting

  /** Only `filename` references are resolved: a body whose references are all of other kinds
      is written back as it was, whatever the context, even without one. */
  lemma OtherKindsKept(p: Page, context: Option<Context>)
    requires "_get_content" !in p.attrs
    requires forall what, value :: References(p.rawContent, what, value) ==> what != "filename"
    ensures p.Rewritten(context) == Success(Render(p.rawContent))
  {
    RewriteIdentity(p.rawContent, (what, value) => p.Replacement(what, value, context));
  }

  /** A reference starting with `/` names an index key from the content root: it becomes the
      url of that file when the index has it and is kept as written otherwise; without a
      context it cannot be resolved. */
  lemma ReplacementRooted(p: Page, key: string, context: Option<Context>)
    ensures var value := "/" + key;
            (context.None? ==> p.Replacement("filename", value, context) == Failure(TypeError))
            && (context.Some? && key in context.value.filenames ==>
                  p.Replacement("filename", value, context) == Success(context.value.filenames[key]))
            && (context.Some? && key !in context.value.filenames ==>
                  p.Replacement("filename", value, context) == Success(Origin("filename", value)))
  {
    assert ("/" + key)[1..] == key;
  }

  /** A relative reference is taken from the page's own directory: a page at
      `<PATH>/dir/name` that refers to `v1/.../vm` names the index key `dir/v1/.../vm`. */
  lemma RelativeTarget(p: Page, dir: seq<string>, name: string, value: seq<string>)
    requires "PATH" in p.settings && p.settings["PATH"].Str?
    requires AllPlain(dir + [name]) && value != [] && AllPlain(value)
    requires "filename" in p.attrs && p.attrs["filename"] == Str(Join(p.settings["PATH"].s, JoinSegments(dir + [name])))
    ensures p.Target(JoinSegments(value)) == Success(JoinSegments(dir + value))
  {
    RelativeDirOf(p, dir + [name]);
    assert (dir + [name])[..|dir + [name]| - 1] == dir;
    assert AllPlain(dir) by {
      forall i | 0 <= i < |dir| ensures Plain(dir[i]) { assert dir[i] == (dir + [name])[i]; }
    }
    JoinStart(value);
    JoinPlainDirs(dir, value);
    RelativeFilenameOfPlain(p, dir + value);
  }

  /** A body whose only reference is to an indexed file from the content root is rewritten to
      that file's url, between the reference's own markup and quotes. */
  lemma LinkToIndexedFile(p: Page, markup: string, quote: char, key: string, c: Context)
    requires p.rawContent == [Reference(markup, quote, "filename", "/" + key)]
    requires "_get_content" !in p.attrs && key in c.filenames
    ensures p.Rewritten(Some(c)) == Success(Quoted(markup, quote, c.filenames[key]))
  {
    ReplacementRooted(p, key, Some(c));
    RewriteSingle(markup, quote, "filename", "/" + key, (what, value) => p.Replacement(what, value, Some(c)));
  }

  /** References the index cannot resolve, and references of other kinds, leave the body as it
      was written. */
  lemma UnresolvedKept(p: Page, c: Context)
    requires "_get_content" !in p.attrs
    requires forall what, value :: References(p.rawContent, what, value) && what == "filename" ==>
               p.Target(value).Success? && p.Target(value).value !in c.filenames
    ensures p.Rewritten(Some(c)) == Success(Render(p.rawContent))
  {
    RewriteIdentity(p.rawContent, (what, value) => p.Replacement(what, value, Some(c)));
  }

  /** The memo keeps the body it first computed: a body cached while its target was not yet
      indexed keeps the reference as written once the target has been indexed, although
      rewriting against the grown index would now give the target's url. */
  lemma StaleMemo(p: Page, markup: string, quote: char, key: string, before: Context, after: Context, siteUrl: string)
    requires p.rawContent == [Reference(markup, quote, "filename", "/" + key)]
    requires "_get_content" !in p.attrs && key !in before.filenames && key in after.filenames
    ensures var cache := Cached(map[], siteUrl, p.Rewritten(Some(before)));
            p.Memo(cache, siteUrl, Some(after)) == Success(Render(p.rawContent))
            && p.Rewritten(Some(after)) == Success(Quoted(markup, quote, after.filenames[key]))
  {
    ReplacementRooted(p, key, Some(before));
    RewriteSingle(markup, quote, "filename", "/" + key, (what, value) => p.Replacement(what, value, Some(before)));
    LinkToIndexedFile(p, markup, quote, key, after);
  }

  // ---------------------------------------------------------------------------------------
  // Summary

  /** A `summary` given in the metadata is the summary, as it was given, and the content is
      not read. */
  lemma SummaryFromMetadata(p: Page, loaded: map<string, Value>, init: Init, cache: map<string, string>, context: Option<Context>)
    requires Derive(p.kind, loaded, init).Success? && p.attrs == Derive(p.kind, loaded, init).value
    requires "summary" in init.metadata
    ensures p.Summary(cache, context) == Success(init.metadata["summary"])
  {
    DeriveSummary(p.kind, loaded, init);
  }

  /** A page whose own metadata has no summary is summarised by its content, even when
      DEFAULT_METADATA has one (assigning `summary` stores nothing): with a current memo the
      summary is the rewritten body, cut to SUMMARY_MAX_LENGTH words when that setting is
      truthy. */
  lemma SummaryOfBuiltPage(p: Page, merged: map<string, Value>, loaded: map<string, Value>, init: Init,
                           cache: map<string, string>, c: Context)
    requires Loaded(merged, loaded) && forall m :: m in merged ==> Lower(m) != "_summary"
    requires Derive(p.kind, loaded, init).Success? && p.attrs == Derive(p.kind, loaded, init).value
    requires "summary" !in init.metadata
    requires "SUMMARY_MAX_LENGTH" in p.settings && p.Current(cache, Some(c)) && p.Rewritten(Some(c)).Success?
    ensures var body := p.Rewritten(Some(c)).value;
            var maxLength := p.settings["SUMMARY_MAX_LENGTH"];
            p.Summary(cache, Some(c)) == Success(Str(if Truthy(maxLength) then p.env.truncateHtmlWords(body, maxLength) else body))
  {
    DeriveSummary(p.kind, loaded, init);
    assert "_summary" !in loaded;
  }
}
