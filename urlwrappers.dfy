/** The URLWrapper family: Category, Tag and Author objects, named taxonomy entities whose
    urls come from settings templates, and which compare and hash by name alone. */
module UrlWrappers {
  import opened Base
  import opened Strings
  import opened Formatting
  import opened Paths

  function ClassName(kind: WrapperKind): string {
    match kind
    case CategoryKind => "Category"
    case TagKind => "Tag"
    case AuthorKind => "Author"
  }

  /** `URLWrapper.__init__`: the name is `unicode(name)` and the slug is derived from it. */
  function New(kind: WrapperKind, name: Value, settings: map<string, Value>, env: Env): UrlWrapper {
    var text := Text(name, env);
    UrlWrapper(kind, text, env.slugify(text), settings)
  }

  /** `Tag.__init__`: the name is stripped of surrounding white space before anything else,
      so the slug is computed from the stripped name too. */
  function NewTag(name: string, settings: map<string, Value>, env: Env): (w: UrlWrapper)
    ensures w.kind == TagKind && w.settings == settings
    ensures w.name == Strip(name)
    ensures w.name == [] || (!IsSpace(w.name[0]) && !IsSpace(w.name[|w.name| - 1]))
    ensures exists i, j :: 0 <= i <= j <= |name| && w.name == name[i..j]
    ensures w.slug == env.slugify(w.name)
  {
    New(TagKind, Str(Strip(name)), settings, env)
  }

  /** `URLWrapper.__eq__`: a wrapper equals anything whose text is its name. */
  predicate Equals(w: UrlWrapper, other: Value, env: Env) {
    w.name == Text(other, env)
  }

  /** `URLWrapper.__hash__`: the hash of the name, for any string hash `h`. */
  function Hash(w: UrlWrapper, h: string -> int): int {
    h(w.name)
  }

  /** Two wrappers are equal exactly when their names are, whatever their kind, slug or
      settings; a wrapper also equals the plain string of its name. */
  lemma EqualsByName(a: UrlWrapper, b: UrlWrapper, env: Env)
    ensures Equals(a, Wrapper(b), env) <==> a.name == b.name
    ensures Equals(a, Str(a.name), env)
    ensures Equals(a, Wrapper(b), env) <==> Equals(b, Wrapper(a), env)
  {
  }

  /** Equal wrappers hash alike, so they collapse to one key in sets and dictionaries. */
  lemma EqualsHashAlike(a: UrlWrapper, b: UrlWrapper, h: string -> int, env: Env)
    requires Equals(a, Wrapper(b), env)
    ensures Hash(a, h) == Hash(b, h)
  {
  }

  /** Tags made from names that differ only in surrounding white space are equal. */
  lemma TagsEqualUpToWhiteSpace(x: string, y: string, s1: map<string, Value>, s2: map<string, Value>, env: Env)
    ensures Equals(NewTag(x, s1, env), Wrapper(NewTag(y, s2, env)), env) <==> Strip(x) == Strip(y)
  {
  }

  /** Name comparison is case-sensitive: "Foo" and "foo " give different tags. */
  lemma TagsCaseSensitive(s: map<string, Value>, env: Env)
    ensures !Equals(NewTag("Foo", s, env), Wrapper(NewTag("foo ", s, env)), env)
  {
    StripKeepsFirst("Foo");
    StripKeepsFirst("foo ");
  }

  /** The setting a wrapper reads: the upper-cased class name, an underscore and the key. */
  function SettingName(kind: WrapperKind, key: string): string {
    Upper(ClassName(kind)) + "_" + key
  }

  /** `as_dict()`: the object's `__dict__`, rendered as format parameters. */
  function AsDict(w: UrlWrapper, env: Env): map<string, string> {
    map["name" := w.name, "slug" := w.slug, "settings" := Text(Dict(w.settings), env)]
  }

  /** `_from_settings(key, get_page_name)`: a missing setting is a KeyError naming it; a setting
      that is not text is returned unchanged; a text template is filled from the wrapper's
      fields, after cutting off its extension when the page name is asked for. */
  function FromSettings(w: UrlWrapper, key: string, getPageName: bool, env: Env): (r: Result<Value, Error>)
    ensures SettingName(w.kind, key) !in w.settings ==> r == Failure(KeyError(SettingName(w.kind, key)))
    ensures SettingName(w.kind, key) in w.settings && !w.settings[SettingName(w.kind, key)].Str?
            ==> r == Success(w.settings[SettingName(w.kind, key)])
    ensures SettingName(w.kind, key) in w.settings && w.settings[SettingName(w.kind, key)].Str?
            ==> (r.Success? ==> r.value.Str?)
  {
    var setting := SettingName(w.kind, key);
    if setting !in w.settings then Failure(KeyError(setting))
    else match w.settings[setting]
      case Str(template) =>
        var pattern := if getPageName then SplitExt(template).0 else template;
        var text :- Format(pattern, AsDict(w, env));
        Success(Str(text))
      case value => Success(value)
  }

  function PageName(w: UrlWrapper, env: Env): Result<Value, Error> {
    FromSettings(w, "URL", true, env)
  }

  function Url(w: UrlWrapper, env: Env): Result<Value, Error> {
    FromSettings(w, "URL", false, env)
  }

  function SaveAs(w: UrlWrapper, env: Env): Result<Value, Error> {
    FromSettings(w, "SAVE_AS", false, env)
  }

  /** The url is the page name followed by the template's extension: `page_name` only drops
      the extension (when the extension holds no field). */
  lemma UrlIsPageNamePlusExtension(w: UrlWrapper, env: Env)
    requires SettingName(w.kind, "URL") in w.settings && w.settings[SettingName(w.kind, "URL")].Str?
    requires PageName(w, env).Success?
    requires '{' !in SplitExt(w.settings[SettingName(w.kind, "URL")].s).1
    requires '}' !in SplitExt(w.settings[SettingName(w.kind, "URL")].s).1
    ensures Url(w, env) == Success(Str(PageName(w, env).value.s + SplitExt(w.settings[SettingName(w.kind, "URL")].s).1))
  {
    var t := w.settings[SettingName(w.kind, "URL")].s;
    var (root, ext) := SplitExt(t);
    FormatAppend(root, ext, AsDict(w, env));
    FormatLiteral(ext, AsDict(w, env));
  }

  lemma CategoryUrlSetting()
    ensures SettingName(CategoryKind, "URL") == "CATEGORY_URL"
  {
  }

  lemma FormatSlugUnder(dir: string, ext: string, p: map<string, string>)
    requires "slug" in p
    requires '{' !in dir && '}' !in dir && '{' !in ext && '}' !in ext && '/' !in ext && '.' !in ext
    ensures Format(dir + "/" + "{slug}", p) == Success(dir + "/" + p["slug"])
  {
    var head := dir + "/";
    assert '{' !in head && '}' !in head;
    FormatLiteral(head, p);
    assert "slug"[0] == 's';
    FormatField("slug", "", p);
    assert "{" + "slug" + "}" + "" == "{slug}";
    assert Format("", p) == Success("");
    assert p["slug"] + "" == p["slug"];
    assert Format("{slug}", p) == Success(p["slug"]);
    FormatAppend(head, "{slug}", p);
    assert head + "{slug}" == dir + "/" + "{slug}";
  }


  /** `dir/{slug}.ext` splits into `dir/{slug}` and `.ext`. */
  lemma SlugSplit(dir: string, ext: string)
    requires '/' !in ext && '.' !in ext
    ensures SplitExt(dir + "/" + "{slug}" + "." + ext) == (dir + "/" + "{slug}", "." + ext)
  {
    assert "{slug}"[1] != '.' && '/' !in "{slug}";
    SplitExtOf(dir, "{slug}", ext);
  }

  lemma DotExtBraceFree(ext: string)
    requires '{' !in ext && '}' !in ext
    ensures '{' !in "." + ext && '}' !in "." + ext
  {
    assert forall i :: 0 <= i < |"." + ext| ==> ("." + ext)[i] == '.' || ("." + ext)[i] in ext;
  }

  lemma SlugPageName(w: UrlWrapper, dir: string, ext: string, env: Env)
    requires SettingName(w.kind, "URL") in w.settings
    requires w.settings[SettingName(w.kind, "URL")] == Str(dir + "/" + "{slug}" + "." + ext)
    requires '{' !in dir && '}' !in dir && '{' !in ext && '}' !in ext && '/' !in ext && '.' !in ext
    ensures PageName(w, env) == Success(Str(dir + "/" + w.slug))
  {
    var p := AsDict(w, env);
    SlugSplit(dir, ext);
    FormatSlugUnder(dir, ext, p);
    assert p["slug"] == w.slug;
  }

  lemma SlugTemplate(w: UrlWrapper, dir: string, ext: string, env: Env)
    requires SettingName(w.kind, "URL") in w.settings
    requires w.settings[SettingName(w.kind, "URL")] == Str(dir + "/" + "{slug}" + "." + ext)
    requires '{' !in dir && '}' !in dir && '{' !in ext && '}' !in ext && '/' !in ext && '.' !in ext
    ensures PageName(w, env) == Success(Str(dir + "/" + w.slug))
    ensures Url(w, env) == Success(Str(dir + "/" + w.slug + "." + ext))
  {
    SlugPageName(w, dir, ext, env);
    SlugSplit(dir, ext);
    DotExtBraceFree(ext);
    UrlIsPageNamePlusExtension(w, env);
    var e := "." + ext;
    assert dir + "/" + w.slug + e == dir + "/" + w.slug + "." + ext;
  }

  /** `{slug}.ext` splits into `{slug}` and `.ext`. */
  lemma BareSlugSplit(ext: string)
    requires '/' !in ext && '.' !in ext
    ensures SplitExt("{slug}" + "." + ext) == ("{slug}", "." + ext)
  {
    assert "{slug}"[1] != '.' && '/' !in "{slug}";
    SplitExtBare("{slug}", ext);
  }

  lemma FormatBareSlug(p: map<string, string>)
    requires "slug" in p
    ensures Format("{slug}", p) == Success(p["slug"])
  {
    assert "slug"[0] == 's';
    FormatField("slug", "", p);
    assert "{" + "slug" + "}" + "" == "{slug}";
    assert Format("", p) == Success("");
    assert p["slug"] + "" == p["slug"];
  }

  lemma BareSlugPageName(w: UrlWrapper, ext: string, env: Env)
    requires SettingName(w.kind, "URL") in w.settings
    requires w.settings[SettingName(w.kind, "URL")] == Str("{slug}" + "." + ext)
    requires '/' !in ext && '.' !in ext
    ensures PageName(w, env) == Success(Str(w.slug))
  {
    var p := AsDict(w, env);
    BareSlugSplit(ext);
    FormatBareSlug(p);
    assert p["slug"] == w.slug;
  }

  /** A template `{slug}.ext` without a directory gives page name `<slug>` and url
      `<slug>.ext`. */
  lemma BareSlugTemplate(w: UrlWrapper, ext: string, env: Env)
    requires SettingName(w.kind, "URL") in w.settings
    requires w.settings[SettingName(w.kind, "URL")] == Str("{slug}" + "." + ext)
    requires '{' !in ext && '}' !in ext && '/' !in ext && '.' !in ext
    ensures PageName(w, env) == Success(Str(w.slug))
    ensures Url(w, env) == Success(Str(w.slug + "." + ext))
  {
    var t := w.settings[SettingName(w.kind, "URL")].s;
    BareSlugPageName(w, ext, env);
    BareSlugSplit(ext);
    assert SplitExt(t).1 == "." + ext;
    DotExtBraceFree(ext);
    UrlIsPageNamePlusExtension(w, env);
    assert w.slug + ("." + ext) == w.slug + "." + ext;
  }

  /** Any url setting read in full (`url` or `save_as`) that is `dir/{slug}.ext` gives
      `dir/<slug>.ext`: with CATEGORY_SAVE_AS = "category/{slug}.html" a category is written to
      `category/<slug>.html`. */
  lemma SlugFromSettings(w: UrlWrapper, key: string, dir: string, ext: string, env: Env)
    requires SettingName(w.kind, key) in w.settings
    requires w.settings[SettingName(w.kind, key)] == Str(dir + "/" + "{slug}" + "." + ext)
    requires '{' !in dir && '}' !in dir && '{' !in ext && '}' !in ext && '/' !in ext && '.' !in ext
    ensures FromSettings(w, key, false, env) == Success(Str(dir + "/" + w.slug + "." + ext))
  {
    var p := AsDict(w, env);
    var head := dir + "/" + "{slug}";
    var e := "." + ext;
    FormatSlugUnder(dir, ext, p);
    DotExtBraceFree(ext);
    FormatAppend(head, e, p);
    FormatLiteral(e, p);
    assert head + e == dir + "/" + "{slug}" + "." + ext;
    assert p["slug"] == w.slug;
    assert dir + "/" + w.slug + e == dir + "/" + w.slug + "." + ext;
  }

  /** Likewise `{slug}.ext` gives `<slug>.ext`. */
  lemma BareSlugFromSettings(w: UrlWrapper, key: string, ext: string, env: Env)
    requires SettingName(w.kind, key) in w.settings
    requires w.settings[SettingName(w.kind, key)] == Str("{slug}" + "." + ext)
    requires '{' !in ext && '}' !in ext
    ensures FromSettings(w, key, false, env) == Success(Str(w.slug + "." + ext))
  {
    var p := AsDict(w, env);
    var e := "." + ext;
    FormatBareSlug(p);
    DotExtBraceFree(ext);
    FormatAppend("{slug}", e, p);
    FormatLiteral(e, p);
    assert "{slug}" + e == "{slug}" + "." + ext;
    assert p["slug"] == w.slug;
    assert w.slug + e == w.slug + "." + ext;
  }

  /** `save_as` reads SAVE_AS as `url` reads URL: `dir/{slug}.ext` gives `dir/<slug>.ext`. */
  lemma SlugSaveAs(w: UrlWrapper, dir: string, ext: string, env: Env)
    requires SettingName(w.kind, "SAVE_AS") in w.settings
    requires w.settings[SettingName(w.kind, "SAVE_AS")] == Str(dir + "/" + "{slug}" + "." + ext)
    requires '{' !in dir && '}' !in dir && '{' !in ext && '}' !in ext && '/' !in ext && '.' !in ext
    ensures SaveAs(w, env) == Success(Str(dir + "/" + w.slug + "." + ext))
  {
    SlugFromSettings(w, "SAVE_AS", dir, ext, env);
  }

  /** With `CATEGORY_URL = "cat/{slug}.html"` a category's url is `cat/<slug>.html` and its page
      name is `cat/<slug>`. */
  lemma CategoryUrlExample(w: UrlWrapper, env: Env)
    requires w.kind == CategoryKind && "CATEGORY_URL" in w.settings
    requires w.settings["CATEGORY_URL"] == Str("cat/{slug}.html")
    ensures PageName(w, env) == Success(Str("cat" + "/" + w.slug))
    ensures Url(w, env) == Success(Str("cat" + "/" + w.slug + "." + "html"))
  {
    var k := SettingName(w.kind, "URL");
    assert k == "CATEGORY_URL" by { CategoryUrlSetting(); }
    var t := "cat" + "/" + "{slug}" + "." + "html";
    assert t == "cat/{slug}.html";
    assert w.settings[k] == Str(t);
    assert '{' !in "cat" && '}' !in "cat" && '{' !in "html" && '}' !in "html" && '/' !in "html" && '.' !in "html";
    SlugTemplate(w, "cat", "html", env);
  }
}
