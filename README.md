# Pelican content objects, modelled in Dafny

This project models `pelican/contents.py` from the Pelican static site generator. That file
defines the objects the generators build from source files:

- `Page` and its subclasses `Article` and `Quote`: construction from metadata and settings,
  validation of the mandatory properties, and urls and output paths computed from settings
  templates.
- Rewriting of intra-site `|filename|` links in the body, memoized per site url, and the
  summary.
- The `URLWrapper` family (`Category`, `Tag`, `Author`), which compares and hashes by name.
- `StaticContent`, for files copied to the output as they are.

Modules, one concept each:

- `Base` (`base.dfy`): Python values (`Value`), exceptions (`Error`), `Result`, truthiness and
  `unicode()`. It also holds `Env`, the collaborators outside the file: `slugify`,
  `truncate_html_words`, `strftime`, `unicode()` of other values, `_DEFAULT_CONFIG` and the
  working directory.
- `Strings`: ASCII `lower`/`upper`, and `strip` with its properties.
- `Formatting`: `str.format` over `{name}` fields and the `{{`/`}}` escapes, with the lemmas that
  evaluate a template piece by piece.
- `Paths`: `os.path.join`, `abspath`, `relpath`, `dirname` and `splitext` over `/`-separated
  segments. It proves the round trips `relpath(join(base, f), base) == f` and
  `dirname(d/f) == d` for paths of plain segments.
- `UrlWrappers`: Category, Tag and Author.
- `Links`: the body as a sequence of text and `|what|value` placeholder segments, and the
  left-to-right substitution `re.sub` performs on it.
- `Derivation`: everything `Page.__init__` computes, as pure functions:
  - merging DEFAULT_METADATA with the item's metadata
  - the relation between the merged keys and the attributes `setattr` loads
  - the chain of steps that fill in template, author, lang, slug, filename, date format,
    locale date, status and summary
- `Contents`: the `Page` class. `Create` runs the `setattr` loop over the merged keys, in an
  order the model leaves open, then applies `Derivation.Derive`. The memo of `get_content` is a
  mutable `cache` field that `GetContent`, `Content` and `GetSummary` update. A page keeps a
  reference to the generator's `context` dict, which the generator goes on filling after the
  page is built. So each operation that reads the context is given its contents as they are at
  the time of the call. The module also holds validation, urls, relative paths, link
  resolution, the summary, and `is_valid_content`.
- `Static`: `StaticContent`.

The clock (`datetime.now()`) is a parameter `now`. The locale `setlocale` selects, the logger
and the `content_object_init` signal are outside the model.

Two behaviours of the code are easy to get wrong:

- `in_default_lang` compares the lang exactly as given with the lower-cased DEFAULT_LANG
  (`pelican/contents.py:63-67`). So with DEFAULT_LANG `en`, a page with `lang = "EN"` is not in
  the default language. `Derivation.LangComparedAsGiven` states this.
- A tag's name is stripped of surrounding white space (`pelican/contents.py:294`), and names are
  compared exactly (`pelican/contents.py:259`). So `Tag(" foo")` equals `Tag("foo")`, but
  `Tag("Foo")` does not equal `Tag("foo")`. `UrlWrappers.TagsEqualUpToWhiteSpace` and
  `UrlWrappers.TagsCaseSensitive` state this.

## Model

A row whose member is a function without a contract of its own names, in its third column, the
lemmas that state what it computes.

| member | source | states |
|---|---|---|
| Derivation.Pair | pelican/contents.py:42 | how `dict()` reads one element of DEFAULT_METADATA. Its cases are given by its definition: a two-item tuple whose key can be hashed is its own pair, two-character text pairs its characters, any other length is a ValueError, and an unhashable key or a value that is not a sequence is a TypeError. `Pairs` lifts them element by element |
| Derivation.Pairs | pelican/contents.py:42 | `dict(items)` succeeds exactly when every element is a pair, and then holds the elements' pairs in order; otherwise it fails with the error of the first element that is not a pair |
| Derivation.Insert | pelican/contents.py:42 | the keys are those of the accumulator and of the pairs; a key takes the value of the last pair with that key; a key no pair names keeps the accumulator's value |
| Derivation.DefaultMetadata | pelican/contents.py:42 | `dict(settings.get('DEFAULT_METADATA', ()))`; `Pairs` and `Insert` state how a sequence of pairs is read (the last pair for a key wins), and a key that is not text fails on `lower` when loaded |
| Derivation.Merge | pelican/contents.py:42-43 | the defaults updated with the item's own metadata; `MergeExplicitWins` states it |
| Derivation.MergeExplicitWins | pelican/contents.py:42-43 | the merged metadata holds every default and every explicit key, and an explicit value wins over a default |
| Derivation.LoadedValue | pelican/contents.py:46-47 | after loading, when no two keys differ only in case, every key not named `summary` is an attribute under its lower-cased name with its own value |
| Derivation.LoadedUnique | pelican/contents.py:46-47 | when no two keys differ only in case, the loaded attributes do not depend on the order the keys are visited in |
| Contents.Page.Create | pelican/contents.py:29-107 | a failed merge fails construction; a key naming a read-only property raises AttributeError with that name; otherwise the attributes are the loaded ones followed by `Derive`, whose errors construction passes on |
| Derivation.Derive | pelican/contents.py:52-105 | the steps `__init__` takes after loading, in its order; `DeriveKeeps`, `DeriveAddsOnly`, the `Derive…` lemmas below and `DeriveSucceeds` state what it computes |
| Derivation.DeriveKeeps | pelican/contents.py:52-105 | every attribute that no default step writes keeps its loaded value |
| Derivation.DeriveAddsOnly | pelican/contents.py:52-105 | construction never drops a loaded attribute |
| Derivation.TemplateOf | pelican/contents.py:209-213 | `_get_template()`; `DeriveTemplate` states it |
| Derivation.WithTemplate | pelican/contents.py:53 | the template step; `DeriveTemplate` states it |
| Derivation.DeriveTemplate | pelican/contents.py:52-53 | the template is the loaded non-None template, else `article` for an Article and `page` for a Page or a Quote |
| Derivation.WithAuthor | pelican/contents.py:55-58 | the author step; `DeriveAuthor` states it |
| Derivation.DeriveAuthor | pelican/contents.py:55-58 | a loaded author is kept; otherwise the author is the Author named by AUTHOR, and there is none without that setting |
| Derivation.WithLang | pelican/contents.py:60-67 | the language step; `DeriveLang` and `LangComparedAsGiven` state it |
| Derivation.DeriveLang | pelican/contents.py:60-67 | without DEFAULT_LANG, `in_default_lang` is true; with it, a missing lang becomes the lower-cased default, and `in_default_lang` says whether the lang equals that default |
| Derivation.LangComparedAsGiven | pelican/contents.py:63-67 | a text lang is compared exactly as given with the lower-cased DEFAULT_LANG |
| Derivation.WithSlug | pelican/contents.py:69-71 | the slug step; `DeriveSlug` states it |
| Derivation.DeriveSlug | pelican/contents.py:69-71 | a loaded slug is kept; otherwise it is the slugified title, and there is none without a title |
| Derivation.WithFilename | pelican/contents.py:73-74 | the filename step; `DeriveFilename` states it |
| Derivation.DeriveFilename | pelican/contents.py:73-74 | a non-empty `filename` argument becomes the `filename` attribute; with an empty one a loaded `filename` is kept as it was |
| Derivation.LangDateFormat | pelican/contents.py:78-79 | `self.lang in settings['DATE_FORMATS']` and the lookup after it; `DeriveDateFormat` states what a dict of formats gives, `TupleDateFormat` what a tuple gives; text is the TypeErrors of `in` and of indexing |
| Derivation.TupleDateFormat | pelican/contents.py:78-79 | with a tuple DATE_FORMATS, a lang not among its items has no format of its own; a lang among them indexes the tuple: an int or a bool gives the item at that index (counting from the end when negative) or IndexError out of range, and any other lang is a TypeError |
| Derivation.TupleDateFormatExamples | pelican/contents.py:78-79 | `0` in `(0, 'fmt')` gives the format `0`, `True` in `(True, 'fmt')` gives `'fmt'`, `1` in `(1,)` is an IndexError and `'en'` in `('en', 'fmt')` a TypeError |
| Derivation.DateFormatOf | pelican/contents.py:77-81 | the date format before reduction; `DeriveDateFormat` states it |
| Derivation.ReduceDateFormat | pelican/contents.py:83-85 | a `(locale, format)` tuple becomes its format; `DeriveDateFormat` states it |
| Derivation.WithDateFormat | pelican/contents.py:76-85 | the date-format step; `DeriveDateFormat` states it |
| Derivation.DeriveDateFormat | pelican/contents.py:76-85 | the date format is the loaded one, else the DATE_FORMATS entry for the lang (text, or a URLWrapper by its name), else the item of a tuple DATE_FORMATS that the lang is found in and indexes, else DEFAULT_DATE_FORMAT; a `(locale, format)` pair becomes its format; a page with a lang and no format of its own needs DATE_FORMATS |
| Derivation.WithLocaleDate | pelican/contents.py:87-94 | the `locale_date` step; `DeriveLocaleDate` states it |
| Derivation.DeriveLocaleDate | pelican/contents.py:87-94 | with a date, `locale_date` is that date formatted with the final text date format |
| Derivation.IsFuture | pelican/contents.py:100 | `self.date > datetime.now()`; `DeriveStatus` states it |
| Derivation.WithStatus | pelican/contents.py:96-101 | the status step; `DeriveStatus` states it |
| Derivation.DeriveStatus | pelican/contents.py:96-101 | a loaded status is kept; otherwise it is DEFAULT_STATUS, or `draft` for a date after `now` when WITH_FUTURE_DATES is false |
| Derivation.WithSummary | pelican/contents.py:103-105 | the summary step; `DeriveSummary` states it |
| Derivation.DeriveSummary | pelican/contents.py:103-105 | only a `summary` in the item's own metadata becomes the explicit summary, and it is kept as given |
| Derivation.DeriveSucceeds | pelican/contents.py:52-105 | whether construction succeeds depends only on the lang, the date format, the status and the date: two attribute maps that agree on those both succeed |
| Derivation.DeriveLenient | pelican/contents.py:29-107 | construction does not need the mandatory properties: a page that can be built can also be built without its title, its date or its category; `check_properties` reports them |
| Contents.Check | pelican/contents.py:109-113 | the check passes exactly when every mandatory property is present; otherwise it fails with NameError naming the first one missing, in declared order |
| Contents.Page.CheckProperties | pelican/contents.py:109-113 | the loop over the mandatory properties computes `Check` for the page's class |
| Contents.ValidationOrder | pelican/contents.py:109-113 | an Article is checked for title, then date, then category; a Page or a Quote for its title only |
| Contents.IsValidContent | pelican/contents.py:317-324 | true exactly when every mandatory property of the content's class is present |
| Contents.Page.UrlFormat | pelican/contents.py:115-124 | the template parameters, for `url` and `save_as` alike; `SlugUrl`, `LangDefaultUrl`, `DateDefaultUrl`, `AuthorDefaultUrl`, `CategoryDefaultUrl` and `DefaultCategoryRequired` state them |
| Contents.Page.ExpandSettings | pelican/contents.py:126-128 | the setting named by class and key, formatted; `ArticleSettingNames`, `PageSettingNames`, `QuoteSettingNames` and `ArticleUrlSetting` state it |
| Contents.Page.GetUrlSetting | pelican/contents.py:130-132 | `lang_` is prefixed outside the default language; `ArticleUrlSetting` and `LangSlugUrl` state it |
| Contents.Page.Url | pelican/contents.py:206 | the `url` property; `SlugUrl`, `LangSlugUrl` and `CategoryDefaultUrl` state it |
| Contents.Page.SaveAs | pelican/contents.py:207 | the `save_as` property, read like `url` from the SAVE_AS settings; `SlugSaveAs`, `LangSlugSaveAs`, `ArticleUrlSetting`, the `*SettingNames` lemmas and, for key `save_as`, `SlugUrl`, `LangSlugUrl`, the `*DefaultUrl` lemmas and `DefaultCategoryRequired` state it |
| Contents.DefaultCategoryRequired | pelican/contents.py:119-123 | without DEFAULT_CATEGORY no url can be computed from a template, even for a page that has its own category |
| Contents.ArticleSettingNames | pelican/contents.py:126-132 | an Article reads ARTICLE_URL, ARTICLE_LANG_URL, ARTICLE_SAVE_AS and ARTICLE_LANG_SAVE_AS: the upper-cased class name and key |
| Contents.PageSettingNames | pelican/contents.py:126-132 | a Page reads PAGE_URL, PAGE_LANG_URL, PAGE_SAVE_AS and PAGE_LANG_SAVE_AS |
| Contents.QuoteSettingNames | pelican/contents.py:126-128 | a Quote reads QUOTE_URL and QUOTE_SAVE_AS |
| Contents.ArticleUrlSetting | pelican/contents.py:126-132 | an Article's `url` reads ARTICLE_URL in the default language and ARTICLE_LANG_URL otherwise, its `save_as` ARTICLE_SAVE_AS or ARTICLE_LANG_SAVE_AS; a missing one is a KeyError naming it, and one that is not text an AttributeError on `format` |
| Contents.SlugUrl | pelican/contents.py:126-128 | for any key (`url`, `save_as`), a `{slug}.html` template gives the slug followed by `.html` |
| Contents.SlugSaveAs | pelican/contents.py:207 | with ARTICLE_SAVE_AS (or PAGE_SAVE_AS) `{slug}.html` the page is saved as `<slug>.html` |
| Contents.LangSlugSaveAs | pelican/contents.py:130-132 | outside the default language, with the LANG_SAVE_AS setting `{lang}/{slug}.html`, the page is saved as `<lang>/<slug>.html` |
| Contents.LangSlugUrl | pelican/contents.py:130-132 | for any key, outside the default language a `{lang}/{slug}.html` template gives lang, slash, slug, `.html` |
| Contents.CategoryDefaultUrl | pelican/contents.py:115-128 | for any key (`url`, `save_as`), a page without a category is filed under DEFAULT_CATEGORY and one without a slug gets an empty slug: `{category}/{slug}.html` gives `<DEFAULT_CATEGORY>/.html` |
| Contents.LangDefaultUrl | pelican/contents.py:115-128 | for any key (`url`, `save_as`), a page without a lang is taken to be in English: `{lang}/{slug}.html` gives `en/<slug>.html` |
| Contents.DateDefaultUrl | pelican/contents.py:115-128 | for any key (`url`, `save_as`), a page without a date is dated at the time the url is computed: `{date}/{slug}.html` gives the text of `now`, a slash, the slug and `.html` |
| Contents.AuthorDefaultUrl | pelican/contents.py:115-128 | for any key (`url`, `save_as`), a page without an author has an empty author: `{author}/{slug}.html` gives `/<slug>.html` |
| Formatting.Format | pelican/contents.py:128 | `str.format(**params)`; `FormatLiteral`, `FormatField`, `FormatMissingField`, `FormatPositionalField` and `FormatAppend` state it |
| Formatting.FormatLiteral | pelican/contents.py:128 | text without braces is its own expansion |
| Formatting.FormatAppend | pelican/contents.py:128 | a template that expands on its own expands the same way in front of any further text |
| Formatting.FormatField | pelican/contents.py:128 | a field naming a parameter is replaced by the parameter's value |
| Formatting.FormatMissingField | pelican/contents.py:128 | a template field naming no parameter is a KeyError naming the field |
| Formatting.FormatPositionalField | pelican/contents.py:128 | a field made of digits, or empty, is positional, and with keyword parameters only it is an IndexError |
| Paths.Join | pelican/contents.py:225 | `os.path.join`; `RelPathOfJoin` and `Static.StaticLocations` state it |
| Paths.Split | pelican/contents.py:224-227 | `split('/')`: at least one segment, none holding a separator |
| Paths.JoinSplit | pelican/contents.py:224-227 | joining the segments of a split with `/` gives back the path |
| Paths.RelPath | pelican/contents.py:224-227 | `relpath(abspath(p), abspath(start))`; `RelPathOfJoin` and `RelSegmentsRoundTrip` state it |
| Paths.RelSegmentsRoundTrip | pelican/contents.py:224-227 | walking the relative path from the start leads back to the path |
| Paths.RelPathOfJoin | pelican/contents.py:224-227 | a relative path of plain segments joined to a base is given back by taking it relative to that base, whatever the working directory |
| Paths.DirName | pelican/contents.py:231-234 | `os.path.dirname`; `DirNameOfPlain` states it |
| Paths.DirNameOfPlain | pelican/contents.py:231-234 | the directory of a path of plain segments is the path of all but its last segment |
| Paths.SplitExt | pelican/contents.py:279 | `os.path.splitext`: the two parts put together give the path, and the extension is empty or a dot followed by neither a dot nor a separator |
| Paths.SplitExtOf | pelican/contents.py:279 | `dir/base.ext` splits into `dir/base` and `.ext` |
| Paths.SplitExtBare | pelican/contents.py:279 | `base.ext`, without a directory, splits into `base` and `.ext` |
| Contents.Page.GetRelativeFilename | pelican/contents.py:215-227 | `RelativeFilenameOfPlain` and `OwnFilenameRelative` state it |
| Contents.Page.RelativeDir | pelican/contents.py:229-234 | `RelativeDirOf` states it |
| Contents.RelativeFilenameOfPlain | pelican/contents.py:215-227 | a relative path of plain segments is its own path relative to the content root |
| Contents.OwnFilenameRelative | pelican/contents.py:221-227 | without an argument the page's own filename is used: a page stored at `PATH/d1/…/name` has relative filename `d1/…/name` |
| Contents.RelativeDirOf | pelican/contents.py:229-234 | a page stored at `PATH/d1/…/dn/name` has relative directory `d1/…/dn` |
| Links.Rewrite | pelican/contents.py:175 | `hrefs.sub(replacer, content)`; the four lemmas below state it |
| Links.RewriteAppend | pelican/contents.py:175 | the substitution works segment by segment, so a concatenation is rewritten part by part |
| Links.RewriteIdentity | pelican/contents.py:172-173 | when every placeholder resolves to itself the body is unchanged |
| Links.RewriteDependsOnReferences | pelican/contents.py:150-175 | only the placeholders in the body decide the result |
| Links.RewriteSingle | pelican/contents.py:172-173 | a placeholder keeps its markup and quotes, and a resolver error ends the substitution |
| Contents.Page.Target | pelican/contents.py:158-164 | the index key a reference names; `ReplacementRooted` and `RelativeTarget` state it |
| Contents.Page.Replacement | pelican/contents.py:150-173 | `replacer`; `ReplacementRooted` and `OtherKindsKept` state it |
| Contents.Page.UpdateContent | pelican/contents.py:134-175 | `_update_content`; `LinkToIndexedFile`, `UnresolvedKept` and `OtherKindsKept` state it |
| Contents.Page.Rewritten | pelican/contents.py:178-182 | the body `get_content` computes against the context as it is; the same lemmas state it |
| Contents.OtherKindsKept | pelican/contents.py:157-175 | a body whose references are all of a kind other than `filename` is written back as it was, even for a page without a context |
| Contents.ReplacementRooted | pelican/contents.py:158-170 | `/key` becomes the url of `key` when the index has it and stays as written otherwise; without a context it cannot be resolved |
| Contents.RelativeTarget | pelican/contents.py:160-164 | a relative reference is taken from the page's own directory |
| Contents.LinkToIndexedFile | pelican/contents.py:134-175 | a body whose one reference names an indexed file becomes that file's url between the same markup and quotes |
| Contents.UnresolvedKept | pelican/contents.py:166-170 | references the index lacks, and references of other kinds, leave the body as written |
| Contents.Cached | pelican/contents.py:177 | the memo after a call: a result is stored the first time and an exception stores nothing; `GetContent` states its use |
| Contents.Page.Memo | pelican/contents.py:177-182 | what memoized `get_content` returns; `GetContent` and `StaleMemo` state it |
| Contents.Page.GetContent | pelican/contents.py:177-182 | a cached body is returned as it is; otherwise the body is rewritten against the context of the call, and a success is cached; while the context does not change, the cache stays current and the result is the rewritten body |
| Contents.StaleMemo | pelican/contents.py:177-186 | a body cached while its target was not yet indexed keeps the reference as written after the target is indexed, although rewriting now gives the target's url |
| Contents.Page.ContentText | pelican/contents.py:184-186 | the `content` property's value; `Content` states it |
| Contents.Page.Content | pelican/contents.py:184-186 | the content is the memoized body for the context's local site url, and a page without a context fails |
| Contents.Page.Summary | pelican/contents.py:188-197 | the `summary` property's value; `SummaryFromMetadata` and `SummaryOfBuiltPage` state it |
| Contents.Page.GetSummary | pelican/contents.py:188-197 | the summary is `Summary`, and the content is computed and cached only when there is no explicit summary and SUMMARY_MAX_LENGTH is set |
| Contents.SummaryFromMetadata | pelican/contents.py:188-192 | a `summary` given in the metadata is the summary, as given |
| Contents.SummaryOfBuiltPage | pelican/contents.py:188-197 | a page whose own metadata has no summary is summarised by its rewritten body, cut to SUMMARY_MAX_LENGTH words when that setting is truthy, even when DEFAULT_METADATA has a summary |
| Contents.Page.SetSummary | pelican/contents.py:199-204 | assigning the summary changes nothing |
| UrlWrappers.New | pelican/contents.py:247-250 | the name is `unicode(name)`; `NewTag` and `EqualsByName` state what follows from it |
| UrlWrappers.NewTag | pelican/contents.py:292-294 | a tag's name is `Strip` of its argument: a slice of it without white space at either end, with only white space cut off; the slug is made from the stripped name |
| Strings.Strip | pelican/contents.py:294 | the result is a slice of the input without white space at either end, and all that was cut off is white space |
| Strings.StripIdempotent | pelican/contents.py:294 | a stripped name is left alone by a second strip |
| UrlWrappers.Equals | pelican/contents.py:258-259 | `__eq__`; `EqualsByName` states it |
| UrlWrappers.Hash | pelican/contents.py:255-256 | `__hash__`; `EqualsHashAlike` states it |
| UrlWrappers.EqualsByName | pelican/contents.py:258-259 | two wrappers are equal exactly when their names are, whatever their kind; a wrapper equals the text of its name; equality is symmetric |
| UrlWrappers.EqualsHashAlike | pelican/contents.py:255-259 | equal wrappers hash alike |
| UrlWrappers.TagsEqualUpToWhiteSpace | pelican/contents.py:292-294 | two tags are equal exactly when their names are equal after stripping |
| UrlWrappers.TagsCaseSensitive | pelican/contents.py:258-259 | `Tag("Foo")` and `Tag("foo ")` are not equal |
| UrlWrappers.FromSettings | pelican/contents.py:267-281 | a missing setting is a KeyError naming it, a non-text setting is returned as it is, and a text template gives text |
| UrlWrappers.PageName | pelican/contents.py:283 | `page_name`; `UrlIsPageNamePlusExtension` and `SlugTemplate` state it |
| UrlWrappers.Url | pelican/contents.py:284 | `url`; `FromSettings`, `UrlIsPageNamePlusExtension` and `SlugTemplate` state it |
| UrlWrappers.SaveAs | pelican/contents.py:285 | `save_as`, read from the SAVE_AS setting; `FromSettings`, `SlugSaveAs` and `SlugFromSettings` state it |
| UrlWrappers.UrlIsPageNamePlusExtension | pelican/contents.py:283-284 | the url is the page name followed by the template's extension |
| UrlWrappers.SlugTemplate | pelican/contents.py:277-281 | a `dir/{slug}.ext` template gives page name `dir/<slug>` and url `dir/<slug>.ext` |
| UrlWrappers.BareSlugTemplate | pelican/contents.py:277-284 | a `{slug}.ext` template gives page name `<slug>` and url `<slug>.ext` |
| UrlWrappers.SlugFromSettings | pelican/contents.py:267-281 | for any key (`URL`, `SAVE_AS`), a `dir/{slug}.ext` setting read in full gives `dir/<slug>.ext` |
| UrlWrappers.BareSlugFromSettings | pelican/contents.py:267-281 | for any key, a `{slug}.ext` setting read in full gives `<slug>.ext` |
| UrlWrappers.SlugSaveAs | pelican/contents.py:285 | with SAVE_AS `dir/{slug}.ext` a wrapper is saved as `dir/<slug>.ext` |
| UrlWrappers.CategoryUrlExample | pelican/contents.py:268-272 | with CATEGORY_URL `cat/{slug}.html` a category's page name is `cat/<slug>` and its url `cat/<slug>.html` |
| Static.JoinSetting | pelican/contents.py:307-308 | an absolute path ignores the root; a text root is joined; a relative path under any other root fails |
| Static.NewStatic | pelican/contents.py:301-308 | the url is the destination when one is given, else the source; the file path is the source joined to PATH and the output path the url joined to OUTPUT_PATH; PATH is read and joined before OUTPUT_PATH, and either one missing is a KeyError; absolute paths are kept as they are |
| Static.StaticLocations | pelican/contents.py:305-308 | the file is read at its source path under PATH and written at its url under OUTPUT_PATH |

## Left out

- Locale handling: `locale.setlocale` for a `(locale, format)` date format is not modelled. `strftime` and the Windows/UTF-8 decoding of its result are the collaborator `Env.strftime`.
- Text values are unicode. Python 2's byte `str` is not told apart from `unicode`, so the TypeError of `unicode.strip` on a byte string in `Tag.__init__` and the UnicodeDecodeError of `unicode(name)` or `unicode(value)` on non-ASCII bytes (pelican/contents.py:248, 279, 281, 294) are not modelled.
- Case mapping is ASCII only: `lower()` and `upper()` of non-ASCII letters are not modelled.
- Format: `str.format` is modelled for `{name}` fields, positional fields and the `{{`/`}}` escapes. Format specs, conversions, attribute access and indexing in fields (`{date:%Y}`) are not modelled, and only ASCII digits make a field positional.
- A metadata key that shadows a class attribute or a field set before the loop is stored like any other attribute. The model keeps the page's own settings, metadata, body and context apart. Affected names: `settings`, `metadata`, `translations`, `_content`, `_context`, `default_template`, `mandatory_properties`. The class attributes `mandatory_properties` and `default_template` are likewise read from the class, not from the attributes.
- A metadata key naming a method stores a value in place of that method, so Python's next call to it raises TypeError (not callable). The model always calls the methods as defined. Affected names: `_get_template` (called during construction), `check_properties` (called by `is_valid_content`), `_expand_settings`, `get_relative_filename`, `_update_content` and `get_content`. The properties `url`, `save_as`, `content` and `summary` hold their functions themselves, so shadowing `get_url_setting`, `_get_summary` or `_set_summary` changes nothing, in the source as in the model. `_get_content` is read from the attributes, as the source does.
- `translations` (always `[]` after construction) is not modelled.
- Derivation.DefaultMetadata: a key that is not text is reported once the whole dict is built, so it is reported before any read-only key; in Python the order of the `setattr` loop decides which of the two is raised.
- Derivation.Pair: a two-entry dict used as an element of DEFAULT_METADATA raises TypeError in the model. Python would pair its two keys, in its own iteration order.
- Derivation.ReduceDateFormat: `Value` has no list, so a list date format cannot be told apart from a tuple; only a tuple is reduced.
- A `filename` attribute or PATH setting that is not text raises TypeError in `get_relative_filename` and `relative_dir`. The exact exception Python raises there depends on the type.
- Context.filenames maps a path straight to the target's url string, not to a content object with a `url`. The context is otherwise a record, so a context dict lacking `filenames` or `localsiteurl` cannot occur.
- The context is passed to each call as it is at that moment. That every call on one page sees the same, growing dict is left to the caller.
- The placeholder regular expression is not modelled: the body is held already split into text and placeholder segments. How the regex cuts a body (non-greedy `what`/`value`, a tag start before `href=`/`src=`) is outside the model.
- Python equality between values of different types is exact equality except for URLWrapper objects and for an int against a bool (`True == 1`). There are no floats, so `1 == 1.0` is not modelled, and a bool and an int inside two tuples compare as different.
- Paths starting with exactly two slashes (which POSIX `normpath` keeps) are treated like single-slash paths.
- The title is slugified through its text (`unicode(title)`).
- The memoized decorator's cache is per page, as a field. Sharing across objects and the hashing of its arguments are not modelled.
- Logging, the `content_object_init` signal, `__str__`/`__unicode__`, `as_dict` beyond the format parameters and the deep copy of `_DEFAULT_CONFIG` are not modelled.
- Contents.DefaultCategoryRequired: only the missing-setting case is stated. A DEFAULT_CATEGORY of any type is accepted, as in the source.
- Contents.SlugUrl: stated for a `{slug}` field followed by brace-free text, not for every template.
- Contents.LangSlugUrl: stated for `{lang}/{slug}` followed by brace-free text, not for every template.
- Contents.LangDefaultUrl: stated for `{lang}/{slug}` followed by brace-free text, not for every template.
- Contents.DateDefaultUrl: stated for `{date}/{slug}` followed by brace-free text, not for every template.
- Contents.AuthorDefaultUrl: stated for `{author}/{slug}` followed by brace-free text, not for every template.
- Contents.CategoryDefaultUrl: stated for `{category}/{slug}` followed by brace-free text, not for every template.
- Contents.SlugSaveAs: stated for `{slug}` followed by brace-free text, not for every template.
- Contents.LangSlugSaveAs: stated for `{lang}/{slug}` followed by brace-free text, not for every template.
- UrlWrappers.SlugFromSettings: stated for `dir/{slug}.ext` and, in BareSlugFromSettings, `{slug}.ext`, not for every template.
- Contents.OwnFilenameRelative: stated for an absolute PATH; under a relative PATH the page's filename is joined to PATH a second time, as in the source.
- Paths.RelPathOfJoin: stated for relative paths of plain segments. Paths through `.` or `..` are normalised by the model but have no lemma of their own.
- Contents.RelativeTarget: stated for a page and a reference made of plain segments. A reference through `..` has no lemma of its own.
- Static.StaticLocations: stated for a source and a destination made of plain segments.
