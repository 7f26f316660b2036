/** Static files (images, downloads) copied to the output as they are: where the file is read
    from, the url it is published at and where it is written. */
module Static {
  import opened Base
  import opened Paths

  datatype StaticContent = StaticContent(src: string, url: string, filepath: string, saveAs: string)

  /** `os.path.join(root, p)` with `root` taken from the settings as it is: an absolute `p`
      replaces the root, whatever the root is. Otherwise a text root is joined; any other root
      is first compared with '' and then asked for `endswith`, which only a URLWrapper named ''
      passes, to fail on `+` instead. */
  function JoinSetting(root: Value, p: string): (r: Result<string, Error>)
    ensures p != [] && p[0] == '/' ==> r == Success(p)
    ensures root.Str? ==> r == Success(Join(root.s, p))
    ensures (p == [] || p[0] != '/') && !root.Str? ==> r.Failure?
  {
    if p != [] && p[0] == '/' then Success(p)
    else
      match root
      case Str(s) => Success(Join(s, p))
      case Wrapper(w) => if w.name == [] then Failure(TypeError) else Failure(AttributeError("endswith"))
      case _ => Failure(AttributeError("endswith"))
  }

  /** `StaticContent(src, dst, settings)`: an empty or missing `dst` publishes the file under its
      source path. PATH is read and joined before OUTPUT_PATH, and either one missing is a
      KeyError. An absolute source or url does not look at its root at all. */
  function NewStatic(src: string, dst: string, settings: map<string, Value>, env: Env): (r: Result<StaticContent, Error>)
    ensures var s := EffectiveSettings(settings, env);
            ("PATH" !in s ==> r == Failure(KeyError("PATH")))
            && ("PATH" in s && JoinSetting(s["PATH"], src).Failure? ==> r == Failure(JoinSetting(s["PATH"], src).error))
            && ("PATH" in s && JoinSetting(s["PATH"], src).Success? && "OUTPUT_PATH" !in s ==>
                  r == Failure(KeyError("OUTPUT_PATH")))
    ensures r.Success? ==> r.value.src == src && r.value.url == (if dst != [] then dst else src)
    ensures var s := EffectiveSettings(settings, env);
            r.Success? ==> "PATH" in s && JoinSetting(s["PATH"], src) == Success(r.value.filepath)
                           && "OUTPUT_PATH" in s && JoinSetting(s["OUTPUT_PATH"], r.value.url) == Success(r.value.saveAs)
    ensures var s := EffectiveSettings(settings, env);
            var url := if dst != [] then dst else src;
            "PATH" in s && "OUTPUT_PATH" in s && src != [] && src[0] == '/' && url != [] && url[0] == '/' ==>
              r == Success(StaticContent(src, url, src, url))
  {
    var s := EffectiveSettings(settings, env);
    var url := if dst != [] then dst else src;
    if "PATH" !in s then Failure(KeyError("PATH"))
    else
      var filepath :- JoinSetting(s["PATH"], src);
      if "OUTPUT_PATH" !in s then Failure(KeyError("OUTPUT_PATH"))
      else
        var saveAs :- JoinSetting(s["OUTPUT_PATH"], url);
        Success(StaticContent(src, url, filepath, saveAs))
  }

  /** The file is read from its source path under PATH and written at its url under
      OUTPUT_PATH: for relative paths of plain segments, each is recovered by taking the
      location relative to its root. */
  lemma StaticLocations(src: seq<string>, dst: string, settings: map<string, Value>, env: Env)
    requires src != [] && AllPlain(src)
    requires dst == [] || exists segments :: segments != [] && AllPlain(segments) && dst == JoinSegments(segments)
    requires NewStatic(JoinSegments(src), dst, settings, env).Success?
    ensures var s := EffectiveSettings(settings, env);
            var c := NewStatic(JoinSegments(src), dst, settings, env).value;
            "PATH" in s && s["PATH"].Str? && "OUTPUT_PATH" in s && s["OUTPUT_PATH"].Str?
            && RelPath(c.filepath, s["PATH"].s, env.cwd) == JoinSegments(src)
            && RelPath(c.saveAs, s["OUTPUT_PATH"].s, env.cwd) == c.url
  {
    var s := EffectiveSettings(settings, env);
    JoinStart(src);
    if dst == [] {
      RelPathOfJoin(s["PATH"].s, src, env.cwd);
      RelPathOfJoin(s["OUTPUT_PATH"].s, src, env.cwd);
    } else {
      var segments :| segments != [] && AllPlain(segments) && dst == JoinSegments(segments);
      JoinStart(segments);
      RelPathOfJoin(s["PATH"].s, src, env.cwd);
      RelPathOfJoin(s["OUTPUT_PATH"].s, segments, env.cwd);
    }
  }
}
