/** The configuration `JsonnetVM` in pkg/kubecfg/vm.go gives the Jsonnet VM:
    the import search path, the external variables and top-level arguments
    (file-sourced ones rewritten into import expressions), and the image
    resolver. The VM itself is outside the model; what is modelled is the
    configuration it receives. */
module KubecfgVm {
  import opened Wrappers
  import opened Errors
  import opened Sequencing
  import opened FilePaths
  import opened KubecfgResolver

  /** A parsed URL (`*url.URL`): the path, which the core changes, and the
      other parts, which it carries unchanged. */
  datatype Url = Url(scheme: string, host: string, path: string, query: string)

  /** `&url.URL{Scheme: "file", Path: path}`. */
  function FileUrl(path: string): Url {
    Url("file", "", path, "")
  }

  predicate EndsWithSlash(s: string) {
    |s| > 0 && s[|s| - 1] == '/'
  }

  /** The facilities of the host `JsonnetVM` uses. */
  datatype Host = Host(
    // filepath.Abs
    abs: string -> Result<AbsPath, string>,
    // url.Parse
    parse: string -> Result<Url, string>,
    // os.Getwd
    getwd: Result<string, string>,
    // filepath.Join of two elements
    join: (string, string) -> string,
    // (*url.URL).String
    urlString: Url -> string)

  // ---------------------------------------------------------------- search path

  /** `dirURL`: a file URL for a directory, with the trailing slash the
      importer needs. Callers pass absolute, hence non-empty, paths. */
  function DirURL(path: string): (u: Url)
    requires |path| > 0
    ensures u == FileUrl(u.path) && EndsWithSlash(u.path)
    ensures EndsWithSlash(ToSlash(path)) ==> u.path == ToSlash(path)
    ensures !EndsWithSlash(ToSlash(path)) ==> u.path == ToSlash(path) + "/"
  {
    var p := ToSlash(path);
    FileUrl(if p[|p| - 1] != '/' then p + "/" else p)
  }

  /** A directory URL is its own directory URL. */
  lemma DirURLIdempotent(path: string)
    requires |path| > 0
    ensures DirURL(DirURL(path).path) == DirURL(path)
  {
  }

  /** The trailing-slash step for import URLs as written: the last byte of
      the path is read without a length check, which panics on a URL with an
      empty path such as "https://example.com". It fails exactly on an empty
      path; otherwise only the path changes, and it then ends in '/'. */
  function TrailingSlashAsWritten(u: Url): (r: Result<Url, Error>)
    ensures r.Err? <==> u.path == ""
    ensures r.Err? ==> r.error == IndexOutOfRange
    ensures r.Ok? ==> EndsWithSlash(r.value.path) && r.value.(path := u.path) == u
  {
    if |u.path| == 0 then Err(IndexOutOfRange)
    else if u.path[|u.path| - 1] != '/' then Ok(u.(path := u.path + "/"))
    else Ok(u)
  }

  /** `url.Parse("https://example.com")` has an empty path; the step panics. */
  lemma TrailingSlashHostOnly()
    ensures TrailingSlashAsWritten(Url("https", "example.com", "", "")) == Err(IndexOutOfRange)
  {
  }

  /** The trailing-slash step with the empty path treated as not ending in '/'. */
  function WithTrailingSlash(u: Url): (r: Url)
    ensures EndsWithSlash(r.path)
    ensures r.(path := u.path) == u
    ensures EndsWithSlash(u.path) ==> r == u
    ensures !EndsWithSlash(u.path) ==> r.path == u.path + "/"
  {
    if |u.path| == 0 || u.path[|u.path| - 1] != '/' then u.(path := u.path + "/") else u
  }

  /** The corrected step agrees with the step as written wherever that does
      not panic, and applying it twice is applying it once. */
  lemma WithTrailingSlashAgrees(u: Url)
    ensures TrailingSlashAsWritten(u).Ok? ==> TrailingSlashAsWritten(u).value == WithTrailingSlash(u)
    ensures WithTrailingSlash(WithTrailingSlash(u)) == WithTrailingSlash(u)
  {
  }

  /** The special URL that finds embedded content. */
  const InternalURL: string := "internal:///"

  function LocalStep(host: Host, p: string): Result<seq<Url>, Error> {
    var a :- Lift(host.abs(p));
    Ok([DirURL(a)])
  }

  function RemoteStep(host: Host, s: string): Result<seq<Url>, Error> {
    var u :- Lift(host.parse(s));
    Ok([WithTrailingSlash(u)])
  }

  function LocalSteps(host: Host, importPath: seq<string>): seq<Result<seq<Url>, Error>> {
    seq(|importPath|, i requires 0 <= i < |importPath| => LocalStep(host, importPath[i]))
  }

  function RemoteSteps(host: Host, urls: seq<string>): seq<Result<seq<Url>, Error>> {
    seq(|urls|, i requires 0 <= i < |urls| => RemoteStep(host, urls[i]))
  }

  /** The search path: the import directories, then the import URLs, then the
      internal URL; the first entry that fails to resolve or parse is the error. */
  function SearchPath(host: Host, importPath: seq<string>, importURLs: seq<string>): Result<seq<Url>, Error> {
    var locals :- Sequence(LocalSteps(host, importPath));
    var remotes :- Sequence(RemoteSteps(host, importURLs + [InternalURL]));
    Ok(locals + remotes)
  }

  /** The two loops of `JsonnetVM` that build `searchUrls`. */
  method AssembleSearchPath(host: Host, importPath: seq<string>, importURLs: seq<string>)
    returns (r: Result<seq<Url>, Error>)
    ensures r == SearchPath(host, importPath, importURLs)
  {
    ghost var local := LocalSteps(host, importPath);
    var searchUrls: seq<Url> := [];
    var i := 0;
    while i < |importPath|
      invariant 0 <= i <= |importPath|
      invariant Sequence(local[..i]) == Ok(searchUrls)
    {
      var p := host.abs(importPath[i]);
      assert local[i] == LocalStep(host, importPath[i]);
      assert local[..i + 1] == local[..i] + [local[i]];
      SequenceSnoc(local[..i], local[i]);
      if p.Err? {
        SequenceStopsAt(local, i);
        return Err(Foreign(p.error));
      }
      searchUrls := searchUrls + [DirURL(p.value)];
      i := i + 1;
    }
    assert local[..i] == local;
    ghost var locals := searchUrls;

    var sURLs := importURLs + [InternalURL];
    ghost var remote := RemoteSteps(host, sURLs);
    var j := 0;
    while j < |sURLs|
      invariant 0 <= j <= |sURLs|
      invariant Sequence(remote[..j]).Ok?
      invariant searchUrls == locals + Sequence(remote[..j]).value
    {
      var u := host.parse(sURLs[j]);
      assert remote[j] == RemoteStep(host, sURLs[j]);
      assert remote[..j + 1] == remote[..j] + [remote[j]];
      SequenceSnoc(remote[..j], remote[j]);
      if u.Err? {
        SequenceStopsAt(remote, j);
        return Err(Foreign(u.error));
      }
      var url := u.value;
      if |url.path| == 0 || url.path[|url.path| - 1] != '/' {
        url := url.(path := url.path + "/");
      }
      searchUrls := searchUrls + [url];
      j := j + 1;
    }
    assert remote[..j] == remote;
    return Ok(searchUrls);
  }

  lemma LocalsShape(host: Host, importPath: seq<string>)
    ensures Sequence(LocalSteps(host, importPath)).Ok? <==>
              forall i | 0 <= i < |importPath| :: host.abs(importPath[i]).Ok?
    ensures Sequence(LocalSteps(host, importPath)).Ok? ==>
              Sequence(LocalSteps(host, importPath)).value ==
                seq(|importPath|, i requires 0 <= i < |importPath| && host.abs(importPath[i]).Ok? =>
                      DirURL(host.abs(importPath[i]).value))
  {
    var steps := LocalSteps(host, importPath);
    SequenceOk(steps);
    assert forall i | 0 <= i < |importPath| :: steps[i] == LocalStep(host, importPath[i]);
    if forall i | 0 <= i < |importPath| :: host.abs(importPath[i]).Ok? {
      SequenceSingletons(steps, seq(|importPath|, i requires 0 <= i < |importPath| && host.abs(importPath[i]).Ok? =>
                                      DirURL(host.abs(importPath[i]).value)));
    }
  }

  lemma RemotesShape(host: Host, urls: seq<string>)
    ensures Sequence(RemoteSteps(host, urls)).Ok? <==>
              forall i | 0 <= i < |urls| :: host.parse(urls[i]).Ok?
    ensures Sequence(RemoteSteps(host, urls)).Ok? ==>
              Sequence(RemoteSteps(host, urls)).value ==
                seq(|urls|, i requires 0 <= i < |urls| && host.parse(urls[i]).Ok? =>
                      WithTrailingSlash(host.parse(urls[i]).value))
  {
    var steps := RemoteSteps(host, urls);
    SequenceOk(steps);
    assert forall i | 0 <= i < |urls| :: steps[i] == RemoteStep(host, urls[i]);
    if forall i | 0 <= i < |urls| :: host.parse(urls[i]).Ok? {
      SequenceSingletons(steps, seq(|urls|, i requires 0 <= i < |urls| && host.parse(urls[i]).Ok? =>
                                      WithTrailingSlash(host.parse(urls[i]).value)));
    }
  }

  /** The search path has one entry per import directory, in order, then one
      per import URL, in order, then the internal URL last; every entry's
      path ends in '/'. It is built exactly when every directory resolves and
      every URL parses. */
  lemma {:induction false} SearchPathShape(host: Host, importPath: seq<string>, importURLs: seq<string>)
    ensures SearchPath(host, importPath, importURLs).Ok? <==>
              (forall i | 0 <= i < |importPath| :: host.abs(importPath[i]).Ok?) &&
              (forall j | 0 <= j < |importURLs| :: host.parse(importURLs[j]).Ok?) &&
              host.parse(InternalURL).Ok?
    ensures SearchPath(host, importPath, importURLs).Ok? ==>
              var r := SearchPath(host, importPath, importURLs).value;
              && |r| == |importPath| + |importURLs| + 1
              && (forall i | 0 <= i < |importPath| :: r[i] == DirURL(host.abs(importPath[i]).value))
              && (forall j | 0 <= j < |importURLs| ::
                    r[|importPath| + j] == WithTrailingSlash(host.parse(importURLs[j]).value))
              && r[|importPath| + |importURLs|] == WithTrailingSlash(host.parse(InternalURL).value)
              && (forall k | 0 <= k < |r| :: EndsWithSlash(r[k].path))
  {
    var urls := importURLs + [InternalURL];
    LocalsShape(host, importPath);
    RemotesShape(host, urls);
    assert forall j | 0 <= j < |importURLs| :: urls[j] == importURLs[j];
    assert urls[|importURLs|] == InternalURL;
    assert (forall j | 0 <= j < |urls| :: host.parse(urls[j]).Ok?) <==>
           (forall j | 0 <= j < |importURLs| :: host.parse(importURLs[j]).Ok?) && host.parse(InternalURL).Ok? by {
      if (forall j | 0 <= j < |importURLs| :: host.parse(importURLs[j]).Ok?) && host.parse(InternalURL).Ok? {
        forall j | 0 <= j < |urls| ensures host.parse(urls[j]).Ok? {
          if j < |importURLs| { assert urls[j] == importURLs[j]; }
        }
      }
    }
    if SearchPath(host, importPath, importURLs).Ok? {
      var locals := Sequence(LocalSteps(host, importPath)).value;
      var remotes := Sequence(RemoteSteps(host, urls)).value;
      var r := SearchPath(host, importPath, importURLs).value;
      assert r == locals + remotes;
      assert forall k | 0 <= k < |locals| :: EndsWithSlash(locals[k].path);
      assert forall k | 0 <= k < |remotes| :: EndsWithSlash(remotes[k].path);
    }
  }

  // ---------------------------------------------------------------- variables

  /** Where a variable's value comes from: the value itself, or a file it names. */
  datatype VarSource = Literal | File

  /** Whether the value is a string or Jsonnet code. */
  datatype VarExpr = StringExpr | CodeExpr

  /** `vars.Var`: an external variable or top-level argument. Which of the two
      it is decides its `Setter`, a call into the VM that is not modelled. */
  datatype Var = Var(name: string, value: string, source: VarSource, expr: VarExpr)

  /** The call `v.Setter()(vm, name, value)`: the variable and the value it is
      set to. */
  datatype Binding = Binding(v: Var, value: string)

  /** `strings.ReplaceAll(s, "'", "''")`: never shorter, and a string with no
      quote is left as it is. */
  function Esc(s: string): (e: string)
    ensures |e| >= |s|
    ensures '\'' !in s ==> e == s
    ensures '\'' in s ==> |e| > |s|
  {
    if s == [] then [] else (if s[0] == '\'' then "''" else [s[0]]) + Esc(s[1..])
  }

  /** The body of a Jsonnet verbatim string `@'…'`, read up to its closing
      quote: `''` stands for one quote, a single quote ends the string. Yields
      the string and what follows, or `None` for an unterminated string. */
  function ReadVerbatim(s: string): Option<(string, string)>
    decreases |s|
  {
    if s == [] then None
    else if s[0] == '\'' then
      if |s| > 1 && s[1] == '\'' then
        var r := ReadVerbatim(s[2..]);
        if r.None? then None else Some(("'" + r.value.0, r.value.1))
      else Some(("", s[1..]))
    else
      var r := ReadVerbatim(s[1..]);
      if r.None? then None else Some(([s[0]] + r.value.0, r.value.1))
  }

  /** Doubling the quotes makes any string safe inside `@'…'`: reading the
      literal back gives exactly the string, and nothing after the closing
      quote is absorbed into it. */
  lemma {:induction false} EscRoundTrip(u: string, rest: string)
    requires rest == [] || rest[0] != '\''
    ensures ReadVerbatim(Esc(u) + "'" + rest) == Some((u, rest))
  {
    if u == [] {
      assert Esc(u) + "'" + rest == ['\''] + rest;
    } else {
      var tail := Esc(u[1..]) + "'" + rest;
      EscRoundTrip(u[1..], rest);
      EscFirst(u, rest);
      if u[0] == '\'' {
        ReadDoubledQuote(tail);
      } else {
        ReadPlainChar(u[0], tail);
      }
      assert [u[0]] + u[1..] == u;
    }
  }

  /** Escaping works character by character, whatever follows. */
  lemma EscFirst(u: string, rest: string)
    requires u != []
    ensures Esc(u) + "'" + rest == (if u[0] == '\'' then "''" else [u[0]]) + (Esc(u[1..]) + "'" + rest)
  {
  }

  /** A doubled quote reads as one quote, and reading goes on after it. */
  lemma ReadDoubledQuote(tail: string)
    ensures ReadVerbatim("''" + tail) ==
              if ReadVerbatim(tail).None? then None
              else Some(("'" + ReadVerbatim(tail).value.0, ReadVerbatim(tail).value.1))
  {
    assert ("''" + tail)[2..] == tail;
  }

  /** Any other character reads as itself, and reading goes on after it. */
  lemma ReadPlainChar(c: char, tail: string)
    requires c != '\''
    ensures ReadVerbatim([c] + tail) ==
              if ReadVerbatim(tail).None? then None
              else Some(([c] + ReadVerbatim(tail).value.0, ReadVerbatim(tail).value.1))
  {
    assert ([c] + tail)[1..] == tail;
  }

  /** The file a file-sourced variable imports: its value if absolute,
      otherwise its value joined onto the working directory. */
  function ImportTarget(host: Host, cwd: string, v: Var): string {
    if IsAbs(v.value) then v.value else host.join(cwd, v.value)
  }

  /** The import keyword: code is imported, a string is imported as text. */
  function ImportKeyword(v: Var): string {
    if v.expr == CodeExpr then "import" else "importstr"
  }

  /** The value a variable is set to. A variable that does not name a file
      keeps its value. A file variable becomes the import keyword, then a
      verbatim string that reads back as exactly the URL of the target file
      and ends the value. */
  function RewriteValue(host: Host, cwd: string, v: Var): (r: string)
    ensures v.source == Literal ==> r == v.value
    ensures v.source == File ==>
              var prefix := ImportKeyword(v) + " @'";
              && prefix <= r
              && ReadVerbatim(r[|prefix|..]) == Some((host.urlString(FileUrl(ImportTarget(host, cwd, v))), ""))
  {
    if v.source == File then
      var prefix := ImportKeyword(v) + " @'";
      var u := host.urlString(FileUrl(ImportTarget(host, cwd, v)));
      EscRoundTrip(u, "");
      assert Esc(u) + "'" + "" == Esc(u) + "'";
      assert (prefix + Esc(u) + "'")[|prefix|..] == Esc(u) + "'";
      prefix + Esc(u) + "'"
    else v.value
  }

  /** The target of a file variable: an absolute value is kept, a relative one
      is resolved against the working directory. */
  lemma ImportTargetResolves(host: Host, cwd: string, v: Var)
    ensures IsAbs(v.value) ==> ImportTarget(host, cwd, v) == v.value
    ensures !IsAbs(v.value) ==> ImportTarget(host, cwd, v) == host.join(cwd, v.value)
  {
  }

  /** The calls the variable loop makes, in order. */
  function Bindings(host: Host, cwd: string, vs: seq<Var>): seq<Binding> {
    seq(|vs|, i requires 0 <= i < |vs| => Binding(vs[i], RewriteValue(host, cwd, vs[i])))
  }

  /** The loop of `JsonnetVM` over the variables: each is set once, in order,
      to its rewritten value. */
  method BindVars(host: Host, cwd: string, vs: seq<Var>) returns (bs: seq<Binding>)
    ensures bs == Bindings(host, cwd, vs)
  {
    bs := [];
    var i := 0;
    while i < |vs|
      invariant 0 <= i <= |vs|
      invariant bs == Bindings(host, cwd, vs[..i])
    {
      var v := vs[i];
      var name, value := v.name, v.value;
      if v.source == File {
        var path := value;
        if !IsAbs(path) {
          path := host.join(cwd, path);
        }
        var u := FileUrl(path);
        var imp: string;
        if v.expr == CodeExpr {
          imp := "import";
        } else {
          imp := "importstr";
        }
        value := imp + " @'" + Esc(host.urlString(u)) + "'";
      }
      assert vs[..i + 1][..i] == vs[..i];
      bs := bs + [Binding(v, value)];
      i := i + 1;
    }
    assert vs[..i] == vs;
  }

  // ---------------------------------------------------------------- the VM

  /** The working directory: the one given, or else the process's; only
      when none is given and the process's cannot be found does it fail. */
  function WorkingDir(host: Host, dir: string): (r: Result<string, Error>)
    ensures dir != "" ==> r == Ok(dir)
    ensures dir == "" && host.getwd.Ok? ==> r == Ok(host.getwd.value)
    ensures r.Err? <==> dir == "" && host.getwd.Err?
    ensures r.Err? ==> r.error == NoWorkingDirectory(host.getwd.error)
  {
    if dir != "" then Ok(dir)
    else if host.getwd.Err? then Err(NoWorkingDirectory(host.getwd.error))
    else Ok(host.getwd.value)
  }

  /** `jsonnetVMOpts`. The alpha flag only selects importer features and is
      carried without effect here. */
  datatype VmOptions = VmOptions(
    alpha: bool,
    workingDir: string,
    importPath: seq<string>,
    importURLs: seq<string>,
    vars: seq<Var>,
    resolverType: int,
    resolverFailureAction: int)

  /** The configuration the VM ends up with. */
  datatype Vm = Vm(searchPath: seq<Url>, bindings: seq<Binding>, resolver: Wrapper)

  /** What `JsonnetVM` configures, or the first error it meets: search path,
      then working directory, then resolver. */
  function ConfigureVm(host: Host, opts: VmOptions): Result<Vm, Error> {
    var searchPath :- SearchPath(host, opts.importPath, opts.importURLs);
    var cwd :- WorkingDir(host, opts.workingDir);
    var resolver :- BuildResolver(opts.resolverType, opts.resolverFailureAction);
    Ok(Vm(searchPath, Bindings(host, cwd, opts.vars), resolver))
  }

  /** `JsonnetVM`. */
  method JsonnetVM(host: Host, opts: VmOptions) returns (r: Result<Vm, Error>)
    ensures r == ConfigureVm(host, opts)
  {
    var searchUrls := AssembleSearchPath(host, opts.importPath, opts.importURLs);
    if searchUrls.Err? {
      return Err(searchUrls.error);
    }
    var workingDir := opts.workingDir;
    if workingDir == "" {
      var wd := host.getwd;
      if wd.Err? {
        return Err(NoWorkingDirectory(wd.error));
      }
      workingDir := wd.value;
    }
    var bindings := BindVars(host, workingDir, opts.vars);
    var resolver := BuildResolver(opts.resolverType, opts.resolverFailureAction);
    if resolver.Err? {
      return Err(resolver.error);
    }
    return Ok(Vm(searchUrls.value, bindings, resolver.value));
  }

  /** The VM is configured exactly when the search path, the working
      directory and the resolver all are; the earliest failure is reported;
      every variable is bound once, in order; the process's working directory
      is consulted only when none is given. */
  lemma ConfigureVmOutcome(host: Host, opts: VmOptions, getwd: Result<string, string>)
    ensures ConfigureVm(host, opts).Ok? <==>
              SearchPath(host, opts.importPath, opts.importURLs).Ok? &&
              WorkingDir(host, opts.workingDir).Ok? &&
              BuildResolver(opts.resolverType, opts.resolverFailureAction).Ok?
    ensures SearchPath(host, opts.importPath, opts.importURLs).Err? ==>
              ConfigureVm(host, opts) == Err(SearchPath(host, opts.importPath, opts.importURLs).error)
    ensures SearchPath(host, opts.importPath, opts.importURLs).Ok? && opts.workingDir == "" && host.getwd.Err? ==>
              ConfigureVm(host, opts) == Err(NoWorkingDirectory(host.getwd.error))
    ensures ConfigureVm(host, opts).Ok? ==>
              |ConfigureVm(host, opts).value.bindings| == |opts.vars| &&
              forall i | 0 <= i < |opts.vars| :: ConfigureVm(host, opts).value.bindings[i].v == opts.vars[i]
    ensures opts.workingDir != "" ==> ConfigureVm(host.(getwd := getwd), opts) == ConfigureVm(host, opts)
  {
    var other := host.(getwd := getwd);
    assert LocalSteps(other, opts.importPath) == LocalSteps(host, opts.importPath);
    assert RemoteSteps(other, opts.importURLs + [InternalURL]) == RemoteSteps(host, opts.importURLs + [InternalURL]);
    if opts.workingDir != "" {
      assert Bindings(other, opts.workingDir, opts.vars) == Bindings(host, opts.workingDir, opts.vars);
    }
  }
}
