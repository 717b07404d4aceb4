/** `ReadObjects` in pkg/kubecfg/vm.go: every path is first rewritten in place
    with the configured overlays, then read, flattened and concatenated in
    order; the duplicate check runs once, over the whole batch. The reader it
    calls, Go's `%q` quoting, the data-URL encoder and the duplicate check are
    collaborators outside the model and are the fields of `Batch`. */
module KubecfgReadObjects {
  import opened Wrappers
  import opened Errors
  import opened Sequencing
  import opened JsonValue
  import opened Objects

  datatype Batch = Batch(
    // fmt's %q: a Go-quoted string literal
    quote: string -> string,
    // utils.ToDataURL: a data: URL carrying the Jsonnet source
    toDataURL: string -> string,
    // utils.Read with the read options: the objects at a path
    read: string -> Result<seq<Object>, string>,
    // utils.CheckDuplicates: an error message when the batch repeats an object
    checkDuplicates: seq<seq<Field>> -> Option<string>)

  /** `ReadOption`s as `ReadObjects` sees them: "" means no overlay. */
  datatype Overlays = Overlays(overlayURL: string, overlayCode: string)

  /** The expression importing the file at `url` merged with the overlay file. */
  function UrlOverlay(b: Batch, overlay: string, url: string): string {
    b.toDataURL("(import " + b.quote(url) + ") + (import " + b.quote(overlay) + ")")
  }

  /** The expression importing `src` merged with the overlay code. */
  function CodeOverlay(b: Batch, overlay: string, src: string): string {
    b.toDataURL("(import " + b.quote(src) + ") + (" + overlay + ")")
  }

  /** What one path becomes: the URL overlay applied first, then the code one. */
  function Rewritten(b: Batch, ov: Overlays, p: string): string {
    var p1 := if ov.overlayURL != "" then UrlOverlay(b, ov.overlayURL, p) else p;
    if ov.overlayCode != "" then CodeOverlay(b, ov.overlayCode, p1) else p1
  }

  function RewrittenAll(b: Batch, ov: Overlays, ps: seq<string>): seq<string> {
    seq(|ps|, i requires 0 <= i < |ps| => Rewritten(b, ov, ps[i]))
  }

  /** The two overlay loops: `paths[i]` is overwritten in place, first with
      the URL overlay, then with the code overlay. */
  method RewritePaths(b: Batch, ov: Overlays, paths: array<string>)
    modifies paths
    ensures paths[..] == RewrittenAll(b, ov, old(paths[..]))
  {
    ghost var original := paths[..];
    if ov.overlayURL != "" {
      var i := 0;
      while i < paths.Length
        invariant 0 <= i <= paths.Length
        invariant forall k | 0 <= k < i :: paths[k] == UrlOverlay(b, ov.overlayURL, original[k])
        invariant forall k | i <= k < paths.Length :: paths[k] == original[k]
      {
        paths[i] := UrlOverlay(b, ov.overlayURL, paths[i]);
        i := i + 1;
      }
    }
    ghost var middle := paths[..];
    if ov.overlayCode != "" {
      var i := 0;
      while i < paths.Length
        invariant 0 <= i <= paths.Length
        invariant forall k | 0 <= k < i :: paths[k] == CodeOverlay(b, ov.overlayCode, middle[k])
        invariant forall k | i <= k < paths.Length :: paths[k] == middle[k]
      {
        paths[i] := CodeOverlay(b, ov.overlayCode, paths[i]);
        i := i + 1;
      }
    }
    assert paths[..] == RewrittenAll(b, ov, original);
  }

  /** Rewriting keeps the number and order of the paths; with no overlay it
      changes nothing, with both it composes the code overlay over the URL one. */
  lemma RewrittenCases(b: Batch, ov: Overlays, ps: seq<string>)
    ensures |RewrittenAll(b, ov, ps)| == |ps|
    ensures ov.overlayURL == "" && ov.overlayCode == "" ==> RewrittenAll(b, ov, ps) == ps
    ensures ov.overlayURL != "" && ov.overlayCode != "" ==>
              forall i | 0 <= i < |ps| ::
                RewrittenAll(b, ov, ps)[i] == CodeOverlay(b, ov.overlayCode, UrlOverlay(b, ov.overlayURL, ps[i]))
    ensures ov.overlayURL != "" && ov.overlayCode == "" ==>
              forall i | 0 <= i < |ps| :: RewrittenAll(b, ov, ps)[i] == UrlOverlay(b, ov.overlayURL, ps[i])
    ensures ov.overlayURL == "" && ov.overlayCode != "" ==>
              forall i | 0 <= i < |ps| :: RewrittenAll(b, ov, ps)[i] == CodeOverlay(b, ov.overlayCode, ps[i])
  {
  }

  /** What one path contributes: its flattened objects, or the read error
      wrapped with the path. */
  function ReadStep(b: Batch, path: string): Result<seq<seq<Field>>, Error> {
    var objs := b.read(path);
    if objs.Err? then Err(ReadFailed(path, Foreign(objs.error)))
    else Flatten(objs.value)
  }

  function ReadSteps(b: Batch, paths: seq<string>): seq<Result<seq<seq<Field>>, Error>> {
    seq(|paths|, i requires 0 <= i < |paths| => ReadStep(b, paths[i]))
  }

  /** The result of reading the (already rewritten) paths. */
  function ReadAll(b: Batch, paths: seq<string>): Result<seq<seq<Field>>, Error> {
    var res :- Sequence(ReadSteps(b, paths));
    var dup := b.checkDuplicates(res);
    if dup.Some? then Err(Foreign(dup.value)) else Ok(res)
  }

  /** `ReadObjects`. */
  method ReadObjects(b: Batch, ov: Overlays, paths: array<string>) returns (r: Result<seq<seq<Field>>, Error>)
    modifies paths
    ensures paths[..] == RewrittenAll(b, ov, old(paths[..]))
    ensures r == ReadAll(b, RewrittenAll(b, ov, old(paths[..])))
  {
    RewritePaths(b, ov, paths);
    ghost var rewritten := paths[..];
    ghost var steps := ReadSteps(b, rewritten);
    var res: seq<seq<Field>> := [];
    var i := 0;
    while i < paths.Length
      invariant 0 <= i <= paths.Length
      invariant Sequence(steps[..i]) == Ok(res)
      invariant paths[..] == rewritten
    {
      var path := paths[i];
      assert path == rewritten[i];
      assert steps[i] == ReadStep(b, path);
      assert steps[..i + 1] == steps[..i] + [steps[i]];
      SequenceSnoc(steps[..i], steps[i]);
      var objs := b.read(path);
      if objs.Err? {
        SequenceStopsAt(steps, i);
        return Err(ReadFailed(path, Foreign(objs.error)));
      }
      var flat := FlattenToV1(objs.value);
      if flat.Err? {
        SequenceStopsAt(steps, i);
        return Err(flat.error);
      }
      res := res + flat.value;
      i := i + 1;
    }
    assert steps[..i] == steps;
    var dup := b.checkDuplicates(res);
    if dup.Some? {
      return Err(Foreign(dup.value));
    }
    return Ok(res);
  }

  /** The batch is read exactly when every path reads and flattens and the
      duplicate check passes on the whole concatenation, which is then the
      result: each path's flattened objects, in path order. */
  lemma ReadAllOk(b: Batch, paths: seq<string>)
    ensures ReadAll(b, paths).Ok? <==>
              AllOk(ReadSteps(b, paths)) && b.checkDuplicates(JoinFound(ReadSteps(b, paths))).None?
    ensures ReadAll(b, paths).Ok? ==> ReadAll(b, paths).value == JoinFound(ReadSteps(b, paths))
    ensures AllOk(ReadSteps(b, paths)) && b.checkDuplicates(JoinFound(ReadSteps(b, paths))).Some? ==>
              ReadAll(b, paths) == Err(Foreign(b.checkDuplicates(JoinFound(ReadSteps(b, paths))).value))
  {
    SequenceOk(ReadSteps(b, paths));
  }

  /** The first path that fails decides the error: a read failure names that
      path and carries the reader's message. The duplicate check is then
      never consulted. */
  lemma {:induction false} ReadAllFirstFailure(b: Batch, paths: seq<string>, i: nat,
                                               otherCheck: seq<seq<Field>> -> Option<string>)
    requires FirstError(ReadSteps(b, paths), i)
    ensures ReadAll(b, paths) == Err(ReadSteps(b, paths)[i].error)
    ensures b.read(paths[i]).Err? ==> ReadAll(b, paths) == Err(ReadFailed(paths[i], Foreign(b.read(paths[i]).error)))
    ensures ReadAll(b.(checkDuplicates := otherCheck), paths) == ReadAll(b, paths)
  {
    var steps := ReadSteps(b, paths);
    SequenceErr(steps);
    assert steps[i] == ReadStep(b, paths[i]);
    assert ReadSteps(b.(checkDuplicates := otherCheck), paths) == steps;
  }

  /** A path's contribution, when it reads, is its objects flattened: the items
      of each list, in order, and each plain object itself. */
  lemma ReadStepFlattens(b: Batch, path: string)
    requires b.read(path).Ok?
    ensures ReadStep(b, path) == Flatten(b.read(path).value)
    ensures ReadStep(b, path).Ok? <==> forall i | 0 <= i < |b.read(path).value| :: !b.read(path).value[i].OtherObject?
  {
    FlattenShape(b.read(path).value);
  }
}
