/** The resource-extraction walk (`jsonWalk` in utils/acquire.go): finds, depth
    first, every map carrying non-nil `kind` and `apiVersion` in a decoded value. */
module Walker {
  import opened Wrappers
  import opened Errors
  import opened Sequencing
  import opened JsonValue
  import opened WalkContext
  import opened Provenance

  /** `o["kind"] != nil && o["apiVersion"] != nil`: a Kubernetes object. */
  predicate IsResource(fs: seq<Field>) {
    NonNil(fs, "kind") && NonNil(fs, "apiVersion")
  }

  predicate IsResourceValue(v: Value) {
    v.Obj? && IsResource(v.fields)
  }

  /** `parentCtx.opts != nil && parentCtx.opts.showProvenance` */
  predicate ShowProvenance(ctx: Ctx) {
    ctx.opts.Some? && ctx.opts.value.showProvenance
  }

  /** A resource as the walk returns it: stamped when provenance is on. */
  function Discovered(ctx: Ctx, fs: seq<Field>): Value {
    Obj(if ShowProvenance(ctx) then Stamped(ctx, fs) else fs)
  }

  /** What the walk finds: nothing in null; a resource alone, without looking
      inside it; the findings of every element or field, in order, each walked
      one segment further down; an error naming the path for any other value.
      The first failing child aborts the walk. */
  function Walk(ctx: Ctx, v: Value): Result<seq<Value>, Error>
    decreases v
  {
    match v
    case Null => Ok([])
    case Obj(fs) => if IsResource(fs) then Ok([Discovered(ctx, fs)]) else Sequence(FieldWalks(ctx, fs))
    case Arr(es) => Sequence(ElementWalks(ctx, es))
    case _ => Err(NotAnObject(Path(ctx), GoTypeName(v)))
  }

  /** The walks of the elements of an array, element `i` under segment `[i]`. */
  function ElementWalks(ctx: Ctx, es: seq<Value>): seq<Result<seq<Value>, Error>>
    decreases es
  {
    seq(|es|, i requires 0 <= i < |es| => Walk(Child(ctx, IndexSegment(i)), es[i]))
  }

  /** The walks of the fields of a map, field `k` under segment `.k`. */
  function FieldWalks(ctx: Ctx, fs: seq<Field>): seq<Result<seq<Value>, Error>>
    decreases fs
  {
    seq(|fs|, i requires 0 <= i < |fs| => Walk(Child(ctx, FieldSegment(fs[i].key)), fs[i].val))
  }

  /** `jsonWalk`: the recursion with its two accumulating loops. */
  method JsonWalk(ctx: Ctx, v: Value) returns (r: Result<seq<Value>, Error>)
    ensures r == Walk(ctx, v)
    decreases v
  {
    match v {
      case Null =>
        return Ok([]);
      case Obj(fs) =>
        if NonNil(fs, "kind") && NonNil(fs, "apiVersion") {
          var o := fs;
          if ctx.opts.Some? && ctx.opts.value.showProvenance {
            o := AnnotateProvenance(ctx, fs);
          }
          return Ok([Obj(o)]);
        }
        ghost var steps := FieldWalks(ctx, fs);
        var ret: seq<Value> := [];
        var i := 0;
        while i < |fs|
          invariant 0 <= i <= |fs|
          invariant Sequence(steps[..i]) == Ok(ret)
        {
          var children := JsonWalk(Child(ctx, FieldSegment(fs[i].key)), fs[i].val);
          if children.Err? {
            SequenceStopsAt(steps, i);
            return Err(children.error);
          }
          SequenceSnoc(steps[..i], children);
          assert steps[..i + 1] == steps[..i] + [children];
          ret := ret + children.value;
          i := i + 1;
        }
        assert steps[..i] == steps;
        return Ok(ret);
      case Arr(es) =>
        ghost var steps := ElementWalks(ctx, es);
        var ret: seq<Value> := [];
        var i := 0;
        while i < |es|
          invariant 0 <= i <= |es|
          invariant Sequence(steps[..i]) == Ok(ret)
        {
          var children := JsonWalk(Child(ctx, IndexSegment(i)), es[i]);
          if children.Err? {
            SequenceStopsAt(steps, i);
            return Err(children.error);
          }
          SequenceSnoc(steps[..i], children);
          assert steps[..i + 1] == steps[..i] + [children];
          ret := ret + children.value;
          i := i + 1;
        }
        assert steps[..i] == steps;
        return Ok(ret);
      case _ =>
        return Err(NotAnObject(Path(ctx), GoTypeName(v)));
    }
  }

  /** Null yields nothing and never fails. */
  lemma WalkNull(ctx: Ctx)
    ensures Walk(ctx, Null) == Ok([])
  {
  }

  /** A resource is the sole finding, whatever its fields hold (they are not
      visited); it is stamped exactly when provenance is on. */
  lemma WalkResource(ctx: Ctx, fs: seq<Field>)
    requires IsResource(fs)
    ensures Walk(ctx, Obj(fs)) == Ok([Obj(if ShowProvenance(ctx) then Stamped(ctx, fs) else fs)])
    ensures !ShowProvenance(ctx) ==> Walk(ctx, Obj(fs)) == Ok([Obj(fs)])
  {
  }

  /** A scalar where the walk expects an object is an error naming its path and
      Go type; at the root that path is "$". */
  lemma WalkScalar(ctx: Ctx, v: Value)
    requires v.Bool? || v.Num? || v.Str?
    ensures Walk(ctx, v) == Err(NotAnObject(Path(ctx), GoTypeName(v)))
    ensures ctx.parent.None? && ctx.segment == "$" ==> Walk(ctx, v).error.path == "$"
  {
  }

  /** An array: element `i` is walked at path `path + "[i]"`; the walk succeeds
      exactly when every element's walk does, then it is their findings
      concatenated in index order, and otherwise it fails with the first
      failing element's error. */
  lemma WalkArray(ctx: Ctx, es: seq<Value>)
    ensures forall i: nat | i < |es| :: Path(Child(ctx, IndexSegment(i))) == Path(ctx) + "[" + NatToString(i) + "]"
    ensures Walk(ctx, Arr(es)).Ok? <==> forall i: nat | i < |es| :: Walk(Child(ctx, IndexSegment(i)), es[i]).Ok?
    ensures Walk(ctx, Arr(es)).Ok? ==> Walk(ctx, Arr(es)).value == JoinFound(ElementWalks(ctx, es))
    ensures forall i | FirstError(ElementWalks(ctx, es), i) ::
              Walk(ctx, Arr(es)) == Err(Walk(Child(ctx, IndexSegment(i)), es[i]).error)
  {
    ElementPaths(ctx, |es|);
    var steps := ElementWalks(ctx, es);
    assert forall i: nat | i < |es| :: steps[i] == Walk(Child(ctx, IndexSegment(i)), es[i]);
    SequenceOk(steps);
    SequenceErr(steps);
  }

  /** Element `i` of an array sits at `path + "[i]"`. */
  lemma ElementPaths(ctx: Ctx, n: nat)
    ensures forall i: nat | i < n :: Path(Child(ctx, IndexSegment(i))) == Path(ctx) + "[" + NatToString(i) + "]"
  {
    forall i: nat | i < n
      ensures Path(Child(ctx, IndexSegment(i))) == Path(ctx) + "[" + NatToString(i) + "]"
    {
      assert Path(ctx) + ("[" + NatToString(i) + "]") == Path(ctx) + "[" + NatToString(i) + "]";
    }
  }

  /** A map that is not a resource: the same, field by field in field order,
      field `k` at path `path + ".k"`. */
  lemma WalkMap(ctx: Ctx, fs: seq<Field>)
    requires !IsResource(fs)
    ensures forall i | 0 <= i < |fs| :: Path(Child(ctx, FieldSegment(fs[i].key))) == Path(ctx) + "." + fs[i].key
    ensures Walk(ctx, Obj(fs)).Ok? <==> forall i | 0 <= i < |fs| :: Walk(Child(ctx, FieldSegment(fs[i].key)), fs[i].val).Ok?
    ensures Walk(ctx, Obj(fs)).Ok? ==> Walk(ctx, Obj(fs)).value == JoinFound(FieldWalks(ctx, fs))
    ensures forall i | FirstError(FieldWalks(ctx, fs), i) ::
              Walk(ctx, Obj(fs)) == Err(Walk(Child(ctx, FieldSegment(fs[i].key)), fs[i].val).error)
  {
    var steps := FieldWalks(ctx, fs);
    SequenceOk(steps);
    SequenceErr(steps);
    assert AllOk(steps) <==> forall i | 0 <= i < |fs| :: Walk(Child(ctx, FieldSegment(fs[i].key)), fs[i].val).Ok? by {
      assert forall i | 0 <= i < |fs| :: steps[i] == Walk(Child(ctx, FieldSegment(fs[i].key)), fs[i].val);
    }
  }

  /** A discovered resource stays a resource, stamped or not. */
  lemma DiscoveredIsResource(ctx: Ctx, fs: seq<Field>)
    requires IsResource(fs)
    ensures IsResourceValue(Discovered(ctx, fs))
  {
    if ShowProvenance(ctx) {
      var r := Stamped(ctx, fs);
      assert Lookup(r, "kind") == Lookup(fs, "kind");
      assert Lookup(r, "apiVersion") == Lookup(fs, "apiVersion");
    }
  }

  /** Everything the walk finds is a map with non-nil `kind` and `apiVersion`
      (so the `v.(map[string]interface{})` assertion of the caller never fails). */
  lemma {:induction false} WalkFindsResources(ctx: Ctx, v: Value)
    requires Walk(ctx, v).Ok?
    ensures forall x | x in Walk(ctx, v).value :: IsResourceValue(x)
    decreases v
  {
    match v {
      case Null =>
      case Obj(fs) =>
        if IsResource(fs) {
          DiscoveredIsResource(ctx, fs);
        } else {
          var steps := FieldWalks(ctx, fs);
          SequenceOk(steps);
          forall i, x | 0 <= i < |steps| && x in Found(steps[i]) ensures IsResourceValue(x) {
            WalkFindsResources(Child(ctx, FieldSegment(fs[i].key)), fs[i].val);
          }
          JoinFoundAll(steps, IsResourceValue);
        }
      case Arr(es) =>
        var steps := ElementWalks(ctx, es);
        SequenceOk(steps);
        forall i, x | 0 <= i < |steps| && x in Found(steps[i]) ensures IsResourceValue(x) {
          WalkFindsResources(Child(ctx, IndexSegment(i)), es[i]);
        }
        JoinFoundAll(steps, IsResourceValue);
      case _ =>
    }
  }

  predicate DistinctObject(v: Value) {
    v.Obj? && DistinctKeys(v.fields)
  }

  /** On a value `json.Unmarshal` can produce, every map the walk returns
      holds each key once, stamped or not. */
  lemma {:induction false} WalkKeepsKeysDistinct(ctx: Ctx, v: Value)
    requires GoValue(v) && Walk(ctx, v).Ok?
    ensures forall x | x in Walk(ctx, v).value :: DistinctObject(x)
    decreases v
  {
    match v {
      case Null =>
      case Obj(fs) =>
        if !IsResource(fs) {
          var steps := FieldWalks(ctx, fs);
          SequenceOk(steps);
          forall i, x | 0 <= i < |steps| && x in Found(steps[i]) ensures DistinctObject(x) {
            assert fs[i] in fs;
            WalkKeepsKeysDistinct(Child(ctx, FieldSegment(fs[i].key)), fs[i].val);
          }
          JoinFoundAll(steps, DistinctObject);
        }
      case Arr(es) =>
        var steps := ElementWalks(ctx, es);
        SequenceOk(steps);
        forall i, x | 0 <= i < |steps| && x in Found(steps[i]) ensures DistinctObject(x) {
          assert es[i] in es;
          WalkKeepsKeysDistinct(Child(ctx, IndexSegment(i)), es[i]);
        }
        JoinFoundAll(steps, DistinctObject);
      case _ =>
    }
  }

  /** The only way the walk fails is the shape error, and the path it names lies
      below the context the walk started from. */
  lemma {:induction false} WalkErrorIsShape(ctx: Ctx, v: Value)
    requires Walk(ctx, v).Err?
    ensures Walk(ctx, v).error.NotAnObject?
    ensures Path(ctx) <= Walk(ctx, v).error.path
    decreases v
  {
    match v {
      case Obj(fs) =>
        var steps := FieldWalks(ctx, fs);
        SequenceErrorFromStep(steps);
        var i :| 0 <= i < |steps| && steps[i] == Err(Walk(ctx, v).error);
        var c := Child(ctx, FieldSegment(fs[i].key));
        WalkErrorIsShape(c, fs[i].val);
        assert Path(ctx) <= Path(c);
      case Arr(es) =>
        var steps := ElementWalks(ctx, es);
        SequenceErrorFromStep(steps);
        var i :| 0 <= i < |steps| && steps[i] == Err(Walk(ctx, v).error);
        var c := Child(ctx, IndexSegment(i));
        WalkErrorIsShape(c, es[i]);
        assert Path(ctx) <= Path(c);
      case _ =>
    }
  }
}
