/** Decoded Kubernetes objects (`runtime.Object` as the readers return it) and
    their flattening into a plain batch (`FlattenToV1` in utils/acquire.go). */
module Objects {
  import opened Wrappers
  import opened Errors
  import opened Sequencing
  import opened JsonValue

  /** An `*unstructured.Unstructured` (its map of fields), an
      `*unstructured.UnstructuredList` (its own fields and its items), or any
      other implementation of `runtime.Object`. */
  datatype Object =
    | Unstructured(fields: seq<Field>)
    | UnstructuredList(fields: seq<Field>, items: seq<seq<Field>>)
    | OtherObject

  /** What flattening makes of one object: a list's items, in item order; a plain
      object itself; anything else is the panic "Unexpected unstructured object
      type", modelled as an error. */
  function Members(o: Object): Result<seq<seq<Field>>, Error> {
    match o
    case UnstructuredList(_, items) => Ok(items)
    case Unstructured(fs) => Ok([fs])
    case OtherObject => Err(UnexpectedObjectType)
  }

  function MemberSteps(objs: seq<Object>): seq<Result<seq<seq<Field>>, Error>> {
    seq(|objs|, i requires 0 <= i < |objs| => Members(objs[i]))
  }

  /** The batch `FlattenToV1` returns. */
  function Flatten(objs: seq<Object>): Result<seq<seq<Field>>, Error> {
    Sequence(MemberSteps(objs))
  }

  /** `FlattenToV1`: the outer loop over the objects, the inner one over a list's items. */
  method FlattenToV1(objs: seq<Object>) returns (r: Result<seq<seq<Field>>, Error>)
    ensures r == Flatten(objs)
  {
    ghost var steps := MemberSteps(objs);
    var ret: seq<seq<Field>> := [];
    var n := 0;
    while n < |objs|
      invariant 0 <= n <= |objs|
      invariant Sequence(steps[..n]) == Ok(ret)
    {
      var o := objs[n];
      ghost var before := ret;
      match o {
        case UnstructuredList(_, items) =>
          var i := 0;
          while i < |items|
            invariant 0 <= i <= |items|
            invariant ret == before + items[..i]
          {
            ret := ret + [items[i]];
            i := i + 1;
          }
          assert items[..i] == items;
        case Unstructured(_) =>
          ret := ret + [o.fields];
        case OtherObject =>
          SequenceStopsAt(steps, n);
          return Err(UnexpectedObjectType);
      }
      SequenceSnoc(steps[..n], steps[n]);
      assert steps[..n + 1] == steps[..n] + [steps[n]];
      n := n + 1;
    }
    assert steps[..n] == steps;
    return Ok(ret);
  }

  /** How many batch entries an object becomes. */
  function MemberCount(o: Object): nat {
    match o
    case UnstructuredList(_, items) => |items|
    case Unstructured(_) => 1
    case OtherObject => 0
  }

  function TotalMembers(objs: seq<Object>): nat {
    if objs == [] then 0 else MemberCount(objs[0]) + TotalMembers(objs[1..])
  }

  lemma {:induction false} CountMembers(objs: seq<Object>)
    ensures CountFound(MemberSteps(objs)) == TotalMembers(objs)
  {
    if objs != [] {
      assert MemberSteps(objs)[1..] == MemberSteps(objs[1..]);
      CountMembers(objs[1..]);
    }
  }

  /** Flattening succeeds exactly when every object is a plain object or a
      list; then the batch is every object's members, in input order, and its
      length is the sum of the member counts. */
  lemma FlattenShape(objs: seq<Object>)
    ensures Flatten(objs).Ok? <==> forall i | 0 <= i < |objs| :: !objs[i].OtherObject?
    ensures Flatten(objs).Ok? ==> Flatten(objs).value == JoinFound(MemberSteps(objs))
    ensures Flatten(objs).Ok? ==> |Flatten(objs).value| == TotalMembers(objs)
  {
    SequenceOk(MemberSteps(objs));
    assert AllOk(MemberSteps(objs)) <==> forall i | 0 <= i < |objs| :: !objs[i].OtherObject? by {
      assert forall i | 0 <= i < |objs| :: MemberSteps(objs)[i] == Members(objs[i]);
    }
    JoinFoundLength(MemberSteps(objs));
    CountMembers(objs);
  }

  /** Flattening a concatenation is concatenating the flattenings. */
  lemma FlattenAppend(xs: seq<Object>, ys: seq<Object>)
    requires Flatten(xs).Ok? && Flatten(ys).Ok?
    ensures Flatten(xs + ys) == Ok(Flatten(xs).value + Flatten(ys).value)
  {
    assert MemberSteps(xs + ys) == MemberSteps(xs) + MemberSteps(ys);
    SequenceAppend(MemberSteps(xs), MemberSteps(ys));
  }

  /** A list is replaced by its items, in item order; the list object itself
      is not part of the batch. */
  lemma FlattenList(fields: seq<Field>, items: seq<seq<Field>>)
    ensures Flatten([UnstructuredList(fields, items)]) == Ok(items)
  {
    var steps := MemberSteps([UnstructuredList(fields, items)]);
    assert steps == [Ok(items)];
    var none: seq<Result<seq<seq<Field>>, Error>> := [];
    SequenceSnoc(none, Ok(items));
    assert none + [Ok(items)] == steps;
    assert [] + items == items;
  }

  /** A batch without lists is unchanged by flattening. */
  lemma FlattenPlain(objs: seq<Object>)
    requires forall i | 0 <= i < |objs| :: objs[i].Unstructured?
    ensures Flatten(objs) == Ok(seq(|objs|, i requires 0 <= i < |objs| => objs[i].fields))
  {
    SequenceSingletons(MemberSteps(objs), seq(|objs|, i requires 0 <= i < |objs| => objs[i].fields));
  }
}
