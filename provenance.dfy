/** Provenance stamping (`annotateProvenance` in utils/acquire.go): a resource
    found by the walker records, under `metadata.annotations`, the file it came
    from and the breadcrumb path at which it was found. */
module Provenance {
  import opened Wrappers
  import opened JsonValue
  import opened WalkContext

  const AnnotationProvenanceFile := "kubecfg.dev/provenance-file"
  const AnnotationProvenancePath := "kubecfg.dev/provenance-path"

  /** An annotations map after stamping: the file (only when there is one) and the path. */
  function StampAnnotations(ctx: Ctx, a: seq<Field>): seq<Field> {
    var withFile := if ctx.file != "" then Put(a, AnnotationProvenanceFile, Str(ctx.file)) else a;
    Put(withFile, AnnotationProvenancePath, Str(Path(ctx)))
  }

  /** The object after provenance stamping, case by case: a missing `metadata` or
      `metadata.annotations` is created; where either exists but is not a map,
      the object is left as it is. Nothing but `metadata` is touched, and a
      map whose keys were distinct keeps them distinct. */
  function Stamped(ctx: Ctx, o: seq<Field>): (r: seq<Field>)
    ensures forall k | k != "metadata" :: Lookup(r, k) == Lookup(o, k)
    ensures !Stampable(o) ==> r == o
    ensures DistinctKeys(o) ==> DistinctKeys(r)
  {
    match Lookup(o, "metadata")
    case None =>
      var md := Obj([Field("annotations", Obj(StampAnnotations(ctx, [])))]);
      PutKeepsDistinct(o, "metadata", md);
      LookupAppended(o, "metadata", md);
      o + [Field("metadata", md)]
    case Some(Obj(m)) =>
      (match Lookup(m, "annotations")
       case None =>
         var md := Obj(m + [Field("annotations", Obj(StampAnnotations(ctx, [])))]);
         PutKeepsDistinct(o, "metadata", md);
         Put(o, "metadata", md)
       case Some(Obj(a)) =>
         var md := Obj(Put(m, "annotations", Obj(StampAnnotations(ctx, a))));
         PutKeepsDistinct(o, "metadata", md);
         Put(o, "metadata", md)
       case Some(_) => o)
    case Some(_) => o
  }

  /** `annotateProvenance`, step by step as the source does it. The source
      updates the maps in place; here the updated maps are written back. */
  method AnnotateProvenance(ctx: Ctx, o: seq<Field>) returns (r: seq<Field>)
    ensures r == Stamped(ctx, o)
  {
    r := o;
    if Lookup(r, "metadata").None? {
      r := Put(r, "metadata", Obj([]));
    }
    var metadata := Lookup(r, "metadata");
    if metadata.Some? && metadata.value.Obj? {
      var m := metadata.value.fields;
      if Lookup(m, "annotations").None? {
        m := Put(m, "annotations", Obj([]));
      }
      var annotations := Lookup(m, "annotations");
      if annotations.Some? && annotations.value.Obj? {
        var a := annotations.value.fields;
        assert metadata.value.fields == [] ==> a == [];
        if ctx.file != "" {
          a := Put(a, AnnotationProvenanceFile, Str(ctx.file));
        }
        a := Put(a, AnnotationProvenancePath, Str(Path(ctx)));
        if Lookup(metadata.value.fields, "annotations").None? {
          PutAfterAdd(metadata.value.fields, "annotations", Obj([]), Obj(a));
          assert a == StampAnnotations(ctx, []);
        }
        m := Put(m, "annotations", Obj(a));
        assert metadata.value.fields == [] ==> m == [Field("annotations", Obj(a))];
      } else {
        PutSame(r, "metadata", Obj(m));
      }
      if Lookup(o, "metadata").None? {
        PutAfterAdd(o, "metadata", Obj([]), Obj(m));
      }
      r := Put(r, "metadata", Obj(m));
    }
  }

  /** `metadata.annotations` of an object, when both are maps. */
  function Annotations(o: seq<Field>): Option<seq<Field>> {
    match Lookup(o, "metadata")
    case Some(Obj(m)) =>
      (match Lookup(m, "annotations")
       case Some(Obj(a)) => Some(a)
       case _ => None)
    case _ => None
  }

  /** `metadata` of an object, when it is a map. */
  function Metadata(o: seq<Field>): Option<seq<Field>> {
    match Lookup(o, "metadata")
    case Some(Obj(m)) => Some(m)
    case _ => None
  }

  /** Stamping can take place: `metadata` is absent or a map, and in the latter
      case `annotations` is absent or a map. */
  predicate Stampable(o: seq<Field>) {
    match Lookup(o, "metadata")
    case None => true
    case Some(Obj(m)) => Lookup(m, "annotations").None? || Lookup(m, "annotations").value.Obj?
    case Some(_) => false
  }

  function OrEmpty(m: Option<seq<Field>>): seq<Field> {
    if m.Some? then m.value else []
  }

  /** After stamping, the path annotation holds the breadcrumb path, the file
      annotation holds the file when there is one, and every other annotation is
      what it was (none, if the annotations map was created). */
  lemma StampedAnnotations(ctx: Ctx, o: seq<Field>)
    requires Stampable(o)
    ensures Annotations(Stamped(ctx, o)).Some?
    ensures Lookup(Annotations(Stamped(ctx, o)).value, AnnotationProvenancePath) == Some(Str(Path(ctx)))
    ensures Lookup(Annotations(Stamped(ctx, o)).value, AnnotationProvenanceFile)
         == if ctx.file != "" then Some(Str(ctx.file)) else Lookup(OrEmpty(Annotations(o)), AnnotationProvenanceFile)
    ensures forall k | k != AnnotationProvenancePath && k != AnnotationProvenanceFile ::
              Lookup(Annotations(Stamped(ctx, o)).value, k) == Lookup(OrEmpty(Annotations(o)), k)
  {
    var a := StampedMetadataFields(ctx, o);
    assert Annotations(Stamped(ctx, o)) == Some(StampAnnotations(ctx, OrEmpty(Annotations(o))));
  }

  /** What stamping leaves under `metadata`: the old fields with the stamped
      annotations put in, and under `annotations` exactly the stamped map. */
  lemma StampedMetadataFields(ctx: Ctx, o: seq<Field>) returns (a: seq<Field>)
    requires Stampable(o)
    ensures a == StampAnnotations(ctx, OrEmpty(Annotations(o)))
    ensures Metadata(Stamped(ctx, o)) == Some(Put(OrEmpty(Metadata(o)), "annotations", Obj(a)))
    ensures Annotations(Stamped(ctx, o)) == Some(a)
  {
    a := StampAnnotations(ctx, OrEmpty(Annotations(o)));
    match Lookup(o, "metadata") {
      case None =>
        var md := Obj([Field("annotations", Obj(a))]);
        assert Stamped(ctx, o) == o + [Field("metadata", md)];
        LookupAppended(o, "metadata", md);
        assert Put([], "annotations", Obj(a)) == [Field("annotations", Obj(a))];
      case Some(Obj(m)) =>
        if Lookup(m, "annotations").None? {
          LookupAppended(m, "annotations", Obj(a));
          assert Stamped(ctx, o) == Put(o, "metadata", Obj(m + [Field("annotations", Obj(a))]));
        } else {
          assert Stamped(ctx, o) == Put(o, "metadata", Obj(Put(m, "annotations", Obj(a))));
        }
    }
  }

  /** The fields of `metadata` other than `annotations` are unchanged by stamping. */
  lemma StampedMetadata(ctx: Ctx, o: seq<Field>)
    requires Stampable(o)
    ensures Metadata(Stamped(ctx, o)).Some?
    ensures forall k | k != "annotations" :: Lookup(Metadata(Stamped(ctx, o)).value, k) == Lookup(OrEmpty(Metadata(o)), k)
  {
    var a := StampedMetadataFields(ctx, o);
  }
}
