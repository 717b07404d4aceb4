/** Reading Kubernetes objects from a file (`Read` and its three readers in
    utils/acquire.go). The file system, the YAML framing and conversion, the
    object decoder, the Jsonnet evaluator and the JSON parser are collaborators
    outside the model; they are the fields of `Io`, and each fails with a message. */
module Readers {
  import opened Wrappers
  import opened Errors
  import opened Sequencing
  import opened JsonValue
  import opened WalkContext
  import opened Walker
  import opened Objects
  import opened FilePaths

  datatype Io = Io(
    // os.Open followed by reading everything: the file's bytes
    open: string -> Result<seq<byte>, string>,
    // the successive results of the YAML reader's Read on the bytes, up to io.EOF
    yamlFrames: seq<byte> -> seq<Result<seq<byte>, string>>,
    // yaml.ToJSON
    toJSON: seq<byte> -> Result<seq<byte>, string>,
    // the unstructured JSON scheme's Decode
    decode: seq<byte> -> Result<Object, string>,
    // filepath.Abs
    abs: string -> Result<AbsPath, string>,
    // ioutil.ReadFile
    readFile: string -> Result<seq<byte>, string>,
    // the string of the URL with scheme "file" and the given path
    fileURL: string -> string,
    // the Jsonnet VM's EvaluateSnippet(file name, program text): the JSON text
    evaluate: (string, seq<byte>) -> Result<string, string>,
    // json.Unmarshal into an interface{}
    unmarshal: string -> Result<GoJson, string>)

  // ---------------------------------------------------------------- JSON

  /** `jsonReader`: the whole file decodes to one object, or the decoder's
      error is the result. */
  function JsonRead(io: Io, data: seq<byte>): (r: Result<seq<Object>, Error>)
    ensures r.Ok? <==> io.decode(data).Ok?
    ensures r.Ok? ==> r.value == [io.decode(data).value]
    ensures r.Err? ==> r.error == Foreign(io.decode(data).error)
  {
    var o :- Lift(io.decode(data));
    Ok([o])
  }

  // ---------------------------------------------------------------- YAML

  /** One YAML document: converted to JSON, then decoded. */
  function DecodeDocument(io: Io, doc: seq<byte>): Result<Object, Error> {
    var json :- Lift(io.toJSON(doc));
    Lift(io.decode(json))
  }

  /** What one iteration of `yamlReader`'s loop contributes: an empty document
      nothing, any other document its object. */
  function YamlStep(io: Io, frame: Result<seq<byte>, string>): Result<seq<Object>, Error> {
    var doc :- Lift(frame);
    if |doc| == 0 then Ok([])
    else
      var o :- DecodeDocument(io, doc);
      Ok([o])
  }

  function YamlSteps(io: Io, frames: seq<Result<seq<byte>, string>>): seq<Result<seq<Object>, Error>> {
    seq(|frames|, i requires 0 <= i < |frames| => YamlStep(io, frames[i]))
  }

  /** The objects `yamlReader` returns for a stream of frames. */
  function YamlRead(io: Io, frames: seq<Result<seq<byte>, string>>): Result<seq<Object>, Error> {
    Sequence(YamlSteps(io, frames))
  }

  /** `yamlReader`: read frames until the end, skip empty ones, decode the rest. */
  method YamlReader(io: Io, content: seq<byte>) returns (r: Result<seq<Object>, Error>)
    ensures r == YamlRead(io, io.yamlFrames(content))
  {
    var frames := io.yamlFrames(content);
    ghost var steps := YamlSteps(io, frames);
    var ret: seq<Object> := [];
    var i := 0;
    while i < |frames|
      invariant 0 <= i <= |frames|
      invariant Sequence(steps[..i]) == Ok(ret)
    {
      var frame := frames[i];
      assert steps[i] == YamlStep(io, frame);
      assert steps[..i + 1] == steps[..i] + [steps[i]];
      SequenceSnoc(steps[..i], steps[i]);
      if frame.Err? {
        SequenceStopsAt(steps, i);
        return Err(Foreign(frame.error));
      }
      var bytes := frame.value;
      if |bytes| == 0 {
        assert ret + [] == ret;
        i := i + 1;
        continue;
      }
      var json := io.toJSON(bytes);
      if json.Err? {
        SequenceStopsAt(steps, i);
        return Err(Foreign(json.error));
      }
      var o := io.decode(json.value);
      if o.Err? {
        SequenceStopsAt(steps, i);
        return Err(Foreign(o.error));
      }
      ret := ret + [o.value];
      i := i + 1;
    }
    assert steps[..i] == steps;
    return Ok(ret);
  }

  /** The frames with every empty document removed. */
  function NonEmpty(frames: seq<Result<seq<byte>, string>>): seq<Result<seq<byte>, string>> {
    if frames == [] then []
    else if frames[0] == Ok([]) then NonEmpty(frames[1..])
    else [frames[0]] + NonEmpty(frames[1..])
  }

  lemma YamlStepsTail(io: Io, frames: seq<Result<seq<byte>, string>>)
    requires frames != []
    ensures YamlSteps(io, frames) == [YamlStep(io, frames[0])] + YamlSteps(io, frames[1..])
  {
    assert YamlSteps(io, frames)[1..] == YamlSteps(io, frames[1..]);
  }

  /** Empty documents (`---` separators with nothing between them) make no
      difference to what is read. */
  lemma {:induction false} YamlSkipsEmpty(io: Io, frames: seq<Result<seq<byte>, string>>)
    ensures YamlRead(io, frames) == YamlRead(io, NonEmpty(frames))
  {
    if frames != [] {
      YamlSkipsEmpty(io, frames[1..]);
      YamlStepsTail(io, frames);
      SequenceAppend([YamlStep(io, frames[0])], YamlSteps(io, frames[1..]));
      if frames[0] == Ok([]) {
        var one: seq<Result<seq<Object>, Error>> := [];
        SequenceSnoc(one, Ok([]));
        assert [] + [Ok([])] == [YamlStep(io, frames[0])];
        if YamlRead(io, frames[1..]).Ok? {
          assert [] + YamlRead(io, frames[1..]).value == YamlRead(io, frames[1..]).value;
        }
      } else {
        YamlStepsTail(io, NonEmpty(frames));
        assert NonEmpty(frames)[0] == frames[0];
        assert NonEmpty(frames)[1..] == NonEmpty(frames[1..]);
      }
    }
  }

  /** Non-empty documents that all decode yield their objects, one each, in
      document order. */
  lemma YamlDocumentsInOrder(io: Io, docs: seq<seq<byte>>, objs: seq<Object>)
    requires |docs| == |objs|
    requires forall i | 0 <= i < |docs| :: |docs[i]| > 0 && DecodeDocument(io, docs[i]) == Ok(objs[i])
    ensures YamlRead(io, seq(|docs|, i requires 0 <= i < |docs| => Ok(docs[i]))) == Ok(objs)
  {
    var frames := seq(|docs|, i requires 0 <= i < |docs| => Ok(docs[i]));
    SequenceSingletons(YamlSteps(io, frames), objs);
  }

  /** A stream is read exactly when every frame arrives and every non-empty
      document decodes; otherwise the first failure is the result. */
  lemma YamlReadOk(io: Io, frames: seq<Result<seq<byte>, string>>)
    ensures YamlRead(io, frames).Ok? <==>
              forall i | 0 <= i < |frames| ::
                frames[i].Ok? && (|frames[i].value| > 0 ==> DecodeDocument(io, frames[i].value).Ok?)
    ensures forall i | FirstError(YamlSteps(io, frames), i) ::
              YamlRead(io, frames) == Err(if frames[i].Err? then Foreign(frames[i].error)
                                          else DecodeDocument(io, frames[i].value).error)
  {
    var steps := YamlSteps(io, frames);
    SequenceOk(steps);
    SequenceErr(steps);
    assert forall i | 0 <= i < |frames| :: steps[i] == YamlStep(io, frames[i]);
  }

  // ---------------------------------------------------------------- Jsonnet

  /** `Unstructured.IsList`: an `items` field holding an array. */
  predicate IsList(fs: seq<Field>) {
    Lookup(fs, "items").Some? && Lookup(fs, "items").value.Arr?
  }

  /** One member of `items`, as the list-item iteration sees it. */
  function ItemStep(item: Value): Result<seq<seq<Field>>, Error> {
    if item.Obj? then Ok([item.fields]) else Err(ItemNotObject)
  }

  /** Every member of a list's `items` is a map. */
  predicate AllMaps(elems: seq<Value>) {
    forall i | 0 <= i < |elems| :: elems[i].Obj?
  }

  /** The maps of a list's items, in order: they are read exactly when every
      member is a map, and any other member is an error. */
  function ListItems(elems: seq<Value>): (r: Result<seq<seq<Field>>, Error>)
    ensures r.Ok? <==> AllMaps(elems)
    ensures r.Ok? ==> r.value == seq(|elems|, i requires 0 <= i < |elems| && elems[i].Obj? => elems[i].fields)
    ensures r.Err? ==> r.error == ItemNotObject
  {
    var steps := seq(|elems|, i requires 0 <= i < |elems| => ItemStep(elems[i]));
    SequenceOk(steps);
    assert forall i | 0 <= i < |elems| :: steps[i] == ItemStep(elems[i]);
    if AllMaps(elems) then
      SequenceSingletons(steps, seq(|elems|, i requires 0 <= i < |elems| && elems[i].Obj? => elems[i].fields));
      Sequence(steps)
    else
      SequenceErrorFromStep(steps);
      Sequence(steps)
  }

  /** What one map found by the walk becomes: a list object whose items are
      the maps of `items`, in order, or a plain object, either way one object
      with the map's fields. Only a list with a member that is not a map fails. */
  function ToObject(fs: seq<Field>): (r: Result<seq<Object>, Error>)
    ensures r.Ok? <==> !IsList(fs) || AllMaps(Lookup(fs, "items").value.elems)
    ensures r.Ok? ==> |r.value| == 1 && !r.value[0].OtherObject? && r.value[0].fields == fs
    ensures r.Ok? ==> (r.value[0].UnstructuredList? <==> IsList(fs))
    ensures r.Ok? && IsList(fs) ==>
              var elems := Lookup(fs, "items").value.elems;
              r.value[0].items == seq(|elems|, i requires 0 <= i < |elems| && elems[i].Obj? => elems[i].fields)
    ensures r.Err? ==> r.error == ItemNotObject
  {
    if IsList(fs) then
      var items := ListItems(Lookup(fs, "items").value.elems);
      if items.Err? then Err(items.error) else Ok([UnstructuredList(fs, items.value)])
    else Ok([Unstructured(fs)])
  }

  function ObjectSteps(found: seq<Value>): seq<Result<seq<Object>, Error>>
    requires forall v | v in found :: v.Obj?
  {
    seq(|found|, i requires 0 <= i < |found| => ToObject(found[i].fields))
  }

  /** `jsonnetReader`: evaluate the file under its absolute file URL, parse the
      JSON, walk it from "$", and turn each map found into an object. */
  function JsonnetRead(io: Io, path: string, opts: ReadOptions): Result<seq<Object>, Error> {
    var abs :- Lift(io.abs(path));
    var bytes :- Lift(io.readFile(path));
    var jsonstr :- Lift(io.evaluate(io.fileURL(ToSlash(abs)), bytes));
    var top :- Lift(io.unmarshal(jsonstr));
    var found :- Walk(Root(path, opts), top);
    WalkFindsResources(Root(path, opts), top);
    Sequence(ObjectSteps(found))
  }

  method JsonnetReader(io: Io, path: string, opts: ReadOptions) returns (r: Result<seq<Object>, Error>)
    ensures r == JsonnetRead(io, path, opts)
  {
    var abs := io.abs(path);
    if abs.Err? {
      return Err(Foreign(abs.error));
    }
    var pathUrl := io.fileURL(ToSlash(abs.value));
    var bytes := io.readFile(path);
    if bytes.Err? {
      return Err(Foreign(bytes.error));
    }
    var jsonstr := io.evaluate(pathUrl, bytes.value);
    if jsonstr.Err? {
      return Err(Foreign(jsonstr.error));
    }
    var top := io.unmarshal(jsonstr.value);
    if top.Err? {
      return Err(Foreign(top.error));
    }
    var objs := JsonWalk(Root(path, opts), top.value);
    if objs.Err? {
      return Err(objs.error);
    }
    WalkFindsResources(Root(path, opts), top.value);
    var found := objs.value;
    ghost var steps := ObjectSteps(found);
    var ret: seq<Object> := [];
    var i := 0;
    while i < |found|
      invariant 0 <= i <= |found|
      invariant Sequence(steps[..i]) == Ok(ret)
    {
      assert found[i] in found;
      var fs := found[i].fields;
      assert steps[i] == ToObject(fs);
      assert steps[..i + 1] == steps[..i] + [steps[i]];
      SequenceSnoc(steps[..i], steps[i]);
      if IsList(fs) {
        var items := ListItems(Lookup(fs, "items").value.elems);
        if items.Err? {
          SequenceStopsAt(steps, i);
          return Err(items.error);
        }
        ret := ret + [UnstructuredList(fs, items.value)];
      } else {
        ret := ret + [Unstructured(fs)];
      }
      i := i + 1;
    }
    assert steps[..i] == steps;
    return Ok(ret);
  }

  /** Kubernetes objects (non-nil `kind` and `apiVersion`) that are also plain
      or list objects: what flattening accepts. */
  predicate IsResourceObject(o: Object) {
    !o.OtherObject? && IsResource(o.fields)
  }

  /** A list map that reads flattens into exactly its items: one entry per
      member of `items`, each that member's fields, in order. */
  lemma ListObjectFlattens(fs: seq<Field>)
    requires IsList(fs) && ToObject(fs).Ok?
    ensures var elems := Lookup(fs, "items").value.elems;
            && Flatten(ToObject(fs).value).Ok?
            && |Flatten(ToObject(fs).value).value| == |elems|
            && forall i | 0 <= i < |elems| :: elems[i].Obj? && Flatten(ToObject(fs).value).value[i] == elems[i].fields
  {
    var o := ToObject(fs).value[0];
    assert ToObject(fs).value == [UnstructuredList(o.fields, o.items)];
    FlattenList(o.fields, o.items);
  }

  /** A Kubernetes object with distinct keys, as a Go map is. */
  predicate GoResourceObject(o: Object) {
    IsResourceObject(o) && DistinctKeys(o.fields)
  }

  lemma ToObjectKeepsFields(fs: seq<Field>)
    requires IsResource(fs) && DistinctKeys(fs)
    ensures ToObject(fs).Ok? ==> forall o | o in ToObject(fs).value :: GoResourceObject(o)
  {
  }

  /** Every object a Jsonnet file yields is a plain or list object with
      non-nil `kind` and `apiVersion` and distinct keys, so flattening them
      never panics. */
  lemma {:induction false} JsonnetYieldsResources(io: Io, path: string, opts: ReadOptions)
    requires JsonnetRead(io, path, opts).Ok?
    ensures forall o | o in JsonnetRead(io, path, opts).value :: IsResourceObject(o) && DistinctKeys(o.fields)
    ensures Flatten(JsonnetRead(io, path, opts).value).Ok?
  {
    var abs := io.abs(path).value;
    var bytes := io.readFile(path).value;
    var top := io.unmarshal(io.evaluate(io.fileURL(ToSlash(abs)), bytes).value).value;
    var found := Walk(Root(path, opts), top).value;
    WalkFindsResources(Root(path, opts), top);
    WalkKeepsKeysDistinct(Root(path, opts), top);
    var steps := ObjectSteps(found);
    SequenceOk(steps);
    forall i, o | 0 <= i < |steps| && o in Found(steps[i]) ensures GoResourceObject(o) {
      assert found[i] in found;
      ToObjectKeepsFields(found[i].fields);
    }
    JoinFoundAll(steps, GoResourceObject);
    var objs := JsonnetRead(io, path, opts).value;
    assert forall i | 0 <= i < |objs| :: IsResourceObject(objs[i]) by {
      forall i | 0 <= i < |objs| ensures IsResourceObject(objs[i]) {
        assert objs[i] in objs;
      }
    }
    FlattenShape(objs);
  }

  // ---------------------------------------------------------------- dispatch

  /** `Read`: the reader is chosen by the file name's extension. */
  function ReadSpec(io: Io, path: string, opts: ReadOptions): Result<seq<Object>, Error> {
    var ext := Ext(path);
    if ext == ".json" then
      var data :- Lift(io.open(path));
      JsonRead(io, data)
    else if ext == ".yaml" then
      var content :- Lift(io.open(path));
      YamlRead(io, io.yamlFrames(content))
    else if ext == ".jsonnet" then
      JsonnetRead(io, path, opts)
    else
      Err(UnknownExtension(path))
  }

  method Read(io: Io, path: string, opts: ReadOptions) returns (r: Result<seq<Object>, Error>)
    ensures r == ReadSpec(io, path, opts)
  {
    var ext := Ext(path);
    if ext == ".json" {
      var f := io.open(path);
      if f.Err? {
        return Err(Foreign(f.error));
      }
      return JsonRead(io, f.value);
    } else if ext == ".yaml" {
      var f := io.open(path);
      if f.Err? {
        return Err(Foreign(f.error));
      }
      r := YamlReader(io, f.value);
      return;
    } else if ext == ".jsonnet" {
      r := JsonnetReader(io, path, opts);
      return;
    }
    return Err(UnknownExtension(path));
  }

  predicate KnownExtension(path: string) {
    Ext(path) == ".json" || Ext(path) == ".yaml" || Ext(path) == ".jsonnet"
  }

  lemma YamlErrorIsForeign(io: Io, frames: seq<Result<seq<byte>, string>>)
    requires YamlRead(io, frames).Err?
    ensures YamlRead(io, frames).error.Foreign?
  {
    SequenceErrorFromStep(YamlSteps(io, frames));
  }

  lemma JsonnetErrorIsKnown(io: Io, path: string, opts: ReadOptions)
    requires JsonnetRead(io, path, opts).Err?
    ensures JsonnetRead(io, path, opts).error.Foreign?
         || JsonnetRead(io, path, opts).error.NotAnObject?
         || JsonnetRead(io, path, opts).error == ItemNotObject
  {
    var r := JsonnetRead(io, path, opts);
    if io.abs(path).Ok? && io.readFile(path).Ok? {
      var abs := io.abs(path).value;
      var e := io.evaluate(io.fileURL(ToSlash(abs)), io.readFile(path).value);
      if e.Ok? && io.unmarshal(e.value).Ok? {
        var top := io.unmarshal(e.value).value;
        var w := Walk(Root(path, opts), top);
        if w.Err? {
          WalkErrorIsShape(Root(path, opts), top);
        } else {
          WalkFindsResources(Root(path, opts), top);
          var steps := ObjectSteps(w.value);
          SequenceErrorFromStep(steps);
          var i :| 0 <= i < |steps| && steps[i] == Err(r.error);
          var fs := w.value[i].fields;
          if IsList(fs) {
            var elems := Lookup(fs, "items").value.elems;
            SequenceErrorFromStep(seq(|elems|, j requires 0 <= j < |elems| => ItemStep(elems[j])));
          }
        }
      }
    }
  }

  /** The unknown-extension error arises exactly for the extensions no reader
      handles, and then it is the whole result. */
  lemma ReadDispatch(io: Io, path: string, opts: ReadOptions)
    ensures !KnownExtension(path) <==> ReadSpec(io, path, opts).Err? && ReadSpec(io, path, opts).error.UnknownExtension?
    ensures !KnownExtension(path) ==> ReadSpec(io, path, opts) == Err(UnknownExtension(path))
    ensures Ext(path) == ".jsonnet" ==> ReadSpec(io, path, opts) == JsonnetRead(io, path, opts)
  {
    var r := ReadSpec(io, path, opts);
    if Ext(path) == ".yaml" && io.open(path).Ok? && r.Err? {
      YamlErrorIsForeign(io, io.yamlFrames(io.open(path).value));
    }
    if Ext(path) == ".jsonnet" && r.Err? {
      JsonnetErrorIsKnown(io, path, opts);
    }
  }

  /** A JSON file holds exactly one object, the decoded content. */
  lemma ReadJsonFile(io: Io, path: string, opts: ReadOptions)
    requires Ext(path) == ".json"
    ensures ReadSpec(io, path, opts).Ok? <==> io.open(path).Ok? && io.decode(io.open(path).value).Ok?
    ensures ReadSpec(io, path, opts).Ok? ==> ReadSpec(io, path, opts).value == [io.decode(io.open(path).value).value]
  {
  }
}
