# kubecfg: object acquisition and Jsonnet VM configuration, modelled in Dafny

This project models two parts of kubecfg, a tool that evaluates Jsonnet (or reads
JSON and YAML) to obtain Kubernetes objects.

The first part is object acquisition (`utils/acquire.go`):

- the breadcrumb context `walkContext` and its `path()`/`child()`;
- the resource walk `jsonWalk`, which finds every map with non-nil `kind` and
  `apiVersion` inside a decoded JSON value;
- provenance stamping `annotateProvenance`;
- the extension dispatch of `Read` and its JSON, YAML and Jsonnet readers, including the
  splitting of list objects;
- `FlattenToV1`, which splices list items into a flat batch.

The second part is VM configuration and batch reading (`pkg/kubecfg/vm.go`):

- `dirURL`;
- the search path, working directory and variable rewriting done by `JsonnetVM`;
- `buildResolver` with the failure policy of `resolverErrorWrapper.Resolve`;
- `ReadObjects`, which rewrites paths in place with overlays, reads and flattens every
  path, and checks the whole batch for duplicates.

Layout, one module per file:

| file | module | models |
|---|---|---|
| wrappers.dfy | `Wrappers` | `Option`, `Result` |
| errors.dfy | `Errors` | the errors the core returns; `Lift` passes a collaborator's message on |
| sequencing.dfy | `Sequencing` | `Sequence`, the "append each step's findings, stop at the first error" shape of every loop in the core, with its lemmas |
| json_value.dfy | `JsonValue` | the decoded JSON value (`interface{}`), Go map lookup and assignment |
| walk_context.dfy | `WalkContext` | `walkContext`, `path()`, `child()` |
| provenance.dfy | `Provenance` | `annotateProvenance` |
| walker.dfy | `Walker` | `jsonWalk` |
| objects.dfy | `Objects` | `runtime.Object` as the readers return it, `FlattenToV1` |
| file_paths.dfy | `FilePaths` | `filepath.Ext`, `IsAbs`, `ToSlash` on a Unix host |
| readers.dfy | `Readers` | `Read`, `jsonReader`, `yamlReader`, `jsonnetReader` |
| resolver.dfy | `KubecfgResolver` | `buildResolver`, `resolverErrorWrapper` |
| vm_config.dfy | `KubecfgVm` | `dirURL`, the search path, the variable rewriting and `JsonnetVM` |
| read_objects.dfy | `KubecfgReadObjects` | `ReadObjects` |

Each loop of the core is a method whose contract ties its result to a
specification function: `JsonWalk` to `Walk`, `YamlReader` to `YamlRead`,
`FlattenToV1` to `Flatten`, and so on. The properties are lemmas about those functions.

A decoded JSON object is a list of fields, so this model fixes one order for it: the
order of the list. Go randomises map iteration order. Every statement about the order
of a map walk's findings is therefore about this fixed order. Array order is the
source's own.

Collaborators the model cannot see are passed in as functions that may fail with a
message. These include the file system, the YAML framer, the decoders, the Jsonnet
evaluator, `url.Parse`, `filepath.Abs` and `filepath.Join`, `%q`, `utils.ToDataURL`,
`utils.CheckDuplicates` and the inner image resolvers. They are the fields of
`Readers.Io`, `KubecfgVm.Host` and `KubecfgReadObjects.Batch`, and the arguments of
`KubecfgResolver.Resolve`.

## Model

| member | source | states |
|---|---|---|
| WalkContext.ChildPath | utils/acquire.go:128-143 | `child(l).path() == path() + l`; the child inherits the file and the options |
| WalkContext.PathIsConcatenation | utils/acquire.go:128-134 | a path is the concatenation of the segments from the outermost context down, the first being the outermost context's own |
| WalkContext.DescendPath | utils/acquire.go:128-143 | descending through any sequence of segments extends the path by exactly those segments and inherits file and options |
| WalkContext.RootDescendPath | utils/acquire.go:223 | from the walk's starting context the path is "$" followed by the segments, with the file read and the options passed |
| WalkContext.NatToStringInjective | utils/acquire.go:185 | different indices print differently under `%d` |
| WalkContext.SiblingPathsDiffer | utils/acquire.go:185 | two different elements of one array get different paths |
| WalkContext.NatToString | utils/acquire.go:185 | `%d` of an index is a non-empty string of decimal digits with no leading zero |
| WalkContext.NatToStringValue | utils/acquire.go:185 | the digits `%d` prints for an index, read back in base ten, are that index |
| Provenance.AnnotateProvenance | utils/acquire.go:145-160 | the step-by-step stamping yields exactly `Stamped`: `metadata`, then `annotations`, created when absent |
| Provenance.StampedAnnotations | utils/acquire.go:149-158 | after stamping, the path annotation holds the context's path; the file annotation holds the file when it is non-empty and is otherwise untouched; every other annotation is unchanged |
| Provenance.StampedMetadata | utils/acquire.go:146-152 | fields of `metadata` other than `annotations` are unchanged |
| Provenance.Stamped | utils/acquire.go:145-160 | stamping touches no key but `metadata`; where `metadata` or `annotations` exists but is not a map the object is unchanged; distinct keys stay distinct |
| Walker.JsonWalk | utils/acquire.go:162-195 | the recursive walk with its two appending loops computes `Walk` |
| Walker.WalkNull | utils/acquire.go:164-165 | null yields the empty result and never fails |
| Walker.WalkResource | utils/acquire.go:166-171 | a map with non-nil `kind` and `apiVersion` is the single finding, whatever its fields hold; it is stamped exactly when provenance is on, otherwise returned as it is |
| Walker.WalkScalar | utils/acquire.go:192-193 | a bool, number or string is an error naming its path and Go type; at the root the path is "$" |
| Walker.WalkArray | utils/acquire.go:182-191 | element i is walked at `path + "[i]"`; success iff every element's walk succeeds, then the findings concatenated in index order; otherwise the first failing element's error |
| Walker.WalkMap | utils/acquire.go:173-181 | the same for the fields of a non-resource map, field k at `path + ".k"`, in the model's field order |
| Walker.WalkFindsResources | utils/acquire.go:162-195 | everything the walk returns is a map with non-nil `kind` and `apiVersion` |
| Walker.WalkKeepsKeysDistinct | utils/acquire.go:162-195 | on a value `json.Unmarshal` can produce, every map the walk returns, stamped or not, holds each key once |
| Walker.WalkErrorIsShape | utils/acquire.go:192-193 | the walk fails only with the not-an-object error, at a path that extends the starting path |
| Objects.FlattenToV1 | utils/acquire.go:256-271 | the nested loops compute `Flatten` |
| Objects.FlattenShape | utils/acquire.go:256-271 | flattening succeeds iff every object is a plain object or a list; the batch is then each object's members in input order, and its length is the sum of the member counts |
| Objects.FlattenList | utils/acquire.go:261-264 | a list is replaced by its items in item order |
| Objects.FlattenPlain | utils/acquire.go:265-266 | a batch of plain objects is passed through unchanged |
| Objects.FlattenAppend | utils/acquire.go:258-270 | flattening a concatenation concatenates the flattenings |
| Objects.CountMembers | utils/acquire.go:256-271 | the number of entries found is the sum of the per-object member counts |
| FilePaths.Ext | utils/acquire.go:61 | the extension is either "" (no '.' in the last path element) or a suffix of the path that starts with '.' and has no other '.' and no separator |
| FilePaths.ToSlash | utils/acquire.go:204 | `ToSlash` keeps the length and maps each separator to '/' and every other byte to itself; with '/' as the separator that is the path itself |
| Readers.YamlReader | utils/acquire.go:95-119 | the frame loop computes `YamlRead` |
| Readers.YamlSkipsEmpty | utils/acquire.go:105-107 | empty documents make no difference to the result |
| Readers.YamlDocumentsInOrder | utils/acquire.go:95-119 | non-empty documents that all decode yield one object each, in stream order |
| Readers.YamlReadOk | utils/acquire.go:100-116 | the read succeeds iff every frame arrives and every non-empty document converts and decodes; otherwise the first failure is the whole result, with no partial objects |
| Readers.JsonRead | utils/acquire.go:83-93 | the JSON reader succeeds iff the content decodes, yielding exactly the decoded object; otherwise the decoder's error is the result |
| Readers.ToObject | utils/acquire.go:229-247 | each map found becomes one object with that map's fields, a list object iff it has an `items` array, whose items are then the maps of `items`, in order; only a list with an item that is not a map fails, with the bad-item error |
| Readers.ListObjectFlattens | utils/acquire.go:231-244 | a list map that reads flattens into exactly one entry per member of `items`, each that member's fields, in order |
| Readers.JsonnetReader | utils/acquire.go:197-251 | evaluation, parsing, the walk from "$" and the list-splitting loop compute `JsonnetRead` |
| Readers.ListItems | utils/acquire.go:231-242 | a list's items are read iff every member of `items` is a map, and they are then those maps in order; otherwise the error is the bad-item error |
| Readers.JsonnetYieldsResources | utils/acquire.go:223-250 | every object a Jsonnet file yields is a plain or list object with non-nil `kind` and `apiVersion` and distinct keys, so flattening that result cannot panic |
| Readers.JsonnetErrorIsKnown | utils/acquire.go:197-251 | a Jsonnet read fails only with a collaborator's error, the walk's not-an-object error or the bad-list-item error |
| Readers.Read | utils/acquire.go:55-81 | the dispatch computes `ReadSpec` |
| Readers.ReadDispatch | utils/acquire.go:61-80 | the unknown-extension error arises iff the extension is none of ".json", ".yaml" and ".jsonnet", and is then the whole result |
| Readers.ReadJsonFile | utils/acquire.go:83-93 | a ".json" file is read iff it opens and decodes, and then yields exactly one object, the decoded one |
| Readers.YamlErrorIsForeign | utils/acquire.go:95-119 | a YAML read fails only with a collaborator's error |
| KubecfgVm.DirURL | pkg/kubecfg/vm.go:224-232 | the result is `&url.URL{Scheme: "file", Path: …}` with no other part set, whose path ends in '/': the slash-normalised path itself when it already ends in '/', otherwise that path with '/' appended |
| KubecfgVm.DirURLIdempotent | pkg/kubecfg/vm.go:224-232 | the directory URL of a directory URL's path is that directory URL |
| KubecfgVm.TrailingSlashAsWritten | pkg/kubecfg/vm.go:127-129 | the step as written fails, out of range, exactly on an empty URL path; otherwise only the path changes and it ends in '/' |
| KubecfgVm.TrailingSlashHostOnly | pkg/kubecfg/vm.go:127 | a host-only URL such as `https://example.com`, whose path is empty, makes the step as written index out of range |
| KubecfgVm.WithTrailingSlash | pkg/kubecfg/vm.go:127-129 | the corrected step: the path ends in '/'; '/' is appended iff the path did not end in '/'; no other part of the URL changes |
| KubecfgVm.WithTrailingSlashAgrees | pkg/kubecfg/vm.go:127-129 | the corrected step agrees with the step as written wherever that does not panic, and it is idempotent |
| KubecfgVm.AssembleSearchPath | pkg/kubecfg/vm.go:109-131 | the two loops, with the corrected step, compute `SearchPath` |
| KubecfgVm.SearchPathShape | pkg/kubecfg/vm.go:109-131 | the search path is built iff every import directory resolves and every URL parses; it has `|importPath| + |importURLs| + 1` entries: the directories in order, then the import URLs in order, then `internal:///`; every entry's path ends in '/' |
| KubecfgVm.LocalsShape | pkg/kubecfg/vm.go:110-116 | the directory loop succeeds iff every directory resolves, and yields their directory URLs in order |
| KubecfgVm.RemotesShape | pkg/kubecfg/vm.go:122-131 | the URL loop succeeds iff every URL parses, and yields them with trailing slashes, in order |
| KubecfgVm.EscRoundTrip | pkg/kubecfg/vm.go:165 | reading back a Jsonnet verbatim string `@'…'` whose body has every quote doubled gives exactly the original string, and the closing quote ends it |
| KubecfgVm.Esc | pkg/kubecfg/vm.go:165 | doubling the quotes never shortens a string, leaves one without quotes as it is, and lengthens one with a quote |
| KubecfgVm.RewriteValue | pkg/kubecfg/vm.go:147-166 | a variable that does not name a file is set to its value unchanged; a file variable becomes `import @'` (code) or `importstr @'` (string) followed by a verbatim string that reads back as exactly the URL of the target file and ends the value |
| KubecfgVm.ImportTargetResolves | pkg/kubecfg/vm.go:153-156 | an absolute value is the target as it is; a relative one is joined onto the working directory |
| KubecfgVm.BindVars | pkg/kubecfg/vm.go:145-169 | every variable is set once, in order, to its rewritten value |
| KubecfgVm.WorkingDir | pkg/kubecfg/vm.go:137-143 | a given working directory is used as it is; with none, the process's is used, and the only failure is that it cannot be found, which carries the underlying error |
| KubecfgVm.JsonnetVM | pkg/kubecfg/vm.go:101-180 | the configuration step computes `ConfigureVm` |
| KubecfgVm.ConfigureVmOutcome | pkg/kubecfg/vm.go:109-176 | configuration succeeds iff the search path, the working directory and the resolver all do; a search path failure wins, then a missing working directory; every variable is bound in order; the process's working directory is consulted only when none is given |
| KubecfgResolver.BuildResolver | pkg/kubecfg/vm.go:182-209 | the options are accepted iff the failure action is one of the three and the type one of the two; a bad failure action is reported whatever the type |
| KubecfgResolver.BuildResolverCodes | pkg/kubecfg/vm.go:77-97 | building from the constant codes of a wrapper's parts gives that wrapper, and the only accepted codes for a wrapper are those |
| KubecfgResolver.Resolve | pkg/kubecfg/vm.go:216-222 | the wrapper never fails when the inner resolver succeeds; on an inner failure it fails only under Report, with the inner error unchanged |
| KubecfgReadObjects.RewritePaths | pkg/kubecfg/vm.go:239-254 | after the two in-place loops each entry is its overlay rewriting, in place, with count and order kept |
| KubecfgReadObjects.RewrittenCases | pkg/kubecfg/vm.go:239-254 | with no overlay the paths are unchanged; the URL overlay alone or the code overlay alone wraps each path; with both the code overlay wraps the URL overlay |
| KubecfgReadObjects.ReadObjects | pkg/kubecfg/vm.go:236-269 | the paths end up rewritten, and the result is `ReadAll` of the rewritten paths |
| KubecfgReadObjects.ReadAllOk | pkg/kubecfg/vm.go:256-268 | the batch is read iff every path reads and flattens and the duplicate check passes on the whole concatenation, which is then the result in path order |
| KubecfgReadObjects.ReadAllFirstFailure | pkg/kubecfg/vm.go:257-262 | the first failing path decides the error; a read failure is wrapped with that path; the duplicate check does not affect the outcome |
| KubecfgReadObjects.ReadStepFlattens | pkg/kubecfg/vm.go:258-263 | a path that reads contributes its objects flattened, and fails only on an object that is neither plain nor a list |
| JsonValue.Put | utils/acquire.go:147-157 | Go's `o[k] = v`: k then reads v, every other key reads as before, and an absent key is added at the end |
| JsonValue.PutKeepsDistinct | utils/acquire.go:147-157 | assignment keeps keys distinct |
| Sequencing.SequenceOk | utils/acquire.go:174-181 | an abort-on-error appending loop succeeds iff every step does, with the steps' findings concatenated in order |
| Sequencing.SequenceErr | utils/acquire.go:184-188 | otherwise the loop fails with the first failing step's error |
| Sequencing.SequenceSnoc | utils/acquire.go:189 | one more loop iteration appends its findings, unless a step has already failed |

## Left out

- I/O: opening and reading files, `os.Getwd`, `filepath.Abs` and `filepath.Join`. Their results are inputs.
- `os.Open` followed by `ioutil.ReadAll` is merged into one function that yields the file's bytes.
- Decoding: `UnstructuredJSONScheme.Decode`, the YAML reader, `yaml.ToJSON` and `json.Unmarshal` are library code. They are modelled as functions that may fail. What `json.Unmarshal` returns is typed `GoJson`: a value whose maps hold each key once, at every depth, as a Go map does.
- The Jsonnet VM is not modelled: `EvaluateSnippet`, the importer, native functions and each variable's `Setter`. `JsonnetVM` yields the configuration the VM would receive: search path, bindings and resolver.
- The `alpha` flag only selects importer features. It is carried in the options without effect.
- Logging is left out (`log.Debugf`, `log.Debugln`, `log.Warning`). Under the Warn policy the log line is not modelled, only the dropped error.
- The registry resolver and the in-place update of the image name are network work. The inner resolver is a function that reports success or an error message.
- `url.Parse`, `(*url.URL).String`, Go's `%q`, `utils.ToDataURL` and `utils.CheckDuplicates` are library or unseen code. They are parameters, and no property of theirs is assumed.
- `ReadObjects` calls `utils.Read`, the `Read` of utils/acquire.go, but the two files come from different revisions of the package. `ReadObjects` builds its options with `acquire.MakeReadOptions` and reads `OverlayURL` and `OverlayCode` from them (pkg/kubecfg/vm.go:237-247), while the `readOptions` of utils/acquire.go (lines 40-44) has only `showProvenance`. The reader `ReadObjects` calls is therefore a parameter (`Batch.read`) rather than `Readers.Read` with its `ReadOptions`.
- How the read options are built (`acquire.MakeReadOptions`) is not part of this model.
- Error messages are error values. Only the message-bearing collaborator errors keep their text.
- Go map iteration order is not modelled; the model uses the order of the field list. So the order of a map's findings is the model's order, not Go's random one.
- Walker.WalkMap: the order of the findings is stated for the model's field order. Go promises no order.
- Provenance.AnnotateProvenance: the source mutates the shared map in place and the caller sees the change through aliasing. The model returns the updated fields and the walker returns them.
- Objects.FlattenToV1: the source panics on an object that is neither plain nor a list. The model returns `UnexpectedObjectType` instead.
- ItemNotObject: the message text of apimachinery's list-item iteration is not modelled, only that the read fails.
- FilePaths.Ext and FilePaths.ToSlash: modelled for a Unix host (separator '/'). On Windows, `ToSlash` rewrites '\\'.
- KubecfgVm.AssembleSearchPath: it uses the corrected trailing-slash step, so the model has no panic on an empty URL path (see Findings).

## Findings

| source | as written | input that shows it | evidently intended | confidence | as-written member | corrected member |
|---|---|---|---|---|---|---|
| pkg/kubecfg/vm.go:127 | `u.Path[len(u.Path)-1]` reads the last byte of the parsed URL's path with no length check | an import URL with an empty path, such as `https://example.com` (a host with no path) | treat an empty path as not ending in '/' and append '/' | high, not executed | KubecfgVm.TrailingSlashHostOnly | KubecfgVm.WithTrailingSlash |
