# Ingest document model

This project models `Data`, the in-memory document of the Elasticsearch ingest
plugin. `Data` holds one record on its way through an ingest pipeline. It has
the index, type and id the record will be indexed under, a nested JSON-like
field tree, and a `modified` flag. Fields are addressed by dot-separated paths.
The model covers the four path operations: read with a class check, presence
test, removal and write. Writes create missing intermediate maps.

Two modules:

- `DocumentTree` (`document.dfy`) holds the value tree. A `Value` is null, a
  string, an integer, a boolean, a list or a map of fields. A `Document` is a
  `map<string, Value>`. It also has the specification functions:
  - `Lookup` gives the value stored under a path, if the key is present.
  - `SetAt` gives the tree after a write, or the write's error.
  - `Delete` and `Removed` give the tree after a removal.
  - The lemmas state what a write and a removal change and what they leave alone.
- `Ingest` (`data.dfy`) holds the class `Data`. It has the constant identity
  fields `index`, `docType` and `id` (`type` is a Dafny keyword). It also has
  the mutable fields `document` and `modified`. Each method follows its Java
  counterpart branch for branch:
  - `GetParent` is the private `getParent` descent loop.
  - `GetPropertyValue`, `HasPropertyValue` and `RemoveProperty` call
    `GetParent`.
  - `SetPropertyValue` walks the path with the source's loop. It descends into
    maps, creates missing ones, and fails on null or a non-map.

Modelling choices:

- A path is the sequence of its segments: `"a.b.c"` is `["a", "b", "c"]`. The
  empty sequence stands for a null or empty path string. Reads treat it as
  absent, removal as a no-op, and a write rejects it with `EmptyField`.
- The requested class `Class<T>` is the tag `Kind`. `ObjectKind` stands for
  `Object.class` and accepts every non-null value. Null is an instance of no
  class.
- The source changes nested maps in place through the reference it descended
  to (`inner.put`, `parent.remove`). The value model writes the whole tree
  instead: `document := SetAt(...)` and `document := Delete(...)`. The lemmas
  `SetAtFrame` and `DeleteFrame` show that this changes nothing outside the
  written path.
- Thrown `IllegalArgumentException`s are `Error` values: `EmptyField`,
  `NullParent`, `NonMapParent` and `CannotCast`. Reads return
  `Result<Option<Value>>`, where `Ok(None)` is the Java `null`. Writes return an
  `Outcome`.
- Reads cannot change anything. `GetPropertyValue` and `HasPropertyValue` have
  no `modifies` clause, so `document` and `modified` are the same afterwards.
- `modified` starts false in both constructors and is only ever set to true.
  The contracts of `RemoveProperty` and `SetPropertyValue` show that it never
  goes back to false.
- A failed write changes nothing. This is proved, not assumed. A map created for
  a missing segment is empty, so every later segment is missing as well and is
  also created. Failure is therefore only possible before the first map is
  created. This is the ghost `created` flag in `SetPropertyValue` and the lemma
  `SetAtEmptySucceeds`. So a write that fails with `NullParent` or
  `NonMapParent` has created no map.

## Model

| member | source | states |
|---|---|---|
| `DocumentTree.SetAt` | plugins/ingest/src/main/java/org/elasticsearch/ingest/Data.java:139-170 | a successful write leaves exactly `v` under the path |
| `DocumentTree.Delete` | plugins/ingest/src/main/java/org/elasticsearch/ingest/Data.java:110-114 | removing a present key leaves the path absent |
| `DocumentTree.Removed` | plugins/ingest/src/main/java/org/elasticsearch/ingest/Data.java:102-116 | after removal the path is absent; a path that was already absent leaves the document unchanged |
| `DocumentTree.SetAtEmptySucceeds` | plugins/ingest/src/main/java/org/elasticsearch/ingest/Data.java:160-164 | writing below a freshly created empty map never fails, whatever the rest of the path |
| `DocumentTree.SetAtFailsIff` | plugins/ingest/src/main/java/org/elasticsearch/ingest/Data.java:147-165 | a write fails if and only if some proper prefix of the path holds null or a non-map value |
| `DocumentTree.SetAtError` | plugins/ingest/src/main/java/org/elasticsearch/ingest/Data.java:149-159 | a failed write raises the error of the first proper prefix holding no map: `NullParent` when it holds null, otherwise `NonMapParent` naming that prefix's last segment and the class of its value |
| `DocumentTree.SetAtFrame` | plugins/ingest/src/main/java/org/elasticsearch/ingest/Data.java:146-169 | a successful write changes the lookup of no path that diverges from the written one |
| `DocumentTree.SetAtAncestor` | plugins/ingest/src/main/java/org/elasticsearch/ingest/Data.java:149-164 | after a successful write every proper prefix of the path holds a map (existing or created) |
| `DocumentTree.SetAtBelow` | plugins/ingest/src/main/java/org/elasticsearch/ingest/Data.java:167-168 | after a write, a path below the written one looks up what lies inside the written value |
| `DocumentTree.DeleteFrame` | plugins/ingest/src/main/java/org/elasticsearch/ingest/Data.java:108-115 | a removal changes the lookup of no path that diverges from the removed one |
| `DocumentTree.DeleteAncestor` | plugins/ingest/src/main/java/org/elasticsearch/ingest/Data.java:108-115 | a removal keeps every proper prefix of the removed path a map |
| `DocumentTree.RemovedIdempotent` | plugins/ingest/src/main/java/org/elasticsearch/ingest/Data.java:102-116 | removing the same path twice is the same as removing it once |
| `DocumentTree.SetThenRemove` | plugins/ingest/src/main/java/org/elasticsearch/ingest/Data.java:102-170 | removing a path just written leaves it absent, and every diverging path holds what it held before the write |
| `DocumentTree.DocumentsAgree` | plugins/ingest/src/main/java/org/elasticsearch/ingest/Data.java:200 | two documents are equal exactly when every path looks up the same value in both |
| `Ingest.Data.constructor` | plugins/ingest/src/main/java/org/elasticsearch/ingest/Data.java:36-43 | stores index, type, id and document; `modified` starts false |
| `Ingest.Data.Copy` | plugins/ingest/src/main/java/org/elasticsearch/ingest/Data.java:45-47 | same index, type, id and document contents, `modified` false, and equal to the original |
| `Ingest.Data.GetParent` | plugins/ingest/src/main/java/org/elasticsearch/ingest/Data.java:118-131 | returns a map exactly when every proper prefix of the path holds a map; that map is the document itself for a one-segment path and otherwise the map held at the parent path; the path's value is its entry for the last segment |
| `Ingest.Data.GetPropertyValue` | plugins/ingest/src/main/java/org/elasticsearch/ingest/Data.java:56-77 | absent (no error) for an empty path, an unresolved parent, a missing key or null; the value itself when it is an instance of the requested class; a `CannotCast` error naming path, actual and expected class exactly when a non-null value is of another class |
| `Ingest.Data.HasPropertyValue` | plugins/ingest/src/main/java/org/elasticsearch/ingest/Data.java:84-96 | true exactly when every non-final segment resolves to a map and the leaf key is present, null values included |
| `Ingest.Data.RemoveProperty` | plugins/ingest/src/main/java/org/elasticsearch/ingest/Data.java:102-116 | removes the key and sets `modified` exactly when it is present; otherwise document and `modified` are unchanged; the path is absent afterwards |
| `Ingest.Data.SetPropertyValue` | plugins/ingest/src/main/java/org/elasticsearch/ingest/Data.java:139-170 | rejects an empty path; succeeds exactly when `SetAt` does, and then the leaf holds the value and `modified` is true; a failure carries `SetAt`'s error and changes neither document nor `modified` |
| `Ingest.Data.Equals` | plugins/ingest/src/main/java/org/elasticsearch/ingest/Data.java:193-204 | true exactly when index, type and id agree and every path looks up the same value; `modified` is ignored |

## Left out

- Path splitting: `Strings.splitStringToArray` is not part of this model. A path
  is given already split, and an empty sequence stands for a null or empty
  string. Segments are arbitrary strings. The source's `assert
  pathElements.length > 0` for strings such as `"."` is therefore not modelled.
- Aliasing of nested maps is not modelled, because the field tree is a value.
  The constructor stores the caller's map by reference, and the copy constructor
  copies only the top-level map, so a copy shares nested maps with its original.
  In the model a copy is fully independent, and a write below the top level of
  a copy does not show through to the original.
- Java reflection: `Class.isInstance`, `Class.cast` and the exception message
  texts. The requested class is a `Kind` tag and errors are `Error` values that
  carry the message's data (path, segment, actual and expected class).
- `hashCode`: it has no contract beyond agreeing with `equals`.
- `equals` against `null` or an object of another class returns false. In the
  model the argument is always a `Data`. The `obj == this` shortcut agrees with
  the field comparison and is not modelled separately.
- Numbers are integers only. Other numeric classes and floating point are not
  modelled. Lists are leaves: paths never descend into them.
- Getters `getIndex`, `getType`, `getId`, `getDocument` and `isModified`: the
  model reads the fields `index`, `docType`, `id`, `document` and `modified`
  directly.
