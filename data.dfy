/**
 * The document of a single record on its way through the ingest pipeline: the
 * index, type and id it will be indexed under, its field tree, and whether any
 * operation has changed that tree since construction.
 */
module Ingest {
  import opened DocumentTree

  datatype Outcome = Done | Failed(error: Error)

  class Data {
    const index: string
    const docType: string
    const id: string
    var document: Document
    var modified: bool

    constructor (index: string, docType: string, id: string, document: Document)
      ensures this.index == index && this.docType == docType && this.id == id
      ensures this.document == document
      ensures !modified
    {
      this.index := index;
      this.docType := docType;
      this.id := id;
      this.document := document;
      this.modified := false;
    }

    /** A copy of `other` that is equal to it and starts unmodified. */
    constructor Copy(other: Data)
      ensures index == other.index && docType == other.docType && id == other.id
      ensures document == other.document
      ensures !modified
      ensures Equals(other)
    {
      index := other.index;
      docType := other.docType;
      id := other.id;
      document := other.document;
      modified := false;
    }

    /**
     * The map that holds the last segment of `path`, found by walking every
     * segment but the last through nested maps; None when one of them is
     * missing or not a map.
     */
    method GetParent(path: seq<string>) returns (parent: Option<Document>)
      requires |path| > 0
      ensures parent.Some? ==> ParentResolves(document, path)
      ensures ParentResolves(document, path) ==> parent.Some?
      ensures parent.Some? && |path| == 1 ==> parent.value == document
      ensures parent.Some? && |path| > 1 ==> Lookup(document, path[..|path| - 1]) == Some(Obj(parent.value))
      ensures parent.None? ==> Lookup(document, path) == None
      ensures parent.Some? ==> Lookup(document, path) == Lookup(parent.value, [path[|path| - 1]])
    {
      var inner := document;
      var i := 0;
      while i < |path| - 1
        invariant 0 <= i <= |path| - 1
        invariant i == 0 ==> inner == document
        invariant i > 0 ==> Lookup(document, path[..i]) == Some(Obj(inner))
        invariant forall j :: 1 <= j <= i ==> Lookup(document, path[..j]).Some? && Lookup(document, path[..j]).value.Obj?
        invariant Lookup(document, path) == Lookup(inner, path[i..])
      {
        var key := path[i];
        assert path[i..][1..] == path[i + 1..];
        assert path[..i + 1] == path[..i] + [key];
        if i > 0 {
          LookupExtend(document, path[..i], key);
        }
        if key in inner && inner[key].Obj? {
          inner := inner[key].fields;
        } else {
          assert !(Lookup(document, path[..i + 1]).Some? && Lookup(document, path[..i + 1]).value.Obj?);
          return None;
        }
        i := i + 1;
      }
      assert path[i..] == [path[|path| - 1]];
      return Some(inner);
    }

    /**
     * The value under `path` if it is of class `kind`; absent when the path is
     * empty, does not resolve, or holds null; an error when it holds a value of
     * another class.
     */
    method GetPropertyValue(path: seq<string>, kind: Kind) returns (r: Result<Option<Value>>)
      ensures Lookup(document, path).None? ==> r == Ok(None)
      ensures Lookup(document, path) == Some(Null) ==> r == Ok(None)
      ensures Lookup(document, path).Some? && IsInstance(Lookup(document, path).value, kind) ==>
                r == Ok(Lookup(document, path))
      ensures r.Err? <==> Lookup(document, path).Some? && !Lookup(document, path).value.Null? &&
                          !IsInstance(Lookup(document, path).value, kind)
      ensures r.Err? ==> r.error == CannotCast(path, KindOf(Lookup(document, path).value), kind)
    {
      if |path| == 0 {
        return Ok(None);
      }
      var innerMap := GetParent(path);
      if innerMap.None? {
        return Ok(None);
      }
      var leafKey := path[|path| - 1];
      if leafKey !in innerMap.value || innerMap.value[leafKey].Null? {
        return Ok(None);
      }
      var property := innerMap.value[leafKey];
      if IsInstance(property, kind) {
        return Ok(Some(property));
      }
      return Err(CannotCast(path, KindOf(property), kind));
    }

    /** Whether the key named by `path` is present (a key holding null counts). */
    method HasPropertyValue(path: seq<string>) returns (b: bool)
      ensures b <==> Lookup(document, path).Some?
    {
      if |path| == 0 {
        return false;
      }
      var innerMap := GetParent(path);
      if innerMap.None? {
        return false;
      }
      b := path[|path| - 1] in innerMap.value;
    }

    /**
     * Removes the key named by `path` when present, and only then marks the
     * document modified; otherwise nothing changes.
     */
    method RemoveProperty(path: seq<string>)
      modifies this
      ensures document == Removed(old(document), path)
      ensures modified == (old(modified) || Lookup(old(document), path).Some?)
      ensures Lookup(document, path) == None
    {
      if |path| == 0 {
        return;
      }
      var parent := GetParent(path);
      if parent.Some? {
        var leafKey := path[|path| - 1];
        if leafKey in parent.value {
          modified := true;
          document := Delete(document, path);
        }
      }
    }

    /**
     * Stores `value` under `path`, creating every missing intermediate map.
     * Fails on an empty path and on an intermediate field holding null or a
     * non-map; a failed write changes nothing.
     */
    method SetPropertyValue(path: seq<string>, value: Value) returns (outcome: Outcome)
      modifies this
      ensures path == [] ==> outcome == Failed(EmptyField)
      ensures path != [] ==> (outcome == Done <==> SetAt(old(document), path, value).Ok?)
      ensures path != [] && outcome.Failed? ==> outcome.error == SetAt(old(document), path, value).error
      ensures outcome == Done ==> document == SetAt(old(document), path, value).value && modified
      ensures outcome == Done ==> Lookup(document, path) == Some(value)
      ensures outcome.Failed? ==> document == old(document) && modified == old(modified)
    {
      if |path| == 0 {
        return Failed(EmptyField);
      }
      var inner := document;
      // once a map has been created, every later segment is missing from it
      ghost var created := false;
      var i := 0;
      while i < |path| - 1
        invariant 0 <= i <= |path| - 1
        invariant created ==> inner == map[]
        invariant SetAt(document, path, value).Err? <==> SetAt(inner, path[i..], value).Err?
        invariant SetAt(inner, path[i..], value).Err? ==>
                    SetAt(document, path, value) == SetAt(inner, path[i..], value)
      {
        var pathElement := path[i];
        assert path[i..][1..] == path[i + 1..];
        if pathElement in inner {
          match inner[pathElement]
          case Obj(fields) =>
            inner := fields;
          case Null =>
            assert !created;
            return Failed(NullParent);
          case other =>
            assert !created;
            return Failed(NonMapParent(pathElement, KindOf(other)));
        } else {
          inner := map[];
          created := true;
        }
        i := i + 1;
      }
      assert path[i..] == [path[|path| - 1]];
      document := SetAt(document, path, value).value;
      modified := true;
      outcome := Done;
    }

    /** Equality over index, type, id and document; `modified` plays no part. */
    function Equals(other: Data): (r: bool)
      reads this, other
      ensures r ==> index == other.index && docType == other.docType && id == other.id &&
                    forall p :: Lookup(document, p) == Lookup(other.document, p)
      ensures (&& index == other.index && docType == other.docType && id == other.id
               && forall p :: Lookup(document, p) == Lookup(other.document, p)) ==> r
    {
      DocumentsAgree(document, other.document);
      document == other.document && index == other.index && docType == other.docType && id == other.id
    }
  }
}
