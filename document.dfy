/**
 * The value tree of an ingest document and the path operations on it.
 *
 * A document is a map from field names to values; a value is a scalar, a list,
 * null, or again a map of fields. A path is the sequence of segments of a
 * dot-separated field name ("a.b.c" is ["a", "b", "c"]); the empty sequence
 * stands for a null or empty path string. Paths only ever descend through
 * maps: lists are leaves.
 */
module DocumentTree {

  datatype Option<T> = None | Some(value: T)

  datatype Value =
    | Null
    | Str(s: string)
    | Int(i: int)
    | Bool(b: bool)
    | List(items: seq<Value>)
    | Obj(fields: map<string, Value>)

  /** The class a caller asks a field value to have; ObjectKind accepts any non-null value. */
  datatype Kind = StringKind | IntegerKind | BooleanKind | ListKind | MapKind | ObjectKind

  /** The errors the document operations raise (all IllegalArgumentException in the source). */
  datatype Error =
    | EmptyField                                                  // write with a null or empty path
    | NullParent                                                  // write below a field holding null
    | NonMapParent(segment: string, actual: Kind)                 // write below a field holding a non-map
    | CannotCast(path: seq<string>, actual: Kind, expected: Kind) // read of a field of another class

  datatype Result<T> = Ok(value: T) | Err(error: Error)

  type Document = map<string, Value>

  /** The class of a non-null value. */
  function KindOf(v: Value): (k: Kind)
    requires !v.Null?
    ensures k != ObjectKind
    ensures k == MapKind <==> v.Obj?
  {
    match v
    case Str(_) => StringKind
    case Int(_) => IntegerKind
    case Bool(_) => BooleanKind
    case List(_) => ListKind
    case Obj(_) => MapKind
  }

  /** Whether `v` is an instance of the class `k`; null is an instance of no class. */
  predicate IsInstance(v: Value, k: Kind)
  {
    !v.Null? && (k == ObjectKind || KindOf(v) == k)
  }

  /**
   * The value stored under `path`, if the key is present: every segment but the
   * last must name a map, and the last must be a key of the innermost map.
   */
  function Lookup(m: Document, path: seq<string>): Option<Value>
    decreases |path|
  {
    if |path| == 0 then None
    else if |path| == 1 then (if path[0] in m then Some(m[path[0]]) else None)
    else if path[0] in m && m[path[0]].Obj? then Lookup(m[path[0]].fields, path[1..])
    else None
  }

  /** The paths `p` and `q` differ in some segment, so neither lies below the other. */
  predicate Diverge(p: seq<string>, q: seq<string>)
  {
    exists i :: 0 <= i < |p| && i < |q| && p[i] != q[i]
  }

  /** The proper prefix `p[..i]` of `p` holds something other than a map. */
  predicate BlockedAt(m: Document, p: seq<string>, i: int)
  {
    1 <= i < |p| && Lookup(m, p[..i]).Some? && !Lookup(m, p[..i]).value.Obj?
  }

  /** Every proper prefix of `path` holds a map, so the map that holds its last segment exists. */
  predicate ParentResolves(m: Document, path: seq<string>)
  {
    forall i :: 1 <= i < |path| ==> Lookup(m, path[..i]).Some? && Lookup(m, path[..i]).value.Obj?
  }

  /**
   * The document after storing `v` under `path`: missing intermediate maps are
   * created empty, an intermediate null or non-map value is an error.
   */
  function SetAt(m: Document, path: seq<string>, v: Value): (r: Result<Document>)
    requires |path| > 0
    ensures r.Ok? ==> Lookup(r.value, path) == Some(v)
    decreases |path|
  {
    if |path| == 1 then Ok(m[path[0] := v])
    else
      var child: Result<Document> :=
        if path[0] !in m then Ok(map[])
        else match m[path[0]]
          case Obj(fields) => Ok(fields)
          case Null => Err(NullParent)
          case other => Err(NonMapParent(path[0], KindOf(other)));
      match child
      case Err(e) => Err(e)
      case Ok(c) =>
        match SetAt(c, path[1..], v)
        case Err(e) => Err(e)
        case Ok(c') => Ok(m[path[0] := Obj(c')])
  }

  /** The document after removing the key named by `path`, which must be present. */
  function Delete(m: Document, path: seq<string>): (r: Document)
    requires Lookup(m, path).Some?
    ensures Lookup(r, path) == None
    decreases |path|
  {
    if |path| == 1 then m - {path[0]}
    else m[path[0] := Obj(Delete(m[path[0]].fields, path[1..]))]
  }

  /** Removal as the source performs it: a missing key leaves the document as it is. */
  function Removed(m: Document, path: seq<string>): (r: Document)
    ensures Lookup(r, path) == None
    ensures Lookup(m, path) == None ==> r == m
  {
    if Lookup(m, path).Some? then Delete(m, path) else m
  }

  // ---------------------------------------------------------------------------
  // Writing

  /** Writing into a freshly created (empty) map never fails, whatever the path. */
  lemma {:induction false} SetAtEmptySucceeds(path: seq<string>, v: Value)
    requires |path| > 0
    ensures SetAt(map[], path, v).Ok?
    decreases |path|
  {
    if |path| > 1 {
      SetAtEmptySucceeds(path[1..], v);
    }
  }

  lemma PrefixTail(p: seq<string>, i: int)
    requires 1 <= i <= |p|
    ensures |p[..i]| == i && p[..i][0] == p[0] && p[..i][1..] == p[1..][..i - 1]
  {
  }

  /** A write fails exactly when some proper prefix of the path holds a non-map (null included). */
  lemma {:induction false} SetAtFailsIff(m: Document, path: seq<string>, v: Value)
    requires |path| > 0
    ensures SetAt(m, path, v).Err? <==> exists i :: BlockedAt(m, path, i)
    decreases |path|
  {
    if |path| == 1 {
      assert forall i :: !BlockedAt(m, path, i);
    } else {
      var k := path[0];
      PrefixTail(path, 1);
      if k !in m {
        SetAtEmptySucceeds(path[1..], v);
        forall i | 1 <= i < |path| ensures !BlockedAt(m, path, i) {
          PrefixTail(path, i);
        }
      } else if !m[k].Obj? {
        assert BlockedAt(m, path, 1);
      } else {
        var c := m[k].fields;
        SetAtFailsIff(c, path[1..], v);
        forall i | 2 <= i < |path|
          ensures BlockedAt(m, path, i) <==> BlockedAt(c, path[1..], i - 1)
        {
          PrefixTail(path, i);
        }
        assert !BlockedAt(m, path, 1);
        if exists j :: BlockedAt(c, path[1..], j) {
          var j :| BlockedAt(c, path[1..], j);
          assert BlockedAt(m, path, j + 1);
        }
        if exists i :: BlockedAt(m, path, i) {
          var i :| BlockedAt(m, path, i);
          assert BlockedAt(c, path[1..], i - 1);
        }
      }
    }
  }

  /**
   * The error of a failed write comes from the first proper prefix that holds
   * no map: a null parent when that prefix holds null, otherwise a non-map
   * parent naming the prefix's last segment and the class of its value.
   */
  lemma {:induction false} SetAtError(m: Document, path: seq<string>, v: Value, i: int)
    requires BlockedAt(m, path, i)
    requires forall j :: 1 <= j < i ==> !BlockedAt(m, path, j)
    ensures SetAt(m, path, v) ==
              if Lookup(m, path[..i]).value.Null? then Err(NullParent)
              else Err(NonMapParent(path[i - 1], KindOf(Lookup(m, path[..i]).value)))
    decreases |path|
  {
    PrefixTail(path, 1);
    PrefixTail(path, i);
    if i > 1 {
      assert !BlockedAt(m, path, 1);
      var c := m[path[0]].fields;
      forall j | 1 <= j < i - 1 ensures !BlockedAt(c, path[1..], j) {
        PrefixTail(path, j + 1);
        assert !BlockedAt(m, path, j + 1);
      }
      SetAtError(c, path[1..], v, i - 1);
    }
  }

  /** Extending a path that holds a map by one segment looks that segment up in the map. */
  lemma {:induction false} LookupExtend(m: Document, p: seq<string>, k: string)
    requires |p| > 0 && Lookup(m, p).Some? && Lookup(m, p).value.Obj?
    ensures Lookup(m, p + [k]) == Lookup(Lookup(m, p).value.fields, [k])
    decreases |p|
  {
    assert (p + [k])[0] == p[0];
    assert (p + [k])[1..] == p[1..] + [k];
    if |p| > 1 {
      LookupExtend(m[p[0]].fields, p[1..], k);
    }
  }

  /** A write changes no path that diverges from the written one. */
  lemma {:induction false} SetAtFrame(m: Document, path: seq<string>, v: Value, q: seq<string>)
    requires |path| > 0 && SetAt(m, path, v).Ok? && Diverge(path, q)
    ensures Lookup(SetAt(m, path, v).value, q) == Lookup(m, q)
    decreases |path|
  {
    var m' := SetAt(m, path, v).value;
    var i :| 0 <= i < |path| && i < |q| && path[i] != q[i];
    if q[0] == path[0] {
      assert path[1..][i - 1] != q[1..][i - 1];
      var c := if path[0] in m then m[path[0]].fields else map[];
      SetAtFrame(c, path[1..], v, q[1..]);
    }
  }

  /** After a write every proper prefix of the path holds a map. */
  lemma {:induction false} SetAtAncestor(m: Document, path: seq<string>, v: Value, i: int)
    requires |path| > 0 && SetAt(m, path, v).Ok? && 1 <= i < |path|
    ensures Lookup(SetAt(m, path, v).value, path[..i]).Some?
    ensures Lookup(SetAt(m, path, v).value, path[..i]).value.Obj?
    decreases |path|
  {
    PrefixTail(path, i);
    if i > 1 {
      var c := if path[0] in m then m[path[0]].fields else map[];
      SetAtAncestor(c, path[1..], v, i - 1);
    }
  }

  /** Below the written path the document holds exactly what lies below `v`. */
  lemma {:induction false} SetAtBelow(m: Document, path: seq<string>, v: Value, s: seq<string>)
    requires |path| > 0 && SetAt(m, path, v).Ok? && |s| > 0
    ensures Lookup(SetAt(m, path, v).value, path + s) == (if v.Obj? then Lookup(v.fields, s) else None)
    decreases |path|
  {
    assert (path + s)[0] == path[0];
    if |path| == 1 {
      assert (path + s)[1..] == s;
    } else {
      assert (path + s)[1..] == path[1..] + s;
      var c := if path[0] in m then m[path[0]].fields else map[];
      SetAtBelow(c, path[1..], v, s);
    }
  }

  // ---------------------------------------------------------------------------
  // Removing

  /** A removal changes no path that diverges from the removed one. */
  lemma {:induction false} DeleteFrame(m: Document, path: seq<string>, q: seq<string>)
    requires Lookup(m, path).Some? && Diverge(path, q)
    ensures Lookup(Delete(m, path), q) == Lookup(m, q)
    decreases |path|
  {
    var i :| 0 <= i < |path| && i < |q| && path[i] != q[i];
    if q[0] == path[0] {
      assert path[1..][i - 1] != q[1..][i - 1];
      DeleteFrame(m[path[0]].fields, path[1..], q[1..]);
    }
  }

  /** A removal keeps every proper prefix of the removed path a map. */
  lemma {:induction false} DeleteAncestor(m: Document, path: seq<string>, i: int)
    requires Lookup(m, path).Some? && 1 <= i < |path|
    ensures Lookup(Delete(m, path), path[..i]).Some?
    ensures Lookup(Delete(m, path), path[..i]).value.Obj?
    decreases |path|
  {
    PrefixTail(path, i);
    if i > 1 {
      DeleteAncestor(m[path[0]].fields, path[1..], i - 1);
    }
  }

  /** Removing twice is removing once. */
  lemma RemovedIdempotent(m: Document, path: seq<string>)
    ensures Removed(Removed(m, path), path) == Removed(m, path)
  {
  }

  /** Removing a path that was just written leaves the path absent, and nothing diverging from it changed. */
  lemma SetThenRemove(m: Document, path: seq<string>, v: Value, q: seq<string>)
    requires |path| > 0 && SetAt(m, path, v).Ok? && Diverge(path, q)
    ensures Lookup(Removed(SetAt(m, path, v).value, path), path) == None
    ensures Lookup(Removed(SetAt(m, path, v).value, path), q) == Lookup(m, q)
  {
    var m' := SetAt(m, path, v).value;
    DeleteFrame(m', path, q);
    SetAtFrame(m, path, v, q);
  }

  // ---------------------------------------------------------------------------
  // Comparing

  /** Two documents are equal exactly when every path looks up the same in both. */
  lemma DocumentsAgree(m1: Document, m2: Document)
    ensures m1 == m2 ==> forall p :: Lookup(m1, p) == Lookup(m2, p)
    ensures (forall p :: Lookup(m1, p) == Lookup(m2, p)) ==> m1 == m2
  {
    if m1 != m2 {
      var k :| (k in m1 && k !in m2) || (k !in m1 && k in m2) || (k in m1 && k in m2 && m1[k] != m2[k]);
      assert Lookup(m1, [k]) != Lookup(m2, [k]);
    }
  }
}
