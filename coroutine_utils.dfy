/** The test helper `withoutPath`: split a '/'-separated path, follow all
    segments but the last as nested objects of a copy, and remove the last
    segment's key from the object reached. */
module CoroutineUtils {
  import opened Exceptions
  import opened Json

  /** The segments joined back with '/' between them. */
  function Join(parts: seq<string>): string
    requires |parts| >= 1
  {
    if |parts| == 1 then parts[0] else parts[0] + "/" + Join(parts[1..])
  }

  /** `String.split("/")`: every segment, empty ones included, so there is
      always at least one. */
  function Split(s: string): (parts: seq<string>)
    ensures |parts| >= 1
    ensures forall i :: 0 <= i < |parts| ==> '/' !in parts[i]
    ensures Join(parts) == s
  {
    if s == [] then [""]
    else
      var rest := Split(s[1..]);
      if s[0] == '/' then [""] + rest
      else [[s[0]] + rest[0]] + rest[1..]
  }

  /** Splitting undoes joining segments that hold no '/'. */
  lemma {:induction false} SplitJoin(parts: seq<string>)
    requires |parts| >= 1
    requires forall i :: 0 <= i < |parts| ==> '/' !in parts[i]
    ensures Split(Join(parts)) == parts
    decreases |Join(parts)|, |parts|
  {
    if |parts| == 1 {
      NoSlashSplit(parts[0]);
    } else {
      var head, tail := parts[0], parts[1..];
      SplitJoin(tail);
      SplitHead(head, Join(tail));
    }
  }

  /** A text without '/' is one segment. */
  lemma {:induction false} NoSlashSplit(s: string)
    requires '/' !in s
    ensures Split(s) == [s]
    decreases |s|
  {
    if s != [] {
      NoSlashSplit(s[1..]);
    }
  }

  lemma {:induction false} SplitHead(head: string, rest: string)
    requires '/' !in head
    ensures Split(head + "/" + rest) == [head] + Split(rest)
    decreases |head|
  {
    if head == [] {
      assert head + "/" + rest == ['/'] + rest;
      assert (['/'] + rest)[1..] == rest;
    } else {
      var s := head + "/" + rest;
      assert s[1..] == head[1..] + "/" + rest;
      SplitHead(head[1..], rest);
      assert [s[0]] + head[1..] == head;
    }
  }

  /** The object reached by following `path` from `obj`, as the `fold` over
      `getJsonObject` does: an absent or null member gives a null that the next
      call dereferences, any other non-object fails the cast. */
  function ObjectAt(obj: JsonObject, path: seq<string>): Result<JsonObject>
    decreases |path|
  {
    if path == [] then Ok(obj)
    else if !Present(obj, path[0]) then Err(NullPointer)
    else if !obj[path[0]].JObject? then Err(ClassCast(path[0]))
    else ObjectAt(obj[path[0]].fields, path[1..])
  }

  /** The value at a non-empty path, if every step before the last is an object. */
  function ValueAt(obj: JsonObject, path: seq<string>): Option<JVal>
    requires |path| >= 1
    decreases |path|
  {
    if path[0] !in obj then None
    else if |path| == 1 then Some(obj[path[0]])
    else if obj[path[0]].JObject? then ValueAt(obj[path[0]].fields, path[1..])
    else None
  }

  predicate IsPrefix(p: seq<string>, q: seq<string>)
  {
    |p| <= |q| && q[..|p|] == p
  }

  /** `remove(leafKey)` applied to the object reached through `parents` in a
      copy of `obj`; the copy is otherwise `obj`. */
  function RemoveAt(obj: JsonObject, parents: seq<string>, leaf: string): (r: Result<JsonObject>)
    ensures r.Ok? <==> ObjectAt(obj, parents).Ok?
    ensures r.Err? ==> r.error == ObjectAt(obj, parents).error
    ensures r.Ok? ==> ObjectAt(r.value, parents) == Ok(ObjectAt(obj, parents).value - {leaf})
    ensures r.Ok? && parents != [] ==> r.value.Keys == obj.Keys
    decreases |parents|
  {
    if parents == [] then Ok(obj - {leaf})
    else if !Present(obj, parents[0]) then Err(NullPointer)
    else if !obj[parents[0]].JObject? then Err(ClassCast(parents[0]))
    else
      var inner :- RemoveAt(obj[parents[0]].fields, parents[1..], leaf);
      Ok(obj[parents[0] := JObject(inner)])
  }

  /** `withoutPath(path)`: the receiver is only read; the result is a copy with
      the leaf key removed from the object the parent segments lead to. */
  function WithoutPath(obj: JsonObject, path: string): Result<JsonObject>
  {
    var keys := Split(path);
    RemoveAt(obj, keys[..|keys| - 1], keys[|keys| - 1])
  }

  /** Only the leaf entry goes: at every level, every value whose path is not
      on the way to the leaf, nor below the leaf, is unchanged, and the leaf is
      gone. */
  lemma {:induction false} RemoveAtKeepsOthers(obj: JsonObject, parents: seq<string>, leaf: string, path: seq<string>)
    requires RemoveAt(obj, parents, leaf).Ok?
    requires |path| >= 1
    ensures var r := RemoveAt(obj, parents, leaf).value;
      && ValueAt(r, parents + [leaf]) == None
      && (!IsPrefix(path, parents + [leaf]) && !IsPrefix(parents + [leaf], path) ==>
          ValueAt(r, path) == ValueAt(obj, path))
    decreases |parents|
  {
    var r := RemoveAt(obj, parents, leaf).value;
    var target := parents + [leaf];
    if parents == [] {
      if !IsPrefix(path, target) && !IsPrefix(target, path) {
        assert path[..1] != [leaf];
        assert path[0] != leaf;
      }
    } else {
      var p0 := parents[0];
      var child := obj[p0].fields;
      var inner := RemoveAt(child, parents[1..], leaf).value;
      assert r == obj[p0 := JObject(inner)];
      assert target[1..] == parents[1..] + [leaf];
      RemoveAtKeepsOthers(child, parents[1..], leaf, if |path| >= 2 then path[1..] else [leaf]);
      if !IsPrefix(path, target) && !IsPrefix(target, path) {
        if path[0] == p0 {
          assert |path| >= 2;
          assert !IsPrefix(path[1..], target[1..]);
          assert !IsPrefix(target[1..], path[1..]);
        }
      }
    }
  }

  /** A path without '/', such as a dotted property key, removes that top-level
      key. */
  lemma WithoutPlainKey(obj: JsonObject, key: string)
    requires '/' !in key
    ensures WithoutPath(obj, key) == Ok(obj - {key})
  {
    NoSlashSplit(key);
  }

  /** A nested path: the segments, none holding a '/', joined by '/' remove
      the leaf from the object the parent segments lead to. */
  lemma WithoutJoinedPath(obj: JsonObject, parents: seq<string>, leaf: string)
    requires forall i :: 0 <= i < |parents| ==> '/' !in parents[i]
    requires '/' !in leaf
    ensures WithoutPath(obj, Join(parents + [leaf])) == RemoveAt(obj, parents, leaf)
  {
    var parts := parents + [leaf];
    assert forall i :: 0 <= i < |parts| ==> '/' !in parts[i] by {
      forall i | 0 <= i < |parts| ensures '/' !in parts[i] {
        if i < |parents| {
          assert parts[i] == parents[i];
        }
      }
    }
    SplitJoin(parts);
    assert parts[..|parts| - 1] == parents;
  }

  /** Removing a leaf that is not there gives back an equal object. */
  lemma {:induction false} RemoveAbsentLeaf(obj: JsonObject, parents: seq<string>, leaf: string)
    requires ObjectAt(obj, parents).Ok? && leaf !in ObjectAt(obj, parents).value
    ensures RemoveAt(obj, parents, leaf) == Ok(obj)
    decreases |parents|
  {
    if parents == [] {
      assert obj - {leaf} == obj;
    } else {
      RemoveAbsentLeaf(obj[parents[0]].fields, parents[1..], leaf);
      assert obj[parents[0] := JObject(obj[parents[0]].fields)] == obj;
    }
  }
}
