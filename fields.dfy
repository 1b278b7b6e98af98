/**
 * Resolving an attribute of the alert data: the matcher's resolver
 * (`getMatcherValue`) and the environment resolver's field lookup
 * (`getAlertFieldValue` / `getNestedField`).
 */
module Fields {
  import opened Wrappers
  import opened Strings
  import opened Payload

  const AnnotationsPrefix: string := "annotations."

  /** Why a field path did not resolve. */
  datatype FieldError =
    | FieldNotFound(field: string)
    | NotAMap(field: string)

  /**
   * The value a matcher compares: a name with the `annotations.` prefix is
   * looked up in the `annotations` map only; any other name in the `labels`
   * map first and then among the top-level fields.
   */
  function GetMatcherValue(name: string, data: Payload): (r: Option<string>)
    ensures HasPrefix(name, AnnotationsPrefix) ==>
      (r.Some? <==> SubMap(data, "annotations").Some? && name[|AnnotationsPrefix|..] in SubMap(data, "annotations").value)
    ensures !HasPrefix(name, AnnotationsPrefix) ==>
      (r.Some? <==> (SubMap(data, "labels").Some? && name in SubMap(data, "labels").value) || name in data)
  {
    if HasPrefix(name, AnnotationsPrefix) then
      var key := name[|AnnotationsPrefix|..];
      var annotations := SubMap(data, "annotations");
      if annotations.Some? && key in annotations.value then Some(Show(annotations.value[key])) else None
    else
      var labels := SubMap(data, "labels");
      if labels.Some? && name in labels.value then Some(Show(labels.value[name]))
      else if name in data then Some(Show(data[name]))
      else None
  }

  /** An `annotations.` name depends on nothing but the `annotations` map. */
  lemma AnnotationNamesReadOnlyAnnotations(name: string, data: Payload, other: Payload)
    requires HasPrefix(name, AnnotationsPrefix)
    requires SubMap(data, "annotations") == SubMap(other, "annotations")
    ensures GetMatcherValue(name, data) == GetMatcherValue(name, other)
  {
  }

  /** A label shadows a top-level field of the same name. */
  lemma LabelsBeforeTopLevel(name: string, data: Payload)
    requires !HasPrefix(name, AnnotationsPrefix)
    requires SubMap(data, "labels").Some? && name in SubMap(data, "labels").value
    ensures GetMatcherValue(name, data) == Some(Show(SubMap(data, "labels").value[name]))
  {
  }

  /** Without such a label, the top-level field decides. */
  lemma TopLevelFallback(name: string, data: Payload)
    requires !HasPrefix(name, AnnotationsPrefix)
    requires SubMap(data, "labels").None? || name !in SubMap(data, "labels").value
    ensures GetMatcherValue(name, data) == if name in data then Some(Show(data[name])) else None
  {
  }

  /**
   * The nested walk of `getNestedField` over the dot-separated pieces of
   * `path`: every piece but the last must name a nested map.
   */
  function Walk(cur: map<string, Value>, parts: seq<string>, path: string): (r: Result<string, FieldError>)
    requires |parts| >= 1
    ensures r.Err? && r.error.NotAMap? ==> r.error.field in parts[..|parts| - 1]
    ensures r.Err? && r.error.FieldNotFound? ==> r.error.field == path || r.error.field in parts[..|parts| - 1]
    decreases |parts|
  {
    var part := parts[0];
    if |parts| == 1 then
      if part in cur then Ok(Show(cur[part])) else Err(FieldNotFound(path))
    else if part !in cur then Err(FieldNotFound(part))
    else if !cur[part].Map? then Err(NotAMap(part))
    else
      assert parts[1..][..|parts| - 2] == parts[1..|parts| - 1];
      Walk(cur[part].m, parts[1..], path)
  }

  /** The map reached by following `prefix` from `cur`, if every step names a nested map. */
  function Descend(cur: map<string, Value>, prefix: seq<string>): Option<map<string, Value>>
    decreases |prefix|
  {
    if prefix == [] then Some(cur)
    else
      match Descend(cur, prefix[..|prefix| - 1])
      case None => None
      case Some(m) =>
        var k := prefix[|prefix| - 1];
        if k in m && m[k].Map? then Some(m[k].m) else None
  }

  /** Descending by a first key and then by the rest. */
  lemma {:induction false} DescendCons(cur: map<string, Value>, k: string, rest: seq<string>)
    ensures Descend(cur, [k] + rest) ==
      if k in cur && cur[k].Map? then Descend(cur[k].m, rest) else None
    decreases |rest|
  {
    if rest == [] {
      assert Descend(cur, [k][..0]) == Some(cur);
    } else {
      var init := rest[..|rest| - 1];
      assert ([k] + rest)[..|[k] + rest| - 1] == [k] + init;
      DescendCons(cur, k, init);
    }
  }

  /**
   * The walk succeeds exactly when every piece but the last leads through a
   * nested map and the last piece is a key of the map reached; nothing is
   * returned otherwise.
   */
  lemma {:induction false} WalkSucceedsIff(cur: map<string, Value>, parts: seq<string>, path: string)
    requires |parts| >= 1
    ensures var reached := Descend(cur, parts[..|parts| - 1]);
      Walk(cur, parts, path).Ok? <==> reached.Some? && parts[|parts| - 1] in reached.value
    ensures var reached := Descend(cur, parts[..|parts| - 1]);
      Walk(cur, parts, path).Ok? ==> Walk(cur, parts, path).value == Show(reached.value[parts[|parts| - 1]])
    decreases |parts|
  {
    if |parts| > 1 {
      var k := parts[0];
      var rest := parts[1..];
      assert parts[..|parts| - 1] == [k] + rest[..|rest| - 1];
      DescendCons(cur, k, rest[..|rest| - 1]);
      if k in cur && cur[k].Map? {
        WalkSucceedsIff(cur[k].m, rest, path);
      }
    } else {
      assert parts[..0] == [];
    }
  }

  /**
   * `getNestedField`: split the path at dots and walk down, replacing the
   * current map at each intermediate piece.
   */
  method GetNestedField(data: Payload, path: string) returns (r: Result<string, FieldError>)
    ensures r == Walk(data, Split(path, '.'), path)
  {
    var parts := Split(path, '.');
    var current := data;
    var i := 0;
    while i < |parts| - 1
      invariant 0 <= i <= |parts| - 1
      invariant Walk(data, parts, path) == Walk(current, parts[i..], path)
    {
      var part := parts[i];
      if part in current {
        var next := current[part];
        if next.Map? {
          current := next.m;
        } else {
          return Err(NotAMap(part));
        }
      } else {
        return Err(FieldNotFound(part));
      }
      assert parts[i..][1..] == parts[i + 1..];
      i := i + 1;
    }
    var last := parts[i];
    if last in current {
      var value := current[last];
      if value.Str? {
        return Ok(value.s);
      }
      return Ok(Show(value));
    }
    return Err(FieldNotFound(path));
  }

  /**
   * `getAlertFieldValue`: "" and "." give the whole data as JSON (`marshal`
   * stands for the JSON encoder); an exact key wins over the nested walk.
   */
  function GetAlertFieldValue(data: Payload, path: string, marshal: Payload -> string): (r: Result<string, FieldError>)
    ensures (path == "" || path == ".") ==> r == Ok(marshal(data))
    ensures path != "" && path != "." && path in data ==> r == Ok(Show(data[path]))
  {
    if path == "" || path == "." then Ok(marshal(data))
    else if path in data then Ok(Show(data[path]))
    else Walk(data, Split(path, '.'), path)
  }

  /**
   * A field path resolves exactly when it is "" or ".", is a key itself, or
   * its pieces lead through nested maps to an existing key.
   */
  lemma FieldValueResolvesIff(data: Payload, path: string, marshal: Payload -> string)
    ensures var parts := Split(path, '.');
      var reached := Descend(data, parts[..|parts| - 1]);
      GetAlertFieldValue(data, path, marshal).Ok? <==>
        path == "" || path == "." || path in data || (reached.Some? && parts[|parts| - 1] in reached.value)
  {
    WalkSucceedsIff(data, Split(path, '.'), path);
  }

  /** A dotted `section.key` path with no such flat key finds `key` in the nested `section` map. */
  lemma NestedSectionLookup(data: Payload, section: string, key: string, marshal: Payload -> string)
    requires '.' !in section && '.' !in key && section != ""
    requires section + "." + key !in data
    requires SubMap(data, section).Some? && key in SubMap(data, section).value
    ensures GetAlertFieldValue(data, section + "." + key, marshal) == Ok(Show(SubMap(data, section).value[key]))
  {
    var path := section + "." + key;
    SplitJoin([section, key], '.');
    assert Join([section, key], '.') == path;
    assert |path| >= 2;
    var parts := [section, key];
    assert parts[1..] == [key];
    assert Walk(data, parts, path) == Walk(data[section].m, [key], path);
  }
}
