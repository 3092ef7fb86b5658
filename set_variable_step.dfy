/**
  The workflow `let` step itself (SetVariableWorkflowStep): the required inputs, the rules on
  combining its flags that the SetVariableEvaluation constructor enforces, and the assignment of
  the evaluated value to a plain or dotted variable name among the workflow's scratch variables.
*/
module SetVariableStep {
  import opened Wrappers
  import opened JavaLang
  import opened SetVariableEvaluation

  // ---------------------------------------------------------------- validateStep and the variable name

  /** validateStep: the step's input must hold a `variable` and a `value` key. */
  function ValidateStep(inputKeys: set<string>): (r: Result<()>)
    ensures r.Ok? <==> "variable" in inputKeys && "value" in inputKeys
    ensures "variable" !in inputKeys ==> r == Err(IllegalArgument("Variable name is required"))
    ensures "variable" in inputKeys && "value" !in inputKeys ==> r == Err(IllegalArgument("Value is required"))
  {
    if "variable" !in inputKeys then Err(IllegalArgument("Variable name is required"))
    else if "value" !in inputKeys then Err(IllegalArgument("Value is required"))
    else Ok(())
  }

  /** doTaskBody's checks on the resolved variable name: it must be present and not blank. */
  function RequireName(name: Option<string>): (r: Result<string>)
    ensures r.Ok? <==> name.Some? && !IsBlank(name.value)
    ensures r.Ok? ==> r.value == name.value
    ensures r.Err? ==> r == Err(IllegalArgument("Variable name is required"))
  {
    if name.None? || IsBlank(name.value) then Err(IllegalArgument("Variable name is required"))
    else Ok(name.value)
  }

  // ---------------------------------------------------------------- the SetVariableEvaluation constructor

  /** The boolean inputs of the step; an absent input counts as false (Boolean.TRUE.equals). */
  datatype Flags = Flags(
    merge: bool, mergeDeep: bool, trim: bool, wait: bool,
    yaml: bool, json: bool, bash: bool, encode: bool, parse: bool)

  datatype MergeMode = NoMerge | Shallow | Deep

  /** A declared type, reduced to what the constructor asks of it. */
  datatype TypeRef = TypeRef(name: string, assignableFromString: bool)

  const STRING_TYPE := TypeRef("java.lang.String", true)
  const OBJECT_TYPE := TypeRef("java.lang.Object", true)

  /** The fields a constructed SetVariableEvaluation holds. */
  datatype Evaluation = Evaluation(
    merge: MergeMode, trim: bool, wait: bool, specialCoercionMode: Option<Coercion>,
    encode: bool, parse: bool, valueType: TypeRef, typeSpecified: bool)

  /** The flag combinations refused while the coercion mode is chosen. */
  predicate ModeRefused(f: Flags) {
    || (f.yaml && f.json)
    || (f.encode && f.parse)
    || (f.bash && f.yaml)
    || (f.bash && f.parse)
  }

  /** No coercion mode, yet encode or parse asked for. */
  predicate CodingWithoutMode(f: Flags) {
    !f.yaml && !f.json && !f.bash && (f.encode || f.parse)
  }

  /** A coercion mode together with a merge. */
  predicate MergeWithMode(f: Flags) {
    (f.yaml || f.json || f.bash) && (f.merge || f.mergeDeep)
  }

  /** The flag combinations the constructor refuses. */
  predicate Refused(f: Flags, declared: Option<TypeRef>) {
    || ModeRefused(f)
    || CodingWithoutMode(f)
    || MergeWithMode(f)
    || ((f.encode || f.bash) && declared.Some? && !declared.value.assignableFromString)
  }

  /** The constructor's error messages. */
  const BOTH_JSON_AND_YAML := "Cannot specify both JSON and YAML"
  const BOTH_ENCODE_AND_PARSE := "Cannot specify both encode and parse"
  const YAML_FOR_BASH := "Cannot specify YAML for bash encoding"
  const BASH_PARSE := "Cannot specify `bash parse`"
  const ENCODE_OR_PARSE_WITHOUT_MODE := "Cannot specify encode or parse unless JSON, YAML, or bash is specified"
  const MERGE_WITH_MODE := "Cannot specify merge with JSON or YAML"
  const ENCODE_TO_NON_STRING := "Cannot encode to anything other than a string"

  /**
    The constructor's checks on the coercion mode: yaml or json, then bash, which overrides the
    mode and forces encode. The result is the mode and the encode flag.
  */
  method ChooseMode(f: Flags) returns (r: Result<(Option<Coercion>, bool)>)
    ensures r.Err? <==> ModeRefused(f)
    ensures f.yaml && f.json ==> r == Err(IllegalArgument(BOTH_JSON_AND_YAML))
    ensures !(f.yaml && f.json) && f.encode && f.parse ==>
              r == Err(IllegalArgument(BOTH_ENCODE_AND_PARSE))
    ensures !(f.yaml && f.json) && !(f.encode && f.parse) && f.bash && f.yaml ==>
              r == Err(IllegalArgument(YAML_FOR_BASH))
    ensures !(f.yaml && f.json) && !(f.encode && f.parse) && f.bash && !f.yaml && f.parse ==>
              r == Err(IllegalArgument(BASH_PARSE))
    ensures r.Ok? ==> r.value.0 == (if f.bash then Some(Bash) else if f.json then Some(Json) else if f.yaml then Some(Yaml) else None)
    ensures r.Ok? ==> r.value.1 == (f.encode || f.bash)
  {
    var mode: Option<Coercion> := None;
    if f.yaml {
      mode := Some(Yaml);
    }
    if f.json {
      if mode.Some? {
        return Err(IllegalArgument(BOTH_JSON_AND_YAML));
      }
      mode := Some(Json);
    }
    var encode := f.encode;
    if encode && f.parse {
      return Err(IllegalArgument(BOTH_ENCODE_AND_PARSE));
    }
    if f.bash {
      if mode == Some(Yaml) {
        return Err(IllegalArgument(YAML_FOR_BASH));
      }
      mode := Some(Bash);
      encode := true;
      if f.parse {
        return Err(IllegalArgument(BASH_PARSE));
      }
    }
    return Ok((mode, encode));
  }

  /**
    The SetVariableEvaluation constructor, assigning its fields in the source's order and throwing at
    the first rule broken. bash overrides the mode and forces encode; merge_deep wins over merge; an
    encoding evaluation always produces a String.
  */
  method NewEvaluation(f: Flags, declared: Option<TypeRef>) returns (r: Result<Evaluation>)
    ensures r.Err? <==> Refused(f, declared)
    ensures r.Err? ==> r.error.IllegalArgument?
    ensures f.yaml && f.json ==> r == Err(IllegalArgument(BOTH_JSON_AND_YAML))
    ensures !(f.yaml && f.json) && f.encode && f.parse ==>
              r == Err(IllegalArgument(BOTH_ENCODE_AND_PARSE))
    ensures !(f.yaml && f.json) && !(f.encode && f.parse) && f.bash && f.yaml ==>
              r == Err(IllegalArgument(YAML_FOR_BASH))
    ensures !(f.yaml && f.json) && !(f.encode && f.parse) && f.bash && !f.yaml && f.parse ==>
              r == Err(IllegalArgument(BASH_PARSE))
    ensures !ModeRefused(f) && CodingWithoutMode(f) ==> r == Err(IllegalArgument(ENCODE_OR_PARSE_WITHOUT_MODE))
    ensures !ModeRefused(f) && MergeWithMode(f) ==> r == Err(IllegalArgument(MERGE_WITH_MODE))
    ensures !ModeRefused(f) && !CodingWithoutMode(f) && !MergeWithMode(f) && (f.encode || f.bash)
              && declared.Some? && !declared.value.assignableFromString ==>
              r == Err(IllegalArgument(ENCODE_TO_NON_STRING))
    ensures r.Ok? ==> r.value.merge == (if f.mergeDeep then Deep else if f.merge then Shallow else NoMerge)
    ensures r.Ok? ==> (r.value.specialCoercionMode ==
              (if f.bash then Some(Bash) else if f.json then Some(Json) else if f.yaml then Some(Yaml) else None))
    ensures r.Ok? ==> r.value.encode == (f.encode || f.bash) && r.value.parse == f.parse
    ensures r.Ok? ==> r.value.trim == f.trim && r.value.wait == f.wait
    ensures r.Ok? && r.value.specialCoercionMode.Some? ==> r.value.merge == NoMerge
    ensures r.Ok? && r.value.specialCoercionMode.None? ==> !r.value.encode && !r.value.parse
    ensures r.Ok? && r.value.encode ==> r.value.valueType == STRING_TYPE
    ensures r.Ok? && !r.value.encode ==> r.value.valueType == declared.GetOr(OBJECT_TYPE)
    ensures r.Ok? ==> r.value.typeSpecified == declared.Some?
  {
    var merge := if f.mergeDeep then Deep else if f.merge then Shallow else NoMerge;
    var chosen := ChooseMode(f);
    if chosen.Err? {
      return Err(chosen.error);
    }
    var (mode, encode) := chosen.value;
    var parse := f.parse;
    if mode.None? {
      if encode || parse {
        return Err(IllegalArgument(ENCODE_OR_PARSE_WITHOUT_MODE));
      }
    }
    if mode.Some? {
      if merge != NoMerge {
        return Err(IllegalArgument(MERGE_WITH_MODE));
      }
    }
    var valueType: TypeRef;
    var typeSpecified: bool;
    if encode {
      typeSpecified := declared.Some?;
      if typeSpecified && !declared.value.assignableFromString {
        return Err(IllegalArgument(ENCODE_TO_NON_STRING));
      }
      valueType := STRING_TYPE;
    } else if declared.Some? {
      valueType := declared.value;
      typeSpecified := true;
    } else {
      valueType := OBJECT_TYPE;
      typeSpecified := false;
    }
    return Ok(Evaluation(merge, f.trim, f.wait, mode, encode, parse, valueType, typeSpecified));
  }

  // ---------------------------------------------------------------- scratch variables and dotted names

  /**
    The workflow's scratch variables and the mutable maps reachable from them. A map value is a
    reference (VMapRef) into `maps`, so two variables can share one map, as Java references do.
  */
  datatype Heap = Heap(top: map<string, Value>, maps: map<nat, map<string, Value>>, next: nat)

  /** Every allocated map lies below the next fresh reference. */
  ghost predicate HeapOk(heap: Heap) {
    forall r :: r in heap.maps ==> r < heap.next
  }

  /** `v instanceof Map`. */
  predicate IsMapIn(heap: Heap, v: Value) {
    v.VMapRef? && v.ref in heap.maps
  }

  /** Map.get: the value at `k`, null when there is none. */
  function Get(m: map<string, Value>, k: string): Value {
    if k in m then m[k] else VNull
  }

  /** Every entry that was not null keeps its value and so does every map that existed. */
  ghost predicate KeepsEntries(heap: Heap, heap': Heap) {
    && heap.maps.Keys <= heap'.maps.Keys
    && forall r, k :: r in heap.maps && k in heap.maps[r] && heap.maps[r][k] != VNull ==>
         k in heap'.maps[r] && heap'.maps[r][k] == heap.maps[r][k]
  }

  /** The map reached from map `h` by following the keys of `path` through map values. */
  function Reach(heap: Heap, h: nat, path: seq<string>): Option<nat>
    decreases |path|
  {
    if path == [] then Some(h)
    else if h in heap.maps && IsMapIn(heap, Get(heap.maps[h], path[0])) then
      Reach(heap, Get(heap.maps[h], path[0]).ref, path[1..])
    else None
  }

  /** The segments between the first and the last, which doTaskBody's loop walks. */
  function Middle(names: seq<string>): (r: seq<string>)
    ensures |names| >= 2 ==> r == names[1..|names| - 1]
    ensures |r| == if |names| >= 2 then |names| - 2 else 0
  {
    if |names| < 2 then [] else names[1..|names| - 1]
  }

  /**
    The loop over the middle segments from map `h`: a missing or null entry gets a new empty map,
    an entry that is a map is entered, and anything else stops the walk with an error. Maps made
    before an error stay in place, as in the source.
  */
  function Descend(heap: Heap, name: string, path: seq<string>, h: nat): (Heap, Result<nat>)
    requires HeapOk(heap) && h in heap.maps
    decreases |path|
  {
    if path == [] then (heap, Ok(h))
    else
      var m := heap.maps[h];
      var hi := Get(m, path[0]);
      if hi == VNull then
        Descend(Created(heap, h, path[0]), name, path[1..], heap.next)
      else if IsMapIn(heap, hi) then Descend(heap, name, path[1..], hi.ref)
      else (heap, Err(IllegalArgument(NotAMap(name, path[0]))))
  }

  /** The heap after MutableMap.of() is put at key `k` of map `h`. */
  function Created(heap: Heap, h: nat, k: string): (r: Heap)
    requires HeapOk(heap) && h in heap.maps
    ensures HeapOk(r) && r.top == heap.top && r.next == heap.next + 1
    ensures heap.next in r.maps && r.maps[heap.next] == map[]
    ensures h in r.maps && k in r.maps[h] && r.maps[h][k] == VMapRef(heap.next)
    ensures Get(heap.maps[h], k) == VNull ==> KeepsEntries(heap, r)
  {
    var maps1 := heap.maps[heap.next := map[]];
    Heap(heap.top, maps1[h := maps1[h][k := VMapRef(heap.next)]], heap.next + 1)
  }

  /**
    The new maps numbered from `n` for the segments `segs`: each holds only the link to the next one,
    under the next segment, and the last is empty.
  */
  function Links(n: nat, segs: seq<string>): map<nat, map<string, Value>>
    requires segs != []
    decreases |segs|
  {
    if |segs| == 1 then map[n := map[]]
    else Links(n + 1, segs[1..])[n := map[segs[1] := VMapRef(n + 1)]]
  }

  /** The maps Links makes: one per segment, numbered `n` on, each linked to the next, the last empty. */
  lemma {:induction false} LinksShape(n: nat, segs: seq<string>)
    requires segs != []
    ensures forall q :: q in Links(n, segs) <==> n <= q < n + |segs|
    ensures forall q :: q in Links(n, segs) && q + 1 < n + |segs| ==>
              Links(n, segs)[q] == map[segs[q - n + 1] := VMapRef(q + 1)]
    ensures n + |segs| - 1 in Links(n, segs) && Links(n, segs)[n + |segs| - 1] == map[]
    decreases |segs|
  {
    if |segs| > 1 {
      LinksShape(n + 1, segs[1..]);
    }
  }

  /**
    The heap after the walk made new maps for the segments `segs` from map `r` on: `r` gets the
    first segment linked to the first new map, which Links chains on. Nothing else changes.
  */
  function Chained(heap: Heap, r: nat, segs: seq<string>): Heap
    requires r in heap.maps && segs != []
  {
    Heap(heap.top, (heap.maps + Links(heap.next, segs))[r := heap.maps[r][segs[0] := VMapRef(heap.next)]],
         heap.next + |segs|)
  }

  /** The frame of a chain: the new maps lie above the old ones, and only `r` of those changes, at one key. */
  lemma ChainedShape(heap: Heap, r: nat, segs: seq<string>)
    requires HeapOk(heap) && r in heap.maps && segs != []
    ensures var c := Chained(heap, r, segs);
            && HeapOk(c) && c.top == heap.top && c.next == heap.next + |segs|
            && (forall q :: q in heap.maps && q != r ==> q in c.maps && c.maps[q] == heap.maps[q])
            && r in c.maps && c.maps[r] == heap.maps[r][segs[0] := VMapRef(heap.next)]
            && (forall q :: heap.next <= q < c.next ==> q in c.maps && q !in heap.maps)
            && (forall q :: heap.next <= q < c.next - 1 ==> c.maps[q] == map[segs[q - heap.next + 1] := VMapRef(q + 1)])
            && c.maps[c.next - 1] == map[]
            && (forall q :: q in c.maps ==> q in heap.maps || heap.next <= q < c.next)
  {
    LinksShape(heap.next, segs);
  }

  /**
    How far the path can be followed through maps that already exist: the first `f.0` segments lead
    from `h` to map `f.1`, and the next segment, if any, holds no map there.
  */
  function Follow(heap: Heap, h: nat, path: seq<string>): (f: (nat, nat))
    requires h in heap.maps
    ensures f.0 <= |path| && f.1 in heap.maps
    ensures Reach(heap, h, path[..f.0]) == Some(f.1)
    ensures f.0 < |path| ==> !IsMapIn(heap, Get(heap.maps[f.1], path[f.0]))
    decreases |path|
  {
    if path == [] || !IsMapIn(heap, Get(heap.maps[h], path[0])) then (0, h)
    else
      var f := Follow(heap, Get(heap.maps[h], path[0]).ref, path[1..]);
      assert path[..f.0 + 1][0] == path[0] && path[..f.0 + 1][1..] == path[1..][..f.0];
      (f.0 + 1, f.1)
  }

  /**
    The walk stated without recursion: follow the existing maps; at the end of the path, the map
    reached; at a null entry, a chain of new maps for the rest of the path, ending at the last one;
    at any other value, the heap unchanged and no map.
  */
  function Walked(heap: Heap, h: nat, path: seq<string>): (w: (Heap, Option<nat>))
    requires HeapOk(heap) && h in heap.maps
    ensures HeapOk(w.0) && w.0.top == heap.top
    ensures w.1.Some? ==> w.1.value in w.0.maps
    ensures w.1.None? ==> w.0 == heap && Follow(heap, h, path).0 < |path|
  {
    var (p, r) := Follow(heap, h, path);
    if p == |path| then (heap, Some(r))
    else if Get(heap.maps[r], path[p]) == VNull then
      ChainedShape(heap, r, path[p..]);
      (Chained(heap, r, path[p..]), Some(heap.next + |path| - p - 1))
    else (heap, None)
  }

  /** Creating the map for `segs[0]` at `r` and walking on through fresh, empty maps builds the chain. */
  lemma {:induction false} CreatedChain(heap: Heap, name: string, r: nat, segs: seq<string>)
    requires HeapOk(heap) && r in heap.maps && segs != []
    ensures Descend(Created(heap, r, segs[0]), name, segs[1..], heap.next).0 == Chained(heap, r, segs)
    ensures Descend(Created(heap, r, segs[0]), name, segs[1..], heap.next).1.Ok?
    ensures Descend(Created(heap, r, segs[0]), name, segs[1..], heap.next).1.value == heap.next + |segs| - 1
    decreases |segs|
  {
    var heap1 := Created(heap, r, segs[0]);
    var rest := segs[1..];
    if |segs| == 1 {
      ChainedOne(heap, r, segs);
      assert Descend(heap1, name, rest, heap.next) == (heap1, Ok(heap.next));
    } else {
      assert Get(heap1.maps[heap.next], rest[0]) == VNull;
      var d := Descend(heap1, name, rest, heap.next);
      assert d == Descend(Created(heap1, heap.next, rest[0]), name, rest[1..], heap1.next);
      CreatedChain(heap1, name, heap.next, rest);
      ChainedStep(heap, r, segs);
      assert heap1.next + |rest| - 1 == heap.next + |segs| - 1;
    }
  }

  lemma ChainedOne(heap: Heap, r: nat, segs: seq<string>)
    requires HeapOk(heap) && r in heap.maps && |segs| == 1
    ensures Created(heap, r, segs[0]) == Chained(heap, r, segs)
  {
    assert Links(heap.next, segs) == map[heap.next := map[]];
    UpdateIsUnion(heap.maps, heap.next, map[]);
  }

  /** A chain begun by one Created step is the chain for the whole list of segments. */
  lemma ChainedStep(heap: Heap, r: nat, segs: seq<string>)
    requires HeapOk(heap) && r in heap.maps && |segs| >= 2
    ensures Chained(Created(heap, r, segs[0]), heap.next, segs[1..]) == Chained(heap, r, segs)
  {
    var n := heap.next;
    var rv := heap.maps[r][segs[0] := VMapRef(n)];
    var l := Links(n + 1, segs[1..]);
    assert segs[1..][0] == segs[1];
    assert Links(n, segs) == l[n := map[segs[1] := VMapRef(n + 1)]];
    LinksShape(n + 1, segs[1..]);
    assert r !in l;
    var f := map[segs[1] := VMapRef(n + 1)];
    UpdatesCommute(heap.maps, l, r, n, map[], rv, f);
    var heap1 := Created(heap, r, segs[0]);
    assert heap1.maps == heap.maps[n := map[]][r := rv];
    assert heap1.maps[n][segs[1..][0] := VMapRef(heap1.next)] == f;
    var c1, c2 := Chained(heap1, n, segs[1..]), Chained(heap, r, segs);
    assert c1.maps == (heap.maps[n := map[]][r := rv] + l)[n := f];
    assert c2.maps == (heap.maps + l[n := f])[r := rv];
    assert c1.maps == c2.maps && c1.top == c2.top && c1.next == c2.next;
  }

  lemma UpdateIsUnion<K, V>(a: map<K, V>, k: K, v: V)
    ensures a[k := v] == a + map[k := v]
  {
  }

  lemma UpdatesCommute<K, V>(a: map<K, V>, l: map<K, V>, r: K, n: K, e: V, rv: V, f: V)
    requires r != n && r !in l
    ensures (a[n := e][r := rv] + l)[n := f] == (a + l[n := f])[r := rv]
  {
  }

  /** At a null entry the closed-form walk builds the chain for the whole rest of the path. */
  lemma WalkedAtNull(heap: Heap, h: nat, path: seq<string>)
    requires HeapOk(heap) && h in heap.maps && path != [] && Get(heap.maps[h], path[0]) == VNull
    ensures Follow(heap, h, path) == (0, h)
    ensures Walked(heap, h, path) == (Chained(heap, h, path), Some(heap.next + |path| - 1))
  {
    assert path[0..] == path;
  }

  /** At an entry that is neither null nor a map the closed-form walk stops there. */
  lemma WalkedAtValue(heap: Heap, h: nat, path: seq<string>)
    requires HeapOk(heap) && h in heap.maps && path != []
    requires Get(heap.maps[h], path[0]) != VNull && !IsMapIn(heap, Get(heap.maps[h], path[0]))
    ensures Follow(heap, h, path) == (0, h)
    ensures Walked(heap, h, path) == (heap, None)
  {
  }

  /** Through an entry that is a map the closed-form walk goes on from that map, one segment later. */
  lemma WalkedThrough(heap: Heap, h: nat, path: seq<string>)
    requires HeapOk(heap) && h in heap.maps && path != [] && IsMapIn(heap, Get(heap.maps[h], path[0]))
    ensures var h' := Get(heap.maps[h], path[0]).ref;
            && Follow(heap, h, path).0 == Follow(heap, h', path[1..]).0 + 1
            && Walked(heap, h, path).0 == Walked(heap, h', path[1..]).0
            && Walked(heap, h, path).1.Some? == Walked(heap, h', path[1..]).1.Some?
            && (Walked(heap, h, path).1.Some? ==> Walked(heap, h, path).1.value == Walked(heap, h', path[1..]).1.value)
  {
    var h' := Get(heap.maps[h], path[0]).ref;
    var (p, t) := Follow(heap, h', path[1..]);
    assert Follow(heap, h, path) == (p + 1, t);
    if p < |path[1..]| {
      assert path[p + 1] == path[1..][p] && path[p + 1..] == path[1..][p..];
      assert heap.next + |path| - (p + 1) - 1 == heap.next + |path[1..]| - p - 1;
    }
  }

  /** The recursive walk and its statement without recursion agree, heap, result and message. */
  lemma {:induction false} DescendIsWalked(heap: Heap, name: string, path: seq<string>, h: nat)
    requires HeapOk(heap) && h in heap.maps
    ensures Descend(heap, name, path, h).0 == Walked(heap, h, path).0
    ensures Walked(heap, h, path).1.Some? ==>
              Descend(heap, name, path, h).1.Ok? && Descend(heap, name, path, h).1.value == Walked(heap, h, path).1.value
    ensures Walked(heap, h, path).1.None? ==>
              Descend(heap, name, path, h).1 == Err(IllegalArgument(NotAMap(name, path[Follow(heap, h, path).0])))
    decreases |path|
  {
    if path != [] {
      var hi := Get(heap.maps[h], path[0]);
      if hi == VNull {
        WalkedAtNull(heap, h, path);
        CreatedChain(heap, name, h, path);
      } else if IsMapIn(heap, hi) {
        WalkedThrough(heap, h, path);
        DescendIsWalked(heap, name, path[1..], hi.ref);
        var p := Follow(heap, hi.ref, path[1..]).0;
        if p < |path[1..]| {
          assert path[p + 1] == path[1..][p];
        }
      } else {
        WalkedAtValue(heap, h, path);
      }
    }
  }

  /**
    The walk only fills null entries, and when it ends normally the path leads from `h` to the map
    it returns; when it stops, it names the segment that is no map.
  */
  lemma {:induction false} DescendKeepsAndReaches(heap: Heap, name: string, path: seq<string>, h: nat)
    requires HeapOk(heap) && h in heap.maps
    ensures var r := Descend(heap, name, path, h);
            HeapOk(r.0) && r.0.top == heap.top && KeepsEntries(heap, r.0)
    ensures var r := Descend(heap, name, path, h);
            r.1.Ok? ==> r.1.value in r.0.maps && Reach(r.0, h, path) == Some(r.1.value)
    ensures var r := Descend(heap, name, path, h);
            r.1.Err? ==> exists j :: 0 <= j < |path| && r.1.error == IllegalArgument(NotAMap(name, path[j]))
    decreases |path|, 1
  {
    if path != [] {
      var hi := Get(heap.maps[h], path[0]);
      if hi == VNull {
        DescendThrough(heap, Created(heap, h, path[0]), name, path, h, heap.next);
      } else if IsMapIn(heap, hi) {
        DescendThrough(heap, heap, name, path, h, hi.ref);
      }
    }
  }

  /**
    The inductive step of DescendKeepsAndReaches: the walk went on from the map `next` that
    `path[0]` refers to in `heap1`, which is `heap` itself or `heap` with a new map made there.
  */
  lemma {:induction false} DescendThrough(heap: Heap, heap1: Heap, name: string, path: seq<string>, h: nat, next: nat)
    requires HeapOk(heap) && HeapOk(heap1) && path != []
    requires h in heap1.maps && path[0] in heap1.maps[h] && heap1.maps[h][path[0]] == VMapRef(next) && next in heap1.maps
    requires heap1.top == heap.top && KeepsEntries(heap, heap1)
    requires h in heap.maps && Descend(heap, name, path, h) == Descend(heap1, name, path[1..], next)
    ensures var r := Descend(heap, name, path, h);
            HeapOk(r.0) && r.0.top == heap.top && KeepsEntries(heap, r.0)
    ensures var r := Descend(heap, name, path, h);
            r.1.Ok? ==> r.1.value in r.0.maps && Reach(r.0, h, path) == Some(r.1.value)
    ensures var r := Descend(heap, name, path, h);
            r.1.Err? ==> exists j :: 0 <= j < |path| && r.1.error == IllegalArgument(NotAMap(name, path[j]))
    decreases |path|, 0
  {
    DescendKeepsAndReaches(heap1, name, path[1..], next);
    var r := Descend(heap1, name, path[1..], next);
    DescendStep(heap, heap1, r.0, h, path, next);
    if r.1.Err? {
      var j :| 0 <= j < |path[1..]| && r.1.error == IllegalArgument(NotAMap(name, path[1..][j]));
      assert path[1..][j] == path[j + 1];
    }
  }

  /** One step of Descend keeps the link it followed or made, so the path still reaches the same map. */
  lemma DescendStep(heap: Heap, heap1: Heap, heap2: Heap, h: nat, path: seq<string>, next: nat)
    requires path != [] && h in heap1.maps && path[0] in heap1.maps[h]
    requires heap1.maps[h][path[0]] == VMapRef(next) && next in heap1.maps
    requires KeepsEntries(heap, heap1) && KeepsEntries(heap1, heap2)
    ensures KeepsEntries(heap, heap2)
    ensures Reach(heap2, next, path[1..]) == Reach(heap2, h, path)
  {
    assert heap2.maps[h][path[0]] == VMapRef(next);
  }

  function NotAMap(name: string, segment: string): string {
    "Cannot set " + name + " because " + segment + " is not a map"
  }

  function NotSetOrNotAMap(name: string, h: Value): string {
    "Cannot set " + name + " because " + name + " is " + (if h == VNull then "not set" else "not a map")
  }

  /**
    The assignment in doTaskBody: a name without a dot is put at the top level; a dotted name is
    split like String.split("\\."), its first segment must name a map, the segments between first
    and last are walked (creating maps), and the last one is put in the map reached. The result holds
    the previous value, null when there was none.
  */
  function Assign(heap: Heap, name: string, value: Value): (r: (Heap, Result<Value>))
    requires HeapOk(heap)
    ensures HeapOk(r.0)
    ensures '.' !in name ==> r.0 == heap.(top := heap.top[name := value]) && r.1 == Ok(Get(heap.top, name))
    ensures '.' in name ==> r.0.top == heap.top
    ensures '.' in name && Split(name, '.') == [] ==> r == (heap, Err(ArrayIndexOutOfBounds(0)))
    ensures '.' in name && Split(name, '.') != [] && !IsMapIn(heap, Get(heap.top, Split(name, '.')[0])) ==>
              r == (heap, Err(IllegalArgument(NotSetOrNotAMap(name, Get(heap.top, Split(name, '.')[0])))))
    ensures r.1.Err? ==> KeepsEntries(heap, r.0)
    ensures '.' in name && r.1.Ok? ==> Assigned(heap, r.0, Split(name, '.'), value, r.1.value)
    ensures '.' in name && Split(name, '.') != [] && IsMapIn(heap, Get(heap.top, Split(name, '.')[0])) ==>
              var names := Split(name, '.');
              var h := Get(heap.top, names[0]).ref;
              var w := Walked(heap, h, Middle(names));
              && (w.1.None? ==> r == (heap, Err(IllegalArgument(NotAMap(name, Middle(names)[Follow(heap, h, Middle(names)).0])))))
              && (w.1.Some? ==>
                    && r.0 == w.0.(maps := w.0.maps[w.1.value := w.0.maps[w.1.value][names[|names| - 1] := value]])
                    && r.1.Ok? && r.1.value == Get(w.0.maps[w.1.value], names[|names| - 1]))
  {
    if '.' !in name then (heap.(top := heap.top[name := value]), Ok(Get(heap.top, name)))
    else
      var names := Split(name, '.');
      if names == [] then (heap, Err(ArrayIndexOutOfBounds(0)))
      else
        var h := Get(heap.top, names[0]);
        if !IsMapIn(heap, h) then (heap, Err(IllegalArgument(NotSetOrNotAMap(name, h))))
        else
          DescendKeepsAndReaches(heap, name, Middle(names), h.ref);
          DescendIsWalked(heap, name, Middle(names), h.ref);
          var (heap1, res) := Descend(heap, name, Middle(names), h.ref);
          match res
          case Err(e) => (heap1, Err(e))
          case Ok(t) =>
            var last := names[|names| - 1];
            var m := heap1.maps[t];
            var heap2 := heap1.(maps := heap1.maps[t := m[last := value]]);
            assert Assigned(heap, heap2, names, value, Get(m, last)) by {
              assert Assigned'(heap, heap1, heap2, names, value, Get(m, last), h.ref, t);
            }
            (heap2, Ok(Get(m, last)))
  }

  /**
    After a dotted assignment: the first segment names map `h`; in an intermediate heap that only
    filled null entries, the middle segments lead from `h` to map `t`; and the final heap is that one
    with the last segment of `t` set to the value, the previous value being returned.
  */
  ghost predicate Assigned(heap: Heap, heap2: Heap, names: seq<string>, value: Value, previous: Value) {
    exists heap1: Heap, h: nat, t: nat :: Assigned'(heap, heap1, heap2, names, value, previous, h, t)
  }

  ghost predicate Assigned'(heap: Heap, heap1: Heap, heap2: Heap, names: seq<string>, value: Value, previous: Value,
                            h: nat, t: nat) {
    && names != []
    && Get(heap.top, names[0]) == VMapRef(h) && h in heap.maps
    && KeepsEntries(heap, heap1) && heap1.top == heap.top
    && Reach(heap1, h, Middle(names)) == Some(t) && t in heap1.maps
    && previous == Get(heap1.maps[t], names[|names| - 1])
    && heap2 == heap1.(maps := heap1.maps[t := heap1.maps[t][names[|names| - 1] := value]])
  }

  /** The workflow's scratch variables as a mutable store. */
  class ScratchVariables {
    var top: map<string, Value>
    var maps: map<nat, map<string, Value>>
    var next: nat

    function State(): Heap
      reads this
    {
      Heap(top, maps, next)
    }

    ghost predicate Valid()
      reads this
    {
      HeapOk(State())
    }

    constructor ()
      ensures Valid() && top == map[] && maps == map[]
    {
      top := map[];
      maps := map[];
      next := 0;
    }

    /** A new empty map (MutableMap.of()), returned as a value that refers to it. */
    method NewMap() returns (v: Value)
      requires Valid()
      modifies this
      ensures Valid() && v == VMapRef(old(next)) && v.ref !in old(maps)
      ensures top == old(top) && maps == old(maps)[v.ref := map[]] && next == old(next) + 1
    {
      v := VMapRef(next);
      maps := maps[next := map[]];
      next := next + 1;
    }

    /** Map.put on the map `h` refers to. */
    method Put(h: nat, k: string, v: Value) returns (previous: Value)
      requires h in maps
      modifies this
      ensures previous == Get(old(maps)[h], k)
      ensures top == old(top) && next == old(next) && maps == old(maps)[h := old(maps)[h][k := v]]
    {
      previous := Get(maps[h], k);
      maps := maps[h := maps[h][k := v]];
    }

    /** doTaskBody's loop over the middle segments of a dotted name, creating missing maps. */
    method Walk(name: string, path: seq<string>, h0: nat) returns (res: Result<nat>)
      requires Valid() && h0 in maps
      modifies this
      ensures Valid() && (res.Ok? ==> res.value in maps)
      ensures (State(), res) == Descend(old(State()), name, path, h0)
    {
      ghost var start := State();
      var h := h0;
      var i := 0;
      while i < |path|
        invariant 0 <= i <= |path| && Valid() && h in maps
        invariant Descend(start, name, path, h0) == Descend(State(), name, path[i..], h)
        decreases |path| - i
      {
        var next := WalkSegment(name, path, i, h);
        if next.Err? {
          return next;
        }
        h := next.value;
        i := i + 1;
      }
      return Ok(h);
    }

    /** One turn of the walk: look up segment `i` in map `h`, creating a map when it is null. */
    method WalkSegment(name: string, path: seq<string>, i: nat, h: nat) returns (res: Result<nat>)
      requires Valid() && h in maps && i < |path|
      modifies this
      ensures Valid() && (res.Ok? ==> res.value in maps)
      ensures res.Ok? ==> Descend(old(State()), name, path[i..], h) == Descend(State(), name, path[i + 1..], res.value)
      ensures res.Err? ==> (State(), res) == Descend(old(State()), name, path[i..], h)
    {
      ghost var before := State();
      assert path[i..][0] == path[i] && path[i..][1..] == path[i + 1..];
      var hi := Get(maps[h], path[i]);
      if hi == VNull {
        hi := NewMap();
        var _ := Put(h, path[i], hi);
        assert State() == Created(before, h, path[i]);
      } else if !(hi.VMapRef? && hi.ref in maps) {
        return Err(IllegalArgument(NotAMap(name, path[i])));
      }
      return Ok(hi.ref);
    }

    /** The assignment of doTaskBody: a plain name is put at the top level, a dotted one walked first. */
    method Set(name: string, value: Value) returns (r: Result<Value>)
      requires Valid()
      modifies this
      ensures Valid()
      ensures (State(), r) == Assign(old(State()), name, value)
    {
      if '.' !in name {
        r := Ok(Get(top, name));
        top := top[name := value];
        return;
      }
      var names := Split(name, '.');
      if |names| == 0 {
        return Err(ArrayIndexOutOfBounds(0));
      }
      var hv := Get(top, names[0]);
      if !(hv.VMapRef? && hv.ref in maps) {
        return Err(IllegalArgument(NotSetOrNotAMap(name, hv)));
      }
      var walked := Walk(name, Middle(names), hv.ref);
      if walked.Err? {
        return Err(walked.error);
      }
      var h := walked.value;
      var previous := Put(h, names[|names| - 1], value);
      r := Ok(previous);
    }
  }
}
