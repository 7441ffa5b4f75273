/** JSON documents whose objects keep their keys in order, as the installer reads and writes them. */
module Json {
  import opened Prelude

  /** Numbers, strings and booleans are opaque atoms. */
  datatype Value = Null | Atom(text: string) | List(items: seq<Value>) | Object(fields: Fields)

  datatype Field = Field(key: string, value: Value)

  type Fields = seq<Field>

  const EMPTY: Value := Object([])

  function Get(fs: Fields, key: string): Option<Value> {
    if fs == [] then None else if fs[0].key == key then Some(fs[0].value) else Get(fs[1..], key)
  }

  /** A key that is present keeps its place; a new one goes to the end. */
  function Put(fs: Fields, key: string, value: Value): Fields {
    if fs == [] then [Field(key, value)]
    else if fs[0].key == key then [Field(key, value)] + fs[1..]
    else [fs[0]] + Put(fs[1..], key, value)
  }

  function Del(fs: Fields, key: string): Fields {
    if fs == [] then [] else if fs[0].key == key then Del(fs[1..], key) else [fs[0]] + Del(fs[1..], key)
  }

  ghost predicate KeysDistinct(fs: Fields) {
    forall i, j :: 0 <= i < j < |fs| ==> fs[i].key != fs[j].key
  }

  ghost predicate WellFormed(v: Value) {
    match v
    case Null => true
    case Atom(_) => true
    case List(items) => forall i :: 0 <= i < |items| ==> WellFormed(items[i])
    case Object(fields) => KeysDistinct(fields) && forall i :: 0 <= i < |fields| ==> WellFormed(fields[i].value)
  }

  /** Equality of values, which ignores the order of keys. */
  predicate Same(a: Value, b: Value) {
    match a
    case Null => b == Null
    case Atom(_) => b == a
    case List(items) => b.List? && |b.items| == |items| && forall i :: 0 <= i < |items| ==> Same(items[i], b.items[i])
    case Object(fields) =>
      && b.Object? && |b.fields| == |fields|
      && forall i :: 0 <= i < |fields| ==>
           && Get(b.fields, fields[i].key).Some?
           && Same(fields[i].value, Get(b.fields, fields[i].key).value)
  }

  lemma {:induction false} GetOfPut(fs: Fields, key: string, value: Value, k: string)
    ensures Get(Put(fs, key, value), k) == if k == key then Some(value) else Get(fs, k)
    ensures Put(fs, key, value) != []
  {
    if fs != [] && fs[0].key != key {
      GetOfPut(fs[1..], key, value, k);
    }
  }

  lemma {:induction false} GetOfDel(fs: Fields, key: string, k: string)
    ensures Get(Del(fs, key), k) == if k == key then None else Get(fs, k)
  {
    if fs == [] {
    } else {
      GetOfDel(fs[1..], key, k);
    }
  }

  lemma {:induction false} PutTwice(fs: Fields, key: string, v: Value, w: Value)
    ensures Put(Put(fs, key, v), key, w) == Put(fs, key, w)
  {
    if fs != [] && fs[0].key != key {
      PutTwice(fs[1..], key, v, w);
    }
  }

  lemma {:induction false} PutPresent(fs: Fields, key: string)
    requires Get(fs, key).Some?
    ensures Put(fs, key, Get(fs, key).value) == fs
  {
    if fs[0].key != key {
      PutPresent(fs[1..], key);
    }
  }

  lemma {:induction false} DelAbsent(fs: Fields, key: string)
    requires Get(fs, key) == None
    ensures Del(fs, key) == fs
  {
    if fs == [] {
    } else {
      DelAbsent(fs[1..], key);
    }
  }

  lemma {:induction false} GetOwnField(fs: Fields, i: nat)
    requires KeysDistinct(fs) && i < |fs|
    ensures Get(fs, fs[i].key) == Some(fs[i].value)
  {
    if i == 0 {
    } else {
      assert fs[0].key != fs[i].key;
      GetOwnField(fs[1..], i - 1);
    }
  }

  lemma {:induction false} SameItself(v: Value)
    requires WellFormed(v)
    ensures Same(v, v)
  {
    match v {
      case Null =>
      case Atom(_) =>
      case List(items) =>
        forall i | 0 <= i < |items| ensures Same(items[i], items[i]) {
          SameItself(items[i]);
        }
      case Object(fields) =>
        forall i | 0 <= i < |fields|
          ensures Get(fields, fields[i].key) == Some(fields[i].value) && Same(fields[i].value, fields[i].value)
        {
          GetOwnField(fields, i);
          SameItself(fields[i].value);
        }
    }
  }

  // ---- What equality means: both values read the same at every path ----

  datatype Step = Key(key: string) | Index(i: nat)

  /** What a value is, apart from what is inside it. */
  datatype Shape = NullShape | AtomShape(text: string) | ListShape(length: nat) | ObjectShape(keys: set<string>)

  function Keys(fs: Fields): set<string> {
    set f | f in fs :: f.key
  }

  function ShapeOf(v: Value): Shape {
    match v
    case Null => NullShape
    case Atom(text) => AtomShape(text)
    case List(items) => ListShape(|items|)
    case Object(fields) => ObjectShape(Keys(fields))
  }

  function Inside(v: Value, step: Step): Option<Value> {
    match step
    case Key(key) => if v.Object? then Get(v.fields, key) else None
    case Index(i) => if v.List? && i < |v.items| then Some(v.items[i]) else None
  }

  /** What is found by following `path`, if it leads anywhere. */
  function ShapeAt(v: Value, path: seq<Step>): Option<Shape>
    decreases |path|
  {
    if path == [] then Some(ShapeOf(v))
    else
      match Inside(v, path[0])
      case None => None
      case Some(w) => ShapeAt(w, path[1..])
  }

  ghost predicate ReadsAlike(a: Value, b: Value) {
    forall path :: ShapeAt(a, path) == ShapeAt(b, path)
  }

  lemma {:induction false} GetOfKey(fs: Fields, key: string)
    ensures Get(fs, key).Some? <==> key in Keys(fs)
    ensures Get(fs, key).Some? ==> exists i :: 0 <= i < |fs| && fs[i].key == key && Get(fs, key).value == fs[i].value
  {
    if fs == [] {
    } else if fs[0].key == key {
      assert fs[0] in fs;
    } else {
      GetOfKey(fs[1..], key);
      assert fs == [fs[0]] + fs[1..];
      if Get(fs, key).Some? {
        var i :| 0 <= i < |fs| - 1 && fs[1..][i].key == key && Get(fs, key).value == fs[1..][i].value;
        assert fs[i + 1] == fs[1..][i];
      }
    }
  }

  lemma {:induction false} KeysCount(fs: Fields)
    requires KeysDistinct(fs)
    ensures |Keys(fs)| == |fs|
  {
    if fs == [] {
      assert Keys(fs) == {};
    } else {
      var init, last := fs[..|fs| - 1], fs[|fs| - 1];
      assert fs == init + [last];
      KeysCount(init);
      assert Keys(fs) == Keys(init) + {last.key};
    }
  }

  lemma SubsetOfSameSize(a: set<string>, b: set<string>)
    requires a <= b && |a| == |b|
    ensures a == b
  {
    assert |b| == |a| + |b - a| by {
      assert b == a + (b - a);
    }
  }

  lemma SameShape(a: Value, b: Value)
    requires WellFormed(a) && WellFormed(b) && Same(a, b)
    ensures ShapeOf(a) == ShapeOf(b)
  {
    if a.Object? {
      forall key | key in Keys(a.fields) ensures key in Keys(b.fields) {
        GetOfKey(a.fields, key);
        GetOfKey(b.fields, key);
      }
      KeysCount(a.fields);
      KeysCount(b.fields);
      SubsetOfSameSize(Keys(a.fields), Keys(b.fields));
    }
  }

  /** Same values have the same insides, and nothing inside one that is not inside the other. */
  lemma SameInside(a: Value, b: Value, step: Step)
    requires WellFormed(a) && WellFormed(b) && Same(a, b)
    ensures Inside(a, step).Some? <==> Inside(b, step).Some?
    ensures Inside(a, step).Some? ==>
      && WellFormed(Inside(a, step).value) && WellFormed(Inside(b, step).value)
      && Same(Inside(a, step).value, Inside(b, step).value)
  {
    if step.Key? && a.Object? {
      SameShape(a, b);
      GetOfKey(a.fields, step.key);
      GetOfKey(b.fields, step.key);
    }
  }

  lemma {:induction false} SameReads(a: Value, b: Value, path: seq<Step>)
    requires WellFormed(a) && WellFormed(b) && Same(a, b)
    ensures ShapeAt(a, path) == ShapeAt(b, path)
    decreases |path|
  {
    hide Same, WellFormed;
    if path == [] {
      SameShape(a, b);
    } else {
      SameInside(a, b, path[0]);
      if Inside(a, path[0]).Some? {
        SameReads(Inside(a, path[0]).value, Inside(b, path[0]).value, path[1..]);
      }
    }
  }

  lemma OneStep(v: Value, step: Step)
    ensures ShapeAt(v, [step]) == if Inside(v, step).Some? then Some(ShapeOf(Inside(v, step).value)) else None
  {
    assert [step][1..] == [];
  }

  lemma InsideAlike(a: Value, b: Value, step: Step)
    requires ReadsAlike(a, b)
    ensures Inside(a, step).Some? <==> Inside(b, step).Some?
    ensures Inside(a, step).Some? ==> ReadsAlike(Inside(a, step).value, Inside(b, step).value)
  {
    assert ShapeAt(a, [step]) == ShapeAt(b, [step]);
    OneStep(a, step);
    OneStep(b, step);
    if Inside(a, step).Some? {
      forall path ensures ShapeAt(Inside(a, step).value, path) == ShapeAt(Inside(b, step).value, path) {
        assert ([step] + path)[1..] == path;
        assert ShapeAt(a, [step] + path) == ShapeAt(b, [step] + path);
      }
    }
  }

  lemma {:induction false} AlikeIsSame(a: Value, b: Value)
    requires WellFormed(a) && WellFormed(b) && ReadsAlike(a, b)
    ensures Same(a, b)
  {
    assert ShapeAt(a, []) == ShapeAt(b, []);
    match a {
      case Null =>
      case Atom(_) =>
      case List(items) =>
        forall i | 0 <= i < |items| ensures Same(items[i], b.items[i]) {
          InsideAlike(a, b, Index(i));
          AlikeIsSame(items[i], b.items[i]);
        }
      case Object(fields) =>
        KeysCount(fields);
        KeysCount(b.fields);
        forall i | 0 <= i < |fields|
          ensures Get(b.fields, fields[i].key).Some?
          ensures Same(fields[i].value, Get(b.fields, fields[i].key).value)
        {
          GetOwnField(fields, i);
          InsideAlike(a, b, Key(fields[i].key));
          GetOfKey(b.fields, fields[i].key);
          AlikeIsSame(fields[i].value, Get(b.fields, fields[i].key).value);
        }
    }
  }

  /** Two values are the same exactly when they read the same at every path, whatever the order of their keys. */
  lemma SameExactly(a: Value, b: Value)
    requires WellFormed(a) && WellFormed(b)
    ensures Same(a, b) <==> ReadsAlike(a, b)
  {
    hide Same, WellFormed;
    if Same(a, b) {
      forall path ensures ShapeAt(a, path) == ShapeAt(b, path) {
        SameReads(a, b, path);
      }
    }
    if ReadsAlike(a, b) {
      AlikeIsSame(a, b);
    }
  }

  lemma SameIsEquivalence(a: Value, b: Value, c: Value)
    requires WellFormed(a) && WellFormed(b) && WellFormed(c) && Same(a, b)
    ensures Same(b, a) && (Same(b, c) ==> Same(a, c))
  {
    hide Same, WellFormed;
    SameExactly(a, b);
    SameExactly(b, a);
    SameExactly(b, c);
    SameExactly(a, c);
  }

  /** Nothing but itself is the same as an atom or as null. */
  lemma SameScalar(v: Value, w: Value)
    requires v.Null? || v.Atom?
    ensures (Same(v, w) <==> w == v) && (Same(w, v) <==> w == v)
  {
  }

  // ---- Merging the managed fields of an entry ----

  /** `get(key)`: a missing key reads as null. */
  function GetOrNull(fs: Fields, key: string): Value {
    match Get(fs, key)
    case None => Null
    case Some(v) => v
  }

  /** `fs` with `desired` merged in; a field that already has the desired value is not touched. */
  function Merge(fs: Fields, desired: Fields): Fields {
    if desired == [] then fs
    else
      var merged, f := Merge(fs, desired[..|desired| - 1]), desired[|desired| - 1];
      if Same(GetOrNull(merged, f.key), f.value) then merged else Put(merged, f.key, f.value)
  }

  predicate Matches(fs: Fields, desired: Fields) {
    forall i :: 0 <= i < |desired| ==> Same(GetOrNull(fs, desired[i].key), desired[i].value)
  }

  /** Every managed field that is to be an atom is that atom. */
  predicate HasAtoms(fs: Fields, desired: Fields) {
    forall i :: 0 <= i < |desired| && desired[i].value.Atom? ==> Get(fs, desired[i].key) == Some(desired[i].value)
  }

  lemma MatchesAtoms(fs: Fields, desired: Fields)
    ensures Matches(fs, desired) ==> HasAtoms(fs, desired)
  {
    hide Get;
    forall i | 0 <= i < |desired| && desired[i].value.Atom? && Matches(fs, desired)
      ensures Get(fs, desired[i].key) == Some(desired[i].value)
    {
      SameScalar(desired[i].value, GetOrNull(fs, desired[i].key));
    }
  }

  lemma {:induction false} MergeFrame(fs: Fields, desired: Fields, key: string)
    requires forall i :: 0 <= i < |desired| ==> desired[i].key != key
    ensures Get(Merge(fs, desired), key) == Get(fs, key)
  {
    if desired == [] {
    } else {
      var init, f := desired[..|desired| - 1], desired[|desired| - 1];
      MergeFrame(fs, init, key);
      GetOfPut(Merge(fs, init), f.key, f.value, key);
    }
  }

  /** After a merge every managed field has its desired value. */
  lemma {:induction false} MergeMatches(fs: Fields, desired: Fields)
    requires WellFormed(Object(desired))
    ensures Matches(Merge(fs, desired), desired) && HasAtoms(Merge(fs, desired), desired)
  {
    MatchesAtoms(Merge(fs, desired), desired);
    if desired == [] {
    } else {
      var init, f := desired[..|desired| - 1], desired[|desired| - 1];
      assert WellFormed(Object(init));
      MergeMatches(fs, init);
      var before, after := Merge(fs, init), Merge(fs, desired);
      assert WellFormed(f.value);
      SameItself(f.value);
      GetOfPut(before, f.key, f.value, f.key);
      forall i | 0 <= i < |desired| - 1 ensures Same(GetOrNull(after, desired[i].key), desired[i].value) {
        assert init[i] == desired[i];
        GetOfPut(before, f.key, f.value, desired[i].key);
      }
    }
  }

  /** A merge that meets a field without its desired value changes that field. */
  lemma MergeChanges(fs: Fields, desired: Fields)
    requires WellFormed(Object(desired)) && !Matches(fs, desired)
    ensures Merge(fs, desired) != fs
  {
    MergeMatches(fs, desired);
  }

  lemma MatchesItself(desired: Fields)
    requires WellFormed(Object(desired))
    ensures Matches(desired, desired)
  {
    forall i | 0 <= i < |desired| ensures Same(GetOrNull(desired, desired[i].key), desired[i].value) {
      GetOwnField(desired, i);
      SameItself(desired[i].value);
    }
  }

  method MergeFields(fs: Fields, desired: Fields) returns (merged: Fields, changed: bool)
    requires WellFormed(Object(desired))
    ensures merged == Merge(fs, desired) && (changed <==> !Matches(fs, desired))
    ensures HasAtoms(merged, desired) && (!changed ==> merged == fs)
  {
    hide Same, Get, Put, WellFormed, Matches, HasAtoms;
    MergeMatches(fs, desired);
    merged, changed := fs, false;
    MatchesNothing(fs, desired);
    for i := 0 to |desired|
      invariant merged == Merge(fs, desired[..i])
      invariant changed <==> !Matches(fs, desired[..i])
      invariant !changed ==> merged == fs
    {
      assert desired[..i + 1][..i] == desired[..i];
      var f := desired[i];
      UntouchedSoFar(fs, desired, i);
      MatchesOneMore(fs, desired, i);
      if !Same(GetOrNull(merged, f.key), f.value) {
        merged := Put(merged, f.key, f.value);
        changed := true;
      }
    }
    assert desired[..|desired|] == desired;
  }

  lemma MatchesNothing(fs: Fields, desired: Fields)
    ensures Matches(fs, desired[..0])
  {
  }

  lemma MatchesOneMore(fs: Fields, desired: Fields, i: nat)
    requires i < |desired|
    ensures Matches(fs, desired[..i + 1]) <==>
            Matches(fs, desired[..i]) && Same(GetOrNull(fs, desired[i].key), desired[i].value)
  {
    hide Same, GetOrNull;
    var upTo := desired[..i + 1];
    assert forall j :: 0 <= j < i ==> upTo[j] == desired[..i][j];
    assert upTo[i] == desired[i];
  }

  lemma UntouchedSoFar(fs: Fields, desired: Fields, i: nat)
    requires WellFormed(Object(desired)) && i < |desired|
    ensures Get(Merge(fs, desired[..i]), desired[i].key) == Get(fs, desired[i].key)
  {
    MergeFrame(fs, desired[..i], desired[i].key);
  }
}
