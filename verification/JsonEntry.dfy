/** Adding an entry to a JSON configuration file at a path of keys, and removing it again. */
module JsonEntry {
  import opened Prelude
  import opened Installer
  import opened Json

  type Path = seq<string>

  datatype Error = EmptyPath | NotAnObject

  datatype Upserted = Upserted(doc: Value, action: Action)

  type UpsertResult = Result<Upserted, Error>

  /** The object a step of the path leads to; a missing or null value becomes an empty object. */
  function Child(v: Value, key: string): Result<Value, Error> {
    if !v.Object? then Err(NotAnObject)
    else
      var existing := Get(v.fields, key);
      if existing.None? || existing.value.Null? then Ok(EMPTY)
      else if existing.value.Object? then Ok(existing.value)
      else Err(NotAnObject)
  }

  function WithChild(v: Value, key: string, child: Value): Value
    requires v.Object?
  {
    Object(Put(v.fields, key, child))
  }

  function UpsertLeaf(v: Value, key: string, desired: Fields): UpsertResult {
    if !v.Object? then Err(NotAnObject)
    else
      var existing := Get(v.fields, key);
      if existing.None? || existing.value.Null? then Ok(Upserted(WithChild(v, key, Object(desired)), Created))
      else if !existing.value.Object? then Err(NotAnObject)
      else if Matches(existing.value.fields, desired) then Ok(Upserted(v, Unchanged))
      else Ok(Upserted(WithChild(v, key, Object(Merge(existing.value.fields, desired))), Updated))
  }

  /** The document with `desired` merged into the entry at `path`. */
  function Upsert(v: Value, path: Path, desired: Fields): UpsertResult
    decreases |path|
  {
    if path == [] then Err(EmptyPath)
    else if |path| == 1 then UpsertLeaf(v, path[0], desired)
    else
      match Child(v, path[0])
      case Err(e) => Err(e)
      case Ok(child) =>
        match Upsert(child, path[1..], desired)
        case Err(e) => Err(e)
        case Ok(u) => Ok(Upserted(if u.action == Unchanged then v else WithChild(v, path[0], u.doc), u.action))
  }

  /** The document without the entry at `path`; None when there is no such entry. */
  function Remove(v: Value, path: Path, prune: bool): Option<Value>
    decreases |path|
  {
    if path == [] || !v.Object? then None
    else
      match Get(v.fields, path[0])
      case None => None
      case Some(child) =>
        if |path| == 1 then Some(Object(Del(v.fields, path[0])))
        else
          match Remove(child, path[1..], prune)
          case None => None
          case Some(rest) => Some(Detach(v, path[0], rest, prune))
  }

  function Detach(v: Value, key: string, rest: Value, prune: bool): Value
    requires v.Object?
  {
    if prune && rest == EMPTY then Object(Del(v.fields, key)) else WithChild(v, key, rest)
  }

  /** The value found by following `path` through objects. */
  function Lookup(v: Value, path: Path): Option<Value>
    decreases |path|
  {
    if path == [] then Some(v)
    else if !v.Object? then None
    else
      match Get(v.fields, path[0])
      case None => None
      case Some(child) => Lookup(child, path[1..])
  }

  function FieldOf(entry: Option<Value>, key: string): Option<Value> {
    if entry.Some? && entry.value.Object? then Get(entry.value.fields, key) else None
  }

  // ---- Round trip ----

  /**
   Nothing on the path stands in the way of restoring the document: the entry is absent, no value on the path
   is null, and, when pruning, no object on the path is empty or, when not pruning, none of them is missing.
   */
  ghost predicate Restorable(v: Value, path: Path, prune: bool)
    requires path != []
    decreases |path|
  {
    v.Object? &&
    match Get(v.fields, path[0])
    case None => |path| == 1 || prune
    case Some(child) => |path| > 1 && child.Object? && !(prune && child == EMPTY) && Restorable(child, path[1..], prune)
  }

  lemma {:induction false} UpsertChanges(v: Value, path: Path, desired: Fields)
    requires WellFormed(Object(desired)) && Upsert(v, path, desired).Ok?
    ensures path != [] && v.Object? && Upsert(v, path, desired).value.doc.Object?
    ensures Upsert(v, path, desired).value.doc != EMPTY
    ensures Upsert(v, path, desired).value.action == Unchanged ==> Upsert(v, path, desired).value.doc == v
    decreases |path|
  {
    hide Same, WellFormed, Matches, Merge;
    if |path| > 1 {
      UpsertChanges(Child(v, path[0]).value, path[1..], desired);
      GetOfPut(v.fields, path[0], Upsert(Child(v, path[0]).value, path[1..], desired).value.doc, path[0]);
    } else {
      GetOfPut(v.fields, path[0], Object(desired), path[0]);
      if Get(v.fields, path[0]).Some? && Get(v.fields, path[0]).value.Object? {
        GetOfPut(v.fields, path[0], Object(Merge(Get(v.fields, path[0]).value.fields, desired)), path[0]);
      }
    }
  }

  /** The entry that was upserted can be removed. */
  lemma {:induction false} UpsertedCanBeRemoved(v: Value, path: Path, desired: Fields, prune: bool)
    requires WellFormed(Object(desired)) && Upsert(v, path, desired).Ok?
    ensures Remove(Upsert(v, path, desired).value.doc, path, prune).Some?
    decreases |path|
  {
    hide Same, WellFormed, Matches, Merge, Put, Del;
    UpsertChanges(v, path, desired);
    if |path| == 1 {
      GetOfPut(v.fields, path[0], Object(desired), path[0]);
      if Get(v.fields, path[0]).Some? && Get(v.fields, path[0]).value.Object? {
        GetOfPut(v.fields, path[0], Object(Merge(Get(v.fields, path[0]).value.fields, desired)), path[0]);
      }
    } else {
      var child := Child(v, path[0]).value;
      var u := Upsert(child, path[1..], desired).value;
      UpsertedCanBeRemoved(child, path[1..], desired, prune);
      UpsertChanges(child, path[1..], desired);
      GetOfPut(v.fields, path[0], u.doc, path[0]);
      if u.action == Unchanged {
        UnchangedIsPresent(v, path, desired);
      }
    }
  }

  /** Only an entry that exists can be left unchanged. */
  lemma {:induction false} UnchangedIsPresent(v: Value, path: Path, desired: Fields)
    requires Upsert(v, path, desired).Ok? && Upsert(v, path, desired).value.action == Unchanged
    ensures v.Object? && Get(v.fields, path[0]).Some?
    decreases |path|
  {
    hide Same, Matches, Merge;
    if |path| > 1 {
      UnchangedIsPresent(Child(v, path[0]).value, path[1..], desired);
    }
  }

  /** What removing the upserted entry leaves, one level of the path at a time. */
  lemma RoundTripStep(v: Value, path: Path, desired: Fields, prune: bool)
    requires WellFormed(Object(desired)) && Upsert(v, path, desired).Ok? && |path| > 1
    ensures var child := Child(v, path[0]).value;
            var back := Remove(Upsert(child, path[1..], desired).value.doc, path[1..], prune);
            back.Some? && Remove(Upsert(v, path, desired).value.doc, path, prune)
                          == Some(if prune && back.value == EMPTY then Object(Del(v.fields, path[0]))
                                  else Object(Put(v.fields, path[0], back.value)))
  {
    hide Same, WellFormed, Matches, Merge, Put, Del, Lookup;
    var child := Child(v, path[0]).value;
    var u := Upsert(child, path[1..], desired).value;
    UpsertChanges(child, path[1..], desired);
    UpsertedCanBeRemoved(child, path[1..], desired, prune);
    GetOfPut(v.fields, path[0], u.doc, path[0]);
    var back := Remove(u.doc, path[1..], prune).value;
    if u.action == Unchanged {
      UnchangedIsPresent(v, path, desired);
    } else {
      PutTwice(v.fields, path[0], u.doc, back);
      DelAfterPut(v.fields, path[0], u.doc);
    }
  }

  lemma {:induction false} DelAfterPut(fs: Fields, key: string, value: Value)
    ensures Del(Put(fs, key, value), key) == Del(fs, key)
  {
    if fs != [] && fs[0].key != key {
      DelAfterPut(fs[1..], key, value);
    }
  }

  lemma RoundTripLeaf(v: Value, key: string, desired: Fields, prune: bool)
    requires WellFormed(Object(desired)) && Upsert(v, [key], desired).Ok?
    ensures Remove(Upsert(v, [key], desired).value.doc, [key], prune) == Some(Object(Del(v.fields, key)))
  {
    hide Same, WellFormed, Matches, Merge, Put, Del;
    var before := Get(v.fields, key);
    GetOfPut(v.fields, key, Object(desired), key);
    DelAfterPut(v.fields, key, Object(desired));
    if before.Some? && before.value.Object? {
      GetOfPut(v.fields, key, Object(Merge(before.value.fields, desired)), key);
      DelAfterPut(v.fields, key, Object(Merge(before.value.fields, desired)));
    }
  }

  /** Removing an upserted entry restores the document exactly when nothing on the path stands in the way. */
  lemma {:induction false} RoundTrip(v: Value, path: Path, desired: Fields, prune: bool)
    requires WellFormed(Object(desired)) && Upsert(v, path, desired).Ok?
    ensures Remove(Upsert(v, path, desired).value.doc, path, prune) == Some(v) <==> Restorable(v, path, prune)
    decreases |path|
  {
    hide Same, WellFormed, Matches, Merge, Put, Del, Upsert, Remove;
    UpsertChanges(v, path, desired);
    GetOfDel(v.fields, path[0], path[0]);
    if |path| == 1 {
      assert path == [path[0]];
      RoundTripLeaf(v, path[0], desired, prune);
      if Get(v.fields, path[0]) == None {
        DelAbsent(v.fields, path[0]);
      }
    } else {
      ChildUpserts(v, path, desired);
      var child := Child(v, path[0]).value;
      RoundTrip(child, path[1..], desired, prune);
      RoundTripStep(v, path, desired, prune);
      var back := Remove(Upsert(child, path[1..], desired).value.doc, path[1..], prune).value;
      GetOfPut(v.fields, path[0], back, path[0]);
      RemovedIsObject(Upsert(child, path[1..], desired).value.doc, path[1..], prune);
      if Get(v.fields, path[0]) == None {
        DelAbsent(v.fields, path[0]);
        EmptyIsRestorable(path[1..], prune);
      } else if Get(v.fields, path[0]) == Some(back) {
        PutPresent(v.fields, path[0]);
      }
    }
  }

  lemma ChildUpserts(v: Value, path: Path, desired: Fields)
    requires Upsert(v, path, desired).Ok? && |path| > 1
    ensures v.Object? && Child(v, path[0]).Ok? && Upsert(Child(v, path[0]).value, path[1..], desired).Ok?
  {
  }

  lemma RemovedIsObject(v: Value, path: Path, prune: bool)
    requires Remove(v, path, prune).Some?
    ensures Remove(v, path, prune).value.Object?
  {
  }

  lemma EmptyIsRestorable(path: Path, prune: bool)
    requires path != []
    ensures Restorable(EMPTY, path, prune) <==> |path| == 1 || prune
  {
  }

  /** A value on the path that is neither an object nor null. */
  ghost predicate Blocked(v: Value, path: Path) {
    exists i :: 0 < i <= |path| && BlocksAt(v, path, i)
  }

  predicate BlocksAt(v: Value, path: Path, i: nat)
    requires i <= |path|
  {
    var at := Lookup(v, path[..i]);
    at.Some? && !at.value.Object? && !at.value.Null?
  }

  /** An upsert is rejected exactly when the document is no object or a value on the path blocks it. */
  lemma {:induction false} UpsertRejects(v: Value, path: Path, desired: Fields)
    requires path != []
    ensures Upsert(v, path, desired).Err? <==> !v.Object? || Blocked(v, path)
    decreases |path|
  {
    hide Same, Matches, Merge, Put;
    if v.Object? {
      BlocksAtFirst(v, path);
      var child := Get(v.fields, path[0]);
      if |path| > 1 {
        if child.Some? && child.value.Object? {
          UpsertRejects(child.value, path[1..], desired);
          BlockedBelow(v, path);
        } else if child.None? || child.value.Null? {
          UpsertRejects(EMPTY, path[1..], desired);
          NothingBlocks(path[1..]);
          BlockedBelow(v, path);
        } else {
          assert BlocksAt(v, path, 1);
        }
      } else {
        assert Blocked(v, path) <==> BlocksAt(v, path, 1);
      }
    }
  }

  lemma BlocksAtFirst(v: Value, path: Path)
    requires v.Object? && path != []
    ensures var child := Get(v.fields, path[0]);
      BlocksAt(v, path, 1) <==> child.Some? && !child.value.Object? && !child.value.Null?
  {
    var p := path[..1];
    assert p[0] == path[0] && p[1..] == [];
    var child := Get(v.fields, path[0]);
    if child.Some? {
      assert Lookup(child.value, p[1..]) == Some(child.value);
      assert Lookup(v, p) == Lookup(child.value, p[1..]);
    } else {
      assert Lookup(v, p) == None;
    }
  }

  lemma BlocksAtLater(v: Value, path: Path, i: nat)
    requires v.Object? && 1 < i <= |path|
    ensures var child := Get(v.fields, path[0]);
      BlocksAt(v, path, i) <==> child.Some? && BlocksAt(child.value, path[1..], i - 1)
  {
    var p := path[..i];
    assert p[0] == path[0] && p[1..] == path[1..][..i - 1];
    var child := Get(v.fields, path[0]);
    if child.Some? {
      assert Lookup(v, p) == Lookup(child.value, p[1..]);
    } else {
      assert Lookup(v, p) == None;
    }
  }

  lemma NothingBlocks(path: Path)
    ensures !Blocked(EMPTY, path)
  {
  }

  lemma BlockedBelow(v: Value, path: Path)
    requires v.Object? && |path| > 1
    requires var child := Get(v.fields, path[0]); child.None? || child.value.Object? || child.value.Null?
    ensures Blocked(v, path) <==>
            Get(v.fields, path[0]).Some? && Blocked(Get(v.fields, path[0]).value, path[1..])
  {
    var child := Get(v.fields, path[0]);
    forall i: nat | 0 < i <= |path|
      ensures BlocksAt(v, path, i) <==> child.Some? && i > 1 && BlocksAt(child.value, path[1..], i - 1)
    {
      if i == 1 {
        BlocksAtFirst(v, path);
      } else {
        BlocksAtLater(v, path, i);
      }
    }
    if child.Some? && Blocked(child.value, path[1..]) {
      var j :| 0 < j <= |path[1..]| && BlocksAt(child.value, path[1..], j);
      assert BlocksAt(v, path, j + 1);
    }
  }

  // ---- A second upsert ----

  /** Upserting again changes nothing and says so. */
  lemma {:induction false} UpsertTwice(v: Value, path: Path, desired: Fields)
    requires WellFormed(Object(desired)) && Upsert(v, path, desired).Ok?
    ensures var doc := Upsert(v, path, desired).value.doc;
            Upsert(doc, path, desired) == Ok(Upserted(doc, Unchanged))
    decreases |path|
  {
    hide Same, WellFormed, Matches, Merge, Put;
    UpsertChanges(v, path, desired);
    if |path| == 1 {
      var before := Get(v.fields, path[0]);
      GetOfPut(v.fields, path[0], Object(desired), path[0]);
      MatchesItself(desired);
      if before.Some? && before.value.Object? {
        GetOfPut(v.fields, path[0], Object(Merge(before.value.fields, desired)), path[0]);
        MergeMatches(before.value.fields, desired);
      }
    } else {
      var child := Child(v, path[0]).value;
      var u := Upsert(child, path[1..], desired).value;
      UpsertChanges(child, path[1..], desired);
      UpsertTwice(child, path[1..], desired);
      GetOfPut(v.fields, path[0], u.doc, path[0]);
    }
  }

  // ---- Frame ----

  /** `q` leads neither to the entry at `path` nor through it, nor to an object on the way. */
  ghost predicate OffPath(q: Path, path: Path) {
    exists i :: 0 <= i < |q| && i < |path| && q[..i] == path[..i] && q[i] != path[i]
  }

  lemma OffPathStep(q: Path, path: Path)
    requires OffPath(q, path)
    ensures q != [] && path != []
    ensures q[0] == path[0] ==> |path| > 1 && OffPath(q[1..], path[1..])
  {
    var i :| 0 <= i < |q| && i < |path| && q[..i] == path[..i] && q[i] != path[i];
    if q[0] == path[0] {
      assert i > 0;
      assert q[1..][..i - 1] == q[..i][1..] && path[1..][..i - 1] == path[..i][1..];
    }
  }

  /** Everything off the path reads as before. */
  lemma {:induction false} UpsertFrame(v: Value, path: Path, desired: Fields, q: Path)
    requires Upsert(v, path, desired).Ok? && OffPath(q, path)
    ensures Lookup(Upsert(v, path, desired).value.doc, q) == Lookup(v, q)
    decreases |path|
  {
    hide Same, Matches, Merge, Put, OffPath;
    OffPathStep(q, path);
    forall w ensures Get(Put(v.fields, path[0], w), q[0]) == if q[0] == path[0] then Some(w) else Get(v.fields, q[0]) {
      GetOfPut(v.fields, path[0], w, q[0]);
    }
    if q[0] == path[0] {
      UpsertFrame(Child(v, path[0]).value, path[1..], desired, q[1..]);
      LookupInChild(v, path[0], q[1..]);
    }
  }

  /** An object that the path creates holds nothing else. */
  lemma LookupInChild(v: Value, key: string, q: Path)
    requires v.Object? && Child(v, key).Ok? && q != []
    ensures Lookup(Child(v, key).value, q) == Lookup(v, [key] + q)
  {
    assert ([key] + q)[1..] == q;
  }

  lemma {:induction false} RemoveFrame(v: Value, path: Path, prune: bool, q: Path)
    requires Remove(v, path, prune).Some? && OffPath(q, path)
    ensures Lookup(Remove(v, path, prune).value, q) == Lookup(v, q)
    decreases |path|
  {
    hide Put, Del, OffPath;
    OffPathStep(q, path);
    GetOfDel(v.fields, path[0], q[0]);
    if |path| > 1 {
      var child := Get(v.fields, path[0]).value;
      var rest := Remove(child, path[1..], prune).value;
      GetOfPut(v.fields, path[0], rest, q[0]);
      if q[0] == path[0] {
        RemoveFrame(child, path[1..], prune, q[1..]);
      }
    }
  }

  /** The entry holds every desired field, and its other fields are those it had. */
  lemma {:induction false} UpsertedEntry(v: Value, path: Path, desired: Fields, key: string)
    requires WellFormed(Object(desired)) && Upsert(v, path, desired).Ok?
    ensures var entry := Lookup(Upsert(v, path, desired).value.doc, path);
      && entry.Some? && entry.value.Object? && Matches(entry.value.fields, desired)
      && HasAtoms(entry.value.fields, desired)
      && ((forall i :: 0 <= i < |desired| ==> desired[i].key != key) ==>
           Get(entry.value.fields, key) ==
           FieldOf(Lookup(v, path), key))
    decreases |path|
  {
    hide Same, WellFormed, Matches, Merge, Put, HasAtoms;
    UpsertChanges(v, path, desired);
    if |path| == 1 {
      UpsertedLeaf(v, path, desired, key);
    } else {
      var child := Child(v, path[0]).value;
      var u := Upsert(child, path[1..], desired).value;
      UpsertChanges(child, path[1..], desired);
      UpsertedEntry(child, path[1..], desired, key);
      GetOfPut(v.fields, path[0], u.doc, path[0]);
      LookupInChild(v, path[0], path[1..]);
      assert path == [path[0]] + path[1..];
      if u.action == Unchanged {
        UnchangedIsPresent(child, path[1..], desired);
      }
    }
  }

  lemma {:induction false} GetUnmanaged(desired: Fields, key: string)
    requires forall i :: 0 <= i < |desired| ==> desired[i].key != key
    ensures Get(desired, key) == None
  {
    if desired == [] {
    } else {
      assert forall i :: 0 <= i < |desired| - 1 ==> desired[1..][i] == desired[i + 1];
      GetUnmanaged(desired[1..], key);
    }
  }

  lemma UpsertedLeaf(v: Value, path: Path, desired: Fields, key: string)
    requires WellFormed(Object(desired)) && Upsert(v, path, desired).Ok? && |path| == 1
    ensures var entry := Lookup(Upsert(v, path, desired).value.doc, path);
      && entry.Some? && entry.value.Object? && Matches(entry.value.fields, desired)
      && HasAtoms(entry.value.fields, desired)
      && ((forall i :: 0 <= i < |desired| ==> desired[i].key != key) ==>
           Get(entry.value.fields, key) ==
           FieldOf(Lookup(v, path), key))
  {
    hide Same, WellFormed, Matches, Merge, Put, HasAtoms;
    var before := Get(v.fields, path[0]);
    assert path[1..] == [];
    GetOfPut(v.fields, path[0], Object(desired), path[0]);
    MatchesItself(desired);
    MatchesAtoms(desired, desired);
    if forall i :: 0 <= i < |desired| ==> desired[i].key != key {
      GetUnmanaged(desired, key);
    }
    if before.Some? && before.value.Object? {
      var existing := before.value.fields;
      GetOfPut(v.fields, path[0], Object(Merge(existing, desired)), path[0]);
      MergeMatches(existing, desired);
      MatchesAtoms(existing, desired);
      if forall i :: 0 <= i < |desired| ==> desired[i].key != key {
        MergeFrame(existing, desired, key);
      }
    }
  }

  /**
   What an upsert reports: CREATED for an entry that is missing or null, UNCHANGED exactly for one that has every
   desired value already, and otherwise UPDATED.
   */
  lemma {:induction false} UpsertAction(v: Value, path: Path, desired: Fields)
    requires Upsert(v, path, desired).Ok?
    ensures var before, action := Lookup(v, path), Upsert(v, path, desired).value.action;
      && (action == Created <==> before == None || before == Some(Null))
      && (action == Unchanged <==>
            before.Some? && before.value.Object? && Matches(before.value.fields, desired))
      && (action == Unchanged ==> HasAtoms(before.value.fields, desired))
      && action in {Created, Updated, Unchanged}
    decreases |path|
  {
    hide Same, Matches, Merge, Put, HasAtoms;
    if |path| == 1 {
      assert path[1..] == [];
      if Get(v.fields, path[0]).Some? && Get(v.fields, path[0]).value.Object? {
        MatchesAtoms(Get(v.fields, path[0]).value.fields, desired);
      }
    } else {
      UpsertAction(Child(v, path[0]).value, path[1..], desired);
      LookupInChild(v, path[0], path[1..]);
      assert path == [path[0]] + path[1..];
    }
  }

  /** The entry at `path` is an object that has the desired value in every managed field, and exactly that atom. */
  predicate Holds(doc: Value, path: Path, desired: Fields) {
    var entry := Lookup(doc, path);
    entry.Some? && entry.value.Object? && HasAtoms(entry.value.fields, desired) && Matches(entry.value.fields, desired)
  }

  lemma UpsertHolds(v: Value, path: Path, desired: Fields)
    requires WellFormed(Object(desired)) && Upsert(v, path, desired).Ok?
    ensures Holds(Upsert(v, path, desired).value.doc, path, desired)
    ensures Upsert(v, path, desired).value.action == Unchanged <==> Holds(v, path, desired)
    ensures v == EMPTY ==> !Holds(v, path, desired)
  {
    hide Upsert, Same, Matches, HasAtoms;
    UpsertedEntry(v, path, desired, "");
    UpsertAction(v, path, desired);
    UpsertChanges(v, path, desired);
    assert path != [] && (v == EMPTY ==> Get(v.fields, path[0]) == None && Lookup(v, path) == None);
    if Lookup(v, path).Some? && Lookup(v, path).value.Object? {
      MatchesAtoms(Lookup(v, path).value.fields, desired);
    }
  }

  // ---- The file ----

  datatype Stored = Missing | Unreadable | Doc(value: Value)

  datatype FileError = InvalidJson | Rejected(error: Error)

  /** An object on the way down the path, and the key the walk left it by. */
  datatype Frame = Frame(fields: Fields, key: string)

  /** The document in which `v` hangs below `frames`. */
  function Plug(frames: seq<Frame>, v: Value): Value
    decreases |frames|
  {
    if frames == [] then v
    else
      var f := frames[|frames| - 1];
      Plug(frames[..|frames| - 1], Object(Put(f.fields, f.key, v)))
  }

  function LiftUpsert(doc: Value, frames: seq<Frame>, r: UpsertResult): UpsertResult {
    match r
    case Err(e) => Err(e)
    case Ok(u) => Ok(Upserted(if u.action == Unchanged then doc else Plug(frames, u.doc), u.action))
  }

  function Unwind(frames: seq<Frame>, r: Option<Value>, prune: bool): Option<Value>
    decreases |frames|
  {
    if r.None? || frames == [] then r
    else
      var f := frames[|frames| - 1];
      Unwind(frames[..|frames| - 1], Some(Detach(Object(f.fields), f.key, r.value, prune)), prune)
  }

  lemma LiftStep(doc: Value, frames: seq<Frame>, v: Value, path: Path, desired: Fields)
    requires |path| > 1
    ensures Child(v, path[0]).Err? ==>
              LiftUpsert(doc, frames, Upsert(v, path, desired)) == Err(Child(v, path[0]).error)
    ensures Child(v, path[0]).Ok? ==>
              LiftUpsert(doc, frames, Upsert(v, path, desired)) ==
              LiftUpsert(doc, frames + [Frame(v.fields, path[0])], Upsert(Child(v, path[0]).value, path[1..], desired))
  {
    hide Same, Matches, Merge, Put;
    if Child(v, path[0]).Ok? {
      assert (frames + [Frame(v.fields, path[0])])[..|frames|] == frames;
    }
  }

  lemma UnwindStep(frames: seq<Frame>, v: Value, path: Path, prune: bool)
    requires |path| > 1 && v.Object?
    ensures Get(v.fields, path[0]).None? ==> Unwind(frames, Remove(v, path, prune), prune) == None
    ensures Get(v.fields, path[0]).Some? ==>
              Unwind(frames, Remove(v, path, prune), prune) ==
              Unwind(frames + [Frame(v.fields, path[0])], Remove(Get(v.fields, path[0]).value, path[1..], prune), prune)
  {
    hide Put, Del;
    if Get(v.fields, path[0]).Some? {
      assert (frames + [Frame(v.fields, path[0])])[..|frames|] == frames;
      assert v == Object(v.fields);
    }
  }

  lemma {:induction false} UnwindNone(frames: seq<Frame>, prune: bool)
    ensures Unwind(frames, None, prune) == None
  {
  }

  lemma {:induction false} UpsertedIsPlugged(v: Value, path: Path, desired: Fields)
    requires WellFormed(Object(desired)) && Upsert(v, path, desired).Ok?
    ensures Upsert(v, path, desired).value.action == Unchanged ==> Upsert(v, path, desired).value.doc == v
  {
    UpsertChanges(v, path, desired);
  }

  method Rebuild(frames: seq<Frame>, inner: Value) returns (doc: Value)
    ensures doc == Plug(frames, inner)
  {
    doc := inner;
    var k := |frames|;
    assert frames[..k] == frames;
    while k > 0
      invariant 0 <= k <= |frames| && Plug(frames[..k], doc) == Plug(frames, inner)
    {
      k := k - 1;
      assert frames[..k + 1][..k] == frames[..k];
      doc := Object(Put(frames[k].fields, frames[k].key, doc));
    }
  }

  /** The entry itself, once the walk has reached the object that holds it. */
  method MergeLeaf(parent: Value, key: string, desired: Fields) returns (r: UpsertResult)
    requires WellFormed(Object(desired))
    ensures r == UpsertLeaf(parent, key, desired)
  {
    hide Same, Matches, Merge, Put, Get;
    if !parent.Object? {
      return Err(NotAnObject);
    }
    var existing := Get(parent.fields, key);
    if existing.None? || existing.value.Null? {
      return Ok(Upserted(Object(Put(parent.fields, key, Object(desired))), Created));
    }
    if !existing.value.Object? {
      return Err(NotAnObject);
    }
    var merged, changed := MergeFields(existing.value.fields, desired);
    if !changed {
      return Ok(Upserted(parent, Unchanged));
    }
    r := Ok(Upserted(Object(Put(parent.fields, key, Object(merged))), Updated));
  }

  method UpsertByWalking(doc: Value, path: Path, desired: Fields) returns (r: UpsertResult)
    requires WellFormed(Object(desired))
    ensures r == Upsert(doc, path, desired)
  {
    hide Same, WellFormed, Matches, Merge, Put, Get, Plug;
    if path == [] {
      return Err(EmptyPath);
    }
    var cursor, frames := doc, [];
    NoFrames(doc, path, desired);
    assert path[0..] == path;
    for i := 0 to |path| - 1
      invariant Upsert(doc, path, desired) == LiftUpsert(doc, frames, Upsert(cursor, path[i..], desired))
    {
      LiftStep(doc, frames, cursor, path[i..], desired);
      assert path[i..][1..] == path[i + 1..];
      if !cursor.Object? {
        return Err(NotAnObject);
      }
      var existing := Get(cursor.fields, path[i]);
      if existing.Some? && !existing.value.Null? && !existing.value.Object? {
        return Err(NotAnObject);
      }
      frames := frames + [Frame(cursor.fields, path[i])];
      cursor := if existing.None? || existing.value.Null? then EMPTY else existing.value;
    }
    r := MergeLeaf(cursor, path[|path| - 1], desired);
    if r.Ok? {
      if r.value.action == Unchanged {
        r := Ok(Upserted(doc, Unchanged));
      } else {
        var rebuilt := Rebuild(frames, r.value.doc);
        r := Ok(Upserted(rebuilt, r.value.action));
      }
    }
  }

  lemma NoFrames(doc: Value, path: Path, desired: Fields)
    requires WellFormed(Object(desired))
    ensures Upsert(doc, path, desired) == LiftUpsert(doc, [], Upsert(doc, path, desired))
  {
    if Upsert(doc, path, desired).Ok? {
      UpsertedIsPlugged(doc, path, desired);
    }
  }

  method RemoveByWalking(doc: Value, path: Path, prune: bool) returns (r: Option<Value>)
    requires path != []
    ensures r == Remove(doc, path, prune)
  {
    hide Put, Get, Del, Unwind;
    var cursor, parents := doc, [];
    NoParents(Remove(doc, path, prune), prune);
    assert path[0..] == path;
    for i := 0 to |path| - 1
      invariant Remove(doc, path, prune) == Unwind(parents, Remove(cursor, path[i..], prune), prune)
    {
      UnwindNone(parents, prune);
      if !cursor.Object? {
        return None;
      }
      UnwindStep(parents, cursor, path[i..], prune);
      assert path[i..][1..] == path[i + 1..];
      var next := Get(cursor.fields, path[i]);
      if next.None? {
        return None;
      }
      parents := parents + [Frame(cursor.fields, path[i])];
      cursor := next.value;
    }
    UnwindNone(parents, prune);
    if !cursor.Object? {
      return None;
    }
    if Get(cursor.fields, path[|path| - 1]).None? {
      return None;
    }
    var rest := Object(Del(cursor.fields, path[|path| - 1]));
    var pruned := PruneParents(parents, rest, prune);
    r := Some(pruned);
  }

  lemma NoParents(r: Option<Value>, prune: bool)
    ensures Unwind([], r, prune) == r
  {
  }

  /** Walks back up, deleting objects that became empty, until the first one that did not. */
  method PruneParents(parents: seq<Frame>, inner: Value, prune: bool) returns (doc: Value)
    requires inner.Object?
    ensures Unwind(parents, Some(inner), prune) == Some(doc)
  {
    hide Put, Del;
    doc := inner;
    var k := |parents|;
    assert parents[..k] == parents;
    if prune {
      while k > 0
        invariant 0 <= k <= |parents| && doc.Object?
        invariant Unwind(parents[..k], Some(doc), prune) == Unwind(parents, Some(inner), prune)
      {
        if doc != EMPTY {
          break;
        }
        k := k - 1;
        assert parents[..k + 1][..k] == parents[..k];
        doc := Object(Del(parents[k].fields, parents[k].key));
      }
    }
    UnwindIsPlug(parents[..k], doc, prune);
    doc := Rebuild(parents[..k], doc);
  }

  /** Once an object is not empty, nothing above it is pruned. */
  lemma {:induction false} UnwindIsPlug(frames: seq<Frame>, v: Value, prune: bool)
    requires frames == [] || !(prune && v == EMPTY)
    ensures Unwind(frames, Some(v), prune) == Some(Plug(frames, v))
    decreases |frames|
  {
    hide Put, Del;
    if frames == [] {
    } else {
      var f := frames[|frames| - 1];
      GetOfPut(f.fields, f.key, v, f.key);
      UnwindIsPlug(frames[..|frames| - 1], Object(Put(f.fields, f.key, v)), prune);
    }
  }

  class ConfigFile {
    var content: Stored

    /** A file that is missing reads as an empty object. */
    method UpsertEntry(path: Path, desired: Fields, dryRun: bool) returns (r: Result<Action, FileError>)
      requires WellFormed(Object(desired))
      modifies this
      ensures old(content).Unreadable? ==> r == Err(InvalidJson) && content == old(content)
      ensures !old(content).Unreadable? ==>
        var doc := if old(content).Doc? then old(content).value else EMPTY;
        match Upsert(doc, path, desired)
        case Err(e) => r == Err(Rejected(e)) && content == old(content)
        case Ok(u) =>
          && r == Ok(u.action)
          && content == if dryRun || u.action == Unchanged then old(content) else Doc(u.doc)
      ensures r.Ok? ==>
        && (r.value == Unchanged <==> old(content).Doc? && Holds(old(content).value, path, desired))
        && (!dryRun || r.value == Unchanged ==> content.Doc? && Holds(content.value, path, desired))
    {
      hide Upsert, WellFormed, Holds;
      if content.Unreadable? {
        return Err(InvalidJson);
      }
      var u := UpsertByWalking(if content.Doc? then content.value else EMPTY, path, desired);
      if u.Err? {
        return Err(Rejected(u.error));
      }
      UpsertHolds(if content.Doc? then content.value else EMPTY, path, desired);
      if u.value.action != Unchanged && !dryRun {
        content := Doc(u.value.doc);
      }
      r := Ok(u.value.action);
    }

    method RemoveEntry(path: Path, prune: bool, dryRun: bool) returns (r: Result<Action, FileError>)
      modifies this
      ensures old(content).Missing? ==> r == Ok(Unchanged) && content == old(content)
      ensures old(content).Unreadable? ==> r == Err(InvalidJson) && content == old(content)
      ensures old(content).Doc? && path == [] ==> r == Err(Rejected(EmptyPath)) && content == old(content)
      ensures old(content).Doc? && path != [] ==>
        match Remove(old(content).value, path, prune)
        case None => r == Ok(Unchanged) && content == old(content)
        case Some(doc) => r == Ok(Removed) && content == if dryRun then old(content) else Doc(doc)
    {
      hide Remove;
      if content.Missing? {
        return Ok(Unchanged);
      }
      if content.Unreadable? {
        return Err(InvalidJson);
      }
      if path == [] {
        return Err(Rejected(EmptyPath));
      }
      var doc := RemoveByWalking(content.value, path, prune);
      if doc.None? {
        return Ok(Unchanged);
      }
      if !dryRun {
        content := Doc(doc.value);
      }
      r := Ok(Removed);
    }
  }

  /** Installing into a missing file and uninstalling leaves a file that holds an empty object. */
  lemma MissingFileRoundTrip(path: Path, desired: Fields)
    requires WellFormed(Object(desired)) && path != []
    ensures Upsert(EMPTY, path, desired).Ok? && Upsert(EMPTY, path, desired).value.action == Created
    ensures Remove(Upsert(EMPTY, path, desired).value.doc, path, true) == Some(EMPTY)
  {
    hide WellFormed, Remove;
    EmptyUpserts(path, desired);
    EmptyIsRestorable(path, true);
    RoundTrip(EMPTY, path, desired, true);
  }

  lemma {:induction false} EmptyUpserts(path: Path, desired: Fields)
    requires path != []
    ensures Upsert(EMPTY, path, desired).Ok? && Upsert(EMPTY, path, desired).value.action == Created
    decreases |path|
  {
    if |path| > 1 {
      EmptyUpserts(path[1..], desired);
    }
  }
}
