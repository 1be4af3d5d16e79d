/** Reading a path out of a step's stored output. */
module OutputPaths {
  import opened Text
  import opened Wrappers

  datatype Json = Null | Scalar(text: string) | Object(fields: map<string, Json>) | List(items: seq<Json>)

  /** The text of an integer index; negative ones count from the end. */
  type Indexer = string -> Option<int>

  const MARKER := "output"

  function NonEmpty(pieces: seq<string>): seq<string> {
    if pieces == [] then []
    else NonEmpty(pieces[..|pieces| - 1]) + if pieces[|pieces| - 1] == "" then [] else [pieces[|pieces| - 1]]
  }

  function Parts(path: string): seq<string> {
    NonEmpty(SplitOn(path, '.'))
  }

  function Child(toIndex: Indexer, value: Json, part: string): Json {
    match value
    case Object(fields) => if part in fields then fields[part] else Null
    case List(items) =>
      var i := toIndex(part);
      if i.None? then Null
      else if 0 <= i.value < |items| then items[i.value]
      else if -|items| <= i.value < 0 then items[|items| + i.value]
      else Null
    case _ => Null
  }

  function Walk(toIndex: Indexer, value: Json, parts: seq<string>): Json {
    if parts == [] then value
    else Child(toIndex, Walk(toIndex, value, parts[..|parts| - 1]), parts[|parts| - 1])
  }

  predicate Wrapped(value: Json) {
    value.Object? && MARKER in value.fields
  }

  predicate Marked(path: string) {
    Parts(path) != [] && Parts(path)[0] == MARKER
  }

  /** What a path reads; a leading marker unwraps a wrapped output. */
  function Resolve(toIndex: Indexer, value: Json, path: string): Json {
    var parts := Parts(path);
    if Marked(path) then Walk(toIndex, if Wrapped(value) then value.fields[MARKER] else value, parts[1..])
    else Walk(toIndex, value, parts)
  }

  lemma {:induction false} NullWalk(toIndex: Indexer, parts: seq<string>)
    ensures Walk(toIndex, Null, parts) == Null
  {
    if parts != [] {
      NullWalk(toIndex, parts[..|parts| - 1]);
    }
  }

  lemma {:induction false} WalkConcat(toIndex: Indexer, value: Json, a: seq<string>, b: seq<string>)
    ensures Walk(toIndex, value, a + b) == Walk(toIndex, Walk(toIndex, value, a), b)
  {
    if b == [] {
      assert a + b == a;
    } else {
      assert (a + b)[..|a + b| - 1] == a + b[..|b| - 1];
      WalkConcat(toIndex, value, a, b[..|b| - 1]);
    }
  }

  /** A name without dots is one part, itself. */
  lemma OnePart(part: string)
    requires part != "" && '.' !in part
    ensures Parts(part) == [part]
  {
    SplitWithout(part, '.');
    assert [part][..0] == [];
    assert NonEmpty([]) == [];
  }

  /** One step into a value: a field of an object, an element of a list counted
      from its start or, with a negative index, from its end; null for everything
      else. */
  lemma ReadsOne(toIndex: Indexer, value: Json, part: string)
    requires part != "" && '.' !in part && part != MARKER
    ensures var r := Resolve(toIndex, value, part);
            && (value.Object? ==> if part in value.fields then r == value.fields[part] else r == Null)
            && (value.List? ==> match toIndex(part)
                                case None => r == Null
                                case Some(i) =>
                                  && (0 <= i < |value.items| ==> r == value.items[i])
                                  && (0 < -i <= |value.items| ==> r == value.items[|value.items| - -i])
                                  && (i >= |value.items| || -i > |value.items| ==> r == Null))
            && (!value.Object? && !value.List? ==> r == Null)
  {
    OnePart(part);
    assert [part][..0] == [];
    assert Walk(toIndex, value, []) == value;
  }

  /** The loop, with its early exit on a value that cannot be entered. */
  method TraverseOutput(toIndex: Indexer, value: Json, path: string) returns (r: Json)
    ensures r == Resolve(toIndex, value, path)
  {
    hide NonEmpty, SplitOn, Walk;
    var parts := Parts(path);
    r := value;
    if parts != [] && parts[0] == MARKER {
      parts := parts[1..];
      if r.Object? && MARKER in r.fields {
        r := r.fields[MARKER];
      }
    }
    ghost var start := r;
    WalkNowhere(toIndex, start);
    for i := 0 to |parts|
      invariant r == Walk(toIndex, start, parts[..i])
    {
      WalkOn(toIndex, start, parts, i);
      var part := parts[i];
      match r
      case Object(fields) => r := if part in fields then fields[part] else Null;
      case List(items) =>
        var index := toIndex(part);
        if index.None? || index.value >= |items| || index.value < -|items| {
          Exhausted(toIndex, start, parts, i);
          return Null;
        }
        r := if index.value >= 0 then items[index.value] else items[|items| + index.value];
      case _ =>
        Exhausted(toIndex, start, parts, i);
        return Null;
    }
    assert parts[..|parts|] == parts;
  }

  lemma WalkNowhere(toIndex: Indexer, value: Json)
    ensures forall parts :: parts == [] ==> Walk(toIndex, value, parts) == value
  {
  }

  lemma WalkOn(toIndex: Indexer, value: Json, parts: seq<string>, i: nat)
    requires i < |parts|
    ensures Walk(toIndex, value, parts[..i + 1]) == Child(toIndex, Walk(toIndex, value, parts[..i]), parts[i])
  {
    assert parts[..i + 1][..i] == parts[..i];
  }

  /** Once a part finds nothing, the whole path reads null. */
  lemma Exhausted(toIndex: Indexer, value: Json, parts: seq<string>, i: nat)
    requires i < |parts| && Child(toIndex, Walk(toIndex, value, parts[..i]), parts[i]) == Null
    ensures Walk(toIndex, value, parts) == Null
  {
    assert parts[..i + 1][..i] == parts[..i];
    assert parts == parts[..i + 1] + parts[i + 1..];
    WalkConcat(toIndex, value, parts[..i + 1], parts[i + 1..]);
    NullWalk(toIndex, parts[i + 1..]);
  }

  lemma {:induction false} NonEmptyConcat(a: seq<string>, b: seq<string>)
    ensures NonEmpty(a + b) == NonEmpty(a) + NonEmpty(b)
  {
    if b == [] {
      assert a + b == a;
    } else {
      NonEmptyConcat(a, b[..|b| - 1]);
      assert (a + b)[..|a + b| - 1] == a + b[..|b| - 1];
    }
  }

  lemma PartsOfDotted(path: string, rest: string)
    ensures Parts(path + "." + rest) == Parts(path) + Parts(rest)
  {
    var pieces := SplitOn(path, '.');
    var init, last := pieces[..|pieces| - 1], pieces[|pieces| - 1];
    assert path + "." + rest == path + ("." + rest);
    SplitAppend(path, "." + rest, '.');
    LastIsClean(path);
    SplitAtFirst(last, rest, '.');
    assert last + ['.'] + rest == last + ("." + rest);
    hide SplitOn, NonEmpty;
    assert pieces == init + [last];
    assert init + ([last] + SplitOn(rest, '.')) == pieces + SplitOn(rest, '.');
    NonEmptyConcat(pieces, SplitOn(rest, '.'));
  }

  lemma LastIsClean(path: string)
    ensures '.' !in SplitOn(path, '.')[|SplitOn(path, '.')| - 1]
  {
    JoinSplit(path, '.');
    assert SplitOn(path, '.')[|SplitOn(path, '.')| - 1] in SplitOn(path, '.');
  }

  /** Reading a longer path is reading on from where the shorter one led, and
      reads null if that was null. */
  lemma ResolveComposes(toIndex: Indexer, value: Json, path: string, rest: string)
    requires Parts(path) != []
    ensures Resolve(toIndex, value, path + "." + rest) == Walk(toIndex, Resolve(toIndex, value, path), Parts(rest))
    ensures Resolve(toIndex, value, path) == Null ==> Resolve(toIndex, value, path + "." + rest) == Null
  {
    NullWalk(toIndex, Parts(rest));
    PartsOfDotted(path, rest);
    var start := if Marked(path) && Wrapped(value) then value.fields[MARKER] else value;
    if Marked(path) {
      assert (Parts(path) + Parts(rest))[1..] == Parts(path)[1..] + Parts(rest);
      WalkConcat(toIndex, start, Parts(path)[1..], Parts(rest));
    } else {
      WalkConcat(toIndex, start, Parts(path), Parts(rest));
    }
  }

  function Wrap(value: Json): Json {
    Object(map[MARKER := value])
  }

  function Height(value: Json): nat {
    match value
    case Object(fields) => if MARKER in fields then 1 + Height(fields[MARKER]) else 0
    case _ => 0
  }

  /** A raw output and its documented wrapping read the same along every
      marked path exactly when the raw output has no "output" key itself. */
  lemma WrappingIsTransparentIff(toIndex: Indexer, value: Json)
    ensures (forall path :: Marked(path) ==> Resolve(toIndex, Wrap(value), path) == Resolve(toIndex, value, path)) <==>
              !Wrapped(value)
  {
    hide Walk, Parts;
    if Wrapped(value) {
      MarkerReads(toIndex, value);
      MarkerReads(toIndex, Wrap(value));
      assert Height(value) > Height(value.fields[MARKER]);
    } else {
      forall path | Marked(path) ensures Resolve(toIndex, Wrap(value), path) == Resolve(toIndex, value, path) {
      }
    }
  }

  lemma MarkerReads(toIndex: Indexer, value: Json)
    requires Wrapped(value)
    ensures Marked(MARKER) && Resolve(toIndex, value, MARKER) == value.fields[MARKER]
  {
    assert SplitOn(MARKER, '.') == [MARKER] by { SplitWithout(MARKER, '.'); }
    assert NonEmpty([MARKER]) == [MARKER] by { assert [MARKER][..0] == []; }
  }
}
