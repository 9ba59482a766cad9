/** Looking up a dotted path in a decoded JSON value. */
module JsonPath {

  datatype Json =
    | Null
    | Bool(b: bool)
    | Num(n: real)
    | Str(s: string)
    | Arr(items: seq<Json>)
    | Obj(fields: map<string, Json>)

  // ---------- splitting on dots ----------

  /** One more character in front: a dot begins a part of its own, any other character joins the first part. */
  function Grow(c: char, parts: seq<string>): (grown: seq<string>)
    requires parts != []
    ensures grown != []
  {
    if c == '.' then [""] + parts else [[c] + parts[0]] + parts[1..]
  }

  /** strings.Split(path, "."): the empty text has one empty part. */
  function Split(path: string): (parts: seq<string>)
    ensures parts != []
  {
    if path == "" then [""]
    else Grow(path[0], Split(path[1..]))
  }

  lemma SplitStep(c: char, path: string)
    ensures Split([c] + path) == Grow(c, Split(path))
  {
    assert ([c] + path)[1..] == path;
  }

  function Join(parts: seq<string>): string
    requires parts != []
  {
    if |parts| == 1 then parts[0] else parts[0] + ['.'] + Join(parts[1..])
  }

  predicate NoDots(parts: seq<string>) { forall i | 0 <= i < |parts| :: '.' !in parts[i] }

  /** The parts have no dots, and joining them gives the path back. */
  lemma {:induction false} SplitThenJoin(path: string)
    ensures NoDots(Split(path)) && Join(Split(path)) == path
  {
    if path != "" {
      var c, rest := path[0], Split(path[1..]);
      SplitThenJoin(path[1..]);
      SplitStep(c, path[1..]);
      assert path == [c] + path[1..];
      JoinGrown(c, rest);
    }
  }

  lemma JoinGrown(c: char, parts: seq<string>)
    requires parts != []
    ensures Join(Grow(c, parts)) == [c] + Join(parts)
  {
    GrownRest(c, parts);
    if c != '.' && |parts| > 1 {
      ThreeTexts([c], parts[0], ['.'], Join(parts[1..]));
    }
  }

  lemma GrownRest(c: char, parts: seq<string>)
    requires parts != []
    ensures Grow(c, parts)[1..] == if c == '.' then parts else parts[1..]
  {
  }

  lemma ThreeTexts(a: string, b: string, c: string, d: string)
    ensures (a + b) + c + d == a + (b + c + d)
  {
  }

  /** No other list of dot-free parts joins to the same path. */
  lemma {:induction false} JoinThenSplit(parts: seq<string>)
    requires parts != [] && NoDots(parts)
    ensures Split(Join(parts)) == parts
  {
    if |parts| == 1 {
      SplitDotFree(parts[0]);
    } else {
      JoinThenSplit(parts[1..]);
      SplitAtDot(parts[0], Join(parts[1..]));
      SplitDotFree(parts[0]);
      assert parts == [parts[0]] + parts[1..];
    }
  }

  lemma {:induction false} SplitDotFree(part: string)
    requires '.' !in part
    ensures Split(part) == [part]
  {
    if part != "" {
      SplitDotFree(part[1..]);
      assert part == [part[0]] + part[1..];
    }
  }

  lemma GrowFront(c: char, parts: seq<string>, more: seq<string>)
    requires parts != []
    ensures Grow(c, parts + more) == Grow(c, parts) + more
  {
    assert (parts + more)[1..] == parts[1..] + more;
  }

  function Dotted(p: string, q: string): string { p + ['.'] + q }

  /** A dot separates the parts of what stands before it from the parts of what follows. */
  lemma {:induction false} SplitAtDot(p: string, q: string)
    ensures Split(Dotted(p, q)) == Split(p) + Split(q)
  {
    if p == "" {
      SplitStep('.', q);
      assert Dotted(p, q) == ['.'] + q;
    } else {
      SplitAtDot(p[1..], q);
      DottedStep(p, q);
      SplitStep(p[0], Dotted(p[1..], q));
      GrowFront(p[0], Split(p[1..]), Split(q));
    }
  }

  lemma DottedStep(p: string, q: string)
    requires p != ""
    ensures Dotted(p, q) == [p[0]] + Dotted(p[1..], q)
  {
    assert p == [p[0]] + p[1..];
  }

  // ---------- the lookup ----------

  /** Indexing a decoded object: nil for a key it has not. */
  function Field(fields: map<string, Json>, key: string): Json {
    if key in fields then fields[key] else Null
  }

  function Walk(obj: Json, parts: seq<string>): Json
    decreases parts
  {
    if parts == [] then obj
    else if !obj.Obj? then Null
    else Walk(Field(obj.fields, parts[0]), parts[1..])
  }

  method JsonGet(obj: Json, path: string) returns (found: Json)
    ensures found == Walk(obj, Split(path))
  {
    var parts := Split(path);
    found := obj;
    for i := 0 to |parts|
      invariant Walk(found, parts[i..]) == Walk(obj, parts)
    {
      if !found.Obj? {
        return Null;
      }
      found := Field(found.fields, parts[i]);
      assert parts[i..][1..] == parts[i + 1..];
    }
  }

  lemma {:induction false} WalkThenWalk(obj: Json, first: seq<string>, second: seq<string>)
    requires second != []
    ensures Walk(obj, first + second) == Walk(Walk(obj, first), second)
    decreases first
  {
    if first == [] {
      assert first + second == second;
    } else if obj.Obj? {
      assert (first + second)[1..] == first[1..] + second;
      WalkThenWalk(Field(obj.fields, first[0]), first[1..], second);
    }
  }

  /** Lookups compose: the path p.q finds what q finds in what p finds, for all values and all texts p and q. */
  lemma LookupsCompose(obj: Json, p: string, q: string)
    ensures Walk(obj, Split(Dotted(p, q))) == Walk(Walk(obj, Split(p)), Split(q))
  {
    SplitAtDot(p, q);
    WalkThenWalk(obj, Split(p), Split(q));
  }

  /** The object found under the parts, each the key of the next; the last value may be anything but nil. */
  ghost predicate Leads(obj: Json, parts: seq<string>, found: Json)
    decreases parts
  {
    if parts == [] then obj == found
    else obj.Obj? && parts[0] in obj.fields && Leads(obj.fields[parts[0]], parts[1..], found)
  }

  /** A value other than nil is found exactly when every part of the path is a key of the object before it. */
  lemma {:induction false} FoundIffKeysLead(obj: Json, parts: seq<string>, found: Json)
    requires found != Null
    ensures Walk(obj, parts) == found <==> Leads(obj, parts, found)
    decreases parts
  {
    if parts != [] && obj.Obj? {
      FoundIffKeysLead(Field(obj.fields, parts[0]), parts[1..], found);
      if parts[0] !in obj.fields && parts[1..] != [] {
        assert Walk(Null, parts[1..]) == Null;
      }
    }
  }
}
