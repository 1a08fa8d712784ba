/** Values of a JSON artifact, and the bounded searches through a whole artifact. */
module Json {
  import opened Words

  /** The keys of an object are distinct. */
  datatype Json = Null | Bool(b: bool) | Int(n: int) | Float(r: real) | NotFinite | Str(s: string) | List(items: seq<Json>) | Obj(fields: seq<Field>)

  datatype Field = Field(key: string, value: Json)

  function Lookup(fields: seq<Field>, key: string): Option<Json> {
    if fields == [] then None else if fields[0].key == key then Some(fields[0].value) else Lookup(fields[1..], key)
  }

  /** What an object has at a key; null if it has nothing there. */
  function Get(v: Json, key: string): Json {
    if v.Obj? && Lookup(v.fields, key).Some? then Lookup(v.fields, key).value else Null
  }

  function Nested(v: Json, keys: seq<string>): Json
    decreases |keys|
  {
    if keys == [] then v else Nested(Get(v, keys[0]), keys[1..])
  }

  predicate Truthy(v: Json) {
    match v
    case Null => false
    case Bool(b) => b
    case Int(n) => n != 0
    case Float(r) => r != 0.0
    case NotFinite => true
    case Str(s) => s != ""
    case List(items) => items != []
    case Obj(fields) => fields != []
  }

  function Or(a: Json, b: Json): Json { if Truthy(a) then a else b }

  function AsObject(v: Json): Json { if v.Obj? then v else Obj([]) }

  /** What a loop over the value, or over nothing if it is empty, goes through;
      numbers and `true` cannot be looped over. */
  function Elements(v: Json): Option<seq<Json>> {
    if !Truthy(v) then Some([])
    else
      match v
      case List(items) => Some(items)
      case Obj(fields) => Some(seq(|fields|, i requires 0 <= i < |fields| => Str(fields[i].key)))
      case Str(s) => Some(seq(|s|, i requires 0 <= i < |s| => Str([s[i]])))
      case _ => None
  }

  lemma ElementsNone(v: Json)
    ensures Elements(v) == Some([]) <==> !Truthy(v)
  {}

  // ---- searches ----

  /** Child numbers from the root. */
  type Path = seq<nat>

  datatype Hit = Hit(path: Path, value: Json)

  /** A search looks at objects and at the fields of objects. */
  datatype Search = Search(node: Json -> bool, field: Field -> bool)

  const CAP := 16

  function Capped(hits: seq<Hit>): seq<Hit> { if |hits| <= CAP then hits else hits[..CAP] }

  /** All hits in the order of the search: of an object first the object, then
      each field and what is below it. */
  function Hits(s: Search, v: Json, path: Path): seq<Hit>
    decreases v, 1, 0
  {
    match v
    case Obj(fields) => (if s.node(v) then [Hit(path, v)] else []) + FieldHits(s, v, |fields|, path)
    case List(items) => ItemHits(s, v, |items|, path)
    case _ => []
  }

  function FieldHits(s: Search, v: Json, k: nat, path: Path): seq<Hit>
    requires v.Obj? && k <= |v.fields|
    decreases v, 0, k
  {
    if k == 0 then []
    else
      FieldHits(s, v, k - 1, path) + Own(s, v.fields[k - 1], path + [k - 1]) + Hits(s, v.fields[k - 1].value, path + [k - 1])
  }

  function Own(s: Search, f: Field, path: Path): seq<Hit> { if s.field(f) then [Hit(path, f.value)] else [] }

  function ItemHits(s: Search, v: Json, k: nat, path: Path): seq<Hit>
    requires v.List? && k <= |v.items|
    decreases v, 0, k
  {
    if k == 0 then [] else ItemHits(s, v, k - 1, path) + Hits(s, v.items[k - 1], path + [k - 1])
  }

  lemma CappedMore(a: seq<Hit>, b: seq<Hit>)
    ensures Capped(Capped(a) + b) == Capped(a + b)
    ensures |Capped(a)| >= CAP ==> Capped(a + b) == Capped(a)
  {}

  lemma CappedLater(a: seq<Hit>, b: seq<Hit>, c: seq<Hit>)
    requires |Capped(a + b)| >= CAP
    ensures Capped(a + (b + c)) == Capped(a + b)
  {
    assert a + (b + c) == (a + b) + c;
  }

  /** The recursive search: it stops as soon as sixteen hits are collected. */
  method Visit(s: Search, v: Json, path: Path, before: seq<Hit>) returns (evidence: seq<Hit>)
    requires |before| <= CAP
    ensures evidence == Capped(before + Hits(s, v, path))
    decreases v
  {
    evidence := before;
    if |evidence| >= CAP {
      CappedMore(before, Hits(s, v, path));
      return;
    }
    match v {
      case Obj(fields) =>
        ghost var own: seq<Hit> := if s.node(v) then [Hit(path, v)] else [];
        if s.node(v) {
          evidence := evidence + [Hit(path, v)];
        }
        assert evidence == before + own;
        for i := 0 to |fields|
          invariant |evidence| <= CAP && evidence == Capped(before + (own + FieldHits(s, v, i, path)))
        {
          if |evidence| >= CAP {
            Rest(s, v, i, path, before, own);
            return;
          }
          ghost var seen := own + FieldHits(s, v, i, path);
          ghost var mine := Own(s, fields[i], path + [i]);
          var child := path + [i];
          if s.field(fields[i]) { evidence := evidence + [Hit(child, fields[i].value)]; }
          assert evidence == before + (seen + mine);
          evidence := Visit(s, fields[i].value, child, evidence);
          Assoc(before, own, FieldHits(s, v, i, path), mine, Hits(s, fields[i].value, child));
        }
      case List(items) =>
        for i := 0 to |items|
          invariant |evidence| <= CAP && evidence == Capped(before + ItemHits(s, v, i, path))
        {
          if |evidence| >= CAP {
            RestItems(s, v, i, path, before);
            return;
          }
          evidence := Visit(s, items[i], path + [i], evidence);
          assert before + ItemHits(s, v, i, path) + Hits(s, items[i], path + [i]) == before + ItemHits(s, v, i + 1, path);
        }
      case _ =>
    }
  }

  lemma Assoc(before: seq<Hit>, own: seq<Hit>, front: seq<Hit>, mine: seq<Hit>, below: seq<Hit>)
    ensures before + (own + front + mine) + below == before + (own + (front + mine + below))
  {}

  /** Hits behind a full list change nothing. */
  lemma {:induction false} Rest(s: Search, v: Json, k: nat, path: Path, before: seq<Hit>, own: seq<Hit>)
    requires v.Obj? && k <= |v.fields| && |Capped(before + (own + FieldHits(s, v, k, path)))| >= CAP
    ensures Capped(before + (own + FieldHits(s, v, |v.fields|, path))) == Capped(before + (own + FieldHits(s, v, k, path)))
    decreases |v.fields| - k
  {
    if k < |v.fields| {
      var more := Own(s, v.fields[k], path + [k]) + Hits(s, v.fields[k].value, path + [k]);
      var front := own + FieldHits(s, v, k, path);
      assert own + FieldHits(s, v, k + 1, path) == front + more;
      CappedLater(before, front, more);
      Rest(s, v, k + 1, path, before, own);
    }
  }

  lemma {:induction false} RestItems(s: Search, v: Json, k: nat, path: Path, before: seq<Hit>)
    requires v.List? && k <= |v.items| && |Capped(before + ItemHits(s, v, k, path))| >= CAP
    ensures Capped(before + ItemHits(s, v, |v.items|, path)) == Capped(before + ItemHits(s, v, k, path))
    decreases |v.items| - k
  {
    if k < |v.items| {
      CappedLater(before, ItemHits(s, v, k, path), Hits(s, v.items[k], path + [k]));
      RestItems(s, v, k + 1, path, before);
    }
  }

  // ---- nothing is hidden ----

  function Children(v: Json): seq<Json> {
    match v
    case Obj(fields) => seq(|fields|, i requires 0 <= i < |fields| => fields[i].value)
    case List(items) => items
    case _ => []
  }

  /** The value at a path. */
  function At(v: Json, path: Path): Option<Json> {
    if path == [] then Some(v)
    else if path[0] < |Children(v)| then At(Children(v)[path[0]], path[1..])
    else None
  }

  predicate Matches(s: Search, v: Json) {
    v.Obj? && (s.node(v) || exists i | 0 <= i < |v.fields| :: s.field(v.fields[i]))
  }

  ghost predicate Clear(s: Search, v: Json) {
    forall path :: At(v, path).Some? ==> !Matches(s, At(v, path).value)
  }

  lemma ClearBelow(s: Search, v: Json)
    ensures Clear(s, v) <==> !Matches(s, v) && forall i :: 0 <= i < |Children(v)| ==> Clear(s, Children(v)[i])
  {
    var kids := Children(v);
    if Clear(s, v) {
      assert At(v, []) == Some(v);
      forall i | 0 <= i < |kids| ensures Clear(s, kids[i]) {
        forall path | At(kids[i], path).Some? ensures !Matches(s, At(kids[i], path).value) {
          assert ([i] + path)[1..] == path;
          assert At(v, [i] + path) == At(kids[i], path);
        }
      }
    }
    if !Matches(s, v) && forall i :: 0 <= i < |kids| ==> Clear(s, kids[i]) {
      forall path | At(v, path).Some? ensures !Matches(s, At(v, path).value) {
        if path != [] { assert At(v, path) == At(kids[path[0]], path[1..]); }
      }
    }
  }

  /** A search comes back empty if and only if nothing in the whole value matches:
      its cap and its early returns never hide a finding. */
  lemma {:induction false} SearchExact(s: Search, v: Json, path: Path)
    ensures Hits(s, v, path) == [] <==> Clear(s, v)
    decreases v, 1, 0
  {
    ClearBelow(s, v);
    match v {
      case Obj(fields) => FieldsExact(s, v, |fields|, path);
      case List(items) => ItemsExact(s, v, |items|, path);
      case _ =>
    }
  }

  lemma FieldHitsEmpty(s: Search, v: Json, k: nat, path: Path)
    requires v.Obj? && 0 < k <= |v.fields|
    ensures FieldHits(s, v, k, path) == [] <==>
      FieldHits(s, v, k - 1, path) == [] && !s.field(v.fields[k - 1]) && Hits(s, v.fields[k - 1].value, path + [k - 1]) == []
  {}

  lemma {:induction false} FieldsExact(s: Search, v: Json, k: nat, path: Path)
    requires v.Obj? && k <= |v.fields|
    ensures FieldHits(s, v, k, path) == [] <==> forall i :: 0 <= i < k ==> !s.field(v.fields[i]) && Clear(s, Children(v)[i])
    decreases v, 0, k
  {
    hide Clear;
    if k > 0 {
      FieldsExact(s, v, k - 1, path);
      SearchExact(s, v.fields[k - 1].value, path + [k - 1]);
      assert Children(v)[k - 1] == v.fields[k - 1].value;
      FieldHitsEmpty(s, v, k, path);
    }
  }

  lemma {:induction false} ItemsExact(s: Search, v: Json, k: nat, path: Path)
    requires v.List? && k <= |v.items|
    ensures ItemHits(s, v, k, path) == [] <==> forall i :: 0 <= i < k ==> Clear(s, Children(v)[i])
    decreases v, 0, k
  {
    hide Clear;
    if k > 0 {
      ItemsExact(s, v, k - 1, path);
      SearchExact(s, v.items[k - 1], path + [k - 1]);
      assert Children(v)[k - 1] == v.items[k - 1];
      assert ItemHits(s, v, k, path) == ItemHits(s, v, k - 1, path) + Hits(s, v.items[k - 1], path + [k - 1]);
    }
  }
}
