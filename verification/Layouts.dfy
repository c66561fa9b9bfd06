/**
 Layout conversion of pkg/sinks/tmpl.go: a tree of templates is rendered leaf by leaf. Maps are ranged
 over in any order; the result does not depend on it.
 */
module Layouts {
  import opened Wrappers

  datatype Key = StringKey(s: string) | OtherKey(n: int)

  /** A layout as YAML decodes it. */
  datatype Layout =
    | Text(s: string)
    | AnyMap(anyFields: map<Key, Layout>)
    | StringMap(fields: map<string, Layout>)
    | List(items: seq<Layout>)
    | Scalar(n: int)            // anything else

  datatype Value = RText(s: string) | RMap(fields: map<string, Value>) | RList(items: seq<Value>) | RNull

  /** GetString: parse and execute one template. */
  type Render = string -> Option<string>

  predicate StringKeys(m: map<Key, Layout>) { forall k :: k in m ==> k.StringKey? }

  predicate Convertible(render: Render, l: Layout) {
    match l
    case Text(s) => render(s).Some?
    case AnyMap(m) => StringKeys(m) && forall k :: k in m ==> Convertible(render, m[k])
    case StringMap(m) => forall k :: k in m ==> Convertible(render, m[k])
    case List(xs) => forall i :: 0 <= i < |xs| ==> Convertible(render, xs[i])
    case Scalar(_) => true
  }

  /** The same shape, key by key and element by element, with texts rendered and other scalars null. */
  ghost predicate Renders(render: Render, l: Layout, v: Value) {
    match l
    case Text(s) => v.RText? && render(s) == Some(v.s)
    case AnyMap(m) =>
      && v.RMap? && StringKeys(m)
      && (forall k :: k in m ==> k.StringKey? ==> k.s in v.fields)
      && (forall s :: s in v.fields ==> StringKey(s) in m && Renders(render, m[StringKey(s)], v.fields[s]))
    case StringMap(m) =>
      && v.RMap? && v.fields.Keys == m.Keys
      && (forall k :: k in m ==> Renders(render, m[k], v.fields[k]))
    case List(xs) =>
      && v.RList? && |v.items| == |xs|
      && (forall i :: 0 <= i < |xs| ==> Renders(render, xs[i], v.items[i]))
    case Scalar(_) => v == RNull
  }

  function Names(m: map<Key, Layout>): set<string> { set k | k in m && k.StringKey? :: k.s }

  function Convert(render: Render, l: Layout): Value
    requires Convertible(render, l)
  {
    match l
    case Text(s) => RText(render(s).value)
    case AnyMap(m) => RMap(map s | s in Names(m) :: Convert(render, m[StringKey(s)]))
    case StringMap(m) => RMap(map k | k in m :: Convert(render, m[k]))
    case List(xs) => RList(seq(|xs|, i requires 0 <= i < |xs| => Convert(render, xs[i])))
    case Scalar(_) => RNull
  }

  /** A rendering exists exactly for convertible layouts, and it is unique. */
  lemma {:induction false} RendersIff(render: Render, l: Layout, v: Value)
    ensures Renders(render, l, v) <==> Convertible(render, l) && v == Convert(render, l)
    decreases l
  {
    match l
    case Text(s) =>
    case Scalar(_) =>
    case List(xs) => ListRenders(render, xs, v);
    case StringMap(m) => MapRenders(render, m, v);
    case AnyMap(m) => AnyMapRenders(render, m, v);
  }

  lemma {:induction false} ListRenders(render: Render, xs: seq<Layout>, v: Value)
    ensures Renders(render, List(xs), v) <==> Convertible(render, List(xs)) && v == Convert(render, List(xs))
    decreases List(xs), 0
  {
    if v.RList? && |v.items| == |xs| {
      forall i | 0 <= i < |xs|
        ensures Renders(render, xs[i], v.items[i])
                <==> Convertible(render, xs[i]) && v.items[i] == Convert(render, xs[i])
      {
        RendersIff(render, xs[i], v.items[i]);
      }
      if Renders(render, List(xs), v) { assert v.items == Convert(render, List(xs)).items; }
    }
  }

  lemma {:induction false} MapRenders(render: Render, m: map<string, Layout>, v: Value)
    ensures Renders(render, StringMap(m), v)
            <==> Convertible(render, StringMap(m)) && v == Convert(render, StringMap(m))
    decreases StringMap(m), 0
  {
    if v.RMap? && v.fields.Keys == m.Keys {
      forall k | k in m
        ensures Renders(render, m[k], v.fields[k])
                <==> Convertible(render, m[k]) && v.fields[k] == Convert(render, m[k])
      {
        RendersIff(render, m[k], v.fields[k]);
      }
      if Renders(render, StringMap(m), v) { assert v.fields == Convert(render, StringMap(m)).fields; }
    }
  }

  lemma {:induction false} AnyMapRenders(render: Render, m: map<Key, Layout>, v: Value)
    ensures Renders(render, AnyMap(m), v) <==> Convertible(render, AnyMap(m)) && v == Convert(render, AnyMap(m))
    decreases AnyMap(m), 0
  {
    if Renders(render, AnyMap(m), v) {
      forall s | s in Names(m) ensures s in v.fields { assert StringKey(s) in m; }
      assert v.fields.Keys == Names(m);
    }
    if v.RMap? && StringKeys(m) && v.fields.Keys == Names(m) {
      forall s | s in v.fields
        ensures var k := StringKey(s);
                k in m && (Renders(render, m[k], v.fields[s]) <==>
                           Convertible(render, m[k]) && v.fields[s] == Convert(render, m[k]))
      {
        RendersIff(render, m[StringKey(s)], v.fields[s]);
      }
      if Renders(render, AnyMap(m), v) {
        forall k | k in m ensures Convertible(render, m[k]) { assert k == StringKey(k.s) && k.s in v.fields; }
        assert v.fields == Convert(render, AnyMap(m)).fields;
      }
    }
  }

  // ---------- When conversion fails ----------

  /** `x` is `l` or lies somewhere below it. */
  ghost predicate Within(x: Layout, l: Layout) {
    x == l ||
    match l
    case AnyMap(m) => exists k :: k in m && Within(x, m[k])
    case StringMap(m) => exists k :: k in m && Within(x, m[k])
    case List(xs) => exists i :: 0 <= i < |xs| && Within(x, xs[i])
    case _ => false
  }

  /** A text that does not render, or a map with a key that is not a string. */
  predicate Offending(render: Render, x: Layout) {
    (x.Text? && render(x.s).None?) || (x.AnyMap? && !StringKeys(x.anyFields))
  }

  lemma {:induction false} OffenderFound(render: Render, l: Layout) returns (x: Layout)
    requires !Convertible(render, l)
    ensures Within(x, l) && Offending(render, x)
  {
    match l
    case Text(_) => x := l;
    case AnyMap(m) =>
      if StringKeys(m) {
        var k :| k in m && !Convertible(render, m[k]);
        x := OffenderFound(render, m[k]);
      } else {
        x := l;
      }
    case StringMap(m) =>
      var k :| k in m && !Convertible(render, m[k]);
      x := OffenderFound(render, m[k]);
    case List(xs) =>
      var i :| 0 <= i < |xs| && !Convertible(render, xs[i]);
      x := OffenderFound(render, xs[i]);
  }

  lemma {:induction false} OffenderFails(render: Render, l: Layout, x: Layout)
    requires Within(x, l) && Offending(render, x)
    ensures !Convertible(render, l)
    decreases l
  {
    if x != l {
      match l
      case AnyMap(m) =>
        var k :| k in m && Within(x, m[k]);
        OffenderFails(render, m[k], x);
      case StringMap(m) =>
        var k :| k in m && Within(x, m[k]);
        OffenderFails(render, m[k], x);
      case List(xs) =>
        var i :| 0 <= i < |xs| && Within(x, xs[i]);
        OffenderFails(render, xs[i], x);
    }
  }

  /** Conversion fails exactly if somewhere in the tree a text does not render or a map has a key that is
      not a string. */
  lemma FailsIff(render: Render, l: Layout)
    ensures !Convertible(render, l) <==> exists x :: Within(x, l) && Offending(render, x)
  {
    if !Convertible(render, l) {
      var x := OffenderFound(render, l);
    }
    if x :| Within(x, l) && Offending(render, x) {
      OffenderFails(render, l, x);
    }
  }

  // ---------- What is where ----------

  datatype Place = Field(s: string) | Item(i: nat)

  function LayoutAt(l: Layout, path: seq<Place>): Option<Layout>
    decreases |path|
  {
    if |path| == 0 then Some(l)
    else
      match (l, path[0])
      case (AnyMap(m), Field(s)) => if StringKey(s) in m then LayoutAt(m[StringKey(s)], path[1..]) else None
      case (StringMap(m), Field(s)) => if s in m then LayoutAt(m[s], path[1..]) else None
      case (List(xs), Item(i)) => if i < |xs| then LayoutAt(xs[i], path[1..]) else None
      case _ => None
  }

  function ValueAt(v: Value, path: seq<Place>): Option<Value>
    decreases |path|
  {
    if |path| == 0 then Some(v)
    else
      match (v, path[0])
      case (RMap(m), Field(s)) => if s in m then ValueAt(m[s], path[1..]) else None
      case (RList(xs), Item(i)) => if i < |xs| then ValueAt(xs[i], path[1..]) else None
      case _ => None
  }

  /** Every place of the layout is a place of the result and the other way round: texts are rendered there,
      numbers and the like have become null, and maps and lists are still maps and lists. */
  lemma {:induction false} ConvertedAt(render: Render, l: Layout, path: seq<Place>)
    requires Convertible(render, l)
    ensures var x, y := LayoutAt(l, path), ValueAt(Convert(render, l), path);
            && (x.Some? <==> y.Some?)
            && (x.Some? ==>
                  match x.value
                  case Text(s) => render(s).Some? && y.value == RText(render(s).value)
                  case Scalar(_) => y.value.RNull?
                  case List(xs) => y.value.RList? && |y.value.items| == |xs|
                  case AnyMap(m) => y.value.RMap? && (forall s :: s in y.value.fields <==> StringKey(s) in m)
                  case StringMap(m) => y.value.RMap? && y.value.fields.Keys == m.Keys)
    decreases |path|
  {
    if |path| == 0 {
      if l.AnyMap? { NamesAreKeys(l.anyFields); }
    } else {
      match (l, path[0])
      case (AnyMap(m), Field(s)) =>
        NamesAreKeys(m);
        if StringKey(s) in m { ConvertedAt(render, m[StringKey(s)], path[1..]); }
      case (StringMap(m), Field(s)) => if s in m { ConvertedAt(render, m[s], path[1..]); }
      case (List(xs), Item(i)) => if i < |xs| { ConvertedAt(render, xs[i], path[1..]); }
      case _ =>
    }
  }

  lemma NamesAreKeys(m: map<Key, Layout>)
    ensures forall s :: s in Names(m) <==> StringKey(s) in m
  {
    forall s | StringKey(s) in m ensures s in Names(m) { assert StringKey(s).s == s; }
  }

  // ---------- Implementation ----------

  method ConvertTemplate(render: Render, value: Layout) returns (r: Option<Value>)
    ensures r == if Convertible(render, value) then Some(Convert(render, value)) else None
    decreases value, 1
  {
    match value {
      case Text(s) =>
        var rendered := render(s);
        if rendered.None? { return None; }
        r := Some(RText(rendered.value));
      case AnyMap(m) => r := ConvertAnyMap(render, m);
      case StringMap(m) =>
        var res := ConvertLayoutTemplate(render, m);
        if res.None? { return None; }
        r := Some(RMap(res.value));
      case List(xs) => r := ConvertList(render, xs);
      case Scalar(_) => r := Some(RNull);
    }
  }

  /** Converts a map value by value, in any order, and stops at the first failure. */
  method ConvertLayoutTemplate(render: Render, layout: map<string, Layout>) returns (r: Option<map<string, Value>>)
    ensures r == if Convertible(render, StringMap(layout)) then Some(Convert(render, StringMap(layout)).fields)
                 else None
    decreases StringMap(layout), 0
  {
    var result: map<string, Value> := map[];
    var rest := layout.Keys;
    while rest != {}
      invariant rest <= layout.Keys && result.Keys == layout.Keys - rest
      invariant forall k :: k in result ==> Convertible(render, layout[k]) && result[k] == Convert(render, layout[k])
    {
      var key :| key in rest;
      var m := ConvertTemplate(render, layout[key]);
      if m.None? { return None; }
      result := result[key := m.value];
      rest := rest - {key};
    }
    assert Convertible(render, StringMap(layout));
    assert result == Convert(render, StringMap(layout)).fields;
    r := Some(result);
  }

  method ConvertAnyMap(render: Render, m: map<Key, Layout>) returns (r: Option<Value>)
    ensures r == if Convertible(render, AnyMap(m)) then Some(Convert(render, AnyMap(m))) else None
    decreases AnyMap(m), 0
  {
    var strKeysMap: map<string, Value> := map[];
    var rest := m.Keys;
    while rest != {}
      invariant rest <= m.Keys
      invariant forall k :: k in m && k !in rest ==> k.StringKey? && k.s in strKeysMap
      invariant forall s :: s in strKeysMap ==> StringKey(s) in m && StringKey(s) !in rest
      invariant forall s :: s in strKeysMap ==>
                  Convertible(render, m[StringKey(s)]) && strKeysMap[s] == Convert(render, m[StringKey(s)])
    {
      var k :| k in rest;
      var res := ConvertTemplate(render, m[k]);
      if res.None? { return None; }
      if !k.StringKey? {
        assert !StringKeys(m);
        return None;
      }
      strKeysMap := strKeysMap[k.s := res.value];
      rest := rest - {k};
    }
    forall k | k in m ensures Convertible(render, m[k]) { assert k == StringKey(k.s); }
    assert strKeysMap == Convert(render, AnyMap(m)).fields;
    r := Some(RMap(strKeysMap));
  }

  method ConvertList(render: Render, v: seq<Layout>) returns (r: Option<Value>)
    ensures r == if Convertible(render, List(v)) then Some(Convert(render, List(v))) else None
    decreases List(v), 0
  {
    var listConf := new Value[|v|](_ => RNull);
    for i := 0 to |v|
      invariant forall j :: 0 <= j < i ==> Convertible(render, v[j]) && listConf[j] == Convert(render, v[j])
    {
      var t := ConvertTemplate(render, v[i]);
      if t.None? { return None; }
      listConf[i] := t.value;
    }
    assert listConf[..] == Convert(render, List(v)).items;
    r := Some(RList(listConf[..]));
  }
}
