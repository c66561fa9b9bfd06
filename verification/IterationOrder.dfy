/**
 Go ranges over a map in any order. When a loop renames the keys into a new map, a later key overwrites an
 earlier one that got the same name; this module says exactly which results that can have.
 */
module IterationOrder {

  /** An iteration order: every key exactly once. */
  ghost predicate Enumerates(keys: set<string>, order: seq<string>) {
    UpTo(keys, {}, order)
  }

  /** `order` has every key but the remaining ones, once. */
  ghost predicate UpTo(keys: set<string>, rest: set<string>, order: seq<string>) {
    && rest <= keys
    && (forall i :: 0 <= i < |order| ==> order[i] in keys && order[i] !in rest)
    && (forall k :: k in keys ==> k in order || k in rest)
    && (forall i, j :: 0 <= i < j < |order| ==> order[i] != order[j])
  }

  /** One pass over the map in the given order. */
  function InOrder<V>(rename: string -> string, m: map<string, V>, order: seq<string>): map<string, V>
    requires forall i :: 0 <= i < |order| ==> order[i] in m
  {
    if |order| == 0 then map[]
    else
      var n := |order| - 1;
      InOrder(rename, m, order[..n])[rename(order[n]) := m[order[n]]]
  }

  lemma Visit<V>(rename: string -> string, m: map<string, V>, rest: set<string>, order: seq<string>, key: string)
    requires UpTo(m.Keys, rest, order) && key in rest
    ensures UpTo(m.Keys, rest - {key}, order + [key])
    ensures InOrder(rename, m, order + [key]) == InOrder(rename, m, order)[rename(key) := m[key]]
  {
    assert (order + [key])[..|order|] == order;
  }

  /** The new keys are the renamed ones, and each carries the value of a key it stems from. */
  ghost predicate Carries<V(!new)>(rename: string -> string, m: map<string, V>, w: map<string, V>) {
    && (forall k :: k in m ==> rename(k) in w)
    && (forall k' :: k' in w ==> exists k :: k in m && rename(k) == k' && m[k] == w[k'])
  }

  /** Any other key that got the same name could have been carried instead. */
  lemma CarriesInstead<V(!new)>(rename: string -> string, m: map<string, V>, w: map<string, V>, k: string)
    requires Carries(rename, m, w) && k in m
    ensures Carries(rename, m, w[rename(k) := m[k]])
  {
    var w' := w[rename(k) := m[k]];
    forall k' | k' in w' ensures exists j :: j in m && rename(j) == k' && m[j] == w'[k'] {
      if k' != rename(k) {
        var j :| j in m && rename(j) == k' && m[j] == w[k'];
        assert m[j] == w'[k'];
      }
    }
  }

  lemma {:induction false} Carried<V>(rename: string -> string, m: map<string, V>, order: seq<string>)
    requires forall i :: 0 <= i < |order| ==> order[i] in m
    ensures forall k :: k in order ==> rename(k) in InOrder(rename, m, order)
    ensures forall k' :: k' in InOrder(rename, m, order) ==>
              exists k :: k in m && rename(k) == k' && InOrder(rename, m, order)[k'] == m[k]
  {
    if |order| > 0 {
      Carried(rename, m, order[..|order| - 1]);
      assert order == order[..|order| - 1] + [order[|order| - 1]];
    }
  }

  lemma {:induction false} Enumeration(s: set<string>) returns (order: seq<string>)
    ensures Enumerates(s, order)
  {
    if s == {} {
      order := [];
    } else {
      var k :| k in s;
      var rest := Enumeration(s - {k});
      order := rest + [k];
    }
  }

  /** Keys at the end of the order that are renamed differently prevail. */
  lemma {:induction false} LastPrevail<V>(rename: string -> string, m: map<string, V>, a: seq<string>, b: seq<string>)
    requires forall i :: 0 <= i < |a| ==> a[i] in m
    requires forall i :: 0 <= i < |b| ==> b[i] in m
    requires forall i, j :: 0 <= i < j < |b| ==> rename(b[i]) != rename(b[j])
    ensures forall i :: 0 <= i < |a + b| ==> (a + b)[i] in m
    ensures forall i :: 0 <= i < |b| ==>
              rename(b[i]) in InOrder(rename, m, a + b) && InOrder(rename, m, a + b)[rename(b[i])] == m[b[i]]
  {
    if |b| > 0 {
      var n := |b| - 1;
      LastPrevail(rename, m, a, b[..n]);
      assert (a + b)[..|a| + n] == a + b[..n] && (a + b)[|a| + n] == b[n];
    }
  }

  /** The order in which the given keys come last. */
  lemma Ending(keys: set<string>, last: set<string>) returns (a: seq<string>, b: seq<string>)
    requires last <= keys
    ensures Enumerates(keys, a + b) && Enumerates(keys - last, a) && Enumerates(last, b)
  {
    a := Enumeration(keys - last);
    b := Enumeration(last);
    forall i | 0 <= i < |a + b| ensures (a + b)[i] in keys {
      if i < |a| { assert a[i] in keys - last; } else { assert b[i - |a|] in last; }
    }
    forall i, j | 0 <= i < j < |a + b| ensures (a + b)[i] != (a + b)[j] {
      if i < |a| <= j { assert a[i] in keys - last && b[j - |a|] in last; }
    }
  }

  /** Every choice of values is made by some order. */
  lemma ChoiceMade<V(!new)>(rename: string -> string, m: map<string, V>, w: map<string, V>) returns (order: seq<string>)
    requires Carries(rename, m, w)
    ensures Enumerates(m.Keys, order) && InOrder(rename, m, order) == w
  {
    var chosen := map k' | k' in w :: var k :| k in m && rename(k) == k' && m[k] == w[k']; k;
    var a, b := Ending(m.Keys, chosen.Values);
    assert Represents(rename, m, w, chosen);
    ChosenPrevail(rename, m, w, chosen, a, b);
    order := a + b;
  }

  /** For each new key one of the keys whose value it carries. */
  ghost predicate Represents<V(!new)>(rename: string -> string, m: map<string, V>, w: map<string, V>,
                                      chosen: map<string, string>)
  {
    && chosen.Keys == w.Keys
    && forall k' :: k' in w ==> chosen[k'] in m && rename(chosen[k']) == k' && m[chosen[k']] == w[k']
  }

  lemma ChosenPrevail<V(!new)>(rename: string -> string, m: map<string, V>, w: map<string, V>,
                               chosen: map<string, string>, a: seq<string>, b: seq<string>)
    requires Carries(rename, m, w) && Represents(rename, m, w, chosen)
    requires Enumerates(m.Keys, a + b) && Enumerates(chosen.Values, b)
    ensures InOrder(rename, m, a + b) == w
  {
    NoOtherKeys(rename, m, w, a + b);
    AllPrevail(rename, m, w, chosen, a, b);
    var r := InOrder(rename, m, a + b);
    assert r.Keys == w.Keys;
  }

  lemma NoOtherKeys<V(!new)>(rename: string -> string, m: map<string, V>, w: map<string, V>, order: seq<string>)
    requires Carries(rename, m, w) && Enumerates(m.Keys, order)
    ensures InOrder(rename, m, order).Keys <= w.Keys
  {
    Carried(rename, m, order);
  }

  lemma AllPrevail<V(!new)>(rename: string -> string, m: map<string, V>, w: map<string, V>,
                            chosen: map<string, string>, a: seq<string>, b: seq<string>)
    requires Represents(rename, m, w, chosen)
    requires Enumerates(m.Keys, a + b) && Enumerates(chosen.Values, b)
    ensures forall k' :: k' in w ==> k' in InOrder(rename, m, a + b) && InOrder(rename, m, a + b)[k'] == w[k']
  {
    forall k' | k' in w ensures k' in InOrder(rename, m, a + b) && InOrder(rename, m, a + b)[k'] == w[k'] {
      PrevailsAt(rename, m, w, chosen, a, b, k');
    }
  }

  lemma PrevailsAt<V(!new)>(rename: string -> string, m: map<string, V>, w: map<string, V>,
                            chosen: map<string, string>, a: seq<string>, b: seq<string>, k': string)
    requires Represents(rename, m, w, chosen) && k' in w
    requires Enumerates(m.Keys, a + b) && Enumerates(chosen.Values, b)
    ensures k' in InOrder(rename, m, a + b) && InOrder(rename, m, a + b)[k'] == w[k']
  {
    forall i | 0 <= i < |b| ensures b[i] in m && rename(b[i]) in w && chosen[rename(b[i])] == b[i] {
      assert b[i] in chosen.Values;
    }
    forall i | 0 <= i < |a| ensures a[i] in m { assert (a + b)[i] == a[i]; }
    LastPrevail(rename, m, a, b);
    assert chosen[k'] in chosen.Values;
    var i :| 0 <= i < |b| && b[i] == chosen[k'];
  }

  /** The results of all iteration orders are exactly the maps that carry a value for each renamed key. */
  lemma OutcomesIff<V(!new)>(rename: string -> string, m: map<string, V>, w: map<string, V>)
    ensures (exists order :: Enumerates(m.Keys, order) && InOrder(rename, m, order) == w) <==> Carries(rename, m, w)
  {
    if Carries(rename, m, w) {
      var order := ChoiceMade(rename, m, w);
    }
    if order :| Enumerates(m.Keys, order) && InOrder(rename, m, order) == w {
      Carried(rename, m, order);
    }
  }
}
