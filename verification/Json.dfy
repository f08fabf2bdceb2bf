/** JSON trees as far as their strings go, and `_strings` of `overlay.py`. */
module Json {

  /** Numbers, booleans and null hold no string. */
  datatype Tree = Text(text: string) | Other | List(items: seq<Tree>) | Dict(fields: Fields)

  type Fields = seq<(string, Tree)>

  /** The string occurs in the tree, as a value or as a key. */
  ghost predicate Occurs(s: string, t: Tree)
    decreases t
  {
    match t
    case Text(text) => s == text
    case Other => false
    case List(items) => exists i :: 0 <= i < |items| && Occurs(s, items[i])
    case Dict(fields) => exists i :: 0 <= i < |fields| && (s == fields[i].0 || Occurs(s, fields[i].1))
  }

  /** `_strings`: adds every string of the tree, keys included, to `found`. */
  method CollectStrings(t: Tree, found: set<string>) returns (r: set<string>)
    ensures forall s :: s in r <==> s in found || Occurs(s, t)
    decreases t
  {
    r := found;
    match t
    case Text(text) => r := r + {text};
    case Other =>
    case List(items) =>
      for i := 0 to |items|
        invariant forall s :: s in r <==> s in found || exists j :: 0 <= j < i && Occurs(s, items[j])
      {
        r := CollectStrings(items[i], r);
      }
    case Dict(fields) =>
      for i := 0 to |fields|
        invariant forall s :: s in r <==> s in found || exists j :: 0 <= j < i && (s == fields[j].0 || Occurs(s, fields[j].1))
      {
        r := CollectStrings(fields[i].1, r + {fields[i].0});
      }
  }

  // ----- drawing every string from another tree

  /** Every string of `t` is in `from`, or among the extra ones. */
  ghost predicate Draws(t: Tree, from: Tree, extra: set<string>)
  {
    forall s :: Occurs(s, t) ==> Occurs(s, from) || s in extra
  }

  lemma ListDraws(items: seq<Tree>, from: seq<Tree>, extra: set<string>)
    requires forall t :: t in items ==> exists u :: u in from && Draws(t, u, extra)
    ensures Draws(List(items), List(from), extra)
  {
    forall s | Occurs(s, List(items))
      ensures Occurs(s, List(from)) || s in extra
    {
      var i :| 0 <= i < |items| && Occurs(s, items[i]);
      assert items[i] in items;
      var u :| u in from && Draws(items[i], u, extra);
      assert Occurs(s, u) || s in extra;
    }
  }

  /** The same keys in the same order, each value drawing from its counterpart. */
  lemma DictDraws(fields: Fields, from: Fields, extra: set<string>)
    requires |fields| == |from|
    requires forall i :: 0 <= i < |fields| ==> fields[i].0 == from[i].0 && Draws(fields[i].1, from[i].1, extra)
    ensures Draws(Dict(fields), Dict(from), extra)
  {
    forall s | Occurs(s, Dict(fields))
      ensures Occurs(s, Dict(from)) || s in extra
    {
      var i :| 0 <= i < |fields| && (s == fields[i].0 || Occurs(s, fields[i].1));
      assert s == from[i].0 || Occurs(s, from[i].1) || s in extra;
    }
  }

  lemma DictConcat(s: string, a: Fields, b: Fields)
    ensures Occurs(s, Dict(a + b)) <==> Occurs(s, Dict(a)) || Occurs(s, Dict(b))
  {
    if i :| 0 <= i < |a| && (s == a[i].0 || Occurs(s, a[i].1)) {
      assert (a + b)[i] == a[i];
    }
    if i :| 0 <= i < |b| && (s == b[i].0 || Occurs(s, b[i].1)) {
      assert (a + b)[|a| + i] == b[i];
    }
  }

  /** A list of dumped items: each draws from some item of the other list. */
  function DumpAll<T>(items: seq<T>, dump: T -> Tree): Tree
  {
    List(seq(|items|, i requires 0 <= i < |items| => dump(items[i])))
  }

  lemma DumpAllDraws<T>(items: seq<T>, from: seq<T>, dump: T -> Tree, extra: set<string>)
    requires forall x :: x in items ==> exists y :: y in from && Draws(dump(x), dump(y), extra)
    ensures Draws(DumpAll(items, dump), DumpAll(from, dump), extra)
  {
    var ts := seq(|items|, i requires 0 <= i < |items| => dump(items[i]));
    var us := seq(|from|, i requires 0 <= i < |from| => dump(from[i]));
    forall t | t in ts
      ensures exists u :: u in us && Draws(t, u, extra)
    {
      var i :| 0 <= i < |ts| && t == ts[i];
      assert items[i] in items;
      var y :| y in from && Draws(dump(items[i]), dump(y), extra);
      var j :| 0 <= j < |from| && from[j] == y;
      assert us[j] in us && Draws(t, us[j], extra);
    }
    ListDraws(ts, us, extra);
  }
}
