/** Python's built-in `dict` with string keys: a finite map that also
    remembers the order in which its keys were first inserted. */
module OrderedDict {

  /** `order` lists the keys in insertion order; `entries` holds the values. */
  datatype Dict<V> = Dict(order: seq<string>, entries: map<string, V>)

  /** No key occurs twice in `ks`. */
  predicate Distinct(ks: seq<string>) {
    forall i, j :: 0 <= i < j < |ks| ==> ks[i] != ks[j]
  }

  /** The representation invariant of every dict: each key is listed once,
      and the listed keys are exactly the keys that carry a value. */
  predicate Valid<V>(d: Dict<V>) {
    && Distinct(d.order)
    && (forall k :: k in d.order ==> k in d.entries)
    && (forall k :: k in d.entries ==> k in d.order)
  }

  /** The position of the first occurrence of `k` in `ks`. */
  function IndexOf(ks: seq<string>, k: string): (i: int)
    requires k in ks
    ensures 0 <= i < |ks| && ks[i] == k
    ensures forall j :: 0 <= j < i ==> ks[j] != k
  {
    if ks[0] == k then 0 else 1 + IndexOf(ks[1..], k)
  }

  /** A dict display `{ks[0]: vs[0], ks[1]: vs[1], ...}` with distinct keys:
      the keys in the order written, each with its own value. */
  function FromItems<V>(ks: seq<string>, vs: seq<V>): (r: Dict<V>)
    requires |ks| == |vs| && Distinct(ks)
    ensures Valid(r)
    ensures r.order == ks
    ensures forall i :: 0 <= i < |ks| ==> r.entries[ks[i]] == vs[i]
  {
    Dict(ks, map k | k in ks :: vs[IndexOf(ks, k)])
  }

  /** `d[k] = v`: a key already present keeps its position and only its value
      changes; a new key goes to the end. */
  function Put<V>(d: Dict<V>, k: string, v: V): (r: Dict<V>)
    ensures k in d.entries ==> r.order == d.order
    ensures k !in d.entries ==> r.order == d.order + [k]
    ensures r.entries == d.entries[k := v]
  {
    Dict(if k in d.entries then d.order else d.order + [k], d.entries[k := v])
  }

  /** `d[k] = v` keeps every dict a dict. */
  lemma PutValid<V>(d: Dict<V>, k: string, v: V)
    requires Valid(d)
    ensures Valid(Put(d, k, v))
  {
    var order := Put(d, k, v).order;
    if k !in d.entries {
      forall i, j | 0 <= i < j < |order|
        ensures order[i] != order[j]
      {
        if j == |d.order| {
          assert order[i] == d.order[i] && d.order[i] in d.order;
        }
      }
    }
  }

  /** Puts `o.entries[k]` into `d` for each `k` of `ks`, left to right. */
  function PutEach<V>(d: Dict<V>, o: Dict<V>, ks: seq<string>): (r: Dict<V>)
    requires forall k :: k in ks ==> k in o.entries
    ensures forall k :: k in r.entries <==> k in d.entries || k in ks
    ensures forall k :: k in ks ==> r.entries[k] == o.entries[k]
    ensures forall k :: k in d.entries && k !in ks ==> r.entries[k] == d.entries[k]
    decreases |ks|
  {
    if ks == [] then d
    else PutEach(Put(d, ks[0], o.entries[ks[0]]), o, ks[1..])
  }

  /** Putting keys never removes one: the key order only grows, keeps the
      invariant, and is untouched when every key put was already present. */
  lemma {:induction false} PutEachOrder<V>(d: Dict<V>, o: Dict<V>, ks: seq<string>)
    requires forall k :: k in ks ==> k in o.entries
    ensures Valid(d) ==> Valid(PutEach(d, o, ks))
    ensures |PutEach(d, o, ks).order| >= |d.order|
    ensures (forall k :: k in ks ==> k in d.entries) ==> PutEach(d, o, ks).order == d.order
    decreases |ks|
  {
    if ks != [] {
      if Valid(d) {
        PutValid(d, ks[0], o.entries[ks[0]]);
      }
      PutEachOrder(Put(d, ks[0], o.entries[ks[0]]), o, ks[1..]);
    }
  }

  /** The tail of a list without duplicates has none, and lacks the head. */
  lemma DistinctTail(ks: seq<string>)
    requires |ks| > 0 && Distinct(ks)
    ensures Distinct(ks[1..]) && ks[0] !in ks[1..]
  {
    forall j | 0 <= j < |ks[1..]|
      ensures ks[1..][j] != ks[0]
    {
      assert ks[1..][j] == ks[j + 1];
    }
  }

  /** Appending the head of `ks` and then its tail appends `ks`. */
  lemma AppendHead(a: seq<string>, ks: seq<string>)
    requires |ks| > 0
    ensures (a + [ks[0]]) + ks[1..] == a + ks
  {
    forall i | 0 <= i < |a + ks|
      ensures ((a + [ks[0]]) + ks[1..])[i] == (a + ks)[i]
    {
    }
  }

  /** Two lists without duplicates and without a key in common concatenate
      to a list without duplicates. */
  lemma DistinctConcat(a: seq<string>, b: seq<string>)
    requires Distinct(a) && Distinct(b)
    requires forall k :: k in a ==> k !in b
    ensures Distinct(a + b)
  {
    forall i, j | 0 <= i < j < |a + b|
      ensures (a + b)[i] != (a + b)[j]
    {
      if i < |a| && |a| <= j {
        assert (a + b)[i] == a[i] && a[i] in a;
        assert (a + b)[j] == b[j - |a|] && b[j - |a|] in b;
      }
    }
  }

  /** Putting distinct keys that are all new appends them in order. */
  lemma {:induction false} PutEachAppends<V>(d: Dict<V>, o: Dict<V>, ks: seq<string>)
    requires forall k :: k in ks ==> k in o.entries
    requires Distinct(ks)
    requires forall k :: k in ks ==> k !in d.entries
    ensures PutEach(d, o, ks).order == d.order + ks
    decreases |ks|
  {
    if ks != [] {
      var d' := Put(d, ks[0], o.entries[ks[0]]);
      DistinctTail(ks);
      assert forall k :: k in ks[1..] ==> k !in d'.entries by {
        assert forall k :: k in ks[1..] ==> k in ks && k != ks[0];
      }
      PutEachAppends(d', o, ks[1..]);
      calc {
        PutEach(d, o, ks).order;
        PutEach(d', o, ks[1..]).order;
        d'.order + ks[1..];
        (d.order + [ks[0]]) + ks[1..];
        { AppendHead(d.order, ks); }
        d.order + ks;
      }
    }
  }

  /** `d.update(o)`: every entry of `o`, in `o`'s order, is put into `d`. */
  function Update<V>(d: Dict<V>, o: Dict<V>): (r: Dict<V>)
    requires Valid(o)
    ensures r.entries == d.entries + o.entries
  {
    PutEach(d, o, o.order)
  }

  /** What `update` does to the key order: nothing when every key of `o` is
      already in `d`; `o`'s keys appended in `o`'s order when none is. */
  lemma UpdateOrder<V>(d: Dict<V>, o: Dict<V>)
    requires Valid(o)
    ensures Valid(d) ==> Valid(Update(d, o))
    ensures |Update(d, o).order| >= |d.order|
    ensures (forall k :: k in o.entries ==> k in d.entries) ==> Update(d, o).order == d.order
    ensures (forall k :: k in o.entries ==> k !in d.entries) ==> Update(d, o).order == d.order + o.order
  {
    PutEachOrder(d, o, o.order);
    if forall k :: k in o.entries ==> k !in d.entries {
      PutEachAppends(d, o, o.order);
    }
  }

  /** `list(d.values())`: the values in key order. */
  function Values<V>(d: Dict<V>): (vs: seq<V>)
    requires Valid(d)
    ensures |vs| == |d.order|
    ensures forall i :: 0 <= i < |d.order| ==> vs[i] == d.entries[d.order[i]]
  {
    seq(|d.order|, i requires 0 <= i < |d.order| => d.entries[d.order[i]])
  }

  /** A dict display reads back as the values it was written with. */
  lemma ValuesFromItems<V>(ks: seq<string>, vs: seq<V>)
    requires |ks| == |vs| && Distinct(ks)
    ensures Values(FromItems(ks, vs)) == vs
  {
  }

  /** Every dict equals the display of its keys and values: the key order
      and the values determine it. */
  lemma FromItemsValues<V>(d: Dict<V>)
    requires Valid(d)
    ensures FromItems(d.order, Values(d)) == d
  {
    var r := FromItems(d.order, Values(d));
    forall k | k in d.entries
      ensures k in r.entries && r.entries[k] == d.entries[k]
    {
      var i :| 0 <= i < |d.order| && d.order[i] == k;
    }
    assert r.entries == d.entries;
  }

  /** A dict is the display of its key order and the values it holds under
      those keys. */
  lemma DisplayOf<V>(d: Dict<V>, ks: seq<string>, vs: seq<V>)
    requires Valid(d) && d.order == ks && |vs| == |ks|
    requires forall i :: 0 <= i < |ks| ==> d.entries[ks[i]] == vs[i]
    ensures d == FromItems(ks, vs)
  {
    assert Values(d) == vs;
    FromItemsValues(d);
  }
}
