/**
  The index helper: each product key gets the next index, and finalize adds, for every group of keys that differ in the
  process name only, an entry for the empty process name that leads to the preferred process.
 */
module ProductResolverIndexHelpers {
  import opened Options

  /** Type, module label and product instance name are one `group`.  Names are numbered in their order, the empty one
      is 0. */
  datatype ProductKey = ProductKey(group: nat, process: nat)

  type Indices = map<ProductKey, nat>

  const WIDTH := 0x1_0000_0000

  /** The value of a default-constructed ProductResolverIndex. */
  const UNINITIALIZED := 0xFFFF_FFFF

  predicate Before(a: ProductKey, b: ProductKey) {
    a.group < b.group || (a.group == b.group && a.process < b.process)
  }

  /** std::find on the process names, as a position; a name not listed is at the end. */
  function Position(order: seq<nat>, name: nat): (p: nat)
    ensures p <= |order|
    ensures p < |order| ==> order[p] == name
    ensures forall i :: 0 <= i < p ==> order[i] != name
  {
    if order == [] then 0
    else if order[0] == name then 0
    else
      var p := Position(order[1..], name);
      assert forall i :: 0 < i < p + 1 ==> order[i] == order[1..][i - 1];
      p + 1
  }

  // ----- The specification of finalize -----

  /** p is preferred to q. */
  predicate Preferred(order: seq<nat>, p: nat, q: nat) {
    Position(order, p) < Position(order, q) || (Position(order, p) == Position(order, q) && p <= q)
  }

  /** Among the named processes of the group that have a key, p comes first: by its place in the order, unlisted ones
      last, and then by name. */
  ghost predicate IsDefault(keys: set<ProductKey>, order: seq<nat>, group: nat, p: nat) {
    && p > 0 && ProductKey(group, p) in keys
    && forall q: nat :: q > 0 && ProductKey(group, q) in keys ==> Preferred(order, p, q)
  }

  ghost predicate HasNamed(keys: set<ProductKey>, group: nat) {
    exists p: nat :: p > 0 && ProductKey(group, p) in keys
  }

  ghost predicate HasGroup(keys: set<ProductKey>, group: nat) {
    exists k :: k in keys && k.group == group
  }

  /** m' is m with the entries for the empty process name. */
  ghost predicate IsFinalized(m: Indices, order: seq<nat>, m': Indices) {
    && (forall k :: k in m' <==> k in m || (k.process == 0 && HasGroup(m.Keys, k.group)))
    && (forall k :: k in m && k.process > 0 ==> m'[k] == m[k])
    && (forall g, p: nat :: IsDefault(m.Keys, order, g, p) ==> m'[ProductKey(g, 0)] == m[ProductKey(g, p)])
    && (forall k :: k in m && k.process == 0 && !HasNamed(m.Keys, k.group) ==> m'[k] == m[k])
  }

  // ----- The helper -----

  /** Ok, or the key that exists already. */
  datatype Inserted = Ok | AlreadyExists(key: ProductKey)

  class ProductResolverIndexHelper {
    var keyToIndex: Indices

    constructor ()
      ensures keyToIndex == map[]
    {
      keyToIndex := map[];
    }

    method Insert(key: ProductKey) returns (r: Inserted)
      modifies this
      ensures r == if key in old(keyToIndex) then AlreadyExists(key) else Ok
      ensures key in old(keyToIndex) ==> keyToIndex == old(keyToIndex)
      ensures key !in old(keyToIndex) ==> keyToIndex == old(keyToIndex)[key := |old(keyToIndex)| % WIDTH]
      ensures keyToIndex == AfterInsert(old(keyToIndex), key)
    {
      if key in keyToIndex {
        return AlreadyExists(key);
      }
      keyToIndex := keyToIndex[key := |keyToIndex| % WIDTH];
      return Ok;
    }

    /** The first loop of finalize: the keys are visited in their order. */
    method FindDefaults(processNameOrder: seq<nat>) returns (defaultLookup: map<nat, (nat, nat)>)
      ensures LookupOk(keyToIndex, keyToIndex.Keys, processNameOrder, defaultLookup)
    {
      defaultLookup := map[];
      var rest := keyToIndex.Keys;
      ghost var visited := {};
      while rest != {}
        invariant visited + rest == keyToIndex.Keys && visited !! rest
        invariant forall a, b :: a in visited && b in rest ==> Before(a, b)
        invariant LookupOk(keyToIndex, visited, processNameOrder, defaultLookup)
        decreases rest
      {
        LeastExists(rest);
        var testKey :| IsLeast(rest, testKey);
        var prod := if testKey.group in defaultLookup then defaultLookup[testKey.group] else (0, UNINITIALIZED);
        if prod.0 == 0 || Position(processNameOrder, testKey.process) < Position(processNameOrder, prod.0) {
          prod := (testKey.process, keyToIndex[testKey]);
        }
        VisitKeepsLookup(keyToIndex, visited, processNameOrder, defaultLookup, testKey, prod);
        defaultLookup := defaultLookup[testKey.group := prod];
        visited := visited + {testKey};
        rest := rest - {testKey};
      }
      assert visited == keyToIndex.Keys;
    }

    method Finalize(processNameOrder: seq<nat>)
      modifies this
      ensures IsFinalized(old(keyToIndex), processNameOrder, keyToIndex)
    {
      var defaultLookup := FindDefaults(processNameOrder);
      ghost var m, done := keyToIndex, {};
      var groups := defaultLookup.Keys;
      assert WithDefaults(m, defaultLookup, {}) == m;
      while groups != {}
        invariant done + groups == defaultLookup.Keys && done !! groups
        invariant keyToIndex == WithDefaults(m, defaultLookup, done)
        decreases groups
      {
        var g :| g in groups;
        OneMoreDefault(m, defaultLookup, done, g);
        keyToIndex := keyToIndex[ProductKey(g, 0) := defaultLookup[g].1];
        groups, done := groups - {g}, done + {g};
      }
      assert done == defaultLookup.Keys;
      DefaultsAreFinal(m, processNameOrder, defaultLookup, keyToIndex);
    }

    method GetIndex(key: ProductKey) returns (index: nat)
      ensures index == Lookup(keyToIndex, key)
    {
      if key !in keyToIndex {
        return UNINITIALIZED;
      }
      return keyToIndex[key];
    }
  }

  function AfterInsert(m: Indices, key: ProductKey): Indices {
    if key in m then m else m[key := |m| % WIDTH]
  }

  /** What the first loop knows of the keys it has visited. */
  ghost predicate LookupOk(m: Indices, visited: set<ProductKey>, order: seq<nat>, lookup: map<nat, (nat, nat)>) {
    && visited <= m.Keys
    && (forall g :: g in lookup <==> HasGroup(visited, g))
    && (forall g :: g in lookup && lookup[g].0 > 0 ==>
          IsDefault(visited, order, g, lookup[g].0) && lookup[g].1 == m[ProductKey(g, lookup[g].0)])
    && (forall g :: g in lookup && lookup[g].0 == 0 ==>
          !HasNamed(visited, g) && ProductKey(g, 0) in visited && lookup[g].1 == m[ProductKey(g, 0)])
  }

  predicate IsLeast(keys: set<ProductKey>, least: ProductKey) {
    least in keys && forall k :: k in keys && k != least ==> Before(least, k)
  }

  lemma {:induction false} LeastExists(keys: set<ProductKey>)
    requires keys != {}
    ensures exists least :: IsLeast(keys, least)
    decreases keys
  {
    var k :| k in keys;
    var others := keys - {k};
    if others == {} {
      assert keys == {k};
      assert IsLeast(keys, k);
    } else {
      LeastExists(others);
      var least :| IsLeast(others, least);
      var first := if Before(k, least) then k else least;
      assert k != least;
      forall j | j in keys && j != first ensures Before(first, j) {
        assert j == k || j == least || Before(least, j);
      }
      assert IsLeast(keys, first);
    }
  }

  lemma DefaultIsUnique(keys: set<ProductKey>, order: seq<nat>, g: nat, p: nat, q: nat)
    requires IsDefault(keys, order, g, p) && IsDefault(keys, order, g, q)
    ensures p == q
  {
    assert Preferred(order, p, q) && Preferred(order, q, p);
  }

  /** Visiting a key that comes after all visited ones keeps, for its group, the preferred of the names seen. */
  lemma VisitKeepsLookup(m: Indices, visited: set<ProductKey>, order: seq<nat>, lookup: map<nat, (nat, nat)>,
                         key: ProductKey, prod: (nat, nat))
    requires LookupOk(m, visited, order, lookup) && key in m && key !in visited
    requires forall a :: a in visited ==> Before(a, key)
    requires var before := if key.group in lookup then lookup[key.group] else (0, UNINITIALIZED);
             prod == if before.0 == 0 || Position(order, key.process) < Position(order, before.0)
                     then (key.process, m[key]) else before
    ensures LookupOk(m, visited + {key}, order, lookup[key.group := prod])
  {
    var visited', lookup' := visited + {key}, lookup[key.group := prod];
    forall g ensures g in lookup' <==> HasGroup(visited', g) {
      if g in lookup' && g != key.group {
        var k :| k in visited && k.group == g;
        assert k in visited';
      } else if g == key.group {
        assert key in visited';
      }
    }
    forall g | g in lookup' && g != key.group
      ensures lookup'[g].0 > 0 ==>
                IsDefault(visited', order, g, lookup'[g].0) && lookup'[g].1 == m[ProductKey(g, lookup'[g].0)]
      ensures lookup'[g].0 == 0 ==>
                !HasNamed(visited', g) && ProductKey(g, 0) in visited' && lookup'[g].1 == m[ProductKey(g, 0)]
    {
      assert lookup'[g] == lookup[g];
      assert forall q: nat :: ProductKey(g, q) in visited' <==> ProductKey(g, q) in visited;
    }
    VisitedGroup(m, visited, order, lookup, key, prod);
  }

  lemma VisitedGroup(m: Indices, visited: set<ProductKey>, order: seq<nat>, lookup: map<nat, (nat, nat)>,
                     key: ProductKey, prod: (nat, nat))
    requires LookupOk(m, visited, order, lookup) && key in m && key !in visited
    requires forall a :: a in visited ==> Before(a, key)
    requires var before := if key.group in lookup then lookup[key.group] else (0, UNINITIALIZED);
             prod == if before.0 == 0 || Position(order, key.process) < Position(order, before.0)
                     then (key.process, m[key]) else before
    ensures var g, visited' := key.group, visited + {key};
            && (prod.0 > 0 ==> IsDefault(visited', order, g, prod.0) && prod.1 == m[ProductKey(g, prod.0)])
            && (prod.0 == 0 ==> !HasNamed(visited', g) && ProductKey(g, 0) in visited' && prod.1 == m[ProductKey(g, 0)])
  {
    var g, visited' := key.group, visited + {key};
    assert ProductKey(g, key.process) == key;
    var named := g in lookup && lookup[g].0 > 0;
    forall q: nat | q > 0 && ProductKey(g, q) in visited ensures named && Preferred(order, lookup[g].0, q) && q < key.process {
      assert HasGroup(visited, g) by { assert ProductKey(g, q) in visited; }
      assert HasNamed(visited, g);
      assert Before(ProductKey(g, q), key);
    }
    if named {
      assert ProductKey(g, lookup[g].0) in visited;
    }
    forall q: nat | q > 0 && ProductKey(g, q) in visited' && prod.0 > 0 ensures Preferred(order, prod.0, q) {
      if ProductKey(g, q) != key {
        assert Preferred(order, lookup[g].0, q);
      }
    }
  }

  function EmptyNames(groups: set<nat>): set<ProductKey> {
    set g | g in groups :: ProductKey(g, 0)
  }

  /** The map after the second loop has gone through some of the groups. */
  function WithDefaults(m: Indices, lookup: map<nat, (nat, nat)>, groups: set<nat>): Indices
    requires groups <= lookup.Keys
  {
    map k | k in m.Keys + EmptyNames(groups) :: if k.process == 0 && k.group in groups then lookup[k.group].1 else m[k]
  }

  lemma OneMoreDefault(m: Indices, lookup: map<nat, (nat, nat)>, groups: set<nat>, g: nat)
    requires groups <= lookup.Keys && g in lookup
    ensures WithDefaults(m, lookup, groups)[ProductKey(g, 0) := lookup[g].1] == WithDefaults(m, lookup, groups + {g})
  {
    var a, b := WithDefaults(m, lookup, groups)[ProductKey(g, 0) := lookup[g].1], WithDefaults(m, lookup, groups + {g});
    assert EmptyNames(groups + {g}) == EmptyNames(groups) + {ProductKey(g, 0)};
    assert a.Keys == b.Keys;
  }

  lemma DefaultsAreFinal(m: Indices, order: seq<nat>, lookup: map<nat, (nat, nat)>, m': Indices)
    requires LookupOk(m, m.Keys, order, lookup) && m' == WithDefaults(m, lookup, lookup.Keys)
    ensures IsFinalized(m, order, m')
  {
    forall k ensures k in m' <==> k in m || (k.process == 0 && HasGroup(m.Keys, k.group)) {
      assert k in EmptyNames(lookup.Keys) <==> k.process == 0 && k.group in lookup;
    }
    forall g, p: nat | IsDefault(m.Keys, order, g, p) ensures m'[ProductKey(g, 0)] == m[ProductKey(g, p)] {
      assert HasGroup(m.Keys, g) && HasNamed(m.Keys, g);
      DefaultIsUnique(m.Keys, order, g, p, lookup[g].0);
    }
    forall k | k in m && k.process == 0 && !HasNamed(m.Keys, k.group) ensures m'[k] == m[k] {
      assert HasGroup(m.Keys, k.group);
      assert k == ProductKey(k.group, 0);
    }
  }

  // ----- What is promised -----

  lemma {:induction false} DefaultExists(keys: set<ProductKey>, order: seq<nat>, g: nat)
    requires HasNamed(keys, g)
    ensures exists p: nat :: IsDefault(keys, order, g, p)
    decreases keys
  {
    var p: nat :| p > 0 && ProductKey(g, p) in keys;
    var others := keys - {ProductKey(g, p)};
    if HasNamed(others, g) {
      DefaultExists(others, order, g);
      var q: nat :| IsDefault(others, order, g, q);
      var best := if Preferred(order, p, q) then p else q;
      forall r: nat | r > 0 && ProductKey(g, r) in keys ensures Preferred(order, best, r) {
        if r != p { assert ProductKey(g, r) in others; }
      }
      assert IsDefault(keys, order, g, best);
    } else {
      forall r: nat | r > 0 && ProductKey(g, r) in keys ensures r == p {
        assert r != p ==> ProductKey(g, r) in others;
      }
      assert IsDefault(keys, order, g, p);
    }
  }

  /** The specification leaves finalize no choice. */
  lemma FinalizedIsUnique(m: Indices, order: seq<nat>, m1: Indices, m2: Indices)
    requires IsFinalized(m, order, m1) && IsFinalized(m, order, m2)
    ensures m1 == m2
  {
    assert m1.Keys == m2.Keys;
    forall k | k in m1 ensures m1[k] == m2[k] {
      if k.process == 0 && HasNamed(m.Keys, k.group) {
        DefaultExists(m.Keys, order, k.group);
        var p: nat :| IsDefault(m.Keys, order, k.group, p);
        assert k == ProductKey(k.group, 0);
      } else if k.process == 0 {
        assert HasGroup(m.Keys, k.group);
        var j :| j in m.Keys && j.group == k.group;
        assert j == ProductKey(k.group, j.process) && (j.process > 0 ==> HasNamed(m.Keys, k.group));
        assert j == k;
      }
    }
  }

  /** Finalizing again with the same order changes nothing. */
  lemma FinalizeIsIdempotent(m: Indices, order: seq<nat>, m1: Indices, m2: Indices)
    requires IsFinalized(m, order, m1) && IsFinalized(m1, order, m2)
    ensures m2 == m1
  {
    assert forall g, p: nat :: p > 0 ==> (ProductKey(g, p) in m1 <==> ProductKey(g, p) in m);
    forall g ensures HasGroup(m1.Keys, g) <==> HasGroup(m.Keys, g) {
      if HasGroup(m1.Keys, g) {
        var k :| k in m1.Keys && k.group == g;
      }
      if HasGroup(m.Keys, g) {
        var k :| k in m.Keys && k.group == g;
        assert k in m1.Keys;
      }
    }
    forall g, p: nat | IsDefault(m.Keys, order, g, p) ensures IsDefault(m1.Keys, order, g, p) {
    }
    assert IsFinalized(m1, order, m1) by {
      SelfFinalized(m, order, m1);
    }
    FinalizedIsUnique(m1, order, m1, m2);
  }

  lemma SelfFinalized(m: Indices, order: seq<nat>, m1: Indices)
    requires IsFinalized(m, order, m1)
    ensures IsFinalized(m1, order, m1)
  {
    forall k: ProductKey | k.process == 0 && HasGroup(m1.Keys, k.group) ensures k in m1 {
      var j :| j in m1.Keys && j.group == k.group;
      if j in m { assert HasGroup(m.Keys, k.group); }
    }
    forall g, p: nat | IsDefault(m1.Keys, order, g, p) ensures m1[ProductKey(g, 0)] == m1[ProductKey(g, p)] {
      forall q: nat | q > 0 && ProductKey(g, q) in m.Keys ensures Preferred(order, p, q) {
        assert ProductKey(g, q) in m1.Keys;
      }
      assert IsDefault(m.Keys, order, g, p);
    }
  }

  /** The map after inserting a list of keys one after the other. */
  function InsertAll(keys: seq<ProductKey>): (m: Indices)
  {
    if keys == [] then map[] else AfterInsert(InsertAll(keys[..|keys| - 1]), keys[|keys| - 1])
  }

  ghost predicate Distinct(keys: seq<ProductKey>) {
    forall i, j :: 0 <= i < j < |keys| ==> keys[i] != keys[j]
  }

  /** The map takes each key to its place in the list. */
  ghost predicate Numbers(m: Indices, keys: seq<ProductKey>) {
    && |m| == |keys|
    && (forall k :: k in m ==> m[k] < |keys| && keys[m[k]] == k)
    && (forall i :: 0 <= i < |keys| ==> keys[i] in m && m[keys[i]] == i)
  }

  lemma OneMoreNumber(m: Indices, keys: seq<ProductKey>, key: ProductKey)
    requires Numbers(m, keys) && key !in m && |keys| < WIDTH
    ensures Numbers(AfterInsert(m, key), keys + [key])
  {
  }

  /** Inserting distinct keys numbers them in order of insertion, without a gap. */
  lemma {:induction false} IndicesAreDense(keys: seq<ProductKey>)
    requires |keys| <= WIDTH && Distinct(keys)
    ensures Numbers(InsertAll(keys), keys)
  {
    if keys != [] {
      var front, last := keys[..|keys| - 1], keys[|keys| - 1];
      IndicesAreDense(front);
      var m := InsertAll(front);
      assert forall k :: k in m ==> m[k] < |front| && keys[m[k]] == k;
      OneMoreNumber(InsertAll(front), front, last);
      assert keys == front + [last];
    }
  }

  /** After inserts and a finalize, a key without a process name leads to the product inserted for the preferred process,
      and the keys inserted with a process name keep their numbers. */
  lemma EmptyNameLeadsToDefault(keys: seq<ProductKey>, order: seq<nat>, m: Indices, g: nat, i: nat)
    requires |keys| <= WIDTH && Distinct(keys)
    requires IsFinalized(InsertAll(keys), order, m)
    requires i < |keys| && keys[i].group == g && keys[i].process > 0
    ensures keys[i] in m && m[keys[i]] == i && ProductKey(g, 0) in m
    ensures m[ProductKey(g, 0)] == i <==>
            forall j :: 0 <= j < |keys| && keys[j].group == g && keys[j].process > 0 ==>
              Preferred(order, keys[i].process, keys[j].process)
  {
    IndicesAreDense(keys);
    var all := InsertAll(keys).Keys;
    assert keys[i] == ProductKey(g, keys[i].process);
    assert HasGroup(all, g) && HasNamed(all, g);
    DefaultExists(all, order, g);
    var p: nat :| IsDefault(all, order, g, p);
    var d :| 0 <= d < |keys| && keys[d] == ProductKey(g, p);
    assert m[ProductKey(g, 0)] == d;
    if forall j :: 0 <= j < |keys| && keys[j].group == g && keys[j].process > 0 ==>
         Preferred(order, keys[i].process, keys[j].process) {
      assert Preferred(order, keys[i].process, keys[d].process) && Preferred(order, p, keys[i].process);
      assert keys[i] == keys[d];
    }
    if d == i {
      forall j | 0 <= j < |keys| && keys[j].group == g && keys[j].process > 0
        ensures Preferred(order, keys[i].process, keys[j].process)
      {
        assert ProductKey(g, keys[j].process) in all;
      }
    }
  }

  /** What GetIndex answers. */
  function Lookup(m: Indices, key: ProductKey): nat {
    if key in m then m[key] else UNINITIALIZED
  }

  /** As long as not all index values are taken, the uninitialized index means that there is no entry, before and after
      finalize; and what is found is the number of an inserted key of the same group. */
  lemma UninitializedMeansAbsent(keys: seq<ProductKey>, order: seq<nat>, m: Indices, key: ProductKey)
    requires |keys| < WIDTH && Distinct(keys)
    requires m == InsertAll(keys) || IsFinalized(InsertAll(keys), order, m)
    ensures Lookup(m, key) == UNINITIALIZED <==> key !in m
    ensures Lookup(m, key) < WIDTH
    ensures key in m ==> Lookup(m, key) < |keys| && keys[Lookup(m, key)].group == key.group
    ensures key in m ==> key in keys || key.process == 0
  {
    IndicesAreDense(keys);
    var before := InsertAll(keys);
    if key in m && m != before {
      if key.process == 0 && HasNamed(before.Keys, key.group) {
        DefaultExists(before.Keys, order, key.group);
        var p: nat :| IsDefault(before.Keys, order, key.group, p);
        assert key == ProductKey(key.group, 0);
      } else if key.process == 0 {
        var j :| j in before.Keys && j.group == key.group;
        assert j == ProductKey(key.group, j.process) && (j.process > 0 ==> HasNamed(before.Keys, key.group));
        assert j == key;
      }
    }
  }
}
