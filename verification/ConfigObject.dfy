/** Objects as configuru.hpp stores them: a map whose entries are numbered, where the numbers give the order
    of writing. The other modules use the list of entries in that order; here is why they may, and when not. */
module ConfigObject {
  import opened ConfigText
  import G = ConfigGrammar

  /** ObjectEntry: a value and its number. */
  datatype Slot = Slot(value: Value, nr: nat)

  type Impl = map<string, Slot>

  /** emplace: a new entry gets the size of the object as its number; an old one stays as it is. */
  function Emplace(m: Impl, key: string, value: Value): Impl {
    if key in m then m else m[key := Slot(value, |m|)]
  }

  /** insert_or_assign: an old entry gets the new value and keeps its number. */
  function InsertOrAssign(m: Impl, key: string, value: Value): Impl {
    m[key := Slot(value, if key in m then m[key].nr else |m|)]
  }

  function Erase(m: Impl, key: string): Impl {
    m - {key}
  }

  ghost predicate DistinctNumbers(m: Impl) {
    forall k, l :: k in m && l in m && m[k].nr == m[l].nr ==> k == l
  }

  ghost predicate Within(m: Impl, es: seq<Entry>) {
    forall i :: 0 <= i < |es| ==> es[i].key in m && m[es[i].key].value == es[i].value
  }

  ghost predicate Covers(m: Impl, es: seq<Entry>) {
    forall k :: k in m ==> exists i :: 0 <= i < |es| && es[i].key == k
  }

  ghost predicate Ascending(m: Impl, es: seq<Entry>)
    requires Within(m, es)
  {
    forall i, j :: 0 <= i < j < |es| ==> m[es[i].key].nr <= m[es[j].key].nr
  }

  /** What sorting the entries by number can give: all of them, once each, the numbers ascending. Entries
      with the same number may come in either order. */
  ghost predicate Listing(m: Impl, es: seq<Entry>) {
    UniqueKeys(es) && Within(m, es) && Covers(m, es) && Ascending(m, es)
  }

  function Swap(es: seq<Entry>, i: nat, j: nat): seq<Entry>
    requires i < |es| && j < |es|
  {
    es[i := es[j]][j := es[i]]
  }

  lemma IndexOf(m: Impl, es: seq<Entry>, key: string) returns (i: nat)
    requires Listing(m, es) && key in m
    ensures i < |es| && es[i].key == key && es[i].value == m[key].value
  {
    i :| 0 <= i < |es| && es[i].key == key;
  }

  /** An entry behind a common front is not in it. */
  lemma NotInFront(es: seq<Entry>, fs: seq<Entry>, i: nat, j: nat)
    requires UniqueKeys(es) && i < |es| && i <= |fs| && j < |fs| && es[..i] == fs[..i] && fs[j].key == es[i].key
    ensures i <= j
  {
    forall k | 0 <= k < i ensures es[k] == fs[k] { assert es[..i][k] == fs[..i][k]; }
  }

  /** With distinct numbers two listings agree from the front on. */
  lemma {:induction false} SamePrefix(m: Impl, es: seq<Entry>, fs: seq<Entry>, n: nat)
    requires Listing(m, es) && Listing(m, fs) && DistinctNumbers(m) && n <= |es|
    ensures n <= |fs| && es[..n] == fs[..n]
    decreases n
  {
    hide Covers, UniqueKeys;
    if n > 0 {
      var i := n - 1;
      SamePrefix(m, es, fs, i);
      var j := IndexOf(m, fs, es[i].key);
      NotInFront(es, fs, i, j);
      var l := IndexOf(m, es, fs[i].key);
      NotInFront(fs, es, i, l);
      assert m[es[i].key].nr == m[fs[i].key].nr;
      assert es[i] == fs[i];
      assert es[..n] == es[..i] + [es[i]] && fs[..n] == fs[..i] + [fs[i]];
    }
  }

  lemma SwapCovers(m: Impl, es: seq<Entry>, i: nat, j: nat)
    requires Covers(m, es) && i < j < |es|
    ensures Covers(m, Swap(es, i, j))
  {
    var fs := Swap(es, i, j);
    forall k | k in m ensures exists l :: 0 <= l < |fs| && fs[l].key == k {
      var l :| 0 <= l < |es| && es[l].key == k;
      assert fs[if l == i then j else if l == j then i else l].key == k;
    }
  }

  lemma SwapKeeps(m: Impl, es: seq<Entry>, i: nat, j: nat)
    requires UniqueKeys(es) && Within(m, es) && i < j < |es|
    ensures UniqueKeys(Swap(es, i, j)) && Within(m, Swap(es, i, j)) && Swap(es, i, j) != es
  {
    assert Swap(es, i, j)[i] == es[j];
  }

  lemma SwapIsListing(m: Impl, es: seq<Entry>, i: nat, j: nat)
    requires Listing(m, es) && i < j < |es| && m[es[i].key].nr == m[es[j].key].nr
    ensures Listing(m, Swap(es, i, j)) && Swap(es, i, j) != es
  {
    SwapCovers(m, es, i, j);
    SwapKeeps(m, es, i, j);
    SwapAscends(m, es, i, j);
  }

  lemma SwapAscends(m: Impl, es: seq<Entry>, i: nat, j: nat)
    requires Within(m, es) && Ascending(m, es) && i < j < |es| && m[es[i].key].nr == m[es[j].key].nr && Within(m, Swap(es, i, j))
    ensures Ascending(m, Swap(es, i, j))
  {
    var fs := Swap(es, i, j);
    assert forall k :: 0 <= k < |es| ==> m[fs[k].key].nr == m[es[k].key].nr;
  }

  /** The order of writing is determined exactly if no number occurs twice. */
  lemma OneListing(m: Impl, es: seq<Entry>)
    requires Listing(m, es)
    ensures DistinctNumbers(m) <==> forall fs :: Listing(m, fs) ==> fs == es
  {
    if DistinctNumbers(m) {
      forall fs | Listing(m, fs) ensures fs == es {
        SamePrefix(m, es, fs, |es|);
        SamePrefix(m, fs, es, |fs|);
      }
    } else {
      var k, l :| k in m && l in m && m[k].nr == m[l].nr && k != l;
      var i := IndexOf(m, es, k);
      var j := IndexOf(m, es, l);
      if i < j { SwapIsListing(m, es, i, j); } else { SwapIsListing(m, es, j, i); }
    }
  }

  // ---- What the parser builds -----------------------------------------------------------------------------

  /** The entries are numbered as they are listed. */
  ghost predicate Represents(m: Impl, es: seq<Entry>) {
    && |m| == |es|
    && (forall i :: 0 <= i < |es| ==> es[i].key in m && m[es[i].key] == Slot(es[i].value, i))
    && (forall k :: k in m ==> m[k].nr < |es| && es[m[k].nr].key == k)
  }

  /** The parser's list of entries and its map stay in step, and the writer can list the entries in no order
      but that of their arrival. */
  lemma EmplaceKeepsOrder(m: Impl, es: seq<Entry>, key: string, value: Value)
    requires Represents(m, es)
    ensures Represents(Emplace(m, key, value), G.Emplace(es, key, value))
    ensures forall fs :: Listing(Emplace(m, key, value), fs) <==> fs == G.Emplace(es, key, value)
  {
    if key in m { assert es[m[key].nr].key == key; }
    RepresentsOneOrder(Emplace(m, key, value), G.Emplace(es, key, value));
  }

  lemma RepresentsOneOrder(m: Impl, es: seq<Entry>)
    requires Represents(m, es)
    ensures forall fs :: Listing(m, fs) <==> fs == es
  {
    forall i, j | 0 <= i < j < |es| ensures es[i].key != es[j].key {
      assert m[es[i].key].nr == i && m[es[j].key].nr == j;
    }
    assert Listing(m, es);
    OneListing(m, es);
  }

  // ---- Erasing --------------------------------------------------------------------------------------------

  /** Numbers from zero up, without gaps: as the parser leaves them. */
  ghost predicate Dense(m: Impl) {
    DistinctNumbers(m) && forall k :: k in m ==> m[k].nr < |m|
  }

  lemma RepresentsDense(m: Impl, es: seq<Entry>)
    requires Represents(m, es)
    ensures Dense(m)
  {
  }

  /** Without gaps: some entry has the last number. */
  lemma LastNumber(m: Impl) returns (k: string)
    requires Dense(m) && m != map[]
    ensures k in m && m[k].nr == |m| - 1
  {
    SizesAgree(m, m.Keys);
    if forall k :: k in m ==> m[k].nr != |m| - 1 {
      Subset(set k | k in m.Keys :: m[k].nr, Upto(|m| - 1));
      assert false;
    }
    k :| k in m && m[k].nr == |m| - 1;
  }

  lemma {:induction false} SizesAgree(m: Impl, keys: set<string>)
    requires DistinctNumbers(m) && keys <= m.Keys
    ensures |set k | k in keys :: m[k].nr| == |keys|
    decreases |keys|
  {
    if keys != {} {
      var k :| k in keys;
      SizesAgree(m, keys - {k});
      var fewer := set l | l in keys - {k} :: m[l].nr;
      assert (set l | l in keys :: m[l].nr) == fewer + {m[k].nr};
    }
  }

  function Upto(n: nat): (numbers: set<nat>)
    ensures forall i: nat :: i in numbers <==> i < n
    ensures |numbers| == n
  {
    if n == 0 then {}
    else
      var fewer := Upto(n - 1);
      assert n - 1 !in fewer;
      fewer + {n - 1}
  }

  lemma {:induction false} Subset(a: set<nat>, b: set<nat>)
    requires a <= b
    ensures |a| <= |b|
    decreases |a|
  {
    if a != {} {
      var x :| x in a;
      Subset(a - {x}, b - {x});
    }
  }

  /** In an object as parsed, erasing an entry and inserting another leaves two entries with the same number,
      and their order open, unless the one erased was the last. */
  lemma EraseThenInsert(m: Impl, es: seq<Entry>, erased: nat, inserted: string, value: Value)
    requires Represents(m, es) && erased < |es| && inserted !in m
    ensures var r := InsertOrAssign(Erase(m, es[erased].key), inserted, value);
            && r == Emplace(Erase(m, es[erased].key), inserted, value)
            && (DistinctNumbers(r) <==> erased == |es| - 1)
  {
    RepresentsDense(m, es);
    var key := es[erased].key;
    var e := Erase(m, key);
    var r := InsertOrAssign(e, inserted, value);
    assert |e| == |m| - 1 by { assert e.Keys == m.Keys - {key}; assert |e.Keys| == |e| && |m.Keys| == |m|; }
    var last := LastNumber(m);
    if erased != |es| - 1 {
      assert last in r && r[last].nr == r[inserted].nr;
    }
  }

  /** Then the writer's order of the two is open: with one listing of the entries there is another. */
  lemma ErasedOrderIsOpen(m: Impl, es: seq<Entry>, erased: nat, inserted: string, value: Value, fs: seq<Entry>)
    requires Represents(m, es) && erased < |es| && inserted !in m
    requires Listing(InsertOrAssign(Erase(m, es[erased].key), inserted, value), fs)
    ensures (exists gs :: gs != fs && Listing(InsertOrAssign(Erase(m, es[erased].key), inserted, value), gs)) <==> erased < |es| - 1
  {
    EraseThenInsert(m, es, erased, inserted, value);
    OneListing(InsertOrAssign(Erase(m, es[erased].key), inserted, value), fs);
  }
}
