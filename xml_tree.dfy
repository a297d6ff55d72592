/** The generic tree that the markup parser produces, and the two walks
    that flatten it (apps/api/src/parsers/xmlParser.ts, findAllStrings and
    findAllKeyValues). */
module XmlTree {
  import opened Common

  /** A parsed markup value: text, an array (a tag repeated under one
      parent), or an object whose entries (child tags, attributes and the
      "text" node) are listed in the order Object.entries yields them. */
  datatype Value = Str(text: string) | Arr(items: seq<Value>) | Obj(entries: seq<Entry>)
  datatype Entry = Entry(key: string, value: Value)

  // =====================================================================
  // findAllStrings: every text leaf, in depth-first order
  // =====================================================================

  function AllStrings(v: Value): seq<string> {
    match v
    case Str(s) => [s]
    case Arr(items) => ItemsStrings(items)
    case Obj(entries) => EntriesStrings(entries)
  }

  function ItemsStrings(items: seq<Value>): seq<string> {
    if items == [] then [] else ItemsStrings(items[..|items| - 1]) + AllStrings(items[|items| - 1])
  }

  function EntriesStrings(es: seq<Entry>): seq<string> {
    if es == [] then [] else EntriesStrings(es[..|es| - 1]) + AllStrings(es[|es| - 1].value)
  }

  /** `s` is the text of some leaf of `v`, wherever it sits. */
  predicate HasLeaf(v: Value, s: string) {
    match v
    case Str(t) => t == s
    case Arr(items) => exists i :: 0 <= i < |items| && HasLeaf(items[i], s)
    case Obj(es) => exists i :: 0 <= i < |es| && HasLeaf(es[i].value, s)
  }

  /** The number of text leaves of `v`. */
  function LeafCount(v: Value): nat {
    match v
    case Str(_) => 1
    case Arr(items) => ItemsLeafCount(items)
    case Obj(es) => EntriesLeafCount(es)
  }

  function ItemsLeafCount(items: seq<Value>): nat {
    if items == [] then 0 else LeafCount(items[0]) + ItemsLeafCount(items[1..])
  }

  function EntriesLeafCount(es: seq<Entry>): nat {
    if es == [] then 0 else LeafCount(es[0].value) + EntriesLeafCount(es[1..])
  }

  /** findAllStrings(value, results): appends every text leaf of `v`, array
      elements included, to the accumulator. */
  method FindAllStrings(v: Value, results: seq<string>) returns (r: seq<string>)
    ensures r == results + AllStrings(v)
    decreases v
  {
    match v
    case Str(s) =>
      r := results + [s];
    case Arr(items) =>
      r := results;
      var i := 0;
      while i < |items|
        invariant i <= |items|
        invariant r == results + ItemsStrings(items[..i])
      {
        assert items[..i + 1][..i] == items[..i];
        r := FindAllStrings(items[i], r);
        i := i + 1;
      }
      assert items[..i] == items;
    case Obj(es) =>
      r := results;
      var i := 0;
      while i < |es|
        invariant i <= |es|
        invariant r == results + EntriesStrings(es[..i])
      {
        assert es[..i + 1][..i] == es[..i];
        r := FindAllStrings(es[i].value, r);
        i := i + 1;
      }
      assert es[..i] == es;
  }

  /** Every collected string is a leaf text, and every leaf text is collected. */
  lemma {:induction false} AllStringsAreLeaves(v: Value, s: string)
    ensures s in AllStrings(v) <==> HasLeaf(v, s)
    decreases v, 1
  {
    match v
    case Str(_) =>
    case Arr(items) => ItemsStringsAreLeaves(items, s);
    case Obj(es) => EntriesStringsAreLeaves(es, s);
  }

  lemma {:induction false} ItemsStringsAreLeaves(items: seq<Value>, s: string)
    ensures s in ItemsStrings(items) <==> exists i :: 0 <= i < |items| && HasLeaf(items[i], s)
    decreases items, 0
  {
    if items != [] {
      var n := |items| - 1;
      ItemsStringsAreLeaves(items[..n], s);
      AllStringsAreLeaves(items[n], s);
      if exists i :: 0 <= i < |items| && HasLeaf(items[i], s) {
        var i :| 0 <= i < |items| && HasLeaf(items[i], s);
        if i < n { assert items[..n][i] == items[i]; }
      }
      if exists i :: 0 <= i < n && HasLeaf(items[..n][i], s) {
        var i :| 0 <= i < n && HasLeaf(items[..n][i], s);
        assert items[i] == items[..n][i];
      }
    }
  }

  lemma {:induction false} EntriesStringsAreLeaves(es: seq<Entry>, s: string)
    ensures s in EntriesStrings(es) <==> exists i :: 0 <= i < |es| && HasLeaf(es[i].value, s)
    decreases es, 0
  {
    if es != [] {
      var n := |es| - 1;
      EntriesStringsAreLeaves(es[..n], s);
      AllStringsAreLeaves(es[n].value, s);
      if exists i :: 0 <= i < |es| && HasLeaf(es[i].value, s) {
        var i :| 0 <= i < |es| && HasLeaf(es[i].value, s);
        if i < n { assert es[..n][i] == es[i]; }
      }
      if exists i :: 0 <= i < n && HasLeaf(es[..n][i].value, s) {
        var i :| 0 <= i < n && HasLeaf(es[..n][i].value, s);
        assert es[i] == es[..n][i];
      }
    }
  }

  /** One output string per text leaf. */
  lemma {:induction false} AllStringsLength(v: Value)
    ensures |AllStrings(v)| == LeafCount(v)
    decreases v, 1
  {
    match v
    case Str(_) =>
    case Arr(items) => ItemsStringsLength(items);
    case Obj(es) => EntriesStringsLength(es);
  }

  lemma {:induction false} ItemsStringsLength(items: seq<Value>)
    ensures |ItemsStrings(items)| == ItemsLeafCount(items)
    decreases items, 0
  {
    if items != [] {
      var n := |items| - 1;
      ItemsStringsLength(items[..n]);
      AllStringsLength(items[n]);
      ItemsLeafCountSnoc(items[..n], items[n]);
      assert items[..n] + [items[n]] == items;
    }
  }

  lemma {:induction false} EntriesStringsLength(es: seq<Entry>)
    ensures |EntriesStrings(es)| == EntriesLeafCount(es)
    decreases es, 0
  {
    if es != [] {
      var n := |es| - 1;
      EntriesStringsLength(es[..n]);
      AllStringsLength(es[n].value);
      EntriesLeafCountSnoc(es[..n], es[n]);
      assert es[..n] + [es[n]] == es;
    }
  }

  lemma {:induction false} ItemsLeafCountSnoc(items: seq<Value>, x: Value)
    ensures ItemsLeafCount(items + [x]) == ItemsLeafCount(items) + LeafCount(x)
    decreases |items|
  {
    if items == [] {
      assert [x][1..] == [];
    } else {
      assert (items + [x])[1..] == items[1..] + [x];
      ItemsLeafCountSnoc(items[1..], x);
    }
  }

  lemma {:induction false} EntriesLeafCountSnoc(es: seq<Entry>, x: Entry)
    ensures EntriesLeafCount(es + [x]) == EntriesLeafCount(es) + LeafCount(x.value)
    decreases |es|
  {
    if es == [] {
      assert [x][1..] == [];
    } else {
      assert (es + [x])[1..] == es[1..] + [x];
      EntriesLeafCountSnoc(es[1..], x);
    }
  }

  // =====================================================================
  // findAllKeyValues: a key -> values multimap in JavaScript object order
  // =====================================================================

  /** One property of the `results` object: a key and the values recorded under it. */
  datatype Slot = Slot(key: string, values: seq<string>)

  /** The `results` object; slots are listed in key-insertion order. JavaScript
      lists integer-like keys ("0", "1", ... as the array walk records them)
      ahead of all others; no key fragment the extractor searches for matches
      a digit-only key, so the extraction cannot tell the two orders apart. */
  type Flat = seq<Slot>

  /** A string-valued property met during the walk. */
  datatype Pair = Pair(key: string, text: string)

  function Keys(f: Flat): seq<string> {
    seq(|f|, i requires 0 <= i < |f| => f[i].key)
  }

  predicate DistinctKeys(f: Flat) {
    forall i, j :: 0 <= i < j < |f| ==> f[i].key != f[j].key
  }

  /** The position of the first occurrence of `k` in `ks`. */
  function FirstIndex(ks: seq<string>, k: string): (r: Option<nat>)
    ensures r.Some? ==> r.value < |ks| && ks[r.value] == k
    ensures r.Some? ==> forall j :: 0 <= j < r.value ==> ks[j] != k
    ensures r.None? <==> k !in ks
  {
    if ks == [] then None
    else if ks[0] == k then Some(0)
    else match FirstIndex(ks[1..], k)
      case None => None
      case Some(i) => Some(i + 1)
  }

  /** The position of the first slot holding `key`. */
  function SlotOf(f: Flat, key: string): Option<nat> {
    FirstIndex(Keys(f), key)
  }

  /** `results[key] || []`. */
  function ValuesOf(f: Flat, key: string): seq<string> {
    match SlotOf(f, key)
    case None => []
    case Some(i) => f[i].values
  }

  /** Appending a new key leaves the first occurrence of every other key where it was. */
  lemma FirstIndexAppend(ks: seq<string>, x: string, k: string)
    requires x !in ks
    ensures FirstIndex(ks + [x], k) == if k == x then Some(|ks|) else FirstIndex(ks, k)
  {
    var a, b := FirstIndex(ks + [x], k), FirstIndex(ks, k);
    if k == x {
      assert (ks + [x])[|ks|] == x;
      assert a.Some?;
      assert a.value == |ks|;
    } else {
      if a.Some? { assert a.value < |ks| && ks[a.value] == k; }
      if b.Some? {
        assert (ks + [x])[b.value] == k;
        assert a.Some?;
        assert a.value == b.value;
      }
    }
  }

  /** `results[key] = [...(results[key] || []), text]`: an existing property keeps its place. */
  function Insert(f: Flat, key: string, text: string): (r: Flat)
    ensures DistinctKeys(f) ==> DistinctKeys(r)
    ensures ValuesOf(r, key) == ValuesOf(f, key) + [text]
    ensures forall k :: k != key ==> ValuesOf(r, k) == ValuesOf(f, k)
    ensures Keys(r) == if key in Keys(f) then Keys(f) else Keys(f) + [key]
  {
    match SlotOf(f, key)
    case Some(i) =>
      var r := f[i := Slot(key, f[i].values + [text])];
      assert Keys(r) == Keys(f);
      r
    case None =>
      var r := f + [Slot(key, [text])];
      assert Keys(r) == Keys(f) + [key];
      forall k ensures SlotOf(r, k) == if k == key then Some(|f|) else SlotOf(f, k) {
        FirstIndexAppend(Keys(f), key, k);
      }
      assert DistinctKeys(f) ==> DistinctKeys(r) by {
        if DistinctKeys(f) {
          forall i, j | 0 <= i < j < |r| ensures r[i].key != r[j].key {
            if j == |f| { assert Keys(f)[i] == f[i].key; }
          }
        }
      }
      r
  }

  /** Records every pair, in order, into `f`. */
  function Build(f: Flat, ps: seq<Pair>): Flat {
    if ps == [] then f
    else Insert(Build(f, ps[..|ps| - 1]), ps[|ps| - 1].key, ps[|ps| - 1].text)
  }

  /** The texts of the pairs recorded under `key`, in walk order. */
  function TextsFor(ps: seq<Pair>, key: string): seq<string> {
    if ps == [] then []
    else TextsFor(ps[..|ps| - 1], key) + (if ps[|ps| - 1].key == key then [ps[|ps| - 1].text] else [])
  }

  /** The string-valued properties reached from `v`, in the order findAllKeyValues meets them. */
  function Pairs(v: Value): seq<Pair> {
    match v
    case Str(_) => []
    case Arr(items) => IndexedPairs(items)
    case Obj(es) => EntriesPairs(es)
  }

  /** Object.entries of an array: its elements under the keys "0", "1", ... */
  function IndexedPairs(items: seq<Value>): seq<Pair> {
    if items == [] then []
    else IndexedPairs(items[..|items| - 1]) + EntryPairs(NatToString(|items| - 1), items[|items| - 1])
  }

  function EntriesPairs(es: seq<Entry>): seq<Pair> {
    if es == [] then []
    else EntriesPairs(es[..|es| - 1]) + EntryPairs(es[|es| - 1].key, es[|es| - 1].value)
  }

  /** One entry: a string is recorded; an array's elements are walked; an object is walked. */
  function EntryPairs(key: string, value: Value): seq<Pair>
    decreases value
  {
    match value
    case Str(s) => [Pair(key, s)]
    case Arr(children) => ChildrenPairs(children)
    case Obj(es) => EntriesPairs(es)
  }

  function ChildrenPairs(children: seq<Value>): seq<Pair> {
    if children == [] then []
    else ChildrenPairs(children[..|children| - 1]) + Pairs(children[|children| - 1])
  }

  /** The flattened multimap of a whole document. */
  function FlatOf(root: Value): Flat {
    Build([], Pairs(root))
  }

  /** Recording two runs of pairs is recording their concatenation. */
  lemma {:induction false} BuildAppend(f: Flat, a: seq<Pair>, b: seq<Pair>)
    ensures Build(f, a + b) == Build(Build(f, a), b)
    decreases |b|
  {
    if b == [] {
      assert a + b == a;
    } else {
      var n := |b| - 1;
      assert (a + b)[..|a + b| - 1] == a + b[..n];
      assert (a + b)[|a + b| - 1] == b[n];
      BuildAppend(f, a, b[..n]);
    }
  }

  /** The names every plain object inherits from Object.prototype. Read from
      `results` while not an own property, each yields a function (or, for
      __proto__, Object.prototype itself): truthy and not iterable. */
  predicate InheritedKey(k: string) {
    k in {"constructor", "hasOwnProperty", "isPrototypeOf", "propertyIsEnumerable",
          "toLocaleString", "toString", "valueOf", "__proto__", "__defineGetter__",
          "__defineSetter__", "__lookupGetter__", "__lookupSetter__"}
  }

  /** `results[key] = [...(results[key] || []), text]` as JavaScript runs it:
      spreading an inherited member throws a TypeError, shown as None. */
  function TryInsert(f: Flat, key: string, text: string): Option<Flat> {
    if InheritedKey(key) && SlotOf(f, key).None? then None else Some(Insert(f, key, text))
  }

  /** Records the pairs in order into `f`, stopping at the first that throws. */
  function Record(f: Flat, ps: seq<Pair>): Option<Flat> {
    if ps == [] then Some(f)
    else match Record(f, ps[..|ps| - 1])
      case None => None
      case Some(g) => TryInsert(g, ps[|ps| - 1].key, ps[|ps| - 1].text)
  }

  predicate NoInheritedKeys(f: Flat) {
    forall k :: k in Keys(f) ==> !InheritedKey(k)
  }

  /** Some pair's key is named like a member of Object.prototype. */
  predicate HasInheritedKey(ps: seq<Pair>) {
    exists i :: 0 <= i < |ps| && InheritedKey(ps[i].key)
  }

  /** Starting from an object with no inherited names as own keys (such as the
      empty `{}` findAllKeyValues starts from), recording throws exactly when some
      pair has an inherited name as its key, and otherwise records every pair. */
  lemma {:induction false} RecordIff(f: Flat, ps: seq<Pair>)
    requires NoInheritedKeys(f)
    ensures Record(f, ps).None? <==> HasInheritedKey(ps)
    ensures Record(f, ps).Some? ==> Record(f, ps).value == Build(f, ps) && NoInheritedKeys(Build(f, ps))
    decreases |ps|
  {
    if ps != [] {
      var n := |ps| - 1;
      var prefix := ps[..n];
      RecordIff(f, prefix);
      HasInheritedKeySnoc(ps);
      if Record(f, prefix).Some? {
        TryInsertOwn(Build(f, prefix), ps[n].key, ps[n].text);
      }
    }
  }

  lemma HasInheritedKeySnoc(ps: seq<Pair>)
    requires ps != []
    ensures HasInheritedKey(ps) <==> HasInheritedKey(ps[..|ps| - 1]) || InheritedKey(ps[|ps| - 1].key)
  {
    var prefix := ps[..|ps| - 1];
    if HasInheritedKey(prefix) {
      var i :| 0 <= i < |prefix| && InheritedKey(prefix[i].key);
      assert ps[i] == prefix[i];
    }
    if HasInheritedKey(ps) {
      var i :| 0 <= i < |ps| && InheritedKey(ps[i].key);
      if i < |prefix| { assert ps[i] == prefix[i]; }
    }
  }

  /** On an object without inherited names as own keys, an insertion throws
      exactly when the key is an inherited name. */
  lemma TryInsertOwn(g: Flat, key: string, text: string)
    requires NoInheritedKeys(g)
    ensures TryInsert(g, key, text).None? <==> InheritedKey(key)
    ensures TryInsert(g, key, text).Some? ==> NoInheritedKeys(Insert(g, key, text))
  {
    assert SlotOf(g, key).None? <==> key !in Keys(g);
  }

  /** Recording two runs of pairs is recording the first, then the second from where it left off. */
  lemma {:induction false} RecordAppend(f: Flat, a: seq<Pair>, b: seq<Pair>)
    ensures Record(f, a + b) == match Record(f, a) case None => None case Some(g) => Record(g, b)
    decreases |b|
  {
    if b == [] {
      assert a + b == a;
    } else {
      var n := |b| - 1;
      assert (a + b)[..|a + b| - 1] == a + b[..n];
      assert (a + b)[|a + b| - 1] == b[n];
      RecordAppend(f, a, b[..n]);
    }
  }

  /** Once recording has thrown, recording further pairs still throws. */
  lemma RecordThrownPrefix(f: Flat, a: seq<Pair>, b: seq<Pair>)
    requires a <= b && Record(f, a).None?
    ensures Record(f, b).None?
  {
    assert b == a + b[|a|..];
    RecordAppend(f, a, b[|a|..]);
  }

  lemma {:induction false} IndexedPairsPrefix(items: seq<Value>, k: nat)
    requires k <= |items|
    ensures IndexedPairs(items[..k]) <= IndexedPairs(items)
    decreases |items|
  {
    if k < |items| {
      var n := |items| - 1;
      assert items[..n][..k] == items[..k];
      IndexedPairsPrefix(items[..n], k);
    } else {
      assert items[..k] == items;
    }
  }

  lemma {:induction false} EntriesPairsPrefix(es: seq<Entry>, k: nat)
    requires k <= |es|
    ensures EntriesPairs(es[..k]) <= EntriesPairs(es)
    decreases |es|
  {
    if k < |es| {
      var n := |es| - 1;
      assert es[..n][..k] == es[..k];
      EntriesPairsPrefix(es[..n], k);
    } else {
      assert es[..k] == es;
    }
  }

  lemma {:induction false} ChildrenPairsPrefix(children: seq<Value>, k: nat)
    requires k <= |children|
    ensures ChildrenPairs(children[..k]) <= ChildrenPairs(children)
    decreases |children|
  {
    if k < |children| {
      var n := |children| - 1;
      assert children[..n][..k] == children[..k];
      ChildrenPairsPrefix(children[..n], k);
    } else {
      assert children[..k] == children;
    }
  }

  /** findAllKeyValues(value, results); None when it throws. */
  method FindAllKeyValues(v: Value, results: Flat) returns (r: Option<Flat>)
    ensures r == Record(results, Pairs(v))
    decreases v, 0
  {
    match v
    case Str(_) =>
      r := Some(results);
    case Arr(items) =>
      var acc := results;
      var i := 0;
      while i < |items|
        invariant i <= |items|
        invariant Record(results, IndexedPairs(items[..i])) == Some(acc)
      {
        assert items[..i + 1][..i] == items[..i];
        RecordAppend(results, IndexedPairs(items[..i]), EntryPairs(NatToString(i), items[i]));
        var next := RecordEntry(NatToString(i), items[i], acc);
        if next.None? {
          IndexedPairsPrefix(items, i + 1);
          RecordThrownPrefix(results, IndexedPairs(items[..i + 1]), IndexedPairs(items));
          return None;
        }
        acc := next.value;
        i := i + 1;
      }
      assert items[..i] == items;
      r := Some(acc);
    case Obj(es) =>
      var acc := results;
      var i := 0;
      while i < |es|
        invariant i <= |es|
        invariant Record(results, EntriesPairs(es[..i])) == Some(acc)
      {
        assert es[..i + 1][..i] == es[..i];
        RecordAppend(results, EntriesPairs(es[..i]), EntryPairs(es[i].key, es[i].value));
        var next := RecordEntry(es[i].key, es[i].value, acc);
        if next.None? {
          EntriesPairsPrefix(es, i + 1);
          RecordThrownPrefix(results, EntriesPairs(es[..i + 1]), EntriesPairs(es));
          return None;
        }
        acc := next.value;
        i := i + 1;
      }
      assert es[..i] == es;
      r := Some(acc);
  }

  /** The body of the loop over Object.entries in findAllKeyValues; None when it throws. */
  method RecordEntry(key: string, entry: Value, results: Flat) returns (r: Option<Flat>)
    ensures r == Record(results, EntryPairs(key, entry))
    decreases entry, 1
  {
    match entry
    case Str(s) =>
      assert Record(results, [Pair(key, s)]) == TryInsert(results, key, s) by {
        assert [Pair(key, s)][..0] == [];
      }
      if InheritedKey(key) && SlotOf(results, key).None? {
        return None;
      }
      r := Some(Insert(results, key, s));
    case Arr(children) =>
      var acc := results;
      var j := 0;
      while j < |children|
        invariant j <= |children|
        invariant Record(results, ChildrenPairs(children[..j])) == Some(acc)
      {
        assert children[..j + 1][..j] == children[..j];
        RecordAppend(results, ChildrenPairs(children[..j]), Pairs(children[j]));
        var next := FindAllKeyValues(children[j], acc);
        if next.None? {
          ChildrenPairsPrefix(children, j + 1);
          RecordThrownPrefix(results, ChildrenPairs(children[..j + 1]), ChildrenPairs(children));
          return None;
        }
        acc := next.value;
        j := j + 1;
      }
      assert children[..j] == children;
      r := Some(acc);
    case Obj(_) =>
      r := FindAllKeyValues(entry, results);
  }

  /** Each key's list is its old list followed by the texts recorded under it,
      in walk order: nothing recorded earlier is removed. */
  lemma {:induction false} BuildValues(f: Flat, ps: seq<Pair>, key: string)
    ensures ValuesOf(Build(f, ps), key) == ValuesOf(f, key) + TextsFor(ps, key)
    decreases |ps|
  {
    if ps != [] {
      var n := |ps| - 1;
      BuildValues(f, ps[..n], key);
      var g := Build(f, ps[..n]);
      assert Build(f, ps) == Insert(g, ps[n].key, ps[n].text);
      if ps[n].key == key {
        assert ValuesOf(Build(f, ps), key) == ValuesOf(g, key) + [ps[n].text];
      } else {
        assert ValuesOf(Build(f, ps), key) == ValuesOf(g, key);
      }
    }
  }

  /** Keys stay distinct, old keys keep their places, and exactly the keys
      of the recorded pairs are added. */
  lemma {:induction false} BuildKeys(f: Flat, ps: seq<Pair>)
    requires DistinctKeys(f)
    ensures DistinctKeys(Build(f, ps))
    ensures |Build(f, ps)| >= |f| && Keys(Build(f, ps))[..|f|] == Keys(f)
    ensures forall k :: k in Keys(Build(f, ps)) <==> k in Keys(f) || k in PairKeys(ps)
    decreases |ps|
  {
    if ps != [] {
      var n := |ps| - 1;
      var g := Build(f, ps[..n]);
      BuildKeys(f, ps[..n]);
      InsertKeys(g, ps[n].key, ps[n].text);
    }
  }

  /** An insertion keeps the keys before it in place and adds at most its own key. */
  lemma InsertKeys(g: Flat, key: string, text: string)
    ensures var h := Insert(g, key, text);
      && |h| >= |g| && Keys(h)[..|g|] == Keys(g)
      && forall k :: k in Keys(h) <==> k in Keys(g) || k == key
  {
  }

  /** The keys of the pairs, in walk order. */
  function PairKeys(ps: seq<Pair>): seq<string> {
    if ps == [] then [] else PairKeys(ps[..|ps| - 1]) + [ps[|ps| - 1].key]
  }

  /** Strings sitting directly inside an array are never recorded. */
  lemma {:induction false} ArrayTextsNotRecorded(children: seq<Value>)
    requires forall i :: 0 <= i < |children| ==> children[i].Str?
    ensures ChildrenPairs(children) == []
    decreases |children|
  {
    if children != [] {
      ArrayTextsNotRecorded(children[..|children| - 1]);
    }
  }
}
