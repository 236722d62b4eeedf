/**
 * The hydration manifest hash (backend/python/services/hydration_service.py): volatile keys
 * are removed at every depth, keys are sorted, and the text of the result is hashed.
 */
module Manifest {
  import opened Text
  import opened JsonText
  import opened StringOrder

  predicate Excluded(key: string) {
    key == "manifest_hash" || key == "manifest_version" || key == "current_server_time"
  }

  function Clean(j: Json): Json
    decreases j, 0
  {
    match j
    case List(items) => List(CleanList(items))
    case Dict(entries) => Dict(CleanItems(entries))
    case _ => j
  }

  function CleanList(items: seq<Json>): seq<Json>
    decreases items, 1
  {
    if items == [] then [] else [Clean(items[0])] + CleanList(items[1..])
  }

  function CleanItems(entries: seq<Item>): seq<Item>
    decreases entries, 1
  {
    if entries == [] then []
    else
      var rest := CleanItems(entries[1..]);
      if Excluded(entries[0].key) then rest
      else [Item(entries[0].key, Clean(entries[0].value))] + rest
  }

  // ---- Sorting keys ----

  function Insert(e: Item, sorted: seq<Item>): seq<Item> {
    if sorted == [] || KeyLess(e.key, sorted[0].key) then [e] + sorted
    else [sorted[0]] + Insert(e, sorted[1..])
  }

  /** The tree json.dumps prints with sort_keys: every dictionary in key order. */
  function Normalised(j: Json): Json
    decreases j, 0
  {
    match j
    case List(items) => List(NormalisedList(items))
    case Dict(entries) => Dict(NormalisedItems(entries))
    case _ => j
  }

  function NormalisedList(items: seq<Json>): seq<Json>
    decreases items, 1
  {
    if items == [] then [] else [Normalised(items[0])] + NormalisedList(items[1..])
  }

  function NormalisedItems(entries: seq<Item>): seq<Item>
    decreases entries, 1
  {
    if entries == [] then []
    else Insert(Item(entries[0].key, Normalised(entries[0].value)), NormalisedItems(entries[1..]))
  }

  /** The text whose hash is the manifest hash. */
  function ManifestText(payload: Json): string {
    Print(Normalised(Clean(payload)))
  }

  // ---- What a tree means ----

  /** A tree whose dictionaries are maps: key order is gone. */
  datatype Tree =
    | TNull
    | TBool(b: bool)
    | TNum(n: int)
    | TStr(s: string)
    | TList(items: seq<Tree>)
    | TDict(entries: map<string, Tree>)

  function Meaning(j: Json): Tree
    decreases j, 0
  {
    match j
    case Null => TNull
    case Bool(b) => TBool(b)
    case Num(n) => TNum(n)
    case Str(s) => TStr(s)
    case List(items) => TList(MeaningList(items))
    case Dict(entries) => TDict(MeaningItems(entries))
  }

  function MeaningList(items: seq<Json>): seq<Tree>
    decreases items, 1
  {
    if items == [] then [] else [Meaning(items[0])] + MeaningList(items[1..])
  }

  function MeaningItems(entries: seq<Item>): map<string, Tree>
    decreases entries, 1
  {
    if entries == [] then map[]
    else MeaningItems(entries[1..])[entries[0].key := Meaning(entries[0].value)]
  }

  /** No dictionary of the tree has a key twice, as in any Python dict. */
  predicate Distinct(j: Json)
    decreases j, 0
  {
    match j
    case List(items) => DistinctList(items)
    case Dict(entries) => DistinctItems(entries)
    case _ => true
  }

  predicate DistinctList(items: seq<Json>)
    decreases items, 1
  {
    items == [] || (Distinct(items[0]) && DistinctList(items[1..]))
  }

  predicate DistinctItems(entries: seq<Item>)
    decreases entries, 1
  {
    entries == [] ||
    (Distinct(entries[0].value) && entries[0].key !in MeaningItems(entries[1..]) && DistinctItems(entries[1..]))
  }

  /** Every dictionary of the tree is in strict key order. */
  predicate Normal(j: Json)
    decreases j, 0
  {
    match j
    case List(items) => NormalList(items)
    case Dict(entries) => NormalItems(entries)
    case _ => true
  }

  predicate NormalList(items: seq<Json>)
    decreases items, 1
  {
    items == [] || (Normal(items[0]) && NormalList(items[1..]))
  }

  predicate NormalItems(entries: seq<Item>)
    decreases entries, 1
  {
    entries == [] ||
    (Normal(entries[0].value) && Below(entries[0].key, entries[1..]) && NormalItems(entries[1..]))
  }

  /** `key` comes strictly before every key of `entries`. */
  predicate Below(key: string, entries: seq<Item>) {
    forall i :: 0 <= i < |entries| ==> KeyLess(key, entries[i].key)
  }

  // ---- Normalising keeps the meaning and sorts ----

  lemma {:induction false} InsertKeeps(e: Item, sorted: seq<Item>)
    requires NormalItems(sorted) && Normal(e.value) && e.key !in MeaningItems(sorted)
    ensures NormalItems(Insert(e, sorted))
    ensures MeaningItems(Insert(e, sorted)) == MeaningItems(sorted)[e.key := Meaning(e.value)]
    ensures forall k :: Below(k, sorted) && KeyLess(k, e.key) ==> Below(k, Insert(e, sorted))
  {
    hide Meaning, Normal;
    if sorted == [] {
      assert [e][1..] == [];
    } else {
      var s := sorted[0];
      KeyTotal(e.key, s.key);
      if KeyLess(e.key, s.key) {
        assert ([e] + sorted)[1..] == sorted;
        forall i | 0 <= i < |sorted| ensures KeyLess(e.key, sorted[i].key) {
          if i > 0 { assert sorted[i] == sorted[1..][i - 1]; KeyTransitive(e.key, s.key, sorted[i].key); }
        }
      } else {
        InsertKeeps(e, sorted[1..]);
        assert ([s] + Insert(e, sorted[1..]))[1..] == Insert(e, sorted[1..]);
      }
    }
  }

  lemma {:induction false} NormalisedKeeps(j: Json)
    requires Distinct(j)
    ensures Normal(Normalised(j)) && Meaning(Normalised(j)) == Meaning(j)
    decreases j, 0
  {
    match j
    case List(items) => NormalisedListKeeps(items);
    case Dict(entries) => NormalisedItemsKeep(entries);
    case _ =>
  }

  lemma {:induction false} NormalisedListKeeps(items: seq<Json>)
    requires DistinctList(items)
    ensures NormalList(NormalisedList(items)) && MeaningList(NormalisedList(items)) == MeaningList(items)
    decreases items, 1
  {
    hide Normal, Meaning, Normalised, Distinct;
    if items != [] {
      NormalisedKeeps(items[0]);
      NormalisedListKeeps(items[1..]);
      assert NormalisedList(items)[1..] == NormalisedList(items[1..]);
    }
  }

  lemma {:induction false} NormalisedItemsKeep(entries: seq<Item>)
    requires DistinctItems(entries)
    ensures NormalItems(NormalisedItems(entries)) && MeaningItems(NormalisedItems(entries)) == MeaningItems(entries)
    decreases entries, 1
  {
    hide Normal, Meaning, Normalised, Distinct;
    if entries != [] {
      NormalisedKeeps(entries[0].value);
      NormalisedItemsKeep(entries[1..]);
      InsertKeeps(Item(entries[0].key, Normalised(entries[0].value)), NormalisedItems(entries[1..]));
    }
  }

  // ---- A normal tree is determined by its meaning ----

  lemma {:induction false} KeysAreBelow(key: string, entries: seq<Item>)
    requires Below(key, entries)
    ensures forall k :: k in MeaningItems(entries) ==> KeyLess(key, k)
  {
    hide Meaning;
    if entries != [] {
      assert forall i :: 0 <= i < |entries[1..]| ==> entries[1..][i] == entries[i + 1];
      KeysAreBelow(key, entries[1..]);
    }
  }

  lemma {:induction false} SameMeaning(a: Json, b: Json)
    requires Normal(a) && Normal(b) && Meaning(a) == Meaning(b)
    ensures a == b
    decreases a, 0
  {
    match a
    case List(items) => SameMeaningList(items, b.items);
    case Dict(entries) => SameMeaningItems(entries, b.entries);
    case _ =>
  }

  lemma {:induction false} SameMeaningList(a: seq<Json>, b: seq<Json>)
    requires NormalList(a) && NormalList(b) && MeaningList(a) == MeaningList(b)
    ensures a == b
    decreases a, 1
  {
    hide Normal, Meaning;
    if a != [] {
      assert MeaningList(a)[0] == Meaning(a[0]) && MeaningList(a)[1..] == MeaningList(a[1..]);
      assert b != [] && MeaningList(b)[0] == Meaning(b[0]) && MeaningList(b)[1..] == MeaningList(b[1..]);
      SameMeaning(a[0], b[0]);
      SameMeaningList(a[1..], b[1..]);
      assert a == [a[0]] + a[1..] && b == [b[0]] + b[1..];
    }
  }

  /** The first key of a normal dictionary is its least one. */
  lemma FirstKey(a: seq<Item>, b: seq<Item>)
    requires NormalItems(a) && NormalItems(b) && a != [] && MeaningItems(a) == MeaningItems(b)
    ensures b != [] && a[0].key == b[0].key && Meaning(a[0].value) == Meaning(b[0].value)
    ensures MeaningItems(a[1..]) == MeaningItems(b[1..])
  {
    hide Normal, Meaning;
    assert a[0].key in MeaningItems(b);
    KeysAreBelow(a[0].key, a[1..]);
    KeysAreBelow(b[0].key, b[1..]);
    KeyTotal(a[0].key, b[0].key);
    KeyTotal(a[0].key, a[0].key);
    assert b[0].key in MeaningItems(a);
    var k := a[0].key;
    assert MeaningItems(a[1..]) == MeaningItems(a) - {k};
    assert MeaningItems(b[1..]) == MeaningItems(b) - {k};
  }

  lemma {:induction false} SameMeaningItems(a: seq<Item>, b: seq<Item>)
    requires NormalItems(a) && NormalItems(b) && MeaningItems(a) == MeaningItems(b)
    ensures a == b
    decreases a, 1
  {
    hide Normal, Meaning;
    assert b != [] ==> b[0].key in MeaningItems(b);
    if a != [] {
      FirstKey(a, b);
      SameMeaning(a[0].value, b[0].value);
      SameMeaningItems(a[1..], b[1..]);
      assert a == [a[0]] + a[1..] && b == [b[0]] + b[1..];
    }
  }

  // ---- Cleaning ----

  lemma {:induction false} CleanKeepsDistinct(j: Json)
    requires Distinct(j)
    ensures Distinct(Clean(j))
    decreases j, 0
  {
    match j
    case List(items) => CleanListKeepsDistinct(items);
    case Dict(entries) => CleanItemsKeepDistinct(entries);
    case _ =>
  }

  lemma {:induction false} CleanListKeepsDistinct(items: seq<Json>)
    requires DistinctList(items)
    ensures DistinctList(CleanList(items))
    decreases items, 1
  {
    hide Distinct, Clean;
    if items != [] {
      CleanKeepsDistinct(items[0]);
      CleanListKeepsDistinct(items[1..]);
      assert CleanList(items)[1..] == CleanList(items[1..]);
    }
  }

  lemma {:induction false} CleanItemsKeepDistinct(entries: seq<Item>)
    requires DistinctItems(entries)
    ensures DistinctItems(CleanItems(entries))
    ensures forall k :: k in MeaningItems(CleanItems(entries)) <==> k in MeaningItems(entries) && !Excluded(k)
    decreases entries, 1
  {
    hide Distinct, Clean, Meaning, Excluded;
    if entries != [] {
      CleanKeepsDistinct(entries[0].value);
      CleanItemsKeepDistinct(entries[1..]);
      if !Excluded(entries[0].key) {
        assert CleanItems(entries)[1..] == CleanItems(entries[1..]);
      }
    }
  }

  /**
   * Two payloads get the same manifest text exactly when, after cleaning, they are equal as
   * trees of unordered maps.
   */
  lemma CanonicalForm(a: Json, b: Json)
    requires Distinct(a) && Distinct(b)
    ensures ManifestText(a) == ManifestText(b) <==> Meaning(Clean(a)) == Meaning(Clean(b))
  {
    hide Print, Clean, Normalised, Meaning, Normal, Distinct;
    var m, n := Normalised(Clean(a)), Normalised(Clean(b));
    CleanKeepsDistinct(a);
    CleanKeepsDistinct(b);
    NormalisedKeeps(Clean(a));
    NormalisedKeeps(Clean(b));
    if Meaning(m) == Meaning(n) { SameMeaning(m, n); }
    if Print(m) == Print(n) {
      assert Print(m) + "" == Print(n) + "";
      PrintInjective(m, n, "", "");
    }
  }

  // ---- What the text ignores ----

  /** In a dictionary without repeated keys, each entry's value is the one its key has. */
  lemma {:induction false} Lookup(entries: seq<Item>)
    requires DistinctItems(entries)
    ensures forall e :: e in entries ==>
              e.key in MeaningItems(entries) && MeaningItems(entries)[e.key] == Meaning(e.value)
    ensures forall k :: k in MeaningItems(entries) ==> exists e :: e in entries && e.key == k
  {
    hide Meaning, Distinct;
    if entries != [] {
      Lookup(entries[1..]);
      assert forall e :: e in entries <==> e == entries[0] || e in entries[1..];
    }
  }

  /** Dictionaries with the same entries, in whatever order, mean the same. */
  lemma OrderIrrelevant(a: seq<Item>, b: seq<Item>)
    requires DistinctItems(a) && DistinctItems(b) && forall e :: e in a <==> e in b
    ensures MeaningItems(a) == MeaningItems(b)
  {
    hide Meaning, Distinct;
    Lookup(a);
    Lookup(b);
    forall k ensures k in MeaningItems(a) <==> k in MeaningItems(b) {
      if k in MeaningItems(a) {
        var e :| e in a && e.key == k;
        assert e in b;
      }
      if k in MeaningItems(b) {
        var e :| e in b && e.key == k;
        assert e in a;
      }
    }
    forall k | k in MeaningItems(a) ensures MeaningItems(a)[k] == MeaningItems(b)[k] {
      var e :| e in a && e.key == k;
      assert e in b;
    }
  }

  /** `b` is `a` without some entries that have excluded keys, at whatever depth. */
  predicate Strips(a: Json, b: Json)
    decreases a, 0
  {
    match a
    case List(items) => b.List? && StripsList(items, b.items)
    case Dict(entries) => b.Dict? && StripsItems(entries, b.entries)
    case _ => a == b
  }

  predicate StripsList(a: seq<Json>, b: seq<Json>)
    decreases a, 1
  {
    if a == [] then b == [] else b != [] && Strips(a[0], b[0]) && StripsList(a[1..], b[1..])
  }

  predicate StripsItems(a: seq<Item>, b: seq<Item>)
    decreases a, 1
  {
    if a == [] then b == []
    else
      || (b != [] && a[0].key == b[0].key && Strips(a[0].value, b[0].value) && StripsItems(a[1..], b[1..]))
      || (Excluded(a[0].key) && StripsItems(a[1..], b))
  }

  lemma {:induction false} StripsCleans(a: Json, b: Json)
    requires Strips(a, b)
    ensures Clean(a) == Clean(b)
    decreases a, 0
  {
    match a
    case List(items) => StripsCleansList(items, b.items);
    case Dict(entries) => StripsCleansItems(entries, b.entries);
    case _ =>
  }

  lemma {:induction false} StripsCleansList(a: seq<Json>, b: seq<Json>)
    requires StripsList(a, b)
    ensures CleanList(a) == CleanList(b)
    decreases a, 1
  {
    hide Strips, Clean;
    if a != [] {
      StripsCleans(a[0], b[0]);
      StripsCleansList(a[1..], b[1..]);
    }
  }

  lemma {:induction false} StripsCleansItems(a: seq<Item>, b: seq<Item>)
    requires StripsItems(a, b)
    ensures CleanItems(a) == CleanItems(b)
    decreases a, 1
  {
    hide Strips, Clean, Excluded;
    if a != [] {
      if b != [] && a[0].key == b[0].key && Strips(a[0].value, b[0].value) && StripsItems(a[1..], b[1..]) {
        StripsCleans(a[0].value, b[0].value);
        StripsCleansItems(a[1..], b[1..]);
      } else {
        StripsCleansItems(a[1..], b);
      }
    }
  }

  /** Excluded keys never show in the text, in whatever dictionary of the payload they stand. */
  lemma ExcludedIgnored(a: Json, b: Json)
    requires Strips(a, b)
    ensures ManifestText(a) == ManifestText(b)
  {
    hide Strips, Clean;
    StripsCleans(a, b);
  }

  lemma ExcludedKeys(key: string)
    ensures Excluded(key) <==> key in {"manifest_hash", "manifest_version", "current_server_time"}
  {
  }

  /** No dictionary of the tree has an excluded key. */
  predicate Stripped(j: Json)
    decreases j, 0
  {
    match j
    case List(items) => StrippedList(items)
    case Dict(entries) => StrippedItems(entries)
    case _ => true
  }

  predicate StrippedList(items: seq<Json>)
    decreases items, 1
  {
    items == [] || (Stripped(items[0]) && StrippedList(items[1..]))
  }

  predicate StrippedItems(entries: seq<Item>)
    decreases entries, 1
  {
    entries == [] || (!Excluded(entries[0].key) && Stripped(entries[0].value) && StrippedItems(entries[1..]))
  }

  /** Cleaning removes every excluded key, and changes exactly the trees that have one. */
  lemma {:induction false} CleanExact(j: Json)
    ensures Stripped(Clean(j)) && Strips(j, Clean(j)) && (Clean(j) == j <==> Stripped(j))
    decreases j, 0
  {
    match j
    case List(items) => CleanExactList(items);
    case Dict(entries) => CleanExactItems(entries);
    case _ =>
  }

  lemma {:induction false} CleanExactList(items: seq<Json>)
    ensures StrippedList(CleanList(items)) && StripsList(items, CleanList(items))
    ensures CleanList(items) == items <==> StrippedList(items)
    decreases items, 1
  {
    hide Stripped, Strips, Clean;
    if items != [] {
      CleanExact(items[0]);
      CleanExactList(items[1..]);
      assert CleanList(items)[1..] == CleanList(items[1..]);
      assert items == [items[0]] + items[1..];
    }
  }

  lemma {:induction false} CleanExactItems(entries: seq<Item>)
    ensures StrippedItems(CleanItems(entries)) && StripsItems(entries, CleanItems(entries))
    ensures CleanItems(entries) == entries <==> StrippedItems(entries)
    ensures |CleanItems(entries)| <= |entries|
    decreases entries, 1
  {
    hide Stripped, Strips, Clean, Excluded;
    if entries != [] {
      var e := entries[0];
      CleanExact(e.value);
      CleanExactItems(entries[1..]);
      assert entries == [e] + entries[1..];
      if !Excluded(e.key) {
        assert CleanItems(entries)[1..] == CleanItems(entries[1..]);
        assert CleanItems(entries)[0] == Item(e.key, Clean(e.value));
        assert Item(e.key, Clean(e.value)) == e <==> Clean(e.value) == e.value;
      }
    }
  }

  /** Cleaning a payload first makes no difference to its text. */
  lemma CleanedTextSame(j: Json)
    ensures Clean(Clean(j)) == Clean(j) && ManifestText(Clean(j)) == ManifestText(j)
  {
    hide Clean, Stripped, Strips;
    CleanExact(j);
    CleanExact(Clean(j));
  }

  /** A value may be replaced by one with the same cleaned meaning, in any dictionary. */
  lemma {:induction false} ValueReplaced(entries: seq<Item>, i: nat, v: Json)
    requires i < |entries| && Meaning(Clean(v)) == Meaning(Clean(entries[i].value))
    ensures MeaningItems(CleanItems(entries[i := Item(entries[i].key, v)])) == MeaningItems(CleanItems(entries))
  {
    hide Clean, Meaning, Excluded;
    var entries' := entries[i := Item(entries[i].key, v)];
    if i == 0 {
      assert entries'[1..] == entries[1..];
      CleanFirst(entries);
      CleanFirst(entries');
    } else {
      assert entries'[1..] == entries[1..][i - 1 := Item(entries[1..][i - 1].key, v)];
      ValueReplaced(entries[1..], i - 1, v);
      CleanFirst(entries);
      CleanFirst(entries');
    }
  }

  lemma CleanFirst(entries: seq<Item>)
    requires entries != []
    ensures var e, rest := entries[0], MeaningItems(CleanItems(entries[1..]));
            MeaningItems(CleanItems(entries)) ==
            if Excluded(e.key) then rest else rest[e.key := Meaning(Clean(e.value))]
  {
    hide Clean, Meaning, Excluded;
    if !Excluded(entries[0].key) {
      assert CleanItems(entries)[1..] == CleanItems(entries[1..]);
    }
  }

  // ---- Replacing a part of a payload, at any depth ----

  /** Positions to follow from the root, through lists and dictionaries. */
  type Path = seq<nat>

  predicate HasPath(j: Json, path: Path)
    decreases |path|
  {
    path == [] ||
    match j
    case List(items) => path[0] < |items| && HasPath(items[path[0]], path[1..])
    case Dict(entries) => path[0] < |entries| && HasPath(entries[path[0]].value, path[1..])
    case _ => false
  }

  function Sub(j: Json, path: Path): Json
    requires HasPath(j, path)
    decreases |path|
  {
    if path == [] then j
    else if j.List? then Sub(j.items[path[0]], path[1..])
    else Sub(j.entries[path[0]].value, path[1..])
  }

  function Put(j: Json, path: Path, v: Json): Json
    requires HasPath(j, path)
    decreases |path|
  {
    if path == [] then v
    else if j.List? then List(j.items[path[0] := Put(j.items[path[0]], path[1..], v)])
    else
      var e := j.entries[path[0]];
      Dict(j.entries[path[0] := Item(e.key, Put(e.value, path[1..], v))])
  }

  lemma {:induction false} ElementReplaced(items: seq<Json>, i: nat, v: Json)
    requires i < |items| && Meaning(Clean(v)) == Meaning(Clean(items[i]))
    ensures MeaningList(CleanList(items[i := v])) == MeaningList(CleanList(items))
  {
    hide Clean, Meaning;
    CleanHead(items);
    CleanHead(items[i := v]);
    if i == 0 {
      assert items[i := v][1..] == items[1..];
    } else {
      assert items[i := v][1..] == items[1..][i - 1 := v];
      ElementReplaced(items[1..], i - 1, v);
    }
  }

  lemma CleanHead(items: seq<Json>)
    requires items != []
    ensures MeaningList(CleanList(items)) == [Meaning(Clean(items[0]))] + MeaningList(CleanList(items[1..]))
  {
    hide Clean, Meaning;
    assert CleanList(items)[1..] == CleanList(items[1..]);
  }

  /** A part of a payload, at any depth, may be replaced by one with the same cleaned meaning. */
  lemma {:induction false} PartReplaced(j: Json, path: Path, v: Json)
    requires HasPath(j, path) && Meaning(Clean(v)) == Meaning(Clean(Sub(j, path)))
    ensures Meaning(Clean(Put(j, path, v))) == Meaning(Clean(j))
    decreases |path|
  {
    hide CleanItems, CleanList, MeaningItems, MeaningList;
    if path != [] {
      match j
      case List(items) =>
        PartReplaced(items[path[0]], path[1..], v);
        ElementReplaced(items, path[0], Put(items[path[0]], path[1..], v));
      case Dict(entries) =>
        PartReplaced(entries[path[0]].value, path[1..], v);
        ValueReplaced(entries, path[0], Put(entries[path[0]].value, path[1..], v));
    }
  }

  lemma {:induction false} DistinctAt(items: seq<Json>, i: nat, v: Json)
    requires DistinctList(items) && i < |items|
    ensures Distinct(items[i]) && (Distinct(v) ==> DistinctList(items[i := v]))
  {
    hide Distinct;
    if i > 0 {
      assert items[i := v][1..] == items[1..][i - 1 := v];
      DistinctAt(items[1..], i - 1, v);
    } else {
      assert items[i := v][1..] == items[1..];
    }
  }

  lemma {:induction false} PutDistinct(j: Json, path: Path, v: Json)
    requires HasPath(j, path) && Distinct(j) && Distinct(v)
    ensures Distinct(Put(j, path, v))
    decreases |path|
  {
    hide DistinctItems, DistinctList;
    if path != [] {
      match j
      case List(items) =>
        DistinctAt(items, path[0], v);
        PutDistinct(items[path[0]], path[1..], v);
        DistinctAt(items, path[0], Put(items[path[0]], path[1..], v));
      case Dict(entries) =>
        DistinctValue(entries, path[0]);
        PutDistinct(entries[path[0]].value, path[1..], v);
        ReplacedDistinct(entries, path[0], Put(entries[path[0]].value, path[1..], v));
    }
  }

  lemma {:induction false} DistinctValue(entries: seq<Item>, i: nat)
    requires DistinctItems(entries) && i < |entries|
    ensures Distinct(entries[i].value)
  {
    if i > 0 { DistinctValue(entries[1..], i - 1); }
  }

  /** The text does not tell parts with the same cleaned meaning apart, wherever they stand. */
  lemma PartUnseen(j: Json, path: Path, v: Json)
    requires HasPath(j, path) && Distinct(j) && Distinct(v)
    requires Meaning(Clean(v)) == Meaning(Clean(Sub(j, path)))
    ensures ManifestText(Put(j, path, v)) == ManifestText(j)
  {
    hide Distinct, Clean, Meaning, ManifestText;
    PutDistinct(j, path, v);
    PartReplaced(j, path, v);
    CanonicalForm(Put(j, path, v), j);
  }

  // ---- Rosters ----

  type Pair = (string, string)

  /** The enrolled students of a section and course, and the code of a course, its id if unknown. */
  datatype Tables = Tables(students: Pair -> seq<Json>, code: string -> string)

  function RosterKey(db: Tables, p: Pair): string {
    p.0 + "_" + db.code(p.1)
  }

  /** Assignment to a dictionary: a known key keeps its place. */
  function Assigned(entries: seq<Item>, key: string, value: Json): seq<Item> {
    if entries == [] then [Item(key, value)]
    else if entries[0].key == key then [Item(key, value)] + entries[1..]
    else [entries[0]] + Assigned(entries[1..], key, value)
  }

  /** The rosters of the pairs, visited in this order; a roster without students is not stored. */
  function Rosters(pairs: seq<Pair>, db: Tables): seq<Item> {
    if pairs == [] then []
    else
      var p := pairs[|pairs| - 1];
      var before := Rosters(pairs[..|pairs| - 1], db);
      if db.students(p) == [] then before else Assigned(before, RosterKey(db, p), List(db.students(p)))
  }

  /** `_build_rosters`, for one iteration order of the set of pairs. */
  method BuildRosters(pairs: seq<Pair>, db: Tables) returns (rosters: seq<Item>)
    ensures rosters == Rosters(pairs, db)
  {
    rosters := [];
    var i := 0;
    while i < |pairs|
      invariant 0 <= i <= |pairs| && rosters == Rosters(pairs[..i], db)
    {
      var p := pairs[i];
      assert pairs[..i + 1][..i] == pairs[..i];
      if db.students(p) != [] {
        rosters := Assigned(rosters, RosterKey(db, p), List(db.students(p)));
      }
      i := i + 1;
    }
    assert pairs[..|pairs|] == pairs;
  }

  lemma {:induction false} AssignedMeans(entries: seq<Item>, key: string, value: Json)
    ensures MeaningItems(Assigned(entries, key, value)) == MeaningItems(entries)[key := Meaning(value)]
  {
    hide Meaning;
    if entries == [] {
      assert [Item(key, value)][1..] == [];
    } else if entries[0].key == key {
      assert ([Item(key, value)] + entries[1..])[1..] == entries[1..];
    } else {
      AssignedMeans(entries[1..], key, value);
      assert Assigned(entries, key, value)[1..] == Assigned(entries[1..], key, value);
    }
  }

  // ---- What the order of the pairs decides ----

  /** The pair visited last among those with students and this key. */
  function LastWith(pairs: seq<Pair>, db: Tables, key: string): Option<Pair> {
    if pairs == [] then None
    else
      var p := pairs[|pairs| - 1];
      if db.students(p) != [] && RosterKey(db, p) == key then Some(p)
      else LastWith(pairs[..|pairs| - 1], db, key)
  }

  lemma {:induction false} LastWithExists(pairs: seq<Pair>, db: Tables, key: string)
    ensures LastWith(pairs, db, key).Some? <==>
              exists p :: p in pairs && db.students(p) != [] && RosterKey(db, p) == key
    ensures var r := LastWith(pairs, db, key);
            r.Some? ==> r.value in pairs && db.students(r.value) != [] && RosterKey(db, r.value) == key
  {
    hide RosterKey;
    if pairs != [] {
      var n := |pairs| - 1;
      LastWithExists(pairs[..n], db, key);
      assert forall p :: p in pairs <==> p in pairs[..n] || p == pairs[n];
    }
  }

  /** The stored rosters: under each key the students of the pair visited last, nothing else. */
  lemma {:induction false} RostersAre(pairs: seq<Pair>, db: Tables, key: string)
    ensures var m := MeaningItems(Rosters(pairs, db));
            var last := LastWith(pairs, db, key);
            && (key in m <==> last.Some?)
            && (last.Some? ==> m[key] == Meaning(List(db.students(last.value))))
  {
    hide RosterKey, Meaning, Assigned;
    if pairs != [] {
      var n := |pairs| - 1;
      RostersAre(pairs[..n], db, key);
      AssignedMeans(Rosters(pairs[..n], db), RosterKey(db, pairs[n]), List(db.students(pairs[n])));
    }
  }

  /** Assignment as cleaning sees it. */
  lemma {:induction false} AssignedCleans(entries: seq<Item>, key: string, value: Json)
    ensures var m := MeaningItems(CleanItems(entries));
            MeaningItems(CleanItems(Assigned(entries, key, value)))
            == if Excluded(key) then m else m[key := Meaning(Clean(value))]
  {
    hide Meaning, Clean, Excluded;
    var after := Assigned(entries, key, value);
    CleanFirst(after);
    if entries == [] {
      assert after[1..] == [];
    } else {
      CleanFirst(entries);
      if entries[0].key == key {
        assert after[1..] == entries[1..];
      } else {
        AssignedCleans(entries[1..], key, value);
        assert after[1..] == Assigned(entries[1..], key, value);
      }
    }
  }

  /** What is stored under a key after cleaning. */
  function Stored(pairs: seq<Pair>, db: Tables, key: string): Option<Tree> {
    var m := MeaningItems(CleanItems(Rosters(pairs, db)));
    if key in m then Some(m[key]) else None
  }

  function CleanRoster(db: Tables, p: Pair): Tree {
    Meaning(Clean(List(db.students(p))))
  }

  /** Under each key stands the roster of the pair visited last, if the key is not excluded. */
  lemma {:induction false} RosterStored(pairs: seq<Pair>, db: Tables, key: string)
    ensures Stored(pairs, db, key) ==
            if !Excluded(key) && LastWith(pairs, db, key).Some?
            then Some(CleanRoster(db, LastWith(pairs, db, key).value)) else None
  {
    hide RosterKey, Meaning, Clean, Excluded, Assigned;
    if pairs == [] {
      assert CleanItems([]) == [];
    } else {
      var n := |pairs| - 1;
      var p := pairs[n];
      RosterStored(pairs[..n], db, key);
      AssignedCleans(Rosters(pairs[..n], db), RosterKey(db, p), List(db.students(p)));
    }
  }

  /** The same pairs in some order, each visited once: an iteration order of one set. */
  ghost predicate Reordered(a: seq<Pair>, b: seq<Pair>) {
    && (forall p :: p in a <==> p in b)
    && (forall i, j :: 0 <= i < j < |b| ==> b[i] != b[j])
  }

  /** Pairs that share a key the cleaning keeps have rosters it cannot tell apart. */
  ghost predicate Harmless(pairs: seq<Pair>, db: Tables) {
    forall p, q ::
      (&& p in pairs && q in pairs && db.students(p) != [] && db.students(q) != []
       && RosterKey(db, p) == RosterKey(db, q) && !Excluded(RosterKey(db, p))) ==>
        CleanRoster(db, p) == CleanRoster(db, q)
  }

  function RosterTree(pairs: seq<Pair>, db: Tables): Tree {
    Meaning(Clean(Dict(Rosters(pairs, db))))
  }

  lemma SameStored(a: seq<Pair>, b: seq<Pair>, db: Tables)
    ensures RosterTree(a, db) == RosterTree(b, db) <==>
              forall key :: Stored(a, db, key) == Stored(b, db, key)
  {
    hide Rosters, CleanItems, MeaningItems, Excluded;
    var m, n := MeaningItems(CleanItems(Rosters(a, db))), MeaningItems(CleanItems(Rosters(b, db)));
    if forall key :: Stored(a, db, key) == Stored(b, db, key) {
      forall k ensures k in m <==> k in n {
        assert Stored(a, db, k) == Stored(b, db, k);
      }
      forall k | k in m ensures m[k] == n[k] {
        assert Stored(a, db, k) == Stored(b, db, k);
      }
    }
  }

  lemma HarmlessSame(a: seq<Pair>, b: seq<Pair>, db: Tables)
    requires Harmless(a, db) && forall p :: p in a <==> p in b
    ensures RosterTree(a, db) == RosterTree(b, db)
  {
    hide RosterKey, Excluded, CleanRoster, RosterTree, Stored;
    forall key ensures Stored(a, db, key) == Stored(b, db, key) {
      RosterStored(a, db, key);
      RosterStored(b, db, key);
      LastWithExists(a, db, key);
      LastWithExists(b, db, key);
    }
    SameStored(a, b, db);
  }

  function Without(pairs: seq<Pair>, p: Pair): seq<Pair> {
    if pairs == [] then []
    else (if pairs[0] == p then [] else [pairs[0]]) + Without(pairs[1..], p)
  }

  lemma {:induction false} WithoutIs(pairs: seq<Pair>, p: Pair)
    requires forall i, j :: 0 <= i < j < |pairs| ==> pairs[i] != pairs[j]
    ensures forall q :: q in Without(pairs, p) <==> q in pairs && q != p
    ensures forall i, j :: 0 <= i < j < |Without(pairs, p)| ==> Without(pairs, p)[i] != Without(pairs, p)[j]
  {
    if pairs != [] {
      WithoutIs(pairs[1..], p);
      assert forall q :: q in pairs <==> q == pairs[0] || q in pairs[1..];
      assert pairs[0] !in pairs[1..];
    }
  }

  /** A pair visited last stores its own roster. */
  lemma VisitedLast(pairs: seq<Pair>, db: Tables, p: Pair) returns (b: seq<Pair>)
    requires Reordered(pairs, pairs) && p in pairs && db.students(p) != [] && !Excluded(RosterKey(db, p))
    ensures Reordered(pairs, b) && Stored(b, db, RosterKey(db, p)) == Some(CleanRoster(db, p))
  {
    hide RosterKey, Excluded, CleanRoster, Stored;
    WithoutIs(pairs, p);
    b := Without(pairs, p) + [p];
    RosterStored(b, db, RosterKey(db, p));
  }

  /**
   * The iteration order of the set of pairs does not show in the cleaned rosters exactly when
   * pairs that share a key have rosters with one cleaned meaning.
   */
  lemma RosterOrderExact(pairs: seq<Pair>, db: Tables)
    requires Reordered(pairs, pairs)
    ensures (forall b :: Reordered(pairs, b) ==> RosterTree(b, db) == RosterTree(pairs, db))
       <==> Harmless(pairs, db)
  {
    hide RosterKey, Excluded, CleanRoster, RosterTree, Stored, Rosters;
    if Harmless(pairs, db) {
      forall b | Reordered(pairs, b) ensures RosterTree(b, db) == RosterTree(pairs, db) {
        HarmlessSame(pairs, b, db);
      }
    }
    if forall b :: Reordered(pairs, b) ==> RosterTree(b, db) == RosterTree(pairs, db) {
      forall p, q | p in pairs && q in pairs && db.students(p) != [] && db.students(q) != [] &&
                    RosterKey(db, p) == RosterKey(db, q) && !Excluded(RosterKey(db, p))
        ensures CleanRoster(db, p) == CleanRoster(db, q)
      {
        var b := VisitedLast(pairs, db, p);
        var c := VisitedLast(pairs, db, q);
        SameStored(b, c, db);
      }
    }
  }

  // ---- Shared keys ----

  /** The second section is the first one and more after an underscore, which the second code lacks. */
  predicate Shifted(db: Tables, p: Pair, q: Pair) {
    && |p.0| < |q.0| && q.0[..|p.0|] == p.0 && q.0[|p.0|] == '_'
    && db.code(p.1) == q.0[|p.0| + 1..] + "_" + db.code(q.1)
  }

  /**
   * Two pairs share a roster key exactly when section and course code agree, or when part of the
   * longer section stands at the start of the other course code.
   */
  lemma RosterKeysCollide(db: Tables, p: Pair, q: Pair)
    requires |p.0| <= |q.0|
    ensures RosterKey(db, p) == RosterKey(db, q)
       <==> (p.0 == q.0 && db.code(p.1) == db.code(q.1)) || Shifted(db, p, q)
  {
    var k, l, n := RosterKey(db, p), RosterKey(db, q), |p.0|;
    assert k[..n] == p.0 && k[n] == '_' && k[n + 1..] == db.code(p.1);
    assert l[..n] == q.0[..n] && (n == |q.0| ==> l[n + 1..] == db.code(q.1));
    if n < |q.0| {
      assert l[n] == q.0[n] && l[n + 1..] == q.0[n + 1..] + "_" + db.code(q.1);
      assert l == l[..n] + [l[n]] + l[n + 1..] && k == k[..n] + [k[n]] + k[n + 1..];
    } else {
      assert q.0[..n] == q.0;
    }
  }

  /** Of two pairs that share a key the one visited last is stored, so their order can show. */
  lemma LastRosterWins(p: Pair, q: Pair, db: Tables)
    requires db.students(p) != [] && db.students(q) != []
    requires RosterKey(db, p) == RosterKey(db, q) && !Excluded(RosterKey(db, p))
    ensures RosterTree([p, q], db) == TDict(map[RosterKey(db, p) := CleanRoster(db, q)])
  {
    hide RosterKey, Excluded, CleanRoster;
    var m := MeaningItems(CleanItems(Rosters([p, q], db)));
    assert [p, q][..1] == [p] && [p][..0] == [];
    forall key ensures key in m <==> key == RosterKey(db, p)
               ensures key in m ==> m[key] == CleanRoster(db, q) {
      RosterStored([p, q], db, key);
      assert LastWith([p], db, key) == if key == RosterKey(db, p) then Some(p) else None;
      assert LastWith([p, q], db, key) == if key == RosterKey(db, p) then Some(q) else None;
    }
  }

  // ---- The rosters inside the payload ----

  lemma {:induction false} AssignedDistinct(entries: seq<Item>, key: string, value: Json)
    requires DistinctItems(entries) && Distinct(value)
    ensures DistinctItems(Assigned(entries, key, value))
  {
    hide Distinct, Meaning;
    var after := Assigned(entries, key, value);
    if entries == [] {
      assert after[1..] == [];
    } else if entries[0].key == key {
      assert after[1..] == entries[1..];
    } else {
      AssignedDistinct(entries[1..], key, value);
      AssignedMeans(entries[1..], key, value);
      assert after[1..] == Assigned(entries[1..], key, value);
    }
  }

  lemma {:induction false} RostersDistinct(pairs: seq<Pair>, db: Tables)
    requires forall p :: p in pairs ==> DistinctList(db.students(p))
    ensures DistinctItems(Rosters(pairs, db))
  {
    hide RosterKey, DistinctItems, DistinctList, Assigned;
    if pairs == [] {
      NothingDistinct();
    } else {
      var n := |pairs| - 1;
      assert forall p :: p in pairs[..n] ==> p in pairs;
      RostersDistinct(pairs[..n], db);
      AssignedDistinct(Rosters(pairs[..n], db), RosterKey(db, pairs[n]), List(db.students(pairs[n])));
    }
  }

  lemma NothingDistinct()
    ensures DistinctItems([])
  {
  }

  lemma {:induction false} CleanElements(entries: seq<Item>)
    ensures forall e :: e in CleanItems(entries) <==>
              exists f :: f in entries && !Excluded(f.key) && e == Item(f.key, Clean(f.value))
  {
    hide Clean, Excluded;
    if entries != [] {
      CleanElements(entries[1..]);
      assert forall f :: f in entries <==> f == entries[0] || f in entries[1..];
    }
  }

  lemma {:induction false} ReplacedDistinct(entries: seq<Item>, i: nat, v: Json)
    requires DistinctItems(entries) && i < |entries| && Distinct(v)
    ensures DistinctItems(entries[i := Item(entries[i].key, v)])
    ensures MeaningItems(entries[i := Item(entries[i].key, v)]).Keys == MeaningItems(entries).Keys
  {
    hide Distinct, Meaning;
    var entries' := entries[i := Item(entries[i].key, v)];
    if i == 0 {
      assert entries'[1..] == entries[1..];
    } else {
      assert entries'[1..] == entries[1..][i - 1 := Item(entries[1..][i - 1].key, v)];
      ReplacedDistinct(entries[1..], i - 1, v);
    }
  }

  function WithRosters(payload: seq<Item>, i: nat, pairs: seq<Pair>, db: Tables): Json
    requires i < |payload|
  {
    Dict(payload[i := Item(payload[i].key, Dict(Rosters(pairs, db)))])
  }

  /** Two payloads that differ in the rosters have one text exactly when the rosters mean the same. */
  lemma RostersSeen(payload: seq<Item>, i: nat, a: seq<Pair>, b: seq<Pair>, db: Tables)
    requires DistinctItems(payload) && i < |payload| && !Excluded(payload[i].key)
    requires forall p :: p in a || p in b ==> DistinctList(db.students(p))
    ensures ManifestText(WithRosters(payload, i, a, db)) == ManifestText(WithRosters(payload, i, b, db))
       <==> RosterTree(a, db) == RosterTree(b, db)
  {
    hide Rosters, DistinctItems, DistinctList, MeaningItems, ManifestText, Excluded, CleanItems;
    var va, vb := Dict(Rosters(a, db)), Dict(Rosters(b, db));
    RostersDistinct(a, db);
    RostersDistinct(b, db);
    var pa, pb := payload[i := Item(payload[i].key, va)], payload[i := Item(payload[i].key, vb)];
    ReplacedDistinct(payload, i, va);
    ReplacedDistinct(payload, i, vb);
    CanonicalForm(Dict(pa), Dict(pb));
    if Meaning(Clean(va)) == Meaning(Clean(vb)) {
      ValueReplaced(pa, i, vb);
      assert pa[i := Item(pa[i].key, vb)] == pb;
    } else {
      ValueSeen(pa, i);
      ValueSeen(pb, i);
    }
  }

  lemma ValueSeen(entries: seq<Item>, i: nat)
    requires DistinctItems(entries) && i < |entries| && !Excluded(entries[i].key)
    ensures var m := MeaningItems(CleanItems(entries));
            entries[i].key in m && m[entries[i].key] == Meaning(Clean(entries[i].value))
  {
    hide DistinctItems, MeaningItems, CleanItems, Excluded, Clean, Meaning;
    CleanElements(entries);
    CleanItemsKeepDistinct(entries);
    Lookup(CleanItems(entries));
    assert Item(entries[i].key, Clean(entries[i].value)) in CleanItems(entries);
  }

  /**
   * The manifest text of a payload does not depend on the order its rosters were built in
   * exactly when shared keys are harmless.
   */
  lemma ManifestOrderExact(payload: seq<Item>, i: nat, pairs: seq<Pair>, db: Tables)
    requires DistinctItems(payload) && i < |payload| && !Excluded(payload[i].key) && Reordered(pairs, pairs)
    requires forall p :: p in pairs ==> DistinctList(db.students(p))
    ensures (forall b :: Reordered(pairs, b) ==>
               ManifestText(WithRosters(payload, i, b, db)) == ManifestText(WithRosters(payload, i, pairs, db)))
       <==> Harmless(pairs, db)
  {
    hide Rosters, DistinctItems, DistinctList, ManifestText, WithRosters, RosterTree, Harmless, Excluded;
    RosterOrderExact(pairs, db);
    forall b | Reordered(pairs, b)
      ensures ManifestText(WithRosters(payload, i, b, db)) == ManifestText(WithRosters(payload, i, pairs, db))
         <==> RosterTree(b, db) == RosterTree(pairs, db)
    {
      RostersSeen(payload, i, b, pairs, db);
    }
  }
}
