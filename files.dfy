/**
 * The virtual filesystem store: an ordered tree in which every name maps to a file
 * (its text) or to a directory (a nested ordered map). Directories are resolved by a
 * path of names with a stop-early fallback, entries are written with map `set`
 * semantics, and the tree converts to and from a plain JavaScript object.
 */
module Files {
  import opened Wrappers
  import opened JsMap

  datatype Entry = File(text: string) | Dir(children: Assoc<Entry>)

  type Listing = Assoc<Entry>

  /** The texts of the seeded files; they come from static message modules. */
  datatype StaticTexts = StaticTexts(welcome: string, zipDiffViewer: string, neat: string, pemKey: string)

  /** The tree the store starts with when nothing was saved before. */
  function InitialDirs(texts: StaticTexts): Listing {
    [("bio.md", File(texts.welcome)),
     ("projects", Dir([("zip-diff-viewer.md", File(texts.zipDiffViewer)),
                       ("Neat.md", File(texts.neat))])),
     ("secret_keys.pem", File(texts.pemKey))]
  }

  predicate IsDirEntry(o: Option<Entry>) {
    o.Some? && o.value.Dir?
  }

  // ---------------------------------------------------------------------------
  // Paths

  /** The directory reached from `t` by following `p`, when every step is a directory. */
  function ListingAt(t: Listing, p: seq<string>): Option<Listing>
    decreases p
  {
    if p == [] then Some(t)
    else match Get<Entry>(t, p[0])
      case Some(Dir(sub)) => ListingAt(sub, p[1..])
      case _ => None
  }

  /** Following one more name, a directory, from a directory path. */
  lemma {:induction false} ListingAtDown(t: Listing, p: seq<string>, l: Listing, k: string, sub: Listing)
    requires ListingAt(t, p) == Some(l) && Get(l, k) == Some(Dir(sub))
    ensures ListingAt(t, p + [k]) == Some(sub)
    decreases p
  {
    if p != [] {
      assert (p + [k])[0] == p[0] && (p + [k])[1..] == p[1..] + [k];
      var next := Get(t, p[0]).value.children;
      ListingAtDown(next, p[1..], l, k, sub);
    }
  }

  /**
   * The part of `path` that `findMapAtPath` follows: the longest prefix that leads
   * through directories. It stops before the first name that is missing or a file.
   */
  function Resolve(t: Listing, path: seq<string>): (r: seq<string>)
    ensures r <= path
    ensures ListingAt(t, r).Some?
    decreases path
  {
    if path == [] then []
    else match Get<Entry>(t, path[0])
      case Some(Dir(sub)) =>
        var rest := Resolve(sub, path[1..]);
        assert ([path[0]] + rest)[1..] == rest;
        [path[0]] + rest
      case _ => []
  }

  /** `Resolve` stops only at the end of the path or before a name that is not a directory. */
  lemma {:induction false} ResolveStops(t: Listing, path: seq<string>)
    ensures var r := Resolve(t, path);
      |r| < |path| ==> !IsDirEntry(Get(ListingAt(t, r).value, path[|r|]))
    decreases path
  {
    if path != [] {
      match Get<Entry>(t, path[0])
      case Some(Dir(sub)) =>
        ResolveStops(sub, path[1..]);
        var rest := Resolve(sub, path[1..]);
        assert Resolve(t, path) == [path[0]] + rest;
        assert ([path[0]] + rest)[1..] == rest;
      case _ =>
    }
  }

  /** One step of `Resolve`. */
  lemma {:induction false} ResolveStep(t: Listing, path: seq<string>)
    requires path != []
    ensures Resolve(t, path) ==
      match Get<Entry>(t, path[0])
      case Some(Dir(sub)) => [path[0]] + Resolve(sub, path[1..])
      case _ => []
  {
  }

  /**
   * The state of the walk in `findMapAtPath`: `followed` leads through directories
   * to `dir`, and what `Resolve` follows from `dir` along `rest` completes it.
   */
  predicate Walked(t: Listing, path: seq<string>, followed: seq<string>, dir: Listing, rest: seq<string>) {
    path == followed + rest && ListingAt(t, followed) == Some(dir) && Resolve(t, path) == followed + Resolve(dir, rest)
  }

  /** The walk stops at a name that is not a directory, where `Resolve` stops. */
  lemma {:induction false} WalkStop(t: Listing, path: seq<string>, followed: seq<string>, dir: Listing, rest: seq<string>)
    requires Walked(t, path, followed, dir, rest) && rest != [] && !IsDirEntry(Get(dir, rest[0]))
    ensures Resolve(t, path) == followed
  {
    ResolveStep(dir, rest);
  }

  /** The walk ends with the whole path used up, where `Resolve` ends. */
  lemma {:induction false} WalkDone(t: Listing, path: seq<string>, followed: seq<string>, dir: Listing)
    requires Walked(t, path, followed, dir, [])
    ensures Resolve(t, path) == followed
  {
    assert followed + [] == followed;
  }

  /** At a directory, `Resolve` follows it and goes on from there. */
  lemma {:induction false} FollowStep(dir: Listing, k: string, sub: Listing, tail: seq<string>)
    requires Get(dir, k) == Some(Dir(sub))
    ensures Resolve(dir, [k] + tail) == [k] + Resolve(sub, tail)
  {
    ResolveStep(dir, [k] + tail);
    assert ([k] + tail)[1..] == tail;
  }

  /** At a directory, the walk moves one level down, as `Resolve` does. */
  lemma {:induction false} WalkDown(t: Listing, path: seq<string>, followed: seq<string>, dir: Listing, k: string, tail: seq<string>, sub: Listing)
    requires Walked(t, path, followed, dir, [k] + tail) && Get(dir, k) == Some(Dir(sub))
    ensures Walked(t, path, followed + [k], sub, tail)
  {
    ListingAtDown(t, followed, dir, k, sub);
    WalkDownPath(path, followed, k, tail);
    WalkDownResolve(t, path, followed, dir, k, tail, sub);
  }

  lemma {:induction false} WalkDownPath(path: seq<string>, followed: seq<string>, k: string, tail: seq<string>)
    requires path == followed + ([k] + tail)
    ensures path == (followed + [k]) + tail
  {
  }

  lemma {:induction false} WalkDownResolve(t: Listing, path: seq<string>, followed: seq<string>, dir: Listing, k: string, tail: seq<string>, sub: Listing)
    requires Resolve(t, path) == followed + Resolve(dir, [k] + tail) && Get(dir, k) == Some(Dir(sub))
    ensures Resolve(t, path) == (followed + [k]) + Resolve(sub, tail)
  {
    FollowStep(dir, k, sub, tail);
    var r := Resolve(sub, tail);
    assert followed + ([k] + r) == (followed + [k]) + r;
  }

  /** Every directory prefix of `path` is covered by what `Resolve` follows. */
  lemma {:induction false} ResolveLongest(t: Listing, path: seq<string>, q: seq<string>)
    requires q <= path && ListingAt(t, q).Some?
    ensures q <= Resolve(t, path)
    decreases path
  {
    if q != [] {
      match Get<Entry>(t, path[0])
      case Some(Dir(sub)) =>
        assert q[1..] <= path[1..];
        ResolveLongest(sub, path[1..], q[1..]);
      case _ =>
    }
  }

  /** The directory at which lookups and updates for `path` take place. */
  function ResolvedDir(t: Listing, path: seq<string>): Listing {
    ListingAt(t, Resolve(t, path)).value
  }

  /** `getFile(name, path)`: the text of file `name` in the resolved directory, else empty. */
  function FileAt(t: Listing, name: string, path: seq<string>): string {
    match Get<Entry>(ResolvedDir(t, path), name)
    case Some(File(s)) => s
    case _ => ""
  }

  // ---------------------------------------------------------------------------
  // Updates

  /**
   * `set(k, e)` performed on the directory at path `p`: the directories on the way
   * keep their positions and take the updated copy as their value.
   */
  function SetAt(t: Listing, p: seq<string>, k: string, e: Entry): Listing
    requires ListingAt(t, p).Some?
    decreases p
  {
    if p == [] then Set(t, k, e)
    else Set(t, p[0], Dir(SetAt(Get(t, p[0]).value.children, p[1..], k, e)))
  }

  /** Binding `name` to `e` in the directory that `path` resolves to. */
  function WithEntry(t: Listing, path: seq<string>, name: string, e: Entry): Listing {
    SetAt(t, Resolve(t, path), name, e)
  }

  /** The entry at a full path: all but the last name lead through directories. */
  function EntryAt(t: Listing, x: seq<string>): Option<Entry>
    requires |x| > 0
    decreases x
  {
    if |x| == 1 then Get(t, x[0])
    else match Get<Entry>(t, x[0])
      case Some(Dir(sub)) => EntryAt(sub, x[1..])
      case _ => None
  }

  lemma {:induction false} EntryAtSnoc(t: Listing, p: seq<string>, k: string)
    ensures EntryAt(t, p + [k]) == match ListingAt(t, p) case Some(l) => Get(l, k) case None => None
    decreases p
  {
    if p != [] {
      assert (p + [k])[0] == p[0] && (p + [k])[1..] == p[1..] + [k];
      match Get<Entry>(t, p[0])
      case Some(Dir(sub)) => EntryAtSnoc(sub, p[1..], k);
      case _ =>
    }
  }

  /** After `SetAt`, the directory at `p` is the old one with `k` set to `e`. */
  lemma {:induction false} SetAtTarget(t: Listing, p: seq<string>, k: string, e: Entry)
    requires ListingAt(t, p).Some?
    ensures ListingAt(SetAt(t, p, k, e), p) == Some(Set(ListingAt(t, p).value, k, e))
    decreases p
  {
    if p != [] {
      var sub := Get(t, p[0]).value.children;
      SetAtTarget(sub, p[1..], k, e);
    }
  }

  /**
   * `SetAt` changes no entry except the one it writes and the directories on the
   * way to it: any full path that neither leads to nor through `p + [k]` finds what
   * it found before.
   */
  lemma {:induction false} SetAtFrame(t: Listing, p: seq<string>, k: string, e: Entry, x: seq<string>)
    requires ListingAt(t, p).Some? && |x| > 0
    requires !(x <= p + [k]) && !(p + [k] <= x)
    ensures EntryAt(SetAt(t, p, k, e), x) == EntryAt(t, x)
    decreases p
  {
    if p != [] && x[0] == p[0] {
      var sub := Get(t, p[0]).value.children;
      SetAtFrame(sub, p[1..], k, e, x[1..]);
    }
  }

  /** After writing an entry that is not a directory, the path written under resolves as before. */
  lemma {:induction false} ResolveKeepsUnderNonDir(t: Listing, path: seq<string>, name: string, e: Entry)
    requires !e.Dir?
    ensures Resolve(WithEntry(t, path, name, e), path) == Resolve(t, path)
    decreases path
  {
    if path != [] {
      match Get<Entry>(t, path[0])
      case Some(Dir(sub)) =>
        ResolveKeepsUnderNonDir(sub, path[1..], name, e);
      case _ =>
    }
  }

  /**
   * `addFile(name, c, path)` and then `getFile(name, path)` gives back `c`; the
   * resolved directory keeps its order, with `name` appended only if it was new.
   */
  lemma {:induction false} AddFileThenGetFile(t: Listing, name: string, c: string, path: seq<string>)
    ensures FileAt(WithEntry(t, path, name, File(c)), name, path) == c
    ensures var r := Resolve(t, path); var before := ListingAt(t, r).value;
      Resolve(WithEntry(t, path, name, File(c)), path) == r &&
      Keys(ResolvedDir(WithEntry(t, path, name, File(c)), path)) ==
        if Has(before, name) then Keys(before) else Keys(before) + [name]
  {
    var r := Resolve(t, path);
    ResolveKeepsUnderNonDir(t, path, name, File(c));
    SetAtTarget(t, r, name, File(c));
  }

  /** `addFile` changes no entry off the path to the file it writes. */
  lemma {:induction false} AddFileKeepsOthers(t: Listing, name: string, c: string, path: seq<string>, x: seq<string>)
    requires |x| > 0
    ensures var r := Resolve(t, path);
      !(x <= r + [name]) && !(r + [name] <= x) ==>
        EntryAt(WithEntry(t, path, name, File(c)), x) == EntryAt(t, x)
  {
    var r := Resolve(t, path);
    if !(x <= r + [name]) && !(r + [name] <= x) {
      SetAtFrame(t, r, name, File(c), x);
    }
  }

  /**
   * `addFolder(name, path)` binds `name` to an empty directory where `path` resolves,
   * replacing whatever was there, and changes nothing off that path.
   */
  lemma {:induction false} AddFolderEffect(t: Listing, name: string, path: seq<string>, x: seq<string>)
    requires |x| > 0
    ensures var r := Resolve(t, path);
      EntryAt(WithEntry(t, path, name, Dir([])), r + [name]) == Some(Dir([])) &&
      (!(x <= r + [name]) && !(r + [name] <= x) ==>
        EntryAt(WithEntry(t, path, name, Dir([])), x) == EntryAt(t, x))
  {
    var r := Resolve(t, path);
    SetAtTarget(t, r, name, Dir([]));
    EntryAtSnoc(WithEntry(t, path, name, Dir([])), r, name);
    if !(x <= r + [name]) && !(r + [name] <= x) {
      SetAtFrame(t, r, name, Dir([]), x);
    }
  }

  // ---------------------------------------------------------------------------
  // Conversion to and from a plain object

  /** A plain JavaScript value as the files store produces and reads it back. */
  datatype JsValue = JsString(s: string) | JsObject(props: Assoc<JsValue>)

  /**
   * `mapToObject`: assigns `obj[key]` for each entry of the map in order, nested maps
   * converted. Converting a value does not depend on the object being built, so the
   * converted entries are computed first and then assigned in order. The objects of
   * the model are their own properties: an assignment to `__proto__` creates none.
   */
  function MapToObject(m: Listing): Assoc<JsValue>
    decreases m, 1
  {
    SetAll([], OwnEntries(seq(|m|, i requires 0 <= i < |m| => (m[i].0, ValueOf(m, i)))))
  }

  /**
   * The name whose assignment on a fresh object runs the prototype setter: a string is
   * ignored and an object becomes the prototype, so neither is an own property.
   */
  const ProtoKey := "__proto__"

  /** The entries whose assignment creates an own property, in order. */
  function OwnEntries(entries: Assoc<JsValue>): (r: Assoc<JsValue>)
    ensures forall i :: 0 <= i < |r| ==> r[i].0 != ProtoKey
    ensures forall p :: p in r <==> p in entries && p.0 != ProtoKey
  {
    if entries == [] then []
    else (if entries[0].0 == ProtoKey then [] else [entries[0]]) + OwnEntries(entries[1..])
  }

  /** Without a `__proto__` name every assignment creates its property. */
  lemma {:induction false} OwnEntriesAll(entries: Assoc<JsValue>)
    requires forall i :: 0 <= i < |entries| ==> entries[i].0 != ProtoKey
    ensures OwnEntries(entries) == entries
  {
    if entries != [] {
      OwnEntriesAll(entries[1..]);
    }
  }

  /** A name that is neither an array index nor `__proto__`: it converts to a property of its own, visited in insertion order. */
  predicate PlainKey(k: string) {
    !IsArrayIndex(k) && k != ProtoKey
  }

  /** The value `mapToObject` assigns for the `i`-th entry of `m`. */
  function ValueOf(m: Listing, i: nat): JsValue
    requires i < |m|
    decreases m, 0
  {
    assert m[i] in m;
    assert m[i].1 < m[i];
    match m[i].1
    case File(s) => JsString(s)
    case Dir(c) => JsObject(MapToObject(c))
  }

  predicate IsDigit(c: char) {
    '0' <= c <= '9'
  }

  /** The number a string of decimal digits denotes. */
  function DecimalValue(k: string): nat {
    if k == [] then 0
    else if IsDigit(k[|k| - 1]) then DecimalValue(k[..|k| - 1]) * 10 + (k[|k| - 1] as int - '0' as int)
    else DecimalValue(k[..|k| - 1]) * 10
  }

  /**
   * An array index in the sense of ECMAScript: the canonical decimal form of an
   * integer below 2^32 - 1. `for...in` visits such keys first, in numeric order.
   */
  predicate IsArrayIndex(k: string) {
    |k| > 0 && (forall i :: 0 <= i < |k| ==> IsDigit(k[i])) && (k[0] != '0' || |k| == 1) &&
    DecimalValue(k) < 0x1_0000_0000 - 1
  }

  /** Inserts `x` before the first property with a larger-or-equal index. */
  function InsertByIndex(x: (string, JsValue), s: Assoc<JsValue>): Assoc<JsValue> {
    if s == [] then [x]
    else if DecimalValue(x.0) <= DecimalValue(s[0].0) then [x] + s
    else [s[0]] + InsertByIndex(x, s[1..])
  }

  /** The properties in ascending order of their index, equal indices in insertion order. */
  function SortByIndex(s: Assoc<JsValue>): Assoc<JsValue> {
    if s == [] then [] else InsertByIndex(s[0], SortByIndex(s[1..]))
  }

  lemma {:induction false} InsertByIndexPerm(x: (string, JsValue), s: Assoc<JsValue>)
    ensures multiset(InsertByIndex(x, s)) == multiset(s) + multiset{x}
  {
    if s != [] && DecimalValue(x.0) > DecimalValue(s[0].0) {
      InsertByIndexPerm(x, s[1..]);
      assert s == [s[0]] + s[1..];
    }
  }

  lemma {:induction false} SortByIndexPerm(s: Assoc<JsValue>)
    ensures multiset(SortByIndex(s)) == multiset(s)
  {
    if s != [] {
      SortByIndexPerm(s[1..]);
      InsertByIndexPerm(s[0], SortByIndex(s[1..]));
      assert s == [s[0]] + s[1..];
    }
  }

  /** Ascending order of index. */
  predicate IndexSorted(s: Assoc<JsValue>) {
    forall i, j :: 0 <= i < j < |s| ==> DecimalValue(s[i].0) <= DecimalValue(s[j].0)
  }

  /** Every index of `s` is at least `v`. */
  predicate IndexAtLeast(v: nat, s: Assoc<JsValue>) {
    forall i :: 0 <= i < |s| ==> v <= DecimalValue(s[i].0)
  }

  lemma {:induction false} InsertByIndexAtLeast(v: nat, x: (string, JsValue), s: Assoc<JsValue>)
    requires IndexAtLeast(v, s) && v <= DecimalValue(x.0)
    ensures IndexAtLeast(v, InsertByIndex(x, s))
  {
    if s != [] && DecimalValue(x.0) > DecimalValue(s[0].0) {
      InsertByIndexAtLeast(v, x, s[1..]);
      assert InsertByIndex(x, s) == [s[0]] + InsertByIndex(x, s[1..]);
    }
  }

  /** A list is sorted when its head is a lower bound of a sorted tail. */
  lemma {:induction false} SortedCons(y: (string, JsValue), s: Assoc<JsValue>)
    requires IndexAtLeast(DecimalValue(y.0), s) && IndexSorted(s)
    ensures IndexSorted([y] + s)
  {
    var r := [y] + s;
    forall i, j | 0 <= i < j < |r|
      ensures DecimalValue(r[i].0) <= DecimalValue(r[j].0)
    {
      assert r[j] == s[j - 1];
      if i > 0 {
        assert r[i] == s[i - 1];
      }
    }
  }

  /** Inserting into a sorted list keeps it sorted. */
  lemma {:induction false} InsertByIndexSorted(x: (string, JsValue), s: Assoc<JsValue>)
    requires IndexSorted(s)
    ensures IndexSorted(InsertByIndex(x, s))
  {
    if s == [] {
      assert InsertByIndex(x, s) == [x];
    } else {
      var v := DecimalValue(s[0].0);
      assert IndexAtLeast(v, s[1..]);
      assert IndexSorted(s[1..]);
      if DecimalValue(x.0) <= v {
        assert IndexAtLeast(DecimalValue(x.0), s);
        SortedCons(x, s);
      } else {
        InsertByIndexSorted(x, s[1..]);
        InsertByIndexAtLeast(v, x, s[1..]);
        SortedCons(s[0], InsertByIndex(x, s[1..]));
      }
    }
  }

  /** `SortByIndex` orders by ascending index. */
  lemma {:induction false} SortByIndexSorted(s: Assoc<JsValue>)
    ensures IndexSorted(SortByIndex(s))
  {
    if s != [] {
      SortByIndexSorted(s[1..]);
      InsertByIndexSorted(s[0], SortByIndex(s[1..]));
    }
  }

  /** The properties with array-index keys, and the others, each in insertion order. */
  function IndexProps(obj: Assoc<JsValue>): Assoc<JsValue> {
    if obj == [] then []
    else if IsArrayIndex(obj[0].0) then [obj[0]] + IndexProps(obj[1..])
    else IndexProps(obj[1..])
  }

  function NamedProps(obj: Assoc<JsValue>): Assoc<JsValue> {
    if obj == [] then []
    else if IsArrayIndex(obj[0].0) then NamedProps(obj[1..])
    else [obj[0]] + NamedProps(obj[1..])
  }

  lemma {:induction false} PropsPartition(obj: Assoc<JsValue>)
    ensures multiset(IndexProps(obj)) + multiset(NamedProps(obj)) == multiset(obj)
  {
    if obj != [] {
      PropsPartition(obj[1..]);
      assert obj == [obj[0]] + obj[1..];
    }
  }

  /** The order in which `for...in` visits the properties of a plain object. */
  function ForInOrder(obj: Assoc<JsValue>): (r: Assoc<JsValue>)
    ensures Within(r, obj)
  {
    ForInOrderPerm(obj);
    var r := SortByIndex(IndexProps(obj)) + NamedProps(obj);
    assert forall i :: 0 <= i < |r| ==> r[i] in multiset(r);
    r
  }

  /** `for...in` visits every property exactly once. */
  lemma {:induction false} ForInOrderPerm(obj: Assoc<JsValue>)
    ensures multiset(SortByIndex(IndexProps(obj)) + NamedProps(obj)) == multiset(obj)
  {
    PropsPartition(obj);
    SortByIndexPerm(IndexProps(obj));
  }

  /**
   * `for...in` order: first the array-index properties in ascending order of index,
   * then the other properties in insertion order.
   */
  lemma {:induction false} ForInOrderIndexFirst(obj: Assoc<JsValue>)
    ensures var r := ForInOrder(obj); var n := |IndexProps(obj)|;
      n <= |r| && IndexSorted(r[..n]) && (forall i :: 0 <= i < n ==> IsArrayIndex(r[i].0)) &&
      r[n..] == NamedProps(obj) && (forall i :: n <= i < |r| ==> !IsArrayIndex(r[i].0))
  {
    var ix := IndexProps(obj);
    var sorted := SortByIndex(ix);
    SortByIndexPerm(ix);
    SortByIndexSorted(ix);
    PropsKinds(obj);
    assert |sorted| == |multiset(sorted)| == |multiset(ix)| == |ix|;
    var r := ForInOrder(obj);
    assert r == sorted + NamedProps(obj);
    assert r[..|ix|] == sorted && r[|ix|..] == NamedProps(obj);
    forall i | 0 <= i < |ix|
      ensures IsArrayIndex(r[i].0)
    {
      assert sorted[i] in multiset(ix);
    }
  }

  /** `IndexProps` keeps exactly the array-index properties, `NamedProps` the others. */
  lemma {:induction false} PropsKinds(obj: Assoc<JsValue>)
    ensures forall p :: p in IndexProps(obj) <==> p in obj && IsArrayIndex(p.0)
    ensures forall p :: p in NamedProps(obj) <==> p in obj && !IsArrayIndex(p.0)
  {
    if obj != [] {
      PropsKinds(obj[1..]);
      assert obj == [obj[0]] + obj[1..];
    }
  }

  /**
   * `objectToMap`: sets `map[key]` for each key `for...in` visits, nested objects
   * converted; as in `MapToObject`, the converted entries are computed first.
   */
  function ObjectToMap(obj: Assoc<JsValue>): Listing
    decreases obj, 1
  {
    var order := ForInOrder(obj);
    SetAll([], seq(|order|, i requires 0 <= i < |order| => (order[i].0, EntryOf(obj, order[i]))))
  }

  /** Every property of `visited` is a property of `obj`. */
  predicate Within(visited: Assoc<JsValue>, obj: Assoc<JsValue>) {
    forall i :: 0 <= i < |visited| ==> visited[i] in obj
  }

  /** The entry `objectToMap` sets for property `p` of `obj`. */
  function EntryOf(obj: Assoc<JsValue>, p: (string, JsValue)): Entry
    requires p in obj
    decreases obj, 0
  {
    assert p.1 < p;
    match p.1
    case JsString(s) => File(s)
    case JsObject(c) => Dir(ObjectToMap(c))
  }

  /** Keys distinct, none an array index and none `__proto__`, in every directory of the tree. */
  predicate Tidy(t: Listing)
    decreases t, 1
  {
    DistinctKeys(t) && (forall i :: 0 <= i < |t| ==> PlainKey(t[i].0)) && TidyChildren(t, |t|)
  }

  predicate TidyChildren(t: Listing, n: nat)
    requires n <= |t|
    decreases t, 0, n
  {
    n == 0 ||
    (assert t[n - 1] in t;
     assert t[n - 1].1 < t[n - 1];
     TidyChildren(t, n - 1) && (match t[n - 1].1 case File(_) => true case Dir(c) => Tidy(c)))
  }

  lemma {:induction false} TidyChild(t: Listing, n: nat, i: nat)
    requires n <= |t| && TidyChildren(t, n) && i < n && t[i].1.Dir?
    ensures Tidy(t[i].1.children)
    decreases n
  {
    if i < n - 1 {
      TidyChild(t, n - 1, i);
    }
  }

  /** One level of the conversion, used to state its shape. */
  function Convert(e: Entry): JsValue {
    match e
    case File(s) => JsString(s)
    case Dir(c) => JsObject(MapToObject(c))
  }

  function Revert(v: JsValue): Entry {
    match v
    case JsString(s) => File(s)
    case JsObject(c) => Dir(ObjectToMap(c))
  }

  /** With distinct keys, none `__proto__`, `mapToObject` converts entry by entry and keeps the order. */
  lemma {:induction false} MapToObjectShape(m: Listing)
    requires DistinctKeys(m) && forall i :: 0 <= i < |m| ==> m[i].0 != ProtoKey
    ensures |MapToObject(m)| == |m|
    ensures forall i :: 0 <= i < |m| ==> MapToObject(m)[i] == (m[i].0, Convert(m[i].1))
  {
    var entries := seq(|m|, i requires 0 <= i < |m| => (m[i].0, ValueOf(m, i)));
    assert MapToObject(m) == entries by {
      OwnEntriesAll(entries);
      assert Keys(entries) == Keys(m);
      SetAllDistinct(entries, m);
    }
    forall i | 0 <= i < |m|
      ensures entries[i] == (m[i].0, Convert(m[i].1))
    {
      assert m[i] in m;
    }
  }

  /** With distinct keys, `objectToMap` converts property by property in `for...in` order. */
  lemma {:induction false} ObjectToMapShape(obj: Assoc<JsValue>)
    requires DistinctKeys(ForInOrder(obj))
    ensures var order := ForInOrder(obj);
      |ObjectToMap(obj)| == |order| &&
      forall i :: 0 <= i < |order| ==> ObjectToMap(obj)[i] == (order[i].0, Revert(order[i].1))
  {
    var order := ForInOrder(obj);
    var entries := seq(|order|, i requires 0 <= i < |order| => (order[i].0, EntryOf(obj, order[i])));
    assert Keys(entries) == Keys(order);
    SetAllDistinct(entries, order);
    assert ObjectToMap(obj) == entries;
  }

  lemma {:induction false} NoIndexPropsInOrder(obj: Assoc<JsValue>)
    requires forall i :: 0 <= i < |obj| ==> !IsArrayIndex(obj[i].0)
    ensures ForInOrder(obj) == obj
  {
    assert IndexProps(obj) == [] && NamedProps(obj) == obj by {
      NoIndexProps(obj);
    }
  }

  lemma {:induction false} NoIndexProps(obj: Assoc<JsValue>)
    requires forall i :: 0 <= i < |obj| ==> !IsArrayIndex(obj[i].0)
    ensures IndexProps(obj) == [] && NamedProps(obj) == obj
  {
    if obj != [] {
      NoIndexProps(obj[1..]);
      assert obj == [obj[0]] + obj[1..];
    }
  }

  /**
   * Round trip: converting a tidy tree to a plain object and back gives the same
   * tree, with the same names, kinds, texts and order.
   */
  lemma {:induction false} RoundTrip(t: Listing)
    requires Tidy(t)
    ensures ObjectToMap(MapToObject(t)) == t
    decreases t, 1
  {
    var o := MapToObject(t);
    ObjectOfTidy(t);
    var back := ObjectToMap(o);
    forall i | 0 <= i < |t|
      ensures back[i] == t[i]
    {
      RoundTripAt(t, i);
    }
  }

  /** The object a tidy tree converts to: same order, `for...in` visits it as it stands. */
  lemma {:induction false} ObjectOfTidy(t: Listing)
    requires Tidy(t)
    ensures var back := ObjectToMap(MapToObject(t));
      |back| == |t| && forall i :: 0 <= i < |t| ==> back[i] == (t[i].0, Revert(Convert(t[i].1)))
  {
    ObjectOfPlainKeys(t);
  }

  /** `ObjectOfTidy` for the top level only: distinct keys, none an array index or `__proto__`. */
  lemma {:induction false} ObjectOfPlainKeys(t: Listing)
    requires DistinctKeys(t) && forall i :: 0 <= i < |t| ==> PlainKey(t[i].0)
    ensures var back := ObjectToMap(MapToObject(t));
      |back| == |t| && forall i :: 0 <= i < |t| ==> back[i] == (t[i].0, Revert(Convert(t[i].1)))
  {
    var o := MapToObject(t);
    MapToObjectShape(t);
    PlainObject(t, o);
    ObjectToMapShape(o);
  }

  /** An object with the keys of `t`, which are distinct and not array indices, is visited as it stands. */
  lemma {:induction false} PlainObject(t: Listing, o: Assoc<JsValue>)
    requires DistinctKeys(t) && forall i :: 0 <= i < |t| ==> !IsArrayIndex(t[i].0)
    requires |o| == |t| && forall i :: 0 <= i < |o| ==> o[i].0 == t[i].0
    ensures ForInOrder(o) == o && DistinctKeys(o)
  {
    NoIndexPropsInOrder(o);
  }

  lemma {:induction false} RoundTripAt(t: Listing, i: nat)
    requires Tidy(t) && i < |t|
    ensures Revert(Convert(t[i].1)) == t[i].1
    decreases t, 0
  {
    match t[i].1 {
      case File(_) =>
      case Dir(c) =>
        assert t[i] in t;
        assert t[i].1 < t[i];
        TidyChild(t, |t|, i);
        RoundTrip(c);
    }
  }

  /** The seeded tree has its three names in order, and saving it and reading it back gives it unchanged. */
  lemma {:induction false} InitialTreeRoundTrips(texts: StaticTexts)
    ensures Keys(InitialDirs(texts)) == ["bio.md", "projects", "secret_keys.pem"]
    ensures ObjectToMap(MapToObject(InitialDirs(texts))) == InitialDirs(texts)
  {
    var t := InitialDirs(texts);
    var projects := t[1].1.children;
    PlainNames(projects);
    TidyChildrenAll(projects, 2);
    PlainNames(t);
    TidyChildrenAll(t, 3);
    RoundTrip(t);
  }

  /** The names of the seeded tree and of its `projects` directory are distinct and start with a letter. */
  lemma {:induction false} PlainNames(t: Listing)
    requires Keys(t) == ["bio.md", "projects", "secret_keys.pem"] || Keys(t) == ["zip-diff-viewer.md", "Neat.md"]
    ensures DistinctKeys(t) && forall i :: 0 <= i < |t| ==> PlainKey(t[i].0)
  {
    forall i | 0 <= i < |t|
      ensures PlainKey(t[i].0)
    {
      assert t[i].0 == Keys(t)[i];
      assert !IsDigit(t[i].0[0]);
    }
  }

  /** The first `n` entries, each a file or a tidy directory, satisfy `TidyChildren`. */
  lemma {:induction false} TidyChildrenAll(t: Listing, n: nat)
    requires n <= |t| && forall i :: 0 <= i < n ==> match t[i].1 case File(_) => true case Dir(c) => Tidy(c)
    ensures TidyChildren(t, n)
  {
    if n > 0 {
      TidyChildrenAll(t, n - 1);
    }
  }

  /** `for...in` puts array-index keys first, so a map with such a name does not round-trip. */
  lemma {:induction false} IndexNamesMoveFirst()
    ensures ObjectToMap(MapToObject([("b", File("x")), ("1", File("y"))])) ==
            [("1", File("y")), ("b", File("x"))]
  {
    SampleToObject();
    SampleOrder();
    SampleBuild();
  }

  /** An entry named `__proto__` gives no property, so a file of that name is lost on the way. */
  lemma {:induction false} ProtoFileDropped()
    ensures ObjectToMap(MapToObject([(ProtoKey, File("x"))])) == []
  {
    var m: Listing := [(ProtoKey, File("x"))];
    var entries := seq(|m|, i requires 0 <= i < |m| => (m[i].0, ValueOf(m, i)));
    assert OwnEntries(entries[1..]) == [];
    assert OwnEntries(entries) == [];
    assert ForInOrder([]) == [];
  }

  /** A folder named `__proto__` becomes the prototype, not a property of the object. */
  lemma {:induction false} ProtoFolderDropped()
    ensures MapToObject([(ProtoKey, Dir([("a.md", File("y"))]))]) == []
  {
    var m: Listing := [(ProtoKey, Dir([("a.md", File("y"))]))];
    var entries := seq(|m|, i requires 0 <= i < |m| => (m[i].0, ValueOf(m, i)));
    assert OwnEntries(entries[1..]) == [];
    assert OwnEntries(entries) == [];
  }

  lemma {:induction false} SampleToObject()
    ensures MapToObject([("b", File("x")), ("1", File("y"))]) == [("b", JsString("x")), ("1", JsString("y"))]
  {
    var m: Listing := [("b", File("x")), ("1", File("y"))];
    MapToObjectShape(m);
  }

  lemma {:induction false} SampleOrder()
    ensures ForInOrder([("b", JsString("x")), ("1", JsString("y"))]) == [("1", JsString("y")), ("b", JsString("x"))]
  {
    var o := [("b", JsString("x")), ("1", JsString("y"))];
    assert IsArrayIndex("1") by {
      assert DecimalValue("1") == 1 by { assert "1"[..0] == []; }
    }
    assert !IsArrayIndex("b");
    var o1 := o[1..];
    assert o1[0].0 == "1" && IsArrayIndex(o1[0].0) && o1[1..] == [];
    assert IndexProps(o1) == [o1[0]] + IndexProps(o1[1..]);
    assert IndexProps(o) == [("1", JsString("y"))];
    assert NamedProps(o1) == NamedProps(o1[1..]) == [];
    assert NamedProps(o) == [o[0]] + NamedProps(o1);
  }

  lemma {:induction false} SampleBuild()
    ensures ObjectToMap([("b", JsString("x")), ("1", JsString("y"))]) == [("1", File("y")), ("b", File("x"))]
  {
    var o := [("b", JsString("x")), ("1", JsString("y"))];
    var order := [("1", JsString("y")), ("b", JsString("x"))];
    SampleOrder();
    assert DistinctKeys(order);
    ObjectToMapShape(o);
    var r := ObjectToMap(o);
    assert r[0] == ("1", Revert(JsString("y")));
    assert r[1] == ("b", Revert(JsString("x")));
  }

  // ---------------------------------------------------------------------------
  // The store

  class FilesStore {
    /** `AVAILABLE_DIRS`: the root directory. */
    var dirs: Listing

    /**
     * The store starts from the seeded tree, or from the object saved earlier when
     * storage holds one (`initFromLocalStorage`).
     */
    constructor(texts: StaticTexts, saved: Option<Assoc<JsValue>>)
      ensures dirs == if saved.Some? then ObjectToMap(saved.value) else InitialDirs(texts)
    {
      dirs := InitialDirs(texts);
      if saved.Some? {
        dirs := ObjectToMap(saved.value);
      }
    }

    /**
     * `findMapAtPath`: walks `path` from the root while each next entry is a
     * directory, and returns the names followed and the directory reached.
     */
    method FindMapAtPath(path: seq<string>) returns (followed: seq<string>, dir: Listing)
      ensures followed == Resolve(dirs, path)
      ensures ListingAt(dirs, followed) == Some(dir)
    {
      followed := [];
      var root := dirs;
      dir := root;
      var rest := path;
      while rest != []
        invariant Walked(root, path, followed, dir, rest)
        decreases |rest|
      {
        var g := Get<Entry>(dir, rest[0]);
        if !IsDirEntry(g) {
          WalkStop(root, path, followed, dir, rest);
          return;
        }
        assert rest == [rest[0]] + rest[1..];
        WalkDown(root, path, followed, dir, rest[0], rest[1..], g.value.children);
        dir := g.value.children;
        followed := followed + [rest[0]];
        rest := rest[1..];
      }
      WalkDone(root, path, followed, dir);
    }

    /** `getFile(name, path)`. */
    method GetFile(name: string, path: seq<string>) returns (content: string)
      ensures content == FileAt(dirs, name, path)
    {
      var _, dir := FindMapAtPath(path);
      content := "";
      if Has(dir, name) {
        match Get<Entry>(dir, name) {
          case Some(File(s)) => content := s;
          case _ =>
        }
      }
    }

    /** `saveFile(name, content, path)`: sets the file in the resolved directory. */
    method SaveFile(name: string, content: string, path: seq<string>)
      modifies this
      ensures dirs == WithEntry(old(dirs), path, name, File(content))
    {
      var followed, _ := FindMapAtPath(path);
      dirs := SetAt(dirs, followed, name, File(content));
    }

    /** `addFile(name, content, path)`: the same update, followed by a save to storage. */
    method AddFile(name: string, content: string, path: seq<string>)
      modifies this
      ensures dirs == WithEntry(old(dirs), path, name, File(content))
    {
      var followed, _ := FindMapAtPath(path);
      dirs := SetAt(dirs, followed, name, File(content));
    }

    /** `addFolder(name, path)`: binds `name` to a new empty directory. */
    method AddFolder(name: string, path: seq<string>)
      modifies this
      ensures dirs == WithEntry(old(dirs), path, name, Dir([]))
    {
      var followed, _ := FindMapAtPath(path);
      dirs := SetAt(dirs, followed, name, Dir([]));
    }

    /** `update(data)`: replaces the whole tree by the converted object. */
    method Update(data: Assoc<JsValue>)
      modifies this
      ensures dirs == ObjectToMap(data)
    {
      dirs := ObjectToMap(data);
    }
  }
}
