/** Soul sheets and their inheritance (SoulLoader in rasa/agent/soul.py).

    A sheet is a parsed document: a tree of dicts with scalars and lists at its leaves. */
module Souls {
  import opened Options

  datatype Value =
    | Null
    | Flag(flag: bool)
    | Number(number: int)
    | Text(text: string)
    | List(items: seq<Value>)
    | Dict(entries: map<string, Value>)

  type Sheet = v: Value | v.Dict? witness Dict(map[])

  const INHERITS := "inherits"
  const SOUL_ID := "soul_id"
  const MAX_DEPTH := 5

  datatype Outcome =
    | Resolved(sheet: Sheet)
    | NotFound
    | TooDeep

  /** What Python counts as true. */
  predicate Truthy(v: Value) {
    match v
    case Null => false
    case Flag(b) => b
    case Number(n) => n != 0
    case Text(s) => s != ""
    case List(items) => items != []
    case Dict(entries) => entries != map[]
  }

  /** The falsy values are None, False, zero and everything empty. */
  lemma FalsyValues(v: Value)
    ensures !Truthy(v) <==> v in {Null, Flag(false), Number(0), Text(""), List([]), Dict(map[])}
  {
  }

  function Get(doc: Sheet, key: string): Value {
    if key in doc.entries then doc.entries[key] else Null
  }

  // ---- Finding sheets ----

  predicate Names(doc: Value, id: Value) {
    doc.Dict? && Get(doc, SOUL_ID) == id
  }

  /** The first document of the directory that names the id. */
  function Lookup(store: seq<Value>, id: Value): (found: Option<Sheet>)
    ensures found.Some? ==> found.value in store && Names(found.value, id)
    ensures found.None? ==> forall doc :: doc in store ==> !Names(doc, id)
  {
    if store == [] then None
    else if Names(store[0], id) then Some(store[0])
    else Lookup(store[1..], id)
  }

  lemma {:induction false} LookupIsFirst(store: seq<Value>, id: Value, i: nat)
    requires i < |store| && Names(store[i], id) && forall j :: 0 <= j < i ==> !Names(store[j], id)
    ensures Lookup(store, id) == Some(store[i])
    decreases i
  {
    if i > 0 {
      assert store[1..][i - 1] == store[i];
      LookupIsFirst(store[1..], id, i - 1);
    }
  }

  method ReadRaw(store: seq<Value>, id: Value) returns (found: Option<Sheet>)
    ensures found == Lookup(store, id)
    ensures found.Some? ==>
              exists i :: 0 <= i < |store| && store[i] == found.value && Names(store[i], id)
                          && forall j :: 0 <= j < i ==> !Names(store[j], id)
  {
    for i := 0 to |store|
      invariant Lookup(store, id) == Lookup(store[i..], id)
      invariant forall j :: 0 <= j < i ==> !Names(store[j], id)
    {
      if store[i].Dict? {
        if Get(store[i], SOUL_ID) == id {
          return Some(store[i]);
        }
      }
      assert store[i..][1..] == store[i + 1..];
    }
    return None;
  }

  function Parent(store: seq<Value>, sheet: Sheet): Option<Sheet> {
    var id := Get(sheet, INHERITS);
    if Truthy(id) then Lookup(store, id) else None
  }

  /** The sheet `n` steps up the chain, if the chain reaches that far. */
  function Ancestor(store: seq<Value>, sheet: Sheet, n: nat): Option<Sheet>
    decreases n
  {
    if n == 0 then Some(sheet)
    else
      var parent := Parent(store, sheet);
      if parent.None? then None else Ancestor(store, parent.value, n - 1)
  }

  /** The chain ends after `n` steps, at a sheet that inherits from nothing. */
  predicate RootAt(store: seq<Value>, sheet: Sheet, n: nat) {
    var top := Ancestor(store, sheet, n);
    top.Some? && !Truthy(Get(top.value, INHERITS))
  }

  // ---- Merging ----

  /** The overlay wins key by key; dicts merge with dicts, anything else is replaced whole, and the
      overlay's own inherits key is skipped in every dict that is merged. */
  function Merge(base: Sheet, overlay: Sheet): Sheet
    decreases overlay, 0
  {
    Dict(map k | k in base.entries.Keys + (overlay.entries.Keys - {INHERITS}) ::
      if k !in overlay.entries || k == INHERITS then base.entries[k]
      else MergeEntry(base, k, overlay.entries[k]))
  }

  function MergeEntry(base: Sheet, key: string, value: Value): Value
    decreases value, 1
  {
    if key in base.entries && base.entries[key].Dict? && value.Dict?
    then Merge(base.entries[key], value) else value
  }

  method DeepMerge(base: Sheet, overlay: Sheet) returns (result: Sheet)
    ensures result == Merge(base, overlay)
    decreases overlay
  {
    var entries := base.entries;
    var left := overlay.entries.Keys;
    while left != {}
      invariant left <= overlay.entries.Keys
      invariant entries.Keys == base.entries.Keys + (overlay.entries.Keys - left - {INHERITS})
      invariant forall k :: k in entries ==>
        entries[k] == if k !in overlay.entries || k in left || k == INHERITS then base.entries[k]
                      else MergeEntry(base, k, overlay.entries[k])
    {
      var key :| key in left;
      left := left - {key};
      if key == INHERITS {
        continue;
      }
      var value := overlay.entries[key];
      if key in entries && entries[key].Dict? && value.Dict? {
        var merged := DeepMerge(entries[key], value);
        entries := entries[key := merged];
      } else {
        entries := entries[key := value];
      }
    }
    result := Dict(entries);
    assert result.entries == Merge(base, overlay).entries;
  }

  function Resolve(store: seq<Value>, raw: Sheet, depth: nat): Outcome
    decreases MAX_DEPTH + 1 - depth
  {
    if depth > MAX_DEPTH then TooDeep
    else
      var id := Get(raw, INHERITS);
      if !Truthy(id) then Resolved(raw)
      else
        var parent := Lookup(store, id);
        if parent.None? then NotFound
        else
          var above := Resolve(store, parent.value, depth + 1);
          if above.Resolved? then Resolved(Merge(above.sheet, raw)) else above
  }

  // ---- When resolution succeeds ----

  lemma {:induction false} ResolvesWithin(store: seq<Value>, raw: Sheet, depth: nat)
    requires depth <= MAX_DEPTH + 1
    ensures Resolve(store, raw, depth).Resolved? <==> exists n: nat :: n <= MAX_DEPTH - depth && RootAt(store, raw, n)
    ensures Resolve(store, raw, depth).TooDeep? <==> Ancestor(store, raw, MAX_DEPTH + 1 - depth).Some?
    decreases MAX_DEPTH + 1 - depth
  {
    if depth <= MAX_DEPTH {
      var parent := Parent(store, raw);
      assert RootAt(store, raw, 0) <==> !Truthy(Get(raw, INHERITS));
      if parent.Some? {
        ResolvesWithin(store, parent.value, depth + 1);
        forall n: nat
          ensures RootAt(store, raw, n + 1) <==> RootAt(store, parent.value, n)
        {
        }
        if n: nat :| n <= MAX_DEPTH - depth && RootAt(store, raw, n) {
          assert RootAt(store, parent.value, n - 1);
        }
        if n: nat :| n <= MAX_DEPTH - depth - 1 && RootAt(store, parent.value, n) {
          assert RootAt(store, raw, n + 1);
        }
      }
    }
  }

  /** Resolution succeeds exactly when the chain of existing parents ends within five ancestors, and
      reports excessive depth exactly when a sixth ancestor exists. */
  lemma ResolvesExactlyWhenShallow(store: seq<Value>, raw: Sheet)
    ensures Resolve(store, raw, 0).Resolved? <==> exists n: nat :: n <= 5 && RootAt(store, raw, n)
    ensures Resolve(store, raw, 0).TooDeep? <==> Ancestor(store, raw, 6).Some?
  {
    ResolvesWithin(store, raw, 0);
  }

  lemma {:induction false} AncestorsCompose(store: seq<Value>, sheet: Sheet, i: nat, n: nat)
    requires Ancestor(store, sheet, i).Some?
    ensures Ancestor(store, sheet, i + n) == Ancestor(store, Ancestor(store, sheet, i).value, n)
    decreases i
  {
    if i > 0 {
      AncestorsCompose(store, Parent(store, sheet).value, i - 1, n);
    }
  }

  lemma NothingAboveTheRoot(store: seq<Value>, sheet: Sheet, n: nat, m: nat)
    requires RootAt(store, sheet, n) && Ancestor(store, sheet, m).Some?
    ensures m <= n
  {
    if m > n {
      AncestorsCompose(store, sheet, n, m - n);
    }
  }

  /** A chain that meets a sheet twice never ends. */
  lemma CyclesHaveNoRoot(store: seq<Value>, sheet: Sheet, i: nat, j: nat, n: nat)
    requires i < j && Ancestor(store, sheet, i).Some? && Ancestor(store, sheet, i) == Ancestor(store, sheet, j)
    ensures !RootAt(store, sheet, n)
  {
    if RootAt(store, sheet, n) {
      NothingAboveTheRoot(store, sheet, n, j);
      AncestorsCompose(store, sheet, i, n - j);
      AncestorsCompose(store, sheet, j, n - j);
      NothingAboveTheRoot(store, sheet, i + (n - j), n);
    }
  }

  /** A sheet met twice on the chain, however far up, is an error. */
  lemma CyclesAreErrors(store: seq<Value>, raw: Sheet, i: nat, j: nat)
    requires i < j && Ancestor(store, raw, i).Some? && Ancestor(store, raw, i) == Ancestor(store, raw, j)
    ensures !Resolve(store, raw, 0).Resolved?
  {
    ResolvesExactlyWhenShallow(store, raw);
    forall n: nat
      ensures !RootAt(store, raw, n)
    {
      CyclesHaveNoRoot(store, raw, i, j, n);
    }
  }

  /** The resolved sheet keeps the root's inherits entry, so it names no parent. */
  lemma {:induction false} ResolvedNamesNoParent(store: seq<Value>, raw: Sheet, depth: nat)
    requires Resolve(store, raw, depth).Resolved?
    ensures !Truthy(Get(Resolve(store, raw, depth).sheet, INHERITS))
    decreases MAX_DEPTH + 1 - depth
  {
    if Truthy(Get(raw, INHERITS)) {
      ResolvedNamesNoParent(store, Lookup(store, Get(raw, INHERITS)).value, depth + 1);
    }
  }

  // ---- What the resolved sheet says ----

  /** What a document has at a path of keys; Blocked when a proper prefix holds something that is
      not a dict. */
  datatype Finding = Absent | Blocked | At(value: Value)

  function Probe(doc: Value, path: seq<string>): Finding {
    if path == [] then At(doc)
    else if !doc.Dict? then Blocked
    else if path[0] !in doc.entries then Absent
    else Probe(doc.entries[path[0]], path[1..])
  }

  function LeafOf(f: Finding): Option<Value> {
    if f.At? && !f.value.Dict? then Some(f.value) else None
  }

  /** Leaf by leaf, the overlay decides wherever it says anything, even by blocking the path. */
  lemma {:induction false} MergeIsLeafwise(base: Sheet, overlay: Sheet, path: seq<string>)
    requires path != [] && INHERITS !in path
    ensures LeafOf(Probe(Merge(base, overlay), path))
         == LeafOf(if Probe(overlay, path).Absent? then Probe(base, path) else Probe(overlay, path))
    decreases |path|
  {
    var key := path[0];
    if key in overlay.entries && key in base.entries && path[1..] != [] {
      if base.entries[key].Dict? && overlay.entries[key].Dict? {
        MergeIsLeafwise(base.entries[key], overlay.entries[key], path[1..]);
      }
    }
  }

  /** The nearest sheet that says anything about a leaf path decides it: the sheet `n` steps up, when
      all nearer ones are silent. If even the root is silent the resolved sheet has no such leaf. */
  lemma {:induction false} NearestSheetDecides(
    store: seq<Value>, raw: Sheet, depth: nat, path: seq<string>, n: nat)
    requires Resolve(store, raw, depth).Resolved?
    requires path != [] && INHERITS !in path
    requires Ancestor(store, raw, n).Some?
    requires forall m: nat :: m < n && Ancestor(store, raw, m).Some? ==>
      Probe(Ancestor(store, raw, m).value, path).Absent?
    requires !Probe(Ancestor(store, raw, n).value, path).Absent? || RootAt(store, raw, n)
    ensures LeafOf(Probe(Resolve(store, raw, depth).sheet, path)) == LeafOf(Probe(Ancestor(store, raw, n).value, path))
    decreases MAX_DEPTH + 1 - depth
  {
    if Truthy(Get(raw, INHERITS)) {
      var parent := Parent(store, raw).value;
      MergeIsLeafwise(Resolve(store, parent, depth + 1).sheet, raw, path);
      if n > 0 {
        assert Ancestor(store, raw, 0) == Some(raw);
        forall m: nat | m < n - 1 && Ancestor(store, parent, m).Some?
          ensures Probe(Ancestor(store, parent, m).value, path).Absent?
        {
          assert Ancestor(store, raw, m + 1) == Ancestor(store, parent, m);
        }
        NearestSheetDecides(store, parent, depth + 1, path, n - 1);
      }
    }
  }

  /** What becomes of an inherits key below the top: where the inheriting sheet has a dict at a path, its
      own entry is dropped exactly when the base has a dict there too, so that the two merge. */
  lemma {:induction false} NestedInheritsIsDroppedExactlyWhen(base: Sheet, overlay: Sheet, path: seq<string>)
    requires INHERITS !in path && HasDictAt(overlay, path)
    ensures Probe(Merge(base, overlay), path + [INHERITS])
         == Probe(if HasDictAt(base, path) then base else overlay, path + [INHERITS])
    decreases |path|
  {
    var full := path + [INHERITS];
    if path == [] {
      assert full == [INHERITS];
    } else {
      var key, rest := path[0], path[1..];
      assert full[0] == key && full[1..] == rest + [INHERITS];
      ProbePrefix(overlay.entries[key], rest);
      if key in base.entries && base.entries[key].Dict? {
        NestedInheritsIsDroppedExactlyWhen(base.entries[key], overlay.entries[key], rest);
        assert HasDictAt(base, path) == HasDictAt(base.entries[key], rest);
      } else {
        if HasDictAt(base, path) {
          ProbePrefix(base.entries[key], rest);
        }
        assert key != INHERITS && Merge(base, overlay).entries[key] == overlay.entries[key];
      }
    }
  }

  predicate HasDictAt(doc: Value, path: seq<string>) {
    Probe(doc, path).At? && Probe(doc, path).value.Dict?
  }

  /** Only a dict can have a dict at or below it. */
  lemma ProbePrefix(doc: Value, path: seq<string>)
    requires HasDictAt(doc, path)
    ensures doc.Dict?
  {
  }
}
