/** The environment chain (env.rs). Each `Bindings` is one scope level with
    an optional parent; the source shares them through reference-counted
    cells. Here every scope lives in an arena, a sequence of scopes indexed
    by handle, and parents and `Env`s hold handles. A scope is only ever
    appended, so a parent always has a smaller handle than its children. */
module Environment {
  import opened Common
  import opened Values

  /** `Bindings`: the names of one scope level and its optional parent. */
  datatype Bindings = Bindings(currentLevel: map<string, Value>, parent: Option<Handle>)

  /** The scope arena: the scope with handle `h` is `s[h]`. */
  type Store = seq<Bindings>

  /** Every parent was allocated before its child. */
  predicate WellFormed(s: Store) {
    forall h :: 0 <= h < |s| && s[h].parent.Some? ==> s[h].parent.value < h
  }

  /** `Bindings::new`: an empty level under `parent`. */
  function BindingsNew(parent: Option<Handle>): (b: Bindings)
    ensures b.currentLevel == map[] && b.parent == parent
  {
    Bindings(map[], parent)
  }

  /** `Bindings::set`: insert or overwrite `key` in this level only. */
  function BindingsSet(b: Bindings, key: string, value: Value): (r: Bindings)
    ensures r.parent == b.parent
    ensures r.currentLevel.Keys == b.currentLevel.Keys + {key}
    ensures r.currentLevel[key] == value
    ensures forall k :: k in b.currentLevel && k != key ==> r.currentLevel[k] == b.currentLevel[k]
  {
    b.(currentLevel := b.currentLevel[key := value])
  }

  /** `Bindings::get`: this level first, then the parent chain; `None` at a
      root that lacks the key. The test `p < h` holds in every well-formed
      arena; it only makes the walk total. */
  function BindingsGet(s: Store, h: Handle, key: string): (r: Option<Value>)
    ensures h < |s| && key in s[h].currentLevel ==> r == Some(s[h].currentLevel[key])
    ensures r.Some? ==> BoundAtOrBelow(s, h, key, r.value)
    decreases h
  {
    if h >= |s| then None
    else if key in s[h].currentLevel then Some(s[h].currentLevel[key])
    else match s[h].parent
      case Some(p) => if p < h then BindingsGet(s, p, key) else None
      case None => None
  }

  /** Some scope with a handle at most `h` binds `key` to `v` in its own level. */
  ghost predicate BoundAtOrBelow(s: Store, h: Handle, key: string, v: Value) {
    exists a :: 0 <= a <= h && a < |s| && key in s[a].currentLevel && s[a].currentLevel[key] == v
  }

  /** `Env::new`: allocate a fresh scope under `parent`. */
  function EnvNew(s: Store, parent: Option<Handle>): (r: (Store, Env))
    ensures r.0 == s + [BindingsNew(parent)] && r.1 == Env(|s|)
  {
    (s + [BindingsNew(parent)], Env(|s|))
  }

  /** `Env::set`: `Bindings::set` on the env's own scope; every other scope
      and that scope's parent link are left as they were. */
  function EnvSet(s: Store, e: Env, key: string, value: Value): (r: Store)
    ensures |r| == |s|
    ensures forall h :: 0 <= h < |s| && h != e.bindings ==> r[h] == s[h]
    ensures e.bindings < |s| ==> r[e.bindings] == BindingsSet(s[e.bindings], key, value)
  {
    if e.bindings < |s| then s[e.bindings := BindingsSet(s[e.bindings], key, value)] else s
  }

  /** `Env::get`. */
  function EnvGet(s: Store, e: Env, key: string): (r: Option<Value>)
    ensures e.bindings < |s| && key in s[e.bindings].currentLevel ==> r == Some(s[e.bindings].currentLevel[key])
    ensures r.Some? ==> BoundAtOrBelow(s, e.bindings, key, r.value)
  {
    BindingsGet(s, e.bindings, key)
  }

  /** `Env::get_bindings`: the shared handle itself, not a copy. */
  function GetBindings(e: Env): Handle {
    e.bindings
  }

  /** The mutable arena the interpreter works on: `set` updates the
      `current_level` of one scope in place and `new` appends a scope. */
  class Arena {
    var scopes: Store

    constructor ()
      ensures scopes == []
    {
      scopes := [];
    }

    method NewEnv(parent: Option<Handle>) returns (e: Env)
      modifies this
      ensures (scopes, e) == EnvNew(old(scopes), parent)
    {
      e := Env(|scopes|);
      scopes := scopes + [BindingsNew(parent)];
    }

    method Set(e: Env, key: string, value: Value)
      modifies this
      ensures scopes == EnvSet(old(scopes), e, key, value)
    {
      if e.bindings < |scopes| {
        var b := scopes[e.bindings];
        scopes := scopes[e.bindings := b.(currentLevel := b.currentLevel[key := value])];
      }
    }

    function Get(e: Env, key: string): (r: Option<Value>)
      reads this
      ensures e.bindings < |scopes| && key in scopes[e.bindings].currentLevel ==>
        r == Some(scopes[e.bindings].currentLevel[key])
      ensures r.Some? ==> BoundAtOrBelow(scopes, e.bindings, key, r.value)
    {
      EnvGet(scopes, e, key)
    }
  }

  /** A lookup from `h` depends only on the scopes at or below `h`. */
  lemma {:induction false} GetDependsOnlyBelow(s: Store, t: Store, h: Handle, key: string)
    requires h < |s| && h < |t|
    requires forall j :: 0 <= j <= h ==> s[j] == t[j]
    ensures BindingsGet(s, h, key) == BindingsGet(t, h, key)
    decreases h
  {
    if key !in s[h].currentLevel && s[h].parent.Some? && s[h].parent.value < h {
      GetDependsOnlyBelow(s, t, s[h].parent.value, key);
    }
  }

  /** `get(k)` right after `set(k, v)` on the same env returns `v`. */
  lemma GetAfterSet(s: Store, e: Env, key: string, value: Value)
    requires e.bindings < |s|
    ensures EnvGet(EnvSet(s, e, key, value), e, key) == Some(value)
  {
  }

  /** `set(k, v)` changes no other key as seen from the same env. */
  lemma SetLeavesOtherKeys(s: Store, e: Env, key: string, value: Value, other: string)
    requires e.bindings < |s| && other != key
    ensures EnvGet(EnvSet(s, e, key, value), e, other) == EnvGet(s, e, other)
  {
    var t := EnvSet(s, e, key, value);
    var h := e.bindings;
    if other !in s[h].currentLevel && s[h].parent.Some? && s[h].parent.value < h {
      GetDependsOnlyBelow(s, t, s[h].parent.value, other);
    }
  }

  /** A key bound in the current level shadows every ancestor's binding. */
  lemma Shadowing(s: Store, h: Handle, key: string)
    requires h < |s| && key in s[h].currentLevel
    ensures BindingsGet(s, h, key) == Some(s[h].currentLevel[key])
  {
  }

  /** On a miss the lookup is the parent's lookup; at a root it is `None`. */
  lemma MissDelegates(s: Store, h: Handle, key: string)
    requires WellFormed(s) && h < |s| && key !in s[h].currentLevel
    ensures s[h].parent.None? ==> BindingsGet(s, h, key) == None
    ensures s[h].parent.Some? ==> BindingsGet(s, h, key) == BindingsGet(s, s[h].parent.value, key)
  {
  }

  /** A fresh scope is empty: looking up through it is looking up in its
      parent (or finding nothing when it is a root). */
  lemma {:induction false} FreshEnvDelegates(s: Store, parent: Option<Handle>, key: string)
    requires parent.Some? ==> parent.value < |s|
    ensures var (s', e) := EnvNew(s, parent);
      EnvGet(s', e, key) == if parent.Some? then BindingsGet(s, parent.value, key) else None
  {
    var (s', e) := EnvNew(s, parent);
    if parent.Some? {
      GetDependsOnlyBelow(s, s', parent.value, key);
    }
  }

  /** A child holds its parent's handle, not a copy: a later `set` on the
      parent is visible through the child. */
  lemma {:induction false} ChildSeesLaterParentSet(s: Store, p: Handle, key: string, value: Value)
    requires p < |s|
    ensures var (s1, child) := EnvNew(s, Some(p));
      EnvGet(EnvSet(s1, Env(p), key, value), child, key) == Some(value)
  {
    var (s1, child) := EnvNew(s, Some(p));
    var s2 := EnvSet(s1, Env(p), key, value);
    assert key !in s2[child.bindings].currentLevel;
    assert BindingsGet(s2, child.bindings, key) == BindingsGet(s2, p, key);
  }

  /** Allocation and `set` keep the arena well formed. */
  lemma WellFormedPreserved(s: Store, e: Env, parent: Option<Handle>, key: string, value: Value)
    requires WellFormed(s)
    requires parent.Some? ==> parent.value < |s|
    ensures WellFormed(EnvNew(s, parent).0)
    ensures WellFormed(EnvSet(s, e, key, value))
  {
  }
}
