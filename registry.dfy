/**
 * The self-registering strategy registry shared by the checker and the
 * notifier modules.
 *
 * In Python, defining a class whose metaclass is `MetaChecker` (or
 * `MetaNotifier`) runs the metaclass `__new__`, which inserts the new class
 * under its name into the module-wide dictionary `available_checkers` (or
 * `available_notifiers`). One name is skipped, and a name that is already
 * present makes the definition raise `TypeError`. Here a class definition is
 * an explicit `Register` call and a class object is an opaque value of type C.
 */
module Registry {
  import opened Wrappers

  /** What a class definition evaluates to: the class, or a raised `TypeError`. */
  datatype Outcome<T> = Ok(value: T) | TypeError(message: string)

  /** The text of the `TypeError`; `kind` is "Checker" or "Notifier". */
  function DuplicateMessage(kind: string, name: string): (r: string)
    ensures |r| == |kind| + |name| + 29
    ensures r[..|kind|] == kind
    ensures r[|kind|..|kind| + 12] == " with name '"
    ensures r[|kind| + 12..|kind| + 12 + |name|] == name
    ensures r[|kind| + 11] == '\'' && r[|kind| + 12 + |name|] == '\''
    ensures r[|r| - 17..] == "' already exists!"
  {
    kind + " with name '" + name + "' already exists!"
  }

  /**
   * The effect of one class definition on the registry contents `entries`:
   * the skipped name changes nothing, a fresh name is added, a known name
   * raises.
   */
  function Define<C>(entries: map<string, C>, excluded: string, kind: string, name: string, cls: C)
    : (r: Outcome<map<string, C>>)
    ensures r.TypeError? <==> name != excluded && name in entries
    ensures r.TypeError? ==> r.message == DuplicateMessage(kind, name)
    ensures r.Ok? ==> r.value.Keys == if name == excluded then entries.Keys else entries.Keys + {name}
    ensures r.Ok? ==> forall k :: k in entries ==> k in r.value && r.value[k] == entries[k]
    ensures r.Ok? && name != excluded ==> r.value[name] == cls
  {
    if name != excluded then
      if name in entries then TypeError(DuplicateMessage(kind, name))
      else Ok(entries[name := cls])
    else
      Ok(entries)
  }

  /**
   * The registry after a sequence of class definitions, in order; the first
   * `TypeError` aborts the rest (the defining module fails to import). It
   * fails exactly at the first collision, and the error names that class.
   */
  function DefineAll<C>(entries: map<string, C>, excluded: string, kind: string, defs: seq<(string, C)>)
    : (r: Outcome<map<string, C>>)
    ensures r.Ok? ==> forall k :: k in entries ==> k in r.value && r.value[k] == entries[k]
    ensures r.Ok? ==> r.value.Keys == entries.Keys + Names(defs, excluded)
    ensures r.TypeError? <==> FirstCollision(entries.Keys, excluded, defs).Some?
    ensures r.TypeError? ==>
              r.message == DuplicateMessage(kind, defs[FirstCollision(entries.Keys, excluded, defs).value].0)
    decreases |defs|
  {
    if defs == [] then
      assert Names(defs, excluded) == {};
      Ok(entries)
    else
      NamesSnoc(defs, excluded);
      var init, last := defs[..|defs| - 1], defs[|defs| - 1];
      match DefineAll(entries, excluded, kind, init)
      case TypeError(msg) => TypeError(msg)
      case Ok(m) =>
        assert FirstCollision(entries.Keys, excluded, init).None?;
        assert m.Keys == entries.Keys + Names(init, excluded);
        assert FirstCollision(entries.Keys, excluded, defs)
            == if last.0 != excluded && last.0 in m.Keys then Some(|defs| - 1) else None;
        Define(m, excluded, kind, last.0, last.1)
  }

  /** The names of `defs` that are subject to registration. */
  ghost function Names<C>(defs: seq<(string, C)>, excluded: string): set<string>
  {
    set d | d in defs && d.0 != excluded :: d.0
  }

  /** No registrable name is defined twice. */
  ghost predicate UniqueNames<C>(defs: seq<(string, C)>, excluded: string)
  {
    forall i, j :: 0 <= i < j < |defs| && defs[j].0 != excluded ==> defs[i].0 != defs[j].0
  }

  /**
   * Definition `i` of `defs` collides: its name is among `keys` or was
   * defined earlier in `defs`.
   */
  ghost predicate Collides<C>(keys: set<string>, defs: seq<(string, C)>, i: int)
    requires 0 <= i < |defs|
  {
    defs[i].0 in keys || exists j :: 0 <= j < i && defs[j].0 == defs[i].0
  }

  /**
   * A reference definition of where a sequence of definitions fails: the
   * index of the first definition whose registrable name is already among
   * `keys` or the registrable names defined before it.
   */
  ghost function FirstCollision<C>(keys: set<string>, excluded: string, defs: seq<(string, C)>): (r: Option<nat>)
    ensures r.Some? ==> r.value < |defs| && defs[r.value].0 != excluded
    decreases |defs|
  {
    if defs == [] then None
    else
      match FirstCollision(keys, excluded, defs[..|defs| - 1])
      case Some(k) => Some(k)
      case None =>
        if defs[|defs| - 1].0 != excluded && defs[|defs| - 1].0 in keys + Names(defs[..|defs| - 1], excluded)
        then Some(|defs| - 1)
        else None
  }

  /**
   * After any sequence of successful definitions starting from the empty
   * dictionary, the keys are exactly the defined names other than the
   * excluded one, each mapped to the class it was defined with.
   */
  lemma {:induction false} DefineAllContents<C>(excluded: string, kind: string, defs: seq<(string, C)>)
    requires DefineAll(map[], excluded, kind, defs).Ok?
    ensures DefineAll(map[], excluded, kind, defs).value.Keys == Names(defs, excluded)
    ensures excluded !in DefineAll(map[], excluded, kind, defs).value
    ensures forall i :: 0 <= i < |defs| && defs[i].0 != excluded ==>
              DefineAll(map[], excluded, kind, defs).value[defs[i].0] == defs[i].1
  {
    var r := DefineAll(map[], excluded, kind, defs).value;
    if defs == [] {
      assert Names(defs, excluded) == {};
    } else {
      var init, last := defs[..|defs| - 1], defs[|defs| - 1];
      assert defs == init + [last];
      DefineAllContents(excluded, kind, init);
      var m := DefineAll(map[], excluded, kind, init).value;
      assert Define(m, excluded, kind, last.0, last.1) == Ok(r);
      assert forall d :: d in defs <==> d in init || d == last;
      if last.0 == excluded {
        assert Names(defs, excluded) == Names(init, excluded);
      } else {
        assert Names(defs, excluded) == Names(init, excluded) + {last.0};
      }
      forall i | 0 <= i < |defs| && defs[i].0 != excluded
        ensures r[defs[i].0] == defs[i].1
      {
        if i < |init| {
          assert defs[i] == init[i];
        }
      }
    }
  }

  /** The registrable names of a non-empty `defs`, split at its last element. */
  lemma NamesSnoc<C>(defs: seq<(string, C)>, excluded: string)
    requires defs != []
    ensures var init, last := defs[..|defs| - 1], defs[|defs| - 1];
            Names(defs, excluded) == Names(init, excluded) + (if last.0 == excluded then {} else {last.0})
  {
    var init, last := defs[..|defs| - 1], defs[|defs| - 1];
    assert defs == init + [last];
    assert forall d :: d in defs <==> d in init || d == last;
  }

  /**
   * A failing run reports a colliding definition: the name in the
   * `TypeError` is registrable and was already a key of the starting
   * dictionary or was defined earlier in `defs`.
   */
  lemma DefineAllReportsCollision<C>(entries: map<string, C>, excluded: string, kind: string, defs: seq<(string, C)>)
    requires DefineAll(entries, excluded, kind, defs).TypeError?
    ensures exists i :: 0 <= i < |defs| && defs[i].0 != excluded && Collides(entries.Keys, defs, i)
              && DefineAll(entries, excluded, kind, defs).message == DuplicateMessage(kind, defs[i].0)
  {
    FirstCollisionCollides(entries.Keys, excluded, defs);
    var i := FirstCollision(entries.Keys, excluded, defs).value;
    assert Collides(entries.Keys, defs, i);
  }

  /** The definition `FirstCollision` picks does collide. */
  lemma {:induction false} FirstCollisionCollides<C>(keys: set<string>, excluded: string, defs: seq<(string, C)>)
    requires FirstCollision(keys, excluded, defs).Some?
    ensures Collides(keys, defs, FirstCollision(keys, excluded, defs).value)
  {
    var init, last := defs[..|defs| - 1], defs[|defs| - 1];
    var i := FirstCollision(keys, excluded, defs).value;
    if FirstCollision(keys, excluded, init).Some? {
      FirstCollisionCollides(keys, excluded, init);
      assert defs[i] == init[i];
      if defs[i].0 !in keys {
        var j :| 0 <= j < i && init[j].0 == init[i].0;
        assert defs[j] == init[j];
      }
    } else if last.0 !in keys {
      var j := NameIndex(init, excluded, last.0);
      assert defs[j] == init[j];
    }
  }

  /**
   * No definition before the one `FirstCollision` picks collides, and none
   * collides at all when it picks nothing.
   */
  lemma {:induction false} FirstCollisionIsFirst<C>(keys: set<string>, excluded: string, defs: seq<(string, C)>, k: int)
    requires 0 <= k < |defs| && defs[k].0 != excluded && Collides(keys, defs, k)
    ensures FirstCollision(keys, excluded, defs).Some? && FirstCollision(keys, excluded, defs).value <= k
  {
    var init, last := defs[..|defs| - 1], defs[|defs| - 1];
    if k < |init| {
      assert defs[k] == init[k];
      if defs[k].0 !in keys {
        var j :| 0 <= j < k && defs[j].0 == defs[k].0;
        assert defs[j] == init[j];
      }
      FirstCollisionIsFirst(keys, excluded, init, k);
    } else if FirstCollision(keys, excluded, init).None? && last.0 !in keys {
      var j :| 0 <= j < k && defs[j].0 == defs[k].0;
      assert init[j] == defs[j];
      assert last.0 in Names(init, excluded);
    }
  }

  /** A registrable name of `defs` is the name of one of its elements. */
  lemma NameIndex<C>(defs: seq<(string, C)>, excluded: string, name: string) returns (j: int)
    requires name in Names(defs, excluded)
    ensures 0 <= j < |defs| && defs[j].0 == name
  {
    var d :| d in defs && d.0 != excluded && d.0 == name;
    j :| 0 <= j < |defs| && defs[j] == d;
  }

  /** A sequence of definitions imports cleanly exactly when its registrable names are distinct. */
  lemma {:induction false} DefineAllSucceeds<C>(excluded: string, kind: string, defs: seq<(string, C)>)
    ensures DefineAll(map[], excluded, kind, defs).Ok? <==> UniqueNames(defs, excluded)
  {
    if defs != [] {
      var init, last := defs[..|defs| - 1], defs[|defs| - 1];
      DefineAllSucceeds(excluded, kind, init);
      UniqueNamesSplit(defs, excluded);
      if DefineAll(map[], excluded, kind, init).Ok? {
        DefineAllContents(excluded, kind, init);
        var m := DefineAll(map[], excluded, kind, init).value;
        if last.0 != excluded && last.0 in m {
          assert last.0 in Names(init, excluded);
          var d :| d in init && d.0 != excluded && d.0 == last.0;
          assert d.0 == last.0;
        }
      }
    }
  }

  /**
   * Names are unique in a non-empty sequence exactly when they are unique in
   * all but its last element and that element's name, if registrable, is new.
   */
  lemma UniqueNamesSplit<C>(defs: seq<(string, C)>, excluded: string)
    requires defs != []
    ensures var init, last := defs[..|defs| - 1], defs[|defs| - 1];
            UniqueNames(defs, excluded) <==>
              && UniqueNames(init, excluded)
              && (last.0 == excluded || forall d :: d in init ==> d.0 != last.0)
  {
    var init, last := defs[..|defs| - 1], defs[|defs| - 1];
    assert forall i :: 0 <= i < |init| ==> init[i] == defs[i];
    if UniqueNames(init, excluded) && (last.0 == excluded || forall d :: d in init ==> d.0 != last.0) {
      forall i, j | 0 <= i < j < |defs| && defs[j].0 != excluded
        ensures defs[i].0 != defs[j].0
      {
        if j == |init| {
          assert defs[i] in init;
        }
      }
    }
    if UniqueNames(defs, excluded) && last.0 != excluded {
      forall d | d in init
        ensures d.0 != last.0
      {
        var i :| 0 <= i < |init| && init[i] == d;
        assert defs[i] == d;
      }
    }
  }

  /**
   * A process-wide registry (`available_checkers` or `available_notifiers`):
   * the dictionary `entries`, filled by class definitions. `defined` records
   * the definitions that completed, in order.
   */
  class StrategyRegistry<C> {
    const kind: string
    const excluded: string
    var entries: map<string, C>
    ghost var defined: seq<(string, C)>

    ghost predicate Valid()
      reads this
    {
      DefineAll(map[], excluded, kind, defined) == Ok(entries)
    }

    /** The empty module-level dictionary. */
    constructor (kind: string, excluded: string)
      ensures Valid()
      ensures this.kind == kind && this.excluded == excluded
      ensures entries == map[] && defined == []
    {
      this.kind := kind;
      this.excluded := excluded;
      entries := map[];
      defined := [];
    }

    /**
     * The metaclass `__new__` for a class called `name`: returns the class,
     * or raises `TypeError` and leaves the dictionary as it was.
     */
    method Register(name: string, cls: C) returns (outcome: Outcome<C>)
      requires Valid()
      modifies this
      ensures Valid()
      ensures outcome.TypeError? <==> name != excluded && name in old(entries)
      ensures outcome.TypeError? ==>
                && outcome.message == DuplicateMessage(kind, name)
                && entries == old(entries) && defined == old(defined)
      ensures outcome.Ok? ==>
                && outcome.value == cls
                && entries == (if name == excluded then old(entries) else old(entries)[name := cls])
                && defined == old(defined) + [(name, cls)]
      ensures excluded !in entries
    {
      if name != excluded {
        if name in entries {
          outcome := TypeError(DuplicateMessage(kind, name));
          DefineAllContents(excluded, kind, defined);
          return;
        }
        entries := entries[name := cls];
      }
      ghost var before := defined;
      defined := defined + [(name, cls)];
      assert defined[..|defined| - 1] == before;
      outcome := Ok(cls);
      DefineAllContents(excluded, kind, defined);
    }
  }
}
