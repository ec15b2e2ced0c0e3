/** Nested settings as trees: reading, setting and merging (sova/config/db_loader.py, sova/config/loader.py). */
module SettingsTree {
  import opened Basics

  type Json = string

  /** A scalar or list is a leaf; a dictionary holds named subtrees. */
  datatype Tree = Leaf(json: Json) | Dict(entries: map<string, Tree>)

  type Path = seq<string>

  /** What stands at a path. */
  function At(t: Tree, p: Path): Option<Tree> {
    if p == [] then Some(t)
    else if t.Leaf? || p[0] !in t.entries then None
    else At(t.entries[p[0]], p[1..])
  }

  /** The value at a path, when a leaf stands there. */
  function LeafAt(t: Tree, p: Path): Option<Json> {
    match At(t, p)
    case Some(Leaf(json)) => Some(json)
    case _ => None
  }

  predicate Comparable(p: Path, q: Path) {
    p <= q || q <= p
  }

  lemma ComparableTails(p: Path, q: Path)
    requires p != [] && q != []
    ensures Comparable(p, q) <==> p[0] == q[0] && Comparable(p[1..], q[1..])
    ensures p <= q <==> p[0] == q[0] && p[1..] <= q[1..]
    ensures q <= p <==> p[0] == q[0] && q[1..] <= p[1..]
  {
    PrefixTails(p, q);
    PrefixTails(q, p);
  }

  lemma PrefixTails(p: Path, q: Path)
    requires p != [] && q != []
    ensures p <= q <==> p[0] == q[0] && p[1..] <= q[1..]
  {
    if p[0] == q[0] && p[1..] <= q[1..] {
      assert p == [p[0]] + p[1..] && q == [q[0]] + q[1..];
    }
  }

  // ---------------------------------------------------------------- setting a path

  function EntriesAt(entries: map<string, Tree>, key: string): map<string, Tree> {
    if key in entries && entries[key].Dict? then entries[key].entries else map[]
  }

  /** Sets a path, creating the dictionaries on the way; whatever else stood on the way is replaced. */
  function Set(entries: map<string, Tree>, p: Path, value: Tree): map<string, Tree>
    requires p != []
    decreases |p|
  {
    if |p| == 1 then entries[p[0] := value]
    else entries[p[0] := Dict(Set(EntriesAt(entries, p[0]), p[1..], value))]
  }

  /** After setting one path, any path reads as the new value, as nothing, or as before. */
  lemma {:induction false} ReadAfterSet(entries: map<string, Tree>, q: Path, value: Tree, p: Path)
    requires q != []
    ensures LeafAt(Dict(Set(entries, q, value)), p) ==
            if q <= p then LeafAt(value, p[|q|..])
            else if p <= q then None
            else LeafAt(Dict(entries), p)
    decreases |q|
  {
    if p == [] || p[0] != q[0] {
      ReadElsewhere(entries, q, value, p);
    } else if |q| == 1 {
      assert p[1..] == p[|q|..];
      SingletonIsPrefix(q, p);
    } else {
      ComparableTails(p, q);
      ReadStep(entries, q, value, p);
      ReadAfterSet(EntriesAt(entries, q[0]), q[1..], value, p[1..]);
      if q <= p { assert p[1..][|q| - 1..] == p[|q|..]; }
      if |p| > 1 { StepInto(entries, p); } else { SingletonIsPrefix(p, q); }
    }
  }

  lemma StepInto(entries: map<string, Tree>, p: Path)
    requires |p| > 1
    ensures LeafAt(Dict(entries), p) == LeafAt(Dict(EntriesAt(entries, p[0])), p[1..])
  {
    var rest := p[1..];
    assert rest != [];
    if p[0] in entries {
      assert At(Dict(entries), p) == At(entries[p[0]], rest);
      if entries[p[0]].Dict? { assert Dict(entries[p[0]].entries) == entries[p[0]]; }
    }
  }

  lemma ReadStep(entries: map<string, Tree>, q: Path, value: Tree, p: Path)
    requires |q| > 1 && p != [] && p[0] == q[0]
    ensures LeafAt(Dict(Set(entries, q, value)), p) == LeafAt(Dict(Set(EntriesAt(entries, q[0]), q[1..], value)), p[1..])
  {
  }

  lemma ReadElsewhere(entries: map<string, Tree>, q: Path, value: Tree, p: Path)
    requires q != [] && (p == [] || p[0] != q[0])
    ensures LeafAt(Dict(Set(entries, q, value)), p) == LeafAt(Dict(entries), p)
  {
  }

  /** Settings at incomparable paths commute. */
  lemma {:induction false} SetsCommute(entries: map<string, Tree>, p: Path, v: Tree, q: Path, w: Tree)
    requires p != [] && q != [] && !Comparable(p, q)
    ensures Set(Set(entries, p, v), q, w) == Set(Set(entries, q, w), p, v)
    decreases |p|
  {
    ComparableTails(p, q);
    if p[0] == q[0] {
      if |p| == 1 { SingletonIsPrefix(p, q); }
      if |q| == 1 { SingletonIsPrefix(q, p); }
      SetsCommute(EntriesAt(entries, p[0]), p[1..], v, q[1..], w);
      SetTwice(entries, p, v, q, w);
      SetTwice(entries, q, w, p, v);
    } else {
      SetApart(entries, p, v, q, w);
    }
  }

  lemma SingletonIsPrefix(p: Path, q: Path)
    requires |p| == 1 && q != [] && p[0] == q[0]
    ensures p <= q
  {
  }

  lemma SetTwice(entries: map<string, Tree>, p: Path, v: Tree, q: Path, w: Tree)
    requires |p| > 1 && |q| > 1 && p[0] == q[0]
    ensures Set(Set(entries, p, v), q, w) == entries[p[0] := Dict(Set(Set(EntriesAt(entries, p[0]), p[1..], v), q[1..], w))]
  {
    var once := Set(EntriesAt(entries, p[0]), p[1..], v);
    assert Set(entries, p, v) == entries[p[0] := Dict(once)];
    assert EntriesAt(entries[p[0] := Dict(once)], q[0]) == once;
  }

  lemma SetApart(entries: map<string, Tree>, p: Path, v: Tree, q: Path, w: Tree)
    requires p != [] && q != [] && p[0] != q[0]
    ensures Set(Set(entries, p, v), q, w) == Set(Set(entries, q, w), p, v)
  {
    SetIsUpdate(entries, p, v);
    SetIsUpdate(entries, q, w);
    SetIsUpdate(Set(entries, q, w), p, v);
    SetIsUpdate(Set(entries, p, v), q, w);
  }

  function NewEntry(entries: map<string, Tree>, p: Path, v: Tree): Tree
    requires p != []
  {
    if |p| == 1 then v else Dict(Set(EntriesAt(entries, p[0]), p[1..], v))
  }

  lemma SetIsUpdate(entries: map<string, Tree>, p: Path, v: Tree)
    requires p != []
    ensures Set(entries, p, v) == entries[p[0] := NewEntry(entries, p, v)]
  {
  }

  // ---------------------------------------------------------------- trees are their leaves

  /** No dictionary below the root is empty. */
  ghost predicate NoEmptyDict(t: Tree) {
    t.Dict? ==> forall k | k in t.entries :: t.entries[k] != Dict(map[]) && NoEmptyDict(t.entries[k])
  }

  /** Every nonempty tree without empty dictionaries has a leaf. */
  lemma {:induction false} SomeLeaf(t: Tree) returns (p: Path)
    requires NoEmptyDict(t) && t != Dict(map[])
    ensures LeafAt(t, p).Some?
    decreases t
  {
    if t.Leaf? {
      return [];
    }
    var k :| k in t.entries;
    var rest := SomeLeaf(t.entries[k]);
    p := [k] + rest;
    assert p[1..] == rest;
  }

  ghost predicate SameLeaves(t: Tree, u: Tree) {
    forall p :: LeafAt(t, p) == LeafAt(u, p)
  }

  lemma SubtreesAgree(t: Tree, u: Tree, k: string)
    requires SameLeaves(t, u) && t.Dict? && u.Dict? && k in t.entries && k in u.entries
    ensures SameLeaves(t.entries[k], u.entries[k])
  {
    forall p ensures LeafAt(t.entries[k], p) == LeafAt(u.entries[k], p) {
      assert ([k] + p)[1..] == p;
      assert LeafAt(t, [k] + p) == LeafAt(u, [k] + p);
    }
  }

  lemma SameKeys(t: Tree, u: Tree, k: string)
    requires SameLeaves(t, u) && t.Dict? && u.Dict? && k in t.entries && NoEmptyDict(t)
    ensures k in u.entries
  {
    var rest := SomeLeaf(t.entries[k]);
    var p := [k] + rest;
    assert p[1..] == rest;
    assert LeafAt(t, p) == LeafAt(u, p);
  }

  /** Two such trees with the same leaves are the same. */
  lemma {:induction false} LeavesDetermine(t: Tree, u: Tree)
    requires SameLeaves(t, u) && NoEmptyDict(t) && NoEmptyDict(u)
    requires (t.Dict? && u.Dict?) || (t != Dict(map[]) && u != Dict(map[]))
    ensures t == u
    decreases t
  {
    if t.Dict? && u.Dict? {
      forall k ensures k in t.entries <==> k in u.entries {
        if k in t.entries { SameKeys(t, u, k); }
        if k in u.entries { SameKeys(u, t, k); }
      }
      forall k | k in t.entries ensures t.entries[k] == u.entries[k] {
        SubtreesAgree(t, u, k);
        LeavesDetermine(t.entries[k], u.entries[k]);
      }
    } else {
      assert LeafAt(t, []) == LeafAt(u, []);
    }
  }

  // ---------------------------------------------------------------- merging

  /** The override wins, except that two dictionaries are merged entry by entry. */
  function Merge(base: Tree, over: Tree): Tree
    decreases over
  {
    if base.Dict? && over.Dict? then
      Dict(map k | k in base.entries.Keys + over.entries.Keys ::
             if k !in over.entries then base.entries[k]
             else if k in base.entries then Merge(base.entries[k], over.entries[k])
             else over.entries[k])
    else over
  }

  /** The override has its say at a path: something stands there, or a leaf stands on the way to it. */
  predicate Decides(over: Tree, p: Path) {
    At(over, p).Some? || exists k | 0 <= k < |p| :: LeafAt(over, p[..k]).Some?
  }

  lemma {:induction false} DecidesStep(over: Tree, p: Path)
    ensures Decides(over, p) <==> p == [] || over.Leaf? || (p[0] in over.entries && Decides(over.entries[p[0]], p[1..]))
  {
    if p != [] {
      if over.Leaf? {
        assert LeafAt(over, p[..0]).Some?;
      } else {
        forall k | 0 < k < |p| ensures LeafAt(over, p[..k]) ==
                                       if p[0] in over.entries then LeafAt(over.entries[p[0]], p[1..][..k - 1]) else None {
          assert p[..k][1..] == p[1..][..k - 1];
        }
        if k :| 0 <= k < |p| && LeafAt(over, p[..k]).Some? {
          assert LeafAt(over.entries[p[0]], p[1..][..k - 1]).Some?;
        }
        if p[0] in over.entries {
          if k :| 0 <= k < |p| - 1 && LeafAt(over.entries[p[0]], p[1..][..k]).Some? {
            assert LeafAt(over, p[..k + 1]).Some?;
          }
        }
      }
    }
  }

  /** For every pair of layers and every path: the override's leaf where it has its say, the base's elsewhere. */
  lemma {:induction false} MergeReads(base: Tree, over: Tree, p: Path)
    ensures LeafAt(Merge(base, over), p) == LeafAt(if Decides(over, p) then over else base, p)
    decreases over
  {
    DecidesStep(over, p);
    if base.Dict? && over.Dict? && p != [] && p[0] in base.entries && p[0] in over.entries {
      MergeReads(base.entries[p[0]], over.entries[p[0]], p[1..]);
    }
  }

  /** No path holds a dictionary in one layer and a leaf in the other. */
  ghost predicate SameKinds(base: Tree, over: Tree) {
    forall p :: At(base, p).Some? && At(over, p).Some? ==> (At(base, p).value.Leaf? <==> At(over, p).value.Leaf?)
  }

  /** Between layers of the same kinds, each leaf is the override's if it has one, else the base's. */
  lemma MergePrefersOverride(base: Tree, over: Tree, p: Path)
    requires SameKinds(base, over)
    ensures LeafAt(Merge(base, over), p) == if LeafAt(over, p).Some? then LeafAt(over, p) else LeafAt(base, p)
  {
    MergeReads(base, over, p);
    if LeafAt(base, p).Some? {
      forall k | 0 <= k < |p| ensures LeafAt(over, p[..k]).None? { NoLeafOnTheWay(base, over, p, k); }
    }
  }

  lemma NoLeafOnTheWay(base: Tree, over: Tree, p: Path, k: nat)
    requires SameKinds(base, over) && At(base, p).Some? && k < |p|
    ensures LeafAt(over, p[..k]).None?
  {
    OnTheWay(base, p, k);
  }

  /** On the way to anything stands a dictionary. */
  lemma {:induction false} OnTheWay(t: Tree, p: Path, k: nat)
    requires At(t, p).Some? && k < |p|
    ensures At(t, p[..k]).Some? && At(t, p[..k]).value.Dict?
    decreases |p|
  {
    if k > 0 {
      OnTheWay(t.entries[p[0]], p[1..], k - 1);
      assert p[..k][1..] == p[1..][..k - 1];
    }
  }

  /** The overrides outside `todo` have been applied. */
  predicate HalfMerged(base: map<string, Tree>, overrides: map<string, Tree>, result: map<string, Tree>, todo: set<string>) {
    && result.Keys == base.Keys + (overrides.Keys - todo)
    && forall k | k in result :: result[k] == if k in todo || k !in overrides then base[k] else Merged(base, overrides, k)
  }

  function Merged(base: map<string, Tree>, overrides: map<string, Tree>, k: string): Tree
    requires k in overrides
  {
    if k in base then Merge(base[k], overrides[k]) else overrides[k]
  }

  lemma AllMerged(base: map<string, Tree>, overrides: map<string, Tree>, result: map<string, Tree>)
    requires HalfMerged(base, overrides, result, {})
    ensures Dict(result) == Merge(Dict(base), Dict(overrides))
  {
    var merged := Merge(Dict(base), Dict(overrides)).entries;
    assert result.Keys == merged.Keys;
    forall k | k in result ensures result[k] == merged[k] { }
  }

  /** The merge as the loader runs it: a copy of the base, overridden key by key. */
  method DeepMerge(base: map<string, Tree>, overrides: map<string, Tree>) returns (result: map<string, Tree>)
    ensures Dict(result) == Merge(Dict(base), Dict(overrides))
    decreases Dict(overrides), 1
  {
    result := base;
    var todo := overrides.Keys;
    while todo != {}
      invariant todo <= overrides.Keys && HalfMerged(base, overrides, result, todo)
      decreases |todo|
    {
      var k :| k in todo;
      todo := todo - {k};
      var merged := MergeEntry(base, overrides, k);
      result := result[k := merged];
    }
    AllMerged(base, overrides, result);
  }

  method MergeEntry(base: map<string, Tree>, overrides: map<string, Tree>, k: string) returns (merged: Tree)
    requires k in overrides
    ensures merged == Merged(base, overrides, k)
    decreases Dict(overrides), 0
  {
    if k in base && base[k].Dict? && overrides[k].Dict? {
      var entries := DeepMerge(base[k].entries, overrides[k].entries);
      merged := Dict(entries);
    } else {
      merged := overrides[k];
    }
  }
}
