/**
 * Settings rows: nested settings are flattened to rows with dotted keys, saves replace whole sections,
 * and reading replays the rows in order (sova/config/db_loader.py).
 */
module Settings {
  import opened Basics
  import opened SettingsTree

  // ---------------------------------------------------------------- dotted keys

  function SplitDots(s: string): (parts: Path)
    ensures parts != []
  {
    if s == "" then [""]
    else
      var rest := SplitDots(s[1..]);
      if s[0] == '.' then [""] + rest else [[s[0]] + rest[0]] + rest[1..]
  }

  function Join(parts: Path): string
    requires parts != []
  {
    if |parts| == 1 then parts[0] else parts[0] + ("." + Join(parts[1..]))
  }

  lemma {:induction false} JoinSplit(s: string)
    ensures Join(SplitDots(s)) == s
  {
    if s != "" {
      JoinSplit(s[1..]);
      var rest := SplitDots(s[1..]);
      if s[0] == '.' {
        assert ([""] + rest)[1..] == rest;
      } else {
        var parts := [[s[0]] + rest[0]] + rest[1..];
        assert parts[1..] == rest[1..];
        if |rest| > 1 { assert [s[0]] + (rest[0] + ("." + Join(rest[1..]))) == ([s[0]] + rest[0]) + ("." + Join(rest[1..])); }
      }
    }
  }

  lemma {:induction false} SplitFirst(x: string, rest: string)
    requires '.' !in x
    ensures SplitDots(x) == [x] && SplitDots(x + ("." + rest)) == [x] + SplitDots(rest)
  {
    var s := x + ("." + rest);
    if x == "" {
      assert s[1..] == rest;
    } else {
      SplitFirst(x[1..], rest);
      assert s[1..] == x[1..] + ("." + rest);
      assert ([x[1..]] + SplitDots(rest))[1..] == SplitDots(rest);
      assert [x[0]] + x[1..] == x;
    }
  }

  predicate PlainName(s: string) {
    s != "" && '.' !in s
  }

  predicate PlainPath(p: Path) {
    forall i | 0 <= i < |p| :: PlainName(p[i])
  }

  lemma {:induction false} SplitJoin(p: Path)
    requires p != [] && PlainPath(p)
    ensures SplitDots(Join(p)) == p
  {
    if |p| == 1 {
      SplitFirst(p[0], "");
    } else {
      SplitJoin(p[1..]);
      SplitFirst(p[0], Join(p[1..]));
    }
  }

  // ---------------------------------------------------------------- flattening

  /** Every key of the tree is a nonempty name without dots. */
  predicate PlainKeys(t: Tree) {
    t.Dict? ==> forall k | k in t.entries :: PlainName(k) && PlainKeys(t.entries[k])
  }

  /** The key a path is saved under; below an empty name no dot is put. */
  function FullKey(prefix: string, path: Path): string
    requires path != []
    decreases |path|
  {
    var key := if prefix == "" then path[0] else prefix + ("." + path[0]);
    if |path| == 1 then key else FullKey(key, path[1..])
  }

  /** Some leaf of the tree has this key and this value. */
  ghost predicate HasLeaf(config: map<string, Tree>, prefix: string, key: string, json: Json, todo: set<string>) {
    exists p :: p != [] && p[0] !in todo && LeafAt(Dict(config), p) == Some(json) && FullKey(prefix, p) == key
  }

  /** An entry for the key of every leaf, and none but for leaves; of leaves that share a key, one is kept. */
  ghost predicate IsFlattened(config: map<string, Tree>, prefix: string, flat: map<string, Json>, todo: set<string>) {
    && (forall p | p != [] && p[0] !in todo && LeafAt(Dict(config), p).Some? :: FullKey(prefix, p) in flat)
    && (forall key | key in flat :: HasLeaf(config, prefix, key, flat[key], todo))
  }

  method Flatten(config: map<string, Tree>, prefix: string) returns (flat: map<string, Json>)
    ensures IsFlattened(config, prefix, flat, {})
    decreases Dict(config)
  {
    flat := map[];
    var todo := config.Keys;
    while todo != {}
      invariant todo <= config.Keys && IsFlattened(config, prefix, flat, todo)
      decreases |todo|
    {
      var k :| k in todo;
      var fullKey := if prefix == "" then k else prefix + ("." + k);
      if config[k].Dict? {
        var sub := Flatten(config[k].entries, fullKey);
        FlattenDict(config, prefix, flat, todo, k, sub);
        flat := flat + sub;
      } else {
        FlattenLeaf(config, prefix, flat, todo, k);
        flat := flat[fullKey := config[k].json];
      }
      todo := todo - {k};
    }
  }

  lemma FlattenLeaf(config: map<string, Tree>, prefix: string, flat: map<string, Json>, todo: set<string>, k: string)
    requires IsFlattened(config, prefix, flat, todo) && k in todo && k in config && config[k].Leaf?
    ensures IsFlattened(config, prefix, flat[FullKey(prefix, [k]) := config[k].json], todo - {k})
  {
    hide LeafAt;
    var longer := flat[FullKey(prefix, [k]) := config[k].json];
    LeafEntry(config, k, [k]);
    forall p | p != [] && p[0] !in todo - {k} && LeafAt(Dict(config), p).Some? ensures FullKey(prefix, p) in longer {
      if p[0] == k { LeafEntry(config, k, p); }
    }
    forall key | key in longer ensures HasLeaf(config, prefix, key, longer[key], todo - {k}) {
      if key != FullKey(prefix, [k]) { assert HasLeaf(config, prefix, key, flat[key], todo); }
    }
  }

  lemma FlattenDict(config: map<string, Tree>, prefix: string, flat: map<string, Json>, todo: set<string>, k: string, sub: map<string, Json>)
    requires IsFlattened(config, prefix, flat, todo) && k in todo && k in config && config[k].Dict?
    requires IsFlattened(config[k].entries, FullKey(prefix, [k]), sub, {})
    ensures IsFlattened(config, prefix, flat + sub, todo - {k})
  {
    hide LeafAt;
    forall p | p != [] && p[0] !in todo - {k} && LeafAt(Dict(config), p).Some? ensures FullKey(prefix, p) in flat + sub {
      if p[0] == k {
        DictEntry(config, k, p);
        assert p[1..] != [];
      }
    }
    forall key | key in flat + sub ensures HasLeaf(config, prefix, key, (flat + sub)[key], todo - {k}) {
      if key in sub {
        var q :| q != [] && LeafAt(Dict(config[k].entries), q) == Some(sub[key]) && FullKey(FullKey(prefix, [k]), q) == key;
        DictEntry(config, k, [k] + q);
        assert ([k] + q)[1..] == q;
        assert FullKey(prefix, [k] + q) == key;
      } else {
        assert HasLeaf(config, prefix, key, flat[key], todo);
      }
    }
  }

  lemma LeafEntry(config: map<string, Tree>, k: string, rest: Path)
    requires k in config && config[k].Leaf? && rest != [] && rest[0] == k
    ensures LeafAt(Dict(config), rest) == if rest == [k] then Some(config[k].json) else None
  {
    assert At(Dict(config), rest) == At(config[k], rest[1..]);
    if |rest| == 1 { assert rest == [k] && rest[1..] == []; }
  }

  lemma DictEntry(config: map<string, Tree>, k: string, rest: Path)
    requires k in config && config[k].Dict? && rest != [] && rest[0] == k
    ensures LeafAt(Dict(config), rest) == LeafAt(Dict(config[k].entries), rest[1..])
    ensures |rest| == 1 ==> LeafAt(Dict(config), rest) == None
  {
    assert Dict(config[k].entries) == config[k];
    if |rest| == 1 { assert rest[1..] == []; }
  }

  /** Leaves that share a key share their value. */
  ghost predicate NoClash(config: map<string, Tree>) {
    forall p, q | p != [] && q != [] && LeafAt(Dict(config), p).Some? && LeafAt(Dict(config), q).Some?
                  && FullKey("", p) == FullKey("", q) :: LeafAt(Dict(config), p) == LeafAt(Dict(config), q)
  }

  /** What is saved does not depend on the order of the dictionaries if and only if no two leaves clash. */
  lemma FlatIsDetermined(config: map<string, Tree>, flat: map<string, Json>)
    requires IsFlattened(config, "", flat, {})
    ensures NoClash(config) <==> forall other | IsFlattened(config, "", other, {}) :: other == flat
  {
    hide LeafAt, FullKey;
    if NoClash(config) {
      forall other | IsFlattened(config, "", other, {}) ensures other == flat {
        forall key | key in other ensures key in flat && other[key] == flat[key] { SameEntry(config, other, flat, key); }
        forall key | key in flat ensures key in other { SameEntry(config, flat, other, key); }
      }
    } else {
      var p, q :| p != [] && q != [] && LeafAt(Dict(config), p).Some? && LeafAt(Dict(config), q).Some?
                  && FullKey("", p) == FullKey("", q) && LeafAt(Dict(config), p) != LeafAt(Dict(config), q);
      Overwritten(config, flat, p);
      Overwritten(config, flat, q);
      assert flat[FullKey("", p) := LeafAt(Dict(config), p).value] != flat[FullKey("", q) := LeafAt(Dict(config), q).value];
    }
  }

  /** A dotted name can clash with a section's leaf. */
  lemma KeysClashExample()
    ensures !NoClash(map["a.b" := Leaf("1"), "a" := Dict(map["b" := Leaf("2")])])
  {
    var config := map["a.b" := Leaf("1"), "a" := Dict(map["b" := Leaf("2")])];
    LeafEntry(config, "a.b", ["a.b"]);
    DictEntry(config, "a", ["a", "b"]);
    LeafEntry(map["b" := Leaf("2")], "b", ["b"]);
    assert FullKey("", ["a.b"]) == "a.b" == FullKey("", ["a", "b"]);
  }

  lemma SameEntry(config: map<string, Tree>, flat: map<string, Json>, other: map<string, Json>, key: string)
    requires NoClash(config) && IsFlattened(config, "", flat, {}) && IsFlattened(config, "", other, {}) && key in flat
    ensures key in other && other[key] == flat[key]
  {
    assert HasLeaf(config, "", key, flat[key], {});
    var p :| p != [] && LeafAt(Dict(config), p) == Some(flat[key]) && FullKey("", p) == key;
    assert HasLeaf(config, "", key, other[key], {});
  }

  lemma Overwritten(config: map<string, Tree>, flat: map<string, Json>, p: Path)
    requires IsFlattened(config, "", flat, {}) && p != [] && LeafAt(Dict(config), p).Some?
    ensures IsFlattened(config, "", flat[FullKey("", p) := LeafAt(Dict(config), p).value], {})
  {
    var other := flat[FullKey("", p) := LeafAt(Dict(config), p).value];
    forall key | key in other ensures HasLeaf(config, "", key, other[key], {}) {
      if key != FullKey("", p) { assert HasLeaf(config, "", key, flat[key], {}); }
    }
  }

  /** One entry per leaf, under its dotted path. */
  ghost predicate IsFlat(config: map<string, Tree>, flat: map<string, Json>) {
    forall key :: if key in flat then LeafAt(Dict(config), SplitDots(key)) == Some(flat[key])
                  else LeafAt(Dict(config), SplitDots(key)) == None
  }

  /** With plain keys no two leaves share a key, and the path is the key split at its dots. */
  lemma PlainKeysStayApart(config: map<string, Tree>, flat: map<string, Json>)
    requires PlainKeys(Dict(config)) && IsFlattened(config, "", flat, {})
    ensures IsFlat(config, flat)
  {
    forall key
      ensures if key in flat then LeafAt(Dict(config), SplitDots(key)) == Some(flat[key])
              else LeafAt(Dict(config), SplitDots(key)) == None
    {
      if key in flat {
        assert HasLeaf(config, "", key, flat[key], {});
        var p :| p != [] && LeafAt(Dict(config), p) == Some(flat[key]) && FullKey("", p) == key;
        PlainKeyOf(config, p);
      } else if LeafAt(Dict(config), SplitDots(key)).Some? {
        PlainKeyOf(config, SplitDots(key));
        JoinSplit(key);
      }
    }
  }

  lemma PlainKeyOf(config: map<string, Tree>, p: Path)
    requires PlainKeys(Dict(config)) && p != [] && LeafAt(Dict(config), p).Some?
    ensures FullKey("", p) == Join(p) && SplitDots(Join(p)) == p
  {
    LeafPathIsPlain(Dict(config), p);
    PlainKeyJoins("", p);
    SplitJoin(p);
  }

  lemma {:induction false} PlainKeyJoins(prefix: string, p: Path)
    requires p != [] && PlainPath(p)
    ensures FullKey(prefix, p) == if prefix == "" then Join(p) else prefix + ("." + Join(p))
    decreases |p|
  {
    if |p| > 1 {
      var key := if prefix == "" then p[0] else prefix + ("." + p[0]);
      PlainKeyJoins(key, p[1..]);
      assert prefix + ("." + p[0]) + ("." + Join(p[1..])) == prefix + ("." + (p[0] + ("." + Join(p[1..]))));
    }
  }

  lemma {:induction false} LeafPathIsPlain(t: Tree, p: Path)
    requires PlainKeys(t) && LeafAt(t, p).Some?
    ensures PlainPath(p)
    decreases |p|
  {
    if p != [] {
      LeafPathIsPlain(t.entries[p[0]], p[1..]);
      assert forall i | 0 < i < |p| :: p[i] == p[1..][i - 1];
    }
  }

  // ---------------------------------------------------------------- saving

  /** The stored rows: a value, or text that is not valid JSON. */
  type Table = map<string, Option<Tree>>

  predicate UnderSection(config: map<string, Tree>, key: string) {
    exists s | s in config :: config[s].Dict? && s + "." <= key
  }

  /** Rows under a saved section that the save does not write are gone; every leaf is written; all else stays. */
  ghost predicate IsSaved(before: Table, config: map<string, Tree>, flat: map<string, Json>, after: Table) {
    && (forall key :: key in after <==> key in flat || (key in before && !UnderSection(config, key)))
    && (forall key | key in after :: after[key] == if key in flat then Some(Leaf(flat[key])) else before[key])
  }

  /** A save of a configuration whose keys are plain names. */
  ghost predicate Saves(before: Table, config: map<string, Tree>, flat: map<string, Json>, after: Table) {
    PlainKeys(Dict(config)) && IsFlat(config, flat) && IsSaved(before, config, flat, after)
  }

  method DeleteStale(before: Table, config: map<string, Tree>, flat: map<string, Json>) returns (after: Table)
    ensures forall key :: key in after <==> key in before && (key in flat || !UnderSection(config, key))
    ensures forall key | key in after :: after[key] == before[key]
  {
    after := before;
    if !exists s | s in config :: config[s].Dict? {
      return;
    }
    var todo := before.Keys;
    while todo != {}
      invariant todo <= before.Keys
      invariant forall key :: key in after <==> key in before && (key in todo || key in flat || !UnderSection(config, key))
      invariant forall key | key in after :: after[key] == before[key]
      decreases |todo|
    {
      var key :| key in todo;
      todo := todo - {key};
      if UnderSection(config, key) && key !in flat {
        after := after - {key};
      }
    }
  }

  method UpsertAll(before: Table, flat: map<string, Json>) returns (after: Table)
    ensures forall key :: key in after <==> key in flat || key in before
    ensures forall key | key in after :: after[key] == if key in flat then Some(Leaf(flat[key])) else before[key]
  {
    after := before;
    var todo := flat.Keys;
    while todo != {}
      invariant todo <= flat.Keys
      invariant forall key :: key in after <==> (key in flat && key !in todo) || key in before
      invariant forall key | key in after :: after[key] == if key in flat && key !in todo then Some(Leaf(flat[key])) else before[key]
      decreases |todo|
    {
      var key :| key in todo;
      todo := todo - {key};
      after := after[key := Some(Leaf(flat[key]))];
    }
  }

  /** The asynchronous writer. */
  method SaveConfig(before: Table, config: map<string, Tree>) returns (after: Table, flat: map<string, Json>)
    ensures IsFlattened(config, "", flat, {}) && IsSaved(before, config, flat, after)
    ensures PlainKeys(Dict(config)) ==> Saves(before, config, flat, after)
  {
    flat := Flatten(config, "");
    if PlainKeys(Dict(config)) { PlainKeysStayApart(config, flat); }
    after := DeleteStale(before, config, flat);
    after := UpsertAll(after, flat);
  }

  /** The synchronous writer, which does nothing when there is no leaf to write. */
  method SaveConfigSync(before: Table, config: map<string, Tree>) returns (after: Table, flat: map<string, Json>)
    ensures IsFlattened(config, "", flat, {}) && IsSavedSync(before, config, flat, after)
    ensures PlainKeys(Dict(config)) && flat != map[] ==> Saves(before, config, flat, after)
  {
    flat := Flatten(config, "");
    if PlainKeys(Dict(config)) { PlainKeysStayApart(config, flat); }
    after := before;
    if flat == map[] {
      return;
    }
    after := DeleteStale(before, config, flat);
    after := UpsertAll(after, flat);
  }

  ghost predicate IsSavedSync(before: Table, config: map<string, Tree>, flat: map<string, Json>, after: Table) {
    if flat == map[] then after == before else IsSaved(before, config, flat, after)
  }

  lemma SavedIsUnique(before: Table, config: map<string, Tree>, flat: map<string, Json>, after: Table, other: Table)
    requires IsSaved(before, config, flat, after) && IsSaved(before, config, flat, other)
    ensures after == other
  {
    forall key | key in after ensures key in other && after[key] == other[key] { }
  }

  /** The two writers leave the same rows unless the configuration has sections but no leaf, and stale rows lie under them. */
  lemma WritersAgree(before: Table, config: map<string, Tree>, flat: map<string, Json>, async: Table, sync: Table)
    requires IsSaved(before, config, flat, async) && IsSavedSync(before, config, flat, sync)
    ensures async == sync <==> flat != map[] || forall key | key in before :: !UnderSection(config, key)
  {
    if flat != map[] {
      SavedIsUnique(before, config, flat, async, sync);
    } else if forall key | key in before :: !UnderSection(config, key) {
      forall key | key in async ensures key in before && async[key] == before[key] { }
      assert async == before;
    } else {
      var key :| key in before && UnderSection(config, key);
      assert key !in async;
    }
  }

  /** A section without leaves, saved over a row of that section: one writer deletes the row, the other keeps it. */
  lemma WritersDifferExample(async: Table, sync: Table)
    requires var before, config := map["s.x" := Some(Leaf("1"))], map["s" := Dict(map[])];
             IsSaved(before, config, map[], async) && IsSavedSync(before, config, map[], sync)
    ensures "s.x" in sync && "s.x" !in async
  {
    var config: map<string, Tree> := map["s" := Dict(map[])];
    assert "s" in config && config["s"].Dict? && "s" + "." <= "s.x";
  }

  // ---------------------------------------------------------------- rebuilding

  datatype Row = Row(key: string, value: Option<Tree>)

  /** Bookkeeping rows never surface as settings. */
  const INTERNAL_KEY := "db.orphan_edges_swept"

  /** No leaf is saved under the bookkeeping key. */
  predicate NothingInternal(flat: map<string, Json>) {
    forall key | key in flat :: key != INTERNAL_KEY
  }

  predicate Usable(r: Row) {
    r.key != INTERNAL_KEY && r.value.Some?
  }

  function ApplyRow(entries: map<string, Tree>, r: Row): map<string, Tree> {
    if Usable(r) then Set(entries, SplitDots(r.key), r.value.value) else entries
  }

  function Nested(rows: seq<Row>): map<string, Tree> {
    if rows == [] then map[] else ApplyRow(Nested(rows[..|rows| - 1]), rows[|rows| - 1])
  }

  /** Replays the rows in order; nothing usable gives nothing. */
  method RowsToNested(rows: seq<Row>) returns (nested: Option<map<string, Tree>>)
    ensures nested == if Nested(rows) == map[] then None else Some(Nested(rows))
  {
    var entries: map<string, Tree> := map[];
    for i := 0 to |rows|
      invariant entries == Nested(rows[..i])
    {
      assert rows[..i + 1][..i] == rows[..i];
      if rows[i].key == INTERNAL_KEY {
        continue;
      }
      if rows[i].value.None? {
        continue;
      }
      entries := Set(entries, SplitDots(rows[i].key), rows[i].value.value);
    }
    assert rows[..|rows|] == rows;
    return if entries == map[] then None else Some(entries);
  }

  /** The rows without the bookkeeping rows and those whose text is not JSON. */
  function Kept(rows: seq<Row>): seq<Row> {
    if rows == [] then []
    else
      var front, last := Kept(rows[..|rows| - 1]), rows[|rows| - 1];
      if last.key == "db.orphan_edges_swept" || last.value.None? then front else front + [last]
  }

  /** Those rows might as well not be there, and all others count. */
  lemma {:induction false} SkippedRowsDoNotMatter(rows: seq<Row>)
    ensures Nested(rows) == Nested(Kept(rows)) && forall r | r in Kept(rows) :: Usable(r)
    decreases |rows|
  {
    if rows != [] {
      var front, last := rows[..|rows| - 1], rows[|rows| - 1];
      SkippedRowsDoNotMatter(front);
      assert (Kept(front) + [last])[..|Kept(front)|] == Kept(front);
    }
  }

  predicate Touches(r: Row, p: Path) {
    Usable(r) && Comparable(SplitDots(r.key), p)
  }

  /** What one row makes of a path it touches. */
  function ReadRow(r: Row, p: Path): Option<Json>
    requires Touches(r, p)
  {
    var q := SplitDots(r.key);
    if q <= p then LeafAt(r.value.value, p[|q|..]) else None
  }

  /** The last row that touches a path decides what stands there. */
  function LastWord(rows: seq<Row>, p: Path): Option<Json> {
    if rows == [] then None
    else
      var last := rows[|rows| - 1];
      if Touches(last, p) then ReadRow(last, p) else LastWord(rows[..|rows| - 1], p)
  }

  lemma {:induction false} NestedReads(rows: seq<Row>, p: Path)
    ensures LeafAt(Dict(Nested(rows)), p) == LastWord(rows, p)
  {
    if rows != [] {
      var front, last := rows[..|rows| - 1], rows[|rows| - 1];
      NestedReads(front, p);
      if Usable(last) {
        ReadAfterSet(Nested(front), SplitDots(last.key), last.value.value, p);
      }
    }
  }

  // ---------------------------------------------------------------- the order of replay

  predicate PrefixFree(rows: seq<Row>) {
    forall i, j | 0 <= i < j < |rows| && Usable(rows[i]) && Usable(rows[j]) :: !Comparable(SplitDots(rows[i].key), SplitDots(rows[j].key))
  }

  lemma ApplyCommutes(entries: map<string, Tree>, r: Row, s: Row)
    requires Usable(r) && Usable(s) ==> !Comparable(SplitDots(r.key), SplitDots(s.key))
    ensures ApplyRow(ApplyRow(entries, r), s) == ApplyRow(ApplyRow(entries, s), r)
  {
    if Usable(r) && Usable(s) {
      SetsCommute(entries, SplitDots(r.key), r.value.value, SplitDots(s.key), s.value.value);
    }
  }

  function Without(rows: seq<Row>, i: nat): seq<Row>
    requires i < |rows|
  {
    rows[..i] + rows[i + 1..]
  }

  lemma WithoutFront(rows: seq<Row>, i: nat)
    requires i < |rows| - 1
    ensures var n, less := |rows| - 1, Without(rows, i);
            |less| == n && less[n - 1] == rows[n] && less[..n - 1] == Without(rows[..n], i)
  {
    var n := |rows| - 1;
    assert Without(rows, i) == Without(rows[..n], i) + [rows[n]];
  }

  /** In a prefix-free list any row may as well come last. */
  lemma {:induction false} MoveToEnd(rows: seq<Row>, i: nat)
    requires PrefixFree(rows) && i < |rows|
    ensures Nested(rows) == ApplyRow(Nested(Without(rows, i)), rows[i])
    decreases |rows|
  {
    var n := |rows| - 1;
    var front, last := rows[..n], rows[n];
    if i == n {
      assert Without(rows, i) == front;
    } else {
      hide ApplyRow, Without;
      MoveToEnd(front, i);
      WithoutFront(rows, i);
      ApplyCommutes(Nested(Without(front, i)), rows[i], last);
    }
  }

  /** Settings whose keys are prefix-free are rebuilt alike from every order of the rows. */
  lemma {:induction false} OrderIsIrrelevant(rows: seq<Row>, others: seq<Row>)
    requires PrefixFree(others) && multiset(rows) == multiset(others)
    ensures Nested(rows) == Nested(others)
    decreases |rows|
  {
    if rows == [] {
      assert |multiset(others)| == 0;
    } else {
      var n := |rows| - 1;
      assert rows == rows[..n] + [rows[n]];
      assert rows[n] in multiset(others);
      var i :| 0 <= i < |others| && others[i] == rows[n];
      MoveToEnd(others, i);
      WithoutOne(others, i);
      assert multiset(rows) == multiset(rows[..n]) + multiset{rows[n]};
      Cancel(multiset(Without(others, i)), multiset(rows[..n]), rows[n]);
      OrderIsIrrelevant(rows[..n], Without(others, i));
    }
  }

  lemma Cancel(a: multiset<Row>, b: multiset<Row>, r: Row)
    requires a + multiset{r} == b + multiset{r}
    ensures a == b
  {
    assert a == (a + multiset{r}) - multiset{r};
    assert b == (b + multiset{r}) - multiset{r};
  }

  lemma WithoutOne(rows: seq<Row>, i: nat)
    requires i < |rows|
    ensures PrefixFree(rows) ==> PrefixFree(Without(rows, i))
    ensures multiset(rows) == multiset(Without(rows, i)) + multiset{rows[i]}
  {
    var less := Without(rows, i);
    forall j | 0 <= j < |less| ensures less[j] == rows[if j < i then j else j + 1] { }
    assert rows == rows[..i] + [rows[i]] + rows[i + 1..];
  }

  /** And only those: after a scalar whose key is a prefix of another row's, the last of the two wins. */
  lemma OrderMatters(rows: seq<Row>, r: Row, s: Row)
    requires Usable(r) && Usable(s) && r.value.value.Leaf? && SplitDots(r.key) < SplitDots(s.key)
    ensures Nested(rows + [r] + [s]) != Nested(rows + [s] + [r])
  {
    var p := SplitDots(r.key);
    var first, second := rows + [r] + [s], rows + [s] + [r];
    NestedReads(first, p);
    NestedReads(second, p);
    assert p[|p|..] == [];
    assert LastWord(first, p) == None && LastWord(second, p).Some?;
  }

  /** No two rows have one key, and every usable one holds a scalar. */
  predicate LeafRows(rows: seq<Row>) {
    && (forall i, j | 0 <= i < j < |rows| :: rows[i].key != rows[j].key)
    && (forall i | 0 <= i < |rows| && Usable(rows[i]) :: rows[i].value.value.Leaf?)
  }

  /** For rows of scalars the order of replay is irrelevant if and only if no key is a prefix of another. */
  lemma OrderIsIrrelevantExactly(rows: seq<Row>)
    requires LeafRows(rows)
    ensures PrefixFree(rows) <==> forall others | multiset(others) == multiset(rows) :: Nested(others) == Nested(rows)
  {
    hide LeafRows, Nested, PrefixFree;
    if PrefixFree(rows) {
      forall others | multiset(others) == multiset(rows) ensures Nested(others) == Nested(rows) {
        OrderIsIrrelevant(others, rows);
      }
    } else {
      var others, more := Clashing(rows);
    }
  }

  lemma Clashing(rows: seq<Row>) returns (others: seq<Row>, more: seq<Row>)
    requires LeafRows(rows) && !PrefixFree(rows)
    ensures multiset(others) == multiset(rows) == multiset(more) && Nested(others) != Nested(more)
  {
    hide Nested, SplitDots;
    var i, j :| 0 <= i < j < |rows| && Usable(rows[i]) && Usable(rows[j]) && Comparable(SplitDots(rows[i].key), SplitDots(rows[j].key));
    JoinSplit(rows[i].key);
    JoinSplit(rows[j].key);
    var rest := TwoLast(rows, i, j);
    var r, s := rows[i], rows[j];
    others, more := rest + [r] + [s], rest + [s] + [r];
    OneIsShorter(SplitDots(r.key), SplitDots(s.key));
    if SplitDots(r.key) < SplitDots(s.key) { OrderMatters(rest, r, s); } else { OrderMatters(rest, s, r); }
  }

  lemma OneIsShorter(p: Path, q: Path)
    requires Comparable(p, q) && p != q
    ensures p < q || q < p
  {
  }

  lemma TwoLast(rows: seq<Row>, i: nat, j: nat) returns (rest: seq<Row>)
    requires i < j < |rows|
    ensures multiset(rest + [rows[i]] + [rows[j]]) == multiset(rest + [rows[j]] + [rows[i]]) == multiset(rows)
  {
    rest := Without(Without(rows, j), i);
    WithoutOne(rows, j);
    WithoutOne(Without(rows, j), i);
  }

  // ---------------------------------------------------------------- the round trip

  /** The rows of a table in some order. */
  ghost predicate IsListing(rows: seq<Row>, table: Table) {
    && (forall i, j | 0 <= i < j < |rows| :: rows[i].key != rows[j].key)
    && (forall i | 0 <= i < |rows| :: rows[i].key in table && rows[i].value == table[rows[i].key])
    && (forall key | key in table :: HasRow(rows, key))
  }

  ghost predicate HasRow(rows: seq<Row>, key: string) {
    exists i :: 0 <= i < |rows| && rows[i].key == key
  }

  /** No key comes after one that extends it, as in a listing sorted by key. */
  predicate ShorterFirst(rows: seq<Row>) {
    forall i, j | 0 <= i < j < |rows| :: !(SplitDots(rows[j].key) < SplitDots(rows[i].key))
  }

  lemma {:induction false} LastWordNone(rows: seq<Row>, p: Path)
    requires forall i | 0 <= i < |rows| && Touches(rows[i], p) :: ReadRow(rows[i], p) == None
    ensures LastWord(rows, p) == None
  {
    if rows != [] { LastWordNone(rows[..|rows| - 1], p); }
  }

  lemma {:induction false} LastWordIs(rows: seq<Row>, p: Path, i: nat)
    requires i < |rows| && Touches(rows[i], p) && forall j | i < j < |rows| :: !Touches(rows[j], p)
    ensures LastWord(rows, p) == ReadRow(rows[i], p)
    decreases |rows|
  {
    if i < |rows| - 1 {
      assert rows[..|rows| - 1][i] == rows[i];
      LastWordIs(rows[..|rows| - 1], p, i);
    }
  }

  /** A key lies under a section exactly when its path begins with the section's name and goes on. */
  lemma SectionKeys(s: string, key: string)
    requires '.' !in s
    ensures s + "." <= key <==> SplitDots(key)[0] == s && |SplitDots(key)| > 1
    ensures key == s <==> SplitDots(key) == [s]
  {
    JoinSplit(key);
    SplitFirst(s, "");
    var p := SplitDots(key);
    if s + "." <= key {
      var rest := key[|s| + 1..];
      assert key == s + ("." + rest);
      SplitFirst(s, rest);
    }
    if p[0] == s && |p| > 1 {
      assert key == s + ("." + Join(p[1..]));
    }
  }

  /** The rows after a save: under a saved section exactly its leaves, each as saved. */
  lemma RowsUnderSection(before: Table, config: map<string, Tree>, flat: map<string, Json>, after: Table, s: string, key: string)
    requires Saves(before, config, flat, after)
    requires s in config && config[s].Dict? && SplitDots(key)[0] == s && |SplitDots(key)| > 1
    ensures key in after <==> LeafAt(Dict(config), SplitDots(key)).Some?
    ensures key in after ==> after[key] == Some(Leaf(LeafAt(Dict(config), SplitDots(key)).value))
  {
    SectionKeys(s, key);
    assert UnderSection(config, key);
  }

  /** No two leaves of a tree lie on one path. */
  lemma {:induction false} LeavesAreApart(t: Tree, p: Path, q: Path)
    requires LeafAt(t, p).Some? && LeafAt(t, q).Some? && Comparable(p, q)
    ensures p == q
    decreases |p|
  {
    if p != [] && q != [] {
      ComparableTails(p, q);
      LeavesAreApart(t.entries[p[0]], p[1..], q[1..]);
      assert p == [p[0]] + p[1..] && q == [q[0]] + q[1..];
    }
  }

  lemma LongerPath(q: Path, s: string)
    requires q != [] && q[0] == s && q != [s]
    ensures |q| > 1
  {
    OneStep(q);
  }

  lemma OneStep(q: Path)
    ensures |q| == 1 ==> q == [q[0]]
  {
  }

  /** The row holds a leaf of the tree, at its own path. */
  predicate IsLeafRow(r: Row, config: Tree) {
    LeafAt(config, SplitDots(r.key)).Some? && r.value == Some(Leaf(LeafAt(config, SplitDots(r.key)).value))
  }

  predicate InSection(r: Row, s: string) {
    Usable(r) && SplitDots(r.key)[0] == s && SplitDots(r.key) != [s]
  }

  predicate IsBare(r: Row, s: string) {
    Usable(r) && SplitDots(r.key) == [s]
  }

  ghost predicate HasLeafRow(rows: seq<Row>, p: Path) {
    exists i :: 0 <= i < |rows| && Usable(rows[i]) && SplitDots(rows[i].key) == p
  }

  /** Under the section's name, apart from its bare row, the rows are exactly the tree's leaves. */
  ghost predicate HoldsSection(rows: seq<Row>, config: Tree, s: string) {
    && (forall i, j | 0 <= i < j < |rows| :: rows[i].key != rows[j].key)
    && (forall i | 0 <= i < |rows| && InSection(rows[i], s) :: IsLeafRow(rows[i], config))
    && (forall p | p != [] && p[0] == s && LeafAt(config, p).Some? :: p != [s] && HasLeafRow(rows, p))
  }

  /** A save leaves the rows of a section that way, unless a leaf has the internal key. */
  lemma SavedHoldsSection(before: Table, config: map<string, Tree>, flat: map<string, Json>, after: Table, rows: seq<Row>, s: string)
    requires Saves(before, config, flat, after) && IsListing(rows, after) && NothingInternal(flat)
    requires s in config && config[s].Dict?
    ensures HoldsSection(rows, Dict(config), s)
  {
    forall i | 0 <= i < |rows| && InSection(rows[i], s) ensures IsLeafRow(rows[i], Dict(config)) {
      LongerPath(SplitDots(rows[i].key), s);
      RowsUnderSection(before, config, flat, after, s, rows[i].key);
    }
    forall p | p != [] && p[0] == s && LeafAt(Dict(config), p).Some? ensures p != [s] && HasLeafRow(rows, p) {
      DictEntry(config, s, p);
      LeafPathIsPlain(Dict(config), p);
      SplitJoin(p);
      assert Join(p) in flat && HasRow(rows, Join(p));
    }
  }

  /** A leaf's row makes of a path it touches what the tree makes of it. */
  lemma LeafRowReads(r: Row, config: Tree, p: Path)
    requires IsLeafRow(r, config) && Touches(r, p)
    ensures ReadRow(r, p) == LeafAt(config, p) && (LeafAt(config, p).Some? ==> SplitDots(r.key) == p)
  {
    var q := SplitDots(r.key);
    if LeafAt(config, p).Some? { LeavesAreApart(config, p, q); }
    if q < p { assert p[|q|..] != []; }
    if q == p { assert p[|q|..] == []; }
  }

  lemma TouchesSection(r: Row, s: string, p: Path)
    requires Touches(r, p) && p != [] && p[0] == s
    ensures IsBare(r, s) || InSection(r, s)
  {
    ComparableTails(SplitDots(r.key), p);
  }

  lemma {:induction false} LastTouching(rows: seq<Row>, p: Path) returns (k: nat)
    requires exists i :: 0 <= i < |rows| && Touches(rows[i], p)
    ensures k < |rows| && Touches(rows[k], p) && forall j | k < j < |rows| :: !Touches(rows[j], p)
  {
    hide Touches;
    k := |rows| - 1;
    if !Touches(rows[k], p) { k := LastTouching(rows[..k], p); }
  }

  /** When the last row to touch a path is one of the section's, the path reads as in the tree. */
  lemma SectionRowDecides(rows: seq<Row>, config: Tree, s: string, p: Path, k: nat)
    requires HoldsSection(rows, config, s) && k < |rows| && Touches(rows[k], p) && InSection(rows[k], s)
    requires forall j | k < j < |rows| :: !Touches(rows[j], p)
    ensures LastWord(rows, p) == LeafAt(config, p)
  {
    hide LastWord, LeafAt, ReadRow, Touches, InSection;
    LeafRowReads(rows[k], config, p);
    LastWordIs(rows, p, k);
  }

  /** Without a row of the bare name the rows read, everywhere under the name, as the tree does. */
  lemma SectionReads(rows: seq<Row>, config: Tree, s: string, p: Path)
    requires HoldsSection(rows, config, s) && (forall i | 0 <= i < |rows| :: !IsBare(rows[i], s)) && p != [] && p[0] == s
    ensures LastWord(rows, p) == LeafAt(config, p)
  {
    if exists i :: 0 <= i < |rows| && Touches(rows[i], p) {
      var k := LastTouching(rows, p);
      TouchesSection(rows[k], s, p);
      hide IsBare;
      SectionRowDecides(rows, config, s, p, k);
    } else {
      LastWordNone(rows, p);
      if LeafAt(config, p).Some? { var i := LeafIsTouched(rows, config, s, p, p); }
    }
  }

  lemma LeafIsTouched(rows: seq<Row>, config: Tree, s: string, leaf: Path, p: Path) returns (i: nat)
    requires HoldsSection(rows, config, s) && leaf != [] && leaf[0] == s && LeafAt(config, leaf).Some? && Comparable(leaf, p)
    ensures i < |rows| && Touches(rows[i], p) && SplitDots(rows[i].key) == leaf && leaf != [s]
  {
    i :| 0 <= i < |rows| && Usable(rows[i]) && SplitDots(rows[i].key) == leaf;
  }

  /** Some leaf of the section lies on the way to the path, at it, or below it. */
  ghost predicate Covered(config: Tree, s: string, p: Path) {
    exists leaf :: leaf != [] && leaf[0] == s && LeafAt(config, leaf).Some? && Comparable(leaf, p)
  }

  /** From a sorted listing with a row of the bare name: where a leaf covers the path the tree is read, elsewhere that row. */
  lemma ReadsOverBare(rows: seq<Row>, config: Tree, s: string, b: nat, p: Path)
    requires HoldsSection(rows, config, s) && ShorterFirst(rows) && b < |rows| && IsBare(rows[b], s) && p != [] && p[0] == s
    ensures LastWord(rows, p) == if Covered(config, s, p) then LeafAt(config, p) else LeafAt(rows[b].value.value, p[1..])
  {
    hide LastWord, LeafAt, HoldsSection, ShorterFirst;
    assert [s] <= p && Touches(rows[b], p);
    var k := LastTouching(rows, p);
    TouchesSection(rows[k], s, p);
    if InSection(rows[k], s) {
      SectionRowDecides(rows, config, s, p, k);
      SectionRowCovers(rows, config, s, p, k);
    } else {
      OneBareRow(rows, config, s, b, k);
      if Covered(config, s, p) {
        var leaf :| leaf != [] && leaf[0] == s && LeafAt(config, leaf).Some? && Comparable(leaf, p);
        var i := LeafIsTouched(rows, config, s, leaf, p);
        BareIsFirst(rows, s, b, i);
      }
      LastWordIs(rows, p, k);
    }
  }

  lemma SectionRowCovers(rows: seq<Row>, config: Tree, s: string, p: Path, k: nat)
    requires HoldsSection(rows, config, s) && k < |rows| && InSection(rows[k], s) && Touches(rows[k], p)
    ensures Covered(config, s, p)
  {
    assert IsLeafRow(rows[k], config);
  }

  lemma OneBareRow(rows: seq<Row>, config: Tree, s: string, b: nat, k: nat)
    requires HoldsSection(rows, config, s) && b < |rows| && k < |rows| && IsBare(rows[b], s) && IsBare(rows[k], s)
    ensures b == k
  {
    JoinSplit(rows[b].key);
    JoinSplit(rows[k].key);
  }

  lemma BareIsFirst(rows: seq<Row>, s: string, b: nat, i: nat)
    requires ShorterFirst(rows) && b < |rows| && i < |rows| && IsBare(rows[b], s)
    requires var q := SplitDots(rows[i].key); q[0] == s && q != [s]
    ensures b < i
  {
    assert [s] < SplitDots(rows[i].key);
  }

  /**
   * Whatever the order of the rows: reloading a saved section gives exactly its leaves, provided no
   * row carries the section's bare name and no leaf the internal key.
   */
  lemma SectionRoundTrip(before: Table, config: map<string, Tree>, flat: map<string, Json>, after: Table, rows: seq<Row>, s: string, p: Path)
    requires Saves(before, config, flat, after)
    requires IsListing(rows, after) && NothingInternal(flat)
    requires s in config && config[s].Dict? && s !in before && p != [] && p[0] == s
    ensures LeafAt(Dict(Nested(rows)), p) == LeafAt(Dict(config), p)
  {
    SavedHoldsSection(before, config, flat, after, rows, s);
    BareNameStaysOut(before, config, flat, after, s);
    forall i | 0 <= i < |rows| ensures !IsBare(rows[i], s) { SectionKeys(s, rows[i].key); }
    hide IsFlat, IsSaved, IsListing, HoldsSection;
    NestedReads(rows, p);
    SectionReads(rows, Dict(config), s, p);
  }

  lemma BareNameStaysOut(before: Table, config: map<string, Tree>, flat: map<string, Json>, after: Table, s: string)
    requires Saves(before, config, flat, after)
    requires s in config && config[s].Dict?
    ensures PlainName(s) && (s in after <==> s in before) && (s in after ==> after[s] == before[s])
  {
    assert PlainName(s);
    SectionKeys(s, s);
    DictEntry(config, s, [s]);
    forall t | t in config ensures !(t + "." <= s) { DotAfter(t, s); }
  }

  lemma DotAfter(t: string, s: string)
    ensures t + "." <= s ==> '.' in s
  {
    if t + "." <= s { assert s[|t|] == '.'; }
  }

  /** Every row under the name holds a leaf. */
  predicate LeavesUnder(rows: seq<Row>, s: string) {
    forall i | 0 <= i < |rows| && Usable(rows[i]) && SplitDots(rows[i].key)[0] == s :: rows[i].value.value.Leaf?
  }

  ghost predicate Tidy(entries: map<string, Tree>, s: string) {
    s in entries ==> NoEmptyDict(entries[s]) && entries[s] != Dict(map[])
  }

  lemma {:induction false} SetKeepsTidy(entries: map<string, Tree>, q: Path, json: Json)
    requires q != [] && NoEmptyDict(Dict(entries))
    ensures NoEmptyDict(Dict(Set(entries, q, Leaf(json)))) && Set(entries, q, Leaf(json)) != map[]
    decreases |q|
  {
    assert q[0] in Set(entries, q, Leaf(json));
    if |q| > 1 {
      SubtreeIsTidy(entries, q[0]);
      SetKeepsTidy(EntriesAt(entries, q[0]), q[1..], json);
    }
  }

  lemma SubtreeIsTidy(entries: map<string, Tree>, k: string)
    requires NoEmptyDict(Dict(entries))
    ensures NoEmptyDict(Dict(EntriesAt(entries, k)))
  {
    if k in entries && entries[k].Dict? { assert Dict(entries[k].entries) == entries[k]; }
  }

  lemma {:induction false} NestedIsTidy(rows: seq<Row>, s: string)
    requires LeavesUnder(rows, s)
    ensures Tidy(Nested(rows), s)
  {
    if rows != [] {
      var front, last := rows[..|rows| - 1], rows[|rows| - 1];
      NestedIsTidy(front, s);
      if Usable(last) && SplitDots(last.key)[0] == s {
        var entries, q := Nested(front), SplitDots(last.key);
        if |q| > 1 {
          if s in entries && entries[s].Dict? { assert Dict(entries[s].entries) == entries[s]; }
          SetKeepsTidy(EntriesAt(entries, s), q[1..], last.value.value.json);
        }
      }
    }
  }

  /** So a section without empty dictionaries is rebuilt exactly. */
  lemma SectionIsRebuilt(before: Table, config: map<string, Tree>, flat: map<string, Json>, after: Table, rows: seq<Row>, s: string)
    requires Saves(before, config, flat, after)
    requires IsListing(rows, after) && NothingInternal(flat)
    requires s in config && config[s].Dict? && s !in before && NoEmptyDict(config[s]) && config[s] != Dict(map[])
    ensures s in Nested(rows) && Nested(rows)[s] == config[s]
  {
    hide IsFlat, IsSaved, Nested, NoEmptyDict;
    var rest := SomeLeaf(config[s]);
    Descend(config, s, rest);
    SectionRoundTrip(before, config, flat, after, rows, s, [s] + rest);
    forall q ensures LeafAt(Nested(rows)[s], q) == LeafAt(config[s], q) {
      SectionRoundTrip(before, config, flat, after, rows, s, [s] + q);
      Descend(config, s, q);
      Descend(Nested(rows), s, q);
    }
    SavedHoldsSection(before, config, flat, after, rows, s);
    BareNameStaysOut(before, config, flat, after, s);
    forall i | 0 <= i < |rows| && Usable(rows[i]) && SplitDots(rows[i].key)[0] == s ensures rows[i].value.value.Leaf? {
      SectionKeys(s, rows[i].key);
    }
    NestedIsTidy(rows, s);
    LeavesDetermine(Nested(rows)[s], config[s]);
  }

  lemma Descend(entries: map<string, Tree>, s: string, q: Path)
    requires s in entries
    ensures LeafAt(Dict(entries), [s] + q) == LeafAt(entries[s], q)
  {
    assert ([s] + q)[1..] == q;
  }

  // ---------------------------------------------------------------- where names clash

  lemma {:induction false} LastWordNoneFrom(rows: seq<Row>, p: Path, i: nat)
    requires i < |rows| && Touches(rows[i], p)
    requires forall j | i <= j < |rows| && Touches(rows[j], p) :: ReadRow(rows[j], p) == None
    ensures LastWord(rows, p) == None
    decreases |rows|
  {
    if i < |rows| - 1 {
      assert rows[..|rows| - 1][i] == rows[i];
      if !Touches(rows[|rows| - 1], p) { LastWordNoneFrom(rows[..|rows| - 1], p, i); }
    }
  }

  /**
   * A scalar saved at the top level is read back, from a listing sorted by key, exactly when no row
   * is left under its name: the save deletes such rows only under sections.
   */
  lemma ScalarIsReadBack(before: Table, config: map<string, Tree>, flat: map<string, Json>, after: Table, rows: seq<Row>, k: string)
    requires Saves(before, config, flat, after)
    requires IsListing(rows, after) && ShorterFirst(rows) && k in config && config[k].Leaf? && k != INTERNAL_KEY
    ensures LeafAt(Dict(Nested(rows)), [k]) == Some(config[k].json) <==>
            forall i | 0 <= i < |rows| && Usable(rows[i]) :: !([k] < SplitDots(rows[i].key))
  {
    NestedReads(rows, [k]);
    var i := ScalarRow(before, config, flat, after, rows, k);
    ScalarWord(rows, i, k);
  }

  /** A scalar saved over a section that was stored before: the old row wins, in every sorted listing. */
  lemma ScalarIsLostExample(flat: map<string, Json>, after: Table, rows: seq<Row>)
    requires Saves(map["k.x" := Some(Leaf("1"))], map["k" := Leaf("2")], flat, after)
    requires IsListing(rows, after) && ShorterFirst(rows)
    ensures LeafAt(Dict(Nested(rows)), ["k"]) != Some("2")
  {
    var before: Table, config: map<string, Tree> := map["k.x" := Some(Leaf("1"))], map["k" := Leaf("2")];
    SplitFirst("k", "x");
    SplitFirst("x", "");
    assert "k" + ("." + "x") == "k.x";
    LeafEntry(config, "k", ["k", "x"]);
    assert "k.x" in after && HasRow(rows, "k.x");
    hide Saves, IsListing, ShorterFirst, Nested, SplitDots, LeafAt;
    ScalarIsReadBack(before, config, flat, after, rows, "k");
  }

  lemma ScalarWord(rows: seq<Row>, i: nat, k: string)
    requires i < |rows| && SplitDots(rows[i].key) == [k] && Touches(rows[i], [k]) && rows[i].value.value.Leaf? && ShorterFirst(rows)
    requires forall m | 0 <= m < |rows| && m != i :: rows[m].key != rows[i].key
    ensures LastWord(rows, [k]) == Some(rows[i].value.value.json) <==>
            forall j | 0 <= j < |rows| && Usable(rows[j]) :: !([k] < SplitDots(rows[j].key))
  {
    hide LastWord;
    if j :| 0 <= j < |rows| && Usable(rows[j]) && [k] < SplitDots(rows[j].key) {
      forall m | j <= m < |rows| && Touches(rows[m], [k]) ensures ReadRow(rows[m], [k]) == None { TouchTop(rows, i, m, k); }
      LastWordNoneFrom(rows, [k], j);
    } else {
      forall j | i < j < |rows| ensures !Touches(rows[j], [k]) { TouchTop(rows, i, j, k); }
      assert [k][1..] == [];
      LastWordIs(rows, [k], i);
    }
  }

  lemma ScalarRow(before: Table, config: map<string, Tree>, flat: map<string, Json>, after: Table, rows: seq<Row>, k: string)
    returns (i: nat)
    requires Saves(before, config, flat, after)
    requires IsListing(rows, after) && k in config && config[k].Leaf? && k != INTERNAL_KEY
    ensures i < |rows| && rows[i] == Row(k, Some(Leaf(config[k].json))) && SplitDots(k) == [k] && Touches(rows[i], [k])
  {
    assert PlainName(k);
    SplitFirst(k, "");
    LeafEntry(config, k, [k]);
    assert k in flat && HasRow(rows, k);
    i :| 0 <= i < |rows| && rows[i].key == k;
  }

  /** Besides its own row, only rows below a name touch it. */
  lemma TouchTop(rows: seq<Row>, i: nat, j: nat, k: string)
    requires i < |rows| && j < |rows| && i != j && rows[i].key != rows[j].key && SplitDots(rows[i].key) == [k]
    ensures Touches(rows[j], [k]) ==> [k] < SplitDots(rows[j].key) && ReadRow(rows[j], [k]) == None
  {
    JoinSplit(rows[i].key);
    JoinSplit(rows[j].key);
    var q := SplitDots(rows[j].key);
    if Touches(rows[j], [k]) {
      ComparableTails(q, [k]);
      LongerPath(q, k);
    }
  }

  /**
   * A row that carries a section's bare name survives the save. In a listing sorted by key it comes
   * before the section's rows, so it is read exactly where no leaf of the section covers the path.
   */
  lemma SectionOverBareRow(before: Table, config: map<string, Tree>, flat: map<string, Json>, after: Table, rows: seq<Row>,
                           s: string, p: Path)
    requires Saves(before, config, flat, after)
    requires IsListing(rows, after) && ShorterFirst(rows) && NothingInternal(flat)
    requires s in config && config[s].Dict? && p != [] && p[0] == s && s in before && before[s].Some?
    ensures LeafAt(Dict(Nested(rows)), p)
            == if Covered(Dict(config), s, p) then LeafAt(Dict(config), p) else LeafAt(before[s].value, p[1..])
  {
    SavedHoldsSection(before, config, flat, after, rows, s);
    var b := BareRow(before, config, flat, after, rows, s);
    hide IsFlat, IsSaved, IsListing, HoldsSection;
    NestedReads(rows, p);
    ReadsOverBare(rows, Dict(config), s, b, p);
  }

  lemma BareRow(before: Table, config: map<string, Tree>, flat: map<string, Json>, after: Table, rows: seq<Row>, s: string)
    returns (b: nat)
    requires Saves(before, config, flat, after) && IsListing(rows, after)
    requires s in config && config[s].Dict? && s in before && before[s].Some?
    ensures b < |rows| && IsBare(rows[b], s) && rows[b].value == before[s]
  {
    hide SplitDots, LeafAt, IsFlat, IsSaved;
    BareNameStaysOut(before, config, flat, after, s);
    hide Saves;
    SplitFirst(s, "");
    assert HasRow(rows, s);
    b :| 0 <= b < |rows| && rows[b].key == s;
    InternalKeyIsDotted();
  }

  lemma InternalKeyIsDotted()
    ensures '.' in INTERNAL_KEY
  {
    assert INTERNAL_KEY[2] == '.';
  }

  /** So the section reads back exactly if and only if its leaves cover every leaf of the bare row. */
  lemma SectionBeatsBareRowExactly(before: Table, config: map<string, Tree>, flat: map<string, Json>, after: Table,
                                   rows: seq<Row>, s: string)
    requires Saves(before, config, flat, after)
    requires IsListing(rows, after) && ShorterFirst(rows) && NothingInternal(flat)
    requires s in config && config[s].Dict? && s in before && before[s].Some?
    ensures (forall p | p != [] && p[0] == s :: LeafAt(Dict(Nested(rows)), p) == LeafAt(Dict(config), p))
            <==> forall q | LeafAt(before[s].value, q).Some? :: Covered(Dict(config), s, [s] + q)
  {
    hide Saves, IsListing, ShorterFirst, NothingInternal, Nested, LeafAt;
    if forall q | LeafAt(before[s].value, q).Some? :: Covered(Dict(config), s, [s] + q) {
      forall p | p != [] && p[0] == s ensures LeafAt(Dict(Nested(rows)), p) == LeafAt(Dict(config), p) {
        SectionOverBareRow(before, config, flat, after, rows, s, p);
        assert [s] + p[1..] == p;
        LeafIsCovered(Dict(config), s, p);
      }
    } else {
      var q :| LeafAt(before[s].value, q).Some? && !Covered(Dict(config), s, [s] + q);
      var p := [s] + q;
      SectionOverBareRow(before, config, flat, after, rows, s, p);
      assert p[1..] == q;
      LeafIsCovered(Dict(config), s, p);
    }
  }

  lemma LeafIsCovered(config: Tree, s: string, p: Path)
    requires p != [] && p[0] == s
    ensures LeafAt(config, p).Some? ==> Covered(config, s, p)
  {
    if LeafAt(config, p).Some? { assert Comparable(p, p); }
  }

  /** In particular a section with at least one leaf reads back exactly over a scalar of its bare name. */
  lemma SectionBeatsBareRow(before: Table, config: map<string, Tree>, flat: map<string, Json>, after: Table, rows: seq<Row>,
                            s: string, p: Path, leaf: Path)
    requires Saves(before, config, flat, after)
    requires IsListing(rows, after) && ShorterFirst(rows) && NothingInternal(flat)
    requires s in config && config[s].Dict? && p != [] && p[0] == s
    requires s in before && before[s].Some? && before[s].value.Leaf?
    requires leaf != [] && leaf[0] == s && LeafAt(Dict(config), leaf).Some?
    ensures LeafAt(Dict(Nested(rows)), p) == LeafAt(Dict(config), p)
  {
    forall q | LeafAt(before[s].value, q).Some? ensures Covered(Dict(config), s, [s] + q) {
      assert q == [] && [s] + q == [s] <= leaf;
    }
    hide Saves, IsListing, ShorterFirst, NothingInternal, Nested, LeafAt;
    SectionBeatsBareRowExactly(before, config, flat, after, rows, s);
  }

  /** An object stored under the bare name keeps what the section does not cover. */
  lemma StaleObjectExample(flat: map<string, Json>, after: Table, rows: seq<Row>)
    requires Saves(map["s" := Some(Dict(map["x" := Leaf("1")]))], map["s" := Dict(map["y" := Leaf("2")])], flat, after)
    requires IsListing(rows, after) && ShorterFirst(rows) && NothingInternal(flat)
    ensures LeafAt(Dict(Nested(rows)), ["s", "x"]) == Some("1")
  {
    var before: Table, config: map<string, Tree> := map["s" := Some(Dict(map["x" := Leaf("1")]))], map["s" := Dict(map["y" := Leaf("2")])];
    forall leaf | leaf != [] && leaf[0] == "s" && LeafAt(Dict(config), leaf).Some? ensures !Comparable(leaf, ["s", "x"]) {
      DictEntry(config, "s", leaf);
      LeafEntry(map["y" := Leaf("2")], "y", leaf[1..]);
      assert leaf[1..] == ["y"];
    }
    LeafEntry(map["x" := Leaf("1")], "x", ["x"]);
    hide Saves, IsListing, ShorterFirst, NothingInternal, Nested, LeafAt;
    SectionOverBareRow(before, config, flat, after, rows, "s", ["s", "x"]);
    assert ["s", "x"][1..] == ["x"];
  }

  // ---------------------------------------------------------------- outside the saved sections

  /** A save leaves every row alone whose first name is not one of the configuration's. */
  lemma OutsideRowsStay(before: Table, config: map<string, Tree>, flat: map<string, Json>, after: Table, key: string)
    requires Saves(before, config, flat, after)
    requires SplitDots(key)[0] !in config
    ensures key in after <==> key in before
    ensures key in after ==> after[key] == before[key]
  {
    forall s | s in config ensures !(s + "." <= key) {
      assert PlainName(s);
      SectionKeys(s, key);
    }
  }

  /** The rows whose first name is `c`, in their order. */
  function Own(rows: seq<Row>, c: string): seq<Row> {
    if rows == [] then []
    else
      var front, last := Own(rows[..|rows| - 1], c), rows[|rows| - 1];
      if SplitDots(last.key)[0] == c then front + [last] else front
  }

  lemma {:induction false} LastWordIsOwn(rows: seq<Row>, p: Path)
    requires p != []
    ensures LastWord(rows, p) == LastWord(Own(rows, p[0]), p)
  {
    if rows != [] {
      var front, last := rows[..|rows| - 1], rows[|rows| - 1];
      LastWordIsOwn(front, p);
      ComparableTails(SplitDots(last.key), p);
      assert (Own(front, p[0]) + [last])[..|Own(front, p[0])|] == Own(front, p[0]);
    }
  }

  /** What is read under a name depends only on the rows of that name. */
  lemma OnlyOwnRowsMatter(rows: seq<Row>, others: seq<Row>, p: Path)
    requires p != [] && Own(rows, p[0]) == Own(others, p[0])
    ensures LeafAt(Dict(Nested(rows)), p) == LeafAt(Dict(Nested(others)), p)
  {
    NestedReads(rows, p);
    NestedReads(others, p);
    LastWordIsOwn(rows, p);
    LastWordIsOwn(others, p);
  }
}
