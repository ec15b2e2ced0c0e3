/** Rendering of `{{ name }}` placeholders and its inverse (sova/commands/templates.py). */
module Templates {
  import opened Basics
  import opened StringOps

  /** The word characters of the regular expression: not spaces, not braces, not NUL. */
  ghost predicate IsWordClass(word: char -> bool) {
    !word('{') && !word('}') && !word('\0') && forall c | IsSpace(c) :: !word(c)
  }

  predicate AllOf(p: char -> bool, s: string) {
    forall i | 0 <= i < |s| :: p(s[i])
  }

  // ---------------------------------------------------------------- finding a placeholder

  /** Where the run of characters satisfying `p` that starts at `i` ends. */
  function End(p: char -> bool, s: string, i: nat): (j: nat)
    requires i <= |s|
    ensures i <= j <= |s|
    decreases |s| - i
  {
    if i < |s| && p(s[i]) then End(p, s, i + 1) else i
  }

  lemma {:induction false} EndIs(p: char -> bool, s: string, i: nat, j: nat)
    requires i <= j <= |s| && (forall k | i <= k < j :: p(s[k])) && (j < |s| ==> !p(s[j]))
    ensures End(p, s, i) == j
    decreases j - i
  {
    if i < j { EndIs(p, s, i + 1, j); }
  }

  /** Appended text that does not continue the run leaves its end in place. */
  lemma {:induction false} EndStays(p: char -> bool, x: string, y: string, i: nat)
    requires i <= |x| && (End(p, x, i) < |x| || y == "" || !p(y[0]))
    ensures End(p, x + y, i) == End(p, x, i)
    decreases |x| - i
  {
    if i < |x| && p(x[i]) { EndStays(p, x, y, i + 1); }
  }

  datatype Placeholder = Placeholder(key: string, length: nat)

  predicate Opens(s: string) {
    |s| >= 2 && s[0] == '{' && s[1] == '{'
  }

  predicate ClosesAt(s: string, c: nat) {
    c + 2 <= |s| && s[c] == '}' && s[c + 1] == '}'
  }

  /** The placeholder that starts the text, if one does: two braces, spaces, a word, spaces, two braces. */
  function MatchAt(word: char -> bool, s: string): (m: Option<Placeholder>)
    ensures m.Some? ==> 0 < m.value.length <= |s|
  {
    if !Opens(s) then None
    else
      var a := End(IsSpace, s, 2);
      var b := End(word, s, a);
      var c := End(IsSpace, s, b);
      if a < b && ClosesAt(s, c) then Some(Placeholder(s[a..b], c + 2)) else None
  }

  /** Two opening braces, spaces up to a, a word up to b, spaces up to c, two closing braces. */
  predicate HasShape(word: char -> bool, s: string, a: nat, b: nat, c: nat) {
    && 2 <= a < b <= c && c + 2 <= |s|
    && s[0] == '{' && s[1] == '{' && s[c] == '}' && s[c + 1] == '}'
    && AllOf(IsSpace, s[2..a]) && AllOf(word, s[a..b]) && AllOf(IsSpace, s[b..c])
  }

  /** Every text of that shape is a match, whatever follows: the expression matches in one way only. */
  lemma MatchesItsShape(word: char -> bool, s: string, a: nat, b: nat, c: nat)
    requires IsWordClass(word) && HasShape(word, s, a, b, c)
    ensures MatchAt(word, s) == Some(Placeholder(s[a..b], c + 2))
  {
    forall k | 2 <= k < a ensures IsSpace(s[k]) { assert s[k] == s[2..a][k - 2]; }
    forall k | a <= k < b ensures word(s[k]) { assert s[k] == s[a..b][k - a]; }
    forall k | b <= k < c ensures IsSpace(s[k]) { assert s[k] == s[b..c][k - b]; }
    EndIs(IsSpace, s, 2, a);
    EndIs(word, s, a, b);
    EndIs(IsSpace, s, b, c);
  }

  /** And nothing else is. */
  lemma MatchesExactly(word: char -> bool, s: string, m: Placeholder)
    requires IsWordClass(word)
    ensures MatchAt(word, s) == Some(m) <==>
            exists a: nat, b: nat, c: nat :: HasShape(word, s, a, b, c) && m == Placeholder(s[a..b], c + 2)
  {
    if a: nat, b: nat, c: nat :| HasShape(word, s, a, b, c) && m == Placeholder(s[a..b], c + 2) { MatchesItsShape(word, s, a, b, c); }
    if MatchAt(word, s) == Some(m) {
      var a := End(IsSpace, s, 2);
      var b := End(word, s, a);
      var c := End(IsSpace, s, b);
      RunHolds(IsSpace, s, 2);
      RunHolds(word, s, a);
      RunHolds(IsSpace, s, b);
      assert HasShape(word, s, a, b, c);
    }
  }

  /** A match stays a match when text is appended. */
  lemma MatchExtends(word: char -> bool, x: string, y: string)
    requires MatchAt(word, x).Some?
    ensures MatchAt(word, x + y) == MatchAt(word, x)
  {
    hide IsSpace, End;
    var a := End(IsSpace, x, 2);
    var b := End(word, x, a);
    EndStays(IsSpace, x, y, 2);
    EndStays(word, x, y, a);
    EndStays(IsSpace, x, y, b);
    SliceStays(x, y, a, b);
  }

  lemma SliceStays(x: string, y: string, i: nat, j: nat)
    requires i <= j <= |x|
    ensures (x + y)[i..j] == x[i..j]
  {
    assert (x + y)[..|x|] == x;
  }

  /** No match that starts in front of two opening braces reaches into them. */
  lemma NothingStraddles(word: char -> bool, x: string, y: string)
    requires IsWordClass(word) && x != "" && (y == "" || Opens(y))
    ensures MatchAt(word, x + y) == MatchAt(word, x)
  {
    if Opens(x) {
      StopsBefore(word, x, y);
    } else if |x| == 1 && x[0] == '{' && y != "" {
      BracesAreNoWord(word, x + y);
    }
  }

  lemma StopsBefore(word: char -> bool, x: string, y: string)
    requires IsWordClass(word) && Opens(x) && (y == "" || y[0] == '{')
    ensures MatchAt(word, x + y) == MatchAt(word, x)
  {
    assert y == "" || (!IsSpace(y[0]) && !word(y[0]));
    hide IsSpace, IsWordClass, End;
    var a := End(IsSpace, x, 2);
    var b := End(word, x, a);
    var c := End(IsSpace, x, b);
    EndStays(IsSpace, x, y, 2);
    EndStays(word, x, y, a);
    EndStays(IsSpace, x, y, b);
    SliceStays(x, y, a, b);
    assert ClosesAt(x + y, c) <==> ClosesAt(x, c);
  }

  lemma BracesAreNoWord(word: char -> bool, s: string)
    requires IsWordClass(word) && |s| >= 3 && s[2] == '{'
    ensures MatchAt(word, s) == None
  {
    EndIs(IsSpace, s, 2, 2);
    EndIs(word, s, 2, 2);
  }

  // ---------------------------------------------------------------- rendering

  /** Known placeholders become their values; everything else stays. */
  function Render(word: char -> bool, s: string, variables: map<string, string>): string {
    if s == "" then ""
    else
      match MatchAt(word, s)
      case Some(m) =>
        (if m.key in variables then variables[m.key] else s[..m.length]) + Render(word, s[m.length..], variables)
      case None => [s[0]] + Render(word, s[1..], variables)
  }

  function RenderCommand(word: char -> bool, content: string, variables: map<string, string>): string {
    if |variables| == 0 then content else Render(word, content, variables)
  }

  /** No placeholder of a known key anywhere. */
  ghost predicate Clean(word: char -> bool, s: string, variables: map<string, string>) {
    forall i | 0 <= i < |s| && MatchAt(word, s[i..]).Some? :: MatchAt(word, s[i..]).value.key !in variables
  }

  lemma CleanPart(word: char -> bool, s: string, variables: map<string, string>, i: nat, j: nat)
    requires Clean(word, s, variables) && i <= j <= |s|
    ensures Clean(word, s[i..j], variables)
  {
    var part := s[i..j];
    forall k | 0 <= k < |part| && MatchAt(word, part[k..]).Some? ensures MatchAt(word, part[k..]).value.key !in variables {
      assert s[i + k..] == part[k..] + s[j..];
      MatchExtends(word, part[k..], s[j..]);
    }
  }

  /** How far one step of the scan goes. */
  function Step(word: char -> bool, s: string): (n: nat)
    requires s != ""
    ensures 0 < n <= |s|
  {
    match MatchAt(word, s) case Some(m) => m.length case None => 1
  }

  /** A step over anything but a known placeholder copies it. */
  lemma RenderCopies(word: char -> bool, s: string, variables: map<string, string>)
    requires s != "" && (MatchAt(word, s).Some? ==> MatchAt(word, s).value.key !in variables)
    ensures var n := Step(word, s); Render(word, s, variables) == s[..n] + Render(word, s[n..], variables)
  {
  }

  /** Clean text in front of a placeholder, or at the end, is kept verbatim. */
  lemma {:induction false} RenderKeeps(word: char -> bool, x: string, y: string, variables: map<string, string>)
    requires IsWordClass(word) && Clean(word, x, variables) && (y == "" || Opens(y))
    ensures Render(word, x + y, variables) == x + Render(word, y, variables)
    decreases |x|
  {
    hide Render, MatchAt;
    if x == "" {
      assert x + y == y;
    } else {
      var n := Step(word, x);
      NothingStraddles(word, x, y);
      assert x[0..] == x;
      RenderCopies(word, x + y, variables);
      assert (x + y)[n..] == x[n..] + y && (x + y)[..n] == x[..n];
      hide Clean, Step;
      CleanRest(word, x, variables, n);
      RenderKeeps(word, x[n..], y, variables);
      Rejoin(x, n, Render(word, y, variables));
    }
  }

  lemma CleanRest(word: char -> bool, s: string, variables: map<string, string>, n: nat)
    requires Clean(word, s, variables) && n <= |s|
    ensures Clean(word, s[n..], variables)
  {
    CleanPart(word, s, variables, n, |s|);
    assert s[n..|s|] == s[n..];
  }

  lemma Rejoin(x: string, n: nat, y: string)
    requires n <= |x|
    ensures x[..n] + (x[n..] + y) == x + y
  {
  }

  // ---------------------------------------------------------------- marked texts

  /** Plain text with marks in between, each mark standing for a variable. */
  datatype Marked = Last(plain: string) | Then(plain: string, key: string, rest: Marked)

  function ValueOf(variables: map<string, string>, key: string): string {
    if key in variables then variables[key] else ""
  }

  /** The text with each mark spelled as its value. */
  function Expanded(t: Marked, variables: map<string, string>): string {
    match t
    case Last(plain) => plain
    case Then(plain, key, rest) => plain + (ValueOf(variables, key) + Expanded(rest, variables))
  }

  function SpelledKey(key: string): string {
    "{{" + " " + key + " " + "}}"
  }

  /** The text with each mark spelled as a placeholder. */
  function Spelled(t: Marked): string {
    match t
    case Last(plain) => plain
    case Then(plain, key, rest) => plain + (SpelledKey(key) + Spelled(rest))
  }

  /** Every mark stands for a variable. */
  predicate Known(t: Marked, variables: map<string, string>) {
    t.Then? ==> t.key in variables && Known(t.rest, variables)
  }

  /** The plain parts hold no known placeholder and no NUL, and the marks are known words. */
  ghost predicate Sound(word: char -> bool, t: Marked, variables: map<string, string>) {
    && Clean(word, t.plain, variables) && '\0' !in t.plain
    && (t.Then? ==> t.key in variables && t.key != "" && AllOf(word, t.key) && Sound(word, t.rest, variables))
  }

  /** Rendering the spelled text gives the expanded one. */
  lemma {:induction false} RenderExpands(word: char -> bool, t: Marked, variables: map<string, string>)
    requires IsWordClass(word) && Sound(word, t, variables)
    ensures Render(word, Spelled(t), variables) == Expanded(t, variables)
  {
    match t
    case Last(plain) =>
      assert plain + "" == plain;
      RenderKeeps(word, plain, "", variables);
    case Then(plain, key, rest) =>
      RenderKeeps(word, plain, SpelledKey(key) + Spelled(rest), variables);
      RenderKnown(word, key, Spelled(rest), variables);
      RenderExpands(word, rest, variables);
  }

  /** A known placeholder is replaced by its value. */
  lemma RenderKnown(word: char -> bool, key: string, rest: string, variables: map<string, string>)
    requires IsWordClass(word) && key in variables && key != "" && AllOf(word, key)
    ensures Opens(SpelledKey(key) + rest)
    ensures Render(word, SpelledKey(key) + rest, variables) == variables[key] + Render(word, rest, variables)
  {
    var s := SpelledKey(key) + rest;
    var b := 3 + |key|;
    assert s[2..3] == " " && s[3..b] == key && s[b..b + 1] == " ";
    MatchesItsShape(word, s, 3, b, b + 1);
    assert s[b + 3..] == rest;
  }

  // ---------------------------------------------------------------- marking the values

  /** Marks every leftmost, non-overlapping occurrence of the value. */
  function Mark(s: string, key: string, value: string): Marked
    requires value != ""
  {
    match Find(s, value)
    case None => Last(s)
    case Some(i) => Then(s[..i], key, Mark(s[i + |value|..], key, value))
  }

  function Append(t: Marked, key: string, rest: Marked): Marked {
    match t
    case Last(plain) => Then(plain, key, rest)
    case Then(plain, k, more) => Then(plain, k, Append(more, key, rest))
  }

  /** One pass: only plain parts are touched. */
  function Pass(t: Marked, key: string, value: string): Marked
    requires value != ""
  {
    match t
    case Last(plain) => Mark(plain, key, value)
    case Then(plain, k, rest) => Append(Mark(plain, key, value), k, Pass(rest, key, value))
  }

  type Variable = (string, string)

  /** A pass per variable, in the given order; empty values are skipped. */
  function Passes(t: Marked, variables: seq<Variable>): Marked
    decreases |variables|
  {
    if variables == [] then t
    else
      var (key, value) := variables[0];
      Passes(if value == "" then t else Pass(t, key, value), variables[1..])
  }

  lemma {:induction false} MarkExpands(s: string, key: string, value: string, variables: map<string, string>)
    requires value != "" && key in variables && variables[key] == value
    ensures Known(Mark(s, key, value), variables) && Expanded(Mark(s, key, value), variables) == s
    decreases |s|
  {
    hide Find;
    match Find(s, value)
    case None =>
    case Some(i) =>
      MarkExpands(s[i + |value|..], key, value, variables);
      assert s == s[..i] + (value + s[i + |value|..]);
  }

  lemma {:induction false} MarkIsSound(word: char -> bool, s: string, key: string, value: string, variables: map<string, string>)
    requires value != "" && key in variables && key != "" && AllOf(word, key)
    requires Clean(word, s, variables) && '\0' !in s
    ensures Sound(word, Mark(s, key, value), variables)
    decreases |s|
  {
    hide MatchAt, Clean, Find;
    match Find(s, value)
    case None =>
    case Some(i) =>
      CleanPart(word, s, variables, 0, i);
      assert s[0..i] == s[..i];
      CleanRest(word, s, variables, i + |value|);
      MarkIsSound(word, s[i + |value|..], key, value, variables);
  }

  lemma {:induction false} AppendExpands(t: Marked, key: string, rest: Marked, variables: map<string, string>)
    requires Known(t, variables) && Known(rest, variables) && key in variables
    ensures Known(Append(t, key, rest), variables)
    ensures Expanded(Append(t, key, rest), variables) == Expanded(t, variables) + (variables[key] + Expanded(rest, variables))
  {
    if t.Then? {
      AppendExpands(t.rest, key, rest, variables);
      AppendAssociates(t.plain, ValueOf(variables, t.key), Expanded(t.rest, variables), variables[key] + Expanded(rest, variables));
    }
  }

  lemma AppendAssociates(a: string, b: string, c: string, d: string)
    ensures a + (b + (c + d)) == a + (b + c) + d
  {
  }

  lemma {:induction false} PassExpands(t: Marked, key: string, value: string, variables: map<string, string>)
    requires value != "" && key in variables && variables[key] == value && Known(t, variables)
    ensures Known(Pass(t, key, value), variables) && Expanded(Pass(t, key, value), variables) == Expanded(t, variables)
  {
    MarkExpands(t.plain, key, value, variables);
    if t.Then? {
      PassExpands(t.rest, key, value, variables);
      AppendExpands(Mark(t.plain, key, value), t.key, Pass(t.rest, key, value), variables);
    }
  }

  /** Whatever the order of the passes, nothing of the text is lost. */
  lemma {:induction false} PassesExpand(t: Marked, passes: seq<Variable>, variables: map<string, string>)
    requires Known(t, variables) && forall v | v in passes :: v.0 in variables && variables[v.0] == v.1
    ensures Known(Passes(t, passes), variables) && Expanded(Passes(t, passes), variables) == Expanded(t, variables)
    decreases |passes|
  {
    if passes != [] {
      assert passes[0] in passes;
      var (key, value) := passes[0];
      if value != "" { PassExpands(t, key, value, variables); }
      PassesExpand(if value == "" then t else Pass(t, key, value), passes[1..], variables);
    }
  }

  lemma {:induction false} AppendKeeps(word: char -> bool, t: Marked, key: string, rest: Marked, variables: map<string, string>)
    requires Sound(word, t, variables) && Sound(word, rest, variables) && key in variables && key != "" && AllOf(word, key)
    ensures Sound(word, Append(t, key, rest), variables)
  {
    if t.Then? { AppendKeeps(word, t.rest, key, rest, variables); }
  }

  lemma {:induction false} PassKeeps(word: char -> bool, t: Marked, key: string, value: string, variables: map<string, string>)
    requires value != "" && key in variables && key != "" && AllOf(word, key) && Sound(word, t, variables)
    ensures Sound(word, Pass(t, key, value), variables)
  {
    MarkIsSound(word, t.plain, key, value, variables);
    if t.Then? {
      PassKeeps(word, t.rest, key, value, variables);
      AppendKeeps(word, Mark(t.plain, key, value), t.key, Pass(t.rest, key, value), variables);
    }
  }

  /** The variables of a dictionary: keys are words, none twice. */
  ghost predicate IsDictionary(word: char -> bool, variables: seq<Variable>) {
    && (forall i, j | 0 <= i < j < |variables| :: variables[i].0 != variables[j].0)
    && (forall i | 0 <= i < |variables| :: variables[i].0 != "" && AllOf(word, variables[i].0))
  }

  function ToMap(variables: seq<Variable>): map<string, string> {
    map v | v in variables :: v.0 := ValueIn(variables, v.0)
  }

  function ValueIn(variables: seq<Variable>, key: string): string {
    if variables == [] then "" else if variables[0].0 == key then variables[0].1 else ValueIn(variables[1..], key)
  }

  lemma {:induction false} ValueInIs(variables: seq<Variable>, i: nat)
    requires i < |variables| && forall j | 0 <= j < i :: variables[j].0 != variables[i].0
    ensures ValueIn(variables, variables[i].0) == variables[i].1
  {
    if i > 0 { ValueInIs(variables[1..], i - 1); }
  }

  lemma {:induction false} PassesKeep(word: char -> bool, t: Marked, passes: seq<Variable>, variables: map<string, string>)
    requires forall v | v in passes :: v.0 in variables && v.0 != "" && AllOf(word, v.0)
    requires Sound(word, t, variables)
    ensures Sound(word, Passes(t, passes), variables)
    decreases |passes|
  {
    if passes != [] {
      assert passes[0] in passes;
      var (key, value) := passes[0];
      if value != "" { PassKeeps(word, t, key, value, variables); }
      PassesKeep(word, if value == "" then t else Pass(t, key, value), passes[1..], variables);
    }
  }

  // ---------------------------------------------------------------- the sentinel form

  const SENTINEL_L: string := "\0\U{1}"
  const SENTINEL_R: string := "\0\U{2}"

  function Sentinel(key: string): string {
    SENTINEL_L + (Padded(key) + SENTINEL_R)
  }

  function Padded(key: string): string {
    " " + key + " "
  }

  function Interleave(parts: seq<string>, mark: string): seq<string>
    requires parts != []
  {
    if |parts| == 1 then [parts[0]] else [parts[0], mark] + Interleave(parts[1..], mark)
  }

  /** A segment that holds a sentinel is passed through; any other is split at the value. */
  function ProtectSegment(segment: string, key: string, value: string): seq<string>
    requires value != ""
  {
    if Contains(segment, SENTINEL_L) then [segment] else Interleave(SplitOn(segment, value), Sentinel(key))
  }

  function ProtectAll(segments: seq<string>, key: string, value: string): seq<string>
    requires value != ""
  {
    if segments == [] then [] else ProtectSegment(segments[0], key, value) + ProtectAll(segments[1..], key, value)
  }

  function ProtectWith(segments: seq<string>, variables: seq<Variable>): seq<string>
    decreases |variables|
  {
    if variables == [] then segments
    else
      var (key, value) := variables[0];
      ProtectWith(if value == "" then segments else ProtectAll(segments, key, value), variables[1..])
  }

  predicate LongestFirst(variables: seq<Variable>) {
    forall i | 0 < i < |variables| :: |variables[i - 1].1| >= |variables[i].1|
  }

  /** Longer values first; equal lengths keep their order. */
  function SortByLength(variables: seq<Variable>): (sorted: seq<Variable>)
    ensures multiset(sorted) == multiset(variables)
  {
    if variables == [] then []
    else
      var n := |variables| - 1;
      assert variables == variables[..n] + [variables[n]];
      Insert(SortByLength(variables[..n]), variables[n])
  }

  function Insert(sorted: seq<Variable>, v: Variable): (longer: seq<Variable>)
    ensures multiset(longer) == multiset(sorted) + multiset{v}
  {
    if sorted == [] then [v]
    else if |sorted[0].1| < |v.1| then [v] + sorted
    else
      assert sorted == [sorted[0]] + sorted[1..];
      [sorted[0]] + Insert(sorted[1..], v)
  }

  lemma {:induction false} SortByLengthSorts(variables: seq<Variable>)
    ensures LongestFirst(SortByLength(variables))
  {
    if variables != [] {
      var n := |variables| - 1;
      SortByLengthSorts(variables[..n]);
      InsertSorts(SortByLength(variables[..n]), variables[n]);
    }
  }

  lemma {:induction false} InsertSorts(sorted: seq<Variable>, v: Variable)
    requires LongestFirst(sorted)
    ensures LongestFirst(Insert(sorted, v))
    ensures Insert(sorted, v) != []
    ensures Insert(sorted, v)[0] == if sorted == [] || |sorted[0].1| < |v.1| then v else sorted[0]
  {
    hide SortByLength, LongestFirst;
    if sorted == [] {
      PrependSorts(v, sorted);
      assert [v] + sorted == [v];
    } else if |sorted[0].1| < |v.1| {
      PrependSorts(v, sorted);
    } else {
      TailIsSorted(sorted);
      InsertSorts(sorted[1..], v);
      PrependSorts(sorted[0], Insert(sorted[1..], v));
    }
  }

  /** The entries whose value is that long. */
  function OfLength(variables: seq<Variable>, n: nat): seq<Variable> {
    if variables == [] then []
    else (if |variables[0].1| == n then [variables[0]] else []) + OfLength(variables[1..], n)
  }

  /** Values of one length keep their order. */
  lemma {:induction false} SortByLengthIsStable(variables: seq<Variable>, n: nat)
    ensures OfLength(SortByLength(variables), n) == OfLength(variables, n)
    decreases |variables|
  {
    if variables != [] {
      var last := |variables| - 1;
      var front, v := variables[..last], variables[last];
      assert variables == front + [v];
      assert SortByLength(variables) == Insert(SortByLength(front), v);
      SortByLengthSorts(front);
      SortByLengthIsStable(front, n);
      hide SortByLength, LongestFirst, OfLength;
      InsertIsStable(SortByLength(front), v, n);
      OfLengthSnoc(front, v, n);
    }
  }

  lemma OfLengthCons(v: Variable, rest: seq<Variable>, n: nat)
    ensures OfLength([v] + rest, n) == (if |v.1| == n then [v] else []) + OfLength(rest, n)
  {
    assert ([v] + rest)[1..] == rest;
  }

  lemma {:induction false} OfLengthSnoc(variables: seq<Variable>, v: Variable, n: nat)
    ensures OfLength(variables + [v], n) == OfLength(variables, n) + if |v.1| == n then [v] else []
    decreases |variables|
  {
    if variables == [] {
      OfLengthCons(v, [], n);
      assert [v] + [] == [v] && variables + [v] == [v];
    } else {
      var first, rest := variables[0], variables[1..];
      assert variables == [first] + rest && variables + [v] == [first] + (rest + [v]);
      OfLengthSnoc(rest, v, n);
      hide OfLength;
      OfLengthCons(first, rest, n);
      OfLengthCons(first, rest + [v], n);
    }
  }

  lemma {:induction false} InsertIsStable(sorted: seq<Variable>, v: Variable, n: nat)
    requires LongestFirst(sorted)
    ensures OfLength(Insert(sorted, v), n) == OfLength(sorted, n) + if |v.1| == n then [v] else []
    decreases |sorted|
  {
    hide OfLength, LongestFirst;
    if sorted == [] {
      OfLengthSnoc([], v, n);
      assert [] + [v] == [v];
    } else if |sorted[0].1| < |v.1| {
      StableFront(sorted, v, n);
    } else {
      TailIsSorted(sorted);
      InsertIsStable(sorted[1..], v, n);
      assert sorted == [sorted[0]] + sorted[1..];
      StableLater(sorted[0], sorted[1..], Insert(sorted[1..], v), if |v.1| == n then [v] else [], n);
    }
  }

  lemma StableFront(sorted: seq<Variable>, v: Variable, n: nat)
    requires LongestFirst(sorted) && sorted != [] && |sorted[0].1| < |v.1|
    ensures OfLength([v] + sorted, n) == OfLength(sorted, n) + if |v.1| == n then [v] else []
  {
    if |v.1| == n { NoneIsThatLong(sorted, n); }
    hide OfLength, LongestFirst;
    OfLengthCons(v, sorted, n);
  }

  lemma StableLater(first: Variable, rest: seq<Variable>, longer: seq<Variable>, more: seq<Variable>, n: nat)
    requires OfLength(longer, n) == OfLength(rest, n) + more
    ensures OfLength([first] + longer, n) == OfLength([first] + rest, n) + more
  {
    hide OfLength;
    OfLengthCons(first, rest, n);
    OfLengthCons(first, longer, n);
  }

  lemma {:induction false} NoneIsThatLong(sorted: seq<Variable>, n: nat)
    requires LongestFirst(sorted) && (sorted != [] ==> |sorted[0].1| < n)
    ensures OfLength(sorted, n) == []
    decreases |sorted|
  {
    if sorted != [] {
      TailIsSorted(sorted);
      NoneIsThatLong(sorted[1..], n);
    }
  }

  lemma PrependSorts(v: Variable, sorted: seq<Variable>)
    requires (sorted == [] || (LongestFirst(sorted) && |v.1| >= |sorted[0].1|))
    ensures LongestFirst([v] + sorted)
  {
  }

  lemma TailIsSorted(sorted: seq<Variable>)
    requires LongestFirst(sorted) && sorted != []
    ensures LongestFirst(sorted[1..]) && (|sorted| > 1 ==> |sorted[0].1| >= |sorted[1].1|)
  {
  }

  function ReverseRender(content: string, variables: seq<Variable>): string {
    if variables == [] then content
    else
      var joined := Concat(ProtectWith([content], SortByLength(variables)));
      Replace(Replace(joined, SENTINEL_L, "{{"), SENTINEL_R, "}}")
  }

  /** The loops that split, interleave and join. */
  method ReverseRenderCommand(content: string, variables: seq<Variable>) returns (r: string)
    ensures r == ReverseRender(content, variables)
  {
    if variables == [] {
      return content;
    }
    var segments := [content];
    var sorted := SortByLength(variables);
    for i := 0 to |sorted|
      invariant ProtectWith(segments, sorted[i..]) == ProtectWith([content], sorted)
    {
      var (key, value) := sorted[i];
      if value != "" {
        segments := ProtectSegments(segments, key, value);
      }
    }
    r := Replace(Replace(Concat(segments), SENTINEL_L, "{{"), SENTINEL_R, "}}");
  }

  method ProtectSegments(segments: seq<string>, key: string, value: string) returns (protected: seq<string>)
    requires value != ""
    ensures protected == ProtectAll(segments, key, value)
  {
    protected := [];
    for i := 0 to |segments|
      invariant protected + ProtectAll(segments[i..], key, value) == ProtectAll(segments, key, value)
    {
      assert segments[i..][0] == segments[i] && segments[i..][1..] == segments[i + 1..];
      var more := ProtectOne(segments[i], key, value);
      protected := protected + more;
    }
  }

  method ProtectOne(segment: string, key: string, value: string) returns (protected: seq<string>)
    requires value != ""
    ensures protected == ProtectSegment(segment, key, value)
  {
    if Contains(segment, SENTINEL_L) {
      return [segment];
    }
    protected := Weave(SplitOn(segment, value), Sentinel(key));
  }

  method Weave(parts: seq<string>, mark: string) returns (woven: seq<string>)
    requires parts != []
    ensures woven == Interleave(parts, mark)
  {
    woven := [];
    for i := 0 to |parts|
      invariant i < |parts| ==> woven + Interleave(parts[i..], mark) == Interleave(parts, mark)
      invariant i == |parts| ==> woven == Interleave(parts, mark)
    {
      woven := woven + [parts[i]];
      if i < |parts| - 1 {
        woven := woven + [mark];
      }
    }
  }

  // ---------------------------------------------------------------- the sentinel form refines the marked one

  function Segments(t: Marked): seq<string> {
    match t
    case Last(plain) => [plain]
    case Then(plain, key, rest) => [plain, Sentinel(key)] + Segments(rest)
  }

  ghost predicate NulFree(t: Marked) {
    '\0' !in t.plain && (t.Then? ==> '\0' !in t.key && NulFree(t.rest))
  }

  lemma {:induction false} MarkSegments(s: string, key: string, value: string)
    requires value != "" && '\0' !in s && '\0' !in key
    ensures Interleave(SplitOn(s, value), Sentinel(key)) == Segments(Mark(s, key, value)) && NulFree(Mark(s, key, value))
    decreases |s|
  {
    hide Find;
    match Find(s, value)
    case None =>
    case Some(i) =>
      var back := s[i + |value|..];
      assert SplitOn(s, value) == [s[..i]] + SplitOn(back, value);
      assert Mark(s, key, value) == Then(s[..i], key, Mark(back, key, value));
      hide SplitOn, Mark;
      MarkSegments(back, key, value);
      InterleaveFirst(s[..i], SplitOn(back, value), Sentinel(key));
  }

  lemma InterleaveFirst(part: string, parts: seq<string>, mark: string)
    requires parts != []
    ensures Interleave([part] + parts, mark) == [part, mark] + Interleave(parts, mark)
  {
    assert ([part] + parts)[1..] == parts;
  }

  lemma SentinelIsProtected(key: string)
    ensures Contains(Sentinel(key), SENTINEL_L)
  {
    assert Sentinel(key)[0..2] == SENTINEL_L;
    assert OccursAt(Sentinel(key), SENTINEL_L, 0);
  }

  lemma NoSentinel(s: string)
    requires '\0' !in s
    ensures !Contains(s, SENTINEL_L)
  {
    forall i | 0 <= i <= |s| ensures !OccursAt(s, SENTINEL_L, i) {
      if i + 2 <= |s| { assert s[i..i + 2][0] == s[i]; }
    }
  }

  lemma {:induction false} AppendSegments(t: Marked, key: string, rest: Marked)
    requires NulFree(t) && NulFree(rest) && '\0' !in key
    ensures Segments(Append(t, key, rest)) == Segments(t) + [Sentinel(key)] + Segments(rest) && NulFree(Append(t, key, rest))
  {
    if t.Then? { AppendSegments(t.rest, key, rest); }
  }

  lemma {:induction false} PassSegments(t: Marked, key: string, value: string)
    requires value != "" && NulFree(t) && '\0' !in key
    ensures ProtectAll(Segments(t), key, value) == Segments(Pass(t, key, value)) && NulFree(Pass(t, key, value))
  {
    MarkSegments(t.plain, key, value);
    NoSentinel(t.plain);
    if t.Then? {
      PassSegments(t.rest, key, value);
      AppendSegments(Mark(t.plain, key, value), t.key, Pass(t.rest, key, value));
      ProtectTwo(t.plain, t.key, Segments(t.rest), key, value);
    } else {
      ProtectNone(t.plain, key, value);
    }
  }

  lemma ProtectNone(plain: string, key: string, value: string)
    requires value != ""
    ensures ProtectAll([plain], key, value) == ProtectSegment(plain, key, value)
  {
    assert [plain][1..] == [];
  }

  /** A sentinel is passed through between what comes before and after it. */
  lemma ProtectTwo(plain: string, k: string, more: seq<string>, key: string, value: string)
    requires value != ""
    ensures ProtectAll([plain, Sentinel(k)] + more, key, value) ==
            ProtectSegment(plain, key, value) + [Sentinel(k)] + ProtectAll(more, key, value)
  {
    var all := [plain, Sentinel(k)] + more;
    SentinelIsProtected(k);
    assert all[1..] == [Sentinel(k)] + more && all[1..][1..] == more;
  }

  lemma {:induction false} PassesSegments(t: Marked, variables: seq<Variable>)
    requires NulFree(t) && forall v | v in variables :: '\0' !in v.0
    ensures ProtectWith(Segments(t), variables) == Segments(Passes(t, variables)) && NulFree(Passes(t, variables))
    decreases |variables|
  {
    if variables != [] {
      assert variables[0] in variables;
      var (key, value) := variables[0];
      if value != "" { PassSegments(t, key, value); }
      PassesSegments(if value == "" then t else Pass(t, key, value), variables[1..]);
    }
  }

  /** Half-way through the two final replacements. */
  function HalfSpelled(t: Marked): string {
    match t
    case Last(plain) => plain
    case Then(plain, key, rest) => plain + ("{{" + (Padded(key) + (SENTINEL_R + HalfSpelled(rest))))
  }

  lemma {:induction false} FirstReplacement(t: Marked)
    requires NulFree(t)
    ensures Replace(Concat(Segments(t)), SENTINEL_L, "{{") == HalfSpelled(t)
  {
    match t
    case Last(plain) =>
      ConcatOne(plain);
      ReplaceNothing(plain, SENTINEL_L, "{{");
    case Then(plain, key, rest) =>
      FirstReplacement(rest);
      ConcatTwo(plain, key, Segments(rest));
      FirstMark(plain, Padded(key), Concat(Segments(rest)));
  }

  lemma ConcatOne(plain: string)
    ensures Concat([plain]) == plain
  {
    assert [plain][1..] == [] && plain + "" == plain;
  }

  lemma ConcatTwo(plain: string, key: string, more: seq<string>)
    ensures Concat([plain, Sentinel(key)] + more) == plain + (SENTINEL_L + (Padded(key) + (SENTINEL_R + Concat(more))))
  {
    var all := [plain, Sentinel(key)] + more;
    assert all[1..] == [Sentinel(key)] + more && all[1..][1..] == more;
  }

  lemma ReplaceNothing(plain: string, pat: string, out: string)
    requires pat != "" && pat[0] !in plain
    ensures Replace(plain, pat, out) == plain
  {
    assert plain + "" == plain;
    ReplaceSkips(plain, "", pat, out);
  }

  lemma FirstMark(plain: string, name: string, more: string)
    requires '\0' !in plain && '\0' !in name
    ensures Replace(plain + (SENTINEL_L + (name + (SENTINEL_R + more))), SENTINEL_L, "{{") ==
            plain + ("{{" + (name + (SENTINEL_R + Replace(more, SENTINEL_L, "{{"))))
  {
    ReplaceSkips(plain, SENTINEL_L + (name + (SENTINEL_R + more)), SENTINEL_L, "{{");
    ReplaceHead(name + (SENTINEL_R + more), SENTINEL_L, "{{");
    ReplaceSkips(name, SENTINEL_R + more, SENTINEL_L, "{{");
    OtherSentinel(more);
  }

  lemma OtherSentinel(y: string)
    ensures Replace(SENTINEL_R + y, SENTINEL_L, "{{") == SENTINEL_R + Replace(y, SENTINEL_L, "{{")
  {
    var s := SENTINEL_R + y;
    var tail := [SENTINEL_R[1]];
    assert s[1..] == tail + y && s[0] == SENTINEL_R[0];
    assert !(SENTINEL_L <= s) by { assert s[1] != SENTINEL_L[1]; }
    ReplaceSkips(tail, y, SENTINEL_L, "{{");
    assert [SENTINEL_R[0]] + (tail + Replace(y, SENTINEL_L, "{{")) == SENTINEL_R + Replace(y, SENTINEL_L, "{{");
  }

  lemma {:induction false} SecondReplacement(t: Marked)
    requires NulFree(t)
    ensures Replace(HalfSpelled(t), SENTINEL_R, "}}") == Spelled(t)
  {
    match t
    case Last(plain) =>
      ReplaceNothing(plain, SENTINEL_R, "}}");
    case Then(plain, key, rest) =>
      SecondReplacement(rest);
      SecondMark(plain, key, HalfSpelled(rest));
  }

  lemma SecondMark(plain: string, key: string, more: string)
    requires '\0' !in plain && '\0' !in key
    ensures Replace(plain + ("{{" + (Padded(key) + (SENTINEL_R + more))), SENTINEL_R, "}}") ==
            plain + (SpelledKey(key) + Replace(more, SENTINEL_R, "}}"))
  {
    var front := plain + ("{{" + Padded(key));
    assert plain + ("{{" + (Padded(key) + (SENTINEL_R + more))) == front + (SENTINEL_R + more);
    ReplaceSkips(front, SENTINEL_R + more, SENTINEL_R, "}}");
    ReplaceHead(more, SENTINEL_R, "}}");
    assert front + ("}}" + Replace(more, SENTINEL_R, "}}")) == plain + (SpelledKey(key) + Replace(more, SENTINEL_R, "}}"));
  }

  /** On text without NUL the sentinels are invisible: the result is the marked text, spelled. */
  lemma ReverseIsSpelled(word: char -> bool, content: string, variables: seq<Variable>)
    requires IsWordClass(word) && IsDictionary(word, variables) && '\0' !in content
    ensures ReverseRender(content, variables) == Spelled(Passes(Last(content), SortByLength(variables)))
  {
    if variables != [] {
      var sorted := SortByLength(variables);
      SortedVariables(variables);
      forall v | v in sorted ensures '\0' !in v.0 { assert AllOf(word, v.0); }
      PassesSegments(Last(content), sorted);
      FirstReplacement(Passes(Last(content), sorted));
      SecondReplacement(Passes(Last(content), sorted));
    }
  }

  lemma SortedVariables(variables: seq<Variable>)
    ensures forall v | v in SortByLength(variables) :: v in variables
  {
    forall v | v in SortByLength(variables) ensures v in variables {
      assert v in multiset(SortByLength(variables));
    }
  }

  /** The passes run over the dictionary's entries. */
  lemma SortedEntries(word: char -> bool, variables: seq<Variable>)
    requires IsDictionary(word, variables)
    ensures forall v | v in SortByLength(variables) ::
              v.0 in ToMap(variables) && ToMap(variables)[v.0] == v.1 && v.0 != "" && AllOf(word, v.0)
  {
    SortedVariables(variables);
    forall v | v in variables ensures v.0 in ToMap(variables) && ToMap(variables)[v.0] == v.1 && v.0 != "" && AllOf(word, v.0) {
      var i :| 0 <= i < |variables| && variables[i] == v;
      ValueInIs(variables, i);
    }
  }

  /** Reverse rendering loses nothing: rendering its result gives the content back. */
  lemma RenderUndoesReverse(word: char -> bool, content: string, variables: seq<Variable>)
    requires IsWordClass(word) && IsDictionary(word, variables) && '\0' !in content
    requires Clean(word, content, ToMap(variables))
    ensures RenderCommand(word, ReverseRender(content, variables), ToMap(variables)) == content
  {
    var dict := ToMap(variables);
    if variables != [] {
      assert variables[0].0 in dict;
      var sorted := SortByLength(variables);
      SortedEntries(word, variables);
      PassesKeep(word, Last(content), sorted, dict);
      PassesExpand(Last(content), sorted, dict);
      ReverseIsSpelled(word, content, variables);
      RenderExpands(word, Passes(Last(content), sorted), dict);
    }
  }

  // ---------------------------------------------------------------- exactly when nothing is lost

  /** A placeholder cannot begin inside another one. */
  lemma NoneBeginsInside(word: char -> bool, s: string, i: nat)
    requires IsWordClass(word) && MatchAt(word, s).Some? && 0 < i < MatchAt(word, s).value.length
    ensures MatchAt(word, s[i..]) == None
  {
    var a := End(IsSpace, s, 2);
    var b := End(word, s, a);
    var c := End(IsSpace, s, b);
    RunHolds(IsSpace, s, 2);
    RunHolds(word, s, a);
    RunHolds(IsSpace, s, b);
    if i >= 2 { assert s[i] != '{'; } else { assert s[2] != '{'; }
    assert !Opens(s[i..]);
  }

  lemma {:induction false} RunHolds(p: char -> bool, s: string, i: nat)
    requires i <= |s|
    ensures forall k | i <= k < End(p, s, i) :: p(s[k])
    decreases |s| - i
  {
    if i < |s| && p(s[i]) { RunHolds(p, s, i + 1); }
  }

  /** So the scan comes to every known placeholder, and puts its value there. */
  lemma {:induction false} RenderHits(word: char -> bool, s: string, i: nat, variables: map<string, string>)
    requires IsWordClass(word) && i < |s|
    requires MatchAt(word, s[i..]).Some? && MatchAt(word, s[i..]).value.key in variables
    ensures |Render(word, s, variables)| >= |variables[MatchAt(word, s[i..]).value.key]|
    decreases |s|
  {
    hide MatchAt;
    if i == 0 {
      assert s[0..] == s;
    } else {
      var n := Step(word, s);
      if n > i { NoneBeginsInside(word, s, i); }
      assert s[n..][i - n..] == s[i..];
      RenderHits(word, s[n..], i - n, variables);
    }
  }

  /** The same keys, every value blank except that of one key. */
  function OnlyValue(variables: seq<Variable>, key: string, value: string): (others: seq<Variable>)
    ensures |others| == |variables|
    ensures forall i | 0 <= i < |others| :: others[i] == (variables[i].0, if variables[i].0 == key then value else "")
  {
    seq(|variables|, i requires 0 <= i < |variables| => (variables[i].0, if variables[i].0 == key then value else ""))
  }

  lemma SameKeys(variables: seq<Variable>, key: string, value: string)
    ensures ToMap(OnlyValue(variables, key, value)).Keys == ToMap(variables).Keys
  {
    var others := OnlyValue(variables, key, value);
    forall k ensures k in ToMap(others) <==> k in ToMap(variables) {
      if k in ToMap(variables) {
        var i :| 0 <= i < |variables| && variables[i].0 == k;
        assert others[i] in others;
      }
      if k in ToMap(others) {
        var i :| 0 <= i < |others| && others[i].0 == k;
        assert variables[i] in variables;
      }
    }
  }

  /** Blank values and values too long to occur are not looked for. */
  lemma {:induction false} PassesFindNothing(s: string, passes: seq<Variable>)
    requires forall v | v in passes :: v.1 == "" || |v.1| > |s|
    ensures Passes(Last(s), passes) == Last(s)
    decreases |passes|
  {
    if passes != [] {
      assert passes[0] in passes;
      PassesFindNothing(s, passes[1..]);
    }
  }

  /** With one value longer than the content and all others blank, a known placeholder is lost. */
  lemma LostUnderSomeValues(word: char -> bool, content: string, variables: seq<Variable>) returns (others: seq<Variable>)
    requires IsWordClass(word) && IsDictionary(word, variables) && '\0' !in content
    requires !Clean(word, content, ToMap(variables))
    ensures IsDictionary(word, others) && ToMap(others).Keys == ToMap(variables).Keys
    ensures RenderCommand(word, ReverseRender(content, others), ToMap(others)) != content
  {
    hide MatchAt, Clean, ToMap, AllOf, IsWordClass, Render, ReverseRender;
    var i, key := KnownPlaceholder(word, content, ToMap(variables));
    var value := seq(|content| + 1, _ => ' ');
    others := OnlyValue(variables, key, value);
    SameKeys(variables, key, value);
    LongValue(variables, key, value);
    assert IsDictionary(word, others);
    hide IsDictionary, OnlyValue;
    IsUnchanged(word, content, others);
    RenderHits(word, content, i, ToMap(others));
    NotEmpty(ToMap(others), key);
  }

  lemma KnownPlaceholder(word: char -> bool, s: string, variables: map<string, string>) returns (i: nat, key: string)
    requires !Clean(word, s, variables)
    ensures i < |s| && MatchAt(word, s[i..]).Some? && MatchAt(word, s[i..]).value.key == key && key in variables
  {
    hide MatchAt;
    i :| 0 <= i < |s| && MatchAt(word, s[i..]).Some? && MatchAt(word, s[i..]).value.key in variables;
    key := MatchAt(word, s[i..]).value.key;
  }

  lemma NotEmpty(variables: map<string, string>, key: string)
    requires key in variables
    ensures |variables| != 0
  {
    assert key in variables.Keys;
  }

  lemma IsUnchanged(word: char -> bool, content: string, variables: seq<Variable>)
    requires IsWordClass(word) && IsDictionary(word, variables) && '\0' !in content
    requires forall v | v in variables :: v.1 == "" || |v.1| > |content|
    ensures ReverseRender(content, variables) == content
  {
    hide ReverseRender, SortByLength, IsDictionary;
    ReverseIsSpelled(word, content, variables);
    SortedVariables(variables);
    PassesFindNothing(content, SortByLength(variables));
  }

  lemma LongValue(variables: seq<Variable>, key: string, value: string)
    requires key in ToMap(variables) && value != ""
    ensures key in ToMap(OnlyValue(variables, key, value)) && ToMap(OnlyValue(variables, key, value))[key] == value
  {
    var others := OnlyValue(variables, key, value);
    SameKeys(variables, key, value);
    assert key in ToMap(others).Keys;
    OnlyValueOf(others, key, value);
  }

  lemma {:induction false} OnlyValueOf(others: seq<Variable>, key: string, value: string)
    requires exists v :: v in others && v.0 == key
    requires forall v | v in others && v.0 == key :: v.1 == value
    ensures ValueIn(others, key) == value
  {
    if others[0].0 == key { assert others[0] in others; } else { OnlyValueOf(others[1..], key, value); }
  }

  /**
   * The round trip holds whatever the values of the variables are if and only if the content holds no
   * placeholder of one of their keys.
   */
  lemma RoundTripExactly(word: char -> bool, content: string, variables: seq<Variable>)
    requires IsWordClass(word) && IsDictionary(word, variables) && '\0' !in content
    ensures Clean(word, content, ToMap(variables)) <==>
            forall others | IsDictionary(word, others) && ToMap(others).Keys == ToMap(variables).Keys ::
              RenderCommand(word, ReverseRender(content, others), ToMap(others)) == content
  {
    if Clean(word, content, ToMap(variables)) {
      forall others | IsDictionary(word, others) && ToMap(others).Keys == ToMap(variables).Keys
        ensures RenderCommand(word, ReverseRender(content, others), ToMap(others)) == content
      {
        CleanByKeys(word, content, ToMap(variables), ToMap(others));
        RenderUndoesReverse(word, content, others);
      }
    } else {
      var others := LostUnderSomeValues(word, content, variables);
    }
  }

  lemma CleanByKeys(word: char -> bool, content: string, variables: map<string, string>, others: map<string, string>)
    requires Clean(word, content, variables) && others.Keys == variables.Keys
    ensures Clean(word, content, others)
  {
    hide MatchAt;
    forall i | 0 <= i < |content| && MatchAt(word, content[i..]).Some?
      ensures MatchAt(word, content[i..]).value.key !in others
    {
      assert MatchAt(word, content[i..]).value.key !in variables.Keys;
    }
  }

  /** A content that is the value of a variable becomes its placeholder, and survives whatever it holds. */
  lemma WholeValueSurvives(word: char -> bool, content: string, key: string)
    requires IsWordClass(word) && key != "" && AllOf(word, key) && content != "" && '\0' !in content
    ensures ReverseRender(content, [(key, content)]) == "{{ " + key + " }}"
    ensures RenderCommand(word, ReverseRender(content, [(key, content)]), ToMap([(key, content)])) == content
  {
    var variables := [(key, content)];
    var dict := ToMap(variables);
    assert variables[0] in variables;
    assert key in dict && dict[key] == content;
    var t := Then("", key, Last(""));
    OneMark(content, key);
    hide Passes, Mark, MatchAt, Render, Replace, Sound;
    OnlyOne(variables);
    ReverseIsSpelled(word, content, variables);
    OneMarkSpelled(key, content, dict);
    assert Sound(word, t, dict) by { OneMarkIsSound(word, key, dict); }
    RenderExpands(word, t, dict);
  }

  lemma OneMark(content: string, key: string)
    requires content != ""
    ensures Passes(Last(content), [(key, content)]) == Then("", key, Last(""))
  {
    var variables := [(key, content)];
    assert variables[1..] == [];
    assert content[..0] == "" && content[|content|..] == "";
    assert Find(content, content) == Some(0) && Mark("", key, content) == Last("");
    assert Mark(content, key, content) == Then("", key, Last(""));
  }

  lemma OneMarkSpelled(key: string, content: string, variables: map<string, string>)
    requires key in variables && variables[key] == content
    ensures Spelled(Then("", key, Last(""))) == "{{ " + key + " }}"
    ensures Expanded(Then("", key, Last("")), variables) == content
  {
    assert "" + (SpelledKey(key) + "") == SpelledKey(key);
    assert SpelledKey(key) == "{{ " + key + " }}";
    assert "" + (content + "") == content;
  }

  lemma OneMarkIsSound(word: char -> bool, key: string, variables: map<string, string>)
    requires key in variables && key != "" && AllOf(word, key)
    ensures Sound(word, Then("", key, Last("")), variables)
  {
  }

  // ---------------------------------------------------------------- every value is replaced

  /** No plain part holds the value. */
  ghost predicate Lacks(t: Marked, value: string) {
    !Contains(t.plain, value) && (t.Then? ==> Lacks(t.rest, value))
  }

  lemma PartLacks(s: string, value: string, i: nat, j: nat)
    requires i <= j <= |s| && !Contains(s, value)
    ensures !Contains(s[i..j], value)
  {
    forall k | 0 <= k <= j - i ensures !OccursAt(s[i..j], value, k) {
      if OccursAt(s[i..j], value, k) { OccursInWhole(s, i, j, value, k); }
    }
  }

  lemma BeforeFirst(s: string, value: string)
    requires value != ""
    ensures var at := Find(s, value); !Contains(if at.Some? then s[..at.value] else s, value)
  {
    var at := Find(s, value);
    var front := if at.Some? then s[..at.value] else s;
    assert s[0..|front|] == front;
    forall k | 0 <= k <= |front| ensures !OccursAt(front, value, k) {
      if OccursAt(front, value, k) {
        OccursInWhole(s, 0, |front|, value, k);
        FindIsFirst(s, value, k);
      }
    }
  }

  lemma {:induction false} MarkLeavesNone(s: string, key: string, value: string)
    requires value != ""
    ensures Lacks(Mark(s, key, value), value)
    decreases |s|
  {
    hide Find;
    BeforeFirst(s, value);
    match Find(s, value)
    case None =>
    case Some(i) => MarkLeavesNone(s[i + |value|..], key, value);
  }

  lemma {:induction false} MarkBringsNone(s: string, key: string, value: string, other: string)
    requires value != "" && !Contains(s, other)
    ensures Lacks(Mark(s, key, value), other)
    decreases |s|
  {
    hide Find;
    match Find(s, value)
    case None =>
    case Some(i) =>
      PartLacks(s, other, 0, i);
      PartLacks(s, other, i + |value|, |s|);
      assert s[0..i] == s[..i] && s[i + |value|..|s|] == s[i + |value|..];
      MarkBringsNone(s[i + |value|..], key, value, other);
  }

  lemma {:induction false} AppendLacks(t: Marked, key: string, rest: Marked, value: string)
    requires Lacks(t, value) && Lacks(rest, value)
    ensures Lacks(Append(t, key, rest), value)
  {
    if t.Then? { AppendLacks(t.rest, key, rest, value); }
  }

  lemma {:induction false} PassLeavesNone(t: Marked, key: string, value: string)
    requires value != ""
    ensures Lacks(Pass(t, key, value), value)
  {
    MarkLeavesNone(t.plain, key, value);
    if t.Then? {
      PassLeavesNone(t.rest, key, value);
      AppendLacks(Mark(t.plain, key, value), t.key, Pass(t.rest, key, value), value);
    }
  }

  lemma {:induction false} PassBringsNone(t: Marked, key: string, value: string, other: string)
    requires value != "" && Lacks(t, other)
    ensures Lacks(Pass(t, key, value), other)
  {
    MarkBringsNone(t.plain, key, value, other);
    if t.Then? {
      PassBringsNone(t.rest, key, value, other);
      AppendLacks(Mark(t.plain, key, value), t.key, Pass(t.rest, key, value), other);
    }
  }

  lemma {:induction false} PassesBringNone(t: Marked, passes: seq<Variable>, other: string)
    requires Lacks(t, other)
    ensures Lacks(Passes(t, passes), other)
    decreases |passes|
  {
    if passes != [] {
      var (key, value) := passes[0];
      if value != "" { PassBringsNone(t, key, value, other); }
      PassesBringNone(if value == "" then t else Pass(t, key, value), passes[1..], other);
    }
  }

  lemma {:induction false} PassesLeaveNone(t: Marked, passes: seq<Variable>, i: nat)
    requires i < |passes| && passes[i].1 != ""
    ensures Lacks(Passes(t, passes), passes[i].1)
    decreases |passes|
  {
    var (key, value) := passes[0];
    var next := if value == "" then t else Pass(t, key, value);
    if i == 0 {
      PassLeavesNone(t, key, value);
      PassesBringNone(next, passes[1..], value);
    } else {
      PassesLeaveNone(next, passes[1..], i - 1);
    }
  }

  /**
   * Reverse rendering is complete: its result is the content with some values spelled as placeholders
   * of their variables, and outside those no value of a variable is left.
   */
  lemma NoValueIsLeft(word: char -> bool, content: string, variables: seq<Variable>) returns (t: Marked)
    requires IsWordClass(word) && IsDictionary(word, variables) && '\0' !in content
    ensures ReverseRender(content, variables) == Spelled(t)
    ensures Known(t, ToMap(variables)) && Expanded(t, ToMap(variables)) == content
    ensures forall v | v in variables && v.1 != "" :: Lacks(t, v.1)
  {
    var sorted := SortByLength(variables);
    t := Passes(Last(content), sorted);
    SortedEntries(word, variables);
    PassesExpand(Last(content), sorted, ToMap(variables));
    forall v | v in variables && v.1 != "" ensures Lacks(t, v.1) {
      assert v in multiset(sorted);
      var i :| 0 <= i < |sorted| && sorted[i] == v;
      PassesLeaveNone(Last(content), sorted, i);
    }
    ReverseIsSpelled(word, content, variables);
  }

  /** A placeholder that was already in the content does not survive: it comes back as the value. */
  lemma ExistingPlaceholderIsLost(word: char -> bool, key: string, value: string)
    requires IsWordClass(word) && key != "" && AllOf(word, key) && value != "" && !Contains(SpelledKey(key), value)
    ensures RenderCommand(word, ReverseRender(SpelledKey(key), [(key, value)]), ToMap([(key, value)])) == value
    ensures value != SpelledKey(key)
  {
    var content, variables := SpelledKey(key), [(key, value)];
    var dict := ToMap(variables);
    assert variables[0] in variables;
    assert key in dict && dict[key] == value;
    assert '\0' !in content;
    ReverseIsSpelled(word, content, variables);
    OnlyOne(variables);
    FindNone(content, value);
    ContainsItself(content);
    assert Passes(Last(content), variables) == Mark(content, key, value) by { assert variables[1..] == []; }
    RenderKnown(word, key, "", dict);
    assert content + "" == content && value + "" == value;
  }

  lemma OnlyOne(variables: seq<Variable>)
    requires |variables| == 1
    ensures SortByLength(variables) == variables
  {
    assert variables[..0] == [];
  }
}
