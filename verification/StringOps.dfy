/** Finding, splitting, replacing and joining at the leftmost occurrences, as Python's string methods do. */
module StringOps {
  import opened Basics

  predicate OccursAt(s: string, pat: string, i: nat) {
    i + |pat| <= |s| && s[i..i + |pat|] == pat
  }

  predicate Contains(s: string, pat: string) {
    exists i | 0 <= i <= |s| :: OccursAt(s, pat, i)
  }

  /** Where `pat` first occurs. */
  function Find(s: string, pat: string): (at: Option<nat>)
    ensures at.Some? ==> OccursAt(s, pat, at.value)
  {
    if |s| < |pat| then None
    else if pat <= s then Some(0)
    else if s == "" then None
    else
      match Find(s[1..], pat)
      case Some(i) => assert s[1..][i..i + |pat|] == s[i + 1..i + 1 + |pat|]; Some(i + 1)
      case None => None
  }

  /** Finding is leftmost and complete. */
  lemma {:induction false} FindIsFirst(s: string, pat: string, j: nat)
    requires OccursAt(s, pat, j)
    ensures Find(s, pat).Some? && Find(s, pat).value <= j
  {
    if j > 0 {
      assert s[1..][j - 1..j - 1 + |pat|] == s[j..j + |pat|];
      FindIsFirst(s[1..], pat, j - 1);
    }
  }

  lemma FindNone(s: string, pat: string)
    requires !Contains(s, pat)
    ensures Find(s, pat) == None
  {
  }

  lemma ContainsItself(s: string)
    ensures Contains(s, s)
  {
    assert s[0..|s|] == s;
    assert OccursAt(s, s, 0);
  }

  lemma OccursInWhole(s: string, i: nat, j: nat, pat: string, k: nat)
    requires i <= j <= |s| && OccursAt(s[i..j], pat, k)
    ensures OccursAt(s, pat, i + k)
  {
    var part := s[i..j];
    forall m | 0 <= m < |pat| ensures s[i + k..i + k + |pat|][m] == pat[m] {
      assert part[k..k + |pat|][m] == part[k + m];
    }
  }

  /** Splitting at every non-overlapping occurrence, from the left. */
  function SplitOn(s: string, pat: string): (parts: seq<string>)
    requires pat != ""
    ensures parts != []
  {
    match Find(s, pat)
    case None => [s]
    case Some(i) => [s[..i]] + SplitOn(s[i + |pat|..], pat)
  }

  /** Replacing every non-overlapping occurrence, from the left. */
  function Replace(s: string, pat: string, out: string): string
    requires pat != ""
  {
    if s == "" then ""
    else if pat <= s then out + Replace(s[|pat|..], pat, out)
    else [s[0]] + Replace(s[1..], pat, out)
  }

  /** Text without the pattern's first character passes through. */
  lemma {:induction false} ReplaceSkips(x: string, y: string, pat: string, out: string)
    requires pat != "" && pat[0] !in x
    ensures Replace(x + y, pat, out) == x + Replace(y, pat, out)
  {
    if x == "" {
      assert x + y == y;
    } else {
      assert (x + y)[1..] == x[1..] + y;
      ReplaceSkips(x[1..], y, pat, out);
    }
  }

  lemma ReplaceHead(y: string, pat: string, out: string)
    requires pat != ""
    ensures Replace(pat + y, pat, out) == out + Replace(y, pat, out)
  {
    assert (pat + y)[|pat|..] == y;
  }

  function Concat(parts: seq<string>): string {
    if parts == [] then "" else parts[0] + Concat(parts[1..])
  }

  function JoinWith(parts: seq<string>, separator: string): string
    requires parts != []
  {
    if |parts| == 1 then parts[0] else parts[0] + separator + JoinWith(parts[1..], separator)
  }

  /** Splitting leaves no occurrence in any part, and joining the parts again loses nothing. */
  lemma {:induction false} SplitUndone(s: string, pat: string)
    requires pat != ""
    ensures JoinWith(SplitOn(s, pat), pat) == s
    ensures forall part | part in SplitOn(s, pat) :: !Contains(part, pat)
    decreases |s|
  {
    match Find(s, pat)
    case None =>
      if i :| 0 <= i <= |s| && OccursAt(s, pat, i) { FindIsFirst(s, pat, i); }
    case Some(i) =>
      var rest := s[i + |pat|..];
      SplitUndone(rest, pat);
      assert s == s[..i] + pat + rest;
      assert SplitOn(s, pat)[1..] == SplitOn(rest, pat);
      forall k | 0 <= k <= i ensures !OccursAt(s[..i], pat, k) {
        if OccursAt(s[..i], pat, k) {
          OccursInWhole(s, 0, i, pat, k);
          FindIsFirst(s, pat, k);
        }
      }
  }

  /** Replacing is splitting and joining with the replacement. */
  lemma {:induction false} ReplaceIsSplitAndJoin(s: string, pat: string, out: string)
    requires pat != ""
    ensures Replace(s, pat, out) == JoinWith(SplitOn(s, pat), out)
    decreases |s|
  {
    match Find(s, pat)
    case None => ReplaceFindsNone(s, pat, out);
    case Some(i) =>
      var rest := s[i + |pat|..];
      assert SplitOn(s, pat) == [s[..i]] + SplitOn(rest, pat);
      hide Find, SplitOn, Replace, JoinWith;
      ReplaceIsSplitAndJoin(rest, pat, out);
      ReplaceUpTo(s, pat, out, i);
      JoinFirst(s[..i], SplitOn(rest, pat), out);
  }

  lemma JoinFirst(part: string, parts: seq<string>, separator: string)
    requires parts != []
    ensures JoinWith([part] + parts, separator) == part + (separator + JoinWith(parts, separator))
  {
    assert ([part] + parts)[1..] == parts;
    Associates(part, separator, JoinWith(parts, separator));
  }

  lemma Associates(a: string, b: string, c: string)
    ensures a + b + c == a + (b + c)
  {
  }

  lemma {:induction false} ReplaceFindsNone(s: string, pat: string, out: string)
    requires pat != "" && Find(s, pat).None?
    ensures Replace(s, pat, out) == s
  {
    if s != "" {
      ReplaceFindsNone(s[1..], pat, out);
    }
  }

  /** A later find is one step nearer in the rest. */
  lemma FindLater(s: string, pat: string, i: nat)
    requires Find(s, pat) == Some(i) && i > 0
    ensures s != "" && !(pat <= s) && Find(s[1..], pat) == Some(i - 1)
  {
  }

  lemma ReplaceLater(s: string, pat: string, out: string)
    requires pat != "" && s != "" && !(pat <= s)
    ensures Replace(s, pat, out) == [s[0]] + Replace(s[1..], pat, out)
  {
  }

  lemma ReplaceNow(s: string, pat: string, out: string)
    requires pat != "" && OccursAt(s, pat, 0)
    ensures Replace(s, pat, out) == out + Replace(s[|pat|..], pat, out)
  {
    assert pat <= s;
  }

  lemma {:induction false} ReplaceUpTo(s: string, pat: string, out: string, i: nat)
    requires pat != "" && Find(s, pat) == Some(i)
    ensures Replace(s, pat, out) == s[..i] + (out + Replace(s[i + |pat|..], pat, out))
    decreases i
  {
    hide Find, Replace;
    if i == 0 {
      ReplaceNow(s, pat, out);
    } else {
      FindLater(s, pat, i);
      ReplaceLater(s, pat, out);
      ReplaceUpTo(s[1..], pat, out, i - 1);
      Shift(s, i, |pat|);
      Associates([s[0]], s[1..][..i - 1], out + Replace(s[i + |pat|..], pat, out));
    }
  }

  lemma Shift(s: string, i: nat, n: nat)
    requires 0 < i && i + n <= |s|
    ensures s[1..][i - 1 + n..] == s[i + n..] && [s[0]] + s[1..][..i - 1] == s[..i]
  {
  }
}
