/** Condensing nested `<details>` blocks: the depth-counting loop and the tree it stands for (sova/adapters/external_reviews.py). */
module DetailsCondenser {
  import opened Basics

  /** A comment cut at its tags. A summary stands for `<summary>title</summary>` with its leading space. */
  datatype Token =
    | Text(raw: string)
    | Summary(raw: string, title: string)
    | Open(raw: string)
    | Close(raw: string)

  predicate IsPlain(t: Token) {
    t.Text? || t.Summary?
  }

  /** Which titles are noise, and the clean-up of a kept block's body. */
  datatype Style = Style(noise: string -> bool, finish: string -> string)

  function Raw(tokens: seq<Token>): string {
    if tokens == [] then "" else tokens[0].raw + Raw(tokens[1..])
  }

  lemma {:induction false} RawSplits(x: seq<Token>, y: seq<Token>)
    ensures Raw(x + y) == Raw(x) + Raw(y)
  {
    if x == [] {
      assert x + y == y;
    } else {
      assert (x + y)[1..] == x[1..] + y;
      RawSplits(x[1..], y);
    }
  }

  // ---------------------------------------------------------------- the specification over tokens

  /** Where the block whose opening tags are `depth` deep is closed. */
  function Closing(tokens: seq<Token>, depth: nat): (at: Option<nat>)
    ensures at.Some? ==> at.value < |tokens|
  {
    if tokens == [] then None
    else if tokens[0].Close? && depth <= 1 then Some(0)
    else
      var deeper := if tokens[0].Open? then depth + 1 else if tokens[0].Close? then depth - 1 else depth;
      match Closing(tokens[1..], deeper)
      case Some(j) => Some(j + 1)
      case None => None
  }

  /** Outside blocks everything is verbatim; a block is rendered; an unclosed one is verbatim to the end. */
  function Condense(style: Style, tokens: seq<Token>): string
    decreases |tokens|, 1
  {
    if tokens == [] then ""
    else if !tokens[0].Open? then tokens[0].raw + Condense(style, tokens[1..])
    else
      match Closing(tokens[1..], 1)
      case None => Raw(tokens)
      case Some(j) => RenderDetails(style, tokens[1..j + 1]) + Condense(style, tokens[j + 2..])
  }

  function TitleOf(inner: seq<Token>): string {
    if inner != [] && inner[0].Summary? then inner[0].title else ""
  }

  function BodyOf(inner: seq<Token>): (body: seq<Token>)
    ensures |body| <= |inner|
  {
    if inner != [] && inner[0].Summary? then inner[1..] else inner
  }

  function RenderDetails(style: Style, inner: seq<Token>): string
    decreases |inner|, 2
  {
    Framed(style, TitleOf(inner), Condense(style, BodyOf(inner)))
  }

  /** A noisy block is dropped; any other is its body under its title. */
  function Framed(style: Style, title: string, body: string): string {
    if style.noise(title) then ""
    else if title != "" then title + ":\n" + style.finish(body)
    else style.finish(body)
  }

  // ---------------------------------------------------------------- the loop

  method RenderBlock(style: Style, inner: seq<Token>) returns (r: string)
    ensures r == RenderDetails(style, inner)
    decreases |inner|, 2
  {
    var title := TitleOf(inner);
    if style.noise(title) {
      return "";
    }
    var condensed := CondenseBlocks(style, BodyOf(inner));
    var body := style.finish(condensed);
    r := if title != "" then title + ":\n" + body else body;
  }

  /** What the loop goes through: its output, how deep it is, and where the current block began. */
  datatype Scan = Scan(out: string, depth: nat, cursor: nat, innerStart: nat)

  method CondenseBlocks(style: Style, tokens: seq<Token>) returns (r: string)
    ensures r == Condense(style, tokens)
    decreases |tokens|, 1
  {
    var s := Scan("", 0, 0, 0);
    StartsOutside(style, tokens);
    for k := 0 to |tokens|
      invariant Follows(style, tokens, s, k)
    {
      s := Step(style, tokens, s, k);
    }
    Done(style, tokens, s);
    r := s.out + Raw(tokens[s.cursor..]);
  }

  /** One token of the loop. */
  method Step(style: Style, tokens: seq<Token>, s: Scan, k: nat) returns (n: Scan)
    requires k < |tokens| && Follows(style, tokens, s, k)
    ensures Follows(style, tokens, n, k + 1)
    decreases |tokens|, 0
  {
    if tokens[k].Open? {
      if s.depth == 0 {
        Enter(style, tokens, s, k);
        n := Scan(s.out + Raw(tokens[s.cursor..k]), 1, k, k + 1);
      } else {
        Deeper(style, tokens, s, k);
        n := s.(depth := s.depth + 1);
      }
    } else if tokens[k].Close? && s.depth > 0 {
      if s.depth == 1 {
        Leave(style, tokens, s, k);
        var rendered := RenderBlock(style, tokens[s.innerStart..k]);
        n := Scan(s.out + rendered, 0, k + 1, k + 1);
      } else {
        Deeper(style, tokens, s, k);
        n := s.(depth := s.depth - 1);
      }
    } else {
      if s.depth == 0 { PassOver(style, tokens, s, k); } else { Deeper(style, tokens, s, k); }
      n := s;
    }
  }

  predicate Follows(style: Style, tokens: seq<Token>, s: Scan, k: nat) {
    if s.depth == 0 then Outside(style, tokens, s, k) else Inside(style, tokens, s, k)
  }

  /** Between blocks: what is condensed so far, then the text since the cursor, then the rest. */
  predicate Outside(style: Style, tokens: seq<Token>, s: Scan, k: nat) {
    && s.cursor <= k <= |tokens|
    && s.out + Raw(tokens[s.cursor..k]) + Condense(style, tokens[k..]) == Condense(style, tokens)
  }

  /** Inside a block that was opened at the cursor. */
  predicate Inside(style: Style, tokens: seq<Token>, s: Scan, k: nat) {
    && s.innerStart == s.cursor + 1 && s.innerStart <= k <= |tokens| && tokens[s.cursor].Open?
    && s.out + Condense(style, tokens[s.cursor..]) == Condense(style, tokens)
    && Closing(tokens[s.innerStart..], 1) == Shifted(Closing(tokens[k..], s.depth), k - s.innerStart)
  }

  function Shifted(at: Option<nat>, n: nat): Option<nat> {
    match at
    case Some(j) => Some(j + n)
    case None => None
  }

  lemma StartsOutside(style: Style, tokens: seq<Token>)
    ensures Outside(style, tokens, Scan("", 0, 0, 0), 0)
  {
    assert tokens[0..0] == [] && tokens[0..] == tokens;
    assert "" + Raw([]) + Condense(style, tokens) == Condense(style, tokens);
  }

  lemma Tail(tokens: seq<Token>, k: nat)
    requires k < |tokens|
    ensures tokens[k..][0] == tokens[k] && tokens[k..][1..] == tokens[k + 1..]
  {
  }

  lemma RawSnoc(tokens: seq<Token>, i: nat, k: nat)
    requires i <= k < |tokens|
    ensures Raw(tokens[i..k + 1]) == Raw(tokens[i..k]) + tokens[k].raw
  {
    var last := [tokens[k]];
    assert tokens[i..k + 1] == tokens[i..k] + last;
    RawSplits(tokens[i..k], last);
    assert last[1..] == [];
    assert tokens[k].raw + "" == tokens[k].raw;
  }

  lemma CondenseCopies(style: Style, tokens: seq<Token>, k: nat)
    requires k < |tokens| && !tokens[k].Open?
    ensures Condense(style, tokens[k..]) == tokens[k].raw + Condense(style, tokens[k + 1..])
  {
    Tail(tokens, k);
  }

  lemma PassOver(style: Style, tokens: seq<Token>, s: Scan, k: nat)
    requires Outside(style, tokens, s, k) && k < |tokens| && !tokens[k].Open?
    ensures Outside(style, tokens, s, k + 1)
  {
    RawSnoc(tokens, s.cursor, k);
    CondenseCopies(style, tokens, k);
    Regroup(s.out, Raw(tokens[s.cursor..k]), tokens[k].raw, Condense(style, tokens[k + 1..]));
  }

  lemma Regroup(a: string, b: string, c: string, d: string)
    ensures a + b + (c + d) == a + (b + c) + d
  {
  }

  lemma Enter(style: Style, tokens: seq<Token>, s: Scan, k: nat)
    requires Outside(style, tokens, s, k) && k < |tokens| && tokens[k].Open?
    ensures Inside(style, tokens, Scan(s.out + Raw(tokens[s.cursor..k]), 1, k, k + 1), k + 1)
  {
    var at := Closing(tokens[k + 1..], 1);
    assert Shifted(at, 0) == at;
  }

  lemma Deeper(style: Style, tokens: seq<Token>, s: Scan, k: nat)
    requires s.depth > 0 && Inside(style, tokens, s, k) && k < |tokens|
    requires tokens[k].Close? ==> s.depth > 1
    ensures var deeper := if tokens[k].Open? then s.depth + 1 else if tokens[k].Close? then s.depth - 1 else s.depth;
            Inside(style, tokens, s.(depth := deeper), k + 1)
  {
    hide Condense, Raw, Closing;
    ClosingStep(tokens, s.depth, k);
  }

  lemma ClosingStep(tokens: seq<Token>, depth: nat, k: nat)
    requires depth > 0 && k < |tokens| && (tokens[k].Close? ==> depth > 1)
    ensures var deeper := if tokens[k].Open? then depth + 1 else if tokens[k].Close? then depth - 1 else depth;
            Closing(tokens[k..], depth) == Shifted(Closing(tokens[k + 1..], deeper), 1)
  {
    Tail(tokens, k);
  }

  lemma CondenseFound(style: Style, tokens: seq<Token>, j: nat)
    requires tokens != [] && tokens[0].Open? && Closing(tokens[1..], 1) == Some(j)
    ensures Condense(style, tokens) == RenderDetails(style, tokens[1..j + 1]) + Condense(style, tokens[j + 2..])
  {
  }

  lemma CondenseFrom(style: Style, tokens: seq<Token>, cursor: nat, k: nat)
    requires cursor < k < |tokens| && tokens[cursor].Open? && Closing(tokens[cursor + 1..], 1) == Some(k - cursor - 1)
    ensures Condense(style, tokens[cursor..]) == RenderDetails(style, tokens[cursor + 1..k]) + Condense(style, tokens[k + 1..])
  {
    hide Closing, RenderDetails;
    var rest := tokens[cursor..];
    Tail(tokens, cursor);
    CondenseFound(style, rest, k - cursor - 1);
    assert rest[1..k - cursor] == tokens[cursor + 1..k] && rest[k - cursor + 1..] == tokens[k + 1..];
  }

  lemma Leave(style: Style, tokens: seq<Token>, s: Scan, k: nat)
    requires Inside(style, tokens, s, k) && s.depth == 1 && k < |tokens| && tokens[k].Close?
    ensures Outside(style, tokens, Scan(s.out + RenderDetails(style, tokens[s.innerStart..k]), 0, k + 1, k + 1), k + 1)
  {
    Tail(tokens, k);
    assert Closing(tokens[k..], 1) == Some(0);
    CondenseFrom(style, tokens, s.cursor, k);
    assert tokens[k + 1..k + 1] == [];
    RegroupEmpty(s.out, RenderDetails(style, tokens[s.innerStart..k]), Condense(style, tokens[k + 1..]));
  }

  lemma RegroupEmpty(a: string, b: string, c: string)
    ensures a + (b + c) == a + b + "" + c
  {
  }

  lemma Done(style: Style, tokens: seq<Token>, s: Scan)
    requires Follows(style, tokens, s, |tokens|)
    ensures s.cursor <= |tokens| && s.out + Raw(tokens[s.cursor..]) == Condense(style, tokens)
  {
    assert tokens[|tokens|..] == [];
    if s.depth == 0 {
      assert tokens[s.cursor..|tokens|] == tokens[s.cursor..];
    } else {
      Tail(tokens, s.cursor);
    }
  }

  // ---------------------------------------------------------------- the tree

  /** A properly nested piece of a comment. */
  datatype Block = Plain(token: Token) | Details(open: string, children: seq<Block>, close: string)

  predicate Proper(forest: seq<Block>) {
    forall i | 0 <= i < |forest| :: ProperBlock(forest[i])
  }

  function Flatten(forest: seq<Block>): seq<Token> {
    if forest == [] then [] else FlattenBlock(forest[0]) + Flatten(forest[1..])
  }

  function FlattenBlock(block: Block): seq<Token> {
    match block
    case Plain(t) => [t]
    case Details(open, children, close) => [Open(open)] + Flatten(children) + [Close(close)]
  }

  predicate Titled(children: seq<Block>) {
    children != [] && children[0].Plain? && children[0].token.Summary?
  }

  /** Structural recursion over the blocks. */
  function RenderForest(style: Style, forest: seq<Block>): string {
    if forest == [] then "" else RenderTree(style, forest[0]) + RenderForest(style, forest[1..])
  }

  function RenderTree(style: Style, block: Block): string {
    match block
    case Plain(t) => t.raw
    case Details(_, children, _) =>
      if Titled(children) then
        Framed(style, children[0].token.title, RenderForest(style, children[1..]))
      else Framed(style, "", RenderForest(style, children))
  }

  /** A nested piece does not change the depth. */
  lemma {:induction false} ClosingSkips(forest: seq<Block>, rest: seq<Token>, depth: nat)
    requires Proper(forest) && depth > 0
    ensures Closing(Flatten(forest) + rest, depth) == Shifted(Closing(rest, depth), |Flatten(forest)|)
    decreases forest, 1
  {
    if forest == [] {
      assert Flatten(forest) + rest == rest;
    } else {
      var more := Flatten(forest[1..]) + rest;
      assert Flatten(forest) + rest == FlattenBlock(forest[0]) + more;
      ClosingSkipsBlock(forest[0], more, depth);
      ClosingSkips(forest[1..], rest, depth);
    }
  }

  predicate ProperBlock(block: Block) {
    match block
    case Plain(t) => IsPlain(t)
    case Details(_, children, _) => Proper(children)
  }

  lemma {:induction false} ClosingSkipsBlock(block: Block, rest: seq<Token>, depth: nat)
    requires ProperBlock(block) && depth > 0
    ensures Closing(FlattenBlock(block) + rest, depth) == Shifted(Closing(rest, depth), |FlattenBlock(block)|)
    decreases block, 0
  {
    match block
    case Plain(t) =>
      assert ([t] + rest)[1..] == rest;
    case Details(open, children, close) =>
      var tail := [Close(close)] + rest;
      BlockTail(open, children, close, rest);
      ClosingSkips(children, tail, depth + 1);
      ClosingHead(Open(open), Flatten(children) + tail, depth, depth + 1);
      ClosingHead(Close(close), rest, depth + 1, depth);
  }

  /** A block's tokens, followed by more, begin with its opening tag and go on with its children. */
  lemma BlockTail(open: string, children: seq<Block>, close: string, rest: seq<Token>)
    ensures FlattenBlock(Details(open, children, close)) + rest == [Open(open)] + (Flatten(children) + ([Close(close)] + rest))
  {
  }

  lemma ClosingHead(t: Token, rest: seq<Token>, depth: nat, next: nat)
    requires depth > 0 && next == (if t.Open? then depth + 1 else if t.Close? then depth - 1 else depth) && next > 0
    ensures Closing([t] + rest, depth) == Shifted(Closing(rest, next), 1)
  {
    assert ([t] + rest)[1..] == rest;
  }

  /** One block at the front is rendered by itself. */
  lemma {:induction false} CondenseBlock(style: Style, block: Block, rest: seq<Token>)
    requires ProperBlock(block)
    ensures Condense(style, FlattenBlock(block) + rest) == RenderTree(style, block) + Condense(style, rest)
    decreases block, 1
  {
    match block
    case Plain(t) =>
      assert ([t] + rest)[1..] == rest;
    case Details(open, children, close) =>
      RenderInner(style, block);
      CondenseClosed(style, open, children, close, rest);
  }

  lemma CondenseClosed(style: Style, open: string, children: seq<Block>, close: string, rest: seq<Token>)
    requires Proper(children)
    ensures Condense(style, FlattenBlock(Details(open, children, close)) + rest) ==
            RenderDetails(style, Flatten(children)) + Condense(style, rest)
  {
    var inner, tail := Flatten(children), [Close(close)] + rest;
    var all := [Open(open)] + (inner + tail);
    BlockTail(open, children, close, rest);
    ClosingSkips(children, tail, 1);
    assert Closing(tail, 1) == Some(0);
    hide Closing, Condense, RenderDetails, Flatten, FlattenBlock;
    assert all[1..] == inner + tail;
    assert all[1..|inner| + 1] == inner;
    assert all[|inner| + 2..] == rest;
    CondenseFound(style, all, |inner|);
  }

  lemma {:induction false} RenderInner(style: Style, block: Block)
    requires block.Details? && Proper(block.children)
    ensures RenderDetails(style, Flatten(block.children)) == RenderTree(style, block)
    decreases block, 0
  {
    var children := block.children;
    var inner := Flatten(children);
    TitleIsFirst(children);
    if Titled(children) {
      CondenseForest(style, children[1..], []);
      assert Flatten(children[1..]) + [] == Flatten(children[1..]);
      assert RenderForest(style, children[1..]) + "" == RenderForest(style, children[1..]);
    } else {
      CondenseForest(style, children, []);
      assert inner + [] == inner;
      assert RenderForest(style, children) + "" == RenderForest(style, children);
    }
  }

  lemma TitleIsFirst(children: seq<Block>)
    requires Proper(children)
    ensures TitleOf(Flatten(children)) == if Titled(children) then children[0].token.title else ""
    ensures BodyOf(Flatten(children)) == Flatten(if Titled(children) then children[1..] else children)
  {
    if children != [] {
      var first := FlattenBlock(children[0]);
      assert Flatten(children) == first + Flatten(children[1..]) && first != [];
      assert Flatten(children)[0] == first[0];
      if Titled(children) { assert first == [children[0].token] && Flatten(children)[1..] == Flatten(children[1..]); }
    }
  }

  /** On properly nested text the loop's result is the structural rendering, whatever follows. */
  lemma {:induction false} CondenseForest(style: Style, forest: seq<Block>, rest: seq<Token>)
    requires Proper(forest)
    ensures Condense(style, Flatten(forest) + rest) == RenderForest(style, forest) + Condense(style, rest)
    decreases forest, 2
  {
    if forest == [] {
      assert Flatten(forest) + rest == rest;
    } else {
      var more := Flatten(forest[1..]) + rest;
      assert Flatten(forest) + rest == FlattenBlock(forest[0]) + more;
      CondenseBlock(style, forest[0], more);
      CondenseForest(style, forest[1..], rest);
      assert RenderTree(style, forest[0]) + (RenderForest(style, forest[1..]) + Condense(style, rest))
             == RenderForest(style, forest) + Condense(style, rest);
    }
  }

  // ---------------------------------------------------------------- a kept block keeps its content

  /**
   * A block becomes its title, a colon and a line break, followed by its finished body; without a
   * title its finished body alone; and nothing when its title is noise.
   */
  lemma BlockRendering(style: Style, open: string, children: seq<Block>, close: string, rest: seq<Token>)
    requires Proper(children)
    ensures var titled := children != [] && children[0].Plain? && children[0].token.Summary?;
            var title := if titled then children[0].token.title else "";
            var body := Condense(style, Flatten(if titled then children[1..] else children));
            Condense(style, [Open(open)] + Flatten(children) + [Close(close)] + rest)
            == (if style.noise(title) then "" else if title == "" then style.finish(body) else title + ":\n" + style.finish(body))
               + Condense(style, rest)
  {
    CondenseClosed(style, open, children, close, rest);
    TitleIsFirst(children);
    assert FlattenBlock(Details(open, children, close)) == [Open(open)] + Flatten(children) + [Close(close)];
  }

  /** Nothing is noise, and bodies are left as they are. */
  ghost predicate KeepsAll(style: Style) {
    (forall title :: !style.noise(title)) && (forall text :: style.finish(text) == text)
  }

  /**
   * The tokens one after the other: tags vanish, a summary right after an opening tag becomes a title
   * line, everything else stays as it is.
   */
  function FlatPass(tokens: seq<Token>, begun: bool): string {
    if tokens == [] then ""
    else
      match tokens[0]
      case Open(_) => FlatPass(tokens[1..], true)
      case Close(_) => FlatPass(tokens[1..], false)
      case Summary(raw, title) =>
        (if !begun then raw else if title != "" then title + ":\n" else "") + FlatPass(tokens[1..], false)
      case Text(raw) => raw + FlatPass(tokens[1..], false)
  }

  /** When nothing is noise, no text of a nested comment is lost, moved or doubled. */
  lemma NothingIsLost(style: Style, forest: seq<Block>)
    requires Proper(forest) && KeepsAll(style)
    ensures Condense(style, Flatten(forest)) == FlatPass(Flatten(forest), false)
  {
    FlatForest(style, forest, []);
    CondenseForest(style, forest, []);
    assert Flatten(forest) + [] == Flatten(forest);
  }

  lemma {:induction false} FlatForest(style: Style, forest: seq<Block>, rest: seq<Token>)
    requires Proper(forest) && KeepsAll(style)
    ensures FlatPass(Flatten(forest) + rest, false) == RenderForest(style, forest) + FlatPass(rest, false)
    decreases forest, 1
  {
    if forest == [] {
      assert Flatten(forest) + rest == rest;
    } else {
      var more := Flatten(forest[1..]) + rest;
      assert Flatten(forest) + rest == FlattenBlock(forest[0]) + more;
      FlatBlock(style, forest[0], more);
      FlatForest(style, forest[1..], rest);
      Associates(RenderTree(style, forest[0]), RenderForest(style, forest[1..]), FlatPass(rest, false));
    }
  }

  lemma {:induction false} FlatBlock(style: Style, block: Block, rest: seq<Token>)
    requires ProperBlock(block) && KeepsAll(style)
    ensures FlatPass(FlattenBlock(block) + rest, false) == RenderTree(style, block) + FlatPass(rest, false)
    decreases block, 0
  {
    match block
    case Plain(t) => assert ([t] + rest)[1..] == rest;
    case Details(open, children, close) =>
      var tail := [Close(close)] + rest;
      BlockTail(open, children, close, rest);
      assert ([Open(open)] + (Flatten(children) + tail))[1..] == Flatten(children) + tail;
      assert tail[1..] == rest;
      if Titled(children) {
        FlatForest(style, children[1..], tail);
        FlatTitle(children, tail);
      } else {
        FlatForest(style, children, tail);
        OpenedBeforeOther(children, tail);
      }
  }

  lemma FlatTitle(children: seq<Block>, tail: seq<Token>)
    requires Titled(children)
    ensures var title := children[0].token.title;
            FlatPass(Flatten(children) + tail, true)
            == (if title != "" then title + ":\n" else "") + FlatPass(Flatten(children[1..]) + tail, false)
  {
    var first, rest := children[0].token, Flatten(children[1..]);
    assert FlattenBlock(children[0]) == [first];
    assert Flatten(children) == [first] + rest;
    hide Flatten, FlattenBlock;
    assert [first] + rest + tail == [first] + (rest + tail);
    FlatHead(first, rest + tail);
  }

  lemma FlatHead(first: Token, rest: seq<Token>)
    requires first.Summary?
    ensures FlatPass([first] + rest, true) == (if first.title != "" then first.title + ":\n" else "") + FlatPass(rest, false)
  {
    assert ([first] + rest)[1..] == rest;
  }

  /** Only a summary right after an opening tag is a title. */
  lemma OpenedBeforeOther(children: seq<Block>, tail: seq<Token>)
    requires Proper(children) && !Titled(children) && tail != [] && tail[0].Close?
    ensures FlatPass(Flatten(children) + tail, true) == FlatPass(Flatten(children) + tail, false)
  {
    var all := Flatten(children) + tail;
    if children == [] {
      assert all == tail;
    } else {
      var first := FlattenBlock(children[0]);
      assert Flatten(children) == first + Flatten(children[1..]) && first != [];
      assert all[0] == first[0] && !first[0].Summary?;
    }
  }

  // ---------------------------------------------------------------- every comment

  /** A piece of a comment as a whole: a closing tag may also stand on its own. */
  datatype Piece = Nested(block: Block) | Stray(close: string)

  predicate ProperPieces(pieces: seq<Piece>) {
    forall i | 0 <= i < |pieces| && pieces[i].Nested? :: ProperBlock(pieces[i].block)
  }

  function Tokens(pieces: seq<Piece>): seq<Token> {
    if pieces == [] then [] else TokensOf(pieces[0]) + Tokens(pieces[1..])
  }

  function TokensOf(piece: Piece): seq<Token> {
    match piece
    case Nested(block) => FlattenBlock(block)
    case Stray(close) => [Close(close)]
  }

  function RenderPieces(style: Style, pieces: seq<Piece>): string {
    if pieces == [] then "" else RenderPiece(style, pieces[0]) + RenderPieces(style, pieces[1..])
  }

  function RenderPiece(style: Style, piece: Piece): string {
    match piece
    case Nested(block) => RenderTree(style, block)
    case Stray(close) => close
  }

  /** Nothing, or text from an opening tag that is never closed. */
  predicate Unclosed(tail: seq<Token>) {
    tail == [] || (tail[0].Open? && Closing(tail[1..], 1) == None)
  }

  /** Pieces are rendered one by one; from the outermost unclosed tag on everything is verbatim. */
  lemma {:induction false} CondensePieces(style: Style, pieces: seq<Piece>, tail: seq<Token>)
    requires ProperPieces(pieces) && Unclosed(tail)
    ensures Condense(style, Tokens(pieces) + tail) == RenderPieces(style, pieces) + Raw(tail)
    decreases |pieces|
  {
    if pieces == [] {
      assert Tokens(pieces) + tail == tail;
      UnclosedIsRaw(style, tail);
    } else {
      var more := Tokens(pieces[1..]) + tail;
      FirstPiece(pieces, tail);
      CondensePieces(style, pieces[1..], tail);
      CondensePiece(style, pieces[0], more);
      Associates(RenderPiece(style, pieces[0]), RenderPieces(style, pieces[1..]), Raw(tail));
    }
  }

  lemma UnclosedIsRaw(style: Style, tail: seq<Token>)
    requires Unclosed(tail)
    ensures Condense(style, tail) == Raw(tail)
  {
  }

  lemma FirstPiece(pieces: seq<Piece>, tail: seq<Token>)
    requires pieces != []
    ensures Tokens(pieces) + tail == TokensOf(pieces[0]) + (Tokens(pieces[1..]) + tail)
  {
  }

  lemma Associates(a: string, b: string, c: string)
    ensures a + (b + c) == a + b + c
  {
  }

  lemma CondensePiece(style: Style, piece: Piece, more: seq<Token>)
    requires piece.Nested? ==> ProperBlock(piece.block)
    ensures Condense(style, TokensOf(piece) + more) == RenderPiece(style, piece) + Condense(style, more)
  {
    match piece
    case Nested(block) => CondenseBlock(style, block, more);
    case Stray(close) => assert ([Close(close)] + more)[1..] == more;
  }

  /** What lies before the closing tag is properly nested. */
  lemma {:induction false} InnerIsForest(tokens: seq<Token>, j: nat) returns (forest: seq<Block>)
    requires Closing(tokens, 1) == Some(j)
    ensures Proper(forest) && Flatten(forest) == tokens[..j]
    decreases |tokens|
  {
    if tokens[0].Close? {
      return [];
    }
    if !tokens[0].Open? {
      var rest := InnerIsForest(tokens[1..], j - 1);
      forest := [Plain(tokens[0])] + rest;
      assert tokens[..j] == [tokens[0]] + tokens[1..][..j - 1];
      return;
    }
    var m := InnermostFirst(tokens[1..], 1, j - 1);
    var children := InnerIsForest(tokens[1..], m);
    var rest := InnerIsForest(tokens[m + 2..], j - m - 2);
    assert tokens[1..][m + 1..] == tokens[m + 2..];
    forest := [Details(tokens[0].raw, children, tokens[m + 1].raw)] + rest;
    Nesting(tokens, j, m, children, rest);
  }

  lemma Nesting(tokens: seq<Token>, j: nat, m: nat, children: seq<Block>, rest: seq<Block>)
    requires m + 2 <= j <= |tokens| && tokens[0].Open? && tokens[m + 1].Close?
    requires Flatten(children) == tokens[1..][..m] && Flatten(rest) == tokens[m + 2..][..j - m - 2]
    ensures Flatten([Details(tokens[0].raw, children, tokens[m + 1].raw)] + rest) == tokens[..j]
  {
    var block := Details(tokens[0].raw, children, tokens[m + 1].raw);
    var outer := [tokens[0]] + tokens[1..][..m] + [tokens[m + 1]];
    assert ([block] + rest)[1..] == rest;
    assert FlattenBlock(block) == outer;
    hide FlattenBlock;
    assert Flatten([block] + rest) == outer + Flatten(rest);
    hide Flatten;
    CutThrice(tokens, m, j);
  }

  lemma CutThrice(tokens: seq<Token>, m: nat, j: nat)
    requires m + 2 <= j <= |tokens|
    ensures tokens[..j] == [tokens[0]] + tokens[1..][..m] + [tokens[m + 1]] + tokens[m + 2..][..j - m - 2]
  {
  }

  /** A block two deep is closed one deep first; from there the outer one is closed as before. */
  lemma {:induction false} InnermostFirst(tokens: seq<Token>, depth: nat, j: nat) returns (m: nat)
    requires depth > 0 && Closing(tokens, depth + 1) == Some(j)
    ensures Closing(tokens, depth) == Some(m) && m < j && tokens[m].Close? && Closing(tokens[m + 1..], 1) == Some(j - m - 1)
    decreases |tokens|
  {
    hide Flatten;
    if tokens[0].Close? && depth == 1 {
      return 0;
    }
    var deeper := if tokens[0].Open? then depth + 1 else if tokens[0].Close? then depth - 1 else depth;
    var rest := tokens[1..];
    assert Closing(rest, deeper + 1) == Some(j - 1);
    m := InnermostFirst(rest, deeper, j - 1);
    assert Closing(tokens, depth) == Some(m + 1);
    assert rest[m + 1..] == tokens[m + 2..];
    m := m + 1;
  }

  /** Every comment is made of such pieces and such a tail, so the rendering covers all of them. */
  lemma {:induction false} EveryCommentHasPieces(tokens: seq<Token>) returns (pieces: seq<Piece>, tail: seq<Token>)
    ensures ProperPieces(pieces) && Unclosed(tail) && tokens == Tokens(pieces) + tail
    decreases |tokens|
  {
    hide Closing, Flatten;
    if tokens == [] || Unclosed(tokens) {
      return [], tokens;
    }
    var more: seq<Piece>;
    if !tokens[0].Open? {
      more, tail := EveryCommentHasPieces(tokens[1..]);
      var first := if tokens[0].Close? then Stray(tokens[0].raw) else Nested(Plain(tokens[0]));
      pieces := [first] + more;
      assert TokensOf(first) == [tokens[0]];
      assert tokens == [tokens[0]] + (Tokens(more) + tail);
    } else {
      var j := Closing(tokens[1..], 1).value;
      var children := InnerIsForest(tokens[1..], j);
      ClosedByClose(tokens[1..], 1, j);
      more, tail := EveryCommentHasPieces(tokens[j + 2..]);
      pieces := [Nested(Details(tokens[0].raw, children, tokens[j + 1].raw))] + more;
      Assembled(tokens, j, children, more, tail);
    }
    assert pieces[1..] == more;
  }

  lemma Assembled(tokens: seq<Token>, j: nat, children: seq<Block>, more: seq<Piece>, tail: seq<Token>)
    requires j + 2 <= |tokens| && tokens[0].Open? && tokens[j + 1].Close?
    requires Flatten(children) == tokens[1..][..j] && tokens[j + 2..] == Tokens(more) + tail
    ensures tokens == FlattenBlock(Details(tokens[0].raw, children, tokens[j + 1].raw)) + (Tokens(more) + tail)
  {
    assert FlattenBlock(Details(tokens[0].raw, children, tokens[j + 1].raw)) == [tokens[0]] + tokens[1..][..j] + [tokens[j + 1]];
    assert tokens == [tokens[0]] + tokens[1..][..j] + [tokens[j + 1]] + tokens[j + 2..];
  }

  lemma {:induction false} ClosedByClose(tokens: seq<Token>, depth: nat, j: nat)
    requires Closing(tokens, depth) == Some(j)
    ensures tokens[j].Close?
    decreases |tokens|
  {
    if !(tokens[0].Close? && depth <= 1) {
      var deeper := if tokens[0].Open? then depth + 1 else if tokens[0].Close? then depth - 1 else depth;
      ClosedByClose(tokens[1..], deeper, j - 1);
    }
  }

  // ---------------------------------------------------------------- noise

  predicate Noisy(style: Style, children: seq<Block>) {
    style.noise(if Titled(children) then children[0].token.title else "")
  }

  /**
   * The forest with an empty text in the place of every noise block, at any depth. The cut into tokens
   * is kept: the empty text stays where the block was, so what follows a leading noise block does not
   * become the first thing in its parent, as it would if the written comment were cut anew without it.
   */
  function Silenced(style: Style, forest: seq<Block>): seq<Block> {
    if forest == [] then [] else [SilencedBlock(style, forest[0])] + Silenced(style, forest[1..])
  }

  function SilencedBlock(style: Style, block: Block): Block {
    match block
    case Plain(_) => block
    case Details(open, children, close) =>
      if Noisy(style, children) then Plain(Text("")) else Details(open, Silenced(style, children), close)
  }

  function SilencedPieces(style: Style, pieces: seq<Piece>): seq<Piece> {
    if pieces == [] then []
    else
      var first := if pieces[0].Nested? then Nested(SilencedBlock(style, pieces[0].block)) else pieces[0];
      [first] + SilencedPieces(style, pieces[1..])
  }

  /** No block at any depth is noise. */
  predicate NoNoise(style: Style, forest: seq<Block>) {
    forall i | 0 <= i < |forest| :: NoNoiseIn(style, forest[i])
  }

  predicate NoNoiseIn(style: Style, block: Block) {
    block.Details? ==> !Noisy(style, block.children) && NoNoise(style, block.children)
  }

  /** Silencing leaves no noise, keeps the nesting, and does not change the rendering. */
  lemma {:induction false} SilencingIsInaudible(style: Style, forest: seq<Block>)
    requires Proper(forest)
    ensures var quiet := Silenced(style, forest);
            && NoNoise(style, quiet) && Proper(quiet) && RenderForest(style, quiet) == RenderForest(style, forest)
            && |quiet| == |forest| && (forest != [] ==> quiet[0] == SilencedBlock(style, forest[0])
                                                        && quiet[1..] == Silenced(style, forest[1..]))
    decreases forest, 1
  {
    if forest != [] {
      SilencedBlockIsInaudible(style, forest[0]);
      SilencingIsInaudible(style, forest[1..]);
    }
  }

  lemma {:induction false} SilencedBlockIsInaudible(style: Style, block: Block)
    requires ProperBlock(block)
    ensures var quiet := SilencedBlock(style, block);
            NoNoiseIn(style, quiet) && ProperBlock(quiet) && RenderTree(style, quiet) == RenderTree(style, block)
    decreases block, 0
  {
    if block.Details? && !Noisy(style, block.children) {
      var children := block.children;
      SilencingIsInaudible(style, children);
      if children != [] { SilencingIsInaudible(style, children[1..]); }
    }
  }

  lemma {:induction false} SilencedPiecesAreInaudible(style: Style, pieces: seq<Piece>)
    requires ProperPieces(pieces)
    ensures var quiet := SilencedPieces(style, pieces);
            && ProperPieces(quiet) && RenderPieces(style, quiet) == RenderPieces(style, pieces)
            && (forall i | 0 <= i < |quiet| && quiet[i].Nested? :: NoNoiseIn(style, quiet[i].block))
  {
    if pieces != [] {
      if pieces[0].Nested? { SilencedBlockIsInaudible(style, pieces[0].block); }
      SilencedPiecesAreInaudible(style, pieces[1..]);
      var more := SilencedPieces(style, pieces[1..]);
      assert SilencedPieces(style, pieces)[1..] == more;
    }
  }

  /**
   * Nothing inside a noise block survives, however deep it lies: every comment is condensed as if an
   * empty text stood there, so comments that differ only inside noise are condensed alike.
   */
  lemma NoiseIsDropped(style: Style, pieces: seq<Piece>, others: seq<Piece>, tail: seq<Token>)
    requires ProperPieces(pieces) && ProperPieces(others) && Unclosed(tail)
    requires SilencedPieces(style, pieces) == SilencedPieces(style, others)
    ensures forall i | 0 <= i < |SilencedPieces(style, pieces)| && SilencedPieces(style, pieces)[i].Nested? ::
              NoNoiseIn(style, SilencedPieces(style, pieces)[i].block)
    ensures Condense(style, Tokens(pieces) + tail) == Condense(style, Tokens(SilencedPieces(style, pieces)) + tail)
    ensures Condense(style, Tokens(pieces) + tail) == Condense(style, Tokens(others) + tail)
  {
    SilencedPiecesAreInaudible(style, pieces);
    SilencedPiecesAreInaudible(style, others);
    CondensePieces(style, pieces, tail);
    CondensePieces(style, others, tail);
    CondensePieces(style, SilencedPieces(style, pieces), tail);
  }
}
