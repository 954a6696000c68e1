/**
 * What the opening-tree builder guarantees, for every implementation of
 * the chess rules: the shape of each level, the lines the tree flattens
 * to, how many there are, and when the builder raises.
 */
module TreeProperties {
  import opened Wrappers
  import opened Tree
  import Parser

  // ---------------------------------------------------------------------
  // Vocabulary
  // ---------------------------------------------------------------------

  /** No fixed move is the empty string (true of everything the parser emits). */
  predicate NoEmptyTokens(moves: seq<Option<string>>) {
    forall i :: 0 <= i < |moves| && moves[i].Some? ==> moves[i].value != ""
  }

  /** The rules library never prints a move as the empty string. */
  ghost predicate SanNonEmpty<B(!new), M(!new)>(rules: Rules<B, M>) {
    forall b, m :: rules.san(b, m) != ""
  }

  /** No position is terminal: every board has a legal move. */
  ghost predicate EveryPositionHasMoves<B(!new), M(!new)>(rules: Rules<B, M>) {
    forall b :: rules.legalMoves(b) != []
  }

  /**
   * No expansion from `board` along `moves` meets a wildcard in a position
   * without legal moves (mate or stalemate). A fixed token that does not
   * parse ends the check: the builder raises there instead.
   */
  predicate NoDeadEnd<B, M>(rules: Rules<B, M>, board: B, moves: seq<Option<string>>)
    decreases |moves|
  {
    moves == []
    || match moves[0]
       case None =>
         && rules.legalMoves(board) != []
         && forall k :: 0 <= k < |rules.legalMoves(board)| ==>
              NoDeadEnd(rules, rules.push(board, rules.legalMoves(board)[k]), moves[1..])
       case Some(token) =>
         rules.parseSan(board, token).Some? ==>
           NoDeadEnd(rules, rules.push(board, rules.parseSan(board, token).value), moves[1..])
  }

  /**
   * Every fixed token parses on the board where the expansion from `board`
   * along `moves` plays it: the condition under which the builder does not raise.
   */
  predicate AllParse<B, M>(rules: Rules<B, M>, board: B, moves: seq<Option<string>>)
    decreases |moves|
  {
    moves == []
    || match moves[0]
       case None =>
         forall k :: 0 <= k < |rules.legalMoves(board)| ==>
           AllParse(rules, rules.push(board, rules.legalMoves(board)[k]), moves[1..])
       case Some(token) =>
         && rules.parseSan(board, token).Some?
         && AllParse(rules, rules.push(board, rules.parseSan(board, token).value), moves[1..])
  }

  /**
   * Line `l`, produced below a node whose path is `p`, follows the move list
   * `moves`: it extends `p` by at most one move per token, holds each fixed
   * token at its own ply, and stops early only at a wildcard.
   */
  predicate Fits(l: seq<string>, p: seq<string>, moves: seq<Option<string>>) {
    |p| <= |l| <= |p| + |moves|
    && l[..|p|] == p
    && (forall i :: |p| <= i < |l| && moves[i - |p|].Some? ==> l[i] == moves[i - |p|].value)
    && (|l| < |p| + |moves| ==> moves[|l| - |p|] == None)
  }

  /** The fixed tokens of `moves`, in order. */
  function FixedMoves(moves: seq<Option<string>>): seq<string> {
    if moves == [] then []
    else (if moves[0].Some? then [moves[0].value] else []) + FixedMoves(moves[1..])
  }

  /** Number of wildcards in `moves`. */
  function CountWildcards(moves: seq<Option<string>>): nat {
    if moves == [] then 0 else (if moves[0] == None then 1 else 0) + CountWildcards(moves[1..])
  }

  function Pow(k: nat, n: nat): nat {
    if n == 0 then 1 else k * Pow(k, n - 1)
  }

  /** Every line of `ls`, with `q` put in front. */
  function Prefixed(q: seq<string>, ls: seq<seq<string>>): (r: seq<seq<string>>)
    ensures |r| == |ls|
    ensures forall i :: 0 <= i < |ls| ==> r[i] == q + ls[i]
  {
    if ls == [] then [] else Prefixed(q, ls[..|ls| - 1]) + [q + ls[|ls| - 1]]
  }

  // ---------------------------------------------------------------------
  // flatten and line_count
  // ---------------------------------------------------------------------

  /**
   * The prefix only stands in front: the lines from `q + r` are the lines
   * from `r`, each preceded by `q`.
   */
  lemma {:induction false} LinesPrefixed(n: MoveNode, q: seq<string>, r: seq<string>)
    ensures Lines(n, q + r) == Prefixed(q, Lines(n, r))
    decreases n, 1
  {
    assert Current(n, q + r) == q + Current(n, r);
    if n.children == [] {
      assert q + Current(n, r) == q + (if Current(n, r) != [] then Current(n, r) else []);
    } else {
      ChildrenPrefixed(n.children, q, Current(n, r));
    }
  }

  /** `LinesPrefixed` for a list of children. */
  lemma {:induction false} ChildrenPrefixed(cs: seq<MoveNode>, q: seq<string>, r: seq<string>)
    ensures LinesOfChildren(cs, q + r) == Prefixed(q, LinesOfChildren(cs, r))
    decreases cs, 0
  {
    if cs != [] {
      ChildrenPrefixed(cs[..|cs| - 1], q, r);
      LinesPrefixed(cs[|cs| - 1], q, r);
    }
  }

  /** Each line of the children is a line of one of them. */
  lemma {:induction false} InLinesOfChildren(cs: seq<MoveNode>, prefix: seq<string>, l: seq<string>)
    returns (k: nat)
    requires l in LinesOfChildren(cs, prefix)
    ensures k < |cs| && l in Lines(cs[k], prefix)
  {
    var init := cs[..|cs| - 1];
    if l in LinesOfChildren(init, prefix) {
      k := InLinesOfChildren(init, prefix, l);
      assert cs[k] == init[k];
    } else {
      k := |cs| - 1;
    }
  }

  /** The line of the childless node `n` lies in the children's lines once `n` is one of them. */
  lemma {:induction false} InLinesOfChild(cs: seq<MoveNode>, k: nat, prefix: seq<string>, l: seq<string>)
    requires k < |cs| && l in Lines(cs[k], prefix)
    ensures l in LinesOfChildren(cs, prefix)
  {
    var init := cs[..|cs| - 1];
    if k < |cs| - 1 {
      assert cs[k] == init[k];
      InLinesOfChild(init, k, prefix, l);
    }
  }

  /** `path` lists child indices that lead from `n` down to a childless node. */
  predicate IsLeafPath(n: MoveNode, path: seq<nat>)
    decreases n
  {
    if path == [] then n.children == []
    else path[0] < |n.children| && IsLeafPath(n.children[path[0]], path[1..])
  }

  /** The moves met along `path` below `n`, after `prefix`, as `Current` collects them. */
  function PathLine(n: MoveNode, path: seq<nat>, prefix: seq<string>): seq<string>
    decreases n
  {
    if path == [] || path[0] >= |n.children| then Current(n, prefix)
    else PathLine(n.children[path[0]], path[1..], Current(n, prefix))
  }

  /** Every root-to-leaf path gives one of the lines `flatten` returns. */
  lemma {:induction false} LeafPathInLines(n: MoveNode, path: seq<nat>, prefix: seq<string>)
    requires IsLeafPath(n, path)
    ensures PathLine(n, path, prefix) in Lines(n, prefix)
    decreases n
  {
    if path != [] {
      var k := path[0];
      LeafPathInLines(n.children[k], path[1..], Current(n, prefix));
      InLinesOfChild(n.children, k, Current(n, prefix), PathLine(n, path, prefix));
    }
  }

  /** Every line `flatten` returns is the line of some root-to-leaf path. */
  lemma {:induction false} LineOfLeafPath(n: MoveNode, prefix: seq<string>, l: seq<string>)
    returns (path: seq<nat>)
    requires l in Lines(n, prefix)
    ensures IsLeafPath(n, path) && PathLine(n, path, prefix) == l
    decreases n
  {
    if n.children == [] {
      path := [];
    } else {
      var k := InLinesOfChildren(n.children, Current(n, prefix), l);
      var rest := LineOfLeafPath(n.children[k], Current(n, prefix), l);
      path := [k] + rest;
      assert path[1..] == rest;
    }
  }

  /** A childless root flattens to the single empty line: the root's `None` is never part of a line. */
  lemma LeafRootLines(fen: string)
    ensures Lines(MoveNode(None, fen, []), []) == [[]]
    ensures LineCount(MoveNode(None, fen, [])) == 1
  {
  }

  /** A sum of equal line counts is their product. */
  lemma {:induction false} SumOfEqualCounts(cs: seq<MoveNode>, v: nat)
    requires forall j :: 0 <= j < |cs| ==> LineCount(cs[j]) == v
    ensures SumLineCounts(cs) == |cs| * v
  {
    if cs != [] {
      var init := cs[..|cs| - 1];
      assert forall j :: 0 <= j < |init| ==> init[j] == cs[j];
      SumOfEqualCounts(init, v);
      assert SumLineCounts(cs) == |init| * v + v;
      MultiplySucc(|init|, v);
    }
  }

  /** One more factor of `v`: kept apart so the solver meets the product on its own. */
  lemma MultiplySucc(n: nat, v: nat)
    ensures (n + 1) * v == n * v + v
  {
  }

  // ---------------------------------------------------------------------
  // One level of _expand_moves
  // ---------------------------------------------------------------------

  /**
   * A fixed token: if the position cannot parse it the builder raises
   * "Illegal move" naming the token and the position; otherwise it makes
   * exactly one child carrying the token verbatim.
   */
  lemma FixedMoveLevel<B, M>(rules: Rules<B, M>, board: B, moves: seq<Option<string>>)
    requires moves != [] && moves[0].Some?
    ensures rules.parseSan(board, moves[0].value) == None ==>
      Expansion(rules, board, moves) == Err(IllegalMove(moves[0].value, rules.fen(board)))
    ensures Expansion(rules, board, moves).Ok? ==>
      var cs := Expansion(rules, board, moves).value;
      && rules.parseSan(board, moves[0].value).Some?
      && var next := rules.push(board, rules.parseSan(board, moves[0].value).value);
      && |cs| == 1
      && cs[0].move == moves[0]
      && cs[0].fen == rules.fen(next)
      && Expansion(rules, next, moves[1..]) == Ok(cs[0].children)
  {
  }

  /** The wildcard loop makes one child per legal move, in order, with that move's SAN and position. */
  lemma {:induction false} BranchesShape<B, M>(
    rules: Rules<B, M>, board: B, legal: seq<M>, remaining: seq<Option<string>>, cs: seq<MoveNode>)
    requires Branches(rules, board, legal, remaining) == Ok(cs)
    ensures |cs| == |legal|
    ensures forall k :: 0 <= k < |cs| ==>
      && cs[k].move == Some(rules.san(board, legal[k]))
      && cs[k].fen == rules.fen(rules.push(board, legal[k]))
      && Expansion(rules, rules.push(board, legal[k]), remaining) == Ok(cs[k].children)
    decreases |legal|
  {
    if legal != [] {
      var init := legal[..|legal| - 1];
      var before := Branches(rules, board, init, remaining).value;
      BranchesShape(rules, board, init, remaining, before);
      assert cs[..|cs| - 1] == before;
      forall k | 0 <= k < |cs| - 1
        ensures cs[k] == before[k] && legal[k] == init[k]
      {
      }
    }
  }

  /** A wildcard: one child per legal move of the position, in the library's order. */
  lemma WildcardLevel<B, M>(rules: Rules<B, M>, board: B, moves: seq<Option<string>>, cs: seq<MoveNode>)
    requires moves != [] && moves[0] == None
    requires Expansion(rules, board, moves) == Ok(cs)
    ensures |cs| == |rules.legalMoves(board)|
    ensures forall k :: 0 <= k < |cs| ==>
      var m := rules.legalMoves(board)[k];
      && cs[k].move == Some(rules.san(board, m))
      && cs[k].fen == rules.fen(rules.push(board, m))
      && Expansion(rules, rules.push(board, m), moves[1..]) == Ok(cs[k].children)
  {
    BranchesShape(rules, board, rules.legalMoves(board), moves[1..], cs);
  }

  /** A level is empty only at the end of the moves or at a wildcard in a position without legal moves. */
  lemma EmptyLevel<B, M>(rules: Rules<B, M>, board: B, moves: seq<Option<string>>)
    requires Expansion(rules, board, moves) == Ok([])
    ensures moves == [] || (moves[0] == None && rules.legalMoves(board) == [])
  {
    if moves != [] && moves[0] == None {
      WildcardLevel(rules, board, moves, []);
    }
  }

  // ---------------------------------------------------------------------
  // Errors
  // ---------------------------------------------------------------------

  /**
   * The "Illegal move" error always names one of the fixed tokens, and there
   * is a board `b` on which that token does not parse and whose FEN is the
   * one the error carries.
   */
  lemma {:induction false} ErrorNamesFixedToken<B, M>(rules: Rules<B, M>, board: B, moves: seq<Option<string>>)
    returns (b: B)
    requires Expansion(rules, board, moves).Err?
    ensures Some(Expansion(rules, board, moves).error.move) in moves
    ensures rules.parseSan(b, Expansion(rules, board, moves).error.move) == None
    ensures rules.fen(b) == Expansion(rules, board, moves).error.fen
    decreases |moves|, 1, 0
  {
    match moves[0]
    case None =>
      b := BranchesErrorNamesFixedToken(rules, board, rules.legalMoves(board), moves[1..]);
      assert moves == [moves[0]] + moves[1..];
    case Some(token) =>
      if rules.parseSan(board, token).Some? {
        var next := rules.push(board, rules.parseSan(board, token).value);
        b := ErrorNamesFixedToken(rules, next, moves[1..]);
        assert moves == [moves[0]] + moves[1..];
      } else {
        b := board;
      }
  }

  /** `ErrorNamesFixedToken` for the wildcard loop. */
  lemma {:induction false} BranchesErrorNamesFixedToken<B, M>(
    rules: Rules<B, M>, board: B, legal: seq<M>, remaining: seq<Option<string>>)
    returns (b: B)
    requires Branches(rules, board, legal, remaining).Err?
    ensures Some(Branches(rules, board, legal, remaining).error.move) in remaining
    ensures rules.parseSan(b, Branches(rules, board, legal, remaining).error.move) == None
    ensures rules.fen(b) == Branches(rules, board, legal, remaining).error.fen
    decreases |remaining| + 1, 0, |legal|
  {
    var init := legal[..|legal| - 1];
    if Branches(rules, board, init, remaining).Err? {
      b := BranchesErrorNamesFixedToken(rules, board, init, remaining);
    } else {
      b := ErrorNamesFixedToken(rules, rules.push(board, legal[|legal| - 1]), remaining);
    }
  }

  /**
   * The builder raises exactly when some fixed token fails to parse on the
   * board where the expansion plays it.
   */
  lemma {:induction false} ExpansionOkIff<B, M>(rules: Rules<B, M>, board: B, moves: seq<Option<string>>)
    ensures Expansion(rules, board, moves).Ok? <==> AllParse(rules, board, moves)
    decreases |moves|, 1, 0
  {
    if moves != [] {
      match moves[0]
      case None =>
        BranchesOkIff(rules, board, rules.legalMoves(board), moves[1..]);
      case Some(token) =>
        if rules.parseSan(board, token).Some? {
          ExpansionOkIff(rules, rules.push(board, rules.parseSan(board, token).value), moves[1..]);
        }
    }
  }

  /** `expand_wildcards` on parsed moves raises exactly when a fixed token fails to parse where it is played. */
  lemma OpeningTreeOkIff<B, M>(rules: Rules<B, M>, moves: seq<Option<string>>)
    ensures OpeningTree(rules, moves).Ok? <==> AllParse(rules, rules.initial, moves)
  {
    ExpansionOkIff(rules, rules.initial, moves);
  }

  /** The wildcard loop succeeds exactly when every pushed legal move expands without raising. */
  lemma {:induction false} BranchesOkIff<B, M>(
    rules: Rules<B, M>, board: B, legal: seq<M>, remaining: seq<Option<string>>)
    ensures Branches(rules, board, legal, remaining).Ok?
        <==> forall k :: 0 <= k < |legal| ==> AllParse(rules, rules.push(board, legal[k]), remaining)
    decreases |remaining| + 1, 0, |legal|
  {
    if legal != [] {
      var init := legal[..|legal| - 1];
      assert forall k :: 0 <= k < |init| ==> init[k] == legal[k];
      BranchesOkIff(rules, board, init, remaining);
      ExpansionOkIff(rules, rules.push(board, legal[|legal| - 1]), remaining);
    }
  }

  /** The builder raises only for a token the rules cannot parse: if every fixed token parses, a tree is returned. */
  lemma {:induction false} ParsableNeverFails<B, M>(rules: Rules<B, M>, board: B, moves: seq<Option<string>>)
    requires forall b, t :: Some(t) in moves ==> rules.parseSan(b, t).Some?
    ensures Expansion(rules, board, moves).Ok?
    decreases |moves|, 1, 0
  {
    if moves != [] {
      match moves[0]
      case None =>
        BranchesParsableNeverFail(rules, board, rules.legalMoves(board), moves[1..]);
      case Some(token) =>
        ParsableNeverFails(rules, rules.push(board, rules.parseSan(board, token).value), moves[1..]);
    }
  }

  /** `ParsableNeverFails` for the wildcard loop. */
  lemma {:induction false} BranchesParsableNeverFail<B, M>(
    rules: Rules<B, M>, board: B, legal: seq<M>, remaining: seq<Option<string>>)
    requires forall b, t :: Some(t) in remaining ==> rules.parseSan(b, t).Some?
    ensures Branches(rules, board, legal, remaining).Ok?
    decreases |remaining| + 1, 0, |legal|
  {
    if legal != [] {
      BranchesParsableNeverFail(rules, board, legal[..|legal| - 1], remaining);
      ParsableNeverFails(rules, rules.push(board, legal[|legal| - 1]), remaining);
    }
  }

  // ---------------------------------------------------------------------
  // Lines of the expanded tree
  // ---------------------------------------------------------------------

  /** A line that fits the tokens after `x` below path `p + [x]` fits all the tokens below `p`. */
  lemma FitsCons(l: seq<string>, p: seq<string>, x: string, moves: seq<Option<string>>)
    requires moves != [] && (moves[0] == None || moves[0] == Some(x))
    requires Fits(l, p + [x], moves[1..])
    ensures Fits(l, p, moves)
  {
    assert l[..|p| + 1] == p + [x];
    assert l[..|p|] == (p + [x])[..|p|];
    assert l[|p|] == (p + [x])[|p|];
    forall i | |p| <= i < |l| && moves[i - |p|].Some?
      ensures l[i] == moves[i - |p|].value
    {
      if i > |p| {
        assert moves[1..][i - (|p| + 1)] == moves[i - |p|];
      }
    }
    if |l| < |p| + |moves| {
      assert moves[1..][|l| - (|p| + 1)] == moves[|l| - |p|];
    }
  }

  /** Every line below a level built from `moves` fits `moves`, and has full length when no dead end is met. */
  lemma {:induction false} LevelLinesFit<B(!new), M(!new)>(
    rules: Rules<B, M>, board: B, moves: seq<Option<string>>, cs: seq<MoveNode>, p: seq<string>, l: seq<string>)
    requires Expansion(rules, board, moves) == Ok(cs)
    requires NoEmptyTokens(moves) && SanNonEmpty(rules)
    requires l in LinesOfChildren(cs, p)
    ensures Fits(l, p, moves)
    ensures NoDeadEnd(rules, board, moves) ==> |l| == |p| + |moves|
    decreases |moves|, 1
  {
    var k := InLinesOfChildren(cs, p, l);
    match moves[0]
    case None =>
      WildcardLevel(rules, board, moves, cs);
      var m := rules.legalMoves(board)[k];
      NodeLinesFit(rules, rules.push(board, m), moves, cs[k], p, l);
    case Some(token) =>
      FixedMoveLevel(rules, board, moves);
      var next := rules.push(board, rules.parseSan(board, token).value);
      NodeLinesFit(rules, next, moves, cs[k], p, l);
  }

  /** Every line through a child made for the first token fits `moves`. */
  lemma {:induction false} NodeLinesFit<B(!new), M(!new)>(
    rules: Rules<B, M>, next: B, moves: seq<Option<string>>, c: MoveNode, p: seq<string>, l: seq<string>)
    requires moves != [] && c.move.Some? && c.move.value != ""
    requires moves[0] == None || moves[0] == c.move
    requires Expansion(rules, next, moves[1..]) == Ok(c.children)
    requires NoEmptyTokens(moves) && SanNonEmpty(rules)
    requires l in Lines(c, p)
    ensures Fits(l, p, moves)
    ensures NoDeadEnd(rules, next, moves[1..]) ==> |l| == |p| + |moves|
    decreases |moves|, 0
  {
    var x := c.move.value;
    var q := p + [x];
    assert Current(c, p) == q;
    if c.children == [] {
      assert l == q;
      EmptyLevel(rules, next, moves[1..]);
      if |moves| > 1 {
        assert moves[1..][0] == moves[|l| - |p|];
      }
      assert q[..|p|] == p;
    } else {
      assert NoEmptyTokens(moves[1..]) by {
        forall i | 0 <= i < |moves[1..]| && moves[1..][i].Some?
          ensures moves[1..][i].value != ""
        {
          assert moves[1..][i] == moves[i + 1];
        }
      }
      LevelLinesFit(rules, next, moves[1..], c.children, q, l);
      FitsCons(l, p, x, moves);
    }
  }

  /**
   * Every line of the tree built from `moves` is at most as long as
   * `moves`, holds each fixed token at its own ply, and is shorter only when
   * the token after its last move is a wildcard. Every line has exactly one
   * move per token if and only if the expansion meets no wildcard in a
   * position without legal moves.
   */
  lemma TreeLinesFit<B(!new), M(!new)>(rules: Rules<B, M>, moves: seq<Option<string>>, root: MoveNode)
    requires OpeningTree(rules, moves) == Ok(root)
    requires NoEmptyTokens(moves) && SanNonEmpty(rules)
    ensures forall l :: l in Lines(root, []) ==> Fits(l, [], moves)
    ensures (forall l :: l in Lines(root, []) ==> |l| == |moves|) <==> NoDeadEnd(rules, rules.initial, moves)
    ensures EveryPositionHasMoves(rules) ==> forall l :: l in Lines(root, []) ==> |l| == |moves|
  {
    if root.children == [] {
      EmptyLevel(rules, rules.initial, moves);
    } else {
      assert Current(root, []) == [];
      forall l | l in Lines(root, [])
        ensures Fits(l, [], moves)
        ensures NoDeadEnd(rules, rules.initial, moves) ==> |l| == |moves|
      {
        LevelLinesFit(rules, rules.initial, moves, root.children, [], l);
      }
    }
    if !NoDeadEnd(rules, rules.initial, moves) {
      var l := DeadEndShortLine(rules, rules.initial, moves, root, []);
      assert Current(root, []) == [];
    }
    if EveryPositionHasMoves(rules) {
      EveryPositionNoDeadEnd(rules, rules.initial, moves);
    }
  }

  /**
   * A dead end below `c` shows in its lines: some line through `c` stops
   * before the tokens run out.
   */
  lemma {:induction false} DeadEndShortLine<B(!new), M(!new)>(
    rules: Rules<B, M>, board: B, moves: seq<Option<string>>, c: MoveNode, p: seq<string>)
    returns (l: seq<string>)
    requires Expansion(rules, board, moves) == Ok(c.children)
    requires !NoDeadEnd(rules, board, moves)
    requires NoEmptyTokens(moves) && SanNonEmpty(rules)
    ensures l in Lines(c, p) && |l| < |Current(c, p)| + |moves|
    decreases |moves|
  {
    var q := Current(c, p);
    if c.children == [] {
      l := q;
      assert Lines(c, p) == [q];
    } else {
      assert NoEmptyTokens(moves[1..]) by {
        forall i | 0 <= i < |moves[1..]| && moves[1..][i].Some?
          ensures moves[1..][i].value != ""
        {
          assert moves[1..][i] == moves[i + 1];
        }
      }
      var k: nat, next: B;
      match moves[0] {
        case None =>
          WildcardLevel(rules, board, moves, c.children);
          k :| k < |rules.legalMoves(board)| && !NoDeadEnd(rules, rules.push(board, rules.legalMoves(board)[k]), moves[1..]);
          next := rules.push(board, rules.legalMoves(board)[k]);
        case Some(token) =>
          FixedMoveLevel(rules, board, moves);
          k := 0;
          next := rules.push(board, rules.parseSan(board, token).value);
      }
      var child := c.children[k];
      assert child.move.Some? && child.move.value != "";
      l := DeadEndShortLine(rules, next, moves[1..], child, q);
      InLinesOfChild(c.children, k, q, l);
    }
  }

  /** When no position is terminal, no expansion meets a dead end. */
  lemma {:induction false} EveryPositionNoDeadEnd<B(!new), M(!new)>(
    rules: Rules<B, M>, board: B, moves: seq<Option<string>>)
    requires EveryPositionHasMoves(rules)
    ensures NoDeadEnd(rules, board, moves)
    decreases |moves|
  {
    if moves != [] {
      match moves[0]
      case None =>
        forall k | 0 <= k < |rules.legalMoves(board)|
          ensures NoDeadEnd(rules, rules.push(board, rules.legalMoves(board)[k]), moves[1..])
        {
          EveryPositionNoDeadEnd(rules, rules.push(board, rules.legalMoves(board)[k]), moves[1..]);
        }
      case Some(token) =>
        if rules.parseSan(board, token).Some? {
          EveryPositionNoDeadEnd(rules, rules.push(board, rules.parseSan(board, token).value), moves[1..]);
        }
    }
  }

  /**
   * A wildcard in a position without legal moves ends the level: no child
   * is made and the tokens after it are never looked at.
   */
  lemma TerminalWildcardIgnoresRest<B, M>(rules: Rules<B, M>, board: B, rest: seq<Option<string>>)
    requires rules.legalMoves(board) == []
    ensures Expansion(rules, board, [None] + rest) == Ok([])
  {
    assert ([None] + rest)[1..] == rest;
  }

  /** Without wildcards every level has one child, so the tree is one line: the tokens themselves. */
  lemma {:induction false} SingleLineLevel<B, M>(
    rules: Rules<B, M>, board: B, moves: seq<Option<string>>, cs: seq<MoveNode>, p: seq<string>)
    requires moves != [] && None !in moves && NoEmptyTokens(moves)
    requires Expansion(rules, board, moves) == Ok(cs)
    ensures LinesOfChildren(cs, p) == [p + FixedMoves(moves)]
    decreases |moves|
  {
    FixedMoveLevel(rules, board, moves);
    var c := cs[0];
    var x := moves[0].value;
    var next := rules.push(board, rules.parseSan(board, x).value);
    assert Current(c, p) == p + [x];
    assert cs[..0] == [];
    assert LinesOfChildren(cs, p) == Lines(c, p);
    var rest := moves[1..];
    assert FixedMoves(moves) == [x] + FixedMoves(rest);
    if rest == [] {
      assert c.children == [];
      assert Lines(c, p) == [p + [x]];
      assert FixedMoves(moves) == [x];
    } else {
      assert NoEmptyTokens(rest) by {
        forall i | 0 <= i < |rest| && rest[i].Some? ensures rest[i].value != "" {
          assert rest[i] == moves[i + 1];
        }
      }
      assert None !in rest by {
        forall i | 0 <= i < |rest| ensures rest[i] != None { assert rest[i] == moves[i + 1]; }
      }
      FixedMoveLevel(rules, next, rest);
      SingleLineLevel(rules, next, rest, c.children, p + [x]);
      assert (p + [x]) + FixedMoves(rest) == p + FixedMoves(moves);
    }
  }

  /** With no wildcards the tree has exactly one line, equal to the token list. */
  lemma NoWildcardsSingleLine<B, M>(rules: Rules<B, M>, moves: seq<Option<string>>, root: MoveNode)
    requires None !in moves && NoEmptyTokens(moves)
    requires OpeningTree(rules, moves) == Ok(root)
    ensures Lines(root, []) == [FixedMoves(moves)]
    ensures LineCount(root) == 1
  {
    if moves == [] {
      assert root.move == None && root.children == [];
      assert Lines(root, []) == [[]];
      assert FixedMoves(moves) == [];
    } else {
      assert Current(root, []) == [];
      FixedMoveLevel(rules, rules.initial, moves);
      SingleLineLevel(rules, rules.initial, moves, root.children, []);
      assert [] + FixedMoves(moves) == FixedMoves(moves);
    }
    LineCountIsLineTotal(root, []);
  }

  // ---------------------------------------------------------------------
  // Counting
  // ---------------------------------------------------------------------

  /**
   * When every position has exactly `k >= 1` legal moves, a level built
   * from `moves` holds `k` to the power of the number of wildcards lines.
   */
  lemma {:induction false} LevelLineCount<B, M>(
    rules: Rules<B, M>, board: B, moves: seq<Option<string>>, cs: seq<MoveNode>, k: nat)
    requires k >= 1 && forall b :: |rules.legalMoves(b)| == k
    requires Expansion(rules, board, moves) == Ok(cs)
    ensures (if cs == [] then 1 else SumLineCounts(cs)) == Pow(k, CountWildcards(moves))
    decreases |moves|
  {
    if moves != [] {
      var rest := moves[1..];
      var v := Pow(k, CountWildcards(rest));
      match moves[0]
      case None =>
        WildcardLevel(rules, board, moves, cs);
        forall j | 0 <= j < |cs| ensures LineCount(cs[j]) == v {
          LevelLineCount(rules, rules.push(board, rules.legalMoves(board)[j]), rest, cs[j].children, k);
        }
        SumOfEqualCounts(cs, v);
      case Some(token) =>
        FixedMoveLevel(rules, board, moves);
        var next := rules.push(board, rules.parseSan(board, token).value);
        LevelLineCount(rules, next, rest, cs[0].children, k);
        assert cs[..0] == [];
    }
  }

  /** Uniform branching `k`: the tree has `k` to the power of the number of wildcards lines, and `flatten` returns that many. */
  lemma UniformBranchingCount<B, M>(rules: Rules<B, M>, moves: seq<Option<string>>, root: MoveNode, k: nat)
    requires k >= 1 && forall b :: |rules.legalMoves(b)| == k
    requires OpeningTree(rules, moves) == Ok(root)
    ensures LineCount(root) == Pow(k, CountWildcards(moves))
    ensures |Lines(root, [])| == Pow(k, CountWildcards(moves))
  {
    LevelLineCount(rules, rules.initial, moves, root.children, k);
    LineCountIsLineTotal(root, []);
  }

  // ---------------------------------------------------------------------
  // expand_wildcards on a string
  // ---------------------------------------------------------------------

  /** Empty or whitespace-only input: the root alone, at the starting position, with the single empty line. */
  lemma BlankInputTree<B, M>(rules: Rules<B, M>, s: string, wildcard: string)
    requires forall i :: 0 <= i < |s| ==> Parser.IsWhitespace(s[i])
    ensures OpeningTree(rules, Parser.ParseMoves(Parser.Split(s), wildcard))
         == Ok(MoveNode(None, rules.fen(rules.initial), []))
    ensures Lines(MoveNode(None, rules.fen(rules.initial), []), []) == [[]]
  {
    Parser.BlankInputNoMoves(s, wildcard);
  }

  /** The lines of a tree built from a string follow its parsed moves. */
  lemma ExpandedLinesFollowInput<B(!new), M(!new)>(rules: Rules<B, M>, s: string, wildcard: string, root: MoveNode)
    requires SanNonEmpty(rules)
    requires OpeningTree(rules, Parser.ParseMoves(Parser.Split(s), wildcard)) == Ok(root)
    ensures forall l :: l in Lines(root, []) ==> Fits(l, [], Parser.ParseMoves(Parser.Split(s), wildcard))
    ensures (forall l :: l in Lines(root, []) ==> |l| == |Parser.ParseMoves(Parser.Split(s), wildcard)|)
        <==> NoDeadEnd(rules, rules.initial, Parser.ParseMoves(Parser.Split(s), wildcard))
    ensures EveryPositionHasMoves(rules) ==>
      forall l :: l in Lines(root, []) ==> |l| == |Parser.ParseMoves(Parser.Split(s), wildcard)|
  {
    var moves := Parser.ParseMoves(Parser.Split(s), wildcard);
    Parser.ParsedMovesAreWords(s, wildcard);
    TreeLinesFit(rules, moves, root);
  }
}
