/**
 * The opening-tree builder: the parsed move list becomes a tree whose fixed
 * moves give one child and whose wildcards branch over every legal move.
 *
 * The chess rules library is not part of this model. Its five queries, plus
 * the starting board, are passed in as a `Rules` value over an abstract
 * board type `B` and move type `M`.
 */
module Tree {
  import opened Wrappers
  import Parser

  /** The chess rules library, as the tree builder uses it. */
  datatype Rules<!B, !M> = Rules(
    initial: B,                          // `chess.Board()`: the starting position
    legalMoves: B -> seq<M>,             // `board.legal_moves`, in the library's order
    san: (B, M) -> string,               // `board.san(move)`
    push: (B, M) -> B,                   // `board.copy()` then `push(move)`
    fen: B -> string,                    // `board.fen()`
    parseSan: (B, string) -> Option<M>)  // `board.parse_san(token)`; `None` where it raises

  /** A node of the tree: the move that led here (`None` at the root), the position, the continuations. */
  datatype MoveNode = MoveNode(move: Option<string>, fen: string, children: seq<MoveNode>)

  /** The `ValueError` raised for a fixed move the position does not allow. */
  datatype TreeError = IllegalMove(move: string, fen: string)

  // ---------------------------------------------------------------------
  // flatten and line_count
  // ---------------------------------------------------------------------

  /**
   * The path to this node: the prefix extended by the node's move. A move
   * that is `None` or empty is skipped, as Python's `if self.move` does.
   */
  function Current(n: MoveNode, prefix: seq<string>): (r: seq<string>)
    ensures |prefix| <= |r| <= |prefix| + 1 && r[..|prefix|] == prefix
    ensures |r| == |prefix| + 1 <==> n.move.Some? && n.move.value != ""
    ensures |r| == |prefix| + 1 ==> r[|prefix|] == n.move.value
  {
    if n.move.Some? && n.move.value != "" then prefix + [n.move.value] else prefix
  }

  /** The lines `_flatten_recursive(prefix)` returns for node `n`. */
  function Lines(n: MoveNode, prefix: seq<string>): (r: seq<seq<string>>)
    ensures |r| >= 1
    decreases n, 1
  {
    var current := Current(n, prefix);
    if n.children == [] then
      // `[current] if current else [()]`: both branches are the same list
      if current != [] then [current] else [[]]
    else LinesOfChildren(n.children, current)
  }

  /** The lines of the children `cs`, in order, each extending `prefix`. */
  function LinesOfChildren(cs: seq<MoveNode>, prefix: seq<string>): (r: seq<seq<string>>)
    ensures |r| >= |cs|
    decreases cs, 0
  {
    if cs == [] then []
    else LinesOfChildren(cs[..|cs| - 1], prefix) + Lines(cs[|cs| - 1], prefix)
  }

  /** `line_count`: 1 for a leaf, otherwise the sum over the children. */
  function LineCount(n: MoveNode): (r: nat)
    ensures r >= 1
    ensures r >= |n.children|
    decreases n, 1
  {
    if n.children == [] then 1 else SumLineCounts(n.children)
  }

  /** `sum(child.line_count for child in cs)`. */
  function SumLineCounts(cs: seq<MoveNode>): (r: nat)
    ensures r >= |cs|
    decreases cs, 0
  {
    if cs == [] then 0
    else SumLineCounts(cs[..|cs| - 1]) + LineCount(cs[|cs| - 1])
  }

  /** `line_count` is the number of lines `flatten` returns, from any prefix. */
  lemma {:induction false} LineCountIsLineTotal(n: MoveNode, prefix: seq<string>)
    ensures LineCount(n) == |Lines(n, prefix)|
    decreases n, 1
  {
    if n.children != [] {
      ChildrenLineTotal(n.children, Current(n, prefix));
    }
  }

  /** The sum of the children's line counts is the number of their lines. */
  lemma {:induction false} ChildrenLineTotal(cs: seq<MoveNode>, prefix: seq<string>)
    ensures SumLineCounts(cs) == |LinesOfChildren(cs, prefix)|
    decreases cs, 0
  {
    if cs != [] {
      ChildrenLineTotal(cs[..|cs| - 1], prefix);
      LineCountIsLineTotal(cs[|cs| - 1], prefix);
    }
  }

  /** `_flatten_recursive`: the lines below `n`, each starting with `prefix`. */
  method FlattenFrom(n: MoveNode, prefix: seq<string>) returns (lines: seq<seq<string>>)
    ensures lines == Lines(n, prefix)
    decreases n
  {
    var current := if n.move.Some? && n.move.value != "" then prefix + [n.move.value] else prefix;
    if n.children == [] {
      return if current != [] then [current] else [[]];
    }
    lines := [];
    for i := 0 to |n.children|
      invariant lines == LinesOfChildren(n.children[..i], current)
    {
      var sub := FlattenFrom(n.children[i], current);
      assert n.children[..i + 1][..i] == n.children[..i];
      lines := lines + sub;
    }
    assert n.children[..|n.children|] == n.children;
  }

  /** `flatten`: every root-to-leaf line, in child order. */
  method Flatten(n: MoveNode) returns (lines: seq<seq<string>>)
    ensures lines == Lines(n, [])
    ensures |lines| == LineCount(n)
  {
    lines := FlattenFrom(n, []);
    LineCountIsLineTotal(n, []);
  }

  // ---------------------------------------------------------------------
  // expand_wildcards and _expand_moves
  // ---------------------------------------------------------------------

  /** The children `_expand_moves(board, moves)` returns, or the error it raises. */
  function Expansion<B, M>(rules: Rules<B, M>, board: B, moves: seq<Option<string>>)
    : (r: Result<seq<MoveNode>, TreeError>)
    ensures r.Ok? ==> forall c :: c in r.value ==> c.move.Some?
    ensures r.Ok? && moves != [] && moves[0].Some? ==> |r.value| == 1 && r.value[0].move == moves[0]
    decreases |moves|, 1, 0
  {
    if moves == [] then Ok([])
    else
      var remaining := moves[1..];
      match moves[0]
      case None =>
        Branches(rules, board, rules.legalMoves(board), remaining)
      case Some(token) =>
        match rules.parseSan(board, token)
        case None => Err(IllegalMove(token, rules.fen(board)))
        case Some(m) =>
          var next := rules.push(board, m);
          match Expansion(rules, next, remaining)
          case Err(e) => Err(e)
          case Ok(sub) => Ok([MoveNode(Some(token), rules.fen(next), sub)])
  }

  /**
   * The wildcard loop over the moves `legal`: one child per move, in order;
   * the first child whose expansion raises makes the whole loop raise.
   */
  function Branches<B, M>(rules: Rules<B, M>, board: B, legal: seq<M>, remaining: seq<Option<string>>)
    : (r: Result<seq<MoveNode>, TreeError>)
    ensures r.Ok? ==> |r.value| == |legal| && forall c :: c in r.value ==> c.move.Some?
    decreases |remaining| + 1, 0, |legal|
  {
    if legal == [] then Ok([])
    else
      match Branches(rules, board, legal[..|legal| - 1], remaining)
      case Err(e) => Err(e)
      case Ok(cs) =>
        var m := legal[|legal| - 1];
        var next := rules.push(board, m);
        match Expansion(rules, next, remaining)
        case Err(e) => Err(e)
        case Ok(sub) => Ok(cs + [MoveNode(Some(rules.san(board, m)), rules.fen(next), sub)])
  }

  /** `expand_wildcards` on an already parsed move list: the root over the starting position. */
  function OpeningTree<B, M>(rules: Rules<B, M>, moves: seq<Option<string>>): (r: Result<MoveNode, TreeError>)
    ensures r.Ok? <==> Expansion(rules, rules.initial, moves).Ok?
    ensures r.Ok? ==> r.value.move == None && r.value.fen == rules.fen(rules.initial)
    ensures r.Ok? ==> forall c :: c in r.value.children ==> c.move.Some?
  {
    match Expansion(rules, rules.initial, moves)
    case Err(e) => Err(e)
    case Ok(cs) => Ok(MoveNode(None, rules.fen(rules.initial), cs))
  }

  /** Once a prefix of the wildcard loop has raised, the whole loop raises the same error. */
  lemma {:induction false} BranchesErrPersists<B, M>(
    rules: Rules<B, M>, board: B, legal: seq<M>, i: nat, remaining: seq<Option<string>>)
    requires i <= |legal|
    requires Branches(rules, board, legal[..i], remaining).Err?
    ensures Branches(rules, board, legal, remaining) == Branches(rules, board, legal[..i], remaining)
    decreases |legal|
  {
    if i < |legal| {
      var init := legal[..|legal| - 1];
      assert init[..i] == legal[..i];
      BranchesErrPersists(rules, board, init, i, remaining);
    } else {
      assert legal[..i] == legal;
    }
  }

  /** `_expand_moves`: the next level of the tree below `board`. */
  method ExpandMoves<B, M>(rules: Rules<B, M>, board: B, moves: seq<Option<string>>)
    returns (r: Result<seq<MoveNode>, TreeError>)
    ensures r == Expansion(rules, board, moves)
    decreases |moves|
  {
    if moves == [] {
      return Ok([]);
    }
    var current, remaining := moves[0], moves[1..];
    if current == None {
      var legal := rules.legalMoves(board);
      var children := [];
      for i := 0 to |legal|
        invariant Branches(rules, board, legal[..i], remaining) == Ok(children)
      {
        var legalMove := legal[i];
        var san := rules.san(board, legalMove);
        var newBoard := rules.push(board, legalMove);
        var sub := ExpandMoves(rules, newBoard, remaining);
        assert legal[..i + 1][..i] == legal[..i];
        if sub.Err? {
          BranchesErrPersists(rules, board, legal, i + 1, remaining);
          return Err(sub.error);
        }
        children := children + [MoveNode(Some(san), rules.fen(newBoard), sub.value)];
      }
      assert legal[..|legal|] == legal;
      return Ok(children);
    } else {
      var token := current.value;
      var parsed := rules.parseSan(board, token);
      if parsed == None {
        return Err(IllegalMove(token, rules.fen(board)));
      }
      var newBoard := rules.push(board, parsed.value);
      var sub := ExpandMoves(rules, newBoard, remaining);
      if sub.Err? {
        return Err(sub.error);
      }
      return Ok([MoveNode(Some(token), rules.fen(newBoard), sub.value)]);
    }
  }

  /** `expand_wildcards`: parse the string, then build the tree from the starting position. */
  method ExpandWildcards<B, M>(rules: Rules<B, M>, pgnWithWildcards: string, wildcardSymbol: string := "__")
    returns (r: Result<MoveNode, TreeError>)
    ensures r == OpeningTree(rules, Parser.ParseMoves(Parser.Split(pgnWithWildcards), wildcardSymbol))
    ensures r.Ok? ==> r.value.move == None && r.value.fen == rules.fen(rules.initial)
  {
    var moves := Parser.ParseGameStringSimple(pgnWithWildcards, wildcardSymbol);
    var board := rules.initial;
    var children := ExpandMoves(rules, board, moves);
    if children.Err? {
      return Err(children.error);
    }
    return Ok(MoveNode(None, rules.fen(board), children.value));
  }
}
