# Wildcard opening trees

This project models the two pieces of original logic in the `antivenom` chess utilities and proves properties of them in Dafny. Both sit on top of a chess-rules library.

1. **The move-string tokenizer** (`parse_game_string_simple`). It takes a move-number-annotated string such as `1. e4 e5 2. __ d5` and returns the ply-ordered list of moves. Move numbers (`1.`, `12.`) are dropped. The wildcard symbol becomes `None`. Every other token is kept verbatim, in order. The loop is the method `Parser.ParseGameStringSimple`. It is proved equal to `Parser.ParseMoves`, and the properties of that function are lemmas. `s.split()` is modelled by `Parser.Split`, with a round-trip lemma against `Parser.Join`.
2. **The opening-tree builder** (`MoveNode`, `flatten`, `line_count`, `expand_wildcards`, `_expand_moves`).
   - A fixed token gives one child, after the position has parsed it. A wildcard gives one child per legal move, in the library's order.
   - `flatten` lists the root-to-leaf move lines. `line_count` counts the leaves.
   - The recursive loops are the methods `Tree.FlattenFrom` and `Tree.ExpandMoves`. They are proved equal to the functions `Tree.Lines` and `Tree.Expansion`. Module `TreeProperties` proves what the tree looks like.

The tree's values are two datatypes in `tree.dfy`:
- `Tree.MoveNode` models the frozen dataclass `MoveNode` (src/v0/utils/tree.py:12-27). It holds the move (`None` at the root), the FEN and the ordered children.
- `Tree.TreeError` models the `ValueError` raised at src/v0/utils/tree.py:140-147. It carries the offending token and the FEN of the position.

The chess rules are not modelled. The builder uses the starting board, legal moves, SAN printing, pushing a move, FEN printing and SAN parsing. These six are fields of a `Tree.Rules<B, M>` value over an abstract board type `B` and move type `M`, and every operation takes that value as a parameter. So every property below holds for *any* rules library with that interface. A failed `parse_san` is `None`. The `ValueError` the builder raises is the `Err(IllegalMove(token, fen))` result.

Lines do not always have one move per token. A wildcard at a position with no legal moves (mate or stalemate) produces no children. The node before it becomes a leaf, and its line is shorter than the token list. Four lemmas state this:
- `TreeProperties.TerminalWildcardIgnoresRest`: a wildcard at a position without legal moves gives an empty level, whatever tokens follow it, so those tokens are never examined.
- `TreeProperties.EmptyLevel`: a level is empty only at the end of the tokens or at such a wildcard.
- `TreeProperties.TreeLinesFit`, first part: every line has at most one move per token, every fixed token sits at its own ply, and a line stops early only where the next token is a wildcard.
- `TreeProperties.TreeLinesFit`, second part: every line has exactly one move per token if and only if `TreeProperties.NoDeadEnd` holds. `NoDeadEnd` means that no position the expansion reaches at a wildcard is without legal moves. `TreeProperties.DeadEndShortLine` gives the short line when it fails.

The flattened lines are exactly the tree's root-to-leaf paths. `TreeProperties.LeafPathInLines` and `TreeProperties.LineOfLeafPath` prove the two directions, with a path written as the list of child indices from the root down to a leaf.

The check `if self.move` in `_flatten_recursive` is a truthiness test, so an empty move string is skipped like `None`. `Tree.Current` models it that way. The line lemmas therefore assume that fixed tokens are non-empty, which the parser guarantees (`Parser.ParsedMovesAreWords`). They also assume that the library never prints a SAN as the empty string.

## Model

| member | source | states |
|---|---|---|
| `Parser.WordLength` | src/v0/utils/parser.py:17 | the length of the longest whitespace-free prefix: all characters before it are non-whitespace, and the next one (if any) is whitespace |
| `Parser.Split` | src/v0/utils/parser.py:17 | `s.split()`: the maximal runs of non-whitespace characters, in order; every token it produces is non-empty and contains no whitespace; `SplitWordThen`, together with the skipping of leading whitespace in its body, determines it on every input; `SplitJoin` and `SplitEmptyIff` follow |
| `Parser.SplitWordThen` | src/v0/utils/parser.py:17 | a whole word followed by the end or by whitespace is split off as one token, before the tokens of the rest |
| `Parser.SplitJoin` | src/v0/utils/parser.py:17 | round trip: splitting whitespace-free words joined by single spaces gives back exactly those words |
| `Parser.SplitEmptyIff` | src/v0/utils/parser.py:17 | `s.split()` is empty if and only if `s` is empty or all whitespace |
| `Parser.IsMoveNumber` | src/v0/utils/parser.py:20 | tested as `token.endswith('.') and token[:-1].isdigit()`; holds exactly for tokens of at least two characters whose last is `.` and whose others are all digits |
| `Parser.ParseMoves` | src/v0/utils/parser.py:17-23 | the moves from a token list, one loop step per token; never longer than the token list; `ParseMovesKept` and `ParseMovesLength` characterize it |
| `Parser.Translate` | src/v0/utils/parser.py:22 | a kept token becomes `None` exactly when it equals the wildcard symbol; otherwise it is emitted unchanged |
| `Parser.ParseGameStringSimple` | src/v0/utils/parser.py:3-23 | the loop over the tokens, which skips move numbers and appends the translation of every other token, returns `ParseMoves(Split(s), wildcard)` |
| `Parser.ParseMovesSnoc` | src/v0/utils/parser.py:19-22 | one loop step: a move-number token adds nothing; any other token appends its translation at the end |
| `Parser.KeptIndices` | src/v0/utils/parser.py:19-22 | the positions of the tokens that are not move numbers: strictly increasing, in range, and containing every such position |
| `Parser.ParseMovesKept` | src/v0/utils/parser.py:17-23 | the k-th move is the translation of the k-th token that is not a move number: every kept token appears, in its original relative order |
| `Parser.ParseMovesLength` | src/v0/utils/parser.py:17-23 | the number of moves equals the number of tokens minus the number of move-number tokens |
| `Parser.ParsedMovesAreWords` | src/v0/utils/parser.py:17-22 | every fixed move the parser emits is a whole non-empty, whitespace-free token |
| `Parser.BlankInputNoMoves` | src/v0/utils/parser.py:17-23 | empty or whitespace-only input gives an empty move list |
| `Parser.MoveNumberExamples` | src/v0/utils/parser.py:20-21 | `1.` and `12.` are move numbers; `.`, `1...` and `e4` are not |
| `Parser.DocumentedExample` | src/v0/utils/parser.py:8-14 | `1. e4 e5 2. __ d5 3. __ h3` with wildcard `__` parses to `e4, e5, None, d5, None, h3` |
| `Tree.Current` | src/v0/utils/tree.py:49 | the path to a node: the prefix extended by exactly one move when the node's move is present and non-empty (Python's truthiness test), otherwise the prefix unchanged |
| `Tree.Lines` | src/v0/utils/tree.py:46-59 | what `_flatten_recursive(prefix)` returns: at least one line; `LeafPathInLines` and `LineOfLeafPath` show these are exactly the root-to-leaf paths, `LineCountIsLineTotal` gives their number and `LinesPrefixed` shows each starts with the prefix |
| `Tree.LinesOfChildren` | src/v0/utils/tree.py:55-59 | the children's lines concatenated in child order, at least one per child |
| `Tree.Expansion` | src/v0/utils/tree.py:108-157 | what `_expand_moves` returns or raises: every child carries a move, and a fixed token gives exactly one child carrying it verbatim; `FixedMoveLevel`, `WildcardLevel`, `ExpansionOkIff`, `ErrorNamesFixedToken` and `TreeLinesFit` characterize it |
| `Tree.Branches` | src/v0/utils/tree.py:123-137 | the wildcard loop: one child per legal move, each carrying a move; `BranchesShape` gives SAN, FEN and subtree per child |
| `Tree.OpeningTree` | src/v0/utils/tree.py:98-105 | the tree for a parsed move list: it exists exactly when the expansion from the starting board succeeds; its root has `move = None` and the starting FEN; no child carries `None` |
| `Tree.LineCount` | src/v0/utils/tree.py:61-70 | `line_count` (1 for a leaf, else the sum over the children) is at least 1 and at least the number of children |
| `Tree.SumLineCounts` | src/v0/utils/tree.py:70 | the sum of the children's line counts is at least the number of children |
| `Tree.LineCountIsLineTotal` | src/v0/utils/tree.py:46-70 | for every tree and every prefix, `line_count` equals the number of lines `_flatten_recursive` returns |
| `Tree.FlattenFrom` | src/v0/utils/tree.py:46-59 | the loop over the children, which extends a local list with each child's lines, returns `Lines(n, prefix)` |
| `Tree.Flatten` | src/v0/utils/tree.py:29-44 | `flatten` returns `Lines(n, [])`, and the number of lines it returns is `line_count` |
| `Tree.BranchesErrPersists` | src/v0/utils/tree.py:125-137 | once one child of the wildcard loop raises, the whole loop raises that same error |
| `Tree.ExpandMoves` | src/v0/utils/tree.py:108-157 | `_expand_moves`, with its loop over the legal moves and its early exit on an error, returns `Expansion(rules, board, moves)` |
| `Tree.ExpandWildcards` | src/v0/utils/tree.py:73-105 | `expand_wildcards` (wildcard symbol `__` by default) returns the tree built from the parsed string; when it succeeds the root has `move = None` and the FEN of the starting board |
| `TreeProperties.LinesPrefixed` | src/v0/utils/tree.py:46-59 | the lines from prefix `q + r` are the lines from `r`, each preceded by `q`, in the same order |
| `TreeProperties.LeafRootLines` | src/v0/utils/tree.py:49-53 | a childless root with `move = None` flattens to the single empty line, and its `line_count` is 1 |
| `TreeProperties.FixedMoveLevel` | src/v0/utils/tree.py:138-157 | a fixed token the position cannot parse raises "Illegal move" with that token and the position's FEN; when the level succeeds, it is exactly one child whose move is the token verbatim, whose FEN is that of the pushed board, and whose children are the expansion of the rest |
| `TreeProperties.BranchesShape` | src/v0/utils/tree.py:123-137 | the wildcard loop makes one child per legal move, in order, with that move's SAN, the pushed board's FEN, and the rest expanded from the pushed board |
| `TreeProperties.WildcardLevel` | src/v0/utils/tree.py:123-137 | a wildcard level has exactly as many children as the position has legal moves, in legal-move order, each carrying that move's SAN |
| `TreeProperties.EmptyLevel` | src/v0/utils/tree.py:118-157 | a level has no children only at the end of the moves or at a wildcard in a position without legal moves |
| `TreeProperties.ErrorNamesFixedToken` | src/v0/utils/tree.py:140-147 | the "Illegal move" error always names one of the fixed tokens; it returns a board where that token failed to parse and whose FEN is the one the error carries |
| `TreeProperties.BranchesErrorNamesFixedToken` | src/v0/utils/tree.py:126-147 | an error from the wildcard loop names a fixed token of the remaining moves; it returns a board where that token failed to parse and whose FEN the error carries |
| `TreeProperties.ExpansionOkIff` | src/v0/utils/tree.py:118-157 | `_expand_moves` returns without raising if and only if every fixed token parses on the board where the expansion plays it (`AllParse`), at every depth the expansion reaches |
| `TreeProperties.BranchesOkIff` | src/v0/utils/tree.py:123-137 | the wildcard loop returns without raising if and only if the rest of the moves expands without raising after every pushed legal move |
| `TreeProperties.OpeningTreeOkIff` | src/v0/utils/tree.py:98-105 | the tree for parsed moves is built without raising if and only if `AllParse` holds from the starting board |
| `TreeProperties.ParsableNeverFails` | src/v0/utils/tree.py:140-147 | a sufficient condition, coarser than `ExpansionOkIff`: if every fixed token of the moves parses on every board, the builder never raises |
| `TreeProperties.TreeLinesFit` | src/v0/utils/tree.py:108-157 | every line has at most one move per token and holds each fixed token at its own ply; a line is shorter only where a wildcard comes next; every line has exactly one move per token if and only if no wildcard is met at a position without legal moves (`NoDeadEnd`), which holds in particular when every position has a legal move |
| `TreeProperties.DeadEndShortLine` | src/v0/utils/tree.py:123-137 | when the expansion meets a wildcard at a position without legal moves, some line through the node stops before the tokens run out |
| `TreeProperties.EveryPositionNoDeadEnd` | src/v0/utils/tree.py:123-137 | if every position has a legal move, no expansion meets a dead end |
| `TreeProperties.TerminalWildcardIgnoresRest` | src/v0/utils/tree.py:123-137 | a wildcard at a position without legal moves gives no children, whatever tokens follow it |
| `TreeProperties.LeafPathInLines` | src/v0/utils/tree.py:29-59 | the moves along every root-to-leaf path form one of the lines `flatten` returns |
| `TreeProperties.LineOfLeafPath` | src/v0/utils/tree.py:29-59 | every line `flatten` returns is the moves along some root-to-leaf path |
| `TreeProperties.NoWildcardsSingleLine` | src/v0/utils/tree.py:108-157 | with no wildcards the tree has exactly one line, equal to the token list, and `line_count` is 1 |
| `TreeProperties.LevelLineCount` | src/v0/utils/tree.py:123-137 | when every position has exactly k >= 1 legal moves, a level built from the moves has k to the power of the number of wildcards lines; uniform branching describes an idealised rules library, not chess, where `WildcardLevel` and the sum in `Tree.LineCount` give the count |
| `TreeProperties.UniformBranchingCount` | src/v0/utils/tree.py:61-70 | with uniform branching k >= 1, `line_count` and the number of flattened lines both equal k to the power of the number of wildcards (two wildcards give k * k); like `LevelLineCount` this holds only for an idealised uniformly branching library, and for real rules `WildcardLevel` with the sum in `Tree.LineCount` gives the count |
| `TreeProperties.BlankInputTree` | src/v0/utils/tree.py:98-105 | empty or whitespace-only input gives the root alone (move `None`, the starting FEN, no children), which flattens to the single empty line |
| `TreeProperties.ExpandedLinesFollowInput` | src/v0/utils/tree.py:98-105 | every line of the tree built from a string follows the string's parsed moves, as in `TreeLinesFit`; each line has exactly one move per parsed move if and only if the expansion meets no wildcard at a position without legal moves, in particular when every position has a legal move |

## Left out

- The chess rules are not modelled: legal-move generation, SAN parsing and printing, FEN, board copying, check, mate and stalemate all belong to the rules library. They are the fields of `Tree.Rules`. Concrete counts such as 20 replies to `1. e4` or 400 lines for `1. __ __` depend on those rules and are not stated.
- `Parser.IsDigit`: accepts ASCII digits only. Python's `str.isdigit` also accepts other Unicode digits, such as superscripts and Arabic-Indic digits, so a token like `٣.` is a move number in the source but kept here.
- `Parser.IsWhitespace`: follows the code points Python's `str.isspace` accepts. Any difference from a particular Python version's Unicode tables is not modelled.
- `TreeProperties.TreeLinesFit`: assumes the rules library never prints a SAN as the empty string, and that fixed tokens are non-empty. The parser guarantees the second (`Parser.ParsedMovesAreWords`).
- `TreeProperties.ExpandedLinesFollowInput`: assumes, like `TreeLinesFit`, that SAN strings are non-empty.
- The text of the "Illegal move" message beyond the token and the FEN, and the chaining of the library's original exception, are not modelled. The kind of failure inside `parse_san` (illegal, invalid or ambiguous) is collapsed to `None`.
- `MoveNode` being a frozen dataclass is implicit: Dafny datatypes are immutable values.
- `board.copy()` followed by `push` is one pure function `push`. The aliasing of the copy is not modelled.
- `src/v0/chess_tools/evaluation.py` is not part of this model. It locates and drives an external UCI engine subprocess and formats its scores.
- `src/v0/chess_tools/moves.py` is not part of this model. It repackages queries to the rules library and delegates PGN parsing to it.
- `src/v0/utils/eval_node.py` is not part of this model. It extracts lines from a tree and re-delegates them to the engine.
