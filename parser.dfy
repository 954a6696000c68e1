/**
 * The move-string tokenizer: a move-number-annotated string such as
 * `1. e4 e5 2. __ d5` becomes the ply-ordered list of move tokens, with
 * move numbers dropped and the wildcard symbol replaced by `None`.
 */
module Parser {
  import opened Wrappers

  // ---------------------------------------------------------------------
  // Whitespace splitting (Python's `str.split()` with no separator)
  // ---------------------------------------------------------------------

  /** The characters Python's `str.isspace` accepts. */
  predicate IsWhitespace(c: char) {
    var k := c as int;
    k == 0x20 || 0x09 <= k <= 0x0D || 0x1C <= k <= 0x1F || k == 0x85 || k == 0xA0
    || k == 0x1680 || 0x2000 <= k <= 0x200A || k == 0x2028 || k == 0x2029
    || k == 0x202F || k == 0x205F || k == 0x3000
  }

  /** A token as `str.split()` produces it: non-empty and free of whitespace. */
  predicate IsWord(t: string) {
    t != [] && forall i :: 0 <= i < |t| ==> !IsWhitespace(t[i])
  }

  /** Length of the longest whitespace-free prefix of `s`. */
  function WordLength(s: string): (n: nat)
    ensures n <= |s|
    ensures forall i :: 0 <= i < n ==> !IsWhitespace(s[i])
    ensures n < |s| ==> IsWhitespace(s[n])
  {
    if s == [] || IsWhitespace(s[0]) then 0 else 1 + WordLength(s[1..])
  }

  /** `s.split()`: the maximal runs of non-whitespace characters, in order. */
  function Split(s: string): (r: seq<string>)
    ensures forall t :: t in r ==> IsWord(t)
    decreases |s|
  {
    if s == [] then []
    else if IsWhitespace(s[0]) then Split(s[1..])
    else
      var n := WordLength(s);
      [s[..n]] + Split(s[n..])
  }

  /** The tokens joined by single spaces: an input that `Split` takes apart again. */
  function Join(ts: seq<string>): string {
    if ts == [] then []
    else if |ts| == 1 then ts[0]
    else ts[0] + " " + Join(ts[1..])
  }

  // ---------------------------------------------------------------------
  // Token classification
  // ---------------------------------------------------------------------

  /** ASCII decimal digit. */
  predicate IsDigit(c: char) {
    '0' <= c <= '9'
  }

  /** `u.isdigit()`: a non-empty string of digits (the empty string is not). */
  predicate IsDigitString(u: string) {
    u != [] && forall i :: 0 <= i < |u| ==> IsDigit(u[i])
  }

  /**
   * A move-number token, tested as `token.endswith('.') and token[:-1].isdigit()`:
   * exactly the tokens of at least two characters whose last is `.` and whose
   * others are all digits.
   */
  predicate IsMoveNumber(t: string)
    ensures IsMoveNumber(t) <==> |t| >= 2 && t[|t| - 1] == '.' && forall i :: 0 <= i < |t| - 1 ==> IsDigit(t[i])
  {
    |t| > 0 && t[|t| - 1] == '.' && IsDigitString(t[..|t| - 1])
  }

  /** What a kept token contributes: `None` for the wildcard, the token otherwise. */
  function Translate(t: string, wildcard: string): (r: Option<string>)
    ensures r == None <==> t == wildcard
    ensures r.Some? ==> r.value == t
  {
    if t == wildcard then None else Some(t)
  }

  /**
   * The moves produced from the tokens `ts`, one loop step per token:
   * move numbers add nothing, every other token adds its translation.
   */
  function ParseMoves(ts: seq<string>, wildcard: string): (r: seq<Option<string>>)
    ensures |r| <= |ts|
  {
    if ts == [] then []
    else
      var last := ts[|ts| - 1];
      var before := ParseMoves(ts[..|ts| - 1], wildcard);
      if IsMoveNumber(last) then before else before + [Translate(last, wildcard)]
  }

  /**
   * `parse_game_string_simple`: split on whitespace, skip move numbers and
   * append every other token, the wildcard as `None`.
   */
  method ParseGameStringSimple(s: string, wildcard: string) returns (moves: seq<Option<string>>)
    ensures moves == ParseMoves(Split(s), wildcard)
  {
    var tokens := Split(s);
    moves := [];
    for i := 0 to |tokens|
      invariant moves == ParseMoves(tokens[..i], wildcard)
    {
      var token := tokens[i];
      assert tokens[..i + 1][..i] == tokens[..i];
      if IsMoveNumber(token) {
        continue;
      }
      moves := moves + [if token == wildcard then None else Some(token)];
    }
    assert tokens[..|tokens|] == tokens;
  }

  // ---------------------------------------------------------------------
  // Reference definitions the loop is proved against
  // ---------------------------------------------------------------------

  /** Positions of the tokens that are not move numbers, in increasing order. */
  function KeptIndices(ts: seq<string>): (idx: seq<nat>)
    ensures forall k :: 0 <= k < |idx| ==> idx[k] < |ts| && !IsMoveNumber(ts[idx[k]])
    ensures forall k, l :: 0 <= k < l < |idx| ==> idx[k] < idx[l]
    ensures forall i :: 0 <= i < |ts| && !IsMoveNumber(ts[i]) ==> i in idx
  {
    if ts == [] then []
    else
      var before := KeptIndices(ts[..|ts| - 1]);
      if IsMoveNumber(ts[|ts| - 1]) then before else before + [|ts| - 1]
  }

  /** Number of move-number tokens in `ts`. */
  function CountMoveNumbers(ts: seq<string>): (n: nat)
    ensures n <= |ts|
  {
    if ts == [] then 0
    else CountMoveNumbers(ts[1..]) + (if IsMoveNumber(ts[0]) then 1 else 0)
  }

  // ---------------------------------------------------------------------
  // Properties of the tokenizer
  // ---------------------------------------------------------------------

  /** A word followed by nothing or by whitespace is split off as one token. */
  lemma SplitWordThen(t: string, u: string)
    requires IsWord(t)
    requires u == [] || IsWhitespace(u[0])
    ensures Split(t + u) == [t] + Split(u)
  {
    var s := t + u;
    var n := WordLength(s);
    assert forall i :: 0 <= i < |t| ==> s[i] == t[i];
    assert u != [] ==> s[|t|] == u[0];
    assert n == |t|;
    assert s[..n] == t;
    assert s[n..] == u;
  }

  /** Round trip: splitting words joined by single spaces gives the words back. */
  lemma {:induction false} SplitJoin(ts: seq<string>)
    requires forall t :: t in ts ==> IsWord(t)
    ensures Split(Join(ts)) == ts
  {
    if ts == [] {
    } else if |ts| == 1 {
      SplitWordThen(ts[0], []);
      assert ts[0] + [] == ts[0];
    } else {
      var rest := Join(ts[1..]);
      SplitJoin(ts[1..]);
      SplitWordThen(ts[0], " " + rest);
      assert ts[0] + " " + rest == ts[0] + (" " + rest);
      assert (" " + rest)[1..] == rest;
      assert ts == [ts[0]] + ts[1..];
    }
  }

  /** Splitting gives no tokens exactly when the input is empty or all whitespace. */
  lemma {:induction false} SplitEmptyIff(s: string)
    ensures Split(s) == [] <==> forall i :: 0 <= i < |s| ==> IsWhitespace(s[i])
    decreases |s|
  {
    if s != [] && IsWhitespace(s[0]) {
      SplitEmptyIff(s[1..]);
      assert forall i :: 1 <= i < |s| ==> s[i] == s[1..][i - 1];
    }
  }

  /**
   * The moves are the kept tokens, in their original order, each translated:
   * the k-th move comes from the k-th token that is not a move number.
   */
  lemma {:induction false} ParseMovesKept(ts: seq<string>, wildcard: string)
    ensures |ParseMoves(ts, wildcard)| == |KeptIndices(ts)|
    ensures forall k :: 0 <= k < |KeptIndices(ts)| ==>
      ParseMoves(ts, wildcard)[k] == Translate(ts[KeptIndices(ts)[k]], wildcard)
  {
    if ts != [] {
      var init := ts[..|ts| - 1];
      var last := ts[|ts| - 1];
      ParseMovesKept(init, wildcard);
      var idx, before := KeptIndices(init), ParseMoves(init, wildcard);
      forall k | 0 <= k < |idx|
        ensures ParseMoves(ts, wildcard)[k] == Translate(ts[idx[k]], wildcard)
      {
        assert init[idx[k]] == ts[idx[k]];
        if IsMoveNumber(last) {
          assert ParseMoves(ts, wildcard) == before;
        } else {
          assert ParseMoves(ts, wildcard) == before + [Translate(last, wildcard)];
        }
      }
      if !IsMoveNumber(last) {
        assert KeptIndices(ts) == idx + [|ts| - 1];
      }
    }
  }

  /** The output has one entry per token that is not a move number. */
  lemma {:induction false} ParseMovesLength(ts: seq<string>, wildcard: string)
    ensures |ParseMoves(ts, wildcard)| == |ts| - CountMoveNumbers(ts)
  {
    if ts != [] {
      var init := ts[..|ts| - 1];
      ParseMovesLength(init, wildcard);
      CountMoveNumbersSnoc(init, ts[|ts| - 1]);
      assert init + [ts[|ts| - 1]] == ts;
    }
  }

  /** Counting move numbers one token at a time from the end. */
  lemma {:induction false} CountMoveNumbersSnoc(ts: seq<string>, t: string)
    ensures CountMoveNumbers(ts + [t]) == CountMoveNumbers(ts) + (if IsMoveNumber(t) then 1 else 0)
  {
    if ts != [] {
      assert (ts + [t])[1..] == ts[1..] + [t];
      CountMoveNumbersSnoc(ts[1..], t);
    }
  }

  /** Every move the parser emits is a whole token: non-empty and free of whitespace. */
  lemma ParsedMovesAreWords(s: string, wildcard: string)
    ensures var moves := ParseMoves(Split(s), wildcard);
      forall i :: 0 <= i < |moves| && moves[i].Some? ==> IsWord(moves[i].value)
  {
    var ts := Split(s);
    ParseMovesKept(ts, wildcard);
    var idx := KeptIndices(ts);
    forall i | 0 <= i < |ParseMoves(ts, wildcard)| && ParseMoves(ts, wildcard)[i].Some?
      ensures IsWord(ParseMoves(ts, wildcard)[i].value)
    {
      assert ts[idx[i]] in ts;
    }
  }

  /** Empty or whitespace-only input gives no moves. */
  lemma BlankInputNoMoves(s: string, wildcard: string)
    requires forall i :: 0 <= i < |s| ==> IsWhitespace(s[i])
    ensures ParseMoves(Split(s), wildcard) == []
  {
    SplitEmptyIff(s);
  }

  /** `.` alone and `1...` are kept; `12.` is a move number. */
  lemma MoveNumberExamples()
    ensures !IsMoveNumber(".") && !IsMoveNumber("1...") && !IsMoveNumber("e4")
    ensures IsMoveNumber("1.") && IsMoveNumber("12.")
  {
    assert "1..."[1] == '.';
  }

  /** The documented example: `1. e4 e5 2. __ d5 3. __ h3` with wildcard `__`. */
  lemma DocumentedExample()
    ensures ParseMoves(Split("1. e4 e5 2. __ d5 3. __ h3"), "__")
         == [Some("e4"), Some("e5"), None, Some("d5"), None, Some("h3")]
  {
    ExampleTokensAreWords();
    SplitNine("1.", "e4", "e5", "2.", "__", "d5", "3.", "__", "h3");
    ExampleSpelledOut();
    ParseExampleTokens();
  }

  /** The example string is its nine tokens separated by single spaces. */
  lemma ExampleSpelledOut()
    ensures "1." + " " + "e4" + " " + "e5" + " " + "2." + " " + "__" + " " + "d5" + " " + "3." + " " + "__" + " " + "h3"
         == "1. e4 e5 2. __ d5 3. __ h3"
  {
  }

  /** Nine words separated by single spaces split back into those words. */
  lemma SplitNine(t1: string, t2: string, t3: string, t4: string, t5: string, t6: string,
                  t7: string, t8: string, t9: string)
    requires forall t :: t in [t1, t2, t3, t4, t5, t6, t7, t8, t9] ==> IsWord(t)
    ensures Split(t1 + " " + t2 + " " + t3 + " " + t4 + " " + t5 + " " + t6 + " " + t7 + " " + t8 + " " + t9)
         == [t1, t2, t3, t4, t5, t6, t7, t8, t9]
  {
    var ts := [t1, t2, t3, t4, t5, t6, t7, t8, t9];
    JoinTriple(t1, t2, t3);
    JoinTriple(t4, t5, t6);
    JoinTriple(t7, t8, t9);
    JoinAppend([t4, t5, t6], [t7, t8, t9]);
    JoinAppend([t1, t2, t3], [t4, t5, t6] + [t7, t8, t9]);
    assert [t1, t2, t3] + ([t4, t5, t6] + [t7, t8, t9]) == ts;
    var a, b, c := t1 + " " + t2 + " " + t3, t4 + " " + t5 + " " + t6, t7 + " " + t8 + " " + t9;
    assert Join(ts) == a + " " + (b + " " + c);
    assert a + " " + (b + " " + c) == a + " " + b + " " + c;
    assert a + " " + b + " " + c
        == t1 + " " + t2 + " " + t3 + " " + t4 + " " + t5 + " " + t6 + " " + t7 + " " + t8 + " " + t9;
    SplitJoin(ts);
  }

  /** Three tokens joined by single spaces. */
  lemma JoinTriple(x: string, y: string, z: string)
    ensures Join([x, y, z]) == x + " " + y + " " + z
  {
    assert [x, y, z][1..] == [y, z];
    assert [y, z][1..] == [z];
    assert Join([y, z]) == y + " " + z;
    assert x + " " + (y + " " + z) == x + " " + y + " " + z;
  }

  /** Joining two non-empty token lists puts one space between their joins. */
  lemma {:induction false} JoinAppend(a: seq<string>, b: seq<string>)
    requires a != [] && b != []
    ensures Join(a + b) == Join(a) + " " + Join(b)
  {
    if |a| > 1 {
      assert (a + b)[1..] == a[1..] + b;
      JoinAppend(a[1..], b);
    } else {
      assert (a + b)[1..] == b;
    }
  }

  lemma ExampleTokensAreWords()
    ensures forall t :: t in ["1.", "e4", "e5", "2.", "__", "d5", "3.", "__", "h3"] ==> IsWord(t)
  {
    assert IsWord("1.") && IsWord("2.") && IsWord("3.");
    assert IsWord("e4") && IsWord("e5") && IsWord("d5") && IsWord("h3") && IsWord("__");
  }

  lemma ParseExampleTokens()
    ensures ParseMoves(["1.", "e4", "e5", "2.", "__", "d5", "3.", "__", "h3"], "__")
         == [Some("e4"), Some("e5"), None, Some("d5"), None, Some("h3")]
  {
    ExampleSecondMove();
    var t := ["1.", "e4", "e5", "2.", "__", "d5"];
    var out := [Some("e4"), Some("e5"), None, Some("d5")];
    assert IsMoveNumber("3.") && !IsMoveNumber("__") && !IsMoveNumber("h3");
    ParseMovesSnoc(t, "3.", "__");
    ParseMovesSnoc(t + ["3."], "__", "__");
    ParseMovesSnoc(t + ["3.", "__"], "h3", "__");
    assert t + ["3."] + ["__"] == t + ["3.", "__"];
    assert t + ["3.", "__"] + ["h3"] == ["1.", "e4", "e5", "2.", "__", "d5", "3.", "__", "h3"];
    assert out + [None] + [Some("h3")] == [Some("e4"), Some("e5"), None, Some("d5"), None, Some("h3")];
  }

  /** The example's first six tokens. */
  lemma ExampleSecondMove()
    ensures ParseMoves(["1.", "e4", "e5", "2.", "__", "d5"], "__") == [Some("e4"), Some("e5"), None, Some("d5")]
  {
    ExampleFirstMove();
    var t := ["1.", "e4", "e5"];
    assert IsMoveNumber("2.") && !IsMoveNumber("__") && !IsMoveNumber("d5");
    ParseMovesSnoc(t, "2.", "__");
    ParseMovesSnoc(t + ["2."], "__", "__");
    ParseMovesSnoc(t + ["2.", "__"], "d5", "__");
    assert t + ["2."] + ["__"] == t + ["2.", "__"];
    assert t + ["2.", "__"] + ["d5"] == ["1.", "e4", "e5", "2.", "__", "d5"];
  }

  /** The example's first three tokens. */
  lemma ExampleFirstMove()
    ensures ParseMoves(["1.", "e4", "e5"], "__") == [Some("e4"), Some("e5")]
  {
    assert IsMoveNumber("1.") && !IsMoveNumber("e4") && !IsMoveNumber("e5");
    ParseMovesSnoc([], "1.", "__");
    ParseMovesSnoc(["1."], "e4", "__");
    ParseMovesSnoc(["1.", "e4"], "e5", "__");
    assert [] + ["1."] == ["1."];
    assert ["1."] + ["e4"] == ["1.", "e4"];
    assert ["1.", "e4"] + ["e5"] == ["1.", "e4", "e5"];
  }

  /** One loop step: appending a token to the input. */
  lemma ParseMovesSnoc(ts: seq<string>, t: string, wildcard: string)
    ensures ParseMoves(ts + [t], wildcard)
         == if IsMoveNumber(t) then ParseMoves(ts, wildcard)
            else ParseMoves(ts, wildcard) + [Translate(t, wildcard)]
  {
    assert (ts + [t])[..|ts|] == ts;
  }
}
