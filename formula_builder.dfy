/**
  The formula builder: an editor for a formula held as a sequence of tokens, fed one key at
  a time. Digits and '.' typed after a number extend that number; deleting from a number
  removes one character at a time.
 */
module Formulas {
  import opened Numbers
  import opened Cells

  function Last(f: seq<string>): string
    requires f != []
  {
    f[|f| - 1]
  }

  /** The formula `addToken(t)` leaves behind. */
  function AppendToken(f: seq<string>, t: string): seq<string>
  {
    if f == [] then [t]
    else if IsNumber(Last(f)) && IsNumber(t) then f[..|f| - 1] + [Last(f) + t]
    else if t == "." then
      if IsNumber(Last(f)) && '.' !in Last(f) then f[..|f| - 1] + [Last(f) + "."] else f
    else f + [t]
  }

  /** `addToken(t)` ignores t: a '.' after an operator, a reference or a number holding a '.' */
  predicate Dropped(f: seq<string>, t: string)
  {
    f != [] && t == "." && !(IsNumber(Last(f)) && '.' !in Last(f))
  }

  /** `addToken(t)` folds t into the last token. */
  predicate Merged(f: seq<string>, t: string)
  {
    f != [] && IsNumber(Last(f)) && (IsNumber(t) || (t == "." && '.' !in Last(f)))
  }

  /** The keys typed so far: all tokens run together. */
  function Keys(f: seq<string>): string
  {
    if f == [] then "" else Keys(f[..|f| - 1]) + Last(f)
  }

  /** The formula `removeToken()` leaves behind. */
  function RemoveLast(f: seq<string>): seq<string>
  {
    if f == [] then []
    else if IsNumber(Last(f)) && |Last(f)| > 1 then f[..|f| - 1] + [Last(f)[..|Last(f)| - 1]]
    else f[..|f| - 1]
  }

  lemma KeysAppend(f: seq<string>, t: string)
    ensures Keys(f + [t]) == Keys(f) + t
  {
    assert (f + [t])[..|f|] == f;
  }

  /**
    Adding a token never loses a key: the typed text grows by exactly t, unless t is a dropped
    '.'. The number of tokens stays the same when t is folded into the last one, and grows by
    one otherwise.
   */
  lemma AppendTokenKeepsKeys(f: seq<string>, t: string)
    ensures Dropped(f, t) ==> AppendToken(f, t) == f
    ensures !Dropped(f, t) ==> Keys(AppendToken(f, t)) == Keys(f) + t
    ensures |AppendToken(f, t)| == |f| + (if Dropped(f, t) || Merged(f, t) then 0 else 1)
    ensures AppendToken(f, t)[..|f| - (if Merged(f, t) then 1 else 0)] ==
      f[..|f| - (if Merged(f, t) then 1 else 0)]
  {
    if f == [] {
      assert Keys([t]) == Keys([]) + t by { KeysAppend([], t); }
    } else if Merged(f, t) {
      var init := f[..|f| - 1];
      assert f == init + [Last(f)];
      KeysAppend(init, Last(f));
      KeysAppend(init, Last(f) + t);
    } else if !Dropped(f, t) {
      KeysAppend(f, t);
    }
  }

  /** Digits typed after a number extend it: "1" then "2" is ["12"], "1." then "2" is ["1.2"]. */
  lemma AppendDigitExamples()
    ensures AppendToken(["1"], "2") == ["12"]
    ensures AppendToken(["1."], "2") == ["1.2"]
    ensures AppendToken(["A1"], "2") == ["A1", "2"]
  {
    assert IsNumber("1") && IsNumber("2") && IsNumber("1.") && !IsNumber("A1");
    assert "1" + "2" == "12" && "1." + "2" == "1.2";
  }

  /** A '.' extends a number without one and is ignored anywhere else but at the start. */
  lemma AppendDotExamples()
    ensures AppendToken([], ".") == ["."]
    ensures AppendToken(["1"], ".") == ["1."]
    ensures AppendToken(["1.2"], ".") == ["1.2"]
    ensures AppendToken(["1", "+"], ".") == ["1", "+"]
  {
    assert IsNumber("1") && IsNumber("1.2") && !IsNumber("+") && !IsNumber(".");
    assert "1.2"[1] == '.' && '.' !in "1";
    assert "1" + "." == "1.";
  }

  /** Any other token starts a new token. */
  lemma AppendOperatorExample()
    ensures AppendToken(["1"], "+") == ["1", "+"]
  {
    assert !IsNumber("+");
  }

  /** A number typed key by key keeps its digits: with at most one '.' it stays a number. */
  lemma NumberPlusDigit(n: string, t: string)
    requires IsNumber(n) && |t| == 1 && IsDigit(t[0])
    ensures IsNumber(n + t)
    ensures '.' in n + t <==> '.' in n
  {
    assert multiset(n + t) == multiset(n) + multiset(t);
    assert multiset(t)['.'] == 0;
    assert (n + t)[|n|] == t[0];
  }

  lemma NumberPlusDot(n: string)
    requires IsNumber(n) && '.' !in n
    ensures IsNumber(n + ".")
  {
    assert multiset(n + ".") == multiset(n) + multiset{'.'};
    assert multiset(n)['.'] == 0;
  }

  /**
    `removeToken` undoes `addToken` of one key that was not ignored. Keys longer than one
    character are exempt when they are numbers, since only their last character is removed.
   */
  lemma RemoveUndoesAppend(f: seq<string>, t: string)
    requires !Dropped(f, t)
    requires |t| == 1 || !IsNumber(t)
    ensures RemoveLast(AppendToken(f, t)) == f
  {
    if f == [] {
    } else if IsNumber(Last(f)) && IsNumber(t) {
      var l := Last(f);
      assert IsDigit(t[0]) by {
        assert t == [t[0]];
      }
      NumberPlusDigit(l, t);
      assert (l + t)[..|l + t| - 1] == l;
      assert f == f[..|f| - 1] + [l];
    } else if t == "." {
      var l := Last(f);
      NumberPlusDot(l);
      assert (l + ".")[..|l + "."| - 1] == l;
      assert f == f[..|f| - 1] + [l];
    } else {
      assert (f + [t])[..|f|] == f;
    }
  }

  /**
    `removeToken` deletes one key from the end when the last token is a number, and deletes
    the whole last token otherwise.
   */
  lemma RemoveLastKeys(f: seq<string>)
    requires f != []
    ensures IsNumber(Last(f)) && |Last(f)| > 1 ==>
      |RemoveLast(f)| == |f| && Keys(RemoveLast(f)) + [Last(f)[|Last(f)| - 1]] == Keys(f)
    ensures !(IsNumber(Last(f)) && |Last(f)| > 1) ==>
      |RemoveLast(f)| == |f| - 1 && Keys(RemoveLast(f)) + Last(f) == Keys(f)
  {
    var init := f[..|f| - 1];
    var l := Last(f);
    assert f == init + [l];
    if IsNumber(l) && |l| > 1 {
      assert RemoveLast(f) == init + [l[..|l| - 1]];
      KeysShortenLast(init, l);
    } else {
      assert RemoveLast(f) == init;
      KeysAppend(init, l);
    }
  }

  /** Dropping the last key of the last token drops the last key of the typed text. */
  lemma KeysShortenLast(init: seq<string>, l: string)
    requires l != ""
    ensures Keys(init + [l[..|l| - 1]]) + [l[|l| - 1]] == Keys(init + [l])
  {
    KeysAppend(init, l);
    KeysAppend(init, l[..|l| - 1]);
    assert l == l[..|l| - 1] + [l[|l| - 1]];
  }

  lemma RemoveLastExamples()
    ensures RemoveLast([]) == []
    ensures RemoveLast(["12"]) == ["1"]
    ensures RemoveLast(["1", "+"]) == ["1"]
    ensures RemoveLast(["A12"]) == []
  {
    assert IsNumber("12") && !IsNumber("+") && !IsNumber("A12");
    assert "12"[..1] == "1";
  }

  // ---------------------------------------------------------------------------
  // The formula as text
  // ---------------------------------------------------------------------------

  /** The tokens separated by single spaces. */
  function Join(f: seq<string>): string
  {
    if f == [] then "" else if |f| == 1 then f[0] else f[0] + " " + Join(f[1..])
  }

  /** The text the builder's loop accumulates: each token followed by a space. */
  function Spaced(f: seq<string>): string
  {
    if f == [] then "" else Spaced(f[..|f| - 1]) + Last(f) + " "
  }

  lemma {:induction false} SpacedIsJoinPlusSpace(f: seq<string>)
    requires f != []
    ensures Spaced(f) == Join(f) + " "
  {
    if |f| > 1 {
      var init := f[..|f| - 1];
      SpacedIsJoinPlusSpace(init);
      JoinSnoc(init, Last(f));
      assert f == init + [Last(f)];
    }
  }

  lemma {:induction false} JoinSnoc(f: seq<string>, t: string)
    requires f != []
    ensures Join(f + [t]) == Join(f) + " " + t
  {
    if |f| > 1 {
      assert (f + [t])[1..] == f[1..] + [t];
      JoinSnoc(f[1..], t);
    }
  }

  predicate IsSpaceFree(t: string) { ' ' !in t }

  /** Split text at every space; no text splits into no tokens. */
  function Split(s: string): seq<string>
    decreases |s|
  {
    if s == [] then [] else SplitWord(s, 0)
  }

  /** The word starting at s[i..], then the words after its space. */
  function SplitWord(s: string, i: nat): seq<string>
    requires i <= |s|
    decreases |s|, |s| - i
  {
    if i == |s| then [s]
    else if s[i] == ' ' then [s[..i]] + SplitWord(s[i + 1..], 0)
    else SplitWord(s, i + 1)
  }

  lemma {:induction false} SplitWordSkipsWord(w: string, rest: string, i: nat)
    requires i <= |w| && IsSpaceFree(w)
    ensures SplitWord(w + rest, i) == SplitWord(w + rest, |w|)
    decreases |w| - i
  {
    if i < |w| {
      assert (w + rest)[i] == w[i];
      SplitWordSkipsWord(w, rest, i + 1);
    }
  }

  /** Splitting the joined text of non-empty, space-free tokens gives the tokens back. */
  lemma {:induction false} SplitJoin(f: seq<string>)
    requires forall i :: 0 <= i < |f| ==> f[i] != "" && IsSpaceFree(f[i])
    ensures Split(Join(f)) == f
  {
    if |f| == 1 {
      SplitWordSkipsWord(f[0], "", 0);
      assert f[0] + "" == f[0];
    } else if |f| > 1 {
      var w := f[0];
      var rest := " " + Join(f[1..]);
      assert Join(f) == w + rest;
      SplitWordSkipsWord(w, rest, 0);
      assert (w + rest)[|w|] == ' ';
      assert (w + rest)[..|w|] == w;
      assert (w + rest)[|w| + 1..] == Join(f[1..]);
      SplitJoin(f[1..]);
      assert Join(f[1..]) != [] by { assert |Join(f[1..])| >= |f[1]|; }
      assert f == [w] + f[1..];
    }
  }

  /** The length of the text: every token plus one separator between neighbours. */
  lemma {:induction false} JoinLength(f: seq<string>)
    ensures |Join(f)| == TotalLength(f) + (if f == [] then 0 else |f| - 1)
  {
    if |f| > 1 {
      JoinLength(f[1..]);
    }
  }

  function TotalLength(f: seq<string>): nat
  {
    if f == [] then 0 else |f[0]| + TotalLength(f[1..])
  }

  // ---------------------------------------------------------------------------
  // Cell references
  // ---------------------------------------------------------------------------

  /** The labels of the formula's cell references, each at the place it first occurs. */
  function CellReferences(f: seq<string>): seq<string>
  {
    if f == [] then []
    else
      CellReferences(f[..|f| - 1]) +
      (if IsValidCellLabel(Last(f)) && Last(f) !in f[..|f| - 1] then [Last(f)] else [])
  }

  /** A formula references exactly the valid labels among its tokens, with no repetition. */
  lemma {:induction false} CellReferencesMembers(f: seq<string>)
    ensures forall x :: x in CellReferences(f) <==> x in f && IsValidCellLabel(x)
    ensures NoDuplicates(CellReferences(f))
  {
    if f != [] {
      var init := f[..|f| - 1];
      CellReferencesMembers(init);
      assert f == init + [Last(f)];
    }
  }

  /** References appear in the order of their first occurrence in the formula. */
  lemma {:induction false} CellReferencesOrder(f: seq<string>, i: nat, j: nat)
    requires i < j < |CellReferences(f)|
    ensures exists p, q :: (0 <= p < q < |f| && f[p] == CellReferences(f)[i] &&
      f[q] == CellReferences(f)[j] && CellReferences(f)[j] !in f[..q])
  {
    var init := f[..|f| - 1];
    var r := CellReferences(init);
    if j < |r| {
      CellReferencesOrder(init, i, j);
      var p, q :| 0 <= p < q < |init| && init[p] == r[i] && init[q] == r[j] && r[j] !in init[..q];
      assert init[..q] == f[..q];
    } else {
      CellReferencesMembers(init);
      assert r[i] in init;
      var p :| 0 <= p < |init| && init[p] == r[i];
      assert init == f[..|f| - 1];
    }
  }

  lemma CellReferencesExample()
    ensures CellReferences(["A1", "+", "A2", "+", "A1"]) == ["A1", "A2"]
  {
    var f := ["A1", "+", "A2", "+", "A1"];
    assert f[..4] == ["A1", "+", "A2", "+"] && f[..4][..3] == ["A1", "+", "A2"];
    assert f[..4][..3][..2] == ["A1", "+"] && f[..4][..3][..2][..1] == ["A1"];
    assert IsValidCellLabel("A1") && IsValidCellLabel("A2") && !IsValidCellLabel("+");
    assert CellReferences(["A1"]) == ["A1"];
    assert CellReferences(["A1", "+"]) == ["A1"];
    assert CellReferences(["A1", "+", "A2"]) == ["A1", "A2"];
    assert CellReferences(["A1", "+", "A2", "+"]) == ["A1", "A2"];
    assert "A1" in f[..4];
  }

  /** The formula being typed by one user. */
  class FormulaBuilder {
    var formula: seq<string>

    constructor()
      ensures formula == []
    {
      formula := [];
    }

    method SetFormula(f: seq<string>)
      modifies this
      ensures formula == f
    {
      formula := f;
    }

    method AddToken(token: string)
      modifies this
      ensures formula == AppendToken(old(formula), token)
    {
      var lastTokenUpdated := false;
      var ignoringToken := false;
      if |formula| == 0 {
        formula := formula + [token];
        return;
      }
      var lastToken := formula[|formula| - 1];
      if IsNumber(lastToken) && IsNumber(token) {
        lastToken := lastToken + token;
        lastTokenUpdated := true;
      }
      if !IsNumber(lastToken) && token == "." {
        ignoringToken := true;
      }
      if IsNumber(lastToken) && token == "." && '.' in lastToken {
        lastTokenUpdated := false;
        ignoringToken := true;
      }
      if IsNumber(lastToken) && token == "." && '.' !in lastToken {
        lastToken := lastToken + token;
        lastTokenUpdated := true;
      }
      if lastTokenUpdated {
        formula := formula[|formula| - 1 := lastToken];
      } else if !ignoringToken {
        formula := formula + [token];
      }
    }

    method RemoveToken()
      modifies this
      ensures formula == RemoveLast(old(formula))
    {
      if |formula| == 0 {
        return;
      }
      var lastToken := formula[|formula| - 1];
      if IsNumber(lastToken) && |lastToken| > 1 {
        lastToken := lastToken[..|lastToken| - 1];
        formula := formula[|formula| - 1 := lastToken];
      } else {
        formula := formula[..|formula| - 1];
      }
    }

    method GetFormulaString() returns (result: string)
      ensures result == Join(formula)
    {
      result := "";
      for i := 0 to |formula|
        invariant result == Spaced(formula[..i])
      {
        assert formula[..i + 1][..i] == formula[..i];
        result := result + formula[i] + " ";
      }
      assert formula[..|formula|] == formula;
      if |result| > 0 {
        SpacedIsJoinPlusSpace(formula);
        result := result[..|result| - 1];
      }
    }

    static method GetCellReferences(f: seq<string>) returns (result: seq<string>)
      ensures result == CellReferences(f)
    {
      result := [];
      for i := 0 to |f|
        invariant result == CellReferences(f[..i])
      {
        var token := f[i];
        CellReferencesMembers(f[..i]);
        assert f[..i + 1][..i] == f[..i];
        if IsValidCellLabel(token) && token !in result {
          result := result + [token];
        }
      }
      assert f[..|f|] == f;
    }
  }
}
