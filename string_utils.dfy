/** `normalizeWhiteSpace`: drop invisible characters, collapse whitespace runs, trim. */
module StringUtils {
  import opened Text

  /** The zero-width space and the soft hyphen, removed before anything else. */
  predicate Invisible(c: char) {
    c == '\U{200B}' || c == '\U{AD}'
  }

  predicate NoInvisible(s: string) {
    forall i :: 0 <= i < |s| ==> !Invisible(s[i])
  }

  /** Every whitespace character is a plain space. */
  predicate WsAreSpaces(s: string) {
    forall i :: 0 <= i < |s| ==> IsWs(s[i]) ==> s[i] == ' '
  }

  /** No two neighbouring characters are both whitespace. */
  predicate NoDoubleWs(s: string) {
    forall i :: 0 <= i < |s| - 1 ==> !(IsWs(s[i]) && IsWs(s[i + 1]))
  }

  /** What `normalizeWhiteSpace` leaves: no invisible characters, single spaces, trimmed. */
  predicate Normal(s: string) {
    NoInvisible(s) && WsAreSpaces(s) && NoDoubleWs(s)
    && (s == [] || (!IsWs(s[0]) && !IsWs(s[|s| - 1])))
  }

  /** `replace(/[​­]/g, "")`: the other characters, in order. */
  function RemoveInvisible(s: string): (r: string)
    ensures NoInvisible(r)
    ensures |r| <= |s|
    ensures forall i :: 0 <= i < |r| ==> r[i] in s
    ensures NoInvisible(s) ==> r == s
  {
    if s == [] then []
    else if Invisible(s[0]) then RemoveInvisible(s[1..])
    else [s[0]] + RemoveInvisible(s[1..])
  }

  lemma {:induction false} RemoveInvisibleConcat(s: string, t: string)
    ensures RemoveInvisible(s + t) == RemoveInvisible(s) + RemoveInvisible(t)
  {
    if s == [] {
      assert s + t == t;
    } else {
      assert (s + t)[0] == s[0] && (s + t)[1..] == s[1..] + t;
      RemoveInvisibleConcat(s[1..], t);
    }
  }

  /** `replace(/\s+/g, " ")`: each maximal whitespace run becomes one space. */
  function Collapse(s: string): (r: string)
    ensures r == [] <==> s == []
    ensures s != [] ==> r[0] == (if IsWs(s[0]) then ' ' else s[0])
    decreases |s|
  {
    if s == [] then []
    else if IsWs(s[0]) then [' '] + Collapse(TrimStart(s[1..]))
    else [s[0]] + Collapse(s[1..])
  }

  /** Putting a character before a collapsed text keeps it collapsed when the seam holds no double whitespace. */
  lemma ConsKeepsShape(c: char, t: string)
    requires WsAreSpaces(t) && NoDoubleWs(t)
    requires IsWs(c) ==> c == ' ' && (t == [] || !IsWs(t[0]))
    ensures WsAreSpaces([c] + t) && NoDoubleWs([c] + t)
  {
    var r := [c] + t;
    assert forall i :: 1 <= i < |r| ==> r[i] == t[i - 1];
  }

  /** A suffix of a text without invisible characters has none either. */
  lemma SuffixNoInvisible(s: string, k: nat)
    requires k <= |s| && NoInvisible(s)
    ensures NoInvisible(s[k..])
  {
    assert forall i :: 0 <= i < |s| - k ==> s[k..][i] == s[k + i];
  }

  /** Each whitespace run is a single space, and no invisible character is introduced. */
  lemma {:induction false} CollapseShape(s: string)
    ensures WsAreSpaces(Collapse(s)) && NoDoubleWs(Collapse(s))
    ensures NoInvisible(s) ==> NoInvisible(Collapse(s))
    decreases |s|
  {
    if s != [] {
      var rest := if IsWs(s[0]) then TrimStart(s[1..]) else s[1..];
      var head := if IsWs(s[0]) then ' ' else s[0];
      assert Collapse(s) == [head] + Collapse(rest);
      CollapseShape(rest);
      ConsKeepsShape(head, Collapse(rest));
      if NoInvisible(s) {
        SuffixNoInvisible(s, 1);
        SuffixNoInvisible(s[1..], |s[1..]| - |TrimStart(s[1..])|);
        var r := Collapse(s);
        assert forall i :: 1 <= i < |r| ==> r[i] == Collapse(rest)[i - 1];
      }
    }
  }

  /** `normalizeWhiteSpace(value)` */
  function NormalizeWhiteSpace(value: string): string {
    Trim(Collapse(RemoveInvisible(value)))
  }

  /** Trimming cuts a slice out of the middle. */
  lemma TrimSlice(s: string) returns (k: nat)
    ensures k + |Trim(s)| <= |s| && Trim(s) == s[k..k + |Trim(s)|]
  {
    var t := TrimStart(s);
    k := |s| - |t|;
    assert Trim(s) == t[..|Trim(s)|];
  }

  /** The output contains no invisible character, each whitespace run is one space, and it is trimmed. */
  lemma NormalizeIsNormal(value: string)
    ensures Normal(NormalizeWhiteSpace(value))
  {
    var ri := RemoveInvisible(value);
    assert NoInvisible(ri);
    CollapseShape(ri);
    TrimIsNormal(Collapse(ri));
  }

  /** Trimming a collapsed text without invisible characters gives a normal one. */
  lemma TrimIsNormal(c: string)
    requires NoInvisible(c) && WsAreSpaces(c) && NoDoubleWs(c)
    ensures Normal(Trim(c))
  {
    var k := TrimSlice(c);
    SliceKeeps(c, k, k + |Trim(c)|);
  }

  /** The three character-level properties survive taking a slice. */
  lemma SliceKeeps(s: string, lo: nat, hi: nat)
    requires lo <= hi <= |s|
    requires NoInvisible(s) && WsAreSpaces(s) && NoDoubleWs(s)
    ensures NoInvisible(s[lo..hi]) && WsAreSpaces(s[lo..hi]) && NoDoubleWs(s[lo..hi])
  {
    var t := s[lo..hi];
    assert forall i :: 0 <= i < |t| ==> t[i] == s[lo + i];
  }

  /** A string whose runs are already single spaces collapses to itself. */
  lemma {:induction false} CollapseNoOp(s: string)
    requires WsAreSpaces(s) && NoDoubleWs(s)
    ensures Collapse(s) == s
    decreases |s|
  {
    if s != [] {
      var t := s[1..];
      assert WsAreSpaces(t) && NoDoubleWs(t) by {
        assert forall i :: 0 <= i < |t| ==> t[i] == s[i + 1];
      }
      if IsWs(s[0]) {
        assert t == [] || !IsWs(t[0]);
        assert TrimStart(t) == t;
      }
      CollapseNoOp(t);
      assert s == [s[0]] + t;
    }
  }

  /** A text without whitespace is left as it is. */
  lemma {:induction false} CollapseNoWs(s: string)
    requires forall i :: 0 <= i < |s| ==> !IsWs(s[i])
    ensures Collapse(s) == s
    decreases |s|
  {
    if s != [] {
      CollapseNoWs(s[1..]);
      assert s == [s[0]] + s[1..];
    }
  }

  /** A non-empty run of whitespace collapses to one space. */
  lemma CollapseRun(w: string)
    requires w != [] && AllWs(w)
    ensures Collapse(w) == " "
  {
    assert AllWs(w[1..]) by {
      assert forall i :: 0 <= i < |w| - 1 ==> w[1..][i] == w[i + 1];
    }
    var t := TrimStart(w[1..]);
    assert t == [];
  }

  /** Collapsing works part by part when the seam is not inside a whitespace run. */
  lemma {:induction false} CollapseConcat(a: string, b: string)
    requires a == [] || b == [] || !IsWs(a[|a| - 1]) || !IsWs(b[0])
    ensures Collapse(a + b) == Collapse(a) + Collapse(b)
    decreases |a|
  {
    if a == [] {
      assert a + b == b;
    } else if b == [] {
      assert a + b == a;
    } else if !IsWs(a[0]) {
      CollapseConcat(a[1..], b);
      CollapseWordStep(a[0], a[1..], b);
      assert a == [a[0]] + a[1..];
    } else if AllWs(a[1..]) {
      assert IsWs(a[|a| - 1]) by {
        if |a| > 1 { assert a[|a| - 1] == a[1..][|a| - 2]; }
      }
      CollapseRunStep(a[0], a[1..], b);
      assert a == [a[0]] + a[1..];
    } else {
      var u := TrimStart(a[1..]);
      assert u != [] && u[|u| - 1] == a[|a| - 1] by {
        assert u == a[1..][|a[1..]| - |u|..];
      }
      CollapseConcat(u, b);
      CollapseSpaceStep(a[0], a[1..], b);
      assert a == [a[0]] + a[1..];
    }
  }

  lemma CollapseWordStep(c: char, t: string, b: string)
    requires !IsWs(c)
    requires Collapse(t + b) == Collapse(t) + Collapse(b)
    ensures Collapse([c] + t + b) == Collapse([c] + t) + Collapse(b)
  {
    AppendAssoc([c], t, b);
    CollapseCons(c, t);
    CollapseCons(c, t + b);
    AppendAssoc([c], Collapse(t), Collapse(b));
  }

  lemma CollapseCons(c: char, s: string)
    requires !IsWs(c)
    ensures Collapse([c] + s) == [c] + Collapse(s)
  {
    assert ([c] + s)[0] == c && ([c] + s)[1..] == s;
  }

  lemma CollapseRunStep(c: char, t: string, b: string)
    requires IsWs(c) && AllWs(t) && (b == [] || !IsWs(b[0]))
    ensures Collapse([c] + t + b) == Collapse([c] + t) + Collapse(b)
  {
    AppendAssoc([c], t, b);
    CollapseSpaceCons(c, t);
    CollapseSpaceCons(c, t + b);
    TrimStartConcat(t, b);
    assert TrimStart(b) == b;
    assert TrimStart(t) == [];
    assert Collapse([c] + t) == " ";
  }

  lemma CollapseSpaceStep(c: char, t: string, b: string)
    requires IsWs(c) && !AllWs(t)
    requires Collapse(TrimStart(t) + b) == Collapse(TrimStart(t)) + Collapse(b)
    ensures Collapse([c] + t + b) == Collapse([c] + t) + Collapse(b)
  {
    AppendAssoc([c], t, b);
    CollapseSpaceCons(c, t);
    CollapseSpaceCons(c, t + b);
    TrimStartConcat(t, b);
    AppendAssoc(" ", Collapse(TrimStart(t)), Collapse(b));
  }

  lemma CollapseSpaceCons(c: char, s: string)
    requires IsWs(c)
    ensures Collapse([c] + s) == " " + Collapse(TrimStart(s))
  {
    assert ([c] + s)[0] == c && ([c] + s)[1..] == s;
  }

  /** A whitespace run between two words becomes one space, and the words are collapsed on their own. */
  lemma CollapseBetween(a: string, w: string, b: string)
    requires w != [] && AllWs(w)
    requires a == [] || !IsWs(a[|a| - 1])
    requires b == [] || !IsWs(b[0])
    ensures Collapse(a + w + b) == Collapse(a) + " " + Collapse(b)
  {
    AppendAssoc(a, w, b);
    CollapseConcat(a, w + b);
    CollapseConcat(w, b);
    CollapseRun(w);
    AppendAssoc(Collapse(a), " ", Collapse(b));
  }

  /** The normalised strings are exactly the fixed points of `normalizeWhiteSpace`. */
  lemma NormalIsFixedPoint(s: string)
    ensures NormalizeWhiteSpace(s) == s <==> Normal(s)
  {
    if Normal(s) {
      CollapseNoOp(s);
      TrimNoOp(s);
    }
    NormalizeIsNormal(s);
  }

  /** Normalising twice is normalising once. */
  lemma NormalizeIdempotent(value: string)
    ensures NormalizeWhiteSpace(NormalizeWhiteSpace(value)) == NormalizeWhiteSpace(value)
  {
    NormalizeIsNormal(value);
    NormalIsFixedPoint(NormalizeWhiteSpace(value));
  }

  /**
   * Removal comes first: whitespace on both sides of an invisible character
   * merges into a single space.
   */
  lemma InvisibleBetweenSpaces(x: string, y: string)
    ensures NormalizeWhiteSpace(x + " \U{200B} " + y) == NormalizeWhiteSpace(x + " " + y)
  {
    var a := RemoveInvisible(x);
    var b := RemoveInvisible(y);
    RemoveAround(x, y);
    CollapseSpaces(a, b);
  }

  lemma RemoveAround(x: string, y: string)
    ensures RemoveInvisible(x + " \U{200B} " + y) == RemoveInvisible(x) + "  " + RemoveInvisible(y)
    ensures RemoveInvisible(x + " " + y) == RemoveInvisible(x) + " " + RemoveInvisible(y)
  {
    var m := " \U{200B} ";
    RemoveInvisibleConcat(x + m, y);
    RemoveInvisibleConcat(x, m);
    RemoveInvisibleConcat(x + " ", y);
    RemoveInvisibleConcat(x, " ");
    assert RemoveInvisible(m) == "  " by {
      assert m[1..] == "\U{200B} " && m[1..][1..] == " ";
    }
  }

  /** Two spaces in a row collapse like one. */
  lemma {:induction false} CollapseSpaces(a: string, b: string)
    ensures Collapse(a + "  " + b) == Collapse(a + " " + b)
    decreases |a|, 0
  {
    var two := a + "  " + b;
    var one := a + " " + b;
    if a == [] {
      assert two == [' '] + (" " + b);
      assert one == [' '] + b;
      assert TrimStart(" " + b) == TrimStart(b) by {
        assert (" " + b)[1..] == b;
      }
    } else {
      assert two[1..] == a[1..] + "  " + b;
      assert one[1..] == a[1..] + " " + b;
      assert two[0] == a[0] == one[0];
      if IsWs(a[0]) {
        TrimStartSpaces(a[1..], b);
        assert Collapse(two) == [' '] + Collapse(TrimStart(two[1..]));
        assert Collapse(one) == [' '] + Collapse(TrimStart(one[1..]));
      } else {
        CollapseSpaces(a[1..], b);
        assert Collapse(two) == [a[0]] + Collapse(two[1..]);
        assert Collapse(one) == [a[0]] + Collapse(one[1..]);
      }
    }
  }

  /** Leading whitespace is trimmed the same whether one or two spaces follow it. */
  lemma {:induction false} TrimStartSpaces(a: string, b: string)
    ensures Collapse(TrimStart(a + "  " + b)) == Collapse(TrimStart(a + " " + b))
    decreases |a|, 1
  {
    if a == [] {
      TrimStartEmptyPrefix(b);
    } else if IsWs(a[0]) {
      TrimStartWsHead(a, b);
      TrimStartSpaces(a[1..], b);
    } else {
      TrimStartNonWsHead(a, b);
      CollapseSpaces(a, b);
    }
  }

  lemma TrimStartEmptyPrefix(b: string)
    ensures TrimStart("" + "  " + b) == TrimStart(b) && TrimStart("" + " " + b) == TrimStart(b)
  {
    var one := [' '] + b;
    var two := [' '] + one;
    assert "" + " " + b == one && "" + "  " + b == two;
    assert one[0] == ' ' && one[1..] == b;
    assert two[0] == ' ' && two[1..] == one;
    assert TrimStart(one) == TrimStart(b);
    assert TrimStart(two) == TrimStart(one);
  }

  lemma TrimStartWsHead(a: string, b: string)
    requires a != [] && IsWs(a[0])
    ensures TrimStart(a + "  " + b) == TrimStart(a[1..] + "  " + b)
    ensures TrimStart(a + " " + b) == TrimStart(a[1..] + " " + b)
  {
    assert (a + "  " + b)[1..] == a[1..] + "  " + b;
    assert (a + " " + b)[1..] == a[1..] + " " + b;
    assert (a + "  " + b)[0] == a[0] == (a + " " + b)[0];
  }

  lemma TrimStartNonWsHead(a: string, b: string)
    requires a != [] && !IsWs(a[0])
    ensures TrimStart(a + "  " + b) == a + "  " + b
    ensures TrimStart(a + " " + b) == a + " " + b
  {
    assert (a + "  " + b)[0] == a[0] == (a + " " + b)[0];
  }
}
