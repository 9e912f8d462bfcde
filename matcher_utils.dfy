/**
 * Value access and equality for the matchers: `isDeepEqual` and
 * `getPropertyByPath` (a character-level path parser followed by a checked
 * traversal).
 */
module MatcherUtils {
  import opened Wrappers
  import opened Text
  import opened JsValues

  // ---------------------------------------------------------------- isDeepEqual

  /**
   * `isDeepEqual(a, b)`. Objects are compared purely through `Object.keys`:
   * same number of keys, and every key of `a` is a key of `b` with a deep-equal
   * value. (`a[key]` for the i-th key of `a` is the i-th property's value,
   * since JavaScript keys are unique.)
   */
  function IsDeepEqual(a: JsValue, b: JsValue): bool
    decreases a
  {
    if Identical(a, b) then true
    else if a.Null? || b.Null? then false
    else if !IsObject(a) || !IsObject(b) then false
    else if |Keys(a)| != |Keys(b)| then false
    else
      match a
      case Obj(_, ps) =>
        forall i :: 0 <= i < |ps| ==>
          ps[i].key in Keys(b) && IsDeepEqual(ps[i].val, Get(b, ps[i].key))
      case Arr(_, es) =>
        forall i :: 0 <= i < |es| ==>
          NatToString(i) in Keys(b) && IsDeepEqual(es[i], Get(b, NatToString(i)))
      case SetV(_, _) => true
  }

  /** `===`-identical values are deep-equal. */
  lemma IdenticalIsDeepEqual(a: JsValue, b: JsValue)
    requires Identical(a, b)
    ensures IsDeepEqual(a, b)
  {
  }

  /** Exactly one side null, or a non-identical non-object, makes the values unequal. */
  lemma DeepEqualRejects(a: JsValue, b: JsValue)
    requires !Identical(a, b)
    requires a.Null? || b.Null? || !IsObject(a) || !IsObject(b)
    ensures !IsDeepEqual(a, b)
  {
  }

  /** Deep equality of two objects asks for as many keys on both sides. */
  lemma DeepEqualSameKeyCount(a: JsValue, b: JsValue)
    requires IsObject(a) && IsObject(b) && IsDeepEqual(a, b) && !Identical(a, b)
    ensures |Keys(a)| == |Keys(b)|
  {
  }

  /** Any two Sets are deep-equal, since a Set has no own keys; so are a Set and `{}`. */
  lemma SetsAreDeepEqual(a: JsValue, b: JsValue)
    requires a.SetV? && (b.SetV? || (b.Obj? && b.props == []))
    ensures IsDeepEqual(a, b)
  {
  }

  /** The plain object whose properties are an array's indices and elements. */
  function IndexedProps(es: seq<JsValue>): (r: seq<Prop>)
    ensures |r| == |es|
    ensures forall i :: 0 <= i < |es| ==> r[i] == Prop(NatToString(i), es[i])
  {
    if es == [] then [] else IndexedProps(es[..|es| - 1]) + [Prop(NatToString(|es| - 1), es[|es| - 1])]
  }

  lemma IndexedPropsUnique(es: seq<JsValue>)
    ensures UniqueKeys(IndexedProps(es))
  {
    var ps := IndexedProps(es);
    forall i, j | 0 <= i < j < |ps| ensures ps[i].key != ps[j].key {
      if ps[i].key == ps[j].key {
        IndexKeyInjective(i, j);
      }
    }
  }

  /** An array equals a plain object with the same index keys and values. */
  lemma {:induction false} ArrayEqualsIndexedObject(id1: nat, id2: nat, es: seq<JsValue>)
    ensures IsDeepEqual(Arr(id1, es), Obj(id2, IndexedProps(es)))
  {
    var ps := IndexedProps(es);
    var b := Obj(id2, ps);
    IndexedPropsUnique(es);
    forall i | 0 <= i < |es|
      ensures NatToString(i) in Keys(b) && IsDeepEqual(es[i], Get(b, NatToString(i)))
    {
      assert Keys(b)[i] == NatToString(i);
      LookupPropAt(ps, i);
      IdenticalIsDeepEqual(es[i], es[i]);
    }
  }

  lemma {:induction false} UniqueKeysCard(ps: seq<Prop>)
    requires UniqueKeys(ps)
    ensures |set k | k in PropKeys(ps)| == |ps|
  {
    if ps != [] {
      var rest := set k | k in PropKeys(ps[1..]);
      assert |rest| == |ps| - 1 by {
        assert UniqueKeys(ps[1..]) by {
          forall i, j | 0 <= i < j < |ps| - 1 ensures ps[1..][i].key != ps[1..][j].key {
            assert ps[1..][i] == ps[i + 1] && ps[1..][j] == ps[j + 1];
          }
        }
        UniqueKeysCard(ps[1..]);
      }
      assert ps[0].key !in rest by {
        forall j | 0 <= j < |ps| - 1 ensures PropKeys(ps[1..])[j] != ps[0].key {
          assert PropKeys(ps[1..])[j] == ps[j + 1].key;
        }
      }
      assert (set k | k in PropKeys(ps)) == {ps[0].key} + rest by {
        assert PropKeys(ps) == [ps[0].key] + PropKeys(ps[1..]);
      }
    }
  }

  /** Key order is irrelevant: two objects with the same key/value mapping are deep-equal. */
  lemma {:induction false} KeyOrderIrrelevant(id1: nat, id2: nat, ps: seq<Prop>, qs: seq<Prop>)
    requires UniqueKeys(ps) && UniqueKeys(qs)
    requires forall k :: LookupProp(ps, k) == LookupProp(qs, k)
    ensures IsDeepEqual(Obj(id1, ps), Obj(id2, qs))
  {
    var a, b := Obj(id1, ps), Obj(id2, qs);
    assert (set k | k in PropKeys(ps)) == (set k | k in PropKeys(qs)) by {
      forall k ensures k in PropKeys(ps) <==> k in PropKeys(qs) {
        assert LookupProp(ps, k) == LookupProp(qs, k);
      }
    }
    UniqueKeysCard(ps);
    UniqueKeysCard(qs);
    forall i | 0 <= i < |ps|
      ensures ps[i].key in Keys(b) && IsDeepEqual(ps[i].val, Get(b, ps[i].key))
    {
      LookupPropAt(ps, i);
      assert LookupProp(qs, ps[i].key) == Some(ps[i].val);
      IdenticalIsDeepEqual(ps[i].val, ps[i].val);
    }
  }

  // ---------------------------------------------------------- path segmentation

  /** The parser's variables: `segments`, `currentSegment`, `inBrackets`. */
  datatype ParseState = ParseState(segments: seq<string>, current: string, inBrackets: bool)

  const Start := ParseState([], "", false)

  /** `if (currentSegment) segments.push(currentSegment)`, resetting the segment. */
  function Flush(st: ParseState): seq<string> {
    if st.current != "" then st.segments + [st.current] else st.segments
  }

  /** One iteration of the character loop; `None` is the "Invalid path" throw. */
  function Step(st: ParseState, c: char): Option<ParseState> {
    if c == '.' && !st.inBrackets then Some(ParseState(Flush(st), "", false))
    else if c == '[' then Some(ParseState(Flush(st), "", true))
    else if c == ']' then
      if st.inBrackets then Some(ParseState(st.segments + [st.current], "", false)) else None
    else Some(st.(current := st.current + [c]))
  }

  /** The character loop run from `st` over `s`. */
  function ParseFrom(st: ParseState, s: string): Option<ParseState>
    decreases |s|
  {
    if s == [] then Some(st)
    else
      match Step(st, s[0])
      case None => None
      case Some(next) => ParseFrom(next, s[1..])
  }

  /** The segments of a path, or the error the parser throws. */
  function ParsePath(path: string): Result<seq<string>> {
    if path == "" then Failure("Invalid path: empty string")
    else
      match ParseFrom(Start, path)
      case None => Failure("Invalid path: " + path)
      case Some(st) => Success(Flush(st))
  }

  /** Runs the character loop over `q` after a prefix that ended in `o`. */
  function ParseOn(o: Option<ParseState>, q: string): Option<ParseState> {
    match o
    case None => None
    case Some(mid) => ParseFrom(mid, q)
  }

  lemma {:induction false} ParseFromConcat(st: ParseState, p: string, q: string)
    ensures ParseFrom(st, p + q) == ParseOn(ParseFrom(st, p), q)
    decreases |p|
  {
    if p == [] {
      assert p + q == q;
    } else {
      assert (p + q)[0] == p[0] && (p + q)[1..] == p[1..] + q;
      match Step(st, p[0])
      case None =>
      case Some(next) => ParseFromConcat(next, p[1..], q);
    }
  }

  predicate NoBrackets(s: string) {
    '[' !in s && ']' !in s
  }

  /** The empty path is refused. */
  lemma EmptyPathFails()
    ensures ParsePath("") == Failure("Invalid path: empty string")
  {
  }

  /** A `]` with no open `[` makes the whole path invalid, whatever follows. */
  lemma {:induction false} StrayCloseBracketFails(p: string, q: string)
    requires NoBrackets(p)
    ensures ParsePath(p + "]" + q) == Failure("Invalid path: " + p + "]" + q)
  {
    var st := StayOutside(Start, p);
    ParseFromConcat(Start, p, "]" + q);
    assert p + "]" + q == p + ("]" + q);
    assert ("]" + q)[0] == ']';
    assert ParseFrom(st, "]" + q) == None;
  }

  /** Outside brackets, a bracket-free text never opens one. */
  lemma {:induction false} StayOutside(st: ParseState, p: string) returns (r: ParseState)
    requires !st.inBrackets && NoBrackets(p)
    ensures ParseFrom(st, p) == Some(r) && !r.inBrackets
    decreases |p|
  {
    if p == [] {
      r := st;
    } else {
      assert p[0] in p;
      var next := Step(st, p[0]).value;
      assert !next.inBrackets;
      assert NoBrackets(p[1..]) by { assert forall c :: c in p[1..] ==> c in p; }
      r := StayOutside(next, p[1..]);
    }
  }

  /** The non-empty strings of a list, in order. */
  function NonEmpty(parts: seq<string>): (r: seq<string>)
    ensures forall i :: 0 <= i < |r| ==> r[i] != ""
  {
    if parts == [] then []
    else if parts[0] == "" then NonEmpty(parts[1..])
    else [parts[0]] + NonEmpty(parts[1..])
  }

  lemma NonEmptyCons(c: string, rest: seq<string>)
    ensures NonEmpty([c] + rest) == (if c == "" then [] else [c]) + NonEmpty(rest)
  {
    assert ([c] + rest)[0] == c && ([c] + rest)[1..] == rest;
  }

  /**
   * Without brackets, the parser's segments are the `.`-separated parts with the
   * empty ones dropped (for a parser state whose open segment has no `.`).
   */
  lemma {:induction false} DotSegments(st: ParseState, q: string)
    requires !st.inBrackets && NoBrackets(q) && '.' !in st.current
    ensures ParseFrom(st, q).Some?
    ensures Flush(ParseFrom(st, q).value) == st.segments + NonEmpty(Split(st.current + q, '.'))
    decreases |q|, 2
  {
    if q == [] {
      SplitNoSep(st.current, '.');
      assert st.current + q == st.current;
      NonEmptyCons(st.current, []);
    } else {
      assert q[0] in q;
      assert NoBrackets(q[1..]) by { assert forall c :: c in q[1..] ==> c in q; }
      if q[0] == '.' {
        DotStep(st, q);
      } else {
        CharStep(st, q);
      }
    }
  }

  lemma AppendHead(a: string, q: string)
    requires q != []
    ensures a + q == a + [q[0]] + q[1..]
  {
    assert q == [q[0]] + q[1..];
  }

  lemma {:induction false} DotStep(st: ParseState, q: string)
    requires !st.inBrackets && NoBrackets(q) && '.' !in st.current
    requires q != [] && q[0] == '.' && NoBrackets(q[1..])
    ensures ParseFrom(st, q).Some?
    ensures Flush(ParseFrom(st, q).value) == st.segments + NonEmpty(Split(st.current + q, '.'))
    decreases |q|, 1
  {
    var restParts := NonEmpty(Split(q[1..], '.'));
    DotStepParse(st, q);
    DotStepSplit(st.current, q);
    if st.current == "" {
      assert [] + restParts == restParts;
    } else {
      assert st.segments + [st.current] + restParts == st.segments + ([st.current] + restParts);
    }
  }

  /** After a `.`, the parser continues from the flushed state. */
  lemma {:induction false} DotStepParse(st: ParseState, q: string)
    requires !st.inBrackets && q != [] && q[0] == '.' && NoBrackets(q[1..])
    ensures ParseFrom(st, q).Some?
    ensures Flush(ParseFrom(st, q).value) == Flush(st) + NonEmpty(Split(q[1..], '.'))
    decreases |q|, 0
  {
    var next := ParseState(Flush(st), "", false);
    var tail := q[1..];
    assert ParseFrom(st, q) == ParseFrom(next, tail) by {
      assert Step(st, q[0]) == Some(next);
    }
    DotSegments(next, tail);
    assert "" + tail == tail;
  }

  /** Splitting at a leading `.` puts the open segment first. */
  lemma DotStepSplit(cur: string, q: string)
    requires '.' !in cur && q != [] && q[0] == '.'
    ensures NonEmpty(Split(cur + q, '.')) == (if cur == "" then [] else [cur]) + NonEmpty(Split(q[1..], '.'))
  {
    assert Split(cur + q, '.') == [cur] + Split(q[1..], '.') by {
      SplitAtSep(cur, q[1..], '.');
      AppendHead(cur, q);
    }
    NonEmptyCons(cur, Split(q[1..], '.'));
  }

  lemma {:induction false} CharStep(st: ParseState, q: string)
    requires !st.inBrackets && NoBrackets(q) && '.' !in st.current
    requires q != [] && q[0] != '.' && q[0] != '[' && q[0] != ']' && NoBrackets(q[1..])
    ensures ParseFrom(st, q).Some?
    ensures Flush(ParseFrom(st, q).value) == st.segments + NonEmpty(Split(st.current + q, '.'))
    decreases |q|, 0
  {
    var next := st.(current := st.current + [q[0]]);
    assert Step(st, q[0]) == Some(next);
    assert ParseFrom(st, q) == ParseFrom(next, q[1..]);
    assert '.' !in next.current;
    DotSegments(next, q[1..]);
    assert st.current + q == next.current + q[1..];
  }

  /** A path without brackets splits at its dots, empty segments dropped. */
  lemma DottedPathSegments(path: string)
    requires path != "" && NoBrackets(path)
    ensures ParsePath(path) == Success(NonEmpty(Split(path, '.')))
  {
    DotSegments(Start, path);
    assert "" + path == path;
    var segs := NonEmpty(Split(path, '.'));
    assert [] + segs == segs;
    assert ParsePath(path) == Success(Flush(ParseFrom(Start, path).value));
  }

  /** Inside brackets every bracket-free character, `.` included, joins the segment. */
  lemma {:induction false} InsideBrackets(segs: seq<string>, cur: string, x: string)
    requires NoBrackets(x)
    ensures ParseFrom(ParseState(segs, cur, true), x) == Some(ParseState(segs, cur + x, true))
    decreases |x|
  {
    if x == [] {
      assert cur + x == cur;
    } else {
      assert NoBrackets(x[1..]) by { assert forall c :: c in x[1..] ==> c in x; }
      InsideBrackets(segs, cur + [x[0]], x[1..]);
      assert cur + [x[0]] + x[1..] == cur + x;
    }
  }

  /**
   * `[x]` after a complete prefix closes the open segment and adds `x` as one
   * segment, even when `x` is empty or contains dots.
   */
  lemma {:induction false} BracketSegment(st: ParseState, x: string)
    requires !st.inBrackets && NoBrackets(x)
    ensures ParseFrom(st, "[" + x + "]") == Some(ParseState(Flush(st) + [x], "", false))
  {
    var s := "[" + x + "]";
    assert s[0] == '[' && s[1..] == x + "]";
    var inside := ParseState(Flush(st), "", true);
    ParseFromConcat(inside, x, "]");
    InsideBrackets(Flush(st), "", x);
    assert "" + x == x;
  }

  /** Outside brackets, a run of plain characters extends the open segment. */
  lemma {:induction false} PlainRun(st: ParseState, y: string)
    requires !st.inBrackets && NoBrackets(y) && '.' !in y
    ensures ParseFrom(st, y) == Some(st.(current := st.current + y))
    decreases |y|
  {
    if y == [] {
      assert st.current + y == st.current;
    } else {
      assert y[0] in y;
      var next := st.(current := st.current + [y[0]]);
      assert ParseFrom(st, y) == ParseFrom(next, y[1..]) by {
        assert Step(st, y[0]) == Some(next);
      }
      assert ParseFrom(next, y[1..]) == Some(next.(current := next.current + y[1..])) by {
        assert NoBrackets(y[1..]) && '.' !in y[1..] by { assert forall c :: c in y[1..] ==> c in y; }
        PlainRun(next, y[1..]);
      }
      assert next.current + y[1..] == st.current + y;
    }
  }

  /** Outside brackets, a `.` closes the open segment. */
  lemma DotThen(st: ParseState, rest: string)
    requires !st.inBrackets
    ensures ParseFrom(st, "." + rest) == ParseFrom(ParseState(Flush(st), "", false), rest)
  {
    var s := "." + rest;
    assert s[0] == '.' && s[1..] == rest;
  }

  /**
   * A path of the shape `x.y[w].z` (as `a.b[1].c` in the source's tests) is the
   * four segments `x`, `y`, `w`, `z`.
   */
  lemma MixedPathSegments(x: string, y: string, w: string, z: string)
    requires x != "" && y != "" && z != ""
    requires NoBrackets(x) && NoBrackets(y) && NoBrackets(z) && NoBrackets(w)
    requires '.' !in x && '.' !in y && '.' !in z
    ensures ParsePath(x + "." + y + "[" + w + "]" + "." + z) == Success([x, y, w, z])
  {
    var t4 := "." + z;
    var t3 := "[" + w + "]" + t4;
    var t2 := y + t3;
    var t1 := "." + t2;
    var path := x + t1;
    assert x + "." + y + "[" + w + "]" + "." + z == path;
    var a := ParseState([], x, false);
    var b := ParseState([x], "", false);
    var c := ParseState([x], y, false);
    var d := ParseState([x, y, w], "", false);
    var e := ParseState([x, y, w], z, false);
    assert ParseFrom(Start, path) == ParseFrom(a, t1) by {
      ParseFromConcat(Start, x, t1);
      PlainRun(Start, x);
      assert "" + x == x;
    }
    assert ParseFrom(a, t1) == ParseFrom(b, t2) by {
      DotThen(a, t2);
      assert Flush(a) == [x];
    }
    assert ParseFrom(b, t2) == ParseFrom(c, t3) by {
      ParseFromConcat(b, y, t3);
      PlainRun(b, y);
      assert "" + y == y;
    }
    assert ParseFrom(c, t3) == ParseFrom(d, t4) by {
      ParseFromConcat(c, "[" + w + "]", t4);
      BracketSegment(c, w);
      assert Flush(c) + [w] == [x, y, w];
    }
    assert ParseFrom(d, t4) == Some(e) by {
      DotThen(d, z);
      PlainRun(d, z);
      assert "" + z == z;
    }
    assert Flush(e) == [x, y, w, z];
  }

  // ------------------------------------------------------------------ traversal

  /** `Number(segment)` on the numeric spellings the model knows; `None` is NaN. */
  function NumberOf(segment: string): Option<int> {
    var t := Trim(segment);
    if t == "" then Some(0)
    else if t[0] == '-' && |t| > 1 && AllDigits(t[1..]) then Some(0 - DigitsValue(t[1..]) as int)
    else if t[0] == '+' && |t| > 1 && AllDigits(t[1..]) then Some(DigitsValue(t[1..]))
    else if AllDigits(t) then Some(DigitsValue(t))
    else None
  }

  /** One iteration of the traversal loop. */
  function Descend(current: JsValue, segment: string, path: string): Result<JsValue> {
    if current.Null? || current.Undefined? then Failure("Property " + path + " does not exist")
    else
      match NumberOf(segment)
      case Some(index) =>
        if !current.Arr? then Failure("Cannot access index " + segment + " of non-array")
        else if index >= |current.elems| then Failure("Index " + segment + " out of bounds")
        else if index < 0 then Success(Undefined)
        else Success(current.elems[index])
      case None =>
        if !IsObject(current) then Failure("Cannot access property " + segment + " of non-object")
        else if !HasOwn(current, segment) then Failure("Property " + segment + " does not exist on object")
        else Success(Get(current, segment))
  }

  /** The traversal loop run over the remaining segments. */
  function Walk(current: JsValue, segments: seq<string>, path: string): Result<JsValue>
    decreases |segments|
  {
    if segments == [] then Success(current)
    else
      match Descend(current, segments[0], path)
      case Failure(e) => Failure(e)
      case Success(next) => Walk(next, segments[1..], path)
  }

  /** What `getPropertyByPath(obj, path)` returns or throws. */
  function PropertyAtPath(obj: JsValue, path: string): Result<JsValue> {
    match ParsePath(path)
    case Failure(e) => Failure(e)
    case Success(segments) => Walk(obj, segments, path)
  }

  /** `getPropertyByPath`: the two loops of the source. */
  method GetPropertyByPath(obj: JsValue, path: string) returns (r: Result<JsValue>)
    ensures r == PropertyAtPath(obj, path)
  {
    if path == "" {
      return Failure("Invalid path: empty string");
    }
    var segments: seq<string> := [];
    var currentSegment := "";
    var inBrackets := false;
    for i := 0 to |path|
      invariant ParseFrom(Start, path) == ParseFrom(ParseState(segments, currentSegment, inBrackets), path[i..])
    {
      assert path[i..][0] == path[i] && path[i..][1..] == path[i + 1..];
      var c := path[i];
      if c == '.' && !inBrackets {
        if currentSegment != "" {
          segments := segments + [currentSegment];
          currentSegment := "";
        }
      } else if c == '[' {
        if currentSegment != "" {
          segments := segments + [currentSegment];
          currentSegment := "";
        }
        inBrackets := true;
      } else if c == ']' {
        if inBrackets {
          segments := segments + [currentSegment];
          currentSegment := "";
          inBrackets := false;
        } else {
          return Failure("Invalid path: " + path);
        }
      } else {
        currentSegment := currentSegment + [c];
      }
    }
    if currentSegment != "" {
      segments := segments + [currentSegment];
    }
    assert ParsePath(path) == Success(segments);

    var current := obj;
    for k := 0 to |segments|
      invariant Walk(obj, segments, path) == Walk(current, segments[k..], path)
    {
      assert segments[k..][0] == segments[k] && segments[k..][1..] == segments[k + 1..];
      var segment := segments[k];
      if current.Null? || current.Undefined? {
        return Failure("Property " + path + " does not exist");
      }
      var number := NumberOf(segment);
      if number.Some? {
        var index := number.value;
        if !current.Arr? {
          return Failure("Cannot access index " + segment + " of non-array");
        }
        if index >= |current.elems| {
          return Failure("Index " + segment + " out of bounds");
        }
        current := if index < 0 then Undefined else current.elems[index];
      } else {
        if !IsObject(current) {
          return Failure("Cannot access property " + segment + " of non-object");
        }
        if !HasOwn(current, segment) {
          return Failure("Property " + segment + " does not exist on object");
        }
        current := Get(current, segment);
      }
    }
    return Success(current);
  }

  /** A numeric segment reaches an element only on an array and below its length. */
  lemma NumericSegment(current: JsValue, segment: string, path: string, index: int)
    requires !current.Null? && !current.Undefined? && NumberOf(segment) == Some(index)
    ensures Descend(current, segment, path).Success? <==> current.Arr? && index < |current.elems|
    ensures current.Arr? && 0 <= index < |current.elems| ==>
      Descend(current, segment, path) == Success(current.elems[index])
  {
  }

  /** A non-numeric segment must name an own property of an object. */
  lemma NamedSegment(current: JsValue, segment: string, path: string)
    requires NumberOf(segment).None?
    ensures Descend(current, segment, path).Success? <==> IsObject(current) && HasOwn(current, segment)
    ensures Descend(current, segment, path).Success? ==>
      Descend(current, segment, path).value == Get(current, segment)
  {
  }

  /** Stepping through `null` or `undefined` throws, whatever segments remain. */
  lemma ThroughNothingFails(current: JsValue, segments: seq<string>, path: string)
    requires current.Null? || current.Undefined?
    requires segments != []
    ensures Walk(current, segments, path) == Failure("Property " + path + " does not exist")
  {
  }

  /** A segment of lower-case letters is a property name, never an index. */
  lemma LetterSegment(segment: string)
    requires segment != [] && forall i :: 0 <= i < |segment| ==> 'a' <= segment[i] <= 'z'
    ensures NumberOf(segment) == None
  {
    TrimNoOp(segment);
  }

  /** A segment of digits is the index it spells; in particular every array key is. */
  lemma DigitSegment(segment: string)
    requires segment != [] && AllDigits(segment)
    ensures NumberOf(segment) == Some(DigitsValue(segment))
  {
    TrimNoOp(segment);
  }

  /** The decimal spelling of an index below an array's length steps to that element. */
  lemma IndexKeyStep(id: nat, es: seq<JsValue>, n: nat, path: string)
    requires n < |es|
    ensures Descend(Arr(id, es), NatToString(n), path) == Success(es[n])
  {
    assert NumberOf(NatToString(n)) == Some(n) by {
      DigitsValueOfNatToString(n);
      DigitSegment(NatToString(n));
    }
  }

  lemma WalkThen(current: JsValue, segment: string, rest: seq<string>, path: string, next: JsValue)
    requires Descend(current, segment, path) == Success(next)
    ensures Walk(current, [segment] + rest, path) == Walk(next, rest, path)
  {
    assert ([segment] + rest)[0] == segment && ([segment] + rest)[1..] == rest;
  }

  /** A lower-case key of an object (with unique keys) steps to that key's value. */
  lemma LetterKeyStep(current: JsValue, segment: string, path: string, i: nat)
    requires current.Obj? && i < |current.props| && UniqueKeys(current.props)
    requires current.props[i].key == segment && segment != []
    requires forall j :: 0 <= j < |segment| ==> 'a' <= segment[j] <= 'z'
    ensures Descend(current, segment, path) == Success(current.props[i].val)
  {
    LetterSegment(segment);
    LookupPropAt(current.props, i);
    assert Keys(current)[i] == segment;
  }

  /** A chain of successful single steps is a successful walk to its last value. */
  lemma {:induction false} WalkChain(vs: seq<JsValue>, segs: seq<string>, path: string)
    requires |vs| == |segs| + 1
    requires forall i :: 0 <= i < |segs| ==> Descend(vs[i], segs[i], path) == Success(vs[i + 1])
    ensures Walk(vs[0], segs, path) == Success(vs[|segs|])
    decreases |segs|
  {
    if segs != [] {
      var vs', segs' := vs[1..], segs[1..];
      assert Walk(vs'[0], segs', path) == Success(vs'[|segs'|]) by {
        forall i | 0 <= i < |segs'| ensures Descend(vs'[i], segs'[i], path) == Success(vs'[i + 1]) {
          assert vs'[i] == vs[i + 1] && segs'[i] == segs[i + 1] && vs'[i + 1] == vs[i + 2];
        }
        WalkChain(vs', segs', path);
      }
      WalkThen(vs[0], segs[0], segs', path, vs[1]);
      assert [segs[0]] + segs' == segs;
    }
  }
}
