/** The argument codec of the task queue: a list of arguments is stored as one
    text column, its elements joined by the delimiter `__,__`. */
module Codec {
  import opened Strings

  const DELIMITER := "__,__"

  /** What `splitString` computes. */
  function Split(s: string): (pieces: seq<string>)
    ensures |pieces| > 0
    decreases |s|
  {
    var p := Find(s, DELIMITER);
    if p == -1 then [s] else [s[..p]] + Split(s[p + |DELIMITER|..])
  }

  /** What `concatString` computes. */
  function Concat(xs: seq<string>): string {
    Join(xs, DELIMITER)
  }

  /** The argument lists that survive storage.  The delimiter overlaps itself by
      one and by two characters, hence the two forbidden endings. */
  ghost predicate Separable(xs: seq<string>) {
    && |xs| > 0
    && (forall i :: 0 <= i < |xs| ==> !Contains(xs[i], DELIMITER))
    && (forall i :: 0 <= i < |xs| - 1 ==> !EndsWith(xs[i], "__,") && !EndsWith(xs[i], "__,_"))
  }

  method SplitString(input: string) returns (out: seq<string>)
    ensures out == Split(input)
  {
    var s := input;
    out := [];
    var pos := Find(s, DELIMITER);
    while pos != -1
      invariant pos == Find(s, DELIMITER)
      invariant out + Split(s) == Split(input)
      decreases |s|
    {
      assert out + Split(s) == (out + [s[..pos]]) + Split(s[pos + |DELIMITER|..]);
      out := out + [s[..pos]];
      s := s[pos + |DELIMITER|..];
      pos := Find(s, DELIMITER);
    }
    out := out + [s];
  }

  method ConcatString(input: seq<string>) returns (out: string)
    ensures out == Concat(input)
  {
    out := "";
    if |input| != 0 {
      var last := |input| - 1;
      var i := 0;
      while i < last
        invariant 0 <= i <= last
        invariant out + Concat(input[i..]) == Concat(input)
      {
        assert input[i..][1..] == input[i + 1..];
        assert out + Concat(input[i..]) == (out + (input[i] + DELIMITER)) + Concat(input[i + 1..]);
        out := out + (input[i] + DELIMITER);
        i := i + 1;
      }
      out := out + input[last];
    }
  }

  /** Joining undoes splitting, for every text whatever. */
  lemma {:induction false} ConcatOfSplit(s: string)
    ensures Concat(Split(s)) == s
    decreases |s|
  {
    var p := Find(s, DELIMITER);
    if p != -1 {
      var rest := s[p + |DELIMITER|..];
      ConcatOfSplit(rest);
      assert Split(s)[1..] == Split(rest);
      assert s == s[..p] + DELIMITER + rest;
    }
  }

  /** Where a delimiter can begin inside an element that is followed by the
      delimiter: within the element, or across its end when the element ends in
      one of the two proper prefixes that are also completed by the delimiter. */
  lemma EarlyDelimiter(x: string, rest: string, i: int)
    requires i < |x| && Occurs(x + DELIMITER + rest, DELIMITER, i)
    ensures Contains(x, DELIMITER) || EndsWith(x, "__,") || EndsWith(x, "__,_")
  {
    var t := x + DELIMITER + rest;
    CharsOfDelimiter(t, i);
    assert Occurs(t, DELIMITER, |x|);
    CharsOfDelimiter(t, |x|);
    assert i + 2 != |x| && i + 2 != |x| + 1;
    assert forall k :: 0 <= k < |x| ==> t[k] == x[k];
    if i + 5 <= |x| {
      assert x[i..i + 5] == DELIMITER;
      assert Occurs(x, DELIMITER, i);
    } else if i + 4 == |x| {
      assert x[i..i + 4] == "__,_";
    } else {
      assert x[i..i + 3] == "__,";
    }
  }

  lemma CharsOfDelimiter(s: string, i: int)
    requires Occurs(s, DELIMITER, i)
    ensures s[i] == '_' && s[i + 1] == '_' && s[i + 2] == ',' && s[i + 3] == '_' && s[i + 4] == '_'
  {
    var w := s[i..i + 5];
    assert w[0] == s[i] && w[1] == s[i + 1] && w[2] == s[i + 2] && w[3] == s[i + 3] && w[4] == s[i + 4];
  }

  lemma DelimiterFoundAtEnd(x: string, rest: string)
    requires !Contains(x, DELIMITER) && !EndsWith(x, "__,") && !EndsWith(x, "__,_")
    ensures Find(x + DELIMITER + rest, DELIMITER) == |x|
  {
    var t := x + DELIMITER + rest;
    assert Occurs(t, DELIMITER, |x|);
    var p := Find(t, DELIMITER);
    if p < |x| {
      EarlyDelimiter(x, rest, p);
    }
  }

  /** The converse: a half delimiter before a delimiter makes an earlier one. */
  lemma HalfMakesWhole(s: string, p: int)
    requires Occurs(s, DELIMITER, p)
    ensures EndsWith(s[..p], "__,") ==> Occurs(s, DELIMITER, p - 3)
    ensures EndsWith(s[..p], "__,_") ==> Occurs(s, DELIMITER, p - 4)
  {
    CharsOfDelimiter(s, p);
    if EndsWith(s[..p], "__,") {
      var h := s[..p][p - 3..];
      assert h[0] == s[p - 3] && h[1] == s[p - 2] && h[2] == s[p - 1];
      assert s[p - 3..p + 2] == DELIMITER;
    }
    if EndsWith(s[..p], "__,_") {
      var h := s[..p][p - 4..];
      assert h[0] == s[p - 4] && h[1] == s[p - 3] && h[2] == s[p - 2] && h[3] == s[p - 1];
      assert s[p - 4..p + 1] == DELIMITER;
    }
  }

  /** Every result of splitting is separable. */
  lemma {:induction false} SplitIsSeparable(s: string)
    ensures Separable(Split(s))
    decreases |s|
  {
    var p := Find(s, DELIMITER);
    if p != -1 {
      var x, rest := s[..p], s[p + |DELIMITER|..];
      SplitIsSeparable(rest);
      forall i
        ensures Occurs(x, DELIMITER, i) ==> Occurs(s, DELIMITER, i)
      {
        if Occurs(x, DELIMITER, i) {
          assert s[i..i + 5] == x[i..i + 5];
        }
      }
      HalfMakesWhole(s, p);
      assert Split(s) == [x] + Split(rest);
    }
  }

  /** Splitting takes such an element off the front. */
  lemma SplitFront(x: string, rest: string)
    requires !Contains(x, DELIMITER) && !EndsWith(x, "__,") && !EndsWith(x, "__,_")
    ensures Split(x + DELIMITER + rest) == [x] + Split(rest)
  {
    DelimiterFoundAtEnd(x, rest);
    var t := x + DELIMITER + rest;
    assert t[..|x|] == x && t[|x| + |DELIMITER|..] == rest;
  }

  lemma SplitWhole(x: string)
    requires !Contains(x, DELIMITER)
    ensures Split(x) == [x]
  {
    assert Find(x, DELIMITER) == -1;
  }

  lemma {:induction false} SplitOfConcat(xs: seq<string>)
    requires Separable(xs)
    ensures Split(Concat(xs)) == xs
  {
    if |xs| == 1 {
      SplitWhole(xs[0]);
      assert xs == [xs[0]];
    } else {
      var ys := xs[1..];
      assert Separable(ys);
      SplitOfConcat(ys);
      SplitFront(xs[0], Concat(ys));
      assert xs == [xs[0]] + ys;
    }
  }

  /** The exact round trip: an argument list comes back unchanged from storage
      if and only if it is separable. */
  lemma RoundTripIff(xs: seq<string>)
    ensures Split(Concat(xs)) == xs <==> Separable(xs)
  {
    if Separable(xs) {
      SplitOfConcat(xs);
    } else {
      SplitIsSeparable(Concat(xs));
    }
  }

  /** Storing what was read back changes nothing any more: two lists that are
      stored as the same text are read back as the same list. */
  lemma NormalForm(xs: seq<string>)
    ensures Concat(Split(Concat(xs))) == Concat(xs)
    ensures Separable(Split(Concat(xs)))
    ensures Split(Concat(Split(Concat(xs)))) == Split(Concat(xs))
  {
    ConcatOfSplit(Concat(xs));
    SplitIsSeparable(Concat(xs));
  }

  /** The lists that change: no arguments at all come back as one empty
      argument, and an argument that ends like half a delimiter is cut early. */
  lemma RoundTripFails()
    ensures Split(Concat([])) == [""]
    ensures Split(Concat(["a__,", "b"])) == ["a", ",__b"]
    ensures Split(Concat(["a__,_", "b"])) == ["a", "_,__b"]
  {
    assert !Occurs("", DELIMITER, 0);
    CutAt(["a__,", "b"], "a", ",__b");
    CutAt(["a__,_", "b"], "a", "_,__b");
  }

  lemma CutAt(xs: seq<string>, x: string, y: string)
    requires |xs| == 2 && xs[0] + DELIMITER + xs[1] == x + DELIMITER + y
    requires |x| == 1 && x[0] != '_' && 0 < |y| <= 5 && (|y| == 5 ==> y[1] != '_')
    ensures Split(Concat(xs)) == [x, y]
  {
    forall i ensures !Occurs(y, DELIMITER, i) {
      assert |y| == 5 ==> y[0..5] == y;
    }
    SplitOfConcat([x, y]);
    assert Concat(xs[1..]) == xs[1];
    assert [x, y][1..] == [y];
    assert Concat([x, y]) == x + DELIMITER + y;
  }
}
