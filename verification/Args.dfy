/** The command line of the client: splitting a line into arguments and keeping
    the C-style argument vector in step with them. */
module Args {
  import opened Strings

  const SPACE := " "

  // ---- The tokenizer ---------------------------------------------------------

  function NonEmpty(token: string): seq<string> {
    if token == "" then [] else [token]
  }

  /** What the loop of getArgs makes of a line. */
  function Tokens(line: string): seq<string>
    decreases |line|
  {
    var pos := Find(line, SPACE);
    if pos == -1 then [line] else NonEmpty(line[..pos]) + Tokens(line[pos + 1..])
  }

  /** The token lists that lines yield: no token has a space in it, and none but
      the last is empty. */
  ghost predicate Proper(tokens: seq<string>) {
    && |tokens| > 0
    && (forall i :: 0 <= i < |tokens| ==> ' ' !in tokens[i])
    && (forall i :: 0 <= i < |tokens| - 1 ==> tokens[i] != "")
  }

  function WithoutSpaces(s: string): string {
    if s == "" then ""
    else (if s[0] == ' ' then "" else [s[0]]) + WithoutSpaces(s[1..])
  }

  function Flatten(tokens: seq<string>): string {
    if |tokens| == 0 then "" else tokens[0] + Flatten(tokens[1..])
  }

  lemma SpaceOccurs(s: string, i: int)
    ensures Occurs(s, SPACE, i) <==> 0 <= i < |s| && s[i] == ' '
  {
    if 0 <= i < |s| {
      assert s[i..i + 1] == [s[i]];
    }
  }

  lemma FindSpace(s: string)
    ensures Find(s, SPACE) == -1 ==> ' ' !in s
    ensures Find(s, SPACE) != -1 ==>
      0 <= Find(s, SPACE) < |s| && s[Find(s, SPACE)] == ' ' && ' ' !in s[..Find(s, SPACE)]
  {
    forall i ensures Occurs(s, SPACE, i) <==> 0 <= i < |s| && s[i] == ' ' {
      SpaceOccurs(s, i);
    }
  }

  lemma {:induction false} TokensAreProper(line: string)
    ensures Proper(Tokens(line))
    decreases |line|
  {
    FindSpace(line);
    var pos := Find(line, SPACE);
    if pos != -1 {
      TokensAreProper(line[pos + 1..]);
    }
  }

  lemma {:induction false} NoSpaces(s: string)
    requires ' ' !in s
    ensures WithoutSpaces(s) == s
  {
    if s != "" {
      NoSpaces(s[1..]);
    }
  }

  lemma {:induction false} WithoutSpacesConcat(s: string, t: string)
    ensures WithoutSpaces(s + t) == WithoutSpaces(s) + WithoutSpaces(t)
  {
    if s == "" {
      assert s + t == t;
    } else {
      assert (s + t)[1..] == s[1..] + t;
      WithoutSpacesConcat(s[1..], t);
    }
  }

  /** Nothing but spaces is dropped: the tokens in a row are the line without them. */
  lemma {:induction false} TokensKeepText(line: string)
    ensures Flatten(Tokens(line)) == WithoutSpaces(line)
    decreases |line|
  {
    FindSpace(line);
    var pos := Find(line, SPACE);
    if pos == -1 {
      NoSpaces(line);
      assert Flatten([line]) == line + Flatten([]);
    } else {
      var token, rest := line[..pos], line[pos + 1..];
      TokensKeepText(rest);
      SplitAtSpace(token, rest);
      assert line == token + (SPACE + rest);
      FlattenNonEmpty(token, Tokens(rest));
    }
  }

  lemma SpaceDropped(rest: string)
    ensures WithoutSpaces(SPACE + rest) == WithoutSpaces(rest)
  {
    var s := SPACE + rest;
    assert s[0] == ' ' && s[1..] == rest;
    assert "" + WithoutSpaces(rest) == WithoutSpaces(rest);
  }

  lemma SplitAtSpace(token: string, rest: string)
    requires ' ' !in token
    ensures WithoutSpaces(token + (SPACE + rest)) == token + WithoutSpaces(rest)
  {
    NoSpaces(token);
    WithoutSpacesConcat(token, SPACE + rest);
    SpaceDropped(rest);
  }

  lemma FlattenNonEmpty(token: string, tokens: seq<string>)
    ensures Flatten(NonEmpty(token) + tokens) == token + Flatten(tokens)
  {
    if token != "" {
      assert ([token] + tokens)[1..] == tokens;
    } else {
      assert [] + tokens == tokens;
    }
  }

  function Last(tokens: seq<string>): string {
    if |tokens| == 0 then "" else tokens[|tokens| - 1]
  }

  lemma LastOfMore(front: seq<string>, tokens: seq<string>)
    requires |tokens| > 0
    ensures Last(front + tokens) == Last(tokens)
  {
  }

  /** p is the position of the last space in s, or -1. */
  ghost predicate IsLast(s: string, p: int) {
    -1 <= p < |s| && (p == -1 || s[p] == ' ') && forall k :: p < k < |s| ==> s[k] != ' '
  }

  /** The last space after a space is the last of all; if there is none, it is that one. */
  lemma LastAfter(line: string, rest: string, pos: nat, p: int, q: int)
    requires pos < |line| && line[pos] == ' ' && rest == line[pos + 1..]
    requires IsLast(line, p) && IsLast(rest, q)
    ensures p == pos + 1 + q
  {
    if q >= 0 {
      assert line[pos + 1 + q] == rest[q];
    }
  }

  lemma LastIs(s: string)
    ensures IsLast(s, FindLast(s, ' '))
  {
  }

  lemma DropTwice(s: string, i: nat, j: nat)
    requires i <= |s| && j <= |s| - i
    ensures s[i..][j..] == s[i + j..]
  {
  }

  /** The token is what follows the last space of the line. */
  ghost predicate FollowsLast(token: string, line: string) {
    forall p :: IsLast(line, p) ==> token == line[p + 1..]
  }

  lemma FollowsNone(line: string)
    requires ' ' !in line
    ensures FollowsLast(line, line)
  {
    assert line[0..] == line;
  }

  lemma FollowsLater(token: string, line: string, pos: nat)
    requires pos < |line| && line[pos] == ' ' && FollowsLast(token, line[pos + 1..])
    ensures FollowsLast(token, line)
  {
    var rest := line[pos + 1..];
    LastIs(rest);
    var q :| IsLast(rest, q);
    forall p | IsLast(line, p) ensures token == line[p + 1..] {
      LastAfter(line, rest, pos, p, q);
      DropTwice(line, pos + 1, q + 1);
    }
  }

  /** The last token is what follows the last space, even if that is nothing. */
  lemma {:induction false} LastToken(line: string)
    ensures |Tokens(line)| > 0 && FollowsLast(Last(Tokens(line)), line)
    decreases |line|
  {
    FindSpace(line);
    var pos := Find(line, SPACE);
    if pos == -1 {
      FollowsNone(line);
    } else {
      var rest := line[pos + 1..];
      LastToken(rest);
      LastOfMore(NonEmpty(line[..pos]), Tokens(rest));
      FollowsLater(Last(Tokens(rest)), line, pos);
    }
  }

  lemma FirstSpace(token: string, rest: string)
    requires ' ' !in token
    ensures Find(token + SPACE + rest, SPACE) == |token|
  {
    var line := token + SPACE + rest;
    FindSpace(line);
    SpaceOccurs(line, |token|);
    assert forall k :: 0 <= k < |token| ==> line[k] == token[k];
  }

  lemma TokensFront(token: string, rest: string)
    requires ' ' !in token
    ensures Tokens(token + SPACE + rest) == NonEmpty(token) + Tokens(rest)
  {
    FirstSpace(token, rest);
    var line := token + SPACE + rest;
    assert line[..|token|] == token && line[|token| + 1..] == rest;
  }

  /** Three laws that say of every line what its tokens are: a space in front is
      dropped, a word followed by a space comes first, and a line without a space
      is the only token, even if it is empty. */
  lemma TokensLaws(word: string, rest: string)
    requires ' ' !in word
    ensures Tokens(" " + rest) == Tokens(rest)
    ensures word != "" ==> Tokens(word + " " + rest) == [word] + Tokens(rest)
    ensures Tokens(word) == [word]
  {
    TokensFront("", rest);
    assert "" + SPACE + rest == " " + rest;
    assert [] + Tokens(rest) == Tokens(rest);
    TokensFront(word, rest);
    FindSpace(word);
  }

  lemma {:induction false} TokensOfJoin(tokens: seq<string>)
    requires Proper(tokens)
    ensures Tokens(Join(tokens, SPACE)) == tokens
  {
    var t := tokens[0];
    if |tokens| == 1 {
      FindSpace(t);
      assert tokens == [t];
    } else {
      var rest := tokens[1..];
      assert Proper(rest);
      TokensOfJoin(rest);
      TokensFront(t, Join(rest, SPACE));
      assert tokens == [t] + rest;
    }
  }

  /** Tokenizing the joined tokens gives them back exactly for the lists that
      lines yield; so tokenizing again after joining changes nothing, for every line. */
  lemma RetokenizeIff(tokens: seq<string>)
    ensures Tokens(Join(tokens, SPACE)) == tokens <==> Proper(tokens)
  {
    if Proper(tokens) {
      TokensOfJoin(tokens);
    } else {
      TokensAreProper(Join(tokens, SPACE));
    }
  }

  lemma Retokenize(line: string)
    ensures Tokens(Join(Tokens(line), SPACE)) == Tokens(line)
  {
    TokensAreProper(line);
    TokensOfJoin(Tokens(line));
  }

  /** The arguments that getArgs leaves: those of the first line that is not empty.
      The lines end where the program is told to stop; if that is before the first
      one, the arguments stay as they were. */
  function Entered(lines: seq<string>, before: seq<string>): seq<string> {
    if |lines| == 0 then before
    else if lines[0] == "" then Entered(lines[1..], [])
    else Tokens(lines[0])
  }

  /** The first line that is not empty counts, whatever is before and after it. */
  lemma {:induction false} FirstLineCounts(lines: seq<string>, n: nat, before: seq<string>)
    requires n < |lines| && lines[n] != "" && forall i :: 0 <= i < n ==> lines[i] == ""
    ensures Entered(lines, before) == Tokens(lines[n])
  {
    if n > 0 {
      assert lines[0] == "";
      FirstLineCounts(lines[1..], n - 1, []);
    }
  }

  /** Empty lines alone leave no arguments; no line at all, those there were. */
  lemma {:induction false} EmptyLinesCount(lines: seq<string>, before: seq<string>)
    requires forall i :: 0 <= i < |lines| ==> lines[i] == ""
    ensures Entered(lines, before) == if |lines| == 0 then before else []
  {
    if |lines| > 0 {
      assert lines[0] == "";
      EmptyLinesCount(lines[1..], []);
    }
  }

  lemma Regroup(a: seq<string>, b: seq<string>, c: seq<string>)
    ensures a + (b + c) == (a + b) + c
  {
  }

  // ---- The argument vector ------------------------------------------------------

  /** An element of m_argv: null, or a buffer of its own. */
  datatype Slot = Nil | Buf(handle: nat, bytes: seq<char>)

  /** The capacity of a vector of capacity cap after it was cleared and n elements
      were pushed: it doubles when it is full. */
  function Grown(cap: nat, n: nat): (g: nat)
    ensures g >= cap
    decreases n - cap
  {
    if n <= cap then cap else Grown(if cap == 0 then 1 else 2 * cap, n)
  }

  /** How getArgs ends: as it should, out of memory, or past the end of m_argv. */
  datatype Outcome = Ready | NoMemory | Strayed

  class Arguments {
    var args: seq<string>
    /** m_args.capacity(). */
    var capacity: nat
    var argv: array<Slot>
    /** The buffers that are allocated, and the number of the next one. */
    var heap: set<nat>
    var next: nat
    /** Which allocations fail. */
    const fails: nat -> bool

    ghost predicate Valid()
      reads this, argv
    {
      && argv.Length == capacity + 1 && |args| <= capacity
      && (forall i :: 0 <= i < argv.Length && argv[i].Buf? ==> argv[i].handle in heap && argv[i].handle < next)
      && (forall h :: h in heap ==> exists i :: 0 <= i < argv.Length && argv[i].Buf? && argv[i].handle == h)
    }

    /** argv holds the arguments, each in its own buffer and closed by NUL; all
        other slots are null, and nothing else is allocated. */
    ghost predicate Mirrors()
      reads this, argv
    {
      && |args| < argv.Length
      && (forall i :: 0 <= i < |args| ==> argv[i].Buf? && argv[i].bytes == args[i] + ['\0'])
      && (forall i :: |args| <= i < argv.Length ==> argv[i] == Nil)
      && (forall i, j :: 0 <= i < j < |args| ==> argv[i].handle != argv[j].handle)
      && (forall h :: h in heap <==> exists i :: 0 <= i < |args| && argv[i].handle == h)
    }

    /** The constructor followed by init. */
    constructor (fails: nat -> bool)
      ensures Valid() && Mirrors() && args == [] && capacity == 16 && heap == {} && fresh(argv)
      ensures this.fails == fails
    {
      this.fails := fails;
      args, capacity, heap, next := [], 16, {}, 0;
      argv := new Slot[17](_ => Nil);
    }

    /** The find/erase loop of getArgs. */
    method Tokenize(line0: string) returns (tokens: seq<string>)
      ensures tokens == Tokens(line0)
    {
      tokens := [];
      var line := line0;
      var pos := Find(line, SPACE);
      while pos != -1
        invariant pos == Find(line, SPACE)
        invariant tokens + Tokens(line) == Tokens(line0)
        decreases |line|
      {
        FindSpace(line);
        var token := line[..pos];
        Regroup(tokens, NonEmpty(token), Tokens(line[pos + 1..]));
        if token != "" {
          tokens := tokens + [token];
        }
        line := line[pos + 1..];
        pos := Find(line, SPACE);
      }
      tokens := tokens + [line];
    }

    /** The outer loop of getArgs: read lines until one is not empty or the program
        is told to stop, and split that line. */
    method ReadTokens(lines: seq<string>) returns (tokens: seq<string>)
      ensures tokens == Entered(lines, args)
    {
      tokens := args;
      var n := 0;
      while n < |lines|
        invariant 0 <= n <= |lines| && Entered(lines, args) == Entered(lines[n..], tokens)
      {
        assert lines[n..][1..] == lines[n + 1..];
        tokens := [];
        if lines[n] == "" {
          n := n + 1;
          continue;
        }
        tokens := Tokenize(lines[n]);
        return;
      }
    }

    method CleanArgv()
      requires Valid()
      modifies `heap, argv
      ensures heap == {} && forall i :: 0 <= i < argv.Length ==> argv[i] == Nil
    {
      for i := 0 to capacity + 1
        invariant forall j :: 0 <= j < i ==> argv[j] == Nil
        invariant forall j :: i <= j < argv.Length ==> argv[j] == old(argv[j])
        invariant forall h :: h in heap ==> exists j :: i <= j < argv.Length && argv[j].Buf? && argv[j].handle == h
      {
        if argv[i].Buf? {
          heap := heap - {argv[i].handle};
          argv[i] := Nil;
        }
      }
    }

    /** The last loop of getArgs: a buffer for each argument. */
    method CopyArgs() returns (failed: bool)
      requires |args| < argv.Length && argv.Length == capacity + 1 && heap == {}
      requires forall i :: 0 <= i < argv.Length ==> argv[i] == Nil
      modifies `heap, `next, argv
      ensures Valid()
      ensures !failed ==> Mirrors()
      ensures failed ==> heap == {} && forall i :: 0 <= i < argv.Length ==> argv[i] == Nil
      ensures (forall k: nat :: !fails(k)) ==> !failed
    {
      failed := false;
      var i := 0;
      while i < |args|
        invariant 0 <= i <= |args|
        invariant forall j :: 0 <= j < i ==> argv[j].Buf? && argv[j].bytes == args[j] + ['\0'] && argv[j].handle < next
        invariant forall j :: i <= j < argv.Length ==> argv[j] == Nil
        invariant forall j, k :: 0 <= j < k < i ==> argv[j].handle != argv[k].handle
        invariant forall h :: h in heap <==> exists j :: 0 <= j < i && argv[j].handle == h
      {
        var handle := next;
        next := next + 1;
        if fails(handle) {
          CleanArgv();
          return true;
        }
        argv[i] := Buf(handle, args[i] + ['\0']);
        heap := heap + {handle};
        i := i + 1;
      }
    }

    /** cleanArgv runs before the array is made anew, so it leaves the array when
        the vector of arguments has grown; what happens then is not defined. */
    method GetArgs(lines: seq<string>) returns (outcome: Outcome)
      requires Valid()
      modifies this, argv
      ensures argv == old(argv) && args == Entered(lines, old(args)) && capacity == Grown(old(capacity), |args|)
      // The first line that is not empty gives the arguments.
      ensures forall n :: 0 <= n < |lines| && lines[n] != "" && (forall i :: 0 <= i < n ==> lines[i] == "") ==>
        args == Tokens(lines[n])
      ensures (forall i :: 0 <= i < |lines| ==> lines[i] == "") ==> args == if |lines| == 0 then old(args) else []
      ensures outcome.Strayed? <==> |Entered(lines, old(args))| > old(capacity)
      ensures !outcome.Strayed? ==> Valid() && capacity == old(capacity)
      ensures outcome.Ready? ==> Mirrors()
      ensures outcome.NoMemory? ==> heap == {} && forall i :: 0 <= i < argv.Length ==> argv[i] == Nil
      ensures (forall k: nat :: !fails(k)) ==> !outcome.NoMemory?
    {
      forall n | 0 <= n < |lines| && lines[n] != "" && (forall i :: 0 <= i < n ==> lines[i] == "")
        ensures Entered(lines, args) == Tokens(lines[n])
      {
        FirstLineCounts(lines, n, args);
      }
      if forall i :: 0 <= i < |lines| ==> lines[i] == "" {
        EmptyLinesCount(lines, args);
      }
      args := ReadTokens(lines);
      capacity := Grown(capacity, |args|);
      if capacity >= argv.Length {
        return Strayed;
      }
      CleanArgv();
      var failed := CopyArgs();
      outcome := if failed then NoMemory else Ready;
    }
  }

  /** n arguments of one letter each. */
  function Letters(n: nat): seq<string> {
    seq(n, _ => "a")
  }

  /** Any number of arguments can be entered on a line. */
  lemma LettersEntered(n: nat, before: seq<string>)
    requires n > 0
    ensures Entered([Join(Letters(n), SPACE)], before) == Letters(n)
  {
    TokensOfJoin(Letters(n));
    assert Letters(n)[0] == "a";
    assert Tokens("") == [""];
  }

  /** A line of seventeen arguments as the first one makes getArgs leave the array,
      whether memory runs out or not. */
  method StrayingLine(fails: nat -> bool) returns (outcome: Outcome)
    ensures outcome.Strayed?
  {
    var arguments := new Arguments(fails);
    LettersEntered(17, []);
    outcome := arguments.GetArgs([Join(Letters(17), SPACE)]);
  }

  /** Whatever room the vector has, some line has one argument more. */
  lemma StrayingLines(capacity: nat, before: seq<string>)
    ensures exists line :: |Entered([line], before)| == capacity + 1
  {
    LettersEntered(capacity + 1, before);
  }
}
