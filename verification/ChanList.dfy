/** Channel lists as text: "#a#b#c" as the router keeps them, printed and scanned at the '#' marks. */
module ChanList {
  import opened Basics

  /** Where strchr finds c, or |s| when it returns NULL. */
  function IndexOf(s: string, c: char): (r: nat)
    ensures r <= |s| && c !in s[..r]
    ensures r < |s| ==> s[r] == c
    ensures c !in s ==> r == |s|
  {
    if s == "" || s[0] == c then 0 else 1 + IndexOf(s[1..], c)
  }

  /** The names in the text that follows the leading '#'. */
  function Split(s: string): (names: seq<string>)
    ensures names != []
    ensures forall n :: n in names ==> '#' !in n
  {
    var k := IndexOf(s, '#');
    if k == |s| then [s] else [s[..k]] + Split(s[k + 1..])
  }

  function Join(names: seq<string>): (s: string)
    ensures names != [] ==> s != "" && s[0] == '#'
  {
    if names == [] then "" else ['#'] + names[0] + Join(names[1..])
  }

  ghost predicate Plain(names: seq<string>) {
    forall i :: 0 <= i < |names| ==> '#' !in names[i]
  }

  lemma {:induction false} IndexOfPrefix(a: string, b: string)
    requires '#' !in a
    requires b == "" || b[0] == '#'
    ensures IndexOf(a + b, '#') == |a|
  {
    if a == "" {
      assert a + b == b;
    } else {
      assert (a + b)[1..] == a[1..] + b;
      IndexOfPrefix(a[1..], b);
    }
  }

  lemma {:induction false} SplitCut(a: string, b: string)
    requires '#' !in a
    requires b != "" && b[0] == '#'
    ensures Split(a + b) == [a] + Split(b[1..])
  {
    IndexOfPrefix(a, b);
    assert (a + b)[..|a|] == a && (a + b)[|a| + 1..] == b[1..];
  }

  /** Splitting undoes printing, for names that do not contain the mark. */
  lemma {:induction false} SplitJoin(names: seq<string>)
    requires names != [] && Plain(names)
    ensures Split(Join(names)[1..]) == names
  {
    var rest := Join(names[1..]);
    assert Join(names)[1..] == names[0] + rest;
    if |names| == 1 {
      assert names[0] + rest == names[0];
      IndexOfPrefix(names[0], rest);
    } else {
      SplitCut(names[0], rest);
      SplitJoin(names[1..]);
    }
  }

  /** Printing undoes splitting, for every text. */
  lemma {:induction false} JoinSplit(s: string)
    ensures Join(Split(s)) == ['#'] + s
  {
    hide Split, Join, IndexOf;
    var k := IndexOf(s, '#');
    SplitOnce(s);
    if k < |s| {
      CutOnce(s, k);
      JoinSplit(s[k + 1..]);
      JoinOne(s[..k], Split(s[k + 1..]));
    } else {
      JoinNothing(s);
      JoinOne(s, []);
    }
  }

  /** A text is what stands before the first mark, the mark, and the rest. */
  lemma SplitOnce(s: string)
    ensures var k := IndexOf(s, '#');
      Split(s) == if k < |s| then [s[..k]] + Split(s[k + 1..]) else [s] + []
  {
    hide IndexOf;
    assert [s] + [] == [s];
  }

  lemma CutOnce(s: string, k: nat)
    requires k < |s| && s[k] == '#'
    ensures s == s[..k] + (['#'] + s[k + 1..])
  {
  }

  lemma JoinNothing(s: string)
    ensures s + Join([]) == s
  {
  }

  lemma JoinOne(n: string, names: seq<string>)
    ensures Join([n] + names) == ['#'] + (n + Join(names))
  {
    assert ([n] + names)[1..] == names;
    assert ['#'] + n + Join(names) == ['#'] + (n + Join(names));
  }

  /** The names survive the trip through text exactly when none of them contains the mark. */
  lemma {:induction false} SplitJoinExactly(names: seq<string>)
    requires names != []
    ensures Split(Join(names)[1..]) == names <==> Plain(names)
  {
    if Plain(names) {
      SplitJoin(names);
    }
  }

  lemma SplitParts(s: string)
    ensures var k := IndexOf(s, '#');
      && Split(s)[0] == s[..k]
      && (if k == |s| then |Split(s)| == 1 else Split(s)[1..] == Split(s[k + 1..]))
  {
  }

  lemma {:induction false} JoinPush(names: seq<string>, n: string)
    ensures Join(names + [n]) == Join(names) + ['#'] + n
  {
    if names == [] {
      assert [n][1..] == [] && names + [n] == [n];
      assert Join([n]) == ['#'] + n + Join([]);
    } else {
      assert (names + [n])[1..] == names[1..] + [n];
      JoinPush(names[1..], n);
    }
  }

  /** The distinct elements in the order of their first occurrence. */
  function Firsts(names: seq<string>): (r: seq<string>)
    ensures forall n :: n in r <==> n in names
  {
    if names == [] then []
    else
      var before := Firsts(names[..|names| - 1]);
      var n := names[|names| - 1];
      assert forall m :: m in names <==> m in names[..|names| - 1] || m == n;
      if n in before then before else before + [n]
  }

  lemma {:induction false} FirstsDistinct(names: seq<string>)
    ensures Distinct(Firsts(names))
  {
    if names != [] {
      FirstsDistinct(names[..|names| - 1]);
    }
  }

  lemma {:induction false} FirstsOfDistinct(names: seq<string>)
    requires Distinct(names)
    ensures Firsts(names) == names
  {
    if names != [] {
      FirstsOfDistinct(names[..|names| - 1]);
    }
  }
}
