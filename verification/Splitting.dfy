/** Cutting slash-separated text into its parts. */
module Splitting {
  /** A separator opens an empty part, any other character lengthens the first one. */
  function Extend(c: char, parts: seq<string>): (longer: seq<string>)
    requires parts != []
    ensures longer != []
  {
    if c == '/' then [""] + parts else [[c] + parts[0]] + parts[1..]
  }

  /** text.split("/") */
  function Split(s: string): (parts: seq<string>)
    ensures parts != []
  {
    if s == "" then [""] else Extend(s[0], Split(s[1..]))
  }

  lemma ExtendConcat(c: char, p: seq<string>, q: seq<string>)
    requires p != []
    ensures Extend(c, p + q) == Extend(c, p) + q
  {
    assert (p + q)[1..] == p[1..] + q;
  }

  /** A separator between two texts separates their parts. */
  lemma {:induction false} SplitConcat(a: string, rest: string)
    ensures Split(a + "/" + rest) == Split(a) + Split(rest)
  {
    var s := a + "/" + rest;
    if a == "" {
      assert s[1..] == rest;
    } else {
      assert s[1..] == a[1..] + "/" + rest && s[0] == a[0];
      SplitConcat(a[1..], rest);
      ExtendConcat(a[0], Split(a[1..]), Split(rest));
    }
  }

  lemma SplitStep(a: string, rest: string)
    requires '/' !in a
    ensures Split(a + "/" + rest) == [a] + Split(rest)
  {
    SplitConcat(a, rest);
    SplitWhole(a);
  }

  lemma {:induction false} SplitWhole(a: string)
    requires '/' !in a
    ensures Split(a) == [a]
  {
    if a != "" {
      SplitWhole(a[1..]);
      assert a == [a[0]] + a[1..];
    }
  }

  /** Different texts have different parts. */
  lemma {:induction false} SplitInjective(a: string, b: string)
    requires Split(a) == Split(b)
    ensures a == b
  {
    if a == "" || b == "" {
      SplitEmpty(a);
      SplitEmpty(b);
    } else {
      SplitFirst(a);
      SplitFirst(b);
      SplitInjective(a[1..], b[1..]);
      assert a == [a[0]] + a[1..] && b == [b[0]] + b[1..];
    }
  }

  lemma SplitEmpty(a: string)
    ensures Split(a) == [""] <==> a == ""
  {
    if a != "" && a[0] == '/' { assert |Split(a)| >= 2; }
  }

  /** The first character and the parts of the rest can be read off the parts. */
  lemma SplitFirst(a: string)
    requires a != ""
    ensures a[0] == '/' <==> Split(a)[0] == ""
    ensures a[0] == '/' ==> Split(a[1..]) == Split(a)[1..]
    ensures a[0] != '/' ==> a[0] == Split(a)[0][0] && Split(a[1..]) == [Split(a)[0][1..]] + Split(a)[1..]
  {
    var rest := Split(a[1..]);
    if a[0] == '/' {
      assert ([""] + rest)[1..] == rest;
    } else {
      assert Split(a)[0] == [a[0]] + rest[0];
      assert Split(a)[0][1..] == rest[0];
      assert Split(a)[1..] == rest[1..];
      assert rest == [rest[0]] + rest[1..];
    }
  }
}
