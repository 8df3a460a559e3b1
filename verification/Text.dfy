/** Splitting a text at a separator character. */
module Text {

  predicate Without(sep: char, s: string) {
    sep !in s
  }

  function First(sep: char, s: string): (i: nat)
    requires !Without(sep, s)
    ensures i < |s| && s[i] == sep && Without(sep, s[..i])
  {
    if s[0] == sep then 0
    else
      assert s == [s[0]] + s[1..];
      1 + First(sep, s[1..])
  }

  /** The pieces between separators: always one more than there are separators. */
  function Split(sep: char, s: string): seq<string> {
    if Without(sep, s) then [s]
    else
      var i := First(sep, s);
      [s[..i]] + Split(sep, s[i + 1..])
  }

  lemma {:induction false} FirstAt(sep: char, a: string, b: string)
    requires Without(sep, a)
    ensures !Without(sep, a + [sep] + b) && First(sep, a + [sep] + b) == |a|
  {
    var s := a + [sep] + b;
    assert s[|a|] == sep;
    if a != "" {
      assert s[1..] == a[1..] + [sep] + b && s[0] == a[0];
      FirstAt(sep, a[1..], b);
    }
  }

  lemma SplitOne(sep: char, a: string, b: string)
    requires Without(sep, a)
    ensures Split(sep, a + [sep] + b) == [a] + Split(sep, b)
  {
    var s := a + [sep] + b;
    FirstAt(sep, a, b);
    assert s[..|a|] == a && s[|a| + 1..] == b;
  }

  lemma SplitNonEmpty(sep: char, s: string)
    ensures |Split(sep, s)| >= 1
    ensures |Split(sep, s)| == 1 <==> Without(sep, s)
  {
    if !Without(sep, s) {
      SplitMany(sep, s);
    }
  }

  lemma SplitMany(sep: char, s: string)
    requires !Without(sep, s)
    ensures |Split(sep, s)| >= 2
  {
    var rest := s[First(sep, s) + 1..];
    assert Without(sep, rest) || |Split(sep, rest)| >= 1;
  }

  lemma SplitsInMore(sep: char, a: string, b: string)
    requires !Without(sep, a)
    ensures |Split(sep, a + [sep] + b)| > 2
  {
    var i := First(sep, a);
    var rest := a[i + 1..] + [sep] + b;
    assert a + [sep] + b == a[..i] + [sep] + rest by {
      assert a == a[..i] + [sep] + a[i + 1..];
    }
    SplitOne(sep, a[..i], rest);
    assert rest[|a[i + 1..]|] == sep;
    SplitMany(sep, rest);
  }

  /** A text joined from two parts splits into exactly two pieces only if neither part holds the separator. */
  lemma SplitsInTwo(sep: char, a: string, b: string)
    ensures |Split(sep, a + [sep] + b)| == 2 <==> Without(sep, a) && Without(sep, b)
    ensures |Split(sep, a + [sep] + b)| == 2 ==> Split(sep, a + [sep] + b) == [a, b]
  {
    if Without(sep, a) {
      SplitOne(sep, a, b);
      SplitNonEmpty(sep, b);
    } else {
      SplitsInMore(sep, a, b);
    }
  }

  /** The pieces of a text that splits in two join to the text again. */
  lemma TwoPiecesJoin(sep: char, s: string)
    requires |Split(sep, s)| == 2
    ensures s == Split(sep, s)[0] + [sep] + Split(sep, s)[1]
    ensures Without(sep, Split(sep, s)[0]) && Without(sep, Split(sep, s)[1])
  {
    SplitNonEmpty(sep, s);
    var i := First(sep, s);
    var rest := s[i + 1..];
    assert Split(sep, s) == [s[..i]] + Split(sep, rest);
    SplitNonEmpty(sep, rest);
    assert Split(sep, rest) == [rest];
    assert s == s[..i] + [s[i]] + rest;
  }
}
