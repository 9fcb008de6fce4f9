/** Python's order on strings, and the sorted list of a set of them. */
module SortedStrings {
  import opened Common

  predicate Less(a: string, b: string) {
    b != "" && (a == "" || a[0] < b[0] || (a[0] == b[0] && Less(a[1..], b[1..])))
  }

  lemma {:induction false} LessTrichotomy(a: string, b: string)
    ensures Less(a, b) || a == b || Less(b, a)
    ensures !(Less(a, b) && Less(b, a)) && !Less(a, a)
    decreases |a|
  {
    if a != "" {
      LessTrichotomy(a[1..], a[1..]);
    }
    if a != "" && b != "" {
      LessTrichotomy(a[1..], b[1..]);
      if a[0] == b[0] && a[1..] == b[1..] {
        assert a == [a[0]] + a[1..] && b == [b[0]] + b[1..];
      }
    }
  }

  lemma {:induction false} LessTransitive(a: string, b: string, c: string)
    requires Less(a, b) && Less(b, c)
    ensures Less(a, c)
    decreases |a|
  {
    if a != "" && a[0] == b[0] && b[0] == c[0] {
      LessTransitive(a[1..], b[1..], c[1..]);
    }
  }

  predicate StrictlySorted(s: seq<string>) {
    forall i, j | 0 <= i < j < |s| :: Less(s[i], s[j])
  }

  function Insert(s: seq<string>, x: string): seq<string> {
    if s == [] then [x]
    else if Less(x, s[0]) then [x] + s
    else [s[0]] + Insert(s[1..], x)
  }

  lemma {:induction false} InsertAdds(s: seq<string>, x: string)
    ensures Elements(Insert(s, x)) == Elements(s) + {x}
    decreases |s|
  {
    hide Less;
    if s != [] {
      InsertAdds(s[1..], x);
      assert s == [s[0]] + s[1..];
      assert Elements(s) == {s[0]} + Elements(s[1..]);
      if Less(x, s[0]) {
        assert Elements([x] + s) == {x} + Elements(s);
      } else {
        var rest := Insert(s[1..], x);
        assert Elements([s[0]] + rest) == {s[0]} + Elements(rest);
      }
    }
  }

  lemma {:induction false} InsertSorts(s: seq<string>, x: string)
    requires StrictlySorted(s) && x !in s
    ensures StrictlySorted(Insert(s, x)) && Elements(Insert(s, x)) == Elements(s) + {x}
    decreases |s|
  {
    hide Less;
    InsertAdds(s, x);
    if s != [] {
      LessTrichotomy(x, s[0]);
      if Less(x, s[0]) {
        forall j | 0 < j < |s|
          ensures Less(x, s[j])
        {
          LessTransitive(x, s[0], s[j]);
        }
      } else {
        InsertSorts(s[1..], x);
        InsertAdds(s[1..], x);
        var rest := Insert(s[1..], x);
        forall j | 0 <= j < |rest|
          ensures Less(s[0], rest[j])
        {
          assert rest[j] in Elements(rest);
          assert rest[j] == x || rest[j] in s[1..];
        }
      }
    }
  }

  /** `sorted(xs)` for a set. */
  ghost function Sorted(xs: set<string>): (s: seq<string>)
    ensures StrictlySorted(s) && Elements(s) == xs
  {
    if xs == {} then []
    else
      var x :| x in xs;
      var rest := Sorted(xs - {x});
      assert x !in Elements(rest);
      InsertSorts(rest, x);
      Insert(rest, x)
  }

  lemma {:induction false} SortedUnique(a: seq<string>, b: seq<string>)
    requires StrictlySorted(a) && StrictlySorted(b) && Elements(a) == Elements(b)
    ensures a == b
    decreases |a|
  {
    assert a != [] ==> a[0] in Elements(a);
    assert b != [] ==> b[0] in Elements(b);
    if a != [] {
      HeadIsLeast(a, b[0]);
      HeadIsLeast(b, a[0]);
      LessTrichotomy(a[0], b[0]);
      assert a[0] == b[0];
      TailElements(a);
      TailElements(b);
      SortedUnique(a[1..], b[1..]);
      assert a == [a[0]] + a[1..] && b == [b[0]] + b[1..];
    }
  }

  lemma HeadIsLeast(s: seq<string>, x: string)
    requires StrictlySorted(s) && s != [] && x in s
    ensures x == s[0] || Less(s[0], x)
  {
  }

  lemma TailElements(s: seq<string>)
    requires StrictlySorted(s) && s != []
    ensures Elements(s[1..]) == Elements(s) - {s[0]}
  {
    LessTrichotomy(s[0], s[0]);
    assert s == [s[0]] + s[1..];
  }

  /** Sorts by repeated insertion; the result is the one sorted list of the set. */
  method Sort(xs: set<string>) returns (s: seq<string>)
    ensures s == Sorted(xs)
  {
    var pending := xs;
    s := [];
    while pending != {}
      invariant pending <= xs && StrictlySorted(s) && Elements(s) == xs - pending
    {
      var x :| x in pending;
      assert x !in Elements(s);
      InsertSorts(s, x);
      s := Insert(s, x);
      pending := pending - {x};
    }
    SortedUnique(s, Sorted(xs));
  }
}
