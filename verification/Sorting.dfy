/** Sorting names, as `sorted` does. */
module Sorting {

  /** Lexicographic order by code points. */
  predicate Leq(a: string, b: string) {
    a == "" || (b != "" && (a[0] < b[0] || (a[0] == b[0] && Leq(a[1..], b[1..]))))
  }

  predicate IsSorted(names: seq<string>) {
    forall i, j :: 0 <= i < j < |names| ==> Leq(names[i], names[j])
  }

  function Insert(name: string, names: seq<string>): seq<string> {
    if names == [] then [name]
    else if Leq(name, names[0]) then [name] + names
    else [names[0]] + Insert(name, names[1..])
  }

  function Sort(names: seq<string>): seq<string> {
    if names == [] then [] else Insert(names[|names| - 1], Sort(names[..|names| - 1]))
  }

  lemma {:induction false} LeqTotal(a: string, b: string)
    ensures Leq(a, b) || Leq(b, a)
  {
    if a == "" || b == "" {
    } else {
      LeqTotal(a[1..], b[1..]);
    }
  }

  lemma {:induction false} LeqTransitive(a: string, b: string, c: string)
    requires Leq(a, b) && Leq(b, c)
    ensures Leq(a, c)
  {
    if a == "" {
    } else if a[0] == b[0] == c[0] {
      LeqTransitive(a[1..], b[1..], c[1..]);
    }
  }

  lemma Front(name: string, names: seq<string>)
    ensures multiset([name] + names) == multiset{name} + multiset(names)
  {
  }

  lemma Exchange(a: string, b: string, rest: multiset<string>)
    ensures multiset{a} + (multiset{b} + rest) == multiset{b} + (multiset{a} + rest)
  {
  }

  lemma Back(names: seq<string>)
    requires names != []
    ensures multiset(names) == multiset(names[..|names| - 1]) + multiset{names[|names| - 1]}
  {
    assert names == names[..|names| - 1] + [names[|names| - 1]];
  }

  lemma {:induction false} InsertKeeps(name: string, names: seq<string>)
    ensures multiset(Insert(name, names)) == multiset{name} + multiset(names)
  {
    if names == [] {
    } else if Leq(name, names[0]) {
      Front(name, names);
    } else {
      var rest := names[1..];
      InsertKeeps(name, rest);
      Front(names[0], Insert(name, rest));
      Front(names[0], rest);
      assert names == [names[0]] + rest;
      Exchange(name, names[0], multiset(rest));
    }
  }

  lemma InsertMembers(name: string, names: seq<string>, n: string)
    ensures n in Insert(name, names) <==> n == name || n in names
  {
    InsertKeeps(name, names);
    assert n in Insert(name, names) <==> n in multiset(Insert(name, names));
    assert n in names <==> n in multiset(names);
  }

  lemma {:induction false} InsertSorts(name: string, names: seq<string>)
    requires IsSorted(names)
    ensures IsSorted(Insert(name, names))
  {
    if names == [] {
    } else if Leq(name, names[0]) {
      forall i | 0 <= i < |names|
        ensures Leq(name, names[i])
      {
        if i > 0 {
          LeqTransitive(name, names[0], names[i]);
        }
      }
    } else {
      var rest := Insert(name, names[1..]);
      InsertSorts(name, names[1..]);
      LeqTotal(name, names[0]);
      forall i | 0 <= i < |rest|
        ensures Leq(names[0], rest[i])
      {
        InsertMembers(name, names[1..], rest[i]);
        assert rest[i] in rest;
      }
    }
  }

  /** Every name as often as before, in order. */
  lemma {:induction false} SortSorts(names: seq<string>)
    ensures IsSorted(Sort(names)) && multiset(Sort(names)) == multiset(names)
  {
    if names == [] {
    } else {
      var n := |names| - 1;
      SortSorts(names[..n]);
      InsertSorts(names[n], Sort(names[..n]));
      InsertKeeps(names[n], Sort(names[..n]));
      Back(names);
    }
  }
}
