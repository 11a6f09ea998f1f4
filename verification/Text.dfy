/** String order and the stable sort by key, as Rust's `str` comparison and `sort_by` define them. */
module Text {

  /** Strict lexicographic order by code point (the order of UTF-8 bytes). */
  predicate Below(a: string, b: string)
  {
    b != "" && (a == "" || a[0] < b[0] || (a[0] == b[0] && Below(a[1..], b[1..])))
  }

  lemma {:induction false} BelowIrreflexive(a: string)
    ensures !Below(a, a)
  {
    if a != "" {
      BelowIrreflexive(a[1..]);
    }
  }

  lemma {:induction false} BelowTransitive(a: string, b: string, c: string)
    requires Below(a, b) && Below(b, c)
    ensures Below(a, c)
  {
    if a != "" && a[0] == b[0] && b[0] == c[0] {
      BelowTransitive(a[1..], b[1..], c[1..]);
    }
  }

  lemma {:induction false} BelowTotal(a: string, b: string)
    ensures Below(a, b) || a == b || Below(b, a)
  {
    if a != "" && b != "" && a[0] == b[0] {
      BelowTotal(a[1..], b[1..]);
      if a[1..] == b[1..] {
        assert a == [a[0]] + a[1..] == b;
      }
    }
  }

  /** A common prefix does not affect the order. */
  lemma {:induction false} BelowAfterPrefix(p: string, a: string, b: string)
    ensures Below(p + a, p + b) <==> Below(a, b)
  {
    if p == "" {
      assert p + a == a && p + b == b;
    } else {
      assert (p + a)[1..] == p[1..] + a && (p + b)[1..] == p[1..] + b;
      BelowAfterPrefix(p[1..], a, b);
    }
  }

  function LowerChar(ch: char): char
  {
    if 'A' <= ch <= 'Z' then ((ch as int) - ('A' as int) + ('a' as int)) as char else ch
  }

  /** `to_ascii_lowercase`. */
  function AsciiLower(s: string): (r: string)
    ensures |r| == |s|
    ensures forall i :: 0 <= i < |s| ==> r[i] == LowerChar(s[i])
  {
    if s == "" then "" else [LowerChar(s[0])] + AsciiLower(s[1..])
  }

  lemma LowerIsStable(s: string)
    ensures AsciiLower(AsciiLower(s)) == AsciiLower(s)
  {
  }

  /** The word is the given text in lower case, up to the case of its letters. */
  predicate InAnyCase(word: string, lower: string)
  {
    && |word| == |lower|
    && forall i | 0 <= i < |word| ::
         if 'A' <= word[i] <= 'Z' then (word[i] as int) - ('A' as int) == (lower[i] as int) - ('a' as int)
         else word[i] == lower[i]
  }

  lemma InAnyCaseIff(word: string, lower: string)
    ensures AsciiLower(word) == lower <==> InAnyCase(word, lower)
  {
    if InAnyCase(word, lower) {
      forall i | 0 <= i < |word| ensures AsciiLower(word)[i] == lower[i] {
        assert 'A' <= word[i] <= 'Z' ==> (word[i] as int) - ('A' as int) == (lower[i] as int) - ('a' as int);
      }
    }
  }

  datatype Entry<T> = Entry(key: string, value: T)

  ghost predicate Ascending<T>(s: seq<Entry<T>>)
  {
    forall i, j :: 0 <= i < j < |s| ==> Below(s[i].key, s[j].key)
  }

  ghost predicate DistinctKeys<T>(s: seq<Entry<T>>)
  {
    forall i, j :: 0 <= i < j < |s| ==> s[i].key != s[j].key
  }

  /** Insert before the first key that is not below `e.key`, so equal keys keep their order. */
  function Insert<T>(e: Entry<T>, s: seq<Entry<T>>): (r: seq<Entry<T>>)
    ensures multiset(r) == multiset{e} + multiset(s)
  {
    if s == [] || !Below(s[0].key, e.key) then
      [e] + s
    else
      assert s == [s[0]] + s[1..];
      [s[0]] + Insert(e, s[1..])
  }

  function SortByKey<T>(s: seq<Entry<T>>): (r: seq<Entry<T>>)
    ensures multiset(r) == multiset(s)
  {
    if s == [] then []
    else
      assert s == [s[0]] + s[1..];
      Insert(s[0], SortByKey(s[1..]))
  }

  lemma SameMembers<T(!new)>(r: seq<T>, s: seq<T>)
    requires multiset(r) == multiset(s)
    ensures |r| == |s|
    ensures forall e :: e in r <==> e in s
  {
    assert |multiset(r)| == |r| && |multiset(s)| == |s|;
    forall e ensures e in r <==> e in s {
      assert e in r <==> e in multiset(r);
      assert e in s <==> e in multiset(s);
    }
  }

  lemma {:induction false} InsertAscending<T(!new)>(e: Entry<T>, s: seq<Entry<T>>)
    requires Ascending(s)
    requires forall x :: x in s ==> x.key != e.key
    ensures Ascending(Insert(e, s))
  {
    if s == [] {
    } else if !Below(s[0].key, e.key) {
      BelowTotal(s[0].key, e.key);
      forall j | 0 <= j < |s| ensures Below(e.key, s[j].key) {
        if j > 0 {
          BelowTransitive(e.key, s[0].key, s[j].key);
        }
      }
    } else {
      var r := Insert(e, s[1..]);
      InsertAscending(e, s[1..]);
      assert |multiset(r)| == |r|;
      forall j | 0 <= j < |r| ensures Below(s[0].key, r[j].key) {
        assert r[j] in multiset(r);
        assert r[j] == e || r[j] in s[1..];
      }
    }
  }

  /** Sorting distinct keys yields a strictly ascending list. */
  lemma {:induction false} SortAscending<T(!new)>(s: seq<Entry<T>>)
    requires DistinctKeys(s)
    ensures Ascending(SortByKey(s))
  {
    if s != [] {
      var rest := SortByKey(s[1..]);
      SortAscending(s[1..]);
      SameMembers(rest, s[1..]);
      forall x | x in rest ensures x.key != s[0].key {
        var j :| 0 <= j < |s[1..]| && s[1..][j] == x;
        assert s[j + 1] == x;
      }
      InsertAscending(s[0], rest);
    }
  }

  /** A strictly ascending list is determined by its members. */
  lemma {:induction false} AscendingUnique<T(!new)>(a: seq<Entry<T>>, b: seq<Entry<T>>)
    requires Ascending(a) && Ascending(b)
    requires forall e :: e in a <==> e in b
    ensures a == b
  {
    assert b != [] ==> b[0] in a;
    if a != [] {
      assert a[0] in b;
      var j :| 0 <= j < |b| && b[j] == a[0];
      assert b[0] in a;
      var i :| 0 <= i < |a| && a[i] == b[0];
      if i > 0 && j > 0 {
        BelowTransitive(a[0].key, a[i].key, a[0].key);
        BelowIrreflexive(a[0].key);
      }
      assert a[0] == b[0];
      forall e ensures e in a[1..] <==> e in b[1..] {
        BelowIrreflexive(a[0].key);
        if e in a[1..] {
          assert e in a && e != a[0];
        }
        if e in b[1..] {
          assert e in b && e != b[0];
        }
      }
      AscendingUnique(a[1..], b[1..]);
      assert a == [a[0]] + a[1..] && b == [b[0]] + b[1..];
    }
  }
}
