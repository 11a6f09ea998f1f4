/**
 The canonical form that is hashed and signed: every object rebuilt with its keys in order
 (`sort_keys` in envelope.rs). `Meaning` is the reference: a JSON value with its key order forgotten.
 */
module CanonicalJson {
  import opened Text

  /** A `serde_json::Value`; an object keeps the order in which its members were inserted. */
  datatype Json =
    | Null
    | Bool(b: bool)
    | Number(lexeme: string)
    | Str(s: string)
    | Array(items: seq<Json>)
    | Object(members: seq<Entry<Json>>)

  /** The same value up to key order at every depth. */
  datatype Unordered =
    | UScalar(scalar: Json)
    | UArray(items: seq<Unordered>)
    | UObject(members: map<string, Unordered>)

  /** `serde_json::Map` never holds a key twice, at any depth. */
  predicate Valid(v: Json)
  {
    match v
    case Array(items) => forall i | 0 <= i < |items| :: Valid(items[i])
    case Object(ms) =>
      && (forall i, j | 0 <= i < j < |ms| :: ms[i].key != ms[j].key)
      && (forall i | 0 <= i < |ms| :: Valid(ms[i].value))
    case _ => true
  }

  function Keys(ms: seq<Entry<Json>>): set<string>
  {
    set i | 0 <= i < |ms| :: ms[i].key
  }

  ghost function IndexOf(ms: seq<Entry<Json>>, k: string): (i: nat)
    requires k in Keys(ms)
    ensures i < |ms| && ms[i].key == k
  {
    if ms[0].key == k then 0 else
      var j :| 0 < j < |ms| && ms[j].key == k;
      assert ms[1..][j - 1].key == k;
      1 + IndexOf(ms[1..], k)
  }

  ghost function Meaning(v: Json): Unordered
  {
    match v
    case Array(items) => UArray(seq(|items|, i requires 0 <= i < |items| => Meaning(items[i])))
    case Object(ms) => UObject(map k | k in Keys(ms) :: Meaning(ms[IndexOf(ms, k)].value))
    case _ => UScalar(v)
  }

  function SortKeys(v: Json): Json
  {
    match v
    case Array(items) => Array(seq(|items|, i requires 0 <= i < |items| => SortKeys(items[i])))
    case Object(ms) =>
      var sorted := SortByKey(ms);
      assert forall e | e in sorted :: e in ms by { SameMembers(sorted, ms); }
      Object(seq(|sorted|, i requires 0 <= i < |sorted| =>
        assert sorted[i] in sorted;
        Entry(sorted[i].key, SortKeys(sorted[i].value))))
    case _ => v
  }

  /** `e` is a member of `ms` with its value sorted. */
  ghost predicate SortedMember(ms: seq<Entry<Json>>, e: Entry<Json>)
  {
    exists i :: 0 <= i < |ms| && e == Entry(ms[i].key, SortKeys(ms[i].value))
  }

  /** The members of a sorted object: ascending, and exactly the sorted original members. */
  lemma SortedMembers(ms: seq<Entry<Json>>)
    requires Valid(Object(ms))
    ensures Ascending(SortKeys(Object(ms)).members)
    ensures forall e :: e in SortKeys(Object(ms)).members <==> SortedMember(ms, e)
  {
    var sorted, out := SortByKey(ms), SortKeys(Object(ms)).members;
    SortAscending(ms);
    SameMembers(sorted, ms);
    forall i | 0 <= i < |ms| ensures Entry(ms[i].key, SortKeys(ms[i].value)) in out {
      assert ms[i] in sorted;
      var j :| 0 <= j < |sorted| && sorted[j] == ms[i];
      assert out[j] == Entry(ms[i].key, SortKeys(ms[i].value));
    }
    forall j | 0 <= j < |out|
      ensures SortedMember(ms, out[j])
    {
      assert sorted[j] in ms;
      var i :| 0 <= i < |ms| && ms[i] == sorted[j];
      assert out[j] == Entry(ms[i].key, SortKeys(ms[i].value));
    }
  }

  /** In a valid object a key names one member. */
  lemma MemberAt(ms: seq<Entry<Json>>, i: nat)
    requires Valid(Object(ms)) && i < |ms|
    ensures ms[i].key in Keys(ms) && IndexOf(ms, ms[i].key) == i
  {
    var k := IndexOf(ms, ms[i].key);
    assert k < i || k == i || i < k;
  }

  lemma {:induction false} SortKeepsValid(v: Json)
    ensures Valid(v) ==> Valid(SortKeys(v))
  {
    if Valid(v) {
      match v
      case Array(items) =>
        forall i | 0 <= i < |items| ensures Valid(SortKeys(items[i])) {
          SortKeepsValid(items[i]);
        }
      case Object(ms) =>
        var out := SortKeys(v).members;
        SortedMembers(ms);
        forall i, j | 0 <= i < j < |out| ensures out[i].key != out[j].key {
          BelowIrreflexive(out[i].key);
        }
        forall j | 0 <= j < |out| ensures Valid(out[j].value) {
          assert out[j] in out;
          var i :| 0 <= i < |ms| && out[j] == Entry(ms[i].key, SortKeys(ms[i].value));
          SortKeepsValid(ms[i].value);
        }
      case _ =>
    }
  }

  lemma SortedKeySet(ms: seq<Entry<Json>>)
    requires Valid(Object(ms))
    ensures Keys(SortKeys(Object(ms)).members) == Keys(ms)
  {
    var out := SortKeys(Object(ms)).members;
    SortedMembers(ms);
    forall i | 0 <= i < |ms| ensures ms[i].key in Keys(out) {
      assert Entry(ms[i].key, SortKeys(ms[i].value)) in out;
    }
    forall i | 0 <= i < |out| ensures out[i].key in Keys(ms) {
      assert out[i] in out;
    }
  }

  lemma SortedAt(ms: seq<Entry<Json>>, k: string)
    requires Valid(Object(ms)) && k in Keys(ms) && k in Keys(SortKeys(Object(ms)).members)
    ensures SortKeys(Object(ms)).members[IndexOf(SortKeys(Object(ms)).members, k)].value
         == SortKeys(ms[IndexOf(ms, k)].value)
  {
    var out := SortKeys(Object(ms)).members;
    SortedMembers(ms);
    var e := out[IndexOf(out, k)];
    assert e in out;
    var i :| 0 <= i < |ms| && e == Entry(ms[i].key, SortKeys(ms[i].value));
    MemberAt(ms, i);
  }

  lemma SameArrayMeaning(a: seq<Json>, b: seq<Json>)
    requires |a| == |b| && forall i :: 0 <= i < |a| ==> Meaning(a[i]) == Meaning(b[i])
    ensures Meaning(Array(a)) == Meaning(Array(b))
  {
  }

  lemma SameObjectMeaning(a: seq<Entry<Json>>, b: seq<Entry<Json>>)
    requires Keys(a) == Keys(b)
    requires forall k :: k in Keys(a) ==> Meaning(a[IndexOf(a, k)].value) == Meaning(b[IndexOf(b, k)].value)
    ensures Meaning(Object(a)) == Meaning(Object(b))
  {
  }

  /** Sorting loses nothing: it keeps the value up to key order, at every depth. */
  lemma {:induction false} SortKeepsMeaning(v: Json)
    requires Valid(v)
    ensures Meaning(SortKeys(v)) == Meaning(v)
  {
    match v
    case Array(items) =>
      var out := SortKeys(v).items;
      forall i | 0 <= i < |items| ensures Meaning(out[i]) == Meaning(items[i]) {
        SortKeepsMeaning(items[i]);
      }
      SameArrayMeaning(out, items);
    case Object(ms) =>
      var out := SortKeys(v).members;
      SortedKeySet(ms);
      forall k | k in Keys(out)
        ensures Meaning(out[IndexOf(out, k)].value) == Meaning(ms[IndexOf(ms, k)].value)
      {
        SortedAt(ms, k);
        SortKeepsMeaning(ms[IndexOf(ms, k)].value);
      }
      SameObjectMeaning(out, ms);
    case _ =>
  }

  /** The canonical form does not depend on the order in which members were inserted. */
  lemma {:induction false} SortForgetsOrder(a: Json, b: Json)
    requires Valid(a) && Valid(b) && Meaning(a) == Meaning(b)
    ensures SortKeys(a) == SortKeys(b)
    decreases a
  {
    match a
    case Array(items) =>
      forall i | 0 <= i < |items| ensures SortKeys(items[i]) == SortKeys(b.items[i]) {
        assert Meaning(a).items[i] == Meaning(b).items[i];
        SortForgetsOrder(items[i], b.items[i]);
      }
    case Object(ms) =>
      SortedMembers(ms);
      SortedMembers(b.members);
      SameSortedMembers(a, b);
      AscendingUnique(SortKeys(a).members, SortKeys(b).members);
    case _ =>
  }

  lemma {:induction false} SameSortedMembers(a: Json, b: Json)
    requires a.Object? && b.Object? && Valid(a) && Valid(b) && Meaning(a) == Meaning(b)
    ensures forall e :: SortedMember(a.members, e) <==> SortedMember(b.members, e)
    decreases a, 0
  {
    var x, y := a.members, b.members;
    assert Keys(x) == Meaning(a).members.Keys == Meaning(b).members.Keys == Keys(y);
    forall i | 0 <= i < |x|
      ensures exists j :: 0 <= j < |y| && y[j].key == x[i].key && SortKeys(x[i].value) == SortKeys(y[j].value)
    {
      MemberAt(x, i);
      var j := IndexOf(y, x[i].key);
      assert Meaning(x[i].value) == Meaning(a).members[x[i].key] == Meaning(y[j].value);
      SortForgetsOrder(x[i].value, y[j].value);
    }
    forall j | 0 <= j < |y|
      ensures exists i :: 0 <= i < |x| && y[j].key == x[i].key && SortKeys(x[i].value) == SortKeys(y[j].value)
    {
      MemberAt(y, j);
      var i := IndexOf(x, y[j].key);
      assert Meaning(x[i].value) == Meaning(a).members[y[j].key] == Meaning(y[j].value);
      SortForgetsOrder(x[i].value, y[j].value);
    }
  }

  /** The canonical form is a complete invariant of the value up to key order. */
  lemma CanonicalIff(a: Json, b: Json)
    requires Valid(a) && Valid(b)
    ensures SortKeys(a) == SortKeys(b) <==> Meaning(a) == Meaning(b)
  {
    SortKeepsMeaning(a);
    SortKeepsMeaning(b);
    if Meaning(a) == Meaning(b) {
      SortForgetsOrder(a, b);
    }
  }

  lemma SortIdempotent(v: Json)
    requires Valid(v)
    ensures SortKeys(SortKeys(v)) == SortKeys(v)
  {
    SortKeepsValid(v);
    SortKeepsMeaning(v);
    SortForgetsOrder(SortKeys(v), v);
  }
}
