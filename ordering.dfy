/**
 * lodash `sortBy(parts, [field, 'label'])` over partition records: a stable
 * ascending sort on the pair (field, label). lodash orders an `undefined`
 * field after every number; labels compare as JavaScript strings.
 */
module PartOrder {
  import opened Text
  import opened Misc

  /** The numeric field the sort looks at first: `available` or `use`. */
  datatype Field = Available | Use

  datatype SortKey = SortKey(num: Option<real>, tag: String)

  function KeyOf(p: Part, f: Field): SortKey {
    match f
    case Available => SortKey(if p.available.Some? then Some(p.available.value as real) else None, p.volumeLabel)
    case Use => SortKey(p.use, p.volumeLabel)
  }

  /** lodash's ascending comparison of one numeric value, `undefined` last. */
  predicate NumLt(a: Option<real>, b: Option<real>) {
    match (a, b)
    case (Some(x), Some(y)) => x < y
    case (Some(_), None) => true
    case (None, _) => false
  }

  /** `a` sorts no later than `b`: by number, then by label. */
  predicate KeyLe(a: SortKey, b: SortKey) {
    if a.num == b.num then StrLe(a.tag, b.tag) else NumLt(a.num, b.num)
  }

  lemma KeyLeTotal(a: SortKey, b: SortKey)
    ensures KeyLe(a, b) || KeyLe(b, a)
  {
    StrLeTotal(a.tag, b.tag);
  }

  lemma KeyLeTransitive(a: SortKey, b: SortKey, c: SortKey)
    requires KeyLe(a, b) && KeyLe(b, c)
    ensures KeyLe(a, c)
  {
    if a.num == b.num && b.num == c.num {
      StrLeTransitive(a.tag, b.tag, c.tag);
    }
  }

  predicate Le(p: Part, q: Part, f: Field) {
    KeyLe(KeyOf(p, f), KeyOf(q, f))
  }

  /** Ascending by (field, label). */
  predicate Sorted(s: seq<Part>, f: Field) {
    forall i, j :: 0 <= i < j < |s| ==> Le(s[i], s[j], f)
  }

  /** Descending by (field, label). */
  predicate SortedDescending(s: seq<Part>, f: Field) {
    forall i, j :: 0 <= i < j < |s| ==> Le(s[j], s[i], f)
  }

  /** Inserts `x` before the first element it sorts no later than, keeping equal elements in input order. */
  function Insert(x: Part, s: seq<Part>, f: Field): (r: seq<Part>)
    ensures multiset(r) == multiset(s) + multiset{x}
  {
    if s == [] then [x]
    else if Le(x, s[0], f) then [x] + s
    else
      assert s == [s[0]] + s[1..];
      [s[0]] + Insert(x, s[1..], f)
  }

  /** A sorted sequence stays sorted with an element in front that sorts no later than any of it. */
  lemma ConsSorted(h: Part, t: seq<Part>, f: Field)
    requires Sorted(t, f)
    requires forall k :: 0 <= k < |t| ==> Le(h, t[k], f)
    ensures Sorted([h] + t, f)
  {
    var r := [h] + t;
    forall i, j | 0 <= i < j < |r| ensures Le(r[i], r[j], f) {
      assert r[j] == t[j - 1];
      if i > 0 { assert r[i] == t[i - 1]; }
    }
  }

  /** An element that sorts no later than the head of a sorted sequence can go in front of it. */
  lemma PrependSorted(x: Part, s: seq<Part>, f: Field)
    requires Sorted(s, f) && s != [] && Le(x, s[0], f)
    ensures Sorted([x] + s, f)
  {
    forall j | 0 <= j < |s| ensures Le(x, s[j], f) {
      if j > 0 { KeyLeTransitive(KeyOf(x, f), KeyOf(s[0], f), KeyOf(s[j], f)); }
    }
    ConsSorted(x, s, f);
  }

  lemma HeadBelowInserted(x: Part, s: seq<Part>, f: Field, y: Part)
    requires Sorted(s, f) && s != [] && Le(s[0], x, f)
    requires y in Insert(x, s[1..], f)
    ensures Le(s[0], y, f)
  {
    assert y in multiset(Insert(x, s[1..], f));
    if y != x {
      assert y in multiset(s[1..]);
      assert y in s;
      HeadIsLeast(s, f, y);
    }
  }

  /** The head of a sorted sequence stays in front when `x` goes into the rest. */
  lemma KeepHeadSorted(x: Part, s: seq<Part>, f: Field)
    requires Sorted(s, f) && s != [] && Le(s[0], x, f)
    requires Sorted(Insert(x, s[1..], f), f)
    ensures Sorted([s[0]] + Insert(x, s[1..], f), f)
  {
    var t := Insert(x, s[1..], f);
    forall k | 0 <= k < |t| ensures Le(s[0], t[k], f) {
      HeadBelowInserted(x, s, f, t[k]);
    }
    ConsSorted(s[0], t, f);
  }

  lemma {:induction false} InsertSorted(x: Part, s: seq<Part>, f: Field)
    requires Sorted(s, f)
    ensures Sorted(Insert(x, s, f), f)
  {
    if s == [] {
    } else if Le(x, s[0], f) {
      PrependSorted(x, s, f);
    } else {
      KeyLeTotal(KeyOf(x, f), KeyOf(s[0], f));
      InsertSorted(x, s[1..], f);
      KeepHeadSorted(x, s, f);
    }
  }

  /** `_.sortBy(s, [f, 'label'])`: a sorted permutation of `s`. */
  function SortBy(s: seq<Part>, f: Field): (r: seq<Part>)
    ensures Sorted(r, f)
    ensures multiset(r) == multiset(s)
    ensures |r| == |s|
  {
    if s == [] then []
    else
      assert s == [s[0]] + s[1..];
      var t := SortBy(s[1..], f);
      InsertSorted(s[0], t, f);
      Insert(s[0], t, f)
  }

  /** Reversing an ascending sequence gives a descending one. */
  lemma ReverseDescending(s: seq<Part>, r: seq<Part>, f: Field)
    requires Sorted(s, f)
    requires |r| == |s| && forall i :: 0 <= i < |s| ==> r[i] == s[|s| - 1 - i]
    ensures SortedDescending(r, f)
  {
    forall i, j | 0 <= i < j < |r| ensures Le(r[j], r[i], f) {
      assert r[j] == s[|s| - 1 - j] && r[i] == s[|s| - 1 - i];
    }
  }

  /** The first element of a sorted sequence sorts no later than any element. */
  lemma {:induction false} HeadIsLeast(s: seq<Part>, f: Field, q: Part)
    requires Sorted(s, f) && s != [] && q in s
    ensures Le(s[0], q, f)
  {
    var j :| 0 <= j < |s| && s[j] == q;
    if j == 0 {
      StrLeTotal(s[0].volumeLabel, s[0].volumeLabel);
    }
  }
}
