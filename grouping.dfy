/** Totals by key, as the admin console computes its revenue breakdowns: a JavaScript `Map`
    filled by `map.set(key, (map.get(key) || 0) + amount)` for each booking, read back in
    insertion order (client/src/features/admin/AdminPage.jsx:217-248), and the two sorts
    applied to it. The `Map` is an association list whose keys stay distinct. */
module Grouping {
  import opened Wrappers

  /** One booking's contribution: its key and its amount. */
  datatype Amount = Amount(key: string, amount: int)

  /** One entry of the `Map`: a key and its running total. */
  datatype Entry = Entry(key: string, total: int)

  predicate DistinctKeys(entries: seq<Entry>)
  {
    forall i, j :: 0 <= i < j < |entries| ==> entries[i].key != entries[j].key
  }

  function EntryKeys(entries: seq<Entry>): set<string>
  {
    set i | 0 <= i < |entries| :: entries[i].key
  }

  function AmountKeys(amounts: seq<Amount>): set<string>
  {
    set i | 0 <= i < |amounts| :: amounts[i].key
  }

  /** The sum of all amounts, added in list order (`reduce`). */
  function SumAmounts(amounts: seq<Amount>): int
  {
    if amounts == [] then 0 else SumAmounts(amounts[..|amounts| - 1]) + amounts[|amounts| - 1].amount
  }

  /** The sum of the amounts under `key`. */
  function SumFor(amounts: seq<Amount>, key: string): int
  {
    if amounts == [] then 0
    else SumFor(amounts[..|amounts| - 1], key)
         + (if amounts[|amounts| - 1].key == key then amounts[|amounts| - 1].amount else 0)
  }

  function SumTotals(entries: seq<Entry>): int
  {
    if entries == [] then 0 else entries[0].total + SumTotals(entries[1..])
  }

  /** `map.get(key)`: where `key` sits, if it is present. */
  function IndexOfKey(entries: seq<Entry>, key: string): (r: Option<nat>)
    ensures r.Some? ==> r.value < |entries| && entries[r.value].key == key
    ensures r.None? <==> key !in EntryKeys(entries)
  {
    if entries == [] then None
    else if entries[|entries| - 1].key == key then Some(|entries| - 1)
    else
      var r := IndexOfKey(entries[..|entries| - 1], key);
      assert EntryKeys(entries) == EntryKeys(entries[..|entries| - 1]) + {entries[|entries| - 1].key};
      r
  }

  /** `map.set(key, (map.get(key) || 0) + amount)`: a present key keeps its place. */
  function Upsert(entries: seq<Entry>, key: string, amount: int): seq<Entry>
  {
    var found := IndexOfKey(entries, key);
    if found.Some? then entries[found.value := Entry(key, entries[found.value].total + amount)]
    else entries + [Entry(key, amount)]
  }

  /** The `Map` after all amounts, in order. */
  function Totals(amounts: seq<Amount>): seq<Entry>
  {
    if amounts == [] then []
    else
      var last := amounts[|amounts| - 1];
      Upsert(Totals(amounts[..|amounts| - 1]), last.key, last.amount)
  }

  /** The keys of the entries, in `Map` iteration order. */
  function KeySeq(entries: seq<Entry>): seq<string>
  {
    seq(|entries|, i requires 0 <= i < |entries| => entries[i].key)
  }

  /** The keys of the amounts, in list order, repeats included. */
  function AmountKeySeq(amounts: seq<Amount>): seq<string>
  {
    seq(|amounts|, i requires 0 <= i < |amounts| => amounts[i].key)
  }

  /** `keys` with every repeat dropped, each key kept where it first occurs. */
  function FirstSeen(keys: seq<string>): seq<string>
  {
    if keys == [] then []
    else
      var rest := FirstSeen(keys[..|keys| - 1]);
      if keys[|keys| - 1] in rest then rest else rest + [keys[|keys| - 1]]
  }

  /** The `forEach` that fills the `Map`, then `Array.from(map.entries())`. */
  method AccumulateTotals(amounts: seq<Amount>) returns (entries: seq<Entry>)
    ensures entries == Totals(amounts)
    ensures DistinctKeys(entries) && EntryKeys(entries) == AmountKeys(amounts)
    ensures forall i :: 0 <= i < |entries| ==> entries[i].total == SumFor(amounts, entries[i].key)
    ensures SumTotals(entries) == SumAmounts(amounts)
  {
    entries := [];
    var i := 0;
    while i < |amounts|
      invariant 0 <= i <= |amounts|
      invariant entries == Totals(amounts[..i])
    {
      assert amounts[..i + 1][..i] == amounts[..i];
      entries := Upsert(entries, amounts[i].key, amounts[i].amount);
      i := i + 1;
    }
    assert amounts[..i] == amounts;
    TotalsFacts(amounts);
  }

  // ---------------------------------------------------------------- totals

  lemma {:induction false} SumTotalsAppend(entries: seq<Entry>, e: Entry)
    ensures SumTotals(entries + [e]) == SumTotals(entries) + e.total
  {
    if entries != [] {
      assert (entries + [e])[1..] == entries[1..] + [e];
      SumTotalsAppend(entries[1..], e);
    }
  }

  lemma {:induction false} SumTotalsUpdate(entries: seq<Entry>, j: nat, e: Entry)
    requires j < |entries|
    ensures SumTotals(entries[j := e]) == SumTotals(entries) - entries[j].total + e.total
  {
    if j > 0 {
      assert entries[j := e][1..] == entries[1..][j - 1 := e];
      SumTotalsUpdate(entries[1..], j - 1, e);
    }
  }

  /** The amounts under a key that never occurs add up to nothing. */
  lemma {:induction false} SumForAbsent(amounts: seq<Amount>, key: string)
    requires key !in AmountKeys(amounts)
    ensures SumFor(amounts, key) == 0
  {
    if amounts != [] {
      var init := amounts[..|amounts| - 1];
      assert AmountKeys(init) <= AmountKeys(amounts) by {
        forall k | k in AmountKeys(init) ensures k in AmountKeys(amounts) {
          var i :| 0 <= i < |init| && init[i].key == k;
          assert amounts[i].key == k;
        }
      }
      SumForAbsent(init, key);
    }
  }

  lemma AmountKeysStep(amounts: seq<Amount>)
    requires amounts != []
    ensures AmountKeys(amounts) == AmountKeys(amounts[..|amounts| - 1]) + {amounts[|amounts| - 1].key}
  {
    var init := amounts[..|amounts| - 1];
    forall k | k in AmountKeys(amounts) ensures k in AmountKeys(init) + {amounts[|amounts| - 1].key} {
      var i :| 0 <= i < |amounts| && amounts[i].key == k;
      if i < |init| {
        assert init[i].key == k;
      }
    }
    forall k | k in AmountKeys(init) ensures k in AmountKeys(amounts) {
      var i :| 0 <= i < |init| && init[i].key == k;
      assert amounts[i].key == k;
    }
  }

  /** Two lists whose keys agree position by position have the same key facts. */
  lemma SameKeys(a: seq<Entry>, b: seq<Entry>)
    requires |a| == |b| && forall i :: 0 <= i < |a| ==> a[i].key == b[i].key
    ensures DistinctKeys(a) == DistinctKeys(b) && EntryKeys(a) == EntryKeys(b)
  {
    forall k | k in EntryKeys(a) ensures k in EntryKeys(b) {
      var i :| 0 <= i < |a| && a[i].key == k;
      assert b[i].key == k;
    }
    forall k | k in EntryKeys(b) ensures k in EntryKeys(a) {
      var i :| 0 <= i < |b| && b[i].key == k;
      assert a[i].key == k;
    }
  }

  lemma UpsertPresent(entries: seq<Entry>, key: string, amount: int)
    requires DistinctKeys(entries) && IndexOfKey(entries, key).Some?
    ensures var r := Upsert(entries, key, amount);
      && DistinctKeys(r)
      && EntryKeys(r) == EntryKeys(entries)
      && SumTotals(r) == SumTotals(entries) + amount
  {
    var j := IndexOfKey(entries, key).value;
    var e := Entry(key, entries[j].total + amount);
    var r := entries[j := e];
    assert Upsert(entries, key, amount) == r;
    SumTotalsUpdate(entries, j, e);
    SameKeys(r, entries);
  }

  lemma UpsertAbsent(entries: seq<Entry>, key: string, amount: int)
    requires DistinctKeys(entries) && IndexOfKey(entries, key).None?
    ensures var r := Upsert(entries, key, amount);
      && DistinctKeys(r)
      && EntryKeys(r) == EntryKeys(entries) + {key}
      && SumTotals(r) == SumTotals(entries) + amount
  {
    var r := Upsert(entries, key, amount);
    SumTotalsAppend(entries, Entry(key, amount));
    assert r[|entries|].key == key;
    forall k | k in EntryKeys(entries) ensures k in EntryKeys(r) {
      var i :| 0 <= i < |entries| && entries[i].key == k;
      assert r[i].key == k;
    }
    forall i, j | 0 <= i < j < |r| ensures r[i].key != r[j].key {
      if j == |entries| {
        assert r[i].key in EntryKeys(entries);
      }
    }
  }

  /** One `Map.set` keeps the keys distinct, adds the key, adds the amount to the total
      and to that key's entry, and changes no other entry. */
  lemma UpsertFacts(entries: seq<Entry>, key: string, amount: int)
    requires DistinctKeys(entries)
    ensures var r := Upsert(entries, key, amount);
      && DistinctKeys(r)
      && EntryKeys(r) == EntryKeys(entries) + {key}
      && SumTotals(r) == SumTotals(entries) + amount
      && (forall i :: 0 <= i < |r| && r[i].key != key ==> r[i] in entries)
      && (forall i :: 0 <= i < |r| && r[i].key == key ==>
            r[i].total == amount + (if key in EntryKeys(entries) then entries[IndexOfKey(entries, key).value].total else 0))
  {
    if IndexOfKey(entries, key).Some? {
      UpsertPresent(entries, key, amount);
    } else {
      UpsertAbsent(entries, key, amount);
    }
  }

  /** A JavaScript `Map` iterates in insertion order and `set` on a present key keeps its
      place: the entries' keys are the amounts' keys in order of first occurrence. */
  lemma {:induction false} TotalsInFirstSeenOrder(amounts: seq<Amount>)
    ensures KeySeq(Totals(amounts)) == FirstSeen(AmountKeySeq(amounts))
  {
    if amounts != [] {
      var init := amounts[..|amounts| - 1];
      var last := amounts[|amounts| - 1];
      TotalsInFirstSeenOrder(init);
      var t := Totals(init);
      var ks := AmountKeySeq(amounts);
      assert ks[..|ks| - 1] == AmountKeySeq(init);
      assert ks[|ks| - 1] == last.key;
      var found := IndexOfKey(t, last.key);
      if found.Some? {
        assert KeySeq(t)[found.value] == last.key;
        assert KeySeq(t[found.value := Entry(last.key, t[found.value].total + last.amount)]) == KeySeq(t);
      } else {
        assert last.key !in KeySeq(t);
        assert KeySeq(t + [Entry(last.key, last.amount)]) == KeySeq(t) + [last.key];
      }
    }
  }

  /** The `Map` has one entry per key that occurs, each holding the full sum for its key,
      and all totals add up to the sum of all amounts. */
  lemma {:induction false} TotalsFacts(amounts: seq<Amount>)
    ensures var r := Totals(amounts);
      && DistinctKeys(r) && EntryKeys(r) == AmountKeys(amounts)
      && (forall i :: 0 <= i < |r| ==> r[i].total == SumFor(amounts, r[i].key))
      && SumTotals(r) == SumAmounts(amounts)
  {
    if amounts != [] {
      var init := amounts[..|amounts| - 1];
      var last := amounts[|amounts| - 1];
      TotalsFacts(init);
      var before := Totals(init);
      UpsertFacts(before, last.key, last.amount);
      AmountKeysStep(amounts);
      var r := Totals(amounts);
      forall i | 0 <= i < |r| ensures r[i].total == SumFor(amounts, r[i].key) {
        if r[i].key == last.key {
          if last.key !in EntryKeys(before) {
            SumForAbsent(init, last.key);
          }
        } else {
          var j :| 0 <= j < |before| && before[j] == r[i];
        }
      }
    }
  }

  // ---------------------------------------------------------------- ordering

  /** Lexicographic order by code point; this is JavaScript's `<` on the ASCII day keys
      it is applied to (the two differ only beyond the Basic Multilingual Plane). */
  predicate KeyLess(a: string, b: string)
  {
    if |a| == 0 then |b| > 0
    else if |b| == 0 then false
    else if a[0] != b[0] then a[0] < b[0]
    else KeyLess(a[1..], b[1..])
  }

  lemma {:induction false} KeyLessIrreflexive(a: string)
    ensures !KeyLess(a, a)
  {
    if |a| > 0 {
      KeyLessIrreflexive(a[1..]);
    }
  }

  lemma {:induction false} KeyLessTransitive(a: string, b: string, c: string)
    requires KeyLess(a, b) && KeyLess(b, c)
    ensures KeyLess(a, c)
  {
    if |a| > 0 && |b| > 0 && |c| > 0 && a[0] == b[0] && b[0] == c[0] {
      KeyLessTransitive(a[1..], b[1..], c[1..]);
    }
  }

  /** Two different strings are ordered one way or the other. */
  lemma {:induction false} KeyLessTotal(a: string, b: string)
    requires a != b
    ensures KeyLess(a, b) || KeyLess(b, a)
  {
    if |a| > 0 && |b| > 0 && a[0] == b[0] {
      assert a == [a[0]] + a[1..] && b == [b[0]] + b[1..];
      KeyLessTotal(a[1..], b[1..]);
    }
  }

  /** The two comparators: `a.date > b.date ? 1 : -1` (ascending keys) and
      `b.total - a.total` (descending totals). `Precedes(o, x, y)`: `x` sorts strictly before `y`. */
  datatype Order = ByKeyAscending | ByTotalDescending

  predicate Precedes(o: Order, x: Entry, y: Entry)
  {
    match o
    case ByKeyAscending => KeyLess(x.key, y.key)
    case ByTotalDescending => x.total > y.total
  }

  lemma PrecedesIrreflexive(o: Order, x: Entry)
    ensures !Precedes(o, x, x)
  {
    if o == ByKeyAscending {
      KeyLessIrreflexive(x.key);
    }
  }

  lemma PrecedesTransitive(o: Order, x: Entry, y: Entry, z: Entry)
    requires Precedes(o, x, y) && Precedes(o, y, z)
    ensures Precedes(o, x, z)
  {
    if o == ByKeyAscending {
      KeyLessTransitive(x.key, y.key, z.key);
    }
  }

  /** No entry sorts strictly before an entry in front of it. */
  predicate SortedBy(o: Order, s: seq<Entry>)
  {
    forall i, j :: 0 <= i < j < |s| ==> !Precedes(o, s[j], s[i])
  }

  /** Inserts `x` in front of the first entry it strictly precedes, so that equal entries
      keep their order (`Array.prototype.sort` is stable). */
  function Insert(o: Order, x: Entry, s: seq<Entry>): (r: seq<Entry>)
    ensures |r| == |s| + 1
  {
    if s == [] then [x]
    else if Precedes(o, x, s[0]) then [x] + s
    else [s[0]] + Insert(o, x, s[1..])
  }

  /** `Array.prototype.sort` with the comparator of `o`. */
  function SortBy(o: Order, s: seq<Entry>): (r: seq<Entry>)
    ensures |r| == |s|
  {
    if s == [] then [] else Insert(o, s[|s| - 1], SortBy(o, s[..|s| - 1]))
  }

  /** Inserting adds exactly `x`. */
  lemma {:induction false} InsertPermutes(o: Order, x: Entry, s: seq<Entry>)
    ensures multiset(Insert(o, x, s)) == multiset(s) + multiset{x}
  {
    if s != [] && !Precedes(o, x, s[0]) {
      InsertPermutes(o, x, s[1..]);
      var tail := Insert(o, x, s[1..]);
      assert Insert(o, x, s) == [s[0]] + tail;
      assert s == [s[0]] + s[1..];
      assert multiset([s[0]] + tail) == multiset{s[0]} + multiset(tail);
      assert multiset([s[0]] + s[1..]) == multiset{s[0]} + multiset(s[1..]);
    }
  }

  /** Inserting adds `x`'s total to the sum. */
  lemma {:induction false} InsertSum(o: Order, x: Entry, s: seq<Entry>)
    ensures SumTotals(Insert(o, x, s)) == SumTotals(s) + x.total
  {
    if s != [] && !Precedes(o, x, s[0]) {
      InsertSum(o, x, s[1..]);
      assert Insert(o, x, s)[1..] == Insert(o, x, s[1..]);
    } else if s != [] {
      assert Insert(o, x, s)[1..] == s;
    }
  }

  /** What an insertion holds: `x` and the entries of `s`. */
  lemma InsertMembers(o: Order, x: Entry, s: seq<Entry>, y: Entry)
    requires y in Insert(o, x, s)
    ensures y == x || y in s
  {
    InsertPermutes(o, x, s);
    assert y in multiset(Insert(o, x, s));
  }

  /** In a sorted list nothing behind the head sorts before it. */
  lemma SortedHead(o: Order, s: seq<Entry>, y: Entry)
    requires SortedBy(o, s) && |s| > 0 && y in s[1..]
    ensures !Precedes(o, y, s[0])
  {
    var k :| 0 <= k < |s[1..]| && s[1..][k] == y;
    assert s[k + 1] == y;
  }

  lemma {:induction false} InsertSorted(o: Order, x: Entry, s: seq<Entry>)
    requires SortedBy(o, s)
    ensures SortedBy(o, Insert(o, x, s))
  {
    if s != [] {
      var r := Insert(o, x, s);
      if Precedes(o, x, s[0]) {
        forall j | 0 < j < |r| ensures !Precedes(o, r[j], r[0]) {
          if Precedes(o, r[j], x) {
            PrecedesTransitive(o, r[j], x, s[0]);
            if j == 1 {
              PrecedesIrreflexive(o, s[0]);
            }
          }
        }
      } else {
        InsertSorted(o, x, s[1..]);
        var tail := Insert(o, x, s[1..]);
        assert r == [s[0]] + tail;
        forall j | 0 < j < |r| ensures !Precedes(o, r[j], r[0]) {
          assert r[j] in tail;
          InsertMembers(o, x, s[1..], r[j]);
          if r[j] != x {
            SortedHead(o, s, r[j]);
          }
        }
      }
    }
  }

  lemma {:induction false} InsertKeepsKeysDistinct(o: Order, x: Entry, s: seq<Entry>)
    requires DistinctKeys(s) && x.key !in EntryKeys(s)
    ensures DistinctKeys(Insert(o, x, s))
  {
    if s != [] {
      var r := Insert(o, x, s);
      if Precedes(o, x, s[0]) {
        forall j | 0 < j < |r| ensures r[j].key != r[0].key {
          assert r[j] == s[j - 1];
        }
      } else {
        var tail := Insert(o, x, s[1..]);
        assert DistinctKeys(s[1..]);
        assert x.key !in EntryKeys(s[1..]);
        InsertKeepsKeysDistinct(o, x, s[1..]);
        assert r == [s[0]] + tail;
        forall j | 0 < j < |r| ensures r[j].key != r[0].key {
          assert r[j] in tail;
          InsertMembers(o, x, s[1..], r[j]);
          if r[j] != x {
            var k :| 0 <= k < |s[1..]| && s[1..][k] == r[j];
            assert s[k + 1] == r[j];
          } else {
            assert s[0].key in EntryKeys(s);
          }
        }
      }
    }
  }

  /** Sorting gives an ordered list. */
  lemma {:induction false} SortBySorted(o: Order, s: seq<Entry>)
    ensures SortedBy(o, SortBy(o, s))
  {
    if s != [] {
      SortBySorted(o, s[..|s| - 1]);
      InsertSorted(o, s[|s| - 1], SortBy(o, s[..|s| - 1]));
    }
  }

  /** Sorting permutes: same entries, same sum. */
  lemma {:induction false} SortByPermutes(o: Order, s: seq<Entry>)
    ensures multiset(SortBy(o, s)) == multiset(s)
    ensures SumTotals(SortBy(o, s)) == SumTotals(s)
  {
    if s != [] {
      var init := s[..|s| - 1];
      SortByPermutes(o, init);
      InsertPermutes(o, s[|s| - 1], SortBy(o, init));
      InsertSum(o, s[|s| - 1], SortBy(o, init));
      assert s == init + [s[|s| - 1]];
      SumTotalsAppend(init, s[|s| - 1]);
    }
  }

  /** Reordering keeps the set of keys. */
  lemma PermutationKeys(a: seq<Entry>, b: seq<Entry>)
    requires multiset(a) == multiset(b)
    ensures EntryKeys(a) <= EntryKeys(b)
  {
    forall k | k in EntryKeys(a) ensures k in EntryKeys(b) {
      var i :| 0 <= i < |a| && a[i].key == k;
      assert a[i] in multiset(b);
      var j :| 0 <= j < |b| && b[j] == a[i];
    }
  }

  /** Sorting keeps the keys distinct. */
  lemma {:induction false} SortByKeepsKeysDistinct(o: Order, s: seq<Entry>)
    requires DistinctKeys(s)
    ensures DistinctKeys(SortBy(o, s))
  {
    if s != [] {
      var init := s[..|s| - 1];
      var last := s[|s| - 1];
      assert DistinctKeys(init) by {
        forall i, j | 0 <= i < j < |init| ensures init[i].key != init[j].key {
          assert init[i] == s[i] && init[j] == s[j];
        }
      }
      assert last.key !in EntryKeys(init) by {
        forall i | 0 <= i < |init| ensures init[i].key != last.key {
          assert init[i] == s[i];
        }
      }
      SortByKeepsKeysDistinct(o, init);
      SortByPermutes(o, init);
      var sorted := SortBy(o, init);
      PermutationKeys(sorted, init);
      InsertKeepsKeysDistinct(o, last, sorted);
    }
  }

  /** Sorted by ascending key with distinct keys: strictly ascending keys. */
  lemma AscendingKeys(s: seq<Entry>)
    requires SortedBy(ByKeyAscending, s) && DistinctKeys(s)
    ensures forall i, j :: 0 <= i < j < |s| ==> KeyLess(s[i].key, s[j].key)
  {
    forall i, j | 0 <= i < j < |s| ensures KeyLess(s[i].key, s[j].key) {
      KeyLessTotal(s[i].key, s[j].key);
    }
  }
}
