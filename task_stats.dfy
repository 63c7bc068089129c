/** The statistics route: counts over the whole collection. */
module TaskStats {
  import opened Sequences
  import opened TaskSchema

  /** One `{ _id: category, count }` entry of `byCategory`. */
  datatype CategoryCount = CategoryCount(category: string, count: nat)

  /** The statistics object; `high`, `medium` and `low` are `byPriority`. */
  datatype Stats = Stats(
    total: nat,
    completed: nat,
    pending: nat,
    high: nat,
    medium: nat,
    low: nat,
    byCategory: seq<CategoryCount>,
    overdue: nat)

  /** Not completed, with a due date strictly before `now`. */
  predicate OverdueAt(t: Task, now: Timestamp) {
    !t.completed && t.dueDate.Some? && t.dueDate.value < now
  }

  /** The number of tasks (of any status) in category `c`. */
  function CountCategory(ts: seq<Task>, c: string): nat {
    Count(ts, (t: Task) => t.category == c)
  }

  /** The number of incomplete tasks of priority `p`. */
  function CountPendingWith(ts: seq<Task>, p: string): nat {
    Count(ts, (t: Task) => t.priority == p && !t.completed)
  }

  /** The sum of all counts of a grouping. */
  function TotalOf(g: seq<CategoryCount>): nat {
    SumOf(g, (e: CategoryCount) => e.count)
  }

  /** The count a grouping records for category `c` (over all its entries). */
  function CountOf(g: seq<CategoryCount>, c: string): nat {
    SumOf(g, (e: CategoryCount) => if e.category == c then e.count else 0)
  }

  function CategoriesOf(g: seq<CategoryCount>): set<string> {
    set i | 0 <= i < |g| :: g[i].category
  }

  function TaskCategories(ts: seq<Task>): set<string> {
    set k | 0 <= k < |ts| :: ts[k].category
  }

  predicate DistinctCategories(g: seq<CategoryCount>) {
    forall i, j :: 0 <= i < j < |g| ==> g[i].category != g[j].category
  }

  /** What `byCategory` promises about the collection `store`: one entry
      per distinct category, each with the number of tasks in it, in
      non-increasing order of count, the counts adding up to the total. */
  ghost predicate CategorySummary(store: seq<Task>, g: seq<CategoryCount>) {
    && (forall i :: 0 <= i < |g| ==> g[i].count == CountCategory(store, g[i].category) > 0)
    && (forall i, j :: 0 <= i < j < |g| ==> g[i].category != g[j].category)
    && (forall i, j :: 0 <= i < j < |g| ==> g[i].count >= g[j].count)
    && (forall k :: 0 <= k < |store| ==> store[k].category in CategoriesOf(g))
    && TotalOf(g) == |store|
  }

  /** Counts one more task of category `c`. */
  function Bump(g: seq<CategoryCount>, c: string): seq<CategoryCount> {
    if g == [] then [CategoryCount(c, 1)]
    else if g[0].category == c then [g[0].(count := g[0].count + 1)] + g[1..]
    else [g[0]] + Bump(g[1..], c)
  }

  /** The `$group` stage: one entry per category, in order of first
      appearance from the end. */
  function Group(ts: seq<Task>): seq<CategoryCount> {
    if ts == [] then [] else Bump(Group(ts[1..]), ts[0].category)
  }

  lemma {:induction false} BumpTotal(g: seq<CategoryCount>, c: string)
    ensures TotalOf(Bump(g, c)) == TotalOf(g) + 1
  {
    var b := Bump(g, c);
    if g == [] {
      assert b[1..] == [];
    } else {
      assert TotalOf(g) == g[0].count + TotalOf(g[1..]);
      assert TotalOf(b) == b[0].count + TotalOf(b[1..]);
      if g[0].category == c {
        assert b[1..] == g[1..];
      } else {
        assert b[1..] == Bump(g[1..], c);
        BumpTotal(g[1..], c);
      }
    }
  }

  lemma {:induction false} BumpCount(g: seq<CategoryCount>, c: string, d: string)
    ensures CountOf(Bump(g, c), d) == CountOf(g, d) + (if d == c then 1 else 0)
  {
    var b := Bump(g, c);
    assert CountOf(b, d) == (if b[0].category == d then b[0].count else 0) + CountOf(b[1..], d);
    if g == [] {
      assert b[1..] == [];
    } else {
      assert CountOf(g, d) == (if g[0].category == d then g[0].count else 0) + CountOf(g[1..], d);
      if g[0].category == c {
        assert b[1..] == g[1..];
      } else {
        assert b[1..] == Bump(g[1..], c);
        BumpCount(g[1..], c, d);
      }
    }
  }

  /** The categories of a nonempty grouping: its first entry's and the rest's. */
  lemma CategoriesOfCons(g: seq<CategoryCount>)
    requires g != []
    ensures CategoriesOf(g) == {g[0].category} + CategoriesOf(g[1..])
  {
    forall x | x in CategoriesOf(g) ensures x in {g[0].category} + CategoriesOf(g[1..]) {
      var i :| 0 <= i < |g| && g[i].category == x;
      if i > 0 { assert g[1..][i - 1].category == x; }
    }
    forall x | x in CategoriesOf(g[1..]) ensures x in CategoriesOf(g) {
      var i :| 0 <= i < |g[1..]| && g[1..][i].category == x;
      assert g[i + 1].category == x;
    }
  }

  lemma {:induction false} BumpShape(g: seq<CategoryCount>, c: string)
    ensures CategoriesOf(Bump(g, c)) == CategoriesOf(g) + {c}
    ensures (forall i :: 0 <= i < |g| ==> g[i].count > 0) ==>
            forall i :: 0 <= i < |Bump(g, c)| ==> Bump(g, c)[i].count > 0
  {
    var b := Bump(g, c);
    CategoriesOfCons(b);
    if g != [] {
      CategoriesOfCons(g);
      if g[0].category == c {
        assert b[1..] == g[1..];
      } else {
        assert b[1..] == Bump(g[1..], c);
        BumpShape(g[1..], c);
      }
    } else {
      assert b[1..] == [];
    }
  }

  lemma {:induction false} BumpDistinct(g: seq<CategoryCount>, c: string)
    requires DistinctCategories(g)
    ensures DistinctCategories(Bump(g, c))
  {
    var b := Bump(g, c);
    if g != [] && g[0].category != c {
      assert b[1..] == Bump(g[1..], c);
      assert DistinctCategories(g[1..]) by {
        forall i, j | 0 <= i < j < |g[1..]| ensures g[1..][i].category != g[1..][j].category {
          assert g[i + 1].category != g[j + 1].category;
        }
      }
      BumpDistinct(g[1..], c);
      BumpShape(g[1..], c);
      assert g[0].category !in CategoriesOf(g[1..]) by {
        forall k | 0 <= k < |g[1..]| ensures g[1..][k].category != g[0].category {
          assert g[k + 1].category != g[0].category;
        }
      }
      forall j | 0 < j < |b| ensures b[0].category != b[j].category {
        assert b[1..][j - 1] == b[j];
        assert b[j].category in CategoriesOf(b[1..]);
      }
    }
  }

  /** The grouping is exact: distinct categories, every task's category
      present, each count positive and equal to the number of tasks in
      that category, the counts adding up to the number of tasks. */
  lemma {:induction false} GroupFacts(ts: seq<Task>)
    ensures DistinctCategories(Group(ts))
    ensures forall c :: CountOf(Group(ts), c) == CountCategory(ts, c)
    ensures forall i :: 0 <= i < |Group(ts)| ==> Group(ts)[i].count > 0
    ensures CategoriesOf(Group(ts)) == TaskCategories(ts)
    ensures TotalOf(Group(ts)) == |ts|
  {
    if ts != [] {
      GroupFacts(ts[1..]);
      var g, c := Group(ts[1..]), ts[0].category;
      BumpTotal(g, c);
      BumpShape(g, c);
      BumpDistinct(g, c);
      forall d ensures CountOf(Group(ts), d) == CountCategory(ts, d) {
        BumpCount(g, c, d);
      }
      assert TaskCategories(ts) == {ts[0].category} + TaskCategories(ts[1..]) by {
        forall x | x in TaskCategories(ts) ensures x in {ts[0].category} + TaskCategories(ts[1..]) {
          var k :| 0 <= k < |ts| && ts[k].category == x;
          if k > 0 { assert ts[1..][k - 1].category == x; }
        }
      }
    } else {
      forall c ensures CountOf(Group(ts), c) == CountCategory(ts, c) {
      }
    }
  }

  /** In a grouping with distinct categories an entry's count is the count
      recorded for its category. */
  lemma {:induction false} EntryCount(g: seq<CategoryCount>, i: nat)
    requires DistinctCategories(g) && i < |g|
    ensures g[i].count == CountOf(g, g[i].category)
  {
    var c := g[i].category;
    if i == 0 {
      assert CountOf(g[1..], c) == 0 by {
        NoEntry(g[1..], c);
      }
    } else {
      assert DistinctCategories(g[1..]) by {
        forall a, b | 0 <= a < b < |g[1..]| ensures g[1..][a].category != g[1..][b].category {
          assert g[a + 1].category != g[b + 1].category;
        }
      }
      assert g[1..][i - 1] == g[i];
      EntryCount(g[1..], i - 1);
    }
  }

  lemma {:induction false} NoEntry(g: seq<CategoryCount>, c: string)
    requires forall i :: 0 <= i < |g| ==> g[i].category != c
    ensures CountOf(g, c) == 0
  {
    if g != [] {
      NoEntry(g[1..], c);
    }
  }

  /** A grouping with distinct categories holds each entry once. */
  lemma {:induction false} DistinctOnce(g: seq<CategoryCount>, x: CategoryCount)
    requires DistinctCategories(g)
    ensures multiset(g)[x] <= 1
  {
    if g != [] {
      assert g == [g[0]] + g[1..];
      assert DistinctCategories(g[1..]) by {
        forall a, b | 0 <= a < b < |g[1..]| ensures g[1..][a].category != g[1..][b].category {
          assert g[a + 1].category != g[b + 1].category;
        }
      }
      DistinctOnce(g[1..], x);
      assert g[0] !in g[1..] by {
        forall k | 0 <= k < |g[1..]| ensures g[1..][k] != g[0] {
          assert g[k + 1].category != g[0].category;
        }
      }
    }
  }

  /** "`a` may come before `b`": larger counts first. */
  function CountDescending(): (CategoryCount, CategoryCount) -> bool {
    (a: CategoryCount, b: CategoryCount) => a.count >= b.count
  }

  /** `byCategory`: the grouping, sorted by count, largest first. */
  function ByCategory(store: seq<Task>): (g: seq<CategoryCount>)
    ensures CategorySummary(store, g)
  {
    assert TotalPreorder(CountDescending());
    var g := InsertionSort(Group(store), CountDescending());
    SortedGroupingIsSummary(store, g);
    g
  }

  /** Any reordering of the grouping, sorted by count, meets the summary's
      promises. */
  lemma SortedGroupingIsSummary(store: seq<Task>, g: seq<CategoryCount>)
    requires multiset(g) == multiset(Group(store))
    requires SortedBy(g, CountDescending())
    ensures CategorySummary(store, g)
  {
    var grouped := Group(store);
    GroupFacts(store);
    SumOfPermutation(grouped, g, (e: CategoryCount) => e.count);
    forall i | 0 <= i < |g| ensures g[i].count == CountCategory(store, g[i].category) > 0 {
      assert g[i] in multiset(grouped);
      var k :| 0 <= k < |grouped| && grouped[k] == g[i];
      EntryCount(grouped, k);
    }
    forall i, j | 0 <= i < j < |g| ensures g[i].category != g[j].category {
      if g[i].category == g[j].category {
        assert g[i] == g[j];
        RepeatedElement(g, i, j);
        DistinctOnce(grouped, g[i]);
      }
    }
    forall i, j | 0 <= i < j < |g| ensures g[i].count >= g[j].count {
      assert CountDescending()(g[i], g[j]);
    }
    forall k | 0 <= k < |store| ensures store[k].category in CategoriesOf(g) {
      assert store[k].category in TaskCategories(store);
      var i :| 0 <= i < |grouped| && grouped[i].category == store[k].category;
      assert grouped[i] in multiset(g);
    }
  }

  /** The statistics of the collection `store` at time `now`. */
  function ComputeStats(store: seq<Task>, now: Timestamp): (s: Stats)
    ensures s.total == |store| == s.completed + s.pending
    ensures s.pending == Count(store, (t: Task) => !t.completed)
    ensures s.completed == Count(store, (t: Task) => t.completed)
    ensures s.high == CountPendingWith(store, HIGH)
    ensures s.medium == CountPendingWith(store, MEDIUM)
    ensures s.low == CountPendingWith(store, LOW)
    ensures s.overdue == Count(store, (t: Task) => OverdueAt(t, now))
    ensures s.overdue <= s.pending
    ensures (forall i :: 0 <= i < |store| ==> ValidTask(store[i])) ==> s.high + s.medium + s.low == s.pending
    ensures CategorySummary(store, s.byCategory)
  {
    var isCompleted := (t: Task) => t.completed;
    var isPending := (t: Task) => !t.completed;
    var total := |store|;
    var completed := Count(store, isCompleted);
    CountComplement(store, isCompleted, isPending);
    var overdue := Count(store, (t: Task) => OverdueAt(t, now));
    CountMonotonic(store, (t: Task) => OverdueAt(t, now), isPending);
    var high := CountPendingWith(store, HIGH);
    var medium := CountPendingWith(store, MEDIUM);
    var low := CountPendingWith(store, LOW);
    assert (forall i :: 0 <= i < |store| ==> ValidTask(store[i])) ==>
           high + medium + low == total - completed by {
      if forall i :: 0 <= i < |store| ==> ValidTask(store[i]) {
        PriorityCountsAddUp(store);
      }
    }
    Stats(total, completed, total - completed, high, medium, low, ByCategory(store), overdue)
  }

  /** With every priority in the enumeration, the three per-priority counts
      of incomplete tasks together count every incomplete task. */
  lemma {:induction false} PriorityCountsAddUp(store: seq<Task>)
    requires forall i :: 0 <= i < |store| ==> ValidTask(store[i])
    ensures CountPendingWith(store, HIGH) + CountPendingWith(store, MEDIUM) + CountPendingWith(store, LOW)
            == Count(store, (t: Task) => !t.completed)
  {
    if store != [] {
      PriorityCountsAddUp(store[1..]);
    }
  }
}
