/** The list route: how the query-string parameters become a store query
    and a sort specification, what the query selects, and the order of
    the result. */
module TaskQuery {
  import opened Wrappers
  import opened Sequences
  import opened TaskSchema

  /** One `key=value` pair of a query string. */
  type Param = (string, string)

  /** The parameters the route reads from `req.query`; `None` is an
      absent parameter. */
  datatype ListParams = ListParams(
    completed: Option<string>,
    priority: Option<string>,
    category: Option<string>,
    search: Option<string>,
    sortBy: Option<string>,
    sortOrder: Option<string>)

  const NoParams: ListParams := ListParams(None, None, None, None, None, None)

  /** The value of the first pair named `key`. */
  function Lookup(params: seq<Param>, key: string): Option<string> {
    if params == [] then None
    else if params[0].0 == key then Some(params[0].1)
    else Lookup(params[1..], key)
  }

  /** A key no pair carries has no value. */
  lemma {:induction false} LookupAbsent(params: seq<Param>, key: string)
    requires forall i :: 0 <= i < |params| ==> params[i].0 != key
    ensures Lookup(params, key) == None
  {
    if params != [] {
      assert forall i :: 0 <= i < |params[1..]| ==> params[1..][i] == params[i + 1];
      LookupAbsent(params[1..], key);
    }
  }

  /** `req.query` as the framework parses it from the pairs of a query
      string, for the keys the route reads. */
  function ListParamsOf(params: seq<Param>): ListParams {
    ListParams(Lookup(params, "completed"), Lookup(params, "priority"),
               Lookup(params, "category"), Lookup(params, "search"),
               Lookup(params, "sortBy"), Lookup(params, "sortOrder"))
  }

  /** The store query: one optional constraint per filterable key. */
  datatype Query = Query(
    completed: Option<bool>,
    priority: Option<string>,
    category: Option<string>,
    search: Option<string>)

  /** A sort specification `{ [field]: direction }`, direction 1 or -1. */
  datatype SortSpec = SortSpec(field: string, direction: int)

  /** A string parameter that is present and not empty (truthy). */
  predicate Supplied(p: Option<string>) {
    p.Some? && p.value != ""
  }

  /** Builds the query and the sort specification by conditional
      assignment into empty objects. */
  method BuildQuery(params: ListParams) returns (query: Query, sort: SortSpec)
    ensures query.completed.Some? <==> params.completed.Some?
    ensures query.completed.Some? ==> (query.completed.value <==> params.completed.value == "true")
    ensures query.priority.Some? <==> Supplied(params.priority)
    ensures query.priority.Some? ==> query.priority == params.priority
    ensures query.category.Some? <==> Supplied(params.category)
    ensures query.category.Some? ==> query.category == params.category
    ensures query.search.Some? <==> Supplied(params.search)
    ensures query.search.Some? ==> query.search == params.search
    ensures sort.field == (if params.sortBy.Some? then params.sortBy.value else "createdAt")
    ensures sort.direction == (if params.sortOrder == Some("asc") then 1 else -1)
    ensures params == NoParams ==> query == Query(None, None, None, None)
  {
    var sortBy := if params.sortBy.Some? then params.sortBy.value else "createdAt";
    var sortOrder := if params.sortOrder.Some? then params.sortOrder.value else "desc";
    query := Query(None, None, None, None);
    if params.completed.Some? {
      query := query.(completed := Some(params.completed.value == "true"));
    }
    if Supplied(params.priority) {
      query := query.(priority := params.priority);
    }
    if Supplied(params.category) {
      query := query.(category := params.category);
    }
    if Supplied(params.search) {
      query := query.(search := params.search);
    }
    sort := SortSpec(sortBy, if sortOrder == "asc" then 1 else -1);
  }

  /** ASCII upper-case letters to lower case; other characters unchanged. */
  function LowerChar(c: char): (r: char)
    ensures 'A' <= c <= 'Z' ==> 'a' <= r <= 'z' && r as int - c as int == 32
    ensures !('A' <= c <= 'Z') ==> r == c
  {
    if 'A' <= c <= 'Z' then (c as int + 32) as char else c
  }

  function Lower(s: string): (r: string)
    ensures |r| == |s| && forall i :: 0 <= i < |s| ==> r[i] == LowerChar(s[i])
  {
    seq(|s|, i requires 0 <= i < |s| => LowerChar(s[i]))
  }

  /** `p` occurs in `s` at some position. */
  predicate IsInfix(p: string, s: string) {
    p <= s || (s != [] && IsInfix(p, s[1..]))
  }

  /** `p` occurs in `s` starting at offset `k`. */
  predicate OccursAt(p: string, s: string, k: int) {
    0 <= k <= |s| - |p| && s[k..k + |p|] == p
  }

  /** An infix is an occurrence at some offset of `s`. */
  lemma {:induction false} IsInfixAt(p: string, s: string)
    ensures IsInfix(p, s) <==> exists k :: OccursAt(p, s, k)
  {
    if s == [] {
      if p == [] {
        assert OccursAt(p, s, 0);
      }
    } else {
      IsInfixAt(p, s[1..]);
      if p <= s {
        assert OccursAt(p, s, 0);
      } else if IsInfix(p, s[1..]) {
        var k :| OccursAt(p, s[1..], k);
        assert s[k + 1..k + 1 + |p|] == s[1..][k..k + |p|];
        assert OccursAt(p, s, k + 1);
      }
      if exists k :: OccursAt(p, s, k) {
        var k :| OccursAt(p, s, k);
        if k > 0 {
          assert s[1..][k - 1..k - 1 + |p|] == s[k..k + |p|];
          assert OccursAt(p, s[1..], k - 1);
        } else {
          assert p <= s;
        }
      }
    }
  }

  /** The case-insensitive `$regex` test, for a pattern without regular
      expression metacharacters: the pattern occurs in the text once both
      are lower-cased. */
  predicate ContainsIgnoreCase(text: string, pattern: string) {
    IsInfix(Lower(pattern), Lower(text))
  }

  /** What the query selects. */
  predicate Matches(q: Query, t: Task) {
    && (q.completed.Some? ==> t.completed == q.completed.value)
    && (q.priority.Some? ==> t.priority == q.priority.value)
    && (q.category.Some? ==> t.category == q.category.value)
    && (q.search.Some? ==> ContainsIgnoreCase(t.task, q.search.value))
  }

  /** What the request's parameters ask for: `completed` present selects
      tasks whose status is whether it reads "true"; the other filters
      apply only when non-empty. */
  predicate Selects(params: ListParams, t: Task) {
    && (params.completed.Some? ==> t.completed == (params.completed.value == "true"))
    && (Supplied(params.priority) ==> t.priority == params.priority.value)
    && (Supplied(params.category) ==> t.category == params.category.value)
    && (Supplied(params.search) ==> ContainsIgnoreCase(t.task, params.search.value))
  }

  /** The sort the parameters ask for: by `createdAt` descending unless
      told otherwise, ascending only for "asc". */
  function SortOf(params: ListParams): SortSpec {
    SortSpec(params.sortBy.GetOr("createdAt"), if params.sortOrder == Some("asc") then 1 else -1)
  }

  /** A sort key: the value of one field, or null when the record has no
      such field or it is null. Keys of different kinds compare by kind,
      null first. */
  datatype SortKey = NullKey | StrKey(s: string) | BoolKey(b: bool) | DateKey(t: Timestamp)

  function KeyOf(t: Task, field: string): SortKey {
    if field == "_id" then StrKey(t.id)
    else if field == "task" then StrKey(t.task)
    else if field == "completed" then BoolKey(t.completed)
    else if field == "priority" then StrKey(t.priority)
    else if field == "category" then StrKey(t.category)
    else if field == "createdAt" then DateKey(t.createdAt)
    else if field == "dueDate" then (if t.dueDate.Some? then DateKey(t.dueDate.value) else NullKey)
    else if field == "completedAt" then (if t.completedAt.Some? then DateKey(t.completedAt.value) else NullKey)
    else NullKey
  }

  function KindRank(k: SortKey): nat {
    match k
    case NullKey => 0
    case StrKey(_) => 1
    case BoolKey(_) => 2
    case DateKey(_) => 3
  }

  /** Lexicographic order of strings by character code. */
  predicate StrLe(a: string, b: string) {
    a == [] || (b != [] && (a[0] < b[0] || (a[0] == b[0] && StrLe(a[1..], b[1..]))))
  }

  lemma {:induction false} StrLeTotal(a: string, b: string)
    ensures StrLe(a, b) || StrLe(b, a)
  {
    if a != [] && b != [] && a[0] == b[0] {
      StrLeTotal(a[1..], b[1..]);
    }
  }

  lemma {:induction false} StrLeTransitive(a: string, b: string, c: string)
    requires StrLe(a, b) && StrLe(b, c)
    ensures StrLe(a, c)
  {
    if a != [] && a[0] == b[0] && b[0] == c[0] {
      StrLeTransitive(a[1..], b[1..], c[1..]);
    }
  }

  predicate KeyLe(a: SortKey, b: SortKey) {
    if KindRank(a) != KindRank(b) then KindRank(a) < KindRank(b)
    else match (a, b)
      case (StrKey(x), StrKey(y)) => StrLe(x, y)
      case (BoolKey(x), BoolKey(y)) => !x || y
      case (DateKey(x), DateKey(y)) => x <= y
      case _ => true
  }

  /** "`a` may come before `b`" under a sort specification. */
  function TaskOrder(sort: SortSpec): (Task, Task) -> bool {
    (a: Task, b: Task) =>
      if sort.direction == 1 then KeyLe(KeyOf(a, sort.field), KeyOf(b, sort.field))
      else KeyLe(KeyOf(b, sort.field), KeyOf(a, sort.field))
  }

  lemma KeyLeTotalPreorder(a: SortKey, b: SortKey, c: SortKey)
    ensures KeyLe(a, b) || KeyLe(b, a)
    ensures KeyLe(a, b) && KeyLe(b, c) ==> KeyLe(a, c)
  {
    if a.StrKey? && b.StrKey? {
      StrLeTotal(a.s, b.s);
      if c.StrKey? && KeyLe(a, b) && KeyLe(b, c) {
        StrLeTransitive(a.s, b.s, c.s);
      }
    }
  }

  /** Every sort specification orders all tasks totally (ties allowed). */
  lemma TaskOrderIsTotalPreorder(sort: SortSpec)
    ensures TotalPreorder(TaskOrder(sort))
  {
    var le := TaskOrder(sort);
    var f := sort.field;
    forall a: Task, b: Task ensures le(a, b) || le(b, a) {
      KeyLeTotalPreorder(KeyOf(a, f), KeyOf(b, f), KeyOf(b, f));
    }
    forall a: Task, b: Task, c: Task | le(a, b) && le(b, c) ensures le(a, c) {
      KeyLeTotalPreorder(KeyOf(a, f), KeyOf(b, f), KeyOf(c, f));
      KeyLeTotalPreorder(KeyOf(c, f), KeyOf(b, f), KeyOf(a, f));
    }
  }

  /** A sort field the store accepts: a non-empty name that does not start
      with `$`, except the natural-order key `$natural`. */
  predicate SortFieldAccepted(field: string) {
    field != [] && (field[0] != '$' || field == "$natural")
  }

  /** `Task.find(query).sort(sort)` over the collection `store`: `None` is
      the 500 answer to a sort field the store rejects; otherwise exactly
      the tasks the parameters select, each as often as stored, in the
      requested order. */
  method ListTasks(store: seq<Task>, params: ListParams) returns (r: Option<seq<Task>>)
    ensures r.None? <==> !SortFieldAccepted(SortOf(params).field)
    ensures r.Some? ==> forall i :: 0 <= i < |r.value| ==> Selects(params, r.value[i])
    ensures r.Some? ==> multiset(r.value) == multiset(Filter(store, t => Selects(params, t)))
    ensures r.Some? ==> SortedBy(r.value, TaskOrder(SortOf(params)))
    ensures params == NoParams ==> r.Some? && multiset(r.value) == multiset(store)
  {
    var query, sort := BuildQuery(params);
    if !SortFieldAccepted(sort.field) {
      return None;
    }
    var found := Filter(store, t => Matches(query, t));
    assert found == Filter(store, t => Selects(params, t)) by {
      FilterAgree(store, t => Matches(query, t), t => Selects(params, t));
    }
    TaskOrderIsTotalPreorder(sort);
    var tasks := InsertionSort(found, TaskOrder(sort));
    forall i | 0 <= i < |tasks| ensures Selects(params, tasks[i]) {
      assert tasks[i] in multiset(found);
    }
    if params == NoParams {
      FilterAgree(store, t => Selects(params, t), t => true);
      FilterAll(store);
    }
    r := Some(tasks);
  }

  /** Conditions that agree on every element keep the same elements. */
  lemma {:induction false} FilterAgree(s: seq<Task>, p: Task -> bool, q: Task -> bool)
    requires forall t :: p(t) == q(t)
    ensures Filter(s, p) == Filter(s, q)
  {
    if s != [] {
      FilterAgree(s[1..], p, q);
    }
  }

  /** Keeping every element keeps the sequence. */
  lemma {:induction false} FilterAll(s: seq<Task>)
    ensures Filter(s, t => true) == s
  {
    if s != [] {
      FilterAll(s[1..]);
      assert s == [s[0]] + s[1..];
    }
  }

  /** Under the default sort the most recently created task comes first. */
  lemma NewestFirst(tasks: seq<Task>)
    requires SortedBy(tasks, TaskOrder(SortOf(NoParams))) && tasks != []
    ensures forall i :: 0 <= i < |tasks| ==> tasks[i].createdAt <= tasks[0].createdAt
  {
    forall i | 0 < i < |tasks| ensures tasks[i].createdAt <= tasks[0].createdAt {
      assert TaskOrder(SortOf(NoParams))(tasks[0], tasks[i]);
    }
  }
}
