/**
 * The order and the page envelope of the task list route
 * (server/routes/tasks.js, lines 10-19): the caller's tasks sorted by
 * `{ priority: -1, dueDate: 1 }` and cut into pages by the pagination plugin.
 */
module TaskListing {
  import opened TaskSchema

  // ---------------------------------------------------------------------
  // Sort order

  /** Strict lexicographic order on strings, character by character, as the store compares them. */
  predicate StrLt(a: string, b: string)
    decreases |a|
  {
    if a == [] then b != []
    else if b == [] then false
    else if a[0] != b[0] then a[0] < b[0]
    else StrLt(a[1..], b[1..])
  }

  lemma {:induction false} StrLtIrreflexive(a: string)
    ensures !StrLt(a, a)
    decreases |a|
  {
    if a != [] {
      StrLtIrreflexive(a[1..]);
    }
  }

  lemma {:induction false} StrLtTransitive(a: string, b: string, c: string)
    requires StrLt(a, b) && StrLt(b, c)
    ensures StrLt(a, c)
    decreases |a|
  {
    if a != [] && b != [] && c != [] && a[0] == b[0] == c[0] {
      StrLtTransitive(a[1..], b[1..], c[1..]);
    }
  }

  lemma {:induction false} StrLtTotal(a: string, b: string)
    ensures a == b || StrLt(a, b) || StrLt(b, a)
    decreases |a|
  {
    if a != [] && b != [] && a[0] == b[0] {
      StrLtTotal(a[1..], b[1..]);
      if a[1..] == b[1..] {
        assert a == [a[0]] + a[1..] && b == [b[0]] + b[1..];
      }
    }
  }

  /** Ascending order on due dates; a task without a due date sorts before every dated one. */
  predicate DueLt(a: Option<int>, b: Option<int>) {
    match (a, b)
    case (None, Some(_)) => true
    case (Some(x), Some(y)) => x < y
    case _ => false
  }

  /**
   * a is listed strictly before b: its priority string is greater, or the
   * priorities are equal and its due date is earlier.
   */
  predicate Before(a: Task, b: Task) {
    StrLt(b.priority, a.priority) || (a.priority == b.priority && DueLt(a.dueDate, b.dueDate))
  }

  /** a may be listed before b: b is not strictly before a. */
  predicate Precedes(a: Task, b: Task) {
    !Before(b, a)
  }

  lemma BeforeIrreflexive(a: Task)
    ensures !Before(a, a)
  {
    StrLtIrreflexive(a.priority);
  }

  lemma PrecedesTotal(a: Task, b: Task)
    ensures Precedes(a, b) || Precedes(b, a)
  {
    StrLtIrreflexive(a.priority);
    if StrLt(a.priority, b.priority) && StrLt(b.priority, a.priority) {
      StrLtTransitive(a.priority, b.priority, a.priority);
    }
  }

  lemma PrecedesTransitive(a: Task, b: Task, c: Task)
    requires Precedes(a, b) && Precedes(b, c)
    ensures Precedes(a, c)
  {
    var pa, pb, pc := a.priority, b.priority, c.priority;
    // Neither premise lets a later priority string come first, so pc is at most pb, and pb at most pa.
    StrLtTotal(pa, pb);
    StrLtTotal(pb, pc);
    StrLtIrreflexive(pa);
    if StrLt(pc, pb) && StrLt(pb, pa) {
      StrLtTransitive(pc, pb, pa);
    }
    if StrLt(pa, pc) && StrLt(pc, pa) {
      StrLtTransitive(pa, pc, pa);
    }
  }

  /** Every pair of entries is in list order. */
  ghost predicate Sorted(s: seq<Task>) {
    forall i, j :: 0 <= i < j < |s| ==> Precedes(s[i], s[j])
  }

  ghost predicate NoDup(s: seq<Task>) {
    forall i, j :: 0 <= i < j < |s| ==> s[i] != s[j]
  }

  /** In a sorted list, an entry that sorts strictly before another is listed before it. */
  lemma SortedRespectsBefore(s: seq<Task>, i: int, j: int)
    requires Sorted(s) && 0 <= i < |s| && 0 <= j < |s|
    requires Before(s[i], s[j])
    ensures i < j
  {
    if i == j {
      BeforeIrreflexive(s[i]);
    }
  }

  /**
   * The sort key is the raw priority string, so the descending order is
   * "medium", then "low", then "high".
   */
  lemma PriorityStringOrder(a: Task, b: Task)
    ensures a.priority == Medium && b.priority == Low ==> Before(a, b)
    ensures a.priority == Low && b.priority == High ==> Before(a, b)
    ensures a.priority == Medium && b.priority == High ==> Before(a, b)
  {
    assert StrLt(Low, Medium) by { assert Low[0] == 'l' && Medium[0] == 'm'; }
    assert StrLt(High, Low) by { assert High[0] == 'h' && Low[0] == 'l'; }
    assert StrLt(High, Medium) by { assert High[0] == 'h' && Medium[0] == 'm'; }
  }

  /** Consequently a sorted list shows every "high" task after every "medium" and every "low" one. */
  lemma HighListedLast(s: seq<Task>, i: int, j: int)
    requires Sorted(s) && 0 <= i < |s| && 0 <= j < |s|
    requires s[i].priority == High && (s[j].priority == Medium || s[j].priority == Low)
    ensures j < i
  {
    PriorityStringOrder(s[j], s[i]);
    SortedRespectsBefore(s, j, i);
  }

  /** Within one priority, an earlier due date is listed first. */
  lemma EarlierDueListedFirst(s: seq<Task>, i: int, j: int)
    requires Sorted(s) && 0 <= i < |s| && 0 <= j < |s|
    requires s[i].priority == s[j].priority && DueLt(s[i].dueDate, s[j].dueDate)
    ensures i < j
  {
    SortedRespectsBefore(s, i, j);
  }

  /** Inserts x into a list, in front of the first entry it may precede. */
  function Insert(x: Task, s: seq<Task>): (r: seq<Task>)
    ensures |r| == |s| + 1
    ensures forall t :: t in r <==> t == x || t in s
    ensures multiset(r) == multiset(s) + multiset{x}
    decreases |s|
  {
    if s == [] then [x]
    else if Precedes(x, s[0]) then [x] + s
    else
      assert s == [s[0]] + s[1..];
      [s[0]] + Insert(x, s[1..])
  }

  lemma {:induction false} InsertSorted(x: Task, s: seq<Task>)
    requires Sorted(s)
    ensures Sorted(Insert(x, s))
    decreases |s|
  {
    if s == [] {
    } else if Precedes(x, s[0]) {
      var r := [x] + s;
      forall i, j | 0 <= i < j < |r| ensures Precedes(r[i], r[j]) {
        if i == 0 && j > 1 {
          PrecedesTransitive(x, s[0], s[j - 1]);
        }
      }
    } else {
      var tail := Insert(x, s[1..]);
      InsertSorted(x, s[1..]);
      PrecedesTotal(x, s[0]);
      var r := [s[0]] + tail;
      assert r == Insert(x, s);
      forall i, j | 0 <= i < j < |r| ensures Precedes(r[i], r[j]) {
        if i == 0 {
          assert r[j] in tail;
          if r[j] != x {
            var k :| 0 <= k < |s[1..]| && s[1..][k] == r[j];
            assert s[k + 1] == r[j];
          }
        }
      }
    }
  }

  lemma {:induction false} InsertNoDup(x: Task, s: seq<Task>)
    requires NoDup(s) && x !in s
    ensures NoDup(Insert(x, s))
    decreases |s|
  {
    if s != [] && !Precedes(x, s[0]) {
      InsertNoDup(x, s[1..]);
      var r := Insert(x, s);
      assert r == [s[0]] + Insert(x, s[1..]);
      assert s[0] !in s[1..];
    }
  }

  // ---------------------------------------------------------------------
  // The listing of one user's tasks

  /** t is the stored task under its own id and belongs to the caller: the route's `{ user: req.user.id }` filter. */
  ghost predicate OwnedEntry(tasks: map<TaskId, Task>, caller: UserId, t: Task) {
    t.id in tasks && tasks[t.id] == t && t.user == caller
  }

  /** s holds each of the caller's tasks exactly once, nothing else, in list order. */
  ghost predicate IsOrderedListing(s: seq<Task>, tasks: map<TaskId, Task>, caller: UserId) {
    && Sorted(s)
    && NoDup(s)
    && forall t :: t in s <==> OwnedEntry(tasks, caller, t)
  }

  // ---------------------------------------------------------------------
  // Page envelope

  const DefaultPage := 1
  const DefaultLimit := 5

  /** The fields of the plugin's result that the model keeps. */
  datatype Page = Page(
    docs: seq<Task>,
    totalDocs: nat,
    limit: int,
    page: int,
    hasPrevPage: bool,
    hasNextPage: bool)

  function Min(a: int, b: int): int {
    if a <= b then a else b
  }

  /**
   * Cuts page `page` of size `limit` out of a listing. A page below 1 is
   * read as 1; a limit below 1 asks for the count alone.
   */
  function Paginate(s: seq<Task>, page: int, limit: int): (p: Page)
    ensures p.totalDocs == |s| && p.page >= 1
    ensures limit > 0 ==> p.limit == limit && p.page == (if page < 1 then 1 else page)
    ensures limit <= 0 ==> p.docs == [] && !p.hasPrevPage && !p.hasNextPage
    ensures |p.docs| <= p.limit
    ensures forall t :: t in p.docs ==> t in s
    ensures p.hasPrevPage <==> limit > 0 && page > 1
    ensures p.hasNextPage <==> limit > 0 && p.page * limit < |s|
    ensures limit > 0 ==> |p.docs| == (if (p.page - 1) * limit >= |s| then 0 else Min(limit, |s| - (p.page - 1) * limit))
    ensures limit > 0 ==> forall j :: 0 <= j < |p.docs| ==>
      (p.page - 1) * limit + j < |s| && p.docs[j] == s[(p.page - 1) * limit + j]
  {
    if limit <= 0 then Page([], |s|, 0, 1, false, false)
    else
      var pg := if page < 1 then 1 else page;
      var lo := Min((pg - 1) * limit, |s|);
      var hi := Min(lo + limit, |s|);
      Page(s[lo..hi], |s|, limit, pg, pg > 1, pg * limit < |s|)
  }

  /** Entry k of a listing is entry k % limit of page k / limit + 1: the pages cover the listing in order. */
  lemma EveryEntryOnItsPage(s: seq<Task>, limit: int, k: int)
    requires limit > 0 && 0 <= k < |s|
    ensures var p := Paginate(s, k / limit + 1, limit);
      k % limit < |p.docs| && p.docs[k % limit] == s[k]
  {
    var pg := k / limit + 1;
    assert k == (k / limit) * limit + k % limit;
    assert (pg - 1) * limit == (k / limit) * limit;
    assert (pg - 1) * limit <= k;
  }

  /** Two different pages of a duplicate-free listing share no entry. */
  lemma PagesDisjoint(s: seq<Task>, limit: int, p1: int, p2: int)
    requires NoDup(s) && limit > 0 && 1 <= p1 < p2
    ensures var a, b := Paginate(s, p1, limit).docs, Paginate(s, p2, limit).docs;
      forall i, j :: 0 <= i < |a| && 0 <= j < |b| ==> a[i] != b[j]
  {
    var a, b := Paginate(s, p1, limit).docs, Paginate(s, p2, limit).docs;
    forall i, j | 0 <= i < |a| && 0 <= j < |b| ensures a[i] != b[j] {
      SlotsDiffer(s, limit, p1, p2, i, j);
    }
  }

  lemma SlotsDiffer(s: seq<Task>, limit: int, p1: int, p2: int, i: int, j: int)
    requires NoDup(s) && limit > 0 && 1 <= p1 < p2
    requires 0 <= i < |Paginate(s, p1, limit).docs| && 0 <= j < |Paginate(s, p2, limit).docs|
    ensures Paginate(s, p1, limit).docs[i] != Paginate(s, p2, limit).docs[j]
  {
    PageEntry(s, p1, limit, i);
    PageEntry(s, p2, limit, j);
    PageStartsApart(p1, p2, limit);
    DistinctPositions(s, (p1 - 1) * limit + i, (p2 - 1) * limit + j);
  }

  lemma DistinctPositions(s: seq<Task>, x: int, y: int)
    requires NoDup(s) && 0 <= x < y < |s|
    ensures s[x] != s[y]
  {
  }

  /** Slot i of page `page` is entry (page − 1)·limit + i of the listing. */
  lemma PageEntry(s: seq<Task>, page: int, limit: int, i: int)
    requires limit > 0 && page >= 1 && 0 <= i < |Paginate(s, page, limit).docs|
    ensures i < limit && (page - 1) * limit + i < |s|
    ensures Paginate(s, page, limit).docs[i] == s[(page - 1) * limit + i]
  {
  }

  /** An earlier page starts at least a whole page before a later one. */
  lemma PageStartsApart(p1: int, p2: int, limit: int)
    requires limit > 0 && p1 < p2
    ensures (p1 - 1) * limit + limit <= (p2 - 1) * limit
  {
    var d := p2 - p1 - 1;
    assert p2 - 1 == (p1 - 1) + (d + 1);
    MulAdd(p1 - 1, d + 1, limit);
    MulAdd(d, 1, limit);
    MulNonNegative(d, limit);
  }

  lemma MulAdd(x: int, y: int, k: int)
    ensures (x + y) * k == x * k + y * k
  {
  }

  lemma MulNonNegative(x: int, k: int)
    requires x >= 0 && k >= 0
    ensures x * k >= 0
  {
  }

  /** When a page says there is a next page, the next page holds at least one entry. */
  lemma NextPageNonEmpty(s: seq<Task>, page: int, limit: int)
    requires page >= 1 && Paginate(s, page, limit).hasNextPage
    ensures Paginate(s, page + 1, limit).docs != []
  {
    assert (page + 1 - 1) * limit == page * limit;
  }
}
