/** The process tree that copy_process builds and walk_process_tree walks (kernel/fork.c). */
module ProcessTree {

  /** A task_struct, named by the order in which copy_process linked it; 0 is init_task. */
  type Task = nat

  /** Every stateful visitor: its answer may depend on all the tasks it has been shown before. */
  type Visitor = (seq<Task>, Task) -> int

  /**
   * The links kept under tasklist_lock. `threads[l]` is the thread list of the group led by `l`
   * (empty when `l` leads no group), `children[x]` the children list of thread `x`, and `table[x]`
   * the key/value table of `x`.
   */
  datatype Tree = Tree(leaderOf: seq<Task>, parentOf: seq<Task>,
                       threads: seq<seq<Task>>, children: seq<seq<Task>>, table: seq<nat>)
  {
    predicate Shaped() {
      && 0 < |leaderOf| == |parentOf| == |threads| == |children| == |table|
      && forall x: Task | 0 <= x < |leaderOf| :: leaderOf[x] < |leaderOf| && parentOf[x] < |leaderOf|
    }

    predicate Leads(x: Task) {
      x < |leaderOf| && leaderOf[x] == x
    }

    /** A leader is older than its group, and the parent of a group is older than its leader. */
    ghost predicate Ordered() {
      && Shaped()
      && leaderOf[0] == 0 && parentOf[0] == 0
      && (forall x: Task | 0 <= x < |leaderOf| :: leaderOf[x] <= x && Leads(leaderOf[x]))
      && (forall x: Task | 0 < x < |leaderOf| && Leads(x) :: parentOf[x] < x)
    }

    predicate ChildOf(c: Task, x: Task)
      requires Shaped()
    {
      0 < c < |leaderOf| && Leads(c) && parentOf[c] == x
    }

    predicate ThreadOf(x: Task, l: Task)
      requires Shaped()
    {
      x < |leaderOf| && leaderOf[x] == l
    }

    /** A children list holds exactly the group leaders whose real_parent is that thread, each once. */
    ghost predicate ChildrenExact() {
      && Shaped()
      && (forall x: Task {:trigger Distinct(children[x])} | x < |children| :: Distinct(children[x]))
      && (forall x: Task, i: nat {:trigger ChildOf(children[x][i], x)} | x < |children| && i < |children[x]| ::
            ChildOf(children[x][i], x))
      && (forall c: Task, x: Task {:trigger ChildOf(c, x)} | x < |children| && ChildOf(c, x) :: c in children[x])
    }

    /** A thread list holds exactly the tasks of the group, each once. */
    ghost predicate ThreadsExact() {
      && Shaped()
      && (forall l: Task {:trigger Distinct(threads[l])} | l < |threads| :: Distinct(threads[l]))
      && (forall l: Task, i: nat {:trigger ThreadOf(threads[l][i], l)} | l < |threads| && i < |threads[l]| ::
            ThreadOf(threads[l][i], l))
      && (forall x: Task, l: Task {:trigger ThreadOf(x, l)} | ThreadOf(x, l) :: x in threads[l])
    }

    /** Two tasks share a key/value table exactly when they are in the same thread group. */
    ghost predicate TablesFollowGroups() {
      && Shaped()
      && (forall x: Task, y: Task | 0 <= x < |table| && 0 <= y < |table| ::
            table[x] == table[y] <==> leaderOf[x] == leaderOf[y])
    }

    ghost predicate Valid() {
      Ordered() && ChildrenExact() && ThreadsExact() && TablesFollowGroups()
    }

    /** The group leader above a leader: the leader of its real_parent. */
    function Up(l: Task): (u: Task)
      requires Shaped() && l < |leaderOf|
      ensures u < |leaderOf|
    {
      leaderOf[parentOf[l]]
    }
  }

  predicate Distinct(s: seq<Task>) {
    forall i, j | 0 <= i < j < |s| :: s[i] != s[j]
  }

  /** `x` is `r` or lies below it, going up through group leaders. */
  ghost predicate Under(t: Tree, r: Task, x: Task)
    requires t.Ordered()
  {
    x < |t.leaderOf| && t.Leads(x) &&
    (x == r || (0 < x && Under(t, r, t.Up(x))))
  }

  // ------------------------------------------------------------------------------------------
  // Reference: the recursive preorder.

  datatype Outcome = Outcome(seen: seq<Task>, stopped: bool)

  /** Tasks of the group of `l`. */
  ghost predicate InGroup(t: Tree, l: Task, ths: seq<Task>)
    requires t.Shaped()
  {
    forall i | 0 <= i < |ths| :: ths[i] < |t.leaderOf| && t.leaderOf[ths[i]] == l
  }

  /** Group leaders whose real_parent is in the group of `l`; they are younger than `l`. */
  ghost predicate AreKids(t: Tree, l: Task, kids: seq<Task>)
    requires t.Shaped()
  {
    forall i | 0 <= i < |kids| :: l < kids[i] < |t.leaderOf| && t.Leads(kids[i]) && t.Up(kids[i]) == l
  }

  /** The children of a run of threads, one children list after the other. */
  ghost function ChildrenOf(t: Tree, l: Task, ths: seq<Task>): (kids: seq<Task>)
    requires t.Valid() && InGroup(t, l, ths)
    ensures AreKids(t, l, kids)
  {
    if ths == [] then [] else
    ListedAreKids(t, ths[0]);
    t.children[ths[0]] + ChildrenOf(t, l, ths[1..])
  }

  lemma ListedAreKids(t: Tree, x: Task)
    requires t.Valid() && x < |t.leaderOf|
    ensures AreKids(t, t.leaderOf[x], t.children[x])
  {
    forall i: nat | i < |t.children[x]|
      ensures var c := t.children[x][i];
              t.leaderOf[x] < c < |t.leaderOf| && t.Leads(c) && t.Up(c) == t.leaderOf[x]
    {
      assert t.ChildOf(t.children[x][i], x);
    }
  }

  lemma ListedAreInGroup(t: Tree, l: Task)
    requires t.Valid() && l < |t.leaderOf|
    ensures InGroup(t, l, t.threads[l])
  {
    forall i: nat | i < |t.threads[l]|
      ensures t.threads[l][i] < |t.leaderOf| && t.leaderOf[t.threads[l][i]] == l
    {
      assert t.ThreadOf(t.threads[l][i], l);
    }
  }

  /** A leader is on the children list of its parent, which is on the thread list of its group. */
  lemma LinkedBack(t: Tree, c: Task)
    requires t.Valid() && 0 < c < |t.leaderOf| && t.Leads(c)
    ensures t.parentOf[c] in t.threads[t.Up(c)] && c in t.children[t.parentOf[c]]
  {
    assert t.ThreadOf(t.parentOf[c], t.Up(c)) && t.ChildOf(c, t.parentOf[c]);
  }

  ghost function Kids(t: Tree, l: Task): (kids: seq<Task>)
    requires t.Valid() && l < |t.leaderOf|
    ensures AreKids(t, l, kids)
  {
    ListedAreInGroup(t, l);
    ChildrenOf(t, l, t.threads[l])
  }

  /** A positive answer descends, zero skips the subtree, a negative answer stops everything. */
  ghost function VisitAll(t: Tree, l: Task, kids: seq<Task>, seen: seq<Task>, v: Visitor): Outcome
    requires t.Valid() && l < |t.leaderOf| && AreKids(t, l, kids)
    decreases |t.leaderOf| - l, |kids|
  {
    if kids == [] then Outcome(seen, false) else
    var c, now := kids[0], seen + [kids[0]];
    if v(seen, c) < 0 then Outcome(now, true) else
    if v(seen, c) == 0 then VisitAll(t, l, kids[1..], now, v) else
    var below := VisitAll(t, c, Kids(t, c), now, v);
    if below.stopped then below else VisitAll(t, l, kids[1..], below.seen, v)
  }

  ghost function Preorder(t: Tree, root: Task, v: Visitor): Outcome
    requires t.Valid() && root < |t.leaderOf| && t.Leads(root)
  {
    VisitAll(t, root, Kids(t, root), [], v)
  }

  // ------------------------------------------------------------------------------------------
  // What the preorder visits.

  lemma {:induction false} KidsComplete(t: Tree, l: Task, ths: seq<Task>, x: Task, c: Task)
    requires t.Valid() && InGroup(t, l, ths)
    requires x in ths && x < |t.children| && c in t.children[x]
    ensures c in ChildrenOf(t, l, ths)
  {
    if x != ths[0] {
      KidsComplete(t, l, ths[1..], x, c);
    }
  }

  lemma {:induction false} KidsDistinct(t: Tree, l: Task, ths: seq<Task>)
    requires t.Valid() && InGroup(t, l, ths)
    requires Distinct(ths)
    ensures Distinct(ChildrenOf(t, l, ths))
    ensures forall k: Task | k in ChildrenOf(t, l, ths) :: k < |t.leaderOf| && t.parentOf[k] in ths
  {
    if ths != [] {
      KidsDistinct(t, l, ths[1..]);
      var first, rest := t.children[ths[0]], ChildrenOf(t, l, ths[1..]);
      assert Distinct(t.children[ths[0]]);
      assert forall i: nat | i < |first| :: t.ChildOf(t.children[ths[0]][i], ths[0]);
      forall i, j | 0 <= i < j < |first + rest|
        ensures (first + rest)[i] != (first + rest)[j]
      {
        if i < |first| <= j {
          assert first[i] in first && rest[j - |first|] in rest;
        }
      }
    }
  }

  lemma {:induction false} UnderTransitive(t: Tree, a: Task, b: Task, x: Task)
    requires t.Ordered() && Under(t, a, b) && Under(t, b, x)
    ensures Under(t, a, x)
  {
    if x != b {
      UnderTransitive(t, a, b, t.Up(x));
    }
  }

  lemma {:induction false} UnderIsYounger(t: Tree, r: Task, x: Task)
    requires t.Ordered() && Under(t, r, x)
    ensures r <= x && r < |t.leaderOf| && t.Leads(r)
  {
    if x != r {
      UnderIsYounger(t, r, t.Up(x));
    }
  }

  /** Two leaders above the same task are above one another. */
  lemma {:induction false} UnderLinear(t: Tree, a: Task, b: Task, x: Task)
    requires t.Ordered() && Under(t, a, x) && Under(t, b, x)
    ensures Under(t, a, b) || Under(t, b, a)
  {
    if x != a && x != b {
      UnderLinear(t, a, b, t.Up(x));
    }
  }

  lemma SiblingsDisjoint(t: Tree, l: Task, a: Task, b: Task, x: Task)
    requires t.Ordered() && AreKids(t, l, [a, b]) && a != b
    requires Under(t, a, x)
    ensures !Under(t, b, x)
  {
    assert [a, b][0] == a && [a, b][1] == b;
    if Under(t, b, x) {
      UnderLinear(t, a, b, x);
      UnderIsYounger(t, if Under(t, a, b) then a else b, l);
    }
  }

  ghost predicate UnderSome(t: Tree, kids: seq<Task>, x: Task)
    requires t.Ordered()
  {
    exists i :: 0 <= i < |kids| && Under(t, kids[i], x)
  }

  /** What lies below the first of several siblings does not lie below the others. */
  lemma OthersApart(t: Tree, l: Task, kids: seq<Task>, x: Task)
    requires t.Ordered() && AreKids(t, l, kids) && Distinct(kids)
    requires kids != [] && Under(t, kids[0], x)
    ensures !UnderSome(t, kids[1..], x)
  {
    forall i | 0 <= i < |kids[1..]| ensures !Under(t, kids[1..][i], x) {
      SiblingsDisjoint(t, l, kids[0], kids[i + 1], x);
    }
  }

  lemma SplitKids(t: Tree, kids: seq<Task>, x: Task)
    requires t.Ordered() && kids != []
    ensures UnderSome(t, kids, x) <==> Under(t, kids[0], x) || UnderSome(t, kids[1..], x)
  {
    if UnderSome(t, kids[1..], x) {
      var i :| 0 <= i < |kids[1..]| && Under(t, kids[1..][i], x);
      assert Under(t, kids[i + 1], x);
    }
    if UnderSome(t, kids, x) {
      var i :| 0 <= i < |kids| && Under(t, kids[i], x);
      assert i > 0 ==> Under(t, kids[1..][i - 1], x);
    }
  }

  /** Below a kid of `c` is strictly below `c`, and conversely. */
  lemma {:induction false} KidsLieBelow(t: Tree, c: Task, x: Task)
    requires t.Valid() && c < |t.leaderOf| && t.Leads(c)
    ensures UnderSome(t, Kids(t, c), x) <==> Under(t, c, x) && x != c
  {
    if UnderSome(t, Kids(t, c), x) {
      var i :| 0 <= i < |Kids(t, c)| && Under(t, Kids(t, c)[i], x);
      var k := Kids(t, c)[i];
      assert Under(t, c, k);
      UnderTransitive(t, c, k, x);
      UnderIsYounger(t, k, x);
    }
    if Under(t, c, x) && x != c {
      var u := t.Up(x);
      if u == c {
        ListedAreInGroup(t, c);
        LinkedBack(t, x);
        KidsComplete(t, c, t.threads[c], t.parentOf[x], x);
        assert Under(t, x, x);
      } else {
        KidsLieBelow(t, c, u);
        var i :| 0 <= i < |Kids(t, c)| && Under(t, Kids(t, c)[i], u);
        assert Under(t, Kids(t, c)[i], x);
      }
    }
  }

  /** `now` continues `seen` by distinct tasks, all at or below the given kids. */
  ghost predicate Continues(t: Tree, kids: seq<Task>, seen: seq<Task>, now: seq<Task>)
    requires t.Ordered()
  {
    && seen <= now && Distinct(now)
    && forall i | |seen| <= i < |now| :: UnderSome(t, kids, now[i])
  }

  ghost predicate Untouched(t: Tree, kids: seq<Task>, seen: seq<Task>)
    requires t.Ordered()
  {
    Distinct(seen) && forall i | 0 <= i < |seen| :: !UnderSome(t, kids, seen[i])
  }

  lemma {:induction false} VisitsOnce(t: Tree, l: Task, kids: seq<Task>, seen: seq<Task>, v: Visitor)
    requires t.Valid() && l < |t.leaderOf| && AreKids(t, l, kids) && Distinct(kids)
    requires Untouched(t, kids, seen)
    ensures Continues(t, kids, seen, VisitAll(t, l, kids, seen, v).seen)
    decreases |t.leaderOf| - l, |kids|
  {
    if kids != [] {
      var c, rest, now := kids[0], kids[1..], seen + [kids[0]];
      FirstVisit(t, l, kids, seen);
      if v(seen, c) == 0 {
        VisitsOnce(t, l, rest, now, v);
        Chain(t, l, kids, seen, now, VisitAll(t, l, rest, now, v).seen);
      } else if v(seen, c) > 0 {
        ListedAreInGroup(t, c);
        assert Distinct(t.threads[c]);
        KidsDistinct(t, c, t.threads[c]);
        VisitsOnce(t, c, Kids(t, c), now, v);
        var below := VisitAll(t, c, Kids(t, c), now, v);
        BelowFirst(t, l, kids, seen, below.seen);
        if !below.stopped {
          VisitsOnce(t, l, rest, below.seen, v);
          Chain(t, l, kids, seen, below.seen, VisitAll(t, l, rest, below.seen, v).seen);
        }
      }
    }
  }

  lemma FirstVisit(t: Tree, l: Task, kids: seq<Task>, seen: seq<Task>)
    requires t.Valid() && l < |t.leaderOf| && AreKids(t, l, kids) && Distinct(kids)
    requires kids != [] && Untouched(t, kids, seen)
    ensures var now := seen + [kids[0]];
            && Continues(t, kids, seen, now) && Untouched(t, kids[1..], now)
            && Untouched(t, Kids(t, kids[0]), now)
  {
    var c, now := kids[0], seen + [kids[0]];
    assert Under(t, c, c);
    OthersApart(t, l, kids, c);
    forall i | 0 <= i < |now|
      ensures !UnderSome(t, kids[1..], now[i]) && !UnderSome(t, Kids(t, c), now[i])
      ensures i < |seen| ==> now[i] != c
    {
      SplitKids(t, kids, now[i]);
      KidsLieBelow(t, c, now[i]);
    }
    SplitKids(t, kids, c);
  }

  lemma BelowFirst(t: Tree, l: Task, kids: seq<Task>, seen: seq<Task>, after: seq<Task>)
    requires t.Valid() && l < |t.leaderOf| && AreKids(t, l, kids) && Distinct(kids)
    requires kids != [] && Untouched(t, kids, seen)
    requires Continues(t, Kids(t, kids[0]), seen + [kids[0]], after)
    ensures Continues(t, kids, seen, after) && Untouched(t, kids[1..], after)
  {
    var c, now := kids[0], seen + [kids[0]];
    FirstVisit(t, l, kids, seen);
    forall i | 0 <= i < |after|
      ensures !UnderSome(t, kids[1..], after[i])
      ensures |seen| <= i ==> UnderSome(t, kids, after[i])
    {
      if i < |now| {
        assert after[i] == now[i];
      } else {
        KidsLieBelow(t, c, after[i]);
        OthersApart(t, l, kids, after[i]);
        SplitKids(t, kids, after[i]);
      }
    }
  }

  lemma Chain(t: Tree, l: Task, kids: seq<Task>, seen: seq<Task>, mid: seq<Task>, end: seq<Task>)
    requires t.Ordered() && AreKids(t, l, kids) && kids != []
    requires Continues(t, kids, seen, mid) && Continues(t, kids[1..], mid, end)
    ensures Continues(t, kids, seen, end)
  {
    forall i | |seen| <= i < |end| ensures UnderSome(t, kids, end[i]) {
      SplitKids(t, kids, end[i]);
      assert i < |mid| ==> end[i] == mid[i];
    }
  }

  /** A visitor that always descends is shown everything at or below the kids. */
  lemma {:induction false} VisitsEverything(t: Tree, l: Task, kids: seq<Task>, seen: seq<Task>, v: Visitor, x: Task)
    requires t.Valid() && l < |t.leaderOf| && AreKids(t, l, kids)
    requires forall h: seq<Task>, c: Task :: v(h, c) > 0
    ensures var o := VisitAll(t, l, kids, seen, v);
            !o.stopped && (x in seen || UnderSome(t, kids, x) ==> x in o.seen)
    decreases |t.leaderOf| - l, |kids|
  {
    if kids != [] {
      var c, rest, now := kids[0], kids[1..], seen + [kids[0]];
      assert v(seen, c) > 0;
      SplitKids(t, kids, x);
      KidsLieBelow(t, c, x);
      VisitsEverything(t, c, Kids(t, c), now, v, x);
      var below := VisitAll(t, c, Kids(t, c), now, v);
      VisitsEverything(t, l, rest, below.seen, v, x);
    }
  }

  /** The visitor was shown `u` and answered positively at that moment. */
  ghost predicate Descended(seen: seq<Task>, u: Task, v: Visitor) {
    exists i :: 0 <= i < |seen| && seen[i] == u && v(seen[..i], u) > 0
  }

  /** Every leader strictly between `r` and `x` was answered positively. */
  ghost predicate OpenTo(t: Tree, r: Task, x: Task, seen: seq<Task>, v: Visitor)
    requires t.Ordered() && Under(t, r, x) && x != r
  {
    var u := t.Up(x);
    u == r || (Descended(seen, u, v) && OpenTo(t, r, u, seen, v))
  }

  /** What is shown later does not change what was answered before. */
  lemma DescendedStays(seen: seq<Task>, now: seq<Task>, u: Task, v: Visitor)
    requires seen <= now && (u in now ==> u in seen) && Distinct(now)
    ensures Descended(seen, u, v) <==> Descended(now, u, v)
  {
    if Descended(seen, u, v) {
      var i :| 0 <= i < |seen| && seen[i] == u && v(seen[..i], u) > 0;
      assert now[i] == u && now[..i] == seen[..i];
    }
    if Descended(now, u, v) {
      var i :| 0 <= i < |now| && now[i] == u && v(now[..i], u) > 0;
      var k :| 0 <= k < |seen| && seen[k] == u;
      assert now[k] == u;
      assert i == k && now[..i] == seen[..i];
    }
  }

  /** The one answer for a leader that is shown right after `seen`. */
  lemma DescendedAt(seen: seq<Task>, c: Task, now: seq<Task>, v: Visitor)
    requires seen + [c] <= now && Distinct(now)
    ensures Descended(now, c, v) <==> v(seen, c) > 0
  {
    assert now[|seen|] == (seen + [c])[|seen|] == c;
    assert now[..|seen|] == (seen + [c])[..|seen|] == seen;
    if Descended(now, c, v) {
      var i :| 0 <= i < |now| && now[i] == c && v(now[..i], c) > 0;
      assert i == |seen|;
    }
  }

  lemma {:induction false} OpenStays(t: Tree, c: Task, x: Task, seen: seq<Task>, now: seq<Task>, v: Visitor)
    requires t.Ordered() && Under(t, c, x) && x != c && seen <= now && Distinct(now)
    requires forall u: Task | Under(t, c, u) && u in now :: u in seen
    ensures OpenTo(t, c, x, seen, v) <==> OpenTo(t, c, x, now, v)
  {
    var u := t.Up(x);
    if u != c {
      DescendedStays(seen, now, u, v);
      OpenStays(t, c, u, seen, now, v);
    }
  }

  /** The way to below `c` leads through `c`. */
  lemma {:induction false} OpenThrough(t: Tree, l: Task, c: Task, x: Task, seen: seq<Task>, v: Visitor)
    requires t.Ordered() && AreKids(t, l, [c]) && t.Leads(l) && Under(t, c, x) && x != c
    ensures Under(t, l, x) && x != l
    ensures OpenTo(t, l, x, seen, v) <==> Descended(seen, c, v) && OpenTo(t, c, x, seen, v)
  {
    IsKid(t, l, c);
    var u := t.Up(x);
    UnderIsYounger(t, c, u);
    if u != c {
      OpenThrough(t, l, c, u, seen, v);
    }
  }

  lemma IsKid(t: Tree, l: Task, c: Task)
    requires t.Ordered() && AreKids(t, l, [c]) && t.Leads(l)
    ensures l < c < |t.leaderOf| && t.Leads(c) && t.Up(c) == l && Under(t, l, c)
  {
    assert [c][0] == c;
    assert Under(t, l, l);
  }

  lemma BelowKids(t: Tree, l: Task, kids: seq<Task>, x: Task)
    requires t.Ordered() && AreKids(t, l, kids) && t.Leads(l) && UnderSome(t, kids, x)
    ensures Under(t, l, x) && x != l
  {
    var i :| 0 <= i < |kids| && Under(t, kids[i], x);
    IsKid(t, l, kids[i]);
    UnderTransitive(t, l, kids[i], x);
    UnderIsYounger(t, kids[i], x);
  }

  /** What has been shown of a leader's subtree once the walk has left it. */
  ghost predicate ShownExactly(t: Tree, l: Task, x: Task, o: Outcome, v: Visitor)
    requires t.Ordered() && Under(t, l, x) && x != l
  {
    && (x in o.seen ==> OpenTo(t, l, x, o.seen, v))
    && (!o.stopped && OpenTo(t, l, x, o.seen, v) ==> x in o.seen)
  }

  lemma {:induction false} VisitsOpen(t: Tree, l: Task, kids: seq<Task>, seen: seq<Task>, v: Visitor, x: Task)
    requires t.Valid() && l < |t.leaderOf| && t.Leads(l) && AreKids(t, l, kids) && Distinct(kids)
    requires Untouched(t, kids, seen) && UnderSome(t, kids, x)
    ensures Under(t, l, x) && x != l && ShownExactly(t, l, x, VisitAll(t, l, kids, seen, v), v)
    decreases |t.leaderOf| - l, |kids|
  {
    var c, rest, now := kids[0], kids[1..], seen + [kids[0]];
    var o := VisitAll(t, l, kids, seen, v);
    BelowKids(t, l, kids, x);
    SplitKids(t, kids, x);
    FirstVisit(t, l, kids, seen);
    if Under(t, c, x) {
      OthersApart(t, l, kids, x);
      FirstOpen(t, l, kids, seen, v, x);
    } else {
      RestOpen(t, l, kids, seen, v, x);
    }
  }

  /** A leader below a later kid. */
  lemma {:induction false} RestOpen(t: Tree, l: Task, kids: seq<Task>, seen: seq<Task>, v: Visitor, x: Task)
    requires t.Valid() && l < |t.leaderOf| && t.Leads(l) && AreKids(t, l, kids) && Distinct(kids) && kids != []
    requires Untouched(t, kids, seen) && UnderSome(t, kids[1..], x) && !Under(t, kids[0], x) && Under(t, l, x) && x != l
    ensures ShownExactly(t, l, x, VisitAll(t, l, kids, seen, v), v)
    decreases |t.leaderOf| - l, |kids|, 0
  {
    var c, rest, now := kids[0], kids[1..], seen + [kids[0]];
    FirstVisit(t, l, kids, seen);
    if v(seen, c) < 0 {
      NotShown(t, rest, now, x);
    } else if v(seen, c) == 0 {
      VisitsOpen(t, l, rest, now, v, x);
    } else {
      var below := BelowOf(t, l, kids, seen, v);
      if below.stopped {
        NotShown(t, rest, below.seen, x);
      } else {
        VisitsOpen(t, l, rest, below.seen, v, x);
      }
    }
  }

  lemma NotShown(t: Tree, kids: seq<Task>, seen: seq<Task>, x: Task)
    requires t.Ordered() && Untouched(t, kids, seen) && UnderSome(t, kids, x)
    ensures x !in seen
  {
  }

  /** The walk below the first kid: it shows only what lies there. */
  lemma BelowOf(t: Tree, l: Task, kids: seq<Task>, seen: seq<Task>, v: Visitor) returns (below: Outcome)
    requires t.Valid() && l < |t.leaderOf| && AreKids(t, l, kids) && Distinct(kids) && kids != []
    requires Untouched(t, kids, seen) && v(seen, kids[0]) > 0
    ensures below == VisitAll(t, kids[0], Kids(t, kids[0]), seen + [kids[0]], v)
    ensures Continues(t, Kids(t, kids[0]), seen + [kids[0]], below.seen) && Untouched(t, kids[1..], below.seen)
    ensures Distinct(Kids(t, kids[0])) && Untouched(t, Kids(t, kids[0]), seen + [kids[0]])
  {
    var c := kids[0];
    FirstVisit(t, l, kids, seen);
    ListedAreInGroup(t, c);
    assert Distinct(t.threads[c]);
    KidsDistinct(t, c, t.threads[c]);
    VisitsOnce(t, c, Kids(t, c), seen + [c], v);
    below := VisitAll(t, c, Kids(t, c), seen + [c], v);
    BelowFirst(t, l, kids, seen, below.seen);
  }

  /** Later kids show nothing that lies below the first. */
  lemma LaterApart(t: Tree, l: Task, kids: seq<Task>, mid: seq<Task>, end: seq<Task>, u: Task)
    requires t.Ordered() && AreKids(t, l, kids) && Distinct(kids) && kids != []
    requires Continues(t, kids[1..], mid, end) && Under(t, kids[0], u) && u in end
    ensures u in mid
  {
    OthersApart(t, l, kids, u);
    var i :| 0 <= i < |end| && end[i] == u;
    assert i < |mid|;
    assert mid[i] == end[i];
  }

  /** A leader below the first kid, which was answered positively. */
  lemma {:induction false} DownOpen(t: Tree, l: Task, kids: seq<Task>, seen: seq<Task>, v: Visitor, x: Task)
    requires t.Valid() && l < |t.leaderOf| && t.Leads(l) && AreKids(t, l, kids) && Distinct(kids) && kids != []
    requires Untouched(t, kids, seen) && v(seen, kids[0]) > 0 && Under(t, kids[0], x) && x != kids[0]
    ensures ShownExactly(t, kids[0], x, VisitAll(t, l, kids, seen, v), v)
    decreases |t.leaderOf| - l, |kids|, 0
  {
    var c := kids[0];
    var o := VisitAll(t, l, kids, seen, v);
    var below := BelowOf(t, l, kids, seen, v);
    KidsLieBelow(t, c, x);
    VisitsOpen(t, c, Kids(t, c), seen + [c], v, x);
    if !below.stopped {
      VisitsOnce(t, l, kids[1..], below.seen, v);
      forall u: Task | Under(t, c, u) && u in o.seen ensures u in below.seen {
        LaterApart(t, l, kids, below.seen, o.seen, u);
      }
      OpenStays(t, c, x, below.seen, o.seen, v);
      assert x in below.seen ==> x in o.seen;
    }
  }

  /** A leader at or below the first kid. */
  lemma {:induction false} FirstOpen(t: Tree, l: Task, kids: seq<Task>, seen: seq<Task>, v: Visitor, x: Task)
    requires t.Valid() && l < |t.leaderOf| && t.Leads(l) && AreKids(t, l, kids) && Distinct(kids) && kids != []
    requires Untouched(t, kids, seen) && Under(t, kids[0], x) && Under(t, l, x) && x != l
    ensures ShownExactly(t, l, x, VisitAll(t, l, kids, seen, v), v)
    decreases |t.leaderOf| - l, |kids|, 1
  {
    var c, now := kids[0], seen + [kids[0]];
    var o := VisitAll(t, l, kids, seen, v);
    VisitsOnce(t, l, kids, seen, v);
    ShownFirst(t, l, kids, seen, v);
    if x == c {
      assert o.seen[|seen|] == now[|seen|] == c;
    } else {
      DescendedAt(seen, c, o.seen, v);
      OpenThrough(t, l, c, x, o.seen, v);
      if v(seen, c) > 0 {
        DownOpen(t, l, kids, seen, v, x);
      } else {
        NotBelow(t, l, kids, seen, v, x);
      }
    }
  }

  lemma ShownFirst(t: Tree, l: Task, kids: seq<Task>, seen: seq<Task>, v: Visitor)
    requires t.Valid() && l < |t.leaderOf| && AreKids(t, l, kids) && Distinct(kids) && kids != []
    requires Untouched(t, kids, seen)
    ensures seen + [kids[0]] <= VisitAll(t, l, kids, seen, v).seen
  {
    var c, rest, now := kids[0], kids[1..], seen + [kids[0]];
    FirstVisit(t, l, kids, seen);
    if v(seen, c) == 0 {
      VisitsOnce(t, l, rest, now, v);
    } else if v(seen, c) > 0 {
      var below := BelowOf(t, l, kids, seen, v);
      if !below.stopped {
        VisitsOnce(t, l, rest, below.seen, v);
      }
    }
  }

  lemma OnlyBefore(t: Tree, l: Task, kids: seq<Task>, mid: seq<Task>, end: seq<Task>, u: Task)
    requires t.Ordered() && AreKids(t, l, kids) && Distinct(kids) && kids != []
    requires Continues(t, kids[1..], mid, end) && Under(t, kids[0], u)
    ensures u in end ==> u in mid
  {
    if u in end {
      LaterApart(t, l, kids, mid, end, u);
    }
  }

  /** Nothing below a kid that was answered with zero or less is shown. */
  lemma NotBelow(t: Tree, l: Task, kids: seq<Task>, seen: seq<Task>, v: Visitor, x: Task)
    requires t.Valid() && l < |t.leaderOf| && AreKids(t, l, kids) && Distinct(kids) && kids != []
    requires Untouched(t, kids, seen) && v(seen, kids[0]) <= 0 && Under(t, kids[0], x) && x != kids[0]
    ensures x !in VisitAll(t, l, kids, seen, v).seen
  {
    var c, rest, now := kids[0], kids[1..], seen + [kids[0]];
    FirstVisit(t, l, kids, seen);
    KidsLieBelow(t, c, x);
    NotShown(t, Kids(t, c), now, x);
    if v(seen, c) == 0 {
      VisitsOnce(t, l, rest, now, v);
      var end := VisitAll(t, l, rest, now, v).seen;
      OnlyBefore(t, l, kids, now, end, x);
    }
  }

  /** A visitor that never answers negatively is never stopped. */
  lemma {:induction false} NeverStops(t: Tree, l: Task, kids: seq<Task>, seen: seq<Task>, v: Visitor)
    requires t.Valid() && l < |t.leaderOf| && AreKids(t, l, kids)
    requires forall h: seq<Task>, c: Task :: v(h, c) >= 0
    ensures !VisitAll(t, l, kids, seen, v).stopped
    decreases |t.leaderOf| - l, |kids|
  {
    if kids != [] {
      var c, rest, now := kids[0], kids[1..], seen + [kids[0]];
      assert v(seen, c) >= 0;
      if v(seen, c) == 0 {
        NeverStops(t, l, rest, now, v);
      } else {
        NeverStops(t, c, Kids(t, c), now, v);
        NeverStops(t, l, rest, VisitAll(t, c, Kids(t, c), now, v).seen, v);
      }
    }
  }

  /**
   * The recursive preorder shows every visitor each leader at most once, only leaders strictly below the
   * root, and only those to which it answered its way down; unless it is stopped, it is shown all of
   * these, and a visitor that never answers negatively is not stopped.
   */
  lemma PreorderVisits(t: Tree, root: Task, v: Visitor)
    requires t.Valid() && root < |t.leaderOf| && t.Leads(root)
    ensures Distinct(Preorder(t, root, v).seen)
    ensures forall x: Task | x in Preorder(t, root, v).seen :: Under(t, root, x) && x != root
    ensures forall x: Task | Under(t, root, x) && x != root :: ShownExactly(t, root, x, Preorder(t, root, v), v)
    ensures (forall h: seq<Task>, c: Task :: v(h, c) >= 0) ==> !Preorder(t, root, v).stopped
    ensures (forall h: seq<Task>, c: Task :: v(h, c) > 0) ==>
              forall x: Task :: x in Preorder(t, root, v).seen <==> Under(t, root, x) && x != root
  {
    var o := Preorder(t, root, v);
    ListedAreInGroup(t, root);
    assert Distinct(t.threads[root]);
    KidsDistinct(t, root, t.threads[root]);
    VisitsOnce(t, root, Kids(t, root), [], v);
    forall x: Task | x in o.seen ensures Under(t, root, x) && x != root {
      var i :| 0 <= i < |o.seen| && o.seen[i] == x;
      KidsLieBelow(t, root, o.seen[i]);
    }
    forall x: Task | Under(t, root, x) && x != root ensures ShownExactly(t, root, x, o, v) {
      KidsLieBelow(t, root, x);
      VisitsOpen(t, root, Kids(t, root), [], v, x);
    }
    if forall h: seq<Task>, c: Task :: v(h, c) >= 0 {
      NeverStops(t, root, Kids(t, root), [], v);
    }
    if forall h: seq<Task>, c: Task :: v(h, c) > 0 {
      forall x: Task | Under(t, root, x) && x != root ensures x in o.seen {
        KidsLieBelow(t, root, x);
        VisitsEverything(t, root, Kids(t, root), [], v, x);
      }
    }
  }

  // ------------------------------------------------------------------------------------------
  // What is left to do when the walk stands at thread number `ti` of the group of `l`, about to
  // look at child number `ci` of that thread.

  ghost predicate At(t: Tree, l: Task, ti: nat, ci: nat) {
    && t.Shaped()
    && l < |t.leaderOf| && ti <= |t.threads[l]|
    && (ti < |t.threads[l]| ==>
          t.threads[l][ti] < |t.children| && ci <= |t.children[t.threads[l][ti]]|)
  }

  ghost function Rest(t: Tree, l: Task, ti: nat, ci: nat): (kids: seq<Task>)
    requires t.Valid() && At(t, l, ti, ci)
    ensures AreKids(t, l, kids)
  {
    if ti == |t.threads[l]| then [] else
    ListedAreInGroup(t, l);
    ListedAreKids(t, t.threads[l][ti]);
    t.children[t.threads[l][ti]][ci..] + ChildrenOf(t, l, t.threads[l][ti + 1..])
  }

  /** Where a list link out of `x` leads: just behind the position of `x`. */
  function After(s: seq<Task>, x: Task): (i: nat)
    requires x in s
    ensures 0 < i <= |s| && s[i - 1] == x
  {
    if s[0] == x then 1 else 1 + After(s[1..], x)
  }

  lemma AfterIsNext(s: seq<Task>, i: nat)
    requires i < |s| && Distinct(s)
    ensures After(s, s[i]) == i + 1
  {
    assert s[After(s, s[i]) - 1] == s[i];
  }

  /** The position behind leader `l`, one level up. */
  function Return(t: Tree, l: Task): (p: (nat, nat))
    requires t.Shaped() && l < |t.leaderOf|
    requires t.parentOf[l] in t.threads[t.Up(l)] && l in t.children[t.parentOf[l]]
  {
    (After(t.threads[t.Up(l)], t.parentOf[l]) - 1, After(t.children[t.parentOf[l]], l))
  }

  ghost function Resume(t: Tree, root: Task, l: Task, ti: nat, ci: nat, seen: seq<Task>, v: Visitor): Outcome
    requires t.Valid() && At(t, l, ti, ci) && Under(t, root, l)
    decreases l
  {
    var o := VisitAll(t, l, Rest(t, l, ti, ci), seen, v);
    if o.stopped || l == root then o else
    LinkedBack(t, l);
    var (ti', ci') := Return(t, l);
    Resume(t, root, t.Up(l), ti', ci', o.seen, v)
  }

  /** A bound on the number of loop turns below a run of kids. */
  ghost function Work(t: Tree, l: Task, kids: seq<Task>): nat
    requires t.Valid() && l < |t.leaderOf| && AreKids(t, l, kids)
    decreases |t.leaderOf| - l, |kids|
  {
    if kids == [] then 0 else
    2 + |t.threads[kids[0]]| + Work(t, kids[0], Kids(t, kids[0])) + Work(t, l, kids[1..])
  }

  ghost function WorkLeft(t: Tree, root: Task, l: Task, ti: nat, ci: nat): nat
    requires t.Valid() && At(t, l, ti, ci) && Under(t, root, l)
    decreases l
  {
    1 + |t.threads[l]| - ti + Work(t, l, Rest(t, l, ti, ci)) +
    if l == root then 0 else
    LinkedBack(t, l);
    var (ti', ci') := Return(t, l);
    WorkLeft(t, root, t.Up(l), ti', ci')
  }

  lemma FirstPosition(t: Tree, l: Task)
    requires t.Valid() && l < |t.leaderOf| && t.Leads(l)
    ensures At(t, l, 0, 0) && Rest(t, l, 0, 0) == Kids(t, l)
  {
    ListedAreInGroup(t, l);
    var ths := t.threads[l];
    assert t.ThreadOf(l, l);
    assert t.children[ths[0]][0..] == t.children[ths[0]];
  }

  /** No child left at this thread: the next thread, with less work left. */
  lemma NextThread(t: Tree, root: Task, l: Task, ti: nat, ci: nat, seen: seq<Task>, v: Visitor)
    requires t.Valid() && At(t, l, ti, ci) && Under(t, root, l)
    requires ti < |t.threads[l]| && ci == |t.children[t.threads[l][ti]]|
    ensures At(t, l, ti + 1, 0)
    ensures Resume(t, root, l, ti + 1, 0, seen, v) == Resume(t, root, l, ti, ci, seen, v)
    ensures WorkLeft(t, root, l, ti + 1, 0) < WorkLeft(t, root, l, ti, ci)
  {
    ListedAreInGroup(t, l);
    var ths := t.threads[l];
    assert t.children[ths[ti]][ci..] == [];
    if ti + 1 < |ths| {
      assert ths[ti + 1..][0] == ths[ti + 1] && ths[ti + 1..][1..] == ths[ti + 2..];
      assert t.children[ths[ti + 1]][0..] == t.children[ths[ti + 1]];
    }
    assert Rest(t, l, ti, ci) == Rest(t, l, ti + 1, 0);
  }

  lemma NextChild(t: Tree, l: Task, ti: nat, ci: nat)
    requires t.Valid() && At(t, l, ti, ci)
    requires ti < |t.threads[l]| && ci < |t.children[t.threads[l][ti]]|
    ensures At(t, l, ti, ci + 1)
    ensures Rest(t, l, ti, ci) == [t.children[t.threads[l][ti]][ci]] + Rest(t, l, ti, ci + 1)
  {
    var kids := t.children[t.threads[l][ti]];
    assert kids[ci..] == [kids[ci]] + kids[ci + 1..];
  }

  /** From a child the walk comes back to just behind where it went down. */
  lemma ComesBack(t: Tree, root: Task, l: Task, ti: nat, ci: nat)
    requires t.Valid() && At(t, l, ti, ci) && Under(t, root, l)
    requires ti < |t.threads[l]| && ci < |t.children[t.threads[l][ti]]|
    ensures var c := t.children[t.threads[l][ti]][ci];
            && l < c < |t.leaderOf| && t.Leads(c) && t.Up(c) == l && Under(t, root, c) && c != root
            && t.parentOf[c] in t.threads[l] && c in t.children[t.parentOf[c]]
            && Return(t, c) == (ti, ci + 1)
  {
    var x := t.threads[l][ti];
    ListedAreKids(t, x);
    ListedAreInGroup(t, l);
    UnderIsYounger(t, root, l);
    assert t.ChildOf(t.children[x][ci], x);
    assert Distinct(t.threads[l]) && Distinct(t.children[x]);
    AfterIsNext(t.threads[l], ti);
    AfterIsNext(t.children[x], ci);
  }

  /** Skipping a child leaves the rest of the children, with less work. */
  lemma SkipChild(t: Tree, root: Task, l: Task, ti: nat, ci: nat, seen: seq<Task>, v: Visitor)
    requires t.Valid() && At(t, l, ti, ci) && Under(t, root, l)
    requires ti < |t.threads[l]| && ci < |t.children[t.threads[l][ti]]|
    ensures At(t, l, ti, ci + 1)
    ensures var c := t.children[t.threads[l][ti]][ci];
            && (v(seen, c) < 0 ==> Resume(t, root, l, ti, ci, seen, v) == Outcome(seen + [c], true))
            && (v(seen, c) == 0 ==>
                  Resume(t, root, l, ti, ci, seen, v) == Resume(t, root, l, ti, ci + 1, seen + [c], v))
            && WorkLeft(t, root, l, ti, ci + 1) < WorkLeft(t, root, l, ti, ci)
  {
    NextChild(t, l, ti, ci);
    var c, rest := t.children[t.threads[l][ti]][ci], Rest(t, l, ti, ci + 1);
    assert ([c] + rest)[1..] == rest;
  }

  /** Descending into a child puts its subtree in front of the rest. */
  lemma EnterChild(t: Tree, root: Task, l: Task, ti: nat, ci: nat, seen: seq<Task>, v: Visitor)
    requires t.Valid() && At(t, l, ti, ci) && Under(t, root, l)
    requires ti < |t.threads[l]| && ci < |t.children[t.threads[l][ti]]|
    ensures var c := t.children[t.threads[l][ti]][ci];
            && c < |t.leaderOf| && At(t, c, 0, 0) && Under(t, root, c)
            && (v(seen, c) > 0 ==>
                  Resume(t, root, l, ti, ci, seen, v) == Resume(t, root, c, 0, 0, seen + [c], v))
            && WorkLeft(t, root, c, 0, 0) < WorkLeft(t, root, l, ti, ci)
  {
    NextChild(t, l, ti, ci);
    ComesBack(t, root, l, ti, ci);
    var c := t.children[t.threads[l][ti]][ci];
    FirstPosition(t, c);
    VisitDown(t, l, c, Rest(t, l, ti, ci + 1), seen, v);
    ResumeBelow(t, root, l, ti, ci, c, seen + [c], v);
  }

  /** Finishing the subtree of `c` means going on behind it. */
  lemma ResumeBelow(t: Tree, root: Task, l: Task, ti: nat, ci: nat, c: Task, seen: seq<Task>, v: Visitor)
    requires t.Valid() && At(t, l, ti, ci + 1) && Under(t, root, l)
    requires c < |t.leaderOf| && At(t, c, 0, 0) && Rest(t, c, 0, 0) == Kids(t, c)
    requires t.Up(c) == l && Under(t, root, c) && c != root
    requires t.parentOf[c] in t.threads[l] && c in t.children[t.parentOf[c]] && Return(t, c) == (ti, ci + 1)
    ensures var below := VisitAll(t, c, Kids(t, c), seen, v);
            Resume(t, root, c, 0, 0, seen, v) ==
            if below.stopped then below else Resume(t, root, l, ti, ci + 1, below.seen, v)
    ensures WorkLeft(t, root, c, 0, 0) ==
            1 + |t.threads[c]| + Work(t, c, Kids(t, c)) + WorkLeft(t, root, l, ti, ci + 1)
  {
  }

  lemma VisitDown(t: Tree, l: Task, c: Task, rest: seq<Task>, seen: seq<Task>, v: Visitor)
    requires t.Valid() && l < |t.leaderOf| && AreKids(t, l, [c] + rest) && AreKids(t, l, rest)
    requires c < |t.leaderOf|
    ensures v(seen, c) > 0 ==>
              VisitAll(t, l, [c] + rest, seen, v) ==
              var below := VisitAll(t, c, Kids(t, c), seen + [c], v);
              if below.stopped then below else VisitAll(t, l, rest, below.seen, v)
    ensures Work(t, l, [c] + rest) == 2 + |t.threads[c]| + Work(t, c, Kids(t, c)) + Work(t, l, rest)
  {
    assert ([c] + rest)[1..] == rest;
  }

  /** Nothing left below a leader: back up, behind it. */
  lemma Climb(t: Tree, root: Task, l: Task, ci: nat, seen: seq<Task>, v: Visitor)
    requires t.Valid() && l < |t.leaderOf| && Under(t, root, l) && l != root
    ensures t.parentOf[l] in t.threads[t.Up(l)] && l in t.children[t.parentOf[l]]
    ensures var (ti', ci') := Return(t, l);
            && At(t, t.Up(l), ti', ci') && Under(t, root, t.Up(l))
            && Resume(t, root, l, |t.threads[l]|, ci, seen, v) == Resume(t, root, t.Up(l), ti', ci', seen, v)
            && WorkLeft(t, root, t.Up(l), ti', ci') < WorkLeft(t, root, l, |t.threads[l]|, ci)
  {
    LinkedBack(t, l);
    assert Rest(t, l, |t.threads[l]|, ci) == [];
  }

  /**
   * walk_process_tree without its tasklist_lock: a walk with no stack, which finds its way back up
   * through real_parent and group_leader and re-enters both loops behind the child it came from.
   */
  method WalkProcessTree(t: Tree, top: Task, visitor: Visitor) returns (seen: seq<Task>, stopped: bool)
    requires t.Valid() && top < |t.leaderOf|
    ensures Outcome(seen, stopped) == Preorder(t, t.leaderOf[top], visitor)
  {
    var root := t.leaderOf[top];
    var leader: Task, ti: nat, ci: nat := root, 0, 0;
    seen, stopped := [], false;
    FirstPosition(t, root);
    var done := false;
    while !done
      invariant At(t, leader, ti, ci) && Under(t, root, leader)
      invariant Preorder(t, root, visitor) ==
                if done then Outcome(seen, stopped) else Resume(t, root, leader, ti, ci, seen, visitor)
      decreases !done, WorkLeft(t, root, leader, ti, ci)
    {
      leader, ti, ci, seen, done, stopped := WalkTurn(t, root, leader, ti, ci, seen, visitor);
    }
  }

  /** One turn of the two nested loops, or the jump back up into them. */
  method WalkTurn(t: Tree, root: Task, l: Task, i: nat, j: nat, before: seq<Task>, visitor: Visitor)
    returns (leader: Task, ti: nat, ci: nat, seen: seq<Task>, done: bool, stopped: bool)
    requires t.Valid() && At(t, l, i, j) && Under(t, root, l)
    ensures At(t, leader, ti, ci) && Under(t, root, leader)
    ensures Resume(t, root, l, i, j, before, visitor) ==
            if done then Outcome(seen, stopped) else Resume(t, root, leader, ti, ci, seen, visitor)
    ensures !done ==> WorkLeft(t, root, leader, ti, ci) < WorkLeft(t, root, l, i, j)
  {
    leader, ti, ci, seen, done, stopped := l, i, j, before, false, false;
    if ti == |t.threads[leader]| {
      if leader == root {
        done := true;
      } else {
        Climb(t, root, leader, ci, seen, visitor);
        var child := leader;
        var parent := t.parentOf[child];
        leader := t.leaderOf[parent];
        ti, ci := After(t.threads[leader], parent) - 1, After(t.children[parent], child);
      }
    } else if ci == |t.children[t.threads[leader][ti]]| {
      NextThread(t, root, leader, ti, ci, seen, visitor);
      ti, ci := ti + 1, 0;
    } else {
      var child := t.children[t.threads[leader][ti]][ci];
      SkipChild(t, root, leader, ti, ci, seen, visitor);
      EnterChild(t, root, leader, ti, ci, seen, visitor);
      var res := visitor(seen, child);
      seen := seen + [child];
      if res < 0 {
        done, stopped := true, true;
      } else if res > 0 {
        leader, ti, ci := child, 0, 0;
      } else {
        ci := ci + 1;
      }
    }
  }

  // ------------------------------------------------------------------------------------------
  // Building the tree.

  /** A clone call: who calls, CLONE_THREAD, CLONE_PARENT, and where kmalloc would put a new table. */
  datatype Clone = Clone(current: Task, thread: bool, sameParent: bool, kv: nat)

  /** The calls that reach the point of no return: the caller exists and kmalloc's answer is unused. */
  predicate Possible(t: Tree, a: Clone) {
    t.Shaped() && a.current < |t.leaderOf| && a.kv !in t.table
  }

  /** init_task: its own leader, parent and only thread. */
  function InitialTree(): Tree {
    Tree([0], [0], [[0]], [[]], [0])
  }

  /**
   * The links made once copy_process can no longer fail. A thread joins the group, the parent and
   * the table of its creator; a process leads its own group with its own table and goes to the end
   * of the children list of its parent.
   */
  function Link(t: Tree, a: Clone): (r: Tree)
    requires Possible(t, a)
    ensures r.Shaped() && |r.leaderOf| == |t.leaderOf| + 1
  {
    var p, parent := |t.leaderOf|, if a.thread || a.sameParent then t.parentOf[a.current] else a.current;
    if a.thread then
      var l := t.leaderOf[a.current];
      Tree(t.leaderOf + [l], t.parentOf + [parent], t.threads[l := t.threads[l] + [p]] + [[]],
           t.children + [[]], t.table + [t.table[a.current]])
    else
      Tree(t.leaderOf + [p], t.parentOf + [parent], t.threads + [[p]],
           t.children[parent := t.children[parent] + [p]] + [[]], t.table + [a.kv])
  }

  /** The tree that a run of clone calls builds; calls that cannot happen change nothing. */
  function Build(run: seq<Clone>): Tree {
    if run == [] then InitialTree() else
    var t, last := Build(run[..|run| - 1]), run[|run| - 1];
    if Possible(t, last) then Link(t, last) else t
  }

  lemma LinkKeepsOrder(t: Tree, a: Clone)
    requires t.Ordered() && Possible(t, a)
    ensures Link(t, a).Ordered()
  {
    var r, p := Link(t, a), |t.leaderOf|;
    forall x: Task | x < |r.leaderOf| ensures r.leaderOf[x] <= x && r.Leads(r.leaderOf[x]) {
      assert x < p ==> r.leaderOf[x] == t.leaderOf[x] && t.Leads(t.leaderOf[x]);
    }
    forall x: Task | 0 < x < |r.leaderOf| && r.Leads(x) ensures r.parentOf[x] < x {
      assert x < p ==> t.Leads(x) && r.parentOf[x] == t.parentOf[x];
    }
  }

  lemma LinkKeepsChildren(t: Tree, a: Clone)
    requires t.Valid() && Possible(t, a)
    ensures Link(t, a).ChildrenExact()
  {
    var r, p := Link(t, a), |t.leaderOf|;
    forall x: Task | x < |r.children|
      ensures Distinct(r.children[x])
      ensures forall i: nat | i < |r.children[x]| :: r.ChildOf(r.children[x][i], x)
    {
      LinkedChildren(t, a, x);
    }
    forall c: Task, x: Task | x < |r.children| && r.ChildOf(c, x) ensures c in r.children[x] {
      if c < p {
        assert t.ChildOf(c, x);
      }
    }
  }

  lemma LinkedChildren(t: Tree, a: Clone, x: Task)
    requires t.Valid() && Possible(t, a) && x <= |t.children|
    ensures var r := Link(t, a);
            Distinct(r.children[x]) && forall i: nat | i < |r.children[x]| :: r.ChildOf(r.children[x][i], x)
  {
    if x < |t.children| {
      assert Distinct(t.children[x]);
      assert forall i: nat | i < |t.children[x]| :: t.ChildOf(t.children[x][i], x);
    }
  }

  lemma LinkKeepsThreads(t: Tree, a: Clone)
    requires t.Valid() && Possible(t, a)
    ensures Link(t, a).ThreadsExact()
  {
    var r, p := Link(t, a), |t.leaderOf|;
    forall l: Task | l < |r.threads|
      ensures Distinct(r.threads[l])
      ensures forall i: nat | i < |r.threads[l]| :: r.ThreadOf(r.threads[l][i], l)
    {
      if l < p {
        assert Distinct(t.threads[l]);
        assert forall i: nat | i < |t.threads[l]| :: t.ThreadOf(t.threads[l][i], l);
      }
    }
    forall x: Task, l: Task | r.ThreadOf(x, l) ensures x in r.threads[l] {
      if x < p {
        assert t.ThreadOf(x, l);
      }
    }
  }

  /** Every clone call keeps the links exact and the tables group by group. */
  lemma LinkKeepsValid(t: Tree, a: Clone)
    requires t.Valid() && Possible(t, a)
    ensures Link(t, a).Valid()
  {
    LinkKeepsOrder(t, a);
    LinkKeepsChildren(t, a);
    LinkKeepsThreads(t, a);
    var r, p := Link(t, a), |t.leaderOf|;
    forall x: Task, y: Task | x < |r.table| && y < |r.table|
      ensures r.table[x] == r.table[y] <==> r.leaderOf[x] == r.leaderOf[y]
    {
      assert x < p ==> r.table[x] == t.table[x] && t.table[x] in t.table;
      assert y < p ==> r.table[y] == t.table[y] && t.table[y] in t.table;
    }
  }

  lemma {:induction false} BuiltValid(run: seq<Clone>)
    ensures Build(run).Valid()
  {
    if run != [] {
      var t, last := Build(run[..|run| - 1]), run[|run| - 1];
      BuiltValid(run[..|run| - 1]);
      if Possible(t, last) {
        LinkKeepsValid(t, last);
      }
    }
  }

  /** In every tree any run builds, two tasks share a key/value table exactly when they share a leader. */
  lemma SharingIsThreadGroup(run: seq<Clone>, x: Task, y: Task)
    requires x < |Build(run).table| && y < |Build(run).table| == |Build(run).leaderOf|
    ensures Build(run).table[x] == Build(run).table[y] <==> Build(run).leaderOf[x] == Build(run).leaderOf[y]
  {
    BuiltValid(run);
  }

  /** In every tree any run builds, the lists name exactly the tasks the links say, each once. */
  lemma ListsAreExact(run: seq<Clone>, x: Task, c: Task)
    ensures var t := Build(run);
            t.Shaped() && (x < |t.leaderOf| ==>
            && (c in t.children[x] <==> 0 < c < |t.leaderOf| && t.Leads(c) && t.parentOf[c] == x)
            && (c in t.threads[x] <==> c < |t.leaderOf| && t.leaderOf[c] == x)
            && Distinct(t.children[x]) && Distinct(t.threads[x]))
  {
    BuiltValid(run);
    var t := Build(run);
    if x < |t.leaderOf| {
      if c in t.children[x] {
        var i: nat :| i < |t.children[x]| && t.children[x][i] == c;
        assert t.ChildOf(t.children[x][i], x);
      }
      if c in t.threads[x] {
        var i: nat :| i < |t.threads[x]| && t.threads[x][i] == c;
        assert t.ThreadOf(t.threads[x][i], x);
      }
      assert t.ChildOf(c, x) ==> c in t.children[x];
      assert t.ThreadOf(c, x) ==> c in t.threads[x];
    }
  }

  /** The task list under tasklist_lock. */
  class TaskList {
    var tree: Tree

    constructor ()
      ensures tree == InitialTree() && tree.Valid()
    {
      tree := InitialTree();
      new;
      BuiltValid([]);
    }

    /**
     * The part of copy_process that makes a task visible. `unkillable` says whether the caller's
     * group carries SIGNAL_UNKILLABLE, `tableOk` whether both table allocations succeed, and
     * `mayLink` whether the checks under the lock (a live pid namespace, no fatal signal) pass.
     */
    method CopyProcess(a: Clone, unkillable: bool, tableOk: bool, mayLink: bool) returns (p: int)
      requires tree.Valid() && Possible(tree, a)
      modifies this
      ensures tree.Valid()
      ensures p < 0 <==> (a.sameParent && unkillable) || (!a.thread && !tableOk) || !mayLink
      ensures p < 0 ==> tree == old(tree)
      ensures 0 <= p ==> p == |old(tree).leaderOf| && tree == Link(old(tree), a)
    {
      if a.sameParent && unkillable {
        return -22;
      }
      if !a.thread && !tableOk {
        return -12;
      }
      if !mayLink {
        return -4;
      }
      LinkKeepsValid(tree, a);
      p := |tree.leaderOf|;
      var parent := if a.thread || a.sameParent then tree.parentOf[a.current] else a.current;
      if a.thread {
        var l := tree.leaderOf[a.current];
        tree := tree.(threads := tree.threads[l := tree.threads[l] + [p]] + [[]], children := tree.children + [[]],
                      leaderOf := tree.leaderOf + [l], parentOf := tree.parentOf + [parent],
                      table := tree.table + [tree.table[a.current]]);
      } else {
        tree := tree.(children := tree.children[parent := tree.children[parent] + [p]] + [[]],
                      threads := tree.threads + [[p]], leaderOf := tree.leaderOf + [p],
                      parentOf := tree.parentOf + [parent], table := tree.table + [a.kv]);
      }
    }
  }
}
