/** The commit-graph traversals of Commands.java: log, find, abbreviated-id
    resolution and the split-point search used by merge. They read the
    commit store (id to commit) and the append-only list of commit ids. */
module History {
  import opened Wrappers
  import opened Commits

  type Store = map<string, Commit>

  /** The parent ids getsplitpoint collects for a commit (Commands.java:750-755):
      none when the first parent is null, otherwise the first parent followed
      by the second parent when there is one. */
  function Parents(c: Commit): (r: seq<string>)
    ensures r == [] <==> c.parent.None?
    ensures |r| <= 2
  {
    if c.parent.None? then []
    else if c.secondParent.Some? then [c.parent.value, c.secondParent.value]
    else [c.parent.value]
  }

  /** The shape every repository keeps: at least the root commit, every
      listed id is stored, every parent was created earlier, the first commit
      is the only one without a parent. */
  ghost predicate WellFormed(store: Store, commits: seq<string>)
  {
    && |commits| > 0
    && (forall i :: 0 <= i < |commits| ==> commits[i] in store)
    && (forall i :: 0 <= i < |commits| ==>
          forall p :: p in Parents(store[commits[i]]) ==> p in commits[..i])
    && store[commits[0]].parent.None?
    && (forall i :: 0 < i < |commits| ==> store[commits[i]].parent.Some?)
  }

  /** The position of the first occurrence of x in s. */
  function Pos(s: seq<string>, x: string): (k: nat)
    requires x in s
    ensures k < |s| && s[k] == x
    ensures forall j :: 0 <= j < k ==> s[j] != x
  {
    if s[0] == x then 0 else 1 + Pos(s[1..], x)
  }

  /** Every parent of a listed commit is listed, at an earlier position. */
  lemma ParentsBefore(store: Store, commits: seq<string>, c: string)
    requires WellFormed(store, commits) && c in commits
    ensures forall p :: p in Parents(store[c]) ==>
              p in commits && Pos(commits, p) < Pos(commits, c)
  {
    var i := Pos(commits, c);
    forall p | p in Parents(store[c])
      ensures p in commits && Pos(commits, p) < i
    {
      assert p in commits[..i];
      var j :| 0 <= j < i && commits[j] == p;
    }
  }

  /** A listed commit without a parent is the root commit. */
  lemma OnlyRootIsParentless(store: Store, commits: seq<string>, c: string)
    requires WellFormed(store, commits) && c in commits
    requires store[c].parent.None?
    ensures c == commits[0]
  {
    var i := Pos(commits, c);
    assert store[commits[i]].parent.None?;
  }

  /** commit and mergecommit store a new commit under a fresh id and append
      the id; a commit with a first parent whose parents are all listed
      keeps the shape. */
  lemma AppendCommit(store: Store, commits: seq<string>, id: string, c: Commit)
    requires WellFormed(store, commits) && id !in store
    requires c.parent.Some? && forall p :: p in Parents(c) ==> p in commits
    ensures WellFormed(store[id := c], commits + [id])
  {
    var store' := store[id := c];
    var commits' := commits + [id];
    forall i | 0 <= i < |commits'|
      ensures commits'[i] in store'
      ensures forall p :: p in Parents(store'[commits'[i]]) ==> p in commits'[..i]
    {
      if i < |commits| {
        assert commits'[i] == commits[i] && commits[i] != id;
        assert commits'[..i] == commits[..i];
      } else {
        assert commits'[..i] == commits;
      }
    }
    assert commits'[0] == commits[0];
  }

  /** The ids log prints: the first-parent chain from c to the root. */
  function Log(store: Store, commits: seq<string>, c: string): (r: seq<string>)
    requires WellFormed(store, commits) && c in commits
    ensures |r| > 0 && r[0] == c && r[|r| - 1] == commits[0]
    ensures forall x :: x in r ==> x in commits
    decreases Pos(commits, c)
  {
    match store[c].parent
    case None =>
      OnlyRootIsParentless(store, commits, c);
      [c]
    case Some(p) =>
      ParentsBefore(store, commits, c);
      assert p in Parents(store[c]);
      [c] + Log(store, commits, p)
  }

  /** One step of the first-parent chain. */
  lemma LogStep(store: Store, commits: seq<string>, c: string)
    requires WellFormed(store, commits) && c in commits && store[c].parent.Some?
    ensures store[c].parent.value in commits
    ensures Pos(commits, store[c].parent.value) < Pos(commits, c)
    ensures Log(store, commits, c) == [c] + Log(store, commits, store[c].parent.value)
  {
    ParentsBefore(store, commits, c);
    assert store[c].parent.value in Parents(store[c]);
  }

  /** log (Commands.java:296-318): walk the first-parent links from HEAD
      until a commit without a parent, collecting the ids it prints. */
  method LogIds(store: Store, commits: seq<string>, head: string) returns (ids: seq<string>)
    requires WellFormed(store, commits) && head in commits
    ensures ids == Log(store, commits, head)
  {
    ids := [];
    var current: Option<string> := Some(head);
    while current.Some?
      invariant current.Some? ==> current.value in commits
      invariant current.Some? ==> ids + Log(store, commits, current.value) == Log(store, commits, head)
      invariant current.None? ==> ids == Log(store, commits, head)
      decreases if current.Some? then Pos(commits, current.value) + 1 else 0
    {
      var c := current.value;
      ghost var before := ids;
      ids := ids + [c];
      var parent := store[c].parent;
      if parent.Some? {
        LogStep(store, commits, c);
        Associate(before, [c], Log(store, commits, parent.value));
        current := parent;
      } else {
        assert Log(store, commits, c) == [c];
        current := None;
      }
    }
  }

  /** The ids among `ids`, in order, whose commit has the given message. */
  function WithMessage(store: Store, ids: seq<string>, message: string): (r: seq<string>)
    requires forall i :: 0 <= i < |ids| ==> ids[i] in store
    ensures forall x :: x in r <==> x in ids && store[x].message == message
    ensures |r| <= |ids|
  {
    if ids == [] then []
    else
      var last := ids[|ids| - 1];
      WithMessage(store, ids[..|ids| - 1], message)
        + (if store[last].message == message then [last] else [])
  }

  /** find (Commands.java:343-358): the ids, in creation order, of every
      commit whose message equals the query; None stands for
      "Found no commit with that message." */
  method Find(store: Store, commits: seq<string>, message: string) returns (r: Option<seq<string>>)
    requires forall i :: 0 <= i < |commits| ==> commits[i] in store
    ensures r.None? <==> forall i :: 0 <= i < |commits| ==> store[commits[i]].message != message
    ensures r.Some? ==> r.value == WithMessage(store, commits, message)
  {
    var found: seq<string> := [];
    for i := 0 to |commits|
      invariant found == WithMessage(store, commits[..i], message)
    {
      ghost var next := commits[..i + 1];
      assert next[..i] == commits[..i] && next[i] == commits[i];
      if store[commits[i]].message == message {
        found := found + [commits[i]];
      }
    }
    assert commits[..|commits|] == commits;
    if found != [] {
      assert found[0] in found;
    }
    if found == [] {
      forall i | 0 <= i < |commits|
        ensures store[commits[i]].message != message
      {
        assert commits[i] in found <==> commits[i] in commits && store[commits[i]].message == message;
      }
      r := None;
    } else {
      r := Some(found);
    }
  }

  /** All ids in `ids` have the same length, as SHA-1 hex ids do. */
  ghost predicate SameLength(ids: seq<string>)
  {
    forall i, j :: 0 <= i < |ids| && 0 <= j < |ids| ==> |ids[i]| == |ids[j]|
  }

  /** Reference resolution of an abbreviated id: the first id, in creation
      order, that starts with `arg`. */
  function FirstWithPrefix(ids: seq<string>, arg: string): (r: Option<string>)
    ensures r.None? <==> forall i :: 0 <= i < |ids| ==> !(arg <= ids[i])
    ensures r.Some? ==> r.value in ids && arg <= r.value
  {
    if ids == [] then None
    else if arg <= ids[0] then Some(ids[0])
    else FirstWithPrefix(ids[1..], arg)
  }

  /** FirstWithPrefix picks the first matching position. */
  lemma {:induction false} FirstWithPrefixAt(ids: seq<string>, arg: string, k: nat)
    requires k < |ids| && arg <= ids[k]
    requires forall j :: 0 <= j < k ==> !(arg <= ids[j])
    ensures FirstWithPrefix(ids, arg) == Some(ids[k])
  {
    if k > 0 {
      assert !(arg <= ids[0]);
      FirstWithPrefixAt(ids[1..], arg, k - 1);
    }
  }

  /** A full id of a list of equal-length ids resolves to itself. */
  lemma FullIdResolvesToItself(ids: seq<string>, id: string)
    requires SameLength(ids) && id in ids
    ensures FirstWithPrefix(ids, id) == Some(id)
  {
    var k := Pos(ids, id);
    forall j | 0 <= j < k
      ensures !(id <= ids[j])
    {
      assert |ids[j]| == |ids[k]| && ids[j] != id;
    }
    FirstWithPrefixAt(ids, id, k);
  }

  /** The id resolution loop of checkout (Commands.java:439-454), as written:
      `check` counts exact matches and prefix matches, and the argument is
      replaced by every id that starts with it, so later ids are compared
      against the id found so far. Nothing matches exactly when check == 0.
      With equal-length ids the result is the first id with the prefix;
      ambiguity is never reported. */
  method ResolveId(commits: seq<string>, arg: string) returns (id: string, check: nat)
    ensures check == 0 <==> forall i :: 0 <= i < |commits| ==> !(arg <= commits[i])
    ensures check == 0 ==> id == arg
    ensures check > 0 ==> id in commits && arg <= id
    ensures SameLength(commits) && check > 0 ==> FirstWithPrefix(commits, arg) == Some(id)
  {
    id, check := arg, 0;
    ghost var first := 0;
    for i := 0 to |commits|
      invariant check == 0 <==> forall j :: 0 <= j < i ==> !(arg <= commits[j])
      invariant check == 0 ==> id == arg
      invariant check > 0 ==> id in commits && arg <= id
      invariant check > 0 ==> 0 <= first < i && arg <= commits[first]
      invariant check > 0 ==> forall j :: 0 <= j < first ==> !(arg <= commits[j])
      invariant check > 0 && SameLength(commits) ==> id == commits[first]
    {
      var candidate := commits[i];
      ghost var matched := check > 0;
      if candidate == id {
        check := check + 1;
      }
      if id <= candidate {
        if !matched {
          first := i;
        } else if SameLength(commits) {
          assert |candidate| == |commits[first]|;
        }
        check := check + 1;
        id := candidate;
      }
    }
    if check > 0 && SameLength(commits) {
      FirstWithPrefixAt(commits, arg, first);
    }
  }

  /** The commits getsplitpoint enqueues after c, in queue order. The loop
      does not expand the commit it dequeues: it expands the variable that
      last received an enqueued parent (Commands.java:750-762, 775-787). So
      after c's own parents it expands c's last parent (the second parent of
      a merge commit, else the first), and so on down to the root. */
  function Order(store: Store, commits: seq<string>, c: string): (r: seq<string>)
    requires WellFormed(store, commits) && c in commits
    ensures forall x :: x in r ==> x in commits
    ensures r == [] <==> c == commits[0]
    ensures r != [] ==> r[|r| - 1] == commits[0]
    decreases Pos(commits, c)
  {
    var ps := Parents(store[c]);
    if ps == [] then
      OnlyRootIsParentless(store, commits, c);
      []
    else
      ParentsBefore(store, commits, c);
      assert ps[|ps| - 1] in ps;
      ps + Order(store, commits, ps[|ps| - 1])
  }

  /** Every commit one side of getsplitpoint dequeues, starting from c. */
  function Visit(store: Store, commits: seq<string>, c: string): (r: seq<string>)
    requires WellFormed(store, commits) && c in commits
    ensures |r| > 0 && r[0] == c && r[|r| - 1] == commits[0]
    ensures forall x :: x in r ==> x in commits
  {
    [c] + Order(store, commits, c)
  }

  function SeqSet(xs: seq<string>): set<string>
  {
    set x | x in xs
  }

  /** The first element of xs that belongs to s. */
  function FirstIn(xs: seq<string>, s: set<string>): (r: Option<string>)
    ensures r.None? <==> forall i :: 0 <= i < |xs| ==> xs[i] !in s
    ensures r.Some? ==> r.value in xs && r.value in s
  {
    if xs == [] then None
    else if xs[0] in s then Some(xs[0])
    else
      assert forall i :: 1 <= i < |xs| ==> xs[i] == xs[1..][i - 1];
      FirstIn(xs[1..], s)
  }

  /** Skipping a prefix that avoids s, the first element in s is found. */
  lemma {:induction false} FirstInAfter(skipped: seq<string>, x: string, rest: seq<string>, s: set<string>)
    requires forall i :: 0 <= i < |skipped| ==> skipped[i] !in s
    requires x in s
    ensures FirstIn(skipped + [x] + rest, s) == Some(x)
  {
    if skipped != [] {
      assert (skipped + [x] + rest)[1..] == skipped[1..] + [x] + rest;
      FirstInAfter(skipped[1..], x, rest, s);
    }
  }

  /** Both sides end at the root commit, so the head side's last commit is
      one the given side marks. */
  lemma RootIsMarked(store: Store, commits: seq<string>, head: string, given: string)
    requires WellFormed(store, commits) && head in commits && given in commits
    ensures var h := Visit(store, commits, head);
      h[|h| - 1] in SeqSet(Visit(store, commits, given))
  {
    var g := Visit(store, commits, given);
    assert g[|g| - 1] in g;
  }

  /** A dequeued commit the given side did not mark is skipped; the marked
      root still lies ahead of it. */
  lemma SkipUnmarked(whole: seq<string>, seen: seq<string>, x: string, rest: seq<string>, marked: set<string>)
    requires whole == seen + [x] + rest
    requires forall i :: 0 <= i < |seen| ==> seen[i] !in marked
    requires x !in marked && whole[|whole| - 1] in marked
    ensures forall i :: 0 <= i < |seen + [x]| ==> (seen + [x])[i] !in marked
    ensures |seen + [x]| < |whole|
  {
  }

  /** What getsplitpoint's second loop keeps: the head side's dequeue order
      `whole` is what was already dequeued (`seen`, none of it marked), then
      the queue, then the chain still to be expanded from `tip`; the queue is
      never empty, because the root that ends `whole` is marked. */
  ghost predicate HeadSide(store: Store, commits: seq<string>, whole: seq<string>, seen: seq<string>,
                           bfs: seq<string>, tip: string, marked: set<string>)
  {
    && WellFormed(store, commits) && tip in commits && bfs != []
    && whole == seen + bfs + Order(store, commits, tip)
    && (forall i :: 0 <= i < |seen| ==> seen[i] !in marked)
    && |seen| < |whole| && whole[|whole| - 1] in marked
  }

  /** One iteration of getsplitpoint's second loop: a marked commit at the
      front of the queue is the first marked commit of the head side; an
      unmarked one is skipped and its tip's parents are enqueued. */
  lemma HeadSideStep(store: Store, commits: seq<string>, whole: seq<string>, seen: seq<string>,
                     bfs: seq<string>, tip: string, marked: set<string>)
    requires HeadSide(store, commits, whole, seen, bfs, tip, marked)
    ensures bfs[0] in marked ==> FirstIn(whole, marked) == Some(bfs[0])
    ensures bfs[0] !in marked ==>
      var ps := Parents(store[tip]);
      HeadSide(store, commits, whole, seen + [bfs[0]], bfs[1..] + ps,
               if ps == [] then tip else ps[|ps| - 1], marked)
  {
    QueueStep(store, commits, whole, seen, bfs, tip);
    if bfs[0] in marked {
      FirstInAfter(seen, bfs[0], bfs[1..] + Order(store, commits, tip), marked);
    } else {
      SkipUnmarked(whole, seen, bfs[0], bfs[1..] + Order(store, commits, tip), marked);
    }
  }

  /** The split point as getsplitpoint computes it: the first commit of the
      head side's dequeue order that the given side marked. */
  function SplitPointOf(store: Store, commits: seq<string>, head: string, given: string): Option<string>
    requires WellFormed(store, commits) && head in commits && given in commits
  {
    FirstIn(Visit(store, commits, head), SeqSet(Visit(store, commits, given)))
  }

  /** One expansion step of getsplitpoint's chain. */
  lemma OrderStep(store: Store, commits: seq<string>, c: string)
    requires WellFormed(store, commits) && c in commits
    requires Parents(store[c]) != []
    ensures var ps := Parents(store[c]);
      ps[|ps| - 1] in commits
      && Pos(commits, ps[|ps| - 1]) < Pos(commits, c)
      && Order(store, commits, c) == ps + Order(store, commits, ps[|ps| - 1])
  {
    var ps := Parents(store[c]);
    ParentsBefore(store, commits, c);
    assert ps[|ps| - 1] in ps;
  }

  /** One iteration of either loop of getsplitpoint: dequeue the front and
      enqueue the parents of the chain variable, which then moves to the
      last of them. The whole dequeue order is unchanged by the step. */
  lemma QueueStep(store: Store, commits: seq<string>, whole: seq<string>,
                  done: seq<string>, queue: seq<string>, b: string)
    requires WellFormed(store, commits) && b in commits && queue != []
    requires whole == done + queue + Order(store, commits, b)
    ensures var ps := Parents(store[b]);
      && (ps != [] ==> ps[|ps| - 1] in commits)
      && whole == done + [queue[0]] + (queue[1..] + Order(store, commits, b))
      && whole == (done + [queue[0]]) + (queue[1..] + ps)
                  + Order(store, commits, if ps == [] then b else ps[|ps| - 1])
  {
    var ps := Parents(store[b]);
    var rest := Order(store, commits, b);
    Regroup(done, queue, rest);
    if ps != [] {
      OrderStep(store, commits, b);
      Reassociate(done + [queue[0]], queue[1..], ps, Order(store, commits, ps[|ps| - 1]));
    } else {
      assert rest == [];
      assert queue[1..] + ps == queue[1..];
    }
  }

  /** Moving the front of a queue from the queue to the dequeued prefix. */
  lemma Regroup(done: seq<string>, queue: seq<string>, rest: seq<string>)
    requires queue != []
    ensures done + queue + rest == done + [queue[0]] + (queue[1..] + rest)
  {
    assert queue == [queue[0]] + queue[1..];
  }

  /** Concatenation is associative. */
  lemma Associate(a: seq<string>, b: seq<string>, c: seq<string>)
    ensures a + b + c == a + (b + c)
  {
  }

  /** Concatenation regrouped. */
  lemma Reassociate(a: seq<string>, b: seq<string>, c: seq<string>, d: seq<string>)
    ensures a + (b + (c + d)) == a + (b + c) + d
  {
  }

  /** The first loop of getsplitpoint (Commands.java:742-764): mark every
      id the given side dequeues. */
  method MarkGivenSide(store: Store, commits: seq<string>, given: string)
    returns (marked: set<string>)
    requires WellFormed(store, commits) && given in commits
    ensures marked == SeqSet(Visit(store, commits, given))
  {
    ghost var whole := Visit(store, commits, given);
    var queue := [given];
    marked := {};
    var branch := given;
    ghost var done: seq<string> := [];
    while queue != []
      invariant branch in commits
      invariant whole == done + queue + Order(store, commits, branch)
      invariant forall x :: x in marked <==> x in done
      invariant queue == [] ==> Parents(store[branch]) == []
      decreases |whole| - |done|
    {
      QueueStep(store, commits, whole, done, queue, branch);
      var newcommit := queue[0];
      var parents := Parents(store[branch]);
      queue := queue[1..] + parents;
      marked := marked + {newcommit};
      done := done + [newcommit];
      if parents != [] {
        branch := parents[|parents| - 1];
      }
      assert whole == done + queue + Order(store, commits, branch);
    }
    assert Order(store, commits, branch) == [];
    assert done == whole;
  }

  /** getsplitpoint (Commands.java:741-792): after marking the given side,
      the second loop returns the first id the head side dequeues that is
      marked, or None (Java's null) if there is none. */
  method SplitPoint(store: Store, commits: seq<string>, head: string, given: string)
    returns (split: Option<string>)
    requires WellFormed(store, commits) && head in commits && given in commits
    ensures split == SplitPointOf(store, commits, head, given)
  {
    var marked := MarkGivenSide(store, commits, given);
    ghost var whole := Visit(store, commits, head);
    RootIsMarked(store, commits, head, given);
    assert SplitPointOf(store, commits, head, given) == FirstIn(whole, marked);
    var bfs := [head];
    var tip := head;
    ghost var seen: seq<string> := [];
    assert seen + bfs == [head];
    while bfs != []
      invariant HeadSide(store, commits, whole, seen, bfs, tip, marked)
      decreases |whole| - |seen|
    {
      HeadSideStep(store, commits, whole, seen, bfs, tip, marked);
      var newcommit := bfs[0];
      bfs := bfs[1..];
      if newcommit in marked {
        return Some(newcommit);
      }
      seen := seen + [newcommit];
      var parents := Parents(store[tip]);
      bfs := bfs + parents;
      if parents != [] {
        tip := parents[|parents| - 1];
      }
    }
    // Unreachable: both sides end at the root commit, so the root is
    // marked and the loop returns before the queue runs dry.
    assert false;
    split := None;
  }

  /** With well-formed parents getsplitpoint never returns null: both sides
      reach the root commit. The split point is marked by the given side and
      dequeued by the head side. */
  lemma SplitPointFound(store: Store, commits: seq<string>, head: string, given: string)
    requires WellFormed(store, commits) && head in commits && given in commits
    ensures SplitPointOf(store, commits, head, given).Some?
    ensures SplitPointOf(store, commits, head, given).value in Visit(store, commits, head)
    ensures SplitPointOf(store, commits, head, given).value in Visit(store, commits, given)
  {
    var h := Visit(store, commits, head);
    var g := Visit(store, commits, given);
    assert h[|h| - 1] == commits[0] && g[|g| - 1] in SeqSet(g);
  }

  /** When HEAD is among the commits the given side marks, the split point
      is HEAD itself: merge then fast-forwards. */
  lemma SplitPointIsHead(store: Store, commits: seq<string>, head: string, given: string)
    requires WellFormed(store, commits) && head in commits && given in commits
    requires head in Visit(store, commits, given)
    ensures SplitPointOf(store, commits, head, given) == Some(head)
  {
    var h := Visit(store, commits, head);
    assert h == [] + [head] + h[1..];
    FirstInAfter([], head, h[1..], SeqSet(Visit(store, commits, given)));
  }

  /** A history with a merge commit: root r; p and x made from r; a made
      from p; m merging x into a. */
  function ForkedStore(): Store
  {
    map["r" := Commit("", "", None, None, map[]),
        "p" := Commit("", "", Some("r"), None, map[]),
        "x" := Commit("", "", Some("r"), None, map[]),
        "a" := Commit("", "", Some("p"), None, map[]),
        "m" := Commit("", "", Some("a"), Some("x"), map[])]
  }

  /** The ids of ForkedStore in creation order. */
  function ForkedIds(): seq<string>
  {
    ["r", "p", "x", "a", "m"]
  }

  /** ForkedStore with ForkedIds is a history the commands can build. */
  lemma ForkedWellFormed()
    ensures WellFormed(ForkedStore(), ForkedIds())
  {
    var store := ForkedStore();
    var ids := ForkedIds();
    forall i | 0 <= i < |ids|
      ensures forall q :: q in Parents(store[ids[i]]) ==> q in ids[..i]
    {
      if i == 1 || i == 2 {
        assert ids[..i][0] == "r";
      } else if i == 3 {
        assert ids[..i][1] == "p";
      } else if i == 4 {
        assert ids[..i][3] == "a" && ids[..i][2] == "x";
      }
    }
  }

  /** log from m prints m, a, p and the root. */
  lemma ForkedLog()
    ensures WellFormed(ForkedStore(), ForkedIds()) && "m" in ForkedIds()
    ensures Log(ForkedStore(), ForkedIds(), "m") == ["m", "a", "p", "r"]
  {
    ForkedWellFormed();
    var store := ForkedStore();
    var ids := ForkedIds();
    assert ids[0] == "r" && ids[1] == "p" && ids[3] == "a" && ids[4] == "m";
    assert Log(store, ids, "r") == ["r"];
    assert Log(store, ids, "p") == ["p", "r"];
    assert Log(store, ids, "a") == ["a", "p", "r"];
  }

  /** getsplitpoint's chain from x is the root. */
  lemma ForkedOrderX()
    ensures WellFormed(ForkedStore(), ForkedIds()) && "x" in ForkedIds()
    ensures Order(ForkedStore(), ForkedIds(), "x") == ["r"]
  {
    ForkedWellFormed();
    var store := ForkedStore();
    var ids := ForkedIds();
    assert ids[0] == "r" && ids[2] == "x";
    assert Parents(store["x"]) == ["r"];
    assert Order(store, ids, "r") == [];
  }

  /** The given side from m marks m, a, x and the root, but not p. */
  lemma ForkedGivenSide()
    ensures WellFormed(ForkedStore(), ForkedIds()) && "m" in ForkedIds()
    ensures Visit(ForkedStore(), ForkedIds(), "m") == ["m", "a", "x", "r"]
  {
    ForkedOrderX();
    var store := ForkedStore();
    var ids := ForkedIds();
    assert ids[4] == "m";
    assert Parents(store["m"]) == ["a", "x"];
  }

  /** The head side from p dequeues p, then the root. */
  lemma ForkedHeadSide()
    ensures WellFormed(ForkedStore(), ForkedIds()) && "p" in ForkedIds()
    ensures Visit(ForkedStore(), ForkedIds(), "p") == ["p", "r"]
  {
    ForkedWellFormed();
    var store := ForkedStore();
    var ids := ForkedIds();
    assert ids[0] == "r" && ids[1] == "p";
    assert Parents(store["p"]) == ["r"];
    assert Order(store, ids, "r") == [];
  }

  /** HEAD p lies on the first-parent chain of m, yet the split point of p
      and m is the root r, not p: from m the given side enqueues a and x,
      then expands only x, the last parent enqueued, so p is never marked.
      Merging m's branch into p therefore makes a merge commit instead of
      fast-forwarding. */
  lemma MissedFastForward()
    ensures WellFormed(ForkedStore(), ForkedIds())
    ensures Log(ForkedStore(), ForkedIds(), "m") == ["m", "a", "p", "r"]
    ensures "p" in ForkedIds() && "m" in ForkedIds()
    ensures SplitPointOf(ForkedStore(), ForkedIds(), "p", "m") == Some("r")
  {
    ForkedLog();
    ForkedGivenSide();
    ForkedHeadSide();
    ForkedFirstMarked();
  }

  /** In that history the head side's first commit marked by the given side
      is r. */
  lemma ForkedFirstMarked()
    ensures FirstIn(["p", "r"], SeqSet(["m", "a", "x", "r"])) == Some("r")
  {
    var marked := SeqSet(["m", "a", "x", "r"]);
    assert "p" !in marked && "r" in marked;
    assert ["p", "r"] == ["p"] + ["r"] + [];
    FirstInAfter(["p"], "r", [], marked);
  }

  /** On a history without merge commits, getsplitpoint's dequeue order from
      c is exactly the first-parent chain that log prints. */
  lemma {:induction false} VisitIsLogWithoutMerges(store: Store, commits: seq<string>, c: string)
    requires WellFormed(store, commits) && c in commits
    requires forall i :: 0 <= i < |commits| ==> store[commits[i]].secondParent.None?
    ensures Visit(store, commits, c) == Log(store, commits, c)
    decreases Pos(commits, c)
  {
    if store[c].parent.Some? {
      var p := store[c].parent.value;
      assert store[commits[Pos(commits, c)]].secondParent.None?;
      assert Parents(store[c]) == [p];
      LogStep(store, commits, c);
      OrderStep(store, commits, c);
      VisitIsLogWithoutMerges(store, commits, p);
    } else {
      OnlyRootIsParentless(store, commits, c);
    }
  }

  /** Hence, without merge commits, the split point is the nearest commit on
      HEAD's first-parent chain that is also on the given branch's chain. */
  lemma SplitPointWithoutMerges(store: Store, commits: seq<string>, head: string, given: string)
    requires WellFormed(store, commits) && head in commits && given in commits
    requires forall i :: 0 <= i < |commits| ==> store[commits[i]].secondParent.None?
    ensures SplitPointOf(store, commits, head, given)
            == FirstIn(Log(store, commits, head), SeqSet(Log(store, commits, given)))
  {
    VisitIsLogWithoutMerges(store, commits, head);
    VisitIsLogWithoutMerges(store, commits, given);
  }
}
