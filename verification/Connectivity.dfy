/**
  The connectivity check of a push: every object reachable from the new tips exists. Tags are
  peeled, commits walked back to what existing refs already reach, trees walked breadth first,
  all with one shared set of objects seen, which is never descended into twice.
 */
module Connectivity {
  import opened Prelude

  type Oid = nat

  datatype Mode = TreeMode | BlobMode | Gitlink

  datatype Entry = Entry(mode: Mode, oid: Oid)

  datatype Object = Commit(tree: Oid, parents: seq<Oid>) | Tree(entries: seq<Entry>) | Blob | Tag(target: Oid)

  type Odb = map<Oid, Object>

  datatype CheckError = MissingObject(oid: Oid) | TooDeep | Unreadable

  /** A ref of the snapshot; annotated tags may come with the object they peel to. */
  datatype RefTip = RefTip(oid: Oid, peeled: Option<Oid>)

  const MAX_TAGS: nat := 64

  // ---------------------------------------------------------------------------
  // Reachability
  // ---------------------------------------------------------------------------

  /** What an object needs. Submodule entries name commits of other repositories. */
  function Links(o: Object): set<Oid> {
    match o
    case Commit(tree, parents) => {tree} + set p | p in parents
    case Tree(entries) => set e | e in entries && e.mode != Gitlink :: e.oid
    case Blob => {}
    case Tag(target) => {target}
  }

  /** Each object is in the database and needs the next one. */
  predicate Path(odb: Odb, p: seq<Oid>) {
    p != [] && (|p| > 1 ==> Path(odb, p[..|p| - 1]) && p[|p| - 2] in odb && p[|p| - 1] in Links(odb[p[|p| - 2]]))
  }

  ghost predicate Reaches(odb: Odb, from: Oid, to: Oid) {
    exists p :: Path(odb, p) && p[0] == from && p[|p| - 1] == to
  }

  ghost predicate ReachedFrom(odb: Odb, tips: seq<Oid>, to: Oid) {
    exists i | 0 <= i < |tips| :: Reaches(odb, tips[i], to)
  }

  /** What the check is for. */
  ghost predicate Connected(odb: Odb, tips: seq<Oid>) {
    forall o | ReachedFrom(odb, tips, o) :: o in odb
  }

  lemma ReachesSelf(odb: Odb, o: Oid)
    ensures Reaches(odb, o, o)
  {
    assert Path(odb, [o]);
  }

  lemma ReachesStep(odb: Odb, from: Oid, mid: Oid, to: Oid)
    requires Reaches(odb, from, mid) && mid in odb && to in Links(odb[mid])
    ensures Reaches(odb, from, to)
  {
    var p :| Path(odb, p) && p[0] == from && p[|p| - 1] == mid;
    assert (p + [to])[..|p|] == p;
    assert Path(odb, p + [to]);
  }

  lemma ReachedStep(odb: Odb, tips: seq<Oid>, mid: Oid, to: Oid)
    requires ReachedFrom(odb, tips, mid) && mid in odb && to in Links(odb[mid])
    ensures ReachedFrom(odb, tips, to)
  {
    var i :| 0 <= i < |tips| && Reaches(odb, tips[i], mid);
    ReachesStep(odb, tips[i], mid, to);
  }

  /** Present, with everything it needs: enough to show that nothing reachable is missing. */
  ghost predicate Closed(odb: Odb, s: set<Oid>) {
    forall o | o in s :: o in odb && Links(odb[o]) <= s
  }

  lemma {:induction false} ClosedKeepsPaths(odb: Odb, s: set<Oid>, p: seq<Oid>)
    requires Closed(odb, s) && Path(odb, p) && p[0] in s
    ensures p[|p| - 1] in s
    decreases |p|
  {
    if |p| > 1 {
      ClosedKeepsPaths(odb, s, p[..|p| - 1]);
    }
  }

  lemma ClosedIsConnected(odb: Odb, s: set<Oid>, tips: seq<Oid>)
    requires Closed(odb, s) && forall t | t in tips :: t in s
    ensures Connected(odb, tips)
  {
    forall o | ReachedFrom(odb, tips, o) ensures o in odb {
      var i :| 0 <= i < |tips| && Reaches(odb, tips[i], o);
      var p :| Path(odb, p) && p[0] == tips[i] && p[|p| - 1] == o;
      ClosedKeepsPaths(odb, s, p);
    }
  }

  /** Everything in the set is there, and so is what it names: the tree and the parents of a commit,
      the trees and blobs of a tree, the target of a tag. Links to other repositories do not count. */
  ghost predicate Complete(odb: Odb, s: set<Oid>) {
    forall o | o in s :: o in odb &&
      match odb[o]
      case Commit(tree, parents) => tree in s && forall p | p in parents :: p in s
      case Tree(entries) => forall e | e in entries && (e.mode == TreeMode || e.mode == BlobMode) :: e.oid in s
      case Blob => true
      case Tag(target) => target in s
  }

  predicate Encloses(s: set<Oid>, tips: seq<Oid>) {
    forall t | t in tips :: t in s
  }

  lemma CompleteIsClosed(odb: Odb, s: set<Oid>)
    ensures Complete(odb, s) <==> Closed(odb, s)
  {
    forall o | o in s && o in odb && odb[o].Tree?
      ensures Links(odb[o]) <= s <==> forall e | e in odb[o].entries && (e.mode == TreeMode || e.mode == BlobMode) :: e.oid in s
    {
      forall e | e in odb[o].entries && (e.mode == TreeMode || e.mode == BlobMode) ensures e.oid in Links(odb[o]) {
      }
    }
    forall o | o in s && o in odb && odb[o].Commit?
      ensures Links(odb[o]) <= s <==> odb[o].tree in s && forall p | p in odb[o].parents :: p in s
    {
      forall p | p in odb[o].parents ensures p in Links(odb[o]) {
      }
      assert odb[o].tree in Links(odb[o]);
    }
  }

  /** Nothing reachable is missing if and only if the tips lie in a complete set of objects. */
  lemma ConnectedIff(odb: Odb, tips: seq<Oid>)
    ensures Connected(odb, tips) <==> exists s: set<Oid> :: Complete(odb, s) && Encloses(s, tips)
  {
    if s: set<Oid> :| Complete(odb, s) && Encloses(s, tips) {
      CompleteIsClosed(odb, s);
      ClosedIsConnected(odb, s, tips);
    }
    if Connected(odb, tips) {
      var s := set o | o in odb.Keys && ReachedFrom(odb, tips, o);
      forall o, to | o in s && to in Links(odb[o]) ensures to in s {
        ReachedStep(odb, tips, o, to);
      }
      forall t | t in tips ensures t in s {
        var i :| 0 <= i < |tips| && tips[i] == t;
        ReachesSelf(odb, t);
      }
      CompleteIsClosed(odb, s);
    }
  }

  /** Objects are used as what they are: the mode of a tree entry says what kind it names, and a
      commit names a tree and commits. */
  predicate Typed(odb: Odb) {
    forall o | o in odb :: WellTyped(odb, odb[o])
  }

  predicate WellTyped(odb: Odb, o: Object) {
    match o
    case Commit(tree, parents) =>
      (tree in odb ==> odb[tree].Tree?) && forall p | p in parents && p in odb :: odb[p].Commit?
    case Tree(entries) =>
      forall e | e in entries && e.oid in odb ::
        (e.mode == TreeMode ==> odb[e.oid].Tree?) && (e.mode == BlobMode ==> odb[e.oid].Blob?)
    case _ => true
  }

  // ---------------------------------------------------------------------------
  // Tags
  // ---------------------------------------------------------------------------

  predicate TagChain(odb: Odb, id: Oid, n: nat)
    decreases n
  {
    n == 0 || (id in odb && odb[id].Tag? && TagChain(odb, odb[id].target, n - 1))
  }

  /** Every tag that was followed leads to a tag that was followed, or to the end of the chain. */
  ghost predicate TagsLead(odb: Odb, tags: set<Oid>, ends: set<Oid>) {
    forall t | t in tags :: t in odb && odb[t].Tag? && odb[t].target in tags + ends
  }

  method PeelTip(odb: Odb, id: Oid, seen: set<Oid>) returns (r: Result<Oid, CheckError>, seen': set<Oid>, ghost tags: set<Oid>)
    ensures seen' == seen + tags
    ensures r == Err(TooDeep) <==> TagChain(odb, id, 64)
    ensures r.Ok? ==> r.value in odb && !odb[r.value].Tag? && Reaches(odb, id, r.value)
    ensures r.Ok? ==> TagsLead(odb, tags, {r.value}) && id in tags + {r.value}
    ensures forall o :: r == Err(MissingObject(o)) ==> o !in odb && Reaches(odb, id, o)
    ensures r.Err? ==> r.error.TooDeep? || r.error.MissingObject?
  {
    var at := id;
    seen', tags := seen, {};
    ReachesSelf(odb, id);
    for n := 0 to MAX_TAGS
      invariant seen' == seen + tags && Reaches(odb, id, at)
      invariant TagsLead(odb, tags, {at}) && id in tags + {at}
      invariant TagChain(odb, id, 64) <==> TagChain(odb, at, 64 - n)
    {
      if at !in odb {
        return Err(MissingObject(at)), seen', tags;
      }
      if !odb[at].Tag? {
        return Ok(at), seen', tags;
      }
      seen' := seen' + {at};
      tags := tags + {at};
      ReachesStep(odb, id, at, odb[at].target);
      at := odb[at].target;
    }
    return Err(TooDeep), seen', tags;
  }

  // ---------------------------------------------------------------------------
  // Trees
  // ---------------------------------------------------------------------------

  predicate TreeDone(odb: Odb, seen: set<Oid>, t: Oid) {
    t in odb && (odb[t].Tree? ==> Links(odb[t]) <= seen)
  }

  lemma FirstOrLater(queue: seq<Oid>)
    requires queue != []
    ensures forall q | q in queue :: q == queue[0] || q in queue[1..]
  {
  }

  /** Walk a tree breadth first; `root` was just put into `seen`. */
  method WalkTree(odb: Odb, root: Oid, seen: set<Oid>) returns (r: Result<(), CheckError>, seen': set<Oid>)
    requires Typed(odb) && root in odb && odb[root].Tree? && root in seen
    requires forall o | o in seen && o != root :: TreeDone(odb, seen, o)
    ensures seen <= seen'
    ensures r.Ok? ==> forall o | o in seen' :: TreeDone(odb, seen', o)
    ensures r.Ok? ==> forall o | o in seen' - seen :: o in odb && (odb[o].Tree? || odb[o].Blob?)
    ensures r.Err? ==> r.error.MissingObject? && r.error.oid !in odb && Reaches(odb, root, r.error.oid)
  {
    seen' := seen;
    var queue := [root];
    ReachesSelf(odb, root);
    while queue != []
      invariant seen <= seen'
      invariant forall q | q in queue :: q in odb && odb[q].Tree? && q in seen' && Reaches(odb, root, q)
      invariant forall o | o in seen' && o !in queue :: TreeDone(odb, seen', o)
      invariant forall o | o in seen' - seen :: o in odb && (odb[o].Tree? || odb[o].Blob?)
      decreases |odb.Keys - seen'|, |queue|
    {
      var tree := queue[0];
      FirstOrLater(queue);
      var more;
      r, seen', more := VisitEntries(odb, tree, seen');
      if r.Err? {
        ReachesStep(odb, root, tree, r.error.oid);
        return;
      }
      forall q | q in more ensures Reaches(odb, root, q) {
        ReachesStep(odb, root, tree, q);
      }
      queue := queue[1..] + more;
    }
    r := Ok(());
  }

  /** The entries of one tree: `more` are the subtrees to descend into, each seen for the first time. */
  method VisitEntries(odb: Odb, tree: Oid, seen: set<Oid>) returns (r: Result<(), CheckError>, seen': set<Oid>, more: seq<Oid>)
    requires Typed(odb) && tree in odb && odb[tree].Tree?
    ensures seen <= seen'
    ensures r.Ok? ==> Links(odb[tree]) <= seen'
    ensures r.Ok? ==> forall o | o in seen' - seen :: o in Links(odb[tree]) && o in odb && (odb[o].Blob? || o in more)
    ensures forall q | q in more :: q in Links(odb[tree]) && q in odb && odb[q].Tree? && q in seen' - seen
    ensures more != [] ==> |odb.Keys - seen'| < |odb.Keys - seen|
    ensures |odb.Keys - seen'| <= |odb.Keys - seen|
    ensures r.Err? ==> r.error.MissingObject? && r.error.oid !in odb && r.error.oid in Links(odb[tree])
  {
    var entries := odb[tree].entries;
    seen', more := seen, [];
    for i := 0 to |entries|
      invariant seen <= seen'
      invariant forall k | 0 <= k < i && entries[k].mode != Gitlink :: entries[k].oid in seen'
      invariant forall o | o in seen' - seen :: o in Links(odb[tree]) && o in odb && (odb[o].Blob? || o in more)
      invariant forall q | q in more :: q in Links(odb[tree]) && q in odb && odb[q].Tree? && q in seen' - seen
    {
      var e := entries[i];
      assert WellTyped(odb, odb[tree]) && e in entries;
      if e.mode != Gitlink && e.oid !in seen' {
        seen' := seen' + {e.oid};
        if e.oid !in odb {
          Shrinks(odb.Keys - seen', odb.Keys - seen);
          return Err(MissingObject(e.oid)), seen', [];
        }
        if e.mode == TreeMode {
          more := more + [e.oid];
        }
      }
    }
    Shrinks(odb.Keys - seen', odb.Keys - seen);
    if more != [] {
      assert more[0] in odb.Keys - seen;
    }
    r := Ok(());
  }

  lemma Shrinks(a: set<Oid>, b: set<Oid>)
    requires a <= b
    ensures |a| <= |b|
    ensures a != b ==> |a| < |b|
  {
    assert b == a + (b - a);
  }

  // ---------------------------------------------------------------------------
  // Commits
  // ---------------------------------------------------------------------------

  lemma Fewer(all: set<Oid>, known: set<Oid>, c: Oid)
    requires c in all && c !in known
    ensures |all - (known + {c})| < |all - known|
  {
    Shrinks(all - (known + {c}), all - known);
    assert c in all - known;
  }

  /** Everything the tips reach. */
  ghost function Scope(odb: Odb, tips: seq<Oid>): iset<Oid> {
    iset o: Oid | ReachedFrom(odb, tips, o)
  }

  /** Closed under parents, which are commits as far as they are present. */
  ghost predicate HasAncestors(odb: Odb, scope: iset<Oid>) {
    forall c | c in scope && c in odb && odb[c].Commit? ::
      forall p | p in odb[c].parents :: p in scope && (p in odb ==> odb[p].Commit?)
  }

  lemma ScopeHasAncestors(odb: Odb, tips: seq<Oid>)
    requires Typed(odb)
    ensures HasAncestors(odb, Scope(odb, tips)) && forall t | t in tips :: t in Scope(odb, tips)
  {
    forall c | c in Scope(odb, tips) && c in odb && odb[c].Commit?
      ensures forall p | p in odb[c].parents :: p in Scope(odb, tips) && (p in odb ==> odb[p].Commit?)
    {
      assert WellTyped(odb, odb[c]);
      forall p | p in odb[c].parents ensures ReachedFrom(odb, tips, p) {
        ReachedStep(odb, tips, c, p);
      }
    }
    forall t | t in tips ensures ReachedFrom(odb, tips, t) {
      var i :| 0 <= i < |tips| && tips[i] == t;
      ReachesSelf(odb, t);
    }
  }

  /** Commits from `tips` back to `hidden`, each once. The walk stops early at a missing object. */
  method RevWalk(odb: Odb, tips: seq<Oid>, hidden: set<Oid>, ghost scope: iset<Oid>) returns (yielded: seq<Oid>, failed: bool)
    requires HasAncestors(odb, scope) && forall t | t in tips :: t in odb && odb[t].Commit? && t in scope
    ensures forall c | c in yielded :: c in odb && odb[c].Commit? && c !in hidden && c in scope
    ensures !failed ==> forall t | t in tips :: t in yielded || t in hidden
    ensures !failed ==> forall c | c in yielded :: forall p | p in odb[c].parents :: p in yielded || p in hidden
    ensures failed ==> exists o :: o !in odb && o in scope
  {
    yielded := [];
    var visited: set<Oid> := {};
    var queue := tips;
    while queue != []
      invariant forall c :: c in yielded <==> c in visited
      invariant forall c | c in visited :: c in odb && odb[c].Commit? && c !in hidden && c in scope
      invariant forall q | q in queue :: q in scope && (q in odb ==> odb[q].Commit?)
      invariant forall t | t in tips :: t in visited || t in hidden || t in queue
      invariant forall c | c in visited :: forall p | p in odb[c].parents :: p in visited || p in hidden || p in queue
      decreases |odb.Keys - visited|, |queue|
    {
      var c := queue[0];
      assert forall q | q in queue :: q == c || q in queue[1..];
      queue := queue[1..];
      if c !in visited && c !in hidden {
        if c !in odb {
          return yielded, true;
        }
        Fewer(odb.Keys, visited, c);
        visited := visited + {c};
        yielded := yielded + [c];
        queue := queue + odb[c].parents;
      }
    }
    failed := false;
  }

  /** The commits that existing refs reach; nothing there is missing. */
  method HiddenCommits(odb: Odb, tips: seq<Oid>, ghost complete: set<Oid>) returns (hidden: set<Oid>)
    requires Closed(odb, complete) && forall t | t in tips :: t in complete
    ensures hidden <= complete && forall t | t in tips && odb[t].Commit? :: t in hidden
  {
    hidden := {};
    var queue := tips;
    while queue != []
      invariant hidden <= complete && hidden <= odb.Keys && forall q | q in queue :: q in complete
      invariant forall t | t in tips && odb[t].Commit? :: t in hidden || t in queue
      decreases |odb.Keys - hidden|, |queue|
    {
      var c := queue[0];
      assert forall q | q in queue :: q == c || q in queue[1..];
      queue := queue[1..];
      if c !in hidden && odb[c].Commit? {
        Fewer(odb.Keys, hidden, c);
        assert forall p | p in odb[c].parents :: p in Links(odb[c]);
        hidden := hidden + {c};
        queue := queue + odb[c].parents;
      }
    }
  }

  function Candidate(r: RefTip): Oid {
    if r.peeled.Some? then r.peeled.value else r.oid
  }

  /** The commits that existing refs point at, directly or through tags. */
  method HiddenTips(odb: Odb, refs: seq<RefTip>, ghost complete: set<Oid>) returns (out: seq<Oid>)
    requires Closed(odb, complete) && forall r | r in refs :: Candidate(r) in complete
    ensures forall o | o in out :: o in complete
  {
    out := [];
    var known: set<Oid> := {};
    for i := 0 to |refs|
      invariant forall o | o in out :: o in complete
    {
      var oid := Candidate(refs[i]);
      if oid !in known {
        known := known + {oid};
        if oid in odb && odb[oid].Commit? {
          out := out + [oid];
        } else if oid in odb && odb[oid].Tag? {
          var peeled, ignored, tags := PeelTip(odb, oid, {});
          if peeled.Ok? && odb[peeled.value].Commit? {
            ClosedReaches(odb, complete, oid, peeled.value);
            out := out + [peeled.value];
          }
        }
      }
    }
  }

  lemma ClosedReaches(odb: Odb, s: set<Oid>, from: Oid, to: Oid)
    requires Closed(odb, s) && from in s && Reaches(odb, from, to)
    ensures to in s
  {
    var p :| Path(odb, p) && p[0] == from && p[|p| - 1] == to;
    ClosedKeepsPaths(odb, s, p);
  }

  // ---------------------------------------------------------------------------
  // The check
  // ---------------------------------------------------------------------------

  /** What has been seen is present and has been followed, except for the parents of commits; tags
      lead to other tags seen or to `ends`. */
  ghost predicate Settled(odb: Odb, seen: set<Oid>, ends: set<Oid>) {
    forall o | o in seen :: o in odb && Followed(seen, ends, odb[o])
  }

  ghost predicate Followed(seen: set<Oid>, ends: set<Oid>, o: Object) {
    match o
    case Commit(tree, _) => tree in seen
    case Tree(_) => Links(o) <= seen
    case Blob => true
    case Tag(target) => target in seen + ends
  }

  /** See a tree that was not seen before, and everything under it. */
  method SeeTree(odb: Odb, root: Oid, seen: set<Oid>, ghost ends: set<Oid>) returns (r: Result<(), CheckError>, seen': set<Oid>)
    requires Typed(odb) && root in odb && odb[root].Tree? && Settled(odb, seen, ends)
    ensures seen + {root} <= seen'
    ensures r.Ok? ==> Settled(odb, seen', ends) && forall o | o in seen' - seen :: odb[o].Tree? || odb[o].Blob?
    ensures r.Err? ==> r.error.MissingObject? && r.error.oid !in odb && Reaches(odb, root, r.error.oid)
  {
    if root in seen {
      return Ok(()), seen;
    }
    r, seen' := WalkTree(odb, root, seen + {root});
    if r.Ok? {
      forall o | o in seen' ensures o in odb && Followed(seen', ends, odb[o]) {
        assert TreeDone(odb, seen', o);
        assert o !in seen && o != root ==> o in seen' - (seen + {root});
      }
    }
  }

  ghost predicate Honest(odb: Odb, tips: seq<Oid>, e: CheckError) {
    match e
    case MissingObject(o) => o !in odb && ReachedFrom(odb, tips, o)
    case TooDeep => exists i | 0 <= i < |tips| :: TagChain(odb, tips[i], 64)
    case Unreadable => exists o :: o !in odb && ReachedFrom(odb, tips, o)
  }

  lemma {:induction false} ReachesOn(odb: Odb, from: Oid, mid: Oid, p: seq<Oid>)
    requires Reaches(odb, from, mid) && Path(odb, p) && p[0] == mid
    ensures Reaches(odb, from, p[|p| - 1])
    decreases |p|
  {
    if |p| > 1 {
      ReachesOn(odb, from, mid, p[..|p| - 1]);
      ReachesStep(odb, from, p[|p| - 2], p[|p| - 1]);
    }
  }

  lemma ReachedOn(odb: Odb, tips: seq<Oid>, mid: Oid, to: Oid)
    requires ReachedFrom(odb, tips, mid) && Reaches(odb, mid, to)
    ensures ReachedFrom(odb, tips, to)
  {
    var i :| 0 <= i < |tips| && Reaches(odb, tips[i], mid);
    var p :| Path(odb, p) && p[0] == mid && p[|p| - 1] == to;
    ReachesOn(odb, tips[i], mid, p);
  }

  lemma TipReached(odb: Odb, tips: seq<Oid>, i: nat)
    requires i < |tips|
    ensures ReachedFrom(odb, tips, tips[i])
  {
    ReachesSelf(odb, tips[i]);
  }

  method UniqueTips(tips: seq<Oid>) returns (unique: seq<Oid>)
    ensures forall t :: t in unique <==> t in tips
  {
    unique := [];
    var known: set<Oid> := {};
    for i := 0 to |tips|
      invariant forall t :: t in known <==> t in unique
      invariant forall t :: t in unique <==> t in tips[..i]
    {
      if tips[i] !in known {
        known := known + {tips[i]};
        unique := unique + [tips[i]];
      }
    }
  }

  /** Everything peeled so far: what was seen is settled, and every tip ended somewhere. */
  ghost predicate PeeledOk(odb: Odb, seen: set<Oid>, commits: seq<Oid>, ends: set<Oid>) {
    && Settled(odb, seen, ends) && (forall o | o in seen :: !odb[o].Commit?)
    && (forall e | e in ends :: e in odb && Ending(odb, seen, commits, e))
    && (forall c | c in commits :: c in odb && odb[c].Commit?)
  }

  /** A few more tags and one more end keep what was seen settled. */
  lemma TagsSettle(odb: Odb, seen: set<Oid>, tags: set<Oid>, ends: set<Oid>, id: Oid)
    requires Settled(odb, seen, ends) && TagsLead(odb, tags, {id})
    ensures Settled(odb, seen + tags, ends + {id})
  {
    forall o | o in seen + tags ensures o in odb && Followed(seen + tags, ends + {id}, odb[o]) {
      assert o in tags || o in seen;
    }
  }

  /** Peel one tip; see it if it ends at a tree, collect it if it ends at a commit. */
  method SeeTip(odb: Odb, tip: Oid, seen: set<Oid>, commits: seq<Oid>, ghost ends: set<Oid>)
    returns (r: Result<(), CheckError>, seen': set<Oid>, commits': seq<Oid>, ghost ends': set<Oid>)
    requires Typed(odb) && PeeledOk(odb, seen, commits, ends)
    ensures r.Ok? ==> PeeledOk(odb, seen', commits', ends') && seen <= seen' && ends <= ends'
    ensures r.Ok? ==> tip in seen' + ends' && !TagChain(odb, tip, 64)
    ensures r.Ok? ==> forall c | c in commits' :: c in commits || Reaches(odb, tip, c)
    ensures r.Err? ==> !r.error.Unreadable? && (r.error.TooDeep? ==> TagChain(odb, tip, 64))
    ensures r.Err? && r.error.MissingObject? ==> r.error.oid !in odb && Reaches(odb, tip, r.error.oid)
  {
    var peeled;
    ghost var tags;
    peeled, seen', tags := PeelTip(odb, tip, seen);
    commits', ends' := commits, ends;
    if peeled.Err? {
      return Err(peeled.error), seen', commits', ends';
    }
    var id := peeled.value;
    ends' := ends + {id};
    TagsSettle(odb, seen, tags, ends, id);
    r := Ok(());
    if odb[id].Commit? {
      commits' := commits + [id];
    } else if odb[id].Tree? {
      ghost var before := seen';
      r, seen' := SeeTree(odb, id, seen', ends');
      if r.Err? {
        var p :| Path(odb, p) && p[0] == id && p[|p| - 1] == r.error.oid;
        ReachesOn(odb, tip, id, p);
        return;
      }
      assert forall o | o in seen' :: o in before || o in seen' - before;
    }
  }

  /** Peel every tip; see the trees among the results, collect the commits. */
  method PeelTips(odb: Odb, tips: seq<Oid>)
    returns (r: Result<(), CheckError>, seen: set<Oid>, commits: seq<Oid>, ghost ends: set<Oid>)
    requires Typed(odb)
    ensures r.Ok? ==> PeeledOk(odb, seen, commits, ends)
    ensures r.Ok? ==> forall t | t in tips :: t in seen + ends && !TagChain(odb, t, 64)
    ensures r.Ok? ==> forall c | c in commits :: ReachedFrom(odb, tips, c)
    ensures r.Err? ==> Honest(odb, tips, r.error)
  {
    seen, commits, ends := {}, [], {};
    for i := 0 to |tips|
      invariant PeeledOk(odb, seen, commits, ends)
      invariant forall t | t in tips[..i] :: t in seen + ends && !TagChain(odb, t, 64)
      invariant forall c | c in commits :: ReachedFrom(odb, tips, c)
    {
      r, seen, commits, ends := SeeTip(odb, tips[i], seen, commits, ends);
      if r.Err? {
        return;
      }
      assert tips[..i + 1] == tips[..i] + [tips[i]];
    }
    assert tips[..|tips|] == tips;
    r := Ok(());
  }

  /** Where a tip ends: a commit to walk, a tree already seen, or a blob. */
  ghost predicate Ending(odb: Odb, seen: set<Oid>, commits: seq<Oid>, e: Oid)
    requires e in odb
  {
    match odb[e]
    case Commit(_, _) => e in commits
    case Tree(_) => e in seen
    case Blob => true
    case Tag(_) => false
  }

  /** See every walked commit and its tree. */
  method SeeCommits(odb: Odb, walk: seq<Oid>, seen: set<Oid>, ghost ends: set<Oid>) returns (r: Result<(), CheckError>, seen': set<Oid>)
    requires Typed(odb) && Settled(odb, seen, ends)
    requires forall c | c in walk :: c in odb && odb[c].Commit?
    ensures seen <= seen'
    ensures r.Ok? ==> Settled(odb, seen', ends) && forall c | c in walk :: c in seen'
    ensures r.Ok? ==> forall o | o in seen' - seen && odb[o].Commit? :: o in walk
    ensures r.Err? ==> r.error.MissingObject? && r.error.oid !in odb && ReachedFrom(odb, walk, r.error.oid)
  {
    seen' := seen;
    for i := 0 to |walk|
      invariant seen <= seen' && Settled(odb, seen', ends)
      invariant forall c | c in walk[..i] :: c in seen'
      invariant forall o | o in seen' - seen && odb[o].Commit? :: o in walk
    {
      var c := walk[i];
      assert walk[..i + 1] == walk[..i] + [c];
      if c !in seen' {
        var tree := odb[c].tree;
        assert WellTyped(odb, odb[c]);
        TipReached(odb, walk, i);
        ReachedStep(odb, walk, c, tree);
        if tree !in odb {
          return Err(MissingObject(tree)), seen' + {c, tree};
        }
        r, seen' := SeeCommit(odb, c, seen', ends);
        if r.Err? {
          ReachedOn(odb, walk, tree, r.error.oid);
          return;
        }
      }
    }
    assert walk[..|walk|] == walk;
    r := Ok(());
  }

  method SeeCommit(odb: Odb, c: Oid, seen: set<Oid>, ghost ends: set<Oid>) returns (r: Result<(), CheckError>, seen': set<Oid>)
    requires Typed(odb) && Settled(odb, seen, ends) && c in odb && odb[c].Commit? && c !in seen
    requires odb[c].tree in odb
    ensures seen + {c} <= seen'
    ensures r.Ok? ==> Settled(odb, seen', ends) && forall o | o in seen' - seen && odb[o].Commit? :: o == c
    ensures r.Err? ==> r.error.MissingObject? && r.error.oid !in odb && Reaches(odb, odb[c].tree, r.error.oid)
  {
    assert WellTyped(odb, odb[c]);
    r, seen' := SeeTree(odb, odb[c].tree, seen, ends);
    if r.Ok? {
      ghost var before := seen';
      seen' := seen' + {c};
      forall o | o in seen' ensures o in odb && Followed(seen', ends, odb[o]) {
        assert o in before || o == c;
      }
    } else {
      seen' := seen' + {c};
    }
  }

  /** Put together, everything seen and everything existing refs reach is closed. */
  lemma EverythingIsClosed(odb: Odb, seen: set<Oid>, ends: set<Oid>, commits: seq<Oid>, walk: seq<Oid>, hidden: set<Oid>, complete: set<Oid>)
    requires Settled(odb, seen, ends) && Closed(odb, complete) && hidden <= complete
    requires forall e | e in ends :: e in odb && Ending(odb, seen, commits, e)
    requires forall c | c in commits :: c in walk || c in hidden
    requires forall c | c in walk :: c in seen && c in odb && odb[c].Commit? && forall p | p in odb[c].parents :: p in walk || p in hidden
    requires forall o | o in seen && odb[o].Commit? :: o in walk
    ensures Closed(odb, seen + ends + complete)
  {
    var all := seen + ends + complete;
    forall o | o in all ensures o in odb && Links(odb[o]) <= all {
      if o in complete {
        assert Links(odb[o]) <= complete;
      } else if o in seen {
        assert Followed(seen, ends, odb[o]);
        assert odb[o].Commit? ==> forall p | p in odb[o].parents :: p in walk || p in hidden;
      } else {
        assert Ending(odb, seen, commits, o);
      }
    }
  }

  method Hidden(odb: Odb, refs: seq<RefTip>, ghost complete: set<Oid>) returns (hidden: set<Oid>)
    requires Closed(odb, complete) && forall ref | ref in refs :: Candidate(ref) in complete
    ensures hidden <= complete
  {
    var existing := HiddenTips(odb, refs, complete);
    hidden := HiddenCommits(odb, existing, complete);
  }

  /** Walk the peeled commits back to `hidden`, seeing each one's tree. */
  method CheckCommits(odb: Odb, tips: seq<Oid>, commits: seq<Oid>, hidden: set<Oid>, seen: set<Oid>,
                      ghost ends: set<Oid>, ghost complete: set<Oid>)
    returns (r: Result<(), CheckError>)
    requires Typed(odb) && Closed(odb, complete) && hidden <= complete
    requires PeeledOk(odb, seen, commits, ends) && forall c | c in commits :: ReachedFrom(odb, tips, c)
    requires forall t | t in tips :: t in seen + ends
    ensures r.Ok? ==> Connected(odb, tips)
    ensures r.Err? ==> Honest(odb, tips, r.error)
  {
    ScopeHasAncestors(odb, commits);
    var walk, failed := RevWalk(odb, commits, hidden, Scope(odb, commits));
    var seen';
    r, seen' := SeeCommits(odb, walk, seen, ends);
    if r.Err? {
      WalkIsReached(odb, tips, commits, walk, r.error.oid);
      return;
    }
    if failed {
      FailureIsReached(odb, tips, commits);
      return Err(Unreadable);
    }
    EverythingIsClosed(odb, seen', ends, commits, walk, hidden, complete);
    ClosedIsConnected(odb, seen' + ends + complete, tips);
  }

  /** The check passes exactly when nothing reachable from the tips is missing and no tip hides
      behind too many tags; a missing object it names is missing and reachable. `complete` is what
      existing refs reach, all of it present. */
  method CheckConnectivity(odb: Odb, refs: seq<RefTip>, tips: seq<Oid>, stopAtExistingRefs: bool, ghost complete: set<Oid>)
    returns (r: Result<(), CheckError>)
    requires Typed(odb)
    requires stopAtExistingRefs ==> Closed(odb, complete) && forall ref | ref in refs :: (if ref.peeled.Some? then ref.peeled.value else ref.oid) in complete
    ensures r.Ok? <==> Connected(odb, tips) && forall t | t in tips :: !TagChain(odb, t, 64)
    ensures r.Err? ==> Honest(odb, tips, r.error)
  {
    var unique := UniqueTips(tips);
    SameTips(odb, unique, tips);
    var seen, commits;
    ghost var ends;
    r, seen, commits, ends := PeelTips(odb, unique);
    if r.Ok? {
      var hidden: set<Oid> := {};
      if stopAtExistingRefs {
        hidden := Hidden(odb, refs, complete);
      }
      r := CheckCommits(odb, unique, commits, hidden, seen, ends, if stopAtExistingRefs then complete else {});
    }
    if r.Err? {
      HonestMeansBroken(odb, tips, r.error);
    }
  }

  lemma HonestMeansBroken(odb: Odb, tips: seq<Oid>, e: CheckError)
    requires Honest(odb, tips, e)
    ensures !Connected(odb, tips) || exists t | t in tips :: TagChain(odb, t, 64)
  {
    if e.TooDeep? {
      var i :| 0 <= i < |tips| && TagChain(odb, tips[i], 64);
      assert tips[i] in tips;
    }
  }

  lemma SameTips(odb: Odb, a: seq<Oid>, b: seq<Oid>)
    requires forall t :: t in a <==> t in b
    ensures forall o :: ReachedFrom(odb, a, o) <==> ReachedFrom(odb, b, o)
    ensures Connected(odb, a) <==> Connected(odb, b)
    ensures forall e :: Honest(odb, a, e) <==> Honest(odb, b, e)
  {
    forall o ensures ReachedFrom(odb, a, o) <==> ReachedFrom(odb, b, o) {
      if ReachedFrom(odb, a, o) {
        var i :| 0 <= i < |a| && Reaches(odb, a[i], o);
        assert a[i] in b;
        var j :| 0 <= j < |b| && b[j] == a[i];
      }
      if ReachedFrom(odb, b, o) {
        var i :| 0 <= i < |b| && Reaches(odb, b[i], o);
        assert b[i] in a;
        var j :| 0 <= j < |a| && a[j] == b[i];
      }
    }
    SameChains(odb, a, b);
  }

  lemma SameChains(odb: Odb, a: seq<Oid>, b: seq<Oid>)
    requires forall t :: t in a <==> t in b
    ensures (exists i | 0 <= i < |a| :: TagChain(odb, a[i], 64)) <==> (exists i | 0 <= i < |b| :: TagChain(odb, b[i], 64))
  {
    forall i | 0 <= i < |a| && TagChain(odb, a[i], 64) ensures exists j | 0 <= j < |b| :: TagChain(odb, b[j], 64) {
      assert a[i] in b;
      var j :| 0 <= j < |b| && b[j] == a[i];
    }
    forall i | 0 <= i < |b| && TagChain(odb, b[i], 64) ensures exists j | 0 <= j < |a| :: TagChain(odb, a[j], 64) {
      assert b[i] in a;
      var j :| 0 <= j < |a| && a[j] == b[i];
    }
  }

  lemma WalkIsReached(odb: Odb, tips: seq<Oid>, commits: seq<Oid>, walk: seq<Oid>, o: Oid)
    requires forall c | c in commits :: ReachedFrom(odb, tips, c)
    requires forall c | c in walk :: ReachedFrom(odb, commits, c)
    requires ReachedFrom(odb, walk, o)
    ensures ReachedFrom(odb, tips, o)
  {
    ReachedThrough(odb, commits, walk, o);
    ReachedThrough(odb, tips, commits, o);
  }

  lemma ReachedThrough(odb: Odb, tips: seq<Oid>, middle: seq<Oid>, o: Oid)
    requires forall c | c in middle :: ReachedFrom(odb, tips, c)
    requires ReachedFrom(odb, middle, o)
    ensures ReachedFrom(odb, tips, o)
  {
    var i :| 0 <= i < |middle| && Reaches(odb, middle[i], o);
    assert middle[i] in middle;
    ReachedOn(odb, tips, middle[i], o);
  }

  lemma FailureIsReached(odb: Odb, tips: seq<Oid>, commits: seq<Oid>)
    requires forall c | c in commits :: ReachedFrom(odb, tips, c)
    requires exists o :: o !in odb && ReachedFrom(odb, commits, o)
    ensures exists o :: o !in odb && ReachedFrom(odb, tips, o)
  {
    var o :| o !in odb && ReachedFrom(odb, commits, o);
    ReachedThrough(odb, tips, commits, o);
  }

  // ---------------------------------------------------------------------------
  // How deep a chain of tags may be
  // ---------------------------------------------------------------------------

  function FirstOf(tags: seq<Oid>, end: Oid): Oid {
    if tags == [] then end else tags[0]
  }

  /** Tags, each on the next, the last one on `end`. */
  predicate TagRun(odb: Odb, tags: seq<Oid>, end: Oid) {
    tags == [] || (tags[0] in odb && odb[tags[0]] == Tag(FirstOf(tags[1..], end)) && TagRun(odb, tags[1..], end))
  }

  lemma {:induction false} RunIsChain(odb: Odb, tags: seq<Oid>, end: Oid, n: nat)
    requires TagRun(odb, tags, end) && end in odb && !odb[end].Tag?
    ensures TagChain(odb, FirstOf(tags, end), n) <==> n <= |tags|
    decreases |tags|
  {
    if tags != [] && n > 0 {
      RunIsChain(odb, tags[1..], end, n - 1);
    }
  }

  lemma TagOnComplete(odb: Odb, t: Oid, target: Oid)
    requires t in odb && odb[t] == Tag(target) && Connected(odb, [target])
    ensures Connected(odb, [t])
  {
    var targets, tips := [target], [t];
    ConnectedIff(odb, targets);
    var s: set<Oid> :| Complete(odb, s) && Encloses(s, targets);
    assert target in targets;
    CompleteIsClosed(odb, s);
    assert Closed(odb, s + {t});
    CompleteIsClosed(odb, s + {t});
    assert Encloses(s + {t}, tips);
    ConnectedIff(odb, tips);
  }

  lemma {:induction false} TagsOnComplete(odb: Odb, tags: seq<Oid>, end: Oid)
    requires TagRun(odb, tags, end) && Connected(odb, [end])
    ensures Connected(odb, [FirstOf(tags, end)])
    decreases |tags|
  {
    if tags != [] {
      TagsOnComplete(odb, tags[1..], end);
      TagOnComplete(odb, tags[0], FirstOf(tags[1..], end));
    }
  }

  /** A tip behind a run of tags on a complete object: up to 63 tags pass, 64 are refused. */
  method CheckTagged(odb: Odb, tags: seq<Oid>, end: Oid) returns (r: Result<(), CheckError>)
    requires Typed(odb) && TagRun(odb, tags, end) && end in odb && !odb[end].Tag? && Connected(odb, [end])
    ensures r.Ok? <==> |tags| <= 63
    ensures r.Err? ==> r == Err(TooDeep)
  {
    var tip := FirstOf(tags, end);
    TagsOnComplete(odb, tags, end);
    RunIsChain(odb, tags, end, 64);
    assert tip in [tip];
    r := CheckConnectivity(odb, [], [tip], false, {});
  }
}
