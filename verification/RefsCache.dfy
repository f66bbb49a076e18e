/**
  The refs of a local repository and the caches in front of them: a name-sorted snapshot with a
  list of transactions not folded in yet, and an overlay view for point lookups.

  `disk` stands for `packed-refs`, the loose refs and HEAD; `generation` for everything the cache
  key is made of. A ref is a name and an object id; peeled tag values are not kept.
 */
module RefsCache {
  import opened Prelude
  import opened Names
  import opened Wal

  datatype Snapshot = Snapshot(refs: seq<Ref>, headTarget: string, headOid: string)

  datatype GitError = InvalidInput | RefConflict(name: string, expected: string, actual: string) | Subprocess

  function AsState(s: Snapshot): RefState {
    RefState(MapOf(s.refs), s.headTarget, s.headOid)
  }

  /** What a name means: its object, or for HEAD the object of its target. */
  function Resolve(s: RefState, name: string): Option<string> {
    if name == HEAD then
      if s.headTarget == "" then (if s.headOid == "" then None else Some(s.headOid))
      else if s.headTarget in s.refs then Some(s.refs[s.headTarget]) else None
    else if name in s.refs then Some(s.refs[name]) else None
  }

  function AllUpdates(txns: seq<RefTransaction>): seq<RefUpdate> {
    if txns == [] then [] else AllUpdates(txns[..|txns| - 1]) + txns[|txns| - 1].updates
  }

  predicate DeletesHead(u: RefUpdate) {
    u.name == HEAD && u.newSymbolicTarget == "" && IsNull(u.newOid)
  }

  /** Whether the last update of HEAD deletes it; `before` if there is none. */
  predicate Headless(before: bool, updates: seq<RefUpdate>) {
    if updates == [] then before
    else
      var last := updates[|updates| - 1];
      if last.name == HEAD then DeletesHead(last)
      else Headless(before, updates[..|updates| - 1])
  }

  // ---------------------------------------------------------------------------
  // Validation
  // ---------------------------------------------------------------------------

  predicate Contains(s: string, part: string) {
    exists i | 0 <= i <= |s| :: part <= s[i..]
  }

  predicate ValidRefName(name: string) {
    name == HEAD ||
    (&& "refs/" <= name
     && (forall i | 0 <= i < |name| :: name[i] !in "\0\n\r ~^:?*[\\")
     && !Contains(name, "..") && !Contains(name, "@{") && !Contains(name, "//")
     && !EndsWith(name, "/") && !EndsWith(name, ".") && !EndsWith(name, ".lock"))
  }

  predicate ValidOid(oid: string) {
    IsNull(oid) ||
    ((|oid| == 40 || |oid| == 64)
     && forall i | 0 <= i < |oid| :: '0' <= oid[i] <= '9' || 'a' <= oid[i] <= 'f' || 'A' <= oid[i] <= 'F')
  }

  predicate ValidUpdate(u: RefUpdate) {
    if u.newSymbolicTarget != "" then u.name == HEAD && ValidRefName(u.newSymbolicTarget)
    else ValidRefName(u.name) && ValidOid(u.oldOid) && ValidOid(u.newOid)
  }

  predicate AllValid(updates: seq<RefUpdate>) {
    forall i | 0 <= i < |updates| :: ValidUpdate(updates[i])
  }

  // ---------------------------------------------------------------------------
  // The overlay view
  // ---------------------------------------------------------------------------

  // What is refused and what is not, in plain strings.

  lemma Inside(a: string, part: string, b: string)
    ensures Contains(a + part + b, part)
  {
    assert (a + part + b)[|a|..] == part + b;
  }

  lemma NotHead(name: string, i: nat)
    requires i < |name| && name[i] !in HEAD
    ensures name != HEAD
  {
  }

  lemma PartRefused(a: string, part: string, b: string)
    requires part == ".." || part == "@{" || part == "//"
    ensures !ValidRefName(a + part + b)
  {
    Inside(a, part, b);
    assert (a + part + b)[|a|] == part[0] && part[0] !in HEAD;
    NotHead(a + part + b, |a|);
  }

  lemma CharRefused(a: string, c: char, b: string)
    requires c in "\0\n\r ~^:?*[\\"
    ensures !ValidRefName(a + [c] + b)
  {
    assert (a + [c] + b)[|a|] == c && c !in HEAD;
    NotHead(a + [c] + b, |a|);
  }

  lemma EndRefused(a: string, part: string)
    requires part == "/" || part == "." || part == ".lock"
    ensures !ValidRefName(a + part)
  {
    assert (a + part)[|a|..] == part && (a + part)[|a|] == part[0] && part[0] !in HEAD;
    NotHead(a + part, |a|);
  }

  /** Names that are refused, whatever stands around the offending part. */
  lemma NamesRefused(a: string, b: string, c: char)
    ensures !ValidRefName(a + ".." + b) && !ValidRefName(a + "@{" + b) && !ValidRefName(a + "//" + b)
    ensures c in "\0\n\r ~^:?*[\\" ==> !ValidRefName(a + [c] + b)
    ensures !ValidRefName(a + "/") && !ValidRefName(a + ".") && !ValidRefName(a + ".lock")
    ensures a != "HEAD" && !("refs/" <= a) ==> !ValidRefName(a)
  {
    PartRefused(a, "..", b);
    PartRefused(a, "@{", b);
    PartRefused(a, "//", b);
    if c in "\0\n\r ~^:?*[\\" {
      CharRefused(a, c, b);
    }
    EndRefused(a, "/");
    EndRefused(a, ".");
    EndRefused(a, ".lock");
  }

  predicate PlainChar(c: char) {
    'a' <= c <= 'z' || 'A' <= c <= 'Z' || '0' <= c <= '9' || c == '-' || c == '_'
  }

  lemma NoPart(name: string, part: string)
    requires part != "" && forall i | 0 <= i < |name| :: name[i] != part[0]
    ensures !Contains(name, part) && !EndsWith(name, part)
  {
    forall i | 0 <= i <= |name| ensures !(part <= name[i..]) {
      assert i < |name| ==> name[i..][0] == name[i];
    }
  }

  lemma NoDoubleSlash(name: string)
    requires forall i | 0 <= i < |name| - 1 :: !(name[i] == '/' && name[i + 1] == '/')
    ensures !Contains(name, "//")
  {
    forall i | 0 <= i <= |name| ensures !("//" <= name[i..]) {
      assert i < |name| - 1 ==> name[i..][0] == name[i] && name[i..][1] == name[i + 1];
    }
  }

  lemma PlainIsGood(c: char)
    requires PlainChar(c) || c == '/'
    ensures c !in "\0\n\r ~^:?*[\\" && c != '.' && c != '@'
  {
  }

  /** HEAD is accepted, and every name under refs/ made of plain words with single slashes between. */
  lemma NamesAccepted(name: string)
    requires "refs/" <= name && name[|name| - 1] != '/'
    requires forall i | 0 <= i < |name| :: PlainChar(name[i]) || name[i] == '/'
    requires forall i | 0 <= i < |name| - 1 :: !(name[i] == '/' && name[i + 1] == '/')
    ensures ValidRefName("HEAD") && ValidRefName(name)
  {
    forall i | 0 <= i < |name| ensures name[i] !in "\0\n\r ~^:?*[\\" && name[i] != '.' && name[i] != '@' {
      PlainIsGood(name[i]);
    }
    NoPart(name, "..");
    NoPart(name, "@{");
    NoPart(name, ".");
    NoPart(name, ".lock");
    NoDoubleSlash(name);
    assert name[|name| - 1..] == [name[|name| - 1]];
  }

  lemma OidsAcceptedIff(oid: string)
    ensures ValidOid(oid) <==>
            || (forall i | 0 <= i < |oid| :: oid[i] == '0')
            || ((|oid| == 40 || |oid| == 64) && forall i | 0 <= i < |oid| :: oid[i] in "0123456789abcdefABCDEF")
  {
    forall i | 0 <= i < |oid|
      ensures oid[i] in "0123456789abcdefABCDEF" <==> '0' <= oid[i] <= '9' || 'a' <= oid[i] <= 'f' || 'A' <= oid[i] <= 'F'
    {
      HexChars(oid[i]);
    }
  }

  lemma HexChars(c: char)
    ensures c in "0123456789abcdefABCDEF" <==> '0' <= c <= '9' || 'a' <= c <= 'f' || 'A' <= c <= 'F'
  {
    var digits := "0123456789abcdefABCDEF";
    if '0' <= c <= '9' {
      assert digits[(c - '0') as int] == c;
    } else if 'a' <= c <= 'f' {
      assert digits[10 + (c - 'a') as int] == c;
    } else if 'A' <= c <= 'F' {
      assert digits[16 + (c - 'A') as int] == c;
    }
  }

  /** A symbolic update is for HEAD only and needs a good target; any other needs a good name and
      good ids on both sides. */
  lemma UpdatesRefused(u: RefUpdate)
    ensures u.newSymbolicTarget != "" && u.name != "HEAD" ==> !ValidUpdate(u)
    ensures u.newSymbolicTarget != "" && !ValidRefName(u.newSymbolicTarget) ==> !ValidUpdate(u)
    ensures u.newSymbolicTarget == "" && !(ValidRefName(u.name) && ValidOid(u.oldOid) && ValidOid(u.newOid)) ==> !ValidUpdate(u)
    ensures u.newSymbolicTarget == "" && ValidRefName(u.name) && ValidOid(u.oldOid) && ValidOid(u.newOid) ==> ValidUpdate(u)
    ensures u.name == "HEAD" && u.newSymbolicTarget != "" && ValidRefName(u.newSymbolicTarget) ==> ValidUpdate(u)
  {
  }

  function Overlaid(base: map<string, string>, overlay: map<string, Option<string>>): map<string, string> {
    map n | n in base.Keys + overlay.Keys && (n in overlay ==> overlay[n].Some?) ::
      if n in overlay then overlay[n].value else base[n]
  }

  class RefView {
    const base: Snapshot
    var overlay: map<string, Option<string>>
    var headTarget: Option<string>
    var detachedHead: Option<string>

    ghost predicate Valid()
      reads this
    {
      && Sorted(base.refs)
      && (headTarget.Some? <==> detachedHead.Some?)
      && (HEAD in overlay && overlay[HEAD].Some? ==>
            overlay[HEAD].value != "" && headTarget == Some("") && detachedHead == overlay[HEAD])
    }

    /** HEAD was removed and nothing has set it since; only `Get(HEAD)` notices. */
    predicate HeadRemoved()
      reads this
    {
      HEAD in overlay && overlay[HEAD].None?
    }

    function Target(): string
      reads this
    {
      if headTarget.Some? then headTarget.value else base.headTarget
    }

    /** The refs the view stands for. */
    ghost function State(): RefState
      reads this
    {
      RefState(Overlaid(MapOf(base.refs), overlay - {HEAD}), Target(),
               if detachedHead.Some? then detachedHead.value else base.headOid)
    }

    constructor (base: Snapshot)
      requires Sorted(base.refs)
      ensures Valid() && this.base == base && State() == AsState(base) && !HeadRemoved()
    {
      this.base := base;
      overlay, headTarget, detachedHead := map[], None, None;
      new;
      assert Overlaid(MapOf(base.refs), map[]) == MapOf(base.refs);
    }

    method Get(name: string) returns (r: Option<string>)
      requires Valid() && (name == HEAD && HEAD !in overlay ==> Target() != HEAD)
      ensures r == if name == HEAD && HeadRemoved() then None else Resolve(State(), name)
      decreases if name == HEAD then 2 else 0
    {
      if name in overlay {
        return overlay[name];
      }
      if name == HEAD {
        r := HeadOid();
        return;
      }
      var found, i := Search(base.refs, name);
      SearchIsLookup(base.refs, name, found, i);
      return if found then Some(base.refs[i].oid) else None;
    }

    method HeadOid() returns (r: Option<string>)
      requires Valid() && Target() != HEAD
      ensures r == Resolve(State(), HEAD)
      decreases 1
    {
      var target := Target();
      if target == "" {
        var oid := if detachedHead.Some? then detachedHead.value else base.headOid;
        return if oid == "" then None else Some(oid);
      }
      r := Get(target);
    }

    method SetHeadTarget(target: string)
      requires Valid()
      modifies this
      ensures Valid() && !HeadRemoved()
      ensures State() == old(State()).(headTarget := target, headOid := "")
    {
      headTarget := Some(target);
      detachedHead := Some("");
      overlay := overlay - {HEAD};
      assert overlay - {HEAD} == old(overlay) - {HEAD};
    }

    method Set(name: string, value: string)
      requires Valid() && (name == HEAD ==> value != "")
      modifies this
      ensures Valid() && (HeadRemoved() <==> old(HeadRemoved()) && name != HEAD)
      ensures State() == if name == HEAD then old(State()).(headTarget := "", headOid := value)
                         else old(State()).(refs := old(State()).refs[name := value])
    {
      if name == HEAD {
        headTarget := Some("");
        detachedHead := Some(value);
      }
      overlay := overlay[name := Some(value)];
      OverlaySet(MapOf(base.refs), old(overlay), name, Some(value));
    }

    method Remove(name: string)
      requires Valid()
      modifies this
      ensures Valid() && (HeadRemoved() <==> old(HeadRemoved()) || name == HEAD)
      ensures State() == if name == HEAD then old(State()) else old(State()).(refs := old(State()).refs - {name})
    {
      overlay := overlay[name := None];
      OverlaySet(MapOf(base.refs), old(overlay), name, None);
    }

    /** One update of a transaction, as a view sees it. */
    method Track(u: RefUpdate)
      requires Valid()
      modifies this
      ensures Valid()
      ensures State() == if DeletesHead(u) then old(State()) else ApplyUpdate(old(State()), u)
      ensures HeadRemoved() <==> if u.name == HEAD then DeletesHead(u) else old(HeadRemoved())
    {
      if u.newSymbolicTarget != "" {
        if u.name == HEAD {
          SetHeadTarget(u.newSymbolicTarget);
        }
      } else if IsNull(u.newOid) {
        Remove(u.name);
      } else {
        Set(u.name, u.newOid);
      }
    }
  }

  lemma OverlaySet(base: map<string, string>, overlay: map<string, Option<string>>, name: string, value: Option<string>)
    ensures name == HEAD ==> overlay[name := value] - {HEAD} == overlay - {HEAD}
    ensures name != HEAD ==>
              Overlaid(base, overlay[name := value] - {HEAD}) ==
              if value.Some? then Overlaid(base, overlay - {HEAD})[name := value.value]
              else Overlaid(base, overlay - {HEAD}) - {name}
  {
    if name == HEAD {
      assert overlay[name := value] - {HEAD} == overlay - {HEAD};
    } else {
      assert overlay[name := value] - {HEAD} == (overlay - {HEAD})[name := value];
      OverlaidUpdate(base, overlay - {HEAD}, name, value);
    }
  }

  lemma OverlaidUpdate(base: map<string, string>, overlay: map<string, Option<string>>, name: string, value: Option<string>)
    ensures Overlaid(base, overlay[name := value]) ==
            if value.Some? then Overlaid(base, overlay)[name := value.value] else Overlaid(base, overlay) - {name}
  {
  }

  // ---------------------------------------------------------------------------
  // Patching a sorted snapshot
  // ---------------------------------------------------------------------------

  method PatchSnapshot(base: Snapshot, txns: seq<RefTransaction>) returns (r: Snapshot)
    requires Sorted(base.refs)
    ensures Sorted(r.refs)
    ensures AsState(r) == ApplyUpdates(AsState(base), AllUpdates(txns))
  {
    var refs, headTarget, headOid := base.refs, base.headTarget, base.headOid;
    var updates := AllUpdates(txns);
    for n := 0 to |updates|
      invariant Sorted(refs)
      invariant RefState(MapOf(refs), headTarget, headOid) == ApplyUpdates(AsState(base), updates[..n])
    {
      var u := updates[n];
      assert updates[..n + 1][..n] == updates[..n];
      if u.newSymbolicTarget != "" {
        if u.name == HEAD {
          headTarget, headOid := u.newSymbolicTarget, "";
        }
      } else if u.name == HEAD {
        headTarget, headOid := "", u.newOid;
      } else {
        var found, i := Search(refs, u.name);
        SearchIsLookup(refs, u.name, found, i);
        if !IsNull(u.newOid) {
          PutKeepsSorted(refs, found, i, Ref(u.name, u.newOid));
          PutIsUpdate(refs, found, i, Ref(u.name, u.newOid));
          refs := Put(refs, found, i, Ref(u.name, u.newOid));
        } else if found {
          RemoveKeepsSorted(refs, i);
          RemoveIsDelete(refs, u.name, i);
          refs := RemoveAt(refs, i);
        } else {
          assert MapOf(refs) - {u.name} == MapOf(refs);
        }
      }
    }
    assert updates[..|updates|] == updates;
    return Snapshot(refs, headTarget, headOid);
  }

  /** Sort refs by name, as a parse of the files does. */
  method SortRefs(refs: map<string, string>) returns (r: seq<Ref>)
    ensures Sorted(r) && MapOf(r) == refs
  {
    r := [];
    var left := refs.Keys;
    while left != {}
      invariant left <= refs.Keys && Sorted(r)
      invariant MapOf(r) == refs - left
    {
      var name :| name in left;
      var found, i := Search(r, name);
      PutKeepsSorted(r, found, i, Ref(name, refs[name]));
      PutIsUpdate(r, found, i, Ref(name, refs[name]));
      r := Put(r, found, i, Ref(name, refs[name]));
      assert refs - (left - {name}) == (refs - left)[name := refs[name]];
      left := left - {name};
    }
    assert refs - {} == refs;
  }

  // ---------------------------------------------------------------------------
  // Names and HEAD are independent
  // ---------------------------------------------------------------------------

  predicate WritesHead(u: RefUpdate) {
    u.newSymbolicTarget != "" || u.name == HEAD
  }

  function Commands(updates: seq<RefUpdate>): seq<RefUpdate> {
    if updates == [] then []
    else
      var last := updates[|updates| - 1];
      Commands(updates[..|updates| - 1]) + (if WritesHead(last) then [] else [last])
  }

  function HeadWrites(updates: seq<RefUpdate>): seq<RefUpdate> {
    if updates == [] then []
    else
      var last := updates[|updates| - 1];
      HeadWrites(updates[..|updates| - 1]) + (if WritesHead(last) then [last] else [])
  }

  lemma {:induction false} CommandsKeepHead(s: RefState, updates: seq<RefUpdate>)
    ensures var t := ApplyUpdates(s, Commands(updates));
            t == ApplyUpdates(s, updates).(headTarget := s.headTarget, headOid := s.headOid)
    decreases |updates|
  {
    if updates != [] {
      var init, last := updates[..|updates| - 1], updates[|updates| - 1];
      CommandsKeepHead(s, init);
      if WritesHead(last) {
        assert Commands(updates) == Commands(init) + [] == Commands(init);
        HeadUpdateKeepsRefs(ApplyUpdates(s, init), last);
      } else {
        UpdatesOneMore(s, Commands(init), last);
        RefUpdateKeepsHead(ApplyUpdates(s, init), s.headTarget, s.headOid, last);
      }
    }
  }

  lemma UpdatesOneMore(s: RefState, updates: seq<RefUpdate>, u: RefUpdate)
    ensures ApplyUpdates(s, updates + [u]) == ApplyUpdate(ApplyUpdates(s, updates), u)
  {
    assert (updates + [u])[..|updates|] == updates;
  }

  lemma HeadUpdateKeepsRefs(x: RefState, u: RefUpdate)
    requires WritesHead(u)
    ensures ApplyUpdate(x, u).refs == x.refs
  {
  }

  lemma RefUpdateKeepsHead(x: RefState, target: string, oid: string, u: RefUpdate)
    requires !WritesHead(u)
    ensures ApplyUpdate(x.(headTarget := target, headOid := oid), u) == ApplyUpdate(x, u).(headTarget := target, headOid := oid)
  {
  }

  lemma HeadStep(x: RefState, refs: map<string, string>, u: RefUpdate)
    ensures ApplyUpdate(x, u).(refs := refs) == if WritesHead(u) then ApplyUpdate(x.(refs := refs), u) else x.(refs := refs)
  {
  }

  lemma {:induction false} HeadWritesKeepRefs(s: RefState, t: RefState, updates: seq<RefUpdate>)
    requires s.headTarget == t.headTarget && s.headOid == t.headOid
    ensures ApplyUpdates(t, HeadWrites(updates)) == ApplyUpdates(s, updates).(refs := t.refs)
    decreases |updates|
  {
    if updates != [] {
      var init, last := updates[..|updates| - 1], updates[|updates| - 1];
      HeadWritesKeepRefs(s, t, init);
      HeadStep(ApplyUpdates(s, init), t.refs, last);
      var before := HeadWrites(init);
      if WritesHead(last) {
        assert HeadWrites(updates) == before + [last] && (before + [last])[..|before|] == before;
      } else {
        assert HeadWrites(updates) == before;
      }
    }
  }

  /** Refs first through one git command, HEAD afterwards: the same as the updates in order. */
  lemma RefsThenHead(s: RefState, updates: seq<RefUpdate>)
    ensures ApplyUpdates(ApplyUpdates(s, Commands(updates)), HeadWrites(updates)) == ApplyUpdates(s, updates)
  {
    CommandsKeepHead(s, updates);
    HeadWritesKeepRefs(s, ApplyUpdates(s, Commands(updates)), updates);
  }

  // ---------------------------------------------------------------------------
  // The repository
  // ---------------------------------------------------------------------------

  /** A snapshot, the generation it belongs to, and the transactions applied since. */
  datatype Cached = Cached(key: nat, data: Snapshot, pending: seq<RefTransaction>)

  function Folded(c: Cached): RefState {
    ApplyUpdates(AsState(c.data), AllUpdates(c.pending))
  }

  function TrimZeros(oid: string): string {
    if oid != "" && oid[0] == '0' then TrimZeros(oid[1..]) else oid
  }

  function ValueOf(s: RefState, name: string): string {
    var value := Resolve(s, name);
    if value.Some? then value.value else ""
  }

  /** The old value an update claims, up to leading zeros; symbolic updates claim nothing. */
  function Zeros(n: nat): (z: string)
    ensures |z| == n && forall i | 0 <= i < n :: z[i] == '0'
  {
    seq(n, i => '0')
  }

  /** One is the other with zeros in front. */
  predicate SameId(a: string, b: string) {
    if |a| <= |b| then b == Zeros(|b| - |a|) + a else a == Zeros(|a| - |b|) + b
  }

  lemma {:induction false} TrimsSplit(oid: string)
    ensures |TrimZeros(oid)| <= |oid| && oid == Zeros(|oid| - |TrimZeros(oid)|) + TrimZeros(oid)
    ensures TrimZeros(oid) != "" ==> TrimZeros(oid)[0] != '0'
    decreases |oid|
  {
    if oid != "" && oid[0] == '0' {
      TrimsSplit(oid[1..]);
      var rest := TrimZeros(oid);
      assert oid == [oid[0]] + oid[1..];
      assert Zeros(|oid| - |rest|) == ['0'] + Zeros(|oid| - 1 - |rest|);
    }
  }

  lemma {:induction false} TrimsZeros(n: nat, oid: string)
    ensures TrimZeros(Zeros(n) + oid) == TrimZeros(oid)
    decreases n
  {
    if n == 0 {
      assert Zeros(0) + oid == oid;
    } else {
      assert (Zeros(n) + oid)[1..] == Zeros(n - 1) + oid;
      TrimsZeros(n - 1, oid);
    }
  }

  lemma PaddedIsSame(a: string, b: string)
    requires |a| <= |b| && TrimZeros(a) == TrimZeros(b)
    ensures b == Zeros(|b| - |a|) + a
  {
    TrimsSplit(a);
    TrimsSplit(b);
    ZerosJoin(|b| - |a|, |a| - |TrimZeros(a)|, TrimZeros(a));
  }

  /** Comparing after leading zeros are dropped, said without dropping them. */
  lemma SameIdIff(a: string, b: string)
    ensures TrimZeros(a) == TrimZeros(b) <==> SameId(a, b)
  {
    if |a| <= |b| {
      TrimsZeros(|b| - |a|, a);
    } else {
      TrimsZeros(|a| - |b|, b);
    }
    if TrimZeros(a) == TrimZeros(b) {
      if |a| <= |b| {
        PaddedIsSame(a, b);
      } else {
        PaddedIsSame(b, a);
      }
    }
  }

  lemma ZerosJoin(n: nat, k: nat, rest: string)
    ensures Zeros(n) + (Zeros(k) + rest) == Zeros(n + k) + rest
  {
    assert Zeros(n) + Zeros(k) == Zeros(n + k);
  }

  /** Ids of one length count as the same only if they are. */
  lemma SameLengthSameId(a: string, b: string)
    requires |a| == |b|
    ensures SameId(a, b) <==> a == b
  {
    assert Zeros(0) + a == a;
  }

  lemma NullIsNothing(oid: string)
    requires IsNull(oid)
    ensures forall other :: SameId(other, oid) <==> SameId(other, "")
  {
    forall other ensures SameId(other, oid) <==> SameId(other, "") {
      NullTrims(oid);
      SameIdIff(other, oid);
      SameIdIff(other, "");
    }
  }

  predicate OldMatches(s: RefState, u: RefUpdate) {
    u.newSymbolicTarget != "" || SameId(u.oldOid, ValueOf(s, u.name))
  }

  predicate AllOldMatch(s: RefState, updates: seq<RefUpdate>) {
    forall i | 0 <= i < |updates| :: OldMatches(s, updates[i])
  }

  /** Some update is wrong about its ref: another value of the same length, none where there is one,
      or one where there is none. */
  ghost predicate Stale(s: RefState, updates: seq<RefUpdate>) {
    exists u :: u in updates && u.newSymbolicTarget == "" && u.name != HEAD && WrongOld(s, u)
  }

  predicate WrongOld(s: RefState, u: RefUpdate) {
    if u.name in s.refs then
      || (|u.oldOid| == |s.refs[u.name]| && u.oldOid != s.refs[u.name])
      || ((forall i | 0 <= i < |u.oldOid| :: u.oldOid[i] == '0') && exists i | 0 <= i < |s.refs[u.name]| :: s.refs[u.name][i] != '0')
    else exists i | 0 <= i < |u.oldOid| :: u.oldOid[i] != '0'
  }

  lemma NothingOrNull(oid: string)
    ensures SameId(oid, "") <==> forall i | 0 <= i < |oid| :: oid[i] == '0'
  {
  }

  lemma WrongIsNoMatch(s: RefState, u: RefUpdate)
    requires u.newSymbolicTarget == "" && u.name != HEAD && WrongOld(s, u)
    ensures !OldMatches(s, u)
  {
    if u.name in s.refs {
      if |u.oldOid| == |s.refs[u.name]| {
        SameLengthSameId(u.oldOid, s.refs[u.name]);
      } else {
        SameIdIff(u.oldOid, s.refs[u.name]);
        NullTrims(u.oldOid);
        SameIdIff(s.refs[u.name], "");
        NothingOrNull(s.refs[u.name]);
      }
    } else {
      NothingOrNull(u.oldOid);
    }
  }

  lemma MatchingIsExact(s: RefState, updates: seq<RefUpdate>)
    ensures AllOldMatch(s, updates) ==> !Stale(s, updates)
  {
    if u :| u in updates && u.newSymbolicTarget == "" && u.name != HEAD && WrongOld(s, u) {
      var i :| 0 <= i < |updates| && updates[i] == u;
      WrongIsNoMatch(s, updates[i]);
    }
  }

  lemma UpdatesSnoc(base: RefState, txns: seq<RefTransaction>, txn: RefTransaction)
    ensures ApplyUpdates(base, AllUpdates(txns + [txn])) == ApplyUpdates(ApplyUpdates(base, AllUpdates(txns)), txn.updates)
    ensures Headless(false, AllUpdates(txns + [txn])) == Headless(Headless(false, AllUpdates(txns)), txn.updates)
  {
    assert (txns + [txn])[..|txns|] == txns;
    UpdatesCompose(base, AllUpdates(txns), txn.updates);
    HeadlessConcat(false, AllUpdates(txns), txn.updates);
  }

  lemma {:induction false} HeadlessConcat(before: bool, a: seq<RefUpdate>, b: seq<RefUpdate>)
    ensures Headless(before, a + b) == Headless(Headless(before, a), b)
    decreases |b|
  {
    if b == [] {
      assert a + b == a;
    } else {
      assert (a + b)[..|a + b| - 1] == a + b[..|b| - 1];
      HeadlessConcat(before, a, b[..|b| - 1]);
    }
  }

  lemma FoldedSnoc(c: Cached, key: nat, txn: RefTransaction)
    ensures Folded(Cached(key, c.data, c.pending + [txn])) == ApplyUpdates(Folded(c), txn.updates)
  {
    UpdatesSnoc(AsState(c.data), c.pending, txn);
  }

  /** What a view must show of `s`: everything, except that after HEAD was deleted it may go on
      resolving what HEAD was before. */
  predicate Shown(view: RefState, removed: bool, s: RefState) {
    && view.refs == s.refs
    && (if removed then s.headTarget == "" && IsNull(s.headOid) else view == s)
  }

  lemma ShownStep(view: RefState, removed: bool, s: RefState, u: RefUpdate)
    requires Shown(view, removed, s)
    ensures Shown(if DeletesHead(u) then view else ApplyUpdate(view, u), if u.name == HEAD then DeletesHead(u) else removed, ApplyUpdate(s, u))
  {
  }

  /** What a view answers for a name, "" if nothing. */
  function ShownValue(view: RefState, removed: bool, name: string): string {
    if name == HEAD && removed then "" else ValueOf(view, name)
  }

  predicate OldShown(view: RefState, removed: bool, u: RefUpdate) {
    u.newSymbolicTarget != "" || SameId(u.oldOid, ShownValue(view, removed, u.name))
  }

  predicate AllOldShown(view: RefState, removed: bool, updates: seq<RefUpdate>) {
    forall i | 0 <= i < |updates| :: OldShown(view, removed, updates[i])
  }

  lemma {:induction false} NullTrims(oid: string)
    requires IsNull(oid)
    ensures TrimZeros(oid) == ""
    decreases |oid|
  {
    if oid != "" {
      NullTrims(oid[1..]);
    }
  }

  /** Even a view whose HEAD was removed compares old values as the refs on disk would. */
  lemma ShownOldIff(view: RefState, removed: bool, s: RefState, updates: seq<RefUpdate>)
    requires Shown(view, removed, s)
    ensures AllOldShown(view, removed, updates) <==> AllOldMatch(s, updates)
  {
    forall i | 0 <= i < |updates| ensures OldShown(view, removed, updates[i]) <==> OldMatches(s, updates[i]) {
      if removed {
        NullIsNothing(s.headOid);
      }
    }
  }

  class LocalRepo {
    var disk: RefState
    var generation: nat
    var cache: Option<Cached>
    var parses: nat

    predicate Current()
      reads this
    {
      cache.Some? && cache.value.key == generation
    }

    /** The cache never lies: whenever its key is current, its snapshot with the pending
        transactions folded in is what is on disk. */
    ghost predicate Valid()
      reads this
    {
      && (cache.Some? ==> cache.value.key <= generation && Sorted(cache.value.data.refs))
      && (Current() ==> Folded(cache.value) == disk)
    }

    constructor (disk: RefState)
      ensures Valid() && this.disk == disk && !Current()
    {
      this.disk, generation, cache, parses := disk, 0, None, 0;
    }

    method RefsArc() returns (data: Snapshot)
      requires Valid()
      modifies this`cache, this`parses
      ensures Valid() && Current() && cache.value == Cached(generation, data, [])
      ensures Sorted(data.refs) && AsState(data) == disk
      ensures parses == old(parses) + if old(Current()) then 0 else 1
    {
      if cache.Some? && cache.value.key == generation {
        var c := cache.value;
        if c.pending != [] {
          var patched := PatchSnapshot(c.data, c.pending);
          cache := Some(Cached(c.key, patched, []));
        }
        data := cache.value.data;
      } else {
        var refs := SortRefs(disk.refs);
        data := Snapshot(refs, disk.headTarget, disk.headOid);
        parses := parses + 1;
        cache := Some(Cached(generation, data, []));
      }
    }

    method View() returns (view: RefView)
      requires Valid()
      modifies this`cache, this`parses
      ensures Valid() && fresh(view) && view.Valid()
      ensures Shown(view.State(), view.HeadRemoved(), disk)
      ensures view.HeadRemoved() <==> old(Current() && Headless(false, AllUpdates(cache.value.pending)))
      ensures old(Current()) ==> cache == old(cache) && parses == old(parses)
      ensures Current()
    {
      if cache.None? || cache.value.key != generation {
        var data := RefsArc();
        view := new RefView(data);
        return;
      }
      var c := cache.value;
      view := new RefView(c.data);
      for i := 0 to |c.pending|
        invariant fresh(view) && view.Valid()
        invariant Shown(view.State(), view.HeadRemoved(), ApplyUpdates(AsState(c.data), AllUpdates(c.pending[..i])))
        invariant view.HeadRemoved() <==> Headless(false, AllUpdates(c.pending[..i]))
        modifies view
      {
        assert c.pending[..i + 1] == c.pending[..i] + [c.pending[i]];
        UpdatesSnoc(AsState(c.data), c.pending[..i], c.pending[i]);
        ViewTransaction(view, c.pending[i].updates, ApplyUpdates(AsState(c.data), AllUpdates(c.pending[..i])));
      }
      assert c.pending[..|c.pending|] == c.pending;
    }

    method CheckFirst(updates: seq<RefUpdate>, checkOld: bool) returns (r: Result<(), GitError>)
      requires Valid() && (checkOld ==> disk.headTarget != HEAD)
      modifies this`cache, this`parses
      ensures Valid() && (old(Current()) ==> cache == old(cache) && parses == old(parses))
      ensures r.Ok? <==> AllValid(updates) && (checkOld ==> AllOldMatch(disk, updates))
      ensures !AllValid(updates) ==> r == Err(InvalidInput)
      ensures AllValid(updates) && r.Err? ==> r.error.RefConflict?
    {
      var valid := CheckUpdates(updates);
      if !valid {
        return Err(InvalidInput);
      }
      if checkOld {
        var view := View();
        ShownOldIff(view.State(), view.HeadRemoved(), disk, updates);
        var conflict := CheckOldValues(view, updates);
        if conflict.Some? {
          return Err(conflict.value);
        }
      }
      return Ok(());
    }

    /** Refs through git, which makes all the updates or none, then HEAD. */
    method WriteRefs(updates: seq<RefUpdate>, gitOk: bool) returns (ok: bool)
      modifies this`disk
      ensures ok <==> Commands(updates) == [] || gitOk
      ensures disk == if ok then ApplyUpdates(old(disk), updates) else old(disk)
    {
      var commands, headWrites := Commands(updates), HeadWrites(updates);
      if commands != [] {
        if !gitOk {
          return false;
        }
        disk := ApplyUpdates(disk, commands);
      }
      ghost var committed := disk;
      for i := 0 to |headWrites|
        invariant disk == ApplyUpdates(committed, headWrites[..i])
      {
        assert headWrites[..i + 1][..i] == headWrites[..i];
        HeadWritesOnly(updates, i);
        var u := headWrites[i];
        disk := if u.newSymbolicTarget == "" then disk.(headTarget := "", headOid := u.newOid)
                else if u.name == HEAD then disk.(headTarget := u.newSymbolicTarget, headOid := "")
                else disk;
      }
      assert headWrites[..|headWrites|] == headWrites;
      RefsThenHead(old(disk), updates);
      return true;
    }

    /** Apply one transaction. `gitOk` is git's verdict on the ref updates; it is not asked when
        only HEAD changes. A current cache stays current: the transaction is added to its list. */
    method ApplyRefTxn(txn: RefTransaction, checkOld: bool, gitOk: bool) returns (r: Result<(), GitError>)
      requires Valid() && (checkOld ==> disk.headTarget != HEAD)
      modifies this
      ensures Valid()
      ensures r.Ok? <==> AllValid(txn.updates) && (checkOld ==> AllOldMatch(old(disk), txn.updates))
                         && (Commands(txn.updates) == [] || gitOk)
      ensures disk == if r.Ok? then ApplyUpdates(old(disk), txn.updates) else old(disk)
      ensures !AllValid(txn.updates) <==> r == Err(InvalidInput)
      ensures r.Err? && r.error.RefConflict? <==> AllValid(txn.updates) && checkOld && !AllOldMatch(old(disk), txn.updates)
      ensures AllValid(txn.updates) && checkOld && Stale(old(disk), txn.updates) ==> r.Err? && r.error.RefConflict?
      ensures old(Current()) ==> Current() && parses == old(parses)
    {
      var before := if cache.Some? && cache.value.key == generation then cache else None;
      MatchingIsExact(disk, txn.updates);
      r := CheckFirst(txn.updates, checkOld);
      if r.Err? {
        return;
      }
      var written := WriteRefs(txn.updates, gitOk);
      if !written {
        return Err(Subprocess);
      }
      generation := generation + 1;
      generation := generation + 1;
      if before.Some? {
        FoldedSnoc(before.value, generation, txn);
        cache := Some(Cached(generation, before.value.data, before.value.pending + [txn]));
      }
    }

    /** Replace every ref, and HEAD if the snapshot has one. An invalid detached HEAD is noticed
        only after the refs are replaced. */
    method LoadRefSnapshot(snapshot: RefState) returns (r: Result<(), GitError>)
      requires Valid()
      modifies this
      ensures Valid() && !Current()
      ensures r.Ok? <==> snapshot.headTarget != "" || ValidOid(snapshot.headOid)
      ensures disk == if r.Ok? then LoadSnapshot(old(disk), snapshot) else old(disk).(refs := snapshot.refs)
      ensures parses == old(parses)
    {
      generation := generation + 1;
      disk := disk.(refs := snapshot.refs);
      if snapshot.headTarget != "" {
        disk := disk.(headTarget := snapshot.headTarget, headOid := "");
      }
      if snapshot.headTarget == "" && snapshot.headOid != "" {
        if !ValidOid(snapshot.headOid) {
          return Err(InvalidInput);
        }
        disk := disk.(headTarget := "", headOid := snapshot.headOid);
      }
      generation := generation + 1;
      return Ok(());
    }

    /** Merge committed transactions into the refs and rewrite them in one go. */
    method ApplyRefTxnsOffline(txns: seq<RefTransaction>) returns (r: Result<(), GitError>)
      requires Valid()
      modifies this
      ensures Valid()
      ensures var merged := ApplyUpdates(old(disk), AllUpdates(txns));
              && (r.Ok? <==> AllValid(AllUpdates(txns)) && (merged.headTarget != "" || ValidOid(merged.headOid)))
              && disk == if r.Ok? then LoadSnapshot(old(disk), merged)
                         else if AllValid(AllUpdates(txns)) then old(disk).(refs := merged.refs) else old(disk)
      ensures ValidOid(old(disk).headOid) ==> (r.Ok? <==> AllValid(AllUpdates(txns)))
      ensures r.Ok? && HasHead(ApplyUpdates(old(disk), AllUpdates(txns))) ==> disk == ApplyUpdates(old(disk), AllUpdates(txns))
    {
      var data := RefsArc();
      var merged := MergeUpdates(data, AllUpdates(txns));
      if merged.Err? {
        return Err(merged.error);
      }
      if ValidOid(disk.headOid) {
        HeadOidStaysValid(disk, AllUpdates(txns));
      }
      r := LoadRefSnapshot(merged.value);
    }
  }

  method MergeUpdates(data: Snapshot, updates: seq<RefUpdate>) returns (r: Result<RefState, GitError>)
    ensures r.Ok? <==> AllValid(updates)
    ensures r.Ok? ==> r.value == ApplyUpdates(AsState(data), updates)
  {
    var s := AsState(data);
    for i := 0 to |updates|
      invariant AllValid(updates[..i])
      invariant s == ApplyUpdates(AsState(data), updates[..i])
    {
      OneMoreUpdate(AsState(data), updates, i);
      var merged := MergeValid(s, updates[i]);
      if merged.None? {
        return Err(InvalidInput);
      }
      s := merged.value;
    }
    assert updates[..|updates|] == updates;
    return Ok(s);
  }

  lemma OneMoreUpdate(s: RefState, updates: seq<RefUpdate>, i: nat)
    requires i < |updates|
    ensures ApplyUpdates(s, updates[..i + 1]) == ApplyUpdate(ApplyUpdates(s, updates[..i]), updates[i])
    ensures AllValid(updates[..i + 1]) <==> AllValid(updates[..i]) && ValidUpdate(updates[i])
    ensures !ValidUpdate(updates[i]) ==> !AllValid(updates)
  {
    var fewer, more := updates[..i], updates[..i + 1];
    assert more[..i] == fewer;
    if AllValid(more) {
      assert ValidUpdate(more[i]);
      forall k | 0 <= k < |fewer| ensures ValidUpdate(fewer[k]) {
        assert fewer[k] == more[k];
      }
    }
    if AllValid(fewer) && ValidUpdate(updates[i]) {
      forall k | 0 <= k < |more| ensures ValidUpdate(more[k]) {
        assert k < i ==> fewer[k] == more[k];
      }
    }
  }

  method MergeValid(s: RefState, u: RefUpdate) returns (r: Option<RefState>)
    ensures r.Some? <==> ValidUpdate(u)
    ensures r.Some? ==> r.value == ApplyUpdate(s, u)
  {
    if !ValidUpdate(u) {
      return None;
    }
    var t := Merge(s, u);
    return Some(t);
  }

  method Merge(s: RefState, u: RefUpdate) returns (t: RefState)
    ensures t == ApplyUpdate(s, u)
  {
    var refs, headTarget, headOid := s.refs, s.headTarget, s.headOid;
    if u.newSymbolicTarget != "" {
      if u.name == HEAD {
        headTarget, headOid := u.newSymbolicTarget, "";
      }
    } else if u.name == HEAD {
      headTarget, headOid := "", u.newOid;
    } else if IsNull(u.newOid) {
      refs := refs - {u.name};
    } else {
      refs := refs[u.name := u.newOid];
    }
    return RefState(refs, headTarget, headOid);
  }

  lemma {:induction false} HeadOidStaysValid(s: RefState, updates: seq<RefUpdate>)
    requires AllValid(updates) && ValidOid(s.headOid)
    ensures ValidOid(ApplyUpdates(s, updates).headOid)
    decreases |updates|
  {
    if updates != [] {
      HeadOidStaysValid(s, updates[..|updates| - 1]);
      assert ValidUpdate(updates[|updates| - 1]);
    }
  }

  method CheckUpdates(updates: seq<RefUpdate>) returns (ok: bool)
    ensures ok == AllValid(updates)
  {
    for i := 0 to |updates|
      invariant AllValid(updates[..i])
    {
      if !ValidUpdate(updates[i]) {
        return false;
      }
    }
    return true;
  }

  method CheckOldValue(view: RefView, u: RefUpdate) returns (conflict: Option<GitError>)
    requires view.Valid() && (!view.HeadRemoved() ==> view.Target() != HEAD)
    ensures conflict.None? <==> OldShown(view.State(), view.HeadRemoved(), u)
    ensures conflict.Some? ==> conflict.value == RefConflict(u.name, u.oldOid, ShownValue(view.State(), view.HeadRemoved(), u.name))
  {
    if u.newSymbolicTarget != "" {
      return None;
    }
    var value := view.Get(u.name);
    var current := if value.Some? then value.value else "";
    var oldOid, cur := TrimZeros(u.oldOid), TrimZeros(current);
    SameIdIff(u.oldOid, current);
    if oldOid == "" {
      return if cur != "" then Some(RefConflict(u.name, u.oldOid, current)) else None;
    }
    return if oldOid != cur then Some(RefConflict(u.name, u.oldOid, current)) else None;
  }

  /** Update `i` is the first whose old value is not the one shown, and `error` says so. */
  predicate FirstConflict(view: RefState, removed: bool, updates: seq<RefUpdate>, i: nat, error: GitError) {
    && i < |updates| && !OldShown(view, removed, updates[i]) && AllOldShown(view, removed, updates[..i])
    && error == RefConflict(updates[i].name, updates[i].oldOid, ShownValue(view, removed, updates[i].name))
  }

  lemma OneMoreShown(view: RefState, removed: bool, updates: seq<RefUpdate>, i: nat)
    requires i < |updates| && AllOldShown(view, removed, updates[..i]) && OldShown(view, removed, updates[i])
    ensures AllOldShown(view, removed, updates[..i + 1])
  {
    assert updates[..i + 1] == updates[..i] + [updates[i]];
  }

  method CheckOldValues(view: RefView, updates: seq<RefUpdate>) returns (conflict: Option<GitError>)
    requires view.Valid() && (!view.HeadRemoved() ==> view.Target() != HEAD)
    ensures conflict.None? <==> AllOldShown(view.State(), view.HeadRemoved(), updates)
    ensures conflict.Some? ==> exists i: nat :: FirstConflict(view.State(), view.HeadRemoved(), updates, i, conflict.value)
  {
    for i := 0 to |updates|
      invariant AllOldShown(view.State(), view.HeadRemoved(), updates[..i])
    {
      var conflicting := CheckOldValue(view, updates[i]);
      if conflicting.Some? {
        assert FirstConflict(view.State(), view.HeadRemoved(), updates, i, conflicting.value);
        return conflicting;
      }
      OneMoreShown(view.State(), view.HeadRemoved(), updates, i);
    }
    assert updates[..|updates|] == updates;
    return None;
  }

  lemma {:induction false} HeadWritesOnly(updates: seq<RefUpdate>, i: nat)
    requires i < |HeadWrites(updates)|
    ensures WritesHead(HeadWrites(updates)[i])
    decreases |updates|
  {
    if i < |HeadWrites(updates[..|updates| - 1])| {
      HeadWritesOnly(updates[..|updates| - 1], i);
    }
  }

  method ViewTransaction(view: RefView, updates: seq<RefUpdate>, ghost s: RefState)
    requires view.Valid() && Shown(view.State(), view.HeadRemoved(), s)
    modifies view
    ensures view.Valid() && Shown(view.State(), view.HeadRemoved(), ApplyUpdates(s, updates))
    ensures view.HeadRemoved() <==> Headless(old(view.HeadRemoved()), updates)
  {
    for i := 0 to |updates|
      invariant view.Valid() && Shown(view.State(), view.HeadRemoved(), ApplyUpdates(s, updates[..i]))
      invariant view.HeadRemoved() <==> Headless(old(view.HeadRemoved()), updates[..i])
    {
      assert updates[..i + 1][..i] == updates[..i];
      ShownStep(view.State(), view.HeadRemoved(), ApplyUpdates(s, updates[..i]), updates[i]);
      view.Track(updates[i]);
    }
    assert updates[..|updates|] == updates;
  }

  // ---------------------------------------------------------------------------
  // What a deleted HEAD looks like
  // ---------------------------------------------------------------------------

  /** After a transaction that deletes a detached HEAD, a view reports no HEAD but still resolves
      it to the old object, while on disk HEAD is empty. */
  method HeadDeletionSplitsTheCaches() returns (reported: Option<string>, resolved: Option<string>, onDisk: Option<string>)
    ensures reported == None && resolved == Some("1") && onDisk == None
  {
    var base := Snapshot([], "", "1");
    var u := RefUpdate(HEAD, "1", "", "");
    var view := new RefView(base);
    view.Track(u);
    reported := view.Get(HEAD);
    resolved := view.HeadOid();
    onDisk := Resolve(ApplyUpdate(AsState(base), u), HEAD);
  }
}
