/** Byte-wise order of ref names, and vectors sorted by name. */
module Names {
  import opened Prelude

  predicate Less(a: string, b: string)
    decreases |a|
  {
    if b == "" then false
    else if a == "" then true
    else if a[0] == b[0] then Less(a[1..], b[1..])
    else a[0] < b[0]
  }

  /** Byte order: at the first place where the names differ the lesser has the lesser byte, or it
      ends there. */
  predicate DiffersBelow(a: string, b: string, k: nat) {
    && k <= |a| && k < |b| && (forall i | 0 <= i < k :: a[i] == b[i])
    && (k == |a| || a[k] < b[k])
  }

  lemma {:induction false} LessIff(a: string, b: string)
    ensures Less(a, b) <==> exists k: nat :: DiffersBelow(a, b, k)
    decreases |a|
  {
    if a == "" || b == "" || a[0] != b[0] {
      assert Less(a, b) ==> DiffersBelow(a, b, 0);
    } else {
      LessIff(a[1..], b[1..]);
      if k: nat :| DiffersBelow(a[1..], b[1..], k) {
        forall i | 0 <= i < k + 1 ensures a[i] == b[i] {
          assert i > 0 ==> a[i] == a[1..][i - 1] && b[i] == b[1..][i - 1];
        }
        assert DiffersBelow(a, b, k + 1);
      }
      if k: nat :| DiffersBelow(a, b, k) {
        assert k > 0 && DiffersBelow(a[1..], b[1..], k - 1);
      }
    }
  }

  lemma {:induction false} LessTrichotomy(a: string, b: string)
    ensures Less(a, b) ==> !Less(b, a) && a != b
    ensures !Less(a, b) && !Less(b, a) ==> a == b
    decreases |a|
  {
    if a != "" && b != "" && a[0] == b[0] {
      LessTrichotomy(a[1..], b[1..]);
      assert a == [a[0]] + a[1..] && b == [b[0]] + b[1..];
    }
  }

  lemma {:induction false} LessTransitive(a: string, b: string, c: string)
    requires Less(a, b) && Less(b, c)
    ensures Less(a, c)
    decreases |a|
  {
    if a != "" && a[0] == b[0] == c[0] {
      LessTransitive(a[1..], b[1..], c[1..]);
    }
  }

  datatype Ref = Ref(name: string, oid: string)

  /** Sorted by name, each name once. */
  predicate Sorted(refs: seq<Ref>) {
    forall i, j | 0 <= i < j < |refs| :: Less(refs[i].name, refs[j].name)
  }

  /** Where `name` is, or where it belongs. */
  predicate IsPosition(refs: seq<Ref>, name: string, found: bool, i: nat) {
    && i <= |refs|
    && (forall k | 0 <= k < i :: Less(refs[k].name, name))
    && (if found then i < |refs| && refs[i].name == name else forall k | i <= k < |refs| :: Less(name, refs[k].name))
  }

  method Search(refs: seq<Ref>, name: string) returns (found: bool, i: nat)
    requires Sorted(refs)
    ensures IsPosition(refs, name, found, i)
  {
    var lo, hi := 0, |refs|;
    while lo < hi
      invariant 0 <= lo <= hi <= |refs|
      invariant forall k | 0 <= k < lo :: Less(refs[k].name, name)
      invariant forall k | hi <= k < |refs| :: Less(name, refs[k].name)
    {
      var mid := lo + (hi - lo) / 2;
      if refs[mid].name == name {
        forall k | 0 <= k < mid ensures Less(refs[k].name, name) {
        }
        return true, mid;
      } else if Less(refs[mid].name, name) {
        forall k | 0 <= k < mid ensures Less(refs[k].name, name) {
          LessTransitive(refs[k].name, refs[mid].name, name);
        }
        lo := mid + 1;
      } else {
        LessTrichotomy(refs[mid].name, name);
        forall k | mid < k < |refs| ensures Less(name, refs[k].name) {
          LessTransitive(name, refs[mid].name, refs[k].name);
        }
        hi := mid;
      }
    }
    return false, lo;
  }

  // ---------------------------------------------------------------------------
  // Sorted vectors as maps
  // ---------------------------------------------------------------------------

  function MapOf(refs: seq<Ref>): map<string, string> {
    if refs == [] then map[]
    else MapOf(refs[..|refs| - 1])[refs[|refs| - 1].name := refs[|refs| - 1].oid]
  }

  lemma {:induction false} MapOfConcat(a: seq<Ref>, b: seq<Ref>)
    ensures MapOf(a + b) == MapOf(a) + MapOf(b)
    decreases |b|
  {
    if b == [] {
      assert a + b == a;
    } else {
      assert (a + b)[..|a + b| - 1] == a + b[..|b| - 1];
      MapOfConcat(a, b[..|b| - 1]);
    }
  }

  lemma {:induction false} NotThere(refs: seq<Ref>, name: string)
    requires forall k | 0 <= k < |refs| :: refs[k].name != name
    ensures name !in MapOf(refs)
    decreases |refs|
  {
    if refs != [] {
      NotThere(refs[..|refs| - 1], name);
    }
  }

  /** A sorted vector around a position: the name is neither before nor after it. */
  lemma AroundPosition(refs: seq<Ref>, name: string, found: bool, i: nat)
    requires Sorted(refs) && IsPosition(refs, name, found, i)
    ensures name !in MapOf(refs[..i])
    ensures name !in MapOf(refs[if found then i + 1 else i..])
  {
    var left, right := refs[..i], refs[if found then i + 1 else i..];
    forall k | 0 <= k < |left| ensures left[k].name != name {
      LessTrichotomy(left[k].name, name);
    }
    forall k | 0 <= k < |right| ensures right[k].name != name {
      LessTrichotomy(name, right[k].name);
    }
    NotThere(left, name);
    NotThere(right, name);
  }

  lemma MapAround(left: seq<Ref>, r: Ref, right: seq<Ref>)
    ensures MapOf(left + [r] + right) == MapOf(left)[r.name := r.oid] + MapOf(right)
  {
    assert [r][..0] == [];
    MapOfConcat(left, [r]);
    MapOfConcat(left + [r], right);
  }

  /** The entry found by a search is the map's entry. */
  lemma SearchIsLookup(refs: seq<Ref>, name: string, found: bool, i: nat)
    requires Sorted(refs) && IsPosition(refs, name, found, i)
    ensures found <==> name in MapOf(refs)
    ensures found ==> MapOf(refs)[name] == refs[i].oid
  {
    AroundPosition(refs, name, found, i);
    if found {
      CutOut(refs, i);
      MapAround(refs[..i], refs[i], refs[i + 1..]);
    } else {
      CutAt(refs, i);
      MapOfConcat(refs[..i], refs[i..]);
    }
  }

  lemma CutOut(refs: seq<Ref>, i: nat)
    requires i < |refs|
    ensures refs == refs[..i] + [refs[i]] + refs[i + 1..]
  {
  }

  lemma CutAt(refs: seq<Ref>, i: nat)
    requires i <= |refs|
    ensures refs == refs[..i] + refs[i..]
  {
  }

  /** Replace the entry at its position, or insert it there. */
  function Put(refs: seq<Ref>, found: bool, i: nat, r: Ref): seq<Ref>
    requires IsPosition(refs, r.name, found, i)
  {
    if found then refs[i := r] else refs[..i] + [r] + refs[i..]
  }

  lemma PutKeepsSorted(refs: seq<Ref>, found: bool, i: nat, r: Ref)
    requires Sorted(refs) && IsPosition(refs, r.name, found, i)
    ensures Sorted(Put(refs, found, i, r))
  {
    var after := Put(refs, found, i, r);
    if !found {
      forall j, k | 0 <= j < k < |after| ensures Less(after[j].name, after[k].name) {
        assert j < i ==> after[j] == refs[j];
        assert k > i ==> after[k] == refs[k - 1];
        assert j > i ==> after[j] == refs[j - 1];
        assert k < i ==> after[k] == refs[k];
        if j < i < k {
          LessTransitive(refs[j].name, r.name, refs[k - 1].name);
        }
      }
    }
  }

  lemma MergeUpdate(a: map<string, string>, c: map<string, string>, n: string, x: string, y: string)
    requires n !in c
    ensures a[n := x] + c == (a[n := y] + c)[n := x]
    ensures a[n := x] + c == (a + c)[n := x]
  {
  }

  lemma MergeDelete(a: map<string, string>, c: map<string, string>, n: string, x: string)
    requires n !in a && n !in c
    ensures (a[n := x] + c) - {n} == a + c
  {
  }

  lemma SplitHere(refs: seq<Ref>, i: nat)
    requires i < |refs|
    ensures MapOf(refs) == MapOf(refs[..i])[refs[i].name := refs[i].oid] + MapOf(refs[i + 1..])
  {
    assert refs == refs[..i] + [refs[i]] + refs[i + 1..];
    MapAround(refs[..i], refs[i], refs[i + 1..]);
  }

  lemma PutIsUpdate(refs: seq<Ref>, found: bool, i: nat, r: Ref)
    requires Sorted(refs) && IsPosition(refs, r.name, found, i)
    ensures MapOf(Put(refs, found, i, r)) == MapOf(refs)[r.name := r.oid]
  {
    var left, right := refs[..i], refs[if found then i + 1 else i..];
    AroundPosition(refs, r.name, found, i);
    if found {
      SplitHere(refs, i);
      SplitHere(refs[i := r], i);
      assert refs[i := r][..i] == left && refs[i := r][i + 1..] == right;
      MergeUpdate(MapOf(left), MapOf(right), r.name, r.oid, refs[i].oid);
    } else {
      MapAround(left, r, right);
      MapOfConcat(left, right);
      assert left + right == refs;
      MergeUpdate(MapOf(left), MapOf(right), r.name, r.oid, r.oid);
    }
  }

  function RemoveAt(refs: seq<Ref>, i: nat): seq<Ref>
    requires i < |refs|
  {
    refs[..i] + refs[i + 1..]
  }

  lemma RemoveKeepsSorted(refs: seq<Ref>, i: nat)
    requires Sorted(refs) && i < |refs|
    ensures Sorted(RemoveAt(refs, i))
  {
  }

  lemma RemoveIsDelete(refs: seq<Ref>, name: string, i: nat)
    requires Sorted(refs) && IsPosition(refs, name, true, i)
    ensures MapOf(RemoveAt(refs, i)) == MapOf(refs) - {name}
  {
    AroundPosition(refs, name, true, i);
    SplitHere(refs, i);
    MapOfConcat(refs[..i], refs[i + 1..]);
    MergeDelete(MapOf(refs[..i]), MapOf(refs[i + 1..]), name, refs[i].oid);
  }
}
