/**
  The write-ahead log and what replaying it means: ref transactions folded into a ref map and
  HEAD, pack additions and supersessions folded into a pack set.
 */
module Wal {
  import opened Prelude
  import opened LastWrite

  const HEAD: string := "HEAD"

  /** A null `newOid` deletes the ref; a symbolic target retargets HEAD. */
  datatype RefUpdate = RefUpdate(name: string, oldOid: string, newOid: string, newSymbolicTarget: string)

  datatype RefTransaction = RefTransaction(updates: seq<RefUpdate>, pushOptions: seq<string>, atomic: bool)

  datatype PackRef = PackRef(checksum: string, packSize: nat, hasRev: bool, objectCount: nat, seqNo: nat, tier: nat)

  datatype EntryKind = Push | Compact | RefOnly | CheckpointMark

  datatype LogEntry = LogEntry(
    seqNo: nat,
    kind: EntryKind,
    pack: Option<PackRef>,
    txn: Option<RefTransaction>,
    supersedes: seq<string>,
    createdAt: Option<int>)

  datatype SegmentRef = SegmentRef(first: nat, last: nat, size: nat)

  datatype CheckpointRef = CheckpointRef(seqNo: nat, createdAt: Option<int>)

  /** The one mutable object of a repository. `packs` is the live set at `headSeq`; `segments` are
      the log objects that are not folded into the checkpoint. */
  datatype Manifest = Manifest(
    headSeq: nat,
    minSeq: nat,
    checkpoint: Option<CheckpointRef>,
    segments: seq<SegmentRef>,
    packs: seq<PackRef>,
    updatedAt: Option<int>,
    revision: nat)

  function CheckpointSeq(m: Manifest): nat {
    if m.checkpoint.Some? then m.checkpoint.value.seqNo else 0
  }

  /** Empty or all-zero hex: no object. */
  predicate IsNull(oid: string) {
    forall i | 0 <= i < |oid| :: oid[i] == '0'
  }

  // ---------------------------------------------------------------------------
  // Refs
  // ---------------------------------------------------------------------------

  /** HEAD is symbolic when `headTarget` is not empty, detached at `headOid` otherwise. */
  datatype RefState = RefState(refs: map<string, string>, headTarget: string, headOid: string)

  function ApplyUpdate(s: RefState, u: RefUpdate): RefState {
    if u.newSymbolicTarget != "" then
      if u.name == HEAD then s.(headTarget := u.newSymbolicTarget, headOid := "") else s
    else if u.name == HEAD then s.(headTarget := "", headOid := u.newOid)
    else if IsNull(u.newOid) then s.(refs := s.refs - {u.name})
    else s.(refs := s.refs[u.name := u.newOid])
  }

  /** One update, ref by ref: it sets or, with no object, removes the ref it names, or retargets or
      detaches HEAD, and leaves everything else alone. */
  lemma UpdateMeans(s: RefState, u: RefUpdate, name: string)
    requires name != "HEAD"
    ensures var t := ApplyUpdate(s, u);
            if u.newSymbolicTarget == "" && u.name == name then
              if forall i | 0 <= i < |u.newOid| :: u.newOid[i] == '0' then name !in t.refs
              else name in t.refs && t.refs[name] == u.newOid
            else (name in t.refs <==> name in s.refs) && (name in s.refs ==> t.refs[name] == s.refs[name])
    ensures var t := ApplyUpdate(s, u);
            if u.name != "HEAD" then t.headTarget == s.headTarget && t.headOid == s.headOid
            else if u.newSymbolicTarget != "" then t.headTarget == u.newSymbolicTarget && t.headOid == ""
            else t.headTarget == "" && t.headOid == u.newOid
  {
  }

  function ApplyUpdates(s: RefState, updates: seq<RefUpdate>): RefState {
    if updates == [] then s
    else ApplyUpdate(ApplyUpdates(s, updates[..|updates| - 1]), updates[|updates| - 1])
  }

  lemma {:induction false} UpdatesCompose(s: RefState, a: seq<RefUpdate>, b: seq<RefUpdate>)
    ensures ApplyUpdates(s, a + b) == ApplyUpdates(ApplyUpdates(s, a), b)
    decreases |b|
  {
    if b == [] {
      assert a + b == a;
    } else {
      assert (a + b)[..|a + b| - 1] == a + b[..|b| - 1];
      UpdatesCompose(s, a, b[..|b| - 1]);
    }
  }

  function UpdatesOf(entries: seq<LogEntry>): seq<RefUpdate> {
    if entries == [] then []
    else
      var last := entries[|entries| - 1];
      UpdatesOf(entries[..|entries| - 1]) + (if last.txn.Some? then last.txn.value.updates else [])
  }

  function ApplyEntries(s: RefState, entries: seq<LogEntry>): RefState {
    ApplyUpdates(s, UpdatesOf(entries))
  }

  /** The refs after the first `k` entries: the meaning every shortcut must preserve. */
  function StateAt(initial: RefState, log: seq<LogEntry>, k: nat): RefState
    requires k <= |log|
  {
    ApplyEntries(initial, log[..k])
  }

  // Refs and HEAD as cells.

  datatype RefCell = HeadCell | NameCell(name: string)

  datatype CellValue = HeadValue(target: string, oid: string) | NameValue(value: Option<string>)

  function Read(s: RefState, cell: RefCell): CellValue {
    match cell
    case HeadCell => HeadValue(s.headTarget, s.headOid)
    case NameCell(name) => NameValue(if name in s.refs then Some(s.refs[name]) else None)
  }

  /** An update assigns one cell, or none (a symbolic target for a name other than HEAD). */
  function Effect(u: RefUpdate): seq<Write<RefCell, CellValue>> {
    if u.newSymbolicTarget != "" then
      if u.name == HEAD then [Write(HeadCell, HeadValue(u.newSymbolicTarget, ""))] else []
    else if u.name == HEAD then [Write(HeadCell, HeadValue("", u.newOid))]
    else [Write(NameCell(u.name), NameValue(if IsNull(u.newOid) then None else Some(u.newOid)))]
  }

  function Effects(updates: seq<RefUpdate>): seq<Write<RefCell, CellValue>> {
    if updates == [] then []
    else Effects(updates[..|updates| - 1]) + Effect(updates[|updates| - 1])
  }

  lemma SameCellsSameState(s: RefState, t: RefState)
    requires forall cell :: Read(s, cell) == Read(t, cell)
    ensures s == t
  {
    assert Read(s, HeadCell) == Read(t, HeadCell);
    forall name ensures (name in s.refs <==> name in t.refs) && (name in s.refs ==> s.refs[name] == t.refs[name]) {
      assert Read(s, NameCell(name)) == Read(t, NameCell(name));
    }
    assert s.refs == t.refs;
  }

  lemma ReadAfterUpdate(s: RefState, u: RefUpdate, cell: RefCell)
    ensures Read(ApplyUpdate(s, u), cell) == Final(Effect(u), cell, Read(s, cell))
  {
    if |Effect(u)| == 1 {
      assert Effect(u)[..0] == [];
    }
  }

  lemma {:induction false} ReadAfterUpdates(s: RefState, updates: seq<RefUpdate>, cell: RefCell)
    ensures Read(ApplyUpdates(s, updates), cell) == Final(Effects(updates), cell, Read(s, cell))
    decreases |updates|
  {
    if updates != [] {
      var init, last := updates[..|updates| - 1], updates[|updates| - 1];
      ReadAfterUpdates(s, init, cell);
      ReadAfterUpdate(ApplyUpdates(s, init), last, cell);
      FinalConcat(Effects(init), Effect(last), cell, Read(s, cell));
    }
  }

  lemma {:induction false} EffectsConcat(a: seq<RefUpdate>, b: seq<RefUpdate>)
    ensures Effects(a + b) == Effects(a) + Effects(b)
    decreases |b|
  {
    if b == [] {
      assert a + b == a;
    } else {
      var init, last := b[..|b| - 1], b[|b| - 1];
      assert (a + b)[..|a + b| - 1] == a + init && (a + b)[|a + b| - 1] == last;
      EffectsConcat(a, init);
      assert Effects(a) + Effects(init) + Effect(last) == Effects(a) + (Effects(init) + Effect(last));
    }
  }

  lemma {:induction false} UpdatesConcat(a: seq<LogEntry>, b: seq<LogEntry>)
    ensures UpdatesOf(a + b) == UpdatesOf(a) + UpdatesOf(b)
    decreases |b|
  {
    if b == [] {
      assert a + b == a;
    } else {
      assert (a + b)[..|a + b| - 1] == a + b[..|b| - 1];
      UpdatesConcat(a, b[..|b| - 1]);
    }
  }

  /** The cell writes of a stretch of log. */
  function Writes(entries: seq<LogEntry>): seq<Write<RefCell, CellValue>> {
    Effects(UpdatesOf(entries))
  }

  lemma WritesConcat(a: seq<LogEntry>, b: seq<LogEntry>)
    ensures Writes(a + b) == Writes(a) + Writes(b)
  {
    UpdatesConcat(a, b);
    EffectsConcat(UpdatesOf(a), UpdatesOf(b));
  }

  lemma ReadAfterEntries(s: RefState, entries: seq<LogEntry>, cell: RefCell)
    ensures Read(ApplyEntries(s, entries), cell) == Final(Writes(entries), cell, Read(s, cell))
  {
    ReadAfterUpdates(s, UpdatesOf(entries), cell);
  }

  /** Replay composes: a state is reached by replaying any stretch onto an earlier state. */
  lemma ReplayConcat(s: RefState, a: seq<LogEntry>, b: seq<LogEntry>)
    ensures ApplyEntries(s, a + b) == ApplyEntries(ApplyEntries(s, a), b)
  {
    forall cell ensures Read(ApplyEntries(s, a + b), cell) == Read(ApplyEntries(ApplyEntries(s, a), b), cell) {
      WritesConcat(a, b);
      FinalConcat(Writes(a), Writes(b), cell, Read(s, cell));
      ReadAfterEntries(s, a + b, cell);
      ReadAfterEntries(s, a, cell);
      ReadAfterEntries(ApplyEntries(s, a), b, cell);
    }
    SameCellsSameState(ApplyEntries(s, a + b), ApplyEntries(ApplyEntries(s, a), b));
  }

  lemma StateStep(initial: RefState, log: seq<LogEntry>, i: nat, k: nat)
    requires i <= k <= |log|
    ensures StateAt(initial, log, k) == ApplyEntries(StateAt(initial, log, i), log[i..k])
  {
    assert log[..k] == log[..i] + log[i..k];
    ReplayConcat(initial, log[..i], log[i..k]);
  }

  // ---------------------------------------------------------------------------
  // Copies that ran ahead
  // ---------------------------------------------------------------------------

  /** `x` claims to be the refs at position `i`, but each cell may have been taken at any moment
      between `i` and `n`: a snapshot read while transactions were landing. */
  ghost predicate Blend(x: RefState, initial: RefState, log: seq<LogEntry>, i: nat, n: nat)
    requires i <= n <= |log|
  {
    forall cell :: TakenBetween(x, initial, log, i, n, cell)
  }

  ghost predicate TakenBetween(x: RefState, initial: RefState, log: seq<LogEntry>, i: nat, n: nat, cell: RefCell)
    requires i <= n <= |log|
  {
    exists k | i <= k <= n :: Read(x, cell) == Read(StateAt(initial, log, k), cell)
  }

  lemma CellBetween(initial: RefState, log: seq<LogEntry>, i: nat, k: nat, cell: RefCell)
    requires i <= k <= |log|
    ensures Read(StateAt(initial, log, k), cell) == Final(Writes(log[i..k]), cell, Read(StateAt(initial, log, i), cell))
  {
    StateStep(initial, log, i, k);
    ReadAfterEntries(StateAt(initial, log, i), log[i..k], cell);
  }

  /** One cell of a replay over a copy that ran ahead: it ends where the log ends. */
  lemma CellCatchesUp(x: RefState, initial: RefState, log: seq<LogEntry>, i: nat, k: nat, m: nat, cell: RefCell)
    requires i <= k <= m <= |log|
    requires Read(x, cell) == Read(StateAt(initial, log, k), cell)
    ensures Read(ApplyEntries(x, log[i..m]), cell) == Read(StateAt(initial, log, m), cell)
  {
    CellBetween(initial, log, i, k, cell);
    CellBetween(initial, log, i, m, cell);
    ReadAfterEntries(x, log[i..m], cell);
    WritesBegin(log, i, k, m);
    ReplayAbsorbs(Writes(log[i..m]), |Writes(log[i..k])|, cell, Read(StateAt(initial, log, i), cell));
  }

  lemma WritesBegin(log: seq<LogEntry>, i: nat, k: nat, m: nat)
    requires i <= k <= m <= |log|
    ensures |Writes(log[i..k])| <= |Writes(log[i..m])| && Writes(log[i..m])[..|Writes(log[i..k])|] == Writes(log[i..k])
  {
    assert log[i..m] == log[i..k] + log[k..m];
    WritesConcat(log[i..k], log[k..m]);
  }

  /** Overlapping replay is harmless: a copy tagged `i` but taken anywhere up to `n`, with the log
      from `i` replayed over it, is exactly the state at any position at or after `n`. */
  lemma BlendCatchesUp(x: RefState, initial: RefState, log: seq<LogEntry>, i: nat, n: nat, m: nat)
    requires i <= n <= m <= |log|
    requires Blend(x, initial, log, i, n)
    ensures ApplyEntries(x, log[i..m]) == StateAt(initial, log, m)
  {
    forall cell ensures Read(ApplyEntries(x, log[i..m]), cell) == Read(StateAt(initial, log, m), cell) {
      assert TakenBetween(x, initial, log, i, n, cell);
      var k :| i <= k <= n && Read(x, cell) == Read(StateAt(initial, log, k), cell);
      CellCatchesUp(x, initial, log, i, k, m, cell);
    }
    SameCellsSameState(ApplyEntries(x, log[i..m]), StateAt(initial, log, m));
  }

  /** Replaying only part of the overlap still yields a copy that ran ahead, never one behind. */
  lemma BlendAdvances(x: RefState, initial: RefState, log: seq<LogEntry>, i: nat, h: nat, n: nat)
    requires i <= h <= n <= |log|
    requires Blend(x, initial, log, i, n)
    ensures Blend(ApplyEntries(x, log[i..h]), initial, log, h, n)
  {
    var y := ApplyEntries(x, log[i..h]);
    forall cell ensures TakenBetween(y, initial, log, h, n, cell) {
      assert TakenBetween(x, initial, log, i, n, cell);
      var k :| i <= k <= n && Read(x, cell) == Read(StateAt(initial, log, k), cell);
      ReadAfterEntries(x, log[i..h], cell);
      if k <= h {
        CellCatchesUp(x, initial, log, i, k, h, cell);
      } else {
        CellBetween(initial, log, i, h, cell);
        TouchedOrKept(Writes(log[i..h]), cell, Read(x, cell), Read(StateAt(initial, log, i), cell));
      }
    }
  }

  /** The log only grows, and a weaker claim is still a claim. */
  lemma BlendWidens(x: RefState, initial: RefState, log: seq<LogEntry>, i: nat, n: nat, longer: seq<LogEntry>, j: nat, m: nat)
    requires j <= i <= n <= |log| <= |longer| && n <= m <= |longer| && log <= longer
    requires Blend(x, initial, log, i, n)
    ensures Blend(x, initial, longer, j, m)
  {
    forall cell ensures TakenBetween(x, initial, longer, j, m, cell) {
      assert TakenBetween(x, initial, log, i, n, cell);
      var k :| i <= k <= n && Read(x, cell) == Read(StateAt(initial, log, k), cell);
      assert longer[..k] == log[..k];
      assert Read(x, cell) == Read(StateAt(initial, longer, k), cell);
    }
  }

  lemma ExactIsBlend(initial: RefState, log: seq<LogEntry>, k: nat, n: nat)
    requires k <= n <= |log|
    ensures Blend(StateAt(initial, log, k), initial, log, k, n)
  {
    forall cell ensures TakenBetween(StateAt(initial, log, k), initial, log, k, n, cell) {
    }
  }

  /** Rewinding is less forgiving. A snapshot tagged `i` but taken at `j`, replayed to a position
      `m` before `j`, is right exactly when the entries after `m` left every cell alone that the
      replay does not rewrite. */
  lemma LateSnapshotRewind(initial: RefState, log: seq<LogEntry>, i: nat, m: nat, j: nat)
    requires i <= m <= j <= |log|
    ensures ApplyEntries(StateAt(initial, log, j), log[i..m]) == StateAt(initial, log, m) <==>
            forall cell :: Touches(Writes(log[i..m]), cell)
                        || Read(StateAt(initial, log, j), cell) == Read(StateAt(initial, log, m), cell)
  {
    RewindIff(StateAt(initial, log, j), initial, log, i, m);
  }

  /** Every cell that the replay from `i` to `m` does not rewrite has in `x` its value at `m`. */
  ghost predicate Settles(x: RefState, initial: RefState, log: seq<LogEntry>, i: nat, m: nat)
    requires i <= m <= |log|
  {
    forall cell :: Touches(Writes(log[i..m]), cell) || Read(x, cell) == Read(StateAt(initial, log, m), cell)
  }

  lemma RewoundCell(x: RefState, initial: RefState, log: seq<LogEntry>, i: nat, m: nat, cell: RefCell)
    requires i <= m <= |log|
    ensures Read(ApplyEntries(x, log[i..m]), cell) == Read(StateAt(initial, log, m), cell) <==>
            Touches(Writes(log[i..m]), cell) || Read(x, cell) == Read(StateAt(initial, log, m), cell)
  {
    ReadAfterEntries(x, log[i..m], cell);
    CellBetween(initial, log, i, m, cell);
    TouchedOrKept(Writes(log[i..m]), cell, Read(x, cell), Read(StateAt(initial, log, i), cell));
  }

  /** Any refs `x` whatever, with the log from `i` to `m` replayed over them, are the refs at `m` if
      and only if they settle: what a rewind of one stored snapshot gives. */
  lemma RewindIff(x: RefState, initial: RefState, log: seq<LogEntry>, i: nat, m: nat)
    requires i <= m <= |log|
    ensures ApplyEntries(x, log[i..m]) == StateAt(initial, log, m) <==> Settles(x, initial, log, i, m)
  {
    var rewound := ApplyEntries(x, log[i..m]);
    forall cell ensures Read(rewound, cell) == Read(StateAt(initial, log, m), cell) <==>
                        Touches(Writes(log[i..m]), cell) || Read(x, cell) == Read(StateAt(initial, log, m), cell)
    {
      RewoundCell(x, initial, log, i, m, cell);
    }
    if Settles(x, initial, log, i, m) {
      SameCellsSameState(rewound, StateAt(initial, log, m));
    }
  }

  /** From `m` to `n` the log leaves every cell alone that it does not write between `i` and `m`. */
  ghost predicate Quiet(initial: RefState, log: seq<LogEntry>, i: nat, m: nat, n: nat)
    requires i <= m <= n <= |log|
  {
    forall k | m <= k <= n :: Settles(StateAt(initial, log, k), initial, log, i, m)
  }

  lemma BlendSettles(x: RefState, initial: RefState, log: seq<LogEntry>, i: nat, m: nat, n: nat)
    requires i <= m <= n <= |log| && Quiet(initial, log, i, m, n) && Blend(x, initial, log, i, n)
    ensures ApplyEntries(x, log[i..m]) == StateAt(initial, log, m)
  {
    forall cell ensures Read(ApplyEntries(x, log[i..m]), cell) == Read(StateAt(initial, log, m), cell) {
      assert TakenBetween(x, initial, log, i, n, cell);
      var k :| i <= k <= n && Read(x, cell) == Read(StateAt(initial, log, k), cell);
      if k <= m {
        CellCatchesUp(x, initial, log, i, k, m, cell);
      } else {
        assert Settles(StateAt(initial, log, k), initial, log, i, m);
        RewoundCell(x, initial, log, i, m, cell);
      }
    }
    SameCellsSameState(ApplyEntries(x, log[i..m]), StateAt(initial, log, m));
  }

  /** The exact condition, read from the log alone: every copy tagged `i` and taken anywhere up to
      `n` rewinds to `m` if and only if the log is quiet from `m` to `n`. */
  lemma BlendRewindsIff(initial: RefState, log: seq<LogEntry>, i: nat, m: nat, n: nat)
    requires i <= m <= n <= |log|
    ensures (forall x | Blend(x, initial, log, i, n) :: ApplyEntries(x, log[i..m]) == StateAt(initial, log, m))
            <==> Quiet(initial, log, i, m, n)
  {
    if Quiet(initial, log, i, m, n) {
      forall x | Blend(x, initial, log, i, n) ensures ApplyEntries(x, log[i..m]) == StateAt(initial, log, m) {
        BlendSettles(x, initial, log, i, m, n);
      }
    } else {
      var k :| m <= k <= n && !Settles(StateAt(initial, log, k), initial, log, i, m);
      var x := StateAt(initial, log, k);
      ExactIsBlend(initial, log, k, n);
      BlendWidens(x, initial, log, k, n, log, i, n);
      RewindIff(x, initial, log, i, m);
    }
  }

  /** HEAD stays meaningful as long as no transaction deletes it. */
  predicate KeepsHead(updates: seq<RefUpdate>) {
    forall i | 0 <= i < |updates| :: updates[i].name == HEAD && updates[i].newSymbolicTarget == "" ==> updates[i].newOid != ""
  }

  /** HEAD is symbolic or detached, not both and not neither. */
  predicate HasHead(s: RefState) {
    (s.headTarget != "") != (s.headOid != "")
  }

  lemma {:induction false} HeadIsKept(s: RefState, updates: seq<RefUpdate>)
    requires HasHead(s) && KeepsHead(updates)
    ensures HasHead(ApplyUpdates(s, updates))
    decreases |updates|
  {
    if updates != [] {
      HeadIsKept(s, updates[..|updates| - 1]);
    }
  }

  /** Replace all refs and HEAD; a snapshot without a HEAD leaves the local one in place. */
  function LoadSnapshot(local: RefState, snapshot: RefState): RefState {
    if snapshot.headTarget != "" then RefState(snapshot.refs, snapshot.headTarget, "")
    else if snapshot.headOid != "" then RefState(snapshot.refs, "", snapshot.headOid)
    else RefState(snapshot.refs, local.headTarget, local.headOid)
  }

  // ---------------------------------------------------------------------------
  // Packs
  // ---------------------------------------------------------------------------

  function Checksums(packs: seq<PackRef>): set<string> {
    set p | p in packs :: p.checksum
  }

  /** Keep the packs that are not superseded, in order. */
  function Retain(packs: seq<PackRef>, superseded: seq<string>): seq<PackRef> {
    if packs == [] then []
    else
      var last := packs[|packs| - 1];
      Retain(packs[..|packs| - 1], superseded) + (if last.checksum in superseded then [] else [last])
  }

  /** Add the entry's pack, then drop what it supersedes. */
  function ApplyPacks(packs: seq<PackRef>, e: LogEntry): seq<PackRef> {
    Retain(if e.pack.Some? then packs + [e.pack.value] else packs, e.supersedes)
  }

  function ReplayPacks(packs: seq<PackRef>, entries: seq<LogEntry>): seq<PackRef> {
    if entries == [] then packs
    else ApplyPacks(ReplayPacks(packs, entries[..|entries| - 1]), entries[|entries| - 1])
  }

  function Drops(superseded: seq<string>): seq<Write<string, bool>> {
    seq(|superseded|, i requires 0 <= i < |superseded| => Write(superseded[i], false))
  }

  function PackWrites(e: LogEntry): seq<Write<string, bool>> {
    (if e.pack.Some? then [Write(e.pack.value.checksum, true)] else []) + Drops(e.supersedes)
  }

  function AllPackWrites(entries: seq<LogEntry>): seq<Write<string, bool>> {
    if entries == [] then []
    else AllPackWrites(entries[..|entries| - 1]) + PackWrites(entries[|entries| - 1])
  }

  lemma {:induction false} RetainDrops(packs: seq<PackRef>, superseded: seq<string>)
    ensures Checksums(Retain(packs, superseded)) == set c | c in Checksums(packs) && c !in superseded
    decreases |packs|
  {
    if packs != [] {
      var init, last := packs[..|packs| - 1], packs[|packs| - 1];
      RetainDrops(init, superseded);
      assert packs == init + [last];
      assert Checksums(packs) == Checksums(init) + {last.checksum};
      assert Checksums(Retain(packs, superseded)) ==
             Checksums(Retain(init, superseded)) + (if last.checksum in superseded then {} else {last.checksum});
    }
  }

  lemma {:induction false} FinalDrops(superseded: seq<string>, c: string, initial: bool)
    ensures Final(Drops(superseded), c, initial) == (initial && c !in superseded)
    decreases |superseded|
  {
    if superseded != [] {
      assert Drops(superseded)[..|superseded| - 1] == Drops(superseded[..|superseded| - 1]);
      FinalDrops(superseded[..|superseded| - 1], c, initial);
      assert superseded == superseded[..|superseded| - 1] + [superseded[|superseded| - 1]];
    }
  }

  lemma ApplyPacksCell(packs: seq<PackRef>, e: LogEntry, c: string)
    ensures (c in Checksums(ApplyPacks(packs, e))) == Final(PackWrites(e), c, c in Checksums(packs))
  {
    var added := if e.pack.Some? then packs + [e.pack.value] else packs;
    RetainDrops(added, e.supersedes);
    var add := if e.pack.Some? then [Write(e.pack.value.checksum, true)] else [];
    FinalConcat(add, Drops(e.supersedes), c, c in Checksums(packs));
    FinalDrops(e.supersedes, c, Final(add, c, c in Checksums(packs)));
    if e.pack.Some? {
      assert Checksums(added) == Checksums(packs) + {e.pack.value.checksum};
      assert add[..0] == [];
    }
  }

  lemma {:induction false} ReplayPacksCell(packs: seq<PackRef>, entries: seq<LogEntry>, c: string)
    ensures (c in Checksums(ReplayPacks(packs, entries))) == Final(AllPackWrites(entries), c, c in Checksums(packs))
    decreases |entries|
  {
    if entries != [] {
      var init, last := entries[..|entries| - 1], entries[|entries| - 1];
      ReplayPacksCell(packs, init, c);
      ApplyPacksCell(ReplayPacks(packs, init), last, c);
      FinalConcat(AllPackWrites(init), PackWrites(last), c, c in Checksums(packs));
    }
  }

  lemma {:induction false} PackWritesConcat(a: seq<LogEntry>, b: seq<LogEntry>)
    ensures AllPackWrites(a + b) == AllPackWrites(a) + AllPackWrites(b)
    decreases |b|
  {
    if b == [] {
      assert a + b == a;
    } else {
      var init, last := b[..|b| - 1], b[|b| - 1];
      PackWritesConcat(a, init);
      PackWritesSnoc(a + init, last);
      PackWritesSnoc(init, last);
      assert b == init + [last] && a + b == a + init + [last];
    }
  }

  lemma PackWritesSnoc(entries: seq<LogEntry>, e: LogEntry)
    ensures AllPackWrites(entries + [e]) == AllPackWrites(entries) + PackWrites(e)
  {
    assert (entries + [e])[..|entries|] == entries;
  }

  lemma {:induction false} ReplayPacksConcat(packs: seq<PackRef>, a: seq<LogEntry>, b: seq<LogEntry>)
    ensures ReplayPacks(packs, a + b) == ReplayPacks(ReplayPacks(packs, a), b)
    decreases |b|
  {
    if b == [] {
      assert a + b == a;
    } else {
      assert (a + b)[..|a + b| - 1] == a + b[..|b| - 1];
      ReplayPacksConcat(packs, a, b[..|b| - 1]);
    }
  }

  /** The same pack set, whatever list it started from. */
  lemma ReplayPacksSameSet(packs: seq<PackRef>, other: seq<PackRef>, entries: seq<LogEntry>)
    requires Checksums(packs) == Checksums(other)
    ensures Checksums(ReplayPacks(packs, entries)) == Checksums(ReplayPacks(other, entries))
  {
    forall c ensures c in Checksums(ReplayPacks(packs, entries)) <==> c in Checksums(ReplayPacks(other, entries)) {
      ReplayPacksCell(packs, entries, c);
      ReplayPacksCell(other, entries, c);
    }
  }

  /** Replaying entries over a pack set that already saw any part of them gives the same set. */
  lemma PackReplayAbsorbs(packs: seq<PackRef>, entries: seq<LogEntry>, k: nat)
    requires k <= |entries|
    ensures Checksums(ReplayPacks(ReplayPacks(packs, entries[..k]), entries)) == Checksums(ReplayPacks(packs, entries))
  {
    forall c ensures c in Checksums(ReplayPacks(ReplayPacks(packs, entries[..k]), entries)) <==>
                     c in Checksums(ReplayPacks(packs, entries))
    {
      ReplayPacksCell(packs, entries, c);
      ReplayPacksCell(packs, entries[..k], c);
      ReplayPacksCell(ReplayPacks(packs, entries[..k]), entries, c);
      PackWritesPrefix(entries, k);
      ReplayAbsorbs(AllPackWrites(entries), |AllPackWrites(entries[..k])|, c, c in Checksums(packs));
    }
  }

  lemma PackWritesPrefix(entries: seq<LogEntry>, k: nat)
    requires k <= |entries|
    ensures AllPackWrites(entries[..k]) <= AllPackWrites(entries)
    ensures AllPackWrites(entries)[..|AllPackWrites(entries[..k])|] == AllPackWrites(entries[..k])
  {
    assert entries == entries[..k] + entries[k..];
    PackWritesConcat(entries[..k], entries[k..]);
  }

  // ---------------------------------------------------------------------------
  // Positions in the log
  // ---------------------------------------------------------------------------

  predicate Increasing(log: seq<LogEntry>) {
    forall i, j | 0 <= i < j < |log| :: log[i].seqNo < log[j].seqNo
  }

  /** How many entries have a sequence number up to `s`. */
  function Pos(log: seq<LogEntry>, s: nat): (k: nat)
    ensures k <= |log|
    ensures k > 0 ==> log[k - 1].seqNo <= s
    ensures forall i | k <= i < |log| :: log[i].seqNo > s
  {
    if log == [] then 0
    else if log[|log| - 1].seqNo <= s then |log|
    else Pos(log[..|log| - 1], s)
  }

  lemma PosIs(log: seq<LogEntry>, s: nat, k: nat)
    requires Increasing(log) && k <= |log|
    requires k > 0 ==> log[k - 1].seqNo <= s
    requires k < |log| ==> log[k].seqNo > s
    ensures Pos(log, s) == k
  {
  }

  lemma PosMonotone(log: seq<LogEntry>, s: nat, t: nat)
    requires Increasing(log) && s <= t
    ensures Pos(log, s) <= Pos(log, t)
  {
    if Pos(log, s) > 0 && Pos(log, t) < |log| {
      assert log[Pos(log, s) - 1].seqNo <= t < log[Pos(log, t)].seqNo;
    }
  }

  /** Entries numbered above `s`, in order. */
  function After(entries: seq<LogEntry>, s: nat): seq<LogEntry> {
    entries[Pos(entries, s)..]
  }

  lemma IncreasingSlice(log: seq<LogEntry>, a: nat, n: nat)
    requires Increasing(log) && a <= n <= |log|
    ensures Increasing(log[a..n])
  {
  }

  lemma DropConcat(front: seq<LogEntry>, block: seq<LogEntry>, k: nat)
    requires k <= |front|
    ensures (front + block)[k..] == (front + block)[k..|front|] + block
  {
  }

  /** A block that lies on one side of `s` is kept or dropped whole. */
  lemma AfterConcat(front: seq<LogEntry>, block: seq<LogEntry>, s: nat)
    requires Increasing(front + block) && block != []
    ensures Increasing(front)
    ensures block[0].seqNo > s ==> After(front + block, s) == After(front, s) + block
    ensures block[|block| - 1].seqNo <= s ==> After(front + block, s) == [] && After(front, s) == []
  {
    var all := front + block;
    IncreasingSlice(all, 0, |front|);
    assert all[..|front|] == front;
    AfterSlice(all, 0, |front|, s);
    if block[0].seqNo > s {
      assert all[|front|].seqNo > s;
      assert Pos(all, s) <= |front|;
      DropConcat(front, block, Pos(all, s));
    } else if block[|block| - 1].seqNo <= s {
      assert all[|all| - 1].seqNo <= s;
    }
  }

  /** Where `s` falls within a slice. */
  lemma PosInSlice(log: seq<LogEntry>, a: nat, n: nat, s: nat)
    requires Increasing(log) && a <= n <= |log|
    ensures Pos(log[a..n], s) == if Pos(log, s) <= a then 0 else if Pos(log, s) <= n then Pos(log, s) - a else n - a
  {
    var p, slice := Pos(log, s), log[a..n];
    var k := if p <= a then 0 else if p <= n then p - a else n - a;
    IncreasingSlice(log, a, n);
    assert k > 0 ==> slice[k - 1] == log[a + k - 1] && log[a + k - 1].seqNo <= log[p - 1].seqNo;
    assert k < |slice| ==> slice[k] == log[a + k];
    PosIs(slice, s, k);
  }

  lemma AfterSlice(log: seq<LogEntry>, a: nat, n: nat, s: nat)
    requires Increasing(log) && a <= n <= |log|
    ensures After(log[a..n], s) ==
            if Pos(log, s) <= a then log[a..n] else if Pos(log, s) <= n then log[Pos(log, s)..n] else []
  {
    PosInSlice(log, a, n, s);
    RestOfSlice(log, a, n, Pos(log, s), Pos(log[a..n], s));
  }

  lemma RestOfSlice(log: seq<LogEntry>, a: nat, n: nat, p: nat, k: nat)
    requires a <= n <= |log| && k == if p <= a then 0 else if p <= n then p - a else n - a
    ensures log[a..n][k..] == if p <= a then log[a..n] else if p <= n then log[p..n] else []
  {
    assert log[a..n][k..] == log[a + k..n];
  }

  /** The part of a window of the log that lies after `from`. */
  lemma AfterWindow(log: seq<LogEntry>, c: nat, from: nat, h: nat)
    requires Increasing(log) && c <= from <= h
    ensures Pos(log, c) <= Pos(log, from) <= Pos(log, h)
    ensures After(log[Pos(log, c)..Pos(log, h)], from) == log[Pos(log, from)..Pos(log, h)]
  {
    PosMonotone(log, c, from);
    PosMonotone(log, from, h);
    AfterWithin(log, Pos(log, c), Pos(log, h), from);
  }

  lemma AfterWithin(log: seq<LogEntry>, a: nat, n: nat, s: nat)
    requires Increasing(log) && a <= Pos(log, s) <= n <= |log|
    ensures After(log[a..n], s) == log[Pos(log, s)..n]
  {
    AfterSlice(log, a, n, s);
  }

  // ---------------------------------------------------------------------------
  // Small examples
  // ---------------------------------------------------------------------------

  /** A repository whose HEAD points at a branch that does not exist yet. */
  const Unborn: RefState := RefState(map[], "a", "")

  /** A push that sets one ref and brings no pack. */
  function PushEntry(seqNo: nat, name: string, oid: string): LogEntry {
    LogEntry(seqNo, Push, None, Some(RefTransaction([RefUpdate(name, "", oid, "")], [], true)), [], None)
  }

  lemma PushSets(s: RefState, seqNo: nat, name: string, oid: string)
    requires name != HEAD && oid != "" && oid[0] != '0'
    ensures ApplyEntries(s, [PushEntry(seqNo, name, oid)]) == s.(refs := s.refs[name := oid])
  {
    OnePush(s, PushEntry(seqNo, name, oid));
  }

  lemma OnePush(s: RefState, e: LogEntry)
    requires e.txn.Some? && |e.txn.value.updates| == 1
    ensures ApplyEntries(s, [e]) == ApplyUpdate(s, e.txn.value.updates[0])
  {
    var updates := e.txn.value.updates;
    assert [e][..0] == [] && updates[..0] == [];
    assert UpdatesOf([e]) == UpdatesOf([e][..0]) + updates == updates;
    assert ApplyUpdates(s, updates) == ApplyUpdate(ApplyUpdates(s, updates[..0]), updates[0]);
  }
}
