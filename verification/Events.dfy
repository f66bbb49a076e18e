/**
  Ref events: what a consumer that only sees create, update and delete events can rebuild, and why
  it may see a stretch of them twice.
 */
module Events {
  import opened Prelude
  import opened LastWrite
  import opened Wal

  datatype Action = CreateRef | UpdateRef | DeleteRef

  datatype RefEvent = RefEvent(action: Action, name: string, oldOid: string, newOid: string, seqNo: nat)

  /** Nothing to announce between two absent values or between equal ones. */
  function Classify(oldOid: string, newOid: string): Option<Action> {
    if IsNull(oldOid) then (if IsNull(newOid) then None else Some(CreateRef))
    else if IsNull(newOid) then Some(DeleteRef)
    else if oldOid == newOid then None
    else Some(UpdateRef)
  }

  function ZeroLike(oid: string): (z: string)
    ensures |z| == |oid| && IsNull(z)
  {
    seq(|oid|, i => '0')
  }

  /** The event of one update. Absent values are always announced as zeros of the full length. */
  function EventFor(seqNo: nat, u: RefUpdate): (r: Option<RefEvent>)
    ensures r.Some? ==>
              && r.value.name == u.name && r.value.seqNo == seqNo
              && (r.value.action == CreateRef <==> IsNull(r.value.oldOid))
              && (r.value.action == DeleteRef <==> IsNull(r.value.newOid))
              && (r.value.action != UpdateRef ==> |r.value.oldOid| == |r.value.newOid| > 0)
              && r.value.oldOid != r.value.newOid
              && (if IsNull(u.oldOid) then IsNull(r.value.oldOid) else r.value.oldOid == u.oldOid)
              && (if IsNull(u.newOid) then IsNull(r.value.newOid) else r.value.newOid == u.newOid)
    ensures r.None? <==> u.newSymbolicTarget != "" || u.oldOid == u.newOid || (IsNull(u.oldOid) && IsNull(u.newOid))
  {
    if u.newSymbolicTarget != "" then None
    else
      match Classify(u.oldOid, u.newOid)
      case None => None
      case Some(CreateRef) => Some(RefEvent(CreateRef, u.name, ZeroLike(u.newOid), u.newOid, seqNo))
      case Some(DeleteRef) => Some(RefEvent(DeleteRef, u.name, u.oldOid, ZeroLike(u.oldOid), seqNo))
      case Some(UpdateRef) => Some(RefEvent(UpdateRef, u.name, u.oldOid, u.newOid, seqNo))
  }

  function EventsOfUpdates(seqNo: nat, updates: seq<RefUpdate>): seq<RefEvent> {
    if updates == [] then []
    else
      var last := EventFor(seqNo, updates[|updates| - 1]);
      EventsOfUpdates(seqNo, updates[..|updates| - 1]) + if last.Some? then [last.value] else []
  }

  predicate Announced(e: LogEntry) {
    (e.kind == Push || e.kind == RefOnly) && e.txn.Some?
  }

  function EventsOf(entries: seq<LogEntry>): seq<RefEvent> {
    if entries == [] then []
    else
      var last := entries[|entries| - 1];
      EventsOf(entries[..|entries| - 1]) + if Announced(last) then EventsOfUpdates(last.seqNo, last.txn.value.updates) else []
  }

  lemma {:induction false} UpdateEventsIff(seqNo: nat, updates: seq<RefUpdate>, event: RefEvent)
    ensures event in EventsOfUpdates(seqNo, updates) <==> exists u :: u in updates && EventFor(seqNo, u) == Some(event)
    decreases |updates|
  {
    if updates != [] {
      var init, last := updates[..|updates| - 1], updates[|updates| - 1];
      UpdateEventsIff(seqNo, init, event);
      assert updates == init + [last];
    }
  }

  /** `e` announces `event`: it is a push or a ref update, and one of its updates makes the event
      under the number of the entry. */
  ghost predicate Announces(e: LogEntry, event: RefEvent) {
    && (e.kind == Push || e.kind == RefOnly) && e.txn.Some?
    && exists u :: u in e.txn.value.updates && EventFor(e.seqNo, u) == Some(event)
  }

  /** An event is sent if and only if some entry announces it. */
  lemma {:induction false} EventsIff(entries: seq<LogEntry>, event: RefEvent)
    ensures event in EventsOf(entries) <==> exists e :: e in entries && Announces(e, event)
    decreases |entries|
  {
    if entries != [] {
      var init, last := entries[..|entries| - 1], entries[|entries| - 1];
      EventsIff(init, event);
      assert entries == init + [last];
      if last.txn.Some? {
        UpdateEventsIff(last.seqNo, last.txn.value.updates, event);
      }
      assert event in EventsOf(entries) <==> event in EventsOf(init) || Announces(last, event);
      if e :| e in entries && Announces(e, event) {
        assert e in init || e == last;
      }
      assert last in entries && forall e | e in init :: e in entries;
    }
  }

  method RefsFromEntries(entries: seq<LogEntry>) returns (out: seq<RefEvent>)
    ensures out == EventsOf(entries)
  {
    out := [];
    for i := 0 to |entries|
      invariant out == EventsOf(entries[..i])
    {
      assert entries[..i + 1][..i] == entries[..i];
      var e := entries[i];
      if (e.kind == Push || e.kind == RefOnly) && e.txn.Some? {
        var updates := e.txn.value.updates;
        for j := 0 to |updates|
          invariant out == EventsOf(entries[..i]) + EventsOfUpdates(e.seqNo, updates[..j])
        {
          assert updates[..j + 1][..j] == updates[..j];
          var event := EventFor(e.seqNo, updates[j]);
          if event.Some? {
            out := out + [event.value];
          }
        }
        assert updates[..|updates|] == updates;
      }
    }
    assert entries[..|entries|] == entries;
  }

  // ---------------------------------------------------------------------------
  // A consumer
  // ---------------------------------------------------------------------------

  /** The consumer's copy of the refs. HEAD is not a ref. */
  function Consume(refs: map<string, string>, e: RefEvent): map<string, string> {
    if e.name == HEAD then refs
    else if e.action == DeleteRef then refs - {e.name}
    else refs[e.name := e.newOid]
  }

  function ConsumeAll(refs: map<string, string>, events: seq<RefEvent>): map<string, string> {
    if events == [] then refs
    else Consume(ConsumeAll(refs, events[..|events| - 1]), events[|events| - 1])
  }

  lemma {:induction false} ConsumeConcat(refs: map<string, string>, a: seq<RefEvent>, b: seq<RefEvent>)
    ensures ConsumeAll(refs, a + b) == ConsumeAll(ConsumeAll(refs, a), b)
    decreases |b|
  {
    if b == [] {
      assert a + b == a;
    } else {
      assert (a + b)[..|a + b| - 1] == a + b[..|b| - 1];
      ConsumeConcat(refs, a, b[..|b| - 1]);
    }
  }

  /** The old value an update claims is the current one; how "absent" is written does not matter. */
  predicate TrueOld(s: RefState, u: RefUpdate) {
    u.name == HEAD || u.newSymbolicTarget != "" ||
    (if IsNull(u.oldOid) then u.name !in s.refs else u.name in s.refs && s.refs[u.name] == u.oldOid)
  }

  predicate TrueOlds(s: RefState, updates: seq<RefUpdate>) {
    forall i | 0 <= i < |updates| :: TrueOld(ApplyUpdates(s, updates[..i]), updates[i])
  }

  /** Only pushes and ref updates move refs. */
  predicate RefsMoveByPushes(entries: seq<LogEntry>) {
    forall i | 0 <= i < |entries| :: entries[i].kind == Push || entries[i].kind == RefOnly || entries[i].txn.None?
  }

  lemma OneUpdateIsFaithful(s: RefState, u: RefUpdate, seqNo: nat)
    requires TrueOld(s, u)
    ensures var e := EventFor(seqNo, u);
            ApplyUpdate(s, u).refs == if e.Some? then Consume(s.refs, e.value) else s.refs
  {
    if u.newSymbolicTarget == "" && u.name != HEAD && EventFor(seqNo, u).None? {
      assert IsNull(u.newOid) ==> s.refs - {u.name} == s.refs;
    }
  }

  lemma {:induction false} UpdatesAreFaithful(s: RefState, updates: seq<RefUpdate>, seqNo: nat)
    requires TrueOlds(s, updates)
    ensures ConsumeAll(s.refs, EventsOfUpdates(seqNo, updates)) == ApplyUpdates(s, updates).refs
    decreases |updates|
  {
    if updates != [] {
      var init, last := updates[..|updates| - 1], updates[|updates| - 1];
      assert forall i | 0 <= i < |init| :: init[..i] == updates[..i] && init[i] == updates[i];
      UpdatesAreFaithful(s, init, seqNo);
      OneUpdateIsFaithful(ApplyUpdates(s, init), last, seqNo);
      var before, event := EventsOfUpdates(seqNo, init), EventFor(seqNo, last);
      if event.Some? {
        assert (before + [event.value])[..|before|] == before;
      } else {
        assert EventsOfUpdates(seqNo, updates) == before;
      }
    }
  }

  lemma TrueOldsSplit(s: RefState, a: seq<RefUpdate>, b: seq<RefUpdate>)
    requires TrueOlds(s, a + b)
    ensures TrueOlds(s, a) && TrueOlds(ApplyUpdates(s, a), b)
  {
    forall i | 0 <= i < |a| ensures TrueOld(ApplyUpdates(s, a[..i]), a[i]) {
      assert (a + b)[..i] == a[..i] && (a + b)[i] == a[i];
    }
    forall i | 0 <= i < |b| ensures TrueOld(ApplyUpdates(ApplyUpdates(s, a), b[..i]), b[i]) {
      assert (a + b)[..|a| + i] == a + b[..i] && (a + b)[|a| + i] == b[i];
      UpdatesCompose(s, a, b[..i]);
    }
  }

  /** Events are a faithful delta: applied to the refs before a stretch of log they give exactly
      the refs after it, although no-ops are left out. */
  lemma {:induction false} EventsAreFaithful(s: RefState, entries: seq<LogEntry>)
    requires RefsMoveByPushes(entries) && TrueOlds(s, UpdatesOf(entries))
    ensures ConsumeAll(s.refs, EventsOf(entries)) == ApplyEntries(s, entries).refs
    decreases |entries|
  {
    if entries != [] {
      var init, last := entries[..|entries| - 1], entries[|entries| - 1];
      var updates := if last.txn.Some? then last.txn.value.updates else [];
      TrueOldsSplit(s, UpdatesOf(init), updates);
      EventsAreFaithful(s, init);
      UpdatesCompose(s, UpdatesOf(init), updates);
      if Announced(last) {
        UpdatesAreFaithful(ApplyEntries(s, init), updates, last.seqNo);
        ConsumeConcat(s.refs, EventsOf(init), EventsOfUpdates(last.seqNo, updates));
      } else {
        assert EventsOf(entries) == EventsOf(init);
      }
    }
  }

  // ---------------------------------------------------------------------------
  // Redelivery
  // ---------------------------------------------------------------------------

  function WriteOf(e: RefEvent): seq<Write<string, Option<string>>> {
    if e.name == HEAD then [] else [Write(e.name, if e.action == DeleteRef then None else Some(e.newOid))]
  }

  function WritesOf(events: seq<RefEvent>): seq<Write<string, Option<string>>> {
    if events == [] then [] else WritesOf(events[..|events| - 1]) + WriteOf(events[|events| - 1])
  }

  function Look(refs: map<string, string>, name: string): Option<string> {
    if name in refs then Some(refs[name]) else None
  }

  lemma ConsumeStep(refs: map<string, string>, e: RefEvent, name: string)
    ensures Look(Consume(refs, e), name) == Final(WriteOf(e), name, Look(refs, name))
  {
    assert WriteOf(e) != [] ==> WriteOf(e)[..0] == [];
  }

  lemma {:induction false} ConsumeIsFinal(refs: map<string, string>, events: seq<RefEvent>, name: string)
    ensures Look(ConsumeAll(refs, events), name) == Final(WritesOf(events), name, Look(refs, name))
    decreases |events|
  {
    if events != [] {
      var init, last := events[..|events| - 1], events[|events| - 1];
      ConsumeIsFinal(refs, init, name);
      ConsumeStep(ConsumeAll(refs, init), last, name);
      FinalConcat(WritesOf(init), WriteOf(last), name, Look(refs, name));
    }
  }

  lemma {:induction false} WritesOfConcat(a: seq<RefEvent>, b: seq<RefEvent>)
    ensures WritesOf(a + b) == WritesOf(a) + WritesOf(b)
    decreases |b|
  {
    if b == [] {
      assert a + b == a;
    } else {
      assert (a + b)[..|a + b| - 1] == a + b[..|b| - 1];
      WritesOfConcat(a, b[..|b| - 1]);
    }
  }

  lemma SameLooks(a: map<string, string>, b: map<string, string>)
    requires forall name :: Look(a, name) == Look(b, name)
    ensures a == b
  {
    forall name ensures (name in a <==> name in b) && (name in a ==> a[name] == b[name]) {
      assert Look(a, name) == Look(b, name);
    }
  }

  /** At-least-once delivery is enough: a consumer that already saw events up to `j` and is sent
      everything from an earlier `i` again ends where a single delivery would have taken it. */
  lemma RedeliveryIsHarmless(refs: map<string, string>, events: seq<RefEvent>, i: nat, j: nat)
    requires i <= j <= |events|
    ensures ConsumeAll(ConsumeAll(refs, events[..j]), events[i..]) == ConsumeAll(refs, events)
  {
    var base := ConsumeAll(refs, events[..i]);
    var seen, all := events[i..j], events[i..];
    assert events == events[..i] + all && events[..j] == events[..i] + seen && all == seen + events[j..];
    ConsumeConcat(refs, events[..i], all);
    ConsumeConcat(refs, events[..i], seen);
    forall name ensures Look(ConsumeAll(ConsumeAll(base, seen), all), name) == Look(ConsumeAll(base, all), name) {
      ConsumeIsFinal(base, seen, name);
      ConsumeIsFinal(ConsumeAll(base, seen), all, name);
      ConsumeIsFinal(base, all, name);
      WritesOfConcat(seen, events[j..]);
      assert WritesOf(all)[..|WritesOf(seen)|] == WritesOf(seen);
      ReplayAbsorbs(WritesOf(all), |WritesOf(seen)|, name, Look(base, name));
    }
    SameLooks(ConsumeAll(ConsumeAll(base, seen), all), ConsumeAll(base, all));
  }

  /** A wrong old value can hide a change: the skipped update is not a no-op. */
  lemma WrongOldHidesAnUpdate()
    ensures var s, u := RefState(map["refs/heads/a" := "1"], "", "2"), RefUpdate("refs/heads/a", "3", "3", "");
            EventFor(1, u) == None && ApplyUpdate(s, u).refs == map["refs/heads/a" := "3"]
  {
    assert !IsNull("3") by {
      assert "3"[0] != '0';
    }
    assert "refs/heads/a"[0] != HEAD[0];
  }

  // ---------------------------------------------------------------------------
  // Exactly when events are faithful
  // ---------------------------------------------------------------------------

  /** The update assigns the ref `name`. */
  predicate Assigns(u: RefUpdate, name: string) {
    u.newSymbolicTarget == "" && u.name == name
  }

  /** It makes an event; the number of its entry does not matter. */
  predicate Told(u: RefUpdate) {
    EventFor(0, u).Some?
  }

  function ValueOf(u: RefUpdate): Option<string> {
    if IsNull(u.newOid) then None else Some(u.newOid)
  }

  /** What a consumer is told to write. */
  function ToldWrites(updates: seq<RefUpdate>): seq<Write<string, Option<string>>> {
    if updates == [] then []
    else
      var last := updates[|updates| - 1];
      ToldWrites(updates[..|updates| - 1]) + if Told(last) && last.name != HEAD then [Write(last.name, ValueOf(last))] else []
  }

  /** The last update of `name` is announced, or its new value is what the announced ones before it,
      or the start, left there. */
  predicate Heard(start: Option<string>, updates: seq<RefUpdate>, name: string) {
    if updates == [] then true
    else
      var init, last := updates[..|updates| - 1], updates[|updates| - 1];
      if Assigns(last, name) then Told(last) || ValueOf(last) == Final(ToldWrites(init), name, start)
      else Heard(start, init, name)
  }

  lemma ToldEvent(seqNo: nat, u: RefUpdate)
    ensures Told(u) <==> EventFor(seqNo, u).Some?
    ensures Told(u) ==> WriteOf(EventFor(seqNo, u).value) == if u.name == HEAD then [] else [Write(u.name, ValueOf(u))]
  {
  }

  lemma {:induction false} WritesOfUpdates(seqNo: nat, updates: seq<RefUpdate>)
    ensures WritesOf(EventsOfUpdates(seqNo, updates)) == ToldWrites(updates)
    decreases |updates|
  {
    if updates != [] {
      var init, last := updates[..|updates| - 1], updates[|updates| - 1];
      WritesOfUpdates(seqNo, init);
      ToldEvent(seqNo, last);
      var before := EventsOfUpdates(seqNo, init);
      if Told(last) {
        WritesOfSnoc(before, EventFor(seqNo, last).value);
      } else {
        assert before + [] == before && ToldWrites(init) + [] == ToldWrites(init);
      }
    }
  }

  lemma WritesOfSnoc(events: seq<RefEvent>, e: RefEvent)
    ensures WritesOf(events + [e]) == WritesOf(events) + WriteOf(e)
  {
    assert (events + [e])[..|events|] == events;
  }

  lemma {:induction false} ToldConcat(a: seq<RefUpdate>, b: seq<RefUpdate>)
    ensures ToldWrites(a + b) == ToldWrites(a) + ToldWrites(b)
    decreases |b|
  {
    if b == [] {
      assert a + b == a;
    } else {
      assert (a + b)[..|a + b| - 1] == a + b[..|b| - 1];
      ToldConcat(a, b[..|b| - 1]);
    }
  }

  lemma {:induction false} WritesOfEntries(entries: seq<LogEntry>)
    requires RefsMoveByPushes(entries)
    ensures WritesOf(EventsOf(entries)) == ToldWrites(UpdatesOf(entries))
    decreases |entries|
  {
    if entries != [] {
      var init, last := entries[..|entries| - 1], entries[|entries| - 1];
      WritesOfEntries(init);
      if Announced(last) {
        WritesOfUpdates(last.seqNo, last.txn.value.updates);
        WritesOfConcat(EventsOf(init), EventsOfUpdates(last.seqNo, last.txn.value.updates));
        ToldConcat(UpdatesOf(init), last.txn.value.updates);
      } else {
        assert EventsOf(init) + [] == EventsOf(init) && UpdatesOf(init) + [] == UpdatesOf(init);
      }
    }
  }

  lemma OneUpdateLook(s: RefState, u: RefUpdate, name: string)
    requires name != HEAD
    ensures Look(ApplyUpdate(s, u).refs, name) == if Assigns(u, name) then ValueOf(u) else Look(s.refs, name)
  {
  }

  lemma FinalSnoc(writes: seq<Write<string, Option<string>>>, w: Write<string, Option<string>>, name: string, start: Option<string>)
    ensures Final(writes + [w], name, start) == if w.cell == name then w.value else Final(writes, name, start)
  {
    assert (writes + [w])[..|writes|] == writes;
  }

  /** One name: the announced writes leave what all the updates leave if and only if it was heard. */
  lemma {:induction false} HeardIff(s: RefState, updates: seq<RefUpdate>, name: string)
    requires name != HEAD
    ensures Final(ToldWrites(updates), name, Look(s.refs, name)) == Look(ApplyUpdates(s, updates).refs, name)
            <==> Heard(Look(s.refs, name), updates, name)
    decreases |updates|
  {
    if updates != [] {
      var init, last := updates[..|updates| - 1], updates[|updates| - 1];
      HeardIff(s, init, name);
      OneUpdateLook(ApplyUpdates(s, init), last, name);
      if Told(last) && last.name != HEAD {
        FinalSnoc(ToldWrites(init), Write(last.name, ValueOf(last)), name, Look(s.refs, name));
      } else {
        assert ToldWrites(updates) == ToldWrites(init);
      }
    }
  }

  lemma {:induction false} HeadIsNoRef(s: RefState, updates: seq<RefUpdate>)
    ensures Look(ApplyUpdates(s, updates).refs, HEAD) == Look(s.refs, HEAD)
    decreases |updates|
  {
    if updates != [] {
      HeadIsNoRef(s, updates[..|updates| - 1]);
    }
  }

  lemma {:induction false} HeadIsNotTold(updates: seq<RefUpdate>, start: Option<string>)
    ensures Final(ToldWrites(updates), HEAD, start) == start
    decreases |updates|
  {
    if updates != [] {
      var init, last := updates[..|updates| - 1], updates[|updates| - 1];
      HeadIsNotTold(init, start);
      if Told(last) && last.name != HEAD {
        FinalSnoc(ToldWrites(init), Write(last.name, ValueOf(last)), HEAD, start);
      } else {
        assert ToldWrites(updates) == ToldWrites(init);
      }
    }
  }

  lemma ConsumedLook(s: RefState, entries: seq<LogEntry>, name: string)
    requires RefsMoveByPushes(entries)
    ensures Look(ConsumeAll(s.refs, EventsOf(entries)), name) == Final(ToldWrites(UpdatesOf(entries)), name, Look(s.refs, name))
  {
    ConsumeIsFinal(s.refs, EventsOf(entries), name);
    WritesOfEntries(entries);
  }

  lemma SameNameIff(s: RefState, entries: seq<LogEntry>, name: string)
    requires RefsMoveByPushes(entries)
    ensures Look(ConsumeAll(s.refs, EventsOf(entries)), name) == Look(ApplyEntries(s, entries).refs, name)
            <==> name == HEAD || Heard(Look(s.refs, name), UpdatesOf(entries), name)
  {
    ConsumedLook(s, entries, name);
    if name == HEAD {
      HeadIsNoRef(s, UpdatesOf(entries));
      HeadIsNotTold(UpdatesOf(entries), Look(s.refs, HEAD));
    } else {
      HeardIff(s, UpdatesOf(entries), name);
    }
  }

  /** The exact condition, whatever old values the log carries: the events of a stretch of log take
      the refs before it to the refs after it if and only if every name was heard. */
  lemma EventsAreFaithfulIff(s: RefState, entries: seq<LogEntry>)
    requires RefsMoveByPushes(entries)
    ensures ConsumeAll(s.refs, EventsOf(entries)) == ApplyEntries(s, entries).refs <==>
            forall name | name != HEAD :: Heard(Look(s.refs, name), UpdatesOf(entries), name)
  {
    var consumed, applied := ConsumeAll(s.refs, EventsOf(entries)), ApplyEntries(s, entries).refs;
    forall name ensures Look(consumed, name) == Look(applied, name) <==>
                        name == HEAD || Heard(Look(s.refs, name), UpdatesOf(entries), name)
    {
      SameNameIff(s, entries, name);
    }
    if forall name | name != HEAD :: Heard(Look(s.refs, name), UpdatesOf(entries), name) {
      SameLooks(consumed, applied);
    }
  }

  // ---------------------------------------------------------------------------
  // What the publisher checks
  // ---------------------------------------------------------------------------

  /** The publisher compares an update's old value with the refs before its transaction. */
  predicate Accepts(s: RefState, u: RefUpdate) {
    u.newSymbolicTarget != "" || u.name == HEAD ||
    var actual := if u.name in s.refs then s.refs[u.name] else "";
    if IsNull(u.oldOid) then actual == "" else actual == u.oldOid
  }

  predicate AllAccepted(s: RefState, updates: seq<RefUpdate>) {
    forall i | 0 <= i < |updates| :: Accepts(s, updates[i])
  }

  /** No ref is assigned twice. */
  predicate NoNameTwice(updates: seq<RefUpdate>) {
    forall i, j | 0 <= i < j < |updates| && updates[i].newSymbolicTarget == "" && updates[j].newSymbolicTarget == "" ::
      updates[i].name != updates[j].name || updates[i].name == HEAD
  }

  predicate NoEmptyRef(s: RefState) {
    forall name | name in s.refs :: s.refs[name] != ""
  }

  lemma {:induction false} UntouchedLook(s: RefState, updates: seq<RefUpdate>, name: string)
    requires name != HEAD && forall i | 0 <= i < |updates| :: !Assigns(updates[i], name)
    ensures Look(ApplyUpdates(s, updates).refs, name) == Look(s.refs, name)
    decreases |updates|
  {
    if updates != [] {
      UntouchedLook(s, updates[..|updates| - 1], name);
      OneUpdateLook(ApplyUpdates(s, updates[..|updates| - 1]), updates[|updates| - 1], name);
    }
  }

  /** What the publisher accepts carries true old values, as long as no transaction names a ref twice. */
  lemma AcceptedIsTrue(s: RefState, updates: seq<RefUpdate>)
    requires NoEmptyRef(s) && AllAccepted(s, updates) && NoNameTwice(updates)
    ensures TrueOlds(s, updates)
  {
    forall i | 0 <= i < |updates| ensures TrueOld(ApplyUpdates(s, updates[..i]), updates[i]) {
      var u := updates[i];
      assert Accepts(s, u);
      if u.newSymbolicTarget == "" && u.name != HEAD {
        UntouchedLook(s, updates[..i], u.name);
      }
    }
  }

  lemma {:induction false} NoEmptyRefStays(s: RefState, updates: seq<RefUpdate>)
    requires NoEmptyRef(s)
    ensures NoEmptyRef(ApplyUpdates(s, updates))
    decreases |updates|
  {
    if updates != [] {
      NoEmptyRefStays(s, updates[..|updates| - 1]);
    }
  }

  function TxnUpdates(e: LogEntry): seq<RefUpdate> {
    if e.txn.Some? then e.txn.value.updates else []
  }

  /** A log as publishers write it: each transaction accepted on the refs before it. */
  predicate PublishedLog(s: RefState, entries: seq<LogEntry>) {
    forall i | 0 <= i < |entries| ::
      AllAccepted(ApplyEntries(s, entries[..i]), TxnUpdates(entries[i])) && NoNameTwice(TxnUpdates(entries[i]))
  }

  lemma TrueOldsJoin(s: RefState, a: seq<RefUpdate>, b: seq<RefUpdate>)
    requires TrueOlds(s, a) && TrueOlds(ApplyUpdates(s, a), b)
    ensures TrueOlds(s, a + b)
  {
    forall i | 0 <= i < |a + b| ensures TrueOld(ApplyUpdates(s, (a + b)[..i]), (a + b)[i]) {
      if i < |a| {
        assert (a + b)[..i] == a[..i];
      } else {
        assert (a + b)[..i] == a + b[..i - |a|];
        UpdatesCompose(s, a, b[..i - |a|]);
      }
    }
  }

  lemma {:induction false} PublishedIsTrue(s: RefState, entries: seq<LogEntry>)
    requires NoEmptyRef(s) && PublishedLog(s, entries)
    ensures TrueOlds(s, UpdatesOf(entries))
    decreases |entries|
  {
    if entries != [] {
      var init, last := entries[..|entries| - 1], entries[|entries| - 1];
      forall i | 0 <= i < |init|
        ensures AllAccepted(ApplyEntries(s, init[..i]), TxnUpdates(init[i])) && NoNameTwice(TxnUpdates(init[i]))
      {
        assert entries[..i] == init[..i] && entries[i] == init[i];
      }
      PublishedIsTrue(s, init);
      NoEmptyRefStays(s, UpdatesOf(init));
      AcceptedIsTrue(ApplyEntries(s, init), TxnUpdates(last));
      TrueOldsJoin(s, UpdatesOf(init), TxnUpdates(last));
    }
  }

  /** The events of any published log without repeated names are faithful. */
  lemma PublishedLogIsFaithful(s: RefState, entries: seq<LogEntry>)
    requires NoEmptyRef(s) && PublishedLog(s, entries) && RefsMoveByPushes(entries)
    ensures ConsumeAll(s.refs, EventsOf(entries)) == ApplyEntries(s, entries).refs
  {
    PublishedIsTrue(s, entries);
    EventsAreFaithful(s, entries);
  }

  /** One push that names a ref twice: both old values are those before the transaction, so it is
      accepted; the second update looks like a no-op, and the consumer is left at the first. */
  lemma RepeatedNameHidesAnUpdate()
    ensures var s, updates := RefState(map["a" := "1"], "b", ""), [RefUpdate("a", "1", "2", ""), RefUpdate("a", "1", "1", "")];
            && AllAccepted(s, updates)
            && ConsumeAll(s.refs, EventsOfUpdates(1, updates)) == map["a" := "2"]
            && ApplyUpdates(s, updates).refs == map["a" := "1"]
  {
    var s, first, second := RefState(map["a" := "1"], "b", ""), RefUpdate("a", "1", "2", ""), RefUpdate("a", "1", "1", "");
    var updates := [first, second];
    assert "1"[0] != '0' && "2"[0] != '0' && "a"[0] != HEAD[0];
    assert !IsNull("1") && !IsNull("2");
    assert updates[..1] == [first] && updates[..1][..0] == [];
    assert ApplyUpdates(s, updates[..1]).refs == map["a" := "2"];
    var e := EventFor(1, first).value;
    assert EventFor(1, second).None?;
    assert EventsOfUpdates(1, updates[..1]) == [] + [e];
    assert EventsOfUpdates(1, updates) == [e] + [];
    assert [e][..0] == [];
    assert ConsumeAll(s.refs, [e]) == Consume(s.refs, e);
  }

  /** A false old value can also be harmless: the change is announced all the same. */
  lemma FalseOldMayBeHeard()
    ensures var s, u := RefState(map["a" := "1"], "b", ""), RefUpdate("a", "3", "2", "");
            !TrueOlds(s, [u]) && Heard(Some("1"), [u], "a")
  {
    var s, u := RefState(map["a" := "1"], "b", ""), RefUpdate("a", "3", "2", "");
    assert "3"[0] != '0' && "2"[0] != '0' && "a"[0] != HEAD[0];
    assert [u][..0] == [] && !TrueOld(ApplyUpdates(s, [u][..0]), [u][0]);
  }
}
