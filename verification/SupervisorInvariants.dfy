/** What every elementary write of the supervisor keeps. */
module SupervisorInvariants {
  import opened Wrappers
  import opened Lifecycle
  import opened SupervisorModel

  // ---- the logs agree with the records ----

  ghost predicate Numbered(s: Supervisor) {
    forall id | id in s.commands :: id < s.nextId
  }

  /** The audit rows of a record are a contiguous path from submission to its current state. */
  ghost predicate AuditedAs(rows: seq<Row>, state: State) {
    Contiguous(rows) && rows[|rows| - 1].to == state
  }

  ghost predicate Audited(s: Supervisor) {
    forall id: Id ::
      if id in s.commands then AuditedAs(Rows(s.history, id), s.commands[id].state) else Rows(s.history, id) == []
  }

  ghost predicate Distinct(ids: seq<Id>) {
    forall i, j | 0 <= i < j < |ids| :: ids[i] != ids[j]
  }

  /** A record is handed to ROS at most once, and only after EXECUTION_REQUESTED. */
  ghost predicate Dispatched(s: Supervisor) {
    && Distinct(Sends(s.history))
    && forall id | id in Sends(s.history) :: id in s.commands && Rank(s.commands[id].state) >= Rank(ExecutionRequested)
  }

  /** No step is handed to ROS after its sequence was audited terminal. */
  ghost predicate Ordered(s: Supervisor) {
    forall j | 0 <= j < |s.history| && s.history[j].Sent? ::
      s.history[j].id in s.commands && Before(s.history, j, s.commands[s.history[j].id].parent)
  }

  /** Among the first j events none audits the given sequence terminal. */
  ghost predicate Before(history: seq<Event>, j: nat, sequence: Option<Id>)
    requires j <= |history|
  {
    forall i | 0 <= i < j && history[i].Audit? && Terminal(history[i].row.to) :: sequence != Some(history[i].id)
  }

  ghost predicate Sound(s: Supervisor) {
    Numbered(s) && Audited(s) && Dispatched(s) && Ordered(s)
  }

  lemma RowsSnoc(h: seq<Event>, e: Event, id: Id)
    ensures Rows(h + [e], id) == if e.Audit? && e.id == id then Rows(h, id) + [e.row] else Rows(h, id)
  {
    assert (h + [e])[..|h|] == h;
  }

  lemma SendsSnoc(h: seq<Event>, e: Event)
    ensures Sends(h + [e]) == if e.Sent? then Sends(h) + [e.id] else Sends(h)
  {
    assert (h + [e])[..|h|] == h;
  }

  lemma {:induction false} RowIsListed(h: seq<Event>, i: nat)
    requires i < |h| && h[i].Audit?
    ensures h[i].row in Rows(h, h[i].id)
    decreases |h|
  {
    if i < |h| - 1 {
      RowIsListed(h[..|h| - 1], i);
    }
  }

  lemma {:induction false} SendIsListed(h: seq<Event>, i: nat)
    requires i < |h| && h[i].Sent?
    ensures h[i].id in Sends(h)
    decreases |h|
  {
    if i < |h| - 1 {
      SendIsListed(h[..|h| - 1], i);
    }
  }

  /** A terminal audit row is the record's last word. */
  lemma TerminalRowIsFinal(s: Supervisor, i: nat)
    requires Audited(s) && i < |s.history| && s.history[i].Audit? && Terminal(s.history[i].row.to)
    ensures s.history[i].id in s.commands && Terminal(s.commands[s.history[i].id].state)
  {
    var id := s.history[i].id;
    var rows := Rows(s.history, id);
    RowIsListed(s.history, i);
    PathShape(rows);
  }

  ghost predicate ParentRuns(s: Supervisor, id: Id)
    requires id in s.commands
  {
    var parent := s.commands[id].parent;
    parent.Some? && parent.value in s.commands ==> !Terminal(s.commands[parent.value].state)
  }

  /** Appending one event leaves the order intact unless it is the send of a step whose sequence
      is over. */
  lemma OrderedSnoc(s: Supervisor, t: Supervisor, e: Event)
    requires Sound(s) && t.history == s.history + [e]
    requires forall id | id in s.commands :: id in t.commands && t.commands[id].parent == s.commands[id].parent
    requires e.Sent? ==> e.id in s.commands && ParentRuns(s, e.id)
    ensures Ordered(t)
  {
    forall j | 0 <= j < |t.history| && t.history[j].Sent?
      ensures t.history[j].id in t.commands && Before(t.history, j, t.commands[t.history[j].id].parent)
    {
      if j < |s.history| {
        assert t.history[j] == s.history[j];
        assert Before(s.history, j, s.commands[s.history[j].id].parent);
      } else {
        forall i | 0 <= i < j && t.history[i].Audit? && Terminal(t.history[i].row.to)
          ensures t.commands[e.id].parent != Some(t.history[i].id)
        {
          assert t.history[i] == s.history[i];
          TerminalRowIsFinal(s, i);
        }
      }
    }
  }

  lemma PutSound(s: Supervisor, id: Id, r: Record)
    requires Sound(s) && id in s.commands && r.state == s.commands[id].state && r.parent == s.commands[id].parent
    ensures Sound(Put(s, id, r))
  {
  }

  lemma InsertAudited(s: Supervisor, r: Record)
    requires Numbered(s) && Audited(s) && r.state == Received
    ensures Audited(Insert(s, r))
  {
    var t := Insert(s, r);
    forall x: Id
      ensures if x in t.commands then AuditedAs(Rows(t.history, x), t.commands[x].state) else Rows(t.history, x) == []
    {
      RowsSnoc(s.history, Audit(s.nextId, Row(None, Received)), x);
      assert if x in s.commands then AuditedAs(Rows(s.history, x), s.commands[x].state) else Rows(s.history, x) == [];
    }
  }

  lemma InsertSound(s: Supervisor, r: Record)
    requires Sound(s) && r.state == Received
    ensures Sound(Insert(s, r)) && s.nextId !in s.commands
    ensures Sends(Insert(s, r).history) == Sends(s.history)
  {
    var t := Insert(s, r);
    var e := Audit(s.nextId, Row(None, Received));
    SendsSnoc(s.history, e);
    assert Audited(t) by { InsertAudited(s, r); }
    assert Ordered(t) by { OrderedSnoc(s, t, e); }
  }

  ghost predicate Legal(f: Flow, id: Id, next: State) {
    f.fault == Clear && id in f.s.commands && Allowed(f.s.commands[id].state, next)
  }

  lemma MoveAudited(f: Flow, id: Id, next: State)
    requires Audited(f.s) && Legal(f, id, next)
    ensures Audited(Move(f, id, next).s)
  {
    var t := Move(f, id, next).s;
    ContiguousSnoc(Rows(f.s.history, id), next);
    forall x: Id
      ensures if x in t.commands then AuditedAs(Rows(t.history, x), t.commands[x].state) else Rows(t.history, x) == []
    {
      RowsSnoc(f.s.history, Audit(id, Row(Some(f.s.commands[id].state), next)), x);
      assert if x in f.s.commands then AuditedAs(Rows(f.s.history, x), f.s.commands[x].state) else Rows(f.s.history, x) == [];
    }
  }

  lemma MoveDispatched(f: Flow, id: Id, next: State)
    requires Dispatched(f.s) && Legal(f, id, next)
    ensures Dispatched(Move(f, id, next).s) && Sends(Move(f, id, next).s.history) == Sends(f.s.history)
  {
    hide Sends;
    SendsSnoc(f.s.history, Audit(id, Row(Some(f.s.commands[id].state), next)));
    AllowedRises(f.s.commands[id].state, next);
  }

  lemma AllowedRises(from: State, to: State)
    requires Allowed(from, to)
    ensures Rank(from) < Rank(to)
  {
  }

  lemma MoveOrdered(f: Flow, id: Id, next: State)
    requires Sound(f.s) && Legal(f, id, next)
    ensures Ordered(Move(f, id, next).s)
  {
    OrderedSnoc(f.s, Move(f, id, next).s, Audit(id, Row(Some(f.s.commands[id].state), next)));
  }

  lemma MoveSound(f: Flow, id: Id, next: State)
    requires Sound(f.s)
    ensures Sound(Move(f, id, next).s)
    ensures Sends(Move(f, id, next).s.history) == Sends(f.s.history)
  {
    if Legal(f, id, next) {
      MoveAudited(f, id, next);
      MoveDispatched(f, id, next);
      MoveOrdered(f, id, next);
    }
  }

  /** A record that has not reached EXECUTION_REQUESTED has not been handed to ROS. */
  lemma IssueSound(f: Flow, id: Id)
    requires Sound(f.s) && f.fault == Clear
    requires id in f.s.commands && Rank(f.s.commands[id].state) >= Rank(ExecutionRequested) && id !in Sends(f.s.history)
    requires ParentRuns(f.s, id)
    ensures Sound(Issue(f, id).s)
    ensures Sends(Issue(f, id).s.history) == Sends(f.s.history) + [id]
  {
    var t := Issue(f, id).s;
    SendsSnoc(f.s.history, Sent(id));
    forall x: Id ensures Rows(t.history, x) == Rows(f.s.history, x) {
      RowsSnoc(f.s.history, Sent(id), x);
    }
    OrderedSnoc(f.s, t, Sent(id));
  }

  // ---- families, the active job, final states ----

  /** A step names its sequence, and the sequence lists it at the step's index. */
  ghost predicate Linked(s: Supervisor, id: Id)
    requires id in s.commands
  {
    var r := s.commands[id];
    && (r.kind == Command ==> r.children == [])
    && (r.kind == Sequence ==> r.parent.None?)
    && (r.parent.Some? ==>
          && r.parent.value in s.commands
          && s.commands[r.parent.value].kind == Sequence
          && r.stepIndex < |s.commands[r.parent.value].children|
          && s.commands[r.parent.value].children[r.stepIndex] == id
          && r.sessionId == s.commands[r.parent.value].sessionId
          && r.operatorId == s.commands[r.parent.value].operatorId)
    && (forall i | 0 <= i < |r.children| ::
          && r.children[i] in s.commands
          && s.commands[r.children[i]].parent == Some(id)
          && s.commands[r.children[i]].stepIndex == i)
  }

  ghost predicate Families(s: Supervisor) {
    forall id | id in s.commands :: Linked(s, id)
  }

  /** A record without a parent that is not over is the one the supervisor names. */
  ghost predicate Named(s: Supervisor, id: Id)
    requires id in s.commands
  {
    if s.commands[id].kind == Sequence then s.activeSequence == Some(id)
    else s.activeCommand == Some(id) && s.activeSequence == None
  }

  ghost predicate SingleJob(s: Supervisor) {
    forall id | id in s.commands && s.commands[id].parent.None? && !Terminal(s.commands[id].state) :: Named(s, id)
  }

  /** A final state, when set, is the lifecycle state; a command has one exactly when it is over. */
  ghost predicate Finalised(r: Record) {
    && (r.finalState.Some? ==> r.finalState.value == r.state && Terminal(r.state))
    && (r.kind == Command ==> (Terminal(r.state) <==> r.finalState.Some?))
    && (Terminal(r.state) && r.finalState.None? ==> r.state == Failed)
  }

  ghost predicate Finals(s: Supervisor) {
    forall id | id in s.commands :: Finalised(s.commands[id])
  }

  /** The active sequence, once there is one, is a sequence. */
  ghost predicate Pointed(s: Supervisor) {
    s.activeSequence.Some? ==> s.activeSequence.value in s.commands && s.commands[s.activeSequence.value].kind == Sequence
  }

  ghost predicate Core(s: Supervisor) {
    Sound(s) && Families(s) && SingleJob(s) && Finals(s) && Pointed(s)
  }

  /** While a sequence waits for confirmation so do all its steps. */
  ghost predicate StepsWait(s: Supervisor, id: Id)
    requires id in s.commands
  {
    forall c | c in s.commands[id].children :: c in s.commands && s.commands[c].state == NeedsConfirmation
  }

  ghost predicate Staged(s: Supervisor) {
    forall id | id in s.commands && s.commands[id].kind == Sequence && s.commands[id].state == NeedsConfirmation ::
      StepsWait(s, id)
  }

  /** What holds between calls. */
  ghost predicate Inv(s: Supervisor) {
    Core(s) && Staged(s)
  }

  ghost predicate SameShape(a: Record, b: Record) {
    && a.kind == b.kind && a.sessionId == b.sessionId && a.operatorId == b.operatorId && a.mode == b.mode
    && a.parent == b.parent && a.stepIndex == b.stepIndex && a.children == b.children
  }

  /** One record's contents changed; nothing else did, but for the logs. */
  ghost predicate OnlyTouches(s: Supervisor, t: Supervisor, id: Id) {
    && id in s.commands && id in t.commands
    && t.commands == s.commands[id := t.commands[id]]
    && SameShape(s.commands[id], t.commands[id])
    && t.nextId == s.nextId && t.lock == s.lock
    && t.activeCommand == s.activeCommand && t.activeSequence == s.activeSequence
  }

  lemma TouchFamilies(s: Supervisor, t: Supervisor, id: Id)
    requires Families(s) && OnlyTouches(s, t, id)
    ensures Families(t)
  {
    forall x | x in t.commands ensures Linked(t, x) {
      assert Linked(s, x);
    }
  }

  lemma TouchJob(s: Supervisor, t: Supervisor, id: Id)
    requires SingleJob(s) && OnlyTouches(s, t, id)
    requires Terminal(s.commands[id].state) ==> Terminal(t.commands[id].state)
    ensures SingleJob(t)
  {
    forall x | x in t.commands && t.commands[x].parent.None? && !Terminal(t.commands[x].state) ensures Named(t, x) {
      assert Named(s, x);
    }
  }

  lemma TouchPointed(s: Supervisor, t: Supervisor, id: Id)
    requires Pointed(s) && OnlyTouches(s, t, id)
    ensures Pointed(t)
  {
  }

  /** Changing one record in place keeps everything but the logs' agreement, provided a record that
      is over stays over and the new final state fits. */
  lemma TouchCore(s: Supervisor, t: Supervisor, id: Id)
    requires Families(s) && SingleJob(s) && Finals(s) && Pointed(s)
    requires OnlyTouches(s, t, id) && Sound(t) && Finalised(t.commands[id])
    requires Terminal(s.commands[id].state) ==> Terminal(t.commands[id].state)
    ensures Core(t)
  {
    hide Sound, Families, SingleJob, SameShape, Pointed;
    TouchFamilies(s, t, id);
    TouchJob(s, t, id);
    TouchPointed(s, t, id);
  }

  lemma MoveCore(f: Flow, id: Id, next: State)
    requires Core(f.s) && Legal(f, id, next) && !Terminal(next)
    ensures var g := Move(f, id, next);
            && Core(g.s) && g.fault == Clear && OnlyTouches(f.s, g.s, id)
            && g.s.commands[id] == f.s.commands[id].(state := next)
            && Sends(g.s.history) == Sends(f.s.history)
  {
    hide Sound, Families, SingleJob, Sends, Move, OnlyTouches;
    MoveSound(f, id, next);
    MoveTouches(f, id, next);
    assert Finalised(f.s.commands[id]);
    TouchCore(f.s, Move(f, id, next).s, id);
  }

  lemma MoveTouches(f: Flow, id: Id, next: State)
    requires Legal(f, id, next)
    ensures var g := Move(f, id, next);
            && g.fault == Clear && OnlyTouches(f.s, g.s, id)
            && g.s.commands[id] == f.s.commands[id].(state := next)
  {
  }

  lemma CloseTouches(f: Flow, id: Id, final: State)
    requires Legal(f, id, final)
    ensures var g := Close(f, id, final);
            && g.fault == Clear && OnlyTouches(f.s, g.s, id)
            && g.s.commands[id] == f.s.commands[id].(state := final, finalState := Some(final))
  {
  }

  lemma CloseSound(f: Flow, id: Id, final: State)
    requires Sound(f.s) && f.fault == Clear && id in f.s.commands
    ensures Sound(Close(f, id, final).s) && Sends(Close(f, id, final).s.history) == Sends(f.s.history)
  {
    var h := SetFinal(f, id, Some(final));
    PutSound(f.s, id, h.s.commands[id]);
    MoveSound(h, id, final);
  }

  lemma CloseCore(f: Flow, id: Id, final: State)
    requires Core(f.s) && Legal(f, id, final) && Terminal(final)
    ensures var g := Close(f, id, final);
            && Core(g.s) && g.fault == Clear && OnlyTouches(f.s, g.s, id)
            && g.s.commands[id] == f.s.commands[id].(state := final, finalState := Some(final))
            && Sends(g.s.history) == Sends(f.s.history)
  {
    hide Sound, Families, SingleJob, Sends, Close, OnlyTouches;
    CloseSound(f, id, final);
    CloseTouches(f, id, final);
    TouchCore(f.s, Close(f, id, final).s, id);
  }

  /** Writing a field that no invariant looks at. */
  lemma PutCore(s: Supervisor, id: Id, r: Record)
    requires Core(s) && id in s.commands && SameShape(s.commands[id], r)
    requires r.state == s.commands[id].state && r.finalState == s.commands[id].finalState
    ensures Core(Put(s, id, r)) && OnlyTouches(s, Put(s, id, r), id)
  {
    PutSound(s, id, r);
    assert Finalised(s.commands[id]);
    TouchCore(s, Put(s, id, r), id);
  }

  lemma LockInv(s: Supervisor, slot: Lock.Slot)
    requires Inv(s)
    ensures Inv(s.(lock := slot))
  {
    var t := s.(lock := slot);
    forall x | x in t.commands ensures Linked(t, x) {
      assert Linked(s, x);
    }
    forall x | x in t.commands && t.commands[x].parent.None? && !Terminal(t.commands[x].state) ensures Named(t, x) {
      assert Named(s, x);
    }
    forall x | x in t.commands && t.commands[x].kind == Sequence && t.commands[x].state == NeedsConfirmation
      ensures StepsWait(t, x)
    {
      assert StepsWait(s, x);
    }
  }
}
