/** What the agent says and writes down on its way, and what the server keeps of it, field by field. */
module UpdateReports {
  import opened Wrappers
  import opened SelfUpdate
  import opened UpdateTiming
  import AU = AgentUpdate

  // ---- considering a plan ----

  /** Whenever: own build, no program to replace, updates unsupported, budget used up, all others. */
  lemma {:induction false} DecideIs(selfUpdate: bool, current: string, target: string, after: int, now: int, st: State)
    ensures var action := Decide(selfUpdate, current, target, after, now, st);
            var open := target != "" && target != current && selfUpdate;
            var exhausted := st.target == target && st.terminal >= 3;
            var waiting := st.target == target && st.nextRetry > now;
            && (action.Idle? <==> target in {"", current})
            && (action.Refuse? <==> target !in {"", current} && !selfUpdate)
            && (action.Suppress? <==> open && exhausted)
            && (action.Start? <==> open && !exhausted && !waiting && now >= after)
            && (action.Wait? ==> action.seconds == (if waiting then st.nextRetry else after) - now > 0)
  {
  }

  /** The memory once a plan has been received: unchanged if it was about this plan, but for the anchor; else nothing but
    * the plan. */
  predicate Received(was: State, now: State, target: string, after: int) {
    if SamePlan(was, target, after) then now == was.(anchor := if after != 0 then after else was.anchor)
    else now == State(target, 0, 0, "", 0, 0, after, "")
  }

  /** Hearing of the build it runs, the agent remembers that it is there, if it was on its way to some build; and says so
    * exactly when it was on its way to this one and has not said so yet. */
  lemma {:induction false} OwnBuild(a: Agent, bin: Binary, after: int, now: int, supported: bool)
    requires bin.version != ""
    ensures var b, there := Consider(a, bin, bin.version, after, now, supported), State(bin.version, 0, 0, "", 0, 0, 0, bin.version);
            if a.mem.target == bin.version && a.mem.committed != bin.version then
              b == a.(mem := there, disk := there, sent := a.sent + [Report(bin.version, Committed, None, 0, "")])
            else if a.mem.target !in {"", bin.version} then b == a.(mem := there, disk := there)
            else b == a
  {
  }

  /** It says so once: hearing of it again changes nothing and says nothing. */
  lemma {:induction false} CommittedOnce(a: Agent, bin: Binary, after: int, now: int, supported: bool, again: int)
    requires bin.version != ""
    ensures var b := Consider(a, bin, bin.version, after, now, supported);
            Consider(b, bin, bin.version, after, again, supported) == b
  {
  }

  /** Hearing of another build, the agent notes the plan, unless it has no program to replace, and says: that it cannot
    * update, that it has given up and why, or that it starts; nothing while it waits or is at it. */
  lemma {:induction false} OtherBuild(a: Agent, bin: Binary, target: string, after: int, now: int, supported: bool)
    requires target !in {"", bin.version} && bin.located
    ensures var b := Consider(a, bin, target, after, now, supported);
            var st := b.mem;
            && Received(a.mem, st, target, after) && b.disk == a.disk
            && (if !supported then b.sent == a.sent + [Report(target, Unsupported, None, 0, "unsupported")]
                else if st.terminal >= 3 then b.sent == a.sent + [Report(target, Suppressed, Some(Terminal), st.terminal, st.lastError)]
                else if a.attempt.None? && b.attempt.Some? then
                  b.sent == a.sent + [Report(target, Downloading, None, st.terminal, "")]
                else b.sent == a.sent)
            && (a.attempt.Some? ==> b.attempt == a.attempt && b.timer == a.timer)
  {
  }

  lemma {:induction false} NothingToReplace(a: Agent, bin: Binary, target: string, after: int, now: int, supported: bool)
    requires target != bin.version && !bin.located
    ensures Consider(a, bin, target, after, now, supported) == a
  {
  }

  // ---- a failed attempt, and a restart ----

  /** A failure is written to the file and reported with its class and its count, one more than before if it was about the
    * same target; the third terminal one also that the agent gives up. */
  lemma {:induction false} FailureTells(a: Agent, kind: Class, error: string, now: int)
    requires a.attempt.Some?
    ensures var b, target := AttemptFails(a, kind, error, now), a.attempt.value;
            var terminal := if a.mem.target == target then a.mem.terminal else 0;
            var streak := if a.mem.target == target then a.mem.streak else 0;
            && b.attempt.None? && b.timer == a.timer && b.disk == b.mem
            && b.mem.target == target && b.mem.lastError == error && b.mem.lastAttempt == now
            && b.mem.terminal == (if kind.Terminal? then terminal + 1 else terminal)
            && b.mem.streak == (if kind.Terminal? then streak else streak + 1)
            && (a.mem.target == target ==> b.mem.anchor == a.mem.anchor && b.mem.committed == a.mem.committed)
            && (a.mem.target != target ==> b.mem.anchor == 0 && b.mem.committed == "")
            && b.sent == a.sent + [Report(target, Failed, Some(kind), if kind.Terminal? then terminal + 1 else streak + 1, error)]
                       + (if b.mem.terminal >= 3 then [Report(target, Suppressed, Some(Terminal), b.mem.terminal, error)] else [])
  {
    var b := AttemptFails(a, kind, error, now);
    assert b.sent + [] == b.sent;
  }

  /** A restart leaves what is in the file and what was sent; no attempt, no timer, no memory survives it. */
  lemma {:induction false} RestartLeaves(a: Agent)
    ensures var b := Restart(a);
            b.mem == a.disk && b.disk == a.disk && b.attempt.None? && b.timer.None? && b.sent == a.sent
  {
  }

  // ---- the server's row ----

  /** An offer writes the row only to note that a node has arrived, once, or to plan one anew; a node planned for a target
    * it was not planned for before has no time of arrival. */
  lemma {:induction false} OfferWrites(row: AU.Row, server: AU.Server, offering: bool, now: int)
    requires now > 0 && server.version != ""
    ensures var next, here := AU.Target(row, server, offering, now).0, row.version == server.version;
            && (!offering ==> next == row)
            && (offering && here && row.state == AU.Said(Committed) && row.plannedAt == 0 ==> next == row)
            && (offering && here && !(row.state == AU.Said(Committed) && row.plannedAt == 0) ==>
                  next == AU.Row(row.version, server.version, 0, AU.Said(Committed), row.attempts, "", now))
            && (offering && !here && row.target == server.version && row.plannedAt != 0 ==> next == row)
            && (offering && !here && !(row.target == server.version && row.plannedAt != 0) ==>
                  next == row.(target := server.version, plannedAt := now,
                               doneAt := if row.target == server.version then row.doneAt else 0))
  {
  }

  /** An offer names the server's build and a second that is never negative: the plan's own, moved by the node's slot. The
    * panel shows that second while a plan for that build is pending, and none otherwise. */
  lemma {:induction false} ShownIsOffered(row: AU.Row, server: AU.Server, now: int)
    requires row.version != server.version && server.version != ""
    ensures var (next, offer) := AU.Target(row, server, true, now);
            && offer.Offered? && offer.target == server.version && offer.after >= 0
            && (next.plannedAt + server.offset >= 0 ==> offer.after == next.plannedAt + server.offset)
            && (next.plannedAt + server.offset < 0 ==> offer.after == 0)
            && (next.plannedAt != 0 ==> AU.PlannedStart(next, server.offset) == offer.after)
    ensures row.target == server.version && row.plannedAt == 0 ==> AU.PlannedStart(row, server.offset) == 0
    ensures AU.PlannedStart(row.(version := row.target), server.offset) == 0
  {
  }

  /** A report writes its target, phase, count and error, a transient failure as such, and the time of arrival. */
  lemma {:induction false} ReportWrites(row: AU.Row, r: Report, now: int)
    requires now > 0
    ensures var next := AU.OnReport(row, r, now);
            if r.target == "" then next == row
            else
              && next.version == row.version && next.plannedAt == row.plannedAt
              && next.target == r.target && next.attempts == r.attempts && next.error == r.error
              && next.state == (if r.phase == Failed && r.kind == Some(Transient) then AU.TransientState else AU.Said(r.phase))
              && next.doneAt == (if r.phase == Committed then now else row.doneAt)
  {
  }
}
