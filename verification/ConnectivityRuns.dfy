/** When the cache layer talks to the server at all, over whole runs. */
module ConnectivityRuns {
  import opened Prelude
  import opened KeyedTable
  import opened CacheSpec
  import opened CacheEffects
  import opened CacheAnswers
  import opened CacheRuns

  ghost predicate IsLookup(op: Op) {
    op.LookupUser? || op.LookupGroup?
  }

  // The deadline before which no lookup should try again, if this lookup failed to
  // reach the server: its probe failed, or its question met a transport error (or, for
  // a group, an unauthenticated session).
  ghost function BackoffUntil(st: State, e: Event): Option<int> {
    if !IsLookup(e.op) || e.faults.read then None
    else
      var expired := if e.op.LookupUser?
                     then (var c := Cached(st.tables.accounts, st.nx, e.op.id, e.env.tRead); c.Ok? && c.value.0)
                     else (var c := Cached(st.tables.groups, st.nx, e.op.id, e.env.tRead); c.Ok? && c.value.0);
      if !expired then None
      else if st.mode.OfflineNextCheck? && e.env.tGate >= st.mode.time && !e.env.probeOk then
        Some(e.env.tProbe + 15_000_000_000)
      else if Asks(st, e) && ((e.op.LookupUser? && e.env.userReply == Failed(Transport)) ||
                              (e.op.LookupGroup? && (e.env.groupReply == Failed(Transport) ||
                               e.env.groupReply == Failed(Http(401, Some(NotAuthenticated))))))
      then Some(e.env.tReply + 15_000_000_000)
      else None
  }

  lemma {:induction false} BackoffIsSet(cfg: Config, st: State, e: Event)
    requires BackoffUntil(st, e).Some?
    ensures Next(cfg, st, e).mode == OfflineNextCheck(BackoffUntil(st, e).value)
  {
    if e.op.LookupUser? {
      UserShape(cfg, st, e.op.id, e);
    } else {
      GroupShape(cfg, st, e.op.id, e);
    }
  }

  // The operations that may go online before a back-off is over.
  ghost predicate Interrupts(e: Event) {
    e.op.AttemptOnline? || e.op.Auth? || e.op.Status? || e.op.Restart?
  }

  // Waiting out a back-off, or sticking offline, no lookup sends anything.
  lemma {:induction false} QuietStep(cfg: Config, st: State, e: Event, until: int)
    requires st.mode == Offline || st.mode == OfflineNextCheck(until)
    requires !Interrupts(e) && (IsLookup(e.op) ==> e.env.tGate < until)
    ensures Sent(cfg, st, e) == []
    ensures var m := Next(cfg, st, e).mode; m == Offline || m == st.mode
  {
  }

  lemma {:induction false} RunQuietStep(r: Run, i: nat, until: int)
    requires IsRun(r) && i < |r.events| && (r.states[i].mode == Offline || r.states[i].mode == OfflineNextCheck(until))
    requires !Interrupts(r.events[i]) && r.events[i].env.tGate < until
    ensures r.states[i + 1].mode == Offline || r.states[i + 1].mode == r.states[i].mode
  {
    assert Linked(r, i);
    QuietStep(r.cfg, r.states[i], r.events[i], until);
  }

  lemma {:induction false} QuietMode(r: Run, j: nat, k: nat, until: int)
    requires IsRun(r) && Timed(r) && j < k < |r.events|
    requires r.states[j + 1].mode == OfflineNextCheck(until)
    requires forall i | j < i < k :: !Interrupts(r.events[i])
    requires r.events[k].env.tGate < until
    ensures r.states[k].mode == Offline || r.states[k].mode == OfflineNextCheck(until)
  {
    if k > j + 1 {
      assert r.events[k - 1].env.tReply <= r.events[k].env.tRead;
      QuietMode(r, j, k - 1, until);
      RunQuietStep(r, k - 1, until);
    }
  }

  // After a lookup's failure no lookup contacts the server until 15 seconds later,
  // whatever happens in between short of an explicit attempt to go online, a PAM
  // authentication, a status probe or a restart.
  lemma {:induction false} BackoffHolds(r: Run, j: nat, k: nat)
    requires IsRun(r) && Timed(r) && j < k < |r.events|
    requires BackoffUntil(r.states[j], r.events[j]).Some?
    requires forall i | j < i < k :: !Interrupts(r.events[i])
    requires IsLookup(r.events[k].op) && r.events[k].env.tGate < BackoffUntil(r.states[j], r.events[j]).value
    ensures Sent(r.cfg, r.states[k], r.events[k]) == []
  {
    var until := BackoffUntil(r.states[j], r.events[j]).value;
    assert Linked(r, j);
    BackoffIsSet(r.cfg, r.states[j], r.events[j]);
    QuietMode(r, j, k, until);
    QuietStep(r.cfg, r.states[k], r.events[k], until);
  }

  lemma {:induction false} OfflineStep(cfg: Config, st: State, e: Event)
    requires st.mode == Offline && !e.op.AttemptOnline? && !e.op.Restart?
    ensures Next(cfg, st, e).mode == Offline && Sent(cfg, st, e) == []
  {
  }

  ghost predicate Silent(r: Run, i: int)
    requires IsRun(r) && 0 <= i < |r.events|
  {
    Sent(r.cfg, r.states[i], r.events[i]) == []
  }

  lemma {:induction false} RunOfflineStep(r: Run, i: nat)
    requires IsRun(r) && i < |r.events| && r.states[i].mode == Offline
    requires !r.events[i].op.AttemptOnline? && !r.events[i].op.Restart?
    ensures r.states[i + 1].mode == Offline && Silent(r, i)
  {
    assert Linked(r, i);
    OfflineStep(r.cfg, r.states[i], r.events[i]);
  }

  // Once marked offline, nothing but attempt_online (or a new process) leaves that
  // state, and nothing is sent while in it.
  lemma {:induction false} OfflineSticks(r: Run, j: nat, k: nat)
    requires IsRun(r) && j <= k <= |r.events| && r.states[j].mode == Offline
    requires forall i | j <= i < k :: !r.events[i].op.AttemptOnline? && !r.events[i].op.Restart?
    ensures r.states[k].mode == Offline
    ensures forall i | j <= i < k :: Silent(r, i)
  {
    if k > j {
      OfflineSticks(r, j, k - 1);
      RunOfflineStep(r, k - 1);
    }
  }

  // After a user lookup that the server denied with 401, the next lookup of something stale
  // probes at once, however soon it comes.
  lemma {:induction false} DeniedProbesAtOnce(r: Run, j: nat, k: nat, id: Id)
    requires IsRun(r) && Timed(r) && j < k < |r.events| && r.states[k].mode == r.states[j + 1].mode
    requires r.events[j].op.LookupUser? && Asks(r.states[j], r.events[j])
    requires r.events[j].env.userReply.Failed? && r.events[j].env.userReply.error.Http?
    requires r.events[j].env.userReply.error.status == 401
    requires var st, e := r.states[k], r.events[k];
             && !e.faults.read
             && ((e.op == LookupUser(id) && Stale(st.tables.accounts, st.nx, id, e.env.tRead)) ||
                 (e.op == LookupGroup(id) && Stale(st.tables.groups, st.nx, id, e.env.tRead)))
    ensures var sent := Sent(r.cfg, r.states[k], r.events[k]); sent != [] && sent[0] == AuthAnonymous
  {
    assert Linked(r, j);
    UserAsksIff(r.states[j], r.events[j], r.events[j].op.id);
    ModeFollows(r.cfg, r.states[j], r.events[j]);
    StaleProbes(r.cfg, r.states[k], r.events[k], id);
  }

  // Past its back-off a lookup of something stale begins with a probe.
  lemma {:induction false} StaleProbes(cfg: Config, st: State, e: Event, id: Id)
    requires st.mode.OfflineNextCheck? && e.env.tGate >= st.mode.time && !e.faults.read
    requires (e.op == LookupUser(id) && Stale(st.tables.accounts, st.nx, id, e.env.tRead)) ||
             (e.op == LookupGroup(id) && Stale(st.tables.groups, st.nx, id, e.env.tRead))
    ensures Sent(cfg, st, e) != [] && Sent(cfg, st, e)[0] == AuthAnonymous
  {
  }
}
