/** Negative caching over whole runs: what the server said does not exist. */
module NegativeRuns {
  import opened Prelude
  import opened KeyedTable
  import opened CacheTables
  import opened NegativeCache
  import opened CacheSpec
  import opened CacheEffects
  import opened CacheRuns

  ghost predicate ClearsNx(e: Event) {
    e.op.ClearCache? || e.op.Invalidate? || e.op.Restart?
  }

  // The identifier an operation looks up.
  ghost function Subject(e: Event): Option<Id> {
    match e.op
    case LookupUser(id) => Some(id)
    case LookupGroup(id) => Some(id)
    case Auth(name, _) => Some(Name(name))
    case _ => None
  }

  // The negative cache after a step: emptied, or the subject looked up and, when the
  // server said it is missing and the cached item could be dropped, remembered.
  ghost function Remembers(st: State, e: Event): bool {
    ToldMissing(st, e) &&
    ((if e.op.LookupUser? then ItemUser(st, e.op.id, e.env.tRead).None?
      else ItemGroup(st, e.op.id, e.env.tRead).None?) || !e.faults.write)
  }

  ghost function NextNx(cfg: Config, st: State, e: Event): seq<Entry> {
    if ClearsNx(e) then []
    else if Remembers(st, e) then Insert(ReadNx(st, e), NXCACHE_SIZE, e.op.id, Deadline(cfg, e.env.tReply))
    else ReadNx(st, e)
  }

  lemma {:induction false} UserNx(cfg: Config, st: State, id: Id, e: Event)
    requires e.op == LookupUser(id)
    ensures Next(cfg, st, e).nx == NextNx(cfg, st, e)
  {
    UserShape(cfg, st, id, e);
  }

  lemma {:induction false} GroupNx(cfg: Config, st: State, id: Id, e: Event)
    requires e.op == LookupGroup(id)
    ensures Next(cfg, st, e).nx == NextNx(cfg, st, e)
  {
    GroupShape(cfg, st, id, e);
  }

  lemma {:induction false} AuthNx(cfg: Config, st: State, name: string, cred: string, e: Event)
    requires e.op == Auth(name, cred)
    ensures Next(cfg, st, e).nx == NextNx(cfg, st, e)
  {
    AuthShape(cfg, st, name, cred, e);
  }

  lemma {:induction false} NxFollows(cfg: Config, st: State, e: Event)
    ensures Next(cfg, st, e).nx == NextNx(cfg, st, e)
  {
    match e.op
    case LookupUser(id) => UserNx(cfg, st, id, e);
    case LookupGroup(id) => GroupNx(cfg, st, id, e);
    case Auth(name, cred) => AuthNx(cfg, st, name, cred, e);
    case _ =>
  }

  lemma {:induction false} RunNx(r: Run, i: nat)
    requires IsRun(r) && i < |r.events|
    ensures r.states[i + 1].nx == NextNx(r.cfg, r.states[i], r.events[i])
  {
    assert Linked(r, i);
    NxFollows(r.cfg, r.states[i], r.events[i]);
  }

  lemma {:induction false} ReadNxKeeps(st: State, e: Event, id: Id)
    requires NegativeCache.Valid(st.nx, NXCACHE_SIZE)
    ensures NegativeCache.Valid(ReadNx(st, e), NXCACHE_SIZE)
    ensures Lookup(ReadNx(st, e), id) == Lookup(st.nx, id)
    ensures Lookup(st.nx, id).Some? && Subject(e) == Some(id) && ReadNx(st, e) != st.nx ==>
              Ahead(ReadNx(st, e), id) == {}
    ensures Lookup(st.nx, id).Some? && Subject(e).Some? && Subject(e) != Some(id) ==>
              Ahead(ReadNx(st, e), id) <= Ahead(st.nx, id) + {Subject(e).value}
  {
    if Subject(e).Some? {
      var x := Subject(e).value;
      TouchValid(st.nx, NXCACHE_SIZE, x);
      if x != id { TouchOther(st.nx, NXCACHE_SIZE, x, id); }
    }
  }

  lemma {:induction false} RunNxValid(r: Run, k: nat)
    requires IsRun(r) && k < |r.states|
    ensures NegativeCache.Valid(r.states[k].nx, NXCACHE_SIZE)
  {
    if k > 0 {
      RunNxValid(r, k - 1);
      var st, e := r.states[k - 1], r.events[k - 1];
      RunNx(r, k - 1);
      ReadNxKeeps(st, e, Gid(0));
      if Remembers(st, e) {
        InsertValid(ReadNx(st, e), NXCACHE_SIZE, e.op.id, Deadline(r.cfg, e.env.tReply));
      }
    }
  }

  // Event j was told that id does not exist, remembered it until t, and nothing has
  // emptied the negative cache or remembered id again before state k.
  ghost predicate NxFrom(r: Run, k: int, id: Id, t: int, j: int)
    requires IsRun(r) && 0 <= k < |r.states|
  {
    && 0 <= j < k && Remembers(r.states[j], r.events[j]) && r.events[j].op.id == id
    && t == r.events[j].env.tReply + r.cfg.timeoutSeconds * 1_000_000_000
    && (forall i | j < i < k :: !ClearsNx(r.events[i]))
    && (forall i | j < i < k :: !(Remembers(r.states[i], r.events[i]) && r.events[i].op.id == id))
  }

  // Remembering another identifier adds no memory of id.
  lemma {:induction false} ReadThenInsert(nx: seq<Entry>, x: Id, t: int, id: Id)
    requires NegativeCache.Valid(nx, NXCACHE_SIZE) && x != id
    ensures Lookup(Insert(nx, NXCACHE_SIZE, x, t), id).Some? ==>
              Lookup(Insert(nx, NXCACHE_SIZE, x, t), id) == Lookup(nx, id)
  {
    if Lookup(nx, id).Some? {
      InsertOther(nx, NXCACHE_SIZE, x, t, id);
    } else {
      InsertAbsent(nx, NXCACHE_SIZE, x, t, id);
    }
  }

  // A memory is either new at this step or was there before, and then nothing emptied
  // the negative cache.
  lemma {:induction false} NxStep(r: Run, i: nat, id: Id)
    requires IsRun(r) && i < |r.events| && Lookup(r.states[i + 1].nx, id).Some?
    ensures var st, e := r.states[i], r.events[i];
            if Remembers(st, e) && e.op.id == id then
              Lookup(r.states[i + 1].nx, id).value == Deadline(r.cfg, e.env.tReply)
            else Lookup(r.states[i + 1].nx, id) == Lookup(st.nx, id)
    ensures !ClearsNx(r.events[i])
  {
    var st, e := r.states[i], r.events[i];
    RunNx(r, i);
    RunNxValid(r, i);
    ReadNxKeeps(st, e, id);
    if Remembers(st, e) {
      var t := Deadline(r.cfg, e.env.tReply);
      if e.op.id == id {
        InsertValid(ReadNx(st, e), NXCACHE_SIZE, id, t);
      } else {
        ReadThenInsert(ReadNx(st, e), e.op.id, t, id);
      }
    }
  }

  lemma {:induction false} NxOrigin(r: Run, k: nat, id: Id) returns (j: int)
    requires IsRun(r) && k < |r.states| && Lookup(r.states[k].nx, id).Some?
    ensures NxFrom(r, k, id, Lookup(r.states[k].nx, id).value, j)
  {
    if k == 0 {
      assert false;
    }
    NxStep(r, k - 1, id);
    if Remembers(r.states[k - 1], r.events[k - 1]) && r.events[k - 1].op.id == id {
      j := k - 1;
    } else {
      j := NxOrigin(r, k - 1, id);
    }
  }

  // An Online lookup that answers None without a request found its identifier remembered.
  lemma {:induction false} SilentNone(cfg: Config, st: State, e: Event, id: Id)
    requires st.mode == Online && Sent(cfg, st, e) == []
    requires (e.op == LookupUser(id) && GetUser(cfg, st, id, e.env, e.faults).answer == Ok(None)) ||
             (e.op == LookupGroup(id) && GetGroup(cfg, st, id, e.env, e.faults).answer == Ok(None))
    ensures Lookup(st.nx, id).Some? && e.env.tRead < Lookup(st.nx, id).value
  {
  }

  // While Online, "no such entry" without a request means that the server said so for
  // this very identifier, on the account or the group endpoint, less than the timeout
  // ago and since the last clear, invalidation or restart.
  lemma {:induction false} NoContactNoneWasTold(r: Run, k: nat, id: Id)
    requires IsRun(r) && Timed(r) && k < |r.events| && r.states[k].mode == Online
    requires var st, e := r.states[k], r.events[k];
             && Sent(r.cfg, st, e) == []
             && ((e.op == LookupUser(id) && GetUser(r.cfg, st, id, e.env, e.faults).answer == Ok(None)) ||
                 (e.op == LookupGroup(id) && GetGroup(r.cfg, st, id, e.env, e.faults).answer == Ok(None)))
    ensures exists j, t :: NxFrom(r, k, id, t, j)
              && r.events[j].env.tReply <= r.events[k].env.tRead < t
  {
    var st, e := r.states[k], r.events[k];
    SilentNone(r.cfg, st, e, id);
    var j := NxOrigin(r, k, id);
    assert NxFrom(r, k, id, Lookup(st.nx, id).value, j);
  }

  // -------------------------------------------------------------- after invalidate

  // A lookup that sends nothing answers an error only if storage failed or two rows answer
  // to the identifier.
  lemma {:induction false} SilentUserErr(cfg: Config, st: State, e: Event, id: Id)
    requires Sound(st.tables, cfg.fk) && e.op == LookupUser(id) && Sent(cfg, st, e) == []
    requires GetUser(cfg, st, id, e.env, e.faults).answer == Err
    ensures e.faults.read || Ambiguous(st.tables.accounts, id)
  {
    assert forall u | u in st.tables.accounts :: AccountRowOk(st.tables, u);
  }

  lemma {:induction false} SilentGroupErr(cfg: Config, st: State, e: Event, id: Id)
    requires Sound(st.tables, cfg.fk) && e.op == LookupGroup(id) && Sent(cfg, st, e) == []
    requires GetGroup(cfg, st, id, e.env, e.faults).answer == Err
    ensures e.faults.read || Ambiguous(st.tables.groups, id)
  {
    assert forall u | u in st.tables.groups :: GroupRowOk(st.tables, u);
  }

  // After an invalidation, an Online lookup that sends nothing answers an error because
  // storage failed or two rows answer to the identifier, or a token the server sent since,
  // or "missing" because the server said so since.
  lemma {:induction false} InvalidateForcesContactUser(r: Run, i: nat, k: nat, id: Id)
    requires IsRun(r) && Timed(r) && i < k < |r.events|
    requires r.events[i].op.Invalidate? && !r.events[i].faults.write
    requires r.events[k].op == LookupUser(id) && r.states[k].mode == Online && 0 <= r.events[k].env.tRead
    requires Sent(r.cfg, r.states[k], r.events[k]) == []
    ensures match GetUser(r.cfg, r.states[k], id, r.events[k].env, r.events[k].faults).answer
            case Err => r.events[k].faults.read || Ambiguous(r.states[k].tables.accounts, id)
            case Ok(Some(tok)) => exists j :: i < j && FreshUser(r, k, tok, r.events[k].env.tRead, j)
            case Ok(None) => exists j, t :: i < j && NxFrom(r, k, id, t, j)
  {
    assert Linked(r, i);
    match GetUser(r.cfg, r.states[k], id, r.events[k].env, r.events[k].faults).answer
    case Err =>
      RunSound(r, k);
      SilentUserErr(r.cfg, r.states[k], r.events[k], id);
    case Ok(Some(tok)) =>
      OnlineUserAnswerIsFresh(r, k, id, tok);
      var j :| FreshUser(r, k, tok, r.events[k].env.tRead, j);
      assert !Asks(r.states[i], r.events[i]);
    case Ok(None) =>
      NoContactNoneWasTold(r, k, id);
      var j, t :| NxFrom(r, k, id, t, j);
      assert !Remembers(r.states[i], r.events[i]);
  }

  lemma {:induction false} InvalidateForcesContactGroup(r: Run, i: nat, k: nat, id: Id)
    requires IsRun(r) && Timed(r) && i < k < |r.events|
    requires r.events[i].op.Invalidate? && !r.events[i].faults.write
    requires r.events[k].op == LookupGroup(id) && r.states[k].mode == Online && 0 <= r.events[k].env.tRead
    requires Sent(r.cfg, r.states[k], r.events[k]) == []
    ensures match GetGroup(r.cfg, r.states[k], id, r.events[k].env, r.events[k].faults).answer
            case Err => r.events[k].faults.read || Ambiguous(r.states[k].tables.groups, id)
            case Ok(Some(tok)) => exists j :: i < j && FreshGroup(r, k, tok, r.events[k].env.tRead, j)
            case Ok(None) => exists j, t :: i < j && NxFrom(r, k, id, t, j)
  {
    assert Linked(r, i);
    match GetGroup(r.cfg, r.states[k], id, r.events[k].env, r.events[k].faults).answer
    case Err =>
      RunSound(r, k);
      SilentGroupErr(r.cfg, r.states[k], r.events[k], id);
    case Ok(Some(tok)) =>
      OnlineGroupAnswerIsFresh(r, k, id, tok);
      var j :| FreshGroup(r, k, tok, r.events[k].env.tRead, j);
      assert !Asks(r.states[i], r.events[i]);
    case Ok(None) =>
      NoContactNoneWasTold(r, k, id);
      var j, t :| NxFrom(r, k, id, t, j);
      assert !Remembers(r.states[i], r.events[i]);
  }

  // --------------------------------------------- how long "missing" is remembered

  // No row answers to the identifier on the endpoint asked.
  ghost predicate Misses(t: Tables, op: Op)
    requires op.LookupUser? || op.LookupGroup?
  {
    if op.LookupUser? then forall u | u in t.accounts :: !Matches(t.accounts, u, op.id)
    else forall u | u in t.groups :: !Matches(t.groups, u, op.id)
  }

  // The effect stores a token that answers to the identifier.
  ghost predicate Reinserts(eff: Effect, op: Op)
    requires op.LookupUser? || op.LookupGroup?
  {
    if op.LookupUser? then eff.Saves() && Fits(eff.tok.uuid, UserKeys(eff.tok), op.id)
    else exists g :: g in Carried(eff) && Fits(g.uuid, GroupKeys(g), op.id)
  }

  lemma {:induction false} NoItemNoMatch<T>(t: Table<T>, nx: seq<Entry>, id: Id, now: int)
    requires Cached(t, nx, id, now).Ok?
    ensures match Cached(t, nx, id, now).value.1
            case None => forall u | u in t :: !Matches(t, u, id)
            case Some(tok) =>
              exists u :: u in t && t[u].token == tok && forall v | v in t && Matches(t, v, id) :: v == u
  {
  }

  // Once the server has said so, no row answers to the identifier any more.
  lemma {:induction false} ToldMissingClears(cfg: Config, st: State, e: Event)
    requires Sound(st.tables, cfg.fk) && Remembers(st, e)
    ensures Misses(Next(cfg, st, e).tables, e.op)
  {
    if e.op.LookupUser? {
      UserGone(cfg, st, e);
    } else {
      GroupGone(cfg, st, e);
    }
  }

  lemma {:induction false} UserGone(cfg: Config, st: State, e: Event)
    requires Sound(st.tables, cfg.fk) && Remembers(st, e) && e.op.LookupUser?
    ensures Misses(Next(cfg, st, e).tables, e.op)
  {
    UserFollows(cfg, st, e.op.id, e);
    var t := st.tables.accounts;
    NoItemNoMatch(t, st.nx, e.op.id, e.env.tRead);
    var item := ItemUser(st, e.op.id, e.env.tRead);
    if item.Some? {
      var u :| u in t && t[u].token == item.value && forall v | v in t && Matches(t, v, e.op.id) :: v == u;
      assert AccountRowOk(st.tables, u);
    }
  }

  lemma {:induction false} GroupGone(cfg: Config, st: State, e: Event)
    requires Sound(st.tables, cfg.fk) && Remembers(st, e) && e.op.LookupGroup?
    ensures Misses(Next(cfg, st, e).tables, e.op)
  {
    GroupFollows(cfg, st, e.op.id, e);
    var t := st.tables.groups;
    NoItemNoMatch(t, st.nx, e.op.id, e.env.tRead);
    var item := ItemGroup(st, e.op.id, e.env.tRead);
    if item.Some? {
      var u :| u in t && t[u].token == item.value && forall v | v in t && Matches(t, v, e.op.id) :: v == u;
      assert GroupRowOk(st.tables, u);
    }
  }

  lemma {:induction false} StillMisses(r: Run, i: nat, op: Op)
    requires IsRun(r) && i < |r.events| && (op.LookupUser? || op.LookupGroup?)
    requires Misses(r.states[i].tables, op) && !Reinserts(r.effects[i], op)
    ensures Misses(r.states[i + 1].tables, op)
  {
    RunSound(r, i);
    RunSound(r, i + 1);
    var t, t' := r.states[i].tables, r.states[i + 1].tables;
    if op.LookupUser? {
      forall u | u in t'.accounts ensures !Matches(t'.accounts, u, op.id) {
        UserRowStep(r, i, u);
        assert AccountRowOk(t', u) && (u in t.accounts ==> AccountRowOk(t, u));
      }
    } else {
      forall u | u in t'.groups ensures !Matches(t'.groups, u, op.id) {
        GroupRowsStep(r, i, u);
        assert GroupRowOk(t', u) && (u in t.groups ==> GroupRowOk(t, u));
      }
    }
  }

  // The other identifiers that events after j and before i asked the cache about.
  ghost function Queried(r: Run, id: Id, j: int, i: int): set<Id>
    requires 0 <= j && i <= |r.events|
    decreases i - j
  {
    if i <= j + 1 then {}
    else
      var s := Subject(r.events[i - 1]);
      Queried(r, id, j, i - 1) + if s.Some? && s.value != id then {s.value} else {}
  }

  lemma {:induction false} QueriedGrows(r: Run, id: Id, j: int, i: int, k: int)
    requires 0 <= j && i <= k <= |r.events|
    ensures Queried(r, id, j, i) <= Queried(r, id, j, k)
    decreases k - i
  {
    if i < k {
      QueriedGrows(r, id, j, i, k - 1);
    }
  }

  // What is remembered from the moment event j was told that id is missing.
  ghost predicate Held(r: Run, id: Id, j: int, i: int)
    requires IsRun(r) && 0 <= j < i < |r.states|
  {
    var nx := r.states[i].nx;
    && Lookup(nx, id).Some? && Lookup(nx, id).value >= Deadline(r.cfg, r.events[j].env.tReply)
    && Ahead(nx, id) <= Queried(r, id, j, i)
  }

  lemma {:induction false} HeldStep(r: Run, id: Id, j: nat, i: nat)
    requires IsRun(r) && Timed(r) && j < i < |r.events|
    requires Held(r, id, j, i) && !ClearsNx(r.events[i]) && |Queried(r, id, j, i + 1)| < NXCACHE_SIZE
    ensures Held(r, id, j, i + 1)
  {
    var st, e := r.states[i], r.events[i];
    RunNx(r, i);
    RunNxValid(r, i);
    ReadNxKeeps(st, e, id);
    var nx := ReadNx(st, e);
    if Remembers(st, e) {
      if e.op.id == id {
        InsertValid(nx, NXCACHE_SIZE, id, Deadline(r.cfg, e.env.tReply));
      } else {
        InsertOther(nx, NXCACHE_SIZE, e.op.id, Deadline(r.cfg, e.env.tReply), id);
        SubsetSize(Ahead(nx, id) + {e.op.id}, Queried(r, id, j, i + 1));
      }
    }
  }

  lemma {:induction false} HeldFirst(r: Run, j: nat)
    requires IsRun(r) && j < |r.events| && Remembers(r.states[j], r.events[j])
    ensures Held(r, r.events[j].op.id, j, j + 1)
  {
    var st, e := r.states[j], r.events[j];
    RunNx(r, j);
    RunNxValid(r, j);
    ReadNxKeeps(st, e, e.op.id);
    InsertValid(ReadNx(st, e), NXCACHE_SIZE, e.op.id, Deadline(r.cfg, e.env.tReply));
  }

  lemma {:induction false} HeldUntil(r: Run, j: nat, k: nat)
    requires IsRun(r) && Timed(r) && j < k <= |r.events| && Remembers(r.states[j], r.events[j])
    requires forall i | j < i < k :: !ClearsNx(r.events[i])
    requires |Queried(r, r.events[j].op.id, j, k)| < NXCACHE_SIZE
    ensures Held(r, r.events[j].op.id, j, k)
  {
    var id := r.events[j].op.id;
    if k == j + 1 {
      HeldFirst(r, j);
    } else {
      QueriedGrows(r, id, j, k - 1, k);
      SubsetSize(Queried(r, id, j, k - 1), Queried(r, id, j, k));
      HeldUntil(r, j, k - 1);
      HeldStep(r, id, j, k - 1);
    }
  }

  lemma {:induction false} MissesUntil(r: Run, op: Op, j: nat, k: nat)
    requires IsRun(r) && j < k <= |r.events| && (op.LookupUser? || op.LookupGroup?)
    requires r.events[j].op == op && Remembers(r.states[j], r.events[j])
    requires forall i | j < i < k :: !Reinserts(r.effects[i], op)
    ensures Misses(r.states[k].tables, op)
  {
    if k == j + 1 {
      RunSound(r, j);
      assert Linked(r, j);
      ToldMissingClears(r.cfg, r.states[j], r.events[j]);
    } else {
      MissesUntil(r, op, j, k - 1);
      StillMisses(r, k - 1, op);
    }
  }

  ghost predicate AnswersMissing(cfg: Config, st: State, e: Event)
    requires e.op.LookupUser? || e.op.LookupGroup?
  {
    && Sent(cfg, st, e) == []
    && (e.op.LookupUser? ==> GetUser(cfg, st, e.op.id, e.env, e.faults).answer == Ok(None))
    && (e.op.LookupGroup? ==> GetGroup(cfg, st, e.op.id, e.env, e.faults).answer == Ok(None))
  }

  lemma {:induction false} RememberedAnswer(cfg: Config, st: State, e: Event)
    requires e.op.LookupUser? || e.op.LookupGroup?
    requires Misses(st.tables, e.op) && !e.faults.read
    requires Lookup(st.nx, e.op.id).Some? && e.env.tRead < Lookup(st.nx, e.op.id).value
    ensures AnswersMissing(cfg, st, e)
  {
  }

  // After "missing" the same lookup answers None without a request, in any mode, until
  // the deadline, unless the negative cache was emptied, a token answering to the
  // identifier was stored, or 2048 other identifiers were asked for meanwhile.
  lemma {:induction false} NotFoundSticks(r: Run, op: Op, j: nat, k: nat)
    requires IsRun(r) && Timed(r) && j < k < |r.events| && (op.LookupUser? || op.LookupGroup?)
    requires r.events[j].op == op && Remembers(r.states[j], r.events[j]) && r.events[k].op == op
    requires forall i | j < i < k :: !ClearsNx(r.events[i]) && !Reinserts(r.effects[i], op)
    requires |Queried(r, op.id, j, k)| < 2048
    requires !r.events[k].faults.read
    requires r.events[k].env.tRead - r.events[j].env.tReply < r.cfg.timeoutSeconds * 1_000_000_000
    ensures AnswersMissing(r.cfg, r.states[k], r.events[k])
  {
    HeldUntil(r, j, k);
    MissesUntil(r, op, j, k);
    RememberedAnswer(r.cfg, r.states[k], r.events[k]);
  }

  // Accounts and groups share one memory: after "missing" on one endpoint, a lookup of
  // that identifier on either answers None without a request for as long, unless a row
  // answers to it.
  lemma {:induction false} MissingHidesEither(r: Run, j: nat, k: nat)
    requires IsRun(r) && Timed(r) && j < k < |r.events| && Remembers(r.states[j], r.events[j])
    requires r.events[k].op in {LookupUser(r.events[j].op.id), LookupGroup(r.events[j].op.id)}
    requires forall i | j < i < k :: !ClearsNx(r.events[i])
    requires |Queried(r, r.events[j].op.id, j, k)| < 2048
    requires Misses(r.states[k].tables, r.events[k].op)
    requires !r.events[k].faults.read
    requires r.events[k].env.tRead - r.events[j].env.tReply < r.cfg.timeoutSeconds * 1_000_000_000
    ensures AnswersMissing(r.cfg, r.states[k], r.events[k])
  {
    HeldUntil(r, j, k);
    RememberedAnswer(r.cfg, r.states[k], r.events[k]);
  }

  // In one step: a missing account silences the group lookup of that identifier, although
  // the group endpoint was never asked.
  lemma {:induction false} MissingAccountHidesGroup(cfg: Config, st: State, e: Event, e': Event)
    requires Sound(st.tables, cfg.fk) && NegativeCache.Valid(st.nx, NXCACHE_SIZE)
    requires e.op.LookupUser? && Remembers(st, e)
    requires e'.op == LookupGroup(e.op.id) && !e'.faults.read
    requires Misses(st.tables, e'.op) && e'.env.tRead < Deadline(cfg, e.env.tReply)
    ensures AnswersMissing(cfg, Next(cfg, st, e), e')
  {
    var st' := Next(cfg, st, e);
    TablesFollow(cfg, st, e);
    NxFollows(cfg, st, e);
    ReadNxKeeps(st, e, e.op.id);
    InsertValid(ReadNx(st, e), NXCACHE_SIZE, e.op.id, Deadline(cfg, e.env.tReply));
    assert st'.tables.groups == st.tables.groups;
    RememberedAnswer(cfg, st', e');
  }
}
