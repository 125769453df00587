// The runtime owner lease: the row of runtime_descriptors that says which daemon owns a project.
// The first part is what each database call does to the row; RuntimeDescriptors is the table as an
// object; LeaseProtocol has the daemons, the clock, crashes and the reapers that work from old scans.
module RuntimeLease {
  import opened Domain

  type Nonce = nat
  const NO_NONCE: Nonce := 0
  const DEFAULT_HEARTBEAT_TTL_MS := 30000
  const MIN_OWNER_NONCE_LENGTH := 32

  datatype Row = Row(pid: int, nonce: Nonce, heartbeat: int, ttl: int)

  // A missing or negative TTL means the default.
  function Ttl(ms: int): int {
    if ms <= 0 then DEFAULT_HEARTBEAT_TTL_MS else ms
  }

  // runtimeOwnerIsLive. `found` is the probe of the recorded pid.
  predicate OwnerIsLive(row: Row, nowMS: int, found: bool) {
    if row.pid <= 0 || !found then false
    else if row.heartbeat > 0 && row.heartbeat + Ttl(row.ttl) > nowMS then true
    else if row.heartbeat == 0 && row.nonce != NO_NONCE then true
    else row.heartbeat == 0 && row.nonce == NO_NONCE
  }

  // The row after a claim; a refused claim leaves the live owner's row.
  function Claim(row: Option<Row>, claim: Row, nowMS: int, found: bool): Option<Row> {
    if row.Some? && OwnerIsLive(row.value, nowMS, found) then row
    else Some(claim.(heartbeat := nowMS, ttl := Ttl(claim.ttl)))
  }

  function Beat(row: Option<Row>, nonce: Nonce, ttl: int, nowMS: int): Option<Row> {
    if row.Some? && row.value.nonce == nonce then Some(row.value.(heartbeat := nowMS, ttl := Ttl(ttl))) else row
  }

  // A reap compares pid, heartbeat and TTL with what was scanned, but not the nonce.
  predicate SameScan(row: Row, scanned: Row) {
    row.pid == scanned.pid && row.heartbeat == scanned.heartbeat && Ttl(row.ttl) == Ttl(scanned.ttl)
  }

  function Reap(row: Option<Row>, scanned: Row): Option<Row> {
    if row.Some? && SameScan(row.value, scanned) then None else row
  }

  function RemoveForPid(row: Option<Row>, pid: int): Option<Row> {
    if row.Some? && row.value.pid == pid then None else row
  }

  predicate OwnedBy(row: Option<Row>, nonce: Nonce) {
    row.Some? && row.value.nonce == nonce
  }

  function RowOf(rows: map<string, Row>, project: string): Option<Row> {
    if project in rows then Some(rows[project]) else None
  }

  // The table, with one row per project.
  class RuntimeDescriptors {
    var rows: map<string, Row>

    // CreateRuntimeDescriptorWithNonce, with `live` the pids that kill(pid, 0) finds. When the
    // descriptor file cannot be written the claim is taken back.
    method Create(project: string, pid: int, nonce: Nonce, nonceLength: nat, ttlMS: int, nowMS: int, live: set<int>,
                  fileWritten: bool) returns (ok: bool)
      modifies this
      ensures nonceLength < MIN_OWNER_NONCE_LENGTH ==> !ok && rows == old(rows)
      ensures nonceLength >= MIN_OWNER_NONCE_LENGTH ==>
        var row := RowOf(old(rows), project);
        var found := row.Some? && row.value.pid in live;
        var claimed := !(row.Some? && OwnerIsLive(row.value, nowMS, found));
        && ok == (claimed && fileWritten)
        && RowOf(rows, project) == if claimed && !fileWritten then None
                                   else Claim(row, Row(pid, nonce, 0, ttlMS), nowMS, found)
      ensures forall p :: p != project ==> RowOf(rows, p) == RowOf(old(rows), p)
    {
      if nonceLength < MIN_OWNER_NONCE_LENGTH {
        return false;
      }
      if project in rows {
        var row := rows[project];
        if OwnerIsLive(row, nowMS, row.pid in live) {
          return false;
        }
        var _ := ReapInTx(project, row);
      }
      rows := rows[project := Row(pid, nonce, nowMS, if ttlMS <= 0 then DEFAULT_HEARTBEAT_TTL_MS else ttlMS)];
      if !fileWritten {
        Remove(project, pid);
        return false;
      }
      return true;
    }

    // UpdateRuntimeHeartbeat: an update of the row that has the nonce, and a look whether there is one.
    method UpdateHeartbeat(project: string, nonce: Nonce, nonceLength: nat, ttlMS: int, nowMS: int) returns (ok: bool)
      modifies this
      ensures ok == (nonceLength >= MIN_OWNER_NONCE_LENGTH && OwnedBy(RowOf(old(rows), project), nonce))
      ensures RowOf(rows, project)
           == if nonceLength < MIN_OWNER_NONCE_LENGTH then RowOf(old(rows), project)
              else Beat(RowOf(old(rows), project), nonce, ttlMS, nowMS)
      ensures forall p :: p != project ==> RowOf(rows, p) == RowOf(old(rows), p)
    {
      if nonceLength < MIN_OWNER_NONCE_LENGTH {
        return false;
      }
      if project in rows && rows[project].nonce == nonce {
        var ttl := if ttlMS <= 0 then DEFAULT_HEARTBEAT_TTL_MS else ttlMS;
        rows := rows[project := rows[project].(heartbeat := nowMS, ttl := ttl)];
      }
      return project in rows && rows[project].nonce == nonce;
    }

    method ReapInTx(project: string, scanned: Row) returns (deleted: bool)
      modifies this
      ensures RowOf(rows, project) == Reap(RowOf(old(rows), project), scanned)
      ensures deleted <==> project in old(rows) && SameScan(old(rows)[project], scanned)
      ensures deleted ==> rows == old(rows) - {project}
      ensures !deleted ==> rows == old(rows)
    {
      if project !in rows || rows[project].pid != scanned.pid {
        return false;
      }
      if rows[project].heartbeat != scanned.heartbeat || Ttl(rows[project].ttl) != Ttl(scanned.ttl) {
        return false;
      }
      rows := rows - {project};
      return true;
    }

    // ReapStaleRuntimeDescriptors, undisturbed: exactly the rows without a live owner go.
    method ReapStale(nowMS: int, live: set<int>) returns (count: nat)
      modifies this
      ensures rows ==
        map p | p in old(rows) && OwnerIsLive(old(rows)[p], nowMS, old(rows)[p].pid in live) :: old(rows)[p]
      ensures count == |old(rows)| - |rows|
    {
      count := 0;
      var scan := rows;
      var rest := scan.Keys;
      while rest != {}
        invariant rest <= scan.Keys
        invariant forall p :: p in rows ==> p in scan && rows[p] == scan[p]
        invariant forall p :: p in scan ==>
          (p in rows <==> p in rest || OwnerIsLive(scan[p], nowMS, scan[p].pid in live))
        invariant count == |scan| - |rows|
        decreases rest
      {
        var p :| p in rest;
        if !OwnerIsLive(scan[p], nowMS, scan[p].pid in live) {
          ghost var before := rows;
          var _ := ReapInTx(p, scan[p]);
          assert before.Keys == rows.Keys + {p};
          assert |before| == |before.Keys| && |rows| == |rows.Keys|;
          count := count + 1;
        }
        rest := rest - {p};
      }
    }

    // RemoveRuntimeDescriptorForPID
    method Remove(project: string, pid: int)
      modifies this
      ensures RowOf(rows, project) == RemoveForPid(RowOf(old(rows), project), pid)
      ensures forall p :: p != project ==> RowOf(rows, p) == RowOf(old(rows), p)
    {
      if project !in rows || rows[project].pid != pid {
        return;
      }
      rows := rows - {project};
    }
  }
}

// Daemons that come and go, each call reading the clock before it reaches the database.
module LeaseProtocol {
  import opened Domain
  import opened RuntimeLease

  // A daemon's way through serve. `Owner(beat)` has claimed, and has a heartbeat on its way if
  // `beat` holds the time it read.
  datatype Phase = Fresh | Sampled(at: int) | Owner(beat: Option<int>) | Refused

  datatype Daemon = Daemon(pid: int, born: int, died: Option<int>, phase: Phase)

  datatype Scan = Scan(row: Row, sample: int)

  // `scans` and `condemned` are what reapers have read and found stale, however long ago.
  datatype State = State(now: int, row: Option<Row>, daemons: map<Nonce, Daemon>, scans: set<Scan>, condemned: set<Row>)

  datatype Step =
    | Wait(ms: nat)
    | Start(n: Nonce, pid: int)
    | ReadClock(n: Nonce)
    | TryClaim(n: Nonce, ttl: int, other: bool)
    | SendBeat(n: Nonce, ttl: int)
    | ScanRow(sample: int)
    | Judge(scan: Scan, other: bool)
    | ReapRow(scanned: Row)
    | RemoveOwn(n: Nonce)
    | Die(n: Nonce)

  predicate Alive(s: State, n: Nonce) {
    n in s.daemons && s.daemons[n].died.None?
  }

  // Some live daemon has this pid, or, when `other` holds, some other process does.
  ghost predicate PidExists(s: State, pid: int, other: bool) {
    other || exists n :: Alive(s, n) && s.daemons[n].pid == pid
  }

  // A pid is reused only once its last holder is gone and the clock has moved on.
  ghost predicate PidFree(s: State, pid: int) {
    forall n :: n in s.daemons && s.daemons[n].pid == pid ==> s.daemons[n].died.Some? && s.daemons[n].died.value < s.now
  }

  function WithPhase(s: State, n: Nonce, phase: Phase): State
    requires n in s.daemons
  {
    s.(daemons := s.daemons[n := s.daemons[n].(phase := phase)])
  }

  ghost predicate ClockRead(s: State, n: Nonce, s': State) {
    && Alive(s, n)
    && match s.daemons[n].phase
       case Fresh => s' == WithPhase(s, n, Sampled(s.now))
       case Owner(None) => s' == WithPhase(s, n, Owner(Some(s.now)))
       case _ => false
  }

  ghost predicate ClaimTried(s: State, n: Nonce, ttl: int, other: bool, s': State) {
    && Alive(s, n) && s.daemons[n].phase.Sampled?
    && var found := s.row.Some? && PidExists(s, s.row.value.pid, other);
    && var at := s.daemons[n].phase.at;
    && var refused := s.row.Some? && OwnerIsLive(s.row.value, at, found);
    s' == WithPhase(s, n, if refused then Refused else Owner(None))
            .(row := Claim(s.row, Row(s.daemons[n].pid, n, 0, ttl), at, found))
  }

  ghost predicate Next(s: State, step: Step, s': State) {
    match step
    case Wait(ms) => s' == s.(now := s.now + ms)
    case Start(n, pid) =>
      n !in s.daemons && n != NO_NONCE && pid > 0 && PidFree(s, pid)
      && s' == s.(daemons := s.daemons[n := Daemon(pid, s.now, None, Fresh)])
    case ReadClock(n) => ClockRead(s, n, s')
    case TryClaim(n, ttl, other) => ClaimTried(s, n, ttl, other, s')
    case SendBeat(n, ttl) =>
      n != NO_NONCE && Alive(s, n) && s.daemons[n].phase.Owner? && s.daemons[n].phase.beat.Some?
      && s' == WithPhase(s, n, Owner(None)).(row := Beat(s.row, n, ttl, s.daemons[n].phase.beat.value))
    case ScanRow(sample) => s.row.Some? && sample <= s.now && s' == s.(scans := s.scans + {Scan(s.row.value, sample)})
    case Judge(scan, other) =>
      scan in s.scans && !OwnerIsLive(scan.row, scan.sample, PidExists(s, scan.row.pid, other))
      && s' == s.(condemned := s.condemned + {scan.row})
    case ReapRow(scanned) => scanned in s.condemned && s' == s.(row := Reap(s.row, scanned))
    case RemoveOwn(n) => Alive(s, n) && s.daemons[n].phase.Owner?
        && s' == s.(row := RemoveForPid(s.row, s.daemons[n].pid))
    case Die(n) => Alive(s, n) && s' == s.(daemons := s.daemons[n := s.daemons[n].(died := Some(s.now))])
  }

  // A project nobody has claimed, or one that an older daemon left or still holds without a nonce.
  ghost predicate Init(s: State) {
    && 0 <= s.now && s.scans == {} && s.condemned == {}
    && if s.row.None? then s.daemons == map[]
       else
         && s.row.value.nonce == NO_NONCE && s.row.value.heartbeat == 0
         && s.daemons.Keys == {NO_NONCE}
         && s.daemons[NO_NONCE].pid == s.row.value.pid && s.daemons[NO_NONCE].phase == Owner(None)
         && s.daemons[NO_NONCE].born == 0 && s.row.value.pid > 0
         && (s.daemons[NO_NONCE].died.Some? ==> 0 <= s.daemons[NO_NONCE].died.value <= s.now)
  }

  ghost predicate Behavior(ss: seq<State>, steps: seq<Step>) {
    && |ss| == |steps| + 1 && Init(ss[0])
    && forall k {:trigger NextAt(ss, steps, k)} :: 0 <= k < |steps| ==> NextAt(ss, steps, k)
  }

  ghost predicate NextAt(ss: seq<State>, steps: seq<Step>, k: nat)
    requires k < |steps| < |ss|
  {
    Next(ss[k], steps[k], ss[k + 1])
  }

  // ---- The invariant.

  // Time t falls in the daemon's life.
  predicate InLife(s: State, n: Nonce, t: int)
    requires n in s.daemons
  {
    var d := s.daemons[n];
    d.born <= t <= s.now && (d.died.Some? ==> t <= d.died.value)
  }

  predicate PhaseOk(s: State, n: Nonce)
    requires n in s.daemons
  {
    match s.daemons[n].phase
    case Sampled(at) => InLife(s, n, at)
    case Owner(Some(at)) => InLife(s, n, at)
    case _ => true
  }

  predicate DaemonOk(s: State, n: Nonce)
    requires n in s.daemons
  {
    var d := s.daemons[n];
    && d.pid > 0 && 0 <= d.born <= s.now && (d.died.Some? ==> d.born <= d.died.value <= s.now) && PhaseOk(s, n)
    && (n == NO_NONCE ==> d.phase.Owner?)
  }

  // A row, or a scan of one, was written by the daemon whose nonce it holds, within its life.
  predicate RowOk(s: State, row: Row) {
    && row.nonce in s.daemons && s.daemons[row.nonce].pid == row.pid
    && s.daemons[row.nonce].phase.Owner?
    && InLife(s, row.nonce, row.heartbeat)
  }

  // Two daemons of one pid lived one after the other.
  predicate Apart(s: State, n: Nonce, m: Nonce)
    requires n in s.daemons && m in s.daemons
  {
    s.daemons[n].pid == s.daemons[m].pid ==>
      || (s.daemons[n].died.Some? && s.daemons[n].died.value < s.daemons[m].born)
      || (s.daemons[m].died.Some? && s.daemons[m].died.value < s.daemons[n].born)
  }

  // The claim in the row is over: its daemon is dead, or it has beaten and its time has run out. A
  // daemon that never beats, as those from before the heartbeat do, keeps its row while it lives.
  predicate Stale(s: State, row: Row) {
    && row.nonce in s.daemons
    && (s.daemons[row.nonce].died.Some? || (row.heartbeat > 0 && row.heartbeat + Ttl(row.ttl) <= s.now))
  }

  // Whoever claimed was born before the present owner died: it saw that owner's claim come after its own.
  predicate Overlaps(s: State, n: Nonce)
    requires n in s.daemons
  {
    s.row.Some? && s.row.value.nonce in s.daemons && s.daemons[n].phase.Owner?
        && s.daemons[s.row.value.nonce].died.Some? ==>
      s.daemons[n].born <= s.daemons[s.row.value.nonce].died.value
  }

  ghost predicate LeaseInv(s: State) {
    && 0 <= s.now
    && (forall n {:trigger DaemonOk(s, n)} :: n in s.daemons ==> DaemonOk(s, n))
    && (forall n, m {:trigger Apart(s, n, m)} :: n in s.daemons && m in s.daemons && n != m ==> Apart(s, n, m))
    && (s.row.Some? ==> RowOk(s, s.row.value))
    && (forall n {:trigger Overlaps(s, n)} :: n in s.daemons ==> Overlaps(s, n))
    && (forall c {:trigger c in s.scans} :: c in s.scans ==> RowOk(s, c.row) && c.sample <= s.now)
    && (forall r {:trigger r in s.condemned} :: r in s.condemned ==> RowOk(s, r) && Stale(s, r))
  }

  // What a judge finds stale is over.
  lemma JudgedStale(s: State, row: Row, sample: int, other: bool)
    requires LeaseInv(s) && RowOk(s, row) && sample <= s.now
    requires !OwnerIsLive(row, sample, PidExists(s, row.pid, other))
    ensures Stale(s, row)
  {
    assert DaemonOk(s, row.nonce);
    assert Alive(s, row.nonce) ==> PidExists(s, row.pid, other);
  }

  // Daemons of one pid never wrote the same heartbeat, so a matching reap hits the claim it scanned.
  lemma ScanIdentifiesClaim(s: State, row: Row, scanned: Row)
    requires LeaseInv(s) && RowOk(s, row) && RowOk(s, scanned) && SameScan(row, scanned)
    ensures row.nonce == scanned.nonce
  {
    assert row.nonce != scanned.nonce ==> Apart(s, row.nonce, scanned.nonce);
  }

  lemma InitHolds(s: State)
    requires Init(s)
    ensures LeaseInv(s)
  {
  }

  // What one daemon's step leaves to the others.
  ghost predicate Ages(s: State, s': State) {
    && s.now <= s'.now
    && forall n {:trigger n in s'.daemons} :: n in s.daemons ==>
      && n in s'.daemons && s'.daemons[n].pid == s.daemons[n].pid && s'.daemons[n].born == s.daemons[n].born
      && (s.daemons[n].died.Some? ==> s'.daemons[n].died == s.daemons[n].died)
      && (s.daemons[n].died.None? ==> s'.daemons[n].died.None? || s.now <= s'.daemons[n].died.value)
      && (s.daemons[n].phase.Owner? ==> s'.daemons[n].phase.Owner?)
  }

  lemma RowsStayOk(s: State, s': State, row: Row)
    requires Ages(s, s') && RowOk(s, row)
    ensures RowOk(s', row) && (Stale(s, row) ==> Stale(s', row))
  {
  }

  lemma StepAges(s: State, step: Step, s': State)
    requires Next(s, step, s')
    ensures Ages(s, s')
  {
    hide PidFree, PidExists, OwnerIsLive;
  }

  lemma DaemonStaysOk(s: State, step: Step, s': State, n: Nonce)
    requires Next(s, step, s') && 0 <= s.now && n in s'.daemons
    requires n in s.daemons ==> DaemonOk(s, n)
    ensures DaemonOk(s', n)
  {
    hide PidFree, PidExists, OwnerIsLive, Ttl;
  }

  lemma DaemonsStayApart(s: State, step: Step, s': State, n: Nonce, m: Nonce)
    requires Next(s, step, s') && n in s'.daemons && m in s'.daemons && n != m
    requires n in s.daemons ==> DaemonOk(s, n)
    requires m in s.daemons ==> DaemonOk(s, m)
    requires n in s.daemons && m in s.daemons ==> Apart(s, n, m)
    ensures Apart(s', n, m)
  {
    hide PidExists, OwnerIsLive, Ttl, PhaseOk;
  }

  lemma DaemonsStayOk(s: State, step: Step, s': State)
    requires LeaseInv(s) && Next(s, step, s')
    ensures forall n :: n in s'.daemons ==> DaemonOk(s', n)
    ensures forall n, m :: n in s'.daemons && m in s'.daemons && n != m ==> Apart(s', n, m)
  {
    hide Next;
    forall n | n in s'.daemons ensures DaemonOk(s', n) {
      DaemonStaysOk(s, step, s', n);
    }
    forall n, m | n in s'.daemons && m in s'.daemons && n != m ensures Apart(s', n, m) {
      DaemonsStayApart(s, step, s', n, m);
    }
  }

  lemma NextKeepsLease(s: State, step: Step, s': State)
    requires LeaseInv(s) && Next(s, step, s')
    ensures LeaseInv(s')
  {
    StepAges(s, step, s');
    DaemonsStayOk(s, step, s');
    forall c | c in s'.scans ensures RowOk(s', c.row) && c.sample <= s'.now {
      if c in s.scans {
        RowsStayOk(s, s', c.row);
      }
    }
    forall r | r in s'.condemned ensures RowOk(s', r) && Stale(s', r) {
      if r in s.condemned {
        RowsStayOk(s, s', r);
      } else {
        JudgedStale(s, r, step.scan.sample, step.other);
      }
    }
    if s.row.Some? {
      RowsStayOk(s, s', s.row.value);
    }
    RowStaysOk(s, step, s');
    OverlapsStay(s, step, s');
  }

  lemma OverlapsStay(s: State, step: Step, s': State)
    requires LeaseInv(s) && Next(s, step, s')
    ensures forall n :: n in s'.daemons ==> Overlaps(s', n)
  {
    forall n | n in s'.daemons ensures Overlaps(s', n) {
      if n in s.daemons {
        assert Overlaps(s, n) && DaemonOk(s, n);
      }
      hide PidFree, PidExists, OwnerIsLive;
    }
  }

  lemma RowStaysOk(s: State, step: Step, s': State)
    requires LeaseInv(s) && Next(s, step, s') && Ages(s, s')
    ensures s'.row.Some? ==> RowOk(s', s'.row.value)
  {
    if s.row.Some? {
      RowsStayOk(s, s', s.row.value);
    }
    if step.TryClaim? || step.SendBeat? {
      assert DaemonOk(s, step.n);
    }
    hide PidExists, OwnerIsLive, Ages;
  }

  lemma {:induction false} BehaviorKeepsLease(ss: seq<State>, steps: seq<Step>, k: nat)
    requires Behavior(ss, steps) && k < |ss|
    ensures LeaseInv(ss[k])
  {
    hide Next, LeaseInv, Init;
    if k == 0 {
      InitHolds(ss[0]);
    } else {
      BehaviorKeepsLease(ss, steps, k - 1);
      assert NextAt(ss, steps, k - 1);
      NextKeepsLease(ss[k - 1], steps[k - 1], ss[k]);
    }
  }

  // ---- Theorems.

  // A claim ends only by its own daemon's hand, or when that daemon is dead or has not beaten for
  // its TTL. `row.heartbeat` is the last heartbeat that reached the database.
  lemma ClaimEndsOnlyWhenStale(ss: seq<State>, steps: seq<Step>, k: nat, n: Nonce)
    requires Behavior(ss, steps) && k < |steps|
    requires OwnedBy(ss[k].row, n) && !OwnedBy(ss[k + 1].row, n)
    ensures steps[k] == RemoveOwn(n) || ((steps[k].TryClaim? || steps[k].ReapRow?) && Stale(ss[k], ss[k].row.value))
  {
    BehaviorKeepsLease(ss, steps, k);
    assert NextAt(ss, steps, k);
    var s := ss[k];
    match steps[k]
    case TryClaim(m, _, other) =>
      assert DaemonOk(s, m);
      JudgedStale(s, s.row.value, s.daemons[m].phase.at, other);
    case ReapRow(scanned) =>
      assert scanned in s.condemned;
      ScanIdentifiesClaim(s, s.row.value, scanned);
    case RemoveOwn(m) =>
      assert m != n ==> Apart(s, m, n);
      assert DaemonOk(s, n) && DaemonOk(s, m) && Overlaps(s, m);
      hide OwnerIsLive, PidExists;
    case _ =>
  }

  // A reap that works from an old scan deletes only the claim that was scanned.
  lemma ReapDeletesOnlyWhatItScanned(ss: seq<State>, steps: seq<Step>, k: nat)
    requires Behavior(ss, steps) && k < |steps| && steps[k].ReapRow?
    requires ss[k].row.Some? && ss[k + 1].row.None?
    ensures ss[k].row.value.nonce == steps[k].scanned.nonce
  {
    BehaviorKeepsLease(ss, steps, k);
    assert NextAt(ss, steps, k);
    ScanIdentifiesClaim(ss[k], ss[k].row.value, steps[k].scanned);
  }

  // Once a daemon that had claimed no longer owns the row, it never owns it again: its
  // heartbeats and its dispatch gate fail from then on.
  lemma {:induction false} DisplacedForever(ss: seq<State>, steps: seq<Step>, m: nat, k: nat, n: Nonce)
    requires Behavior(ss, steps) && m <= k < |ss|
    requires n in ss[m].daemons && ss[m].daemons[n].phase.Owner? && !OwnedBy(ss[m].row, n)
    ensures n in ss[k].daemons && ss[k].daemons[n].phase.Owner? && !OwnedBy(ss[k].row, n)
    decreases k
  {
    if m < k {
      DisplacedForever(ss, steps, m, k - 1, n);
      assert NextAt(ss, steps, k - 1);
      StepAges(ss[k - 1], steps[k - 1], ss[k]);
      hide OwnerIsLive, PidExists, PidFree, Init;
    }
  }

  // verifyOwnerNonceForDispatch: the recorded nonce, or none when there is no row, is this one.
  predicate DispatchGate(row: Option<Row>, n: Nonce) {
    (if row.Some? then row.value.nonce else NO_NONCE) == n
  }

  // ---- The same in terms of what daemons sent and when.

  // At step j daemon n claimed or sent a heartbeat, with this TTL, having read the clock at `at`.
  ghost predicate SentAt(ss: seq<State>, steps: seq<Step>, j: nat, n: Nonce, at: int, ttl: int) {
    && j < |steps| < |ss| && n in ss[j].daemons
    && match steps[j]
       case TryClaim(m, t, _) => m == n && t == ttl && ss[j].daemons[n].phase == Sampled(at)
       case SendBeat(m, t) => m == n && t == ttl && ss[j].daemons[n].phase == Owner(Some(at))
       case _ => false
  }

  predicate Sends(step: Step, n: Nonce) {
    (step.TryClaim? || step.SendBeat?) && step.n == n
  }

  // Of what n sent before step k this was the last.
  ghost predicate LastSent(ss: seq<State>, steps: seq<Step>, k: nat, n: Nonce, j: nat, at: int, ttl: int) {
    && j < k <= |steps| && SentAt(ss, steps, j, n, at, ttl)
    && forall i :: j < i < k ==> !Sends(steps[i], n)
  }

  lemma OwnSendIsRecorded(s: State, step: Step, s': State, n: Nonce)
    requires LeaseInv(s) && Next(s, step, s') && Sends(step, n) && OwnedBy(s'.row, n)
    ensures n in s.daemons
        && (s.daemons[n].phase.Sampled? || (s.daemons[n].phase.Owner? && s.daemons[n].phase.beat.Some?))
    ensures s'.row.value.heartbeat
         == if step.TryClaim? then s.daemons[n].phase.at else s.daemons[n].phase.beat.value
    ensures s'.row.value.ttl == if step.ttl > 0 then step.ttl else 30000
    ensures step.TryClaim? <==> s.daemons[n].phase.Sampled?
  {
    hide OwnerIsLive, PidExists;
  }

  lemma OthersLeaveTheClaim(s: State, step: Step, s': State, n: Nonce)
    requires Next(s, step, s') && !Sends(step, n) && OwnedBy(s'.row, n)
    ensures s'.row == s.row
  {
    hide OwnerIsLive, PidExists, PidFree;
  }

  // What stands in the row is what its owner sent last.
  lemma {:induction false} RowHoldsTheLastSent(ss: seq<State>, steps: seq<Step>, k: nat, n: Nonce)
    returns (j: nat, at: int, ttl: int)
    requires Behavior(ss, steps) && k < |ss| && OwnedBy(ss[k].row, n) && n != NO_NONCE
    ensures LastSent(ss, steps, k, n, j, at, ttl)
    ensures ss[k].row.value.heartbeat == at && ss[k].row.value.ttl == if ttl > 0 then ttl else 30000
  {
    assert k > 0;
    BehaviorKeepsLease(ss, steps, k - 1);
    assert NextAt(ss, steps, k - 1);
    var s, step := ss[k - 1], steps[k - 1];
    hide LeaseInv, Next, Init;
    if Sends(step, n) {
      OwnSendIsRecorded(s, step, ss[k], n);
      j, at, ttl := k - 1, ss[k].row.value.heartbeat, step.ttl;
      assert SentAt(ss, steps, j, n, at, ttl);
    } else {
      OthersLeaveTheClaim(s, step, ss[k], n);
      j, at, ttl := RowHoldsTheLastSent(ss, steps, k - 1, n);
    }
  }

  lemma OnlyOneLastSent(ss: seq<State>, steps: seq<Step>, k: nat, n: Nonce, j: nat, at: int, ttl: int,
      j': nat, at': int, ttl': int)
    requires LastSent(ss, steps, k, n, j, at, ttl) && LastSent(ss, steps, k, n, j', at', ttl')
    ensures j == j' && at == at' && ttl == ttl'
  {
    assert Sends(steps[j], n) && Sends(steps[j'], n);
  }

  // A daemon that is alive loses its claim, other than by giving it up, only when the time at which it
  // last claimed or beat, plus the TTL it gave, has passed.
  lemma LosesItsClaimOnlyInSilence(ss: seq<State>, steps: seq<Step>, k: nat, n: Nonce, j: nat, at: int, ttl: int)
    requires Behavior(ss, steps) && k < |steps| && n != NO_NONCE && Alive(ss[k], n)
    requires OwnedBy(ss[k].row, n) && !OwnedBy(ss[k + 1].row, n) && steps[k] != RemoveOwn(n)
    requires LastSent(ss, steps, k, n, j, at, ttl)
    ensures at + (if ttl > 0 then ttl else 30000) <= ss[k].now
  {
    var j', at', ttl' := RowHoldsTheLastSent(ss, steps, k, n);
    OnlyOneLastSent(ss, steps, k, n, j, at, ttl, j', at', ttl');
    ClaimEndsOnlyWhenStale(ss, steps, k, n);
  }

  // Only the daemon in the row passes the gate, and while it is alive and beats in time it goes on
  // passing until it gives up the row itself.
  lemma GateStaysOpen(ss: seq<State>, steps: seq<Step>, k: nat, n: Nonce, j: nat, at: int, ttl: int)
    requires Behavior(ss, steps) && k < |steps| && n != NO_NONCE
    requires DispatchGate(ss[k].row, n) && Alive(ss[k], n)
    requires LastSent(ss, steps, k, n, j, at, ttl) && ss[k].now < at + if ttl > 0 then ttl else 30000
    ensures DispatchGate(ss[k + 1].row, n) || steps[k] == RemoveOwn(n)
    ensures forall m :: DispatchGate(ss[k].row, m) ==> m == n
  {
    if !OwnedBy(ss[k + 1].row, n) && steps[k] != RemoveOwn(n) {
      LosesItsClaimOnlyInSilence(ss, steps, k, n, j, at, ttl);
    }
  }

  // Giving up frees the row of its owner, and of nobody else.
  lemma GivingUpFreesTheRow(ss: seq<State>, steps: seq<Step>, k: nat, n: Nonce)
    requires Behavior(ss, steps) && k < |steps| && steps[k] == RemoveOwn(n)
    ensures ss[k + 1].row == if OwnedBy(ss[k].row, n) then None else ss[k].row
  {
    BehaviorKeepsLease(ss, steps, k);
    assert NextAt(ss, steps, k);
    var s := ss[k];
    if s.row.Some? {
      var m := s.row.value.nonce;
      assert DaemonOk(s, n) && DaemonOk(s, m) && Overlaps(s, n);
      assert m != n ==> Apart(s, n, m);
    }
    hide OwnerIsLive, PidExists;
  }

  // A reap frees a row that is as it was scanned, and leaves one that has beaten since.
  lemma ReapFreesWhatItScanned(ss: seq<State>, steps: seq<Step>, k: nat, scanned: Row)
    requires Behavior(ss, steps) && k < |steps| && steps[k] == ReapRow(scanned)
    ensures ss[k].row == Some(scanned) ==> ss[k + 1].row.None?
    ensures ss[k].row.Some? && ss[k].row.value.heartbeat != scanned.heartbeat ==> ss[k + 1].row == ss[k].row
  {
    assert NextAt(ss, steps, k);
  }

  // A claim wins exactly when the row is empty, when no process has the owner's pid, or when the owner
  // has sent nothing for its TTL before the claimant read the clock. (An owner that sent at time zero
  // counts as one that never beats.)
  lemma ClaimWinsExactlyWhen(ss: seq<State>, steps: seq<Step>, k: nat, n: Nonce, j: nat, at: int, ttl: int)
    requires Behavior(ss, steps) && k < |steps| && steps[k].TryClaim?
    requires ss[k].row.Some? ==> n == ss[k].row.value.nonce
    requires ss[k].row.Some? && n != NO_NONCE ==> LastSent(ss, steps, k, n, j, at, ttl)
    ensures var m, s := steps[k].n, ss[k];
      && m in s.daemons && s.daemons[m].phase.Sampled? && m in ss[k + 1].daemons
      && (OwnedBy(ss[k + 1].row, m) <==>
        || s.row.None?
        || !PidExists(s, s.row.value.pid, steps[k].other)
        || (n != NO_NONCE && at > 0 && at + (if ttl > 0 then ttl else 30000) <= s.daemons[m].phase.at))
      && (!OwnedBy(ss[k + 1].row, m) ==> ss[k + 1].row == s.row && ss[k + 1].daemons[m].phase.Refused?)
  {
    BehaviorKeepsLease(ss, steps, k);
    assert NextAt(ss, steps, k);
    if ss[k].row.Some? {
      assert DaemonOk(ss[k], n);
      if n != NO_NONCE {
        var j', at', ttl' := RowHoldsTheLastSent(ss, steps, k, n);
        OnlyOneLastSent(ss, steps, k, n, j, at, ttl, j', at', ttl');
      } else {
        LegacyNeverBeats(ss, steps, k);
      }
    }
    hide PidExists, LastSent, Behavior;
  }

  // The row of a daemon from before the nonce keeps its empty heartbeat.
  lemma {:induction false} LegacyNeverBeats(ss: seq<State>, steps: seq<Step>, k: nat)
    requires Behavior(ss, steps) && k < |ss| && OwnedBy(ss[k].row, NO_NONCE)
    ensures ss[k].row.value.heartbeat == 0
  {
    if k > 0 {
      BehaviorKeepsLease(ss, steps, k - 1);
      assert NextAt(ss, steps, k - 1);
      var s, step := ss[k - 1], steps[k - 1];
      if step.TryClaim? {
        assert DaemonOk(s, step.n);
      }
      hide OwnerIsLive, PidExists, PidFree, Init, LeaseInv;
      LegacyNeverBeats(ss, steps, k - 1);
    }
  }

  // ---- Why the clock must move on before a pid is used again.

  // A pid is free as soon as its last holder is gone, though the clock may still show that instant.
  ghost predicate PidFreeAtOnce(s: State, pid: int) {
    forall n :: n in s.daemons && s.daemons[n].pid == pid ==>
      s.daemons[n].died.Some? && s.daemons[n].died.value <= s.now
  }

  ghost predicate NextAtOnce(s: State, step: Step, s': State) {
    match step
    case Start(n, pid) =>
      n !in s.daemons && n != NO_NONCE && pid > 0 && PidFreeAtOnce(s, pid)
      && s' == s.(daemons := s.daemons[n := Daemon(pid, s.now, None, Fresh)])
    case _ => Next(s, step, s')
  }

  ghost predicate BehaviorAtOnce(ss: seq<State>, steps: seq<Step>) {
    && |ss| == |steps| + 1 && Init(ss[0])
    && forall k :: 0 <= k < |steps| ==> NextAtOnce(ss[k], steps[k], ss[k + 1])
  }

  const OLD_ROW := Row(7, 1, 1, DEFAULT_HEARTBEAT_TTL_MS)
  const NEW_ROW := Row(7, 2, 1, DEFAULT_HEARTBEAT_TTL_MS)

  // The states of the refutation. Two reapers find the dead daemon's row; one deletes it; a new
  // daemon with the same pid claims within the same millisecond; the other deletes the new claim.
  function Now(row: Option<Row>, daemons: map<Nonce, Daemon>, scanned: bool, judged: bool): State {
    State(1, row, daemons, if scanned then {Scan(OLD_ROW, 1)} else {}, if judged then {OLD_ROW} else {})
  }

  const DEAD := Daemon(7, 1, Some(1), Owner(None))
  const BORN := Daemon(7, 1, None, Fresh)
  const AWAKE := Daemon(7, 1, None, Sampled(1))
  const HOLDING := Daemon(7, 1, None, Owner(None))

  ghost function Refutation(): seq<State> {
    [ Now(None, map[], false, false),
      Now(None, map[1 := BORN], false, false),
      Now(None, map[1 := AWAKE], false, false),
      Now(Some(OLD_ROW), map[1 := HOLDING], false, false),
      Now(Some(OLD_ROW), map[1 := HOLDING], true, false),
      Now(Some(OLD_ROW), map[1 := DEAD], true, false),
      Now(Some(OLD_ROW), map[1 := DEAD], true, true),
      Now(None, map[1 := DEAD], true, true),
      Now(None, map[1 := DEAD, 2 := BORN], true, true),
      Now(None, map[1 := DEAD, 2 := AWAKE], true, true),
      Now(Some(NEW_ROW), map[1 := DEAD, 2 := HOLDING], true, true),
      Now(None, map[1 := DEAD, 2 := HOLDING], true, true)
    ]
  }

  ghost function RefutingSteps(): seq<Step> {
    [ Start(1, 7), ReadClock(1), TryClaim(1, 0, false), ScanRow(1), Die(1),
      Judge(Scan(OLD_ROW, 1), false), ReapRow(OLD_ROW),
      Start(2, 7), ReadClock(2), TryClaim(2, 0, false), ReapRow(OLD_ROW)
    ]
  }

  // The last step is a reap that takes the row of a live daemon which has just beaten, and whose
  // claim is not the one that was scanned.
  ghost predicate ReapsAFreshClaim(s: State, step: Step, s': State) {
    && step.ReapRow? && s.row.Some? && s'.row.None? && s.row.value.nonce != step.scanned.nonce
    && Alive(s, s.row.value.nonce) && s.now < s.row.value.heartbeat + Ttl(s.row.value.ttl)
  }

  lemma OldDaemonDies(k: nat)
    requires k < 5
    ensures NextAtOnce(Refutation()[k], RefutingSteps()[k], Refutation()[k + 1])
  {
  }

  lemma NewDaemonIsReaped(k: nat)
    requires 5 <= k < 11
    ensures NextAtOnce(Refutation()[k], RefutingSteps()[k], Refutation()[k + 1])
  {
  }

  // Were a pid used again within the millisecond, a reap could delete a live daemon's fresh claim.
  lemma SameMillisecondReapDeletesAFreshClaim()
    ensures exists ss, steps ::
      && BehaviorAtOnce(ss, steps) && |steps| > 0 && ReapsAFreshClaim(ss[|steps| - 1], steps[|steps| - 1], ss[|steps|])
  {
    var ss, steps := Refutation(), RefutingSteps();
    assert ReapsAFreshClaim(ss[10], steps[10], ss[11]) && Init(ss[0]);
    hide NextAtOnce, ReapsAFreshClaim, Init;
    forall k | 0 <= k < |steps| ensures NextAtOnce(ss[k], steps[k], ss[k + 1]) {
      if k < 5 {
        OldDaemonDies(k);
      } else {
        NewDaemonIsReaped(k);
      }
    }
    assert BehaviorAtOnce(ss, steps);
  }
}
