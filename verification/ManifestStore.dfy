/**
 * The write-back buffer of directory manifests. `Store` is the shared map with one method per
 * lock-protected phase; the protocol below interleaves those phases with backend reads and writes
 * for any number of loaders, editors and flushers. The fingerprint is a parameter and may collide.
 */
module ManifestStore {
  import opened Prelude
  import opened Paths
  import opened Manifests

  type Fingerprint = Manifest -> nat

  datatype Reason = Timer | Forced

  datatype DirState = DirState(manifest: Manifest, written: Option<nat>, lastChange: nat, dirty: bool)

  type Buffer = map<string, DirState>

  /** An in-place change under the lock: an edit closure, or a take, which only counts if it finds an entry. */
  datatype Mutation = Edit(f: Manifest -> Manifest) | TakeOut(key: string)

  function Mutated(m: Manifest, mu: Mutation): (m': Manifest)
  {
    match mu
    case Edit(f) => f(m)
    case TakeOut(key) => m.TakeEntry(key).0
  }

  predicate Touches(m: Manifest, mu: Mutation) { mu.TakeOut? ==> m.TakeEntry(mu.key).1.Some? }

  // ---------------------------------------------------------------- flush selection

  datatype Candidate = Candidate(dir: string, fp: nat, written: Option<nat>, since: nat)

  predicate Chosen(reason: Reason, interval: nat, c: Candidate)
  {
    Some(c.fp) != c.written && (reason == Forced || c.since >= interval)
  }

  /** The pure filter of the flush plan. */
  function Select(reason: Reason, interval: nat, cs: seq<Candidate>): (dirs: seq<string>)
    ensures forall c | c in cs && Chosen(reason, interval, c) :: c.dir in dirs
    ensures forall d | d in dirs :: exists c :: c in cs && c.dir == d && Chosen(reason, interval, c)
  {
    if cs == [] then []
    else (if Chosen(reason, interval, cs[0]) then [cs[0].dir] else []) + Select(reason, interval, cs[1..])
  }

  function CandidateOf(fp: Fingerprint, b: Buffer, d: string, now: nat): (c: Candidate)
    requires d in b
  {
    Candidate(d, fp(b[d].manifest), b[d].written, Max(now - b[d].lastChange, 0))
  }

  /** The directories a flush writes: dirty, different from the last write, and quiet unless forced. */
  function ToWrite(fp: Fingerprint, b: Buffer, reason: Reason, interval: nat, now: nat): (dirs: set<string>)
  {
    set d | d in b && b[d].dirty && Chosen(reason, interval, CandidateOf(fp, b, d, now))
  }

  // ---------------------------------------------------------------- the lock-protected phases

  function Inserted(fp: Fingerprint, b: Buffer, dir: string, fetched: Manifest, now: nat): (b': Buffer)
  {
    if dir in b then b else b[dir := DirState(fetched, Some(fp(fetched)), now, false)]
  }

  function Changed(b: Buffer, dir: string, mu: Mutation, now: nat): (b': Buffer)
  {
    if dir in b && Touches(b[dir].manifest, mu)
    then b[dir := b[dir].(manifest := Mutated(b[dir].manifest, mu), lastChange := now, dirty := true)]
    else b
  }

  function Recorded(fp: Fingerprint, b: Buffer, dir: string, f: nat): (b': Buffer)
  {
    if dir !in b then b
    else
      var st := b[dir].(written := Some(f));
      b[dir := if fp(st.manifest) == f then st.(dirty := false) else st]
  }

  /** The shared buffer. Each method is what one critical section does. */
  class Store {
    var inner: Buffer

    constructor ()
      ensures inner == map[]
    {
      inner := map[];
    }

    method LookUp(dir: string) returns (m: Option<Manifest>)
      ensures m == if dir in inner then Some(inner[dir].manifest) else None
    {
      m := if dir in inner then Some(inner[dir].manifest) else None;
    }

    method InsertIfAbsent(fp: Fingerprint, dir: string, fetched: Manifest, now: nat) returns (m: Manifest)
      modifies this
      ensures inner == Inserted(fp, old(inner), dir, fetched, now)
      ensures dir in inner && m == inner[dir].manifest
    {
      if dir !in inner {
        inner := inner[dir := DirState(fetched, Some(fp(fetched)), now, false)];
      }
      m := inner[dir].manifest;
    }

    method ApplyEdit(dir: string, f: Manifest -> Manifest, now: nat)
      modifies this
      ensures inner == Changed(old(inner), dir, Edit(f), now)
    {
      if dir in inner {
        var st := inner[dir];
        inner := inner[dir := st.(manifest := f(st.manifest), lastChange := now, dirty := true)];
      }
    }

    method TakeEntry(dir: string, key: string, now: nat) returns (taken: Option<Entry>)
      modifies this
      ensures inner == Changed(old(inner), dir, TakeOut(key), now)
      ensures taken == if dir in old(inner) then old(inner)[dir].manifest.TakeEntry(key).1 else None
    {
      taken := None;
      if dir in inner {
        var st := inner[dir];
        var (m', e) := st.manifest.TakeEntry(key);
        if e.Some? {
          inner := inner[dir := st.(manifest := m', lastChange := now, dirty := true)];
        }
        taken := e;
      }
    }

    /** Phase 1 of a flush: collect dirty candidates, filter them, snapshot the chosen manifests. */
    method Snapshot(fp: Fingerprint, reason: Reason, interval: nat, now: nat)
      returns (jobs: map<string, (Manifest, nat)>)
      ensures jobs.Keys == ToWrite(fp, inner, reason, interval, now)
      ensures forall d | d in jobs :: jobs[d] == (inner[d].manifest, fp(inner[d].manifest))
    {
      var candidates: seq<Candidate> := [];
      var todo := inner.Keys;
      while todo != {}
        invariant todo <= inner.Keys
        invariant forall c | c in candidates ::
                    c.dir in inner && inner[c.dir].dirty && c == CandidateOf(fp, inner, c.dir, now)
        invariant forall d | d in inner.Keys - todo && inner[d].dirty :: CandidateOf(fp, inner, d, now) in candidates
        decreases todo
      {
        var d :| d in todo;
        todo := todo - {d};
        if inner[d].dirty { candidates := candidates + [CandidateOf(fp, inner, d, now)]; }
      }
      var chosen := Select(reason, interval, candidates);
      jobs := map d | d in chosen && d in inner :: (inner[d].manifest, fp(inner[d].manifest));
      forall d
        ensures d in jobs <==> d in ToWrite(fp, inner, reason, interval, now)
      {
        if d in ToWrite(fp, inner, reason, interval, now) { assert CandidateOf(fp, inner, d, now) in candidates; }
      }
    }

    /** Phase 3: remember what was written; clean only if nothing changed meanwhile. */
    method RecordWrite(fp: Fingerprint, dir: string, f: nat)
      modifies this
      ensures inner == Recorded(fp, old(inner), dir, f)
    {
      if dir in inner {
        var st := inner[dir].(written := Some(f));
        inner := inner[dir := if fp(st.manifest) == f then st.(dirty := false) else st];
      }
    }

    /** Drops exactly the given key; with a key that lost its slash, no directory of a proper buffer. */
    method Forget(key: string)
      modifies this
      ensures inner == old(inner) - {key}
      ensures !DirKey(key) && (forall d | d in old(inner) :: DirKey(d)) ==> inner == old(inner)
    {
      inner := inner - {key};
    }
  }

  // ---------------------------------------------------------------- the interleaved protocol

  datatype Job = Job(manifest: Manifest, fp: nat, landed: bool)

  /** A write in flight is named by its flush and its directory. */
  type JobId = (nat, string)

  datatype State = State(
    buffer: Buffer,
    backend: map<string, Manifest>,
    loads: map<nat, (string, Manifest)>,
    jobs: map<JobId, Job>,
    now: nat)

  datatype Label =
    | Fetch(loader: nat, dir: string)          // read the backend outside the lock
    | Insert(loader: nat)                      // insert if still absent
    | Mutate(dir: string, mu: Mutation)        // edit or take, after the directory was loaded
    | Snap(flush: nat, reason: Reason, interval: nat)
    | Put(job: JobId)                          // the network write lands
    | Record(job: JobId)
    | Abandon(job: JobId)                      // the put failed without effect, or an earlier put of the flush did
    | Evict(key: string)                       // `forget`
    | Tick(dt: nat)

  function Stored(s: State, d: string): (m: Manifest) { if d in s.backend then s.backend[d] else EMPTY }

  /** `forget` is only ever called with a slash-trimmed, non-empty key. */
  predicate Enabled(s: State, l: Label)
  {
    match l
    case Fetch(t, d) => t !in s.loads && DirKey(d)
    case Insert(t) => t in s.loads
    case Mutate(d, mu) => d in s.buffer
    case Snap(fl, r, i) => forall j | j in s.jobs :: j.0 != fl
    case Put(j) => j in s.jobs && !s.jobs[j].landed
    case Record(j) => j in s.jobs && s.jobs[j].landed
    case Abandon(j) => j in s.jobs && !s.jobs[j].landed
    case Evict(key) => key != "" && key[|key| - 1] != '/'
    case Tick(dt) => true
  }

  function Snapped(fp: Fingerprint, s: State, flush: nat, reason: Reason, interval: nat): (jobs: map<JobId, Job>)
  {
    map d | d in ToWrite(fp, s.buffer, reason, interval, s.now) ::
      (flush, d) := Job(s.buffer[d].manifest, fp(s.buffer[d].manifest), false)
  }

  /** One step; a label that is not enabled changes nothing. */
  function Next(fp: Fingerprint, s: State, l: Label): (s': State)
  {
    if !Enabled(s, l) then s
    else
      match l
      case Fetch(t, d) => s.(loads := s.loads[t := (d, Stored(s, d))])
      case Insert(t) =>
        s.(loads := s.loads - {t}, buffer := Inserted(fp, s.buffer, s.loads[t].0, s.loads[t].1, s.now))
      case Mutate(d, mu) => s.(buffer := Changed(s.buffer, d, mu, s.now))
      case Snap(fl, r, i) => s.(jobs := s.jobs + Snapped(fp, s, fl, r, i))
      case Put(j) =>
        s.(backend := s.backend[j.1 := s.jobs[j].manifest], jobs := s.jobs[j := s.jobs[j].(landed := true)])
      case Record(j) => s.(jobs := s.jobs - {j}, buffer := Recorded(fp, s.buffer, j.1, s.jobs[j].fp))
      case Abandon(j) => s.(jobs := s.jobs - {j})
      case Evict(key) => s.(buffer := s.buffer - {key})
      case Tick(dt) => s.(now := s.now + dt)
  }

  function Exec(fp: Fingerprint, s: State, ls: seq<Label>): (s': State)
  {
    if ls == [] then s else Next(fp, Exec(fp, s, ls[..|ls| - 1]), ls[|ls| - 1])
  }

  /** The state after the first i steps. */
  function At(fp: Fingerprint, s: State, ls: seq<Label>, i: nat): (s': State)
    requires i <= |ls|
  {
    Exec(fp, s, ls[..i])
  }

  lemma AtStep(fp: Fingerprint, s: State, ls: seq<Label>, i: nat)
    requires i < |ls|
    ensures At(fp, s, ls, i + 1) == Next(fp, At(fp, s, ls, i), ls[i])
  {
    assert ls[..i + 1][..i] == ls[..i];
  }

  /** A session start: nothing buffered, nothing in flight, any backend content. */
  predicate Initial(s: State) { s.buffer == map[] && s.loads == map[] && s.jobs == map[] }

  /** All writes of one directory in flight carry the same fingerprint. */
  ghost predicate Compatible(s: State)
  {
    forall i, j | i in s.jobs && j in s.jobs && i.1 == j.1 :: s.jobs[i].fp == s.jobs[j].fp
  }

  ghost predicate CompatibleRun(fp: Fingerprint, s: State, ls: seq<Label>)
  {
    forall i: nat | i <= |ls| :: Compatible(At(fp, s, ls, i))
  }

  /** Writes in flight that belong to one flush are compatible: one flusher at a time is enough. */
  lemma OneFlusherIsCompatible(s: State, flush: nat)
    requires forall j | j in s.jobs :: j.0 == flush
    ensures Compatible(s)
  {
  }

  // ---------------------------------------------------------------- invariant

  ghost predicate LandedFor(s: State, d: string)
  {
    exists j :: j in s.jobs && j.1 == d && s.jobs[j].landed
  }

  ghost predicate DirOk(fp: Fingerprint, s: State, d: string)
    requires d in s.buffer
  {
    && DirKey(d)
    && (!LandedFor(s, d) ==> s.buffer[d].written == Some(fp(Stored(s, d))))
    && (!s.buffer[d].dirty ==> fp(s.buffer[d].manifest) == fp(Stored(s, d)))
  }

  ghost predicate JobOk(fp: Fingerprint, s: State, j: JobId)
    requires j in s.jobs
  {
    && j.1 in s.buffer && (!s.buffer[j.1].dirty ==> fp(s.buffer[j.1].manifest) == s.jobs[j].fp)
    && s.jobs[j].fp == fp(s.jobs[j].manifest)
    && (s.jobs[j].landed ==> fp(Stored(s, j.1)) == s.jobs[j].fp)
  }

  ghost predicate LoadOk(s: State, t: nat)
    requires t in s.loads
  {
    DirKey(s.loads[t].0) && (s.loads[t].0 !in s.buffer ==> s.loads[t].1 == Stored(s, s.loads[t].0))
  }

  /**
   * The buffer tells the truth about the backend: what was last written is what is stored, and a clean directory is
   * stored.
   */
  ghost predicate Inv(fp: Fingerprint, s: State)
  {
    && (forall d | d in s.buffer :: DirOk(fp, s, d))
    && (forall j | j in s.jobs :: JobOk(fp, s, j))
    && (forall t | t in s.loads :: LoadOk(s, t))
  }

  /** Forgetting a slash-trimmed key evicts nothing, because buffered directories are the root or end in a slash. */
  lemma ForgetEvictsNothing(fp: Fingerprint, s: State, key: string)
    requires Inv(fp, s) && Enabled(s, Evict(key))
    ensures Next(fp, s, Evict(key)) == s
  {
  }

  /** A directory that keeps its buffered state, its stored manifest and its landed writes stays right. */
  lemma DirFrame(fp: Fingerprint, s: State, s': State, d: string)
    requires d in s.buffer && DirOk(fp, s, d)
    requires d in s'.buffer && s'.buffer[d] == s.buffer[d] && Stored(s', d) == Stored(s, d)
    requires forall j | j in s.jobs && j.1 == d && s.jobs[j].landed :: j in s'.jobs && s'.jobs[j].landed
    ensures DirOk(fp, s', d)
  {
  }

  /** A step that only adds: whatever was there before it stays right. */
  lemma GrowthKeeps(fp: Fingerprint, s: State, s': State)
    requires Inv(fp, s) && s'.backend == s.backend
    requires forall d | d in s.buffer :: d in s'.buffer && s'.buffer[d] == s.buffer[d]
    requires forall j | j in s.jobs :: j in s'.jobs && s'.jobs[j] == s.jobs[j]
    ensures forall d | d in s.buffer && d in s'.buffer :: DirOk(fp, s', d)
    ensures forall j | j in s.jobs && j in s'.jobs :: JobOk(fp, s', j)
    ensures forall u | u in s.loads && u in s'.loads && s'.loads[u] == s.loads[u] :: LoadOk(s', u)
  {
    forall d | d in s.buffer ensures DirOk(fp, s', d) { DirFrame(fp, s, s', d); }
    forall j | j in s.jobs ensures JobOk(fp, s', j) { assert JobOk(fp, s, j); }
    forall u | u in s.loads && u in s'.loads && s'.loads[u] == s.loads[u] ensures LoadOk(s', u) { assert LoadOk(s, u); }
  }

  lemma InsertKeepsInv(fp: Fingerprint, s: State, t: nat)
    requires Inv(fp, s) && t in s.loads
    ensures Inv(fp, Next(fp, s, Insert(t)))
  {
    GrowthKeeps(fp, s, Next(fp, s, Insert(t)));
    assert LoadOk(s, t);
  }

  lemma MutateKeepsDir(fp: Fingerprint, s: State, x: string, mu: Mutation, d: string)
    requires Inv(fp, s) && x in s.buffer && d in s.buffer
    ensures DirOk(fp, Next(fp, s, Mutate(x, mu)), d)
  {
    var s' := Next(fp, s, Mutate(x, mu));
    assert DirOk(fp, s, d);
    if d != x { DirFrame(fp, s, s', d); } else { assert LandedFor(s', d) <==> LandedFor(s, d); }
  }

  lemma MutateKeepsInv(fp: Fingerprint, s: State, x: string, mu: Mutation)
    requires Inv(fp, s) && x in s.buffer
    ensures Inv(fp, Next(fp, s, Mutate(x, mu)))
  {
    var s' := Next(fp, s, Mutate(x, mu));
    forall d | d in s'.buffer ensures DirOk(fp, s', d) { MutateKeepsDir(fp, s, x, mu, d); }
    forall j | j in s'.jobs ensures JobOk(fp, s', j) { assert JobOk(fp, s, j); }
    forall u | u in s'.loads ensures LoadOk(s', u) { assert LoadOk(s, u); }
  }

  lemma SnapKeepsInv(fp: Fingerprint, s: State, fl: nat, r: Reason, i: nat)
    requires Inv(fp, s) && Enabled(s, Snap(fl, r, i))
    ensures Inv(fp, Next(fp, s, Snap(fl, r, i)))
  {
    GrowthKeeps(fp, s, Next(fp, s, Snap(fl, r, i)));
  }

  lemma PutKeepsDirs(fp: Fingerprint, s: State, x: JobId, d: string)
    requires Inv(fp, s) && Enabled(s, Put(x)) && d in s.buffer
    ensures DirOk(fp, Next(fp, s, Put(x)), d)
  {
    var s' := Next(fp, s, Put(x));
    assert DirOk(fp, s, d);
    if d != x.1 {
      DirFrame(fp, s, s', d);
    } else {
      assert x in s'.jobs && s'.jobs[x].landed;
      assert LandedFor(s', d);
    }
  }

  lemma PutKeepsJobs(fp: Fingerprint, s: State, x: JobId, j: JobId)
    requires Inv(fp, s) && Compatible(s) && Enabled(s, Put(x)) && j in s.jobs
    ensures JobOk(fp, Next(fp, s, Put(x)), j)
  {
  }

  lemma PutKeepsInv(fp: Fingerprint, s: State, x: JobId)
    requires Inv(fp, s) && Compatible(s) && Enabled(s, Put(x))
    ensures Inv(fp, Next(fp, s, Put(x)))
  {
    var s' := Next(fp, s, Put(x));
    assert JobOk(fp, s, x);
    forall d | d in s'.buffer ensures DirOk(fp, s', d) { PutKeepsDirs(fp, s, x, d); }
    forall j | j in s'.jobs ensures JobOk(fp, s', j) { PutKeepsJobs(fp, s, x, j); }
    forall u | u in s'.loads ensures LoadOk(s', u) { assert LoadOk(s, u); }
  }

  lemma RecordKeepsDir(fp: Fingerprint, s: State, x: JobId, d: string)
    requires Inv(fp, s) && Enabled(s, Record(x)) && d in s.buffer
    ensures DirOk(fp, Next(fp, s, Record(x)), d)
  {
    assert JobOk(fp, s, x);
    assert DirOk(fp, s, d);
    if d != x.1 { DirFrame(fp, s, Next(fp, s, Record(x)), d); }
  }

  lemma RecordKeepsInv(fp: Fingerprint, s: State, x: JobId)
    requires Inv(fp, s) && Compatible(s) && Enabled(s, Record(x))
    ensures Inv(fp, Next(fp, s, Record(x)))
  {
    var s' := Next(fp, s, Record(x));
    assert JobOk(fp, s, x);
    forall d | d in s'.buffer ensures DirOk(fp, s', d) { RecordKeepsDir(fp, s, x, d); }
    forall j | j in s'.jobs ensures JobOk(fp, s', j) {
      assert JobOk(fp, s, j);
    }
    forall u | u in s'.loads ensures LoadOk(s', u) { assert LoadOk(s, u); }
  }

  lemma AbandonKeepsInv(fp: Fingerprint, s: State, x: JobId)
    requires Inv(fp, s) && Enabled(s, Abandon(x))
    ensures Inv(fp, Next(fp, s, Abandon(x)))
  {
    var s' := Next(fp, s, Abandon(x));
    forall d | d in s'.buffer ensures DirOk(fp, s', d) { DirFrame(fp, s, s', d); }
    forall j | j in s'.jobs ensures JobOk(fp, s', j) { assert JobOk(fp, s, j); }
    forall u | u in s'.loads ensures LoadOk(s', u) { assert LoadOk(s, u); }
  }

  lemma OtherKeepsInv(fp: Fingerprint, s: State, l: Label)
    requires Inv(fp, s) && (l.Fetch? || l.Tick?)
    ensures Inv(fp, Next(fp, s, l))
  {
    GrowthKeeps(fp, s, Next(fp, s, l));
  }

  lemma StepKeepsInv(fp: Fingerprint, s: State, l: Label)
    requires Inv(fp, s) && Compatible(s)
    ensures Inv(fp, Next(fp, s, l))
  {
    if Enabled(s, l) {
      match l
      case Fetch(_, _) => OtherKeepsInv(fp, s, l);
      case Insert(t) => InsertKeepsInv(fp, s, t);
      case Mutate(d, mu) => MutateKeepsInv(fp, s, d, mu);
      case Snap(fl, r, i) => SnapKeepsInv(fp, s, fl, r, i);
      case Put(j) => PutKeepsInv(fp, s, j);
      case Record(j) => RecordKeepsInv(fp, s, j);
      case Abandon(j) => AbandonKeepsInv(fp, s, j);
      case Evict(key) => ForgetEvictsNothing(fp, s, key);
      case Tick(_) => OtherKeepsInv(fp, s, l);
    }
  }

  /** Every interleaving in which writes of one directory in flight are always compatible keeps the buffer truthful. */
  lemma {:induction false} RunKeepsInv(fp: Fingerprint, s: State, ls: seq<Label>, i: nat)
    requires Initial(s) && CompatibleRun(fp, s, ls) && i <= |ls|
    ensures Inv(fp, At(fp, s, ls, i))
  {
    if i > 0 {
      RunKeepsInv(fp, s, ls, i - 1);
      assert Compatible(At(fp, s, ls, i - 1));
      AtStep(fp, s, ls, i - 1);
      StepKeepsInv(fp, At(fp, s, ls, i - 1), ls[i - 1]);
    }
  }

  /** Step i of a run, with what is known before it. */
  lemma RunStep(fp: Fingerprint, s: State, ls: seq<Label>, i: nat)
    requires Initial(s) && CompatibleRun(fp, s, ls) && i < |ls|
    ensures var t := At(fp, s, ls, i);
            Inv(fp, t) && Compatible(t) && At(fp, s, ls, i + 1) == Next(fp, t, ls[i])
  {
    RunKeepsInv(fp, s, ls, i);
    AtStep(fp, s, ls, i);
  }

  ghost predicate NoCollision(fp: Fingerprint, m: Manifest, n: Manifest) { fp(m) == fp(n) ==> m == n }

  /**
   * The two promises, at any moment of any run: outside the put/record window of a directory the
   * recorded fingerprint is the stored manifest's, and a clean directory is stored exactly as it is
   * in memory unless its fingerprint collides with the stored one.
   */
  lemma BufferAgreesWithBackend(fp: Fingerprint, s: State, ls: seq<Label>, i: nat, d: string)
    requires Initial(s) && CompatibleRun(fp, s, ls) && i <= |ls| && d in At(fp, s, ls, i).buffer
    ensures var t := At(fp, s, ls, i);
            && (!LandedFor(t, d) ==> t.buffer[d].written == Some(fp(Stored(t, d))))
            && (!t.buffer[d].dirty && NoCollision(fp, t.buffer[d].manifest, Stored(t, d)) ==>
                  t.buffer[d].manifest == Stored(t, d))
  {
    RunKeepsInv(fp, s, ls, i);
    assert DirOk(fp, At(fp, s, ls, i), d);
  }

  // ---------------------------------------------------------------- no edit is lost

  function ApplyAll(m: Manifest, mus: seq<Mutation>): (m': Manifest)
  {
    if mus == [] then m else Mutated(ApplyAll(m, mus[..|mus| - 1]), mus[|mus| - 1])
  }

  /** The mutations of directory d that took effect in the first i steps, in lock order. */
  ghost function History(fp: Fingerprint, s: State, ls: seq<Label>, i: nat, d: string): (h: seq<Mutation>)
    requires i <= |ls|
  {
    if i == 0 then []
    else
      var h := History(fp, s, ls, i - 1, d);
      if ls[i - 1].Mutate? && ls[i - 1].dir == d && d in At(fp, s, ls, i - 1).buffer then h + [ls[i - 1].mu] else h
  }

  /** A take that finds nothing leaves the manifest as it is, so skipping it is the same as applying it. */
  lemma ChangedMutates(b: Buffer, dir: string, mu: Mutation, now: nat)
    requires dir in b
    ensures dir in Changed(b, dir, mu, now) && Changed(b, dir, mu, now)[dir].manifest == Mutated(b[dir].manifest, mu)
  {
  }

  /** What one step does to the manifest of a buffered directory. */
  function MutatedBy(m: Manifest, l: Label, d: string): (m': Manifest)
  {
    if l.Mutate? && l.dir == d then Mutated(m, l.mu) else m
  }

  lemma StepBuffered(fp: Fingerprint, s: State, l: Label, d: string)
    requires Inv(fp, s) && d in s.buffer
    ensures var s' := Next(fp, s, l);
            d in s'.buffer && s'.buffer[d].manifest == MutatedBy(s.buffer[d].manifest, l, d)
  {
    if Enabled(s, l) {
      match l
      case Mutate(x, mu) => ChangedMutates(s.buffer, x, mu, s.now);
      case Evict(key) => ForgetEvictsNothing(fp, s, key);
      case _ =>
    }
  }

  lemma StepUnbuffered(fp: Fingerprint, s: State, l: Label, d: string)
    requires Inv(fp, s) && d !in s.buffer
    ensures var s' := Next(fp, s, l);
            Stored(s', d) == Stored(s, d) && (d in s'.buffer ==> s'.buffer[d].manifest == Stored(s, d))
  {
  }

  /** What one step does to the manifest of one directory, in memory and in the backend. */
  lemma StepOnDir(fp: Fingerprint, s: State, l: Label, d: string)
    requires Inv(fp, s)
    ensures var s' := Next(fp, s, l);
            if d in s.buffer
            then d in s'.buffer && s'.buffer[d].manifest == MutatedBy(s.buffer[d].manifest, l, d)
            else Stored(s', d) == Stored(s, d) && (d in s'.buffer ==> s'.buffer[d].manifest == Stored(s, d))
  {
    if d in s.buffer { StepBuffered(fp, s, l, d); } else { StepUnbuffered(fp, s, l, d); }
  }

  /** In memory, d is what was first stored with h applied; or it was never loaded, and is stored as it was. */
  ghost predicate Follows(t: State, d: string, first: Manifest, h: seq<Mutation>)
  {
    if d in t.buffer then t.buffer[d].manifest == ApplyAll(first, h) else h == [] && Stored(t, d) == first
  }

  lemma FollowsStep(fp: Fingerprint, t: State, l: Label, d: string, first: Manifest, h: seq<Mutation>)
    requires Inv(fp, t) && Follows(t, d, first, h)
    ensures Follows(Next(fp, t, l), d, first, if l.Mutate? && l.dir == d && d in t.buffer then h + [l.mu] else h)
  {
    StepOnDir(fp, t, l, d);
    if l.Mutate? { assert (h + [l.mu])[..|h|] == h; }
  }

  lemma FollowsAt(fp: Fingerprint, s: State, ls: seq<Label>, i: nat, d: string, h: seq<Mutation>)
    requires Initial(s) && CompatibleRun(fp, s, ls) && i < |ls| && Follows(At(fp, s, ls, i), d, Stored(s, d), h)
    ensures Follows(At(fp, s, ls, i + 1), d, Stored(s, d),
                    if ls[i].Mutate? && ls[i].dir == d && d in At(fp, s, ls, i).buffer then h + [ls[i].mu] else h)
  {
    RunStep(fp, s, ls, i);
    FollowsStep(fp, At(fp, s, ls, i), ls[i], d, Stored(s, d), h);
  }

  /** In memory: the initially stored manifest with every effective mutation applied in order. */
  lemma {:induction false} MemoryIsHistory(fp: Fingerprint, s: State, ls: seq<Label>, i: nat, d: string)
    requires Initial(s) && CompatibleRun(fp, s, ls) && i <= |ls|
    ensures Follows(At(fp, s, ls, i), d, Stored(s, d), History(fp, s, ls, i, d))
  {
    if i > 0 {
      MemoryIsHistory(fp, s, ls, i - 1, d);
      FollowsAt(fp, s, ls, i - 1, d, History(fp, s, ls, i - 1, d));
    }
  }

  /** Once buffered, a directory stays buffered, so an edit that follows its load always finds it. */
  lemma {:induction false} BufferedStays(fp: Fingerprint, s: State, ls: seq<Label>, i: nat, k: nat, d: string)
    requires Initial(s) && CompatibleRun(fp, s, ls) && i <= k <= |ls| && d in At(fp, s, ls, i).buffer
    ensures d in At(fp, s, ls, k).buffer
  {
    if i < k {
      BufferedStays(fp, s, ls, i, k - 1, d);
      RunStep(fp, s, ls, k - 1);
      StepOnDir(fp, At(fp, s, ls, k - 1), ls[k - 1], d);
    }
  }

  ghost predicate InFlight(s: State, d: string) { exists j :: j in s.jobs && j.1 == d }

  /** Stored up to its fingerprint, or a write is in flight. */
  ghost predicate DirDrains(fp: Fingerprint, s: State, d: string)
    requires d in s.buffer
  {
    fp(s.buffer[d].manifest) == fp(Stored(s, d)) || InFlight(s, d)
  }

  /** Every buffered directory drains, and each write in flight carries the current content. */
  ghost predicate Draining(fp: Fingerprint, s: State)
  {
    && (forall j | j in s.jobs && j.1 in s.buffer :: s.jobs[j].manifest == s.buffer[j.1].manifest)
    && (forall d | d in s.buffer :: DirDrains(fp, s, d))
  }

  /** A snapshot with no earlier write in flight starts draining, if it may take every changed directory. */
  lemma SnapStartsDraining(fp: Fingerprint, s: State, fl: nat, r: Reason, i: nat)
    requires Inv(fp, s) && s.jobs == map[]
    requires r == Forced || forall d | d in s.buffer && s.buffer[d].dirty :: s.now - s.buffer[d].lastChange >= i
    ensures Draining(fp, Next(fp, s, Snap(fl, r, i)))
  {
    var s' := Next(fp, s, Snap(fl, r, i));
    assert Enabled(s, Snap(fl, r, i));
    forall d | d in s'.buffer
      ensures DirDrains(fp, s', d)
    {
      assert DirOk(fp, s, d);
      if fp(s.buffer[d].manifest) != fp(Stored(s, d)) {
        assert !LandedFor(s, d);
        assert d in ToWrite(fp, s.buffer, r, i, s.now);
        assert (fl, d) in s'.jobs;
      }
    }
  }

  predicate Quiet(l: Label) { !l.Mutate? && !l.Abandon? }

  lemma QuietJobs(fp: Fingerprint, s: State, l: Label)
    requires Inv(fp, s) && Draining(fp, s) && Quiet(l)
    ensures forall j | j in Next(fp, s, l).jobs && j.1 in Next(fp, s, l).buffer ::
              Next(fp, s, l).jobs[j].manifest == Next(fp, s, l).buffer[j.1].manifest
  {
    var s' := Next(fp, s, l);
    forall j | j in s'.jobs && j.1 in s'.buffer
      ensures s'.jobs[j].manifest == s'.buffer[j.1].manifest
    {
      StepOnDir(fp, s, l, j.1);
      if j in s.jobs { assert JobOk(fp, s, j); }
    }
  }

  /** A write in flight either stays in flight or, once recorded, has stored the current content. */
  lemma QuietInFlight(fp: Fingerprint, s: State, l: Label, d: string, j: JobId)
    requires Inv(fp, s) && Draining(fp, s) && Quiet(l) && d in s.buffer && j in s.jobs && j.1 == d
    requires d in Next(fp, s, l).buffer && Next(fp, s, l).buffer[d].manifest == s.buffer[d].manifest
    ensures DirDrains(fp, Next(fp, s, l), d)
  {
  }

  lemma QuietAtRest(fp: Fingerprint, s: State, l: Label, d: string)
    requires Inv(fp, s) && Draining(fp, s) && Quiet(l) && d in s.buffer && !InFlight(s, d)
    requires d in Next(fp, s, l).buffer && Next(fp, s, l).buffer[d].manifest == s.buffer[d].manifest
    ensures DirDrains(fp, Next(fp, s, l), d)
  {
  }

  lemma QuietDir(fp: Fingerprint, s: State, l: Label, d: string)
    requires Inv(fp, s) && Draining(fp, s) && Quiet(l) && d in Next(fp, s, l).buffer
    ensures DirDrains(fp, Next(fp, s, l), d)
  {
    StepOnDir(fp, s, l, d);
    if d in s.buffer {
      if InFlight(s, d) {
        var j :| j in s.jobs && j.1 == d;
        QuietInFlight(fp, s, l, d, j);
      } else {
        QuietAtRest(fp, s, l, d);
      }
    }
  }

  lemma QuietKeepsDraining(fp: Fingerprint, s: State, l: Label)
    requires Inv(fp, s) && Draining(fp, s) && Quiet(l)
    ensures Draining(fp, Next(fp, s, l))
  {
    QuietJobs(fp, s, l);
    forall d | d in Next(fp, s, l).buffer ensures DirDrains(fp, Next(fp, s, l), d) { QuietDir(fp, s, l, d); }
  }

  lemma QuietStepDrains(fp: Fingerprint, s: State, ls: seq<Label>, i: nat)
    requires Initial(s) && CompatibleRun(fp, s, ls) && i < |ls| && Quiet(ls[i]) && Draining(fp, At(fp, s, ls, i))
    ensures Draining(fp, At(fp, s, ls, i + 1))
  {
    RunStep(fp, s, ls, i);
    QuietKeepsDraining(fp, At(fp, s, ls, i), ls[i]);
  }

  lemma {:induction false} QuietRunDrains(fp: Fingerprint, s: State, ls: seq<Label>, k: nat, i: nat)
    requires Initial(s) && CompatibleRun(fp, s, ls) && k < i <= |ls|
    requires Draining(fp, At(fp, s, ls, k + 1))
    requires forall n | k < n < |ls| :: Quiet(ls[n])
    ensures Draining(fp, At(fp, s, ls, i))
  {
    if k + 1 < i {
      var n := i - 1;
      QuietRunDrains(fp, s, ls, k, n);
      QuietStepDrains(fp, s, ls, n);
    }
  }

  lemma {:induction false} QuietKeepsHistory(fp: Fingerprint, s: State, ls: seq<Label>, k: nat, i: nat, d: string)
    requires k <= i <= |ls| && forall n | k <= n < |ls| :: !ls[n].Mutate?
    ensures History(fp, s, ls, i, d) == History(fp, s, ls, k, d)
  {
    if k < i { QuietKeepsHistory(fp, s, ls, k, i - 1, d); }
  }

  /**
   * Step k is a flush with nothing else in flight that may take every changed directory; afterwards nobody edits and
   * no put fails.
   */
  ghost predicate FinalFlush(fp: Fingerprint, s: State, ls: seq<Label>, k: nat)
  {
    && k < |ls| && ls[k].Snap? && At(fp, s, ls, k).jobs == map[]
    && (ls[k].reason == Forced
        || forall d | d in At(fp, s, ls, k).buffer && At(fp, s, ls, k).buffer[d].dirty ::
             At(fp, s, ls, k).now - At(fp, s, ls, k).buffer[d].lastChange >= ls[k].interval)
    && (forall n | k < n < |ls| :: Quiet(ls[n]))
    && At(fp, s, ls, |ls|).jobs == map[]
  }

  /** Between its snapshot and the end of the run, a final flush drains everything. */
  lemma FinalFlushDrains(fp: Fingerprint, s: State, ls: seq<Label>, k: nat)
    requires Initial(s) && CompatibleRun(fp, s, ls) && FinalFlush(fp, s, ls, k)
    ensures Draining(fp, At(fp, s, ls, |ls|))
  {
    RunKeepsInv(fp, s, ls, k);
    AtStep(fp, s, ls, k);
    SnapStartsDraining(fp, At(fp, s, ls, k), ls[k].flush, ls[k].reason, ls[k].interval);
    QuietRunDrains(fp, s, ls, k, |ls|);
  }

  lemma DrainedIsStored(fp: Fingerprint, t: State, d: string)
    requires Inv(fp, t) && Draining(fp, t) && t.jobs == map[] && d in t.buffer
    ensures fp(t.buffer[d].manifest) == fp(Stored(t, d))
    ensures forall r, i, now :: d !in ToWrite(fp, t.buffer, r, i, now)
  {
    assert DirOk(fp, t, d) && DirDrains(fp, t, d) && !LandedFor(t, d);
  }

  /**
   * No edit is lost: after the final flush every buffered directory is stored with all its edits, in
   * lock order, up to the fingerprint; and no later flush of any kind has anything to write.
   */
  lemma FlushStoresEveryEdit(fp: Fingerprint, s: State, ls: seq<Label>, k: nat, d: string)
    requires Initial(s) && CompatibleRun(fp, s, ls) && FinalFlush(fp, s, ls, k)
    requires d in At(fp, s, ls, |ls|).buffer
    ensures var t := At(fp, s, ls, |ls|);
            var m := ApplyAll(Stored(s, d), History(fp, s, ls, k, d));
            fp(Stored(t, d)) == fp(m) && (NoCollision(fp, m, Stored(t, d)) ==> Stored(t, d) == m)
    ensures forall r, i, now :: d !in ToWrite(fp, At(fp, s, ls, |ls|).buffer, r, i, now)
  {
    FinalFlushDrains(fp, s, ls, k);
    RunKeepsInv(fp, s, ls, |ls|);
    DrainedIsStored(fp, At(fp, s, ls, |ls|), d);
    MemoryIsHistory(fp, s, ls, |ls|, d);
    QuietKeepsHistory(fp, s, ls, k, |ls|, d);
  }

  /**
   * The comment that fingerprint collisions never affect stored data is too strong: a changed directory
   * whose fingerprint equals the stored one is never written, by any flush, and this is the only way.
   */
  lemma CollisionIsNeverWritten(fp: Fingerprint, s: State, d: string)
    requires Inv(fp, s) && d in s.buffer && !LandedFor(s, d) && s.buffer[d].dirty
    ensures fp(s.buffer[d].manifest) == fp(Stored(s, d)) <==>
            forall r, i, now :: d !in ToWrite(fp, s.buffer, r, i, now)
  {
    assert DirOk(fp, s, d);
    if fp(s.buffer[d].manifest) != fp(Stored(s, d)) {
      assert d in ToWrite(fp, s.buffer, Forced, 0, 0);
    }
  }

  // ---------------------------------------------------------------- when a flush takes a directory

  lemma ExecStep(fp: Fingerprint, s: State, ls: seq<Label>, l: Label)
    ensures Exec(fp, s, ls + [l]) == Next(fp, Exec(fp, s, ls), l)
  {
    assert (ls + [l])[..|ls|] == ls;
  }

  /** What holds in every run, compatible or not. */
  ghost predicate Base(fp: Fingerprint, s: State)
  {
    && (forall d | d in s.buffer :: DirKey(d))
    && (forall t | t in s.loads :: DirKey(s.loads[t].0))
    && (forall j | j in s.jobs :: j.1 in s.buffer && s.jobs[j].fp == fp(s.jobs[j].manifest))
  }

  lemma StepKeepsBase(fp: Fingerprint, s: State, l: Label)
    requires Base(fp, s)
    ensures Base(fp, Next(fp, s, l))
  {
  }

  lemma {:induction false} RunKeepsBase(fp: Fingerprint, s: State, ls: seq<Label>)
    requires Base(fp, s)
    ensures Base(fp, Exec(fp, s, ls))
  {
    if ls != [] {
      RunKeepsBase(fp, s, ls[..|ls| - 1]);
      StepKeepsBase(fp, Exec(fp, s, ls[..|ls| - 1]), ls[|ls| - 1]);
    }
  }

  /** Step j changed directory d in memory: an edit, or a take that left another manifest behind. */
  ghost predicate Effective(fp: Fingerprint, s: State, ls: seq<Label>, j: nat, d: string)
    requires j < |ls|
  {
    var t := At(fp, s, ls, j);
    ls[j].Mutate? && ls[j].dir == d && d in t.buffer && Changes(t.buffer[d].manifest, ls[j].mu)
  }

  predicate Changes(m: Manifest, mu: Mutation) { mu.Edit? || Mutated(m, mu) != m }

  /** A take counts exactly when it changes the manifest. */
  lemma TouchesIff(m: Manifest, mu: Mutation)
    ensures Touches(m, mu) <==> Changes(m, mu)
  {
    if mu.TakeOut? {
      assert mu.key in m.files ==> mu.key !in (m.files - {mu.key});
      assert mu.key in m.folders ==> mu.key !in (m.folders - {mu.key});
    }
  }

  /** Before step i the last change of d is on record, or it never changed and is clean. */
  ghost predicate Timed(fp: Fingerprint, s: State, ls: seq<Label>, i: nat, d: string)
    requires i <= |ls|
  {
    var b := At(fp, s, ls, i).buffer;
    || ((d in b ==> !b[d].dirty) && forall k: nat | k < i :: !Effective(fp, s, ls, k, d))
    || (d in b && exists j: nat :: j < i && LastAt(fp, s, ls, i, d, j) && b[d].lastChange == At(fp, s, ls, j).now)
  }

  /** Step j is the last of the first i that changed d. */
  ghost predicate LastAt(fp: Fingerprint, s: State, ls: seq<Label>, i: nat, d: string, j: nat)
    requires j < i <= |ls|
  {
    Effective(fp, s, ls, j, d) && forall k: nat | j < k < i :: !Effective(fp, s, ls, k, d)
  }

  lemma StepTime(fp: Fingerprint, t: State, l: Label, d: string)
    requires Base(fp, t)
    ensures var b, b' := t.buffer, Next(fp, t, l).buffer;
            if l.Mutate? && l.dir == d && d in b && Changes(b[d].manifest, l.mu)
            then d in b' && b'[d].lastChange == t.now
            else
              && (d in b ==> d in b' && b'[d].lastChange == b[d].lastChange && (b'[d].dirty ==> b[d].dirty))
              && (d !in b && d in b' ==> !b'[d].dirty)
  {
    if l.Mutate? && d in t.buffer { TouchesIff(t.buffer[d].manifest, l.mu); }
  }

  lemma TimedStep(fp: Fingerprint, s: State, ls: seq<Label>, i: nat, d: string)
    requires i < |ls| && Base(fp, At(fp, s, ls, i)) && Timed(fp, s, ls, i, d)
    ensures Timed(fp, s, ls, i + 1, d)
  {
    var t := At(fp, s, ls, i);
    AtStep(fp, s, ls, i);
    StepTime(fp, t, ls[i], d);
    if Effective(fp, s, ls, i, d) {
      assert LastAt(fp, s, ls, i + 1, d, i);
    } else if j: nat :| j < i && LastAt(fp, s, ls, i, d, j) && d in t.buffer
                        && t.buffer[d].lastChange == At(fp, s, ls, j).now {
      assert LastAt(fp, s, ls, i + 1, d, j);
    }
  }

  lemma {:induction false} RunTimed(fp: Fingerprint, s: State, ls: seq<Label>, i: nat, d: string)
    requires Initial(s) && i <= |ls|
    ensures Timed(fp, s, ls, i, d)
  {
    if i > 0 {
      RunTimed(fp, s, ls, i - 1, d);
      RunKeepsBase(fp, s, ls[..i - 1]);
      TimedStep(fp, s, ls, i - 1, d);
    }
  }

  /** Step r recorded a write of d's current content. */
  ghost predicate Cleans(fp: Fingerprint, s: State, ls: seq<Label>, r: nat, d: string)
    requires r < |ls|
  {
    var t := At(fp, s, ls, r);
    && ls[r].Record? && Enabled(t, ls[r]) && ls[r].job.1 == d && d in t.buffer
    && fp(t.buffer[d].manifest) == t.jobs[ls[r].job].fp
  }

  /** Step k changed d, and up to step i no write of what it then was has been recorded. */
  ghost predicate Outstanding(fp: Fingerprint, s: State, ls: seq<Label>, i: nat, d: string, k: nat)
    requires k < i <= |ls|
  {
    Effective(fp, s, ls, k, d) && forall r: nat | k < r < i :: !Cleans(fp, s, ls, r, d)
  }

  ghost predicate AnyOutstanding(fp: Fingerprint, s: State, ls: seq<Label>, i: nat, d: string)
    requires i <= |ls|
  {
    exists k: nat :: k < i && Outstanding(fp, s, ls, i, d, k)
  }

  lemma StepDirt(fp: Fingerprint, t: State, l: Label, d: string)
    requires Base(fp, t)
    ensures var b, b' := t.buffer, Next(fp, t, l).buffer;
            (d in b' && b'[d].dirty) <==>
            if l.Mutate? && l.dir == d && d in b && Changes(b[d].manifest, l.mu) then true
            else d in b && b[d].dirty &&
                 !(l.Record? && Enabled(t, l) && l.job.1 == d && fp(b[d].manifest) == t.jobs[l.job].fp)
  {
    if l.Mutate? && d in t.buffer { TouchesIff(t.buffer[d].manifest, l.mu); }
  }

  /** A directory is dirty exactly while some change of it is outstanding. */
  lemma {:induction false} DirtyIff(fp: Fingerprint, s: State, ls: seq<Label>, i: nat, d: string)
    requires Initial(s) && i <= |ls|
    ensures (d in At(fp, s, ls, i).buffer && At(fp, s, ls, i).buffer[d].dirty) <==>
            AnyOutstanding(fp, s, ls, i, d)
  {
    if i > 0 {
      DirtyIff(fp, s, ls, i - 1, d);
      RunKeepsBase(fp, s, ls[..i - 1]);
      AtStep(fp, s, ls, i - 1);
      StepDirt(fp, At(fp, s, ls, i - 1), ls[i - 1], d);
      OneMoreStep(fp, s, ls, i, d);
    }
  }

  lemma OneMoreStep(fp: Fingerprint, s: State, ls: seq<Label>, i: nat, d: string)
    requires 0 < i <= |ls|
    ensures AnyOutstanding(fp, s, ls, i, d) <==>
            Effective(fp, s, ls, i - 1, d) || (!Cleans(fp, s, ls, i - 1, d) && AnyOutstanding(fp, s, ls, i - 1, d))
  {
    if Effective(fp, s, ls, i - 1, d) { assert Outstanding(fp, s, ls, i, d, i - 1); }
    if k: nat :| k < i && Outstanding(fp, s, ls, i, d, k) && k < i - 1 {
      assert Outstanding(fp, s, ls, i - 1, d, k);
    }
    if AnyOutstanding(fp, s, ls, i - 1, d) && !Cleans(fp, s, ls, i - 1, d) {
      var k: nat :| k < i - 1 && Outstanding(fp, s, ls, i - 1, d, k);
      assert Outstanding(fp, s, ls, i, d, k);
    }
  }

  lemma {:induction false} TimeRises(fp: Fingerprint, s: State, ls: seq<Label>, j: nat, i: nat)
    requires j <= i <= |ls|
    ensures At(fp, s, ls, j).now <= At(fp, s, ls, i).now
  {
    if j < i {
      TimeRises(fp, s, ls, j, i - 1);
      AtStep(fp, s, ls, i - 1);
    }
  }

  /** The last change of a directory is no earlier than any other. */
  lemma LastIsLatest(fp: Fingerprint, s: State, ls: seq<Label>, i: nat, d: string, j: nat, k: nat)
    requires j < i <= |ls| && k < i && LastAt(fp, s, ls, i, d, j) && Effective(fp, s, ls, k, d)
    ensures At(fp, s, ls, k).now <= At(fp, s, ls, j).now <= At(fp, s, ls, i).now
  {
    TimeRises(fp, s, ls, k, j);
    TimeRises(fp, s, ls, j, i);
  }

  /** In no run does a timer flush write a directory that changed less than an interval ago. */
  lemma RecentIsSkipped(fp: Fingerprint, s: State, ls: seq<Label>, i: nat, d: string, k: nat, interval: nat)
    requires Initial(s) && k < i <= |ls| && Effective(fp, s, ls, k, d)
    requires At(fp, s, ls, i).now < At(fp, s, ls, k).now + interval
    ensures d !in ToWrite(fp, At(fp, s, ls, i).buffer, Timer, interval, At(fp, s, ls, i).now)
  {
    RunTimed(fp, s, ls, i, d);
    var t := At(fp, s, ls, i);
    var j: nat :| j < i && LastAt(fp, s, ls, i, d, j) && t.buffer[d].lastChange == At(fp, s, ls, j).now;
    LastIsLatest(fp, s, ls, i, d, j, k);
  }

  /** Every change of d is at least an interval old. */
  ghost predicate QuietSince(fp: Fingerprint, s: State, ls: seq<Label>, i: nat, d: string, interval: nat)
    requires i <= |ls|
  {
    forall k: nat | k < i && Effective(fp, s, ls, k, d) :: At(fp, s, ls, k).now + interval <= At(fp, s, ls, i).now
  }

  /**
   * Exactly what a flush takes, outside the put/record window of the directory: those that differ from what is stored
   * and, for a timer flush, whose every change is at least an interval old.
   */
  lemma DueIff(fp: Fingerprint, s: State, ls: seq<Label>, i: nat, d: string, r: Reason, interval: nat)
    requires Initial(s) && CompatibleRun(fp, s, ls) && i <= |ls|
    requires d in At(fp, s, ls, i).buffer && !LandedFor(At(fp, s, ls, i), d)
    ensures var t := At(fp, s, ls, i);
            d in ToWrite(fp, t.buffer, r, interval, t.now) <==>
            fp(t.buffer[d].manifest) != fp(Stored(t, d)) && (r == Forced || QuietSince(fp, s, ls, i, d, interval))
  {
    var t := At(fp, s, ls, i);
    RunKeepsInv(fp, s, ls, i);
    assert DirOk(fp, t, d);
    RunTimed(fp, s, ls, i, d);
    if t.buffer[d].dirty {
      var j: nat :| j < i && LastAt(fp, s, ls, i, d, j) && t.buffer[d].lastChange == At(fp, s, ls, j).now;
      forall k: nat | k < i && Effective(fp, s, ls, k, d)
        ensures At(fp, s, ls, k).now <= At(fp, s, ls, j).now <= t.now
      {
        LastIsLatest(fp, s, ls, i, d, j, k);
      }
    }
  }

  // ---------------------------------------------------------------- when an edit can be lost

  /** Nothing of d is in flight, memory and backend differ, and no flush of any kind will ever write it. */
  ghost predicate Lost(fp: Fingerprint, s: State, d: string)
  {
    && d in s.buffer && !InFlight(s, d) && fp(s.buffer[d].manifest) != fp(Stored(s, d))
    && forall r, i, now :: d !in ToWrite(fp, s.buffer, r, i, now)
  }

  /** Compatible runs lose nothing, at any moment. */
  lemma CompatibleNeverLoses(fp: Fingerprint, s: State, ls: seq<Label>, i: nat, d: string)
    requires Initial(s) && CompatibleRun(fp, s, ls) && i <= |ls|
    ensures !Lost(fp, At(fp, s, ls, i), d)
  {
    RunKeepsInv(fp, s, ls, i);
    var t := At(fp, s, ls, i);
    if d in t.buffer && !InFlight(t, d) && fp(t.buffer[d].manifest) != fp(Stored(t, d)) {
      assert DirOk(fp, t, d) && !LandedFor(t, d);
      assert d in ToWrite(fp, t.buffer, Forced, 0, 0);
    }
  }

  lemma {:induction false} ExecJoin(fp: Fingerprint, s: State, ls: seq<Label>, rest: seq<Label>)
    ensures Exec(fp, s, ls + rest) == Exec(fp, Exec(fp, s, ls), rest)
  {
    if rest == [] {
      assert ls + rest == ls;
    } else {
      var init, z := rest[..|rest| - 1], rest[|rest| - 1];
      ExecJoin(fp, s, ls, init);
      assert ls + rest == ls + init + [z];
      ExecStep(fp, s, ls + init, z);
    }
  }

  ghost function JobsOf(s: State, d: string): (js: set<JobId>) { set j | j in s.jobs && j.1 == d }

  /** A write in flight can always be got out of the way: by failing, or by being recorded. */
  lemma DropJob(fp: Fingerprint, s: State, x: JobId) returns (l: Label)
    requires Base(fp, s) && x in s.jobs
    ensures var s' := Next(fp, s, l); s'.jobs == s.jobs - {x} && s'.buffer.Keys == s.buffer.Keys
  {
    l := if s.jobs[x].landed then Record(x) else Abandon(x);
  }

  /** Leave only two writes of the directory in flight. */
  lemma {:induction false} DropOthers(fp: Fingerprint, s: State, i: JobId, j: JobId) returns (ls: seq<Label>)
    requires Base(fp, s) && i in s.jobs && j in s.jobs && i.1 == j.1
    ensures var t := Exec(fp, s, ls);
            && Base(fp, t) && JobsOf(t, i.1) == {i, j}
            && i in t.jobs && t.jobs[i] == s.jobs[i] && j in t.jobs && t.jobs[j] == s.jobs[j]
    decreases |JobsOf(s, i.1)|
  {
    if x :| x in JobsOf(s, i.1) && x != i && x != j {
      var l := DropJob(fp, s, x);
      var s' := Next(fp, s, l);
      StepKeepsBase(fp, s, l);
      assert JobsOf(s', i.1) == JobsOf(s, i.1) - {x};
      var rest := DropOthers(fp, s', i, j);
      ls := [l] + rest;
      ExecStep(fp, s, [], l);
      assert [] + [l] == [l];
      ExecJoin(fp, s, [l], rest);
    } else {
      ls := [];
      assert JobsOf(s, i.1) == {i, j};
    }
  }

  /** Let one write land, if it has not. */
  lemma LandJob(fp: Fingerprint, s: State, x: JobId) returns (l: Label)
    requires Base(fp, s) && x in s.jobs
    ensures var t := Next(fp, s, l);
            Base(fp, t) && t.jobs == s.jobs[x := s.jobs[x].(landed := true)] && t.buffer == s.buffer
  {
    l := if s.jobs[x].landed then Tick(0) else Put(x);
    StepKeepsBase(fp, s, l);
    if s.jobs[x].landed { assert s.jobs[x := s.jobs[x].(landed := true)] == s.jobs; }
  }

  /** Both recorded, the one the backend does not hold last; then an edit back to what that one wrote is lost. */
  lemma RecordWrongWay(fp: Fingerprint, s: State, first: JobId, last: JobId) returns (ls: seq<Label>)
    requires Base(fp, s) && first in s.jobs && last in s.jobs && first != last && first.1 == last.1
    requires JobsOf(s, last.1) == {first, last} && s.jobs[first].landed && s.jobs[last].landed
    requires fp(Stored(s, last.1)) != s.jobs[last].fp
    ensures Lost(fp, Exec(fp, s, ls), last.1)
  {
    var m := s.jobs[last].manifest;
    var a, b, c: Label := Record(first), Record(last), Mutate(last.1, Edit(_ => m));
    ls := [a, b, c];
    ExecStep(fp, s, [], a);
    assert [] + [a] == [a];
    ExecStep(fp, s, [a], b);
    assert [a] + [b] == [a, b];
    ExecStep(fp, s, [a, b], c);
    assert [a, b] + [c] == [a, b, c];
    var s2, t := Exec(fp, s, [a, b]), Exec(fp, s, ls);
    assert s2.jobs == s.jobs - {first} - {last} && s2.backend == s.backend;
    assert s2.buffer[last.1].written == Some(s.jobs[last].fp);
    assert t.jobs == s2.jobs && t.buffer[last.1].manifest == m && t.buffer[last.1].written == Some(fp(m));
    assert forall x | x in s.jobs && x.1 == last.1 :: x in JobsOf(s, last.1);
  }

  /** Two writes of one directory in flight under different fingerprints: some continuation loses an edit. */
  lemma IncompatibleCanLose(fp: Fingerprint, s: State, i: JobId, j: JobId) returns (ls: seq<Label>)
    requires Base(fp, s) && i in s.jobs && j in s.jobs && i.1 == j.1 && s.jobs[i].fp != s.jobs[j].fp
    ensures Lost(fp, Exec(fp, s, ls), i.1)
  {
    var drop := DropOthers(fp, s, i, j);
    var s1 := Exec(fp, s, drop);
    var p := LandJob(fp, s1, i);
    var s2 := Next(fp, s1, p);
    var q := LandJob(fp, s2, j);
    var s3 := Next(fp, s2, q);
    assert JobsOf(s3, i.1) == JobsOf(s1, i.1);
    var last := if fp(Stored(s3, i.1)) != s3.jobs[i].fp then i else j;
    var tail := RecordWrongWay(fp, s3, if last == i then j else i, last);
    ls := drop + [p] + [q] + tail;
    ExecStep(fp, s, drop, p);
    ExecStep(fp, s, drop + [p], q);
    ExecJoin(fp, s, drop + [p] + [q], tail);
  }

  ghost predicate CanLose(fp: Fingerprint, s: State) { exists rest, d :: Lost(fp, Exec(fp, s, rest), d) }

  ghost predicate CanOverlap(fp: Fingerprint, s: State) { exists rest :: !Compatible(Exec(fp, s, rest)) }

  lemma IncompatibleLoses(fp: Fingerprint, s: State)
    requires Base(fp, s) && !Compatible(s)
    ensures CanLose(fp, s)
  {
    var i, j :| i in s.jobs && j in s.jobs && i.1 == j.1 && s.jobs[i].fp != s.jobs[j].fp;
    var ls := IncompatibleCanLose(fp, s, i, j);
  }

  lemma LosesEarlier(fp: Fingerprint, s: State, ls: seq<Label>)
    requires CanLose(fp, Exec(fp, s, ls))
    ensures CanLose(fp, s)
  {
    var rest, d :| Lost(fp, Exec(fp, Exec(fp, s, ls), rest), d);
    ExecJoin(fp, s, ls, rest);
  }

  lemma OverlapLoses(fp: Fingerprint, s: State)
    requires Base(fp, s) && CanOverlap(fp, s)
    ensures CanLose(fp, s)
  {
    var rest :| !Compatible(Exec(fp, s, rest));
    RunKeepsBase(fp, s, rest);
    IncompatibleLoses(fp, Exec(fp, s, rest));
    LosesEarlier(fp, s, rest);
  }

  lemma LossNeedsOverlap(fp: Fingerprint, s: State, ls: seq<Label>, rest: seq<Label>, d: string)
    requires Initial(s) && CompatibleRun(fp, s, ls) && Lost(fp, Exec(fp, s, ls + rest), d)
    ensures CanOverlap(fp, Exec(fp, s, ls))
  {
    var all := ls + rest;
    assert all[..|all|] == all;
    if CompatibleRun(fp, s, all) { CompatibleNeverLoses(fp, s, all, |all|, d); }
    forall i: nat | i <= |ls| ensures Compatible(At(fp, s, all, i)) {
      assert all[..i] == ls[..i];
      assert Compatible(At(fp, s, ls, i));
    }
    var i: nat :| i <= |all| && !Compatible(At(fp, s, all, i));
    assert all[..i] == ls + rest[..i - |ls|];
    ExecJoin(fp, s, ls, rest[..i - |ls|]);
    assert !Compatible(Exec(fp, Exec(fp, s, ls), rest[..i - |ls|]));
  }

  /**
   * The exact condition. From any point of a compatible run, some continuation loses an edit for good if and only
   * if some continuation brings two writes of one directory in flight under different fingerprints.
   */
  lemma LossIffOverlap(fp: Fingerprint, s: State, ls: seq<Label>)
    requires Initial(s) && CompatibleRun(fp, s, ls)
    ensures CanLose(fp, Exec(fp, s, ls)) <==> CanOverlap(fp, Exec(fp, s, ls))
  {
    var t := Exec(fp, s, ls);
    RunKeepsBase(fp, s, ls);
    if CanOverlap(fp, t) { OverlapLoses(fp, t); }
    if CanLose(fp, t) {
      var rest, d :| Lost(fp, Exec(fp, t, rest), d);
      ExecJoin(fp, s, ls, rest);
      LossNeedsOverlap(fp, s, ls, rest, d);
    }
  }

  const FRESH: State := State(map[], map[], map[], map[], 0)

  /** The root directory is loaded, edited, snapped by one flush, edited again and snapped by a second flush. */
  function OverlapSchedule(f: Manifest -> Manifest, g: Manifest -> Manifest): (ls: seq<Label>)
  {
    [Fetch(0, ""), Insert(0), Mutate("", Edit(f)), Snap(0, Forced, 0), Mutate("", Edit(g)), Snap(1, Forced, 0)]
  }

  lemma FirstSnapshot(fp: Fingerprint, f: Manifest -> Manifest)
    requires fp(f(EMPTY)) != fp(EMPTY)
    ensures Exec(fp, FRESH, [Fetch(0, ""), Insert(0), Mutate("", Edit(f)), Snap(0, Forced, 0)]) ==
            State(map["" := DirState(f(EMPTY), Some(fp(EMPTY)), 0, true)], map[], map[],
                  map[(0, "") := Job(f(EMPTY), fp(f(EMPTY)), false)], 0)
  {
    var a, b, c, d: Label := Fetch(0, ""), Insert(0), Mutate("", Edit(f)), Snap(0, Forced, 0);
    var s1 := Next(fp, FRESH, a);
    ExecStep(fp, FRESH, [], a);
    assert [] + [a] == [a];
    ExecStep(fp, FRESH, [a], b);
    assert [a] + [b] == [a, b];
    ExecStep(fp, FRESH, [a, b], c);
    assert [a, b] + [c] == [a, b, c];
    ExecStep(fp, FRESH, [a, b, c], d);
    assert [a, b, c] + [d] == [a, b, c, d];
    assert s1.loads == map[0 := ("", EMPTY)];
    assert s1.loads - {0} == map[];
    var s3 := Exec(fp, FRESH, [a, b, c]);
    assert s3.buffer == map["" := DirState(f(EMPTY), Some(fp(EMPTY)), 0, true)];
    assert ToWrite(fp, s3.buffer, Forced, 0, 0) == {""};
    assert Snapped(fp, s3, 0, Forced, 0) == map[(0, "") := Job(f(EMPTY), fp(f(EMPTY)), false)];
  }

  lemma SecondSnapshot(fp: Fingerprint, s: State, g: Manifest -> Manifest, m: Manifest)
    requires s == State(map["" := DirState(m, Some(fp(EMPTY)), 0, true)], map[], map[],
                        map[(0, "") := Job(m, fp(m), false)], 0)
    requires fp(g(m)) != fp(EMPTY) && fp(g(m)) != fp(m)
    ensures !Compatible(Next(fp, Next(fp, s, Mutate("", Edit(g))), Snap(1, Forced, 0)))
  {
    var s1 := Next(fp, s, Mutate("", Edit(g)));
    assert s1.buffer[""] == DirState(g(m), Some(fp(EMPTY)), 0, true);
    assert "" in ToWrite(fp, s1.buffer, Forced, 0, 0);
    var s2 := Next(fp, s1, Snap(1, Forced, 0));
    assert (1, "") in s2.jobs && (0, "") in s2.jobs && s2.jobs[(1, "")].fp != s2.jobs[(0, "")].fp;
  }

  /** Two flushes do overlap like this in a fresh session, for all edits the fingerprint tells apart. */
  lemma OverlapIsReachable(fp: Fingerprint, f: Manifest -> Manifest, g: Manifest -> Manifest)
    requires fp(f(EMPTY)) != fp(EMPTY) && fp(g(f(EMPTY))) != fp(EMPTY) && fp(g(f(EMPTY))) != fp(f(EMPTY))
    ensures !Compatible(Exec(fp, FRESH, OverlapSchedule(f, g)))
  {
    var ls: seq<Label> := [Fetch(0, ""), Insert(0), Mutate("", Edit(f)), Snap(0, Forced, 0)];
    var e, n: Label := Mutate("", Edit(g)), Snap(1, Forced, 0);
    FirstSnapshot(fp, f);
    SecondSnapshot(fp, Exec(fp, FRESH, ls), g, f(EMPTY));
    ExecStep(fp, FRESH, ls, e);
    ExecStep(fp, FRESH, ls + [e], n);
    assert Exec(fp, FRESH, ls + [e] + [n]) == Next(fp, Next(fp, Exec(fp, FRESH, ls), e), n);
    assert ls + [e] + [n] == OverlapSchedule(f, g);
  }
}
