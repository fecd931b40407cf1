/** The test-database cache that sharded jobs share through an S3 bucket keyed by fingerprint. */
module DbCache {
  import opened Common

  datatype Database = Default | StudentModuleHistory
  datatype DbFile = Data(of: Database) | MigrationsData(of: Database) | Schema(of: Database)

  const BOKCHOY_DB_FILES: seq<DbFile> := [
    Data(Default), Data(StudentModuleHistory),
    MigrationsData(Default), MigrationsData(StudentModuleHistory),
    Schema(Default), Schema(StudentModuleHistory)]

  /** The cached database files present in a folder, with their contents. */
  type Db = map<DbFile, string>

  /** The two files that calculating migrations writes. That runs on an emptied database and so depends on
      the checked-out code only; it determines what migrating does. */
  type Yaml = y: seq<string> | |y| == 2 witness ["", ""]

  type Fingerprint = string
  type Bucket = map<Fingerprint, Db>

  predicate Complete(db: Db) {
    forall f <- BOKCHOY_DB_FILES :: f in db
  }

  /** Loading files into a fresh database, migrating it and dumping it; the fingerprint of files and
      migration output; and which cache files ever occur with which code. */
  datatype World = World(
    migrate: (Db, Yaml) -> Db, digest: (Db, Yaml) -> Fingerprint, occurs: (Db, Yaml) -> bool)

  /** Migrating writes all files. */
  ghost predicate MigratesFully(w: World) {
    forall d, y :: Complete(w.migrate(d, y))
  }

  /** It has nothing left to do the second time. */
  ghost predicate MigratesOnce(w: World) {
    forall d, y :: w.migrate(w.migrate(d, y), y) == w.migrate(d, y)
  }

  /** What occurs includes what migrating makes of it, and of an empty cache. */
  ghost predicate Closed(w: World) {
    && (forall d, y {:trigger w.migrate(d, y)} :: w.occurs(d, y) ==> w.occurs(w.migrate(d, y), y))
    && (forall d, y {:trigger w.occurs(d, y), w.migrate(map[], y)} ::
          w.occurs(d, y) ==> w.occurs(w.migrate(map[], y), y))
  }

  /** Files that occur and have a fingerprint. */
  predicate Known(w: World, d: Db, y: Yaml) {
    Complete(d) && w.occurs(d, y)
  }

  /** Of the files that occur, different ones have different fingerprints. */
  ghost predicate TellsApart(w: World) {
    forall d, y, e, z :: Known(w, d, y) && Known(w, e, z) && w.digest(d, y) == w.digest(e, z) ==> d == e && y == z
  }

  ghost predicate Sound(w: World) {
    MigratesFully(w) && MigratesOnce(w) && Closed(w) && TellsApart(w)
  }

  predicate Migrated(w: World, d: Db, y: Yaml) {
    w.migrate(d, y) == d
  }

  // ---------- One job, step by step ----------

  /** Where a job stands in update_local_bokchoy_db_from_s3. */
  datatype Pc =
    | Idle
    | Matched
    | Probe(fp: Fingerprint)
    | Refresh(fp: Fingerprint)
    | Download(fp: Fingerprint)
    | Load
    | Migrate(fp: Fingerprint)
    | Reprobe(fp: Fingerprint)
    | Upload(fp: Fingerprint)
    | Finish
    | Done
    | Failed

  /** How the job came by its database: from its own matching files, from the bucket, by migrating, or
      from its own files because the bucket was lost between two probes. */
  datatype Branch = Local | Fetched | MigratedHere | Lost

  /** A job's workspace: cache files, code, fingerprint file, MySQL contents; and for the task under
      way its position, the files it started from and the branch taken. */
  datatype Job = Job(db: Db, yaml: Yaml, sha1: Option<Fingerprint>, mysql: Db, pc: Pc, start: Db, via: Branch)

  /** scripts/reset-test-db.sh: load the cache files or, if asked to or if some are missing, migrate and
      rebuild them. A rebuild first removes everything called bok_choy*, the fingerprint file too. */
  function Reset(w: World, j: Job, rebuild: bool): Job {
    if rebuild || !Complete(j.db) then
      j.(mysql := w.migrate(j.db, j.yaml), db := w.migrate(j.db, j.yaml), sha1 := None)
    else j.(mysql := j.db)
  }

  function Begin(w: World, j: Job): Job {
    var fp := w.digest(j.db, j.yaml);
    j.(mysql := map[], start := j.db, via := Local,
       pc := if !Complete(j.db) then Failed else if j.sha1 == Some(fp) then Matched else Probe(fp))
  }

  /** Where the next atomic step leads. `up` tells whether S3 can be reached in this step. */
  function NextPc(pc: Pc, bucket: Bucket, up: bool): Pc {
    match pc
    case Probe(fp) => if up && fp in bucket then Refresh(fp) else Migrate(fp)
    case Refresh(fp) => if up && fp in bucket then Download(fp) else Load
    case Download(fp) => if up && fp in bucket && Complete(bucket[fp]) then Load else Failed
    case Migrate(fp) => Reprobe(fp)
    case Reprobe(fp) => if up && fp in bucket then Finish else Upload(fp)
    case Upload(_) => Finish
    case Load => Finish
    case Finish => Done
    case Matched => Done
    case _ => pc
  }

  /** What the step does to the workspace. */
  function Change(w: World, j: Job, next: Pc, bucket: Bucket, rewrite: bool): Job {
    match j.pc
    case Matched => Reset(w, j, false)
    case Refresh(_) => if next == Load then j.(via := Lost) else j
    case Download(fp) => if next == Load && fp in bucket then j.(db := bucket[fp], via := Fetched) else j
    case Load => Reset(w, j, false)
    case Migrate(_) => Reset(w, j, true).(via := MigratedHere)
    case Finish => if rewrite then j.(sha1 := Some(w.digest(j.db, j.yaml)), mysql := map[]) else j
    case _ => j
  }

  /** What it does to the bucket: an upload never replaces an entry. */
  function Store(j: Job, bucket: Bucket, up: bool): Bucket {
    if j.pc.Upload? && up && j.pc.fp !in bucket then bucket[j.pc.fp := j.db] else bucket
  }

  function Step(w: World, j: Job, bucket: Bucket, up: bool, rewrite: bool): (Job, Bucket) {
    var next := NextPc(j.pc, bucket, up);
    (Change(w, j, next, bucket, rewrite).(pc := next), Store(j, bucket, up))
  }

  /** update_bokchoy_db_cache: drop the cache files, migrate an empty database, record the result. */
  function Recreate(w: World, j: Job): Job {
    var r := Reset(w, j.(db := map[]), true);
    r.(sha1 := Some(w.digest(r.db, r.yaml)), mysql := map[])
  }

  // ---------- What every step keeps ----------

  /** Each entry holds the migrated form of the files its fingerprint names. */
  ghost predicate BucketOk(w: World, bucket: Bucket) {
    forall d, y :: Known(w, d, y) && w.digest(d, y) in bucket ==> bucket[w.digest(d, y)] == w.migrate(d, y)
  }

  /** A recorded fingerprint only ever names files that need no migration. */
  ghost predicate Honest(w: World, sha1: Option<Fingerprint>) {
    forall d, y :: Known(w, d, y) && sha1 == Some(w.digest(d, y)) ==> Migrated(w, d, y)
  }

  /** What a job ends up with, given the files it started from and the branch it took. */
  function Target(w: World, j: Job): Db {
    if j.via == Fetched || j.via == MigratedHere then w.migrate(j.start, j.yaml) else j.start
  }

  /** The state of a job at each position. */
  predicate JobOk(w: World, j: Job, bucket: Bucket) {
    && w.occurs(j.db, j.yaml) && (j.pc !in {Idle, Failed} ==> Known(w, j.start, j.yaml)) && JobAt(w, j, bucket)
  }

  predicate JobAt(w: World, j: Job, bucket: Bucket) {
    match j.pc
    case Idle => true
    case Failed => true
    case Matched => Complete(j.db) && j.db == j.start && j.via == Local && j.sha1 == Some(w.digest(j.db, j.yaml))
    case Probe(fp) => Complete(j.db) && j.db == j.start && fp == w.digest(j.db, j.yaml)
    case Refresh(fp) => Complete(j.db) && j.db == j.start && fp == w.digest(j.db, j.yaml) && fp in bucket
    case Download(fp) => Complete(j.db) && j.db == j.start && fp == w.digest(j.db, j.yaml) && fp in bucket
    case Load => Complete(j.db) && j.db == Target(w, j) && j.via in {Fetched, Lost}
    case Migrate(fp) => Complete(j.db) && j.db == j.start && fp == w.digest(j.db, j.yaml)
    case Reprobe(fp) =>
      && Complete(j.db) && j.db == j.mysql == Target(w, j) && j.via == MigratedHere
      && fp == w.digest(j.start, j.yaml)
    case Upload(fp) =>
      && Complete(j.db) && j.db == j.mysql == Target(w, j) && j.via == MigratedHere
      && fp == w.digest(j.start, j.yaml)
    case Finish => Complete(j.db) && j.db == j.mysql == Target(w, j) && j.via != Local
    case Done =>
      && Complete(j.db) && j.db == Target(w, j)
      && (j.via == Local ==> j.sha1 == Some(w.digest(j.db, j.yaml)))
      && (j.mysql == j.db ||
          (j.mysql == map[] && j.via != Local && j.sha1 == Some(w.digest(j.db, j.yaml))))
  }

  lemma StepKeepsJob(w: World, j: Job, bucket: Bucket, up: bool, rewrite: bool)
    requires Sound(w) && BucketOk(w, bucket) && JobOk(w, j, bucket)
    ensures JobOk(w, Step(w, j, bucket, up, rewrite).0, Step(w, j, bucket, up, rewrite).1)
  {
    if j.pc.Probe? || j.pc.Refresh? || j.pc.Download? {
      FetchingKeepsJob(w, j, bucket, up, rewrite);
    } else {
      WorkingKeepsJob(w, j, bucket, up, rewrite);
    }
  }

  lemma FetchingKeepsJob(w: World, j: Job, bucket: Bucket, up: bool, rewrite: bool)
    requires Sound(w) && BucketOk(w, bucket) && JobOk(w, j, bucket)
    requires j.pc.Probe? || j.pc.Refresh? || j.pc.Download?
    ensures JobOk(w, Step(w, j, bucket, up, rewrite).0, Step(w, j, bucket, up, rewrite).1)
  {
    hide Complete;
  }

  lemma WorkingKeepsJob(w: World, j: Job, bucket: Bucket, up: bool, rewrite: bool)
    requires Sound(w) && JobOk(w, j, bucket)
    requires !j.pc.Probe? && !j.pc.Refresh? && !j.pc.Download?
    ensures JobOk(w, Step(w, j, bucket, up, rewrite).0, Step(w, j, bucket, up, rewrite).1)
  {
    hide Complete;
  }

  /** The bucket only grows, entries are never replaced, and they stay right whatever fails. */
  lemma StepKeepsBucket(w: World, j: Job, bucket: Bucket, up: bool, rewrite: bool)
    requires Sound(w) && BucketOk(w, bucket) && JobOk(w, j, bucket)
    ensures var after := Step(w, j, bucket, up, rewrite).1;
            BucketOk(w, after) && forall fp :: fp in bucket ==> fp in after && after[fp] == bucket[fp]
  {
  }

  lemma JobOkInLargerBucket(w: World, j: Job, bucket: Bucket, larger: Bucket)
    requires JobOk(w, j, bucket) && forall fp :: fp in bucket ==> fp in larger
    ensures JobOk(w, j, larger)
  {
  }

  // ---------- Any number of jobs, in any interleaving ----------

  datatype System = System(bucket: Bucket, jobs: seq<Job>)

  /** Between tasks a job's cache files, code and fingerprint file may be edited or checked out and its
      cache recreated; a task begins, and then takes its steps one at a time, S3 being reachable or not in
      each of them. */
  datatype Event =
    | Edit(i: nat, db: Db, yaml: Yaml, sha1: Option<Fingerprint>)
    | RecreateCache(i: nat)
    | BeginTask(i: nat)
    | TakeStep(i: nat, up: bool, rewrite: bool)

  predicate Resting(j: Job) {
    j.pc in {Idle, Done, Failed}
  }

  function Apply(w: World, s: System, e: Event): System {
    if e.i >= |s.jobs| then s
    else
      var j := s.jobs[e.i];
      match e
      case TakeStep(i, up, rewrite) =>
        var (j', bucket') := Step(w, j, s.bucket, up, rewrite);
        System(bucket', s.jobs[i := j'])
      case _ =>
        if !Resting(j) then s
        else
          s.(jobs := s.jobs[e.i := Restart(w, j, e)])
  }

  /** What the events between tasks do. */
  function Restart(w: World, j: Job, e: Event): Job {
    match e
    case Edit(_, db, yaml, sha1) => j.(db := db, yaml := yaml, sha1 := sha1, pc := Idle)
    case RecreateCache(_) => Recreate(w, j).(pc := Idle)
    case _ => Begin(w, j)
  }

  /** Edits lead to files and code that occur. */
  predicate Genuine(w: World, e: Event) {
    e.Edit? ==> w.occurs(e.db, e.yaml)
  }

  predicate AllGenuine(w: World, events: seq<Event>) {
    forall e <- events :: Genuine(w, e)
  }

  function RunAll(w: World, s: System, events: seq<Event>): System
    decreases |events|
  {
    if events == [] then s else RunAll(w, Apply(w, s, events[0]), events[1..])
  }

  ghost predicate SystemOk(w: World, s: System) {
    BucketOk(w, s.bucket) && forall i :: 0 <= i < |s.jobs| ==> JobOk(w, s.jobs[i], s.bucket)
  }

  predicate BucketGrew(b: Bucket, c: Bucket) {
    forall fp <- b :: fp in c && c[fp] == b[fp]
  }

  lemma ApplyKeepsSystem(w: World, s: System, e: Event)
    requires Sound(w) && SystemOk(w, s) && Genuine(w, e)
    ensures SystemOk(w, Apply(w, s, e)) && BucketGrew(s.bucket, Apply(w, s, e).bucket)
    ensures |Apply(w, s, e).jobs| == |s.jobs|
  {
    hide Sound, JobAt, BucketOk, Step, Restart, Genuine, Known;
    if e.i < |s.jobs| {
      assert JobOk(w, s.jobs[e.i], s.bucket);
      if e.TakeStep? {
        StepKeepsJob(w, s.jobs[e.i], s.bucket, e.up, e.rewrite);
        StepKeepsBucket(w, s.jobs[e.i], s.bucket, e.up, e.rewrite);
        var after := Apply(w, s, e);
        forall i | 0 <= i < |s.jobs| && i != e.i ensures JobOk(w, after.jobs[i], after.bucket) {
          JobOkInLargerBucket(w, s.jobs[i], s.bucket, after.bucket);
        }
      } else {
        RestartKeepsJob(w, s.jobs[e.i], s.bucket, e);
      }
    }
  }

  lemma RestartKeepsJob(w: World, j: Job, bucket: Bucket, e: Event)
    requires Sound(w) && w.occurs(j.db, j.yaml) && Genuine(w, e)
    ensures JobOk(w, Restart(w, j, e), bucket)
  {
    hide Complete;
  }

  /** Under every interleaving, with S3 failing at any point, every bucket entry holds the migrated form
      of the files its fingerprint names, and an entry once written stays as it is. */
  lemma {:induction false} BucketIsAlwaysRight(w: World, s: System, events: seq<Event>)
    requires Sound(w) && SystemOk(w, s) && AllGenuine(w, events)
    ensures SystemOk(w, RunAll(w, s, events)) && |RunAll(w, s, events).jobs| == |s.jobs|
    ensures BucketOk(w, RunAll(w, s, events).bucket)
    ensures BucketGrew(s.bucket, RunAll(w, s, events).bucket)
    decreases |events|
  {
    hide Sound, JobOk, Apply, Genuine;
    if events != [] {
      ApplyKeepsSystem(w, s, events[0]);
      BucketIsAlwaysRight(w, Apply(w, s, events[0]), events[1..]);
    }
  }

  // ---------- When the fingerprints can be trusted ----------

  /** S3 answers a job's second probe as it answered the first, and a checked-in fingerprint file is honest. */
  ghost predicate Steady(w: World, s: System, e: Event) {
    && (e.TakeStep? && e.i < |s.jobs| && s.jobs[e.i].pc.Refresh? ==> e.up)
    && (e.Edit? ==> Honest(w, e.sha1))
  }

  ghost predicate SteadyRun(w: World, s: System, events: seq<Event>)
    decreases |events|
  {
    events == [] || (Steady(w, s, events[0]) && SteadyRun(w, Apply(w, s, events[0]), events[1..]))
  }

  ghost predicate JobHonest(w: World, j: Job) {
    Honest(w, j.sha1) && j.via != Lost
  }

  lemma StepKeepsHonest(w: World, j: Job, bucket: Bucket, up: bool, rewrite: bool)
    requires Sound(w) && BucketOk(w, bucket) && JobOk(w, j, bucket) && JobHonest(w, j)
    requires j.pc.Refresh? ==> up
    ensures JobHonest(w, Step(w, j, bucket, up, rewrite).0)
  {
    hide Complete;
    if j.pc.Finish? && rewrite {
      RecordingIsHonestIff(w, j.db, j.yaml);
    }
  }

  /** Recording the fingerprint of a workspace is honest exactly when its files are fully migrated. */
  lemma RecordingIsHonestIff(w: World, d: Db, y: Yaml)
    requires Sound(w) && Known(w, d, y)
    ensures Honest(w, Some(w.digest(d, y))) <==> Migrated(w, d, y)
  {
  }

  lemma RestartKeepsHonest(w: World, j: Job, e: Event)
    requires Sound(w) && w.occurs(j.db, j.yaml) && JobHonest(w, j)
    requires e.Edit? ==> Honest(w, e.sha1)
    ensures JobHonest(w, Restart(w, j, e))
  {
    hide Complete;
    RecordingIsHonestIff(w, w.migrate(map[], j.yaml), j.yaml);
  }

  ghost predicate AllHonest(w: World, s: System) {
    forall i :: 0 <= i < |s.jobs| ==> JobHonest(w, s.jobs[i])
  }

  lemma {:induction false} RunKeepsHonest(w: World, s: System, events: seq<Event>)
    requires Sound(w) && SystemOk(w, s) && AllHonest(w, s)
    requires AllGenuine(w, events) && SteadyRun(w, s, events)
    ensures AllHonest(w, RunAll(w, s, events))
    decreases |events|
  {
    hide Sound, JobAt, BucketOk, JobHonest, Restart, Step, Honest, Known, Genuine;
    if events != [] {
      var e := events[0];
      ApplyKeepsSystem(w, s, e);
      if e.i < |s.jobs| {
        assert JobOk(w, s.jobs[e.i], s.bucket);
        if e.TakeStep? {
          StepKeepsHonest(w, s.jobs[e.i], s.bucket, e.up, e.rewrite);
        } else {
          RestartKeepsHonest(w, s.jobs[e.i], e);
        }
      }
      RunKeepsHonest(w, Apply(w, s, e), events[1..]);
    }
  }

  /** A system in which nothing has been fetched yet and no job is under way. */
  ghost predicate Fresh(w: World, s: System) {
    && BucketOk(w, s.bucket)
    && forall i :: 0 <= i < |s.jobs| ==> FreshJob(w, s.jobs[i])
  }

  ghost predicate FreshJob(w: World, j: Job) {
    j.pc == Idle && j.via == Local && w.occurs(j.db, j.yaml) && Honest(w, j.sha1)
  }

  lemma FreshIsOk(w: World, s: System)
    requires Fresh(w, s)
    ensures SystemOk(w, s) && AllHonest(w, s)
  {
    hide Honest;
    forall i | 0 <= i < |s.jobs| ensures JobOk(w, s.jobs[i], s.bucket) && JobHonest(w, s.jobs[i]) {
      assert FreshJob(w, s.jobs[i]);
    }
  }

  /** Cache-match soundness: over any run of both tasks mixed with edits, in all workspaces at once, if
      the fingerprint on disk matches the files and the code, the files are already fully migrated. */
  lemma MatchMeansMigrated(w: World, s: System, events: seq<Event>, i: nat)
    requires Sound(w) && Fresh(w, s) && AllGenuine(w, events) && SteadyRun(w, s, events)
    requires i < |s.jobs|
    ensures var after := RunAll(w, s, events);
            && |after.jobs| == |s.jobs|
            && var j := after.jobs[i];
               Complete(j.db) && j.sha1 == Some(w.digest(j.db, j.yaml)) ==> Migrated(w, j.db, j.yaml)
  {
    hide Sound, SteadyRun, BucketOk, Complete;
    FreshIsOk(w, s);
    BucketIsAlwaysRight(w, s, events);
    RunKeepsHonest(w, s, events);
    assert JobHonest(w, RunAll(w, s, events).jobs[i]);
  }

  /** A finished job has the migrated form of the files it started from, whichever branch it took. */
  lemma FinishedMeansMigrated(w: World, s: System, events: seq<Event>, i: nat)
    requires Sound(w) && Fresh(w, s) && AllGenuine(w, events) && SteadyRun(w, s, events)
    requires i < |s.jobs|
    ensures var after := RunAll(w, s, events);
            && |after.jobs| == |s.jobs|
            && var j := after.jobs[i];
               j.pc == Done ==> j.db == w.migrate(j.start, j.yaml) && Complete(j.db)
  {
    hide Sound, SteadyRun, BucketOk, Complete;
    FreshIsOk(w, s);
    BucketIsAlwaysRight(w, s, events);
    RunKeepsHonest(w, s, events);
    var j := RunAll(w, s, events).jobs[i];
    assert JobHonest(w, j) && JobOk(w, j, RunAll(w, s, events).bucket);
  }

  /** Shard confluence: jobs that started from the same files and code finish with the same files. */
  lemma ShardsAgree(w: World, s: System, events: seq<Event>, i: nat, k: nat)
    requires Sound(w) && Fresh(w, s) && AllGenuine(w, events) && SteadyRun(w, s, events)
    requires i < |s.jobs| && k < |s.jobs|
    ensures var after := RunAll(w, s, events);
            && |after.jobs| == |s.jobs|
            && var a, b := after.jobs[i], after.jobs[k];
               a.pc == Done && b.pc == Done && a.start == b.start && a.yaml == b.yaml ==> a.db == b.db
  {
    hide Sound, SteadyRun, Fresh, Complete;
    FinishedMeansMigrated(w, s, events, i);
    FinishedMeansMigrated(w, s, events, k);
  }

  // ---------- Without the steadiness assumption ----------

  /** What a job's latest task was told: the fingerprint file when it began and whether it matched, whether
      its first probe found the bucket, whether S3 could not be reached for its second, whether after migrating
      S3 was reached to find or to upload the files, and whether it was asked to record the fingerprint. */
  datatype Answers = Answers(
    sha1: Option<Fingerprint>, matched: bool, found: bool, lost: bool, shared: bool, recorded: bool)

  function LatestAnswers(w: World, s: System, events: seq<Event>, i: nat): Answers
    requires i < |s.jobs|
  {
    if events == [] then Answers(None, false, false, false, false, false)
    else
      var n := |events| - 1;
      RunKeepsSize(w, s, events[..n]);
      var before := RunAll(w, s, events[..n]);
      Told(w, before.jobs[i], before.bucket, events[n], i, LatestAnswers(w, s, events[..n], i))
  }

  function Told(w: World, j: Job, bucket: Bucket, e: Event, i: nat, a: Answers): Answers {
    if e.i != i then a
    else if e.BeginTask? && Resting(j) then
      Answers(j.sha1, j.sha1 == Some(w.digest(j.db, j.yaml)), false, false, false, false)
    else if e.TakeStep? && j.pc.Probe? then a.(found := e.up && j.pc.fp in bucket)
    else if e.TakeStep? && j.pc.Refresh? then a.(lost := !e.up)
    else if e.TakeStep? && j.pc.Reprobe? then a.(shared := e.up && j.pc.fp in bucket)
    else if e.TakeStep? && j.pc.Upload? then a.(shared := e.up)
    else if e.TakeStep? && j.pc.Finish? then a.(recorded := e.rewrite)
    else a
  }

  lemma {:induction false} RunKeepsSize(w: World, s: System, events: seq<Event>)
    ensures |RunAll(w, s, events).jobs| == |s.jobs|
    decreases |events|
  {
    hide Step, Restart;
    if events != [] {
      RunKeepsSize(w, Apply(w, s, events[0]), events[1..]);
    }
  }

  lemma {:induction false} RunSnoc(w: World, s: System, events: seq<Event>)
    requires events != []
    ensures RunAll(w, s, events) == Apply(w, RunAll(w, s, events[..|events| - 1]), events[|events| - 1])
    decreases |events|
  {
    hide Apply;
    var n := |events| - 1;
    if n > 0 {
      assert events[1..][..n - 1] == events[..n][1..];
      RunSnoc(w, Apply(w, s, events[0]), events[1..]);
    }
  }

  /** The branch a job is on, and what it does to the fingerprint file and MySQL, as told by those answers. */
  predicate Follows(w: World, j: Job, a: Answers) {
    match j.pc
    case Idle => true
    case Failed => true
    case Matched => a.matched && !a.found && !a.lost && !a.recorded && j.via == Local && j.sha1 == a.sha1
    case Done =>
      && OnBranch(j, a)
      && j.sha1 == (if a.recorded then Some(w.digest(j.db, j.yaml)) else if a.matched || a.found then a.sha1 else None)
      && j.mysql == (if a.recorded then map[] else j.db)
    case Probe(_) => !a.matched && !a.found && !a.lost && !a.recorded && j.via == Local && j.sha1 == a.sha1
    case Refresh(_) => !a.matched && a.found && !a.lost && !a.recorded && j.via == Local && j.sha1 == a.sha1
    case Download(_) => !a.matched && a.found && !a.lost && !a.recorded && j.via == Local && j.sha1 == a.sha1
    case Migrate(_) => !a.matched && !a.found && !a.lost && !a.recorded && j.via == Local
    case _ =>
      && !a.matched && !a.recorded && OnBranch(j, a)
      && j.sha1 == if a.found then a.sha1 else None
  }

  predicate OnBranch(j: Job, a: Answers) {
    && (j.via == Local <==> a.matched) && (j.via == Lost <==> a.lost)
    && (j.via == MigratedHere <==> !a.matched && !a.found) && (a.lost ==> a.found)
  }

  lemma StepFollows(w: World, j: Job, bucket: Bucket, e: Event, a: Answers)
    requires JobOk(w, j, bucket) && Follows(w, j, a) && e.TakeStep?
    ensures Follows(w, Step(w, j, bucket, e.up, e.rewrite).0, Told(w, j, bucket, e, e.i, a))
  {
    if j.pc.Probe? || j.pc.Refresh? || j.pc.Download? {
      FetchingFollows(w, j, bucket, e, a);
    } else {
      WorkingFollows(w, j, bucket, e, a);
    }
  }

  lemma FetchingFollows(w: World, j: Job, bucket: Bucket, e: Event, a: Answers)
    requires JobOk(w, j, bucket) && Follows(w, j, a) && e.TakeStep?
    requires j.pc.Probe? || j.pc.Refresh? || j.pc.Download?
    ensures Follows(w, Step(w, j, bucket, e.up, e.rewrite).0, Told(w, j, bucket, e, e.i, a))
  {
    hide Complete, Known, Target;
  }

  lemma WorkingFollows(w: World, j: Job, bucket: Bucket, e: Event, a: Answers)
    requires JobOk(w, j, bucket) && Follows(w, j, a) && e.TakeStep?
    requires !j.pc.Probe? && !j.pc.Refresh? && !j.pc.Download?
    ensures Follows(w, Step(w, j, bucket, e.up, e.rewrite).0, Told(w, j, bucket, e, e.i, a))
  {
    hide Complete, Known, Target;
  }

  lemma RestartFollows(w: World, j: Job, bucket: Bucket, e: Event, a: Answers)
    requires Resting(j) && !e.TakeStep?
    ensures Follows(w, Restart(w, j, e), Told(w, j, bucket, e, e.i, a))
  {
    hide Complete, Recreate;
  }

  lemma ApplyFollows(w: World, s: System, e: Event, i: nat, a: Answers)
    requires SystemOk(w, s) && i < |s.jobs| && Follows(w, s.jobs[i], a) && |Apply(w, s, e).jobs| == |s.jobs|
    ensures Follows(w, Apply(w, s, e).jobs[i], Told(w, s.jobs[i], s.bucket, e, i, a))
  {
    hide BucketOk, JobOk, Follows, Step, Restart;
    if e.i == i {
      assert JobOk(w, s.jobs[i], s.bucket);
      if e.TakeStep? {
        StepFollows(w, s.jobs[i], s.bucket, e, a);
      } else if Resting(s.jobs[i]) {
        RestartFollows(w, s.jobs[i], s.bucket, e, a);
      }
    }
  }

  lemma {:induction false} RunFollows(w: World, s: System, events: seq<Event>, i: nat)
    requires Sound(w) && SystemOk(w, s) && AllGenuine(w, events)
    requires i < |s.jobs| && s.jobs[i].pc == Idle
    ensures |RunAll(w, s, events).jobs| == |s.jobs|
    ensures Follows(w, RunAll(w, s, events).jobs[i], LatestAnswers(w, s, events, i))
    decreases |events|
  {
    hide Sound, SystemOk, Follows, Apply, Told, Genuine;
    if events == [] {
      IdleFollows(w, s.jobs[i]);
    } else {
      var n := |events| - 1;
      RunFollows(w, s, events[..n], i);
      BucketIsAlwaysRight(w, s, events[..n]);
      ApplyKeepsSystem(w, RunAll(w, s, events[..n]), events[n]);
      RunSnoc(w, s, events);
      ApplyFollows(w, RunAll(w, s, events[..n]), events[n], i, LatestAnswers(w, s, events[..n], i));
    }
  }

  lemma IdleFollows(w: World, j: Job)
    requires j.pc == Idle
    ensures Follows(w, j, Answers(None, false, false, false, false, false))
  {
  }

  /** Over any run, S3 failing anywhere: a finished job has the files it started from if the fingerprint on
      disk matched or S3 was lost between the two probes of its latest task, and their migrated form
      otherwise. So its files are fully migrated exactly when neither happened or nothing was to migrate. */
  lemma FinishedIsMigratedIff(w: World, s: System, events: seq<Event>, i: nat)
    requires Sound(w) && SystemOk(w, s) && AllGenuine(w, events)
    requires i < |s.jobs| && s.jobs[i].pc == Idle
    ensures var after := RunAll(w, s, events);
            && |after.jobs| == |s.jobs|
            && var j, a := after.jobs[i], LatestAnswers(w, s, events, i);
               j.pc == Done ==>
                 && j.db == (if a.matched || a.lost then j.start else w.migrate(j.start, j.yaml))
                 && (Migrated(w, j.db, j.yaml) <==> (!a.matched && !a.lost) || Migrated(w, j.start, j.yaml))
  {
    hide BucketOk, Complete, AllGenuine, LatestAnswers, RunAll;
    RunFollows(w, s, events, i);
    BucketIsAlwaysRight(w, s, events);
    var j := RunAll(w, s, events).jobs[i];
    assert JobOk(w, j, RunAll(w, s, events).bucket);
    assert MigratesOnce(w);
  }

  /** Over any run: a finished job's MySQL database holds its files exactly when its latest task did not go on
      to record the fingerprint, and is empty otherwise. Recording happens only after a mismatch. */
  lemma FinishedIsLoadedIff(w: World, s: System, events: seq<Event>, i: nat)
    requires Sound(w) && SystemOk(w, s) && AllGenuine(w, events)
    requires i < |s.jobs| && s.jobs[i].pc == Idle
    ensures var after := RunAll(w, s, events);
            && |after.jobs| == |s.jobs|
            && var j, a := after.jobs[i], LatestAnswers(w, s, events, i);
               j.pc == Done ==>
                 && (j.mysql == j.db <==> !a.recorded)
                 && (a.recorded ==> j.mysql == map[])
  {
    hide BucketOk, AllGenuine, LatestAnswers, RunAll;
    RunFollows(w, s, events, i);
    BucketIsAlwaysRight(w, s, events);
    assert JobOk(w, RunAll(w, s, events).jobs[i], RunAll(w, s, events).bucket);
    AllFiles();
    assert Data(Default) in BOKCHOY_DB_FILES;
  }

  /** And its fingerprint file: recorded if the task was asked to and did not match; else as the task found it,
      if it matched or its first probe found the bucket; and gone if it migrated. */
  lemma FinishedFingerprint(w: World, s: System, events: seq<Event>, i: nat)
    requires Sound(w) && SystemOk(w, s) && AllGenuine(w, events)
    requires i < |s.jobs| && s.jobs[i].pc == Idle
    ensures var after := RunAll(w, s, events);
            && |after.jobs| == |s.jobs|
            && var j, a := after.jobs[i], LatestAnswers(w, s, events, i);
               j.pc == Done ==>
                 j.sha1 == if a.recorded then Some(w.digest(j.db, j.yaml))
                           else if a.matched || a.found then a.sha1
                           else None
  {
    hide BucketOk, JobOk, AllGenuine, RunAll;
    RunFollows(w, s, events, i);
  }

  // ---------- Sharing what was migrated ----------

  /** A job past its upload has the files it started from in the bucket, if S3 was reached for it. */
  predicate IsShared(w: World, j: Job, bucket: Bucket, a: Answers) {
    (j.pc.Finish? || j.pc.Done?) && a.shared ==> w.digest(j.start, j.yaml) in bucket
  }

  /** While a job's latest task has not come to its second look, nothing was shared. */
  predicate SharesLate(j: Job, a: Answers) {
    a.shared ==> j.pc.Finish? || j.pc.Done? || j.pc.Idle? || j.pc.Failed?
  }

  lemma StepShares(w: World, j: Job, bucket: Bucket, e: Event, a: Answers)
    requires JobOk(w, j, bucket) && e.TakeStep? && IsShared(w, j, bucket, a) && SharesLate(j, a)
    ensures var (j', bucket') := Step(w, j, bucket, e.up, e.rewrite);
            var a' := Told(w, j, bucket, e, e.i, a);
            IsShared(w, j', bucket', a') && SharesLate(j', a')
  {
    hide Complete, Known, Target;
  }

  lemma RestartShares(w: World, j: Job, bucket: Bucket, e: Event, a: Answers)
    requires Resting(j) && !e.TakeStep?
    ensures var j', a' := Restart(w, j, e), Told(w, j, bucket, e, e.i, a);
            IsShared(w, j', bucket, a') && SharesLate(j', a')
  {
    hide Complete, Recreate;
  }

  lemma ApplyShares(w: World, s: System, e: Event, i: nat, a: Answers)
    requires Sound(w) && SystemOk(w, s) && Genuine(w, e) && i < |s.jobs|
    requires IsShared(w, s.jobs[i], s.bucket, a) && SharesLate(s.jobs[i], a)
    ensures var s', a' := Apply(w, s, e), Told(w, s.jobs[i], s.bucket, e, i, a);
            |s'.jobs| == |s.jobs| && IsShared(w, s'.jobs[i], s'.bucket, a') && SharesLate(s'.jobs[i], a')
  {
    hide Sound, BucketOk, JobOk, SharesLate, Step, Restart, Genuine;
    ApplyKeepsSystem(w, s, e);
    if e.i == i {
      assert JobOk(w, s.jobs[i], s.bucket);
      hide IsShared;
      if e.TakeStep? {
        StepShares(w, s.jobs[i], s.bucket, e, a);
      } else if Resting(s.jobs[i]) {
        RestartShares(w, s.jobs[i], s.bucket, e, a);
      }
    }
  }

  lemma {:induction false} RunShares(w: World, s: System, events: seq<Event>, i: nat)
    requires Sound(w) && SystemOk(w, s) && AllGenuine(w, events)
    requires i < |s.jobs| && s.jobs[i].pc == Idle
    ensures |RunAll(w, s, events).jobs| == |s.jobs|
    ensures var after, a := RunAll(w, s, events), LatestAnswers(w, s, events, i);
            IsShared(w, after.jobs[i], after.bucket, a) && SharesLate(after.jobs[i], a)
    decreases |events|
  {
    hide Sound, SystemOk, Apply, Told, Genuine;
    if events != [] {
      hide IsShared, SharesLate;
      var n := |events| - 1;
      RunShares(w, s, events[..n], i);
      BucketIsAlwaysRight(w, s, events[..n]);
      RunSnoc(w, s, events);
      ApplyShares(w, RunAll(w, s, events[..n]), events[n], i, LatestAnswers(w, s, events[..n], i));
    }
  }

  /** Over any run: when a finished job had to migrate and S3 was reached to find or to upload the files, the
      bucket has the entry of the files it started from, with their migrated form. */
  lemma FinishedIsShared(w: World, s: System, events: seq<Event>, i: nat)
    requires Sound(w) && SystemOk(w, s) && AllGenuine(w, events)
    requires i < |s.jobs| && s.jobs[i].pc == Idle
    ensures var after := RunAll(w, s, events);
            && |after.jobs| == |s.jobs|
            && var j := after.jobs[i];
               j.pc == Done && LatestAnswers(w, s, events, i).shared ==>
                 && w.digest(j.start, j.yaml) in after.bucket
                 && after.bucket[w.digest(j.start, j.yaml)] == w.migrate(j.start, j.yaml)
  {
    hide Sound, AllGenuine, RunAll, LatestAnswers, JobAt, Known;
    RunShares(w, s, events, i);
    BucketIsAlwaysRight(w, s, events);
    assert JobOk(w, RunAll(w, s, events).jobs[i], RunAll(w, s, events).bucket);
  }

  /** Every upload that reaches S3 leaves its fingerprint in the bucket. */
  lemma UploadAdds(w: World, j: Job, bucket: Bucket, rewrite: bool)
    requires j.pc.Upload?
    ensures j.pc.fp in Step(w, j, bucket, true, rewrite).1
    ensures j.pc.fp !in bucket ==> Step(w, j, bucket, true, rewrite).1 == bucket[j.pc.fp := j.db]
  {
  }

  /** A probe's yes lasts: whatever all jobs do afterwards, the entry is there and holds the migrated form of
      the files that were asked for. */
  lemma ProbeAnswerLasts(w: World, s: System, events: seq<Event>, d: Db, y: Yaml)
    requires Sound(w) && SystemOk(w, s) && AllGenuine(w, events)
    requires Known(w, d, y) && w.digest(d, y) in s.bucket
    ensures var after := RunAll(w, s, events).bucket;
            w.digest(d, y) in after && after[w.digest(d, y)] == w.migrate(d, y)
  {
    hide Sound, AllGenuine, RunAll, JobOk;
    BucketIsAlwaysRight(w, s, events);
  }

  // ---------- Running the task again ----------

  /** The fingerprint on disk is that of the files, and the job has finished or is about to find that out. */
  predicate Settled(w: World, j: Job) {
    Complete(j.db) && j.sha1 == Some(w.digest(j.db, j.yaml)) && j.pc in {Done, Matched}
  }

  /** None of the events edits job i's workspace; the job may run its task, and others do as they like. */
  predicate Unedited(events: seq<Event>, i: nat) {
    forall e <- events :: e.i == i ==> e.BeginTask? || e.TakeStep?
  }

  lemma SettledStays(w: World, s: System, e: Event, i: nat)
    requires i < |s.jobs| && Settled(w, s.jobs[i]) && (e.i == i ==> e.BeginTask? || e.TakeStep?)
    ensures var after := Apply(w, s, e);
            && |after.jobs| == |s.jobs| && Settled(w, after.jobs[i])
            && after.jobs[i].db == s.jobs[i].db && after.jobs[i].yaml == s.jobs[i].yaml
            && (e.i == i ==> after.bucket == s.bucket)
  {
    hide Complete;
  }

  lemma {:induction false} StaysSettled(w: World, s: System, events: seq<Event>, i: nat)
    requires i < |s.jobs| && Settled(w, s.jobs[i]) && Unedited(events, i)
    ensures var after := RunAll(w, s, events);
            && |after.jobs| == |s.jobs| && Settled(w, after.jobs[i])
            && after.jobs[i].db == s.jobs[i].db && after.jobs[i].yaml == s.jobs[i].yaml
    decreases |events|
  {
    hide Apply, Settled;
    if events != [] {
      SettledStays(w, s, events[0], i);
      StaysSettled(w, Apply(w, s, events[0]), events[1..], i);
    }
  }

  /** After a job, in any run, has recorded the fingerprint on whatever branch, every further task of that
      job takes the match branch and changes neither files nor fingerprint, however many tasks there are
      and whatever other jobs do in between, until the workspace is edited. */
  lemma RerunMatches(w: World, s: System, events: seq<Event>, i: nat, up: bool, more: seq<Event>)
    requires Sound(w) && SystemOk(w, s) && AllGenuine(w, events)
    requires i < |s.jobs| && i < |RunAll(w, s, events).jobs| && RunAll(w, s, events).jobs[i].pc == Finish
    requires Unedited(more, i)
    ensures var recorded := Apply(w, RunAll(w, s, events), TakeStep(i, up, true));
            var after := RunAll(w, recorded, more);
            && |recorded.jobs| == |after.jobs| == |s.jobs|
            && recorded.jobs[i].pc == Done
            && after.jobs[i].pc in {Done, Matched}
            && after.jobs[i].db == recorded.jobs[i].db && after.jobs[i].sha1 == recorded.jobs[i].sha1
  {
    hide Sound, BucketOk, AllGenuine, Unedited, Complete, RunAll;
    BucketIsAlwaysRight(w, s, events);
    var before := RunAll(w, s, events);
    assert JobOk(w, before.jobs[i], before.bucket);
    StaysSettled(w, Apply(w, before, TakeStep(i, up, true)), more, i);
  }

  // ---------- One task from beginning to end ----------

  /** Whether S3 can be reached, at each of a task's positions. */
  type Reach = Pc -> bool

  function StepsLeft(pc: Pc): nat {
    match pc
    case Probe(_) => 6
    case Refresh(_) => 5
    case Migrate(_) => 5
    case Download(_) => 4
    case Reprobe(_) => 4
    case Load => 3
    case Upload(_) => 3
    case Finish => 2
    case Matched => 1
    case _ => 0
  }

  /** The rest of a task, no other job stepping in between. */
  function Rest(w: World, j: Job, bucket: Bucket, up: Reach, rewrite: bool): (Job, Bucket)
    decreases StepsLeft(j.pc)
  {
    if Resting(j) then (j, bucket)
    else
      StepsGoDown(j.pc, bucket, up(j.pc));
      var (j', bucket') := Step(w, j, bucket, up(j.pc), rewrite);
      Rest(w, j', bucket', up, rewrite)
  }

  function Task(w: World, j: Job, bucket: Bucket, up: Reach, rewrite: bool): (Job, Bucket) {
    Rest(w, Begin(w, j), bucket, up, rewrite)
  }

  lemma {:induction false} RestIsARun(w: World, j: Job, bucket: Bucket, up: Reach, rewrite: bool)
      returns (events: seq<Event>)
    ensures var (j', bucket') := Rest(w, j, bucket, up, rewrite);
            RunAll(w, System(bucket, [j]), events) == System(bucket', [j'])
    ensures AllGenuine(w, events)
    decreases StepsLeft(j.pc)
  {
    hide Change, Store;
    if Resting(j) {
      events := [];
    } else {
      var (j', bucket') := Step(w, j, bucket, up(j.pc), rewrite);
      StepsGoDown(j.pc, bucket, up(j.pc));
      var more := RestIsARun(w, j', bucket', up, rewrite);
      events := [TakeStep(0, up(j.pc), rewrite)] + more;
      assert events[1..] == more && [j][0 := j'] == [j'];
    }
  }

  lemma StepsGoDown(pc: Pc, bucket: Bucket, up: bool)
    requires pc !in {Idle, Done, Failed}
    ensures StepsLeft(NextPc(pc, bucket, up)) < StepsLeft(pc)
  {
    hide Complete;
  }

  /** A whole task run alone is one of the runs above. */
  lemma TaskIsARun(w: World, j: Job, bucket: Bucket, up: Reach, rewrite: bool) returns (events: seq<Event>)
    requires Resting(j)
    ensures var (j', bucket') := Task(w, j, bucket, up, rewrite);
            RunAll(w, System(bucket, [j]), events) == System(bucket', [j'])
    ensures AllGenuine(w, events)
  {
    hide Begin, Rest;
    var more := RestIsARun(w, Begin(w, j), bucket, up, rewrite);
    events := [BeginTask(0)] + more;
    assert events[1..] == more && [j][0 := Begin(w, j)] == [Begin(w, j)];
  }

  lemma {:induction false} RewriteRecords(w: World, j: Job, bucket: Bucket, up: Reach)
    requires Sound(w) && BucketOk(w, bucket) && JobOk(w, j, bucket) && !Resting(j)
    ensures var j' := Rest(w, j, bucket, up, true).0;
            j'.pc == Done ==> j'.sha1 == Some(w.digest(j'.db, j'.yaml)) && Complete(j'.db)
    decreases StepsLeft(j.pc)
  {
    hide Sound, BucketOk, Complete, JobOk, Change, Store;
    StepKeepsJob(w, j, bucket, up(j.pc), true);
    StepKeepsBucket(w, j, bucket, up(j.pc), true);
    StepsGoDown(j.pc, bucket, up(j.pc));
    var (j', bucket') := Step(w, j, bucket, up(j.pc), true);
    if Resting(j') {
      LastStepRecords(w, j, bucket, up(j.pc));
    } else {
      RewriteRecords(w, j', bucket', up);
    }
  }

  lemma LastStepRecords(w: World, j: Job, bucket: Bucket, up: bool)
    requires JobOk(w, j, bucket) && !Resting(j)
    ensures var j' := Step(w, j, bucket, up, true).0;
            j'.pc == Done ==> j'.sha1 == Some(w.digest(j'.db, j'.yaml)) && Complete(j'.db)
  {
    hide Complete;
  }

  lemma MatchingTask(w: World, j: Job, bucket: Bucket, up: Reach, rewrite: bool)
    requires Complete(j.db) && j.sha1 == Some(w.digest(j.db, j.yaml))
    ensures var (j', bucket') := Task(w, j, bucket, up, rewrite);
            && j'.pc == Done && j'.via == Local && bucket' == bucket
            && j'.db == j.db && j'.sha1 == j.sha1 && j'.mysql == j.db
  {
    hide Complete;
    var begun := Begin(w, j);
    assert begun.pc == Matched;
    var (j', bucket') := Step(w, begun, bucket, up(Matched), rewrite);
    assert j'.pc == Done && bucket' == bucket;
    assert Rest(w, j', bucket', up, rewrite) == (j', bucket');
  }

  /** In particular a task run twice with nothing in between; the second leaves the bucket alone, too, and
      loads the MySQL database that the first one left empty. */
  lemma SecondTaskMatches(w: World, j: Job, bucket: Bucket, up: Reach, again: Reach, rewrite: bool)
    requires Sound(w) && BucketOk(w, bucket) && w.occurs(j.db, j.yaml)
    ensures var (first, bucket1) := Task(w, j, bucket, up, true);
            first.pc == Done ==>
              var (second, bucket2) := Task(w, first, bucket1, again, rewrite);
              && second.pc == Done && second.via == Local && bucket2 == bucket1
              && second.db == first.db && second.sha1 == first.sha1 && second.mysql == second.db
  {
    hide Sound, BucketOk, Complete, JobOk, Step;
    RestartKeepsJob(w, j, bucket, BeginTask(0));
    var (first, bucket1) := Task(w, j, bucket, up, true);
    if first.pc == Done {
      RewriteRecords(w, Begin(w, j), bucket, up);
      MatchingTask(w, first, bucket1, again, rewrite);
    }
  }

  /** A bucket that answers the first probe and is lost at the second leaves the job, without an error,
      with the unmigrated files it started from. */
  lemma LostBetweenProbes(w: World, j: Job, bucket: Bucket, rewrite: bool)
    requires Begin(w, j).pc.Probe? && w.digest(j.db, j.yaml) in bucket
    ensures var r := Task(w, j, bucket, (pc: Pc) => !pc.Refresh?, rewrite).0;
            r.pc == Done && r.db == j.db && (rewrite ==> r.sha1 == Some(w.digest(j.db, j.yaml)))
  {
    hide Complete, Step, Rest, Reset;
    var up: Reach := (pc: Pc) => !pc.Refresh?;
    var begun := Begin(w, j);
    BeginSteps(w, begun, bucket, up, rewrite);
    var probed := begun.(pc := Refresh(begun.pc.fp));
    FetchSteps(w, probed, bucket, up, rewrite);
    var loaded := Fetch(probed, bucket, up);
    ResetLoads(w, loaded);
    FinishSteps(w, Reset(w, loaded, false).(pc := Finish), bucket, up, rewrite);
  }

  lemma ResetLoads(w: World, j: Job)
    requires Complete(j.db)
    ensures Reset(w, j, false) == j.(mysql := j.db)
  {
    hide Complete;
  }

  /** S3 has the fingerprint for the first probe and cannot be reached for the second. */
  predicate LosesBucket(w: World, j: Job, bucket: Bucket, up: Reach) {
    var fp := w.digest(j.db, j.yaml);
    j.sha1 != Some(fp) && up(Probe(fp)) && fp in bucket && !up(Refresh(fp))
  }

  /** A task that ends without an error has fallen back on its unmigrated files if and only if S3 was lost
      between its two probes. */
  lemma TaskIsLostIff(w: World, j: Job, bucket: Bucket, up: Reach, rewrite: bool)
    ensures var after := Task(w, j, bucket, up, rewrite).0;
            after.pc == Done ==> (after.via == Lost <==> LosesBucket(w, j, bucket, up))
  {
    hide Complete, Step, Rest, Reset;
    var begun := Begin(w, j);
    BeginSteps(w, begun, bucket, up, rewrite);
    ResetKeepsBranch(w, begun, false);
    if begun.pc.Probe? {
      var fp := begun.pc.fp;
      if up(begun.pc) && fp in bucket {
        var probed := begun.(pc := Refresh(fp));
        FetchSteps(w, probed, bucket, up, rewrite);
        var loaded := Fetch(probed, bucket, up);
        ResetKeepsBranch(w, loaded, false);
        FinishSteps(w, Reset(w, loaded, false).(pc := Finish), bucket, up, rewrite);
      } else {
        var probed := begun.(pc := Migrate(fp));
        MigrateSteps(w, probed, bucket, up, rewrite);
        var migrated := Reset(w, probed, true).(via := MigratedHere);
        FinishSteps(w, migrated.(pc := Finish), Shared(migrated, fp, bucket, up), up, rewrite);
      }
    }
  }

  lemma ResetKeepsBranch(w: World, j: Job, rebuild: bool)
    ensures Reset(w, j, rebuild).via == j.via
  {
    hide Complete;
  }

  /** What a task does, on its inputs: when it fails, which files it ends with, and what it uploads. */
  lemma TaskComputes(w: World, j: Job, bucket: Bucket, up: Reach, rewrite: bool)
    requires MigratesFully(w)
    ensures var (after, bucket') := Task(w, j, bucket, up, rewrite);
            var fp := w.digest(j.db, j.yaml);
            var matched, found := j.sha1 == Some(fp), up(Probe(fp)) && fp in bucket;
            && after.pc in {Done, Failed}
            && (after.pc == Failed <==>
                  !Complete(j.db) ||
                  (!matched && found && up(Refresh(fp)) && !(up(Download(fp)) && Complete(bucket[fp]))))
            && (after.pc == Done ==>
                  && after.db == (if matched then j.db
                                  else if !found then w.migrate(j.db, j.yaml)
                                  else if up(Refresh(fp)) then bucket[fp] else j.db)
                  && bucket' == if !matched && !found && up(Upload(fp)) && fp !in bucket
                                then bucket[fp := w.migrate(j.db, j.yaml)] else bucket)
  {
    hide Complete, Step, Rest, MigratesFully;
    var begun := Begin(w, j);
    BeginSteps(w, begun, bucket, up, rewrite);
    if begun.pc == Matched {
      ResetLeaves(w, begun, false);
    } else if begun.pc.Probe? {
      var fp := begun.pc.fp;
      if up(begun.pc) && fp in bucket {
        var probed := begun.(pc := Refresh(fp));
        FetchSteps(w, probed, bucket, up, rewrite);
        if !(up(Refresh(fp)) && !(up(Download(fp)) && Complete(bucket[fp]))) {
          var loaded := Fetch(probed, bucket, up);
          FinishSteps(w, Reset(w, loaded, false).(pc := Finish), bucket, up, rewrite);
        }
      } else {
        var probed := begun.(pc := Migrate(fp));
        MigrateSteps(w, probed, bucket, up, rewrite);
        var migrated := Reset(w, probed, true).(via := MigratedHere);
        FinishSteps(w, migrated.(pc := Finish), Shared(migrated, fp, bucket, up), up, rewrite);
      }
    }
  }

  /** Once the entry is in the bucket, every later task on the same files fetches it instead of migrating,
      if S3 can be reached and its fingerprint file does not match, whatever happened in between. */
  lemma LaterShardFetches(w: World, s: System, events: seq<Event>, j: Job, up: Reach, rewrite: bool)
    requires Sound(w) && SystemOk(w, s) && AllGenuine(w, events)
    requires Known(w, j.db, j.yaml) && w.digest(j.db, j.yaml) in s.bucket && j.sha1 != Some(w.digest(j.db, j.yaml))
    requires var fp := w.digest(j.db, j.yaml); up(Probe(fp)) && up(Refresh(fp)) && up(Download(fp))
    ensures var bucket := RunAll(w, s, events).bucket;
            var (after, bucket') := Task(w, j, bucket, up, rewrite);
            after.pc == Done && after.db == w.migrate(j.db, j.yaml) && bucket' == bucket
  {
    hide SystemOk, AllGenuine, RunAll, Task, Complete;
    ProbeAnswerLasts(w, s, events, j.db, j.yaml);
    TaskComputes(w, j, RunAll(w, s, events).bucket, up, rewrite);
  }

  /** Recreating the cache forgets the old files: it migrates an empty cache, and the next task matches and loads
      the result into MySQL, whatever the bucket and S3 are. */
  lemma RecreatedMatches(w: World, j: Job, bucket: Bucket, up: Reach, rewrite: bool)
    requires MigratesFully(w) && MigratesOnce(w)
    ensures Migrated(w, Recreate(w, j).db, j.yaml)
    ensures var (after, bucket') := Task(w, Recreate(w, j), bucket, up, rewrite);
            && after.pc == Done && after.via == Local && bucket' == bucket
            && after.db == after.mysql == w.migrate(map[], j.yaml)
            && after.sha1 == Recreate(w, j).sha1
  {
    hide Complete;
    MatchingTask(w, Recreate(w, j), bucket, up, rewrite);
  }

  /** What a task that ends without an error leaves beside the files, on its inputs. MySQL holds the files
      if and only if the fingerprint on disk matched or the task was not asked to record it; otherwise it is
      empty, because computing the fingerprint resets it. The fingerprint file stays as it was if the
      fingerprint matched, or if S3 had the bucket and nothing was to be recorded; it names the new files if
      that was asked for; and it is gone when migrating rebuilt the cache. */
  lemma TaskLeaves(w: World, j: Job, bucket: Bucket, up: Reach, rewrite: bool)
    requires MigratesFully(w)
    ensures var after := Task(w, j, bucket, up, rewrite).0;
            var fp := w.digest(j.db, j.yaml);
            after.pc == Done ==>
              && (after.mysql == after.db <==> j.sha1 == Some(fp) || !rewrite)
              && (after.mysql != after.db ==> after.mysql == map[])
              && after.sha1 == if j.sha1 == Some(fp) then j.sha1
                               else if rewrite then Some(w.digest(after.db, after.yaml))
                               else if up(Probe(fp)) && fp in bucket then j.sha1
                               else None
  {
    hide Complete, Step, Rest, Reset, MigratesFully;
    var begun := Begin(w, j);
    BeginSteps(w, begun, bucket, up, rewrite);
    if begun.pc == Matched {
      ResetLeaves(w, begun, false);
    } else if begun.pc.Probe? {
      var fp := begun.pc.fp;
      if up(begun.pc) && fp in bucket {
        var probed := begun.(pc := Refresh(fp));
        FetchSteps(w, probed, bucket, up, rewrite);
        if !(up(Refresh(fp)) && !(up(Download(fp)) && Complete(bucket[fp]))) {
          var loaded := Fetch(probed, bucket, up);
          ResetLeaves(w, loaded, false);
          FinishSteps(w, Reset(w, loaded, false).(pc := Finish), bucket, up, rewrite);
        }
      } else {
        var probed := begun.(pc := Migrate(fp));
        MigrateSteps(w, probed, bucket, up, rewrite);
        ResetLeaves(w, probed, true);
        var migrated := Reset(w, probed, true).(via := MigratedHere);
        FinishSteps(w, migrated.(pc := Finish), Shared(migrated, fp, bucket, up), up, rewrite);
      }
    }
  }

  lemma ResetLeaves(w: World, j: Job, rebuild: bool)
    requires MigratesFully(w) && (rebuild || Complete(j.db))
    ensures var r := Reset(w, j, rebuild);
            && r.mysql == r.db && r.db != map[] && r.yaml == j.yaml
            && r.sha1 == if rebuild then None else j.sha1
  {
    var r := Reset(w, j, rebuild);
    assert Complete(r.db);
    assert BOKCHOY_DB_FILES[0] in r.db;
  }

  /** With the fingerprint rewritten, the record is honest exactly when S3 was not lost between the two
      probes, or there was nothing to migrate. */
  lemma RewriteIsHonestIff(w: World, j: Job, bucket: Bucket, up: Reach)
    requires Sound(w) && BucketOk(w, bucket) && w.occurs(j.db, j.yaml) && Honest(w, j.sha1)
    ensures var first := Task(w, j, bucket, up, true).0;
            first.pc == Done ==>
              (Honest(w, first.sha1) <==> !LosesBucket(w, j, bucket, up) || Migrated(w, j.db, j.yaml))
  {
    hide Sound, BucketOk, Complete, JobOk, Step, Honest, Migrated, LosesBucket, Known;
    var (first, bucket1) := Task(w, j, bucket, up, true);
    if first.pc == Done {
      RestartKeepsJob(w, j, bucket, BeginTask(0));
      RewriteRecords(w, Begin(w, j), bucket, up);
      RestKeepsJob(w, Begin(w, j), bucket, up, true);
      RestKeepsLocal(w, Begin(w, j), bucket, up, true);
      TaskIsLostIff(w, j, bucket, up, true);
      DoneIs(w, first, bucket1);
      RecordingIsHonestIff(w, first.db, first.yaml);
      HonestMatch(w, j.sha1, first);
    }
  }

  /** A finished job's files are migrated exactly when it did not end on its own unmigrated ones. */
  lemma DoneIs(w: World, j: Job, bucket: Bucket)
    requires Sound(w) && JobOk(w, j, bucket) && j.pc == Done
    ensures Known(w, j.db, j.yaml) && Known(w, j.start, j.yaml)
    ensures Migrated(w, j.db, j.yaml) <==> (j.via in {Fetched, MigratedHere} || Migrated(w, j.start, j.yaml))
  {
    hide Complete;
  }

  lemma HonestMatch(w: World, sha1: Option<Fingerprint>, j: Job)
    requires Honest(w, sha1) && Known(w, j.start, j.yaml)
    requires j.via == Local ==> sha1 == Some(w.digest(j.start, j.yaml))
    ensures j.via == Local ==> Migrated(w, j.start, j.yaml)
  {
    hide Complete;
  }

  lemma {:induction false} RestKeepsJob(w: World, j: Job, bucket: Bucket, up: Reach, rewrite: bool)
    requires Sound(w) && BucketOk(w, bucket) && JobOk(w, j, bucket)
    ensures BucketOk(w, Rest(w, j, bucket, up, rewrite).1)
    ensures JobOk(w, Rest(w, j, bucket, up, rewrite).0, Rest(w, j, bucket, up, rewrite).1)
  {
    hide Sound, BucketOk, JobOk, Apply, Rest;
    var events := RestIsARun(w, j, bucket, up, rewrite);
    var s := System(bucket, [j]);
    assert SystemOk(w, s);
    BucketIsAlwaysRight(w, s, events);
    assert JobOk(w, RunAll(w, s, events).jobs[0], RunAll(w, s, events).bucket);
  }

  /** A task that ends on its own files found their fingerprint on disk when it began. */
  lemma {:induction false} RestKeepsLocal(w: World, j: Job, bucket: Bucket, up: Reach, rewrite: bool)
    requires !Resting(j)
    requires j.via == Local ==> j.pc == Matched || j.pc.Probe? || j.pc.Refresh? || j.pc.Download? || j.pc.Migrate?
    requires j.pc == Matched ==> j.sha1 == Some(w.digest(j.start, j.yaml))
    ensures var j' := Rest(w, j, bucket, up, rewrite).0;
            && j'.start == j.start && j'.yaml == j.yaml
            && (j'.pc == Done && j'.via == Local ==> j.pc == Matched)
    decreases StepsLeft(j.pc)
  {
    hide Complete;
    StepsGoDown(j.pc, bucket, up(j.pc));
    var (j', bucket') := Step(w, j, bucket, up(j.pc), rewrite);
    if !Resting(j') {
      RestKeepsLocal(w, j', bucket', up, rewrite);
    }
  }

  // ---------- What the fingerprint can tell apart ----------

  function CacheContents(d: Db): (c: seq<string>)
    requires Complete(d)
    ensures |c| == 6
  {
    seq(6, i requires 0 <= i < 6 => d[BOKCHOY_DB_FILES[i]])
  }

  /** The contents of all fingerprinted files, in order. */
  function Contents(d: Db, y: Yaml): (c: seq<string>)
    requires Complete(d)
    ensures |c| == 8
  {
    CacheContents(d) + y
  }

  /** The fingerprint is a hash of the files' contents run together. */
  ghost predicate HashedBy(w: World, sha: string -> string) {
    forall d, y :: Complete(d) ==> w.digest(d, y) == sha(Join(Contents(d, y), ""))
  }

  ghost predicate Injective(sha: string -> string) {
    forall s, t :: sha(s) == sha(t) ==> s == t
  }

  /** The two lists cut one text into as many pieces at different places. */
  ghost predicate ShiftedCuts(a: seq<string>, b: seq<string>)
    requires |a| == |b|
  {
    Join(a, "") == Join(b, "") && exists k :: 0 <= k < |a| && |a[k]| != |b[k]|
  }

  lemma {:induction false} SameTextDiffersInCuts(a: seq<string>, b: seq<string>)
    requires |a| == |b| && Join(a, "") == Join(b, "")
    ensures a != b <==> exists k :: 0 <= k < |a| && |a[k]| != |b[k]|
  {
    if a != [] && |a[0]| == |b[0]| {
      JoinHead(a);
      JoinHead(b);
      var text := Join(a, "");
      assert text[..|a[0]|] == a[0] == b[0];
      assert text[|a[0]|..] == Join(a[1..], "") == Join(b[1..], "");
      SameTextDiffersInCuts(a[1..], b[1..]);
      assert a == [a[0]] + a[1..] && b == [b[0]] + b[1..];
      if k :| 0 <= k < |a| && |a[k]| != |b[k]| {
        assert a[1..][k - 1] == a[k] && b[1..][k - 1] == b[k];
      }
    }
  }

  lemma ContentsDetermine(d: Db, y: Yaml, e: Db, z: Yaml)
    requires Complete(d) && Complete(e) && Contents(d, y) == Contents(e, z)
    ensures d == e && y == z
  {
    var c, b := Contents(d, y), Contents(e, z);
    assert c[6..] == y && b[6..] == z;
    forall f: DbFile ensures f in d && f in e && d[f] == e[f] {
      AllFiles();
      assert f in BOKCHOY_DB_FILES;
      var i :| 0 <= i < |BOKCHOY_DB_FILES| && BOKCHOY_DB_FILES[i] == f;
      assert c[i] == d[f] && b[i] == e[f];
    }
  }

  /** Two sets of files collide exactly when they cut the same text at different places. */
  lemma CollideIff(w: World, sha: string -> string, d: Db, y: Yaml, e: Db, z: Yaml)
    requires HashedBy(w, sha) && Injective(sha) && Complete(d) && Complete(e)
    ensures w.digest(d, y) == w.digest(e, z) && (d != e || y != z) <==> ShiftedCuts(Contents(d, y), Contents(e, z))
  {
    hide Complete, Contents, Join;
    if Join(Contents(d, y), "") == Join(Contents(e, z), "") {
      SameTextDiffersInCuts(Contents(d, y), Contents(e, z));
      if Contents(d, y) == Contents(e, z) {
        ContentsDetermine(d, y, e, z);
      }
    }
  }

  /** So what is assumed of the fingerprint holds, for a hash without collisions, if and only if no files
      that occur are a shifted cut of others that occur. */
  lemma TellsApartIff(w: World, sha: string -> string)
    requires HashedBy(w, sha) && Injective(sha)
    ensures TellsApart(w) <==>
              forall d, y, e, z :: Known(w, d, y) && Known(w, e, z) ==> !ShiftedCuts(Contents(d, y), Contents(e, z))
  {
    hide Complete, Contents, ShiftedCuts, HashedBy, Injective;
    forall d, y, e, z | Known(w, d, y) && Known(w, e, z)
      ensures w.digest(d, y) == w.digest(e, z) && (d != e || y != z) <==> ShiftedCuts(Contents(d, y), Contents(e, z))
    {
      CollideIff(w, sha, d, y, e, z);
    }
  }

  /** It cannot hold of all files at once, whatever the hash: moving a text from one migrations file to the
      other goes unnoticed. */
  lemma BoundariesAreNotHashed(w: World, sha: string -> string, d: Db, text: string)
    requires HashedBy(w, sha) && Complete(d) && text != ""
    requires w.occurs(d, [text, ""]) && w.occurs(d, ["", text])
    ensures w.digest(d, [text, ""]) == w.digest(d, ["", text]) && !TellsApart(w)
  {
    hide Complete, CacheContents;
    var files := CacheContents(d);
    JoinConcat(files, [text, ""]);
    JoinConcat(files, ["", text]);
    assert Join([text, ""], "") == text == Join(["", text], "") by {
      JoinHead([text, ""]);
      JoinHead(["", text]);
      assert [text, ""][1..] == [""] && ["", text][1..] == [text] && text + "" == text == "" + text;
    }
    assert [text, ""][0] != ["", text][0];
  }

  // ---------- The tasks ----------

  class S3 {
    var bucket: Bucket
    constructor (bucket: Bucket)
      ensures this.bucket == bucket
    {
      this.bucket := bucket;
    }
  }

  function Selected(db: Db, files: seq<DbFile>): Db {
    map f | f in db && f in files :: db[f]
  }

  lemma NoneSelected(db: Db, archive: Db)
    ensures db + Selected(archive, []) == db
  {
    assert Selected(archive, []) == map[];
  }

  lemma SelectedSnoc(db: Db, archive: Db, files: seq<DbFile>, i: nat)
    requires i < |files| && files[i] in archive
    ensures (db + Selected(archive, files[..i]))[files[i] := archive[files[i]]] ==
            db + Selected(archive, files[..i + 1])
  {
    assert files[..i + 1] == files[..i] + [files[i]];
  }

  class Workspace {
    const w: World
    var db: Db
    var yaml: Yaml
    var sha1: Option<Fingerprint>
    var mysql: Db

    constructor (w: World, db: Db, yaml: Yaml, sha1: Option<Fingerprint>)
      ensures this.w == w && this.db == db && this.yaml == yaml && this.sha1 == sha1 && mysql == map[]
    {
      this.w, this.db, this.yaml, this.sha1, this.mysql := w, db, yaml, sha1, map[];
    }

    ghost predicate Is(j: Job)
      reads this
    {
      j.db == db && j.yaml == yaml && j.sha1 == sha1 && j.mysql == mysql
    }

    method RemoveFilesFromFolder(files: seq<DbFile>)
      modifies `db
      ensures db == old(db) - set f | f in files
    {
      for i := 0 to |files|
        invariant db == old(db) - set f | f in files[..i]
      {
        db := db - {files[i]};
      }
      assert files[..|files|] == files;
    }

    method VerifyFilesExist(files: seq<DbFile>) returns (ok: bool)
      ensures ok <==> forall f :: f in files ==> f in db
    {
      for i := 0 to |files|
        invariant forall f :: f in files[..i] ==> f in db
      {
        if files[i] !in db {
          return false;
        }
      }
      return true;
    }

    method ResetTestDb(rebuild: bool, ghost j: Job)
      requires Is(j)
      modifies `db, `sha1, `mysql
      ensures Is(Reset(w, j, rebuild))
    {
      var complete := VerifyFilesExist(BOKCHOY_DB_FILES);
      if rebuild || !complete {
        mysql := w.migrate(db, yaml);
        sha1 := None;
        db := mysql;
      } else {
        mysql := db;
      }
    }

    /** Calculating the migrations empties the MySQL database; None is the build failure on a missing
        file. */
    method ComputeFingerprint() returns (fp: Option<Fingerprint>)
      modifies `mysql
      ensures mysql == map[]
      ensures fp == if Complete(db) then Some(w.digest(db, yaml)) else None
    {
      mysql := map[];
      var complete := VerifyFilesExist(BOKCHOY_DB_FILES);
      fp := if complete then Some(w.digest(db, yaml)) else None;
    }

    /** Extracting overwrites the listed files only; false where the archive lacks one. */
    method ExtractFiles(files: seq<DbFile>, archive: Db) returns (ok: bool)
      modifies `db
      ensures ok <==> forall f :: f in files ==> f in archive
      ensures ok ==> db == old(db) + Selected(archive, files)
    {
      hide Selected;
      NoneSelected(db, archive);
      assert files[..0] == [];
      for i := 0 to |files|
        invariant forall f :: f in files[..i] ==> f in archive
        invariant db == old(db) + Selected(archive, files[..i])
      {
        if files[i] !in archive {
          return false;
        }
        SelectedSnoc(old(db), archive, files, i);
        db := db[files[i] := archive[files[i]]];
      }
      assert files[..|files|] == files;
      return true;
    }

    method UpdateBokchoyDbCache(ghost j: Job) returns (ok: bool)
      requires MigratesFully(w) && Is(j)
      modifies this
      ensures ok && Is(Recreate(w, j))
    {
      AllFiles();
      RemoveFilesFromFolder(BOKCHOY_DB_FILES);
      assert db == map[];
      ResetTestDb(true, j.(db := map[]));
      var fp := ComputeFingerprint();
      sha1 := fp;
      ok := fp.Some?;
    }

    /** Replaces the cache files by the bucket's, unless a second look finds the bucket gone. False is an
        error while downloading. */
    method RefreshFromS3(s3: S3, fp: Fingerprint, up: Reach) returns (ok: bool)
      modifies `db
      ensures var b := s3.bucket;
              if up(Refresh(fp)) && fp in b
              then (ok <==> up(Download(fp)) && Complete(b[fp])) && (ok ==> db == b[fp])
              else ok && db == old(db)
    {
      var found := up(Refresh(fp)) && fp in s3.bucket;
      if found {
        if !up(Download(fp)) {
          return false;
        }
        AllFiles();
        ok := ExtractFiles(BOKCHOY_DB_FILES, s3.bucket[fp]);
      } else {
        ok := true;
      }
    }

    method UploadDbCache(s3: S3, fp: Fingerprint, up: bool)
      modifies s3
      ensures s3.bucket == if up && fp !in old(s3.bucket) then old(s3.bucket)[fp := db] else old(s3.bucket)
    {
      if up && fp !in s3.bucket {
        s3.bucket := s3.bucket[fp := db];
      }
    }

    /** The branch that found the fingerprint in the bucket. */
    method UseBucket(s3: S3, fp: Fingerprint, up: Reach, rewrite: bool, ghost g: Job)
        returns (ok: bool, ghost after: Job)
      requires MigratesFully(w) && Is(g) && g.pc == Refresh(fp)
      modifies this
      ensures ok ==> Is(after) && Complete(db) && after.pc == Finish
      ensures ok ==> Rest(w, g, s3.bucket, up, rewrite) == Rest(w, after, s3.bucket, up, rewrite)
      ensures !ok ==> Rest(w, g, s3.bucket, up, rewrite).0.pc == Failed
    {
      hide Rest, Step, Reset, MigratesFully, Complete;
      FetchSteps(w, g, s3.bucket, up, rewrite);
      ok := RefreshFromS3(s3, fp, up);
      after := Fetch(g, s3.bucket, up);
      if ok {
        ResetTestDb(false, after);
        ResetCompletes(w, after, false);
        after := Reset(w, after, false).(pc := Finish);
      }
    }

    /** The branch that did not: migrate, look once more, and upload. */
    method MigrateAndShare(s3: S3, fp: Fingerprint, up: Reach, rewrite: bool, ghost g: Job) returns (ghost after: Job)
      requires MigratesFully(w) && Is(g) && g.pc == Migrate(fp)
      modifies this, s3
      ensures Is(after) && Complete(db) && after.pc == Finish
      ensures Rest(w, g, old(s3.bucket), up, rewrite) == Rest(w, after, s3.bucket, up, rewrite)
    {
      hide Rest, Step, Reset, MigratesFully, Complete;
      MigrateSteps(w, g, s3.bucket, up, rewrite);
      ResetTestDb(true, g);
      ResetCompletes(w, g, true);
      after := Reset(w, g, true).(via := MigratedHere, pc := Finish);
      var found := up(Reprobe(fp)) && fp in s3.bucket;
      if !found {
        UploadDbCache(s3, fp, up(Upload(fp)));
      }
    }

    /** The task as a program: it ends without an error exactly when the steps above lead to Done, and
        then leaves workspace and bucket as they do. */
    method UpdateLocalBokchoyDbFromS3(s3: S3, up: Reach, rewrite: bool, ghost j: Job) returns (ok: bool)
      requires MigratesFully(w) && Is(j)
      modifies this, s3
      ensures ok <==> Task(w, j, old(s3.bucket), up, rewrite).0.pc == Done
      ensures ok ==> Is(Task(w, j, old(s3.bucket), up, rewrite).0)
      ensures ok ==> s3.bucket == Task(w, j, old(s3.bucket), up, rewrite).1
    {
      hide Complete, Rest, Step, Reset, MigratesFully;
      ghost var g := Begin(w, j);
      BeginIs(w, j);
      hide Begin;
      BeginSteps(w, g, s3.bucket, up, rewrite);
      var computed := ComputeFingerprint();
      if computed.None? {
        return false;
      }
      var fp := computed.value;
      var matches := sha1 == Some(fp);
      if matches {
        ResetTestDb(false, g);
        return true;
      }
      var found := up(Probe(fp)) && fp in s3.bucket;
      if found {
        ok, g := UseBucket(s3, fp, up, rewrite, g.(pc := Refresh(fp)));
        if !ok {
          return;
        }
      } else {
        g := MigrateAndShare(s3, fp, up, rewrite, g.(pc := Migrate(fp)));
      }
      FinishSteps(w, g, s3.bucket, up, rewrite);
      if rewrite {
        sha1 := ComputeFingerprint();
      }
      ok := true;
    }
  }

  // The steps of a task, grouped as the program groups them.

  lemma BeginSteps(w: World, g: Job, bucket: Bucket, up: Reach, rewrite: bool)
    ensures g.pc == Matched ==> Rest(w, g, bucket, up, rewrite) == (Reset(w, g, false).(pc := Done), bucket)
    ensures g.pc == Failed ==> Rest(w, g, bucket, up, rewrite) == (g, bucket)
    ensures g.pc.Probe? ==>
              Rest(w, g, bucket, up, rewrite) ==
              Rest(w, g.(pc := if up(g.pc) && g.pc.fp in bucket then Refresh(g.pc.fp) else Migrate(g.pc.fp)),
                   bucket, up, rewrite)
  {
    hide Reset;
    if g.pc == Matched {
      var done := Reset(w, g, false).(pc := Done);
      assert Rest(w, done, bucket, up, rewrite) == (done, bucket);
    }
  }

  lemma BeginIs(w: World, j: Job)
    ensures var g, fp := Begin(w, j), w.digest(j.db, j.yaml);
            && g.db == j.db && g.yaml == j.yaml && g.sha1 == j.sha1 && g.mysql == map[]
            && g.pc == (if !Complete(j.db) then Failed else if j.sha1 == Some(fp) then Matched else Probe(fp))
  {
    hide Complete;
  }

  lemma ResetCompletes(w: World, j: Job, rebuild: bool)
    requires MigratesFully(w)
    ensures Complete(Reset(w, j, rebuild).db)
  {
    hide Complete;
  }

  function Fetch(g: Job, bucket: Bucket, up: Reach): Job
    requires g.pc.Refresh?
  {
    var fp := g.pc.fp;
    if up(g.pc) && fp in bucket then g.(db := bucket[fp], via := Fetched, pc := Load) else g.(via := Lost, pc := Load)
  }

  lemma FetchSteps(w: World, g: Job, bucket: Bucket, up: Reach, rewrite: bool)
    requires g.pc.Refresh?
    ensures var fp := g.pc.fp;
            var loaded := Fetch(g, bucket, up);
            if up(Refresh(fp)) && fp in bucket && !(up(Download(fp)) && Complete(bucket[fp]))
            then Rest(w, g, bucket, up, rewrite).0.pc == Failed
            else Rest(w, g, bucket, up, rewrite) ==
                 Rest(w, Reset(w, loaded, false).(pc := Finish), bucket, up, rewrite)
  {
    hide Reset, Complete;
    var (j', _) := Step(w, g, bucket, up(g.pc), rewrite);
    if j'.pc.Download? {
      var (j'', _) := Step(w, j', bucket, up(j'.pc), rewrite);
      assert Rest(w, g, bucket, up, rewrite) == Rest(w, j', bucket, up, rewrite) == Rest(w, j'', bucket, up, rewrite);
      assert j''.pc.Load? || Resting(j'');
    }
  }

  function Shared(migrated: Job, fp: Fingerprint, bucket: Bucket, up: Reach): Bucket {
    if !(up(Reprobe(fp)) && fp in bucket) && up(Upload(fp)) && fp !in bucket then bucket[fp := migrated.db] else bucket
  }

  lemma MigrateSteps(w: World, g: Job, bucket: Bucket, up: Reach, rewrite: bool)
    requires g.pc.Migrate?
    ensures var fp := g.pc.fp;
            var migrated := Reset(w, g, true).(via := MigratedHere);
            Rest(w, g, bucket, up, rewrite) ==
            Rest(w, migrated.(pc := Finish), Shared(migrated, fp, bucket, up), up, rewrite)
  {
    hide Reset;
    var (j', _) := Step(w, g, bucket, up(g.pc), rewrite);
    var (j'', _) := Step(w, j', bucket, up(j'.pc), rewrite);
    assert Rest(w, g, bucket, up, rewrite) == Rest(w, j', bucket, up, rewrite) == Rest(w, j'', bucket, up, rewrite);
  }

  lemma FinishSteps(w: World, g: Job, bucket: Bucket, up: Reach, rewrite: bool)
    requires g.pc == Finish
    ensures Rest(w, g, bucket, up, rewrite) ==
            ((if rewrite then g.(sha1 := Some(w.digest(g.db, g.yaml)), mysql := map[]) else g).(pc := Done), bucket)
  {
    var (done, _) := Step(w, g, bucket, up(g.pc), rewrite);
    assert Rest(w, done, bucket, up, rewrite) == (done, bucket);
  }

  lemma AllFiles()
    ensures forall f: DbFile :: f in BOKCHOY_DB_FILES
  {
    forall f: DbFile
      ensures f in BOKCHOY_DB_FILES
    {
      match f
      case Data(of) => assert BOKCHOY_DB_FILES[if of.Default? then 0 else 1] == f;
      case MigrationsData(of) => assert BOKCHOY_DB_FILES[if of.Default? then 2 else 3] == f;
      case Schema(of) => assert BOKCHOY_DB_FILES[if of.Default? then 4 else 5] == f;
    }
  }
}
