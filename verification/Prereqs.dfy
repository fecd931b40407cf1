/** The caches of pavelib/prereqs.py: installing prerequisites only when their files changed, and
    uninstalling unwanted Python packages until none is left. */
module Prereqs {
  import opened Common

  // ---------- prereq_cache ----------

  /** `files` are the fingerprinted files, `env` is what an install changes beside them, `stored` is the
      content of the .sha1 file. */
  datatype State<F, E> = State(files: F, env: E, stored: Option<string>)

  /** An install that raised may have changed files and environment too. */
  datatype Install<F, E> = Install(ok: bool, files: F, env: E)

  datatype Result = Skipped | Recorded | Raised

  /** The fingerprint cannot be computed when a file cannot be read. */
  type Fingerprint<!F> = F -> Option<string>
  type Installer<!F, !E> = (F, E) -> Install<F, E>

  function Cached<F, E>(s: State<F, E>, fingerprint: Fingerprint<F>, install: Installer<F, E>, dirOk: bool)
      : (State<F, E>, Result) {
    var current := fingerprint(s.files);
    if current.None? then (s, Raised)
    else if current == s.stored then (s, Skipped)
    else
      var done := install(s.files, s.env);
      if !done.ok || !dirOk then (State(done.files, done.env, s.stored), Raised)
      else
        var post := fingerprint(done.files);
        if post.None? then (State(done.files, done.env, Some("")), Raised)
        else (State(done.files, done.env, post), Recorded)
  }

  class PrereqCache<F, E> {
    var files: F
    var env: E
    var stored: Option<string>

    constructor (files: F, env: E)
      ensures Now() == State(files, env, None)
    {
      this.files, this.env, this.stored := files, env, None;
    }

    ghost function Now(): State<F, E>
      reads this
    {
      State(files, env, stored)
    }

    method Run(fingerprint: Fingerprint<F>, install: Installer<F, E>, dirOk: bool) returns (result: Result)
      modifies this
      ensures (Now(), result) == Cached(old(Now()), fingerprint, install, dirOk)
    {
      var oldHash := stored;
      var newHash := fingerprint(files);
      if newHash.None? {
        return Raised;
      }
      if newHash != oldHash {
        var done := install(files, env);
        files, env := done.files, done.env;
        if !done.ok || !dirOk {
          return Raised;
        }
        stored := Some("");
        var postInstallHash := fingerprint(files);
        if postInstallHash.None? {
          return Raised;
        }
        stored := postInstallHash;
        result := Recorded;
      } else {
        result := Skipped;
      }
    }
  }

  /** What happens to a working copy: someone edits the files, or the task runs. */
  datatype Action<!F, !E> = Edit(files: F) | Task(install: Installer<F, E>, dirOk: bool)

  function Act<F, E>(s: State<F, E>, fingerprint: Fingerprint<F>, a: Action<F, E>): State<F, E> {
    match a
    case Edit(files) => s.(files := files)
    case Task(install, dirOk) => Cached(s, fingerprint, install, dirOk).0
  }

  function Run<F, E>(s: State<F, E>, fingerprint: Fingerprint<F>, actions: seq<Action<F, E>>): State<F, E> {
    if actions == [] then s
    else Act(Run(s, fingerprint, actions[..|actions| - 1]), fingerprint, actions[|actions| - 1])
  }

  /** Action k of the run was an install that raised nothing; it left the files as Run(..k + 1) has them. */
  predicate Succeeded<F, E>(s: State<F, E>, fingerprint: Fingerprint<F>, actions: seq<Action<F, E>>, k: nat)
    requires k < |actions|
  {
    var before := Run(s, fingerprint, actions[..k]);
    var a := actions[k];
    a.Task? && fingerprint(before.files).Some? && fingerprint(before.files) != before.stored &&
    a.install(before.files, before.env).ok
  }

  /** Action k of the run called the installer, with or without success. */
  predicate Attempted<F, E>(s: State<F, E>, fingerprint: Fingerprint<F>, actions: seq<Action<F, E>>, k: nat)
    requires k < |actions|
  {
    var before := Run(s, fingerprint, actions[..k]);
    actions[k].Task? && fingerprint(before.files).Some? && fingerprint(before.files) != before.stored
  }

  /** The stored hash is the fingerprint of the files that the successful install k left. */
  ghost predicate Vouches<F, E>(s: State<F, E>, fingerprint: Fingerprint<F>, actions: seq<Action<F, E>>, k: nat,
                                hash: Option<string>)
    requires k < |actions|
  {
    && Succeeded(s, fingerprint, actions, k)
    && hash.Some? && hash == fingerprint(Run(s, fingerprint, actions[..k + 1]).files)
  }

  /** In every run from a fresh state, over edits and installs that succeed or fail: the stored hash is
      absent, empty, or the fingerprint of the files that some successful install left. */
  lemma {:induction false} StoredHashIsVouched<F, E>(s: State<F, E>, fingerprint: Fingerprint<F>,
                                                     actions: seq<Action<F, E>>)
    requires s.stored.None?
    ensures var hash := Run(s, fingerprint, actions).stored;
            hash.None? || hash == Some("") ||
            exists k :: 0 <= k < |actions| && Vouches(s, fingerprint, actions, k, hash)
  {
    if actions != [] {
      var n := |actions| - 1;
      StoredHashIsVouched(s, fingerprint, actions[..n]);
      var before := Run(s, fingerprint, actions[..n]);
      var hash := Run(s, fingerprint, actions).stored;
      if hash == before.stored {
        if k :| 0 <= k < n && Vouches(s, fingerprint, actions[..n], k, hash) {
          PrefixVouches(s, fingerprint, actions, n, k, hash);
        }
      } else if hash != Some("") {
        assert actions[..n + 1] == actions;
        assert Vouches(s, fingerprint, actions, n, hash);
      }
    }
  }

  lemma PrefixVouches<F, E>(s: State<F, E>, fingerprint: Fingerprint<F>, actions: seq<Action<F, E>>, n: nat, k: nat,
                            hash: Option<string>)
    requires k < n <= |actions|
    ensures Succeeded(s, fingerprint, actions[..n], k) == Succeeded(s, fingerprint, actions, k)
    ensures Attempted(s, fingerprint, actions[..n], k) == Attempted(s, fingerprint, actions, k)
    ensures Vouches(s, fingerprint, actions[..n], k, hash) == Vouches(s, fingerprint, actions, k, hash)
  {
    hide Run;
    assert actions[..n][..k] == actions[..k] && actions[..n][..k + 1] == actions[..k + 1];
  }

  /** A task is skipped exactly when the current fingerprint is the stored one. It then changes nothing,
      and a task that raised or was skipped leaves the stored hash alone unless an installer returned and
      its files could not be read, which empties it. */
  lemma WhatATaskStores<F, E>(s: State<F, E>, fingerprint: Fingerprint<F>, install: Installer<F, E>, dirOk: bool)
    ensures var r := Cached(s, fingerprint, install, dirOk);
            && (r.1 == Skipped <==> s.stored.Some? && fingerprint(s.files) == s.stored)
            && (r.1 == Skipped ==> r.0 == s)
            && (r.1 == Recorded ==> r.0.stored == fingerprint(r.0.files) && r.0.stored.Some?)
            && (r.1 == Raised && r.0.stored != s.stored ==>
                  install(s.files, s.env).ok && fingerprint(r.0.files).None? && r.0.stored == Some(""))
  {
  }

  /** A task is recorded exactly when it is not skipped and everything succeeds: reading the files, the install,
      making the directory, and reading the files again. Files and environment are then, and whenever the
      installer was called, what it left. */
  lemma RecordedIff<F, E>(s: State<F, E>, fingerprint: Fingerprint<F>, install: Installer<F, E>, dirOk: bool)
    ensures var r := Cached(s, fingerprint, install, dirOk);
            var done := install(s.files, s.env);
            var called := fingerprint(s.files).Some? && fingerprint(s.files) != s.stored;
            && (r.1 == Recorded <==> called && done.ok && dirOk && fingerprint(done.files).Some?)
            && (r.1 == Raised <==>
                  fingerprint(s.files).None? || (called && !(done.ok && dirOk && fingerprint(done.files).Some?)))
            && r.0.files == (if called then done.files else s.files)
            && r.0.env == (if called then done.env else s.env)
  {
  }

  /** A recorded install is not repeated, also when it changed the fingerprinted files itself: in every run
      after it, up to the first edit, all tasks are skipped and nothing changes. */
  lemma {:induction false} RerunIsSkipped<F, E>(s: State<F, E>, fingerprint: Fingerprint<F>, install: Installer<F, E>,
                                                dirOk: bool, more: seq<Action<F, E>>, k: nat)
    requires Cached(s, fingerprint, install, dirOk).1 == Recorded
    requires k <= |more| && forall i :: 0 <= i < k ==> more[i].Task?
    ensures var after := Cached(s, fingerprint, install, dirOk).0;
            && Run(after, fingerprint, more[..k]) == after
            && (forall again, dirOk' ::
                  Cached(Run(after, fingerprint, more[..k]), fingerprint, again, dirOk') == (after, Skipped))
  {
    var after := Cached(s, fingerprint, install, dirOk).0;
    WhatATaskStores(s, fingerprint, install, dirOk);
    if k > 0 {
      RerunIsSkipped(s, fingerprint, install, dirOk, more, k - 1);
      assert more[..k][..k - 1] == more[..k - 1];
      assert Run(after, fingerprint, more[..k]) == Act(after, fingerprint, more[k - 1]);
    }
  }

  /** Without further attempts only the files can have changed. */
  lemma {:induction false} OnlyAttemptsInstall<F, E>(s: State<F, E>, fingerprint: Fingerprint<F>,
                                                     actions: seq<Action<F, E>>, k: nat)
    requires k < |actions|
    requires forall j :: k < j < |actions| ==> !Attempted(s, fingerprint, actions, j)
    ensures var after, now := Run(s, fingerprint, actions[..k + 1]), Run(s, fingerprint, actions);
            now.env == after.env && now.stored == after.stored
    decreases |actions|
  {
    var n := |actions| - 1;
    if k == n {
      assert actions[..k + 1] == actions;
    } else {
      forall j | k < j < n ensures !Attempted(s, fingerprint, actions[..n], j) {
        PrefixVouches(s, fingerprint, actions, n, j, None);
      }
      OnlyAttemptsInstall(s, fingerprint, actions[..n], k);
      assert actions[..n][..k + 1] == actions[..k + 1];
      assert !Attempted(s, fingerprint, actions, n);
    }
  }

  /** The install k was recorded: the hash stored right after it is the fingerprint of what it left. */
  ghost predicate RecordedAt<F, E>(s: State<F, E>, fingerprint: Fingerprint<F>, actions: seq<Action<F, E>>, k: nat)
    requires k < |actions|
  {
    Vouches(s, fingerprint, actions, k, Run(s, fingerprint, actions[..k + 1]).stored)
  }

  /** What action j's installer makes of the environment it finds. */
  function EnvOf<F, E>(s: State<F, E>, fingerprint: Fingerprint<F>, actions: seq<Action<F, E>>, j: nat): E
    requires j < |actions| && actions[j].Task?
  {
    var before := Run(s, fingerprint, actions[..j]);
    actions[j].install(before.files, before.env).env
  }

  /** What a skipped task may rely on. Let k be the recorded install whose hash is still stored and j the
      last attempt. The files are as install k left them; the environment is so too if and only if j is k or
      the installer of j left that same environment. */
  lemma SkipIsSoundIff<F(!new), E>(s: State<F, E>, fingerprint: Fingerprint<F>, actions: seq<Action<F, E>>, k: nat,
                                   j: nat)
    requires forall f, g :: fingerprint(f).Some? && fingerprint(f) == fingerprint(g) ==> f == g
    requires k <= j < |actions| && RecordedAt(s, fingerprint, actions, k)
    requires Attempted(s, fingerprint, actions, j)
    requires forall l :: j < l < |actions| ==> !Attempted(s, fingerprint, actions, l)
    requires Run(s, fingerprint, actions).stored == Run(s, fingerprint, actions[..k + 1]).stored
    requires fingerprint(Run(s, fingerprint, actions).files) == Run(s, fingerprint, actions).stored
    ensures Run(s, fingerprint, actions).files == Run(s, fingerprint, actions[..k + 1]).files
    ensures Run(s, fingerprint, actions) == Run(s, fingerprint, actions[..k + 1]) <==>
              j == k || EnvOf(s, fingerprint, actions, j) == EnvOf(s, fingerprint, actions, k)
  {
    hide Run;
    OnlyAttemptsInstall(s, fingerprint, actions, j);
    AttemptLeaves(s, fingerprint, actions, j);
    AttemptLeaves(s, fingerprint, actions, k);
  }

  /** An attempt leaves the environment its installer made, whether it succeeded or raised. */
  lemma AttemptLeaves<F, E>(s: State<F, E>, fingerprint: Fingerprint<F>, actions: seq<Action<F, E>>, j: nat)
    requires j < |actions| && Attempted(s, fingerprint, actions, j)
    ensures Run(s, fingerprint, actions[..j + 1]).env == EnvOf(s, fingerprint, actions, j)
  {
    var before := Run(s, fingerprint, actions[..j]);
    assert actions[..j + 1][..j] == actions[..j] && actions[..j + 1][j] == actions[j];
    assert Run(s, fingerprint, actions[..j + 1]) == Act(before, fingerprint, actions[j]);
  }

  /** It need not: a failed install is forgotten once its edit is taken back. The task is
      then skipped whatever environment the failure left. */
  lemma FailedInstallIsForgotten<F, E>(fingerprint: Fingerprint<F>, a: F, b: F, start: E, good: E, broken: E)
    requires fingerprint(a).Some? && fingerprint(b).Some? && fingerprint(a) != fingerprint(b)
    ensures var actions := [Task((f, e) => Install(true, f, good), true), Edit(b),
                            Task((f, e) => Install(false, f, broken), true), Edit(a)];
            var now := Run(State(a, start, None), fingerprint, actions);
            now == State(a, broken, fingerprint(a)) &&
            forall install, dirOk :: Cached(now, fingerprint, install, dirOk) == (now, Skipped)
  {
    var first: Action<F, E> := Task((f, e) => Install(true, f, good), true);
    var third: Action<F, E> := Task((f, e) => Install(false, f, broken), true);
    var actions := [first, Edit(b), third, Edit(a)];
    var s := State(a, start, None);
    assert actions[..3] == [first, Edit(b), third] && actions[..3][..2] == [first, Edit(b)];
    assert [first, Edit(b)][..1] == [first] && [first][..0] == [];
    assert Run(s, fingerprint, [first]) == Act(Run(s, fingerprint, []), fingerprint, first);
    assert Run(s, fingerprint, [first]) == State(a, good, fingerprint(a));
    assert Run(s, fingerprint, [first, Edit(b)]) == State(b, good, fingerprint(a));
    assert Run(s, fingerprint, [first, Edit(b), third]) == State(b, broken, fingerprint(a));
  }

  // ---------- uninstall_python_packages ----------

  const ROUNDS := 3

  const PACKAGES_TO_UNINSTALL: seq<string> := [
    "MySQL-python", "South", "edxval", "django-storages", "django-oauth2-provider", "edx-oauth2-provider",
    "enum34", "i18n-tools", "moto", "python-saml", "pytest-faulthandler", "djangorestframework-jwt"]

  /** Python's packages: what `pip freeze` shows, and `pip uninstall` of one package, which can raise. */
  datatype Pip<!P> = Pip(freeze: P -> set<string>, uninstall: (P, string) -> (bool, P))

  datatype Outcome<P> = Clean(p: P) | Pests(p: P) | Broke(p: P)

  /** Uninstalls, in order, every listed package that the freeze showed. */
  function UninstallShown<P>(pip: Pip<P>, packages: seq<string>, frozen: set<string>, p: P): (bool, P) {
    if packages == [] then (true, p)
    else
      var before := UninstallShown(pip, packages[..|packages| - 1], frozen, p);
      var package := packages[|packages| - 1];
      if before.0 && package in frozen then pip.uninstall(before.1, package) else before
  }

  predicate Shows<P>(pip: Pip<P>, packages: seq<string>, p: P) {
    exists i :: 0 <= i < |packages| && packages[i] in pip.freeze(p)
  }

  function Uninstalls<P>(pip: Pip<P>, packages: seq<string>, rounds: nat, p: P): Outcome<P> {
    if rounds == 0 then Pests(p)
    else if !Shows(pip, packages, p) then Clean(p)
    else
      var (ok, after) := UninstallShown(pip, packages, pip.freeze(p), p);
      if ok then Uninstalls(pip, packages, rounds - 1, after) else Broke(after)
  }

  class Uninstaller<P> {
    var p: P
    var version: Option<string>

    constructor (p: P, version: Option<string>)
      ensures this.p == p && this.version == version
    {
      this.p, this.version := p, version;
    }

    method UninstallRound(pip: Pip<P>, packages: seq<string>) returns (ok: bool, uninstalled: bool)
      modifies this`p
      ensures uninstalled <==> Shows(pip, packages, old(p))
      ensures !ok ==> uninstalled
      ensures !uninstalled ==> p == old(p)
      ensures (ok, p) == UninstallShown(pip, packages, pip.freeze(old(p)), old(p))
    {
      uninstalled, ok := false, true;
      var frozen := pip.freeze(p);
      for i := 0 to |packages|
        invariant ok && (true, p) == UninstallShown(pip, packages[..i], frozen, old(p))
        invariant !uninstalled ==> p == old(p)
        invariant uninstalled <==> exists j :: 0 <= j < i && packages[j] in frozen
      {
        assert packages[..i + 1][..i] == packages[..i];
        if packages[i] in frozen {
          var result := pip.uninstall(p, packages[i]);
          ok, p := result.0, result.1;
          uninstalled := true;
          if !ok {
            RaisedStays(pip, packages, frozen, old(p), i + 1);
            return;
          }
        }
      }
      assert packages[..|packages|] == packages;
    }

    /** The version is written only after a freeze that showed none of the packages. */
    method UninstallPythonPackages(pip: Pip<P>, packages: seq<string>, expected: string, noUninstall: bool)
      modifies this
      ensures var skip := noUninstall || old(version) == Some(expected);
              && (skip ==> p == old(p) && version == old(version))
              && (!skip ==>
                    var outcome := Uninstalls(pip, packages, ROUNDS, old(p));
                    p == outcome.p && version == if outcome.Clean? then Some(expected) else old(version))
    {
      if noUninstall || version == Some(expected) {
        return;
      }
      var round := 0;
      while round < ROUNDS
        invariant round <= ROUNDS && version == old(version)
        invariant Uninstalls(pip, packages, ROUNDS - round, p) == Uninstalls(pip, packages, ROUNDS, old(p))
      {
        var ok, uninstalled := UninstallRound(pip, packages);
        if !ok {
          return;
        }
        if !uninstalled {
          break;
        }
        round := round + 1;
      }
      if round == ROUNDS {
        return;
      }
      version := Some(expected);
    }
  }

  lemma {:induction false} RaisedStays<P>(pip: Pip<P>, packages: seq<string>, frozen: set<string>, p: P, i: nat)
    requires i <= |packages| && !UninstallShown(pip, packages[..i], frozen, p).0
    ensures UninstallShown(pip, packages, frozen, p) == UninstallShown(pip, packages[..i], frozen, p)
    decreases |packages|
  {
    if i == |packages| {
      assert packages[..i] == packages;
    } else {
      var n := |packages| - 1;
      assert packages[..n][..i] == packages[..i];
      RaisedStays(pip, packages[..n], frozen, p, i);
    }
  }

  /** Whatever pip does: a clean end is one whose last freeze shows no listed package. */
  lemma {:induction false} CleanShowsNone<P>(pip: Pip<P>, packages: seq<string>, rounds: nat, p: P)
    ensures var outcome := Uninstalls(pip, packages, rounds, p);
            outcome.Clean? ==> forall i :: 0 <= i < |packages| ==> packages[i] !in pip.freeze(outcome.p)
  {
    hide UninstallShown;
    if rounds > 0 && Shows(pip, packages, p) {
      var after := UninstallShown(pip, packages, pip.freeze(p), p).1;
      CleanShowsNone(pip, packages, rounds - 1, after);
    }
  }

  // ---------- Packages that are present several times ----------

  type Copies = map<string, nat>

  function CopiesOf(m: Copies, package: string): nat {
    if package in m then m[package] else 0
  }

  /** Each `pip uninstall` removes one installed copy; a package is shown while a copy is left. */
  function OneByOne(): Pip<Copies> {
    Pip((m: Copies) => set package | package in m && m[package] > 0,
        (m: Copies, package: string) =>
          (true, if CopiesOf(m, package) == 0 then m else m[package := CopiesOf(m, package) - 1]))
  }

  ghost predicate Distinct(packages: seq<string>) {
    forall i, j :: 0 <= i < j < |packages| ==> packages[i] != packages[j]
  }

  /** No two entries of the repository's list are the same. */
  lemma ListedPackagesAreDistinct()
    ensures Distinct(PACKAGES_TO_UNINSTALL)
  {
    var p := PACKAGES_TO_UNINSTALL;
    forall i, j | 0 <= i < j < |p| ensures p[i] != p[j] {
      if |p[i]| == |p[j]| {
        assert p[i][0] != p[j][0] || p[i][1] != p[j][1] || p[i][|p[i]| - 1] != p[j][|p[i]| - 1];
      }
    }
  }

  /** One round takes one copy of every listed package that has any. */
  lemma {:induction false} RoundTakesOneCopy(packages: seq<string>, frozen: set<string>, m: Copies)
    requires Distinct(packages)
    ensures var r := UninstallShown(OneByOne(), packages, frozen, m);
            r.0 && forall q ::
              CopiesOf(r.1, q) ==
              if q in packages && q in frozen && CopiesOf(m, q) > 0 then CopiesOf(m, q) - 1 else CopiesOf(m, q)
  {
    if packages != [] {
      var n := |packages| - 1;
      RoundTakesOneCopy(packages[..n], frozen, m);
      assert packages == packages[..n] + [packages[n]];
      assert packages[n] !in packages[..n];
    }
  }

  /** With n rounds the uninstall ends clean, and the version is recorded, if and only if no listed
      package started with n or more copies. It has then removed them all and nothing else. */
  lemma {:induction false} CleanIffFewCopies(packages: seq<string>, rounds: nat, m: Copies)
    requires Distinct(packages)
    ensures var outcome := Uninstalls(OneByOne(), packages, rounds, m);
            && (outcome.Clean? <==> rounds > 0 && forall q :: q in packages ==> CopiesOf(m, q) < rounds)
            && (outcome.Clean? ==> forall q :: CopiesOf(outcome.p, q) == if q in packages then 0 else CopiesOf(m, q))
    decreases rounds
  {
    hide UninstallShown;
    var pip := OneByOne();
    if rounds > 0 {
      ShownIffCopies(packages, m);
      if Shows(pip, packages, m) {
        RoundTakesOneCopy(packages, pip.freeze(m), m);
        var after := UninstallShown(pip, packages, pip.freeze(m), m).1;
        CleanIffFewCopies(packages, rounds - 1, after);
      }
    }
  }

  lemma ShownIffCopies(packages: seq<string>, m: Copies)
    ensures forall q :: q in OneByOne().freeze(m) <==> CopiesOf(m, q) > 0
    ensures Shows(OneByOne(), packages, m) <==> exists q :: q in packages && CopiesOf(m, q) > 0
  {
    if q :| q in packages && CopiesOf(m, q) > 0 {
      var i :| 0 <= i < |packages| && packages[i] == q;
      assert packages[i] in OneByOne().freeze(m);
    }
  }
}