/** The sequential maker of maat/make.py: a depth-first walk from the goals
    over the rule database that lists the jobs to run, dependencies first.
    Whether a rule needs an update (`rule.needs_update()`) and whether a
    file can be read (`os.access(goal, os.R_OK)`) are given as parameters. */
module Make {
  import opened Wrappers
  import Rules

  /** A rule to run. */
  class Job {
    const rule: Rules.Rule

    constructor (rule: Rules.Rule)
      ensures this.rule == rule
    {
      this.rule := rule;
    }
  }

  /** The rules of `jobs`, in order: what `make` runs. */
  function RulesOf(jobs: seq<Job>): (r: seq<Rules.Rule>)
    ensures |r| == |jobs| && forall i :: 0 <= i < |jobs| ==> r[i] == jobs[i].rule
  {
    seq(|jobs|, i requires 0 <= i < |jobs| => jobs[i].rule)
  }

  // ---------------------------------------------------- collect, as values

  /** Where the walk stands: the rules of the jobs listed so far, the names
      made ready, and the name reported as impossible to make, if any. The
      report is fatal: once it is made, the walk does nothing more. */
  datatype Walk = Walk(jobs: seq<Rules.Rule>, ready: set<string>, fatal: Option<string>)

  /** The job for `rule` appended and its targets made ready, unless the
      walk has stopped. */
  function Append(rule: Rules.Rule, w: Walk): (v: Walk)
    ensures w.fatal.Some? ==> v == w
    ensures w.fatal.None? ==>
      v.fatal.None? && v.jobs == w.jobs + [rule] && v.ready == w.ready + set t | t in rule.targets
  {
    if w.fatal.Some? then w else w.(jobs := w.jobs + [rule], ready := w.ready + set t | t in rule.targets)
  }

  /** `collect(goal)` from `w`, over the map `m` from target to rule
      (`self.db.map`). A ready goal, an up-to-date rule and a readable file
      with no rule change nothing; an unreadable file with no rule is
      reported; a rule that needs an update has its sources collected in
      order, then its job appended. `fuel` bounds how deep the walk may
      recurse: None means the walk goes deeper. */
  function Collected(fuel: nat, m: map<string, Rules.Rule>, needsUpdate: Rules.Rule -> bool,
                     readable: string -> bool, goal: string, w: Walk): Option<Walk>
    decreases fuel, 0
  {
    if w.fatal.Some? || goal in w.ready then Some(w)
    else if goal !in m then (if readable(goal) then Some(w) else Some(w.(fatal := Some(goal))))
    else if !needsUpdate(m[goal]) then Some(w)
    else if fuel == 0 then None
    else
      match CollectedAll(fuel - 1, m, needsUpdate, readable, m[goal].sources, w)
      case None => None
      case Some(v) => Some(Append(m[goal], v))
  }

  /** `collect` applied to each of `names` in turn. */
  function CollectedAll(fuel: nat, m: map<string, Rules.Rule>, needsUpdate: Rules.Rule -> bool,
                        readable: string -> bool, names: seq<string>, w: Walk): Option<Walk>
    decreases fuel, 1, |names|
  {
    if names == [] || w.fatal.Some? then Some(w)
    else
      match Collected(fuel, m, needsUpdate, readable, names[0], w)
      case None => None
      case Some(v) => CollectedAll(fuel, m, needsUpdate, readable, names[1..], v)
  }

  /** `m[x] == r` for some `x`. */
  ghost predicate Mapped(m: map<string, Rules.Rule>, r: Rules.Rule) {
    exists x :: x in m && m[x] == r
  }

  /** The walk only appends jobs, each for a mapped rule, and only adds
      ready names; it reports a name only when no rule makes it and it
      cannot be read, and after a report it changes nothing. */
  lemma {:induction false} CollectedGrows(fuel: nat, m: map<string, Rules.Rule>, needsUpdate: Rules.Rule -> bool,
                                          readable: string -> bool, goal: string, w: Walk)
    requires Collected(fuel, m, needsUpdate, readable, goal, w).Some?
    ensures var v := Collected(fuel, m, needsUpdate, readable, goal, w).value;
      && w.jobs <= v.jobs && w.ready <= v.ready
      && (forall i :: |w.jobs| <= i < |v.jobs| ==> Mapped(m, v.jobs[i]))
      && (w.fatal.Some? ==> v == w)
      && (w.fatal.None? && v.fatal.Some? ==> v.fatal.value !in m && !readable(v.fatal.value))
    decreases fuel, 0
  {
    if w.fatal.None? && goal !in w.ready && goal in m && needsUpdate(m[goal]) {
      CollectedAllGrows(fuel - 1, m, needsUpdate, readable, m[goal].sources, w);
    }
  }

  lemma {:induction false} CollectedAllGrows(fuel: nat, m: map<string, Rules.Rule>, needsUpdate: Rules.Rule -> bool,
                                             readable: string -> bool, names: seq<string>, w: Walk)
    requires CollectedAll(fuel, m, needsUpdate, readable, names, w).Some?
    ensures var v := CollectedAll(fuel, m, needsUpdate, readable, names, w).value;
      && w.jobs <= v.jobs && w.ready <= v.ready
      && (forall i :: |w.jobs| <= i < |v.jobs| ==> Mapped(m, v.jobs[i]))
      && (w.fatal.Some? ==> v == w)
      && (w.fatal.None? && v.fatal.Some? ==> v.fatal.value !in m && !readable(v.fatal.value))
    decreases fuel, 1, |names|
  {
    if names != [] && w.fatal.None? {
      CollectedGrows(fuel, m, needsUpdate, readable, names[0], w);
      var u := Collected(fuel, m, needsUpdate, readable, names[0], w).value;
      CollectedAllGrows(fuel, m, needsUpdate, readable, names[1..], u);
    }
  }

  // ------------------------------------------------- what the walk keeps

  /** Every rule is indexed under one of its own targets (`DataBase.add`). */
  ghost predicate Indexed(m: map<string, Rules.Rule>) {
    forall t :: t in m ==> t in m[t].targets
  }

  /** The map of a valid database is indexed, so the lemmas below apply to
      `db.targetMap`. */
  lemma ValidIndexed(db: Rules.DataBase)
    requires db.Valid()
    ensures Indexed(db.targetMap)
  {
  }

  /** No target depends on itself through rules that need an update: `rank`
      decreases from a stale rule's target to each of its sources. */
  ghost predicate RankedBy(m: map<string, Rules.Rule>, needsUpdate: Rules.Rule -> bool, rank: string -> nat) {
    forall g, s :: g in m && needsUpdate(m[g]) && s in m[g].sources ==> rank(s) < rank(g)
  }

  /** Every target of the rules of `jobs`. */
  ghost function Produced(jobs: seq<Rules.Rule>): set<string> {
    set i, t | 0 <= i < |jobs| && t in jobs[i].targets :: t
  }

  lemma ProducedAppend(jobs: seq<Rules.Rule>, rule: Rules.Rule)
    ensures Produced(jobs + [rule]) == Produced(jobs) + set t | t in rule.targets
  {
    var js := jobs + [rule];
    forall t | t in Produced(js) ensures t in Produced(jobs) + set t | t in rule.targets {
      var i :| 0 <= i < |js| && t in js[i].targets;
      if i < |jobs| { assert jobs[i] == js[i]; }
    }
    forall t | t in Produced(jobs) ensures t in Produced(js) {
      var i :| 0 <= i < |jobs| && t in jobs[i].targets;
      assert js[i] == jobs[i];
    }
    assert js[|jobs|] == rule;
  }

  /** A name needs no further job: it is ready, or no rule makes it, or its
      rule is up to date. */
  ghost predicate Settled(m: map<string, Rules.Rule>, needsUpdate: Rules.Rule -> bool, ready: set<string>, g: string) {
    g in ready || g !in m || !needsUpdate(m[g])
  }

  /** A source `s` of the job at index `i` is made by an earlier job, or
      needs no job. */
  ghost predicate MadeBefore(m: map<string, Rules.Rule>, needsUpdate: Rules.Rule -> bool, jobs: seq<Rules.Rule>,
                             s: string, i: int) {
    s !in m || !needsUpdate(m[s]) || exists j :: 0 <= j < i && j < |jobs| && s in jobs[j].targets
  }

  /** What the walk maintains on an acyclic database: `ready` holds exactly
      the targets of the listed rules, every listed rule needs an update, no
      rule is listed twice, and the job list is in dependency order. */
  ghost predicate Scheduled(m: map<string, Rules.Rule>, needsUpdate: Rules.Rule -> bool, jobs: seq<Rules.Rule>,
                            ready: set<string>) {
    && ready == Produced(jobs)
    && (forall i :: 0 <= i < |jobs| ==> needsUpdate(jobs[i]))
    && (forall i, j :: 0 <= i < j < |jobs| ==> jobs[i] != jobs[j])
    && (forall i, s :: 0 <= i < |jobs| && s in jobs[i].sources ==> MadeBefore(m, needsUpdate, jobs, s, i))
  }

  /** A rule that needs an update, whose sources are all settled and which
      is not yet listed, can be appended to the job list. */
  lemma AppendJob(m: map<string, Rules.Rule>, needsUpdate: Rules.Rule -> bool, jobs: seq<Rules.Rule>,
                  ready: set<string>, rule: Rules.Rule)
    requires Scheduled(m, needsUpdate, jobs, ready)
    requires needsUpdate(rule)
    requires forall s :: s in rule.sources ==> Settled(m, needsUpdate, ready, s)
    requires forall j :: 0 <= j < |jobs| ==> jobs[j] != rule
    ensures Scheduled(m, needsUpdate, jobs + [rule], ready + set t | t in rule.targets)
  {
    var js := jobs + [rule];
    ProducedAppend(jobs, rule);
    forall i, s | 0 <= i < |js| && s in js[i].sources ensures MadeBefore(m, needsUpdate, js, s, i) {
      if i < |jobs| {
        assert js[i] == jobs[i];
        assert MadeBefore(m, needsUpdate, jobs, s, i);
        if exists j :: 0 <= j < i && j < |jobs| && s in jobs[j].targets {
          var j :| 0 <= j < i && j < |jobs| && s in jobs[j].targets;
          assert js[j] == jobs[j];
        }
      } else {
        assert Settled(m, needsUpdate, ready, s);
        if s in ready {
          var j :| 0 <= j < |jobs| && s in jobs[j].targets;
          assert js[j] == jobs[j];
        }
      }
    }
  }

  /** `r` is indexed under some name of rank at most `bound`. */
  ghost predicate Below(m: map<string, Rules.Rule>, r: Rules.Rule, rank: string -> nat, bound: int) {
    exists x :: x in m && m[x] == r && rank(x) <= bound
  }

  /** A rule indexed under a name that is not ready is not listed yet. */
  lemma NotYetListed(m: map<string, Rules.Rule>, jobs: seq<Rules.Rule>, goal: string)
    requires Indexed(m) && goal in m && goal !in Produced(jobs)
    ensures forall j :: 0 <= j < |jobs| ==> jobs[j] != m[goal]
  {
    forall j | 0 <= j < |jobs| ensures jobs[j] != m[goal] {
      assert jobs[j] == m[goal] ==> goal in Produced(jobs);
    }
  }

  /** On an acyclic database, `collect(goal)` keeps the job list scheduled,
      leaves the goal settled unless it stopped, and lists only rules
      indexed under names ranked no higher than the goal. */
  lemma {:induction false} CollectedSchedules(fuel: nat, m: map<string, Rules.Rule>, needsUpdate: Rules.Rule -> bool,
                                              readable: string -> bool, rank: string -> nat, goal: string, w: Walk)
    requires Indexed(m) && RankedBy(m, needsUpdate, rank) && Scheduled(m, needsUpdate, w.jobs, w.ready)
    requires Collected(fuel, m, needsUpdate, readable, goal, w).Some?
    ensures var v := Collected(fuel, m, needsUpdate, readable, goal, w).value;
      && Scheduled(m, needsUpdate, v.jobs, v.ready)
      && (v.fatal.None? ==> Settled(m, needsUpdate, v.ready, goal))
      && (forall i :: |w.jobs| <= i < |v.jobs| ==> Below(m, v.jobs[i], rank, rank(goal)))
    decreases fuel, 0
  {
    CollectedGrows(fuel, m, needsUpdate, readable, goal, w);
    if w.fatal.None? && goal !in w.ready && goal in m && needsUpdate(m[goal]) {
      var r := m[goal];
      var u := CollectedAll(fuel - 1, m, needsUpdate, readable, r.sources, w).value;
      CollectedAllGrows(fuel - 1, m, needsUpdate, readable, r.sources, w);
      CollectedAllSchedules(fuel - 1, m, needsUpdate, readable, rank, r.sources, w);
      if u.fatal.None? {
        NotYetListed(m, w.jobs, goal);
        forall j | |w.jobs| <= j < |u.jobs| ensures u.jobs[j] != r && Below(m, u.jobs[j], rank, rank(goal)) {
          var k :| 0 <= k < |r.sources| && Below(m, u.jobs[j], rank, rank(r.sources[k]));
          var s := r.sources[k];
          var x :| x in m && m[x] == u.jobs[j] && rank(x) <= rank(s);
          assert rank(s) < rank(goal);
          assert m[x] == r ==> rank(s) < rank(x);
        }
        forall j | 0 <= j < |u.jobs| ensures u.jobs[j] != r {
          if j < |w.jobs| {
            assert u.jobs[j] == w.jobs[j];
          }
        }
        AppendJob(m, needsUpdate, u.jobs, u.ready, r);
      }
    }
  }

  /** The same for `collect` applied to each of `names`: each new job is
      indexed under a name ranked no higher than one of `names`. */
  lemma {:induction false} CollectedAllSchedules(fuel: nat, m: map<string, Rules.Rule>, needsUpdate: Rules.Rule -> bool,
                                                 readable: string -> bool, rank: string -> nat, names: seq<string>, w: Walk)
    requires Indexed(m) && RankedBy(m, needsUpdate, rank) && Scheduled(m, needsUpdate, w.jobs, w.ready)
    requires CollectedAll(fuel, m, needsUpdate, readable, names, w).Some?
    ensures var v := CollectedAll(fuel, m, needsUpdate, readable, names, w).value;
      && Scheduled(m, needsUpdate, v.jobs, v.ready)
      && (v.fatal.None? ==> forall k :: 0 <= k < |names| ==> Settled(m, needsUpdate, v.ready, names[k]))
      && (forall i :: |w.jobs| <= i < |v.jobs| ==>
            exists k :: 0 <= k < |names| && Below(m, v.jobs[i], rank, rank(names[k])))
    decreases fuel, 1, |names|
  {
    CollectedAllGrows(fuel, m, needsUpdate, readable, names, w);
    if names != [] && w.fatal.None? {
      var u := Collected(fuel, m, needsUpdate, readable, names[0], w).value;
      var v := CollectedAll(fuel, m, needsUpdate, readable, names[1..], u).value;
      CollectedSchedules(fuel, m, needsUpdate, readable, rank, names[0], w);
      CollectedGrows(fuel, m, needsUpdate, readable, names[0], w);
      CollectedAllSchedules(fuel, m, needsUpdate, readable, rank, names[1..], u);
      CollectedAllGrows(fuel, m, needsUpdate, readable, names[1..], u);
      forall i | |w.jobs| <= i < |v.jobs|
        ensures exists k :: 0 <= k < |names| && Below(m, v.jobs[i], rank, rank(names[k]))
      {
        if i < |u.jobs| {
          assert v.jobs[i] == u.jobs[i];
          assert Below(m, v.jobs[i], rank, rank(names[0]));
        } else {
          var k :| 0 <= k < |names[1..]| && Below(m, v.jobs[i], rank, rank(names[1..][k]));
          assert names[1..][k] == names[k + 1];
        }
      }
      if v.fatal.None? {
        forall k | 0 <= k < |names| ensures Settled(m, needsUpdate, v.ready, names[k]) {
          if k > 0 {
            assert names[k] == names[1..][k - 1];
          }
        }
      }
    }
  }

  /** On an acyclic database the walk from `goal` ends: fuel above the
      goal's rank is enough. */
  lemma {:induction false} CollectedEnds(fuel: nat, m: map<string, Rules.Rule>, needsUpdate: Rules.Rule -> bool,
                                         readable: string -> bool, rank: string -> nat, goal: string, w: Walk)
    requires RankedBy(m, needsUpdate, rank) && rank(goal) < fuel
    ensures Collected(fuel, m, needsUpdate, readable, goal, w).Some?
    decreases fuel, 0
  {
    if w.fatal.None? && goal !in w.ready && goal in m && needsUpdate(m[goal]) {
      CollectedAllEnds(fuel - 1, m, needsUpdate, readable, rank, m[goal].sources, w);
    }
  }

  lemma {:induction false} CollectedAllEnds(fuel: nat, m: map<string, Rules.Rule>, needsUpdate: Rules.Rule -> bool,
                                            readable: string -> bool, rank: string -> nat, names: seq<string>, w: Walk)
    requires RankedBy(m, needsUpdate, rank) && forall k :: 0 <= k < |names| ==> rank(names[k]) < fuel
    ensures CollectedAll(fuel, m, needsUpdate, readable, names, w).Some?
    decreases fuel, 1, |names|
  {
    if names != [] && w.fatal.None? {
      CollectedEnds(fuel, m, needsUpdate, readable, rank, names[0], w);
      var u := Collected(fuel, m, needsUpdate, readable, names[0], w).value;
      CollectedAllEnds(fuel, m, needsUpdate, readable, rank, names[1..], u);
    }
  }

  /** A bound above the rank of every goal. */
  function RankBound(goals: seq<string>, rank: string -> nat): (b: nat)
    ensures forall k :: 0 <= k < |goals| ==> rank(goals[k]) < b
  {
    if goals == [] then 0
    else
      var b := RankBound(goals[1..], rank);
      assert forall k :: 1 <= k < |goals| ==> goals[k] == goals[1..][k - 1];
      if rank(goals[0]) < b then b else rank(goals[0]) + 1
  }

  /** What `make(goals)` collects, from no job and nothing ready. */
  function MakeWalk(fuel: nat, m: map<string, Rules.Rule>, needsUpdate: Rules.Rule -> bool,
                    readable: string -> bool, goals: seq<string>): Option<Walk> {
    CollectedAll(fuel, m, needsUpdate, readable, goals, Walk([], {}, None))
  }

  /** Goals that are ready, up to date, or readable files with no rule
      list no job and make nothing ready: rerunning `make` on up-to-date
      goals does nothing. */
  lemma {:induction false} NothingStale(fuel: nat, m: map<string, Rules.Rule>, needsUpdate: Rules.Rule -> bool,
                                        readable: string -> bool, goals: seq<string>, w: Walk)
    requires w.fatal.None?
    requires forall k :: 0 <= k < |goals| ==>
      goals[k] in w.ready || (goals[k] in m && !needsUpdate(m[goals[k]])) || (goals[k] !in m && readable(goals[k]))
    ensures CollectedAll(fuel, m, needsUpdate, readable, goals, w) == Some(w)
    decreases |goals|
  {
    if goals != [] {
      assert Collected(fuel, m, needsUpdate, readable, goals[0], w) == Some(w);
      assert forall k :: 1 <= k < |goals| ==> goals[1..][k - 1] == goals[k];
      NothingStale(fuel, m, needsUpdate, readable, goals[1..], w);
    }
  }

  /** On an acyclic database, `make(goals)` ends, and what it collects is
      in dependency order with no rule listed twice and every job's rule
      having a target (so the debug print of `targets[0]` cannot fail).
      Unless a goal proved impossible, every goal is settled; otherwise the
      name reported has no rule and cannot be read. */
  lemma MakeSchedules(m: map<string, Rules.Rule>, needsUpdate: Rules.Rule -> bool, readable: string -> bool,
                      rank: string -> nat, goals: seq<string>)
    requires Indexed(m) && RankedBy(m, needsUpdate, rank)
    ensures MakeWalk(RankBound(goals, rank), m, needsUpdate, readable, goals).Some?
    ensures forall fuel: nat | MakeWalk(fuel, m, needsUpdate, readable, goals).Some? ::
      var v := MakeWalk(fuel, m, needsUpdate, readable, goals).value;
      && Scheduled(m, needsUpdate, v.jobs, v.ready)
      && (forall i :: 0 <= i < |v.jobs| ==> v.jobs[i].targets != [])
      && (v.fatal.None? ==> forall k :: 0 <= k < |goals| ==> Settled(m, needsUpdate, v.ready, goals[k]))
      && (v.fatal.Some? ==> v.fatal.value !in m && !readable(v.fatal.value))
  {
    var w := Walk([], {}, None);
    CollectedAllEnds(RankBound(goals, rank), m, needsUpdate, readable, rank, goals, w);
    assert Produced([]) == {};
    forall fuel: nat | MakeWalk(fuel, m, needsUpdate, readable, goals).Some?
      ensures var v := MakeWalk(fuel, m, needsUpdate, readable, goals).value;
        && Scheduled(m, needsUpdate, v.jobs, v.ready)
        && (forall i :: 0 <= i < |v.jobs| ==> v.jobs[i].targets != [])
        && (v.fatal.None? ==> forall k :: 0 <= k < |goals| ==> Settled(m, needsUpdate, v.ready, goals[k]))
        && (v.fatal.Some? ==> v.fatal.value !in m && !readable(v.fatal.value))
    {
      CollectedAllSchedules(fuel, m, needsUpdate, readable, rank, goals, w);
      CollectedAllGrows(fuel, m, needsUpdate, readable, goals, w);
      var v := MakeWalk(fuel, m, needsUpdate, readable, goals).value;
      forall i | 0 <= i < |v.jobs| ensures v.jobs[i].targets != [] {
        assert Mapped(m, v.jobs[i]);
        var x :| x in m && m[x] == v.jobs[i];
      }
    }
  }

  // ------------------------------------------------------------ the maker

  class SeqMaker {
    const db: Rules.DataBase
    var jobs: seq<Job>
    var ready: set<string>

    /** `SeqMaker(db)`. The Python constructor leaves `jobs` and `ready`
        undefined until `make` sets them; here they start empty. */
    constructor (db: Rules.DataBase)
      ensures this.db == db && jobs == [] && ready == {}
    {
      this.db := db;
      jobs := [];
      ready := {};
    }

    /** `collect(goal)`, proved to do what `Collected` says from the current
        job list and ready set. A name with no rule that cannot be read is
        fatal ("no way to make"), reported by `ok == false`. `fuel` is a
        depth the recursion stays within. */
    method Collect(goal: string, needsUpdate: Rules.Rule -> bool, readable: string -> bool, ghost fuel: nat)
      returns (ok: bool)
      requires Collected(fuel, db.targetMap, needsUpdate, readable, goal, Walk(RulesOf(jobs), ready, None)).Some?
      modifies this
      decreases fuel, 1
      ensures var v := Collected(fuel, db.targetMap, needsUpdate, readable, goal, Walk(RulesOf(old(jobs)), old(ready), None)).value;
        RulesOf(jobs) == v.jobs && ready == v.ready && (ok <==> v.fatal.None?)
    {
      ok := true;
      if goal !in ready {
        var found := db.RuleFor(goal);
        if found.None? {
          ok := readable(goal);
        } else if needsUpdate(found.value) {
          ok := CollectRule(goal, found.value, needsUpdate, readable, fuel);
        }
      }
    }

    /** The part of `collect(goal)` for a goal whose rule needs an update:
        collect each source in turn, then append the rule's job and make
        its targets ready. */
    method CollectRule(goal: string, rule: Rules.Rule, needsUpdate: Rules.Rule -> bool, readable: string -> bool,
                       ghost fuel: nat)
      returns (ok: bool)
      requires goal !in ready && goal in db.targetMap && db.targetMap[goal] == rule && needsUpdate(rule)
      requires Collected(fuel, db.targetMap, needsUpdate, readable, goal, Walk(RulesOf(jobs), ready, None)).Some?
      modifies this
      decreases fuel, 0
      ensures var v := Collected(fuel, db.targetMap, needsUpdate, readable, goal, Walk(RulesOf(old(jobs)), old(ready), None)).value;
        RulesOf(jobs) == v.jobs && ready == v.ready && (ok <==> v.fatal.None?)
    {
      ghost var m := db.targetMap;
      ghost var all := CollectedAll(fuel - 1, m, needsUpdate, readable, rule.sources, Walk(RulesOf(jobs), ready, None));
      ok := true;
      var i := 0;
      while ok && i < |rule.sources|
        invariant 0 <= i <= |rule.sources| && all.Some?
        invariant ok ==> all == CollectedAll(fuel - 1, m, needsUpdate, readable, rule.sources[i..], Walk(RulesOf(jobs), ready, None))
        invariant !ok ==> all.value.fatal.Some? && all.value.jobs == RulesOf(jobs) && all.value.ready == ready
        decreases |rule.sources| - i, ok
      {
        ghost var rest := rule.sources[i..];
        assert rest[1..] == rule.sources[i + 1..];
        ok := Collect(rule.sources[i], needsUpdate, readable, fuel - 1);
        if ok {
          i := i + 1;
        }
      }
      if ok {
        var job := new Job(rule);
        assert RulesOf(jobs + [job]) == RulesOf(jobs) + [rule];
        jobs := jobs + [job];
        ready := ready + set t | t in rule.targets;
      }
    }

    /** `make(goals)`: start from no job and nothing ready, collect the goals
        in order, then run the jobs in the order they were listed. Running a
        job is left to the rule; the result `run` is the rules whose actions
        run, in order. A fatal goal stops everything before any job runs. */
    method Make(goals: seq<string>, needsUpdate: Rules.Rule -> bool, readable: string -> bool, ghost fuel: nat)
      returns (ok: bool, run: seq<Rules.Rule>)
      requires MakeWalk(fuel, db.targetMap, needsUpdate, readable, goals).Some?
      modifies this
      ensures var v := MakeWalk(fuel, db.targetMap, needsUpdate, readable, goals).value;
        && RulesOf(jobs) == v.jobs && ready == v.ready && (ok <==> v.fatal.None?)
        && run == (if ok then v.jobs else [])
    {
      ghost var all := MakeWalk(fuel, db.targetMap, needsUpdate, readable, goals);
      jobs := [];
      ready := {};
      ok := true;
      run := [];
      assert RulesOf(jobs) == [];
      for k := 0 to |goals|
        invariant ok
        invariant all == CollectedAll(fuel, db.targetMap, needsUpdate, readable, goals[k..], Walk(RulesOf(jobs), ready, None))
      {
        ghost var rest := goals[k..];
        assert rest[1..] == goals[k + 1..];
        ok := Collect(goals[k], needsUpdate, readable, fuel);
        if !ok {
          return;
        }
      }
      for i := 0 to |jobs|
        invariant run == RulesOf(jobs[..i])
      {
        run := run + [jobs[i].rule];
      }
      assert jobs[..|jobs|] == jobs;
    }
  }
}
