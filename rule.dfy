/** The rules and the rule database of maat/rule.py. */
module Rules {
  import opened Wrappers
  import PyString

  /** A rule: the files it makes and the files it needs. `fun` names the
      host function a `FunRule` runs as its action; a plain `Rule` has none.
      `file` and `line` (None until set) say where the rule was written. */
  class Rule {
    const targets: seq<string>
    const sources: seq<string>
    const fun: Option<string>
    var file: Option<string>
    var line: Option<int>

    /** `Rule(targets, sources)`. */
    constructor (targets: seq<string>, sources: seq<string>)
      ensures this.targets == targets && this.sources == sources
      ensures fun == None && file == None && line == None
    {
      this.targets := targets;
      this.sources := sources;
      fun := None;
      file := None;
      line := None;
    }

    /** `FunRule(targets, sources, fun)`: a `Rule` whose action is `fun`. */
    constructor Fun(targets: seq<string>, sources: seq<string>, fun: string)
      ensures this.targets == targets && this.sources == sources
      ensures this.fun == Some(fun) && file == None && line == None
    {
      this.targets := targets;
      this.sources := sources;
      this.fun := Some(fun);
      file := None;
      line := None;
    }

    /** `repr(rule)` of a `FunRule`. */
    function Repr(): (r: Result<string, ReprError>)
      reads this
      requires fun.Some?
      ensures r.Err? <==> line.None?
      ensures r.Ok? ==> PyString.Join(targets, " ") + ":" + PyString.Join(sources, " ") + "\n\tcode " <= r.value
    {
      Render(targets, sources, file, line)
    }
  }

  /** `%d` applied to None raises TypeError. */
  datatype ReprError = TypeError

  /** The text `FunRule.__repr__` builds: the header line
      `targets:sources`, then a tab-indented `code <file>:<line>` line.
      An unset file prints as `None`; an unset line cannot be formatted. */
  function Render(targets: seq<string>, sources: seq<string>, file: Option<string>, line: Option<int>)
    : (r: Result<string, ReprError>)
    ensures r.Err? <==> line.None?
    ensures r.Ok? ==>
      var header := PyString.Join(targets, " ") + ":" + PyString.Join(sources, " ");
      var where := (if file.Some? then file.value else "None") + ":" + PyString.FormatInt(line.value);
      && |header| < |r.value| && r.value[..|header|] == header
      && r.value[|header|..] == "\n\tcode " + where + "\n"
  {
    match line
    case None => Err(TypeError)
    case Some(n) =>
      Ok(PyString.Join(targets, " ") + ":" + PyString.Join(sources, " ")
         + "\n\t" + "code " + (if file.Some? then file.value else "None") + ":" + PyString.FormatInt(n) + "\n")
  }

  /** The rule database: every rule in the order it was added, and for each
      target the rule that makes it. */
  class DataBase {
    var rules: seq<Rule>
    var targetMap: map<string, Rule>  // `self.map`

    /** Every rule the map points to is a known rule, and it is indexed
        under one of its own targets. */
    ghost predicate Valid()
      reads this
    {
      forall t :: t in targetMap ==> targetMap[t] in rules && t in targetMap[t].targets
    }

    constructor ()
      ensures Valid() && rules == [] && targetMap == map[]
    {
      rules := [];
      targetMap := map[];
    }

    /** `add(rule)`: append the rule, then index it under each of its
        targets in turn, replacing any earlier producer. */
    method Add(rule: Rule)
      requires Valid()
      modifies this
      ensures Valid()
      ensures rules == old(rules) + [rule]
      ensures targetMap == old(targetMap) + map t | t in rule.targets :: rule
    {
      rules := rules + [rule];
      for i := 0 to |rule.targets|
        invariant rules == old(rules) + [rule]
        invariant targetMap == old(targetMap) + map t | t in rule.targets[..i] :: rule
      {
        assert rule.targets[..i + 1] == rule.targets[..i] + [rule.targets[i]];
        targetMap := targetMap[rule.targets[i] := rule];
      }
      assert rule.targets[..|rule.targets|] == rule.targets;
    }

    /** The rule that makes `target`, or None where `self.map[target]`
        would raise KeyError. */
    function RuleFor(target: string): (r: Option<Rule>)
      reads this
      ensures r.Some? <==> target in targetMap
      ensures r.Some? ==> r.value == targetMap[target]
    {
      if target in targetMap then Some(targetMap[target]) else None
    }
  }
}
