/** The top-level script of maat.py: the translator that turns a build
    script into host source (`Script.eval` and its inner `make`), and
    `fun_rule`, which the generated source calls to register each rule. */
module Script {
  import opened Wrappers
  import PyString
  import Rules

  // ------------------------------------------------------ the two patterns

  predicate IsBlank(c: char) {
    c == ' ' || c == '\t'
  }

  /** The leading blanks and tabs of `s`: group 1 of both `rule_re` and
      `indent_re`, which `[ \t]*` matches greedily. */
  function Indent(s: string): (r: string)
    ensures r <= s
    ensures forall i :: 0 <= i < |r| ==> IsBlank(r[i])
    ensures |r| < |s| ==> !IsBlank(s[|r|])
  {
    if s != [] && IsBlank(s[0]) then [s[0]] + Indent(s[1..]) else []
  }

  /** A line as the file iterator yields it, without its final newline:
      the part `.` can match before `$`. */
  function Content(l: string): (c: string)
    ensures c <= l && |l| - 1 <= |c|
  {
    if l != [] && l[|l| - 1] == '\n' then l[..|l| - 1] else l
  }

  /** Exactly a final newline is dropped, and nothing else. */
  lemma ContentCases(l: string)
    ensures Content(l) == l <==> l == [] || l[|l| - 1] != '\n'
    ensures Content(l) != l ==> l == Content(l) + "\n"
  {
    if Content(l) != l {
      assert l == l[..|l| - 1] + [l[|l| - 1]];
    }
  }

  /** The position of the last ':' in `s`. */
  function LastColon(s: string): (r: Option<nat>)
    ensures r.None? <==> ':' !in s
    ensures r.Some? ==> r.value < |s| && s[r.value] == ':' && ':' !in s[r.value + 1..]
  {
    if s == [] then None
    else if s[|s| - 1] == ':' then Some(|s| - 1)
    else
      var r := LastColon(s[..|s| - 1]);
      assert r.Some? ==> s[r.value + 1..] == s[..|s| - 1][r.value + 1..] + [s[|s| - 1]];
      r
  }

  /** The three groups of `rule_re`: indentation, targets text, sources text. */
  datatype Header = Header(indent: string, targets: string, sources: string)

  /** `h` is how `^([ \t]*)(.*):(.*)$` splits the text `c`: blanks (all of
      them, since `[ \t]*` is greedy), then targets, then the last ':'
      (since the first `(.*)` is greedy), then colon-free sources. */
  ghost predicate SplitsAs(c: string, h: Header) {
    && c == h.indent + h.targets + ":" + h.sources
    && ':' !in h.sources
    && (forall i :: 0 <= i < |h.indent| ==> IsBlank(h.indent[i]))
    && (h.targets == [] || !IsBlank(h.targets[0]))
  }

  /** The leading blanks stop at the first character that is not one. */
  lemma {:induction false} IndentBefore(s: string, k: nat)
    requires k < |s| && !IsBlank(s[k])
    ensures |Indent(s)| <= k
  {
    if IsBlank(s[0]) {
      IndentBefore(s[1..], k - 1);
    }
  }

  /** Cutting `c` at its leading blanks and at its last colon `k`. */
  lemma HeaderParts(c: string, k: nat)
    requires k < |c| && c[k] == ':' && ':' !in c[k + 1..]
    ensures |Indent(c)| <= k
    ensures SplitsAs(c, Header(Indent(c), c[|Indent(c)|..k], c[k + 1..]))
  {
    IndentBefore(c, k);
    var ind := Indent(c);
    assert c[..|ind|] == ind;
    assert c == c[..|ind|] + c[|ind|..k] + [c[k]] + c[k + 1..];
  }

  /** `rule_re.match(l)`: None when the line holds no ':'. */
  function MatchRule(l: string): (r: Option<Header>)
    ensures r.Some? <==> ':' in Content(l)
    ensures r.Some? ==> SplitsAs(Content(l), r.value)
  {
    var c := Content(l);
    match LastColon(c)
    case None => None
    case Some(k) =>
      HeaderParts(c, k);
      Some(Header(Indent(c), c[|Indent(c)|..k], c[k + 1..]))
  }

  /** The last colon is the one with no colon after it. */
  lemma {:induction false} LastColonAt(s: string, k: nat)
    requires k < |s| && s[k] == ':' && ':' !in s[k + 1..]
    ensures LastColon(s) == Some(k)
  {
    if k < |s| - 1 {
      var init := s[..|s| - 1];
      assert s[|s| - 1] == s[k + 1..][|s| - k - 2];
      assert init[k + 1..] == s[k + 1..][..|s| - k - 2];
      LastColonAt(init, k);
    }
  }

  /** The greedy indentation is the only all-blank prefix not followed by
      a blank. */
  lemma {:induction false} IndentUnique(s: string, p: string)
    requires p <= s
    requires forall i :: 0 <= i < |p| ==> IsBlank(p[i])
    requires |p| < |s| ==> !IsBlank(s[|p|])
    ensures Indent(s) == p
  {
    if p != [] {
      assert IsBlank(s[0]);
      IndentUnique(s[1..], p[1..]);
    }
  }

  /** The parts of a header line, read back by position. */
  lemma HeaderAt(c: string, h: Header)
    requires c == h.indent + h.targets + ":" + h.sources
    ensures var n, k := |h.indent|, |h.indent| + |h.targets|;
      && k < |c| && c[k] == ':' && c[..n] == h.indent && c[n..k] == h.targets && c[k + 1..] == h.sources
  {
    var n, k := |h.indent|, |h.indent| + |h.targets|;
    assert c == (h.indent + h.targets) + ([':'] + h.sources);
    assert c[..k] == h.indent + h.targets;
    assert c[k..] == [':'] + h.sources;
  }

  /** `rule_re` has exactly one way to match: any split of a line into
      blank indentation, targets not starting with a blank, ':' and
      colon-free sources is the one `MatchRule` finds. */
  lemma MatchRuleUnique(l: string, h: Header)
    requires SplitsAs(Content(l), h)
    ensures MatchRule(l) == Some(h)
  {
    var c := Content(l);
    var n, k := |h.indent|, |h.indent| + |h.targets|;
    HeaderAt(c, h);
    LastColonAt(c, k);
    assert n < |c| && (h.targets == [] || c[n] == h.targets[0]);
    IndentUnique(c, h.indent);
    var m := Header(Indent(c), c[n..k], c[k + 1..]);
    assert MatchRule(l) == Some(m);
    assert m.indent == h.indent && m.targets == h.targets && m.sources == h.sources;
  }

  // ------------------------------------------------- the generated source

  /** What one registration call passes to `fun_rule`. */
  datatype Registration = Registration(targets: seq<string>, sources: seq<string>, file: string, line: nat)

  /** `['"%s"' % t for t in ts]`: each name between double quotes, with no
      escaping. */
  function Quoted(ts: seq<string>): (r: seq<string>)
    ensures |r| == |ts|
    ensures forall i :: 0 <= i < |ts| ==> r[i] == "\"" + ts[i] + "\""
  {
    if ts == [] then [] else ["\"" + ts[0] + "\""] + Quoted(ts[1..])
  }

  /** The registration statement injected after a rule body. */
  function RegistrationLine(r: Registration): (s: string)
    ensures |s| >= 10 && s[..10] == "fun_rule(["
    ensures var n := PyString.FormatNat(r.line);
      && |n| + 2 <= |s| && s[|s| - 2..] == ")\n" && s[|s| - 2 - |n|..|s| - 2] == n
      && PyString.ParseNat(s[|s| - 2 - |n|..|s| - 2]) == r.line
  {
    var head := "fun_rule([" + PyString.Join(Quoted(r.targets), ", ") + "], [" + PyString.Join(Quoted(r.sources), ", ")
                + "], f, \"" + r.file + "\", ";
    var n := PyString.FormatNat(r.line);
    PyString.ParseFormatNat(r.line);
    assert (head + n + ")\n")[..10] == head[..10];
    assert (head + n + ")\n")[|head| + |n|..] == ")\n";
    assert (head + n + ")\n")[|head|..|head| + |n|] == n;
    head + n + ")\n"
  }

  /** A piece of generated source: a line copied as it is, the `def` that
      replaces a header, or the text that closes a rule (a `pass` line at
      the header's indentation plus a tab when asked for, then the
      registration). */
  datatype Piece =
    | Copy(text: string)
    | Def(indent: string)
    | End(pass: bool, indent: string, reg: Registration)

  function Render(p: Piece): (s: string)
    ensures p.Copy? ==> s == p.text
    ensures p.Def? ==> s == p.indent + "def f():\n"
    ensures p.End? && !p.pass ==> s == RegistrationLine(p.reg)
    ensures p.End? && p.pass ==> s == p.indent + "\tpass\n" + RegistrationLine(p.reg)
  {
    match p
    case Copy(text) => text
    case Def(indent) => indent + "def f():\n"
    case End(pass, indent, reg) => (if pass then indent + "\tpass\n" else "") + RegistrationLine(reg)
  }

  /** The inner `make(f)` of `eval`, from the scanner's current `num`,
      `rnum`, `indent`, `targets` and `sources`: the `pass` line is added
      when at most one line came after the header. */
  function Make(path: string, num: nat, rnum: nat, indent: string, targets: seq<string>, sources: seq<string>): (p: Piece)
    ensures p.End? && p.reg == Registration(targets, sources, path, rnum + 1)
    ensures p.pass <==> num <= rnum + 1
  {
    End(num - rnum <= 1, indent, Registration(targets, sources, path, rnum + 1))
  }

  // -------------------------------------------------- the scanner, as values

  datatype Mode = Normal | InRule

  /** The variables of `eval`'s loop, with `out` the pieces appended to
      `source` so far and `regs` the registrations those pieces hold. */
  datatype ScanState = ScanState(
    num: nat, mode: Mode, indent: string, targets: seq<string>, sources: seq<string>, rnum: nat,
    out: seq<Piece>, regs: seq<Registration>)

  /** The translator's output: the pieces of generated source, in order, and
      the registrations made by the `fun_rule` lines among them. */
  datatype Translation = Translation(out: seq<Piece>, regs: seq<Registration>)

  const Start := ScanState(0, Normal, "", [], [], 0, [], [])

  /** What `eval` reads off a header line: the indentation, and the target
      and source lists split on whitespace. */
  datatype Head = Head(indent: string, targets: seq<string>, sources: seq<string>)

  /** A line of the script with what the two patterns say of it: the
      `rule_re` match, and the length of the leading blanks that
      `indent_re` measures. The loop consults one or the other; computing
      both up front changes nothing, since neither has side effects. */
  datatype Line = Line(text: string, head: Option<Head>, depth: nat)

  function HeadOf(h: Header): Head {
    Head(h.indent, PyString.Split(h.targets), PyString.Split(h.sources))
  }

  function Classify(l: string): (r: Line)
    ensures r.text == l
  {
    Line(l, match MatchRule(l) case None => None case Some(h) => Some(HeadOf(h)), |Indent(l)|)
  }

  /** The rules opened so far: those closed, plus the one still open. */
  function Opened(st: ScanState): nat {
    |st.regs| + if st.mode == InRule then 1 else 0
  }

  /** One turn of the loop over the script's lines. */
  function Step(path: string, st: ScanState, l: Line): ScanState {
    if st.mode == Normal then StepNormal(st, l) else StepInRule(path, st, l)
  }

  /** Outside a rule: a header line opens a rule and is replaced by the
      action's `def`; any other line is host code, copied as it is. */
  function StepNormal(st: ScanState, l: Line): ScanState {
    var num := st.num + 1;
    match l.head
    case None => st.(num := num, out := st.out + [Copy(l.text)])
    case Some(h) =>
      st.(num := num, mode := InRule, rnum := num, indent := h.indent,
          targets := h.targets, sources := h.sources, out := st.out + [Def(h.indent)])
  }

  /** Inside a rule: a line indented deeper than the header is body and is
      copied; any other line closes the rule, then is copied. */
  function StepInRule(path: string, st: ScanState, l: Line): ScanState {
    var num := st.num + 1;
    if l.depth <= |st.indent| then
      st.(num := num, mode := Normal,
          out := st.out + [Make(path, num, st.rnum, st.indent, st.targets, st.sources), Copy(l.text)],
          regs := st.regs + [Registration(st.targets, st.sources, path, st.rnum + 1)])
    else
      st.(num := num, out := st.out + [Copy(l.text)])
  }

  /** The loop's variables after the turns over the first `i` lines. */
  function Scan(path: string, lines: seq<string>, i: nat): ScanState
    requires i <= |lines|
  {
    if i == 0 then Start else Step(path, Scan(path, lines, i - 1), Classify(lines[i - 1]))
  }

  /** After the loop: a rule still open at the end of input is closed. */
  function Finish(path: string, st: ScanState): (r: Translation)
    ensures st.out <= r.out && st.regs <= r.regs && |r.regs| == Opened(st)
  {
    if st.mode == InRule then
      Translation(st.out + [Make(path, st.num, st.rnum, st.indent, st.targets, st.sources)],
                  st.regs + [Registration(st.targets, st.sources, path, st.rnum + 1)])
    else
      Translation(st.out, st.regs)
  }

  /** The four cases of one turn. */
  lemma StepCases(path: string, st: ScanState, l: Line)
    ensures var next := Step(path, st, l);
      && (st.mode == Normal && l.head.None? ==> next == st.(num := st.num + 1, out := st.out + [Copy(l.text)]))
      && (st.mode == Normal && l.head.Some? ==>
            var h := l.head.value;
            next == st.(num := st.num + 1, mode := InRule, rnum := st.num + 1, indent := h.indent,
                        targets := h.targets, sources := h.sources, out := st.out + [Def(h.indent)]))
      && (st.mode == InRule && l.depth <= |st.indent| ==>
            next == st.(num := st.num + 1, mode := Normal,
                        out := st.out + [Make(path, st.num + 1, st.rnum, st.indent, st.targets, st.sources), Copy(l.text)],
                        regs := st.regs + [Registration(st.targets, st.sources, path, st.rnum + 1)]))
      && (st.mode == InRule && l.depth > |st.indent| ==> next == st.(num := st.num + 1, out := st.out + [Copy(l.text)]))
  {
  }

  /** A turn counts the line, only appends to the generated source and to
      the registrations, and opens at most one rule. */
  lemma StepGrows(path: string, st: ScanState, l: Line)
    ensures var r := Step(path, st, l);
      && r.num == st.num + 1
      && st.out < r.out && st.regs <= r.regs
      && Opened(r) <= Opened(st) + 1
  {
  }

  /** What `Classify` reads off a line, in the terms `eval` uses. */
  lemma ClassifyCases(l: string)
    ensures Classify(l).text == l && Classify(l).depth == |Indent(l)|
    ensures MatchRule(l).None? ==> Classify(l).head.None?
    ensures MatchRule(l).Some? ==>
      var h := MatchRule(l).value;
      Classify(l).head == Some(Head(h.indent, PyString.Split(h.targets), PyString.Split(h.sources)))
  {
  }

  /** What `eval` generates from a script of `lines` read from `path`. */
  function Translate(path: string, lines: seq<string>): Translation {
    Finish(path, Scan(path, lines, |lines|))
  }

  /** The generated source: the pieces rendered and concatenated. */
  function Flatten(pieces: seq<Piece>): string {
    if pieces == [] then "" else Flatten(pieces[..|pieces| - 1]) + Render(pieces[|pieces| - 1])
  }

  lemma FlattenAppend(pieces: seq<Piece>, p: Piece)
    ensures Flatten(pieces + [p]) == Flatten(pieces) + Render(p)
  {
    assert (pieces + [p])[..|pieces|] == pieces;
  }

  /** The turn over a host line. */
  lemma HostTurn(path: string, st: ScanState, l: string)
    requires st.mode == Normal && MatchRule(l).None?
    ensures var n := Step(path, st, Classify(l));
      n.num == st.num + 1 && n.mode == st.mode && n.indent == st.indent && n.rnum == st.rnum
      && n.targets == st.targets && n.sources == st.sources && n.out == st.out + [Copy(l)] && n.regs == st.regs
  {
    StepCases(path, st, Classify(l));
    ClassifyCases(l);
  }

  /** The turn over a header line. */
  lemma HeaderTurn(path: string, st: ScanState, l: string)
    requires st.mode == Normal && MatchRule(l).Some?
    ensures var h, n := MatchRule(l).value, Step(path, st, Classify(l));
      n.num == st.num + 1 && n.mode == InRule && n.indent == h.indent && n.rnum == st.num + 1
      && n.targets == PyString.Split(h.targets) && n.sources == PyString.Split(h.sources)
      && n.out == st.out + [Def(h.indent)] && n.regs == st.regs
  {
    StepCases(path, st, Classify(l));
    ClassifyCases(l);
  }

  /** The turn over the line that ends a rule. */
  lemma CloseTurn(path: string, st: ScanState, l: string)
    requires st.mode == InRule && |Indent(l)| <= |st.indent|
    ensures var n := Step(path, st, Classify(l));
      n.num == st.num + 1 && n.mode == Normal && n.indent == st.indent && n.rnum == st.rnum
      && n.targets == st.targets && n.sources == st.sources
      && n.out == st.out + [Make(path, st.num + 1, st.rnum, st.indent, st.targets, st.sources), Copy(l)]
      && n.regs == st.regs + [Registration(st.targets, st.sources, path, st.rnum + 1)]
  {
    StepCases(path, st, Classify(l));
    ClassifyCases(l);
  }

  /** The turn over a body line. */
  lemma BodyTurn(path: string, st: ScanState, l: string)
    requires st.mode == InRule && |Indent(l)| > |st.indent|
    ensures var n := Step(path, st, Classify(l));
      n.num == st.num + 1 && n.mode == st.mode && n.indent == st.indent && n.rnum == st.rnum
      && n.targets == st.targets && n.sources == st.sources && n.out == st.out + [Copy(l)] && n.regs == st.regs
  {
    StepCases(path, st, Classify(l));
    ClassifyCases(l);
  }

  /** The text the turn that closes a rule appends. */
  lemma FlattenClose(pieces: seq<Piece>, made: Piece, l: string)
    ensures Flatten(pieces + [made, Copy(l)]) == Flatten(pieces) + Render(made) + l
  {
    FlattenAppend(pieces, made);
    FlattenAppend(pieces + [made], Copy(l));
    assert pieces + [made] + [Copy(l)] == pieces + [made, Copy(l)];
  }

  // ---------------------------------------------------------- Script.eval

  /** A line as iterating over a text file yields it: no newline but,
      possibly, its last character. */
  predicate IsLine(l: string) {
    forall i :: 0 <= i < |l| - 1 ==> l[i] != '\n'
  }

  /** A build script at `path`. Its fields are set once by the
      constructor; the `env` of host bindings is not modelled. */
  datatype Script = Script(path: string)
  {
    /** `eval`, up to the generated source: a two-state scan of the lines
        of the script. Compiling and running that source is not modelled.
        The ghost `st` follows the scan: `source` is the text of the pieces
        generated so far. */
    method Eval(lines: seq<string>) returns (source: string)
      requires forall i :: 0 <= i < |lines| ==> IsLine(lines[i])
      ensures source == Flatten(Translate(path, lines).out)
    {
      var file := path;
      var num: nat, mode, indent, targets, sources, rnum: nat := 0, Normal, "", [], [], 0;
      source := "";
      ghost var st := Start;
      for i := 0 to |lines|
        invariant st == Scan(file, lines, i)
        invariant num == st.num && mode == st.mode && indent == st.indent && rnum == st.rnum
        invariant targets == st.targets && sources == st.sources
        invariant source == Flatten(st.out)
      {
        var l := lines[i];
        num := num + 1;
        if mode == Normal {
          var m := MatchRule(l);
          if m.None? {
            HostTurn(file, st, l);
            FlattenAppend(st.out, Copy(l));
            source := source + l;
          } else {
            HeaderTurn(file, st, l);
            mode := InRule;
            rnum := num;
            indent := m.value.indent;
            targets := PyString.Split(m.value.targets);
            sources := PyString.Split(m.value.sources);
            FlattenAppend(st.out, Def(indent));
            source := source + (indent + "def f():\n");
          }
        } else {
          if |Indent(l)| <= |indent| {
            CloseTurn(file, st, l);
            mode := Normal;
            var made := Make(file, num, rnum, indent, targets, sources);
            FlattenClose(st.out, made, l);
            source := source + Render(made);
          } else {
            BodyTurn(file, st, l);
            FlattenAppend(st.out, Copy(l));
          }
          source := source + l;
        }
        st := Step(file, st, Classify(l));
      }
      if mode == InRule {
        var made := Make(file, num, rnum, indent, targets, sources);
        FlattenAppend(st.out, made);
        source := source + Render(made);
      }
    }
  }

  // ------------------------------------------------------------- fun_rule

  /** The module-level state of maat.py that `fun_rule` updates: the rule
      database `DB` and `first_goal`. */
  class Maat {
    const db: Rules.DataBase
    var firstGoal: Option<string>

    constructor (db: Rules.DataBase)
      ensures this.db == db && firstGoal == None
    {
      this.db := db;
      firstGoal := None;
    }

    /** `fun_rule(targets, sources, fun, file, line)`: build a `FunRule`
        located at `file:line`, add it to the database, and make its first
        target the default goal if there is none yet. With no default goal
        and no target, `targets[0]` raises IndexError (`ok == false`)
        after the rule has been added. */
    method FunRule(targets: seq<string>, sources: seq<string>, fun: string, file: string, line: int)
      returns (ok: bool, rule: Rules.Rule)
      requires db.Valid()
      modifies this, db
      ensures db.Valid() && fresh(rule)
      ensures rule.targets == targets && rule.sources == sources && rule.fun == Some(fun)
      ensures rule.file == Some(file) && rule.line == Some(line)
      ensures db.rules == old(db.rules) + [rule]
      ensures db.targetMap == old(db.targetMap) + map t | t in targets :: rule
      ensures ok <==> old(firstGoal).Some? || targets != []
      ensures old(firstGoal).Some? ==> firstGoal == old(firstGoal)
      ensures old(firstGoal).None? ==> firstGoal == if targets != [] then Some(targets[0]) else None
    {
      rule := new Rules.Rule.Fun(targets, sources, fun);
      rule.file := Some(file);
      rule.line := Some(line);
      db.Add(rule);
      ok := true;
      if firstGoal == None {
        if targets == [] {
          ok := false;
        } else {
          firstGoal := Some(targets[0]);
        }
      }
    }
  }
}
