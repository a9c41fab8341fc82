/** The build-script format read as a grammar of blocks, independently of
    the line scanner of `Script.eval`, and the proof that the scanner
    generates exactly what the blocks call for. */
module ScriptBlocks {
  import opened Wrappers
  import PyString
  import opened Script

  /** Every line of a script with what the patterns say of it. */
  function ClassifyAll(lines: seq<string>): (r: seq<Line>)
    ensures |r| == |lines|
    ensures forall i :: 0 <= i < |lines| ==> r[i] == Classify(lines[i])
  {
    if lines == [] then [] else [Classify(lines[0])] + ClassifyAll(lines[1..])
  }

  /** The scanner's variables after the turns over `ls`, from `st`: the
      same loop as `Scan`, read from the front. */
  function Run(path: string, st: ScanState, ls: seq<Line>): ScanState
    decreases |ls|
  {
    if ls == [] then st else Run(path, Step(path, st, ls[0]), ls[1..])
  }

  /** A script is a sequence of blocks: a host line, or a rule made of its
      header line, the body lines indented deeper than the header, and the
      line that ended it (none when the input ended first). `at` is the
      header's 1-based line number. */
  datatype Block =
    | Host(line: string)
    | RuleBlock(head: string, header: Head, at: nat, body: seq<string>, end: Option<string>)

  function Texts(ls: seq<Line>): (r: seq<string>)
    ensures |r| == |ls|
  {
    if ls == [] then [] else [ls[0].text] + Texts(ls[1..])
  }

  /** The number of body lines at the start of `rest`, for a rule whose
      header is indented by `indent` characters. */
  function BodyLen(indent: nat, rest: seq<Line>): (k: nat)
    ensures k <= |rest|
  {
    if rest == [] || rest[0].depth <= indent then 0 else 1 + BodyLen(indent, rest[1..])
  }

  /** Body lines are deeper than the header; the line after them is not. */
  lemma {:induction false} BodyLenBounds(indent: nat, rest: seq<Line>)
    ensures forall i :: 0 <= i < BodyLen(indent, rest) ==> rest[i].depth > indent
    ensures BodyLen(indent, rest) < |rest| ==> rest[BodyLen(indent, rest)].depth <= indent
    decreases |rest|
  {
    if rest != [] && rest[0].depth > indent {
      BodyLenBounds(indent, rest[1..]);
    }
  }

  /** How many lines the first block of `ls` takes: one for a host line;
      for a rule its header, its body and, unless the input ended first,
      the line that ended it. */
  function Consumed(ls: seq<Line>): (m: nat)
    requires ls != []
    ensures 1 <= m <= |ls|
  {
    match ls[0].head
    case None => 1
    case Some(h) =>
      var k := BodyLen(|h.indent|, ls[1..]);
      if k == |ls| - 1 then |ls| else k + 2
  }

  /** The first block of `ls` is a rule that the input ended. */
  predicate OpenAtEnd(ls: seq<Line>)
    requires ls != []
  {
    ls[0].head.Some? && BodyLen(|ls[0].head.value.indent|, ls[1..]) == |ls| - 1
  }

  /** The first block of `ls`, `n` lines having come before. */
  function First(ls: seq<Line>, n: nat): (b: Block)
    requires ls != []
  {
    match ls[0].head
    case None => Host(ls[0].text)
    case Some(h) =>
      var k := BodyLen(|h.indent|, ls[1..]);
      if k == |ls| - 1 then RuleBlock(ls[0].text, h, n + 1, Texts(ls[1..]), None)
      else RuleBlock(ls[0].text, h, n + 1, Texts(ls[1..k + 1]), Some(ls[k + 1].text))
  }

  /** The lines cut into blocks, `n` lines having come before. The line
      that ends a rule belongs to that rule: it is never read as the header
      of another. */
  function Parse(ls: seq<Line>, n: nat): seq<Block>
    decreases |ls|
  {
    if ls == [] then []
    else [First(ls, n)] + Parse(ls[Consumed(ls)..], n + Consumed(ls))
  }

  /** The blocks of a script. */
  function Blocks(lines: seq<string>): seq<Block> {
    Parse(ClassifyAll(lines), 0)
  }

  /** The lines a block stands for. */
  function LinesOf(b: Block): seq<string> {
    match b
    case Host(l) => [l]
    case RuleBlock(head, _, _, body, end) => [head] + body + (if end.Some? then [end.value] else [])
  }

  function AllLines(bs: seq<Block>): seq<string> {
    if bs == [] then [] else LinesOf(bs[0]) + AllLines(bs[1..])
  }

  lemma AllLinesCons(b: Block, bs: seq<Block>)
    ensures AllLines([b] + bs) == LinesOf(b) + AllLines(bs)
  {
    assert ([b] + bs)[1..] == bs;
  }

  lemma {:induction false} TextsAppend(a: seq<Line>, b: seq<Line>)
    ensures Texts(a + b) == Texts(a) + Texts(b)
    decreases |a|
  {
    if a != [] {
      assert (a + b)[1..] == a[1..] + b;
      TextsAppend(a[1..], b);
    } else {
      assert a + b == b;
    }
  }

  lemma TextsOne(l: Line)
    ensures Texts([l]) == [l.text]
  {
  }

  /** The first block stands for exactly the lines it consumed. */
  lemma FirstLines(ls: seq<Line>, n: nat)
    requires ls != []
    ensures LinesOf(First(ls, n)) == Texts(ls[..Consumed(ls)])
  {
    var m := Consumed(ls);
    TextsOne(ls[0]);
    match ls[0].head
    case None =>
      assert ls[..m] == [ls[0]];
    case Some(h) =>
      var k := BodyLen(|h.indent|, ls[1..]);
      if k == |ls| - 1 {
        assert ls[..m] == [ls[0]] + ls[1..];
        TextsAppend([ls[0]], ls[1..]);
      } else {
        assert ls[..m] == [ls[0]] + ls[1..k + 1] + [ls[k + 1]];
        TextsAppend([ls[0]] + ls[1..k + 1], [ls[k + 1]]);
        TextsAppend([ls[0]], ls[1..k + 1]);
        TextsOne(ls[k + 1]);
      }
  }

  lemma ParseUnfold(ls: seq<Line>, n: nat)
    requires ls != []
    ensures Parse(ls, n) == [First(ls, n)] + Parse(ls[Consumed(ls)..], n + Consumed(ls))
  {
  }

  lemma CoversStep(ls: seq<Line>, n: nat)
    requires ls != []
    requires AllLines(Parse(ls[Consumed(ls)..], n + Consumed(ls))) == Texts(ls[Consumed(ls)..])
    ensures AllLines(Parse(ls, n)) == Texts(ls)
  {
    var m := Consumed(ls);
    ParseUnfold(ls, n);
    AllLinesCons(First(ls, n), Parse(ls[m..], n + m));
    FirstLines(ls, n);
    TextsAppend(ls[..m], ls[m..]);
    assert ls[..m] + ls[m..] == ls;
  }

  /** Cutting into blocks loses no line and repeats none. */
  lemma {:induction false} ParseCovers(ls: seq<Line>, n: nat)
    ensures AllLines(Parse(ls, n)) == Texts(ls)
    decreases |ls|
  {
    if ls != [] {
      ParseCovers(ls[Consumed(ls)..], n + Consumed(ls));
      CoversStep(ls, n);
    }
  }

  lemma {:induction false} TextsClassified(lines: seq<string>)
    ensures Texts(ClassifyAll(lines)) == lines
    decreases |lines|
  {
    if lines != [] {
      TextsClassified(lines[1..]);
      assert ClassifyAll(lines)[1..] == ClassifyAll(lines[1..]);
    }
  }

  /** Every line of the script is in exactly one block, in order. */
  lemma BlocksCover(lines: seq<string>)
    ensures AllLines(Blocks(lines)) == lines
  {
    ParseCovers(ClassifyAll(lines), 0);
    TextsClassified(lines);
  }

  /** A rule gets a `pass` line when its body is empty, and also, at the end
      of input, when its body has a single line. */
  predicate NeedsPass(b: Block)
    requires b.RuleBlock?
  {
    if b.end.Some? then b.body == [] else |b.body| <= 1
  }

  /** Lines copied as they are. */
  function Copies(ts: seq<string>): (r: seq<Piece>)
    ensures |r| == |ts|
  {
    if ts == [] then [] else [Copy(ts[0])] + Copies(ts[1..])
  }

  /** What the translator generates for one block: a host line is copied;
      a rule's header becomes a `def`, its body is copied, then come the
      closing piece (with its registration) and the line that ended it. */
  function Emit(path: string, b: Block): Translation {
    match b
    case Host(l) => Translation([Copy(l)], [])
    case RuleBlock(_, h, at, body, end) =>
      var reg := Registration(h.targets, h.sources, path, at + 1);
      Translation(
        [Def(h.indent)] + Copies(body) + [End(NeedsPass(b), h.indent, reg)]
        + (if end.Some? then [Copy(end.value)] else []),
        [reg])
  }

  function Concat(a: Translation, b: Translation): Translation {
    Translation(a.out + b.out, a.regs + b.regs)
  }

  function EmitAll(path: string, bs: seq<Block>): Translation {
    if bs == [] then Translation([], []) else Concat(Emit(path, bs[0]), EmitAll(path, bs[1..]))
  }

  lemma EmitAllCons(path: string, b: Block, bs: seq<Block>)
    ensures EmitAll(path, [b] + bs) == Concat(Emit(path, b), EmitAll(path, bs))
  {
    assert ([b] + bs)[1..] == bs;
  }

  /** The scanner over two stretches of lines is the scanner over the
      second, started where the first left off. */
  lemma {:induction false} RunAppend(path: string, st: ScanState, a: seq<Line>, b: seq<Line>)
    ensures Run(path, st, a + b) == Run(path, Run(path, st, a), b)
    decreases |a|
  {
    if a == [] {
      assert a + b == b;
    } else {
      assert (a + b)[1..] == a[1..] + b;
      RunAppend(path, Step(path, st, a[0]), a[1..], b);
    }
  }

  /** One line is one turn. */
  lemma RunOne(path: string, st: ScanState, l: Line)
    ensures Run(path, st, [l]) == Step(path, st, l)
  {
    assert [l][1..] == [];
  }

  /** Sequence facts, stated apart from any line so that proving them
      does not unfold what the lines are. */
  lemma SnocPrefix<T>(s: seq<T>, i: nat)
    requires 0 < i <= |s|
    ensures s[..i] == s[..i - 1] + [s[i - 1]]
  {
  }

  lemma WholePrefix<T>(s: seq<T>)
    ensures s[..|s|] == s
  {
  }

  /** One more line is one more turn. */
  lemma RunSnoc(path: string, st: ScanState, ls: seq<Line>, l: Line)
    ensures Run(path, st, ls + [l]) == Step(path, Run(path, st, ls), l)
  {
    RunAppend(path, st, ls, [l]);
    RunOne(path, Run(path, st, ls), l);
  }

  /** The loop of `eval`, counted from the back, and the scanner read from
      the front, agree. */
  lemma {:induction false} ScanIsRun(path: string, lines: seq<string>, i: nat)
    requires i <= |lines|
    ensures Scan(path, lines, i) == Run(path, Start, ClassifyAll(lines)[..i])
  {
    if i > 0 {
      var ls := ClassifyAll(lines);
      ScanIsRun(path, lines, i - 1);
      SnocPrefix(ls, i);
      RunSnoc(path, Start, ls[..i - 1], ls[i - 1]);
    }
  }

  /** Over `ls`, the scanner counts every line, generates at least one
      piece per line and opens at most one rule per line. */
  lemma {:induction false} RunCounts(path: string, st: ScanState, ls: seq<Line>)
    ensures var r := Run(path, st, ls);
      && r.num == st.num + |ls|
      && st.out <= r.out && |st.out| + |ls| <= |r.out|
      && st.regs <= r.regs && Opened(r) <= Opened(st) + |ls|
    decreases |ls|
  {
    if ls != [] {
      var next := Step(path, st, ls[0]);
      StepGrows(path, st, ls[0]);
      RunCounts(path, next, ls[1..]);
    }
  }

  /** `eval` makes at most one registration per line of the script, and
      generates at least one piece of source per line. */
  lemma TranslateCounts(path: string, lines: seq<string>)
    ensures |Translate(path, lines).regs| <= |lines| <= |Translate(path, lines).out|
  {
    ScanIsRun(path, lines, |lines|);
    WholePrefix(ClassifyAll(lines));
    RunCounts(path, Start, ClassifyAll(lines));
  }

  /** In a rule, the scanner copies body lines one by one. */
  lemma {:induction false} BodyRun(path: string, st: ScanState, body: seq<Line>)
    requires st.mode == InRule
    requires forall i :: 0 <= i < |body| ==> body[i].depth > |st.indent|
    ensures Run(path, st, body) == st.(num := st.num + |body|, out := st.out + Copies(Texts(body)))
    decreases |body|
  {
    if body != [] {
      var st1 := st.(num := st.num + 1, out := st.out + [Copy(body[0].text)]);
      assert Step(path, st, body[0]) == StepInRule(path, st, body[0]) == st1;
      BodyRun(path, st1, body[1..]);
      assert ([body[0].text] + Texts(body[1..]))[1..] == Texts(body[1..]);
      assert st1.out + Copies(Texts(body[1..])) == st.out + Copies(Texts(body));
    } else {
      assert st.out + [] == st.out;
    }
  }

  /** The state right after a header line. */
  lemma HeaderStep(path: string, st: ScanState, l: Line, h: Head)
    requires st.mode == Normal && l.head == Some(h)
    ensures Step(path, st, l) == st.(num := st.num + 1, mode := InRule, rnum := st.num + 1, indent := h.indent,
      targets := h.targets, sources := h.sources, out := st.out + [Def(h.indent)])
  {
  }

  /** A host line is copied. */
  lemma HostRun(path: string, st: ScanState, ls: seq<Line>)
    requires st.mode == Normal && ls != [] && ls[0].head == None
    ensures Run(path, st, ls[..1]) == st.(num := st.num + 1, out := st.out + Emit(path, First(ls, st.num)).out)
  {
    assert ls[..1] == [ls[0]] && ls[..1][1..] == [];
    assert Step(path, st, ls[0]) == StepNormal(st, ls[0]);
  }

  /** The line that ends a rule: the rule's closing line, then the line. */
  lemma CloseStep(path: string, st: ScanState, t: Line)
    requires st.mode == InRule && t.depth <= |st.indent|
    ensures Step(path, st, t) == st.(num := st.num + 1, mode := Normal,
      out := st.out + [Make(path, st.num + 1, st.rnum, st.indent, st.targets, st.sources), Copy(t.text)],
      regs := st.regs + [Registration(st.targets, st.sources, path, st.rnum + 1)])
  {
  }

  /** The first block of `ls` is a rule that a shallower line ends. */
  lemma ClosedFirst(ls: seq<Line>, n: nat, h: Head, k: nat)
    requires ls != [] && ls[0].head == Some(h)
    requires k == BodyLen(|h.indent|, ls[1..]) && k < |ls| - 1
    ensures First(ls, n) == RuleBlock(ls[0].text, h, n + 1, Texts(ls[1..k + 1]), Some(ls[k + 1].text))
    ensures Consumed(ls) == k + 2
  {
  }

  /** The scanner over a rule that a shallower line ends. */
  lemma ClosedScan(path: string, st: ScanState, ls: seq<Line>, h: Head, k: nat)
    requires st.mode == Normal && ls != [] && ls[0].head == Some(h)
    requires k == BodyLen(|h.indent|, ls[1..]) && k < |ls| - 1
    ensures var n, ts, ss := st.num, h.targets, h.sources;
            Run(path, st, ls[..k + 2]) == st.(num := n + k + 2, mode := Normal, rnum := n + 1, indent := h.indent,
              targets := ts, sources := ss,
              out := st.out + [Def(h.indent)] + Copies(Texts(ls[1..k + 1]))
                     + [Make(path, n + k + 2, n + 1, h.indent, ts, ss), Copy(ls[k + 1].text)],
              regs := st.regs + [Registration(ts, ss, path, n + 2)])
  {
    var body := ls[1..k + 1];
    var t := ls[k + 1];
    HeaderStep(path, st, ls[0], h);
    var st1 := Step(path, st, ls[0]);
    BodyLenBounds(|h.indent|, ls[1..]);
    assert forall i :: 0 <= i < |body| ==> body[i] == ls[1..][i];
    BodyRun(path, st1, body);
    var st2 := Run(path, st1, body);
    assert t == ls[1..][k];
    CloseStep(path, st2, t);
    assert ls[..k + 2] == [ls[0]] + body + [t];
    RunAppend(path, st, [ls[0]], body);
    RunAppend(path, st, [ls[0]] + body, [t]);
    RunOne(path, st, ls[0]);
    RunOne(path, st2, t);
  }

  /** A rule that a shallower line ends: the scanner emits the rule's block
      and is back outside any rule. */
  lemma ClosedRun(path: string, st: ScanState, ls: seq<Line>, h: Head, k: nat)
    requires st.mode == Normal && ls != [] && ls[0].head == Some(h)
    requires k == BodyLen(|h.indent|, ls[1..]) && k < |ls| - 1
    ensures var r := Run(path, st, ls[..k + 2]);
            var e := Emit(path, First(ls, st.num));
            r.mode == Normal && r.num == st.num + k + 2 && r.out == st.out + e.out && r.regs == st.regs + e.regs
  {
    var n := st.num;
    ClosedScan(path, st, ls, h, k);
    ClosedFirst(ls, n, h, k);
    var b := First(ls, n);
    assert |Texts(ls[1..k + 1])| == k;
    assert Make(path, n + k + 2, n + 1, h.indent, h.targets, h.sources)
        == End(NeedsPass(b), h.indent, Registration(h.targets, h.sources, path, n + 2));
  }

  /** A rule still open at the end of input: `Finish` closes it. */
  lemma OpenRun(path: string, st: ScanState, ls: seq<Line>, h: Head)
    requires st.mode == Normal && ls != [] && ls[0].head == Some(h)
    requires BodyLen(|h.indent|, ls[1..]) == |ls| - 1
    ensures Finish(path, Run(path, st, ls)) == Concat(Translation(st.out, st.regs), Emit(path, First(ls, st.num)))
  {
    var n := st.num;
    var body := ls[1..];
    var st1 := Step(path, st, ls[0]);
    HeaderStep(path, st, ls[0], h);
    BodyLenBounds(|h.indent|, body);
    BodyRun(path, st1, body);
    assert Run(path, st, ls) == Run(path, st1, body);
    var b := First(ls, n);
    assert b == RuleBlock(ls[0].text, h, n + 1, Texts(body), None);
    assert Make(path, n + 1 + |body|, n + 1, h.indent, h.targets, h.sources)
        == End(NeedsPass(b), h.indent, Registration(h.targets, h.sources, path, n + 2));
  }

  /** The first block, when it is not a rule left open at the end of input:
      the scanner emits it and is back outside any rule. */
  lemma FirstRun(path: string, st: ScanState, ls: seq<Line>)
    requires st.mode == Normal && ls != [] && !OpenAtEnd(ls)
    ensures var r := Run(path, st, ls[..Consumed(ls)]);
            var e := Emit(path, First(ls, st.num));
            r.mode == Normal && r.num == st.num + Consumed(ls) && r.out == st.out + e.out && r.regs == st.regs + e.regs
  {
    match ls[0].head
    case None =>
      HostRun(path, st, ls);
      assert st.regs + [] == st.regs;
    case Some(h) =>
      ClosedRun(path, st, ls, h, BodyLen(|h.indent|, ls[1..]));
  }

  /** The case of `NormalRun` where the first block is a rule left open at
      the end of input. */
  lemma NormalOpen(path: string, st: ScanState, ls: seq<Line>)
    requires st.mode == Normal && ls != [] && OpenAtEnd(ls)
    ensures Finish(path, Run(path, st, ls))
            == Concat(Translation(st.out, st.regs), EmitAll(path, Parse(ls, st.num)))
  {
    var b := First(ls, st.num);
    ParseUnfold(ls, st.num);
    OpenRun(path, st, ls, ls[0].head.value);
    assert ls[|ls|..] == [];
    EmitAllCons(path, b, []);
    assert Emit(path, b).out + [] == Emit(path, b).out && Emit(path, b).regs + [] == Emit(path, b).regs;
  }

  /** The case of `NormalRun` where the first block is followed by more
      lines, given what the scanner does with those. */
  lemma NormalNext(path: string, st: ScanState, ls: seq<Line>, m: nat, r: ScanState, rest: Translation)
    requires st.mode == Normal && ls != [] && !OpenAtEnd(ls)
    requires m == Consumed(ls) && r == Run(path, st, ls[..m])
    requires rest == EmitAll(path, Parse(ls[m..], r.num))
    requires Finish(path, Run(path, r, ls[m..])) == Concat(Translation(r.out, r.regs), rest)
    ensures Finish(path, Run(path, st, ls))
            == Concat(Translation(st.out, st.regs), EmitAll(path, Parse(ls, st.num)))
  {
    var n := st.num;
    var e := Emit(path, First(ls, n));
    var t := Translation(st.out, st.regs);
    assert Run(path, st, ls) == Run(path, r, ls[m..]) by {
      RunSplit(path, st, ls, m);
    }
    assert r.num == n + m && Translation(r.out, r.regs) == Concat(t, e) by {
      FirstRun(path, st, ls);
    }
    EmitSplit(path, ls, n, m, r.num);
    ConcatAssoc(t, e, rest);
  }

  lemma RunSplit(path: string, st: ScanState, ls: seq<Line>, m: nat)
    requires m <= |ls|
    ensures Run(path, st, ls) == Run(path, Run(path, st, ls[..m]), ls[m..])
  {
    assert ls == ls[..m] + ls[m..];
    RunAppend(path, st, ls[..m], ls[m..]);
  }

  lemma EmitSplit(path: string, ls: seq<Line>, n: nat, m: nat, k: nat)
    requires ls != [] && m == Consumed(ls) && k == n + m
    ensures EmitAll(path, Parse(ls, n)) == Concat(Emit(path, First(ls, n)), EmitAll(path, Parse(ls[m..], k)))
  {
    ParseUnfold(ls, n);
    EmitAllCons(path, First(ls, n), Parse(ls[m..], k));
  }


  lemma ConcatAssoc(a: Translation, b: Translation, c: Translation)
    ensures Concat(Concat(a, b), c) == Concat(a, Concat(b, c))
  {
    assert (a.out + b.out) + c.out == a.out + (b.out + c.out);
    assert (a.regs + b.regs) + c.regs == a.regs + (b.regs + c.regs);
  }

  /** From a state outside any rule, the scanner generates what the blocks
      of the remaining lines call for. */
  lemma {:induction false} NormalRun(path: string, st: ScanState, ls: seq<Line>)
    requires st.mode == Normal
    ensures Finish(path, Run(path, st, ls))
            == Concat(Translation(st.out, st.regs), EmitAll(path, Parse(ls, st.num)))
    decreases |ls|
  {
    if ls == [] {
      assert st.out + [] == st.out && st.regs + [] == st.regs;
    } else if OpenAtEnd(ls) {
      NormalOpen(path, st, ls);
    } else {
      var m := Consumed(ls);
      var r := Run(path, st, ls[..m]);
      FirstRun(path, st, ls);
      NormalRun(path, r, ls[m..]);
      NormalNext(path, st, ls, m, r, EmitAll(path, Parse(ls[m..], r.num)));
    }
  }

  /** The scanner and the block grammar agree on the whole script. */
  lemma TranslateByBlocks(path: string, lines: seq<string>)
    ensures Translate(path, lines) == EmitAll(path, Blocks(lines))
  {
    ScanIsRun(path, lines, |lines|);
    WholePrefix(ClassifyAll(lines));
    NormalRun(path, Start, ClassifyAll(lines));
  }

  // ------------------------------------------------------ what blocks are

  /** Lines as the classifier `f` reads them. The blocks are built from
      `Classify`; the facts below hold for any classifier, which keeps
      the patterns out of their proofs. */
  predicate Classified(ls: seq<Line>, f: string -> Line) {
    forall i :: 0 <= i < |ls| ==> ls[i] == f(ls[i].text)
  }

  /** A block as the classifier `f` delimits it: a host line is not a
      header; a rule opens at a header line, its body lines are indented
      deeper than the header, and the line that ended it is not. */
  predicate WellFormed(b: Block, f: string -> Line) {
    match b
    case Host(l) => f(l).head.None?
    case RuleBlock(head, h, _, body, end) =>
      && f(head).head == Some(h)
      && (forall i :: 0 <= i < |body| ==> f(body[i]).depth > |h.indent|)
      && (end.Some? ==> f(end.value).depth <= |h.indent|)
  }

  lemma {:induction false} TextsAt(ls: seq<Line>, i: nat)
    requires i < |ls|
    ensures Texts(ls)[i] == ls[i].text
    decreases i
  {
    if i > 0 {
      TextsAt(ls[1..], i - 1);
    }
  }

  lemma ClassifiedSuffix(ls: seq<Line>, f: string -> Line, m: nat)
    requires Classified(ls, f) && m <= |ls|
    ensures Classified(ls[m..], f)
  {
    forall i | 0 <= i < |ls| - m ensures ls[m..][i] == f(ls[m..][i].text) {
      assert ls[m..][i] == ls[m + i];
    }
  }

  /** The lines after a header, up to the body's end, are body lines. */
  lemma BodyDeeper(ls: seq<Line>, f: string -> Line, h: Head, j: nat, body: seq<string>)
    requires Classified(ls, f) && ls != []
    requires j <= BodyLen(|h.indent|, ls[1..]) && body == Texts(ls[1..j + 1])
    ensures forall i :: 0 <= i < |body| ==> f(body[i]).depth > |h.indent|
  {
    BodyLenBounds(|h.indent|, ls[1..]);
    forall i | 0 <= i < |body| ensures f(body[i]).depth > |h.indent| {
      TextsAt(ls[1..j + 1], i);
      assert ls[1..j + 1][i] == ls[1..][i] == ls[i + 1];
    }
  }

  lemma FirstWellFormed(ls: seq<Line>, f: string -> Line, n: nat)
    requires Classified(ls, f) && ls != []
    ensures WellFormed(First(ls, n), f)
  {
    assert ls[0] == f(ls[0].text);
    match ls[0].head
    case None =>
    case Some(h) =>
      var k := BodyLen(|h.indent|, ls[1..]);
      BodyLenBounds(|h.indent|, ls[1..]);
      BodyDeeper(ls, f, h, k, Texts(ls[1..k + 1]));
      if k == |ls| - 1 {
        assert ls[1..k + 1] == ls[1..];
      } else {
        assert ls[k + 1] == ls[1..][k];
      }
  }

  predicate AllWellFormed(bs: seq<Block>, f: string -> Line) {
    forall i :: 0 <= i < |bs| ==> WellFormed(bs[i], f)
  }

  lemma {:induction false} ParseWellFormed(ls: seq<Line>, f: string -> Line, n: nat)
    requires Classified(ls, f)
    ensures AllWellFormed(Parse(ls, n), f)
    decreases |ls|
  {
    if ls != [] {
      var m := Consumed(ls);
      ClassifiedSuffix(ls, f, m);
      ParseWellFormed(ls[m..], f, n + m);
      WellFormedStep(ls, f, n);
    }
  }

  lemma WellFormedStep(ls: seq<Line>, f: string -> Line, n: nat)
    requires Classified(ls, f) && ls != []
    requires AllWellFormed(Parse(ls[Consumed(ls)..], n + Consumed(ls)), f)
    ensures AllWellFormed(Parse(ls, n), f)
  {
    var m := Consumed(ls);
    ParseUnfold(ls, n);
    FirstWellFormed(ls, f, n);
    WellFormedCons(First(ls, n), Parse(ls[m..], n + m), f);
  }

  lemma WellFormedCons(b: Block, bs: seq<Block>, f: string -> Line)
    requires WellFormed(b, f) && AllWellFormed(bs, f)
    ensures AllWellFormed([b] + bs, f)
  {
    var cs := [b] + bs;
    forall i | 0 <= i < |cs| ensures WellFormed(cs[i], f) {
      if i > 0 {
        assert cs[i] == bs[i - 1];
      }
    }
  }

  /** Every block of a script is delimited as the patterns say. */
  lemma BlocksWellFormed(lines: seq<string>)
    ensures AllWellFormed(Blocks(lines), Classify)
  {
    var ls := ClassifyAll(lines);
    assert Classified(ls, Classify);
    ParseWellFormed(ls, Classify, 0);
  }

  /** Each rule block records the 1-based number of its header line, `n`
      lines having come before the first block. */
  ghost predicate Numbered(bs: seq<Block>, n: nat)
    decreases |bs|
  {
    bs != [] ==> (bs[0].RuleBlock? ==> bs[0].at == n + 1) && Numbered(bs[1..], n + |LinesOf(bs[0])|)
  }

  lemma {:induction false} ParseNumbered(ls: seq<Line>, n: nat)
    ensures Numbered(Parse(ls, n), n)
    decreases |ls|
  {
    if ls != [] {
      var m := Consumed(ls);
      ParseNumbered(ls[m..], n + m);
      NumberedStep(ls, n);
    }
  }

  lemma NumberedStep(ls: seq<Line>, n: nat)
    requires ls != []
    requires Numbered(Parse(ls[Consumed(ls)..], n + Consumed(ls)), n + Consumed(ls))
    ensures Numbered(Parse(ls, n), n)
  {
    var m := Consumed(ls);
    FirstAt(ls, n);
    FirstLines(ls, n);
    NumberedCons(First(ls, n), Parse(ls[m..], n + m), n);
    ParseUnfold(ls, n);
  }

  lemma FirstAt(ls: seq<Line>, n: nat)
    requires ls != []
    ensures First(ls, n).RuleBlock? ==> First(ls, n).at == n + 1
  {
  }

  lemma NumberedCons(b: Block, bs: seq<Block>, n: nat)
    requires b.RuleBlock? ==> b.at == n + 1
    requires Numbered(bs, n + |LinesOf(b)|)
    ensures Numbered([b] + bs, n)
  {
    assert ([b] + bs)[1..] == bs;
  }


  /** In numbered blocks, a rule block's `at` follows the lines of the
      blocks before it. */
  lemma {:induction false} NumberedAt(bs: seq<Block>, n: nat, i: nat)
    requires Numbered(bs, n) && i < |bs| && bs[i].RuleBlock?
    ensures bs[i].at == n + |AllLines(bs[..i])| + 1
    decreases i
  {
    if i == 0 {
      assert bs[..0] == [];
    } else {
      NumberedAt(bs[1..], n + |LinesOf(bs[0])|, i - 1);
      NumberedAtStep(bs, i);
    }
  }

  lemma NumberedAtStep(bs: seq<Block>, i: nat)
    requires 0 < i < |bs|
    ensures |AllLines(bs[..i])| == |LinesOf(bs[0])| + |AllLines(bs[1..][..i - 1])|
  {
    assert bs[..i] == [bs[0]] + bs[1..][..i - 1];
    AllLinesCons(bs[0], bs[1..][..i - 1]);
  }

  /** The lines of the blocks before index `i` are followed by the first
      line of block `i`. */
  lemma AllLinesAt(bs: seq<Block>, i: nat)
    requires i < |bs|
    ensures var k := |AllLines(bs[..i])|; k < |AllLines(bs)| && AllLines(bs)[k] == LinesOf(bs[i])[0]
  {
    assert bs == bs[..i] + ([bs[i]] + bs[i + 1..]);
    AllLinesSplit(bs[..i], [bs[i]] + bs[i + 1..]);
    AllLinesCons(bs[i], bs[i + 1..]);
  }

  lemma {:induction false} AllLinesSplit(a: seq<Block>, b: seq<Block>)
    ensures AllLines(a + b) == AllLines(a) + AllLines(b)
    decreases |a|
  {
    if a == [] {
      assert a + b == b;
    } else {
      assert (a + b)[1..] == a[1..] + b;
      AllLinesSplit(a[1..], b);
    }
  }

  /** The `at` of every rule block is the number of its header line in
      the script: the line after all the lines of the blocks before it. */
  lemma BlocksNumbered(lines: seq<string>, i: nat)
    requires i < |Blocks(lines)| && Blocks(lines)[i].RuleBlock?
    ensures var b := Blocks(lines)[i];
      1 <= b.at <= |lines| && lines[b.at - 1] == b.head && b.at == |AllLines(Blocks(lines)[..i])| + 1
  {
    var bs := Blocks(lines);
    assert Numbered(bs, 0) by {
      ParseNumbered(ClassifyAll(lines), 0);
    }
    assert AllLines(bs) == lines by {
      BlocksCover(lines);
    }
    NumberedHeader(bs, lines, i);
  }

  /** The same, for any numbered blocks that cover `lines`. */
  lemma NumberedHeader(bs: seq<Block>, lines: seq<string>, i: nat)
    requires Numbered(bs, 0) && AllLines(bs) == lines && i < |bs| && bs[i].RuleBlock?
    ensures 1 <= bs[i].at <= |lines| && lines[bs[i].at - 1] == bs[i].head
    ensures bs[i].at == |AllLines(bs[..i])| + 1
  {
    NumberedAt(bs, 0, i);
    AllLinesAt(bs, i);
  }

  // ------------------------------------------------------- registrations

  /** The registration each rule block calls for, in order: its targets
      and sources, and the line after its header. */
  function Registrations(path: string, bs: seq<Block>): seq<Registration> {
    if bs == [] then []
    else
      (if bs[0].RuleBlock? then [Registration(bs[0].header.targets, bs[0].header.sources, path, bs[0].at + 1)] else [])
      + Registrations(path, bs[1..])
  }

  lemma {:induction false} EmitAllRegistrations(path: string, bs: seq<Block>)
    ensures EmitAll(path, bs).regs == Registrations(path, bs)
    decreases |bs|
  {
    if bs != [] {
      EmitAllRegistrations(path, bs[1..]);
    }
  }

  /** Every rule block, and nothing else, makes exactly one registration,
      in the order of the script. */
  lemma TranslateRegistrations(path: string, lines: seq<string>)
    ensures Translate(path, lines).regs == Registrations(path, Blocks(lines))
  {
    TranslateByBlocks(path, lines);
    EmitAllRegistrations(path, Blocks(lines));
  }

  /** The first block when the line after a header is not deeper. */
  lemma EndsAtNext(ls: seq<Line>, h: Head)
    requires |ls| >= 2 && ls[0].head == Some(h) && ls[1].depth <= |h.indent|
    ensures Parse(ls, 0)[0] == RuleBlock(ls[0].text, h, 1, [], Some(ls[1].text))
  {
    assert BodyLen(|h.indent|, ls[1..]) == 0;
    assert Texts(ls[1..1]) == [];
  }

  /** A line right after a header and indented no deeper than it ends the
      rule, even when it is a header itself: the first rule has an empty
      body (so it gets a `pass`), and the second header is copied as host
      code rather than opening a rule. */
  lemma HeaderEndsRule(a: string, b: string, rest: seq<string>)
    requires MatchRule(a).Some? && |Indent(b)| <= |MatchRule(a).value.indent|
    ensures Blocks([a, b] + rest)[0] == RuleBlock(a, HeadOf(MatchRule(a).value), 1, [], Some(b))
    ensures NeedsPass(Blocks([a, b] + rest)[0])
  {
    var lines := [a, b] + rest;
    var ls := ClassifyAll(lines);
    var h := HeadOf(MatchRule(a).value);
    assert |ls| >= 2 && ls[0] == Classify(a) && ls[1] == Classify(b) by {
      assert lines[0] == a && lines[1] == b;
    }
    assert ls[0].head == Some(h) && ls[1].depth <= |h.indent| by {
      ClassifyCases(a);
      ClassifyCases(b);
    }
    EndsAtNext(ls, h);
  }
}
