/** Common facilities of maat/common.py: the string part of `Path`, the
    filter predicates with their renderings, the `filter()` dispatcher and
    `as_list`. Everything here is a value: nothing is updated after
    construction. */
module Common {
  import opened Wrappers
  import PyString

  // ---------------------------------------------------------------- paths

  /** A `Path` object: it only wraps its path string. */
  datatype Path = Path(path: string)

  /** What `Path(...)`, `str(...)` or `prefixed_by(...)` may receive: a
      `Path`, or any other value, represented by the text `str()` gives it. */
  datatype PathArg = OfPath(p: Path) | OfValue(text: string)

  /** `str(a)`: a `Path` renders as its path string. */
  function Str(a: PathArg): string {
    match a
    case OfPath(p) => p.path
    case OfValue(t) => t
  }

  /** `Path(a)`: a `Path` argument has its string copied, anything else is
      converted with `str()`. */
  function NewPath(a: PathArg): (r: Path)
    ensures a.OfPath? ==> r == a.p
    ensures a.OfValue? ==> r.path == a.text
  {
    Path(Str(a))
  }

  /** `p + ext`: the path string with `ext` appended. */
  function Add(p: Path, ext: string): (r: Path)
    ensures |r.path| == |p.path| + |ext|
    ensures r.path[..|p.path|] == p.path && r.path[|p.path|..] == ext
  {
    Path(p.path + ext)
  }

  /** `p.is_empty()`. */
  function IsEmpty(p: Path): (r: bool)
    ensures r <==> |p.path| == 0
  {
    p.path == ""
  }

  /** `p.prefixed_by(q)`: the path string starts with `str(q)`. */
  function PrefixedBy(p: Path, q: PathArg): (r: bool)
    ensures r <==> |Str(q)| <= |p.path| && p.path[..|Str(q)|] == Str(q)
  {
    Str(q) <= p.path
  }

  /** A path extended by `+` is prefixed by the original path. */
  lemma AddPrefixed(p: Path, ext: string)
    ensures PrefixedBy(Add(p, ext), OfPath(p))
  {
  }

  /** Two extensions in a row are one extension by the concatenation. */
  lemma AddAdd(p: Path, a: string, b: string)
    ensures Add(Add(p, a), b) == Add(p, a + b)
  {
    assert p.path + a + b == p.path + (a + b);
  }

  /** `prefixed_by` is transitive. */
  lemma PrefixedByTransitive(p: Path, q: Path, r: Path)
    requires PrefixedBy(p, OfPath(q)) && PrefixedBy(q, OfPath(r))
    ensures PrefixedBy(p, OfPath(r))
  {
    assert p.path[..|r.path|] == p.path[..|q.path|][..|r.path|];
  }

  /** Two paths each prefixed by the other are equal. */
  lemma PrefixedByAntisymmetric(p: Path, q: Path)
    requires PrefixedBy(p, OfPath(q)) && PrefixedBy(q, OfPath(p))
    ensures p == q
  {
    assert p.path == p.path[..|q.path|];
  }

  /** Every path is prefixed by the empty path. */
  lemma EmptyPrefixesAll(p: Path, q: Path)
    requires IsEmpty(q)
    ensures PrefixedBy(p, OfPath(q))
  {
  }

  // -------------------------------------------------------------- filters

  /** The filter classes. `TrueFilter` is the base class `Filter`, which
      accepts everything; `ListFilter` holds its items after `str()`. */
  datatype Filter =
    | TrueFilter
    | DenyFilter
    | ListFilter(list: seq<string>)
    | NotFilter(filter: Filter)
    | AndFilter(filters: seq<Filter>)
    | OrFilter(filters: seq<Filter>)

  /** `f.accept(path)`. */
  function Accept(f: Filter, path: PathArg): (r: bool)
    ensures f.TrueFilter? ==> r
    ensures f.DenyFilter? ==> !r
    ensures f.ListFilter? ==> (r <==> Str(path) in f.list)
    ensures f.NotFilter? ==> r == !Accept(f.filter, path)
    ensures f.AndFilter? ==> (r <==> forall i :: 0 <= i < |f.filters| ==> Accept(f.filters[i], path))
    ensures f.OrFilter? ==> (r <==> exists i :: 0 <= i < |f.filters| && Accept(f.filters[i], path))
    decreases f, 1
  {
    match f
    case TrueFilter => true
    case DenyFilter => false
    case ListFilter(list) => Str(path) in list
    case NotFilter(g) => !Accept(g, path)
    case AndFilter(fs) => AllAccept(fs, path)
    case OrFilter(fs) => SomeAccepts(fs, path)
  }

  /** The loop of `AndFilter.accept`: sub-filters in order, stopping at the
      first one that rejects. */
  function AllAccept(fs: seq<Filter>, path: PathArg): (r: bool)
    ensures r <==> forall i :: 0 <= i < |fs| ==> Accept(fs[i], path)
    decreases fs, 0
  {
    if fs == [] then true
    else if !Accept(fs[0], path) then false
    else AllAccept(fs[1..], path)
  }

  /** The loop of `OrFilter.accept`: sub-filters in order, stopping at the
      first one that accepts. */
  function SomeAccepts(fs: seq<Filter>, path: PathArg): (r: bool)
    ensures r <==> exists i :: 0 <= i < |fs| && Accept(fs[i], path)
    decreases fs, 0
  {
    if fs == [] then false
    else if Accept(fs[0], path) then true
    else SomeAccepts(fs[1..], path)
  }

  /** The number of sub-filters `AndFilter.accept` consults before it
      returns: up to and including the first rejecting one. */
  function AndConsulted(fs: seq<Filter>, path: PathArg): (n: nat)
    ensures n <= |fs|
    ensures forall i :: 0 <= i < n - 1 ==> Accept(fs[i], path)
    ensures n < |fs| ==> n > 0 && !Accept(fs[n - 1], path)
    ensures AllAccept(fs, path) ==> n == |fs|
  {
    if fs == [] then 0
    else if !Accept(fs[0], path) then 1
    else 1 + AndConsulted(fs[1..], path)
  }

  /** `str(f)`. */
  function Render(f: Filter): (r: string)
    ensures f.TrueFilter? ==> r == "true"
    ensures f.DenyFilter? ==> r == "false"
    ensures f.ListFilter? ==> r == "one of [" + PyString.Join(f.list, ", ") + "]"
    ensures f.NotFilter? ==> r == "not " + Render(f.filter)
    ensures f.AndFilter? || f.OrFilter? ==> |r| >= 2 && r[0] == '(' && r[|r| - 1] == ')'
    decreases f, 1
  {
    match f
    case TrueFilter => "true"
    case DenyFilter => "false"
    case ListFilter(list) => "one of [" + PyString.Join(list, ", ") + "]"
    case NotFilter(g) => "not " + Render(g)
    case AndFilter(fs) => "(" + PyString.Join(RenderAll(fs), " and ") + ")"
    case OrFilter(fs) => "(" + PyString.Join(RenderAll(fs), " or ") + ")"
  }

  /** `[str(f) for f in fs]`. */
  function RenderAll(fs: seq<Filter>): (r: seq<string>)
    ensures |r| == |fs|
    ensures forall i :: 0 <= i < |fs| ==> r[i] == Render(fs[i])
    decreases fs, 0
  {
    if fs == [] then [] else [Render(fs[0])] + RenderAll(fs[1..])
  }

  /** Negating a filter twice accepts the same paths. */
  lemma NotNot(f: Filter, path: PathArg)
    ensures Accept(NotFilter(NotFilter(f)), path) == Accept(f, path)
  {
  }

  /** Every sub-filter wrapped in a `NotFilter`. */
  function Negated(fs: seq<Filter>): (r: seq<Filter>)
    ensures |r| == |fs|
    ensures forall i :: 0 <= i < |fs| ==> r[i] == NotFilter(fs[i])
  {
    if fs == [] then [] else [NotFilter(fs[0])] + Negated(fs[1..])
  }

  /** De Morgan, as the two loops compute it: a negated conjunction accepts
      exactly what the disjunction of the negations accepts. */
  lemma {:induction false} NotAndIsOrNot(fs: seq<Filter>, path: PathArg)
    ensures Accept(NotFilter(AndFilter(fs)), path) == Accept(OrFilter(Negated(fs)), path)
  {
    if fs != [] {
      assert Negated(fs)[1..] == Negated(fs[1..]);
      NotAndIsOrNot(fs[1..], path);
    }
  }

  /** De Morgan, the other way round. */
  lemma {:induction false} NotOrIsAndNot(fs: seq<Filter>, path: PathArg)
    ensures Accept(NotFilter(OrFilter(fs)), path) == Accept(AndFilter(Negated(fs)), path)
  {
    if fs != [] {
      assert Negated(fs)[1..] == Negated(fs[1..]);
      NotOrIsAndNot(fs[1..], path);
    }
  }

  /** With no sub-filter, `AndFilter` accepts everything and renders "()";
      `OrFilter` rejects everything. */
  lemma EmptyCombinators(path: PathArg)
    ensures Accept(AndFilter([]), path) && !Accept(OrFilter([]), path)
    ensures Render(AndFilter([])) == "()" && Render(OrFilter([])) == "()"
  {
  }

  /** Two sub-filters of `AndFilter` render joined by "and". */
  lemma RenderAndPair(f: Filter, g: Filter)
    ensures Render(AndFilter([f, g])) == "(" + Render(f) + " and " + Render(g) + ")"
  {
    var rs := RenderAll([f, g]);
    assert rs == [Render(f), Render(g)];
    JoinPair(rs, " and ");
  }

  /** Two sub-filters of `OrFilter` render joined by "or". */
  lemma RenderOrPair(f: Filter, g: Filter)
    ensures Render(OrFilter([f, g])) == "(" + Render(f) + " or " + Render(g) + ")"
  {
    var rs := RenderAll([f, g]);
    assert rs == [Render(f), Render(g)];
    JoinPair(rs, " or ");
  }

  /** The sub-filters' renderings of two lists, one after the other. */
  lemma RenderAllAppend(fs: seq<Filter>, gs: seq<Filter>)
    ensures RenderAll(fs + gs) == RenderAll(fs) + RenderAll(gs)
  {
    var a, b := RenderAll(fs + gs), RenderAll(fs) + RenderAll(gs);
    assert forall i :: 0 <= i < |a| ==> a[i] == b[i] by {
      forall i | 0 <= i < |a| ensures a[i] == b[i] {
        if i < |fs| { assert (fs + gs)[i] == fs[i]; } else { assert (fs + gs)[i] == gs[i - |fs|]; }
      }
    }
  }

  /** `AndFilter` of one sub-filter renders as that filter in parentheses,
      and `AndFilter` of two non-empty lists one after the other renders as
      the first rendering without its ')' then " and " then the second
      without its '(': together, any non-empty list renders as the
      sub-filters' texts, in order, joined by " and ". */
  lemma RenderAndList(f: Filter, fs: seq<Filter>, gs: seq<Filter>)
    requires fs != [] && gs != []
    ensures Render(AndFilter([f])) == "(" + Render(f) + ")"
    ensures var a, b := Render(AndFilter(fs)), Render(AndFilter(gs));
      Render(AndFilter(fs + gs)) == a[..|a| - 1] + " and " + b[1..]
  {
    assert RenderAll([f]) == [Render(f)];
    RenderJoinAppend(fs, gs, " and ");
  }

  /** The same for `OrFilter`, with " or ". */
  lemma RenderOrList(f: Filter, fs: seq<Filter>, gs: seq<Filter>)
    requires fs != [] && gs != []
    ensures Render(OrFilter([f])) == "(" + Render(f) + ")"
    ensures var a, b := Render(OrFilter(fs)), Render(OrFilter(gs));
      Render(OrFilter(fs + gs)) == a[..|a| - 1] + " or " + b[1..]
  {
    assert RenderAll([f]) == [Render(f)];
    RenderJoinAppend(fs, gs, " or ");
  }

  lemma RenderJoinAppend(fs: seq<Filter>, gs: seq<Filter>, sep: string)
    requires fs != [] && gs != []
    ensures var a, b := "(" + PyString.Join(RenderAll(fs), sep) + ")", "(" + PyString.Join(RenderAll(gs), sep) + ")";
      "(" + PyString.Join(RenderAll(fs + gs), sep) + ")" == a[..|a| - 1] + sep + b[1..]
  {
    var x, y := PyString.Join(RenderAll(fs), sep), PyString.Join(RenderAll(gs), sep);
    RenderAllAppend(fs, gs);
    PyString.JoinAppend(RenderAll(fs), RenderAll(gs), sep);
    assert ("(" + x + ")")[..|x| + 1] == "(" + x;
    assert ("(" + y + ")")[1..] == y + ")";
  }

  /** Two texts joined by `sep`. */
  lemma JoinPair(rs: seq<string>, sep: string)
    requires |rs| == 2
    ensures PyString.Join(rs, sep) == rs[0] + sep + rs[1]
  {
    assert rs[1..] == [rs[1]];
  }

  // ----------------------------------------------------- filter() dispatch

  /** The values a script may hand to `filter()`. `IntArg` stands for the
      numbers, since Python's `==` makes 1 equal to True and 0 to False. */
  datatype FilterArg =
    | NoneArg
    | BoolArg(b: bool)
    | IntArg(i: int)
    | FilterObj(f: Filter)
    | TextArg(s: string)
    | ListArg(items: seq<string>)
    | OtherArg

  /** The exception `filter()` raises. */
  datatype FilterError = NameError(name: string)

  /** `filter(arg)`. The test at line 241 names `string`, which is not
      defined, so every argument that reaches it raises `NameError`. */
  function MakeFilter(arg: FilterArg): (r: Result<Filter, FilterError>)
    ensures r.Ok? <==> arg.NoneArg? || arg.BoolArg? || arg.FilterObj?
                       || (arg.IntArg? && (arg.i == 0 || arg.i == 1))
    ensures r.Err? ==> r.error == NameError("string")
    ensures arg.FilterObj? ==> r == Ok(arg.f)
    ensures r.Ok? && !arg.FilterObj? ==>
      forall p :: Accept(r.value, p) <==> (arg.NoneArg? || arg == BoolArg(true) || arg == IntArg(1))
  {
    match arg
    case NoneArg => Ok(TrueFilter)
    case BoolArg(b) => if b then Ok(TrueFilter) else Ok(DenyFilter)
    case IntArg(i) =>
      if i == 1 then Ok(TrueFilter) else if i == 0 then Ok(DenyFilter) else Err(NameError("string"))
    case FilterObj(f) => Ok(f)
    case _ => Err(NameError("string"))
  }

  /** `[filter(f) for f in args]`: the first argument `filter()` refuses
      raises its error, otherwise every argument is converted in order. */
  function MakeFilters(args: seq<FilterArg>): (r: Result<seq<Filter>, FilterError>)
    ensures r.Ok? <==> forall i :: 0 <= i < |args| ==> MakeFilter(args[i]).Ok?
    ensures r.Ok? ==> |r.value| == |args|
                      && forall i :: 0 <= i < |args| ==> r.value[i] == MakeFilter(args[i]).value
  {
    if args == [] then Ok([])
    else match MakeFilter(args[0])
      case Err(e) => Err(e)
      case Ok(f) =>
        match MakeFilters(args[1..])
        case Err(e) => Err(e)
        case Ok(fs) => Ok([f] + fs)
  }

  /** `NotFilter(arg)`: the argument goes through `filter()`. */
  function MakeNot(arg: FilterArg): (r: Result<Filter, FilterError>)
    ensures r.Ok? <==> MakeFilter(arg).Ok?
    ensures r.Ok? ==> forall p :: Accept(r.value, p) == !Accept(MakeFilter(arg).value, p)
  {
    match MakeFilter(arg)
    case Err(e) => Err(e)
    case Ok(f) => Ok(NotFilter(f))
  }

  /** `AndFilter(*args)`. */
  function MakeAnd(args: seq<FilterArg>): (r: Result<Filter, FilterError>)
    ensures r.Ok? <==> forall i :: 0 <= i < |args| ==> MakeFilter(args[i]).Ok?
    ensures r.Ok? ==> forall p :: Accept(r.value, p) <==>
      forall i :: 0 <= i < |args| ==> Accept(MakeFilter(args[i]).value, p)
  {
    match MakeFilters(args)
    case Err(e) => Err(e)
    case Ok(fs) => Ok(AndFilter(fs))
  }

  /** `OrFilter(*args)`. */
  function MakeOr(args: seq<FilterArg>): (r: Result<Filter, FilterError>)
    ensures r.Ok? <==> forall i :: 0 <= i < |args| ==> MakeFilter(args[i]).Ok?
    ensures r.Ok? ==> forall p :: Accept(r.value, p) <==>
      exists i :: 0 <= i < |args| && Accept(MakeFilter(args[i]).value, p)
  {
    match MakeFilters(args)
    case Err(e) => Err(e)
    case Ok(fs) => Ok(OrFilter(fs))
  }

  // -------------------------------------------------------------- as_list

  /** The Python values `as_list` distinguishes. */
  datatype PyValue = NoneValue | ListValue(items: seq<PyValue>) | OtherValue(text: string)

  /** `as_list(x)`: always a list; a list is returned as it is, `None`
      becomes the empty list and any other value a one-element list. */
  function AsList(x: PyValue): (r: PyValue)
    ensures r.ListValue?
    ensures x.ListValue? ==> r == x
    ensures x.NoneValue? ==> r.items == []
    ensures !x.NoneValue? && !x.ListValue? ==> r.items == [x]
  {
    match x
    case NoneValue => ListValue([])
    case ListValue(_) => x
    case OtherValue(_) => ListValue([x])
  }

  /** `as_list` is idempotent. */
  lemma AsListIdempotent(x: PyValue)
    ensures AsList(AsList(x)) == AsList(x)
  {
  }
}
