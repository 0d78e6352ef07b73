/** What the machine notes of the inputs that a run marks, from the calls alone. */
module MarkedInputs {
  import opened Arith
  import opened BasicTypes
  import opened Options
  import opened PathCondition
  import opened SolverCode
  import opened SymbolicExpression
  import opened SymbolicInterpreter
  import opened SymbolicPath

  // ------------------------------------------------------------------------------------------------
  // The marks of a run
  // ------------------------------------------------------------------------------------------------

  /** An input that was marked, and the rank and the group that were reported for it afterwards, if any */
  datatype Mark = Mark(kind: InputKind, typ: Type, limit: Option<int>, found: Option<(int, seq<int>)>)

  function MarkedBy(marks: seq<Mark>, ev: Event): seq<Mark> {
    match ev
    case NewInput(kind, typ, _, limit) => marks + [Mark(kind, typ, limit, None)]
    case RankOverwritten(_, value, group) =>
      if marks == [] then marks else marks[|marks| - 1 := marks[|marks| - 1].(found := Some((value, group)))]
    case _ => marks
  }

  /** The inputs that have been marked after the calls, in order */
  function MarksAfter(marks: seq<Mark>, evs: seq<Event>): seq<Mark>
    decreases |evs|
  {
    if evs == [] then marks else MarksAfter(MarkedBy(marks, evs[0]), evs[1..])
  }

  // ------------------------------------------------------------------------------------------------
  // What is to be noted
  // ------------------------------------------------------------------------------------------------

  /** The limit of an input: the size of its group if one was reported, else what it was marked with. */
  function LimitOf(k: Mark): Option<int> {
    if k.found.Some? then Some(|k.found.value.1|) else k.limit
  }

  /** The value of input v */
  function ValueOf(c: Config, given: seq<int>, v: nat, k: Mark): int {
    if k.found.Some? then k.found.value.0
    else if k.kind.Rank? then CastTo(c.rank, k.typ)
    else if v < |given| then given[v]
    else
      match k.kind
      case Plain(random) => CastTo(random, k.typ)
      case RankNonDefaultComm => CastTo(0, k.typ)
      case Rank => CastTo(c.rank, k.typ)
      case WorldSize => CastTo(c.worldSize, k.typ)
  }

  ghost predicate ValuesNoted(c: Config, given: seq<int>, inputs: seq<int>, marks: seq<Mark>) {
    && |inputs| == Max(|given|, |marks|)
    && (forall v :: 0 <= v < |marks| ==> inputs[v] == ValueOf(c, given, v, marks[v]))
    && forall v :: |marks| <= v < |inputs| ==> inputs[v] == given[v]
  }

  ghost predicate TypesNoted(vars: map<Var, Type>, marks: seq<Mark>) {
    && (forall v: Var :: v in vars <==> v < |marks|)
    && forall v :: v in vars ==> vars[v] == marks[v].typ
  }

  ghost predicate LimitsNoted(limits: map<Var, int>, marks: seq<Mark>) {
    && (forall v: Var :: v in limits <==> v < |marks| && LimitOf(marks[v]).Some?)
    && forall v :: v in limits ==> limits[v] == LimitOf(marks[v]).value
  }

  /** The groups that were reported, in order */
  function GroupsOf(marks: seq<Mark>): seq<seq<int>> {
    if marks == [] then []
    else
      var k := marks[|marks| - 1];
      GroupsOf(marks[..|marks| - 1]) + if k.found.Some? then [k.found.value.1] else []
  }

  /** The list has the inputs whose marks are of one kind, in order. */
  ghost predicate Lists(xs: seq<Var>, marks: seq<Mark>, kind: InputKind -> bool) {
    Increasing(xs) && forall v: Var :: v in xs <==> v < |marks| && kind(marks[v].kind)
  }

  predicate IsRank(k: InputKind) { k.Rank? }

  predicate IsNonDefault(k: InputKind) { k.RankNonDefaultComm? }

  predicate IsSize(k: InputKind) { k.WorldSize? }

  /** The process under test notes which inputs are ranks, ranks in other communicators and sizes, and the groups that
      were reported; the others note nothing. */
  ghost predicate RolesNoted(c: Config, r: Roles, marks: seq<Mark>) {
    && r.commMap == GroupsOf(marks)
    && if c.rank == c.targetRank
       then
         && Lists(r.ranks, marks, IsRank) && Lists(r.nonDefault, marks, IsNonDefault)
         && Lists(r.worldSizes, marks, IsSize)
       else r.ranks == [] && r.nonDefault == [] && r.worldSizes == []
  }

  ghost predicate Noted(c: Config, given: seq<int>, m: Machine, marks: seq<Mark>) {
    && m.numInputs == |marks|
    && ValuesNoted(c, given, m.inputs, marks) && TypesNoted(m.vars, marks) && LimitsNoted(m.limits, marks)
    && RolesNoted(c, m.roles, marks)
  }

  // ------------------------------------------------------------------------------------------------
  // One call
  // ------------------------------------------------------------------------------------------------

  lemma GroupsMore(marks: seq<Mark>, k: Mark)
    ensures GroupsOf(marks + [k]) == GroupsOf(marks) + if k.found.Some? then [k.found.value.1] else []
  {
    assert (marks + [k])[..|marks|] == marks;
  }

  lemma ListNext(xs: seq<Var>, marks: seq<Mark>, kind: InputKind -> bool, k: Mark)
    requires Lists(xs, marks, kind)
    ensures Lists(if kind(k.kind) then xs + [|marks|] else xs, marks + [k], kind)
  {
    AppendIncreases(xs, |marks|);
  }

  lemma RolesNext(c: Config, m: Machine, kind: InputKind, k: Mark, marks: seq<Mark>)
    requires m.numInputs == |marks| && RolesNoted(c, m.roles, marks) && k.kind == kind && k.found.None?
    ensures RolesNoted(c, WithRole(c, m, kind).roles, marks + [k])
  {
    hide Lists, GroupsOf;
    GroupsMore(marks, k);
    assert GroupsOf(marks) + [] == GroupsOf(marks);
    var r := m.roles;
    if c.rank == c.targetRank {
      ListNext(r.ranks, marks, IsRank, k);
      ListNext(r.nonDefault, marks, IsNonDefault, k);
      ListNext(r.worldSizes, marks, IsSize, k);
    }
  }

  lemma ValuesNext(c: Config, given: seq<int>, m: Machine, ev: Event, marks: seq<Mark>)
    requires ev.NewInput? && m.numInputs == |marks| && ValuesNoted(c, given, m.inputs, marks)
    ensures ValuesNoted(c, given, InputValue(c, m, ev.kind, ev.typ).1, MarkedBy(marks, ev))
  {
    hide CastTo;
  }

  lemma VariableNext(m: Machine, marks: seq<Mark>, typ: Type, addr: Addr, k: Mark)
    requires m.numInputs == |marks| && TypesNoted(m.vars, marks) && LimitsNoted(m.limits, marks)
    requires k.typ == typ && k.found.None?
    ensures var m' := WithVariable(m, typ, addr, k.limit);
            && TypesNoted(m'.vars, marks + [k]) && LimitsNoted(m'.limits, marks + [k])
  {
    hide Variable;
  }

  lemma NewInputNoted(c: Config, given: seq<int>, m: Machine, ev: Event, marks: seq<Mark>)
    requires ev.NewInput? && Noted(c, given, m, marks)
    ensures Noted(c, given, Step(c, m, ev), MarkedBy(marks, ev))
  {
    hide RolesNoted, ValuesNoted, TypesNoted, LimitsNoted, InputValue;
    var k := Mark(ev.kind, ev.typ, ev.limit, None);
    var m1 := WithValue(c, m, ev.kind, ev.typ);
    ValuesNext(c, given, m, ev, marks);
    RolesNext(c, m1, ev.kind, k, marks);
    VariableNext(WithRole(c, m1, ev.kind), marks, ev.typ, ev.addr, k);
  }

  /** The last mark, with what was found for it */
  lemma GroupFound(marks: seq<Mark>, value: int, group: seq<int>)
    requires marks != [] && marks[|marks| - 1].found.None?
    ensures GroupsOf(marks[|marks| - 1 := marks[|marks| - 1].(found := Some((value, group)))])
            == GroupsOf(marks) + [group]
  {
    var n := |marks| - 1;
    var found := marks[n].(found := Some((value, group)));
    assert marks[n := found] == marks[..n] + [found];
    assert marks == marks[..n] + [marks[n]];
    GroupsMore(marks[..n], found);
    GroupsMore(marks[..n], marks[n]);
  }

  lemma ValueFound(c: Config, given: seq<int>, inputs: seq<int>, marks: seq<Mark>, value: int, group: seq<int>)
    requires ValuesNoted(c, given, inputs, marks) && marks != [] && |marks| <= |inputs|
    ensures var n := |marks| - 1;
            ValuesNoted(c, given, inputs[n := value], marks[n := marks[n].(found := Some((value, group)))])
  {
    hide CastTo;
  }

  lemma LimitFound(limits: map<Var, int>, marks: seq<Mark>, value: int, group: seq<int>)
    requires LimitsNoted(limits, marks) && marks != []
    ensures var n := |marks| - 1;
            LimitsNoted(limits[n := |group|], marks[n := marks[n].(found := Some((value, group)))])
  {
  }

  lemma RolesFound(c: Config, r: Roles, marks: seq<Mark>, value: int, group: seq<int>)
    requires RolesNoted(c, r, marks) && c.rank == c.targetRank
    requires marks != [] && marks[|marks| - 1].found.None?
    ensures var n := |marks| - 1;
            RolesNoted(c, r.(commMap := r.commMap + [group]), marks[n := marks[n].(found := Some((value, group)))])
  {
    hide GroupsOf, Lists;
    var n := |marks| - 1;
    var after := marks[n := marks[n].(found := Some((value, group)))];
    GroupFound(marks, value, group);
    SameLists(r.ranks, marks, after, IsRank);
    SameLists(r.nonDefault, marks, after, IsNonDefault);
    SameLists(r.worldSizes, marks, after, IsSize);
  }

  lemma OverwrittenNoted(c: Config, given: seq<int>, m: Machine, ev: Event, marks: seq<Mark>)
    requires ev.RankOverwritten? && Legal(m, ev) && c.rank == c.targetRank && Noted(c, given, m, marks)
    requires marks != [] ==> marks[|marks| - 1].found.None?
    ensures Noted(c, given, Step(c, m, ev), MarkedBy(marks, ev))
  {
    hide ValuesNoted, LimitsNoted, RolesNoted;
    ValueFound(c, given, m.inputs, marks, ev.value, ev.group);
    LimitFound(m.limits, marks, ev.value, ev.group);
    RolesFound(c, m.roles, marks, ev.value, ev.group);
  }

  lemma SameLists(xs: seq<Var>, marks: seq<Mark>, after: seq<Mark>, kind: InputKind -> bool)
    requires Lists(xs, marks, kind) && |after| == |marks|
    requires forall v :: 0 <= v < |marks| ==> after[v].kind == marks[v].kind
    ensures Lists(xs, after, kind)
  {
  }

  lemma OthersNoted(c: Config, given: seq<int>, m: Machine, ev: Event, marks: seq<Mark>)
    requires !ev.NewInput? && !ev.RankOverwritten? && Legal(m, ev) && Noted(c, given, m, marks)
    ensures Noted(c, given, Step(c, m, ev), MarkedBy(marks, ev))
  {
    hide ValuesNoted, TypesNoted, LimitsNoted, RolesNoted;
    hide Step;
    OthersKeepInputs(c, m, ev);
  }

  lemma StepNoted(c: Config, given: seq<int>, m: Machine, w: World, ev: Event, marks: seq<Mark>)
    requires Legal(m, ev) && Faithful(c, m, w, ev) && Noted(c, given, m, marks)
    requires ev.RankOverwritten? && marks != [] ==> marks[|marks| - 1].found.None?
    ensures Noted(c, given, Step(c, m, ev), MarkedBy(marks, ev))
    ensures ev.NewInput? ==> var after := MarkedBy(marks, ev); after != [] && after[|after| - 1].found.None?
  {
    hide Noted, Step, Legal;
    if ev.NewInput? {
      NewInputNoted(c, given, m, ev, marks);
    } else if ev.RankOverwritten? {
      OverwrittenNoted(c, given, m, ev, marks);
    } else {
      OthersNoted(c, given, m, ev, marks);
    }
  }

  // ------------------------------------------------------------------------------------------------
  // Whole runs
  // ------------------------------------------------------------------------------------------------

  lemma {:induction false} RunNoted(c: Config, given: seq<int>, m: Machine, w: World, evs: seq<Event>,
                                    marks: seq<Mark>)
    requires IsRun(c, m, w, evs) && Noted(c, given, m, marks)
    requires evs != [] && evs[0].RankOverwritten? && marks != [] ==> marks[|marks| - 1].found.None?
    ensures Noted(c, given, After(c, m, w, evs), MarksAfter(marks, evs))
    decreases |evs|
  {
    hide Noted, Step, NextWorld, Legal, Faithful, MarkedBy;
    if evs != [] {
      StepNoted(c, given, m, w, evs[0], marks);
      RunNoted(c, given, Step(c, m, evs[0]), NextWorld(c, m, w, evs[0]), evs[1..], MarkedBy(marks, evs[0]));
    }
  }

  /** After any run: the variables have the types and limits they were marked with, the inputs are the given ones but
      for ranks, which are the process's own or what was reported, and the lists of ranks and sizes are those marked
      as such. */
  lemma MarksAreNoted(c: Config, given: seq<int>, w: World, evs: seq<Event>)
    requires IsRun(c, Initial(given), w, evs)
    ensures Noted(c, given, After(c, Initial(given), w, evs), MarksAfter([], evs))
  {
    hide IsRun, After, MarksAfter, Noted;
    NothingNoted(c, given);
    RunNoted(c, given, Initial(given), w, evs, []);
  }

  lemma NothingNoted(c: Config, given: seq<int>)
    ensures Noted(c, given, Initial(given), [])
  {
  }

  /** Ranks as the process has them and sizes that are not given: these inputs fit MPI. */
  lemma RanksFit(c: Config, given: seq<int>, w: World, evs: seq<Event>)
    requires IsRun(c, Initial(given), w, evs) && 0 <= c.rank < c.worldSize
    requires forall v :: 0 <= v < |MarksAfter([], evs)| ==>
               var k := MarksAfter([], evs)[v];
               && (k.kind.Rank? || k.kind.WorldSize? ==> k.found.None?)
               && (k.kind.Rank? ==> InBounds(c.rank, k.typ))
               && (k.kind.WorldSize? ==> v >= |given| && InBounds(c.worldSize, k.typ))
    ensures var m := After(c, Initial(given), w, evs);
            var x := In(m.inputs);
            && (forall v :: v in m.roles.ranks ==> x(v) == c.rank)
            && (forall v :: v in m.roles.worldSizes ==> x(v) == c.worldSize)
            && AllEqual(m.roles.ranks, x) && AllEqual(m.roles.worldSizes, x)
            && (m.roles.ranks != [] && m.roles.worldSizes != [] ==>
                  x(m.roles.ranks[0]) < x(m.roles.worldSizes[0]))
  {
    hide IsRun, After, MarksAfter, GroupsOf, CastTo;
    MarksAreNoted(c, given, w, evs);
    var m := After(c, Initial(given), w, evs);
    assert m.roles.ranks != [] ==> m.roles.ranks[0] in m.roles.ranks;
    assert m.roles.worldSizes != [] ==> m.roles.worldSizes[0] in m.roles.worldSizes;
  }
}
