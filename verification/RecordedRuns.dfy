/** What the interpreter records of a run, written out for the tool and read back by it. */
module RecordedRuns {
  import opened Bytes
  import opened Options
  import opened PathCondition
  import opened Serialization
  import opened SymbolicExpression
  import opened SymbolicInterpreter
  import opened SymbolicPath

  /** The execution that is written for a machine */
  function ExecOf(m: Machine, tag: nat): Exec {
    Exec(m.vars, m.inputs, tag, m.limits,
         Mpi(m.roles.ranks, m.roles.nonDefault, m.roles.commMap, m.roles.worldSizes),
         Recorded(m.path.branches, m.path.constraintsIdx, m.path.constraints))
  }

  /** The execution of any run comes back as it was exactly if the run marked at least as many inputs as it was given;
      otherwise the inputs beyond the marked ones are lost. */
  lemma RunComesBack(c: Config, given: seq<int>, w: World, evs: seq<Event>, tag: nat, ks: seq<int>, rest: Bytes)
    requires IsRun(c, Initial(given), w, evs)
    requires var e := ExecOf(After(c, Initial(given), w, evs), tag); ExecFits(e) && Lists(ks, e.limits.Keys)
    ensures var m := After(c, Initial(given), w, evs);
            GetExec(PutExec(ExecOf(m, tag), ks) + rest) == Some((ExecOf(m, tag), rest)) <==> |given| <= m.numInputs
  {
    hide IsRun, After, ExecFits, Lists, GetExec, PutExec, RolesOk;
    StartCounts(given);
    RunCounts(c, Initial(given), w, evs, |given|);
    var m := After(c, Initial(given), w, evs);
    RoundTripExactly(ExecOf(m, tag), ks, rest);
    KeysBelow(m.vars, m.numInputs);
  }

  /** Whatever becomes of the inputs, tag, limits, ranks, sizes, groups and path of a run come back as the machine has
      them. */
  lemma RolesComeBack(c: Config, given: seq<int>, w: World, evs: seq<Event>, tag: nat, ks: seq<int>, rest: Bytes)
    requires IsRun(c, Initial(given), w, evs)
    requires var e := ExecOf(After(c, Initial(given), w, evs), tag); ExecFits(e) && Lists(ks, e.limits.Keys)
    ensures ExecOf(After(c, Initial(given), w, evs), tag).limits.Keys == After(c, Initial(given), w, evs).limits.Keys
    ensures var m := After(c, Initial(given), w, evs);
            var back := GetExec(PutExec(ExecOf(m, tag), ks) + rest);
            && back.Some? && back.value.1 == rest
            && var e := back.value.0;
               && e.tag == tag && e.limits == m.limits
               && e.mpi.ranks == m.roles.ranks && e.mpi.worldSizes == m.roles.worldSizes
               && e.mpi.nonDefault == m.roles.nonDefault && e.mpi.commMap == m.roles.commMap
               && e.path.branches == m.path.branches && e.path.constraints == m.path.constraints
               && e.path.constraintsIdx == m.path.constraintsIdx
  {
    hide IsRun, After, ExecFits, Lists, GetExec, PutExec, TypedInputs, Sorted;
    var e := ExecOf(After(c, Initial(given), w, evs), tag);
    Serialization.InputsThere(e);
    ExecRoundTrips(e, ks, rest);
  }

  lemma StartCounts(given: seq<int>)
    ensures Counted(Initial(given), |given|)
  {
  }

  /** A run that is given one input and marks none: the input is lost. */
  lemma InputLost(c: Config, w: World, tag: nat, rest: Bytes)
    requires tag < Pow256(8)
    ensures var m := Initial([1]);
            && IsRun(c, m, w, []) && After(c, m, w, []) == m
            && ExecFits(ExecOf(m, tag)) && Lists([], ExecOf(m, tag).limits.Keys)
            && GetExec(PutExec(ExecOf(m, tag), []) + rest) == Some((ExecOf(m, tag).(inputs := []), rest))
  {
    hide GetExec, PutExec, Pow256;
    var e := ExecOf(Initial([1]), tag);
    OneFits(tag);
    ExecRoundTrips(e, [], rest);
    RenumberedInRange(e);
    assert Renumbered(e).inputs == [];
    assert Renumbered(e).vars == e.vars;
  }

  lemma OneFits(tag: nat)
    requires tag < Pow256(8)
    ensures ExecFits(ExecOf(Initial([1]), tag))
  {
    hide Pow256;
    Pow256Large(8);
  }

  lemma Pow256Large(n: nat)
    requires n > 0
    ensures Pow256(n) >= 256
  {
  }
}
