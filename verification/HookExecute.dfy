/** The hook's execution layer: run the selected gates in manifest order and stop at
    the first that fails. */
module HookExecute {
  import opened Std
  import opened HookManifest

  /** A gate's process: not executable at all, or its return code (negative when
      killed by a signal). */
  datatype GateRun = ExecError | Exit(returncode: int)

  datatype HookResult = Returned(code: int) | Raised

  /** The shell convention for a signal. */
  function Normalized(returncode: int): int {
    if returncode < 0 then 128 - returncode else returncode
  }

  /** What the hook answers with when this gate stops it. */
  function StoppedBy(run: GateRun): HookResult {
    match run
    case ExecError => Raised
    case Exit(code) => Returned(Normalized(code))
  }

  /** Every process status, signal or not, keeps its success or failure as an 8-bit
      exit status. */
  lemma NormalizedKeepsFailure(returncode: int)
    requires -127 <= returncode <= 255
    ensures 0 <= Normalized(returncode) <= 255
    ensures Normalized(returncode) % 256 == 0 <==> returncode == 0
    ensures Normalized(returncode) == if returncode < 0 then 128 + -returncode else returncode
  {
  }

  ghost predicate AllPass(gates: seq<Gate>, run: Gate -> GateRun) {
    forall g | g in gates :: run(g) == Exit(0)
  }

  lemma {:induction false} SelectionSnoc<Reason>(gates: seq<Gate>, i: nat, phase: HookPhase, changes: ChangeSet<Reason>)
    requires i < |gates|
    ensures SelectFrom(gates[..i + 1], phase, changes)
            == SelectFrom(gates[..i], phase, changes) + if Selects(gates[i], phase, changes) then [gates[i]] else []
  {
    hide Selects;
    assert gates[..i + 1][..i] == gates[..i];
  }

  lemma {:induction false} SelectionPrefix<Reason>(gates: seq<Gate>, i: nat, phase: HookPhase, changes: ChangeSet<Reason>)
    requires i <= |gates|
    ensures SelectFrom(gates[..i], phase, changes) <= SelectFrom(gates, phase, changes)
    decreases |gates|
  {
    hide Selects;
    if i < |gates| {
      var front := gates[..|gates| - 1];
      SelectionPrefix(front, i, phase, changes);
      assert front[..i] == gates[..i];
    } else {
      assert gates[..i] == gates;
    }
  }

  /** `ran` lists the gates that were started. All but the last of them passed; the
      result is 0 exactly when every selected gate passes, and then all have run. */
  method ExecuteGates<Reason>(phase: HookPhase, changes: ChangeSet<Reason>, run: Gate -> GateRun)
    returns (r: HookResult, ran: seq<Gate>)
    ensures ResolveGates(phase, changes).None? ==> r == Raised && ran == []
    ensures ResolveGates(phase, changes).Some? ==>
              var selected := ResolveGates(phase, changes).value;
              && ran <= selected
              && (ran != [] ==> AllPass(ran[..|ran| - 1], run))
              && (r == Returned(0) <==> AllPass(selected, run))
              && (r == Returned(0) ==> ran == selected)
              && (r != Returned(0) ==>
                    && ran != []
                    && run(Last(ran)) != Exit(0)
                    && r == StoppedBy(run(Last(ran))))
  {
    hide Selects, GATES;
    ran := [];
    var resolved := ResolveGates(phase, changes);
    if resolved.None? {
      return Raised, ran;
    }
    var selected := resolved.value;
    SelectFromMembers(GATES, phase, changes);
    for i := 0 to |GATES|
      invariant ran == SelectFrom(GATES[..i], phase, changes)
      invariant AllPass(ran, run)
    {
      var gate := GATES[i];
      SelectionSnoc(GATES, i, phase, changes);
      SelectionPrefix(GATES, i + 1, phase, changes);
      if gate !in selected {
        continue;
      }
      ran := ran + [gate];
      assert ran[..|ran| - 1] == SelectFrom(GATES[..i], phase, changes);
      assert gate in selected;
      match run(gate) {
        case ExecError =>
          return Raised, ran;
        case Exit(returncode) =>
          if Normalized(returncode) != 0 {
            return Returned(Normalized(returncode)), ran;
          }
      }
    }
    assert GATES[..|GATES|] == GATES;
    if ran != [] {
      assert forall g | g in ran[..|ran| - 1] :: g in ran;
    }
    return Returned(0), ran;
  }
}
