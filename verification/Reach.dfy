/** Reaching one state from another, step by step. */
module Reach {
  import opened Protocol

  ghost predicate Leads(s: State, s': State) {
    exists path :: Path(path) && path[0] == s && path[|path| - 1] == s'
  }

  lemma LeadsHere(s: State)
    ensures Leads(s, s)
  {
    assert Path([s]) && [s][0] == s;
  }

  lemma PathJoins(a: seq<State>, b: seq<State>)
    requires Path(a) && Path(b) && a[|a| - 1] == b[0]
    ensures Path(a + b[1..])
    ensures (a + b[1..])[|a + b[1..]| - 1] == b[|b| - 1]
  {
    var c := a + b[1..];
    forall i | 0 <= i < |c| - 1 ensures Next(c[i], c[i + 1]) {
      if i < |a| - 1 {
        assert Next(a[i], a[i + 1]);
      } else {
        assert Next(b[i - (|a| - 1)], b[i - (|a| - 1) + 1]);
      }
    }
  }

  lemma LeadsOn(s: State, s': State, s'': State, step: Step)
    requires Leads(s, s') && NextStep(s', s'', step)
    ensures Leads(s, s'')
  {
    var path :| Path(path) && path[0] == s && path[|path| - 1] == s';
    assert Next(s', s'');
    PathJoins(path, [s', s'']);
  }

  /** A run goes on wherever its last state leads. */
  lemma RunGoesOn(states: seq<State>, s: State) returns (longer: seq<State>)
    requires Run(states) && Leads(states[|states| - 1], s)
    ensures Run(longer) && states <= longer && longer[|longer| - 1] == s
  {
    var path :| Path(path) && path[0] == states[|states| - 1] && path[|path| - 1] == s;
    PathJoins(states, path);
    longer := states + path[1..];
  }
}
