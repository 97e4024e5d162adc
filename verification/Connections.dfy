/** The live-connection counter under every interleaving of claims and releases. */
module Connections {

  /** Where one caller of `try_acquire` stands; `current` is the count it last read. */
  datatype Phase = Idle | Trying(current: nat) | Holding | Refused(observed: nat)

  datatype State = State(count: int, phases: map<nat, Phase>)

  predicate Init(s: State) {
    s.count == 0 && forall t | t in s.phases :: s.phases[t] == Idle
  }

  datatype Step = Load(t: nat) | GiveUp(t: nat) | Exchange(t: nat, spurious: bool) | Release(t: nat)

  /** One atomic action of one thread; a weak compare-exchange may fail although the values agree. */
  predicate Next(s: State, limit: nat, step: Step, s': State) {
    step.t in s.phases &&
    match (step, s.phases[step.t])
    case (Load(t), Idle) => s.count >= 0 && s' == s.(phases := s.phases[t := Trying(s.count)])
    case (GiveUp(t), Trying(current)) => current >= limit && s' == s.(phases := s.phases[t := Refused(current)])
    case (Exchange(t, spurious), Trying(current)) =>
      && current < limit
      && (if s.count == current && !spurious then s' == State(current + 1, s.phases[t := Holding])
          else s.count >= 0 && s' == s.(phases := s.phases[t := Trying(s.count)]))
    case (Release(t), Holding) => s' == State(s.count - 1, s.phases[t := Idle])
    case _ => false
  }

  function Holders(s: State): set<nat> {
    set t | t in s.phases && s.phases[t] == Holding
  }

  ghost predicate Run(states: seq<State>, steps: seq<Step>, limit: nat) {
    && |states| == |steps| + 1
    && Init(states[0])
    && forall i | 0 <= i < |steps| :: Next(states[i], limit, steps[i], states[i + 1])
  }

  lemma StepKeepsCount(s: State, limit: nat, step: Step, s': State)
    requires Next(s, limit, step, s') && s.count == |Holders(s)| <= limit
    ensures s'.count == |Holders(s')| <= limit
  {
    var t := step.t;
    if step.Exchange? && s'.phases[t] == Holding {
      assert Holders(s') == Holders(s) + {t};
    } else if step.Release? {
      assert Holders(s') == Holders(s) - {t};
    } else {
      assert Holders(s') == Holders(s);
    }
  }

  /** At every point of every run the counter is the number of live slots and never exceeds the limit. */
  lemma {:induction false} CountIsHolders(states: seq<State>, steps: seq<Step>, limit: nat, i: nat)
    requires Run(states, steps, limit) && i <= |steps|
    ensures 0 <= states[i].count == |Holders(states[i])| <= limit
  {
    if i == 0 {
      assert Holders(states[0]) == {};
    } else {
      CountIsHolders(states, steps, limit, i - 1);
      StepKeepsCount(states[i - 1], limit, steps[i - 1], states[i]);
    }
  }

  /** The last step before `i` at which `t` was idle, or the start of the run. */
  function CallStart(states: seq<State>, t: nat, i: nat): (k: nat)
    requires i < |states|
    ensures k <= i
  {
    if i == 0 || (t in states[i].phases && states[i].phases[t] == Idle) then i else CallStart(states, t, i - 1)
  }

  /** What a trying or refused caller remembers is a count the counter had since its call began. */
  lemma {:induction false} RememberedCountWasReal(states: seq<State>, steps: seq<Step>, limit: nat, t: nat, i: nat)
    requires Run(states, steps, limit) && i <= |steps| && t in states[i].phases
    ensures var p := states[i].phases[t];
            && (p.Trying? ==> exists j :: CallStart(states, t, i) <= j <= i && states[j].count == p.current)
            && (p.Refused? ==>
                  exists j :: CallStart(states, t, i) <= j <= i && states[j].count == p.observed && p.observed >= limit)
  {
    if i > 0 {
      assert Next(states[i - 1], limit, steps[i - 1], states[i]);
      RememberedCountWasReal(states, steps, limit, t, i - 1);
      var before, after := states[i - 1].phases[t], states[i].phases[t];
      if steps[i - 1].t == t && after.Trying? {
        assert states[i - 1].count == after.current;
      }
    }
  }

  /** A caller is refused only if, during its call, the limit was fully used. */
  lemma RefusedOnlyAtLimit(states: seq<State>, steps: seq<Step>, limit: nat, t: nat, i: nat)
    requires Run(states, steps, limit) && i <= |steps| && t in states[i].phases && states[i].phases[t].Refused?
    ensures exists j :: CallStart(states, t, i) <= j <= i && states[j].count == limit == |Holders(states[j])|
  {
    RememberedCountWasReal(states, steps, limit, t, i);
    var j :| CallStart(states, t, i) <= j <= i && states[j].count == states[i].phases[t].observed
        && states[j].count >= limit;
    CountIsHolders(states, steps, limit, j);
  }

  /** A caller below the limit that nobody disturbs gets its slot, and can give it back. */
  lemma UndisturbedCallerSucceeds(s: State, limit: nat, t: nat)
    requires 0 <= s.count < limit && t in s.phases && s.phases[t] == Idle
    ensures var loaded := s.(phases := s.phases[t := Trying(s.count)]);
            var held := State(s.count + 1, s.phases[t := Holding]);
            && Next(s, limit, Load(t), loaded)
            && Next(loaded, limit, Exchange(t, false), held)
            && Next(held, limit, Release(t), s)
  {
    var loaded := s.(phases := s.phases[t := Trying(s.count)]);
    assert loaded.phases[t := Holding] == s.phases[t := Holding];
    assert s.phases[t := Holding][t := Idle] == s.phases;
  }

  /** At the limit it is refused. */
  lemma UndisturbedCallerIsRefused(s: State, limit: nat, t: nat)
    requires 0 <= limit <= s.count && t in s.phases && s.phases[t] == Idle
    ensures var loaded := s.(phases := s.phases[t := Trying(s.count)]);
            && Next(s, limit, Load(t), loaded)
            && Next(loaded, limit, GiveUp(t), s.(phases := s.phases[t := Refused(s.count)]))
            && forall spurious, after :: !Next(loaded, limit, Exchange(t, spurious), after)
  {
    var loaded := s.(phases := s.phases[t := Trying(s.count)]);
    assert loaded.phases[t := Refused(s.count)] == s.phases[t := Refused(s.count)];
  }
}
