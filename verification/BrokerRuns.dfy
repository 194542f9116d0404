/** Runs of the broker one behind the other. */
module BrokerRuns {
  import opened Records
  import opened Broker
  import BrokerOrder
  import BrokerReplies

  lemma RunOneMore(config: Config, state: State, actions: seq<Action>, action: Action)
    requires Run(config, state, actions).Some?
    ensures var before := Run(config, state, actions).value;
            Run(config, state, actions + [action])
            == if Enabled(config, before, action) then Some(Apply(config, before, action)) else None
  {
    assert (actions + [action])[..|actions|] == actions;
  }

  /** Running on from where a run ended. */
  lemma {:induction false} RunsJoin(config: Config, state: State, first: seq<Action>, second: seq<Action>)
    requires Run(config, state, first).Some?
    ensures Run(config, state, first + second) == Run(config, Run(config, state, first).value, second)
  {
    if second == [] {
      assert first + second == first;
    } else {
      var n := |second| - 1;
      RunsJoin(config, state, first, second[..n]);
      assert (first + second)[..|first| + n] == first + second[..n];
    }
  }

  /** What has been handled is never taken back. */
  lemma HandledStays(config: Config, state: State, action: Action)
    requires Enabled(config, state, action)
    ensures state.handled <= Apply(config, state, action).handled
  {
  }

  lemma {:induction false} HandledGrows(config: Config, state: State, actions: seq<Action>)
    requires Run(config, state, actions).Some?
    ensures state.handled <= Run(config, state, actions).value.handled
  {
    if actions != [] {
      var n := |actions| - 1;
      HandledGrows(config, state, actions[..n]);
      HandledStays(config, Run(config, state, actions[..n]).value, actions[n]);
    }
  }

  // ---------------------------------------------------------------- reachable states

  ghost predicate Reaches(config: Config, state: State, later: State) {
    exists actions :: Run(config, state, actions) == Some(later)
  }

  /** Some number of callers can bring the broker here, giving up wherever they like. */
  ghost predicate Reachable(config: Config, state: State) {
    exists clients: nat :: Reaches(config, Start(config, clients), state)
  }

  lemma {:induction false} ReachableIsSound(config: Config, state: State)
    requires Reachable(config, state)
    ensures BrokerOrder.Sequential(config, state) && BrokerReplies.Sound(config, state)
  {
    var clients: nat :| Reaches(config, Start(config, clients), state);
    var actions :| Run(config, Start(config, clients), actions) == Some(state);
    BrokerOrder.EveryRunIsSequential(config, clients, actions);
    BrokerReplies.EveryRunIsSound(config, clients, actions);
  }

  lemma {:induction false} ReachesOn(config: Config, a: State, b: State, c: State)
    requires Reaches(config, a, b) && Reaches(config, b, c)
    ensures Reaches(config, a, c)
  {
    var first :| Run(config, a, first) == Some(b);
    var second :| Run(config, b, second) == Some(c);
    RunsJoin(config, a, first, second);
  }

  lemma {:induction false} ReachableOn(config: Config, state: State, later: State)
    requires Reachable(config, state) && Reaches(config, state, later)
    ensures Reachable(config, later) && state.handled <= later.handled
  {
    var clients: nat :| Reaches(config, Start(config, clients), state);
    ReachesOn(config, Start(config, clients), state, later);
    var actions :| Run(config, state, actions) == Some(later);
    HandledGrows(config, state, actions);
  }

  lemma {:induction false} ReachableNext(config: Config, state: State, action: Action)
    requires Reachable(config, state) && Enabled(config, state, action)
    ensures Reachable(config, Apply(config, state, action))
    ensures Reaches(config, state, Apply(config, state, action))
  {
    RunOneMore(config, state, [], action);
    assert [] + [action] == [action];
    assert Reaches(config, state, Apply(config, state, action));
    ReachableOn(config, state, Apply(config, state, action));
  }
}
