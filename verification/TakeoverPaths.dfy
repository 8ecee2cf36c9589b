/** Runs of the takeover protocol, put together from pieces. */
module TakeoverPaths {
  import opened Takeover

  /** A run leads from `w` to `v`; with `one`, no process starts while another is in enablePre. */
  predicate Leads(one: bool, w: World, run: seq<Action>, v: World) {
    IsRun(one, w, run) && After(one, w, run) == v
  }

  lemma {:induction false} LeadsOn(one: bool, w: World, a: Action, run: seq<Action>, v: World)
    requires Enabled(one, w, a) && Leads(one, Apply(w, a), run, v)
    ensures Leads(one, w, [a] + run, v)
  {
    var all := [a] + run;
    assert all[0] == a && all[1..] == run;
  }

  lemma {:induction false} LeadsFirst(one: bool, w: World, run: seq<Action>, v: World)
    returns (a: Action, rest: seq<Action>, u: World)
    requires Leads(one, w, run, v) && run != []
    ensures Enabled(one, w, a) && Apply(w, a) == u && Leads(one, u, rest, v) && run == [a] + rest
  {
    a, rest, u := run[0], run[1..], Apply(w, run[0]);
  }

  lemma {:induction false} Regroup<A>(x: seq<A>, y: seq<A>, z: seq<A>)
    ensures (x + y) + z == x + (y + z)
  {
  }

  lemma {:induction false} RunAppend(one: bool, w: World, run: seq<Action>, v: World, more: seq<Action>, u: World)
    requires Leads(one, w, run, v) && Leads(one, v, more, u)
    ensures Leads(one, w, run + more, u)
    decreases |run|
  {
    if run == [] {
      assert run + more == more;
    } else {
      var a, rest, t := LeadsFirst(one, w, run, v);
      RunAppend(one, t, rest, v, more, u);
      LeadsOn(one, w, a, rest + more, u);
      Regroup([a], rest, more);
    }
  }

  lemma {:induction false} OneStep(one: bool, w: World, a: Action)
    requires Enabled(one, w, a)
    ensures Leads(one, w, [a], Apply(w, a))
  {
    LeadsOn(one, w, a, [], Apply(w, a));
    assert [a] + [] == [a];
  }
}
