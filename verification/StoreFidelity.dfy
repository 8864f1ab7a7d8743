/**
 What becomes of templates in the store. The store interface is handed the new nodes and the
 rewritten dependency lists of an expansion, but not that the template is done; the Postgres store
 therefore reloads the template as Pending. A durable store keeps it.
 */
module StoreFidelity {
  import opened Wrappers
  import opened Dag
  import opened Engine
  import opened GraphShape
  import opened RunInvariants
  import opened RunSafety
  import opened RunVerdict

  predicate TemplatesTracked(durable: bool, g0: Graph, g: Graph) {
    forall t :: t in g0 && g0[t].kind.ForEachTemplate? ==>
      t in g && (g[t].status.Succeeded? <==> durable && t in Expanded(g0, g))
  }

  lemma CycleTracks(g0: Graph, durable: bool, g: Graph, input: CycleInput)
    requires InitialGraph(g0) && Inv(g0, g) && TemplatesTracked(durable, g0, g)
    ensures TemplatesTracked(durable, g0, RunCycle(durable, g, input).rows)
  {
    CycleCases(durable, g, input);
    if !Stops(g) {
      var g' := RunCycle(durable, g, input).rows;
      CycleExpands(g0, durable, g, input);
      ReadyIsRunnable(g0, durable, g, input.now);
      forall t | t in g0 && g0[t].kind.ForEachTemplate?
        ensures t in g' && (g'[t].status.Succeeded? <==> durable && t in Expanded(g0, g'))
      {
        assert NodeShape(g0, g, g[t]) && NodeOk(g0, g, g[t]);
        var stored := Stored(durable, g);
        assert stored[t].kind.ForEachTemplate?;
        assert t in ReadySet(InMemory(g), input.now) ==> Runnable(stored, t);
        assert g'[t] == stored[t];
      }
    }
  }

  lemma {:induction false} RunTracks(durable: bool, g0: Graph, inputs: seq<CycleInput>)
    requires InitialGraph(g0)
    ensures TemplatesTracked(durable, g0, After(durable, g0, inputs))
  {
    if inputs == [] {
      InitialShape(g0);
      assert forall t :: t in g0 ==> InitialNode(g0, g0[t]);
    } else {
      var before := inputs[..|inputs| - 1];
      RunTracks(durable, g0, before);
      RunKeepsInv(durable, g0, before);
      CycleTracks(g0, durable, After(durable, g0, before), inputs[|inputs| - 1]);
    }
  }

  /**
   A cycle fails on its insert exactly when the store is not durable and some template was expanded
   before: the template is loaded as Pending, expanded again, and its join is already there.
   */
  lemma StoreErrorIff(durable: bool, g0: Graph, inputs: seq<CycleInput>, input: CycleInput)
    requires InitialGraph(g0)
    ensures RunCycle(durable, After(durable, g0, inputs), input).outcome.StoreError?
       <==> !durable && Expanded(g0, After(durable, g0, inputs)) != {} && !Hangs(After(durable, g0, inputs))
  {
    var g := After(durable, g0, inputs);
    RunKeepsInv(durable, g0, inputs);
    RunTracks(durable, g0, inputs);
    CycleCases(durable, g, input);
    InsertFailsIff(g0, g);
    forall t | t in Expanded(g0, g) ensures t in Expandable(g) <==> !durable {
      assert NodeShape(g0, g, g[t]) && NodeOk(g0, g, g[t]);
    }
    if !durable && Expanded(g0, g) != {} {
      var t :| t in Expanded(g0, g);
      assert t in Expandable(g) * Expanded(g0, g);
    }
  }

  /** With the Postgres store, a workflow that contains a template never reports completion. */
  lemma TemplatesNeverComplete(g0: Graph, inputs: seq<CycleInput>, input: CycleInput, t: Id)
    requires InitialGraph(g0) && IsTemplate(g0, t)
    ensures !RunCycle(false, After(false, g0, inputs), input).outcome.Complete?
  {
    CompleteIff(false, g0, inputs, input);
    RunTracks(false, g0, inputs);
    RunKeepsInv(false, g0, inputs);
    var g := After(false, g0, inputs);
    assert NodeOk(g0, g, g[t]) && NodeShape(g0, g, g[t]);
    assert !g[t].status.Terminal();
  }

  /** A cycle that starts an expansion is the last one that does anything. */
  lemma ExpansionIsTheEnd(g0: Graph, inputs: seq<CycleInput>, input: CycleInput, next: CycleInput)
    requires InitialGraph(g0) && Expandable(After(false, g0, inputs)) != {}
    ensures var g' := After(false, g0, inputs + [input]);
            RunCycle(false, g', next) == CycleResult(g', if Hangs(g') then Hung else StoreError)
  {
    RunKeepsInv(false, g0, inputs);
    AfterOneMore(false, g0, inputs, [input]);
    assert inputs + [input][..0] == inputs;
    ExpansionStopsNext(g0, After(false, g0, inputs), input);
    StoreErrorIff(false, g0, inputs + [input], next);
    CycleCases(false, After(false, g0, inputs + [input]), next);
  }

  lemma ExpansionStopsNext(g0: Graph, g: Graph, input: CycleInput)
    requires InitialGraph(g0) && Inv(g0, g) && Expandable(g) != {}
    ensures var g' := RunCycle(false, g, input).rows; Hangs(g') || Expanded(g0, g') != {}
  {
    CycleCases(false, g, input);
    if !Stops(g) {
      CycleExpands(g0, false, g, input);
    } else if !Hangs(g) {
      InsertFailsIff(g0, g);
    }
  }
}
