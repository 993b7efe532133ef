/** The chart manager (`Visualizer`) and its scenarios (`SubPlot`): an ordered
    active set of scenario references, grown by `add_sub_plot`, shrunk by
    `remove_sub_plot`, and redrawn in insertion order after every change.
    The figure is modelled as the list of curves drawn on it since the last
    clear; widgets, labels, legend and repainting are not modelled. */
module App {
  import opened Wrappers
  import opened Lists
  import opened Curve

  /** The exceptions a chart operation can end with. */
  datatype Error =
    | InvalidParameter(violation: Violation)  // a constructor assertion failed
    | NotRegistered                           // `list.remove` found nothing
    | DivisionByZero(plot: nat)               // drawing the plot at this index failed

  /** What a redraw leaves on the figure: the curves drawn, in order, and the
      index of the plot whose drawing raised, if one did. */
  datatype Figure = Figure(curves: seq<Series>, failedAt: Option<nat>)

  /** Clear the figure, then draw each scenario in turn, stopping at the first
      one that cannot be drawn. */
  function Render(ps: seq<Params>): Figure
    decreases |ps|
  {
    if ps == [] then Figure([], None)
    else
      var before := Render(ps[..|ps| - 1]);
      if before.failedAt.Some? then before
      else match Draw(ps[|ps| - 1])
        case Some(s) => Figure(before.curves + [s], None)
        case None => Figure(before.curves, Some(|ps| - 1))
  }

  /** A redraw draws one curve per scenario, in the order of the active set,
      each the scenario's own series; it stops exactly at the first scenario
      that cannot be drawn, keeping the curves drawn before it. */
  lemma {:induction false} RenderDrawsInOrder(ps: seq<Params>)
    ensures |Render(ps).curves| <= |ps|
    ensures forall i :: 0 <= i < |Render(ps).curves| ==>
      Draw(ps[i]).Some? && Render(ps).curves[i] == Draw(ps[i]).value
    ensures Render(ps).failedAt.None? <==> |Render(ps).curves| == |ps|
    ensures Render(ps).failedAt.Some? ==>
      Render(ps).failedAt.value == |Render(ps).curves| &&
      Draw(ps[Render(ps).failedAt.value]).None?
  {
    if ps != [] {
      var init := ps[..|ps| - 1];
      RenderDrawsInOrder(init);
      var before := Render(init);
      assert forall i :: 0 <= i < |init| ==> init[i] == ps[i];
      if before.failedAt.None? {
        var last := Draw(ps[|ps| - 1]);
        if last.Some? {
          assert Render(ps).curves == before.curves + [last.value];
        } else {
          assert Render(ps) == Figure(before.curves, Some(|ps| - 1));
        }
      } else {
        assert Render(ps) == before;
      }
    }
  }

  /** A redraw succeeds exactly when every scenario can be drawn. */
  lemma RenderSucceeds(ps: seq<Params>)
    ensures Render(ps).failedAt.None? <==> forall i :: 0 <= i < |ps| ==> Draw(ps[i]).Some?
  {
    RenderDrawsInOrder(ps);
  }

  /** Scenarios that all passed the constructor's checks can always be drawn. */
  lemma ValidScenariosRender(ps: seq<Params>)
    requires forall i :: 0 <= i < |ps| ==> Validate(ps[i]).None?
    ensures Render(ps).failedAt.None?
    ensures |Render(ps).curves| == |ps|
  {
    RenderSucceeds(ps);
    RenderDrawsInOrder(ps);
  }

  /** The exception a rendering ends with, if any. */
  function Raised(f: Figure): Option<Error> {
    match f.failedAt
    case None => None
    case Some(i) => Some(DivisionByZero(i))
  }

  /** The parameters of a list of scenarios, in the same order. */
  function Scenarios(plots: seq<SubPlot>): (ps: seq<Params>)
    reads plots
    ensures |ps| == |plots|
    ensures forall i :: 0 <= i < |plots| ==> ps[i] == plots[i].Snapshot()
  {
    if plots == [] then []
    else Scenarios(plots[..|plots| - 1]) + [plots[|plots| - 1].Snapshot()]
  }

  class Visualizer {
    /** The active set, in insertion (and drawing) order. */
    var plots: seq<SubPlot>
    /** The curves currently on the figure. */
    var chart: seq<Series>

    /** Every scenario is registered once, with this chart manager. */
    ghost predicate Valid()
      reads this
    {
      Distinct(plots) && forall s :: s in plots ==> s.visualizer == this
    }

    constructor ()
      ensures plots == [] && chart == []
      ensures Valid()
    {
      plots := [];
      chart := [];
    }

    /** `redraw`: clear the figure and draw every scenario in order. */
    method Redraw() returns (err: Option<Error>)
      modifies this`chart
      ensures chart == Render(Scenarios(plots)).curves
      ensures err == Raised(Render(Scenarios(plots)))
    {
      var ps := Scenarios(plots);
      chart := [];
      var i := 0;
      while i < |ps|
        invariant 0 <= i <= |ps|
        invariant Render(ps[..i]) == Figure(chart, None)
      {
        var d := Draw(ps[i]);
        if d.None? {
          RenderFailsAt(ps, i);
          assert Scenarios(plots) == ps;
          return Some(DivisionByZero(i));
        }
        RenderStep(ps, i);
        chart := chart + [d.value];
        i := i + 1;
      }
      assert ps[..i] == ps;
      assert Scenarios(plots) == ps;
      return None;
    }

    /** `add_sub_plot`: append to the active set, then redraw. */
    method AddSubPlot(s: SubPlot) returns (err: Option<Error>)
      modifies this
      ensures plots == old(plots) + [s]
      ensures chart == Render(Scenarios(plots)).curves
      ensures err == Raised(Render(Scenarios(plots)))
      ensures old(Valid()) && s !in old(plots) && s.visualizer == this ==> Valid()
    {
      plots := plots + [s];
      err := Redraw();
    }

    /** `remove_sub_plot`: delete the first occurrence of `s` (by identity)
        and redraw; if `s` is not in the active set nothing changes. */
    method RemoveSubPlot(s: SubPlot) returns (err: Option<Error>)
      modifies this
      ensures s !in old(plots) ==>
        err == Some(NotRegistered) && plots == old(plots) && chart == old(chart)
      ensures s in old(plots) ==>
        plots == RemoveFirst(old(plots), s) &&
        chart == Render(Scenarios(plots)).curves &&
        err == Raised(Render(Scenarios(plots)))
      ensures old(Valid()) ==> Valid() && s !in plots
    {
      if s !in plots {
        return Some(NotRegistered);
      }
      ghost var before := plots;
      if Valid() {
        RemoveFirstDistinct(plots, s);
      }
      var i := IndexOf(plots, s);
      plots := plots[..i] + plots[i + 1..];
      RemoveFirstSplices(before, s);
      err := Redraw();
    }
  }

  class SubPlot {
    const visualizer: Visualizer
    var initialInvestment: real
    var yearlyInvestment: real
    var annualReturn: real
    var ageStarted: int
    var maxAge: int

    /** The scenario's current parameters. */
    function Snapshot(): Params
      reads this
    {
      Params(initialInvestment, yearlyInvestment, annualReturn, ageStarted, maxAge)
    }

    /** Field assignment part of `__init__`; it neither checks nor registers. */
    constructor (visualizer: Visualizer, p: Params)
      ensures this.visualizer == visualizer && Snapshot() == p
    {
      this.visualizer := visualizer;
      initialInvestment := p.initial;
      yearlyInvestment := p.yearly;
      annualReturn := p.annualReturn;
      ageStarted := p.ageStarted;
      maxAge := p.maxAge;
    }

    /** `SubPlot(visualizer, ...)`: check the four assertions, then build the
        scenario and register it, which redraws the chart. A failed check
        leaves the chart manager untouched. A redraw that raises still leaves
        the new scenario registered at the end of the active set. */
    static method New(visualizer: Visualizer, p: Params) returns (res: Result<SubPlot, Error>)
      modifies visualizer
      ensures Validate(p).Some? ==>
        res == Failure(InvalidParameter(Validate(p).value)) &&
        visualizer.plots == old(visualizer.plots) && visualizer.chart == old(visualizer.chart)
      ensures Validate(p).None? ==>
        |visualizer.plots| == |old(visualizer.plots)| + 1 &&
        visualizer.plots[..|old(visualizer.plots)|] == old(visualizer.plots)
      ensures Validate(p).None? ==>
        fresh(visualizer.plots[|old(visualizer.plots)|]) &&
        visualizer.plots[|old(visualizer.plots)|].visualizer == visualizer &&
        visualizer.plots[|old(visualizer.plots)|].Snapshot() == p
      ensures Validate(p).None? ==>
        visualizer.chart == Render(Scenarios(visualizer.plots)).curves
      ensures Validate(p).None? && Raised(Render(Scenarios(visualizer.plots))).None? ==>
        res == Success(visualizer.plots[|old(visualizer.plots)|])
      ensures Validate(p).None? && Raised(Render(Scenarios(visualizer.plots))).Some? ==>
        res == Failure(Raised(Render(Scenarios(visualizer.plots))).value)
      ensures old(visualizer.Valid()) ==> visualizer.Valid()
    {
      var v := Validate(p);
      if v.Some? {
        return Failure(InvalidParameter(v.value));
      }
      var s := new SubPlot(visualizer, p);
      var err := visualizer.AddSubPlot(s);
      assert visualizer.plots[..|old(visualizer.plots)|] == old(visualizer.plots);
      res := if err.None? then Success(s) else Failure(err.value);
    }

    /** `update_values`, given the already parsed field contents: assign all
        five parameters and redraw. The constructor's checks are not made
        again. */
    method UpdateValues(initial: real, yearly: int, annualReturn: real, ageStarted: int, maxAge: int)
      returns (err: Option<Error>)
      modifies this, visualizer`chart
      ensures Snapshot() == Params(initial, yearly as real, annualReturn, ageStarted, maxAge)
      ensures visualizer.chart == Render(Scenarios(visualizer.plots)).curves
      ensures err == Raised(Render(Scenarios(visualizer.plots)))
    {
      initialInvestment := initial;
      yearlyInvestment := yearly as real;
      this.annualReturn := annualReturn;
      this.ageStarted := ageStarted;
      this.maxAge := maxAge;
      err := visualizer.Redraw();
    }

    /** `update_values` as the constructor's checks call for: parameters that
        fail them are rejected and nothing changes; otherwise the update and
        redraw happen as in `UpdateValues`. */
    method CheckedUpdate(initial: real, yearly: int, annualReturn: real, ageStarted: int, maxAge: int)
      returns (err: Option<Error>)
      modifies this, visualizer`chart
      ensures var p := Params(initial, yearly as real, annualReturn, ageStarted, maxAge);
        if Validate(p).Some? then
          err == Some(InvalidParameter(Validate(p).value)) &&
          Snapshot() == old(Snapshot()) && visualizer.chart == old(visualizer.chart)
        else
          Snapshot() == p &&
          visualizer.chart == Render(Scenarios(visualizer.plots)).curves &&
          err == Raised(Render(Scenarios(visualizer.plots)))
      ensures old(Validate(Snapshot())).None? ==> Validate(Snapshot()).None?
      ensures (forall q :: q in visualizer.plots ==> Validate(q.Snapshot()).None?) ==>
        err.None? || err.value.InvalidParameter?
    {
      var p := Params(initial, yearly as real, annualReturn, ageStarted, maxAge);
      var v := Validate(p);
      if v.Some? {
        return Some(InvalidParameter(v.value));
      }
      err := UpdateValues(initial, yearly, annualReturn, ageStarted, maxAge);
      ghost var ps := Scenarios(visualizer.plots);
      if forall q :: q in visualizer.plots ==> Validate(q.Snapshot()).None? {
        assert forall i :: 0 <= i < |ps| ==> visualizer.plots[i] in visualizer.plots;
        ValidScenariosRender(ps);
      }
    }
  }

  /** Program start: a chart manager with one scenario of default
      parameters, whose curve is then the only one on the figure. */
  method Startup() returns (v: Visualizer, s: SubPlot)
    ensures fresh(v) && fresh(s)
    ensures v.plots == [s] && v.Valid()
    ensures s.visualizer == v && s.Snapshot() == Default
    ensures Draw(s.Snapshot()).Some? && v.chart == [Draw(s.Snapshot()).value]
  {
    v, s := StartWith(Default);
  }

  /** A fresh chart manager whose first scenario has parameters `p`. */
  method StartWith(p: Params) returns (v: Visualizer, s: SubPlot)
    requires Validate(p).None?
    ensures fresh(v) && fresh(s)
    ensures v.plots == [s] && v.Valid()
    ensures s.visualizer == v && s.Snapshot() == p
    ensures Draw(s.Snapshot()).Some? && v.chart == [Draw(s.Snapshot()).value]
  {
    v := new Visualizer();
    var res := SubPlot.New(v, p);
    s := v.plots[0];
    ChartOfOne(v.plots, s);
    SingleIsValid(v, s);
  }

  /** An active set of one scenario registered with its chart manager. */
  lemma SingleIsValid(v: Visualizer, s: SubPlot)
    requires v.plots == [s] && s.visualizer == v
    ensures v.Valid()
  {
  }

  /** The chart of an active set holding one drawable scenario. */
  lemma ChartOfOne(plots: seq<SubPlot>, s: SubPlot)
    requires plots == [s] && Draw(s.Snapshot()).Some?
    ensures Render(Scenarios(plots)).curves == [Draw(s.Snapshot()).value]
  {
    assert Scenarios(plots) == [s.Snapshot()];
    RenderOne(s.Snapshot());
  }

  /** A single drawable scenario renders as its own curve. */
  lemma RenderOne(p: Params)
    requires Draw(p).Some?
    ensures Render([p]) == Figure([Draw(p).value], None)
  {
    assert [p][..0] == [];
  }

  /** `update_values` accepts a zero return, which the constructor rejects;
      the next redraw then raises on that scenario and leaves its curve off
      the figure. */
  lemma ZeroReturnUpdateBreaksRedraw()
    ensures Validate(Default.(annualReturn := 0.0)) == Some(ReturnOutOfRange)
    ensures Render([Default.(annualReturn := 0.0)]) == Figure([], Some(0))
  {
    var ps := [Default.(annualReturn := 0.0)];
    assert ps[..0] == [];
  }

  /** Start with one valid scenario, then give it a zero return with
      `update_values`: the update is accepted, the redraw raises on that
      scenario, and the figure is left without any curve. */
  method UpdateToZeroReturn(p: Params, yearly: int) returns (v: Visualizer, s: SubPlot, err: Option<Error>)
    requires Validate(p).None?
    ensures fresh(v) && fresh(s)
    ensures v.plots == [s] && s.Snapshot() == p.(yearly := yearly as real, annualReturn := 0.0)
    ensures err == Some(DivisionByZero(0)) && v.chart == []
  {
    v, s := StartWith(p);
    err := s.UpdateValues(p.initial, yearly, 0.0, p.ageStarted, p.maxAge);
    assert v.plots == [s];
    assert Scenarios(v.plots) == [s.Snapshot()];
    ZeroReturnRendersNothing(s.Snapshot());
  }

  /** The run that shows the finding: the program starts with the default
      scenario, and the user enters a zero "Annual %" and presses Update. */
  method ZeroReturnUpdateRun() returns (v: Visualizer, s: SubPlot, err: Option<Error>)
    ensures v.plots == [s] && s.Snapshot() == Params(5000.0, 0.0, 0.0, 22, 67)
    ensures err == Some(DivisionByZero(0)) && v.chart == []
  {
    v, s, err := UpdateToZeroReturn(Default, 0);
  }

  /** A lone scenario with a zero return and a non-empty age range renders
      nothing and fails at its own index. */
  lemma ZeroReturnRendersNothing(q: Params)
    requires q.annualReturn == 0.0 && q.ageStarted < q.maxAge
    ensures Render([q]) == Figure([], Some(0))
  {
    assert [q][..0] == [];
  }

  /** Rendering one more scenario after a prefix that drew without failure. */
  lemma RenderStep(ps: seq<Params>, i: nat)
    requires i < |ps| && Render(ps[..i]).failedAt.None?
    ensures Render(ps[..i + 1]) ==
      match Draw(ps[i])
      case Some(s) => Figure(Render(ps[..i]).curves + [s], None)
      case None => Figure(Render(ps[..i]).curves, Some(i))
  {
    assert ps[..i + 1][..i] == ps[..i];
  }

  /** A scenario that cannot be drawn, after a prefix that could, ends the
      rendering of the whole list there. */
  lemma RenderFailsAt(ps: seq<Params>, i: nat)
    requires i < |ps| && Render(ps[..i]).failedAt.None? && Draw(ps[i]).None?
    ensures Render(ps) == Figure(Render(ps[..i]).curves, Some(i))
  {
    RenderStep(ps, i);
    RenderStops(ps, i + 1);
  }

  /** Once the first `n` scenarios have been rendered with a failure, further
      scenarios do not change the figure. */
  lemma {:induction false} RenderStops(ps: seq<Params>, n: nat)
    requires n <= |ps| && Render(ps[..n]).failedAt.Some?
    ensures Render(ps) == Render(ps[..n])
    decreases |ps| - n
  {
    if n < |ps| {
      assert ps[..n + 1][..n] == ps[..n];
      assert Render(ps[..n + 1]) == Render(ps[..n]);
      RenderStops(ps, n + 1);
    } else {
      assert ps[..n] == ps;
    }
  }
}
