# Compound interest visualizer — a verified model

The program plots compound-interest growth curves for one or more investment
scenarios. A chart manager (`Visualizer`) keeps an ordered active set of
scenarios (`SubPlot`). It redraws all of them after every add, remove or
update. A scenario has five parameters: initial investment, yearly
contribution, annual return rate, starting age and maximum age. Its curve
pairs each age in `[age_started, max_age)` with
`P0*(1+r)^k + C*((1+r)^k - 1)/r`, where `k` is the number of years since the
starting age.

The model has four modules:

- `Wrappers` (`wrappers.dfy`): `Option` and `Result`.
- `Lists` (`lists.dfy`): the two Python list operations the chart manager
  uses. `append` is sequence concatenation. `remove` (`RemoveFirst`,
  recursive on its own) deletes the first element equal to its argument.
  `RemoveSubPlot` splices the list around the position `IndexOf` finds, and
  `RemoveFirstSplices` proves the two agree. `SubPlot`
  has no `__eq__`, so equality is object identity, which is also what Dafny's
  `==` on class references means.
- `Curve` (`curve.dfy`): the parameter record and the four constructor
  checks (`Validate`). Also the curve computation of `draw_plot`: `Range`,
  `Pow`, `ValueAfter`, `Values` and `Draw`. Values are exact `real`s, and the
  exponent is a natural number, so the formula is stated exactly.
- `App` (`app.dfy`): the classes. `Visualizer` holds `plots: seq<SubPlot>`
  and `chart: seq<Series>`, the curves on the figure since the last clear.
  `SubPlot` has a `const visualizer` and five mutable parameter fields.
  `Render` is the specification of a redraw: clear, then draw each scenario
  in order, and stop at the first one whose drawing raises.

Three behaviours of Python are modelled as error results:

- Division by zero. If `update_values` sets the return to `0`, the annuity
  term raises `ZeroDivisionError` whenever the age range is not empty.
  `Draw` returns `None` in that case, and a redraw stops at that scenario
  with `DivisionByZero(index)`. The curves drawn before it stay on the
  figure.
- Removing a scenario that is not in the active set. `list.remove` raises;
  the model returns `NotRegistered` and changes nothing.
- The constructor's `AssertionError` on bad parameters, returned as
  `InvalidParameter` with the first check that fails.

The model splits the Python constructor in two:

- `SubPlot.New` makes the four checks and returns
  `Failure(InvalidParameter(v))`, with the chart manager untouched.
- The anonymous constructor only assigns the fields. `New` then registers
  the scenario.

Registration redraws, and the redraw can raise because of another scenario
that was given a zero return earlier. In that case the new scenario is
already appended, exactly as in the source, and `New` returns the error.

Two facts about the code are worth stating up front:

- `update_values` (main.py:138-144) does not repeat the checks of
  main.py:71-74 (see Findings).
- `ValueGrows` and `ValidSeries` prove that, under those checks, consecutive
  values grow strictly exactly when `P0 > 0` or `C > 0`, and are equal
  otherwise.

## Model

| member | source | states |
|---|---|---|
| `Curve.Validate` | main.py:71-74 | reports no violation iff `0 < annual_return < 1`, `age_started < max_age`, `initial >= 0` and `yearly >= 0`; a reported violation is the first of the four assertions, in source order, that fails, and the earlier ones hold |
| `Curve.EachConditionRejects` | main.py:71-74 | each of the four conditions failing on its own is enough for the parameters to be rejected |
| `Curve.Default` | main.py:66-70 | the default arguments of the constructor: initial 5000, yearly 0, return 0.08, ages 22 to 67 |
| `Curve.Pow` | main.py:89-90 | `**` with a natural exponent: `b` multiplied by itself `k` times, `1` for `k = 0` |
| `Curve.PowPositive` | main.py:89 | a positive base raised to a natural power is positive (used for the growth factor `1 + r`) |
| `Curve.ValueAfter` | main.py:89-90 | the value after `k` years, `P0*(1+r)^k + C*((1+r)^k - 1)/r`; it needs `r != 0`, the case in which Python's division does not raise |
| `Curve.ValueAtStart` | main.py:88-90 | at zero years the value is the initial investment, because the annuity term is `(1 - 1)/r = 0` |
| `Curve.ValueStep` | main.py:88-92 | one more year adds `(1+r)^k * (P0*r + C)` to the value |
| `Curve.ValueGrows` | main.py:88-92 | under the constructor invariants, the value strictly grows from year `k` to `k+1` when `P0 > 0` or `C > 0`, and is unchanged otherwise |
| `Curve.Range` | main.py:86 | `range(lo, hi)` has `hi - lo` elements (none if `lo >= hi`), and its i-th element is `lo + i` |
| `Curve.Values` | main.py:88-92 | the y comprehension: for each age, the value after `age - age_started` years |
| `Curve.Draw` | main.py:85-92 | the series exists exactly when the return is non-zero or the age range is empty; otherwise the division by zero is reported |
| `Curve.DrawnPoints` | main.py:86-92 | a drawn series has one value per age; its i-th point is age `age_started + i` with value `P0*(1+r)^i + C*((1+r)^i - 1)/r` |
| `Curve.ValidSeries` | main.py:85-92 | for parameters that pass the constructor checks: the series exists, has `max_age - age_started` points, starts at `(age_started, P0)`, never decreases, and each step grows strictly iff `P0 > 0` or `C > 0` |
| `Curve.FirstPoint` | main.py:88-90 | any non-empty drawn series starts at `age_started` with the initial investment, whatever the other parameters |
| `Curve.DefaultSeries` | main.py:66-70 | the default parameters (5000, 0, 0.08, 22, 67) pass the checks and give 45 points, for ages 22 to 66, starting at 5000 |
| `Curve.DefaultSecondYear` | main.py:66-70 | one year into the default scenario the value is 5400 |
| `Curve.SingleYearSeries` | main.py:86-92 | start 1000, contribution 500, return 0.05, ages 30 to 31: a single point, `(30, 1000)` |
| `Lists.IndexOf` | main.py:25 | the index found by `list.remove` holds the element, and no earlier position does |
| `Lists.RemoveFirst` | main.py:25 | `list.remove` shortens the list by exactly one |
| `Lists.RemoveFirstSplices` | main.py:25 | removal takes out exactly the first occurrence; the elements before it and after it keep their order |
| `Lists.RemoveFirstMultiset` | main.py:25 | removal takes away one copy of the element and keeps every other element |
| `Lists.RemoveUndoesAppend` | main.py:20-26 | removing an element that was just appended, and occurs nowhere else, restores the list as it was before the append |
| `Lists.RemoveFirstDistinct` | main.py:25 | in a list without repetitions the removed element is gone entirely, and the rest still has no repetitions |
| `App.Render` | main.py:35-36 | the `for plot in self.plots` loop on a cleared figure: draw each scenario in turn, and stop at the first one whose drawing raises, keeping the curves already drawn |
| `App.RenderDrawsInOrder` | main.py:35-36 | a redraw draws curves in active-set order, each being that scenario's own series; it stops exactly at the first scenario that cannot be drawn, and keeps the curves drawn before it |
| `App.RenderSucceeds` | main.py:35-36 | a redraw completes iff every scenario in the active set can be drawn |
| `App.ValidScenariosRender` | main.py:35-36 | if every scenario passes the constructor checks, a redraw completes with one curve per scenario |
| `App.Raised` | main.py:35-36 | the exception that escapes `redraw`: `ZeroDivisionError` from the plot at the failing index, or none |
| `App.Scenarios` | main.py:35-36 | the parameters read from the active set, one per scenario, in order |
| `App.Visualizer.constructor` | main.py:18 | a new chart manager has an empty active set and an empty figure |
| `App.Visualizer.Redraw` | main.py:28-36 | the figure becomes `Render` of the active set's parameters, and the error is the one that rendering raises; only the figure changes, so two redraws in a row give the same figure |
| `App.Visualizer.AddSubPlot` | main.py:20-22 | the active set becomes the old one plus the new scenario at the end, and then the chart is redrawn; registration stays unique when the scenario is new and belongs to this manager |
| `App.Visualizer.RemoveSubPlot` | main.py:24-26 | an absent scenario gives `NotRegistered` and changes nothing; otherwise the active set becomes `RemoveFirst` of the old one and the chart is redrawn; with unique registration the scenario is gone afterwards |
| `App.SubPlot.constructor` | main.py:76-81 | the five parameters and the chart manager are stored as given |
| `App.SubPlot.New` | main.py:64-83 | rejected parameters give the first failing check and leave the chart manager unchanged; accepted ones append one fresh scenario with those parameters, keep the earlier entries, and redraw; a redraw error is returned although the scenario stays registered |
| `App.SubPlot.UpdateValues` | main.py:138-144 | the scenario's five parameters become the given values, with the yearly contribution an integer, without any check; the chart manager's active set is unchanged, and the chart is redrawn |
| `App.SubPlot.CheckedUpdate` | main.py:138-144 | the corrected update: values that fail the constructor checks are rejected and nothing changes; the scenario's invariants are preserved; when every scenario in the active set is valid the redraw cannot fail |
| `App.ZeroReturnUpdateBreaksRedraw` | main.py:138-144 | a zero return, which the constructor rejects, is accepted by `update_values`; the next redraw then raises on that scenario and draws nothing for it |
| `App.ZeroReturnRendersNothing` | main.py:35-36 | a lone scenario with a zero return and a non-empty age range renders no curve and fails at index 0 |
| `App.UpdateToZeroReturn` | main.py:138-144 | starting from any valid scenario, an `update_values` that sets the return to zero is accepted, the redraw raises `ZeroDivisionError` at that scenario, and the figure is left empty |
| `App.ZeroReturnUpdateRun` | main.py:138-144 | the same run from the program's default start with "Annual %" set to 0: the update goes through and the redraw raises at plot 0 with no curve drawn |
| `App.Startup` | main.py:57-58 | at program start a fresh chart manager and a fresh scenario exist; the active set holds exactly one registered scenario with the default parameters, and its curve is the only one on the figure |
| `App.StartWith` | main.py:57-58 | a new chart manager given one new valid scenario (both fresh) holds exactly that scenario, and the figure shows exactly its curve |

## Findings

| source | as written | input that shows it | evidently intended | confidence | as-written member | corrected member |
|---|---|---|---|---|---|---|
| main.py:138-144 | `update_values` assigns the parsed fields without the four checks of main.py:71-74 | enter `0` in "Annual %" and press Update: the next redraw divides by zero at main.py:90, and the figure is left cleared, without that curve | an update is held to the constructor's checks and rejected, with nothing changed, when it fails them | not executed | `App.ZeroReturnUpdateRun` (with `App.ZeroReturnUpdateBreaksRedraw` and `App.SubPlot.UpdateValues`) | `App.SubPlot.CheckedUpdate` |

## Left out

- Tkinter: the window, frames, labels, entry fields, the styled buttons and
  their lambdas, and `mainloop` (main.py:15-16, 42-60, 98-136). This is GUI
  plumbing with no logic of its own. `Startup` models only the registration
  of the first default scenario (main.py:58).
- The remove button's `input_frame.destroy()` (main.py:131). It is widget
  teardown.
- matplotlib and mplcursors: `plt.clf`, the axis labels and title, the
  label string of `plt.plot`, `plt.legend`, `mplcursors.cursor`, `plt.draw`
  and `FigureCanvasTkAgg` (main.py:11-13, 29-33, 38-40, 45, 94-96). These are
  side effects in foreign libraries. The figure is modelled only as the list
  of curves drawn since the last clear.
- The legend label (main.py:95-96). It depends on Python's float
  formatting.
- Floating point. Values are exact reals, so rounding and the
  `OverflowError` that `**` raises on huge results are not modelled. The
  reference final point of the default scenario (about 134215.66) is an
  approximation and is not stated.
- Parsing the entry texts with `float()` and `int()` (main.py:139-143), and
  the `ValueError` these raise on bad text. Parsing happens in the standard
  library. `UpdateValues` takes already-typed values, with the yearly
  contribution as an integer. So it does not capture that a `ValueError` on
  a later field leaves the earlier fields already assigned and skips the
  redraw (main.py:139-144).
- Python's dynamic typing. The parameters are typed as reals and integers,
  so the `TypeError` that `range` raises for non-integer ages cannot occur.
- How Tk treats an exception raised in a button callback (it reports it and
  goes on). The model returns the exception as an error value.
- `Redraw` reads every scenario's parameters before drawing. The source
  reads them as it goes. The two are the same, because drawing changes no
  scenario.
