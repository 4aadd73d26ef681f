/** The overview's budget widget: the first four budgets the API returns,
    each with a progress bar clamped at 100%. */
module HomeBudgets {
  import opened Records
  import opened Ratios

  /** `response.data.slice(0, 4)`. */
  function Shown(budgets: seq<Budget>): (r: seq<Budget>)
    ensures |r| == if |budgets| < 4 then |budgets| else 4
    ensures r == budgets[..|r|]
  {
    if |budgets| <= 4 then budgets else budgets[..4]
  }

  /** `Math.min(current / maximum * 100, 100)`. */
  function BarWidth(b: Budget): Quantity {
    MinWith(Percent(b.current, b.maximum), 100)
  }

  datatype Bar = Bar(category: string, current: int, maximum: int, width: Quantity, color: Option<string>)

  datatype View = NoBudgets | Bars(bars: seq<Bar>)

  import opened Wrappers

  /** The widget once the fetched list is in state. */
  function Render(fetched: seq<Budget>): View {
    var shown := Shown(fetched);
    if |shown| == 0 then NoBudgets
    else Bars(seq(|shown|, i requires 0 <= i < |shown| =>
      Bar(shown[i].category, shown[i].current, shown[i].maximum, BarWidth(shown[i]), shown[i].theme)))
  }

  /** The bar is never wider than 100%. */
  lemma BarNeverOverfull(b: Budget)
    ensures !Exceeds(BarWidth(b), 100)
  {
  }

  /** Within budget the bar shows the unclamped ratio; over budget it is
      exactly full. */
  lemma BarWidthClamps(b: Budget)
    requires b.maximum > 0
    ensures b.current <= b.maximum ==> SameValue(BarWidth(b), Percent(b.current, b.maximum))
    ensures b.current > b.maximum ==> BarWidth(b) == Fraction(100, 1)
  {
    PercentAgainstHundred(b.current, b.maximum);
  }

  /** An empty list renders only the placeholder; otherwise one bar per
      shown budget, in the order fetched, at most four. */
  lemma RenderShape(fetched: seq<Budget>)
    ensures Render(fetched) == NoBudgets <==> fetched == []
    ensures Render(fetched).Bars? ==> |Render(fetched).bars| <= 4
    ensures Render(fetched).Bars? ==> forall i :: 0 <= i < |Render(fetched).bars| ==>
              Render(fetched).bars[i].category == fetched[i].category && Render(fetched).bars[i].width == BarWidth(fetched[i])
  {
  }
}
