/** The pots page: a fixed list of savings pots, each with an unclamped
    progress percentage. */
module PotsPage {
  import opened Ratios

  /** A pot as the page lists it; amounts in cents. */
  datatype PagePot = PagePot(name: string, target: int, total: int, theme: string)

  const Pots: seq<PagePot> := [
    PagePot("Savings", 200000, 15900, "#277C78"),
    PagePot("Concert Ticket", 15000, 6200, "#626070"),
    PagePot("Gift", 6000, 4000, "#82C9D7"),
    PagePot("New Laptop", 100000, 1000, "#F2CDAC"),
    PagePot("Holiday", 150000, 54000, "#C94736")
  ]

  /** `total / target * 100`, shown as the label and used as the bar's
      width without a clamp. */
  function Percentage(p: PagePot): Quantity {
    Percent(p.total, p.target)
  }

  /** With a positive target the percentage passes 100 exactly when the pot
      is over target and is 100 exactly when it is on target. */
  lemma PercentageAgainstTarget(p: PagePot)
    requires p.target > 0
    ensures Exceeds(Percentage(p), 100) <==> p.total > p.target
    ensures Equals(Percentage(p), 100) <==> p.total == p.target
  {
    PercentAgainstHundred(p.total, p.target);
  }

  /** Nothing guards a zero target: the percentage is then Infinity, or NaN
      for an empty pot, and over 100 whenever anything is saved. */
  lemma ZeroTarget(p: PagePot)
    requires p.target == 0
    ensures p.total > 0 ==> Percentage(p) == PlusInfinity && Exceeds(Percentage(p), 100)
    ensures p.total == 0 ==> Percentage(p) == NotANumber && !Exceeds(Percentage(p), 100)
  {
  }

  /** Every pot on the page is below its target. */
  lemma PagePotsBelowTarget()
    ensures forall i :: 0 <= i < |Pots| ==> Below(Percentage(Pots[i]), 100)
  {
    forall i | 0 <= i < |Pots| ensures Below(Percentage(Pots[i]), 100) {
      PercentAgainstHundred(Pots[i].total, Pots[i].target);
    }
  }
}
