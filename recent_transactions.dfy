/** The overview's recent-transactions list: the first five transactions,
    each with an avatar or its initials, and an amount styled by the
    `is_income` flag. */
module RecentTransactions {
  import opened Wrappers
  import opened Records

  /** `transactions.slice(0, 5)`. */
  function Recent(txs: seq<Transaction>): (r: seq<Transaction>)
    ensures |r| == if |txs| < 5 then |txs| else 5
    ensures r == txs[..|r|]
  {
    if |txs| <= 5 then txs else txs[..5]
  }

  /** ASCII upper case of one character. */
  function UpperChar(c: char): char {
    if 'a' <= c <= 'z' then (c as int - 32) as char else c
  }

  /** `toUpperCase()`, character by character. */
  function Upper(s: string): (r: string)
    ensures |r| == |s|
    ensures forall i :: 0 <= i < |s| ==> r[i] == UpperChar(s[i])
  {
    if s == [] then [] else Upper(s[..|s| - 1]) + [UpperChar(s[|s| - 1])]
  }

  /** `name.substring(0, 2).toUpperCase()`. */
  function Initials(name: string): string {
    Upper(if |name| <= 2 then name else name[..2])
  }

  datatype AvatarView = Picture(src: string) | Placeholder(letters: string)

  /** An avatar that is null or empty is falsy, and the initials show
      instead. */
  function AvatarOf(t: Transaction): AvatarView {
    match t.avatar
    case Some(src) => if src != "" then Picture(src) else Placeholder(Initials(t.name))
    case None => Placeholder(Initials(t.name))
  }

  datatype AmountStyle = IncomeGreen | PlainDark

  /** The sign shown before the amount. */
  function Prefix(t: Transaction): string {
    if t.isIncome then "+" else ""
  }

  function Style(t: Transaction): AmountStyle {
    if t.isIncome then IncomeGreen else PlainDark
  }

  /** The placeholder is the upper-cased first two characters, or the whole
      name when it is shorter. */
  lemma InitialsShape(name: string)
    ensures |Initials(name)| == if |name| < 2 then |name| else 2
    ensures forall i :: 0 <= i < |Initials(name)| ==> Initials(name)[i] == UpperChar(name[i])
    ensures |name| < 2 ==> Initials(name) == Upper(name)
  {
  }

  /** A picture is shown exactly when the avatar is present and not
      empty, and then it is the stored avatar. */
  lemma AvatarChoice(t: Transaction)
    ensures AvatarOf(t).Picture? <==> t.avatar.Some? && t.avatar.value != ""
    ensures AvatarOf(t).Picture? ==> AvatarOf(t).src == t.avatar.value
    ensures AvatarOf(t).Placeholder? ==> AvatarOf(t).letters == Initials(t.name)
  {
  }

  /** The `+` and the green style follow the flag alone; the amount's sign
      plays no part. */
  lemma IncomeStyling(t: Transaction, amount: int)
    ensures Prefix(t) == "+" <==> t.isIncome
    ensures Style(t) == IncomeGreen <==> t.isIncome
    ensures Prefix(t.(amount := amount)) == Prefix(t) && Style(t.(amount := amount)) == Style(t)
  {
  }
}
